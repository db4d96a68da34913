/** What becomes of the futures handed out by `submit`. */
module HostFutures {
  import opened Wrappers
  import opened HostModel

  /** The future the engine thread works for. */
  function Current(h: Thread): Option<nat> {
    if h.Waiting? || h.Exited? then None else Some(h.id)
  }

  /** A sentinel stands before position `i`. */
  ghost predicate Behind(commands: seq<Command>, i: nat)
    requires i <= |commands|
  {
    exists j :: 0 <= j < i && commands[j].Sentinel?
  }

  /** Every command in the queue has its own future, not yet run. */
  ghost predicate QueueFits(s: State) {
    && (forall i :: 0 <= i < |s.commands| && s.commands[i].Run? ==>
          s.commands[i].id in s.futures
          && (s.futures[s.commands[i].id] == Future.Queued || s.futures[s.commands[i].id] == Cancelled))
    && (forall i, j :: 0 <= i < j < |s.commands| && s.commands[i].Run? && s.commands[j].Run? ==>
          s.commands[i].id != s.commands[j].id)
  }

  /** Every future not yet run is in the queue, and the one being run is the thread's. */
  ghost predicate FuturesFit(s: State) {
    && (forall id :: id in s.futures && s.futures[id] == Future.Queued ==>
          exists i :: 0 <= i < |s.commands| && s.commands[i].Run? && s.commands[i].id == id)
    && (forall id :: id in s.futures ==> (s.futures[id] == Started <==> Current(s.thread) == Some(id)))
    && (Current(s.thread).Some? ==> Current(s.thread).value in s.futures)
  }

  /** A future is resolved once, or not at all. */
  ghost predicate ResolvedOnce(s: State) {
    && (forall i, j :: 0 <= i < j < |s.resolutions| ==> s.resolutions[i] != s.resolutions[j])
    && (forall i :: 0 <= i < |s.resolutions| ==>
          s.resolutions[i] in s.futures && s.futures[s.resolutions[i]] == Resolved)
    && (forall id :: id in s.futures && s.futures[id] == Resolved ==> id in s.resolutions)
  }

  /** The stranded commands are those behind a sentinel; the thread never gets there. */
  ghost predicate StrandedFit(s: State) {
    && (s.thread.Exited? ==> s.sentinel)
    && (s.sentinel <==> s.thread.Exited? || Behind(s.commands, |s.commands|))
    && (forall i :: 0 <= i < |s.commands| && s.commands[i].Run? ==>
          (s.commands[i].id in s.stranded <==> s.thread.Exited? || Behind(s.commands, i)))
    && (forall id :: id in s.stranded ==>
          id in s.futures && (s.futures[id] == Future.Queued || s.futures[id] == Cancelled))
  }

  ghost predicate Fits(s: State) {
    QueueFits(s) && FuturesFit(s) && ResolvedOnce(s) && StrandedFit(s)
  }

  // ---- taking a command -----------------------------------------------------------------

  lemma Shifted(commands: seq<Command>, i: nat)
    requires 0 < i <= |commands|
    ensures Behind(commands, i) <==> commands[0].Sentinel? || Behind(commands[1..], i - 1)
  {
    if commands[0].Run? && Behind(commands, i) {
      var j :| 0 <= j < i && commands[j].Sentinel?;
      assert commands[1..][j - 1] == commands[j];
    }
    if Behind(commands[1..], i - 1) {
      var j :| 0 <= j < i - 1 && commands[1..][j].Sentinel?;
      assert commands[j + 1].Sentinel?;
    }
  }

  lemma TakeKeepsQueue(s: State)
    requires Fits(s) && ThreadEnabled(s, TakeCommand)
    ensures QueueFits(TakeNext(s))
  {
    var t := TakeNext(s);
    assert forall i :: 0 <= i < |t.commands| ==> t.commands[i] == s.commands[i + 1];
  }

  lemma TakeKeepsFutures(s: State)
    requires Fits(s) && ThreadEnabled(s, TakeCommand)
    ensures FuturesFit(TakeNext(s))
  {
    var t := TakeNext(s);
    forall id | id in t.futures && t.futures[id] == Future.Queued
      ensures exists i :: 0 <= i < |t.commands| && t.commands[i].Run? && t.commands[i].id == id
    {
      var i :| 0 <= i < |s.commands| && s.commands[i].Run? && s.commands[i].id == id;
      assert i > 0;
      assert t.commands[i - 1] == s.commands[i];
    }
  }

  lemma TakeKeepsMarks(s: State, i: nat)
    requires Fits(s) && ThreadEnabled(s, TakeCommand) && i < |s.commands| - 1 && s.commands[i + 1].Run?
    ensures var t := TakeNext(s);
      && t.commands[i] == s.commands[i + 1]
      && (t.commands[i].id in t.stranded <==> t.thread.Exited? || Behind(t.commands, i))
  {
    Shifted(s.commands, i + 1);
  }

  /** What is stranded is behind a sentinel, so it is not what is taken. */
  lemma TakeKeepsStrandedOnes(s: State, id: nat)
    requires Fits(s) && ThreadEnabled(s, TakeCommand) && id in s.stranded
    ensures var t := TakeNext(s);
      id in t.futures && (t.futures[id] == Future.Queued || t.futures[id] == Cancelled)
  {
    assert !Behind(s.commands, 0);
  }

  lemma TakeKeepsSentinel(s: State)
    requires Fits(s) && ThreadEnabled(s, TakeCommand)
    ensures var t := TakeNext(s);
      t.stranded == s.stranded && (t.sentinel <==> t.thread.Exited? || Behind(t.commands, |t.commands|))
  {
    Shifted(s.commands, |s.commands|);
  }

  lemma TakeKeepsStranded(s: State)
    requires Fits(s) && ThreadEnabled(s, TakeCommand)
    ensures StrandedFit(TakeNext(s))
  {
    var t := TakeNext(s);
    TakeKeepsSentinel(s);
    forall i | 0 <= i < |t.commands| && t.commands[i].Run?
      ensures t.commands[i].id in t.stranded <==> t.thread.Exited? || Behind(t.commands, i)
    {
      TakeKeepsMarks(s, i);
    }
    forall id | id in t.stranded
      ensures id in t.futures && (t.futures[id] == Future.Queued || t.futures[id] == Cancelled)
    {
      TakeKeepsStrandedOnes(s, id);
    }
  }

  lemma TakeFits(s: State)
    requires Fits(s) && ThreadEnabled(s, TakeCommand)
    ensures Fits(TakeNext(s))
  {
    TakeKeepsQueue(s);
    TakeKeepsFutures(s);
    TakeKeepsStranded(s);
  }

  // ---- the other steps --------------------------------------------------------------------

  lemma ResolveFits(s: State)
    requires Fits(s) && s.thread.Resolving?
    ensures Fits(ThreadApply(s, ResolveFuture))
  {
    var t := ThreadApply(s, ResolveFuture);
    assert s.futures[s.thread.id] == Started;
    assert s.thread.id !in s.resolutions;
    assert t.commands == s.commands;
    forall id | id in t.futures && t.futures[id] == Resolved
      ensures id in t.resolutions
    {
      if id != s.thread.id {
        assert id in s.resolutions;
      } else {
        assert t.resolutions[|s.resolutions|] == id;
      }
    }
  }

  lemma WorkingFits(s: State, l: ThreadStep)
    requires Fits(s) && ThreadEnabled(s, l) && !l.TakeCommand? && !l.ResolveFuture?
    ensures Fits(ThreadApply(s, l))
  {
    SameBook(s, l);
  }

  /** While a command runs, the queue and the futures stay as they are. */
  lemma SameBook(s: State, l: ThreadStep)
    requires ThreadEnabled(s, l) && !l.TakeCommand? && !l.ResolveFuture?
    ensures var t := ThreadApply(s, l);
      && t.commands == s.commands && t.futures == s.futures && t.resolutions == s.resolutions
      && t.sentinel == s.sentinel && t.stranded == s.stranded
      && Current(t.thread) == Current(s.thread) && !t.thread.Exited?
  {
  }

  lemma SubmitFits(s: State, id: nat, work: Work)
    requires Fits(s) && CallerEnabled(s, Submit(id, work))
    ensures Fits(CallerApply(s, Submit(id, work)))
  {
    var t, n := CallerApply(s, Submit(id, work)), |s.commands|;
    assert t.commands == s.commands + [Run(id, work)];
    Extended(s.commands, Run(id, work));
    forall u | u in t.futures && t.futures[u] == Future.Queued
      ensures exists i :: 0 <= i < |t.commands| && t.commands[i].Run? && t.commands[i].id == u
    {
      if u == id {
        assert t.commands[n].id == u;
      } else {
        var i :| 0 <= i < n && s.commands[i].Run? && s.commands[i].id == u;
        assert t.commands[i] == s.commands[i];
      }
    }
  }

  lemma Extended(commands: seq<Command>, c: Command)
    ensures forall i :: 0 <= i <= |commands| ==> (Behind(commands + [c], i) <==> Behind(commands, i))
    ensures Behind(commands + [c], |commands| + 1) <==> c.Sentinel? || Behind(commands, |commands|)
  {
    var longer := commands + [c];
    assert forall j :: 0 <= j < |commands| ==> longer[j] == commands[j];
    assert longer[|commands|] == c;
  }

  lemma SentinelFits(s: State)
    requires Fits(s)
    ensures Fits(CallerApply(s, PutSentinel))
  {
    var t := CallerApply(s, PutSentinel);
    Extended(s.commands, Sentinel);
    forall u | u in t.futures && t.futures[u] == Future.Queued
      ensures exists i :: 0 <= i < |t.commands| && t.commands[i].Run? && t.commands[i].id == u
    {
      var i :| 0 <= i < |s.commands| && s.commands[i].Run? && s.commands[i].id == u;
      assert t.commands[i] == s.commands[i];
    }
  }

  lemma CancelFits(s: State, id: nat)
    requires Fits(s) && CallerEnabled(s, Cancel(id))
    ensures Fits(CallerApply(s, Cancel(id)))
  {
  }

  /** The other calls touch neither the queue nor a future. */
  lemma OtherCallFits(s: State, l: CallerStep)
    requires Fits(s) && CallerEnabled(s, l) && (l.Close? || l.CheckPaused? || l.StoreDirective?)
    ensures Fits(CallerApply(s, l))
  {
  }

  lemma CallerFits(s: State, l: CallerStep)
    requires Fits(s) && CallerEnabled(s, l)
    ensures Fits(CallerApply(s, l))
  {
    match l
    case Submit(id, work) => SubmitFits(s, id, work);
    case PutSentinel => SentinelFits(s);
    case Cancel(id) => CancelFits(s, id);
    case Close => OtherCallFits(s, l);
    case CheckPaused => OtherCallFits(s, l);
    case StoreDirective(_, _) => OtherCallFits(s, l);
  }

  lemma ThreadFits(s: State, l: ThreadStep)
    requires Fits(s) && ThreadEnabled(s, l)
    ensures Fits(ThreadApply(s, l))
  {
    if l.TakeCommand? {
      TakeFits(s);
    } else if l.ResolveFuture? {
      ResolveFits(s);
    } else {
      WorkingFits(s, l);
    }
  }

  lemma {:induction false} RunFits(s: State, ls: seq<Label>)
    requires IsRun(s, ls) && Fits(s)
    ensures Fits(Exec(s, ls))
    decreases |ls|
  {
    if ls != [] {
      match ls[0] {
        case Engine(step) => ThreadFits(s, step);
        case Caller(call) => CallerFits(s, call);
      }
      RunFits(Apply(s, ls[0]), ls[1..]);
    }
  }

  /** At any time, no future has been resolved twice. Once the engine thread has ended, a future
      submitted before the sentinel is resolved or was cancelled, and one submitted behind it never
      is resolved: its waiter is left waiting unless it was cancelled. */
  lemma EveryFutureSettled(ls: seq<Label>)
    requires IsRun(Initial(), ls)
    ensures var s := Exec(Initial(), ls);
      && (forall i, j :: 0 <= i < j < |s.resolutions| ==> s.resolutions[i] != s.resolutions[j])
      && (forall id :: id in s.futures ==> (s.futures[id] == Resolved <==> id in s.resolutions))
      && (s.thread.Exited? ==> forall id :: id in s.futures && id !in s.stranded ==>
            s.futures[id] == Resolved || s.futures[id] == Cancelled)
      && (forall id :: id in s.futures && id in s.stranded ==>
            s.futures[id] == Future.Queued || s.futures[id] == Cancelled)
  {
    RunFits(Initial(), ls);
    var s := Exec(Initial(), ls);
    if s.thread.Exited? {
      forall id | id in s.futures && id !in s.stranded
        ensures s.futures[id] == Resolved || s.futures[id] == Cancelled
      {
      }
    }
  }
}
