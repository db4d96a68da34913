/** What CLOSED is worth: from which states the host can leave it, and when it is final. */
module HostShutdown {
  import opened Models
  import opened HostModel
  import opened HostFutures

  // ---- from which states CLOSED can be left ---------------------------------------------

  /** A plan or a load that was not cancelled. */
  predicate IsLive(s: State, c: Command) {
    c.Run? && !c.work.Other? && c.id in s.futures && s.futures[c.id] != Cancelled
  }

  /** A live plan or load stands before the first sentinel. */
  ghost predicate LiveAhead(s: State) {
    exists i :: 0 <= i < |s.commands| && IsLive(s, s.commands[i]) && !Behind(s.commands, i)
  }

  /** The thread waits in a pause without a directive, and no caller has passed the test any more. */
  ghost predicate Parked(s: State) {
    s.thread.AtPause? && s.slot.None? && s.armed == multiset{}
  }

  /** A plan is before its IDLE and not parked, a load is under way, or one of them is to come. */
  ghost predicate CanSetState(s: State) {
    match s.thread
    case Waiting => LiveAhead(s)
    case Publish(_, _) => LiveAhead(s)
    case Resolving(_) => LiveAhead(s)
    case Working(_, load) => load || LiveAhead(s)
    case AtPause(_, _) => !Parked(s)
    case Exited => false
    case _ => true
  }

  ghost predicate Leaves(s: State, ls: seq<Label>) {
    IsRun(s, ls) && Exec(s, ls).state != Closed
  }

  lemma LeavesLater(s: State, l: Label, ls: seq<Label>)
    requires Enabled(s, l) && Leaves(Apply(s, l), ls)
    ensures Leaves(s, [l] + ls)
  {
    assert ([l] + ls)[1..] == ls;
  }

  // ---- if it can, some run does ------------------------------------------------------------

  /** How many steps at most the thread takes until it sets a state or takes the next command. */
  ghost function Distance(s: State): nat {
    match s.thread
    case Waiting => 0
    case Begin(_, _) => 6
    case Announce(_, _) => 5
    case InEngine(_, _) => 4
    case Interrupted(_, _) => 4
    case AtPause(_, _) => if s.slot.Some? then 6 else 7
    case Taken(_, _) => 5
    case Over(_, _) => 3
    case Publish(_, _) => 2
    case Working(_, _) => 2
    case Resolving(_) => 1
    case Exited => 0
  }

  ghost predicate StillCan(s: State) {
    Fits(s) && (s.state == Closed ==> CanSetState(s))
  }

  /** Behind a command that is skipped or does not matter, the same plans and loads stand ahead. */
  lemma TailAhead(s: State)
    requires ThreadEnabled(s, TakeCommand) && QueueFits(s) && s.commands[0].Run? && !IsLive(s, s.commands[0])
    ensures LiveAhead(TakeNext(s)) <==> LiveAhead(s)
  {
    var t := TakeNext(s);
    forall i | 0 <= i < |t.commands|
      ensures t.commands[i] == s.commands[i + 1]
      ensures IsLive(t, t.commands[i]) <==> IsLive(s, s.commands[i + 1])
      ensures Behind(t.commands, i) <==> Behind(s.commands, i + 1)
    {
      Shifted(s.commands, i + 1);
    }
    if LiveAhead(s) {
      var i :| 0 <= i < |s.commands| && IsLive(s, s.commands[i]) && !Behind(s.commands, i);
      assert IsLive(t, t.commands[i - 1]) && !Behind(t.commands, i - 1);
    }
    if LiveAhead(t) {
      var i :| 0 <= i < |t.commands| && IsLive(t, t.commands[i]) && !Behind(t.commands, i);
      assert IsLive(s, s.commands[i + 1]) && !Behind(s.commands, i + 1);
    }
  }

  /** Whether a live plan or load stands ahead shows in what the next command is. */
  lemma AheadExactlyWhen(s: State)
    requires ThreadEnabled(s, TakeCommand) && QueueFits(s)
    ensures LiveAhead(s) <==> CanSetState(TakeNext(s))
  {
    var c := s.commands[0];
    if c.Sentinel? {
      forall i | 0 < i < |s.commands|
        ensures Behind(s.commands, i)
      {
      }
    } else if IsLive(s, c) {
      assert !Behind(s.commands, 0);
    } else {
      TailAhead(s);
    }
  }

  lemma TakeTowards(s: State)
    requires Fits(s) && s.thread.Waiting? && LiveAhead(s)
    ensures ThreadEnabled(s, TakeCommand) && StillCan(TakeNext(s))
  {
    TakeFits(s);
    AheadExactlyWhen(s);
  }

  /** The step that works off a plan or a load. */
  ghost function Onward(h: Thread): ThreadStep
    requires !h.Waiting? && !h.AtPause? && !h.Exited?
  {
    match h
    case Begin(_, _) => SetRunning
    case Announce(_, _) => EmitStarted
    case InEngine(_, _) => EngineEnds
    case Interrupted(_, _) => SeeEnded
    case Taken(_, _) => RunOn
    case Over(_, _) => SetIdle
    case Publish(_, _) => EmitFinished
    case Working(_, _) => FinishWork(true)
    case Resolving(_) => ResolveFuture
  }

  /** What the thread works on sets no state any more. */
  ghost predicate NeedsNext(h: Thread) {
    h.Waiting? || h.Publish? || h.Resolving? || (h.Working? && !h.load)
  }

  lemma OnwardGoes(s: State)
    requires !s.thread.Waiting? && !s.thread.AtPause? && !s.thread.Exited?
    ensures var l := Onward(s.thread);
      && ThreadEnabled(s, l) && !l.TakeCommand?
      && Distance(ThreadApply(s, l)) < Distance(s)
      && var t := ThreadApply(s, l);
      && (NeedsNext(s.thread) ==> NeedsNext(t.thread))
      && (!NeedsNext(s.thread) ==> t.state != Closed || t.thread.InEngine? || t.thread.Over?)
  {
  }

  lemma WorkTowards(s: State)
    requires Fits(s) && CanSetState(s) && !s.thread.Waiting? && !s.thread.AtPause?
    ensures var l := Onward(s.thread);
      && ThreadEnabled(s, l) && !l.TakeCommand?
      && StillCan(ThreadApply(s, l)) && Distance(ThreadApply(s, l)) < Distance(s)
  {
    OnwardGoes(s);
    ThreadFits(s, Onward(s.thread));
    StaysAhead(s, Onward(s.thread));
  }

  lemma StaysAhead(s: State, l: ThreadStep)
    requires Fits(s) && ThreadEnabled(s, l) && !l.TakeCommand?
    ensures LiveAhead(s) <==> LiveAhead(ThreadApply(s, l))
    ensures ThreadApply(s, l).commands == s.commands
  {
    var t := ThreadApply(s, l);
    if l.ResolveFuture? {
      assert s.futures[s.thread.id] == Started;
    } else {
      SameBook(s, l);
    }
    assert t.commands == s.commands;
    forall i | 0 <= i < |s.commands|
      ensures IsLive(s, s.commands[i]) <==> IsLive(t, t.commands[i])
    {
    }
  }

  lemma PauseTowards(s: State) returns (l: Label)
    requires Fits(s) && s.thread.AtPause? && !Parked(s)
    ensures Enabled(s, l)
    ensures StillCan(Apply(s, l)) && Distance(Apply(s, l)) < Distance(s) && Apply(s, l).commands == s.commands
  {
    if s.slot.Some? {
      l := Engine(TakeDirective);
      ThreadFits(s, TakeDirective);
    } else {
      var tested :| tested in s.armed;
      l := Caller(StoreDirective(Resume, tested));
      CallerFits(s, l.call);
    }
  }

  lemma {:induction false} CanLeave(s: State) returns (ls: seq<Label>)
    requires StillCan(s)
    ensures Leaves(s, ls)
    decreases |s.commands|, Distance(s)
  {
    ls := [];
    if s.state == Closed {
      var l: Label;
      if s.thread.Waiting? {
        TakeTowards(s);
        l := Engine(TakeCommand);
      } else if s.thread.AtPause? {
        l := PauseTowards(s);
      } else {
        WorkTowards(s);
        StaysAhead(s, Onward(s.thread));
        l := Engine(Onward(s.thread));
      }
      var rest := CanLeave(Apply(s, l));
      LeavesLater(s, l, rest);
      ls := [l] + rest;
    }
  }

  // ---- if it cannot, none does ---------------------------------------------------------------

  ghost predicate Final(s: State) {
    Fits(s) && s.state == Closed && !CanSetState(s)
  }

  lemma TakeStaysFinal(s: State)
    requires Final(s) && ThreadEnabled(s, TakeCommand)
    ensures Final(TakeNext(s))
  {
    TakeFits(s);
    AheadExactlyWhen(s);
  }

  lemma ThreadStaysFinal(s: State, l: ThreadStep)
    requires Final(s) && ThreadEnabled(s, l)
    ensures Final(ThreadApply(s, l))
  {
    if l.TakeCommand? {
      TakeStaysFinal(s);
    } else {
      ThreadFits(s, l);
      StaysAhead(s, l);
    }
  }

  /** While the host is CLOSED callers add nothing live. */
  lemma CallerAddsNothing(s: State, l: CallerStep)
    requires CallerEnabled(s, l) && s.state == Closed && LiveAhead(CallerApply(s, l))
    ensures LiveAhead(s)
  {
    var t := CallerApply(s, l);
    var i :| 0 <= i < |t.commands| && IsLive(t, t.commands[i]) && !Behind(t.commands, i);
    Extended(s.commands, Sentinel);
    assert t.commands[i] == s.commands[i];
    assert IsLive(s, s.commands[i]) && !Behind(s.commands, i);
  }

  /** While the host is CLOSED no caller moves the thread or un-parks it. */
  lemma CallerLeavesThread(s: State, l: CallerStep)
    requires CallerEnabled(s, l) && s.state == Closed
    ensures var t := CallerApply(s, l);
      t.thread == s.thread && t.state == Closed && (Parked(s) ==> Parked(t))
  {
    match l
    case Submit(_, _) =>
    case Cancel(_) =>
    case PutSentinel =>
    case Close =>
    case CheckPaused =>
    case StoreDirective(_, _) =>
  }

  lemma CallerStaysFinal(s: State, l: CallerStep)
    requires Final(s) && CallerEnabled(s, l)
    ensures Final(CallerApply(s, l))
  {
    CallerFits(s, l);
    CallerLeavesThread(s, l);
    if LiveAhead(CallerApply(s, l)) {
      CallerAddsNothing(s, l);
    }
  }

  lemma {:induction false} FinalStays(s: State, ls: seq<Label>)
    requires IsRun(s, ls) && Final(s)
    ensures Final(Exec(s, ls))
    decreases |ls|
  {
    if ls != [] {
      match ls[0] {
        case Engine(step) => ThreadStaysFinal(s, step);
        case Caller(call) => CallerStaysFinal(s, call);
      }
      FinalStays(Apply(s, ls[0]), ls[1..]);
    }
  }

  /** When CLOSED is final: once set, it can be left in some run exactly when a plan is under way and
      not parked in a pause, or a load is under way, or a plan or load that was not cancelled stands
      before the first sentinel and the thread will come to it. */
  lemma ClosedLeftExactlyWhen(ls: seq<Label>)
    requires IsRun(Initial(), ls) && Exec(Initial(), ls).state == Closed
    ensures var s := Exec(Initial(), ls);
      (exists more :: Leaves(s, more)) <==> CanSetState(s)
  {
    RunFits(Initial(), ls);
    var s := Exec(Initial(), ls);
    if CanSetState(s) {
      var more := CanLeave(s);
      assert Leaves(s, more);
    } else {
      forall more | IsRun(s, more)
        ensures !Leaves(s, more)
      {
        FinalStays(s, more);
      }
    }
  }

  // ---- a plan parked for good ------------------------------------------------------------------

  lemma ParkedThreadWaits(s: State, l: ThreadStep)
    requires Parked(s)
    ensures !ThreadEnabled(s, l)
  {
  }

  lemma ParkedStays(s: State, l: Label)
    requires Enabled(s, l) && s.state == Closed && Parked(s)
    ensures var t := Apply(s, l);
      && t.state == Closed && Parked(t) && t.thread == s.thread
      && t.resolutions == s.resolutions && t.tally.accepted == s.tally.accepted
  {
    match l
    case Engine(step) => ParkedThreadWaits(s, step);
    case Caller(call) => CallerLeavesThread(s, call);
  }

  lemma {:induction false} ParkedForGood(s: State, ls: seq<Label>)
    requires IsRun(s, ls) && s.state == Closed && Parked(s)
    ensures var t := Exec(s, ls);
      && t.state == Closed && Parked(t) && t.thread == s.thread
      && t.resolutions == s.resolutions && t.tally.accepted == s.tally.accepted
    decreases |ls|
  {
    if ls != [] {
      ParkedStays(s, ls[0]);
      ParkedForGood(Apply(s, ls[0]), ls[1..]);
    }
  }

  /** A shutdown that times out in a pause nobody has answered parks the plan for good: in every run
      from there no directive is accepted any more, the plan stays where it is, its future is never
      resolved, and CLOSED stays. */
  lemma ShutdownParksPlan(ls: seq<Label>, more: seq<Label>)
    requires IsRun(Initial(), ls)
    requires Parked(Exec(Initial(), ls)) && Exec(Initial(), ls).state != Closed
    ensures var s := Exec(Initial(), ls); var down := [Caller(PutSentinel), Caller(Close)];
      && IsRun(s, down)
      && (IsRun(Exec(s, down), more) ==>
            var t := Exec(Exec(s, down), more);
            && t.state == Closed && t.thread == s.thread && t.tally.accepted == s.tally.accepted
            && s.thread.id in t.futures && t.futures[s.thread.id] == Started)
  {
    var s := Exec(Initial(), ls);
    RunTwo(s, Caller(PutSentinel), Caller(Close));
    var down := [Caller(PutSentinel), Caller(Close)];
    var u := Exec(s, down);
    assert u.state == Closed && Parked(u) && u.thread == s.thread && u.tally.accepted == s.tally.accepted;
    if IsRun(u, more) {
      ParkedForGood(u, more);
      RunFits(Initial(), ls);
      RunFits(s, down);
      RunFits(u, more);
    }
  }

  /** Once the thread has ended, CLOSED is final. */
  lemma {:induction false} ClosedStays(s: State, ls: seq<Label>)
    requires IsRun(s, ls) && s.thread.Exited? && s.state == Closed
    ensures Exec(s, ls).state == Closed
    decreases |ls|
  {
    if ls != [] {
      assert ls[0].Caller?;
      ClosedStays(Apply(s, ls[0]), ls[1..]);
    }
  }

  /** A shutdown that times out during a plan: CLOSED is set and the plan's end sets IDLE over it. */
  lemma ClosedCanBeLeft(s: State) returns (before: seq<Label>, after: seq<Label>)
    requires s.thread.InEngine?
    ensures IsRun(s, before) && Exec(s, before).state == Closed
    ensures IsRun(Exec(s, before), after) && Exec(Exec(s, before), after).state == Idle
  {
    before := [Caller(PutSentinel), Caller(Close)];
    RunTwo(s, before[0], before[1]);
    after := [Engine(EngineEnds), Engine(SetIdle)];
    RunTwo(Exec(s, before), after[0], after[1]);
  }
}
