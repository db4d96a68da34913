/** Draining the command queue as written is one of the host machine's runs: what holds over every run
    holds of it, its trajectory and its futures included. */
module EngineLoop {
  import opened Wrappers
  import opened Models
  import opened HostModel
  import HostFutures
  import E = EngineHost

  ghost function SlotOf(s: State): Option<Directive> {
    if s.slot.Some? then Some(s.slot.value.0) else None
  }

  /** Nothing but the plan in the engine, the slot and the events differs. */
  ghost predicate SameBooks(s: State, t: State) {
    && t.commands == s.commands && t.futures == s.futures && t.loaded == s.loaded && t.plans == s.plans
    && t.sentinel == s.sentinel && t.stranded == s.stranded && t.armed == s.armed
  }

  // ---- a pause --------------------------------------------------------------------------------

  lemma OneGiven(s: State, d: Directive)
    requires s.thread.AtPause? && s.state == Paused && s.armed == multiset{}
    ensures var ls := [Caller(CheckPaused), Caller(StoreDirective(d, s.tally.pauses))];
      && IsRun(s, ls)
      && var t := Exec(s, ls);
      && SameBooks(s, t) && t.thread == s.thread && t.state == Paused && t.rounds == s.rounds
      && SlotOf(t) == Some(d)
  {
    RunTwo(s, Caller(CheckPaused), Caller(StoreDirective(d, s.tally.pauses)));
  }

  /** Callers that find the host paused and store their directives one after another. */
  lemma {:induction false} AllGiven(s: State, given: seq<Directive>) returns (ls: seq<Label>)
    requires s.thread.AtPause? && s.state == Paused && s.armed == multiset{}
    ensures IsRun(s, ls)
    ensures var t := Exec(s, ls);
      && SameBooks(s, t) && t.thread == s.thread && t.state == Paused && t.rounds == s.rounds
      && SlotOf(t) == if given == [] then SlotOf(s) else Some(given[|given| - 1])
    decreases |given|
  {
    ls := [];
    if given != [] {
      var n := |given| - 1;
      var l0 := AllGiven(s, given[..n]);
      var t := Exec(s, l0);
      OneGiven(t, given[n]);
      var l1 := [Caller(CheckPaused), Caller(StoreDirective(given[n], t.tally.pauses))];
      RunConcat(s, l0, l1);
      ls := l0 + l1;
    }
  }

  lemma TakenAndOn(s: State)
    requires s.thread.AtPause? && s.slot.Some?
    ensures var ls := [Engine(TakeDirective), Engine(RunOn)];
      && IsRun(s, ls)
      && var t := Exec(s, ls);
      && SameBooks(s, t) && t.thread == InEngine(s.thread.id, s.thread.uid) && t.slot == None
      && t.rounds == s.rounds + 1
  {
    RunTwo(s, Engine(TakeDirective), Engine(RunOn));
  }

  lemma PauseReached(s: State)
    requires s.thread.InEngine?
    ensures var ls := [Engine(EngineInterrupted), Engine(SeePaused)];
      && IsRun(s, ls)
      && var t := Exec(s, ls);
      && SameBooks(s, t) && t.thread == AtPause(s.thread.id, s.thread.uid) && t.slot == s.slot
      && t.state == Paused && t.rounds == s.rounds
  {
    RunTwo(s, Engine(EngineInterrupted), Engine(SeePaused));
  }

  /** A pause that is ended, from inside the engine back into it. */
  lemma PauseIsRun(s: State, given: seq<Directive>) returns (ls: seq<Label>)
    requires s.thread.InEngine? && s.armed == multiset{} && E.Taken(SlotOf(s), given).Some?
    ensures IsRun(s, ls)
    ensures var t := Exec(s, ls);
      SameBooks(s, t) && t.thread == s.thread && t.slot == None && t.rounds == s.rounds + 1
  {
    var l0 := [Engine(EngineInterrupted), Engine(SeePaused)];
    PauseReached(s);
    var t := Exec(s, l0);
    var l1 := AllGiven(t, if SlotOf(s).Some? then [] else given);
    var u := Exec(t, l1);
    var l2 := [Engine(TakeDirective), Engine(RunOn)];
    TakenAndOn(u);
    RunConcat(s, l0, l1);
    RunConcat(s, l0 + l1, l2);
    ls := l0 + l1 + l2;
  }

  // ---- a plan ---------------------------------------------------------------------------------

  lemma EndsAtOnce(s: State, l: ThreadStep)
    requires s.thread.InEngine? && (l.EngineEnds? || l.EngineInterrupted?)
    ensures var ls := if l.EngineEnds? then [Engine(EngineEnds)] else [Engine(EngineInterrupted), Engine(SeeEnded)];
      && IsRun(s, ls)
      && var t := Exec(s, ls);
      && SameBooks(s, t) && t.thread == Over(s.thread.id, s.thread.uid) && t.slot == s.slot
      && t.rounds == s.rounds
  {
    if l.EngineEnds? {
      assert [Engine(EngineEnds)][1..] == [];
    } else {
      RunTwo(s, Engine(EngineInterrupted), Engine(SeeEnded));
    }
  }

  /** The engine calls of one plan. */
  lemma {:induction false} EngineIsRun(s: State, reply: E.Reply, rounds: seq<E.Round>) returns (ls: seq<Label>)
    requires s.thread.InEngine? && s.armed == multiset{}
    ensures IsRun(s, ls)
    ensures var (o, n) := E.Ending(s.thread.uid, reply, SlotOf(s), rounds); var t := Exec(s, ls);
      && SameBooks(s, t) && t.rounds == s.rounds + n && SlotOf(t) == E.LeftInSlot(SlotOf(s), n)
      && t.thread == (if o.Some? then Over(s.thread.id, s.thread.uid) else AtPause(s.thread.id, s.thread.uid))
      && (o.None? ==> t.state == Paused)
    decreases |rounds|
  {
    if !reply.Interrupted? {
      EndsAtOnce(s, EngineEnds);
      ls := [Engine(EngineEnds)];
    } else if !reply.paused {
      EndsAtOnce(s, EngineInterrupted);
      ls := [Engine(EngineInterrupted), Engine(SeeEnded)];
    } else if rounds == [] || E.Taken(SlotOf(s), rounds[0].given).None? {
      PauseReached(s);
      ls := [Engine(EngineInterrupted), Engine(SeePaused)];
    } else {
      var l0 := PauseIsRun(s, rounds[0].given);
      var l1 := EngineIsRun(Exec(s, l0), rounds[0].reply, rounds[1..]);
      RunConcat(s, l0, l1);
      ls := l0 + l1;
    }
  }

  // ---- a command --------------------------------------------------------------------------------

  lemma Begun(s: State)
    requires s.thread.Begin?
    ensures var ls := [Engine(SetRunning), Engine(EmitStarted)];
      && IsRun(s, ls)
      && var t := Exec(s, ls);
      && SameBooks(s, t) && t.thread == InEngine(s.thread.id, s.thread.uid) && t.slot == s.slot && t.rounds == 0
  {
    RunTwo(s, Engine(SetRunning), Engine(EmitStarted));
  }

  lemma Ended(s: State)
    requires s.thread.Over?
    ensures var ls := [Engine(SetIdle), Engine(EmitFinished)];
      && IsRun(s, ls)
      && var t := Exec(s, ls);
      && t.thread == Resolving(s.thread.id) && t.slot == s.slot && t.state == Idle
      && t.plans == s.plans + [(s.thread.uid, s.rounds)] && SameBooks(s, t.(plans := s.plans))
  {
    RunTwo(s, Engine(SetIdle), Engine(EmitFinished));
  }

  lemma Settled(s: State)
    requires s.thread.Resolving?
    ensures var ls := [Engine(ResolveFuture)];
      && IsRun(s, ls)
      && var t := Exec(s, ls);
      && t.thread == Waiting && t.slot == s.slot && t.state == s.state
      && t.futures == s.futures[s.thread.id := Resolved] && SameBooks(s, t.(futures := s.futures))
  {
    assert [Engine(ResolveFuture)][1..] == [];
  }

  /** From the end of a plan to the next command. */
  lemma EndIsRun(s: State) returns (ls: seq<Label>)
    requires s.thread.Over?
    ensures IsRun(s, ls)
    ensures var t := Exec(s, ls);
      && t.thread == Waiting && t.slot == s.slot && t.state == Idle
      && t.futures == s.futures[s.thread.id := Resolved] && t.plans == s.plans + [(s.thread.uid, s.rounds)]
      && SameBooks(s, t.(futures := s.futures, plans := s.plans))
  {
    var l0, l1 := [Engine(SetIdle), Engine(EmitFinished)], [Engine(ResolveFuture)];
    Ended(s);
    Settled(Exec(s, l0));
    RunConcat(s, l0, l1);
    ls := l0 + l1;
  }

  /** A plan up to its end or to the pause that holds it up. */
  lemma UpToEnd(s: State, script: E.Script) returns (ls: seq<Label>)
    requires s.thread.Begin? && s.armed == multiset{}
    ensures IsRun(s, ls)
    ensures var (o, n) := E.Ending(s.thread.uid, script.reply, SlotOf(s), script.rounds); var t := Exec(s, ls);
      && SameBooks(s, t) && t.rounds == n && SlotOf(t) == E.LeftInSlot(SlotOf(s), n)
      && t.thread == (if o.Some? then Over(s.thread.id, s.thread.uid) else AtPause(s.thread.id, s.thread.uid))
      && (o.None? ==> t.state == Paused)
  {
    Begun(s);
    var l0 := [Engine(SetRunning), Engine(EmitStarted)];
    var l1 := EngineIsRun(Exec(s, l0), script.reply, script.rounds);
    RunConcat(s, l0, l1);
    ls := l0 + l1;
  }

  lemma PlanIsRun(s: State, script: E.Script) returns (ls: seq<Label>)
    requires s.thread.Begin? && s.armed == multiset{}
    ensures IsRun(s, ls)
    ensures var (o, n) := E.Ending(s.thread.uid, script.reply, SlotOf(s), script.rounds); var t := Exec(s, ls);
      && SlotOf(t) == E.LeftInSlot(SlotOf(s), n)
      && (o.None? ==> SameBooks(s, t) && t.thread == AtPause(s.thread.id, s.thread.uid) && t.state == Paused)
      && (o.Some? ==>
            && t.thread == Waiting && t.state == Idle
            && t.futures == s.futures[s.thread.id := Resolved] && t.plans == s.plans + [(s.thread.uid, n)]
            && SameBooks(s, t.(futures := s.futures, plans := s.plans)))
  {
    ls := UpToEnd(s, script);
    var t := Exec(s, ls);
    if t.thread.Over? {
      var l1 := EndIsRun(t);
      RunConcat(s, ls, l1);
      ls := ls + l1;
    }
  }

  lemma WorkIsRun(s: State, ok: bool) returns (ls: seq<Label>)
    requires s.thread.Working?
    ensures IsRun(s, ls)
    ensures var t := Exec(s, ls);
      && t.thread == Waiting && t.slot == s.slot && t.state == (if s.thread.load && ok then Idle else s.state)
      && t.futures == s.futures[s.thread.id := Resolved] && t.loaded == (s.loaded || (s.thread.load && ok))
      && SameBooks(s, t.(futures := s.futures, loaded := s.loaded))
  {
    ls := [Engine(FinishWork(ok)), Engine(ResolveFuture)];
    RunTwo(s, ls[0], ls[1]);
  }

  // ---- the loop -----------------------------------------------------------------------------------

  /** The machine in the terms of the draining. */
  ghost function AsDrained(s: State, announced: bool, ended: bool, held: Option<string>): E.Drained {
    E.Drained(s.commands, s.futures, s.loaded, s.state, SlotOf(s), announced, s.plans, ended, held)
  }

  lemma Taking(s: State)
    requires s.thread.Waiting? && HostFutures.QueueFits(s) && s.commands != []
    ensures IsRun(s, [Engine(TakeCommand)]) && Exec(s, [Engine(TakeCommand)]) == TakeNext(s)
  {
    assert [Engine(TakeCommand)][1..] == [];
  }

  /** The machine after one command, in the terms of the draining. */
  ghost predicate CommandRun(s: State, t: State, announced: bool, c: Command, script: E.Script)
    requires s.commands != [] && c.Run?
  {
    var d := AsDrained(s, announced, false, None).(commands := s.commands[1..]);
    var e := E.RunOne(d, c.id, c.work, script);
    && AsDrained(t, e.announced, false, e.held) == e && t.armed == multiset{} && t.stranded == s.stranded
    && t.thread == (if e.held.Some? then AtPause(c.id, c.work.uid) else Waiting)
    && (e.held.Some? ==> c.work.Plan? && e.held == Some(c.work.uid))
  }

  lemma PlanCommandIsRun(s: State, announced: bool, script: E.Script) returns (ls: seq<Label>)
    requires s.thread.Waiting? && s.armed == multiset{} && HostFutures.QueueFits(s)
    requires s.commands != [] && s.commands[0].Run? && s.futures[s.commands[0].id] != Cancelled
    requires s.commands[0].work.Plan?
    ensures IsRun(TakeNext(s), ls) && CommandRun(s, Exec(TakeNext(s), ls), announced, s.commands[0], script)
  {
    var id := s.commands[0].id;
    ls := PlanIsRun(TakeNext(s), script);
    assert s.futures[id := Started][id := Resolved] == s.futures[id := Resolved];
  }

  lemma WorkCommandIsRun(s: State, announced: bool, script: E.Script) returns (ls: seq<Label>)
    requires s.thread.Waiting? && s.armed == multiset{} && HostFutures.QueueFits(s)
    requires s.commands != [] && s.commands[0].Run? && s.futures[s.commands[0].id] != Cancelled
    requires !s.commands[0].work.Plan?
    ensures IsRun(TakeNext(s), ls) && CommandRun(s, Exec(TakeNext(s), ls), announced, s.commands[0], script)
  {
    var id := s.commands[0].id;
    ls := WorkIsRun(TakeNext(s), script.ok);
    assert s.futures[id := Started][id := Resolved] == s.futures[id := Resolved];
  }

  /** One command from the head of the queue: run to its end, or left in a pause. */
  lemma CommandIsRun(s: State, announced: bool, script: E.Script) returns (ls: seq<Label>)
    requires s.thread.Waiting? && s.armed == multiset{} && HostFutures.QueueFits(s)
    requires s.commands != [] && s.commands[0].Run? && s.futures[s.commands[0].id] != Cancelled
    ensures IsRun(s, ls) && CommandRun(s, Exec(s, ls), announced, s.commands[0], script)
  {
    Taking(s);
    if s.commands[0].work.Plan? {
      ls := PlanCommandIsRun(s, announced, script);
    } else {
      ls := WorkCommandIsRun(s, announced, script);
    }
    RunConcat(s, [Engine(TakeCommand)], ls);
    ls := [Engine(TakeCommand)] + ls;
  }

  /** The head of the queue, whatever it is: the draining goes on from where the machine stands, or the
      machine stands where the draining ends. */
  lemma HeadIsRun(s: State, announced: bool, scripts: nat -> E.Script) returns (ls: seq<Label>, later: bool)
    requires s.thread.Waiting? && s.armed == multiset{} && HostFutures.QueueFits(s) && s.commands != []
    ensures IsRun(s, ls)
    ensures var d := E.Drain(AsDrained(s, announced, false, None), scripts); var t := Exec(s, ls);
      && t.armed == multiset{} && t.stranded == s.stranded && t.commands == s.commands[1..]
      && (t.thread == Waiting ==> d == E.Drain(AsDrained(t, later, false, None), scripts))
      && (t.thread != Waiting ==> Stands(d, t))
  {
    var c := s.commands[0];
    later := announced;
    if c.Sentinel? || s.futures[c.id] == Cancelled {
      Taking(s);
      ls := [Engine(TakeCommand)];
    } else {
      ls := CommandIsRun(s, announced, scripts(c.id));
      later := announced || E.Opens(c.work, s.state, scripts(c.id));
    }
  }

  /** The machine stands where a draining ended. */
  ghost predicate Stands(d: E.Drained, t: State) {
    && AsDrained(t, d.announced, d.ended, d.held) == d
    && (d.ended ==> t.thread == Exited)
    && (d.held.Some? ==> t.thread.AtPause? && Some(t.thread.uid) == d.held)
    && (!d.ended && d.held.None? ==> t.thread == Waiting && t.commands == [])
  }

  /** Draining is a run: whatever the queue holds and however the engine and the callers behave, the
      machine can take the same commands with the same effect on queue, futures, engine, slot and
      plans, and ends waiting, in the pause that holds it up, or behind the sentinel. */
  lemma {:induction false} DrainIsRun(s: State, announced: bool, scripts: nat -> E.Script) returns (ls: seq<Label>)
    requires s.thread.Waiting? && s.armed == multiset{} && HostFutures.Fits(s)
    ensures IsRun(s, ls) && Stands(E.Drain(AsDrained(s, announced, false, None), scripts), Exec(s, ls))
    ensures Exec(s, ls).stranded == s.stranded
    decreases |s.commands|
  {
    ls := [];
    if s.commands != [] {
      var later: bool;
      ls, later := HeadIsRun(s, announced, scripts);
      var t := Exec(s, ls);
      if t.thread.Waiting? {
        HostFutures.RunFits(s, ls);
        var rest := DrainIsRun(t, later, scripts);
        RunConcat(s, ls, rest);
        ls := ls + rest;
      }
    }
  }

  /** From every reachable state in which the thread waits for a command: when a draining is not held up
      by a pause, every future queued before a sentinel is resolved or was cancelled. */
  lemma DrainSettlesFutures(ls: seq<Label>, announced: bool, scripts: nat -> E.Script)
    requires IsRun(Initial(), ls)
    requires Exec(Initial(), ls).thread.Waiting? && Exec(Initial(), ls).armed == multiset{}
    ensures var s := Exec(Initial(), ls); var d := E.Drain(AsDrained(s, announced, false, None), scripts);
      d.held.None? ==> forall id :: id in d.futures && id !in s.stranded ==>
        d.futures[id] == Resolved || d.futures[id] == Cancelled
  {
    var s := Exec(Initial(), ls);
    HostFutures.RunFits(Initial(), ls);
    var more := DrainIsRun(s, announced, scripts);
    HostFutures.RunFits(s, more);
    var t := Exec(s, more);
    if t.thread.Waiting? && t.commands == [] {
      forall id | id in t.futures
        ensures t.futures[id] == Resolved || t.futures[id] == Cancelled
      {
        assert t.futures[id] != Started;
      }
    }
  }
}
