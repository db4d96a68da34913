/** What holds over every run of the engine host, whatever the interleaving. */
module HostRuns {
  import opened Sequences
  import opened Models
  import opened HostModel

  // ---- the trajectory ---------------------------------------------------------------------

  /** The published events are the load, the finished plans' blocks and the current plan's start,
      and the state is the one the thread's position says. */
  ghost predicate OnTrack(s: State) {
    && s.events == (if s.loaded then [StateChanged(Idle)] else []) + Blocks(s.plans) + Partial(s.thread, s.rounds)
    && s.state == Expected(s.thread, s.loaded)
    && (!s.loaded ==> s.plans == [] && !InPlan(s.thread))
    && PlansLoaded(s.commands, s.loaded)
  }

  /** Plans are queued only once an engine is there. */
  ghost predicate PlansLoaded(commands: seq<Command>, loaded: bool) {
    forall i :: 0 <= i < |commands| && commands[i].Run? && commands[i].work.Plan? ==> loaded
  }

  lemma FinishedBlock(plans: seq<(string, nat)>, uid: string, rounds: nat)
    ensures Blocks(plans + [(uid, rounds)]) == Blocks(plans) + Block(uid, rounds)
  {
    assert (plans + [(uid, rounds)])[..|plans|] == plans;
  }

  lemma TakeStaysOnTrack(s: State)
    requires OnTrack(s) && ThreadEnabled(s, TakeCommand)
    ensures OnTrack(ThreadApply(s, TakeCommand))
  {
    TailLoaded(s.commands, s.loaded);
    assert s.commands[0].Run? ==> s.commands[0].work.Plan? ==> s.loaded;
  }

  lemma TailLoaded(commands: seq<Command>, loaded: bool)
    requires commands != [] && PlansLoaded(commands, loaded)
    ensures PlansLoaded(commands[1..], loaded)
  {
  }

  lemma PlanStaysOnTrack(s: State, l: ThreadStep)
    requires OnTrack(s) && ThreadEnabled(s, l)
    requires l.SetRunning? || l.EmitStarted? || l.SeePaused? || l.SetIdle?
    ensures OnTrack(ThreadApply(s, l))
  {
    var t := ThreadApply(s, l);
    var more := PartialGrows(s, l);
    Regroup((if s.loaded then [StateChanged(Idle)] else []) + Blocks(s.plans), Partial(s.thread, s.rounds), more);
  }

  /** What is published, and what the plan has published so far, grow by the same events. */
  lemma PartialGrows(s: State, l: ThreadStep) returns (more: seq<Event>)
    requires ThreadEnabled(s, l) && s.state == Expected(s.thread, s.loaded)
    requires l.SetRunning? || l.EmitStarted? || l.SeePaused? || l.SetIdle?
    ensures ThreadApply(s, l).events == s.events + more
    ensures Partial(ThreadApply(s, l).thread, ThreadApply(s, l).rounds) == Partial(s.thread, s.rounds) + more
  {
    assert Rounds(0) == [];
    more := match l
      case SetRunning => [StateChanged(Running)]
      case EmitStarted => [PlanStarted(s.thread.uid)]
      case SeePaused => [StateChanged(Paused)]
      case _ => [StateChanged(Idle)];
  }

  lemma RoundStaysOnTrack(s: State)
    requires OnTrack(s) && s.thread.Taken?
    ensures OnTrack(ThreadApply(s, RunOn))
  {
    var t := ThreadApply(s, RunOn);
    assert Rounds(t.rounds) == Rounds(s.rounds) + [StateChanged(Paused), StateChanged(Running)];
  }

  lemma FinishStaysOnTrack(s: State)
    requires OnTrack(s) && s.thread.Publish?
    ensures OnTrack(ThreadApply(s, EmitFinished))
  {
    var load := if s.loaded then [StateChanged(Idle)] else [];
    var partial, last := Partial(s.thread, s.rounds), [PlanFinished(s.thread.uid)];
    FinishedBlock(s.plans, s.thread.uid, s.rounds);
    BlockIsPartial(s.thread.id, s.thread.uid, s.rounds);
    Regroup(load + Blocks(s.plans), partial, last);
    Regroup(load, Blocks(s.plans), partial + last);
  }

  lemma BlockIsPartial(id: nat, uid: string, rounds: nat)
    ensures Partial(Publish(id, uid), rounds) + [PlanFinished(uid)] == Block(uid, rounds)
  {
  }

  /** A load that succeeds publishes IDLE the first time and nothing later. */
  lemma WorkStaysOnTrack(s: State, ok: bool)
    requires OnTrack(s) && s.thread.Working?
    ensures OnTrack(ThreadApply(s, FinishWork(ok)))
  {
  }

  lemma SilentStaysOnTrack(s: State, l: ThreadStep)
    requires OnTrack(s) && ThreadEnabled(s, l)
    requires l.EngineEnds? || l.EngineInterrupted? || l.SeeEnded? || l.TakeDirective? || l.ResolveFuture?
    ensures OnTrack(ThreadApply(s, l))
  {
  }

  lemma ThreadStaysOnTrack(s: State, l: ThreadStep)
    requires OnTrack(s) && ThreadEnabled(s, l)
    ensures OnTrack(ThreadApply(s, l))
  {
    match l
    case TakeCommand => TakeStaysOnTrack(s);
    case SetRunning => PlanStaysOnTrack(s, l);
    case EmitStarted => PlanStaysOnTrack(s, l);
    case SeePaused => PlanStaysOnTrack(s, l);
    case SetIdle => PlanStaysOnTrack(s, l);
    case RunOn => RoundStaysOnTrack(s);
    case EmitFinished => FinishStaysOnTrack(s);
    case FinishWork(ok) => WorkStaysOnTrack(s, ok);
    case _ => SilentStaysOnTrack(s, l);
  }

  lemma CallerStaysOnTrack(s: State, l: CallerStep)
    requires OnTrack(s) && CallerEnabled(s, l) && l != Close
    ensures OnTrack(CallerApply(s, l))
  {
  }

  /** An engine once loaded stays. */
  lemma LoadedStays(s: State, l: Label)
    requires Enabled(s, l) && s.loaded
    ensures Apply(s, l).loaded
  {
    if l.Engine? && l.step.TakeCommand? {
      assert TakeNext(s).loaded;
    }
  }

  /** Nobody sets CLOSED during the run (shutdown may be under way). */
  ghost predicate NeverClosed(ls: seq<Label>) {
    forall i :: 0 <= i < |ls| ==> ls[i] != Caller(Close)
  }

  lemma {:induction false} RunStaysOnTrack(s: State, ls: seq<Label>)
    requires IsRun(s, ls) && NeverClosed(ls) && OnTrack(s)
    ensures OnTrack(Exec(s, ls))
    decreases |ls|
  {
    if ls != [] {
      assert ls[0] != Caller(Close);
      match ls[0] {
        case Engine(step) => ThreadStaysOnTrack(s, step);
        case Caller(call) => CallerStaysOnTrack(s, call);
      }
      assert NeverClosed(ls[1..]) by {
        assert forall i :: 0 <= i < |ls| - 1 ==> ls[1..][i] == ls[i + 1];
      }
      RunStaysOnTrack(Apply(s, ls[0]), ls[1..]);
    }
  }

  /** Until CLOSED is set, and whatever commands, interrupts and engine behaviour interleave: the
      host publishes one IDLE for the load, then for each plan RUNNING, PLAN_STARTED,
      (PAUSED, RUNNING)*, IDLE, PLAN_FINISHED with the same uid, one plan after another, then a
      start of such a sequence; and its state is the one that sequence says. */
  lemma Trajectory(ls: seq<Label>)
    requires IsRun(Initial(), ls) && NeverClosed(ls)
    ensures var s := Exec(Initial(), ls);
      && s.events == (if s.loaded then [StateChanged(Idle)] else []) + Blocks(s.plans) + Partial(s.thread, s.rounds)
      && s.state == Expected(s.thread, s.loaded)
  {
    RunStaysOnTrack(Initial(), ls);
  }

  // ---- start and finish marks ---------------------------------------------------------------

  predicate IsMark(e: Event) {
    e.PlanStarted? || e.PlanFinished?
  }

  function Marks(events: seq<Event>): seq<Event> {
    if events == [] then []
    else (if IsMark(events[0]) then [events[0]] else []) + Marks(events[1..])
  }

  /** Started, finished, plan after plan. */
  function Alternating(plans: seq<(string, nat)>): seq<Event> {
    if plans == [] then []
    else var n := |plans| - 1; Alternating(plans[..n]) + [PlanStarted(plans[n].0), PlanFinished(plans[n].0)]
  }

  lemma {:induction false} MarksOfConcat(a: seq<Event>, b: seq<Event>)
    ensures Marks(a + b) == Marks(a) + Marks(b)
  {
    if a == [] {
      assert a + b == b;
    } else {
      assert (a + b)[1..] == a[1..] + b;
      MarksOfConcat(a[1..], b);
      Regroup(if IsMark(a[0]) then [a[0]] else [], Marks(a[1..]), Marks(b));
    }
  }

  lemma MarksOfPause()
    ensures Marks([StateChanged(Paused), StateChanged(Running)]) == []
  {
    assert [StateChanged(Paused), StateChanged(Running)][1..] == [StateChanged(Running)];
    assert [StateChanged(Running)][1..] == [];
  }

  lemma {:induction false} MarksOfRounds(n: nat)
    ensures Marks(Rounds(n)) == []
  {
    if n > 0 {
      MarksOfRounds(n - 1);
      MarksOfConcat(Rounds(n - 1), [StateChanged(Paused), StateChanged(Running)]);
      MarksOfPause();
    }
  }

  lemma MarksOfStart(uid: string, rounds: nat)
    ensures Marks([StateChanged(Running), PlanStarted(uid)] + Rounds(rounds)) == [PlanStarted(uid)]
  {
    MarksOfRounds(rounds);
    MarksOfConcat([StateChanged(Running), PlanStarted(uid)], Rounds(rounds));
    MarksOfConcat([StateChanged(Running)], [PlanStarted(uid)]);
  }

  lemma MarksOfBlock(uid: string, rounds: nat)
    ensures Marks(Block(uid, rounds)) == [PlanStarted(uid), PlanFinished(uid)]
  {
    MarksOfStart(uid, rounds);
    MarksOfConcat([StateChanged(Running), PlanStarted(uid)] + Rounds(rounds), [StateChanged(Idle), PlanFinished(uid)]);
    MarksOfConcat([StateChanged(Idle)], [PlanFinished(uid)]);
  }

  lemma {:induction false} MarksOfBlocks(plans: seq<(string, nat)>)
    ensures Marks(Blocks(plans)) == Alternating(plans)
  {
    if plans != [] {
      var n := |plans| - 1;
      MarksOfBlocks(plans[..n]);
      MarksOfBlock(plans[n].0, plans[n].1);
      MarksOfConcat(Blocks(plans[..n]), Block(plans[n].0, plans[n].1));
    }
  }

  lemma MarksOfPartial(h: Thread, rounds: nat)
    ensures Marks(Partial(h, rounds)) ==
      if InPlan(h) && !h.Begin? && !h.Announce? then [PlanStarted(h.uid)] else []
  {
    if InPlan(h) && !h.Begin? && !h.Announce? {
      var start := [StateChanged(Running), PlanStarted(h.uid)] + Rounds(rounds);
      MarksOfStart(h.uid, rounds);
      MarksOfConcat(start, [StateChanged(Paused)]);
      MarksOfConcat(start, [StateChanged(Idle)]);
    }
  }

  /** PLAN_STARTED and PLAN_FINISHED alternate with matching uids, so no two plans overlap; only the
      plan in progress is started and not finished. */
  lemma PlansNeverOverlap(ls: seq<Label>)
    requires IsRun(Initial(), ls) && NeverClosed(ls)
    ensures var s := Exec(Initial(), ls);
      Marks(s.events) == Alternating(s.plans)
        + if InPlan(s.thread) && !s.thread.Begin? && !s.thread.Announce? then [PlanStarted(s.thread.uid)] else []
  {
    Trajectory(ls);
    var s := Exec(Initial(), ls);
    MarksOfParts(if s.loaded then [StateChanged(Idle)] else [], Blocks(s.plans), Partial(s.thread, s.rounds));
    MarksOfBlocks(s.plans);
    MarksOfPartial(s.thread, s.rounds);
  }

  lemma MarksOfParts(load: seq<Event>, blocks: seq<Event>, partial: seq<Event>)
    requires Marks(load) == []
    ensures Marks(load + blocks + partial) == Marks(blocks) + Marks(partial)
  {
    MarksOfConcat(load + blocks, partial);
    MarksOfConcat(load, blocks);
  }
}
