/** The engine host as a state machine: one engine thread draining the command queue, callers that
    submit, cancel, interrupt and shut down. The RunEngine may end, raise or be interrupted at any
    point, any number of times. */
module HostModel {
  import opened Wrappers
  import opened Models

  datatype Directive = Resume | Abort | Stop | Halt

  datatype Work = Plan(uid: string) | LoadSource | Other

  datatype Command = Run(id: nat, work: Work) | Sentinel

  datatype Future = Queued | Started | Resolved | Cancelled

  /** STATE is published only when the state really changes. */
  datatype Event = StateChanged(state: EngineState) | PlanStarted(uid: string) | PlanFinished(uid: string)

  /** Where the engine thread stands; `id` is the future it works for. */
  datatype Thread =
    | Waiting                         // in commands.get()
    | Begin(id: nat, uid: string)     // before set_state(RUNNING)
    | Announce(id: nat, uid: string)  // before PLAN_STARTED
    | InEngine(id: nat, uid: string)  // inside RE(plan), resume, abort, stop or halt
    | Interrupted(id: nat, uid: string) // top of the pause loop
    | AtPause(id: nat, uid: string)   // PAUSED, waiting for a directive
    | Taken(id: nat, uid: string)     // directive consumed, still PAUSED
    | Over(id: nat, uid: string)      // outcome built, before set_state(IDLE)
    | Publish(id: nat, uid: string)   // before PLAN_FINISHED
    | Working(id: nat, load: bool)    // inside another command
    | Resolving(id: nat)              // the command is done, its future is not
    | Exited

  /** Counts for the theorems: nothing in the host reads them. */
  datatype Tally = Tally(accepted: nat, consumed: nat, overwritten: nat, exits: nat, pauses: nat)

  datatype State = State(
    state: EngineState, loaded: bool, commands: seq<Command>, futures: map<nat, Future>, thread: Thread,
    slot: Option<(Directive, nat)>,   // the directive, and the pause its caller found the host in
    armed: multiset<nat>,             // callers past the PAUSED test of set_directive, by pause
    events: seq<Event>,
    rounds: nat,                      // completed pauses of the current plan
    plans: seq<(string, nat)>,        // finished plans with their number of pauses
    resolutions: seq<nat>,            // futures in the order they were resolved
    sentinel: bool, stranded: set<nat>, closed: bool,
    tally: Tally)

  datatype ThreadStep =
    | TakeCommand | SetRunning | EmitStarted
    | EngineEnds | EngineInterrupted | SeePaused | SeeEnded | TakeDirective | RunOn
    | SetIdle | EmitFinished
    | FinishWork(ok: bool) | ResolveFuture

  datatype CallerStep =
    | Submit(id: nat, work: Work)
    | Cancel(id: nat)
    | PutSentinel
    | Close
    | CheckPaused
    | StoreDirective(directive: Directive, tested: nat)

  datatype Label = Engine(step: ThreadStep) | Caller(call: CallerStep)

  /** The host once `start` has returned. */
  function Initial(): State {
    State(NoEngine, false, [], map[], Waiting, None, multiset{}, [], 0, [], [], false, {}, false, Tally(0, 0, 0, 0, 0))
  }

  /** `_set_state`. */
  function SetState(s: State, state: EngineState): State {
    s.(state := state, events := if s.state == state then s.events else s.events + [StateChanged(state)])
  }

  predicate ThreadEnabled(s: State, l: ThreadStep) {
    match l
    case TakeCommand =>
      s.thread.Waiting? && s.commands != [] && (s.commands[0].Run? ==> s.commands[0].id in s.futures)
    case SetRunning => s.thread.Begin?
    case EmitStarted => s.thread.Announce?
    case EngineEnds => s.thread.InEngine?
    case EngineInterrupted => s.thread.InEngine?
    case SeePaused => s.thread.Interrupted?
    case SeeEnded => s.thread.Interrupted?
    case TakeDirective => s.thread.AtPause? && s.slot.Some?
    case RunOn => s.thread.Taken?
    case SetIdle => s.thread.Over?
    case EmitFinished => s.thread.Publish?
    case FinishWork(_) => s.thread.Working?
    case ResolveFuture => s.thread.Resolving?
  }

  /** The head of the command queue: a sentinel ends the thread, a cancelled future is skipped. */
  function TakeNext(s: State): State
    requires s.commands != [] && (s.commands[0].Run? ==> s.commands[0].id in s.futures)
  {
    var t := s.(commands := s.commands[1..]);
    match s.commands[0]
    case Sentinel => t.(thread := Exited)
    case Run(id, work) =>
      if s.futures[id] == Cancelled then t
      else t.(futures := s.futures[id := Started],
              thread := match work
                        case Plan(uid) => Begin(id, uid)
                        case LoadSource => Working(id, true)
                        case Other => Working(id, false))
  }

  function ThreadApply(s: State, l: ThreadStep): State
    requires ThreadEnabled(s, l)
  {
    var h := s.thread;
    match l
    case TakeCommand => TakeNext(s)
    case SetRunning => SetState(s, Running).(thread := Announce(h.id, h.uid))
    case EmitStarted =>
      s.(thread := InEngine(h.id, h.uid), rounds := 0, events := s.events + [PlanStarted(h.uid)])
    case EngineEnds => s.(thread := Over(h.id, h.uid))
    case EngineInterrupted => s.(thread := Interrupted(h.id, h.uid))
    case SeePaused =>
      SetState(s, Paused).(thread := AtPause(h.id, h.uid), tally := s.tally.(pauses := s.tally.pauses + 1))
    case SeeEnded => s.(thread := Over(h.id, h.uid))
    case TakeDirective =>
      s.(thread := Taken(h.id, h.uid), slot := None, tally := s.tally.(consumed := s.tally.consumed + 1))
    case RunOn =>
      SetState(s, Running).(thread := InEngine(h.id, h.uid), rounds := s.rounds + 1,
                            tally := s.tally.(exits := s.tally.exits + 1))
    case SetIdle => SetState(s, Idle).(thread := Publish(h.id, h.uid))
    case EmitFinished =>
      s.(thread := Resolving(h.id), events := s.events + [PlanFinished(h.uid)], plans := s.plans + [(h.uid, s.rounds)])
    case FinishWork(ok) =>
      if h.load && ok then SetState(s, Idle).(thread := Resolving(h.id), loaded := true)
      else s.(thread := Resolving(h.id))
    case ResolveFuture =>
      s.(thread := Waiting, futures := s.futures[h.id := Resolved], resolutions := s.resolutions + [h.id])
  }

  predicate CallerEnabled(s: State, l: CallerStep) {
    match l
    case Submit(id, work) => id !in s.futures && s.state != Closed && (work.Plan? ==> s.loaded)
    case Cancel(id) => id in s.futures && s.futures[id] == Future.Queued
    case PutSentinel => true
    case Close => s.sentinel
    case CheckPaused => s.state == Paused
    case StoreDirective(_, tested) => tested in s.armed
  }

  function CallerApply(s: State, l: CallerStep): State
    requires CallerEnabled(s, l)
  {
    match l
    case Submit(id, work) =>
      s.(commands := s.commands + [Run(id, work)], futures := s.futures[id := Future.Queued],
         stranded := if s.sentinel then s.stranded + {id} else s.stranded)
    case Cancel(id) => s.(futures := s.futures[id := Cancelled])
    case PutSentinel => s.(commands := s.commands + [Sentinel], sentinel := true)
    case Close => SetState(s, Closed).(closed := true)
    case CheckPaused => s.(armed := s.armed + multiset{s.tally.pauses})
    case StoreDirective(d, tested) =>
      s.(armed := s.armed - multiset{tested}, slot := Some((d, tested)),
         tally := s.tally.(accepted := s.tally.accepted + 1,
                           overwritten := s.tally.overwritten + if s.slot.Some? then 1 else 0))
  }

  predicate Enabled(s: State, l: Label) {
    match l
    case Engine(step) => ThreadEnabled(s, step)
    case Caller(call) => CallerEnabled(s, call)
  }

  function Apply(s: State, l: Label): State
    requires Enabled(s, l)
  {
    match l
    case Engine(step) => ThreadApply(s, step)
    case Caller(call) => CallerApply(s, call)
  }

  predicate IsRun(s: State, ls: seq<Label>)
    decreases |ls|
  {
    ls == [] || (Enabled(s, ls[0]) && IsRun(Apply(s, ls[0]), ls[1..]))
  }

  function Exec(s: State, ls: seq<Label>): State
    requires IsRun(s, ls)
    decreases |ls|
  {
    if ls == [] then s else Exec(Apply(s, ls[0]), ls[1..])
  }

  /** Runs compose. */
  lemma {:induction false} RunConcat(s: State, a: seq<Label>, b: seq<Label>)
    requires IsRun(s, a) && IsRun(Exec(s, a), b)
    ensures IsRun(s, a + b) && Exec(s, a + b) == Exec(Exec(s, a), b)
    decreases |a|
  {
    if a == [] {
      assert a + b == b;
    } else {
      assert (a + b)[0] == a[0] && (a + b)[1..] == a[1..] + b;
      RunConcat(Apply(s, a[0]), a[1..], b);
    }
  }

  /** One label in front of a run. */
  lemma RunFirst(s: State, a: Label, ls: seq<Label>)
    requires Enabled(s, a) && IsRun(Apply(s, a), ls)
    ensures IsRun(s, [a] + ls) && Exec(s, [a] + ls) == Exec(Apply(s, a), ls)
  {
    assert ([a] + ls)[1..] == ls;
  }

  lemma RunTwo(s: State, a: Label, b: Label)
    requires Enabled(s, a) && Enabled(Apply(s, a), b)
    ensures IsRun(s, [a, b]) && Exec(s, [a, b]) == Apply(Apply(s, a), b)
  {
    assert [a, b][1..] == [b] && [b][1..] == [];
    assert IsRun(Apply(s, a), [b]) && Exec(Apply(s, a), [b]) == Apply(Apply(s, a), b);
  }

  // ---- the trajectory grammar -------------------------------------------------------------

  /** `n` pauses: PAUSED, RUNNING each. */
  function Rounds(n: nat): seq<Event> {
    if n == 0 then [] else Rounds(n - 1) + [StateChanged(Paused), StateChanged(Running)]
  }

  /** What one finished plan publishes. */
  function Block(uid: string, rounds: nat): seq<Event> {
    [StateChanged(Running), PlanStarted(uid)] + Rounds(rounds) + [StateChanged(Idle), PlanFinished(uid)]
  }

  /** What a block reads like: RUNNING and the start, PAUSED and RUNNING for every pause that was ended,
      IDLE and the finish. */
  lemma {:induction false} BlockReads(uid: string, rounds: nat)
    ensures var b := Block(uid, rounds);
      && |b| == 4 + 2 * rounds && b[0] == StateChanged(Running) && b[1] == PlanStarted(uid)
      && b[2 + 2 * rounds] == StateChanged(Idle) && b[3 + 2 * rounds] == PlanFinished(uid)
      && forall k: nat :: k < rounds ==> b[2 + 2 * k] == StateChanged(Paused) && b[3 + 2 * k] == StateChanged(Running)
  {
    RoundsRead(rounds);
    assert forall k: nat :: k < 2 * rounds ==> Block(uid, rounds)[2 + k] == Rounds(rounds)[k];
  }

  lemma {:induction false} RoundsRead(n: nat)
    ensures |Rounds(n)| == 2 * n
    ensures forall k: nat :: k < n ==> Rounds(n)[2 * k] == StateChanged(Paused)
                                       && Rounds(n)[2 * k + 1] == StateChanged(Running)
  {
    if n > 0 {
      RoundsRead(n - 1);
    }
  }

  function Blocks(plans: seq<(string, nat)>): seq<Event> {
    if plans == [] then []
    else var n := |plans| - 1; Blocks(plans[..n]) + Block(plans[n].0, plans[n].1)
  }

  /** What the current plan has published so far. */
  function Partial(h: Thread, rounds: nat): seq<Event> {
    match h
    case Announce(_, _) => [StateChanged(Running)]
    case InEngine(_, uid) => [StateChanged(Running), PlanStarted(uid)] + Rounds(rounds)
    case Interrupted(_, uid) => [StateChanged(Running), PlanStarted(uid)] + Rounds(rounds)
    case AtPause(_, uid) => [StateChanged(Running), PlanStarted(uid)] + Rounds(rounds) + [StateChanged(Paused)]
    case Taken(_, uid) => [StateChanged(Running), PlanStarted(uid)] + Rounds(rounds) + [StateChanged(Paused)]
    case Over(_, uid) => [StateChanged(Running), PlanStarted(uid)] + Rounds(rounds)
    case Publish(_, uid) =>
      [StateChanged(Running), PlanStarted(uid)] + Rounds(rounds) + [StateChanged(Idle)]
    case _ => []
  }

  /** The state the host is in while nobody shuts it down. */
  function Expected(h: Thread, loaded: bool): EngineState {
    match h
    case Announce(_, _) => Running
    case InEngine(_, _) => Running
    case Interrupted(_, _) => Running
    case Over(_, _) => Running
    case AtPause(_, _) => Paused
    case Taken(_, _) => Paused
    case _ => if loaded then Idle else NoEngine
  }

  predicate InPlan(h: Thread) {
    h.Begin? || h.Announce? || h.InEngine? || h.Interrupted? || h.AtPause? || h.Taken? || h.Over? || h.Publish?
  }
}
