/** The engine host itself, one call at a time: the methods that run on the engine thread, with the
    RunEngine's replies and the directives given in each pause as a script, and the calls that other
    threads make. */
module EngineHost {
  import opened Wrappers
  import opened Models
  import H = HostModel

  datatype HostError = NotLoaded | NotIdle(state: EngineState) | NotPaused(state: EngineState)
    | NothingToDo(state: EngineState) | NotOpen

  datatype PlanOutcome = PlanOutcome(uid: string, exitStatus: string, reason: string, exception: string) {
    predicate Succeeded() {
      exitStatus == "success"
    }

    function ErrorText(): string {
      if exception != "" then exception else if reason != "" then reason else exitStatus
    }
  }

  /** How a call into the RunEngine ends: it returns, it raises, or it is interrupted, and then the
      engine is paused or the run is over. An exit status that is not given is empty. */
  datatype Reply =
    | Returned(exitStatus: string, reason: string, exception: string)
    | Raised(kind: string, text: string)
    | Interrupted(paused: bool, exitStatus: string, reason: string)

  function OutcomeFromResult(uid: string, exitStatus: string, reason: string, exception: string): PlanOutcome {
    PlanOutcome(uid, if exitStatus == "" then "success" else exitStatus, reason, exception)
  }

  function OutcomeFromEngine(uid: string, exitStatus: string, reason: string): PlanOutcome {
    PlanOutcome(uid, if exitStatus == "" then "abort" else exitStatus, reason, "")
  }

  function OutcomeOfException(uid: string, kind: string, text: string): PlanOutcome {
    PlanOutcome(uid, "fail", text, kind + ": " + text)
  }

  /** The directives that callers store, one after another, while the engine thread waits in a pause,
      and how the engine call that the taken one causes ends. */
  datatype Round = Round(given: seq<H.Directive>, reply: Reply)

  /** What the thread takes in a pause: what is in the slot already, else the last directive stored
      before it wakes up, if there is one. */
  function Taken(slot: Option<H.Directive>, given: seq<H.Directive>): Option<H.Directive> {
    if slot.Some? then slot else if given == [] then None else Some(given[|given| - 1])
  }

  /** How a plan ends, if it does not stay paused for want of a directive or at the end of the script,
      and the number of pauses that were ended. */
  function Ending(uid: string, reply: Reply, slot: Option<H.Directive>, rounds: seq<Round>)
    : (Option<PlanOutcome>, nat)
    decreases |rounds|
  {
    match reply
    case Returned(status, reason, exception) => (Some(OutcomeFromResult(uid, status, reason, exception)), 0)
    case Raised(kind, text) => (Some(OutcomeOfException(uid, kind, text)), 0)
    case Interrupted(paused, status, reason) =>
      if !paused then (Some(OutcomeFromEngine(uid, status, reason)), 0)
      else if rounds == [] || Taken(slot, rounds[0].given).None? then (None, 0)
      else
        var (outcome, n) := Ending(uid, rounds[0].reply, None, rounds[1..]);
        (outcome, n + 1)
  }

  // ---- what an ending means, without it ---------------------------------------------------------

  /** How the engine call behind `k` ended pauses went. */
  function ReplyBehind(reply: Reply, rounds: seq<Round>, k: nat): Reply
    requires k <= |rounds|
  {
    if k == 0 then reply else rounds[k - 1].reply
  }

  /** What the thread finds in the pause behind `k` others: only in the first one a directive that was
      there before; else the last one that callers store in it. */
  ghost function Found(slot: Option<H.Directive>, rounds: seq<Round>, k: nat): Option<H.Directive> {
    if k >= |rounds| then None
    else if k == 0 && slot.Some? then slot
    else if rounds[k].given != [] then Some(rounds[k].given[|rounds[k].given| - 1])
    else None
  }

  /** What a plan reports when its engine call has gone like this: nothing if it is paused. */
  ghost predicate Reports(uid: string, reply: Reply, r: Option<PlanOutcome>) {
    match reply
    case Returned(status, reason, exception) =>
      r == Some(PlanOutcome(uid, if status == "" then "success" else status, reason, exception))
    case Raised(kind, text) => r == Some(PlanOutcome(uid, "fail", text, kind + ": " + text))
    case Interrupted(paused, status, reason) =>
      if paused then r == None
      else r == Some(PlanOutcome(uid, if status == "" then "abort" else status, reason, ""))
  }

  ghost predicate PausedBehind(reply: Reply, rounds: seq<Round>, k: nat) {
    k <= |rounds| && var r := ReplyBehind(reply, rounds, k); r.Interrupted? && r.paused
  }

  /** `pauses` is how many pauses are ended: before each the engine was paused and a directive was
      found; behind them the engine is not paused, or there is no directive. */
  ghost predicate EndsPauses(reply: Reply, slot: Option<H.Directive>, rounds: seq<Round>, pauses: nat) {
    && pauses <= |rounds|
    && (forall k: nat :: k < pauses ==> PausedBehind(reply, rounds, k) && Found(slot, rounds, k).Some?)
    && !(PausedBehind(reply, rounds, pauses) && Found(slot, rounds, pauses).Some?)
  }

  lemma {:induction false} EndingMeans(uid: string, reply: Reply, slot: Option<H.Directive>, rounds: seq<Round>)
    ensures var (r, n) := Ending(uid, reply, slot, rounds);
      EndsPauses(reply, slot, rounds, n) && Reports(uid, ReplyBehind(reply, rounds, n), r)
    decreases |rounds|
  {
    var n := Ending(uid, reply, slot, rounds).1;
    if n > 0 {
      EndingMeans(uid, rounds[0].reply, None, rounds[1..]);
      LaterPauses(reply, slot, rounds, n - 1);
    }
  }

  /** The pauses behind the first one, counted from it. */
  lemma LaterPauses(reply: Reply, slot: Option<H.Directive>, rounds: seq<Round>, n: nat)
    requires rounds != [] && EndsPauses(rounds[0].reply, None, rounds[1..], n)
    requires PausedBehind(reply, rounds, 0) && Found(slot, rounds, 0).Some?
    ensures EndsPauses(reply, slot, rounds, n + 1)
    ensures ReplyBehind(reply, rounds, n + 1) == ReplyBehind(rounds[0].reply, rounds[1..], n)
  {
    forall k: nat | 0 < k <= n + 1
      ensures PausedBehind(reply, rounds, k) <==> PausedBehind(rounds[0].reply, rounds[1..], k - 1)
      ensures Found(slot, rounds, k) == Found(None, rounds[1..], k - 1)
    {
    }
  }

  /** The engine has been told, behind `before`, the directive found in each of the pauses. */
  ghost predicate Obeyed(before: seq<H.Directive>, after: seq<H.Directive>, slot: Option<H.Directive>,
                         rounds: seq<Round>, pauses: nat) {
    && |after| == |before| + pauses && after[..|before|] == before
    && forall k: nat :: k < pauses ==> Found(slot, rounds, k) == Some(after[|before| + k])
  }

  ghost function Calls(slot: Option<H.Directive>, rounds: seq<Round>, pauses: nat): seq<H.Directive> {
    if pauses == 0 || Found(slot, rounds, pauses - 1).None? then []
    else Calls(slot, rounds, pauses - 1) + [Found(slot, rounds, pauses - 1).value]
  }

  lemma {:induction false} CallsObey(before: seq<H.Directive>, slot: Option<H.Directive>, rounds: seq<Round>, n: nat)
    requires forall k: nat :: k < n ==> Found(slot, rounds, k).Some?
    ensures Obeyed(before, before + Calls(slot, rounds, n), slot, rounds, n)
  {
    if n > 0 {
      CallsObey(before, slot, rounds, n - 1);
    }
  }

  /** A pause behind `n` others that is ended by what is in the slot then, or is given. */
  lemma PauseEnded(calls: seq<H.Directive>, events: seq<H.Event>, slot: Option<H.Directive>, rounds: seq<Round>,
                   n: nat, d: H.Directive)
    requires n < |rounds| && Taken(LeftInSlot(slot, n), rounds[n].given) == Some(d)
    ensures calls + Calls(slot, rounds, n) + [d] == calls + Calls(slot, rounds, n + 1)
    ensures events + H.Rounds(n) + [H.StateChanged(Paused), H.StateChanged(Running)] == events + H.Rounds(n + 1)
  {
    assert Found(slot, rounds, n) == Some(d);
  }

  /** A plan that did not succeed leaves the text that says most. */
  ghost predicate ErrorShown(o: PlanOutcome, shown: Option<string>) {
    && (o.exitStatus == "success" ==> shown == None)
    && (o.exitStatus != "success" && o.exception != "" ==> shown == Some(o.exception))
    && (o.exitStatus != "success" && o.exception == "" && o.reason != "" ==> shown == Some(o.reason))
    && (o.exitStatus != "success" && o.exception == "" && o.reason == "" ==> shown == Some(o.exitStatus))
  }

  /** What is in the slot when `n` pauses were ended: every one of them emptied it. */
  function LeftInSlot(slot: Option<H.Directive>, n: nat): Option<H.Directive> {
    if n == 0 then slot else None
  }

  /** How one queued command goes when it is run: `reply` and `rounds` for a plan, `ok` for a load. */
  datatype Script = Script(reply: Reply, rounds: seq<Round>, ok: bool)

  /** Where draining the command queue leads: what is left of it, the futures, the engine, the state,
      the slot, whether a load published an IDLE, the plans run with their pauses, and whether a
      sentinel ended the loop or a paused plan holds it up. */
  datatype Drained = Drained(
    commands: seq<H.Command>, futures: map<nat, H.Future>, loaded: bool, state: EngineState,
    slot: Option<H.Directive>, announced: bool, plans: seq<(string, nat)>, ended: bool, held: Option<string>)

  /** `_run_loop` over the commands queued so far. */
  function Drain(d: Drained, scripts: nat -> Script): Drained
    decreases |d.commands|
  {
    if d.commands == [] || d.ended || d.held.Some? then d
    else
      var e := d.(commands := d.commands[1..]);
      match d.commands[0]
      case Sentinel => e.(ended := true)
      case Run(id, work) =>
        if id in d.futures && d.futures[id] == H.Cancelled then Drain(e, scripts)
        else
          var f := RunOne(e, id, work, scripts(id));
          if f.held.Some? then f else Drain(f, scripts)
  }

  /** One command taken off the queue. */
  function RunOne(d: Drained, id: nat, work: H.Work, script: Script): (e: Drained)
    ensures e.commands == d.commands
  {
    var done := d.(futures := d.futures[id := H.Resolved]);
    match work
    case Plan(uid) =>
      var (outcome, n) := Ending(uid, script.reply, d.slot, script.rounds);
      var slot := LeftInSlot(d.slot, n);
      if outcome.None? then d.(futures := d.futures[id := H.Started], state := Paused, slot := slot, held := Some(uid))
      else done.(state := Idle, slot := slot, plans := d.plans + [(uid, n)])
    case LoadSource =>
      if script.ok then done.(loaded := true, state := Idle, announced := d.announced || d.state != Idle) else done
    case Other => done
  }

  /** The IDLE that a load publishes unless the host is IDLE already. */
  function Opening(announced: bool): seq<H.Event> {
    if announced then [H.StateChanged(Idle)] else []
  }

  predicate Opens(work: H.Work, state: EngineState, script: Script) {
    work.LoadSource? && script.ok && state != Idle
  }

  /** The state a command that is run to its end leaves. */
  function StateAfter(work: H.Work, state: EngineState, script: Script): EngineState {
    if work.Plan? || (work.LoadSource? && script.ok) then Idle else state
  }

  /** The plan a command finished, if it was one. */
  function Finished(work: H.Work, slot: Option<H.Directive>, script: Script): Option<(string, nat)> {
    if !work.Plan? then None
    else
      var (outcome, n) := Ending(work.uid, script.reply, slot, script.rounds);
      if outcome.None? then None else Some((work.uid, n))
  }

  function Append(plans: seq<(string, nat)>, one: Option<(string, nat)>): seq<(string, nat)> {
    if one.None? then plans else plans + [one.value]
  }

  function BlockOf(one: Option<(string, nat)>): seq<H.Event> {
    if one.None? then [] else H.Block(one.value.0, one.value.1)
  }

  /** The plan's script leaves it paused. */
  predicate Holds(work: H.Work, slot: Option<H.Directive>, script: Script) {
    work.Plan? && Ending(work.uid, script.reply, slot, script.rounds).0.None?
  }

  /** What is in the slot after a command. */
  function SlotAfter(work: H.Work, slot: Option<H.Directive>, script: Script): Option<H.Directive> {
    if work.Plan? then LeftInSlot(slot, Ending(work.uid, script.reply, slot, script.rounds).1) else slot
  }

  /** A command that was run to its end, field by field. */
  lemma RunToItsEnd(d: Drained, id: nat, work: H.Work, script: Script)
    requires !Holds(work, d.slot, script)
    ensures RunOne(d, id, work, script) == Drained(
      d.commands, d.futures[id := H.Started][id := H.Resolved], d.loaded || (work.LoadSource? && script.ok),
      StateAfter(work, d.state, script), SlotAfter(work, d.slot, script),
      d.announced || Opens(work, d.state, script), Append(d.plans, Finished(work, d.slot, script)), d.ended, d.held)
  {
    assert d.futures[id := H.Started][id := H.Resolved] == d.futures[id := H.Resolved];
  }

  lemma BlocksAppend(plans: seq<(string, nat)>, one: Option<(string, nat)>)
    ensures H.Blocks(Append(plans, one)) == H.Blocks(plans) + BlockOf(one)
  {
    if one.Some? {
      assert (plans + [one.value])[..|plans|] == plans;
    }
  }

  lemma BlockBegun(base: seq<H.Event>, uid: string, n: nat)
    ensures base + [H.StateChanged(Running)] + [H.PlanStarted(uid)] + H.Rounds(n)
         == base + ([H.StateChanged(Running), H.PlanStarted(uid)] + H.Rounds(n))
  {
  }

  lemma BlockEnded(base: seq<H.Event>, uid: string, n: nat)
    ensures base + [H.StateChanged(Running)] + [H.PlanStarted(uid)] + H.Rounds(n)
            + [H.StateChanged(Idle)] + [H.PlanFinished(uid)]
         == base + H.Block(uid, n)
    ensures base + [H.StateChanged(Running)] + [H.PlanStarted(uid)]
            + [H.StateChanged(Idle)] + [H.PlanFinished(uid)]
         == base + H.Block(uid, 0)
  {
    assert H.Rounds(0) == [];
  }

  /** A command's events behind those published before it. */
  lemma PublishedOneMore(base: seq<H.Event>, announced: bool, plans: seq<(string, nat)>, opens: bool,
                         one: Option<(string, nat)>)
    requires opens ==> !announced && plans == [] && one.None?
    ensures base + Opening(announced) + H.Blocks(plans) + Opening(opens) + BlockOf(one)
         == base + Opening(announced || opens) + H.Blocks(Append(plans, one))
  {
    if opens {
      Blanks(base, Opening(opens));
    } else {
      BlocksAppend(plans, one);
      RegroupLast(base, Opening(announced), H.Blocks(plans), BlockOf(one));
    }
  }

  lemma RegroupLast(a: seq<H.Event>, b: seq<H.Event>, c: seq<H.Event>, d: seq<H.Event>)
    ensures a + b + c + [] + d == a + b + (c + d)
  {
  }

  lemma Blanks(a: seq<H.Event>, b: seq<H.Event>)
    ensures a + [] + [] + b + [] == a + b + []
  {
  }

  class EngineHost {
    var state: EngineState
    var loaded: bool
    var directive: Option<H.Directive>
    var currentItemUid: Option<string>
    var lastOutcome: Option<PlanOutcome>
    var lastError: Option<string>
    var engineCalls: seq<H.Directive> // resume, abort, stop and halt, as the engine was called
    var commands: seq<H.Command>
    var futures: map<nat, H.Future>
    var events: seq<H.Event>          // what was published on the event bus

    /** The host once `start` has returned. */
    constructor ()
      ensures state == NoEngine && !loaded && directive == None && currentItemUid == None
      ensures commands == [] && futures == map[] && events == [] && engineCalls == []
    {
      state, loaded, directive := NoEngine, false, None;
      currentItemUid, lastOutcome, lastError := None, None, None;
      commands, futures, events, engineCalls := [], map[], [], [];
    }

    method SetState(next: EngineState)
      modifies this`state, this`events
      ensures state == next
      ensures events == if old(state) == next then old(events) else old(events) + [H.StateChanged(next)]
    {
      var previous := state;
      state := next;
      if previous != next {
        events := events + [H.StateChanged(next)];
      }
    }

    // ---- calls from other threads -----------------------------------------------------

    method Submit(id: nat, work: H.Work) returns (r: Result<(), HostError>)
      requires id !in futures
      modifies this`commands, this`futures
      ensures r == if old(state) == Closed then Err(NotOpen) else Ok(())
      ensures r.Err? ==> commands == old(commands) && futures == old(futures)
      ensures r.Ok? ==> commands == old(commands) + [H.Run(id, work)]
      ensures r.Ok? ==> futures == old(futures)[id := H.Future.Queued]
    {
      if state == Closed {
        return Err(NotOpen);
      }
      commands := commands + [H.Run(id, work)];
      futures := futures[id := H.Future.Queued];
      r := Ok(());
    }

    method RunPlan(id: nat, uid: string) returns (r: Result<(), HostError>)
      requires id !in futures
      modifies this`commands, this`futures
      ensures r.Ok? <==> loaded && state == Idle
      ensures r.Ok? ==> commands == old(commands) + [H.Run(id, H.Plan(uid))]
      ensures r.Ok? ==> futures == old(futures)[id := H.Future.Queued]
      ensures r.Err? ==> commands == old(commands) && futures == old(futures)
    {
      if !loaded {
        return Err(NotLoaded);
      }
      if state != Idle {
        return Err(NotIdle(state));
      }
      r := Submit(id, H.Plan(uid));
    }

    method SetDirective(d: H.Directive) returns (r: Result<(), HostError>)
      modifies this`directive
      ensures if state == Paused then r == Ok(()) && directive == Some(d)
        else r == Err(NotPaused(state)) && directive == old(directive)
    {
      if state != Paused {
        return Err(NotPaused(state));
      }
      directive := Some(d);
      r := Ok(());
    }

    /** `abort`, `stop` and `halt`: a directive in a pause, a direct engine call during a run. */
    method Interrupt(kind: H.Directive) returns (r: Result<(), HostError>)
      modifies this`directive, this`engineCalls
      ensures r == if !loaded then Err(NotLoaded)
        else if state == Paused || state == Running then Ok(())
        else Err(NothingToDo(state))
      ensures engineCalls == old(engineCalls) + if loaded && state == Running then [kind] else []
      ensures directive == if loaded && state == Paused then Some(kind) else old(directive)
    {
      if !loaded {
        return Err(NotLoaded);
      }
      if state == Paused {
        r := SetDirective(kind);
        return;
      }
      if state == Running {
        engineCalls := engineCalls + [kind];
        return Ok(());
      }
      r := Err(NothingToDo(state));
    }

    // ---- on the engine thread -----------------------------------------------------------

    /** Waits until there is a directive, and takes it. `given` is what callers store meanwhile, before
        the thread wakes up; if nothing is there then, nothing is returned: the thread waits on. */
    method WaitDirective(given: seq<H.Directive>) returns (d: Option<H.Directive>)
      modifies this`directive
      ensures d ==
        if old(directive).Some? then old(directive)
        else if state == Paused && given != [] then Some(given[|given| - 1])
        else None
      ensures directive == None
    {
      var left := given;
      while directive.None?
        invariant left == given || left == []
        invariant left == given ==> directive == old(directive)
        invariant left != given ==> old(directive) == None
        invariant left != given ==> directive == if state == Paused then Some(given[|given| - 1]) else None
        decreases |left|
      {
        if left == [] {
          return None;
        }
        StoreAll(left);
        left := [];
      }
      d := directive;
      directive := None;
    }

    /** Callers that give a directive each; outside a pause they are refused. */
    method StoreAll(given: seq<H.Directive>)
      modifies this`directive
      ensures directive == if state == Paused && given != [] then Some(given[|given| - 1]) else old(directive)
    {
      for i := 0 to |given|
        invariant directive == if state == Paused && i > 0 then Some(given[i - 1]) else old(directive)
      {
        var r := SetDirective(given[i]);
      }
    }

    /** One pause: PAUSED until there is a directive, then RUNNING and the engine is called. */
    method OnePause(given: seq<H.Directive>) returns (d: Option<H.Directive>)
      requires state == Running
      modifies this`state, this`events, this`directive, this`engineCalls
      ensures directive == None && d == Taken(old(directive), given)
      ensures if d.None? then
          state == Paused && events == old(events) + [H.StateChanged(Paused)] && engineCalls == old(engineCalls)
        else
          && state == Running && events == old(events) + [H.StateChanged(Paused), H.StateChanged(Running)]
          && engineCalls == old(engineCalls) + [d.value]
    {
      SetState(Paused);
      d := WaitDirective(given);
      if d.Some? {
        SetState(Running);
        engineCalls := engineCalls + [d.value];
      }
    }

    /** The pause loop: each pause is ended by what is in the slot or by what callers give in it. */
    method HandlePause(uid: string, interrupted: Reply, rounds: seq<Round>)
      returns (r: Option<PlanOutcome>, ghost pauses: nat)
      requires interrupted.Interrupted? && state == Running
      modifies this`state, this`events, this`directive, this`engineCalls
      ensures (r, pauses) == Ending(uid, interrupted, old(directive), rounds)
      ensures EndsPauses(interrupted, old(directive), rounds, pauses)
      ensures Reports(uid, ReplyBehind(interrupted, rounds, pauses), r)
      ensures Obeyed(old(engineCalls), engineCalls, old(directive), rounds, pauses)
      ensures directive == if pauses == 0 then old(directive) else None
      ensures if r.Some? then state == Running && events == old(events) + H.Rounds(pauses)
        else state == Paused && events == old(events) + H.Rounds(pauses) + [H.StateChanged(Paused)]
    {
      EndingMeans(uid, interrupted, directive, rounds);
      r, pauses := WhilePaused(uid, interrupted, rounds);
      CallsObey(old(engineCalls), old(directive), rounds, pauses);
    }

    method WhilePaused(uid: string, interrupted: Reply, rounds: seq<Round>)
      returns (r: Option<PlanOutcome>, ghost pauses: nat)
      requires interrupted.Interrupted? && state == Running
      modifies this`state, this`events, this`directive, this`engineCalls
      ensures (r, pauses) == Ending(uid, interrupted, old(directive), rounds)
      ensures engineCalls == old(engineCalls) + Calls(old(directive), rounds, pauses)
      ensures directive == if pauses == 0 then old(directive) else None
      ensures if r.Some? then state == Running && events == old(events) + H.Rounds(pauses)
        else state == Paused && events == old(events) + H.Rounds(pauses) + [H.StateChanged(Paused)]
    {
      var reply := interrupted;
      var i := 0;
      pauses := 0;
      while true
        invariant 0 <= i <= |rounds| && pauses == i
        invariant reply.Interrupted? && state == Running && directive == LeftInSlot(old(directive), i)
        invariant engineCalls == old(engineCalls) + Calls(old(directive), rounds, i)
        invariant events == old(events) + H.Rounds(i)
        invariant var (o, n) := Ending(uid, reply, directive, rounds[i..]);
          Ending(uid, interrupted, old(directive), rounds) == (o, n + i)
        decreases |rounds| - i
      {
        if !reply.paused {
          return Some(OutcomeFromEngine(uid, reply.exitStatus, reply.reason)), pauses;
        }
        if i == |rounds| {
          SetState(Paused);
          return None, pauses;
        }
        assert rounds[i..][0] == rounds[i] && rounds[i..][1..] == rounds[i + 1..];
        var d := OnePause(rounds[i].given);
        if d.None? {
          return None, pauses;
        }
        PauseEnded(old(engineCalls), old(events), old(directive), rounds, i, d.value);
        reply := rounds[i].reply;
        i, pauses := i + 1, pauses + 1;
        match reply {
          case Returned(status, reason, exception) =>
            return Some(OutcomeFromResult(uid, status, reason, exception)), pauses;
          case Raised(kind, text) => return Some(OutcomeOfException(uid, kind, text)), pauses;
          case Interrupted(_, _, _) =>
        }
      }
    }

    /** The engine is called with the plan, and the pauses are handled. */
    method CallEngine(uid: string, reply: Reply, rounds: seq<Round>)
      returns (r: Option<PlanOutcome>, ghost pauses: nat)
      requires state == Running
      modifies this`state, this`events, this`directive, this`engineCalls
      ensures (r, pauses) == Ending(uid, reply, old(directive), rounds)
      ensures EndsPauses(reply, old(directive), rounds, pauses)
      ensures Reports(uid, ReplyBehind(reply, rounds, pauses), r)
      ensures Obeyed(old(engineCalls), engineCalls, old(directive), rounds, pauses)
      ensures directive == if pauses == 0 then old(directive) else None
      ensures if r.Some? then state == Running && events == old(events) + H.Rounds(pauses)
        else state == Paused && events == old(events) + H.Rounds(pauses) + [H.StateChanged(Paused)]
    {
      EndingMeans(uid, reply, directive, rounds);
      pauses := 0;
      assert H.Rounds(0) == [];
      match reply {
        case Returned(status, reason, exception) => r := Some(OutcomeFromResult(uid, status, reason, exception));
        case Raised(kind, text) => r := Some(OutcomeOfException(uid, kind, text));
        case Interrupted(_, _, _) => r, pauses := HandlePause(uid, reply, rounds);
      }
    }

    /** One plan from RUNNING to IDLE; nothing while it is still paused. A plan taken off the queue
        after CLOSED was set runs all the same. */
    method RunPlanOnThread(uid: string, reply: Reply, rounds: seq<Round>)
      returns (r: Option<PlanOutcome>, ghost pauses: nat)
      requires state == Idle || state == Closed
      modifies this`state, this`events, this`directive, this`engineCalls
      modifies this`currentItemUid, this`lastOutcome, this`lastError
      ensures (r, pauses) == Ending(uid, reply, old(directive), rounds)
      ensures EndsPauses(reply, old(directive), rounds, pauses)
      ensures Reports(uid, ReplyBehind(reply, rounds, pauses), r)
      ensures Obeyed(old(engineCalls), engineCalls, old(directive), rounds, pauses)
      ensures directive == if pauses == 0 then old(directive) else None
      ensures r.Some? ==>
        && state == Idle && currentItemUid == None && lastOutcome == r
        && events == old(events) + H.Block(uid, pauses)
      ensures r.Some? ==> ErrorShown(r.value, lastError)
      ensures r.None? ==>
        && state == Paused && currentItemUid == Some(uid) && lastOutcome == old(lastOutcome) && lastError == None
        && events == old(events)
             + ([H.StateChanged(Running), H.PlanStarted(uid)] + H.Rounds(pauses)) + [H.StateChanged(Paused)]
    {
      currentItemUid := Some(uid);
      lastError := None;
      SetState(Running);
      events := events + [H.PlanStarted(uid)];
      r, pauses := CallEngine(uid, reply, rounds);
      if r.None? {
        BlockBegun(old(events), uid, pauses);
        return;
      }
      currentItemUid := None;
      lastOutcome := r;
      if !r.value.Succeeded() {
        lastError := Some(r.value.ErrorText());
      }
      SetState(Idle);
      events := events + [H.PlanFinished(uid)];
      BlockEnded(old(events), uid, pauses);
    }

    /** Loading a source installs an engine; a failing load leaves everything as it was. */
    method LoadSource(ok: bool)
      modifies this`state, this`events, this`loaded
      ensures loaded == (old(loaded) || ok)
      ensures state == if ok then Idle else old(state)
      ensures events == if ok && old(state) != Idle then old(events) + [H.StateChanged(Idle)] else old(events)
    {
      if ok {
        loaded := true;
        SetState(Idle);
      }
    }

    /** Before and between commands: IDLE once an engine is loaded, or CLOSED by a shutdown that did not
        wait for the thread; and plans wait only once an engine is there. */
    ghost predicate Ready()
      reads this
    {
      && (state == Closed || state == if loaded then Idle else NoEngine)
      && forall i :: 0 <= i < |commands| && commands[i].Run? && commands[i].work.Plan? ==> loaded
    }

    /** Runs a plan, as one of the commands. */
    method RunPlanCommand(uid: string, script: Script) returns (held: bool)
      requires Ready() && loaded
      modifies this`state, this`events, this`directive, this`engineCalls
      modifies this`currentItemUid, this`lastOutcome, this`lastError
      ensures held == Holds(H.Plan(uid), old(directive), script)
      ensures directive == SlotAfter(H.Plan(uid), old(directive), script)
      ensures if held then state == Paused && currentItemUid == Some(uid) else state == Idle
      ensures !held ==> events == old(events) + BlockOf(Finished(H.Plan(uid), old(directive), script))
    {
      var outcome, _ := RunPlanOnThread(uid, script.reply, script.rounds);
      held := outcome.None?;
    }

    /** Runs one command. */
    method RunCommand(work: H.Work, script: Script) returns (held: bool)
      requires Ready() && (work.Plan? ==> loaded)
      modifies this`state, this`events, this`loaded, this`engineCalls
      modifies this`directive, this`currentItemUid, this`lastOutcome, this`lastError
      ensures held == Holds(work, old(directive), script)
      ensures directive == SlotAfter(work, old(directive), script)
      ensures loaded == (old(loaded) || (work.LoadSource? && script.ok))
      ensures held ==> state == Paused && currentItemUid == Some(work.uid)
      ensures !held ==> Ready() && state == StateAfter(work, old(state), script)
      ensures !held ==> state == if work.Plan? || (work.LoadSource? && script.ok) then Idle else old(state)
      ensures var opens, one := Opens(work, old(state), script), Finished(work, old(directive), script);
        !held ==> events == old(events) + Opening(opens) + BlockOf(one)
    {
      held := false;
      match work {
        case Plan(uid) =>
          held := RunPlanCommand(uid, script);
        case LoadSource =>
          LoadSource(script.ok);
        case Other =>
      }
    }

    /** What was published since `base`: an IDLE by a load, and the blocks of `plans`. */
    ghost predicate Published(base: seq<H.Event>, announced: bool, plans: seq<(string, nat)>)
      reads this
    {
      && (announced || plans != [] ==> state == Idle)
      && events == base + Opening(announced) + H.Blocks(plans)
    }

    /** The host's part of a draining. */
    ghost function Draining(announced: bool, plans: seq<(string, nat)>, ended: bool, held: Option<string>): Drained
      reads this
    {
      Drained(commands, futures, loaded, state, directive, announced, plans, ended, held)
    }

    /** One pass of the loop: the head of the command queue is skipped, run, or ends the loop. */
    method RunNext(scripts: nat -> Script, ghost base: seq<H.Event>, ghost announced: bool,
                   ghost plans: seq<(string, nat)>)
      returns (ended: bool, held: Option<string>, ghost announced': bool, ghost plans': seq<(string, nat)>)
      requires Ready() && commands != [] && Published(base, announced, plans)
      modifies this
      ensures |commands| < |old(commands)|
      ensures Drain(Draining(announced', plans', ended, held), scripts)
           == Drain(old(Draining(announced, plans, false, None)), scripts)
      ensures if held.None? then Ready() && Published(base, announced', plans')
        else state == Paused && currentItemUid == held
    {
      ghost var before := Draining(announced, plans, false, None);
      ended, held, announced', plans' := false, None, announced, plans;
      var c := commands[0];
      commands := commands[1..];
      if c.Sentinel? {
        ended := true;
        return;
      }
      if c.id in futures && futures[c.id] == H.Cancelled {
        return;
      }
      var script := scripts(c.id);
      futures := futures[c.id := H.Started];
      var paused := RunCommand(c.work, script);
      if paused {
        held := Some(c.work.uid);
        return;
      }
      futures := futures[c.id := H.Resolved];
      ghost var opens, one := Opens(c.work, before.state, script), Finished(c.work, before.slot, script);
      RunToItsEnd(before.(commands := before.commands[1..]), c.id, c.work, script);
      PublishedOneMore(base, announced, plans, opens, one);
      announced', plans' := announced || opens, Append(plans, one);
    }

    /** Drains the command queue until it is empty, a sentinel is met, or a plan stays paused. */
    method RunLoop(scripts: nat -> Script) returns (ended: bool, held: Option<string>)
      requires Ready()
      modifies this
      ensures var d := Drain(old(Draining(false, [], false, None)), scripts);
        && d == Draining(d.announced, d.plans, ended, held)
        && (if held.None? then Ready() && Published(old(events), d.announced, d.plans)
            else state == Paused && currentItemUid == held)
    {
      ended, held := false, None;
      ghost var announced, plans: seq<(string, nat)> := false, [];
      while commands != [] && !ended && held == None
        invariant if held.None? then Ready() && Published(old(events), announced, plans)
          else state == Paused && currentItemUid == held
        invariant Drain(Draining(announced, plans, ended, held), scripts)
               == Drain(old(Draining(false, [], false, None)), scripts)
        decreases |commands|
      {
        ended, held, announced, plans := RunNext(scripts, old(events), announced, plans);
      }
    }
  }
}
