/** The sequencer as a state machine: the loop thread, `queue_start` callers and user edits
    interleave at the granularity of the sequencer's lock and of single repository calls. */
module SequencerModel {
  import opened Wrappers
  import opened Models
  import opened QueueList

  // ---- the fields of the sequencer and of the queue it drains -----------------------

  datatype Core = Core(
    queue: seq<QueueItem>, history: seq<HistoryEntry>, pending: seq<HistoryEntry>,
    running: bool, stopPending: bool, autostart: bool, loopMode: bool, closing: bool,
    dbError: bool)

  datatype Refusal = NotSynced | DbUnavailable | NoProfile | QueueEmpty | NotRunning

  /** Write held entries in order; the database takes `accepted` of them before it refuses one. */
  function Flush(c: Core, accepted: nat): Core {
    if accepted < |c.pending|
    then c.(history := c.history + c.pending[..accepted], pending := c.pending[accepted..], dbError := true)
    else c.(history := c.history + c.pending, pending := [], dbError := false)
  }

  /** The part of `queue_start` that holds the lock. */
  function Start(c: Core, host: EngineState): Result<Core, Refusal> {
    if host == NoEngine then Err(NoProfile)
    else if c.queue == [] then Err(QueueEmpty)
    else Ok(c.(running := true, stopPending := false))
  }

  function RequestStop(c: Core): Result<Core, Refusal> {
    if !c.running then Err(NotRunning) else Ok(c.(stopPending := true))
  }

  /** `_should_run`: the new fields, and whether the loop goes on to take an item. */
  function ShouldRunNext(c: Core, host: EngineState): (Core, bool) {
    if c.closing then (c, false)
    else if c.running && c.stopPending then (Halt(c), false)
    else
      var d := if c.autostart && !c.running && c.queue != [] then c.(running := true) else c;
      (d, d.running && host == Idle)
  }

  /** Not running and no stop pending. */
  function Halt(c: Core): Core {
    c.(running := false, stopPending := false)
  }

  /** Write one entry, or hold it in memory when the database refuses it. */
  function Write(c: Core, entry: HistoryEntry, ok: bool): Core {
    if ok then c.(history := c.history + [entry], dbError := false)
    else c.(pending := c.pending + [entry], dbError := true)
  }

  // ---- the interleaving machine -----------------------------------------------------

  /** Where the loop thread stands. */
  datatype Pc =
    | Top                                   // about to evaluate _should_run
    | ToPop                                 // _should_run said yes, pop_front not yet called
    | SawEmpty                              // pop_front returned nothing, flags not yet cleared
    | InHand(item: QueueItem)                       // the item is with the engine
    | Ended(entry: HistoryEntry)         // the outcome is known, _record not yet entered
    | Flushed(entry: HistoryEntry)       // _record has flushed, its own write is next
    | WriteFailed(entry: HistoryEntry)   // the write was refused, the entry is held
    | Recorded(entry: HistoryEntry)      // _record has returned
    | RequeueFailed(entry: HistoryEntry) // loop mode could not put the item back

  /** What happened so far: nothing reads it but the theorems. */
  datatype Ledger = Ledger(
    inserted: seq<QueueItem>,                       // every insertion into the queue
    withdrawn: seq<QueueItem>,                      // what users removed, replaced or cleared
    completed: seq<HistoryEntry>,        // every outcome, in completion order
    cleared: nat)                           // how many of those a user deleted from history

  /** `starters` counts the queue_start calls between their flush and the lock. */
  datatype State = State(core: Core, pc: Pc, starters: nat, ledger: Ledger)

  datatype LoopStep =
    | ShouldRun(host: EngineState)
    | PopFront
    | GoIdle
    | Outcome(entry: HistoryEntry)
    | RecordFlush(accepted: nat)
    | RecordWrite(ok: bool)
    | RecordClear
    | Requeue(copy: QueueItem)
    | RequeueRefused
    | RequeueClear
    | SkipRequeue
    | StopOnFailure

  datatype ControlStep =
    | StartFlush(accepted: nat)
    | StartCommit(host: EngineState)
    | StopRequest
    | StopCancel
    | SetAutostart(on: bool)
    | SetLoopMode(on: bool)
    | Close

  /** User edits, each one repository call. */
  datatype EditStep =
    | Insert(at: nat, item: QueueItem)
    | Remove(at: nat)
    | Move(from: nat, to: nat)
    | Update(at: nat, item: QueueItem)
    | Clear
    | ClearHistory

  datatype Label = Loop(step: LoopStep) | Call(call: ControlStep) | Edit(edit: EditStep)

  function Items(entries: seq<HistoryEntry>): seq<QueueItem> {
    seq(|entries|, i requires 0 <= i < |entries| => entries[i].item)
  }

  /** Which of its steps the loop thread can take. */
  ghost predicate LoopEnabled(c: Core, pc: Pc, l: LoopStep) {
    match l
    case ShouldRun(_) => pc.Top?
    case PopFront => pc.ToPop?
    case GoIdle => pc.SawEmpty?
    case Outcome(e) => pc.InHand? && e.item == pc.item
    case RecordFlush(_) => pc.Ended?
    case RecordWrite(_) => pc.Flushed?
    case RecordClear => pc.WriteFailed?
    case Requeue(_) => pc.Recorded? && pc.entry.Succeeded() && c.loopMode
    case RequeueRefused => pc.Recorded? && pc.entry.Succeeded() && c.loopMode
    case RequeueClear => pc.RequeueFailed?
    case SkipRequeue => pc.Recorded? && pc.entry.Succeeded() && !c.loopMode
    case StopOnFailure => pc.Recorded? && !pc.entry.Succeeded()
  }

  /** The effect of a loop step on the sequencer's fields. */
  ghost function LoopCore(c: Core, pc: Pc, l: LoopStep): Core
    requires LoopEnabled(c, pc, l)
  {
    match l
    case ShouldRun(host) => ShouldRunNext(c, host).0
    case PopFront => if c.queue == [] then c else c.(queue := c.queue[1..])
    case GoIdle => Halt(c)
    case Outcome(_) => c
    case RecordFlush(n) => Flush(c, n)
    case RecordWrite(ok) => Write(c, pc.entry, ok)
    case RecordClear => c.(running := false)
    case Requeue(x) => c.(queue := c.queue + [x])
    case RequeueRefused => c
    case RequeueClear => c.(running := false)
    case SkipRequeue => c
    case StopOnFailure => Halt(c)
  }

  /** The loop thread's next position. */
  ghost function LoopPc(c: Core, pc: Pc, l: LoopStep): Pc
    requires LoopEnabled(c, pc, l)
  {
    match l
    case ShouldRun(host) => if ShouldRunNext(c, host).1 then ToPop else Top
    case PopFront => if c.queue == [] then SawEmpty else InHand(c.queue[0])
    case GoIdle => Top
    case Outcome(e) => Ended(e)
    case RecordFlush(_) => Flushed(pc.entry)
    case RecordWrite(ok) => if ok then Recorded(pc.entry) else WriteFailed(pc.entry)
    case RecordClear => Recorded(pc.entry)
    case Requeue(_) => Top
    case RequeueRefused => RequeueFailed(pc.entry)
    case RequeueClear => Top
    case SkipRequeue => Top
    case StopOnFailure => Top
  }

  ghost function LoopLedger(g: Ledger, pc: Pc, l: LoopStep): Ledger
    requires l.RecordWrite? ==> pc.Flushed?
  {
    if l.RecordWrite? then g.(completed := g.completed + [pc.entry])
    else if l.Requeue? then g.(inserted := g.inserted + [l.copy])
    else g
  }

  ghost function ControlCore(c: Core, l: ControlStep): Core {
    match l
    case StartFlush(n) => Flush(c, n)
    case StartCommit(host) => var r := Start(c, host); if r.Ok? then r.value else c
    case StopRequest => var r := RequestStop(c); if r.Ok? then r.value else c
    case StopCancel => c.(stopPending := false)
    case SetAutostart(b) => c.(autostart := b)
    case SetLoopMode(b) => c.(loopMode := b)
    case Close => c.(closing := true)
  }

  /** A queue_start call is past its flush exactly when that flush left nothing held. */
  ghost function ControlStarters(c: Core, starters: nat, l: ControlStep): nat
    requires l.StartCommit? ==> starters > 0
  {
    if l.StartFlush? && Flush(c, l.accepted).pending == [] then starters + 1
    else if l.StartCommit? then starters - 1
    else starters
  }

  predicate EditEnabled(c: Core, l: EditStep) {
    match l
    case Insert(i, _) => i <= |c.queue|
    case Remove(i) => i < |c.queue|
    case Move(i, j) => i < |c.queue| && j < |c.queue|
    case Update(i, _) => i < |c.queue|
    case Clear => true
    case ClearHistory => true
  }

  function EditCore(c: Core, l: EditStep): Core
    requires EditEnabled(c, l)
  {
    match l
    case Insert(i, x) => c.(queue := InsertAt(c.queue, i, x))
    case Remove(i) => c.(queue := RemoveAt(c.queue, i))
    case Move(i, j) => c.(queue := InsertAt(RemoveAt(c.queue, i), j, c.queue[i]))
    case Update(i, x) => c.(queue := c.queue[i := x])
    case Clear => c.(queue := [])
    case ClearHistory => c.(history := [])
  }

  function EditLedger(g: Ledger, c: Core, l: EditStep): Ledger
    requires EditEnabled(c, l)
  {
    match l
    case Insert(_, x) => g.(inserted := g.inserted + [x])
    case Remove(i) => g.(withdrawn := g.withdrawn + [c.queue[i]])
    case Move(_, _) => g
    case Update(i, x) => g.(inserted := g.inserted + [x], withdrawn := g.withdrawn + [c.queue[i]])
    case Clear => g.(withdrawn := g.withdrawn + c.queue)
    case ClearHistory => g.(withdrawn := g.withdrawn + Items(c.history), cleared := g.cleared + |c.history|)
  }

  /** Which labels the code can take in a state. */
  ghost predicate Enabled(s: State, l: Label) {
    match l
    case Loop(step) => LoopEnabled(s.core, s.pc, step)
    case Call(call) => call.StartCommit? ==> s.starters > 0
    case Edit(edit) => EditEnabled(s.core, edit)
  }

  ghost function Apply(s: State, l: Label): State
    requires Enabled(s, l)
  {
    match l
    case Loop(step) => State(LoopCore(s.core, s.pc, step), LoopPc(s.core, s.pc, step), s.starters,
                             LoopLedger(s.ledger, s.pc, step))
    case Call(call) => s.(core := ControlCore(s.core, call),
                          starters := ControlStarters(s.core, s.starters, call))
    case Edit(edit) => s.(core := EditCore(s.core, edit), ledger := EditLedger(s.ledger, s.core, edit))
  }

  /** The labels can be taken one after another from `s`. */
  ghost predicate Run(s: State, ls: seq<Label>)
    decreases |ls|
  {
    ls == [] || (Enabled(s, ls[0]) && Run(Apply(s, ls[0]), ls[1..]))
  }

  /** The state a run ends in. */
  ghost function Exec(s: State, ls: seq<Label>): State
    requires Run(s, ls)
    decreases |ls|
  {
    if ls == [] then s else Exec(Apply(s, ls[0]), ls[1..])
  }

  /** The service as it comes up: stopped, nothing held, over whatever the database kept. */
  function Initial(queue: seq<QueueItem>, history: seq<HistoryEntry>): State {
    State(Core(queue, history, [], false, false, false, false, false, false), Top, 0,
          Ledger(queue + Items(history), [], history, 0))
  }

  /** The label starts the queue: `queue_start` reaching its last line. */
  ghost predicate Starts(s: State, l: Label) {
    l.Call? && l.call.StartCommit? && s.starters > 0 && Start(s.core, l.call.host).Ok?
  }

  /** The label takes an item off the queue. */
  ghost predicate Pops(s: State, l: Label) {
    l == Loop(PopFront) && s.pc.ToPop? && s.core.queue != []
  }

  /** How many items the loop takes during a run. */
  ghost function PopCount(s: State, ls: seq<Label>): nat
    requires Run(s, ls)
    decreases |ls|
  {
    if ls == [] then 0
    else (if Pops(s, ls[0]) then 1 else 0) + PopCount(Apply(s, ls[0]), ls[1..])
  }

  /** Runs compose. */
  lemma {:induction false} RunConcat(s: State, a: seq<Label>, b: seq<Label>)
    requires Run(s, a) && Run(Exec(s, a), b)
    ensures Run(s, a + b) && Exec(s, a + b) == Exec(Exec(s, a), b)
    decreases |a|
  {
    if a == [] {
      assert a + b == b;
    } else {
      assert (a + b)[0] == a[0] && (a + b)[1..] == a[1..] + b;
      RunConcat(Apply(s, a[0]), a[1..], b);
    }
  }

  lemma RunSingle(s: State, a: Label)
    requires Enabled(s, a)
    ensures Run(s, [a]) && Exec(s, [a]) == Apply(s, a)
  {
    assert [a][1..] == [];
  }

  lemma RunTwo(s: State, a: Label, b: Label)
    requires Enabled(s, a) && Enabled(Apply(s, a), b)
    ensures Run(s, [a, b]) && Exec(s, [a, b]) == Apply(Apply(s, a), b)
  {
    RunSingle(Apply(s, a), b);
    assert [a, b][1..] == [b];
  }

  /** Four labels, taken one by one. */
  lemma RunFour(s: State, a: Label, b: Label, c: Label, d: Label)
    requires Enabled(s, a) && Enabled(Apply(s, a), b) && Enabled(Apply(Apply(s, a), b), c)
    requires Enabled(Apply(Apply(Apply(s, a), b), c), d)
    ensures Run(s, [a, b, c, d])
    ensures Exec(s, [a, b, c, d]) == Apply(Apply(Apply(Apply(s, a), b), c), d)
  {
    RunTwo(s, a, b);
    RunTwo(Apply(Apply(s, a), b), c, d);
    RunConcat(s, [a, b], [c, d]);
    assert [a, b] + [c, d] == [a, b, c, d];
  }
}
