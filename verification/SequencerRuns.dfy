/** What holds over every run of the sequencer, whatever the interleaving. */
module SequencerRuns {
  import opened Models
  import opened QueueList
  import opened SequencerModel

  // ---- conservation: no insertion is lost or duplicated -----------------------------

  /** How often `x` occurs in `q`. */
  ghost function Count(q: seq<QueueItem>, x: QueueItem): nat {
    if q == [] then 0 else (if q[0] == x then 1 else 0) + Count(q[1..], x)
  }

  /** The item the loop holds and has neither recorded nor put down. */
  ghost function Hand(pc: Pc): seq<QueueItem> {
    match pc
    case InHand(x) => [x]
    case Ended(e) => [e.item]
    case Flushed(e) => [e.item]
    case _ => []
  }

  /** How often `x` occurs in the written and in the held history entries. */
  ghost function CountEntries(c: Core, x: QueueItem): nat {
    Count(Items(c.history), x) + Count(Items(c.pending), x)
  }

  lemma {:induction false} CountConcat(a: seq<QueueItem>, b: seq<QueueItem>, x: QueueItem)
    ensures Count(a + b, x) == Count(a, x) + Count(b, x)
  {
    if a == [] {
      assert a + b == b;
    } else {
      assert (a + b)[1..] == a[1..] + b;
      CountConcat(a[1..], b, x);
    }
  }

  lemma ItemsOfConcat(a: seq<HistoryEntry>, b: seq<HistoryEntry>)
    ensures Items(a + b) == Items(a) + Items(b)
  {
  }

  lemma FlushKeepsEntries(c: Core, n: nat, x: QueueItem)
    ensures Flush(c, n).history + Flush(c, n).pending == c.history + c.pending
    ensures CountEntries(Flush(c, n), x) == CountEntries(c, x)
  {
    var d := Flush(c, n);
    if n < |c.pending| {
      assert c.pending == c.pending[..n] + c.pending[n..];
    }
    ItemsOfConcat(c.history, c.pending);
    ItemsOfConcat(d.history, d.pending);
    assert d.history + d.pending == c.history + c.pending;
    CountConcat(Items(c.history), Items(c.pending), x);
    CountConcat(Items(d.history), Items(d.pending), x);
  }

  lemma WriteAddsEntry(c: Core, e: HistoryEntry, ok: bool, x: QueueItem)
    ensures CountEntries(Write(c, e, ok), x) == CountEntries(c, x) + Count([e.item], x)
  {
    var to := if ok then c.history else c.pending;
    ItemsOfConcat(to, [e]);
    assert Items([e]) == [e.item];
    CountConcat(Items(to), [e.item], x);
  }

  lemma RemoveCounts(q: seq<QueueItem>, i: nat, x: QueueItem)
    requires i < |q|
    ensures Count(RemoveAt(q, i), x) + Count([q[i]], x) == Count(q, x)
  {
    assert q == q[..i] + ([q[i]] + q[i + 1..]);
    CountConcat(q[..i], [q[i]] + q[i + 1..], x);
    CountConcat([q[i]], q[i + 1..], x);
    CountConcat(q[..i], q[i + 1..], x);
  }

  lemma InsertCounts(q: seq<QueueItem>, i: nat, y: QueueItem, x: QueueItem)
    requires i <= |q|
    ensures Count(InsertAt(q, i, y), x) == Count(q, x) + Count([y], x)
  {
    assert q == q[..i] + q[i..];
    CountConcat(q[..i], q[i..], x);
    CountConcat(q[..i] + [y], q[i..], x);
    CountConcat(q[..i], [y], x);
  }

  lemma ReplaceCounts(q: seq<QueueItem>, i: nat, y: QueueItem, x: QueueItem)
    requires i < |q|
    ensures Count(q[i := y], x) + Count([q[i]], x) == Count(q, x) + Count([y], x)
  {
    Exchange(q, i, y);
    RemoveCounts(q, i, x);
    InsertCounts(RemoveAt(q, i), i, y, x);
  }

  lemma MoveCounts(q: seq<QueueItem>, i: nat, j: nat, x: QueueItem)
    requires i < |q| && j < |q|
    ensures Count(InsertAt(RemoveAt(q, i), j, q[i]), x) == Count(q, x)
  {
    RemoveCounts(q, i, x);
    InsertCounts(RemoveAt(q, i), j, q[i], x);
  }

  /** What stands somewhere beyond what was inserted: the quantity no step changes. */
  ghost function Balance(c: Core, pc: Pc, g: Ledger, x: QueueItem): int {
    Count(c.queue, x) + Count(Hand(pc), x) + CountEntries(c, x) + Count(g.withdrawn, x)
    - Count(g.inserted, x)
  }

  lemma InsertBalances(c: Core, pc: Pc, g: Ledger, l: EditStep, x: QueueItem)
    requires EditEnabled(c, l) && l.Insert?
    ensures Balance(EditCore(c, l), pc, EditLedger(g, c, l), x) == Balance(c, pc, g, x)
  {
    InsertCounts(c.queue, l.at, l.item, x);
    CountConcat(g.inserted, [l.item], x);
  }

  lemma RemoveBalances(c: Core, pc: Pc, g: Ledger, l: EditStep, x: QueueItem)
    requires EditEnabled(c, l) && l.Remove?
    ensures Balance(EditCore(c, l), pc, EditLedger(g, c, l), x) == Balance(c, pc, g, x)
  {
    RemoveCounts(c.queue, l.at, x);
    CountConcat(g.withdrawn, [c.queue[l.at]], x);
  }

  lemma UpdateBalances(c: Core, pc: Pc, g: Ledger, l: EditStep, x: QueueItem)
    requires EditEnabled(c, l) && l.Update?
    ensures Balance(EditCore(c, l), pc, EditLedger(g, c, l), x) == Balance(c, pc, g, x)
  {
    ReplaceCounts(c.queue, l.at, l.item, x);
    CountConcat(g.inserted, [l.item], x);
    CountConcat(g.withdrawn, [c.queue[l.at]], x);
  }

  lemma MoveBalances(c: Core, pc: Pc, g: Ledger, l: EditStep, x: QueueItem)
    requires EditEnabled(c, l) && l.Move?
    ensures Balance(EditCore(c, l), pc, EditLedger(g, c, l), x) == Balance(c, pc, g, x)
  {
    MoveCounts(c.queue, l.from, l.to, x);
  }

  lemma ClearBalances(c: Core, pc: Pc, g: Ledger, l: EditStep, x: QueueItem)
    requires l.Clear? || l.ClearHistory?
    ensures Balance(EditCore(c, l), pc, EditLedger(g, c, l), x) == Balance(c, pc, g, x)
  {
    CountConcat(g.withdrawn, if l.Clear? then c.queue else Items(c.history), x);
  }

  /** An edit withdraws what it takes out and inserts what it puts in. */
  lemma EditBalances(c: Core, pc: Pc, g: Ledger, l: EditStep, x: QueueItem)
    requires EditEnabled(c, l)
    ensures Balance(EditCore(c, l), pc, EditLedger(g, c, l), x) == Balance(c, pc, g, x)
  {
    match l
    case Insert(_, _) => InsertBalances(c, pc, g, l, x);
    case Remove(_) => RemoveBalances(c, pc, g, l, x);
    case Move(_, _) => MoveBalances(c, pc, g, l, x);
    case Update(_, _) => UpdateBalances(c, pc, g, l, x);
    case Clear => ClearBalances(c, pc, g, l, x);
    case ClearHistory => ClearBalances(c, pc, g, l, x);
  }

  lemma PopBalances(c: Core, pc: Pc, g: Ledger, x: QueueItem)
    requires pc.ToPop?
    ensures Balance(LoopCore(c, pc, PopFront), LoopPc(c, pc, PopFront), g, x) == Balance(c, pc, g, x)
  {
    if c.queue != [] {
      assert c.queue == [c.queue[0]] + c.queue[1..];
      CountConcat([c.queue[0]], c.queue[1..], x);
    }
  }

  lemma FlushBalances(c: Core, pc: Pc, g: Ledger, l: LoopStep, x: QueueItem)
    requires LoopEnabled(c, pc, l) && l.RecordFlush?
    ensures Balance(LoopCore(c, pc, l), LoopPc(c, pc, l), g, x) == Balance(c, pc, g, x)
  {
    FlushKeepsEntries(c, l.accepted, x);
  }

  lemma WriteBalances(c: Core, pc: Pc, g: Ledger, l: LoopStep, x: QueueItem)
    requires LoopEnabled(c, pc, l) && l.RecordWrite?
    ensures Balance(LoopCore(c, pc, l), LoopPc(c, pc, l), LoopLedger(g, pc, l), x) == Balance(c, pc, g, x)
  {
    WriteAddsEntry(c, pc.entry, l.ok, x);
  }

  lemma RequeueBalances(c: Core, pc: Pc, g: Ledger, l: LoopStep, x: QueueItem)
    requires LoopEnabled(c, pc, l) && l.Requeue?
    ensures Balance(LoopCore(c, pc, l), LoopPc(c, pc, l), LoopLedger(g, pc, l), x) == Balance(c, pc, g, x)
  {
    CountConcat(c.queue, [l.copy], x);
    CountConcat(g.inserted, [l.copy], x);
  }

  /** A loop step hands an item on, from queue to hand to entry and, in loop mode, back. */
  lemma LoopBalances(c: Core, pc: Pc, g: Ledger, l: LoopStep, x: QueueItem)
    requires LoopEnabled(c, pc, l)
    ensures Balance(LoopCore(c, pc, l), LoopPc(c, pc, l), LoopLedger(g, pc, l), x) == Balance(c, pc, g, x)
  {
    match l
    case PopFront => PopBalances(c, pc, g, x);
    case RecordFlush(_) => FlushBalances(c, pc, g, l, x);
    case RecordWrite(_) => WriteBalances(c, pc, g, l, x);
    case Requeue(_) => RequeueBalances(c, pc, g, l, x);
    case _ =>
  }

  lemma ControlBalances(c: Core, pc: Pc, g: Ledger, l: ControlStep, x: QueueItem)
    ensures Balance(ControlCore(c, l), pc, g, x) == Balance(c, pc, g, x)
  {
    if l.StartFlush? {
      FlushKeepsEntries(c, l.accepted, x);
    }
  }

  /** Every step of every thread keeps each insertion in exactly one place. */
  lemma StepBalances(s: State, l: Label, x: QueueItem)
    requires Enabled(s, l)
    ensures var t := Apply(s, l); Balance(t.core, t.pc, t.ledger, x) == Balance(s.core, s.pc, s.ledger, x)
  {
    match l
    case Loop(step) => LoopBalances(s.core, s.pc, s.ledger, step, x);
    case Call(call) => ControlBalances(s.core, s.pc, s.ledger, call, x);
    case Edit(edit) => EditBalances(s.core, s.pc, s.ledger, edit, x);
  }

  lemma {:induction false} RunBalances(s: State, ls: seq<Label>, x: QueueItem)
    requires Run(s, ls)
    ensures var t := Exec(s, ls); Balance(t.core, t.pc, t.ledger, x) == Balance(s.core, s.pc, s.ledger, x)
    decreases |ls|
  {
    if ls != [] {
      StepBalances(s, ls[0], x);
      RunBalances(Apply(s, ls[0]), ls[1..], x);
    }
  }

  /** Conservation over every run: each insertion made so far, counted as often as it was
      made, is in exactly one of queue, hand, history, held entries and withdrawals. */
  lemma EveryInsertionInOnePlace(
      queue: seq<QueueItem>, history: seq<HistoryEntry>, ls: seq<Label>, x: QueueItem)
    requires Run(Initial(queue, history), ls)
    ensures var s := Exec(Initial(queue, history), ls);
      Count(s.core.queue, x) + Count(Hand(s.pc), x) + Count(Items(s.core.history), x)
      + Count(Items(s.core.pending), x) + Count(s.ledger.withdrawn, x)
      == Count(s.ledger.inserted, x)
  {
    RunBalances(Initial(queue, history), ls, x);
    CountConcat(queue, Items(history), x);
  }

  // ---- stop-and-wait ----------------------------------------------------------------

  /** An outcome other than success, a refused history write, or an item that loop mode could
      not put back. */
  ghost predicate Bad(l: Label) {
    l.Loop? &&
    match l.step
    case Outcome(e) => !e.Succeeded()
    case RecordWrite(ok) => !ok
    case RequeueRefused => true
    case _ => false
  }

  /** No successful queue_start and no autostart during the run. */
  ghost predicate NeverStarted(s: State, ls: seq<Label>)
    requires Run(s, ls)
    decreases |ls|
  {
    ls == [] ||
    (!Starts(s, ls[0]) && ls[0] != Call(SetAutostart(true)) && NeverStarted(Apply(s, ls[0]), ls[1..]))
  }

  /** The loop thread is on its way to clear `running`. */
  ghost predicate WillStop(pc: Pc) {
    match pc
    case Ended(e) => !e.Succeeded()
    case Flushed(e) => !e.Succeeded()
    case WriteFailed(_) => true
    case Recorded(e) => !e.Succeeded()
    case RequeueFailed(_) => true
    case _ => false
  }

  ghost predicate Stopped(s: State) {
    !s.core.autostart && (WillStop(s.pc) || (!s.core.running && !s.pc.ToPop?))
  }

  lemma StoppedStaysInLoop(s: State, l: LoopStep)
    requires LoopEnabled(s.core, s.pc, l) && Stopped(s)
    ensures Stopped(Apply(s, Loop(l))) && l != PopFront
  {
  }

  lemma StoppedStays(s: State, l: Label)
    requires Enabled(s, l) && Stopped(s)
    requires !Starts(s, l) && l != Call(SetAutostart(true))
    ensures Stopped(Apply(s, l)) && !Pops(s, l)
  {
    if l.Loop? {
      StoppedStaysInLoop(s, l.step);
    }
  }

  lemma {:induction false} StoppedPopsNothing(s: State, ls: seq<Label>)
    requires Run(s, ls) && Stopped(s) && NeverStarted(s, ls)
    ensures PopCount(s, ls) == 0
    decreases |ls|
  {
    if ls != [] {
      StoppedStays(s, ls[0]);
      StoppedPopsNothing(Apply(s, ls[0]), ls[1..]);
    }
  }

  /** With autostart off, after anything bad the loop takes no item until the queue is started
      again, however the control calls and edits interleave. */
  lemma StopAndWait(s: State, l: Label, ls: seq<Label>)
    requires Enabled(s, l) && Bad(l) && !s.core.autostart
    requires Run(Apply(s, l), ls) && NeverStarted(Apply(s, l), ls)
    ensures PopCount(Apply(s, l), ls) == 0
  {
    StoppedPopsNothing(Apply(s, l), ls);
  }

  // ---- the stop bound ---------------------------------------------------------------

  ghost predicate NeverStartedNorCancelled(s: State, ls: seq<Label>)
    requires Run(s, ls)
    decreases |ls|
  {
    ls == [] ||
    (!Starts(s, ls[0]) && ls[0] != Call(SetAutostart(true)) && ls[0] != Call(StopCancel)
     && NeverStartedNorCancelled(Apply(s, ls[0]), ls[1..]))
  }

  ghost predicate Stopping(s: State) {
    !s.core.autostart && (s.core.running ==> s.core.stopPending)
  }

  lemma StoppingStaysInLoop(s: State, l: LoopStep)
    requires LoopEnabled(s.core, s.pc, l) && Stopping(s)
    ensures Stopping(Apply(s, Loop(l)))
    ensures !Apply(s, Loop(l)).pc.ToPop?
  {
  }

  lemma StoppingStays(s: State, l: Label)
    requires Enabled(s, l) && Stopping(s)
    requires !Starts(s, l) && l != Call(SetAutostart(true)) && l != Call(StopCancel)
    ensures Stopping(Apply(s, l))
    ensures Pops(s, l) ==> s.pc.ToPop? && !Apply(s, l).pc.ToPop?
    ensures Apply(s, l).pc.ToPop? ==> s.pc.ToPop?
  {
    if l.Loop? {
      StoppingStaysInLoop(s, l.step);
    }
  }

  lemma {:induction false} StoppingPopsAtMost(s: State, ls: seq<Label>)
    requires Run(s, ls) && NeverStartedNorCancelled(s, ls) && Stopping(s)
    ensures PopCount(s, ls) <= if s.pc.ToPop? then 1 else 0
    decreases |ls|
  {
    if ls != [] {
      StoppingStays(s, ls[0]);
      StoppingPopsAtMost(Apply(s, ls[0]), ls[1..]);
    }
  }

  /** With autostart off, between an accepted queue_stop and the next start or cancel the loop
      takes at most one item, and none unless it was already past _should_run. */
  lemma StopBound(s: State, ls: seq<Label>)
    requires s.core.running && !s.core.autostart
    requires Run(Apply(s, Call(StopRequest)), ls) && NeverStartedNorCancelled(Apply(s, Call(StopRequest)), ls)
    ensures PopCount(Apply(s, Call(StopRequest)), ls) <= if s.pc.ToPop? then 1 else 0
  {
    StoppingPopsAtMost(Apply(s, Call(StopRequest)), ls);
  }
}
