/** Held history: when the queue can run while an outcome is unwritten, and in which order
    outcomes reach history. */
module SequencerOrder {
  import opened Models
  import opened SequencerModel

  /** While a queue_start is between its flush and its lock, and while _record is between its
      flush and its last lock, nothing else happens: both calls are atomic. */
  ghost predicate NoOverlap(s: State, l: Label) {
    && (s.starters > 0 ==> l.Call? && l.call.StartCommit?)
    && (s.pc.Flushed? ==> l.Loop? && l.step.RecordWrite?)
    && (s.pc.WriteFailed? ==> l.Loop? && l.step.RecordClear?)
  }

  /** queue_start and _record are atomic during the run, and autostart is never enabled. */
  ghost predicate Orderly(s: State, ls: seq<Label>)
    requires Run(s, ls)
    decreases |ls|
  {
    ls == [] ||
    (NoOverlap(s, ls[0]) && ls[0] != Call(SetAutostart(true)) && Orderly(Apply(s, ls[0]), ls[1..]))
  }

  /** Nothing is held wherever the queue may go on running. */
  ghost predicate NothingHeld(s: State) {
    && !s.core.autostart
    && (s.starters > 0 ==> s.core.pending == [])
    && (s.core.running && !s.pc.WriteFailed? ==> s.core.pending == [])
    && (s.pc.ToPop? || s.pc.InHand? || s.pc.Ended? || s.pc.Flushed? ==> s.core.pending == [])
  }

  /** Written and held outcomes are the completed ones in completion order, without those a
      user cleared; the error flag is up exactly while something is held. */
  ghost predicate InOrder(s: State) {
    && s.ledger.cleared <= |s.ledger.completed|
    && s.core.history + s.core.pending == s.ledger.completed[s.ledger.cleared..]
    && (s.core.dbError <==> s.core.pending != [])
  }

  lemma NothingHeldStaysInLoop(s: State, l: LoopStep)
    requires LoopEnabled(s.core, s.pc, l) && NoOverlap(s, Loop(l)) && NothingHeld(s)
    ensures NothingHeld(Apply(s, Loop(l)))
  {
  }

  lemma NothingHeldStaysInCall(s: State, l: ControlStep)
    requires Enabled(s, Call(l)) && NoOverlap(s, Call(l)) && l != SetAutostart(true) && NothingHeld(s)
    ensures NothingHeld(Apply(s, Call(l)))
  {
  }

  lemma NothingHeldStays(s: State, l: Label)
    requires Enabled(s, l) && NoOverlap(s, l) && l != Call(SetAutostart(true))
    requires NothingHeld(s)
    ensures NothingHeld(Apply(s, l))
  {
    match l
    case Loop(step) => NothingHeldStaysInLoop(s, step);
    case Call(call) => NothingHeldStaysInCall(s, call);
    case Edit(_) =>
  }

  lemma FlushKeepsOrder(c: Core, n: nat)
    requires c.dbError <==> c.pending != []
    ensures Flush(c, n).history + Flush(c, n).pending == c.history + c.pending
    ensures Flush(c, n).dbError <==> Flush(c, n).pending != []
  {
    if n < |c.pending| {
      assert c.pending == c.pending[..n] + c.pending[n..];
    }
  }

  lemma ClearKeepsOrder(s: State)
    requires InOrder(s)
    ensures InOrder(Apply(s, Edit(ClearHistory)))
  {
    var g, h, p := s.ledger, s.core.history, s.core.pending;
    assert |h + p| == |g.completed| - g.cleared;
    assert g.completed[g.cleared + |h|..] == g.completed[g.cleared..][|h|..];
    assert (h + p)[|h|..] == p == [] + p;
  }

  lemma InOrderStaysInCall(s: State, l: ControlStep)
    requires Enabled(s, Call(l)) && InOrder(s)
    ensures InOrder(Apply(s, Call(l)))
  {
    if l.StartFlush? {
      FlushKeepsOrder(s.core, l.accepted);
    }
  }

  lemma {:induction false} OrderlyRunKeeps(s: State, ls: seq<Label>)
    requires Run(s, ls) && Orderly(s, ls) && NothingHeld(s) && InOrder(s)
    ensures NothingHeld(Exec(s, ls)) && InOrder(Exec(s, ls))
    decreases |ls|
  {
    if ls != [] {
      NothingHeldStays(s, ls[0]);
      OrderBrokenExactlyWhen(s, ls[0]);
      OrderlyRunKeeps(Apply(s, ls[0]), ls[1..]);
    }
  }

  /** Over every run with atomic queue_start and _record and autostart never enabled: no item is
      taken while an outcome is unwritten; a running queue holds nothing, except inside the
      _record that is about to stop it; history followed by the held entries is what completed,
      in completion order, less what a user cleared; the database error is up exactly while
      something is held. */
  lemma NothingRunsUnrecorded(queue: seq<QueueItem>, history: seq<HistoryEntry>, ls: seq<Label>)
    requires Run(Initial(queue, history), ls) && Orderly(Initial(queue, history), ls)
    ensures var s := Exec(Initial(queue, history), ls);
      && (s.pc.ToPop? || s.pc.InHand? ==> s.core.pending == [])
      && (s.core.running && !s.pc.WriteFailed? ==> s.core.pending == [])
      && s.ledger.cleared <= |s.ledger.completed|
      && s.core.history + s.core.pending == s.ledger.completed[s.ledger.cleared..]
      && (s.core.dbError <==> s.core.pending != [])
  {
    OrderlyRunKeeps(Initial(queue, history), ls);
  }

  // ---- what survives at any interleaving --------------------------------------------

  /** Written and held outcomes are completed ones, each as often as it completed at most, and only
      the cleared ones are missing. */
  ghost predicate NoneLost(c: Core, g: Ledger) {
    && multiset(c.history) + multiset(c.pending) <= multiset(g.completed)
    && |c.history| + |c.pending| + g.cleared == |g.completed|
  }

  lemma FlushLosesNone(c: Core, n: nat)
    ensures var d := Flush(c, n);
      && multiset(d.history) + multiset(d.pending) == multiset(c.history) + multiset(c.pending)
      && |d.history| + |d.pending| == |c.history| + |c.pending|
  {
    if n < |c.pending| {
      assert c.pending == c.pending[..n] + c.pending[n..];
    }
  }

  lemma WriteLosesNone(c: Core, g: Ledger, e: HistoryEntry, ok: bool)
    requires NoneLost(c, g)
    ensures NoneLost(Write(c, e, ok), g.(completed := g.completed + [e]))
  {
  }

  /** The other steps of the loop leave both lists alone. */
  lemma OthersLeaveEntries(s: State, l: LoopStep)
    requires LoopEnabled(s.core, s.pc, l) && !l.RecordFlush? && !l.RecordWrite?
    ensures var t := Apply(s, Loop(l));
      && t.core.history == s.core.history && t.core.pending == s.core.pending
      && t.ledger.completed == s.ledger.completed && t.ledger.cleared == s.ledger.cleared
  {
  }

  lemma LoopLosesNone(s: State, l: LoopStep)
    requires LoopEnabled(s.core, s.pc, l) && NoneLost(s.core, s.ledger)
    ensures NoneLost(Apply(s, Loop(l)).core, Apply(s, Loop(l)).ledger)
  {
    if l.RecordFlush? {
      FlushLosesNone(s.core, l.accepted);
    } else if l.RecordWrite? {
      WriteLosesNone(s.core, s.ledger, s.pc.entry, l.ok);
    } else {
      OthersLeaveEntries(s, l);
    }
  }

  lemma CallLosesNone(c: Core, g: Ledger, l: ControlStep)
    requires NoneLost(c, g)
    ensures NoneLost(ControlCore(c, l), g)
  {
    if l.StartFlush? {
      FlushLosesNone(c, l.accepted);
    }
  }

  lemma EditLosesNone(c: Core, g: Ledger, l: EditStep)
    requires EditEnabled(c, l) && NoneLost(c, g)
    ensures NoneLost(EditCore(c, l), EditLedger(g, c, l))
  {
  }

  lemma StepLosesNone(s: State, l: Label)
    requires Enabled(s, l) && NoneLost(s.core, s.ledger)
    ensures NoneLost(Apply(s, l).core, Apply(s, l).ledger)
  {
    match l
    case Loop(step) => LoopLosesNone(s, step);
    case Call(call) => CallLosesNone(s.core, s.ledger, call);
    case Edit(edit) => EditLosesNone(s.core, s.ledger, edit);
  }

  lemma {:induction false} RunLosesNone(s: State, ls: seq<Label>)
    requires Run(s, ls) && NoneLost(s.core, s.ledger)
    ensures NoneLost(Exec(s, ls).core, Exec(s, ls).ledger)
    decreases |ls|
  {
    if ls != [] {
      StepLosesNone(s, ls[0]);
      RunLosesNone(Apply(s, ls[0]), ls[1..]);
    }
  }

  /** Over every run, autostart and overlapping calls included: every completed outcome is written
      or held exactly as often as it completed, in some order, unless a user cleared some. */
  lemma OutcomesNeverLost(queue: seq<QueueItem>, history: seq<HistoryEntry>, ls: seq<Label>)
    requires Run(Initial(queue, history), ls)
    ensures var s := Exec(Initial(queue, history), ls);
      && multiset(s.core.history) + multiset(s.core.pending) <= multiset(s.ledger.completed)
      && |s.core.history| + |s.core.pending| + s.ledger.cleared == |s.ledger.completed|
      && (s.ledger.cleared == 0 ==>
            multiset(s.core.history) + multiset(s.core.pending) == multiset(s.ledger.completed))
  {
    RunLosesNone(Initial(queue, history), ls);
    var s := Exec(Initial(queue, history), ls);
    if s.ledger.cleared == 0 {
      SameSize(multiset(s.core.history) + multiset(s.core.pending), multiset(s.ledger.completed));
    }
  }

  lemma SameSize(a: multiset<HistoryEntry>, b: multiset<HistoryEntry>)
    requires a <= b && |a| == |b|
    ensures a == b
  {
    assert b == a + (b - a);
  }

  // ---- when it fails ----------------------------------------------------------------

  /** A running queue holds nothing, except inside the _record that is about to stop it. */
  ghost predicate Unheld(s: State) {
    s.core.running && !s.pc.WriteFailed? ==> s.core.pending == []
  }

  lemma LoopRunsOverHeldExactlyWhen(s: State, l: LoopStep)
    requires LoopEnabled(s.core, s.pc, l) && Unheld(s)
    ensures !Unheld(Apply(s, Loop(l))) <==>
      && s.core.pending != []
      && l.ShouldRun? && !s.core.running && s.core.autostart && s.core.queue != [] && !s.core.closing
  {
  }

  lemma CallRunsOverHeldExactlyWhen(s: State, l: ControlStep)
    requires Enabled(s, Call(l)) && Unheld(s)
    ensures !Unheld(Apply(s, Call(l))) <==>
      s.core.pending != [] && Starts(s, Call(l)) && !s.pc.WriteFailed?
  {
  }

  /** Two steps, and no others, set a queue running over held entries, at any interleaving: a
      queue_start that reaches its lock after an entry was held, and autostart re-arming. */
  lemma RunsOverHeldExactlyWhen(s: State, l: Label)
    requires Enabled(s, l) && Unheld(s)
    ensures !Unheld(Apply(s, l)) <==>
      && s.core.pending != []
      && ( || (Starts(s, l) && !s.pc.WriteFailed?)
           || (l.Loop? && l.step.ShouldRun? && !s.core.running && s.core.autostart
               && s.core.queue != [] && !s.core.closing))
  {
    match l
    case Loop(step) => LoopRunsOverHeldExactlyWhen(s, step);
    case Call(call) => CallRunsOverHeldExactlyWhen(s, call);
    case Edit(_) =>
  }

  lemma WriteBreaksOrderExactlyWhen(s: State, ok: bool)
    requires s.pc.Flushed? && InOrder(s)
    ensures InOrder(Apply(s, Loop(RecordWrite(ok)))) <==> !ok || s.core.pending == []
  {
    var g, t := s.ledger, Apply(s, Loop(RecordWrite(ok)));
    var h, p, e := s.core.history, s.core.pending, s.pc.entry;
    assert t.ledger.completed[g.cleared..] == g.completed[g.cleared..] + [e];
    if !ok {
      assert h + (p + [e]) == (h + p) + [e];
    }
  }

  lemma OthersKeepOrder(s: State, l: LoopStep)
    requires LoopEnabled(s.core, s.pc, l) && !l.RecordWrite? && InOrder(s)
    ensures InOrder(Apply(s, Loop(l)))
  {
    if l.RecordFlush? {
      FlushKeepsOrder(s.core, l.accepted);
    }
  }

  /** At any interleaving completion order, or the error flag, is lost in one way only: an outcome is
      written while an earlier one is still held. */
  lemma OrderBrokenExactlyWhen(s: State, l: Label)
    requires Enabled(s, l) && InOrder(s)
    ensures !InOrder(Apply(s, l)) <==> l == Loop(RecordWrite(true)) && s.core.pending != []
  {
    match l
    case Loop(step) =>
      if step.RecordWrite? {
        WriteBreaksOrderExactlyWhen(s, step.ok);
      } else {
        OthersKeepOrder(s, step);
      }
    case Call(call) => InOrderStaysInCall(s, call);
    case Edit(edit) =>
      if edit.ClearHistory? {
        ClearKeepsOrder(s);
      }
  }

  /** Somewhere in the run a queue is set running over held entries. */
  ghost predicate SetRunningOverHeld(s: State, ls: seq<Label>)
    requires Run(s, ls)
    decreases |ls|
  {
    ls != [] && ((Unheld(s) && !Unheld(Apply(s, ls[0]))) || SetRunningOverHeld(Apply(s, ls[0]), ls[1..]))
  }

  /** From the test of the loop to the write of the outcome the queue counts as running. */
  ghost predicate RunsWithItem(s: State) {
    s.pc.ToPop? || s.pc.InHand? || s.pc.Ended? || s.pc.Flushed? ==> s.core.running
  }

  lemma LoopRunsWithItem(s: State, l: LoopStep)
    requires LoopEnabled(s.core, s.pc, l) && RunsWithItem(s)
    ensures RunsWithItem(Apply(s, Loop(l)))
  {
  }

  lemma StepRunsWithItem(s: State, l: Label)
    requires Enabled(s, l) && RunsWithItem(s)
    ensures RunsWithItem(Apply(s, l))
  {
    if l.Loop? {
      LoopRunsWithItem(s, l.step);
    }
  }

  lemma {:induction false} OrderKeptUnlessOverHeld(s: State, ls: seq<Label>)
    requires Run(s, ls) && InOrder(s) && RunsWithItem(s) && Unheld(s) && !SetRunningOverHeld(s, ls)
    ensures InOrder(Exec(s, ls)) && Unheld(Exec(s, ls)) && RunsWithItem(Exec(s, ls))
    decreases |ls|
  {
    if ls != [] {
      OrderBrokenExactlyWhen(s, ls[0]);
      StepRunsWithItem(s, ls[0]);
      OrderKeptUnlessOverHeld(Apply(s, ls[0]), ls[1..]);
    }
  }

  /** Lost order has one cause: in every run of the service, whatever overlaps and whatever autostart
      does, outcomes are out of order, or the error flag is wrong, only if before that one of the two
      steps of `RunsOverHeldExactlyWhen` set the queue running over a held outcome. */
  lemma LostOrderTracesBack(queue: seq<QueueItem>, history: seq<HistoryEntry>, ls: seq<Label>)
    requires Run(Initial(queue, history), ls) && !InOrder(Exec(Initial(queue, history), ls))
    ensures SetRunningOverHeld(Initial(queue, history), ls)
  {
    if !SetRunningOverHeld(Initial(queue, history), ls) {
      OrderKeptUnlessOverHeld(Initial(queue, history), ls);
    }
  }

  /** An item taken, or about to be taken, over a held outcome has the same cause, over every run. */
  lemma TakenOverHeldTracesBack(queue: seq<QueueItem>, history: seq<HistoryEntry>, ls: seq<Label>)
    requires Run(Initial(queue, history), ls)
    requires var s := Exec(Initial(queue, history), ls);
      s.core.pending != [] && (s.pc.ToPop? || s.pc.InHand? || s.pc.Ended? || s.pc.Flushed?)
    ensures SetRunningOverHeld(Initial(queue, history), ls)
  {
    if !SetRunningOverHeld(Initial(queue, history), ls) {
      OrderKeptUnlessOverHeld(Initial(queue, history), ls);
    }
  }

  /** And the cause is enough: from every state at the top of the loop in which a queue runs over held
      outcomes, with an item left and the service not closing nor the queue about to stop, the next
      item's outcome can be written before them. */
  lemma RunningOverHeldCanLoseOrder(s: State) returns (ls: seq<Label>)
    requires s.pc.Top? && s.core.running && s.core.pending != [] && s.core.queue != []
    requires !s.core.closing && !s.core.stopPending && InOrder(s)
    ensures Run(s, ls) && !InOrder(Exec(s, ls))
  {
    var e := HistoryEntry(s.core.queue[0], Completed, "success", [], 0.0, 0.0, "", "");
    var l0 := [Loop(ShouldRun(Idle)), Loop(PopFront), Loop(Outcome(e)), Loop(RecordFlush(0))];
    RunFour(s, l0[0], l0[1], l0[2], l0[3]);
    var t := Exec(s, l0);
    assert t.core.pending == s.core.pending && t.core.history == s.core.history + [] && t.ledger == s.ledger;
    assert t.core.dbError && InOrder(t);
    var l1 := Loop(RecordWrite(true));
    OrderBrokenExactlyWhen(t, l1);
    RunSingle(t, l1);
    RunConcat(s, l0, [l1]);
    ls := l0 + [l1];
  }

  /** Without atomicity: a start that flushed before the write failed and locks after it runs
      the queue over the held outcome of `e`. */
  lemma LateStartRunsOverHeld(a: QueueItem, b: QueueItem, e: HistoryEntry) returns (ls: seq<Label>)
    requires e.item == a && e.Succeeded()
    ensures var s0 := Initial([a, b], []);
      && Run(s0, ls)
      && Exec(s0, ls).core.pending == [e]
      && Exec(s0, ls).pc.ToPop?
  {
    var s0 := Initial([a, b], []);
    var l0 := [Call(StartFlush(0)), Call(StartCommit(Idle)), Loop(ShouldRun(Idle)), Loop(PopFront)];
    RunFour(s0, l0[0], l0[1], l0[2], l0[3]);
    var s1 := Exec(s0, l0);
    assert s1.pc == InHand(a) && s1.core.queue == [b] && s1.core.running && s1.core.pending == [];
    var l1 := [Loop(Outcome(e)), Call(StartFlush(0)), Loop(RecordFlush(0)), Loop(RecordWrite(false))];
    RunFour(s1, l1[0], l1[1], l1[2], l1[3]);
    var s2 := Exec(s1, l1);
    assert s2.pc == WriteFailed(e) && s2.starters == 1 && s2.core.pending == [e] && s2.core.queue == [b];
    var l2 := [Loop(RecordClear), Call(StartCommit(Idle)), Loop(SkipRequeue), Loop(ShouldRun(Idle))];
    RunFour(s2, l2[0], l2[1], l2[2], l2[3]);
    RunConcat(s0, l0, l1);
    RunConcat(s0, l0 + l1, l2);
    ls := l0 + l1 + l2;
  }

  /** A first plan succeeds under autostart, but the database refuses its outcome. */
  lemma AutostartHoldsFirst(a: QueueItem, b: QueueItem, e: HistoryEntry) returns (ls: seq<Label>)
    requires e.item == a && e.Succeeded()
    ensures var s0 := Initial([a, b], []);
      && Run(s0, ls)
      && var s := Exec(s0, ls);
      && s.pc == Top && s.core == Core([b], [], [e], false, false, true, false, false, true)
      && s.ledger.completed == [e]
  {
    var s0 := Initial([a, b], []);
    var l0 := [Call(SetAutostart(true)), Loop(ShouldRun(Idle)), Loop(PopFront), Loop(Outcome(e))];
    RunFour(s0, l0[0], l0[1], l0[2], l0[3]);
    var s1 := Exec(s0, l0);
    assert s1.pc == Ended(e) && s1.core.queue == [b] && s1.core.pending == [] && s1.core.autostart;
    var l1 := [Loop(RecordFlush(0)), Loop(RecordWrite(false)), Loop(RecordClear), Loop(SkipRequeue)];
    RunFour(s1, l1[0], l1[1], l1[2], l1[3]);
    RunConcat(s0, l0, l1);
    ls := l0 + l1;
  }

  /** With autostart on, order is lost too: the outcome `e` of `a` is held while the later
      outcome `f` of `b` is written, and the error flag is down meanwhile. */
  lemma AutostartWritesOutOfOrder(a: QueueItem, b: QueueItem, e: HistoryEntry, f: HistoryEntry)
    returns (ls: seq<Label>)
    requires e.item == a && f.item == b && e.Succeeded() && f.Succeeded()
    ensures var s0 := Initial([a, b], []);
      && Run(s0, ls)
      && Exec(s0, ls).ledger.completed == [e, f]
      && Exec(s0, ls).core.history == [f] && Exec(s0, ls).core.pending == [e]
      && !Exec(s0, ls).core.dbError
  {
    var s0 := Initial([a, b], []);
    var l1 := AutostartHoldsFirst(a, b, e);
    var s2 := Exec(s0, l1);
    var l2 := [Loop(ShouldRun(Idle)), Loop(PopFront), Loop(Outcome(f)), Loop(RecordFlush(0))];
    RunFour(s2, l2[0], l2[1], l2[2], l2[3]);
    var s3 := Exec(s2, l2);
    assert s3.pc == Flushed(f) && s3.core.pending == [e] && s3.core.history == [];
    var l3 := [Loop(RecordWrite(true))];
    RunConcat(s0, l1, l2);
    RunConcat(s0, l1 + l2, l3);
    ls := l1 + l2 + l3;
  }
}
