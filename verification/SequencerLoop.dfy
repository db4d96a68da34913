/** The loop as written is one of the state machine's runs: what holds over every run holds of it. */
module SequencerLoop {
  import opened Models
  import opened QueueList
  import opened SequencerModel
  import Q = QueueSpec
  import S = Sequencer

  /** The service puts an accepted copy at the back. */
  lemma RequeuedAtBack(accepts: QueueItem -> bool, q: seq<QueueItem>, item: QueueItem, t: S.Tick)
    returns (copy: QueueItem)
    ensures var r := S.Requeued(accepts, q, item, t); r.Some? ==> r.value == q + [copy]
    ensures copy.Payload() == item.Payload()
  {
    copy := Q.StoredAs(q, item.WithNewUid(t.newUid, t.now), t.spareUid, t.now);
    assert InsertAt(q, |q|, copy) == q + [copy];
  }

  /** Recording: the flush, the write, and the stop after a refused write. */
  lemma RecordIsRun(s: State, t: S.Tick) returns (ls: seq<Label>)
    requires s.pc.Ended?
    ensures Run(s, ls) && var r := Exec(s, ls);
      && r.core == S.RecordNext(s.core, s.pc.entry, t.accepted, t.written)
      && r.pc == Recorded(s.pc.entry) && r.starters == s.starters
  {
    RunTwo(s, Loop(RecordFlush(t.accepted)), Loop(RecordWrite(t.written)));
    ls := [Loop(RecordFlush(t.accepted)), Loop(RecordWrite(t.written))];
    if !t.written {
      var u := Exec(s, ls);
      RunSingle(u, Loop(RecordClear));
      RunConcat(s, ls, [Loop(RecordClear)]);
      ls := ls + [Loop(RecordClear)];
    }
  }

  /** What follows a recorded outcome. */
  lemma SettleIsRun(accepts: QueueItem -> bool, s: State, t: S.Tick) returns (ls: seq<Label>)
    requires s.pc.Recorded?
    ensures Run(s, ls) && var r, c, e := Exec(s, ls), s.core, s.pc.entry;
      && r.core == (
        if !e.Succeeded() then Halt(c)
        else if !c.loopMode then c
        else var q := S.Requeued(accepts, c.queue, e.item, t);
             if q.Some? then c.(queue := q.value) else c.(running := false))
      && r.pc == Top && r.starters == s.starters
  {
    var e := s.pc.entry;
    if !e.Succeeded() {
      ls := [Loop(StopOnFailure)];
      RunSingle(s, ls[0]);
    } else if !s.core.loopMode {
      ls := [Loop(SkipRequeue)];
      RunSingle(s, ls[0]);
    } else {
      var copy := RequeuedAtBack(accepts, s.core.queue, e.item, t);
      if S.Requeued(accepts, s.core.queue, e.item, t).Some? {
        ls := [Loop(Requeue(copy))];
        RunSingle(s, ls[0]);
      } else {
        RunTwo(s, Loop(RequeueRefused), Loop(RequeueClear));
        ls := [Loop(RequeueRefused), Loop(RequeueClear)];
      }
    }
  }

  /** Taking an item, running it and settling it. */
  lemma ItemIsRun(accepts: QueueItem -> bool, s: State, t: S.Tick) returns (ls: seq<Label>)
    requires s.pc.ToPop? && s.core.queue != []
    ensures Run(s, ls) && var r, c := Exec(s, ls), s.core;
      && r.core == S.SettleNext(accepts, c.(queue := c.queue[1..]), S.Entry(c.queue[0], t), t)
      && r.pc == Top && r.starters == s.starters
  {
    var e := S.Entry(s.core.queue[0], t);
    var l0 := [Loop(PopFront), Loop(Outcome(e))];
    RunTwo(s, l0[0], l0[1]);
    var s1 := Exec(s, l0);
    var l1 := RecordIsRun(s1, t);
    var l2 := SettleIsRun(accepts, Exec(s1, l1), t);
    RunConcat(s, l0, l1);
    RunConcat(s, l0 + l1, l2);
    ls := l0 + l1 + l2;
  }

  lemma TurnIsRun(accepts: QueueItem -> bool, s: State, t: S.Tick) returns (ls: seq<Label>)
    requires s.pc.Top?
    ensures Run(s, ls) && var r := Exec(s, ls);
      r.core == S.TurnNext(accepts, s.core, t) && r.pc == Top && r.starters == s.starters
  {
    var l0 := [Loop(ShouldRun(t.host))];
    RunSingle(s, l0[0]);
    var s1 := Exec(s, l0);
    ls := l0;
    if s1.pc.ToPop? {
      var l1: seq<Label>;
      if s1.core.queue == [] {
        l1 := [Loop(PopFront), Loop(GoIdle)];
        RunTwo(s1, l1[0], l1[1]);
      } else {
        l1 := ItemIsRun(accepts, s1, t);
      }
      RunConcat(s, l0, l1);
      ls := l0 + l1;
    }
  }

  /** Any number of passes of the loop is a run of the machine that ends in the same fields. */
  lemma {:induction false} LoopIsRun(accepts: QueueItem -> bool, s: State, ticks: seq<S.Tick>) returns (ls: seq<Label>)
    requires s.pc.Top?
    ensures Run(s, ls) && var r := Exec(s, ls);
      r.core == S.LoopNext(accepts, s.core, ticks) && r.pc == Top && r.starters == s.starters
    decreases |ticks|
  {
    ls := [];
    if ticks != [] && !s.core.closing {
      var l0 := TurnIsRun(accepts, s, ticks[0]);
      var l1 := LoopIsRun(accepts, Exec(s, l0), ticks[1..]);
      RunConcat(s, l0, l1);
      ls := l0 + l1;
    }
  }
}
