/** Where the guarantees about starting and stopping end: for each of them the exact condition under
    which some run breaks it. */
module SequencerLimits {
  import opened Models
  import opened SequencerModel
  import opened SequencerRuns

  // ---- what autostart does to a stopped queue -------------------------------------------

  /** One label more in front of a run. */
  lemma Before(s: State, l: Label, ls: seq<Label>)
    requires Enabled(s, l) && !Starts(s, l) && l != Call(SetAutostart(true)) && l != Call(StopCancel)
    requires Run(Apply(s, l), ls) && NeverStartedNorCancelled(Apply(s, l), ls)
    ensures Run(s, [l] + ls) && NeverStartedNorCancelled(s, [l] + ls)
    ensures PopCount(s, [l] + ls) == (if Pops(s, l) then 1 else 0) + PopCount(Apply(s, l), ls)
  {
    assert ([l] + ls)[1..] == ls;
  }

  lemma PopsNow(s: State) returns (ls: seq<Label>)
    requires s.pc.ToPop? && s.core.queue != []
    ensures Run(s, ls) && NeverStartedNorCancelled(s, ls) && PopCount(s, ls) == 1
  {
    Before(s, Loop(PopFront), []);
    ls := [Loop(PopFront)] + [];
  }

  lemma RunsThenPops(s: State) returns (ls: seq<Label>)
    requires s.pc.Top? && s.core.autostart && !s.core.closing && s.core.queue != []
    requires s.core.running ==> !s.core.stopPending
    ensures Run(s, ls) && NeverStartedNorCancelled(s, ls) && PopCount(s, ls) == 1
  {
    var l := Loop(ShouldRun(Idle));
    var rest := PopsNow(Apply(s, l));
    Before(s, l, rest);
    ls := [l] + rest;
  }

  /** From the top of the loop, a stop request is carried out first. */
  lemma StopsThenPops(s: State) returns (ls: seq<Label>)
    requires s.pc.Top? && s.core.autostart && !s.core.closing && s.core.queue != []
    ensures Run(s, ls) && NeverStartedNorCancelled(s, ls) && PopCount(s, ls) == 1
  {
    if s.core.running && s.core.stopPending {
      var l := Loop(ShouldRun(Idle));
      var rest := RunsThenPops(Apply(s, l));
      Before(s, l, rest);
      ls := [l] + rest;
    } else {
      ls := RunsThenPops(s);
    }
  }

  /** From the top of the loop, with an item inserted if there is none. */
  lemma TopPops(s: State, x: QueueItem) returns (ls: seq<Label>)
    requires s.pc.Top? && s.core.autostart && !s.core.closing
    ensures Run(s, ls) && NeverStartedNorCancelled(s, ls) && PopCount(s, ls) == 1
  {
    if s.core.queue == [] {
      var l := Edit(Insert(0, x));
      var rest := StopsThenPops(Apply(s, l));
      Before(s, l, rest);
      ls := [l] + rest;
    } else {
      ls := StopsThenPops(s);
    }
  }

  /** A step that brings the loop closer to its top. */
  ghost function Onward(s: State): LoopStep
    requires !s.pc.Top? && !s.pc.ToPop?
  {
    match s.pc
    case SawEmpty => GoIdle
    case InHand(x) => Outcome(HistoryEntry(x, Completed, "success", [], 0.0, 0.0, "", ""))
    case Ended(_) => RecordFlush(0)
    case Flushed(_) => RecordWrite(true)
    case WriteFailed(_) => RecordClear
    case Recorded(e) =>
      if !e.Succeeded() then StopOnFailure else if s.core.loopMode then RequeueRefused else SkipRequeue
    case RequeueFailed(_) => RequeueClear
  }

  ghost function ToTop(pc: Pc): nat {
    match pc
    case Top => 0
    case ToPop => 7
    case InHand(_) => 6
    case Ended(_) => 5
    case Flushed(_) => 4
    case WriteFailed(_) => 3
    case Recorded(_) => 2
    case RequeueFailed(_) => 1
    case SawEmpty => 1
  }

  lemma OnwardGoes(s: State)
    requires !s.pc.Top? && !s.pc.ToPop?
    ensures var l := Onward(s);
      && LoopEnabled(s.core, s.pc, l)
      && ToTop(Apply(s, Loop(l)).pc) < ToTop(s.pc)
      && Apply(s, Loop(l)).core.autostart == s.core.autostart
      && Apply(s, Loop(l)).core.closing == s.core.closing
  {
  }

  /** With autostart on the loop always comes to take an item, and another one if it was about to. */
  lemma {:induction false} AutostartPops(s: State, x: QueueItem) returns (ls: seq<Label>)
    requires s.core.autostart && !s.core.closing
    ensures Run(s, ls) && NeverStartedNorCancelled(s, ls) && PopCount(s, ls) > if s.pc.ToPop? then 1 else 0
    decreases ToTop(s.pc), |s.core.queue| == 0
  {
    if s.pc.Top? {
      ls := TopPops(s, x);
    } else {
      var l := if !s.pc.ToPop? then Loop(Onward(s))
               else if s.core.queue == [] then Edit(Insert(0, x)) else Loop(PopFront);
      if !s.pc.ToPop? {
        OnwardGoes(s);
      }
      var rest := AutostartPops(Apply(s, l), x);
      Before(s, l, rest);
      ls := [l] + rest;
    }
  }

  lemma {:induction false} ClosingPopsAtMost(s: State, ls: seq<Label>)
    requires Run(s, ls) && s.core.closing
    ensures PopCount(s, ls) <= if s.pc.ToPop? then 1 else 0
    decreases |ls|
  {
    if ls != [] {
      ClosingStays(s, ls[0]);
      ClosingPopsAtMost(Apply(s, ls[0]), ls[1..]);
    }
  }

  lemma ClosingStays(s: State, l: Label)
    requires Enabled(s, l) && s.core.closing
    ensures Apply(s, l).core.closing
    ensures Apply(s, l).pc.ToPop? ==> s.pc.ToPop?
    ensures Pops(s, l) ==> !Apply(s, l).pc.ToPop?
  {
    if l.Loop? {
      ClosingStaysInLoop(s, l.step);
    }
  }

  lemma ClosingStaysInLoop(s: State, l: LoopStep)
    requires LoopEnabled(s.core, s.pc, l) && s.core.closing
    ensures LoopCore(s.core, s.pc, l).closing && !LoopPc(s.core, s.pc, l).ToPop?
  {
  }

  lemma StartedNorCancelled(s: State, ls: seq<Label>)
    requires Run(s, ls) && NeverStartedNorCancelled(s, ls)
    ensures NeverStarted(s, ls)
    decreases |ls|
  {
    if ls != [] {
      StartedNorCancelled(Apply(s, ls[0]), ls[1..]);
    }
  }

  /** A run in which nobody starts the queue takes an item. */
  ghost predicate TakesUnstarted(s: State, ls: seq<Label>) {
    Run(s, ls) && NeverStarted(s, ls) && PopCount(s, ls) > 0
  }

  lemma BadLeavesPc(s: State, l: Label)
    requires Enabled(s, l) && Bad(l)
    ensures !Apply(s, l).pc.ToPop?
    ensures Apply(s, l).core.autostart == s.core.autostart && Apply(s, l).core.closing == s.core.closing
  {
  }

  /** When stop-and-wait fails: after anything bad some run takes an item, without a start and with
      autostart left as it is or turned off, exactly when autostart is on and the service is not
      closing. */
  lemma StopAndWaitFailsExactlyWhen(s: State, l: Label, x: QueueItem)
    requires Enabled(s, l) && Bad(l)
    ensures (exists ls :: TakesUnstarted(Apply(s, l), ls)) <==> s.core.autostart && !s.core.closing
  {
    var t := Apply(s, l);
    BadLeavesPc(s, l);
    if s.core.autostart && !s.core.closing {
      var ls := AutostartPops(t, x);
      StartedNorCancelled(t, ls);
      assert TakesUnstarted(t, ls);
    }
    forall ls | TakesUnstarted(t, ls)
      ensures s.core.autostart && !s.core.closing
    {
      if !s.core.autostart {
        StopAndWait(s, l, ls);
      }
      if s.core.closing {
        ClosingPopsAtMost(t, ls);
      }
    }
  }

  /** A run without start or cancel takes more than `bound` items. */
  ghost predicate TakesMore(s: State, ls: seq<Label>, bound: nat) {
    Run(s, ls) && NeverStartedNorCancelled(s, ls) && PopCount(s, ls) > bound
  }

  /** When the stop bound fails: after an accepted queue_stop some run exceeds it, without a start, a
      cancel or autostart being turned on, exactly when autostart was on and the service is not
      closing. */
  lemma StopBoundFailsExactlyWhen(s: State, x: QueueItem)
    requires s.core.running
    ensures var bound := if s.pc.ToPop? then 1 else 0;
      (exists ls :: TakesMore(Apply(s, Call(StopRequest)), ls, bound)) <==> s.core.autostart && !s.core.closing
  {
    var t, bound := Apply(s, Call(StopRequest)), if s.pc.ToPop? then 1 else 0;
    if s.core.autostart && !s.core.closing {
      var ls := AutostartPops(t, x);
      assert TakesMore(t, ls, bound);
    }
    forall ls | TakesMore(t, ls, bound)
      ensures s.core.autostart && !s.core.closing
    {
      if !s.core.autostart {
        StopBound(s, ls);
      }
      if s.core.closing {
        ClosingPopsAtMost(t, ls);
      }
    }
  }

  // ---- when a start is undone -------------------------------------------------------------

  /** The pass of the loop ends with the queue stopped, whatever else happens in it. */
  ghost predicate Doomed(s: State) {
    !s.core.running || s.pc.SawEmpty? || WillStop(s.pc)
  }

  /** The loop finds nothing to take. */
  ghost predicate PopsNothing(s: State, l: Label) {
    l == Loop(PopFront) && s.pc.ToPop? && s.core.queue == []
  }

  /** The rest of one pass of the loop, in which nobody starts the queue. */
  ghost predicate RestOfPass(s: State, ls: seq<Label>)
    requires Run(s, ls)
    decreases |ls|
  {
    ls == [] ||
    (!(ls[0].Loop? && ls[0].step.ShouldRun?) && !Starts(s, ls[0]) && RestOfPass(Apply(s, ls[0]), ls[1..]))
  }

  /** Something bad happens during the run, or the loop finds the queue empty. */
  ghost predicate MeetsTrouble(s: State, ls: seq<Label>)
    requires Run(s, ls)
    decreases |ls|
  {
    ls != [] && (Bad(ls[0]) || PopsNothing(s, ls[0]) || MeetsTrouble(Apply(s, ls[0]), ls[1..]))
  }

  lemma DoomedInLoop(s: State, l: LoopStep)
    requires LoopEnabled(s.core, s.pc, l) && !l.ShouldRun?
    ensures Doomed(Apply(s, Loop(l))) <==> Doomed(s) || Bad(Loop(l)) || PopsNothing(s, Loop(l))
  {
  }

  lemma DoomedExactlyWhen(s: State, l: Label)
    requires Enabled(s, l) && !(l.Loop? && l.step.ShouldRun?) && !Starts(s, l)
    ensures Doomed(Apply(s, l)) <==> Doomed(s) || Bad(l) || PopsNothing(s, l)
  {
    if l.Loop? {
      DoomedInLoop(s, l.step);
    } else {
      OthersLeaveRunning(s, l);
    }
  }

  lemma OthersLeaveRunning(s: State, l: Label)
    requires Enabled(s, l) && !l.Loop? && !Starts(s, l)
    ensures Apply(s, l).pc == s.pc && Apply(s, l).core.running == s.core.running
  {
    match l
    case Call(call) => CallLeavesRunning(s, call);
    case Edit(edit) => EditLeavesRunning(s.core, edit);
  }

  lemma CallLeavesRunning(s: State, l: ControlStep)
    requires Enabled(s, Call(l)) && !Starts(s, Call(l))
    ensures ControlCore(s.core, l).running == s.core.running
  {
  }

  lemma EditLeavesRunning(c: Core, l: EditStep)
    requires EditEnabled(c, l)
    ensures EditCore(c, l).running == c.running
  {
  }

  lemma {:induction false} DoomedAfter(s: State, ls: seq<Label>)
    requires Run(s, ls) && RestOfPass(s, ls)
    ensures Doomed(Exec(s, ls)) <==> Doomed(s) || MeetsTrouble(s, ls)
    decreases |ls|
  {
    if ls != [] {
      DoomedExactlyWhen(s, ls[0]);
      DoomedAfter(Apply(s, ls[0]), ls[1..]);
    }
  }

  /** A successful start is undone by the time the loop is next at its top exactly when the loop had
      found the queue empty before, was already on its way to stop, or meets trouble on the way:
      a failed outcome, a refused write, a refused copy, or a queue emptied meanwhile. Where nothing
      goes wrong any more, it is the position of the loop at the start alone that undoes it. */
  lemma StartUndoneExactlyWhen(s: State, l: Label, ls: seq<Label>)
    requires Enabled(s, l) && Starts(s, l)
    requires Run(Apply(s, l), ls) && RestOfPass(Apply(s, l), ls) && Exec(Apply(s, l), ls).pc.Top?
    ensures !Exec(Apply(s, l), ls).core.running <==>
      s.pc.SawEmpty? || WillStop(s.pc) || MeetsTrouble(Apply(s, l), ls)
  {
    DoomedAfter(Apply(s, l), ls);
  }

  /** The next step of the loop undoes a start exactly from four positions: after an empty pop, after
      a refused write or a refused copy, and after the outcome of a failed item was recorded. */
  lemma StartUndoneAtOnceExactlyWhen(s: State, l: Label, k: LoopStep)
    requires Enabled(s, l) && Starts(s, l) && LoopEnabled(Apply(s, l).core, s.pc, k)
    ensures !Apply(Apply(s, l), Loop(k)).core.running <==>
      || s.pc.SawEmpty? || s.pc.WriteFailed? || s.pc.RequeueFailed?
      || (s.pc.Recorded? && !s.pc.entry.Succeeded())
  {
  }

  /** A start after an empty pop is lost although items are queued. */
  lemma StartCanBeLost(s: State)
    requires s.pc.SawEmpty? && s.starters > 0 && s.core.queue != []
    ensures Starts(s, Call(StartCommit(Idle)))
    ensures var ls := [Call(StartCommit(Idle)), Loop(GoIdle)];
      Run(s, ls) && Exec(s, ls).pc == Top && !Exec(s, ls).core.running && Exec(s, ls).core.queue != []
  {
    RunTwo(s, Call(StartCommit(Idle)), Loop(GoIdle));
  }
}
