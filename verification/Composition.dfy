/** Sequencer and engine host together: the sequencer is the only one that submits plans. */
module Composition {
  import opened Wrappers
  import opened Models
  import M = SequencerModel
  import H = HostModel
  import HostRuns
  import HostFutures

  /** Where `_run_one` stands with the item in hand. */
  datatype Call =
    | NotCalled          // run_plan not yet called
    | Checked            // run_plan has found an idle engine and is about to submit
    | Waiting(id: nat)   // submitted, waiting for the future
    | Unresolved         // the registry could not resolve the plan
    | RefusedByState     // run_plan found no engine or one that is not idle, or submit a closed host

  datatype State = State(sequencer: M.State, host: H.State, call: Call)

  datatype Label =
    | Seq(step: M.Label)
    | Host(hostStep: H.Label)
    | ResolveFails
    | CheckIdle
    | SubmitPlan(id: nat)

  function Initial(queue: seq<QueueItem>, history: seq<HistoryEntry>): State {
    State(M.Initial(queue, history), H.Initial(), NotCalled)
  }

  /** The sequencer sees the host's real state, and gets an outcome only when the call is over. */
  ghost predicate SeqEnabled(s: State, l: M.Label) {
    && M.Enabled(s.sequencer, l)
    && match l
       case Loop(ShouldRun(host)) => host == s.host.state
       case Call(StartCommit(host)) => host == s.host.state
       case Loop(Outcome(_)) =>
         && s.call != NotCalled && s.call != Checked
         && (s.call.Waiting? ==>
               s.call.id in s.host.futures
               && (s.host.futures[s.call.id] == H.Resolved || s.host.futures[s.call.id] == H.Cancelled))
       case _ => true
  }

  /** Other commands, interrupts, cancellations and shutdown, but no plan. */
  ghost predicate HostEnabled(s: State, l: H.Label) {
    && H.Enabled(s.host, l)
    && match l
       case Engine(_) => true
       case Caller(call) => call.Submit? ==> !call.work.Plan?
  }

  ghost predicate Enabled(s: State, l: Label) {
    match l
    case Seq(step) => SeqEnabled(s, step)
    case Host(step) => HostEnabled(s, step)
    case ResolveFails => s.sequencer.pc.InHand? && s.call == NotCalled
    case CheckIdle => s.sequencer.pc.InHand? && s.call == NotCalled
    case SubmitPlan(id) => s.sequencer.pc.InHand? && s.call == Checked && id !in s.host.futures
  }

  ghost function Apply(s: State, l: Label): State
    requires Enabled(s, l)
  {
    match l
    case Seq(step) =>
      s.(sequencer := M.Apply(s.sequencer, step),
         call := if step.Loop? && step.step.Outcome? then NotCalled else s.call)
    case Host(step) => s.(host := H.Apply(s.host, step))
    case ResolveFails => s.(call := Unresolved)
    case CheckIdle =>
      s.(call := if s.host.loaded && s.host.state == Idle then Checked else RefusedByState)
    case SubmitPlan(id) =>
      var submit := H.Submit(id, H.Plan(s.sequencer.pc.item.uid));
      if H.CallerEnabled(s.host, submit)
      then s.(host := H.CallerApply(s.host, submit), call := Waiting(id))
      else s.(call := RefusedByState)
  }

  ghost predicate IsRun(s: State, ls: seq<Label>)
    decreases |ls|
  {
    ls == [] || (Enabled(s, ls[0]) && IsRun(Apply(s, ls[0]), ls[1..]))
  }

  ghost function Exec(s: State, ls: seq<Label>): State
    requires IsRun(s, ls)
    decreases |ls|
  {
    if ls == [] then s else Exec(Apply(s, ls[0]), ls[1..])
  }

  // ---- the invariant ------------------------------------------------------------------------

  /** Every plan not yet finished, queued or on the engine, is the one the sequencer waits for. */
  ghost predicate OwnsPlans(s: State) {
    && (forall i :: 0 <= i < |s.host.commands| && IsLivePlan(s.host, s.host.commands[i]) ==>
          s.call == Waiting(s.host.commands[i].id)
          && s.sequencer.pc.InHand? && s.host.commands[i].work.uid == s.sequencer.pc.item.uid)
    && (H.InPlan(s.host.thread) ==>
          s.call == Waiting(s.host.thread.id)
          && s.sequencer.pc.InHand? && s.host.thread.uid == s.sequencer.pc.item.uid)
  }

  /** A queued plan that was not cancelled. */
  ghost predicate IsLivePlan(h: H.State, c: H.Command) {
    c.Run? && c.work.Plan? && c.id in h.futures && h.futures[c.id] == H.Future.Queued
  }

  /** Where a plan is queued or running, or the host has left NO_ENGINE other than by CLOSED, there is
      an engine. */
  ghost predicate HasEngine(h: H.State) {
    && HostRuns.PlansLoaded(h.commands, h.loaded)
    && (H.InPlan(h.thread) || h.state == Idle || h.state == Running || h.state == Paused ==> h.loaded)
  }

  /** What holds after a shutdown too. */
  ghost predicate Owned(s: State) {
    && HostFutures.Fits(s.host)
    && HasEngine(s.host)
    && OwnsPlans(s)
    && (s.call != NotCalled ==> s.sequencer.pc.InHand?)
    && (s.sequencer.pc.ToPop? || s.sequencer.pc.InHand? ==> s.host.loaded)
  }

  /** And until CLOSED is set the host is on its track and no plan was refused. */
  ghost predicate Together(s: State) {
    && Owned(s)
    && (!s.host.closed ==> HostRuns.OnTrack(s.host) && s.call != RefusedByState)
  }

  /** Before run_plan, and until it submits, the host is idle: no plan is queued or running. */
  lemma IdleBeforeRunPlan(s: State)
    requires Together(s) && !s.host.closed
    requires s.sequencer.pc.InHand? && (s.call == NotCalled || s.call == Checked)
    ensures s.host.loaded && s.host.state == Idle && !H.InPlan(s.host.thread)
  {
    assert !H.InPlan(s.host.thread);
  }

  lemma OnlyCloseCloses(h: H.State, l: H.Label)
    requires H.Enabled(h, l)
    ensures H.Apply(h, l).closed <==> h.closed || l == H.Caller(H.Close)
  {
    if l.Engine? && l.step.TakeCommand? {
      assert H.TakeNext(h).closed == h.closed;
    }
  }

  lemma FitsStay(h: H.State, l: H.Label)
    requires H.Enabled(h, l) && HostFutures.Fits(h)
    ensures HostFutures.Fits(H.Apply(h, l))
  {
    match l
    case Engine(step) => HostFutures.ThreadFits(h, step);
    case Caller(call) => HostFutures.CallerFits(h, call);
  }

  lemma TrackStays(h: H.State, l: H.Label)
    requires H.Enabled(h, l) && HostRuns.OnTrack(h) && l != H.Caller(H.Close)
    ensures HostRuns.OnTrack(H.Apply(h, l))
  {
    match l
    case Engine(step) => HostRuns.ThreadStaysOnTrack(h, step);
    case Caller(call) => HostRuns.CallerStaysOnTrack(h, call);
  }

  lemma ThreadHasEngine(h: H.State, l: H.ThreadStep)
    requires H.ThreadEnabled(h, l) && HasEngine(h)
    ensures HasEngine(H.ThreadApply(h, l))
  {
    if l.TakeCommand? {
      HostRuns.TailLoaded(h.commands, h.loaded);
      assert h.commands[0].Run? && h.commands[0].work.Plan? ==> h.loaded;
    }
  }

  lemma EngineStays(h: H.State, l: H.Label)
    requires H.Enabled(h, l) && HasEngine(h)
    ensures HasEngine(H.Apply(h, l))
  {
    if l.Engine? {
      ThreadHasEngine(h, l.step);
    }
  }

  lemma TakeOwns(s: State)
    requires Owned(s) && H.ThreadEnabled(s.host, H.TakeCommand)
    ensures OwnsPlans(s.(host := H.TakeNext(s.host)))
  {
    var h, t := s.host, H.TakeNext(s.host);
    forall i | 0 <= i < |t.commands| && IsLivePlan(t, t.commands[i])
      ensures s.call == Waiting(t.commands[i].id)
        && s.sequencer.pc.InHand? && t.commands[i].work.uid == s.sequencer.pc.item.uid
    {
      assert t.commands[i] == h.commands[i + 1];
      assert IsLivePlan(h, h.commands[i + 1]);
    }
    if H.InPlan(t.thread) {
      assert IsLivePlan(h, h.commands[0]);
    }
  }

  lemma ThreadOwns(s: State, l: H.ThreadStep)
    requires Owned(s) && H.ThreadEnabled(s.host, l)
    ensures OwnsPlans(s.(host := H.ThreadApply(s.host, l)))
  {
    var h, t := s.host, H.ThreadApply(s.host, l);
    if l.TakeCommand? {
      TakeOwns(s);
    } else if l.ResolveFuture? {
      assert t.commands == h.commands;
      forall i | 0 <= i < |t.commands| && IsLivePlan(t, t.commands[i])
        ensures IsLivePlan(h, h.commands[i])
      {
      }
    } else {
      HostFutures.SameBook(h, l);
      PlanGoesOn(h, l);
      assert forall i :: 0 <= i < |t.commands| && IsLivePlan(t, t.commands[i]) ==> IsLivePlan(h, h.commands[i]);
    }
  }

  /** A plan step keeps the plan, and no other step starts one. */
  lemma PlanGoesOn(h: H.State, l: H.ThreadStep)
    requires H.ThreadEnabled(h, l) && !l.TakeCommand? && !l.ResolveFuture?
    ensures var t := H.ThreadApply(h, l).thread;
      H.InPlan(t) ==> H.InPlan(h.thread) && t.id == h.thread.id && t.uid == h.thread.uid
  {
  }

  lemma CallerOwns(s: State, l: H.CallerStep)
    requires Owned(s) && HostEnabled(s, H.Caller(l))
    ensures OwnsPlans(s.(host := H.CallerApply(s.host, l)))
  {
    var h, t := s.host, H.CallerApply(s.host, l);
    forall i | 0 <= i < |t.commands| && IsLivePlan(t, t.commands[i])
      ensures i < |h.commands| && t.commands[i] == h.commands[i] && IsLivePlan(h, h.commands[i])
    {
    }
  }

  lemma HostStepOwns(s: State, l: H.Label)
    requires Owned(s) && HostEnabled(s, l)
    ensures Owned(Apply(s, Host(l)))
  {
    FitsStay(s.host, l);
    EngineStays(s.host, l);
    if s.host.loaded {
      HostRuns.LoadedStays(s.host, l);
    }
    match l
    case Engine(step) => ThreadOwns(s, step);
    case Caller(call) => CallerOwns(s, call);
  }

  lemma HostStepKeeps(s: State, l: H.Label)
    requires Together(s) && HostEnabled(s, l)
    ensures Together(Apply(s, Host(l)))
  {
    HostStepOwns(s, l);
    OnlyCloseCloses(s.host, l);
    if !s.host.closed && l != H.Caller(H.Close) {
      TrackStays(s.host, l);
    }
  }

  /** run_plan, still before its submission, finds nobody to hinder it while the host is not closed. */
  lemma CheckIdleKeeps(s: State)
    requires Together(s) && Enabled(s, CheckIdle)
    ensures Together(Apply(s, CheckIdle))
  {
    if !s.host.closed {
      IdleBeforeRunPlan(s);
    }
  }

  lemma SubmitPlanKeeps(s: State, id: nat)
    requires Together(s) && Enabled(s, SubmitPlan(id))
    ensures Together(Apply(s, SubmitPlan(id)))
  {
    var submit := H.Submit(id, H.Plan(s.sequencer.pc.item.uid));
    if !s.host.closed {
      IdleBeforeRunPlan(s);
    }
    if H.CallerEnabled(s.host, submit) {
      PlanSubmitted(s, id);
      OnlyCloseCloses(s.host, H.Caller(submit));
      if !s.host.closed {
        TrackStays(s.host, H.Caller(submit));
      }
    }
  }

  lemma PlanSubmitted(s: State, id: nat)
    requires Owned(s) && Enabled(s, SubmitPlan(id))
    requires H.CallerEnabled(s.host, H.Submit(id, H.Plan(s.sequencer.pc.item.uid)))
    ensures Owned(Apply(s, SubmitPlan(id)))
  {
    var uid := s.sequencer.pc.item.uid;
    var submit := H.Caller(H.Submit(id, H.Plan(uid)));
    FitsStay(s.host, submit);
    EngineStays(s.host, submit);
    var h, t := s.host, Apply(s, SubmitPlan(id)).host;
    forall i | 0 <= i < |t.commands| && IsLivePlan(t, t.commands[i])
      ensures t.commands[i].id == id && t.commands[i].work.uid == uid
    {
      SubmitAddsOne(h, id, uid, i);
    }
    assert !H.InPlan(t.thread);
  }

  lemma SubmitAddsOne(h: H.State, id: nat, uid: string, i: nat)
    requires HostFutures.Fits(h)
    requires H.CallerEnabled(h, H.Submit(id, H.Plan(uid)))
    ensures var t := H.CallerApply(h, H.Submit(id, H.Plan(uid)));
      i < |t.commands| && IsLivePlan(t, t.commands[i]) ==>
        (i < |h.commands| && IsLivePlan(h, h.commands[i]))
        || t.commands[i] == H.Run(id, H.Plan(uid))
  {
  }

  /** When the outcome is there, the plan is no longer queued or running. */
  lemma OutcomeReleases(s: State, e: HistoryEntry)
    requires Owned(s) && SeqEnabled(s, M.Loop(M.Outcome(e)))
    ensures !H.InPlan(s.host.thread)
    ensures forall i :: 0 <= i < |s.host.commands| ==> !IsLivePlan(s.host, s.host.commands[i])
  {
  }

  lemma SeqStepKeeps(s: State, l: M.Label)
    requires Together(s) && SeqEnabled(s, l)
    ensures Together(Apply(s, Seq(l)))
  {
    if l.Loop? && l.step.Outcome? {
      OutcomeReleases(s, l.step.entry);
    } else if s.sequencer.pc.InHand? {
      PcStays(s.sequencer, l);
    } else {
      NoPlanWithoutItem(s);
      PopsAfterIdle(s, l);
    }
  }

  lemma PcStays(m: M.State, l: M.Label)
    requires M.Enabled(m, l) && m.pc.InHand? && !(l.Loop? && l.step.Outcome?)
    ensures M.Apply(m, l).pc == m.pc
  {
  }

  lemma NoPlanWithoutItem(s: State)
    requires Owned(s) && !s.sequencer.pc.InHand?
    ensures s.call == NotCalled && !H.InPlan(s.host.thread)
    ensures forall i :: 0 <= i < |s.host.commands| ==> !IsLivePlan(s.host, s.host.commands[i])
  {
  }

  /** The loop comes to pop only after it has seen the host idle. */
  lemma PopsAfterIdle(s: State, l: M.Label)
    requires Owned(s) && SeqEnabled(s, l) && !s.sequencer.pc.InHand?
    ensures var pc := M.Apply(s.sequencer, l).pc;
      pc.ToPop? || pc.InHand? ==> s.host.loaded
  {
    var pc := M.Apply(s.sequencer, l).pc;
    if pc.ToPop? && !s.sequencer.pc.ToPop? {
      assert l.Loop? && l.step.ShouldRun? && s.host.state == Idle;
    }
  }

  lemma {:induction false} RunKeeps(s: State, ls: seq<Label>)
    requires IsRun(s, ls) && Together(s)
    ensures Together(Exec(s, ls))
    decreases |ls|
  {
    if ls != [] {
      match ls[0] {
        case Seq(step) => SeqStepKeeps(s, step);
        case Host(step) => HostStepKeeps(s, step);
        case ResolveFails =>
        case CheckIdle => CheckIdleKeeps(s);
        case SubmitPlan(id) => SubmitPlanKeeps(s, id);
      }
      RunKeeps(Apply(s, ls[0]), ls[1..]);
    }
  }

  /** Over every run of the two together, shutdown included: a popped item's run_plan is refused for the
      state of the engine only after CLOSED was set, and the plan on the engine is always the item in
      hand. */
  lemma RefusedOnlyAfterClosed(queue: seq<QueueItem>, history: seq<HistoryEntry>, ls: seq<Label>)
    requires IsRun(Initial(queue, history), ls)
    ensures var s := Exec(Initial(queue, history), ls);
      && (s.call == RefusedByState ==> s.host.closed)
      && (!s.host.closed && s.sequencer.pc.InHand? && (s.call == NotCalled || s.call == Checked) ==>
            s.host.loaded && s.host.state == Idle)
      && (H.InPlan(s.host.thread) ==> s.sequencer.pc.InHand? && s.host.thread.uid == s.sequencer.pc.item.uid)
  {
    RunKeeps(Initial(queue, history), ls);
    var s := Exec(Initial(queue, history), ls);
    if !s.host.closed && s.sequencer.pc.InHand? && (s.call == NotCalled || s.call == Checked) {
      IdleBeforeRunPlan(s);
    }
  }

  /** From every such state before run_plan's test a shutdown makes it refuse. */
  lemma RefusedAfterClosed(s: State) returns (ls: seq<Label>)
    requires Together(s) && s.sequencer.pc.InHand? && s.call == NotCalled
    ensures IsRun(s, ls) && Exec(s, ls).call == RefusedByState
  {
    ls := [Host(H.Caller(H.PutSentinel)), Host(H.Caller(H.Close)), CheckIdle];
    var t := Apply(s, ls[0]);
    var u := Apply(t, ls[1]);
    assert ls[1..][1..] == [CheckIdle] && [CheckIdle][1..] == [];
    assert IsRun(u, [CheckIdle]) && Exec(u, [CheckIdle]) == Apply(u, CheckIdle);
    assert IsRun(t, ls[1..]) && Exec(t, ls[1..]) == Apply(u, CheckIdle);
  }

  /** Nobody sets CLOSED during the run; a shutdown may be under way. */
  ghost predicate NeverClosed(ls: seq<Label>) {
    forall i :: 0 <= i < |ls| ==> ls[i] != Host(H.Caller(H.Close))
  }

  lemma {:induction false} StaysOpen(s: State, ls: seq<Label>)
    requires IsRun(s, ls) && NeverClosed(ls) && !s.host.closed
    ensures !Exec(s, ls).host.closed
    decreases |ls|
  {
    if ls != [] {
      assert ls[0] != Host(H.Caller(H.Close));
      if ls[0].Host? {
        OnlyCloseCloses(s.host, ls[0].hostStep);
      }
      assert forall i :: 0 <= i < |ls| - 1 ==> ls[1..][i] == ls[i + 1];
      StaysOpen(Apply(s, ls[0]), ls[1..]);
    }
  }

  /** Over every run in which CLOSED is not set: a popped item's run_plan is never refused for the state
      of the engine, neither at its own test nor when it submits. From the pop to the submission an
      engine is loaded and the host is IDLE; and whatever plan is on the engine is the item in hand. */
  lemma RunPlanNeverRefused(queue: seq<QueueItem>, history: seq<HistoryEntry>, ls: seq<Label>)
    requires IsRun(Initial(queue, history), ls) && NeverClosed(ls)
    ensures var s := Exec(Initial(queue, history), ls);
      && s.call != RefusedByState
      && (s.sequencer.pc.InHand? && (s.call == NotCalled || s.call == Checked) ==>
            s.host.loaded && s.host.state == Idle)
      && (H.InPlan(s.host.thread) ==> s.sequencer.pc.InHand? && s.host.thread.uid == s.sequencer.pc.item.uid)
  {
    StaysOpen(Initial(queue, history), ls);
    RefusedOnlyAfterClosed(queue, history, ls);
  }

  // ---- each of the two is one of its own runs --------------------------------------------------

  /** What the sequencer does in a joint run is one of its own: its theorems hold of it. */
  lemma {:induction false} SequencerPart(s: State, ls: seq<Label>) returns (ms: seq<M.Label>)
    requires IsRun(s, ls)
    ensures M.Run(s.sequencer, ms) && M.Exec(s.sequencer, ms) == Exec(s, ls).sequencer
    decreases |ls|
  {
    ms := [];
    if ls != [] {
      ms := SequencerPart(Apply(s, ls[0]), ls[1..]);
      if ls[0].Seq? {
        assert ([ls[0].step] + ms)[1..] == ms;
        ms := [ls[0].step] + ms;
      }
    }
  }

  /** The same for the host. */
  lemma {:induction false} HostPart(s: State, ls: seq<Label>) returns (hs: seq<H.Label>)
    requires IsRun(s, ls)
    ensures H.IsRun(s.host, hs) && H.Exec(s.host, hs) == Exec(s, ls).host
    decreases |ls|
  {
    hs := [];
    if ls != [] {
      hs := HostPart(Apply(s, ls[0]), ls[1..]);
      var own := HostLabel(s, ls[0]);
      if own.Some? {
        H.RunFirst(s.host, own.value, hs);
        hs := [own.value] + hs;
      }
    }
  }

  /** The label of the host in a joint step, if there is one. */
  lemma HostLabel(s: State, l: Label) returns (own: Option<H.Label>)
    requires Enabled(s, l)
    ensures own.None? ==> Apply(s, l).host == s.host
    ensures own.Some? ==> H.Enabled(s.host, own.value) && Apply(s, l).host == H.Apply(s.host, own.value)
  {
    own := None;
    if l.Host? {
      own := Some(l.hostStep);
    } else if l.SubmitPlan? {
      var submit := H.Submit(l.id, H.Plan(s.sequencer.pc.item.uid));
      if H.CallerEnabled(s.host, submit) {
        own := Some(H.Caller(submit));
      }
    }
  }
}
