/** The one-slot directive handshake that ends each pause. */
module HostHandshake {
  import opened Wrappers
  import opened Models
  import opened HostModel

  /** A directive is consumed at most once and ends exactly one pause; every accepted one was
      consumed, overwritten, or is in the slot; and PAUSED is seen only at a pause. */
  ghost predicate Accounted(s: State) {
    var t := s.tally;
    && t.accepted == t.consumed + t.overwritten + (if s.slot.Some? then 1 else 0)
    && t.consumed == t.exits + (if s.thread.Taken? then 1 else 0)
    && t.pauses == t.exits + (if s.thread.AtPause? || s.thread.Taken? then 1 else 0)
    && (s.state == Paused ==> s.thread.AtPause? || s.thread.Taken?)
  }

  lemma ThreadAccounts(s: State, l: ThreadStep)
    requires Accounted(s) && ThreadEnabled(s, l)
    ensures Accounted(ThreadApply(s, l))
  {
    match l
    case TakeCommand =>
    case SetRunning =>
    case SeePaused =>
    case TakeDirective =>
    case RunOn =>
    case SetIdle =>
    case FinishWork(_) =>
    case _ => SlotUntouched(s, l);
  }

  lemma SlotUntouched(s: State, l: ThreadStep)
    requires ThreadEnabled(s, l)
    requires l.EmitStarted? || l.EngineEnds? || l.EngineInterrupted? || l.SeeEnded? || l.EmitFinished?
      || l.ResolveFuture?
    ensures var t := ThreadApply(s, l);
      && t.slot == s.slot && t.tally == s.tally && t.state == s.state
      && !t.thread.AtPause? && !t.thread.Taken? && !s.thread.AtPause? && !s.thread.Taken?
  {
  }

  lemma CallerAccounts(s: State, l: CallerStep)
    requires Accounted(s) && CallerEnabled(s, l)
    ensures Accounted(CallerApply(s, l))
  {
    match l
    case Submit(_, _) =>
    case Cancel(_) =>
    case PutSentinel =>
    case Close =>
    case CheckPaused =>
    case StoreDirective(_, _) =>
  }

  lemma {:induction false} RunAccounts(s: State, ls: seq<Label>)
    requires IsRun(s, ls) && Accounted(s)
    ensures Accounted(Exec(s, ls))
    decreases |ls|
  {
    if ls != [] {
      match ls[0] {
        case Engine(step) => ThreadAccounts(s, step);
        case Caller(call) => CallerAccounts(s, call);
      }
      RunAccounts(Apply(s, ls[0]), ls[1..]);
    }
  }

  /** At any interleaving: every exit from a pause has consumed exactly one directive and none is
      consumed twice, and accepted = consumed + overwritten + what is in the slot. */
  lemma DirectivesAccountedFor(ls: seq<Label>)
    requires IsRun(Initial(), ls)
    ensures var s := Exec(Initial(), ls); var t := s.tally;
      && t.accepted == t.consumed + t.overwritten + (if s.slot.Some? then 1 else 0)
      && t.consumed == t.exits + (if s.thread.Taken? then 1 else 0)
      && t.pauses == t.exits + (if s.thread.AtPause? || s.thread.Taken? then 1 else 0)
  {
    RunAccounts(Initial(), ls);
  }

  // ---- a directive belongs to its pause -----------------------------------------------------

  /** Testing for PAUSED and storing are one step, and so are consuming and leaving PAUSED. */
  ghost predicate NoOverlap(s: State, l: Label) {
    && (s.armed != multiset{} ==> l.Caller? && l.call.StoreDirective?)
    && (s.thread.Taken? ==> l == Engine(RunOn))
  }

  ghost predicate Undivided(s: State, ls: seq<Label>)
    requires IsRun(s, ls)
    decreases |ls|
  {
    ls == [] || (NoOverlap(s, ls[0]) && Undivided(Apply(s, ls[0]), ls[1..]))
  }

  /** What is in the slot was given in the pause the thread is waiting in, and so were the tests. */
  ghost predicate Timely(s: State) {
    && (s.slot.Some? ==> s.thread.AtPause? && s.slot.value.1 == s.tally.pauses)
    && (forall pause :: pause in s.armed ==> s.thread.AtPause? && pause == s.tally.pauses)
    && (s.state == Paused ==> s.thread.AtPause? || s.thread.Taken?)
  }

  lemma ThreadKeepsTimely(s: State, l: ThreadStep)
    requires Timely(s) && ThreadEnabled(s, l) && NoOverlap(s, Engine(l))
    ensures Timely(ThreadApply(s, l))
  {
    match l
    case TakeCommand =>
    case SetRunning =>
    case SeePaused =>
    case TakeDirective =>
    case RunOn =>
    case SetIdle =>
    case FinishWork(_) =>
    case _ => SlotUntouched(s, l);
  }

  lemma CallerKeepsTimely(s: State, l: CallerStep)
    requires Timely(s) && CallerEnabled(s, l) && NoOverlap(s, Caller(l))
    ensures Timely(CallerApply(s, l))
  {
  }

  lemma {:induction false} RunKeepsTimely(s: State, ls: seq<Label>)
    requires IsRun(s, ls) && Undivided(s, ls) && Timely(s)
    ensures Timely(Exec(s, ls))
    decreases |ls|
  {
    if ls != [] {
      match ls[0] {
        case Engine(step) => ThreadKeepsTimely(s, step);
        case Caller(call) => CallerKeepsTimely(s, call);
      }
      RunKeepsTimely(Apply(s, ls[0]), ls[1..]);
    }
  }

  /** With both pairs of steps undivided the slot is empty whenever the thread is not waiting in a
      pause, and what it takes was given in that very pause. */
  lemma DirectiveEndsItsOwnPause(ls: seq<Label>)
    requires IsRun(Initial(), ls) && Undivided(Initial(), ls)
    ensures var s := Exec(Initial(), ls);
      s.slot.Some? ==> s.thread.AtPause? && s.slot.value.1 == s.tally.pauses
  {
    RunKeepsTimely(Initial(), ls);
  }

  // ---- when it does not -----------------------------------------------------------------------

  /** The slot holds a directive whose caller found the host in another pause than the one the
      thread is waiting in, if it is waiting at all. */
  ghost predicate Stale(s: State) {
    s.slot.Some? && !(s.thread.AtPause? && s.slot.value.1 == s.tally.pauses)
  }

  /** A directive stored while the pause its caller found is still being waited in. */
  ghost predicate InTime(s: State, l: Label) {
    l.Caller? && l.call.StoreDirective? ==> s.thread.AtPause? && l.call.tested == s.tally.pauses
  }

  /** At any interleaving a directive becomes stale in two ways only: it is stored when the thread
      is no longer waiting, or when it is waiting in a later pause than the one that was tested. */
  lemma StaleExactlyWhen(s: State, l: Label)
    requires Enabled(s, l) && !Stale(s)
    ensures Stale(Apply(s, l)) <==>
      && l.Caller? && l.call.StoreDirective?
      && (!s.thread.AtPause? || l.call.tested != s.tally.pauses)
  {
    match l
    case Engine(step) => EngineLeavesNothingStale(s, step);
    case Caller(_) =>
  }

  lemma EngineLeavesNothingStale(s: State, l: ThreadStep)
    requires ThreadEnabled(s, l) && !Stale(s)
    ensures !Stale(ThreadApply(s, l))
  {
    match l
    case TakeCommand =>
    case SetRunning =>
    case SeePaused =>
    case TakeDirective =>
    case RunOn =>
    case SetIdle =>
    case FinishWork(_) =>
    case _ => SlotUntouched(s, l);
  }

  /** No state of the run holds a stale directive. */
  ghost predicate NeverStale(s: State, ls: seq<Label>)
    requires IsRun(s, ls)
    decreases |ls|
  {
    !Stale(s) && (ls != [] ==> NeverStale(Apply(s, ls[0]), ls[1..]))
  }

  ghost predicate AllInTime(s: State, ls: seq<Label>)
    requires IsRun(s, ls)
    decreases |ls|
  {
    ls == [] || (InTime(s, ls[0]) && AllInTime(Apply(s, ls[0]), ls[1..]))
  }

  /** Over every run the slot never holds a directive of another pause exactly when every directive is
      stored while the pause its caller found is still being waited in. */
  lemma {:induction false} NeverStaleExactlyWhen(s: State, ls: seq<Label>)
    requires IsRun(s, ls) && !Stale(s)
    ensures NeverStale(s, ls) <==> AllInTime(s, ls)
    decreases |ls|
  {
    if ls != [] {
      StaleExactlyWhen(s, ls[0]);
      if !Stale(Apply(s, ls[0])) {
        NeverStaleExactlyWhen(Apply(s, ls[0]), ls[1..]);
      }
    }
  }

  // ---- when a directive ends another pause ----------------------------------------------------

  /** Every directive that is taken was given in the pause it ends. */
  ghost predicate OwnOnly(s: State, ls: seq<Label>)
    requires IsRun(s, ls)
    decreases |ls|
  {
    ls == [] ||
    ((ls[0] == Engine(TakeDirective) ==> s.slot.Some? && s.slot.value.1 == s.tally.pauses)
     && OwnOnly(Apply(s, ls[0]), ls[1..]))
  }

  /** The last directive stored before each one is taken was stored in time; `ok` says whether the last
      one so far was. */
  ghost predicate LastInTime(s: State, ls: seq<Label>, ok: bool)
    requires IsRun(s, ls)
    decreases |ls|
  {
    ls == [] ||
    ((ls[0] == Engine(TakeDirective) ==> ok) && LastInTime(Apply(s, ls[0]), ls[1..], Timeliness(s, ls[0], ok)))
  }

  ghost predicate Timeliness(s: State, l: Label, ok: bool) {
    if l.Caller? && l.call.StoreDirective? then InTime(s, l) else ok
  }

  /** Nobody has found the host in a pause that is still to come, and what is in the slot is timely
      exactly if it was stored in time. */
  ghost predicate Tagged(s: State, ok: bool) {
    && (forall pause :: pause in s.armed ==> pause <= s.tally.pauses)
    && (s.slot.Some? ==> s.slot.value.1 <= s.tally.pauses && (ok <==> !Stale(s)))
  }

  lemma ThreadKeepsTagged(s: State, l: ThreadStep, ok: bool)
    requires ThreadEnabled(s, l) && Tagged(s, ok)
    ensures Tagged(ThreadApply(s, l), ok)
  {
    match l
    case TakeCommand =>
    case SetRunning =>
    case SeePaused =>
    case TakeDirective =>
    case RunOn =>
    case SetIdle =>
    case FinishWork(_) =>
    case _ => OthersKeepTagged(s, l, ok);
  }

  lemma OthersKeepTagged(s: State, l: ThreadStep, ok: bool)
    requires ThreadEnabled(s, l) && Tagged(s, ok)
    requires l.EmitStarted? || l.EngineEnds? || l.EngineInterrupted? || l.SeeEnded? || l.EmitFinished?
      || l.ResolveFuture?
    ensures Tagged(ThreadApply(s, l), ok)
  {
    SlotUntouched(s, l);
    assert ThreadApply(s, l).armed == s.armed;
  }

  lemma CallerKeepsTagged(s: State, l: CallerStep, ok: bool)
    requires CallerEnabled(s, l) && Tagged(s, ok)
    ensures Tagged(CallerApply(s, l), Timeliness(s, Caller(l), ok))
  {
  }

  lemma {:induction false} RunOwnOnlyExactlyWhen(s: State, ls: seq<Label>, ok: bool)
    requires IsRun(s, ls) && Tagged(s, ok)
    ensures OwnOnly(s, ls) <==> LastInTime(s, ls, ok)
    decreases |ls|
  {
    if ls != [] {
      match ls[0] {
        case Engine(step) => ThreadKeepsTagged(s, step, ok);
        case Caller(call) => CallerKeepsTagged(s, call, ok);
      }
      RunOwnOnlyExactlyWhen(Apply(s, ls[0]), ls[1..], Timeliness(s, ls[0], ok));
    }
  }

  /** Over every run every directive ends only the pause it was issued in exactly when the last one
      stored before each is taken was stored while the pause its caller found was still being waited
      in. A late one that is overwritten before it is taken does no harm. */
  lemma OwnPauseOnlyExactlyWhen(ls: seq<Label>)
    requires IsRun(Initial(), ls)
    ensures OwnOnly(Initial(), ls) <==> LastInTime(Initial(), ls, true)
  {
    RunOwnOnlyExactlyWhen(Initial(), ls, true);
  }

  /** Two callers find the host paused and the first one's directive is taken. */
  lemma SecondCallerLeft(s: State) returns (ls: seq<Label>)
    requires s.thread.AtPause? && s.state == Paused && s.slot == None && s.armed == multiset{}
    ensures IsRun(s, ls)
    ensures var t := Exec(s, ls);
      && t.thread == Taken(s.thread.id, s.thread.uid) && t.state == Paused
      && t.slot == None && t.armed == multiset{s.tally.pauses} && t.tally.pauses == s.tally.pauses
  {
    var k := s.tally.pauses;
    var checks := [Caller(CheckPaused), Caller(CheckPaused)];
    RunTwo(s, checks[0], checks[1]);
    var first := [Caller(StoreDirective(Resume, k)), Engine(TakeDirective)];
    RunTwo(Exec(s, checks), first[0], first[1]);
    RunConcat(s, checks, first);
    ls := checks + first;
  }

  /** The first way, from every pause in which the slot is empty: the second caller's directive is
      stored before RUNNING is set, and at the next pause the thread takes it although nobody gave
      it then. */
  lemma LateDirectiveEndsNextPause(s: State) returns (ls: seq<Label>)
    requires s.thread.AtPause? && s.state == Paused && s.slot == None && s.armed == multiset{}
    ensures IsRun(s, ls) && var t := Exec(s, ls);
      && t.thread == s.thread && t.state == Paused
      && t.tally.pauses == s.tally.pauses + 1 && t.slot == Some((Abort, s.tally.pauses))
      && ThreadEnabled(t, TakeDirective)
  {
    var l0 := SecondCallerLeft(s);
    var u := Exec(s, l0);
    var late := Caller(StoreDirective(Abort, s.tally.pauses));
    var l1, l2 := [late, Engine(RunOn)], [Engine(EngineInterrupted), Engine(SeePaused)];
    RunTwo(u, l1[0], l1[1]);
    RunTwo(Exec(u, l1), l2[0], l2[1]);
    RunConcat(u, l1, l2);
    RunConcat(s, l0, l1 + l2);
    ls := l0 + (l1 + l2);
  }

  /** The second way: the engine pauses again before the second caller stores its directive. */
  lemma EarlierTestEndsNextPause(s: State) returns (ls: seq<Label>)
    requires s.thread.AtPause? && s.state == Paused && s.slot == None && s.armed == multiset{}
    ensures IsRun(s, ls) && var t := Exec(s, ls);
      && t.thread == s.thread && t.state == Paused && t.slot == None
      && t.tally.pauses == s.tally.pauses + 1
      && var store := StoreDirective(Abort, s.tally.pauses);
      && CallerEnabled(t, store) && !Stale(t) && Stale(CallerApply(t, store))
      && ThreadEnabled(CallerApply(t, store), TakeDirective)
  {
    var l0 := SecondCallerLeft(s);
    var u := Exec(s, l0);
    var l1 := [Engine(RunOn), Engine(EngineInterrupted)];
    RunTwo(u, l1[0], l1[1]);
    var v := Exec(u, l1);
    var l2 := [Engine(SeePaused)];
    assert l2[1..] == [];
    assert IsRun(v, l2) && Exec(v, l2) == Apply(v, Engine(SeePaused));
    RunConcat(u, l1, l2);
    RunConcat(s, l0, l1 + l2);
    ls := l0 + (l1 + l2);
  }

  // ---- a late directive that does no harm ------------------------------------------------------

  /** One label more in front of a run. */
  lemma OneMore(s: State, l: Label, ls: seq<Label>)
    requires Enabled(s, l) && IsRun(Apply(s, l), ls) && OwnOnly(Apply(s, l), ls)
    requires l == Engine(TakeDirective) ==> s.slot.Some? && s.slot.value.1 == s.tally.pauses
    ensures IsRun(s, [l] + ls) && OwnOnly(s, [l] + ls)
    ensures AllInTime(s, [l] + ls) <==> InTime(s, l) && AllInTime(Apply(s, l), ls)
  {
    assert ([l] + ls)[1..] == ls;
  }

  /** Two labels more in front of a run, neither of them a take. */
  lemma TwoMore(s: State, l: Label, m: Label, ls: seq<Label>)
    requires Enabled(s, l) && Enabled(Apply(s, l), m)
    requires l != Engine(TakeDirective) && m != Engine(TakeDirective)
    requires IsRun(Apply(Apply(s, l), m), ls) && OwnOnly(Apply(Apply(s, l), m), ls)
    ensures IsRun(s, [l] + ([m] + ls)) && OwnOnly(s, [l] + ([m] + ls))
    ensures AllInTime(s, [l] + ([m] + ls)) <==>
      InTime(s, l) && InTime(Apply(s, l), m) && AllInTime(Apply(Apply(s, l), m), ls)
  {
    OneMore(Apply(s, l), m, ls);
    OneMore(s, l, [m] + ls);
  }

  /** A caller's directive, given in a pause and taken in it. */
  lemma FreshOneTaken(s: State) returns (ls: seq<Label>)
    requires s.thread.AtPause? && s.state == Paused
    ensures IsRun(s, ls) && OwnOnly(s, ls)
  {
    var check, store := Caller(CheckPaused), Caller(StoreDirective(Resume, s.tally.pauses));
    var t := Apply(Apply(s, check), store);
    OneMore(t, Engine(TakeDirective), []);
    ls := [Engine(TakeDirective)] + [];
    TwoMore(s, check, store, ls);
    ls := [check] + ([store] + ls);
  }

  /** A directive stored too late, and overwritten in the next pause. */
  lemma LateOneOverwritten(s: State, tested: nat) returns (ls: seq<Label>)
    requires s.thread.Taken? && tested in s.armed
    ensures IsRun(s, ls) && OwnOnly(s, ls) && !AllInTime(s, ls)
  {
    var late, on := Caller(StoreDirective(Abort, tested)), Engine(RunOn);
    var t := Apply(Apply(s, late), on);
    var u := Apply(Apply(t, Engine(EngineInterrupted)), Engine(SeePaused));
    ls := FreshOneTaken(u);
    TwoMore(t, Engine(EngineInterrupted), Engine(SeePaused), ls);
    ls := [Engine(EngineInterrupted)] + ([Engine(SeePaused)] + ls);
    TwoMore(s, late, on, ls);
    ls := [late] + ([on] + ls);
  }

  /** From every pause: a run in which a directive is stored late and still every one that is taken
      ends its own pause. */
  lemma LateDirectiveMayDoNoHarm(s: State) returns (ls: seq<Label>)
    requires s.thread.AtPause? && s.state == Paused
    ensures IsRun(s, ls) && OwnOnly(s, ls) && !AllInTime(s, ls)
  {
    var k := s.tally.pauses;
    var check, store := Caller(CheckPaused), Caller(StoreDirective(Resume, k));
    var t := Apply(Apply(s, check), check);
    var u := Apply(t, store);
    assert k in u.armed;
    ls := LateOneOverwritten(Apply(u, Engine(TakeDirective)), k);
    OneMore(u, Engine(TakeDirective), ls);
    ls := [Engine(TakeDirective)] + ls;
    OneMore(t, store, ls);
    ls := [store] + ls;
    TwoMore(s, check, check, ls);
    ls := [check] + ([check] + ls);
  }
}
