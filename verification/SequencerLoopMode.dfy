/** Loop mode: a successful item goes back to the end of the queue under a new identity. */
module SequencerLoopMode {
  import opened Models
  import opened QueueList
  import opened SequencerModel

  /** One turn of the loop over a queue: the head goes to the back, or is gone. */
  function Turn(q: seq<QueueItem>, ok: bool): seq<QueueItem> {
    if q == [] then [] else if ok then q[1..] + [q[0]] else q[1..]
  }

  function Turns(q: seq<QueueItem>, outcomes: seq<bool>): seq<QueueItem>
    decreases |outcomes|
  {
    if outcomes == [] then q else Turns(Turn(q, outcomes[0]), outcomes[1..])
  }

  /** The items at the head in the turns that failed. */
  function Dropped(q: seq<QueueItem>, outcomes: seq<bool>): seq<QueueItem>
    decreases |outcomes|
  {
    if outcomes == [] || q == [] then []
    else (if outcomes[0] then [] else [q[0]]) + Dropped(Turn(q, outcomes[0]), outcomes[1..])
  }

  /** The item the loop has taken and not yet settled. */
  ghost function Unsettled(pc: Pc): seq<QueueItem> {
    match pc
    case InHand(x) => [x]
    case Ended(e) => [e.item]
    case Flushed(e) => [e.item]
    case WriteFailed(e) => [e.item]
    case Recorded(e) => [e.item]
    case _ => []
  }

  /** The rotation: the unsettled item, then the queue. */
  ghost function Rotation(s: State): seq<QueueItem> {
    Payloads(Unsettled(s.pc) + s.core.queue)
  }

  /** Loop mode stays on, users leave the queue alone, and every successful item is accepted
      back with the payload it had. Starts, stops, autostart and database failures may occur. */
  ghost predicate Looping(s: State, l: Label)
    requires Enabled(s, l)
  {
    && s.core.loopMode
    && !s.pc.RequeueFailed?
    && match l
       case Loop(step) =>
         && !step.RequeueRefused?
         && (step.Requeue? ==> step.copy.Payload() == s.pc.entry.item.Payload())
       case Call(call) => call != SetLoopMode(false)
       case Edit(edit) => edit.ClearHistory?
  }

  ghost predicate LoopingRun(s: State, ls: seq<Label>)
    requires Run(s, ls)
    decreases |ls|
  {
    ls == [] || (Looping(s, ls[0]) && LoopingRun(Apply(s, ls[0]), ls[1..]))
  }

  /** How the items settled during a run fared, in order. */
  ghost function Outcomes(ls: seq<Label>): seq<bool> {
    if ls == [] then []
    else (match ls[0]
          case Loop(Requeue(_)) => [true]
          case Loop(StopOnFailure) => [false]
          case _ => []) + Outcomes(ls[1..])
  }

  /** Settling an item is one turn of the rotation, and nothing else changes it. */
  lemma StepTurns(s: State, l: Label)
    requires Enabled(s, l) && Looping(s, l)
    ensures Rotation(Apply(s, l)) ==
      match l
      case Loop(Requeue(_)) => Turn(Rotation(s), true)
      case Loop(StopOnFailure) => Turn(Rotation(s), false)
      case _ => Rotation(s)
  {
    var t := Apply(s, l);
    var q := s.core.queue;
    if l.Loop? && l.step.Requeue? {
      PayloadsOfConcat([s.pc.entry.item], q);
      PayloadsOfConcat(q, [l.step.copy]);
      assert Unsettled(t.pc) + t.core.queue == q + [l.step.copy];
    } else if l.Loop? && l.step.StopOnFailure? {
      PayloadsOfConcat([s.pc.entry.item], q);
      assert Unsettled(t.pc) + t.core.queue == q;
    } else {
      assert Unsettled(t.pc) + t.core.queue == Unsettled(s.pc) + q by {
        if l == Loop(PopFront) && q != [] {
          assert q == [q[0]] + q[1..];
        } else {
          StepKeeps(s, l);
        }
      }
    }
  }

  lemma StepKeepsInLoop(s: State, l: LoopStep)
    requires LoopEnabled(s.core, s.pc, l) && !l.RequeueRefused? && !l.RequeueClear?
    requires !l.Requeue? && !l.StopOnFailure? && !l.SkipRequeue?
    requires l.PopFront? ==> s.core.queue == []
    ensures Apply(s, Loop(l)).core.queue == s.core.queue
    ensures Unsettled(Apply(s, Loop(l)).pc) == Unsettled(s.pc)
  {
  }

  lemma StepKeeps(s: State, l: Label)
    requires Enabled(s, l) && Looping(s, l)
    requires l.Loop? ==> !l.step.Requeue? && !l.step.StopOnFailure?
    requires l == Loop(PopFront) ==> s.core.queue == []
    ensures Apply(s, l).core.queue == s.core.queue && Unsettled(Apply(s, l).pc) == Unsettled(s.pc)
  {
    if l.Loop? {
      StepKeepsInLoop(s, l.step);
    }
  }

  lemma {:induction false} RunTurns(s: State, ls: seq<Label>)
    requires Run(s, ls) && LoopingRun(s, ls)
    ensures Rotation(Exec(s, ls)) == Turns(Rotation(s), Outcomes(ls))
    decreases |ls|
  {
    if ls != [] {
      var rest := Outcomes(ls[1..]);
      StepTurns(s, ls[0]);
      RunTurns(Apply(s, ls[0]), ls[1..]);
      assert ([true] + rest)[1..] == rest && ([false] + rest)[1..] == rest && [] + rest == rest;
    }
  }

  /** A rotation by `k`, turned once more. */
  lemma TurnedOnceMore(q: seq<QueueItem>, k: nat)
    requires k < |q|
    ensures Turn(q, true)[k..] + Turn(q, true)[..k]
         == if k + 1 == |q| then q else q[k + 1..] + q[..k + 1]
  {
    var t := Turn(q, true);
    assert t == q[1..] + [q[0]];
    assert t[k..] == q[k + 1..] + [q[0]];
    assert [q[0]] + t[..k] == q[..k + 1];
  }

  /** `k` successful turns rotate a queue by `k`. */
  lemma {:induction false} SuccessesRotate(q: seq<QueueItem>, outcomes: seq<bool>)
    requires q != [] && forall i :: 0 <= i < |outcomes| ==> outcomes[i]
    ensures var k := |outcomes| % |q|; Turns(q, outcomes) == q[k..] + q[..k]
    decreases |outcomes|
  {
    if outcomes == [] {
      ModuloUnique(0, |q|, 0, 0);
    } else {
      SuccessesRotate(Turn(q, true), outcomes[1..]);
      NextModulo(|outcomes| - 1, |q|);
      TurnedOnceMore(q, (|outcomes| - 1) % |q|);
    }
  }

  lemma {:induction false} TimesMonotone(n: nat, x: int, y: int)
    requires x <= y
    ensures n * x <= n * y
    decreases y - x
  {
    if x < y {
      TimesMonotone(n, x, y - 1);
      assert n * y == n * (y - 1) + n;
    }
  }

  lemma QuotientUnique(n: nat, d: int, r: nat, e: int, s: nat)
    requires r < n && s < n && n * d + r == n * e + s
    ensures d == e
  {
    assert n * (d + 1) == n * d + n && n * (e + 1) == n * e + n;
    if d < e {
      TimesMonotone(n, d + 1, e);
    } else if e < d {
      TimesMonotone(n, e + 1, d);
    }
  }

  lemma ModuloUnique(a: nat, n: nat, d: nat, r: nat)
    requires r < n && a == n * d + r
    ensures a % n == r
  {
    QuotientUnique(n, d, r, a / n, a % n);
  }

  lemma NextModulo(k: nat, n: nat)
    requires n > 0
    ensures (k + 1) % n == if k % n + 1 == n then 0 else k % n + 1
  {
    var d, r := k / n, k % n;
    if r + 1 == n {
      assert k + 1 == n * (d + 1) + 0;
      ModuloUnique(k + 1, n, d + 1, 0);
    } else {
      ModuloUnique(k + 1, n, d, r + 1);
    }
  }

  /** Only the items of failing turns leave the rotation. */
  lemma {:induction false} OnlyFailuresLeave(q: seq<QueueItem>, outcomes: seq<bool>)
    ensures multiset(Turns(q, outcomes)) + multiset(Dropped(q, outcomes)) == multiset(q)
    decreases |outcomes|
  {
    if outcomes == [] {
    } else if q == [] {
      OnlyFailuresLeave(q, outcomes[1..]);
      assert Dropped(q, outcomes[1..]) == [];
    } else {
      OnlyFailuresLeave(Turn(q, outcomes[0]), outcomes[1..]);
      assert q == [q[0]] + q[1..];
    }
  }

  /** Loop mode over every run: between items the payloads of the queue are those at the start,
      rotated by the number of items that ran when all of them succeeded, and short of exactly
      the failing ones otherwise. */
  lemma LoopModeRotates(s: State, ls: seq<Label>)
    requires Run(s, ls) && LoopingRun(s, ls)
    requires s.pc.Top? && Exec(s, ls).pc.Top?
    ensures var q, q', os := Payloads(s.core.queue), Payloads(Exec(s, ls).core.queue), Outcomes(ls);
      && q' == Turns(q, os)
      && multiset(q') + multiset(Dropped(q, os)) == multiset(q)
      && (q != [] && (forall i :: 0 <= i < |os| ==> os[i])
          ==> q' == q[|os| % |q|..] + q[..|os| % |q|])
  {
    RunTurns(s, ls);
    var q, os := Payloads(s.core.queue), Outcomes(ls);
    assert [] + s.core.queue == s.core.queue;
    assert [] + Exec(s, ls).core.queue == Exec(s, ls).core.queue;
    OnlyFailuresLeave(q, os);
    if q != [] && forall i :: 0 <= i < |os| ==> os[i] {
      SuccessesRotate(q, os);
    }
  }
}
