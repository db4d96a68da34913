/** `add_batch`: the items are added one after another, each at the same place argument. */
module AddBatch {
  import opened Sequences
  import opened Wrappers
  import opened Models
  import opened QueueList
  import opened QueueSpec

  /** The additions from a point on, given what was added before. `ids` supplies the new uids. */
  function AddAll(accepts: QueueItem -> bool, s: Queue, items: seq<QueueItem>, p: Place,
                  ids: seq<string>, now: real, added: seq<(QueueItem, nat)>): Change<seq<(QueueItem, nat)>>
    requires |ids| == |items|
    decreases |items|
  {
    if items == [] then Change(s, Ok(added))
    else
      var r := Add(accepts, s, items[0], p, ids[0], now);
      match r.result
      case Err(e) => Change(r.after, Err(e))
      case Ok(pair) => AddAll(accepts, r.after, items[1..], p, ids[1..], now, added + [pair])
  }

  predicate AllAccepted(accepts: QueueItem -> bool, items: seq<QueueItem>) {
    forall i :: 0 <= i < |items| ==> accepts(items[i])
  }

  function Batch(accepts: QueueItem -> bool, s: Queue, items: seq<QueueItem>, p: Place,
                 ids: seq<string>, now: real): Change<seq<(QueueItem, nat)>>
    requires |ids| == |items|
  {
    if AllAccepted(accepts, items) then AddAll(accepts, s, items, p, ids, now, [])
    else Change(s, Err(InvalidItem))
  }

  function Reversed(q: seq<QueueItem>): (r: seq<QueueItem>)
    ensures |r| == |q|
  {
    if q == [] then [] else Reversed(q[1..]) + [q[0]]
  }

  /** Where a whole batch ends up. After an anchor or at the front it is reversed, before an
      anchor or at the back it is in order. A position is clamped anew for every item: one beyond
      the end is reached by appending and then held, one before the front is held until the queue
      has grown to meet it. */
  function Spliced(q: seq<QueueItem>, batch: seq<QueueItem>, p: Place): seq<QueueItem> {
    if p.before.Some? then
      match IndexOf(q, p.before.value)
      case None => q
      case Some(a) => q[..a] + batch + q[a..]
    else if p.after.Some? then
      match IndexOf(q, p.after.value)
      case None => q
      case Some(a) => q[..a + 1] + Reversed(batch) + q[a + 1..]
    else match p.pos
      case Some(Word(w)) => if w == "front" then Reversed(batch) + q else q + batch
      case Some(At(k)) =>
        if k >= 0 then
          if k <= |q| then q[..k] + Reversed(batch) + q[k..]
          else
            var m := if k - |q| < |batch| then k - |q| else |batch|;
            q + batch[..m] + Reversed(batch[m..])
        else if |q| + k + 1 >= 0 then
          q[..|q| + k + 1] + batch + q[|q| + k + 1..]
        else
          var d := -(|q| + k + 1);
          var m := if d < |batch| then d else |batch|;
          batch[m..] + Reversed(batch[..m]) + q
      case _ => q + batch
  }

  /** The uids a batch may bring or be given: new ones are unlike any in the queue, in the batch
      or among themselves. */
  ghost predicate FreshIds(q: seq<QueueItem>, items: seq<QueueItem>, ids: seq<string>) {
    && |ids| == |items|
    && (forall i :: 0 <= i < |ids| ==> !Has(q, ids[i]))
    && (forall i, j :: 0 <= i < |ids| && 0 <= j < |items| ==> ids[i] != items[j].uid)
    && (forall i, j :: 0 <= i < j < |ids| ==> ids[i] != ids[j])
  }

  function Stored(pairs: seq<(QueueItem, nat)>): seq<QueueItem> {
    seq(|pairs|, i requires 0 <= i < |pairs| => pairs[i].0)
  }

  // ---- one item more ------------------------------------------------------------------

  lemma ReversedOfFirst(x: QueueItem, rest: seq<QueueItem>)
    ensures Reversed([x] + rest) == Reversed(rest) + [x]
  {
    assert ([x] + rest)[1..] == rest;
  }

  lemma {:induction false} ReversedOfLast(q: seq<QueueItem>, x: QueueItem)
    ensures Reversed(q + [x]) == [x] + Reversed(q)
  {
    if q == [] {
      assert q + [x] == [x];
    } else {
      assert (q + [x])[1..] == q[1..] + [x];
      ReversedOfLast(q[1..], x);
    }
  }

  lemma HandOver(a: seq<QueueItem>, b: seq<QueueItem>, x: QueueItem, c: seq<QueueItem>)
    ensures a + b + ([x] + c) == a + (b + [x]) + c
  {
  }

  /** An insertion before an item or behind it keeps it the first of its uid. */
  lemma AnchorStays(q: seq<QueueItem>, x: QueueItem, uid: string, a: nat, i: nat)
    requires IndexOf(q, uid) == Some(a) && x.uid != uid && a <= i <= a + 1
    ensures i <= |q| && IndexOf(InsertAt(q, i, x), uid) == Some(if i == a then a + 1 else a)
  {
    var r, b := InsertAt(q, i, x), if i == a then a + 1 else a;
    assert r[b] == q[a];
    forall j | 0 <= j < b
      ensures r[j].uid != uid
    {
      assert r[j] == if j < i then q[j] else x;
    }
  }

  lemma FirstBeforeAnchor(q: seq<QueueItem>, x: QueueItem, rest: seq<QueueItem>, p: Place, a: nat)
    requires p.before.Some? && IndexOf(q, p.before.value) == Some(a) && x.uid != p.before.value
    ensures Spliced(InsertAt(q, a, x), rest, p) == Spliced(q, [x] + rest, p)
  {
    AnchorStays(q, x, p.before.value, a, a);
    BeforeAndBehind(q, x, rest, a);
  }

  lemma BeforeAndBehind(q: seq<QueueItem>, x: QueueItem, rest: seq<QueueItem>, a: nat)
    requires a < |q|
    ensures var r := InsertAt(q, a, x);
      r[..a + 1] + rest + r[a + 1..] == q[..a] + ([x] + rest) + q[a..]
    ensures var r := InsertAt(q, a + 1, x);
      r[..a + 1] + Reversed(rest) + r[a + 1..] == q[..a + 1] + Reversed([x] + rest) + q[a + 1..]
  {
    var r := InsertAt(q, a, x);
    assert r[..a + 1] == q[..a] + [x] && r[a + 1..] == q[a..];
    Regroup(q[..a], [x], rest);
    var t := InsertAt(q, a + 1, x);
    assert t[..a + 1] == q[..a + 1] && t[a + 1..] == [x] + q[a + 1..];
    ReversedOfFirst(x, rest);
    HandOver(q[..a + 1], Reversed(rest), x, q[a + 1..]);
  }

  lemma FirstAfterAnchor(q: seq<QueueItem>, x: QueueItem, rest: seq<QueueItem>, p: Place, a: nat)
    requires p.before.None? && p.after.Some? && IndexOf(q, p.after.value) == Some(a) && x.uid != p.after.value
    ensures Spliced(InsertAt(q, a + 1, x), rest, p) == Spliced(q, [x] + rest, p)
  {
    AnchorStays(q, x, p.after.value, a, a + 1);
    BeforeAndBehind(q, x, rest, a);
  }

  lemma FirstAtIndex(q: seq<QueueItem>, x: QueueItem, rest: seq<QueueItem>, p: Place, k: int)
    requires p.before.None? && p.after.None? && p.pos == Some(At(k)) && k >= 0
    ensures Spliced(InsertAt(q, Clamp(k, |q|), x), rest, p) == Spliced(q, [x] + rest, p)
  {
    var b := [x] + rest;
    ReversedOfFirst(x, rest);
    if k <= |q| {
      var r := InsertAt(q, k, x);
      assert r[..k] == q[..k] && r[k..] == [x] + q[k..];
      HandOver(q[..k], Reversed(rest), x, q[k..]);
    } else {
      var r := InsertAt(q, |q|, x);
      assert r == q + [x];
      var m := if k - |q| < |b| then k - |q| else |b|;
      assert b[..m] == [x] + rest[..m - 1] && b[m..] == rest[m - 1..];
      if k == |r| {
        assert m == 1 && rest[..0] == [] && rest[0..] == rest;
        assert r[..k] == r && r[k..] == [];
      }
    }
  }

  lemma FirstFromEnd(q: seq<QueueItem>, x: QueueItem, rest: seq<QueueItem>, p: Place, k: int)
    requires p.before.None? && p.after.None? && p.pos == Some(At(k)) && k < 0 <= |q| + k + 1
    ensures Spliced(InsertAt(q, |q| + k + 1, x), rest, p) == Spliced(q, [x] + rest, p)
  {
    var a := |q| + k + 1;
    var r := InsertAt(q, a, x);
    assert r[..a + 1] == q[..a] + [x] && r[a + 1..] == q[a..];
    Regroup(q[..a], [x], rest);
  }

  lemma FirstBeforeFront(q: seq<QueueItem>, x: QueueItem, rest: seq<QueueItem>, p: Place, k: int)
    requires p.before.None? && p.after.None? && p.pos == Some(At(k)) && |q| + k + 1 < 0
    ensures Spliced([x] + q, rest, p) == Spliced(q, [x] + rest, p)
  {
    var b, r := [x] + rest, [x] + q;
    var d := -(|q| + k + 1);
    var m := if d < |b| then d else |b|;
    assert b[m..] == rest[m - 1..] && b[..m] == [x] + rest[..m - 1];
    ReversedOfFirst(x, rest[..m - 1]);
    HandOver(rest[m - 1..], Reversed(rest[..m - 1]), x, q);
    if d == 1 {
      assert rest[m - 1..] == rest && rest[..m - 1] == [];
      assert Spliced(r, rest, p) == r[..0] + rest + r[0..];
    }
  }

  /** Adding the first item at the resolved index and splicing the rest is splicing all. */
  lemma FirstOfBatch(q: seq<QueueItem>, x: QueueItem, rest: seq<QueueItem>, p: Place)
    requires ResolveIndex(q, p).Ok? && ResolveIndex(q, p).value <= |q| && !Has(q, x.uid)
    ensures Spliced(InsertAt(q, ResolveIndex(q, p).value, x), rest, p) == Spliced(q, [x] + rest, p)
  {
    var i := ResolveIndex(q, p).value;
    if p.before.Some? {
      FirstBeforeAnchor(q, x, rest, p, i);
    } else if p.after.Some? {
      FirstAfterAnchor(q, x, rest, p, i - 1);
    } else {
      ReversedOfFirst(x, rest);
      match p.pos
      case Some(At(k)) =>
        if k >= 0 {
          FirstAtIndex(q, x, rest, p, k);
        } else if |q| + k + 1 >= 0 {
          FirstFromEnd(q, x, rest, p, k);
        } else {
          FirstBeforeFront(q, x, rest, p, k);
          assert InsertAt(q, 0, x) == [x] + q;
        }
      case Some(Word(w)) =>
        if w == "front" {
          assert InsertAt(q, 0, x) == [x] + q;
        } else {
          assert InsertAt(q, |q|, x) + rest == q + ([x] + rest);
        }
      case Some(OtherValue) =>
      case None =>
        assert InsertAt(q, |q|, x) + rest == q + ([x] + rest);
    }
  }

  /** An empty batch changes nothing. */
  lemma SplicedNothing(q: seq<QueueItem>, p: Place)
    ensures Spliced(q, [], p) == q
  {
    assert forall k :: 0 <= k <= |q| ==> q[..k] + [] + q[k..] == q;
    assert Reversed([]) == [];
  }

  // ---- the whole batch ------------------------------------------------------------------

  lemma FreshStays(q: seq<QueueItem>, items: seq<QueueItem>, ids: seq<string>, p: Place, i: nat, now: real)
    requires items != [] && FreshIds(q, items, ids) && i <= |q|
    requires Resolvable(q, p)
    ensures var x := StoredAs(q, items[0], ids[0], now);
      && !Has(q, x.uid)
      && FreshIds(InsertAt(q, i, x), items[1..], ids[1..])
      && Resolvable(InsertAt(q, i, x), p)
  {
    var x := StoredAs(q, items[0], ids[0], now);
    var r := InsertAt(q, i, x);
    var k := IndexOf(q, items[0].uid);
    forall u | Has(q, u)
      ensures Has(r, u)
    {
      var j :| 0 <= j < |q| && q[j].uid == u;
      assert r[if j < i then j else j + 1] == q[j];
    }
    forall j | 0 <= j < |ids| - 1
      ensures !Has(r, ids[1..][j])
    {
      assert x.uid == ids[0] || x.uid == items[0].uid;
      assert forall m :: 0 <= m < |r| ==> r[m] == if m == i then x else q[if m < i then m else m - 1];
    }
  }

  /** The first addition, spelled out. */
  lemma AddFirst(accepts: QueueItem -> bool, s: Queue, items: seq<QueueItem>, p: Place, ids: seq<string>, now: real)
    requires Distinct(s.items) && items != [] && FreshIds(s.items, items, ids)
    requires accepts(items[0]) && Resolvable(s.items, p)
    ensures ResolveIndex(s.items, p).Ok? && ResolveIndex(s.items, p).value <= |s.items|
    ensures var x, i := StoredAs(s.items, items[0], ids[0], now), ResolveIndex(s.items, p).value;
      && Add(accepts, s, items[0], p, ids[0], now) == Change(Queue(InsertAt(s.items, i, x), s.revision + 1), Ok((x, i)))
      && Distinct(InsertAt(s.items, i, x)) && !Has(s.items, x.uid)
      && x.Payload() == items[0].Payload()
  {
    AddLands(accepts, s, items[0], p, ids[0], now);
    ResolvesExactlyWhen(s.items, p);
    var x, i := StoredAs(s.items, items[0], ids[0], now), ResolveIndex(s.items, p).value;
    FreshStays(s.items, items, ids, p, i, now);
    assert Distinct(InsertAt(s.items, i, x));
    IndexOfAt(InsertAt(s.items, i, x), i);
  }

  lemma StoredFrom(r: seq<(QueueItem, nat)>, k: nat)
    requires k < |r|
    ensures Stored(r[k..]) == [r[k].0] + Stored(r[k + 1..])
  {
  }

  /** n more items were added to `s`, and are spliced into it as `Spliced` says. */
  ghost predicate AddedTo(s: Queue, r: Change<seq<(QueueItem, nat)>>, n: nat, p: Place, added: seq<(QueueItem, nat)>) {
    && r.result.Ok? && |r.result.value| == |added| + n && added <= r.result.value
    && r.after == Queue(Spliced(s.items, Stored(r.result.value[|added|..]), p), s.revision + n)
    && Distinct(r.after.items)
  }

  lemma AddedOneMore(s: Queue, r: Change<seq<(QueueItem, nat)>>, n: nat, p: Place, added: seq<(QueueItem, nat)>,
                     x: QueueItem, i: nat)
    requires ResolveIndex(s.items, p) == Ok(i) && i <= |s.items| && !Has(s.items, x.uid)
    requires AddedTo(Queue(InsertAt(s.items, i, x), s.revision + 1), r, n, p, added + [(x, i)])
    ensures AddedTo(s, r, n + 1, p, added)
  {
    var v, k := r.result.value, |added|;
    assert v[k] == (added + [(x, i)])[k];
    StoredFrom(v, k);
    FirstOfBatch(s.items, x, Stored(v[k + 1..]), p);
  }

  lemma {:induction false} AddAllSplices(accepts: QueueItem -> bool, s: Queue, items: seq<QueueItem>, p: Place,
                                         ids: seq<string>, now: real, added: seq<(QueueItem, nat)>)
    requires Distinct(s.items) && FreshIds(s.items, items, ids) && AllAccepted(accepts, items)
    requires Resolvable(s.items, p)
    ensures AddedTo(s, AddAll(accepts, s, items, p, ids, now, added), |items|, p, added)
    decreases |items|
  {
    if items == [] {
      SplicedNothing(s.items, p);
      assert added[|added|..] == [];
    } else {
      AddFirst(accepts, s, items, p, ids, now);
      var x, i := StoredAs(s.items, items[0], ids[0], now), ResolveIndex(s.items, p).value;
      var t := Queue(InsertAt(s.items, i, x), s.revision + 1);
      FreshStays(s.items, items, ids, p, i, now);
      AddAllSplices(accepts, t, items[1..], p, ids[1..], now, added + [(x, i)]);
      AddedOneMore(s, AddAll(accepts, t, items[1..], p, ids[1..], now, added + [(x, i)]), |items| - 1, p, added, x, i);
    }
  }

  // ---- what the answer says -------------------------------------------------------------

  /** With `before` of a batch added to `q`, the item was added next: under a new uid if its own was queued
      by then, and at the index the answer gives. */
  ghost predicate Answered(q: seq<QueueItem>, before: seq<QueueItem>, p: Place, pair: (QueueItem, nat),
                           item: QueueItem, id: string, now: real) {
    var earlier, later := Spliced(q, before, p), Spliced(q, before + [pair.0], p);
    && pair.0 == (if Has(earlier, item.uid) then item.(uid := id, createdAt := now) else item)
    && pair.1 < |later| && later[pair.1] == pair.0
  }

  lemma FirstAnswered(q: seq<QueueItem>, p: Place, i: nat, item: QueueItem, id: string, now: real)
    requires ResolveIndex(q, p) == Ok(i) && i <= |q|
    requires var x := StoredAs(q, item, id, now); !Has(q, x.uid)
    ensures Answered(q, [], p, (StoredAs(q, item, id, now), i), item, id, now)
  {
    var x := StoredAs(q, item, id, now);
    FirstOfBatch(q, x, [], p);
    SplicedNothing(q, p);
    SplicedNothing(InsertAt(q, i, x), p);
    assert [] + [x] == [x] + [];
    assert Has(q, item.uid) <==> IndexOf(q, item.uid).Some?;
  }

  lemma LaterAnswered(q: seq<QueueItem>, p: Place, i: nat, x: QueueItem, before: seq<QueueItem>, pair: (QueueItem, nat),
                      item: QueueItem, id: string, now: real)
    requires ResolveIndex(q, p) == Ok(i) && i <= |q| && !Has(q, x.uid)
    requires Answered(InsertAt(q, i, x), before, p, pair, item, id, now)
    ensures Answered(q, [x] + before, p, pair, item, id, now)
  {
    FirstOfBatch(q, x, before, p);
    FirstOfBatch(q, x, before + [pair.0], p);
    Regroup([x], before, [pair.0]);
  }

  /** The answers behind the first k are those for `items`, added to `q` one after another. */
  ghost predicate AllAnswered(q: seq<QueueItem>, answers: seq<(QueueItem, nat)>, k: nat, items: seq<QueueItem>,
                              p: Place, ids: seq<string>, now: real) {
    && |answers| == k + |items| && |ids| == |items|
    && forall j :: 0 <= j < |items| ==>
         Answered(q, Stored(answers[k..k + j]), p, answers[k + j], items[j], ids[j], now)
  }

  lemma OneMoreAnswered(q: seq<QueueItem>, i: nat, answers: seq<(QueueItem, nat)>, k: nat, items: seq<QueueItem>,
                        p: Place, ids: seq<string>, now: real)
    requires items != [] && |ids| == |items| && ResolveIndex(q, p) == Ok(i) && i <= |q|
    requires var x := StoredAs(q, items[0], ids[0], now);
      && k < |answers| && answers[k] == (x, i) && !Has(q, x.uid)
      && AllAnswered(InsertAt(q, i, x), answers, k + 1, items[1..], p, ids[1..], now)
    ensures AllAnswered(q, answers, k, items, p, ids, now)
  {
    var x := answers[k].0;
    forall j | 0 <= j < |items|
      ensures Answered(q, Stored(answers[k..k + j]), p, answers[k + j], items[j], ids[j], now)
    {
      if j == 0 {
        FirstAnswered(q, p, i, items[0], ids[0], now);
        assert Stored(answers[k..k]) == [];
      } else {
        assert answers[k + 1..(k + 1) + (j - 1)] == answers[k + 1..k + j];
        assert Stored(answers[k..k + j]) == [x] + Stored(answers[k + 1..k + j]);
        LaterAnswered(q, p, i, x, Stored(answers[k + 1..k + j]), answers[k + j], items[j], ids[j], now);
      }
    }
  }

  lemma AddAllGoesOn(accepts: QueueItem -> bool, s: Queue, items: seq<QueueItem>, p: Place, ids: seq<string>,
                     now: real, added: seq<(QueueItem, nat)>)
    returns (i: nat, t: Queue, more: seq<(QueueItem, nat)>)
    requires Distinct(s.items) && FreshIds(s.items, items, ids) && AllAccepted(accepts, items)
    requires Resolvable(s.items, p) && items != []
    ensures ResolveIndex(s.items, p) == Ok(i) && i <= |s.items|
    ensures var x := StoredAs(s.items, items[0], ids[0], now);
      && more == added + [(x, i)] && t.items == InsertAt(s.items, i, x) && !Has(s.items, x.uid)
      && var r := AddAll(accepts, s, items, p, ids, now, added);
      && r == AddAll(accepts, t, items[1..], p, ids[1..], now, more)
      && r.result.Ok? && |added| < |r.result.value| && r.result.value[|added|] == (x, i)
    ensures Distinct(t.items) && FreshIds(t.items, items[1..], ids[1..]) && Resolvable(t.items, p)
    ensures AllAccepted(accepts, items[1..])
  {
    AddFirst(accepts, s, items, p, ids, now);
    i := ResolveIndex(s.items, p).value;
    var x := StoredAs(s.items, items[0], ids[0], now);
    t, more := Queue(InsertAt(s.items, i, x), s.revision + 1), added + [(x, i)];
    FreshStays(s.items, items, ids, p, i, now);
    AddAllSplices(accepts, t, items[1..], p, ids[1..], now, more);
    assert AddAll(accepts, t, items[1..], p, ids[1..], now, more).result.value[|added|] == more[|added|];
  }

  lemma {:induction false} AddAllAnswers(accepts: QueueItem -> bool, s: Queue, items: seq<QueueItem>, p: Place,
                                         ids: seq<string>, now: real, added: seq<(QueueItem, nat)>)
    requires Distinct(s.items) && FreshIds(s.items, items, ids) && AllAccepted(accepts, items)
    requires Resolvable(s.items, p)
    ensures var r := AddAll(accepts, s, items, p, ids, now, added).result;
      r.Ok? && AllAnswered(s.items, r.value, |added|, items, p, ids, now)
    decreases |items|
  {
    if items != [] {
      var i, t, more := AddAllGoesOn(accepts, s, items, p, ids, now, added);
      AddAllAnswers(accepts, t, items[1..], p, ids[1..], now, more);
      var v := AddAll(accepts, s, items, p, ids, now, added).result.value;
      OneMoreAnswered(s.items, i, v, |added|, items, p, ids, now);
    }
  }

  /** What an accepted batch answers with: item by item what was stored and where it stood then. */
  lemma AddBatchAnswers(accepts: QueueItem -> bool, s: Queue, items: seq<QueueItem>, p: Place,
                        ids: seq<string>, now: real)
    requires Distinct(s.items) && FreshIds(s.items, items, ids)
    requires Batch(accepts, s, items, p, ids, now).result.Ok?
    ensures var v := Batch(accepts, s, items, p, ids, now).result.value;
      AllAnswered(s.items, v, 0, items, p, ids, now)
  {
    AddBatchSplices(accepts, s, items, p, ids, now);
    if items != [] {
      AddAllAnswers(accepts, s, items, p, ids, now, []);
    }
  }

  lemma PayloadsOfAdded(added: seq<(QueueItem, nat)>, pair: (QueueItem, nat))
    ensures Payloads(Stored(added + [pair])) == Payloads(Stored(added)) + Payloads([pair.0])
  {
    assert Stored(added + [pair]) == Stored(added) + [pair.0];
  }

  lemma PayloadsOfRest(items: seq<QueueItem>)
    requires items != []
    ensures Payloads(items) == Payloads([items[0]]) + Payloads(items[1..])
  {
  }

  lemma {:induction false} AddAllKeepsPayloads(accepts: QueueItem -> bool, s: Queue, items: seq<QueueItem>, p: Place,
                                               ids: seq<string>, now: real, added: seq<(QueueItem, nat)>)
    requires |ids| == |items|
    requires AddAll(accepts, s, items, p, ids, now, added).result.Ok?
    ensures Payloads(Stored(AddAll(accepts, s, items, p, ids, now, added).result.value))
         == Payloads(Stored(added)) + Payloads(items)
    decreases |items|
  {
    if items != [] {
      var first := Add(accepts, s, items[0], p, ids[0], now);
      var pair := first.result.value;
      assert pair.0 == StoredAs(s.items, items[0], ids[0], now);
      AddAllKeepsPayloads(accepts, first.after, items[1..], p, ids[1..], now, added + [pair]);
      PayloadsOfAdded(added, pair);
      PayloadsOfRest(items);
      Regroup(Payloads(Stored(added)), Payloads([pair.0]), Payloads(items[1..]));
      assert Payloads([pair.0]) == Payloads([items[0]]);
    }
  }

  /** `add_batch` is all or nothing: it is accepted exactly when every item is valid and, unless it
      is empty, the place resolves; a refused batch changes nothing. An accepted one keeps its
      payloads in order in the answer and ends up in the queue as `Spliced` says. */
  lemma AddBatchSplices(accepts: QueueItem -> bool, s: Queue, items: seq<QueueItem>, p: Place,
                        ids: seq<string>, now: real)
    requires Distinct(s.items) && FreshIds(s.items, items, ids)
    ensures var r := Batch(accepts, s, items, p, ids, now);
      && (r.result.Ok? <==> AllAccepted(accepts, items) && (items == [] || Resolvable(s.items, p)))
      && (r.result.Err? ==> r.after == s)
      && (r.result.Ok? ==>
            && Payloads(Stored(r.result.value)) == Payloads(items)
            && r.after == Queue(Spliced(s.items, Stored(r.result.value), p), s.revision + |items|)
            && Distinct(r.after.items))
  {
    if AllAccepted(accepts, items) {
      if items == [] {
        SplicedNothing(s.items, p);
      } else if Resolvable(s.items, p) {
        AddAllSplices(accepts, s, items, p, ids, now, []);
        AddAllKeepsPayloads(accepts, s, items, p, ids, now, []);
        var v := Batch(accepts, s, items, p, ids, now).result.value;
        assert v[0..] == v;
      } else {
        ResolvesExactlyWhen(s.items, p);
        assert Add(accepts, s, items[0], p, ids[0], now).result.Err?;
      }
    }
  }
}
