/** The batch move route: the first item is moved to the place, each further one directly after
    the one before it. */
module BatchMove {
  import opened Sequences
  import opened Wrappers
  import opened Models
  import opened QueueList
  import opened QueueSpec

  /** The place directly after an item. */
  function After(uid: string): Place {
    Place(None, None, Some(uid))
  }

  /** Moving each of `uids[1..]` after its predecessor. */
  function Chain(s: Queue, uids: seq<string>): Change<()>
    requires uids != []
    decreases |uids|
  {
    if |uids| == 1 then Change(s, Ok(()))
    else
      var r := Move(s, uids[1], After(uids[0]));
      match r.result
      case Err(e) => Change(r.after, Err(e))
      case Ok(_) => Chain(r.after, uids[1..])
  }

  function Batch(s: Queue, uids: seq<string>, p: Place): Change<()> {
    if uids == [] then Change(s, Err(NoUids))
    else
      var r := Move(s, uids[0], p);
      match r.result
      case Err(e) => Change(r.after, Err(e))
      case Ok(_) => Chain(r.after, uids)
  }

  ghost predicate AllPresent(q: seq<QueueItem>, uids: seq<string>) {
    forall i :: 0 <= i < |uids| ==> Has(q, uids[i])
  }

  ghost predicate NoNeighboursEqual(uids: seq<string>) {
    forall i :: 0 <= i < |uids| - 1 ==> uids[i] != uids[i + 1]
  }

  ghost predicate PairwiseDistinct(uids: seq<string>) {
    forall i, j :: 0 <= i < j < |uids| ==> uids[i] != uids[j]
  }

  /** The queue's items in the order `uids` names them. */
  function Named(q: seq<QueueItem>, uids: seq<string>): seq<QueueItem>
    requires forall i :: 0 <= i < |uids| ==> IndexOf(q, uids[i]).Some?
  {
    seq(|uids|, i requires 0 <= i < |uids| => q[IndexOf(q, uids[i]).value])
  }

  // ---- which batches are accepted -------------------------------------------------------

  lemma SameItems(q: seq<QueueItem>, k: nat, r: seq<QueueItem>, i: nat, u: string)
    requires k < |q| && i < |r| && q[k] == r[i] && RemoveAt(q, k) == RemoveAt(r, i) && Has(q, u)
    ensures Has(r, u)
  {
    var j :| 0 <= j < |q| && q[j].uid == u;
    if j == k {
      assert r[i].uid == u;
    } else {
      var m := if j < k then j else j - 1;
      assert RemoveAt(q, k)[m] == q[j];
      assert r[if m < i then m else m + 1] == RemoveAt(r, i)[m];
    }
  }

  lemma SameUids(q: seq<QueueItem>, k: nat, r: seq<QueueItem>, i: nat, u: string)
    requires k < |q| && i < |r| && q[k] == r[i] && RemoveAt(q, k) == RemoveAt(r, i)
    ensures Has(q, u) <==> Has(r, u)
  {
    if Has(q, u) {
      SameItems(q, k, r, i, u);
    }
    if Has(r, u) {
      SameItems(r, i, q, k, u);
    }
  }

  /** An accepted move changes no item: the same uids are present before and after. */
  lemma MoveKeepsPresent(s: Queue, uid: string, p: Place, uids: seq<string>)
    requires Distinct(s.items) && Movable(s.items, uid, p)
    ensures AllPresent(Move(s, uid, p).after.items, uids) <==> AllPresent(s.items, uids)
    ensures Has(Move(s, uid, p).after.items, uid)
  {
    MoveLands(s, uid, p);
    var q, r := s.items, Move(s, uid, p).after.items;
    var k, i := IndexOf(q, uid).value, Move(s, uid, p).result.value;
    forall u {
      SameUids(q, k, r, i, u);
    }
  }

  lemma PresentOfFirst(q: seq<QueueItem>, uids: seq<string>)
    requires uids != []
    ensures AllPresent(q, uids) <==> Has(q, uids[0]) && AllPresent(q, uids[1..])
  {
    assert forall i :: 1 <= i < |uids| ==> uids[i] == uids[1..][i - 1];
  }

  lemma NeighboursOfFirst(uids: seq<string>)
    requires |uids| > 1
    ensures NoNeighboursEqual(uids) <==> uids[0] != uids[1] && NoNeighboursEqual(uids[1..])
  {
    var rest := uids[1..];
    assert forall i :: 0 <= i < |rest| ==> rest[i] == uids[i + 1];
    if uids[0] != uids[1] && NoNeighboursEqual(rest) {
      forall i | 0 <= i < |uids| - 1
        ensures uids[i] != uids[i + 1]
      {
        if i > 0 {
          assert rest[i - 1] != rest[i - 1 + 1];
        }
      }
    }
    if NoNeighboursEqual(uids) {
      forall i | 0 <= i < |rest| - 1
        ensures rest[i] != rest[i + 1]
      {
        assert uids[i + 1] != uids[i + 1 + 1];
      }
    }
  }

  lemma MovableAfter(q: seq<QueueItem>, uid: string, prev: string)
    requires Distinct(q) && Has(q, prev)
    ensures Movable(q, uid, After(prev)) <==> Has(q, uid) && uid != prev
  {
    var k := IndexOf(q, uid);
    if k.Some? && uid != prev {
      var j :| 0 <= j < |q| && q[j].uid == prev;
      var m := if j < k.value then j else j - 1;
      assert RemoveAt(q, k.value)[m] == q[j];
    }
  }

  lemma {:induction false} ChainAcceptedExactlyWhen(s: Queue, uids: seq<string>)
    requires Distinct(s.items) && uids != [] && Has(s.items, uids[0])
    ensures Chain(s, uids).result.Ok? <==> AllPresent(s.items, uids) && NoNeighboursEqual(uids)
    ensures Distinct(Chain(s, uids).after.items)
    decreases |uids|
  {
    PresentOfFirst(s.items, uids);
    if |uids| > 1 {
      var p := After(uids[0]);
      PresentOfFirst(s.items, uids[1..]);
      NeighboursOfFirst(uids);
      MovableAfter(s.items, uids[1], uids[0]);
      MoveLands(s, uids[1], p);
      if Has(s.items, uids[1]) && uids[0] != uids[1] {
        MoveKeepsPresent(s, uids[1], p, uids[1..]);
        ChainAcceptedExactlyWhen(Move(s, uids[1], p).after, uids[1..]);
      }
    }
  }

  /** A batch move is accepted exactly when it names at least one item, all named items are queued,
      no two neighbours in the request are the same, and the first can be moved to the place. */
  lemma BatchAcceptedExactlyWhen(s: Queue, uids: seq<string>, p: Place)
    requires Distinct(s.items)
    ensures Batch(s, uids, p).result.Ok? <==>
      uids != [] && AllPresent(s.items, uids) && NoNeighboursEqual(uids) && Movable(s.items, uids[0], p)
    ensures Distinct(Batch(s, uids, p).after.items)
  {
    if uids != [] {
      MoveLands(s, uids[0], p);
      if Movable(s.items, uids[0], p) {
        MoveKeepsPresent(s, uids[0], p, uids);
        ChainAcceptedExactlyWhen(Move(s, uids[0], p).after, uids);
      }
    }
  }

  // ---- what a refused batch leaves --------------------------------------------------------

  /** Item n of the request is the first that is not queued or follows itself; none if n is its length. */
  ghost predicate StopsBefore(q: seq<QueueItem>, uids: seq<string>, n: nat) {
    && 0 < n <= |uids|
    && AllPresent(q, uids[..n]) && NoNeighboursEqual(uids[..n])
    && (n < |uids| ==> !Has(q, uids[n]) || uids[n] == uids[n - 1])
  }

  /** The refusal the chain ends with. */
  ghost predicate RefusedAt(r: Change<()>, q: seq<QueueItem>, uids: seq<string>, n: nat)
    requires 0 < n <= |uids|
  {
    if n == |uids| then r.result.Ok?
    else r.result == Err(if Has(q, uids[n]) then RelativeToItself else NotInQueue(uids[n]))
  }

  lemma RefusedLink(s: Queue, uids: seq<string>)
    requires Distinct(s.items) && |uids| > 1 && Has(s.items, uids[0])
    requires !Has(s.items, uids[1]) || uids[1] == uids[0]
    ensures StopsBefore(s.items, uids, 1) && RefusedAt(Chain(s, uids), s.items, uids, 1)
    ensures Chain(s, uids[..1]) == Change(s, Ok(())) && Chain(s, uids).after == s
  {
    var k := IndexOf(s.items, uids[1]);
    assert Has(s.items, uids[1]) <==> k.Some?;
  }

  /** Stopping later, said of the whole request. */
  lemma StopsOneLater(q: seq<QueueItem>, r: seq<QueueItem>, uids: seq<string>, m: nat)
    requires |uids| > 1 && Has(q, uids[0]) && uids[0] != uids[1]
    requires forall u :: Has(q, u) <==> Has(r, u)
    requires StopsBefore(r, uids[1..], m)
    ensures StopsBefore(q, uids, m + 1)
  {
    var first, rest := uids[..m + 1], uids[1..][..m];
    assert first[1..] == rest && first[0] == uids[0] && first[1] == uids[1];
    PresentOfFirst(q, first);
    NeighboursOfFirst(first);
    assert AllPresent(q, rest) by {
      forall i | 0 <= i < |rest|
        ensures Has(q, rest[i])
      {
        assert Has(r, rest[i]);
      }
    }
    if m + 1 < |uids| {
      assert uids[1..][m] == uids[m + 1] && uids[1..][m - 1] == uids[m];
    }
  }

  lemma SamePresent(s: Queue, uid: string, p: Place)
    requires Distinct(s.items) && Movable(s.items, uid, p)
    ensures forall u :: Has(s.items, u) <==> Has(Move(s, uid, p).after.items, u)
  {
    forall u
      ensures Has(s.items, u) <==> Has(Move(s, uid, p).after.items, u)
    {
      MoveKeepsPresent(s, uid, p, [u]);
      assert AllPresent(s.items, [u]) <==> Has(s.items, [u][0]);
      assert AllPresent(Move(s, uid, p).after.items, [u]) <==> Has(Move(s, uid, p).after.items, [u][0]);
    }
  }

  lemma ChainOneLater(s: Queue, uids: seq<string>, m: nat)
    requires |uids| > 1 && 0 < m < |uids| && Move(s, uids[1], After(uids[0])).result.Ok?
    ensures Chain(s, uids[..m + 1]) == Chain(Move(s, uids[1], After(uids[0])).after, uids[1..][..m])
  {
    var first := uids[..m + 1];
    assert first[0] == uids[0] && first[1] == uids[1] && first[1..] == uids[1..][..m];
  }

  /** A chain stops before the first uid that is not queued or equals its predecessor, and leaves
      exactly what the accepted chain of those before it leaves: the moves made stay made. */
  lemma {:induction false} ChainStopsAtRefused(s: Queue, uids: seq<string>) returns (n: nat)
    requires Distinct(s.items) && uids != [] && Has(s.items, uids[0])
    ensures StopsBefore(s.items, uids, n) && RefusedAt(Chain(s, uids), s.items, uids, n)
    ensures Chain(s, uids[..n]).result.Ok? && Chain(s, uids).after == Chain(s, uids[..n]).after
    ensures Chain(s, uids).after.revision == s.revision + n - 1
    decreases |uids|
  {
    if |uids| == 1 {
      n := 1;
      assert uids[..1] == uids;
    } else if !Has(s.items, uids[1]) || uids[1] == uids[0] {
      n := 1;
      RefusedLink(s, uids);
    } else {
      var p := After(uids[0]);
      MovableAfter(s.items, uids[1], uids[0]);
      MoveLands(s, uids[1], p);
      SamePresent(s, uids[1], p);
      var t := Move(s, uids[1], p).after;
      var m := ChainStopsAtRefused(t, uids[1..]);
      n := m + 1;
      StopsOneLater(s.items, t.items, uids, m);
      ChainOneLater(s, uids, m);
    }
  }

  /** A batch whose first item can be moved stops before the first uid that is not queued or equals
      its predecessor, and leaves exactly what the accepted batch of those before it leaves. */
  lemma BatchStopsAtRefused(s: Queue, uids: seq<string>, p: Place) returns (n: nat)
    requires Distinct(s.items) && uids != [] && Movable(s.items, uids[0], p)
    ensures StopsBefore(s.items, uids, n) && RefusedAt(Batch(s, uids, p), s.items, uids, n)
    ensures Batch(s, uids[..n], p).result.Ok? && Batch(s, uids, p).after == Batch(s, uids[..n], p).after
    ensures Batch(s, uids, p).after.revision == s.revision + n
  {
    MoveLands(s, uids[0], p);
    SamePresent(s, uids[0], p);
    var t := Move(s, uids[0], p).after;
    n := ChainStopsAtRefused(t, uids);
    assert uids[..n][0] == uids[0];
    forall i | 0 <= i < n
      ensures Has(s.items, uids[..n][i])
    {
      assert Has(t.items, uids[..n][i]);
    }
  }

  /** A refused batch leaves the queue as it was exactly when it names nothing, or its first move was
      refused before the item was taken out, or that item was last, to where it is put back. Else
      either the first item has gone to the back, or at least one move was made and counted. */
  lemma RefusedBatchLeavesQueueExactlyWhen(s: Queue, uids: seq<string>, p: Place)
    requires Distinct(s.items) && Batch(s, uids, p).result.Err?
    ensures Batch(s, uids, p).after == s <==>
      || uids == []
      || (&& !Movable(s.items, uids[0], p)
          && var k := IndexOf(s.items, uids[0]);
             k.None? || p.before == Some(uids[0]) || p.after == Some(uids[0]) || k.value == |s.items| - 1)
  {
    if uids != [] {
      MoveLands(s, uids[0], p);
      if Movable(s.items, uids[0], p) {
        var n := BatchStopsAtRefused(s, uids, p);
      } else {
        RefusedMoveMovesToBack(s, uids[0], p);
      }
    }
  }

  lemma {:induction false} ChainKeepsPresent(s: Queue, uids: seq<string>, named: seq<string>)
    requires Distinct(s.items) && uids != [] && Has(s.items, uids[0]) && Chain(s, uids).result.Ok?
    ensures AllPresent(Chain(s, uids).after.items, named) <==> AllPresent(s.items, named)
    decreases |uids|
  {
    if |uids| > 1 {
      var p := After(uids[0]);
      MoveLands(s, uids[1], p);
      MoveKeepsPresent(s, uids[1], p, named);
      ChainKeepsPresent(Move(s, uids[1], p).after, uids[1..], named);
    }
  }

  /** After an accepted batch move all named items are still queued. */
  lemma BatchKeepsPresent(s: Queue, uids: seq<string>, p: Place)
    requires Distinct(s.items) && Batch(s, uids, p).result.Ok?
    ensures AllPresent(Batch(s, uids, p).after.items, uids)
  {
    BatchAcceptedExactlyWhen(s, uids, p);
    MoveLands(s, uids[0], p);
    MoveKeepsPresent(s, uids[0], p, uids);
    ChainKeepsPresent(Move(s, uids[0], p).after, uids, uids);
  }

  // ---- where the items end up -----------------------------------------------------------

  /** Moving an item to directly behind a block whose last item it is not; it may come from left or
      right of the block, or from within. */
  lemma MoveBehindBlock(s: Queue, a: seq<QueueItem>, block: seq<QueueItem>, b: seq<QueueItem>, uid: string)
    requires s.items == a + block + b && Distinct(s.items)
    requires block != [] && block[|block| - 1].uid != uid
    requires IndexOf(s.items, uid).Some?
    ensures var x := s.items[IndexOf(s.items, uid).value];
      Move(s, uid, After(block[|block| - 1].uid)).after
      == Queue(Without(a, {uid}) + (Without(block, {uid}) + [x]) + Without(b, {uid}), s.revision + 1)
  {
    var q, last := s.items, block[|block| - 1];
    var k := IndexOf(q, uid).value;
    var x, rest := q[k], RemoveAt(q, k);
    var a', block', b' := Without(a, {uid}), Without(block, {uid}), Without(b, {uid});
    RemoveAtIsWithout(q, k);
    RemoveKeepsDistinct(q, k);
    WithoutThree(a, block, b, {uid});
    LastStays(block, {uid});
    var i := |a'| + |block'| - 1;
    assert rest[i] == last;
    IndexOfAt(rest, i);
    InsertBehind(a', block', b', x);
    MoveLandsAt(s, uid, last.uid, k, i);
  }

  lemma WithoutThree(a: seq<QueueItem>, b: seq<QueueItem>, c: seq<QueueItem>, uids: set<string>)
    ensures Without(a + b + c, uids) == Without(a, uids) + Without(b, uids) + Without(c, uids)
  {
    WithoutConcat(a + b, c, uids);
    WithoutConcat(a, b, uids);
  }

  lemma LastStays(q: seq<QueueItem>, uids: set<string>)
    requires q != [] && q[|q| - 1].uid !in uids
    ensures var r := Without(q, uids); r != [] && r[|r| - 1] == q[|q| - 1]
  {
    var n := |q| - 1;
    WithoutConcat(q[..n], [q[n]], uids);
    assert q == q[..n] + [q[n]];
    WithoutOne(q[n], uids);
  }

  lemma WithoutOne(x: QueueItem, uids: set<string>)
    ensures Without([x], uids) == if x.uid in uids then [] else [x]
  {
    assert [x][1..] == [];
    assert Without([], uids) == [];
  }

  lemma InsertBehind(a: seq<QueueItem>, block: seq<QueueItem>, b: seq<QueueItem>, x: QueueItem)
    ensures InsertAt(a + block + b, |a| + |block|, x) == a + (block + [x]) + b
  {
  }

  /** `move` to directly after an item of known index. */
  lemma MoveLandsAt(s: Queue, uid: string, prev: string, k: nat, i: nat)
    requires Distinct(s.items) && IndexOf(s.items, uid) == Some(k) && uid != prev
    requires IndexOf(RemoveAt(s.items, k), prev) == Some(i)
    ensures Move(s, uid, After(prev)).after
         == Queue(InsertAt(RemoveAt(s.items, k), i + 1, s.items[k]), s.revision + 1)
    ensures Move(s, uid, After(prev)).result.Ok?
  {
    assert ResolveIndex(RemoveAt(s.items, k), After(prev)) == Ok(i + 1);
    MovableAfter(s.items, uid, prev) by {
      var j := if i < k then i else i + 1;
      assert RemoveAt(s.items, k)[i] == s.items[j];
    }
    MoveLands(s, uid, After(prev));
  }

  lemma RearrangedMember(q: seq<QueueItem>, k: nat, r: seq<QueueItem>, i: nat, x: QueueItem)
    requires k < |q| && i < |r| && q[k] == r[i] && RemoveAt(q, k) == RemoveAt(r, i) && x in r
    ensures x in q
  {
    var j :| 0 <= j < |r| && r[j] == x;
    if j != i {
      assert RemoveAt(r, i)[if j < i then j else j - 1] == x;
    }
  }

  /** Items of the queue after a move were in it before. */
  lemma MovedItems(s: Queue, uid: string, p: Place)
    requires Distinct(s.items) && Movable(s.items, uid, p)
    ensures forall x :: x in Move(s, uid, p).after.items ==> x in s.items
  {
    MoveLands(s, uid, p);
    var q, r := s.items, Move(s, uid, p).after.items;
    var k, i := IndexOf(q, uid).value, Move(s, uid, p).result.value;
    forall x | x in r
      ensures x in q
    {
      RearrangedMember(q, k, r, i, x);
    }
  }

  /** One link of the chain. */
  lemma ChainLink(s: Queue, a: seq<QueueItem>, block: seq<QueueItem>, b: seq<QueueItem>, uids: seq<string>)
    returns (x: QueueItem, t: Queue)
    requires s.items == a + block + b && Distinct(s.items)
    requires |uids| > 1 && AllPresent(s.items, uids) && uids[1] != uids[0]
    requires block != [] && block[|block| - 1].uid == uids[0]
    ensures Chain(s, uids) == Chain(t, uids[1..])
    ensures t.items == Without(a, {uids[1]}) + (Without(block, {uids[1]}) + [x]) + Without(b, {uids[1]})
    ensures Distinct(t.items) && AllPresent(t.items, uids[1..])
    ensures x in s.items && x.uid == uids[1]
    ensures forall y :: y in t.items ==> y in s.items
  {
    var uid, p := uids[1], After(uids[0]);
    assert Has(s.items, uid) && Has(s.items, uids[0]);
    assert uids[1..][0] == uid;
    MovableAfter(s.items, uid, uids[0]);
    MoveLands(s, uid, p);
    MoveBehindBlock(s, a, block, b, uid);
    x, t := s.items[IndexOf(s.items, uid).value], Move(s, uid, p).after;
    MoveKeepsPresent(s, uid, p, uids[1..]);
    PresentOfFirst(s.items, uids);
    MovedItems(s, uid, p);
  }

  /** Every uid once, where it is named last. */
  function Lasts(uids: seq<string>): seq<string> {
    if uids == [] then []
    else (if uids[0] in uids[1..] then [] else [uids[0]]) + Lasts(uids[1..])
  }

  lemma {:induction false} LastsAreAll(uids: seq<string>)
    ensures forall u :: u in Lasts(uids) <==> u in uids
    ensures PairwiseDistinct(Lasts(uids))
    ensures |Lasts(uids)| <= |uids|
  {
    if uids != [] {
      LastsAreAll(uids[1..]);
      assert forall u :: u in uids <==> u == uids[0] || u in uids[1..];
    }
  }

  lemma {:induction false} LastsOfDistinct(uids: seq<string>)
    requires PairwiseDistinct(uids)
    ensures Lasts(uids) == uids
  {
    if uids != [] {
      LastsOfDistinct(uids[1..]);
    }
  }

  lemma SameNamed(q: seq<QueueItem>, uids: seq<string>)
    ensures Uids(Lasts(uids)) == Uids(uids)
    ensures AllPresent(q, Lasts(uids)) <==> AllPresent(q, uids)
  {
    LastsAreAll(uids);
    assert forall u :: u in Uids(uids) <==> u in uids;
    assert forall u :: u in Uids(Lasts(uids)) <==> u in Lasts(uids);
    assert AllPresent(q, uids) <==> forall u :: u in uids ==> Has(q, u);
    assert AllPresent(q, Lasts(uids)) <==> forall u :: u in Lasts(uids) ==> Has(q, u);
  }

  /** The items of `q` with these uids, in this order. */
  ghost predicate AreNamed(items: seq<QueueItem>, q: seq<QueueItem>, uids: seq<string>) {
    |items| == |uids| && forall i :: 0 <= i < |items| ==> items[i] in q && items[i].uid == uids[i]
  }

  /** One more item in front, if it is not named again. */
  lemma NamedOneMore(x: QueueItem, more: seq<QueueItem>, q: seq<QueueItem>, t: seq<QueueItem>, uids: seq<string>)
    requires uids != [] && x in q && x.uid == uids[0]
    requires AreNamed(more, t, Lasts(uids[1..])) && forall y :: y in t ==> y in q
    ensures AreNamed(Without([x], Uids(uids[1..])) + more, q, Lasts(uids))
  {
    assert uids[0] in Uids(uids[1..]) <==> uids[0] in uids[1..];
    WithoutOne(x, Uids(uids[1..]));
  }

  lemma BlockGoesOn(block: seq<QueueItem>, x: QueueItem, more: seq<QueueItem>, uids: seq<string>)
    requires uids != [] && x.uid == uids[0]
    ensures Without(Without(block, {uids[0]}) + [x], Uids(uids[1..])) + more
         == Without(block, Uids(uids)) + (Without([x], Uids(uids[1..])) + more)
  {
    WithoutConcat(Without(block, {uids[0]}), [x], Uids(uids[1..]));
    WithoutFirstThenLater(block, uids);
    Regroup(Without(block, Uids(uids)), Without([x], Uids(uids[1..])), more);
  }

  /** The chain gathers the named items behind a block that ends with the first, every one where it is
      named last; those of the block that are named again leave it for that. What stands left and right
      of the block stays, in order. */
  lemma {:induction false} ChainGathers(s: Queue, a: seq<QueueItem>, block: seq<QueueItem>, b: seq<QueueItem>,
                                        uids: seq<string>)
    returns (moved: seq<QueueItem>)
    requires s.items == a + block + b && Distinct(s.items)
    requires uids != [] && NoNeighboursEqual(uids) && AllPresent(s.items, uids)
    requires block != [] && block[|block| - 1].uid == uids[0]
    ensures var rest := Uids(uids[1..]);
      Chain(s, uids).after.items == Without(a, rest) + (Without(block, rest) + moved) + Without(b, rest)
    ensures AreNamed(moved, s.items, Lasts(uids[1..]))
    decreases |uids|
  {
    if |uids| == 1 {
      moved := [];
      assert Uids(uids[1..]) == {};
      WithoutAbsent(a, {});
      WithoutAbsent(block, {});
      WithoutAbsent(b, {});
      assert block + moved == block;
    } else {
      var uid := uids[1];
      NeighboursOfFirst(uids);
      var x, t := ChainLink(s, a, block, b, uids);
      var here := Without(block, {uid}) + [x];
      var more := ChainGathers(t, Without(a, {uid}), here, Without(b, {uid}), uids[1..]);
      moved := Without([x], Uids(uids[1..][1..])) + more;
      NamedOneMore(x, more, s.items, t.items, uids[1..]);
      WithoutFirstThenLater(a, uids[1..]);
      WithoutFirstThenLater(b, uids[1..]);
      BlockGoesOn(block, x, more, uids[1..]);
    }
  }

  /** In a list with distinct uids an item is named by its uid. */
  lemma NamedByUid(q: seq<QueueItem>, uids: seq<string>, items: seq<QueueItem>)
    requires Distinct(q) && AllPresent(q, uids) && AreNamed(items, q, uids)
    ensures forall i :: 0 <= i < |uids| ==> IndexOf(q, uids[i]).Some?
    ensures items == Named(q, uids)
  {
    forall i | 0 <= i < |uids|
      ensures IndexOf(q, uids[i]).Some? && items[i] == q[IndexOf(q, uids[i]).value]
    {
      var j :| 0 <= j < |q| && q[j] == items[i];
      IndexOfAt(q, j);
    }
  }

  /** The items left and right of the place, without the named ones. */
  ghost function Left(q: seq<QueueItem>, uids: seq<string>, p: Place): seq<QueueItem>
    requires uids != [] && Movable(q, uids[0], p)
  {
    var rest := RemoveAt(q, IndexOf(q, uids[0]).value);
    ResolvesExactlyWhen(rest, p);
    Without(rest[..ResolveIndex(rest, p).value], Uids(uids))
  }

  ghost function Right(q: seq<QueueItem>, uids: seq<string>, p: Place): seq<QueueItem>
    requires uids != [] && Movable(q, uids[0], p)
  {
    var rest := RemoveAt(q, IndexOf(q, uids[0]).value);
    ResolvesExactlyWhen(rest, p);
    Without(rest[ResolveIndex(rest, p).value..], Uids(uids))
  }

  lemma FirstMoved(s: Queue, uid: string, p: Place)
    requires Distinct(s.items) && Movable(s.items, uid, p)
    ensures var k := IndexOf(s.items, uid).value;
      var rest := RemoveAt(s.items, k);
      && ResolveIndex(rest, p).Ok? && ResolveIndex(rest, p).value <= |rest|
      && var i := ResolveIndex(rest, p).value;
      Move(s, uid, p).after.items == rest[..i] + [s.items[k]] + rest[i..]
    ensures Move(s, uid, p).result.Ok? && Distinct(Move(s, uid, p).after.items)
  {
    MoveLands(s, uid, p);
    ResolvesExactlyWhen(RemoveAt(s.items, IndexOf(s.items, uid).value), p);
  }

  /** Where the first is absent, only the later ones are taken out. */
  lemma WithoutLater(q: seq<QueueItem>, uids: seq<string>)
    requires uids != [] && forall i :: 0 <= i < |q| ==> q[i].uid != uids[0]
    ensures Without(q, Uids(uids)) == Without(q, Uids(uids[1..]))
  {
    WithoutFirstThenLater(q, uids);
    WithoutAbsent(q, {uids[0]});
  }

  lemma SidesTogether(q: seq<QueueItem>, uids: seq<string>, p: Place)
    requires Distinct(q) && uids != [] && Movable(q, uids[0], p)
    ensures Left(q, uids, p) + Right(q, uids, p) == Without(q, Uids(uids))
  {
    var k := IndexOf(q, uids[0]).value;
    var rest := RemoveAt(q, k);
    ResolvesExactlyWhen(rest, p);
    var i := ResolveIndex(rest, p).value;
    RemoveAtIsWithout(q, k);
    WithoutFirstThenLater(q, uids);
    RemoveKeepsDistinct(q, k);
    WithoutLater(rest, uids);
    SplitWithout(rest, i, Uids(uids));
  }

  lemma SplitWithout(q: seq<QueueItem>, i: nat, uids: set<string>)
    requires i <= |q|
    ensures Without(q[..i], uids) + Without(q[i..], uids) == Without(q, uids)
  {
    WithoutConcat(q[..i], q[i..], uids);
    assert q == q[..i] + q[i..];
  }

  /** After the first move the chain starts with a block of one item. */
  lemma ChainStart(s: Queue, uids: seq<string>, p: Place) returns (moved: seq<QueueItem>)
    requires Distinct(s.items) && uids != [] && NoNeighboursEqual(uids)
    requires AllPresent(s.items, uids) && Movable(s.items, uids[0], p)
    ensures Batch(s, uids, p).after.items == Left(s.items, uids, p) + moved + Right(s.items, uids, p)
    ensures AreNamed(moved, s.items, Lasts(uids))
  {
    var q, t := s.items, Move(s, uids[0], p).after;
    var k := IndexOf(q, uids[0]).value;
    var rest := RemoveAt(q, k);
    FirstMoved(s, uids[0], p);
    var i := ResolveIndex(rest, p).value;
    MoveKeepsPresent(s, uids[0], p, uids);
    MovedItems(s, uids[0], p);
    var more := ChainGathers(t, rest[..i], [q[k]], rest[i..], uids);
    moved := Without([q[k]], Uids(uids[1..])) + more;
    NamedOneMore(q[k], more, q, t.items, uids);
    RemoveKeepsDistinct(q, k);
    WithoutLater(rest[..i], uids);
    WithoutLater(rest[i..], uids);
  }

  /** For every accepted batch move: the named items become one block, each where it is named last,
      between the other items that were left and right of the place; those keep their order. */
  lemma BatchGathersNamed(s: Queue, uids: seq<string>, p: Place)
    requires Distinct(s.items) && uids != [] && NoNeighboursEqual(uids)
    requires AllPresent(s.items, uids) && Movable(s.items, uids[0], p)
    ensures forall i :: 0 <= i < |Lasts(uids)| ==> IndexOf(s.items, Lasts(uids)[i]).Some?
    ensures Batch(s, uids, p).after.items
         == Left(s.items, uids, p) + Named(s.items, Lasts(uids)) + Right(s.items, uids, p)
    ensures Left(s.items, uids, p) + Right(s.items, uids, p) == Without(s.items, Uids(uids))
  {
    var moved := ChainStart(s, uids, p);
    SameNamed(s.items, uids);
    NamedByUid(s.items, Lasts(uids), moved);
    SidesTogether(s.items, uids, p);
  }

  /** For pairwise distinct queued uids and a place the first can be moved to, the batch move makes
      the named items one block in the order requested. */
  lemma BatchMoveMakesBlock(s: Queue, uids: seq<string>, p: Place)
    requires Distinct(s.items) && uids != [] && PairwiseDistinct(uids)
    requires AllPresent(s.items, uids) && Movable(s.items, uids[0], p)
    ensures forall i :: 0 <= i < |uids| ==> IndexOf(s.items, uids[i]).Some?
    ensures Batch(s, uids, p).after.items
         == Left(s.items, uids, p) + Named(s.items, uids) + Right(s.items, uids, p)
    ensures Left(s.items, uids, p) + Right(s.items, uids, p) == Without(s.items, Uids(uids))
  {
    LastsOfDistinct(uids);
    BatchGathersNamed(s, uids, p);
  }

  /** Where the block stands: at the front, at the back, or directly before or after an anchor that
      is not itself in the block. */
  lemma BlockStandsAtPlace(q: seq<QueueItem>, uids: seq<string>, p: Place)
    requires Distinct(q) && uids != [] && Movable(q, uids[0], p)
    ensures p.pos == Some(Word("front")) ==> Left(q, uids, p) == []
    ensures p.before.None? && p.after.None? && (p.pos.None? || p.pos == Some(Word("back"))) ==> Right(q, uids, p) == []
    ensures p.before.Some? && p.before.value !in Uids(uids) ==>
      Right(q, uids, p) != [] && Right(q, uids, p)[0].uid == p.before.value
    ensures p.after.Some? && p.after.value !in Uids(uids) ==>
      Left(q, uids, p) != [] && Left(q, uids, p)[|Left(q, uids, p)| - 1].uid == p.after.value
  {
    if p.before.Some? {
      BlockBeforeAnchor(q, uids, p);
    } else if p.after.Some? {
      BlockAfterAnchor(q, uids, p);
    } else {
      BlockAtEnd(q, uids, p);
    }
  }

  lemma BlockBeforeAnchor(q: seq<QueueItem>, uids: seq<string>, p: Place)
    requires uids != [] && Movable(q, uids[0], p) && p.before.Some?
    ensures p.before.value !in Uids(uids) ==>
      Right(q, uids, p) != [] && Right(q, uids, p)[0].uid == p.before.value
  {
    var rest := RemoveAt(q, IndexOf(q, uids[0]).value);
    ResolvesExactlyWhen(rest, p);
    var i := ResolveIndex(rest, p).value;
    assert rest[i..] == [rest[i]] + rest[i + 1..];
  }

  lemma BlockAfterAnchor(q: seq<QueueItem>, uids: seq<string>, p: Place)
    requires uids != [] && Movable(q, uids[0], p) && p.before.None? && p.after.Some?
    ensures p.after.value !in Uids(uids) ==>
      Left(q, uids, p) != [] && Left(q, uids, p)[|Left(q, uids, p)| - 1].uid == p.after.value
  {
    var rest := RemoveAt(q, IndexOf(q, uids[0]).value);
    ResolvesExactlyWhen(rest, p);
    var i := ResolveIndex(rest, p).value;
    assert rest[..i][i - 1] == rest[i - 1];
    if p.after.value !in Uids(uids) {
      LastStays(rest[..i], Uids(uids));
    }
  }

  lemma BlockAtEnd(q: seq<QueueItem>, uids: seq<string>, p: Place)
    requires uids != [] && Movable(q, uids[0], p) && p.before.None? && p.after.None?
    ensures p.pos == Some(Word("front")) ==> Left(q, uids, p) == []
    ensures p.pos.None? || p.pos == Some(Word("back")) ==> Right(q, uids, p) == []
  {
    var rest := RemoveAt(q, IndexOf(q, uids[0]).value);
    ResolvesExactlyWhen(rest, p);
    assert rest[..0] == [] && rest[|rest|..] == [];
  }

  // ---- at an integer position, and when nothing changes ------------------------------------

  /** How many of the items are named. */
  ghost function NamedAmong(q: seq<QueueItem>, uids: set<string>): nat {
    if q == [] then 0 else (if q[0].uid in uids then 1 else 0) + NamedAmong(q[1..], uids)
  }

  lemma {:induction false} WithoutCounts(q: seq<QueueItem>, uids: set<string>)
    ensures |Without(q, uids)| + NamedAmong(q, uids) == |q|
    ensures NamedAmong(q, uids) == 0 <==> forall i :: 0 <= i < |q| ==> q[i].uid !in uids
  {
    if q != [] {
      WithoutCounts(q[1..], uids);
      assert forall i :: 1 <= i < |q| ==> q[i] == q[1..][i - 1];
    }
  }

  /** At an integer position the block starts at the clamped Python index among the other items of
      its first item, less the named items that stood before it there. */
  lemma BlockStartsAtIndex(q: seq<QueueItem>, uids: seq<string>, p: Place, k: int)
    requires Distinct(q) && uids != [] && Movable(q, uids[0], p) && p.pos == Some(At(k))
    ensures IndexOf(q, uids[0]).Some?
    ensures var rest := RemoveAt(q, IndexOf(q, uids[0]).value);
      var i := Clamp(if k < 0 then |rest| + k + 1 else k, |rest|);
      && |Left(q, uids, p)| == i - NamedAmong(rest[..i], Uids(uids))
      && (|Left(q, uids, p)| == i <==> forall j :: 0 <= j < i ==> rest[j].uid !in Uids(uids))
  {
    var rest := RemoveAt(q, IndexOf(q, uids[0]).value);
    ResolvesExactlyWhen(rest, p);
    var i := Clamp(if k < 0 then |rest| + k + 1 else k, |rest|);
    NoneNamedBefore(rest, i, Uids(uids));
  }

  lemma NoneNamedBefore(q: seq<QueueItem>, i: nat, uids: set<string>)
    requires i <= |q|
    ensures |Without(q[..i], uids)| == i - NamedAmong(q[..i], uids)
    ensures NamedAmong(q[..i], uids) == 0 <==> forall j :: 0 <= j < i ==> q[j].uid !in uids
  {
    WithoutCounts(q[..i], uids);
    assert forall j :: 0 <= j < i ==> q[..i][j] == q[j];
  }

  /** The named items stand together in the order requested, from index `i` on. */
  ghost predicate StandsAt(q: seq<QueueItem>, uids: seq<string>, i: nat) {
    i + |uids| <= |q| && forall j :: 0 <= j < |uids| ==> q[i + j].uid == uids[j]
  }

  lemma {:induction false} AllNamedGone(q: seq<QueueItem>, named: set<string>)
    requires forall j :: 0 <= j < |q| ==> q[j].uid in named
    ensures Without(q, named) == []
  {
    if q != [] {
      AllNamedGone(q[1..], named);
    }
  }

  lemma WithoutMiddle(a: seq<QueueItem>, b: seq<QueueItem>, c: seq<QueueItem>, named: set<string>)
    requires forall j :: 0 <= j < |a| ==> a[j].uid !in named
    requires forall j :: 0 <= j < |b| ==> b[j].uid in named
    requires forall j :: 0 <= j < |c| ==> c[j].uid !in named
    ensures Without((a + b) + c, named) == a + c
  {
    WithoutConcat(a + b, c, named);
    WithoutConcat(a, b, named);
    WithoutAbsent(a, named);
    WithoutAbsent(c, named);
    AllNamedGone(b, named);
    assert a + [] == a;
  }

  lemma InThree(q: seq<QueueItem>, i: nat, n: nat)
    requires i <= n <= |q|
    ensures q == (q[..i] + q[i..n]) + q[n..]
  {
  }

  lemma OthersAround(q: seq<QueueItem>, uids: seq<string>, i: nat)
    requires Distinct(q) && StandsAt(q, uids, i)
    ensures Without(q, Uids(uids)) == q[..i] + q[i + |uids|..]
  {
    var n, named := i + |uids|, Uids(uids);
    forall j | 0 <= j < |q|
      ensures q[j].uid in named <==> i <= j < n
    {
      if i <= j < n {
        assert q[i + (j - i)].uid == uids[j - i];
      }
      if q[j].uid in named {
        var m :| 0 <= m < |uids| && uids[m] == q[j].uid;
        assert q[i + m].uid == q[j].uid;
      }
    }
    InThree(q, i, n);
    WithoutMiddle(q[..i], q[i..n], q[n..], named);
  }

  lemma SplitSame(a: seq<QueueItem>, b: seq<QueueItem>, c: seq<QueueItem>, d: seq<QueueItem>)
    requires a + b == c + d && |a| == |c|
    ensures a == c && b == d
  {
    assert a == (a + b)[..|a|] && c == (c + d)[..|c|];
    assert b == (a + b)[|a|..] && d == (c + d)[|c|..];
  }

  /** A block standing where it is put is put where it stands. */
  lemma BlockInPlace(q: seq<QueueItem>, uids: seq<string>, left: seq<QueueItem>, right: seq<QueueItem>)
    requires Distinct(q) && AllPresent(q, uids) && StandsAt(q, uids, |left|)
    requires left + right == Without(q, Uids(uids))
    ensures forall j :: 0 <= j < |uids| ==> IndexOf(q, uids[j]).Some?
    ensures left + Named(q, uids) + right == q
  {
    var i, n := |left|, |left| + |uids|;
    OthersAround(q, uids, i);
    SplitSame(left, right, q[..i], q[n..]);
    NamedByUid(q, uids, q[i..n]);
    InThree(q, i, n);
  }

  /** An accepted batch move leaves the order of the queue as it was exactly when the items named
      already stood together, in the order of their last mentions, where the block is put. */
  lemma BatchKeepsOrderExactlyWhen(s: Queue, uids: seq<string>, p: Place)
    requires Distinct(s.items) && uids != [] && NoNeighboursEqual(uids)
    requires AllPresent(s.items, uids) && Movable(s.items, uids[0], p)
    ensures Batch(s, uids, p).after.items == s.items
      <==> StandsAt(s.items, Lasts(uids), |Left(s.items, uids, p)|)
  {
    BatchGathersNamed(s, uids, p);
    SameNamed(s.items, uids);
    var q, left, right := s.items, Left(s.items, uids, p), Right(s.items, uids, p);
    if StandsAt(q, Lasts(uids), |left|) {
      BlockInPlace(q, Lasts(uids), left, right);
    }
    if Batch(s, uids, p).after.items == q {
      BlockStands(q, Lasts(uids), left, right);
    }
  }

  /** A refused batch leaves the items as they were, in order, exactly when it names nothing, its first
      move was refused early or put its item back to the end where it stood, or the items it moved
      before the refusal already stood where they were put. */
  lemma RefusedBatchKeepsOrderExactlyWhen(s: Queue, uids: seq<string>, p: Place) returns (n: nat)
    requires Distinct(s.items) && uids != [] && Batch(s, uids, p).result.Err?
    ensures Movable(s.items, uids[0], p) ==> StopsBefore(s.items, uids, n)
    ensures Batch(s, uids, p).after.items == s.items <==>
      if Movable(s.items, uids[0], p)
      then StandsAt(s.items, Lasts(uids[..n]), |Left(s.items, uids[..n], p)|)
      else var k := IndexOf(s.items, uids[0]);
        k.None? || p.before == Some(uids[0]) || p.after == Some(uids[0]) || k.value == |s.items| - 1
  {
    n := 0;
    MoveLands(s, uids[0], p);
    if Movable(s.items, uids[0], p) {
      n := BatchStopsAtRefused(s, uids, p);
      BatchKeepsOrderExactlyWhen(s, uids[..n], p);
    } else {
      RefusedMoveMovesToBack(s, uids[0], p);
    }
  }

  lemma BlockStands(q: seq<QueueItem>, uids: seq<string>, left: seq<QueueItem>, right: seq<QueueItem>)
    requires forall j :: 0 <= j < |uids| ==> IndexOf(q, uids[j]).Some?
    requires left + Named(q, uids) + right == q
    ensures StandsAt(q, uids, |left|)
  {
    assert forall j :: 0 <= j < |uids| ==> q[|left| + j] == Named(q, uids)[j];
  }
}
