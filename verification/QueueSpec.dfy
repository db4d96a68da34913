/** What the queue service's operations do to the list and the revision, and what that means
    for positions, order and identity. */
module QueueSpec {
  import opened Wrappers
  import opened Models
  import opened QueueList
  import opened Repository

  /** The `pos` argument: an integer (in Python also a boolean), a word, or any other JSON value. */
  datatype Pos = At(i: int) | Word(w: string) | OtherValue

  datatype Place = Place(pos: Option<Pos>, before: Option<string>, after: Option<string>)

  datatype Refusal =
    | InvalidItem
    | NotInQueue(uid: string)
    | TooManyPlaces
    | InvalidPosition
    | RelativeToItself
    | NoUids
    | Storage(error: StorageError)

  datatype Queue = Queue(items: seq<QueueItem>, revision: nat)

  /** The queue after a call, and what the call returned or raised. */
  datatype Change<+T> = Change(after: Queue, result: Result<T, Refusal>)

  // ---- positions ------------------------------------------------------------------------

  predicate TooMany(p: Place) {
    (p.pos.Some? && p.before.Some?) || (p.pos.Some? && p.after.Some?) || (p.before.Some? && p.after.Some?)
  }

  function IndexOrRefuse(q: seq<QueueItem>, uid: string): Result<nat, Refusal> {
    var i := IndexOf(q, uid);
    if i.None? then Err(NotInQueue(uid)) else Ok(i.value)
  }

  /** `_resolve_index` for an insertion. */
  function ResolveIndex(q: seq<QueueItem>, p: Place): Result<nat, Refusal> {
    if TooMany(p) then Err(TooManyPlaces)
    else if p.before.Some? then IndexOrRefuse(q, p.before.value)
    else if p.after.Some? then
      var r := IndexOrRefuse(q, p.after.value);
      if r.Ok? then Ok(r.value + 1) else r
    else match p.pos
      case None => Ok(|q|)
      case Some(Word(w)) =>
        if w == "back" then Ok(|q|) else if w == "front" then Ok(0) else Err(InvalidPosition)
      case Some(At(i)) => Ok(Clamp(if i < 0 then |q| + i + 1 else i, |q|))
      case Some(OtherValue) => Err(InvalidPosition)
  }

  /** How many of the three ways to name a place are used. */
  ghost function Given(p: Place): nat {
    (if p.pos.Some? then 1 else 0) + (if p.before.Some? then 1 else 0) + (if p.after.Some? then 1 else 0)
  }

  /** Why a place does not resolve: too many are named, or the anchor is not queued, or the position is
      none. */
  ghost predicate RefusedFor(p: Place, e: Refusal) {
    && (e == TooManyPlaces <==> Given(p) > 1)
    && (Given(p) <= 1 && p.before.Some? ==> e == NotInQueue(p.before.value))
    && (Given(p) <= 1 && p.after.Some? ==> e == NotInQueue(p.after.value))
    && (Given(p) <= 1 && p.pos.Some? ==> e == InvalidPosition)
  }

  /** The place names at most one target, and that target exists. */
  ghost predicate Resolvable(q: seq<QueueItem>, p: Place) {
    && Given(p) <= 1
    && (p.before.Some? ==> Has(q, p.before.value))
    && (p.after.Some? ==> Has(q, p.after.value))
    && (p.pos.Some? ==> p.pos.value.At? || (p.pos.value.Word? && p.pos.value.w in {"front", "back"}))
  }

  /** Item `i` of `q` stands where `p` says: directly before or after its anchor, at an end, or
      at the Python index `p.pos` of `q`, clamped to the list. */
  ghost predicate Lands(q: seq<QueueItem>, i: nat, p: Place)
    requires i < |q|
  {
    && (p.before.Some? ==> i + 1 < |q| && q[i + 1].uid == p.before.value)
    && (p.after.Some? ==> 0 < i && q[i - 1].uid == p.after.value)
    && (p.before.None? && p.after.None? ==>
        match p.pos
        case Some(At(k)) =>
          if k >= 0 then i == (if k < |q| then k else |q| - 1)
          else i == (if |q| + k >= 0 then |q| + k else 0)
        case Some(Word(w)) => i == if w == "front" then 0 else |q| - 1
        case _ => i == |q| - 1)
  }

  lemma ResolvesExactlyWhen(q: seq<QueueItem>, p: Place)
    ensures ResolveIndex(q, p).Ok? <==> Resolvable(q, p)
    ensures ResolveIndex(q, p).Ok? ==> ResolveIndex(q, p).value <= |q|
    ensures ResolveIndex(q, p).Err? ==> RefusedFor(p, ResolveIndex(q, p).error)
  {
    if p.before.Some? {
      var i := IndexOf(q, p.before.value);
    }
    if p.after.Some? {
      var i := IndexOf(q, p.after.value);
    }
  }

  /** An item inserted at the resolved index lands where the place says. */
  lemma InsertedLands(q: seq<QueueItem>, p: Place, x: QueueItem)
    requires ResolveIndex(q, p).Ok?
    ensures ResolveIndex(q, p).value <= |q|
    ensures var i := ResolveIndex(q, p).value; Lands(InsertAt(q, i, x), i, p)
  {
    ResolvesExactlyWhen(q, p);
    var i := ResolveIndex(q, p).value;
    var r := InsertAt(q, i, x);
    assert i < |q| ==> r[i + 1] == q[i];
    assert i > 0 ==> r[i - 1] == q[i - 1];
  }

  // ---- add --------------------------------------------------------------------------------

  /** The item as it is stored: a uid already in the queue is exchanged for a new one. */
  function StoredAs(q: seq<QueueItem>, item: QueueItem, newUid: string, now: real): QueueItem {
    if IndexOf(q, item.uid).Some? then item.WithNewUid(newUid, now) else item
  }

  function Add(accepts: QueueItem -> bool, s: Queue, item: QueueItem, p: Place, newUid: string, now: real)
    : Change<(QueueItem, nat)>
  {
    if !accepts(item) then Change(s, Err(InvalidItem))
    else
      var stored := StoredAs(s.items, item, newUid, now);
      match ResolveIndex(s.items, p)
      case Err(e) => Change(s, Err(e))
      case Ok(index) =>
        match ListInsert(s.items, stored, Some(index))
        case Err(e) => Change(s, Err(Storage(e)))
        case Ok(q) =>
          Change(Queue(q, s.revision + 1),
                 match IndexOrRefuse(q, stored.uid) case Ok(i) => Ok((stored, i)) case Err(e) => Err(e))
  }

  /** `add` of a valid item succeeds exactly when its place resolves. The item then stands at the
      returned index, which is where the place says; the others keep their order, uids stay
      distinct, and the revision counts the change. A refusal changes nothing. */
  lemma AddLands(accepts: QueueItem -> bool, s: Queue, item: QueueItem, p: Place, newUid: string, now: real)
    requires Distinct(s.items) && !Has(s.items, newUid)
    ensures var r := Add(accepts, s, item, p, newUid, now);
      && (r.result.Ok? <==> accepts(item) && Resolvable(s.items, p))
      && (r.result.Err? ==> r.after == s)
      && (r.result == Err(InvalidItem) <==> !accepts(item))
      && (accepts(item) && r.result.Err? ==> RefusedFor(p, r.result.error))
      && (r.result.Ok? ==>
            var (stored, i) := r.result.value;
            && i < |r.after.items| && r.after.items[i] == stored
            && stored.Payload() == item.Payload()
            && stored == (if Has(s.items, item.uid) then item.(uid := newUid, createdAt := now) else item)
            && RemoveAt(r.after.items, i) == s.items
            && Lands(r.after.items, i, p)
            && Distinct(r.after.items)
            && r.after.revision == s.revision + 1)
  {
    ResolvesExactlyWhen(s.items, p);
    if accepts(item) && Resolvable(s.items, p) {
      var q := s.items;
      var stored := StoredAs(q, item, newUid, now);
      var i := ResolveIndex(q, p).value;
      assert !Has(q, stored.uid);
      assert IndexOf(q, stored.uid).None?;
      var r := InsertAt(q, i, stored);
      InsertKeepsDistinct(q, i, stored);
      InsertedLands(q, p, stored);
      IndexOfAt(r, i);
      RemoveInserted(q, i, stored);
    }
  }

  // ---- update -----------------------------------------------------------------------------

  function Update(accepts: QueueItem -> bool, s: Queue, item: QueueItem, replaceUid: bool, newUid: string, now: real)
    : Change<QueueItem>
  {
    if !accepts(item) then Change(s, Err(InvalidItem))
    else match IndexOf(s.items, item.uid)
      case None => Change(s, Err(NotInQueue(item.uid)))
      case Some(i) =>
        if replaceUid then
          var renamed := item.WithNewUid(newUid, now);
          var rest := RemoveAt(s.items, i);
          match ListInsert(rest, renamed, Some(i))
          case Err(e) => Change(Queue(rest, s.revision), Err(Storage(e)))
          case Ok(q) => Change(Queue(q, s.revision + 1), Ok(renamed))
        else Change(Queue(s.items[i := item], s.revision + 1), Ok(item))
  }

  /** `update` exchanges one item in place, under its own or a new uid. */
  lemma UpdateInPlace(accepts: QueueItem -> bool, s: Queue, item: QueueItem, replaceUid: bool,
                      newUid: string, now: real)
    requires Distinct(s.items) && !Has(s.items, newUid)
    ensures var r := Update(accepts, s, item, replaceUid, newUid, now);
      && (r.result.Ok? <==> accepts(item) && Has(s.items, item.uid))
      && (r.result.Err? ==> r.after == s)
      && (r.result == Err(InvalidItem) <==> !accepts(item))
      && (r.result.Err? && accepts(item) ==> r.result.error == NotInQueue(item.uid))
      && (r.result.Ok? ==>
            && IndexOf(s.items, item.uid).Some?
            && r.after.items == s.items[IndexOf(s.items, item.uid).value := r.result.value]
            && r.result.value.Payload() == item.Payload()
            && r.result.value == (if replaceUid then item.(uid := newUid, createdAt := now) else item)
            && Distinct(r.after.items)
            && r.after.revision == s.revision + 1)
  {
    var k := IndexOf(s.items, item.uid);
    if k.Some? && accepts(item) {
      var i, q := k.value, s.items;
      if replaceUid {
        var renamed := item.WithNewUid(newUid, now);
        var rest := RemoveAt(q, i);
        assert !Has(rest, newUid) by {
          assert forall j :: 0 <= j < |rest| ==> rest[j] == q[if j < i then j else j + 1];
        }
        assert IndexOf(rest, newUid).None?;
        RemoveKeepsDistinct(q, i);
        InsertKeepsDistinct(rest, i, renamed);
        Exchange(q, i, renamed);
      }
    }
  }

  // ---- move -------------------------------------------------------------------------------

  function Move(s: Queue, uid: string, p: Place): Change<nat> {
    match IndexOf(s.items, uid)
    case None => Change(s, Err(NotInQueue(uid)))
    case Some(k) =>
      if p.before == Some(uid) || p.after == Some(uid) then Change(s, Err(RelativeToItself))
      else
        var item, rest := s.items[k], RemoveAt(s.items, k);
        match ResolveIndex(rest, p)
        case Err(e) => Change(Queue(rest + [item], s.revision), Err(e))
        case Ok(index) =>
          ResolvesExactlyWhen(rest, p);
          var q := InsertAt(rest, index, item);
          Change(Queue(q, s.revision + 1), IndexOrRefuse(q, uid))
  }

  /** The place resolves among the other items. */
  ghost predicate Movable(q: seq<QueueItem>, uid: string, p: Place) {
    var k := IndexOf(q, uid);
    k.Some? && p.before != Some(uid) && p.after != Some(uid) && Resolvable(RemoveAt(q, k.value), p)
  }

  /** `move` succeeds exactly when its place resolves among the other items; the item then stands
      at the returned index, where the place says, and the others keep their order. */
  lemma MoveLands(s: Queue, uid: string, p: Place)
    requires Distinct(s.items)
    ensures var r := Move(s, uid, p);
      && (r.result.Ok? <==> Movable(s.items, uid, p))
      && Distinct(r.after.items)
      && (r.result.Ok? ==>
            var i, k := r.result.value, IndexOf(s.items, uid).value;
            && i < |r.after.items| == |s.items| && r.after.items[i] == s.items[k]
            && RemoveAt(r.after.items, i) == RemoveAt(s.items, k)
            && Lands(r.after.items, i, p)
            && r.after.revision == s.revision + 1)
  {
    var k := IndexOf(s.items, uid);
    if k.Some? {
      var item, rest := s.items[k.value], RemoveAt(s.items, k.value);
      RemoveKeepsDistinct(s.items, k.value);
      ResolvesExactlyWhen(rest, p);
      InsertKeepsDistinct(rest, |rest|, item);
      InsertAtEnd(rest, item);
      if Movable(s.items, uid, p) {
        var i := ResolveIndex(rest, p).value;
        var q := InsertAt(rest, i, item);
        InsertKeepsDistinct(rest, i, item);
        InsertedLands(rest, p, item);
        IndexOfAt(q, i);
        RemoveInserted(rest, i, item);
      }
    }
  }

  lemma MoveKeepsDistinct(s: Queue, uid: string, p: Place)
    requires Distinct(s.items)
    ensures Distinct(Move(s, uid, p).after.items)
  {
    MoveLands(s, uid, p);
  }

  lemma RemovedIsGone(q: seq<QueueItem>, k: nat)
    requires Distinct(q) && k < |q|
    ensures IndexOf(RemoveAt(q, k), q[k].uid).None?
  {
    RemoveKeepsDistinct(q, k);
    assert IndexOf(RemoveAt(q, k), q[k].uid).Some? ==> false;
  }

  lemma ResolvedInRange(q: seq<QueueItem>, p: Place)
    ensures ResolveIndex(q, p).Ok? ==> ResolveIndex(q, p).value <= |q|
  {
    ResolvesExactlyWhen(q, p);
  }

  /** What a refused `move` leaves, case by case. */
  lemma RefusedMoveLeaves(s: Queue, uid: string, p: Place)
    requires Distinct(s.items) && Move(s, uid, p).result.Err?
    ensures var k := IndexOf(s.items, uid);
      Move(s, uid, p).after ==
        if k.None? || p.before == Some(uid) || p.after == Some(uid) then s
        else Queue(RemoveAt(s.items, k.value) + [s.items[k.value]], s.revision)
    ensures var k, e := IndexOf(s.items, uid), Move(s, uid, p).result.error;
      && (k.None? ==> e == NotInQueue(uid))
      && (k.Some? && (p.before == Some(uid) || p.after == Some(uid)) ==> e == RelativeToItself)
      && (k.Some? && p.before != Some(uid) && p.after != Some(uid) ==> RefusedFor(p, e))
  {
    MoveLands(s, uid, p);
    var k := IndexOf(s.items, uid);
    if k.Some? {
      ResolvesExactlyWhen(RemoveAt(s.items, k.value), p);
    }
  }

  lemma ToBackChangesUnlessLast(q: seq<QueueItem>, i: nat)
    requires Distinct(q) && i < |q|
    ensures RemoveAt(q, i) + [q[i]] == q <==> i == |q| - 1
    ensures multiset(RemoveAt(q, i) + [q[i]]) == multiset(q)
    ensures RemoveAt(RemoveAt(q, i) + [q[i]], |q| - 1) == RemoveAt(q, i)
  {
    var r := RemoveAt(q, i) + [q[i]];
    assert q == q[..i] + [q[i]] + q[i + 1..];
    assert i < |q| - 1 ==> r[i] == q[i + 1];
    assert RemoveAt(r, |q| - 1) == RemoveAt(q, i);
  }

  /** A refused `move` keeps every item and the order of the others, but it leaves the queue as it
      was only if it was refused before the item was taken out, or the item was last; otherwise
      the item ends up at the back. The revision does not show it. */
  lemma RefusedMoveMovesToBack(s: Queue, uid: string, p: Place)
    requires Distinct(s.items) && Move(s, uid, p).result.Err?
    ensures var r, k := Move(s, uid, p).after, IndexOf(s.items, uid);
      && r.revision == s.revision
      && multiset(r.items) == multiset(s.items)
      && (r != s ==>
            && k.Some? && |r.items| == |s.items|
            && RemoveAt(r.items, |s.items| - 1) == RemoveAt(s.items, k.value)
            && r.items[|s.items| - 1] == s.items[k.value])
      && (r == s <==>
            k.None? || p.before == Some(uid) || p.after == Some(uid) || k.value == |s.items| - 1)
  {
    RefusedMoveLeaves(s, uid, p);
    var k := IndexOf(s.items, uid);
    if k.Some? {
      ToBackChangesUnlessLast(s.items, k.value);
    }
  }

  // ---- remove -----------------------------------------------------------------------------

  function Remove(s: Queue, uid: string): Change<QueueItem> {
    match IndexOf(s.items, uid)
    case None => Change(s, Err(NotInQueue(uid)))
    case Some(i) => Change(Queue(RemoveAt(s.items, i), s.revision + 1), Ok(s.items[i]))
  }

  /** The loop of `remove_batch` from a point on, given what was removed before. */
  function RemoveBatch(s: Queue, uids: seq<string>, ignoreMissing: bool, removed: seq<QueueItem>)
    : Change<seq<QueueItem>>
    decreases |uids|
  {
    if uids == [] then Change(s, Ok(removed))
    else
      var r := Remove(s, uids[0]);
      match r.result
      case Ok(item) => RemoveBatch(r.after, uids[1..], ignoreMissing, removed + [item])
      case Err(e) =>
        if ignoreMissing then RemoveBatch(s, uids[1..], ignoreMissing, removed) else Change(s, Err(e))
  }

  /** The items whose uid is not in `uids`, in order. */
  function Without(q: seq<QueueItem>, uids: set<string>): (r: seq<QueueItem>)
    ensures forall i :: 0 <= i < |r| ==> r[i].uid !in uids && r[i] in q
  {
    if q == [] then []
    else (if q[0].uid in uids then [] else [q[0]]) + Without(q[1..], uids)
  }

  lemma {:induction false} WithoutConcat(a: seq<QueueItem>, b: seq<QueueItem>, uids: set<string>)
    ensures Without(a + b, uids) == Without(a, uids) + Without(b, uids)
  {
    if a == [] {
      assert a + b == b;
    } else {
      assert (a + b)[1..] == a[1..] + b;
      WithoutConcat(a[1..], b, uids);
    }
  }

  lemma {:induction false} WithoutAbsent(q: seq<QueueItem>, uids: set<string>)
    requires forall i :: 0 <= i < |q| ==> q[i].uid !in uids
    ensures Without(q, uids) == q
  {
    if q != [] {
      WithoutAbsent(q[1..], uids);
    }
  }

  lemma {:induction false} WithoutTwice(q: seq<QueueItem>, a: set<string>, b: set<string>)
    ensures Without(Without(q, a), b) == Without(q, a + b)
  {
    if q != [] {
      WithoutTwice(q[1..], a, b);
      if q[0].uid !in a {
        assert Without(q, a)[1..] == Without(q[1..], a);
      } else {
        assert Without(q, a) == Without(q[1..], a);
      }
    }
  }

  /** Taking one item out of a list with distinct uids. */
  lemma {:induction false} RemoveAtIsWithout(q: seq<QueueItem>, i: nat)
    requires Distinct(q) && i < |q|
    ensures RemoveAt(q, i) == Without(q, {q[i].uid})
  {
    if i == 0 {
      WithoutAbsent(q[1..], {q[0].uid});
      assert RemoveAt(q, 0) == q[1..];
    } else {
      RemoveAtIsWithout(q[1..], i - 1);
      assert q[0].uid != q[i].uid;
      assert RemoveAt(q, i) == [q[0]] + RemoveAt(q[1..], i - 1);
    }
  }

  ghost function Uids(uids: seq<string>): set<string> {
    set i | 0 <= i < |uids| :: uids[i]
  }

  lemma UidsOfFirst(uids: seq<string>)
    requires uids != []
    ensures Uids(uids) == {uids[0]} + Uids(uids[1..])
  {
    assert forall i :: 1 <= i < |uids| ==> uids[i] == uids[1..][i - 1];
  }

  lemma WithoutFirstThenLater(q: seq<QueueItem>, uids: seq<string>)
    requires uids != []
    ensures Without(Without(q, {uids[0]}), Uids(uids[1..])) == Without(q, Uids(uids))
  {
    UidsOfFirst(uids);
    WithoutTwice(q, {uids[0]}, Uids(uids[1..]));
  }

  /** One successful removal. */
  lemma RemoveTakesOne(s: Queue, uid: string)
    requires Distinct(s.items) && IndexOf(s.items, uid).Some?
    ensures var k := IndexOf(s.items, uid).value;
      && Remove(s, uid) == Change(Queue(RemoveAt(s.items, k), s.revision + 1), Ok(s.items[k]))
      && RemoveAt(s.items, k) == Without(s.items, {uid})
      && Distinct(RemoveAt(s.items, k))
      && multiset(RemoveAt(s.items, k)) + multiset{s.items[k]} == multiset(s.items)
  {
    var q, k := s.items, IndexOf(s.items, uid).value;
    RemoveAtIsWithout(q, k);
    RemoveKeepsDistinct(q, k);
    assert q == q[..k] + [q[k]] + q[k + 1..];
  }

  lemma RemoveBatchTakes(s: Queue, uids: seq<string>, ignoreMissing: bool, removed: seq<QueueItem>)
    requires Distinct(s.items) && uids != [] && IndexOf(s.items, uids[0]).Some?
    ensures var item := s.items[IndexOf(s.items, uids[0]).value];
      RemoveBatch(s, uids, ignoreMissing, removed)
      == RemoveBatch(Remove(s, uids[0]).after, uids[1..], ignoreMissing, removed + [item])
  {
  }

  lemma CarryOver(q: seq<QueueItem>, rest: seq<QueueItem>, item: QueueItem, removed: seq<QueueItem>)
    requires multiset(rest) + multiset{item} == multiset(q)
    ensures multiset(rest) + multiset(removed + [item]) == multiset(q) + multiset(removed)
  {
  }

  /** Ignoring missing uids, `remove_batch` leaves exactly the items not named, in order. */
  lemma {:induction false} RemoveBatchLeavesOthers(s: Queue, uids: seq<string>, removed: seq<QueueItem>)
    requires Distinct(s.items)
    ensures var r := RemoveBatch(s, uids, true, removed);
      && r.result.Ok?
      && r.after.items == Without(s.items, Uids(uids))
    decreases |uids|
  {
    if uids == [] {
      WithoutAbsent(s.items, {});
      assert Uids(uids) == {};
    } else {
      var k := IndexOf(s.items, uids[0]);
      WithoutFirstThenLater(s.items, uids);
      if k.Some? {
        RemoveTakesOne(s, uids[0]);
        RemoveBatchTakes(s, uids, true, removed);
        RemoveBatchLeavesOthers(Remove(s, uids[0]).after, uids[1..], removed + [s.items[k.value]]);
      } else {
        WithoutAbsent(s.items, {uids[0]});
        RemoveBatchLeavesOthers(s, uids[1..], removed);
      }
    }
  }

  /** Nothing is lost in a batch removal, refused or not, and every item taken counts one
      revision. */
  lemma {:induction false} RemoveBatchAccounts(s: Queue, uids: seq<string>, ignoreMissing: bool,
                                               removed: seq<QueueItem>)
    requires Distinct(s.items)
    ensures var r := RemoveBatch(s, uids, ignoreMissing, removed);
      && r.after.revision - s.revision == |s.items| - |r.after.items|
      && (r.result.Ok? ==>
            multiset(r.result.value) + multiset(r.after.items) == multiset(s.items) + multiset(removed))
    decreases |uids|
  {
    if uids != [] {
      var k := IndexOf(s.items, uids[0]);
      if k.Some? {
        RemoveTakesOne(s, uids[0]);
        var item := s.items[k.value];
        var t := Remove(s, uids[0]).after;
        RemoveBatchAccounts(t, uids[1..], ignoreMissing, removed + [item]);
        RemoveBatchTakes(s, uids, ignoreMissing, removed);
        CarryOver(s.items, t.items, item, removed);
      } else if ignoreMissing {
        RemoveBatchAccounts(s, uids[1..], ignoreMissing, removed);
      }
    }
  }

  lemma {:induction false} HasWithout(q: seq<QueueItem>, uids: set<string>, uid: string)
    ensures Has(Without(q, uids), uid) <==> Has(q, uid) && uid !in uids
  {
    if q != [] {
      HasWithout(q[1..], uids, uid);
      HasFirst(q, uid);
      if q[0].uid !in uids {
        HasFirst(Without(q, uids), uid);
        assert Without(q, uids)[1..] == Without(q[1..], uids);
      } else {
        assert Without(q, uids) == Without(q[1..], uids);
      }
    }
  }

  lemma HasFirst(q: seq<QueueItem>, uid: string)
    requires q != []
    ensures Has(q, uid) <==> q[0].uid == uid || Has(q[1..], uid)
  {
    if Has(q, uid) && q[0].uid != uid {
      var i :| 0 <= i < |q| && q[i].uid == uid;
      assert q[1..][i - 1].uid == uid;
    } else if Has(q[1..], uid) {
      var i :| 0 <= i < |q| - 1 && q[1..][i].uid == uid;
      assert q[i + 1].uid == uid;
    }
  }

  lemma UidsOfPrefix(uids: seq<string>, m: nat)
    requires m < |uids|
    ensures Uids(uids[..m + 1]) == {uids[0]} + Uids(uids[1..][..m])
  {
    UidsOfFirst(uids[..m + 1]);
    assert uids[..m + 1][1..] == uids[1..][..m];
  }

  ghost predicate TakenInOrder(taken: seq<QueueItem>, before: seq<QueueItem>, uids: seq<string>) {
    && |taken| == |before| + |uids| && before <= taken
    && forall i :: 0 <= i < |uids| ==> taken[|before| + i].uid == uids[i]
  }

  /** The first n named items are queued and named once; the next, if any, is not queued any more. */
  ghost predicate StopsAt(q: seq<QueueItem>, uids: seq<string>, n: nat) {
    && n <= |uids|
    && (forall i :: 0 <= i < n ==> Takeable(q, uids, i))
    && (n < |uids| ==> !Takeable(q, uids, n))
  }

  ghost predicate Takeable(q: seq<QueueItem>, uids: seq<string>, i: nat)
    requires i < |uids|
  {
    Has(q, uids[i]) && uids[i] !in Uids(uids[..i])
  }

  /** What a strict batch of `uids` that stops after n removals leaves and answers. */
  ghost predicate StrictlyRemoved(r: Change<seq<QueueItem>>, s: Queue, uids: seq<string>, n: nat,
                                  removed: seq<QueueItem>)
    requires n <= |uids|
  {
    && r.after == Queue(Without(s.items, Uids(uids[..n])), s.revision + n)
    && (n < |uids| ==> r.result == Err(NotInQueue(uids[n])))
    && (n == |uids| ==> r.result.Ok? && TakenInOrder(r.result.value, removed, uids))
  }

  lemma NothingRemoved(s: Queue, uids: seq<string>, removed: seq<QueueItem>)
    requires uids == [] || IndexOf(s.items, uids[0]).None?
    ensures StopsAt(s.items, uids, 0)
    ensures StrictlyRemoved(RemoveBatch(s, uids, false, removed), s, uids, 0, removed)
  {
    WithoutAbsent(s.items, {});
    assert Uids(uids[..0]) == {};
  }

  lemma OneMoreRemoved(r: Change<seq<QueueItem>>, s: Queue, t: Queue, item: QueueItem, uids: seq<string>, m: nat,
                       removed: seq<QueueItem>)
    requires uids != [] && item.uid == uids[0] && m <= |uids| - 1
    requires t == Queue(Without(s.items, {uids[0]}), s.revision + 1)
    requires StrictlyRemoved(r, t, uids[1..], m, removed + [item])
    ensures StrictlyRemoved(r, s, uids, m + 1, removed)
  {
    UidsOfPrefix(uids, m);
    WithoutTwice(s.items, {uids[0]}, Uids(uids[1..][..m]));
    if m + 1 == |uids| {
      TakenLater(r.result.value, removed, item, uids);
    }
  }

  /** Not ignoring missing uids, `remove_batch` takes the first n named items and stops before one
      that is not queued, or is named a second time. A refusal keeps the removals made
      before it: unlike `add_batch` this is not all-or-nothing. */
  lemma {:induction false} StrictBatchStopsAtMissing(s: Queue, uids: seq<string>, removed: seq<QueueItem>)
    returns (n: nat)
    requires Distinct(s.items)
    ensures StopsAt(s.items, uids, n)
    ensures StrictlyRemoved(RemoveBatch(s, uids, false, removed), s, uids, n, removed)
    decreases |uids|
  {
    n := 0;
    var k := if uids == [] then None else IndexOf(s.items, uids[0]);
    if k.None? {
      NothingRemoved(s, uids, removed);
    } else {
      var t, item := Remove(s, uids[0]).after, s.items[k.value];
      RemoveTakesOne(s, uids[0]);
      RemoveBatchTakes(s, uids, false, removed);
      var m := StrictBatchStopsAtMissing(t, uids[1..], removed + [item]);
      n := m + 1;
      OneMoreRemoved(RemoveBatch(s, uids, false, removed), s, t, item, uids, m, removed);
      StopsOneLater(s.items, uids, m);
    }
  }

  lemma TakenLater(taken: seq<QueueItem>, before: seq<QueueItem>, item: QueueItem, uids: seq<string>)
    requires uids != [] && item.uid == uids[0] && TakenInOrder(taken, before + [item], uids[1..])
    ensures TakenInOrder(taken, before, uids)
  {
    assert taken[|before|] == (before + [item])[|before|];
    forall i | 0 <= i < |uids|
      ensures taken[|before| + i].uid == uids[i]
    {
      if i > 0 {
        assert uids[1..][i - 1] == uids[i];
        assert taken[|before + [item]| + (i - 1)].uid == uids[1..][i - 1];
      }
    }
  }

  lemma TakeableLater(q: seq<QueueItem>, uids: seq<string>, i: nat)
    requires i + 1 < |uids|
    ensures Takeable(q, uids, i + 1) <==> Takeable(Without(q, {uids[0]}), uids[1..], i)
  {
    UidsOfPrefix(uids, i);
    HasWithout(q, {uids[0]}, uids[i + 1]);
  }

  lemma StopsOneLater(q: seq<QueueItem>, uids: seq<string>, m: nat)
    requires uids != [] && Has(q, uids[0]) && StopsAt(Without(q, {uids[0]}), uids[1..], m)
    ensures StopsAt(q, uids, m + 1)
  {
    forall i | 0 <= i < m + 1
      ensures Takeable(q, uids, i)
    {
      if i > 0 {
        TakeableLater(q, uids, i - 1);
      }
    }
    if m + 1 < |uids| {
      TakeableLater(q, uids, m);
    }
  }
}
