/** The `queue_items` table: rows keyed by uid, ordered only by an integer position that the
    statements renumber. Shown to behave as the plain list, operation by operation and over
    every sequence of operations. */
module SqlTable {
  import opened Wrappers
  import opened Models
  import opened QueueList
  import opened Repository

  datatype Row = Row(item: QueueItem, position: int)

  /** The primary key is the uid of the row's item. */
  type Table = map<string, Row>

  // ---- the statements -----------------------------------------------------------------

  /** UPDATE ... SET position = position + d WHERE position >= p */
  function ShiftFrom(t: Table, p: int, d: int): Table {
    map u | u in t :: if t[u].position >= p then t[u].(position := t[u].position + d) else t[u]
  }

  function InsertRow(t: Table, item: QueueItem, index: Option<int>): Table {
    var pos := if index.None? then |t| else Clamp(index.value, |t|);
    ShiftFrom(t, pos, 1)[item.uid := Row(item, pos)]
  }

  function DeleteRow(t: Table, uid: string): Table
    requires uid in t
  {
    ShiftFrom(t - {uid}, t[uid].position + 1, -1)
  }

  /** The assignments of `replace`; position and creation time are not among them. */
  function ReplaceRow(t: Table, item: QueueItem): Table
    requires item.uid in t
  {
    var row := t[item.uid];
    t[item.uid := row.(item := item.(createdAt := row.item.createdAt))]
  }

  /** SELECT ... ORDER BY position LIMIT 1: some row no other row precedes. */
  ghost predicate IsFirst(t: Table, uid: string) {
    uid in t && forall u :: u in t ==> t[uid].position <= t[u].position
  }

  /** `pop_front` deletes that row and renumbers every other one. */
  function DeleteFirst(t: Table, uid: string): Table {
    var rest := t - {uid};
    map u | u in rest :: rest[u].(position := rest[u].position - 1)
  }

  /** SELECT ... ORDER BY position: every row once, positions ascending, ties in any order. */
  ghost predicate IsListing(t: Table, rows: seq<QueueItem>) {
    && |rows| == |t|
    && Distinct(rows)
    && (forall i :: 0 <= i < |rows| ==> rows[i].uid in t && t[rows[i].uid].item == rows[i])
    && (forall i, j :: 0 <= i < j < |rows| ==> t[rows[i].uid].position <= t[rows[j].uid].position)
  }

  /** One operation against the table, with the answers the database may give. */
  ghost predicate SqlStep(t: Table, op: Op, t': Table, reply: Reply) {
    match op
    case ListItems => t' == t && reply.Listing? && IsListing(t, reply.items)
    case GetItem(uid) => t' == t && reply == Found(if uid in t then Some(t[uid].item) else None)
    case Insert(item, index) =>
      if item.uid in t then t' == t && reply == Refused(DuplicateUid)
      else t' == InsertRow(t, item, index) && reply == Done
    case Replace(item) =>
      if item.uid !in t then t' == t && reply == Refused(NoSuchUid)
      else t' == ReplaceRow(t, item) && reply == Done
    case Remove(uid) =>
      if uid !in t then t' == t && reply == Refused(NoSuchUid)
      else t' == DeleteRow(t, uid) && reply == Removed(t[uid].item)
    case Move(uid, to) =>
      if uid !in t then t' == t && reply == Refused(NoSuchUid)
      else t' == InsertRow(DeleteRow(t, uid), t[uid].item, Some(to)) && reply == Done
    case ClearAll => t' == map[] && reply == Counted(|t|)
    case PopFront =>
      if |t| == 0 then t' == t && reply == Found(None)
      else exists uid :: IsFirst(t, uid) && t' == DeleteFirst(t, uid) && reply == Found(Some(t[uid].item))
  }

  // ---- the list a table stands for ----------------------------------------------------

  /** Equal in the eight fields that `replace` writes and the key. */
  ghost predicate Same(a: QueueItem, b: QueueItem) {
    a.(createdAt := 0.0) == b.(createdAt := 0.0)
  }

  ghost predicate SameAll(a: seq<QueueItem>, b: seq<QueueItem>) {
    |a| == |b| && forall i :: 0 <= i < |a| ==> Same(a[i], b[i])
  }

  /** Item `i` of the list is the row at position `i`. */
  ghost predicate Listed(t: Table, q: seq<QueueItem>) {
    forall i :: 0 <= i < |q| ==> q[i].uid in t && t[q[i].uid].position == i && Same(t[q[i].uid].item, q[i])
  }

  /** Every row is an item of the list. */
  ghost predicate Indexed(t: Table, q: seq<QueueItem>) {
    forall u :: u in t ==> t[u].item.uid == u && 0 <= t[u].position < |q| && q[t[u].position].uid == u
  }

  /** Row by row the table is the list, and there is no other row. */
  ghost predicate Represents(t: Table, q: seq<QueueItem>) {
    Distinct(q) && |t| == |q| && Listed(t, q) && Indexed(t, q)
  }

  ghost predicate SameReply(a: Reply, b: Reply) {
    match (a, b)
    case (Listing(x), Listing(y)) => SameAll(x, y)
    case (Found(Some(x)), Found(Some(y))) => Same(x, y)
    case (Removed(x), Removed(y)) => Same(x, y)
    case _ => a == b
  }

  /** Positions are a permutation of 0 .. n-1: in range, and no two rows share one. */
  ghost predicate Dense(t: Table) {
    && (forall u :: u in t ==> t[u].item.uid == u && 0 <= t[u].position < |t|)
    && (forall u, v :: u in t && v in t && t[u].position == t[v].position ==> u == v)
  }

  lemma KeyIsIndexed(t: Table, q: seq<QueueItem>, uid: string)
    requires Represents(t, q)
    ensures uid in t <==> IndexOf(q, uid).Some?
    ensures uid in t ==> IndexOf(q, uid) == Some(t[uid].position)
  {
    if uid in t {
      IndexOfAt(q, t[uid].position);
    }
  }

  lemma InsertRowAt(t: Table, item: QueueItem, index: Option<int>, u: string)
    requires item.uid !in t
    ensures var i := if index.None? then |t| else Clamp(index.value, |t|);
      && (u in InsertRow(t, item, index) <==> u in t || u == item.uid)
      && (u in t ==>
            InsertRow(t, item, index)[u]
            == Row(t[u].item, if t[u].position >= i then t[u].position + 1 else t[u].position))
  {
  }

  lemma InsertRowCount(t: Table, item: QueueItem, index: Option<int>)
    requires item.uid !in t
    ensures |InsertRow(t, item, index)| == |t| + 1
  {
    var t' := InsertRow(t, item, index);
    assert t'.Keys == t.Keys + {item.uid};
    assert |t'| == |t'.Keys| == |t.Keys| + 1;
  }

  lemma InsertIsListed(t: Table, q: seq<QueueItem>, a: QueueItem, b: QueueItem, index: Option<int>)
    requires Represents(t, q) && Same(a, b) && a.uid !in t
    ensures var i := if index.None? then |q| else Clamp(index.value, |q|);
      Listed(InsertRow(t, a, index), InsertAt(q, i, b))
  {
    var i := if index.None? then |q| else Clamp(index.value, |q|);
    var t', q' := InsertRow(t, a, index), InsertAt(q, i, b);
    forall j | 0 <= j < |q'|
      ensures q'[j].uid in t' && t'[q'[j].uid].position == j && Same(t'[q'[j].uid].item, q'[j])
    {
      if j != i {
        var k := if j < i then j else j - 1;
        assert q'[j] == q[k];
        InsertRowAt(t, a, index, q[k].uid);
      }
    }
  }

  lemma InsertIndexesRow(t: Table, q: seq<QueueItem>, a: QueueItem, b: QueueItem, index: Option<int>, u: string)
    requires a.uid !in t && u in t && |t| == |q|
    requires t[u].item.uid == u && 0 <= t[u].position < |q| && q[t[u].position].uid == u
    ensures var i := if index.None? then |q| else Clamp(index.value, |q|);
      var t', q' := InsertRow(t, a, index), InsertAt(q, i, b);
      u in t' && t'[u].item.uid == u && 0 <= t'[u].position < |q'| && q'[t'[u].position].uid == u
  {
    var i := if index.None? then |q| else Clamp(index.value, |q|);
    var p := t[u].position;
    InsertRowAt(t, a, index, u);
    InsertShifts(q, i, b, p);
  }

  lemma InsertIsIndexed(t: Table, q: seq<QueueItem>, a: QueueItem, b: QueueItem, index: Option<int>)
    requires Represents(t, q) && a.uid == b.uid && a.uid !in t
    ensures var i := if index.None? then |q| else Clamp(index.value, |q|);
      Indexed(InsertRow(t, a, index), InsertAt(q, i, b))
  {
    var i := if index.None? then |q| else Clamp(index.value, |q|);
    var t', q' := InsertRow(t, a, index), InsertAt(q, i, b);
    forall u | u in t'
      ensures t'[u].item.uid == u && 0 <= t'[u].position < |q'| && q'[t'[u].position].uid == u
    {
      if u in t {
        InsertIndexesRow(t, q, a, b, index, u);
      } else {
        InsertRowAt(t, a, index, u);
      }
    }
  }

  lemma InsertRepresents(t: Table, q: seq<QueueItem>, a: QueueItem, b: QueueItem, index: Option<int>)
    requires Represents(t, q) && Same(a, b) && a.uid !in t
    ensures var i := if index.None? then |q| else Clamp(index.value, |q|);
      Represents(InsertRow(t, a, index), InsertAt(q, i, b))
  {
    KeyIsIndexed(t, q, a.uid);
    InsertKeepsDistinct(q, if index.None? then |q| else Clamp(index.value, |q|), b);
    InsertIsListed(t, q, a, b, index);
    InsertIsIndexed(t, q, a, b, index);
    InsertRowCount(t, a, index);
  }

  lemma DeleteRowCount(t: Table, uid: string)
    requires uid in t
    ensures |DeleteRow(t, uid)| == |t| - 1
  {
    var t' := DeleteRow(t, uid);
    assert t'.Keys == t.Keys - {uid};
    assert |t'| == |t'.Keys| == |t.Keys| - 1;
  }

  lemma DeleteRowAt(t: Table, uid: string, u: string)
    requires uid in t
    ensures u in DeleteRow(t, uid) <==> u in t && u != uid
    ensures u in t && u != uid ==>
      DeleteRow(t, uid)[u]
      == Row(t[u].item, if t[u].position > t[uid].position then t[u].position - 1 else t[u].position)
  {
  }

  lemma DeleteIsListed(t: Table, q: seq<QueueItem>, uid: string)
    requires Represents(t, q) && uid in t
    ensures Listed(DeleteRow(t, uid), RemoveAt(q, t[uid].position))
  {
    var i := t[uid].position;
    var t', q' := DeleteRow(t, uid), RemoveAt(q, i);
    forall j | 0 <= j < |q'|
      ensures q'[j].uid in t' && t'[q'[j].uid].position == j && Same(t'[q'[j].uid].item, q'[j])
    {
      var k := if j < i then j else j + 1;
      assert q'[j] == q[k];
      DeleteRowAt(t, uid, q[k].uid);
    }
  }

  lemma DeleteIsIndexed(t: Table, q: seq<QueueItem>, uid: string)
    requires Represents(t, q) && uid in t
    ensures Indexed(DeleteRow(t, uid), RemoveAt(q, t[uid].position))
  {
    var i := t[uid].position;
    var t', q' := DeleteRow(t, uid), RemoveAt(q, i);
    forall u | u in t'
      ensures t'[u].item.uid == u && 0 <= t'[u].position < |q'| && q'[t'[u].position].uid == u
    {
      DeleteRowAt(t, uid, u);
      var p := t[u].position;
      assert q[p].uid == u != uid == q[i].uid;
      assert q'[if p < i then p else p - 1] == q[p];
    }
  }

  lemma DeleteRepresents(t: Table, q: seq<QueueItem>, uid: string)
    requires Represents(t, q) && uid in t
    ensures Represents(DeleteRow(t, uid), RemoveAt(q, t[uid].position))
  {
    RemoveKeepsDistinct(q, t[uid].position);
    DeleteIsListed(t, q, uid);
    DeleteIsIndexed(t, q, uid);
    DeleteRowCount(t, uid);
  }

  /** Popping the first row renumbers as deleting it does. */
  lemma PopIsDelete(t: Table, q: seq<QueueItem>, uid: string)
    requires Represents(t, q) && uid in t && t[uid].position == 0
    ensures DeleteFirst(t, uid) == DeleteRow(t, uid)
  {
    forall u | u in t && u != uid
      ensures t[u].position >= 1
    {
      assert q[t[u].position].uid == u;
    }
  }

  /** The first row is the head of the list. */
  lemma PopRepresents(t: Table, q: seq<QueueItem>, uid: string)
    requires Represents(t, q) && IsFirst(t, uid)
    ensures q != [] && q[0].uid == uid && Same(t[uid].item, q[0])
    ensures Represents(DeleteFirst(t, uid), q[1..])
  {
    assert t[q[0].uid].position == 0;
    assert t[uid].position == 0;
    PopIsDelete(t, q, uid);
    DeleteRepresents(t, q, uid);
    assert RemoveAt(q, 0) == q[1..];
  }

  lemma ReplaceRepresents(t: Table, q: seq<QueueItem>, item: QueueItem)
    requires Represents(t, q) && item.uid in t
    ensures Represents(ReplaceRow(t, item), q[t[item.uid].position := item])
  {
    var t' := ReplaceRow(t, item);
    assert t'.Keys == t.Keys;
    assert |t'| == |t'.Keys|;
  }

  /** Ascending positions without gaps leave only one order: that of the list. */
  lemma {:induction false} ListingInOrder(t: Table, q: seq<QueueItem>, rows: seq<QueueItem>, k: nat)
    requires Represents(t, q) && IsListing(t, rows) && k <= |rows|
    ensures forall i :: 0 <= i < k ==> t[rows[i].uid].position >= i
    ensures forall i :: |rows| - k <= i < |rows| ==> t[rows[i].uid].position <= i
  {
    if k > 0 {
      ListingInOrder(t, q, rows, k - 1);
      if k > 1 {
        PositionsDiffer(t, q, rows, k - 2, k - 1);
        PositionsDiffer(t, q, rows, |rows| - k, |rows| - k + 1);
      }
    }
  }

  lemma PositionsDiffer(t: Table, q: seq<QueueItem>, rows: seq<QueueItem>, i: nat, j: nat)
    requires Represents(t, q) && IsListing(t, rows) && i < j < |rows|
    ensures t[rows[i].uid].position < t[rows[j].uid].position
  {
    assert q[t[rows[i].uid].position].uid == rows[i].uid != rows[j].uid;
  }

  lemma ListingIsList(t: Table, q: seq<QueueItem>, rows: seq<QueueItem>)
    requires Represents(t, q) && IsListing(t, rows)
    ensures SameAll(rows, q)
  {
    ListingInOrder(t, q, rows, |rows|);
    forall i | 0 <= i < |rows|
      ensures Same(rows[i], q[i])
    {
      assert t[rows[i].uid].position == i;
      assert q[i].uid == rows[i].uid;
    }
  }

  // ---- the refinement -----------------------------------------------------------------

  lemma PopRefines(t: Table, q: seq<QueueItem>, t': Table, reply: Reply)
    requires Represents(t, q) && SqlStep(t, PopFront, t', reply)
    ensures Represents(t', ListStep(q, PopFront).0) && SameReply(reply, ListStep(q, PopFront).1)
  {
    if |t| != 0 {
      var uid :| IsFirst(t, uid) && t' == DeleteFirst(t, uid) && reply == Found(Some(t[uid].item));
      PopRepresents(t, q, uid);
    }
  }

  lemma InsertRefines(t: Table, q: seq<QueueItem>, item: QueueItem, index: Option<int>, t': Table, reply: Reply)
    requires Represents(t, q) && SqlStep(t, Insert(item, index), t', reply)
    ensures Represents(t', ListStep(q, Insert(item, index)).0)
    ensures SameReply(reply, ListStep(q, Insert(item, index)).1)
  {
    KeyIsIndexed(t, q, item.uid);
    if item.uid !in t {
      InsertRepresents(t, q, item, item, index);
    }
  }

  lemma ReplaceRefines(t: Table, q: seq<QueueItem>, item: QueueItem, t': Table, reply: Reply)
    requires Represents(t, q) && SqlStep(t, Replace(item), t', reply)
    ensures Represents(t', ListStep(q, Replace(item)).0) && SameReply(reply, ListStep(q, Replace(item)).1)
  {
    KeyIsIndexed(t, q, item.uid);
    if item.uid in t {
      ReplaceRepresents(t, q, item);
    }
  }

  lemma MoveRefines(t: Table, q: seq<QueueItem>, uid: string, to: int, t': Table, reply: Reply)
    requires Represents(t, q) && SqlStep(t, Move(uid, to), t', reply)
    ensures Represents(t', ListStep(q, Move(uid, to)).0) && SameReply(reply, ListStep(q, Move(uid, to)).1)
  {
    KeyIsIndexed(t, q, uid);
    if uid in t {
      DeleteRepresents(t, q, uid);
      var i := t[uid].position;
      InsertRepresents(DeleteRow(t, uid), RemoveAt(q, i), t[uid].item, q[i], Some(to));
    }
  }

  /** Whatever the database answers, the table keeps standing for the list the same operation
      leaves, and the answer is the list's answer. */
  lemma StepRefines(t: Table, q: seq<QueueItem>, op: Op, t': Table, reply: Reply)
    requires Represents(t, q) && SqlStep(t, op, t', reply)
    ensures Represents(t', ListStep(q, op).0) && SameReply(reply, ListStep(q, op).1)
  {
    match op
    case ListItems => ListingIsList(t, q, reply.items);
    case GetItem(uid) => KeyIsIndexed(t, q, uid);
    case Insert(item, index) => InsertRefines(t, q, item, index, t', reply);
    case Replace(item) => ReplaceRefines(t, q, item, t', reply);
    case Remove(uid) =>
      KeyIsIndexed(t, q, uid);
      if uid in t {
        DeleteRepresents(t, q, uid);
      }
    case Move(uid, to) => MoveRefines(t, q, uid, to, t', reply);
    case ClearAll =>
    case PopFront => PopRefines(t, q, t', reply);
  }

  /** A table on which the operations `ops` were run, with the answers they gave. */
  ghost predicate SqlRun(t: Table, ops: seq<Op>, replies: seq<Reply>, t': Table)
    decreases |ops|
  {
    if ops == [] then replies == [] && t' == t
    else replies != [] && exists u :: SqlStep(t, ops[0], u, replies[0]) && SqlRun(u, ops[1..], replies[1..], t')
  }

  /** The list after the operations, and the answers it gave. */
  function ListRun(q: seq<QueueItem>, ops: seq<Op>): (seq<QueueItem>, seq<Reply>)
    decreases |ops|
  {
    if ops == [] then (q, [])
    else
      var (p, r) := ListStep(q, ops[0]);
      var (p', rs) := ListRun(p, ops[1..]);
      (p', [r] + rs)
  }

  ghost predicate SameReplies(a: seq<Reply>, b: seq<Reply>) {
    |a| == |b| && forall i :: 0 <= i < |a| ==> SameReply(a[i], b[i])
  }

  lemma SameRepliesMore(a: seq<Reply>, r: Reply, rest: seq<Reply>)
    requires a != [] && SameReply(a[0], r) && SameReplies(a[1..], rest)
    ensures SameReplies(a, [r] + rest)
  {
    assert a == [a[0]] + a[1..];
  }

  /** For every sequence of operations the table gives the list's answers and stands for the
      list's contents, with dense positions at the end. */
  lemma {:induction false} RunRefines(t: Table, q: seq<QueueItem>, ops: seq<Op>, replies: seq<Reply>, t': Table)
    requires Represents(t, q) && SqlRun(t, ops, replies, t')
    ensures Represents(t', ListRun(q, ops).0) && Dense(t')
    ensures SameReplies(replies, ListRun(q, ops).1)
    decreases |ops|
  {
    if ops != [] {
      var u :| SqlStep(t, ops[0], u, replies[0]) && SqlRun(u, ops[1..], replies[1..], t');
      StepRefines(t, q, ops[0], u, replies[0]);
      RunRefines(u, ListStep(q, ops[0]).0, ops[1..], replies[1..], t');
      var p := ListStep(q, ops[0]);
      SameRepliesMore(replies, p.1, ListRun(p.0, ops[1..]).1);
    }
  }

  // ---- creation times included ----------------------------------------------------------

  /** Item `i` of the list is stored as it is, creation time and all. */
  ghost predicate StoredWhole(t: Table, q: seq<QueueItem>) {
    forall i :: 0 <= i < |q| ==> q[i].uid in t && t[q[i].uid].item == q[i]
  }

  /** What the list has to do instead of `op`: replace an item by one of the old creation time. */
  function KeepingTime(q: seq<QueueItem>, op: Op): Op {
    if op.Replace? && IndexOf(q, op.item.uid).Some?
    then Replace(op.item.(createdAt := q[IndexOf(q, op.item.uid).value].createdAt))
    else op
  }

  function KeepingTimes(q: seq<QueueItem>, ops: seq<Op>): seq<Op>
    decreases |ops|
  {
    if ops == [] then []
    else var op := KeepingTime(q, ops[0]); [op] + KeepingTimes(ListStep(q, op).0, ops[1..])
  }

  lemma InsertStoresWhole(t: Table, q: seq<QueueItem>, x: QueueItem, index: Option<int>)
    requires StoredWhole(t, q) && |t| == |q| && x.uid !in t
    ensures StoredWhole(InsertRow(t, x, index), InsertAt(q, if index.None? then |q| else Clamp(index.value, |q|), x))
  {
    var i := if index.None? then |q| else Clamp(index.value, |q|);
    var t', q' := InsertRow(t, x, index), InsertAt(q, i, x);
    forall j | 0 <= j < |q'|
      ensures q'[j].uid in t' && t'[q'[j].uid].item == q'[j]
    {
      if j != i {
        var k := if j < i then j else j - 1;
        assert q'[j] == q[k];
        InsertRowAt(t, x, index, q[k].uid);
      }
    }
  }

  lemma DeleteStoresWhole(t: Table, q: seq<QueueItem>, i: nat)
    requires StoredWhole(t, q) && Distinct(q) && i < |q|
    ensures StoredWhole(DeleteRow(t, q[i].uid), RemoveAt(q, i))
  {
    var t', q' := DeleteRow(t, q[i].uid), RemoveAt(q, i);
    forall j | 0 <= j < |q'|
      ensures q'[j].uid in t' && t'[q'[j].uid].item == q'[j]
    {
      var k := if j < i then j else j + 1;
      assert q'[j] == q[k];
      DeleteRowAt(t, q[i].uid, q[k].uid);
    }
  }

  lemma ReplaceStoresWhole(t: Table, q: seq<QueueItem>, item: QueueItem)
    requires StoredWhole(t, q) && Distinct(q) && IndexOf(q, item.uid).Some?
    ensures var i := IndexOf(q, item.uid).value;
      StoredWhole(ReplaceRow(t, item), q[i := item.(createdAt := q[i].createdAt)])
  {
  }

  lemma ListingIsWholeList(t: Table, q: seq<QueueItem>, rows: seq<QueueItem>)
    requires Represents(t, q) && StoredWhole(t, q) && IsListing(t, rows)
    ensures rows == q
  {
    ListingIsList(t, q, rows);
    forall i | 0 <= i < |rows|
      ensures rows[i] == q[i]
    {
      assert Same(rows[i], q[i]);
    }
  }

  lemma MoveStoresWhole(t: Table, q: seq<QueueItem>, i: nat, to: int)
    requires Represents(t, q) && StoredWhole(t, q) && i < |q|
    ensures StoredWhole(InsertRow(DeleteRow(t, q[i].uid), q[i], Some(to)),
                        InsertAt(RemoveAt(q, i), Clamp(to, |q| - 1), q[i]))
  {
    DeleteStoresWhole(t, q, i);
    DeleteRowCount(t, q[i].uid);
    DeleteRowAt(t, q[i].uid, q[i].uid);
    InsertStoresWhole(DeleteRow(t, q[i].uid), RemoveAt(q, i), q[i], Some(to));
  }

  lemma ReplaceRefinesWhole(t: Table, q: seq<QueueItem>, item: QueueItem, t': Table, reply: Reply)
    requires Represents(t, q) && StoredWhole(t, q) && SqlStep(t, Replace(item), t', reply)
    ensures var r := ListStep(q, KeepingTime(q, Replace(item))); StoredWhole(t', r.0) && reply == r.1
  {
    KeyIsIndexed(t, q, item.uid);
    if item.uid in t {
      ReplaceStoresWhole(t, q, item);
    }
  }

  lemma RemoveRefinesWhole(t: Table, q: seq<QueueItem>, uid: string, t': Table, reply: Reply)
    requires Represents(t, q) && StoredWhole(t, q) && SqlStep(t, Remove(uid), t', reply)
    ensures StoredWhole(t', ListStep(q, Remove(uid)).0) && reply == ListStep(q, Remove(uid)).1
  {
    KeyIsIndexed(t, q, uid);
    if uid in t {
      DeleteStoresWhole(t, q, t[uid].position);
    }
  }

  lemma RowStoresWhole(t: Table, q: seq<QueueItem>, uid: string)
    requires Represents(t, q) && StoredWhole(t, q) && uid in t
    ensures var i := t[uid].position; 0 <= i < |q| && q[i].uid == uid && t[uid].item == q[i]
  {
  }

  lemma MoveOnList(q: seq<QueueItem>, i: nat, to: int)
    requires Distinct(q) && i < |q|
    ensures ListStep(q, Move(q[i].uid, to)) == (InsertAt(RemoveAt(q, i), Clamp(to, |q| - 1), q[i]), Done)
  {
    IndexOfAt(q, i);
  }

  lemma MoveRefinesWhole(t: Table, q: seq<QueueItem>, uid: string, to: int, t': Table, reply: Reply)
    requires Represents(t, q) && StoredWhole(t, q) && SqlStep(t, Move(uid, to), t', reply)
    ensures StoredWhole(t', ListStep(q, Move(uid, to)).0) && reply == ListStep(q, Move(uid, to)).1
  {
    KeyIsIndexed(t, q, uid);
    if uid in t {
      var i := t[uid].position;
      RowStoresWhole(t, q, uid);
      MoveOnList(q, i, to);
      MoveStoresWhole(t, q, i, to);
    }
  }

  lemma PopRefinesWhole(t: Table, q: seq<QueueItem>, t': Table, reply: Reply)
    requires Represents(t, q) && StoredWhole(t, q) && SqlStep(t, PopFront, t', reply)
    ensures StoredWhole(t', ListStep(q, PopFront).0) && reply == ListStep(q, PopFront).1
  {
    if |t| != 0 {
      var uid :| IsFirst(t, uid) && t' == DeleteFirst(t, uid) && reply == Found(Some(t[uid].item));
      PopRepresents(t, q, uid);
      PopIsDelete(t, q, uid);
      DeleteStoresWhole(t, q, 0);
      assert RemoveAt(q, 0) == q[1..];
    }
  }

  /** With every field: the table's answer is that of the list, and the table stores every item whole, if
      the list keeps the creation time of an item it replaces. */
  lemma StepRefinesWhole(t: Table, q: seq<QueueItem>, op: Op, t': Table, reply: Reply)
    requires Represents(t, q) && StoredWhole(t, q) && SqlStep(t, op, t', reply)
    ensures StoredWhole(t', ListStep(q, KeepingTime(q, op)).0) && reply == ListStep(q, KeepingTime(q, op)).1
  {
    match op
    case ListItems => ListingIsWholeList(t, q, reply.items);
    case GetItem(uid) => KeyIsIndexed(t, q, uid);
    case Insert(item, index) =>
      KeyIsIndexed(t, q, item.uid);
      if item.uid !in t {
        InsertStoresWhole(t, q, item, index);
      }
    case Replace(item) => ReplaceRefinesWhole(t, q, item, t', reply);
    case Remove(uid) => RemoveRefinesWhole(t, q, uid, t', reply);
    case Move(uid, to) => MoveRefinesWhole(t, q, uid, to, t', reply);
    case ClearAll =>
    case PopFront => PopRefinesWhole(t, q, t', reply);
  }

  /** Keeping the time makes no difference to the table. */
  lemma TableKeepsTime(t: Table, q: seq<QueueItem>, op: Op, t': Table, reply: Reply)
    requires Represents(t, q) && SqlStep(t, op, t', reply)
    ensures SqlStep(t, KeepingTime(q, op), t', reply)
  {
  }

  lemma {:induction false} RunRefinesWhole(t: Table, q: seq<QueueItem>, ops: seq<Op>, replies: seq<Reply>, t': Table)
    requires Represents(t, q) && StoredWhole(t, q) && SqlRun(t, ops, replies, t')
    ensures var (p, rs) := ListRun(q, KeepingTimes(q, ops));
      Represents(t', p) && StoredWhole(t', p) && replies == rs
    decreases |ops|
  {
    if ops != [] {
      var u :| SqlStep(t, ops[0], u, replies[0]) && SqlRun(u, ops[1..], replies[1..], t');
      var op := KeepingTime(q, ops[0]);
      StepRefinesWhole(t, q, ops[0], u, replies[0]);
      TableKeepsTime(t, q, ops[0], u, replies[0]);
      StepRefines(t, q, op, u, replies[0]);
      var p := ListStep(q, op).0;
      RunRefinesWhole(u, p, ops[1..], replies[1..], t');
      assert KeepingTimes(q, ops)[1..] == KeepingTimes(p, ops[1..]);
      assert replies == [replies[0]] + replies[1..];
    }
  }

  /** The creation time is the one field in which table and list part: after `replace` the row
      equals the list's item in every field exactly when the times already agreed. */
  lemma ReplaceKeepsCreationTime(t: Table, q: seq<QueueItem>, item: QueueItem)
    requires Represents(t, q) && item.uid in t
    ensures var i := t[item.uid].position;
      ReplaceRow(t, item)[item.uid].item == ListStep(q, Replace(item)).0[i]
      <==> item.createdAt == t[item.uid].item.createdAt
  {
    KeyIsIndexed(t, q, item.uid);
  }
}
