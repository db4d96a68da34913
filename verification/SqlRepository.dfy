/** The SQL repository: each method is one transaction of statements on the table. */
module SqlRepository {
  import opened Wrappers
  import opened Models
  import opened QueueList
  import opened Repository
  import opened SqlTable

  /** Some uid has the least position among `uids`. */
  lemma {:induction false} FirstExists(t: Table, uids: set<string>)
    requires uids != {} && uids <= t.Keys
    ensures exists u :: u in uids && forall v :: v in uids ==> t[u].position <= t[v].position
    decreases |uids|
  {
    var x :| x in uids;
    var rest := uids - {x};
    if rest == {} {
      assert uids == {x};
    } else {
      FirstExists(t, rest);
      var u :| u in rest && forall v :: v in rest ==> t[u].position <= t[v].position;
      var first := if t[x].position <= t[u].position then x else u;
      assert first in uids && forall v :: v in uids ==> v == x || v in rest;
    }
  }

  /** `items` are the rows outside `rest`, none of them behind a row of `rest`. */
  ghost predicate ListedSoFar(t: Table, items: seq<QueueItem>, rest: set<string>) {
    && rest <= t.Keys && |items| + |rest| == |t.Keys|
    && Distinct(items)
    && (forall i :: 0 <= i < |items| ==>
          items[i].uid in t && items[i].uid !in rest && t[items[i].uid].item == items[i])
    && (forall i, j :: 0 <= i < j < |items| ==> t[items[i].uid].position <= t[items[j].uid].position)
    && (forall i, u :: 0 <= i < |items| && u in rest ==> t[items[i].uid].position <= t[u].position)
  }

  lemma OneMoreListed(t: Table, items: seq<QueueItem>, rest: set<string>, u: string)
    requires ListedSoFar(t, items, rest) && u in rest && t[u].item.uid == u
    requires forall v :: v in rest ==> t[u].position <= t[v].position
    ensures ListedSoFar(t, items + [t[u].item], rest - {u})
  {
  }

  class SqlQueueRepository {
    var rows: Table

    ghost predicate Valid()
      reads this
    {
      forall u :: u in rows ==> rows[u].item.uid == u
    }

    constructor ()
      ensures rows == map[] && Represents(rows, [])
    {
      rows := map[];
    }

    /** SELECT ... ORDER BY position. */
    method ListItems() returns (items: seq<QueueItem>)
      requires Valid()
      ensures SqlStep(rows, Repository.ListItems, rows, Listing(items))
    {
      items := [];
      var rest := rows.Keys;
      while rest != {}
        invariant ListedSoFar(rows, items, rest)
        decreases |rest|
      {
        FirstExists(rows, rest);
        var u :| u in rest && forall v :: v in rest ==> rows[u].position <= rows[v].position;
        OneMoreListed(rows, items, rest, u);
        items := items + [rows[u].item];
        rest := rest - {u};
      }
    }

    method GetItem(uid: string) returns (r: Option<QueueItem>)
      ensures SqlStep(rows, Repository.GetItem(uid), rows, Found(r))
    {
      r := if uid in rows then Some(rows[uid].item) else None;
    }

    method Insert(item: QueueItem, index: Option<int>) returns (r: Result<(), StorageError>)
      modifies this
      ensures SqlStep(old(rows), Repository.Insert(item, index), rows,
                      match r case Ok(_) => Done case Err(e) => Refused(e))
      ensures old(Valid()) ==> Valid()
    {
      if item.uid in rows {
        return Err(DuplicateUid);
      }
      var count := |rows|;
      var pos := if index.None? then count else Clamp(index.value, count);
      rows := ShiftFrom(rows, pos, 1);
      rows := rows[item.uid := Row(item, pos)];
      r := Ok(());
    }

    method Replace(item: QueueItem) returns (r: Result<(), StorageError>)
      modifies this
      ensures SqlStep(old(rows), Repository.Replace(item), rows,
                      match r case Ok(_) => Done case Err(e) => Refused(e))
      ensures old(Valid()) ==> Valid()
    {
      if item.uid !in rows {
        return Err(NoSuchUid);
      }
      var row := rows[item.uid];
      rows := rows[item.uid := row.(item := item.(createdAt := row.item.createdAt))];
      r := Ok(());
    }

    method Remove(uid: string) returns (r: Result<QueueItem, StorageError>)
      modifies this
      ensures SqlStep(old(rows), Repository.Remove(uid), rows,
                      match r case Ok(x) => Removed(x) case Err(e) => Refused(e))
      ensures old(Valid()) ==> Valid()
    {
      if uid !in rows {
        return Err(NoSuchUid);
      }
      var item, pos := rows[uid].item, rows[uid].position;
      rows := rows - {uid};
      rows := ShiftFrom(rows, pos + 1, -1);
      r := Ok(item);
    }

    /** Two transactions: a removal, then an insertion. */
    method Move(uid: string, to: int) returns (r: Result<(), StorageError>)
      requires Valid()
      modifies this
      ensures SqlStep(old(rows), Repository.Move(uid, to), rows,
                      match r case Ok(_) => Done case Err(e) => Refused(e))
      ensures Valid()
    {
      ghost var before := rows;
      var item := Remove(uid);
      if item.Err? {
        return Err(item.error);
      }
      DeleteRowAt(before, uid, uid);
      r := Insert(item.value, Some(to));
    }

    method ClearItems() returns (n: nat)
      modifies this
      ensures SqlStep(old(rows), ClearAll, rows, Counted(n)) && Valid()
    {
      n := |rows|;
      rows := map[];
    }

    method PopFront() returns (r: Option<QueueItem>)
      modifies this
      ensures SqlStep(old(rows), Repository.PopFront, rows, Found(r))
      ensures old(Valid()) ==> Valid()
    {
      if |rows| == 0 {
        return None;
      }
      assert rows.Keys != {} by {
        assert |rows.Keys| == |rows|;
      }
      FirstExists(rows, rows.Keys);
      var uid :| uid in rows.Keys && forall v :: v in rows.Keys ==> rows[uid].position <= rows[v].position;
      assert IsFirst(rows, uid);
      var item := rows[uid].item;
      rows := rows - {uid};
      rows := map u | u in rows :: rows[u].(position := rows[u].position - 1);
      assert rows == DeleteFirst(old(rows), uid);
      r := Some(item);
    }
  }
}
