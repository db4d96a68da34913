/** The in-memory repository: a list of items and a list of history entries, changed in place. */
module MemoryRepository {
  import opened Wrappers
  import opened Models
  import opened QueueList
  import opened Repository

  class InMemoryQueueRepository {
    var items: seq<QueueItem>
    var history: seq<HistoryEntry>

    constructor ()
      ensures items == [] && history == []
    {
      items, history := [], [];
    }

    method GetItem(uid: string) returns (r: Option<QueueItem>)
      ensures ListStep(items, Repository.GetItem(uid)) == (items, Found(r))
    {
      var i := Find(uid);
      r := if i.None? then None else Some(items[i.value]);
    }

    /** The scan that `get_item`, `replace` and `remove` share. */
    method Find(uid: string) returns (r: Option<nat>)
      ensures r == IndexOf(items, uid)
    {
      var i := 0;
      while i < |items| && items[i].uid != uid
        invariant 0 <= i <= |items|
        invariant forall j :: 0 <= j < i ==> items[j].uid != uid
      {
        i := i + 1;
      }
      r := if i < |items| then Some(i) else None;
    }

    method Insert(item: QueueItem, index: Option<int>) returns (r: Result<(), StorageError>)
      modifies this`items
      ensures items == ListStep(old(items), Repository.Insert(item, index)).0
      ensures r == match ListInsert(old(items), item, index) case Ok(_) => Ok(()) case Err(e) => Err(e)
    {
      var present := Find(item.uid);
      if present.Some? {
        return Err(DuplicateUid);
      }
      var i := if index.None? then |items| else Clamp(index.value, |items|);
      items := items[..i] + [item] + items[i..];
      r := Ok(());
    }

    method Replace(item: QueueItem) returns (r: Result<(), StorageError>)
      modifies this`items
      ensures items == ListStep(old(items), Repository.Replace(item)).0
      ensures r == match ListReplace(old(items), item) case Ok(_) => Ok(()) case Err(e) => Err(e)
    {
      var i := Find(item.uid);
      if i.None? {
        return Err(NoSuchUid);
      }
      items := items[i.value := item];
      r := Ok(());
    }

    method Remove(uid: string) returns (r: Result<QueueItem, StorageError>)
      modifies this`items
      ensures (items, match r case Ok(x) => Removed(x) case Err(e) => Refused(e))
           == ListStep(old(items), Repository.Remove(uid))
    {
      var i := Find(uid);
      if i.None? {
        return Err(NoSuchUid);
      }
      r := Ok(items[i.value]);
      items := items[..i.value] + items[i.value + 1..];
    }

    /** Removing and inserting again; distinct uids make the insertion succeed. */
    method Move(uid: string, to: int) returns (r: Result<(), StorageError>)
      requires Distinct(items)
      modifies this`items
      ensures items == ListStep(old(items), Repository.Move(uid, to)).0
      ensures r == if IndexOf(old(items), uid).None? then Err(NoSuchUid) else Ok(())
    {
      ghost var i := IndexOf(items, uid);
      if i.Some? {
        RemoveKeepsDistinct(items, i.value);
      }
      var item := Remove(uid);
      if item.Err? {
        return Err(item.error);
      }
      r := Insert(item.value, Some(to));
    }

    method ClearItems() returns (n: nat)
      modifies this`items
      ensures n == |old(items)| && items == []
    {
      n := |items|;
      items := [];
    }

    method PopFront() returns (r: Option<QueueItem>)
      modifies this`items
      ensures (items, Found(r)) == ListStep(old(items), Repository.PopFront)
    {
      if items == [] {
        return None;
      }
      r := Some(items[0]);
      items := items[1..];
    }

    method AppendHistory(entry: HistoryEntry)
      modifies this`history
      ensures history == old(history) + [entry]
    {
      history := history + [entry];
    }

    method ClearHistory() returns (n: nat)
      modifies this`history
      ensures n == |old(history)| && history == []
    {
      n := |history|;
      history := [];
    }
  }
}
