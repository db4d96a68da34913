/** What every repository operation does to the ordered queue and what it answers. */
module Repository {
  import opened Wrappers
  import opened Models
  import opened QueueList

  datatype StorageError = DuplicateUid | NoSuchUid

  function ListInsert(q: seq<QueueItem>, item: QueueItem, index: Option<int>): Result<seq<QueueItem>, StorageError> {
    if IndexOf(q, item.uid).Some? then Err(DuplicateUid)
    else Ok(InsertAt(q, if index.None? then |q| else Clamp(index.value, |q|), item))
  }

  function ListReplace(q: seq<QueueItem>, item: QueueItem): Result<seq<QueueItem>, StorageError> {
    var i := IndexOf(q, item.uid);
    if i.None? then Err(NoSuchUid) else Ok(q[i.value := item])
  }

  datatype Op =
    | ListItems
    | GetItem(uid: string)
    | Insert(item: QueueItem, index: Option<int>)
    | Replace(item: QueueItem)
    | Remove(uid: string)
    | Move(uid: string, to: int)
    | ClearAll
    | PopFront

  datatype Reply =
    | Listing(items: seq<QueueItem>)
    | Found(found: Option<QueueItem>)
    | Removed(item: QueueItem)
    | Done
    | Counted(n: nat)
    | Refused(error: StorageError)

  function Lookup(q: seq<QueueItem>, uid: string): Option<QueueItem> {
    var i := IndexOf(q, uid);
    if i.None? then None else Some(q[i.value])
  }

  /** One operation on the list: the list afterwards and the answer. */
  function ListStep(q: seq<QueueItem>, op: Op): (seq<QueueItem>, Reply) {
    match op
    case ListItems => (q, Listing(q))
    case GetItem(uid) => (q, Found(Lookup(q, uid)))
    case Insert(item, index) =>
      var r := ListInsert(q, item, index);
      if r.Ok? then (r.value, Done) else (q, Refused(r.error))
    case Replace(item) =>
      var r := ListReplace(q, item);
      if r.Ok? then (r.value, Done) else (q, Refused(r.error))
    case Remove(uid) =>
      var i := IndexOf(q, uid);
      if i.None? then (q, Refused(NoSuchUid)) else (RemoveAt(q, i.value), Removed(q[i.value]))
    case Move(uid, to) =>
      var i := IndexOf(q, uid);
      if i.None? then (q, Refused(NoSuchUid))
      else var rest := RemoveAt(q, i.value); (InsertAt(rest, Clamp(to, |rest|), q[i.value]), Done)
    case ClearAll => ([], Counted(|q|))
    case PopFront =>
      if q == [] then (q, Found(None)) else (q[1..], Found(Some(q[0])))
  }

  lemma StepKeepsDistinct(q: seq<QueueItem>, op: Op)
    requires Distinct(q)
    ensures Distinct(ListStep(q, op).0)
  {
    match op
    case Insert(item, index) =>
      if IndexOf(q, item.uid).None? {
        InsertKeepsDistinct(q, if index.None? then |q| else Clamp(index.value, |q|), item);
      }
    case Remove(uid) =>
      var i := IndexOf(q, uid);
      if i.Some? {
        RemoveKeepsDistinct(q, i.value);
      }
    case Move(uid, to) =>
      var i := IndexOf(q, uid);
      if i.Some? {
        RemoveKeepsDistinct(q, i.value);
        InsertKeepsDistinct(RemoveAt(q, i.value), Clamp(to, |q| - 1), q[i.value]);
      }
    case _ =>
  }
}
