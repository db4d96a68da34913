/** The queue service: validated operations on a repository under one lock, with a revision that
    counts changes. */
module QueueService {
  import opened Wrappers
  import opened Models
  import opened QueueList
  import Repository
  import opened MemoryRepository
  import opened QueueSpec
  import AddBatch

  class QueueService {
    const repo: InMemoryQueueRepository
    const accepts: QueueItem -> bool   // `validate`: the registry's verdict on an item
    var revision: nat                  // plan_queue_uid

    constructor (repo: InMemoryQueueRepository, accepts: QueueItem -> bool)
      ensures this.repo == repo && this.accepts == accepts && revision == 0
    {
      this.repo, this.accepts, this.revision := repo, accepts, 0;
    }

    ghost predicate Valid()
      reads this, repo
    {
      Distinct(repo.items)
    }

    function State(): Queue
      reads this, repo
    {
      Queue(repo.items, revision)
    }

    method Get(uid: string) returns (r: Result<QueueItem, Refusal>)
      ensures r == match Repository.Lookup(repo.items, uid) case Some(x) => Ok(x) case None => Err(NotInQueue(uid))
    {
      var item := repo.GetItem(uid);
      r := if item.None? then Err(NotInQueue(uid)) else Ok(item.value);
    }

    method IndexOfUid(uid: string) returns (r: Result<nat, Refusal>)
      ensures r == IndexOrRefuse(repo.items, uid)
    {
      var items := repo.items;
      var i := 0;
      while i < |items|
        invariant 0 <= i <= |items|
        invariant forall j :: 0 <= j < i ==> items[j].uid != uid
      {
        if items[i].uid == uid {
          return Ok(i);
        }
        i := i + 1;
      }
      r := Err(NotInQueue(uid));
    }

    method Resolve(p: Place) returns (r: Result<nat, Refusal>)
      ensures r == ResolveIndex(repo.items, p)
    {
      var n := |repo.items|;
      if TooMany(p) {
        return Err(TooManyPlaces);
      }
      if p.before.Some? {
        r := IndexOfUid(p.before.value);
        return;
      }
      if p.after.Some? {
        r := IndexOfUid(p.after.value);
        return if r.Ok? then Ok(r.value + 1) else r;
      }
      match p.pos
      case None => r := Ok(n);
      case Some(Word(w)) =>
        r := if w == "back" then Ok(n) else if w == "front" then Ok(0) else Err(InvalidPosition);
      case Some(At(i)) =>
        var pos := if i < 0 then n + i + 1 else i;
        r := Ok(Clamp(pos, n));
      case Some(OtherValue) => r := Err(InvalidPosition);
    }

    method Add(item: QueueItem, p: Place, newUid: string, now: real) returns (r: Result<(QueueItem, nat), Refusal>)
      modifies this`revision, repo`items
      ensures Change(State(), r) == QueueSpec.Add(accepts, old(State()), item, p, newUid, now)
    {
      if !accepts(item) {
        return Err(InvalidItem);
      }
      var stored := item;
      var existing := repo.GetItem(item.uid);
      if existing.Some? {
        stored := item.WithNewUid(newUid, now);
      }
      var index := Resolve(p);
      if index.Err? {
        return Err(index.error);
      }
      var inserted := repo.Insert(stored, Some(index.value));
      if inserted.Err? {
        return Err(Storage(inserted.error));
      }
      revision := revision + 1;
      var i := IndexOfUid(stored.uid);
      r := if i.Ok? then Ok((stored, i.value)) else Err(i.error);
    }

    method AddMany(items: seq<QueueItem>, p: Place, ids: seq<string>, now: real)
      returns (r: Result<seq<(QueueItem, nat)>, Refusal>)
      requires |ids| == |items|
      modifies this`revision, repo`items
      ensures Change(State(), r) == AddBatch.Batch(accepts, old(State()), items, p, ids, now)
    {
      var i := 0;
      while i < |items|
        invariant 0 <= i <= |items|
        invariant forall j :: 0 <= j < i ==> accepts(items[j])
      {
        if !accepts(items[i]) {
          return Err(InvalidItem);
        }
        i := i + 1;
      }
      var added: seq<(QueueItem, nat)> := [];
      i := 0;
      while i < |items|
        invariant 0 <= i <= |items|
        invariant AddBatch.AddAll(accepts, State(), items[i..], p, ids[i..], now, added)
               == AddBatch.AddAll(accepts, old(State()), items, p, ids, now, [])
      {
        assert items[i..][0] == items[i] && items[i..][1..] == items[i + 1..];
        assert ids[i..][0] == ids[i] && ids[i..][1..] == ids[i + 1..];
        var one := Add(items[i], p, ids[i], now);
        if one.Err? {
          return Err(one.error);
        }
        added := added + [one.value];
        i := i + 1;
      }
      r := Ok(added);
    }

    method Update(item: QueueItem, replaceUid: bool, newUid: string, now: real) returns (r: Result<QueueItem, Refusal>)
      modifies this`revision, repo`items
      ensures Change(State(), r) == QueueSpec.Update(accepts, old(State()), item, replaceUid, newUid, now)
    {
      if !accepts(item) {
        return Err(InvalidItem);
      }
      var existing := Get(item.uid);
      if existing.Err? {
        return Err(existing.error);
      }
      var newItem := if replaceUid then item.WithNewUid(newUid, now) else item;
      if replaceUid {
        var index := IndexOfUid(item.uid);
        var removed := repo.Remove(item.uid);
        var inserted := repo.Insert(newItem, Some(index.value));
        if inserted.Err? {
          return Err(Storage(inserted.error));
        }
      } else {
        var replaced := repo.Replace(newItem);
      }
      revision := revision + 1;
      r := Ok(newItem);
    }

    method Remove(uid: string) returns (r: Result<QueueItem, Refusal>)
      modifies this`revision, repo`items
      ensures Change(State(), r) == QueueSpec.Remove(old(State()), uid)
    {
      var item := repo.Remove(uid);
      if item.Err? {
        return Err(NotInQueue(uid));
      }
      revision := revision + 1;
      r := Ok(item.value);
    }

    method RemoveMany(uids: seq<string>, ignoreMissing: bool) returns (r: Result<seq<QueueItem>, Refusal>)
      modifies this`revision, repo`items
      ensures Change(State(), r) == QueueSpec.RemoveBatch(old(State()), uids, ignoreMissing, [])
    {
      var removed: seq<QueueItem> := [];
      var i := 0;
      while i < |uids|
        invariant 0 <= i <= |uids|
        invariant QueueSpec.RemoveBatch(State(), uids[i..], ignoreMissing, removed)
               == QueueSpec.RemoveBatch(old(State()), uids, ignoreMissing, [])
      {
        assert uids[i..][0] == uids[i] && uids[i..][1..] == uids[i + 1..];
        var one := Remove(uids[i]);
        if one.Ok? {
          removed := removed + [one.value];
        } else if !ignoreMissing {
          return Err(one.error);
        }
        i := i + 1;
      }
      r := Ok(removed);
    }

    method Move(uid: string, p: Place) returns (r: Result<nat, Refusal>)
      requires Valid()
      modifies this`revision, repo`items
      ensures Change(State(), r) == QueueSpec.Move(old(State()), uid, p)
      ensures Valid()
    {
      ghost var before := State();
      var item := Get(uid);
      if item.Err? {
        return Err(item.error);
      }
      if p.before == Some(uid) || p.after == Some(uid) {
        return Err(RelativeToItself);
      }
      ghost var k := IndexOf(repo.items, uid).value;
      RemovedIsGone(repo.items, k);
      MoveKeepsDistinct(before, uid, p);
      var removed := repo.Remove(uid);
      var index := Resolve(p);
      if index.Err? {
        InsertAtEnd(repo.items, item.value);
        var back := repo.Insert(item.value, Some(|repo.items|));
        return Err(index.error);
      }
      ResolvedInRange(repo.items, p);
      var inserted := repo.Insert(item.value, Some(index.value));
      revision := revision + 1;
      r := IndexOfUid(uid);
    }

    method Clear() returns (n: nat)
      modifies this`revision, repo`items
      ensures n == |old(repo.items)| && State() == Queue([], old(revision) + 1)
    {
      n := repo.ClearItems();
      revision := revision + 1;
    }

    method PopFront() returns (r: Option<QueueItem>)
      modifies this`revision, repo`items
      ensures old(repo.items) == [] ==> r == None && State() == old(State())
      ensures old(repo.items) != [] ==>
        r == Some(old(repo.items[0])) && State() == Queue(old(repo.items)[1..], old(revision) + 1)
    {
      r := repo.PopFront();
      if r.Some? {
        revision := revision + 1;
      }
    }

    /** Put an item first; a uid that is already queued is refused by the repository. */
    method PushFront(item: QueueItem) returns (r: Result<(), Refusal>)
      modifies this`revision, repo`items
      ensures if IndexOf(old(repo.items), item.uid).Some?
        then r == Err(Storage(Repository.DuplicateUid)) && State() == old(State())
        else r == Ok(()) && State() == Queue([item] + old(repo.items), old(revision) + 1)
    {
      var inserted := repo.Insert(item, Some(0));
      if inserted.Err? {
        return Err(Storage(inserted.error));
      }
      revision := revision + 1;
      r := Ok(());
    }

    method RecordHistory(entry: HistoryEntry)
      modifies this`revision, repo`history
      ensures repo.history == old(repo.history) + [entry] && revision == old(revision) + 1
    {
      repo.AppendHistory(entry);
      revision := revision + 1;
    }

    method ClearHistory() returns (n: nat)
      modifies this`revision, repo`history
      ensures n == |old(repo.history)| && repo.history == [] && revision == old(revision) + 1
    {
      n := repo.ClearHistory();
      revision := revision + 1;
    }
  }
}
