/** The batch move route of the HTTP interface. */
module QueueRoutes {
  import opened Wrappers
  import opened Models
  import opened QueueList
  import opened QueueSpec
  import Repository
  import BatchMove
  import Service = QueueService

  /** Move the first uid to the place, each other directly after its predecessor, and answer with
      the moved items as they are queued. A refusal half-way leaves the moves made before it. */
  method ItemMoveBatch(queue: Service.QueueService, uids: seq<string>, p: Place)
    returns (r: Result<seq<QueueItem>, Refusal>)
    requires queue.Valid()
    modifies queue`revision, queue.repo`items
    ensures queue.Valid()
    ensures var batch := BatchMove.Batch(old(queue.State()), uids, p);
      && queue.State() == batch.after
      && (r.Ok? <==> batch.result.Ok?)
      && (r.Err? ==> batch.result == Err(r.error))
    ensures r.Ok? ==> |r.value| == |uids|
    ensures r.Ok? ==> forall i :: 0 <= i < |uids| ==> Repository.Lookup(queue.repo.items, uids[i]) == Some(r.value[i])
  {
    if uids == [] {
      return Err(NoUids);
    }
    var first := queue.Move(uids[0], p);
    if first.Err? {
      return Err(first.error);
    }
    var i := 1;
    while i < |uids|
      invariant 1 <= i <= |uids| && queue.Valid()
      invariant BatchMove.Chain(queue.State(), uids[i - 1..]) == BatchMove.Batch(old(queue.State()), uids, p)
    {
      var rest := uids[i - 1..];
      assert rest[0] == uids[i - 1] && rest[1] == uids[i] && rest[1..] == uids[i..];
      var one := queue.Move(uids[i], BatchMove.After(uids[i - 1]));
      if one.Err? {
        return Err(one.error);
      }
      i := i + 1;
    }
    BatchMove.BatchKeepsPresent(old(queue.State()), uids, p);
    var moved := GetAll(queue, uids);
    r := Ok(moved);
  }

  /** The queued items of present uids, in the order named. */
  method GetAll(queue: Service.QueueService, uids: seq<string>) returns (items: seq<QueueItem>)
    requires BatchMove.AllPresent(queue.repo.items, uids)
    ensures |items| == |uids|
    ensures forall i :: 0 <= i < |uids| ==> Repository.Lookup(queue.repo.items, uids[i]) == Some(items[i])
  {
    items := [];
    var i := 0;
    while i < |uids|
      invariant 0 <= i <= |uids| && |items| == i
      invariant forall j :: 0 <= j < i ==> Repository.Lookup(queue.repo.items, uids[j]) == Some(items[j])
    {
      assert Has(queue.repo.items, uids[i]);
      var item := queue.Get(uids[i]);
      items := items + [item.value];
      i := i + 1;
    }
  }
}
