/** Queue items, history entries and the engine states the other components exchange. */
module Models {

  /** A JSON value, as plan arguments and metadata carry them. */
  datatype Json =
    | Null
    | Bool(b: bool)
    | Number(n: real)
    | Text(s: string)
    | List(elems: seq<Json>)
    | Object(fields: map<string, Json>)

  datatype QueueItem = QueueItem(
    name: string, itemType: string,
    args: seq<Json>, kwargs: map<string, Json>, meta: map<string, Json>,
    uid: string, user: string, userGroup: string, createdAt: real)
  {
    /** A copy under another identity; `newUid` and `now` stand for the uuid and the clock. */
    function WithNewUid(newUid: string, now: real): QueueItem {
      this.(uid := newUid, createdAt := now)
    }

    /** Everything but the identity and the creation time. */
    function Payload(): QueueItem {
      this.(uid := "", createdAt := 0.0)
    }
  }

  /** Two items have the same payload exactly if they agree in name, type, arguments, metadata and user. */
  lemma SamePayloadExactlyWhen(a: QueueItem, b: QueueItem)
    ensures a.Payload() == b.Payload() <==>
      && a.name == b.name && a.itemType == b.itemType && a.args == b.args && a.kwargs == b.kwargs
      && a.meta == b.meta && a.user == b.user && a.userGroup == b.userGroup
  {
    assert a.Payload() == b.Payload() ==> a.name == a.Payload().name == b.name;
  }

  datatype ItemState = Queued | InProgress | Completed | Failed | Aborted | Stopped | Halted

  /** What an executed item leaves behind. */
  datatype HistoryEntry = HistoryEntry(
    item: QueueItem, state: ItemState, exitStatus: string, runUids: seq<string>,
    timeStart: real, timeStop: real, msg: string, traceback: string)
  {
    predicate Succeeded() {
      exitStatus == "success"
    }
  }

  /** The state an exit status is filed under; an unknown status counts as a failure. */
  function ExitToState(exitStatus: string): ItemState {
    if exitStatus == "success" then Completed
    else if exitStatus == "abort" then Aborted
    else if exitStatus == "stop" then Stopped
    else if exitStatus == "halt" then Halted
    else Failed
  }

  /** The host's view of the engine. */
  datatype EngineState = Starting | NoEngine | Idle | Running | Paused | Closed
}
