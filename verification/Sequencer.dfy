/** The sequencer itself: its fields, its control calls and its loop, each shown to do what the
    state machine's steps say, and a whole loop shown to be one of the machine's runs. */
module Sequencer {
  import opened Wrappers
  import opened Models
  import opened QueueList
  import M = SequencerModel
  import Q = QueueSpec
  import Service = QueueService

  // ---- what one turn of the loop does ---------------------------------------------------

  /** What the surroundings contribute to one turn: the engine's state, how the plan ends, how many
      held entries and whether the new one the database takes, and identities for a copy. */
  datatype Tick = Tick(
    host: EngineState, exitStatus: string, runUids: seq<string>, reason: string, exception: string, traceback: string,
    timeStart: real, timeStop: real, accepted: nat, written: bool, newUid: string, spareUid: string, now: real)

  function Entry(item: QueueItem, t: Tick): HistoryEntry {
    HistoryEntry(item, ExitToState(t.exitStatus), t.exitStatus, t.runUids, t.timeStart, t.timeStop,
                 if t.exception != "" then t.exception else t.reason, t.traceback)
  }

  /** `_record` from beginning to end. */
  function RecordNext(c: M.Core, entry: HistoryEntry, accepted: nat, ok: bool): M.Core {
    var d := M.Write(M.Flush(c, accepted), entry, ok);
    if ok then d else d.(running := false)
  }

  const AT_BACK := Q.Place(None, None, None)

  /** The queue with a copy of the item at its back, if the service takes it. */
  function Requeued(accepts: QueueItem -> bool, q: seq<QueueItem>, item: QueueItem, t: Tick): Option<seq<QueueItem>> {
    var r := Q.Add(accepts, Q.Queue(q, 0), item.WithNewUid(t.newUid, t.now), AT_BACK, t.spareUid, t.now);
    if r.result.Ok? then Some(r.after.items) else None
  }

  lemma RequeuedAtAnyRevision(accepts: QueueItem -> bool, s: Q.Queue, item: QueueItem, t: Tick)
    ensures var r := Q.Add(accepts, s, item.WithNewUid(t.newUid, t.now), AT_BACK, t.spareUid, t.now);
      && (r.result.Ok? ==> Requeued(accepts, s.items, item, t) == Some(r.after.items))
      && (r.result.Err? ==> Requeued(accepts, s.items, item, t) == None && r.after == s)
  {
    var x := Q.StoredAs(s.items, item.WithNewUid(t.newUid, t.now), t.spareUid, t.now);
    if IndexOf(s.items, x.uid).None? {
      var q := InsertAt(s.items, |s.items|, x);
      assert q[|s.items|] == x;
      assert IndexOf(q, x.uid).Some?;
    }
  }

  /** `_run_one` after the outcome is known. */
  function SettleNext(accepts: QueueItem -> bool, c: M.Core, entry: HistoryEntry, t: Tick): M.Core {
    var d := RecordNext(c, entry, t.accepted, t.written);
    if !entry.Succeeded() then M.Halt(d)
    else if !d.loopMode then d
    else
      var q := Requeued(accepts, d.queue, entry.item, t);
      if q.Some? then d.(queue := q.value) else d.(running := false)
  }

  /** One pass of the loop body. */
  function TurnNext(accepts: QueueItem -> bool, c: M.Core, t: Tick): M.Core {
    var (d, go) := M.ShouldRunNext(c, t.host);
    if !go then d
    else if d.queue == [] then M.Halt(d)
    else SettleNext(accepts, d.(queue := d.queue[1..]), Entry(d.queue[0], t), t)
  }

  function LoopNext(accepts: QueueItem -> bool, c: M.Core, ticks: seq<Tick>): M.Core
    decreases |ticks|
  {
    if ticks == [] || c.closing then c else LoopNext(accepts, TurnNext(accepts, c, ticks[0]), ticks[1..])
  }

  // ---- what that means, field by field ------------------------------------------------------

  /** How many held entries the database takes. */
  function Taken(pending: seq<HistoryEntry>, accepted: nat): nat {
    if accepted < |pending| then accepted else |pending|
  }

  lemma FlushWrites(c: M.Core, accepted: nat)
    ensures var d, k := M.Flush(c, accepted), Taken(c.pending, accepted);
      && d.history == c.history + c.pending[..k] && d.pending == c.pending[k..]
      && (d.dbError <==> accepted < |c.pending|)
      && d == c.(history := d.history, pending := d.pending, dbError := d.dbError)
  {
    assert c.pending[..|c.pending|] == c.pending && c.pending[|c.pending|..] == [];
  }

  /** What is recorded about an item: how its plan ended, filed under the state for that. */
  ghost predicate Tells(e: HistoryEntry, item: QueueItem, t: Tick) {
    && e.item == item && e.exitStatus == t.exitStatus && e.runUids == t.runUids
    && e.timeStart == t.timeStart && e.timeStop == t.timeStop && e.traceback == t.traceback
    && (if t.exception == "" then e.msg == t.reason else e.msg == t.exception)
    && (e.state == Completed <==> t.exitStatus == "success")
    && (e.state == Aborted <==> t.exitStatus == "abort")
    && (e.state == Stopped <==> t.exitStatus == "stop")
    && (e.state == ItemState.Halted <==> t.exitStatus == "halt")
    && (e.state == ItemState.Failed <==> t.exitStatus !in {"success", "abort", "stop", "halt"})
  }

  /** After `c`, the held entries the database took are written, and behind them, or behind the others
      that are still held, stands one entry more: the item's. */
  ghost predicate Recorded(c: M.Core, d: M.Core, item: QueueItem, t: Tick) {
    var k := Taken(c.pending, t.accepted);
    && (d.dbError <==> !t.written)
    && if t.written then
         && d.history != [] && Tells(d.history[|d.history| - 1], item, t)
         && d.history[..|d.history| - 1] == c.history + c.pending[..k] && d.pending == c.pending[k..]
       else
         && d.pending != [] && Tells(d.pending[|d.pending| - 1], item, t)
         && d.pending[..|d.pending| - 1] == c.pending[k..] && d.history == c.history + c.pending[..k]
  }

  /** A failed item stops the queue, and so does a refused write. In loop mode a copy of a successful
      one goes to the back under its new uid, unless it is not accepted: then the queue stops. */
  ghost predicate Settled(accepts: QueueItem -> bool, c: M.Core, d: M.Core, item: QueueItem, t: Tick) {
    var copy := item.(uid := t.newUid, createdAt := t.now);
    && d.autostart == c.autostart && d.loopMode == c.loopMode && d.closing == c.closing
    && (t.exitStatus != "success" ==> d.queue == c.queue && !d.running && !d.stopPending)
    && (t.exitStatus == "success" ==> d.stopPending == c.stopPending)
    && (t.exitStatus == "success" && !c.loopMode ==>
          d.queue == c.queue && d.running == (c.running && t.written))
    && (t.exitStatus == "success" && c.loopMode && !Has(c.queue, t.newUid) ==>
          if accepts(copy) then d.queue == c.queue + [copy] && d.running == (c.running && t.written)
          else d.queue == c.queue && !d.running)
  }

  lemma EntryTells(item: QueueItem, t: Tick)
    ensures Tells(Entry(item, t), item, t)
    ensures Entry(item, t).Succeeded() <==> t.exitStatus == "success"
  {
  }

  lemma RecordMeans(c: M.Core, item: QueueItem, t: Tick)
    ensures var d := RecordNext(c, Entry(item, t), t.accepted, t.written);
      Recorded(c, d, item, t)
  {
    var e, k := Entry(item, t), Taken(c.pending, t.accepted);
    RecordLeaves(c, e, t);
    EntryTells(item, t);
    OneBehind(c.history + c.pending[..k], e);
    OneBehind(c.pending[k..], e);
  }

  lemma OneBehind(entries: seq<HistoryEntry>, e: HistoryEntry)
    ensures var more := entries + [e];
      more[|more| - 1] == e && more[..|more| - 1] == entries
  {
  }

  lemma RequeuedMeans(accepts: QueueItem -> bool, q: seq<QueueItem>, item: QueueItem, t: Tick)
    requires !Has(q, t.newUid)
    ensures var copy := item.(uid := t.newUid, createdAt := t.now);
      Requeued(accepts, q, item, t) == if accepts(copy) then Some(q + [copy]) else None
  {
    var copy := item.(uid := t.newUid, createdAt := t.now);
    assert IndexOf(q, copy.uid).None?;
    InsertAtEnd(q, copy);
    assert (q + [copy])[|q|] == copy;
    assert IndexOf(q + [copy], copy.uid).Some?;
  }

  /** `_run_one`: for every item and every tick, what is recorded and what becomes of the queue. */
  lemma SettleMeans(accepts: QueueItem -> bool, c: M.Core, item: QueueItem, t: Tick)
    ensures var d := SettleNext(accepts, c, Entry(item, t), t);
      Recorded(c, d, item, t) && Settled(accepts, c, d, item, t)
  {
    RecordMeans(c, item, t);
    SettlingIsMore(accepts, c, item, t);
    SettleLeaves(accepts, c, item, t);
  }

  /** Behind the record itself only the queue and the two flags change. */
  lemma SettlingIsMore(accepts: QueueItem -> bool, c: M.Core, item: QueueItem, t: Tick)
    ensures var r, d := RecordNext(c, Entry(item, t), t.accepted, t.written), SettleNext(accepts, c, Entry(item, t), t);
      d == r.(queue := d.queue, running := d.running, stopPending := d.stopPending)
  {
  }

  lemma SettleLeaves(accepts: QueueItem -> bool, c: M.Core, item: QueueItem, t: Tick)
    ensures Settled(accepts, c, SettleNext(accepts, c, Entry(item, t), t), item, t)
  {
    RecordLeaves(c, Entry(item, t), t);
    if !Has(c.queue, t.newUid) {
      RequeuedMeans(accepts, c.queue, item, t);
    }
  }

  lemma RecordLeaves(c: M.Core, entry: HistoryEntry, t: Tick)
    ensures var d := RecordNext(c, entry, t.accepted, t.written);
      && d.queue == c.queue && d.running == (c.running && t.written) && d.stopPending == c.stopPending
      && d.autostart == c.autostart && d.loopMode == c.loopMode && d.closing == c.closing
      && var k := Taken(c.pending, t.accepted);
      && d.history == c.history + c.pending[..k] + (if t.written then [entry] else [])
      && d.pending == c.pending[k..] + (if t.written then [] else [entry])
      && (d.dbError <==> !t.written)
  {
    FlushWrites(c, t.accepted);
  }

  /** A pass of the loop takes the first item exactly when the queue runs, or autostart makes it, the
      engine is idle and nothing stops it; else it writes and takes nothing, and stops a queue that is
      to stop or has run empty. */
  ghost predicate TakesItem(c: M.Core, t: Tick) {
    && !c.closing && !(c.running && c.stopPending) && (c.running || c.autostart)
    && t.host == Idle && c.queue != []
  }

  ghost predicate PassesBy(c: M.Core, d: M.Core, t: Tick) {
    && d == c.(running := d.running, stopPending := d.stopPending)
    && (c.closing ==> d == c)
    && (!c.closing && c.running && c.stopPending ==> !d.running && !d.stopPending)
    && (!c.closing && !(c.running && c.stopPending) ==>
          && (d.running <==> (c.running || (c.autostart && c.queue != [])) && !(t.host == Idle && c.queue == []))
          && d.stopPending == c.stopPending)
  }

  lemma TurnMeans(accepts: QueueItem -> bool, c: M.Core, t: Tick)
    ensures var d := TurnNext(accepts, c, t);
      if TakesItem(c, t) then
        var e := c.(queue := c.queue[1..], running := true);
        Recorded(e, d, c.queue[0], t) && Settled(accepts, e, d, c.queue[0], t)
      else
        PassesBy(c, d, t)
  {
    if TakesItem(c, t) {
      SettleMeans(accepts, c.(queue := c.queue[1..], running := true), c.queue[0], t);
    }
  }

  /** The loop makes its passes: a running queue whose plans succeed and whose outcomes are written is
      worked off in order, one item a pass. */
  lemma {:induction false} LoopWorksOff(accepts: QueueItem -> bool, c: M.Core, ticks: seq<Tick>)
    requires c.running && !c.stopPending && !c.closing && !c.loopMode && c.pending == []
    requires |ticks| <= |c.queue|
    requires forall t <- ticks :: t.host == Idle && t.exitStatus == "success" && t.written
    ensures var d := LoopNext(accepts, c, ticks);
      d.running && d.queue == c.queue[|ticks|..] && d.pending == [] && Follow(c.history, d.history, c.queue, ticks)
    decreases |ticks|
  {
    if ticks != [] {
      var d := TurnNext(accepts, c, ticks[0]);
      assert ticks[0] in ticks;
      TurnWorksOff(accepts, c, ticks[0]);
      LoopWorksOff(accepts, d, ticks[1..]);
      OneMoreFollows(c.history, d.history, LoopNext(accepts, d, ticks[1..]).history, c.queue, ticks);
    }
  }

  /** Behind the history of before stands one entry for every tick, about the items in order. */
  ghost predicate Follow(before: seq<HistoryEntry>, after: seq<HistoryEntry>, items: seq<QueueItem>, ticks: seq<Tick>) {
    && |ticks| <= |items| && |after| == |before| + |ticks| && after[..|before|] == before
    && forall i :: 0 <= i < |ticks| ==> Tells(after[|before| + i], items[i], ticks[i])
  }

  lemma OneMoreFollows(before: seq<HistoryEntry>, one: seq<HistoryEntry>, after: seq<HistoryEntry>,
                       items: seq<QueueItem>, ticks: seq<Tick>)
    requires ticks != [] && items != [] && |one| == |before| + 1 && one[..|before|] == before
    requires Tells(one[|before|], items[0], ticks[0]) && Follow(one, after, items[1..], ticks[1..])
    ensures Follow(before, after, items, ticks)
  {
    var n := |before|;
    assert after[..n] == after[..n + 1][..n] && after[n] == after[..n + 1][n];
    forall i | 0 < i < |ticks|
      ensures Tells(after[n + i], items[i], ticks[i])
    {
      assert Tells(after[n + 1 + (i - 1)], items[1..][i - 1], ticks[1..][i - 1]);
    }
  }

  lemma TurnWorksOff(accepts: QueueItem -> bool, c: M.Core, t: Tick)
    requires c.running && !c.stopPending && !c.closing && !c.loopMode && c.pending == [] && c.queue != []
    requires t.host == Idle && t.exitStatus == "success" && t.written
    ensures var d, n := TurnNext(accepts, c, t), |c.history|;
      && d.running && !d.stopPending && !d.closing && !d.loopMode && d.pending == [] && d.queue == c.queue[1..]
      && |d.history| == n + 1 && d.history[..n] == c.history && Tells(d.history[n], c.queue[0], t)
  {
    TurnMeans(accepts, c, t);
    assert c.history + c.pending[..0] == c.history;
  }

  /** How a start of a queue with an item in it ends, with so many entries held. */
  function Started(synced: bool, held: nat, accepted: nat, host: EngineState): Result<(), M.Refusal> {
    if !synced then Err(M.NotSynced)
    else if held > accepted then Err(M.DbUnavailable)
    else if host == NoEngine then Err(M.NoProfile)
    else Ok(())
  }

  // ---- the class --------------------------------------------------------------------------

  class Sequencer {
    const queue: Service.QueueService
    var pendingHistory: seq<HistoryEntry>
    var databaseError: bool
    var running: bool
    var stopPending: bool
    var autostart: bool
    var loopMode: bool
    var closing: bool
    var runningItem: Option<QueueItem>

    constructor (queue: Service.QueueService)
      ensures this.queue == queue && runningItem == None
      ensures Abs() == M.Initial(queue.repo.items, queue.repo.history).core
    {
      this.queue := queue;
      pendingHistory, databaseError := [], false;
      running, stopPending, autostart, loopMode, closing := false, false, false, false, false;
      runningItem := None;
    }

    function Abs(): M.Core
      reads this, queue.repo
    {
      M.Core(queue.repo.items, queue.repo.history, pendingHistory,
             running, stopPending, autostart, loopMode, closing, databaseError)
    }

    /** Write held entries until none is left or the database refuses one. */
    method FlushPendingHistory(accepted: nat) returns (ok: bool)
      modifies this`pendingHistory, this`databaseError, queue`revision, queue.repo`history
      ensures Abs() == M.Flush(old(Abs()), accepted)
      ensures var k := Taken(old(pendingHistory), accepted);
        && queue.repo.history == old(queue.repo.history) + old(pendingHistory)[..k]
        && pendingHistory == old(pendingHistory)[k..]
      ensures ok <==> |old(pendingHistory)| <= accepted
      ensures ok <==> pendingHistory == []
      ensures databaseError <==> !ok
    {
      ghost var held, written := pendingHistory, queue.repo.history;
      var left := accepted;
      while pendingHistory != []
        invariant accepted - left == |held| - |pendingHistory| >= 0
        invariant pendingHistory == held[accepted - left..]
        invariant queue.repo.history == written + held[..accepted - left]
        invariant left >= 0 && databaseError == old(databaseError)
        decreases |pendingHistory|
      {
        if left == 0 {
          databaseError := true;
          return false;
        }
        queue.RecordHistory(pendingHistory[0]);
        pendingHistory := pendingHistory[1..];
        left := left - 1;
      }
      assert held[..accepted - left] == held;
      databaseError := false;
      return true;
    }

    /** `queue_start`, uninterrupted. `synced` says whether the experiment check passes. */
    method QueueStart(synced: bool, accepted: nat, host: EngineState) returns (r: Result<(), M.Refusal>)
      modifies this`pendingHistory, this`databaseError, this`running, this`stopPending
      modifies queue`revision, queue.repo`history
      ensures var c := old(Abs());
        if !synced then r == Err(M.NotSynced) && Abs() == c
        else
          var d := M.Flush(c, accepted);
          if d.pending != [] then r == Err(M.DbUnavailable) && Abs() == d
          else match M.Start(d, host)
            case Err(e) => r == Err(e) && Abs() == d
            case Ok(e) => r == Ok(()) && Abs() == e
      ensures r ==
        if !synced then Err(M.NotSynced)
        else if |old(pendingHistory)| > accepted then Err(M.DbUnavailable)
        else if host == NoEngine then Err(M.NoProfile)
        else if queue.repo.items == [] then Err(M.QueueEmpty)
        else Ok(())
      ensures if r.Ok? then running && !stopPending && pendingHistory == []
        else running == old(running) && stopPending == old(stopPending)
      ensures queue.repo.items == old(queue.repo.items)
    {
      FlushWrites(Abs(), accepted);
      if !synced {
        return Err(M.NotSynced);
      }
      var flushed := FlushPendingHistory(accepted);
      if !flushed {
        return Err(M.DbUnavailable);
      }
      if host == NoEngine {
        return Err(M.NoProfile);
      }
      if |queue.repo.items| == 0 {
        return Err(M.QueueEmpty);
      }
      running, stopPending := true, false;
      r := Ok(());
    }

    method QueueStop() returns (r: Result<(), M.Refusal>)
      modifies this`stopPending
      ensures match M.RequestStop(old(Abs()))
        case Err(e) => r == Err(e) && Abs() == old(Abs())
        case Ok(d) => r == Ok(()) && Abs() == d
      ensures r == if old(running) then Ok(()) else Err(M.NotRunning)
      ensures stopPending == (old(stopPending) || old(running))
    {
      if !running {
        return Err(M.NotRunning);
      }
      stopPending := true;
      r := Ok(());
    }

    method QueueStopCancel()
      modifies this`stopPending
      ensures Abs() == old(Abs()).(stopPending := false)
    {
      stopPending := false;
    }

    method SetAutostart(enable: bool, synced: bool) returns (r: Result<(), M.Refusal>)
      modifies this`autostart
      ensures if enable && !synced then r == Err(M.NotSynced) && Abs() == old(Abs())
        else r == Ok(()) && Abs() == old(Abs()).(autostart := enable)
    {
      if enable && !synced {
        return Err(M.NotSynced);
      }
      autostart := enable;
      r := Ok(());
    }

    method SetLoopMode(enable: bool)
      modifies this`loopMode
      ensures Abs() == old(Abs()).(loopMode := enable)
    {
      loopMode := enable;
    }

    /** Put the item first, then start: a refused start leaves the item at the front. */
    method ExecuteNow(item: QueueItem, synced: bool, accepted: nat, host: EngineState)
      returns (pushed: Result<(), Q.Refusal>, started: Result<(), M.Refusal>)
      modifies this`pendingHistory, this`databaseError, this`running, this`stopPending
      modifies queue`revision, queue.repo
      ensures pushed.Ok? <==> IndexOf(old(queue.repo.items), item.uid).None?
      ensures pushed.Err? ==> Abs() == old(Abs())
      ensures pushed.Ok? ==> queue.repo.items == [item] + old(queue.repo.items)
      ensures pushed.Ok? && started.Ok? ==> Abs().running && !Abs().stopPending && Abs().pending == []
      ensures pushed.Ok? ==> started == Started(synced, |old(pendingHistory)|, accepted, host)
      ensures var d := M.Flush(old(Abs()), accepted);
        pushed.Ok? && synced ==> Abs().history == d.history && Abs().pending == d.pending
      ensures pushed.Ok? && started.Err? ==> Abs().running == old(running) && Abs().stopPending == old(stopPending)
    {
      started := Err(M.QueueEmpty);
      pushed := queue.PushFront(item);
      if pushed.Ok? {
        started := QueueStart(synced, accepted, host);
      }
    }

    method ShouldRun(host: EngineState) returns (go: bool)
      modifies this`running, this`stopPending
      ensures (Abs(), go) == M.ShouldRunNext(old(Abs()), host)
      ensures go <==>
        && !closing && !(old(running) && old(stopPending)) && host == Idle
        && (old(running) || (autostart && queue.repo.items != []))
      ensures go ==> running && stopPending == old(stopPending)
    {
      if closing {
        return false;
      }
      if running && stopPending {
        running, stopPending := false, false;
        return false;
      }
      if autostart && !running && |queue.repo.items| > 0 {
        running := true;
      }
      go := running && host == Idle;
    }

    method Record(entry: HistoryEntry, accepted: nat, ok: bool)
      modifies this`pendingHistory, this`databaseError, this`running, queue`revision, queue.repo`history
      ensures Abs() == RecordNext(old(Abs()), entry, accepted, ok)
      ensures var k := Taken(old(pendingHistory), accepted);
        var written, held := old(queue.repo.history) + old(pendingHistory)[..k], old(pendingHistory)[k..];
        && queue.repo.history == (if ok then written + [entry] else written)
        && pendingHistory == (if ok then held else held + [entry])
      ensures (databaseError <==> !ok) && running == (old(running) && ok)
    {
      var flushed := FlushPendingHistory(accepted);
      if ok {
        queue.RecordHistory(entry);
        databaseError := false;
      } else {
        pendingHistory := pendingHistory + [entry];
        databaseError := true;
        running := false;
      }
    }

    method RunOne(item: QueueItem, t: Tick)
      modifies this`pendingHistory, this`databaseError, this`running, this`stopPending, this`runningItem
      modifies queue`revision, queue.repo
      ensures Abs() == SettleNext(queue.accepts, old(Abs()), Entry(item, t), t)
      ensures Recorded(old(Abs()), Abs(), item, t)
      ensures Settled(queue.accepts, old(Abs()), Abs(), item, t)
      ensures runningItem == None
    {
      SettleMeans(queue.accepts, Abs(), item, t);
      RunAndSettle(item, t);
    }

    method RunAndSettle(item: QueueItem, t: Tick)
      modifies this`pendingHistory, this`databaseError, this`running, this`stopPending, this`runningItem
      modifies queue`revision, queue.repo
      ensures Abs() == SettleNext(queue.accepts, old(Abs()), Entry(item, t), t)
      ensures runningItem == None
    {
      runningItem := Some(item);
      var entry := Entry(item, t);
      Record(entry, t.accepted, t.written);
      if entry.Succeeded() {
        if loopMode {
          RequeuedAtAnyRevision(queue.accepts, queue.State(), item, t);
          var r := queue.Add(item.WithNewUid(t.newUid, t.now), AT_BACK, t.spareUid, t.now);
          if r.Err? {
            running := false;
          }
        }
      } else {
        running, stopPending := false, false;
      }
      runningItem := None;
    }

    /** One pass of the loop body. */
    method Turn(t: Tick)
      modifies this`pendingHistory, this`databaseError, this`running, this`stopPending, this`runningItem
      modifies queue`revision, queue.repo
      ensures Abs() == TurnNext(queue.accepts, old(Abs()), t)
      ensures if TakesItem(old(Abs()), t) then
          var c := old(Abs()).(queue := old(queue.repo.items)[1..], running := true);
          Recorded(c, Abs(), old(queue.repo.items)[0], t)
          && Settled(queue.accepts, c, Abs(), old(queue.repo.items)[0], t)
        else PassesBy(old(Abs()), Abs(), t)
    {
      TurnMeans(queue.accepts, Abs(), t);
      TakeAndRun(t);
    }

    method TakeAndRun(t: Tick)
      modifies this`pendingHistory, this`databaseError, this`running, this`stopPending, this`runningItem
      modifies queue`revision, queue.repo
      ensures Abs() == TurnNext(queue.accepts, old(Abs()), t)
    {
      var go := ShouldRun(t.host);
      if go {
        var item := queue.PopFront();
        if item.None? {
          running, stopPending := false, false;
        } else {
          RunOne(item.value, t);
        }
      }
    }

    /** The loop, for as many passes as there are ticks or until the service closes. */
    method Loop(ticks: seq<Tick>)
      modifies this`pendingHistory, this`databaseError, this`running, this`stopPending, this`runningItem
      modifies queue`revision, queue.repo
      ensures Abs() == LoopNext(queue.accepts, old(Abs()), ticks)
    {
      var i := 0;
      while i < |ticks| && !closing
        invariant 0 <= i <= |ticks|
        invariant LoopNext(queue.accepts, Abs(), ticks[i..]) == LoopNext(queue.accepts, old(Abs()), ticks)
      {
        assert ticks[i..][0] == ticks[i] && ticks[i..][1..] == ticks[i + 1..];
        Turn(ticks[i]);
        i := i + 1;
      }
    }
  }
}
