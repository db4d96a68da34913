# Verification of the qs execution core

`qs` accepts plan items into an ordered queue, runs them one at a time on a single engine thread and
records what became of them. This project models that core in Dafny and proves what it guarantees.

- **Sequencer** (`SequencerModel`, `SequencerRuns`, `SequencerLimits`, `SequencerOrder`,
  `SequencerLoopMode`, `Sequencer`, `SequencerLoop`). A state machine whose labels are the steps of the loop thread, the control calls and
  the users' edits, at the granularity of the sequencer's lock and of single repository calls. A ledger
  records every insertion, withdrawal and completion. The class `Sequencer` has the source's fields and
  methods; its loop is shown to be a run of the machine, so what holds over all runs holds of it.
- **Engine host** (`HostModel`, `HostRuns`, `HostFutures`, `HostHandshake`, `HostShutdown`, `EngineHost`,
  `EngineLoop`). A state machine of the engine thread and its callers; the RunEngine may return, raise or be interrupted, paused or not,
  any number of times. The class `EngineHost` has the source's methods, with the engine's behaviour and
  the directives given in each pause as parameters; draining its queue is shown to be a run of the machine.
- **Composition** of the two: until CLOSED is set the sequencer's items never meet a busy engine, and
  each part of a joint run is a run of its own machine.
- **Queue storage** (`Repository`, `MemoryRepository`, `SqlTable`, `SqlRepository`). The list is the
  specification; the table of rows with positions refines it over every sequence of operations.
- **Queue service and batch move** (`QueueSpec`, `AddBatch`, `BatchMove`, `QueueService`, `QueueRoutes`).
  Each method is proved equal to a function on the queue, and the functions' meaning is proved.
- **Smaller machines**: `Progress` and `ProgressWatcher`, `Diagnostics`, `StallAlarm`, `Console`.

`Wrappers`, `Models`, `Sequences` and `QueueList` hold the shared types and the list operations.

Where the code does less than its comments and documents say, the model follows the code:

- The comment on a refused history write (`src/qs/sequencer/sequencer.py:350-351`) says that the queue
  stops so that nothing runs unrecorded. Autostart re-arms it, and a start between its flush and its lock
  does the same: `SequencerOrder` states exactly when, and that completion order is lost in no other way.
- Stop-and-wait and the stop bound hold with autostart off; `SequencerLimits` states exactly when they
  fail, and exactly when a successful start is undone.
- A refused `move` re-inserts the item at the back, not where it was, and does not bump the revision.
- A refused `remove_batch` keeps the removals it made, up to the first uid that is missing or repeated;
  a refused batch move keeps the moves it made, up to the first uid that is missing or equal to its
  predecessor.
- SQL `replace` keeps the old creation time, the in-memory one takes the new.
- CLOSED is overwritten by a plan that outlives the shutdown's timeout, unless it is waiting in a pause
  nobody has answered: then every later directive is refused and the plan stays there for good.
- A directive whose caller found the host paused is left for a later pause when it is stored after its
  own has ended, whether or not the engine has paused again by then. It ends that pause, if one comes,
  unless another directive overwrites it first: `HostHandshake.OwnPauseOnlyExactlyWhen` states exactly
  when every directive ends only its own pause.
- `_chain` says "innermost first, then outwards"; after the root it goes from the outermost exception
  inwards, but for the cases `Diagnostics.GoesOutwardsExactlyWhen` states.
- Console text with `nlines=0` gives everything, as Python's slice does, and with a negative number all
  but the oldest lines.

`dafny verify dfyconfig.toml` checks the whole project.

## Model

| member | source | states |
|---|---|---|
| `SequencerRuns.EveryInsertionInOnePlace` | src/qs/sequencer/sequencer.py:143-372 | conservation over every run: each item is in queue, hand, history, held entries or withdrawals exactly as often as it was ever inserted, for any interleaving of edits, control calls, outcomes and refused writes |
| `SequencerRuns.StepBalances` | src/qs/sequencer/sequencer.py:143-372 | no single step of any thread loses or duplicates an insertion |
| `SequencerRuns.StopAndWait` | src/qs/sequencer/sequencer.py:216-310 | autostart off: after a failed outcome, a refused history write or a refused re-queue, no item is taken before the next successful start, at lock granularity |
| `SequencerLimits.StopAndWaitFailsExactlyWhen` | src/qs/sequencer/sequencer.py:242-258 | after anything bad some run takes an item, without a start or autostart being turned on, exactly when autostart is on and the service is not closing |
| `SequencerLimits.StartUndoneExactlyWhen` | src/qs/sequencer/sequencer.py:165-370 | over any rest of a pass in which no further start succeeds, other calls and edits interleaving: at the next top of the loop a successful start is undone exactly when the loop had found the queue empty before, was already on its way to stop, or meets a failed outcome, a refused write, a refused copy or an emptied queue on the way |
| `SequencerLimits.StartUndoneAtOnceExactlyWhen` | src/qs/sequencer/sequencer.py:165-370 | the loop's next step undoes a start from exactly four positions: after an empty pop, a refused write, a refused copy, or a recorded failure |
| `SequencerLimits.StartCanBeLost` | src/qs/sequencer/sequencer.py:165-229 | a run in which a start after an empty pop is lost although items are queued |
| `SequencerRuns.StopBound` | src/qs/sequencer/sequencer.py:177-240 | autostart off: between an accepted stop and the next start or cancel at most one item is taken, and none unless the loop was already past its test |
| `SequencerLimits.StopBoundFailsExactlyWhen` | src/qs/sequencer/sequencer.py:177-258 | some run exceeds the bound, without a start, a cancel or autostart being turned on, exactly when autostart is on and the service is not closing |
| `SequencerLimits.AutostartPops` | src/qs/sequencer/sequencer.py:216-258 | with autostart on and the service not closing, from every state some run without a start takes an item, and another one if the loop was about to take one |
| `SequencerOrder.NothingRunsUnrecorded` | src/qs/sequencer/sequencer.py:143-175 | atomic start and record, autostart never on: no item is taken while an outcome is unwritten; history then held entries are the completions in order, less what a user cleared; the error flag is up exactly while something is held |
| `SequencerOrder.OutcomesNeverLost` | src/qs/sequencer/sequencer.py:143-363 | at any interleaving, autostart included: every completed outcome is written or held as often as it completed, short only of what a user cleared |
| `SequencerOrder.RunsOverHeldExactlyWhen` | src/qs/sequencer/sequencer.py:155-258 | at any interleaving exactly two steps make a queue run over held outcomes: a start that locks after an entry was held, and autostart |
| `SequencerOrder.OrderBrokenExactlyWhen` | src/qs/sequencer/sequencer.py:143-363 | at any interleaving completion order or the error flag is lost in exactly one step: an outcome is written while an earlier one is held |
| `SequencerOrder.LostOrderTracesBack` | src/qs/sequencer/sequencer.py:143-363 | over every run of the service lost order is preceded by one of the two steps that set a queue running over a held outcome |
| `SequencerOrder.TakenOverHeldTracesBack` | src/qs/sequencer/sequencer.py:143-363 | over every run an item taken, or about to be, over a held outcome is preceded by one of those two steps |
| `SequencerOrder.RunningOverHeldCanLoseOrder` | src/qs/sequencer/sequencer.py:216-258 | conversely, a queue running over held outcomes with an item left can lose the order |
| `SequencerOrder.LateStartRunsOverHeld` | src/qs/sequencer/sequencer.py:155-172 | a run in which a start that flushed before the write was refused runs the queue over the held outcome |
| `SequencerOrder.AutostartHoldsFirst` | src/qs/sequencer/sequencer.py:349-360 | a run in which autostart leaves a held outcome with the queue not empty |
| `SequencerOrder.AutostartWritesOutOfOrder` | src/qs/sequencer/sequencer.py:242-258 | a run in which autostart gets a later outcome into history before an earlier one, with the error flag down |
| `SequencerLoopMode.LoopModeRotates` | src/qs/sequencer/sequencer.py:260-310 | loop mode over every run: the payloads are the original queue after one turn per settled item; k successes rotate it by k; exactly the failing items are missing |
| `SequencerLoopMode.RunTurns` | src/qs/sequencer/sequencer.py:216-310 | settling an item is one turn of the rotation and no other step changes it |
| `SequencerLoopMode.SuccessesRotate` | src/qs/sequencer/sequencer.py:293-295 | k successful turns of a queue of n are a rotation by k modulo n |
| `SequencerLoopMode.OnlyFailuresLeave` | src/qs/sequencer/sequencer.py:293-308 | what is left and the items of failing turns together are the original queue |
| `SequencerLoop.LoopIsRun` | src/qs/sequencer/sequencer.py:216-240 | any number of passes of the loop as written is a run of the state machine ending in the same fields |
| `SequencerLoop.RecordIsRun` | src/qs/sequencer/sequencer.py:334-363 | recording as written is the machine's flush, write and stop |
| `SequencerLoop.SettleIsRun` | src/qs/sequencer/sequencer.py:293-309 | what follows a recorded outcome is one machine step, or two when the copy is refused |
| `Sequencer.Sequencer.constructor` | src/qs/sequencer/sequencer.py:48-76 | a new sequencer is in the machine's initial fields |
| `Sequencer.SettleMeans` | src/qs/sequencer/sequencer.py:260-372 | for every item and every end of a plan: one entry more, about this item and as its plan ended, behind what was written or held; a plan that does not succeed stops the queue; in loop mode a successful item goes to the back as a copy under the new uid exactly when the service takes it, else the queue stops |
| `Sequencer.TurnMeans` | src/qs/sequencer/sequencer.py:216-258 | a pass takes the first item exactly when the queue runs or autostart makes it, the engine is idle and nothing stops it; every other pass takes and writes nothing, and which of the two flags it clears |
| `Sequencer.LoopWorksOff` | src/qs/sequencer/sequencer.py:216-310 | a running queue whose plans succeed and are recorded is worked off in order, one item and one matching entry a pass |
| `Sequencer.FlushWrites` | src/qs/sequencer/sequencer.py:143-153 | a flush moves a prefix of the held entries behind the history: all of them, or as many as the database takes |
| `Sequencer.RequeuedMeans` | src/qs/sequencer/sequencer.py:293-295 | under a uid that is not queued the copy joins at the back exactly when the service accepts it |
| `Sequencer.Sequencer.FlushPendingHistory` | src/qs/sequencer/sequencer.py:143-153 | writes held entries in order up to the first refusal; true exactly when none is left |
| `Sequencer.Sequencer.QueueStart` | src/qs/sequencer/sequencer.py:155-175 | which of the four refusals is given, in the code's order, and what each of them has already changed; an accepted start runs the queue with nothing held |
| `Sequencer.Sequencer.QueueStop` | src/qs/sequencer/sequencer.py:177-184 | accepted exactly while running, sets only the stop flag |
| `Sequencer.Sequencer.QueueStopCancel` | src/qs/sequencer/sequencer.py:186-192 | clears only the stop flag |
| `Sequencer.Sequencer.SetAutostart` | src/qs/sequencer/sequencer.py:194-203 | enabling is refused without a synced experiment, disabling never |
| `Sequencer.Sequencer.SetLoopMode` | src/qs/sequencer/sequencer.py:205-207 | sets only loop mode |
| `Sequencer.Sequencer.ExecuteNow` | src/qs/sequencer/sequencer.py:209-212 | the item is first even when the start is refused; which of the three refusals a start gives, and what each leaves |
| `Sequencer.Sequencer.ShouldRun` | src/qs/sequencer/sequencer.py:242-258 | runs exactly when not closing, not stopping, the engine idle, and running or with autostart and an item; and the flags afterwards |
| `Sequencer.Sequencer.Record` | src/qs/sequencer/sequencer.py:334-363 | what the flush leaves held, then the entry: last of the history, or last of those held with the queue stopped |
| `Sequencer.Sequencer.RunOne` | src/qs/sequencer/sequencer.py:260-372 | the entry left behind holds the item, its exit status, the state for it, run uids, times, text and traceback; failure stops the queue; in loop mode the copy at the back, or a stop exactly when it is refused |
| `Sequencer.Sequencer.Turn` | src/qs/sequencer/sequencer.py:217-240 | takes and settles the first item exactly when it may run, else only the two flags change |
| `Sequencer.Sequencer.Loop` | src/qs/sequencer/sequencer.py:216-240 | passes until the service closes |
| `HostRuns.Trajectory` | src/qs/engine/host.py:537-608 | until CLOSED is set: one IDLE for the load, then RUNNING, PLAN_STARTED, (PAUSED, RUNNING)*, IDLE, PLAN_FINISHED per plan, and a beginning of that for the current one; the state is the one this sequence says |
| `HostModel.BlockReads` | src/qs/engine/host.py:537-608 | what one plan publishes, event by event: RUNNING and the start, PAUSED and RUNNING per ended pause, IDLE and the finish |
| `EngineHost.EndingMeans` | src/qs/engine/host.py:537-637 | which pauses of a script end and what is reported, for every script, stated on the replies and directives alone |
| `HostRuns.PlansNeverOverlap` | src/qs/engine/host.py:548-573 | PLAN_STARTED and PLAN_FINISHED alternate with matching uids |
| `HostShutdown.ClosedLeftExactlyWhen` | src/qs/engine/host.py:173-179 | from a reachable CLOSED state some run leaves CLOSED exactly when a plan is before its IDLE and not parked in a pause, a load is under way, or the thread is not parked nor ended and an uncancelled plan or load stands before the first sentinel |
| `HostShutdown.ShutdownParksPlan` | src/qs/engine/host.py:173-179 | a shutdown in a pause nobody has answered parks the plan for good: in every run from there no directive is accepted, its future stays unresolved and CLOSED stays |
| `HostShutdown.ParkedForGood` | src/qs/engine/host.py:610-622 | CLOSED, a pause, an empty slot and no caller past its test: nothing changes that any more |
| `HostShutdown.ClosedStays` | src/qs/engine/host.py:173-179 | after the thread has ended CLOSED is final |
| `HostShutdown.ClosedCanBeLeft` | src/qs/engine/host.py:173-179 | from any running plan: a shutdown that times out is overwritten by the plan's IDLE |
| `HostFutures.EveryFutureSettled` | src/qs/engine/host.py:366-482 | no future is resolved twice; when the thread has ended, those queued before the sentinel are resolved or cancelled, those behind it never resolved |
| `HostHandshake.DirectivesAccountedFor` | src/qs/engine/host.py:576-622 | accepted = consumed + overwritten + what is in the slot; every exit from a pause consumed exactly one directive |
| `HostHandshake.DirectiveEndsItsOwnPause` | src/qs/engine/host.py:610-622 | with test-and-store and take-and-run undivided, the slot is empty outside a pause and holds only directives given in this one |
| `HostHandshake.StaleExactlyWhen` | src/qs/engine/host.py:617-622 | without that, a directive goes stale in exactly two ways: stored after its test when the thread is no longer waiting, or when it is waiting in a later pause than the one tested |
| `HostHandshake.NeverStaleExactlyWhen` | src/qs/engine/host.py:576-622 | over every run the slot never holds a directive of another pause exactly when each is stored while the pause its caller found is still being waited in |
| `HostHandshake.OwnPauseOnlyExactlyWhen` | src/qs/engine/host.py:576-622 | over every run each directive that is taken ends only the pause it was issued in exactly when the last one stored before each take was stored while the pause its caller found was still being waited in |
| `HostHandshake.LateDirectiveMayDoNoHarm` | src/qs/engine/host.py:583-622 | from every pause a run in which a directive is stored late and overwritten, and still every one that is taken ends its own pause |
| `HostHandshake.LateDirectiveEndsNextPause` | src/qs/engine/host.py:583-622 | the first way, from every pause with an empty slot: a directive stored before RUNNING is set waits ready in the next pause |
| `HostHandshake.EarlierTestEndsNextPause` | src/qs/engine/host.py:583-622 | the second way, from every pause with an empty slot: a directive tested in it and stored in the next one ends that one |
| `EngineHost.EngineHost.constructor` | src/qs/engine/host.py:126-153 | the host once its thread is up and NO_ENGINE is set |
| `EngineHost.EngineHost.SetState` | src/qs/engine/host.py:664-668 | publishes exactly the changes |
| `EngineHost.EngineHost.Submit` | src/qs/engine/host.py:366-372 | refused exactly when CLOSED, else queued last with a new future |
| `EngineHost.EngineHost.RunPlan` | src/qs/engine/host.py:395-410 | accepted exactly when an engine is loaded and the host is IDLE |
| `EngineHost.EngineHost.SetDirective` | src/qs/engine/host.py:617-622 | accepted exactly in PAUSED, replacing what was there |
| `EngineHost.EngineHost.Interrupt` | src/qs/engine/host.py:438-454 | which refusal is given; a directive in PAUSED, a direct engine call in RUNNING |
| `EngineHost.EngineHost.WaitDirective` | src/qs/engine/host.py:610-615 | waits while the slot is empty, takes what is in it, else the last directive stored meanwhile, and empties it; without one it waits on |
| `EngineHost.EngineHost.HandlePause` | src/qs/engine/host.py:576-608 | any number of pauses, with any directives given in each and whatever was left in the slot: which pauses end, the engine call made for each, what the last call's return, exception or interruption makes the outcome, or no outcome exactly when it is still PAUSED |
| `EngineHost.EngineHost.RunPlanOnThread` | src/qs/engine/host.py:537-574 | a plan from RUNNING to IDLE, begun in IDLE or after CLOSED: its uid and status, fail with the exception's text when the deciding call raised, the last error exactly for an outcome that is no success, and exactly its block of the trajectory |
| `EngineHost.EngineHost.LoadSource` | src/qs/engine/host.py:484-535 | a load that succeeds installs an engine, one that fails changes nothing |
| `EngineHost.EngineHost.RunPlanCommand` | src/qs/engine/host.py:471-482 | a plan as one of the commands |
| `EngineHost.EngineHost.RunCommand` | src/qs/engine/host.py:471-482 | one command, whatever it is and after CLOSED too: state, slot and events, and the host is ready for the next |
| `EngineHost.EngineHost.RunNext` | src/qs/engine/host.py:471-482 | the head of the queue is skipped, run, or ends the loop |
| `EngineHost.EngineHost.RunLoop` | src/qs/engine/host.py:471-482 | draining the queue, after CLOSED too: futures, state, plans run and events published for any list of commands and any engine behaviour |
| `EngineLoop.DrainIsRun` | src/qs/engine/host.py:471-482 | draining as written is a run of the machine with the same effect on queue, futures, engine, slot and plans |
| `EngineLoop.DrainSettlesFutures` | src/qs/engine/host.py:471-482 | from every reachable state in which the thread waits for a command and no caller is storing a directive: a draining that no pause holds up leaves every future queued before a sentinel resolved or cancelled |
| `EngineLoop.EngineIsRun` | src/qs/engine/host.py:537-608 | the engine calls of a plan, pauses included, are a run of the machine |
| `Composition.RunPlanNeverRefused` | src/qs/sequencer/sequencer.py:222-267 | sequencer and host together, CLOSED not set, no other plan: a popped item's run_plan is refused for the engine's state neither at its test nor at its submission, and the plan on the engine is the item in hand |
| `Composition.RefusedOnlyAfterClosed` | src/qs/sequencer/sequencer.py:222-267 | shutdown included: refused only after CLOSED was set; the plan on the engine is always the item in hand |
| `Composition.RefusedAfterClosed` | src/qs/engine/host.py:173-179 | and from every state before its test a shutdown makes run_plan refuse |
| `Composition.SequencerPart` | src/qs/sequencer/sequencer.py:216-310 | what the sequencer does in a joint run is one of its own runs |
| `Composition.HostPart` | src/qs/engine/host.py:395-608 | what the host does in a joint run is one of its own runs |
| `Composition.IdleBeforeRunPlan` | src/qs/engine/host.py:395-410 | until CLOSED is set, from the pop to the submission the host is IDLE with an engine and no plan on its thread |
| `SqlTable.RunRefines` | src/qs/persistence/queue_repository.py:36-119 | for every sequence of operations the table gives the list's answers and refusals and stands for the list's contents, positions a permutation of 0..n-1 |
| `SqlTable.StepRefines` | src/qs/persistence/queue_repository.py:36-119 | the same for each operation and every answer the database may give |
| `SqlTable.RunRefinesWhole` | src/qs/persistence/queue_repository.py:36-119 | over every sequence of operations table and list agree in every field of every item and answer, creation time included, when the list keeps the creation time of an item it replaces |
| `SqlTable.StepRefinesWhole` | src/qs/persistence/queue_repository.py:36-119 | the same for each operation |
| `SqlTable.InsertRepresents` | src/qs/persistence/queue_repository.py:46-70 | shifting the later rows and adding one is inserting into the list |
| `SqlTable.DeleteRepresents` | src/qs/persistence/queue_repository.py:85-99 | deleting a row and closing the gap is removing from the list |
| `SqlTable.PopRepresents` | src/qs/persistence/queue_repository.py:110-119 | the row with the least position is the head, and renumbering all rows is taking it off |
| `SqlTable.ReplaceRepresents` | src/qs/persistence/queue_repository.py:72-83 | assigning the other fields in place is replacing the item, up to the creation time |
| `SqlTable.ListingIsList` | src/qs/persistence/queue_repository.py:36-39 | every ordering by position is the list |
| `SqlTable.ReplaceKeepsCreationTime` | src/qs/persistence/queue_repository.py:72-83 | after replace, row and list item are equal in all fields exactly when the creation times agreed |
| `SqlRepository.SqlQueueRepository.constructor` | src/qs/persistence/queue_repository.py:31-32 | an empty table stands for the empty list |
| `SqlRepository.SqlQueueRepository.ListItems` | src/qs/persistence/queue_repository.py:36-39 | all rows by position |
| `SqlRepository.SqlQueueRepository.GetItem` | src/qs/persistence/queue_repository.py:41-44 | lookup by key |
| `SqlRepository.SqlQueueRepository.Insert` | src/qs/persistence/queue_repository.py:46-70 | refuses a present uid, else shifts and adds |
| `SqlRepository.SqlQueueRepository.Replace` | src/qs/persistence/queue_repository.py:72-83 | refuses a missing uid, keeps position and creation time |
| `SqlRepository.SqlQueueRepository.Remove` | src/qs/persistence/queue_repository.py:85-99 | refuses a missing uid, else deletes and renumbers |
| `SqlRepository.SqlQueueRepository.Move` | src/qs/persistence/queue_repository.py:101-103 | a removal, then an insertion |
| `SqlRepository.SqlQueueRepository.ClearItems` | src/qs/persistence/queue_repository.py:105-108 | empties the table and counts |
| `SqlRepository.SqlQueueRepository.PopFront` | src/qs/persistence/queue_repository.py:110-119 | a row with the least position, if there is one |
| `Repository.StepKeepsDistinct` | src/qs/persistence/memory.py:25-62 | every operation keeps uids distinct |
| `MemoryRepository.InMemoryQueueRepository.constructor` | src/qs/persistence/memory.py:12-15 | starts empty |
| `MemoryRepository.InMemoryQueueRepository.Find` | src/qs/persistence/memory.py:42-47 | the first index of a uid |
| `MemoryRepository.InMemoryQueueRepository.GetItem` | src/qs/persistence/memory.py:21-23 | the first item with the uid |
| `MemoryRepository.InMemoryQueueRepository.Insert` | src/qs/persistence/memory.py:25-32 | refuses a present uid, else inserts at the clamped index |
| `MemoryRepository.InMemoryQueueRepository.Replace` | src/qs/persistence/memory.py:34-40 | refuses a missing uid, else overwrites in place |
| `MemoryRepository.InMemoryQueueRepository.Remove` | src/qs/persistence/memory.py:42-47 | refuses a missing uid, else takes the item out |
| `MemoryRepository.InMemoryQueueRepository.Move` | src/qs/persistence/memory.py:49-52 | takes out and inserts among the others |
| `MemoryRepository.InMemoryQueueRepository.ClearItems` | src/qs/persistence/memory.py:54-58 | empties and counts |
| `MemoryRepository.InMemoryQueueRepository.PopFront` | src/qs/persistence/memory.py:60-62 | the head, if any |
| `MemoryRepository.InMemoryQueueRepository.AppendHistory` | src/qs/persistence/memory.py:64-66 | appends one entry |
| `MemoryRepository.InMemoryQueueRepository.ClearHistory` | src/qs/persistence/memory.py:72-76 | empties and counts |
| `QueueSpec.ResolvesExactlyWhen` | src/qs/queue/service.py:217-240 | a place resolves exactly when it names at most one target and that exists; which refusal is given otherwise |
| `QueueSpec.InsertedLands` | src/qs/queue/service.py:217-240 | an item inserted at the resolved index stands directly before or after its anchor, at an end, or at the clamped Python index |
| `QueueSpec.AddLands` | src/qs/queue/service.py:96-112 | add succeeds exactly for a valid item and a resolvable place, and which refusal is given otherwise; the item is stored as it is, or under the new uid if its own is queued; the returned index is the item's real one and where the place says; the others keep order, uids stay distinct; a refusal changes nothing |
| `QueueSpec.UpdateInPlace` | src/qs/queue/service.py:120-132 | update exchanges one item in place for the given one, as it is or under the new uid and time; which refusal is given otherwise |
| `QueueSpec.MoveLands` | src/qs/queue/service.py:154-175 | move succeeds exactly when its place resolves among the other items, and then lands there; the others keep order |
| `QueueSpec.RefusedMoveLeaves` | src/qs/queue/service.py:168-172 | which refusal move gives and what each leaves |
| `QueueSpec.RefusedMoveMovesToBack` | src/qs/queue/service.py:170-172 | a refused move keeps all items and the order of the others, and leaves the queue alone exactly when it was refused early or the item was last; the revision never shows it |
| `QueueSpec.RemoveTakesOne` | src/qs/queue/service.py:134-141 | one removal takes one item and leaves the others in order |
| `QueueSpec.RemoveBatchLeavesOthers` | src/qs/queue/service.py:143-152 | ignoring missing uids, exactly the items not named are left, in order |
| `QueueSpec.RemoveBatchAccounts` | src/qs/queue/service.py:143-152 | what is returned and what is left are the original items, and each removal counts one revision |
| `QueueSpec.StrictBatchStopsAtMissing` | src/qs/queue/service.py:143-152 | not ignoring them, the batch stops before the first missing or repeated uid and keeps the removals made before it |
| `AddBatch.AddBatchSplices` | src/qs/queue/service.py:114-118 | all or nothing, exactly when; closed form of the result: in order at the back or before an anchor, reversed at the front or after one, and both regimes of integer positions within and beyond the range |
| `AddBatch.AddBatchAnswers` | src/qs/queue/service.py:114-118 | what an accepted batch answers: each item as it is, or under its new uid exactly if its own was queued by then, with the index at which it stood when it was added |
| `AddBatch.AddAllKeepsPayloads` | src/qs/queue/service.py:114-118 | the stored items are the given ones up to their identity |
| `QueueService.QueueService.constructor` | src/qs/queue/service.py:26-30 | revision 0 |
| `QueueService.QueueService.Get` | src/qs/queue/service.py:41-45 | the item, or a refusal |
| `QueueService.QueueService.IndexOfUid` | src/qs/queue/service.py:211-215 | its index, or a refusal |
| `QueueService.QueueService.Resolve` | src/qs/queue/service.py:217-240 | the index a place resolves to, or the refusal |
| `QueueService.QueueService.Add` | src/qs/queue/service.py:96-112 | does what the specified add does |
| `QueueService.QueueService.AddMany` | src/qs/queue/service.py:114-118 | does what the specified batch does, validating all first |
| `QueueService.QueueService.Update` | src/qs/queue/service.py:120-132 | does what the specified update does |
| `QueueService.QueueService.Remove` | src/qs/queue/service.py:134-141 | does what the specified removal does |
| `QueueService.QueueService.RemoveMany` | src/qs/queue/service.py:143-152 | does what the specified batch removal does |
| `QueueService.QueueService.Move` | src/qs/queue/service.py:154-175 | does what the specified move does, put-back included |
| `QueueService.QueueService.Clear` | src/qs/queue/service.py:177-181 | empties, counts, bumps |
| `QueueService.QueueService.PopFront` | src/qs/queue/service.py:183-188 | bumps only when there was an item |
| `QueueService.QueueService.PushFront` | src/qs/queue/service.py:190-193 | first, or refused as a duplicate without a bump |
| `QueueService.QueueService.RecordHistory` | src/qs/queue/service.py:195-198 | appends and bumps |
| `QueueService.QueueService.ClearHistory` | src/qs/queue/service.py:200-204 | empties, counts, bumps |
| `BatchMove.BatchAcceptedExactlyWhen` | src/qs/api/routers/queue.py:157-176 | accepted exactly when the request is not empty, all uids are queued, no two neighbours are equal and the first can be moved to the place |
| `BatchMove.BatchMoveMakesBlock` | src/qs/api/routers/queue.py:169-172 | for distinct queued uids the named items end as one block in the order requested, between the other items left and right of the place, which keep their order |
| `BatchMove.BatchGathersNamed` | src/qs/api/routers/queue.py:169-172 | for every accepted batch, repeated uids included: the named items end as one block, each where it is named last, between the other items left and right of the place |
| `BatchMove.BlockStandsAtPlace` | src/qs/api/routers/queue.py:164-170 | the block is at the front, at the back, or directly before or after an anchor outside it |
| `BatchMove.BlockStartsAtIndex` | src/qs/api/routers/queue.py:164-170 | at an integer position the block starts at the clamped Python index among the others of its first item, less the named items before it there |
| `BatchMove.BatchStopsAtRefused` | src/qs/api/routers/queue.py:169-176 | a refused batch stops before the first uid that is not queued or equals its predecessor, says which, and leaves exactly what the accepted batch of those before it leaves |
| `BatchMove.ChainStopsAtRefused` | src/qs/api/routers/queue.py:171-172 | the same for the loop behind the first move |
| `BatchMove.RefusedBatchLeavesQueueExactlyWhen` | src/qs/api/routers/queue.py:157-176 | a refused batch leaves items and revision as they were exactly when it names nothing, or its first move was refused early or put its item back to the end where it stood; a move made counts even if it moved nothing |
| `BatchMove.RefusedBatchKeepsOrderExactlyWhen` | src/qs/api/routers/queue.py:157-176 | and the items alone, in order, exactly in those cases or when what it moved before the refusal already stood where it was put |
| `BatchMove.BatchKeepsOrderExactlyWhen` | src/qs/api/routers/queue.py:169-172 | an accepted batch move leaves the order as it was exactly when the named items already stood together there, in the order of their last mentions |
| `BatchMove.ChainGathers` | src/qs/api/routers/queue.py:171-172 | the loop gathers the named items behind a block, each where it is named last, and moves nothing else |
| `BatchMove.BatchKeepsPresent` | src/qs/api/routers/queue.py:173 | after an accepted batch every named item is still queued |
| `QueueRoutes.ItemMoveBatch` | src/qs/api/routers/queue.py:157-176 | the route is the batch move and answers with the moved items; a refusal half-way leaves the earlier moves |
| `QueueRoutes.GetAll` | src/qs/api/routers/queue.py:173 | the queued items in the order named |
| `Progress.SnapshotIsFoldOfEverything` | src/qs/engine/progress.py:108-195 | whatever is published shows, for each status, the latest non-None value of every field over all its inputs up to its first done, suppressed ones included; hidden are exactly names borne by a later status; a status bears its name if that is a non-empty text, else unknown |
| `Progress.NamedIsShown` | src/qs/engine/progress.py:108-125 | a status whose latest name is a non-empty text, borne by none listed later, is shown under that text as its fold |
| `Progress.OwnNamesDiffer` | src/qs/engine/progress.py:165 | an unnamed status is called status_ and its number, so that two never share a name |
| `Progress.DecimalIsDecimal` | src/qs/engine/progress.py:165 | the number is written in decimal, without leading zeros |
| `Progress.DoneExactlyWhen` | src/qs/engine/progress.py:130-184 | a status counts as done exactly after a completion, an update with the status done, or a fraction of one or more |
| `Progress.UniqueNamesShowAll` | src/qs/engine/progress.py:108-125 | with unique names every status heard from is shown |
| `Progress.PayloadsAreFolds` | src/qs/engine/progress.py:176-185 | the payload kept for a status is that fold |
| `Progress.PublishedExactlyWhen` | src/qs/engine/progress.py:176-193 | an input publishes exactly when its status was not done and it says done, is the first, or comes at least the minimal period after the last published update of the same status |
| `Progress.NothingAfterDone` | src/qs/engine/progress.py:131-178 | after a status was done its inputs neither publish nor change anything |
| `Progress.PublishedApart` | src/qs/engine/progress.py:186-190 | any two published updates of a status, the later not done, are at least the minimal period apart |
| `ProgressWatcher.NumberedAsFirstSeen` | src/qs/engine/progress.py:84-106 | over all calls of a wait: numbers are given in the order statuses are first seen, and who is subscribed to updates and completions under which |
| `ProgressWatcher.CallsAddUp` | src/qs/engine/progress.py:84-106 | calls of the hook within a wait add up to one call with all their statuses |
| `ProgressWatcher.EachStatusOnce` | src/qs/engine/progress.py:84-106 | within a wait no status is subscribed twice and numbers are not shared; a status is subscribed exactly if it can be watched and was not done when first seen |
| `ProgressWatcher.ProgressWatcher.constructor` | src/qs/engine/progress.py:44-60 | nothing watched, nothing kept |
| `ProgressWatcher.ProgressWatcher.WaitFor` | src/qs/engine/progress.py:84-106 | the subscriptions for the statuses not seen before |
| `ProgressWatcher.ProgressWatcher.WaitOver` | src/qs/engine/progress.py:76-83 | publishes the end and forgets the wait |
| `ProgressWatcher.ProgressWatcher.Store` | src/qs/engine/progress.py:180-185 | one payload, its place in the order kept |
| `ProgressWatcher.ProgressWatcher.Merge` | src/qs/engine/progress.py:176-190 | the part of the update callback under the lock |
| `ProgressWatcher.ProgressWatcher.MergeValidly` | src/qs/engine/progress.py:176-190 | the same, the watcher staying valid |
| `ProgressWatcher.ProgressWatcher.Publish` | src/qs/engine/progress.py:190-193 | the snapshot of all statuses |
| `ProgressWatcher.ProgressWatcher.Callback` | src/qs/engine/progress.py:149-193 | one update: new state and the snapshot published, if any |
| `ProgressWatcher.ProgressWatcher.OnDone` | src/qs/engine/progress.py:130-142 | the completion: fraction 1, done, always published unless done before |
| `Diagnostics.RootCause` | src/qs/diagnostics.py:39-53 | ends on every finite graph, cycles included, with the root the search defines: the end of a whole trail along the edges the fields give |
| `Diagnostics.RootOfTrail` | src/qs/diagnostics.py:39-66 | the root is on a walk without repetition from the exception and is its dead end or the one met again first; of the walk exactly the part up to the root has it as root, and behind it every exception is its own |
| `Diagnostics.InnerLeads` | src/qs/diagnostics.py:43-66 | the search goes on from an exception exactly along the edge its fields give: a FailedStatus to what its status holds as attribute or returns, unless that is itself; else to the cause, else to the context unless suppressed; never to itself |
| `Diagnostics.RootIsItsOwn` | src/qs/diagnostics.py:39-53 | the search is idempotent |
| `Diagnostics.OneWholeTrail` | src/qs/diagnostics.py:43-52 | there is only one walk the search can take |
| `Diagnostics.Chain` | src/qs/diagnostics.py:79-93 | starts with the root, then the exception and its origins, none twice, as far as they go |
| `Diagnostics.OneChain` | src/qs/diagnostics.py:79-93 | this determines the chain |
| `Diagnostics.GoesOutwardsExactlyWhen` | src/qs/diagnostics.py:79-93 | the chain goes outwards behind its root exactly when the exception is the root, its origin adds nothing, or the two are each other's origins |
| `Diagnostics.ChainGoesInwards` | src/qs/diagnostics.py:79-93 | three exceptions, each raised from the next, whose chain is third, first, second |
| `StallAlarm.StalledExactlyWhen` | src/qs/api/status.py:73-82 | monotone clock, positive threshold: stalled exactly when since some point at least that long ago every poll saw a running plan and the same total |
| `StallAlarm.WarnsExactlyWhen` | src/qs/api/status.py:77-89 | whatever clock and threshold: a poll warns exactly when it is stalled and no poll before it since the reference was |
| `StallAlarm.StalledByReference` | src/qs/api/status.py:73-82 | whatever clock and threshold: stalled exactly when running and the reference is at least the threshold old |
| `StallAlarm.AnnouncedExactlyWhenStalledSince` | src/qs/api/status.py:77-84 | whatever clock and threshold: the announcement stands exactly when some poll since the reference was stalled |
| `StallAlarm.WarnsExactlyOncePerStall` | src/qs/api/status.py:83-89 | monotone clock, positive threshold: a poll warns exactly when it is stalled and the one before was not |
| `StallAlarm.AnnouncedExactlyWhenStalled` | src/qs/api/status.py:77-84 | monotone clock, positive threshold: the announcement stands exactly as long as polls are stalled |
| `StallAlarm.ReportsQuiet` | src/qs/api/status.py:77-82 | a poll reports its own total and, for a running plan, how long ago the reference was |
| `StallAlarm.ReferenceIsEarliest` | src/qs/api/status.py:77-80 | the time kept is that of the earliest point since which there was no progress |
| `StallAlarm.ClockSetBackIsSilent` | src/qs/api/status.py:81-89 | three polls with the clock set back: the second stall is silent |
| `StallAlarm.StatusReporter.constructor` | src/qs/api/status.py:50-54 | the reference is the construction, with total 0 |
| `StallAlarm.StatusReporter.ProgressAndStall` | src/qs/api/status.py:56-95 | one poll: new fields and the report |
| `Console.ChunkingDoesNotMatter` | src/qs/api/console.py:76-93 | however a text is cut: pending is what follows its last newline, every complete line is emitted once in order, the ring holds the last of them, and lines and pending concatenate to the text |
| `Console.OneSplit` | src/qs/api/console.py:81-84 | a text has only one split into lines that each end in their only newline and a rest without one |
| `Console.LinesOfMore` | src/qs/api/console.py:80-84 | more text continues the unfinished line and keeps the finished ones |
| `Console.ReadBack` | src/qs/api/console.py:101-104 | reading back n lines gives the last min(n, ring size) complete lines of everything fed, which with the unfinished one end the text |
| `Console.ReadBackAny` | src/qs/api/console.py:101-104 | what any integer n reads back: 0 all the ring holds, a negative n all of it but the first -n |
| `Console.ReadsLastLinesExactlyWhen` | src/qs/api/console.py:101-104 | the text read back is that of the last n lines exactly when the ring is large enough; for n of 0 or below, where that is nothing, exactly when the ring holds at most -n lines |
| `Console.ConsoleCapture.constructor` | src/qs/api/console.py:50-57 | nothing captured |
| `Console.ConsoleCapture.Feed` | src/qs/api/console.py:76-86 | one piece of text |
| `Console.ConsoleCapture.CutLines` | src/qs/api/console.py:79-84 | the complete lines, and what is left |
| `Console.ConsoleCapture.AppendAll` | src/qs/api/console.py:85-86 | the lines one by one |
| `Console.ConsoleCapture.Append` | src/qs/api/console.py:88-93 | appends to the ring, dropping the oldest when full |
| `Console.ConsoleCapture.Text` | src/qs/api/console.py:101-104 | what Python's slice from -n takes, joined; 0 takes everything |

## Left out

- FastAPI routes other than the batch move, authentication, websockets, `qsctl`, configuration, logging: plumbing.
- Profile sources, namespace scanning, registry lookup and parameter binding: `validate` is an arbitrary predicate on items; that a plan cannot be resolved is one of the outcomes.
- The RunEngine's inside: any return, exception or interruption. Exceptions outside `Exception` are not modelled; they would leave the host RUNNING.
- SQL sessions, commits and isolation: each call is one transaction. Only history writes may fail; a failing `pop_front` or `list_items` ends the loop thread. The history table is a list.
- SQL `move` as two transactions: the model has no failure between them.
- uuid generation and clocks: parameters. New uids are required to be new where a claim needs it.
- Log lines, headlines, `last_error` of the sequencer, abort reasons, the tracebacks, root causes, run uids and plan results in the host's outcomes, and the events of sequencer and source loading: text and notification only.
- Two overlapping unlocked flushes: the machine's flush is one step.
- Liveness: nothing says that the loop or the engine ever takes its next step; what a start is undone by is stated (`SequencerLimits.StartUndoneExactlyWhen`).
- `start` of the host is one step: its thread does nothing before NO_ENGINE is set.
- Progress callbacks after their wait has ended, and what may come between the two locked parts of `on_done`; the chained hook.
- Exceptions that are false in a boolean context or whose status gives a different exception each time.
- Concurrent `feed` calls on the console, message times and uids; rounding of the seconds in the status document.
- The classes are sequential, one call at a time; interleavings are in the state machines. `QueueService` works on the in-memory repository; `SqlTable.RunRefines` carries its calls over to the table.
- EngineHost.EngineHost.HandlePause: nobody shuts the host down or stores a directive while the engine runs; both are in the state machine (HostHandshake, HostShutdown).
- EngineHost.EngineHost.WaitDirective: a wait that is never ended returns nothing, because a method has to return.
- EngineHost.EngineHost.LoadSource: reading the source, the hooks installed on the engine, the load result and a failure after the engine is installed are not modelled.
- Composition.RunPlanNeverRefused: takes any outcome for a resolved future, because the sequencer's guarantees hold for every outcome.
