# Verified model of the Webex headless messenger's delivery and state core

This Dafny project models the four stateful parts of the repository that have to stay correct over whole
runs, and proves what they promise:

1. **Catch-up polling** (`src/realtime.rs`): one room's poller scans a paginated message log newest first,
   across page errors, page limits, overlapping pages, new messages and reconfigurations; the joined-room
   poller adds discovery, retired rooms, concurrent room polls and batches that are held back while a room
   still has backlog.
2. **The JSONL state log** (`src/state.rs`): records, replay, attempt leases with owner tokens, the repair of
   a torn tail, appends cut off by a crash, and several handles on one file.
3. **The account bot** (`examples/account_bot.rs`): the store of processed messages with its failed writes,
   the in-flight guards, the state file and its percent-encoded ids, and the event limit.
4. **The sidecar's forward queue** (`examples/sidecar-js/index.mjs`): slots, budget, waiters and retries.

`dafny verify dfyconfig.toml` checks the whole project.

## How things are represented

- **Methods and functions.** What the source does step by step is a method or a class here: fields are
  updated in place, loops carry invariants. Each is proved equal to a function on values, and the
  properties over runs are lemmas about those functions. `Watch`, `World`, `System` and `Sidecar` values are
  the states of such runs.
- **The message service** is an append-only log of messages with distinct ids per room. A page lists a
  contiguous stretch of it, newest first; a `next` link stands for everything older than a position. A page
  may list again what the scan already has, and may contain items without an id. A request may fail at any
  time, a poll may time out or be dropped at any time, and the log may grow with every event.
- **A room's progress** is three positions in its log (`Marks`): where delivery starts, how far it is
  committed, and how far down a scan in progress has come.
- **Concurrency.** The answer of every concurrent room poll, the order in which they finish, every disk
  outcome, the clock and the process id are parameters, so a statement holds for all of them. Store
  operations run under the state lock and are atomic; `PathLock.dfy` says why. Event slots are modelled at
  the grain of single atomic operations, forwards at the grain of the code between two awaits.
- **Disk.** A write of the state log or the bot's file succeeds, fails leaving nothing, or fails after it
  has taken effect. A crash may leave any first part of the bytes of an append.
- **Record encoding.** The log is proved for every encoding that writes one non-empty line which parses
  back and of which no proper non-empty prefix parses (`LogBytes.GoodCodec`); `LogCodec.dfy` gives one.
- **Text.** A Dafny `string` is a sequence of Unicode scalar values; bytes appear where the source works on
  them, with the UTF-8 encoding of RFC 3629 in `Utf8.dfy`.

| files | about |
|---|---|
| SeenWindow, PollerModel, Poller, RoomDelivery, PollOutcome, RoomRuns | one room |
| Discovery, MultiRoomModel, MultiRoom, RoomTurns, RoomMemory, BatchOrder, BatchDelivery, BatchDraining, PassReport, Sorting, TextOrder | all joined rooms |
| StateLog, StateStore, LeaseProtocol, LogBytes, LogRepair, LogRuns, LogCodec, PathLock | the state log |
| Durable | poller and state log together, with crashes and failed saves |
| BotStore, BotOperations, BotGuarantees, BotGuards, BotHistory, BotFile, StateId, Utf8, Text, EventSlots | the account bot |
| ForwardModel, ForwardScheduler, ForwardGuarantees | the sidecar's forwards |
| Wrappers, Counting | shared by several |

## Where the code does less than one may expect

Each of these is kept as the code has it, with a lemma that says exactly when the plain claim holds; where
an instance is named, it does not.

- After a reply was accepted and saved, the bot does not always remember the message until max_ids other
  messages have come after it: ids whose own write had failed are appended behind it by the same write. It
  is remembered at all exactly if fewer than max_ids such ids were waiting (`BotHistory.ReplyIsRecordedIff`
  for every state, `BotHistory.FreshReplyIsRecordedIff` for a message not queued yet), and it takes max_ids
  less those to forget it (`BotHistory.SavedCompletionIsRememberedIff`). Instances:
  `BotHistory.ForgottenAtOnce`, `BotHistory.ForgottenAfterOne`.
- A batch over several rooms is sorted by creation time first, so a room's messages keep the order of its
  log exactly if the room lists them in order of creation (`BatchDelivery.ShareKeepsOrderIffChronological`,
  instance `BatchDelivery.SortingSwaps`). That nothing is skipped or repeated does not depend on it.
  README.md of the repository promises chronological order; order across rooms exists only inside a batch.
- A lost lease token stays lost exactly as long as no start hands the same token out again
  (`LeaseProtocol.LostOwnershipReturnsIff`); tokens are new exactly if microsecond, process id and sequence
  number are (`LeaseProtocol.FreshIffOriginIsNew`), which a restart with the same process id does not ensure
  (`LeaseProtocol.ReusedTokenOwnsAgain`).
- A handle's snapshot is a fresh replay of a valid log after every operation that read it except one: an
  append that changes the replay, reaches the disk and then fails (`StateStore.StaleIff`, `StateStore.RecordChangesIff`).
  `snapshot` and `contains_processed_message` answer from it without a refresh until the next operation
  (instance `StateStore.MarkedOnDiskOnly`).
- One room can hold back every room's messages for ever. If each room's catch-up fits the limit, a held
  batch is released within a bounded number of answered passes (`BatchDraining.HeldBatchIsReleased`); an
  active room with a cursor whose catch-up is over the limit is never released, whatever is answered
  (`BatchDraining.OverfullRoomHoldsAll`, instance `BatchDraining.SecondPageIsTooMuch`).
- A message whose reply attempt is still live gets a second guard exactly if its lease has run out and the
  write succeeds (`BotGuards.SecondGuardIffOverdue`, instance `BotGuards.OverdueGuardIsDoubled`).
- The bot's state file gives its ids back exactly if none is empty, and its leases exactly if none has a
  blank id (`BotFile.OrderRoundTrip`, `BotFile.LeaseRoundTrip`; `BotFile.LoadedOfWritten` says what comes
  back instead).
- Without an event limit nothing is ever counted as completed, so accepted events stay within completed
  ones exactly while there are none (`EventSlots.AcceptedWithinCompleted`, instance
  `EventSlots.AcceptedWithoutLimit`).
- The forward queue is not fair. There is a free slot for every woken forward exactly as long as no new
  forward, and none that ends its sleep, takes a slot when those free are no more than those woken
  (`ForwardGuarantees.FairIffNothingOvertakes`, instance `ForwardGuarantees.NewcomerOvertakes`); for a single
  forward see `ForwardGuarantees.WokenGetsSlotIff`. No wake-up is lost all the same.
- The errors of a batch, unlike its messages, checkpoints and rooms, depend on the order in which polls
  finish: two executions list the same events exactly if the failing rooms finish in the same order
  (`BatchOrder.EventsAgreeIffFailuresDo`, instance `BatchOrder.TimeoutsListedAsTheyFinish`).

## Model

| member | source | states |
|---|---|---|
| RoomRuns.ExactlyOnceInOrder | src/realtime.rs:435-601 | Over any run of polls, interrupted polls and reconfigurations, everything emitted is one contiguous slice of the log, oldest first; its start is fixed once the poller is initialized, its end never goes back. Holds for every window size, one included. |
| RoomRuns.StepDelivers | src/realtime.rs:435-601 | One event keeps that invariant and moves the committed boundary exactly by what it emits. |
| RoomDelivery.PollDelivers | src/realtime.rs:457-601 | One poll, whatever the service answers, keeps the room's invariant; what it emits is exactly the stretch by which the committed boundary moves, and a failed poll moves nothing. |
| RoomDelivery.TransactionCovers | src/realtime.rs:457-571 | A transaction's update holds exactly the unseen messages between the boundary and how far the scan came, with their ids, and commits only when that stretch is complete. |
| RoomDelivery.CollectSlice | src/realtime.rs:250-283 | A page adds to a scan exactly the messages older than what the scan has, down to the page's end or the boundary, and meets a known message exactly when it reaches below the boundary. |
| RoomDelivery.WindowSeparates | src/realtime.rs:222-248 | A window of the newest committed ids, however short, tells committed messages from newer ones where a scan meets them. |
| PollOutcome.PollEnds | src/realtime.rs:457-571 | How any served poll ends, in positions of the log: what waits is emitted without a request; otherwise the pages taken in decide whether it commits, keeps what it has with the last page's link, fails and changes nothing, or reports that the limit is exceeded, and exactly what is emitted, kept and taken into the window. |
| PollOutcome.KeepsOnFailureIff | src/realtime.rs:535-555 | A poll fails and still keeps what it has if and only if the poller may keep an unfinished scan and the request after some page fails, where every page so far fitted the limit, met no known message, had a next link and left another page to the poll. It then holds exactly the messages listed down to where those pages reach, and the last one's link. |
| RoomRuns.SeededPoller | src/realtime.rs:403-421 | A poller seeded with a checkpoint of a position carries on from exactly that position. |
| RoomRuns.FlagOfCheckpoint | src/realtime.rs:753-763 | A checkpoint without ids makes everything be delivered or, without its flag, a first baseline; with ids the flag does not matter. |
| RoomRuns.SetConfigKeeps | src/realtime.rs:370-377 | Reconfiguring, including re-cutting the window from its original seed, keeps the room's delivery invariant. |
| RoomRuns.SeedIsCutAnew | src/realtime.rs:370-377 | Until something is committed, reconfiguring cuts the window from all the checkpoint's ids, so what a smaller limit dropped comes back under a larger one; afterwards it does not. |
| RoomRuns.PollFits | src/realtime.rs:306-319 | Whatever the service answers, no update and no buffer exceeds max(1, max_pending_messages). |
| RoomRuns.PollDrains | src/realtime.rs:495-570 | A poll whose answers all arrive commits the whole unseen slice or moves its cursor strictly older; it fails only if the slice exceeds the limit, and then nothing is emitted, committed or changed. |
| RoomRuns.AnsweredPoll | src/realtime.rs:495-570 | The same for any poller, initialized or not: a slice that fits never fails, and a commit over unseen messages remembers at least one. |
| RoomRuns.DrainTerminates | src/realtime.rs:495-570 | A slice that fits the limit is committed: there are at most as many answered polls without a commit as the slice has messages. |
| SeenWindow.RememberFresh | src/realtime.rs:222-248 | Remembering distinct ids never seen before is putting them in front and cutting the oldest ones off. |
| SeenWindow.RememberKnown | src/realtime.rs:222-236 | Ids that are in the window already leave it as it is. |
| SeenWindow.RememberKeepsWindow | src/realtime.rs:222-248 | For any ids, repeated and known ones included, the window stays duplicate-free and within its limit. |
| SeenWindow.Reseed | src/realtime.rs:423-427 | Feeding a window its own contents rebuilds it in the same order. |
| SeenWindow.SeenMessageIds.RememberNewestFirst | src/realtime.rs:222-236 | The set and queue updated in place agree with each other and with the window function the lemmas are about. |
| SeenWindow.SeenMessageIds.Truncate | src/realtime.rs:238-247 | Dropping from the oldest end leaves the newest max(1, n) ids, and the set loses exactly the dropped ones. |
| Poller.CollectPageMessages | src/realtime.rs:250-283 | The page loop returns the unseen messages, their ids and whether a known one was met, as the delivery lemmas use them. |
| Poller.MessagePoller.PollOnceTransaction | src/realtime.rs:457-571 | The page loop gives the transaction the delivery lemmas are about, on success, on page errors with and without kept progress, and on exceeded limits, and changes nothing itself. |
| Poller.MessagePoller.PollOnce | src/realtime.rs:435-449 | A poll applies its update, or the progress an error kept, and returns the messages of a successful one. |
| Discovery.DiscoverJoinedRooms | src/realtime.rs:167-209 | The page loop with its index map gives the discovery that the next three rows are about. |
| Discovery.AcceptedWithinLimit | src/realtime.rs:180-208 | A complete listing is accepted if and only if it names at most max(1, max_rooms) different rooms; the limit checked after every page never rejects more. |
| Discovery.SucceedsIff | src/realtime.rs:167-209 | Discovery succeeds if and only if every page arrives and the rooms fit the limit: a listing that breaks off is never taken for the whole one. |
| Discovery.LatestOfMerged | src/realtime.rs:184-196 | The merged list has for every room id its latest listing, so refreshing with it is refreshing with everything listed. |
| Discovery.MergedOnce | src/realtime.rs:184-196 | No room id is in the merged list twice. |
| Discovery.KeepsPlace | src/realtime.rs:184-196 | A room listed again keeps the place of its first listing. |
| BatchDelivery.EveryRoomExactlyOnce | src/realtime.rs:726-931 | For every room and every run of refreshes, batches and reconfigurations, what was emitted for the room is a permutation of one contiguous slice of its log, whatever the order of creation, also when the room disappears, is evicted to a checkpoint and comes back; if the log is in order of creation it is that slice in order. |
| BatchDelivery.BatchStep | src/realtime.rs:791-931 | One batch emits for a room a permutation of exactly the stretch by which the room's boundary moves. |
| BatchDelivery.DeliveredOnce | src/realtime.rs:726-931 | In every such state each message between the room's start and its boundary has been emitted exactly once, and no other message at all. |
| BatchDelivery.EveryRoomInOrder | src/realtime.rs:726-931 | Over every such run a room whose log is in order of creation has been emitted in that order. |
| BatchDelivery.BatchRoom | src/realtime.rs:791-931 | For any outcome of a room's poll, the room's boundary moves past messages exactly when this batch emits them. |
| BatchDelivery.HeldIffBacklogLeft | src/realtime.rs:815-847 | A batch holds its messages back if and only if it leaves some active room with pending backlog. |
| BatchDelivery.BacklogAfter | src/realtime.rs:815-847 | A room is left with backlog exactly if its own poll holds the batch back or its finished catch-up is put back because of another room. |
| BatchDelivery.ShareOfBatch | src/realtime.rs:815-847 | Among the events of an emitted batch, a room's messages are a permutation of what its poll had ready, and exactly that if it is in order of creation; of a held batch there are none. |
| BatchDelivery.ShareKeepsOrderIffChronological | src/realtime.rs:1147-1158 | Sorting the batch keeps a room's order if and only if the room lists its messages in order of creation. |
| BatchDelivery.SortingSwaps | src/realtime.rs:1147-1158 | A concrete room whose two messages are emitted in the opposite order of its log. |
| BatchDelivery.ShareIsChronological | src/realtime.rs:1147-1158 | What a batch emits for a room is in order of creation, whatever the log's order. |
| BatchDelivery.BatchKeepsInv | src/realtime.rs:791-847 | A batch keeps active rooms, inactive rooms and saved checkpoints pairwise disjoint and every poller well-formed. |
| BatchDelivery.TransactionShape | src/realtime.rs:457-571 | A transaction either commits and leaves nothing pending or keeps a cursor to go on from; an error never commits. |
| BatchDelivery.RunsStart | src/realtime.rs:656-715 | A new joined-room poller, seeded with any checkpoints or none, starts such runs: a seeded room has been delivered up to the position its checkpoint stands for. |
| BatchDelivery.ReseededAt | src/realtime.rs:690-715 | Seeding a running poller makes each seeded room deliver from the position its checkpoint stands for, whether it is active, inactive or not known yet. |
| BatchDraining.HeldBatchIsReleased | src/realtime.rs:791-847 | If what each active room has to catch up on fits max_pending_messages, no room joins, nothing new is listed and all polls are answered, then within n + 1 passes, n being the longest catch-up, one is not held; nothing is emitted before it, it emits for each room, unless that is still at a first baseline it does not emit, exactly what the room had to catch up on from the start, and no backlog is left. |
| BatchDraining.FitsDrains | src/realtime.rs:306-319 | Any room whose unseen messages fit the limit may start such passes, with no more left to scan than those. |
| BatchDraining.FirstReleased | src/realtime.rs:791-847 | However the polls of a pass finish, there are at most as many held passes in a row as the longest catch-up has messages left to scan. |
| BatchDraining.HeldRoom | src/realtime.rs:815-847 | In a held pass a room's scan comes at least one message closer to its boundary, or its catch-up is complete and waits; a room with nothing left to scan never holds a batch. |
| BatchDraining.OverfullRoomHoldsAll | src/realtime.rs:849-931 | A room with a cursor and more listed above its boundary than max_pending_messages keeps both whatever its polls meet, so every batch it takes part in emits nothing for any room, through refreshes and retirements, until it is reconfigured. |
| BatchDraining.SecondPageIsTooMuch | src/realtime.rs:306-319 | A concrete poll that leaves a room in that state: two new messages, one to a page, one page to a poll, one message to be kept. |
| BatchOrder.FinishOrderDoesNotMatter | src/realtime.rs:849-931 | Two executions that differ only in the order the polls finish leave the same rooms, emit the same messages in the same order, and return the same checkpoints. |
| BatchOrder.EventsAgreeIffFailuresDo | src/realtime.rs:849-931 | Two such executions list the same events in the same order if and only if the failing rooms finish in the same order. |
| BatchOrder.ErrorsFollowOrder | src/realtime.rs:890-917 | A batch's errors are those of the failing rooms, one each, in the order their polls finish. |
| BatchOrder.TimeoutsListedAsTheyFinish | src/realtime.rs:906-917 | Two rooms that time out are listed in either order, as they finish. |
| BatchOrder.BeforeIsStrictOrder | src/realtime.rs:1147-1158 | The comparison by creation time, room, place and id is a strict order. |
| BatchOrder.AppliedRooms | src/realtime.rs:815-847 | Applying a batch's updates changes every finished room by its own update and no other room. |
| BatchOrder.FinishedMessages | src/realtime.rs:849-931 | The collected messages are exactly the union of what the rooms' polls had ready, whatever the finish order. |
| MultiRoom.MultiRoomMessagePoller.PollRoomsConcurrently | src/realtime.rs:849-931 | Whichever running poll finishes next: every active room starts in key order and finishes once, after it started, at most max(1, max_concurrent_room_polls) polls run at any point of the trace, and the batch is that of the finish order. |
| RoomTurns.OrderIsPossibleIff | src/realtime.rs:849-931 | An order is the finish order of some such trace if and only if every room that finishes k-th is among the first k + limit rooms to start. |
| MultiRoom.MultiRoomMessagePoller.PollOnce | src/realtime.rs:791-847 | A pass fails, and changes nothing, exactly if there never was a discovery and this one fails; otherwise it refreshes if needed or due, still polls the known rooms if that fails, and reports what PassReport.BatchReports says, the failed refresh included. |
| PassReport.BatchReports | src/realtime.rs:803-847 | The events of a pass are the deliveries, then the failed refresh, then one failure for each room whose poll failed, with its error, and nothing else. The deliveries are, in order of time and room, all that the rooms' polls had ready, or nothing if a room is left with backlog. The checkpoints are, in order of room ids, the windows of exactly the rooms whose poll succeeded and left no backlog. |
| TextOrder.LessIff | src/realtime.rs:842-842 | The order of room ids is that of their characters: the first difference decides, and a text comes before its continuations. |
| PassReport.RefreshFailureOnce | src/realtime.rs:803-827 | So a refresh that fails is among the events exactly once, and no refresh failure is otherwise. |
| MultiRoom.ChangedFilterIsApplied | src/realtime.rs:669-684 | After a change of the discovery filter a pass fails unless discovery succeeds, and then polls exactly the rooms just listed. |
| MultiRoom.SameFilterGoesOn | src/realtime.rs:669-684 | With the same filter the known rooms go on being polled, whatever discovery answers. |
| MultiRoom.MultiRoomMessagePoller.RefreshRooms | src/realtime.rs:726-784 | The map and queue edits in place give the refresh the next rows are about. |
| MultiRoom.MultiRoomMessagePoller.ApplyUpdates | src/realtime.rs:815-847 | Applying updates room by room gives the rooms and checkpoints of the batch. |
| MultiRoom.PruneInactiveRooms | src/realtime.rs:1073-1108 | The pruning loop gives the pruning that RoomMemory.PruneStops and PruneRoom are about. |
| MultiRoom.FirstWithoutBacklog | src/realtime.rs:1080-1092 | The scan of the queue finds its first room without backlog, if there is one. |
| RoomMemory.RefreshRemembers | src/realtime.rs:726-784 | A refresh keeps the three maps disjoint and the queue a permutation of the inactive rooms; the active rooms are exactly the discovered ones under their latest listing; every room is remembered; at most the limit of inactive rooms is left unless all left have backlog. |
| RoomMemory.RefreshKeepsBacklog | src/realtime.rs:726-784 | A room with pending backlog is never dropped or changed by a refresh. |
| RoomMemory.RefreshRoom | src/realtime.rs:726-784 | The same for one room: where it is afterwards and what is remembered of it. |
| RoomMemory.PruneStops | src/realtime.rs:1073-1108 | Pruning ends with at most the limit left or with nothing but backlogged rooms. |
| RoomMemory.PruneRoom | src/realtime.rs:1073-1108 | Pruning forgets a room only if it has no backlog, and keeps its checkpoint. |
| RoomMemory.OldestForgottenFirst | src/realtime.rs:1073-1108 | Of two rooms that are not listed any more, the one retired earlier is forgotten first, if it has no backlog; rooms active until now are retired last. |
| RoomMemory.ForgottenOnlyOverLimit | src/realtime.rs:1073-1108 | A room is forgotten only if as many inactive rooms are left as the limit allows. |
| RoomMemory.RestoredIsSame | src/realtime.rs:753-763 | Evicting a room without backlog and rediscovering it gives back the same window, flags and empty buffers. |
| RoomMemory.CheckpointRebuilds | src/realtime.rs:573-589 | The checkpoint a committed update returns rebuilds exactly the poller that the update leaves behind. |
| RoomMemory.WithConfigKeeps | src/realtime.rs:669-684 | Reconfiguring keeps the maps' invariant. |
| RoomMemory.WithRoomCheckpointsKeeps | src/realtime.rs:690-715 | Seeding keeps the maps' invariant. |
| RoomMemory.SeededMemory | src/realtime.rs:690-715 | A seeded room becomes what a new poller with that checkpoint is, wherever it is; a known room without a seed stays as it is, and earlier seeds of unknown rooms are dropped. |
| Sorting.SortSorts | src/realtime.rs:815-830 | Sorting a batch by a strict order on comparable elements gives a strictly sorted sequence of the same elements. |
| Sorting.ArrivalOrderDoesNotMatter | src/realtime.rs:815-830 | Batches with the same elements sort to the same sequence. |
| Durable.NothingIsSkipped | src/realtime.rs:573-601 | Through any life of batches, refreshes, reconfigurations, saves that fail part way and are followed by a restart or by further polling, and crashes between any two steps, everything from a room's first durable checkpoint to its committed boundary has been handled, and the durable checkpoint never moves back or past that boundary. |
| Durable.NothingCoveredIsRepeated | src/state.rs:349-364 | In every such life no batch emits a message that the room's durable checkpoint covers, even if only some of an earlier batch's checkpoints were written, with or without a restart after it. |
| Durable.BatchHappens | src/state.rs:349-364 | One batch, handled up to any event before a restart, or fully handled and saved up to any checkpoint with or without one, keeps that invariant. |
| Durable.RestartAt | src/realtime.rs:690-715 | A restart resumes exactly at the durable checkpoint. |
| Durable.BatchCheckpointAt | src/realtime.rs:573-584 | The checkpoint a batch returns for a room stands for the room's new boundary. |
| StateLog.ReplayIsFilteredHistory | src/state.rs:600-665 | Replaying with pruning at every record equals replaying without a clock and filtering once; a replay succeeds exactly when every record is valid. |
| StateLog.ReplaySucceedsIff | src/state.rs:600-660 | A replay succeeds if and only if every record has the supported version and no blank id where it needs one. |
| StateLog.ReplayOfMessage | src/state.rs:600-665 | What a replay gives for a message, record by record: processed if and only if some record says so; leased under a token until a time if and only if that time is to come, no record says it is processed, and the last record to lease it grants just that with no later release under the token. |
| StateLog.ReplayOfRoom | src/state.rs:650-656 | A room's checkpoint in a replay is the one saved last. |
| StateLog.LaterReplayIsFilter | src/state.rs:600-665 | A replay at a later time is a filter of the replay at an earlier one. |
| StateLog.AppendMatchesReplay | src/state.rs:388-398 | Applying a record to a fresh replay gives the fresh replay of the longer log. |
| StateLog.ApplyLive | src/state.rs:600-665 | Dropping expired leases commutes with applying any valid record. |
| StateLog.SavedCheckpoints | src/state.rs:349-364 | Saving checkpoints overwrites those rooms' checkpoints in the replay and nothing else. |
| StateLog.Snapshot.ApplyRecord | src/state.rs:600-660 | The three collections updated in place are those of the record function, and a rejected record changes nothing. |
| StateStore.JsonlStateStore.RefreshAt | src/state.rs:382-386 | The snapshot becomes a fresh replay of the log's records at that time, or stays as it was if there is none. The repair of the bytes before it is LogRuns.FileStore.RefreshAt. |
| StateStore.JsonlStateStore.AppendAfterCurrentSnapshot | src/state.rs:388-398 | An invalid record is refused before anything is written; after success the snapshot is a fresh replay of the longer file, and after a refusal or a failed write it is what it was. |
| StateStore.JsonlStateStore.BeginAttemptAt | src/state.rs:244-270 | The store, its file and the counter change as the protocol's operation says; the snapshot is a fresh replay of the file after success, of the file as it was before after a failure, and untouched if the id is blank or the log is invalid. What that is in terms of replays is StateStore.BeginOutcome, which its contract states too. |
| StateStore.JsonlStateStore.ReleaseAttemptAt | src/state.rs:276-286 | As above, for a release by the owner only. What that is in terms of replays is StateStore.ReleaseOutcome, which its contract states too. |
| StateStore.JsonlStateStore.DeferAttemptAt | src/state.rs:292-308 | As above, for an extension by the owner only. What that is in terms of replays is StateStore.DeferOutcome, which its contract states too. |
| StateStore.JsonlStateStore.MarkProcessedAt | src/state.rs:314-329 | As above, for completion by the owner only. What that is in terms of replays is StateStore.MarkOutcome, which its contract states too. |
| StateStore.JsonlStateStore.EnsureAttemptOwner | src/state.rs:366-380 | Succeeds exactly for the token that holds an unexpired lease on a message not processed. |
| StateStore.JsonlStateStore.SaveRoomCheckpoints | src/state.rs:349-364 | The file grows by exactly the first checkpoints' records, all of them on success; the snapshot is a fresh replay of those appended successfully, also after a failure part way, when at most the record that failed may be on disk besides. |
| StateStore.BeginOutcome | src/state.rs:244-270 | In terms of replays before and after: an attempt starts if and only if the message is neither processed nor leased, the length asked for can be granted and the write succeeds; the log then holds the message under that token until exactly now plus that length, one second if none was asked for. |
| StateStore.DeferOutcome | src/state.rs:292-308 | The owner's lease then ends exactly the requested length from now; anyone else, and a length that is too large, is refused and nothing changes. |
| StateStore.ReleaseOutcome | src/state.rs:276-286 | The owner's lease is gone from the replay and nothing else changes; anyone else is refused. |
| StateStore.MarkOutcome | src/state.rs:314-329 | The owner's message is processed and its lease gone in the replay, and nothing else changes; a processed message is left alone and anyone else refused. |
| StateStore.SaveOutcome | src/state.rs:335-347 | The room's checkpoint in the replay is the saved one and nothing else changes; a blank room id is refused. |
| StateStore.StaleIff | src/state.rs:388-398 | After an operation that read a valid log, the handle's snapshot differs from a fresh replay of the log if and only if the operation had a record to append that changes the replay, and the append failed after the record was on disk. |
| StateStore.RecordChangesIff | src/state.rs:600-665 | Such a record changes the replay unless it extends a lease to the time it has or saves a checkpoint that is there. |
| StateStore.MarkedOnDiskOnly | src/state.rs:228-238 | A concrete mark whose append reaches the disk and then fails: the log has the message processed and the handle's snapshot does not. |
| LeaseProtocol.SecondStartNeedsEnd | src/state.rs:244-329 | In any interleaving of handles and any restarts, with a non-decreasing clock, two starts of one message mean that a release of the first token was recorded or its last granted lease ran out in between; the tokens differ if the second is not in the log for the message yet. |
| LeaseProtocol.LostOwnershipStaysLost | src/state.rs:366-380 | If starts hand out tokens that are new in the log, a token that has lost its message never owns it again, in this process or a later one. |
| LeaseProtocol.LostOwnershipReturnsIff | src/state.rs:366-380 | Without that condition: a token that has lost its message owns it again if and only if a later start hands the same token out for it again. |
| LeaseProtocol.FreshIffOriginIsNew | src/state.rs:880-896 | A start's token is new in the log for its message if and only if none of the message's tokens there was made of the same microsecond, process id and sequence number. |
| LeaseProtocol.OneProcessIsFresh | src/state.rs:880-896 | The starts of one process all hand out new tokens if the log held none that the process can still make. |
| LeaseProtocol.ReusedTokenOwnsAgain | src/state.rs:880-896 | A restarted process with the same process id, starting in the same microsecond, makes the same token again, and the first attempt owns its message again after having released it. |
| LeaseProtocol.ProcessedOnce | src/state.rs:314-329 | Whatever processes work on a log, one that holds at most one processed record for a message never gets a second. |
| LeaseProtocol.ProcessedIsFinal | src/state.rs:244-270 | Once a message is processed, every later begin answers that it is processed, after restarts too. |
| LeaseProtocol.PerformAppends | src/state.rs:244-398 | An operation appends at most one record, and only one that the history so far allows. |
| LeaseProtocol.StartAppends | src/state.rs:244-270 | An attempt starts only for a message neither processed nor leased in the log's history, with its record last in the log, under the counter's next number, which is then used up. |
| Text.AttemptTextDiffers | src/state.rs:880-896 | Attempt ids with different sequence numbers differ, whatever the clock and process id. |
| Text.AttemptTextIsInjective | src/state.rs:880-896 | An attempt id determines the microsecond, process id and sequence number it was made of. |
| LogRepair.AppendIsAtomic | src/state.rs:829-866 | Cutting the file at any byte of an append and repairing it leaves exactly the old records or the old records and the new one. |
| LogRepair.AppendAddsOneLine | src/state.rs:829-866 | An append ends an unfinished last line and adds exactly one line to the file's lines. |
| LogRepair.RepairKeepsLines | src/state.rs:739-752 | Repair cuts only at a line boundary, drops no newline-terminated record, reads back the same records and is idempotent. |
| LogRepair.ParseReplaysRecords | src/state.rs:681-737 | Parsing gives the replay of the file's records and the length of what it read, and fails exactly when a complete line is no valid record. |
| LogRepair.LogFile.RepairIncompleteTail | src/state.rs:739-752 | A readable file is cut to its valid length, an unreadable or missing one is left alone. |
| LogRepair.LogFile.AppendStateRecord | src/state.rs:829-852 | The file grows by exactly the bytes that AppendIsAtomic cuts, an unfinished last line being ended first. |
| LogRepair.LogFile.LoadAt | src/state.rs:542-553 | A missing file is empty; otherwise loading succeeds exactly if the file is readable and gives the replay of its records. |
| LogRuns.RunIsSeen | src/state.rs:382-398 | A run of operations over the file's bytes, every append cut off at any byte, and of restarts is a run of the lease protocol with the same answers; in every state the protocol's records are what the bytes read back as. |
| LogRuns.OperationIsSeen | src/state.rs:382-398 | One operation that repairs, replays and appends, cut off anywhere, keeps the file readable and is one operation on its records. |
| LogRuns.SecondStartInFile | src/state.rs:244-329 | Over bytes, too, two starts of one message mean a recorded release or a lease that ran out in between. |
| LogRuns.ProcessedOnceInFile | src/state.rs:314-329 | Over bytes, too, a message gets at most one processed record. |
| LogRuns.FirstPartIsSaved | src/state.rs:349-364 | Saving a batch's checkpoints until one fails, cut off at any byte, leaves a file that reads back with a first part of them saved, all of them if the last one succeeds. |
| LogRuns.FileStore.RefreshAt | src/state.rs:382-386 | Refreshing succeeds exactly if the file is readable; it leaves the repaired bytes, which hold the same records, and a snapshot that is their replay. |
| LogBytes.ParseSnapshotBytes | src/state.rs:681-737 | The offset loop gives the line-by-line parse the repair lemmas are about, with the same error line and valid length; ending at a torn tail without a last pruning changes nothing. |
| LogBytes.ErrorIsAtFirstBadLine | src/state.rs:681-737 | A parse fails if and only if some line is no record or an invalid one, not counting a torn last line, and names the first such line. |
| LogBytes.SplitOfJoin | src/state.rs:695-731 | Splitting undoes joining lines. |
| LogBytes.JoinOfSplit | src/state.rs:695-731 | Joining undoes splitting, and every split is well-formed. |
| LogCodec.GoodCodecExists | src/state.rs:829-852 | A concrete record encoding meets what the log asks of its encoding: one line, parses back, no proper prefix parses. |
| PathLock.StatePathLocks.OneHolder | src/state.rs:29-79 | Because every file's keys include one for the process, at most one operation of the process holds a lock, whichever files are involved. |
| PathLock.StatePathLocks.TryAcquire | src/state.rs:48-66 | Keys are taken all together exactly if none is held, and holders' keys stay disjoint. |
| PathLock.StatePathLocks.Drop | src/state.rs:69-79 | Exactly the holder's keys become free. |
| BotGuarantees.OperationsKeepStore | examples/account_bot.rs:1471-1636 | Through every operation and every failed write the queue is duplicate-free, has the ids of the set and at most max_ids of them, and in-flight ids have leases. |
| BotGuarantees.ForgottenOnlyWhenPushedOut | examples/account_bot.rs:1529-1601 | Processed and volatile ids together lose an id only when a full window of other ids, all appended to the queue behind it, pushed it out. |
| BotGuarantees.ReplyIsRecorded | examples/account_bot.rs:1852-1906 | After a reply was accepted or may have been, the message is recorded, or ids appended behind it by the same write fill the window. BotHistory.ReplyIsRecordedIff says which. |
| BotGuarantees.RestartedOnlyAfterEviction | examples/account_bot.rs:1471-1498 | In any run, a recorded message is started again only after a full window of other ids, all appended to the queue behind it, had pushed it out. |
| BotHistory.ReplyIsRecordedIff | examples/account_bot.rs:1852-1906 | After a reply the message is recorded if and only if the write fails, or what is queued behind it already and what its own write appends there are together fewer than max_ids. |
| BotHistory.FreshReplyIsRecordedIff | examples/account_bot.rs:1852-1906 | For a message not in the queue, with no waiting id in the queue: if and only if the write fails or fewer than max_ids other ids are waiting to be saved. |
| BotHistory.RecordedIffRecent | examples/account_bot.rs:1529-1601 | In any run, a message counts as processed if and only if it waits to be saved or fewer than max_ids ids were appended after its last appearance in everything ever appended. |
| BotHistory.QueueIsWindow | examples/account_bot.rs:1529-1601 | In any run the queue is the last max_ids of everything ever appended to it. |
| BotHistory.SavedCompletionIsRememberedIff | examples/account_bot.rs:1529-1601 | After a saved completion a message stays recorded exactly as long as the ids that were waiting then and the ids appended since are together fewer than max_ids. |
| BotHistory.SavedCompletionIsRestartedIff | examples/account_bot.rs:1471-1498 | It is started again if and only if those are max_ids or more, no lease on it is left and the write succeeds. |
| BotHistory.ApartInRuns | examples/account_bot.rs:1631-1636 | In every run where guards resolve before their leases run out, no id that waits to be saved is in the queue. |
| BotHistory.ForgottenAtOnce | examples/account_bot.rs:1594-1601 | With a window of one and one id waiting, a message is forgotten by the write that saves it and is started again at once. |
| BotHistory.ForgottenAfterOne | examples/account_bot.rs:1594-1601 | With a window of two and one id waiting, a saved message is forgotten and started again after a single later one. |
| BotGuarantees.AddAllIsWindow | examples/account_bot.rs:1731-1745 | Whatever ids are added, the queue is the last max_ids of everything ever appended to it. |
| BotStore.ProcessedMessageStore.BeginAttemptAt | examples/account_bot.rs:1471-1498 | The five collections change as the operation's function says; a failed write changes nothing but expired leases, and after a start the file holds the new state. |
| BotStore.ProcessedMessageStore.CompleteAt | examples/account_bot.rs:1529-1559 | On success the message is recorded, volatile ids are absorbed and the file holds the new state; on failure all five collections are as before. |
| BotStore.ProcessedMessageStore.ReleaseAttempt | examples/account_bot.rs:1500-1511 | On success the attempt is gone from memory and file; on failure all five collections are as before. |
| BotOperations.ReleaseFrees | examples/account_bot.rs:1500-1511 | A saved release leaves the message without lease and mark; every other message keeps its own unless it waits to be saved, and the queue changes only by absorbing what waits; a failed one changes nothing. |
| BotOperations.ReleasedStartsAgainIff | examples/account_bot.rs:1471-1511 | A message that was released and is not recorded can be started at once, if and only if that can be saved. |
| BotOperations.BeginAnswers | examples/account_bot.rs:1471-1498 | Beginning answers by what is known of the message, in this order: recorded, waiting to be saved, in flight, leased with the exact time left; otherwise it is leased for exactly the time asked for, a second at least, if that can be saved, and no other message changes. |
| BotOperations.BeginOtherwise | examples/account_bot.rs:1471-1498 | A begin that starts nothing only drops what has run out, or completes a message that waits. |
| BotOperations.DeferLeases | examples/account_bot.rs:1517-1523 | Deferring leases the message for exactly the time asked for, saved or not, takes its mark away, and leaves the others alone. |
| BotOperations.CompleteAppends | examples/account_bot.rs:1529-1559 | A saved completion frees the message and appends it to the queue ahead of what waits; a failed one changes nothing. |
| BotOperations.MarkVolatileWaits | examples/account_bot.rs:1631-1636 | A message that cannot be saved waits in memory without lease and mark, and nothing else changes but what has run out. |
| BotStore.ProcessedMessageStore.DeferAttemptAt | examples/account_bot.rs:1517-1523 | The lease is extended in memory whether or not it can be saved. |
| BotStore.ProcessedMessageStore.Persist | examples/account_bot.rs:1575-1592 | Either all volatile ids are absorbed and the file has the new state, or memory is as before. |
| BotStore.ProcessedMessageStore.AddProcessedId | examples/account_bot.rs:1731-1745 | The set and queue edited in place stay equal and are the bounded window. |
| BotStore.ProcessedMessageStore.AbsorbVolatileIds | examples/account_bot.rs:1594-1601 | All volatile ids join the window in order and lose their leases and in-flight marks. |
| BotGuards.OneGuardPerMessage | examples/account_bot.rs:1770-1906 | In every run where guards resolve before their leases run out, each message has at most one live guard, and a guarded message is leased and not processed. |
| BotGuards.StepKeepsSystem | examples/account_bot.rs:1770-1906 | Every step of every guard keeps that invariant, failed writes included. |
| BotGuards.SecondGuardIffOverdue | examples/account_bot.rs:1471-1498 | A message with a live guard gets a second one if and only if its lease has run out and the write succeeds. |
| BotGuards.OverdueGuardIsDoubled | examples/account_bot.rs:1471-1498 | A concrete run with two live guards for one message. |
| BotGuards.DropSettles | examples/account_bot.rs:1869-1907 | A message whose guard is dropped is freed and recorded, waiting, or pushed out by its own write if a reply was started, and otherwise stays leased for the guard's time and is no longer in flight. |
| BotGuards.InFlightMessage.Drop | examples/account_bot.rs:1869-1907 | Dropping an active guard records a reply that may have been sent, or else keeps the lease; a resolved guard does nothing. |
| BotGuards.InFlightMessage.RememberAfterReply | examples/account_bot.rs:1852-1866 | The guard is resolved and the message recorded, in memory only if it cannot be saved. |
| BotFile.OrderRoundTrip | examples/account_bot.rs:1390-1448 | Loading a written file gives the processed ids back in order if and only if none of them is empty. |
| BotFile.LeaseRoundTrip | examples/account_bot.rs:1390-1448 | It gives exactly the unexpired leases back if and only if none of those has a blank id. |
| BotFile.LoadedOfWritten | examples/account_bot.rs:1390-1448 | Exactly what loading a written file gives, for all ids and leases: an empty id becomes the line's tag, blank and expired leases are dropped. |
| BotFile.WriteState | examples/account_bot.rs:1603-1629 | The two loops write the file the round trip is about, leases in the order of their ids. |
| BotFile.Load | examples/account_bot.rs:1390-1448 | The line loop builds a consistent store with exactly what the file's lines add, current and older formats included. |
| BotFile.TakeLine | examples/account_bot.rs:1400-1437 | One line, in any of its five formats, adds exactly what the round trip needs and nothing else. |
| BotFile.OlderFileLoadsSame | examples/account_bot.rs:1400-1437 | A file in older formats, or in a mixture, loads as the current file that says the same: ids tagged or alone on their line, and leases. |
| StateId.DecodeInvertsEncode | examples/account_bot.rs:1688-1720 | Decoding an encoded id gives it back, for every string. |
| StateId.EncodedIsPlain | examples/account_bot.rs:1688-1702 | An encoding consists of unreserved characters and percent signs, so no delimiter or white space; it is empty only for the empty id. |
| StateId.WrittenAsIsIff | examples/account_bot.rs:1688-1702 | An id is written as it is if and only if it consists of letters, digits, full stops, underscores, hyphens and tildes. |
| StateId.EscapeInEitherCase | examples/account_bot.rs:1704-1729 | An escape is read in upper and lower case. |
| StateId.EncodeStateId | examples/account_bot.rs:1688-1702 | The byte loop gives the encoding of those lemmas. |
| StateId.DecodeStateId | examples/account_bot.rs:1704-1720 | The index loop gives the decoding of those lemmas, and nothing for a cut or bad escape or bytes that are no UTF-8. |
| Utf8.DecodeInvertsEncode | examples/account_bot.rs:1719-1719 | Decoding UTF-8 undoes encoding. |
| Utf8.OnlyEncodingsDecode | examples/account_bot.rs:1719-1719 | Decoding is strict: only a string's own encoding decodes to it. |
| Text.ParseOfDecimal | examples/account_bot.rs:1410-1420 | A written number is read back exactly if it fits 64 bits. |
| EventSlots.SlotsAreAccountedFor | examples/account_bot.rs:443-493 | Under any interleaving of atomic operations, reserved minus completed slots is the number of live uncommitted guards, and accepted <= completed <= reserved <= max_events. |
| EventSlots.StopsOnlyWhenDone | examples/account_bot.rs:161-190 | Although its loads are spread over the run, the accept loop stops only when exactly max_events are done and none is in progress, and that never changes again. |
| EventSlots.StopIsNotLost | examples/account_bot.rs:115-145 | If the limit is reached while the loop waits, a wake-up is stored or about to be. |
| EventSlots.ReachedLimitStops | examples/account_bot.rs:161-190 | An uninterrupted check stops the loop if and only if the limit is reached. |
| EventSlots.RefusedOnlyAtLimit | examples/account_bot.rs:823-848 | An event is refused only if all max_events slots were taken at some moment since its handler arrived. |
| EventSlots.AcceptedWithinCompleted | examples/account_bot.rs:277-296 | Accepted events stay within completed ones if and only if there is a limit or none was accepted. |
| EventSlots.AcceptedWithoutLimit | examples/account_bot.rs:277-296 | A concrete run with no limit in which one event is accepted and none completed. |
| EventSlots.ReservationsStayBelowLimit | examples/account_bot.rs:823-848 | However the exchange loops interleave, no exchange is lost: slots reserved less slots given back, commits and counts in the run so far are exactly the three counters, so at most max_events are ever reserved beyond those given back, and at most max_events commit. |
| EventSlots.StepKeepsAccounting | examples/account_bot.rs:443-493 | Every atomic operation of every task keeps the accounting. |
| ForwardGuarantees.WakeUpsAreNotLost | examples/sidecar-js/index.mjs:270-288 | In every reachable state with a parked forward, forwards in flight plus woken ones fill the limit, and the parked forward is queued. |
| ForwardGuarantees.LimitsAndLedger | examples/sidecar-js/index.mjs:225-306 | In flight and reserved never exceed their limits; reserved is exactly in flight + parked + woken + between steps + asleep; the shown status is current and the count of deliveries is that of the delivered forwards. |
| ForwardGuarantees.StepKeepsSound | examples/sidecar-js/index.mjs:225-306 | Every step of every forward keeps the ledger, the limits, the queue and the attempt bounds. |
| ForwardGuarantees.RetriesAreBounded | examples/sidecar-js/index.mjs:232-249 | A finished forward made at most retries + 1 requests, and one that failed made them all, met an error that does not ask for another try, as SleepsIff names them, or was turned away. |
| ForwardGuarantees.SleepsIff | examples/sidecar-js/index.mjs:337-348 | After a response a forward sleeps if and only if that is an error other than an HTTP status, or status 408, 429 or at least 500, and requests are left; otherwise it finishes with it. |
| ForwardGuarantees.GivesUpEarlyOnlyIf | examples/sidecar-js/index.mjs:337-348 | A forward that failed with fewer requests than it may make was turned away or met an HTTP status other than those. |
| ForwardGuarantees.SentAgainOnlyIfAsked | examples/sidecar-js/index.mjs:225-249 | In any run no event is sent again after it was accepted, or after an error that does not ask for another try. |
| ForwardGuarantees.TurnedAwayIff | examples/sidecar-js/index.mjs:290-296 | A new forward is turned away if and only if as many are unfinished as the two limits allow together. |
| ForwardGuarantees.LastErrorIsShown | examples/sidecar-js/index.mjs:225-260 | The shown error is always that of the forward that finished last, none if that one was delivered. |
| ForwardGuarantees.RequestsAreCounted | examples/sidecar-js/index.mjs:230-249 | A forward's count of requests is the number of responses it had in the run. |
| ForwardGuarantees.StepDrains | examples/sidecar-js/index.mjs:225-306 | Every step except an arrival uses up part of a bounded amount of work, re-parked waiters included. |
| ForwardGuarantees.DrainIsBounded | examples/sidecar-js/index.mjs:225-306 | Without arrivals a run has at most that many steps. |
| ForwardGuarantees.UnfinishedMeansProgress | examples/sidecar-js/index.mjs:225-306 | While any forward is unfinished, one can move: there is no deadlock. |
| ForwardGuarantees.StuckMeansDrained | examples/sidecar-js/index.mjs:225-306 | When none can move, all are finished and every slot, reservation and waiter is gone. |
| ForwardGuarantees.FairIffNothingOvertakes | examples/sidecar-js/index.mjs:270-288 | Over any stretch of a run that starts with a free slot for every woken forward, as every run does, there stays one if and only if no new or awakened forward takes a slot when those free are no more than those woken. |
| ForwardGuarantees.RunIsFairIff | examples/sidecar-js/index.mjs:270-288 | The same over a whole run from its start. |
| ForwardGuarantees.SlotForEachMeans | examples/sidecar-js/index.mjs:270-279 | There is a free slot for every woken forward if and only if all of them, resuming in any order with nothing in between, get one. |
| ForwardGuarantees.WokenGetsSlotIff | examples/sidecar-js/index.mjs:270-288 | A woken forward gets a slot when it resumes if and only if the slots taken since its wake-up, less those given back, are fewer than were free then; if none was taken it gets one, and otherwise it parks. |
| ForwardGuarantees.ParksOnlyIfOvertaken | examples/sidecar-js/index.mjs:270-288 | A forward that was woken when there was a slot for each, and parks again, was overtaken in between. |
| ForwardGuarantees.NewcomerGivesBack | examples/sidecar-js/index.mjs:270-288 | An instance: a newcomer takes a slot between a wake-up and the resumption, which gets one all the same. |
| ForwardGuarantees.EarlierNewcomerIsMissed | examples/sidecar-js/index.mjs:270-288 | An instance: a woken forward parks although no newcomer took a slot between its wake-up and its resumption. |
| ForwardGuarantees.NewcomerOvertakes | examples/sidecar-js/index.mjs:270-288 | An instance: a newcomer takes the slot a waiter was woken for, which parks again. |

## Left out

- HTTP, sockets, timers and the clock: requests and waits appear only through their outcomes; page sizes, intervals and back-off times play no part.
- `spawn`, `spawn_batches` and `spawn_messages`: the loops that drive the pollers and feed channels.
- Message and room contents other than ids, creation times and titles.
- A baseline poll that collects no id leaves a poller with an empty window; its delivery then starts at the beginning of the log it lists next.
- Liveness that depends on the service: draining is proved for polls whose answers all arrive and whose links go strictly further down.
- Pollers inside the joined-room poller are values in its maps, not objects; aliasing between them is not expressed.
- JSON, dates and escapes of the record encoding: abstract, with `LogCodec` as a stand-in.
- The identity of files, symbolic links, permissions, directory syncs and the SQLite cache; a FileId key is given, not computed.
- Locks between processes: the source has none. Runs on one log may pass from process to process, but operations of processes running at the same time are taken one after the other.
- Lock poisoning, and the 64-bit wrap of the attempt counter.
- The bot's health flags and `state_persist_failed`; replies, message hydration and the waiting for an attempt in progress, which only choose which store operation comes next.
- `replace_state_file` on Windows and the temporary file: a write of the bot's file either took effect or did not.
- EventSlots.StopsOnlyWhenDone: atomic operations are taken in one global order; weaker memory orders than that are not modelled.
- ForwardGuarantees.LimitsAndLedger: retry delays and the parsing of `Retry-After` are not modelled, a sleep ends at an arbitrary time.
- OAuth, token reload, the command line, webhooks and the typed client.
