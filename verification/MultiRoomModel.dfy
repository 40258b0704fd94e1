// The joined-room poller as values (`MultiRoomMessagePoller` in src/realtime.rs): refreshing the
// set of rooms, retiring and pruning rooms that disappear, and one batch over all active rooms.

module MultiRoomModel {
  import opened Wrappers
  import opened SeenWindow
  import opened PollerModel
  import opened Sorting
  import TextOrder

  datatype Room = Room(id: Option<RoomId>, title: string)

  datatype RoomEntry = RoomEntry(room: Room, poller: PollerState)

  type SavedSeed = (seq<MessageId>, bool)

  datatype MultiConfig = MultiConfig(
    discovery: string,  // the discovery filter
    roomPolling: PollingConfig,
    maxConcurrentRoomPolls: nat,
    maxInactiveRooms: nat)

  datatype MultiState = MultiState(
    config: MultiConfig,
    rooms: map<RoomId, RoomEntry>,
    inactive: map<RoomId, RoomEntry>,
    inactiveOrder: seq<RoomId>,
    checkpoints: map<RoomId, SavedSeed>,
    roomsInitialized: bool)

  function NewMulti(config: MultiConfig): MultiState {
    MultiState(config, map[], map[], [], map[], false)
  }

  // ----- refreshing the set of rooms -----

  function Without(order: seq<RoomId>, id: RoomId): seq<RoomId> {
    if order == [] then []
    else Without(order[..|order| - 1], id)
         + if order[|order| - 1] == id then [] else [order[|order| - 1]]
  }

  /** Refresh in progress: `rooms` are the old active rooms not claimed yet, `next` the new ones. */
  datatype Refreshing = Refreshing(
    rooms: map<RoomId, RoomEntry>,
    next: map<RoomId, RoomEntry>,
    inactive: map<RoomId, RoomEntry>,
    order: seq<RoomId>,
    checkpoints: map<RoomId, SavedSeed>)

  function Discover(config: PollingConfig, f: Refreshing, room: Room): Refreshing {
    if room.id.None? then f
    else
      var id := room.id.value;
      if id in f.next then
        f.(next := f.next[id := f.next[id].(room := room)])
      else if id in f.rooms then
        f.(rooms := f.rooms - {id}, next := f.next[id := f.rooms[id].(room := room)])
      else if id in f.inactive then
        f.(inactive := f.inactive - {id}, order := Without(f.order, id),
           next := f.next[id := f.inactive[id].(room := room)])
      else
        var saved := if id in f.checkpoints then Some(f.checkpoints[id]) else None;
        f.(checkpoints := f.checkpoints - {id},
           next := f.next[id := RoomEntry(room, FromCheckpoint(config, saved))])
  }

  function DiscoverAll(config: PollingConfig, f: Refreshing, discovered: seq<Room>): Refreshing {
    if discovered == [] then f
    else Discover(config, DiscoverAll(config, f, discovered[..|discovered| - 1]), discovered[|discovered| - 1])
  }

  /** A room that was not discovered again becomes the most recent inactive one. */
  function Retire(f: Refreshing, id: RoomId): Refreshing {
    if id !in f.rooms then f
    else f.(rooms := f.rooms - {id}, inactive := f.inactive[id := f.rooms[id]],
            order := Without(f.order, id) + [id])
  }

  function RetireAll(f: Refreshing, ids: seq<RoomId>): Refreshing
    decreases |ids|
  {
    if ids == [] then f else RetireAll(Retire(f, ids[0]), ids[1..])
  }

  /** The retired rooms forgotten first: the oldest in the queue without backlog, and failing that
      the first such room of the map. */
  predicate Removable(inactive: map<RoomId, RoomEntry>, id: RoomId) {
    id in inactive && !inactive[id].poller.HasPendingBacklog()
  }

  function FirstRemovable(inactive: map<RoomId, RoomEntry>, order: seq<RoomId>): (r: Option<RoomId>)
    ensures r.Some? ==> Removable(inactive, r.value) && r.value in order
    ensures r.None? ==> forall id :: id in order ==> !Removable(inactive, id)
  {
    if order == [] then None
    else if Removable(inactive, order[0]) then Some(order[0])
    else FirstRemovable(inactive, order[1..])
  }

  ghost function RemovableKeys(inactive: map<RoomId, RoomEntry>): set<RoomId> {
    set id | id in inactive && Removable(inactive, id)
  }

  ghost function Victim(inactive: map<RoomId, RoomEntry>, order: seq<RoomId>): (r: Option<RoomId>)
    ensures r.Some? ==> Removable(inactive, r.value)
    ensures r.None? ==> forall id :: id in inactive ==> !Removable(inactive, id)
  {
    var queued := FirstRemovable(inactive, order);
    if queued.Some? then queued
    else if RemovableKeys(inactive) != {} then Some(TextOrder.Least(RemovableKeys(inactive)))
    else
      assert forall id :: id in inactive && Removable(inactive, id) ==> id in RemovableKeys(inactive);
      None
  }

  function Kept(order: seq<RoomId>, inactive: map<RoomId, RoomEntry>): seq<RoomId> {
    if order == [] then []
    else Kept(order[..|order| - 1], inactive)
         + if order[|order| - 1] in inactive then [order[|order| - 1]] else []
  }

  function SaveSeed(checkpoints: map<RoomId, SavedSeed>, id: RoomId, p: PollerState): map<RoomId, SavedSeed> {
    var checkpoint := CurrentCheckpoint(p, id);
    if checkpoint.None? then checkpoints
    else checkpoints[id := (checkpoint.value.seenMessageIds, checkpoint.value.initializeEmpty)]
  }

  function Forget(f: Refreshing, id: RoomId): Refreshing
    requires id in f.inactive
  {
    f.(inactive := f.inactive - {id}, order := Without(f.order, id),
       checkpoints := SaveSeed(f.checkpoints, id, f.inactive[id].poller))
  }

  ghost function PruneLoop(f: Refreshing, limit: nat): Refreshing
    decreases |f.inactive|
  {
    var victim := Victim(f.inactive, f.order);
    if |f.inactive| <= limit || victim.None? then f
    else PruneLoop(Forget(f, victim.value), limit)
  }

  ghost function Prune(f: Refreshing, maxInactiveRooms: nat): Refreshing {
    PruneLoop(f.(order := Kept(f.order, f.inactive)), AtLeastOne(maxInactiveRooms))
  }

  function StartRefresh(s: MultiState): Refreshing {
    Refreshing(s.rooms, map[], s.inactive, s.inactiveOrder, s.checkpoints)
  }

  function FinishRefresh(s: MultiState, f: Refreshing): MultiState {
    s.(rooms := f.next, inactive := f.inactive, inactiveOrder := f.order, checkpoints := f.checkpoints,
       roomsInitialized := true)
  }

  ghost function Refresh(s: MultiState, discovered: seq<Room>): MultiState {
    var found := DiscoverAll(s.config.roomPolling, StartRefresh(s), discovered);
    var retired := RetireAll(found, TextOrder.InOrder(found.rooms.Keys));
    FinishRefresh(s, Prune(retired, s.config.maxInactiveRooms))
  }

  // ----- one batch -----

  /** What a room's poll meets in a batch: answers to its requests, or the batch's time limit. */
  datatype RoomOutcome = Answers(responses: seq<Response>) | RunsOutOfTime

  datatype RoomPollResult = Completed(result: PollResult) | TimedOut

  function PollRoom(p: PollerState, outcome: RoomOutcome): RoomPollResult {
    match outcome
    case Answers(responses) => Completed(Transaction(p, responses))
    case RunsOutOfTime => TimedOut
  }

  datatype RoomMessage = RoomMessage(roomId: RoomId, room: Room, message: Message)

  datatype IndexedMessage = IndexedMessage(sequence: nat, message: RoomMessage)

  datatype Event =
    | Delivered(message: RoomMessage)
    | RoomFailed(roomId: RoomId, error: string)
    | RefreshFailed(error: string)

  datatype Batch = Batch(
    messages: seq<IndexedMessage>,
    errors: seq<Event>,
    updates: seq<(RoomId, PollUpdate)>,
    hasPendingBacklog: bool)

  const EMPTY_BATCH := Batch([], [], [], false)
  const TIMED_OUT := "room poll timed out"

  function Indexed(id: RoomId, room: Room, messages: seq<Message>): seq<IndexedMessage> {
    seq(|messages|, i requires 0 <= i < |messages| => IndexedMessage(i, RoomMessage(id, room, messages[i])))
  }

  /** Takes one finished room poll into the batch. */
  function AddResult(b: Batch, id: RoomId, entry: RoomEntry, result: RoomPollResult): Batch {
    var hadPending := entry.poller.HasPendingBacklog();
    match result
    case Completed(Ok(u)) =>
      Batch(b.messages + Indexed(id, entry.room, u.messages), b.errors, b.updates + [(id, u)],
            b.hasPendingBacklog || !u.commitSeen)
    case Completed(Err(e)) =>
      if e.update.Some? then
        Batch(b.messages, b.errors + [RoomFailed(id, e.error)], b.updates + [(id, e.update.value)],
              b.hasPendingBacklog || !e.update.value.commitSeen)
      else
        b.(errors := b.errors + [RoomFailed(id, e.error)],
           hasPendingBacklog := b.hasPendingBacklog || hadPending)
    case TimedOut =>
      b.(errors := b.errors + [RoomFailed(id, TIMED_OUT)],
         hasPendingBacklog := b.hasPendingBacklog || hadPending)
  }

  function Finished(rooms: map<RoomId, RoomEntry>, outcomes: RoomId -> RoomOutcome, order: seq<RoomId>): Batch
    requires forall id :: id in order ==> id in rooms
  {
    if order == [] then EMPTY_BATCH
    else
      var id := order[|order| - 1];
      AddResult(Finished(rooms, outcomes, order[..|order| - 1]), id, rooms[id],
                PollRoom(rooms[id].poller, outcomes(id)))
  }

  // ----- ordering a batch -----

  function OptionCompare<T>(less: (T, T) -> bool, a: Option<T>, b: Option<T>): int {
    match (a, b)
    case (None, None) => 0
    case (None, Some(_)) => -1
    case (Some(_), None) => 1
    case (Some(x), Some(y)) => if less(x, y) then -1 else if less(y, x) then 1 else 0
  }

  predicate Earlier(a: int, b: int) { a < b }

  /** By creation time, then room, then place in the room's batch, then message id. */
  predicate Before(a: IndexedMessage, b: IndexedMessage) {
    var created := OptionCompare(Earlier, a.message.message.created, b.message.message.created);
    if created != 0 then created < 0
    else if a.message.roomId != b.message.roomId then TextOrder.Less(a.message.roomId, b.message.roomId)
    else if a.sequence != b.sequence then a.sequence < b.sequence
    else OptionCompare(TextOrder.Less, a.message.message.id, b.message.message.id) < 0
  }

  predicate CheckpointBefore(a: RoomCheckpoint, b: RoomCheckpoint) {
    TextOrder.Less(a.roomId, b.roomId)
  }

  function Deliveries(messages: seq<IndexedMessage>): seq<Event> {
    seq(|messages|, i requires 0 <= i < |messages| => Delivered(messages[i].message))
  }

  // ----- applying a batch -----

  /** While some room still has backlog, a finished catch-up is put back into the room's buffers. */
  function Held(u: PollUpdate): PollUpdate {
    u.(messages := [], seenIds := [], pendingFresh := Reversed(u.messages), pendingSeenIds := u.seenIds,
       commitSeen := false)
  }

  function Settled(hasPendingBacklog: bool, u: PollUpdate): PollUpdate {
    if hasPendingBacklog && u.commitSeen && u.messages != [] then Held(u) else u
  }

  datatype Applied = Applied(rooms: map<RoomId, RoomEntry>, checkpoints: seq<RoomCheckpoint>)

  function ApplyOne(a: Applied, hasPendingBacklog: bool, id: RoomId, update: PollUpdate): Applied {
    var u := Settled(hasPendingBacklog, update);
    if id !in a.rooms then a
    else
      var p := a.rooms[id].poller;
      var checkpoint := CheckpointAfterUpdate(p, id, u);
      Applied(a.rooms[id := a.rooms[id].(poller := ApplyUpdate(p, u))],
              if checkpoint.Some? then a.checkpoints + [checkpoint.value] else a.checkpoints)
  }

  function ApplyAll(rooms: map<RoomId, RoomEntry>, hasPendingBacklog: bool, updates: seq<(RoomId, PollUpdate)>): Applied {
    if updates == [] then Applied(rooms, [])
    else
      var (id, u) := updates[|updates| - 1];
      ApplyOne(ApplyAll(rooms, hasPendingBacklog, updates[..|updates| - 1]), hasPendingBacklog, id, u)
  }

  datatype MultiRoomPoll = MultiRoomPoll(events: seq<Event>, checkpoints: seq<RoomCheckpoint>)

  function BatchEvents(b: Batch): seq<Event> {
    if b.hasPendingBacklog then [] else Deliveries(SortBy(Before, b.messages))
  }

  /** The outcome of a batch whose room polls finish in the given order. */
  function PollBatch(s: MultiState, outcomes: RoomId -> RoomOutcome, order: seq<RoomId>,
                     refreshErrors: seq<Event>): (MultiState, MultiRoomPoll)
    requires forall id :: id in order ==> id in s.rooms
  {
    var b := Finished(s.rooms, outcomes, order);
    var applied := ApplyAll(s.rooms, b.hasPendingBacklog, b.updates);
    (s.(rooms := applied.rooms),
     MultiRoomPoll(BatchEvents(b) + refreshErrors + b.errors, SortBy(CheckpointBefore, applied.checkpoints)))
  }

  // ----- configuration and seeding -----

  function WithConfig(s: MultiState, config: MultiConfig): MultiState {
    s.(config := config,
       rooms := map id | id in s.rooms ::
         s.rooms[id].(poller := SetConfig(s.rooms[id].poller, config.roomPolling)),
       inactive := map id | id in s.inactive ::
         s.inactive[id].(poller := SetConfig(s.inactive[id].poller, config.roomPolling)),
       roomsInitialized := s.roomsInitialized && s.config.discovery == config.discovery)
  }

  function Reseeded(entries: map<RoomId, RoomEntry>, seeds: map<RoomId, SavedSeed>): map<RoomId, RoomEntry> {
    map id | id in entries ::
      if id in seeds
      then entries[id].(poller := ReplaceCheckpoint(entries[id].poller, seeds[id].0, seeds[id].1))
      else entries[id]
  }

  function WithRoomCheckpoints(s: MultiState, seeds: map<RoomId, SavedSeed>): MultiState {
    s.(rooms := Reseeded(s.rooms, seeds), inactive := Reseeded(s.inactive, seeds),
       checkpoints := seeds - s.rooms.Keys - s.inactive.Keys)
  }
}
