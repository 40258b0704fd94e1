// What a catch-up pass over all joined rooms reports: its events and its checkpoints, said about the rooms and
// their polls.

module PassReport {
  import opened Wrappers
  import opened SeenWindow
  import opened PollerModel
  import opened MultiRoomModel
  import opened Sorting
  import opened BatchOrder
  import opened BatchDelivery
  import TextOrder

  /** The error a room's poll ends with, if any. */
  ghost function PollFailure(p: PollerState, outcome: RoomOutcome): Option<string> {
    match outcome
    case RunsOutOfTime => Some("room poll timed out")
    case Answers(responses) =>
      match Transaction(p, responses)
      case Ok(_) => None
      case Err(e) => Some(e.error)
  }

  /** Earlier messages come first, messages without a time before all others, and messages of one time by room. */
  ghost predicate InBatchOrder(a: RoomMessage, b: RoomMessage) {
    && (a.message.created.Some? ==> b.message.created.Some? && a.message.created.value <= b.message.created.value)
    && (a.message.created == b.message.created ==> a.roomId == b.roomId || TextOrder.Less(a.roomId, b.roomId))
  }

  /** The deliveries: for every room what its poll had ready, under the room's listing, all in order; none at all
      if the batch is held. */
  ghost predicate DeliversAll(deliveries: seq<Event>, rooms: map<RoomId, RoomEntry>, outcomes: RoomId -> RoomOutcome,
                              held: bool) {
    && (forall e :: e in deliveries ==>
          e.Delivered? && e.message.roomId in rooms && e.message.room == rooms[e.message.roomId].room)
    && (forall i, j :: 0 <= i < j < |deliveries| && deliveries[i].Delivered? && deliveries[j].Delivered? ==>
          InBatchOrder(deliveries[i].message, deliveries[j].message))
    && (held ==> deliveries == [])
    && forall id :: id in rooms && !held ==>
         multiset(RoomShare(deliveries, id)) == multiset(Ready(rooms[id].poller, outcomes(id)))
  }

  /** One failure for every room whose poll fails, with that poll's error, and no others. */
  ghost predicate ReportsFailures(failures: seq<Event>, rooms: map<RoomId, RoomEntry>, outcomes: RoomId -> RoomOutcome) {
    && Distinct(failures)
    && forall e :: e in failures <==>
         e.RoomFailed? && e.roomId in rooms && PollFailure(rooms[e.roomId].poller, outcomes(e.roomId)) == Some(e.error)
  }

  ghost function RefreshReport(failure: Option<string>): seq<Event> {
    if failure.Some? then [RefreshFailed(failure.value)] else []
  }

  /** The events of a pass: the deliveries, then the failed refresh, then the rooms that failed. */
  ghost predicate Reports(events: seq<Event>, rooms: map<RoomId, RoomEntry>, outcomes: RoomId -> RoomOutcome,
                          refreshFailure: Option<string>, held: bool) {
    exists deliveries, failures ::
      && events == deliveries + RefreshReport(refreshFailure) + failures
      && DeliversAll(deliveries, rooms, outcomes, held) && ReportsFailures(failures, rooms, outcomes)
  }

  /** In order of their rooms' ids, one checkpoint for every room whose poll succeeds and leaves no backlog: the
      room's window. */
  ghost predicate Checkpoints(checkpoints: seq<RoomCheckpoint>, rooms: map<RoomId, RoomEntry>,
                              outcomes: RoomId -> RoomOutcome, after: map<RoomId, RoomEntry>) {
    && (forall i, j :: 0 <= i < j < |checkpoints| ==> TextOrder.Less(checkpoints[i].roomId, checkpoints[j].roomId))
    && forall c :: c in checkpoints <==>
         && c.roomId in rooms && c.roomId in after && PollFailure(rooms[c.roomId].poller, outcomes(c.roomId)).None?
         && !after[c.roomId].poller.HasPendingBacklog()
         && c.seenMessageIds == after[c.roomId].poller.seen && (c.initializeEmpty <==> c.seenMessageIds == [])
  }

  // ----- why -----

  /** So a refresh that failed is reported exactly once, and no other refresh failure is. */
  lemma RefreshFailureOnce(events: seq<Event>, rooms: map<RoomId, RoomEntry>, outcomes: RoomId -> RoomOutcome,
                           refreshFailure: Option<string>, held: bool, error: string)
    requires Reports(events, rooms, outcomes, refreshFailure, held)
    ensures multiset(events)[RefreshFailed(error)] == if refreshFailure == Some(error) then 1 else 0
  {
    var deliveries, failures :| events == deliveries + RefreshReport(refreshFailure) + failures
      && DeliversAll(deliveries, rooms, outcomes, held) && ReportsFailures(failures, rooms, outcomes);
    assert RefreshFailed(error) !in multiset(deliveries) && RefreshFailed(error) !in multiset(failures);
  }

  lemma BeforeOrders(a: IndexedMessage, b: IndexedMessage)
    requires Before(a, b)
    ensures InBatchOrder(a.message, b.message)
  {
  }

  lemma SortedMessages(rooms: map<RoomId, RoomEntry>, outcomes: RoomId -> RoomOutcome, order: seq<RoomId>)
    requires OrderOf(rooms, order)
    ensures KnownRooms(rooms, order)
    ensures var sorted := SortBy(Before, Finished(rooms, outcomes, order).messages);
      && StrictlySorted(Before, sorted)
      && forall x :: x in sorted ==> x.message.roomId in rooms && x.message.room == rooms[x.message.roomId].room
  {
    OrderMembers(rooms, order);
    var messages := Finished(rooms, outcomes, order).messages;
    FinishedMessages(rooms, outcomes, order);
    KeyedIsComparable(messages);
    BeforeIsStrictOrder();
    SortSorts(Before, messages);
    forall x | x in SortBy(Before, messages)
      ensures x.message.roomId in rooms && x.message.room == rooms[x.message.roomId].room
    {
      assert x in Elements(SortBy(Before, messages));
      assert x in messages;
    }
  }

  lemma SortedDeliveries(sorted: seq<IndexedMessage>, rooms: map<RoomId, RoomEntry>)
    requires StrictlySorted(Before, sorted)
    requires forall x :: x in sorted ==> x.message.roomId in rooms && x.message.room == rooms[x.message.roomId].room
    ensures var deliveries := Deliveries(sorted);
      && (forall e :: e in deliveries ==>
            e.Delivered? && e.message.roomId in rooms && e.message.room == rooms[e.message.roomId].room)
      && forall i, j :: 0 <= i < j < |deliveries| && deliveries[i].Delivered? && deliveries[j].Delivered? ==>
           InBatchOrder(deliveries[i].message, deliveries[j].message)
  {
    var deliveries := Deliveries(sorted);
    forall e | e in deliveries
      ensures e.Delivered? && e.message.roomId in rooms && e.message.room == rooms[e.message.roomId].room
    {
      var i :| 0 <= i < |deliveries| && deliveries[i] == e;
      assert sorted[i] in sorted;
    }
    forall i, j | 0 <= i < j < |deliveries| ensures InBatchOrder(deliveries[i].message, deliveries[j].message) {
      BeforeOrders(sorted[i], sorted[j]);
    }
  }

  lemma NoDeliveryFails(rooms: map<RoomId, RoomEntry>, outcomes: RoomId -> RoomOutcome, order: seq<RoomId>)
    requires KnownRooms(rooms, order)
    ensures forall e :: e in Finished(rooms, outcomes, order).errors ==> !e.Delivered?
  {
    FinishedErrors(rooms, outcomes, order);
  }

  lemma WithoutErrors(deliveries: seq<Event>, errors: seq<Event>, id: RoomId)
    requires forall e :: e in errors ==> !e.Delivered?
    ensures RoomShare(deliveries + [] + errors, id) == RoomShare(deliveries, id)
  {
    assert deliveries + [] + errors == deliveries + errors;
    ShareOfFailures(deliveries, errors, id);
  }

  lemma DeliveredShare(s: MultiState, outcomes: RoomId -> RoomOutcome, order: seq<RoomId>, id: RoomId)
    requires OrderOf(s.rooms, order) && id in s.rooms
    ensures KnownRooms(s.rooms, order)
    ensures !Finished(s.rooms, outcomes, order).hasPendingBacklog ==>
      multiset(RoomShare(BatchEvents(Finished(s.rooms, outcomes, order)), id))
      == multiset(Ready(s.rooms[id].poller, outcomes(id)))
  {
    ShareOfBatch(s, outcomes, order, [], id);
    var b := Finished(s.rooms, outcomes, order);
    NoDeliveryFails(s.rooms, outcomes, order);
    WithoutErrors(BatchEvents(b), b.errors, id);
  }

  /** The deliveries of a batch. */
  lemma DeliveriesAre(s: MultiState, outcomes: RoomId -> RoomOutcome, order: seq<RoomId>)
    requires OrderOf(s.rooms, order)
    ensures KnownRooms(s.rooms, order)
    ensures DeliversAll(BatchEvents(Finished(s.rooms, outcomes, order)), s.rooms, outcomes,
                        Finished(s.rooms, outcomes, order).hasPendingBacklog)
  {
    OrderMembers(s.rooms, order);
    SortedMessages(s.rooms, outcomes, order);
    SortedDeliveries(SortBy(Before, Finished(s.rooms, outcomes, order).messages), s.rooms);
    forall id | id in s.rooms && !Finished(s.rooms, outcomes, order).hasPendingBacklog
      ensures multiset(RoomShare(BatchEvents(Finished(s.rooms, outcomes, order)), id))
              == multiset(Ready(s.rooms[id].poller, outcomes(id)))
    {
      DeliveredShare(s, outcomes, order, id);
    }
  }

  lemma FailuresAre(rooms: map<RoomId, RoomEntry>, outcomes: RoomId -> RoomOutcome, order: seq<RoomId>)
    requires OrderOf(rooms, order)
    ensures KnownRooms(rooms, order) && ReportsFailures(Finished(rooms, outcomes, order).errors, rooms, outcomes)
  {
    OrderMembers(rooms, order);
    FinishedErrors(rooms, outcomes, order);
  }

  /** What a batch reports. */
  lemma BatchReports(s: MultiState, outcomes: RoomId -> RoomOutcome, order: seq<RoomId>, refreshFailure: Option<string>)
    requires OrderOf(s.rooms, order)
    ensures KnownRooms(s.rooms, order)
    ensures var (s', poll) := PollBatch(s, outcomes, order, RefreshReport(refreshFailure));
      && Reports(poll.events, s.rooms, outcomes, refreshFailure, BacklogLeft(s'))
      && Checkpoints(poll.checkpoints, s.rooms, outcomes, s'.rooms)
  {
    OrderMembers(s.rooms, order);
    HeldIffBacklogLeft(s, outcomes, order, RefreshReport(refreshFailure));
    DeliveriesAre(s, outcomes, order);
    FailuresAre(s.rooms, outcomes, order);
    CheckpointsAre(s, outcomes, order);
  }

  /** A room has a checkpoint in a batch exactly if its poll succeeds and leaves it without backlog. */
  lemma CheckpointOfRoom(hold: bool, id: RoomId, p: PollerState, outcome: RoomOutcome)
    ensures var p' := AfterBatch(hold, p, outcome); var c := BatchCheckpoint(hold, id, p, outcome);
      && (c.Some? <==> PollFailure(p, outcome).None? && !p'.HasPendingBacklog())
      && (c.Some? ==> c.value == RoomCheckpoint(id, p'.seen, p'.seen == []))
  {
    if outcome.Answers? {
      TransactionShape(p, outcome.responses);
    }
  }

  lemma CheckpointsAre(s: MultiState, outcomes: RoomId -> RoomOutcome, order: seq<RoomId>)
    requires OrderOf(s.rooms, order)
    ensures KnownRooms(s.rooms, order)
    ensures var hold := Finished(s.rooms, outcomes, order).hasPendingBacklog;
      var applied := ApplyFinished(s.rooms, outcomes, hold, order);
      Checkpoints(SortBy(CheckpointBefore, applied.checkpoints), s.rooms, outcomes, applied.rooms)
  {
    OrderMembers(s.rooms, order);
    var hold := Finished(s.rooms, outcomes, order).hasPendingBacklog;
    var applied := ApplyFinished(s.rooms, outcomes, hold, order);
    AppliedCheckpoints(s.rooms, outcomes, hold, order);
    AppliedRooms(s.rooms, outcomes, hold, order);
    OneEachIsComparable(applied.checkpoints);
    CheckpointOrder();
    SortSorts(CheckpointBefore, applied.checkpoints);
    var sorted := SortBy(CheckpointBefore, applied.checkpoints);
    forall c
      ensures c in sorted <==>
        && c.roomId in s.rooms && c.roomId in applied.rooms
        && PollFailure(s.rooms[c.roomId].poller, outcomes(c.roomId)).None?
        && !applied.rooms[c.roomId].poller.HasPendingBacklog()
        && c.seenMessageIds == applied.rooms[c.roomId].poller.seen && (c.initializeEmpty <==> c.seenMessageIds == [])
    {
      assert c in sorted <==> c in Elements(sorted);
      assert c in applied.checkpoints <==> c in Elements(applied.checkpoints);
      if c.roomId in s.rooms {
        CheckpointOfRoom(hold, c.roomId, s.rooms[c.roomId].poller, outcomes(c.roomId));
      }
    }
  }
}
