// A batch does not depend on the order in which its concurrent room polls finish.

module BatchOrder {
  import opened Wrappers
  import opened SeenWindow
  import opened PollerModel
  import opened MultiRoomModel
  import opened Sorting
  import TextOrder

  // ----- the orders used for sorting -----

  lemma CreatedCompare(a: Option<int>, b: Option<int>, c: Option<int>)
    ensures OptionCompare(Earlier, a, b) <= 0 && OptionCompare(Earlier, b, c) <= 0 ==> OptionCompare(Earlier, a, c) <= 0
    ensures OptionCompare(Earlier, a, b) == 0 <==> a == b
    ensures OptionCompare(Earlier, a, b) < 0 <==> OptionCompare(Earlier, b, a) > 0
  {
  }

  lemma IdCompare(a: Option<MessageId>, b: Option<MessageId>, c: Option<MessageId>)
    requires OptionCompare(TextOrder.Less, a, b) < 0 ==> OptionCompare(TextOrder.Less, b, c) < 0
    ensures OptionCompare(TextOrder.Less, a, b) < 0 ==> OptionCompare(TextOrder.Less, a, c) < 0
  {
    if a.Some? && b.Some? && c.Some? && TextOrder.Less(a.value, b.value) && TextOrder.Less(b.value, c.value) {
      TextOrder.LessIsTransitive(a.value, b.value, c.value);
    }
  }

  lemma IdIrreflexive(a: Option<MessageId>)
    ensures OptionCompare(TextOrder.Less, a, a) == 0
  {
    if a.Some? {
      TextOrder.LessIsStrict(a.value);
    }
  }

  lemma BeforeTransitive(a: IndexedMessage, b: IndexedMessage, c: IndexedMessage)
    requires Before(a, b) && Before(b, c)
    ensures Before(a, c)
  {
    var x, y, z := a.message.message.created, b.message.message.created, c.message.message.created;
    CreatedCompare(x, y, z);
    CreatedCompare(x, z, y);
    if x == y == z {
      var r, s, t := a.message.roomId, b.message.roomId, c.message.roomId;
      if TextOrder.Less(r, s) && TextOrder.Less(s, t) {
        TextOrder.LessIsTransitive(r, s, t);
      }
      if TextOrder.Less(r, s) && TextOrder.Less(s, r) {
        TextOrder.LessIsTransitive(r, s, r);
      }
      TextOrder.LessIsStrict(r);
      if OptionCompare(TextOrder.Less, b.message.message.id, c.message.message.id) < 0 {
        IdCompare(a.message.message.id, b.message.message.id, c.message.message.id);
      }
    }
  }

  lemma BeforeIsStrictOrder()
    ensures StrictOrder(Before)
  {
    forall a ensures !Before(a, a) {
      IdIrreflexive(a.message.message.id);
    }
    forall a, b, c | Before(a, b) && Before(b, c) ensures Before(a, c) {
      BeforeTransitive(a, b, c);
    }
  }

  lemma CheckpointOrder()
    ensures StrictOrder(CheckpointBefore)
  {
    forall a: RoomCheckpoint ensures !CheckpointBefore(a, a) { TextOrder.LessIsStrict(a.roomId); }
    forall a, b, c | CheckpointBefore(a, b) && CheckpointBefore(b, c) ensures CheckpointBefore(a, c) {
      TextOrder.LessIsTransitive(a.roomId, b.roomId, c.roomId);
    }
  }

  // ----- what each room contributes -----

  function OfferedUpdate(p: PollerState, outcome: RoomOutcome): Option<PollUpdate> {
    match PollRoom(p, outcome)
    case Completed(Ok(u)) => Some(u)
    case Completed(Err(e)) => e.update
    case TimedOut => None
  }

  /** Whether the room's poll makes the whole batch hold its messages back. */
  predicate HoldsBatch(p: PollerState, outcome: RoomOutcome) {
    var u := OfferedUpdate(p, outcome);
    if u.Some? then !u.value.commitSeen else p.HasPendingBacklog()
  }

  function RoomMessages(id: RoomId, entry: RoomEntry, outcome: RoomOutcome): seq<IndexedMessage> {
    match PollRoom(entry.poller, outcome)
    case Completed(Ok(u)) => Indexed(id, entry.room, u.messages)
    case _ => []
  }

  function RoomErrors(id: RoomId, p: PollerState, outcome: RoomOutcome): seq<Event> {
    match PollRoom(p, outcome)
    case Completed(Ok(u)) => []
    case Completed(Err(e)) => [RoomFailed(id, e.error)]
    case TimedOut => [RoomFailed(id, TIMED_OUT)]
  }

  function RoomUpdates(id: RoomId, p: PollerState, outcome: RoomOutcome): seq<(RoomId, PollUpdate)> {
    var u := OfferedUpdate(p, outcome);
    if u.Some? then [(id, u.value)] else []
  }

  lemma AddResultAdds(b: Batch, id: RoomId, entry: RoomEntry, outcome: RoomOutcome)
    ensures AddResult(b, id, entry, PollRoom(entry.poller, outcome))
            == Batch(b.messages + RoomMessages(id, entry, outcome),
                     b.errors + RoomErrors(id, entry.poller, outcome),
                     b.updates + RoomUpdates(id, entry.poller, outcome),
                     b.hasPendingBacklog || HoldsBatch(entry.poller, outcome))
  {
  }

  ghost predicate KnownRooms(rooms: map<RoomId, RoomEntry>, order: seq<RoomId>) {
    Distinct(order) && forall id :: id in order ==> id in rooms
  }

  /** Some room that has finished holds the batch back. */
  ghost predicate AnyHolds(rooms: map<RoomId, RoomEntry>, outcomes: RoomId -> RoomOutcome, order: seq<RoomId>)
    requires KnownRooms(rooms, order)
  {
    exists id :: id in order && HoldsBatch(rooms[id].poller, outcomes(id))
  }

  lemma {:induction false} FinishedHolds(rooms: map<RoomId, RoomEntry>, outcomes: RoomId -> RoomOutcome, order: seq<RoomId>)
    requires KnownRooms(rooms, order)
    ensures Finished(rooms, outcomes, order).hasPendingBacklog <==> AnyHolds(rooms, outcomes, order)
  {
    if order != [] {
      var init, last := order[..|order| - 1], order[|order| - 1];
      assert order == init + [last];
      FinishedHolds(rooms, outcomes, init);
      AddResultAdds(Finished(rooms, outcomes, init), last, rooms[last], outcomes(last));
    }
  }

  /** Within one room a message's place tells it apart. */
  ghost predicate Keyed(messages: seq<IndexedMessage>) {
    forall i, j :: 0 <= i < j < |messages| ==>
      messages[i].message.roomId != messages[j].message.roomId || messages[i].sequence != messages[j].sequence
  }

  lemma KeyedIsComparable(messages: seq<IndexedMessage>)
    requires Keyed(messages)
    ensures Comparable(Before, messages)
  {
    forall a, b | a in messages && b in messages && a != b ensures Before(a, b) || Before(b, a) {
      var i :| 0 <= i < |messages| && messages[i] == a;
      var j :| 0 <= j < |messages| && messages[j] == b;
      CreatedCompare(a.message.message.created, b.message.message.created, None);
      TextOrder.LessIsConnected(a.message.roomId, b.message.roomId);
    }
  }

  lemma {:induction false} FinishedMessages(rooms: map<RoomId, RoomEntry>, outcomes: RoomId -> RoomOutcome, order: seq<RoomId>)
    requires KnownRooms(rooms, order)
    ensures var messages := Finished(rooms, outcomes, order).messages;
      && Keyed(messages)
      && forall x :: x in messages <==>
           x.message.roomId in order
           && x in RoomMessages(x.message.roomId, rooms[x.message.roomId], outcomes(x.message.roomId))
  {
    if order != [] {
      var init, last := order[..|order| - 1], order[|order| - 1];
      assert order == init + [last];
      FinishedMessages(rooms, outcomes, init);
      AddResultAdds(Finished(rooms, outcomes, init), last, rooms[last], outcomes(last));
      var before := Finished(rooms, outcomes, init).messages;
      var more := RoomMessages(last, rooms[last], outcomes(last));
      assert forall x :: x in more ==> x.message.roomId == last;
      forall i | 0 <= i < |before| ensures before[i].message.roomId != last {
        assert before[i] in before;
      }
    }
  }

  lemma {:induction false} FinishedErrors(rooms: map<RoomId, RoomEntry>, outcomes: RoomId -> RoomOutcome, order: seq<RoomId>)
    requires KnownRooms(rooms, order)
    ensures var errors := Finished(rooms, outcomes, order).errors;
      && Distinct(errors)
      && forall e :: e in errors <==>
           e.RoomFailed? && e.roomId in order && e in RoomErrors(e.roomId, rooms[e.roomId].poller, outcomes(e.roomId))
  {
    if order != [] {
      var init, last := order[..|order| - 1], order[|order| - 1];
      assert order == init + [last];
      FinishedErrors(rooms, outcomes, init);
      AddResultAdds(Finished(rooms, outcomes, init), last, rooms[last], outcomes(last));
      var before := Finished(rooms, outcomes, init).errors;
      forall i | 0 <= i < |before| ensures before[i].RoomFailed? && before[i].roomId != last {
        assert before[i] in before;
      }
    }
  }

  // ----- applying the updates -----

  function AfterBatch(hold: bool, p: PollerState, outcome: RoomOutcome): PollerState {
    var u := OfferedUpdate(p, outcome);
    if u.Some? then ApplyUpdate(p, Settled(hold, u.value)) else p
  }

  function BatchCheckpoint(hold: bool, id: RoomId, p: PollerState, outcome: RoomOutcome): Option<RoomCheckpoint> {
    var u := OfferedUpdate(p, outcome);
    if u.Some? then CheckpointAfterUpdate(p, id, Settled(hold, u.value)) else None
  }

  function ApplyFinished(rooms: map<RoomId, RoomEntry>, outcomes: RoomId -> RoomOutcome, hold: bool, order: seq<RoomId>): Applied
    requires forall id :: id in order ==> id in rooms
  {
    ApplyAll(rooms, hold, Finished(rooms, outcomes, order).updates)
  }

  lemma ApplyLast(rooms: map<RoomId, RoomEntry>, outcomes: RoomId -> RoomOutcome, hold: bool, order: seq<RoomId>)
    requires order != [] && forall id :: id in order ==> id in rooms
    ensures var init, last := order[..|order| - 1], order[|order| - 1];
      var u := OfferedUpdate(rooms[last].poller, outcomes(last));
      ApplyFinished(rooms, outcomes, hold, order)
      == if u.Some? then ApplyOne(ApplyFinished(rooms, outcomes, hold, init), hold, last, u.value)
         else ApplyFinished(rooms, outcomes, hold, init)
  {
  }

  /** Every finished room has its own update applied, and no other room changes. */
  lemma {:induction false} AppliedRooms(rooms: map<RoomId, RoomEntry>, outcomes: RoomId -> RoomOutcome, hold: bool, order: seq<RoomId>)
    requires KnownRooms(rooms, order)
    ensures var after := ApplyFinished(rooms, outcomes, hold, order).rooms;
      && after.Keys == rooms.Keys
      && forall id :: id in rooms ==>
           after[id] == if id in order
                        then rooms[id].(poller := AfterBatch(hold, rooms[id].poller, outcomes(id)))
                        else rooms[id]
  {
    if order != [] {
      var init, last := order[..|order| - 1], order[|order| - 1];
      assert order == init + [last];
      AppliedRooms(rooms, outcomes, hold, init);
      ApplyLast(rooms, outcomes, hold, order);
    }
  }

  ghost predicate OneEach(checkpoints: seq<RoomCheckpoint>) {
    forall i, j :: 0 <= i < j < |checkpoints| ==> checkpoints[i].roomId != checkpoints[j].roomId
  }

  lemma OneEachIsComparable(checkpoints: seq<RoomCheckpoint>)
    requires OneEach(checkpoints)
    ensures Comparable(CheckpointBefore, checkpoints)
  {
    forall a, b | a in checkpoints && b in checkpoints && a != b
      ensures CheckpointBefore(a, b) || CheckpointBefore(b, a)
    {
      TextOrder.LessIsConnected(a.roomId, b.roomId);
    }
  }

  lemma {:induction false} AppliedCheckpoints(rooms: map<RoomId, RoomEntry>, outcomes: RoomId -> RoomOutcome, hold: bool, order: seq<RoomId>)
    requires KnownRooms(rooms, order)
    ensures var checkpoints := ApplyFinished(rooms, outcomes, hold, order).checkpoints;
      && OneEach(checkpoints)
      && forall c :: c in checkpoints <==>
           c.roomId in order
           && BatchCheckpoint(hold, c.roomId, rooms[c.roomId].poller, outcomes(c.roomId)) == Some(c)
  {
    if order != [] {
      var init, last := order[..|order| - 1], order[|order| - 1];
      assert order == init + [last];
      AppliedCheckpoints(rooms, outcomes, hold, init);
      AppliedRooms(rooms, outcomes, hold, init);
      ApplyLast(rooms, outcomes, hold, order);
      var before := ApplyFinished(rooms, outcomes, hold, init).checkpoints;
      forall i | 0 <= i < |before| ensures before[i].roomId != last {
        assert before[i] in before;
      }
    }
  }

  // ----- the main result -----

  ghost predicate OrderOf(rooms: map<RoomId, RoomEntry>, order: seq<RoomId>) {
    Distinct(order) && Elements(order) == rooms.Keys
  }

  lemma OrderMembers(rooms: map<RoomId, RoomEntry>, order: seq<RoomId>)
    requires OrderOf(rooms, order)
    ensures KnownRooms(rooms, order) && forall id :: id in order <==> id in rooms
  {
  }

  lemma SameMultiset<T>(a: seq<T>, b: seq<T>)
    requires Distinct(a) && Distinct(b) && forall x :: x in a <==> x in b
    ensures multiset(a) == multiset(b)
  {
    forall x ensures multiset(a)[x] == multiset(b)[x] {
      CountInDistinct(a, x);
      CountInDistinct(b, x);
    }
  }

  lemma {:induction false} CountInDistinct<T>(s: seq<T>, x: T)
    requires Distinct(s)
    ensures multiset(s)[x] == if x in s then 1 else 0
  {
    if s != [] {
      var init, last := s[..|s| - 1], s[|s| - 1];
      assert s == init + [last];
      CountInDistinct(init, x);
    }
  }

  /** Whatever order two executions of the same batch finish their polls in, they leave the same
      rooms, emit the same messages in the same order and return the same checkpoints; only the
      errors may be listed in another order. */
  lemma FinishOrderDoesNotMatter(s: MultiState, outcomes: RoomId -> RoomOutcome, order: seq<RoomId>, other: seq<RoomId>,
                                 refreshErrors: seq<Event>)
    requires OrderOf(s.rooms, order) && OrderOf(s.rooms, other)
    ensures KnownRooms(s.rooms, order) && KnownRooms(s.rooms, other)
    ensures var (after, poll) := PollBatch(s, outcomes, order, refreshErrors);
      var (after', poll') := PollBatch(s, outcomes, other, refreshErrors);
      && after == after'
      && poll.checkpoints == poll'.checkpoints
      && BatchEvents(Finished(s.rooms, outcomes, order)) == BatchEvents(Finished(s.rooms, outcomes, other))
      && multiset(poll.events) == multiset(poll'.events)
  {
    OrderMembers(s.rooms, order);
    OrderMembers(s.rooms, other);
    var b, b' := Finished(s.rooms, outcomes, order), Finished(s.rooms, outcomes, other);
    SameHold(s.rooms, outcomes, order, other);
    SameMessages(s.rooms, outcomes, order, other);
    FinishedErrors(s.rooms, outcomes, order);
    FinishedErrors(s.rooms, outcomes, other);
    SameMultiset(b.errors, b'.errors);
    SameApplied(s.rooms, outcomes, b.hasPendingBacklog, order, other);
  }

  // ----- the order of errors -----

  predicate Fails(p: PollerState, outcome: RoomOutcome) {
    match PollRoom(p, outcome)
    case Completed(Ok(_)) => false
    case _ => true
  }

  /** The rooms whose polls failed, in the order the polls finished. */
  function Failing(rooms: map<RoomId, RoomEntry>, outcomes: RoomId -> RoomOutcome, order: seq<RoomId>): seq<RoomId>
    requires forall id :: id in order ==> id in rooms
  {
    if order == [] then []
    else
      var last := order[|order| - 1];
      Failing(rooms, outcomes, order[..|order| - 1]) + if Fails(rooms[last].poller, outcomes(last)) then [last] else []
  }

  /** A batch's errors are those rooms' errors, one each, in that order. */
  lemma {:induction false} ErrorsFollowOrder(rooms: map<RoomId, RoomEntry>, outcomes: RoomId -> RoomOutcome, order: seq<RoomId>)
    requires KnownRooms(rooms, order)
    ensures var errors := Finished(rooms, outcomes, order).errors; var failing := Failing(rooms, outcomes, order);
      && |errors| == |failing|
      && forall i :: 0 <= i < |errors| ==>
           failing[i] in rooms && errors[i].RoomFailed? && errors[i].roomId == failing[i]
           && RoomErrors(failing[i], rooms[failing[i]].poller, outcomes(failing[i])) == [errors[i]]
  {
    if order != [] {
      var init, last := order[..|order| - 1], order[|order| - 1];
      assert order == init + [last];
      ErrorsFollowOrder(rooms, outcomes, init);
      AddResultAdds(Finished(rooms, outcomes, init), last, rooms[last], outcomes(last));
    }
  }

  /** Two executions of the same batch list the same events in the same order exactly if the failing
      rooms finish in the same order. */
  lemma EventsAgreeIffFailuresDo(s: MultiState, outcomes: RoomId -> RoomOutcome, order: seq<RoomId>, other: seq<RoomId>,
                                 refreshErrors: seq<Event>)
    requires OrderOf(s.rooms, order) && OrderOf(s.rooms, other)
    ensures KnownRooms(s.rooms, order) && KnownRooms(s.rooms, other)
    ensures PollBatch(s, outcomes, order, refreshErrors).1.events == PollBatch(s, outcomes, other, refreshErrors).1.events
            <==> Failing(s.rooms, outcomes, order) == Failing(s.rooms, outcomes, other)
  {
    FinishOrderDoesNotMatter(s, outcomes, order, other, refreshErrors);
    ErrorsFollowOrder(s.rooms, outcomes, order);
    ErrorsFollowOrder(s.rooms, outcomes, other);
    var b, b' := Finished(s.rooms, outcomes, order), Finished(s.rooms, outcomes, other);
    var head := BatchEvents(b) + refreshErrors;
    SameTail(head, b.errors, b'.errors);
    SameFailures(s.rooms, outcomes, b.errors, b'.errors, Failing(s.rooms, outcomes, order), Failing(s.rooms, outcomes, other));
  }

  lemma SameTail<T>(head: seq<T>, a: seq<T>, b: seq<T>)
    ensures head + a == head + b <==> a == b
  {
    assert (head + a)[|head|..] == a && (head + b)[|head|..] == b;
  }

  lemma SameFailures(rooms: map<RoomId, RoomEntry>, outcomes: RoomId -> RoomOutcome, errors: seq<Event>, errors': seq<Event>,
                     failing: seq<RoomId>, failing': seq<RoomId>)
    requires |errors| == |failing| && |errors'| == |failing'|
    requires forall i :: 0 <= i < |errors| ==>
               failing[i] in rooms && errors[i].RoomFailed? && errors[i].roomId == failing[i]
               && RoomErrors(failing[i], rooms[failing[i]].poller, outcomes(failing[i])) == [errors[i]]
    requires forall i :: 0 <= i < |errors'| ==>
               failing'[i] in rooms && errors'[i].RoomFailed? && errors'[i].roomId == failing'[i]
               && RoomErrors(failing'[i], rooms[failing'[i]].poller, outcomes(failing'[i])) == [errors'[i]]
    ensures errors == errors' <==> failing == failing'
  {
    if failing == failing' {
      forall i | 0 <= i < |errors| ensures errors[i] == errors'[i] {
        assert [errors[i]] == [errors'[i]];
      }
    }
    if errors == errors' {
      forall i | 0 <= i < |failing| ensures failing[i] == failing'[i] {
        assert errors[i].roomId == failing[i];
      }
    }
  }

  /** For example, when two rooms time out. */
  lemma TimeoutsListedAsTheyFinish(a: RoomEntry, b: RoomEntry)
    ensures var rooms := map["a" := a, "b" := b];
      Finished(rooms, _ => RunsOutOfTime, ["a", "b"]).errors == [RoomFailed("a", TIMED_OUT), RoomFailed("b", TIMED_OUT)]
      && Finished(rooms, _ => RunsOutOfTime, ["b", "a"]).errors == [RoomFailed("b", TIMED_OUT), RoomFailed("a", TIMED_OUT)]
  {
    var rooms := map["a" := a, "b" := b];
    var outcomes := (_: RoomId) => RunsOutOfTime;
    assert ["a", "b"][..1] == ["a"] && ["b", "a"][..1] == ["b"];
    assert Finished(rooms, outcomes, ["a"]).errors == [RoomFailed("a", TIMED_OUT)];
    assert Finished(rooms, outcomes, ["b"]).errors == [RoomFailed("b", TIMED_OUT)];
  }

  lemma SameHold(rooms: map<RoomId, RoomEntry>, outcomes: RoomId -> RoomOutcome, order: seq<RoomId>, other: seq<RoomId>)
    requires KnownRooms(rooms, order) && KnownRooms(rooms, other) && forall id :: id in order <==> id in other
    ensures Finished(rooms, outcomes, order).hasPendingBacklog == Finished(rooms, outcomes, other).hasPendingBacklog
  {
    FinishedHolds(rooms, outcomes, order);
    FinishedHolds(rooms, outcomes, other);
  }

  lemma SameMessages(rooms: map<RoomId, RoomEntry>, outcomes: RoomId -> RoomOutcome, order: seq<RoomId>, other: seq<RoomId>)
    requires KnownRooms(rooms, order) && KnownRooms(rooms, other) && forall id :: id in order <==> id in other
    ensures SortBy(Before, Finished(rooms, outcomes, order).messages)
            == SortBy(Before, Finished(rooms, outcomes, other).messages)
  {
    FinishedMessages(rooms, outcomes, order);
    FinishedMessages(rooms, outcomes, other);
    var m, m' := Finished(rooms, outcomes, order).messages, Finished(rooms, outcomes, other).messages;
    KeyedIsComparable(m);
    KeyedIsComparable(m');
    BeforeIsStrictOrder();
    assert Elements(m) == Elements(m');
    ArrivalOrderDoesNotMatter(Before, m, m');
  }

  lemma SameApplied(rooms: map<RoomId, RoomEntry>, outcomes: RoomId -> RoomOutcome, hold: bool, order: seq<RoomId>, other: seq<RoomId>)
    requires KnownRooms(rooms, order) && KnownRooms(rooms, other) && forall id :: id in order <==> id in other
    ensures ApplyFinished(rooms, outcomes, hold, order).rooms == ApplyFinished(rooms, outcomes, hold, other).rooms
    ensures SortBy(CheckpointBefore, ApplyFinished(rooms, outcomes, hold, order).checkpoints)
            == SortBy(CheckpointBefore, ApplyFinished(rooms, outcomes, hold, other).checkpoints)
  {
    AppliedRooms(rooms, outcomes, hold, order);
    AppliedRooms(rooms, outcomes, hold, other);
    AppliedCheckpoints(rooms, outcomes, hold, order);
    AppliedCheckpoints(rooms, outcomes, hold, other);
    var c := ApplyFinished(rooms, outcomes, hold, order).checkpoints;
    var c' := ApplyFinished(rooms, outcomes, hold, other).checkpoints;
    OneEachIsComparable(c);
    OneEachIsComparable(c');
    CheckpointOrder();
    assert Elements(c) == Elements(c');
    ArrivalOrderDoesNotMatter(CheckpointBefore, c, c');
  }
}
