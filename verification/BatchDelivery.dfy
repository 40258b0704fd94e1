// What a joined-room poller promises over whole runs of refreshes and batches: each room's messages
// come out exactly once and in log order, and a batch emits nothing while any active room still has
// backlog.

module BatchDelivery {
  import opened Wrappers
  import opened SeenWindow
  import opened PollerModel
  import opened RoomDelivery
  import opened MultiRoomModel
  import opened Sorting
  import opened RoomMemory
  import opened BatchOrder
  import RoomRuns

  // ----- holding back -----

  /** A transaction either commits and leaves nothing pending, or keeps a cursor to go on from; an
      error never commits. */
  ghost predicate WellShaped(r: PollResult) {
    && (UpdateOf(r).Some? ==>
          var u := UpdateOf(r).value;
          && u.initialized
          && (u.commitSeen ==> u.pendingFresh == [] && u.pendingSeenIds == [] && u.backlogNext.None?)
          && (!u.commitSeen ==> u.backlogNext.Some? && u.messages == []))
    && (r.Err? && r.error.update.Some? ==> !r.error.update.value.commitSeen)
  }

  lemma {:induction false} ScanShape(p: PollerState, page: Page, pagesLeft: nat, unseen: seq<Message>,
                                     newIds: seq<MessageId>, responses: seq<Response>)
    requires pagesLeft >= 1
    ensures WellShaped(ScanPages(p, page, pagesLeft, unseen, newIds, responses))
    decreases pagesLeft
  {
    var c := Collect(p.seen, page.items, p.initialized, p.config.emitExistingOnFirstPoll, Elements(newIds));
    if pagesLeft > 1 && NextResponse(responses).Fetched? {
      ScanShape(p, NextResponse(responses).page, pagesLeft - 1, unseen + c.unseen, newIds + c.newIds,
                Later(responses));
    }
  }

  lemma TransactionShape(p: PollerState, responses: seq<Response>)
    ensures WellShaped(Transaction(p, responses))
  {
    if !(p.backlogNext.None? && p.pendingFresh != []) && NextResponse(responses).Fetched? {
      ScanShape(p, NextResponse(responses).page, AtLeastOne(p.config.maxPagesPerPoll), p.pendingFresh,
                p.pendingSeenIds, Later(responses));
    }
  }

  /** A room is left with backlog exactly when it holds the batch back, or its own finished catch-up
      was put back because of another room. */
  lemma BacklogAfter(hold: bool, p: PollerState, outcome: RoomOutcome)
    ensures AfterBatch(hold, p, outcome).HasPendingBacklog() <==>
              || HoldsBatch(p, outcome)
              || (hold && OfferedUpdate(p, outcome).Some? && OfferedUpdate(p, outcome).value.messages != [])
    ensures PollerOk(p, p.config) ==> PollerOk(AfterBatch(hold, p, outcome), p.config)
  {
    if outcome.Answers? {
      TransactionShape(p, outcome.responses);
      var u := OfferedUpdate(p, outcome);
      if u.Some? {
        if PollerOk(p, p.config) {
          RememberKeepsWindow(p.seen, Settled(hold, u.value).seenIds, p.config.maxSeenIds);
        }
      }
    }
  }

  ghost predicate BacklogLeft(s: MultiState) {
    exists id :: id in s.rooms && s.rooms[id].poller.HasPendingBacklog()
  }

  /** A batch is held back exactly when it leaves some active room with backlog. */
  lemma HeldIffBacklogLeft(s: MultiState, outcomes: RoomId -> RoomOutcome, order: seq<RoomId>, refreshErrors: seq<Event>)
    requires OrderOf(s.rooms, order)
    ensures KnownRooms(s.rooms, order)
    ensures Finished(s.rooms, outcomes, order).hasPendingBacklog
            <==> BacklogLeft(PollBatch(s, outcomes, order, refreshErrors).0)
  {
    OrderMembers(s.rooms, order);
    var b := Finished(s.rooms, outcomes, order);
    var hold := b.hasPendingBacklog;
    FinishedHolds(s.rooms, outcomes, order);
    AppliedRooms(s.rooms, outcomes, hold, order);
    var s' := PollBatch(s, outcomes, order, refreshErrors).0;
    forall id | id in s.rooms
      ensures id in s'.rooms && s'.rooms[id].poller == AfterBatch(hold, s.rooms[id].poller, outcomes(id))
      ensures HoldsBatch(s.rooms[id].poller, outcomes(id)) ==> s'.rooms[id].poller.HasPendingBacklog()
      ensures s'.rooms[id].poller.HasPendingBacklog() ==> hold || HoldsBatch(s.rooms[id].poller, outcomes(id))
    {
      BacklogAfter(hold, s.rooms[id].poller, outcomes(id));
    }
  }

  lemma BatchKeepsInv(s: MultiState, outcomes: RoomId -> RoomOutcome, order: seq<RoomId>, refreshErrors: seq<Event>)
    requires MultiInv(s) && OrderOf(s.rooms, order)
    ensures KnownRooms(s.rooms, order)
    ensures MultiInv(PollBatch(s, outcomes, order, refreshErrors).0)
  {
    OrderMembers(s.rooms, order);
    var hold := Finished(s.rooms, outcomes, order).hasPendingBacklog;
    AppliedRooms(s.rooms, outcomes, hold, order);
    forall id | id in s.rooms {
      BacklogAfter(hold, s.rooms[id].poller, outcomes(id));
    }
  }

  // ----- one room's share of a batch -----

  /** The messages of one room among the events, in the order they are emitted. */
  ghost function RoomShare(events: seq<Event>, id: RoomId): seq<Message> {
    if events == [] then []
    else
      var last := events[|events| - 1];
      RoomShare(events[..|events| - 1], id)
      + if last.Delivered? && last.message.roomId == id then [last.message.message] else []
  }

  ghost function OfRoom(messages: seq<IndexedMessage>, id: RoomId): seq<IndexedMessage> {
    if messages == [] then []
    else
      var last := messages[|messages| - 1];
      OfRoom(messages[..|messages| - 1], id) + if last.message.roomId == id then [last] else []
  }

  ghost function Bodies(messages: seq<IndexedMessage>): (r: seq<Message>)
    ensures |r| == |messages| && forall i :: 0 <= i < |r| ==> r[i] == messages[i].message.message
  {
    seq(|messages|, i requires 0 <= i < |messages| => messages[i].message.message)
  }

  lemma {:induction false} ShareOfDeliveries(messages: seq<IndexedMessage>, id: RoomId)
    ensures RoomShare(Deliveries(messages), id) == Bodies(OfRoom(messages, id))
  {
    if messages != [] {
      var init := messages[..|messages| - 1];
      ShareOfDeliveries(init, id);
      assert Deliveries(messages)[..|messages| - 1] == Deliveries(init);
    }
  }

  lemma {:induction false} ShareOfFailures(events: seq<Event>, failures: seq<Event>, id: RoomId)
    requires forall e :: e in failures ==> !e.Delivered?
    ensures RoomShare(events + failures, id) == RoomShare(events, id)
  {
    if failures == [] {
      assert events + failures == events;
    } else {
      var init, last := failures[..|failures| - 1], failures[|failures| - 1];
      ShareOfFailures(events, init, id);
      assert last in failures;
      assert (events + failures)[..|events + failures| - 1] == events + init;
    }
  }

  lemma {:induction false} OfRoomSorted(messages: seq<IndexedMessage>, id: RoomId)
    requires StrictlySorted(Before, messages)
    ensures StrictlySorted(Before, OfRoom(messages, id))
    ensures forall x :: x in OfRoom(messages, id) <==> x in messages && x.message.roomId == id
  {
    if messages != [] {
      var init, last := messages[..|messages| - 1], messages[|messages| - 1];
      assert messages == init + [last];
      OfRoomSorted(init, id);
      var kept := OfRoom(init, id);
      forall i | 0 <= i < |kept| ensures Before(kept[i], last) {
        assert kept[i] in init;
      }
    }
  }

  /** Messages listed in order of creation. */
  ghost predicate Chronological(messages: seq<Message>) {
    forall i, j :: 0 <= i < j < |messages| ==>
      OptionCompare(Earlier, messages[i].created, messages[j].created) <= 0
  }

  /** What one room has ready to emit in a batch. */
  ghost function Ready(p: PollerState, outcome: RoomOutcome): seq<Message> {
    match PollRoom(p, outcome)
    case Completed(Ok(u)) => u.messages
    case _ => []
  }

  // Sorting keeps a room's messages together as they are: each is told apart by its place.

  lemma TakeOut(messages: seq<IndexedMessage>, i: nat) returns (rest: seq<IndexedMessage>)
    requires i < |messages|
    ensures |rest| < |messages| && multiset(rest) == multiset(messages) - multiset{messages[i]}
    ensures multiset(Bodies(messages)) == multiset(Bodies(rest)) + multiset{messages[i].message.message}
  {
    rest := messages[..i] + messages[i + 1..];
    assert messages == messages[..i] + [messages[i]] + messages[i + 1..];
    assert Bodies(messages) == Bodies(messages)[..i] + [messages[i].message.message] + Bodies(messages)[i + 1..];
    assert Bodies(rest) == Bodies(messages)[..i] + Bodies(messages)[i + 1..];
  }

  lemma {:induction false} BodiesOfSame(a: seq<IndexedMessage>, b: seq<IndexedMessage>)
    requires multiset(a) == multiset(b)
    ensures multiset(Bodies(a)) == multiset(Bodies(b))
    decreases |a|
  {
    if a == [] {
      assert |multiset(b)| == |b|;
    } else {
      assert a[0] in multiset(b);
      var i :| 0 <= i < |b| && b[i] == a[0];
      var a' := TakeOut(a, 0);
      var b' := TakeOut(b, i);
      BodiesOfSame(a', b');
    }
  }

  /** What a batch that is not held back emits for a room: the room's own messages, sorted. */
  lemma SortedShare(s: MultiState, outcomes: RoomId -> RoomOutcome, order: seq<RoomId>, refreshErrors: seq<Event>, id: RoomId)
    returns (sorted: seq<IndexedMessage>)
    requires OrderOf(s.rooms, order)
    requires forall e :: e in refreshErrors ==> !e.Delivered?
    ensures KnownRooms(s.rooms, order)
    ensures StrictlySorted(Before, sorted)
    ensures RoomShare(PollBatch(s, outcomes, order, refreshErrors).1.events, id) == Bodies(sorted)
    ensures if id !in s.rooms || Finished(s.rooms, outcomes, order).hasPendingBacklog then sorted == []
            else Elements(sorted) == Elements(RoomMessages(id, s.rooms[id], outcomes(id)))
  {
    OrderMembers(s.rooms, order);
    var b := Finished(s.rooms, outcomes, order);
    FinishedErrors(s.rooms, outcomes, order);
    var failures := refreshErrors + b.errors;
    assert BatchEvents(b) + refreshErrors + b.errors == BatchEvents(b) + failures;
    ShareOfFailures(BatchEvents(b), failures, id);
    sorted := [];
    if !b.hasPendingBacklog {
      FinishedMessages(s.rooms, outcomes, order);
      KeyedIsComparable(b.messages);
      BeforeIsStrictOrder();
      SortSorts(Before, b.messages);
      var all := SortBy(Before, b.messages);
      assert forall x :: x in all <==> x in Elements(all);
      assert forall x :: x in b.messages <==> x in Elements(b.messages);
      ShareOfDeliveries(all, id);
      OfRoomSorted(all, id);
      sorted := OfRoom(all, id);
      if id !in s.rooms {
        assert Elements(sorted) == {};
        EmptyElements(sorted);
      }
    }
  }

  lemma SortedIsDistinct(messages: seq<IndexedMessage>)
    requires StrictlySorted(Before, messages)
    ensures Distinct(messages)
  {
    BeforeIsStrictOrder();
    forall i, j | 0 <= i < j < |messages| ensures messages[i] != messages[j] {
      assert Before(messages[i], messages[j]);
    }
  }

  /** A room's share of an emitted batch is a permutation of what its poll had ready, and exactly that if
      the room lists its messages in order of creation; a batch that is held back emits nothing. */
  lemma ShareOfBatch(s: MultiState, outcomes: RoomId -> RoomOutcome, order: seq<RoomId>, refreshErrors: seq<Event>, id: RoomId)
    requires OrderOf(s.rooms, order)
    requires forall e :: e in refreshErrors ==> !e.Delivered?
    ensures KnownRooms(s.rooms, order)
    ensures var share := RoomShare(PollBatch(s, outcomes, order, refreshErrors).1.events, id);
      if id !in s.rooms || Finished(s.rooms, outcomes, order).hasPendingBacklog then share == []
      else
        && multiset(share) == multiset(Ready(s.rooms[id].poller, outcomes(id)))
        && (Chronological(Ready(s.rooms[id].poller, outcomes(id))) ==> share == Ready(s.rooms[id].poller, outcomes(id)))
  {
    var sorted := SortedShare(s, outcomes, order, refreshErrors, id);
    if id in s.rooms && !Finished(s.rooms, outcomes, order).hasPendingBacklog {
      var own := RoomMessages(id, s.rooms[id], outcomes(id));
      SortedIsDistinct(sorted);
      assert forall x :: x in sorted <==> x in Elements(sorted);
      assert forall x :: x in own <==> x in Elements(own);
      SameMultiset(sorted, own);
      BodiesOfSame(sorted, own);
      assert Bodies(own) == Ready(s.rooms[id].poller, outcomes(id));
      if Chronological(Ready(s.rooms[id].poller, outcomes(id))) {
        OwnMessages(s, outcomes, id);
        BeforeIsStrictOrder();
        SortedIsUnique(Before, sorted, own);
      }
    }
  }

  lemma OwnMessages(s: MultiState, outcomes: RoomId -> RoomOutcome, id: RoomId)
    requires id in s.rooms && Chronological(Ready(s.rooms[id].poller, outcomes(id)))
    ensures StrictlySorted(Before, RoomMessages(id, s.rooms[id], outcomes(id)))
  {
  }

  lemma BodiesOfSorted(messages: seq<IndexedMessage>)
    requires StrictlySorted(Before, messages)
    ensures Chronological(Bodies(messages))
  {
  }

  /** The share that is emitted is in order of creation. */
  lemma ShareIsChronological(s: MultiState, outcomes: RoomId -> RoomOutcome, order: seq<RoomId>, refreshErrors: seq<Event>,
                             id: RoomId)
    requires OrderOf(s.rooms, order)
    requires forall e :: e in refreshErrors ==> !e.Delivered?
    ensures KnownRooms(s.rooms, order)
    ensures Chronological(RoomShare(PollBatch(s, outcomes, order, refreshErrors).1.events, id))
  {
    var sorted := SortedShare(s, outcomes, order, refreshErrors, id);
    BodiesOfSorted(sorted);
  }

  /** So a room's share keeps the log's order exactly if the room lists its messages in order of
      creation; otherwise sorting the batch changes it. */
  lemma ShareKeepsOrderIffChronological(s: MultiState, outcomes: RoomId -> RoomOutcome, order: seq<RoomId>,
                                        refreshErrors: seq<Event>, id: RoomId)
    requires OrderOf(s.rooms, order) && id in s.rooms
    requires forall e :: e in refreshErrors ==> !e.Delivered?
    requires KnownRooms(s.rooms, order) && !Finished(s.rooms, outcomes, order).hasPendingBacklog
    ensures var ready := Ready(s.rooms[id].poller, outcomes(id));
      RoomShare(PollBatch(s, outcomes, order, refreshErrors).1.events, id) == ready <==> Chronological(ready)
  {
    ShareIsChronological(s, outcomes, order, refreshErrors, id);
    if Chronological(Ready(s.rooms[id].poller, outcomes(id))) {
      ShareOfBatch(s, outcomes, order, refreshErrors, id);
    }
  }

  /** For example, a room that lists "b" after "a" although "b" was created earlier gets "b" first. */
  lemma SortingSwaps(s: MultiState, outcomes: RoomId -> RoomOutcome)
    requires s.rooms.Keys == {"r"} && outcomes("r") == Answers([])
    requires s.rooms["r"].poller.backlogNext.None?
    requires s.rooms["r"].poller.pendingFresh == [Message(Some("b"), Some(1)), Message(Some("a"), Some(2))]
    ensures KnownRooms(s.rooms, ["r"])
    ensures Ready(s.rooms["r"].poller, outcomes("r")) == [Message(Some("a"), Some(2)), Message(Some("b"), Some(1))]
    ensures RoomShare(PollBatch(s, outcomes, ["r"], []).1.events, "r")
            == [Message(Some("b"), Some(1)), Message(Some("a"), Some(2))]
  {
    var ready := Ready(s.rooms["r"].poller, outcomes("r"));
    var a, b := Message(Some("a"), Some(2)), Message(Some("b"), Some(1));
    assert ready == [a, b];
    assert Elements(["r"]) == {"r"};
    FinishedHolds(s.rooms, outcomes, ["r"]);
    ShareOfBatch(s, outcomes, ["r"], [], "r");
    ShareIsChronological(s, outcomes, ["r"], [], "r");
    TwoInOrder(RoomShare(PollBatch(s, outcomes, ["r"], []).1.events, "r"), a, b);
  }

  lemma TwoInOrder(share: seq<Message>, a: Message, b: Message)
    requires multiset(share) == multiset{a, b} && Chronological(share)
    requires OptionCompare(Earlier, a.created, b.created) > 0
    ensures share == [b, a]
  {
    assert |share| == |multiset(share)| == 2;
    assert share == [share[0], share[1]];
    assert share[0] in multiset(share) && share[1] in multiset(share);
    assert b in multiset(share) && a in multiset(share);
  }

  // ----- one room through one batch -----

  /** The answers a room's poll gets in a batch; a poll that runs out of time may have got some too. */
  ghost predicate OutcomeServed(log: seq<Message>, p: PollerState, listed: nat, listed': nat, outcome: RoomOutcome) {
    match outcome
    case Answers(responses) => Served(log, p, listed, listed', responses)
    case RunsOutOfTime => exists responses :: Served(log, p, listed, listed', responses)
  }

  /** A finished catch-up that is put back: it stays buffered, complete, and is not committed. */
  lemma HoldCovering(log: seq<Message>, listed: nat, listed': nat, p: PollerState, m: Marks, u: PollUpdate, low: nat)
    requires RoomInv(log, listed, p, m) && listed <= listed' <= |log|
    requires m.end <= low <= listed' && Covers(log, p, m.end, u, low, listed')
    requires u.commitSeen && u.messages != []
    ensures RoomInv(log, listed', ApplyUpdate(p, Held(u)), Marks(m.start, m.end, low))
  {
  }

  /** What a room's poll had ready is the stretch by which its boundary moves. */
  ghost predicate Advances(log: seq<Message>, p: PollerState, share: seq<Message>, m: Marks, m': Marks) {
    && m.end <= m'.end <= |log|
    && (p.initialized ==> m'.start == m.start)
    && (|| (m'.start == m.start && share == log[m.end..m'.end])
        || (!p.initialized && m'.start == m'.end && share == []))
  }

  /** Messages emitted for a room are a permutation of a stretch of its log, and in the log's order if the
      log is in order of creation. */
  ghost predicate IsStretch(log: seq<Message>, emitted: seq<Message>, low: nat, high: nat)
    requires low <= high <= |log|
  {
    && multiset(emitted) == multiset(log[low..high])
    && (Chronological(log) ==> emitted == log[low..high])
  }

  /** A room's share of a batch, sorted with the others', is the stretch by which its boundary moves. */
  ghost predicate Emits(log: seq<Message>, p: PollerState, share: seq<Message>, m: Marks, m': Marks) {
    && m.end <= m'.end <= |log|
    && (p.initialized ==> m'.start == m.start)
    && (|| (m'.start == m.start && IsStretch(log, share, m.end, m'.end))
        || (!p.initialized && m'.start == m'.end && share == []))
  }

  lemma SettledRoom(log: seq<Message>, listed: nat, listed': nat, p: PollerState, m: Marks, u: PollUpdate, low: nat, hold: bool)
    returns (m': Marks)
    requires RoomInv(log, listed, p, m) && listed <= listed' <= |log|
    requires m.end <= low <= listed' && Covers(log, p, m.end, u, low, listed')
    requires !u.commitSeen ==> hold
    ensures RoomInv(log, listed', ApplyUpdate(p, Settled(hold, u)), m')
    ensures Advances(log, p, if hold then [] else u.messages, m, m')
  {
    if hold && u.commitSeen && u.messages != [] {
      HoldCovering(log, listed, listed', p, m, u, low);
      m' := Marks(m.start, m.end, low);
    } else {
      ApplyCovering(log, listed, listed', p, m, u, low);
      m' := MarksAfter(p, m, u, low, listed');
      if u.commitSeen && KeepsPending(p) && hold {
        assert |log[low..listed']| == 0;
      }
    }
  }

  /** One room through one batch: its boundary moves past messages exactly when they are emitted. */
  lemma BatchRoom(log: seq<Message>, listed: nat, listed': nat, p: PollerState, m: Marks, outcome: RoomOutcome, hold: bool)
    returns (m': Marks)
    requires RoomInv(log, listed, p, m) && OutcomeServed(log, p, listed, listed', outcome)
    requires HoldsBatch(p, outcome) ==> hold
    ensures RoomInv(log, listed', AfterBatch(hold, p, outcome), m')
    ensures Advances(log, p, if hold then [] else Ready(p, outcome), m, m')
    ensures p.initialized ==> AfterBatch(hold, p, outcome).initialized
  {
    match outcome {
      case RunsOutOfTime =>
        var responses :| Served(log, p, listed, listed', responses);
        m' := Interrupted(log, listed, listed', p, m, responses);
      case Answers(responses) =>
        var low := TransactionCovers(log, listed, listed', p, m, responses);
        var r := Transaction(p, responses);
        if UpdateOf(r).None? {
          m' := Interrupted(log, listed, listed', p, m, responses);
        } else {
          m' := SettledRoom(log, listed, listed', p, m, UpdateOf(r).value, low, hold);
        }
    }
  }

  lemma Interrupted(log: seq<Message>, listed: nat, listed': nat, p: PollerState, m: Marks, responses: seq<Response>)
    returns (m': Marks)
    requires RoomInv(log, listed, p, m) && Served(log, p, listed, listed', responses)
    ensures RoomInv(log, listed', p, m') && m'.start == m.start && m'.end == m.end
  {
    m' := m;
    if p.backlogNext.None? && p.pendingFresh == [] {
      NothingPending(log, listed, p, m);
      m' := Marks(m.start, m.end, m.end);
    }
  }

  lemma ReadyIsChronological(log: seq<Message>, listed: nat, listed': nat, p: PollerState, m: Marks, outcome: RoomOutcome)
    requires RoomInv(log, listed, p, m) && OutcomeServed(log, p, listed, listed', outcome)
    requires Chronological(log)
    ensures Chronological(Ready(p, outcome))
  {
    if outcome.Answers? {
      var low := TransactionCovers(log, listed, listed', p, m, outcome.responses);
    }
  }

  // ----- runs -----

  /** What an observer of one room sees: the room's log, how far the service has listed it, the
      whole poller, and everything emitted for the room so far. */
  datatype Watch = Watch(log: seq<Message>, listed: nat, multi: MultiState, emitted: seq<Message>)

  datatype Step =
    | RefreshRooms(discovered: seq<Room>)
    | BatchPoll(outcomes: RoomId -> RoomOutcome, order: seq<RoomId>, refreshErrors: seq<Event>)
    | Reconfigure(config: MultiConfig)

  ghost predicate Next(s: Watch, step: Step, s': Watch, id: RoomId) {
    && s.log <= s'.log && ValidLog(s'.log)
    && match step
       case RefreshRooms(discovered) =>
         s'.listed == s.listed && s'.multi == Refresh(s.multi, discovered) && s'.emitted == s.emitted
       case BatchPoll(outcomes, order, refreshErrors) =>
         && OrderOf(s.multi.rooms, order)
         && KnownRooms(s.multi.rooms, order)
         && (forall e :: e in refreshErrors ==> !e.Delivered?)
         && (if id in s.multi.rooms
             then OutcomeServed(s'.log, s.multi.rooms[id].poller, s.listed, s'.listed, outcomes(id))
             else s'.listed == s.listed)
         && var (multi, poll) := PollBatch(s.multi, outcomes, order, refreshErrors);
            s'.multi == multi && s'.emitted == s.emitted + RoomShare(poll.events, id)
       case Reconfigure(config) =>
         s'.listed == s.listed && s'.multi == WithConfig(s.multi, config) && s'.emitted == s.emitted
  }

  ghost predicate RoomDelivered(log: seq<Message>, listed: nat, p: PollerState, emitted: seq<Message>, m: Marks) {
    RoomInv(log, listed, p, m) && IsStretch(log, emitted, m.start, m.end)
  }

  /** The room has been delivered from the start to the committed boundary, whether it is active,
      retired, or only remembered by a checkpoint. */
  ghost predicate Delivered(s: Watch, id: RoomId, m: Marks) {
    MultiInv(s.multi) && RoomDelivered(s.log, s.listed, Memory(s.multi, id), s.emitted, m)
  }

  lemma DeliveredGrows(log: seq<Message>, log': seq<Message>, listed: nat, p: PollerState, emitted: seq<Message>, m: Marks)
    requires RoomDelivered(log, listed, p, emitted, m) && log <= log' && ValidLog(log')
    ensures RoomDelivered(log', listed, p, emitted, m)
  {
    RoomInvGrows(log, log', listed, p, m);
    StretchGrows(log, log', emitted, m.start, m.end);
  }

  lemma StretchGrows(log: seq<Message>, log': seq<Message>, emitted: seq<Message>, low: nat, high: nat)
    requires low <= high <= |log| && log <= log' && IsStretch(log, emitted, low, high)
    ensures IsStretch(log', emitted, low, high)
  {
    assert log[low..high] == log'[low..high];
    if Chronological(log') {
      assert forall i :: 0 <= i < |log| ==> log[i] == log'[i];
    }
  }

  lemma RestoredDelivers(log: seq<Message>, listed: nat, p: PollerState, m: Marks, config: PollingConfig)
    requires RoomInv(log, listed, p, m) && PollerOk(p, config) && !p.HasPendingBacklog()
    ensures RoomInv(log, listed, Restored(p, config), m)
  {
    RestoredIsSame(p, config);
    if p.initialized && p.seen != [] {
      assert m.end > 0;
    }
  }

  lemma MemoryOk(s: MultiState, id: RoomId)
    requires MultiInv(s)
    ensures PollerOk(Memory(s, id), s.config.roomPolling)
  {
    FromCheckpointOk(s.config.roomPolling, SavedFor(s.checkpoints, id));
  }

  lemma SameOrRestoredDelivers(log: seq<Message>, listed: nat, p: PollerState, p': PollerState, m: Marks, config: PollingConfig)
    requires RoomInv(log, listed, p, m) && PollerOk(p, config) && SameOrRestored(p, p', config)
    ensures RoomInv(log, listed, p', m) && (p.initialized ==> p'.initialized)
  {
    if p' != p {
      RestoredDelivers(log, listed, p, m, config);
      RestoredIsSame(p, config);
    }
  }

  lemma RefreshStep(s: Watch, discovered: seq<Room>, s': Watch, id: RoomId, m: Marks)
    requires Delivered(s, id, m) && Next(s, RefreshRooms(discovered), s', id)
    ensures Delivered(s', id, m)
    ensures Memory(s.multi, id).initialized ==> Memory(s'.multi, id).initialized
  {
    DeliveredGrows(s.log, s'.log, s.listed, Memory(s.multi, id), s.emitted, m);
    RefreshRemembers(s.multi, discovered);
    MemoryOk(s.multi, id);
    SameOrRestoredDelivers(s'.log, s.listed, Memory(s.multi, id), Memory(s'.multi, id), m,
                           s.multi.config.roomPolling);
  }

  lemma BatchMemory(s: MultiState, outcomes: RoomId -> RoomOutcome, order: seq<RoomId>, refreshErrors: seq<Event>, id: RoomId)
    requires OrderOf(s.rooms, order)
    ensures KnownRooms(s.rooms, order)
    ensures var hold := Finished(s.rooms, outcomes, order).hasPendingBacklog;
      && Memory(PollBatch(s, outcomes, order, refreshErrors).0, id)
         == (if id in s.rooms then AfterBatch(hold, s.rooms[id].poller, outcomes(id)) else Memory(s, id))
      && (id in s.rooms && HoldsBatch(s.rooms[id].poller, outcomes(id)) ==> hold)
  {
    OrderMembers(s.rooms, order);
    FinishedHolds(s.rooms, outcomes, order);
    AppliedRooms(s.rooms, outcomes, Finished(s.rooms, outcomes, order).hasPendingBacklog, order);
  }

  lemma ActiveRoom(s: MultiState, outcomes: RoomId -> RoomOutcome, order: seq<RoomId>, refreshErrors: seq<Event>,
                   id: RoomId, log: seq<Message>, listed: nat, listed': nat, m: Marks)
    returns (m': Marks)
    requires OrderOf(s.rooms, order) && KnownRooms(s.rooms, order) && id in s.rooms
    requires forall e :: e in refreshErrors ==> !e.Delivered?
    requires RoomInv(log, listed, s.rooms[id].poller, m)
    requires OutcomeServed(log, s.rooms[id].poller, listed, listed', outcomes(id))
    ensures var (s', poll) := PollBatch(s, outcomes, order, refreshErrors);
      && RoomInv(log, listed', Memory(s', id), m')
      && Emits(log, s.rooms[id].poller, RoomShare(poll.events, id), m, m')
      && (s.rooms[id].poller.initialized ==> Memory(s', id).initialized)
  {
    var p := s.rooms[id].poller;
    var hold := Finished(s.rooms, outcomes, order).hasPendingBacklog;
    BatchMemory(s, outcomes, order, refreshErrors, id);
    ShareOfBatch(s, outcomes, order, refreshErrors, id);
    m' := BatchRoom(log, listed, listed', p, m, outcomes(id), hold);
    if Chronological(log) {
      ReadyIsChronological(log, listed, listed', p, m, outcomes(id));
    }
    PermutedEmits(log, p, if hold then [] else Ready(p, outcomes(id)),
                  RoomShare(PollBatch(s, outcomes, order, refreshErrors).1.events, id), m, m');
  }

  lemma PermutedEmits(log: seq<Message>, p: PollerState, ready: seq<Message>, share: seq<Message>, m: Marks, m': Marks)
    requires Advances(log, p, ready, m, m') && multiset(share) == multiset(ready)
    requires Chronological(log) ==> share == ready
    ensures Emits(log, p, share, m, m')
  {
    if ready == [] {
      assert |multiset(share)| == |share|;
    }
  }

  /** One room of a batch, delivered so far, stays delivered. */
  lemma RoomInBatch(s: MultiState, outcomes: RoomId -> RoomOutcome, order: seq<RoomId>, refreshErrors: seq<Event>,
                    id: RoomId, log: seq<Message>, listed: nat, listed': nat, emitted: seq<Message>, m: Marks)
    returns (m': Marks)
    requires OrderOf(s.rooms, order) && KnownRooms(s.rooms, order)
    requires forall e :: e in refreshErrors ==> !e.Delivered?
    requires RoomDelivered(log, listed, Memory(s, id), emitted, m)
    requires if id in s.rooms then OutcomeServed(log, s.rooms[id].poller, listed, listed', outcomes(id))
             else listed' == listed
    ensures var (s', poll) := PollBatch(s, outcomes, order, refreshErrors);
      && RoomDelivered(log, listed', Memory(s', id), emitted + RoomShare(poll.events, id), m')
      && m.end <= m'.end
      && (Memory(s, id).initialized ==> Memory(s', id).initialized && m'.start == m.start)
      && Emits(log, Memory(s, id), RoomShare(poll.events, id), m, m')
  {
    if id in s.rooms {
      m' := ActiveRoom(s, outcomes, order, refreshErrors, id, log, listed, listed', m);
      ShareAppended(log, s.rooms[id].poller, emitted,
                    RoomShare(PollBatch(s, outcomes, order, refreshErrors).1.events, id), m, m');
    } else {
      BatchMemory(s, outcomes, order, refreshErrors, id);
      ShareOfBatch(s, outcomes, order, refreshErrors, id);
      m' := m;
    }
  }

  lemma BatchStep(s: Watch, outcomes: RoomId -> RoomOutcome, order: seq<RoomId>, refreshErrors: seq<Event>, s': Watch,
                  id: RoomId, m: Marks)
    returns (m': Marks)
    requires Delivered(s, id, m) && Next(s, BatchPoll(outcomes, order, refreshErrors), s', id)
    ensures Delivered(s', id, m') && m.end <= m'.end
    ensures Memory(s.multi, id).initialized ==> Memory(s'.multi, id).initialized && m'.start == m.start
    ensures Emits(s'.log, Memory(s.multi, id),
                  RoomShare(PollBatch(s.multi, outcomes, order, refreshErrors).1.events, id), m, m')
  {
    DeliveredGrows(s.log, s'.log, s.listed, Memory(s.multi, id), s.emitted, m);
    BatchKeepsInv(s.multi, outcomes, order, refreshErrors);
    m' := RoomInBatch(s.multi, outcomes, order, refreshErrors, id, s'.log, s.listed, s'.listed, s.emitted, m);
  }

  lemma ShareAppended(log: seq<Message>, p: PollerState, emitted: seq<Message>, share: seq<Message>, m: Marks, m': Marks)
    requires Emits(log, p, share, m, m') && m.start <= m.end && m'.start <= m'.end
    requires IsStretch(log, emitted, m.start, m.end) && (!p.initialized ==> m.start == m.end)
    ensures IsStretch(log, emitted + share, m'.start, m'.end)
  {
    if m'.start == m.start && IsStretch(log, share, m.end, m'.end) {
      assert log[m.start..m'.end] == log[m.start..m.end] + log[m.end..m'.end];
    } else {
      assert log[m.start..m.end] == [] && |multiset(emitted)| == |emitted|;
      assert emitted + share == [] && log[m'.start..m'.end] == [];
    }
  }

  /** Reconfiguring reaches rooms that are only remembered, too. */
  lemma WithConfigMemory(s: MultiState, config: MultiConfig, id: RoomId)
    ensures Memory(WithConfig(s, config), id) == SetConfig(Memory(s, id), config.roomPolling)
  {
  }

  lemma ReconfigureStep(s: Watch, config: MultiConfig, s': Watch, id: RoomId, m: Marks)
    requires Delivered(s, id, m) && Next(s, Reconfigure(config), s', id)
    ensures Delivered(s', id, m)
    ensures Memory(s'.multi, id).initialized == Memory(s.multi, id).initialized
  {
    DeliveredGrows(s.log, s'.log, s.listed, Memory(s.multi, id), s.emitted, m);
    WithConfigKeeps(s.multi, config);
    WithConfigMemory(s.multi, config, id);
    RoomRuns.SetConfigKeeps(s'.log, s.listed, Memory(s.multi, id), m, config.roomPolling);
  }

  lemma StepDelivers(s: Watch, step: Step, s': Watch, id: RoomId, m: Marks) returns (m': Marks)
    requires Delivered(s, id, m) && Next(s, step, s', id)
    ensures Delivered(s', id, m') && m.end <= m'.end
    ensures Memory(s.multi, id).initialized ==> Memory(s'.multi, id).initialized && m'.start == m.start
  {
    m' := m;
    match step {
      case RefreshRooms(discovered) => RefreshStep(s, discovered, s', id, m);
      case BatchPoll(outcomes, order, refreshErrors) =>
        m' := BatchStep(s, outcomes, order, refreshErrors, s', id, m);
      case Reconfigure(config) => ReconfigureStep(s, config, s', id, m);
    }
  }

  ghost predicate Run(run: seq<Watch>, steps: seq<Step>, id: RoomId) {
    && |run| == |steps| + 1
    && forall i {:trigger steps[i]} :: 0 <= i < |steps| ==> Next(run[i], steps[i], run[i + 1], id)
  }

  /** Over any run of refreshes, batches and reconfigurations, and for every room: what has been
      emitted for the room is a permutation of a contiguous slice of its log, in the log's own order if the
      log is in order of creation.  The start is fixed once the room is initialized; the end never goes
      back, whether the room stays active, disappears, is evicted to a checkpoint, or comes back. */
  lemma {:induction false} EveryRoomExactlyOnce(run: seq<Watch>, steps: seq<Step>, id: RoomId, m: Marks)
    returns (m': Marks)
    requires Run(run, steps, id) && Delivered(run[0], id, m)
    ensures Delivered(run[|steps|], id, m') && m.end <= m'.end
    ensures Memory(run[0].multi, id).initialized ==> m'.start == m.start && Memory(run[|steps|].multi, id).initialized
  {
    m' := m;
    if steps != [] {
      var n := |steps| - 1;
      assert Run(run[..n + 1], steps[..n], id);
      var before := EveryRoomExactlyOnce(run[..n + 1], steps[..n], id, m);
      assert Next(run[n], steps[n], run[n + 1], id);
      m' := StepDelivers(run[n], steps[n], run[n + 1], id, before);
    }
  }

  /** So exactly the messages between the room's start and its boundary have been emitted, each once. */
  lemma DeliveredOnce(s: Watch, id: RoomId, m: Marks, x: Message)
    requires Delivered(s, id, m)
    ensures multiset(s.emitted)[x] == if x in s.log[m.start..m.end] then 1 else 0
  {
    assert Distinct(s.log[m.start..m.end]);
    CountInDistinct(s.log[m.start..m.end], x);
  }

  /** A room whose log is in order of creation gets its messages in that order. */
  lemma EveryRoomInOrder(run: seq<Watch>, steps: seq<Step>, id: RoomId, m: Marks) returns (m': Marks)
    requires Run(run, steps, id) && Delivered(run[0], id, m) && Chronological(run[|steps|].log)
    ensures m.end <= m'.end <= |run[|steps|].log| && m'.start <= m'.end
    ensures run[|steps|].emitted == run[|steps|].log[m'.start..m'.end]
  {
    m' := EveryRoomExactlyOnce(run, steps, id, m);
  }

  /** A new poller, seeded or not, starts such runs: a seeded room has been delivered up to the position
      its checkpoint stands for. */
  lemma RunsStart(log: seq<Message>, listed: nat, config: MultiConfig, seeds: map<RoomId, SavedSeed>, id: RoomId, at: nat)
    requires ValidLog(log) && at <= listed <= |log|
    requires if id in seeds
             then seeds[id].0 <= NewestIds(log, 0, at) && (seeds[id].0 == [] <==> at == 0)
                  && seeds[id].1 == (seeds[id].0 == [])
             else at == 0
    ensures Delivered(Watch(log, listed, WithRoomCheckpoints(NewMulti(config), seeds), []), id, Marks(at, at, at))
  {
    var s := WithRoomCheckpoints(NewMulti(config), seeds);
    assert MultiInv(NewMulti(config));
    WithRoomCheckpointsKeeps(NewMulti(config), seeds);
    assert s.checkpoints == seeds;
    if id in seeds {
      RoomRuns.SeededPoller(log, listed, config.roomPolling, seeds[id].0, at);
    } else {
      RoomRuns.FreshPoller(log, listed, config.roomPolling);
    }
  }

  /** A running poller that is seeded delivers each seeded room from the position its checkpoint stands for,
      active, retired or not known yet. */
  lemma ReseededAt(log: seq<Message>, listed: nat, s: MultiState, seeds: map<RoomId, SavedSeed>, id: RoomId, at: nat)
    requires MultiInv(s) && ValidLog(log) && at <= listed <= |log| && id in seeds
    requires seeds[id].0 <= NewestIds(log, 0, at) && (seeds[id].0 == [] <==> at == 0) && seeds[id].1 == (seeds[id].0 == [])
    ensures Delivered(Watch(log, listed, WithRoomCheckpoints(s, seeds), []), id, Marks(at, at, at))
  {
    WithRoomCheckpointsKeeps(s, seeds);
    SeededMemory(s, seeds, id);
    RoomRuns.SeededPoller(log, listed, s.config.roomPolling, seeds[id].0, at);
  }
}
