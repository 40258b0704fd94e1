// The joined-room poller in the source's own form (`MultiRoomMessagePoller`,
// `remember_inactive_room`, `prune_inactive_rooms` in src/realtime.rs), proved against
// MultiRoomModel.dfy.  Its maps own their pollers, so pollers are values here.

module MultiRoom {
  import opened Wrappers
  import opened SeenWindow
  import opened PollerModel
  import opened MultiRoomModel
  import opened Sorting
  import opened BatchOrder
  import opened RoomTurns
  import opened RoomMemory
  import opened PassReport
  import BatchDelivery
  import TextOrder

  method FirstWithoutBacklog(inactive: map<RoomId, RoomEntry>, order: seq<RoomId>) returns (r: Option<RoomId>)
    ensures r == Victim(inactive, order)
  {
    for i := 0 to |order|
      invariant FirstRemovable(inactive, order[i..]) == FirstRemovable(inactive, order)
    {
      assert order[i..][1..] == order[i + 1..];
      if order[i] in inactive && !inactive[order[i]].poller.HasPendingBacklog() {
        return Some(order[i]);
      }
    }
    var removable := set id | id in inactive && Removable(inactive, id);
    assert removable == RemovableKeys(inactive);
    if removable == {} {
      return None;
    }
    var id, rest := TextOrder.TakeLeast(removable);
    assert id == TextOrder.InOrder(removable)[0] == TextOrder.Least(removable);
    return Some(id);
  }

  method PruneInactiveRooms(f: Refreshing, maxInactiveRooms: nat) returns (r: Refreshing)
    ensures r == Prune(f, maxInactiveRooms)
  {
    var limit := AtLeastOne(maxInactiveRooms);
    r := f.(order := Kept(f.order, f.inactive));
    while |r.inactive| > limit
      invariant PruneLoop(r, limit) == Prune(f, maxInactiveRooms)
      decreases |r.inactive|
    {
      var victim := FirstWithoutBacklog(r.inactive, r.order);
      if victim.None? {
        break;
      }
      var id := victim.value;
      var entry := r.inactive[id];
      var checkpoints := r.checkpoints;
      var checkpoint := CurrentCheckpoint(entry.poller, id);
      if checkpoint.Some? {
        checkpoints := checkpoints[id := (checkpoint.value.seenMessageIds, checkpoint.value.initializeEmpty)];
      }
      ghost var before := r;
      r := r.(inactive := r.inactive - {id}, order := Without(r.order, id), checkpoints := checkpoints);
      assert r == Forget(before, id);
      assert r.inactive.Keys == before.inactive.Keys - {id};
      assert |r.inactive.Keys| == |r.inactive| && |before.inactive.Keys| == |before.inactive|;
    }
  }

  lemma {:induction false} PruneKeepsNext(f: Refreshing, limit: nat)
    ensures PruneLoop(f, limit).next == f.next
    decreases |f.inactive|
  {
    var victim := Victim(f.inactive, f.order);
    if |f.inactive| > limit && victim.Some? {
      assert Forget(f, victim.value).inactive.Keys == f.inactive.Keys - {victim.value};
      assert |f.inactive.Keys| == |f.inactive|;
      PruneKeepsNext(Forget(f, victim.value), limit);
    }
  }

  // ----- which rooms are waiting, being polled, or finished -----

  /** Every active room is in exactly one of the three. */
  ghost predicate Shared(rooms: set<RoomId>, active: seq<RoomId>, order: seq<RoomId>, remaining: set<RoomId>) {
    && Distinct(active + order)
    && Elements(active + order) !! remaining
    && Elements(active + order) + remaining == rooms
  }

  lemma SharedFinished(rooms: map<RoomId, RoomEntry>, active: seq<RoomId>, order: seq<RoomId>, remaining: set<RoomId>)
    requires Shared(rooms.Keys, active, order, remaining)
    ensures KnownRooms(rooms, order) && forall id :: id in active ==> id in rooms
    ensures active == [] && remaining == {} ==> OrderOf(rooms, order)
  {
    var all := active + order;
    forall i | 0 <= i < |order| ensures order[i] == all[|active| + i] && order[i] in Elements(all) {}
    forall i | 0 <= i < |active| ensures active[i] == all[i] && active[i] in Elements(all) {}
    if active == [] {
      assert all == order;
    }
  }

  lemma FinishOne(rooms: set<RoomId>, active: seq<RoomId>, order: seq<RoomId>, remaining: set<RoomId>, k: nat)
    requires Shared(rooms, active, order, remaining) && k < |active|
    ensures Shared(rooms, active[..k] + active[k + 1..], order + [active[k]], remaining)
  {
    var all := active + order;
    var all' := active[..k] + active[k + 1..] + (order + [active[k]]);
    assert all == active[..k] + [active[k]] + active[k + 1..] + order;
    assert all' == active[..k] + active[k + 1..] + order + [active[k]];
    assert multiset(all) == multiset(all');
    SameElements(all, all');
    DistinctIsMultiset(all);
    DistinctIsMultiset(all');
  }

  /** The poll that finishes next joins the batch. */
  lemma FinishNext(rooms: map<RoomId, RoomEntry>, outcomes: RoomId -> RoomOutcome, active: seq<RoomId>,
                   order: seq<RoomId>, remaining: set<RoomId>, k: nat)
    requires Shared(rooms.Keys, active, order, remaining) && k < |active| && KnownRooms(rooms, order)
    ensures active[k] in rooms && KnownRooms(rooms, order + [active[k]])
    ensures Shared(rooms.Keys, active[..k] + active[k + 1..], order + [active[k]], remaining)
    ensures Finished(rooms, outcomes, order + [active[k]])
            == AddResult(Finished(rooms, outcomes, order), active[k], rooms[active[k]],
                         PollRoom(rooms[active[k]].poller, outcomes(active[k])))
  {
    SharedFinished(rooms, active, order, remaining);
    FinishOne(rooms.Keys, active, order, remaining, k);
    SharedFinished(rooms, active[..k] + active[k + 1..], order + [active[k]], remaining);
    assert (order + [active[k]])[..|order|] == order;
  }

  lemma StartOne(rooms: set<RoomId>, active: seq<RoomId>, order: seq<RoomId>, remaining: set<RoomId>, id: RoomId)
    requires Shared(rooms, active, order, remaining) && id in remaining
    ensures Shared(rooms, active + [id], order, remaining - {id})
  {
    var all, more := active + order, active + order + [id];
    var all' := active + [id] + order;
    assert multiset(all') == multiset(more);
    SameElements(all', more);
    assert Distinct(more) by {
      forall i | 0 <= i < |all| ensures all[i] != id { assert all[i] in Elements(all); }
    }
    DistinctIsMultiset(more);
    DistinctIsMultiset(all');
    assert Elements(more) == Elements(all) + {id};
  }

  /** What has been traced so far: the rooms not remaining have started in order, and those running have
      not finished. */
  ghost predicate Traced(rooms: set<RoomId>, trace: seq<Turn>, active: seq<RoomId>, order: seq<RoomId>,
                         remaining: set<RoomId>, limit: nat) {
    && Started(trace) + TextOrder.InOrder(remaining) == TextOrder.InOrder(rooms)
    && Ended(trace) == order
    && |Started(trace)| == |active| + |order|
    && (forall id :: id in active ==> id in Started(trace))
    && AlwaysProper(trace, limit)
  }

  lemma TraceStart(rooms: set<RoomId>, trace: seq<Turn>, active: seq<RoomId>, order: seq<RoomId>,
                   remaining: set<RoomId>, limit: nat, id: RoomId, rest: set<RoomId>)
    requires Traced(rooms, trace, active, order, remaining, limit) && |active| < limit
    requires TextOrder.InOrder(remaining) == [id] + TextOrder.InOrder(rest)
    ensures Traced(rooms, trace + [Starts(id)], active + [id], order, rest, limit)
  {
    OneMoreTurn(trace, Starts(id), limit);
    assert Started(trace) + [id] + TextOrder.InOrder(rest) == Started(trace) + ([id] + TextOrder.InOrder(rest));
  }

  lemma TraceFinish(rooms: set<RoomId>, trace: seq<Turn>, active: seq<RoomId>, order: seq<RoomId>,
                    remaining: set<RoomId>, limit: nat, k: nat)
    requires Traced(rooms, trace, active, order, remaining, limit) && k < |active|
    ensures Traced(rooms, trace + [Finishes(active[k])], active[..k] + active[k + 1..], order + [active[k]], remaining, limit)
  {
    OneMoreTurn(trace, Finishes(active[k]), limit);
  }

  /** Where the polls of a batch stand. */
  ghost predicate Going(rooms: set<RoomId>, trace: seq<Turn>, active: seq<RoomId>, order: seq<RoomId>,
                        remaining: set<RoomId>, limit: nat) {
    && Shared(rooms, active, order, remaining) && Traced(rooms, trace, active, order, remaining, limit)
    && |active| <= limit
  }

  lemma NothingStarted(rooms: set<RoomId>, limit: nat)
    ensures Going(rooms, [], [], [], rooms, limit)
  {
    assert [] + TextOrder.InOrder(rooms) == TextOrder.InOrder(rooms);
  }

  lemma GoOnWithStart(rooms: set<RoomId>, trace: seq<Turn>, active: seq<RoomId>, order: seq<RoomId>,
                      remaining: set<RoomId>, limit: nat, id: RoomId, rest: set<RoomId>)
    requires Going(rooms, trace, active, order, remaining, limit) && |active| < limit
    requires id in remaining && rest == remaining - {id}
    requires TextOrder.InOrder(remaining) == [id] + TextOrder.InOrder(rest)
    ensures Going(rooms, trace + [Starts(id)], active + [id], order, rest, limit)
  {
    StartOne(rooms, active, order, remaining, id);
    TraceStart(rooms, trace, active, order, remaining, limit, id, rest);
  }

  lemma GoOnWithFinish(rooms: map<RoomId, RoomEntry>, outcomes: RoomId -> RoomOutcome, trace: seq<Turn>,
                       active: seq<RoomId>, order: seq<RoomId>, remaining: set<RoomId>, limit: nat, k: nat)
    requires Going(rooms.Keys, trace, active, order, remaining, limit) && k < |active| && KnownRooms(rooms, order)
    ensures active[k] in rooms && KnownRooms(rooms, order + [active[k]])
    ensures Going(rooms.Keys, trace + [Finishes(active[k])], active[..k] + active[k + 1..], order + [active[k]],
                  remaining, limit)
    ensures Finished(rooms, outcomes, order + [active[k]])
            == AddResult(Finished(rooms, outcomes, order), active[k], rooms[active[k]],
                         PollRoom(rooms[active[k]].poller, outcomes(active[k])))
  {
    FinishNext(rooms, outcomes, active, order, remaining, k);
    TraceFinish(rooms.Keys, trace, active, order, remaining, limit, k);
  }

  lemma AllDone(rooms: map<RoomId, RoomEntry>, trace: seq<Turn>, order: seq<RoomId>, limit: nat)
    requires Going(rooms.Keys, trace, [], order, {}, limit)
    ensures OrderOf(rooms, order) && KnownRooms(rooms, order)
    ensures PollTrace(TextOrder.InOrder(rooms.Keys), trace, order, limit)
  {
    SharedFinished(rooms, [], order, {});
    assert Started(trace) + [] == Started(trace);
  }

  /** Being duplicate-free is a property of the multiset of elements. */
  lemma {:induction false} DistinctIsMultiset(s: seq<RoomId>)
    ensures Distinct(s) <==> forall x :: multiset(s)[x] <= 1
  {
    if s != [] {
      var init, last := s[..|s| - 1], s[|s| - 1];
      assert s == init + [last];
      DistinctIsMultiset(init);
      assert multiset(s)[last] == multiset(init)[last] + 1;
      if Distinct(s) {
        assert last !in init;
      } else if Distinct(init) {
        assert last in init;
        assert multiset(s)[last] > 1;
      } else {
        var x :| multiset(init)[x] > 1;
        assert multiset(s)[x] > 1;
      }
    }
  }

  /** Takes one finished poll into the batch. */
  method TakeResult(b: Batch, id: RoomId, entry: RoomEntry, result: RoomPollResult) returns (r: Batch)
    ensures r == AddResult(b, id, entry, result)
  {
    var hadPendingBacklog := entry.poller.HasPendingBacklog();
    r := b;
    match result {
      case Completed(Ok(update)) =>
        if !update.commitSeen {
          r := r.(hasPendingBacklog := true);
        }
        r := r.(messages := r.messages + Indexed(id, entry.room, update.messages),
                updates := r.updates + [(id, update)]);
      case Completed(Err(e)) =>
        if e.update.Some? {
          if !e.update.value.commitSeen {
            r := r.(hasPendingBacklog := true);
          }
          r := r.(updates := r.updates + [(id, e.update.value)]);
        } else if hadPendingBacklog {
          r := r.(hasPendingBacklog := true);
        }
        r := r.(errors := r.errors + [RoomFailed(id, e.error)]);
      case TimedOut =>
        if hadPendingBacklog {
          r := r.(hasPendingBacklog := true);
        }
        r := r.(errors := r.errors + [RoomFailed(id, TIMED_OUT)]);
    }
  }

  lemma RetireStep(f: Refreshing, left: set<RoomId>, id: RoomId, rest: set<RoomId>)
    requires TextOrder.InOrder(left) == [id] + TextOrder.InOrder(rest)
    ensures RetireAll(f, TextOrder.InOrder(left)) == RetireAll(Retire(f, id), TextOrder.InOrder(rest))
  {
  }

  lemma DiscoverStep(config: PollingConfig, f: Refreshing, discovered: seq<Room>, i: nat)
    requires i < |discovered|
    ensures DiscoverAll(config, f, discovered[..i + 1]) == Discover(config, DiscoverAll(config, f, discovered[..i]), discovered[i])
  {
    assert discovered[..i + 1][..i] == discovered[..i];
  }

  class MultiRoomMessagePoller {
    var config: MultiConfig
    var rooms: map<RoomId, RoomEntry>
    var inactiveRooms: map<RoomId, RoomEntry>
    var inactiveRoomOrder: seq<RoomId>
    var checkpoints: map<RoomId, SavedSeed>
    var roomsInitialized: bool

    ghost function View(): MultiState
      reads this
    {
      MultiState(config, rooms, inactiveRooms, inactiveRoomOrder, checkpoints, roomsInitialized)
    }

    constructor (config: MultiConfig)
      ensures View() == NewMulti(config)
    {
      this.config := config;
      rooms, inactiveRooms, inactiveRoomOrder, checkpoints := map[], map[], [], map[];
      roomsInitialized := false;
    }

    method RefreshRooms(discovered: seq<Room>)
      modifies this
      ensures View() == Refresh(old(View()), discovered)
    {
      var polling := config.roomPolling;
      ghost var start := StartRefresh(View());
      var next: map<RoomId, RoomEntry> := map[];
      for i := 0 to |discovered|
        invariant config == old(config) && roomsInitialized == old(roomsInitialized)
        invariant Refreshing(rooms, next, inactiveRooms, inactiveRoomOrder, checkpoints)
                  == DiscoverAll(polling, start, discovered[..i])
      {
        DiscoverStep(polling, start, discovered, i);
        next := ClaimRoom(discovered[i], next);
      }
      assert discovered[..|discovered|] == discovered;
      RetireLeftovers(next);
      ghost var retired := Refreshing(rooms, next, inactiveRooms, inactiveRoomOrder, checkpoints);
      PruneKeepsNext(retired.(order := Kept(retired.order, retired.inactive)), AtLeastOne(config.maxInactiveRooms));
      var pruned := PruneInactiveRooms(Refreshing(rooms, next, inactiveRooms, inactiveRoomOrder, checkpoints),
                                       config.maxInactiveRooms);
      rooms := next;
      inactiveRooms, inactiveRoomOrder, checkpoints := pruned.inactive, pruned.order, pruned.checkpoints;
      roomsInitialized := true;
    }

    /** Takes a discovered room over into the next set of active rooms. */
    method ClaimRoom(room: Room, next: map<RoomId, RoomEntry>) returns (next': map<RoomId, RoomEntry>)
      modifies `rooms, `inactiveRooms, `inactiveRoomOrder, `checkpoints
      ensures Refreshing(rooms, next', inactiveRooms, inactiveRoomOrder, checkpoints)
              == Discover(config.roomPolling,
                          Refreshing(old(rooms), next, old(inactiveRooms), old(inactiveRoomOrder), old(checkpoints)),
                          room)
    {
      next' := next;
      if room.id.None? {
        return;
      }
      var id := room.id.value;
      if id in next {
        next' := next[id := next[id].(room := room)];
      } else if id in rooms {
        next' := next[id := rooms[id].(room := room)];
        rooms := rooms - {id};
      } else if id in inactiveRooms {
        inactiveRoomOrder := Without(inactiveRoomOrder, id);
        next' := next[id := inactiveRooms[id].(room := room)];
        inactiveRooms := inactiveRooms - {id};
      } else {
        var poller := NewPoller(config.roomPolling);
        if id in checkpoints {
          var (seenIds, initializeEmpty) := checkpoints[id];
          poller := if seenIds == [] && initializeEmpty then WithEmptySeenBoundary(poller)
                    else WithSeenMessageIds(poller, seenIds);
        }
        checkpoints := checkpoints - {id};
        next' := next[id := RoomEntry(room, poller)];
      }
    }

    /** Every room that was not claimed becomes inactive, in the order of the map. */
    method RetireLeftovers(ghost next: map<RoomId, RoomEntry>)
      modifies `rooms, `inactiveRooms, `inactiveRoomOrder
      ensures var before := Refreshing(old(rooms), next, old(inactiveRooms), old(inactiveRoomOrder), checkpoints);
        Refreshing(rooms, next, inactiveRooms, inactiveRoomOrder, checkpoints)
        == RetireAll(before, TextOrder.InOrder(before.rooms.Keys))
    {
      ghost var before := Refreshing(rooms, next, inactiveRooms, inactiveRoomOrder, checkpoints);
      ghost var goal := RetireAll(before, TextOrder.InOrder(before.rooms.Keys));
      var left := rooms.Keys;
      while left != {}
        invariant left == rooms.Keys
        invariant RetireAll(Refreshing(rooms, next, inactiveRooms, inactiveRoomOrder, checkpoints),
                            TextOrder.InOrder(left)) == goal
        decreases left
      {
        ghost var f := Refreshing(rooms, next, inactiveRooms, inactiveRoomOrder, checkpoints);
        var id, rest := TextOrder.TakeLeast(left);
        RetireStep(f, left, id, rest);
        RetireOne(id, f);
        left := rest;
      }
    }

    method RetireOne(id: RoomId, ghost f: Refreshing)
      requires id in rooms
      requires f == Refreshing(rooms, f.next, inactiveRooms, inactiveRoomOrder, checkpoints)
      modifies `rooms, `inactiveRooms, `inactiveRoomOrder
      ensures Refreshing(rooms, f.next, inactiveRooms, inactiveRoomOrder, checkpoints) == Retire(f, id)
      ensures rooms.Keys == old(rooms.Keys) - {id}
    {
      RememberInactiveRoom(id, rooms[id]);
      rooms := rooms - {id};
    }

    method RememberInactiveRoom(id: RoomId, entry: RoomEntry)
      modifies `inactiveRooms, `inactiveRoomOrder
      ensures inactiveRooms == old(inactiveRooms)[id := entry]
      ensures inactiveRoomOrder == Without(old(inactiveRoomOrder), id) + [id]
    {
      inactiveRooms := inactiveRooms[id := entry];
      inactiveRoomOrder := Without(inactiveRoomOrder, id);
      inactiveRoomOrder := inactiveRoomOrder + [id];
    }

    /** Polls every active room exactly once, at most the configured number at a time.  Which of the
        running polls finishes next is left open; `trace` tells when each started and finished. */
    method PollRoomsConcurrently(outcomes: RoomId -> RoomOutcome)
      returns (batch: Batch, order: seq<RoomId>, ghost trace: seq<Turn>)
      ensures OrderOf(rooms, order) && KnownRooms(rooms, order)
      ensures batch == Finished(rooms, outcomes, order)
      ensures PollTrace(TextOrder.InOrder(rooms.Keys), trace, order, AtLeastOne(config.maxConcurrentRoomPolls))
    {
      var maxConcurrent := AtLeastOne(config.maxConcurrentRoomPolls);
      var remaining := rooms.Keys;
      var active: seq<RoomId> := [];
      order, trace, batch := [], [], EMPTY_BATCH;
      NothingStarted(rooms.Keys, maxConcurrent);
      while |active| < maxConcurrent && remaining != {}
        invariant Going(rooms.Keys, trace, active, order, remaining, maxConcurrent)
        decreases remaining
      {
        var id, rest := TextOrder.TakeLeast(remaining);
        GoOnWithStart(rooms.Keys, trace, active, order, remaining, maxConcurrent, id, rest);
        active, remaining, trace := active + [id], rest, trace + [Starts(id)];
      }
      while active != []
        invariant active == [] ==> remaining == {}
        invariant Going(rooms.Keys, trace, active, order, remaining, maxConcurrent)
        invariant KnownRooms(rooms, order) && batch == Finished(rooms, outcomes, order)
        decreases |active| + |remaining|
      {
        var k :| 0 <= k < |active|;
        var id := active[k];
        GoOnWithFinish(rooms, outcomes, trace, active, order, remaining, maxConcurrent, k);
        active := active[..k] + active[k + 1..];
        order, trace := order + [id], trace + [Finishes(id)];
        batch := TakeResult(batch, id, rooms[id], PollRoom(rooms[id].poller, outcomes(id)));
        if remaining != {} {
          var nextId, rest := TextOrder.TakeLeast(remaining);
          GoOnWithStart(rooms.Keys, trace, active, order, remaining, maxConcurrent, nextId, rest);
          active, remaining, trace := active + [nextId], rest, trace + [Starts(nextId)];
        }
      }
      AllDone(rooms, trace, order, maxConcurrent);
    }

    method WithConfig(config: MultiConfig)
      modifies this
      ensures View() == MultiRoomModel.WithConfig(old(View()), config)
    {
      var discoveryChanged := this.config.discovery != config.discovery;
      this.config := config;
      rooms := map id | id in rooms :: rooms[id].(poller := SetConfig(rooms[id].poller, config.roomPolling));
      inactiveRooms := map id | id in inactiveRooms ::
        inactiveRooms[id].(poller := SetConfig(inactiveRooms[id].poller, config.roomPolling));
      if discoveryChanged {
        roomsInitialized := false;
      }
    }

    method WithRoomCheckpoints(seeds: map<RoomId, SavedSeed>)
      modifies this
      ensures View() == MultiRoomModel.WithRoomCheckpoints(old(View()), seeds)
    {
      rooms := Reseeded(rooms, seeds);
      inactiveRooms := Reseeded(inactiveRooms, seeds);
      checkpoints := seeds - rooms.Keys - inactiveRooms.Keys;
      assert rooms.Keys == old(rooms).Keys && inactiveRooms.Keys == old(inactiveRooms).Keys;
    }

    /** Applies the batch's updates to the rooms that are still active and collects their checkpoints. */
    method ApplyUpdates(hasPendingBacklog: bool, updates: seq<(RoomId, PollUpdate)>)
      returns (emitted: seq<RoomCheckpoint>)
      modifies `rooms
      ensures Applied(rooms, emitted) == ApplyAll(old(rooms), hasPendingBacklog, updates)
    {
      emitted := [];
      for i := 0 to |updates|
        invariant Applied(rooms, emitted) == ApplyAll(old(rooms), hasPendingBacklog, updates[..i])
      {
        assert updates[..i + 1][..i] == updates[..i];
        var (id, update) := updates[i];
        if hasPendingBacklog && update.commitSeen && update.messages != [] {
          update := update.(messages := [], pendingFresh := Reversed(update.messages),
                            pendingSeenIds := update.seenIds, seenIds := [], commitSeen := false);
        }
        if id in rooms {
          var checkpoint := CheckpointAfterUpdate(rooms[id].poller, id, update);
          if checkpoint.Some? {
            emitted := emitted + [checkpoint.value];
          }
          rooms := rooms[id := rooms[id].(poller := ApplyUpdate(rooms[id].poller, update))];
        }
      }
      assert updates[..|updates|] == updates;
    }

    /** Polls the active rooms and settles the batch. */
    method PollRooms(refreshErrors: seq<Event>, outcomes: RoomId -> RoomOutcome)
      returns (poll: MultiRoomPoll, order: seq<RoomId>)
      modifies `rooms
      ensures OrderOf(old(rooms), order) && KnownRooms(old(rooms), order)
      ensures (View(), poll) == PollBatch(old(View()), outcomes, order, refreshErrors)
    {
      var batch, finished, _ := PollRoomsConcurrently(outcomes);
      order := finished;
      var events := if batch.hasPendingBacklog then [] else Deliveries(SortBy(Before, batch.messages));
      events := events + refreshErrors + batch.errors;
      var emitted := ApplyUpdates(batch.hasPendingBacklog, batch.updates);
      poll := MultiRoomPoll(events, SortBy(CheckpointBefore, emitted));
    }

    /** One catch-up pass.  The discovery answer is used only if a refresh is needed or due. */
    method PollOnce(discovery: Result<seq<Room>, string>, refreshDue: bool, outcomes: RoomId -> RoomOutcome)
      returns (r: Result<MultiRoomPoll, string>, order: seq<RoomId>)
      modifies this
      ensures match Entered(old(View()), discovery, refreshDue)
        case Err(e) => r == Err(e) && View() == old(View())
        case Ok((entered, refreshErrors)) =>
          && OrderOf(entered.rooms, order) && KnownRooms(entered.rooms, order)
          && r.Ok? && (View(), r.value) == PollBatch(entered, outcomes, order, refreshErrors)
      ensures r.Err? <==> !old(roomsInitialized) && discovery.Err?
      ensures r.Err? ==> r.error == discovery.error && View() == old(View())
      ensures r.Ok? ==>
        var refreshes := discovery.Ok? && (!old(roomsInitialized) || refreshDue);
        var polled := if refreshes then Refresh(old(View()), discovery.value).rooms else old(rooms);
        && Reports(r.value.events, polled, outcomes,
                   if discovery.Err? && refreshDue then Some(discovery.error) else None, BatchDelivery.BacklogLeft(View()))
        && Checkpoints(r.value.checkpoints, polled, outcomes, rooms)
    {
      var errors: seq<Event> := [];
      if !roomsInitialized {
        if discovery.Err? {
          return Err(discovery.error), [];
        }
        RefreshRooms(discovery.value);
      } else if refreshDue {
        if discovery.Err? {
          errors := [RefreshFailed(discovery.error)];
        } else {
          RefreshRooms(discovery.value);
        }
      }
      ghost var entered := View();
      var poll;
      poll, order := PollRooms(errors, outcomes);
      BatchReports(entered, outcomes, order,
                   if discovery.Err? && refreshDue then Some(discovery.error) else None);
      r := Ok(poll);
    }
  }

  /** The state a pass polls from, and the refresh failure it reports, if it gets that far. */
  ghost function Entered(s: MultiState, discovery: Result<seq<Room>, string>, refreshDue: bool)
    : Result<(MultiState, seq<Event>), string>
  {
    match discovery
    case Ok(rooms) => Ok((if !s.roomsInitialized || refreshDue then Refresh(s, rooms) else s, []))
    case Err(e) =>
      if !s.roomsInitialized then Err(e)
      else Ok((s, if refreshDue then [RefreshFailed(e)] else []))
  }

  /** After a reconfiguration that changes the discovery filter no room is polled before the new filter has been
      applied: a pass fails unless discovery succeeds, and then polls the rooms just listed and no others. */
  lemma ChangedFilterIsApplied(s: MultiState, config: MultiConfig, discovery: Result<seq<Room>, string>, refreshDue: bool)
    requires MultiInv(s) && config.discovery != s.config.discovery
    ensures var entered := Entered(WithConfig(s, config), discovery, refreshDue);
      && (entered.Ok? <==> discovery.Ok?)
      && (entered.Ok? ==> forall id :: id in entered.value.0.rooms <==> exists room :: room in discovery.value && room.id == Some(id))
  {
    if discovery.Ok? {
      WithConfigKeeps(s, config);
      RefreshRemembers(WithConfig(s, config), discovery.value);
      forall id ensures Latest(discovery.value, id).Some? <==> exists room :: room in discovery.value && room.id == Some(id) {
        LatestIffListed(discovery.value, id);
      }
    }
  }

  /** With the same filter the known rooms go on being polled, with the same windows and buffers, whatever
      discovery answers. */
  lemma SameFilterGoesOn(s: MultiState, config: MultiConfig, error: string, refreshDue: bool)
    requires s.roomsInitialized && config.discovery == s.config.discovery
    ensures var entered := Entered(WithConfig(s, config), Err(error), refreshDue);
      && entered.Ok? && entered.value.0.rooms.Keys == s.rooms.Keys
      && forall id :: id in s.rooms ==>
           && entered.value.0.rooms[id].room == s.rooms[id].room
           && entered.value.0.rooms[id].poller == SetConfig(s.rooms[id].poller, config.roomPolling)
  {
  }

  lemma {:induction false} LatestIffListed(rooms: seq<Room>, id: RoomId)
    ensures Latest(rooms, id).Some? <==> exists room :: room in rooms && room.id == Some(id)
  {
    if rooms != [] {
      var init, last := rooms[..|rooms| - 1], rooms[|rooms| - 1];
      assert rooms == init + [last];
      LatestIffListed(init, id);
    }
  }
}
