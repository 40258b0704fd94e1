// Refreshing the set of rooms never changes what the poller remembers of any room.

module RoomMemory {
  import opened Wrappers
  import opened SeenWindow
  import opened PollerModel
  import opened MultiRoomModel
  import TextOrder

  /** What every poller in the maps satisfies, whatever the service answered so far. */
  ghost predicate PollerOk(p: PollerState, config: PollingConfig) {
    && p.config == config
    && Distinct(p.seen) && |p.seen| <= AtLeastOne(config.maxSeenIds)
    && (!p.initialized ==> p.seen == [] && !p.HasPendingBacklog() && p.seed.None?)
  }

  ghost predicate EntriesOk(entries: map<RoomId, RoomEntry>, config: PollingConfig) {
    forall id :: id in entries ==> PollerOk(entries[id].poller, config)
  }

  ghost predicate QueueOf(order: seq<RoomId>, inactive: map<RoomId, RoomEntry>) {
    Distinct(order) && Elements(order) == inactive.Keys
  }

  /** Active rooms, inactive rooms and saved checkpoints are pairwise disjoint, and the queue of
      inactive rooms is a permutation of their keys. */
  ghost predicate MultiInv(s: MultiState) {
    && s.rooms.Keys !! s.inactive.Keys !! s.checkpoints.Keys
    && QueueOf(s.inactiveOrder, s.inactive)
    && EntriesOk(s.rooms, s.config.roomPolling)
    && EntriesOk(s.inactive, s.config.roomPolling)
  }

  /** One room during a refresh: it is in at most one place, and queued exactly when inactive. */
  ghost predicate Placed(f: Refreshing, config: PollingConfig, id: RoomId) {
    && !(id in f.rooms && id in f.next)
    && !((id in f.rooms || id in f.next) && (id in f.inactive || id in f.checkpoints))
    && !(id in f.inactive && id in f.checkpoints)
    && (id in f.order <==> id in f.inactive)
    && (id in f.rooms ==> PollerOk(f.rooms[id].poller, config))
    && (id in f.next ==> PollerOk(f.next[id].poller, config))
    && (id in f.inactive ==> PollerOk(f.inactive[id].poller, config))
  }

  ghost predicate RefreshingOk(f: Refreshing, config: PollingConfig) {
    Distinct(f.order) && forall id :: Placed(f, config, id)
  }

  lemma RoomByRoom(s: MultiState)
    ensures MultiInv(s) <==> RefreshingOk(StartRefresh(s), s.config.roomPolling)
  {
    var f := StartRefresh(s);
    if MultiInv(s) {
      forall id ensures Placed(f, s.config.roomPolling, id) {
        assert id in s.inactiveOrder <==> id in Elements(s.inactiveOrder);
      }
    }
    if RefreshingOk(f, s.config.roomPolling) {
      forall id
        ensures !(id in s.rooms && id in s.inactive) && !(id in s.rooms && id in s.checkpoints)
        ensures !(id in s.inactive && id in s.checkpoints)
        ensures id in s.inactiveOrder <==> id in s.inactive
        ensures id in s.rooms ==> PollerOk(s.rooms[id].poller, s.config.roomPolling)
        ensures id in s.inactive ==> PollerOk(s.inactive[id].poller, s.config.roomPolling)
      {
        assert Placed(f, s.config.roomPolling, id);
      }
    }
  }

  ghost function SavedFor(checkpoints: map<RoomId, SavedSeed>, id: RoomId): Option<SavedSeed> {
    if id in checkpoints then Some(checkpoints[id]) else None
  }

  /** What the poller remembers of a room: its live poller, or the one it would be rebuilt as. */
  ghost function Memory(s: MultiState, id: RoomId): PollerState {
    if id in s.rooms then s.rooms[id].poller
    else if id in s.inactive then s.inactive[id].poller
    else FromCheckpoint(s.config.roomPolling, SavedFor(s.checkpoints, id))
  }

  ghost function RefreshMemory(f: Refreshing, config: PollingConfig, id: RoomId): PollerState {
    if id in f.next then f.next[id].poller
    else if id in f.rooms then f.rooms[id].poller
    else if id in f.inactive then f.inactive[id].poller
    else FromCheckpoint(config, SavedFor(f.checkpoints, id))
  }

  /** The poller that eviction and rediscovery make of one: rebuilt from its current checkpoint. */
  ghost function Restored(p: PollerState, config: PollingConfig): PollerState {
    var c := CurrentCheckpoint(p, "");
    FromCheckpoint(config, if c.Some? then Some((c.value.seenMessageIds, c.value.initializeEmpty)) else None)
  }

  /** Rebuilding a room without backlog gives back everything but the note that it was seeded. */
  lemma RestoredIsSame(p: PollerState, config: PollingConfig)
    requires PollerOk(p, config) && !p.HasPendingBacklog()
    ensures Restored(p, config).(seed := p.seed) == p
    ensures PollerOk(Restored(p, config), config)
  {
    Reseed(p.seen, config.maxSeenIds);
  }

  /** A room's checkpoint after a committed update rebuilds the poller the update leaves behind. */
  lemma CheckpointRebuilds(p: PollerState, room: RoomId, u: PollUpdate)
    requires PollerOk(p, p.config)
    requires u.commitSeen && u.initialized && u.pendingFresh == [] && u.pendingSeenIds == [] && u.backlogNext.None?
    ensures var c := CheckpointAfterUpdate(p, room, u);
      && c.Some?
      && FromCheckpoint(p.config, Some((c.value.seenMessageIds, c.value.initializeEmpty))).(seed := None)
         == ApplyUpdate(p, u)
  {
    RememberKeepsWindow(p.seen, u.seenIds, p.config.maxSeenIds);
    Reseed(SeenAfter(p, u), p.config.maxSeenIds);
  }

  lemma FromCheckpointOk(config: PollingConfig, saved: Option<SavedSeed>)
    ensures PollerOk(FromCheckpoint(config, saved), config)
    ensures !FromCheckpoint(config, saved).HasPendingBacklog()
  {
    if saved.Some? {
      RememberKeepsWindow([], saved.value.0, config.maxSeenIds);
    }
  }

  // ----- queues -----

  lemma {:induction false} WithoutMembers(order: seq<RoomId>, id: RoomId)
    ensures forall r :: r in Without(order, id) <==> r in order && r != id
    ensures Distinct(order) ==> Distinct(Without(order, id))
  {
    if order != [] {
      var init, last := order[..|order| - 1], order[|order| - 1];
      WithoutMembers(init, id);
      assert order == init + [last];
      if Distinct(order) {
        assert last !in init;
        DistinctSnoc(Without(init, id), last);
      }
    }
  }

  lemma DistinctSnoc(s: seq<RoomId>, x: RoomId)
    ensures Distinct(s) && x !in s ==> Distinct(s + [x])
  {
  }

  lemma {:induction false} KeptIsSame(order: seq<RoomId>, inactive: map<RoomId, RoomEntry>)
    requires forall id :: id in order ==> id in inactive
    ensures Kept(order, inactive) == order
  {
    if order != [] {
      KeptIsSame(order[..|order| - 1], inactive);
      assert order == order[..|order| - 1] + [order[|order| - 1]];
    }
  }

  // ----- discovering and retiring -----

  /** A room's share of the maps and the queue is the same before and after. */
  ghost predicate Untouched(f: Refreshing, f': Refreshing, id: RoomId) {
    && (id in f'.rooms <==> id in f.rooms) && (id in f.rooms ==> f'.rooms[id] == f.rooms[id])
    && (id in f'.next <==> id in f.next) && (id in f.next ==> f'.next[id] == f.next[id])
    && (id in f'.inactive <==> id in f.inactive) && (id in f.inactive ==> f'.inactive[id] == f.inactive[id])
    && SavedFor(f'.checkpoints, id) == SavedFor(f.checkpoints, id)
    && (id in f'.order <==> id in f.order)
  }

  lemma DiscoverTouchesOne(config: PollingConfig, f: Refreshing, room: Room, id: RoomId)
    requires room.id != Some(id)
    ensures Untouched(f, Discover(config, f, room), id)
  {
    if room.id.Some? {
      WithoutMembers(f.order, room.id.value);
    }
  }

  lemma DiscoverOther(config: PollingConfig, f: Refreshing, room: Room, id: RoomId)
    requires Placed(f, config, id) && room.id != Some(id)
    ensures var f' := Discover(config, f, room);
      && Placed(f', config, id)
      && RefreshMemory(f', config, id) == RefreshMemory(f, config, id)
      && (id in f'.next <==> id in f.next)
      && (id in f.next ==> f'.next[id] == f.next[id])
  {
    DiscoverTouchesOne(config, f, room, id);
    SavedMembership(f, Discover(config, f, room), id);
  }

  lemma SavedMembership(f: Refreshing, f': Refreshing, id: RoomId)
    requires SavedFor(f'.checkpoints, id) == SavedFor(f.checkpoints, id)
    ensures id in f'.checkpoints <==> id in f.checkpoints
  {
  }

  lemma DiscoverOwn(config: PollingConfig, f: Refreshing, room: Room, id: RoomId)
    requires Placed(f, config, id) && room.id == Some(id)
    ensures var f' := Discover(config, f, room);
      && Placed(f', config, id)
      && RefreshMemory(f', config, id) == RefreshMemory(f, config, id)
      && id in f'.next && f'.next[id].room == room
  {
    if id in f.next || id in f.rooms {
    } else if id in f.inactive {
      WithoutMembers(f.order, id);
    } else {
      FromCheckpointOk(config, SavedFor(f.checkpoints, id));
    }
  }

  lemma DiscoverQueue(config: PollingConfig, f: Refreshing, room: Room)
    requires Distinct(f.order)
    ensures Distinct(Discover(config, f, room).order)
  {
    if room.id.Some? {
      WithoutMembers(f.order, room.id.value);
    }
  }

  /** The latest listing of a room id in a discovery. */
  ghost function Latest(discovered: seq<Room>, id: RoomId): Option<Room> {
    if discovered == [] then None
    else if discovered[|discovered| - 1].id == Some(id) then Some(discovered[|discovered| - 1])
    else Latest(discovered[..|discovered| - 1], id)
  }

  lemma {:induction false} DiscoverAllRoom(config: PollingConfig, f: Refreshing, discovered: seq<Room>, id: RoomId)
    requires Placed(f, config, id) && id !in f.next
    ensures var f' := DiscoverAll(config, f, discovered);
      && Placed(f', config, id)
      && RefreshMemory(f', config, id) == RefreshMemory(f, config, id)
      && (id in f'.next <==> Latest(discovered, id).Some?)
      && (id in f'.next ==> f'.next[id].room == Latest(discovered, id).value)
  {
    if discovered != [] {
      var init := discovered[..|discovered| - 1];
      DiscoverAllRoom(config, f, init, id);
      var last := discovered[|discovered| - 1];
      if last.id == Some(id) {
        DiscoverOwn(config, DiscoverAll(config, f, init), last, id);
      } else {
        DiscoverOther(config, DiscoverAll(config, f, init), last, id);
      }
    }
  }

  lemma {:induction false} DiscoverAllQueue(config: PollingConfig, f: Refreshing, discovered: seq<Room>)
    requires Distinct(f.order)
    ensures Distinct(DiscoverAll(config, f, discovered).order)
  {
    if discovered != [] {
      var init := discovered[..|discovered| - 1];
      DiscoverAllQueue(config, f, init);
      DiscoverQueue(config, DiscoverAll(config, f, init), discovered[|discovered| - 1]);
    }
  }

  lemma {:induction false} RetireAllRoom(config: PollingConfig, f: Refreshing, ids: seq<RoomId>, id: RoomId)
    requires Placed(f, config, id)
    ensures var f' := RetireAll(f, ids);
      && Placed(f', config, id)
      && RefreshMemory(f', config, id) == RefreshMemory(f, config, id)
      && f'.next == f.next && (id in f'.rooms <==> id in f.rooms && id !in ids)
    decreases |ids|
  {
    if ids != [] {
      WithoutMembers(f.order, ids[0]);
      RetireAllRoom(config, Retire(f, ids[0]), ids[1..], id);
    }
  }

  lemma {:induction false} RetireAllQueue(f: Refreshing, ids: seq<RoomId>)
    requires Distinct(f.order)
    ensures Distinct(RetireAll(f, ids).order)
    decreases |ids|
  {
    if ids != [] {
      WithoutMembers(f.order, ids[0]);
      DistinctSnoc(Without(f.order, ids[0]), ids[0]);
      RetireAllQueue(Retire(f, ids[0]), ids[1..]);
    }
  }

  // ----- pruning -----

  /** A room is remembered as before, or it had no backlog and is remembered by its checkpoint. */
  ghost predicate SameOrRestored(before: PollerState, after: PollerState, config: PollingConfig) {
    after == before || (!before.HasPendingBacklog() && after == Restored(before, config))
  }

  lemma ForgetRoom(config: PollingConfig, f: Refreshing, victim: RoomId, id: RoomId)
    requires Placed(f, config, id) && Removable(f.inactive, victim)
    ensures Placed(Forget(f, victim), config, id)
    ensures RefreshMemory(Forget(f, victim), config, id)
            == if id == victim then Restored(RefreshMemory(f, config, id), config)
               else RefreshMemory(f, config, id)
  {
    WithoutMembers(f.order, victim);
  }

  /** Pruning forgets a room only if it has no backlog, and then keeps its checkpoint. */
  lemma {:induction false} PruneRoom(config: PollingConfig, f: Refreshing, limit: nat, id: RoomId)
    requires Placed(f, config, id)
    ensures var f' := PruneLoop(f, limit);
      && Placed(f', config, id)
      && SameOrRestored(RefreshMemory(f, config, id), RefreshMemory(f', config, id), config)
      && (id !in f.inactive ==> RefreshMemory(f', config, id) == RefreshMemory(f, config, id))
    decreases |f.inactive|
  {
    var victim := Victim(f.inactive, f.order);
    if |f.inactive| > limit && victim.Some? {
      ForgetRoom(config, f, victim.value, id);
      Shrinks(f, victim.value);
      PruneRoom(config, Forget(f, victim.value), limit, id);
    }
  }

  lemma Shrinks(f: Refreshing, id: RoomId)
    requires id in f.inactive
    ensures |Forget(f, id).inactive| == |f.inactive| - 1
  {
  }

  /** Pruning stops with at most the limit left, or with nothing but backlogged rooms. */
  lemma {:induction false} PruneStops(f: Refreshing, limit: nat)
    requires Distinct(f.order)
    ensures var f' := PruneLoop(f, limit);
      && Distinct(f'.order) && f'.next == f.next && f'.rooms == f.rooms
      && (|f'.inactive| <= limit || forall id :: id in f'.inactive ==> f'.inactive[id].poller.HasPendingBacklog())
      && f'.inactive.Keys <= f.inactive.Keys && (f' == f || |f'.inactive| >= limit)
    decreases |f.inactive|
  {
    var victim := Victim(f.inactive, f.order);
    if |f.inactive| > limit {
      if victim.Some? {
        WithoutMembers(f.order, victim.value);
        Shrinks(f, victim.value);
        PruneStops(Forget(f, victim.value), limit);
      } else {
        assert forall id :: id in f.inactive ==> !Removable(f.inactive, id);
      }
    }
  }

  // ----- which rooms are forgotten first -----

  ghost predicate Precedes(order: seq<RoomId>, a: RoomId, b: RoomId) {
    exists i, j :: 0 <= i < j < |order| && order[i] == a && order[j] == b
  }

  lemma {:induction false} NotBeforeFirst(inactive: map<RoomId, RoomEntry>, order: seq<RoomId>, a: RoomId, b: RoomId)
    requires Distinct(order) && Precedes(order, a, b) && Removable(inactive, a)
    ensures FirstRemovable(inactive, order).Some? && FirstRemovable(inactive, order) != Some(b)
  {
    var i, j :| 0 <= i < j < |order| && order[i] == a && order[j] == b;
    if !Removable(inactive, order[0]) {
      assert order[1..][i - 1] == a && order[1..][j - 1] == b;
      NotBeforeFirst(inactive, order[1..], a, b);
    }
  }

  lemma {:induction false} WithoutPrecedes(order: seq<RoomId>, id: RoomId, a: RoomId, b: RoomId)
    requires Precedes(order, a, b) && id != a && id != b
    ensures Precedes(Without(order, id), a, b)
  {
    var init, last := order[..|order| - 1], order[|order| - 1];
    assert order == init + [last];
    var i, j :| 0 <= i < j < |order| && order[i] == a && order[j] == b;
    var rest := Without(init, id);
    if j < |init| {
      assert init[i] == a && init[j] == b;
      WithoutPrecedes(init, id, a, b);
      var k, l :| 0 <= k < l < |rest| && rest[k] == a && rest[l] == b;
      assert Without(order, id)[k] == a && Without(order, id)[l] == b;
    } else {
      assert init[i] == a;
      StaysIn(init, id, a);
      var k :| 0 <= k < |rest| && rest[k] == a;
      assert Without(order, id) == rest + [b];
      assert Without(order, id)[k] == a && Without(order, id)[|rest|] == b;
    }
  }

  lemma {:induction false} StaysIn(order: seq<RoomId>, id: RoomId, a: RoomId)
    requires a in order && a != id
    ensures a in Without(order, id)
  {
    var init, last := order[..|order| - 1], order[|order| - 1];
    assert order == init + [last];
    if a in init {
      StaysIn(init, id, a);
    }
  }

  /** Of two rooms without backlog the one queued earlier is forgotten first, and what stays keeps its order. */
  lemma {:induction false} PruneForgetsOldest(f: Refreshing, limit: nat, a: RoomId, b: RoomId)
    requires Distinct(f.order) && Precedes(f.order, a, b) && Removable(f.inactive, a) && b in f.inactive
    ensures var f' := PruneLoop(f, limit);
      && (b !in f'.inactive ==> a !in f'.inactive)
      && (a in f'.inactive ==> Precedes(f'.order, a, b))
    decreases |f.inactive|
  {
    var victim := Victim(f.inactive, f.order);
    if |f.inactive| > limit && victim.Some? {
      NotBeforeFirst(f.inactive, f.order, a, b);
      Shrinks(f, victim.value);
      WithoutMembers(f.order, victim.value);
      PruneStops(Forget(f, victim.value), limit);
      if victim.value != a {
        WithoutPrecedes(f.order, victim.value, a, b);
        PruneForgetsOldest(Forget(f, victim.value), limit, a, b);
      }
    }
  }

  lemma {:induction false} DiscoverKeepsOrder(config: PollingConfig, f: Refreshing, discovered: seq<Room>, a: RoomId, b: RoomId)
    requires Precedes(f.order, a, b) && Latest(discovered, a).None? && Latest(discovered, b).None?
    ensures Precedes(DiscoverAll(config, f, discovered).order, a, b)
  {
    if discovered != [] {
      var init, last := discovered[..|discovered| - 1], discovered[|discovered| - 1];
      DiscoverKeepsOrder(config, f, init, a, b);
      if last.id.Some? {
        WithoutPrecedes(DiscoverAll(config, f, init).order, last.id.value, a, b);
      }
    }
  }

  lemma {:induction false} DiscoverKeepsQueued(config: PollingConfig, f: Refreshing, discovered: seq<Room>, id: RoomId)
    requires Latest(discovered, id).None?
    ensures var f' := DiscoverAll(config, f, discovered);
      && (id in f.order ==> id in f'.order) && (id in f.rooms <==> id in f'.rooms) && (id in f.inactive <==> id in f'.inactive)
      && (id in f.inactive ==> f'.inactive[id] == f.inactive[id])
  {
    if discovered != [] {
      var init, last := discovered[..|discovered| - 1], discovered[|discovered| - 1];
      DiscoverKeepsQueued(config, f, init, id);
      if last.id.Some? && id in DiscoverAll(config, f, init).order {
        StaysIn(DiscoverAll(config, f, init).order, last.id.value, id);
      }
    }
  }

  /** Retired rooms go to the end of the queue. */
  lemma {:induction false} RetireQueuesLast(f: Refreshing, ids: seq<RoomId>, a: RoomId, b: RoomId)
    requires Distinct(ids) && a !in ids && a in f.order && a != b
    requires Precedes(f.order, a, b) || (b in ids && b in f.rooms)
    ensures Precedes(RetireAll(f, ids).order, a, b)
    decreases |ids|
  {
    if ids != [] {
      var id, f' := ids[0], Retire(f, ids[0]);
      StaysIn(f.order, id, a);
      if id == b && id in f.rooms {
        var rest := Without(f.order, b);
        var k :| 0 <= k < |rest| && rest[k] == a;
        assert f'.order[k] == a && f'.order[|rest|] == b;
      } else if Precedes(f.order, a, b) && id != b {
        WithoutPrecedes(f.order, id, a, b);
        var rest := Without(f.order, id);
        var k, l :| 0 <= k < l < |rest| && rest[k] == a && rest[l] == b;
        assert id in f.rooms ==> f'.order[k] == a && f'.order[l] == b;
      }
      assert Precedes(f'.order, a, b) || (b in ids[1..] && b in f'.rooms);
      RetireQueuesLast(f', ids[1..], a, b);
    }
  }

  // ----- the whole refresh -----

  /** The stages of a refresh, up to pruning. */
  ghost function BeforePruning(s: MultiState, discovered: seq<Room>): Refreshing {
    var found := DiscoverAll(s.config.roomPolling, StartRefresh(s), discovered);
    RetireAll(found, TextOrder.InOrder(found.rooms.Keys))
  }

  lemma BeforePruningRoom(s: MultiState, discovered: seq<Room>, id: RoomId)
    requires MultiInv(s)
    ensures var f := BeforePruning(s, discovered); var config := s.config.roomPolling;
      && Placed(f, config, id) && id !in f.rooms
      && RefreshMemory(f, config, id) == Memory(s, id)
      && (id in f.next <==> Latest(discovered, id).Some?)
      && (id in f.next ==> f.next[id].room == Latest(discovered, id).value)
  {
    RoomByRoom(s);
    var config := s.config.roomPolling;
    var f0 := StartRefresh(s);
    assert Placed(f0, config, id);
    DiscoverAllRoom(config, f0, discovered, id);
    var f1 := DiscoverAll(config, f0, discovered);
    TextOrder.InOrderLists(f1.rooms.Keys);
    RetireAllRoom(config, f1, TextOrder.InOrder(f1.rooms.Keys), id);
  }

  /** After the other stages the queue holds inactive rooms only, so nothing is dropped from it. */
  lemma QueueBeforePruning(s: MultiState, discovered: seq<Room>)
    requires MultiInv(s)
    ensures var f := BeforePruning(s, discovered);
      Distinct(f.order) && Prune(f, s.config.maxInactiveRooms) == PruneLoop(f, AtLeastOne(s.config.maxInactiveRooms))
  {
    var config := s.config.roomPolling;
    DiscoverAllQueue(config, StartRefresh(s), discovered);
    var f1 := DiscoverAll(config, StartRefresh(s), discovered);
    RetireAllQueue(f1, TextOrder.InOrder(f1.rooms.Keys));
    var f := BeforePruning(s, discovered);
    forall id | id in f.order ensures id in f.inactive {
      BeforePruningRoom(s, discovered, id);
    }
    KeptIsSame(f.order, f.inactive);
  }

  /** One room through a refresh: it is active afterwards exactly when it was discovered, under its
      latest listing, and it is remembered. */
  lemma RefreshRoom(s: MultiState, discovered: seq<Room>, id: RoomId)
    requires MultiInv(s)
    ensures var s' := Refresh(s, discovered);
      && Placed(StartRefresh(s'), s.config.roomPolling, id)
      && (id in s'.rooms <==> Latest(discovered, id).Some?)
      && (id in s'.rooms ==> s'.rooms[id].room == Latest(discovered, id).value)
      && SameOrRestored(Memory(s, id), Memory(s', id), s.config.roomPolling)
  {
    BeforePruningRoom(s, discovered, id);
    QueueBeforePruning(s, discovered);
    var f := BeforePruning(s, discovered);
    PruneRoom(s.config.roomPolling, f, AtLeastOne(s.config.maxInactiveRooms), id);
    PruneStops(f, AtLeastOne(s.config.maxInactiveRooms));
    var f' := PruneLoop(f, AtLeastOne(s.config.maxInactiveRooms));
    assert Memory(Refresh(s, discovered), id) == RefreshMemory(f', s.config.roomPolling, id);
  }

  /** A refresh keeps the maps disjoint and the queue a permutation; the discovered rooms are the
      active ones, under their latest listing; every room is remembered; and at most the limit of
      inactive rooms is left, unless all of them still have backlog. */
  lemma RefreshRemembers(s: MultiState, discovered: seq<Room>)
    requires MultiInv(s)
    ensures var s' := Refresh(s, discovered);
      && MultiInv(s') && s'.config == s.config && s'.roomsInitialized
      && (forall id :: id in s'.rooms <==> Latest(discovered, id).Some?)
      && (forall id :: id in s'.rooms ==> s'.rooms[id].room == Latest(discovered, id).value)
      && (forall id :: SameOrRestored(Memory(s, id), Memory(s', id), s.config.roomPolling))
      && (|s'.inactive| <= AtLeastOne(s.config.maxInactiveRooms)
          || forall id :: id in s'.inactive ==> s'.inactive[id].poller.HasPendingBacklog())
  {
    var s' := Refresh(s, discovered);
    forall id
      ensures Placed(StartRefresh(s'), s.config.roomPolling, id)
      ensures id in s'.rooms <==> Latest(discovered, id).Some?
      ensures id in s'.rooms ==> s'.rooms[id].room == Latest(discovered, id).value
      ensures SameOrRestored(Memory(s, id), Memory(s', id), s.config.roomPolling)
    {
      RefreshRoom(s, discovered, id);
    }
    QueueBeforePruning(s, discovered);
    PruneStops(BeforePruning(s, discovered), AtLeastOne(s.config.maxInactiveRooms));
    RoomByRoom(s');
  }

  /** In particular no room with backlog is ever dropped or changed by a refresh. */
  lemma RefreshKeepsBacklog(s: MultiState, discovered: seq<Room>, id: RoomId)
    requires MultiInv(s) && Memory(s, id).HasPendingBacklog()
    ensures var s' := Refresh(s, discovered);
      && (id in s'.rooms || id in s'.inactive)
      && Memory(s', id) == Memory(s, id)
  {
    var s' := Refresh(s, discovered);
    RefreshRemembers(s, discovered);
    assert SameOrRestored(Memory(s, id), Memory(s', id), s.config.roomPolling);
    FromCheckpointOk(s.config.roomPolling, SavedFor(s'.checkpoints, id));
  }

  /** The room is known, and was not listed again. */
  ghost predicate Disappeared(s: MultiState, discovered: seq<Room>, id: RoomId) {
    (id in s.rooms || id in s.inactive) && Latest(discovered, id).None?
  }

  lemma {:induction false} RetireKeepsKnown(f: Refreshing, ids: seq<RoomId>, id: RoomId)
    requires id in f.inactive || (id in f.rooms && id in ids)
    requires id in f.inactive ==> id !in f.rooms
    ensures var f' := RetireAll(f, ids);
      id in f'.inactive && f'.inactive[id] == if id in f.inactive then f.inactive[id] else f.rooms[id]
    decreases |ids|
  {
    if ids != [] {
      RetireKeepsKnown(Retire(f, ids[0]), ids[1..], id);
    }
  }

  lemma DisappearedIsInactive(s: MultiState, discovered: seq<Room>, id: RoomId)
    requires MultiInv(s) && Disappeared(s, discovered, id)
    ensures var f := BeforePruning(s, discovered);
      id in f.inactive && f.inactive[id].poller == Memory(s, id)
  {
    var config := s.config.roomPolling;
    var found := DiscoverAll(config, StartRefresh(s), discovered);
    DiscoverKeepsQueued(config, StartRefresh(s), discovered, id);
    TextOrder.InOrderLists(found.rooms.Keys);
    RetireKeepsKnown(found, TextOrder.InOrder(found.rooms.Keys), id);
    BeforePruningRoom(s, discovered, id);
  }

  lemma QueueOrderBeforePruning(s: MultiState, discovered: seq<Room>, a: RoomId, b: RoomId)
    requires MultiInv(s) && Disappeared(s, discovered, a) && Disappeared(s, discovered, b) && a != b
    requires a in s.inactive && (b in s.rooms || Precedes(s.inactiveOrder, a, b))
    ensures Precedes(BeforePruning(s, discovered).order, a, b)
  {
    var config := s.config.roomPolling;
    var found := DiscoverAll(config, StartRefresh(s), discovered);
    assert a in s.inactiveOrder;
    DiscoverKeepsQueued(config, StartRefresh(s), discovered, a);
    DiscoverKeepsQueued(config, StartRefresh(s), discovered, b);
    if Precedes(s.inactiveOrder, a, b) {
      DiscoverKeepsOrder(config, StartRefresh(s), discovered, a, b);
    }
    TextOrder.InOrderLists(found.rooms.Keys);
    RetireQueuesLast(found, TextOrder.InOrder(found.rooms.Keys), a, b);
  }

  /** Of two rooms that are not listed, the one that was retired earlier, if it has no backlog, is forgotten
      first; rooms that were active until now are retired last. */
  lemma OldestForgottenFirst(s: MultiState, discovered: seq<Room>, a: RoomId, b: RoomId)
    requires MultiInv(s) && Disappeared(s, discovered, a) && Disappeared(s, discovered, b) && a != b
    requires a in s.inactive && (b in s.rooms || Precedes(s.inactiveOrder, a, b)) && !Memory(s, a).HasPendingBacklog()
    ensures var s' := Refresh(s, discovered);
      && (b !in s'.inactive ==> a !in s'.inactive)
      && (a in s'.inactive ==> Precedes(s'.inactiveOrder, a, b))
  {
    DisappearedIsInactive(s, discovered, a);
    DisappearedIsInactive(s, discovered, b);
    QueueOrderBeforePruning(s, discovered, a, b);
    QueueBeforePruning(s, discovered);
    PruneForgetsOldest(BeforePruning(s, discovered), AtLeastOne(s.config.maxInactiveRooms), a, b);
  }

  /** A room that is not listed is forgotten only if as many inactive rooms are left as the limit allows. */
  lemma ForgottenOnlyOverLimit(s: MultiState, discovered: seq<Room>, id: RoomId)
    requires MultiInv(s) && Disappeared(s, discovered, id) && id !in Refresh(s, discovered).inactive
    ensures |Refresh(s, discovered).inactive| >= AtLeastOne(s.config.maxInactiveRooms)
  {
    DisappearedIsInactive(s, discovered, id);
    QueueBeforePruning(s, discovered);
    PruneStops(BeforePruning(s, discovered), AtLeastOne(s.config.maxInactiveRooms));
  }

  // ----- configuration and seeding keep the invariant -----

  lemma SetConfigOk(p: PollerState, previous: PollingConfig, config: PollingConfig)
    requires PollerOk(p, previous)
    ensures PollerOk(SetConfig(p, config), config)
  {
    if p.seed.Some? {
      RememberKeepsWindow([], p.seed.value, config.maxSeenIds);
    }
  }

  lemma WithConfigKeeps(s: MultiState, config: MultiConfig)
    requires MultiInv(s)
    ensures MultiInv(WithConfig(s, config))
  {
    forall id | id in s.rooms { SetConfigOk(s.rooms[id].poller, s.config.roomPolling, config.roomPolling); }
    forall id | id in s.inactive { SetConfigOk(s.inactive[id].poller, s.config.roomPolling, config.roomPolling); }
    assert WithConfig(s, config).rooms.Keys == s.rooms.Keys;
    assert WithConfig(s, config).inactive.Keys == s.inactive.Keys;
  }

  lemma ReplaceCheckpointOk(p: PollerState, ids: seq<MessageId>, initializeEmpty: bool)
    ensures PollerOk(ReplaceCheckpoint(p, ids, initializeEmpty), p.config)
  {
    RememberKeepsWindow([], ids, p.config.maxSeenIds);
  }

  lemma WithRoomCheckpointsKeeps(s: MultiState, seeds: map<RoomId, SavedSeed>)
    requires MultiInv(s)
    ensures MultiInv(WithRoomCheckpoints(s, seeds))
  {
    forall id | id in s.rooms + s.inactive && id in seeds {
      ReplaceCheckpointOk((s.rooms + s.inactive)[id].poller, seeds[id].0, seeds[id].1);
    }
    var s' := WithRoomCheckpoints(s, seeds);
    assert s'.rooms.Keys == s.rooms.Keys && s'.inactive.Keys == s.inactive.Keys;
  }

  /** Seeding a room makes it what a new poller with that checkpoint is, whether it is active, inactive or not
      known yet; a known room without a seed stays as it is, and earlier seeds of unknown rooms are dropped. */
  lemma SeededMemory(s: MultiState, seeds: map<RoomId, SavedSeed>, id: RoomId)
    requires MultiInv(s)
    ensures var s' := WithRoomCheckpoints(s, seeds);
      && s'.rooms.Keys == s.rooms.Keys && s'.inactive.Keys == s.inactive.Keys
      && Memory(s', id) == if id in seeds then FromCheckpoint(s.config.roomPolling, Some(seeds[id]))
                           else if id in s.rooms || id in s.inactive then Memory(s, id)
                           else NewPoller(s.config.roomPolling)
  {
  }
}
