// End to end with crashes and failed saves: if a batch's messages are handled before its checkpoints are
// saved, then from a room's first durable checkpoint on no message is skipped, and no message covered by a
// durable checkpoint is emitted again, even if the process stops between any two steps.

module Durable {
  import opened Wrappers
  import opened SeenWindow
  import opened PollerModel
  import opened RoomDelivery
  import opened MultiRoomModel
  import opened Sorting
  import opened RoomMemory
  import opened BatchOrder
  import opened BatchDelivery
  import StateLog
  import RoomRuns

  /** One room of the running service: its log, how far it has been listed, the poller, the durable
      checkpoints of the state log, and the room's messages handled so far, across restarts. */
  datatype Service = Service(
    log: seq<Message>,
    listed: nat,
    multi: MultiState,
    durable: map<RoomId, RoomCheckpoint>,
    handled: seq<Message>)

  datatype Happening =
    | Refreshed(discovered: seq<Room>)
    // A batch of which the first `handled` events are handled and, once all are, the first `saved`
    // checkpoints are written.  The service may restart then, with `restart`; it goes on polling only if
    // all events are handled, whether or not every checkpoint was saved.
    | Batched(outcomes: RoomId -> RoomOutcome, order: seq<RoomId>, refreshErrors: seq<MultiRoomModel.Event>,
              handled: nat, saved: nat, restart: Option<MultiConfig>)
    | Reconfigured(config: MultiConfig)
    | Restarted(rebuilt: MultiConfig)

  function Seeds(durable: map<RoomId, RoomCheckpoint>): map<RoomId, SavedSeed> {
    map id | id in durable :: (durable[id].seenMessageIds, durable[id].initializeEmpty)
  }

  /** A poller built anew from the durable checkpoints. */
  function Rebuild(config: MultiConfig, durable: map<RoomId, RoomCheckpoint>): MultiState {
    WithRoomCheckpoints(NewMulti(config), Seeds(durable))
  }

  ghost predicate Happens(s: Service, h: Happening, s': Service, id: RoomId) {
    && s.log <= s'.log && ValidLog(s'.log)
    && match h
       case Refreshed(discovered) =>
         && s'.listed == s.listed && s'.multi == Refresh(s.multi, discovered)
         && s'.durable == s.durable && s'.handled == s.handled
       case Batched(outcomes, order, refreshErrors, handled, saved, restart) =>
         && OrderOf(s.multi.rooms, order) && KnownRooms(s.multi.rooms, order)
         && (forall e :: e in refreshErrors ==> !e.Delivered?)
         && (if id in s.multi.rooms
             then OutcomeServed(s'.log, s.multi.rooms[id].poller, s.listed, s'.listed, outcomes(id))
             else s'.listed == s.listed)
         && var (multi, poll) := PollBatch(s.multi, outcomes, order, refreshErrors);
            && handled <= |poll.events| && saved <= |poll.checkpoints|
            && (saved > 0 ==> handled == |poll.events|)
            && s'.handled == s.handled + RoomShare(poll.events[..handled], id)
            && s'.durable == StateLog.SaveAll(s.durable, poll.checkpoints[..saved])
            && (restart.None? ==> handled == |poll.events|)
            && s'.multi == if restart.None? then multi else Rebuild(restart.value, s'.durable)
       case Reconfigured(config) =>
         && s'.listed == s.listed && s'.multi == WithConfig(s.multi, config)
         && s'.durable == s.durable && s'.handled == s.handled
       case Restarted(restart) =>
         && s'.listed == s.listed && s'.multi == Rebuild(restart, s.durable)
         && s'.durable == s.durable && s'.handled == s.handled
  }

  /** The checkpoint stands for position `at` of the room's log. */
  ghost predicate CheckpointAt(log: seq<Message>, c: RoomCheckpoint, id: RoomId, at: nat)
    requires ValidLog(log) && at <= |log|
  {
    && c.roomId == id && c.initializeEmpty == (c.seenMessageIds == [])
    && c.seenMessageIds <= NewestIds(log, 0, at)
    && (c.seenMessageIds == [] <==> at == 0)
  }

  /** `m` are the poller's marks, `durableAt` the position of the durable checkpoint, and `first` that
      of the first one. */
  datatype Track = Track(m: Marks, durableAt: Option<nat>, first: nat)

  /** Everything from the first durable checkpoint to the committed boundary has been handled, and the
      poller is never behind the durable checkpoint. */
  ghost predicate Covered(log: seq<Message>, handled: seq<Message>, p: PollerState, durable: map<RoomId, RoomCheckpoint>,
                          id: RoomId, t: Track)
    requires ValidLog(log) && t.m.end <= |log|
  {
    && (t.durableAt.Some? <==> id in durable)
    && (t.durableAt.Some? ==>
          && t.first <= t.durableAt.value <= t.m.end
          && p.initialized
          && CheckpointAt(log, durable[id], id, t.durableAt.value)
          && forall k :: t.first <= k < t.m.end ==> log[k] in handled)
  }

  ghost predicate ServiceInv(s: Service, id: RoomId, t: Track) {
    && MultiInv(s.multi)
    && RoomInv(s.log, s.listed, Memory(s.multi, id), t.m)
    && Covered(s.log, s.handled, Memory(s.multi, id), s.durable, id, t)
  }

  lemma Grows(log: seq<Message>, log': seq<Message>, listed: nat, handled: seq<Message>, p: PollerState,
              durable: map<RoomId, RoomCheckpoint>, id: RoomId, t: Track)
    requires RoomInv(log, listed, p, t.m) && Covered(log, handled, p, durable, id, t)
    requires log <= log' && ValidLog(log')
    ensures RoomInv(log', listed, p, t.m) && Covered(log', handled, p, durable, id, t)
  {
  }

  // ----- restarting -----

  lemma RebuildMemory(config: MultiConfig, durable: map<RoomId, RoomCheckpoint>, id: RoomId)
    ensures MultiInv(Rebuild(config, durable))
    ensures Memory(Rebuild(config, durable), id) == FromCheckpoint(config.roomPolling,
              if id in durable then Some((durable[id].seenMessageIds, durable[id].initializeEmpty)) else None)
  {
  }

  /** Everything from the first durable checkpoint to the current one has been handled. */
  ghost predicate DurableOk(log: seq<Message>, handled: seq<Message>, durable: map<RoomId, RoomCheckpoint>, id: RoomId,
                            durableAt: Option<nat>, first: nat)
    requires ValidLog(log)
  {
    && (durableAt.Some? <==> id in durable)
    && (durableAt.Some? ==>
          && first <= durableAt.value <= |log|
          && CheckpointAt(log, durable[id], id, durableAt.value)
          && forall k :: first <= k < durableAt.value ==> log[k] in handled)
  }

  /** A restart resumes exactly at the durable checkpoint. */
  lemma RestartAt(log: seq<Message>, listed: nat, handled: seq<Message>, durable: map<RoomId, RoomCheckpoint>, id: RoomId,
                  durableAt: Option<nat>, first: nat, config: MultiConfig)
    returns (t: Track)
    requires ValidLog(log) && listed <= |log| && (durableAt.Some? ==> durableAt.value <= listed)
    requires DurableOk(log, handled, durable, id, durableAt, first)
    ensures var p := Memory(Rebuild(config, durable), id);
      RoomInv(log, listed, p, t.m) && Covered(log, handled, p, durable, id, t)
    ensures t.durableAt == durableAt && t.first == first
    ensures durableAt.Some? ==> t.m.end == durableAt.value
  {
    RebuildMemory(config, durable, id);
    if durableAt.Some? {
      var at := durableAt.value;
      t := Track(Marks(at, at, at), durableAt, first);
      RoomRuns.SeededPoller(log, listed, config.roomPolling, durable[id].seenMessageIds, at);
    } else {
      t := Track(Marks(0, 0, 0), durableAt, first);
      RoomRuns.FreshPoller(log, listed, config.roomPolling);
    }
  }

  // ----- saving -----

  lemma {:induction false} SaveAllOf(durable: map<RoomId, RoomCheckpoint>, saved: seq<RoomCheckpoint>, id: RoomId)
    ensures var d := StateLog.SaveAll(durable, saved);
      && (id in d <==> id in durable || exists c :: c in saved && c.roomId == id)
      && (id in d ==> (d[id] in saved && d[id].roomId == id) || (id in durable && d[id] == durable[id]))
      && ((exists c :: c in saved && c.roomId == id) ==> d[id] in saved && d[id].roomId == id)
  {
    if saved != [] {
      var init, last := saved[..|saved| - 1], saved[|saved| - 1];
      assert saved == init + [last];
      SaveAllOf(durable, init, id);
    }
  }

  /** The only checkpoint a batch returns for a room stands for the room's new boundary. */
  lemma BatchCheckpointAt(s: MultiState, outcomes: RoomId -> RoomOutcome, order: seq<RoomId>,
                          refreshErrors: seq<MultiRoomModel.Event>, id: RoomId, c: RoomCheckpoint, log: seq<Message>,
                          listed: nat, m: Marks)
    requires OrderOf(s.rooms, order) && KnownRooms(s.rooms, order)
    requires c in PollBatch(s, outcomes, order, refreshErrors).1.checkpoints && c.roomId == id
    requires RoomInv(log, listed, Memory(PollBatch(s, outcomes, order, refreshErrors).0, id), m)
    ensures CheckpointAt(log, c, id, m.end)
    ensures Memory(PollBatch(s, outcomes, order, refreshErrors).0, id).initialized
  {
    var hold := Finished(s.rooms, outcomes, order).hasPendingBacklog;
    var collected := ApplyFinished(s.rooms, outcomes, hold, order).checkpoints;
    SameElements(collected, SortBy(CheckpointBefore, collected));
    assert c in Elements(collected);
    AppliedCheckpoints(s.rooms, outcomes, hold, order);
    BatchMemory(s, outcomes, order, refreshErrors, id);
    if outcomes(id).Answers? {
      TransactionShape(s.rooms[id].poller, outcomes(id).responses);
    }
  }

  /** The checkpoint map after saving some of a batch's checkpoints, for one room. */
  lemma SavedPrefix(s: MultiState, outcomes: RoomId -> RoomOutcome, order: seq<RoomId>,
                    refreshErrors: seq<MultiRoomModel.Event>, id: RoomId, durable: map<RoomId, RoomCheckpoint>,
                    saved: nat, log: seq<Message>, listed: nat, m: Marks)
    requires OrderOf(s.rooms, order) && KnownRooms(s.rooms, order)
    requires saved <= |PollBatch(s, outcomes, order, refreshErrors).1.checkpoints|
    requires RoomInv(log, listed, Memory(PollBatch(s, outcomes, order, refreshErrors).0, id), m)
    ensures var (multi, poll) := PollBatch(s, outcomes, order, refreshErrors);
      var durable' := StateLog.SaveAll(durable, poll.checkpoints[..saved]);
      || ((id in durable' <==> id in durable) && (id in durable ==> durable'[id] == durable[id]))
      || (id in durable' && CheckpointAt(log, durable'[id], id, m.end) && Memory(multi, id).initialized)
  {
    var poll := PollBatch(s, outcomes, order, refreshErrors).1;
    SaveAllOf(durable, poll.checkpoints[..saved], id);
    if c :| c in poll.checkpoints[..saved] && c.roomId == id {
      var d := StateLog.SaveAll(durable, poll.checkpoints[..saved])[id];
      assert d in poll.checkpoints;
      BatchCheckpointAt(s, outcomes, order, refreshErrors, id, d, log, listed, m);
    }
  }

  // ----- one batch -----

  /** One room's part in a batch, whether it is active or not. */
  lemma RoomPart(s: MultiState, outcomes: RoomId -> RoomOutcome, order: seq<RoomId>,
                 refreshErrors: seq<MultiRoomModel.Event>, id: RoomId, log: seq<Message>, listed: nat, listed': nat, m: Marks)
    returns (m': Marks)
    requires OrderOf(s.rooms, order) && KnownRooms(s.rooms, order)
    requires forall e :: e in refreshErrors ==> !e.Delivered?
    requires RoomInv(log, listed, Memory(s, id), m)
    requires if id in s.rooms then OutcomeServed(log, s.rooms[id].poller, listed, listed', outcomes(id))
             else listed' == listed
    ensures var (multi, poll) := PollBatch(s, outcomes, order, refreshErrors);
      && listed <= listed' <= |log|
      && RoomInv(log, listed', Memory(multi, id), m')
      && Emits(log, Memory(s, id), RoomShare(poll.events, id), m, m')
      && (Memory(s, id).initialized ==> Memory(multi, id).initialized)
  {
    if id in s.rooms {
      m' := ActiveRoom(s, outcomes, order, refreshErrors, id, log, listed, listed', m);
      ListedGrows(log, s.rooms[id].poller, listed, listed', outcomes(id), m);
    } else {
      BatchMemory(s, outcomes, order, refreshErrors, id);
      ShareOfBatch(s, outcomes, order, refreshErrors, id);
      m' := m;
    }
  }

  lemma ListedGrows(log: seq<Message>, p: PollerState, listed: nat, listed': nat, outcome: RoomOutcome, m: Marks)
    requires RoomInv(log, listed, p, m) && OutcomeServed(log, p, listed, listed', outcome)
    ensures listed <= listed' <= |log|
  {
  }

  lemma InStretch(log: seq<Message>, share: seq<Message>, low: nat, high: nat)
    requires low <= high <= |log| && IsStretch(log, share, low, high)
    ensures forall x :: x in share <==> x in log[low..high]
    ensures forall k :: low <= k < high ==> log[k] in share
  {
    assert forall x :: x in share <==> x in multiset(share);
    forall k | low <= k < high ensures log[k] in share {
      assert log[k] == log[low..high][k - low];
      assert log[k] in multiset(log[low..high]);
    }
  }

  /** Handling a room's share extends what has been handled up to the new boundary. */
  lemma HandledExtends(log: seq<Message>, handled: seq<Message>, p: PollerState, p': PollerState,
                       durable: map<RoomId, RoomCheckpoint>, id: RoomId, t: Track, share: seq<Message>, m': Marks)
    requires ValidLog(log) && t.m.end <= |log| && Covered(log, handled, p, durable, id, t)
    requires Emits(log, p, share, t.m, m') && (p.initialized ==> p'.initialized)
    ensures Covered(log, handled + share, p', durable, id, Track(m', t.durableAt, t.first))
  {
    if t.durableAt.Some? {
      if IsStretch(log, share, t.m.end, m'.end) {
        InStretch(log, share, t.m.end, m'.end);
      }
      forall k | t.first <= k < m'.end ensures log[k] in handled + share {
        if k < t.m.end { assert log[k] in handled; }
      }
    }
  }

  /** No message of a share is covered by the durable checkpoint. */
  lemma ShareIsNew(log: seq<Message>, p: PollerState, share: seq<Message>, m: Marks, m': Marks, at: nat)
    requires ValidLog(log) && Emits(log, p, share, m, m') && p.initialized && at <= m.end
    ensures forall x :: x in share ==> x !in log[..at]
  {
    InStretch(log, share, m.end, m'.end);
  }

  /** The durable checkpoint only moves on, and the first one keeps its place. */
  ghost predicate Later(t: Track, t': Track) {
    t.durableAt.Some? ==> t'.durableAt.Some? && t.durableAt.value <= t'.durableAt.value && t'.first == t.first
  }

  lemma Keep(log: seq<Message>, handled: seq<Message>, p: PollerState, durable: map<RoomId, RoomCheckpoint>, id: RoomId, t: Track)
    requires ValidLog(log) && t.m.end <= |log| && Covered(log, handled, p, durable, id, t)
    ensures DurableOk(log, handled, durable, id, t.durableAt, t.first)
  {
  }

  /** Where a room stands once its share is handled and some checkpoints are saved. */
  lemma AfterSaving(log: seq<Message>, handled: seq<Message>, p: PollerState, durable: map<RoomId, RoomCheckpoint>,
                    durable': map<RoomId, RoomCheckpoint>, id: RoomId, t: Track)
    returns (t': Track)
    requires ValidLog(log) && t.m.end <= |log| && Covered(log, handled, p, durable, id, t)
    requires || ((id in durable' <==> id in durable) && (id in durable ==> durable'[id] == durable[id]))
             || (id in durable' && CheckpointAt(log, durable'[id], id, t.m.end) && p.initialized)
    ensures t'.m == t.m && Later(t, t')
    ensures Covered(log, handled, p, durable', id, t')
  {
    if id in durable' && CheckpointAt(log, durable'[id], id, t.m.end) && p.initialized {
      t' := Track(t.m, Some(t.m.end), if t.durableAt.Some? then t.first else t.m.end);
    } else {
      t' := t;
    }
  }

  /** A batch of which everything is handled. */
  lemma HandledBatch(s: Service, outcomes: RoomId -> RoomOutcome, order: seq<RoomId>,
                     refreshErrors: seq<MultiRoomModel.Event>, handled: nat, saved: nat, restart: Option<MultiConfig>,
                     s': Service, id: RoomId, t: Track, m': Marks)
    returns (t': Track)
    requires Happens(s, Batched(outcomes, order, refreshErrors, handled, saved, restart), s', id)
    requires handled == |PollBatch(s.multi, outcomes, order, refreshErrors).1.events|
    requires t.m.end <= |s'.log|
    requires Covered(s'.log, s.handled, Memory(s.multi, id), s.durable, id, t)
    requires var (multi, poll) := PollBatch(s.multi, outcomes, order, refreshErrors);
      && MultiInv(multi)
      && RoomInv(s'.log, s'.listed, Memory(multi, id), m')
      && Emits(s'.log, Memory(s.multi, id), RoomShare(poll.events, id), t.m, m')
      && (Memory(s.multi, id).initialized ==> Memory(multi, id).initialized)
    ensures ServiceInv(s', id, t') && Later(t, t')
  {
    var (multi, poll) := PollBatch(s.multi, outcomes, order, refreshErrors);
    assert poll.events[..handled] == poll.events;
    var share := RoomShare(poll.events, id);
    HandledExtends(s'.log, s.handled, Memory(s.multi, id), Memory(multi, id), s.durable, id, t, share, m');
    SavedPrefix(s.multi, outcomes, order, refreshErrors, id, s.durable, saved, s'.log, s'.listed, m');
    t' := AfterSaving(s'.log, s'.handled, Memory(multi, id), s.durable, s'.durable, id,
                      Track(m', t.durableAt, t.first));
    if restart.Some? {
      Keep(s'.log, s'.handled, Memory(multi, id), s'.durable, id, t');
      RebuildMemory(restart.value, s'.durable, id);
      t' := RestartAt(s'.log, s'.listed, s'.handled, s'.durable, id, t'.durableAt, t'.first, restart.value);
    }
  }

  lemma BatchHappens(s: Service, outcomes: RoomId -> RoomOutcome, order: seq<RoomId>,
                     refreshErrors: seq<MultiRoomModel.Event>, handled: nat, saved: nat, restart: Option<MultiConfig>,
                     s': Service, id: RoomId, t: Track)
    returns (t': Track)
    requires ServiceInv(s, id, t)
    requires Happens(s, Batched(outcomes, order, refreshErrors, handled, saved, restart), s', id)
    ensures ServiceInv(s', id, t') && Later(t, t')
    ensures t.durableAt.Some? ==>
      forall x :: x in RoomShare(PollBatch(s.multi, outcomes, order, refreshErrors).1.events, id) ==>
        x !in s'.log[..t.durableAt.value]
  {
    Grows(s.log, s'.log, s.listed, s.handled, Memory(s.multi, id), s.durable, id, t);
    BatchKeepsInv(s.multi, outcomes, order, refreshErrors);
    var m' := RoomPart(s.multi, outcomes, order, refreshErrors, id, s'.log, s.listed, s'.listed, t.m);
    var poll := PollBatch(s.multi, outcomes, order, refreshErrors).1;
    if t.durableAt.Some? {
      ShareIsNew(s'.log, Memory(s.multi, id), RoomShare(poll.events, id), t.m, m', t.durableAt.value);
    }
    if handled == |poll.events| {
      t' := HandledBatch(s, outcomes, order, refreshErrors, handled, saved, restart, s', id, t, m');
    } else {
      assert poll.checkpoints[..0] == [];
      Keep(s'.log, s.handled, Memory(s.multi, id), s.durable, id, t);
      RebuildMemory(restart.value, s'.durable, id);
      t' := RestartAt(s'.log, s'.listed, s'.handled, s'.durable, id, t.durableAt, t.first, restart.value);
    }
  }

  lemma RefreshHappens(s: Service, discovered: seq<Room>, s': Service, id: RoomId, t: Track)
    requires ServiceInv(s, id, t) && Happens(s, Refreshed(discovered), s', id)
    ensures ServiceInv(s', id, t)
  {
    Grows(s.log, s'.log, s.listed, s.handled, Memory(s.multi, id), s.durable, id, t);
    RefreshRemembers(s.multi, discovered);
    MemoryOk(s.multi, id);
    SameOrRestoredDelivers(s'.log, s.listed, Memory(s.multi, id), Memory(s'.multi, id), t.m,
                           s.multi.config.roomPolling);
  }

  lemma ReconfigureHappens(s: Service, config: MultiConfig, s': Service, id: RoomId, t: Track)
    requires ServiceInv(s, id, t) && Happens(s, Reconfigured(config), s', id)
    ensures ServiceInv(s', id, t)
  {
    Grows(s.log, s'.log, s.listed, s.handled, Memory(s.multi, id), s.durable, id, t);
    WithConfigKeeps(s.multi, config);
    WithConfigMemory(s.multi, config, id);
    RoomRuns.SetConfigKeeps(s'.log, s.listed, Memory(s.multi, id), t.m, config.roomPolling);
  }

  lemma RestartHappens(s: Service, restart: MultiConfig, s': Service, id: RoomId, t: Track) returns (t': Track)
    requires ServiceInv(s, id, t) && Happens(s, Restarted(restart), s', id)
    ensures ServiceInv(s', id, t') && Later(t, t')
  {
    Grows(s.log, s'.log, s.listed, s.handled, Memory(s.multi, id), s.durable, id, t);
    Keep(s'.log, s.handled, Memory(s.multi, id), s.durable, id, t);
    RebuildMemory(restart, s'.durable, id);
    t' := RestartAt(s'.log, s'.listed, s'.handled, s'.durable, id, t.durableAt, t.first, restart);
  }

  // ----- lives of the service -----

  ghost predicate Life(run: seq<Service>, happenings: seq<Happening>, id: RoomId) {
    && |run| == |happenings| + 1
    && forall i {:trigger happenings[i]} :: 0 <= i < |happenings| ==> Happens(run[i], happenings[i], run[i + 1], id)
  }

  lemma AnyHappens(s: Service, h: Happening, s': Service, id: RoomId, t: Track) returns (t': Track)
    requires ServiceInv(s, id, t) && Happens(s, h, s', id)
    ensures ServiceInv(s', id, t') && Later(t, t')
  {
    match h {
      case Refreshed(discovered) =>
        RefreshHappens(s, discovered, s', id, t);
        t' := t;
      case Batched(outcomes, order, refreshErrors, handled, saved, restart) =>
        t' := BatchHappens(s, outcomes, order, refreshErrors, handled, saved, restart, s', id, t);
      case Reconfigured(config) =>
        ReconfigureHappens(s, config, s', id, t);
        t' := t;
      case Restarted(restart) =>
        t' := RestartHappens(s, restart, s', id, t);
    }
  }

  /** In every life of the service, with crashes and failed saves anywhere, a room's invariant holds again: everything
      from the first durable checkpoint to the committed boundary has been handled, and the poller is
      never behind the durable checkpoint, which only moves on. */
  lemma {:induction false} NothingIsSkipped(run: seq<Service>, happenings: seq<Happening>, id: RoomId, t: Track, n: nat)
    returns (t': Track)
    requires Life(run, happenings, id) && n < |run| && ServiceInv(run[0], id, t)
    ensures ServiceInv(run[n], id, t') && Later(t, t')
    decreases n
  {
    t' := t;
    if n > 0 {
      t' := NothingIsSkipped(run, happenings, id, t, n - 1);
      t' := AnyHappens(run[n - 1], happenings[n - 1], run[n], id, t');
    }
  }

  lemma CheckpointAtIsUnique(log: seq<Message>, c: RoomCheckpoint, id: RoomId, at: nat, at': nat)
    requires ValidLog(log) && at <= |log| && at' <= |log|
    requires CheckpointAt(log, c, id, at) && CheckpointAt(log, c, id, at')
    ensures at == at'
  {
    if c.seenMessageIds != [] {
      assert c.seenMessageIds[0] == NewestIds(log, 0, at)[0] == NewestIds(log, 0, at')[0];
    }
  }

  lemma DurablePosition(s: Service, id: RoomId, t: Track, at: nat)
    requires ServiceInv(s, id, t) && id in s.durable && at <= |s.log| && CheckpointAt(s.log, s.durable[id], id, at)
    ensures t.durableAt == Some(at)
  {
    CheckpointAtIsUnique(s.log, s.durable[id], id, at, t.durableAt.value);
  }

  lemma BatchEmitsNew(s: Service, outcomes: RoomId -> RoomOutcome, order: seq<RoomId>,
                      refreshErrors: seq<MultiRoomModel.Event>, handled: nat, saved: nat, restart: Option<MultiConfig>,
                      s': Service, id: RoomId, t: Track, at: nat)
    requires ServiceInv(s, id, t) && t.durableAt == Some(at)
    requires Happens(s, Batched(outcomes, order, refreshErrors, handled, saved, restart), s', id)
    ensures at <= |s.log|
    ensures forall x :: x in RoomShare(PollBatch(s.multi, outcomes, order, refreshErrors).1.events, id) ==>
      x !in s.log[..at]
  {
    var after := BatchHappens(s, outcomes, order, refreshErrors, handled, saved, restart, s', id, t);
    SamePrefix(s.log, s'.log, at);
  }

  lemma SamePrefix(log: seq<Message>, log': seq<Message>, at: nat)
    requires log <= log' && at <= |log|
    ensures log[..at] == log'[..at]
  {
  }

  /** In every such life, no batch emits a message of the room that the durable checkpoint covers. */
  lemma NothingCoveredIsRepeated(run: seq<Service>, happenings: seq<Happening>, id: RoomId, t: Track, n: nat, at: nat)
    requires Life(run, happenings, id) && n < |happenings| && ServiceInv(run[0], id, t)
    requires happenings[n].Batched? && id in run[n].durable
    requires ValidLog(run[n].log) && at <= |run[n].log| && CheckpointAt(run[n].log, run[n].durable[id], id, at)
    ensures var b := happenings[n];
      && KnownRooms(run[n].multi.rooms, b.order)
      && forall x :: x in RoomShare(PollBatch(run[n].multi, b.outcomes, b.order, b.refreshErrors).1.events, id) ==>
           x !in run[n].log[..at]
  {
    var before := NothingIsSkipped(run, happenings, id, t, n);
    DurablePosition(run[n], id, before, at);
    var b := happenings[n];
    BatchEmitsNew(run[n], b.outcomes, b.order, b.refreshErrors, b.handled, b.saved, b.restart, run[n + 1], id,
                  before, at);
  }
}
