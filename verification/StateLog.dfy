// The state log's records and the snapshot a replay builds (`StateSnapshot` in src/state.rs).

module StateLog {
  import opened Wrappers
  import opened PollerModel
  import Text

  /** Time and durations in nanoseconds. */
  type Time = int

  const SECOND: nat := 1_000_000_000
  const STATE_RECORD_VERSION := 1

  datatype AttemptLease = AttemptLease(messageId: string, attemptId: string, expiresAt: Time)

  datatype StateEvent =
    | ProcessedMessage(messageId: string, processedAt: Time)
    | AttemptLeased(messageId: string, attemptId: string, expiresAt: Time)
    | AttemptReleased(messageId: string, attemptId: string, releasedAt: Time)
    | CheckpointSaved(checkpoint: RoomCheckpoint, updatedAt: Time)

  datatype StateRecord = StateRecord(version: nat, event: StateEvent)

  datatype StateSnapshot = StateSnapshot(
    processed: set<string>,
    leases: map<string, AttemptLease>,
    checkpoints: map<RoomId, RoomCheckpoint>)

  const EMPTY_SNAPSHOT := StateSnapshot({}, map[], map[])

  function NewRecord(event: StateEvent): StateRecord {
    StateRecord(STATE_RECORD_VERSION, event)
  }

  // ----- one record -----

  const UNSUPPORTED_VERSION := "unsupported state record version"
  const EMPTY_MESSAGE_ID := "message id is empty"
  const EMPTY_ATTEMPT_ID := "attempt id is empty"
  const EMPTY_ROOM_ID := "room checkpoint id is empty"

  /** Why a record cannot be applied, whatever the snapshot. */
  function RecordError(record: StateRecord): Option<string> {
    if record.version != STATE_RECORD_VERSION then Some(UNSUPPORTED_VERSION)
    else
      match record.event
      case ProcessedMessage(messageId, _) =>
        if Text.Blank(messageId) then Some(EMPTY_MESSAGE_ID) else None
      case CheckpointSaved(checkpoint, _) =>
        if Text.Blank(checkpoint.roomId) then Some(EMPTY_ROOM_ID) else None
      case _ =>
        if Text.Blank(record.event.messageId) then Some(EMPTY_MESSAGE_ID)
        else if Text.Blank(record.event.attemptId) then Some(EMPTY_ATTEMPT_ID)
        else None
  }

  /** The leases that have not run out. */
  function Unexpired(leases: map<string, AttemptLease>, now: Time): map<string, AttemptLease> {
    map id | id in leases && leases[id].expiresAt > now :: leases[id]
  }

  function Holds(leases: map<string, AttemptLease>, messageId: string, attemptId: string): bool {
    messageId in leases && leases[messageId].attemptId == attemptId
  }

  function ApplyEvent(s: StateSnapshot, event: StateEvent, now: Time): StateSnapshot {
    match event
    case ProcessedMessage(id, _) => s.(processed := s.processed + {id}, leases := s.leases - {id})
    case AttemptLeased(id, attemptId, expiresAt) =>
      if id !in s.processed && expiresAt > now
      then s.(leases := s.leases[id := AttemptLease(id, attemptId, expiresAt)])
      else s.(leases := s.leases - {id})
    case AttemptReleased(id, attemptId, _) =>
      if Holds(s.leases, id, attemptId) then s.(leases := s.leases - {id}) else s
    case CheckpointSaved(checkpoint, _) =>
      s.(checkpoints := s.checkpoints[checkpoint.roomId := checkpoint])
  }

  function AfterRecord(s: StateSnapshot, record: StateRecord, now: Time): Result<StateSnapshot, string> {
    var error := RecordError(record);
    if error.Some? then Err(error.value)
    else
      var applied := ApplyEvent(s, record.event, now);
      Ok(applied.(leases := Unexpired(applied.leases, now)))
  }

  // ----- the whole log -----

  function ReplayRecords(records: seq<StateRecord>, now: Time): Result<StateSnapshot, string> {
    if records == [] then Ok(EMPTY_SNAPSHOT)
    else
      var before := ReplayRecords(records[..|records| - 1], now);
      if before.Err? then before else AfterRecord(before.value, records[|records| - 1], now)
  }

  function Replay(records: seq<StateRecord>, now: Time): Result<StateSnapshot, string> {
    var r := ReplayRecords(records, now);
    if r.Err? then r else Ok(Live(r.value, now))
  }

  /** The snapshot without its expired leases. */
  function Live(s: StateSnapshot, now: Time): StateSnapshot {
    s.(leases := Unexpired(s.leases, now))
  }

  // ----- the log read with no clock -----

  ghost function Take(s: StateSnapshot, event: StateEvent): StateSnapshot {
    match event
    case ProcessedMessage(id, _) => s.(processed := s.processed + {id}, leases := s.leases - {id})
    case AttemptLeased(id, attemptId, expiresAt) =>
      if id in s.processed then s.(leases := s.leases - {id})
      else s.(leases := s.leases[id := AttemptLease(id, attemptId, expiresAt)])
    case AttemptReleased(id, attemptId, _) =>
      if Holds(s.leases, id, attemptId) then s.(leases := s.leases - {id}) else s
    case CheckpointSaved(checkpoint, _) =>
      s.(checkpoints := s.checkpoints[checkpoint.roomId := checkpoint])
  }

  ghost predicate AllValid(records: seq<StateRecord>) {
    forall i :: 0 <= i < |records| ==> RecordError(records[i]).None?
  }

  /** What the records say, leases that have run out included. */
  ghost function History(records: seq<StateRecord>): StateSnapshot {
    if records == [] then EMPTY_SNAPSHOT
    else Take(History(records[..|records| - 1]), records[|records| - 1].event)
  }

  function LeaseOf(leases: map<string, AttemptLease>, id: string): Option<AttemptLease> {
    if id in leases then Some(leases[id]) else None
  }

  lemma ApplyLiveAt(s: StateSnapshot, event: StateEvent, now: Time, id: string)
    ensures LeaseOf(Unexpired(ApplyEvent(Live(s, now), event, now).leases, now), id)
            == LeaseOf(Unexpired(Take(s, event).leases, now), id)
  {
  }

  lemma SameLeases(a: map<string, AttemptLease>, b: map<string, AttemptLease>)
    requires forall id :: LeaseOf(a, id) == LeaseOf(b, id)
    ensures a == b
  {
    forall id ensures id in a <==> id in b {
      assert LeaseOf(a, id) == LeaseOf(b, id);
    }
    forall id | id in a ensures a[id] == b[id] {
      assert LeaseOf(a, id) == LeaseOf(b, id);
    }
  }

  /** Dropping expired leases commutes with applying a record. */
  lemma ApplyLive(s: StateSnapshot, record: StateRecord, now: Time)
    requires RecordError(record).None?
    ensures AfterRecord(Live(s, now), record, now) == Ok(Live(Take(s, record.event), now))
  {
    var applied := Unexpired(ApplyEvent(Live(s, now), record.event, now).leases, now);
    var taken := Unexpired(Take(s, record.event).leases, now);
    forall id ensures LeaseOf(applied, id) == LeaseOf(taken, id) {
      ApplyLiveAt(s, record.event, now, id);
    }
    SameLeases(applied, taken);
  }

  /** Replaying with pruning at every record is replaying with no clock and filtering once: the
      replay succeeds exactly when every record is valid, and what it gives is the live part of the
      history. */
  lemma {:induction false} ReplayIsFilteredHistory(records: seq<StateRecord>, now: Time)
    ensures AllValid(records) ==> ReplayRecords(records, now) == Ok(Live(History(records), now))
    ensures AllValid(records) ==> Replay(records, now) == Ok(Live(History(records), now))
    ensures Replay(records, now).Ok? <==> AllValid(records)
  {
    if records != [] {
      var init, last := records[..|records| - 1], records[|records| - 1];
      assert records == init + [last];
      ReplayIsFilteredHistory(init, now);
      if AllValid(records) {
        ApplyLive(History(init), last, now);
      } else if AllValid(init) {
        assert RecordError(last).Some?;
      }
      LiveAgain(History(records), now, now);
    }
  }

  /** Filtering by an earlier and then a later time is filtering by the later one. */
  lemma LiveAgain(s: StateSnapshot, now: Time, later: Time)
    requires now <= later
    ensures Live(Live(s, now), later) == Live(s, later)
  {
  }

  /** A replay at a later time is a filter of the replay at an earlier one. */
  lemma LaterReplayIsFilter(records: seq<StateRecord>, now: Time, later: Time)
    requires now <= later
    ensures Replay(records, later).Ok? <==> Replay(records, now).Ok?
    ensures Replay(records, now).Ok? ==> Replay(records, later) == Ok(Live(Replay(records, now).value, later))
  {
    ReplayIsFilteredHistory(records, now);
    ReplayIsFilteredHistory(records, later);
    LiveAgain(History(records), now, later);
  }

  /** Applying a record to a fresh replay gives the fresh replay of the longer log. */
  lemma AppendMatchesReplay(records: seq<StateRecord>, record: StateRecord, now: Time)
    requires AllValid(records) && RecordError(record).None?
    ensures Replay(records, now).Ok? && Replay(records + [record], now).Ok?
    ensures AfterRecord(Replay(records, now).value, record, now) == Replay(records + [record], now)
  {
    ReplayIsFilteredHistory(records, now);
    ReplayIsFilteredHistory(records + [record], now);
    ApplyLive(History(records), record, now);
    assert (records + [record])[..|records|] == records;
  }

  // ----- what the log says, record by record -----

  /** A replay succeeds exactly if every record has the supported version and no blank id that it needs. */
  lemma ReplaySucceedsIff(records: seq<StateRecord>, now: Time)
    ensures Replay(records, now).Ok? <==> forall i {:trigger records[i]} :: 0 <= i < |records| ==>
      && records[i].version == 1
      && match records[i].event
         case ProcessedMessage(id, _) => !Text.Blank(id)
         case AttemptLeased(id, attemptId, _) => !Text.Blank(id) && !Text.Blank(attemptId)
         case AttemptReleased(id, attemptId, _) => !Text.Blank(id) && !Text.Blank(attemptId)
         case CheckpointSaved(checkpoint, _) => !Text.Blank(checkpoint.roomId)
  {
    ReplayIsFilteredHistory(records, now);
  }

  ghost predicate ProcessesAt(records: seq<StateRecord>, i: nat, id: string) {
    i < |records| && records[i].event.ProcessedMessage? && records[i].event.messageId == id
  }

  /** The record leases the message under the token until that time. */
  ghost predicate LeasesAt(records: seq<StateRecord>, i: nat, lease: AttemptLease) {
    i < |records| && records[i].event == AttemptLeased(lease.messageId, lease.attemptId, lease.expiresAt)
  }

  /** The record puts an end to the lease: a new lease on the message, or a release under the same token. */
  ghost predicate ReplacesAt(records: seq<StateRecord>, i: nat, lease: AttemptLease) {
    i < |records| && match records[i].event
      case AttemptLeased(id, _, _) => id == lease.messageId
      case AttemptReleased(id, attemptId, _) => id == lease.messageId && attemptId == lease.attemptId
      case _ => false
  }

  ghost predicate SavesAt(records: seq<StateRecord>, i: nat, id: RoomId) {
    i < |records| && records[i].event.CheckpointSaved? && records[i].event.checkpoint.roomId == id
  }

  /** The lease is granted, and no later record puts an end to it. */
  ghost predicate LeaseStands(records: seq<StateRecord>, lease: AttemptLease) {
    exists i: nat :: LeasesAt(records, i, lease) && forall j: nat :: j > i ==> !ReplacesAt(records, j, lease)
  }

  ghost predicate CheckpointStands(records: seq<StateRecord>, c: RoomCheckpoint) {
    exists i: nat :: SavesAt(records, i, c.roomId) && records[i].event.checkpoint == c
                     && forall j: nat :: j > i ==> !SavesAt(records, j, c.roomId)
  }

  ghost predicate IsProcessed(records: seq<StateRecord>, id: string) {
    exists i: nat :: ProcessesAt(records, i, id)
  }

  lemma OneMoreProcessed(records: seq<StateRecord>, last: StateRecord, id: string)
    ensures IsProcessed(records + [last], id)
            <==> IsProcessed(records, id) || (last.event.ProcessedMessage? && last.event.messageId == id)
  {
    var all := records + [last];
    forall i: nat | i < |records| ensures ProcessesAt(all, i, id) <==> ProcessesAt(records, i, id) { }
    assert ProcessesAt(all, |records|, id) <==> last.event.ProcessedMessage? && last.event.messageId == id;
  }

  lemma OneMoreLease(records: seq<StateRecord>, last: StateRecord, lease: AttemptLease)
    ensures LeaseStands(records + [last], lease)
            <==> || last.event == AttemptLeased(lease.messageId, lease.attemptId, lease.expiresAt)
                 || (LeaseStands(records, lease) && !ReplacesAt([last], 0, lease))
  {
    var all, n := records + [last], |records|;
    forall i: nat | i < n
      ensures LeasesAt(all, i, lease) <==> LeasesAt(records, i, lease)
      ensures ReplacesAt(all, i, lease) <==> ReplacesAt(records, i, lease)
    { }
    assert ReplacesAt(all, n, lease) <==> ReplacesAt([last], 0, lease);
    assert LeasesAt(all, n, lease) <==> last.event == AttemptLeased(lease.messageId, lease.attemptId, lease.expiresAt);
    if LeaseStands(all, lease) {
      var i: nat :| LeasesAt(all, i, lease) && forall j: nat :: j > i ==> !ReplacesAt(all, j, lease);
      if i < n {
        assert LeasesAt(records, i, lease);
        forall j: nat | j > i ensures !ReplacesAt(records, j, lease) { assert !ReplacesAt(all, j, lease); }
      }
    }
    if LeaseStands(records, lease) && !ReplacesAt([last], 0, lease) {
      var i: nat :| LeasesAt(records, i, lease) && forall j: nat :: j > i ==> !ReplacesAt(records, j, lease);
      assert LeasesAt(all, i, lease);
      forall j: nat | j > i ensures !ReplacesAt(all, j, lease) { assert !ReplacesAt(records, j, lease); }
    }
  }

  lemma OneMoreCheckpoint(records: seq<StateRecord>, last: StateRecord, c: RoomCheckpoint)
    ensures CheckpointStands(records + [last], c)
            <==> if SavesAt([last], 0, c.roomId) then last.event.checkpoint == c else CheckpointStands(records, c)
  {
    var all, n := records + [last], |records|;
    forall i: nat | i < n ensures SavesAt(all, i, c.roomId) <==> SavesAt(records, i, c.roomId) { }
    assert SavesAt(all, n, c.roomId) <==> SavesAt([last], 0, c.roomId);
    if CheckpointStands(all, c) {
      var i: nat :| SavesAt(all, i, c.roomId) && all[i].event.checkpoint == c
                    && forall j: nat :: j > i ==> !SavesAt(all, j, c.roomId);
      if i < n {
        assert SavesAt(records, i, c.roomId);
        forall j: nat | j > i ensures !SavesAt(records, j, c.roomId) { assert !SavesAt(all, j, c.roomId); }
      }
    }
    if CheckpointStands(records, c) && !SavesAt([last], 0, c.roomId) {
      var i: nat :| SavesAt(records, i, c.roomId) && records[i].event.checkpoint == c
                    && forall j: nat :: j > i ==> !SavesAt(records, j, c.roomId);
      assert SavesAt(all, i, c.roomId);
      forall j: nat | j > i ensures !SavesAt(all, j, c.roomId) { assert !SavesAt(records, j, c.roomId); }
    }
  }

  ghost function CheckpointOf(checkpoints: map<RoomId, RoomCheckpoint>, id: RoomId): Option<RoomCheckpoint> {
    if id in checkpoints then Some(checkpoints[id]) else None
  }

  lemma {:induction false} HistoryIs(records: seq<StateRecord>, id: string)
    ensures var s := History(records);
      && (id in s.processed <==> IsProcessed(records, id))
      && (forall token, until :: LeaseOf(s.leases, id) == Some(AttemptLease(id, token, until))
            <==> !IsProcessed(records, id) && LeaseStands(records, AttemptLease(id, token, until)))
      && (id in s.leases ==> s.leases[id].messageId == id)
      && forall c: RoomCheckpoint {:trigger CheckpointStands(records, c)} :: c.roomId == id ==>
           (CheckpointOf(s.checkpoints, id) == Some(c) <==> CheckpointStands(records, c))
  {
    if records != [] {
      var init, last := records[..|records| - 1], records[|records| - 1];
      assert records == init + [last];
      HistoryIs(init, id);
      OneMoreProcessed(init, last, id);
      forall token, until
        ensures LeaseOf(History(records).leases, id) == Some(AttemptLease(id, token, until))
                <==> !IsProcessed(records, id) && LeaseStands(records, AttemptLease(id, token, until))
      {
        OneMoreLease(init, last, AttemptLease(id, token, until));
        TakenLease(History(init), last, id, token, until);
      }
      forall c: RoomCheckpoint | c.roomId == id
        ensures CheckpointOf(History(records).checkpoints, id) == Some(c) <==> CheckpointStands(records, c)
      {
        OneMoreCheckpoint(init, last, c);
      }
    }
  }

  /** What a record does to the lease of one message. */
  lemma TakenLease(s: StateSnapshot, last: StateRecord, id: string, token: string, until: Time)
    ensures LeaseOf(Take(s, last.event).leases, id) == Some(AttemptLease(id, token, until))
            <==> && !(last.event.ProcessedMessage? && last.event.messageId == id)
                 && ((last.event == AttemptLeased(id, token, until) && id !in s.processed)
                     || (LeaseOf(s.leases, id) == Some(AttemptLease(id, token, until))
                         && !ReplacesAt([last], 0, AttemptLease(id, token, until))))
  {
  }

  /** What a replay gives for a message, said without replaying: it is processed exactly if some record says so,
      and leased under a token until a time exactly if that time is still to come, no record says it is
      processed, and the last record that leases it grants just that and is not followed by a release under
      the same token. */
  lemma ReplayOfMessage(records: seq<StateRecord>, now: Time, id: string)
    requires AllValid(records)
    ensures Replay(records, now).Ok?
    ensures var s := Replay(records, now).value;
      && (id in s.processed <==> IsProcessed(records, id))
      && (forall token, until :: LeaseOf(s.leases, id) == Some(AttemptLease(id, token, until))
            <==> until > now && !IsProcessed(records, id) && LeaseStands(records, AttemptLease(id, token, until)))
      && (id in s.leases ==> s.leases[id].messageId == id)
  {
    ReplayIsFilteredHistory(records, now);
    HistoryIs(records, id);
  }

  /** A room's checkpoint in a replay is the one saved last, if any was saved. */
  lemma ReplayOfRoom(records: seq<StateRecord>, now: Time, c: RoomCheckpoint)
    requires AllValid(records)
    ensures Replay(records, now).Ok?
    ensures CheckpointOf(Replay(records, now).value.checkpoints, c.roomId) == Some(c) <==> CheckpointStands(records, c)
  {
    ReplayIsFilteredHistory(records, now);
    HistoryIs(records, c.roomId);
  }

  // ----- checkpoints -----

  function SaveAll(durable: map<RoomId, RoomCheckpoint>, saved: seq<RoomCheckpoint>): map<RoomId, RoomCheckpoint> {
    if saved == [] then durable
    else SaveAll(durable, saved[..|saved| - 1])[saved[|saved| - 1].roomId := saved[|saved| - 1]]
  }

  function CheckpointRecords(saved: seq<RoomCheckpoint>, now: Time): seq<StateRecord> {
    seq(|saved|, i requires 0 <= i < |saved| => NewRecord(CheckpointSaved(saved[i], now)))
  }

  /** Saving checkpoints overwrites those rooms' checkpoints in the replay and changes nothing else. */
  lemma {:induction false} SavedCheckpoints(records: seq<StateRecord>, saved: seq<RoomCheckpoint>, now: Time)
    ensures var h := History(records + CheckpointRecords(saved, now));
      && h.checkpoints == SaveAll(History(records).checkpoints, saved)
      && h.processed == History(records).processed && h.leases == History(records).leases
  {
    if saved == [] {
      assert records + CheckpointRecords(saved, now) == records;
    } else {
      var init := saved[..|saved| - 1];
      SavedCheckpoints(records, init, now);
      var all := records + CheckpointRecords(saved, now);
      assert all[..|all| - 1] == records + CheckpointRecords(init, now);
    }
  }

  // ----- the snapshot in the source's own form -----

  class Snapshot {
    var processedMessageIds: set<string>
    var attemptLeases: map<string, AttemptLease>
    var roomCheckpoints: map<RoomId, RoomCheckpoint>

    ghost function View(): StateSnapshot
      reads this
    {
      StateSnapshot(processedMessageIds, attemptLeases, roomCheckpoints)
    }

    constructor ()
      ensures View() == EMPTY_SNAPSHOT
    {
      processedMessageIds, attemptLeases, roomCheckpoints := {}, map[], map[];
    }

    method ApplyRecord(record: StateRecord, now: Time) returns (r: Result<(), string>)
      modifies this
      ensures match AfterRecord(old(View()), record, now)
        case Ok(s) => r == Ok(()) && View() == s
        case Err(e) => r == Err(e) && View() == old(View())
    {
      if record.version != STATE_RECORD_VERSION {
        return Err(UNSUPPORTED_VERSION);
      }
      match record.event {
        case ProcessedMessage(id, _) =>
          if Text.Blank(id) { return Err(EMPTY_MESSAGE_ID); }
          processedMessageIds := processedMessageIds + {id};
          attemptLeases := attemptLeases - {id};
        case AttemptLeased(id, attemptId, expiresAt) =>
          if Text.Blank(id) { return Err(EMPTY_MESSAGE_ID); }
          if Text.Blank(attemptId) { return Err(EMPTY_ATTEMPT_ID); }
          if id in processedMessageIds {
            attemptLeases := attemptLeases - {id};
          } else if expiresAt > now {
            attemptLeases := attemptLeases[id := AttemptLease(id, attemptId, expiresAt)];
          } else {
            attemptLeases := attemptLeases - {id};
          }
        case AttemptReleased(id, attemptId, _) =>
          if Text.Blank(id) { return Err(EMPTY_MESSAGE_ID); }
          if Text.Blank(attemptId) { return Err(EMPTY_ATTEMPT_ID); }
          if id in attemptLeases && attemptLeases[id].attemptId == attemptId {
            attemptLeases := attemptLeases - {id};
          }
        case CheckpointSaved(checkpoint, _) =>
          if Text.Blank(checkpoint.roomId) { return Err(EMPTY_ROOM_ID); }
          roomCheckpoints := roomCheckpoints[checkpoint.roomId := checkpoint];
      }
      PruneExpiredAttempts(now);
      return Ok(());
    }

    method PruneExpiredAttempts(now: Time)
      modifies `attemptLeases
      ensures View() == Live(old(View()), now)
    {
      attemptLeases := map id | id in attemptLeases && attemptLeases[id].expiresAt > now :: attemptLeases[id];
    }
  }
}
