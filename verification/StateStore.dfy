// The state store's operations (`JsonlStateStore` in src/state.rs): what each does to the log and
// answers, and the store itself, proved against it.  Every operation runs under the path lock, so it
// is one step on the log; several handles share the log and the process's attempt counter.

module StateStore {
  import opened Wrappers
  import opened PollerModel
  import opened StateLog
  import Text

  /** The log, and the next number of the process-wide attempt counter. */
  datatype World = World(records: seq<StateRecord>, nextAttempt: nat)

  /** What becomes of an append: it succeeds, or it fails before or after the record is on disk. */
  datatype Disk = Written | NotWritten | WrittenThenFailed

  datatype AttemptStart = Started(lease: AttemptLease) | Processed | Leased(remaining: nat)

  datatype Op =
    | Begin(messageId: string, lease: nat)
    | Release(attempt: AttemptLease)
    | Defer(attempt: AttemptLease, lease: nat)
    | Mark(attempt: AttemptLease)
    | SaveCheckpoint(checkpoint: RoomCheckpoint)

  datatype Answer = Begun(start: AttemptStart) | Done | Refused(error: string)

  const WRITE_FAILED := "state log write failed"
  const NOT_ACTIVE := "attempt lease is not active"
  const LEASE_TOO_LARGE := "attempt lease duration is too large"
  const EXPIRY_OVERFLOWED := "attempt lease expiry overflowed"
  const LONGEST_LEASE: nat := 9_223_372_036_854_775_807 * 1_000_000
  const LATEST_TIME: Time := 8_210_266_876_799_999_999_999

  function LeaseExpiresAt(now: Time, lease: nat): (r: Result<Time, string>)
    ensures r.Ok? ==> r.value > now
  {
    var length := if lease == 0 then SECOND else lease;
    if length > LONGEST_LEASE then Err(LEASE_TOO_LARGE)
    else if now + length > LATEST_TIME then Err(EXPIRY_OVERFLOWED)
    else Ok(now + length)
  }

  function AttemptIdFor(now: Time, pid: nat, sequence: nat): string {
    Text.AttemptText(now / 1000, pid, sequence)
  }

  function AppendEvent(w: World, event: StateEvent, disk: Disk, answer: Answer): (World, Answer) {
    var record := NewRecord(event);
    var longer := w.(records := w.records + [record]);
    if RecordError(record).Some? then (w, Refused(RecordError(record).value))
    else
      match disk
      case Written => (longer, answer)
      case NotWritten => (w, Refused(WRITE_FAILED))
      case WrittenThenFailed => (longer, Refused(WRITE_FAILED))
  }

  predicate Owns(s: StateSnapshot, attempt: AttemptLease) {
    !Text.Blank(attempt.messageId) && Holds(s.leases, attempt.messageId, attempt.attemptId)
  }

  function OwnerError(attempt: AttemptLease): string {
    if Text.Blank(attempt.messageId) then EMPTY_MESSAGE_ID else NOT_ACTIVE
  }

  function PerformFresh(w: World, s: StateSnapshot, op: Op, now: Time, pid: nat, disk: Disk): (World, Answer) {
    match op
    case Begin(id, lease) =>
      if id in s.processed then (w, Begun(Processed))
      else if id in s.leases && s.leases[id].expiresAt > now then
        (w, Begun(Leased(s.leases[id].expiresAt - now)))
      else
        var counted := w.(nextAttempt := w.nextAttempt + 1);
        var expiresAt := LeaseExpiresAt(now, lease);
        if expiresAt.Err? then (counted, Refused(expiresAt.error))
        else
          var attempt := AttemptLease(id, AttemptIdFor(now, pid, w.nextAttempt), expiresAt.value);
          AppendEvent(counted, AttemptLeased(id, attempt.attemptId, attempt.expiresAt), disk, Begun(Started(attempt)))
    case Release(attempt) =>
      if !Owns(s, attempt) then (w, Refused(OwnerError(attempt)))
      else AppendEvent(w, AttemptReleased(attempt.messageId, attempt.attemptId, now), disk, Done)
    case Defer(attempt, lease) =>
      if !Owns(s, attempt) then (w, Refused(OwnerError(attempt)))
      else
        var expiresAt := LeaseExpiresAt(now, lease);
        if expiresAt.Err? then (w, Refused(expiresAt.error))
        else AppendEvent(w, AttemptLeased(attempt.messageId, attempt.attemptId, expiresAt.value), disk, Done)
    case Mark(attempt) =>
      if attempt.messageId in s.processed then (w, Done)
      else if !Owns(s, attempt) then (w, Refused(OwnerError(attempt)))
      else AppendEvent(w, ProcessedMessage(attempt.messageId, now), disk, Done)
    case SaveCheckpoint(checkpoint) =>
      AppendEvent(w, CheckpointSaved(checkpoint, now), disk, Done)
  }

  /** One operation: refresh from the log as of `now`, decide, and append at most one record. */
  function Perform(w: World, op: Op, now: Time, pid: nat, disk: Disk): (World, Answer) {
    if op.Begin? && Text.Blank(op.messageId) then (w, Refused(EMPTY_MESSAGE_ID))
    else
      match Replay(w.records, now)
      case Err(error) => (w, Refused(error))
      case Ok(s) => PerformFresh(w, s, op, now, pid, disk)
  }

  // ----- what a handle knows -----

  /** A handle's snapshot after an operation: the replay of the new log if it succeeded, that of the old one
      if it did not, and what it was if there was none. */
  function SnapshotAfter(w: World, before: StateSnapshot, op: Op, now: Time, pid: nat, disk: Disk): StateSnapshot {
    var (w', answer) := Perform(w, op, now, pid, disk);
    var replayed := Replay(if answer.Refused? then w.records else w'.records, now);
    if RefusedAtOnce(op) || replayed.Err? then before else replayed.value
  }

  /** A blank message id is refused before the log is looked at. */
  predicate RefusedAtOnce(op: Op) {
    op.Begin? && Text.Blank(op.messageId)
  }

  /** What the operation sets out to append. */
  function Wanted(w: World, op: Op, now: Time, pid: nat): Option<StateRecord> {
    var records := Perform(w, op, now, pid, Written).0.records;
    if |records| == |w.records| + 1 then Some(records[|w.records|]) else None
  }

  /** After an operation that looked at a valid log, a handle's snapshot is not what the log gives exactly if
      the operation had a record to append that changes the replay, and the append failed after the record
      had reached the disk. */
  lemma StaleIff(w: World, before: StateSnapshot, op: Op, now: Time, pid: nat, disk: Disk)
    requires AllValid(w.records) && !RefusedAtOnce(op)
    ensures Replay(Perform(w, op, now, pid, disk).0.records, now) != Ok(SnapshotAfter(w, before, op, now, pid, disk))
            <==> && disk.WrittenThenFailed? && Wanted(w, op, now, pid).Some?
                 && Replay(w.records + [Wanted(w, op, now, pid).value], now) != Replay(w.records, now)
  {
    ReplayIsFilteredHistory(w.records, now);
    AppendsAtMostOne(w, op, now, pid, disk);
    var wanted := Wanted(w, op, now, pid);
    if wanted.Some? {
      AppendMatchesReplay(w.records, wanted.value, now);
    }
  }

  /** The disk decides only whether the record is there and whether the operation succeeds. */
  lemma AppendsAtMostOne(w: World, op: Op, now: Time, pid: nat, disk: Disk)
    ensures var wanted := Wanted(w, op, now, pid); var (w', answer) := Perform(w, op, now, pid, disk);
      if wanted.None? then w'.records == w.records
      else
        && RecordError(wanted.value).None?
        && w'.records == (if disk.NotWritten? then w.records else w.records + [wanted.value])
        && (answer.Refused? <==> !disk.Written?)
  {
  }

  /** A lease is filed under its own message, and a processed message has none. */
  ghost predicate Filed(s: StateSnapshot) {
    forall id :: id in s.leases ==> s.leases[id].messageId == id && id !in s.processed
  }

  lemma FiledAfter(s: StateSnapshot, event: StateEvent)
    requires Filed(s)
    ensures Filed(Take(s, event))
  {
    match event
    case ProcessedMessage(_, _) =>
    case AttemptLeased(_, _, _) =>
    case AttemptReleased(_, _, _) =>
    case CheckpointSaved(_, _) =>
  }

  lemma {:induction false} HistoryIsFiled(records: seq<StateRecord>)
    ensures Filed(History(records))
  {
    if records != [] {
      HistoryIsFiled(records[..|records| - 1]);
      FiledAfter(History(records[..|records| - 1]), records[|records| - 1].event);
    }
  }

  /** Only extending a lease to the time it has, and saving a checkpoint that is there, change nothing. */
  lemma RecordChangesIff(w: World, op: Op, now: Time, pid: nat)
    requires AllValid(w.records) && Wanted(w, op, now, pid).Some?
    ensures Replay(w.records, now).Ok?
    ensures op.Defer? ==> op.attempt.messageId in Replay(w.records, now).value.leases
    ensures var s := Replay(w.records, now).value;
      Replay(w.records + [Wanted(w, op, now, pid).value], now) != Ok(s)
      <==> match op
           case Defer(attempt, lease) => LeaseExpiresAt(now, lease) != Ok(s.leases[attempt.messageId].expiresAt)
           case SaveCheckpoint(c) => c.roomId !in s.checkpoints || s.checkpoints[c.roomId] != c
           case _ => true
  {
    ReplayIsFilteredHistory(w.records, now);
    HistoryIsFiled(w.records);
    AppendsAtMostOne(w, op, now, pid, Written);
    var s, record := Replay(w.records, now).value, Wanted(w, op, now, pid).value;
    AppendMatchesReplay(w.records, record, now);
    var after := AfterRecord(s, record, now).value;
    assert Unexpired(s.leases, now) == s.leases;
    match op {
      case Begin(id, _) => assert id in after.leases && id !in s.leases;
      case Release(attempt) => assert attempt.messageId !in after.leases;
      case Defer(attempt, lease) =>
        var id, expiresAt := attempt.messageId, LeaseExpiresAt(now, lease).value;
        assert record == NewRecord(AttemptLeased(id, attempt.attemptId, expiresAt));
        assert s.leases[id].(expiresAt := expiresAt) == AttemptLease(id, attempt.attemptId, expiresAt);
        assert after.leases == s.leases[id := AttemptLease(id, attempt.attemptId, expiresAt)];
        if expiresAt == s.leases[id].expiresAt {
          assert after.leases == s.leases;
        } else {
          assert after.leases[id] != s.leases[id];
        }
      case Mark(attempt) => assert attempt.messageId in after.processed;
      case SaveCheckpoint(c) =>
        assert after.checkpoints == s.checkpoints[c.roomId := c];
        if c.roomId in s.checkpoints && s.checkpoints[c.roomId] == c {
          assert after.checkpoints == s.checkpoints;
        }
    }
  }

  /** For example, a message that was marked processed on disk only: the handle does not know it yet. */
  lemma MarkedOnDiskOnly(id: string, aid: string)
    requires !Text.Blank(id) && !Text.Blank(aid)
    ensures var w := World([NewRecord(AttemptLeased(id, aid, SECOND))], 2);
      var mark := Mark(AttemptLease(id, aid, SECOND));
      var (w', answer) := Perform(w, mark, 0, 1, WrittenThenFailed);
      && answer.Refused? && Replay(w'.records, 0).Ok? && id in Replay(w'.records, 0).value.processed
      && id !in SnapshotAfter(w, EMPTY_SNAPSHOT, mark, 0, 1, WrittenThenFailed).processed
  {
    var w := World([NewRecord(AttemptLeased(id, aid, SECOND))], 2);
    assert w.records[..0] == [];
    ReplayIsFilteredHistory(w.records, 0);
    var w' := Perform(w, Mark(AttemptLease(id, aid, SECOND)), 0, 1, WrittenThenFailed).0;
    assert w'.records == w.records + [NewRecord(ProcessedMessage(id, 0))];
    assert w'.records[..1] == w.records;
    ReplayIsFilteredHistory(w'.records, 0);
  }

  // ----- what each operation answers and leaves, in terms of replays -----

  /** How long a lease is asked for; none at all means one second. */
  ghost function Requested(lease: nat): nat {
    if lease == 0 then SECOND else lease
  }

  ghost predicate Grantable(lease: nat, now: Time) {
    Requested(lease) <= LONGEST_LEASE && now + Requested(lease) <= LATEST_TIME
  }

  ghost function WhyNot(lease: nat): string {
    if Requested(lease) > LONGEST_LEASE then LEASE_TOO_LARGE else EXPIRY_OVERFLOWED
  }

  /** The token that holds the message. */
  ghost predicate Owner(s: StateSnapshot, attempt: AttemptLease) {
    !Text.Blank(attempt.messageId) && LeaseOf(s.leases, attempt.messageId).Some?
    && s.leases[attempt.messageId].attemptId == attempt.attemptId
  }

  /** The log ends with one record more, unless nothing reached the disk, and then replays to `s`. */
  ghost predicate Extended(records: seq<StateRecord>, records': seq<StateRecord>, now: Time, s: StateSnapshot, disk: Disk) {
    if disk.NotWritten? then records' == records
    else |records'| == |records| + 1 && records <= records' && Replay(records', now) == Ok(s)
  }

  /** Beginning: an attempt is started exactly if the message is neither processed nor leased, the length asked
      for can be granted and the write succeeds, and it is then leased until just that time. */
  ghost predicate Begins(records: seq<StateRecord>, records': seq<StateRecord>, id: string, lease: nat, now: Time,
                         token: string, disk: Disk, r: Result<AttemptStart, string>) {
    match Replay(records, now)
    case Err(e) => r == Err(if Text.Blank(id) then EMPTY_MESSAGE_ID else e) && records' == records
    case Ok(s) =>
      if Text.Blank(id) then r == Err(EMPTY_MESSAGE_ID) && records' == records
      else if id in s.processed then r == Ok(Processed) && records' == records
      else if id in s.leases then r == Ok(Leased(s.leases[id].expiresAt - now)) && records' == records
      else if !Grantable(lease, now) then r == Err(WhyNot(lease)) && records' == records
      else
        var granted := AttemptLease(id, token, now + Requested(lease));
        && Extended(records, records', now, s.(leases := s.leases[id := granted]), disk)
        && r == if disk.Written? then Ok(Started(granted)) else Err(WRITE_FAILED)
  }

  /** An operation of the message's owner that changes the snapshot to `s'`; anyone else is refused. */
  ghost predicate OwnersOnly(records: seq<StateRecord>, records': seq<StateRecord>, attempt: AttemptLease, now: Time,
                             s': StateSnapshot, disk: Disk, r: Result<(), string>)
    requires Replay(records, now).Ok?
  {
    if Owner(Replay(records, now).value, attempt) then
      && Extended(records, records', now, s', disk)
      && r == if disk.Written? then Ok(()) else Err(WRITE_FAILED)
    else
      && records' == records
      && r == Err(if Text.Blank(attempt.messageId) then EMPTY_MESSAGE_ID else NOT_ACTIVE)
  }

  ghost predicate Releases(records: seq<StateRecord>, records': seq<StateRecord>, attempt: AttemptLease, now: Time,
                           disk: Disk, r: Result<(), string>) {
    match Replay(records, now)
    case Err(e) => r == Err(e) && records' == records
    case Ok(s) => OwnersOnly(records, records', attempt, now, s.(leases := s.leases - {attempt.messageId}), disk, r)
  }

  /** Deferring: the owner's lease then ends exactly the requested time from now, or nothing changes. */
  ghost predicate Defers(records: seq<StateRecord>, records': seq<StateRecord>, attempt: AttemptLease, lease: nat,
                         now: Time, disk: Disk, r: Result<(), string>) {
    match Replay(records, now)
    case Err(e) => r == Err(e) && records' == records
    case Ok(s) =>
      if Owner(s, attempt) && !Grantable(lease, now) then r == Err(WhyNot(lease)) && records' == records
      else
        var extended := AttemptLease(attempt.messageId, attempt.attemptId, now + Requested(lease));
        OwnersOnly(records, records', attempt, now, s.(leases := s.leases[attempt.messageId := extended]), disk, r)
  }

  ghost predicate Marks(records: seq<StateRecord>, records': seq<StateRecord>, attempt: AttemptLease, now: Time,
                        disk: Disk, r: Result<(), string>) {
    match Replay(records, now)
    case Err(e) => r == Err(e) && records' == records
    case Ok(s) =>
      if attempt.messageId in s.processed then r == Ok(()) && records' == records
      else
        OwnersOnly(records, records', attempt, now,
                   s.(processed := s.processed + {attempt.messageId}, leases := s.leases - {attempt.messageId}), disk, r)
  }

  ghost predicate Saves(records: seq<StateRecord>, records': seq<StateRecord>, c: RoomCheckpoint, now: Time, disk: Disk,
                        r: Result<(), string>) {
    match Replay(records, now)
    case Err(e) => r == Err(e) && records' == records
    case Ok(s) =>
      if Text.Blank(c.roomId) then r == Err(EMPTY_ROOM_ID) && records' == records
      else
        && Extended(records, records', now, s.(checkpoints := s.checkpoints[c.roomId := c]), disk)
        && r == if disk.Written? then Ok(()) else Err(WRITE_FAILED)
  }

  ghost function AsStart(answer: Answer): Result<AttemptStart, string>
    requires !answer.Done?
  {
    if answer.Begun? then Ok(answer.start) else Err(answer.error)
  }

  /** The answer of an operation that only succeeds or fails. */
  ghost function Plain(answer: Answer): Result<(), string> {
    if answer.Refused? then Err(answer.error) else Ok(())
  }

  /** In a valid log the holder of a lease and its message have ids that are not blank. */
  lemma {:induction false} TokensNotBlank(records: seq<StateRecord>)
    requires AllValid(records)
    ensures forall id :: id in History(records).leases ==>
      !Text.Blank(id) && !Text.Blank(History(records).leases[id].attemptId)
  {
    if records != [] {
      var init, last := records[..|records| - 1], records[|records| - 1];
      TokensNotBlank(init);
      assert RecordError(last).None?;
      TakenNotBlank(History(init), last);
    }
  }

  lemma TakenNotBlank(s: StateSnapshot, record: StateRecord)
    requires RecordError(record).None?
    requires forall id :: id in s.leases ==> !Text.Blank(id) && !Text.Blank(s.leases[id].attemptId)
    ensures var s' := Take(s, record.event);
      forall id :: id in s'.leases ==> !Text.Blank(id) && !Text.Blank(s'.leases[id].attemptId)
  {
    match record.event
    case ProcessedMessage(_, _) =>
    case AttemptLeased(_, _, _) =>
    case AttemptReleased(_, _, _) =>
    case CheckpointSaved(_, _) =>
  }

  /** A replay has leases of unprocessed messages only, under names that are not blank, all to run out later. */
  lemma ReplayedLeases(records: seq<StateRecord>, now: Time)
    requires AllValid(records)
    ensures Replay(records, now) == Ok(Live(History(records), now))
    ensures var s := Replay(records, now).value;
      && Unexpired(s.leases, now) == s.leases
      && forall id :: id in s.leases ==> !Text.Blank(id) && !Text.Blank(s.leases[id].attemptId)
                                         && s.leases[id].expiresAt > now && id !in s.processed
  {
    ReplayIsFilteredHistory(records, now);
    TokensNotBlank(records);
    HistoryIsFiled(records);
  }

  lemma AppendExtends(w: World, event: StateEvent, now: Time, s': StateSnapshot, disk: Disk, answer: Answer)
    requires AllValid(w.records) && RecordError(NewRecord(event)).None?
    requires Replay(w.records, now).Ok? && AfterRecord(Replay(w.records, now).value, NewRecord(event), now) == Ok(s')
    ensures Extended(w.records, AppendEvent(w, event, disk, answer).0.records, now, s', disk)
  {
    AppendMatchesReplay(w.records, NewRecord(event), now);
  }

  lemma BeginAppends(w: World, s: StateSnapshot, id: string, lease: nat, now: Time, pid: nat, disk: Disk)
    requires Replay(w.records, now) == Ok(s)
    requires !Text.Blank(id) && id !in s.processed && id !in s.leases && Grantable(lease, now)
    ensures var token, until := AttemptIdFor(now, pid, w.nextAttempt), now + Requested(lease);
      Perform(w, Begin(id, lease), now, pid, disk)
      == AppendEvent(w.(nextAttempt := w.nextAttempt + 1), AttemptLeased(id, token, until), disk,
                     Begun(Started(AttemptLease(id, token, until))))
  {
  }

  lemma BeginGrants(w: World, s: StateSnapshot, id: string, lease: nat, now: Time, pid: nat, disk: Disk)
    requires AllValid(w.records) && Replay(w.records, now) == Ok(s) && Unexpired(s.leases, now) == s.leases
    requires !Text.Blank(id) && id !in s.processed && id !in s.leases && Grantable(lease, now)
    ensures var (w', answer) := Perform(w, Begin(id, lease), now, pid, disk);
      !answer.Done? && Begins(w.records, w'.records, id, lease, now, AttemptIdFor(now, pid, w.nextAttempt), disk, AsStart(answer))
  {
    Text.AttemptTextNotBlank(now / 1000, pid, w.nextAttempt);
    var granted := AttemptLease(id, AttemptIdFor(now, pid, w.nextAttempt), now + Requested(lease));
    var event := AttemptLeased(id, granted.attemptId, granted.expiresAt);
    LeaseIsKept(s, granted, now);
    BeginAppends(w, s, id, lease, now, pid, disk);
    AppendExtends(w.(nextAttempt := w.nextAttempt + 1), event, now, s.(leases := s.leases[id := granted]), disk,
                  Begun(Started(granted)));
  }

  lemma BeginOutcome(w: World, id: string, lease: nat, now: Time, pid: nat, disk: Disk)
    ensures var (w', answer) := Perform(w, Begin(id, lease), now, pid, disk);
      !answer.Done? && Begins(w.records, w'.records, id, lease, now, AttemptIdFor(now, pid, w.nextAttempt), disk, AsStart(answer))
  {
    ReplayIsFilteredHistory(w.records, now);
    if AllValid(w.records) && !Text.Blank(id) {
      ReplayedLeases(w.records, now);
      var s := Replay(w.records, now).value;
      if id !in s.processed && id !in s.leases && Grantable(lease, now) {
        BeginGrants(w, s, id, lease, now, pid, disk);
      }
    }
  }

  lemma LeaseIsKept(s: StateSnapshot, granted: AttemptLease, now: Time)
    requires Unexpired(s.leases, now) == s.leases && granted.messageId !in s.processed && granted.expiresAt > now
    requires !Text.Blank(granted.messageId) && !Text.Blank(granted.attemptId)
    ensures AfterRecord(s, NewRecord(AttemptLeased(granted.messageId, granted.attemptId, granted.expiresAt)), now)
            == Ok(s.(leases := s.leases[granted.messageId := granted]))
  {
    var leases := s.leases[granted.messageId := granted];
    forall id | id in s.leases ensures s.leases[id].expiresAt > now { assert id in Unexpired(s.leases, now); }
    assert Unexpired(leases, now) == leases;
  }

  lemma FewerLeases(s: StateSnapshot, id: string, now: Time)
    requires Unexpired(s.leases, now) == s.leases
    ensures Unexpired(s.leases - {id}, now) == s.leases - {id}
  {
    forall x | x in s.leases ensures s.leases[x].expiresAt > now { assert x in Unexpired(s.leases, now); }
  }

  lemma ReleaseOutcome(w: World, attempt: AttemptLease, now: Time, pid: nat, disk: Disk)
    ensures var (w', answer) := Perform(w, Release(attempt), now, pid, disk);
      Releases(w.records, w'.records, attempt, now, disk, Plain(answer))
  {
    ReplayIsFilteredHistory(w.records, now);
    if AllValid(w.records) {
      ReplayedLeases(w.records, now);
      var s := Replay(w.records, now).value;
      if Owner(s, attempt) {
        FewerLeases(s, attempt.messageId, now);
        AppendExtends(w, AttemptReleased(attempt.messageId, attempt.attemptId, now), now,
                      s.(leases := s.leases - {attempt.messageId}), disk, Done);
      }
    }
  }

  lemma DeferExtends(w: World, s: StateSnapshot, attempt: AttemptLease, lease: nat, now: Time, pid: nat, disk: Disk)
    requires AllValid(w.records) && Replay(w.records, now) == Ok(s) && Unexpired(s.leases, now) == s.leases
    requires Owner(s, attempt) && attempt.messageId !in s.processed && !Text.Blank(attempt.attemptId)
    requires Grantable(lease, now)
    ensures var (w', answer) := Perform(w, Op.Defer(attempt, lease), now, pid, disk);
      Defers(w.records, w'.records, attempt, lease, now, disk, Plain(answer))
  {
    var extended := AttemptLease(attempt.messageId, attempt.attemptId, now + Requested(lease));
    LeaseIsKept(s, extended, now);
    AppendExtends(w, AttemptLeased(attempt.messageId, attempt.attemptId, extended.expiresAt), now,
                  s.(leases := s.leases[attempt.messageId := extended]), disk, Done);
  }

  lemma DeferOutcome(w: World, attempt: AttemptLease, lease: nat, now: Time, pid: nat, disk: Disk)
    ensures var (w', answer) := Perform(w, Op.Defer(attempt, lease), now, pid, disk);
      Defers(w.records, w'.records, attempt, lease, now, disk, Plain(answer))
  {
    ReplayIsFilteredHistory(w.records, now);
    if AllValid(w.records) {
      ReplayedLeases(w.records, now);
      var s := Replay(w.records, now).value;
      if Owner(s, attempt) && Grantable(lease, now) {
        DeferExtends(w, s, attempt, lease, now, pid, disk);
      }
    }
  }

  lemma MarkOutcome(w: World, attempt: AttemptLease, now: Time, pid: nat, disk: Disk)
    ensures var (w', answer) := Perform(w, Mark(attempt), now, pid, disk);
      Marks(w.records, w'.records, attempt, now, disk, Plain(answer))
  {
    ReplayIsFilteredHistory(w.records, now);
    if AllValid(w.records) {
      ReplayedLeases(w.records, now);
      var s := Replay(w.records, now).value;
      if attempt.messageId !in s.processed && Owner(s, attempt) {
        FewerLeases(s, attempt.messageId, now);
        AppendExtends(w, ProcessedMessage(attempt.messageId, now), now,
                      s.(processed := s.processed + {attempt.messageId}, leases := s.leases - {attempt.messageId}),
                      disk, Done);
      }
    }
  }

  lemma SaveOutcome(w: World, c: RoomCheckpoint, now: Time, pid: nat, disk: Disk)
    ensures var (w', answer) := Perform(w, SaveCheckpoint(c), now, pid, disk);
      Saves(w.records, w'.records, c, now, disk, Plain(answer))
  {
    ReplayIsFilteredHistory(w.records, now);
    if AllValid(w.records) && !Text.Blank(c.roomId) {
      ReplayedLeases(w.records, now);
      var s := Replay(w.records, now).value;
      AppendExtends(w, CheckpointSaved(c, now), now, s.(checkpoints := s.checkpoints[c.roomId := c]), disk, Done);
    }
  }

  // ----- the store in the source's own form -----

  class StateFile {
    var records: seq<StateRecord>

    constructor (records: seq<StateRecord>)
      ensures this.records == records
    {
      this.records := records;
    }

    method Append(record: StateRecord, disk: Disk) returns (ok: bool)
      modifies this
      ensures records == if disk.NotWritten? then old(records) else old(records) + [record]
      ensures ok == disk.Written?
    {
      if !disk.NotWritten? {
        records := records + [record];
      }
      ok := disk.Written?;
    }
  }

  class AttemptCounter {
    const pid: nat
    var next: nat

    constructor (pid: nat)
      ensures this.pid == pid && next == 1
    {
      this.pid := pid;
      next := 1;
    }

    method FetchAdd() returns (sequence: nat)
      modifies this
      ensures sequence == old(next) && next == old(next) + 1
    {
      sequence := next;
      next := next + 1;
    }
  }

  class JsonlStateStore {
    const file: StateFile
    const counter: AttemptCounter
    var snapshot: StateSnapshot

    ghost function Shared(): World
      reads file, counter
    {
      World(file.records, counter.next)
    }

    /** The snapshot is what a fresh replay of the file gives at that time. */
    ghost predicate UpToDate(now: Time)
      reads this, file
    {
      Replay(file.records, now) == Ok(snapshot)
    }

    /** Opens the log.  Repairing its tail is the subject of LogRepair.dfy. */
    constructor (file: StateFile, counter: AttemptCounter)
      ensures this.file == file && this.counter == counter
      ensures snapshot == EMPTY_SNAPSHOT
    {
      this.file, this.counter := file, counter;
      snapshot := EMPTY_SNAPSHOT;
    }

    method RefreshAt(now: Time) returns (r: Result<(), string>)
      modifies this
      ensures match Replay(file.records, now)
        case Ok(s) => r == Ok(()) && snapshot == s
        case Err(e) => r == Err(e) && snapshot == old(snapshot)
    {
      var replayed := Replay(file.records, now);
      if replayed.Err? {
        return Err(replayed.error);
      }
      snapshot := replayed.value;
      return Ok(());
    }

    method AppendAfterCurrentSnapshot(event: StateEvent, now: Time, disk: Disk) returns (r: Result<(), string>)
      requires UpToDate(now)
      modifies this, file
      ensures var (w, answer) := AppendEvent(old(Shared()), event, disk, Done);
        && Shared() == w
        && (answer == Done ==> r == Ok(()))
        && (answer.Refused? ==> r == Err(answer.error))
      ensures r.Ok? ==> UpToDate(now)
      ensures r.Err? ==> snapshot == old(snapshot)
    {
      var record := NewRecord(event);
      var next := AfterRecord(snapshot, record, now);
      if next.Err? {
        return Err(next.error);
      }
      ReplayIsFilteredHistory(file.records, now);
      AppendMatchesReplay(file.records, record, now);
      var ok := file.Append(record, disk);
      if !ok {
        return Err(WRITE_FAILED);
      }
      snapshot := next.value;
      return Ok(());
    }

    method BeginAttemptAt(messageId: string, lease: nat, now: Time, disk: Disk)
      returns (r: Result<AttemptStart, string>)
      modifies this, file, counter
      ensures var (w, answer) := Perform(old(Shared()), Begin(messageId, lease), now, counter.pid, disk);
        && Shared() == w
        && r == (if answer.Begun? then Ok(answer.start) else Err(answer.error))
      ensures r.Ok? ==> UpToDate(now)
      ensures snapshot == SnapshotAfter(old(Shared()), old(snapshot), Begin(messageId, lease), now, counter.pid, disk)
      ensures Begins(old(file.records), file.records, messageId, lease, now,
                     AttemptIdFor(now, counter.pid, old(counter.next)), disk, r)
    {
      BeginOutcome(Shared(), messageId, lease, now, counter.pid, disk);
      if Text.Blank(messageId) {
        return Err(EMPTY_MESSAGE_ID);
      }
      var refreshed := RefreshAt(now);
      if refreshed.Err? {
        return Err(refreshed.error);
      }
      if messageId in snapshot.processed {
        return Ok(Processed);
      }
      if messageId in snapshot.leases && snapshot.leases[messageId].expiresAt > now {
        return Ok(Leased(snapshot.leases[messageId].expiresAt - now));
      }
      var sequence := counter.FetchAdd();
      var expiresAt := LeaseExpiresAt(now, lease);
      if expiresAt.Err? {
        return Err(expiresAt.error);
      }
      var attempt := AttemptLease(messageId, AttemptIdFor(now, counter.pid, sequence), expiresAt.value);
      Text.AttemptTextNotBlank(now / 1000, counter.pid, sequence);
      var appended := AppendAfterCurrentSnapshot(
        AttemptLeased(messageId, attempt.attemptId, attempt.expiresAt), now, disk);
      if appended.Err? {
        return Err(appended.error);
      }
      return Ok(Started(attempt));
    }

    method EnsureAttemptOwner(attempt: AttemptLease, now: Time) returns (r: Result<(), string>)
      requires UpToDate(now)
      ensures r == if Owns(snapshot, attempt) then Ok(()) else Err(OwnerError(attempt))
    {
      if Text.Blank(attempt.messageId) {
        return Err(EMPTY_MESSAGE_ID);
      }
      ReplayIsFilteredHistory(file.records, now);
      if attempt.messageId in snapshot.leases {
        var active := snapshot.leases[attempt.messageId];
        if active.attemptId == attempt.attemptId && active.expiresAt > now {
          return Ok(());
        }
      }
      return Err(NOT_ACTIVE);
    }

    method ReleaseAttemptAt(attempt: AttemptLease, now: Time, disk: Disk) returns (r: Result<(), string>)
      modifies this, file
      ensures var (w, answer) := Perform(old(Shared()), Release(attempt), now, counter.pid, disk);
        Shared() == w && r == Plain(answer)
      ensures r.Ok? ==> UpToDate(now)
      ensures snapshot == SnapshotAfter(old(Shared()), old(snapshot), Release(attempt), now, counter.pid, disk)
      ensures Releases(old(file.records), file.records, attempt, now, disk, r)
    {
      ReleaseOutcome(Shared(), attempt, now, counter.pid, disk);
      r := RefreshAt(now);
      if r.Err? { return; }
      r := EnsureAttemptOwner(attempt, now);
      if r.Err? { return; }
      r := AppendAfterCurrentSnapshot(AttemptReleased(attempt.messageId, attempt.attemptId, now), now, disk);
    }

    method DeferAttemptAt(attempt: AttemptLease, lease: nat, now: Time, disk: Disk) returns (r: Result<(), string>)
      modifies this, file
      ensures var (w, answer) := Perform(old(Shared()), Op.Defer(attempt, lease), now, counter.pid, disk);
        Shared() == w && r == Plain(answer)
      ensures r.Ok? ==> UpToDate(now)
      ensures snapshot == SnapshotAfter(old(Shared()), old(snapshot), Op.Defer(attempt, lease), now, counter.pid, disk)
      ensures Defers(old(file.records), file.records, attempt, lease, now, disk, r)
    {
      DeferOutcome(Shared(), attempt, lease, now, counter.pid, disk);
      r := RefreshAt(now);
      if r.Err? { return; }
      r := EnsureAttemptOwner(attempt, now);
      if r.Err? { return; }
      var expiresAt := LeaseExpiresAt(now, lease);
      if expiresAt.Err? {
        return Err(expiresAt.error);
      }
      r := AppendAfterCurrentSnapshot(
        AttemptLeased(attempt.messageId, attempt.attemptId, expiresAt.value), now, disk);
    }

    method MarkProcessedAt(attempt: AttemptLease, now: Time, disk: Disk) returns (r: Result<(), string>)
      modifies this, file
      ensures var (w, answer) := Perform(old(Shared()), Mark(attempt), now, counter.pid, disk);
        Shared() == w && r == Plain(answer)
      ensures r.Ok? ==> UpToDate(now)
      ensures snapshot == SnapshotAfter(old(Shared()), old(snapshot), Mark(attempt), now, counter.pid, disk)
      ensures Marks(old(file.records), file.records, attempt, now, disk, r)
    {
      MarkOutcome(Shared(), attempt, now, counter.pid, disk);
      r := RefreshAt(now);
      if r.Err? { return; }
      if attempt.messageId in snapshot.processed {
        return Ok(());
      }
      r := EnsureAttemptOwner(attempt, now);
      if r.Err? { return; }
      r := AppendAfterCurrentSnapshot(ProcessedMessage(attempt.messageId, now), now, disk);
    }

    method SaveRoomCheckpointAt(checkpoint: RoomCheckpoint, now: Time, disk: Disk) returns (r: Result<(), string>)
      modifies this, file
      ensures var (w, answer) := Perform(old(Shared()), SaveCheckpoint(checkpoint), now, counter.pid, disk);
        Shared() == w && r == Plain(answer)
      ensures r.Ok? ==> UpToDate(now)
      ensures snapshot == SnapshotAfter(old(Shared()), old(snapshot), SaveCheckpoint(checkpoint), now, counter.pid, disk)
      ensures Saves(old(file.records), file.records, checkpoint, now, disk, r)
    {
      SaveOutcome(Shared(), checkpoint, now, counter.pid, disk);
      r := RefreshAt(now);
      if r.Err? { return; }
      r := AppendAfterCurrentSnapshot(CheckpointSaved(checkpoint, now), now, disk);
    }

    /** Saves a batch's checkpoints one record after another; a failure leaves the first `count` of them
        saved and the snapshot the replay of those whose append succeeded.  `disks` tells what becomes of
        each append. */
    method SaveRoomCheckpoints(saved: seq<RoomCheckpoint>, now: Time, disks: nat -> Disk)
      returns (r: Result<(), string>, ghost count: nat, ghost known: nat)
      modifies this, file
      ensures known <= count <= |saved| && count <= known + 1
      ensures r.Ok? ==> known == |saved| && UpToDate(now)
      ensures file.records == old(file.records) + CheckpointRecords(saved[..count], now)
      ensures var replayed := Replay(old(file.records) + CheckpointRecords(saved[..known], now), now);
        if Replay(old(file.records), now).Ok? then replayed == Ok(snapshot) else known == 0 && snapshot == old(snapshot)
      ensures count > known ==> disks(known).WrittenThenFailed?
    {
      count, known := 0, 0;
      assert file.records == old(file.records) + CheckpointRecords(saved[..0], now);
      r := RefreshAt(now);
      if r.Err? { return; }
      for i := 0 to |saved|
        invariant count == known == i && UpToDate(now)
        invariant file.records == old(file.records) + CheckpointRecords(saved[..i], now)
      {
        var event := CheckpointSaved(saved[i], now);
        r := AppendAfterCurrentSnapshot(event, now, disks(i));
        assert CheckpointRecords(saved[..i + 1], now) == CheckpointRecords(saved[..i], now) + [NewRecord(event)];
        if RecordError(NewRecord(event)).None? && !disks(i).NotWritten? {
          count := i + 1;
        }
        if r.Err? { return; }
        known := i + 1;
      }
      r := Ok(());
    }
  }
}
