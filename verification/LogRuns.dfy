// The state store over the bytes of its file: every operation repairs the tail, replays what is left and
// appends at most one record, of which a crash may leave any first part.  Seen through its records this is
// a run of LeaseProtocol.dfy, so what holds for those runs holds for the bytes.

module LogRuns {
  import opened Wrappers
  import opened StateLog
  import opened StateStore
  import opened LogBytes
  import opened LogRepair
  import opened PollerModel
  import LeaseProtocol
  import Text

  /** The file, and the next number of the process's attempt counter. */
  datatype FileWorld = FileWorld(bytes: seq<byte>, nextAttempt: nat)

  /** One operation, of whose append `kept` bytes reach the file, or the start of a new process. */
  datatype Moment =
    | Operation(op: Op, now: Time, pid: nat, kept: nat, ok: bool)
    | Restart(now: Time)

  ghost function WorldOf(c: Codec, f: FileWorld): World
    requires Readable(c, f.bytes)
  {
    World(Scan(c, f.bytes).value.records, f.nextAttempt)
  }

  /** What the operation would do if its write succeeds. */
  ghost function IfWritten(c: Codec, f: FileWorld, m: Moment): (World, Answer)
    requires Readable(c, f.bytes) && m.Operation?
  {
    Perform(WorldOf(c, f), m.op, m.now, m.pid, Written)
  }

  /** The bytes the operation sets out to append. */
  ghost function Added(c: Codec, f: FileWorld, m: Moment): seq<byte>
    requires Readable(c, f.bytes) && m.Operation?
  {
    var records := IfWritten(c, f, m).0.records;
    if records == WorldOf(c, f).records || records == [] then []
    else AppendedBytes(c, Repaired(c, f.bytes), records[|records| - 1])
  }

  ghost predicate Possible(c: Codec, f: FileWorld, m: Moment)
    requires Readable(c, f.bytes)
  {
    m.Operation? ==> m.kept <= |Added(c, f, m)| && (m.ok ==> m.kept == |Added(c, f, m)|)
  }

  ghost function Next(c: Codec, f: FileWorld, m: Moment): FileWorld
    requires Readable(c, f.bytes) && Possible(c, f, m)
  {
    match m
    case Restart(_) => FileWorld(f.bytes, 1)
    case Operation(op, _, _, kept, _) =>
      if RefusedAtOnce(op) then f
      else FileWorld(Repaired(c, f.bytes) + Added(c, f, m)[..kept], IfWritten(c, f, m).0.nextAttempt)
  }

  ghost function AnswerOf(c: Codec, f: FileWorld, m: Moment): Answer
    requires Readable(c, f.bytes) && m.Operation?
  {
    if Added(c, f, m) == [] || m.ok then IfWritten(c, f, m).1 else Refused(WRITE_FAILED)
  }

  /** What the cut comes to for the record: it is there once its text is. */
  ghost function DiskOf(c: Codec, f: FileWorld, m: Moment): Disk
    requires Readable(c, f.bytes) && m.Operation?
  {
    if m.ok then Written else if m.kept + 1 < |Added(c, f, m)| then NotWritten else WrittenThenFailed
  }

  ghost function Seen(c: Codec, f: FileWorld, m: Moment): LeaseProtocol.Moment
    requires Readable(c, f.bytes)
  {
    match m
    case Restart(now) => LeaseProtocol.Restart(now)
    case Operation(op, now, pid, _, _) => LeaseProtocol.Operation(op, now, DiskOf(c, f, m), pid)
  }

  // ----- one operation -----

  /** The disk decides only whether the record is there and what is answered. */
  lemma DiskDecides(w: World, op: Op, now: Time, pid: nat, disk: Disk)
    ensures var (wanted, answer) := Perform(w, op, now, pid, Written);
      var (w', answer') := Perform(w, op, now, pid, disk);
      if wanted.records == w.records then (w', answer') == (wanted, answer)
      else
        && w' == (if disk.NotWritten? then World(w.records, wanted.nextAttempt) else wanted)
        && answer' == (if disk.Written? then answer else Refused(WRITE_FAILED))
  {
  }

  /** A file that is repaired holds the same records, and those are all of it. */
  lemma RepairedIsWhole(c: Codec, bytes: seq<byte>)
    requires Readable(c, bytes)
    ensures Whole(c, Repaired(c, bytes), Scan(c, bytes).value.records) && Readable(c, Repaired(c, bytes))
  {
    RepairKeepsLines(c, bytes);
  }

  lemma CutReads(c: Codec, bytes: seq<byte>, records: seq<StateRecord>, record: StateRecord, k: nat)
    requires GoodCodec(c) && Whole(c, bytes, records) && AllValid(records) && RecordError(record).None?
    requires k <= |AppendedBytes(c, bytes, record)|
    ensures var cut := bytes + AppendedBytes(c, bytes, record)[..k];
      && Readable(c, cut)
      && Scan(c, cut).value.records == if k + 1 < |AppendedBytes(c, bytes, record)| then records else records + [record]
  {
    AppendIsAtomic(c, bytes, records, record, k);
    RepairKeepsLines(c, bytes + AppendedBytes(c, bytes, record)[..k]);
  }

  /** Each operation on the bytes, wherever it is cut off, is one of the protocol's on the records. */
  lemma OperationIsSeen(c: Codec, f: FileWorld, m: Moment)
    requires GoodCodec(c) && Readable(c, f.bytes) && Possible(c, f, m) && m.Operation?
    ensures Readable(c, Next(c, f, m).bytes)
    ensures (WorldOf(c, Next(c, f, m)), AnswerOf(c, f, m)) == Perform(WorldOf(c, f), m.op, m.now, m.pid, DiskOf(c, f, m))
  {
    var w := WorldOf(c, f);
    DiskDecides(w, m.op, m.now, m.pid, DiskOf(c, f, m));
    RepairedIsWhole(c, f.bytes);
    LeaseProtocol.PerformAppends(w, m.op, m.now, m.pid, Written);
    var wanted := IfWritten(c, f, m).0;
    if wanted.records != w.records {
      var record := wanted.records[|w.records|];
      assert wanted.records == w.records + [record];
      CutReads(c, Repaired(c, f.bytes), w.records, record, m.kept);
    } else if !RefusedAtOnce(m.op) {
      assert Repaired(c, f.bytes) + [] == Repaired(c, f.bytes);
    }
  }

  // ----- runs -----

  ghost predicate Run(c: Codec, files: seq<FileWorld>, moments: seq<Moment>) {
    && |files| == |moments| + 1 && Readable(c, files[0].bytes)
    && (forall i {:trigger moments[i]} :: 0 <= i < |moments| ==>
          Readable(c, files[i].bytes) ==> Possible(c, files[i], moments[i]) && files[i + 1] == Next(c, files[i], moments[i]))
    && (forall i, j :: 0 <= i <= j < |moments| ==> moments[i].now <= moments[j].now)
  }

  lemma {:induction false} RunIsReadable(c: Codec, files: seq<FileWorld>, moments: seq<Moment>, i: nat)
    requires GoodCodec(c) && Run(c, files, moments) && i < |files|
    ensures Readable(c, files[i].bytes)
  {
    if i > 0 {
      RunIsReadable(c, files, moments, i - 1);
      assert Possible(c, files[i - 1], moments[i - 1]);
      if moments[i - 1].Operation? {
        OperationIsSeen(c, files[i - 1], moments[i - 1]);
      }
    }
  }

  /** A run over bytes, with appends cut off anywhere, is a run of the protocol with the same answers; in
      each state the records are what repairing and reading the file gives. */
  lemma RunIsSeen(c: Codec, files: seq<FileWorld>, moments: seq<Moment>)
    returns (worlds: seq<World>, seen: seq<LeaseProtocol.Moment>)
    requires GoodCodec(c) && Run(c, files, moments)
    ensures LeaseProtocol.Run(worlds, seen) && |worlds| == |files| && |seen| == |moments|
    ensures forall i :: 0 <= i < |files| ==> Readable(c, files[i].bytes) && worlds[i] == WorldOf(c, files[i])
    ensures forall i :: 0 <= i < |moments| ==> seen[i].now == moments[i].now
    ensures forall i :: 0 <= i < |moments| && moments[i].Operation? ==>
              seen[i].Operation? && LeaseProtocol.AnswerAt(worlds, seen, i) == AnswerOf(c, files[i], moments[i])
  {
    forall i | 0 <= i < |files| ensures Readable(c, files[i].bytes) { RunIsReadable(c, files, moments, i); }
    worlds := seq(|files|, i requires 0 <= i < |files| => WorldOf(c, files[i]));
    seen := seq(|moments|, i requires 0 <= i < |moments| => Seen(c, files[i], moments[i]));
    forall i | 0 <= i < |moments|
      ensures worlds[i + 1] == LeaseProtocol.Next(worlds[i], seen[i]) && seen[i].now == moments[i].now
      ensures moments[i].Operation? ==>
                seen[i].Operation? && LeaseProtocol.AnswerAt(worlds, seen, i) == AnswerOf(c, files[i], moments[i])
    {
      assert Possible(c, files[i], moments[i]);
      if moments[i].Operation? {
        OperationIsSeen(c, files[i], moments[i]);
      }
    }
  }

  /** For example: over the bytes, too, a log that holds at most one processed record for a message never
      gets a second. */
  lemma ProcessedOnceInFile(c: Codec, files: seq<FileWorld>, moments: seq<Moment>, id: string, i: nat)
    requires GoodCodec(c) && Run(c, files, moments) && i < |files|
    requires LeaseProtocol.ProcessedCount(Scan(c, files[0].bytes).value.records, id) <= 1
    ensures Readable(c, files[i].bytes) && LeaseProtocol.ProcessedCount(Scan(c, files[i].bytes).value.records, id) <= 1
  {
    var worlds, seen := RunIsSeen(c, files, moments);
    LeaseProtocol.ProcessedOnce(worlds, seen, id, i);
  }

  /** And two starts of one message mean that in between the first one's token was released or its last
      lease ran out. */
  lemma SecondStartInFile(c: Codec, files: seq<FileWorld>, moments: seq<Moment>, a: AttemptLease, b: AttemptLease, i: nat, j: nat)
    returns (worlds: seq<World>)
    requires GoodCodec(c) && Run(c, files, moments) && i < j < |moments|
    requires moments[i].Operation? && moments[j].Operation? && a.messageId == b.messageId
    requires Readable(c, files[i].bytes) && AnswerOf(c, files[i], moments[i]) == Begun(Started(a))
    requires Readable(c, files[j].bytes) && AnswerOf(c, files[j], moments[j]) == Begun(Started(b))
    ensures |worlds| == |files|
    ensures forall k :: 0 <= k < |files| ==> Readable(c, files[k].bytes) && worlds[k] == WorldOf(c, files[k])
    ensures LeaseProtocol.Released(worlds, a, i, j) || LeaseProtocol.Granted(worlds, a, i, j) <= moments[j].now
  {
    var seen;
    worlds, seen := RunIsSeen(c, files, moments);
    assert LeaseProtocol.AnswerAt(worlds, seen, i) == Begun(Started(a));
    assert LeaseProtocol.AnswerAt(worlds, seen, j) == Begun(Started(b));
    LeaseProtocol.SecondStartNeedsEnd(worlds, seen, a, b, i, j);
  }

  // ----- checkpoints -----

  ghost function Checkpoints(c: Codec, f: FileWorld): map<RoomId, RoomCheckpoint>
    requires Readable(c, f.bytes)
  {
    History(WorldOf(c, f).records).checkpoints
  }

  lemma SaveRecords(w: World, saved: RoomCheckpoint, now: Time, pid: nat, disk: Disk)
    requires AllValid(w.records)
    ensures History(Perform(w, SaveCheckpoint(saved), now, pid, disk).0.records).checkpoints
            == if Text.Blank(saved.roomId) || disk.NotWritten? then History(w.records).checkpoints
               else History(w.records).checkpoints[saved.roomId := saved]
  {
    ReplayIsFilteredHistory(w.records, now);
    var longer := w.records + [NewRecord(CheckpointSaved(saved, now))];
    assert longer[..|longer| - 1] == w.records;
  }

  /** Saving one checkpoint, cut off anywhere, leaves the old checkpoints or those with it; if it succeeds,
      those with it. */
  lemma OneSaved(c: Codec, f: FileWorld, m: Moment, saved: RoomCheckpoint)
    requires GoodCodec(c) && Readable(c, f.bytes) && Possible(c, f, m)
    requires m.Operation? && m.op == SaveCheckpoint(saved)
    ensures Readable(c, Next(c, f, m).bytes)
    ensures var after := Checkpoints(c, Next(c, f, m));
      && (after == Checkpoints(c, f) || after == Checkpoints(c, f)[saved.roomId := saved])
      && (m.ok && !Text.Blank(saved.roomId) ==> after == Checkpoints(c, f)[saved.roomId := saved])
  {
    OperationIsSeen(c, f, m);
    SaveRecords(WorldOf(c, f), saved, m.now, m.pid, DiskOf(c, f, m));
  }

  /** Saving a batch's checkpoints one after another, until one fails or the process ends, leaves the file
      with a first part of them saved: what Durable.dfy takes a batch to leave behind. */
  lemma {:induction false} FirstPartIsSaved(c: Codec, files: seq<FileWorld>, moments: seq<Moment>, saved: seq<RoomCheckpoint>)
    returns (n: nat)
    requires GoodCodec(c) && Run(c, files, moments) && |moments| <= |saved|
    requires forall i {:trigger moments[i]} :: 0 <= i < |moments| ==>
               moments[i].Operation? && moments[i].op == SaveCheckpoint(saved[i])
    requires forall i {:trigger moments[i]} :: 0 <= i < |moments| - 1 ==> moments[i].ok
    requires forall i :: 0 <= i < |saved| ==> !Text.Blank(saved[i].roomId)
    ensures Readable(c, files[0].bytes) && Readable(c, files[|moments|].bytes)
    ensures |moments| - 1 <= n <= |moments| && (moments != [] && moments[|moments| - 1].ok ==> n == |moments|)
    ensures Checkpoints(c, files[|moments|]) == SaveAll(Checkpoints(c, files[0]), saved[..n])
  {
    var last := |moments|;
    RunIsReadable(c, files, moments, last);
    if last == 0 {
      n := 0;
    } else {
      var before := FirstPartIsSaved(c, files[..last], moments[..last - 1], saved);
      assert moments[..last - 1] != [] ==> moments[last - 2].ok;
      RunIsReadable(c, files, moments, last - 1);
      assert Possible(c, files[last - 1], moments[last - 1]);
      OneSaved(c, files[last - 1], moments[last - 1], saved[last - 1]);
      assert saved[..last][..last - 1] == saved[..last - 1];
      n := if Checkpoints(c, files[last]) == Checkpoints(c, files[last - 1])[saved[last - 1].roomId := saved[last - 1]]
           then last else last - 1;
    }
  }

  // ----- the store in the source's own form -----

  class FileStore {
    const file: LogFile
    var snapshot: StateSnapshot

    constructor (file: LogFile)
      ensures this.file == file && snapshot == EMPTY_SNAPSHOT
    {
      this.file, snapshot := file, EMPTY_SNAPSHOT;
    }

    /** Repairs the tail and replays what is left: the snapshot is the replay of the repaired bytes, and
        holds the records the file held before. */
    method RefreshAt(c: Codec, now: Time) returns (r: Result<(), ParseError>)
      modifies this, file
      ensures file.present == old(file.present)
      ensures r.Ok? <==> !file.present || Readable(c, old(file.bytes))
      ensures r.Err? ==> snapshot == old(snapshot) && file.bytes == old(file.bytes)
      ensures r.Ok? && !file.present ==> snapshot == EMPTY_SNAPSHOT && file.bytes == old(file.bytes)
      ensures r.Ok? && file.present ==>
                && file.bytes == Repaired(c, old(file.bytes))
                && Replay(Scan(c, old(file.bytes)).value.records, now) == Ok(snapshot)
                && Whole(c, file.bytes, Scan(c, old(file.bytes)).value.records)
    {
      var repaired := file.RepairIncompleteTail(c, now);
      if repaired.Err? {
        return Err(repaired.error);
      }
      if file.present {
        RepairedIsWhole(c, old(file.bytes));
      }
      var loaded := file.LoadAt(c, now);
      match loaded {
        case Ok(replayed) =>
          snapshot := replayed;
          return Ok(());
        case Err(error) => return Err(error);
      }
    }
  }
}
