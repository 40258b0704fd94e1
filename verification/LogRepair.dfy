// What tail repair and appending promise about the bytes of the state log, wherever a crash cuts an
// append off (`repair_incomplete_tail`, `append_state_record`, `ensure_trailing_newline` in
// src/state.rs).

module LogRepair {
  import opened Wrappers
  import opened StateLog
  import opened LogBytes

  // ----- the records of a file -----

  /** The records of a file, in order, and how many of its bytes they take up; the rest is a torn tail. */
  datatype Scanned = Scanned(records: seq<StateRecord>, validLength: nat)

  ghost function Prepend(records: seq<StateRecord>, n: nat, r: Option<Scanned>): Option<Scanned> {
    if r.None? then None else Some(Scanned(records + r.value.records, n + r.value.validLength))
  }

  ghost function Records(content: Content): seq<StateRecord> {
    if content.Record? then [content.record] else []
  }

  /** None if some line that ends in a newline is neither blank nor a record. */
  ghost function ScanLines(c: Codec, t: Lines): Option<Scanned> {
    match t
    case Tail(last) =>
      if last == [] || c.parse(last).Malformed? then Some(Scanned([], 0))
      else Some(Scanned(Records(c.parse(last)), |last|))
    case Line(line, rest) =>
      if c.parse(line).Malformed? then None
      else Prepend(Records(c.parse(line)), |line| + 1, ScanLines(c, rest))
  }

  ghost function Scan(c: Codec, bytes: seq<byte>): Option<Scanned> {
    ScanLines(c, Split(bytes))
  }

  ghost predicate Readable(c: Codec, bytes: seq<byte>) {
    Scan(c, bytes).Some? && AllValid(Scan(c, bytes).value.records)
  }

  // ----- a parse is a replay -----

  /** The parse of lines after the records `before` gives the replay of both. */
  ghost predicate Replays(c: Codec, t: Lines, before: seq<StateRecord>, lineNumber: nat, now: Time) {
    var r := ParseLines(c, t, Live(History(before), now), lineNumber, now, true);
    var scanned := ScanLines(c, t);
    && (r.Ok? <==> scanned.Some? && AllValid(scanned.value.records))
    && (r.Ok? ==> r.value == (Live(History(before + scanned.value.records), now), scanned.value.validLength))
  }

  lemma AbsorbReplays(before: seq<StateRecord>, content: Content, lineNumber: nat, now: Time)
    requires !content.Malformed?
    ensures var r := Absorb(Live(History(before), now), content, lineNumber, now);
      && (r.Ok? <==> AllValid(Records(content)))
      && (r.Ok? ==> r.value == Live(History(before + Records(content)), now))
  {
    match content {
      case Blank => assert before + [] == before;
      case Record(record) =>
        if RecordError(record).None? {
          ApplyLive(History(before), record, now);
        }
        assert (before + [record])[..|before|] == before;
        assert [record][0] == record;
    }
  }

  lemma ValidTogether(a: seq<StateRecord>, b: seq<StateRecord>)
    ensures AllValid(a + b) <==> AllValid(a) && AllValid(b)
  {
    assert forall i :: 0 <= i < |a| ==> (a + b)[i] == a[i];
    assert forall i :: 0 <= i < |b| ==> (a + b)[|a| + i] == b[i];
  }

  lemma {:induction false} LinesReplay(c: Codec, t: Lines, before: seq<StateRecord>, lineNumber: nat, now: Time)
    ensures Replays(c, t, before, lineNumber, now)
  {
    match t {
      case Tail(last) =>
        if last == [] || c.parse(last).Malformed? {
          assert before + [] == before;
        } else {
          AbsorbReplays(before, c.parse(last), lineNumber, now);
        }
      case Line(line, rest) =>
        LinesReplay(c, rest, before + Records(c.parse(line)), lineNumber + 1, now);
        OneMoreLine(c, line, rest, before, lineNumber, now);
    }
  }

  lemma OneMoreLine(c: Codec, line: seq<byte>, rest: Lines, before: seq<StateRecord>, lineNumber: nat, now: Time)
    requires Replays(c, rest, before + Records(c.parse(line)), lineNumber + 1, now)
    ensures Replays(c, Line(line, rest), before, lineNumber, now)
  {
    var content := c.parse(line);
    if !content.Malformed? {
      AbsorbReplays(before, content, lineNumber, now);
      if ScanLines(c, rest).Some? {
        ValidTogether(Records(content), ScanLines(c, rest).value.records);
      }
      ParseOneMore(c, line, rest, Live(History(before), now), lineNumber, now);
      HistoryTogether(c, rest, before, Records(content), now);
    }
  }

  /** The parse of a line and the rest, without looking into the snapshots. */
  lemma ParseOneMore(c: Codec, line: seq<byte>, rest: Lines, s: StateSnapshot, lineNumber: nat, now: Time)
    requires !c.parse(line).Malformed?
    ensures var r := Absorb(s, c.parse(line), lineNumber, now);
      ParseLines(c, Line(line, rest), s, lineNumber, now, true)
      == if r.Err? then Err(r.error)
         else Advanced(ParseLines(c, rest, r.value, lineNumber + 1, now, true), |line| + 1)
    ensures ScanLines(c, Line(line, rest)) == Prepend(Records(c.parse(line)), |line| + 1, ScanLines(c, rest))
  {
  }

  lemma HistoryTogether(c: Codec, rest: Lines, before: seq<StateRecord>, own: seq<StateRecord>, now: Time)
    ensures ScanLines(c, rest).Some? ==>
      History(before + (own + ScanLines(c, rest).value.records))
      == History(before + own + ScanLines(c, rest).value.records)
  {
    if ScanLines(c, rest).Some? {
      assert before + (own + ScanLines(c, rest).value.records) == before + own + ScanLines(c, rest).value.records;
    }
  }

  /** Parsing a file gives the replay of its records; it fails exactly when a complete line is no
      record or a record is not valid. */
  lemma ParseReplaysRecords(c: Codec, bytes: seq<byte>, now: Time)
    ensures var r := ParseSnapshot(c, bytes, now, true);
      && (r.Ok? <==> Readable(c, bytes))
      && (r.Ok? ==>
            && Replay(Scan(c, bytes).value.records, now) == Ok(r.value.0)
            && r.value.1 == Scan(c, bytes).value.validLength)
  {
    LiveIsSame(EMPTY_SNAPSHOT, now);
    LinesReplay(c, Split(bytes), [], 1, now);
    if Readable(c, bytes) {
      var records := Scan(c, bytes).value.records;
      assert [] + records == records;
      LiveAgain(History(records), now, now);
      ReplayIsFilteredHistory(records, now);
    }
  }

  // ----- repair -----

  /** The lines a repair keeps. */
  ghost function Trimmed(c: Codec, t: Lines): Lines {
    match t
    case Tail(last) => if c.parse(last).Malformed? then Tail([]) else t
    case Line(line, rest) => Line(line, Trimmed(c, rest))
  }

  ghost function Last(t: Lines): seq<byte> {
    match t
    case Tail(last) => last
    case Line(_, rest) => Last(rest)
  }

  lemma {:induction false} ScanLength(c: Codec, t: Lines)
    requires WellFormed(t) && ScanLines(c, t).Some?
    ensures var n := ScanLines(c, t).value.validLength;
      && n <= |Join(t)|
      && Join(Trimmed(c, t)) == Join(t)[..n]
      && WellFormed(Trimmed(c, t))
      && ScanLines(c, Trimmed(c, t)) == Some(Scanned(ScanLines(c, t).value.records, n))
      && (Trimmed(c, t) == t || Last(Trimmed(c, t)) == [])
      && NEWLINE !in Join(t)[n..]
  {
    match t {
      case Tail(last) =>
        assert last[..|last|] == last && last[..0] == [] && last[0..] == last;
      case Line(line, rest) =>
        ScanLength(c, rest);
        var n := ScanLines(c, rest).value.validLength;
        SliceAfter(line + [NEWLINE], Join(rest), n);
    }
  }

  lemma SliceAfter(head: seq<byte>, tail: seq<byte>, n: nat)
    requires n <= |tail|
    ensures (head + tail)[..|head| + n] == head + tail[..n]
    ensures (head + tail)[|head| + n..] == tail[n..]
  {
  }

  ghost function Repaired(c: Codec, bytes: seq<byte>): seq<byte>
    requires Scan(c, bytes).Some?
  {
    Join(Trimmed(c, Split(bytes)))
  }

  /** The file reads back to its end with these records. */
  ghost predicate Whole(c: Codec, bytes: seq<byte>, records: seq<StateRecord>) {
    Scan(c, bytes) == Some(Scanned(records, |bytes|))
  }

  ghost predicate Closed(bytes: seq<byte>) {
    bytes == [] || bytes[|bytes| - 1] == NEWLINE
  }

  lemma {:induction false} ClosedIsNoTail(t: Lines)
    requires WellFormed(t)
    ensures Closed(Join(t)) <==> Last(t) == []
    ensures Join(t) == [] ==> t == Tail([])
  {
    match t {
      case Tail(last) =>
        if last != [] {
          assert last[|last| - 1] in last;
        }
      case Line(line, rest) =>
        ClosedIsNoTail(rest);
        var bytes := line + [NEWLINE] + Join(rest);
        if Join(rest) != [] {
          assert bytes[|bytes| - 1] == Join(rest)[|Join(rest)| - 1];
        } else {
          assert bytes[|bytes| - 1] == NEWLINE;
        }
    }
  }

  /** What repair keeps and cuts: it cuts the file to its valid length, which reads back whole with the
      same records and ends at a line boundary; what it cuts off holds no newline; and repairing again
      changes nothing. */
  lemma RepairKeepsLines(c: Codec, bytes: seq<byte>)
    requires Scan(c, bytes).Some?
    ensures var r := Repaired(c, bytes); var n := Scan(c, bytes).value.validLength;
      && n <= |bytes| && r == bytes[..n]
      && Whole(c, r, Scan(c, bytes).value.records)
      && (r == bytes || Closed(r))
      && NEWLINE !in bytes[n..]
      && Scan(c, r).Some? && Repaired(c, r) == r
  {
    var t := Split(bytes);
    JoinOfSplit(bytes);
    ScanLength(c, t);
    SplitOfJoin(Trimmed(c, t));
    ClosedIsNoTail(Trimmed(c, t));
    TrimmedTwice(c, t);
  }

  lemma {:induction false} TrimmedTwice(c: Codec, t: Lines)
    ensures Trimmed(c, Trimmed(c, t)) == Trimmed(c, t)
  {
    if t.Line? {
      TrimmedTwice(c, t.rest);
    }
  }

  // ----- appending -----

  /** The bytes an append adds to a file that has been repaired. */
  function AppendedBytes(c: Codec, bytes: seq<byte>, record: StateRecord): seq<byte> {
    (if bytes != [] && bytes[|bytes| - 1] != NEWLINE then [NEWLINE] else []) + c.encode(record) + [NEWLINE]
  }

  /** Lines followed by more lines: the last one runs on into the first of `more`. */
  ghost function Follow(t: Lines, more: Lines): Lines {
    match t
    case Tail(last) =>
      (match more
       case Tail(tail) => Tail(last + tail)
       case Line(line, rest) => Line(last + line, rest))
    case Line(line, rest) => Line(line, Follow(rest, more))
  }

  lemma {:induction false} JoinFollow(t: Lines, more: Lines)
    requires WellFormed(t) && WellFormed(more)
    ensures Join(Follow(t, more)) == Join(t) + Join(more) && WellFormed(Follow(t, more))
  {
    match t {
      case Tail(last) =>
        if more.Line? {
          assert last + more.line + [NEWLINE] + Join(more.rest) == last + (more.line + [NEWLINE] + Join(more.rest));
        }
      case Line(line, rest) =>
        JoinFollow(rest, more);
        assert line + [NEWLINE] + (Join(rest) + Join(more)) == line + [NEWLINE] + Join(rest) + Join(more);
    }
  }

  lemma PrependTwice(a: seq<StateRecord>, n: nat, b: seq<StateRecord>, m: nat, r: Option<Scanned>)
    ensures Prepend(a, n, Prepend(b, m, r)) == Prepend(a + b, n + m, r)
  {
    if r.Some? {
      assert a + (b + r.value.records) == a + b + r.value.records;
    }
  }

  /** A whole file followed by more, after its last line has been ended if it was not. */
  lemma {:induction false} ScanFollow(c: Codec, t: Lines, records: seq<StateRecord>, more: Lines)
    requires c.parse([]) == Blank
    requires WellFormed(t) && ScanLines(c, t) == Some(Scanned(records, |Join(t)|))
    ensures Last(t) == [] ==> ScanLines(c, Follow(t, more)) == Prepend(records, |Join(t)|, ScanLines(c, more))
    ensures Last(t) != [] ==>
      ScanLines(c, Follow(t, Line([], more))) == Prepend(records, |Join(t)| + 1, ScanLines(c, more))
  {
    match t {
      case Tail(last) =>
        if last == [] {
          assert more.Tail? ==> [] + more.last == more.last;
          assert more.Line? ==> [] + more.line == more.line;
          if ScanLines(c, more).Some? {
            assert [] + ScanLines(c, more).value.records == ScanLines(c, more).value.records;
          }
        } else {
          assert last + [] == last;
        }
      case Line(line, rest) =>
        var scanned := ScanLines(c, rest).value;
        ScanFollow(c, rest, scanned.records, more);
        PrependTwice(Records(c.parse(line)), |line| + 1, scanned.records, |Join(rest)|, ScanLines(c, more));
        PrependTwice(Records(c.parse(line)), |line| + 1, scanned.records, |Join(rest)| + 1, ScanLines(c, more));
    }
  }

  /** A written record, cut anywhere. */
  ghost function CutRecord(c: Codec, record: StateRecord, k: nat): Lines
    requires k <= |c.encode(record)| + 1
  {
    if k <= |c.encode(record)| then Tail(c.encode(record)[..k]) else Line(c.encode(record), Tail([]))
  }

  lemma CutRecordScans(c: Codec, record: StateRecord, k: nat)
    requires GoodCodec(c) && k <= |c.encode(record)| + 1
    ensures var t := CutRecord(c, record, k);
      && WellFormed(t)
      && Join(t) == (c.encode(record) + [NEWLINE])[..k]
      && ScanLines(c, t) == Some(if k < |c.encode(record)| then Scanned([], 0) else Scanned([record], k))
  {
    var text := c.encode(record);
    if k <= |text| {
      assert (text + [NEWLINE])[..k] == text[..k];
      assert text[..|text|] == text;
    } else {
      assert (text + [NEWLINE])[..k] == text + [NEWLINE] + [];
      assert [record] + [] == [record];
    }
  }

  lemma ScanAs(c: Codec, bytes: seq<byte>, t: Lines)
    requires WellFormed(t) && Join(t) == bytes
    ensures Scan(c, bytes) == ScanLines(c, t)
  {
    SplitOfJoin(t);
  }

  /** Adding a record cut at `k` to a file whose last line has ended. */
  lemma CutAfterNewline(c: Codec, t: Lines, records: seq<StateRecord>, record: StateRecord, k: nat)
    requires GoodCodec(c) && WellFormed(t) && ScanLines(c, t) == Some(Scanned(records, |Join(t)|))
    requires Last(t) == [] && k <= |c.encode(record)| + 1
    ensures var scanned := Scan(c, Join(t) + (c.encode(record) + [NEWLINE])[..k]);
      && scanned.Some?
      && scanned.value.records == if k < |c.encode(record)| then records else records + [record]
  {
    var more := CutRecord(c, record, k);
    CutRecordScans(c, record, k);
    JoinFollow(t, more);
    ScanFollow(c, t, records, more);
    ScanAs(c, Join(t) + (c.encode(record) + [NEWLINE])[..k], Follow(t, more));
    assert records + [] == records;
  }

  /** Adding a newline and a record cut at `k` to a file whose last line has not ended. */
  lemma CutAfterTail(c: Codec, t: Lines, records: seq<StateRecord>, record: StateRecord, k: nat)
    requires GoodCodec(c) && WellFormed(t) && ScanLines(c, t) == Some(Scanned(records, |Join(t)|))
    requires Last(t) != [] && k <= |c.encode(record)| + 1
    ensures var scanned := Scan(c, Join(t) + ([NEWLINE] + (c.encode(record) + [NEWLINE])[..k]));
      && scanned.Some?
      && scanned.value.records == if k < |c.encode(record)| then records else records + [record]
  {
    var more := CutRecord(c, record, k);
    CutRecordScans(c, record, k);
    assert [] + [NEWLINE] + Join(more) == [NEWLINE] + (c.encode(record) + [NEWLINE])[..k];
    JoinFollow(t, Line([], more));
    ScanFollow(c, t, records, more);
    ScanAs(c, Join(t) + ([NEWLINE] + (c.encode(record) + [NEWLINE])[..k]), Follow(t, Line([], more)));
    assert records + [] == records;
  }

  /** The scan of a file that an append was cut short on. */
  lemma CutAppendScans(c: Codec, bytes: seq<byte>, records: seq<StateRecord>, record: StateRecord, k: nat)
    requires GoodCodec(c) && Whole(c, bytes, records)
    requires k <= |AppendedBytes(c, bytes, record)|
    ensures var scanned := Scan(c, bytes + AppendedBytes(c, bytes, record)[..k]);
      && scanned.Some?
      && scanned.value.records
         == if k < |AppendedBytes(c, bytes, record)| - 1 then records else records + [record]
  {
    JoinOfSplit(bytes);
    ClosedIsNoTail(Split(bytes));
    CutOfAppended(c, bytes, record, k);
    if Closed(bytes) {
      CutAfterNewline(c, Split(bytes), records, record, k);
    } else if k == 0 {
      assert bytes + [] == bytes;
    } else {
      CutAfterTail(c, Split(bytes), records, record, k - 1);
    }
  }

  lemma CutOfAppended(c: Codec, bytes: seq<byte>, record: StateRecord, k: nat)
    requires k <= |AppendedBytes(c, bytes, record)|
    ensures var text := c.encode(record) + [NEWLINE];
      && |AppendedBytes(c, bytes, record)| == |text| + (if Closed(bytes) then 0 else 1)
      && AppendedBytes(c, bytes, record)[..k]
         == if Closed(bytes) then text[..k] else if k == 0 then [] else [NEWLINE] + text[..k - 1]
  {
  }

  /** The lines of a file; what follows the last newline is one if it is not empty. */
  ghost function LinesOf(t: Lines): seq<seq<byte>> {
    match t
    case Tail(last) => if last == [] then [] else [last]
    case Line(line, rest) => [line] + LinesOf(rest)
  }

  lemma {:induction false} LinesFollow(t: Lines, more: Lines)
    requires more.Line?
    ensures Last(t) == [] ==> LinesOf(Follow(t, more)) == LinesOf(t) + LinesOf(more)
    ensures Last(t) != [] ==> LinesOf(Follow(t, Line([], more))) == LinesOf(t) + LinesOf(more)
  {
    match t {
      case Tail(last) =>
        if last == [] {
          assert [] + more.line == more.line;
        } else {
          assert last + [] == last;
        }
      case Line(_, rest) => LinesFollow(rest, more);
    }
  }

  lemma LinesJoined(t: Lines, more: Lines)
    requires WellFormed(t) && WellFormed(more) && more.Line?
    ensures Last(t) == [] ==> LinesOf(Split(Join(t) + Join(more))) == LinesOf(t) + LinesOf(more)
    ensures Last(t) != [] ==> LinesOf(Split(Join(t) + Join(Line([], more)))) == LinesOf(t) + LinesOf(more)
  {
    LinesFollow(t, more);
    JoinFollow(t, more);
    SplitOfJoin(Follow(t, more));
    JoinFollow(t, Line([], more));
    SplitOfJoin(Follow(t, Line([], more)));
  }

  /** What an append adds, as lines. */
  lemma AppendedIs(c: Codec, bytes: seq<byte>, record: StateRecord)
    ensures var more := Line(c.encode(record), Tail([]));
      && AppendedBytes(c, bytes, record) == (if Closed(bytes) then Join(more) else Join(Line([], more)))
      && LinesOf(more) == [c.encode(record)]
  {
    var text := c.encode(record);
    var more := Line(text, Tail([]));
    assert Join(more) == text + [NEWLINE];
    assert Join(Line([], more)) == [NEWLINE] + (text + [NEWLINE]);
    if Closed(bytes) {
      assert AppendedBytes(c, bytes, record) == text + [NEWLINE];
    } else {
      assert AppendedBytes(c, bytes, record) == [NEWLINE] + (text + [NEWLINE]);
    }
    assert [text] + [] == [text];
  }

  /** An append ends an unfinished last line and adds exactly one line: none is blank, split or run into another. */
  lemma AppendAddsOneLine(c: Codec, bytes: seq<byte>, record: StateRecord)
    requires GoodCodec(c)
    ensures LinesOf(Split(bytes + AppendedBytes(c, bytes, record))) == LinesOf(Split(bytes)) + [c.encode(record)]
  {
    JoinOfSplit(bytes);
    ClosedIsNoTail(Split(bytes));
    AppendedIs(c, bytes, record);
    LinesJoined(Split(bytes), Line(c.encode(record), Tail([])));
  }

  /** Cutting the file at any byte of an append and repairing it leaves exactly the old records, or the
      old records and the new one; the new one is there once its text is. */
  lemma AppendIsAtomic(c: Codec, bytes: seq<byte>, records: seq<StateRecord>, record: StateRecord, k: nat)
    requires GoodCodec(c) && Whole(c, bytes, records)
    requires k <= |AppendedBytes(c, bytes, record)|
    ensures var cut := bytes + AppendedBytes(c, bytes, record)[..k];
      && Scan(c, cut).Some?
      && Whole(c, Repaired(c, cut),
               if k < |AppendedBytes(c, bytes, record)| - 1 then records else records + [record])
  {
    CutAppendScans(c, bytes, records, record, k);
    RepairKeepsLines(c, bytes + AppendedBytes(c, bytes, record)[..k]);
  }

  // ----- the file in the source's own form -----

  class LogFile {
    var present: bool
    var bytes: seq<byte>

    constructor ()
      ensures !present && bytes == []
    {
      present, bytes := false, [];
    }

    method LoadAt(c: Codec, now: Time) returns (r: Result<StateSnapshot, ParseError>)
      ensures !present ==> r == Ok(EMPTY_SNAPSHOT)
      ensures present ==> (r.Ok? <==> Readable(c, bytes))
      ensures present && r.Ok? ==> Replay(Scan(c, bytes).value.records, now) == Ok(r.value)
    {
      if !present {
        return Ok(EMPTY_SNAPSHOT);
      }
      ParseReplaysRecords(c, bytes, now);
      var parsed := ParseSnapshotBytes(c, bytes, now, true);
      if parsed.Err? {
        return Err(parsed.error);
      }
      return Ok(parsed.value.0);
    }

    /** Cuts a torn tail off; a file that cannot be read is left alone. */
    method RepairIncompleteTail(c: Codec, now: Time) returns (r: Result<(), ParseError>)
      modifies this
      ensures present == old(present)
      ensures r.Ok? <==> !present || Readable(c, old(bytes))
      ensures bytes == if present && r.Ok? then Repaired(c, old(bytes)) else old(bytes)
    {
      if !present {
        return Ok(());
      }
      ParseReplaysRecords(c, bytes, now);
      var parsed := ParseSnapshotBytes(c, bytes, now, true);
      if parsed.Err? {
        return Err(parsed.error);
      }
      RepairKeepsLines(c, bytes);
      var validLength := parsed.value.1;
      if validLength < |bytes| {
        bytes := bytes[..validLength];
      }
      return Ok(());
    }

    method EnsureTrailingNewline()
      modifies `bytes
      ensures bytes == old(bytes) + if Closed(old(bytes)) then [] else [NEWLINE]
    {
      if |bytes| == 0 {
        return;
      }
      var last := bytes[|bytes| - 1];
      if last != NEWLINE {
        bytes := bytes + [NEWLINE];
      }
    }

    /** Appends a record; a crash may leave any first part of what it adds. */
    method AppendStateRecord(c: Codec, record: StateRecord)
      modifies this
      ensures present && bytes == old(bytes) + AppendedBytes(c, old(bytes), record)
    {
      present := true;
      EnsureTrailingNewline();
      bytes := bytes + c.encode(record);
      bytes := bytes + [NEWLINE];
    }
  }
}
