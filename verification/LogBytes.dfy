// The state log as bytes: lines, and the parse that replays them (`parse_snapshot_bytes` in
// src/state.rs).

module LogBytes {
  import opened Wrappers
  import opened StateLog

  const NEWLINE: byte := 10

  // ----- a file as lines -----

  /** A file: newline-terminated lines, and what follows the last newline. */
  datatype Lines = Tail(last: seq<byte>) | Line(line: seq<byte>, rest: Lines)

  ghost predicate WellFormed(t: Lines) {
    match t
    case Tail(last) => NEWLINE !in last
    case Line(line, rest) => NEWLINE !in line && WellFormed(rest)
  }

  ghost function Join(t: Lines): seq<byte> {
    match t
    case Tail(last) => last
    case Line(line, rest) => line + [NEWLINE] + Join(rest)
  }

  ghost predicate NewlineAt(bytes: seq<byte>, n: nat) {
    n < |bytes| && bytes[n] == NEWLINE && NEWLINE !in bytes[..n]
  }

  lemma {:induction false} SomeNewlineIsFirst(bytes: seq<byte>)
    requires NEWLINE in bytes
    ensures exists n: nat :: NewlineAt(bytes, n)
  {
    var init := bytes[..|bytes| - 1];
    assert bytes == init + [bytes[|bytes| - 1]];
    if NEWLINE in init {
      SomeNewlineIsFirst(init);
      var n: nat :| NewlineAt(init, n);
      assert bytes[..n] == init[..n];
      assert NewlineAt(bytes, n);
    } else {
      assert NewlineAt(bytes, |bytes| - 1);
    }
  }

  ghost function Split(bytes: seq<byte>): Lines
    decreases |bytes|
  {
    if NEWLINE in bytes then
      SomeNewlineIsFirst(bytes);
      var n: nat :| NewlineAt(bytes, n);
      Line(bytes[..n], Split(bytes[n + 1..]))
    else Tail(bytes)
  }

  lemma SplitAt(bytes: seq<byte>, n: nat)
    requires NewlineAt(bytes, n)
    ensures Split(bytes) == Line(bytes[..n], Split(bytes[n + 1..]))
  {
  }

  lemma {:induction false} SplitOfJoin(t: Lines)
    requires WellFormed(t)
    ensures Split(Join(t)) == t
  {
    if t.Line? {
      var bytes := t.line + [NEWLINE] + Join(t.rest);
      assert bytes[..|t.line|] == t.line && bytes[|t.line| + 1..] == Join(t.rest);
      SplitAt(bytes, |t.line|);
      SplitOfJoin(t.rest);
    }
  }

  lemma {:induction false} JoinOfSplit(bytes: seq<byte>)
    ensures Join(Split(bytes)) == bytes && WellFormed(Split(bytes))
    decreases |bytes|
  {
    if NEWLINE in bytes {
      SomeNewlineIsFirst(bytes);
      var n: nat :| NewlineAt(bytes, n);
      SplitAt(bytes, n);
      JoinOfSplit(bytes[n + 1..]);
      JoinLine(bytes, n, Split(bytes[n + 1..]));
    }
  }

  lemma JoinLine(bytes: seq<byte>, n: nat, rest: Lines)
    requires NewlineAt(bytes, n) && Join(rest) == bytes[n + 1..] && WellFormed(rest)
    ensures Join(Line(bytes[..n], rest)) == bytes && WellFormed(Line(bytes[..n], rest))
  {
  }

  // ----- the record encoding -----

  /** What a trimmed line turns out to be: nothing, a record, or text that is no record. */
  datatype Content = Blank | Record(record: StateRecord) | Malformed

  /** How records are written, and how the bytes of one line are decoded, trimmed and parsed. */
  datatype Codec = Codec(encode: StateRecord -> seq<byte>, parse: seq<byte> -> Content)

  /** What the log needs of its record encoding: one non-empty line that parses back, no proper prefix of
      which parses. */
  ghost predicate GoodCodec(c: Codec) {
    && c.parse([]) == Blank
    && (forall r :: c.encode(r) != [] && NEWLINE !in c.encode(r) && c.parse(c.encode(r)) == Record(r))
    && (forall r, k :: 0 < k < |c.encode(r)| ==> c.parse(c.encode(r)[..k]) == Malformed)
  }

  // ----- parsing into a snapshot -----

  datatype ParseError = ParseError(lineNumber: nat, reason: string)

  const NOT_A_RECORD := "not a state record"

  type Parsed = Result<(StateSnapshot, nat), ParseError>

  ghost function Advanced(r: Parsed, n: nat): Parsed {
    if r.Err? then r else Ok((r.value.0, r.value.1 + n))
  }

  /** What the content of a line does to the snapshot. */
  function Absorb(s: StateSnapshot, content: Content, lineNumber: nat, now: Time): Result<StateSnapshot, ParseError> {
    match content
    case Malformed => Err(ParseError(lineNumber, NOT_A_RECORD))
    case Blank => Ok(s)
    case Record(record) =>
      var applied := AfterRecord(s, record, now);
      if applied.Err? then Err(ParseError(lineNumber, applied.error)) else Ok(applied.value)
  }

  /** The snapshot and the number of bytes read; a torn last line is left unread if that is allowed. */
  ghost function ParseLines(c: Codec, t: Lines, s: StateSnapshot, lineNumber: nat, now: Time, allowTorn: bool): Parsed {
    match t
    case Tail(last) =>
      if last == [] then Ok((s, 0))
      else if allowTorn && c.parse(last).Malformed? then Ok((s, 0))
      else
        var r := Absorb(s, c.parse(last), lineNumber, now);
        if r.Err? then Err(r.error) else Ok((r.value, |last|))
    case Line(line, rest) =>
      var r := Absorb(s, c.parse(line), lineNumber, now);
      if r.Err? then Err(r.error)
      else Advanced(ParseLines(c, rest, r.value, lineNumber + 1, now, allowTorn), |line| + 1)
  }

  ghost function ParseSnapshot(c: Codec, bytes: seq<byte>, now: Time, allowTorn: bool): Parsed {
    var r := ParseLines(c, Split(bytes), EMPTY_SNAPSHOT, 1, now, allowTorn);
    if r.Err? then r else Ok((Live(r.value.0, now), r.value.1))
  }

  /** The content of the file's line number `k`, counted from zero; what follows the last newline is a line if it
      is not empty. */
  ghost function LineAt(t: Lines, k: nat): Option<seq<byte>> {
    match t
    case Tail(last) => if k == 0 && last != [] then Some(last) else None
    case Line(line, rest) => if k == 0 then Some(line) else LineAt(rest, k - 1)
  }

  ghost predicate IsTail(t: Lines, k: nat) {
    match t
    case Tail(_) => true
    case Line(_, rest) => k > 0 && IsTail(rest, k - 1)
  }

  /** The line is no record, or an invalid one; a torn last line does not count where that is allowed. */
  ghost predicate Bad(c: Codec, t: Lines, k: nat, allowTorn: bool) {
    && LineAt(t, k).Some?
    && match c.parse(LineAt(t, k).value)
       case Malformed => !(allowTorn && IsTail(t, k))
       case Record(record) => RecordError(record).Some?
       case Blank => false
  }

  /** A parse that fails names the first bad line. */
  lemma {:induction false} ErrorIsAtFirstBadLine(c: Codec, t: Lines, s: StateSnapshot, lineNumber: nat, now: Time,
                                                 allowTorn: bool)
    ensures var r := ParseLines(c, t, s, lineNumber, now, allowTorn);
      && (r.Err? <==> exists k: nat :: Bad(c, t, k, allowTorn))
      && (r.Err? ==> r.error.lineNumber >= lineNumber && Bad(c, t, r.error.lineNumber - lineNumber, allowTorn)
                     && forall k: nat :: k < r.error.lineNumber - lineNumber ==> !Bad(c, t, k, allowTorn))
  {
    var r := ParseLines(c, t, s, lineNumber, now, allowTorn);
    match t {
      case Tail(last) =>
        assert Bad(c, t, 0, allowTorn) <==> r.Err?;
      case Line(line, rest) =>
        forall k: nat ensures Bad(c, rest, k, allowTorn) <==> Bad(c, t, k + 1, allowTorn) { }
        var first := Absorb(s, c.parse(line), lineNumber, now);
        assert Bad(c, t, 0, allowTorn) <==> first.Err?;
        if first.Ok? {
          ErrorIsAtFirstBadLine(c, rest, first.value, lineNumber + 1, now, allowTorn);
          assert Advanced(ParseLines(c, rest, first.value, lineNumber + 1, now, allowTorn), |line| + 1) == r;
          if r.Err? {
            forall k: nat | k < r.error.lineNumber - lineNumber ensures !Bad(c, t, k, allowTorn) {
              assert k == 0 || (Bad(c, rest, k - 1, allowTorn) <==> Bad(c, t, k - 1 + 1, allowTorn));
            }
          } else {
            forall k: nat ensures !Bad(c, t, k, allowTorn) {
              assert k == 0 || (Bad(c, rest, k - 1, allowTorn) <==> Bad(c, t, k - 1 + 1, allowTorn));
            }
          }
        }
    }
  }

  ghost predicate AlreadyLive(s: StateSnapshot, now: Time) {
    forall id :: id in s.leases ==> s.leases[id].expiresAt > now
  }

  lemma LiveIsSame(s: StateSnapshot, now: Time)
    requires AlreadyLive(s, now)
    ensures Live(s, now) == s
  {
  }

  lemma AbsorbKeepsLive(s: StateSnapshot, content: Content, lineNumber: nat, now: Time)
    requires AlreadyLive(s, now)
    ensures var r := Absorb(s, content, lineNumber, now); r.Ok? ==> AlreadyLive(r.value, now)
  {
  }

  /** What a parse that has come to `offset` will give. */
  ghost function Ahead(c: Codec, bytes: seq<byte>, offset: nat, s: StateSnapshot, lineNumber: nat, now: Time, allowTorn: bool): Parsed
    requires offset <= |bytes|
  {
    Advanced(ParseLines(c, Split(bytes[offset..]), s, lineNumber, now, allowTorn), offset)
  }

  method FindNewline(bytes: seq<byte>) returns (n: Option<nat>)
    ensures n.Some? ==> NewlineAt(bytes, n.value)
    ensures n.None? ==> NEWLINE !in bytes
  {
    var i := 0;
    while i < |bytes|
      invariant i <= |bytes| && NEWLINE !in bytes[..i]
    {
      if bytes[i] == NEWLINE {
        return Some(i);
      }
      assert bytes[..i + 1] == bytes[..i] + [bytes[i]];
      i := i + 1;
    }
    assert bytes[..|bytes|] == bytes;
    return None;
  }

  lemma AheadLine(c: Codec, bytes: seq<byte>, offset: nat, n: nat, s: StateSnapshot, lineNumber: nat, now: Time, allowTorn: bool)
    requires offset < |bytes| && NewlineAt(bytes[offset..], n)
    ensures var r := Absorb(s, c.parse(bytes[offset..][..n]), lineNumber, now);
      Ahead(c, bytes, offset, s, lineNumber, now, allowTorn)
      == if r.Err? then Err(r.error) else Ahead(c, bytes, offset + n + 1, r.value, lineNumber + 1, now, allowTorn)
  {
    SplitAt(bytes[offset..], n);
    assert bytes[offset..][n + 1..] == bytes[offset + n + 1..];
  }

  lemma AheadTail(c: Codec, bytes: seq<byte>, offset: nat, s: StateSnapshot, lineNumber: nat, now: Time, allowTorn: bool)
    requires offset < |bytes| && NEWLINE !in bytes[offset..]
    ensures var content := c.parse(bytes[offset..]); var r := Absorb(s, content, lineNumber, now);
      Ahead(c, bytes, offset, s, lineNumber, now, allowTorn)
      == if allowTorn && content.Malformed? then Ok((s, offset))
         else if r.Err? then Err(r.error)
         else Ahead(c, bytes, |bytes|, r.value, lineNumber + 1, now, allowTorn)
  {
  }

  lemma AheadEnd(c: Codec, bytes: seq<byte>, s: StateSnapshot, lineNumber: nat, now: Time, allowTorn: bool)
    ensures Ahead(c, bytes, |bytes|, s, lineNumber, now, allowTorn) == Ok((s, |bytes|))
  {
  }

  /** Reads the file line by line.  A torn tail ends the parse without the final pruning, which the
      snapshot does not need: every record applied has pruned it already. */
  method ParseSnapshotBytes(c: Codec, bytes: seq<byte>, now: Time, allowTorn: bool) returns (r: Parsed)
    ensures r == ParseSnapshot(c, bytes, now, allowTorn)
  {
    var snapshot := EMPTY_SNAPSHOT;
    var offset, lineNumber := 0, 1;
    assert bytes[0..] == bytes;
    ghost var whole := Ahead(c, bytes, 0, snapshot, 1, now, allowTorn);
    while offset < |bytes|
      invariant 0 <= offset <= |bytes| && lineNumber >= 1
      invariant AlreadyLive(snapshot, now)
      invariant whole == Ahead(c, bytes, offset, snapshot, lineNumber, now, allowTorn)
    {
      var rest := bytes[offset..];
      var newline := FindNewline(rest);
      LiveIsSame(snapshot, now);
      if newline.None? {
        var content := c.parse(rest);
        AheadTail(c, bytes, offset, snapshot, lineNumber, now, allowTorn);
        AbsorbKeepsLive(snapshot, content, lineNumber, now);
        if content.Malformed? && allowTorn {
          return Ok((snapshot, offset));
        }
        var absorbed := Absorb(snapshot, content, lineNumber, now);
        if absorbed.Err? {
          return Err(absorbed.error);
        }
        snapshot, offset := absorbed.value, |bytes|;
      } else {
        var n := newline.value;
        var content := c.parse(rest[..n]);
        AbsorbKeepsLive(snapshot, content, lineNumber, now);
        AheadLine(c, bytes, offset, n, snapshot, lineNumber, now, allowTorn);
        var absorbed := Absorb(snapshot, content, lineNumber, now);
        if absorbed.Err? {
          return Err(absorbed.error);
        }
        snapshot, offset := absorbed.value, offset + n + 1;
      }
      lineNumber := lineNumber + 1;
    }
    AheadEnd(c, bytes, snapshot, lineNumber, now, allowTorn);
    snapshot := Live(snapshot, now);
    return Ok((snapshot, |bytes|));
  }
}
