// One concrete record encoding with the properties the log relies on: fields percent-encoded, each
// followed by a comma, and a closing brace.  It stands for the JSON the source writes.

module LogCodec {
  import opened Wrappers
  import opened StateLog
  import opened LogBytes
  import StateId
  import Text
  import Utf8

  // ----- packing fields -----

  function Pack(fields: seq<string>): string {
    if fields == [] then "}" else StateId.Encoded(fields[0]) + "," + Pack(fields[1..])
  }

  lemma SameCode(a: string, b: string)
    requires StateId.Encoded(a) == StateId.Encoded(b)
    ensures a == b
  {
    StateId.DecodeInvertsEncode(a);
    StateId.DecodeInvertsEncode(b);
  }

  /** Up to its first comma a text has only one beginning without commas. */
  lemma FirstCommas(x: string, y: string, s: string, t: string)
    requires ',' !in x && ',' !in y && x + "," + s <= y + "," + t
    ensures x == y && s <= t
  {
    var whole := y + "," + t;
    assert (x + "," + s)[|x|] == ',' && whole[|y|] == ',';
    assert whole[|x|] == ',';
    assert forall i :: 0 <= i < |x| ==> whole[i] == (x + "," + s)[i] == x[i];
    assert forall i :: 0 <= i < |y| ==> whole[i] == y[i];
    assert |x| == |y|;
    assert s == (x + "," + s)[|x| + 1..] && t == whole[|y| + 1..];
  }

  lemma NoBraceFirst(code: string, rest: string)
    requires forall c :: c in code ==> StateId.Plain(c)
    ensures (code + "," + rest)[0] != '}'
  {
    if code != "" {
      assert code[0] in code;
    }
  }

  /** No packed list is a prefix of another. */
  lemma {:induction false} PackIsPrefixFree(a: seq<string>, b: seq<string>)
    requires Pack(a) <= Pack(b)
    ensures a == b
  {
    if a == [] {
      if b != [] {
        StateId.EncodedIsPlain(b[0]);
        NoBraceFirst(StateId.Encoded(b[0]), Pack(b[1..]));
      }
    } else {
      StateId.EncodedIsPlain(a[0]);
      NoBraceFirst(StateId.Encoded(a[0]), Pack(a[1..]));
      if b != [] {
        StateId.EncodedIsPlain(b[0]);
        FirstCommas(StateId.Encoded(a[0]), StateId.Encoded(b[0]), Pack(a[1..]), Pack(b[1..]));
        SameCode(a[0], b[0]);
        PackIsPrefixFree(a[1..], b[1..]);
        assert a == [a[0]] + a[1..] && b == [b[0]] + b[1..];
      }
    }
  }

  predicate Writable(c: char) {
    StateId.Plain(c) || c == ',' || c == '}'
  }

  lemma {:induction false} PackIsWritable(fields: seq<string>)
    ensures forall c :: c in Pack(fields) ==> Writable(c)
    ensures Pack(fields) != ""
  {
    if fields != [] {
      StateId.EncodedIsPlain(fields[0]);
      PackIsWritable(fields[1..]);
    }
  }

  // ----- the fields of a record -----

  function Number(n: int): string { Text.SignedDecimal(n) }

  function Flag(b: bool): string { if b then "1" else "0" }

  function EventFields(event: StateEvent): seq<string> {
    match event
    case ProcessedMessage(id, at) => ["processed", id, Number(at)]
    case AttemptLeased(id, attempt, at) => ["leased", id, attempt, Number(at)]
    case AttemptReleased(id, attempt, at) => ["released", id, attempt, Number(at)]
    case CheckpointSaved(checkpoint, at) =>
      ["checkpoint", checkpoint.roomId, Flag(checkpoint.initializeEmpty), Number(at)] + checkpoint.seenMessageIds
  }

  lemma SameEvent(a: StateEvent, b: StateEvent)
    requires EventFields(a) == EventFields(b)
    ensures a == b
  {
    var x, y := EventFields(a), EventFields(b);
    assert x[0] == y[0] && x[1] == y[1] && x[2] == y[2];
    match a {
      case ProcessedMessage(_, at) => Text.SameSigned(at, b.processedAt);
      case AttemptLeased(_, _, at) =>
        assert x[3] == y[3];
        Text.SameSigned(at, b.expiresAt);
      case AttemptReleased(_, _, at) =>
        assert x[3] == y[3];
        Text.SameSigned(at, b.releasedAt);
      case CheckpointSaved(checkpoint, at) =>
        assert x[3] == y[3];
        Text.SameSigned(at, b.updatedAt);
        assert x[4..] == checkpoint.seenMessageIds && y[4..] == b.checkpoint.seenMessageIds;
    }
  }

  function Fields(record: StateRecord): seq<string> {
    [Number(record.version)] + EventFields(record.event)
  }

  lemma SameRecord(a: StateRecord, b: StateRecord)
    requires Fields(a) == Fields(b)
    ensures a == b
  {
    assert Fields(a)[0] == Fields(b)[0];
    Text.SameSigned(a.version, b.version);
    assert Fields(a)[1..] == EventFields(a.event) && Fields(b)[1..] == EventFields(b.event);
    SameEvent(a.event, b.event);
  }

  // ----- the codec -----

  function EncodeRecord(record: StateRecord): seq<byte> {
    PackIsWritable(Fields(record));
    WritableIsAscii(Pack(Fields(record)));
    Utf8.Codes(Pack(Fields(record)))
  }

  lemma WritableIsAscii(s: string)
    requires forall c :: c in s ==> Writable(c)
    ensures Utf8.Ascii(s)
  {
    forall i | 0 <= i < |s| ensures s[i] as int < 0x80 { assert s[i] in s; }
  }

  ghost function ParseRecord(bytes: seq<byte>): Content {
    if bytes == [] then Blank
    else if exists r :: EncodeRecord(r) == bytes then
      var r :| EncodeRecord(r) == bytes;
      Record(r)
    else Malformed
  }

  lemma SamePrefix(s: string, t: string)
    requires Utf8.Ascii(s) && Utf8.Ascii(t) && Utf8.Codes(s) <= Utf8.Codes(t)
    ensures s <= t
  {
    forall i | 0 <= i < |s| ensures s[i] == t[i] {
      assert Utf8.Codes(s)[i] == Utf8.Codes(t)[i];
    }
  }

  lemma EncodingIsPrefixFree(a: StateRecord, b: StateRecord)
    requires EncodeRecord(a) <= EncodeRecord(b)
    ensures a == b
  {
    PackIsWritable(Fields(a));
    PackIsWritable(Fields(b));
    WritableIsAscii(Pack(Fields(a)));
    WritableIsAscii(Pack(Fields(b)));
    SamePrefix(Pack(Fields(a)), Pack(Fields(b)));
    PackIsPrefixFree(Fields(a), Fields(b));
    SameRecord(a, b);
  }

  lemma NoNewlineIsWritten(s: string)
    requires forall c :: c in s ==> Writable(c)
    ensures Utf8.Ascii(s) && NEWLINE !in Utf8.Codes(s)
  {
    WritableIsAscii(s);
    forall i | 0 <= i < |s| ensures s[i] as int != NEWLINE { assert Writable(s[i]); }
  }

  lemma EncodingIsALine(record: StateRecord)
    ensures EncodeRecord(record) != [] && NEWLINE !in EncodeRecord(record)
  {
    PackIsWritable(Fields(record));
    NoNewlineIsWritten(Pack(Fields(record)));
  }

  lemma ParseInvertsEncode(record: StateRecord)
    ensures ParseRecord(EncodeRecord(record)) == Record(record)
  {
    EncodingIsALine(record);
    forall r | EncodeRecord(r) == EncodeRecord(record) ensures r == record {
      EncodingIsPrefixFree(r, record);
    }
  }

  lemma CutEncodingDoesNotParse(record: StateRecord, k: nat)
    requires 0 < k < |EncodeRecord(record)|
    ensures ParseRecord(EncodeRecord(record)[..k]) == Malformed
  {
    var cut := EncodeRecord(record)[..k];
    forall r ensures EncodeRecord(r) != cut {
      if EncodeRecord(r) == cut {
        EncodingIsPrefixFree(r, record);
      }
    }
  }

  /** What the log asks of its record encoding can be met. */
  lemma GoodCodecExists()
    ensures exists c :: GoodCodec(c)
  {
    var c := Codec(EncodeRecord, ParseRecord);
    forall r ensures c.encode(r) != [] && NEWLINE !in c.encode(r) && c.parse(c.encode(r)) == Record(r) {
      EncodingIsALine(r);
      ParseInvertsEncode(r);
    }
    forall r, k | 0 < k < |c.encode(r)| ensures c.parse(c.encode(r)[..k]) == Malformed {
      CutEncodingDoesNotParse(r, k);
    }
    assert GoodCodec(c);
  }
}
