// How the account bot writes ids into its state file: percent-encoding as in sections 2.1 and 2.3 of
// RFC 3986 (`encode_state_id` and `decode_state_id` in examples/account_bot.rs).

module StateId {
  import opened Wrappers
  import Utf8

  const PERCENT: byte := '%' as int

  predicate Unreserved(c: char) {
    'A' <= c <= 'Z' || 'a' <= c <= 'z' || '0' <= c <= '9' || c == '.' || c == '_' || c == '-' || c == '~'
  }

  function HexDigit(d: nat): char
    requires d < 16
  {
    "0123456789ABCDEF"[d]
  }

  function HexValue(b: byte): (r: Option<nat>)
    ensures r.Some? ==> r.value < 16
  {
    if '0' as int <= b <= '9' as int then Some(b as int - '0' as int)
    else if 'a' as int <= b <= 'f' as int then Some(b as int - 'a' as int + 10)
    else if 'A' as int <= b <= 'F' as int then Some(b as int - 'A' as int + 10)
    else None
  }

  // ----- the encoding as a function -----

  function EncodeByte(b: byte): string {
    if b < 0x80 && Unreserved(b as char) then [b as char] else ['%', HexDigit(b / 16), HexDigit(b % 16)]
  }

  function EncodeBytes(bytes: seq<byte>): string {
    if bytes == [] then "" else EncodeByte(bytes[0]) + EncodeBytes(bytes[1..])
  }

  function Encoded(id: string): string {
    EncodeBytes(Utf8.Encode(id))
  }

  function After(decoded: seq<byte>, rest: Option<seq<byte>>): Option<seq<byte>> {
    if rest.None? then None else Some(decoded + rest.value)
  }

  function DecodeBytes(bytes: seq<byte>): Option<seq<byte>>
    decreases |bytes|
  {
    if bytes == [] then Some([])
    else if bytes[0] != PERCENT then After([bytes[0]], DecodeBytes(bytes[1..]))
    else if |bytes| < 3 || HexValue(bytes[1]).None? || HexValue(bytes[2]).None? then None
    else After([HexValue(bytes[1]).value * 16 + HexValue(bytes[2]).value], DecodeBytes(bytes[3..]))
  }

  function Decoded(encoded: string): Option<string> {
    var bytes := DecodeBytes(Utf8.Encode(encoded));
    if bytes.None? then None else Utf8.Decode(bytes.value)
  }

  // ----- the loops -----

  lemma EncodeStep(bytes: seq<byte>, i: nat, before: string)
    requires i < |bytes|
    ensures before + EncodeBytes(bytes[i..]) == before + EncodeByte(bytes[i]) + EncodeBytes(bytes[i + 1..])
  {
  }

  method EncodeStateId(id: string) returns (encoded: string)
    ensures encoded == Encoded(id)
  {
    var bytes := Utf8.Encode(id);
    encoded := "";
    assert bytes[0..] == bytes;
    for i := 0 to |bytes|
      invariant encoded + EncodeBytes(bytes[i..]) == EncodeBytes(bytes)
    {
      EncodeStep(bytes, i, encoded);
      if bytes[i] < 0x80 && Unreserved(bytes[i] as char) {
        encoded := encoded + [bytes[i] as char];
      } else {
        encoded := encoded + ['%', HexDigit(bytes[i] / 16), HexDigit(bytes[i] % 16)];
      }
    }
  }

  /** What decoding still has to do when `decoded` has been read and `index` is next. */
  ghost predicate Leads(bytes: seq<byte>, decoded: seq<byte>, index: nat) {
    index <= |bytes| && DecodeBytes(bytes) == After(decoded, DecodeBytes(bytes[index..]))
  }

  lemma DecodePlainStep(bytes: seq<byte>, decoded: seq<byte>, index: nat)
    requires Leads(bytes, decoded, index) && index < |bytes| && bytes[index] != PERCENT
    ensures Leads(bytes, decoded + [bytes[index]], index + 1)
  {
    assert bytes[index..][1..] == bytes[index + 1..];
    AfterOne(decoded, bytes[index], DecodeBytes(bytes[index + 1..]));
  }

  lemma DecodeEscapeStep(bytes: seq<byte>, decoded: seq<byte>, index: nat, high: nat, low: nat)
    requires Leads(bytes, decoded, index) && index + 2 < |bytes| && bytes[index] == PERCENT
    requires HexValue(bytes[index + 1]) == Some(high) && HexValue(bytes[index + 2]) == Some(low)
    ensures Leads(bytes, decoded + [high * 16 + low], index + 3)
  {
    assert bytes[index..][3..] == bytes[index + 3..];
    AfterOne(decoded, high * 16 + low, DecodeBytes(bytes[index + 3..]));
  }

  lemma DecodeBadEscape(bytes: seq<byte>, decoded: seq<byte>, index: nat)
    requires Leads(bytes, decoded, index) && index < |bytes| && bytes[index] == PERCENT
    requires index + 2 >= |bytes| || HexValue(bytes[index + 1]).None? || HexValue(bytes[index + 2]).None?
    ensures DecodeBytes(bytes) == None
  {
  }

  lemma AfterOne(decoded: seq<byte>, b: byte, rest: Option<seq<byte>>)
    ensures After(decoded + [b], rest) == After(decoded, After([b], rest))
  {
    if rest.Some? {
      assert decoded + [b] + rest.value == decoded + ([b] + rest.value);
    }
  }

  lemma DecodeStartAndEnd(bytes: seq<byte>, decoded: seq<byte>)
    ensures Leads(bytes, [], 0)
    ensures Leads(bytes, decoded, |bytes|) ==> DecodeBytes(bytes) == Some(decoded)
  {
    assert bytes[0..] == bytes;
    var rest := DecodeBytes(bytes);
    if rest.Some? {
      assert [] + rest.value == rest.value;
    }
    assert DecodeBytes(bytes[|bytes|..]) == Some([]);
    assert decoded + [] == decoded;
  }

  method DecodeStateId(encoded: string) returns (r: Option<string>)
    ensures r == Decoded(encoded)
  {
    var bytes := Utf8.Encode(encoded);
    var decoded := DecodeOctets(bytes);
    if decoded.None? {
      return None;
    }
    return Utf8.Decode(decoded.value);
  }

  method DecodeOctets(bytes: seq<byte>) returns (r: Option<seq<byte>>)
    ensures r == DecodeBytes(bytes)
  {
    var decoded: seq<byte> := [];
    var index := 0;
    DecodeStartAndEnd(bytes, []);
    while index < |bytes|
      invariant 0 <= index && Leads(bytes, decoded, index)
    {
      if bytes[index] == PERCENT {
        var high := if index + 1 < |bytes| then HexValue(bytes[index + 1]) else None;
        var low := if index + 2 < |bytes| then HexValue(bytes[index + 2]) else None;
        if high.None? || low.None? {
          DecodeBadEscape(bytes, decoded, index);
          return None;
        }
        DecodeEscapeStep(bytes, decoded, index, high.value, low.value);
        decoded := decoded + [high.value * 16 + low.value];
        index := index + 3;
      } else {
        DecodePlainStep(bytes, decoded, index);
        decoded := decoded + [bytes[index]];
        index := index + 1;
      }
    }
    DecodeStartAndEnd(bytes, decoded);
    return Some(decoded);
  }

  // ----- what the encoding guarantees -----

  predicate Plain(c: char) {
    Unreserved(c) || c == '%'
  }

  lemma EncodeByteIsPlain(b: byte)
    ensures EncodeByte(b) != "" && forall c :: c in EncodeByte(b) ==> Plain(c)
  {
  }

  lemma {:induction false} EncodeBytesIsPlain(bytes: seq<byte>)
    ensures forall c :: c in EncodeBytes(bytes) ==> Plain(c)
    ensures bytes != [] ==> EncodeBytes(bytes) != ""
  {
    if bytes != [] {
      EncodeByteIsPlain(bytes[0]);
      EncodeBytesIsPlain(bytes[1..]);
    }
  }

  /** An encoded id consists of unreserved characters and percent signs: no white space, no delimiter. */
  lemma EncodedIsPlain(id: string)
    ensures forall c :: c in Encoded(id) ==> Plain(c)
    ensures Encoded(id) == "" <==> id == ""
  {
    EncodeBytesIsPlain(Utf8.Encode(id));
    if id != "" {
      Utf8.EncodedCharDecodes(id[0], []);
    }
  }

  lemma HexRoundTrip(d: nat)
    requires d < 16
    ensures HexDigit(d) as int < 0x80 && HexValue(HexDigit(d) as int) == Some(d)
  {
  }

  lemma PlainIsAscii(s: string)
    requires forall c :: c in s ==> Plain(c)
    ensures Utf8.Ascii(s)
  {
    forall i | 0 <= i < |s| ensures s[i] as int < 0x80 {
      assert s[i] in s;
    }
  }

  lemma FirstByteRoundTrip(b: byte, rest: string)
    requires Utf8.Ascii(rest) && Utf8.Ascii(EncodeByte(b) + rest)
    ensures DecodeBytes(Utf8.Codes(EncodeByte(b) + rest)) == After([b], DecodeBytes(Utf8.Codes(rest)))
  {
    var bytes := Utf8.Codes(EncodeByte(b) + rest);
    var n := |EncodeByte(b)|;
    assert bytes[n..] == Utf8.Codes(rest);
    if n == 3 {
      HexRoundTrip(b / 16);
      HexRoundTrip(b % 16);
      assert bytes[1] == HexDigit(b / 16) as int && bytes[2] == HexDigit(b % 16) as int;
    }
  }

  lemma {:induction false} BytesRoundTrip(bytes: seq<byte>)
    ensures Utf8.Ascii(EncodeBytes(bytes)) && DecodeBytes(Utf8.Codes(EncodeBytes(bytes))) == Some(bytes)
  {
    EncodeBytesIsPlain(bytes);
    PlainIsAscii(EncodeBytes(bytes));
    if bytes != [] {
      BytesRoundTrip(bytes[1..]);
      FirstByteRoundTrip(bytes[0], EncodeBytes(bytes[1..]));
      assert [bytes[0]] + bytes[1..] == bytes;
    }
  }

  /** Decoding an encoded id gives the id back, whatever characters it is made of. */
  lemma DecodeInvertsEncode(id: string)
    ensures Decoded(Encoded(id)) == Some(id)
  {
    BytesRoundTrip(Utf8.Encode(id));
    Utf8.AsciiIsItsCodes(Encoded(id));
    Utf8.DecodeInvertsEncode(id);
  }

  // ----- which ids are written as they are -----

  lemma {:induction false} AsciiBytes(bytes: seq<byte>)
    requires forall i :: 0 <= i < |bytes| ==> bytes[i] < 0x80 && Unreserved(bytes[i] as char)
    ensures |EncodeBytes(bytes)| == |bytes| && forall i :: 0 <= i < |bytes| ==> EncodeBytes(bytes)[i] == bytes[i] as char
  {
    if bytes != [] {
      AsciiBytes(bytes[1..]);
    }
  }

  lemma {:induction false} EscapesAreLonger(bytes: seq<byte>)
    ensures |EncodeBytes(bytes)| >= |bytes|
    ensures |EncodeBytes(bytes)| == |bytes| ==> forall b :: b in bytes ==> b < 0x80 && Unreserved(b as char)
  {
    if bytes != [] {
      EscapesAreLonger(bytes[1..]);
      assert bytes == [bytes[0]] + bytes[1..];
    }
  }

  /** An id is written as it is exactly if it consists of letters, digits, full stops, underscores, hyphens and
      tildes. */
  lemma WrittenAsIsIff(id: string)
    ensures Encoded(id) == id <==>
      forall c :: c in id ==>
        'A' <= c <= 'Z' || 'a' <= c <= 'z' || '0' <= c <= '9' || c in {'.', '_', '-', '~'}
  {
    if (forall c :: c in id ==> Unreserved(c)) || Encoded(id) == id {
      EncodedIsPlain(id);
      PlainIsAscii(id);
      Utf8.AsciiIsItsCodes(id);
      var bytes := Utf8.Encode(id);
      EscapesAreLonger(bytes);
      if forall c :: c in id ==> Unreserved(c) {
        forall i | 0 <= i < |bytes| ensures bytes[i] < 0x80 && Unreserved(bytes[i] as char) { assert id[i] in id; }
        AsciiBytes(bytes);
      } else {
        forall c | c in id ensures Unreserved(c) {
          var i :| 0 <= i < |id| && id[i] == c;
          assert bytes[i] in bytes;
        }
      }
    }
  }

  /** An escape is read in either case. */
  lemma EscapeInEitherCase(high: nat, low: nat, h: char, l: char)
    requires high < 16 && low < 16
    requires h == "0123456789ABCDEF"[high] || h == "0123456789abcdef"[high]
    requires l == "0123456789ABCDEF"[low] || l == "0123456789abcdef"[low]
    ensures DecodeBytes([PERCENT, h as int, l as int]) == Some([high * 16 + low])
  {
    HexInEitherCase(high);
    HexInEitherCase(low);
    var bytes := [PERCENT, h as int, l as int];
    assert bytes[3..] == [] && DecodeBytes([]) == Some([]);
    assert [high * 16 + low] + [] == [high * 16 + low];
  }

  lemma HexInEitherCase(d: nat)
    requires d < 16
    ensures HexValue("0123456789ABCDEF"[d] as int) == Some(d) && HexValue("0123456789abcdef"[d] as int) == Some(d)
  {
  }
}
