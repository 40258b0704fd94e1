// Strings as bytes: the UTF-8 encoding of RFC 3629 and its strict decoding (`str::bytes` and
// `String::from_utf8`, which examples/account_bot.rs uses for ids in the state file).

module Utf8 {
  import opened Wrappers

  // ----- groups of six bits -----

  function High(n: nat): nat { n / 0x40 }

  function Low(n: nat): (r: nat)
    ensures r < 0x40
  {
    n % 0x40
  }

  function Glue(high: nat, low: nat): nat { high * 0x40 + low }

  lemma GlueParts(n: nat)
    ensures Glue(High(n), Low(n)) == n
  {
  }

  lemma PartsOfGlue(high: nat, low: nat)
    requires low < 0x40
    ensures High(Glue(high, low)) == high && Low(Glue(high, low)) == low
  {
  }

  // ----- one character -----

  function EncodeChar(c: char): seq<byte> {
    var n := c as int;
    if n < 0x80 then [n]
    else if n < 0x800 then [0xC0 + High(n), 0x80 + Low(n)]
    else if n < 0x1_0000 then [0xE0 + High(High(n)), 0x80 + Low(High(n)), 0x80 + Low(n)]
    else [0xF0 + High(High(High(n))), 0x80 + Low(High(High(n))), 0x80 + Low(High(n)), 0x80 + Low(n)]
  }

  function Encode(s: string): seq<byte> {
    if s == "" then [] else EncodeChar(s[0]) + Encode(s[1..])
  }

  predicate Continues(b: byte) {
    0x80 <= b < 0xC0
  }

  /** The bits a continuation byte carries. */
  function Bits(b: byte): (r: nat)
    requires Continues(b)
    ensures r < 0x40
  {
    b as int - 0x80
  }

  function Lead(b: byte, marker: nat): nat
    requires marker <= b
  {
    b as int - marker
  }

  predicate IsScalar(n: int) {
    0 <= n < 0xD800 || 0xE000 <= n < 0x11_0000
  }

  /** A decoded character and the number of bytes it took. */
  datatype Scalar = Scalar(c: char, width: nat)

  /** A code point of `width` bytes, unless it is a surrogate, too large or could be written shorter. */
  function Accept(n: int, least: int, width: nat): (r: Option<Scalar>)
    ensures r.Some? ==> r.value.width == width
  {
    if n >= least && IsScalar(n) then Some(Scalar(n as char, width)) else None
  }

  function FirstChar(bytes: seq<byte>): (r: Option<Scalar>)
    requires bytes != []
    ensures r.Some? ==> 1 <= r.value.width <= |bytes|
  {
    var b := bytes[0];
    if b < 0x80 then Accept(b, 0, 1)
    else if 0xC0 <= b < 0xE0 && |bytes| >= 2 && Continues(bytes[1]) then
      Accept(Glue(Lead(b, 0xC0), Bits(bytes[1])), 0x80, 2)
    else if 0xE0 <= b < 0xF0 && |bytes| >= 3 && Continues(bytes[1]) && Continues(bytes[2]) then
      Accept(Glue(Glue(Lead(b, 0xE0), Bits(bytes[1])), Bits(bytes[2])), 0x800, 3)
    else if 0xF0 <= b < 0xF8 && |bytes| >= 4 && Continues(bytes[1]) && Continues(bytes[2]) && Continues(bytes[3]) then
      Accept(Glue(Glue(Glue(Lead(b, 0xF0), Bits(bytes[1])), Bits(bytes[2])), Bits(bytes[3])), 0x1_0000, 4)
    else None
  }

  function Decode(bytes: seq<byte>): Option<string>
    decreases |bytes|
  {
    if bytes == [] then Some("")
    else
      var first := FirstChar(bytes);
      if first.None? then None
      else
        var rest := Decode(bytes[first.value.width..]);
        if rest.None? then None else Some([first.value.c] + rest.value)
  }

  lemma EncodedCharDecodes(c: char, rest: seq<byte>)
    ensures EncodeChar(c) != []
    ensures FirstChar(EncodeChar(c) + rest) == Some(Scalar(c, |EncodeChar(c)|))
  {
    var n := c as int;
    GlueParts(n);
    GlueParts(High(n));
    GlueParts(High(High(n)));
    var code := EncodeChar(c);
    assert forall i :: 0 <= i < |code| ==> (code + rest)[i] == code[i];
  }

  lemma TwoBytes(h: nat, l: nat)
    requires h < 0x20 && l < 0x40 && 0x80 <= Glue(h, l) < 0x800
    ensures EncodeChar(Glue(h, l) as char) == [0xC0 + h, 0x80 + l]
  {
  }

  lemma ThreeBytes(h: nat, m: nat, l: nat)
    requires h < 0x10 && m < 0x40 && l < 0x40 && 0x800 <= Glue(Glue(h, m), l) && IsScalar(Glue(Glue(h, m), l))
    ensures EncodeChar(Glue(Glue(h, m), l) as char) == [0xE0 + h, 0x80 + m, 0x80 + l]
  {
  }

  lemma FourBytes(h: nat, k: nat, m: nat, l: nat)
    requires h < 0x8 && k < 0x40 && m < 0x40 && l < 0x40 && 0x1_0000 <= Glue(Glue(Glue(h, k), m), l) < 0x11_0000
    ensures EncodeChar(Glue(Glue(Glue(h, k), m), l) as char) == [0xF0 + h, 0x80 + k, 0x80 + m, 0x80 + l]
  {
    PartsOfGlue(h, k);
    PartsOfGlue(Glue(h, k), m);
    PartsOfGlue(Glue(Glue(h, k), m), l);
  }

  lemma DecodedCharEncodes(bytes: seq<byte>)
    requires bytes != [] && FirstChar(bytes).Some?
    ensures EncodeChar(FirstChar(bytes).value.c) == bytes[..FirstChar(bytes).value.width]
  {
    var w := FirstChar(bytes).value.width;
    if w == 2 {
      TwoBytes(Lead(bytes[0], 0xC0), Bits(bytes[1]));
    } else if w == 3 {
      ThreeBytes(Lead(bytes[0], 0xE0), Bits(bytes[1]), Bits(bytes[2]));
    } else if w == 4 {
      FourBytes(Lead(bytes[0], 0xF0), Bits(bytes[1]), Bits(bytes[2]), Bits(bytes[3]));
    }
  }

  lemma {:induction false} DecodeInvertsEncode(s: string)
    ensures Decode(Encode(s)) == Some(s)
  {
    if s != "" {
      DecodeInvertsEncode(s[1..]);
      EncodedCharDecodes(s[0], Encode(s[1..]));
      assert Encode(s)[|EncodeChar(s[0])|..] == Encode(s[1..]);
      assert [s[0]] + s[1..] == s;
    }
  }

  lemma DecodeFirst(bytes: seq<byte>, s: string) returns (first: Scalar)
    requires bytes != [] && Decode(bytes) == Some(s)
    ensures s != "" && 1 <= first.width <= |bytes| && s[0] == first.c
    ensures EncodeChar(s[0]) == bytes[..first.width] && Decode(bytes[first.width..]) == Some(s[1..])
  {
    first := FirstChar(bytes).value;
    DecodedCharEncodes(bytes);
  }

  /** Decoding is strict: only the encoding of a string decodes to it. */
  lemma {:induction false} OnlyEncodingsDecode(bytes: seq<byte>, s: string)
    requires Decode(bytes) == Some(s)
    ensures Encode(s) == bytes
    decreases |bytes|
  {
    if bytes != [] {
      var first := DecodeFirst(bytes, s);
      OnlyEncodingsDecode(bytes[first.width..], s[1..]);
      assert bytes == bytes[..first.width] + bytes[first.width..];
    }
  }

  predicate Ascii(s: string) {
    forall i :: 0 <= i < |s| ==> s[i] as int < 0x80
  }

  function Codes(s: string): seq<byte>
    requires Ascii(s)
  {
    seq(|s|, i requires 0 <= i < |s| => s[i] as int)
  }

  lemma {:induction false} AsciiIsItsCodes(s: string)
    requires Ascii(s)
    ensures Encode(s) == Codes(s)
  {
    if s != "" {
      AsciiIsItsCodes(s[1..]);
      assert Codes(s) == [s[0] as int] + Codes(s[1..]);
    }
  }
}
