// Blank strings and decimal numbers, as both stores read and write them.

module Text {
  import opened Wrappers

  /** Unicode white space. */
  predicate IsWhitespace(c: char) {
    || '\U{0009}' <= c <= '\U{000D}' || c == ' ' || c == '\U{0085}' || c == '\U{00A0}' || c == '\U{1680}'
    || '\U{2000}' <= c <= '\U{200A}' || c == '\U{2028}' || c == '\U{2029}' || c == '\U{202F}'
    || c == '\U{205F}' || c == '\U{3000}'
  }

  /** Nothing is left of the string once it is trimmed. */
  predicate Blank(s: string) {
    forall i :: 0 <= i < |s| ==> IsWhitespace(s[i])
  }

  function TrimStart(s: string): string {
    if s != "" && IsWhitespace(s[0]) then TrimStart(s[1..]) else s
  }

  function TrimEnd(s: string): string {
    if s != "" && IsWhitespace(s[|s| - 1]) then TrimEnd(s[..|s| - 1]) else s
  }

  function Trim(s: string): string {
    TrimEnd(TrimStart(s))
  }

  predicate IsDigit(c: char) { '0' <= c <= '9' }

  function Digit(d: nat): char
    requires d < 10
  {
    '0' + d as char
  }

  function Decimal(n: nat): (r: string)
    ensures r != [] && forall i :: 0 <= i < |r| ==> IsDigit(r[i])
  {
    if n < 10 then [Digit(n)] else Decimal(n / 10) + [Digit(n % 10)]
  }

  function SignedDecimal(n: int): string {
    if n < 0 then "-" + Decimal(-n) else Decimal(n)
  }

  function DigitValue(c: char): nat
    requires IsDigit(c)
  {
    c as int - '0' as int
  }

  function Value(digits: string): nat
    requires forall i :: 0 <= i < |digits| ==> IsDigit(digits[i])
  {
    if digits == [] then 0
    else 10 * Value(digits[..|digits| - 1]) + DigitValue(digits[|digits| - 1])
  }

  lemma {:induction false} ValueOfDecimal(n: nat)
    ensures Value(Decimal(n)) == n
  {
    if n >= 10 {
      ValueOfDecimal(n / 10);
      assert Decimal(n)[..|Decimal(n)| - 1] == Decimal(n / 10);
    }
  }

  const MAX_U64: nat := 0xFFFF_FFFF_FFFF_FFFF

  /** Reading an unsigned 64-bit number: digits, with at most one plus sign before them. */
  function ParseU64(s: string): Option<nat> {
    var digits := if s != "" && s[0] == '+' then s[1..] else s;
    if digits == "" || exists i :: 0 <= i < |digits| && !IsDigit(digits[i]) then None
    else if Value(digits) > MAX_U64 then None
    else Some(Value(digits))
  }

  lemma ParseOfDecimal(n: nat)
    ensures ParseU64(Decimal(n)) == if n <= MAX_U64 then Some(n) else None
  {
    ValueOfDecimal(n);
    assert IsDigit(Decimal(n)[0]);
  }

  // ----- attempt ids -----

  function AttemptText(micros: int, pid: nat, sequence: nat): string {
    SignedDecimal(micros) + "-" + Decimal(pid) + "-" + Decimal(sequence)
  }

  /** Two strings that end in a dash and digits are equal only if what comes before and the digits are. */
  lemma DashedSuffix(a: string, b: string, x: string, y: string)
    requires a + "-" + x == b + "-" + y
    requires (forall i :: 0 <= i < |x| ==> IsDigit(x[i])) && (forall i :: 0 <= i < |y| ==> IsDigit(y[i]))
    ensures a == b && x == y
  {
    var s := a + "-" + x;
    assert s[|a|] == '-' && s[|b|] == '-';
    forall k | |a| < k < |s| ensures s[k] != '-' { assert s[k] == x[k - |a| - 1]; }
    forall k | |b| < k < |s| ensures s[k] != '-' { assert s[k] == y[k - |b| - 1]; }
    assert s[|a| + 1..] == x && s[|b| + 1..] == y;
    assert s[..|a|] == a && s[..|b|] == b;
  }

  lemma SameSigned(m: int, n: int)
    requires SignedDecimal(m) == SignedDecimal(n)
    ensures m == n
  {
    var a, b := Decimal(if m < 0 then -m else m), Decimal(if n < 0 then -n else n);
    assert IsDigit(a[0]) && IsDigit(b[0]);
    assert m < 0 ==> SignedDecimal(m)[0] == '-' && SignedDecimal(m)[1..] == a;
    assert n < 0 ==> SignedDecimal(n)[0] == '-' && SignedDecimal(n)[1..] == b;
    ValueOfDecimal(if m < 0 then -m else m);
    ValueOfDecimal(if n < 0 then -n else n);
  }

  /** An attempt id determines the time, process and number it was made of. */
  lemma AttemptTextIsInjective(micros: int, pid: nat, sequence: nat, micros': int, pid': nat, sequence': nat)
    requires AttemptText(micros, pid, sequence) == AttemptText(micros', pid', sequence')
    ensures micros == micros' && pid == pid' && sequence == sequence'
  {
    DashedSuffix(SignedDecimal(micros) + "-" + Decimal(pid), SignedDecimal(micros') + "-" + Decimal(pid'),
                 Decimal(sequence), Decimal(sequence'));
    DashedSuffix(SignedDecimal(micros), SignedDecimal(micros'), Decimal(pid), Decimal(pid'));
    SameSigned(micros, micros');
    ValueOfDecimal(pid);
    ValueOfDecimal(pid');
    ValueOfDecimal(sequence);
    ValueOfDecimal(sequence');
  }

  /** The sequence number alone keeps attempt ids apart. */
  lemma AttemptTextDiffers(micros: int, pid: nat, sequence: nat, micros': int, pid': nat, sequence': nat)
    requires sequence != sequence'
    ensures AttemptText(micros, pid, sequence) != AttemptText(micros', pid', sequence')
  {
    if AttemptText(micros, pid, sequence) == AttemptText(micros', pid', sequence') {
      AttemptTextIsInjective(micros, pid, sequence, micros', pid', sequence');
    }
  }

  lemma AttemptTextNotBlank(micros: int, pid: nat, sequence: nat)
    ensures !Blank(AttemptText(micros, pid, sequence))
  {
    var text := AttemptText(micros, pid, sequence);
    var digits := Decimal(sequence);
    assert text[|text| - 1] == digits[|digits| - 1];
    assert !IsWhitespace(text[|text| - 1]);
  }
}
