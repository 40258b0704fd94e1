// The account bot's state file: what `persist_state` writes and `ProcessedMessageStore::load` reads back
// (examples/account_bot.rs).

module BotFile {
  import opened Wrappers
  import opened BotStore
  import opened StateId
  import opened Text
  import BotGuarantees
  import TextOrder

  const PROCESSED_V2 := "processed_v2\t"
  const ATTEMPT_V2 := "attempt_v2\t"
  const PROCESSED_V1 := "processed\t"
  const ATTEMPT_V1 := "attempt\t"

  // ----- writing -----

  function ProcessedLine(id: string): string {
    PROCESSED_V2 + Encoded(id)
  }

  function AttemptLine(id: string, expiresAt: nat): string {
    ATTEMPT_V2 + Decimal(expiresAt) + "\t" + Encoded(id)
  }

  function ProcessedLines(order: seq<string>): string {
    if order == [] then "" else ProcessedLine(order[0]) + "\n" + ProcessedLines(order[1..])
  }

  function AttemptLines(ids: seq<string>, attempts: map<string, nat>): string
    requires forall id :: id in ids ==> id in attempts
  {
    if ids == [] then ""
    else AttemptLine(ids[0], attempts[ids[0]]) + "\n" + AttemptLines(ids[1..], attempts)
  }

  /** The file: processed ids oldest first, then the leases in the order of their ids. */
  ghost function StateText(image: Image): string {
    TextOrder.InOrderLists(image.attempts.Keys);
    ProcessedLines(image.order) + AttemptLines(TextOrder.InOrder(image.attempts.Keys), image.attempts)
  }

  lemma ProcessedStep(before: string, order: seq<string>, i: nat)
    requires i < |order|
    ensures before + ProcessedLines(order[i..])
            == before + PROCESSED_V2 + Encoded(order[i]) + "\n" + ProcessedLines(order[i + 1..])
  {
  }

  method WriteState(order: seq<string>, attempts: map<string, nat>) returns (text: string)
    ensures text == StateText(Image(order, attempts))
  {
    text := "";
    assert order[0..] == order;
    for i := 0 to |order|
      invariant text + ProcessedLines(order[i..]) == ProcessedLines(order)
    {
      ProcessedStep(text, order, i);
      var encoded := EncodeStateId(order[i]);
      text := text + PROCESSED_V2 + encoded + "\n";
    }
    var attemptText := WriteAttempts(attempts);
    text := text + attemptText;
  }

  lemma AttemptStep(before: string, id: string, rest: seq<string>, attempts: map<string, nat>)
    requires id in attempts && forall x :: x in rest ==> x in attempts
    ensures before + AttemptLines([id] + rest, attempts)
            == before + ATTEMPT_V2 + Decimal(attempts[id]) + "\t" + Encoded(id) + "\n" + AttemptLines(rest, attempts)
  {
    assert ([id] + rest)[1..] == rest;
  }

  method WriteAttempts(attempts: map<string, nat>) returns (text: string)
    ensures forall id :: id in TextOrder.InOrder(attempts.Keys) ==> id in attempts
    ensures text == AttemptLines(TextOrder.InOrder(attempts.Keys), attempts)
  {
    text := "";
    var left := attempts.Keys;
    ghost var all := TextOrder.InOrder(left);
    ghost var todo := all;
    TextOrder.InOrderLists(left);
    while left != {}
      invariant left <= attempts.Keys && todo == TextOrder.InOrder(left)
      invariant (forall id :: id in all ==> id in attempts) && forall id :: id in todo ==> id in attempts
      invariant text + AttemptLines(todo, attempts) == AttemptLines(all, attempts)
      decreases left
    {
      var id, rest := TextOrder.TakeLeast(left);
      todo := TextOrder.InOrder(rest);
      TextOrder.InOrderLists(rest);
      AttemptStep(text, id, todo, attempts);
      var encoded := EncodeStateId(id);
      text := text + ATTEMPT_V2 + Decimal(attempts[id]) + "\t" + encoded + "\n";
      left := rest;
    }
  }

  // ----- reading -----

  /** The text before and after the first tab. */
  function SplitAtTab(s: string): Option<(string, string)> {
    if s == "" then None
    else if s[0] == '\t' then Some(("", s[1..]))
    else
      var rest := SplitAtTab(s[1..]);
      if rest.None? then None else Some(([s[0]] + rest.value.0, rest.value.1))
  }

  /** A lease read from a line, kept if it has not run out and its id is not blank. */
  function AddLease(image: Image, expiresAt: Option<nat>, id: Option<string>, now: nat): Image {
    if expiresAt.Some? && id.Some? && expiresAt.value > now && !Blank(id.value)
    then image.(attempts := image.attempts[id.value := expiresAt.value])
    else image
  }

  function AddId(image: Image, id: string, maxIds: nat): Image {
    image.(order := AddProcessed(image.order, maxIds, id))
  }

  /** What one line of the file adds, in the current format or the ones before it. */
  function ReadLine(image: Image, untrimmed: string, maxIds: nat, now: nat): Image {
    var line := Trim(untrimmed);
    if line == "" then image
    else if PROCESSED_V2 <= line then
      var id := Decoded(line[|PROCESSED_V2|..]);
      if id.Some? then AddId(image, id.value, maxIds) else image
    else if ATTEMPT_V2 <= line then
      var parts := SplitAtTab(line[|ATTEMPT_V2|..]);
      if parts.Some? then AddLease(image, ParseU64(parts.value.0), Decoded(parts.value.1), now) else image
    else if PROCESSED_V1 <= line then AddId(image, line[|PROCESSED_V1|..], maxIds)
    else if ATTEMPT_V1 <= line then
      var parts := SplitAtTab(line[|ATTEMPT_V1|..]);
      if parts.Some? then AddLease(image, ParseU64(parts.value.0), Some(parts.value.1), now) else image
    else AddId(image, line, maxIds)
  }

  /** Where the first line ends. */
  function LineEnd(text: string): (n: nat)
    ensures n <= |text| && '\n' !in text[..n] && (n < |text| ==> text[n] == '\n')
  {
    if text == "" || text[0] == '\n' then 0 else 1 + LineEnd(text[1..])
  }

  function AfterLine(text: string): (rest: string)
    requires text != ""
    ensures |rest| < |text|
  {
    if LineEnd(text) < |text| then text[LineEnd(text) + 1..] else ""
  }

  /** Reading the rest of a file, line by line. */
  function ReadAll(image: Image, text: string, maxIds: nat, now: nat): Image
    decreases |text|
  {
    if text == "" then image
    else ReadAll(ReadLine(image, text[..LineEnd(text)], maxIds, now), AfterLine(text), maxIds, now)
  }

  function Loaded(text: string, maxIds: nat, now: nat): Image {
    ReadAll(Image([], map[]), text, maxIds, now)
  }

  method Load(text: string, maxIds: nat, now: nat) returns (store: ProcessedMessageStore)
    ensures fresh(store) && store.Valid()
    ensures store.View() == BotState(Elements(Loaded(text, maxIds, now).order), Loaded(text, maxIds, now).order,
                                     Loaded(text, maxIds, now).attempts, {}, {}, maxIds)
  {
    store := new ProcessedMessageStore([], map[], maxIds, Image([], map[]));
    var left := text;
    while left != ""
      invariant fresh(store) && store.Valid() && store.maxIds == maxIds
      invariant store.inflight == {} && store.volatileIds == {}
      invariant ReadAll(Image(store.order, store.attempts), left, maxIds, now) == Loaded(text, maxIds, now)
      decreases |left|
    {
      var n := LineEnd(left);
      TakeLine(store, left[..n], now);
      left := AfterLine(left);
    }
  }

  method TakeLine(store: ProcessedMessageStore, untrimmed: string, now: nat)
    requires store.Valid()
    modifies store
    ensures store.Valid()
    ensures Image(store.order, store.attempts)
            == ReadLine(old(Image(store.order, store.attempts)), untrimmed, store.maxIds, now)
    ensures store.inflight == old(store.inflight) && store.volatileIds == old(store.volatileIds)
  {
    var line := Trim(untrimmed);
    if line == "" {
      return;
    }
    if PROCESSED_V2 <= line {
      var id := DecodeStateId(line[|PROCESSED_V2|..]);
      if id.Some? {
        store.AddProcessedId(id.value);
      }
      return;
    }
    if ATTEMPT_V2 <= line {
      var parts := SplitAtTab(line[|ATTEMPT_V2|..]);
      if parts.Some? {
        var id := DecodeStateId(parts.value.1);
        TakeLease(store, ParseU64(parts.value.0), id, now);
      }
      return;
    }
    if PROCESSED_V1 <= line {
      store.AddProcessedId(line[|PROCESSED_V1|..]);
      return;
    }
    if ATTEMPT_V1 <= line {
      var parts := SplitAtTab(line[|ATTEMPT_V1|..]);
      if parts.Some? {
        TakeLease(store, ParseU64(parts.value.0), Some(parts.value.1), now);
      }
      return;
    }
    store.AddProcessedId(line);
  }

  method TakeLease(store: ProcessedMessageStore, expiresAt: Option<nat>, id: Option<string>, now: nat)
    modifies store`attempts
    ensures Image(store.order, store.attempts) == AddLease(old(Image(store.order, store.attempts)), expiresAt, id, now)
  {
    if expiresAt.Some? && id.Some? {
      if expiresAt.value > now && !Blank(id.value) {
        store.attempts := store.attempts[id.value := expiresAt.value];
      }
    }
  }

  // ----- reading what was written -----

  lemma {:induction false} FirstLineEnds(line: string, rest: string)
    requires '\n' !in line
    ensures LineEnd(line + "\n" + rest) == |line|
  {
    if line != "" {
      FirstLineEnds(line[1..], rest);
      assert (line + "\n" + rest)[1..] == line[1..] + "\n" + rest;
    }
  }

  lemma ReadFirst(image: Image, line: string, rest: string, maxIds: nat, now: nat)
    requires '\n' !in line
    ensures ReadAll(image, line + "\n" + rest, maxIds, now) == ReadAll(ReadLine(image, line, maxIds, now), rest, maxIds, now)
  {
    var text := line + "\n" + rest;
    FirstLineEnds(line, rest);
    assert text[..|line|] == line && text[|line| + 1..] == rest;
  }

  ghost predicate AllPlain(code: string) {
    forall c :: c in code ==> Plain(c)
  }

  /** A line that begins with a letter and ends in an encoded id has nothing to trim. */
  lemma NothingToTrim(head: string, code: string)
    requires head != "" && !IsWhitespace(head[0]) && code != "" && AllPlain(code)
    ensures Trim(head + code) == head + code
  {
    var line := head + code;
    assert line[|line| - 1] == code[|code| - 1];
    assert Plain(code[|code| - 1]);
  }

  /** A line whose id is empty loses the tab before it. */
  lemma TabIsTrimmed(head: string)
    requires head != "" && !IsWhitespace(head[0]) && !IsWhitespace(head[|head| - 1])
    ensures Trim(head + "\t") == head
  {
    var line := head + "\t";
    assert line[|line| - 1] == '\t' && line[..|line| - 1] == head;
    assert TrimStart(line) == line && TrimEnd(line) == TrimEnd(head);
  }

  /** What a processed id is read back as: an empty one leaves only the line's tag. */
  function ReadBack(id: string): string {
    if id == "" then "processed_v2" else id
  }

  lemma ReadProcessedLine(image: Image, code: string, maxIds: nat, now: nat)
    requires code != "" && AllPlain(code)
    ensures ReadLine(image, PROCESSED_V2 + code, maxIds, now)
            == if Decoded(code).Some? then AddId(image, Decoded(code).value, maxIds) else image
  {
    NothingToTrim(PROCESSED_V2, code);
    assert (PROCESSED_V2 + code)[|PROCESSED_V2|..] == code;
  }

  lemma ReadEmptyProcessedLine(image: Image, maxIds: nat, now: nat)
    ensures ReadLine(image, PROCESSED_V2, maxIds, now) == AddId(image, "processed_v2", maxIds)
  {
    var tag := "processed_v2";
    TabIsTrimmed(tag);
    assert tag + "\t" == PROCESSED_V2;
    assert tag[9] != PROCESSED_V1[9];
  }

  lemma ProcessedLineReadsBack(image: Image, id: string, maxIds: nat, now: nat)
    ensures '\n' !in ProcessedLine(id)
    ensures ReadLine(image, ProcessedLine(id), maxIds, now) == AddId(image, ReadBack(id), maxIds)
  {
    var code := Encoded(id);
    EncodedIsPlain(id);
    DecodeInvertsEncode(id);
    if id == "" {
      ReadEmptyProcessedLine(image, maxIds, now);
      assert PROCESSED_V2 + code == PROCESSED_V2;
    } else {
      ReadProcessedLine(image, code, maxIds, now);
    }
  }

  lemma {:induction false} SplitAfterDigits(digits: string, rest: string)
    requires '\t' !in digits
    ensures SplitAtTab(digits + "\t" + rest) == Some((digits, rest))
    ensures SplitAtTab(digits) == None
  {
    var s := digits + "\t" + rest;
    if digits == "" {
      assert s[1..] == rest;
    } else {
      SplitAfterDigits(digits[1..], rest);
      assert s[1..] == digits[1..] + "\t" + rest;
      assert [digits[0]] + digits[1..] == digits;
    }
  }

  lemma ReadAttemptLine(image: Image, digits: string, code: string, maxIds: nat, now: nat)
    requires code != "" && AllPlain(code) && '\t' !in digits
    ensures ReadLine(image, ATTEMPT_V2 + digits + "\t" + code, maxIds, now)
            == AddLease(image, ParseU64(digits), Decoded(code), now)
  {
    var line := ATTEMPT_V2 + digits + "\t" + code;
    NothingToTrim(ATTEMPT_V2 + digits + "\t", code);
    SplitAfterDigits(digits, code);
    assert line[|ATTEMPT_V2|..] == digits + "\t" + code;
    assert line[..|ATTEMPT_V2|] == ATTEMPT_V2;
    assert line[0] != PROCESSED_V2[0];
  }

  lemma ReadEmptyAttemptLine(image: Image, digits: string, maxIds: nat, now: nat)
    requires digits != "" && '\t' !in digits && !IsWhitespace(digits[|digits| - 1])
    ensures ReadLine(image, ATTEMPT_V2 + digits + "\t", maxIds, now) == image
  {
    var line := ATTEMPT_V2 + digits;
    TabIsTrimmed(line);
    SplitAfterDigits(digits, "");
    assert line[|ATTEMPT_V2|..] == digits;
    assert line[..|ATTEMPT_V2|] == ATTEMPT_V2;
    assert line[0] != PROCESSED_V2[0];
  }

  lemma DecimalIsPlain(n: nat)
    ensures AllPlain(Decimal(n)) && '\t' !in Decimal(n) && !IsWhitespace(Decimal(n)[|Decimal(n)| - 1])
  {
  }

  lemma NoNewline(digits: string, code: string)
    requires AllPlain(digits) && AllPlain(code)
    ensures '\n' !in ATTEMPT_V2 + digits + "\t" + code
  {
  }

  lemma AttemptLineReadsBack(image: Image, id: string, expiresAt: nat, maxIds: nat, now: nat)
    requires expiresAt <= MAX_U64
    ensures '\n' !in AttemptLine(id, expiresAt)
    ensures ReadLine(image, AttemptLine(id, expiresAt), maxIds, now) == AddLease(image, Some(expiresAt), Some(id), now)
  {
    var digits, code := Decimal(expiresAt), Encoded(id);
    DecimalIsPlain(expiresAt);
    EncodedIsPlain(id);
    DecodeInvertsEncode(id);
    ParseOfDecimal(expiresAt);
    NoNewline(digits, code);
    if id == "" {
      ReadEmptyAttemptLine(image, digits, maxIds, now);
      assert ATTEMPT_V2 + digits + "\t" + code == ATTEMPT_V2 + digits + "\t";
    } else {
      ReadAttemptLine(image, digits, code, maxIds, now);
    }
  }

  function ReadBacks(order: seq<string>): seq<string> {
    seq(|order|, i requires 0 <= i < |order| => ReadBack(order[i]))
  }

  lemma {:induction false} ProcessedLinesReadBack(image: Image, order: seq<string>, rest: string, maxIds: nat, now: nat)
    ensures ReadAll(image, ProcessedLines(order) + rest, maxIds, now)
            == ReadAll(Image(AddAll(image.order, maxIds, ReadBacks(order)), image.attempts), rest, maxIds, now)
    decreases |order|
  {
    if order == [] {
      assert ProcessedLines(order) + rest == rest;
    } else {
      var line, later := ProcessedLine(order[0]), ProcessedLines(order[1..]) + rest;
      assert ProcessedLines(order) + rest == line + "\n" + later;
      ProcessedLineReadsBack(image, order[0], maxIds, now);
      ReadFirst(image, line, later, maxIds, now);
      ProcessedLinesReadBack(AddId(image, ReadBack(order[0]), maxIds), order[1..], rest, maxIds, now);
      assert ReadBacks(order)[1..] == ReadBacks(order[1..]);
    }
  }

  /** The leases among `ids` that are read back: those left at `now` whose id is not blank. */
  function LeasesReadBack(ids: seq<string>, attempts: map<string, nat>, now: nat): map<string, nat>
    requires forall id :: id in ids ==> id in attempts
  {
    map id | id in ids && attempts[id] > now && !Blank(id) :: attempts[id]
  }

  lemma OneMoreLease(image: Image, ids: seq<string>, attempts: map<string, nat>, now: nat)
    requires ids != [] && forall id :: id in ids ==> id in attempts
    ensures AddLease(image, Some(attempts[ids[0]]), Some(ids[0]), now).attempts + LeasesReadBack(ids[1..], attempts, now)
            == image.attempts + LeasesReadBack(ids, attempts, now)
  {
  }

  lemma {:induction false} AttemptLinesReadBack(image: Image, ids: seq<string>, attempts: map<string, nat>, maxIds: nat, now: nat)
    requires forall id :: id in ids ==> id in attempts && attempts[id] <= MAX_U64
    ensures ReadAll(image, AttemptLines(ids, attempts), maxIds, now)
            == Image(image.order, image.attempts + LeasesReadBack(ids, attempts, now))
    decreases |ids|
  {
    if ids == [] {
      assert image.attempts + LeasesReadBack(ids, attempts, now) == image.attempts;
    } else {
      var id, later := ids[0], AttemptLines(ids[1..], attempts);
      var line := AttemptLine(id, attempts[id]);
      var next := AddLease(image, Some(attempts[id]), Some(id), now);
      AttemptLineReadsBack(image, id, attempts[id], maxIds, now);
      ReadFirst(image, line, later, maxIds, now);
      AttemptLinesReadBack(next, ids[1..], attempts, maxIds, now);
      OneMoreLease(image, ids, attempts, now);
    }
  }

  /** Exactly what loading a written file gives, for all ids and leases. */
  lemma LoadedOfWritten(image: Image, maxIds: nat, now: nat)
    requires forall id :: id in image.attempts ==> image.attempts[id] <= MAX_U64
    ensures Loaded(StateText(image), maxIds, now).order == AddAll([], maxIds, ReadBacks(image.order))
    ensures Loaded(StateText(image), maxIds, now).attempts
            == map id | id in image.attempts && image.attempts[id] > now && !Blank(id) :: image.attempts[id]
  {
    var ids := TextOrder.InOrder(image.attempts.Keys);
    TextOrder.InOrderLists(image.attempts.Keys);
    var order := AddAll([], maxIds, ReadBacks(image.order));
    ProcessedLinesReadBack(Image([], map[]), image.order, AttemptLines(ids, image.attempts), maxIds, now);
    AttemptLinesReadBack(Image(order, map[]), ids, image.attempts, maxIds, now);
    AllLeases(image.attempts, ids, now);
  }

  lemma AllLeases(attempts: map<string, nat>, ids: seq<string>, now: nat)
    requires forall id :: id in ids <==> id in attempts
    ensures map[] + LeasesReadBack(ids, attempts, now)
            == map id | id in attempts && attempts[id] > now && !Blank(id) :: attempts[id]
  {
  }

  // ----- the round trip -----

  lemma {:induction false} AddAllFits(order: seq<string>, maxIds: nat, added: seq<string>)
    requires Distinct(order + added) && |order + added| <= maxIds
    ensures AddAll(order, maxIds, added) == order + added
    decreases |added|
  {
    if added == [] {
      assert order + added == order;
    } else {
      assert order + added == order + [added[0]] + added[1..];
      assert added[0] !in order by {
        forall k | 0 <= k < |order| ensures order[k] != added[0] {
          assert (order + added)[k] != (order + added)[|order|];
        }
      }
      AddAllFits(order + [added[0]], maxIds, added[1..]);
    }
  }

  /** A file gives the processed ids back in order exactly if none of them is empty. */
  lemma OrderRoundTrip(image: Image, maxIds: nat, now: nat)
    requires Distinct(image.order) && |image.order| <= maxIds
    requires forall id :: id in image.attempts ==> image.attempts[id] <= MAX_U64
    ensures Loaded(StateText(image), maxIds, now).order == image.order <==> "" !in image.order
  {
    LoadedOfWritten(image, maxIds, now);
    if "" in image.order {
      forall i | 0 <= i < |image.order| ensures ReadBacks(image.order)[i] != "" { }
      BotGuarantees.NotAdded([], maxIds, ReadBacks(image.order), "");
    } else {
      assert ReadBacks(image.order) == image.order;
      assert [] + image.order == image.order;
      AddAllFits([], maxIds, image.order);
    }
  }

  /** It gives exactly the leases that are left back if and only if none of those has a blank id. */
  lemma LeaseRoundTrip(image: Image, maxIds: nat, now: nat)
    requires forall id :: id in image.attempts ==> image.attempts[id] <= MAX_U64
    ensures var left := map id | id in image.attempts && image.attempts[id] > now :: image.attempts[id];
      Loaded(StateText(image), maxIds, now).attempts == left <==> forall id :: id in left ==> !Blank(id)
  {
    LoadedOfWritten(image, maxIds, now);
    var left := map id | id in image.attempts && image.attempts[id] > now :: image.attempts[id];
    var loaded := Loaded(StateText(image), maxIds, now).attempts;
    if loaded == left {
      forall id | id in left ensures !Blank(id) { assert id in loaded; }
    }
  }

  // ----- older formats -----

  /** The id fills its line: it is not empty, has no white space at its ends and no line break. */
  predicate Tidy(id: string) {
    id != "" && !IsWhitespace(id[0]) && !IsWhitespace(id[|id| - 1]) && '\n' !in id
  }

  predicate Untagged(id: string) {
    !("processed_v2\t" <= id) && !("attempt_v2\t" <= id) && !("processed\t" <= id) && !("attempt\t" <= id)
  }

  /** The line says in an older format that the id is processed, tagged or alone on its line. */
  ghost predicate SaysProcessed(line: string, current: string, id: string) {
    Tidy(id) && current == ProcessedLine(id) && (line == "processed\t" + id || (line == id && Untagged(id)))
  }

  /** The line says in an older format that the message is leased. */
  ghost predicate SaysLeased(line: string, current: string, id: string, expiresAt: nat) {
    && Tidy(id) && expiresAt <= MAX_U64 && current == AttemptLine(id, expiresAt)
    && line == "attempt\t" + Decimal(expiresAt) + "\t" + id
  }

  /** The line says in an older format what the other says in the current one, or is that line. */
  ghost predicate SaysSame(line: string, current: string) {
    || (exists id :: SaysProcessed(line, current, id))
    || (exists id, expiresAt: nat :: SaysLeased(line, current, id, expiresAt))
    || (line == current && '\n' !in line)
  }

  lemma NothingAround(line: string)
    requires line != "" && !IsWhitespace(line[0]) && !IsWhitespace(line[|line| - 1])
    ensures Trim(line) == line
  {
  }

  lemma ReadOlderProcessed(image: Image, id: string, maxIds: nat, now: nat)
    requires Tidy(id)
    ensures ReadLine(image, "processed\t" + id, maxIds, now) == AddId(image, id, maxIds)
    ensures Untagged(id) ==> ReadLine(image, id, maxIds, now) == AddId(image, id, maxIds)
  {
    var line := "processed\t" + id;
    assert line[|line| - 1] == id[|id| - 1];
    NothingAround(line);
    NothingAround(id);
    assert line[9] == '\t' && PROCESSED_V2[9] == '_' && ATTEMPT_V2[0] != line[0];
    assert line[|PROCESSED_V1|..] == id;
  }

  lemma NoPrefix(a: string, b: string, i: nat)
    requires i < |a| && i < |b| && a[i] != b[i]
    ensures !(a <= b)
  {
  }

  lemma IsTaggedAttempt(line: string, rest: string)
    requires line == ATTEMPT_V1 + rest
    ensures line != "" && line[0] == 'a' && ATTEMPT_V1 <= line && line[|ATTEMPT_V1|..] == rest
    ensures !(PROCESSED_V2 <= line) && !(ATTEMPT_V2 <= line) && !(PROCESSED_V1 <= line)
  {
    NoPrefix(PROCESSED_V2, line, 0);
    NoPrefix(PROCESSED_V1, line, 0);
    assert line[7] == '\t';
    NoPrefix(ATTEMPT_V2, line, 7);
  }

  lemma ReadsAsOlderAttempt(image: Image, line: string, maxIds: nat, now: nat)
    requires Trim(line) == line && line != ""
    requires !(PROCESSED_V2 <= line) && !(ATTEMPT_V2 <= line) && !(PROCESSED_V1 <= line) && ATTEMPT_V1 <= line
    ensures var parts := SplitAtTab(line[|ATTEMPT_V1|..]);
      ReadLine(image, line, maxIds, now)
      == if parts.Some? then AddLease(image, ParseU64(parts.value.0), Some(parts.value.1), now) else image
  {
  }

  lemma ReadTaggedAttempt(image: Image, line: string, rest: string, maxIds: nat, now: nat)
    requires line == ATTEMPT_V1 + rest && rest != "" && !IsWhitespace(rest[|rest| - 1])
    ensures var parts := SplitAtTab(rest);
      ReadLine(image, line, maxIds, now)
      == if parts.Some? then AddLease(image, ParseU64(parts.value.0), Some(parts.value.1), now) else image
  {
    IsTaggedAttempt(line, rest);
    assert line[|line| - 1] == rest[|rest| - 1];
    NothingAround(line);
    ReadsAsOlderAttempt(image, line, maxIds, now);
  }

  lemma ReadOlderAttempt(image: Image, id: string, expiresAt: nat, maxIds: nat, now: nat)
    requires Tidy(id) && expiresAt <= MAX_U64
    ensures ReadLine(image, "attempt\t" + Decimal(expiresAt) + "\t" + id, maxIds, now)
            == AddLease(image, Some(expiresAt), Some(id), now)
    ensures '\n' !in "attempt\t" + Decimal(expiresAt) + "\t" + id
  {
    var digits := Decimal(expiresAt);
    var rest := digits + "\t" + id;
    assert rest[|rest| - 1] == id[|id| - 1];
    DecimalIsPlain(expiresAt);
    ParseOfDecimal(expiresAt);
    SplitAfterDigits(digits, id);
    assert "attempt\t" + rest == "attempt\t" + digits + "\t" + id;
    ReadTaggedAttempt(image, "attempt\t" + rest, rest, maxIds, now);
  }

  /** A line of an older format is read as the line of the current one that says the same. */
  lemma OlderLineReadsSame(image: Image, line: string, current: string, maxIds: nat, now: nat)
    requires SaysSame(line, current)
    ensures '\n' !in line && '\n' !in current
    ensures ReadLine(image, line, maxIds, now) == ReadLine(image, current, maxIds, now)
  {
    if id :| SaysProcessed(line, current, id) {
      ReadOlderProcessed(image, id, maxIds, now);
      ProcessedLineReadsBack(image, id, maxIds, now);
    } else if id, expiresAt: nat :| SaysLeased(line, current, id, expiresAt) {
      ReadOlderAttempt(image, id, expiresAt, maxIds, now);
      AttemptLineReadsBack(image, id, expiresAt, maxIds, now);
    }
  }

  function TextOf(lines: seq<string>): string {
    if lines == [] then "" else lines[0] + "\n" + TextOf(lines[1..])
  }

  lemma {:induction false} OlderLinesReadSame(image: Image, lines: seq<string>, current: seq<string>, maxIds: nat, now: nat)
    requires |lines| == |current|
    requires forall i :: 0 <= i < |lines| ==> SaysSame(lines[i], current[i])
    ensures ReadAll(image, TextOf(lines), maxIds, now) == ReadAll(image, TextOf(current), maxIds, now)
    decreases |lines|
  {
    if lines != [] {
      OlderLineReadsSame(image, lines[0], current[0], maxIds, now);
      ReadFirst(image, lines[0], TextOf(lines[1..]), maxIds, now);
      ReadFirst(image, current[0], TextOf(current[1..]), maxIds, now);
      OlderLinesReadSame(ReadLine(image, current[0], maxIds, now), lines[1..], current[1..], maxIds, now);
    }
  }

  /** A file written in older formats, or in a mixture of old and new, loads as the current file that says the
      same. */
  lemma OlderFileLoadsSame(lines: seq<string>, current: seq<string>, maxIds: nat, now: nat)
    requires |lines| == |current|
    requires forall i :: 0 <= i < |lines| ==> SaysSame(lines[i], current[i])
    ensures Loaded(TextOf(lines), maxIds, now) == Loaded(TextOf(current), maxIds, now)
  {
    OlderLinesReadSame(Image([], map[]), lines, current, maxIds, now);
  }
}
