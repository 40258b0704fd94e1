// How a poll ends, in terms of the room's log: how many pages it takes in, whether it then commits, keeps
// what it has, or throws it away, and what it keeps.

module PollOutcome {
  import opened Wrappers
  import opened SeenWindow
  import opened PollerModel
  import opened RoomDelivery

  /** A finished catch-up that only waits to be emitted. */
  predicate Waiting(p: PollerState) {
    p.backlogNext.None? && p.pendingFresh != []
  }

  /** Where the poll's scan takes up: how far down it has come already. */
  ghost function ScanStart(p: PollerState, m: Marks, listed': nat): nat {
    if p.backlogNext.Some? then m.low else listed'
  }

  /** How far down the first `n` pages take a scan. */
  ghost function LowAfter(low: nat, end: nat, responses: seq<Response>, n: nat): nat
    decreases n
  {
    if n == 0 || responses == [] || !responses[0].Fetched? then low
    else LowAfter(Reached(low, PageEnd(responses[0].page), end), end, responses[1..], n - 1)
  }

  ghost predicate Fits(p: PollerState, low: nat, top: nat) {
    top - low <= AtLeastOne(p.config.maxPendingMessages)
  }

  /** The page meets a message that an initialized poller knows, or has no next link. */
  ghost predicate IsLast(p: PollerState, end: nat, page: Page) {
    (p.initialized && PageEnd(page) < end) || page.next.None?
  }

  /** The first `n` answers are pages that fit and are not the last. */
  ghost predicate Went(p: PollerState, end: nat, low: nat, top: nat, responses: seq<Response>, n: nat)
    decreases n
  {
    n > 0 ==>
      && responses != [] && responses[0].Fetched?
      && var page := responses[0].page; var low' := Reached(low, PageEnd(page), end);
         Fits(p, low', top) && !IsLast(p, end, page) && Went(p, end, low', top, responses[1..], n - 1)
  }

  function Answer(responses: seq<Response>, n: nat): Response {
    if n < |responses| then responses[n] else Failed(NO_RESPONSE)
  }

  /** The poll stops after `n` pages: it may take no more, the next request fails, or the next page does
      not fit or is the last. */
  ghost predicate StopsAfter(p: PollerState, end: nat, low: nat, top: nat, responses: seq<Response>, pages: nat, n: nat) {
    && n <= pages && Went(p, end, low, top, responses, n)
    && (n < pages && Answer(responses, n).Fetched? ==>
          !Fits(p, LowAfter(low, end, responses, n + 1), top) || IsLast(p, end, Answer(responses, n).page))
  }

  /** The poller holds the messages from `low` to `top`, to go on from the link of page `n`, and is otherwise
      as it was. */
  ghost predicate Keeps(log: seq<Message>, p: PollerState, p': PollerState, low: nat, top: nat, responses: seq<Response>,
                        n: nat)
    requires ValidLog(log) && low <= top <= |log|
  {
    && p'.pendingFresh == NewestFirst(log, low, top)
    && p'.pendingSeenIds == NewestIds(log, low, top)
    && 0 < n <= |responses| && responses[n - 1].Fetched? && responses[n - 1].page.next.Some?
    && p'.backlogNext == responses[n - 1].page.next
    && p'.initialized && p'.seen == p.seen && p'.config == p.config
  }

  /** The poller has taken the stretch from `low` to `top` into its window and holds nothing. */
  ghost predicate Took(log: seq<Message>, p: PollerState, p': PollerState, low: nat, top: nat)
    requires ValidLog(log) && low <= top <= |log|
  {
    && p'.seen == Remember(p.seen, NewestIds(log, low, top), p.config.maxSeenIds)
    && !p'.HasPendingBacklog() && p'.initialized && p'.config == p.config
  }

  /** The result and the poller that a poll which stops after `n` pages leaves. */
  ghost predicate Ends(log: seq<Message>, p: PollerState, end: nat, low: nat, top: nat, responses: seq<Response>,
                       pages: nat, n: nat, r: PollResult)
    requires ValidLog(log) && end <= low <= top <= |log|
  {
    var p', low' := AfterPoll(p, r), LowAfter(low, end, responses, n);
    var last := LowAfter(low, end, responses, n + 1);
    && end <= last <= low' <= low
    && if n == pages then
         && r.Ok?
         && (KeepsPending(p) ==> r.value.messages == [] && Keeps(log, p, p', low', top, responses, n))
         && (!KeepsPending(p) ==> r.value.messages == [] && Took(log, p, p', low', top))
       else if Answer(responses, n).Failed? then
         && r.Err? && r.error.error == Answer(responses, n).error
         && (r.error.update.Some? <==> KeepsPending(p) && n > 0)
         && if KeepsPending(p) && n > 0 then Keeps(log, p, p', low', top, responses, n) else p' == p
       else if !Fits(p, last, top) then
         r == Err(PollError(BACKLOG_EXCEEDED, None)) && p' == p
       else
         && r.Ok? && Took(log, p, p', last, top)
         && r.value.messages == if KeepsPending(p) then log[last..top] else []
  }

  ghost predicate EndsAt(log: seq<Message>, p: PollerState, end: nat, low: nat, top: nat, responses: seq<Response>,
                         pages: nat, n: nat, r: PollResult)
    requires ValidLog(log) && end <= low <= top <= |log|
  {
    && StopsAfter(p, end, low, top, responses, pages, n)
    && Ends(log, p, end, low, top, responses, pages, n, r)
  }

  /** A scan that has come to `low` with the first of `answers` in hand. */
  ghost predicate Scanning(log: seq<Message>, p: PollerState, end: nat, low: nat, top: nat, from: nat,
                           answers: seq<Response>, unseen: seq<Message>, newIds: seq<MessageId>) {
    && ValidLog(log) && end <= low <= from <= top <= |log|
    && Separates(log, p.seen, end) && (!p.initialized ==> p.seen == [] && end == 0)
    && answers != [] && answers[0].Fetched? && ScanServed(log, from, top, answers[0].page, answers[1..])
    && newIds == NewestIds(log, low, top)
    && unseen == if KeepsPending(p) then NewestFirst(log, low, top) else []
  }

  ghost predicate GoesOn(p: PollerState, end: nat, low: nat, top: nat, page: Page) {
    Fits(p, Reached(low, PageEnd(page), end), top) && !IsLast(p, end, page)
  }

  /** A scan that stops at its first page. */
  lemma StopsAtFirst(log: seq<Message>, p: PollerState, end: nat, low: nat, top: nat, from: nat, answers: seq<Response>,
                     pagesLeft: nat, unseen: seq<Message>, newIds: seq<MessageId>)
    requires pagesLeft >= 1 && Scanning(log, p, end, low, top, from, answers, unseen, newIds)
    requires !GoesOn(p, end, low, top, answers[0].page)
    ensures EndsAt(log, p, end, low, top, answers, pagesLeft, 0,
                   ScanPages(p, answers[0].page, pagesLeft, unseen, newIds, answers[1..]))
  {
    var page := answers[0].page;
    OnePage(log, p, end, low, top, from, page, unseen, newIds);
    assert LowAfter(low, end, answers, 1) == Reached(low, PageEnd(page), end);
  }

  /** A scan that takes one page and goes on with none. */
  lemma StopsAfterFirst(log: seq<Message>, p: PollerState, end: nat, low: nat, top: nat, from: nat, answers: seq<Response>,
                        pagesLeft: nat, unseen: seq<Message>, newIds: seq<MessageId>)
    requires pagesLeft >= 1 && Scanning(log, p, end, low, top, from, answers, unseen, newIds)
    requires GoesOn(p, end, low, top, answers[0].page) && (pagesLeft == 1 || !NextResponse(answers[1..]).Fetched?)
    ensures EndsAt(log, p, end, low, top, answers, pagesLeft, 1,
                   ScanPages(p, answers[0].page, pagesLeft, unseen, newIds, answers[1..]))
  {
    var page := answers[0].page;
    OnePage(log, p, end, low, top, from, page, unseen, newIds);
    var low' := Reached(low, PageEnd(page), end);
    assert LowAfter(low, end, answers, 1) == low';
    assert Went(p, end, low, top, answers, 1);
    assert Answer(answers, 1) == NextResponse(answers[1..]);
    assert LowAfter(low, end, answers, 2) <= low';
  }

  lemma StopsHere(log: seq<Message>, p: PollerState, end: nat, low: nat, top: nat, from: nat, answers: seq<Response>,
                  pagesLeft: nat, unseen: seq<Message>, newIds: seq<MessageId>)
    returns (n: nat)
    requires pagesLeft >= 1 && Scanning(log, p, end, low, top, from, answers, unseen, newIds)
    requires GoesOn(p, end, low, top, answers[0].page) ==> pagesLeft == 1 || !NextResponse(answers[1..]).Fetched?
    ensures n <= 1
    ensures EndsAt(log, p, end, low, top, answers, pagesLeft, n,
                   ScanPages(p, answers[0].page, pagesLeft, unseen, newIds, answers[1..]))
  {
    if GoesOn(p, end, low, top, answers[0].page) {
      StopsAfterFirst(log, p, end, low, top, from, answers, pagesLeft, unseen, newIds);
      n := 1;
    } else {
      StopsAtFirst(log, p, end, low, top, from, answers, pagesLeft, unseen, newIds);
      n := 0;
    }
  }

  /** A page that goes on hands over to the scan of the next one. */
  lemma NextScan(log: seq<Message>, p: PollerState, end: nat, low: nat, top: nat, from: nat, answers: seq<Response>,
                 pagesLeft: nat, unseen: seq<Message>, newIds: seq<MessageId>)
    returns (from': nat, unseen': seq<Message>, newIds': seq<MessageId>)
    requires Scanning(log, p, end, low, top, from, answers, unseen, newIds)
    requires GoesOn(p, end, low, top, answers[0].page) && pagesLeft > 1 && NextResponse(answers[1..]).Fetched?
    ensures Scanning(log, p, end, Reached(low, PageEnd(answers[0].page), end), top, from', answers[1..], unseen', newIds')
    ensures ScanPages(p, answers[0].page, pagesLeft, unseen, newIds, answers[1..])
            == ScanPages(p, answers[1].page, pagesLeft - 1, unseen', newIds', answers[1..][1..])
  {
    var page := answers[0].page;
    OnePage(log, p, end, low, top, from, page, unseen, newIds);
    var c := Collect(p.seen, page.items, p.initialized, p.config.emitExistingOnFirstPoll, Elements(newIds));
    unseen', newIds' := unseen + c.unseen, newIds + c.newIds;
    from' := NextPage(log, page.next.value, top, answers[1..]);
  }

  /** Seen from the page before. */
  lemma EndsOneLater(log: seq<Message>, p: PollerState, end: nat, low: nat, low': nat, top: nat, answers: seq<Response>,
                     pagesLeft: nat, n: nat, r: PollResult)
    requires ValidLog(log) && end <= low <= top <= |log| && pagesLeft > 1
    requires |answers| > 1 && answers[0].Fetched? && answers[1].Fetched? && GoesOn(p, end, low, top, answers[0].page)
    requires low' == Reached(low, PageEnd(answers[0].page), end)
    requires EndsAt(log, p, end, low', top, answers[1..], pagesLeft - 1, n, r)
    ensures EndsAt(log, p, end, low, top, answers, pagesLeft, n + 1, r)
  {
    assert Answer(answers, n + 1) == Answer(answers[1..], n);
    assert 0 < n < |answers| ==> answers[n] == answers[1..][n - 1];
  }

  /** What the scan of these answers gives. */
  ghost predicate Gives(p: PollerState, answers: seq<Response>, pagesLeft: nat, unseen: seq<Message>,
                        newIds: seq<MessageId>, r: PollResult) {
    pagesLeft >= 1 && answers != [] && answers[0].Fetched?
    && r == ScanPages(p, answers[0].page, pagesLeft, unseen, newIds, answers[1..])
  }

  lemma GoesOnLater(log: seq<Message>, p: PollerState, end: nat, low: nat, top: nat, from: nat, answers: seq<Response>,
                    pagesLeft: nat, unseen: seq<Message>, newIds: seq<MessageId>, r: PollResult)
    returns (low': nat, from': nat, unseen': seq<Message>, newIds': seq<MessageId>)
    requires Scanning(log, p, end, low, top, from, answers, unseen, newIds)
    requires Gives(p, answers, pagesLeft, unseen, newIds, r)
    requires GoesOn(p, end, low, top, answers[0].page) && pagesLeft > 1 && NextResponse(answers[1..]).Fetched?
    ensures low' == Reached(low, PageEnd(answers[0].page), end) && |answers| > 1 && answers[1].Fetched?
    ensures ValidLog(log) && end <= low' <= top <= |log|
    ensures Scanning(log, p, end, low', top, from', answers[1..], unseen', newIds')
    ensures Gives(p, answers[1..], pagesLeft - 1, unseen', newIds', r)
  {
    low' := Reached(low, PageEnd(answers[0].page), end);
    from', unseen', newIds' := NextScan(log, p, end, low, top, from, answers, pagesLeft, unseen, newIds);
  }

  ghost predicate Continues(p: PollerState, end: nat, low: nat, top: nat, answers: seq<Response>, pagesLeft: nat) {
    && answers != [] && answers[0].Fetched? && GoesOn(p, end, low, top, answers[0].page)
    && pagesLeft > 1 && NextResponse(answers[1..]).Fetched?
  }

  /** Page by page: what holds where a scan stops, and of a page if it holds of the next one, holds of them all. */
  lemma {:induction false} PageByPage(p: PollerState, end: nat, top: nat, low: nat, answers: seq<Response>, pagesLeft: nat,
                                      scans: (nat, seq<Response>, nat) -> bool, ends: (nat, seq<Response>, nat, nat) -> bool)
    returns (n: nat)
    requires scans(low, answers, pagesLeft)
    requires forall l: nat, a: seq<Response>, k: nat {:trigger scans(l, a, k)} ::
      scans(l, a, k) && Continues(p, end, l, top, a, k) ==> scans(Reached(l, PageEnd(a[0].page), end), a[1..], k - 1)
    requires forall l: nat, a: seq<Response>, k: nat, n: nat {:trigger ends(l, a, k, n)} ::
      scans(l, a, k) && Continues(p, end, l, top, a, k) && n > 0
      && ends(Reached(l, PageEnd(a[0].page), end), a[1..], k - 1, n - 1)
      ==> ends(l, a, k, n)
    requires forall l: nat, a: seq<Response>, k: nat :: scans(l, a, k) && !Continues(p, end, l, top, a, k) ==>
      ends(l, a, k, 0) || ends(l, a, k, 1)
    ensures ends(low, answers, pagesLeft, n)
    decreases pagesLeft
  {
    if Continues(p, end, low, top, answers, pagesLeft) {
      var low' := Reached(low, PageEnd(answers[0].page), end);
      var later := PageByPage(p, end, top, low', answers[1..], pagesLeft - 1, scans, ends);
      n := later + 1;
    } else {
      n := if ends(low, answers, pagesLeft, 0) then 0 else 1;
    }
  }

  ghost predicate ScansTo(log: seq<Message>, p: PollerState, end: nat, low: nat, top: nat, answers: seq<Response>,
                          pagesLeft: nat, r: PollResult) {
    exists from: nat, unseen, newIds ::
      Scanning(log, p, end, low, top, from, answers, unseen, newIds) && Gives(p, answers, pagesLeft, unseen, newIds, r)
  }

  lemma ScansLater(log: seq<Message>, p: PollerState, end: nat, low: nat, top: nat, answers: seq<Response>,
                   pagesLeft: nat, r: PollResult)
    requires ScansTo(log, p, end, low, top, answers, pagesLeft, r) && Continues(p, end, low, top, answers, pagesLeft)
    ensures ScansTo(log, p, end, Reached(low, PageEnd(answers[0].page), end), top, answers[1..], pagesLeft - 1, r)
  {
    var from: nat, unseen, newIds :|
      Scanning(log, p, end, low, top, from, answers, unseen, newIds) && Gives(p, answers, pagesLeft, unseen, newIds, r);
    var low', from', unseen', newIds' := GoesOnLater(log, p, end, low, top, from, answers, pagesLeft, unseen, newIds, r);
  }

  lemma ScanStops(log: seq<Message>, p: PollerState, end: nat, low: nat, top: nat, answers: seq<Response>,
                  pagesLeft: nat, r: PollResult)
    requires ScansTo(log, p, end, low, top, answers, pagesLeft, r) && !Continues(p, end, low, top, answers, pagesLeft)
    ensures ValidLog(log) && end <= low <= top <= |log|
    ensures EndsAt(log, p, end, low, top, answers, pagesLeft, 0, r) || EndsAt(log, p, end, low, top, answers, pagesLeft, 1, r)
  {
    var from: nat, unseen, newIds :|
      Scanning(log, p, end, low, top, from, answers, unseen, newIds) && Gives(p, answers, pagesLeft, unseen, newIds, r);
    var n := StopsHere(log, p, end, low, top, from, answers, pagesLeft, unseen, newIds);
  }

  ghost predicate EndsIn(log: seq<Message>, p: PollerState, end: nat, low: nat, top: nat, answers: seq<Response>,
                         pagesLeft: nat, n: nat, r: PollResult) {
    ValidLog(log) && end <= low <= top <= |log| && EndsAt(log, p, end, low, top, answers, pagesLeft, n, r)
  }

  lemma EndsInLater(log: seq<Message>, p: PollerState, end: nat, low: nat, top: nat, answers: seq<Response>,
                    pagesLeft: nat, n: nat, r: PollResult)
    requires ScansTo(log, p, end, low, top, answers, pagesLeft, r) && Continues(p, end, low, top, answers, pagesLeft)
    requires EndsIn(log, p, end, Reached(low, PageEnd(answers[0].page), end), top, answers[1..], pagesLeft - 1, n, r)
    ensures EndsIn(log, p, end, low, top, answers, pagesLeft, n + 1, r)
  {
    EndsOneLater(log, p, end, low, Reached(low, PageEnd(answers[0].page), end), top, answers, pagesLeft, n, r);
  }

  lemma ScanEnds(log: seq<Message>, p: PollerState, end: nat, low: nat, top: nat, answers: seq<Response>, pagesLeft: nat,
                 r: PollResult)
    returns (n: nat)
    requires ScansTo(log, p, end, low, top, answers, pagesLeft, r)
    ensures EndsIn(log, p, end, low, top, answers, pagesLeft, n, r)
  {
    var scans := (l: nat, a: seq<Response>, k: nat) => ScansTo(log, p, end, l, top, a, k, r);
    var ends := (l: nat, a: seq<Response>, k: nat, n: nat) => EndsIn(log, p, end, l, top, a, k, n, r);
    forall l: nat, a: seq<Response>, k: nat {:trigger scans(l, a, k)} | scans(l, a, k) && Continues(p, end, l, top, a, k)
      ensures scans(Reached(l, PageEnd(a[0].page), end), a[1..], k - 1)
    {
      ScansLater(log, p, end, l, top, a, k, r);
    }
    forall l: nat, a: seq<Response>, k: nat, n: nat {:trigger ends(l, a, k, n)}
      | scans(l, a, k) && Continues(p, end, l, top, a, k) && n > 0
        && ends(Reached(l, PageEnd(a[0].page), end), a[1..], k - 1, n - 1)
      ensures ends(l, a, k, n)
    {
      EndsInLater(log, p, end, l, top, a, k, n - 1, r);
    }
    forall l: nat, a: seq<Response>, k: nat | scans(l, a, k) && !Continues(p, end, l, top, a, k)
      ensures ends(l, a, k, 0) || ends(l, a, k, 1)
    {
      ScanStops(log, p, end, l, top, a, k, r);
    }
    n := PageByPage(p, end, top, low, answers, pagesLeft, scans, ends);
  }

  // ----- one poll -----

  /** A poll that is served from a good state: either everything is collected and waits, and is emitted without
      a request, or there is one number of pages after which it stops, and that says how it ends. */
  lemma PollEnds(log: seq<Message>, listed: nat, listed': nat, p: PollerState, m: Marks, responses: seq<Response>)
    returns (n: nat)
    requires RoomInv(log, listed, p, m) && Served(log, p, listed, listed', responses)
    ensures listed <= listed' <= |log| && m.end <= ScanStart(p, m, listed') <= listed'
    ensures var r := Transaction(p, responses); var start := ScanStart(p, m, listed');
      if Waiting(p) then r.Ok? && r.value.messages == log[m.end..listed] && Took(log, p, AfterPoll(p, r), m.end, listed)
      else
        EndsAt(log, p, m.end, start, listed', responses, AtLeastOne(p.config.maxPagesPerPoll), n, r)
  {
    n := 0;
    if p.initialized {
      WindowSeparates(log, p.seen, m.end, p.config.maxSeenIds);
    }
    if Waiting(p) {
      ReversedNewestFirst(log, m.low, listed);
    } else {
      if !p.backlogNext.Some? {
        NothingPending(log, listed, p, m);
      }
      if NextResponse(responses).Fetched? {
        var start := ScanStart(p, m, listed');
        var from := listed';
        if p.backlogNext.Some? {
          from := NextPage(log, p.backlogNext.value, listed, responses);
        }
        assert Scanning(log, p, m.end, start, listed', from, responses, p.pendingFresh, p.pendingSeenIds);
        assert Gives(p, responses, AtLeastOne(p.config.maxPagesPerPoll), p.pendingFresh, p.pendingSeenIds,
                     Transaction(p, responses));
        n := ScanEnds(log, p, m.end, start, listed', responses, AtLeastOne(p.config.maxPagesPerPoll),
                      Transaction(p, responses));
      }
    }
  }

  lemma {:induction false} WentLess(p: PollerState, end: nat, low: nat, top: nat, responses: seq<Response>, n: nat, k: nat)
    requires Went(p, end, low, top, responses, n) && k < n
    ensures Went(p, end, low, top, responses, k) && Answer(responses, k).Fetched?
    ensures Fits(p, LowAfter(low, end, responses, k + 1), top) && !IsLast(p, end, Answer(responses, k).page)
  {
    var low' := Reached(low, PageEnd(responses[0].page), end);
    if k > 0 {
      WentLess(p, end, low', top, responses[1..], n - 1, k - 1);
    } else {
      assert LowAfter(low, end, responses, 1) == LowAfter(low', end, responses[1..], 0);
    }
  }

  /** There is only one such number. */
  lemma StopsOnce(p: PollerState, end: nat, low: nat, top: nat, responses: seq<Response>, pages: nat, n: nat, k: nat)
    requires StopsAfter(p, end, low, top, responses, pages, n) && StopsAfter(p, end, low, top, responses, pages, k)
    ensures n == k
  {
    if k < n {
      WentLess(p, end, low, top, responses, n, k);
    } else if n < k {
      WentLess(p, end, low, top, responses, k, n);
    }
  }

  /** The request after `n` pages fails although another page may be taken. */
  ghost predicate BreaksOff(p: PollerState, end: nat, low: nat, top: nat, responses: seq<Response>, n: nat) {
    && 1 <= n < AtLeastOne(p.config.maxPagesPerPoll)
    && Went(p, end, low, top, responses, n) && Answer(responses, n).Failed?
  }

  /** A poll fails and still keeps what it has exactly if the poller may keep an unfinished scan and the request
      after some page fails, where every page so far fitted the limit, met no known message, had a next link and
      left the poll another page.  Then the poller holds everything listed down to where those pages reach, and
      the link of the last of them. */
  lemma KeepsOnFailureIff(log: seq<Message>, listed: nat, listed': nat, p: PollerState, m: Marks, responses: seq<Response>)
    requires RoomInv(log, listed, p, m) && Served(log, p, listed, listed', responses)
    ensures var r := Transaction(p, responses); var start := ScanStart(p, m, listed');
      && (r.Err? && r.error.update.Some?
          <==> !Waiting(p) && KeepsPending(p) && exists n :: BreaksOff(p, m.end, start, listed', responses, n))
      && forall n :: BreaksOff(p, m.end, start, listed', responses, n) && !Waiting(p) && KeepsPending(p) ==>
           && m.end <= LowAfter(start, m.end, responses, n) <= listed' <= |log|
           && Keeps(log, p, AfterPoll(p, r), LowAfter(start, m.end, responses, n), listed', responses, n)
           && r.error.error == Answer(responses, n).error
  {
    var n := PollEnds(log, listed, listed', p, m, responses);
    var start, pages := ScanStart(p, m, listed'), AtLeastOne(p.config.maxPagesPerPoll);
    var r := Transaction(p, responses);
    if !Waiting(p) {
      forall k | BreaksOff(p, m.end, start, listed', responses, k) ensures k == n {
        StopsOnce(p, m.end, start, listed', responses, pages, n, k);
      }
      if r.Err? && r.error.update.Some? {
        assert BreaksOff(p, m.end, start, listed', responses, n);
      }
    }
  }
}
