// What one room's poller promises over whole runs: every message of the room's log, from where
// delivery starts up to the committed boundary, is emitted exactly once and oldest first, whatever
// page errors, page limits, overlapping pages, new messages and reconfigurations occur on the way.
//
// The service is an append-only log of messages with distinct ids.  A page lists a contiguous
// stretch of it, newest first, possibly with extra items that carry no id; a cursor stands for
// "everything older than this position".

module RoomDelivery {
  import opened Wrappers
  import opened SeenWindow
  import opened PollerModel

  // ----- the service -----

  ghost predicate ValidLog(log: seq<Message>) {
    && (forall i :: 0 <= i < |log| ==> log[i].id.Some?)
    && (forall i, j :: 0 <= i < j < |log| ==> log[i].id.value != log[j].id.value)
  }

  ghost function NewestFirst(log: seq<Message>, low: nat, high: nat): (r: seq<Message>)
    requires low <= high <= |log|
    ensures |r| == high - low && forall i :: 0 <= i < |r| ==> r[i] == log[high - 1 - i]
  {
    seq(high - low, i requires 0 <= i < high - low => log[high - 1 - i])
  }

  ghost function NewestIds(log: seq<Message>, low: nat, high: nat): (r: seq<MessageId>)
    requires ValidLog(log) && low <= high <= |log|
    ensures |r| == high - low && forall i :: 0 <= i < |r| ==> r[i] == log[high - 1 - i].id.value
  {
    seq(high - low, i requires 0 <= i < high - low => log[high - 1 - i].id.value)
  }

  /** The items a poller can tell apart. */
  ghost function Identified(items: seq<Message>): seq<Message> {
    if items == [] then []
    else if items[0].id.None? then Identified(items[1..])
    else [items[0]] + Identified(items[1..])
  }

  ghost function PageEnd(page: Page): nat {
    if page.next.Some? then page.next.value else 0
  }

  /** The page lists the log from position `from` down to where its `next` link goes on. */
  ghost predicate PageAt(log: seq<Message>, from: nat, page: Page) {
    && PageEnd(page) <= from <= |log|
    && Identified(page.items) == NewestFirst(log, PageEnd(page), from)
  }

  /** Answers to a request for everything older than `cursor`, and to the links that follow.  A page
      may list again what the scan already has, but nothing newer than the scan's first page. */
  ghost predicate ServesCursor(log: seq<Message>, cursor: Cursor, top: nat, responses: seq<Response>)
    decreases |responses|
  {
    responses != [] && responses[0].Fetched? ==>
      var page := responses[0].page;
      && (exists from :: cursor <= from <= top && PageAt(log, from, page))
      && (page.next.Some? ==> ServesCursor(log, page.next.value, top, responses[1..]))
  }

  /** Answers to a request for the newest messages, which the service lists from `top` down. */
  ghost predicate ServesLatest(log: seq<Message>, top: nat, responses: seq<Response>) {
    responses != [] && responses[0].Fetched? ==>
      var page := responses[0].page;
      && PageAt(log, top, page)
      && (page.next.Some? ==> ServesCursor(log, page.next.value, top, responses[1..]))
  }

  /** One poll's answers.  `listed` is the newest position a first page has started from so far:
      a new scan never starts below it, and a resumed one never shows anything above it. */
  ghost predicate Served(log: seq<Message>, p: PollerState, listed: nat, listed': nat, responses: seq<Response>) {
    if p.backlogNext.Some? then
      listed' == listed && ServesCursor(log, p.backlogNext.value, listed, responses)
    else if p.pendingFresh != [] then
      listed' == listed
    else
      listed <= listed' <= |log| && ServesLatest(log, listed', responses)
  }

  // ----- the invariant -----

  /** Delivery starts at `start` and is committed up to `end`; a scan in progress has come down to `low`. */
  datatype Marks = Marks(start: nat, end: nat, low: nat)

  /** The window is a non-empty run of the newest ids below the boundary. */
  ghost predicate WindowAt(log: seq<Message>, seen: seq<MessageId>, end: nat, maxIds: nat)
    requires ValidLog(log) && end <= |log|
  {
    && seen <= NewestIds(log, 0, end)
    && (end > 0 ==> seen != [])
    && |seen| <= AtLeastOne(maxIds)
  }

  ghost predicate SeedAt(log: seq<Message>, seed: Option<seq<MessageId>>, end: nat)
    requires ValidLog(log) && end <= |log|
  {
    seed.Some? ==> seed.value != [] && seed.value <= NewestIds(log, 0, end)
  }

  ghost predicate PendingAt(log: seq<Message>, p: PollerState, m: Marks, listed: nat)
    requires ValidLog(log) && m.end <= m.low <= listed <= |log|
  {
    && p.pendingFresh == NewestFirst(log, m.low, listed)
    && p.pendingSeenIds == NewestIds(log, m.low, listed)
    && (p.backlogNext.Some? ==> m.low <= p.backlogNext.value <= listed)
    && (p.backlogNext.None? ==> m.low == m.end)
  }

  ghost predicate RoomInv(log: seq<Message>, listed: nat, p: PollerState, m: Marks) {
    && ValidLog(log)
    && m.start <= m.end <= m.low <= listed <= |log|
    && (p.HasPendingBacklog() ==> p.initialized && PendingAt(log, p, m, listed))
    && (p.initialized ==>
          && WindowAt(log, p.seen, m.end, p.config.maxSeenIds)
          && SeedAt(log, p.seed, m.end))
    && (!p.initialized ==> p.seen == [] && p.seed.None? && m.end == 0)
  }

  lemma RoomInvGrows(log: seq<Message>, log': seq<Message>, listed: nat, p: PollerState, m: Marks)
    requires RoomInv(log, listed, p, m) && log <= log' && ValidLog(log')
    ensures RoomInv(log', listed, p, m)
  {
    assert NewestIds(log, 0, m.end) == NewestIds(log', 0, m.end);
    if p.HasPendingBacklog() {
      assert NewestFirst(log, m.low, listed) == NewestFirst(log', m.low, listed);
      assert NewestIds(log, m.low, listed) == NewestIds(log', m.low, listed);
    }
  }

  // ----- one page -----

  ghost function Min(a: nat, b: nat): nat { if a < b then a else b }
  ghost function Max(a: nat, b: nat): nat { if a < b then b else a }

  /** How far down a page takes a scan that had come to `low`. */
  ghost function Reached(low: nat, pageEnd: nat, end: nat): nat {
    Min(low, Max(pageEnd, end))
  }

  /** The window tells the committed messages from the newer ones. */
  ghost predicate Separates(log: seq<Message>, seen: seq<MessageId>, end: nat)
    requires ValidLog(log) && end <= |log|
  {
    && (end > 0 ==> log[end - 1].id.value in seen)
    && (forall k :: end <= k < |log| ==> log[k].id.value !in seen)
  }

  lemma WindowSeparates(log: seq<Message>, seen: seq<MessageId>, end: nat, maxIds: nat)
    requires ValidLog(log) && end <= |log| && WindowAt(log, seen, end, maxIds)
    ensures Separates(log, seen, end)
  {
    if end > 0 {
      assert seen[0] == NewestIds(log, 0, end)[0];
    }
    forall k, i | end <= k < |log| && 0 <= i < |seen| ensures seen[i] != log[k].id.value {
      assert seen[i] == NewestIds(log, 0, end)[i];
    }
  }

  /** The first identified item of a page is the newest message the page lists. */
  lemma PageHead(log: seq<Message>, items: seq<Message>, pageEnd: nat, from: nat)
    requires ValidLog(log) && pageEnd <= from <= |log|
    requires items != [] && items[0].id.Some?
    requires Identified(items) == NewestFirst(log, pageEnd, from)
    ensures pageEnd < from && items[0] == log[from - 1]
    ensures Identified(items[1..]) == NewestFirst(log, pageEnd, from - 1)
  {
    var here := NewestFirst(log, pageEnd, from);
    assert here[0] == items[0];
    assert Identified(items[1..]) == here[1..] == NewestFirst(log, pageEnd, from - 1);
  }

  /** Taking one older message in. */
  lemma OneOlder(log: seq<Message>, low': nat, low: nat, top: nat)
    requires ValidLog(log) && low' < low <= top <= |log|
    ensures log[low - 1].id.value !in NewestIds(log, low, top)
    ensures Elements(NewestIds(log, low - 1, top))
            == Elements(NewestIds(log, low, top)) + {log[low - 1].id.value}
    ensures NewestIds(log, low', low) == [log[low - 1].id.value] + NewestIds(log, low', low - 1)
    ensures NewestFirst(log, low', low) == [log[low - 1]] + NewestFirst(log, low', low - 1)
  {
    assert NewestIds(log, low - 1, top) == NewestIds(log, low, top) + [log[low - 1].id.value];
  }

  /** What a page adds to a scan: the messages from `low` down to `low'`. */
  ghost function PageSlice(log: seq<Message>, low': nat, low: nat, known: bool, keeps: bool): Collected
    requires ValidLog(log) && low' <= low <= |log|
  {
    Collected(if keeps then NewestFirst(log, low', low) else [], NewestIds(log, low', low), known)
  }

  /** A page adds exactly the stretch between how far it reaches and how far the scan had come; it
      runs into a known message exactly when it reaches below the boundary. */
  lemma {:induction false} CollectSlice(
    log: seq<Message>, seen: seq<MessageId>, end: nat, items: seq<Message>, pageEnd: nat, from: nat,
    low: nat, top: nat, initialized: bool, emitExisting: bool, local: set<MessageId>)
    requires ValidLog(log) && pageEnd <= from <= |log| && end <= low <= from <= top <= |log|
    requires Identified(items) == NewestFirst(log, pageEnd, from)
    requires local == Elements(NewestIds(log, low, top))
    requires Separates(log, seen, end)
    requires !initialized ==> seen == []
    ensures Collect(seen, items, initialized, emitExisting, local)
            == PageSlice(log, Reached(low, pageEnd, end), low, pageEnd < end, initialized || emitExisting)
    decreases |items|
  {
    if items == [] {
      assert |NewestFirst(log, pageEnd, from)| == 0;
    } else if items[0].id.None? {
      CollectSlice(log, seen, end, items[1..], pageEnd, from, low, top, initialized, emitExisting, local);
    } else {
      PageHead(log, items, pageEnd, from);
      if from > low {
        assert NewestIds(log, low, top)[top - from] == items[0].id.value;
        CollectSlice(log, seen, end, items[1..], pageEnd, from - 1, low, top, initialized, emitExisting, local);
      } else if from > end {
        OneOlder(log, Reached(low, pageEnd, end), low, top);
        CollectSlice(log, seen, end, items[1..], pageEnd, from - 1, low - 1, top, initialized, emitExisting,
                     local + {items[0].id.value});
      }
    }
  }

  // ----- one scan -----

  /** What an update may hold, for a scan that started at `top` and came down to `low`. */
  ghost predicate Covers(log: seq<Message>, p: PollerState, end: nat, u: PollUpdate, low: nat, top: nat)
    requires ValidLog(log) && end <= low <= top <= |log|
  {
    && u.initialized
    && (u.commitSeen ==>
          && u.pendingFresh == [] && u.pendingSeenIds == [] && u.backlogNext.None?
          && u.seenIds == NewestIds(log, low, top)
          && u.messages == (if KeepsPending(p) then log[low..top] else [])
          && (KeepsPending(p) ==> low == end))
    && (!u.commitSeen ==>
          && KeepsPending(p) && u.messages == [] && u.seenIds == []
          && u.pendingFresh == NewestFirst(log, low, top)
          && u.pendingSeenIds == NewestIds(log, low, top)
          && u.backlogNext.Some? && low <= u.backlogNext.value <= top)
  }

  ghost function UpdateOf(r: PollResult): Option<PollUpdate> {
    match r
    case Ok(u) => Some(u)
    case Err(e) => e.update
  }

  lemma ReversedNewestFirst(log: seq<Message>, low: nat, top: nat)
    requires low <= top <= |log|
    ensures Reversed(NewestFirst(log, low, top)) == log[low..top]
  {
  }

  lemma PagesJoin(log: seq<Message>, low': nat, low: nat, top: nat)
    requires ValidLog(log) && low' <= low <= top <= |log|
    ensures NewestIds(log, low, top) + NewestIds(log, low', low) == NewestIds(log, low', top)
    ensures NewestFirst(log, low, top) + NewestFirst(log, low', low) == NewestFirst(log, low', top)
  {
  }

  /** Taking one page into a scan brings it down to where the page reaches. */
  lemma OnePage(log: seq<Message>, p: PollerState, end: nat, low: nat, top: nat, from: nat, page: Page,
                unseen: seq<Message>, newIds: seq<MessageId>)
    requires ValidLog(log) && end <= low <= from <= top <= |log|
    requires Separates(log, p.seen, end)
    requires !p.initialized ==> p.seen == []
    requires PageAt(log, from, page)
    requires newIds == NewestIds(log, low, top)
    requires unseen == if KeepsPending(p) then NewestFirst(log, low, top) else []
    ensures var c := Collect(p.seen, page.items, p.initialized, p.config.emitExistingOnFirstPoll,
                             Elements(newIds));
      var low' := Reached(low, PageEnd(page), end);
      && end <= low' <= low
      && newIds + c.newIds == NewestIds(log, low', top)
      && unseen + c.unseen == (if KeepsPending(p) then NewestFirst(log, low', top) else [])
      && (c.sawKnown <==> PageEnd(page) < end)
      && Reversed(NewestFirst(log, low', top)) == log[low'..top]
  {
    CollectSlice(log, p.seen, end, page.items, PageEnd(page), from, low, top, p.initialized,
                 p.config.emitExistingOnFirstPoll, Elements(newIds));
    var low' := Reached(low, PageEnd(page), end);
    PagesJoin(log, low', low, top);
    ReversedNewestFirst(log, low', top);
  }

  /** The scan's answers so far are in order: the first page at `from`, its links after that. */
  ghost predicate ScanServed(log: seq<Message>, from: nat, top: nat, page: Page, responses: seq<Response>) {
    && PageAt(log, from, page)
    && (page.next.Some? ==> ServesCursor(log, page.next.value, top, responses))
  }

  lemma NextPage(log: seq<Message>, cursor: Cursor, top: nat, responses: seq<Response>) returns (from: nat)
    requires ServesCursor(log, cursor, top, responses) && NextResponse(responses).Fetched?
    ensures cursor <= from <= top
    ensures ScanServed(log, from, top, NextResponse(responses).page, Later(responses))
  {
    from :| cursor <= from <= top && PageAt(log, from, responses[0].page);
  }

  lemma {:induction false} ScanCovers(
    log: seq<Message>, p: PollerState, end: nat, low: nat, top: nat, from: nat, page: Page,
    pagesLeft: nat, unseen: seq<Message>, newIds: seq<MessageId>, responses: seq<Response>)
    returns (low': nat)
    requires pagesLeft >= 1
    requires ValidLog(log) && end <= low <= from <= top <= |log|
    requires Separates(log, p.seen, end)
    requires !p.initialized ==> p.seen == [] && end == 0
    requires ScanServed(log, from, top, page, responses)
    requires newIds == NewestIds(log, low, top)
    requires unseen == if KeepsPending(p) then NewestFirst(log, low, top) else []
    ensures end <= low' <= low
    ensures ResultCovers(log, p, end, ScanPages(p, page, pagesLeft, unseen, newIds, responses), low', top)
    decreases pagesLeft
  {
    OnePage(log, p, end, low, top, from, page, unseen, newIds);
    low' := Reached(low, PageEnd(page), end);
    var c := Collect(p.seen, page.items, p.initialized, p.config.emitExistingOnFirstPoll, Elements(newIds));
    var unseen', newIds' := unseen + c.unseen, newIds + c.newIds;
    var stops := (c.sawKnown && p.initialized) || page.next.None?;
    if !stops && pagesLeft > 1 && NextResponse(responses).Fetched? {
      var reached := low';
      var from' := NextPage(log, page.next.value, top, responses);
      low' := ScanCovers(log, p, end, reached, top, from', NextResponse(responses).page, pagesLeft - 1,
                         unseen', newIds', Later(responses));
      if !PendingWithinLimit(|unseen'|, |newIds'|, p.config.maxPendingMessages) {
        low' := reached;
      }
    }
  }

  ghost predicate ResultCovers(log: seq<Message>, p: PollerState, end: nat, r: PollResult, low: nat, top: nat)
    requires ValidLog(log) && end <= low <= top <= |log|
  {
    && (UpdateOf(r).Some? ==> Covers(log, p, end, UpdateOf(r).value, low, top))
    && (r.Err? && r.error.update.Some? ==> !r.error.update.value.commitSeen)
  }

  // ----- one poll -----

  /** Where the marks stand once an update is applied. */
  ghost function MarksAfter(p: PollerState, m: Marks, u: PollUpdate, low: nat, top: nat): Marks {
    if !u.commitSeen then Marks(m.start, m.end, low)
    else if KeepsPending(p) then Marks(m.start, top, top)
    else if low == top then Marks(0, 0, 0)
    else Marks(top, top, top)
  }

  lemma WindowAdvances(log: seq<Message>, seen: seq<MessageId>, end: nat, low: nat, top: nat, maxIds: nat)
    requires ValidLog(log) && end <= low <= top <= |log|
    requires WindowAt(log, seen, end, maxIds)
    requires low == end || (seen == [] && low < top)
    ensures WindowAt(log, Remember(seen, NewestIds(log, low, top), maxIds), top, maxIds)
  {
    var newIds := NewestIds(log, low, top);
    var all := newIds + seen;
    var full := NewestIds(log, 0, top);
    assert all <= full by {
      forall i | 0 <= i < |all| ensures all[i] == full[i] {
        if i >= |newIds| {
          assert seen[i - |newIds|] == NewestIds(log, 0, end)[i - |newIds|];
        }
      }
    }
    forall i, j | 0 <= i < j < |all| ensures all[i] != all[j] {
      assert all[i] == full[i] && all[j] == full[j];
    }
    RememberFresh(seen, newIds, maxIds);
  }

  /** Applying an update that covers its stretch keeps the invariant. */
  lemma ApplyCovering(log: seq<Message>, listed: nat, listed': nat, p: PollerState, m: Marks,
                      u: PollUpdate, low: nat)
    requires RoomInv(log, listed, p, m) && listed <= listed' <= |log|
    requires m.end <= low <= listed' && Covers(log, p, m.end, u, low, listed')
    ensures RoomInv(log, listed', ApplyUpdate(p, u), MarksAfter(p, m, u, low, listed'))
  {
    var p' := ApplyUpdate(p, u);
    if u.commitSeen {
      if low < listed' || KeepsPending(p) {
        WindowAdvances(log, p.seen, m.end, low, listed', p.config.maxSeenIds);
      } else {
        assert u.seenIds == [];
      }
    } else if !p.initialized {
      assert NewestIds(log, 0, 0) == [];
    }
  }

  /** The transaction of a poller in a good state covers a stretch below what has been listed. */
  lemma TransactionCovers(log: seq<Message>, listed: nat, listed': nat, p: PollerState, m: Marks,
                          responses: seq<Response>)
    returns (low: nat)
    requires RoomInv(log, listed, p, m) && Served(log, p, listed, listed', responses)
    ensures listed <= listed' <= |log| && m.end <= low <= listed'
    ensures ResultCovers(log, p, m.end, Transaction(p, responses), low, listed')
  {
    low := m.low;
    if p.initialized {
      WindowSeparates(log, p.seen, m.end, p.config.maxSeenIds);
    }
    if p.backlogNext.None? && p.pendingFresh != [] {
      ReversedNewestFirst(log, m.low, listed);
    } else if NextResponse(responses).Fetched? {
      var page := responses[0].page;
      var pages := AtLeastOne(p.config.maxPagesPerPoll);
      if p.backlogNext.Some? {
        var from := NextPage(log, p.backlogNext.value, listed, responses);
        low := ScanCovers(log, p, m.end, m.low, listed, from, page, pages, p.pendingFresh,
                          p.pendingSeenIds, Later(responses));
      } else {
        NothingPending(log, listed, p, m);
        low := ScanCovers(log, p, m.end, listed', listed', listed', page, pages, p.pendingFresh,
                          p.pendingSeenIds, Later(responses));
      }
    }
  }

  /** Without a cursor and without buffered messages there are no buffered ids either. */
  lemma NothingPending(log: seq<Message>, listed: nat, p: PollerState, m: Marks)
    requires RoomInv(log, listed, p, m) && p.backlogNext.None? && p.pendingFresh == []
    ensures !p.HasPendingBacklog()
  {
  }

  /** One poll: the invariant holds again, the start does not move once there is one, and what is
      emitted is exactly the stretch by which the committed boundary advances. */
  lemma PollDelivers(log: seq<Message>, listed: nat, listed': nat, p: PollerState, m: Marks,
                     responses: seq<Response>)
    returns (m': Marks)
    requires RoomInv(log, listed, p, m) && Served(log, p, listed, listed', responses)
    ensures RoomInv(log, listed', AfterPoll(p, Transaction(p, responses)), m')
    ensures p.initialized ==> m'.start == m.start && AfterPoll(p, Transaction(p, responses)).initialized
    ensures m.end <= m'.end
    ensures match Transaction(p, responses)
      case Ok(u) =>
        && (KeepsPending(p) ==> m'.start == m.start && u.messages == log[m.end..m'.end])
        && (!KeepsPending(p) ==> m'.start == m'.end && u.messages == [])
      case Err(e) => m'.start == m.start && m'.end == m.end
  {
    var low := TransactionCovers(log, listed, listed', p, m, responses);
    var r := Transaction(p, responses);
    if UpdateOf(r).Some? {
      var u := UpdateOf(r).value;
      ApplyCovering(log, listed, listed', p, m, u, low);
      m' := MarksAfter(p, m, u, low, listed');
    } else {
      m' := m;
      if p.HasPendingBacklog() {
        assert listed' == listed by { if p.backlogNext.None? && p.pendingFresh == [] { NothingPending(log, listed, p, m); } }
      }
    }
  }
}
