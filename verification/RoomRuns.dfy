// Whole runs of one room's poller: exactly-once delivery in log order, and draining of a backlog.

module RoomRuns {
  import opened Wrappers
  import opened SeenWindow
  import opened PollerModel
  import opened RoomDelivery

  /** What an observer sees: the room's log, how far the service has listed it, the poller, and
      everything emitted so far. */
  datatype Watch = Watch(log: seq<Message>, listed: nat, poller: PollerState, emitted: seq<Message>)

  datatype Event =
    | Poll(responses: seq<Response>)
    | Interrupted(responses: seq<Response>)  // the poll timed out or its future was dropped
    | Reconfigure(config: PollingConfig)

  function Emits(r: PollResult): seq<Message> {
    if r.Ok? then r.value.messages else []
  }

  /** One event; new messages may arrive with it. */
  ghost predicate Next(s: Watch, e: Event, s': Watch) {
    && s.log <= s'.log && ValidLog(s'.log)
    && match e
       case Poll(responses) =>
         var r := Transaction(s.poller, responses);
         && Served(s'.log, s.poller, s.listed, s'.listed, responses)
         && s'.poller == AfterPoll(s.poller, r)
         && s'.emitted == s.emitted + Emits(r)
       case Interrupted(responses) =>
         && Served(s'.log, s.poller, s.listed, s'.listed, responses)
         && s'.poller == s.poller && s'.emitted == s.emitted
       case Reconfigure(config) =>
         && s'.listed == s.listed && s'.poller == SetConfig(s.poller, config) && s'.emitted == s.emitted
  }

  ghost predicate Run(run: seq<Watch>, events: seq<Event>) {
    && |run| == |events| + 1
    && forall i {:trigger events[i]} :: 0 <= i < |events| ==> Next(run[i], events[i], run[i + 1])
  }

  /** Delivered so far: exactly the log from the start to the committed boundary. */
  ghost predicate Delivered(s: Watch, m: Marks) {
    && RoomInv(s.log, s.listed, s.poller, m)
    && s.emitted == s.log[m.start..m.end]
  }

  lemma FreshPoller(log: seq<Message>, listed: nat, config: PollingConfig)
    requires ValidLog(log) && listed <= |log|
    ensures RoomInv(log, listed, NewPoller(config), Marks(0, 0, 0))
  {
  }

  /** A poller built from a checkpoint of a position carries on from exactly that position. */
  lemma SeededPoller(log: seq<Message>, listed: nat, config: PollingConfig, ids: seq<MessageId>, end: nat)
    requires ValidLog(log) && end <= listed <= |log|
    requires ids <= NewestIds(log, 0, end) && (ids == [] <==> end == 0)
    ensures RoomInv(log, listed, FromCheckpoint(config, Some((ids, ids == []))), Marks(end, end, end))
  {
    PrefixDistinct(log, ids, end);
    Reseed(ids, config.maxSeenIds);
  }

  /** What a checkpoint without ids says depends on its flag: the room was empty, and everything is to be
      delivered, or nothing is known and the room gets a first baseline.  With ids the flag does not matter. */
  lemma FlagOfCheckpoint(config: PollingConfig, ids: seq<MessageId>, initializeEmpty: bool)
    ensures var p := FromCheckpoint(config, Some((ids, initializeEmpty)));
      && (ids == [] ==> p == NewPoller(config).(initialized := initializeEmpty))
      && (ids != [] ==> p.initialized && p == FromCheckpoint(config, Some((ids, false))))
  {
  }

  lemma PrefixDistinct(log: seq<Message>, ids: seq<MessageId>, end: nat)
    requires ValidLog(log) && end <= |log| && ids <= NewestIds(log, 0, end)
    ensures Distinct(ids)
  {
  }

  lemma SetConfigKeeps(log: seq<Message>, listed: nat, p: PollerState, m: Marks, config: PollingConfig)
    requires RoomInv(log, listed, p, m)
    ensures RoomInv(log, listed, SetConfig(p, config), m)
  {
    if p.seed.Some? {
      PrefixDistinct(log, p.seed.value, m.end);
      Reseed(p.seed.value, config.maxSeenIds);
    }
  }

  /** As long as nothing has been committed since, the window is cut anew from all the ids of the checkpoint: what
      a smaller limit cut off comes back under a larger one.  Afterwards it does not. */
  lemma SeedIsCutAnew(p: PollerState, smaller: PollingConfig, config: PollingConfig)
    requires p.seed.Some? ==> Distinct(p.seed.value)
    ensures var q := SetConfig(SetConfig(p, smaller), config);
      && (p.seed.Some? ==> q.seen == Truncated(p.seed.value, config.maxSeenIds))
      && (p.seed.None? ==> q.seen == Truncated(Truncated(p.seen, smaller.maxSeenIds), config.maxSeenIds))
      && q == p.(config := config, seen := q.seen)
  {
    if p.seed.Some? {
      Reseed(p.seed.value, config.maxSeenIds);
    }
  }

  lemma LogGrows(s: Watch, log': seq<Message>, m: Marks)
    requires Delivered(s, m) && s.log <= log' && ValidLog(log')
    ensures RoomInv(log', s.listed, s.poller, m) && s.emitted == log'[m.start..m.end]
  {
  }

  lemma PollStep(s: Watch, responses: seq<Response>, s': Watch, m: Marks) returns (m': Marks)
    requires Delivered(s, m) && Next(s, Poll(responses), s')
    ensures Delivered(s', m') && m.end <= m'.end
    ensures s.poller.initialized ==> s'.poller.initialized && m'.start == m.start
  {
    LogGrows(s, s'.log, m);
    m' := PollDelivers(s'.log, s.listed, s'.listed, s.poller, m, responses);
    Appended(s'.log, s.emitted, Emits(Transaction(s.poller, responses)), m, m');
  }

  lemma Appended(log: seq<Message>, emitted: seq<Message>, more: seq<Message>, m: Marks, m': Marks)
    requires m.start <= m.end <= |log| && m'.start <= m'.end <= |log|
    requires emitted == log[m.start..m.end]
    requires || (m'.start == m.start && m.end <= m'.end && more == log[m.end..m'.end])
             || (m'.start == m'.end && m.start == m.end && more == [])
    ensures emitted + more == log[m'.start..m'.end]
  {
  }

  lemma InterruptedStep(s: Watch, responses: seq<Response>, s': Watch, m: Marks) returns (m': Marks)
    requires Delivered(s, m) && Next(s, Interrupted(responses), s')
    ensures Delivered(s', m') && m'.end == m.end && m'.start == m.start
  {
    LogGrows(s, s'.log, m);
    m' := m;
    if s.poller.backlogNext.None? && s.poller.pendingFresh == [] {
      NothingPending(s'.log, s.listed, s.poller, m);
      m' := Marks(m.start, m.end, m.end);
    }
  }

  /** One event keeps the delivery invariant; once there is a start it never moves. */
  lemma StepDelivers(s: Watch, e: Event, s': Watch, m: Marks) returns (m': Marks)
    requires Delivered(s, m) && Next(s, e, s')
    ensures Delivered(s', m') && m.end <= m'.end
    ensures s.poller.initialized ==> s'.poller.initialized && m'.start == m.start
  {
    match e {
      case Poll(responses) => m' := PollStep(s, responses, s', m);
      case Interrupted(responses) => m' := InterruptedStep(s, responses, s', m);
      case Reconfigure(config) =>
        LogGrows(s, s'.log, m);
        SetConfigKeeps(s'.log, s.listed, s.poller, m, config);
        m' := m;
    }
  }

  ghost predicate AllDelivered(run: seq<Watch>, marks: seq<Marks>)
    requires |run| == |marks|
  {
    forall i :: 0 <= i < |run| ==> Delivered(run[i], marks[i])
  }

  ghost predicate MarksMoveOn(run: seq<Watch>, marks: seq<Marks>)
    requires |run| == |marks|
  {
    && (forall i, j :: 0 <= i <= j < |run| ==> marks[i].end <= marks[j].end)
    && (forall i, j :: 0 <= i <= j < |run| && run[i].poller.initialized
          ==> run[j].poller.initialized && marks[j].start == marks[i].start)
  }

  /** Every state of the run has delivered up to its marks, and marks move on as they should. */
  ghost predicate Trail(run: seq<Watch>, marks: seq<Marks>)
    requires |run| == |marks|
  {
    AllDelivered(run, marks) && MarksMoveOn(run, marks)
  }

  lemma OneMoreDelivered(run: seq<Watch>, marks: seq<Marks>, s: Watch, m: Marks)
    requires |run| == |marks| && AllDelivered(run, marks) && Delivered(s, m)
    ensures AllDelivered(run + [s], marks + [m])
  {
    forall i | 0 <= i < |run| + 1 ensures Delivered((run + [s])[i], (marks + [m])[i]) {
      if i < |run| {
        assert Delivered(run[i], marks[i]);
      }
    }
  }

  lemma MarksExtend(run: seq<Watch>, marks: seq<Marks>, s: Watch, m: Marks)
    requires |run| == |marks| > 0 && MarksMoveOn(run, marks) && marks[|run| - 1].end <= m.end
    requires run[|run| - 1].poller.initialized ==> s.poller.initialized && m.start == marks[|run| - 1].start
    ensures MarksMoveOn(run + [s], marks + [m])
  {
  }

  lemma TrailExtends(run: seq<Watch>, marks: seq<Marks>, e: Event, s: Watch) returns (m: Marks)
    requires |run| == |marks| > 0 && Trail(run, marks) && Next(run[|run| - 1], e, s)
    ensures Trail(run + [s], marks + [m])
  {
    m := StepDelivers(run[|run| - 1], e, s, marks[|run| - 1]);
    OneMoreDelivered(run, marks, s, m);
    MarksExtend(run, marks, s, m);
  }

  lemma {:induction false} TrailUpTo(run: seq<Watch>, events: seq<Event>, m: Marks, n: nat) returns (marks: seq<Marks>)
    requires Run(run, events) && Delivered(run[0], m) && n <= |events|
    ensures |marks| == n + 1 && marks[0] == m && Trail(run[..n + 1], marks)
  {
    if n == 0 {
      marks := [m];
    } else {
      var init := TrailUpTo(run, events, m, n - 1);
      var last := TrailExtends(run[..n], init, events[n - 1], run[n]);
      assert run[..n + 1] == run[..n] + [run[n]];
      marks := init + [last];
    }
  }

  /** Over any run, what has been emitted is a contiguous slice of the log in log order, its start
      fixed from initialization on and its end only advancing: nothing is skipped or repeated. */
  lemma ExactlyOnceInOrder(run: seq<Watch>, events: seq<Event>, m: Marks) returns (marks: seq<Marks>)
    requires Run(run, events) && Delivered(run[0], m)
    ensures |marks| == |run| && marks[0] == m && Trail(run, marks)
  {
    marks := TrailUpTo(run, events, m, |events|);
    assert run[..|events| + 1] == run;
  }

  // ----- the pending limit and draining -----

  /** The buffers respect the configured limit. */
  ghost predicate PendingFits(p: PollerState) {
    PendingWithinLimit(|p.pendingFresh|, |p.pendingSeenIds|, p.config.maxPendingMessages)
  }

  ghost predicate UpdateFits(p: PollerState, u: PollUpdate) {
    && PendingWithinLimit(|u.messages|, |u.seenIds|, p.config.maxPendingMessages)
    && PendingWithinLimit(|u.pendingFresh|, |u.pendingSeenIds|, p.config.maxPendingMessages)
  }

  lemma {:induction false} ScanFits(p: PollerState, page: Page, pagesLeft: nat, unseen: seq<Message>,
                                    newIds: seq<MessageId>, responses: seq<Response>)
    requires pagesLeft >= 1
    ensures var r := UpdateOf(ScanPages(p, page, pagesLeft, unseen, newIds, responses));
      r.Some? ==> UpdateFits(p, r.value)
    decreases pagesLeft
  {
    var c := Collect(p.seen, page.items, p.initialized, p.config.emitExistingOnFirstPoll, Elements(newIds));
    if pagesLeft > 1 && NextResponse(responses).Fetched? {
      ScanFits(p, NextResponse(responses).page, pagesLeft - 1, unseen + c.unseen, newIds + c.newIds,
               Later(responses));
    }
  }

  /** Whatever the service answers, no batch and no buffer ever outgrows the limit. */
  lemma PollFits(p: PollerState, responses: seq<Response>)
    requires PendingFits(p)
    ensures var r := UpdateOf(Transaction(p, responses)); r.Some? ==> UpdateFits(p, r.value)
    ensures PendingFits(AfterPoll(p, Transaction(p, responses)))
  {
    if !(p.backlogNext.None? && p.pendingFresh != []) && NextResponse(responses).Fetched? {
      ScanFits(p, NextResponse(responses).page, AtLeastOne(p.config.maxPagesPerPoll), p.pendingFresh,
               p.pendingSeenIds, Later(responses));
    }
  }

  /** `pages` answers in a row arrive, and each page goes strictly further down. */
  ghost predicate Progressing(responses: seq<Response>, cursor: Cursor, pages: nat)
    decreases pages
  {
    pages > 0 ==>
      && responses != [] && responses[0].Fetched?
      && (responses[0].page.next.Some? ==>
            && responses[0].page.next.value < cursor
            && Progressing(responses[1..], responses[0].page.next.value, pages - 1))
  }

  lemma {:induction false} ScanDrains(
    log: seq<Message>, p: PollerState, end: nat, low: nat, top: nat, from: nat, cursor: Cursor,
    page: Page, pagesLeft: nat, unseen: seq<Message>, newIds: seq<MessageId>, responses: seq<Response>)
    requires pagesLeft >= 1 && (!p.initialized ==> p.seen == [] && end == 0)
    requires ValidLog(log) && end <= low <= from <= top <= |log|
    requires Separates(log, p.seen, end)
    requires ScanServed(log, from, top, page, responses)
    requires newIds == NewestIds(log, low, top)
    requires unseen == if KeepsPending(p) then NewestFirst(log, low, top) else []
    requires page.next.Some? ==>
      page.next.value < cursor <= top && Progressing(responses, page.next.value, pagesLeft - 1)
    ensures var r := ScanPages(p, page, pagesLeft, unseen, newIds, responses);
      && (top - end <= AtLeastOne(p.config.maxPendingMessages) ==> r.Ok?)
      && (r.Ok? && !r.value.commitSeen ==> r.value.backlogNext.Some? && r.value.backlogNext.value < cursor)
      && (r.Ok? && r.value.commitSeen && top > end ==> r.value.seenIds != [])
      && (r.Err? ==> r.error.update.None?)
    decreases pagesLeft
  {
    OnePage(log, p, end, low, top, from, page, unseen, newIds);
    var low' := Reached(low, PageEnd(page), end);
    var c := Collect(p.seen, page.items, p.initialized, p.config.emitExistingOnFirstPoll, Elements(newIds));
    if page.next.Some? && !(c.sawKnown && p.initialized) && pagesLeft > 1 {
      var from' := NextPage(log, page.next.value, top, responses);
      ScanDrains(log, p, end, low', top, from', page.next.value, responses[0].page, pagesLeft - 1,
                 unseen + c.unseen, newIds + c.newIds, Later(responses));
    }
  }

  ghost function ScanFrom(p: PollerState, listed': nat): Cursor {
    if p.backlogNext.Some? then p.backlogNext.value else listed'
  }

  /** A poll whose answers all arrive and make progress. */
  ghost predicate Answered(p: PollerState, listed': nat, responses: seq<Response>) {
    && responses != [] && responses[0].Fetched?
    && (p.backlogNext.Some? || p.pendingFresh == [] ==>
          Progressing(responses, ScanFrom(p, listed'), AtLeastOne(p.config.maxPagesPerPoll)))
  }

  /** Such a poll commits, with something to remember if anything is unseen, or moves its cursor strictly
      older; it can fail only when the slice is larger than the limit, and then it keeps nothing. */
  lemma AnsweredPoll(log: seq<Message>, listed: nat, listed': nat, p: PollerState, m: Marks, responses: seq<Response>)
    requires RoomInv(log, listed, p, m) && Served(log, p, listed, listed', responses)
    requires PendingFits(p) && Answered(p, listed', responses)
    ensures var r := Transaction(p, responses);
      && (listed' - m.end <= AtLeastOne(p.config.maxPendingMessages) ==> r.Ok?)
      && (r.Ok? && !r.value.commitSeen ==>
            r.value.backlogNext.Some? && r.value.backlogNext.value < ScanFrom(p, listed'))
      && (r.Ok? && r.value.commitSeen && listed' > m.end ==> r.value.seenIds != [])
      && (r.Err? ==> r.error.update.None?)
  {
    if p.initialized {
      WindowSeparates(log, p.seen, m.end, p.config.maxSeenIds);
    }
    var pages := AtLeastOne(p.config.maxPagesPerPoll);
    if p.backlogNext.Some? {
      var from := NextPage(log, p.backlogNext.value, listed, responses);
      ScanDrains(log, p, m.end, m.low, listed, from, p.backlogNext.value, responses[0].page, pages,
                 p.pendingFresh, p.pendingSeenIds, Later(responses));
    } else if p.pendingFresh == [] {
      NothingPending(log, listed, p, m);
      ScanDrains(log, p, m.end, listed', listed', listed', listed', responses[0].page, pages,
                 p.pendingFresh, p.pendingSeenIds, Later(responses));
    }
  }

  /** In a run such a poll emits the whole unseen slice or moves its cursor strictly older; it can fail only
      when the slice is larger than the limit, and then it keeps nothing and changes nothing. */
  lemma PollDrains(s: Watch, responses: seq<Response>, s': Watch, m: Marks)
    requires Delivered(s, m) && Next(s, Poll(responses), s') && s.poller.initialized
    requires PendingFits(s.poller) && Answered(s.poller, s'.listed, responses)
    ensures var r := Transaction(s.poller, responses);
      && (r.Ok? && r.value.commitSeen ==>
            && s'.emitted == s.emitted + s'.log[m.end..s'.listed]
            && s'.listed - m.end <= AtLeastOne(s.poller.config.maxPendingMessages))
      && (r.Ok? && !r.value.commitSeen ==>
            && s'.emitted == s.emitted && s'.poller.backlogNext.Some?
            && s'.poller.backlogNext.value < ScanFrom(s.poller, s'.listed))
      && (s'.listed - m.end <= AtLeastOne(s.poller.config.maxPendingMessages) ==> r.Ok?)
      && (r.Err? ==> s'.poller == s.poller && s'.emitted == s.emitted)
  {
    var p := s.poller;
    RoomInvGrows(s.log, s'.log, s.listed, p, m);
    var low := TransactionCovers(s'.log, s.listed, s'.listed, p, m, responses);
    PollFits(p, responses);
    AnsweredPoll(s'.log, s.listed, s'.listed, p, m, responses);
  }

  /** `run` polls over and over, every poll is answered, and none of them commits. */
  ghost predicate StillDraining(run: seq<Watch>, polls: seq<seq<Response>>) {
    && |run| == |polls| + 1
    && forall i :: 0 <= i < |polls| ==>
         && Next(run[i], Poll(polls[i]), run[i + 1])
         && Answered(run[i].poller, run[i + 1].listed, polls[i])
         && var r := Transaction(run[i].poller, polls[i]); (r.Ok? ==> !r.value.commitSeen)
  }

  /** A catch-up that fits the limit commits: without a commit the cursor has gone down by one at
      least per poll, so there are at most as many such polls as the slice has messages. */
  lemma {:induction false} DrainTerminates(run: seq<Watch>, polls: seq<seq<Response>>, m: Marks)
    requires StillDraining(run, polls) && polls != []
    requires Delivered(run[0], m) && run[0].poller.initialized && !run[0].poller.HasPendingBacklog()
    requires PendingFits(run[0].poller)
    requires run[1].listed - m.end <= AtLeastOne(run[0].poller.config.maxPendingMessages)
    ensures var last := run[|polls|];
      && last.poller.initialized && last.listed == run[1].listed && PendingFits(last.poller)
      && last.poller.config == run[0].poller.config
      && last.emitted == run[0].emitted
      && (exists low :: Delivered(last, Marks(m.start, m.end, low)))
      && last.poller.backlogNext.Some?
      && m.end <= last.poller.backlogNext.value <= run[1].listed - |polls|
    ensures |polls| <= run[1].listed - m.end
  {
    var n := |polls| - 1;
    assert Next(run[n], Poll(polls[n]), run[n + 1]);
    var before := m;
    if n > 0 {
      DrainTerminates(run[..n + 1], polls[..n], m);
      var low :| Delivered(run[n], Marks(m.start, m.end, low));
      before := Marks(m.start, m.end, low);
    }
    PollDrains(run[n], polls[n], run[n + 1], before);
    PollFits(run[n].poller, polls[n]);
    var after := StepDelivers(run[n], Poll(polls[n]), run[n + 1], before);
    assert after.end == m.end by { SameBoundary(run[n], polls[n], run[n + 1], before, after); }
    assert Delivered(run[n + 1], Marks(m.start, m.end, after.low));
  }

  /** What was emitted fixes the boundary once the start is known. */
  lemma SameBoundary(s: Watch, responses: seq<Response>, s': Watch, m: Marks, m': Marks)
    requires Delivered(s, m) && Delivered(s', m') && m'.start == m.start
    requires s'.emitted == s.emitted
    ensures m'.end == m.end
  {
  }
}
