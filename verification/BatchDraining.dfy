// How long a joined-room poller holds its messages back.  If what each active room has to catch up on
// fits the limit and its polls are answered, a held batch is released within a bounded number of passes,
// with everything that was held; one active room whose backlog is over the limit holds them for ever.

module BatchDraining {
  import opened Wrappers
  import opened SeenWindow
  import opened PollerModel
  import opened RoomDelivery
  import opened MultiRoomModel
  import opened RoomMemory
  import opened BatchOrder
  import opened BatchDelivery
  import RoomRuns

  // ----- one room in a batch that is held -----

  /** How far a room's scan still is above the boundary; a finished catch-up is only waiting. */
  ghost function Left(log: seq<Message>, p: PollerState, m: Marks): nat
    requires RoomInv(log, |log|, p, m)
  {
    if p.backlogNext.None? && p.pendingFresh != [] then 0 else RoomRuns.ScanFrom(p, |log|) - m.end
  }

  /** The room's log is what the service lists.  All of it that is unseen fits the limit, and at most `n`
      of it is still to be scanned. */
  ghost predicate Draining(log: seq<Message>, p: PollerState, m: Marks, n: nat) {
    && RoomInv(log, |log|, p, m) && RoomRuns.PendingFits(p)
    && |log| - m.end <= AtLeastOne(p.config.maxPendingMessages)
    && Left(log, p, m) <= n
  }

  /** The poll's requests are all answered, each page further down than the one before. */
  ghost predicate AnsweredIn(log: seq<Message>, p: PollerState, outcome: RoomOutcome) {
    && outcome.Answers?
    && Served(log, p, |log|, |log|, outcome.responses)
    && RoomRuns.Answered(p, |log|, outcome.responses)
  }

  /** The boundary after a pass that is held moves only over a first baseline, which is never emitted. */
  ghost function MarksHeld(p: PollerState, m: Marks, u: PollUpdate, low: nat, top: nat): Marks {
    if u.commitSeen && u.messages != [] then Marks(m.start, m.end, low) else MarksAfter(p, m, u, low, top)
  }

  function Less(n: nat): nat {
    if n == 0 then 0 else n - 1
  }

  /** What an answered poll offers, for a room whose unseen messages fit the limit. */
  lemma OfferCovers(log: seq<Message>, p: PollerState, m: Marks, n: nat, outcome: RoomOutcome)
    returns (u: PollUpdate, low: nat)
    requires Draining(log, p, m, n) && AnsweredIn(log, p, outcome)
    ensures PollRoom(p, outcome) == Completed(Ok(u))
    ensures m.end <= low <= |log| && Covers(log, p, m.end, u, low, |log|) && RoomRuns.UpdateFits(p, u)
    ensures !u.commitSeen ==> u.backlogNext.value < m.end + n
    ensures u.commitSeen && |log| > m.end ==> low < |log|
  {
    low := TransactionCovers(log, |log|, |log|, p, m, outcome.responses);
    RoomRuns.AnsweredPoll(log, |log|, |log|, p, m, outcome.responses);
    RoomRuns.PollFits(p, outcome.responses);
    u := Transaction(p, outcome.responses).value;
  }

  /** In a pass that is held, a room comes at least one message closer to the boundary, if it was not there. */
  lemma HeldRoom(log: seq<Message>, p: PollerState, m: Marks, n: nat, outcome: RoomOutcome) returns (m': Marks)
    requires Draining(log, p, m, n) && AnsweredIn(log, p, outcome)
    ensures HoldsBatch(p, outcome) ==> n > 0
    ensures Draining(log, AfterBatch(true, p, outcome), m', Less(n))
    ensures KeepsPending(p) ==> KeepsPending(AfterBatch(true, p, outcome)) && m'.end == m.end
  {
    var u, low := OfferCovers(log, p, m, n, outcome);
    m' := MarksHeld(p, m, u, low, |log|);
    if u.commitSeen && u.messages != [] {
      HoldCovering(log, |log|, |log|, p, m, u, low);
    } else {
      ApplyCovering(log, |log|, |log|, p, m, u, low);
      if u.commitSeen && KeepsPending(p) {
        assert |log[low..|log|]| == 0;
      }
    }
  }

  /** In a pass that is not held, a room has everything ready that is unseen. */
  lemma ReleasedRoom(log: seq<Message>, p: PollerState, m: Marks, n: nat, outcome: RoomOutcome)
    requires Draining(log, p, m, n) && AnsweredIn(log, p, outcome)
    requires !HoldsBatch(p, outcome) && KeepsPending(p)
    ensures Ready(p, outcome) == log[m.end..]
  {
    var u, low := OfferCovers(log, p, m, n, outcome);
  }

  // ----- passes over all rooms -----

  /** One pass: perhaps a refresh of the room list, then a batch. */
  datatype Pass = Pass(discovered: Option<seq<Room>>, outcomes: RoomId -> RoomOutcome, order: seq<RoomId>,
                       refreshErrors: seq<Event>)

  ghost function Refreshed(s: MultiState, pass: Pass): MultiState {
    if pass.discovered.Some? then Refresh(s, pass.discovered.value) else s
  }

  ghost predicate Possible(s: MultiState, pass: Pass) {
    && OrderOf(Refreshed(s, pass).rooms, pass.order) && KnownRooms(Refreshed(s, pass).rooms, pass.order)
    && forall e :: e in pass.refreshErrors ==> !e.Delivered?
  }

  ghost function AfterPass(s: MultiState, pass: Pass): (MultiState, MultiRoomPoll)
    requires Possible(s, pass)
  {
    PollBatch(Refreshed(s, pass), pass.outcomes, pass.order, pass.refreshErrors)
  }

  ghost predicate IsHeld(s: MultiState, pass: Pass)
    requires Possible(s, pass)
  {
    Finished(Refreshed(s, pass).rooms, pass.outcomes, pass.order).hasPendingBacklog
  }

  /** Every active room was active before, and its poll is answered. */
  ghost predicate AllAnswered(logs: RoomId -> seq<Message>, s: MultiState, pass: Pass) {
    forall id :: id in Refreshed(s, pass).rooms ==>
      id in s.rooms && AnsweredIn(logs(id), Refreshed(s, pass).rooms[id].poller, pass.outcomes(id))
  }

  ghost predicate Passes(logs: RoomId -> seq<Message>, run: seq<MultiState>, passes: seq<Pass>) {
    && |run| == |passes| + 1
    && forall i {:trigger passes[i]} :: 0 <= i < |passes| ==>
         && Possible(run[i], passes[i]) && AllAnswered(logs, run[i], passes[i])
         && run[i + 1] == AfterPass(run[i], passes[i]).0
  }

  /** Room `id` still has everything from `end` on to emit, unless it started with a first baseline. */
  ghost predicate RoomDrains(log: seq<Message>, p: PollerState, end: nat, keeps: bool, n: nat) {
    exists m :: Draining(log, p, m, n) && (keeps ==> KeepsPending(p) && m.end == end)
  }

  ghost predicate AllDrain(logs: RoomId -> seq<Message>, s: MultiState, ends: RoomId -> nat, keeps: RoomId -> bool,
                           n: nat) {
    MultiInv(s) && forall id :: id in s.rooms ==> RoomDrains(logs(id), s.rooms[id].poller, ends(id), keeps(id), n)
  }

  lemma SameOrRestoredDrains(log: seq<Message>, p: PollerState, p': PollerState, config: PollingConfig, end: nat,
                             keeps: bool, n: nat)
    requires RoomDrains(log, p, end, keeps, n) && PollerOk(p, config) && SameOrRestored(p, p', config)
    ensures RoomDrains(log, p', end, keeps, n)
  {
    var m :| Draining(log, p, m, n) && (keeps ==> KeepsPending(p) && m.end == end);
    if p' != p {
      RestoredDelivers(log, |log|, p, m, config);
      RestoredIsSame(p, config);
    }
    assert Draining(log, p', m, n);
  }

  lemma RefreshDrains(logs: RoomId -> seq<Message>, s: MultiState, ends: RoomId -> nat, keeps: RoomId -> bool, n: nat,
                      pass: Pass)
    requires AllDrain(logs, s, ends, keeps, n) && AllAnswered(logs, s, pass)
    ensures AllDrain(logs, Refreshed(s, pass), ends, keeps, n)
  {
    if pass.discovered.Some? {
      RefreshRemembers(s, pass.discovered.value);
      var s' := Refreshed(s, pass);
      forall id | id in s'.rooms ensures RoomDrains(logs(id), s'.rooms[id].poller, ends(id), keeps(id), n) {
        assert SameOrRestored(Memory(s, id), Memory(s', id), s.config.roomPolling);
        SameOrRestoredDrains(logs(id), s.rooms[id].poller, s'.rooms[id].poller, s.config.roomPolling, ends(id),
                             keeps(id), n);
      }
    }
  }

  /** A held pass brings every room one message closer, and is possible only if one is not there yet. */
  lemma HeldPass(logs: RoomId -> seq<Message>, s: MultiState, ends: RoomId -> nat, keeps: RoomId -> bool, n: nat,
                 pass: Pass)
    requires AllDrain(logs, s, ends, keeps, n) && AllAnswered(logs, s, pass)
    requires Possible(s, pass) && IsHeld(s, pass)
    ensures n > 0 && AllDrain(logs, AfterPass(s, pass).0, ends, keeps, n - 1)
  {
    RefreshDrains(logs, s, ends, keeps, n, pass);
    var t, s' := Refreshed(s, pass), AfterPass(s, pass).0;
    BatchKeepsInv(t, pass.outcomes, pass.order, pass.refreshErrors);
    FinishedHolds(t.rooms, pass.outcomes, pass.order);
    AppliedRooms(t.rooms, pass.outcomes, true, pass.order);
    OrderMembers(t.rooms, pass.order);
    forall id | id in t.rooms
      ensures HoldsBatch(t.rooms[id].poller, pass.outcomes(id)) ==> n > 0
      ensures id in s'.rooms && RoomDrains(logs(id), s'.rooms[id].poller, ends(id), keeps(id), Less(n))
    {
      var p := t.rooms[id].poller;
      var m :| Draining(logs(id), p, m, n) && (keeps(id) ==> KeepsPending(p) && m.end == ends(id));
      var m' := HeldRoom(logs(id), p, m, n, pass.outcomes(id));
      assert Draining(logs(id), s'.rooms[id].poller, m', Less(n));
    }
  }

  lemma NoBacklogLeft(s: MultiState, pass: Pass)
    requires Possible(s, pass) && !IsHeld(s, pass)
    ensures !BacklogLeft(AfterPass(s, pass).0)
  {
    HeldIffBacklogLeft(Refreshed(s, pass), pass.outcomes, pass.order, pass.refreshErrors);
  }

  /** A pass that is not held emits everything that its rooms have. */
  lemma ReleasedPass(logs: RoomId -> seq<Message>, s: MultiState, ends: RoomId -> nat, keeps: RoomId -> bool, n: nat,
                     pass: Pass, id: RoomId)
    requires AllDrain(logs, s, ends, keeps, n) && AllAnswered(logs, s, pass)
    requires Possible(s, pass) && !IsHeld(s, pass)
    requires id in Refreshed(s, pass).rooms && keeps(id)
    ensures ends(id) <= |logs(id)|
    ensures multiset(RoomShare(AfterPass(s, pass).1.events, id)) == multiset(logs(id)[ends(id)..])
  {
    RefreshDrains(logs, s, ends, keeps, n, pass);
    var t := Refreshed(s, pass);
    ShareOfBatch(t, pass.outcomes, pass.order, pass.refreshErrors, id);
    FinishedHolds(t.rooms, pass.outcomes, pass.order);
    OrderMembers(t.rooms, pass.order);
    var p := t.rooms[id].poller;
    var m :| Draining(logs(id), p, m, n) && KeepsPending(p) && m.end == ends(id);
    ReleasedRoom(logs(id), p, m, n, pass.outcomes(id));
  }

  ghost function EmittedIn(run: seq<MultiState>, passes: seq<Pass>, i: nat, id: RoomId): seq<Message>
    requires i < |passes| && i < |run| && Possible(run[i], passes[i])
  {
    RoomShare(AfterPass(run[i], passes[i]).1.events, id)
  }

  lemma HeldEmitsNothing(s: MultiState, pass: Pass, id: RoomId)
    requires Possible(s, pass) && IsHeld(s, pass)
    ensures RoomShare(AfterPass(s, pass).1.events, id) == []
  {
    ShareOfBatch(Refreshed(s, pass), pass.outcomes, pass.order, pass.refreshErrors, id);
  }

  ghost predicate HeldAt(run: seq<MultiState>, passes: seq<Pass>, i: nat) {
    i < |passes| && i < |run| && Possible(run[i], passes[i]) && IsHeld(run[i], passes[i])
  }

  lemma OnePass(logs: RoomId -> seq<Message>, run: seq<MultiState>, passes: seq<Pass>, i: nat)
    requires Passes(logs, run, passes) && i < |passes|
    ensures Possible(run[i], passes[i]) && AllAnswered(logs, run[i], passes[i])
    ensures run[i + 1] == AfterPass(run[i], passes[i]).0
  {
  }

  lemma HeldPassOf(logs: RoomId -> seq<Message>, run: seq<MultiState>, passes: seq<Pass>,
                   ends: RoomId -> nat, keeps: RoomId -> bool, n: nat, i: nat)
    requires Passes(logs, run, passes) && HeldAt(run, passes, i) && AllDrain(logs, run[i], ends, keeps, n)
    ensures n > 0 && AllDrain(logs, run[i + 1], ends, keeps, n - 1)
  {
    OnePass(logs, run, passes, i);
    HeldPass(logs, run[i], ends, keeps, n, passes[i]);
  }

  ghost predicate UpTo(held: nat -> bool, k: nat) {
    forall i: nat :: i < k ==> held(i)
  }

  /** If what is left goes down by one with every step that is held, some step within that many is not. */
  lemma {:induction false} CountsDown(held: nat -> bool, leaves: (nat, nat) -> bool, n: nat, j: nat)
    returns (k: nat, left: nat)
    requires leaves(j, n) && forall i: nat, l: nat :: leaves(i, l) && held(i) ==> l > 0 && leaves(i + 1, l - 1)
    requires UpTo(held, j)
    ensures j <= k && k + left == j + n && !held(k) && leaves(k, left) && UpTo(held, k)
    decreases n
  {
    k, left := j, n;
    if held(j) {
      k, left := CountsDown(held, leaves, n - 1, j + 1);
    }
  }

  ghost predicate HeldUntil(run: seq<MultiState>, passes: seq<Pass>, k: nat) {
    forall i: nat :: i < k ==> HeldAt(run, passes, i)
  }

  lemma HeldUpTo(run: seq<MultiState>, passes: seq<Pass>, held: nat -> bool, k: nat)
    requires UpTo(held, k) && forall i: nat :: held(i) ==> HeldAt(run, passes, i)
    ensures HeldUntil(run, passes, k)
  {
    forall i: nat | i < k ensures HeldAt(run, passes, i) {
      assert held(i);
    }
  }

  /** However the rooms' polls finish, the first pass that is not held comes after no more held ones than
      the longest catch-up has messages left to scan. */
  lemma FirstReleased(logs: RoomId -> seq<Message>, run: seq<MultiState>, passes: seq<Pass>,
                      ends: RoomId -> nat, keeps: RoomId -> bool, n: nat)
    returns (k: nat, left: nat)
    requires Passes(logs, run, passes) && n < |passes| && AllDrain(logs, run[0], ends, keeps, n)
    ensures k + left == n && !HeldAt(run, passes, k) && AllDrain(logs, run[k], ends, keeps, left)
    ensures HeldUntil(run, passes, k)
  {
    var held := (i: nat) => HeldAt(run, passes, i);
    var leaves := (i: nat, l: nat) => i < |run| && AllDrain(logs, run[i], ends, keeps, l);
    forall i: nat, l: nat | leaves(i, l) && held(i) ensures l > 0 && leaves(i + 1, l - 1) {
      HeldPassOf(logs, run, passes, ends, keeps, l, i);
    }
    k, left := CountsDown(held, leaves, n, 0);
    HeldUpTo(run, passes, held, k);
  }

  /** So if what every active room has to catch up on fits its limit, and no new messages come in, one of
      any n + 1 answered passes is not held, where n is the longest catch-up.  Nothing is emitted before
      it, and it emits everything each room had to catch up on from the start. */
  lemma HeldBatchIsReleased(logs: RoomId -> seq<Message>, run: seq<MultiState>, passes: seq<Pass>,
                            ends: RoomId -> nat, keeps: RoomId -> bool, n: nat)
    returns (k: nat)
    requires Passes(logs, run, passes) && AllDrain(logs, run[0], ends, keeps, n) && |passes| > n
    ensures k <= n && forall i, id {:trigger EmittedIn(run, passes, i, id)} :: 0 <= i < k ==>
      EmittedIn(run, passes, i, id) == []
    ensures forall id :: id in Refreshed(run[k], passes[k]).rooms && keeps(id) ==>
      ends(id) <= |logs(id)| && multiset(EmittedIn(run, passes, k, id)) == multiset(logs(id)[ends(id)..])
    ensures !BacklogLeft(run[k + 1])
  {
    var left: nat;
    k, left := FirstReleased(logs, run, passes, ends, keeps, n);
    forall i, id {:trigger EmittedIn(run, passes, i, id)} | 0 <= i < k ensures EmittedIn(run, passes, i, id) == [] {
      assert HeldAt(run, passes, i);
      HeldEmitsNothing(run[i], passes[i], id);
    }
    forall id | id in Refreshed(run[k], passes[k]).rooms && keeps(id)
      ensures ends(id) <= |logs(id)| && multiset(EmittedIn(run, passes, k, id)) == multiset(logs(id)[ends(id)..])
    {
      ReleasedPass(logs, run[k], ends, keeps, left, passes[k], id);
    }
    NoBacklogLeft(run[k], passes[k]);
  }

  /** Any room whose unseen messages fit the limit is such a room, with no more to scan than those. */
  lemma FitsDrains(log: seq<Message>, p: PollerState, m: Marks)
    requires RoomInv(log, |log|, p, m) && RoomRuns.PendingFits(p)
    requires |log| - m.end <= AtLeastOne(p.config.maxPendingMessages)
    ensures RoomDrains(log, p, m.end, KeepsPending(p), |log| - m.end)
  {
    assert Draining(log, p, m, |log| - m.end);
  }

  // ----- a room whose backlog is over the limit -----

  /** The room has a cursor to go on from, and more has been listed above its boundary than may be kept. */
  ghost predicate Overfull(listed: nat, p: PollerState, m: Marks) {
    && p.backlogNext.Some? && RoomRuns.PendingFits(p)
    && listed - m.end > AtLeastOne(p.config.maxPendingMessages)
  }

  /** Whatever its poll meets, it can neither commit nor lose its cursor. */
  lemma OverfullRoom(log: seq<Message>, listed: nat, listed': nat, p: PollerState, m: Marks, outcome: RoomOutcome)
    requires RoomInv(log, listed, p, m) && OutcomeServed(log, p, listed, listed', outcome) && Overfull(listed, p, m)
    ensures listed' == listed && HoldsBatch(p, outcome) && Overfull(listed, AfterBatch(true, p, outcome), m)
  {
    if outcome.Answers? {
      var low := TransactionCovers(log, listed, listed', p, m, outcome.responses);
      RoomRuns.PollFits(p, outcome.responses);
    }
  }

  lemma SameEnd(log: seq<Message>, log': seq<Message>, emitted: seq<Message>, start: nat, end: nat, end': nat)
    requires start <= end <= |log| && start <= end' <= |log'|
    requires IsStretch(log, emitted, start, end) && IsStretch(log', emitted, start, end')
    ensures end == end'
  {
    assert |multiset(emitted)| == |multiset(log[start..end])| == |multiset(log'[start..end'])|;
  }

  /** Nothing is emitted for any room in a batch one of whose rooms holds it back. */
  lemma NoShares(s: MultiState, outcomes: RoomId -> RoomOutcome, order: seq<RoomId>, refreshErrors: seq<Event>,
                 id: RoomId)
    requires OrderOf(s.rooms, order) && forall e :: e in refreshErrors ==> !e.Delivered?
    requires id in s.rooms && HoldsBatch(s.rooms[id].poller, outcomes(id))
    ensures KnownRooms(s.rooms, order) && Finished(s.rooms, outcomes, order).hasPendingBacklog
    ensures forall other :: RoomShare(PollBatch(s, outcomes, order, refreshErrors).1.events, other) == []
  {
    OrderMembers(s.rooms, order);
    FinishedHolds(s.rooms, outcomes, order);
    forall other ensures RoomShare(PollBatch(s, outcomes, order, refreshErrors).1.events, other) == [] {
      ShareOfBatch(s, outcomes, order, refreshErrors, other);
    }
  }

  ghost predicate Blocked(s: Watch, id: RoomId, m: Marks) {
    BatchDelivery.Delivered(s, id, m) && Overfull(s.listed, Memory(s.multi, id), m)
  }

  /** No room gets anything out of the step. */
  ghost predicate EmitsNothing(s: Watch, step: Step) {
    step.BatchPoll? && KnownRooms(s.multi.rooms, step.order) ==>
      forall other :: RoomShare(PollBatch(s.multi, step.outcomes, step.order, step.refreshErrors).1.events, other) == []
  }

  lemma BlockedMemory(s: Watch, step: Step, s': Watch, id: RoomId, m: Marks)
    requires Blocked(s, id, m) && Next(s, step, s', id) && !step.Reconfigure?
    ensures s'.emitted == s.emitted && Overfull(s'.listed, Memory(s'.multi, id), m)
    ensures id in s.multi.rooms ==> EmitsNothing(s, step)
  {
    match step {
      case RefreshRooms(discovered) => RefreshKeepsBacklog(s.multi, discovered, id);
      case BatchPoll(outcomes, order, refreshErrors) =>
        BatchMemory(s.multi, outcomes, order, refreshErrors, id);
        if id in s.multi.rooms {
          DeliveredGrows(s.log, s'.log, s.listed, Memory(s.multi, id), s.emitted, m);
          OverfullRoom(s'.log, s.listed, s'.listed, s.multi.rooms[id].poller, m, outcomes(id));
          NoShares(s.multi, outcomes, order, refreshErrors, id);
        } else {
          ShareOfBatch(s.multi, outcomes, order, refreshErrors, id);
        }
    }
  }

  lemma BlockedStep(s: Watch, step: Step, s': Watch, id: RoomId, m: Marks) returns (m': Marks)
    requires Blocked(s, id, m) && Next(s, step, s', id) && !step.Reconfigure?
    ensures Blocked(s', id, m') && SameSoFar(s, s', m, m')
  {
    BlockedMemory(s, step, s', id, m);
    m' := StepDelivers(s, step, s', id, m);
    SameEnd(s.log, s'.log, s.emitted, m.start, m.end, m'.end);
  }

  ghost predicate LimitsKept(steps: seq<Step>) {
    forall i :: 0 <= i < |steps| ==> !steps[i].Reconfigure?
  }

  ghost predicate SameSoFar(s: Watch, s': Watch, m: Marks, m': Marks) {
    m'.start == m.start && m'.end == m.end && s'.emitted == s.emitted
  }

  lemma RunBlocked(run: seq<Watch>, steps: seq<Step>, id: RoomId, m: Marks, n: nat) returns (m': Marks)
    requires Run(run, steps, id) && LimitsKept(steps) && n < |steps| && Blocked(run[n], id, m)
    ensures Blocked(run[n + 1], id, m') && SameSoFar(run[n], run[n + 1], m, m')
  {
    assert Next(run[n], steps[n], run[n + 1], id);
    m' := BlockedStep(run[n], steps[n], run[n + 1], id, m);
  }

  lemma {:induction false} StaysBlocked(run: seq<Watch>, steps: seq<Step>, id: RoomId, m: Marks, k: nat, n: nat)
    returns (m': Marks)
    requires Run(run, steps, id) && LimitsKept(steps) && k <= n <= |steps| && Blocked(run[k], id, m)
    ensures Blocked(run[n], id, m') && SameSoFar(run[k], run[n], m, m')
    decreases n - k
  {
    if k == n {
      m' := m;
    } else {
      var next := RunBlocked(run, steps, id, m, k);
      m' := StaysBlocked(run, steps, id, next, k + 1, n);
    }
  }

  /** One room whose backlog is over the limit holds back the messages of every room in every batch it
      takes part in, whatever the polls meet, as long as the limits are not changed. */
  lemma OverfullRoomHoldsAll(run: seq<Watch>, steps: seq<Step>, id: RoomId, m: Marks, n: nat)
    requires Run(run, steps, id) && LimitsKept(steps) && Blocked(run[0], id, m) && n < |steps|
    ensures run[n + 1].emitted == run[0].emitted
    ensures id in run[n].multi.rooms ==> EmitsNothing(run[n], steps[n])
  {
    var m' := StaysBlocked(run, steps, id, m, 0, n);
    assert Next(run[n], steps[n], run[n + 1], id);
    BlockedMemory(run[n], steps[n], run[n + 1], id, m');
  }

  /** For example, two new messages, one to a page, with one page to a poll and one message to be kept. */
  lemma SecondPageIsTooMuch() returns (log: seq<Message>, p: PollerState, page: Page)
    ensures RoomInv(log, 1, p, Marks(1, 1, 1)) && Served(log, p, 1, 3, [Fetched(page)])
    ensures Overfull(3, AfterPoll(p, Transaction(p, [Fetched(page)])), Marks(1, 1, 2))
  {
    var a, b, c := Message(Some("a"), None), Message(Some("b"), None), Message(Some("c"), None);
    log, page := [a, b, c], Page([c], Some(2));
    p := FromCheckpoint(PollingConfig(1, false, 10, 1), Some((["a"], false)));
    assert NewestIds(log, 0, 1) == ["a"];
    RoomRuns.SeededPoller(log, 1, p.config, ["a"], 1);
    assert Identified([c][1..]) == [];
    assert Identified(page.items) == NewestFirst(log, 2, 3);
    var known: set<MessageId> := Elements([]);
    assert p.seen == ["a"] && p.pendingSeenIds == [] && known == {};
    assert Collect(p.seen, [c][1..], true, false, known + {"c"}) == Collected([], [], false);
    assert Collect(p.seen, [c], true, false, known) == Collected([c], ["c"], false);
    assert p.pendingFresh + [c] == [c] && p.pendingSeenIds + ["c"] == ["c"];
    assert ScanPages(p, page, 1, p.pendingFresh, p.pendingSeenIds, []) == Ok(Defer([c], ["c"], 2));
    assert Transaction(p, [Fetched(page)]) == Ok(Defer([c], ["c"], 2));
  }
}
