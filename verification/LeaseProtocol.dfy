// What attempt leases guarantee over any interleaving of store handles on one log and any restarts of the
// process, with a clock that does not go back and with writes that may fail before or after reaching the
// disk.

module LeaseProtocol {
  import opened Wrappers
  import opened StateLog
  import opened StateStore
  import Text

  /** One operation of some handle in process `pid`, or the start of a new process. */
  datatype Moment =
    | Operation(op: Op, now: Time, disk: Disk, pid: nat)
    | Restart(now: Time)

  /** A new process finds the log and starts counting at one. */
  function Next(w: World, m: Moment): World {
    match m
    case Operation(op, now, disk, pid) => Perform(w, op, now, pid, disk).0
    case Restart(_) => World(w.records, 1)
  }

  /** `aid` is no id the counter can still hand out. */
  ghost predicate Issued(w: World, pid: nat, aid: string) {
    forall micros, sequence: nat :: sequence >= w.nextAttempt ==> aid != Text.AttemptText(micros, pid, sequence)
  }

  /** What an operation may append, given the history it sees. */
  ghost predicate Allowed(w: World, w': World, pid: nat, event: StateEvent, now: Time) {
    var h := History(w.records);
    match event
    case ProcessedMessage(id, _) =>
      id !in h.processed && id in h.leases && h.leases[id].expiresAt > now
    case AttemptReleased(id, aid, _) =>
      Holds(h.leases, id, aid) && h.leases[id].expiresAt > now
    case AttemptLeased(id, aid, expiresAt) =>
      && expiresAt > now
      && (|| (Holds(h.leases, id, aid) && h.leases[id].expiresAt > now)
          || (&& id !in h.processed && (id in h.leases ==> h.leases[id].expiresAt <= now)
              && aid == AttemptIdFor(now, pid, w.nextAttempt) && w'.nextAttempt == w.nextAttempt + 1))
    case CheckpointSaved(_, _) => true
  }

  /** Every operation appends at most one record, and only one that the history allows. */
  lemma PerformAppends(w: World, op: Op, now: Time, pid: nat, disk: Disk)
    requires AllValid(w.records)
    ensures var w' := Perform(w, op, now, pid, disk).0;
      && w.nextAttempt <= w'.nextAttempt
      && (w'.records == w.records
          || (&& |w'.records| == |w.records| + 1 && w'.records[..|w.records|] == w.records
              && RecordError(w'.records[|w.records|]).None?
              && Allowed(w, w', pid, w'.records[|w.records|].event, now)))
  {
    ReplayIsFilteredHistory(w.records, now);
  }

  /** An attempt is started only for a message that is neither processed nor leased, and its record is
      then the log's last. */
  lemma StartAppends(w: World, op: Op, now: Time, pid: nat, disk: Disk, a: AttemptLease)
    requires AllValid(w.records)
    requires Perform(w, op, now, pid, disk).1 == Begun(Started(a))
    ensures var w' := Perform(w, op, now, pid, disk).0; var h := History(w.records);
      && w'.records == w.records + [NewRecord(AttemptLeased(a.messageId, a.attemptId, a.expiresAt))]
      && a.messageId !in h.processed
      && (a.messageId in h.leases ==> h.leases[a.messageId].expiresAt <= now)
      && a.attemptId == AttemptIdFor(now, pid, w.nextAttempt) && w'.nextAttempt == w.nextAttempt + 1
  {
    ReplayIsFilteredHistory(w.records, now);
  }

  // ----- steps -----

  ghost function Appended(w: World, w': World): Option<StateEvent> {
    if |w'.records| == |w.records| + 1 then Some(w'.records[|w.records|].event) else None
  }

  /** The log keeps its records and gets at most one more. */
  ghost predicate Extends(w: World, w': World) {
    w'.records == w.records || (|w'.records| == |w.records| + 1 && w'.records[..|w.records|] == w.records)
  }

  /** What may follow a history, whichever process writes it. */
  ghost predicate Permitted(h: StateSnapshot, event: StateEvent, now: Time) {
    match event
    case ProcessedMessage(id, _) => id !in h.processed && id in h.leases && h.leases[id].expiresAt > now
    case AttemptReleased(id, aid, _) => Holds(h.leases, id, aid) && h.leases[id].expiresAt > now
    case AttemptLeased(id, aid, expiresAt) =>
      && expiresAt > now
      && (|| (Holds(h.leases, id, aid) && h.leases[id].expiresAt > now)
          || (id !in h.processed && (id in h.leases ==> h.leases[id].expiresAt <= now)))
    case CheckpointSaved(_, _) => true
  }

  /** One moment, seen through the event it appended. */
  ghost predicate Step(w: World, w': World, now: Time) {
    && Extends(w, w')
    && History(w'.records) == (if Appended(w, w').Some? then Take(History(w.records), Appended(w, w').value)
                               else History(w.records))
    && (Appended(w, w').Some? ==> Permitted(History(w.records), Appended(w, w').value, now))
  }

  lemma AppendSteps(w: World, w': World, pid: nat, now: Time)
    requires AllValid(w.records)
    requires |w'.records| == |w.records| + 1 && w'.records[..|w.records|] == w.records
    requires RecordError(w'.records[|w.records|]).None?
    requires Allowed(w, w', pid, w'.records[|w.records|].event, now)
    ensures Step(w, w', now) && AllValid(w'.records)
  {
  }

  lemma NextSteps(w: World, m: Moment)
    requires AllValid(w.records)
    ensures Step(w, Next(w, m), m.now) && AllValid(Next(w, m).records)
  {
    if m.Operation? {
      PerformAppends(w, m.op, m.now, m.pid, m.disk);
      if Next(w, m).records != w.records {
        AppendSteps(w, Next(w, m), m.pid, m.now);
      }
    }
  }

  // ----- runs -----

  ghost predicate Run(worlds: seq<World>, moments: seq<Moment>) {
    && |worlds| == |moments| + 1
    && AllValid(worlds[0].records)
    && (forall i {:trigger moments[i]} :: 0 <= i < |moments| ==> worlds[i + 1] == Next(worlds[i], moments[i]))
    && (forall i, j :: 0 <= i <= j < |moments| ==> moments[i].now <= moments[j].now)
  }

  ghost function AnswerAt(worlds: seq<World>, moments: seq<Moment>, i: nat): Answer
    requires i < |moments| <= |worlds| && moments[i].Operation?
  {
    Perform(worlds[i], moments[i].op, moments[i].now, moments[i].pid, moments[i].disk).1
  }

  /** A run seen through the events it appended. */
  ghost predicate Steps(worlds: seq<World>, times: seq<Time>) {
    && |worlds| == |times| + 1
    && (forall i {:trigger times[i]} :: 0 <= i < |times| ==> Step(worlds[i], worlds[i + 1], times[i]))
    && (forall i, j :: 0 <= i <= j < |times| ==> times[i] <= times[j])
  }

  ghost function Times(moments: seq<Moment>): (r: seq<Time>)
    ensures |r| == |moments| && forall i :: 0 <= i < |r| ==> r[i] == moments[i].now
  {
    seq(|moments|, i requires 0 <= i < |moments| => moments[i].now)
  }

  lemma {:induction false} RunIsValid(worlds: seq<World>, moments: seq<Moment>, i: nat)
    requires Run(worlds, moments) && i < |worlds|
    ensures AllValid(worlds[i].records)
  {
    if i > 0 {
      RunIsValid(worlds, moments, i - 1);
      assert worlds[i] == Next(worlds[i - 1], moments[i - 1]);
      NextSteps(worlds[i - 1], moments[i - 1]);
    }
  }

  lemma RunSteps(worlds: seq<World>, moments: seq<Moment>)
    requires Run(worlds, moments)
    ensures Steps(worlds, Times(moments))
  {
    forall i | 0 <= i < |moments| ensures Step(worlds[i], worlds[i + 1], moments[i].now) {
      RunIsValid(worlds, moments, i);
      NextSteps(worlds[i], moments[i]);
    }
  }

  lemma StepAt(worlds: seq<World>, times: seq<Time>, i: nat)
    requires Steps(worlds, times) && i < |times|
    ensures Step(worlds[i], worlds[i + 1], times[i])
    ensures i > 0 ==> times[i - 1] <= times[i]
  {
  }

  // ----- at most one owner -----

  ghost predicate LeasesTo(e: Option<StateEvent>, a: AttemptLease) {
    e.Some? && e.value.AttemptLeased? && e.value.messageId == a.messageId && e.value.attemptId == a.attemptId
  }

  ghost predicate Releases(e: Option<StateEvent>, a: AttemptLease) {
    e.Some? && e.value.AttemptReleased? && e.value.messageId == a.messageId && e.value.attemptId == a.attemptId
  }

  /** The last expiry granted to an attempt that started at `from`, before step `end`. */
  ghost function Granted(worlds: seq<World>, a: AttemptLease, from: nat, end: nat): Time
    requires from < end < |worlds|
  {
    if end == from + 1 then a.expiresAt
    else
      var e := Appended(worlds[end - 1], worlds[end]);
      if LeasesTo(e, a) then e.value.expiresAt else Granted(worlds, a, from, end - 1)
  }

  /** The attempt's release was recorded after step `from` and before step `end`. */
  ghost predicate Released(worlds: seq<World>, a: AttemptLease, from: nat, end: nat)
    requires from < end < |worlds|
  {
    end > from + 1 && (Releases(Appended(worlds[end - 1], worlds[end]), a) || Released(worlds, a, from, end - 1))
  }

  /** The attempt still holds its message, or a known reason says why it does not. */
  ghost predicate Grip(h: StateSnapshot, a: AttemptLease, granted: Time, released: bool, now: Time) {
    && (Holds(h.leases, a.messageId, a.attemptId) ==> h.leases[a.messageId].expiresAt == granted)
    && (released || a.messageId in h.processed || granted <= now || Holds(h.leases, a.messageId, a.attemptId))
  }

  lemma GripStep(w: World, w': World, a: AttemptLease, granted: Time, released: bool, before: Time, now: Time)
    requires Step(w, w', now) && before <= now
    requires Grip(History(w.records), a, granted, released, before)
    ensures var e := Appended(w, w');
      Grip(History(w'.records), a, if LeasesTo(e, a) then e.value.expiresAt else granted,
           released || Releases(e, a), now)
  {
  }

  /** The attempt has just started: it holds its message. */
  ghost predicate TakesHold(w: World, a: AttemptLease) {
    && Holds(History(w.records).leases, a.messageId, a.attemptId)
    && History(w.records).leases[a.messageId].expiresAt == a.expiresAt
  }

  lemma {:induction false} GripKeeps(worlds: seq<World>, times: seq<Time>, a: AttemptLease, from: nat, end: nat)
    requires Steps(worlds, times) && from < end < |worlds| && TakesHold(worlds[from + 1], a)
    ensures Grip(History(worlds[end].records), a, Granted(worlds, a, from, end), Released(worlds, a, from, end), times[end - 1])
    decreases end
  {
    if end > from + 1 {
      GripKeeps(worlds, times, a, from, end - 1);
      StepAt(worlds, times, end - 1);
      GripStep(worlds[end - 1], worlds[end], a, Granted(worlds, a, from, end - 1),
               Released(worlds, a, from, end - 1), times[end - 2], times[end - 1]);
    }
  }

  lemma StartInRun(worlds: seq<World>, moments: seq<Moment>, a: AttemptLease, i: nat)
    requires Run(worlds, moments) && i < |moments| && moments[i].Operation?
    requires AnswerAt(worlds, moments, i) == Begun(Started(a))
    ensures TakesHold(worlds[i + 1], a)
    ensures worlds[i + 1].records
            == worlds[i].records + [NewRecord(AttemptLeased(a.messageId, a.attemptId, a.expiresAt))]
  {
    var m := moments[i];
    RunIsValid(worlds, moments, i);
    assert worlds[i + 1] == Next(worlds[i], m);
    StartAppends(worlds[i], m.op, m.now, m.pid, m.disk, a);
    assert worlds[i + 1].records[..|worlds[i + 1].records| - 1] == worlds[i].records;
  }

  lemma StartLeavesToken(worlds: seq<World>, moments: seq<Moment>, a: AttemptLease, i: nat, j: nat)
    requires Run(worlds, moments) && i < j < |worlds| && moments[i].Operation?
    requires AnswerAt(worlds, moments, i) == Begun(Started(a))
    ensures TokenIn(worlds[j].records, a.messageId, a.attemptId)
  {
    StartInRun(worlds, moments, a, i);
    RunSteps(worlds, moments);
    var n := |worlds[i].records|;
    assert worlds[i + 1].records[n].event == AttemptLeased(a.messageId, a.attemptId, a.expiresAt);
    TokenStays(worlds, Times(moments), a.messageId, a.attemptId, i + 1, j);
  }

  lemma GripInRun(worlds: seq<World>, moments: seq<Moment>, a: AttemptLease, i: nat, j: nat)
    requires Run(worlds, moments) && i < j < |worlds| && moments[i].Operation?
    requires AnswerAt(worlds, moments, i) == Begun(Started(a))
    ensures Grip(History(worlds[j].records), a, Granted(worlds, a, i, j), Released(worlds, a, i, j), moments[j - 1].now)
  {
    RunSteps(worlds, moments);
    StartInRun(worlds, moments, a, i);
    GripKeeps(worlds, Times(moments), a, i, j);
  }

  /** Two attempts are started for the same message, in the same process or in different ones, only if in
      between a release of the first one's token was recorded or the last lease granted to it ran out.  The
      tokens differ if the second one was not in the log for the message already. */
  lemma SecondStartNeedsEnd(worlds: seq<World>, moments: seq<Moment>, a: AttemptLease, b: AttemptLease, i: nat, j: nat)
    requires Run(worlds, moments) && i < j < |moments| && moments[i].Operation? && moments[j].Operation?
    requires AnswerAt(worlds, moments, i) == Begun(Started(a))
    requires AnswerAt(worlds, moments, j) == Begun(Started(b))
    requires a.messageId == b.messageId
    ensures Released(worlds, a, i, j) || Granted(worlds, a, i, j) <= moments[j].now
    ensures !TokenIn(worlds[j].records, b.messageId, b.attemptId) ==> a.attemptId != b.attemptId
  {
    GripInRun(worlds, moments, a, i, j);
    StartLeavesToken(worlds, moments, a, i, j);
    RunIsValid(worlds, moments, j);
    SecondStart(worlds[j], moments[j], a, b, Granted(worlds, a, i, j), Released(worlds, a, i, j), moments[j - 1].now);
  }

  lemma SecondStart(w: World, m: Moment, a: AttemptLease, b: AttemptLease, granted: Time, released: bool, before: Time)
    requires AllValid(w.records) && before <= m.now && m.Operation?
    requires Grip(History(w.records), a, granted, released, before)
    requires Perform(w, m.op, m.now, m.pid, m.disk).1 == Begun(Started(b)) && a.messageId == b.messageId
    ensures released || granted <= m.now
  {
    StartAppends(w, m.op, m.now, m.pid, m.disk, b);
  }

  // ----- tokens -----

  /** Some lease in the log was granted to the token. */
  ghost predicate TokenIn(records: seq<StateRecord>, id: string, aid: string) {
    exists i :: 0 <= i < |records| && records[i].event.AttemptLeased?
                && records[i].event.messageId == id && records[i].event.attemptId == aid
  }

  lemma {:induction false} TokenStays(worlds: seq<World>, times: seq<Time>, id: string, aid: string, low: nat, high: nat)
    requires Steps(worlds, times) && low <= high < |worlds| && TokenIn(worlds[low].records, id, aid)
    ensures TokenIn(worlds[high].records, id, aid)
    decreases high
  {
    if high > low {
      TokenStays(worlds, times, id, aid, low, high - 1);
      StepAt(worlds, times, high - 1);
      var w, w' := worlds[high - 1], worlds[high];
      var i :| 0 <= i < |w.records| && w.records[i].event.AttemptLeased?
               && w.records[i].event.messageId == id && w.records[i].event.attemptId == aid;
      assert w'.records[i] == w.records[i];
    }
  }

  /** The step grants a lease to the token that is no extension of one the token holds. */
  ghost predicate StartsWith(w: World, w': World, id: string, aid: string, now: Time) {
    var e := Appended(w, w');
    && e.Some? && e.value.AttemptLeased? && e.value.messageId == id && e.value.attemptId == aid
    && !OwnsAt(w, id, aid, now)
  }

  /** Every token that starts an attempt is new in the log for its message. */
  ghost predicate FreshStarts(worlds: seq<World>, times: seq<Time>)
    requires |worlds| == |times| + 1
  {
    forall i, id, aid :: 0 <= i < |times| && StartsWith(worlds[i], worlds[i + 1], id, aid, times[i]) ==>
      !TokenIn(worlds[i].records, id, aid)
  }

  // ----- ownership does not come back -----

  /** The attempt may release, defer or complete its message at that time. */
  ghost predicate OwnsAt(w: World, id: string, aid: string, now: Time) {
    Holds(Unexpired(History(w.records).leases, now), id, aid)
  }

  lemma OwnershipStep(w: World, w': World, id: string, aid: string, before: Time, now: Time)
    requires Step(w, w', now) && before <= now && !OwnsAt(w, id, aid, before)
    ensures OwnsAt(w', id, aid, now) <==> StartsWith(w, w', id, aid, now)
  {
  }

  /** The token owns the message after some step from `i` on, before `n`. */
  ghost predicate Returns(worlds: seq<World>, times: seq<Time>, id: string, aid: string, i: nat, n: nat)
    requires i <= n <= |times| < |worlds|
  {
    exists k {:trigger times[k]} :: i <= k < n && OwnsAt(worlds[k + 1], id, aid, times[k])
  }

  /** Some step from `i` on, before `n`, hands the token out for the message. */
  ghost predicate HandedOut(worlds: seq<World>, times: seq<Time>, id: string, aid: string, i: nat, n: nat)
    requires i <= n <= |times| < |worlds|
  {
    exists k {:trigger times[k]} :: i <= k < n && StartsWith(worlds[k], worlds[k + 1], id, aid, times[k])
  }

  lemma ReturnsNow(worlds: seq<World>, times: seq<Time>, id: string, aid: string, i: nat, n: nat, lost: Time)
    requires Steps(worlds, times) && i < n < |worlds| && !OwnsAt(worlds[i], id, aid, lost) && lost <= times[i]
    requires !Returns(worlds, times, id, aid, i, n - 1)
    ensures OwnsAt(worlds[n], id, aid, times[n - 1]) <==> StartsWith(worlds[n - 1], worlds[n], id, aid, times[n - 1])
  {
    StepAt(worlds, times, n - 1);
    if n - 1 > i {
      assert times[n - 2] <= times[n - 1];
      OwnershipStep(worlds[n - 1], worlds[n], id, aid, times[n - 2], times[n - 1]);
    } else {
      OwnershipStep(worlds[i], worlds[n], id, aid, lost, times[i]);
    }
  }

  lemma ReturnsLater(worlds: seq<World>, times: seq<Time>, id: string, aid: string, i: nat, n: nat)
    requires i < n <= |times| < |worlds|
    ensures Returns(worlds, times, id, aid, i, n)
            <==> Returns(worlds, times, id, aid, i, n - 1) || OwnsAt(worlds[n], id, aid, times[n - 1])
    ensures HandedOut(worlds, times, id, aid, i, n)
            <==> HandedOut(worlds, times, id, aid, i, n - 1)
                 || StartsWith(worlds[n - 1], worlds[n], id, aid, times[n - 1])
  {
  }

  /** A token that has lost its message owns it again exactly if a later start hands the same token out for
      it again. */
  lemma {:induction false} LostOwnershipReturnsIff(worlds: seq<World>, times: seq<Time>, id: string, aid: string, i: nat,
                                                   n: nat, lost: Time)
    requires Steps(worlds, times) && i <= n < |worlds| && !OwnsAt(worlds[i], id, aid, lost)
    requires i < n ==> lost <= times[i]
    ensures Returns(worlds, times, id, aid, i, n) <==> HandedOut(worlds, times, id, aid, i, n)
    decreases n
  {
    if n > i {
      LostOwnershipReturnsIff(worlds, times, id, aid, i, n - 1, lost);
      ReturnsLater(worlds, times, id, aid, i, n);
      if !Returns(worlds, times, id, aid, i, n - 1) {
        ReturnsNow(worlds, times, id, aid, i, n, lost);
      }
    }
  }

  /** With fresh tokens, an attempt that has lost its message never owns it again, in this process or a
      later one. */
  lemma LostOwnershipStaysLost(worlds: seq<World>, moments: seq<Moment>, a: AttemptLease, i: nat, j: nat, lost: Time, later: Time)
    requires Run(worlds, moments) && FreshStarts(worlds, Times(moments)) && i <= j < |worlds|
    requires TokenIn(worlds[i].records, a.messageId, a.attemptId) && !OwnsAt(worlds[i], a.messageId, a.attemptId, lost)
    requires lost <= later && (i < j ==> lost <= moments[i].now && moments[j - 1].now <= later)
    ensures !OwnsAt(worlds[j], a.messageId, a.attemptId, later)
  {
    var times := Times(moments);
    RunSteps(worlds, moments);
    if i < j {
      LostOwnershipReturnsIff(worlds, times, a.messageId, a.attemptId, i, j, lost);
      forall k {:trigger times[k]} | i <= k < j
        ensures !StartsWith(worlds[k], worlds[k + 1], a.messageId, a.attemptId, times[k])
      {
        TokenStays(worlds, times, a.messageId, a.attemptId, i, k);
      }
      assert !HandedOut(worlds, times, a.messageId, a.attemptId, i, j);
      ReturnsLater(worlds, times, a.messageId, a.attemptId, i, j);
    }
  }

  // ----- fresh tokens -----

  ghost predicate AllIssued(w: World, pid: nat) {
    forall i :: 0 <= i < |w.records| && w.records[i].event.AttemptLeased? ==>
      Issued(w, pid, w.records[i].event.attemptId)
  }

  lemma StepIssues(w: World, w': World, pid: nat, now: Time)
    requires AllIssued(w, pid) && w.nextAttempt <= w'.nextAttempt && Extends(w, w')
    requires Appended(w, w').Some? ==> Allowed(w, w', pid, Appended(w, w').value, now)
    ensures AllIssued(w', pid)
  {
    var n := |w.records|;
    forall i | 0 <= i < |w'.records| && w'.records[i].event.AttemptLeased?
      ensures Issued(w', pid, w'.records[i].event.attemptId)
    {
      if i < n {
        assert w'.records[i] == w.records[i];
      } else {
        NewLeaseIssued(w, w', pid, w'.records[n].event, now);
      }
    }
  }

  /** The attempt of a lease that the history holds comes from a record. */
  lemma {:induction false} HeldIsRecorded(records: seq<StateRecord>, id: string)
    requires id in History(records).leases
    ensures exists i :: 0 <= i < |records| && records[i].event.AttemptLeased?
                        && records[i].event.attemptId == History(records).leases[id].attemptId
  {
    var init, last := records[..|records| - 1], records[|records| - 1];
    if id in History(init).leases && History(records).leases[id] == History(init).leases[id] {
      HeldIsRecorded(init, id);
      var i :| 0 <= i < |init| && init[i].event.AttemptLeased?
               && init[i].event.attemptId == History(init).leases[id].attemptId;
      assert records[i] == init[i];
    } else {
      assert records[|records| - 1].event.AttemptLeased?;
    }
  }

  lemma NewLeaseIssued(w: World, w': World, pid: nat, event: StateEvent, now: Time)
    requires AllIssued(w, pid) && event.AttemptLeased? && Allowed(w, w', pid, event, now)
    requires w.nextAttempt <= w'.nextAttempt
    ensures Issued(w', pid, event.attemptId)
  {
    var h := History(w.records);
    if Holds(h.leases, event.messageId, event.attemptId) {
      HeldIsRecorded(w.records, event.messageId);
    } else {
      FreshIsIssued(now, pid, w.nextAttempt);
    }
  }

  lemma FreshIsIssued(now: Time, pid: nat, sequence: nat)
    ensures forall micros, s: nat :: s > sequence ==> AttemptIdFor(now, pid, sequence) != Text.AttemptText(micros, pid, s)
  {
    forall micros, s: nat | s > sequence
      ensures AttemptIdFor(now, pid, sequence) != Text.AttemptText(micros, pid, s)
    {
      Text.AttemptTextDiffers(now / 1000, pid, sequence, micros, pid, s);
    }
  }

  /** Operations of one process, from a log that holds no token the process can still make, start attempts
      with fresh tokens only. */
  lemma {:induction false} OneProcessIsFresh(worlds: seq<World>, moments: seq<Moment>, pid: nat, low: nat, high: nat)
    requires Run(worlds, moments) && low <= high < |worlds| && AllIssued(worlds[low], pid)
    requires forall i :: low <= i < high ==> moments[i].Operation? && moments[i].pid == pid
    ensures AllIssued(worlds[high], pid)
    ensures forall i, id, aid :: low <= i < high && StartsWith(worlds[i], worlds[i + 1], id, aid, moments[i].now) ==>
              !TokenIn(worlds[i].records, id, aid)
    decreases high
  {
    if high > low {
      OneProcessIsFresh(worlds, moments, pid, low, high - 1);
      RunIsValid(worlds, moments, high - 1);
      var w, m := worlds[high - 1], moments[high - 1];
      assert worlds[high] == Next(w, m);
      StepIsFresh(w, m, pid);
    }
  }

  lemma StepIsFresh(w: World, m: Moment, pid: nat)
    requires AllValid(w.records) && AllIssued(w, pid) && m.Operation? && m.pid == pid
    ensures AllIssued(Next(w, m), pid)
    ensures forall id, aid :: StartsWith(w, Next(w, m), id, aid, m.now) ==> !TokenIn(w.records, id, aid)
  {
    var w' := Next(w, m);
    PerformAppends(w, m.op, m.now, pid, m.disk);
    StepIssues(w, w', pid, m.now);
    forall id, aid | StartsWith(w, w', id, aid, m.now) ensures !TokenIn(w.records, id, aid) {
      StartIsCounted(w, w', pid, id, aid, m.now);
    }
  }

  lemma StartIsCounted(w: World, w': World, pid: nat, id: string, aid: string, now: Time)
    requires AllIssued(w, pid) && StartsWith(w, w', id, aid, now)
    requires Allowed(w, w', pid, Appended(w, w').value, now)
    ensures aid == AttemptIdFor(now, pid, w.nextAttempt) && !TokenIn(w.records, id, aid)
  {
    forall i | 0 <= i < |w.records| && w.records[i].event.AttemptLeased? ensures w.records[i].event.attemptId != aid {
      assert Issued(w, pid, w.records[i].event.attemptId);
      assert aid == Text.AttemptText(now / 1000, pid, w.nextAttempt);
    }
  }

  /** A process is fresh from its start if the log holds no token of its process id. */
  lemma RestartIsFresh(records: seq<StateRecord>, pid: nat)
    requires forall i, micros, sequence: nat :: 0 <= i < |records| && records[i].event.AttemptLeased? ==>
               records[i].event.attemptId != Text.AttemptText(micros, pid, sequence)
    ensures AllIssued(World(records, 1), pid)
  {
  }

  /** The time in microseconds, process id and number a token is made of. */
  datatype Origin = Origin(micros: int, pid: nat, sequence: nat)

  /** In general, whichever processes made the tokens in the log, a start is fresh exactly if none of the
      message's tokens was made of the same time in microseconds, process id and number. */
  lemma FreshIffOriginIsNew(w: World, m: Moment, a: AttemptLease, origins: seq<Origin>)
    requires AllValid(w.records) && m.Operation?
    requires Perform(w, m.op, m.now, m.pid, m.disk).1 == Begun(Started(a))
    requires |origins| == |w.records|
    requires forall i :: 0 <= i < |origins| && w.records[i].event.AttemptLeased? ==>
               w.records[i].event.attemptId == Text.AttemptText(origins[i].micros, origins[i].pid, origins[i].sequence)
    ensures !TokenIn(w.records, a.messageId, a.attemptId)
            <==> forall i :: 0 <= i < |origins| && w.records[i].event.AttemptLeased?
                             && w.records[i].event.messageId == a.messageId ==>
                   origins[i] != Origin(m.now / 1000, m.pid, w.nextAttempt)
  {
    StartAppends(w, m.op, m.now, m.pid, m.disk, a);
    forall i | 0 <= i < |origins| && w.records[i].event.AttemptLeased?
      ensures w.records[i].event.attemptId == a.attemptId <==> origins[i] == Origin(m.now / 1000, m.pid, w.nextAttempt)
    {
      var o := origins[i];
      if w.records[i].event.attemptId == a.attemptId {
        Text.AttemptTextIsInjective(o.micros, o.pid, o.sequence, m.now / 1000, m.pid, w.nextAttempt);
      }
    }
  }

  // ----- processed once -----

  ghost function ProcessedCount(records: seq<StateRecord>, id: string): nat {
    if records == [] then 0
    else
      var last := records[|records| - 1].event;
      ProcessedCount(records[..|records| - 1], id) + if last.ProcessedMessage? && last.messageId == id then 1 else 0
  }

  lemma {:induction false} ProcessedIsCounted(records: seq<StateRecord>, id: string)
    ensures id in History(records).processed <==> ProcessedCount(records, id) > 0
  {
    if records != [] {
      ProcessedIsCounted(records[..|records| - 1], id);
    }
  }

  lemma CountStep(w: World, m: Moment, id: string)
    requires AllValid(w.records) && ProcessedCount(w.records, id) <= 1
    ensures ProcessedCount(Next(w, m).records, id) <= 1
  {
    NextSteps(w, m);
    ProcessedIsCounted(w.records, id);
    var w' := Next(w, m);
    if w'.records != w.records {
      assert w'.records[..|w'.records| - 1] == w.records;
    }
  }

  /** Whatever processes work on a log, one that holds at most one processed record for a message never gets
      a second. */
  lemma {:induction false} ProcessedOnce(worlds: seq<World>, moments: seq<Moment>, id: string, i: nat)
    requires Run(worlds, moments) && i < |worlds| && ProcessedCount(worlds[0].records, id) <= 1
    ensures ProcessedCount(worlds[i].records, id) <= 1
  {
    if i > 0 {
      ProcessedOnce(worlds, moments, id, i - 1);
      RunIsValid(worlds, moments, i - 1);
      assert worlds[i] == Next(worlds[i - 1], moments[i - 1]);
      CountStep(worlds[i - 1], moments[i - 1], id);
    }
  }

  lemma {:induction false} ProcessedStays(worlds: seq<World>, times: seq<Time>, id: string, i: nat, j: nat)
    requires Steps(worlds, times) && i <= j < |worlds|
    requires id in History(worlds[i].records).processed
    ensures id in History(worlds[j].records).processed
    decreases j
  {
    if i < j {
      ProcessedStays(worlds, times, id, i, j - 1);
      StepAt(worlds, times, j - 1);
    }
  }

  /** Once a message is processed, beginning it again only ever answers that it is processed, also after a
      restart. */
  lemma ProcessedIsFinal(worlds: seq<World>, moments: seq<Moment>, id: string, i: nat, j: nat)
    requires Run(worlds, moments) && i <= j < |moments| && moments[j].Operation?
    requires id in History(worlds[i].records).processed
    requires moments[j].op.Begin? && moments[j].op.messageId == id && !Text.Blank(id)
    ensures AnswerAt(worlds, moments, j) == Begun(Processed)
  {
    RunSteps(worlds, moments);
    ProcessedStays(worlds, Times(moments), id, i, j);
    RunIsValid(worlds, moments, j);
    ReplayIsFilteredHistory(worlds[j].records, moments[j].now);
  }

  // ----- a token used twice -----

  /** A restarted process that gets the same process id, and starts an attempt in the same microsecond, makes
      the same token: the first attempt, which had released its message, owns it again. */
  lemma ReusedTokenOwnsAgain(id: string)
    requires !Text.Blank(id)
    ensures var a := AttemptLease(id, AttemptIdFor(0, 1, 1), SECOND);
      var w1 := Next(World([], 1), Operation(Begin(id, SECOND), 0, Written, 1));
      var w2 := Next(w1, Operation(Release(a), 0, Written, 1));
      var w3 := Next(w2, Restart(0));
      var w4 := Next(w3, Operation(Begin(id, SECOND), 0, Written, 1));
      && OwnsAt(w1, id, a.attemptId, 0) && !OwnsAt(w2, id, a.attemptId, 0) && OwnsAt(w4, id, a.attemptId, 0)
  {
    var aid := AttemptIdFor(0, 1, 1);
    var leased := NewRecord(AttemptLeased(id, aid, SECOND));
    var released := NewRecord(AttemptReleased(id, aid, 0));
    Text.AttemptTextNotBlank(0, 1, 1);
    var w1 := Next(World([], 1), Operation(Begin(id, SECOND), 0, Written, 1));
    assert w1 == World([] + [leased], 2);
    ReplayIsFilteredHistory(w1.records, 0);
    assert w1.records[..0] == [];
    var w2 := Next(w1, Operation(Release(AttemptLease(id, aid, SECOND)), 0, Written, 1));
    assert w2 == World(w1.records + [released], 2);
    assert w2.records[..1] == w1.records;
    ReplayIsFilteredHistory(w2.records, 0);
    var w4 := Next(World(w2.records, 1), Operation(Begin(id, SECOND), 0, Written, 1));
    assert w4 == World(w2.records + [leased], 2);
    assert w4.records[..2] == w2.records;
  }
}
