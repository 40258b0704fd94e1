// What the sidecar's forward queue guarantees however its forwards interleave: its limits, an exact
// ledger, no lost wake-up, bounded retries and, once no new forwards arrive, an end.

module ForwardGuarantees {
  import opened Wrappers
  import opened ForwardModel
  import opened Counting

  // ----- counting forwards -----

  predicate IsParked(task: Task) {
    task.Parked?
  }

  predicate IsWoken(task: Task) {
    task.Woken?
  }

  predicate IsRequesting(task: Task) {
    task.Requesting?
  }

  predicate IsResponded(task: Task) {
    task.Responded?
  }

  predicate IsSleeping(task: Task) {
    task.Sleeping?
  }

  predicate IsDelivered(task: Task) {
    task.Finished? && task.outcome.Ok?
  }

  function Live(tasks: seq<Task>): nat {
    Tally(tasks, IsRequesting) + Tally(tasks, IsParked) + Tally(tasks, IsWoken) + Tally(tasks, IsResponded)
    + Tally(tasks, IsSleeping)
  }

  predicate IsLive(task: Task) {
    !task.Finished?
  }

  function OneLive(task: Task): nat {
    if IsLive(task) then 1 else 0
  }

  /** What the change of one forward does to the ledger. */
  lemma OneChange(tasks: seq<Task>, k: nat, task: Task)
    requires k < |tasks|
    ensures Live(tasks[k := task]) == Live(tasks) - OneLive(tasks[k]) + OneLive(task)
    ensures Tally(tasks[k := task], IsRequesting)
            == Tally(tasks, IsRequesting) - One(tasks[k], IsRequesting) + One(task, IsRequesting)
    ensures Tally(tasks[k := task], IsWoken) == Tally(tasks, IsWoken) - One(tasks[k], IsWoken) + One(task, IsWoken)
    ensures Tally(tasks[k := task], IsDelivered)
            == Tally(tasks, IsDelivered) - One(tasks[k], IsDelivered) + One(task, IsDelivered)
  {
    TallyChange(tasks, k, task, IsRequesting);
    TallyChange(tasks, k, task, IsParked);
    TallyChange(tasks, k, task, IsWoken);
    TallyChange(tasks, k, task, IsResponded);
    TallyChange(tasks, k, task, IsSleeping);
    TallyChange(tasks, k, task, IsDelivered);
  }

  // ----- the invariant -----

  /** Every forward that is not finished has its budget reserved, and those requesting hold a slot. */
  ghost predicate Ledger(s: Sidecar) {
    && s.inFlight == Tally(s.tasks, IsRequesting)
    && s.reserved == Live(s.tasks)
    && s.forwardCount == Tally(s.tasks, IsDelivered)
    && s.shownInFlight == s.inFlight && s.shownQueued == s.reserved - s.inFlight
  }

  ghost predicate Bounded(s: Sidecar) {
    s.inFlight <= s.limits.maxInFlight && s.reserved <= s.limits.maxInFlight + s.limits.maxQueued
  }

  /** The queue holds exactly the parked forwards, each once. */
  ghost predicate Queued(waiters: seq<nat>, tasks: seq<Task>) {
    && Distinct(waiters)
    && (forall k: nat :: k in waiters <==> k < |tasks| && tasks[k].Parked?)
  }

  /** While anything is parked, the slots in use and the forwards already woken fill the limit. */
  ghost predicate NoLostWakeUp(s: Sidecar) {
    s.waiters != [] ==> s.inFlight + Tally(s.tasks, IsWoken) >= s.limits.maxInFlight
  }

  predicate AttemptOk(task: Task, retries: nat) {
    match task
    case Sleeping(attempt) => attempt < retries
    case Finished(requests, outcome) =>
      requests <= retries + 1
      && (if outcome.Ok? then requests >= 1
          else if requests == 0 then outcome.error == QueueFull
          else outcome.error != QueueFull && !ShouldRetry(outcome.error, requests - 1, retries))
    case Responded(attempt, response) => attempt <= retries && response != Err(QueueFull)
    case _ => task.attempt <= retries
  }

  ghost predicate AttemptsOk(tasks: seq<Task>, retries: nat) {
    forall k :: 0 <= k < |tasks| ==> AttemptOk(tasks[k], retries)
  }

  ghost predicate Sound(s: Sidecar) {
    Ledger(s) && Bounded(s) && Queued(s.waiters, s.tasks) && NoLostWakeUp(s) && AttemptsOk(s.tasks, s.limits.retries)
  }

  // ----- acquiring -----

  lemma ParkedJoins(waiters: seq<nat>, tasks: seq<Task>, k: nat, attempt: nat)
    requires Queued(waiters, tasks) && k < |tasks| && !tasks[k].Parked?
    ensures Queued(waiters + [k], tasks[k := Parked(attempt)])
  {
  }

  lemma OthersStayQueued(waiters: seq<nat>, tasks: seq<Task>, k: nat, task: Task)
    requires Queued(waiters, tasks) && k < |tasks| && !tasks[k].Parked? && !task.Parked?
    ensures Queued(waiters, tasks[k := task])
  {
  }

  lemma AttemptsChange(tasks: seq<Task>, k: nat, task: Task, retries: nat)
    requires k < |tasks| && AttemptsOk(tasks, retries) && AttemptOk(task, retries)
    ensures AttemptsOk(tasks[k := task], retries)
  {
  }

  /** A pass of the acquire loop by a woken forward. */
  lemma TrySlotKeeps(s: Sidecar, k: nat, attempt: nat)
    requires Sound(s) && k < |s.tasks| && s.tasks[k] == Woken(attempt)
    ensures Sound(TrySlot(s, k, attempt))
  {
    var task := if s.inFlight >= s.limits.maxInFlight then Parked(attempt) else Requesting(attempt);
    assert AttemptOk(s.tasks[k], s.limits.retries);
    OneChange(s.tasks, k, task);
    AttemptsChange(s.tasks, k, task, s.limits.retries);
    if s.inFlight >= s.limits.maxInFlight {
      ParkedJoins(s.waiters, s.tasks, k, attempt);
    } else {
      OthersStayQueued(s.waiters, s.tasks, k, task);
    }
  }

  lemma MoreTallies(tasks: seq<Task>, task: Task)
    ensures Live(tasks + [task]) == Live(tasks) + OneLive(task)
    ensures Tally(tasks + [task], IsRequesting) == Tally(tasks, IsRequesting) + One(task, IsRequesting)
    ensures Tally(tasks + [task], IsWoken) == Tally(tasks, IsWoken) + One(task, IsWoken)
    ensures Tally(tasks + [task], IsDelivered) == Tally(tasks, IsDelivered) + One(task, IsDelivered)
  {
    TallyMore(tasks, task, IsRequesting);
    TallyMore(tasks, task, IsParked);
    TallyMore(tasks, task, IsWoken);
    TallyMore(tasks, task, IsResponded);
    TallyMore(tasks, task, IsSleeping);
    TallyMore(tasks, task, IsDelivered);
  }

  lemma AdmittedKeeps(s: Sidecar)
    requires Sound(s) && s.reserved < s.limits.maxInFlight + s.limits.maxQueued
    ensures Sound(Refreshed(s.(reserved := s.reserved + 1, tasks := s.tasks + [Woken(0)])))
  {
    MoreTallies(s.tasks, Woken(0));
  }

  lemma TurnedAwayKeeps(s: Sidecar)
    requires Sound(s)
    ensures Sound(s.(tasks := s.tasks + [Finished(0, Err(QueueFull))], lastError := Some(QueueFull)))
  {
    MoreTallies(s.tasks, Finished(0, Err(QueueFull)));
  }

  lemma ForwardKeeps(s: Sidecar)
    requires Sound(s)
    ensures Sound(Take(s, Forward))
  {
    if s.reserved >= s.limits.maxInFlight + s.limits.maxQueued {
      TurnedAwayKeeps(s);
    } else {
      AdmittedKeeps(s);
      TrySlotKeeps(Refreshed(s.(reserved := s.reserved + 1, tasks := s.tasks + [Woken(0)])), |s.tasks|, 0);
    }
  }

  /** Waking from sleep is like being woken for the next attempt. */
  lemma AwakeKeeps(s: Sidecar, k: nat)
    requires Sound(s) && k < |s.tasks| && s.tasks[k].Sleeping?
    ensures Sound(Becomes(s, k, Woken(s.tasks[k].attempt + 1)))
  {
    var task := Woken(s.tasks[k].attempt + 1);
    assert AttemptOk(s.tasks[k], s.limits.retries);
    OneChange(s.tasks, k, task);
    AttemptsChange(s.tasks, k, task, s.limits.retries);
    OthersStayQueued(s.waiters, s.tasks, k, task);
  }

  lemma TrySlotForgets(s: Sidecar, k: nat, task: Task, attempt: nat)
    requires k < |s.tasks|
    ensures TrySlot(Becomes(s, k, task), k, attempt) == TrySlot(s, k, attempt)
  {
  }

  lemma EndSleepKeeps(s: Sidecar, k: nat)
    requires Sound(s) && Enabled(s, EndSleep(k))
    ensures Sound(Take(s, EndSleep(k)))
  {
    var attempt := s.tasks[k].attempt + 1;
    AwakeKeeps(s, k);
    TrySlotKeeps(Becomes(s, k, Woken(attempt)), k, attempt);
    TrySlotForgets(s, k, Woken(attempt), attempt);
  }

  // ----- releasing -----

  lemma FirstLeaves(waiters: seq<nat>, tasks: seq<Task>)
    requires Queued(waiters, tasks) && waiters != []
    ensures waiters[0] < |tasks| && tasks[waiters[0]].Parked?
    ensures Queued(waiters[1..], tasks[waiters[0] := Woken(tasks[waiters[0]].attempt)])
  {
    var w, rest := waiters[0], waiters[1..];
    assert w in waiters;
    assert waiters == [w] + rest;
    forall k: nat ensures k in rest <==> k in waiters && k != w { }
  }

  lemma RespondKeeps(s: Sidecar, k: nat, response: Response)
    requires Sound(s) && Enabled(s, Respond(k, response))
    ensures Sound(Take(s, Respond(k, response)))
  {
    var responded := Responded(s.tasks[k].attempt, response);
    var tasks := s.tasks[k := responded];
    assert AttemptOk(s.tasks[k], s.limits.retries);
    OneChange(s.tasks, k, responded);
    AttemptsChange(s.tasks, k, responded, s.limits.retries);
    OthersStayQueued(s.waiters, s.tasks, k, responded);
    if s.waiters != [] {
      FirstLeaves(s.waiters, tasks);
      var w := s.waiters[0];
      var woken := Woken(tasks[w].attempt);
      assert AttemptOk(tasks[w], s.limits.retries);
      OneChange(tasks, w, woken);
      AttemptsChange(tasks, w, woken, s.limits.retries);
    }
  }

  lemma SettledOk(attempt: nat, response: Response, retries: nat)
    requires attempt <= retries && response != Err(QueueFull)
    ensures response.Err? && ShouldRetry(response.error, attempt, retries) ==> AttemptOk(Sleeping(attempt), retries)
    ensures !(response.Err? && ShouldRetry(response.error, attempt, retries)) ==>
              AttemptOk(Finished(attempt + 1, response), retries)
  {
  }

  lemma SettleKeeps(s: Sidecar, k: nat)
    requires Sound(s) && Enabled(s, Settle(k))
    ensures Sound(Take(s, Settle(k)))
  {
    var task := Take(s, Settle(k)).tasks[k];
    assert AttemptOk(s.tasks[k], s.limits.retries);
    SettledOk(s.tasks[k].attempt, s.tasks[k].response, s.limits.retries);
    OneChange(s.tasks, k, task);
    AttemptsChange(s.tasks, k, task, s.limits.retries);
    OthersStayQueued(s.waiters, s.tasks, k, task);
  }

  /** Every step of every forward keeps the invariant. */
  lemma StepKeepsSound(s: Sidecar, step: Step)
    requires Sound(s) && Enabled(s, step)
    ensures Sound(Take(s, step)) && Take(s, step).limits == s.limits
  {
    match step {
      case Forward => ForwardKeeps(s);
      case Resume(k) => TrySlotKeeps(s, k, s.tasks[k].attempt);
      case Respond(k, response) => RespondKeeps(s, k, response);
      case Settle(k) => SettleKeeps(s, k);
      case EndSleep(k) => EndSleepKeeps(s, k);
    }
  }

  // ----- runs -----

  ghost predicate Run(states: seq<Sidecar>, steps: seq<Step>) {
    && |states| == |steps| + 1 && states[0] == Initial(states[0].limits)
    && forall i {:trigger steps[i]} :: 0 <= i < |steps| ==>
         Enabled(states[i], steps[i]) && states[i + 1] == Take(states[i], steps[i])
  }

  lemma {:induction false} RunsAreSound(states: seq<Sidecar>, steps: seq<Step>, n: nat)
    requires Run(states, steps) && n < |states|
    ensures Sound(states[n]) && states[n].limits == states[0].limits
  {
    if n > 0 {
      RunsAreSound(states, steps, n - 1);
      assert Enabled(states[n - 1], steps[n - 1]);
      StepKeepsSound(states[n - 1], steps[n - 1]);
    }
  }

  /** The limits hold in every reachable state, and what is reserved is exactly what is in flight,
      parked, woken, between steps or asleep. */
  lemma LimitsAndLedger(states: seq<Sidecar>, steps: seq<Step>, n: nat)
    requires Run(states, steps) && n < |states|
    ensures var s := states[n];
      && 0 <= s.inFlight <= states[0].limits.maxInFlight
      && s.inFlight <= s.reserved <= states[0].limits.maxInFlight + states[0].limits.maxQueued
      && s.inFlight == Tally(s.tasks, IsRequesting)
      && s.reserved == s.inFlight + Tally(s.tasks, IsParked) + Tally(s.tasks, IsWoken)
                       + Tally(s.tasks, IsResponded) + Tally(s.tasks, IsSleeping)
      && s.shownInFlight == s.inFlight && s.shownQueued == s.reserved - s.inFlight
      && s.forwardCount == Tally(s.tasks, IsDelivered)
  {
    RunsAreSound(states, steps, n);
  }

  /** No wake-up is lost, although newcomers can overtake woken forwards. */
  lemma WakeUpsAreNotLost(states: seq<Sidecar>, steps: seq<Step>, n: nat, k: nat)
    requires Run(states, steps) && n < |states| && k < |states[n].tasks| && states[n].tasks[k].Parked?
    ensures states[n].inFlight + Tally(states[n].tasks, IsWoken) >= states[0].limits.maxInFlight
    ensures k in states[n].waiters
  {
    RunsAreSound(states, steps, n);
    assert k in states[n].waiters;
  }

  /** Errors after which the same event may be sent again: no answer at all, or a status that asks for it. */
  predicate AsksAgain(error: ForwardError) {
    error.OtherError? || (error.Http? && (error.statusCode in {408, 429} || error.statusCode >= 500))
  }

  /** A forward makes at most one request more than it may retry, and one that failed made them all,
      met an error that is not retried, or was turned away at once. */
  lemma RetriesAreBounded(states: seq<Sidecar>, steps: seq<Step>, n: nat, k: nat)
    requires Run(states, steps) && n < |states| && k < |states[n].tasks| && states[n].tasks[k].Finished?
    ensures var task, retries := states[n].tasks[k], states[0].limits.retries;
      && task.requests <= retries + 1
      && (task.outcome.Ok? ==> task.requests >= 1)
      && (task.outcome.Err? ==> task.requests == retries + 1 || !AsksAgain(task.outcome.error))
      && (task.requests == 0 ==> task.outcome == Err(QueueFull))
  {
    RunsAreSound(states, steps, n);
    assert AttemptOk(states[n].tasks[k], states[n].limits.retries);
  }

  // ----- requests made -----

  /** The responses a forward has had by step `n`. */
  function Responses(steps: seq<Step>, k: nat, n: nat): nat
    requires n <= |steps|
  {
    if n == 0 then 0
    else Responses(steps, k, n - 1) + if steps[n - 1].Respond? && steps[n - 1].k == k then 1 else 0
  }

  function RequestsDone(task: Task): nat {
    match task
    case Responded(attempt, _) => attempt + 1
    case Sleeping(attempt) => attempt + 1
    case Finished(requests, _) => requests
    case _ => task.attempt
  }

  function RequestsOf(tasks: seq<Task>, k: nat): nat {
    if k < |tasks| then RequestsDone(tasks[k]) else 0
  }

  lemma StepCountsRequests(s: Sidecar, step: Step, k: nat)
    requires Sound(s) && Enabled(s, step)
    ensures RequestsOf(Take(s, step).tasks, k)
            == RequestsOf(s.tasks, k) + if step.Respond? && step.k == k then 1 else 0
  {
    if step.Respond? && s.waiters != [] {
      assert s.waiters[0] in s.waiters;
    }
  }

  /** A forward's own count of requests is the number of responses it really had. */
  lemma {:induction false} RequestsAreCounted(states: seq<Sidecar>, steps: seq<Step>, n: nat, k: nat)
    requires Run(states, steps) && n < |states|
    ensures Responses(steps, k, n) == RequestsOf(states[n].tasks, k)
  {
    if n > 0 {
      RequestsAreCounted(states, steps, n - 1, k);
      RunsAreSound(states, steps, n - 1);
      assert Enabled(states[n - 1], steps[n - 1]);
      StepCountsRequests(states[n - 1], steps[n - 1], k);
    }
  }

  // ----- which forwards are sent again -----

  /** A forward goes to sleep after a response exactly if that is such an error and requests are left. */
  lemma SleepsIff(states: seq<Sidecar>, steps: seq<Step>, n: nat)
    requires Run(states, steps) && n < |steps| && steps[n].Settle?
    ensures var k := steps[n].k;
      && k < |states[n].tasks| == |states[n + 1].tasks| && states[n].tasks[k].Responded?
      && var Responded(attempt, response) := states[n].tasks[k];
         && (states[n + 1].tasks[k] == Sleeping(attempt)
             <==> response.Err? && AsksAgain(response.error) && attempt < states[0].limits.retries)
         && (states[n + 1].tasks[k] == Finished(attempt + 1, response)
             <==> response.Err? ==> !AsksAgain(response.error) || attempt >= states[0].limits.retries)
  {
    RunsAreSound(states, steps, n);
    assert Enabled(states[n], steps[n]);
  }

  /** Forward `k` has had this response and ends with it. */
  predicate EndsWith(tasks: seq<Task>, k: nat, response: Response) {
    && k < |tasks|
    && (|| (tasks[k].Responded? && tasks[k].response == response)
        || (tasks[k].Finished? && tasks[k].requests > 0 && tasks[k].outcome == response))
  }

  predicate IsFinal(response: Response) {
    response.Ok? || !AsksAgain(response.error)
  }

  lemma StaysEnded(s: Sidecar, step: Step, k: nat, response: Response)
    requires Sound(s) && Enabled(s, step) && EndsWith(s.tasks, k, response) && IsFinal(response)
    ensures EndsWith(Take(s, step).tasks, k, response) && !(step.Respond? && step.k == k)
  {
    if step.Respond? && s.waiters != [] {
      assert s.waiters[0] in s.waiters;
    }
  }

  lemma RespondedTo(s: Sidecar, k: nat, response: Response)
    requires Sound(s) && Enabled(s, Respond(k, response))
    ensures EndsWith(Take(s, Respond(k, response)).tasks, k, response)
  {
    if s.waiters != [] {
      assert s.waiters[0] in s.waiters;
    }
  }

  lemma SoundStep(states: seq<Sidecar>, steps: seq<Step>, n: nat)
    requires Run(states, steps) && n < |steps|
    ensures Sound(states[n]) && Enabled(states[n], steps[n]) && states[n + 1] == Take(states[n], steps[n])
  {
    RunsAreSound(states, steps, n);
  }

  lemma {:induction false} EndedSince(states: seq<Sidecar>, steps: seq<Step>, i: nat, n: nat)
    requires Run(states, steps) && i < n < |states| && steps[i].Respond? && IsFinal(steps[i].response)
    ensures EndsWith(states[n].tasks, steps[i].k, steps[i].response)
  {
    SoundStep(states, steps, n - 1);
    var k, response := steps[i].k, steps[i].response;
    if n == i + 1 {
      RespondedTo(states[i], k, response);
    } else {
      EndedSince(states, steps, i, n - 1);
      StaysEnded(states[n - 1], steps[n - 1], k, response);
    }
  }

  /** No event is sent again after it was accepted, or after an error that does not ask for it: every response
      a forward had before another one is an error that asks for another try. */
  lemma SentAgainOnlyIfAsked(states: seq<Sidecar>, steps: seq<Step>, i: nat, j: nat)
    requires Run(states, steps) && i < j < |steps|
    requires steps[i].Respond? && steps[j].Respond? && steps[i].k == steps[j].k
    ensures steps[i].response.Err? && AsksAgain(steps[i].response.error)
  {
    assert Enabled(states[j], steps[j]);
    if IsFinal(steps[i].response) {
      EndedSince(states, steps, i, j);
    }
  }

  /** A forward that failed with fewer requests than it may make was turned away or met an error that does not
      ask for another try. */
  lemma GivesUpEarlyOnlyIf(states: seq<Sidecar>, steps: seq<Step>, n: nat, k: nat)
    requires Run(states, steps) && n < |states| && k < |states[n].tasks| && states[n].tasks[k].Finished?
    requires states[n].tasks[k].outcome.Err? && states[n].tasks[k].requests <= states[0].limits.retries
    ensures var task := states[n].tasks[k];
      || (task.requests == 0 && task.outcome == Err(QueueFull))
      || (task.requests > 0 && task.outcome.error.Http? && task.outcome.error.statusCode !in {408, 429}
          && task.outcome.error.statusCode < 500)
  {
    RetriesAreBounded(states, steps, n, k);
    RunsAreSound(states, steps, n);
    assert AttemptOk(states[n].tasks[k], states[n].limits.retries);
  }

  /** A new forward is turned away exactly if as many are unfinished as the two limits allow together. */
  lemma TurnedAwayIff(states: seq<Sidecar>, steps: seq<Step>, n: nat)
    requires Run(states, steps) && n < |steps| && steps[n].Forward?
    ensures var k, limits := |states[n].tasks|, states[0].limits;
      && |states[n + 1].tasks| == k + 1
      && (states[n + 1].tasks[k].Finished? <==> Live(states[n].tasks) == limits.maxInFlight + limits.maxQueued)
      && (states[n + 1].tasks[k].Finished? ==> states[n + 1].tasks[k] == Finished(0, Err(QueueFull)))
      && (Live(states[n].tasks) < limits.maxInFlight ==>
            states[n + 1].tasks[k].Requesting? || states[n].inFlight == limits.maxInFlight)
  {
    RunsAreSound(states, steps, n);
    assert Enabled(states[n], steps[n]);
  }

  ghost predicate JustFinished(s: Sidecar, s': Sidecar, k: nat) {
    k < |s'.tasks| && s'.tasks[k].Finished? && (k >= |s.tasks| || !s.tasks[k].Finished?)
  }

  /** The shown error is that of the forward that finished last: none if that one was delivered. */
  lemma LastErrorIsShown(s: Sidecar, step: Step)
    requires Sound(s) && Enabled(s, step)
    ensures var s' := Take(s, step);
      && (forall k: nat :: JustFinished(s, s', k) ==>
            s'.lastError == if s'.tasks[k].outcome.Ok? then None else Some(s'.tasks[k].outcome.error))
      && (s'.lastError != s.lastError ==> exists k: nat :: JustFinished(s, s', k))
  {
    var s' := Take(s, step);
    match step {
      case Forward => assert s'.lastError == s.lastError || JustFinished(s, s', |s.tasks|);
      case Respond(_, _) => if s.waiters != [] { assert s.waiters[0] in s.waiters; }
      case Settle(k) => assert s'.lastError == s.lastError || JustFinished(s, s', k);
      case _ =>
    }
  }

  // ----- draining -----

  /** How many more steps a forward can take part in. */
  function Weight(task: Task, retries: nat): nat {
    match task
    case Finished(_, _) => 0
    case Sleeping(attempt) => 1 + Later(attempt, retries)
    case Responded(attempt, _) => 2 + Later(attempt, retries)
    case Requesting(attempt) => 4 + Later(attempt, retries)
    case Parked(attempt) => 5 + Later(attempt, retries)
    case Woken(attempt) => 6 + Later(attempt, retries)
  }

  function Later(attempt: nat, retries: nat): nat {
    if attempt < retries then 5 * (retries - attempt) else 0
  }

  function Weights(retries: nat): Task -> nat {
    (task: Task) => Weight(task, retries)
  }

  function Remaining(s: Sidecar): nat {
    Sum(s.tasks, Weights(s.limits.retries))
  }

  lemma TrySlotDrains(s: Sidecar, k: nat, attempt: nat)
    requires Sound(s) && k < |s.tasks|
    requires s.tasks[k] == Woken(attempt) || (s.tasks[k].Sleeping? && attempt == s.tasks[k].attempt + 1)
    ensures Remaining(TrySlot(s, k, attempt)) < Remaining(s)
  {
    assert AttemptOk(s.tasks[k], s.limits.retries);
    SumChange(s.tasks, k, TrySlot(s, k, attempt).tasks[k], Weights(s.limits.retries));
  }

  lemma RespondDrains(s: Sidecar, k: nat, response: Response)
    requires Sound(s) && Enabled(s, Respond(k, response))
    ensures Remaining(Take(s, Respond(k, response))) < Remaining(s)
  {
    var retries := s.limits.retries;
    var responded := Responded(s.tasks[k].attempt, response);
    var tasks := s.tasks[k := responded];
    SumChange(s.tasks, k, responded, Weights(retries));
    if s.waiters != [] {
      var w := s.waiters[0];
      assert w in s.waiters;
      SumChange(tasks, w, Woke(tasks[w]), Weights(retries));
    }
  }

  /** Every step but the arrival of a new forward uses up some of a bounded amount of work. */
  lemma StepDrains(s: Sidecar, step: Step)
    requires Sound(s) && Enabled(s, step) && !step.Forward?
    ensures Remaining(Take(s, step)) < Remaining(s)
  {
    match step {
      case Resume(k) => TrySlotDrains(s, k, s.tasks[k].attempt);
      case Respond(k, response) => RespondDrains(s, k, response);
      case Settle(k) =>
        assert AttemptOk(s.tasks[k], s.limits.retries);
        SumChange(s.tasks, k, Take(s, step).tasks[k], Weights(s.limits.retries));
      case EndSleep(k) => TrySlotDrains(s, k, s.tasks[k].attempt + 1);
    }
  }

  /** With no new forwards, a run is no longer than the work left where it starts. */
  lemma {:induction false} DrainIsBounded(states: seq<Sidecar>, steps: seq<Step>)
    requires |states| == |steps| + 1 && Sound(states[0])
    requires forall i {:trigger steps[i]} :: 0 <= i < |steps| ==>
               !steps[i].Forward? && Enabled(states[i], steps[i]) && states[i + 1] == Take(states[i], steps[i])
    ensures |steps| <= Remaining(states[0])
    ensures Sound(states[|steps|])
  {
    if steps != [] {
      assert Enabled(states[0], steps[0]);
      StepKeepsSound(states[0], steps[0]);
      StepDrains(states[0], steps[0]);
      forall i | 0 <= i < |steps[1..]|
        ensures !steps[1..][i].Forward? && Enabled(states[1..][i], steps[1..][i])
                && states[1..][i + 1] == Take(states[1..][i], steps[1..][i])
      {
        assert steps[1..][i] == steps[i + 1];
        assert !steps[i + 1].Forward?;
      }
      DrainIsBounded(states[1..], steps[1..]);
    }
  }

  lemma SomeOfKind(tasks: seq<Task>, kind: Task -> bool) returns (k: nat)
    requires Tally(tasks, kind) > 0
    ensures k < |tasks| && kind(tasks[k])
  {
    NoneOfKind(tasks, kind);
    var task :| task in tasks && kind(task);
    k :| 0 <= k < |tasks| && tasks[k] == task;
  }

  /** There is no deadlock: while any forward is unfinished, one of the unfinished ones can move. */
  lemma UnfinishedMeansProgress(s: Sidecar, k: nat) returns (step: Step)
    requires Sound(s) && s.limits.maxInFlight > 0 && k < |s.tasks| && !s.tasks[k].Finished?
    ensures Enabled(s, step) && !step.Forward?
  {
    var j := k;
    if s.tasks[k].Parked? {
      assert k in s.waiters;
      if s.inFlight > 0 {
        j := SomeOfKind(s.tasks, IsRequesting);
      } else {
        j := SomeOfKind(s.tasks, IsWoken);
      }
    }
    match s.tasks[j] {
      case Woken(_) => step := Resume(j);
      case Requesting(_) => step := Respond(j, Ok(()));
      case Responded(_, _) => step := Settle(j);
      case Sleeping(_) => step := EndSleep(j);
    }
  }

  /** When no forward can move, all are finished and every slot and reservation is back. */
  lemma StuckMeansDrained(s: Sidecar)
    requires Sound(s) && s.limits.maxInFlight > 0
    requires forall step :: Enabled(s, step) ==> step.Forward?
    ensures forall k :: 0 <= k < |s.tasks| ==> s.tasks[k].Finished?
    ensures s.reserved == 0 && s.inFlight == 0 && s.waiters == [] && s.shownInFlight == 0 && s.shownQueued == 0
  {
    forall k | 0 <= k < |s.tasks| ensures s.tasks[k].Finished? {
      if !s.tasks[k].Finished? {
        var step := UnfinishedMeansProgress(s, k);
        assert false;
      }
    }
    NoneOfKind(s.tasks, IsRequesting);
    NoneOfKind(s.tasks, IsParked);
    NoneOfKind(s.tasks, IsWoken);
    NoneOfKind(s.tasks, IsResponded);
    NoneOfKind(s.tasks, IsSleeping);
    NoneParkedNoneQueued(s.waiters, s.tasks);
  }

  lemma NoneParkedNoneQueued(waiters: seq<nat>, tasks: seq<Task>)
    requires Queued(waiters, tasks) && forall k :: 0 <= k < |tasks| ==> !tasks[k].Parked?
    ensures waiters == []
  {
    if waiters != [] {
      FirstLeaves(waiters, tasks);
    }
  }

  // ----- fairness -----

  /** The step takes a slot. */
  predicate TakesSlot(s: Sidecar, step: Step) {
    && s.inFlight < s.limits.maxInFlight
    && match step
       case Forward => s.reserved < s.limits.maxInFlight + s.limits.maxQueued
       case Resume(_) => true
       case EndSleep(_) => true
       case _ => false
  }

  function Delta(s: Sidecar, step: Step): int {
    if TakesSlot(s, step) then 1 else if step.Respond? then -1 else 0
  }

  lemma SlotsMove(s: Sidecar, step: Step)
    requires Enabled(s, step)
    ensures Take(s, step).inFlight == s.inFlight + Delta(s, step)
  {
  }

  /** Slots taken in the steps from `low` on, before `high`. */
  ghost function Taken(states: seq<Sidecar>, steps: seq<Step>, low: nat, high: nat): nat
    requires low <= high <= |steps| < |states|
  {
    if high == low then 0
    else Taken(states, steps, low, high - 1) + if TakesSlot(states[high - 1], steps[high - 1]) then 1 else 0
  }

  ghost function Freed(steps: seq<Step>, low: nat, high: nat): nat
    requires low <= high <= |steps|
  {
    if high == low then 0 else Freed(steps, low, high - 1) + if steps[high - 1].Respond? then 1 else 0
  }

  lemma {:induction false} InFlightIsTakenLessFreed(states: seq<Sidecar>, steps: seq<Step>, low: nat, high: nat)
    requires Run(states, steps) && low <= high <= |steps|
    ensures states[high].inFlight == states[low].inFlight + Taken(states, steps, low, high) - Freed(steps, low, high)
  {
    if high > low {
      InFlightIsTakenLessFreed(states, steps, low, high - 1);
      assert Enabled(states[high - 1], steps[high - 1]);
      SlotsMove(states[high - 1], steps[high - 1]);
    }
  }

  /** A forward woken by step `i` gets a slot when it resumes in step `n` exactly if the slots taken in
      between, less those given back, leave one of the slots that were free when it was woken; otherwise it
      parks again.  In particular it gets one if none was taken in between. */
  lemma WokenGetsSlotIff(states: seq<Sidecar>, steps: seq<Step>, i: nat, n: nat, k: nat)
    requires Run(states, steps) && i < n < |steps| && steps[n] == Resume(k)
    requires steps[i].Respond? && states[i].waiters != [] && states[i].waiters[0] == k
    ensures k < |states[n + 1].tasks|
    ensures states[i + 1].inFlight < states[0].limits.maxInFlight
    ensures states[n + 1].tasks[k].Requesting?
            <==> Taken(states, steps, i + 1, n) - Freed(steps, i + 1, n)
                 < states[0].limits.maxInFlight - states[i + 1].inFlight
    ensures !states[n + 1].tasks[k].Requesting? ==> states[n + 1].tasks[k].Parked?
    ensures Taken(states, steps, i + 1, n) == 0 ==> states[n + 1].tasks[k].Requesting?
  {
    RunsAreSound(states, steps, i);
    RunsAreSound(states, steps, n);
    assert Enabled(states[i], steps[i]) && Enabled(states[n], steps[n]);
    SlotsMove(states[i], steps[i]);
    InFlightIsTakenLessFreed(states, steps, i + 1, n);
  }

  /** A new forward, or one that ends its sleep, takes a slot that a woken forward was woken for: those
      free are no more than those woken. */
  ghost predicate Overtakes(s: Sidecar, step: Step) {
    (step.Forward? || step.EndSleep?) && TakesSlot(s, step)
    && s.inFlight + Tally(s.tasks, IsWoken) >= s.limits.maxInFlight
  }

  /** There is a free slot for every woken forward. */
  ghost predicate SlotForEach(s: Sidecar) {
    s.inFlight + Tally(s.tasks, IsWoken) <= s.limits.maxInFlight
  }

  lemma WokenMoves(s: Sidecar, step: Step)
    requires Sound(s) && Enabled(s, step)
    ensures Tally(Take(s, step).tasks, IsWoken)
            == Tally(s.tasks, IsWoken) - (if step.Resume? then 1 else 0)
               + (if step.Respond? && s.waiters != [] then 1 else 0)
  {
    match step {
      case Forward =>
        MoreTallies(s.tasks, Finished(0, Err(QueueFull)));
        MoreTallies(s.tasks, Woken(0));
        TallyChange(s.tasks + [Woken(0)], |s.tasks|, Take(s, step).tasks[|s.tasks|], IsWoken);
      case Respond(k, response) =>
        var tasks := s.tasks[k := Responded(s.tasks[k].attempt, response)];
        TallyChange(s.tasks, k, Responded(s.tasks[k].attempt, response), IsWoken);
        if s.waiters != [] {
          var w := s.waiters[0];
          assert w in s.waiters;
          TallyChange(tasks, w, Woke(tasks[w]), IsWoken);
        }
      case _ => TallyChange(s.tasks, step.k, Take(s, step).tasks[step.k], IsWoken);
    }
  }

  lemma SlotForEachStep(s: Sidecar, step: Step)
    requires Sound(s) && Enabled(s, step) && SlotForEach(s)
    ensures SlotForEach(Take(s, step)) <==> !Overtakes(s, step)
  {
    SlotsMove(s, step);
    WokenMoves(s, step);
  }

  lemma StartsFair(limits: Limits)
    ensures SlotForEach(Initial(limits))
  {
    NoneOfKind<Task>([], IsWoken);
  }

  /** Over any stretch of a run that starts with a slot for every woken forward, as every run does, there
      stays one exactly if nothing overtakes. */
  lemma {:induction false} FairIffNothingOvertakes(states: seq<Sidecar>, steps: seq<Step>, low: nat, high: nat)
    requires Run(states, steps) && low <= high < |states| && SlotForEach(states[low])
    ensures (forall m {:trigger states[m]} :: low <= m <= high ==> SlotForEach(states[m]))
            <==> (forall m {:trigger steps[m]} :: low <= m < high ==> !Overtakes(states[m], steps[m]))
    decreases high
  {
    if high > low {
      FairIffNothingOvertakes(states, steps, low, high - 1);
      RunsAreSound(states, steps, high - 1);
      var s, step := states[high - 1], steps[high - 1];
      assert Enabled(s, step);
      if SlotForEach(s) {
        SlotForEachStep(s, step);
      }
    }
  }

  /** Over a whole run: there has always been a slot for every woken forward exactly if nothing overtook. */
  lemma RunIsFairIff(states: seq<Sidecar>, steps: seq<Step>, n: nat)
    requires Run(states, steps) && n < |states|
    ensures (forall m {:trigger states[m]} :: 0 <= m <= n ==> SlotForEach(states[m]))
            <==> (forall m {:trigger steps[m]} :: 0 <= m < n ==> !Overtakes(states[m], steps[m]))
  {
    StartsFair(states[0].limits);
    FairIffNothingOvertakes(states, steps, 0, n);
  }

  lemma ResumesIntoSlot(s: Sidecar, k: nat)
    requires Sound(s) && Enabled(s, Resume(k))
    ensures SlotForEach(s) ==> Take(s, Resume(k)).tasks[k].Requesting?
  {
    NoneOfKind(s.tasks, IsWoken);
    assert s.tasks[k] in s.tasks;
  }

  /** So a forward that was woken when there was a slot for each, and parks again when it resumes, was
      overtaken in between. */
  lemma ParksOnlyIfOvertaken(states: seq<Sidecar>, steps: seq<Step>, i: nat, n: nat, k: nat)
    requires Run(states, steps) && i <= n < |steps| && SlotForEach(states[i])
    requires steps[n] == Resume(k) && k < |states[n + 1].tasks| && states[n + 1].tasks[k].Parked?
    ensures exists m :: i <= m < n && Overtakes(states[m], steps[m])
  {
    FairIffNothingOvertakes(states, steps, i, n);
    RunsAreSound(states, steps, n);
    assert Enabled(states[n], steps[n]);
    ResumesIntoSlot(states[n], k);
    assert !SlotForEach(states[n]);
  }

  /** Resumes forwards one after the other. */
  ghost function ResumeAll(s: Sidecar, ks: seq<nat>): Sidecar
    decreases |ks|
  {
    if ks == [] || !Enabled(s, Resume(ks[0])) then s else ResumeAll(Take(s, Resume(ks[0])), ks[1..])
  }

  ghost predicate ListsWoken(ks: seq<nat>, tasks: seq<Task>) {
    Distinct(ks) && forall k: nat :: k in ks <==> k < |tasks| && tasks[k].Woken?
  }

  lemma ResumeFirst(s: Sidecar, ks: seq<nat>)
    requires Sound(s) && ks != [] && ListsWoken(ks, s.tasks)
    ensures Enabled(s, Resume(ks[0])) && ListsWoken(ks[1..], Take(s, Resume(ks[0])).tasks)
    ensures forall k :: 0 <= k < |s.tasks| && k != ks[0] ==> Take(s, Resume(ks[0])).tasks[k] == s.tasks[k]
  {
    assert ks[0] in ks;
    assert ks == [ks[0]] + ks[1..];
    forall k: nat ensures k in ks[1..] <==> k in ks && k != ks[0] { }
  }

  lemma {:induction false} OthersUnchanged(s: Sidecar, ks: seq<nat>, k: nat)
    requires Sound(s) && ListsWoken(ks, s.tasks) && k < |s.tasks| && k !in ks
    ensures k < |ResumeAll(s, ks).tasks| && ResumeAll(s, ks).tasks[k] == s.tasks[k]
    decreases |ks|
  {
    if ks != [] {
      ResumeFirst(s, ks);
      StepKeepsSound(s, Resume(ks[0]));
      assert k !in ks[1..];
      assert ks[0] in ks;
      OthersUnchanged(Take(s, Resume(ks[0])), ks[1..], k);
    }
  }

  /** That there is a slot for each means what it says: all woken forwards, resuming in whatever order with
      nothing in between, get one. */
  lemma {:induction false} SlotForEachMeans(s: Sidecar, ks: seq<nat>)
    requires Sound(s) && ListsWoken(ks, s.tasks)
    ensures |ks| == Tally(s.tasks, IsWoken)
    ensures SlotForEach(s)
            <==> forall k :: k in ks ==> k < |ResumeAll(s, ks).tasks| && ResumeAll(s, ks).tasks[k].Requesting?
    decreases |ks|
  {
    if ks == [] {
      NoneOfKind(s.tasks, IsWoken);
    } else {
      ResumeFirst(s, ks);
      var k0, s' := ks[0], Take(s, Resume(ks[0]));
      StepKeepsSound(s, Resume(k0));
      SlotsMove(s, Resume(k0));
      WokenMoves(s, Resume(k0));
      SlotForEachMeans(s', ks[1..]);
      assert k0 !in ks[1..];
      OthersUnchanged(s', ks[1..], k0);
      assert ks == [k0] + ks[1..];
    }
  }

  /** The queue is not fair: a newcomer can take the slot a woken forward was woken for, which then
      parks again behind it. */
  lemma NewcomerOvertakes(limits: Limits, response: Response)
    requires limits.maxInFlight == 1 && limits.maxQueued >= 2 && response != Err(QueueFull)
    ensures var s2 := Take(Take(Initial(limits), Forward), Forward);
      && s2.tasks == [Requesting(0), Parked(0)]
      && var s3 := Take(s2, Respond(0, response));
         && s3.tasks == [Responded(0, response), Woken(0)]
         && var s5 := Take(Take(s3, Forward), Resume(1));
            s5.tasks == [Responded(0, response), Parked(0), Requesting(0)]
  {
  }

  /** Whether a newcomer takes a slot between a forward's wake-up and its resumption decides nothing alone:
      the newcomer may have given it back ... */
  lemma NewcomerGivesBack(limits: Limits, response: Response)
    requires limits.maxInFlight == 1 && limits.maxQueued >= 2 && response != Err(QueueFull)
    ensures var two := Take(Take(Initial(limits), Forward), Forward);
      && two.tasks == [Requesting(0), Parked(0)]
      && var woken := Take(two, Respond(0, response));
         && woken.tasks == [Responded(0, response), Woken(0)]
         && var back := Take(Take(woken, Forward), Respond(2, response));
            && back.tasks == [Responded(0, response), Woken(0), Responded(0, response)]
            && Take(back, Resume(1)).tasks[1] == Requesting(0)
  {
  }

  /** ... and the slot an earlier newcomer took may be missing still. */
  lemma EarlierNewcomerIsMissed(limits: Limits, response: Response, s: Sidecar)
    requires limits.maxInFlight == 1 && limits.maxQueued >= 3 && response != Err(QueueFull)
    requires s == Take(Take(Take(Initial(limits), Forward), Forward), Forward)
    ensures s.tasks == [Requesting(0), Parked(0), Parked(0)]
    ensures var taken := Take(Take(s, Respond(0, response)), Forward);
      && taken.tasks == [Responded(0, response), Woken(0), Parked(0), Requesting(0)]
      && var woken := Take(taken, Respond(3, response));
         && woken.tasks == [Responded(0, response), Woken(0), Woken(0), Responded(0, response)]
         && Take(Take(woken, Resume(1)), Resume(2)).tasks[2] == Parked(0)
  {
    var one := Take(Initial(limits), Forward);
    assert one.tasks == [Requesting(0)];
    assert s.waiters == [1, 2] && s.reserved == 3 && s.inFlight == 1;
  }
}
