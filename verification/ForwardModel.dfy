// The sidecar's forwards as a state machine (`forward`, `acquireForwardSlot`, `releaseForwardSlot` and
// the forward budget in examples/sidecar-js/index.mjs). A step is the code that runs between two
// awaits of one forward; suspended forwards are listed with what they wait for.

module ForwardModel {
  import opened Wrappers

  datatype ForwardError = QueueFull | Http(statusCode: nat) | OtherError

  type Response = Result<(), ForwardError>

  /** What a forward waits for; `attempt` counts from zero. */
  datatype Task =
    | Parked(attempt: nat)
    | Woken(attempt: nat)
    | Requesting(attempt: nat)
    | Responded(attempt: nat, response: Response)
    | Sleeping(attempt: nat)
    | Finished(requests: nat, outcome: Response)

  datatype Limits = Limits(maxInFlight: nat, maxQueued: nat, retries: nat)

  datatype Sidecar = Sidecar(
    limits: Limits,
    reserved: int,
    inFlight: int,
    waiters: seq<nat>,
    shownInFlight: int,
    shownQueued: int,
    forwardCount: nat,
    lastError: Option<ForwardError>,
    tasks: seq<Task>)

  datatype Step =
    | Forward
    | Resume(k: nat)
    | Respond(k: nat, response: Response)
    | Settle(k: nat)
    | EndSleep(k: nat)

  function Initial(limits: Limits): Sidecar {
    Sidecar(limits, 0, 0, [], 0, 0, 0, None, [])
  }

  // ----- the pieces -----

  function Refreshed(s: Sidecar): Sidecar {
    s.(shownInFlight := s.inFlight, shownQueued := if s.reserved - s.inFlight > 0 then s.reserved - s.inFlight else 0)
  }

  function Becomes(s: Sidecar, k: nat, task: Task): Sidecar
    requires k < |s.tasks|
  {
    s.(tasks := s.tasks[k := task])
  }

  /** One pass of the acquire loop: take a slot if one is free, otherwise queue up. */
  function TrySlot(s: Sidecar, k: nat, attempt: nat): Sidecar
    requires k < |s.tasks|
  {
    if s.inFlight >= s.limits.maxInFlight
    then Refreshed(Becomes(s.(waiters := s.waiters + [k]), k, Parked(attempt)))
    else Refreshed(Becomes(s.(inFlight := s.inFlight + 1), k, Requesting(attempt)))
  }

  function Woke(task: Task): Task {
    if task.Parked? then Woken(task.attempt) else task
  }

  /** The waiter that resolving the first promise in the queue wakes. */
  function WakeFirst(tasks: seq<Task>, waiters: seq<nat>): seq<Task> {
    if waiters != [] && waiters[0] < |tasks| then tasks[waiters[0] := Woke(tasks[waiters[0]])] else tasks
  }

  function ReleaseSlot(s: Sidecar): Sidecar {
    Refreshed(s.(inFlight := s.inFlight - 1,
                 waiters := if s.waiters == [] then [] else s.waiters[1..],
                 tasks := WakeFirst(s.tasks, s.waiters)))
  }

  predicate Retryable(error: ForwardError) {
    match error
    case QueueFull => false
    case Http(statusCode) => statusCode == 408 || statusCode == 429 || statusCode >= 500
    case OtherError => true
  }

  predicate ShouldRetry(error: ForwardError, attempt: nat, retries: nat) {
    attempt < retries && Retryable(error)
  }

  function Finish(s: Sidecar, k: nat, attempt: nat, response: Response): Sidecar
    requires k < |s.tasks|
  {
    var t := Becomes(s, k, Finished(attempt + 1, response));
    Refreshed(t.(reserved := s.reserved - 1,
                 forwardCount := if response.Ok? then s.forwardCount + 1 else s.forwardCount,
                 lastError := if response.Ok? then None else Some(response.error)))
  }

  // ----- steps -----

  predicate Enabled(s: Sidecar, step: Step) {
    step.Forward?
    || (step.k < |s.tasks|
        && match step
           case Resume(k) => s.tasks[k].Woken?
           case Respond(k, response) => s.tasks[k].Requesting? && response != Err(QueueFull)
           case Settle(k) => s.tasks[k].Responded?
           case EndSleep(k) => s.tasks[k].Sleeping?)
  }

  function Take(s: Sidecar, step: Step): Sidecar
    requires Enabled(s, step)
  {
    match step
    case Forward =>
      if s.reserved >= s.limits.maxInFlight + s.limits.maxQueued
      then s.(tasks := s.tasks + [Finished(0, Err(QueueFull))], lastError := Some(QueueFull))
      else TrySlot(Refreshed(s.(reserved := s.reserved + 1, tasks := s.tasks + [Woken(0)])), |s.tasks|, 0)
    case Resume(k) => TrySlot(s, k, s.tasks[k].attempt)
    case Respond(k, response) => ReleaseSlot(Becomes(s, k, Responded(s.tasks[k].attempt, response)))
    case Settle(k) =>
      var Responded(attempt, response) := s.tasks[k];
      if response.Err? && ShouldRetry(response.error, attempt, s.limits.retries)
      then Becomes(s, k, Sleeping(attempt))
      else Finish(s, k, attempt, response)
    case EndSleep(k) => TrySlot(s, k, s.tasks[k].attempt + 1)
  }
}
