// The sidecar's forward queue in the source's own form: module-level counters and a waiter queue that
// the pieces of concurrent forwards change between awaits (examples/sidecar-js/index.mjs).

module ForwardScheduler {
  import opened Wrappers
  import opened ForwardModel

  class Forwarder {
    const limits: Limits
    var reservedForwards: int
    var inFlightForwards: int
    var forwardWaiters: seq<nat>
    var statusInFlight: int
    var statusQueued: int
    var forwardCount: nat
    var lastForwardError: Option<ForwardError>
    var tasks: seq<Task>

    ghost function View(): Sidecar
      reads this
    {
      Sidecar(limits, reservedForwards, inFlightForwards, forwardWaiters, statusInFlight, statusQueued,
              forwardCount, lastForwardError, tasks)
    }

    constructor (limits: Limits)
      ensures View() == Initial(limits)
    {
      this.limits := limits;
      reservedForwards, inFlightForwards, forwardWaiters := 0, 0, [];
      statusInFlight, statusQueued, forwardCount, lastForwardError := 0, 0, 0, None;
      tasks := [];
    }

    method RefreshForwardStatus()
      modifies `statusInFlight, `statusQueued
      ensures View() == Refreshed(old(View()))
    {
      statusInFlight := inFlightForwards;
      statusQueued := if reservedForwards - inFlightForwards > 0 then reservedForwards - inFlightForwards else 0;
    }

    method AcquireForwardBudget() returns (ok: bool)
      modifies `reservedForwards, `statusInFlight, `statusQueued
      ensures ok == (old(reservedForwards) < limits.maxInFlight + limits.maxQueued)
      ensures View() == if ok then Refreshed(old(View()).(reserved := old(reservedForwards) + 1)) else old(View())
    {
      if reservedForwards >= limits.maxInFlight + limits.maxQueued {
        return false;
      }
      reservedForwards := reservedForwards + 1;
      RefreshForwardStatus();
      return true;
    }

    method ReleaseForwardBudget()
      modifies `reservedForwards, `statusInFlight, `statusQueued
      ensures View() == Refreshed(old(View()).(reserved := old(reservedForwards) - 1))
    {
      reservedForwards := reservedForwards - 1;
      RefreshForwardStatus();
    }

    /** The acquire loop up to its next await. */
    method TryForwardSlot(k: nat, attempt: nat)
      requires k < |tasks|
      modifies this
      ensures View() == TrySlot(old(View()), k, attempt)
    {
      if inFlightForwards >= limits.maxInFlight {
        forwardWaiters := forwardWaiters + [k];
        tasks := tasks[k := Parked(attempt)];
        RefreshForwardStatus();
        return;
      }
      inFlightForwards := inFlightForwards + 1;
      tasks := tasks[k := Requesting(attempt)];
      RefreshForwardStatus();
    }

    method ReleaseForwardSlot()
      modifies this
      ensures View() == ReleaseSlot(old(View()))
    {
      inFlightForwards := inFlightForwards - 1;
      var next: Option<nat> := None;
      if forwardWaiters != [] {
        next := Some(forwardWaiters[0]);
        forwardWaiters := forwardWaiters[1..];
      }
      RefreshForwardStatus();
      if next.Some? && next.value < |tasks| {
        tasks := tasks[next.value := Woke(tasks[next.value])];
      }
    }

    /** A new forward, up to its first await. */
    method StartForward()
      modifies this
      ensures View() == Take(old(View()), Forward)
    {
      var ok := AcquireForwardBudget();
      if !ok {
        tasks := tasks + [Finished(0, Err(QueueFull))];
        lastForwardError := Some(QueueFull);
        return;
      }
      tasks := tasks + [Woken(0)];
      TryForwardSlot(|tasks| - 1, 0);
    }

    /** A woken waiter looks at the counter again. */
    method ResumeForward(k: nat)
      requires Enabled(View(), Resume(k))
      modifies this
      ensures View() == Take(old(View()), Resume(k))
    {
      TryForwardSlot(k, tasks[k].attempt);
    }

    /** The request ends, with a response or an error; the slot is released either way. */
    method EndRequest(k: nat, response: Response)
      requires Enabled(View(), Respond(k, response))
      modifies this
      ensures View() == Take(old(View()), Respond(k, response))
    {
      tasks := tasks[k := Responded(tasks[k].attempt, response)];
      ReleaseForwardSlot();
    }

    /** The retry loop looks at the response: the forward ends or goes to sleep before the next attempt. */
    method SettleForward(k: nat)
      requires Enabled(View(), Settle(k))
      modifies this
      ensures View() == Take(old(View()), Settle(k))
    {
      var attempt, response := tasks[k].attempt, tasks[k].response;
      if response.Ok? {
        forwardCount := forwardCount + 1;
        lastForwardError := None;
      } else if !ShouldRetry(response.error, attempt, limits.retries) {
        lastForwardError := Some(response.error);
      } else {
        tasks := tasks[k := Sleeping(attempt)];
        return;
      }
      tasks := tasks[k := Finished(attempt + 1, response)];
      ReleaseForwardBudget();
    }

    method EndForwardSleep(k: nat)
      requires Enabled(View(), EndSleep(k))
      modifies this
      ensures View() == Take(old(View()), EndSleep(k))
    {
      TryForwardSlot(k, tasks[k].attempt + 1);
    }
  }
}
