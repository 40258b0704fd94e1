// The account bot's event limit: slots reserved and completed by concurrent request handlers, and the
// accept loop that stops once the limit is reached (`EventSlot`, `try_acquire_event_slot` and
// `max_events_reached` in examples/account_bot.rs). A step is one atomic operation of one task.

module EventSlots {
  import opened Counting

  // ----- a slot in the source's own form -----

  /** The counters the bot's tasks share, and the stored wake-up of the accept loop. */
  class Counters {
    var slots: nat
    var completed: nat
    var permit: bool

    constructor ()
      ensures slots == 0 && completed == 0 && !permit
    {
      slots, completed, permit := 0, 0, false;
    }
  }

  class EventSlot {
    const counters: Counters?
    var committed: bool

    constructor Unlimited()
      ensures counters == null && committed
    {
      counters, committed := null, true;
    }

    constructor Counted(counters: Counters)
      ensures this.counters == counters && !committed
    {
      this.counters, committed := counters, false;
    }

    method Commit()
      modifies `committed, counters
      ensures committed
      ensures counters != null && !old(committed) ==>
                counters.slots == old(counters.slots) && counters.completed == old(counters.completed) + 1 && counters.permit
      ensures counters != null && old(committed) ==> unchanged(counters)
    {
      if !committed {
        if counters != null {
          counters.completed := counters.completed + 1;
          counters.permit := true;
        }
        committed := true;
      }
    }

    /** What happens when the slot goes out of scope: an uncommitted one is given back. */
    method Drop()
      requires counters != null && !committed ==> counters.slots > 0
      modifies counters
      ensures counters != null && !committed ==>
                counters.slots == old(counters.slots) - 1 && counters.completed == old(counters.completed) && counters.permit
      ensures counters != null && committed ==> unchanged(counters)
    {
      if !committed && counters != null {
        counters.slots := counters.slots - 1;
        counters.permit := true;
      }
    }
  }

  // ----- handlers and the accept loop -----

  /** How far one request's handler has come with its slot. */
  datatype Handler =
    | Arrived
    | Trying(seen: int)
    | Refused
    | Holding
    | Notifying
    | Releasing
    | Released
    | Unlimited
    | Committed
    | Counted
    | Uncounted

  /** How far the accept loop has come with checking the limit. */
  datatype AcceptLoop = Top | SawFew | SawEnough | SawSlots(seen: int) | Waiting | Stopped

  datatype System = System(
    maxEvents: nat,
    slots: int,
    completed: nat,
    accepted: nat,
    permit: bool,
    handlers: seq<Handler>,
    loop: AcceptLoop)

  datatype Step =
    | Arrive
    | Load(k: nat)
    | Refuse(k: nat)
    | Reserve(k: nat)
    | ReserveFails(k: nat)
    | Commit(k: nat)
    | NotifyCommit(k: nat)
    | GiveBack(k: nat)
    | NotifyGiveBack(k: nat)
    | CommitUnlimited(k: nat)
    | Count(k: nat)
    | DoNotCount(k: nat)
    | Check
    | WakeOnPermit
    | WakeOtherwise

  predicate At(s: System, k: nat, h: Handler) {
    k < |s.handlers| && s.handlers[k] == h
  }

  predicate Enabled(s: System, step: Step) {
    match step
    case Arrive => true
    case Load(k) => At(s, k, Arrived)
    case Refuse(k) => k < |s.handlers| && s.handlers[k].Trying? && s.handlers[k].seen >= s.maxEvents
    case Reserve(k) =>
      k < |s.handlers| && s.handlers[k].Trying? && s.handlers[k].seen < s.maxEvents && s.slots == s.handlers[k].seen
    // A weak exchange may fail even if the value matches.
    case ReserveFails(k) => k < |s.handlers| && s.handlers[k].Trying? && s.handlers[k].seen < s.maxEvents
    case Commit(k) => At(s, k, Holding)
    case NotifyCommit(k) => At(s, k, Notifying)
    case GiveBack(k) => At(s, k, Holding)
    case NotifyGiveBack(k) => At(s, k, Releasing)
    case CommitUnlimited(k) => At(s, k, Unlimited)
    case Count(k) => At(s, k, Committed)
    case DoNotCount(k) => At(s, k, Committed)
    case Check => !s.loop.Waiting? && !s.loop.Stopped?
    case WakeOnPermit => s.loop.Waiting? && s.permit
    case WakeOtherwise => s.loop.Waiting?
  }

  function Becomes(s: System, k: nat, h: Handler): System
    requires k < |s.handlers|
  {
    s.(handlers := s.handlers[k := h])
  }

  /** One load of the check that decides whether the limit is reached. */
  function Checked(s: System): AcceptLoop {
    match s.loop
    case Top => if s.maxEvents == 0 then Waiting else if s.completed >= s.maxEvents then SawEnough else SawFew
    case SawFew => if s.accepted >= s.maxEvents then SawEnough else Waiting
    case SawEnough => SawSlots(s.slots)
    case SawSlots(seen) => if seen == s.completed then Stopped else Waiting
    case _ => s.loop
  }

  function Take(s: System, step: Step): System
    requires Enabled(s, step)
  {
    match step
    case Arrive => s.(handlers := s.handlers + [Arrived])
    case Load(k) => Becomes(s, k, if s.maxEvents == 0 then Unlimited else Trying(s.slots))
    case Refuse(k) => Becomes(s, k, Refused)
    case Reserve(k) => Becomes(s, k, Holding).(slots := s.slots + 1)
    case ReserveFails(k) => Becomes(s, k, Trying(s.slots))
    case Commit(k) => Becomes(s, k, Notifying).(completed := s.completed + 1)
    case NotifyCommit(k) => Becomes(s, k, Committed).(permit := true)
    case GiveBack(k) => Becomes(s, k, Releasing).(slots := s.slots - 1)
    case NotifyGiveBack(k) => Becomes(s, k, Released).(permit := true)
    case CommitUnlimited(k) => Becomes(s, k, Committed)
    case Count(k) => Becomes(s, k, Counted).(accepted := s.accepted + 1)
    case DoNotCount(k) => Becomes(s, k, Uncounted)
    case Check => s.(loop := Checked(s))
    case WakeOnPermit => s.(loop := Top, permit := false)
    case WakeOtherwise => s.(loop := Top)
  }

  // ----- counting handlers -----

  predicate HoldsSlot(h: Handler) {
    h.Holding?
  }

  predicate HasCommitted(h: Handler) {
    h.Notifying? || h.Committed? || h.Counted? || h.Uncounted?
  }

  predicate IsNotifying(h: Handler) {
    h.Notifying?
  }

  predicate IsCounted(h: Handler) {
    h.Counted?
  }

  lemma CountedHaveCommitted(handlers: seq<Handler>)
    ensures Tally(handlers, IsCounted) <= Tally(handlers, HasCommitted)
  {
    TallyAtMost(handlers, IsCounted, HasCommitted);
  }

  // ----- the invariant -----

  ghost predicate Limited(s: System) {
    && s.slots == Tally(s.handlers, HoldsSlot) + Tally(s.handlers, HasCommitted)
    && s.completed == Tally(s.handlers, HasCommitted)
    && s.slots <= s.maxEvents
    && (s.loop.SawEnough? || s.loop.SawSlots? || s.loop.Stopped? ==> s.completed == s.maxEvents)
    && (s.loop.SawSlots? ==> s.loop.seen == s.maxEvents)
    && ((s.loop.SawFew? || s.loop.Waiting?) && s.completed == s.maxEvents ==>
          s.permit || Tally(s.handlers, IsNotifying) > 0)
  }

  ghost predicate NoLimit(s: System) {
    && s.slots == 0 && s.completed == 0
    && Tally(s.handlers, HoldsSlot) == 0 && Tally(s.handlers, IsNotifying) == 0
    && (forall k :: 0 <= k < |s.handlers| ==> !s.handlers[k].Trying?)
    && (s.loop.Top? || s.loop.Waiting?)
  }

  ghost predicate Ok(s: System) {
    && s.accepted == Tally(s.handlers, IsCounted)
    && (if s.maxEvents > 0 then Limited(s) && Unlimited !in s.handlers else NoLimit(s))
  }

  function Initial(maxEvents: nat): System {
    System(maxEvents, 0, 0, 0, false, [], Top)
  }

  predicate Moves(step: Step) {
    !step.Arrive? && !step.Check? && !step.WakeOnPermit? && !step.WakeOtherwise?
  }

  /** A step of one handler counts exactly as its change of phase. */
  lemma MoveTallies(s: System, step: Step, kind: Handler -> bool)
    requires Enabled(s, step) && Moves(step)
    ensures step.k < |s.handlers| == |Take(s, step).handlers|
    ensures Tally(Take(s, step).handlers, kind)
            == Tally(s.handlers, kind) - One(s.handlers[step.k], kind) + One(Take(s, step).handlers[step.k], kind)
    ensures forall j :: 0 <= j < |s.handlers| && j != step.k ==> Take(s, step).handlers[j] == s.handlers[j]
  {
    TallyChange(s.handlers, step.k, Take(s, step).handlers[step.k], kind);
  }

  lemma MoveKeepsLimited(s: System, step: Step)
    requires Ok(s) && s.maxEvents > 0 && Enabled(s, step) && Moves(step)
    ensures Limited(Take(s, step))
  {
    MoveTallies(s, step, HoldsSlot);
    MoveTallies(s, step, HasCommitted);
    MoveTallies(s, step, IsNotifying);
    assert s.handlers[step.k] in s.handlers;
  }

  lemma MoveKeepsNoLimit(s: System, step: Step)
    requires Ok(s) && s.maxEvents == 0 && Enabled(s, step) && Moves(step)
    ensures NoLimit(Take(s, step))
  {
    MoveTallies(s, step, HoldsSlot);
    MoveTallies(s, step, IsNotifying);
    NoneOfKind(s.handlers, HoldsSlot);
    NoneOfKind(s.handlers, IsNotifying);
    assert s.handlers[step.k] in s.handlers;
  }

  lemma MoveKeepsAccounting(s: System, step: Step)
    requires Ok(s) && Enabled(s, step) && Moves(step)
    ensures Ok(Take(s, step))
  {
    var s' := Take(s, step);
    MoveTallies(s, step, IsCounted);
    if s.maxEvents > 0 {
      MoveKeepsLimited(s, step);
      forall j | 0 <= j < |s'.handlers| ensures s'.handlers[j] != Unlimited {
        assert s.handlers[j] in s.handlers;
      }
    } else {
      MoveKeepsNoLimit(s, step);
    }
  }

  lemma ArrivalKeepsAccounting(s: System)
    requires Ok(s)
    ensures Ok(Take(s, Arrive))
  {
    TallyMore(s.handlers, Arrived, HoldsSlot);
    TallyMore(s.handlers, Arrived, HasCommitted);
    TallyMore(s.handlers, Arrived, IsNotifying);
    TallyMore(s.handlers, Arrived, IsCounted);
  }

  lemma LoopKeepsAccounting(s: System, step: Step)
    requires Ok(s) && Enabled(s, step) && (step.Check? || step.WakeOnPermit? || step.WakeOtherwise?)
    ensures Ok(Take(s, step))
  {
    CountedHaveCommitted(s.handlers);
  }

  /** Every step of every task keeps the accounting. */
  lemma StepKeepsAccounting(s: System, step: Step)
    requires Ok(s) && Enabled(s, step)
    ensures Ok(Take(s, step))
    ensures Take(s, step).maxEvents == s.maxEvents
    ensures s.loop.Stopped? ==> Take(s, step).loop.Stopped?
  {
    if Moves(step) {
      MoveKeepsAccounting(s, step);
    } else if step.Arrive? {
      ArrivalKeepsAccounting(s);
    } else {
      LoopKeepsAccounting(s, step);
    }
  }

  // ----- runs -----

  ghost predicate Run(states: seq<System>, steps: seq<Step>) {
    && |states| == |steps| + 1 && states[0] == Initial(states[0].maxEvents)
    && forall i {:trigger steps[i]} :: 0 <= i < |steps| ==>
         Enabled(states[i], steps[i]) && states[i + 1] == Take(states[i], steps[i])
  }

  lemma {:induction false} RunsAreAccounted(states: seq<System>, steps: seq<Step>, n: nat)
    requires Run(states, steps) && n < |states|
    ensures Ok(states[n]) && states[n].maxEvents == states[0].maxEvents
  {
    if n > 0 {
      RunsAreAccounted(states, steps, n - 1);
      assert Enabled(states[n - 1], steps[n - 1]);
      StepKeepsAccounting(states[n - 1], steps[n - 1]);
    }
  }

  /** With a limit: the reserved slots that are not completed are the live uncommitted guards, and no
      counter passes the one before it. */
  lemma SlotsAreAccountedFor(states: seq<System>, steps: seq<Step>, n: nat)
    requires Run(states, steps) && n < |states| && states[0].maxEvents > 0
    ensures var s := states[n];
      && s.slots - s.completed == Tally(s.handlers, HoldsSlot)
      && s.accepted <= s.completed <= s.slots <= states[0].maxEvents
  {
    RunsAreAccounted(states, steps, n);
    CountedHaveCommitted(states[n].handlers);
  }

  /** Without a limit nothing is ever completed, so accepted events stay within completed ones exactly
      while there are none. */
  lemma AcceptedWithinCompleted(states: seq<System>, steps: seq<Step>, n: nat)
    requires Run(states, steps) && n < |states|
    ensures states[n].accepted <= states[n].completed <==> states[0].maxEvents > 0 || states[n].accepted == 0
  {
    RunsAreAccounted(states, steps, n);
    CountedHaveCommitted(states[n].handlers);
  }

  /** For example, a run with no limit that accepts one event and completes none. */
  lemma AcceptedWithoutLimit() returns (states: seq<System>, steps: seq<Step>)
    ensures Run(states, steps) && states[0].maxEvents == 0
    ensures |steps| == 4 && states[4].accepted == 1 && states[4].completed == 0
  {
    var s := Initial(0);
    var arrived, loaded := Take(s, Arrive), Take(Take(s, Arrive), Load(0));
    var committed := Take(loaded, CommitUnlimited(0));
    states := [s, arrived, loaded, committed, Take(committed, Count(0))];
    steps := [Arrive, Load(0), CommitUnlimited(0), Count(0)];
  }

  lemma {:induction false} StoppedStays(states: seq<System>, steps: seq<Step>, n: nat, m: nat)
    requires Run(states, steps) && n <= m < |states| && states[n].loop.Stopped?
    ensures states[m].loop.Stopped?
  {
    if n < m {
      StoppedStays(states, steps, n, m - 1);
      RunsAreAccounted(states, steps, m - 1);
      assert Enabled(states[m - 1], steps[m - 1]);
      StepKeepsAccounting(states[m - 1], steps[m - 1]);
    }
  }

  /** Although its four loads are spread over the run, the accept loop stops only when exactly the
      limit of events is done and none is in progress; that never changes again. */
  lemma StopsOnlyWhenDone(states: seq<System>, steps: seq<Step>, n: nat, m: nat)
    requires Run(states, steps) && n <= m < |states| && states[n].loop.Stopped?
    ensures states[0].maxEvents > 0
    ensures states[m].completed == states[m].slots == states[0].maxEvents
    ensures Holding !in states[m].handlers
  {
    StoppedStays(states, steps, n, m);
    RunsAreAccounted(states, steps, m);
    NoneOfKind(states[m].handlers, HoldsSlot);
  }

  /** The wake-up is not lost: if the limit is reached while the loop waits, a permit is stored or the
      handler that is about to store it is still running. */
  lemma StopIsNotLost(states: seq<System>, steps: seq<Step>, n: nat)
    requires Run(states, steps) && n < |states| && states[0].maxEvents > 0
    requires states[n].loop.Waiting? && states[n].completed == states[0].maxEvents
    ensures states[n].permit || Notifying in states[n].handlers
  {
    RunsAreAccounted(states, steps, n);
    if !states[n].permit {
      NoneOfKind(states[n].handlers, IsNotifying);
    }
  }

  /** A check that nothing interrupts stops the loop exactly if the limit is reached. */
  lemma ReachedLimitStops(s: System)
    requires Ok(s) && s.maxEvents > 0 && s.loop.Top?
    ensures s.completed == s.maxEvents ==> Take(Take(Take(s, Check), Check), Check).loop.Stopped?
    ensures s.completed != s.maxEvents ==> Take(Take(s, Check), Check).loop.Waiting?
  {
    CountedHaveCommitted(s.handlers);
  }

  /** Handler `k` saw this many slots taken when it last looked. */
  ghost predicate Looked(states: seq<System>, steps: seq<Step>, k: nat, i: nat, seen: int) {
    i < |steps| && i < |states| && (steps[i] == Load(k) || steps[i] == ReserveFails(k)) && states[i].slots == seen
  }

  lemma {:induction false} SeenIsLookedAt(states: seq<System>, steps: seq<Step>, n: nat, k: nat) returns (i: nat)
    requires Run(states, steps) && n < |states| && k < |states[n].handlers| && states[n].handlers[k].Trying?
    ensures i < n && Looked(states, steps, k, i, states[n].handlers[k].seen)
  {
    assert n > 0 && Enabled(states[n - 1], steps[n - 1]);
    if steps[n - 1] == Load(k) || steps[n - 1] == ReserveFails(k) {
      i := n - 1;
    } else {
      i := SeenIsLookedAt(states, steps, n - 1, k);
    }
  }

  /** An event is refused only if all slots were taken at some moment since its handler arrived. */
  lemma RefusedOnlyAtLimit(states: seq<System>, steps: seq<Step>, n: nat) returns (i: nat)
    requires Run(states, steps) && n < |steps| && steps[n].Refuse?
    ensures i < n && (steps[i] == Load(steps[n].k) || steps[i] == ReserveFails(steps[n].k))
    ensures states[i].slots == states[0].maxEvents > 0
  {
    assert Enabled(states[n], steps[n]);
    i := SeenIsLookedAt(states, steps, n, steps[n].k);
    RunsAreAccounted(states, steps, n);
    RunsAreAccounted(states, steps, i);
  }

  // ----- what was done in a run -----

  datatype Deed = Reserving | GivingBack | Committing | TakingCount

  predicate Does(step: Step, deed: Deed) {
    match deed
    case Reserving => step.Reserve?
    case GivingBack => step.GiveBack?
    case Committing => step.Commit?
    case TakingCount => step.Count?
  }

  /** How often it was done before step `n`. */
  function Times(steps: seq<Step>, deed: Deed, n: nat): nat
    requires n <= |steps|
  {
    if n == 0 then 0 else Times(steps, deed, n - 1) + Did(steps[n - 1], deed)
  }

  function Did(step: Step, deed: Deed): nat {
    if Does(step, deed) then 1 else 0
  }

  lemma StepCounts(s: System, step: Step)
    requires Enabled(s, step)
    ensures var s' := Take(s, step);
      && s'.slots == s.slots + Did(step, Reserving) - Did(step, GivingBack)
      && s'.completed == s.completed + Did(step, Committing) && s'.accepted == s.accepted + Did(step, TakingCount)
  {
  }

  lemma {:induction false} CountersAreDeeds(states: seq<System>, steps: seq<Step>, n: nat)
    requires Run(states, steps) && n < |states|
    ensures states[n].slots == Times(steps, Reserving, n) - Times(steps, GivingBack, n)
    ensures states[n].completed == Times(steps, Committing, n) && states[n].accepted == Times(steps, TakingCount, n)
  {
    if n > 0 {
      CountersAreDeeds(states, steps, n - 1);
      assert Enabled(states[n - 1], steps[n - 1]);
      StepCounts(states[n - 1], steps[n - 1]);
    }
  }

  /** However the exchange loops of concurrent handlers interleave, no exchange is lost: the counters are
      what was reserved, given back, committed and counted, so never more than the limit has been reserved
      beyond what was given back, and never more than the limit committed. */
  lemma ReservationsStayBelowLimit(states: seq<System>, steps: seq<Step>, n: nat)
    requires Run(states, steps) && n < |states| && states[0].maxEvents > 0
    ensures var s := states[n];
      && s.slots == Times(steps, Reserving, n) - Times(steps, GivingBack, n)
      && s.completed == Times(steps, Committing, n) && s.accepted == Times(steps, TakingCount, n)
      && Times(steps, Reserving, n) <= states[0].maxEvents + Times(steps, GivingBack, n)
      && Times(steps, TakingCount, n) <= Times(steps, Committing, n) <= states[0].maxEvents
    ensures n < |steps| && steps[n].Reserve? ==> states[n].slots < states[0].maxEvents
  {
    SlotsAreAccountedFor(states, steps, n);
    RunsAreAccounted(states, steps, n);
    CountersAreDeeds(states, steps, n);
    if n < |steps| {
      assert Enabled(states[n], steps[n]);
    }
  }
}
