// In-flight guards of the account bot (`InFlightMessage` in examples/account_bot.rs): each owns one
// message's reply attempt until it is resolved or dropped.

module BotGuards {
  import opened Wrappers
  import opened BotStore
  import opened BotGuarantees
  import BotOperations
  import TextOrder

  // ----- the guard in the source's own form -----

  class InFlightMessage {
    const store: ProcessedMessageStore
    const id: string
    var lease: nat
    var active: bool
    var replyStarted: bool

    constructor (store: ProcessedMessageStore, id: string, lease: nat)
      ensures this.store == store && this.id == id && this.lease == lease && active && !replyStarted
    {
      this.store, this.id, this.lease := store, id, lease;
      active, replyStarted := true, false;
    }

    method MarkReplyStarted()
      modifies `replyStarted
      ensures replyStarted
    {
      replyStarted := true;
    }

    method MarkReplyNotAccepted()
      modifies `replyStarted
      ensures !replyStarted
    {
      replyStarted := false;
    }

    /** Gives the attempt up; the guard stays active if that cannot be saved. */
    method Release(disk: Disk) returns (r: Outcome<()>)
      requires store.Valid()
      modifies `active, store
      ensures store.Valid() && (store.View(), r) == BotStore.Release(old(store.View()), id, disk)
      ensures active == (old(active) && r.Err?)
    {
      r := store.ReleaseAttempt(id, disk);
      if r.Ok? {
        active := false;
      }
    }

    method Remember(now: nat, disk: Disk) returns (r: Outcome<()>)
      requires store.Valid()
      modifies `active, store
      ensures store.Valid() && (store.View(), r) == Complete(old(store.View()), id, now, disk)
      ensures active == (old(active) && r.Err?)
    {
      r := store.CompleteAt(id, now, disk);
      if r.Ok? {
        active := false;
      }
    }

    method Defer(lease: nat, now: nat, disk: Disk) returns (r: Outcome<()>)
      requires store.Valid()
      modifies `active, `lease, store
      ensures store.Valid() && (store.View(), r) == BotStore.Defer(old(store.View()), id, lease, now, disk)
      ensures active == (old(active) && r.Err?) && this.lease == lease
    {
      this.lease := lease;
      r := store.DeferAttemptAt(id, lease, now, disk);
      if r.Ok? {
        active := false;
      }
    }

    /** The reply was accepted, or may have been: the message counts as processed either way. */
    method RememberAfterReply(now: nat, disk: Disk) returns (r: Outcome<()>)
      requires store.Valid()
      modifies `active, store
      ensures store.Valid() && store.View() == AfterReply(old(store.View()), id, now, disk)
      ensures r.Ok? == disk.Saved? && !active
    {
      r := store.CompleteAt(id, now, disk);
      if r.Err? {
        store.MarkVolatileProcessed(id, now);
      }
      active := false;
    }

    /** What happens when the guard goes out of scope. */
    method Drop(now: nat, disk: Disk)
      requires store.Valid()
      modifies store
      ensures store.Valid()
      ensures store.View() == if active then Dropped(old(store.View()), Guard(id, lease, replyStarted), now, disk)
                              else old(store.View())
    {
      if !active {
        return;
      }
      if replyStarted {
        var r := store.CompleteAt(id, now, disk);
        if r.Err? {
          store.MarkVolatileProcessed(id, now);
        }
      } else {
        var r := store.DeferAttemptAt(id, lease, now, disk);
      }
    }
  }

  // ----- all guards of a process -----

  datatype Guard = Guard(id: string, lease: nat, replyStarted: bool)

  /** The store and the guards that are alive. */
  datatype System = System(store: BotState, guards: seq<Guard>)

  datatype Step =
    | Start(id: string, lease: nat, now: nat, disk: Disk)
    | SetReplyStarted(k: nat, started: bool)
    | ReleaseGuard(k: nat, disk: Disk)
    | RememberGuard(k: nat, now: nat, disk: Disk)
    | DeferGuard(k: nat, lease: nat, now: nat, disk: Disk)
    | RememberAfterReplyGuard(k: nat, now: nat, disk: Disk)
    | DropGuard(k: nat, now: nat, disk: Disk)

  ghost function Dropped(s: BotState, g: Guard, now: nat, disk: Disk): BotState {
    if g.replyStarted then AfterReply(s, g.id, now, disk) else BotStore.Defer(s, g.id, g.lease, now, disk).0
  }

  function Gone(guards: seq<Guard>, k: nat): seq<Guard>
    requires k < |guards|
  {
    guards[..k] + guards[k + 1..]
  }

  ghost predicate Enabled(sys: System, step: Step) {
    step.Start? || step.k < |sys.guards|
  }

  ghost function Take(sys: System, step: Step): System
    requires Enabled(sys, step)
  {
    match step
    case Start(id, lease, now, disk) =>
      var (s, r) := Begin(sys.store, id, lease, now, disk);
      System(s, if r == Ok(Started) then sys.guards + [Guard(id, lease, false)] else sys.guards)
    case SetReplyStarted(k, started) =>
      sys.(guards := sys.guards[k := sys.guards[k].(replyStarted := started)])
    case ReleaseGuard(k, disk) =>
      var (s, r) := BotStore.Release(sys.store, sys.guards[k].id, disk);
      System(s, if r.Ok? then Gone(sys.guards, k) else sys.guards)
    case RememberGuard(k, now, disk) =>
      var (s, r) := Complete(sys.store, sys.guards[k].id, now, disk);
      System(s, if r.Ok? then Gone(sys.guards, k) else sys.guards)
    case DeferGuard(k, lease, now, disk) =>
      var (s, r) := BotStore.Defer(sys.store, sys.guards[k].id, lease, now, disk);
      System(s, if r.Ok? then Gone(sys.guards, k) else sys.guards[k := sys.guards[k].(lease := lease)])
    case RememberAfterReplyGuard(k, now, disk) =>
      System(AfterReply(sys.store, sys.guards[k].id, now, disk), Gone(sys.guards, k))
    case DropGuard(k, now, disk) =>
      System(Dropped(sys.store, sys.guards[k], now, disk), Gone(sys.guards, k))
  }

  /** When the step happens, no live guard's lease has run out. */
  ghost predicate InTime(sys: System, step: Step) {
    step.Start? || step.RememberGuard? || step.DeferGuard? || step.RememberAfterReplyGuard? || step.DropGuard? ==>
      forall g :: g in sys.guards && g.id in sys.store.attempts ==> sys.store.attempts[g.id] > step.now
  }

  ghost predicate OneGuardEach(guards: seq<Guard>) {
    forall i, j :: 0 <= i < j < |guards| ==> guards[i].id != guards[j].id
  }

  /** The guard's message is leased and not processed. */
  ghost predicate Holding(s: BotState, id: string) {
    id in s.attempts && id !in s.order && id !in s.volatileIds
  }

  ghost predicate SystemOk(sys: System) {
    && StoreOk(sys.store)
    && OneGuardEach(sys.guards)
    && forall g :: g in sys.guards ==> Holding(sys.store, g.id)
  }

  // ----- what one operation does to another message's guard -----

  lemma PersistedHolding(s: BotState, id: string, disk: Disk)
    requires Holding(s, id)
    ensures Holding(Persisted(s, disk), id)
  {
    TextOrder.InOrderLists(s.volatileIds);
    NotAdded(s.order, s.maxIds, TextOrder.InOrder(s.volatileIds), id);
  }

  ghost predicate Alive(s: BotState, id: string, now: nat) {
    Holding(s, id) && s.attempts[id] > now
  }

  lemma CompletedHolding(s: BotState, other: string, id: string, now: nat)
    requires Alive(s, id, now) && id != other
    ensures Holding(Completed(s, other, now), id)
  {
  }

  /** Every operation on another message leaves a live guard's message leased and unprocessed. */
  lemma OtherOperation(s: BotState, op: Op, now: nat, disk: Disk, id: string)
    requires Holding(s, id) && op.id != id
    requires op.OpRelease? || s.attempts[id] > now
    ensures Holding(After(s, op, now, disk), id)
  {
    var p := Prune(s, now);
    match op {
      case OpBegin(other, lease) =>
        if other in p.volatileIds {
          CompletedHolding(p, other, id, now);
          PersistedHolding(Completed(p, other, now), id, disk);
        }
        PersistedHolding(Marked(p, other, LeaseUntil(now, lease)), id, disk);
      case OpRelease(other) =>
        PersistedHolding(BotStore.Without(s, other), id, disk);
      case OpDefer(other, lease) =>
        var t := BotStore.Without(p, other);
        PersistedHolding(t.(attempts := t.attempts[other := LeaseUntil(now, lease)]), id, disk);
      case OpComplete(other) =>
        CompletedHolding(s, other, id, now);
        PersistedHolding(Completed(s, other, now), id, disk);
      case OpMarkVolatile(other) =>
    }
  }

  lemma OtherReply(s: BotState, other: string, now: nat, disk: Disk, id: string)
    requires Alive(s, id, now) && id != other
    ensures Holding(AfterReply(s, other, now, disk), id)
  {
    OtherOperation(s, OpComplete(other), now, disk, id);
  }

  // ----- what an operation does to its own message -----

  lemma StartedHolds(s: BotState, id: string, lease: nat, now: nat, disk: Disk)
    requires StoreOk(s) && Begin(s, id, lease, now, disk).1 == Ok(Started)
    ensures Holding(Begin(s, id, lease, now, disk).0, id)
    ensures id !in Prune(s, now).attempts
  {
    var p := Prune(s, now);
    assert id !in s.order;
    PersistedHolding(Marked(p, id, LeaseUntil(now, lease)), id, disk);
  }

  lemma FailedDeferHolds(s: BotState, id: string, lease: nat, now: nat, disk: Disk)
    requires Holding(s, id) && !disk.Saved?
    ensures Holding(BotStore.Defer(s, id, lease, now, disk).0, id)
  {
  }

  // ----- at most one guard per message -----

  lemma GoneKeeps(guards: seq<Guard>, k: nat)
    requires k < |guards| && OneGuardEach(guards)
    ensures OneGuardEach(Gone(guards, k))
    ensures forall g :: g in Gone(guards, k) ==> g in guards && g.id != guards[k].id
  {
  }

  /** Guards other than the `k`-th keep holding through a store operation on its message. */
  lemma OthersHold(sys: System, k: nat, op: Op, now: nat, disk: Disk)
    requires SystemOk(sys) && k < |sys.guards| && op.id == sys.guards[k].id
    requires op.OpRelease? || forall g :: g in sys.guards ==> sys.store.attempts[g.id] > now
    ensures StoreOk(After(sys.store, op, now, disk))
    ensures forall g :: g in Gone(sys.guards, k) ==> Holding(After(sys.store, op, now, disk), g.id)
  {
    OperationsKeepStore(sys.store, op, now, disk);
    GoneKeeps(sys.guards, k);
    forall g | g in Gone(sys.guards, k) ensures Holding(After(sys.store, op, now, disk), g.id) {
      OtherOperation(sys.store, op, now, disk, g.id);
    }
  }

  lemma StartKeepsSystem(sys: System, id: string, lease: nat, now: nat, disk: Disk)
    requires SystemOk(sys) && InTime(sys, Start(id, lease, now, disk))
    ensures SystemOk(Take(sys, Start(id, lease, now, disk)))
  {
    var (s, r) := Begin(sys.store, id, lease, now, disk);
    OperationsKeepStore(sys.store, OpBegin(id, lease), now, disk);
    forall g | g in sys.guards ensures Holding(s, g.id) && (r == Ok(Started) ==> g.id != id) {
      if g.id == id {
        assert id in Prune(sys.store, now).attempts;
      } else {
        OtherOperation(sys.store, OpBegin(id, lease), now, disk, g.id);
      }
    }
    if r == Ok(Started) {
      StartedHolds(sys.store, id, lease, now, disk);
      forall i | 0 <= i < |sys.guards| ensures sys.guards[i].id != id { assert sys.guards[i] in sys.guards; }
    }
  }

  lemma AfterReplyKeepsSystem(sys: System, k: nat, now: nat, disk: Disk)
    requires SystemOk(sys) && k < |sys.guards|
    requires forall g :: g in sys.guards ==> sys.store.attempts[g.id] > now
    ensures SystemOk(System(AfterReply(sys.store, sys.guards[k].id, now, disk), Gone(sys.guards, k)))
  {
    ReplyIsRecorded(sys.store, sys.guards[k].id, now, disk);
    GoneKeeps(sys.guards, k);
    forall g | g in Gone(sys.guards, k) ensures Holding(AfterReply(sys.store, sys.guards[k].id, now, disk), g.id) {
      OtherReply(sys.store, sys.guards[k].id, now, disk, g.id);
    }
  }

  lemma DeferKeepsSystem(sys: System, k: nat, lease: nat, now: nat, disk: Disk)
    requires SystemOk(sys) && k < |sys.guards|
    requires forall g :: g in sys.guards ==> sys.store.attempts[g.id] > now
    ensures var s := BotStore.Defer(sys.store, sys.guards[k].id, lease, now, disk).0;
      && SystemOk(System(s, Gone(sys.guards, k)))
      && (!disk.Saved? ==> SystemOk(System(s, sys.guards[k := sys.guards[k].(lease := lease)])))
  {
    var g0 := sys.guards[k];
    var s := BotStore.Defer(sys.store, g0.id, lease, now, disk).0;
    OthersHold(sys, k, OpDefer(g0.id, lease), now, disk);
    GoneKeeps(sys.guards, k);
    if !disk.Saved? {
      FailedDeferHolds(sys.store, g0.id, lease, now, disk);
      var guards := sys.guards[k := g0.(lease := lease)];
      forall i | 0 <= i < |guards| ensures Holding(s, guards[i].id) {
        if i < k { assert guards[i] == Gone(sys.guards, k)[i]; }
        if i > k { assert guards[i] == Gone(sys.guards, k)[i - 1]; }
      }
    }
  }

  lemma SetReplyStartedKeeps(sys: System, k: nat, started: bool)
    requires SystemOk(sys) && k < |sys.guards|
    ensures SystemOk(Take(sys, SetReplyStarted(k, started)))
  {
  }

  lemma ResolveKeepsSystem(sys: System, k: nat, op: Op, now: nat, disk: Disk)
    requires SystemOk(sys) && k < |sys.guards| && op.id == sys.guards[k].id && (op.OpRelease? || op.OpComplete?)
    requires op.OpRelease? || forall g :: g in sys.guards ==> sys.store.attempts[g.id] > now
    ensures SystemOk(System(After(sys.store, op, now, disk), if disk.Saved? then Gone(sys.guards, k) else sys.guards))
  {
    OthersHold(sys, k, op, now, disk);
    GoneKeeps(sys.guards, k);
  }

  /** As long as every guard is resolved before its lease runs out, each step keeps at most one live
      guard per message, whose message is leased and not processed. */
  lemma StepKeepsSystem(sys: System, step: Step)
    requires SystemOk(sys) && Enabled(sys, step) && InTime(sys, step)
    ensures SystemOk(Take(sys, step))
  {
    match step {
      case Start(id, lease, now, disk) => StartKeepsSystem(sys, id, lease, now, disk);
      case SetReplyStarted(k, started) => SetReplyStartedKeeps(sys, k, started);
      case ReleaseGuard(k, disk) => ResolveKeepsSystem(sys, k, OpRelease(sys.guards[k].id), 0, disk);
      case RememberGuard(k, now, disk) => ResolveKeepsSystem(sys, k, OpComplete(sys.guards[k].id), now, disk);
      case DeferGuard(k, lease, now, disk) => DeferKeepsSystem(sys, k, lease, now, disk);
      case RememberAfterReplyGuard(k, now, disk) => AfterReplyKeepsSystem(sys, k, now, disk);
      case DropGuard(k, now, disk) =>
        if sys.guards[k].replyStarted {
          AfterReplyKeepsSystem(sys, k, now, disk);
        } else {
          DeferKeepsSystem(sys, k, sys.guards[k].lease, now, disk);
        }
    }
  }

  ghost predicate Run(states: seq<System>, steps: seq<Step>) {
    && |states| == |steps| + 1
    && SystemOk(states[0])
    && forall i {:trigger steps[i]} :: 0 <= i < |steps| ==>
         Enabled(states[i], steps[i]) && InTime(states[i], steps[i]) && states[i + 1] == Take(states[i], steps[i])
  }

  /** In every such run there is at most one live guard per message. */
  lemma {:induction false} OneGuardPerMessage(states: seq<System>, steps: seq<Step>, n: nat)
    requires Run(states, steps) && n < |states|
    ensures OneGuardEach(states[n].guards) && SystemOk(states[n])
  {
    if n > 0 {
      OneGuardPerMessage(states, steps, n - 1);
      assert Enabled(states[n - 1], steps[n - 1]);
      StepKeepsSystem(states[n - 1], steps[n - 1]);
    }
  }

  /** An attempt is started exactly if the message is not recorded, no lease on it is left and the write
      succeeds. */
  lemma StartedIffFree(s: BotState, id: string, lease: nat, now: nat, disk: Disk)
    requires StoreOk(s)
    ensures Begin(s, id, lease, now, disk).1 == Ok(Started)
            <==> !Recorded(s, id) && (id in s.attempts ==> s.attempts[id] <= now) && disk.Saved?
    ensures Begin(s, id, lease, now, disk).1 == Ok(Started) && s.volatileIds == {} ==>
              Begin(s, id, lease, now, disk).0.attempts == Prune(s, now).attempts[id := LeaseUntil(now, lease)]
  {
  }

  /** A message that has a live guard gets a second one exactly if its lease has run out and the write
      succeeds. */
  lemma SecondGuardIffOverdue(sys: System, k: nat, lease: nat, now: nat, disk: Disk)
    requires SystemOk(sys) && k < |sys.guards|
    ensures OneGuardEach(Take(sys, Start(sys.guards[k].id, lease, now, disk)).guards)
            <==> sys.store.attempts[sys.guards[k].id] > now || !disk.Saved?
  {
    var id := sys.guards[k].id;
    assert Holding(sys.store, id);
    StartedIffFree(sys.store, id, lease, now, disk);
    var next := Take(sys, Start(id, lease, now, disk));
    assert next.guards != sys.guards ==> next.guards[k].id == next.guards[|sys.guards|].id;
  }

  /** Without that assumption it fails: a guard that outlives its lease can be joined by a second one
      for the same message. */
  lemma OverdueGuardIsDoubled()
    ensures var one := Take(System(BotState({}, [], map[], {}, {}, 1), []), Start("m", 1, 0, Saved));
      var two := Take(one, Start("m", 1, 1, Saved));
      SystemOk(one) && !OneGuardEach(two.guards)
  {
    var empty := System(BotState({}, [], map[], {}, {}, 1), []);
    var one := Take(empty, Start("m", 1, 0, Saved));
    StepKeepsSystem(empty, Start("m", 1, 0, Saved));
    StartedIffFree(empty.store, "m", 1, 0, Saved);
    assert one.guards == [Guard("m", 1, false)];
    StartedIffFree(one.store, "m", 1, 1, Saved);
    assert Take(one, Start("m", 1, 1, Saved)).guards[0].id == Take(one, Start("m", 1, 1, Saved)).guards[1].id;
  }

  lemma ReplySettles(s: BotState, id: string, now: nat, disk: Disk)
    requires StoreOk(s)
    ensures var s' := AfterReply(s, id, now, disk);
      && BotOperations.Free(s', id)
      && (if disk.Saved? then s'.volatileIds == {} else s'.volatileIds == s.volatileIds + {id})
      && (id in s'.ids || id in s'.volatileIds || |s'.order| == s'.maxIds)
  {
    BotOperations.CompleteAppends(s, id, now, disk);
    BotOperations.MarkVolatileWaits(s, id, now);
    ReplyIsRecorded(s, id, now, disk);
  }

  /** What becomes of a message whose guard is dropped: if a reply was started, it is freed and is recorded,
      waits to be saved, or was pushed out by its own write; otherwise it stays leased for the guard's time, and
      is no longer in flight, whether or not that can be saved. */
  lemma DropSettles(sys: System, k: nat, now: nat, disk: Disk)
    requires SystemOk(sys) && k < |sys.guards|
    ensures var g := sys.guards[k]; var s' := Take(sys, DropGuard(k, now, disk)).store;
      if g.replyStarted then
        && BotOperations.Free(s', g.id)
        && (if disk.Saved? then s'.volatileIds == {} else s'.volatileIds == sys.store.volatileIds + {g.id})
        && (g.id in s'.ids || g.id in s'.volatileIds || |s'.order| == s'.maxIds)
      else
        g.id in s'.attempts && BotOperations.EndsAt(s'.attempts[g.id], now, g.lease) && g.id !in s'.inflight
  {
    var g := sys.guards[k];
    assert Holding(sys.store, g.id);
    if g.replyStarted {
      ReplySettles(sys.store, g.id, now, disk);
    } else {
      BotOperations.DeferLeases(sys.store, g.id, g.lease, now, disk);
    }
  }
}
