// What the bot's store guarantees through every operation and every failed write: its collections stay
// consistent and bounded, and a message that was processed is not started again until a full window of
// other ids has been appended to the queue behind it.  BotHistory.dfy says exactly when that is.

module BotGuarantees {
  import opened Wrappers
  import opened BotStore
  import TextOrder

  datatype Op =
    | OpBegin(id: string, lease: nat)
    | OpRelease(id: string)
    | OpDefer(id: string, lease: nat)
    | OpComplete(id: string)
    | OpMarkVolatile(id: string)

  ghost function After(s: BotState, op: Op, now: nat, disk: Disk): BotState {
    match op
    case OpBegin(id, lease) => Begin(s, id, lease, now, disk).0
    case OpRelease(id) => Release(s, id, disk).0
    case OpDefer(id, lease) => Defer(s, id, lease, now, disk).0
    case OpComplete(id) => Complete(s, id, now, disk).0
    case OpMarkVolatile(id) => MarkVolatile(s, id, now)
  }

  /** The queue is duplicate-free, holds the same ids as the set, and at most the limit of them; every
      message in flight has a lease. */
  ghost predicate StoreOk(s: BotState) {
    && Distinct(s.order) && s.ids == Elements(s.order) && |s.order| <= s.maxIds
    && s.inflight <= s.attempts.Keys
  }

  // ----- the window -----

  lemma AddProcessedOk(order: seq<string>, maxIds: nat, id: string)
    requires Distinct(order) && |order| <= maxIds
    ensures Distinct(AddProcessed(order, maxIds, id)) && |AddProcessed(order, maxIds, id)| <= maxIds
  {
  }

  lemma {:induction false} AddAllOk(order: seq<string>, maxIds: nat, added: seq<string>)
    requires Distinct(order) && |order| <= maxIds
    ensures Distinct(AddAll(order, maxIds, added)) && |AddAll(order, maxIds, added)| <= maxIds
    decreases |added|
  {
    if added != [] {
      AddProcessedOk(order, maxIds, added[0]);
      AddAllOk(AddProcessed(order, maxIds, added[0]), maxIds, added[1..]);
    }
  }

  lemma PersistedOk(s: BotState, disk: Disk)
    requires StoreOk(s)
    ensures StoreOk(Persisted(s, disk))
  {
    AddAllOk(s.order, s.maxIds, TextOrder.InOrder(s.volatileIds));
  }

  lemma CompletedOk(s: BotState, id: string, now: nat)
    requires StoreOk(s)
    ensures StoreOk(Completed(s, id, now))
  {
  }

  /** Every operation keeps the store consistent, whether its write succeeds or fails. */
  lemma OperationsKeepStore(s: BotState, op: Op, now: nat, disk: Disk)
    requires StoreOk(s)
    ensures StoreOk(After(s, op, now, disk)) && After(s, op, now, disk).maxIds == s.maxIds
  {
    var p := Prune(s, now);
    match op {
      case OpBegin(id, lease) =>
        CompletedOk(p, id, now);
        PersistedOk(Completed(p, id, now), disk);
        PersistedOk(Marked(p, id, LeaseUntil(now, lease)), disk);
      case OpRelease(id) =>
        PersistedOk(BotStore.Without(s, id), disk);
      case OpDefer(id, lease) =>
        var t := BotStore.Without(p, id);
        PersistedOk(t.(attempts := t.attempts[id := LeaseUntil(now, lease)]), disk);
      case OpComplete(id) =>
        CompletedOk(s, id, now);
        PersistedOk(Completed(s, id, now), disk);
      case OpMarkVolatile(id) =>
    }
  }

  // ----- what is recorded, in order -----

  /** The ids that adding a list really appends to the queue. */
  ghost function Pushed(order: seq<string>, maxIds: nat, added: seq<string>): seq<string>
    decreases |added|
  {
    if added == [] then []
    else (if added[0] in order then [] else [added[0]])
         + Pushed(AddProcessed(order, maxIds, added[0]), maxIds, added[1..])
  }

  lemma LastNOfLastN(a: seq<string>, b: seq<string>, n: nat)
    ensures LastN(LastN(a, n) + b, n) == LastN(a + b, n)
  {
  }

  /** The queue is a window over everything ever appended to it. */
  lemma {:induction false} AddAllIsWindow(order: seq<string>, maxIds: nat, added: seq<string>)
    requires |order| <= maxIds
    ensures AddAll(order, maxIds, added) == LastN(order + Pushed(order, maxIds, added), maxIds)
    decreases |added|
  {
    if added == [] {
      assert order + [] == order;
    } else {
      AddAllIsWindow(AddProcessed(order, maxIds, added[0]), maxIds, added[1..]);
      OneThenRest(order, maxIds, added[0], Pushed(AddProcessed(order, maxIds, added[0]), maxIds, added[1..]));
    }
  }

  lemma OneThenRest(order: seq<string>, maxIds: nat, id: string, rest: seq<string>)
    requires |order| <= maxIds
    ensures LastN(AddProcessed(order, maxIds, id) + rest, maxIds)
            == LastN(order + ((if id in order then [] else [id]) + rest), maxIds)
  {
    if id in order {
      assert [] + rest == rest;
    } else {
      LastNOfLastN(order + [id], rest, maxIds);
      assert order + [id] + rest == order + ([id] + rest);
    }
  }

  /** Each listed id was in the queue already or is appended. */
  lemma {:induction false} AllPushed(order: seq<string>, maxIds: nat, added: seq<string>, x: string)
    requires |order| <= maxIds && x in added
    ensures x in order + Pushed(order, maxIds, added)
    decreases |added|
  {
    var next := AddProcessed(order, maxIds, added[0]);
    var rest := Pushed(next, maxIds, added[1..]);
    if x != added[0] {
      AllPushed(next, maxIds, added[1..], x);
      if x in next {
        assert x in order + [added[0]];
      }
    }
  }

  /** Nothing else gets into the queue. */
  lemma {:induction false} NotAdded(order: seq<string>, maxIds: nat, added: seq<string>, id: string)
    requires id !in order && id !in added
    ensures id !in AddAll(order, maxIds, added)
    decreases |added|
  {
    if added != [] {
      NotAdded(AddProcessed(order, maxIds, added[0]), maxIds, added[1..], id);
    }
  }

  /** The ids an operation hands to the queue, in order: none if its write fails. */
  ghost function Handed(s: BotState, op: Op, now: nat, disk: Disk): seq<string> {
    if !disk.Saved? || op.OpMarkVolatile? then []
    else if op.OpComplete? then [op.id] + TextOrder.InOrder(s.volatileIds - {op.id})
    else if op.OpBegin? then
      var p := Prune(s, now);
      if op.id in p.ids then []
      else if op.id in p.volatileIds then [op.id] + TextOrder.InOrder(s.volatileIds - {op.id})
      else if op.id in p.inflight || op.id in p.attempts then []
      else TextOrder.InOrder(s.volatileIds)
    else TextOrder.InOrder(s.volatileIds)
  }

  lemma OperationIsWindow(s: BotState, op: Op, now: nat, disk: Disk)
    requires StoreOk(s)
    ensures var s' := After(s, op, now, disk); var handed := Handed(s, op, now, disk);
      && s'.order == AddAll(s.order, s.maxIds, handed)
      && (forall x :: x in s.volatileIds ==> x in s'.volatileIds || x in handed)
  {
    TextOrder.InOrderLists(s.volatileIds);
    match op {
      case OpBegin(id, lease) => BeginIsWindow(s, id, lease, now, disk);
      case OpComplete(id) => CompleteIsWindow(s, id, now);
      case _ =>
    }
  }

  lemma CompleteIsWindow(s: BotState, id: string, now: nat)
    ensures var handed := [id] + TextOrder.InOrder(s.volatileIds - {id});
      && Absorbed(Completed(s, id, now)).order == AddAll(s.order, s.maxIds, handed)
      && (forall x :: x in s.volatileIds ==> x in handed)
  {
    TextOrder.InOrderLists(s.volatileIds - {id});
    AddAllFirst(s.order, s.maxIds, id, TextOrder.InOrder(s.volatileIds - {id}));
    forall x | x in s.volatileIds ensures x in [id] + TextOrder.InOrder(s.volatileIds - {id}) {
      assert x != id ==> x in s.volatileIds - {id};
    }
  }

  lemma BeginIsWindow(s: BotState, id: string, lease: nat, now: nat, disk: Disk)
    ensures var s' := Begin(s, id, lease, now, disk).0; var handed := Handed(s, OpBegin(id, lease), now, disk);
      && s'.order == AddAll(s.order, s.maxIds, handed)
      && (forall x :: x in s.volatileIds ==> x in s'.volatileIds || x in handed)
  {
    var p := Prune(s, now);
    if id !in p.ids && id in p.volatileIds {
      CompleteIsWindow(p, id, now);
    } else {
      TextOrder.InOrderLists(s.volatileIds);
    }
  }

  // ----- processed messages stay processed -----

  ghost predicate Recorded(s: BotState, x: string) {
    x in s.ids || x in s.volatileIds
  }

  /** Between two states `x` was pushed out of a full window: the window holds as many other ids as it
      can, all appended after `x`. */
  ghost predicate PushedOut(s: BotState, s': BotState, pushed: seq<string>, x: string) {
    var all := s.order + pushed;
    && s'.order == LastN(all, s.maxIds) && |s'.order| == s.maxIds
    && Distinct(s'.order) && x !in s'.order
    && exists p :: 0 <= p < |all| - s.maxIds && all[p] == x
  }

  /** The recorded ids shrink only when the full window pushes its oldest out. */
  lemma ForgottenOnlyWhenPushedOut(s: BotState, op: Op, now: nat, disk: Disk, x: string)
    requires StoreOk(s) && Recorded(s, x) && !Recorded(After(s, op, now, disk), x)
    ensures PushedOut(s, After(s, op, now, disk), Pushed(s.order, s.maxIds, Handed(s, op, now, disk)), x)
  {
    var s' := After(s, op, now, disk);
    var handed := Handed(s, op, now, disk);
    OperationsKeepStore(s, op, now, disk);
    OperationIsWindow(s, op, now, disk);
    AddAllIsWindow(s.order, s.maxIds, handed);
    var all := s.order + Pushed(s.order, s.maxIds, handed);
    if x in handed {
      AllPushed(s.order, s.maxIds, handed, x);
    }
    assert x in all;
    var p :| 0 <= p < |all| && all[p] == x;
    assert |all| > s.maxIds && p < |all| - s.maxIds by { NotInLastN(all, s.maxIds, p); }
  }

  lemma NotInLastN(all: seq<string>, n: nat, p: nat)
    requires p < |all| && all[p] !in LastN(all, n)
    ensures |all| > n && p < |all| - n
  {
  }

  /** A recorded message is never started. */
  lemma RecordedIsNotStarted(s: BotState, id: string, lease: nat, now: nat, disk: Disk)
    requires Recorded(s, id)
    ensures Begin(s, id, lease, now, disk).1 != Ok(Started)
  {
  }

  /** Once a reply was accepted, or may have been: the message is completed, and marked in memory if
      that could not be saved. */
  ghost function AfterReply(s: BotState, id: string, now: nat, disk: Disk): BotState {
    var (t, r) := Complete(s, id, now, disk);
    if r.Ok? then t else MarkVolatile(t, id, now)
  }

  /** Either way the message is recorded, unless ids that were waiting to be saved, and are appended behind
      it by the same write, fill the window at once. */
  lemma ReplyIsRecorded(s: BotState, id: string, now: nat, disk: Disk)
    requires StoreOk(s)
    ensures StoreOk(AfterReply(s, id, now, disk))
    ensures var s' := AfterReply(s, id, now, disk);
      Recorded(s', id)
      || PushedOut(s, s', Pushed(s.order, s.maxIds, Handed(s, OpComplete(id), now, disk)), id)
  {
    OperationsKeepStore(s, OpComplete(id), now, disk);
    if disk.Saved? {
      var handed := Handed(s, OpComplete(id), now, disk);
      OperationIsWindow(s, OpComplete(id), now, disk);
      AddAllIsWindow(s.order, s.maxIds, handed);
      AllPushed(s.order, s.maxIds, handed, id);
      var all := s.order + Pushed(s.order, s.maxIds, handed);
      var p :| 0 <= p < |all| && all[p] == id;
      if id !in LastN(all, s.maxIds) {
        NotInLastN(all, s.maxIds, p);
      }
    }
  }

  // ----- runs -----

  datatype Moment = Moment(op: Op, now: nat, disk: Disk)

  ghost predicate Run(states: seq<BotState>, moments: seq<Moment>) {
    && |states| == |moments| + 1 && StoreOk(states[0])
    && forall i {:trigger moments[i]} :: 0 <= i < |moments| ==>
         states[i + 1] == After(states[i], moments[i].op, moments[i].now, moments[i].disk)
  }

  lemma {:induction false} RunKeepsStore(states: seq<BotState>, moments: seq<Moment>, n: nat)
    requires Run(states, moments) && n < |states|
    ensures StoreOk(states[n])
  {
    if n > 0 {
      RunKeepsStore(states, moments, n - 1);
      var m := moments[n - 1];
      OperationsKeepStore(states[n - 1], m.op, m.now, m.disk);
    }
  }

  /** At step `i` the message was pushed out of the full window. */
  ghost predicate ForgottenAt(states: seq<BotState>, moments: seq<Moment>, x: string, i: nat)
    requires i < |moments| < |states|
  {
    var m := moments[i];
    PushedOut(states[i], states[i + 1], Pushed(states[i].order, states[i].maxIds, Handed(states[i], m.op, m.now, m.disk)), x)
  }

  lemma {:induction false} StillRecordedOrForgotten(states: seq<BotState>, moments: seq<Moment>, x: string, n: nat)
    requires Run(states, moments) && n < |states| && Recorded(states[0], x)
    ensures Recorded(states[n], x) || exists i :: 0 <= i < n && ForgottenAt(states, moments, x, i)
  {
    if n > 0 {
      StillRecordedOrForgotten(states, moments, x, n - 1);
      var m := moments[n - 1];
      RunKeepsStore(states, moments, n - 1);
      if Recorded(states[n - 1], x) && !Recorded(states[n], x) {
        ForgottenOnlyWhenPushedOut(states[n - 1], m.op, m.now, m.disk, x);
        assert ForgottenAt(states, moments, x, n - 1);
      }
    }
  }

  /** If a recorded message is started again, then at some step before that a full window of other ids,
      all appended to the queue behind it, had pushed it out. */
  lemma RestartedOnlyAfterEviction(states: seq<BotState>, moments: seq<Moment>, x: string, n: nat, lease: nat)
    requires Run(states, moments) && n < |moments| && Recorded(states[0], x)
    requires moments[n].op == OpBegin(x, lease)
    requires Begin(states[n], x, lease, moments[n].now, moments[n].disk).1 == Ok(Started)
    ensures exists i :: 0 <= i < n && ForgottenAt(states, moments, x, i)
  {
    StillRecordedOrForgotten(states, moments, x, n);
    if Recorded(states[n], x) {
      RecordedIsNotStarted(states[n], x, lease, moments[n].now, moments[n].disk);
    }
  }
}
