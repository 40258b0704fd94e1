// When exactly the bot forgets that it has processed a message: the queue of processed ids is a window
// over everything ever appended to it, and ids that could not be saved are appended behind ids that
// were recorded after them.

module BotHistory {
  import opened Wrappers
  import opened BotStore
  import opened BotGuarantees
  import BotGuards
  import TextOrder

  // ----- places in a sequence -----

  /** How many elements follow the last occurrence of `x`. */
  function Since(h: seq<string>, x: string): nat {
    if h == [] || h[|h| - 1] == x then 0 else 1 + Since(h[..|h| - 1], x)
  }

  lemma {:induction false} InLastN(h: seq<string>, n: nat, x: string)
    ensures x in LastN(h, n) <==> x in h && Since(h, x) < n
  {
    if h != [] && n > 0 {
      var init, last := h[..|h| - 1], h[|h| - 1];
      assert h == init + [last];
      assert LastN(h, n) == LastN(init, n - 1) + [last];
      if x != last {
        InLastN(init, n - 1, x);
      }
    }
  }

  lemma {:induction false} SinceAppended(h: seq<string>, more: seq<string>, x: string)
    requires x !in more
    ensures Since(h + more, x) == Since(h, x) + |more|
  {
    if more == [] {
      assert h + more == h;
    } else {
      var init := more[..|more| - 1];
      assert (h + more)[..|h + more| - 1] == h + init;
      SinceAppended(h, init, x);
    }
  }

  // ----- one reply -----

  /** The ids still waiting to be saved, other than the message's own, in the order they are absorbed. */
  ghost function Waiting(s: BotState, id: string): seq<string> {
    TextOrder.InOrder(s.volatileIds - {id})
  }

  lemma {:induction false} PushedAreAdded(order: seq<string>, maxIds: nat, added: seq<string>, x: string)
    requires x in Pushed(order, maxIds, added)
    ensures x in added
    decreases |added|
  {
    if x != added[0] {
      PushedAreAdded(AddProcessed(order, maxIds, added[0]), maxIds, added[1..], x);
    }
  }

  /** Once a reply was accepted, or may have been, the message counts as processed exactly if the state
      could not be written, or what is queued behind it then leaves it within the window. */
  lemma ReplyIsRecordedIff(s: BotState, id: string, now: nat, disk: Disk)
    requires StoreOk(s)
    ensures var queued := AddProcessed(s.order, s.maxIds, id);
      Recorded(AfterReply(s, id, now, disk), id)
      <==> !disk.Saved? || Since(queued, id) + |Pushed(queued, s.maxIds, Waiting(s, id))| < s.maxIds
  {
    if disk.Saved? {
      var queued := AddProcessed(s.order, s.maxIds, id);
      var pushed := Pushed(queued, s.maxIds, Waiting(s, id));
      AddProcessedOk(s.order, s.maxIds, id);
      AddAllIsWindow(queued, s.maxIds, Waiting(s, id));
      TextOrder.InOrderLists(s.volatileIds - {id});
      if id in pushed {
        PushedAreAdded(queued, s.maxIds, Waiting(s, id), id);
      }
      OperationsKeepStore(s, OpComplete(id), now, disk);
      InLastN(queued + pushed, s.maxIds, id);
      SinceAppended(queued, pushed, id);
      InLastN(s.order + [id], s.maxIds, id);
    }
  }

  lemma {:induction false} AllArePushed(order: seq<string>, maxIds: nat, added: seq<string>)
    requires Distinct(added) && forall x :: x in added ==> x !in order
    ensures Pushed(order, maxIds, added) == added
    decreases |added|
  {
    if added != [] {
      var next, rest := AddProcessed(order, maxIds, added[0]), added[1..];
      assert added == [added[0]] + rest;
      forall x | x in rest ensures x !in next {
        assert x !in order + [added[0]];
      }
      AllArePushed(next, maxIds, rest);
    }
  }

  lemma {:induction false} InOrderSize(s: set<string>)
    ensures |TextOrder.InOrder(s)| == |s|
  {
    if s != {} {
      InOrderSize(s - {TextOrder.Least(s)});
    }
  }

  /** Ids waiting to be saved are not in the queue. */
  ghost predicate Apart(s: BotState) {
    forall x :: x in s.volatileIds ==> x !in s.order
  }

  lemma WaitingIsPushed(s: BotState, id: string)
    requires Apart(s)
    ensures Pushed(AddProcessed(s.order, s.maxIds, id), s.maxIds, Waiting(s, id)) == Waiting(s, id)
    ensures |Waiting(s, id)| == |s.volatileIds - {id}| && id !in Waiting(s, id)
  {
    var queued := AddProcessed(s.order, s.maxIds, id);
    TextOrder.InOrderLists(s.volatileIds - {id});
    forall x | x in Waiting(s, id) ensures x !in queued {
      assert x !in s.order + [id];
    }
    AllArePushed(queued, s.maxIds, Waiting(s, id));
    InOrderSize(s.volatileIds - {id});
  }

  /** For a message that was not processed before: exactly if the state could not be written, or fewer
      other ids than the window holds are waiting to be saved. */
  lemma FreshReplyIsRecordedIff(s: BotState, id: string, now: nat, disk: Disk)
    requires StoreOk(s) && Apart(s) && id !in s.order
    ensures Recorded(AfterReply(s, id, now, disk), id) <==> !disk.Saved? || |s.volatileIds - {id}| < s.maxIds
  {
    ReplyIsRecordedIff(s, id, now, disk);
    WaitingIsPushed(s, id);
    if s.maxIds > 0 {
      var queued := AddProcessed(s.order, s.maxIds, id);
      assert queued[|queued| - 1] == id;
    }
  }

  /** Waiting ids stay out of the queue as long as guards resolve before their leases run out. */
  lemma StepKeepsApart(sys: BotGuards.System, step: BotGuards.Step)
    requires BotGuards.SystemOk(sys) && BotGuards.Enabled(sys, step) && Apart(sys.store)
    ensures Apart(BotGuards.Take(sys, step).store)
  {
    if !step.Start? {
      assert sys.guards[step.k] in sys.guards;
      assert BotGuards.Holding(sys.store, sys.guards[step.k].id);
    }
  }

  lemma {:induction false} ApartInRuns(states: seq<BotGuards.System>, steps: seq<BotGuards.Step>, n: nat)
    requires BotGuards.Run(states, steps) && n < |states| && Apart(states[0].store)
    ensures Apart(states[n].store)
  {
    if n > 0 {
      ApartInRuns(states, steps, n - 1);
      BotGuards.OneGuardPerMessage(states, steps, n - 1);
      assert BotGuards.Enabled(states[n - 1], steps[n - 1]);
      StepKeepsApart(states[n - 1], steps[n - 1]);
    }
  }

  // ----- whole runs -----

  ghost function PushedAt(states: seq<BotState>, moments: seq<Moment>, i: nat): seq<string>
    requires i < |moments| < |states|
  {
    var m := moments[i];
    Pushed(states[i].order, states[i].maxIds, Handed(states[i], m.op, m.now, m.disk))
  }

  /** Everything appended to the queue in the steps from `low` on, before `high`. */
  ghost function Appended(states: seq<BotState>, moments: seq<Moment>, low: nat, high: nat): seq<string>
    requires low <= high <= |moments| < |states|
  {
    if high == low then [] else Appended(states, moments, low, high - 1) + PushedAt(states, moments, high - 1)
  }

  lemma OneStepIsWindow(s: BotState, op: Op, now: nat, disk: Disk)
    requires StoreOk(s)
    ensures var s' := After(s, op, now, disk);
      && s'.maxIds == s.maxIds
      && s'.order == LastN(s.order + Pushed(s.order, s.maxIds, Handed(s, op, now, disk)), s.maxIds)
  {
    OperationsKeepStore(s, op, now, disk);
    OperationIsWindow(s, op, now, disk);
    AddAllIsWindow(s.order, s.maxIds, Handed(s, op, now, disk));
  }

  lemma StepIsWindow(states: seq<BotState>, moments: seq<Moment>, i: nat)
    requires Run(states, moments) && i < |moments|
    ensures states[i + 1].maxIds == states[i].maxIds
    ensures states[i + 1].order == LastN(states[i].order + PushedAt(states, moments, i), states[i].maxIds)
  {
    RunKeepsStore(states, moments, i);
    OneStepIsWindow(states[i], moments[i].op, moments[i].now, moments[i].disk);
  }

  lemma WindowOfWindow(order: seq<string>, added: seq<string>, pushed: seq<string>, n: nat)
    ensures LastN(LastN(order + added, n) + pushed, n) == LastN(order + (added + pushed), n)
  {
    LastNOfLastN(order + added, pushed, n);
    assert order + added + pushed == order + (added + pushed);
  }

  lemma OneMorePush(states: seq<BotState>, moments: seq<Moment>, low: nat, high: nat, n: nat)
    requires low < high <= |moments| < |states|
    requires states[high - 1].order == LastN(states[low].order + Appended(states, moments, low, high - 1), n)
    requires states[high].order == LastN(states[high - 1].order + PushedAt(states, moments, high - 1), n)
    ensures states[high].order == LastN(states[low].order + Appended(states, moments, low, high), n)
  {
    WindowOfWindow(states[low].order, Appended(states, moments, low, high - 1), PushedAt(states, moments, high - 1), n);
  }

  ghost predicate Windows(states: seq<BotState>, moments: seq<Moment>, n: nat) {
    && |states| == |moments| + 1
    && (forall i :: 0 <= i < |states| ==> |states[i].order| <= n)
    && (forall i {:trigger PushedAt(states, moments, i)} :: 0 <= i < |moments| ==>
          states[i + 1].order == LastN(states[i].order + PushedAt(states, moments, i), n))
  }

  lemma {:induction false} WindowsCompose(states: seq<BotState>, moments: seq<Moment>, low: nat, high: nat, n: nat)
    requires Windows(states, moments, n) && low <= high < |states|
    ensures states[high].order == LastN(states[low].order + Appended(states, moments, low, high), n)
    decreases high
  {
    if high == low {
      assert states[low].order + [] == states[low].order;
    } else {
      WindowsCompose(states, moments, low, high - 1, n);
      assert states[high].order == LastN(states[high - 1].order + PushedAt(states, moments, high - 1), n);
      OneMorePush(states, moments, low, high, n);
    }
  }

  /** In every run the queue is the window over everything appended so far. */
  lemma QueueIsWindow(states: seq<BotState>, moments: seq<Moment>, low: nat, high: nat)
    requires Run(states, moments) && low <= high < |states|
    ensures states[high].order == LastN(states[low].order + Appended(states, moments, low, high), states[low].maxIds)
    ensures states[high].maxIds == states[low].maxIds == states[0].maxIds
  {
    forall i | 0 <= i < |states| ensures states[i].maxIds == states[0].maxIds && |states[i].order| <= states[0].maxIds {
      SameLimit(states, moments, i);
    }
    forall i | 0 <= i < |moments|
      ensures states[i + 1].order == LastN(states[i].order + PushedAt(states, moments, i), states[0].maxIds)
    {
      StepIsWindow(states, moments, i);
    }
    WindowsCompose(states, moments, low, high, states[0].maxIds);
  }

  lemma {:induction false} SameLimit(states: seq<BotState>, moments: seq<Moment>, i: nat)
    requires Run(states, moments) && i < |states|
    ensures states[i].maxIds == states[0].maxIds && |states[i].order| <= states[0].maxIds
  {
    RunKeepsStore(states, moments, i);
    if i > 0 {
      SameLimit(states, moments, i - 1);
      StepIsWindow(states, moments, i - 1);
    }
  }

  /** In every run, a message counts as processed exactly if it waits to be saved, or fewer ids than the
      window holds have been appended after it was appended last. */
  lemma RecordedIffRecent(states: seq<BotState>, moments: seq<Moment>, x: string, n: nat)
    requires Run(states, moments) && n < |states|
    ensures var history := states[0].order + Appended(states, moments, 0, n);
      Recorded(states[n], x) <==> x in states[n].volatileIds || (x in history && Since(history, x) < states[0].maxIds)
  {
    QueueIsWindow(states, moments, 0, n);
    RunKeepsStore(states, moments, n);
    InLastN(states[0].order + Appended(states, moments, 0, n), states[0].maxIds, x);
  }

  /** Nothing in the steps from `low` on, before `high`, records the message anew. */
  ghost predicate NotRecordedAgain(moments: seq<Moment>, x: string, low: nat, high: nat)
    requires low <= high <= |moments|
  {
    forall i {:trigger moments[i]} :: low <= i < high ==>
      moments[i].op != OpComplete(x) && moments[i].op != OpMarkVolatile(x)
  }

  lemma NotHandedAgain(s: BotState, op: Op, now: nat, disk: Disk, x: string)
    requires x !in s.volatileIds && op != OpComplete(x) && op != OpMarkVolatile(x)
    ensures x !in Handed(s, op, now, disk) && x !in After(s, op, now, disk).volatileIds
  {
    TextOrder.InOrderLists(s.volatileIds);
    TextOrder.InOrderLists(s.volatileIds - {op.id});
  }

  lemma {:induction false} NotAppendedAgain(states: seq<BotState>, moments: seq<Moment>, x: string, low: nat, high: nat)
    requires Run(states, moments) && low <= high < |states|
    requires x !in states[low].volatileIds && NotRecordedAgain(moments, x, low, high)
    ensures x !in states[high].volatileIds && x !in Appended(states, moments, low, high)
    decreases high
  {
    if high > low {
      NotAppendedAgain(states, moments, x, low, high - 1);
      var s, m := states[high - 1], moments[high - 1];
      NotHandedAgain(s, m.op, m.now, m.disk, x);
      if x in PushedAt(states, moments, high - 1) {
        PushedAreAdded(s.order, s.maxIds, Handed(s, m.op, m.now, m.disk), x);
      }
    }
  }

  /** What saving a completed message appends: itself, then the ids that were waiting. */
  lemma CompletionAppends(s: BotState, x: string, now: nat)
    requires StoreOk(s) && Apart(s) && x !in s.order
    ensures Pushed(s.order, s.maxIds, Handed(s, OpComplete(x), now, Saved)) == [x] + Waiting(s, x)
    ensures After(s, OpComplete(x), now, Saved).volatileIds == {}
  {
    WaitingIsPushed(s, x);
    assert ([x] + Waiting(s, x))[1..] == Waiting(s, x);
  }

  lemma InWindowIff(order: seq<string>, x: string, behind: seq<string>, later: seq<string>, n: nat)
    requires x !in behind && x !in later
    ensures x in LastN(LastN(order + ([x] + behind), n) + later, n) <==> |behind| + |later| < n
  {
    WindowOfWindow(order, [x] + behind, later, n);
    assert order + (([x] + behind) + later) == order + [x] + (behind + later);
    InLastN(order + [x] + (behind + later), n, x);
    SinceAppended(order + [x], behind + later, x);
  }

  /** After a completion that was saved in step `i`, the message counts as processed exactly as long as the
      ids that were waiting then and the ids appended since are together fewer than the window holds: the
      ids it takes to forget it are those the window holds less those that were waiting. */
  lemma SavedCompletionIsRememberedIff(states: seq<BotState>, moments: seq<Moment>, x: string, i: nat, n: nat)
    requires Run(states, moments) && i < n < |states|
    requires moments[i].op == OpComplete(x) && moments[i].disk == Saved
    requires Apart(states[i]) && x !in states[i].order && NotRecordedAgain(moments, x, i + 1, n)
    ensures Recorded(states[n], x)
            <==> |states[i].volatileIds - {x}| + |Appended(states, moments, i + 1, n)| < states[i].maxIds
  {
    var s := states[i];
    RunKeepsStore(states, moments, i);
    RunKeepsStore(states, moments, n);
    CompletionAppends(s, x, moments[i].now);
    WaitingIsPushed(s, x);
    StepIsWindow(states, moments, i);
    NotAppendedAgain(states, moments, x, i + 1, n);
    QueueIsWindow(states, moments, i + 1, n);
    InWindowIff(s.order, x, Waiting(s, x), Appended(states, moments, i + 1, n), s.maxIds);
  }

  /** And then it is started again exactly if it is not remembered any more, no lease on it is left and the
      state can be written. */
  lemma SavedCompletionIsRestartedIff(states: seq<BotState>, moments: seq<Moment>, x: string, i: nat, n: nat, lease: nat)
    requires Run(states, moments) && i < n < |moments|
    requires moments[i].op == OpComplete(x) && moments[i].disk == Saved && moments[n].op == OpBegin(x, lease)
    requires Apart(states[i]) && x !in states[i].order && NotRecordedAgain(moments, x, i + 1, n)
    ensures Begin(states[n], x, lease, moments[n].now, moments[n].disk).1 == Ok(Started)
            <==> && |states[i].volatileIds - {x}| + |Appended(states, moments, i + 1, n)| >= states[i].maxIds
                 && (x in states[n].attempts ==> states[n].attempts[x] <= moments[n].now)
                 && moments[n].disk.Saved?
  {
    SavedCompletionIsRememberedIff(states, moments, x, i, n);
    RunKeepsStore(states, moments, n);
    BotGuards.StartedIffFree(states[n], x, lease, moments[n].now, moments[n].disk);
  }

  // ----- instances -----

  /** A message can be forgotten by the very write that saves it, and started again at once. */
  lemma ForgottenAtOnce()
    ensures var s := BotState({}, [], map["x" := 5], {"x"}, {"z"}, 1);
      var replied := AfterReply(s, "x", 0, Saved);
      && StoreOk(s) && !Recorded(replied, "x")
      && Begin(replied, "x", 1, 0, Saved).1 == Ok(Started)
  {
    var s := BotState({}, [], map["x" := 5], {"x"}, {"z"}, 1);
    var replied := AfterReply(s, "x", 0, Saved);
    assert s.volatileIds - {"x"} == {"z"};
    FreshReplyIsRecordedIff(s, "x", 0, Saved);
    OperationsKeepStore(s, OpComplete("x"), 0, Saved);
    BotGuards.StartedIffFree(replied, "x", 1, 0, Saved);
  }

  /** With room for two, one later message can be enough. */
  lemma ForgottenAfterOne()
    ensures var s := BotState({}, [], map["x" := 5], {"x"}, {"z"}, 2);
      var replied := AfterReply(s, "x", 0, Saved);
      var later := After(replied, OpComplete("y"), 0, Saved);
      && StoreOk(s) && Recorded(replied, "x") && !Recorded(later, "x")
      && Begin(later, "x", 1, 0, Saved).1 == Ok(Started)
  {
    var s := BotState({}, [], map["x" := 5], {"x"}, {"z"}, 2);
    assert s.volatileIds - {"x"} == {"z"};
    FreshReplyIsRecordedIff(s, "x", 0, Saved);
    OneLaterIsEnough(s);
  }

  lemma OneLaterIsEnough(s: BotState)
    requires s == BotState({}, [], map["x" := 5], {"x"}, {"z"}, 2)
    ensures var replied := AfterReply(s, "x", 0, Saved); var later := After(replied, OpComplete("y"), 0, Saved);
      && !Recorded(later, "x") && Begin(later, "x", 1, 0, Saved).1 == Ok(Started)
  {
    var replied := AfterReply(s, "x", 0, Saved);
    var later := After(replied, OpComplete("y"), 0, Saved);
    var states := [s, replied, later];
    var moments := [Moment(OpComplete("x"), 0, Saved), Moment(OpComplete("y"), 0, Saved)];
    assert s.volatileIds - {"x"} == {"z"};
    OneStepIsWindow(s, OpComplete("x"), 0, Saved);
    CompletionAppends(s, "x", 0);
    OnlyWaiting();
    CompletionAppends(replied, "y", 0);
    assert Appended(states, moments, 1, 2) == [] + PushedAt(states, moments, 1);
    SavedCompletionIsRememberedIff(states, moments, "x", 0, 2);
    OperationsKeepStore(replied, OpComplete("y"), 0, Saved);
    BotGuards.StartedIffFree(later, "x", 1, 0, Saved);
  }

  lemma OnlyWaiting()
    ensures TextOrder.InOrder({"z"}) == ["z"]
  {
    TextOrder.LeastIsUnique("z", {"z"});
    assert {"z"} - {"z"} == {};
  }
}
