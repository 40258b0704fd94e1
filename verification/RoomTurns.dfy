// In which order room polls that run a few at a time can start and finish (`poll_rooms_concurrently` in
// src/realtime.rs): rooms start in a fixed order, and as many run at once as the limit allows.

module RoomTurns {
  import opened Wrappers
  import opened PollerModel

  datatype Turn = Starts(id: RoomId) | Finishes(id: RoomId)

  function Started(trace: seq<Turn>): seq<RoomId> {
    if trace == [] then []
    else
      var last := trace[|trace| - 1];
      Started(trace[..|trace| - 1]) + if last.Starts? then [last.id] else []
  }

  function Ended(trace: seq<Turn>): seq<RoomId> {
    if trace == [] then []
    else
      var last := trace[|trace| - 1];
      Ended(trace[..|trace| - 1]) + if last.Finishes? then [last.id] else []
  }

  /** At this point no more polls are running than the limit allows, and only started ones have finished. */
  ghost predicate Proper(trace: seq<Turn>, limit: nat) {
    && |Started(trace)| - |Ended(trace)| <= limit
    && forall id :: id in Ended(trace) ==> id in Started(trace)
  }

  /** At every point. */
  ghost predicate AlwaysProper(trace: seq<Turn>, limit: nat) {
    forall n :: 0 <= n <= |trace| ==> Proper(trace[..n], limit)
  }

  /** The rooms start in the order of `keys` and finish in the given order, each once, with no more than
      `limit` of them running at any time. */
  ghost predicate PollTrace(keys: seq<RoomId>, trace: seq<Turn>, order: seq<RoomId>, limit: nat) {
    Started(trace) == keys && Ended(trace) == order && AlwaysProper(trace, limit)
  }

  lemma OneMoreTurn(trace: seq<Turn>, turn: Turn, limit: nat)
    requires AlwaysProper(trace, limit)
    requires if turn.Starts? then |Started(trace)| - |Ended(trace)| < limit else turn.id in Started(trace)
    ensures AlwaysProper(trace + [turn], limit)
    ensures Started(trace + [turn]) == Started(trace) + if turn.Starts? then [turn.id] else []
    ensures Ended(trace + [turn]) == Ended(trace) + if turn.Finishes? then [turn.id] else []
  {
    var more := trace + [turn];
    assert more[..|trace|] == trace;
    assert trace[..|trace|] == trace;
    forall n | 0 <= n <= |more| ensures Proper(more[..n], limit) {
      if n <= |trace| {
        assert more[..n] == trace[..n];
      } else {
        assert more[..n] == more;
        assert Proper(trace[..|trace|], limit);
      }
    }
  }

  // ----- which orders are possible -----

  function Least(a: nat, b: nat): nat { if a < b then a else b }

  /** Each room that finishes is among the rooms started by then: as many as have finished before it, and as
      many more as may run at once. */
  ghost predicate Reachable(keys: seq<RoomId>, order: seq<RoomId>, limit: nat) {
    forall k :: 0 <= k < |order| ==> order[k] in keys[..Least(k + limit, |keys|)]
  }

  lemma {:induction false} EndedWhen(trace: seq<Turn>, k: nat) returns (n: nat)
    requires k < |Ended(trace)|
    ensures n < |trace| && trace[n] == Finishes(Ended(trace)[k]) && Ended(trace[..n]) == Ended(trace)[..k]
  {
    var init := trace[..|trace| - 1];
    if k < |Ended(init)| {
      n := EndedWhen(init, k);
      assert trace[..n] == init[..n];
      assert Ended(trace)[..k] == Ended(init)[..k];
    } else {
      n := |trace| - 1;
      assert Ended(trace)[..k] == Ended(init);
    }
  }

  lemma {:induction false} StartedPrefix(trace: seq<Turn>, n: nat)
    requires n <= |trace|
    ensures Started(trace[..n]) <= Started(trace)
  {
    if n == |trace| {
      assert trace[..n] == trace;
    } else {
      StartedPrefix(trace[..|trace| - 1], n);
      assert trace[..|trace| - 1][..n] == trace[..n];
    }
  }

  lemma TraceIsReachable(keys: seq<RoomId>, trace: seq<Turn>, order: seq<RoomId>, limit: nat)
    requires PollTrace(keys, trace, order, limit)
    ensures Reachable(keys, order, limit)
  {
    forall k | 0 <= k < |order| ensures order[k] in keys[..Least(k + limit, |keys|)] {
      var n := EndedWhen(trace, k);
      var before, through := trace[..n], trace[..n + 1];
      assert through[..|through| - 1] == before;
      assert Proper(before, limit) && Proper(through, limit);
      assert order[k] in Ended(through);
      StartedPrefix(trace, n);
      var s := |Started(before)|;
      assert order[k] in Started(before) && Started(before) == keys[..s];
      assert keys[..s] <= keys[..Least(k + limit, |keys|)];
    }
  }

  /** The trace in which a room starts whenever one may: the first ones at once, then one for each that
      finishes, until `k` have finished. */
  function Eager(keys: seq<RoomId>, order: seq<RoomId>, limit: nat, k: nat): seq<Turn>
    requires k <= |order|
  {
    if k == 0 then Starting(keys, Least(limit, |keys|))
    else Eager(keys, order, limit, k - 1) + EagerTurns(keys, order, limit, k - 1)
  }

  function EagerTurns(keys: seq<RoomId>, order: seq<RoomId>, limit: nat, k: nat): seq<Turn>
    requires k < |order|
  {
    [Finishes(order[k])] + if k + limit < |keys| then [Starts(keys[k + limit])] else []
  }

  function Starting(keys: seq<RoomId>, n: nat): seq<Turn>
    requires n <= |keys|
  {
    if n == 0 then [] else Starting(keys, n - 1) + [Starts(keys[n - 1])]
  }

  lemma {:induction false} StartingStarts(keys: seq<RoomId>, n: nat, limit: nat)
    requires n <= |keys| && n <= limit
    ensures Started(Starting(keys, n)) == keys[..n] && Ended(Starting(keys, n)) == []
    ensures AlwaysProper(Starting(keys, n), limit)
  {
    if n > 0 {
      StartingStarts(keys, n - 1, limit);
      OneMoreTurn(Starting(keys, n - 1), Starts(keys[n - 1]), limit);
      assert keys[..n] == keys[..n - 1] + [keys[n - 1]];
    }
  }

  /** `k` rooms have finished, and as many have started as may have by then. */
  ghost predicate EagerAt(keys: seq<RoomId>, order: seq<RoomId>, limit: nat, k: nat, trace: seq<Turn>)
    requires k <= |order|
  {
    Started(trace) == keys[..Least(k + limit, |keys|)] && Ended(trace) == order[..k] && AlwaysProper(trace, limit)
  }

  lemma FinishTurn(keys: seq<RoomId>, order: seq<RoomId>, limit: nat, k: nat, trace: seq<Turn>)
    requires k < |order| && EagerAt(keys, order, limit, k, trace) && order[k] in keys[..Least(k + limit, |keys|)]
    ensures var ended := trace + [Finishes(order[k])];
      Started(ended) == Started(trace) && Ended(ended) == order[..k + 1] && AlwaysProper(ended, limit)
  {
    OneMoreTurn(trace, Finishes(order[k]), limit);
    assert order[..k + 1] == order[..k] + [order[k]];
  }

  lemma StartTurn(keys: seq<RoomId>, order: seq<RoomId>, limit: nat, k: nat, ended: seq<Turn>)
    requires k < |order| && k + limit < |keys| && Started(ended) == keys[..k + limit]
    requires Ended(ended) == order[..k + 1] && AlwaysProper(ended, limit)
    ensures EagerAt(keys, order, limit, k + 1, ended + [Starts(keys[k + limit])])
  {
    OneMoreTurn(ended, Starts(keys[k + limit]), limit);
    assert keys[..k + 1 + limit] == keys[..k + limit] + [keys[k + limit]];
  }

  lemma BothTurns(keys: seq<RoomId>, order: seq<RoomId>, limit: nat, k: nat, trace: seq<Turn>)
    requires k < |order| && EagerAt(keys, order, limit, k, trace) && order[k] in keys[..Least(k + limit, |keys|)]
    ensures EagerAt(keys, order, limit, k + 1, trace + EagerTurns(keys, order, limit, k))
  {
    var ended := trace + [Finishes(order[k])];
    FinishTurn(keys, order, limit, k, trace);
    if k + limit < |keys| {
      StartTurn(keys, order, limit, k, ended);
      assert trace + EagerTurns(keys, order, limit, k) == ended + [Starts(keys[k + limit])];
    } else {
      assert trace + EagerTurns(keys, order, limit, k) == ended;
    }
  }

  lemma {:induction false} EagerIsProper(keys: seq<RoomId>, order: seq<RoomId>, limit: nat, k: nat)
    requires Reachable(keys, order, limit) && k <= |order|
    ensures EagerAt(keys, order, limit, k, Eager(keys, order, limit, k))
  {
    if k == 0 {
      StartingStarts(keys, Least(limit, |keys|), limit);
    } else {
      EagerIsProper(keys, order, limit, k - 1);
      BothTurns(keys, order, limit, k - 1, Eager(keys, order, limit, k - 1));
    }
  }

  /** The rooms can finish in an order exactly if each one that finishes was among the rooms started by
      then. */
  lemma OrderIsPossibleIff(keys: seq<RoomId>, order: seq<RoomId>, limit: nat)
    requires |order| == |keys|
    ensures (exists trace :: PollTrace(keys, trace, order, limit)) <==> Reachable(keys, order, limit)
  {
    forall trace | PollTrace(keys, trace, order, limit) ensures Reachable(keys, order, limit) {
      TraceIsReachable(keys, trace, order, limit);
    }
    if Reachable(keys, order, limit) {
      EagerIsProper(keys, order, limit, |order|);
      assert keys[..|keys|] == keys && order[..|order|] == order;
      assert PollTrace(keys, Eager(keys, order, limit, |order|), order, limit);
    }
  }
}
