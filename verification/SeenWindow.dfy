// The bounded window of already seen message ids (`SeenMessageIds` in src/realtime.rs).

module SeenWindow {
  import opened Wrappers

  type MessageId = string

  /** The ids a truncated window keeps: its newest ones, never fewer than one. */
  function Truncated(order: seq<MessageId>, maxIds: nat): seq<MessageId> {
    if |order| > AtLeastOne(maxIds) then order[..AtLeastOne(maxIds)] else order
  }

  /** One id put at the front, unless it is already there. */
  function RememberOne(order: seq<MessageId>, id: MessageId, maxIds: nat): seq<MessageId> {
    Truncated(if id in order then order else [id] + order, maxIds)
  }

  /** A newest-first batch of ids, taken in from its oldest end. */
  function Remember(order: seq<MessageId>, newIds: seq<MessageId>, maxIds: nat): seq<MessageId> {
    if newIds == [] then order
    else RememberOne(Remember(order, newIds[1..], maxIds), newIds[0], maxIds)
  }

  /** Remembering ids never seen before is prepending them and cutting the oldest ones off. */
  lemma {:induction false} RememberFresh(order: seq<MessageId>, newIds: seq<MessageId>, maxIds: nat)
    requires Distinct(newIds + order)
    requires |order| <= AtLeastOne(maxIds)
    ensures Remember(order, newIds, maxIds) == Truncated(newIds + order, maxIds)
  {
    if newIds == [] {
      assert newIds + order == order;
    } else {
      var rest := newIds[1..];
      assert rest + order == (newIds + order)[1..];
      RememberFresh(order, rest, maxIds);
      var kept := Remember(order, rest, maxIds);
      assert newIds + order == [newIds[0]] + (rest + order);
      forall k | 0 <= k < |kept| ensures kept[k] != newIds[0] {
        assert kept[k] == (rest + order)[k] == (newIds + order)[k + 1];
        assert newIds[0] == (newIds + order)[0];
      }
    }
  }

  /** Whatever is remembered, the window stays duplicate-free and within its limit. */
  lemma {:induction false} RememberKeepsWindow(order: seq<MessageId>, newIds: seq<MessageId>, maxIds: nat)
    requires Distinct(order)
    ensures Distinct(Remember(order, newIds, maxIds))
    ensures newIds != [] || |order| <= AtLeastOne(maxIds)
            ==> |Remember(order, newIds, maxIds)| <= AtLeastOne(maxIds)
    ensures newIds != [] || order != [] ==> Remember(order, newIds, maxIds) != []
  {
    if newIds != [] {
      RememberKeepsWindow(order, newIds[1..], maxIds);
    }
  }

  /** Ids that are in the window already leave it as it is. */
  lemma {:induction false} RememberKnown(order: seq<MessageId>, newIds: seq<MessageId>, maxIds: nat)
    requires |order| <= AtLeastOne(maxIds) && forall id :: id in newIds ==> id in order
    ensures Remember(order, newIds, maxIds) == order
  {
    if newIds != [] {
      RememberKnown(order, newIds[1..], maxIds);
    }
  }

  /** Feeding a window its own contents rebuilds it. */
  lemma Reseed(order: seq<MessageId>, maxIds: nat)
    requires Distinct(order)
    ensures Remember([], order, maxIds) == Truncated(order, maxIds)
  {
  }

  class SeenMessageIds {
    var ids: set<MessageId>
    var order: seq<MessageId>

    /** The hash set and the queue hold the same ids, each once. */
    ghost predicate Valid()
      reads this
    {
      Distinct(order) && ids == Elements(order)
    }

    constructor ()
      ensures Valid() && order == []
    {
      ids, order := {}, [];
    }

    constructor Clone(other: SeenMessageIds)
      requires other.Valid()
      ensures Valid() && order == other.order
    {
      ids, order := other.ids, other.order;
    }

    method RememberNewestFirst(newIds: seq<MessageId>, maxIds: nat)
      requires Valid()
      modifies this
      ensures Valid()
      ensures order == Remember(old(order), newIds, maxIds)
    {
      var i := |newIds|;
      while i > 0
        invariant 0 <= i <= |newIds|
        invariant Valid()
        invariant order == Remember(old(order), newIds[i..], maxIds)
      {
        i := i - 1;
        assert newIds[i..][1..] == newIds[i + 1..];
        var id := newIds[i];
        if id !in ids {
          ids := ids + {id};
          order := [id] + order;
        }
        Truncate(maxIds);
      }
    }

    method Truncate(maxIds: nat)
      requires Valid()
      modifies this
      ensures Valid()
      ensures order == Truncated(old(order), maxIds)
    {
      CountsAgree(order);
      while |ids| > AtLeastOne(maxIds)
        invariant Distinct(order) && ids == Elements(order) && |ids| == |order|
        invariant |order| <= |old(order)| && order == old(order)[..|order|]
        invariant |order| == |old(order)| || |order| >= AtLeastOne(maxIds)
      {
        var stale := order[|order| - 1];
        WithoutLast(order);
        order := order[..|order| - 1];
        ids := ids - {stale};
      }
    }
  }

  lemma WithoutLast(s: seq<MessageId>)
    requires Distinct(s) && s != []
    ensures var init := s[..|s| - 1];
      Distinct(init) && Elements(init) == Elements(s) - {s[|s| - 1]} && |Elements(init)| == |init|
  {
    CountsAgree(s[..|s| - 1]);
  }

  /** A duplicate-free sequence has as many elements as its set. */
  lemma {:induction false} CountsAgree(s: seq<MessageId>)
    requires Distinct(s)
    ensures |Elements(s)| == |s|
  {
    if s != [] {
      var init, last := s[..|s| - 1], s[|s| - 1];
      CountsAgree(init);
      assert Elements(s) == Elements(init) + {last};
    }
  }
}
