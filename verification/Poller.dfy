// The room poller and its page scan in the source's own form (`MessagePoller`,
// `collect_page_messages` in src/realtime.rs), proved against PollerModel.dfy.

module Poller {
  import opened Wrappers
  import opened SeenWindow
  import opened PollerModel

  method CollectPageMessages(seen: SeenMessageIds, items: seq<Message>, initialized: bool,
                             emitExisting: bool, localSeenIds: set<MessageId>)
    returns (unseen: seq<Message>, newIds: seq<MessageId>, sawKnown: bool, local: set<MessageId>)
    requires seen.Valid()
    ensures Collected(unseen, newIds, sawKnown)
            == Collect(seen.order, items, initialized, emitExisting, localSeenIds)
    ensures local == localSeenIds + Elements(newIds)
  {
    unseen, newIds, sawKnown, local := [], [], false, localSeenIds;
    ghost var whole := Collect(seen.order, items, initialized, emitExisting, localSeenIds);
    for i := 0 to |items|
      invariant local == localSeenIds + Elements(newIds)
      invariant var rest := Collect(seen.order, items[i..], initialized, emitExisting, local);
        whole == Collected(unseen + rest.unseen, newIds + rest.newIds, sawKnown || rest.sawKnown)
    {
      var message := items[i];
      assert items[i..][1..] == items[i + 1..];
      if message.id.None? {
        continue;
      }
      var id := message.id.value;
      if id in seen.ids {
        sawKnown := true;
        if initialized {
          assert unseen + [] == unseen && newIds + [] == newIds;
          break;
        }
        continue;
      }
      if id in local {
        continue;
      }
      local := local + {id};
      newIds := newIds + [id];
      if initialized || emitExisting {
        unseen := unseen + [message];
      }
    }
    assert unseen + [] == unseen && newIds + [] == newIds;
  }

  class MessagePoller {
    var config: PollingConfig
    var seen: SeenMessageIds
    var backlogNext: Option<Cursor>
    var pendingFresh: seq<Message>
    var pendingSeenIds: seq<MessageId>
    var initialized: bool
    var seedSeenMessageIds: Option<seq<MessageId>>

    ghost predicate Valid()
      reads this, seen
    {
      seen.Valid()
    }

    ghost function View(): PollerState
      reads this, seen
    {
      PollerState(config, seen.order, backlogNext, pendingFresh, pendingSeenIds, initialized,
                  seedSeenMessageIds)
    }

    constructor (config: PollingConfig)
      ensures Valid() && fresh(seen)
      ensures View() == NewPoller(config)
    {
      this.config := config;
      seen := new SeenMessageIds();
      backlogNext, pendingFresh, pendingSeenIds := None, [], [];
      initialized, seedSeenMessageIds := false, None;
    }

    method SetConfig(config: PollingConfig)
      requires Valid()
      modifies this, seen
      ensures Valid() && (seen == old(seen) || fresh(seen))
      ensures View() == PollerModel.SetConfig(old(View()), config)
    {
      this.config := config;
      if seedSeenMessageIds.Some? {
        ReseedSeenMessageIds(seedSeenMessageIds.value);
      } else {
        seen.Truncate(config.maxSeenIds);
      }
    }

    method ReseedSeenMessageIds(ids: seq<MessageId>)
      modifies this`seen
      ensures seen.Valid() && fresh(seen)
      ensures seen.order == Remember([], ids, config.maxSeenIds)
    {
      seen := new SeenMessageIds();
      seen.RememberNewestFirst(ids, config.maxSeenIds);
    }

    method WithSeenMessageIds(ids: seq<MessageId>)
      requires Valid()
      modifies this
      ensures Valid() && (seen == old(seen) || fresh(seen))
      ensures View() == PollerModel.WithSeenMessageIds(old(View()), ids)
    {
      if ids == [] {
        return;
      }
      seedSeenMessageIds := Some(ids);
      ReseedSeenMessageIds(ids);
      initialized := true;
    }

    method ReplaceCheckpoint(ids: seq<MessageId>, initializeEmpty: bool)
      requires Valid()
      modifies this
      ensures Valid() && fresh(seen)
      ensures View() == PollerModel.ReplaceCheckpoint(old(View()), ids, initializeEmpty)
    {
      seen := new SeenMessageIds();
      backlogNext, pendingFresh, pendingSeenIds := None, [], [];
      initialized, seedSeenMessageIds := false, None;
      if ids == [] {
        if initializeEmpty {
          initialized := true;
        }
      } else {
        seedSeenMessageIds := Some(ids);
        ReseedSeenMessageIds(ids);
        initialized := true;
      }
    }

    /** One poll against the answers the service gives, in request order.  It changes nothing. */
    method PollOnceTransaction(responses: seq<Response>) returns (r: PollResult)
      requires Valid()
      ensures r == Transaction(View(), responses)
    {
      if backlogNext.None? && pendingFresh != [] {
        return Ok(PollUpdate(Reversed(pendingFresh), pendingSeenIds, [], [], None, true, true));
      }
      var answer := NextResponse(responses);
      if answer.Failed? {
        return Err(PollError(answer.error, None));
      }
      var page := answer.page;
      var rest := Later(responses);
      var maxPages := AtLeastOne(config.maxPagesPerPoll);
      var unseen, newIds := pendingFresh, pendingSeenIds;
      var localSeenIds := Elements(newIds);
      for pageIndex := 0 to maxPages
        invariant localSeenIds == Elements(newIds)
        invariant pageIndex < maxPages ==>
          ScanPages(View(), page, maxPages - pageIndex, unseen, newIds, rest)
          == Transaction(View(), responses)
        invariant pageIndex == maxPages ==> Ok(Commit(unseen, newIds)) == Transaction(View(), responses)
      {
        var pageFresh, pageIds, sawKnown;
        pageFresh, pageIds, sawKnown, localSeenIds :=
          CollectPageMessages(seen, page.items, initialized, config.emitExistingOnFirstPoll, localSeenIds);
        unseen, newIds := unseen + pageFresh, newIds + pageIds;
        if !PendingWithinLimit(|unseen|, |newIds|, config.maxPendingMessages) {
          return Err(PollError(BACKLOG_EXCEEDED, None));
        }
        if sawKnown && initialized {
          break;
        }
        if page.next.None? {
          break;
        }
        var next := page.next.value;
        if pageIndex + 1 >= maxPages {
          if initialized || config.emitExistingOnFirstPoll {
            return Ok(PollUpdate([], [], unseen, newIds, Some(next), true, false));
          }
          break;
        }
        answer := NextResponse(rest);
        rest := Later(rest);
        if answer.Failed? {
          var update := if initialized || config.emitExistingOnFirstPoll
                        then Some(PollUpdate([], [], unseen, newIds, Some(next), true, false))
                        else None;
          return Err(PollError(answer.error, update));
        }
        page := answer.page;
      }
      return Ok(PollUpdate(Reversed(unseen), newIds, [], [], None, true, true));
    }

    method CheckpointAfterUpdate(room: RoomId, update: PollUpdate) returns (r: Option<RoomCheckpoint>)
      requires Valid()
      ensures r == PollerModel.CheckpointAfterUpdate(View(), room, update)
    {
      if !update.commitSeen {
        return None;
      }
      var copy := new SeenMessageIds.Clone(seen);
      copy.RememberNewestFirst(update.seenIds, config.maxSeenIds);
      return Some(CheckpointFromSeen(room, copy.order));
    }

    method ApplyUpdate(update: PollUpdate)
      requires Valid()
      modifies this, seen
      ensures Valid() && seen == old(seen)
      ensures View() == PollerModel.ApplyUpdate(old(View()), update)
    {
      seedSeenMessageIds := None;
      if update.commitSeen {
        seen.RememberNewestFirst(update.seenIds, config.maxSeenIds);
      }
      pendingFresh := update.pendingFresh;
      pendingSeenIds := update.pendingSeenIds;
      backlogNext := update.backlogNext;
      initialized := update.initialized;
    }

    method PollOnce(responses: seq<Response>) returns (r: Result<seq<Message>, string>)
      requires Valid()
      modifies this, seen
      ensures Valid() && seen == old(seen)
      ensures View() == AfterPoll(old(View()), Transaction(old(View()), responses))
      ensures match Transaction(old(View()), responses)
        case Ok(u) => r == Ok(u.messages)
        case Err(e) => r == Err(e.error)
    {
      var outcome := PollOnceTransaction(responses);
      match outcome {
        case Ok(update) =>
          ApplyUpdate(update);
          r := Ok(update.messages);
        case Err(e) =>
          if e.update.Some? {
            ApplyUpdate(e.update.value);
          }
          r := Err(e.error);
      }
    }
  }
}
