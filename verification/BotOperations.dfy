// What each operation of the bot's store does to its own message, to every other message and to the queue,
// said about the five collections themselves.

module BotOperations {
  import opened Wrappers
  import opened BotStore
  import BotGuarantees
  import TextOrder
  import Text

  /** The lease on the message has run out. */
  ghost predicate Lapsed(s: BotState, id: string, now: nat) {
    id in s.attempts && s.attempts[id] <= now
  }

  /** When a lease asked for now ends: at least a second later, and never after the clock's end. */
  ghost predicate EndsAt(until: nat, now: nat, lease: nat) {
    var length := if lease == 0 then 1 else lease;
    if now + length <= 0xFFFF_FFFF_FFFF_FFFF then until == now + length else until == 0xFFFF_FFFF_FFFF_FFFF
  }

  /** The message has neither a lease nor an in-flight mark. */
  ghost predicate Free(s: BotState, id: string) {
    id !in s.attempts && id !in s.inflight
  }

  /** The message keeps the lease and the mark that it had. */
  ghost predicate SameAttempt(s: BotState, s': BotState, id: string) {
    && (id in s'.attempts <==> id in s.attempts) && (id in s.attempts ==> s'.attempts[id] == s.attempts[id])
    && (id in s'.inflight <==> id in s.inflight)
  }

  /** Every other message keeps its lease and mark, unless it is freed: by a write that saves it as processed,
      and, where the operation looks at the clock, by running out. */
  ghost predicate OthersKept(s: BotState, s': BotState, id: string, now: Option<nat>, disk: Disk) {
    forall other :: other != id ==>
      if (now.Some? && Lapsed(s, other, now.value)) || (disk.Saved? && other in s.volatileIds)
      then Free(s', other) else SameAttempt(s, s', other)
  }

  /** The queue and the waiting ids: a write that succeeds appends what waits, in order, as far as it is not
      there yet, and keeps the newest; nothing else changes them. */
  ghost predicate OnlyAbsorbs(s: BotState, s': BotState, disk: Disk) {
    && s'.ids == (if disk.Saved? then Elements(s'.order) else s.ids) && s'.maxIds == s.maxIds
    && if disk.Saved? then
         && s'.volatileIds == {}
         && s'.order == LastN(s.order + BotGuarantees.Pushed(s.order, s.maxIds, TextOrder.InOrder(s.volatileIds)), s.maxIds)
       else s'.volatileIds == s.volatileIds && s'.order == s.order
  }

  lemma Absorbs(s: BotState, t: BotState, disk: Disk)
    requires |s.order| <= s.maxIds && t.order == s.order && t.volatileIds == s.volatileIds && t.ids == s.ids
    requires t.maxIds == s.maxIds
    ensures OnlyAbsorbs(s, Persisted(t, disk), disk)
  {
    BotGuarantees.AddAllIsWindow(s.order, s.maxIds, TextOrder.InOrder(s.volatileIds));
  }

  // ----- releasing -----

  /** A saved release frees the message, and changes nothing else but by absorbing what waits; a failed one
      changes nothing. */
  lemma ReleaseFrees(s: BotState, id: string, disk: Disk)
    requires |s.order| <= s.maxIds
    ensures var (s', r) := Release(s, id, disk);
      && (r.Ok? <==> disk.Saved?)
      && (r.Ok? ==> Free(s', id) && OthersKept(s, s', id, None, disk) && OnlyAbsorbs(s, s', disk))
      && (r.Err? ==> s' == s)
  {
    Absorbs(s, BotStore.Without(s, id), disk);
  }

  /** So a message that was released and is not recorded can be started at once, exactly if that can be saved. */
  lemma ReleasedStartsAgainIff(s: BotState, id: string, disk: Disk, lease: nat, now: nat, disk': Disk)
    requires |s.order| <= s.maxIds && Release(s, id, disk).1.Ok? && id !in Release(s, id, disk).0.ids
    ensures Begin(Release(s, id, disk).0, id, lease, now, disk').1 == Ok(Started) <==> disk'.Saved?
  {
    ReleaseFrees(s, id, disk);
  }

  // ----- beginning -----

  /** Beginning answers by what is known of the message, in this order: it is recorded, it waits to be saved, it
      is in flight, it is leased; otherwise it is leased for the time asked for, if that can be saved. */
  lemma BeginAnswers(s: BotState, id: string, lease: nat, now: nat, disk: Disk)
    requires |s.order| <= s.maxIds
    ensures var (s', r) := Begin(s, id, lease, now, disk); var lapsed := Lapsed(s, id, now);
      if id in s.ids then r == Ok(Processed)
      else if id in s.volatileIds then r == if disk.Saved? then Ok(ProcessedAfterPersist) else Err(PERSIST_FAILED)
      else if id in s.inflight && !lapsed then r == Ok(InProgress)
      else if id in s.attempts && !lapsed then r == Ok(AttemptLeased(s.attempts[id] - now))
      else
        && r == (if disk.Saved? then Ok(Started) else Err(PERSIST_FAILED))
        && (if disk.Saved? then id in s'.attempts && EndsAt(s'.attempts[id], now, lease) && id in s'.inflight
            else Free(s', id))
        && OthersKept(s, s', id, Some(now), disk) && OnlyAbsorbs(s, s', disk)
  {
    var p := Prune(s, now);
    Absorbs(p, Marked(p, id, LeaseUntil(now, lease)), disk);
  }

  /** Beginning a message that waits completes it, and a begin that starts nothing only drops what has run out. */
  lemma BeginOtherwise(s: BotState, id: string, lease: nat, now: nat, disk: Disk)
    ensures var (s', r) := Begin(s, id, lease, now, disk);
      && (r == Ok(ProcessedAfterPersist) ==> s' == Complete(s, id, now, disk).0)
      && (r !in {Ok(ProcessedAfterPersist), Ok(Started)} ==>
            && OthersKept(s, s', id, Some(now), NotSaved) && OnlyAbsorbs(s, s', NotSaved)
            && if Lapsed(s, id, now) then Free(s', id) else SameAttempt(s, s', id))
  {
  }

  // ----- deferring, completing and marking -----

  /** Deferring leases the message for the time asked for, saved or not, and takes its mark away. */
  lemma DeferLeases(s: BotState, id: string, lease: nat, now: nat, disk: Disk)
    requires |s.order| <= s.maxIds
    ensures var (s', r) := Defer(s, id, lease, now, disk);
      && (r.Ok? <==> disk.Saved?)
      && (if r.Ok? && id in s.volatileIds then Free(s', id)
          else id in s'.attempts && EndsAt(s'.attempts[id], now, lease) && id !in s'.inflight)
      && OthersKept(s, s', id, Some(now), disk) && OnlyAbsorbs(s, s', disk)
  {
    var t := BotStore.Without(Prune(s, now), id);
    Absorbs(s, t.(attempts := t.attempts[id := LeaseUntil(now, lease)]), disk);
  }

  /** A saved completion frees the message and appends it to the queue, ahead of what waits; a failed one
      changes nothing. */
  lemma CompleteAppends(s: BotState, id: string, now: nat, disk: Disk)
    requires |s.order| <= s.maxIds
    ensures var (s', r) := Complete(s, id, now, disk);
      && (r.Ok? <==> disk.Saved?)
      && (r.Ok? ==>
            && Free(s', id) && OthersKept(s, s', id, Some(now), disk) && s'.volatileIds == {} && s'.ids == Elements(s'.order)
            && var order := LastN(s.order + (if id in s.order then [] else [id]), s.maxIds);
               s'.order == LastN(order + BotGuarantees.Pushed(order, s.maxIds, TextOrder.InOrder(s.volatileIds - {id})), s.maxIds))
      && (r.Err? ==> s' == s)
  {
    var t := Completed(s, id, now);
    assert LastN(s.order + [], s.maxIds) == s.order;
    BotGuarantees.AddAllIsWindow(t.order, t.maxIds, TextOrder.InOrder(t.volatileIds));
  }

  /** A message that cannot be saved waits in memory, free, until a later write. */
  lemma MarkVolatileWaits(s: BotState, id: string, now: nat)
    ensures var s' := MarkVolatile(s, id, now);
      && s'.volatileIds == s.volatileIds + {id} && Free(s', id)
      && s'.order == s.order && s'.ids == s.ids && s'.maxIds == s.maxIds
      && OthersKept(s, s', id, Some(now), NotSaved)
  {
  }
}
