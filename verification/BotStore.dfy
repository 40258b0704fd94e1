// The account bot's store of processed messages (`ProcessedMessageStore` in
// examples/account_bot.rs): a bounded first-in-first-out window of processed ids, attempt leases,
// in-flight marks, and ids that are processed but could not be saved yet.

module BotStore {
  import opened Wrappers
  import Text
  import TextOrder

  /** What the state file holds: the processed ids, oldest first, and the attempt leases. */
  datatype Image = Image(order: seq<string>, attempts: map<string, nat>)

  datatype BotState = BotState(
    ids: set<string>,
    order: seq<string>,
    attempts: map<string, nat>,
    inflight: set<string>,
    volatileIds: set<string>,
    maxIds: nat)

  /** What becomes of a write of the state file; a failed one may have replaced the file already. */
  datatype Disk = Saved | NotSaved | SavedThenFailed

  datatype BeginAttempt =
    | Started
    | Processed
    | ProcessedAfterPersist
    | InProgress
    | AttemptLeased(remaining: nat)

  const PERSIST_FAILED := "state file write failed"

  type Outcome<T> = Result<T, string>

  // ----- the bounded window -----

  /** The last `n` of a sequence. */
  function LastN(s: seq<string>, n: nat): seq<string> {
    if |s| <= n then s else s[|s| - n..]
  }

  function AddProcessed(order: seq<string>, maxIds: nat, id: string): seq<string> {
    if id in order then order else LastN(order + [id], maxIds)
  }

  function AddAll(order: seq<string>, maxIds: nat, added: seq<string>): seq<string>
    decreases |added|
  {
    if added == [] then order else AddAll(AddProcessed(order, maxIds, added[0]), maxIds, added[1..])
  }

  function WithOrder(s: BotState, order: seq<string>): BotState {
    s.(order := order, ids := Elements(order))
  }

  // ----- leases -----

  function SaturatingAdd(now: nat, seconds: nat): nat {
    if now + seconds > Text.MAX_U64 then Text.MAX_U64 else now + seconds
  }

  function SaturatingSub(a: nat, b: nat): nat {
    if a > b then a - b else 0
  }

  function LeaseUntil(now: nat, lease: nat): nat {
    SaturatingAdd(now, AtLeastOne(lease))
  }

  function Expired(s: BotState, now: nat): set<string> {
    set id | id in s.attempts && s.attempts[id] <= now
  }

  function Prune(s: BotState, now: nat): BotState {
    s.(attempts := s.attempts - Expired(s, now), inflight := s.inflight - Expired(s, now))
  }

  // ----- saving -----

  /** Ids kept only in memory join the window, in order. */
  ghost function Absorbed(s: BotState): BotState {
    WithOrder(s, AddAll(s.order, s.maxIds, TextOrder.InOrder(s.volatileIds)))
      .(inflight := s.inflight - s.volatileIds, attempts := s.attempts - s.volatileIds, volatileIds := {})
  }

  function ImageOf(s: BotState): Image {
    Image(s.order, s.attempts)
  }

  /** Saving: all volatile ids are absorbed, or nothing changes in memory. */
  ghost function Persisted(s: BotState, disk: Disk): BotState {
    if disk.Saved? then Absorbed(s) else s
  }

  /** What is in the file afterwards, if it was written at all. */
  ghost function FileAfter(s: BotState, disk: Disk, file: Image): Image {
    if disk.NotSaved? then file else ImageOf(Absorbed(s))
  }

  // ----- the operations -----

  function Marked(s: BotState, id: string, until: nat): BotState {
    s.(inflight := s.inflight + {id}, attempts := s.attempts[id := until])
  }

  function Without(s: BotState, id: string): BotState {
    s.(inflight := s.inflight - {id}, attempts := s.attempts - {id})
  }

  /** The state a completed message leaves, before saving. */
  function Completed(s: BotState, id: string, now: nat): BotState {
    var t := Without(Prune(s, now), id).(volatileIds := s.volatileIds - {id});
    WithOrder(t, AddProcessed(s.order, s.maxIds, id))
  }

  ghost function Complete(s: BotState, id: string, now: nat, disk: Disk): (BotState, Outcome<()>) {
    if disk.Saved? then (Persisted(Completed(s, id, now), disk), Ok(())) else (s, Err(PERSIST_FAILED))
  }

  ghost function Release(s: BotState, id: string, disk: Disk): (BotState, Outcome<()>) {
    if disk.Saved? then (Persisted(Without(s, id), disk), Ok(())) else (s, Err(PERSIST_FAILED))
  }

  /** A lease is extended in memory even if it cannot be saved. */
  ghost function Defer(s: BotState, id: string, lease: nat, now: nat, disk: Disk): (BotState, Outcome<()>) {
    var t := Without(Prune(s, now), id);
    var deferred := t.(attempts := t.attempts[id := LeaseUntil(now, lease)]);
    (Persisted(deferred, disk), if disk.Saved? then Ok(()) else Err(PERSIST_FAILED))
  }

  function MarkVolatile(s: BotState, id: string, now: nat): BotState {
    var t := Without(Prune(s, now), id);
    t.(volatileIds := t.volatileIds + {id})
  }

  ghost function Begin(s: BotState, id: string, lease: nat, now: nat, disk: Disk): (BotState, Outcome<BeginAttempt>) {
    var p := Prune(s, now);
    if id in p.ids then (p, Ok(Processed))
    else if id in p.volatileIds then
      var (t, r) := Complete(p, id, now, disk);
      (t, if r.Ok? then Ok(ProcessedAfterPersist) else Err(r.error))
    else if id in p.inflight then (p, Ok(InProgress))
    else if id in p.attempts then (p, Ok(AttemptLeased(AtLeastOne(SaturatingSub(p.attempts[id], now)))))
    else if disk.Saved? then (Persisted(Marked(p, id, LeaseUntil(now, lease)), disk), Ok(Started))
    else (p, Err(PERSIST_FAILED))
  }

  // ----- the store in the source's own form -----

  class ProcessedMessageStore {
    var ids: set<string>
    var order: seq<string>
    var attempts: map<string, nat>
    var inflight: set<string>
    var volatileIds: set<string>
    const maxIds: nat
    var file: Image

    ghost function View(): BotState
      reads this
    {
      BotState(ids, order, attempts, inflight, volatileIds, maxIds)
    }

    ghost predicate Valid()
      reads this
    {
      Distinct(order) && ids == Elements(order)
    }

    constructor (order: seq<string>, attempts: map<string, nat>, maxIds: nat, file: Image)
      requires Distinct(order)
      ensures Valid() && View() == BotState(Elements(order), order, attempts, {}, {}, maxIds) && this.file == file
    {
      ids, this.order, this.attempts := Elements(order), order, attempts;
      inflight, volatileIds, this.maxIds, this.file := {}, {}, maxIds, file;
    }

    method AddProcessedId(id: string)
      requires Valid()
      modifies `ids, `order
      ensures Valid() && order == AddProcessed(old(order), maxIds, id)
    {
      if id in ids {
        return;
      }
      OneMore(order, id);
      ids := ids + {id};
      order := order + [id];
      ghost var longer := order;
      ghost var dropped := 0;
      while |order| > maxIds
        invariant Valid()
        invariant dropped <= |longer| && order == longer[dropped..]
        invariant dropped == 0 || |order| >= maxIds
        decreases |order|
      {
        OneLess(order);
        var removed := order[0];
        order := order[1..];
        ids := ids - {removed};
        dropped := dropped + 1;
      }
    }

    method PruneExpiredAttempts(now: nat)
      modifies `attempts, `inflight
      ensures View() == Prune(old(View()), now)
    {
      var expired := set id | id in attempts && attempts[id] <= now;
      attempts := attempts - expired;
      inflight := inflight - expired;
    }

    method AbsorbVolatileIds()
      requires Valid()
      modifies `ids, `order, `attempts, `inflight, `volatileIds
      ensures Valid() && View() == Absorbed(old(View()))
    {
      var left := volatileIds;
      ghost var taken: set<string>, todo := {}, TextOrder.InOrder(volatileIds);
      ghost var goal := AddAll(order, maxIds, todo);
      volatileIds := {};
      while left != {}
        invariant Valid() && volatileIds == {} && todo == TextOrder.InOrder(left)
        invariant taken + left == old(volatileIds)
        invariant inflight == old(inflight) - taken && attempts == old(attempts) - taken
        invariant AddAll(order, maxIds, todo) == goal
        decreases left
      {
        var id, rest := TextOrder.TakeLeast(left);
        AddAllFirst(order, maxIds, id, TextOrder.InOrder(rest));
        RemoveOneMore(old(attempts), taken, id);
        AbsorbOne(id);
        taken, todo := taken + {id}, TextOrder.InOrder(rest);
        left := rest;
      }
      assert todo == [];
      assert taken == old(volatileIds);
    }

    method AbsorbOne(id: string)
      requires Valid()
      modifies `ids, `order, `attempts, `inflight
      ensures Valid() && order == AddProcessed(old(order), maxIds, id)
      ensures inflight == old(inflight) - {id} && attempts == old(attempts) - {id}
    {
      inflight := inflight - {id};
      attempts := attempts - {id};
      AddProcessedId(id);
    }

    /** Writes the state file: all of it is new, or none of it. */
    method PersistState(disk: Disk) returns (ok: bool)
      modifies `file
      ensures ok == disk.Saved?
      ensures file == if disk.NotSaved? then old(file) else Image(order, attempts)
    {
      if !disk.NotSaved? {
        file := Image(order, attempts);
      }
      ok := disk.Saved?;
    }

    method Persist(disk: Disk) returns (r: Outcome<()>)
      requires Valid()
      modifies this
      ensures Valid() && View() == Persisted(old(View()), disk)
      ensures r == if disk.Saved? then Ok(()) else Err(PERSIST_FAILED)
      ensures file == FileAfter(old(View()), disk, old(file))
      ensures (disk.NotSaved? ==> file == old(file)) && (disk.Saved? ==> file == Image(order, attempts))
    {
      var oldIds, oldAttempts, oldInflight, oldOrder, oldVolatileIds := ids, attempts, inflight, order, volatileIds;
      AbsorbVolatileIds();
      var ok := PersistState(disk);
      if !ok {
        ids, attempts, inflight, order, volatileIds := oldIds, oldAttempts, oldInflight, oldOrder, oldVolatileIds;
        return Err(PERSIST_FAILED);
      }
      return Ok(());
    }

    method BeginAttemptAt(id: string, lease: nat, now: nat, disk: Disk) returns (r: Outcome<BeginAttempt>)
      requires Valid()
      modifies this
      ensures Valid() && (View(), r) == Begin(old(View()), id, lease, now, disk)
      ensures r == Ok(Started) || r == Ok(ProcessedAfterPersist) ==> file == ImageOf(View())
    {
      PruneExpiredAttempts(now);
      if id in ids {
        return Ok(Processed);
      }
      if id in volatileIds {
        var completed := CompleteAt(id, now, disk);
        if completed.Err? {
          return Err(completed.error);
        }
        return Ok(ProcessedAfterPersist);
      }
      if id in inflight {
        return Ok(InProgress);
      }
      if id in attempts {
        return Ok(AttemptLeased(AtLeastOne(SaturatingSub(attempts[id], now))));
      }
      r := StartAttempt(id, LeaseUntil(now, lease), disk);
    }

    /** Leases the message in memory and saves; if that fails the lease is taken back. */
    method StartAttempt(id: string, until: nat, disk: Disk) returns (r: Outcome<BeginAttempt>)
      requires Valid() && id !in inflight && id !in attempts
      modifies this
      ensures Valid()
      ensures View() == if disk.Saved? then Persisted(Marked(old(View()), id, until), disk) else old(View())
      ensures r == if disk.Saved? then Ok(Started) else Err(PERSIST_FAILED)
      ensures r.Ok? ==> file == ImageOf(View())
    {
      AddedIsRemoved(attempts, id, until);
      inflight := inflight + {id};
      attempts := attempts[id := until];
      var persisted := Persist(disk);
      if persisted.Err? {
        inflight := inflight - {id};
        attempts := attempts - {id};
        return Err(persisted.error);
      }
      return Ok(Started);
    }

    method ReleaseAttempt(id: string, disk: Disk) returns (r: Outcome<()>)
      requires Valid()
      modifies this
      ensures Valid() && (View(), r) == Release(old(View()), id, disk)
      ensures r.Ok? ==> file == ImageOf(View())
      ensures r.Ok? ==> id !in attempts && id !in inflight && id !in file.attempts
    {
      var oldAttempts, oldInflight := attempts, inflight;
      inflight := inflight - {id};
      attempts := attempts - {id};
      r := Persist(disk);
      if r.Err? {
        attempts, inflight := oldAttempts, oldInflight;
      }
    }

    method DeferAttemptAt(id: string, lease: nat, now: nat, disk: Disk) returns (r: Outcome<()>)
      requires Valid()
      modifies this
      ensures Valid() && (View(), r) == Defer(old(View()), id, lease, now, disk)
      ensures r.Ok? ==> file == ImageOf(View())
    {
      PruneExpiredAttempts(now);
      inflight := inflight - {id};
      attempts := attempts[id := LeaseUntil(now, lease)];
      assert View() == Without(Prune(old(View()), now), id)
                       .(attempts := Without(Prune(old(View()), now), id).attempts[id := LeaseUntil(now, lease)]);
      r := Persist(disk);
    }

    method CompleteAt(id: string, now: nat, disk: Disk) returns (r: Outcome<()>)
      requires Valid()
      modifies this
      ensures Valid() && (View(), r) == Complete(old(View()), id, now, disk)
      ensures r.Ok? ==> file == ImageOf(View())
    {
      var oldIds, oldAttempts, oldInflight, oldOrder, oldVolatileIds := ids, attempts, inflight, order, volatileIds;
      PruneExpiredAttempts(now);
      inflight := inflight - {id};
      attempts := attempts - {id};
      volatileIds := volatileIds - {id};
      AddProcessedId(id);
      assert View() == Completed(old(View()), id, now);
      r := Persist(disk);
      if r.Err? {
        ids, attempts, inflight, order, volatileIds := oldIds, oldAttempts, oldInflight, oldOrder, oldVolatileIds;
      }
    }

    method MarkVolatileProcessed(id: string, now: nat)
      requires Valid()
      modifies this
      ensures Valid() && View() == MarkVolatile(old(View()), id, now) && file == old(file)
    {
      PruneExpiredAttempts(now);
      inflight := inflight - {id};
      attempts := attempts - {id};
      volatileIds := volatileIds + {id};
    }
  }

  lemma OneMore(s: seq<string>, x: string)
    requires Distinct(s) && x !in s
    ensures Distinct(s + [x]) && Elements(s + [x]) == Elements(s) + {x}
  {
  }

  lemma OneLess(s: seq<string>)
    requires Distinct(s) && s != []
    ensures Distinct(s[1..]) && Elements(s[1..]) == Elements(s) - {s[0]}
  {
  }

  lemma AddedIsRemoved(m: map<string, nat>, id: string, until: nat)
    requires id !in m
    ensures m[id := until] - {id} == m
  {
  }

  lemma RemoveOneMore(m: map<string, nat>, taken: set<string>, id: string)
    ensures m - taken - {id} == m - (taken + {id})
  {
  }

  lemma AddAllFirst(order: seq<string>, maxIds: nat, id: string, rest: seq<string>)
    ensures AddAll(order, maxIds, [id] + rest) == AddAll(AddProcessed(order, maxIds, id), maxIds, rest)
  {
  }
}
