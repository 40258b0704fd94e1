// One room's catch-up poller as values: what a page scan collects, what a poll transaction
// decides, and how its update changes the poller (src/realtime.rs).  The class in Poller.dfy is
// proved against these functions; RoomDelivery.dfy proves what they promise over whole runs.

module PollerModel {
  import opened Wrappers
  import opened SeenWindow

  type RoomId = string

  /** A listed message; the service may leave its id or its creation time out. */
  datatype Message = Message(id: Option<MessageId>, created: Option<int>)

  /** A `next` link stands for "everything older than this position". */
  type Cursor = nat

  datatype Page = Page(items: seq<Message>, next: Option<Cursor>)

  /** The answer to one HTTP request. */
  datatype Response = Fetched(page: Page) | Failed(error: string)

  datatype PollingConfig = PollingConfig(
    maxPagesPerPoll: nat,
    emitExistingOnFirstPoll: bool,
    maxSeenIds: nat,
    maxPendingMessages: nat)

  datatype RoomCheckpoint = RoomCheckpoint(
    roomId: RoomId,
    seenMessageIds: seq<MessageId>,
    initializeEmpty: bool)

  datatype PollerState = PollerState(
    config: PollingConfig,
    seen: seq<MessageId>,
    backlogNext: Option<Cursor>,
    pendingFresh: seq<Message>,
    pendingSeenIds: seq<MessageId>,
    initialized: bool,
    seed: Option<seq<MessageId>>)
  {
    predicate HasPendingBacklog() {
      backlogNext.Some? || pendingFresh != [] || pendingSeenIds != []
    }
  }

  datatype PollUpdate = PollUpdate(
    messages: seq<Message>,
    seenIds: seq<MessageId>,
    pendingFresh: seq<Message>,
    pendingSeenIds: seq<MessageId>,
    backlogNext: Option<Cursor>,
    initialized: bool,
    commitSeen: bool)

  datatype PollError = PollError(error: string, update: Option<PollUpdate>)

  type PollResult = Result<PollUpdate, PollError>

  // ----- construction, seeding and configuration -----

  function NewPoller(config: PollingConfig): PollerState {
    PollerState(config, [], None, [], [], false, None)
  }

  function SetConfig(p: PollerState, config: PollingConfig): PollerState {
    p.(config := config,
       seen := if p.seed.Some? then Remember([], p.seed.value, config.maxSeenIds)
               else Truncated(p.seen, config.maxSeenIds))
  }

  function WithSeenMessageIds(p: PollerState, ids: seq<MessageId>): PollerState {
    if ids == [] then p
    else p.(seed := Some(ids), seen := Remember([], ids, p.config.maxSeenIds), initialized := true)
  }

  function WithEmptySeenBoundary(p: PollerState): PollerState {
    p.(initialized := true)
  }

  function ReplaceCheckpoint(p: PollerState, ids: seq<MessageId>, initializeEmpty: bool): PollerState {
    var blank := NewPoller(p.config);
    if ids != [] then WithSeenMessageIds(blank, ids)
    else if initializeEmpty then WithEmptySeenBoundary(blank)
    else blank
  }

  // ----- one page -----

  datatype Collected = Collected(unseen: seq<Message>, newIds: seq<MessageId>, sawKnown: bool)

  function Collect(seen: seq<MessageId>, items: seq<Message>, initialized: bool, emitExisting: bool,
                   local: set<MessageId>): Collected
  {
    if items == [] then Collected([], [], false)
    else if items[0].id.None? then Collect(seen, items[1..], initialized, emitExisting, local)
    else
      var id := items[0].id.value;
      if id in seen then
        if initialized then Collected([], [], true)
        else Collect(seen, items[1..], initialized, emitExisting, local).(sawKnown := true)
      else if id in local then Collect(seen, items[1..], initialized, emitExisting, local)
      else
        var rest := Collect(seen, items[1..], initialized, emitExisting, local + {id});
        rest.(unseen := if initialized || emitExisting then [items[0]] + rest.unseen else rest.unseen,
              newIds := [id] + rest.newIds)
  }

  // ----- one poll transaction -----

  function Reversed(s: seq<Message>): (r: seq<Message>)
    ensures |r| == |s| && forall i :: 0 <= i < |s| ==> r[i] == s[|s| - 1 - i]
  {
    seq(|s|, i requires 0 <= i < |s| => s[|s| - 1 - i])
  }

  /** The batch is complete: emit it oldest first and take its ids into the window. */
  function Commit(unseen: seq<Message>, newIds: seq<MessageId>): PollUpdate {
    PollUpdate(Reversed(unseen), newIds, [], [], None, true, true)
  }

  /** The batch is incomplete: keep it, and remember where to go on. */
  function Defer(unseen: seq<Message>, newIds: seq<MessageId>, next: Cursor): PollUpdate {
    PollUpdate([], [], unseen, newIds, Some(next), true, false)
  }

  const BACKLOG_EXCEEDED := "message poller backlog exceeded max_pending_messages"
  const NO_RESPONSE := "connection closed"

  predicate PendingWithinLimit(messages: nat, ids: nat, maxPendingMessages: nat) {
    messages <= AtLeastOne(maxPendingMessages) && ids <= AtLeastOne(maxPendingMessages)
  }

  /** The next answer; a request that never gets one fails. */
  function NextResponse(responses: seq<Response>): Response {
    if responses == [] then Failed(NO_RESPONSE) else responses[0]
  }

  function Later(responses: seq<Response>): seq<Response> {
    if responses == [] then [] else responses[1..]
  }

  /** Whether an unfinished scan may be kept: a first baseline is never kept. */
  predicate KeepsPending(p: PollerState) {
    p.initialized || p.config.emitExistingOnFirstPoll
  }

  function ScanPages(p: PollerState, page: Page, pagesLeft: nat, unseen: seq<Message>,
                     newIds: seq<MessageId>, responses: seq<Response>): PollResult
    requires pagesLeft >= 1
    decreases pagesLeft
  {
    var c := Collect(p.seen, page.items, p.initialized, p.config.emitExistingOnFirstPoll,
                     Elements(newIds));
    var unseen', newIds' := unseen + c.unseen, newIds + c.newIds;
    if !PendingWithinLimit(|unseen'|, |newIds'|, p.config.maxPendingMessages) then
      Err(PollError(BACKLOG_EXCEEDED, None))
    else if (c.sawKnown && p.initialized) || page.next.None? then
      Ok(Commit(unseen', newIds'))
    else if pagesLeft == 1 then
      Ok(if KeepsPending(p) then Defer(unseen', newIds', page.next.value) else Commit(unseen', newIds'))
    else
      match NextResponse(responses)
      case Failed(error) =>
        Err(PollError(error, if KeepsPending(p) then Some(Defer(unseen', newIds', page.next.value)) else None))
      case Fetched(nextPage) =>
        ScanPages(p, nextPage, pagesLeft - 1, unseen', newIds', Later(responses))
  }

  function Transaction(p: PollerState, responses: seq<Response>): PollResult {
    if p.backlogNext.None? && p.pendingFresh != [] then
      Ok(Commit(p.pendingFresh, p.pendingSeenIds))
    else
      match NextResponse(responses)
      case Failed(error) => Err(PollError(error, None))
      case Fetched(page) =>
        ScanPages(p, page, AtLeastOne(p.config.maxPagesPerPoll), p.pendingFresh, p.pendingSeenIds,
                  Later(responses))
  }

  // ----- updates and checkpoints -----

  function SeenAfter(p: PollerState, u: PollUpdate): seq<MessageId> {
    if u.commitSeen then Remember(p.seen, u.seenIds, p.config.maxSeenIds) else p.seen
  }

  function ApplyUpdate(p: PollerState, u: PollUpdate): PollerState {
    PollerState(p.config, SeenAfter(p, u), u.backlogNext, u.pendingFresh, u.pendingSeenIds,
                u.initialized, None)
  }

  /** What a poll leaves behind: the applied update, or the old poller when there is none. */
  function AfterPoll(p: PollerState, r: PollResult): PollerState {
    match r
    case Ok(u) => ApplyUpdate(p, u)
    case Err(e) => if e.update.Some? then ApplyUpdate(p, e.update.value) else p
  }

  function CheckpointFromSeen(room: RoomId, seen: seq<MessageId>): RoomCheckpoint {
    RoomCheckpoint(room, seen, seen == [])
  }

  function CheckpointAfterUpdate(p: PollerState, room: RoomId, u: PollUpdate): Option<RoomCheckpoint> {
    if u.commitSeen then Some(CheckpointFromSeen(room, SeenAfter(p, u))) else None
  }

  function CurrentCheckpoint(p: PollerState, room: RoomId): Option<RoomCheckpoint> {
    if p.initialized then Some(CheckpointFromSeen(room, p.seen)) else None
  }

  /** A poller built for a newly discovered room from a saved checkpoint, if there is one. */
  function FromCheckpoint(config: PollingConfig, saved: Option<(seq<MessageId>, bool)>): PollerState {
    var p := NewPoller(config);
    if saved.None? then p
    else if saved.value.0 == [] && saved.value.1 then WithEmptySeenBoundary(p)
    else WithSeenMessageIds(p, saved.value.0)
  }
}
