// Listing the joined rooms page by page (`discover_joined_rooms` in src/realtime.rs): a room listed
// again replaces its earlier listing, and more rooms than the limit are an error.

module Discovery {
  import opened Wrappers
  import opened PollerModel
  import opened MultiRoomModel
  import opened RoomMemory

  datatype RoomPage = RoomPage(items: seq<Room>, hasNext: bool)

  type PageResponse = Result<RoomPage, string>

  const TOO_MANY_ROOMS := "joined-room discovery exceeded max_rooms"

  // ----- the list as a function of what was listed -----

  /** Each room id is listed once. */
  ghost predicate OncePerRoom(rooms: seq<Room>) {
    forall i, j :: 0 <= i < j < |rooms| && rooms[i].id.Some? ==> rooms[i].id != rooms[j].id
  }

  function Position(rooms: seq<Room>, id: RoomId): (r: Option<nat>)
    ensures r.Some? ==> r.value < |rooms| && rooms[r.value].id == Some(id)
    ensures r.None? ==> forall room :: room in rooms ==> room.id != Some(id)
  {
    if rooms == [] then None
    else if rooms[|rooms| - 1].id == Some(id) then Some(|rooms| - 1)
    else Position(rooms[..|rooms| - 1], id)
  }

  function Put(rooms: seq<Room>, room: Room): seq<Room> {
    if room.id.Some? && Position(rooms, room.id.value).Some?
    then rooms[Position(rooms, room.id.value).value := room]
    else rooms + [room]
  }

  function Merged(listed: seq<Room>): seq<Room> {
    if listed == [] then [] else Put(Merged(listed[..|listed| - 1]), listed[|listed| - 1])
  }

  function NextPage(responses: seq<PageResponse>): PageResponse {
    if responses == [] then Err("no response") else responses[0]
  }

  function Discover(responses: seq<PageResponse>, limit: nat, listed: seq<Room>): Result<seq<Room>, string>
    decreases |responses|
  {
    var page := NextPage(responses);
    if page.Err? then Err(page.error)
    else
      var all := listed + page.value.items;
      if |Merged(all)| > limit then Err(TOO_MANY_ROOMS)
      else if !page.value.hasNext then Ok(Merged(all))
      else Discover(responses[1..], limit, all)
  }

  // ----- what the list holds -----

  lemma PutOnce(rooms: seq<Room>, room: Room)
    requires OncePerRoom(rooms)
    ensures OncePerRoom(Put(rooms, room))
  {
  }

  lemma {:induction false} MergedOnce(listed: seq<Room>)
    ensures OncePerRoom(Merged(listed))
  {
    if listed != [] {
      MergedOnce(listed[..|listed| - 1]);
      PutOnce(Merged(listed[..|listed| - 1]), listed[|listed| - 1]);
    }
  }

  lemma {:induction false} LatestOfOnce(rooms: seq<Room>, i: nat)
    requires OncePerRoom(rooms) && i < |rooms| && rooms[i].id.Some?
    ensures Latest(rooms, rooms[i].id.value) == Some(rooms[i])
  {
    if i < |rooms| - 1 {
      LatestOfOnce(rooms[..|rooms| - 1], i);
    }
  }

  lemma {:induction false} LatestOfNone(rooms: seq<Room>, id: RoomId)
    requires forall room :: room in rooms ==> room.id != Some(id)
    ensures Latest(rooms, id) == None
  {
    if rooms != [] {
      LatestOfNone(rooms[..|rooms| - 1], id);
    }
  }

  /** The latest listing of every room is unchanged by listing another. */
  lemma LatestOfPut(rooms: seq<Room>, room: Room, id: RoomId)
    requires OncePerRoom(rooms)
    ensures Latest(Put(rooms, room), id) == if room.id == Some(id) then Some(room) else Latest(rooms, id)
  {
    var rooms' := Put(rooms, room);
    PutOnce(rooms, room);
    if room.id == Some(id) {
      var at := Position(rooms, id);
      LatestOfOnce(rooms', if at.Some? then at.value else |rooms|);
    } else {
      var at := Position(rooms, id);
      if at.Some? {
        LatestOfOnce(rooms, at.value);
        LatestOfOnce(rooms', at.value);
      } else {
        LatestOfNone(rooms, id);
        LatestOfNone(rooms', id);
      }
    }
  }

  /** The merged list has, for every room id, exactly its latest listing: refreshing the rooms with it
      is refreshing them with everything that was listed. */
  lemma {:induction false} LatestOfMerged(listed: seq<Room>, id: RoomId)
    ensures Latest(Merged(listed), id) == Latest(listed, id)
  {
    if listed != [] {
      var init := listed[..|listed| - 1];
      LatestOfMerged(init, id);
      MergedOnce(init);
      LatestOfPut(Merged(init), listed[|listed| - 1], id);
    }
  }

  lemma {:induction false} MergedGrows(listed: seq<Room>, more: seq<Room>)
    ensures |Merged(listed)| <= |Merged(listed + more)|
  {
    if more == [] {
      assert listed + more == listed;
    } else {
      var all := listed + more;
      MergedGrows(listed, more[..|more| - 1]);
      assert all[..|all| - 1] == listed + more[..|more| - 1];
    }
  }

  /** A room keeps the place in the list that its first listing gave it. */
  lemma {:induction false} KeepsPlace(listed: seq<Room>, more: seq<Room>, i: nat)
    requires i < |Merged(listed)|
    ensures i < |Merged(listed + more)| && Merged(listed + more)[i].id == Merged(listed)[i].id
  {
    if more == [] {
      assert listed + more == listed;
    } else {
      var all := listed + more;
      KeepsPlace(listed, more[..|more| - 1], i);
      assert all[..|all| - 1] == listed + more[..|more| - 1];
    }
  }

  /** Every page arrives, up to one without a next link. */
  ghost predicate Complete(responses: seq<PageResponse>)
    decreases |responses|
  {
    NextPage(responses).Ok? && (NextPage(responses).value.hasNext ==> Complete(responses[1..]))
  }

  ghost function Listed(responses: seq<PageResponse>): seq<Room>
    requires Complete(responses)
    decreases |responses|
  {
    var page := NextPage(responses).value;
    page.items + if page.hasNext then Listed(responses[1..]) else []
  }

  /** A complete listing is accepted exactly if it names no more different rooms than the limit; rooms
      without an id count one by one. */
  lemma {:induction false} AcceptedWithinLimit(responses: seq<PageResponse>, limit: nat, listed: seq<Room>)
    requires Complete(responses)
    ensures Discover(responses, limit, listed)
            == if |Merged(listed + Listed(responses))| <= limit then Ok(Merged(listed + Listed(responses)))
               else Err(TOO_MANY_ROOMS)
    decreases |responses|
  {
    var page := NextPage(responses).value;
    var all := listed + page.items;
    if page.hasNext {
      AcceptedWithinLimit(responses[1..], limit, all);
      assert listed + Listed(responses) == all + Listed(responses[1..]);
      MergedGrows(all, Listed(responses[1..]));
    } else {
      assert listed + Listed(responses) == all;
    }
  }

  lemma {:induction false} OnlyComplete(responses: seq<PageResponse>, limit: nat, listed: seq<Room>)
    requires Discover(responses, limit, listed).Ok?
    ensures Complete(responses)
    decreases |responses|
  {
    var page := NextPage(responses).value;
    if page.hasNext {
      OnlyComplete(responses[1..], limit, listed + page.items);
    }
  }

  /** Discovery succeeds exactly if every page arrives and the rooms fit the limit: a listing that breaks off is
      never taken for the whole one. */
  lemma SucceedsIff(responses: seq<PageResponse>, limit: nat)
    ensures Discover(responses, limit, []).Ok? <==> Complete(responses) && |Merged(Listed(responses))| <= limit
  {
    if Discover(responses, limit, []).Ok? {
      OnlyComplete(responses, limit, []);
    }
    if Complete(responses) {
      AcceptedWithinLimit(responses, limit, []);
      assert [] + Listed(responses) == Listed(responses);
    }
  }

  // ----- the loop -----

  /** The index map points to the one entry of every room id. */
  ghost predicate Indexes(rooms: seq<Room>, indexes: map<RoomId, nat>) {
    && (forall id :: id in indexes ==> indexes[id] < |rooms| && rooms[indexes[id]].id == Some(id))
    && (forall i :: 0 <= i < |rooms| && rooms[i].id.Some? ==> rooms[i].id.value in indexes)
    && OncePerRoom(rooms)
  }

  method TakeRoom(room: Room, rooms: seq<Room>, indexes: map<RoomId, nat>)
    returns (rooms': seq<Room>, indexes': map<RoomId, nat>)
    requires Indexes(rooms, indexes)
    ensures Indexes(rooms', indexes') && rooms' == Put(rooms, room)
  {
    PutOnce(rooms, room);
    if room.id.None? {
      return rooms + [room], indexes;
    }
    if room.id.value in indexes {
      OnlyPosition(rooms, indexes[room.id.value]);
      return rooms[indexes[room.id.value] := room], indexes;
    }
    return rooms + [room], indexes[room.id.value := |rooms|];
  }

  lemma MergedOneMore(listed: seq<Room>, items: seq<Room>, i: nat)
    requires i < |items|
    ensures Merged(listed + items[..i + 1]) == Put(Merged(listed + items[..i]), items[i])
  {
    var taken := listed + items[..i + 1];
    assert taken[..|taken| - 1] == listed + items[..i];
  }

  method TakeRooms(ghost listed: seq<Room>, items: seq<Room>, rooms: seq<Room>, indexes: map<RoomId, nat>)
    returns (rooms': seq<Room>, indexes': map<RoomId, nat>)
    requires Indexes(rooms, indexes) && rooms == Merged(listed)
    ensures Indexes(rooms', indexes') && rooms' == Merged(listed + items)
  {
    rooms', indexes' := rooms, indexes;
    assert listed + items[..0] == listed;
    for i := 0 to |items|
      invariant Indexes(rooms', indexes') && rooms' == Merged(listed + items[..i])
    {
      MergedOneMore(listed, items, i);
      rooms', indexes' := TakeRoom(items[i], rooms', indexes');
    }
    assert items[..|items|] == items;
  }

  lemma OnlyPosition(rooms: seq<Room>, i: nat)
    requires OncePerRoom(rooms) && i < |rooms| && rooms[i].id.Some?
    ensures Position(rooms, rooms[i].id.value) == Some(i)
  {
  }

  method DiscoverJoinedRooms(responses: seq<PageResponse>, maxRooms: nat) returns (r: Result<seq<Room>, string>)
    ensures r == Discover(responses, AtLeastOne(maxRooms), [])
  {
    var left := responses;
    ghost var listed: seq<Room> := [];
    var rooms: seq<Room>, indexes: map<RoomId, nat> := [], map[];
    while true
      invariant Indexes(rooms, indexes) && rooms == Merged(listed)
      invariant Discover(left, AtLeastOne(maxRooms), listed) == Discover(responses, AtLeastOne(maxRooms), [])
      decreases |left|
    {
      var page := NextPage(left);
      if page.Err? {
        return Err(page.error);
      }
      rooms, indexes := TakeRooms(listed, page.value.items, rooms, indexes);
      listed := listed + page.value.items;
      if |rooms| > AtLeastOne(maxRooms) {
        return Err(TOO_MANY_ROOMS);
      }
      if !page.value.hasNext {
        return Ok(rooms);
      }
      left := left[1..];
    }
  }
}
