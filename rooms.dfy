/**
 * The value-level meaning of the server's `chatRooms` map (chat id to the set of
 * sockets subscribed to it) and of one fan-out over a room.
 * The `Routes.ChatServer` class updates its map in place; its methods are
 * specified by the functions here.
 */
module Rooms {
  import opened Protocol

  /** A server-side WebSocket, by the identity the transport gave it on accept. */
  type ConnId = nat

  type RoomMap = map<int, set<ConnId>>

  /** `WebSocket.readyState`. */
  datatype ReadyState = Connecting | Open | Closing | Closed

  /** One `ws.send(JSON.stringify(payload))` to socket `to`. */
  datatype Delivery = Delivery(to: ConnId, payload: Payload)

  predicate IsMember(rooms: RoomMap, chatId: int, c: ConnId) {
    chatId in rooms && c in rooms[chatId]
  }

  /** The members of a room; an absent room has none. */
  function Members(rooms: RoomMap, chatId: int): (r: set<ConnId>)
    ensures forall c :: c in r <==> IsMember(rooms, chatId, c)
  {
    if chatId in rooms then rooms[chatId] else {}
  }

  /** No room with an empty member set stays in the map. */
  predicate NoEmptyRoom(rooms: RoomMap) {
    forall k :: k in rooms ==> rooms[k] != {}
  }

  /** `join_chat`: create the room if absent, then add the socket to it. */
  function Join(rooms: RoomMap, chatId: int, c: ConnId): (r: RoomMap)
    ensures r.Keys == rooms.Keys + {chatId}
    ensures forall k, d :: IsMember(r, k, d) <==> IsMember(rooms, k, d) || (k == chatId && d == c)
    ensures NoEmptyRoom(rooms) ==> NoEmptyRoom(r)
  {
    rooms[chatId := Members(rooms, chatId) + {c}]
  }

  /** `leave_chat`: remove the socket from that one room and drop the room once it is empty. */
  function Leave(rooms: RoomMap, chatId: int, c: ConnId): (r: RoomMap)
    ensures forall k, d :: IsMember(r, k, d) <==> IsMember(rooms, k, d) && !(k == chatId && d == c)
    ensures forall k :: k != chatId ==> (k in r <==> k in rooms)
    ensures forall k :: k != chatId && k in r ==> r[k] == rooms[k]
    ensures chatId in r <==> Members(rooms, chatId) - {c} != {}
    ensures NoEmptyRoom(rooms) ==> NoEmptyRoom(r)
  {
    if chatId in rooms then
      var rest := rooms[chatId] - {c};
      assert forall d :: d in rooms[chatId] && d != c ==> d in rest;
      if rest == {} then rooms - {chatId} else rooms[chatId := rest]
    else
      rooms
  }

  /** The socket's `close` cleanup: out of every room, and every room it leaves empty is dropped. */
  function Scrub(rooms: RoomMap, c: ConnId): (r: RoomMap)
    ensures forall k, d :: IsMember(r, k, d) <==> IsMember(rooms, k, d) && d != c
    ensures forall k :: k in r <==> k in rooms && rooms[k] - {c} != {}
    ensures NoEmptyRoom(r)
  {
    assert forall k, d :: k in rooms && d in rooms[k] && d != c ==> d in rooms[k] - {c};
    map k | k in rooms && rooms[k] - {c} != {} :: rooms[k] - {c}
  }

  /**
   * The `chatRooms.forEach` of the `close` handler: visit every room once, delete the
   * socket from it, and delete the room when that left it empty.
   */
  method ScrubRooms(rooms: RoomMap, c: ConnId) returns (r: RoomMap)
    ensures r == Scrub(rooms, c)
  {
    r := rooms;
    var pending := rooms.Keys;
    while |pending| > 0
      invariant pending <= rooms.Keys
      invariant forall k :: k in r ==> k in rooms
      invariant forall k :: k in pending ==> k in r && r[k] == rooms[k]
      invariant forall k :: k in rooms && k !in pending ==> (k in r <==> rooms[k] - {c} != {})
      invariant forall k :: k in r && k !in pending ==> r[k] == rooms[k] - {c}
      decreases pending
    {
      PendingHasKey(pending);
      var chatId :| chatId in pending;
      var room := r[chatId] - {c};
      if room == {} {
        r := r - {chatId};
      } else {
        r := r[chatId := room];
      }
      pending := pending - {chatId};
    }
    IsScrub(rooms, c, r);
  }

  /** A map with the rooms and members `Scrub` describes is `Scrub`'s result. */
  lemma IsScrub(rooms: RoomMap, c: ConnId, r: RoomMap)
    requires forall k :: k in r <==> k in rooms && rooms[k] - {c} != {}
    requires forall k :: k in r ==> r[k] == rooms[k] - {c}
    ensures r == Scrub(rooms, c)
  {
    var s := Scrub(rooms, c);
    forall k | k in r.Keys ensures k in s.Keys { }
    forall k | k in s.Keys ensures k in r.Keys { }
    forall k | k in r ensures r[k] == s[k] { }
  }

  /** A non-empty set of chat ids has an element. */
  lemma PendingHasKey(pending: set<int>)
    requires |pending| > 0
    ensures exists k :: k in pending
  {
    if forall k :: k !in pending {
      forall k | k in pending ensures false { }
      assert false;
    }
  }

  /** The map after the `message` handler has processed socket `c`'s frames in order. */
  function Replay(rooms: RoomMap, c: ConnId, frames: seq<Frame>): RoomMap {
    if frames == [] then rooms
    else
      var prev := Replay(rooms, c, frames[..|frames| - 1]);
      match frames[|frames| - 1]
      case JoinChat(chatId, _) => Join(prev, chatId, c)
      case LeaveChat(chatId) => Leave(prev, chatId, c)
      case _ => prev
  }

  predicate IsOpen(state: map<ConnId, ReadyState>, c: ConnId) {
    c in state && state[c] == Open
  }

  function OpenMembers(members: set<ConnId>, state: map<ConnId, ReadyState>): set<ConnId> {
    set c | c in members && IsOpen(state, c)
  }

  function Recipients(sent: seq<Delivery>): set<ConnId> {
    set i | 0 <= i < |sent| :: sent[i].to
  }

  predicate Distinct(sent: seq<Delivery>) {
    forall i, j :: 0 <= i < j < |sent| ==> sent[i].to != sent[j].to
  }

  /** `sent` carries `d` exactly once to each OPEN member and to nobody else. */
  predicate IsFanOut(sent: seq<Delivery>, members: set<ConnId>, state: map<ConnId, ReadyState>, d: Payload) {
    && (forall i :: 0 <= i < |sent| ==> sent[i].payload == d)
    && Distinct(sent)
    && Recipients(sent) == OpenMembers(members, state)
  }

  /**
   * The `room.forEach` of `broadcastToChat`: visit every member once and send the one
   * serialized payload to those whose state is OPEN.
   */
  method FanOut(members: set<ConnId>, state: map<ConnId, ReadyState>, d: Payload) returns (sent: seq<Delivery>)
    ensures IsFanOut(sent, members, state, d)
  {
    sent := [];
    var rest := members;
    while |rest| > 0
      invariant rest <= members
      invariant forall i :: 0 <= i < |sent| ==> sent[i].payload == d
      invariant Distinct(sent)
      invariant Recipients(sent) == OpenMembers(members - rest, state)
      decreases rest
    {
      var c :| c in rest;
      if IsOpen(state, c) {
        assert c !in Recipients(sent);
        RecipientsSnoc(sent, Delivery(c, d));
        sent := sent + [Delivery(c, d)];
      }
      rest := rest - {c};
    }
    assert members - rest == members;
  }

  lemma RecipientsSnoc(sent: seq<Delivery>, x: Delivery)
    ensures Recipients(sent + [x]) == Recipients(sent) + {x.to}
  {
    var s := sent + [x];
    assert forall i :: 0 <= i < |sent| ==> s[i] == sent[i];
    assert s[|sent|] == x;
  }

  /** A fan-out sends exactly one frame per open member. */
  lemma {:induction false} FanOutCount(sent: seq<Delivery>, members: set<ConnId>, state: map<ConnId, ReadyState>, d: Payload)
    requires IsFanOut(sent, members, state, d)
    ensures |sent| == |OpenMembers(members, state)|
  {
    DistinctRecipientsCount(sent);
  }

  lemma {:induction false} DistinctRecipientsCount(sent: seq<Delivery>)
    requires Distinct(sent)
    ensures |Recipients(sent)| == |sent|
  {
    if sent != [] {
      var init := sent[..|sent| - 1];
      assert Distinct(init);
      DistinctRecipientsCount(init);
      assert Recipients(sent) == Recipients(init) + {sent[|sent| - 1].to};
      RecipientsSnoc(init, sent[|sent| - 1]);
      assert sent == init + [sent[|sent| - 1]];
    } else {
      assert Recipients(sent) == {};
    }
  }

  /** Broadcasting to an absent room sends nothing. */
  lemma AbsentRoomGetsNothing(sent: seq<Delivery>, rooms: RoomMap, chatId: int, state: map<ConnId, ReadyState>, d: Payload)
    requires chatId !in rooms
    requires IsFanOut(sent, Members(rooms, chatId), state, d)
    ensures sent == []
  {
    FanOutCount(sent, Members(rooms, chatId), state, d);
    assert OpenMembers(Members(rooms, chatId), state) == {};
  }

  /** Joining a room the socket is already in changes nothing. */
  lemma JoinIdempotent(rooms: RoomMap, chatId: int, c: ConnId)
    ensures Join(Join(rooms, chatId, c), chatId, c) == Join(rooms, chatId, c)
  {
  }

  /** Leaving a room one is not in changes nothing, whether or not the room exists. */
  lemma LeaveNonMemberIsNoOp(rooms: RoomMap, chatId: int, c: ConnId)
    requires NoEmptyRoom(rooms)
    requires !IsMember(rooms, chatId, c)
    ensures Leave(rooms, chatId, c) == rooms
  {
    if chatId in rooms {
      assert rooms[chatId] - {c} == rooms[chatId];
    }
  }

  /** A join undone by a leave restores the map, dropping a room the join created. */
  lemma JoinThenLeave(rooms: RoomMap, chatId: int, c: ConnId)
    requires NoEmptyRoom(rooms)
    requires !IsMember(rooms, chatId, c)
    ensures Leave(Join(rooms, chatId, c), chatId, c) == rooms
  {
    var r := Leave(Join(rooms, chatId, c), chatId, c);
    if chatId in rooms {
      assert (rooms[chatId] + {c}) - {c} == rooms[chatId];
    } else {
      assert Members(Join(rooms, chatId, c), chatId) - {c} == {};
    }
    assert r.Keys == rooms.Keys;
  }

  /** After `leave_chat`, no later fan-out to that room reaches the socket. */
  lemma NoStaleDelivery(sent: seq<Delivery>, rooms: RoomMap, chatId: int, c: ConnId, state: map<ConnId, ReadyState>, d: Payload)
    requires IsFanOut(sent, Members(Leave(rooms, chatId, c), chatId), state, d)
    ensures forall i :: 0 <= i < |sent| ==> sent[i].to != c
  {
    forall i | 0 <= i < |sent| ensures sent[i].to != c {
      assert sent[i].to in Recipients(sent);
    }
  }

  /** A second close cleanup of the same socket finds nothing left to do. */
  lemma ScrubIdempotent(rooms: RoomMap, c: ConnId)
    ensures Scrub(Scrub(rooms, c), c) == Scrub(rooms, c)
  {
    var once := Scrub(rooms, c);
    forall k | k in once ensures once[k] - {c} == once[k] {
    }
  }
}
