/**
 * The WebSocket side of the server: the `chatRooms` registry, `broadcastToChat`,
 * the `message` and `close` handlers of every socket, and the broadcast that the
 * send-message endpoint performs after its authorisation check.
 * Node runs each handler to completion, so each is one atomic method here.
 */
module Routes {
  import opened Options
  import opened Schema
  import opened Protocol
  import opened Rooms

  /** The HTTP outcome of `POST /api/chats/:chatId/messages`. */
  datatype PostResponse =
    | Sent(message: MessageWithSender)  // 200 with the stored message
    | BadRequest                        // 400: the body failed schema validation
    | Forbidden                         // 403: no such chat, or the sender is not in it
    | ServerError                       // 500: storing the message failed

  /** `participants.some(p => p.userId === userId)`. */
  function HasParticipant(participants: seq<ParticipantWithUser>, userId: string): (r: bool)
    ensures r <==> exists i :: 0 <= i < |participants| && participants[i].participant.userId == userId
  {
    if participants == [] then false
    else participants[0].participant.userId == userId || HasParticipant(participants[1..], userId)
  }

  /** The authorisation check of the send-message endpoint: the chat exists and has the sender in it. */
  function MayPost(chat: Option<ChatWithParticipants>, userId: string): (ok: bool)
    ensures ok <==> chat.Some? && exists i :: 0 <= i < |chat.value.participants| && chat.value.participants[i].participant.userId == userId
  {
    chat.Some? && HasParticipant(chat.value.participants, userId)
  }

  ghost predicate MembersLive(rooms: RoomMap, state: map<ConnId, ReadyState>) {
    forall k, c :: IsMember(rooms, k, c) ==> c in state && state[c] != Closed
  }

  class ChatServer {
    /** `chatRooms`: chat id to the set of sockets that joined it. */
    var chatRooms: RoomMap
    /** The `userId` field stamped on each accepted socket; `None` until its first `join_chat`. */
    var userIds: map<ConnId, Option<string>>
    /** Each accepted socket's `readyState`, owned by the transport. */
    var readyState: map<ConnId, ReadyState>
    /** Every `ws.send` performed so far, in order. */
    var outbox: seq<Delivery>
    /** The next identity the transport hands out. */
    var nextConn: ConnId

    ghost predicate Valid()
      reads this
    {
      && NoEmptyRoom(chatRooms)
      && MembersLive(chatRooms, readyState)
      && userIds.Keys == readyState.Keys
      && (forall c :: c in readyState ==> c < nextConn)
    }

    constructor ()
      ensures Valid()
      ensures chatRooms == map[] && userIds == map[] && readyState == map[] && outbox == []
    {
      chatRooms := map[];
      userIds := map[];
      readyState := map[];
      outbox := [];
      nextConn := 0;
    }

    /** The `connection` event: a new socket, OPEN, with no `userId` and in no room. */
    method Accept() returns (c: ConnId)
      requires Valid()
      modifies this
      ensures Valid()
      ensures c !in old(readyState)
      ensures readyState == old(readyState)[c := Open] && userIds == old(userIds)[c := None]
      ensures chatRooms == old(chatRooms) && outbox == old(outbox)
    {
      c := nextConn;
      nextConn := nextConn + 1;
      readyState := readyState[c := Open];
      userIds := userIds[c := None];
    }

    /** The transport starts the closing handshake; the socket stays in its rooms but is no longer OPEN. */
    method BeginClosing(c: ConnId)
      requires Valid() && c in readyState && readyState[c] == Open
      modifies this
      ensures Valid()
      ensures readyState == old(readyState)[c := Closing]
      ensures chatRooms == old(chatRooms) && userIds == old(userIds) && outbox == old(outbox)
    {
      readyState := readyState[c := Closing];
    }

    /** `broadcastToChat(chatId, data)`: one send per OPEN member of the room, nothing if it is absent. */
    method BroadcastToChat(chatId: int, d: Payload) returns (sent: seq<Delivery>)
      requires Valid()
      modifies this
      ensures Valid()
      ensures IsFanOut(sent, Members(chatRooms, chatId), readyState, d)
      ensures outbox == old(outbox) + sent
      ensures chatRooms == old(chatRooms) && userIds == old(userIds) && readyState == old(readyState)
    {
      sent := [];
      if chatId in chatRooms {
        sent := FanOut(chatRooms[chatId], readyState, d);
      }
      outbox := outbox + sent;
    }

    /**
     * The socket's `message` handler. A malformed frame or an unknown `type` is caught
     * and changes nothing; the socket stays open in every case.
     */
    method HandleMessage(c: ConnId, f: Frame) returns (sent: seq<Delivery>)
      requires Valid() && c in readyState && readyState[c] != Closed
      modifies this
      ensures Valid()
      ensures readyState == old(readyState) && outbox == old(outbox) + sent
      ensures match f
        case JoinChat(chatId, userId) =>
          chatRooms == Join(old(chatRooms), chatId, c) && userIds == old(userIds)[c := userId] && sent == []
        case LeaveChat(chatId) =>
          chatRooms == Leave(old(chatRooms), chatId, c) && userIds == old(userIds) && sent == []
        case Typing(chatId, isTyping) =>
          && chatRooms == old(chatRooms) && userIds == old(userIds)
          && IsFanOut(sent, Members(chatRooms, chatId), readyState, UserTyping(userIds[c], isTyping))
        case _ =>
          chatRooms == old(chatRooms) && userIds == old(userIds) && sent == []
    {
      sent := [];
      match f
      case JoinChat(chatId, userId) =>
        userIds := userIds[c := userId];
        chatRooms := Join(chatRooms, chatId, c);
      case LeaveChat(chatId) =>
        chatRooms := Leave(chatRooms, chatId, c);
      case Typing(chatId, isTyping) =>
        sent := BroadcastToChat(chatId, UserTyping(userIds[c], isTyping));
      case Unknown(_) =>
      case Malformed =>
    }

    /**
     * The transport marks the socket CLOSED and its `close` handler walks every room:
     * it deletes the socket and deletes the room if that left it empty.
     */
    method OnClose(c: ConnId)
      requires Valid() && c in readyState
      modifies this
      ensures Valid()
      ensures chatRooms == Scrub(old(chatRooms), c)
      ensures readyState == old(readyState)[c := Closed]
      ensures userIds == old(userIds) && outbox == old(outbox)
    {
      chatRooms := ScrubRooms(chatRooms, c);
      assert forall k, d :: IsMember(chatRooms, k, d) ==> IsMember(old(chatRooms), k, d) && d != c;
      // The transport has already marked the socket CLOSED when `close` fires.
      readyState := readyState[c := Closed];
    }

    /**
     * `POST /api/chats/:chatId/messages`: validate the body, check that the sender
     * takes part in the chat, store the message, then broadcast it as `new_message`.
     * `chat` is what `getChatById(chatId)` returned and `stored` what `createMessage`
     * returned (`None` when it threw).
     */
    method PostMessage(chatId: int, senderId: string, bodyValid: bool,
                       chat: Option<ChatWithParticipants>, stored: Option<MessageWithSender>)
      returns (response: PostResponse, sent: seq<Delivery>)
      requires Valid()
      modifies this
      ensures Valid()
      ensures chatRooms == old(chatRooms) && userIds == old(userIds) && readyState == old(readyState)
      ensures outbox == old(outbox) + sent
      ensures response == BadRequest <==> !bodyValid
      ensures response == Forbidden <==> bodyValid && !MayPost(chat, senderId)
      ensures response.Sent? <==> bodyValid && MayPost(chat, senderId) && stored.Some?
      ensures response.Sent? ==> response.message == stored.value
                                 && IsFanOut(sent, Members(chatRooms, chatId), readyState, NewMessage(stored.value))
      ensures !response.Sent? ==> sent == []
    {
      sent := [];
      if !bodyValid {
        response := BadRequest;
      } else if !MayPost(chat, senderId) {
        response := Forbidden;
      } else if stored.None? {
        response := ServerError;
      } else {
        sent := BroadcastToChat(chatId, NewMessage(stored.value));
        response := Sent(stored.value);
      }
    }
  }
}
