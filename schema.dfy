/** `x | undefined` values of the TypeScript source. */
module Options {
  datatype Option<+T> = None | Some(value: T)

  /**
   * The empty default of a missing list or string: `x || ''` on a nullable column,
   * and the `= []` default parameter of a query updater.
   */
  function OrEmpty<T>(o: Option<seq<T>>): (r: seq<T>)
    ensures o.Some? ==> r == o.value
    ensures o.None? ==> r == []
  {
    if o.Some? then o.value else []
  }
}

/**
 * The records of the chat database and the shapes the server returns for them.
 * Nullable columns are `Option`s; timestamps are opaque integers.
 */
module Schema {
  import opened Options

  type Timestamp = int

  datatype User = User(
    id: string,
    email: Option<string>,
    firstName: Option<string>,
    lastName: Option<string>,
    profileImageUrl: Option<string>)

  datatype Chat = Chat(
    id: int,
    name: Option<string>,
    isGroup: bool,
    createdAt: Timestamp,
    updatedAt: Timestamp)

  datatype ChatParticipant = ChatParticipant(id: int, chatId: int, userId: string, joinedAt: Timestamp)

  datatype Message = Message(
    id: int,
    chatId: int,
    senderId: string,
    content: string,
    messageType: Option<string>,
    createdAt: Timestamp)

  /** `ChatParticipant & { user: User }`. */
  datatype ParticipantWithUser = ParticipantWithUser(participant: ChatParticipant, user: User)

  /** `ChatWithParticipants`: the chat row spread together with its participants and messages. */
  datatype ChatWithParticipants = ChatWithParticipants(
    chat: Chat,
    participants: seq<ParticipantWithUser>,
    messages: seq<Message>)

  /** `MessageWithSender`: the message row spread together with its sender. */
  datatype MessageWithSender = MessageWithSender(message: Message, sender: User)
}

/** The frames exchanged over the `/ws` WebSocket. */
module Protocol {
  import opened Options
  import opened Schema

  /** An inbound frame as the server's `message` handler sees it after `JSON.parse`. */
  datatype Frame =
    | JoinChat(chatId: int, userId: Option<string>)
    | LeaveChat(chatId: int)
    | Typing(chatId: int, isTyping: bool)
      /** Parsed, but its `type` names none of the three cases. */
    | Unknown(tag: string)
      /** `JSON.parse` threw, or the value has no readable `type`. */
    | Malformed

  /** An outbound payload, before `JSON.stringify`. */
  datatype Payload =
    | NewMessage(message: MessageWithSender)
      /** `userId` is the sender's stored `ws.userId`, absent until it has joined a chat. */
    | UserTyping(userId: Option<string>, isTyping: bool)
}
