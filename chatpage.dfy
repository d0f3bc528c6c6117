/**
 * The chat page: how a server event updates the two cached queries, which chat
 * the page names and shows, and the frames the page sends when the active chat
 * changes and when React re-renders it.
 */
module ChatPage {
  import opened Options
  import opened Strings
  import opened Schema
  import opened Protocol
  import opened Rooms

  /** The updater of the chat's messages query: the new message goes at the end. */
  function AppendMessage(data: Option<seq<MessageWithSender>>, m: MessageWithSender): (r: seq<MessageWithSender>)
    ensures |r| == |OrEmpty(data)| + 1
    ensures r[..|r| - 1] == OrEmpty(data) && r[|r| - 1] == m
  {
    OrEmpty(data) + [m]
  }

  /** The entry of the chat list after `m` arrived in it: `m` is its preview and its time is `m`'s. */
  function Touched(c: ChatWithParticipants, m: Message): ChatWithParticipants {
    c.(chat := c.chat.(updatedAt := m.createdAt), messages := [m])
  }

  /** The `oldChats.map(...)` of the chat list updater. */
  function UpdateChats(chats: seq<ChatWithParticipants>, m: Message): (r: seq<ChatWithParticipants>)
    ensures |r| == |chats|
    ensures forall i :: 0 <= i < |chats| ==> r[i] == if chats[i].chat.id == m.chatId then Touched(chats[i], m) else chats[i]
  {
    if chats == [] then []
    else [if chats[0].chat.id == m.chatId then Touched(chats[0], m) else chats[0]] + UpdateChats(chats[1..], m)
  }

  /**
   * The updater of the chat list query: only the chat `m` belongs to changes; the
   * list keeps its length and its order and the other chats stay as they were.
   */
  function UpdateChatList(data: Option<seq<ChatWithParticipants>>, m: MessageWithSender): (r: seq<ChatWithParticipants>)
    ensures |r| == |OrEmpty(data)|
    ensures forall i :: 0 <= i < |r| && OrEmpty(data)[i].chat.id != m.message.chatId ==> r[i] == OrEmpty(data)[i]
    ensures forall i :: 0 <= i < |r| && OrEmpty(data)[i].chat.id == m.message.chatId ==>
              && r[i].chat.id == m.message.chatId
              && r[i].messages == [m.message]
              && r[i].chat.updatedAt == m.message.createdAt
              && r[i].chat.(updatedAt := 0) == OrEmpty(data)[i].chat.(updatedAt := 0)
              && r[i].participants == OrEmpty(data)[i].participants
  {
    UpdateChats(OrEmpty(data), m.message)
  }

  /** Delivering the same message twice leaves the chat list as delivering it once. */
  lemma UpdateChatListIdempotent(data: Option<seq<ChatWithParticipants>>, m: MessageWithSender)
    ensures UpdateChatList(Some(UpdateChatList(data, m)), m) == UpdateChatList(data, m)
  {
    var once := UpdateChatList(data, m);
    var twice := UpdateChatList(Some(once), m);
    forall i | 0 <= i < |once| ensures twice[i] == once[i] {
    }
  }

  /** The react-query cache as the page uses it: messages per chat id, and the chat list. */
  datatype QueryCache = QueryCache(messages: map<int, seq<MessageWithSender>>, chats: Option<seq<ChatWithParticipants>>)

  /** What `lastMessage` holds after the socket's `onmessage` parsed a frame. */
  datatype Inbound =
    | FromServer(payload: Payload)
      /** A `type` the page has no case for. */
    | OtherType(tag: string)

  function MessagesOf(cache: QueryCache, chatId: int): Option<seq<MessageWithSender>> {
    if chatId in cache.messages then Some(cache.messages[chatId]) else None
  }

  /**
   * The page's effect on `lastMessage`: a `new_message` appends to its chat's message
   * query and refreshes the chat list; anything else leaves the cache untouched.
   */
  function OnLastMessage(cache: QueryCache, last: Option<Inbound>): (r: QueryCache)
    ensures !(last.Some? && last.value.FromServer? && last.value.payload.NewMessage?) ==> r == cache
    ensures last.Some? && last.value.FromServer? && last.value.payload.NewMessage? ==>
              var m := last.value.payload.message;
              && r.messages.Keys == cache.messages.Keys + {m.message.chatId}
              && (forall k :: k in cache.messages && k != m.message.chatId ==> r.messages[k] == cache.messages[k])
              && r.messages[m.message.chatId] == OrEmpty(MessagesOf(cache, m.message.chatId)) + [m]
              && r.chats == Some(UpdateChatList(cache.chats, m))
  {
    match last
    case Some(FromServer(NewMessage(m))) =>
      var id := m.message.chatId;
      QueryCache(cache.messages[id := AppendMessage(MessagesOf(cache, id), m)], Some(UpdateChatList(cache.chats, m)))
    case _ => cache
  }

  /**
   * `chat.participants.find(p => p.userId !== user?.id)?.user`: the first participant who
   * is not the signed-in user. Without a user, `user?.id` is `undefined` and the first
   * participant matches.
   */
  function OtherParticipant(participants: seq<ParticipantWithUser>, currentUserId: Option<string>): (r: Option<User>)
    ensures r.None? <==> forall i :: 0 <= i < |participants| ==> Some(participants[i].participant.userId) == currentUserId
    ensures r.Some? ==> exists i :: 0 <= i < |participants| && r.value == participants[i].user
                                    && Some(participants[i].participant.userId) != currentUserId
                                    && forall k :: 0 <= k < i ==> Some(participants[k].participant.userId) == currentUserId
  {
    if participants == [] then None
    else if Some(participants[0].participant.userId) != currentUserId then Some(participants[0].user)
    else
      var r := OtherParticipant(participants[1..], currentUserId);
      assert forall i :: 1 <= i < |participants| ==> participants[1..][i - 1] == participants[i];
      r
  }

  /** `` `${first || ''} ${last || ''}`.trim() ``: the full name of a user, possibly empty. */
  function FullName(u: User): string {
    Trim(OrEmpty(u.firstName) + " " + OrEmpty(u.lastName))
  }

  /**
   * The label of a user: the trimmed full name, else the email, else `fallback`.
   * An empty string counts as missing at each step.
   */
  function DisplayName(u: User, fallback: string): (r: string)
    ensures FullName(u) != [] ==> r == FullName(u)
    ensures FullName(u) == [] && Truthy(u.email) ==> r == u.email.value
    ensures FullName(u) == [] && !Truthy(u.email) ==> r == fallback
    ensures fallback != [] ==> r != []
  {
    if FullName(u) != [] then FullName(u)
    else if Truthy(u.email) then u.email.value
    else fallback
  }

  /** A user with neither name part gets an empty full name, so the label falls through to the email. */
  lemma NamelessUserShowsEmail(u: User, fallback: string)
    requires OrEmpty(u.firstName) == [] && OrEmpty(u.lastName) == []
    ensures DisplayName(u, fallback) == if Truthy(u.email) then u.email.value else fallback
  {
    assert FullName(u) == [] by {
      assert OrEmpty(u.firstName) + " " + OrEmpty(u.lastName) == " ";
      assert IsSpace(' ');
    }
  }

  /**
   * `getChatName`: a group shows its name or `Group Chat`; a direct chat shows the
   * other participant's label (`Unknown User` as the last resort), or `Chat` when
   * there is no other participant.
   */
  function ChatName(c: ChatWithParticipants, currentUserId: Option<string>): (r: string)
    ensures c.chat.isGroup ==> r == if Truthy(c.chat.name) then c.chat.name.value else "Group Chat"
    ensures !c.chat.isGroup && OtherParticipant(c.participants, currentUserId).None? ==> r == "Chat"
    ensures !c.chat.isGroup && OtherParticipant(c.participants, currentUserId).Some? ==>
              r == DisplayName(OtherParticipant(c.participants, currentUserId).value, "Unknown User")
    ensures r != []
  {
    if c.chat.isGroup then
      if Truthy(c.chat.name) then c.chat.name.value else "Group Chat"
    else
      match OtherParticipant(c.participants, currentUserId)
      case None => "Chat"
      case Some(u) => DisplayName(u, "Unknown User")
  }

  /** `if (activeChatId)`: `null` and the id `0` are both falsy. */
  predicate IsActive(id: Option<int>) {
    id.Some? && id.value != 0
  }

  /** The rooms a socket is in after sending `frames`, counting from no room. */
  function Joined(frames: seq<Frame>): set<int> {
    if frames == [] then {}
    else
      var prev := Joined(frames[..|frames| - 1]);
      match frames[|frames| - 1]
      case JoinChat(chatId, _) => prev + {chatId}
      case LeaveChat(chatId) => prev - {chatId}
      case _ => prev
  }

  /**
   * `Joined` is what the server's `chatRooms` records for the socket: replaying the
   * frames through the `message` handler leaves the socket in exactly those rooms.
   */
  lemma {:induction false} JoinedIsServerMembership(rooms: RoomMap, c: ConnId, frames: seq<Frame>)
    requires forall k :: !IsMember(rooms, k, c)
    ensures forall k :: IsMember(Replay(rooms, c, frames), k, c) <==> k in Joined(frames)
  {
    if frames != [] {
      JoinedIsServerMembership(rooms, c, frames[..|frames| - 1]);
    }
  }

  /** `leaveChat` then `joinChat` as `handleChatSelect` sends them; `joinChat` sends nothing without a user. */
  function SelectFrames(previous: Option<int>, chatId: int, userId: Option<string>): seq<Frame> {
    (if IsActive(previous) then [LeaveChat(previous.value)] else [])
    + (if userId.Some? then [JoinChat(chatId, userId)] else [])
  }

  /** The frame the cleanup of the join/leave effect sends for the chat it captured. */
  function CleanupFrames(captured: Option<int>): seq<Frame> {
    if IsActive(captured) then [LeaveChat(captured.value)] else []
  }

  lemma JoinedSnoc(frames: seq<Frame>, f: Frame)
    ensures f.JoinChat? ==> Joined(frames + [f]) == Joined(frames) + {f.chatId}
    ensures f.LeaveChat? ==> Joined(frames + [f]) == Joined(frames) - {f.chatId}
    ensures !f.JoinChat? && !f.LeaveChat? ==> Joined(frames + [f]) == Joined(frames)
  {
    assert (frames + [f])[..|frames + [f]| - 1] == frames;
  }

  /** The page's socket state: the active chat and what its join/leave effect last captured. */
  class PageState {
    /** `activeChatId`. */
    var activeChatId: Option<int>
    /** The `activeChatId` captured by the cleanup of the join/leave effect that last ran. */
    var effectChatId: Option<int>
    /** Every frame the page handed to the socket, in order. */
    var frames: seq<Frame>
    /** `useAuth().user?.id`. */
    const userId: Option<string>

    /** The page is in the room of its active chat. */
    ghost predicate InActiveRoom()
      reads this
    {
      IsActive(activeChatId) && userId.Some? ==> activeChatId.value in Joined(frames)
    }

    constructor (userId: Option<string>)
      ensures this.userId == userId
      ensures activeChatId == None && effectChatId == None && frames == []
      ensures InActiveRoom()
    {
      this.userId := userId;
      activeChatId := None;
      effectChatId := None;
      frames := [];
    }

    /** `handleChatSelect(chatId)`: leave the active chat if any, make `chatId` active, join it. */
    method HandleChatSelect(chatId: int)
      modifies this
      ensures activeChatId == Some(chatId) && effectChatId == old(effectChatId)
      ensures frames == old(frames) + SelectFrames(old(activeChatId), chatId, userId)
      ensures InActiveRoom()
    {
      var out := [];
      if IsActive(activeChatId) {
        out := out + [LeaveChat(activeChatId.value)];
      }
      activeChatId := Some(chatId);
      if userId.Some? {
        out := out + [JoinChat(chatId, userId)];
      }
      JoinedAfterSelect(frames, out, chatId, userId);
      frames := frames + out;
    }

    /**
     * A render commit of the page as written. `leaveChat` is a new function on every
     * render, so the effect's dependencies always differ and React runs the previous
     * cleanup, which leaves the chat it captured, before running the effect again.
     */
    method CommitAsWritten()
      modifies this
      ensures activeChatId == old(activeChatId) && effectChatId == activeChatId
      ensures frames == old(frames) + CleanupFrames(old(effectChatId))
    {
      frames := frames + CleanupFrames(effectChatId);
      effectChatId := activeChatId;
    }

    /** A render commit when the effect depends on `activeChatId` alone: the cleanup runs only when it changed. */
    method Commit()
      requires InActiveRoom()
      modifies this
      ensures activeChatId == old(activeChatId) && effectChatId == activeChatId
      ensures frames == old(frames) + if old(effectChatId) != activeChatId then CleanupFrames(old(effectChatId)) else []
      ensures InActiveRoom()
    {
      if effectChatId != activeChatId {
        var out := CleanupFrames(effectChatId);
        if out != [] {
          JoinedSnoc(frames, out[0]);
          assert frames + out == frames + [out[0]];
        }
        frames := frames + out;
      } else {
        assert frames + [] == frames;
      }
      effectChatId := activeChatId;
    }
  }

  lemma JoinedAfterSelect(frames: seq<Frame>, out: seq<Frame>, chatId: int, userId: Option<string>)
    requires userId.Some? ==> out != [] && out[|out| - 1] == JoinChat(chatId, userId)
    ensures userId.Some? ==> chatId in Joined(frames + out)
  {
    if userId.Some? {
      var all := frames + out;
      assert all[..|all| - 1] == frames + out[..|out| - 1];
      assert all[|all| - 1] == JoinChat(chatId, userId);
    }
  }

  /**
   * The page as written, for a signed-in user whose `user` object stays the same
   * across renders, so that the page keeps one open socket: open chat 5, let React
   * commit that render, then re-render once more for any reason (an incoming event,
   * say). The second commit's cleanup sends `leave_chat` for chat 5 while chat 5 is
   * still active.
   */
  method ActiveRoomLostAfterRerender() returns (active: Option<int>, joined: set<int>)
    ensures active == Some(5) && 5 !in joined
  {
    var page := new PageState(Some("u1"));
    page.CommitAsWritten();
    page.HandleChatSelect(5);
    page.CommitAsWritten();
    page.CommitAsWritten();
    JoinedSnoc([JoinChat(5, Some("u1"))], LeaveChat(5));
    JoinedSnoc([], JoinChat(5, Some("u1")));
    active, joined := page.activeChatId, Joined(page.frames);
  }

  /** The same steps with the corrected commit keep the page in chat 5's room. */
  method ActiveRoomKeptAfterRerender() returns (active: Option<int>, joined: set<int>)
    ensures active == Some(5) && 5 in joined
  {
    var page := new PageState(Some("u1"));
    page.Commit();
    page.HandleChatSelect(5);
    page.Commit();
    page.Commit();
    active, joined := page.activeChatId, Joined(page.frames);
  }
}
