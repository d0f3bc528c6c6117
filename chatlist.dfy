/** The chat list pane: the search filter and what each row shows. */
module ChatList {
  import opened Options
  import opened Strings
  import opened Schema
  import opened ChatPage

  /** `sub` is `s` with some entries left out and the rest in their original order. */
  predicate IsSubsequence<T(==)>(sub: seq<T>, s: seq<T>) {
    if sub == [] then true
    else if s == [] then false
    else (sub[0] == s[0] && IsSubsequence(sub[1..], s[1..])) || IsSubsequence(sub, s[1..])
  }

  /** The search test of one chat: its name, lowercased, contains the lowercased query. */
  predicate Matches(c: ChatWithParticipants, query: string, currentUserId: Option<string>) {
    Contains(ToLower(ChatName(c, currentUserId)), ToLower(query))
  }

  /** `filteredChats`: the chats whose name matches the search query, in list order. */
  function FilterChats(chats: seq<ChatWithParticipants>, query: string, currentUserId: Option<string>): (r: seq<ChatWithParticipants>)
    ensures IsSubsequence(r, chats)
    ensures forall c :: c in r <==> c in chats && Matches(c, query, currentUserId)
    ensures |r| <= |chats|
  {
    if chats == [] then []
    else
      var rest := FilterChats(chats[1..], query, currentUserId);
      assert chats == [chats[0]] + chats[1..];
      if Matches(chats[0], query, currentUserId) then
        assert ([chats[0]] + rest)[1..] == rest;
        [chats[0]] + rest
      else rest
  }

  /** An empty search box shows every chat. */
  lemma {:induction false} EmptyQueryKeepsAll(chats: seq<ChatWithParticipants>, currentUserId: Option<string>)
    ensures FilterChats(chats, [], currentUserId) == chats
  {
    if chats != [] {
      assert [] <= ToLower(ChatName(chats[0], currentUserId));
      EmptyQueryKeepsAll(chats[1..], currentUserId);
    }
  }

  /** What one row of the list shows. */
  datatype Row = Row(name: string, initials: string, lastMessage: Option<Message>, isActive: bool)

  /** The row of `c`: its name and initials, its first cached message as the preview, and whether it is the active chat. */
  function RowOf(c: ChatWithParticipants, activeChatId: Option<int>, currentUserId: Option<string>): (r: Row)
    ensures r.name == ChatName(c, currentUserId) && r.initials == GetInitials(r.name)
    ensures r.lastMessage.Some? <==> c.messages != []
    ensures r.lastMessage.Some? ==> r.lastMessage.value == c.messages[0]
    ensures r.isActive <==> activeChatId == Some(c.chat.id)
  {
    var name := ChatName(c, currentUserId);
    Row(name, GetInitials(name), if c.messages != [] then Some(c.messages[0]) else None, Some(c.chat.id) == activeChatId)
  }

  /** After a `new_message`, the row of its chat previews that message. */
  lemma RowPreviewsNewMessage(data: Option<seq<ChatWithParticipants>>, m: MessageWithSender, i: nat,
                              activeChatId: Option<int>, currentUserId: Option<string>)
    requires i < |OrEmpty(data)| && OrEmpty(data)[i].chat.id == m.message.chatId
    ensures RowOf(UpdateChatList(data, m)[i], activeChatId, currentUserId).lastMessage == Some(m.message)
  {
  }
}
