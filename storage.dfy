/**
 * The deterministic parts of the database storage layer: grouping the joined
 * chat/participant/user rows of `getUserChats`, the participant insertion of
 * `createChat`, the row mappings of `getChatMessages` and `getChatParticipants`,
 * and the decision of `getOrCreateDirectChat`. Every SQL query is replaced by
 * its result, given as a sequence in the order the database returns it.
 */
module Storage {
  import opened Options
  import opened Schema

  /** One row of the chats ⋈ chat_participants ⋈ users query of `getUserChats`. */
  datatype ChatRow = ChatRow(chat: Chat, participant: ChatParticipant, user: User)

  /** `{ ...row.participant, user: row.user }`. */
  function WithUser(row: ChatRow): ParticipantWithUser {
    ParticipantWithUser(row.participant, row.user)
  }

  predicate HasChat(rows: seq<ChatRow>, id: int) {
    exists i :: 0 <= i < |rows| && rows[i].chat.id == id
  }

  /** The index of the first row that belongs to chat `id`. */
  function FirstRow(rows: seq<ChatRow>, id: int): (i: nat)
    requires HasChat(rows, id)
    ensures i < |rows| && rows[i].chat.id == id
    ensures forall k :: 0 <= k < i ==> rows[k].chat.id != id
  {
    if rows[0].chat.id == id then 0
    else
      assert HasChat(rows[1..], id) by {
        var j :| 0 <= j < |rows| && rows[j].chat.id == id;
        assert rows[1..][j - 1] == rows[j];
      }
      1 + FirstRow(rows[1..], id)
  }

  /** The keys of `chatMap` in insertion order: every chat id of `rows` once, by first appearance. */
  function ChatIds(rows: seq<ChatRow>): (ids: seq<int>)
    ensures forall a, b :: 0 <= a < b < |ids| ==> ids[a] != ids[b]
    ensures forall id :: id in ids <==> HasChat(rows, id)
  {
    if rows == [] then []
    else
      var init := rows[..|rows| - 1];
      var prev := ChatIds(init);
      var id := rows[|rows| - 1].chat.id;
      forall x ensures HasChat(rows, x) <==> HasChat(init, x) || x == id {
        SnocFacts(rows, x);
      }
      if id in prev then prev else prev + [id]
  }

  /** The participants `chatMap.get(id)` collects: one per row of chat `id`, in row order. */
  function ParticipantsOf(rows: seq<ChatRow>, id: int): (ps: seq<ParticipantWithUser>)
    ensures |ps| <= |rows|
    ensures forall k :: 0 <= k < |ps| ==> exists i :: 0 <= i < |rows| && rows[i].chat.id == id && ps[k] == WithUser(rows[i])
    ensures !HasChat(rows, id) ==> ps == []
  {
    if rows == [] then []
    else
      var init := rows[..|rows| - 1];
      var last := rows[|rows| - 1];
      var prev := ParticipantsOf(init, id);
      SnocFacts(rows, id);
      var ps := prev + (if last.chat.id == id then [WithUser(last)] else []);
      assert forall k :: 0 <= k < |prev| ==> ps[k] == prev[k];
      assert forall i :: 0 <= i < |init| ==> init[i] == rows[i];
      ps
  }

  /** The entry `getUserChats` returns for chat `id`: its first row's chat record, its participants, its latest message if any. */
  function GroupedChat(rows: seq<ChatRow>, latest: map<int, Message>, id: int): ChatWithParticipants
    requires HasChat(rows, id)
  {
    ChatWithParticipants(
      rows[FirstRow(rows, id)].chat,
      ParticipantsOf(rows, id),
      if id in latest then [latest[id]] else [])
  }

  /** How membership and first rows change when one row is appended. */
  lemma SnocFacts(rows: seq<ChatRow>, id: int)
    requires rows != []
    ensures HasChat(rows, id) <==> HasChat(rows[..|rows| - 1], id) || rows[|rows| - 1].chat.id == id
    ensures HasChat(rows[..|rows| - 1], id) ==> FirstRow(rows, id) == FirstRow(rows[..|rows| - 1], id)
    ensures !HasChat(rows[..|rows| - 1], id) && rows[|rows| - 1].chat.id == id ==> FirstRow(rows, id) == |rows| - 1
  {
    var init := rows[..|rows| - 1];
    assert forall i :: 0 <= i < |init| ==> init[i] == rows[i];
    if HasChat(init, id) {
      var f := FirstRow(init, id);
      assert rows[f].chat.id == id;
    }
  }

  /** The grouping keeps the chats in the order of their first row (`Map` insertion order). */
  lemma {:induction false} ChatIdsFollowFirstRows(rows: seq<ChatRow>)
    ensures forall a, b :: 0 <= a < b < |ChatIds(rows)| ==>
              FirstRow(rows, ChatIds(rows)[a]) < FirstRow(rows, ChatIds(rows)[b])
  {
    if rows != [] {
      var init := rows[..|rows| - 1];
      var id := rows[|rows| - 1].chat.id;
      var prev := ChatIds(init);
      ChatIdsFollowFirstRows(init);
      var ids := ChatIds(rows);
      forall x | x in prev ensures FirstRow(rows, x) == FirstRow(init, x) && FirstRow(init, x) < |init| {
        SnocFacts(rows, x);
      }
      if id !in prev {
        SnocFacts(rows, id);
        assert ids == prev + [id];
        forall a, b | 0 <= a < b < |ids| ensures FirstRow(rows, ids[a]) < FirstRow(rows, ids[b]) {
          assert ids[a] == prev[a];
          if b < |prev| {
            assert ids[b] == prev[b];
          }
        }
      }
    }
  }

  /** Sum over `ids` of the number of participants grouped under each. */
  function CountOver(rows: seq<ChatRow>, ids: seq<int>): nat {
    if ids == [] then 0 else |ParticipantsOf(rows, ids[0])| + CountOver(rows, ids[1..])
  }

  lemma {:induction false} CountOverSnoc(rows: seq<ChatRow>, ids: seq<int>, id: int)
    ensures CountOver(rows, ids + [id]) == CountOver(rows, ids) + |ParticipantsOf(rows, id)|
  {
    if ids != [] {
      assert (ids + [id])[1..] == ids[1..] + [id];
      CountOverSnoc(rows, ids[1..], id);
    } else {
      assert ([] + [id])[1..] == [];
    }
  }

  /** Appending a row adds one participant, to the chat of that row. */
  lemma {:induction false} CountOverStep(rows: seq<ChatRow>, ids: seq<int>)
    requires rows != []
    requires forall a, b :: 0 <= a < b < |ids| ==> ids[a] != ids[b]
    ensures CountOver(rows, ids) == CountOver(rows[..|rows| - 1], ids) + (if rows[|rows| - 1].chat.id in ids then 1 else 0)
  {
    if ids != [] {
      CountOverStep(rows, ids[1..]);
      var x := rows[|rows| - 1].chat.id;
      assert x in ids <==> x == ids[0] || x in ids[1..];
    }
  }

  /** Every row lands in exactly one group: the participant counts add up to the number of rows. */
  lemma {:induction false} EveryRowGrouped(rows: seq<ChatRow>)
    ensures CountOver(rows, ChatIds(rows)) == |rows|
  {
    if rows != [] {
      var init := rows[..|rows| - 1];
      var id := rows[|rows| - 1].chat.id;
      var prev := ChatIds(init);
      EveryRowGrouped(init);
      CountOverStep(rows, prev);
      if id !in prev {
        CountOverSnoc(rows, prev, id);
        assert ParticipantsOf(init, id) == [];
        assert |ParticipantsOf(rows, id)| == 1;
      }
    }
  }

  /** Total number of participants over a list of grouped chats. */
  function ParticipantCount(chats: seq<ChatWithParticipants>): nat {
    if chats == [] then 0 else |chats[0].participants| + ParticipantCount(chats[1..])
  }

  lemma {:induction false} ParticipantCountIsCountOver(chats: seq<ChatWithParticipants>, rows: seq<ChatRow>, ids: seq<int>)
    requires |chats| == |ids|
    requires forall j :: 0 <= j < |chats| ==> chats[j].participants == ParticipantsOf(rows, ids[j])
    ensures ParticipantCount(chats) == CountOver(rows, ids)
  {
    if chats != [] {
      ParticipantCountIsCountOver(chats[1..], rows, ids[1..]);
    }
  }

  /** What the grouping of one more row changes: at most a new id at the end, and one more participant for that row's chat. */
  lemma GroupSnoc(rows: seq<ChatRow>)
    requires rows != []
    ensures var init, id := rows[..|rows| - 1], rows[|rows| - 1].chat.id;
            && ChatIds(rows) == (if id in ChatIds(init) then ChatIds(init) else ChatIds(init) + [id])
            && (forall x :: HasChat(rows, x) <==> HasChat(init, x) || x == id)
            && (forall x :: HasChat(init, x) ==> FirstRow(rows, x) == FirstRow(init, x))
            && (!HasChat(init, id) ==> FirstRow(rows, id) == |init|)
            && (forall x :: ParticipantsOf(rows, x) == ParticipantsOf(init, x) + (if x == id then [WithUser(rows[|rows| - 1])] else []))
  {
    forall x ensures HasChat(rows, x) <==> HasChat(rows[..|rows| - 1], x) || x == rows[|rows| - 1].chat.id {
      SnocFacts(rows, x);
    }
    forall x | HasChat(rows[..|rows| - 1], x) ensures FirstRow(rows, x) == FirstRow(rows[..|rows| - 1], x) {
      SnocFacts(rows, x);
    }
    SnocFacts(rows, rows[|rows| - 1].chat.id);
  }

  /**
   * The first loop of `getUserChats`: `chatMap` with one group per chat id, and the
   * order in which the ids were first inserted.
   */
  method GroupRows(rows: seq<ChatRow>) returns (chatMap: map<int, ChatWithParticipants>, order: seq<int>)
    ensures order == ChatIds(rows)
    ensures forall id :: id in chatMap <==> id in order
    ensures forall id :: id in chatMap ==>
              HasChat(rows, id) &&
              chatMap[id] == ChatWithParticipants(rows[FirstRow(rows, id)].chat, ParticipantsOf(rows, id), [])
  {
    chatMap, order := map[], [];
    for i := 0 to |rows|
      invariant order == ChatIds(rows[..i])
      invariant forall id :: id in chatMap <==> id in order
      invariant forall id :: id in chatMap ==>
                  HasChat(rows[..i], id) &&
                  chatMap[id] == ChatWithParticipants(rows[FirstRow(rows[..i], id)].chat, ParticipantsOf(rows[..i], id), [])
    {
      var row := rows[i];
      ghost var pre := rows[..i];
      ghost var post := rows[..i + 1];
      assert post[..|post| - 1] == pre && post[|post| - 1] == row;
      GroupSnoc(post);
      if row.chat.id !in chatMap {
        chatMap := chatMap[row.chat.id := ChatWithParticipants(row.chat, [], [])];
        order := order + [row.chat.id];
      }
      var chat := chatMap[row.chat.id];
      chatMap := chatMap[row.chat.id := chat.(participants := chat.participants + [WithUser(row)])];
    }
    assert rows[..|rows|] == rows;
  }

  /**
   * `getUserChats` after its query: walk the rows, opening a group for each new chat
   * id and appending the row's participant to its group, then give each group its
   * latest message. `latest` maps a chat id to the newest message of that chat, and
   * has no entry for a chat without messages.
   */
  method GroupUserChats(rows: seq<ChatRow>, latest: map<int, Message>) returns (chats: seq<ChatWithParticipants>)
    ensures |chats| == |ChatIds(rows)|
    ensures forall j :: 0 <= j < |chats| ==> chats[j] == GroupedChat(rows, latest, ChatIds(rows)[j])
    ensures forall j :: 0 <= j < |chats| ==> chats[j].chat.id == ChatIds(rows)[j]
    ensures forall j :: 0 <= j < |chats| ==>
              chats[j].messages == if chats[j].chat.id in latest then [latest[chats[j].chat.id]] else []
    ensures ParticipantCount(chats) == |rows|
  {
    var chatMap, order := GroupRows(rows);
    forall k | 0 <= k < |order| ensures order[k] in chatMap {
      assert order[k] in order;
    }
    chats := [];
    for j := 0 to |order|
      invariant |chats| == j
      invariant forall k :: 0 <= k < j ==> chats[k] == GroupedChat(rows, latest, order[k])
    {
      var chat := chatMap[order[j]];
      if order[j] in latest {
        chat := chat.(messages := [latest[order[j]]]);
      }
      chats := chats + [chat];
    }
    EveryRowGrouped(rows);
    ParticipantCountIsCountOver(chats, rows, order);
  }

  /** The columns of a `chats` insert; the database assigns the id and both timestamps. */
  datatype InsertChat = InsertChat(name: Option<string>, isGroup: bool)

  /** A `chat_participants` insert; the database assigns the row id and `joinedAt`. */
  datatype ParticipantRow = ParticipantRow(chatId: int, userId: string)

  /**
   * The tables `createChat` and `getOrCreateDirectChat` touch, and the `chats.id` serial.
   * Only the ids of `users` matter here: `chat_participants.user_id` references them.
   */
  datatype Tables = Tables(users: set<string>, chats: seq<Chat>, participants: seq<ParticipantRow>, nextChatId: int)

  /**
   * The serial is ahead of every chat id, in `chats` and in `chat_participants`
   * (whose `chat_id` references `chats.id`), so the next insert gets a fresh id.
   */
  predicate FreshSerial(db: Tables) {
    && (forall i :: 0 <= i < |db.chats| ==> db.chats[i].id < db.nextChatId)
    && (forall i :: 0 <= i < |db.participants| ==> db.participants[i].chatId < db.nextChatId)
  }

  /** One participant row per id, in order, all for chat `chatId`. */
  function ParticipantRows(chatId: int, userIds: seq<string>): (r: seq<ParticipantRow>)
    ensures |r| == |userIds|
    ensures forall k :: 0 <= k < |r| ==> r[k].chatId == chatId && r[k].userId == userIds[k]
  {
    if userIds == [] then [] else [ParticipantRow(chatId, userIds[0])] + ParticipantRows(chatId, userIds[1..])
  }

  /** How many of `ids` come before the first one with no `users` row. */
  function KnownPrefix(users: set<string>, ids: seq<string>): (n: nat)
    ensures n <= |ids|
    ensures forall k :: 0 <= k < n ==> ids[k] in users
    ensures n < |ids| ==> ids[n] !in users
  {
    if ids == [] || ids[0] !in users then 0
    else
      var n := KnownPrefix(users, ids[1..]);
      assert forall k :: 1 <= k <= n ==> ids[k] == ids[1..][k - 1];
      1 + n
  }

  /**
   * `createChat(chat, participantIds)`: insert the chat, then one participant row per id,
   * in order and without removing duplicates. `now` is the database clock. There is no
   * transaction: the first id with no `users` row makes its insert fail, and the call
   * throws (`None`) with the chat row and the participant rows before it already written.
   */
  method CreateChat(db: Tables, insert: InsertChat, participantIds: seq<string>, now: Timestamp)
    returns (newChat: Option<Chat>, db': Tables)
    ensures var created := Chat(db.nextChatId, insert.name, insert.isGroup, now, now);
            && db'.chats == db.chats + [created] && db'.nextChatId == db.nextChatId + 1
            && db'.users == db.users
            && db'.participants == db.participants + ParticipantRows(created.id, participantIds[..KnownPrefix(db.users, participantIds)])
            && (newChat.Some? ==> newChat.value == created)
    ensures newChat.Some? <==> forall k :: 0 <= k < |participantIds| ==> participantIds[k] in db.users
    ensures newChat.Some? ==> db'.participants == db.participants + ParticipantRows(newChat.value.id, participantIds)
    ensures FreshSerial(db) ==> FreshSerial(db')
  {
    var created := Chat(db.nextChatId, insert.name, insert.isGroup, now, now);
    var table := db.participants;
    var k := 0;
    while k < |participantIds| && participantIds[k] in db.users
      invariant k <= |participantIds|
      invariant forall j :: 0 <= j < k ==> participantIds[j] in db.users
      invariant table == db.participants + ParticipantRows(created.id, participantIds[..k])
    {
      ParticipantRowsSnoc(created.id, participantIds[..k], participantIds[k]);
      assert participantIds[..k + 1] == participantIds[..k] + [participantIds[k]];
      table := table + [ParticipantRow(created.id, participantIds[k])];
      k := k + 1;
    }
    assert k == KnownPrefix(db.users, participantIds);
    assert participantIds[..|participantIds|] == participantIds;
    db' := Tables(db.users, db.chats + [created], table, db.nextChatId + 1);
    newChat := if k == |participantIds| then Some(created) else None;
  }

  lemma {:induction false} ParticipantRowsSnoc(chatId: int, userIds: seq<string>, u: string)
    ensures ParticipantRows(chatId, userIds + [u]) == ParticipantRows(chatId, userIds) + [ParticipantRow(chatId, u)]
  {
    if userIds != [] {
      assert (userIds + [u])[1..] == userIds[1..] + [u];
      ParticipantRowsSnoc(chatId, userIds[1..], u);
    } else {
      assert ([] + [u])[1..] == [];
    }
  }

  /** A chat the existence query of `getOrCreateDirectChat` accepts for `u1` and `u2`. */
  predicate Qualifies(chat: Chat, participants: seq<ParticipantRow>, u1: string, u2: string) {
    && !chat.isGroup
    && u1 != u2
    && ParticipantRow(chat.id, u1) in participants
    && ParticipantRow(chat.id, u2) in participants
  }

  /** The `limit(1)` of the existence query: the first qualifying chat, if any. */
  function FindDirectChat(chats: seq<Chat>, participants: seq<ParticipantRow>, u1: string, u2: string): (r: Option<Chat>)
    ensures r.None? <==> forall i :: 0 <= i < |chats| ==> !Qualifies(chats[i], participants, u1, u2)
    ensures r.Some? ==> exists i :: 0 <= i < |chats| && chats[i] == r.value && Qualifies(chats[i], participants, u1, u2)
                                    && forall k :: 0 <= k < i ==> !Qualifies(chats[k], participants, u1, u2)
    ensures u1 == u2 ==> r.None?
  {
    if chats == [] then None
    else if Qualifies(chats[0], participants, u1, u2) then Some(chats[0])
    else
      var r := FindDirectChat(chats[1..], participants, u1, u2);
      assert forall i :: 1 <= i < |chats| ==> chats[1..][i - 1] == chats[i];
      r
  }

  /**
   * `getOrCreateDirectChat(u1, u2)`: return the existing direct chat of the two users,
   * or create a non-group chat with participants `[u1, u2]`. When one of them has no
   * `users` row the creation throws (`None`) and leaves the new chat behind without
   * both participants, so the next call does not find it either and creates another.
   */
  method GetOrCreateDirectChat(db: Tables, u1: string, u2: string, now: Timestamp) returns (chat: Option<Chat>, db': Tables)
    ensures var found := FindDirectChat(db.chats, db.participants, u1, u2);
            && (found.Some? ==> chat == found && db' == db)
            && (found.None? ==>
                  var created := Chat(db.nextChatId, None, false, now, now);
                  && db'.chats == db.chats + [created] && db'.users == db.users
                  && (chat.Some? <==> u1 in db.users && u2 in db.users)
                  && (chat.Some? ==> chat.value == created
                                     && db'.participants == db.participants + [ParticipantRow(created.id, u1), ParticipantRow(created.id, u2)]))
    ensures chat.Some? && u1 != u2 ==> Qualifies(chat.value, db'.participants, u1, u2)
    ensures FreshSerial(db) ==> FreshSerial(db')
    ensures FreshSerial(db) && u1 != u2 && chat.Some? ==> FindDirectChat(db'.chats, db'.participants, u1, u2) == chat
    ensures FreshSerial(db) && chat.None? ==> FindDirectChat(db'.chats, db'.participants, u1, u2).None?
  {
    var found := FindDirectChat(db.chats, db.participants, u1, u2);
    if found.Some? {
      chat, db' := found, db;
    } else {
      chat, db' := CreateChat(db, InsertChat(None, false), [u1, u2], now);
      var id := db.nextChatId;
      var n := KnownPrefix(db.users, [u1, u2]);
      var added := ParticipantRows(id, [u1, u2][..n]);
      assert db'.participants == db.participants + added;
      if chat.Some? {
        assert ParticipantRows(id, [u1, u2]) == [ParticipantRow(id, u1), ParticipantRow(id, u2)];
        if FreshSerial(db) && u1 != u2 {
          CreatedDirectChatIsFound(db, chat.value, u1, u2);
        }
      } else if FreshSerial(db) {
        assert n < 2;
        assert ParticipantRow(id, u2) !in added by {
          if n == 1 {
            assert added == [ParticipantRow(id, u1)];
            assert u1 != u2;
          }
        }
        OrphanIsNotFound(db, Chat(id, None, false, now, now), added, u1, u2);
      }
    }
  }

  /**
   * A chat created after the lookup, with rows for only one of the two users, leaves
   * the lookup without a match.
   */
  lemma OrphanIsNotFound(db: Tables, orphan: Chat, added: seq<ParticipantRow>, u1: string, u2: string)
    requires FreshSerial(db) && orphan.id == db.nextChatId
    requires FindDirectChat(db.chats, db.participants, u1, u2).None?
    requires forall k :: 0 <= k < |added| ==> added[k].chatId == orphan.id
    requires ParticipantRow(orphan.id, u1) !in added || ParticipantRow(orphan.id, u2) !in added
    ensures FindDirectChat(db.chats + [orphan], db.participants + added, u1, u2).None?
  {
    var parts := db.participants + added;
    var chats := db.chats + [orphan];
    forall i | 0 <= i < |chats| ensures !Qualifies(chats[i], parts, u1, u2) {
      if i < |db.chats| {
        assert chats[i] == db.chats[i];
        assert !Qualifies(db.chats[i], db.participants, u1, u2);
      } else {
        assert chats[i] == orphan;
      }
    }
  }

  /**
   * After a direct chat is created, the next `getOrCreateDirectChat` for the same two
   * users, in either order, finds it instead of creating another.
   */
  lemma CreatedDirectChatIsFound(db: Tables, chat: Chat, u1: string, u2: string)
    requires FreshSerial(db) && u1 != u2
    requires FindDirectChat(db.chats, db.participants, u1, u2).None?
    requires chat == Chat(db.nextChatId, None, false, chat.createdAt, chat.updatedAt)
    ensures var parts := db.participants + [ParticipantRow(chat.id, u1), ParticipantRow(chat.id, u2)];
            && FindDirectChat(db.chats + [chat], parts, u1, u2) == Some(chat)
            && FindDirectChat(db.chats + [chat], parts, u2, u1) == Some(chat)
  {
    var parts := db.participants + [ParticipantRow(chat.id, u1), ParticipantRow(chat.id, u2)];
    var chats := db.chats + [chat];
    forall i | 0 <= i < |db.chats|
      ensures !Qualifies(chats[i], parts, u1, u2) && !Qualifies(chats[i], parts, u2, u1)
    {
      assert chats[i] == db.chats[i];
      assert !Qualifies(db.chats[i], db.participants, u1, u2);
    }
    assert chats[|db.chats|] == chat;
    assert Qualifies(chat, parts, u1, u2) && Qualifies(chat, parts, u2, u1);
  }

  /** One row of the messages ⋈ users query of `getChatMessages`. */
  datatype MessageRow = MessageRow(message: Message, sender: User)

  /** `result.map(row => ({ ...row.message, sender: row.sender }))`. */
  function WithSenders(rows: seq<MessageRow>): (r: seq<MessageWithSender>)
    ensures |r| == |rows|
    ensures forall i :: 0 <= i < |rows| ==> r[i].message == rows[i].message && r[i].sender == rows[i].sender
  {
    if rows == [] then [] else [MessageWithSender(rows[0].message, rows[0].sender)] + WithSenders(rows[1..])
  }

  /** One row of the chat_participants ⋈ users query of `getChatParticipants`. */
  datatype ParticipantUserRow = ParticipantUserRow(participant: ChatParticipant, user: User)

  /** `result.map(row => ({ ...row.participant, user: row.user }))`. */
  function WithUsers(rows: seq<ParticipantUserRow>): (r: seq<ParticipantWithUser>)
    ensures |r| == |rows|
    ensures forall i :: 0 <= i < |rows| ==> r[i].participant == rows[i].participant && r[i].user == rows[i].user
  {
    if rows == [] then [] else [ParticipantWithUser(rows[0].participant, rows[0].user)] + WithUsers(rows[1..])
  }
}
