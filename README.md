# Chat rooms, caches and composer of a WhatsApp-style web chat

This project is a Dafny model of the core of a small real-time chat application. It has three parts.

- **Server.** An Express server keeps a `chatRooms` map from chat id to the set of WebSockets that joined the chat. Three things touch the map:
  - the `message` handler updates it on `join_chat` and `leave_chat` frames;
  - `broadcastToChat` fans payloads out over it, for `typing` frames and for the message posted through `POST /api/chats/:chatId/messages` after the participant check;
  - the `close` handler scrubs a socket out of every room.
- **Storage.** The storage layer groups the joined rows of `getUserChats` into chats with their participants, inserts a chat and its participants (`createChat`), and finds or creates the direct chat of two users (`getOrCreateDirectChat`). The `users` table enters only as the set of ids that `chat_participants.user_id` may reference; an insert that breaks that foreign key throws.
- **Client.** The React client:
  - updates its cached queries when a `new_message` event arrives;
  - names chats and users;
  - filters the chat list;
  - toggles the members of a new group;
  - reports typing from the message input and submits messages.

The code is organised in these modules:

- `Rooms`: the `chatRooms` map as a value.
  - `Join`, `Leave` and `Scrub` give the meaning of the three handlers that change it.
  - `FanOut` is one broadcast, proved to reach each OPEN member exactly once.
- `Routes`: the server.
  - The class `ChatServer` holds the map, the `userId` stamped on each socket, each socket's `readyState`, and every `ws.send` performed so far.
  - Its methods are the handlers. Each keeps the class invariant: no empty room remains, and every member is a live socket.
- `Storage`: the deterministic parts of the storage layer.
  - Every SQL query is replaced by its result rows.
  - The `for` loops over those rows are methods proved against specification functions.
- `ChatPage`: the page component.
  - It holds the cache updaters and the naming functions.
  - The class `PageState` holds the frames the page sends when the active chat changes and when React commits a render.
- `NewChatDialog`, `ChatList` and `ChatArea`: the three components. The dialog and the message input are classes over their React state.
- `Strings`: the JavaScript string operations the client uses: `trim`, case mapping, `includes`, `split(' ')` and avatar initials.
- `Options`, `Schema` and `Protocol`: the shared types, and the frames and payloads of the `/ws` socket.

## Model

| member | source | states |
|---|---|---|
| Rooms.Join | server/routes.ts:240-250 | `join_chat` creates the room if needed and adds the socket. The keys gain the chat id, membership gains exactly (chat, socket), and no room is left empty. |
| Rooms.Leave | server/routes.ts:252-261 | `leave_chat` removes exactly (chat, socket) and leaves every other room untouched. The room stays iff members remain, and no empty room appears. |
| Rooms.Scrub | server/routes.ts:277-286 | After `close`, the socket is in no room, every other membership is kept, a room stays iff it still has members, and no room is empty. |
| Rooms.ScrubRooms | server/routes.ts:279-284 | The `forEach` that deletes the socket from each room, and deletes rooms left empty, yields exactly `Scrub`. |
| Rooms.FanOut | server/routes.ts:220-230 | The `room.forEach` sends the payload once to each OPEN member and to no one else; no recipient is repeated. |
| Rooms.FanOutCount | server/routes.ts:224-228 | A broadcast performs exactly as many sends as the room has OPEN members. |
| Rooms.DistinctRecipientsCount | server/routes.ts:224-228 | Sends to distinct sockets number as many as the sockets reached. |
| Rooms.AbsentRoomGetsNothing | server/routes.ts:221-222 | Broadcasting to a chat with no room sends nothing. |
| Rooms.JoinIdempotent | server/routes.ts:244-247 | Joining twice is the same as joining once, because the room is a `Set`. |
| Rooms.LeaveNonMemberIsNoOp | server/routes.ts:254-260 | A `leave_chat` for a room the socket is not in, or for a missing room, leaves the map unchanged. |
| Rooms.JoinThenLeave | server/routes.ts:244-259 | A join followed by a leave restores the map, including dropping a room the join created. |
| Rooms.NoStaleDelivery | server/routes.ts:252-261 | After `leave_chat`, no broadcast to that room reaches the socket. |
| Rooms.ScrubIdempotent | server/routes.ts:277-286 | A second `close` cleanup of the same socket changes nothing. |
| Rooms.RecipientsSnoc | server/routes.ts:224-228 | One more send adds its target to the set of sockets reached. |
| Routes.HasParticipant | server/routes.ts:76 | `participants.some(p => p.userId === userId)` holds iff some participant has that user id. |
| Routes.MayPost | server/routes.ts:75-78 | Posting is allowed iff the chat exists and the sender is one of its participants. |
| Routes.ChatServer.constructor | server/routes.ts:217-218 | The server starts with no rooms, no sockets and no sends. |
| Routes.ChatServer.Accept | server/routes.ts:232 | A new connection is a fresh OPEN socket with no `userId`, in no room. |
| Routes.ChatServer.BeginClosing | server/routes.ts:224-226 | A socket leaving OPEN stays in its rooms and later broadcasts skip it. The invariant is kept. |
| Routes.ChatServer.BroadcastToChat | server/routes.ts:220-230 | Its sends are a fan-out of the payload to the room's OPEN members. They are appended to the outbox and nothing else changes. |
| Routes.ChatServer.HandleMessage | server/routes.ts:235-275 | `join_chat` stamps the `userId` and is `Join`. `leave_chat` is `Leave`. `typing` broadcasts `user_typing` with the socket's stored `userId` to the room. Unknown types and unparsable data change nothing. The invariant is kept. |
| Routes.ChatServer.OnClose | server/routes.ts:277-286 | The map becomes `Scrub` of the old map and the socket is CLOSED. The invariant is kept. |
| Routes.ChatServer.PostMessage | server/routes.ts:62-96 | 400 iff the body is invalid. 403 iff it is valid but the chat is missing or the sender is not a participant. Otherwise the stored message is returned and broadcast as `new_message` to the room; a failed store is a 500 and sends nothing. |
| Storage.FirstRow | server/storage.ts:85-92 | The row at which a chat's group is opened is its first row. |
| Storage.ChatIds | server/storage.ts:83-102 | The ids of `chatMap`, in insertion order, are distinct. They are exactly the chat ids of the rows. |
| Storage.ChatIdsFollowFirstRows | server/storage.ts:85-102 | `Array.from(chatMap.values())` lists chats in the order of their first row. |
| Storage.ParticipantsOf | server/storage.ts:94-98 | A chat's participants come from rows of that chat. There are no more of them than rows, and none when the chat has no row. |
| Storage.SnocFacts | server/storage.ts:85-99 | One more row adds its chat id to the chats present and keeps the first row of every chat already present. |
| Storage.GroupSnoc | server/storage.ts:85-99 | One more row appends its chat id only if new, and adds its participant only to its own chat. |
| Storage.GroupRows | server/storage.ts:83-99 | The first loop builds one entry per chat id, in first-appearance order. The entry holds the chat of its first row and the participants of all its rows, in row order. |
| Storage.GroupUserChats | server/storage.ts:83-121 | `getUserChats` returns one chat per chat id, in first-appearance order, each with the participants of its rows and with its latest message iff it has one. The participant counts add up to the number of rows. |
| Storage.EveryRowGrouped | server/storage.ts:85-99 | Every row lands in exactly one chat's participants. |
| Storage.CountOverStep | server/storage.ts:94-98 | A new row adds one participant, in its own chat. |
| Storage.CountOverSnoc | server/storage.ts:102 | Counting over one more chat adds that chat's participants. |
| Storage.ParticipantCountIsCountOver | server/storage.ts:102-121 | The participant total of the returned chats is the count of the grouping. |
| Storage.ParticipantRows | server/storage.ts:127-132 | One participant row per id, in order, all for the new chat. |
| Storage.CreateChat | server/storage.ts:123-135 | `createChat` inserts the chat with the next serial id, then one participant row per given id, in order and duplicates included. It succeeds iff every id has a `users` row. Otherwise it throws at the first unknown id, with the chat row and the participant rows before that id already written, since there is no transaction. The serial stays ahead of every chat id in both tables. |
| Storage.ParticipantRowsSnoc | server/storage.ts:127-132 | One more loop iteration appends one participant row. |
| Storage.FindDirectChat | server/storage.ts:222-243 | The existence query finds nothing iff no non-group chat has both users as participants. When it finds one, it returns the first such chat. It never matches a user with themself. |
| Storage.GetOrCreateDirectChat | server/storage.ts:220-247 | An existing direct chat is returned and nothing is written. Otherwise a non-group chat is inserted. It is returned, with participants `[u1, u2]`, iff both users have a `users` row; for two distinct users it then qualifies and a second call finds it. If a user is unknown the call throws, and the chat it leaves behind is not found by the next call either. |
| Storage.OrphanIsNotFound | server/storage.ts:220-247 | A chat inserted after the lookup with rows for at most one of the two users does not make the existence query match. |
| Storage.CreatedDirectChatIsFound | server/storage.ts:220-247 | After creating the direct chat of `u1` and `u2`, the next call, with the users in either order, finds it instead of creating another. |
| Storage.WithSenders | server/storage.ts:172-175 | `getChatMessages` maps each row to its message with its sender, one to one and in row order, so the `createdAt` order of the query is kept. |
| Storage.WithUsers | server/storage.ts:214-217 | `getChatParticipants` maps each row to its participant with its user, one to one and in order. |
| ChatPage.AppendMessage | client/src/pages/chat.tsx:31-34 | The new message goes after the cached messages, which are kept. |
| ChatPage.UpdateChats | client/src/pages/chat.tsx:40-44 | The `map` keeps length and order and touches only the chats of the message. |
| ChatPage.UpdateChatList | client/src/pages/chat.tsx:37-45 | Only the chat the message belongs to changes. Its preview becomes that message and its `updatedAt` the message's time; its other fields and every other chat stay as they were. |
| ChatPage.UpdateChatListIdempotent | client/src/pages/chat.tsx:37-45 | Applying the chat-list update twice for the same message is the same as once. |
| ChatPage.OnLastMessage | client/src/pages/chat.tsx:23-53 | A `new_message` appends to its chat's message query, leaves other chats' queries alone, and refreshes the chat list. `user_typing` and unknown types leave the cache unchanged. |
| ChatPage.OtherParticipant | client/src/pages/chat.tsx:72-74 | Returns the first participant whose id differs from the signed-in user's, and nothing iff there is none. Without a user, the first participant is returned. |
| ChatPage.DisplayName | client/src/pages/chat.tsx:81 | The trimmed full name if non-empty, else a non-empty email, else the fallback. |
| ChatPage.NamelessUserShowsEmail | client/src/pages/chat.tsx:81 | A user with no name parts is labelled by email, or by the fallback. |
| ChatPage.ChatName | client/src/pages/chat.tsx:76-82 | A group is named by its name or `Group Chat`. A direct chat is named by the other user's label with fallback `Unknown User`, or `Chat` without another user. The name is never empty. |
| ChatPage.JoinedIsServerMembership | client/src/pages/chat.tsx:56-70 | The rooms the page's frames leave its socket in are exactly the rooms the server's `message` handler records for it. |
| ChatPage.JoinedSnoc | client/src/pages/chat.tsx:56-70 | One more `join_chat` adds its room, one more `leave_chat` removes it, and other frames change nothing. |
| ChatPage.JoinedAfterSelect | client/src/pages/chat.tsx:64-70 | After the frames of a chat selection, the socket is in the chosen room whenever there is a user. |
| ChatPage.PageState.constructor | client/src/pages/chat.tsx:11-13 | A new page has no active chat and has sent no frames. |
| ChatPage.PageState.HandleChatSelect | client/src/pages/chat.tsx:64-70 | Leave the active chat if any, make the chosen chat active, and join it when there is a user. Afterwards the page is in its active chat's room. |
| ChatPage.PageState.CommitAsWritten | client/src/pages/chat.tsx:56-62 | The effect depends on a fresh `leaveChat`, so each commit runs the previous cleanup: it sends `leave_chat` for the chat it captured, even when that chat is still active. |
| ChatPage.PageState.Commit | client/src/pages/chat.tsx:56-62 | With the effect depending on `activeChatId` alone, the cleanup runs only when the active chat changed, and the page stays in its active room. |
| ChatPage.ActiveRoomLostAfterRerender | client/src/pages/chat.tsx:56-70 | As written: open chat 5 and re-render once. Chat 5 is still active, but the socket is no longer in its room. |
| ChatPage.ActiveRoomKeptAfterRerender | client/src/pages/chat.tsx:56-70 | The same steps with the corrected dependency keep the socket in chat 5's room. |
| NewChatDialog.Remove | client/src/components/NewChatDialog.tsx:73 | `filter(id => id !== userId)` removes every occurrence of the user and keeps every other entry with its multiplicity. It is the identity when the user is absent. |
| NewChatDialog.RemoveAppend | client/src/components/NewChatDialog.tsx:73 | Filtering distributes over concatenation. |
| NewChatDialog.Toggle | client/src/components/NewChatDialog.tsx:71-74 | The user's membership flips, every other user's stays, and a newly selected user goes at the end. |
| NewChatDialog.NoDuplicatesCounts | client/src/components/NewChatDialog.tsx:71-74 | A list has no duplicates iff no id occurs more than once. |
| NewChatDialog.ToggleKeepsNoDuplicates | client/src/components/NewChatDialog.tsx:71-74 | Toggling keeps the selection free of duplicates. |
| NewChatDialog.ToggleTwiceRestores | client/src/components/NewChatDialog.tsx:71-74 | Selecting and then deselecting a user restores the selection. |
| NewChatDialog.ToggleTwiceMovesToEnd | client/src/components/NewChatDialog.tsx:71-74 | Deselecting and reselecting keeps the same members but moves the user to the end. |
| NewChatDialog.GroupRequest | client/src/components/NewChatDialog.tsx:81-88 | A group is requested iff the trimmed name is non-empty and someone is selected. The request carries the trimmed name and the selection as is. |
| NewChatDialog.BlankGroupNameIsRefused | client/src/components/NewChatDialog.tsx:82 | A group is requested iff the name holds a non-space character and someone is selected. |
| NewChatDialog.Dialog.constructor | client/src/components/NewChatDialog.tsx:17-20 | The dialog starts closed, in direct mode, with an empty name and selection. |
| NewChatDialog.Dialog.SetGroupMode | client/src/components/NewChatDialog.tsx:116-125 | The mode buttons set `isGroupChat` and keep the invariant. |
| NewChatDialog.Dialog.SetGroupName | client/src/components/NewChatDialog.tsx:138 | Typing the name sets `groupName` and keeps the invariant. |
| NewChatDialog.Dialog.HandleUserSelect | client/src/components/NewChatDialog.tsx:69-79 | Group mode toggles the user and sends nothing. Direct mode requests a direct chat with the user and keeps the selection. The selection stays duplicate-free. |
| NewChatDialog.Dialog.HandleCreateGroup | client/src/components/NewChatDialog.tsx:81-88 | A group request is sent exactly when `GroupRequest` gives one. |
| NewChatDialog.Dialog.OnDirectCreated | client/src/components/NewChatDialog.tsx:46-50 | On success the dialog closes and the new chat id is reported. |
| NewChatDialog.Dialog.OnGroupCreated | client/src/components/NewChatDialog.tsx:59-64 | On success the dialog closes, resets name, selection and mode, and reports the new chat id. |
| Strings.Trim | client/src/components/ChatArea.tsx:100 | `trim()` removes white space and nothing else: the result is a slice of the input with only white space before and after it, and a non-empty result neither starts nor ends with white space. |
| Strings.TrimEmptyIffBlank | client/src/components/NewChatDialog.tsx:82 | `trim()` is empty iff every character is white space. |
| Strings.ToLower | client/src/components/ChatList.tsx:28 | `toLowerCase()` maps each code unit and keeps the length. |
| Strings.ToUpper | client/src/components/NewChatDialog.tsx:91 | `toUpperCase()` maps each code unit and keeps the length. |
| Strings.Contains | client/src/components/ChatList.tsx:28 | `includes` holds iff the needle occurs at some position of the string. |
| Strings.Split | client/src/components/NewChatDialog.tsx:91 | `split(' ')` yields at least one piece, no piece contains a space, and `join(' ')` of the pieces gives back the input. |
| Strings.Heads | client/src/components/NewChatDialog.tsx:91 | `map(n => n[0]).join('')` yields at most one character per piece. |
| Strings.WordStarts | client/src/components/NewChatDialog.tsx:91 | The word-start characters of a name are non-space characters of the name. |
| Strings.Take | client/src/components/NewChatDialog.tsx:91 | `slice(0, 2)` is the prefix of length min(2, length). |
| Strings.HeadsAppend | client/src/components/NewChatDialog.tsx:91 | The first characters of two lists of pieces concatenate. |
| Strings.SplitHeadsAreWordStarts | client/src/components/NewChatDialog.tsx:91 | The first characters of the pieces of `split(' ')` are exactly the characters that begin a word. |
| Strings.GetInitials | client/src/components/NewChatDialog.tsx:90-92 | The initials are the upper-cased first characters of the first two words, ignoring runs of spaces, and at most two of them. `ChatList.tsx` lines 42-44 define the same function. |
| ChatList.FilterChats | client/src/components/ChatList.tsx:27-29 | The filtered list is a subsequence of the chats: a chat is in it iff its lower-cased name contains the lower-cased query. |
| ChatList.EmptyQueryKeepsAll | client/src/components/ChatList.tsx:27-29 | An empty search box shows every chat. |
| ChatList.RowPreviewsNewMessage | client/src/components/ChatList.tsx:86 | After a `new_message`, its chat's row previews that message. |
| ChatArea.SenderLabel | client/src/components/ChatArea.tsx:191 | A bubble shows the trimmed full name, else a non-empty email, else `Unknown`, and is never empty. |
| ChatArea.TypingChange | client/src/components/ChatArea.tsx:107-114 | An input change reports typing iff the text's emptiness disagrees with the flag, and reports the new state. |
| ChatArea.SubmitContent | client/src/components/ChatArea.tsx:98-102 | A submit sends iff the input holds a non-space character and a chat is active (`0` counts as none). What it sends is non-empty, neither starts nor ends with white space, and is the input with only white space cut from either end. |
| ChatArea.Composer.constructor | client/src/components/ChatArea.tsx:38-45 | The input starts empty, not typing, with no timer and nothing sent. |
| ChatArea.Composer.ReceiveActiveChat | client/src/components/ChatArea.tsx:32-37 | A new `activeChatId` prop keeps the input state. |
| ChatArea.Composer.HandleTyping | client/src/components/ChatArea.tsx:78-96 | With an active chat and a user: send the typing frame and set the flag. For `true`, clear the pending stop timer and schedule one for this chat. Otherwise nothing changes. At most one timer is pending. |
| ChatArea.Composer.TimerFired | client/src/components/ChatArea.tsx:90-93 | The stop timer sends `typing false` for the chat it captured and clears the flag. |
| ChatArea.Composer.HandleInputChange | client/src/components/ChatArea.tsx:107-114 | Stores the text. It reports typing only when the text's emptiness disagrees with the flag, and then the flag follows the text. Without an active chat or a user, no frame is sent and the flag and timers stay. Typing that starts schedules a fresh stop timer for this chat; otherwise the timers stay. |
| ChatArea.Composer.HandleMessageSubmit | client/src/components/ChatArea.tsx:98-105 | When `SubmitContent` allows it, posts its text to the active chat and, with a user, reports that typing stopped and clears the flag. Otherwise nothing is posted or reported and the flag stays. The pending timer is kept in every case. |
| ChatArea.Composer.HandleKeyPress | client/src/components/ChatArea.tsx:116-121 | Enter without Shift behaves as `HandleMessageSubmit`: the same post, frames and flag. Any other key posts and reports nothing and keeps the flag. No key touches the timers. |
| ChatArea.Composer.OnSendSuccess | client/src/components/ChatArea.tsx:62-63 | A successful send clears the input. |

## Left out

- JSON: frames are parsed into a datatype. A frame whose `chatId` is not an integer is not modelled, and neither are fields the handlers ignore. `JSON.parse` failures and unknown `type`s are the `Malformed` and `Unknown` frames.
- Sockets: a socket is a number, and `ws.send` is a record appended to the outbox. The transport's own `readyState` transitions other than closing and close are not modelled.
- Concurrency: every handler runs to completion, as in Node's event loop. The `await`s between the check and the broadcast of `POST /api/chats/:chatId/messages` are not interleaved with other handlers.
- Routes.ChatServer.PostMessage: the results of `getChatById` and `createMessage` are parameters. An exception thrown by `getChatById` (a 500) and the `parseInt` of a non-numeric id are not modelled, and neither are `zod` validation details: the body is either valid or not.
- The other REST endpoints (list chats, fetch messages, create a group, users, authentication) are not part of this model beyond the storage functions above.
- Storage: each query's result rows are inputs in the order the database returns them. SQL ordering (`updatedAt`, `createdAt`), `limit`, joins and the subquery of `getOrCreateDirectChat` are stated as their results.
- Storage.FindDirectChat: it returns the first qualifying chat in table order. The SQL query has no `orderBy`, so any qualifying chat is allowed there.
- Storage.GroupUserChats: the latest message of each chat is given as a map rather than queried, and the sender returned by that query is dropped, as in the source.
- Timestamps are integers; `new Date()` is the `now` parameter. `formatMessageTime` (date formatting) is not modelled.
- Strings.GetInitials: a Dafny `char` is a whole Unicode code point, where JavaScript indexes UTF-16 code units. For a word that begins outside the Basic Multilingual Plane the source takes a lone high surrogate (`"😀 Bob"` gives `"\uD83DB"`), and the model takes the whole code point (`"😀B"`). Lone surrogates cannot be represented here. `trim` and `split(' ')` still agree with JavaScript on such strings, because the characters they look for are single code units.
- ChatPage.UpdateChatList: the source stores the whole `newMessage`, sender included, as the chat's preview. The model stores only its `Message` part, because `ChatWithParticipants.messages` holds plain messages. The preview's content, time and chat are the same.
- Strings.ToLower and Strings.ToUpper map only ASCII letters. JavaScript's full Unicode case mapping, including mappings that change the length, is not modelled.
- React:
  - each state update is applied at once, and re-render batching is not modelled;
  - `HandleInputChange` reads the current `isTyping`, where two changes within one render would both see the older value;
  - query invalidation and refetching after mutations are not modelled.
- ChatArea.Composer: the 3000 ms delay is abstracted to the `TimerFired` event. The environment may fire any pending timer at any time.
- ChatArea.Composer: the pane's own `useWebSocket` connection, which never sends `join_chat`, is not modelled as a separate socket. Its frames are recorded, but the server-side consequence (its `user_typing` carries no `userId`) is modelled only through `Routes.ChatServer.HandleMessage`.
- `sendMessage` in `useWebSocket` drops a frame when its socket is not OPEN. The client models record every frame the components hand to it.
- ChatPage.PageState: the page's frames are taken to reach the server over one socket that stays OPEN across renders. That needs a `user` that is the same object from render to render, because the connect effect of `useWebSocket` depends on `user` (client/src/hooks/useWebSocket.ts:15-51). The `useAuth` of this repository builds a new `user` object on every call (client/src/hooks/useAuth.ts:3-9). So every render closes the page socket and opens another, the close removes it from every room, and frames sent before the new socket is OPEN are dropped by `sendMessage`. Socket replacement is not modelled, and `Joined` describes the rooms of a socket that persists.
- ChatPage: `user_typing` events are only logged by the page, so they leave the cache unchanged. Other event types are the `OtherType` case.
- `useAuth`, `apiRequest` and the UI rendering (markup, avatars, scrolling) are not modelled.

## Findings

| source | as written | input that shows it | evidently intended | confidence | as-written member | corrected member |
|---|---|---|---|---|---|---|
| client/src/pages/chat.tsx:56-62 | The join/leave effect depends on `leaveChat`, a new function on every render, so its cleanup runs after every re-render. Over a page socket that stays open across renders, it sends `leave_chat` for the still-active chat. | With a `user` object that stays the same across renders: select chat 5, then let the page re-render once (any state or query change). | The cleanup runs only when `activeChatId` changes, so a page socket that stays open stays in the active chat's room. | not executed | ChatPage.ActiveRoomLostAfterRerender | ChatPage.ActiveRoomKeptAfterRerender |
