/**
 * The conversation pane: the message input, the typing indicator it reports over
 * its socket, and the submit path. The browser's timer queue is explicit: a
 * scheduled callback is a pending entry that the environment fires later with
 * `TimerFired`.
 */
module ChatArea {
  import opened Options
  import opened Strings
  import opened Schema
  import opened Protocol
  import opened ChatPage

  /** The sender name shown on a message bubble. */
  function SenderLabel(sender: User): (r: string)
    ensures FullName(sender) != [] ==> r == FullName(sender)
    ensures FullName(sender) == [] && Truthy(sender.email) ==> r == sender.email.value
    ensures FullName(sender) == [] && !Truthy(sender.email) ==> r == "Unknown"
    ensures r != []
  {
    DisplayName(sender, "Unknown")
  }

  /**
   * The `handleTyping` call an input change makes, if any: `true` when text appears
   * while the flag is off, `false` when the text is cleared while it is on.
   */
  function TypingChange(text: string, isTyping: bool): (r: Option<bool>)
    ensures r.None? <==> (text != []) == isTyping
    ensures r.Some? ==> r.value == (text != []) && r.value != isTyping
  {
    if text != [] && !isTyping then Some(true)
    else if text == [] && isTyping then Some(false)
    else None
  }

  /**
   * The guard of `handleMessageSubmit`: a message is sent exactly when the input holds
   * a non-space character and a chat is active, and what is sent is the input with
   * its surrounding white space cut off.
   */
  function SubmitContent(text: string, activeChatId: Option<int>): (r: Option<string>)
    ensures r.Some? <==> (exists k :: 0 <= k < |text| && !IsSpace(text[k])) && IsActive(activeChatId)
    ensures r.Some? ==> && r.value != [] && !IsSpace(r.value[0]) && !IsSpace(r.value[|r.value| - 1])
                        && exists i :: SpaceAround(text, i, r.value)
  {
    TrimEmptyIffBlank(text);
    if Trim(text) != [] && IsActive(activeChatId) then Some(Trim(text)) else None
  }

  /** A `POST /api/chats/:chatId/messages` the pane started. */
  datatype Post = Post(chatId: int, content: string)

  class Composer {
    /** The `activeChatId` prop. */
    var activeChatId: Option<int>
    /** Whether `useAuth()` gave a user. */
    const hasUser: bool
    var messageText: string
    var isTyping: bool
    /** `typingTimeoutRef.current`: the last timer scheduled, even after it fired. */
    var timerRef: Option<nat>
    /** Timers scheduled and neither fired nor cleared, with the chat id their callback captured. */
    var pending: map<nat, int>
    var nextTimer: nat
    /** The typing frames handed to the socket, in order. */
    var frames: seq<Frame>
    /** The send-message mutations started, in order. */
    var posts: seq<Post>

    /** At most one stop timer is pending, and it is the one in the ref. */
    ghost predicate Valid()
      reads this
    {
      && (forall t :: t in pending ==> timerRef == Some(t))
      && (timerRef.Some? ==> timerRef.value < nextTimer)
    }

    constructor (activeChatId: Option<int>, hasUser: bool)
      ensures Valid()
      ensures this.activeChatId == activeChatId && this.hasUser == hasUser
      ensures messageText == [] && !isTyping && timerRef == None && pending == map[] && frames == [] && posts == []
    {
      this.activeChatId := activeChatId;
      this.hasUser := hasUser;
      messageText := [];
      isTyping := false;
      timerRef := None;
      pending := map[];
      nextTimer := 0;
      frames := [];
      posts := [];
    }

    /** The parent re-renders the pane with another active chat; its local state stays. */
    method ReceiveActiveChat(id: Option<int>)
      requires Valid()
      modifies this`activeChatId
      ensures Valid() && activeChatId == id
    {
      activeChatId := id;
    }

    /**
     * `handleTyping(typing)`: with an active chat and a user, report `typing`, set the
     * flag, and for `true` replace any pending stop timer by a fresh one for this chat.
     */
    method HandleTyping(typing: bool)
      requires Valid()
      modifies this`frames, this`isTyping, this`timerRef, this`pending, this`nextTimer
      ensures Valid()
      ensures !(IsActive(activeChatId) && hasUser) ==>
                frames == old(frames) && isTyping == old(isTyping) && timerRef == old(timerRef) && pending == old(pending)
      ensures IsActive(activeChatId) && hasUser ==>
                frames == old(frames) + [Typing(activeChatId.value, typing)] && isTyping == typing
      ensures IsActive(activeChatId) && hasUser && typing ==>
                timerRef == Some(old(nextTimer)) && pending == map[old(nextTimer) := activeChatId.value]
      ensures !(IsActive(activeChatId) && hasUser && typing) ==>
                timerRef == old(timerRef) && pending == old(pending) && nextTimer == old(nextTimer)
    {
      if IsActive(activeChatId) && hasUser {
        frames := frames + [Typing(activeChatId.value, typing)];
        isTyping := typing;
        if typing {
          if timerRef.Some? {
            pending := pending - {timerRef.value};
          }
          assert pending == map[];
          var t := nextTimer;
          nextTimer := nextTimer + 1;
          pending := pending[t := activeChatId.value];
          timerRef := Some(t);
        }
      }
    }

    /** The stop timer's callback: report that typing stopped in the chat it captured, and clear the flag. */
    method TimerFired(t: nat)
      requires Valid() && t in pending
      modifies this`frames, this`isTyping, this`pending
      ensures Valid()
      ensures frames == old(frames) + [Typing(old(pending)[t], false)] && !isTyping
      ensures pending == map[] && timerRef == old(timerRef)
    {
      frames := frames + [Typing(pending[t], false)];
      isTyping := false;
      pending := pending - {t};
    }

    /** `handleInputChange`: store the text and report typing when its emptiness disagrees with the flag. */
    method HandleInputChange(value: string)
      requires Valid()
      modifies this`messageText, this`frames, this`isTyping, this`timerRef, this`pending, this`nextTimer
      ensures Valid()
      ensures messageText == value
      ensures TypingChange(value, old(isTyping)).None? ==> frames == old(frames) && isTyping == old(isTyping)
      ensures TypingChange(value, old(isTyping)).Some? && IsActive(activeChatId) && hasUser ==>
                frames == old(frames) + [Typing(activeChatId.value, value != [])]
      ensures IsActive(activeChatId) && hasUser ==> isTyping == (value != [])
      ensures !(IsActive(activeChatId) && hasUser) ==> frames == old(frames) && isTyping == old(isTyping)
      ensures TypingChange(value, old(isTyping)) == Some(true) && IsActive(activeChatId) && hasUser ==>
                timerRef == Some(old(nextTimer)) && pending == map[old(nextTimer) := activeChatId.value]
      ensures !(TypingChange(value, old(isTyping)) == Some(true) && IsActive(activeChatId) && hasUser) ==>
                timerRef == old(timerRef) && pending == old(pending)
    {
      messageText := value;
      var change := TypingChange(value, isTyping);
      if change.Some? {
        HandleTyping(change.value);
      }
    }

    /** `handleMessageSubmit`: post the trimmed text to the active chat and report that typing stopped. */
    method HandleMessageSubmit()
      requires Valid()
      modifies this`posts, this`frames, this`isTyping, this`timerRef, this`pending, this`nextTimer
      ensures Valid()
      ensures SubmitContent(messageText, activeChatId).None? ==> posts == old(posts) && frames == old(frames)
      ensures SubmitContent(messageText, activeChatId).Some? ==>
                && posts == old(posts) + [Post(activeChatId.value, SubmitContent(messageText, activeChatId).value)]
                && frames == old(frames) + (if hasUser then [Typing(activeChatId.value, false)] else [])
                && (hasUser ==> !isTyping)
      ensures SubmitContent(messageText, activeChatId).None? || !hasUser ==> isTyping == old(isTyping)
      ensures pending == old(pending) && timerRef == old(timerRef)
    {
      var content := SubmitContent(messageText, activeChatId);
      ghost var text := messageText;
      if content.Some? {
        posts := posts + [Post(activeChatId.value, content.value)];
        HandleTyping(false);
        assert messageText == text;
      }
    }

    /** `handleKeyPress`: Enter without Shift submits; every other key does nothing here. */
    method HandleKeyPress(key: string, shift: bool)
      requires Valid()
      modifies this`posts, this`frames, this`isTyping, this`timerRef, this`pending, this`nextTimer
      ensures Valid()
      ensures !(key == "Enter" && !shift) ==> posts == old(posts) && frames == old(frames) && isTyping == old(isTyping)
      ensures key == "Enter" && !shift && SubmitContent(messageText, activeChatId).None? ==>
                posts == old(posts) && frames == old(frames)
      ensures key == "Enter" && !shift && SubmitContent(messageText, activeChatId).Some? ==>
                && posts == old(posts) + [Post(activeChatId.value, SubmitContent(messageText, activeChatId).value)]
                && frames == old(frames) + (if hasUser then [Typing(activeChatId.value, false)] else [])
                && (hasUser ==> !isTyping)
      ensures key == "Enter" && !shift && (SubmitContent(messageText, activeChatId).None? || !hasUser) ==>
                isTyping == old(isTyping)
      ensures pending == old(pending) && timerRef == old(timerRef)
    {
      if key == "Enter" && !shift {
        HandleMessageSubmit();
      }
    }

    /** The mutation's `onSuccess`: clear the input. */
    method OnSendSuccess()
      requires Valid()
      modifies this`messageText
      ensures Valid() && messageText == []
    {
      messageText := [];
    }
  }
}
