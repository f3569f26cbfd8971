/** The global chat page of Chat.js: its chat list and selected chat, the
    message list fed by the history request and by the socket's `message`
    events, the text input, and the flag that keeps the `message` listener
    from being registered twice. */
module GlobalChat {

  import opened Outcomes
  import opened Seqs
  import opened JsStrings
  import opened Messages

  datatype ChatSummary = ChatSummary(id: string, name: string)

  /** `POST /api/chats/:id/messages` as sent. */
  datatype Post = Post(chatId: string, content: string)

  class ChatPage {
    var chats: seq<ChatSummary>
    var selectedChat: Option<ChatSummary>
    var messages: seq<Message>
    var newMessage: string
    /** `messageListenerRegistered.current` */
    var listenerRegistered: bool
    /** Whether the page's `message` listener is attached to the socket. */
    var listening: bool
    /** Room events emitted on the page's socket, oldest first. */
    var emitted: seq<RoomEvent>
    var posts: seq<Post>

    predicate Valid()
      reads this
    {
      UniqueKeys(messages, MessageId) && listening == listenerRegistered
    }

    /** The page after mounting: its socket exists, nothing is loaded yet. */
    constructor ()
      ensures chats == [] && selectedChat == None && messages == [] && newMessage == ""
      ensures !listenerRegistered && !listening && emitted == [] && posts == []
      ensures Valid()
    {
      chats, selectedChat, messages, newMessage := [], None, [], "";
      listenerRegistered, listening := false, false;
      emitted, posts := [], [];
    }

    /** `fetchChats`: the server's list replaces the chats; a failure is logged only. */
    method FetchChats(response: Outcome<seq<ChatSummary>>)
      modifies this
      ensures chats == (if response.Ok? then response.value else old(chats))
      ensures selectedChat == old(selectedChat) && messages == old(messages) && newMessage == old(newMessage)
      ensures listenerRegistered == old(listenerRegistered) && listening == old(listening)
      ensures emitted == old(emitted) && posts == old(posts)
      ensures old(Valid()) ==> Valid()
    {
      if response.Ok? {
        chats := response.value;
      }
    }

    /** `fetchMessages`: the server's history replaces the whole list. */
    method FetchMessages(history: Outcome<seq<Message>>)
      modifies this
      ensures messages == (if history.Ok? then history.value else old(messages))
      ensures chats == old(chats) && selectedChat == old(selectedChat) && newMessage == old(newMessage)
      ensures listenerRegistered == old(listenerRegistered) && listening == old(listening)
      ensures emitted == old(emitted) && posts == old(posts)
      ensures old(Valid()) && (history.Ok? ==> UniqueKeys(history.value, MessageId)) ==> Valid()
    {
      if history.Ok? {
        messages := history.value;
      }
    }

    /** A new selected chat: the previous one's room is left, the new one's
        history is fetched and its room joined. */
    method SelectChat(chat: Option<ChatSummary>, history: Outcome<seq<Message>>)
      modifies this
      ensures selectedChat == chat
      ensures emitted == old(emitted) + (if old(selectedChat).Some? then [LeaveRoom(old(selectedChat).value.id)] else [])
                                      + (if chat.Some? then [JoinRoom(chat.value.id)] else [])
      ensures messages == (if chat.Some? && history.Ok? then history.value else old(messages))
      ensures chats == old(chats) && newMessage == old(newMessage)
      ensures listenerRegistered == old(listenerRegistered) && listening == old(listening) && posts == old(posts)
    {
      var leaving: seq<RoomEvent> := if selectedChat.Some? then [LeaveRoom(selectedChat.value.id)] else [];
      emitted := emitted + leaving;
      selectedChat := chat;
      if chat.Some? {
        FetchMessages(history);
        emitted := emitted + [JoinRoom(chat.value.id)];
      }
    }

    /** The selection effect: with chats loaded and none selected, the first
        chat is selected. */
    method AutoSelect(history: Outcome<seq<Message>>)
      modifies this
      ensures |old(chats)| > 0 && old(selectedChat).None? ==>
                selectedChat == Some(old(chats)[0]) && emitted == old(emitted) + [JoinRoom(old(chats)[0].id)] &&
                messages == (if history.Ok? then history.value else old(messages))
      ensures !(|old(chats)| > 0 && old(selectedChat).None?) ==>
                selectedChat == old(selectedChat) && emitted == old(emitted) && messages == old(messages)
      ensures chats == old(chats) && newMessage == old(newMessage)
      ensures listenerRegistered == old(listenerRegistered) && listening == old(listening) && posts == old(posts)
    {
      if |chats| > 0 && selectedChat.None? {
        SelectChat(Some(chats[0]), history);
      }
    }

    /** The listener effect: the `message` listener is attached only when the
        flag is down, and the flag goes up with it. */
    method RegisterListener()
      modifies this
      ensures !old(listenerRegistered) ==> listenerRegistered && listening
      ensures old(listenerRegistered) ==> listenerRegistered == old(listenerRegistered) && listening == old(listening)
      ensures chats == old(chats) && selectedChat == old(selectedChat) && messages == old(messages)
      ensures newMessage == old(newMessage) && emitted == old(emitted) && posts == old(posts)
      ensures old(Valid()) ==> Valid()
    {
      if listenerRegistered {
        return;
      }
      listenerRegistered := true;
      listening := true;
    }

    /** The listener effect's cleanup: the listener is detached and the flag
        goes down. */
    method CleanupListener()
      modifies this
      ensures !listenerRegistered && !listening
      ensures chats == old(chats) && selectedChat == old(selectedChat) && messages == old(messages)
      ensures newMessage == old(newMessage) && emitted == old(emitted) && posts == old(posts)
      ensures old(Valid()) ==> Valid()
    {
      listening := false;
      listenerRegistered := false;
    }

    /** A `message` event: handled by the listener when it is attached. */
    method OnMessage(m: Option<Message>)
      modifies this
      ensures messages == (if listening then Receive(old(messages), m) else old(messages))
      ensures chats == old(chats) && selectedChat == old(selectedChat) && newMessage == old(newMessage)
      ensures listenerRegistered == old(listenerRegistered) && listening == old(listening)
      ensures emitted == old(emitted) && posts == old(posts)
      ensures old(Valid()) ==> Valid()
    {
      if listening {
        messages := Receive(messages, m);
      }
    }

    /** `handleSendMessage`: a blank input sends nothing; otherwise the text is
        posted to the selected chat (with none selected the handler throws
        before posting), and success clears the input without listing the
        message, which arrives through the socket instead. */
    method SendMessage(response: Outcome<Message>)
      modifies this
      ensures Blank(old(newMessage)) || selectedChat.None? ==>
                posts == old(posts) && newMessage == old(newMessage)
      ensures !Blank(old(newMessage)) && selectedChat.Some? ==>
                posts == old(posts) + [Post(selectedChat.value.id, old(newMessage))] &&
                newMessage == (if response.Ok? then "" else old(newMessage))
      ensures messages == old(messages)
      ensures chats == old(chats) && selectedChat == old(selectedChat)
      ensures listenerRegistered == old(listenerRegistered) && listening == old(listening) && emitted == old(emitted)
    {
      if Blank(newMessage) || selectedChat.None? {
        return;
      }
      posts := posts + [Post(selectedChat.value.id, newMessage)];
      if response.Ok? {
        newMessage := "";
      }
    }
  }
}
