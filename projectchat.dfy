/** The project chat panel of ChatPanel.js: the chat id of the current
    project, the panel's message list, its room membership on the project
    socket, and sending. */
module ProjectChat {

  import opened Outcomes
  import opened JsStrings
  import opened Messages
  import Workspace

  /** `getChatId`: no project or no chat gives `null`; a populated chat gives
      its `_id`; an id string is returned as it is, except that an empty one
      is falsy and so absent. */
  function GetChatId(project: Option<Workspace.Project>): (r: Option<string>)
    ensures project.None? || project.value.chat.NoChat? ==> r.None?
    ensures project.Some? && project.value.chat.ChatObject? ==> r == Some(project.value.chat.chatId)
    ensures project.Some? && project.value.chat.ChatIdString? ==>
              r == (if project.value.chat.chatIdText == "" then None else Some(project.value.chat.chatIdText))
  {
    if project.None? then None
    else match project.value.chat
      case NoChat => None
      case ChatObject(id) => Some(id)
      case ChatIdString(id) => if id == "" then None else Some(id)
  }

  /** `if (chatId)`: present and not empty. */
  predicate Truthy(id: Option<string>)
  {
    id.Some? && id.value != ""
  }

  /** `POST /chats/:id/messages` as sent. */
  datatype Post = Post(chatId: string, content: string)

  class ChatPanel {
    const ws: Workspace.ProjectWorkspace
    var messages: seq<Message>
    var newMessage: string
    /** The chat whose room the panel joined and whose `new_message` events it hears. */
    var listening: Option<string>
    var posts: seq<Post>

    constructor (ws: Workspace.ProjectWorkspace)
      ensures this.ws == ws && messages == [] && newMessage == "" && listening == None && posts == []
    {
      this.ws := ws;
      messages, newMessage, listening, posts := [], "", None, [];
    }

    /** The two effects keyed by the current project: the previous room is
        left, the new chat's room is joined when there is a socket, and its
        history is loaded (`messages`, or an empty list when the response has
        none; a failure keeps the list). */
    method OnProjectChanged(history: Outcome<Option<seq<Message>>>)
      modifies this, ws
      ensures var id := GetChatId(ws.currentProject);
              var leaving := if old(listening).Some? then [Workspace.ChatRoom(LeaveRoom(old(listening).value))] else [];
              var joining := if ws.socket.Some? && Truthy(id) then [Workspace.ChatRoom(JoinRoom(id.value))] else [];
              ws.emitted == old(ws.emitted) + leaving + joining &&
              listening == (if ws.socket.Some? && Truthy(id) then id else None) &&
              messages == (if Truthy(id) && history.Ok?
                           then (if history.value.Some? then history.value.value else [])
                           else old(messages))
      ensures newMessage == old(newMessage) && posts == old(posts)
      ensures ws.socket == old(ws.socket) && ws.currentProject == old(ws.currentProject)
      ensures ws.files == old(ws.files) && ws.openFiles == old(ws.openFiles)
      ensures ws.activeFileId == old(ws.activeFileId) && ws.activeUsers == old(ws.activeUsers)
      ensures ws.cursors == old(ws.cursors) && ws.executionOutput == old(ws.executionOutput)
      ensures ws.isExecuting == old(ws.isExecuting) && ws.executions == old(ws.executions)
    {
      if listening.Some? {
        ws.emitted := ws.emitted + [Workspace.ChatRoom(LeaveRoom(listening.value))];
      }
      listening := None;
      var id := GetChatId(ws.currentProject);
      if ws.socket.Some? && Truthy(id) {
        ws.emitted := ws.emitted + [Workspace.ChatRoom(JoinRoom(id.value))];
        listening := id;
      }
      if Truthy(id) && history.Ok? {
        messages := if history.value.Some? then history.value.value else [];
      }
    }

    /** `new_message`: appended at the end, without a duplicate check. */
    method OnNewMessage(m: Message)
      modifies this
      ensures messages == (if listening.Some? then old(messages) + [m] else old(messages))
      ensures newMessage == old(newMessage) && listening == old(listening) && posts == old(posts)
    {
      if listening.Some? {
        messages := messages + [m];
      }
    }

    /** `handleSendMessage`: nothing without text or without a chat id;
        otherwise the text is posted, and on success the response is appended,
        the input cleared and the message relayed on the socket. */
    method SendMessage(response: Outcome<Message>)
      modifies this, ws
      ensures var id := GetChatId(ws.currentProject);
              Blank(old(newMessage)) || !Truthy(id) ==>
                posts == old(posts) && messages == old(messages) && newMessage == old(newMessage) &&
                ws.emitted == old(ws.emitted)
      ensures var id := GetChatId(ws.currentProject);
              !Blank(old(newMessage)) && Truthy(id) ==>
                posts == old(posts) + [Post(id.value, old(newMessage))] &&
                (response.Ok? ==> messages == old(messages) + [response.value] && newMessage == "" &&
                                  ws.emitted == (if ws.socket.Some? then old(ws.emitted) + [Workspace.SendMessageEvent(response.value)]
                                                 else old(ws.emitted))) &&
                (response.Err? ==> messages == old(messages) && newMessage == old(newMessage) && ws.emitted == old(ws.emitted))
      ensures listening == old(listening)
      ensures ws.socket == old(ws.socket) && ws.currentProject == old(ws.currentProject)
      ensures ws.files == old(ws.files) && ws.openFiles == old(ws.openFiles)
      ensures ws.activeFileId == old(ws.activeFileId) && ws.activeUsers == old(ws.activeUsers)
      ensures ws.cursors == old(ws.cursors) && ws.executionOutput == old(ws.executionOutput)
      ensures ws.isExecuting == old(ws.isExecuting) && ws.executions == old(ws.executions)
    {
      if Blank(newMessage) {
        return;
      }
      var id := GetChatId(ws.currentProject);
      if !Truthy(id) {
        return;
      }
      posts := posts + [Post(id.value, newMessage)];
      if response.Ok? {
        messages := messages + [response.value];
        newMessage := "";
        if ws.socket.Some? {
          ws.emitted := ws.emitted + [Workspace.SendMessageEvent(response.value)];
        }
      }
    }
  }
}
