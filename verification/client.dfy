/**
 * The browser side of the chat: the state the client keeps, the reducers
 * that update it when a server event arrives, the `disconnect` reset, and
 * the user actions, which turn into the inbound events the server handles.
 * Every reducer is a pure function of the previous state and the event.
 */
module Client {
  import opened Optional
  import opened Text
  import opened ChatTypes

  datatype ClientState = ClientState(
    isConnected: bool,
    currentUser: Option<User>,
    messages: seq<Message>,          // the current room's messages, oldest first
    users: seq<User>,
    typingUsers: seq<string>,
    rooms: seq<Room>,                // the room catalogue (filled over HTTP)
    currentRoom: Option<Room>,
    roomUsers: set<UserId>,
    notifications: seq<Notification>,
    privateMessages: map<string, seq<PrivateMessage>>,
    error: Option<string>)

  /** The client's state before it has connected. */
  const Initial := ClientState(false, None, [], [], [], [], None, {}, [], map[], None)

  /** A reducer's outcome: the new state and the events the client sends in response. */
  datatype ClientStep = ClientStep(next: ClientState, sends: seq<Inbound>)

  // ---------------------------------------------------------------- reducers

  /** `receive_message`: the message goes at the end of the list. */
  function OnReceiveMessage(c: ClientState, m: Message): (r: ClientState)
    ensures |r.messages| == |c.messages| + 1
    ensures r.messages[..|c.messages|] == c.messages && r.messages[|c.messages|] == m
    ensures r.(messages := c.messages) == c
  {
    c.(messages := c.messages + [m])
  }

  /**
   * `private_message`: appended to the list under the key built from the
   * message's two ids, so the sender's echo and the recipient's copy land
   * under the same key; every other list is untouched.
   */
  function OnPrivateMessage(c: ClientState, pm: PrivateMessage): (r: ClientState)
    ensures var key := ConversationKey(pm.senderId, pm.recipientId);
      && Thread(r.privateMessages, key) == Thread(c.privateMessages, key) + [pm]
      && r.privateMessages.Keys == c.privateMessages.Keys + {key}
      && (forall k :: k != key ==> Thread(r.privateMessages, k) == Thread(c.privateMessages, k))
    ensures r.(privateMessages := c.privateMessages) == c
  {
    var key := ConversationKey(pm.senderId, pm.recipientId);
    c.(privateMessages := c.privateMessages[key := Thread(c.privateMessages, key) + [pm]])
  }

  /** `room_messages`: the list is replaced; a payload without a list empties it. */
  function OnRoomMessages(c: ClientState, msgs: Option<seq<Message>>): (r: ClientState)
    ensures msgs.Some? ==> r.messages == msgs.value
    ensures msgs.None? ==> r.messages == []
    ensures r.(messages := c.messages) == c
  {
    c.(messages := msgs.GetOr([]))
  }

  /**
   * `user_status_update`: the list keeps its length and order, and only the
   * status of the users with that id changes.
   */
  function OnUserStatusUpdate(c: ClientState, uid: UserId, status: string): (r: ClientState)
    ensures |r.users| == |c.users|
    ensures forall i :: 0 <= i < |r.users| ==>
      && r.users[i].(status := c.users[i].status) == c.users[i]
      && r.users[i].status == (if c.users[i].id == uid then status else c.users[i].status)
    ensures r.(users := c.users) == c
  {
    c.(users := seq(|c.users|, i requires 0 <= i < |c.users| =>
      if c.users[i].id == uid then c.users[i].(status := status) else c.users[i]))
  }

  /**
   * `message_reaction`: every message with that id gets the server's set
   * for that one reaction; its other reactions, its other fields and all
   * other messages stay as they were.
   */
  function OnMessageReaction(c: ClientState, messageId: MessageId, reaction: string, reactors: set<Actor>): (r: ClientState)
    ensures |r.messages| == |c.messages|
    ensures forall i :: 0 <= i < |r.messages| ==>
      && r.messages[i].(reactions := c.messages[i].reactions) == c.messages[i]
      && (c.messages[i].id == messageId ==>
            && r.messages[i].reactions.Keys == c.messages[i].reactions.Keys + {reaction}
            && r.messages[i].reactions[reaction] == reactors
            && (forall other :: other in c.messages[i].reactions && other != reaction ==>
                  r.messages[i].reactions[other] == c.messages[i].reactions[other]))
      && (c.messages[i].id != messageId ==> r.messages[i] == c.messages[i])
    ensures r.(messages := c.messages) == c
  {
    c.(messages := seq(|c.messages|, i requires 0 <= i < |c.messages| =>
      var m := c.messages[i];
      if m.id == messageId then m.(reactions := m.reactions[reaction := reactors]) else m))
  }

  /** `message_read`: every message with that id gets the server's reader set; nothing else changes. */
  function OnMessageRead(c: ClientState, messageId: MessageId, readBy: set<Actor>): (r: ClientState)
    ensures |r.messages| == |c.messages|
    ensures forall i :: 0 <= i < |r.messages| ==>
      && r.messages[i].(readBy := c.messages[i].readBy) == c.messages[i]
      && r.messages[i].readBy == (if c.messages[i].id == messageId then readBy else c.messages[i].readBy)
    ensures r.(messages := c.messages) == c
  {
    c.(messages := seq(|c.messages|, i requires 0 <= i < |c.messages| =>
      if c.messages[i].id == messageId then c.messages[i].(readBy := readBy) else c.messages[i]))
  }

  /**
   * The client's listener for each server event. `auth_success` also asks
   * to join the general room; every other event only updates the state.
   */
  function Receive(c: ClientState, p: Payload): (r: ClientStep)
    ensures p.AuthSuccess? ==> r.sends == [JoinRoom(General)] && r.next == c.(currentUser := Some(p.user), error := None)
    ensures !p.AuthSuccess? ==> r.sends == []
    ensures (p.AuthError? || p.ErrorNotice?) ==> r.next == c.(error := Some(p.reason))
    // the list events replace one field and leave the rest alone
    ensures p.UserList? ==> r.next == c.(users := p.users)
    ensures p.RoomUsers? ==> r.next == c.(roomUsers := p.members)
    ensures p.RoomJoined? ==> r.next == c.(currentRoom := Some(p.room))
    ensures p.TypingUsers? ==> r.next == c.(typingUsers := p.usernames)
    ensures p.NotificationList? ==> r.next == c.(notifications := p.items)
    // the others go through their reducer
    ensures p.RoomMessages? ==> r.next == OnRoomMessages(c, Some(p.messages))
    ensures p.ReceiveMessage? ==> r.next == OnReceiveMessage(c, p.message)
    ensures p.DeliverPrivate? ==> r.next == OnPrivateMessage(c, p.pm)
    ensures p.ReactionUpdate? ==> r.next == OnMessageReaction(c, p.messageId, p.reaction, p.reactors)
    ensures p.ReadUpdate? ==> r.next == OnMessageRead(c, p.messageId, p.readBy)
    ensures p.StatusUpdate? ==> r.next == OnUserStatusUpdate(c, p.userId, p.status)
    ensures r.next.isConnected == c.isConnected
  {
    match p
    case AuthSuccess(_, user) => ClientStep(c.(currentUser := Some(user), error := None), [JoinRoom(General)])
    case AuthError(reason) => ClientStep(c.(error := Some(reason)), [])
    case UserList(users) => ClientStep(c.(users := users), [])
    case RoomUsers(_, members) => ClientStep(c.(roomUsers := members), [])
    case RoomMessages(_, msgs) => ClientStep(OnRoomMessages(c, Some(msgs)), [])
    case RoomJoined(room) => ClientStep(c.(currentRoom := Some(room)), [])
    case ReceiveMessage(m) => ClientStep(OnReceiveMessage(c, m), [])
    case DeliverPrivate(pm) => ClientStep(OnPrivateMessage(c, pm), [])
    case TypingUsers(names) => ClientStep(c.(typingUsers := names), [])
    case ReactionUpdate(messageId, reaction, reactors) => ClientStep(OnMessageReaction(c, messageId, reaction, reactors), [])
    case ReadUpdate(messageId, readBy) => ClientStep(OnMessageRead(c, messageId, readBy), [])
    case NotificationList(items) => ClientStep(c.(notifications := items), [])
    case StatusUpdate(uid, status) => ClientStep(OnUserStatusUpdate(c, uid, status), [])
    case ErrorNotice(reason) => ClientStep(c.(error := Some(reason)), [])
  }

  // ---------------------------------------------------------------- connection

  const ConnectionFailed := "Connection failed"

  /** Transport events of the client's socket. */
  datatype Transport = Connected | Dropped | ConnectFailed

  function OnTransport(c: ClientState, ev: Transport): (r: ClientState)
    ensures ev.Connected? ==> r.isConnected && r.error == None
    ensures ev.Dropped? ==> !r.isConnected && r.error == c.error
    ensures ev.ConnectFailed? ==> r.isConnected == c.isConnected && r.error == Some(ConnectionFailed)
    ensures r.(isConnected := c.isConnected, error := c.error) == c
  {
    match ev
    case Connected => c.(isConnected := true, error := None)
    case Dropped => c.(isConnected := false)
    case ConnectFailed => c.(error := Some(ConnectionFailed))
  }

  /**
   * `disconnect`: closing a connected socket fires its `disconnect`
   * listener on the spot, which clears the connection flag; a socket that
   * was not connected already has the flag clear. Then the user, the
   * messages, the lists, the rooms and the conversations are cleared. Only
   * the error survives.
   */
  function Disconnect(c: ClientState): (r: ClientState)
    ensures !r.isConnected
    ensures r.currentUser.None? && r.currentRoom.None?
    ensures r.messages == [] && r.users == [] && r.typingUsers == [] && r.rooms == []
    ensures r.roomUsers == {} && r.notifications == [] && r.privateMessages == map[]
    ensures r.error == c.error
  {
    Initial.(error := c.error)
  }

  // ---------------------------------------------------------------- actions

  /** What the user can ask for; the room-scoped ones use the current room. */
  datatype Action =
    | JoinRoomAction(roomId: RoomId)
    | SendText(text: string, kind: string)
    | SendPrivateText(toUserId: UserId, text: string, kind: string)
    | SetTyping(isTyping: bool)
    | React(messageId: MessageId, reaction: string)
    | MarkMessageRead(messageId: MessageId)
    | UploadFile(fileName: string, fileType: string, fileSize: int, fileData: string)
    | UpdateStatusAction(status: string)
    | FetchNotifications
  {
    /** The action returns without sending when there is no current room. */
    predicate RoomScoped() {
      SendText? || SetTyping? || React? || MarkMessageRead? || UploadFile?
    }
  }

  /** The events an action sends: none for a room-scoped action outside a room, otherwise exactly one. */
  function Act(c: ClientState, a: Action): (r: seq<Inbound>)
    ensures a.RoomScoped() && c.currentRoom.None? <==> r == []
    ensures |r| <= 1
    ensures |r| == 1 && a.RoomScoped() ==>
      && (r[0].SendMessage? || r[0].Typing? || r[0].MessageReaction? || r[0].MarkRead? || r[0].FileUpload?)
      && r[0].roomId == c.currentRoom.value.id
    ensures |r| == 1 ==> (r[0].Guarded() <==> !(a.React? || a.MarkMessageRead?))
    // the payload each action sends
    ensures a.JoinRoomAction? ==> r == [JoinRoom(a.roomId)]
    ensures a.SendPrivateText? ==> r == [SendPrivate(a.toUserId, a.text, Some(a.kind))]
    ensures a.UpdateStatusAction? ==> r == [UpdateStatus(a.status)]
    ensures a.FetchNotifications? ==> r == [GetNotifications]
    ensures c.currentRoom.Some? ==> var roomId := c.currentRoom.value.id;
      && (a.SendText? ==> r == [SendMessage(roomId, a.text, Some(a.kind))])
      && (a.SetTyping? ==> r == [Typing(roomId, a.isTyping)])
      && (a.React? ==> r == [MessageReaction(a.messageId, roomId, a.reaction)])
      && (a.MarkMessageRead? ==> r == [MarkRead(a.messageId, roomId)])
      && (a.UploadFile? ==> r == [FileUpload(roomId, a.fileName, a.fileType, a.fileSize, a.fileData)])
  {
    if a.RoomScoped() && c.currentRoom.None? then []
    else
      match a
      case JoinRoomAction(roomId) => [JoinRoom(roomId)]
      case SendText(text, kind) => [SendMessage(c.currentRoom.value.id, text, Some(kind))]
      case SendPrivateText(toUserId, text, kind) => [SendPrivate(toUserId, text, Some(kind))]
      case SetTyping(isTyping) => [Typing(c.currentRoom.value.id, isTyping)]
      case React(messageId, reaction) => [MessageReaction(messageId, c.currentRoom.value.id, reaction)]
      case MarkMessageRead(messageId) => [MarkRead(messageId, c.currentRoom.value.id)]
      case UploadFile(fileName, fileType, fileSize, fileData) =>
        [FileUpload(c.currentRoom.value.id, fileName, fileType, fileSize, fileData)]
      case UpdateStatusAction(status) => [UpdateStatus(status)]
      case FetchNotifications => [GetNotifications]
  }
}
