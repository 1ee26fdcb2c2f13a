/**
 * The entities of the chat server and the events it exchanges with its
 * sockets. All state lives in one `State` value; a handler maps a state,
 * the originating socket and the event's payload to a new state and the
 * list of events it emits.
 */
module ChatTypes {
  import opened Optional
  import opened JsMaps

  type UserId = string
  type SocketId = string
  type RoomId = string
  type MessageId = string

  /** A point in time (`new Date()`), as milliseconds. */
  type Time = nat

  /**
   * `socket.userId` as seen by the handlers that do not check it first
   * (`message_reaction`, `mark_read`): undefined on a socket that never logged in.
   */
  type Actor = Option<UserId>

  /** A registered user. `password` is the opaque hash; `status` is whatever the client last sent. */
  datatype User = User(
    id: UserId,
    username: string,
    password: string,
    online: bool,
    lastSeen: Time,
    avatar: string,
    status: string)

  /** Extra fields of a `file_upload` message; `fileData` is the opaque data URL. */
  datatype Attachment = Attachment(fileType: string, fileSize: int, fileData: string)

  /** A room message. `kind` is the `type` field: the client's value (default "text"), or "file". */
  datatype Message = Message(
    id: MessageId,
    roomId: RoomId,
    sender: string,
    senderId: UserId,
    text: string,
    kind: string,
    timestamp: Time,
    readBy: set<Actor>,
    reactions: map<string, set<Actor>>,
    attachment: Option<Attachment>)

  /** A private message; it is stored under the conversation key and never changes. */
  datatype PrivateMessage = PrivateMessage(
    id: MessageId,
    sender: string,
    senderId: UserId,
    recipient: string,
    recipientId: UserId,
    text: string,
    messageType: string,
    timestamp: Time,
    read: bool)

  /** A chat room: its bounded message log and the ids of its members. */
  datatype Room = Room(
    id: RoomId,
    name: string,
    description: string,
    messages: seq<Message>,
    members: set<UserId>)

  /** A queued notification for a user who was offline when something was sent to them. */
  datatype Notification =
    | NewMessage(roomId: RoomId, sender: string, preview: string, timestamp: Time)
    | PrivateNote(sender: string, preview: string, timestamp: Time)

  /** What a socket announced with `typing(true)`. */
  datatype TypingEntry = TypingEntry(username: string, roomId: RoomId)

  /** `socket.userId` and `socket.username`, which are always assigned together. */
  datatype Binding = Binding(userId: UserId, username: string)

  /** The per-socket record: its login binding and the rooms it has joined (`socket.rooms`, minus its own room). */
  datatype Conn = Conn(binding: Option<Binding>, rooms: set<RoomId>)

  const FreshConn := Conn(None, {})

  /** The server's memory: the six maps of the server plus the live sockets. */
  datatype State = State(
    users: JsMap<UserId, User>,
    conversations: map<string, seq<PrivateMessage>>,
    rooms: map<RoomId, Room>,
    typing: JsMap<SocketId, TypingEntry>,
    sessions: map<SocketId, UserId>,
    notifications: map<UserId, seq<Notification>>,
    sockets: JsMap<SocketId, Conn>)

  /** Where an outbound event goes. */
  datatype Target =
    | Origin               // `socket.emit`: the socket the event came from
    | ToRoom(room: RoomId) // `io.to(room).emit`: every socket in the room at emit time
    | Everyone             // `io.emit`: every connected socket
    | ToSocket(sid: SocketId)

  /** The payload of an outbound event; its constructor determines the event name. */
  datatype Payload =
    | AuthSuccess(token: string, user: User)
    | AuthError(reason: string)
    | UserList(users: seq<User>)
    | RoomUsers(roomId: RoomId, members: set<UserId>)
    | RoomMessages(roomId: RoomId, messages: seq<Message>)
    | RoomJoined(room: Room)
    | ReceiveMessage(message: Message)
    | DeliverPrivate(pm: PrivateMessage)
    | TypingUsers(usernames: seq<string>)
    | ReactionUpdate(messageId: MessageId, reaction: string, reactors: set<Actor>)
    | ReadUpdate(messageId: MessageId, readBy: set<Actor>)
    | NotificationList(items: seq<Notification>)
    | StatusUpdate(userId: UserId, status: string)
    | ErrorNotice(reason: string)
  {
    function Name(): string {
      match this
      case AuthSuccess(_, _) => "auth_success"
      case AuthError(_) => "auth_error"
      case UserList(_) => "user_list"
      case RoomUsers(_, _) => "room_users"
      case RoomMessages(_, _) => "room_messages"
      case RoomJoined(_) => "room_joined"
      case ReceiveMessage(_) => "receive_message"
      case DeliverPrivate(_) => "private_message"
      case TypingUsers(_) => "typing_users"
      case ReactionUpdate(_, _, _) => "message_reaction"
      case ReadUpdate(_, _) => "message_read"
      case NotificationList(_) => "notifications"
      case StatusUpdate(_, _) => "user_status_update"
      case ErrorNotice(_) => "error"
    }
  }

  datatype Emit = Emit(target: Target, payload: Payload)

  /** A handler's outcome: the next state and the events emitted, in order. */
  datatype Transition = Transition(next: State, emits: seq<Emit>)

  /** An inbound socket event and its payload. `kind` is the optional `type` field. */
  datatype Inbound =
    | UserJoin(username: string, password: string, isNewUser: bool)
    | JoinRoom(roomId: RoomId)
    | SendMessage(roomId: RoomId, text: string, kind: Option<string>)
    | SendPrivate(toUserId: UserId, text: string, kind: Option<string>)
    | Typing(roomId: RoomId, isTyping: bool)
    | MessageReaction(messageId: MessageId, roomId: RoomId, reaction: string)
    | MarkRead(messageId: MessageId, roomId: RoomId)
    | FileUpload(roomId: RoomId, fileName: string, fileType: string, fileSize: int, fileData: string)
    | UpdateStatus(status: string)
    | GetNotifications
  {
    /** The handler returns at once when the socket has no `userId`. */
    predicate Guarded() {
      !(UserJoin? || MessageReaction? || MarkRead?)
    }
  }

  /**
   * What the server obtains from libraries it calls: a fresh uuid, the
   * current time, a signed token, a password hash, and the password check.
   */
  datatype Env = Env(
    freshId: string,
    now: Time,
    token: string,
    hashed: string,
    verify: (string, string) -> bool)

  const General: RoomId := "general"

  /** The three rooms created at start-up, each empty. */
  function InitialRooms(): map<RoomId, Room> {
    map[
      "general" := Room("general", "General", "General chat room", [], {}),
      "random" := Room("random", "Random", "Random topics", [], {}),
      "help" := Room("help", "Help & Support", "Get help and support", [], {})
    ]
  }

  function Init(): State {
    State([], map[], InitialRooms(), [], map[], map[], [])
  }

  /** The private messages of a conversation, oldest first; `[]` before the first. */
  function Thread(convs: map<string, seq<PrivateMessage>>, key: string): seq<PrivateMessage> {
    if key in convs then convs[key] else []
  }

  /** The record of socket `sid`; a socket the server has not seen has the fresh record. */
  function ConnOf(s: State, sid: SocketId): Conn {
    Get(s.sockets, sid).GetOr(FreshConn)
  }

  function WithConn(s: State, sid: SocketId, c: Conn): State {
    s.(sockets := Set(s.sockets, sid, c))
  }
}
