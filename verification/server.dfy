/**
 * The socket handlers of the chat server, one pure function per inbound
 * event. Each takes the state, the id of the socket the event came from and
 * the event's payload (plus what the server obtains from libraries, `Env`)
 * and returns the next state with the events it emits, in emission order.
 */
module Server {
  import opened Optional
  import opened JsMaps
  import opened Text
  import opened ChatTypes
  import opened MessageLog

  const AvatarBase := "https://api.dicebear.com/7.x/avataaars/svg?seed="

  const InvalidCredentials := "Invalid credentials"
  const AuthenticationFailed := "Authentication failed"
  const RoomNotFound := "Room not found"
  const UserNotFound := "User not found"

  /** Position of the first user with this name: login matches names in registration order. */
  function FindByName(users: JsMap<UserId, User>, username: string): (r: Option<nat>)
    ensures r.Some? ==> r.value < |users| && users[r.value].value.username == username
    ensures r.Some? ==> forall j :: 0 <= j < r.value ==> users[j].value.username != username
    ensures r.None? <==> forall j :: 0 <= j < |users| ==> users[j].value.username != username
  {
    if |users| == 0 then None
    else if users[0].value.username == username then Some(0)
    else
      match FindByName(users[1..], username)
      case None => None
      case Some(i) => Some(i + 1)
  }

  predicate BoundTo(c: Conn, uid: UserId) {
    c.binding.Some? && c.binding.value.userId == uid
  }

  /** The first live socket logged in as `uid`, in connection order. */
  function FirstSocketOf(sockets: JsMap<SocketId, Conn>, uid: UserId): (r: Option<SocketId>)
    ensures r.Some? ==>
      exists i :: && 0 <= i < |sockets| && sockets[i].key == r.value && BoundTo(sockets[i].value, uid)
                  && forall j :: 0 <= j < i ==> !BoundTo(sockets[j].value, uid)
    ensures r.None? <==> forall i :: 0 <= i < |sockets| ==> !BoundTo(sockets[i].value, uid)
  {
    if |sockets| == 0 then None
    else if BoundTo(sockets[0].value, uid) then Some(sockets[0].key)
    else
      FirstSocketOf(sockets[1..], uid)
  }

  predicate HasLiveSocket(s: State, uid: UserId) {
    exists i :: 0 <= i < |s.sockets| && BoundTo(s.sockets[i].value, uid)
  }

  /** `socket.userId` where the handler does not check it. */
  function ActorOf(c: Conn): Actor {
    match c.binding
    case None => None
    case Some(b) => Some(b.userId)
  }

  /** `notifications.get(uid) || []`. */
  function Queue(notes: map<UserId, seq<Notification>>, uid: UserId): seq<Notification> {
    if uid in notes then notes[uid] else []
  }

  /** `users.get(uid)?.online`, which is false for an unknown id. */
  predicate IsOnline(users: JsMap<UserId, User>, uid: UserId) {
    var u := Get(users, uid);
    u.Some? && u.value.online
  }

  /** Room members whose user is missing or offline. */
  function OfflineMembers(users: JsMap<UserId, User>, members: set<UserId>): (r: set<UserId>)
    ensures r <= members
    ensures forall u :: u in r ==> !IsOnline(users, u)
    ensures forall u :: u in members - r ==> IsOnline(users, u)
  {
    set u | u in members && !IsOnline(users, u)
  }

  /** Appends `note` to the queue of every user in `targets`. */
  function QueueFor(notes: map<UserId, seq<Notification>>, targets: set<UserId>, note: Notification): (r: map<UserId, seq<Notification>>)
    ensures forall u :: Queue(r, u) == Queue(notes, u) + (if u in targets then [note] else [])
    ensures forall u :: u in r <==> u in notes || u in targets
  {
    map u | u in notes.Keys + targets :: if u in targets then Queue(notes, u) + [note] else notes[u]
  }

  // ---------------------------------------------------------------- user_join

  /**
   * After authentication: the socket joins "general", its user becomes a
   * member, and the user list and general's members go to every socket.
   * Looking up "general" throws when it is missing; the handler's `catch`
   * then answers `auth_error`, keeping what was already changed.
   */
  function JoinGeneral(s: State, sid: SocketId, uid: UserId, emitted: seq<Emit>): (t: Transition)
    ensures t.next.rooms.Keys == s.rooms.Keys
    ensures forall r :: r in s.rooms ==> t.next.rooms[r].(members := s.rooms[r].members) == s.rooms[r]
    ensures forall r :: r in s.rooms && r != General ==> t.next.rooms[r] == s.rooms[r]
    ensures t.next.(rooms := s.rooms, sockets := s.sockets) == s
    ensures ConnOf(t.next, sid) == ConnOf(s, sid).(rooms := ConnOf(s, sid).rooms + {General})
    ensures forall other :: other != sid ==> Get(t.next.sockets, other) == Get(s.sockets, other)
    ensures t.next.sockets == Set(s.sockets, sid, ConnOf(t.next, sid))
    ensures DistinctKeys(s.sockets) ==> DistinctKeys(t.next.sockets)
    ensures |t.emits| > |emitted| && t.emits[..|emitted|] == emitted
    ensures General in s.rooms ==>
      && t.next.rooms[General].members == s.rooms[General].members + {uid}
      && t.emits == emitted + [Emit(Everyone, UserList(Values(s.users))), Emit(Everyone, RoomUsers(General, t.next.rooms[General].members))]
    ensures General !in s.rooms ==> t.emits == emitted + [Emit(Origin, AuthError(AuthenticationFailed))]
  {
    var c := ConnOf(s, sid);
    var s1 := WithConn(s, sid, c.(rooms := c.rooms + {General}));
    if General in s1.rooms then
      var g := s1.rooms[General].(members := s1.rooms[General].members + {uid});
      var s2 := s1.(rooms := s1.rooms[General := g]);
      Transition(s2, emitted + [Emit(Everyone, UserList(Values(s2.users))), Emit(Everyone, RoomUsers(General, g.members))])
    else
      Transition(s1, emitted + [Emit(Origin, AuthError(AuthenticationFailed))])
  }

  function Bind(s: State, sid: SocketId, b: Binding): (r: State)
    ensures ConnOf(r, sid) == ConnOf(s, sid).(binding := Some(b))
    ensures forall other :: other != sid ==> Get(r.sockets, other) == Get(s.sockets, other)
    ensures r.sockets == Set(s.sockets, sid, ConnOf(r, sid))
    ensures r.sessions == s.sessions[sid := b.userId]
    ensures DistinctKeys(s.sockets) ==> DistinctKeys(r.sockets)
    ensures r.(sockets := s.sockets, sessions := s.sessions) == s
  {
    WithConn(s, sid, ConnOf(s, sid).(binding := Some(b))).(sessions := s.sessions[sid := b.userId])
  }

  /** The user record a registration creates: online, with an avatar derived from the name. */
  function NewUser(username: string, env: Env): User {
    User(env.freshId, username, env.hashed, true, env.now, AvatarBase + username, "online")
  }

  /** Registration: always a new user under the fresh id, even when the name is taken. */
  function Register(s: State, sid: SocketId, username: string, env: Env): (t: Transition)
    ensures Get(t.next.users, env.freshId) == Some(NewUser(username, env))
    ensures forall k :: k != env.freshId ==> Get(t.next.users, k) == Get(s.users, k)
    ensures !HasKey(s.users, env.freshId) ==> t.next.users == s.users + [Entry(env.freshId, NewUser(username, env))]
    ensures ConnOf(t.next, sid).binding == Some(Binding(env.freshId, username))
    ensures ConnOf(t.next, sid).rooms == ConnOf(s, sid).rooms + {General}
    ensures forall other :: other != sid ==> Get(t.next.sockets, other) == Get(s.sockets, other)
    // the socket keeps its place in connection order, or goes last when new; keys stay distinct
    ensures t.next.sockets == Set(s.sockets, sid, ConnOf(t.next, sid))
    ensures DistinctKeys(s.sockets) ==> DistinctKeys(t.next.sockets)
    ensures t.next.sessions == s.sessions[sid := env.freshId]
    ensures t.next.rooms.Keys == s.rooms.Keys
    ensures forall r :: r in s.rooms ==> t.next.rooms[r].(members := s.rooms[r].members) == s.rooms[r]
    ensures forall r :: r in s.rooms && r != General ==> t.next.rooms[r] == s.rooms[r]
    ensures General in s.rooms ==> t.next.rooms[General].members == s.rooms[General].members + {env.freshId}
    ensures t.next.(users := s.users, rooms := s.rooms, sockets := s.sockets, sessions := s.sessions) == s
    ensures |t.emits| > 0 && t.emits[0] == Emit(Origin, AuthSuccess(env.token, NewUser(username, env)))
    ensures General in s.rooms ==>
      t.emits[1..] == [Emit(Everyone, UserList(Values(t.next.users))), Emit(Everyone, RoomUsers(General, t.next.rooms[General].members))]
  {
    var user := NewUser(username, env);
    var s1 := Bind(s.(users := Set(s.users, env.freshId, user)), sid, Binding(env.freshId, username));
    var t := JoinGeneral(s1, sid, env.freshId, [Emit(Origin, AuthSuccess(env.token, user))]);
    SetTwice(s.sockets, sid, ConnOf(s1, sid), ConnOf(t.next, sid));
    t
  }

  /** Login succeeds exactly when the first user of that name exists and the password matches. */
  predicate LoginAccepted(s: State, username: string, password: string, env: Env) {
    var i := FindByName(s.users, username);
    i.Some? && env.verify(password, s.users[i.value].value.password)
  }

  /** Login: flips the first user of that name online, or answers one undifferentiated error. */
  function Login(s: State, sid: SocketId, username: string, password: string, env: Env): (t: Transition)
    ensures t.next.rooms.Keys == s.rooms.Keys
    ensures !LoginAccepted(s, username, password, env) <==> t == Transition(s, [Emit(Origin, AuthError(InvalidCredentials))])
    ensures LoginAccepted(s, username, password, env) ==>
      var i := FindByName(s.users, username).value;
      var u := s.users[i].value;
      && |t.next.users| == |s.users|
      && t.next.users[i] == Entry(s.users[i].key, u.(online := true, lastSeen := env.now, status := "online"))
      && (forall j :: 0 <= j < |s.users| && j != i ==> t.next.users[j] == s.users[j])
      && ConnOf(t.next, sid).binding == Some(Binding(u.id, username))
      && ConnOf(t.next, sid).rooms == ConnOf(s, sid).rooms + {General}
      && t.next.sockets == Set(s.sockets, sid, ConnOf(t.next, sid))
      && t.next.sessions == s.sessions[sid := u.id]
      && (General in s.rooms ==> t.next.rooms[General].members == s.rooms[General].members + {u.id})
      && |t.emits| > 0 && t.emits[0] == Emit(Origin, AuthSuccess(env.token, t.next.users[i].value))
      && (General in s.rooms ==>
           t.emits[1..] == [Emit(Everyone, UserList(Values(t.next.users))), Emit(Everyone, RoomUsers(General, t.next.rooms[General].members))])
    ensures forall r :: r in s.rooms ==> t.next.rooms[r].(members := s.rooms[r].members) == s.rooms[r]
    ensures forall r :: r in s.rooms && r != General ==> t.next.rooms[r] == s.rooms[r]
    ensures forall other :: other != sid ==> Get(t.next.sockets, other) == Get(s.sockets, other)
    ensures DistinctKeys(s.sockets) ==> DistinctKeys(t.next.sockets)
    ensures t.next.(users := s.users, rooms := s.rooms, sockets := s.sockets, sessions := s.sessions) == s
  {
    match FindByName(s.users, username)
    case None => Transition(s, [Emit(Origin, AuthError(InvalidCredentials))])
    case Some(i) =>
      if !env.verify(password, s.users[i].value.password) then
        Transition(s, [Emit(Origin, AuthError(InvalidCredentials))])
      else
        Admit(s, sid, i, username, env)
  }

  /** An accepted login of user `i`: it goes online, the socket is bound to it and joins general. */
  function Admit(s: State, sid: SocketId, i: nat, username: string, env: Env): (t: Transition)
    requires i < |s.users|
    ensures t.next.rooms.Keys == s.rooms.Keys
    ensures var u := s.users[i].value;
      && |t.next.users| == |s.users|
      && t.next.users[i] == Entry(s.users[i].key, u.(online := true, lastSeen := env.now, status := "online"))
      && (forall j :: 0 <= j < |s.users| && j != i ==> t.next.users[j] == s.users[j])
      && ConnOf(t.next, sid).binding == Some(Binding(u.id, username))
      && ConnOf(t.next, sid).rooms == ConnOf(s, sid).rooms + {General}
      && t.next.sockets == Set(s.sockets, sid, ConnOf(t.next, sid))
      && t.next.sessions == s.sessions[sid := u.id]
      && (General in s.rooms ==> t.next.rooms[General].members == s.rooms[General].members + {u.id})
      && |t.emits| > 0 && t.emits[0] == Emit(Origin, AuthSuccess(env.token, t.next.users[i].value))
      && (General in s.rooms ==>
           t.emits[1..] == [Emit(Everyone, UserList(Values(t.next.users))), Emit(Everyone, RoomUsers(General, t.next.rooms[General].members))])
    ensures forall r :: r in s.rooms ==> t.next.rooms[r].(members := s.rooms[r].members) == s.rooms[r]
    ensures forall r :: r in s.rooms && r != General ==> t.next.rooms[r] == s.rooms[r]
    ensures forall other :: other != sid ==> Get(t.next.sockets, other) == Get(s.sockets, other)
    ensures DistinctKeys(s.sockets) ==> DistinctKeys(t.next.sockets)
    ensures t.next.(users := s.users, rooms := s.rooms, sockets := s.sockets, sessions := s.sessions) == s
  {
    var u := s.users[i].value;
    var u' := u.(online := true, lastSeen := env.now, status := "online");
    var s1 := Bind(s.(users := s.users[i := Entry(s.users[i].key, u')]), sid, Binding(u.id, username));
    var t := JoinGeneral(s1, sid, u.id, [Emit(Origin, AuthSuccess(env.token, u'))]);
    SetTwice(s.sockets, sid, ConnOf(s1, sid), ConnOf(t.next, sid));
    t
  }


  /** `user_join`: registration when `isNewUser`, login otherwise. */
  function HandleUserJoin(s: State, sid: SocketId, username: string, password: string, isNewUser: bool, env: Env): (t: Transition)
  {
    if isNewUser then Register(s, sid, username, env) else Login(s, sid, username, password, env)
  }

  // ---------------------------------------------------------------- join_room

  /** The rooms a socket leaves on `join_room`: those it is in that the server knows, except its own. */
  function RoomsLeft(s: State, sid: SocketId, c: Conn): (r: set<RoomId>)
    ensures r <= c.rooms && r <= s.rooms.Keys && sid !in r
    ensures (c.rooms * s.rooms.Keys) - {sid} <= r
  {
    set id | id in c.rooms && id != sid && id in s.rooms
  }

  /** The rooms after the user leaves those in `left`: only the user goes, only from those rooms. */
  function WithoutMember(rooms: map<RoomId, Room>, left: set<RoomId>, uid: UserId): (r: map<RoomId, Room>)
    ensures r.Keys == rooms.Keys
    ensures forall id :: id in rooms && id in left ==>
      && uid !in r[id].members
      && r[id].members <= rooms[id].members && rooms[id].members - r[id].members <= {uid}
      && r[id].(members := rooms[id].members) == rooms[id]
    ensures forall id :: id in rooms && id !in left ==> r[id] == rooms[id]
  {
    map id | id in rooms :: if id in left then rooms[id].(members := rooms[id].members - {uid}) else rooms[id]
  }

  function HandleJoinRoom(s: State, sid: SocketId, roomId: RoomId): (t: Transition)
    ensures t.next.rooms.Keys == s.rooms.Keys
    ensures ConnOf(s, sid).binding.None? ==> t == Transition(s, [])
    ensures ConnOf(s, sid).binding.Some? && roomId !in s.rooms ==> t == Transition(s, [Emit(Origin, ErrorNotice(RoomNotFound))])
    ensures ConnOf(s, sid).binding.Some? && roomId in s.rooms ==>
      var c := ConnOf(s, sid);
      var uid := c.binding.value.userId;
      var room := t.next.rooms[roomId];
      // the user is now in the target room, and gone from every other room this socket was in
      && uid in room.members
      && (forall id :: id in c.rooms && id != roomId && id != sid && id in s.rooms ==> uid !in t.next.rooms[id].members)
      && (forall id :: id in RoomsLeft(s, sid, c) && id != roomId ==> t.next.rooms[id].members == s.rooms[id].members - {uid})
      && (forall id :: id in s.rooms && id != roomId && id !in c.rooms ==> t.next.rooms[id] == s.rooms[id])
      && room.members - {uid} == s.rooms[roomId].members - {uid}
      && ConnOf(t.next, sid) == c.(rooms := c.rooms - RoomsLeft(s, sid, c) + {roomId})
      && t.next.sockets == Set(s.sockets, sid, ConnOf(t.next, sid))
      // the requester gets the newest min(50, n) messages in order, then everybody in the room the members
      && t.emits == [
        Emit(Origin, RoomMessages(roomId, Snapshot(s.rooms[roomId].messages))),
        Emit(ToRoom(roomId), RoomUsers(roomId, room.members)),
        Emit(Origin, RoomJoined(room))]
    ensures forall r :: r in s.rooms ==> t.next.rooms[r].(members := s.rooms[r].members) == s.rooms[r]
    ensures forall other :: other != sid ==> Get(t.next.sockets, other) == Get(s.sockets, other)
    ensures DistinctKeys(s.sockets) ==> DistinctKeys(t.next.sockets)
    ensures t.next.(rooms := s.rooms, sockets := s.sockets) == s
  {
    var c := ConnOf(s, sid);
    if c.binding.None? then Transition(s, [])
    else if roomId !in s.rooms then Transition(s, [Emit(Origin, ErrorNotice(RoomNotFound))])
    else
      var uid := c.binding.value.userId;
      var left := RoomsLeft(s, sid, c);
      var rooms1 := WithoutMember(s.rooms, left, uid);
      var room := rooms1[roomId].(members := rooms1[roomId].members + {uid});
      var s1 := WithConn(s.(rooms := rooms1[roomId := room]), sid, c.(rooms := c.rooms - left + {roomId}));
      Transition(s1, [
        Emit(Origin, RoomMessages(roomId, Snapshot(room.messages))),
        Emit(ToRoom(roomId), RoomUsers(roomId, room.members)),
        Emit(Origin, RoomJoined(room))])
  }

  // ---------------------------------------------------------------- send_message / file_upload

  /** A freshly built room message: read by its sender only, with no reactions. */
  predicate IsFresh(m: Message, env: Env, roomId: RoomId, b: Binding) {
    && m.id == env.freshId && m.roomId == roomId && m.timestamp == env.now
    && m.sender == b.username && m.senderId == b.userId
    && m.readBy == {Some(b.userId)} && m.reactions == map[]
  }

  /** Appends `m` to the room's log; the log keeps its cap and drops at most its oldest entry. */
  function Publish(s: State, roomId: RoomId, m: Message): (r: State)
    requires roomId in s.rooms
    ensures r.rooms.Keys == s.rooms.Keys
    ensures forall id :: id in s.rooms && id != roomId ==> r.rooms[id] == s.rooms[id]
    ensures r.rooms[roomId] == s.rooms[roomId].(messages := Push(s.rooms[roomId].messages, m))
    ensures r == s.(rooms := r.rooms)
  {
    var room := s.rooms[roomId];
    s.(rooms := s.rooms[roomId := room.(messages := Push(room.messages, m))])
  }

  function HandleSendMessage(s: State, sid: SocketId, roomId: RoomId, text: string, kind: Option<string>, env: Env): (t: Transition)
    ensures t.next.rooms.Keys == s.rooms.Keys
    ensures ConnOf(s, sid).binding.Some? && roomId in s.rooms ==> |t.next.rooms[roomId].messages| > 0
    ensures ConnOf(s, sid).binding.None? ==> t == Transition(s, [])
    ensures ConnOf(s, sid).binding.Some? && roomId !in s.rooms ==> t == Transition(s, [Emit(Origin, ErrorNotice(RoomNotFound))])
    ensures ConnOf(s, sid).binding.Some? && roomId in s.rooms ==>
      var b := ConnOf(s, sid).binding.value;
      var log := t.next.rooms[roomId].messages;
      var m := log[|log| - 1];
      var note := NewMessage(roomId, b.username, Preview(text), env.now);
      // the new message, built fresh from the text, is pushed onto the capped log
      && log == Push(s.rooms[roomId].messages, m)
      && IsFresh(m, env, roomId, b) && m.text == text && m.kind == kind.GetOr("text") && m.attachment.None?
      && t.next.rooms[roomId].(messages := s.rooms[roomId].messages) == s.rooms[roomId]
      && (forall id :: id in s.rooms && id != roomId ==> t.next.rooms[id] == s.rooms[id])
      // one notification for each member whose user is missing or offline; nobody else's queue changes
      && (forall u :: Queue(t.next.notifications, u) ==
            Queue(s.notifications, u) + (if u in s.rooms[roomId].members && !IsOnline(s.users, u) then [note] else []))
      && t.next.(rooms := s.rooms, notifications := s.notifications) == s
      && t.emits == [Emit(ToRoom(roomId), ReceiveMessage(m))]
  {
    var c := ConnOf(s, sid);
    if c.binding.None? then Transition(s, [])
    else if roomId !in s.rooms then Transition(s, [Emit(Origin, ErrorNotice(RoomNotFound))])
    else
      var b := c.binding.value;
      var m := Message(env.freshId, roomId, b.username, b.userId, text, kind.GetOr("text"), env.now, {Some(b.userId)}, map[], None);
      var members := s.rooms[roomId].members;
      var note := NewMessage(roomId, b.username, Preview(text), env.now);
      var s1 := Publish(s, roomId, m);
      Transition(s1.(notifications := QueueFor(s.notifications, OfflineMembers(s.users, members), note)),
        [Emit(ToRoom(roomId), ReceiveMessage(m))])
  }

  /** Like `send_message`, with the file name as text and kind "file"; it queues no notification. */
  function HandleFileUpload(s: State, sid: SocketId, roomId: RoomId, fileName: string, fileType: string, fileSize: int, fileData: string, env: Env): (t: Transition)
    ensures t.next.rooms.Keys == s.rooms.Keys
    ensures ConnOf(s, sid).binding.Some? && roomId in s.rooms ==> |t.next.rooms[roomId].messages| > 0
    ensures ConnOf(s, sid).binding.None? ==> t == Transition(s, [])
    ensures ConnOf(s, sid).binding.Some? && roomId !in s.rooms ==> t == Transition(s, [Emit(Origin, ErrorNotice(RoomNotFound))])
    ensures ConnOf(s, sid).binding.Some? && roomId in s.rooms ==>
      var b := ConnOf(s, sid).binding.value;
      var log := t.next.rooms[roomId].messages;
      var m := log[|log| - 1];
      && log == Push(s.rooms[roomId].messages, m)
      && IsFresh(m, env, roomId, b) && m.text == fileName && m.kind == "file"
      && m.attachment == Some(Attachment(fileType, fileSize, fileData))
      && t.next.rooms[roomId].(messages := s.rooms[roomId].messages) == s.rooms[roomId]
      && (forall id :: id in s.rooms && id != roomId ==> t.next.rooms[id] == s.rooms[id])
      && t.next.(rooms := s.rooms) == s
      && t.emits == [Emit(ToRoom(roomId), ReceiveMessage(m))]
  {
    var c := ConnOf(s, sid);
    if c.binding.None? then Transition(s, [])
    else if roomId !in s.rooms then Transition(s, [Emit(Origin, ErrorNotice(RoomNotFound))])
    else
      var b := c.binding.value;
      var m := Message(env.freshId, roomId, b.username, b.userId, fileName, "file", env.now, {Some(b.userId)}, map[],
        Some(Attachment(fileType, fileSize, fileData)));
      Transition(Publish(s, roomId, m), [Emit(ToRoom(roomId), ReceiveMessage(m))])
  }

  // ---------------------------------------------------------------- private_message

  function HandleSendPrivate(s: State, sid: SocketId, toUserId: UserId, text: string, kind: Option<string>, env: Env): (t: Transition)
    ensures ConnOf(s, sid).binding.None? ==> t == Transition(s, [])
    ensures ConnOf(s, sid).binding.Some? && Get(s.users, toUserId).None? ==> t == Transition(s, [Emit(Origin, ErrorNotice(UserNotFound))])
    ensures ConnOf(s, sid).binding.Some? && Get(s.users, toUserId).Some? ==>
      var b := ConnOf(s, sid).binding.value;
      var key := ConversationKey(b.userId, toUserId);
      var pm := PrivateMessage(env.freshId, b.username, b.userId, Get(s.users, toUserId).value.username, toUserId,
        text, kind.GetOr("text"), env.now, false);
      // stored at the end of the conversation's log, under the symmetric key
      && t.next.conversations == s.conversations[key := Thread(s.conversations, key) + [pm]]
      // either it reaches the recipient's first socket, or the recipient gets one notification
      && (HasLiveSocket(s, toUserId) ==>
            && |t.emits| == 2
            && t.emits[0].payload == DeliverPrivate(pm)
            && t.emits[0].target.ToSocket?
            && (exists i :: 0 <= i < |s.sockets| && s.sockets[i].key == t.emits[0].target.sid && BoundTo(s.sockets[i].value, toUserId)
                  && forall j :: 0 <= j < i ==> !BoundTo(s.sockets[j].value, toUserId))
            && t.next.notifications == s.notifications)
      && (!HasLiveSocket(s, toUserId) ==>
            && |t.emits| == 1
            && t.next.notifications == s.notifications[toUserId := Queue(s.notifications, toUserId) + [PrivateNote(b.username, Preview(text), env.now)]])
      // the sender always gets the message back
      && t.emits[|t.emits| - 1] == Emit(Origin, DeliverPrivate(pm))
      && t.next.(conversations := s.conversations, notifications := s.notifications) == s
  {
    var c := ConnOf(s, sid);
    if c.binding.None? then Transition(s, [])
    else
      match Get(s.users, toUserId)
      case None => Transition(s, [Emit(Origin, ErrorNotice(UserNotFound))])
      case Some(recipient) =>
        var b := c.binding.value;
        var pm := PrivateMessage(env.freshId, b.username, b.userId, recipient.username, toUserId, text, kind.GetOr("text"), env.now, false);
        var key := ConversationKey(b.userId, toUserId);
        var s1 := s.(conversations := s.conversations[key := Thread(s.conversations, key) + [pm]]);
        match FirstSocketOf(s.sockets, toUserId)
        case Some(rsid) =>
          Transition(s1, [Emit(ToSocket(rsid), DeliverPrivate(pm)), Emit(Origin, DeliverPrivate(pm))])
        case None =>
          var note := PrivateNote(b.username, Preview(text), env.now);
          Transition(s1.(notifications := s.notifications[toUserId := Queue(s.notifications, toUserId) + [note]]),
            [Emit(Origin, DeliverPrivate(pm))])
  }

  // ---------------------------------------------------------------- typing

  /** The usernames of the typing entries for `roomId`, in insertion order, duplicates kept. */
  function TypingNames(entries: JsMap<SocketId, TypingEntry>, roomId: RoomId): (r: seq<string>)
    ensures |r| <= |entries|
    ensures forall name :: name in r <==>
      exists i :: 0 <= i < |entries| && entries[i].value.roomId == roomId && entries[i].value.username == name
  {
    if |entries| == 0 then []
    else
      var head := if entries[0].value.roomId == roomId then [entries[0].value.username] else [];
      head + TypingNames(entries[1..], roomId)
  }

  function HandleTyping(s: State, sid: SocketId, roomId: RoomId, isTyping: bool): (t: Transition)
    ensures ConnOf(s, sid).binding.None? || roomId !in s.rooms ==> t == Transition(s, [])
    ensures ConnOf(s, sid).binding.Some? && roomId in s.rooms ==>
      // only this socket's entry changes
      && (isTyping ==> Get(t.next.typing, sid) == Some(TypingEntry(ConnOf(s, sid).binding.value.username, roomId)))
      && (!isTyping ==> Get(t.next.typing, sid) == None)
      && (forall other :: other != sid ==> Get(t.next.typing, other) == Get(s.typing, other))
      // a new typist goes last, a known one keeps its place, a stop keeps the others' order
      && (var e := Entry(sid, TypingEntry(ConnOf(s, sid).binding.value.username, roomId));
          && (isTyping && !HasKey(s.typing, sid) ==> t.next.typing == s.typing + [e])
          && (isTyping && HasKey(s.typing, sid) && DistinctKeys(s.typing) ==>
                && |t.next.typing| == |s.typing|
                && forall j :: 0 <= j < |s.typing| ==> t.next.typing[j] == (if s.typing[j].key == sid then e else s.typing[j])))
      && (!isTyping ==>
            && IsSubsequence(t.next.typing, s.typing)
            && (forall x :: x in t.next.typing ==> x in s.typing && x.key != sid)
            && (forall x :: x in s.typing && x.key != sid ==> x in t.next.typing))
      && (DistinctKeys(s.typing) ==> DistinctKeys(t.next.typing))
      // and the room hears the complete list of who is typing there
      && t.emits == [Emit(ToRoom(roomId), TypingUsers(TypingNames(t.next.typing, roomId)))]
      && t.next == s.(typing := t.next.typing)
  {
    var c := ConnOf(s, sid);
    if c.binding.None? || roomId !in s.rooms then Transition(s, [])
    else
      var typing := if isTyping then Set(s.typing, sid, TypingEntry(c.binding.value.username, roomId)) else Delete(s.typing, sid);
      Transition(s.(typing := typing), [Emit(ToRoom(roomId), TypingUsers(TypingNames(typing, roomId)))])
  }

  // ---------------------------------------------------------------- message_reaction / mark_read

  /** Replaces message `i` of `roomId`'s log by `m`. */
  function UpdateMessage(s: State, roomId: RoomId, i: nat, m: Message): (r: State)
    requires roomId in s.rooms && i < |s.rooms[roomId].messages|
    ensures r.rooms.Keys == s.rooms.Keys
    ensures forall id :: id in s.rooms && id != roomId ==> r.rooms[id] == s.rooms[id]
    ensures r.rooms[roomId] == s.rooms[roomId].(messages := s.rooms[roomId].messages[i := m])
    ensures r == s.(rooms := r.rooms)
  {
    var room := s.rooms[roomId];
    s.(rooms := s.rooms[roomId := room.(messages := room.messages[i := m])])
  }

  /** `message_reaction`: no login check, so the reactor may be undefined; unknown room or message is ignored. */
  function HandleReaction(s: State, sid: SocketId, messageId: MessageId, roomId: RoomId, reaction: string): (t: Transition)
    ensures t.next.rooms.Keys == s.rooms.Keys
    ensures roomId !in s.rooms || FindMessage(s.rooms[roomId].messages, messageId).None? ==> t == Transition(s, [])
    ensures roomId in s.rooms && FindMessage(s.rooms[roomId].messages, messageId).Some? ==>
      var log := s.rooms[roomId].messages;
      var i := FindMessage(log, messageId).value;
      var log' := t.next.rooms[roomId].messages;
      // only the first message with that id changes, and only in that one reaction's set
      && |log'| == |log|
      && (forall j :: 0 <= j < |log| && j != i ==> log'[j] == log[j])
      && log'[i].(reactions := log[i].reactions) == log[i]
      && log'[i].reactions.Keys == log[i].reactions.Keys + {reaction}
      && Reactors(log'[i], reaction) == Reactors(log[i], reaction) + {ActorOf(ConnOf(s, sid))}
      && (forall other :: other in log[i].reactions && other != reaction ==> log'[i].reactions[other] == log[i].reactions[other])
      && t.next.rooms[roomId].(messages := log) == s.rooms[roomId]
      && t.emits == [Emit(ToRoom(roomId), ReactionUpdate(messageId, reaction, Reactors(log'[i], reaction)))]
    ensures forall id :: id in s.rooms && id != roomId ==> t.next.rooms[id] == s.rooms[id]
    ensures t.next == s.(rooms := t.next.rooms)
  {
    if roomId !in s.rooms then Transition(s, [])
    else
      var log := s.rooms[roomId].messages;
      match FindMessage(log, messageId)
      case None => Transition(s, [])
      case Some(i) =>
        var m := AddReaction(log[i], reaction, ActorOf(ConnOf(s, sid)));
        Transition(UpdateMessage(s, roomId, i, m), [Emit(ToRoom(roomId), ReactionUpdate(messageId, reaction, Reactors(m, reaction)))])
  }

  /** `mark_read`: like `message_reaction`, on the message's `readBy` set. */
  function HandleMarkRead(s: State, sid: SocketId, messageId: MessageId, roomId: RoomId): (t: Transition)
    ensures t.next.rooms.Keys == s.rooms.Keys
    ensures roomId !in s.rooms || FindMessage(s.rooms[roomId].messages, messageId).None? ==> t == Transition(s, [])
    ensures roomId in s.rooms && FindMessage(s.rooms[roomId].messages, messageId).Some? ==>
      var log := s.rooms[roomId].messages;
      var i := FindMessage(log, messageId).value;
      var log' := t.next.rooms[roomId].messages;
      && |log'| == |log|
      && (forall j :: 0 <= j < |log| && j != i ==> log'[j] == log[j])
      && log'[i].(readBy := log[i].readBy) == log[i]
      && log'[i].readBy == log[i].readBy + {ActorOf(ConnOf(s, sid))}
      && t.next.rooms[roomId].(messages := log) == s.rooms[roomId]
      && t.emits == [Emit(ToRoom(roomId), ReadUpdate(messageId, log'[i].readBy))]
    ensures forall id :: id in s.rooms && id != roomId ==> t.next.rooms[id] == s.rooms[id]
    ensures t.next == s.(rooms := t.next.rooms)
  {
    if roomId !in s.rooms then Transition(s, [])
    else
      var log := s.rooms[roomId].messages;
      match FindMessage(log, messageId)
      case None => Transition(s, [])
      case Some(i) =>
        var m := AddReader(log[i], ActorOf(ConnOf(s, sid)));
        Transition(UpdateMessage(s, roomId, i, m), [Emit(ToRoom(roomId), ReadUpdate(messageId, m.readBy))])
  }

  // ---------------------------------------------------------------- update_status / get_notifications

  /** `update_status`: sets the status text only; presence (`online`) is left alone. */
  function HandleUpdateStatus(s: State, sid: SocketId, status: string): (t: Transition)
    ensures ConnOf(s, sid).binding.None? ==> t == Transition(s, [])
    ensures ConnOf(s, sid).binding.Some? ==>
      var uid := ConnOf(s, sid).binding.value.userId;
      && (Get(s.users, uid).None? ==> t == Transition(s, []))
      && (Get(s.users, uid).Some? ==>
            && Get(t.next.users, uid) == Some(Get(s.users, uid).value.(status := status))
            && (forall k :: k != uid ==> Get(t.next.users, k) == Get(s.users, k))
            && t.emits == [Emit(Everyone, StatusUpdate(uid, status))])
    ensures |t.next.users| == |s.users|
    ensures forall j :: 0 <= j < |s.users| ==> t.next.users[j].key == s.users[j].key
    ensures forall j :: 0 <= j < |s.users| ==> t.next.users[j].value.(status := s.users[j].value.status) == s.users[j].value
    ensures t.next == s.(users := t.next.users)
  {
    var c := ConnOf(s, sid);
    if c.binding.None? then Transition(s, [])
    else
      var uid := c.binding.value.userId;
      match Get(s.users, uid)
      case None => Transition(s, [])
      case Some(u) =>
        var users := Set(s.users, uid, u.(status := status));
        assert HasKey(s.users, uid);
        Transition(s.(users := users), [Emit(Everyone, StatusUpdate(uid, status))])
  }

  /** `get_notifications`: hands over the whole queue and deletes it. */
  function HandleGetNotifications(s: State, sid: SocketId): (t: Transition)
    ensures ConnOf(s, sid).binding.None? ==> t == Transition(s, [])
    ensures ConnOf(s, sid).binding.Some? ==>
      var uid := ConnOf(s, sid).binding.value.userId;
      && t.emits == [Emit(Origin, NotificationList(Queue(s.notifications, uid)))]
      && uid !in t.next.notifications
      && (forall u :: u != uid ==> Queue(t.next.notifications, u) == Queue(s.notifications, u))
      && t.next == s.(notifications := s.notifications - {uid})
  {
    var c := ConnOf(s, sid);
    if c.binding.None? then Transition(s, [])
    else
      var uid := c.binding.value.userId;
      Transition(s.(notifications := s.notifications - {uid}), [Emit(Origin, NotificationList(Queue(s.notifications, uid)))])
  }

  // ---------------------------------------------------------------- connection / disconnect

  /** A new connection: a socket with no user and no rooms. */
  function HandleConnect(s: State, sid: SocketId): (t: Transition)
    ensures ConnOf(t.next, sid) == FreshConn && HasKey(t.next.sockets, sid)
    // a new socket goes last in connection order; a known id keeps its place
    ensures !HasKey(s.sockets, sid) ==> t.next.sockets == s.sockets + [Entry(sid, FreshConn)]
    ensures HasKey(s.sockets, sid) ==> |t.next.sockets| == |s.sockets|
    ensures forall other :: other != sid ==> Get(t.next.sockets, other) == Get(s.sockets, other)
    ensures t.next == s.(sockets := t.next.sockets) && t.emits == []
  {
    Transition(WithConn(s, sid, FreshConn), [])
  }

  /** The rooms after the user leaves all of them: only the user goes. */
  function RemoveEverywhere(rooms: map<RoomId, Room>, uid: UserId): (r: map<RoomId, Room>)
    ensures r.Keys == rooms.Keys
    ensures forall id :: id in rooms ==>
      && uid !in r[id].members
      && r[id].members <= rooms[id].members && rooms[id].members - r[id].members <= {uid}
      && r[id].(members := rooms[id].members) == rooms[id]
  {
    map id | id in rooms :: rooms[id].(members := rooms[id].members - {uid})
  }

  /** The user record after a disconnect: offline, whatever other sockets the user still has. */
  function WentOffline(u: User, now: Time): User {
    u.(online := false, lastSeen := now, status := "offline")
  }

  /** The user list after `uid` goes offline: every entry keeps its place, only that user's changes. */
  function MarkedOffline(users: JsMap<UserId, User>, uid: UserId, now: Time): (r: JsMap<UserId, User>)
    ensures Get(users, uid).Some? ==> Get(r, uid) == Some(WentOffline(Get(users, uid).value, now))
    ensures Get(users, uid).None? ==> r == users
    ensures forall k :: k != uid ==> Get(r, k) == Get(users, k)
    ensures |r| == |users|
    ensures forall j :: 0 <= j < |users| ==> r[j].key == users[j].key
    ensures forall j :: 0 <= j < |users| && users[j].key != uid ==> r[j] == users[j]
    ensures DistinctKeys(users) ==> DistinctKeys(r)
  {
    match Get(users, uid)
    case None => users
    case Some(u) => Set(users, uid, WentOffline(u, now))
  }

  /**
   * `disconnect`: the transport drops the socket; if it was logged in, its
   * user goes offline, its typing entry and session go, and the user leaves
   * every room.
   */
  function HandleDisconnect(s: State, sid: SocketId, now: Time): (t: Transition)
    ensures !HasKey(t.next.sockets, sid)
    ensures forall other :: other != sid ==> Get(t.next.sockets, other) == Get(s.sockets, other)
    // the other sockets stay, in connection order
    ensures IsSubsequence(t.next.sockets, s.sockets)
    ensures forall x :: x in t.next.sockets ==> x in s.sockets && x.key != sid
    ensures forall x :: x in s.sockets && x.key != sid ==> x in t.next.sockets
    ensures ConnOf(s, sid).binding.None? ==> t == Transition(s.(sockets := t.next.sockets), [])
    ensures ConnOf(s, sid).binding.Some? ==>
      var uid := ConnOf(s, sid).binding.value.userId;
      && (Get(s.users, uid).Some? ==> Get(t.next.users, uid) == Some(WentOffline(Get(s.users, uid).value, now)))
      && (Get(s.users, uid).None? ==> t.next.users == s.users)
      && (forall k :: k != uid ==> Get(t.next.users, k) == Get(s.users, k))
      // the broadcast list keeps every user in place; only that user's entry may change
      && |t.next.users| == |s.users|
      && (forall j :: 0 <= j < |s.users| ==> t.next.users[j].key == s.users[j].key)
      && (forall j :: 0 <= j < |s.users| && s.users[j].key != uid ==> t.next.users[j] == s.users[j])
      && IsSubsequence(t.next.typing, s.typing)
      && Get(t.next.typing, sid) == None
      && (forall other :: other != sid ==> Get(t.next.typing, other) == Get(s.typing, other))
      && t.next.rooms.Keys == s.rooms.Keys
      && (forall id :: id in s.rooms ==> t.next.rooms[id] == s.rooms[id].(members := s.rooms[id].members - {uid}))
      && t.next.sessions == s.sessions - {sid}
      && t.next.notifications == s.notifications && t.next.conversations == s.conversations
      && t.emits == [Emit(Everyone, UserList(Values(t.next.users)))]
  {
    var c := ConnOf(s, sid);
    var s0 := s.(sockets := Delete(s.sockets, sid));
    match c.binding
    case None => Transition(s0, [])
    case Some(b) =>
      var users := MarkedOffline(s.users, b.userId, now);
      var s1 := s0.(users := users, typing := Delete(s.typing, sid), rooms := RemoveEverywhere(s.rooms, b.userId), sessions := s.sessions - {sid});
      Transition(s1, [Emit(Everyone, UserList(Values(users)))])
  }

  // ---------------------------------------------------------------- dispatch

  /** Routes an inbound event to its handler. */
  function Handle(s: State, sid: SocketId, e: Inbound, env: Env): Transition {
    match e
    case UserJoin(username, password, isNewUser) => HandleUserJoin(s, sid, username, password, isNewUser, env)
    case JoinRoom(roomId) => HandleJoinRoom(s, sid, roomId)
    case SendMessage(roomId, text, kind) => HandleSendMessage(s, sid, roomId, text, kind, env)
    case SendPrivate(toUserId, text, kind) => HandleSendPrivate(s, sid, toUserId, text, kind, env)
    case Typing(roomId, isTyping) => HandleTyping(s, sid, roomId, isTyping)
    case MessageReaction(messageId, roomId, reaction) => HandleReaction(s, sid, messageId, roomId, reaction)
    case MarkRead(messageId, roomId) => HandleMarkRead(s, sid, messageId, roomId)
    case FileUpload(roomId, fileName, fileType, fileSize, fileData) => HandleFileUpload(s, sid, roomId, fileName, fileType, fileSize, fileData, env)
    case UpdateStatus(status) => HandleUpdateStatus(s, sid, status)
    case GetNotifications => HandleGetNotifications(s, sid)
  }

  /** What the transport delivers for one socket: its arrival, an event from it, or its departure. */
  datatype SocketEvent = Connected | Event(e: Inbound) | Disconnected

  /** One step of the server. The transport only delivers events of live sockets. */
  function Step(s: State, sid: SocketId, ev: SocketEvent, env: Env): Transition {
    match ev
    case Connected => HandleConnect(s, sid)
    case Event(e) => if HasKey(s.sockets, sid) then Handle(s, sid, e, env) else Transition(s, [])
    case Disconnected => if HasKey(s.sockets, sid) then HandleDisconnect(s, sid, env.now) else Transition(s, [])
  }
}
