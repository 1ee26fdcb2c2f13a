/**
 * What every reachable server state satisfies: the three start-up rooms
 * and no others, every log within the cap with each message filed under its
 * room and read by its sender, the insertion-ordered maps free of repeated
 * keys, and each user stored under its own id.
 */
module Invariants {
  import opened Optional
  import opened JsMaps
  import opened ChatTypes
  import opened MessageLog
  import opened Server

  ghost predicate LogValid(id: RoomId, log: seq<Message>) {
    && |log| <= MaxLog
    && forall j :: 0 <= j < |log| ==> log[j].roomId == id && Some(log[j].senderId) in log[j].readBy
  }

  ghost predicate RoomValid(id: RoomId, room: Room) {
    && room.id == id
    && id in InitialRooms()
    && room.name == InitialRooms()[id].name
    && room.description == InitialRooms()[id].description
    && LogValid(id, room.messages)
  }

  ghost predicate UsersKeyed(users: JsMap<UserId, User>) {
    forall i :: 0 <= i < |users| ==> users[i].value.id == users[i].key
  }

  ghost predicate Valid(s: State) {
    && s.rooms.Keys == InitialRooms().Keys
    && (forall id :: id in s.rooms ==> RoomValid(id, s.rooms[id]))
    && DistinctKeys(s.users) && UsersKeyed(s.users)
    && DistinctKeys(s.typing)
    && DistinctKeys(s.sockets)
  }

  lemma InitValid()
    ensures Valid(Init())
  {
  }

  /** Rooms whose only change is membership stay valid. */
  lemma MembersOnlyChange(s: State, s': State)
    requires Valid(s)
    requires s'.rooms.Keys == s.rooms.Keys
    requires forall r :: r in s.rooms ==> s'.rooms[r].(members := s.rooms[r].members) == s.rooms[r]
    ensures forall id :: id in s'.rooms ==> RoomValid(id, s'.rooms[id])
  {
    forall id | id in s'.rooms ensures RoomValid(id, s'.rooms[id]) {
      assert s'.rooms[id].messages == s.rooms[id].messages;
    }
  }

  lemma WithConnValid(s: State, sid: SocketId, c: Conn)
    requires DistinctKeys(s.sockets)
    ensures DistinctKeys(WithConn(s, sid, c).sockets)
  {
  }

  lemma RegisterValid(s: State, sid: SocketId, username: string, env: Env)
    requires Valid(s)
    ensures Valid(Register(s, sid, username, env).next)
  {
    var user := NewUser(username, env);
    var s0 := s.(users := Set(s.users, env.freshId, user));
    var s1 := Bind(s0, sid, Binding(env.freshId, username));
    var t := JoinGeneral(s1, sid, env.freshId, [Emit(Origin, AuthSuccess(env.token, user))]);
    assert Register(s, sid, username, env) == t;
    assert UsersKeyed(s0.users);
    assert t.next.users == s1.users == s0.users;
    MembersOnlyChange(s, t.next);
  }

  lemma LoginValid(s: State, sid: SocketId, username: string, password: string, env: Env)
    requires Valid(s)
    ensures Valid(Login(s, sid, username, password, env).next)
  {
    if LoginAccepted(s, username, password, env) {
      var i := FindByName(s.users, username).value;
      var u := s.users[i].value;
      var u' := u.(online := true, lastSeen := env.now, status := "online");
      var s0 := s.(users := s.users[i := Entry(s.users[i].key, u')]);
      var s1 := Bind(s0, sid, Binding(u.id, username));
      var t := JoinGeneral(s1, sid, u.id, [Emit(Origin, AuthSuccess(env.token, u'))]);
      assert Login(s, sid, username, password, env) == t;
      assert forall j :: 0 <= j < |s.users| ==> s0.users[j].key == s.users[j].key;
      assert UsersKeyed(s0.users);
      assert t.next.users == s1.users == s0.users;
      MembersOnlyChange(s, t.next);
    }
  }

  lemma UserJoinValid(s: State, sid: SocketId, username: string, password: string, isNewUser: bool, env: Env)
    requires Valid(s)
    ensures Valid(HandleUserJoin(s, sid, username, password, isNewUser, env).next)
  {
    if isNewUser {
      RegisterValid(s, sid, username, env);
    } else {
      LoginValid(s, sid, username, password, env);
    }
  }

  lemma JoinRoomValid(s: State, sid: SocketId, roomId: RoomId)
    requires Valid(s)
    ensures Valid(HandleJoinRoom(s, sid, roomId).next)
  {
    MembersOnlyChange(s, HandleJoinRoom(s, sid, roomId).next);
  }

  /** A fresh message pushed onto a valid log of its own room keeps the log valid. */
  lemma PushValid(id: RoomId, log: seq<Message>, m: Message)
    requires LogValid(id, log)
    requires m.roomId == id && Some(m.senderId) in m.readBy
    ensures LogValid(id, Push(log, m))
  {
    var r := Push(log, m);
    forall j | 0 <= j < |r| ensures r[j].roomId == id && Some(r[j].senderId) in r[j].readBy {
      if j < |r| - 1 {
        if |log| < MaxLog {
          assert r[j] == log[j];
        } else {
          assert r[j] == r[..|r| - 1][j] == log[1..][j];
        }
      }
    }
  }

  lemma SendMessageValid(s: State, sid: SocketId, roomId: RoomId, text: string, kind: Option<string>, env: Env)
    requires Valid(s)
    ensures Valid(HandleSendMessage(s, sid, roomId, text, kind, env).next)
  {
    var c := ConnOf(s, sid);
    if c.binding.Some? && roomId in s.rooms {
      var b := c.binding.value;
      var m := Message(env.freshId, roomId, b.username, b.userId, text, kind.GetOr("text"), env.now, {Some(b.userId)}, map[], None);
      PushValid(roomId, s.rooms[roomId].messages, m);
    }
  }

  lemma FileUploadValid(s: State, sid: SocketId, roomId: RoomId, fileName: string, fileType: string, fileSize: int, fileData: string, env: Env)
    requires Valid(s)
    ensures Valid(HandleFileUpload(s, sid, roomId, fileName, fileType, fileSize, fileData, env).next)
  {
    var c := ConnOf(s, sid);
    if c.binding.Some? && roomId in s.rooms {
      var b := c.binding.value;
      var m := Message(env.freshId, roomId, b.username, b.userId, fileName, "file", env.now, {Some(b.userId)}, map[],
        Some(Attachment(fileType, fileSize, fileData)));
      PushValid(roomId, s.rooms[roomId].messages, m);
    }
  }

  lemma ReactionValid(s: State, sid: SocketId, messageId: MessageId, roomId: RoomId, reaction: string)
    requires Valid(s)
    ensures Valid(HandleReaction(s, sid, messageId, roomId, reaction).next)
  {
  }

  lemma MarkReadValid(s: State, sid: SocketId, messageId: MessageId, roomId: RoomId)
    requires Valid(s)
    ensures Valid(HandleMarkRead(s, sid, messageId, roomId).next)
  {
    var t := HandleMarkRead(s, sid, messageId, roomId);
    if roomId in s.rooms && FindMessage(s.rooms[roomId].messages, messageId).Some? {
      var log := s.rooms[roomId].messages;
      var i := FindMessage(log, messageId).value;
      var log' := t.next.rooms[roomId].messages;
      assert log'[i].senderId == log[i].senderId && log'[i].readBy >= log[i].readBy;
      assert RoomValid(roomId, t.next.rooms[roomId]);
    }
  }

  lemma UpdateStatusValid(s: State, sid: SocketId, status: string)
    requires Valid(s)
    ensures Valid(HandleUpdateStatus(s, sid, status).next)
  {
    var t := HandleUpdateStatus(s, sid, status);
    assert UsersKeyed(t.next.users) by {
      forall j | 0 <= j < |t.next.users| ensures t.next.users[j].value.id == t.next.users[j].key {
        assert t.next.users[j].value.(status := s.users[j].value.status) == s.users[j].value;
      }
    }
    var c := ConnOf(s, sid);
    if c.binding.Some? && Get(s.users, c.binding.value.userId).Some? {
      var uid := c.binding.value.userId;
      var u := Get(s.users, uid).value;
      assert t.next.users == Set(s.users, uid, u.(status := status));
    }
  }

  lemma DisconnectValid(s: State, sid: SocketId, now: Time)
    requires Valid(s)
    ensures Valid(HandleDisconnect(s, sid, now).next)
  {
    var t := HandleDisconnect(s, sid, now);
    var c := ConnOf(s, sid);
    if c.binding.Some? {
      var uid := c.binding.value.userId;
      MembersOnlyChange(s, t.next);
      match Get(s.users, uid)
      case None =>
      case Some(u) =>
        assert t.next.users == Set(s.users, uid, WentOffline(u, now));
        var i := IndexOf(s.users, uid).value;
        assert s.users[i].value == u;
    }
  }

  /** Every step of the server keeps the state valid. */
  lemma StepValid(s: State, sid: SocketId, ev: SocketEvent, env: Env)
    requires Valid(s)
    ensures Valid(Step(s, sid, ev, env).next)
  {
    match ev
    case Connected =>
    case Disconnected => DisconnectValid(s, sid, env.now);
    case Event(e) =>
      match e
      case UserJoin(username, password, isNewUser) => UserJoinValid(s, sid, username, password, isNewUser, env);
      case JoinRoom(roomId) => JoinRoomValid(s, sid, roomId);
      case SendMessage(roomId, text, kind) => SendMessageValid(s, sid, roomId, text, kind, env);
      case SendPrivate(_, _, _) =>
      case Typing(_, _) =>
      case MessageReaction(messageId, roomId, reaction) => ReactionValid(s, sid, messageId, roomId, reaction);
      case MarkRead(messageId, roomId) => MarkReadValid(s, sid, messageId, roomId);
      case FileUpload(roomId, fileName, fileType, fileSize, fileData) =>
        FileUploadValid(s, sid, roomId, fileName, fileType, fileSize, fileData, env);
      case UpdateStatus(status) => UpdateStatusValid(s, sid, status);
      case GetNotifications =>
  }

  /**
   * In a valid state the lookup of "general" never throws: `user_join`
   * either answers `Invalid credentials` alone, or `auth_success` followed
   * by the user list and general's members.
   */
  lemma UserJoinOutcome(s: State, sid: SocketId, username: string, password: string, isNewUser: bool, env: Env)
    requires Valid(s)
    ensures var t := HandleUserJoin(s, sid, username, password, isNewUser, env);
      || t.emits == [Emit(Origin, AuthError(InvalidCredentials))]
      || (&& |t.emits| == 3
          && t.emits[0].target == Origin && t.emits[0].payload.AuthSuccess?
          && t.emits[1] == Emit(Everyone, UserList(Values(t.next.users)))
          && t.emits[2] == Emit(Everyone, RoomUsers(General, t.next.rooms[General].members)))
  {
    assert General in s.rooms;
  }
}
