/**
 * Properties of the chat server that relate several handler calls, or that
 * state one handler's behaviour across all inbound events.
 */
module ServerProps {
  import opened Optional
  import opened JsMaps
  import opened Text
  import opened ChatTypes
  import opened MessageLog
  import opened Server

  /** Every handler that checks `socket.userId` ignores a socket that has not logged in. */
  lemma UnboundSocketIgnored(s: State, sid: SocketId, e: Inbound, env: Env)
    requires e.Guarded() && ConnOf(s, sid).binding.None?
    ensures Handle(s, sid, e, env) == Transition(s, [])
  {
  }

  /** An unknown room is answered with one error to the sender and nothing else. */
  lemma UnknownRoomRejected(s: State, sid: SocketId, e: Inbound, env: Env)
    requires ConnOf(s, sid).binding.Some?
    requires e.JoinRoom? || e.SendMessage? || e.FileUpload?
    requires e.roomId !in s.rooms
    ensures Handle(s, sid, e, env) == Transition(s, [Emit(Origin, ErrorNotice(RoomNotFound))])
  {
  }

  /** An unknown recipient is answered with one error to the sender; no message is stored. */
  lemma UnknownRecipientRejected(s: State, sid: SocketId, toUserId: UserId, text: string, kind: Option<string>, env: Env)
    requires ConnOf(s, sid).binding.Some? && !HasKey(s.users, toUserId)
    ensures Handle(s, sid, SendPrivate(toUserId, text, kind), env) == Transition(s, [Emit(Origin, ErrorNotice(UserNotFound))])
  {
  }

  /** A reaction or read receipt on a missing room or message is ignored silently, logged in or not. */
  lemma UnknownMessageIgnored(s: State, sid: SocketId, e: Inbound, env: Env)
    requires e.MessageReaction? || e.MarkRead?
    requires e.roomId !in s.rooms || FindMessage(s.rooms[e.roomId].messages, e.messageId).None?
    ensures Handle(s, sid, e, env) == Transition(s, [])
  {
  }

  /** Reacting twice the same way gives the same state and the same broadcast as reacting once. */
  lemma ReactionIdempotent(s: State, sid: SocketId, messageId: MessageId, roomId: RoomId, reaction: string)
    ensures var once := HandleReaction(s, sid, messageId, roomId, reaction);
      HandleReaction(once.next, sid, messageId, roomId, reaction) == once
  {
    var once := HandleReaction(s, sid, messageId, roomId, reaction);
    if roomId in s.rooms && FindMessage(s.rooms[roomId].messages, messageId).Some? {
      var log := s.rooms[roomId].messages;
      var i := FindMessage(log, messageId).value;
      var m := AddReaction(log[i], reaction, ActorOf(ConnOf(s, sid)));
      FindMessageAfterUpdate(log, i, m, messageId);
      AddReactionIdempotent(log[i], reaction, ActorOf(ConnOf(s, sid)));
      assert once.next.rooms[roomId].messages == log[i := m];
      assert log[i := m][i := AddReaction(m, reaction, ActorOf(ConnOf(s, sid)))] == log[i := m];
      assert once.next.rooms[roomId := once.next.rooms[roomId]] == once.next.rooms;
    }
  }

  /** Marking a message read twice gives the same state and broadcast as once. */
  lemma MarkReadIdempotent(s: State, sid: SocketId, messageId: MessageId, roomId: RoomId)
    ensures var once := HandleMarkRead(s, sid, messageId, roomId);
      HandleMarkRead(once.next, sid, messageId, roomId) == once
  {
    var once := HandleMarkRead(s, sid, messageId, roomId);
    if roomId in s.rooms && FindMessage(s.rooms[roomId].messages, messageId).Some? {
      var log := s.rooms[roomId].messages;
      var i := FindMessage(log, messageId).value;
      var m := AddReader(log[i], ActorOf(ConnOf(s, sid)));
      FindMessageAfterUpdate(log, i, m, messageId);
      assert once.next.rooms[roomId].messages == log[i := m];
      assert log[i := m][i := AddReader(m, ActorOf(ConnOf(s, sid)))] == log[i := m];
      assert once.next.rooms[roomId := once.next.rooms[roomId]] == once.next.rooms;
    }
  }

  /** Fetching notifications drains the queue: an immediate second fetch hands over nothing. */
  lemma NotificationsConsumedOnce(s: State, sid: SocketId)
    requires ConnOf(s, sid).binding.Some?
    ensures var first := HandleGetNotifications(s, sid);
      var second := HandleGetNotifications(first.next, sid);
      && first.emits == [Emit(Origin, NotificationList(Queue(s.notifications, ConnOf(s, sid).binding.value.userId)))]
      && second.emits == [Emit(Origin, NotificationList([]))]
      && second.next == first.next
  {
    var first := HandleGetNotifications(s, sid);
    assert ConnOf(first.next, sid) == ConnOf(s, sid);
  }

  /** A room message queues exactly one notification for an offline member with an empty queue. */
  lemma OfflineMemberQueued(s: State, alice: SocketId, roomId: RoomId, text: string, env: Env, b: UserId)
    requires ConnOf(s, alice).binding.Some? && roomId in s.rooms
    requires b in s.rooms[roomId].members && !IsOnline(s.users, b) && Queue(s.notifications, b) == []
    ensures var sent := HandleSendMessage(s, alice, roomId, text, None, env);
      && Queue(sent.next.notifications, b) == [NewMessage(roomId, ConnOf(s, alice).binding.value.username, Preview(text), env.now)]
      && sent.next.sockets == s.sockets
  {
  }

  /**
   * An offline member of a room, with nothing queued, finds exactly the one
   * notification for a message sent there when it next fetches, and then
   * nothing more.
   */
  lemma OfflineMemberNotifiedOnce(s: State, alice: SocketId, bob: SocketId, roomId: RoomId, text: string, env: Env)
    requires ConnOf(s, alice).binding.Some? && roomId in s.rooms
    requires ConnOf(s, bob).binding.Some?
    requires var b := ConnOf(s, bob).binding.value.userId;
      b in s.rooms[roomId].members && !IsOnline(s.users, b) && Queue(s.notifications, b) == []
    ensures var sent := HandleSendMessage(s, alice, roomId, text, None, env);
      var fetched := HandleGetNotifications(sent.next, bob);
      var note := NewMessage(roomId, ConnOf(s, alice).binding.value.username, Preview(text), env.now);
      && fetched.emits == [Emit(Origin, NotificationList([note]))]
      && HandleGetNotifications(fetched.next, bob).emits == [Emit(Origin, NotificationList([]))]
  {
    var b := ConnOf(s, bob).binding.value.userId;
    OfflineMemberQueued(s, alice, roomId, text, env, b);
    var sent := HandleSendMessage(s, alice, roomId, text, None, env);
    assert ConnOf(sent.next, bob) == ConnOf(s, bob);
    NotificationsConsumedOnce(sent.next, bob);
  }

  /**
   * After joining a second room the user is no longer a member of the first.
   * (A socket never leaves the room named after its own id; socket ids are
   * never room names.)
   */
  lemma JoinLeavesPreviousRoom(s: State, sid: SocketId, room1: RoomId, room2: RoomId)
    requires ConnOf(s, sid).binding.Some?
    requires room1 in s.rooms && room2 in s.rooms && room1 != room2 && room1 != sid
    ensures var t1 := HandleJoinRoom(s, sid, room1);
      var t2 := HandleJoinRoom(t1.next, sid, room2);
      var uid := ConnOf(s, sid).binding.value.userId;
      && uid !in t2.next.rooms[room1].members
      && uid in t2.next.rooms[room2].members
  {
    var t1 := HandleJoinRoom(s, sid, room1);
    var c1 := ConnOf(t1.next, sid);
    assert room1 in c1.rooms && c1.binding == ConnOf(s, sid).binding;
    assert room1 in t1.next.rooms && room2 in t1.next.rooms;
    var t2 := HandleJoinRoom(t1.next, sid, room2);
  }

  /**
   * A conversation is one thread whoever writes: a message from a to b and
   * the reply from b to a are stored, in order, under the same key.
   */
  lemma ConversationSharedByBothSides(s: State, sa: SocketId, sb: SocketId, t1: string, t2: string, env1: Env, env2: Env)
    requires sa != sb
    requires ConnOf(s, sa).binding.Some? && ConnOf(s, sb).binding.Some?
    requires var a := ConnOf(s, sa).binding.value.userId; var b := ConnOf(s, sb).binding.value.userId;
      HasKey(s.users, a) && HasKey(s.users, b)
    ensures var a := ConnOf(s, sa).binding.value.userId;
      var b := ConnOf(s, sb).binding.value.userId;
      var first := HandleSendPrivate(s, sa, b, t1, None, env1);
      var second := HandleSendPrivate(first.next, sb, a, t2, None, env2);
      var key := ConversationKey(a, b);
      && |Thread(second.next.conversations, key)| == |Thread(s.conversations, key)| + 2
      && Thread(second.next.conversations, key)[..|Thread(s.conversations, key)|] == Thread(s.conversations, key)
      && Thread(second.next.conversations, key)[|Thread(s.conversations, key)|].text == t1
      && Thread(second.next.conversations, key)[|Thread(s.conversations, key)| + 1].text == t2
  {
    var a := ConnOf(s, sa).binding.value.userId;
    var b := ConnOf(s, sb).binding.value.userId;
    var first := HandleSendPrivate(s, sa, b, t1, None, env1);
    assert ConnOf(first.next, sb) == ConnOf(s, sb);
    assert first.next.users == s.users;
    ConversationKeySymmetric(a, b);
  }

  /** The typing list of an entry sequence extended by one entry. */
  lemma {:induction false} TypingNamesAppend(entries: JsMap<SocketId, TypingEntry>, e: Entry<SocketId, TypingEntry>, roomId: RoomId)
    ensures TypingNames(entries + [e], roomId) ==
      TypingNames(entries, roomId) + (if e.value.roomId == roomId then [e.value.username] else [])
  {
    if |entries| > 0 {
      assert (entries + [e])[1..] == entries[1..] + [e];
      TypingNamesAppend(entries[1..], e, roomId);
    } else {
      assert entries + [e] == [e];
    }
  }

  /** Starting to type on a socket with no entry appends that socket's entry. */
  lemma StartTypingAppends(s: State, sid: SocketId, roomId: RoomId)
    requires roomId in s.rooms && ConnOf(s, sid).binding.Some? && !HasKey(s.typing, sid)
    ensures var e := Entry(sid, TypingEntry(ConnOf(s, sid).binding.value.username, roomId));
      var t := HandleTyping(s, sid, roomId, true);
      && t.next.typing == s.typing + [e]
      && t.emits == [Emit(ToRoom(roomId), TypingUsers(TypingNames(s.typing, roomId) + [e.value.username]))]
      && t.next == s.(typing := t.next.typing)
  {
    var e := Entry(sid, TypingEntry(ConnOf(s, sid).binding.value.username, roomId));
    TypingNamesAppend(s.typing, e, roomId);
  }

  /**
   * The typing list is not de-duplicated: when two sockets of the same user
   * start typing in a room where nobody types, the room hears the name twice.
   */
  lemma TypingNamesKeepDuplicates(s: State, sa: SocketId, sb: SocketId, roomId: RoomId)
    requires sa != sb && roomId in s.rooms
    requires ConnOf(s, sa).binding.Some? && ConnOf(s, sb).binding == ConnOf(s, sa).binding
    requires !HasKey(s.typing, sa) && !HasKey(s.typing, sb)
    requires TypingNames(s.typing, roomId) == []
    ensures var first := HandleTyping(s, sa, roomId, true);
      var second := HandleTyping(first.next, sb, roomId, true);
      var name := ConnOf(s, sa).binding.value.username;
      second.emits == [Emit(ToRoom(roomId), TypingUsers([name, name]))]
  {
    var name := ConnOf(s, sa).binding.value.username;
    var e := Entry(sa, TypingEntry(name, roomId));
    StartTypingAppends(s, sa, roomId);
    var first := HandleTyping(s, sa, roomId, true);
    var s1 := first.next;
    assert s1.typing == s.typing + [e] && s1.sockets == s.sockets && s1.rooms == s.rooms;
    assert !HasKey(s1.typing, sb) by {
      AppendOtherKey(s.typing, e, sb);
    }
    assert ConnOf(s1, sb).binding == Some(Binding(ConnOf(s, sa).binding.value.userId, name));
    StartTypingAppends(s1, sb, roomId);
    assert TypingNames(s1.typing, roomId) == [name] by {
      TypingNamesAppend(s.typing, e, roomId);
    }
    var second := HandleTyping(s1, sb, roomId, true);
    assert second.emits == [Emit(ToRoom(roomId), TypingUsers([name] + [name]))];
    assert [name] + [name] == [name, name];
  }

  /**
   * A new connection goes last and is not logged in, so it never takes
   * private delivery away from an older socket of the recipient.
   */
  lemma ConnectKeepsFirstSocket(s: State, sid: SocketId, uid: UserId)
    requires !HasKey(s.sockets, sid)
    ensures FirstSocketOf(HandleConnect(s, sid).next.sockets, uid) == FirstSocketOf(s.sockets, uid)
  {
    FirstSocketAppendUnbound(s.sockets, Entry(sid, FreshConn), uid);
  }

  lemma {:induction false} FirstSocketAppendUnbound(sockets: JsMap<SocketId, Conn>, e: Entry<SocketId, Conn>, uid: UserId)
    requires !BoundTo(e.value, uid)
    ensures FirstSocketOf(sockets + [e], uid) == FirstSocketOf(sockets, uid)
  {
    if |sockets| == 0 {
      assert sockets + [e] == [e];
      assert [e][1..] == [];
    } else {
      assert (sockets + [e])[1..] == sockets[1..] + [e];
      FirstSocketAppendUnbound(sockets[1..], e, uid);
    }
  }

  /**
   * Presence is per user, not per socket: when one of two sockets of a user
   * disconnects, the user is marked offline although the other is still live.
   */
  lemma DisconnectIgnoresOtherSockets(s: State, sa: SocketId, sb: SocketId, now: Time)
    requires sa != sb && HasKey(s.sockets, sb)
    requires ConnOf(s, sa).binding.Some? && ConnOf(s, sb).binding == ConnOf(s, sa).binding
    requires HasKey(s.users, ConnOf(s, sa).binding.value.userId)
    ensures var t := HandleDisconnect(s, sa, now);
      var uid := ConnOf(s, sa).binding.value.userId;
      && ConnOf(t.next, sb).binding == Some(Binding(uid, ConnOf(s, sa).binding.value.username))
      && !IsOnline(t.next.users, uid)
      && Get(t.next.users, uid).value.status == "offline"
  {
  }

  /**
   * Registration does not check names, and login picks the first user of a
   * name: after two registrations of one name, logging in with it reaches
   * the first user, whatever password the second one chose.
   */
  lemma DuplicateNamesLoginFirst(s: State, s1: SocketId, s2: SocketId, s3: SocketId, name: string, p: string, env1: Env, env2: Env, env3: Env)
    requires FindByName(s.users, name).None?
    requires !HasKey(s.users, env1.freshId) && env2.freshId != env1.freshId && !HasKey(s.users, env2.freshId)
    ensures var r1 := Register(s, s1, name, env1);
      var r2 := Register(r1.next, s2, name, env2);
      var login := Login(r2.next, s3, name, p, env3);
      && Get(r2.next.users, env1.freshId).Some? && Get(r2.next.users, env2.freshId).Some?
      && (env3.verify(p, env1.hashed) ==> ConnOf(login.next, s3).binding == Some(Binding(env1.freshId, name)))
      && (!env3.verify(p, env1.hashed) ==> login.emits == [Emit(Origin, AuthError(InvalidCredentials))])
  {
    var r1 := Register(s, s1, name, env1);
    var r2 := Register(r1.next, s2, name, env2);
    TwoRegistrations(s, s1, s2, name, env1, env2);
    var i := |s.users|;
    assert r2.next.users[i].value == NewUser(name, env1);
    assert LoginAccepted(r2.next, name, p, env3) <==> env3.verify(p, env1.hashed);
  }

  /** Two registrations of a new name: the first of the two is the first user of that name. */
  lemma TwoRegistrations(s: State, s1: SocketId, s2: SocketId, name: string, env1: Env, env2: Env)
    requires FindByName(s.users, name).None?
    requires !HasKey(s.users, env1.freshId) && env2.freshId != env1.freshId && !HasKey(s.users, env2.freshId)
    ensures var r2 := Register(Register(s, s1, name, env1).next, s2, name, env2);
      && r2.next.users == s.users + [Entry(env1.freshId, NewUser(name, env1)), Entry(env2.freshId, NewUser(name, env2))]
      && FindByName(r2.next.users, name) == Some(|s.users|)
  {
    var e1 := Entry(env1.freshId, NewUser(name, env1));
    var r1 := Register(s, s1, name, env1);
    assert r1.next.users == s.users + [e1];
    AppendOtherKey(s.users, e1, env2.freshId);
    RegisterAfter(r1.next, s2, name, env2, s.users, e1);
    FindByNameAppend(s.users, [e1, Entry(env2.freshId, NewUser(name, env2))], name);
  }

  /** A registration under a fresh id appends its user after the ones already there. */
  lemma RegisterAfter(s: State, sid: SocketId, name: string, env: Env, before: JsMap<UserId, User>, e: Entry<UserId, User>)
    requires s.users == before + [e] && !HasKey(s.users, env.freshId)
    ensures Register(s, sid, name, env).next.users == before + [e, Entry(env.freshId, NewUser(name, env))]
  {
    assert (before + [e]) + [Entry(env.freshId, NewUser(name, env))] == before + [e, Entry(env.freshId, NewUser(name, env))];
  }

  lemma {:induction false} FindByNameAppend(users: JsMap<UserId, User>, more: JsMap<UserId, User>, name: string)
    requires FindByName(users, name).None?
    requires |more| > 0 && more[0].value.username == name
    ensures FindByName(users + more, name) == Some(|users|)
  {
    if |users| == 0 {
      assert users + more == more;
    } else {
      assert (users + more)[1..] == users[1..] + more;
      FindByNameAppend(users[1..], more, name);
    }
  }
}
