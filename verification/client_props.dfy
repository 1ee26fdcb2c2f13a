/**
 * The client's copy against the server's state. A client that holds the
 * same list as the server and receives the events a handler emits ends up
 * holding the server's new list again, with one exception: the client never
 * trims its message list, so it keeps a message the server's cap dropped.
 */
module ClientProps {
  import opened Optional
  import opened JsMaps
  import opened Text
  import opened ChatTypes
  import opened MessageLog
  import opened Server
  import opened Invariants
  import opened Client

  /** The client after receiving the payloads of `emits`, in order. */
  function Deliver(c: ClientState, emits: seq<Emit>): ClientState
    decreases |emits|
  {
    if |emits| == 0 then c else Deliver(Receive(c, emits[0].payload).next, emits[1..])
  }

  /** No two messages of the log share an id (ids are fresh uuids). */
  predicate DistinctIds(log: seq<Message>) {
    forall i, j :: 0 <= i < j < |log| ==> log[i].id != log[j].id
  }

  lemma DeliverOne(c: ClientState, e: Emit)
    ensures Deliver(c, [e]) == Receive(c, e.payload).next
  {
    assert [e][1..] == [];
  }

  /** The three events of a `join_room` set the messages, the members and the current room. */
  lemma DeliverJoin(c: ClientState, roomId: RoomId, msgs: seq<Message>, members: set<UserId>, room: Room)
    ensures var c' := Deliver(c, [
        Emit(Origin, RoomMessages(roomId, msgs)),
        Emit(ToRoom(roomId), RoomUsers(roomId, members)),
        Emit(Origin, RoomJoined(room))]);
      c'.messages == msgs && c'.roomUsers == members && c'.currentRoom == Some(room)
  {
    var e0 := Emit(Origin, RoomMessages(roomId, msgs));
    var e1 := Emit(ToRoom(roomId), RoomUsers(roomId, members));
    var e2 := Emit(Origin, RoomJoined(room));
    var c1 := Receive(c, e0.payload).next;
    var c2 := Receive(c1, e1.payload).next;
    DeliverOne(c2, e2);
    assert [e0, e1, e2][1..] == [e1, e2] && [e1, e2][1..] == [e2];
  }

  /**
   * Joining a room replaces the client's messages with the server's
   * snapshot, makes the room current with its members, and so addresses the
   * user's next message to that room.
   */
  lemma JoinInSync(s: State, sid: SocketId, roomId: RoomId, c: ClientState, text: string, kind: string)
    requires Valid(s)
    requires ConnOf(s, sid).binding.Some? && roomId in s.rooms
    ensures var t := HandleJoinRoom(s, sid, roomId);
      var c' := Deliver(c, t.emits);
      && c'.messages == Snapshot(s.rooms[roomId].messages)
      && c'.currentRoom == Some(t.next.rooms[roomId])
      && c'.roomUsers == t.next.rooms[roomId].members
      && Act(c', SendText(text, kind)) == [SendMessage(roomId, text, Some(kind))]
  {
    var t := HandleJoinRoom(s, sid, roomId);
    var room := t.next.rooms[roomId];
    DeliverJoin(c, roomId, Snapshot(s.rooms[roomId].messages), room.members, room);
    assert room.id == s.rooms[roomId].id == roomId;
  }

  /**
   * A new room message reaches a client holding the server's log as one
   * more entry at the end. Below the cap both lists agree again; at the cap
   * the server drops its oldest message and the client keeps it.
   */
  lemma ReceiveInSync(s: State, sid: SocketId, roomId: RoomId, text: string, kind: Option<string>, env: Env, c: ClientState)
    requires ConnOf(s, sid).binding.Some? && roomId in s.rooms
    requires c.messages == s.rooms[roomId].messages
    ensures var t := HandleSendMessage(s, sid, roomId, text, kind, env);
      var log := s.rooms[roomId].messages;
      var c' := Deliver(c, t.emits);
      && (|log| < MaxLog ==> c'.messages == t.next.rooms[roomId].messages)
      && (|log| >= MaxLog ==> c'.messages == [log[0]] + t.next.rooms[roomId].messages)
  {
    var t := HandleSendMessage(s, sid, roomId, text, kind, env);
    var log := s.rooms[roomId].messages;
    var b := ConnOf(s, sid).binding.value;
    var m := Message(env.freshId, roomId, b.username, b.userId, text, kind.GetOr("text"), env.now, {Some(b.userId)}, map[], None);
    assert t.next.rooms[roomId].messages == Push(log, m);
    assert t.emits == [Emit(ToRoom(roomId), ReceiveMessage(m))];
    DeliverOne(c, Emit(ToRoom(roomId), ReceiveMessage(m)));
    ClientAppendVersusPush(log, m);
  }

  /** The client's unbounded append against the server's capped push. */
  lemma ClientAppendVersusPush(log: seq<Message>, m: Message)
    ensures |log| < MaxLog ==> log + [m] == Push(log, m)
    ensures |log| >= MaxLog ==> log + [m] == [log[0]] + Push(log, m)
  {
    if |log| >= MaxLog {
      assert log + [m] == [log[0]] + (log[1..] + [m]);
    }
  }

  /**
   * A status change keeps the client's user list equal to the server's
   * list of users, in registration order, provided it was equal before.
   */
  lemma StatusInSync(s: State, sid: SocketId, status: string, c: ClientState)
    requires Valid(s)
    requires c.users == Values(s.users)
    ensures var t := HandleUpdateStatus(s, sid, status);
      Deliver(c, t.emits).users == Values(t.next.users)
  {
    var t := HandleUpdateStatus(s, sid, status);
    var b := ConnOf(s, sid).binding;
    if b.Some? && Get(s.users, b.value.userId).Some? {
      var uid := b.value.userId;
      var m := s.users;
      var i := IndexOf(m, uid).value;
      var u' := m[i].value.(status := status);
      var r := t.next.users;
      assert r == Set(m, uid, u');
      assert Deliver(c, t.emits) == Receive(c, t.emits[0].payload).next by {
        assert t.emits[1..] == [];
      }
      var c' := OnUserStatusUpdate(c, uid, status);
      assert Deliver(c, t.emits) == c';
      assert forall j :: 0 <= j < |m| ==> r[j].key == m[j].key;
      IndexOfSameKeys(r, m, uid);
      assert r[i] == Entry(uid, u');
      forall j | 0 <= j < |m|
        ensures c'.users[j] == r[j].value
      {
        assert c.users[j] == m[j].value && m[j].value.id == m[j].key;
        if m[j].key == uid {
          assert j == i;
        } else {
          assert r[j] == m[j];
        }
      }
    }
  }

  /**
   * A reaction keeps the client's message list equal to the room's log,
   * provided it was equal before and the log's ids are distinct: the
   * server updates the first message with the id, the client every one.
   */
  lemma ReactionInSync(s: State, sid: SocketId, messageId: MessageId, roomId: RoomId, reaction: string, c: ClientState)
    requires roomId in s.rooms && c.messages == s.rooms[roomId].messages
    requires DistinctIds(s.rooms[roomId].messages)
    ensures var t := HandleReaction(s, sid, messageId, roomId, reaction);
      Deliver(c, t.emits).messages == t.next.rooms[roomId].messages
  {
    var t := HandleReaction(s, sid, messageId, roomId, reaction);
    var log := s.rooms[roomId].messages;
    if FindMessage(log, messageId).Some? {
      var i := FindMessage(log, messageId).value;
      var log' := t.next.rooms[roomId].messages;
      var reactors := Reactors(log'[i], reaction);
      assert Deliver(c, t.emits) == Receive(c, t.emits[0].payload).next by {
        assert t.emits[1..] == [];
      }
      var c' := OnMessageReaction(c, messageId, reaction, reactors);
      assert Deliver(c, t.emits) == c';
      forall j | 0 <= j < |log|
        ensures c'.messages[j] == log'[j]
      {
        if j != i {
          assert log[j].id != messageId;
        }
      }
    }
  }

  /** Like `ReactionInSync`, for read receipts. */
  lemma MarkReadInSync(s: State, sid: SocketId, messageId: MessageId, roomId: RoomId, c: ClientState)
    requires roomId in s.rooms && c.messages == s.rooms[roomId].messages
    requires DistinctIds(s.rooms[roomId].messages)
    ensures var t := HandleMarkRead(s, sid, messageId, roomId);
      Deliver(c, t.emits).messages == t.next.rooms[roomId].messages
  {
    var t := HandleMarkRead(s, sid, messageId, roomId);
    var log := s.rooms[roomId].messages;
    if FindMessage(log, messageId).Some? {
      var i := FindMessage(log, messageId).value;
      var log' := t.next.rooms[roomId].messages;
      assert Deliver(c, t.emits) == Receive(c, t.emits[0].payload).next by {
        assert t.emits[1..] == [];
      }
      var c' := OnMessageRead(c, messageId, log'[i].readBy);
      assert Deliver(c, t.emits) == c';
      forall j | 0 <= j < |log|
        ensures c'.messages[j] == log'[j]
      {
        if j != i {
          assert log[j].id != messageId;
        }
      }
    }
  }

  /**
   * Both copies of a private message, the one delivered to the recipient
   * and the echo to the sender, extend a client's conversation exactly as
   * the server extends its own, so every client holding the server's
   * thread still holds it afterwards.
   */
  lemma PrivateInSync(s: State, sid: SocketId, toUserId: UserId, text: string, kind: Option<string>, env: Env, c: ClientState)
    requires ConnOf(s, sid).binding.Some? && HasKey(s.users, toUserId)
    requires var key := ConversationKey(ConnOf(s, sid).binding.value.userId, toUserId);
      Thread(c.privateMessages, key) == Thread(s.conversations, key)
    ensures var t := HandleSendPrivate(s, sid, toUserId, text, kind, env);
      var key := ConversationKey(ConnOf(s, sid).binding.value.userId, toUserId);
      forall j :: 0 <= j < |t.emits| ==>
        Thread(Receive(c, t.emits[j].payload).next.privateMessages, key) == Thread(t.next.conversations, key)
  {
    var t := HandleSendPrivate(s, sid, toUserId, text, kind, env);
    var b := ConnOf(s, sid).binding.value;
    var key := ConversationKey(b.userId, toUserId);
    var pm := PrivateMessage(env.freshId, b.username, b.userId, Get(s.users, toUserId).value.username, toUserId,
      text, kind.GetOr("text"), env.now, false);
    assert forall j :: 0 <= j < |t.emits| ==> t.emits[j].payload == DeliverPrivate(pm);
  }

  /** `disconnect` forgets everything but the error. */
  lemma DisconnectForgetsSession(c1: ClientState, c2: ClientState)
    ensures Disconnect(c1) == Disconnect(c2) <==> c1.error == c2.error
  {
  }

  /** `disconnect` already includes the socket's own drop event, so a later one changes nothing. */
  lemma DisconnectIncludesDrop(c: ClientState)
    ensures OnTransport(Disconnect(c), Dropped) == Disconnect(c)
    ensures Disconnect(OnTransport(c, Dropped)) == Disconnect(c)
  {
  }

  /**
   * The room-scoped actions follow the client's current room: after
   * `room_joined` each sends one event for that room, and after
   * `disconnect` none sends anything.
   */
  lemma ActFollowsCurrentRoom(c: ClientState, room: Room, a: Action)
    requires a.RoomScoped()
    ensures var r := Act(Receive(c, RoomJoined(room)).next, a);
      && |r| == 1
      && (r[0].SendMessage? || r[0].Typing? || r[0].MessageReaction? || r[0].MarkRead? || r[0].FileUpload?)
      && r[0].roomId == room.id
    ensures Act(Disconnect(c), a) == []
  {
  }

  /**
   * After a successful registration, the client answers `auth_success` by
   * asking to join general; the server, handling that request on the same
   * socket, sends the client into general with the user a member.
   */
  lemma RegisterThenJoinGeneral(s: State, sid: SocketId, username: string, env: Env, env2: Env, c: ClientState)
    requires Valid(s)
    ensures var t := Register(s, sid, username, env);
      var reply := Receive(c, t.emits[0].payload);
      var t2 := Handle(t.next, sid, reply.sends[0], env2);
      && reply.sends == [JoinRoom(General)]
      && reply.next.currentUser == Some(NewUser(username, env))
      && env.freshId in t2.next.rooms[General].members
      && t2.emits[2] == Emit(Origin, RoomJoined(t2.next.rooms[General]))
  {
    assert General in s.rooms;
    var t := Register(s, sid, username, env);
    assert ConnOf(t.next, sid).binding == Some(Binding(env.freshId, username));
    assert General in t.next.rooms;
  }
}
