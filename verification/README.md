# Real-time chat core, modelled in Dafny

This project models the in-memory coordination engine of a Socket.IO chat
server and the event reducers of its browser client.

**Server side.** The server keeps:
- a directory of users;
- three fixed rooms, each with a membership set and a message log capped at 100 entries;
- a typing tracker;
- the private conversations;
- a queue of notifications per offline user.

Every socket event is one pure function, `Handle(state, socket, event, env)`. It returns the next state and the ordered list of events emitted, each addressed to:
- the originating socket;
- a room;
- every socket;
- one particular socket.

Library calls become fields of `Env`: `uuidv4`, `new Date()`, `jwt.sign`, `bcrypt.hash` and `bcrypt.compare`.

**Client side.** The client keeps the current room's messages, the user list, the typing list, the current room, the notifications and the private conversations. It updates them with one reducer per server event. Its room-scoped actions send nothing while no room is current.

**Modules:**
- `Optional`: the option type.
- `Numbers`: the integer minimum used by the log and the preview.
- `JsMaps`: JavaScript's insertion-ordered `Map`. The order is observable here:
  - login picks the first user of a name;
  - a private message goes to the first socket of its recipient;
  - the user list and the typing list come out in insertion order.
- `Text`: JavaScript's default string order, the private conversation key, and the 50-character preview.
- `ChatTypes`: the entities, the inbound and outbound events, and the start-up state.
- `MessageLog`: a room's capped log, the join snapshot, reactions and read receipts.
- `Server`: one handler per socket event, plus connect and disconnect.
- `Invariants`: what every reachable state satisfies, preserved by every step.
- `ServerProps`: properties relating several handler calls.
- `Client`: the client's state, its reducers, its `disconnect` reset and its actions.
- `ClientProps`: the client's copy measured against the server's state, event by event.

**Behaviour of the code that the model keeps as it is:**
- **Presence is per user, not per socket.** `disconnect` marks the user offline even while another of the user's sockets stays logged in (`ServerProps.DisconnectIgnoresOtherSockets`).
- **Leaving a room is silent.** `join_room` sends `room_users` only to the room joined; the rooms the socket left hear nothing.
- **The preview ends in three full stops.** A text longer than 50 characters becomes its first 50 characters followed by "...".
- **Status is free text.** `update_status` stores whatever string the client sends.
- **The client's `disconnect` keeps the error.** It closes the socket, whose `disconnect` listener (client/src/socket/socket.js:123-125) clears the connection flag during the call, and then empties every other field except `error`.

## Model

| member | source | states |
|---|---|---|
| JsMaps.Get | server/server.js:244 | a lookup finds a value exactly when the key is present, and it is the value of the first entry with that key |
| JsMaps.Set | server/server.js:303-306 | the key maps to the new value afterwards and every other key keeps its value; a present key is replaced in place and a new key is appended at the end; keys stay distinct |
| JsMaps.SetTwice | server/server.js:109-111 | setting a key twice equals setting it once to the second value, so the entry keeps the place the first set gave it |
| JsMaps.Delete | server/server.js:308 | the key is absent afterwards and every other key keeps its value; the remaining entries are exactly the others, in their old order; deleting an absent key changes nothing; keys stay distinct |
| Text.ConversationKey | server/server.js:265 | the key is the smaller id (in JavaScript's default sort order), a hyphen, then the larger id |
| Text.ConversationKeySymmetric | server/server.js:265 | both participants of a conversation compute the same key whichever of them sends |
| Text.Preview | server/server.js:231 | texts of at most 50 characters are kept whole; longer ones become their first 50 characters plus "...", so a preview has at most 53 characters |
| MessageLog.Push | server/server.js:213-218 | a log within the cap stays within it; the new message is last; below the cap nothing is dropped; at the cap exactly the oldest entry is dropped |
| MessageLog.PushAllKeepsNewest | server/server.js:213-218 | after any run of sends, the log is exactly the newest min(n, 100) of the old entries followed by the sent messages, in send order |
| MessageLog.NewestAfterPush | server/server.js:213-218 | one push leaves the newest 100 entries of the whole run unchanged |
| MessageLog.PushAllFromEmpty | server/server.js:213-218 | starting empty, the log holds the last min(N, 100) of N sent messages, in order |
| MessageLog.Snapshot | server/server.js:175-178 | the requester receives the newest min(n, 50) messages, as a suffix of the log |
| MessageLog.FindMessage | server/server.js:326-327 | the result is the first position with that id; none is found exactly when no message has that id |
| MessageLog.AddReaction | server/server.js:329-333 | the reaction's set gains the reactor and is created if missing; other reactions and all other fields are unchanged |
| MessageLog.AddReader | server/server.js:352 | the reader set gains the reader; all other fields are unchanged |
| MessageLog.AddReactionIdempotent | server/server.js:329-333 | reacting twice with the same reaction and reactor equals reacting once |
| MessageLog.AddReaderIdempotent | server/server.js:352 | marking read twice by the same reader equals marking once |
| MessageLog.FindMessageAfterUpdate | server/server.js:326-333 | updating a message in place keeps its id, so the same message is found again |
| Server.FindByName | server/server.js:116 | login resolves a name to the first user with that name in registration order, or to none when no user has it |
| Server.FirstSocketOf | server/server.js:272-273 | the chosen socket is logged in as the recipient and no earlier socket in connection order is; none is chosen exactly when no live socket is |
| Server.JoinGeneral | server/server.js:135-149 | the socket joins general and the user becomes a member; then everybody gets the user list and general's members; the socket list changes only in that socket's entry, which keeps its place (or goes last when new); if general were missing, one "Authentication failed" error follows the earlier emits and the earlier changes stay |
| Server.Bind | server/server.js:109-111 | the socket is bound to the user and recorded in the session map; the socket list changes only in that socket's entry, which keeps its place in connection order |
| Server.Register | server/server.js:93-113 | a new online user is stored under the fresh id even when the name is taken; the socket is bound to that user and its rooms gain exactly general; the socket list changes only in that socket's entry, which keeps its place, and keys stay distinct; `auth_success` comes first |
| Server.Login | server/server.js:114-133 | with no first user of that name, or a password that does not verify, the answer is one "Invalid credentials" error and nothing changes; otherwise only that user's presence fields change, the socket is bound and its rooms gain exactly general, and the socket list changes only in that socket's entry, which keeps its place; keys stay distinct |
| Server.Admit | server/server.js:123-133 | an accepted login: the user's entry alone goes online in place, the socket is bound and joins general, and `auth_success` comes first |
| Server.WithoutMember | server/server.js:163-168 | every room in the left set loses exactly the user and keeps its other members and fields; every other room is unchanged |
| Server.HandleJoinRoom | server/server.js:153-187 | an unbound socket is ignored and an unknown room gets one error; otherwise the user is in the new room, and each room the socket left has lost exactly the user; the socket's rooms become the new room plus those it did not leave; the requester gets the 50-message snapshot and the room, and the room gets its members; the socket list changes only in that socket's entry, which keeps its place, and keys stay distinct; every other part of the state is unchanged |
| Server.Publish | server/server.js:213-218 | only the target room's log changes, by one capped push |
| Server.HandleSendMessage | server/server.js:190-237 | the guard and the unknown room as above; otherwise the room's log becomes the capped push of a fresh message carrying the text, read by its sender only, which is broadcast to the room; every missing or offline member's queue gains exactly one preview note and no other queue changes |
| Server.HandleFileUpload | server/server.js:361-394 | the room's log becomes the capped push of a fresh message with the file name as text, kind "file" and the attachment, broadcast to the room; no notification is queued |
| Server.HandleSendPrivate | server/server.js:240-291 | an unknown recipient gets one error; otherwise the message is appended to the conversation under the symmetric key; it goes to the recipient's first logged-in socket in connection order when there is one, and otherwise queues one note; the sender always gets the echo last |
| Server.TypingNames | server/server.js:312-314 | a name is listed exactly when some entry for that room carries it; the list is no longer than the tracker |
| Server.HandleTyping | server/server.js:294-317 | only this socket's entry is set or removed: a socket new to the tracker goes last, a known one keeps its place, and stopping keeps the others in order; keys stay distinct; the room gets the full list of who is typing there |
| Server.HandleReaction | server/server.js:320-340 | with no login check: an unknown room or message changes nothing and emits nothing; otherwise only the first message with that id changes, only in that reaction's set, and the room gets that set |
| Server.HandleMarkRead | server/server.js:343-358 | like a reaction, on the reader set |
| Server.HandleUpdateStatus | server/server.js:397-405 | only the user's status changes, presence is untouched, and everybody is told; unknown users are ignored |
| Server.HandleGetNotifications | server/server.js:408-414 | the requester gets the whole queue and the queue is deleted; other queues are unchanged |
| Server.HandleConnect | server/server.js:85-86 | a new socket is registered with no user and no rooms, last in connection order; other sockets are untouched |
| ServerProps.ConnectKeepsFirstSocket | server/server.js:272-273 | a new connection never changes which socket a private message to a user reaches |
| ServerProps.FirstSocketAppendUnbound | server/server.js:272-273 | a socket appended without the user's login does not change the user's first socket |
| Server.RemoveEverywhere | server/server.js:430-432 | every room loses exactly the user and keeps its other members and fields |
| Server.HandleDisconnect | server/server.js:417-441 | the socket is gone and the others keep their connection order; if it was logged in, the user is marked offline with the broadcast list keeping every user in place, its typing entry and session are removed, it leaves every room, and everybody gets the new user list |
| Server.MarkedOffline | server/server.js:419-424 | only that user's entry changes, to offline with the new last-seen time; an unknown user changes nothing; every entry keeps its place |
| Invariants.InitValid | server/server.js:41-63 | the start-up state has the three catalogue rooms, empty and well formed |
| Invariants.PushValid | server/server.js:201-218 | pushing a message of the room, read by its sender, keeps the log within the cap and well filed |
| Invariants.RegisterValid | server/server.js:93-113 | registration keeps the state valid |
| Invariants.LoginValid | server/server.js:114-133 | login keeps the state valid |
| Invariants.JoinRoomValid | server/server.js:153-187 | joining a room keeps the state valid |
| Invariants.SendMessageValid | server/server.js:190-237 | sending a room message keeps the state valid |
| Invariants.FileUploadValid | server/server.js:361-394 | uploading a file keeps the state valid |
| Invariants.ReactionValid | server/server.js:320-340 | reacting keeps the state valid |
| Invariants.MarkReadValid | server/server.js:343-358 | marking read keeps the state valid |
| Invariants.UpdateStatusValid | server/server.js:397-405 | a status update keeps every user stored under its own id |
| Invariants.DisconnectValid | server/server.js:417-441 | a disconnect keeps the state valid |
| Invariants.StepValid | server/server.js:89-441 | every connect, event and disconnect keeps the fixed catalogue, the capped and well-filed logs, distinct keys and users stored under their ids |
| Invariants.UserJoinOutcome | server/server.js:89-150 | in a valid state, `user_join` either answers "Invalid credentials" alone, or `auth_success` followed by the user list and general's members; the "Authentication failed" path cannot be reached |
| ServerProps.UnboundSocketIgnored | server/server.js:154 | every guarded event from a socket that has not logged in changes nothing and emits nothing |
| ServerProps.UnknownRoomRejected | server/server.js:156-160 | joining, sending to or uploading to an unknown room answers one "Room not found" and changes nothing |
| ServerProps.UnknownRecipientRejected | server/server.js:244-249 | a private message to an unknown user answers one "User not found" and stores nothing |
| ServerProps.UnknownMessageIgnored | server/server.js:322-327 | a reaction or receipt for an unknown room or message is silently ignored, logged in or not |
| ServerProps.ReactionIdempotent | server/server.js:320-340 | reacting twice gives the same state and the same broadcast as reacting once |
| ServerProps.MarkReadIdempotent | server/server.js:343-358 | marking read twice gives the same state and the same broadcast as once |
| ServerProps.NotificationsConsumedOnce | server/server.js:408-414 | a fetch hands over the queue and an immediate second fetch hands over nothing |
| ServerProps.OfflineMemberQueued | server/server.js:224-236 | an offline member with an empty queue has exactly the one preview note after a room message |
| ServerProps.OfflineMemberNotifiedOnce | server/server.js:224-236 | an offline member receives that one note on its next fetch, and nothing on the fetch after |
| ServerProps.JoinLeavesPreviousRoom | server/server.js:163-172 | after joining a second room the user is no longer a member of the first |
| ServerProps.ConversationSharedByBothSides | server/server.js:265-269 | a message and its reply extend one thread, in order |
| ServerProps.TypingNamesAppend | server/server.js:312-314 | the typing list of a tracker with one more entry is the old list plus that entry's name when it is for the room |
| ServerProps.StartTypingAppends | server/server.js:302-316 | a socket with no entry that starts typing is appended to the tracker, and its name ends the broadcast list |
| ServerProps.TypingNamesKeepDuplicates | server/server.js:302-316 | two sockets of one user that start typing make the room hear the name twice |
| ServerProps.DisconnectIgnoresOtherSockets | server/server.js:418-424 | a user is marked offline when one socket disconnects, although another socket of that user stays logged in |
| ServerProps.DuplicateNamesLoginFirst | server/server.js:93-121 | two registrations of one name both succeed, and logging in with that name reaches the first user |
| ServerProps.TwoRegistrations | server/server.js:93-116 | two registrations of a new name append both users, and the name resolves to the first |
| ServerProps.RegisterAfter | server/server.js:99-107 | a registration under a fresh id appends its user after those already stored |
| ServerProps.FindByNameAppend | server/server.js:116 | when no stored user has the name and the first appended user has it, the name resolves to that appended user |
| Client.OnReceiveMessage | client/src/socket/socket.js:145-147 | the message is appended at the end and nothing else changes |
| Client.OnPrivateMessage | client/src/socket/socket.js:149-155 | the message is appended to the list under the sorted key of its two ids; every other list is unchanged |
| Client.OnRoomMessages | client/src/socket/socket.js:157-159 | the message list is replaced, and a missing list empties it |
| Client.OnUserStatusUpdate | client/src/socket/socket.js:174-182 | the user list keeps its length and order, and only the status of users with that id changes |
| Client.OnMessageReaction | client/src/socket/socket.js:190-198 | messages with that id get the server's set for that one reaction; other reactions, other fields and other messages are unchanged |
| Client.OnMessageRead | client/src/socket/socket.js:201-209 | messages with that id get the server's reader set; everything else is unchanged |
| Client.Receive | client/src/socket/socket.js:133-219 | `auth_success` records the user, clears the error, changes nothing else and asks to join general; each list event replaces exactly its own field; errors set the error text; the other events go through their reducer; no listener touches the connection flag or sends anything else |
| Client.OnTransport | client/src/socket/socket.js:118-130 | connecting sets the flag and clears the error, a drop clears the flag, a failed connection records "Connection failed" |
| Client.Disconnect | client/src/socket/socket.js:41-52 | every field except the error is emptied, and the connection flag is clear |
| Client.Act | client/src/socket/socket.js:55-113 | a room-scoped action sends nothing without a current room; otherwise each action sends exactly its one event, with the current room's id where the event names a room |
| ClientProps.ActFollowsCurrentRoom | client/src/socket/socket.js:55-113 | after `room_joined` every room-scoped action sends one event for that room; after `disconnect` none sends anything |
| ClientProps.DeliverJoin | client/src/socket/socket.js:157-172 | the three events of a join set the messages, the members and the current room |
| ClientProps.JoinInSync | client/src/socket/socket.js:157-172 | after a join the client holds the server's snapshot, the room and its members, and its next message goes to that room |
| ClientProps.ReceiveInSync | client/src/socket/socket.js:145-147 | a client holding the room's log holds it again after a send below the cap; at the cap the client keeps the message the server dropped |
| ClientProps.ClientAppendVersusPush | server/server.js:213-218 | the client's unbounded append equals the server's push below the cap, and is the push preceded by the dropped entry at the cap |
| ClientProps.StatusInSync | client/src/socket/socket.js:174-182 | in a valid server state, a client holding the server's user list holds it again after a status update |
| ClientProps.ReactionInSync | client/src/socket/socket.js:190-198 | a client holding the room's log, whose ids are distinct, holds it again after a reaction |
| ClientProps.MarkReadInSync | client/src/socket/socket.js:201-209 | the same for read receipts |
| ClientProps.PrivateInSync | client/src/socket/socket.js:149-155 | both the delivered copy and the sender's echo extend a client's thread exactly as the server extends its own |
| ClientProps.DisconnectForgetsSession | client/src/socket/socket.js:41-52 | after `disconnect` two clients are indistinguishable exactly when they had the same error |
| ClientProps.DisconnectIncludesDrop | client/src/socket/socket.js:41-52 | the drop event of the closed socket changes nothing after `disconnect`, and a drop before it makes no difference |
| ClientProps.RegisterThenJoinGeneral | client/src/socket/socket.js:133-138 | a registered client answers `auth_success` by joining general, and the server then confirms the user as a member of general |

## Left out

- Server.HandleUserJoin: carries no contract of its own; it only dispatches to `Register` and `Login`, whose contracts hold the properties.
- `user_join` is atomic here. In the server it awaits `bcrypt.hash` or `bcrypt.compare` (server/server.js:95, 118), and other events of the same socket, `disconnect` among them, can run in between. A socket that disconnects during that wait is bound afterwards anyway, leaving its user online with a stale session and a general-room membership. The model runs `user_join` in one step, and `Step` drops events of a socket that is gone.
- Fresh ids are assumed non-empty. The server's guards test `socket.userId` for truthiness, so an empty id would be refused; `uuidv4` never yields one, and `Env.freshId` is left unconstrained.
- Hashing, token signing, uuid generation and the clock: these are the fields of `Env`. A hash that throws, which makes `user_join` answer "Authentication failed", is not modelled.
- Timestamps are natural numbers; the ISO text form of `toISOString` is not modelled. Each handler reads the clock once, although the source calls `new Date()` separately for the message and for each notification.
- The `authenticateToken` middleware is never installed, so it is dead code.
- The HTTP routes, static serving and server start-up are not modelled.
- The transport is not modelled: rooms and sockets of Socket.IO, reconnection, and delivery to the addressees of an emit. The emits list states the addressees; no lemma delivers to sockets.
- Wire encoding is not modelled. Socket.IO sends JSON, which turns a JavaScript `Set` or `Map` (`readBy`, `reactions`) into an empty object. The model passes these values as sets and maps, and the client lemmas assume they arrive intact.
- Characters are Dafny `char`s. JavaScript compares and slices strings by UTF-16 code units, which agrees with code-point order only outside surrogate pairs.
- `message.substring` on a non-string payload, and any other malformed payload, would throw. The model types the payloads.
- The client's React hooks, the `/api/rooms` fetch, `FileReader` and the socket options are not modelled. An upload is modelled as already read.
- The UI component files (rendering, toasts, date and file-size formatting) are not modelled.
