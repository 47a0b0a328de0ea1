# Chat relay: room registry and message handler

This project models the WebSocket chat relay's per-message handler. The
process keeps one registry that maps a room id to the set of connections in
that room. Each connection object carries a display name (`username`) and a
current room id (`roomId`). Every inbound message is one of three kinds:

- `create` registers a fresh room that holds only the sender.
- `join` validates the room id, then adds the sender to that room and
  announces the arrival to the other open members.
- `chat` relays a message to every open member of the sender's room, the
  sender included.

A bad request gets one error reply to the sender and changes nothing. An
undecodable payload gets a generic error. A request of any other type is
ignored.

Files and modules:

- `envelope.dfy` (`Envelope`): inbound requests and outbound envelopes. It
  holds the exact status and error strings, and JavaScript truthiness of
  optional string fields (absent or `""` is false).
- `registry.dfy` (`Registry`): the registry state and the invariant the
  handler keeps. It has `Set.add` over an insertion-ordered member set, and
  `Fanout`, the sends that one `forEach` broadcast makes.
- `handler.dfy` (`Handler`): the handler as a function
  `Handle(state, ws, inbound, newId)` that returns the new state and the
  ordered list of sends. Lemmas state each branch's behaviour and the
  registry invariant.
- `server.dfy` (`Server`): the class `RelayServer`. Its fields are the
  registry, the connection fields and the log of sends. Its methods update
  them in place, with a loop for each broadcast. `HandleMessage` is proved to
  do exactly what `Handle` describes, and the send log only ever grows at
  its end. So two messages handled one after the other reach every recipient
  in that order.
- `scenarios.dfy` (`Scenarios`): concrete runs. One connection creates a
  room, a second joins it, then the first chats; a separate run sends a
  `join` with an empty id.

Modelling choices:

- A connection is a natural-number id. Its record holds `username` and
  `roomId` (both optional), plus `open`, which stands for
  `readyState === WebSocket.OPEN`.
- A room's `Set` is a duplicate-free sequence in insertion order, because a
  JavaScript `Set` is iterated in that order. Broadcast order is therefore
  the order in which members joined.
- `ws.send(JSON.stringify(x))` appends `Delivery(ws, x)` to the send log.
  Replies to the sender are appended whatever its channel state is.
  Broadcasts skip members that are not open.
- The id that `uuidv4().split("-")[0]` would produce is the parameter
  `newId`. The handler does not check it for freshness, and neither does the
  model. `rooms.set` on a key that is already registered replaces that room
  (`Handler.CreateCollisionEvicts`). The invariant is preserved only when the
  id is fresh (`Handler.HandlePreservesValid`).
- `Malformed` covers every payload whose handling throws before any state
  changes. That is a `JSON.parse` failure, or the payload `null`, whose
  `res.type` throws. Both reach the `catch`.

Where the design document and the code disagree, the model follows the code:

- The code registers no `close` handler. It has no departure cleanup, no
  `userLeft` notification and no `leaveRoom`. A closed connection stays a
  member of its rooms and is merely skipped by broadcasts
  (`Server.RelayServer.TransportClosed`).
- `userJoined` carries only the joiner's name, not an `allUsers` list.
- `chat` takes the sender name from the request's `username`, not from the
  name stored on the connection. A `chat` without `username` therefore goes
  out with no sender (`Scenarios.CreateJoinChat`), whereas the design's
  scenario expects the stored name.
- `create` accepts a missing `username`, and `create` or `join` never leaves
  the previous room (`Handler.JoinKeepsPreviousMembership`).

## Model

| member | source | states |
|---|---|---|
| `Registry.Add` | src/index.ts:64 | `room.add(ws)`: the result's members are the old members plus `ws`, the old order is a prefix of the result, and a set without repeats stays without repeats |
| `Registry.FanoutReaches` | src/index.ts:74-83 | a `forEach` broadcast sends an envelope to a connection iff the envelope is the broadcast one, the connection is a member, its channel is open and it is not the excluded sender |
| `Registry.FanoutExactly` | src/index.ts:122-134 | the same characterisation, for every delivery at once |
| `Registry.FanoutOncePerMember` | src/index.ts:122-134 | over a member set without repeats, no connection receives one broadcast twice |
| `Registry.FanoutLength` | src/index.ts:74-83 | a broadcast makes at most one send per member, and exactly one per member when every member is eligible |
| `Handler.MalformedGetsGenericError` | src/index.ts:136-144 | an undecodable payload gets exactly one "Invalid JSON payload." error, to the sender, and no state changes |
| `Handler.UnknownKindIgnored` | src/index.ts:85-135 | a request whose type is not `create`, `join` or `chat` sends nothing and changes nothing |
| `Handler.CreateRegistersRoom` | src/index.ts:22-36 | `create` maps the new id to exactly the sender and leaves every other key as it was. It sets the sender's name from the request and its room to the new id, changes no other connection, and sends one `roomCreated` with that id, to the sender only |
| `Handler.JoinWithoutRoomId` | src/index.ts:38-48 | `join` with an absent or empty room id: one "No room Id Provided." error to the sender, state unchanged |
| `Handler.JoinUnknownRoom` | src/index.ts:50-60 | `join` naming an unregistered room: one "Invalid Room Id." error to the sender, state unchanged |
| `Handler.JoinAddsMember` | src/index.ts:62-83 | a successful `join` makes the room's members the old ones plus the sender, changes no other room, and sets the sender's name and room. It sends `roomJoined` to the sender first, then `userJoined` to exactly the other open members, each once and never to the sender |
| `Handler.JoinTwiceSameRegistry` | src/index.ts:62-64 | repeating the same `join` leaves the registry and the connection fields as the first one left them |
| `Handler.JoinKeepsPreviousMembership` | src/index.ts:62-64 | joining another room does not remove the sender from its previous room, while its room id now names the new one |
| `Handler.ChatOutsideRoom` | src/index.ts:87-97 | `chat` from a connection with no room id: one "You are not in a room." error to the sender, no broadcast, state unchanged |
| `Handler.ChatWithoutMessage` | src/index.ts:111-120 | `chat` with an absent or empty message: one "No message provided." error to the sender, no broadcast, state unchanged |
| `Handler.ChatReachesOpenMembers` | src/index.ts:122-134 | a successful `chat` changes no state. It sends `{message, sender: request username}` to exactly the open members of the sender's room, each once; the sender receives it iff its own channel is open |
| `Handler.ChatIsolation` | src/index.ts:100-134 | a `chat` never reaches a connection outside the sender's room |
| `Handler.ChatRoomAlwaysRegistered` | src/index.ts:100-110 | under the registry invariant the "Invalid Room Id." reply of `chat` is never sent |
| `Handler.HandleOnlyGrows` | src/index.ts:25-64 | the handler never deletes a room key or removes a member, except that `create` rewrites its generated key. It changes no connection other than the sender and no channel state |
| `Handler.HandlePreservesValid` | src/index.ts:25-64 | given a fresh generated id, every step keeps the registry invariant: member sets hold known connections without repeats, and a stored room id names a registered room that holds the connection |
| `Handler.ErrorsStayWithSender` | src/index.ts:19-146 | every error is the only send of its step, goes to the sender and comes with no state change. Every send to another connection is a `userJoined` or `chat` to a member of the sender's room |
| `Handler.CreateCollisionEvicts` | src/index.ts:24-25 | `create` with an id that is already registered drops that room's other members, whose stored room id still names it, so the invariant fails |
| `Scenarios.CreateJoinChat` | src/index.ts:22-134 | create, then join, then chat: exact sends. The join is announced to the creator only; the chat reaches both members in join order with the request's (absent) sender |
| `Scenarios.JoinEmptyIdFirst` | src/index.ts:38-48 | a first message `join` with `room_id: ""` gets one error and registers nothing |
| `Server.RelayServer.constructor` | src/index.ts:12 | the registry starts empty and satisfies the invariant |
| `Server.RelayServer.Accept` | src/index.ts:15-17 | a new connection has no name, no room and an open channel; the invariant is kept |
| `Server.RelayServer.TransportClosed` | src/index.ts:15-19 | closing a channel only clears its `open` flag: no room changes, nothing is sent, the invariant is kept |
| `Server.RelayServer.Send` | src/index.ts:36 | `ws.send` appends one delivery to the send log |
| `Server.RelayServer.Broadcast` | src/index.ts:122-134 | the loop appends exactly `Fanout` of the member list to the send log, in member order |
| `Server.RelayServer.CreateRoom` | src/index.ts:22-36 | the in-place `create` branch yields the state and sends of `Handler.Create` |
| `Server.RelayServer.JoinRoom` | src/index.ts:37-83 | the in-place `join` branch yields the state and sends of `Handler.Join` |
| `Server.RelayServer.RelayChat` | src/index.ts:85-134 | the in-place `chat` branch changes only the send log, as `Handler.Chat` says |
| `Server.RelayServer.HandleMessage` | src/index.ts:19-146 | the handler's new registry and connection fields are those of `Handler.Handle`, the send log grows by exactly its sends, and the invariant is kept given a fresh generated id |

## Left out

- HTTP server and WebSocket server setup, the port, and `console.log`/`console.error` logging: transport plumbing and logging with no effect on the registry.
- `JSON.parse` and `JSON.stringify`: requests arrive decoded as four optional string fields, and envelopes are sent as values. A request field holding a non-string JSON value (a number, an array, an object) is not modelled, so neither is the loose `==` coercion of `type`.
- `uuidv4`: the generated id is the parameter `newId`. The model does not restrict its format (eight hex digits).
- Exceptions thrown by `ws.send` itself, which would reach the `catch` after a partial update: the model treats a send as never throwing.
- `readyState` transitions: the transport changes them. `open` is part of the state, and `TransportClosed` is the only method that clears it.
- Connections are ids in a map rather than objects, so object aliasing is not modelled. Identity comparison (`client !== ws`) is id comparison.
