/** The per-message handler, as a function from the registry state, the
    sending connection, the inbound message and the id the room-id generator
    would produce, to the new state and the sends made, in order. */
module Handler {
  import opened Envelope
  import opened Registry

  datatype Outcome = Outcome(state: State, sent: seq<Delivery>)

  /** A validation or decode failure: one reply to the sender, no state change. */
  function Reply(s: State, ws: ConnId, r: Response): Outcome
  {
    Outcome(s, [Delivery(ws, r)])
  }

  /** `create`: register `newId` as a room holding only the sender (overwriting
      whatever that key held), store name and room on the sender, acknowledge. */
  function Create(s: State, ws: ConnId, req: Request, newId: string): Outcome
    requires ws in s.conns
  {
    var conns := s.conns[ws := s.conns[ws].(username := req.username, roomId := Some(newId))];
    Outcome(State(s.rooms[newId := [ws]], conns), [Delivery(ws, RoomCreated(newId))])
  }

  /** `join`: validate the room id, then store name and room on the sender,
      add it to the room, acknowledge, and tell the other open members. */
  function Join(s: State, ws: ConnId, req: Request): Outcome
    requires ws in s.conns
  {
    if !Truthy(req.roomId) then Reply(s, ws, NoRoomIdProvided)
    else if req.roomId.value !in s.rooms then Reply(s, ws, InvalidRoomId)
    else
      var id := req.roomId.value;
      var conns := s.conns[ws := s.conns[ws].(username := req.username, roomId := Some(id))];
      var members := Add(s.rooms[id], ws);
      Outcome(State(s.rooms[id := members], conns),
              [Delivery(ws, RoomJoined(id))] + Fanout(conns, members, Some(ws), UserJoined(req.username)))
  }

  /** `chat`: the sender must have a registered room and the message must be
      non-empty; then every open member, sender included, gets the message
      with the sender name taken from the request. */
  function Chat(s: State, ws: ConnId, req: Request): Outcome
    requires ws in s.conns
  {
    var rid := s.conns[ws].roomId;
    if !Truthy(rid) then Reply(s, ws, NotInRoom)
    else if rid.value !in s.rooms then Reply(s, ws, InvalidRoomId)
    else if !Truthy(req.message) then Reply(s, ws, NoMessageProvided)
    else Outcome(s, Fanout(s.conns, s.rooms[rid.value], None, ChatMessage(req.message.value, req.username)))
  }

  /** The `message` handler: dispatch on the request type; an unknown type
      falls through every branch and does nothing. */
  function Handle(s: State, ws: ConnId, input: Inbound, newId: string): Outcome
    requires ws in s.conns
  {
    match input
    case Malformed => Reply(s, ws, InvalidJsonPayload)
    case Decoded(req) =>
      if req.kind == Some("create") then Create(s, ws, req, newId)
      else if req.kind == Some("join") then Join(s, ws, req)
      else if req.kind == Some("chat") then Chat(s, ws, req)
      else Outcome(s, [])
  }

  // ---------------------------------------------------------------------
  // Per-branch behaviour

  /** An undecodable payload gets the generic error and changes nothing. */
  lemma MalformedGetsGenericError(s: State, ws: ConnId, newId: string)
    requires ws in s.conns
    ensures Handle(s, ws, Malformed, newId).state == s
    ensures Handle(s, ws, Malformed, newId).sent == [Delivery(ws, InvalidJsonPayload)]
  {
  }

  /** A request of any other type sends nothing and changes nothing. */
  lemma UnknownKindIgnored(s: State, ws: ConnId, req: Request, newId: string)
    requires ws in s.conns
    requires req.kind !in {Some("create"), Some("join"), Some("chat")}
    ensures Handle(s, ws, Decoded(req), newId) == Outcome(s, [])
  {
  }

  /** `create` maps `newId` to exactly the sender, stores the request's name
      and the new room on the sender, leaves every other key and connection
      as it was, and acknowledges to the sender alone. */
  lemma CreateRegistersRoom(s: State, ws: ConnId, req: Request, newId: string)
    requires ws in s.conns && req.kind == Some("create")
    ensures var r := Handle(s, ws, Decoded(req), newId);
      && r.state.rooms.Keys == s.rooms.Keys + {newId}
      && r.state.rooms[newId] == [ws]
      && (forall k :: k in s.rooms && k != newId ==> r.state.rooms[k] == s.rooms[k])
      && r.state.conns.Keys == s.conns.Keys
      && r.state.conns[ws] == Conn(req.username, Some(newId), s.conns[ws].open)
      && (forall c :: c in s.conns && c != ws ==> r.state.conns[c] == s.conns[c])
      && r.sent == [Delivery(ws, RoomCreated(newId))]
  {
  }

  /** `join` without a room id: one error to the sender, nothing changes. */
  lemma JoinWithoutRoomId(s: State, ws: ConnId, req: Request, newId: string)
    requires ws in s.conns && req.kind == Some("join") && !Truthy(req.roomId)
    ensures Handle(s, ws, Decoded(req), newId) == Outcome(s, [Delivery(ws, NoRoomIdProvided)])
  {
  }

  /** `join` naming an unregistered room: one error to the sender, nothing changes. */
  lemma JoinUnknownRoom(s: State, ws: ConnId, req: Request, newId: string)
    requires ws in s.conns && req.kind == Some("join") && Truthy(req.roomId)
    requires req.roomId.value !in s.rooms
    ensures Handle(s, ws, Decoded(req), newId) == Outcome(s, [Delivery(ws, InvalidRoomId)])
  {
  }

  /** A successful `join`: the sender is added to that room and no other
      room changes; the sender's name and room are those of the request; the
      sender gets `roomJoined`, and `userJoined` goes to exactly the other
      open members, once each, never to the sender. */
  lemma JoinAddsMember(s: State, ws: ConnId, req: Request, newId: string)
    requires Valid(s) && ws in s.conns && req.kind == Some("join")
    requires Truthy(req.roomId) && req.roomId.value in s.rooms
    ensures var id := req.roomId.value;
      var r := Handle(s, ws, Decoded(req), newId);
      && r.state.rooms.Keys == s.rooms.Keys
      && (forall c :: c in r.state.rooms[id] <==> c in s.rooms[id] || c == ws)
      && (forall k :: k in s.rooms && k != id ==> r.state.rooms[k] == s.rooms[k])
      && r.state.conns[ws] == Conn(req.username, Some(id), s.conns[ws].open)
      && (forall c :: c in s.conns && c != ws ==> r.state.conns[c] == s.conns[c])
      && |r.sent| >= 1 && r.sent[0] == Delivery(ws, RoomJoined(id))
      && (forall c, m :: Delivery(c, m) in r.sent[1..] <==>
            m == UserJoined(req.username) && c in s.rooms[id] && c != ws && s.conns[c].open)
      && (forall i, j :: 0 <= i < j < |r.sent| ==> r.sent[i].to != r.sent[j].to)
  {
    var id := req.roomId.value;
    var r := Handle(s, ws, Decoded(req), newId);
    var members := Add(s.rooms[id], ws);
    var conns := r.state.conns;
    var m := UserJoined(req.username);
    assert r.sent[1..] == Fanout(conns, members, Some(ws), m);
    FanoutExactly(conns, members, Some(ws), m);
    FanoutOncePerMember(conns, members, Some(ws), m);
    forall i | 1 <= i < |r.sent| ensures r.sent[i].to != ws {
      assert r.sent[i] in r.sent[1..];
    }
  }

  /** Re-joining the room the sender already belongs to leaves the registry as
      the first join left it: `Set.add` of a member is a no-op. */
  lemma JoinTwiceSameRegistry(s: State, ws: ConnId, req: Request, newId: string, newId': string)
    requires ws in s.conns && req.kind == Some("join") && Truthy(req.roomId)
    ensures var once := Handle(s, ws, Decoded(req), newId).state;
      Handle(once, ws, Decoded(req), newId').state == once
  {
  }

  /** Joining a second room does not leave the first: the sender stays a
      member of its previous room while its room id names the new one. */
  lemma JoinKeepsPreviousMembership(s: State, ws: ConnId, req: Request, newId: string, previous: string)
    requires ws in s.conns && req.kind == Some("join") && Truthy(req.roomId)
    requires req.roomId.value in s.rooms && previous in s.rooms && ws in s.rooms[previous]
    ensures var r := Handle(s, ws, Decoded(req), newId);
      ws in r.state.rooms[previous] && r.state.conns[ws].roomId == req.roomId
  {
  }

  /** `chat` from a connection with no room: one error to the sender, nothing else. */
  lemma ChatOutsideRoom(s: State, ws: ConnId, req: Request, newId: string)
    requires ws in s.conns && req.kind == Some("chat") && !Truthy(s.conns[ws].roomId)
    ensures Handle(s, ws, Decoded(req), newId) == Outcome(s, [Delivery(ws, NotInRoom)])
  {
  }

  /** `chat` without a message body: one error to the sender, no broadcast. */
  lemma ChatWithoutMessage(s: State, ws: ConnId, req: Request, newId: string)
    requires Valid(s) && ws in s.conns && req.kind == Some("chat")
    requires Truthy(s.conns[ws].roomId) && !Truthy(req.message)
    ensures Handle(s, ws, Decoded(req), newId) == Outcome(s, [Delivery(ws, NoMessageProvided)])
  {
  }

  /** A successful `chat` changes no state and sends the message, with the
      request's sender name, to exactly the open members of the sender's room
      (the sender included when open), once each; no connection outside that
      room hears it. */
  lemma ChatReachesOpenMembers(s: State, ws: ConnId, req: Request, newId: string)
    requires Valid(s) && ws in s.conns && req.kind == Some("chat")
    requires Truthy(s.conns[ws].roomId) && Truthy(req.message)
    ensures var id := s.conns[ws].roomId.value;
      var r := Handle(s, ws, Decoded(req), newId);
      && r.state == s
      && (forall c, m :: Delivery(c, m) in r.sent <==>
            m == ChatMessage(req.message.value, req.username) && c in s.rooms[id] && s.conns[c].open)
      && (forall i, j :: 0 <= i < j < |r.sent| ==> r.sent[i].to != r.sent[j].to)
      && (s.conns[ws].open <==> Delivery(ws, ChatMessage(req.message.value, req.username)) in r.sent)
  {
    var id := s.conns[ws].roomId.value;
    var m := ChatMessage(req.message.value, req.username);
    FanoutExactly(s.conns, s.rooms[id], None, m);
    FanoutOncePerMember(s.conns, s.rooms[id], None, m);
  }

  /** Room isolation: a chat never reaches a connection outside the sender's room. */
  lemma ChatIsolation(s: State, ws: ConnId, req: Request, newId: string, other: ConnId)
    requires Valid(s) && ws in s.conns && req.kind == Some("chat")
    requires Truthy(s.conns[ws].roomId)
    requires other !in s.rooms[s.conns[ws].roomId.value]
    ensures forall d :: d in Handle(s, ws, Decoded(req), newId).sent ==> d.to != other
  {
    var id := s.conns[ws].roomId.value;
    if Truthy(req.message) {
      FanoutExactly(s.conns, s.rooms[id], None, ChatMessage(req.message.value, req.username));
    } else {
      assert other != ws;
    }
  }

  // ---------------------------------------------------------------------
  // The registry invariant

  /** Under the registry invariant the "Invalid Room Id." reply of `chat` is
      unreachable: a stored room id always names a registered room. */
  lemma ChatRoomAlwaysRegistered(s: State, ws: ConnId, req: Request, newId: string)
    requires Valid(s) && ws in s.conns && req.kind == Some("chat")
    ensures Delivery(ws, InvalidRoomId) !in Handle(s, ws, Decoded(req), newId).sent
  {
    var rid := s.conns[ws].roomId;
    if Truthy(rid) && Truthy(req.message) {
      FanoutExactly(s.conns, s.rooms[rid.value], None, ChatMessage(req.message.value, req.username));
    }
  }

  /** The handler never deletes a room and never removes a member; the only
      key it may rewrite wholesale is the generated id of a `create`. */
  lemma HandleOnlyGrows(s: State, ws: ConnId, input: Inbound, newId: string)
    requires ws in s.conns
    ensures var r := Handle(s, ws, input, newId);
      && s.rooms.Keys <= r.state.rooms.Keys
      && (forall k, c :: k in s.rooms && c in s.rooms[k] && !(IsKind(input, "create") && k == newId) ==>
            c in r.state.rooms[k])
      && r.state.conns.Keys == s.conns.Keys
      && (forall c :: c in s.conns && c != ws ==> r.state.conns[c] == s.conns[c])
      && (forall c :: c in s.conns ==> r.state.conns[c].open == s.conns[c].open)
  {
  }

  /** The handler preserves the registry invariant, given that a generated
      room id is not already registered. */
  lemma HandlePreservesValid(s: State, ws: ConnId, input: Inbound, newId: string)
    requires Valid(s) && ws in s.conns
    requires IsKind(input, "create") ==> newId !in s.rooms
    ensures Valid(Handle(s, ws, input, newId).state)
  {
  }

  /** Every error is answered to the sender alone and leaves the state as it
      was; every send to another connection is a room notification addressed
      to a member of the sender's (new) room. */
  lemma ErrorsStayWithSender(s: State, ws: ConnId, input: Inbound, newId: string)
    requires ws in s.conns
    ensures var r := Handle(s, ws, input, newId);
      && (forall d :: d in r.sent && IsError(d.response) ==> r.sent == [d] && d.to == ws && r.state == s)
      && (forall d :: d in r.sent && d.to != ws ==>
            && (d.response.kind == "userJoined" || d.response.kind == "chat")
            && r.state.conns[ws].roomId.Some?
            && r.state.conns[ws].roomId.value in r.state.rooms
            && d.to in r.state.rooms[r.state.conns[ws].roomId.value])
  {
    var r := Handle(s, ws, input, newId);
    if IsKind(input, "join") && Truthy(input.req.roomId) && input.req.roomId.value in s.rooms {
      var req := input.req;
      var id := req.roomId.value;
      FanoutExactly(r.state.conns, r.state.rooms[id], Some(ws), UserJoined(req.username));
      forall d | d in r.sent ensures !IsError(d.response) {
        if d != r.sent[0] {
          assert d in r.sent[1..];
        }
      }
      forall d | d in r.sent && d.to != ws ensures d.to in r.state.rooms[id] && d.response.kind == "userJoined" {
        assert d in r.sent[1..];
      }
    } else if IsKind(input, "chat") && Truthy(s.conns[ws].roomId) && s.conns[ws].roomId.value in s.rooms
              && Truthy(input.req.message) {
      var req := input.req;
      FanoutExactly(s.conns, s.rooms[s.conns[ws].roomId.value], None, ChatMessage(req.message.value, req.username));
    }
  }

  /** Because `create` uses `Map.set`, a generated id that collides with a
      registered room replaces that room's member set: its other members are
      dropped while their stored room id still names it. */
  lemma CreateCollisionEvicts(s: State, ws: ConnId, req: Request, newId: string, other: ConnId)
    requires ws in s.conns && req.kind == Some("create")
    requires newId in s.rooms && other in s.rooms[newId] && other != ws
    requires other in s.conns && s.conns[other].roomId == Some(newId)
    ensures var r := Handle(s, ws, Decoded(req), newId).state;
      other !in r.rooms[newId] && r.conns[other].roomId == Some(newId) && !Valid(r)
  {
  }
}
