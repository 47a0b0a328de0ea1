/** The relay as the process runs it: one object holding the room registry,
    the per-connection fields and the log of every `send` made so far.  The
    `message` handler updates these in place and is proved to do exactly
    what `Handler.Handle` describes. */
module Server {
  import opened Envelope
  import opened Registry
  import opened Handler

  class RelayServer {
    /** Room id to member set, in insertion order. */
    var rooms: map<string, seq<ConnId>>
    /** The fields stored on each connection object. */
    var conns: map<ConnId, Conn>
    /** Every `send` so far, oldest first. */
    var outbox: seq<Delivery>

    function Snapshot(): State
      reads this
    {
      State(rooms, conns)
    }

    ghost predicate Valid()
      reads this
    {
      Registry.Valid(Snapshot())
    }

    /** The process starts with an empty registry and no connections. */
    constructor ()
      ensures rooms == map[] && conns == map[] && outbox == []
      ensures Valid()
    {
      rooms, conns, outbox := map[], map[], [];
    }

    /** The transport hands over a new connection: no name, no room, open. */
    method Accept(id: ConnId)
      requires id !in conns
      modifies this`conns
      ensures conns == old(conns)[id := NewConn]
      ensures old(Valid()) ==> Valid()
    {
      conns := conns[id := NewConn];
    }

    /** The transport closes a connection.  No handler runs: the connection
        stays in every room it joined and is merely skipped by broadcasts. */
    method TransportClosed(id: ConnId)
      requires id in conns
      modifies this`conns
      ensures conns == old(conns)[id := old(conns)[id].(open := false)]
      ensures old(Valid()) ==> Valid()
    {
      conns := conns[id := conns[id].(open := false)];
    }

    /** `ws.send`: one envelope to one connection. */
    method Send(to: ConnId, r: Response)
      modifies this`outbox
      ensures outbox == old(outbox) + [Delivery(to, r)]
    {
      outbox := outbox + [Delivery(to, r)];
    }

    /** One `forEach` over a room: send `m` to every member that is open and
        is not `exclude`, in member order. */
    method Broadcast(members: seq<ConnId>, exclude: Option<ConnId>, m: Response)
      modifies this`outbox
      ensures outbox == old(outbox) + Fanout(conns, members, exclude, m)
    {
      var i := 0;
      while i < |members|
        invariant 0 <= i <= |members|
        invariant outbox == old(outbox) + Fanout(conns, members[..i], exclude, m)
      {
        var client := members[i];
        if exclude != Some(client) && client in conns && conns[client].open {
          Send(client, m);
        }
        assert members[..i + 1][..i] == members[..i];
        i := i + 1;
      }
      assert members[..i] == members;
    }

    /** The `create` branch. */
    method CreateRoom(ws: ConnId, req: Request, newId: string)
      requires ws in conns
      modifies this
      ensures Snapshot() == Create(old(Snapshot()), ws, req, newId).state
      ensures outbox == old(outbox) + Create(old(Snapshot()), ws, req, newId).sent
    {
      rooms := rooms[newId := [ws]];
      conns := conns[ws := conns[ws].(username := req.username)];
      conns := conns[ws := conns[ws].(roomId := Some(newId))];
      Send(ws, RoomCreated(newId));
    }

    /** The `join` branch. */
    method JoinRoom(ws: ConnId, req: Request)
      requires ws in conns
      modifies this
      ensures Snapshot() == Join(old(Snapshot()), ws, req).state
      ensures outbox == old(outbox) + Join(old(Snapshot()), ws, req).sent
    {
      var roomId := req.roomId;
      if !Truthy(roomId) {
        Send(ws, NoRoomIdProvided);
        return;
      }
      if roomId.value !in rooms {
        Send(ws, InvalidRoomId);
        return;
      }
      var id := roomId.value;
      conns := conns[ws := conns[ws].(username := req.username)];
      conns := conns[ws := conns[ws].(roomId := Some(id))];
      rooms := rooms[id := Add(rooms[id], ws)];
      Send(ws, RoomJoined(id));
      Broadcast(rooms[id], Some(ws), UserJoined(conns[ws].username));
    }

    /** The `chat` branch. */
    method RelayChat(ws: ConnId, req: Request)
      requires ws in conns
      modifies this`outbox
      ensures Snapshot() == Chat(old(Snapshot()), ws, req).state
      ensures outbox == old(outbox) + Chat(old(Snapshot()), ws, req).sent
    {
      var roomId := conns[ws].roomId;
      if !Truthy(roomId) {
        Send(ws, NotInRoom);
        return;
      }
      if roomId.value !in rooms {
        Send(ws, InvalidRoomId);
        return;
      }
      if !Truthy(req.message) {
        Send(ws, NoMessageProvided);
        return;
      }
      Broadcast(rooms[roomId.value], None, ChatMessage(req.message.value, req.username));
    }

    /** The `message` handler for connection `ws`; `newId` is the id the
        room-id generator returns if the request is a `create`.  A request
        of any other type falls through and does nothing. */
    method HandleMessage(ws: ConnId, input: Inbound, newId: string)
      requires ws in conns
      modifies this
      ensures Snapshot() == Handle(old(Snapshot()), ws, input, newId).state
      ensures outbox == old(outbox) + Handle(old(Snapshot()), ws, input, newId).sent
      ensures old(Valid()) && (IsKind(input, "create") ==> newId !in old(rooms)) ==> Valid()
    {
      ghost var before := Snapshot();
      if Registry.Valid(before) && (IsKind(input, "create") ==> newId !in rooms) {
        HandlePreservesValid(before, ws, input, newId);
      }
      match input
      case Malformed =>
        Send(ws, InvalidJsonPayload);
      case Decoded(req) =>
        if req.kind == Some("create") {
          CreateRoom(ws, req, newId);
        } else if req.kind == Some("join") {
          JoinRoom(ws, req);
        } else if req.kind == Some("chat") {
          RelayChat(ws, req);
        }
    }
  }
}
