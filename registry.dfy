/** The process-wide room registry and the per-connection fields.

    A connection is an opaque id.  Its record holds the display name and the
    room id the handler stored on it (both unset until `create` or `join`)
    and whether its channel is currently open.  A room's member set is kept
    as a duplicate-free sequence in insertion order, which is the order in
    which a JavaScript `Set` is iterated. */
module Registry {
  import opened Envelope

  type ConnId = nat

  datatype Conn = Conn(username: Option<string>, roomId: Option<string>, open: bool)

  /** A connection as the transport hands it over: no name, no room, open. */
  const NewConn := Conn(None, None, true)

  datatype State = State(rooms: map<string, seq<ConnId>>, conns: map<ConnId, Conn>)

  /** One `send` call: an envelope addressed to a connection. */
  datatype Delivery = Delivery(to: ConnId, response: Response)

  predicate NoDup(s: seq<ConnId>)
  {
    forall i, j :: 0 <= i < j < |s| ==> s[i] != s[j]
  }

  /** The registry invariant: member sets hold known connections without
      repetition, and a connection that has a room id is a member of that
      registered room. */
  ghost predicate Valid(s: State)
  {
    && (forall k :: k in s.rooms ==> NoDup(s.rooms[k]))
    && (forall k, c :: k in s.rooms && c in s.rooms[k] ==> c in s.conns)
    && (forall c :: c in s.conns && s.conns[c].roomId.Some? ==>
          s.conns[c].roomId.value in s.rooms && c in s.rooms[s.conns[c].roomId.value])
  }

  /** `Set.add`: insert if absent, keeping the existing order. */
  function Add(members: seq<ConnId>, c: ConnId): (r: seq<ConnId>)
    ensures forall x :: x in r <==> x in members || x == c
    ensures members <= r && |r| <= |members| + 1
    ensures NoDup(members) ==> NoDup(r)
  {
    if c in members then members else members + [c]
  }

  /** Whether a broadcast reaches member `c`: its channel is open and it is
      not the excluded connection. */
  predicate Eligible(conns: map<ConnId, Conn>, c: ConnId, exclude: Option<ConnId>)
  {
    exclude != Some(c) && c in conns && conns[c].open
  }

  /** The sends one `forEach` over `members` makes: envelope `m` to every
      eligible member, in member order. */
  function Fanout(conns: map<ConnId, Conn>, members: seq<ConnId>, exclude: Option<ConnId>, m: Response): seq<Delivery>
  {
    if members == [] then []
    else
      var last := members[|members| - 1];
      Fanout(conns, members[..|members| - 1], exclude, m)
        + (if Eligible(conns, last, exclude) then [Delivery(last, m)] else [])
  }

  /** Exactly the eligible members receive the envelope, and nothing else is sent. */
  lemma {:induction false} FanoutReaches(conns: map<ConnId, Conn>, members: seq<ConnId>, exclude: Option<ConnId>, m: Response, d: Delivery)
    ensures d in Fanout(conns, members, exclude, m) <==>
            d.response == m && d.to in members && Eligible(conns, d.to, exclude)
  {
    if members != [] {
      var init := members[..|members| - 1];
      FanoutReaches(conns, init, exclude, m, d);
      assert members == init + [members[|members| - 1]];
    }
  }

  /** The quantified form of `FanoutReaches`. */
  lemma {:induction false} FanoutExactly(conns: map<ConnId, Conn>, members: seq<ConnId>, exclude: Option<ConnId>, m: Response)
    ensures forall d :: d in Fanout(conns, members, exclude, m) <==>
              d.response == m && d.to in members && Eligible(conns, d.to, exclude)
  {
    forall d ensures d in Fanout(conns, members, exclude, m) <==>
                       d.response == m && d.to in members && Eligible(conns, d.to, exclude) {
      FanoutReaches(conns, members, exclude, m, d);
    }
  }

  /** Over a duplicate-free member set, no recipient gets the envelope twice. */
  lemma {:induction false} FanoutOncePerMember(conns: map<ConnId, Conn>, members: seq<ConnId>, exclude: Option<ConnId>, m: Response)
    requires NoDup(members)
    ensures forall i, j :: 0 <= i < j < |Fanout(conns, members, exclude, m)| ==>
              Fanout(conns, members, exclude, m)[i].to != Fanout(conns, members, exclude, m)[j].to
  {
    if members != [] {
      var init := members[..|members| - 1];
      var last := members[|members| - 1];
      assert NoDup(init);
      FanoutOncePerMember(conns, init, exclude, m);
      var f := Fanout(conns, init, exclude, m);
      if Eligible(conns, last, exclude) {
        assert last !in init;
        forall i | 0 <= i < |f| ensures f[i].to != last {
          FanoutReaches(conns, init, exclude, m, f[i]);
        }
      }
    }
  }

  /** A broadcast makes at most one send per member, and one per member when all are eligible. */
  lemma {:induction false} FanoutLength(conns: map<ConnId, Conn>, members: seq<ConnId>, exclude: Option<ConnId>, m: Response)
    ensures |Fanout(conns, members, exclude, m)| <= |members|
    ensures (forall c :: c in members ==> Eligible(conns, c, exclude)) ==>
              |Fanout(conns, members, exclude, m)| == |members|
  {
    if members != [] {
      FanoutLength(conns, members[..|members| - 1], exclude, m);
    }
  }
}
