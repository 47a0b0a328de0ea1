/** Concrete runs of the handler over two connections, 1 and 2. */
module Scenarios {
  import opened Envelope
  import opened Registry
  import opened Handler

  const Start := State(map[], map[1 := NewConn, 2 := NewConn])

  /** Connection 1 creates a room as "alice", connection 2 joins it as "bob",
      and connection 1 chats "hi" without repeating its name.  The join is
      announced to connection 1 only; the chat reaches both members, in join
      order, and carries no sender because the request had no `username`. */
  lemma CreateJoinChat()
    ensures var r1 := Handle(Start, 1, Decoded(Request(Some("create"), Some("alice"), None, None)), "ab12cd34");
      var r2 := Handle(r1.state, 2, Decoded(Request(Some("join"), Some("bob"), Some("ab12cd34"), None)), "unused");
      var r3 := Handle(r2.state, 1, Decoded(Request(Some("chat"), None, None, Some("hi"))), "unused");
      && r1.sent == [Delivery(1, RoomCreated("ab12cd34"))]
      && r2.sent == [Delivery(2, RoomJoined("ab12cd34")), Delivery(1, UserJoined(Some("bob")))]
      && r2.state.rooms == map["ab12cd34" := [1, 2]]
      && r3.sent == [Delivery(1, ChatMessage("hi", None)), Delivery(2, ChatMessage("hi", None))]
  {
    var r1 := Handle(Start, 1, Decoded(Request(Some("create"), Some("alice"), None, None)), "ab12cd34");
    var r2 := Handle(r1.state, 2, Decoded(Request(Some("join"), Some("bob"), Some("ab12cd34"), None)), "unused");
    var members := [1, 2];
    assert r2.state.rooms["ab12cd34"] == members;
    assert members[..1] == [1] && [1][..0] == [];
    var joined := UserJoined(Some("bob"));
    assert Fanout(r2.state.conns, members, Some(2), joined) == [Delivery(1, joined)] by {
      assert Fanout(r2.state.conns, [1], Some(2), joined) == [Delivery(1, joined)];
    }
    var hi := ChatMessage("hi", None);
    assert Fanout(r2.state.conns, members, None, hi) == [Delivery(1, hi), Delivery(2, hi)] by {
      assert Fanout(r2.state.conns, [1], None, hi) == [Delivery(1, hi)];
    }
  }

  /** A `join` with an empty room id from a fresh connection gets one error
      and creates no room. */
  lemma JoinEmptyIdFirst()
    ensures Handle(Start, 1, Decoded(Request(Some("join"), None, Some(""), None)), "unused")
            == Outcome(Start, [Delivery(1, NoRoomIdProvided)])
  {
  }
}
