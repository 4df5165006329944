/**
 * A concrete run: two users meet in a room and one of them disconnects.
 * What each connection is sent is read back from the outbox.
 */
module Scenario {
  import opened Wrappers
  import opened OrderedSet
  import opened Transport
  import opened Signaling
  import opened WsHandler

  /** The messages sent to one connection, in the order they were sent. */
  function Inbox(outbox: seq<Emit>, p: Peer): (r: seq<ServerMsg>)
    ensures |r| <= |outbox|
  {
    if outbox == [] then []
    else
      var rest := Inbox(outbox[1..], p);
      match outbox[0]
      case Send(to, msg) => if to == p then [msg] + rest else rest
      case Publish(_, _, _, _) => rest
  }

  /** A connection's inbox holds exactly the messages sent to it. */
  lemma {:induction false} InboxMembers(outbox: seq<Emit>, p: Peer)
    ensures forall msg :: msg in Inbox(outbox, p) <==> Send(p, msg) in outbox
  {
    if outbox != [] {
      InboxMembers(outbox[1..], p);
      assert outbox == [outbox[0]] + outbox[1..];
    }
  }

  /** What a connection is sent over two stretches of the run is what it is sent over each. */
  lemma {:induction false} InboxAppend(a: seq<Emit>, b: seq<Emit>, p: Peer)
    ensures Inbox(a + b, p) == Inbox(a, p) + Inbox(b, p)
    decreases |a|
  {
    if a != [] {
      assert (a + b)[0] == a[0];
      assert (a + b)[1..] == a[1..] + b;
      InboxAppend(a[1..], b, p);
    }
    else {
      assert a + b == b;
    }
  }

  /** The run below, read per connection. */
  lemma {:induction false} RunInboxes(alice: Peer, bob: Peer)
    requires alice != bob
    ensures var run := [Publish(alice, "r1", "server", "alice joined!"),
                        Publish(bob, "r1", "server", "bob joined!"),
                        Send(alice, AddPeer("bob", false)), Send(bob, AddPeer("alice", true)),
                        Send(alice, RemovePeer("alice")), Send(bob, RemovePeer("alice"))];
      Inbox(run, alice) == [AddPeer("bob", false), RemovePeer("alice")] &&
      Inbox(run, bob) == [AddPeer("alice", true), RemovePeer("alice")]
  {
    var announced := [Publish(alice, "r1", "server", "alice joined!"),
                      Publish(bob, "r1", "server", "bob joined!")];
    var offers := [Send(alice, AddPeer("bob", false)), Send(bob, AddPeer("alice", true))];
    var notices := [Send(alice, RemovePeer("alice")), Send(bob, RemovePeer("alice"))];
    assert announced + offers + notices == [Publish(alice, "r1", "server", "alice joined!"),
                        Publish(bob, "r1", "server", "bob joined!"),
                        Send(alice, AddPeer("bob", false)), Send(bob, AddPeer("alice", true)),
                        Send(alice, RemovePeer("alice")), Send(bob, RemovePeer("alice"))];
    InboxAppend(announced + offers, notices, alice);
    InboxAppend(announced, offers, alice);
    InboxAppend(announced + offers, notices, bob);
    InboxAppend(announced, offers, bob);
  }

  /** alice and bob connect. */
  method Connect() returns (relay: Relay, alice: Peer, bob: Peer)
    ensures fresh(relay) && fresh(alice) && fresh(bob)
    ensures alice.id == "c1" && alice.userId == "alice" && bob.id == "c2" && bob.userId == "bob"
    ensures relay.Valid()
    ensures relay.clients == map["alice" := alice, "bob" := bob]
    ensures relay.rooms == map[] && relay.outbox == []
    ensures alice.subscriptions == [] && bob.subscriptions == []
  {
    relay := new Relay();
    alice := new Peer("c1", "alice");
    bob := new Peer("c2", "bob");
    relay.Open(alice);
    relay.Open(bob);
  }

  /** Then alice joins "r1": she is alone there, so nobody is told of her. */
  method Arrive() returns (relay: Relay, alice: Peer, bob: Peer)
    ensures fresh(relay) && fresh(alice) && fresh(bob)
    ensures alice.id == "c1" && alice.userId == "alice" && bob.id == "c2" && bob.userId == "bob"
    ensures relay.Valid()
    ensures relay.clients == map["alice" := alice, "bob" := bob]
    ensures relay.rooms == map["r1" := ["alice"]]
    ensures alice.subscriptions == ["r1"] && bob.subscriptions == []
    ensures relay.outbox == [Publish(alice, "r1", "server", "alice joined!")]
  {
    relay, alice, bob := Connect();
    assert relay.Members("r1") == [];
    relay.OnMessage(alice, Inbound(JOIN, Payload(Some("r1"), None, None, None)));
    assert relay.rooms == map[]["r1" := [] + ["alice"]];
    assert [] + ["alice"] == ["alice"];
    assert "alice" + " joined!" == "alice joined!";
  }

  /** Then bob joins "r1": he is told to offer to alice, and she to expect his offer. */
  method Meet() returns (relay: Relay, alice: Peer, bob: Peer)
    ensures fresh(relay) && fresh(alice) && fresh(bob)
    ensures alice.id == "c1" && alice.userId == "alice" && bob.id == "c2" && bob.userId == "bob"
    ensures relay.Valid()
    ensures relay.clients == map["alice" := alice, "bob" := bob]
    ensures relay.rooms == map["r1" := ["alice", "bob"]]
    ensures alice.subscriptions == ["r1"] && bob.subscriptions == ["r1"]
    ensures relay.outbox == [Publish(alice, "r1", "server", "alice joined!"),
                             Publish(bob, "r1", "server", "bob joined!"),
                             Send(alice, AddPeer("bob", false)),
                             Send(bob, AddPeer("alice", true))]
  {
    relay, alice, bob := Arrive();
    OneMemberNotices(bob, "alice", relay.clients);
    ghost var notices := JoinNotices(bob, ["alice"], relay.clients);
    ghost var announced := relay.outbox + [Publish(bob, "r1", "server", "bob joined!")];
    assert bob.userId + " joined!" == "bob joined!";
    assert relay.Members("r1") == ["alice"] && "bob" !in ["alice"];
    assert relay.CanJoin(bob, "r1");
    relay.OnMessage(bob, Inbound(JOIN, Payload(Some("r1"), None, None, None)));
    assert relay.outbox == announced + notices;
    assert ["alice"] + ["bob"] == ["alice", "bob"];
  }

  /** A join into a room of one member sends exactly the one pair of notices. */
  lemma {:induction false} OneMemberNotices(joiner: Peer, m: UserId, clients: map<UserId, Peer>)
    requires m in clients
    ensures JoinNotices(joiner, [m], clients)
      == [Send(clients[m], AddPeer(joiner.userId, false)), Send(joiner, AddPeer(m, true))]
  {
    assert [m][..0] == [];
  }

  /**
   * Finally alice disconnects.
   * alice hears of bob, then of her own removal; bob is told to offer to
   * alice, then that she left.
   */
  method AliceAndBob() returns (toAlice: seq<ServerMsg>, toBob: seq<ServerMsg>)
    ensures toAlice == [AddPeer("bob", false), RemovePeer("alice")]
    ensures toBob == [AddPeer("alice", true), RemovePeer("alice")]
  {
    var relay, alice, bob := Meet();
    ghost var st := LeaveState(relay.rooms, alice.subscriptions, relay.outbox);
    ghost var notices := RemovalNotices("alice", ["alice", "bob"], relay.clients);
    assert notices == [Send(alice, RemovePeer("alice")), Send(bob, RemovePeer("alice"))];
    assert Targets(["r1"], None) == ["r1"];
    assert LeaveAll(st, "alice", relay.clients, ["r1"]).out == st.out + notices;
    relay.OnClose(alice);
    assert relay.outbox == st.out + notices;
    assert relay.outbox == [Publish(alice, "r1", "server", "alice joined!"),
                            Publish(bob, "r1", "server", "bob joined!"),
                            Send(alice, AddPeer("bob", false)), Send(bob, AddPeer("alice", true)),
                            Send(alice, RemovePeer("alice")), Send(bob, RemovePeer("alice"))];
    assert alice != bob by { assert alice.id != bob.id; }
    RunInboxes(alice, bob);
    toAlice := Inbox(relay.outbox, alice);
    toBob := Inbox(relay.outbox, bob);
  }

  /** alice, alone in "r1", leaves it: she hears of her own removal and is deregistered. */
  method LeaveAlone() returns (relay: Relay, alice: Peer, bob: Peer)
    ensures fresh(relay) && fresh(alice) && fresh(bob)
    ensures alice.id == "c1" && alice.userId == "alice" && bob.id == "c2" && bob.userId == "bob"
    ensures relay.Valid()
    ensures relay.clients == map["bob" := bob]
    ensures relay.rooms == map["r1" := []]
    ensures alice.subscriptions == [] && bob.subscriptions == []
  {
    relay, alice, bob := Arrive();
    assert Targets(["r1"], Some("r1")) == ["r1", "r1"];
    AloneLeaves(LeaveState(relay.rooms, alice.subscriptions, relay.outbox), relay.clients);
    relay.OnMessage(alice, Inbound(LEAVE, Payload(Some("r1"), None, None, None)));
  }

  /** Leaving the room "r1" that "alice" alone is in, naming it explicitly: both passes leave it empty. */
  lemma {:induction false} AloneLeaves(st: LeaveState, clients: map<UserId, Peer>)
    requires st.rooms == map["r1" := ["alice"]] && st.subs == ["r1"] && "alice" in clients
    ensures LeaveAll(st, "alice", clients, ["r1", "r1"]).rooms == map["r1" := []]
    ensures LeaveAll(st, "alice", clients, ["r1", "r1"]).subs == []
  {
    LeaveAllRoom(st, "alice", clients, ["r1", "r1"], "r1");
    LeaveAllSubscriptions(st, "alice", clients, ["r1", "r1"]);
    ExceptAll(["r1"], ["r1", "r1"]);
    assert Without(["alice"], "alice") == [];
  }

  /**
   * A `leave` for one room deregisters the user although the connection stays
   * open; when that connection joins the room again, the room holds a user
   * with no registry entry, and the next join into it would reach a failing
   * lookup (`clients.get(...)!`), which the join's precondition rules out.
   */
  method RejoinAfterLeave() returns (relay: Relay, alice: Peer, bob: Peer)
    ensures fresh(relay) && fresh(alice) && fresh(bob)
    ensures relay.clients == map["bob" := bob]
    ensures relay.rooms == map["r1" := ["alice"]]
    ensures !relay.CanJoin(bob, "r1")
  {
    relay, alice, bob := LeaveAlone();
    relay.OnMessage(alice, Inbound(JOIN, Payload(Some("r1"), None, None, None)));
    assert relay.rooms == map["r1" := [] + ["alice"]];
    assert [] + ["alice"] == ["alice"];
    assert relay.Members("r1") == ["alice"];
    assert "alice" in relay.Members("r1") && "alice" !in relay.clients;
  }
}
