/**
 * The relay's effects as pure functions of the state they start from:
 * the `add-peer` fan-out of a join and the room-by-room teardown of a leave.
 * The handlers in `WsHandler` are proved to produce exactly these.
 */
module Signaling {
  import opened Wrappers
  import opened OrderedSet
  import opened Transport

  /** Every registry entry is stored under its own connection's user id. */
  predicate Keyed(clients: map<UserId, Peer>) {
    forall u :: u in clients ==> clients[u].userId == u
  }

  /** Every room's member list is a set. */
  predicate RoomsAreSets(rooms: map<RoomId, seq<UserId>>) {
    forall r :: r in rooms ==> NoDup(rooms[r])
  }

  /** Every member has a registry entry, so `clients.get(m)!` does not fail. */
  predicate Registered(members: seq<UserId>, clients: map<UserId, Peer>) {
    forall m :: m in members ==> m in clients
  }

  // ---------------------------------------------------------------- join

  /**
   * The messages a join sends, member by member in the room's order:
   * the member learns of the joiner (who will receive the offer) and the
   * joiner learns of the member (and is told to make the offer).
   */
  function JoinNotices(joiner: Peer, members: seq<UserId>, clients: map<UserId, Peer>): (r: seq<Emit>)
    requires Registered(members, clients)
    ensures |r| == 2 * |members|
    ensures forall k :: 0 <= k < |members| ==>
      r[2 * k] == Send(clients[members[k]], AddPeer(joiner.userId, false)) &&
      r[2 * k + 1] == Send(joiner, AddPeer(members[k], true))
    decreases |members|
  {
    if members == [] then []
    else
      var m := members[|members| - 1];
      JoinNotices(joiner, members[..|members| - 1], clients)
        + [Send(clients[m], AddPeer(joiner.userId, false)), Send(joiner, AddPeer(m, true))]
  }

  /** Every join notice is an `add-peer` to the joiner about a member, or to a member about the joiner. */
  lemma {:induction false} JoinNoticesShape(joiner: Peer, members: seq<UserId>, clients: map<UserId, Peer>)
    requires Registered(members, clients)
    ensures forall e :: e in JoinNotices(joiner, members, clients) ==>
              exists m :: m in members &&
                (e == Send(joiner, AddPeer(m, true)) || e == Send(clients[m], AddPeer(joiner.userId, false)))
  {
    var r := JoinNotices(joiner, members, clients);
    forall e | e in r
      ensures exists m :: (m in members &&
        (e == Send(joiner, AddPeer(m, true)) || e == Send(clients[m], AddPeer(joiner.userId, false))))
    {
      var i :| 0 <= i < |r| && r[i] == e;
      var k := i / 2;
      assert i == 2 * k || i == 2 * k + 1;
      assert members[k] in members;
    }
  }

  /** No join notice names the peer it is sent to, when the joiner is not yet a member. */
  lemma {:induction false} JoinNoticesNotSelf(joiner: Peer, members: seq<UserId>, clients: map<UserId, Peer>)
    requires Registered(members, clients) && Keyed(clients)
    requires joiner.userId !in members
    ensures forall e :: e in JoinNotices(joiner, members, clients) ==>
      e.Send? && e.msg.AddPeer? && e.to.userId != e.msg.peerId
  {
    JoinNoticesShape(joiner, members, clients);
  }

  /**
   * The joiner gets exactly one `add-peer{m, createOffer: true}` per member m,
   * and each member exactly one `add-peer{joiner, createOffer: false}`.
   */
  lemma {:induction false} JoinNoticesExactlyOnce(joiner: Peer, members: seq<UserId>, clients: map<UserId, Peer>, m: UserId)
    requires Registered(members, clients) && Keyed(clients) && NoDup(members)
    requires joiner.userId !in members && m in members
    ensures multiset(JoinNotices(joiner, members, clients))[Send(joiner, AddPeer(m, true))] == 1
    ensures multiset(JoinNotices(joiner, members, clients))[Send(clients[m], AddPeer(joiner.userId, false))] == 1
    decreases |members|
  {
    var front := members[..|members| - 1];
    var last := members[|members| - 1];
    var tail := [Send(clients[last], AddPeer(joiner.userId, false)), Send(joiner, AddPeer(last, true))];
    assert JoinNotices(joiner, members, clients) == JoinNotices(joiner, front, clients) + tail;
    assert members == front + [last];
    NoDupFront(members);
    PairCount(joiner, clients, last, m);
    if m == last {
      assert m !in front;
      NoJoinNoticesAbout(joiner, front, clients, m);
    } else {
      assert m in front;
      JoinNoticesExactlyOnce(joiner, front, clients, m);
    }
  }

  /** The pair of notices for one member `last` concerns m only if m is `last`. */
  lemma {:induction false} PairCount(joiner: Peer, clients: map<UserId, Peer>, last: UserId, m: UserId)
    requires Keyed(clients) && last in clients && m in clients
    ensures var pair := [Send(clients[last], AddPeer(joiner.userId, false)), Send(joiner, AddPeer(last, true))];
      multiset(pair)[Send(joiner, AddPeer(m, true))] == (if m == last then 1 else 0) &&
      multiset(pair)[Send(clients[m], AddPeer(joiner.userId, false))] == (if m == last then 1 else 0)
  {
    assert clients[last].userId == last && clients[m].userId == m;
  }

  /** Join notices for members other than m are neither sent to m nor name m. */
  lemma {:induction false} NoJoinNoticesAbout(joiner: Peer, members: seq<UserId>, clients: map<UserId, Peer>, m: UserId)
    requires Registered(members, clients) && Keyed(clients)
    requires m in clients && m !in members && joiner.userId != m
    ensures forall e :: e in JoinNotices(joiner, members, clients) ==>
      e.Send? && e.to != clients[m] && e.msg.peerId != m
    ensures multiset(JoinNotices(joiner, members, clients))[Send(joiner, AddPeer(m, true))] == 0
    ensures multiset(JoinNotices(joiner, members, clients))[Send(clients[m], AddPeer(joiner.userId, false))] == 0
  {
    JoinNoticesShape(joiner, members, clients);
    assert clients[m].userId == m;
    assert Send(joiner, AddPeer(m, true)) !in JoinNotices(joiner, members, clients);
    assert Send(clients[m], AddPeer(joiner.userId, false)) !in JoinNotices(joiner, members, clients);
  }

  // ---------------------------------------------------------------- leave

  /** The rooms a leave works through: the connection's subscriptions, then the explicit room if given. */
  function Targets(subscriptions: seq<RoomId>, roomId: Option<RoomId>): (t: seq<RoomId>)
    ensures forall x :: x in t <==> x in subscriptions || roomId == Some(x)
    ensures |t| == |subscriptions| + (if roomId.Some? then 1 else 0)
  {
    subscriptions + ToSeq(roomId)
  }

  /** Every target room exists and all its members are registered. */
  predicate Ready(rooms: map<RoomId, seq<UserId>>, clients: map<UserId, Peer>, targets: seq<RoomId>) {
    forall x :: x in targets ==> x in rooms && Registered(rooms[x], clients)
  }

  /** `remove-peer{leaver}` to every member of a room, in the room's order. */
  function RemovalNotices(leaver: UserId, members: seq<UserId>, clients: map<UserId, Peer>): (r: seq<Emit>)
    requires Registered(members, clients)
    ensures |r| == |members|
    ensures forall k :: 0 <= k < |members| ==> r[k] == Send(clients[members[k]], RemovePeer(leaver))
    decreases |members|
  {
    if members == [] then []
    else
      RemovalNotices(leaver, members[..|members| - 1], clients)
        + [Send(clients[members[|members| - 1]], RemovePeer(leaver))]
  }

  /** A member of a room hears of the leaver exactly once from that room; a non-member never. */
  lemma {:induction false} RemovalNoticesCount(leaver: UserId, members: seq<UserId>, clients: map<UserId, Peer>, m: UserId)
    requires Registered(members, clients) && Keyed(clients) && NoDup(members) && m in clients
    ensures multiset(RemovalNotices(leaver, members, clients))[Send(clients[m], RemovePeer(leaver))]
      == if m in members then 1 else 0
    decreases |members|
  {
    if members != [] {
      var front := members[..|members| - 1];
      var last := members[|members| - 1];
      assert members == front + [last];
      NoDupFront(members);
      assert clients[last].userId == last && clients[m].userId == m;
      RemovalNoticesCount(leaver, front, clients, m);
      if m == last {
        assert m !in front;
      }
    }
  }

  /** What a leave changes: the room directory, the leaver's subscriptions and the outbox. */
  datatype LeaveState = LeaveState(rooms: map<RoomId, seq<UserId>>, subs: seq<RoomId>, out: seq<Emit>)

  /**
   * One pass of `removePeerFromRoom(x)`: notify every current member (the
   * leaver included), unsubscribe the connection, delete the leaver from the room.
   */
  function LeaveOne(st: LeaveState, leaver: UserId, clients: map<UserId, Peer>, x: RoomId): (r: LeaveState)
    requires x in st.rooms && Registered(st.rooms[x], clients)
  {
    LeaveState(
      st.rooms[x := Without(st.rooms[x], leaver)],
      Without(st.subs, x),
      st.out + RemovalNotices(leaver, st.rooms[x], clients))
  }

  /** The passes over `targets`, in order; a room listed twice is passed over twice. */
  function LeaveAll(st: LeaveState, leaver: UserId, clients: map<UserId, Peer>, targets: seq<RoomId>): (r: LeaveState)
    requires Ready(st.rooms, clients, targets)
    ensures r.rooms.Keys == st.rooms.Keys
    ensures forall k :: k in st.rooms && Registered(st.rooms[k], clients) ==> Registered(r.rooms[k], clients)
    decreases |targets|
  {
    if targets == [] then st
    else
      var front := targets[..|targets| - 1];
      var x := targets[|targets| - 1];
      InFront(targets);
      LeaveOne(LeaveAll(st, leaver, clients, front), leaver, clients, x)
  }

  /** The passes delete the leaver from room k if it is a target and leave it as it was otherwise. */
  lemma {:induction false} LeaveAllRoom(st: LeaveState, leaver: UserId, clients: map<UserId, Peer>, targets: seq<RoomId>, k: RoomId)
    requires Ready(st.rooms, clients, targets) && k in st.rooms
    ensures LeaveAll(st, leaver, clients, targets).rooms[k]
      == if k in targets then Without(st.rooms[k], leaver) else st.rooms[k]
    decreases |targets|
  {
    if targets != [] {
      var front := targets[..|targets| - 1];
      var x := targets[|targets| - 1];
      InFront(targets);
      LeaveAllRoom(st, leaver, clients, front, k);
      var mid := LeaveAll(st, leaver, clients, front);
      var r := LeaveAll(st, leaver, clients, targets);
      if k == x {
        assert r.rooms[k] == Without(mid.rooms[x], leaver);
        if x in front {
          assert leaver !in mid.rooms[x];
        }
      } else {
        assert r.rooms[k] == mid.rooms[k];
      }
    }
  }

  /** The same for every room at once. */
  lemma {:induction false} LeaveAllRooms(st: LeaveState, leaver: UserId, clients: map<UserId, Peer>, targets: seq<RoomId>)
    requires Ready(st.rooms, clients, targets)
    ensures forall k :: k in st.rooms ==>
      LeaveAll(st, leaver, clients, targets).rooms[k]
        == if k in targets then Without(st.rooms[k], leaver) else st.rooms[k]
  {
    forall k | k in st.rooms
      ensures LeaveAll(st, leaver, clients, targets).rooms[k]
        == if k in targets then Without(st.rooms[k], leaver) else st.rooms[k]
    {
      LeaveAllRoom(st, leaver, clients, targets, k);
    }
  }

  /** Passing over one more target is one more `LeaveOne` step, and that room is still there to pass over. */
  lemma LeaveAllStep(st: LeaveState, leaver: UserId, clients: map<UserId, Peer>, targets: seq<RoomId>, i: nat)
    requires Ready(st.rooms, clients, targets) && i < |targets|
    ensures Ready(st.rooms, clients, targets[..i]) && Ready(st.rooms, clients, targets[..i + 1])
    ensures targets[i] in LeaveAll(st, leaver, clients, targets[..i]).rooms
    ensures Registered(LeaveAll(st, leaver, clients, targets[..i]).rooms[targets[i]], clients)
    ensures LeaveAll(st, leaver, clients, targets[..i + 1])
      == LeaveOne(LeaveAll(st, leaver, clients, targets[..i]), leaver, clients, targets[i])
  {
    assert targets[..i + 1][..i] == targets[..i];
    InPrefix(targets, i + 1);
  }

  /**
   * The passes do not depend on what was sent before: starting from any
   * outbox, they append exactly the messages they send from an empty one.
   */
  lemma {:induction false} LeaveAllShift(st: LeaveState, leaver: UserId, clients: map<UserId, Peer>, targets: seq<RoomId>)
    requires Ready(st.rooms, clients, targets)
    ensures var a := LeaveAll(st, leaver, clients, targets);
      var b := LeaveAll(LeaveState(st.rooms, st.subs, []), leaver, clients, targets);
      a.rooms == b.rooms && a.subs == b.subs && a.out == st.out + b.out
    decreases |targets|
  {
    if targets != [] {
      var front := targets[..|targets| - 1];
      var x := targets[|targets| - 1];
      InFront(targets);
      LeaveAllShift(st, leaver, clients, front);
      var a := LeaveAll(st, leaver, clients, front);
      var b := LeaveAll(LeaveState(st.rooms, st.subs, []), leaver, clients, front);
      var notices := RemovalNotices(leaver, b.rooms[x], clients);
      assert LeaveAll(st, leaver, clients, targets).out == a.out + notices;
      assert LeaveAll(LeaveState(st.rooms, st.subs, []), leaver, clients, targets).out == b.out + notices;
      ConcatAssoc(st.out, b.out, notices);
    }
  }

  /** The passes keep every room a set. */
  lemma {:induction false} LeaveAllKeepsSets(st: LeaveState, leaver: UserId, clients: map<UserId, Peer>, targets: seq<RoomId>)
    requires Ready(st.rooms, clients, targets) && RoomsAreSets(st.rooms)
    ensures RoomsAreSets(LeaveAll(st, leaver, clients, targets).rooms)
  {
    LeaveAllRooms(st, leaver, clients, targets);
  }

  /** After the passes, the connection keeps exactly its subscriptions to rooms outside `targets`, in order. */
  lemma {:induction false} LeaveAllSubscriptions(st: LeaveState, leaver: UserId, clients: map<UserId, Peer>, targets: seq<RoomId>)
    requires Ready(st.rooms, clients, targets)
    ensures LeaveAll(st, leaver, clients, targets).subs == Except(st.subs, targets)
    decreases |targets|
  {
    if targets == [] {
      ExceptNothing(st.subs);
    } else {
      var front := targets[..|targets| - 1];
      var x := targets[|targets| - 1];
      assert targets == front + [x];
      InFront(targets);
      LeaveAllSubscriptions(st, leaver, clients, front);
      ExceptSnoc(st.subs, front, x);
    }
  }

  /**
   * When the targets include all of the connection's subscriptions, the
   * leaver ends up in none of the target rooms and subscribed to nothing.
   */
  lemma {:induction false} LeaveAllClears(st: LeaveState, leaver: UserId, clients: map<UserId, Peer>, targets: seq<RoomId>)
    requires Ready(st.rooms, clients, targets)
    requires forall y :: y in st.subs ==> y in targets
    ensures LeaveAll(st, leaver, clients, targets).subs == []
    ensures forall x :: x in targets ==>
      x in LeaveAll(st, leaver, clients, targets).rooms && leaver !in LeaveAll(st, leaver, clients, targets).rooms[x]
  {
    var r := LeaveAll(st, leaver, clients, targets);
    LeaveAllRooms(st, leaver, clients, targets);
    LeaveAllSubscriptions(st, leaver, clients, targets);
    ExceptAll(st.subs, targets);
    forall x | x in targets ensures x in r.rooms && leaver !in r.rooms[x] {
      assert r.rooms[x] == Without(st.rooms[x], leaver);
    }
  }

  /**
   * The number of passes in which m is still a member of the room being
   * passed over: every pass over one of its rooms for another user, but for
   * the leaver only the first pass over each of its rooms.
   */
  function Present(m: UserId, leaver: UserId, rooms: map<RoomId, seq<UserId>>, targets: seq<RoomId>): (n: nat)
    requires forall x :: x in targets ==> x in rooms
    decreases |targets|
  {
    if targets == [] then 0
    else
      var front := targets[..|targets| - 1];
      var x := targets[|targets| - 1];
      InFront(targets);
      Present(m, leaver, rooms, front)
        + (if m in rooms[x] && (m != leaver || x !in front) then 1 else 0)
  }

  /** The leave sends user m exactly one `remove-peer{leaver}` per pass in which m is present. */
  lemma {:induction false} LeaveAllNoticeCount(st: LeaveState, leaver: UserId, clients: map<UserId, Peer>, targets: seq<RoomId>, m: UserId)
    requires Ready(st.rooms, clients, targets) && Keyed(clients) && RoomsAreSets(st.rooms) && m in clients
    requires st.out == []
    ensures multiset(LeaveAll(st, leaver, clients, targets).out)[Send(clients[m], RemovePeer(leaver))]
      == Present(m, leaver, st.rooms, targets)
    decreases |targets|
  {
    if targets != [] {
      var front := targets[..|targets| - 1];
      var x := targets[|targets| - 1];
      InFront(targets);
      var mid := LeaveAll(st, leaver, clients, front);
      var r := LeaveAll(st, leaver, clients, targets);
      LeaveAllRoom(st, leaver, clients, front, x);
      assert NoDup(mid.rooms[x]);
      var notices := RemovalNotices(leaver, mid.rooms[x], clients);
      assert r.out == mid.out + notices;
      LeaveAllNoticeCount(st, leaver, clients, front, m);
      RemovalNoticesCount(leaver, mid.rooms[x], clients, m);
      assert m in mid.rooms[x] <==> m in st.rooms[x] && (m != leaver || x !in front);
    }
  }

  /** Every message a leave sends is `remove-peer{leaver}`. */
  lemma {:induction false} LeaveAllOnlyRemovals(st: LeaveState, leaver: UserId, clients: map<UserId, Peer>, targets: seq<RoomId>)
    requires Ready(st.rooms, clients, targets) && st.out == []
    ensures forall e :: e in LeaveAll(st, leaver, clients, targets).out ==>
      e.Send? && e.msg == RemovePeer(leaver)
    decreases |targets|
  {
    if targets != [] {
      var front := targets[..|targets| - 1];
      var x := targets[|targets| - 1];
      InFront(targets);
      var mid := LeaveAll(st, leaver, clients, front);
      var notices := RemovalNotices(leaver, mid.rooms[x], clients);
      assert LeaveAll(st, leaver, clients, targets).out == mid.out + notices;
      LeaveAllOnlyRemovals(st, leaver, clients, front);
      forall e | e in notices ensures e.Send? && e.msg == RemovePeer(leaver) {
        var k :| 0 <= k < |notices| && notices[k] == e;
      }
    }
  }

  /** A pass over a room that m (not the leaver) belongs to counts for m. */
  lemma {:induction false} PresentCountsRoom(m: UserId, leaver: UserId, rooms: map<RoomId, seq<UserId>>, targets: seq<RoomId>, x: RoomId)
    requires forall y :: y in targets ==> y in rooms
    requires x in targets && m in rooms[x] && m != leaver
    ensures Present(m, leaver, rooms, targets) >= 1
    decreases |targets|
  {
    var front := targets[..|targets| - 1];
    var last := targets[|targets| - 1];
    assert targets == front + [last];
    InFront(targets);
    if x != last {
      PresentCountsRoom(m, leaver, rooms, front, x);
    }
  }

  /**
   * When the explicit room of a `leave` is also one of the connection's
   * subscriptions, it is passed over twice and a remaining member there is
   * told twice.
   */
  lemma {:induction false} DoubleRemoval(subs: seq<RoomId>, x: RoomId, m: UserId, leaver: UserId, rooms: map<RoomId, seq<UserId>>)
    requires forall y :: y in subs ==> y in rooms
    requires x in subs && m in rooms[x] && m != leaver
    ensures Present(m, leaver, rooms, Targets(subs, Some(x))) >= 2
  {
    var t := Targets(subs, Some(x));
    assert t[..|t| - 1] == subs;
    PresentCountsRoom(m, leaver, rooms, subs, x);
  }

  /** The leaver itself is told at least once when it was a member of some target room. */
  lemma {:induction false} LeaverToldOfItself(leaver: UserId, rooms: map<RoomId, seq<UserId>>, targets: seq<RoomId>, x: RoomId)
    requires forall y :: y in targets ==> y in rooms
    requires x in targets && leaver in rooms[x]
    ensures Present(leaver, leaver, rooms, targets) >= 1
  {
    var j := FirstIndex(targets, x);
    LeaverSuffix(leaver, rooms, targets, j);
  }

  /** The first position of x in s. */
  function FirstIndex(s: seq<RoomId>, x: RoomId): (i: nat)
    requires x in s
    ensures i < |s| && s[i] == x && x !in s[..i]
  {
    if s[0] == x then 0 else
      assert x in s[1..];
      var j := FirstIndex(s[1..], x);
      assert s[..j + 1] == [s[0]] + s[1..][..j];
      j + 1
  }

  /** The first pass over a room the leaver is in counts for the leaver. */
  lemma {:induction false} LeaverSuffix(leaver: UserId, rooms: map<RoomId, seq<UserId>>, targets: seq<RoomId>, j: nat)
    requires forall y :: y in targets ==> y in rooms
    requires j < |targets| && leaver in rooms[targets[j]] && targets[j] !in targets[..j]
    ensures Present(leaver, leaver, rooms, targets) >= 1
    decreases |targets|
  {
    var front := targets[..|targets| - 1];
    InFront(targets);
    if j < |targets| - 1 {
      assert front[..j] == targets[..j];
      LeaverSuffix(leaver, rooms, front, j);
    } else {
      assert front == targets[..j];
    }
  }
}
