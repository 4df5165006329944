/**
 * The WebSocket handler: the process-wide registry `clients` (user id to
 * connection) and room directory `rooms` (room id to member user ids), the
 * `open` / `message` / `close` / `error` events, and the outbox of every
 * `send` and `publish` the handlers perform, in order.
 *
 * Each event runs to completion before the next one starts, so each is one
 * method. A lookup whose `undefined` result the source then uses (a
 * `.send` or `.forEach` on it) throws, so such a lookup succeeding is a
 * precondition of the method that reaches it.
 */
module WsHandler {
  import opened Wrappers
  import opened OrderedSet
  import opened Transport
  import opened Signaling

  class Relay {
    var clients: map<UserId, Peer>
    var rooms: map<RoomId, seq<UserId>>
    var outbox: seq<Emit>

    ghost predicate Valid()
      reads this
    {
      Keyed(clients) && RoomsAreSets(rooms)
    }

    /** Process start: no connections, no rooms, nothing sent. */
    constructor ()
      ensures Valid()
      ensures clients == map[] && rooms == map[] && outbox == []
    {
      clients := map[];
      rooms := map[];
      outbox := [];
    }

    /** The connection is the one registered for its user id (compared by connection id). */
    predicate IsCurrent(peer: Peer)
      reads this
    {
      peer.userId in clients && clients[peer.userId].id == peer.id
    }

    /** The members of a room; a room never joined has none. */
    function Members(roomId: RoomId): (r: seq<UserId>)
      reads this
    {
      if roomId in rooms then rooms[roomId] else []
    }

    /** A join that goes on to notify the room finds every member registered. */
    predicate CanJoin(peer: Peer, roomId: RoomId)
      reads this
    {
      peer.userId !in Members(roomId) ==> Registered(Members(roomId), clients)
    }

    /** A leave by the current connection finds every room it works through, with all members registered. */
    predicate CanLeave(peer: Peer, roomId: Option<RoomId>)
      reads this, peer
    {
      IsCurrent(peer) ==> Ready(rooms, clients, Targets(peer.subscriptions, roomId))
    }

    /** A frame's handler reaches no failing lookup. */
    predicate CanHandle(peer: Peer, data: Inbound)
      reads this, peer
    {
      if data.action == JOIN then data.payload.roomId.Some? && CanJoin(peer, data.payload.roomId.value)
      else if data.action == LEAVE then CanLeave(peer, data.payload.roomId)
      else if data.action == RELAY_SDP || data.action == RELAY_ICE then
        data.payload.peerId.Some? && data.payload.peerId.value in clients
      else true
    }

    /**
     * The effect of a join: a duplicate changes nothing and sends nothing;
     * otherwise the announcement is published, the `add-peer` notices go out,
     * the joiner is appended to the room and the connection subscribed.
     */
    twostate predicate Joined(peer: Peer, roomId: RoomId)
      requires old(CanJoin(peer, roomId))
      reads this, peer
    {
      var before := old(Members(roomId));
      clients == old(clients) &&
      if peer.userId in before then
        rooms == old(rooms) && outbox == old(outbox) && peer.subscriptions == old(peer.subscriptions)
      else
        rooms == old(rooms)[roomId := before + [peer.userId]] &&
        peer.subscriptions == Insert(old(peer.subscriptions), roomId) &&
        outbox == old(outbox) + [Publish(peer, roomId, "server", peer.userId + " joined!")]
                              + JoinNotices(peer, before, old(clients))
    }

    /** Passes over `targets` for the connection's user, as `LeaveAll` describes them (the registry aside). */
    twostate predicate Passed(peer: Peer, targets: seq<RoomId>)
      requires old(Ready(rooms, clients, targets))
      reads this, peer
    {
      LeaveState(rooms, peer.subscriptions, outbox)
        == LeaveAll(LeaveState(old(rooms), old(peer.subscriptions), old(outbox)), peer.userId, old(clients), targets)
    }

    /** The passes of a leave: the subscriptions, then the explicit room if given. */
    twostate predicate Left(peer: Peer, roomId: Option<RoomId>)
      requires old(IsCurrent(peer)) && old(CanLeave(peer, roomId))
      reads this, peer
    {
      Passed(peer, Targets(old(peer.subscriptions), roomId))
    }

    /** The effect of a leave: nothing for a superseded connection; otherwise the passes, then deregistration. */
    twostate predicate LeaveHandled(peer: Peer, roomId: Option<RoomId>)
      requires old(CanLeave(peer, roomId))
      reads this, peer
    {
      if old(IsCurrent(peer)) then
        Left(peer, roomId) && clients == old(clients) - {peer.userId}
      else
        clients == old(clients) && rooms == old(rooms) && outbox == old(outbox) &&
        peer.subscriptions == old(peer.subscriptions)
    }

    /** The effect of a relay: one message to the connection registered under `peerId`, nothing else. */
    twostate predicate Forwarded(peerId: UserId, msg: ServerMsg)
      requires peerId in old(clients)
      reads this
    {
      clients == old(clients) && rooms == old(rooms) && outbox == old(outbox) + [Send(old(clients)[peerId], msg)]
    }

    /** `open`: a reconnect under the same user id first tears the old connection down, then registers the new one. */
    method Open(peer: Peer)
      requires Valid()
      requires peer.userId in clients ==> CanLeave(clients[peer.userId], None)
      modifies this, if peer.userId in clients then {clients[peer.userId]} else {}
      ensures Valid()
      ensures clients == old(clients)[peer.userId := peer]
      ensures peer.userId !in old(clients) ==> rooms == old(rooms) && outbox == old(outbox)
      ensures peer.userId in old(clients) ==> Left(old(clients[peer.userId]), None)
      ensures peer.userId in old(clients) ==>
        var q := old(clients[peer.userId]);
        q.subscriptions == [] &&
        forall x :: x in old(q.subscriptions) ==> x in rooms && peer.userId !in rooms[x]
    {
      var userId := peer.userId;
      if userId in clients {
        var existPeer := clients[userId];
        HandleLeave(existPeer, None);
      }
      clients := clients[userId := peer];
    }

    /** `message`: dispatch on the frame's `action`; an unknown action is ignored. */
    method OnMessage(peer: Peer, data: Inbound)
      requires Valid() && CanHandle(peer, data)
      modifies this, peer
      ensures Valid()
      ensures data.action == JOIN ==> Joined(peer, data.payload.roomId.value)
      ensures data.action == LEAVE ==> LeaveHandled(peer, data.payload.roomId)
      ensures data.action == RELAY_SDP ==>
        Forwarded(data.payload.peerId.value, SessionDescription(peer.userId, data.payload.sessionDescription)) &&
        peer.subscriptions == old(peer.subscriptions)
      ensures data.action == RELAY_ICE ==>
        Forwarded(data.payload.peerId.value, IceCandidate(peer.userId, data.payload.iceCandidate)) &&
        peer.subscriptions == old(peer.subscriptions)
      ensures data.action !in {JOIN, LEAVE, RELAY_SDP, RELAY_ICE} ==>
        clients == old(clients) && rooms == old(rooms) && outbox == old(outbox) &&
        peer.subscriptions == old(peer.subscriptions)
    {
      if data.action == JOIN {
        HandleJoin(peer, data.payload.roomId.value);
      } else if data.action == LEAVE {
        HandleLeave(peer, data.payload.roomId);
      } else if data.action == RELAY_SDP {
        HandleRelaySdp(peer, data.payload.peerId.value, data.payload.sessionDescription);
      } else if data.action == RELAY_ICE {
        HandleRelayIce(peer, data.payload.peerId.value, data.payload.iceCandidate);
      }
    }

    /** `close`: leave every subscribed room and deregister, unless superseded. */
    method OnClose(peer: Peer)
      requires Valid() && CanLeave(peer, None)
      modifies this, peer
      ensures Valid()
      ensures LeaveHandled(peer, None)
    {
      HandleLeave(peer, None);
    }

    /** `error`: logged only; no clean-up. */
    method OnError(peer: Peer, error: string)
      requires Valid()
      ensures Valid()
      ensures clients == old(clients) && rooms == old(rooms) && outbox == old(outbox)
    {
    }

    /** `join`: snapshot the room, cross-introduce the joiner and every member, then add and subscribe the joiner. */
    method HandleJoin(peer: Peer, roomId: RoomId)
      requires Valid() && CanJoin(peer, roomId)
      modifies this, peer
      ensures Valid()
      ensures Joined(peer, roomId)
    {
      var userId := peer.userId;
      ghost var before := Members(roomId);
      var room: seq<UserId>;
      if roomId in rooms {
        room := rooms[roomId];
      } else {
        room := [];
        rooms := rooms[roomId := room];
      }
      assert room == before;
      if userId in room {
        return;
      }
      outbox := outbox + [Publish(peer, roomId, "server", userId + " joined!")];
      SendJoinNotices(peer, room);
      var grown := Insert(room, userId);
      assert grown == room + [userId] && NoDup(grown);
      rooms := rooms[roomId := grown];
      assert rooms == old(rooms)[roomId := grown];
      peer.subscriptions := Insert(peer.subscriptions, roomId);
    }

    /** The `room.forEach` of a join: each member and the joiner learn of each other, member by member. */
    method SendJoinNotices(peer: Peer, room: seq<UserId>)
      requires Registered(room, clients)
      modifies this`outbox
      ensures outbox == old(outbox) + JoinNotices(peer, room, clients)
    {
      var i := 0;
      while i < |room|
        invariant 0 <= i <= |room|
        invariant outbox == old(outbox) + JoinNotices(peer, room[..i], clients)
      {
        var userRoomId := room[i];
        var remotePeer := clients[userRoomId];
        outbox := outbox + [Send(remotePeer, AddPeer(peer.userId, false))];
        outbox := outbox + [Send(peer, AddPeer(userRoomId, true))];
        i := i + 1;
        assert room[..i][..i - 1] == room[..i - 1];
      }
      assert room[..|room|] == room;
    }

    /** `removePeerFromRoom`: tell every member of the room, the leaver included, then unsubscribe and delete. */
    method RemovePeerFromRoom(peer: Peer, roomId: RoomId)
      requires roomId in rooms && Registered(rooms[roomId], clients)
      modifies this`rooms, this`outbox, peer
      ensures LeaveState(rooms, peer.subscriptions, outbox)
        == LeaveOne(LeaveState(old(rooms), old(peer.subscriptions), old(outbox)), peer.userId, clients, roomId)
    {
      var roomClients := rooms[roomId];
      ghost var before := outbox;
      var j := 0;
      while j < |roomClients|
        invariant 0 <= j <= |roomClients|
        invariant rooms == old(rooms) && peer.subscriptions == old(peer.subscriptions)
        invariant outbox == before + RemovalNotices(peer.userId, roomClients[..j], clients)
      {
        var remotePeer := clients[roomClients[j]];
        outbox := outbox + [Send(remotePeer, RemovePeer(peer.userId))];
        j := j + 1;
        assert roomClients[..j][..j - 1] == roomClients[..j - 1];
      }
      assert roomClients[..|roomClients|] == roomClients;
      peer.subscriptions := Without(peer.subscriptions, roomId);
      rooms := rooms[roomId := Without(roomClients, peer.userId)];
    }

    /** `roomsIds.forEach(removePeerFromRoom)`: the passes, in order, as `LeaveAll` describes them. */
    method RemoveFromRooms(peer: Peer, roomsIds: seq<RoomId>)
      requires Ready(rooms, clients, roomsIds)
      modifies this`rooms, this`outbox, peer
      ensures Passed(peer, roomsIds)
    {
      ghost var st0 := LeaveState(rooms, peer.subscriptions, outbox);
      var i := 0;
      while i < |roomsIds|
        invariant 0 <= i <= |roomsIds|
        invariant Ready(st0.rooms, clients, roomsIds[..i])
        invariant LeaveState(rooms, peer.subscriptions, outbox) == LeaveAll(st0, peer.userId, clients, roomsIds[..i])
      {
        var subRoomId := roomsIds[i];
        LeaveAllStep(st0, peer.userId, clients, roomsIds, i);
        RemovePeerFromRoom(peer, subRoomId);
        i := i + 1;
      }
      assert roomsIds[..|roomsIds|] == roomsIds;
    }

    /**
     * `leave` and `close`: ignored for a superseded connection; otherwise every
     * subscribed room and then the explicit room is passed over, and the user
     * is deregistered (also after a single-room `leave`).
     */
    method HandleLeave(peer: Peer, roomId: Option<RoomId>)
      requires Valid() && CanLeave(peer, roomId)
      modifies this, peer
      ensures Valid()
      ensures LeaveHandled(peer, roomId)
      ensures old(IsCurrent(peer)) ==>
        peer.userId !in clients && peer.subscriptions == [] &&
        forall x :: x in Targets(old(peer.subscriptions), roomId) ==> x in rooms && peer.userId !in rooms[x]
    {
      var userId := peer.userId;
      if !(userId in clients && clients[userId].id == peer.id) {
        return;
      }
      var roomsIds := Targets(peer.subscriptions, roomId);
      LeaveAllClears(LeaveState(rooms, peer.subscriptions, outbox), userId, clients, roomsIds);
      LeaveAllKeepsSets(LeaveState(rooms, peer.subscriptions, outbox), userId, clients, roomsIds);
      RemoveFromRooms(peer, roomsIds);
      clients := clients - {userId};
    }

    /** `relay-sdp`: forward the session description to the peer registered under `peerId`, tagged with the sender. */
    method HandleRelaySdp(peer: Peer, peerId: UserId, sessionDescription: Option<Blob>)
      requires peerId in clients
      modifies this`outbox
      ensures Forwarded(peerId, SessionDescription(peer.userId, sessionDescription))
    {
      var remotePeer := clients[peerId];
      outbox := outbox + [Send(remotePeer, SessionDescription(peer.userId, sessionDescription))];
    }

    /** `relay-ice`: forward the ICE candidate to the peer registered under `peerId`, tagged with the sender. */
    method HandleRelayIce(peer: Peer, peerId: UserId, iceCandidate: Option<Blob>)
      requires peerId in clients
      modifies this`outbox
      ensures Forwarded(peerId, IceCandidate(peer.userId, iceCandidate))
    {
      var remotePeer := clients[peerId];
      outbox := outbox + [Send(remotePeer, IceCandidate(peer.userId, iceCandidate))];
    }
  }
}
