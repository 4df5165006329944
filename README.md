# WebRTC signaling relay — a Dafny model

This project models the signaling relay in `server/api/_ws.ts` of the
webrtc-example repository. That file is a WebSocket handler that lets browsers
find each other in named rooms and pass WebRTC offers, answers and ICE
candidates between them. The server holds two process-wide tables:

- `clients`: user id to the live connection registered for it;
- `rooms`: room id to the set of member user ids.

It reacts to four events:

- `open` registers a connection. A reconnect under the same user id first
  removes the old connection from all its rooms and subscriptions; that
  connection is not closed.
- `message` dispatches on the frame's `action`:
  - `join` snapshots the room and introduces the joiner and every member to
    each other with `add-peer`, then adds the joiner and subscribes it.
  - `leave` is handled like `close` but with an explicit room.
  - `relay-sdp` and `relay-ice` forward one message to the named peer,
    tagged with the sender.
- `close` runs the leave: a stale-connection guard, then `remove-peer` to every
  member of every subscribed room (and of the explicit room, if one is given),
  then deregistration.
- `error` is only logged.

## Structure

- `wrappers.dfy` (`Wrappers`): `Option`, for payload fields that may be absent.
- `ordered_set.dfy` (`OrderedSet`): a JavaScript `Set` as a sequence without
  repeats in insertion order. `Insert` is `Set.add` and `Without` is
  `Set.delete`. `Except` describes what is left of a subscription list.
- `transport.dfy` (`Transport`):
  - the protocol's action names;
  - the connection class `Peer`, with a connection id, its user id and its
    subscriptions;
  - the server messages;
  - the outbox records `Send` (one message to one connection) and `Publish`
    (an announcement to a room topic);
  - the decoded inbound frame.
- `signaling.dfy` (`Signaling`): the effects of the handlers as pure functions
  of the state they start from, with the properties proved about them:
  - `JoinNotices`: the `add-peer` fan-out of a join;
  - `RemovalNotices`: the `remove-peer` fan-out for one room;
  - `LeaveOne`: one `removePeerFromRoom` pass;
  - `LeaveAll`: the passes over all target rooms, in order.
- `ws_handler.dfy` (`WsHandler`): the class `Relay`, with fields `clients`,
  `rooms` and `outbox`. Each event and each `handle…` function is a method.
  The join and leave methods are proved to change the state exactly as the
  `Signaling` functions say; the relays and `error` are specified directly.
- `scenario.dfy` (`Scenario`): concrete runs through the event methods.
  - `AliceAndBob`: two users meet in a room, then one disconnects. It reads
    back what each connection was sent.
  - `RejoinAfterLeave`: after a single-room `leave` and a rejoin, the room
    holds a user with no registry entry. The next join into that room needs a
    lookup that fails.

The model follows the code in these places:

- The leaver is still a member while a room's `remove-peer` loop runs, so it is
  sent a `remove-peer` naming itself (`LeaverToldOfItself`).
- A room that is both subscribed and named explicitly in a `leave` is passed
  over twice, and its other members are told twice (`DoubleRemoval`).
- A `leave` for one room still deregisters the user (`HandleLeave`,
  `RejoinAfterLeave`).
- `error` does no clean-up (`OnError`).
- Empty rooms stay in `rooms`.
- A lookup whose `undefined` result the code then uses throws: `.send` on a
  missing connection (`server/api/_ws.ts:87`, `:123`, `:148`, `:162`) and
  `.forEach` on a missing room (`:120`). Each such lookup succeeding is a
  precondition of the method that reaches it: the members are registered
  during a join or a leave, each room of a leave exists, and the target of a
  relay is registered. The `!` at `:72` and `:111` are harmless, because an
  `if (!room)` or a `?.` follows them.
- A relay to an unregistered peer throws, so the model requires the target to
  be registered (`HandleRelaySdp`, `HandleRelayIce`).
- A room that is both subscribed and named in a `leave` is not de-duplicated,
  and everyone in it is told, the leaver included.

## Model

| member | source | states |
|---|---|---|
| Wrappers.ToSeq | server/api/_ws.ts:134 | the explicit room of a leave contributes one target when given and none when absent (`null`/`undefined` filtered out) |
| OrderedSet.Insert | server/api/_ws.ts:104 | `Set.add`: the result holds exactly the old elements and the new one; a set stays a set; the old elements keep their order and at most one is appended |
| OrderedSet.Without | server/api/_ws.ts:131 | `Set.delete`: the result holds exactly the other elements; a set stays a set; deleting an absent element changes nothing |
| OrderedSet.Except | server/api/_ws.ts:130 | the subscriptions left after unsubscribing from a list of rooms hold exactly those not in the list |
| OrderedSet.ExceptSnoc | server/api/_ws.ts:130 | unsubscribing from one more room is one more `Set.delete` |
| OrderedSet.ExceptAll | server/api/_ws.ts:130 | unsubscribing from a list holding every subscription leaves none |
| Transport.Peer.constructor | server/api/_ws.ts:171-174 | a new connection has its connection id and user id and no subscriptions |
| Signaling.JoinNotices | server/api/_ws.ts:84-102 | a join sends two messages per member in room order: the member is told of the joiner without an offer, then the joiner is told of the member with `createOffer` set |
| Signaling.JoinNoticesShape | server/api/_ws.ts:84-102 | every join notice is an `add-peer` between the joiner and some member, in one of the two directions |
| Signaling.JoinNoticesNotSelf | server/api/_ws.ts:84-102 | when the joiner is not yet a member, no `add-peer` names the connection it is sent to |
| Signaling.JoinNoticesExactlyOnce | server/api/_ws.ts:84-102 | the joiner gets exactly one offer request per member, and each member exactly one notice of the joiner |
| Signaling.NoJoinNoticesAbout | server/api/_ws.ts:84-102 | a user outside the room neither receives nor is named in any join notice, so neither of its two notices is sent |
| Signaling.Targets | server/api/_ws.ts:134 | the rooms a leave works through are the subscriptions followed by the explicit room, if given |
| Signaling.RemovalNotices | server/api/_ws.ts:120-129 | one pass sends `remove-peer{leaver}` to every member of the room, in room order |
| Signaling.RemovalNoticesCount | server/api/_ws.ts:120-129 | within one pass, a member hears of the leaver exactly once and a non-member never |
| Signaling.LeaveAll | server/api/_ws.ts:136-138 | the passes keep the set of room ids and keep every room's members registered |
| Signaling.LeaveAllRoom | server/api/_ws.ts:117-138 | after the passes, a target room has lost exactly the leaver and any other room is unchanged |
| Signaling.LeaveAllRooms | server/api/_ws.ts:117-138 | the same for all rooms at once |
| Signaling.LeaveAllStep | server/api/_ws.ts:136-138 | each further target is one more `removePeerFromRoom` pass, and its room is there with registered members |
| Signaling.LeaveAllShift | server/api/_ws.ts:117-138 | what the passes send does not depend on what was sent before: they only append |
| Signaling.LeaveAllKeepsSets | server/api/_ws.ts:131 | after the passes every room is still a set |
| Signaling.LeaveAllSubscriptions | server/api/_ws.ts:130-138 | after the passes the connection keeps, in order, exactly its subscriptions to non-target rooms |
| Signaling.LeaveAllClears | server/api/_ws.ts:130-138 | when every subscription is a target, the connection ends up subscribed to nothing and absent from every target room |
| Signaling.LeaveAllNoticeCount | server/api/_ws.ts:117-138 | user m receives exactly one `remove-peer{leaver}` for each pass in which m is still a member of that pass's room |
| Signaling.LeaveAllOnlyRemovals | server/api/_ws.ts:123-128 | a leave sends nothing but `remove-peer` naming the leaver |
| Signaling.PresentCountsRoom | server/api/_ws.ts:134-138 | a user other than the leaver who is in a target room is told at least once |
| Signaling.DoubleRemoval | server/api/_ws.ts:134-138 | when the explicit room is also subscribed, each other member there is told at least twice |
| Signaling.LeaverToldOfItself | server/api/_ws.ts:120-131 | the leaver is sent a `remove-peer` naming itself for a target room it was in |
| WsHandler.Relay.constructor | server/api/_ws.ts:18-19 | at process start there are no connections, no rooms and nothing sent |
| WsHandler.Relay.IsCurrent | server/api/_ws.ts:110-114 | the stale-connection guard of a leave: the connection is the one registered for its user id, compared by connection id; it carries no contract of its own, and `LeaveHandled` and `HandleLeave` state what a leave does on each side of it |
| WsHandler.Relay.Open | server/api/_ws.ts:22-32 | the new connection is registered under its user id. A connection it supersedes has first been passed out of all its rooms: it is unsubscribed from everything and its user is absent from each of those rooms. A first connection changes nothing else |
| WsHandler.Relay.OnMessage | server/api/_ws.ts:34-55 | each known action has exactly the effect of its handler, and a relay leaves the sender's subscriptions unchanged; an unknown action changes nothing and sends nothing |
| WsHandler.Relay.OnClose | server/api/_ws.ts:57-60 | a close is a leave with no explicit room |
| WsHandler.Relay.OnError | server/api/_ws.ts:62-64 | an error changes no state and sends nothing |
| WsHandler.Relay.HandleJoin | server/api/_ws.ts:67-106 | a duplicate join changes nothing and sends nothing. Otherwise it publishes the announcement, sends `JoinNotices` for the members before the join, appends the joiner to the room and subscribes the connection. The registry is unchanged and every room stays a set |
| WsHandler.Relay.SendJoinNotices | server/api/_ws.ts:84-102 | the member loop appends exactly `JoinNotices` for the room |
| Signaling.LeaveOne | server/api/_ws.ts:117-132 | one `removePeerFromRoom` pass: `remove-peer{leaver}` to every current member, then unsubscribe, then delete the leaver from the room; it carries no contract of its own, and its meaning is proved through the `LeaveAll*` lemmas and `RemovePeerFromRoom` |
| WsHandler.Relay.RemovePeerFromRoom | server/api/_ws.ts:117-132 | the new rooms, subscriptions and outbox are exactly those of one `LeaveOne` pass |
| WsHandler.Relay.RemoveFromRooms | server/api/_ws.ts:136-138 | the loop over the target list leaves exactly the state `LeaveAll` describes |
| WsHandler.Relay.HandleLeave | server/api/_ws.ts:108-141 | a superseded or unregistered connection changes nothing. Otherwise the state is `LeaveAll` over `Targets`, the user is deregistered, the connection has no subscriptions and its user is in none of the target rooms |
| WsHandler.Relay.HandleRelaySdp | server/api/_ws.ts:143-155 | exactly one `session-description` is sent, to the connection registered under `peerId`, naming the sender and carrying the description unchanged; the registry and rooms are unchanged |
| WsHandler.Relay.HandleRelayIce | server/api/_ws.ts:157-169 | the same for one `ice-candidate` carrying the candidate unchanged |
| Scenario.Inbox | server/api/_ws.ts:87-100 | what one connection is sent is never longer than the outbox |
| Scenario.InboxMembers | server/api/_ws.ts:87-100 | a connection's inbox holds exactly the messages sent to it |
| Scenario.InboxAppend | server/api/_ws.ts:87-100 | what a connection is sent over two stretches of a run is what it is sent over each |
| Scenario.OneMemberNotices | server/api/_ws.ts:84-102 | a join into a room of one member sends exactly that member's pair of notices |
| Scenario.RunInboxes | server/api/_ws.ts:84-129 | in the two-user run, each connection receives its `add-peer` and then `remove-peer{alice}` |
| Scenario.Connect | server/api/_ws.ts:22-32 | two first connections are registered, with no rooms and nothing sent |
| Scenario.Arrive | server/api/_ws.ts:67-106 | the first joiner of a room becomes its only member; only the announcement goes out, and no `add-peer` |
| Scenario.Meet | server/api/_ws.ts:67-106 | the second joiner makes the offer to the first, and the first waits for it |
| Scenario.AliceAndBob | server/api/_ws.ts:108-141 | after alice closes, alice was sent `add-peer{bob}` and `remove-peer{alice}`; bob was sent `add-peer{alice, offer}` and `remove-peer{alice}` |
| Scenario.AloneLeaves | server/api/_ws.ts:134-138 | naming a room that is also subscribed passes over it twice and leaves it empty |
| Scenario.LeaveAlone | server/api/_ws.ts:140 | a single-room `leave` deregisters the user; the room stays, empty |
| Scenario.RejoinAfterLeave | server/api/_ws.ts:85 | after a single-room leave and a rejoin, the room holds a user with no registry entry, and a further join into it cannot meet its precondition |

## Left out

- Logging (`console.log`, `console.warn`): output only.
- `JSON.parse` of the raw frame: inbound frames are the decoded `Inbound`
  value. A frame that does not parse would throw in the source and is not
  modelled.
- `getUserId` and the URL query parsing it uses: the user id is a constant
  field of `Peer`, fixed when the connection is made.
- The crossws transport:
  - `send` and `publish` become `Send` and `Publish` records in the outbox;
  - delivery of a `Publish` to the topic's subscribers is not modelled;
  - `subscribe`, `unsubscribe` and `_subscriptions` become the `subscriptions`
    field of `Peer`.
- WsHandler.Relay.OnMessage: requires a room id on `join`. Without one, the
  source would key a room by `undefined`, and the leave's filter would never
  remove it again. The model has no such key.
- WsHandler.Relay.HandleRelaySdp and WsHandler.Relay.HandleRelayIce: relay to
  an unregistered peer throws in the source, so the model makes it a
  precondition. The half-finished effects of a handler that throws are not
  modelled; this holds for every lookup the model makes a precondition.
- The payloads `sessionDescription` and `iceCandidate` are opaque strings, or
  absent, and are passed through unchanged. Their WebRTC structure is not
  modelled.
- The event loop and the WebSocket framing: each event is one atomic method, so
  there is no concurrency.
- The Nuxt, Vite and Vuetify configuration files: no behaviour.
