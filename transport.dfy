/**
 * The connection layer the relay talks to: a peer connection, the wire
 * messages, and the record of everything the relay asks the layer to deliver.
 */
module Transport {
  import opened Wrappers

  type UserId = string
  type RoomId = string
  /** A session description or ICE candidate: opaque to the relay, forwarded as received. */
  type Blob = string

  /** The `action` names of the protocol (the `EActions` enum). */
  const JOIN := "join"
  const ADD_PEER := "add-peer"
  const LEAVE := "leave"
  const RELAY_SDP := "relay-sdp"
  const RELAY_ICE := "relay-ice"
  const SESSION_DESCRIPTION := "session-description"
  const ICE_CANDIDATE := "ice-candidate"
  const REMOVE_PEER := "remove-peer"

  /** One live connection. */
  class Peer {
    /** Connection identifier chosen by the transport. */
    const id: string
    /** The `userId` query parameter of the connection URL; fixed for the connection's life. */
    const userId: UserId
    /** The rooms this connection is subscribed to, in subscription order. */
    var subscriptions: seq<RoomId>

    constructor (id: string, userId: UserId)
      ensures this.id == id && this.userId == userId
      ensures subscriptions == []
    {
      this.id := id;
      this.userId := userId;
      subscriptions := [];
    }
  }

  /** Server-to-client message bodies. */
  datatype ServerMsg =
    | AddPeer(peerId: UserId, createOffer: bool)
    | RemovePeer(peerId: UserId)
    | SessionDescription(peerId: UserId, sessionDescription: Option<Blob>)
    | IceCandidate(peerId: UserId, iceCandidate: Option<Blob>)

  /**
   * What the relay hands to the transport: a `send` of one message to one
   * connection, or a `publish` of an announcement to a room's topic.
   */
  datatype Emit =
    | Send(to: Peer, msg: ServerMsg)
    | Publish(from: Peer, topic: RoomId, user: string, message: string)

  /** The payload fields the handlers read; each may be missing. */
  datatype Payload = Payload(
    roomId: Option<RoomId>,
    peerId: Option<UserId>,
    sessionDescription: Option<Blob>,
    iceCandidate: Option<Blob>)

  /** An inbound frame after JSON decoding. A frame with no payload has every field missing. */
  datatype Inbound = Inbound(action: string, payload: Payload)
}
