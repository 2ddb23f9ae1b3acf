/**
 * The data the chat client exchanges with its backend: rooms, messages, the
 * room-list response and the realtime event envelope, plus the websocket base
 * address. Timestamps are milliseconds since the epoch, as integers.
 */
module ChatTypes {

  datatype Option<+T> = None | Some(value: T)

  /** The base address both realtime channels are opened under. */
  const WS_BASE_URL: string := "ws://localhost:4000"

  /** Who wrote a message: a real user id, or the local sentinel `'me'`. */
  datatype Sender = Me | UserId(id: int)

  datatype Message = Message(
    id: string,
    roomId: string,
    senderId: Sender,
    content: string,
    createdAt: int)

  /** A room; `messages` is optional on the wire and may be absent. */
  datatype Room = Room(
    id: string,
    user1Id: int,
    user2Id: int,
    messages: Option<seq<Message>>)

  /** The body of a successful room-list fetch: the rooms and the realtime token. */
  datatype RoomResponse = RoomResponse(rooms: seq<Room>, token: string)

  /**
   * An inbound realtime event, already decoded from its JSON envelope.
   * `Unrecognized` stands for a `type` outside the four known ones, and
   * `Malformed` for a payload that did not parse.
   */
  datatype InboundEvent =
    | NewMessage(message: Message)
    | Error(text: Option<string>)
    | MessageSent
    | RoomUpdate(roomId: string, lastMessage: Message)
    | Unrecognized(tag: string)
    | Malformed

  /** The one outbound frame: a send request carrying only the content. */
  datatype SendRequest = SendRequest(content: string)

  /** The messages a room carries, with an absent list read as empty. */
  function MessagesOf(r: Room): seq<Message>
  {
    match r.messages
    case None => []
    case Some(ms) => ms
  }
}
