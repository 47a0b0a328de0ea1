/** The inbound and outbound envelopes of the chat relay protocol.

    An inbound transport message is either something the handler could not
    read as a request object, or a request whose four optional string fields
    are `type`, `username`, `room_id` and `message`.  An outbound envelope
    mirrors the socket response record: a `type` tag, a kind-specific `data`
    payload, a human-readable `message` and an optional `error` detail. */
module Envelope {

  datatype Option<T> = None | Some(value: T)

  /** A decoded request.  A field the sender left out is `None`. */
  datatype Request = Request(
    kind: Option<string>,
    username: Option<string>,
    roomId: Option<string>,
    message: Option<string>)

  /** What the handler receives: `Malformed` stands for a payload whose
      decoding or first field access throws (invalid JSON, or the literal
      `null`), which is caught and answered with a generic error. */
  datatype Inbound = Malformed | Decoded(req: Request)

  /** The `data` field of an outbound envelope. */
  datatype Payload =
    | NoData
    | RoomIdData(roomId: string)
    | UserData(username: Option<string>)
    | ChatData(text: string, sender: Option<string>)

  /** An outbound envelope. */
  datatype Response = Response(kind: string, data: Payload, message: string, error: Option<string>)

  /** JavaScript truthiness of an optional string field: absent and empty are falsy. */
  predicate Truthy(o: Option<string>)
  {
    o.Some? && o.value != ""
  }

  /** A template literal renders an absent value as "undefined". */
  function Show(o: Option<string>): string
  {
    match o
    case Some(v) => v
    case None => "undefined"
  }

  predicate IsKind(input: Inbound, kind: string)
  {
    input.Decoded? && input.req.kind == Some(kind)
  }

  predicate IsError(r: Response)
  {
    r.kind == "error"
  }

  function RoomCreated(roomId: string): Response
  {
    Response("roomCreated", RoomIdData(roomId), "Room Creation Sucessful", None)
  }

  function RoomJoined(roomId: string): Response
  {
    Response("roomJoined", RoomIdData(roomId), "Room Joined Successfully", None)
  }

  function UserJoined(username: Option<string>): Response
  {
    Response("userJoined", UserData(username), Show(username) + " has joined the room", None)
  }

  function ChatMessage(text: string, sender: Option<string>): Response
  {
    Response("chat", ChatData(text, sender), "New Message", None)
  }

  const NoRoomIdProvided := Response("error", NoData, "No room Id Provided.", None)
  const InvalidRoomId := Response("error", NoData, "Invalid Room Id.", Some("Provide a valid Room Id."))
  const NotInRoom := Response("error", NoData, "You are not in a room.", None)
  const NoMessageProvided := Response("error", NoData, "No message provided.", Some("Message content is empty."))
  const InvalidJsonPayload := Response("error", NoData, "Invalid JSON payload.", Some("Message format is incorrect."))
}
