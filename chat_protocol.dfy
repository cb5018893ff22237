/** The payloads that travel between the consultation chat client and the Socket.IO server.
    An absent key of the serialised object is `None` (JavaScript drops `undefined` properties). */
module ChatProtocol {
  import opened Js

  /** A chat record: built by the client for `send_message`, forwarded untouched by the server
      as `message`, and appended to a client's transcript. */
  datatype ChatMessage = ChatMessage(
    room: Option<string>,
    sender: Option<string>,
    senderEmail: Option<string>,
    message: string,
    time: string)

  /** The `join_room` and `leave_room` payload. */
  datatype RoomRequest = RoomRequest(room: Option<string>, name: Option<string>)
}
