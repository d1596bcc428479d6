/** The messages exchanged between a browser and the signaling server over
    Socket.IO, and the values they carry. JavaScript truthiness is modelled
    explicitly: an identifier field is a string in which "" stands for a field
    that is absent or falsy, and an object that may be absent is an `Option`. */
module Protocol {

  type SocketId = string
  type RoomId = string

  datatype Option<T> = None | Some(value: T)

  /** A JavaScript string in a boolean position. */
  predicate Truthy(s: string)
  {
    s != ""
  }

  /** A negotiation object as the browser hands it out: an RTCSessionDescription
      (`type` is "offer" or "answer", `sdp` its text) or an RTCIceCandidate (a
      non-empty `candidate` line). The server never looks inside it; the client
      dispatches on `type` and `candidate`. */
  datatype Signal = Signal(sdpType: string, candidate: string, sdp: string)

  /** The argument of 'join room': any JavaScript value, of which only a string is accepted. */
  datatype JoinArg = Text(s: string) | NotText

  /** `{ userToSignal, callerID, signal }` */
  datatype SendingPayload = SendingPayload(userToSignal: string, callerID: string, signal: Option<Signal>)

  /** `{ callerID, signal }` */
  datatype ReturningPayload = ReturningPayload(callerID: string, signal: Option<Signal>)

  /** What a client sends on its socket. `Disconnected` is the socket going away,
      whether the client called `disconnect()` or the connection dropped. */
  datatype ClientMessage =
    | JoinRoom(arg: JoinArg)
    | SendingSignal(sending: Option<SendingPayload>)
    | ReturningSignal(returning: Option<ReturningPayload>)
    | Change(change: string)
    | Disconnected

  /** What the server sends to clients. */
  datatype ServerMessage =
    | Error(message: string)
    | RoomFull
    | AllUsers(users: seq<SocketId>)
    | UserJoined(signal: Signal, callerID: string)
    | ReceivingReturnedSignal(returned: Signal, id: SocketId)
    | Changed(payload: string)
    | UserLeft(left: SocketId)
}
