/** The signaling server (server/server.js): the room table `rooms`
    (room id -> Set of socket ids), the session registry `socketToRoom`
    (socket id -> room id), and the five socket handlers that read and update
    them. Every handler is written twice: once as a function from the tables
    before to the tables after plus the messages emitted (`Join`, `Disconnect`,
    `Forward...`, `Handle`), which the lemmas in RelayInvariants reason about,
    and once as a method of `SignalingServer` that updates the maps step by step
    as the JavaScript does and is proved to agree with the function. */
module Relay {
  import opened OrderedSet
  import opened Protocol

  /** `MAX_PARTICIPANTS` in the 'join room' handler. */
  const MaxParticipants: nat := 4

  /** Who a message goes to, as Socket.IO is asked:
      `socket.emit` (the sending socket itself), `io.to(name)` (the Socket.IO
      room called name, which for a socket id is that socket alone), and
      `socket.to(name)` (room name, except the sending socket). Socket.IO joins a
      socket to the room of the same name at the moment its id enters `rooms`,
      so for a room id the receivers are that room's members in `rooms`. */
  datatype Target = ToSocket(id: SocketId) | ToRoom(name: string) | ToRoomExcept(room: RoomId, except: SocketId)

  datatype Emission = Emission(to: Target, message: ServerMessage)

  datatype Tables = Tables(rooms: map<RoomId, seq<SocketId>>, socketToRoom: map<SocketId, RoomId>)

  /** The tables after a handler ran, and what it emitted, in order. */
  datatype Step = Step(tables: Tables, out: seq<Emission>)

  /** A received client message together with the id of the socket it came from. */
  datatype Delivery = Delivery(from: SocketId, message: ClientMessage)

  const InvalidRoomMessage := "Invalid room ID"

  /** `rooms.get(roomID) || new Set()` */
  function Members(t: Tables, room: RoomId): (r: seq<SocketId>)
    ensures room !in t.rooms ==> r == []
  {
    if room in t.rooms then t.rooms[room] else []
  }

  /** `socketToRoom.get(socket.id)` in a boolean position: the room of s, if it has a truthy one. */
  function RoomOf(t: Tables, s: SocketId): (r: Option<RoomId>)
    ensures r.Some? <==> s in t.socketToRoom && Truthy(t.socketToRoom[s])
    ensures r.Some? ==> r.value == t.socketToRoom[s]
  {
    if s in t.socketToRoom && Truthy(t.socketToRoom[s]) then Some(t.socketToRoom[s]) else None
  }

  /** `!roomID || typeof roomID !== 'string'` is false. */
  predicate ValidRoomId(arg: JoinArg)
  {
    arg.Text? && Truthy(arg.s)
  }

  /** 'join room' from socket s. Exactly one message is emitted, to s only: an
      error for an invalid room id, 'room full' when the room already holds
      MaxParticipants members (neither changes the tables), else the roster of
      the other members after s has been recorded in both maps. */
  function Join(t: Tables, s: SocketId, arg: JoinArg): (r: Step)
    ensures |r.out| == 1 && r.out[0].to == ToSocket(s)
    ensures !ValidRoomId(arg) ==> r.tables == t && r.out[0].message == Error(InvalidRoomMessage)
    ensures ValidRoomId(arg) && |Members(t, arg.s)| >= MaxParticipants ==> r.tables == t && r.out[0].message == RoomFull
    ensures r.out[0].message.AllUsers? <==> ValidRoomId(arg) && |Members(t, arg.s)| < MaxParticipants
    ensures r.out[0].message.AllUsers? ==>
      && r.tables.socketToRoom == t.socketToRoom[s := arg.s]
      && r.tables.rooms.Keys == t.rooms.Keys + {arg.s}
      && (forall room :: room in t.rooms && room != arg.s ==> r.tables.rooms[room] == t.rooms[room])
      && s in r.tables.rooms[arg.s]
      && Members(t, arg.s) <= r.tables.rooms[arg.s]
      && (forall x :: x in r.tables.rooms[arg.s] <==> x in Members(t, arg.s) || x == s)
      && |r.tables.rooms[arg.s]| <= MaxParticipants
      && (forall x :: x in r.out[0].message.users <==> x in Members(t, arg.s) && x != s)
      && (s !in Members(t, arg.s) ==> r.out[0].message.users == Members(t, arg.s))
  {
    if !ValidRoomId(arg) then
      Step(t, [Emission(ToSocket(s), Error(InvalidRoomMessage))])
    else
      var members := Members(t, arg.s);
      if |members| >= MaxParticipants then
        Step(t, [Emission(ToSocket(s), RoomFull)])
      else
        var members' := Add(members, s);
        var others := Remove(members', s);
        assert s !in members ==> others == members by {
          if s !in members { RemoveAfterAdd(members, s); }
        }
        Step(Tables(t.rooms[arg.s := members'], t.socketToRoom[s := arg.s]), [Emission(ToSocket(s), AllUsers(others))])
  }

  /** 'disconnect' of socket s. A socket without a (truthy) recorded room changes
      nothing and emits nothing. Otherwise s leaves its room's member list, the
      room entry goes when no member is left, s's registry entry goes, and one
      'user left' carrying s goes to the room, s excepted. */
  function Disconnect(t: Tables, s: SocketId): (r: Step)
    ensures RoomOf(t, s).None? ==> r == Step(t, [])
    ensures RoomOf(t, s).Some? ==>
      var room := RoomOf(t, s).value;
      && r.out == [Emission(ToRoomExcept(room, s), UserLeft(s))]
      && r.tables.socketToRoom == t.socketToRoom - {s}
      && (forall x :: x in Members(r.tables, room) <==> x in Members(t, room) && x != s)
      && (room in r.tables.rooms <==> exists x :: x in Members(t, room) && x != s)
      && (forall other :: other != room ==> (other in r.tables.rooms <==> other in t.rooms))
      && (forall other :: other != room && other in t.rooms ==> r.tables.rooms[other] == t.rooms[other])
  {
    match RoomOf(t, s)
    case None => Step(t, [])
    case Some(room) =>
      var rooms' :=
        if room in t.rooms then
          var members := Remove(t.rooms[room], s);
          assert |members| > 0 ==> members[0] in t.rooms[room] && members[0] != s;
          if |members| == 0 then t.rooms - {room} else t.rooms[room := members]
        else t.rooms;
      Step(Tables(rooms', t.socketToRoom - {s}), [Emission(ToRoomExcept(room, s), UserLeft(s))])
  }

  /** 'sending signal': a payload lacking a truthy `userToSignal`, `signal` or
      `callerID` is dropped without a word; otherwise exactly one 'user joined'
      carrying the signal and the caller id as given goes to `userToSignal`. */
  function ForwardSending(p: Option<SendingPayload>): (out: seq<Emission>)
    ensures out == [] <==> p.None? || !Truthy(p.value.userToSignal) || p.value.signal.None? || !Truthy(p.value.callerID)
    ensures out != [] ==> out == [Emission(ToRoom(p.value.userToSignal), UserJoined(p.value.signal.value, p.value.callerID))]
  {
    match p
    case None => []
    case Some(SendingPayload(userToSignal, callerID, signal)) =>
      if !Truthy(userToSignal) || signal.None? || !Truthy(callerID) then []
      else [Emission(ToRoom(userToSignal), UserJoined(signal.value, callerID))]
  }

  /** 'returning signal' from socket s: dropped unless `callerID` and `signal`
      are truthy; otherwise forwarded to `callerID`, stamped with the sender's
      own socket id (whatever the payload claims). */
  function ForwardReturning(s: SocketId, p: Option<ReturningPayload>): (out: seq<Emission>)
    ensures out == [] <==> p.None? || !Truthy(p.value.callerID) || p.value.signal.None?
    ensures out != [] ==> out == [Emission(ToRoom(p.value.callerID), ReceivingReturnedSignal(p.value.signal.value, s))]
  {
    match p
    case None => []
    case Some(ReturningPayload(callerID, signal)) =>
      if !Truthy(callerID) || signal.None? then []
      else [Emission(ToRoom(callerID), ReceivingReturnedSignal(signal.value, s))]
  }

  /** 'change' from socket s: relayed unchanged to the rest of s's room, or
      dropped when s has no recorded room. */
  function ForwardChange(t: Tables, s: SocketId, payload: string): (out: seq<Emission>)
    ensures RoomOf(t, s).None? <==> out == []
    ensures RoomOf(t, s).Some? ==> out == [Emission(ToRoomExcept(RoomOf(t, s).value, s), Changed(payload))]
  {
    match RoomOf(t, s)
    case None => []
    case Some(room) => [Emission(ToRoomExcept(room, s), Changed(payload))]
  }

  /** One message from socket s, dispatched by event name. Only 'join room' and
      'disconnect' touch the tables, and only 'join room' adds a registry entry,
      for s itself. */
  function Handle(t: Tables, d: Delivery): (r: Step)
    ensures !d.message.JoinRoom? && !d.message.Disconnected? ==> r.tables == t
    ensures r.tables.socketToRoom.Keys <= t.socketToRoom.Keys + (if d.message.JoinRoom? then {d.from} else {})
  {
    match d.message
    case JoinRoom(arg) => Join(t, d.from, arg)
    case SendingSignal(p) => Step(t, ForwardSending(p))
    case ReturningSignal(p) => Step(t, ForwardReturning(d.from, p))
    case Change(payload) => Step(t, ForwardChange(t, d.from, payload))
    case Disconnected => Disconnect(t, d.from)
  }

  /** Deliveries handled one after the other by `step`, each atomically; the
      outputs are concatenated in order. */
  function Fold(step: (Tables, Delivery) -> Step, t: Tables, trace: seq<Delivery>): Step
    decreases |trace|
  {
    if trace == [] then Step(t, [])
    else
      var first := step(t, trace[0]);
      var rest := Fold(step, first.tables, trace[1..]);
      Step(rest.tables, first.out + rest.out)
  }

  /** The server handling a sequence of deliveries. */
  function Run(t: Tables, trace: seq<Delivery>): Step
  {
    Fold(Handle, t, trace)
  }

  lemma {:induction false} FoldConcat(step: (Tables, Delivery) -> Step, t: Tables, a: seq<Delivery>, b: seq<Delivery>)
    ensures var ra := Fold(step, t, a);
      var rb := Fold(step, ra.tables, b);
      Fold(step, t, a + b) == Step(rb.tables, ra.out + rb.out)
    decreases |a|
  {
    if a == [] {
      assert a + b == b;
    } else {
      assert (a + b)[0] == a[0];
      assert (a + b)[1..] == a[1..] + b;
      FoldConcat(step, step(t, a[0]).tables, a[1..], b);
    }
  }

  /** Handling a trace in two parts is handling it whole. */
  lemma RunConcat(t: Tables, a: seq<Delivery>, b: seq<Delivery>)
    ensures var ra := Run(t, a);
      var rb := Run(ra.tables, b);
      Run(t, a + b) == Step(rb.tables, ra.out + rb.out)
  {
    FoldConcat(Handle, t, a, b);
  }

  /** The server process: the two maps and the log of everything it emitted. */
  class SignalingServer {
    var rooms: map<RoomId, seq<SocketId>>
    var socketToRoom: map<SocketId, RoomId>
    var emitted: seq<Emission>

    function State(): Tables
      reads this
    {
      Tables(rooms, socketToRoom)
    }

    constructor ()
      ensures State() == Tables(map[], map[]) && emitted == []
    {
      rooms, socketToRoom, emitted := map[], map[], [];
    }

    method OnJoinRoom(s: SocketId, arg: JoinArg)
      modifies this
      ensures var step := Join(old(State()), s, arg);
        State() == step.tables && emitted == old(emitted) + step.out
    {
      if !arg.Text? || !Truthy(arg.s) {
        emitted := emitted + [Emission(ToSocket(s), Error(InvalidRoomMessage))];
        return;
      }
      var roomID := arg.s;
      var members := if roomID in rooms then rooms[roomID] else [];
      if |members| >= MaxParticipants {
        emitted := emitted + [Emission(ToSocket(s), RoomFull)];
        return;
      }
      members := Add(members, s);
      rooms := rooms[roomID := members];
      socketToRoom := socketToRoom[s := roomID];
      var otherClients := Remove(members, s);
      emitted := emitted + [Emission(ToSocket(s), AllUsers(otherClients))];
    }

    method OnSendingSignal(p: Option<SendingPayload>)
      modifies this
      ensures State() == old(State()) && emitted == old(emitted) + ForwardSending(p)
    {
      if p.None? || !Truthy(p.value.userToSignal) || p.value.signal.None? || !Truthy(p.value.callerID) {
        return;
      }
      emitted := emitted + [Emission(ToRoom(p.value.userToSignal), UserJoined(p.value.signal.value, p.value.callerID))];
    }

    method OnReturningSignal(s: SocketId, p: Option<ReturningPayload>)
      modifies this
      ensures State() == old(State()) && emitted == old(emitted) + ForwardReturning(s, p)
    {
      if p.None? || !Truthy(p.value.callerID) || p.value.signal.None? {
        return;
      }
      emitted := emitted + [Emission(ToRoom(p.value.callerID), ReceivingReturnedSignal(p.value.signal.value, s))];
    }

    method OnChange(s: SocketId, payload: string)
      modifies this
      ensures State() == old(State()) && emitted == old(emitted) + ForwardChange(old(State()), s, payload)
    {
      if s in socketToRoom && Truthy(socketToRoom[s]) {
        emitted := emitted + [Emission(ToRoomExcept(socketToRoom[s], s), Changed(payload))];
      }
    }

    method OnDisconnect(s: SocketId)
      modifies this
      ensures var step := Disconnect(old(State()), s);
        State() == step.tables && emitted == old(emitted) + step.out
    {
      if s !in socketToRoom || !Truthy(socketToRoom[s]) {
        return;
      }
      var roomID := socketToRoom[s];
      if roomID in rooms {
        var members := Remove(rooms[roomID], s);
        if |members| == 0 {
          rooms := rooms - {roomID};
        } else {
          rooms := rooms[roomID := members];
        }
      }
      socketToRoom := socketToRoom - {s};
      emitted := emitted + [Emission(ToRoomExcept(roomID, s), UserLeft(s))];
    }

    /** Dispatch of one received message to its handler. */
    method Receive(d: Delivery)
      modifies this
      ensures var step := Handle(old(State()), d);
        State() == step.tables && emitted == old(emitted) + step.out
    {
      match d.message
      case JoinRoom(arg) => OnJoinRoom(d.from, arg);
      case SendingSignal(p) => OnSendingSignal(p);
      case ReturningSignal(p) => OnReturningSignal(d.from, p);
      case Change(payload) => OnChange(d.from, payload);
      case Disconnected => OnDisconnect(d.from);
    }
  }
}
