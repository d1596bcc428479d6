/** Runs of the server over whole traces (the room cap seen from the fifth
    joiner), and one offer/answer/candidate exchange between two browsers with
    each message relayed by the server. */
module Scenarios {
  import opened OrderedSet
  import opened Protocol
  import opened Relay
  import opened RelayInvariants
  import opened Mesh

  /** The server's tables when exactly the sockets in m are connected, all in `room`. */
  function Roster(room: RoomId, m: seq<SocketId>): (t: Tables)
    ensures Members(t, room) == m
  {
    Tables(if m == [] then map[] else map[room := m], map x | x in m :: room)
  }

  function JoinOf(s: SocketId, room: RoomId): Delivery
  {
    Delivery(s, JoinRoom(Text(room)))
  }

  /** The first delivery of a trace is handled, then the rest. */
  lemma RunOne(t: Tables, d: Delivery, rest: seq<Delivery>)
    ensures var first := Handle(t, d);
      var r := Run(first.tables, rest);
      Run(t, [d] + rest) == Step(r.tables, first.out + r.out)
  {
    assert ([d] + rest)[1..] == rest;
  }

  /** A newcomer to a room with space is told who is there and is appended. */
  lemma JoinIntoRoster(room: RoomId, m: seq<SocketId>, s: SocketId)
    requires Truthy(room) && |m| < MaxParticipants && s !in m
    ensures Join(Roster(room, m), s, Text(room)) == Step(Roster(room, m + [s]), [Emission(ToSocket(s), AllUsers(m))])
  {
    JoinAppendsNewcomer(Roster(room, m), s, room);
    RosterGrows(room, m, s);
  }

  /** The tables of a one-room server, once s is appended to the room and recorded. */
  lemma RosterGrows(room: RoomId, m: seq<SocketId>, s: SocketId)
    ensures var t := Roster(room, m);
      Tables(t.rooms[room := m + [s]], t.socketToRoom[s := room]) == Roster(room, m + [s])
  {
    assert forall a :: a in m + [s] <==> a in m || a == s;
  }

  /** The same step at the head of a trace. */
  lemma JoinRoster(room: RoomId, m: seq<SocketId>, s: SocketId, rest: seq<Delivery>)
    requires Truthy(room) && |m| < MaxParticipants && s !in m
    ensures var r := Run(Roster(room, m + [s]), rest);
      Run(Roster(room, m), [JoinOf(s, room)] + rest) == Step(r.tables, [Emission(ToSocket(s), AllUsers(m))] + r.out)
  {
    JoinIntoRoster(room, m, s);
    RunOne(Roster(room, m), JoinOf(s, room), rest);
  }

  /** A joiner to a full room is turned away and the tables do not change. */
  lemma JoinFullRoster(room: RoomId, m: seq<SocketId>, s: SocketId, rest: seq<Delivery>)
    requires Truthy(room) && |m| == MaxParticipants
    ensures var r := Run(Roster(room, m), rest);
      Run(Roster(room, m), [JoinOf(s, room)] + rest) == Step(r.tables, [Emission(ToSocket(s), RoomFull)] + r.out)
  {
    RunOne(Roster(room, m), JoinOf(s, room), rest);
  }

  /** The registry of a one-room server, once s is deleted from it. */
  lemma RegistryWithout(room: RoomId, m: seq<SocketId>, s: SocketId)
    ensures Roster(room, m).socketToRoom - {s} == Roster(room, Remove(m, s)).socketToRoom
  {
    var m' := Remove(m, s);
    assert forall a :: a in m' <==> a in m && a != s;
  }

  /** Disconnect of a registered socket whose room keeps other members. */
  lemma DisconnectLeavingOthers(t: Tables, s: SocketId, room: RoomId)
    requires RoomOf(t, s) == Some(room) && room in t.rooms && Remove(t.rooms[room], s) != []
    ensures Disconnect(t, s)
      == Step(Tables(t.rooms[room := Remove(t.rooms[room], s)], t.socketToRoom - {s}), [Emission(ToRoomExcept(room, s), UserLeft(s))])
  {
  }

  lemma RemoveLeavesOthers(m: seq<SocketId>, s: SocketId)
    requires s in m && NoDup(m) && |m| > 1
    ensures Remove(m, s) != []
  {
    assert |Remove(m, s)| == |m| - 1;
  }

  /** Disconnecting a member of a room that keeps others. */
  lemma DisconnectFromRoster(room: RoomId, m: seq<SocketId>, s: SocketId)
    requires Truthy(room) && s in m && NoDup(m) && |m| > 1
    ensures Disconnect(Roster(room, m), s)
      == Step(Roster(room, Remove(m, s)), [Emission(ToRoomExcept(room, s), UserLeft(s))])
  {
    var t, m' := Roster(room, m), Remove(m, s);
    var after := Tables(t.rooms[room := m'], t.socketToRoom - {s});
    assert m' != [] by {
      RemoveLeavesOthers(m, s);
    }
    assert Disconnect(t, s) == Step(after, [Emission(ToRoomExcept(room, s), UserLeft(s))]) by {
      assert room in t.rooms;
      assert RoomOf(t, s) == Some(room);
      DisconnectLeavingOthers(t, s, room);
    }
    assert after == Roster(room, m') by {
      assert t.rooms == map[room := m];
      RegistryWithout(room, m, s);
    }
  }

  /** A member that disconnects is announced to the room and filtered out of it. */
  lemma LeaveRoster(room: RoomId, m: seq<SocketId>, s: SocketId)
    requires Truthy(room) && s in m && NoDup(m) && |m| > 1
    ensures Run(Roster(room, m), [Delivery(s, Disconnected)])
      == Step(Roster(room, Remove(m, s)), [Emission(ToRoomExcept(room, s), UserLeft(s))])
  {
    DisconnectFromRoster(room, m, s);
    RunOne(Roster(room, m), Delivery(s, Disconnected), []);
    assert [Delivery(s, Disconnected)] + [] == [Delivery(s, Disconnected)];
  }

  lemma RemoveSecond(x: SocketId, y: SocketId, z: SocketId, w: SocketId)
    requires Distinct4(x, y, z, w)
    ensures Remove([x, y, z, w], y) == [x, z, w]
  {
    assert [x, y, z, w][1..] == [y, z, w] && [y, z, w][1..] == [z, w];
    assert Remove([z, w], y) == [z, w];
  }

  /** Four pairwise different socket ids. */
  predicate Distinct4(x: SocketId, y: SocketId, z: SocketId, w: SocketId)
  {
    x != y && x != z && x != w && y != z && y != w && z != w
  }

  function Leave(s: SocketId): Delivery
  {
    Delivery(s, Disconnected)
  }

  /** The last two steps of the scenario below: a fifth joiner finds the room
      full, then the second member leaves. */
  lemma FullRoomFromFour(room: RoomId, x: SocketId, y: SocketId, z: SocketId, w: SocketId, v: SocketId)
    requires Truthy(room) && Distinct4(x, y, z, w)
    ensures Run(Roster(room, [x, y, z, w]), [JoinOf(v, room), Leave(y)])
      == Step(Roster(room, [x, z, w]), [Emission(ToSocket(v), RoomFull), Emission(ToRoomExcept(room, y), UserLeft(y))])
  {
    assert NoDup([x, y, z, w]);
    RemoveSecond(x, y, z, w);
    LeaveRoster(room, [x, y, z, w], y);
    JoinFullRoster(room, [x, y, z, w], v, [Leave(y)]);
    assert [JoinOf(v, room)] + [Leave(y)] == [JoinOf(v, room), Leave(y)];
  }

  /** Each socket of m, in order, asks to join `room`. */
  function JoinsOf(m: seq<SocketId>, room: RoomId): (trace: seq<Delivery>)
    ensures |trace| == |m|
  {
    seq(|m|, i requires 0 <= i < |m| => JoinOf(m[i], room))
  }

  /** What the sockets of m are told when they join in order: each one the list
      of those that joined before it. */
  function Greetings(m: seq<SocketId>): (out: seq<Emission>)
    ensures |out| == |m|
  {
    seq(|m|, i requires 0 <= i < |m| => Emission(ToSocket(m[i]), AllUsers(m[..i])))
  }

  lemma JoinsOfSnoc(init: seq<SocketId>, s: SocketId, room: RoomId)
    ensures JoinsOf(init + [s], room) == JoinsOf(init, room) + [JoinOf(s, room)]
  {
  }

  lemma GreetingsSnoc(init: seq<SocketId>, s: SocketId)
    ensures Greetings(init + [s]) == Greetings(init) + [Emission(ToSocket(s), AllUsers(init))]
  {
    var m := init + [s];
    forall i | 0 <= i < |init| ensures m[..i] == init[..i] {
      assert m[..i] == init[..i];
    }
    assert m[..|init|] == init;
  }

  lemma NoDupSnoc(init: seq<SocketId>, s: SocketId)
    requires NoDup(init + [s])
    ensures NoDup(init) && s !in init
  {
    var m := init + [s];
    forall i, j | 0 <= i < j < |init| ensures init[i] != init[j] {
      assert init[i] == m[i] && init[j] == m[j];
    }
    forall i | 0 <= i < |init| ensures init[i] != s {
      assert init[i] == m[i] && s == m[|init|];
    }
  }

  /** Up to MaxParticipants distinct sockets joining a fresh server one after
      the other all get in: the room lists them in joining order, the registry
      maps each to the room, and each is greeted with its predecessors. */
  lemma {:induction false} JoinsFromEmpty(room: RoomId, m: seq<SocketId>)
    requires Truthy(room) && NoDup(m) && |m| <= MaxParticipants
    ensures Run(Tables(map[], map[]), JoinsOf(m, room)) == Step(Roster(room, m), Greetings(m))
    decreases |m|
  {
    if m == [] {
      assert Roster(room, []) == Tables(map[], map[]);
    } else {
      var init, s := m[..|m| - 1], m[|m| - 1];
      assert m == init + [s];
      NoDupSnoc(init, s);
      var empty := Tables(map[], map[]);
      var greet := Emission(ToSocket(s), AllUsers(init));
      assert Run(empty, JoinsOf(init, room)) == Step(Roster(room, init), Greetings(init)) by {
        JoinsFromEmpty(room, init);
      }
      assert Run(Roster(room, init), [JoinOf(s, room)]) == Step(Roster(room, m), [greet]) by {
        JoinRoster(room, init, s, []);
        assert [JoinOf(s, room)] + [] == [JoinOf(s, room)];
      }
      assert Run(empty, JoinsOf(init, room) + [JoinOf(s, room)]) == Step(Roster(room, m), Greetings(init) + [greet]) by {
        RunConcat(empty, JoinsOf(init, room), [JoinOf(s, room)]);
      }
      JoinsOfSnoc(init, s, room);
      GreetingsSnoc(init, s);
    }
  }

  /** Four distinct sockets join a room one after the other and each is told
      who was already there, in joining order; a fifth is told the room is full
      and recorded nowhere. When the second joiner then disconnects, 'user left'
      goes to the room minus that socket, and the room keeps the other three in
      joining order. */
  lemma FullRoomScenario(room: RoomId, x: SocketId, y: SocketId, z: SocketId, w: SocketId, v: SocketId)
    requires Truthy(room) && Distinct4(x, y, z, w)
    ensures Run(Tables(map[], map[]), JoinsOf([x, y, z, w], room) + [JoinOf(v, room), Leave(y)])
      == Step(Roster(room, [x, z, w]), Greetings([x, y, z, w]) + [Emission(ToSocket(v), RoomFull), Emission(ToRoomExcept(room, y), UserLeft(y))])
  {
    assert NoDup([x, y, z, w]);
    JoinsFromEmpty(room, [x, y, z, w]);
    FullRoomFromFour(room, x, y, z, w, v);
    RunConcat(Tables(map[], map[]), JoinsOf([x, y, z, w], room), [JoinOf(v, room), Leave(y)]);
  }

  /** One negotiation between a newcomer and a member of the room, each message
      carried by the server's relay functions from one page's socket to the
      other's handler: the newcomer's offer ('sending signal' to 'user joined'),
      the member's answer ('returning signal' to 'receiving returned signal'),
      then one ICE candidate gathered by the member ('sending signal' to
      'user joined' again). Afterwards each page holds a connection under the
      other's id, and the two connections have seen the offer and the answer
      on opposite sides, the newcomer's also the candidate. */
  method OfferAnswerExchange(newcomer: MeetingClient, member: MeetingClient, candidate: Signal)
    requires newcomer != member && newcomer.Valid() && member.Valid()
    requires newcomer.localStream.Some? && member.localStream.Some?
    requires Truthy(newcomer.selfId) && Truthy(member.selfId)
    requires newcomer.selfId !in member.peers
    requires candidate.sdpType != "offer" && Truthy(candidate.candidate)
    modifies newcomer, member
    ensures newcomer.Valid() && member.Valid()
    ensures newcomer.localStream == old(newcomer.localStream) && member.localStream == old(member.localStream)
    ensures member.selfId in newcomer.peers && newcomer.selfId in member.peers
    ensures newcomer.peers[member.selfId].ops ==
      TrackOps(newcomer.localStream.value)
        + [LocalDescriptionSet(OfferDescription), RemoteDescriptionSet(AnswerDescription), IceCandidateAdded(candidate)]
    ensures member.peers[newcomer.selfId].ops ==
      TrackOps(member.localStream.value)
        + [RemoteDescriptionSet(OfferDescription), LocalDescriptionSet(AnswerDescription)]
    ensures newcomer.outbox == old(newcomer.outbox) + OfferMessages(newcomer.selfId, [member.selfId])
    ensures member.outbox == old(member.outbox)
      + [ReturningSignal(Some(ReturningPayload(newcomer.selfId, Some(AnswerDescription)))),
         SendingSignal(Some(SendingPayload(newcomer.selfId, member.selfId, Some(candidate))))]
  {
    // The newcomer offers; the server turns the 'sending signal' into a 'user joined' for the member.
    newcomer.CreateOfferForUser(member.selfId);
    var offered := ForwardSending(newcomer.outbox[|newcomer.outbox| - 1].sending);
    assert offered == [Emission(ToRoom(member.selfId), UserJoined(OfferDescription, newcomer.selfId))];
    member.HandleIncomingSignal(offered[0].message.signal, offered[0].message.callerID);

    // The member answers; the server stamps the answer with the member's id for the newcomer.
    var answered := ForwardReturning(member.selfId, member.outbox[|member.outbox| - 1].returning);
    assert answered == [Emission(ToRoom(newcomer.selfId), ReceivingReturnedSignal(AnswerDescription, member.selfId))];
    newcomer.OnReceivingReturnedSignal(answered[0].message.returned, answered[0].message.id);

    // The member's connection gathers a candidate, which reaches the newcomer's connection.
    member.OnIceCandidate(member.peers[newcomer.selfId], Some(candidate));
    var trickled := ForwardSending(member.outbox[|member.outbox| - 1].sending);
    assert trickled == [Emission(ToRoom(newcomer.selfId), UserJoined(candidate, member.selfId))];
    newcomer.HandleIncomingSignal(trickled[0].message.signal, trickled[0].message.callerID);
  }
}
