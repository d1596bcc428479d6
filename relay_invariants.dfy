/** What the server's two maps keep true (server/server.js:17-18, 31-55, 83-99).
    Capacity, non-empty rooms and duplicate-free member lists hold after ANY
    sequence of messages. The agreement between `rooms` and `socketToRoom`
    holds as long as each socket joins at most once, which the browser client
    guarantees (it emits 'join room' once, on connect, without reconnection);
    the server does not check it, and a second join to another room breaks it. */
module RelayInvariants {
  import opened OrderedSet
  import opened Protocol
  import opened Relay

  /** No room holds more than MaxParticipants sockets. */
  ghost predicate Bounded(t: Tables)
  {
    forall room :: room in t.rooms ==> |t.rooms[room]| <= MaxParticipants
  }

  /** A room whose last member left is gone from the table. */
  ghost predicate NoEmptyRooms(t: Tables)
  {
    forall room :: room in t.rooms ==> t.rooms[room] != []
  }

  /** Each member list is a set. */
  ghost predicate DistinctMembers(t: Tables)
  {
    forall room :: room in t.rooms ==> NoDup(t.rooms[room])
  }

  /** The invariants that hold whatever the clients send. */
  ghost predicate WellFormed(t: Tables)
  {
    Bounded(t) && NoEmptyRooms(t) && DistinctMembers(t)
  }

  /** s is a member of room r exactly when the registry maps s to r. */
  ghost predicate Consistent(t: Tables)
  {
    && (forall room, s :: room in t.rooms && s in t.rooms[room] ==> s in t.socketToRoom && t.socketToRoom[s] == room)
    && (forall s :: s in t.socketToRoom ==> t.socketToRoom[s] in t.rooms && s in t.rooms[t.socketToRoom[s]])
  }

  /** Only validated (non-empty) room ids are recorded. */
  ghost predicate RoomIdsTruthy(t: Tables)
  {
    forall s :: s in t.socketToRoom ==> Truthy(t.socketToRoom[s])
  }

  ghost predicate Valid(t: Tables)
  {
    WellFormed(t) && Consistent(t) && RoomIdsTruthy(t)
  }

  /** Every socket that joins in the trace joins once, and was not registered before. */
  ghost predicate JoinsOnce(t: Tables, trace: seq<Delivery>)
  {
    forall i :: 0 <= i < |trace| && trace[i].message.JoinRoom? ==>
      && trace[i].from !in t.socketToRoom
      && forall j :: 0 <= j < i ==> !(trace[j].message.JoinRoom? && trace[j].from == trace[i].from)
  }

  /** The size check comes before `set.add`, so no join overfills a room;
      joins never empty a room nor duplicate a member. */
  lemma JoinPreservesWellFormed(t: Tables, s: SocketId, arg: JoinArg)
    requires WellFormed(t)
    ensures WellFormed(Join(t, s, arg).tables)
  {
    var t' := Join(t, s, arg).tables;
    if ValidRoomId(arg) && |Members(t, arg.s)| < MaxParticipants {
      assert t'.rooms[arg.s] == Add(Members(t, arg.s), s);
      assert NoDup(Members(t, arg.s));
    }
  }

  /** Disconnect only removes, and drops a room it leaves empty. */
  lemma DisconnectPreservesWellFormed(t: Tables, s: SocketId)
    requires WellFormed(t)
    ensures WellFormed(Disconnect(t, s).tables)
  {
    var t' := Disconnect(t, s).tables;
    if RoomOf(t, s).Some? {
      var room := RoomOf(t, s).value;
      if room in t'.rooms {
        assert t'.rooms[room] == Remove(t.rooms[room], s);
      }
    }
  }

  /** A join by a socket that is not yet registered (or re-joins its own room)
      keeps the two maps in agreement. */
  lemma JoinPreservesValid(t: Tables, s: SocketId, arg: JoinArg)
    requires Valid(t)
    requires s in t.socketToRoom ==> arg == Text(t.socketToRoom[s])
    ensures Valid(Join(t, s, arg).tables)
  {
    var t' := Join(t, s, arg).tables;
    assert WellFormed(t') by {
      JoinPreservesWellFormed(t, s, arg);
    }
    if ValidRoomId(arg) && |Members(t, arg.s)| < MaxParticipants {
      assert Consistent(t') by {
        JoinKeepsConsistent(t, s, arg.s);
      }
    }
  }

  /** After an accepted join the two maps still agree. */
  lemma JoinKeepsConsistent(t: Tables, s: SocketId, room: RoomId)
    requires Valid(t) && Truthy(room) && |Members(t, room)| < MaxParticipants
    requires s in t.socketToRoom ==> room == t.socketToRoom[s]
    ensures Consistent(Join(t, s, Text(room)).tables)
  {
    var t' := Join(t, s, Text(room)).tables;
    forall r, x | r in t'.rooms && x in t'.rooms[r]
      ensures x in t'.socketToRoom && t'.socketToRoom[x] == r
    {
      if r != room {
        assert x in t.rooms[r];
      }
    }
  }

  /** A newcomer to a room with room to spare goes last in the member list,
      the registry records its room, and its roster is the membership as it was
      before it arrived, in joining order. */
  lemma JoinAppendsNewcomer(t: Tables, s: SocketId, room: RoomId)
    requires Truthy(room) && |Members(t, room)| < MaxParticipants && s !in Members(t, room)
    ensures Join(t, s, Text(room)) ==
      Step(Tables(t.rooms[room := Members(t, room) + [s]], t.socketToRoom[s := room]),
           [Emission(ToSocket(s), AllUsers(Members(t, room)))])
  {
    RemoveAfterAdd(Members(t, room), s);
  }

  /** The server does not stop a registered socket from joining a second room:
      the socket then stays in the first room's set while the registry points
      at the second, and the maps no longer agree. */
  lemma SecondJoinBreaksConsistency(t: Tables, s: SocketId, other: RoomId)
    requires Valid(t)
    requires s in t.socketToRoom && Truthy(other) && other != t.socketToRoom[s]
    requires |Members(t, other)| < MaxParticipants
    ensures !Consistent(Join(t, s, Text(other)).tables)
  {
    var first := t.socketToRoom[s];
    var t' := Join(t, s, Text(other)).tables;
    assert s in t'.rooms[first] && t'.socketToRoom[s] == other;
  }

  /** After a registered socket disconnects it is in no room and not in the
      registry, and 'user left' is addressed to the room it was in, whose
      remaining members are exactly the others. */
  lemma DisconnectRemovesSocket(t: Tables, s: SocketId)
    requires Valid(t) && s in t.socketToRoom
    ensures var room := t.socketToRoom[s];
      var r := Disconnect(t, s);
      && s !in r.tables.socketToRoom
      && (forall other :: other in r.tables.rooms ==> s !in r.tables.rooms[other])
      && r.out == [Emission(ToRoomExcept(room, s), UserLeft(s))]
      && (forall x :: x in Members(r.tables, room) <==> x in t.rooms[room] && x != s)
  {
  }

  /** The members who stay behind keep their joining order: the leaver, at
      position k of its room's list, is spliced out of it. */
  lemma DisconnectKeepsOrder(t: Tables, s: SocketId, k: nat)
    requires Valid(t) && s in t.socketToRoom
    requires t.socketToRoom[s] in t.rooms && k < |t.rooms[t.socketToRoom[s]]| && t.rooms[t.socketToRoom[s]][k] == s
    ensures var m := t.rooms[t.socketToRoom[s]];
      Members(Disconnect(t, s).tables, t.socketToRoom[s]) == m[..k] + m[k + 1..]
  {
    var m := t.rooms[t.socketToRoom[s]];
    RemoveSplices(m, k);
  }

  lemma DisconnectPreservesValid(t: Tables, s: SocketId)
    requires Valid(t)
    ensures Valid(Disconnect(t, s).tables)
  {
    DisconnectPreservesWellFormed(t, s);
    if s in t.socketToRoom {
      DisconnectRemovesSocket(t, s);
      var room := t.socketToRoom[s];
      var t' := Disconnect(t, s).tables;
      forall x | x in t'.socketToRoom
        ensures t'.socketToRoom[x] in t'.rooms && x in t'.rooms[t'.socketToRoom[x]]
      {
        var rx := t.socketToRoom[x];
        assert x in t.rooms[rx];
        if rx == room {
          assert x in Members(t', room);
        }
      }
    }
  }

  lemma HandlePreservesWellFormed(t: Tables, d: Delivery)
    requires WellFormed(t)
    ensures WellFormed(Handle(t, d).tables)
  {
    match d.message
    case JoinRoom(arg) => JoinPreservesWellFormed(t, d.from, arg);
    case Disconnected => DisconnectPreservesWellFormed(t, d.from);
    case _ =>
  }

  lemma HandlePreservesValid(t: Tables, d: Delivery)
    requires Valid(t)
    requires d.message.JoinRoom? ==> d.from !in t.socketToRoom
    ensures Valid(Handle(t, d).tables)
  {
    match d.message
    case JoinRoom(arg) => JoinPreservesValid(t, d.from, arg);
    case Disconnected => DisconnectPreservesValid(t, d.from);
    case _ =>
  }

  /** Capacity, non-empty rooms and duplicate-free rooms survive any trace. */
  lemma {:induction false} RunPreservesWellFormed(t: Tables, trace: seq<Delivery>)
    requires WellFormed(t)
    ensures WellFormed(Run(t, trace).tables)
    decreases |trace|
  {
    if trace != [] {
      HandlePreservesWellFormed(t, trace[0]);
      RunPreservesWellFormed(Handle(t, trace[0]).tables, trace[1..]);
    }
  }

  /** All invariants, the agreement of the maps included, survive any trace in
      which each socket joins at most once. */
  lemma {:induction false} RunPreservesValid(t: Tables, trace: seq<Delivery>)
    requires Valid(t) && JoinsOnce(t, trace)
    ensures Valid(Run(t, trace).tables)
    decreases |trace|
  {
    if trace != [] {
      HandlePreservesValid(t, trace[0]);
      var t1 := Handle(t, trace[0]).tables;
      var rest := trace[1..];
      forall i | 0 <= i < |rest| && rest[i].message.JoinRoom?
        ensures rest[i].from !in t1.socketToRoom
        ensures forall j :: 0 <= j < i ==> !(rest[j].message.JoinRoom? && rest[j].from == rest[i].from)
      {
        assert rest[i] == trace[i + 1];
        forall j | 0 <= j < i ensures !(rest[j].message.JoinRoom? && rest[j].from == rest[i].from) {
          assert rest[j] == trace[j + 1];
        }
      }
      RunPreservesValid(t1, rest);
    }
  }

  /** The server starts with both maps empty, which satisfies every invariant. */
  lemma StartIsValid()
    ensures Valid(Tables(map[], map[]))
  {
  }
}
