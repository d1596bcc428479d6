/** The browser side of the call (client/src/pages/MeetPage.jsx): the
    dictionary of peer connections `peersRef.current` (one per remote socket id),
    the dictionary of remote media streams `remoteStreamsRef.current` and the
    array `remoteStreams` rebuilt from it, the local tracks, and the socket
    handlers that create, reuse, close and delete entries. Each handler runs
    atomically; an RTCPeerConnection is an opaque object that records the
    operations applied to it and whether it was closed; everything sent on the
    socket is appended to `outbox`. */
module Mesh {
  import opened OrderedSet
  import opened Protocol

  datatype TrackKind = Audio | Video

  /** A local MediaStreamTrack: its kind and the `enabled` flag the toggles flip. */
  class MediaTrack {
    const kind: TrackKind
    var enabled: bool

    constructor (kind: TrackKind)
      ensures this.kind == kind && enabled
    {
      this.kind := kind;
      enabled := true;
    }
  }

  /** The operations of an RTCPeerConnection that the page applies. */
  datatype PcOp =
    | TrackAdded(track: MediaTrack)
    | RemoteDescriptionSet(remote: Signal)
    | LocalDescriptionSet(local: Signal)
    | IceCandidateAdded(candidate: Signal)

  /** The session descriptions the browser generates for `createOffer()` and
      `createAnswer()`; their SDP text is not modelled. */
  const OfferDescription := Signal("offer", "", "")
  const AnswerDescription := Signal("answer", "", "")

  /** An RTCPeerConnection as `createPeerConnection(peerSocketId)` returns it:
      its callbacks are wired to `peerSocketId`. */
  class PeerConnection {
    const peerSocketId: SocketId
    var closed: bool
    var ops: seq<PcOp>
    var localDescription: Option<Signal>

    constructor (peerSocketId: SocketId)
      ensures this.peerSocketId == peerSocketId && !closed && ops == [] && localDescription == None
    {
      this.peerSocketId := peerSocketId;
      closed := false;
      ops := [];
      localDescription := None;
    }

    method AddTrack(track: MediaTrack)
      modifies this
      ensures ops == old(ops) + [TrackAdded(track)] && closed == old(closed)
      ensures localDescription == old(localDescription)
    {
      ops := ops + [TrackAdded(track)];
    }

    method SetRemoteDescription(d: Signal)
      modifies this
      ensures ops == old(ops) + [RemoteDescriptionSet(d)] && closed == old(closed)
      ensures localDescription == old(localDescription)
    {
      ops := ops + [RemoteDescriptionSet(d)];
    }

    method SetLocalDescription(d: Signal)
      modifies this
      ensures ops == old(ops) + [LocalDescriptionSet(d)] && closed == old(closed)
      ensures localDescription == Some(d)
    {
      ops := ops + [LocalDescriptionSet(d)];
      localDescription := Some(d);
    }

    method AddIceCandidate(c: Signal)
      modifies this
      ensures ops == old(ops) + [IceCandidateAdded(c)] && closed == old(closed)
      ensures localDescription == old(localDescription)
    {
      ops := ops + [IceCandidateAdded(c)];
    }

    method Close()
      modifies this
      ensures closed && ops == old(ops) && localDescription == old(localDescription)
    {
      closed := true;
    }
  }

  /** The `addTrack` calls for every local track, in the stream's track order. */
  function TrackOps(tracks: seq<MediaTrack>): seq<PcOp>
  {
    seq(|tracks|, i requires 0 <= i < |tracks| => TrackAdded(tracks[i]))
  }

  /** What `handleIncomingSignal` applies to the connection for a signal: an
      offer is set as remote description and answered; a candidate is added;
      anything else is ignored. */
  function IncomingOps(sig: Signal): seq<PcOp>
  {
    if sig.sdpType == "offer" then [RemoteDescriptionSet(sig), LocalDescriptionSet(AnswerDescription)]
    else if Truthy(sig.candidate) then [IceCandidateAdded(sig)]
    else []
  }

  /** What 'receiving returned signal' applies: an answer is set as remote
      description; a candidate is added; anything else is ignored. */
  function ReturnedOps(sig: Signal): seq<PcOp>
  {
    if sig.sdpType == "answer" then [RemoteDescriptionSet(sig)]
    else if Truthy(sig.candidate) then [IceCandidateAdded(sig)]
    else []
  }

  /** The 'sending signal' messages `createOfferForUser` emits for each user. */
  function OfferMessages(selfId: SocketId, users: seq<SocketId>): seq<ClientMessage>
  {
    seq(|users|, i requires 0 <= i < |users| => SendingSignal(Some(SendingPayload(users[i], selfId, Some(OfferDescription)))))
  }

  /** The index of the first track of the given kind: `getAudioTracks()[0]` or
      `getVideoTracks()[0]`. */
  function FirstOfKind(tracks: seq<MediaTrack>, kind: TrackKind): (r: Option<nat>)
    ensures r.Some? ==> r.value < |tracks| && tracks[r.value].kind == kind
    ensures r.Some? ==> forall j :: 0 <= j < r.value ==> tracks[j].kind != kind
    ensures r.None? ==> forall j :: 0 <= j < |tracks| ==> tracks[j].kind != kind
    decreases |tracks|
  {
    if tracks == [] then None
    else if tracks[0].kind == kind then Some(0)
    else
      match FirstOfKind(tracks[1..], kind)
      case None => None
      case Some(k) => Some(k + 1)
  }

  type StreamId = string

  /** One element of the `remoteStreams` array: `{ id, stream }`. */
  datatype StreamEntry = StreamEntry(id: SocketId, stream: StreamId)

  /** `Object.keys(remoteStreamsRef.current).map(sid => ({ id: sid, stream: remoteStreamsRef.current[sid] }))`,
      with `keys` the dictionary's key order. */
  function Listing(keys: seq<SocketId>, streams: map<SocketId, StreamId>): seq<StreamEntry>
    requires forall k :: k in keys ==> k in streams
  {
    seq(|keys|, i requires 0 <= i < |keys| => StreamEntry(keys[i], streams[keys[i]]))
  }

  /** The array shown on the page lists each remote stream of the dictionary
      exactly once, under its own id, and nothing else. */
  lemma ListingMirrorsStreams(keys: seq<SocketId>, streams: map<SocketId, StreamId>)
    requires NoDup(keys) && forall k :: k in keys <==> k in streams
    ensures var l := Listing(keys, streams);
      && (forall e :: e in l ==> e.id in streams && streams[e.id] == e.stream)
      && (forall id :: id in streams ==> exists e :: e in l && e.id == id)
      && (forall i, j :: 0 <= i < j < |l| ==> l[i].id != l[j].id)
  {
    var l := Listing(keys, streams);
    forall id | id in streams ensures exists e :: e in l && e.id == id {
      var i :| 0 <= i < |keys| && keys[i] == id;
      assert l[i].id == id;
    }
  }

  /** The page's bookkeeping for one call. `localStream` is both the React state
      and the `stream` the socket handlers close over: the socket is created
      right after it is obtained, so the handlers run only when it is present. */
  class MeetingClient {
    const roomID: string
    /** `socketRef.current.id` */
    const selfId: SocketId
    var localStream: Option<seq<MediaTrack>>
    /** `peersRef.current` */
    var peers: map<SocketId, PeerConnection>
    /** the key order and the contents of `remoteStreamsRef.current` */
    var streamKeys: seq<SocketId>
    var streams: map<SocketId, StreamId>
    /** the React state `remoteStreams` */
    var remoteStreams: seq<StreamEntry>
    /** everything emitted on `socketRef.current` */
    var outbox: seq<ClientMessage>

    /** Every stored connection is open and wired to the id it is stored under
        (so no connection is stored twice), and the rendered array mirrors the
        stream dictionary. */
    ghost predicate Valid()
      reads this, peers.Values
    {
      && (forall id :: id in peers ==> peers[id].peerSocketId == id && !peers[id].closed)
      && NoDup(streamKeys)
      && (forall id :: id in streamKeys <==> id in streams)
      && remoteStreams == Listing(streamKeys, streams)
    }

    /** The track `toggleMuteAudio` (Audio) or `toggleCamera` (Video) acts on, if any. */
    function TrackOf(kind: TrackKind): (r: Option<MediaTrack>)
      reads this
      ensures r.Some? ==> localStream.Some? && r.value in localStream.value && r.value.kind == kind
      ensures localStream.Some? && (exists i :: 0 <= i < |localStream.value| && localStream.value[i].kind == kind) ==> r.Some?
      ensures r.Some? ==>
        exists i :: 0 <= i < |localStream.value| && localStream.value[i] == r.value
          && (forall j :: 0 <= j < i ==> localStream.value[j].kind != kind)
    {
      match localStream
      case None => None
      case Some(tracks) =>
        match FirstOfKind(tracks, kind)
        case None => None
        case Some(i) => Some(tracks[i])
    }

    constructor (roomID: string, selfId: SocketId)
      ensures this.roomID == roomID && this.selfId == selfId
      ensures localStream == None && peers == map[] && streamKeys == [] && streams == map[]
      ensures remoteStreams == [] && outbox == []
      ensures Valid()
    {
      this.roomID := roomID;
      this.selfId := selfId;
      localStream := None;
      peers := map[];
      streamKeys := [];
      streams := map[];
      remoteStreams := [];
      outbox := [];
    }

    /** `getUserMedia` resolved: the local stream is kept. */
    method OnMediaReady(tracks: seq<MediaTrack>)
      requires Valid()
      modifies this
      ensures Valid()
      ensures localStream == Some(tracks)
      ensures peers == old(peers) && streamKeys == old(streamKeys) && streams == old(streams)
      ensures remoteStreams == old(remoteStreams) && outbox == old(outbox)
    {
      localStream := Some(tracks);
    }

    /** 'connect': ask to join the room. */
    method OnConnect()
      requires Valid()
      modifies this
      ensures Valid()
      ensures outbox == old(outbox) + [JoinRoom(Text(roomID))]
      ensures localStream == old(localStream) && peers == old(peers) && streamKeys == old(streamKeys)
      ensures streams == old(streams) && remoteStreams == old(remoteStreams)
    {
      outbox := outbox + [JoinRoom(Text(roomID))];
    }

    /** `pushRemoteStream(id, stream)`: store the stream under id (a new key goes
        last, an existing one keeps its place) and rebuild the array. */
    method PushRemoteStream(id: SocketId, stream: StreamId)
      requires Valid()
      modifies this
      ensures Valid()
      ensures streams == old(streams)[id := stream] && streamKeys == Add(old(streamKeys), id)
      ensures localStream == old(localStream) && peers == old(peers) && outbox == old(outbox)
    {
      streams := streams[id := stream];
      streamKeys := Add(streamKeys, id);
      remoteStreams := Listing(streamKeys, streams);
    }

    /** `removeRemoteStream(id)`: delete the key (nothing happens to an absent
        one) and rebuild the array. */
    method RemoveRemoteStream(id: SocketId)
      requires Valid()
      modifies this
      ensures Valid()
      ensures streams == old(streams) - {id} && streamKeys == Remove(old(streamKeys), id)
      ensures id !in old(streams) ==> unchanged(this)
      ensures localStream == old(localStream) && peers == old(peers) && outbox == old(outbox)
    {
      if id in streams {
        var keys, dict := Remove(streamKeys, id), streams - {id};
        assert NoDup(keys) && forall k :: k in keys <==> k in dict;
        streams, streamKeys := dict, keys;
        remoteStreams := Listing(keys, dict);
      } else {
        assert streams - {id} == streams;
        assert id !in streamKeys;
      }
    }

    /** `createPeerConnection(peer)` followed by `addTrack` for every local
        track, in the stream's order: a new open connection whose only
        operations so far are those track additions. */
    method NewConnectionWithTracks(peer: SocketId) returns (pc: PeerConnection)
      requires localStream.Some?
      ensures fresh(pc) && pc.peerSocketId == peer && !pc.closed
      ensures pc.ops == TrackOps(localStream.value) && pc.localDescription == None
    {
      pc := new PeerConnection(peer);
      var tracks := localStream.value;
      for i := 0 to |tracks|
        modifies pc
        invariant pc.ops == TrackOps(tracks[..i]) && !pc.closed && pc.localDescription == None
      {
        pc.AddTrack(tracks[i]);
      }
      assert tracks[..|tracks|] == tracks;
    }

    /** `createOfferForUser(u, stream)`: a new connection for u, with every local
        track added, is stored under u (replacing whatever was there) before the
        offer is set as local description and sent to u. */
    method CreateOfferForUser(u: SocketId)
      requires Valid() && localStream.Some?
      modifies this
      ensures localStream == old(localStream)
      ensures Valid()
      ensures u in peers && fresh(peers[u])
      ensures peers == old(peers)[u := peers[u]]
      ensures peers[u].ops == TrackOps(localStream.value) + [LocalDescriptionSet(OfferDescription)]
      ensures outbox == old(outbox) + OfferMessages(selfId, [u])
      ensures streamKeys == old(streamKeys) && streams == old(streams)
      ensures remoteStreams == old(remoteStreams)
    {
      var pc := NewConnectionWithTracks(u);
      peers := peers[u := pc];
      var offer := OfferDescription;
      pc.SetLocalDescription(offer);
      outbox := outbox + [SendingSignal(Some(SendingPayload(u, selfId, pc.localDescription)))];
    }

    /** 'all users': one `createOfferForUser` per listed user, in order. */
    method OnAllUsers(users: seq<SocketId>)
      requires Valid() && localStream.Some?
      modifies this
      ensures localStream == old(localStream)
      ensures Valid()
      ensures peers.Keys == old(peers).Keys + set u | u in users
      ensures forall id :: id in old(peers) && id !in users ==> peers[id] == old(peers[id])
      ensures forall u :: u in users ==>
        fresh(peers[u]) && peers[u].ops == TrackOps(localStream.value) + [LocalDescriptionSet(OfferDescription)]
      ensures outbox == old(outbox) + OfferMessages(selfId, users)
      ensures streamKeys == old(streamKeys) && streams == old(streams)
      ensures remoteStreams == old(remoteStreams)
    {
      for i := 0 to |users|
        invariant Valid() && localStream == old(localStream)
        invariant peers.Keys == old(peers).Keys + set u | u in users[..i]
        invariant forall id :: id in old(peers) && id !in users[..i] ==> peers[id] == old(peers[id])
        invariant forall u :: u in users[..i] ==>
          fresh(peers[u]) && peers[u].ops == TrackOps(localStream.value) + [LocalDescriptionSet(OfferDescription)]
        invariant outbox == old(outbox) + OfferMessages(selfId, users[..i])
        invariant streamKeys == old(streamKeys) && streams == old(streams) && remoteStreams == old(remoteStreams)
      {
        CreateOfferForUser(users[i]);
        assert users[..i + 1] == users[..i] + [users[i]];
      }
      assert users[..|users|] == users;
    }

    /** 'user joined' / `handleIncomingSignal(signal, callerID, stream)`: the
        connection stored for the caller is reused; only when there is none is
        one created (local tracks added) and stored. An offer is set as remote
        description and answered to the caller; a candidate is added; any other
        signal only leaves the possibly created entry behind. */
    method HandleIncomingSignal(sig: Signal, callerID: SocketId)
      requires Valid() && localStream.Some?
      modifies this, if callerID in peers then {peers[callerID]} else {}
      ensures localStream == old(localStream)
      ensures Valid()
      ensures callerID in old(peers) ==> peers == old(peers) && peers[callerID].ops == old(peers[callerID].ops) + IncomingOps(sig)
      ensures callerID !in old(peers) ==>
        && callerID in peers && fresh(peers[callerID])
        && peers == old(peers)[callerID := peers[callerID]]
        && peers[callerID].ops == TrackOps(localStream.value) + IncomingOps(sig)
      ensures outbox == old(outbox) + if sig.sdpType == "offer" then [ReturningSignal(Some(ReturningPayload(callerID, Some(AnswerDescription))))] else []
      ensures streamKeys == old(streamKeys) && streams == old(streams)
      ensures remoteStreams == old(remoteStreams)
    {
      var pc: PeerConnection;
      if callerID in peers {
        pc := peers[callerID];
      } else {
        pc := NewConnectionWithTracks(callerID);
        peers := peers[callerID := pc];
      }
      if sig.sdpType == "offer" {
        pc.SetRemoteDescription(sig);
        var answer := AnswerDescription;
        pc.SetLocalDescription(answer);
        outbox := outbox + [ReturningSignal(Some(ReturningPayload(callerID, pc.localDescription)))];
      } else if Truthy(sig.candidate) {
        pc.AddIceCandidate(sig);
      }
    }

    /** 'receiving returned signal': nothing for an id without a connection;
        otherwise an answer is set as remote description and a candidate added. */
    method OnReceivingReturnedSignal(sig: Signal, id: SocketId)
      requires Valid()
      modifies if id in peers then {peers[id]} else {}
      ensures Valid()
      ensures id in peers ==> peers[id].ops == old(peers[id].ops) + ReturnedOps(sig)
    {
      if id !in peers {
        return;
      }
      var pc := peers[id];
      if sig.sdpType == "answer" {
        pc.SetRemoteDescription(sig);
      } else if Truthy(sig.candidate) {
        pc.AddIceCandidate(sig);
      }
    }

    /** 'user left': the departed peer's connection, if any, is closed and
        deleted, and its stream removed; other entries stay as they are. */
    method OnUserLeft(id: SocketId)
      requires Valid()
      modifies this, if id in peers then {peers[id]} else {}
      ensures Valid()
      ensures peers == old(peers) - {id}
      ensures id in old(peers) ==> old(peers[id]).closed
      ensures streams == old(streams) - {id} && streamKeys == Remove(old(streamKeys), id)
      ensures id !in old(peers) && id !in old(streams) ==> unchanged(this)
      ensures localStream == old(localStream) && outbox == old(outbox)
    {
      if id in peers {
        ClosePeer(id);
      } else {
        assert peers - {id} == peers;
      }
      RemoveRemoteStream(id);
    }

    /** `peersRef.current[id].close(); delete peersRef.current[id];` */
    method ClosePeer(id: SocketId)
      requires Valid() && id in peers
      modifies this, peers[id]
      ensures Valid()
      ensures peers == old(peers) - {id} && old(peers[id]).closed
      ensures streamKeys == old(streamKeys) && streams == old(streams) && remoteStreams == old(remoteStreams)
      ensures localStream == old(localStream) && outbox == old(outbox)
    {
      var pc := peers[id];
      pc.Close();
      peers := peers - {id};
    }

    /** `pc.onconnectionstatechange` of a connection created for
        `pc.peerSocketId`: on "failed" or "closed" the connection is closed and
        the entry under its peer id deleted from both dictionaries; any other
        state changes nothing. */
    method OnConnectionStateChange(pc: PeerConnection, connectionState: string)
      requires Valid()
      modifies this, pc
      ensures Valid()
      ensures connectionState == "failed" || connectionState == "closed" ==>
        && pc.closed && pc.ops == old(pc.ops)
        && peers == old(peers) - {pc.peerSocketId}
        && streams == old(streams) - {pc.peerSocketId}
        && streamKeys == Remove(old(streamKeys), pc.peerSocketId)
        && localStream == old(localStream) && outbox == old(outbox)
      ensures !(connectionState == "failed" || connectionState == "closed") ==> unchanged(this, pc)
    {
      if connectionState == "failed" || connectionState == "closed" {
        pc.Close();
        peers := peers - {pc.peerSocketId};
        RemoveRemoteStream(pc.peerSocketId);
      }
    }

    /** `pc.onicecandidate`: a gathered candidate goes, as 'sending signal', to
        the peer the connection was created for; the end-of-candidates event
        (no candidate) sends nothing. */
    method OnIceCandidate(pc: PeerConnection, candidate: Option<Signal>)
      requires Valid()
      modifies this
      ensures Valid()
      ensures outbox == old(outbox) + if candidate.Some? then [SendingSignal(Some(SendingPayload(pc.peerSocketId, selfId, candidate)))] else []
      ensures localStream == old(localStream) && peers == old(peers) && streamKeys == old(streamKeys)
      ensures streams == old(streams) && remoteStreams == old(remoteStreams)
    {
      if candidate.Some? {
        outbox := outbox + [SendingSignal(Some(SendingPayload(pc.peerSocketId, selfId, candidate)))];
      }
    }

    /** `pc.ontrack` of a connection created for `pc.peerSocketId`: the stream
        the event carries, or else a newly created MediaStream (`created`), is
        stored under the peer id. A MediaStream always has a non-empty id, so the
        source's fallback branch for a stream without one never runs. */
    method OnTrack(pc: PeerConnection, eventStream: Option<StreamId>, created: StreamId)
      requires Valid()
      modifies this
      ensures Valid()
      ensures var shown := if eventStream.Some? then eventStream.value else created;
        streams == old(streams)[pc.peerSocketId := shown] && streamKeys == Add(old(streamKeys), pc.peerSocketId)
      ensures localStream == old(localStream) && peers == old(peers) && outbox == old(outbox)
    {
      var remoteStream := if eventStream.Some? then eventStream.value else created;
      PushRemoteStream(pc.peerSocketId, remoteStream);
    }

    /** Since each stored connection is wired to the id it is stored under, no
        connection object is stored under two ids. */
    lemma ConnectionsDistinct()
      requires Valid()
      ensures forall a, b :: a in peers && b in peers && a != b ==> peers[a] != peers[b]
    {
    }

    /** `handleLeave`: every connection is closed, both dictionaries and the
        array are emptied, and the socket is disconnected if it exists. */
    method HandleLeave()
      requires Valid()
      modifies this, peers.Values
      ensures Valid()
      ensures peers == map[] && streamKeys == [] && streams == map[] && remoteStreams == []
      ensures forall pc :: pc in old(peers).Values ==> pc.closed && pc.ops == old(pc.ops)
      ensures outbox == old(outbox) + if localStream.Some? then [Disconnected] else []
      ensures localStream == old(localStream)
    {
      var open := peers.Values;
      while open != {}
        invariant open <= old(peers).Values
        invariant peers == old(peers) && localStream == old(localStream) && outbox == old(outbox)
        invariant forall pc :: pc in old(peers).Values - open ==> pc.closed
        invariant forall pc :: pc in old(peers).Values ==> pc.ops == old(pc.ops)
        decreases open
      {
        var pc :| pc in open;
        pc.Close();
        open := open - {pc};
      }
      peers := map[];
      streams := map[];
      streamKeys := [];
      remoteStreams := [];
      if localStream.Some? {
        outbox := outbox + [Disconnected];
      }
    }

    /** Flip the first track of the kind, if there is a local stream holding one. */
    method ToggleTrack(kind: TrackKind)
      modifies if TrackOf(kind).Some? then {TrackOf(kind).value} else {}
      ensures TrackOf(kind) == old(TrackOf(kind))
      ensures TrackOf(kind).Some? ==> TrackOf(kind).value.enabled == !old(TrackOf(kind).value.enabled)
    {
      var track := TrackOf(kind);
      if track.Some? {
        track.value.enabled := !track.value.enabled;
      }
    }

    /** `toggleMuteAudio` */
    method ToggleMuteAudio()
      modifies if TrackOf(Audio).Some? then {TrackOf(Audio).value} else {}
      ensures TrackOf(Audio) == old(TrackOf(Audio))
      ensures TrackOf(Audio).Some? ==> TrackOf(Audio).value.enabled == !old(TrackOf(Audio).value.enabled)
    {
      ToggleTrack(Audio);
    }

    /** `toggleCamera` */
    method ToggleCamera()
      modifies if TrackOf(Video).Some? then {TrackOf(Video).value} else {}
      ensures TrackOf(Video) == old(TrackOf(Video))
      ensures TrackOf(Video).Some? ==> TrackOf(Video).value.enabled == !old(TrackOf(Video).value.enabled)
    {
      ToggleTrack(Video);
    }
  }

  /** Pressing a toggle twice leaves its track as it was; with no local stream
      (or no track of that kind) nothing is touched at all. */
  method ToggleTwiceRestores(c: MeetingClient, kind: TrackKind)
    modifies if c.TrackOf(kind).Some? then {c.TrackOf(kind).value} else {}
    ensures c.TrackOf(kind) == old(c.TrackOf(kind))
    ensures c.TrackOf(kind).Some? ==> c.TrackOf(kind).value.enabled == old(c.TrackOf(kind).value.enabled)
  {
    c.ToggleTrack(kind);
    c.ToggleTrack(kind);
  }
}
