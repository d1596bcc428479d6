# Signaling core of a browser video call, in Dafny

The repository is a small mesh video-call application. Browsers join a room on
a Socket.IO signaling server, and each browser opens one WebRTC peer connection
to every other member of the room. This project models the two stateful halves
of that signaling and proves properties about them:

- **The server** (`server/server.js`). It keeps two maps: the room table
  `rooms` (room id to a `Set` of socket ids) and the session registry
  `socketToRoom`. It has five handlers: 'join room', 'sending signal',
  'returning signal', 'change' and 'disconnect'.
  - Module `Relay` states each handler as a function from the tables before to
    the tables after, plus the messages emitted.
  - Class `Relay.SignalingServer` holds the two maps and the log of emitted
    messages. Its methods update the maps step by step, as the JavaScript does,
    and are proved equal to those functions.
  - Module `RelayInvariants` proves what the maps keep true over any sequence
    of messages.
  - Module `Scenarios` follows whole traces through the server, and one
    offer/answer/candidate exchange between two pages with every message
    relayed by the server's functions.
- **The browser page** (`client/src/pages/MeetPage.jsx`). Class
  `Mesh.MeetingClient` holds:
  - the dictionary of peer connections `peersRef.current`;
  - the dictionary of remote streams `remoteStreamsRef.current`, with its key
    order, and the `remoteStreams` array rebuilt from it;
  - the local tracks;
  - a log of what the page sends on its socket.

  Its methods are the socket handlers, `createOfferForUser`,
  `handleIncomingSignal`, the peer-connection callbacks, `handleLeave` and the
  two toggles. An `RTCPeerConnection` is an opaque `Mesh.PeerConnection` object.
  It records the operations applied to it and whether it was closed.

Shared modelling choices:

- A JavaScript `Set`, and the key order of a plain object, is a sequence
  without duplicates in insertion order (module `OrderedSet`).
- JavaScript truthiness is explicit. An identifier field is a string, and `""`
  stands for absent or falsy. An object that may be absent is an `Option`. The
  'join room' argument is either a string or not one.
- A message target is symbolic: `socket.emit` is `ToSocket`, `io.to(id)` is
  `ToRoom`, and `socket.to(room)` is `ToRoomExcept`.
- The model runs every handler atomically. Node does run the server's handlers
  that way. The browser's 'user joined' and 'receiving returned signal'
  handlers are `async`, and other handlers can run at each `await`; the model
  does not interleave them (see "## Left out").

Two behaviours of the code are modelled as written:

- The server does not reject a second 'join room' from a socket that is
  already in a room. The socket is then in two member sets while the registry
  names only the second room. `RelayInvariants.SecondJoinBreaksConsistency`
  proves that this breaks the agreement of the two maps. The map invariants
  are therefore proved for traces in which each socket joins at most once,
  which is what the browser page does: it emits 'join room' once, on
  'connect', with reconnection off.
- Malformed 'sending signal' and 'returning signal' payloads are dropped with
  no reply (only a malformed 'join room' gets an error message).

## Model

| member | source | states |
|---|---|---|
| OrderedSet.Add | server/server.js:48 | `set.add(x)`: x is then present, membership is the old one plus x, an existing element leaves the order unchanged, a new one goes last, and no duplicates appear |
| OrderedSet.Remove | server/server.js:88 | `set.delete(x)`: x is gone, membership is the old one minus x, an absent x changes nothing, duplicates never appear, and the length drops by exactly one when x was present; the elements it keeps are in their original order (`OrderedSet.RemoveSplices`) |
| OrderedSet.RemoveSplices | server/server.js:88 | removing the element at position k of a set splices it out: the elements before and after it keep their order |
| OrderedSet.RemoveAfterAdd | server/server.js:48-53 | adding a new socket and then filtering it out gives back the original sequence |
| Relay.Members | server/server.js:37 | a room missing from the table has no members |
| Relay.RoomOf | server/server.js:76-77 | the socket's room is known exactly when the registry holds a truthy room id for it, and it is that id |
| Relay.Join | server/server.js:31-55 | exactly one reply, to the joiner only. An invalid room id gets 'Invalid room ID' and a room of 4 gets 'room full', both with the tables unchanged. Otherwise the joiner is added to the room and recorded in the registry, other rooms are untouched, the room stays at most 4, and the 'all users' roster is the other members. For a newcomer the roster is exactly the previous membership, in joining order |
| Relay.Disconnect | server/server.js:83-99 | an unregistered socket changes nothing and emits nothing. A registered one is deleted from the registry and from its room's set; the room entry exists afterwards iff someone else is in it; other rooms are untouched; one 'user left' goes to the room minus the leaver |
| Relay.ForwardSending | server/server.js:57-64 | nothing is emitted iff the payload, `userToSignal`, `signal` or `callerID` is missing or falsy; otherwise exactly one 'user joined' carrying the given signal and caller id goes to `userToSignal` |
| Relay.ForwardReturning | server/server.js:66-73 | nothing is emitted iff the payload, `callerID` or `signal` is missing; otherwise one 'receiving returned signal' goes to `callerID`, stamped with the sender's own socket id |
| Relay.ForwardChange | server/server.js:75-81 | the payload is relayed to the sender's room, sender excepted, iff the sender has a recorded room |
| Relay.Handle | server/server.js:28-102 | only 'join room' and 'disconnect' change the tables, and only 'join room' adds a registry entry, for the sender |
| Relay.RunConcat | server/server.js:28-102 | handling a sequence of messages in two parts is the same as handling it whole |
| Relay.SignalingServer.constructor | server/server.js:17-18 | both maps start empty and nothing has been emitted |
| Relay.SignalingServer.OnJoinRoom | server/server.js:31-55 | the in-place updates produce exactly `Join`'s tables and append exactly its reply to the log |
| Relay.SignalingServer.OnSendingSignal | server/server.js:57-64 | the maps are unchanged and the log grows by exactly `ForwardSending`'s output |
| Relay.SignalingServer.OnReturningSignal | server/server.js:66-73 | the maps are unchanged and the log grows by exactly `ForwardReturning`'s output |
| Relay.SignalingServer.OnChange | server/server.js:75-81 | the maps are unchanged and the log grows by exactly `ForwardChange`'s output |
| Relay.SignalingServer.OnDisconnect | server/server.js:83-99 | the in-place deletions produce exactly `Disconnect`'s tables and its 'user left' |
| Relay.SignalingServer.Receive | server/server.js:28-102 | dispatching by event name has the effect of `Handle` |
| RelayInvariants.JoinPreservesWellFormed | server/server.js:39-49 | after any join, with any argument, no room exceeds 4, no room is empty and no room lists a socket twice |
| RelayInvariants.DisconnectPreservesWellFormed | server/server.js:86-94 | the same three properties survive any disconnect; an emptied room is deleted |
| RelayInvariants.JoinPreservesValid | server/server.js:47-50 | a join by an unregistered socket keeps both maps in agreement in both directions, with only truthy room ids recorded |
| RelayInvariants.JoinKeepsConsistent | server/server.js:47-50 | after an accepted join by a socket that is not registered to another room, every member of every room is registered to that room, and every registered socket is in its room |
| RelayInvariants.JoinAppendsNewcomer | server/server.js:47-54 | a newcomer to a room with space goes last in the member list, is recorded in the registry, and is sent exactly the previous membership |
| RelayInvariants.SecondJoinBreaksConsistency | server/server.js:31-55 | a registered socket that joins a different room with space is not rejected, and the maps then disagree |
| RelayInvariants.DisconnectRemovesSocket | server/server.js:84-98 | after a registered socket disconnects it is in no room and not in the registry, and its old room keeps exactly the other members |
| RelayInvariants.DisconnectKeepsOrder | server/server.js:86-93 | after a member disconnects, the others in its room stay in joining order: the leaver is spliced out of the member list |
| RelayInvariants.DisconnectPreservesValid | server/server.js:83-99 | disconnect keeps the maps in agreement |
| RelayInvariants.HandlePreservesWellFormed | server/server.js:28-102 | every handler keeps capacity, non-empty rooms and distinct members |
| RelayInvariants.HandlePreservesValid | server/server.js:28-102 | every handler keeps the maps in agreement, provided a joiner is not already registered |
| RelayInvariants.RunPreservesWellFormed | server/server.js:17-18 | capacity, non-empty rooms and distinct members hold after any sequence of messages |
| RelayInvariants.RunPreservesValid | server/server.js:17-18 | the agreement of the maps holds after any sequence of messages in which each socket joins at most once |
| RelayInvariants.StartIsValid | server/server.js:17-18 | the empty maps satisfy every invariant |
| Scenarios.JoinIntoRoster | server/server.js:37-54 | joining a one-room server with fewer than 4 members appends the joiner, registers it and greets it with the members already there |
| Scenarios.JoinRoster | server/server.js:37-54 | the same step at the head of any trace |
| Scenarios.JoinFullRoster | server/server.js:40-44 | a joiner to a room of 4 is told 'room full', and the rest of the trace runs on unchanged tables |
| Scenarios.DisconnectFromRoster | server/server.js:83-99 | a member leaving a room that keeps others is announced to the rest of the room and filtered out of both maps |
| Scenarios.LeaveRoster | server/server.js:83-99 | the same as a one-message trace |
| Scenarios.JoinsFromEmpty | server/server.js:31-55 | up to 4 distinct sockets joining a fresh server all get in, in joining order, and each is greeted with its predecessors |
| Scenarios.FullRoomFromFour | server/server.js:40-99 | in a full room a fifth joiner is refused, and when the second member then leaves the other three stay in order |
| Scenarios.FullRoomScenario | server/server.js:31-99 | four joins, a refused fifth, then a departure, from an empty server: the exact messages and the final maps |
| Scenarios.OfferAnswerExchange | client/src/pages/MeetPage.jsx:75-99 | a newcomer's offer, the member's answer and one member candidate, each relayed by the server into the other page's handler, leave each page a connection stored under the other's id: the newcomer's has set the offer locally, the answer remotely and added the candidate; the member's has set the offer remotely and the answer locally; and each page has sent exactly those messages |
| Mesh.FirstOfKind | client/src/pages/MeetPage.jsx:277 | `getAudioTracks()[0]` / `getVideoTracks()[0]`: the first track of the kind, or none when there is none |
| Mesh.ListingMirrorsStreams | client/src/pages/MeetPage.jsx:25-28 | the rendered array lists each stored remote stream exactly once, under its own id, and nothing else |
| Mesh.MeetingClient.TrackOf | client/src/pages/MeetPage.jsx:276-277 | a toggle acts on the first track of the right kind in the local stream, found whenever the stream holds one, and only when there is a local stream |
| Mesh.MeetingClient.constructor | client/src/pages/MeetPage.jsx:13-18 | all dictionaries and the array start empty, with no local stream, and the invariant holds |
| Mesh.MeetingClient.OnMediaReady | client/src/pages/MeetPage.jsx:46-52 | the local stream is kept and nothing else changes |
| Mesh.MeetingClient.OnConnect | client/src/pages/MeetPage.jsx:59-63 | exactly one 'join room' with the page's room id is sent |
| Mesh.MeetingClient.PushRemoteStream | client/src/pages/MeetPage.jsx:23-30 | the stream is stored under the id (a new key goes last) and the array is rebuilt from the dictionary |
| Mesh.MeetingClient.RemoveRemoteStream | client/src/pages/MeetPage.jsx:32-39 | the id is deleted from the dictionary and its key order, the array is rebuilt, and an absent id changes nothing |
| Mesh.MeetingClient.NewConnectionWithTracks | client/src/pages/MeetPage.jsx:150-153 | a new open connection wired to the peer, whose only operations are one `addTrack` per local track, in order |
| Mesh.MeetingClient.CreateOfferForUser | client/src/pages/MeetPage.jsx:149-170 | a new connection with all local tracks is stored under the user, replacing any old entry; the offer is its local description; one 'sending signal' with that offer goes to the user |
| Mesh.MeetingClient.OnAllUsers | client/src/pages/MeetPage.jsx:65-72 | one new offering connection per listed user, older entries for unlisted ids untouched, and the offers sent in list order (under the atomic-handler abstraction; see "## Left out") |
| Mesh.MeetingClient.HandleIncomingSignal | client/src/pages/MeetPage.jsx:173-206 | an existing connection for the caller is reused; otherwise one with all local tracks is created and stored. An offer is set and answered to the caller, a candidate is added, anything else is ignored |
| Mesh.MeetingClient.OnReceivingReturnedSignal | client/src/pages/MeetPage.jsx:81-99 | for an unknown id nothing happens; otherwise an answer is set as remote description, a candidate is added, anything else is ignored |
| Mesh.MeetingClient.OnUserLeft | client/src/pages/MeetPage.jsx:101-109 | the departed peer's connection is closed and deleted and its stream removed; an unknown id with no stream changes nothing |
| Mesh.MeetingClient.ClosePeer | client/src/pages/MeetPage.jsx:103-107 | the stored connection is closed and its entry deleted; nothing else changes |
| Mesh.MeetingClient.OnConnectionStateChange | client/src/pages/MeetPage.jsx:245-252 | on "failed" or "closed" the connection is closed and the entry under its peer id is deleted from both dictionaries; any other state changes nothing |
| Mesh.MeetingClient.OnIceCandidate | client/src/pages/MeetPage.jsx:218-227 | a gathered candidate goes to the connection's peer as 'sending signal'; the end-of-candidates event sends nothing |
| Mesh.MeetingClient.OnTrack | client/src/pages/MeetPage.jsx:230-242 | the arriving stream, or else a newly created one, is stored under the connection's peer id |
| Mesh.MeetingClient.ConnectionsDistinct | client/src/pages/MeetPage.jsx:13 | no connection object is stored under two peer ids |
| Mesh.MeetingClient.HandleLeave | client/src/pages/MeetPage.jsx:258-273 | every stored connection is closed, both dictionaries and the array are emptied, and the socket is disconnected |
| Mesh.MeetingClient.ToggleTrack | client/src/pages/MeetPage.jsx:275-291 | the first track of the kind, if any, has its `enabled` flag flipped |
| Mesh.MeetingClient.ToggleMuteAudio | client/src/pages/MeetPage.jsx:275-282 | the first audio track, if any, is flipped |
| Mesh.MeetingClient.ToggleCamera | client/src/pages/MeetPage.jsx:284-291 | the first video track, if any, is flipped |
| Mesh.ToggleTwiceRestores | client/src/pages/MeetPage.jsx:275-291 | pressing a toggle twice restores the track's state |

## Left out

- Express, HTTP middleware, CORS, helmet, the error-handling middleware and `server.listen` (`server/server.js:1-26`, `110-117`): process setup with no effect on the signaling state.
- Logging: the `console` calls, the server's 'error' handler, the client's 'connect_error' and 'error' handlers, and every `setStatus` call.
- Socket.IO transport: the model takes Socket.IO's room membership to be exactly `rooms`. A disconnected socket's messages and deliveries are not modelled separately.
- Concurrency: each handler is atomic, and the `await` points inside the async client functions are not interleaved with other handlers.
- Mesh.MeetingClient.OnAllUsers: `users.forEach(createOfferForUser)` does not await each call, so in the browser the 'sending signal' messages go out in the order the offers resolve. The model sends them in list order.
- Mesh.MeetingClient.HandleIncomingSignal: in the browser another handler, such as a candidate from the same caller, can run between `setRemoteDescription(offer)` and `setLocalDescription(answer)`. The model applies the two operations back to back.
- Browser APIs: `getUserMedia` and its failure path, `track.stop()`, SDP and ICE contents (offers and answers are placeholder descriptions), and the rejections caught by the `catch` branches. The model assumes every browser call succeeds.
- The React effect's cleanup function (`MeetPage.jsx:130-144`), rendering, navigation, and the other pages (`HomePage.jsx`, `App.jsx`).
- Mesh.MeetingClient.HandleLeave: the socket is disconnected when a local stream exists. The source tests `socketRef.current`, which is set right after the stream is obtained.
- Mesh.MeetingClient.CreateOfferForUser: an old connection that the new entry replaces is not closed, as in the source. The model records this but proves nothing about the abandoned object.
- Mesh.MeetingClient.OnTrack: the fallback branch for a stream with an empty id is not modelled, because a MediaStream's id is never empty.
