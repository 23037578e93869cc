# WebRTC signalling relay: lobby registry and protocol state machine

This project models the core of a WebRTC matchmaking relay (`server_node/server.js`). Clients
connect, join or create a *lobby*, and exchange offers, answers and ICE candidates through the
server. The server never reads those payloads. Within a lobby the host is addressed as handle
`1` and every other member by its real id.

- `wire.dfy`, module `Wire`: the frame format, which is a header line, a newline, then the payload.
  It also writes out the JavaScript built-ins the server relies on, with their JavaScript
  meaning on strings of code points: `trim`, `parseInt` (leading white space, sign, `0x` prefix,
  longest digit run, NaN) and decimal rendering of numbers. `Classify` is what `parseMsg` reads
  a frame as, before it looks at any state. It has the functions that build the server's frames
  (`I:`, `N:`, `D:`, `J:`, `S:` and relayed `O:`/`A:`/`C:`).
- `lobby.dfy`, module `Lobbies`: the `Peer` class (an id and a mutable `lobby` name). It also holds
  the `Lobby` class (`host`, `peers`, `sealed`) with `Join`, `Leave` and `Seal`, whose `forEach`
  loops are `while` loops. Each of them returns the traffic it produces as a sequence of
  `Event`s. The module also has the specification functions for that traffic and lemmas on who
  receives what.
- `server.dfy`, module `Signalling`: the `Server` class. It holds the `lobbies` map, the
  `peersCount` counter and an `outbox` of every frame sent and connection closed. Its handlers
  are `Connect`, `JoinLobby`, `ParseMsg` (which classifies the frame and hands the request to
  `Dispatch`), `Receive` (message handler), `Disconnect` (close handler) and `GraceExpired` (the one-second join timer as an explicit event). `Valid()` is the
  registry invariant: at most 1024 lobbies, and at most 4096 admitted connections, which the
  counter counts exactly. Every handler preserves it.

Each transport connection is the `Peer` object itself. `ws.send` and `ws.close` are appended to
`outbox`. A connection refused at the peer cap is the `Refuse` event, because no peer exists
for it. The random id and the random lobby secret are method parameters. A secret is required
to be 16 characters of `A-Z a-z 0-9`, as `randomSecret` draws it.

Notable behaviours of the code, which the model keeps:

- `leave` closes the whole lobby when the leaver's *handle* is 1, not only when the leaver is
  the host. A non-host member whose random id is 1 also has handle 1, and its departure closes
  everyone. The close handler then deletes the lobby. `Lobby.Leave` and `Server.Disconnect`
  state this exact condition.
- The departure notice `D:` and the closes go to every member listed when `leave` is called,
  the leaver included, because the removal happens after the loop.
- `join` has no duplicate-member check. "Already in a lobby" is checked only when creating a
  lobby, not when joining one by name. A peer can therefore be listed twice, or be listed in a
  lobby other than the one its `lobby` field names.
- A header with a valid destination whose code is not `O`, `A` or `C` is accepted and sends
  nothing. It is not rejected.
- A generated secret that collides with an open lobby's name replaces that lobby in the map.
  It is not re-drawn. `JoinLobby` models the overwrite.
- Generated lobby names are 16 characters long.
- The close handler resets the peer's `lobby` only when the lobby was deleted.

## Model

| member | source | states |
|---|---|---|
| `Wire.TrimStart` | server_node/server.js:125 | `trim`'s leading half: keeps a suffix, drops only white space, and what remains does not start with white space |
| `Wire.TrimEnd` | server_node/server.js:125 | `trim`'s trailing half: keeps a prefix, drops only white space, and what remains does not end with white space |
| `Wire.Trim` | server_node/server.js:125 | `trim`: the result has no white space at either end and is a prefix of what the leading half keeps, so a contiguous piece of the input |
| `Wire.TrimKeepsTrimmed` | server_node/server.js:125 | `trim` leaves a string with no white space at its ends unchanged |
| `Wire.NatToDecimal` | server_node/server.js:52 | a rendered number is a non-empty run of digits without a leading zero |
| `Wire.RunEndIsLongest` | server_node/server.js:145 | the scan `parseInt` makes stops exactly at the end of the longest run of digits of the radix |
| `Wire.LeadingNumber` | server_node/server.js:145 | the digits `parseInt` reads after the sign and base prefix: NaN exactly when the text does not start with a digit of the radix |
| `Wire.ParseInt` | server_node/server.js:145 | `parseInt`: blank text is NaN; a negative result needs a leading `-` after the white space; text that starts with a digit, other than a `0x` prefix, is a number. `RunEndIsLongest` and `ParseDecimal` state which digits it reads and what they denote |
| `Wire.DecimalValue` | server_node/server.js:145 | the digits of a rendered number denote that number |
| `Wire.ParseDecimal` | server_node/server.js:145 | `parseInt` of a rendered number gives the number back, so every handle the server hands out can be parsed back |
| `Wire.NewlineAt` | server_node/server.js:115 | `indexOf("\n")`: the index of the first newline, or the length when there is none |
| `Wire.SplitFrame` | server_node/server.js:115-121 | a frame without a newline is refused; otherwise header and payload concatenate to the frame, the header has no newline and the payload starts with it |
| `Wire.SplitFrameJoin` | server_node/server.js:115-121 | splitting undoes concatenating a newline-free header with a payload that starts with a newline |
| `Wire.Classify` | server_node/server.js:115-145 | how `parseMsg` reads a frame: a join name is trimmed; an addressed frame is its header line (at least 3 characters, up to the first newline, neither `J: ` nor `S: `) followed by the payload that starts at that newline. `MalformedIff` states exactly which frames are refused outright |
| `Wire.MalformedIff` | server_node/server.js:115-119 | a frame is rejected outright exactly when it has no newline or its first newline is before position 3 |
| `Wire.Notice` | server_node/server.js:52-55 | the `I:`/`N:`/`D:` frames, written `<code>: <handle>` and a newline; `NoticeRoundTrip` states that they are read back with their handle |
| `Wire.JoinedNotice` | server_node/server.js:110 | the `J: <name>` confirmation of a join; `JoinRoundTrip` and `SecretRoundTrip` state that it is read back as the same name |
| `Wire.Relayed` | server_node/server.js:155 | a relayed signal: the code letter, the sender's handle, then the payload untouched; `AddressedRoundTrip` states that it is read back with that handle and payload |
| `Wire.JoinRoundTrip` | server_node/server.js:124-125 | a `J: <name>` frame is read as a join request for the same name, if the name has no newline and no white space at its ends |
| `Wire.SecretRoundTrip` | server_node/server.js:110 | the `J: <secret>` confirmation of a created lobby, sent back, names that same lobby |
| `Wire.AddressedRoundTrip` | server_node/server.js:145-155 | a header `X: <h>` (X not J or S) is read with destination `h`, and the payload is kept byte for byte; this is also the shape of a relayed frame |
| `Wire.NoticeRoundTrip` | server_node/server.js:52-55 | an `I:`/`N:`/`D:` notice carries its handle: parsing it gives the handle back |
| `Lobbies.Peer.constructor` | server_node/server.js:28-31 | a new peer has its id and no lobby |
| `Lobbies.Handle` | server_node/server.js:46-49 | `getPeerId`: handle 1 exactly for the host or a peer whose real id is 1; any other handle is the real id |
| `Lobbies.Resolve` | server_node/server.js:147 | destination 1 means the host; any other destination is a literal id |
| `Lobbies.ResolveHandle` | server_node/server.js:147 | resolving a peer's handle gives its id back exactly when the peer is the host or its id is not 1 |
| `Lobbies.IndexOf` | server_node/server.js:60-61 | `findIndex` by identity: found exactly when the peer is listed, at its first position |
| `Lobbies.FindId` | server_node/server.js:148-149 | `find` by id: the first member with that id, or none when no member has it |
| `Lobbies.Without` | server_node/server.js:70 | the `splice` of the leaver's first position: one element shorter, the members before that position keep their places and every later member moves up by one |
| `Lobbies.WithoutRemovesOne` | server_node/server.js:70 | the `splice` removes exactly one occurrence of the leaver, as a multiset, and nothing else |
| `Lobbies.LeaveUndoesJoin` | server_node/server.js:50-72 | a peer that joins when not yet listed and then leaves restores the member list exactly |
| `Lobbies.Broadcast` | server_node/server.js:77-79 | one send per listed peer, in list order |
| `Lobbies.CloseAll` | server_node/server.js:64-66 | one close per listed peer, in list order |
| `Lobbies.BroadcastReaches` | server_node/server.js:77-79 | each peer receives the broadcast frame once per time it is listed, and nobody is closed |
| `Lobbies.CloseAllReaches` | server_node/server.js:64-66 | each peer is closed once per time it is listed, and nothing is sent |
| `Lobbies.NoticesFor` | server_node/server.js:53-56 | the `N:` notices for a joiner are one per existing member, in order, each with that member's handle |
| `Lobbies.JoinTraffic` | server_node/server.js:50-56 | joining a lobby of N members produces 1 + 2N sends, and the first is the joiner's `I: <handle>` |
| `Lobbies.JoinTrafficToJoiner` | server_node/server.js:50-56 | a joiner not yet listed receives exactly `I: <own handle>` and then N `N:` notices, one per existing member's handle in member order, and is not closed |
| `Lobbies.JoinTrafficToMember` | server_node/server.js:53-56 | every other member receives exactly one `N: <joiner's handle>` per time it is listed, and nothing else |
| `Lobbies.LeaveTraffic` | server_node/server.js:62-69 | one event per listed member, in list order: a close of that member when the leaver's handle is 1, otherwise `D: <leaver's handle>` sent to it |
| `Lobbies.LeaveTrafficReaches` | server_node/server.js:62-69 | if the leaver's handle is 1, every listed peer (leaver included) is closed and sent nothing; otherwise every listed peer receives exactly one `D: <leaver id>` per listing and is not closed |
| `Lobbies.Lobby.constructor` | server_node/server.js:40-45 | a new lobby has its name and host, no members and is not sealed |
| `Lobbies.Lobby.Join` | server_node/server.js:50-58 | emits exactly the join traffic for the members at call time, then appends the joiner; earlier members unchanged and in order |
| `Lobbies.Lobby.Leave` | server_node/server.js:59-72 | an unlisted peer: returns false, sends nothing, changes nothing; otherwise removes its first occurrence, returns whether its handle is 1 and emits the leave traffic to the members at call time |
| `Lobbies.Lobby.Seal` | server_node/server.js:73-83 | by a non-host: false, `sealed` unchanged, nothing sent; by the host: sealed, `S: ` to every member, membership unchanged |
| `Signalling.Server.constructor` | server_node/server.js:86-87 | no lobbies, no connections, nothing sent |
| `Signalling.Server.Connect` | server_node/server.js:160-168 | at the cap the connection is refused and the counter unchanged; otherwise a fresh peer with the given id and no lobby is counted; the caps invariant is kept |
| `Signalling.Server.Admits` | server_node/server.js:91-105 | the refusal conditions of `joinLobby`, as the condition `JoinLobby` succeeds under: creating needs room under the lobby cap and a peer not yet in a lobby; joining needs a registered, unsealed lobby of that name |
| `Signalling.Server.JoinLobby` | server_node/server.js:89-112 | succeeds exactly when creating with room under the lobby cap and no current lobby, or joining an open unsealed lobby; on failure nothing changes; on success the peer records the lobby, is appended, receives the join traffic and `J: <name>` last; the lobby cap is kept |
| `Signalling.Server.ParseMsg` | server_node/server.js:114-158 | malformed frames, commands other than `J` from a peer whose lobby is unset or gone, NaN or 0 destinations and destinations outside the sender's lobby are refused with no change; `S:` seals exactly for the host; an `O`/`A`/`C` frame goes to the one member found, with the sender's handle and the payload unchanged; other codes send nothing |
| `Signalling.Server.Dispatch` | server_node/server.js:124-157 | carries out a classified request with the outcome `Handled` states for each request class, the same as `ParseMsg`; a refused request changes nothing |
| `Signalling.Server.SealLobby` | server_node/server.js:133-135 | the `S:` command succeeds exactly for the lobby's host, which seals the lobby and sends `S: ` to every member; membership is unchanged, and on refusal nothing changes |
| `Signalling.Server.Relay` | server_node/server.js:145-157 | a destination that is NaN or 0, or names no member (1 meaning the host), is refused; otherwise an `O`/`A`/`C` frame is sent to the first member found, carrying the sender's handle and the payload, and any other code sends nothing |
| `Signalling.Server.Receive` | server_node/server.js:169-179 | every frame has the outcome `ParseMsg` gives it (`Handled`, per request class); a refused frame also closes the sender's connection and changes nothing else |
| `Signalling.Server.Disconnect` | server_node/server.js:180-191 | the counter drops by one; the peer leaves the registered lobby it names, and that lobby is removed exactly when the leave reported a handle-1 departure |
| `Signalling.Server.GraceExpired` | server_node/server.js:32-35 | a peer with no lobby when the timer fires is closed; otherwise nothing happens; the caps invariant is kept |

## Left out

- WebSocket server construction, event wiring and the `error` handler: transport plumbing. The
  handlers are explicit methods of `Server`.
- The `typeof message !== "string"` check: it depends on the message types of the `ws` library.
- Logging through `console.log` and `console.error`: it has no effect on state.
- `randomInt`, `randomId` and `randomSecret`: they use floating-point `Math.random` and
  `crypto`. The id and the secret are parameters. Ids are unbounded naturals; the source's ids
  lie in 0..2^31.
- `parseInt` returns a floating-point number that is rounded above 2^53. The model parses
  exactly. This cannot change which member is found, because ids never exceed 2^31.
- The ten-second ping interval: it is a timer with no effect on the registry.
- The grace timer is an explicit `GraceExpired` event. Its scheduling is not modelled.
- The close cascade: a `ws.close()` later runs that connection's close handler. The model
  records the close in `outbox` and does not run the handler.
- Lobbies.JoinTrafficToJoiner: stated for a joiner not yet listed. A peer that joins a lobby it
  is already in also receives `N:` notices of itself, as `JoinTraffic` describes.
- Wire.Classify: strings are sequences of Unicode code points, while the code's `length`,
  `substr(3)` and `cmd[0]` count UTF-16 code units. For a header holding a character outside
  the Basic Multilingual Plane the offset 3 therefore falls elsewhere, and such a frame can be
  accepted where the code refuses it, or the reverse. The protocol's headers are ASCII.
