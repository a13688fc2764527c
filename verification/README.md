# The tunnel's data path, its failover client and its panel, modelled and proved

This project models, in Dafny 4.11, the parts of the tunnel where a mistake would lose, duplicate, reorder or
misdirect data, and proves what they keep over every input, every short read, every interleaving and every run.

- **The byte-stream stack.** `Frames` is the wire format of the obfuscation layer: two big-endian 16-bit lengths,
  payload, padding. `WsTransport` turns WebSocket messages (sections 5.4 and 5.6 of RFC 6455) back into a byte
  stream. `Obfs` is the connection that writes and reads frames over it, with its leftover buffer. The main results
  are the round trip of the whole stack, truncation safety at any byte, and termination of draining.
  `ConcurrentWriters` interleaves any number of goroutines writing at once, byte by byte. `Fragment` is the
  connection that chops the first write into chunks.
- **The multi-path failover client.** `MultiPath` says what getSession and markFailed compute, on values;
  `MultiPathObjects` is the program's own form, shared objects changed in place, proved to compute exactly that;
  `MultiPathRuns` and `Quarantine` are about every run of it: one live session, what the failure counters mean, and
  how often a dead server can be dialled; `CounterWrap` is a run at the edge of the counter. `SingleClient` is the
  one-server closure.
- **pipe.** `Pipe` interleaves the two copiers, the `sync.Once` and the two peers step by step: safety, termination,
  and that pipe waits for nothing but its peers, and for nobody once one copier has finished.
- **The panel.** `Text` holds the string functions of Go and JavaScript that matter here and how one undoes the
  other. `Panel` prints the service unit and reads it back; `PanelSpec` says what a form stands
  for, in terms of the text typed into it alone, and what the program makes of a command line; `PanelRoundTrip`,
  `PanelFlags` and `PanelForms` prove that this is what both readers get from the printed unit.
- **The smaller loops.** `RawQueue` and `RawConn` (the raw packet queue and the sequence counter), `Itoa`, `Relay`
  (the XOR relay pair in assembly) and `SessionStore` (the panel's expiring logins).

Objects that the program updates in place are classes, and its loops are methods with invariants; each is proved
against a function or a relation on values, and the properties are then proved of that function over whole runs.
Goroutines are modelled as interleaved steps of a state machine. A step covers what the program does under one mutex,
except where the mutex itself is the point: there the steps are single operations.

Where the code does not quite keep a promise, the model keeps the code and states exactly when the promise holds:

- A payload of 65536 bytes or more does not fit `uint16(len(p))`. A frame parses back exactly when both lengths fit
  (`Frames.ParseOfFrame`); `Frames.OversizePayloadIsLost` exhibits the loss. The program itself never gets there:
  smux is configured for frames of at most 32768 bytes (t2tunnel/engine.go:44).
- `markFailed` closes whatever session is current, not the one that failed. `MultiPathRuns.ReportCloses` says exactly
  when that is harmless, and `MultiPathRuns.StaleReportClosesNewSession` is a run in which a healthy session is closed.
- The failure counter is an int32. `Quarantine.QuarantineMeansHistory` states the skip test with its wrap-around: after
  2^31 failures in a row a server leaves quarantine, and the bound of `Quarantine.DialRate` is stated for stretches in
  which the counter does not go negative. `CounterWrap.WrappedCounterDialsFreely` is a run that breaks it otherwise.
- `itoa` prints a bare minus sign for the least 64-bit integer, and is right exactly for all others.
- The relays cut datagrams above 4096 bytes (`Relay.LongDatagramIsCut` is such a run), and both forward what strangers
  send them: the relay abroad even takes a stranger for its peer. `Relay.PairIsTransparent` says exactly which of the
  datagrams handed to a local program are the ones sent.

`dafny verify dfyconfig.toml` checks everything.

## Model

| member | source | states |
|---|---|---|
| `Frames.ParseOfFrame` | t2tunnel/obfs.go:55-62 | the header, payload and padding Write assembles are parsed back to the payload, leaving the following bytes untouched, if and only if both lengths are below 65536 |
| `Frames.OversizePayloadIsLost` | t2tunnel/obfs.go:56 | a 65536-byte payload is announced as empty and its bytes are taken for frames |
| `Frames.FrameBytes` | t2tunnel/obfs.go:55-62 | a frame byte by byte: big-endian payload length and padding length, payload, padding |
| `Frames.ParseOfTornFrame` | t2tunnel/obfs.go:79-96 | no strict prefix of a frame parses: neither header, payload nor padding bytes escape as data |
| `Frames.DecodeOfCutWire` | t2tunnel/obfs.go:72-103 | a wire cut after any byte decodes to exactly the payloads of the frames that arrived whole |
| `Frames.CompleteIsLargest` | t2tunnel/obfs.go:79-96 | the frames counted as complete in a cut wire are as many as fit in it |
| `Frames.DecodeOfWire` | t2tunnel/obfs.go:44-103 | the concatenated frames decode to the list of payloads if and only if every payload is below 65536 bytes |
| `WsTransport.NoiseIsInvisible` | t2tunnel/ws_transport.go:34-46 | control, text and empty messages mixed in anywhere leave the byte stream unchanged |
| `WsTransport.WsConn.NextBinary` | t2tunnel/ws_transport.go:29-38 | the loop that skips non-binary messages loses no byte of the stream and stops |
| `WsTransport.WsConn.Read` | t2tunnel/ws_transport.go:27-49 | whatever short reads and message ends the reader produces, the bytes put in the caller's buffer are the next ones of the stream; success means progress, failure that the stream is used up |
| `WsTransport.WsConn.Write` | t2tunnel/ws_transport.go:54-57 | one call is one whole binary message, or an error and at most one torn message, after which nothing is ever sent |
| `WsTransport.ReadFull` | t2tunnel/obfs.go:80 | filling a buffer over any short reads succeeds exactly when the stream is long enough, and then takes exactly its front |
| `Obfs.DefaultPaddingFits` | t2tunnel/obfs.go:21-29 | the default configuration may draw exactly the lengths 16 to 255, so the length field never wraps |
| `Obfs.ObfsConn.Write` | t2tunnel/obfs.go:44-70 | one call hands the transport exactly one frame of its argument, with a padding length the configuration allows, in one message |
| `Obfs.ObfsConn.Read` | t2tunnel/obfs.go:72-103 | over an adversarial transport it delivers the leftover or the next whole frame, cut to the caller's buffer, keeps the rest, and fails exactly when no whole frame remains, with the buffer untouched |
| `Obfs.ReadStepConserves` | t2tunnel/obfs.go:72-103 | one Read moves bytes from what is owed to what is delivered without loss, and shrinks wire and leftover together even on an empty frame |
| `Obfs.ReadStepFills` | t2tunnel/obfs.go:73-102 | one Read hands out as much as fits of the leftover, or of the next whole frame, and keeps the rest; it fails exactly when there is neither |
| `Obfs.ReadsConserve` | t2tunnel/obfs.go:72-103 | for every sequence of buffer sizes: delivered bytes, leftover and payloads of unread frames together never change; an error comes only after everything owed was delivered |
| `Obfs.ReadsTerminate` | t2tunnel/obfs.go:72-103 | with non-empty buffers there are at most as many successful Reads as there are unread wire and leftover bytes |
| `Obfs.ObfsConn.ReadFrame` | t2tunnel/obfs.go:79-96 | over an adversarial transport it takes exactly one whole frame, or fails with the transport used up |
| `Obfs.FillFrom` | t2tunnel/obfs.go:72-103 | a loop that fills a buffer by Reads ends whatever frames arrive, empty ones included; it succeeds exactly when the payloads still owed suffice, and takes exactly their front |
| `Obfs.StreamOfTornWrite` | t2tunnel/obfs.go:66-68 | a Write that fails midway leaves a prefix of the wire that the completed Write would have left |
| `Obfs.CutStackDelivers` | t2tunnel/obfs.go:72-103 | if the messages carry any prefix of the wire, the reader gets a prefix of the payloads of the complete frames at any time, and exactly all of them by the error |
| `Obfs.CutStackEnds` | t2tunnel/obfs.go:79-96 | that error comes within one Read more than there are bytes on the cut wire |
| `Obfs.TornStackDelivers` | t2tunnel/ws_transport.go:51-58 | when the connection dies while one frame is being written, everything written before it is delivered, and of its own payload all or nothing |
| `Obfs.StackRoundTrip` | t2tunnel/obfs.go:44-103 | through both layers' Write and Read, any padding, any noise messages and any buffer sizes: delivered, leftover and unread payloads are the concatenation of everything written |
| `ConcurrentWriters.ShapeExclusiveStep` | t2tunnel/ws_transport.go:52-53 | the mutex is held exactly while one goroutine is inside WriteMessage, and never two |
| `ConcurrentWriters.WireStep` | t2tunnel/ws_transport.go:51-58 | every step keeps the wire equal to whole frames in lock order followed by the sent part of the last one |
| `ConcurrentWriters.OrderStep` | t2tunnel/obfs.go:55-69 | every step keeps each writer's logged frames a prefix of its own calls in order |
| `ConcurrentWriters.DecodesToMerge` | t2tunnel/obfs.go:55-69 | at any moment of any interleaving the receiver decodes a merge of the writers' payloads in lock order: every payload is one of its writer's, each writer's own order is kept, no frame is torn, and at most the write in progress is missing |
| `ConcurrentWriters.WritersNeverStuck` | t2tunnel/ws_transport.go:52-53 | while a writer has calls left, some writer can move |
| `Fragment.ChunksRejoin` | t2tunnel/tls_transport.go:35-40 | the pieces concatenate to the argument |
| `Fragment.ChunksSizes` | t2tunnel/tls_transport.go:35-40 | every piece but the last has exactly chunk bytes, the last between 1 and chunk |
| `Fragment.ChunksCount` | t2tunnel/tls_transport.go:35-40 | there are ceil(len / chunk) pieces |
| `Fragment.FragConn.Write` | t2tunnel/tls_transport.go:29-47 | the loop makes exactly the planned calls, or stops inside one of them on an error, and total is the number of bytes accepted |
| `Fragment.StepAccepts` | t2tunnel/tls_transport.go:34-46 | the bytes that reached the connection in one Write are exactly b[..total], and all of b on success |
| `Fragment.LifeIsInvisible` | t2tunnel/tls_transport.go:29-47 | over the connection's life, errors included, the network sees the accepted parts of the arguments, concatenated |
| `Fragment.OnlyFirstIsSplit` | t2tunnel/tls_transport.go:30-33 | the first Write, and no other, is split; every later one is a single call |
| `MultiPath.NthIsMod` | t2tunnel/multipath.go:91 | the index (start + i) % n of the i-th turn |
| `MultiPath.EachServerOnce` | t2tunnel/multipath.go:90-92 | the turns of the loop and the servers correspond one to one |
| `MultiPath.FirstUsableInCyclicOrder` | t2tunnel/multipath.go:87-128 | without a live session getSession returns the first server in cyclic order that is not resting (30 s after the latest of at least 3 failures) and connects, forgives it, charges each server dialled before it once, changes no other, and reports all servers down exactly when every server was skipped or failed in this call |
| `MultiPath.LiveSessionReused` | t2tunnel/multipath.go:83-85 | with a live session getSession returns it with its server, whatever the servers' state, and changes nothing |
| `MultiPathObjects.MultiPathClient.GetSession` | t2tunnel/multipath.go:79-129 | on shared objects, the loop computes the specification's getSession and returns the very session and endpoint objects it names |
| `MultiPathObjects.MultiPathClient.Turn` | t2tunnel/multipath.go:91-126 | one turn either yields a fresh session on the server of that turn or leaves exactly the charge for it |
| `MultiPathObjects.MultiPathClient.MarkFailed` | t2tunnel/multipath.go:131-139 | charges one endpoint, closes and clears the current session, changes nothing else |
| `MultiPathObjects.MultiPathClient.MarkFailedLocked` | t2tunnel/multipath.go:141-144 | one int32 increment and the failure time of one endpoint, all else unchanged |
| `MultiPathRuns.OneLiveSession` | t2tunnel/multipath.go:61-144 | in every reachable state every session but m.session is closed, sessionSrv is servers[current] while a session is set, and every pair handed out was dialled together |
| `MultiPathRuns.GetHandsOutOpenSession` | t2tunnel/multipath.go:79-129 | in every reachable state an open session is handed out with the server it was dialled on, nothing dialled or changed; all servers down means no session is open; what is handed out is open and is what the goroutine holds |
| `MultiPathRuns.GetOnRecord` | t2tunnel/multipath.go:90-117 | the history gets one dial, with its times and outcome, for each server whose turn comes and that does not rest, and nothing else |
| `MultiPathRuns.ReportCloses` | t2tunnel/multipath.go:61-76 | a failure report charges, once, the server the failed session was dialled on and no other, whatever is current; no session is live after it; it leaves the sessions that did not fail alone if and only if the failed one is current or none is live |
| `MultiPathRuns.QuietSteps` | t2tunnel/multipath.go:69-76 | opening a stream, a session dying and time passing charge no server and close nothing but the dying session |
| `MultiPathRuns.FirstServerFirst` | t2tunnel/multipath.go:33-38 | a new client tries the first server first |
| `MultiPathRuns.StaleReportClosesNewSession` | t2tunnel/multipath.go:135-138 | a run in which a stale failure report closes a healthy newer session |
| `Quarantine.RunHistory` | t2tunnel/multipath.go:79-144 | in every reachable state counters summarise the history, no dial ever went to a server in quarantine, and the history is in time order |
| `Quarantine.ReportCounts` | t2tunnel/multipath.go:131-144 | a report raises the failures since the last success, and the time of the latest failure, of the failed session's server alone |
| `Quarantine.QuarantineMeansHistory` | t2tunnel/multipath.go:94-96 | lastFail is the latest failure, failCount the failures since the last successful connect (below 2^31), and the skip test holds exactly when there were at least 3 and the latest is under 30 s old, the count read as an int32 |
| `Quarantine.DialRate` | t2tunnel/multipath.go:79-128 | in any stretch of a run lasting t in which a server never connects and its int32 counter does not go negative (2^31 failures), it is dialled at most 3 + floor(t / 30 s) times, however many goroutines call in |
| `CounterWrap.WrappedCounterDialsFreely` | t2tunnel/multipath.go:94 | without that proviso the bound is false: for every m up to 2^31 + 3, a run ends in m failed dials of one server at one moment |
| `SingleClient.Closure.GetSession` | t2tunnel/engine.go:336-356 | the closure computes its specification on shared session objects |
| `SingleClient.OneSession` | t2tunnel/engine.go:331-356 | over every interleaving all sessions but the captured one are closed; an open one is handed out and nothing changes; otherwise a caller gets one new session, or nothing, and then nothing changes, exactly when it cannot be made |
| `Pipe.PipeIsFaithful` | t2tunnel/engine.go:50-67 | at every moment the bytes written to each end are a prefix of what the other end sent, and closeBoth was entered at most once |
| `Pipe.PipeReturns` | t2tunnel/engine.go:50-67 | when pipe returns both copiers are done, closeBoth ran exactly once, both ends are closed; the copier that ran it stopped at EOF, with every byte of its source delivered, or at an error, and then a connection has broken: if neither has, it delivered everything |
| `Pipe.LeavesForAReason` | t2tunnel/engine.go:58-63 | at every moment, a copier that has left io.Copy had delivered its whole source, or a connection had broken, or the other copier had closed them |
| `Pipe.PipeWaitsOnlyForPeers` | t2tunnel/engine.go:56-66 | until pipe has returned it stands still exactly while both copiers wait for a peer to send, to end or to make room; so the Once cannot deadlock, and never once a copier has left io.Copy |
| `Pipe.PipeReturnsUnaided` | t2tunnel/engine.go:52-66 | once a copier has left io.Copy, for whatever reason, pipe can run to its return by its own steps, the peers silent: closing both ends releases the other copier |
| `Pipe.PipeTerminates` | t2tunnel/engine.go:50-67 | no run takes more than three times as many steps as there are bytes on both sides, plus 15 |
| `RawQueue.StepInv` | t2tunnel/rawpacketconn.go:83-128 | every step keeps order, capacity, the drop rule and the cut of each delivery |
| `RawQueue.QueueKeepsOrder` | t2tunnel/rawpacketconn.go:83-128 | over all interleavings, packets delivered and then queued are the kept arrivals, a subsequence of all in order; never more than 1024 are queued; a drop before close happens only at 1024; each delivery is its packet cut to the buffer |
| `RawQueue.EveryPacketAccounted` | t2tunnel/rawpacketconn.go:85-106 | every non-empty packet that came is among the arrivals, in order, but for the one in hand; the connection is closed exactly if Close has been called |
| `RawConn.RawPacketConn.Take` | t2tunnel/rawpacketconn.go:89-98 | a packet from the capture is the queue's arrival step; an empty one changes nothing |
| `RawConn.RawPacketConn.Offer` | t2tunnel/rawpacketconn.go:99-104 | whichever ready case the inner select fires, it is a step of the queue's state machine, history included, and the packet joins the queue unless the connection is closed or 1024 are queued |
| `RawConn.RawPacketConn.Receive` | t2tunnel/rawpacketconn.go:122-124 | receiving is the queue's receive step, history included, written into the caller's buffer |
| `RawConn.RawPacketConn.WriteTo` | t2tunnel/rawpacketconn.go:146-168 | the k-th serialised segment carries 1000 plus all earlier payload bytes modulo 2^32, failed sends included |
| `RawConn.SeqNumbers` | t2tunnel/rawpacketconn.go:152-163 | the Seq field of a segment is 1000 plus all earlier payload bytes, modulo 2^32 |
| `RawConn.RawPacketConn.Close` | t2tunnel/rawpacketconn.go:171-177 | after Close the connection is closed, and it is the queue's closing step |
| `RawConn.RangesDisjoint` | t2tunnel/rawpacketconn.go:152-163 | the sequence numbers of any two non-empty segments are disjoint if and only if, with the distance of their starts taken modulo 2^32, the first ends before the second starts and the second before the first starts again |
| `RawConn.SpanDisjoint` | t2tunnel/rawpacketconn.go:152-163 | in particular they are disjoint while at most 2^32 bytes span the two segments |
| `Itoa.Itoa` | t2tunnel/rawpacketconn.go:203-223 | for 64-bit n, parsing the result gives n if and only if n is not the least integer; no leading zeros; the write index stays in the 20-byte buffer |
| `Relay.XorCancels` | ASM-TUN-V1.0.asm:116-122 | the two XOR loops cancel |
| `Relay.UdpRelay.XorLoop` | ASM-TUN-V1.0.asm:224-230 | the in-place loop flips exactly the bytes received |
| `Relay.UdpRelay.Handle` | ASM-TUN-V1.0.asm:210-257 | one turn of the loop: each of the first 4096 bytes flipped with 0x5A in place; a datagram from 127.0.0.1 or not, as the program has it, goes to the fixed address and its sender is learned, any other goes to the learned address |
| `Relay.PairIsTransparent` | ASM-TUN-V1.0.asm:102-149 | over every run of the pair, with loss, duplication, reordering and strangers sending to both relays, a datagram handed to a local program is unchanged if and only if it crossed both relays and has at most 4096 bytes; longer ones are cut, a stranger's comes out flipped |
| `Relay.LongDatagramIsCut` | ASM-TUN-V1.0.asm:214 | a run in which a longer datagram loses everything after its 4096th byte |
| `Relay.RepliesGoToLatest` | ASM-TUN-V1.0.asm:234-256 | in every run, what each step sends, changes and leaves alone: a client's datagram goes to hz_addr, flipped; a server's to the latest non-local sender; arrivals at home to the latest local one; arrivals abroad to gost_addr; strangers' datagrams likewise |
| `Relay.WhatCanArrive` | ASM-TUN-V1.0.asm:126-148 | a client's datagram can reach the relay abroad; a server's can reach the relay at home exactly if the relay abroad has heard from that one and from no stranger since |
| `SessionStore.Sessions.IsValid` | t2tunnel/webpanel/panel.go:134-146 | true exactly for a token in the map that has not expired; otherwise exactly that token is deleted |
| `SessionStore.ValidMeansHistory` | t2tunnel/webpanel/panel.go:120-151 | with a monotone clock a lookup succeeds exactly when the token's latest create is after its latest drop and at most 8 hours old |
| `SessionStore.LookupsAreInvisible` | t2tunnel/webpanel/panel.go:141-144 | the deletes done by lookups never change a later answer |
| `Text.TrimIsBare` | t2tunnel/webpanel/panel.go:404-405 | trimming any string removes only trimmable characters, from its ends, until none is left there |
| `Text.TrimOfPadded` | t2tunnel/webpanel/panel.go:404-405 | and what is left is the only string it can be |
| `Text.SpacesAgree` | t2tunnel/webpanel/panel.go:404-448 | Go and JavaScript agree on white space but for U+0085 and U+FEFF; in ASCII it is the usual six |
| `Text.FieldsAreWords` | t2tunnel/webpanel/panel.go:436 | the fields of any string are words, and only white space is lost between them |
| `Text.FieldsCons` | t2tunnel/webpanel/panel.go:436 | any white space separates fields |
| `Text.FieldsOfJoin` | t2tunnel/webpanel/panel.go:436 | fields of space-joined words are the words |
| `Text.SplitOfJoin` | t2tunnel/webpanel/panel.go:403 | splitting at the separator undoes joining |
| `Text.JoinOfSplit` | t2tunnel/webpanel/panel.go:403 | joining undoes splitting on every string, and no piece holds the separator |
| `Text.SplitRunsIsSplit` | t2tunnel/webpanel/panel.html:686 | with empty lines filtered, splitting at runs of newlines is splitting at newlines |
| `Panel.FindExecLine` | t2tunnel/webpanel/panel.go:402-408 | the search loop finds the first ExecStart line, trimmed |
| `Panel.FirstExecLine` | t2tunnel/webpanel/panel.go:402-408 | for any lines, it is the first that starts with ExecStart= once trimmed, less that prefix, or nothing |
| `Panel.ParsePeers` | t2tunnel/webpanel/panel.go:435-468 | the loops collect, in token order, what each flag contributes |
| `Panel.TokenReads` | t2tunnel/webpanel/panel.go:438-465 | what one token of any line contributes: the unquoted value of -remote, the trimmed non-empty parts of -remotes, the unquoted -dstip with the last -dstport if there is one, else nothing |
| `Panel.LastPortWins` | t2tunnel/webpanel/panel.go:455-460 | of several -dstport the last one that has a value counts |
| `Panel.SplitRemotes` | t2tunnel/engine.go:213-222 | main's list is the trimmed non-empty parts in order |
| `PanelRoundTrip.CommandLineRoundTrip` | t2tunnel/webpanel/panel.html:682-687 | parsing the printed command line gives exactly the peers the form configures: for each field the trimmed text typed, and the placeholder only if it is blank |
| `PanelRoundTrip.ExecLineFound` | t2tunnel/webpanel/panel.html:688-689 | the search in the printed unit finds the whole command line |
| `PanelRoundTrip.UnitRoundTrip` | t2tunnel/webpanel/panel.go:402-409 | from printed unit back to peers: none for a tls or udp server, the single remote, the multi list in order, or dstip:dstport for raw |
| `PanelRoundTrip.RawGetsCapabilities` | t2tunnel/webpanel/panel.html:688-689 | the unit asks for the raw-socket capabilities exactly if the transport is raw |
| `PanelSpec.ValSays` | t2tunnel/webpanel/panel.html:681 | the printer reads a field as its trimmed text, and as the placeholder exactly if it is blank |
| `PanelFlags.FlagsPrinted` | t2tunnel/engine.go:70-92 | reading the printed command line as flags sets exactly those the form configures, for every role and transport, each to the trimmed text typed or its placeholder, and no other |
| `PanelFlags.MainAgrees` | t2tunnel/engine.go:213-222 | main splits the value of -remotes, less its quotes, into the same list the panel shows, which is the non-blank lines typed |
| `PanelForms.TypedWellIsClean` | t2tunnel/webpanel/panel.html:681-687 | the forms the round trips hold for include every one whose fields are blank, or free of white space and quotes and not starting with a dash |
| `PanelForms.UnitSays` | t2tunnel/webpanel/panel.html:682-689 | for every such form, the printed unit names exactly the configured peers and sets exactly the configured flags |

## Left out

- TLS, uTLS, certificates, KCP, smux, the WebSocket library and packet capture: they appear only as byte streams, message lists, or sessions with a closed flag, with arbitrary outcomes.
- `obfsConn` over TLS or KCP: the model puts it over `wsConn`; a plain byte stream is the special case of a single message.
- Read errors that go away again, such as deadlines on a stream: a failed Read ends the stream in the model. Nothing in the program sets a read deadline below `obfsConn`.
- `applyJitter` and the contents of the padding: the padding is an arbitrary choice of bytes, the delay no step at all.
- `WrapObfs` with obfuscation disabled, and deadlines and addresses of the connections: plain delegation.
- Obfs.ObfsConn.Write: an extra ghost return value names the padding drawn, so that the frame can be stated.
- Obfs.ObfsConn.Read: the caller's slice is an array and an offset; with offset 0 it is the whole buffer.
- Obfs.FillFrom: `io.ReadFull` as smux calls it on the connection; that caller is inside the library.
- WsTransport.WsConn.Write: one call at a time; the mutex `wmu` is modelled in `ConcurrentWriters`.
- MultiPathObjects.MultiPathClient.GetSession: the clock readings and dial outcomes of the loop are arguments; the raw connection closed after a failed smux handshake is not an object of the model.
- Longer functions of the program are cut into several methods here (`ReadFrame`, `FirstWrite`, `Scan`, `Turn`, `Open`, `Forgive`, `Take`, `Offer`); the cuts are the model's.
- `handleConn` after a stream is open: that is `pipe`. `Run`, logging and the listeners are not modelled.
- MultiPathRuns.OneLiveSession: getSession and markFailed are one step each, as their mutex makes them; a session that dies inside getSession dies just before or just after it.
- The session closure of `runClientRaw`: it has no mutex (t2tunnel/engine_raw.go:56-82), so the single-session invariant is not claimed of it. Those of the tls and ws clients repeat runClient's.
- Pipe.PipeIsFaithful: `io.Copy` is its reading and writing loop; the shortcuts it may take for particular connection types are not modelled.
- RawConn.RawPacketConn.Receive: only the case in which data arrives; the timeout and the closed case of ReadFrom change nothing (the step Fail of `RawQueue`).
- RawConn.RawPacketConn.WriteTo: whether serialising and sending succeed are arguments; header fields other than Seq are not modelled.
- Relay.RepliesGoToLatest: before any address is learned the destination is sixteen zero bytes, which a kernel refuses; the model records the attempt.
- `buildExec` pushes onto an array; the model concatenates lists of flags and values and prints them, with the same text. The role and transport come from fixed buttons, so they are enumerated.
- PanelFlags.FlagsPrinted: `flag.Parse` on words as the unit spells them; `-name=value`, unknown flags and the conversion of numbers are not modelled.
- `handlePeer`'s role and reachability fields, and dialling the peers: user interface and network.
- Text is a sequence of characters; UTF-8 encoding is not modelled.
- systemd removes the quotes around arguments before `main` sees them; `PanelFlags.MainAgrees` starts from there. For udp with several servers `main` requires `-remote` (t2tunnel/engine.go:259-262), so nothing is claimed about what it makes of that form.
- Panel HTTP handlers, DOM code, password hashing, AutoDiscover, iptables and install scripts: user interface, cryptography and foreign commands.
