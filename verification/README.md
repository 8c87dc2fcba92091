# A verified model of the Wisp relay core

The relay carries many Wisp streams over one WebSocket connection. This project models its core, the
Go package `wisp`, in Dafny and proves what its parts promise: delivery order and credit of a stream,
the write queue, WebSocket framing, the stream table, the handshake gate, and the rate arithmetic.
`dafny verify dfyconfig.toml` checks everything.

## Shape

Two forms are used side by side.

* Protocols between goroutines are transition systems (`Runs`): a partial step function on states and
  actions, one action per lock section, atomic load, store, compare-and-swap or network write. A run
  is any sequence of enabled actions, so a statement about all runs is one about all interleavings.
  `WriteQueue` is the connection's write queue, `StreamMachine` one stream from the client's credit to
  the target socket, `StreamTable` the table with its cache.
* Code that one goroutine runs by itself is imperative, with the source's loops, fields and buffers:
  `BatchQueue.Queue` (the critical sections both queues share), `StreamFields`, `StreamTableCalls`,
  `FrameReader`, `ReadLoop`, `Mask`, `FrameCodec`, `Extensions`, `Handshake`, `Bandwidth`,
  `RequestWindow`, `Signature`, `Shell`. Each method is tied to a function of its inputs or of the old
  state, and the laws are proved about that function.

`FrameLaws`, `HandshakeLaws` and `ExtensionLaws` say what each frame, packet and entry means in terms of its
bytes alone, with the constants written out, so that the transition functions above are not their own
specification.

Bytes are integers below 256, and exclusive or is defined bit by bit on natural numbers, so that bytes
and 64-bit words share one definition.

## Seven windows

Seven strong claims one would like to make are false. Each window is kept in the model; each claim is
proved under its exact condition and refuted by a run. For the races with `close` the condition is
exact in this sense: nothing else fails, and from every reachable state inside the window a run fails.

| claim | condition | run |
|---|---|---|
| every arrival on an open stream is written | nothing is parked between the snapshot and ready (`Delivery.MissingExactlyTheLatePark`) | `Delivery.LateParkIsLost` |
| a client that keeps to its credit never waits for credit that is not coming | no packet is ever parked (`Credit.StallMeansParked`, `Credit.StallReachable`) | `Credit.SomeRunStalls` |
| every write request is settled | no request is appended after the drain behind a running writer that then fails (`WriteQueueSafety.OnlyRacedRequestsAreLeft`, `WriteQueueRace.LateIsLeft`) | `WriteQueueRace.RacedRequestCanBeLeft` |
| every receive buffer is released | no payload is appended after the drain behind a running ingress writer that then gives up (`IngressRace.UnreleasedIffLeft`, `IngressLeft.LateIsLeft`) | `IngressLeft.SomePayloadIsLeft` |
| a direct write has a connection | close does not win between the packet's loads of `isOpen` and `connReadyDone` while no dial has succeeded (`DirectWrite.NilWriteNeedsClose`, `DirectWrite.NilWriteFollows`) | `DirectWrite.SomeRunCrashes` |
| close leaves no connection open | the dial has not ended after close looked for the connection, or was refused by the failure signature (`SocketLeak.LeftOpenIffDialedLate`, `SocketLeak.DialMayLeak`) | `SocketLeak.SomeConnectionLeaks` |
| a cached lookup equals a table lookup | the cached stream was not stored after its close had passed the slot, and its close is not between deleting the entry and clearing the slot (`StreamTable.CachedEqualsTable`) | `StreamTable.DeadStreamStaysCached` |

In the fifth the source calls `Write` on a nil interface, which ends the process; the model ends the run.
In the sixth what the target sends still goes to the client under the stream's id, which a new stream may
have by then: `StreamTable.CacheNeverMisdelivers` covers the upward direction only.

Two smaller observations: a trailing lone backslash is dropped by `splitShell` without an error, and an
`Evict` of the request window is invisible exactly when the idle time is at least the window less one tick.

## Assumptions

* A connection on which a write failed, or that was closed, accepts no further bytes. `net.Buffers`
  writes the concatenation of the batch.
* Writes accept any number of bytes and fail at any point; nothing is written, and nothing fails, for an
  empty slice; reads make progress or end the input; a
  dial succeeds or fails. The client sets its credit to the value of each CONTINUE it receives; the
  theorems of `Credit` are about a client that sends only with credit, which the server does not check,
  all others about any client.
* `close` may be called by any goroutine at any time. The steps of the call that wins run as a thread
  of their own, which allows more interleavings than the code has.
* Times are integers that do not decrease in lock order. The bandwidth cost of a packet is an integer
  input. The failure ratio is compared over the reals; without samples it matches nothing.
* `BufferRemainingLength` is positive (wisp/config.go:313), message caps are below 2^63, and
  INFO payloads are below 2^32 bytes; the truncation `uint32(len)` is kept in the parser.
* The password comparison and the UTF-8 test are parameters of the handshake; the flood limits are
  answers of the environment.

## Model

| member | source | states |
|---|---|---|
| `NetConn.WriteAll` | wisp/wisp-stream.go:12-24 | without error the whole slice reaches the peer; an error means that exactly one Write failed or took nothing, after which nothing is written and some leading part has arrived; an empty slice is no error |
| `BatchQueue.SectionsKeepCount` | wisp/wisp-connection.go:51-133 | no critical section of the queue loses count of the queued bytes or passes the cap |
| `BatchQueue.Queue.Submit` | wisp/wisp-connection.go:112-133 | one submit section in place: refused exactly when the queued bytes and the request pass the cap, and then nothing changes; otherwise the request goes last, and the caller starts the writer exactly when none was active |
| `BatchQueue.OfferRefuses` | wisp/wisp-stream.go:364-378 | the same of the section as a function of the queue, as both queues use it |
| `BatchQueue.Queue.TakeBatch` | wisp/wisp-connection.go:51-66 | the writer section in place: everything queued is taken and its bytes subtracted, or, when nothing is, the flag cleared |
| `BatchQueue.Queue.ClearActive` | wisp/wisp-connection.go:93-96 | a failed writer clears the flag and touches nothing else |
| `BatchQueue.Queue.Drain` | wisp/wisp-stream.go:479-489 | the closing section empties the queue and hands back what was in it; the connection queue at wisp/wisp-connection.go:29-42 has the same section |
| `WriteQueueSafety.EveryRunKeepsInv` | wisp/wisp-connection.go:23-134 | every interleaving of submitters, writers and closers keeps all nine parts of the invariant |
| `WriteQueueSafety.StepKeepsInv` | wisp/wisp-connection.go:23-134 | each single lock section, atomic load, compare-and-swap or write keeps the invariant |
| `WriteQueueSafety.WriteQueueIsFifo` | wisp/wisp-connection.go:45-134 | in every run the wire has a prefix of the accepted requests in lock order, two writers never write at once, a nonempty queue on a live connection has its writer, and pendingBytes is the queued length within the cap |
| `WriteQueueSafety.SubmitOutcome` | wisp/wisp-connection.go:103-133 | in every run a submit is refused exactly when the connection is closed at its check or the queued bytes and the request pass the cap at its lock, and then it owes a close; otherwise the request goes last and a writer is started exactly when none is active |
| `WriteQueueSafety.EachRequestSettledOnce` | wisp/wisp-connection.go:23-133 | a request is in exactly one of checked, refused, queued, in a batch, drained or completed; its done is signalled and its buffer returned exactly when it is refused or completed, so at most once and never while held |
| `WriteQueueSafety.OnlyRacedRequestsAreLeft` | wisp/wisp-connection.go:103-131 | at rest a request is unsettled if and only if it is still queued, and whatever is queued was appended after the drain behind a running writer by a submit that stood between the closed check and the lock when close won; with no close nothing is left and everything accepted is on the wire |
| `WriteQueueRace.LateIsLeft` | wisp/wisp-connection.go:66-101 | conversely, from every reachable state in which such a request stands behind a writer that still has bytes to write, is failing or finishes with an error, a run leaves it at rest, unsettled, its waiter never signalled |
| `WriteQueueRace.LeftForGood` | wisp/wisp-connection.go:103-113 | no further run takes or settles what is left at rest |
| `WriteQueueRace.RacedRequestCanBeLeft` | wisp/wisp-connection.go:93-113 | such a state is reachable for any two requests that fit, the first not empty: a run leaves the second |
| `WriteQueueSafety.WriterDrains` | wisp/wisp-connection.go:45-101 | from every reachable live state the writer alone, while writes succeed, brings everything accepted onto the wire |
| `StreamFields.Stream.Park` | wisp/wisp-connection.go:308-324 | the parking section in place: appended unless 16 MiB would be passed, the byte count exact, and the same fields as the step of the interleaved system |
| `StreamFields.Stream.Snapshot` | wisp/wisp-stream.go:273-277 | the one snapshot hands over everything parked so far and leaves nothing |
| `StreamFields.Stream.Charge` | wisp/wisp-connection.go:330-334 | the counter is L minus the charged packets modulo L, and a CONTINUE goes out exactly on every L-th |
| `StreamControl.StepKeepsCtl` | wisp/wisp-stream.go:298-389 | flags, goroutine positions and queue counts of one stream stay consistent at every step of every thread |
| `Delivery.DeliveryInArrivalOrder` | wisp/wisp-stream.go:273-295 | while a stream is open the target holds a prefix of the payloads parked before the snapshot followed by those processed after ready; every arrival is in exactly one of parked, lost, processed, in arrival order; for every client, whether or not it keeps to its credit |
| `Delivery.MissingExactlyTheLatePark` | wisp/wisp-stream.go:273-293 | written plus still due equals all arrivals if and only if nothing was parked between the snapshot and ready; for every client |
| `Delivery.LateParkIsLost` | wisp/wisp-stream.go:273-293 | for every payload a run that parks it in that window and never writes it although the stream is open, ready and idle |
| `Delivery.StepKeepsDelivered` | wisp/wisp-stream.go:298-381 | order and completeness of delivery survive each step of each thread |
| `Credit.CreditBalance` | wisp/wisp-connection.go:308-350 | with k parked packets and no CONTINUE under way the counter is client credit + packets under way + k; a CONTINUE under way forces k = 0, zero credit, nothing under way and a full counter; after n charged packets n / L CONTINUEs went out |
| `Credit.ContinueEveryLPackets` | wisp/wisp-connection.go:330-334 | after n charges the counter is L - n % L and n / L CONTINUEs were sent |
| `Credit.OnlyTcpHasCredit` | wisp/wisp-stream.go:269-271 | in every run of any client, with or without confirmation, a stream that is not TCP is never charged and sends no CONTINUE, and its counter is L from the start |
| `Credit.FirstGrantAtDial` | wisp/wisp-stream.go:269-271 | under confirmation, in every run of any client, an open TCP stream sends no CONTINUE before its dial is done, and then at once one that carries L |
| `Credit.ClosedSendsNothing` | wisp/wisp-connection.go:381-395 | no step sends a CONTINUE on a connection that is closed |
| `Credit.StallMeansParked` | wisp/wisp-connection.go:308-350 | a client at zero credit with nothing under way has at least one parked packet, and the counter is stuck at their number |
| `Credit.ParkedNeverContinues` | wisp/wisp-connection.go:308-350 | once a packet was parked no CONTINUE is ever sent: parked, charged, in flight and unspent credit make up L for good |
| `Credit.StallIsPermanent` | wisp/wisp-connection.go:308-350 | no step of any thread ends a stall while stream and connection stay open |
| `Credit.StallLasts` | wisp/wisp-connection.go:308-350 | no further run ends a stall while stream and connection stay open |
| `Credit.StallReachable` | wisp/wisp-connection.go:308-350 | from every reachable live, granted, ready state with a parked packet a run stalls, unless a packet under way is refused: one larger than the queue, any nonempty one once a write has failed, or one past the parking limit |
| `Credit.StallsOrCloses` | wisp/wisp-connection.go:308-350 | every such state, without exception, has a run that stalls or closes the stream |
| `Credit.SomeRunStalls` | wisp/wisp-stream.go:269-293 | for every L the stall is reachable from the start, with and without stream confirmation |
| `Ownership.BuffersReleasedOnce` | wisp/wisp-stream.go:298-389 | each receive buffer is in exactly one of released, being written, queued, with the reader, being drained; so it is released at most once and never during a write |
| `IngressRace.UnreleasedIffLeft` | wisp/wisp-stream.go:359-381 | at rest a buffer is unreleased if and only if it is still queued, and what is queued is the one packet that stood before the queue lock when close won and was appended after the drain behind a running writer |
| `IngressRace.LeftForGood` | wisp/wisp-stream.go:298-381 | no further run releases such a buffer |
| `IngressRace.StepKeepsRaced` | wisp/wisp-stream.go:298-381 | each step of each thread keeps the facts behind that: at most one late packet, and a failed write always has someone who owes a close |
| `IngressRace.DrainedWhileShut` | wisp/wisp-stream.go:479-489 | in every run the ingress flag is clear from before the drain of a closing stream to its end |
| `IngressLeft.LateIsLeft` | wisp/wisp-stream.go:349-375 | conversely, from every reachable state in which such a packet stands behind a writer that has its batch from a closed stream, still has bytes to write or has failed, a run leaves it |
| `IngressLeft.SomePayloadIsLeft` | wisp/wisp-stream.go:349-381 | such a state is reachable for any two payloads that fit: a run leaves the second and its buffer |
| `DirectWrite.NilWriteNeedsClose` | wisp/wisp-connection.go:304-342 | in every run that crashes, or is about to, there is no connection, the packet found the stream open before close won, and found it ready after that |
| `DirectWrite.NilWriteFollows` | wisp/wisp-connection.go:304-342 | conversely, from every reachable state with a nonempty packet between the two loads and no connection, a run crashes, after which nothing moves |
| `DirectWrite.SomeRunCrashes` | wisp/wisp-connection.go:304-342 | the crash is reachable with any nonempty first packet |
| `SocketLeak.LeftOpenIffDialedLate` | wisp/wisp-stream.go:466-490 | once close has finished, a connection is left open if and only if its dial ended after close had looked for it and the failure signature did not refuse it |
| `SocketLeak.LeakedForGood` | wisp/wisp-stream.go:397-464 | nothing closes it later |
| `SocketLeak.DialMayLeak` | wisp/wisp-stream.go:208-296 | from every reachable state of an open stream whose dial is under way a run leaks the connection |
| `SocketLeak.SomeConnectionLeaks` | wisp/wisp-stream.go:208-296 | a run from the start ends with close finished and the connection open and being read |
| `Ownership.StepKeepsOwned` | wisp/wisp-connection.go:324-352 | each step of each thread keeps every buffer in exactly one place |
| `Delivery.IngressQueueIsServed` | wisp/wisp-stream.go:298-381 | in every run, of any client, pendingIngBytes is the queued length within the cap, a writer runs exactly while ingressWriting holds, and queued payloads of a live stream have one |
| `Delivery.QueueingOutcome` | wisp/wisp-stream.go:359-381 | in every run of any client a packet at the queue is refused exactly when the queued bytes and the packet pass the cap; otherwise it goes last, is charged next, and a writer is started exactly when none is running |
| `Delivery.ParkedWithinLimit` | wisp/wisp-connection.go:308-324 | in every run of any client pendingBytes is the summed length of what is parked, at most 16 MiB |
| `Delivery.IngressDrains` | wisp/wisp-stream.go:298-356 | from every state of an open stream the ingress writer alone, while writes succeed, brings all that is queued to the target in order, and goes |
| `AfterClose.NothingNewIsWritten` | wisp/wisp-stream.go:279-286 | once close has won no run brings the target more than the rest of what each goroutine had in hand: nothing parked, queued or arriving is begun |
| `Mask.XorWordIsBytewise` | wisp/wsreader.go:306-325 | one exclusive or of two words of any width is the exclusive or of their bytes in memory order, under either byte order |
| `Mask.MaskXor` | wisp/wsreader.go:302-327 | the three loops in place give byte i exclusive-or key[i mod 4], for every length, key and byte order |
| `Mask.UnmaskTwice` | wisp/wsreader.go:302-327 | masking twice is the identity |
| `FrameReader.Reader.Fill` | wisp/wsreader.go:53-75 | fails exactly when fewer than min bytes are left in the input; consumes nothing; always has room and ends |
| `FrameReader.Reader.Peek` | wisp/wsreader.go:77-82 | the next n bytes of the input, or an error exactly when there are fewer |
| `FrameReader.Reader.Consume` | wisp/wsreader.go:84-89 | the remaining input is shorter by exactly n bytes at its front |
| `FrameReader.Reader.ReadPayload` | wisp/wsreader.go:91-104 | the destination holds the next bytes of the input, buffered part first, and the rest remains; an error exactly when the input is too short |
| `FrameReader.ReadFull` | wisp/wsreader.go:97-103 | reads to the end of the destination however the network cuts its input |
| `ReadLoop.ReadHeader` | wisp/wsreader.go:112-187 | the header is consumed exactly when the pure parser accepts it; otherwise its close code |
| `ReadLoop.ReadBody` | wisp/wsreader.go:175-187 | the payload unmasked in a pooled buffer, which is put back exactly when the input ends first |
| `ReadLoop.ReadFrame` | wisp/wsreader.go:112-187 | the frame the pure parser finds at the front of the input, and the same remaining input |
| `ReadLoop.Dispatch` | wisp/wsreader.go:189-257 | the opcode switch does what the frame transition function says, and the buffer is handed off exactly when it held an unfragmented packet the handler kept, else put back |
| `ReadLoop.ReadLoop` | wisp/wsreader.go:106-259 | for every way the network cuts the input, the messages, pongs and close code are those of the pure parser over the whole byte string, and no buffer is left unsettled |
| `Frames.ParseEncoded` | wisp/wsreader.go:112-187 | the parser reads back every well-formed masked frame of all three length classes, at the front of any input |
| `Frames.FramesKeepAssembly` | wisp/wsreader.go:189-228 | fragmentedOpcode is 0 or 2, is nonzero exactly while a message is open, the assembled length never passes the cap, control frames leave it alone |
| `Frames.FragmentsRun` | wisp/wsreader.go:160-228 | any fragments with any pings and pongs between them, from an open or a fresh message, have exactly the expected events |
| `Frames.FragmentationIsTransparent` | wisp/wsreader.go:160-228 | fragments, empty ones included, deliver the same single message as the unfragmented frame, whatever follows |
| `Frames.BigMessageRefused` | wisp/wsreader.go:189-228 | a fragmented message whose pieces fit but whose total is over the cap delivers nothing and closes with 1009, whatever follows |
| `FrameLaws.LengthForms` | wisp/wsreader.go:131-158 | a length may be written in any of the three forms that hold it |
| `FrameLaws.WireParses` | wisp/wsreader.go:112-187 | a frame as bytes, in any length form, is refused with 1002 when it is a bad control frame, with 1009 when it is over the cap, and read otherwise |
| `FrameLaws.CloseIsAnswered` | wisp/wsreader.go:235-247 | a close frame is answered by one close frame and the loop ends, whatever follows: 1000 without a payload, 1002 for one byte, otherwise the first two bytes as a code |
| `FrameLaws.TextIsRefused` | wisp/wsreader.go:225-228 | a text frame closes with 1003 |
| `FrameLaws.UnknownOpcodeIsRefused` | wisp/wsreader.go:248-252 | an unknown opcode closes with 1002 |
| `FrameLaws.BadControlIsRefused` | wisp/wsreader.go:160-164 | a control frame that is fragmented or over 125 bytes closes with 1002 |
| `FrameLaws.BigFrameIsRefused` | wisp/wsreader.go:170-173 | a single frame over the cap closes with 1009 |
| `FrameLaws.BigControlIsRefused` | wisp/wsreader.go:160-173 | so does a control frame within its own limit |
| `FrameLaws.StrayContinuationIsRefused` | wisp/wsreader.go:191-196 | a continuation without a message closes with 1002 |
| `FrameLaws.NestedBinaryIsRefused` | wisp/wsreader.go:211-216 | a binary frame inside a message closes with 1002 |
| `FrameLaws.ReservedBitIsRefused` | wisp/wsreader.go:117-129 | any reserved bit closes with 1002, whatever else the frame says |
| `FrameLaws.UnmaskedIsRefused` | wisp/wsreader.go:117-129 | an unmasked frame closes with 1002 |
| `FrameLaws.HugeLengthIsRefused` | wisp/wsreader.go:152-158 | an eight-byte length with its top bit set closes with 1002 |
| `FrameLaws.PingIsAnswered` | wisp/wsreader.go:230-231 | a ping is answered by a pong with its payload and the loop goes on |
| `FrameLaws.PongIsIgnored` | wisp/wsreader.go:233-233 | a pong does nothing |
| `FrameLaws.BinaryIsDelivered` | wisp/wsreader.go:211-223 | a final binary frame is delivered and the loop goes on |
| `FrameLaws.CutFrameIsSilent` | wisp/wsreader.go:112-187 | an input that ends inside an acceptable frame ends the loop without a word |
| `FrameCodec.FrameInPlace` | wisp/wisp-stream.go:414-448 | the frame written into the headroom is sendRawFrame of type, stream id and data, and the data bytes are untouched, in all three length classes; wisp/twisp.go:103-138 is the same code |
| `FrameCodec.SendRawFrame` | wisp/v2.go:191-216 | a fresh buffer with the final binary frame of the packet |
| `FrameCodec.BuildContinue` | wisp/wisp-connection.go:381-395 | the CONTINUE frame byte by byte is the frame of its packet |
| `FrameCodec.BuildClose` | wisp/wisp-connection.go:412-423 | the CLOSE frame byte by byte is the frame of its packet |
| `FrameCodec.BuildPong` | wisp/wisp-connection.go:425-436 | the pong frame byte by byte |
| `FrameCodec.BuildWsClose` | wisp/wsreader.go:329-336 | the closing frame byte by byte, with its code |
| `FrameCodec.DecodeFrame` | wisp/v2.go:191-216 | a packet, pong or closing frame followed by anything is read back, with exactly what follows |
| `FrameCodec.FramesDecode` | wisp/v2.go:191-216 | any sequence of packets, pongs and closing codes is read back, and a reader that skips control frames gets the packets |
| `FrameCodec.FramesUnambiguous` | wisp/v2.go:191-216 | no byte stream is the framing of two different sequences |
| `FrameCodec.PacketReads` | wisp/wsreader.go:275-277 | type, stream id and payload are read back from a packet |
| `FrameCodec.DataFrameBytes` | wisp/wisp-stream.go:414-448 | the data frame byte by byte in each of the three length classes |
| `StreamTable.EveryRunKeepsInv` | wisp/wisp-connection.go:278-303 | table, slots, reader, count and deliveries stay consistent in every interleaving of the reader and any number of closes |
| `StreamTable.SlotIsLowByte` | wisp/wisp-connection.go:280-280 | two ids share a slot exactly by their low byte |
| `StreamTable.CacheNeverMisdelivers` | wisp/wisp-connection.go:278-303 | upward only: a slot holds nothing or a stream of that slot that is the current entry or already closed; every delivery from the client went to the holder of its id at that moment |
| `StreamTable.TableWithinLimit` | wisp/wisp-connection.go:188-226 | the table never passes MaxConcurrentStreamsPerConnection, and with nothing under way streamCount is its size |
| `StreamTable.CachedEqualsTable` | wisp/wisp-connection.go:280-298 | a cache hit is the table entry if and only if its stream was not stored after its close had passed the slot and its close is not between the two deletions |
| `StreamTable.CachedEqualsTableWithoutRaces` | wisp/wisp-connection.go:280-298 | with no close between a table load and its slot store, a hit is the table entry if and only if the close of that stream is not between its two deletions |
| `StreamTable.DeadStreamStaysCached` | wisp/wisp-connection.go:283-298 | a run that leaves a dead stream cached: DATA of its id is dropped although an open stream has the id, as often as it is sent, until DATA of another id in the slot or the close of the open stream replaces the entry |
| `StreamTableCalls.Streams.Find` | wisp/wisp-connection.go:278-303 | as a whole call: the stream found through the cache is the table entry, the fields end in a state of the interleaved system |
| `StreamTableCalls.Streams.Connect` | wisp/wisp-connection.go:188-226 | as a whole call: a new stream exactly when the limit is not reached and the id is free |
| `StreamTableCalls.Streams.Close` | wisp/wisp-connection.go:438-445 | as a whole call: wins once per stream, forgets its entry and its slot, touches no other slot |
| `StreamTableCalls.Streams.Delete` | wisp/wisp-connection.go:438-445 | entry, slot if it holds the id, and count, and nothing else |
| `Handshake.Connection.HandleInfo` | wisp/v2.go:142-190 | the fields and effects are those of the INFO transition: version, extension list, password, requirement, in this order |
| `Handshake.Connection.HandleWispFrame` | wisp/wsreader.go:270-300 | the fields and effects of one packet, with the gate in front |
| `HandshakeLaws.DataGoesToItsStream` | wisp/wsreader.go:295-296 | from its bytes: DATA is handed to its stream and does nothing else |
| `HandshakeLaws.CloseClosesItsStream` | wisp/wisp-connection.go:358-379 | CLOSE with a reason closes its stream, or the connection for id 0; without one it does nothing |
| `HandshakeLaws.ConnectOpens` | wisp/wisp-connection.go:172-226 | CONNECT with a name, a port and an id opens a stream, or is refused with 0x49 when the limits say so |
| `HandshakeLaws.BadConnectIsRefused` | wisp/wisp-connection.go:173-185 | CONNECT on stream 0, without a name, with a name that is no UTF-8, or without a port it needs is refused with 0x41 |
| `HandshakeLaws.ShortConnectIsRefused` | wisp/wisp-connection.go:173-176 | so is one of fewer than three bytes |
| `HandshakeLaws.ConnectLaunches` | wisp/wisp-connection.go:204-253 | a command is launched exactly when Twisp is on, the connection is v2 and authenticated by password; otherwise it is refused with 0x48 |
| `HandshakeLaws.ResizeNeedsTwisp` | wisp/wisp-connection.go:160-168 | a resize takes effect exactly with Twisp on and four bytes |
| `HandshakeLaws.OthersDoNothing` | wisp/wisp-connection.go:150-170 | no other kind does anything on an open connection |
| `HandshakeLaws.ShortPacketsDoNothing` | wisp/wsreader.go:270-273 | nor does a packet of fewer than five bytes |
| `HandshakeLaws.WaitingHoldsBack` | wisp/wsreader.go:279-293 | nor, before the handshake, any packet but INFO and the CLOSE of the connection |
| `HandshakeLaws.OtherVersionIsClosed` | wisp/v2.go:149-153 | an INFO that is too short or of another major version closes with 0x04 |
| `HandshakeLaws.BadExtensionsAreClosed` | wisp/v2.go:155-160 | so does one whose tail is no concatenation of well-formed entries |
| `HandshakeLaws.InfoOfAStreamDoesNothing` | wisp/v2.go:143-145 | only stream 0 speaks for the connection |
| `HandshakeLaws.InfoWithoutPassword` | wisp/v2.go:162-186 | an INFO that offers no password is let in unauthenticated, or closed with 0xc2 when one is required |
| `HandshakeLaws.InfoWithPassword` | wisp/v2.go:162-186 | from the client's values: the last password offered is accepted if the user is listed and it matches, else the connection is closed with 0xc0; an empty username offers none |
| `HandshakeLaws.UpgradeIs` | wisp/wisp.go:113-120 | exactly who is upgraded, and who waits for an INFO |
| `Handshake.NothingBeforeInfo` | wisp/wsreader.go:279-293 | until an INFO passes, a v2 connection opens no stream, handles no DATA, CONNECT or Twisp packet and still waits |
| `Handshake.CompletedForGood` | wisp/v2.go:142-190 | after completion authenticated and streamConfirm never change and nothing completes again |
| `Handshake.HandshakeOnce` | wisp/v2.go:133-190 | over a whole connection exactly one completion, by the first passing INFO, and its verdict stands |
| `Handshake.PacketKeepsSound` | wisp/v2.go:142-190 | each packet keeps the authentication invariant, and a guarded effect needs a finished handshake |
| `Handshake.GuardedEffectsAreAuthorized` | wisp/wisp-connection.go:229-253 | over a whole connection every stream effect is authenticated when passwords are required, a Twisp launch implies v2, password auth and authenticated, and authenticated means that some INFO presented the password of a listed user |
| `Handshake.UpgradeIsSound` | wisp/wisp.go:113-120 | every accepted upgrade starts in a state of that invariant, since required passwords and Twisp insist on v2 |
| `Extensions.AppendExtension` | wisp/v2.go:58-66 | the buffer filled byte by byte is the old one followed by id, little-endian length and metadata |
| `Extensions.ReadEntry` | wisp/v2.go:68-131 | the switch on one extension: an error exactly on malformed known metadata, otherwise the entry applied |
| `Extensions.ParseClientInfo` | wisp/v2.go:68-131 | the loop over the shrinking slice is the parser of the laws below; it ends on every payload |
| `Extensions.ParsesEntries` | wisp/v2.go:58-131 | every concatenation of addExtension entries is accepted exactly when each is well formed, and gives their left fold |
| `Extensions.AcceptedIsEntries` | wisp/v2.go:68-131 | whatever is accepted is such a concatenation |
| `Extensions.EntriesUnique` | wisp/v2.go:58-66 | a byte string has at most one decomposition into entries |
| `Extensions.ParseIffEntries` | wisp/v2.go:68-131 | accepted if and only if the tail after two bytes is a concatenation of well-formed entries, and the result is their left fold |
| `Extensions.CutEntryRejected` | wisp/v2.go:68-131 | a cut strictly inside an entry is rejected whatever whole entries precede it |
| `ExtensionLaws.PasswordReads` | wisp/v2.go:91-101 | username and password under id 2 are read back as they were, and nothing else changes |
| `ExtensionLaws.CertificateReads` | wisp/v2.go:103-121 | the four values under id 3 are read back, an empty signature leaving the old one |
| `ExtensionLaws.OthersRead` | wisp/v2.go:88-126 | ids 1 and 5 set their one flag, other ids nothing |
| `ExtensionLaws.PasswordAcceptedIff` | wisp/v2.go:91-101 | metadata under id 2 is accepted if and only if some username and password encode to it |
| `ExtensionLaws.CertificateAcceptedIff` | wisp/v2.go:103-121 | metadata under id 3 is accepted if and only if some certificate values encode to it |
| `ExtensionLaws.LastPasswordWins` | wisp/v2.go:75-131 | of several entries of id 2 the last one counts |
| `ExtensionLaws.LastCertificateWins` | wisp/v2.go:75-131 | of several entries of id 3 the last one counts, and for the signature the last one that has any |
| `ExtensionLaws.FoldFields` | wisp/v2.go:75-131 | a flag is set if and only if some entry sets it; fields no entry speaks of stay |
| `ExtensionLaws.ParsedPassword` | wisp/v2.go:58-131 | from the client's values through the bytes and back |
| `Bandwidth.Limiter.Wait` | wisp/bandwidth.go:32-68 | the table after a reservation and the time the caller may go, in place |
| `Bandwidth.Limiter.Evict` | wisp/bandwidth.go:70-82 | exactly the buckets last seen before the cutoff are deleted |
| `Bandwidth.KeysAreIndependent` | wisp/bandwidth.go:43-53 | a key's bucket is that of its own requests alone, whatever other keys do |
| `Bandwidth.FinishIsLargest` | wisp/bandwidth.go:43-53 | the finish in closed form: the largest, over all earlier requests, of its time less one burst plus the costs from it on; so nobody waits longer than the limit asks |
| `Bandwidth.LastSeenIsLastPay` | wisp/bandwidth.go:43-53 | a bucket holds the time and the finish of its key's last paid request |
| `Bandwidth.CumulativeBound` | wisp/bandwidth.go:37-68 | the cost let go by time t is at most t - t0 + burst, however late the timers and whichever waits are cancelled |
| `Bandwidth.IntervalBound` | wisp/bandwidth.go:37-68 | with exact timers the cost let go in any [a, b] is at most (b - a) + max(burst, largest cost) |
| `Bandwidth.EvictionInvisibleIff` | wisp/bandwidth.go:70-82 | forgetting a bucket changes no later reservation with a cost if and only if next + burst is no later than the eviction |
| `Bandwidth.EvictionInvisible` | wisp/bandwidth.go:32-82 | in every run over any keys, sweeps that take only buckets a burst behind change no answer |
| `Bandwidth.IdleLongEnough` | wisp/bandwidth.go:70-82 | a sweep takes only such buckets when every next <= lastSeen + idle - burst |
| `Bandwidth.EarlyEvictionShows` | wisp/bandwidth.go:32-82 | after any run, every other sweep shows: with it the key that lost its bucket is answered earlier than without it, for every positive cost |
| `Bandwidth.FirstEarlyEvictionShows` | wisp/bandwidth.go:32-82 | the first such sweep shows against the run without any sweep as well |
| `RequestWindow.SlidingWindow.Allow` | wisp/limits.go:16-30 | the entry opened or counted in place, and the answer |
| `RequestWindow.SlidingWindow.Evict` | wisp/limits.go:32-44 | exactly the entries started before the cutoff are deleted |
| `RequestWindow.AllowedIffEarly` | wisp/limits.go:16-30 | a request is allowed if and only if fewer than limit came before it in its window |
| `RequestWindow.NoLimitNoTable` | wisp/limits.go:16-19 | without a positive limit every request of every run is allowed |
| `RequestWindow.AtMostTwiceLess1` | wisp/limits.go:16-30 | at most 2 * limit - 1 requests of a key are allowed in any half-open interval of one window, over the key's own history |
| `RequestWindow.GrantedIsAllowed` | wisp/limits.go:16-44 | what a run over any keys, with sweeps that spare open windows, grants a key is what its own requests alone would be allowed |
| `RequestWindow.RunBound` | wisp/limits.go:16-44 | so the bound holds over every such run |
| `RequestWindow.BoundAttained` | wisp/limits.go:16-30 | that bound is reached for every limit and every window of at least two ticks |
| `RequestWindow.EvictionInvisible` | wisp/runtime.go:122-136 | sweeps of entries idle for at least a window leave every answer of every run unchanged |
| `RequestWindow.EarlyEvictionShows` | wisp/limits.go:32-44 | for every limit, every shorter idle time has a run in which a sweep changes an answer |
| `Signature.Detector.Record` | wisp/signature.go:44-56 | the ring is the filter of all samples ever recorded by t >= now - window |
| `Signature.Detector.Match` | wisp/signature.go:58-75 | the minimum-samples and failure-ratio question on the ring |
| `Signature.RingIsRecent` | wisp/signature.go:44-56 | trimming the front after every append is filtering the whole history |
| `Signature.MatchSeesTheWindow` | wisp/signature.go:58-75 | a Match right after a Record asks its question of exactly the samples in the window |
| `Signature.FailedCounts` | wisp/signature.go:65-72 | what Match counts is the number of samples that failed |
| `Signature.KeyInjective` | wisp/signature.go:17-17 | a key stands for one connection, address and port, whatever colons the address has |
| `Signature.PrefixSelectsConnection` | wisp/signature.go:28-40 | a key starts with a connection's prefix if and only if it was built for that connection |
| `Signature.DecimalInjective` | wisp/signature.go:17-17 | two numbers with the same decimal digits are equal |
| `Signature.Signatures.For` | wisp/signature.go:13-26 | the detector of the key, made on first use; the shared inert one when disabled |
| `Signature.Signatures.Forget` | wisp/signature.go:28-40 | removes the keys built for that connection and no others |
| `Shell.SplitShell` | wisp/twisp.go:189-231 | the words of the line's tokens; an error if and only if the line is not a sequence of tokens, that is, a quote is left open |
| `Shell.TokenizedSplits` | wisp/twisp.go:189-231 | every tokenized line is accepted with its words |
| `Shell.Tokenize` | wisp/twisp.go:189-231 | every accepted line is tokenized, up to one trailing backslash that is dropped |
| `Shell.SplitUndoesQuoting` | wisp/twisp.go:189-231 | any list of nonempty arguments, each backslash-escaped throughout or single-quoted when it has no quote, joined by spaces, splits back into the list |

## Left out

- Sockets, TLS, DNS, dialling, proxies, HTTP upgrade, PTYs and process launch: foreign calls; their outcomes are inputs.
- Configuration loading, reputation, egress classification, client address selection, `Semaphore`, `Stats`, logging: flat checks with only easy properties.
- `sync.Pool` internals and slice capacity: buffers are identities with an owner; reuse of a slice's spare room (`current[:0]`, `jobs[:0]`) is not modelled.
- DATA and RESIZE on Twisp streams, and the Twisp table: the gate in front of them is modelled, their effects are not.
- The violation counter that may close a connection after repeated refusals (wisp/wisp-connection.go:255-264): closing is an action any thread may take.
- The PTY copy loop of `readPty`: its header code is that of `readFromConnection`, which is modelled once.
- StreamTable.EveryRunKeepsInv: the table, the slots and the count are values there, since every operation on them is one atomic step; StreamTableCalls.Streams updates the same fields in place for calls that no other thread interrupts.
- StreamMachine and WriteQueue keep the queues as values for the same reason; BatchQueue.Queue and StreamFields.Stream are the in-place sections.
- ReadLoop.ReadLoop: what a handler does to the connection (closing it, say) is not fed back into the input that follows; the input simply ends.
- Bandwidth.Limiter.Wait: the floating-point rounding of the cost is not modelled; the cost is an integer input.
- RequestWindow.BoundAttained: a window of a single tick is left out, since one instant cannot hold two windows.
- Extensions.ParseIffEntries: payloads of 2^32 bytes and more are left out; the cap on messages keeps them from arriving.
- Credit.StallReachable: a packet under way that the queue refuses for its size closes the stream instead; StallsOrCloses covers it.
- StreamTable.CacheNeverMisdelivers: DATA from a target whose connection outlived its stream, sent under a reused id, is not modelled beyond the leak itself.
- WriteQueueSafety.EachRequestSettledOnce: that a waiter is signalled is modelled, the error value it is handed is not.
