# SimpleService protocol core, in Dafny

This project models the C# protocol layer of SimpleService, a small JSON RPC
library over TCP. The model is made sequential: sockets, threads, clocks and
JSON become parameters. It proves properties of the model. The parts are:

- **wire.dfy** (`Wire`): bytes, the little-endian integers of .NET's
  `BinaryWriter`/`BinaryReader`, ASCII and UTF-8 encodings.
- **packet.dfy** (`Packets`): the frame codec. A frame is a 96-byte header
  (magic `JSPKZ`, opcode, int32 payload length, uint16 sequence, four
  reserved bytes, 32-byte token, 48-byte service) followed by the payload.
  `Serialize` and `Deserialize` are functions. `DecodeFixedBytes` is a
  method with the source's bounded `for` loop, proved against a function.
- **peer.dfy** (`Peers`): one socket endpoint as a class.
  - Its fields are the 16-bit sequence counter, the state, the socket's
    open flag and the disconnect reason.
  - The socket is abstracted. `inbox` holds the bytes the remote end will
    still deliver. `sent` holds the bytes written so far. `accepts` is an
    oracle that says whether the n-th write attempt succeeds.
  - Each method is proved to compute a function over `PeerView`, the value
    of all its fields.
- **transaction.dfy** (`Transactions`): reading a transaction from a frame,
  and the three factories for outgoing frames. A response carries the
  sequence, service and token of the request it answers.
- **client.dfy** (`Clients`): the client link.
  - It has two FIFO queues and handles Internal frames itself (keep-alive,
    disconnect notice).
  - It sends keep-alives and enforces the keep-alive timeout over integer
    clock readings.
  - When its loop ends it queues an end-of-link marker.
  - One iteration of `Loop` is the method `Step(now)`; `Loop` takes one
    clock reading per iteration.
- **connection.dfy** (`Connections`): the server-side link. It has the same
  queues but classifies nothing: every read result is queued, including a
  failed read's null (`None`).
- **consumer.dfy** (`Consumers`): the application-facing dispatcher.
  - It checks parameters before sending.
  - It keeps the table of pending response handlers, keyed by sequence
    number.
  - `Poll` routes each queued transaction: the response table first, then
    the request handlers. Every failure path disconnects with a fixed
    reason.
  - Handlers are numbered. Each invocation is logged in `calls`, and a
    request handler's answer is given by the `respond` parameter.

Two constants are referenced by the source but not defined in it. The model
fixes them as KEEP_ALIVE_DELAY = 3 and KEEP_ALIVE_WAIT = 6 seconds, so that
0 < delay < wait.

The marker opcode `Opcode.Disconnect` is used by the client and the consumer,
but it is missing from the source's `Opcode` enum. It is modelled as a local
variant that has no byte value and is never serialized.

Three behaviours of the source that a reader might not expect are kept as
written:

- **ProcessInternal's disconnect notice.** On a `__Disconnect` notice,
  `Client.ProcessInternal` calls `Peer.Disconnect` with its default
  `send = true` (`Client.cs:179,185`). It therefore answers a notice with a
  notice of its own.
- **Bad magic in Peer.Read.** On a bad magic, `Peer.Read` records the
  `ProtocolException` message ("Incoming packet has invalid magic") as the
  reason (`Peer.cs:105-106`). Every other read failure records "Socket read
  error".
- **Service names.** `DecodeFixedBytes` scans at most 32 bytes whatever the
  field width (`Packet.cs:175`). Service names of 33 to 48 characters, and
  disconnect reasons, therefore come back cut to 32 characters. The round
  trip `DeserializeSerialize` is stated with that cut.

## Model

| member | source | states |
|---|---|---|
| Wire.FromLittleEndianInt32 | src/csharp/SimpleService/Protocol/Packet.cs:147 | the int32 payload length read back is negative exactly when the top byte's high bit is set |
| Wire.LittleEndian32RoundTrip | src/csharp/SimpleService/Protocol/Packet.cs:109 | a 32-bit value written little-endian reads back unchanged |
| Packets.OpcodeOf | src/csharp/SimpleService/Protocol/Packet.cs:146 | every byte casts to an opcode that writes back as the same byte; bytes above 2 are kept as Unknown and never become the marker |
| Packets.EncodeFixedBytes | src/csharp/SimpleService/Protocol/Packet.cs:191-198 | succeeds iff the string fits; then exactly fixedSize bytes, the ASCII bytes first and zeros after |
| Packets.DecodeFixedBytes | src/csharp/SimpleService/Protocol/Packet.cs:172-183 | the loop returns the characters before the first NUL within the first 32 bytes (never more than 32, whatever the capacities); an index error when the array ends first |
| Packets.NulTerminatedAt | src/csharp/SimpleService/Protocol/Packet.cs:175-180 | the first k bytes, when they are NUL-free and byte k is NUL or k reaches the limit, are exactly what the scan returns |
| Packets.Serialize | src/csharp/SimpleService/Protocol/Packet.cs:100-123 | writing succeeds iff token ≤ 32 and service ≤ 48 characters; the frame is HEADER_SIZE + payload bytes long |
| Packets.SerializeLayout | src/csharp/SimpleService/Protocol/Packet.cs:100-123 | HEADER_SIZE is 96 and the frame holds, in order, magic, opcode byte, payload length, sequence, four zero bytes, padded token, padded service, payload |
| Packets.Deserialize | src/csharp/SimpleService/Protocol/Packet.cs:131-163 | fails with InvalidMagic exactly when the first five bytes are not the magic; a declared payload length above 0x7FFFFFC7, the largest byte array .NET allocates, fails as the array allocation does; a success consumes a prefix of at least 16 bytes and yields an opcode the wire can carry |
| Packets.DecodeEncodedField | src/csharp/SimpleService/Protocol/Packet.cs:172-198 | a NUL-free ASCII string encoded into a field of at least 32 bytes decodes to its first 32 characters |
| Packets.DeserializeSerializeFrame | src/csharp/SimpleService/Protocol/Packet.cs:100-163 | any frame Serialize writes reads back with opcode, sequence and payload intact, consuming exactly the frame |
| Packets.DeserializeSerialize | src/csharp/SimpleService/Protocol/Packet.cs:146-160 | for plain-ASCII headers that fit, reading back restores the packet with the service cut to 32 characters, and leaves the following bytes unread |
| Packets.CreateWithSequence | src/csharp/SimpleService/Protocol/Packet.cs:229-238 | the packet carries the given opcode, service, token, payload and sequence |
| Peers.Create | src/csharp/SimpleService/Protocol/Packet.cs:209-218 | the packet is stamped with the peer's current sequence, and the peer is only read, not changed |
| Peers.NextSequence | src/csharp/SimpleService/Protocol/Peer.cs:127-131 | the counter advances by one modulo 65536; 65535 wraps to 0 |
| Peers.AfterClose | src/csharp/SimpleService/Protocol/Peer.cs:165-171 | Close leaves the peer Disconnected with the socket closed, reason and sequence unchanged |
| Peers.Recorded | src/csharp/SimpleService/Protocol/Peer.cs:155-156 | a reason is recorded only while none is; the first one recorded stays |
| Peers.AfterDrop | src/csharp/SimpleService/Protocol/Peer.cs:139-160 | Disconnect without sending writes nothing, keeps the sequence, records the reason if none, ends Disconnected |
| Peers.AfterWrite | src/csharp/SimpleService/Protocol/Peer.cs:119-132 | a write that succeeds appends the frame's bytes and advances the sequence mod 65536; a failed one sends nothing, keeps the sequence and disconnects with "Socket write error" unless a reason is already recorded |
| Peers.DisconnectPacket | src/csharp/SimpleService/Protocol/Peer.cs:144-151 | the notice is an Internal `__Disconnect` frame with empty token, a 255-byte payload and the current sequence, and it always serializes |
| Peers.AfterDisconnect | src/csharp/SimpleService/Protocol/Peer.cs:139-160 | ends Disconnected; with send, exactly one notice is written straight to the socket; if that write fails, "Socket write error" is recorded ahead of the caller's reason; an earlier reason is never replaced |
| Peers.AfterRead | src/csharp/SimpleService/Protocol/Peer.cs:102-113 | an open peer whose bytes decode returns that frame and keeps the bytes after it, changing nothing else; otherwise it returns nothing and disconnects without sending, with the invalid-magic message or "Socket read error" |
| Peers.RunNeverReconnects | src/csharp/SimpleService/Protocol/Peer.cs:139-171 | after any sequence of reads, writes, disconnects and closes, a peer that has left Connected never returns, a closed socket stays closed, and a recorded reason never changes |
| Peers.Peer.constructor | src/csharp/SimpleService/Protocol/Peer.cs:198-207 | a new peer is Connected with sequence 0 and no reason |
| Peers.Peer.Connected | src/csharp/SimpleService/Protocol/Peer.cs:42-46 | connected iff the socket is open and the state is Connected |
| Peers.Peer.Available | src/csharp/SimpleService/Protocol/Peer.cs:69-76 | bytes are available only on a connected peer with unread bytes |
| Peers.Peer.Read | src/csharp/SimpleService/Protocol/Peer.cs:102-113 | the method computes AfterRead |
| Peers.Peer.Write | src/csharp/SimpleService/Protocol/Peer.cs:119-132 | the method computes AfterWrite |
| Peers.Peer.Disconnect | src/csharp/SimpleService/Protocol/Peer.cs:139-160 | the method, re-entering itself through Write, computes AfterDisconnect |
| Peers.Peer.Close | src/csharp/SimpleService/Protocol/Peer.cs:165-171 | the method computes AfterClose |
| Transactions.FromPacket | src/csharp/SimpleService/Protocol/Transaction.cs:145-155 | a transaction exists iff the payload parses; sequence, service and token are copied; IsMessage iff the opcode is Message, otherwise IsRequest, never both |
| Transactions.CreateMessage | src/csharp/SimpleService/Protocol/Transaction.cs:83-95 | as written: fails iff the token exceeds 32 characters; otherwise a Message frame with the peer's sequence and the UTF-8 payload |
| Transactions.CreateMessageAcceptsLongService | src/csharp/SimpleService/Protocol/Transaction.cs:85-88 | a 49-character service passes CreateMessage and yields a frame that cannot be serialized |
| Transactions.CreateMessageChecked | src/csharp/SimpleService/Protocol/Transaction.cs:83-95 | fails with the token error iff the token exceeds 32, with the service error iff the token fits and the service exceeds 48; every frame it builds serializes |
| Transactions.CreateMessageCheckedAgrees | src/csharp/SimpleService/Protocol/Transaction.cs:83-95 | the corrected and as-written factories agree on every service that fits its field |
| Transactions.CreateRequest | src/csharp/SimpleService/Protocol/Transaction.cs:105-111 | never fails; a Request frame with the peer's sequence, the given service and token, and the UTF-8 payload |
| Transactions.CreateResponse | src/csharp/SimpleService/Protocol/Transaction.cs:120-126 | a Request frame with the transaction's sequence, service and token, carrying the answer's UTF-8 payload |
| Transactions.ResponseAddressesRequest | src/csharp/SimpleService/Protocol/Transaction.cs:120-155 | a response to a transaction read from a packet reads back as a request with that packet's sequence, service and token |
| Transactions.ResponseSequenceSurvivesWire | src/csharp/SimpleService/Protocol/Transaction.cs:120-126 | a response serializes, and is read from the wire as a Request frame with the request's sequence |
| Clients.Drained | src/csharp/SimpleService/Protocol/Client.cs:116-121 | draining makes one write attempt per queued packet and leaves the inbox alone |
| Clients.DrainedInOrder | src/csharp/SimpleService/Protocol/Client.cs:116-121 | when every write is taken, the stream receives the queue's frames in queue order and the sequence advances once per packet, modulo 65536 |
| Clients.DrainedClosed | src/csharp/SimpleService/Protocol/Client.cs:116-121 | a closed socket receives nothing and the sequence stays |
| Clients.InternalReason | src/csharp/SimpleService/Protocol/Client.cs:177-189 | a 255-byte `__Disconnect` payload yields its decoded reason; any other length yields "Disconnected by server"; any other service yields "Invalid internal service" |
| Clients.DisconnectReasonCrossesWire | src/csharp/SimpleService/Protocol/Client.cs:177-186 | the notice one peer's Disconnect writes reaches the other client's ProcessInternal with its reason intact up to 32 characters |
| Clients.AfterInternal | src/csharp/SimpleService/Protocol/Client.cs:174-190 | a keep-alive only sets lastRecvAlive to now; anything else disconnects with a notice; nothing is queued |
| Clients.Queued | src/csharp/SimpleService/Protocol/Client.cs:139-142 | Internal frames never reach the inbound queue |
| Clients.ReadOne | src/csharp/SimpleService/Protocol/Client.cs:132-142 | the result is Peer.Read's; a failed read ends reading and changes nothing but the peer; a frame read is queued unless Internal, and only a keep-alive refreshes lastRecvAlive |
| Clients.ReadInbound | src/csharp/SimpleService/Protocol/Client.cs:127-148 | reading stops only when the peer can no longer read; lastRecvAlive becomes now iff a keep-alive was read; the outbound queue is untouched |
| Clients.ReadInboundQueues | src/csharp/SimpleService/Protocol/Client.cs:127-148 | the inbound queue grows by exactly the non-Internal frames read, in read order |
| Clients.ReadInboundDecodes | src/csharp/SimpleService/Protocol/Client.cs:127-148 | the frames read are a prefix of the frames the peer's bytes decode to, and all of them when every Internal frame among them is a keep-alive |
| Clients.KeepAlivePacket | src/csharp/SimpleService/Protocol/Client.cs:152 | the keep-alive is an Internal `__KeepAlive` frame with empty token and payload and the current sequence |
| Clients.SendKeepAlive | src/csharp/SimpleService/Protocol/Client.cs:151-154 | when lastSendAlive + DELAY < now, exactly one keep-alive is queued and lastSendAlive becomes now; otherwise nothing changes |
| Clients.CheckTimeout | src/csharp/SimpleService/Protocol/Client.cs:157-159 | when lastRecvAlive + WAIT < now, the peer disconnects with "Timeout" and a notice; otherwise nothing changes |
| Clients.StepQueues | src/csharp/SimpleService/Protocol/Client.cs:114-160 | an iteration empties the outbound queue, which then holds one keep-alive exactly when one is due; the inbound queue grows only by the non-Internal frames read, in order |
| Clients.StepKeepsInboundClean | src/csharp/SimpleService/Protocol/Client.cs:127-148 | an iteration keeps the inbound queue free of markers and Internal frames |
| Clients.StepTimeout | src/csharp/SimpleService/Protocol/Client.cs:151-159 | a keep-alive read in the iteration prevents the timeout; silence longer than WAIT ends the iteration disconnected |
| Clients.FirstStepSendsKeepAlive | src/csharp/SimpleService/Protocol/Client.cs:16-17 | with lastSendAlive starting WAIT seconds in the past, the first iteration queues a keep-alive, whatever was queued before it |
| Clients.Marker | src/csharp/SimpleService/Protocol/Client.cs:167 | the marker has the Disconnect opcode, the peer's sequence and no payload |
| Clients.Finished | src/csharp/SimpleService/Protocol/Client.cs:162-167 | after the loop, the peer disconnects with "Disconnected" and a notice, then the marker joins the tail of the inbound queue |
| Clients.CloseThenFinishRecordsWriteError | src/csharp/SimpleService/Protocol/Client.cs:164 | a peer closed with no reason ends with "Socket write error" as its reason, because the final notice is written to the closed socket |
| Clients.LoopMarker | src/csharp/SimpleService/Protocol/Client.cs:109-168 | a loop that ended has put exactly one marker in the inbound queue, as its last element; a loop still running has put none; no Internal frame is ever queued |
| Clients.Client.constructor | src/csharp/SimpleService/Protocol/Client.cs:12-17 | empty queues, no peer, both keep-alive stamps WAIT seconds before now |
| Clients.Client.Connect | src/csharp/SimpleService/Protocol/Client.cs:54-61 | a fresh connected peer and lastRecvAlive = now; the queues are unchanged |
| Clients.Client.Available | src/csharp/SimpleService/Protocol/Client.cs:42-46 | true iff the inbound queue is non-empty |
| Clients.Client.Write | src/csharp/SimpleService/Protocol/Client.cs:196-198 | the packet joins the tail of the outbound queue; nothing else changes |
| Clients.Client.Read | src/csharp/SimpleService/Protocol/Client.cs:203-207 | removes and returns the head of the inbound queue, or returns nothing when it is empty |
| Clients.Client.Close | src/csharp/SimpleService/Protocol/Client.cs:94-96 | closes the peer |
| Clients.Client.Disconnect | src/csharp/SimpleService/Protocol/Client.cs:102-104 | disconnects the peer with a notice |
| Clients.Client.DrainOut | src/csharp/SimpleService/Protocol/Client.cs:116-121 | the loop writes the whole outbound queue, head first, as Drained says |
| Clients.Client.ProcessInternal | src/csharp/SimpleService/Protocol/Client.cs:174-190 | the method computes AfterInternal |
| Clients.Client.ReadIncoming | src/csharp/SimpleService/Protocol/Client.cs:127-148 | the reading loop computes ReadInbound |
| Clients.Client.Step | src/csharp/SimpleService/Protocol/Client.cs:114-160 | one iteration computes AfterStep: drain, read, keep-alive, timeout |
| Clients.Client.Finish | src/csharp/SimpleService/Protocol/Client.cs:162-167 | the end of the loop computes Finished |
| Clients.Client.Loop | src/csharp/SimpleService/Protocol/Client.cs:109-168 | the loop over clock readings computes AfterLoop |
| Connections.ServeInbound | src/csharp/SimpleService/Protocol/Connection.cs:61-71 | every read result is appended to the inbound queue, in order; reading stops only when the peer can no longer read |
| Connections.ServeInboundDecodes | src/csharp/SimpleService/Protocol/Connection.cs:61-71 | a connected peer queues exactly the frames its bytes decode to, Internal ones included; a stream that does not decode to the end adds one None and ends the link |
| Connections.AfterServe | src/csharp/SimpleService/Protocol/Connection.cs:50-71 | an iteration leaves the outbound queue empty |
| Connections.ServeLoopSettles | src/csharp/SimpleService/Protocol/Connection.cs:48-72 | iterations after the first find nothing to do, because the inbox holds all bytes from the start: the loop's result is the first iteration's |
| Connections.ServeLoopQueues | src/csharp/SimpleService/Protocol/Connection.cs:48-72 | the loop queues the decoded frames, and a None for a failed read, unless writing already ended the link; there is no keep-alive or timeout |
| Connections.Connection.constructor | src/csharp/SimpleService/Protocol/Connection.cs:101-111 | a fresh connected peer and two empty queues |
| Connections.Connection.Available | src/csharp/SimpleService/Protocol/Connection.cs:32-36 | true iff the inbound queue is non-empty, even when its head is a failed read |
| Connections.Connection.Write | src/csharp/SimpleService/Protocol/Connection.cs:82-84 | the packet joins the outbound tail; the inbound queue is unchanged |
| Connections.Connection.Read | src/csharp/SimpleService/Protocol/Connection.cs:89-93 | removes and returns the inbound head, or returns nothing when the queue is empty |
| Connections.Connection.DrainOut | src/csharp/SimpleService/Protocol/Connection.cs:50-55 | the loop writes the outbound queue head first, as Drained says |
| Connections.Connection.ReadIncoming | src/csharp/SimpleService/Protocol/Connection.cs:61-71 | the reading loop computes ServeInbound |
| Connections.Connection.Serve | src/csharp/SimpleService/Protocol/Connection.cs:48-72 | one iteration computes AfterServe |
| Connections.Connection.Loop | src/csharp/SimpleService/Protocol/Connection.cs:43-76 | the loop computes AfterServeLoop |
| Consumers.RefusalMatchesCreateMessage | src/csharp/SimpleService/Consumer.cs:100-108 | the consumer's checks refuse exactly what the corrected CreateMessage refuses, with the same error, so every message it sends fits its header fields |
| Consumers.AfterMessage | src/csharp/SimpleService/Consumer.cs:100-109 | a message that passes the checks appends one Message frame with the peer's sequence, the given service and token and the UTF-8 payload, which serializes; nothing else changes |
| Consumers.AfterRequest | src/csharp/SimpleService/Consumer.cs:192-207 | the handler is stored under the peer's current sequence, replacing any there, and the request joins the outbound tail |
| Consumers.RequestsCollide | src/csharp/SimpleService/Consumer.cs:200-206 | two requests made before a write carry the same sequence, and only the second handler stays pending |
| Consumers.Dispatch | src/csharp/SimpleService/Consumer.cs:217-241 | only the marker clears `connected`; the inbound queue is not touched |
| Consumers.DispatchBounded | src/csharp/SimpleService/Consumer.cs:217-241 | one packet runs at most one handler, removes at most its own sequence from the pending table, and writes at most one frame, a response addressed to it; only a request is answered; the peer is untouched or disconnected for one of Poll's reasons |
| Consumers.ResponseRouted | src/csharp/SimpleService/Consumer.cs:264-270 | a request whose sequence is pending calls that handler once and removes it; no request handler is consulted and nothing is written |
| Consumers.RequestServed | src/csharp/SimpleService/Consumer.cs:273-280 | a request for a bound service runs its handler and writes the answer addressed with the request's sequence, service and token |
| Consumers.DispatchFailures | src/csharp/SimpleService/Consumer.cs:212-285 | bad JSON, an unbound service, and an Internal or unknown opcode each disconnect with a notice and their own reason, and change nothing else |
| Consumers.MessageDelivered | src/csharp/SimpleService/Consumer.cs:249-254 | a message for a bound service runs its handler and writes nothing |
| Consumers.PollStopsAtMarker | src/csharp/SimpleService/Consumer.cs:235-238 | Poll stops at the first marker, consuming it and leaving what follows queued, with `connected` false |
| Consumers.PollDrains | src/csharp/SimpleService/Consumer.cs:212-243 | with no marker queued, Poll empties the queue and leaves `connected` as it was |
| Consumers.PollAfterLoopEnded | src/csharp/SimpleService/Consumer.cs:212-243 | once the client loop has ended, Poll consumes the whole queue, marker last, and the consumer is no longer connected |
| Consumers.RequestAnswered | src/csharp/SimpleService/Consumer.cs:192-270 | a request answered through CreateResponse reaches its handler with the answer's data, and the pending entry is removed |
| Consumers.Consumer.constructor | src/csharp/SimpleService/Consumer.cs:292-297 | a new client without a peer, empty queues, both keep-alive stamps KEEP_ALIVE_WAIT before now; empty response table, not connected |
| Consumers.Consumer.Connect | src/csharp/SimpleService/Consumer.cs:37-50 | connects the client to a fresh connected peer, sets its receive stamp to now and `connected`; queues, send stamp, table and calls stay |
| Consumers.Consumer.Close | src/csharp/SimpleService/Consumer.cs:55-57 | closes the client's peer |
| Consumers.Consumer.Disconnect | src/csharp/SimpleService/Consumer.cs:63-65 | disconnects the client's peer with a notice |
| Consumers.Consumer.Message | src/csharp/SimpleService/Consumer.cs:100-109 | refuses on a token over 32 or a service over 48, or without a peer, leaving the client unchanged; otherwise computes AfterMessage, keep-alive stamps included |
| Consumers.Consumer.Request | src/csharp/SimpleService/Consumer.cs:192-207 | refuses on the same checks, leaving consumer and client unchanged; otherwise computes AfterRequest, keep-alive stamps included |
| Consumers.Consumer.HandleMessage | src/csharp/SimpleService/Consumer.cs:249-258 | the method computes AfterHandleMessage |
| Consumers.Consumer.HandleRequest | src/csharp/SimpleService/Consumer.cs:264-285 | the method computes AfterHandleRequest over the whole view, so queues other than the outbound one and the keep-alive stamps stay |
| Consumers.Consumer.DispatchPacket | src/csharp/SimpleService/Consumer.cs:217-241 | the loop body computes Dispatch over the whole view, keep-alive stamps included |
| Consumers.Consumer.Poll | src/csharp/SimpleService/Consumer.cs:212-243 | without a peer nothing is queued and nothing changes; otherwise the loop computes AfterPoll over the whole view: head first, until the queue is empty or a marker is consumed |

## Left out

- Server.cs, Host.cs, Service.cs, Handler.cs, IClient.cs and the node port are not part of this model. They are listener plumbing, stubs and plain records.
- Threads and `ConcurrentQueue` are not modelled: each loop runs sequentially, so an empty `TryDequeue` cannot happen inside a loop.
- TCP sockets are not modelled: `TcpClient` and `NetworkStream` become the peer's `inbox`, `sent` and `accepts`. Socket timeouts, `Flush` and address strings are left out.
- The inbox holds every byte that will ever arrive, and it is read as `BinaryReader` reads a stream that has ended. A frame cut inside its first 16 bytes fails. So does a token field cut short before its NUL, and a service field cut short before a NUL within its first 32 bytes. A service field cut after 32 bytes reads as its first 32 characters, and a payload cut short is read short; in both cases the frame succeeds.
- Packets.Deserialize on a live socket: the source waits for missing bytes and, when none come within the 3-second receive timeout (`Peer.cs:200`), fails with "Socket read error". The model has no bytes arriving later, so it reads a short frame as at the end of a stream.
- A write that fails part-way has its partial bytes dropped: a failed write adds nothing to `sent`.
- The wall clock (`Utilities.Timestamp`, floating seconds) becomes integer clock readings passed in. Logging is left out.
- JSON is not modelled. Parsing is a partial function the caller supplies. A request handler's answer, serialized, is a parameter. `JsonConvert` and `JObject` text forms are not modelled.
- The object and JObject overloads of `Consumer.Message` and `Consumer.Request` are left out. They only serialize and forward to the string overloads.
- The `Consumer(host, port)` constructors are left out. They are the plain constructor followed by Connect.
- The handler dictionaries are constructor parameters. The source never populates them.
- A handler is a number, and calling it is recorded in `calls`.
- A packet's `source` peer field is left out.
- The marker's null payload is modelled as an empty payload.
- StringBuilder capacities are left out. Every call passes a maximum capacity of at least 32, so they never matter.
- The try/catch around each read in Client.Loop and Connection.Loop is left out. In the model nothing inside them can throw.
- Clients.Client.Write: requires that the packet is not the marker. Every caller queues a real frame; the marker has no opcode byte to write.
- Connections.Connection.Write: requires that the packet is not the marker, for the same reason.
- Peers.Peer.Disconnect: requires a reason of at most 255 characters when sending. A longer reason makes `Array.Copy` throw.
- Clients.Client.Loop: the clock is a finite sequence of readings. When it runs out first, the loop is left running, not finished.
- Connections.Connection.Loop: runs at most the given number of iterations. The source loops for as long as the peer stays connected.
- Clients.Client.Close: requires that the client has a peer. Before any Connect the source throws a NullReferenceException.
- Clients.Client.Disconnect: requires that the client has a peer, for the same reason.
- Consumers.Consumer.Close: requires that the client has a peer. Before any Connect the source throws a NullReferenceException.
- Consumers.Consumer.Disconnect: requires that the client has a peer, for the same reason.
- Strings are sequences of Unicode scalar values, and the model counts a string's length per character. C# `Length` counts UTF-16 code units, so a character outside the Basic Multilingual Plane counts 1 in the model and 2 in the source. The four lines below follow from this.
- Packets.EncodeFixedBytes: a string with characters outside the Basic Multilingual Plane is encoded with one `?` per character. In the source, `Array.Copy` then has fewer ASCII bytes than `Length` and throws.
- Packets.Serialize: for the same strings, succeeds where the source's write throws and disconnects with "Socket write error".
- Transactions.CreateMessage: for the same strings, the length check compares character counts, not UTF-16 lengths.
- Consumers.Refusal: lets through a token of 17 to 32 characters outside the Basic Multilingual Plane, which the source refuses because its `Length` is over 32.
- JSON payloads, and payloads in general, are limited to 0x7FFFFFC7 bytes, the largest byte array .NET allocates. An allocation that fails earlier for lack of memory is not modelled.

## Findings

| source | as written | input that shows it | evidently intended | confidence | as-written member | corrected member |
|---|---|---|---|---|---|---|
| src/csharp/SimpleService/Protocol/Transaction.cs:87 | the second check compares the token, not the service, against SERVICE_SIZE, so the service is never checked | a service of 49 characters with an empty token: CreateMessage returns a frame that Serialize cannot write | reject a service longer than SERVICE_SIZE | not executed | Transactions.CreateMessageAcceptsLongService | Transactions.CreateMessageChecked |
