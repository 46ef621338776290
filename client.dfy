/** The consumer side of a link: a peer plus two FIFO queues, serviced by a
    loop that drains the outbound queue, reads every available frame
    (handling Internal frames itself), sends keep-alives and enforces the
    keep-alive timeout.

    One iteration of that loop is Step, taking the clock reading `now` as a
    parameter. Each iteration is specified by AfterStep over LinkView, the
    value of the client's fields and its peer's. */
module Clients {
  import opened Wire
  import opened Packets
  import opened Peers

  /** Seconds between keep-alives sent, and seconds of silence before the
      link is declared dead. */
  const KEEP_ALIVE_DELAY := 3
  const KEEP_ALIVE_WAIT := 6

  const KEEP_ALIVE_SERVICE := "__KeepAlive"
  const READ_FAILED := "Failed to read packet"
  const SERVER_DISCONNECT := "Disconnected by server"
  const INVALID_INTERNAL := "Invalid internal service"
  const TIMEOUT := "Timeout"
  const LOOP_ENDED := "Disconnected"

  datatype LinkView = LinkView(
    peer: PeerView,
    packetsIn: seq<Packet>,
    packetsOut: seq<Packet>,
    lastSendAlive: int,
    lastRecvAlive: int)

  /** Packets a peer can be asked to write: anything but the local marker. */
  predicate Sendable(out: seq<Packet>)
  {
    forall i :: 0 <= i < |out| ==> out[i].opcode != Opcode.Disconnect
  }

  /** Packets that also fit their header fields. */
  predicate Serializable(out: seq<Packet>)
  {
    forall i :: 0 <= i < |out| ==> out[i].opcode != Opcode.Disconnect && Serialize(out[i]).Success?
  }

  /** The frames of a queue, back to back. */
  function Frames(out: seq<Packet>): (r: seq<byte>)
    requires Serializable(out)
  {
    if out == [] then [] else Serialize(out[0]).value + Frames(out[1..])
  }

  /** The first half of an iteration: every queued packet handed to
      peer.Write, head first. */
  function Drained(v: PeerView, out: seq<Packet>, accepts: nat -> bool): (r: PeerView)
    requires Sendable(out)
    ensures r.attempts == v.attempts + |out| && r.inbox == v.inbox
    decreases |out|
  {
    if out == [] then v else Drained(AfterWrite(v, out[0], accepts), out[1..], accepts)
  }

  /** When the socket takes every write, the stream receives the queue's
      frames in queue order and the sequence advances once per packet. */
  lemma {:induction false} DrainedInOrder(v: PeerView, out: seq<Packet>, accepts: nat -> bool)
    requires Serializable(out) && v.open
    requires forall n :: v.attempts <= n < v.attempts + |out| ==> accepts(n)
    ensures var r := Drained(v, out, accepts);
      && r.sent == v.sent + Frames(out)
      && r.sequence == (v.sequence + |out|) % 0x1_0000
      && r.state == v.state && r.open && r.reason == v.reason
    decreases |out|
  {
    if out != [] {
      assert accepts(v.attempts);
      var v' := AfterWrite(v, out[0], accepts);
      assert v'.sent == v.sent + Serialize(out[0]).value;
      assert v'.sequence == (v.sequence + 1) % 0x1_0000;
      DrainedInOrder(v', out[1..], accepts);
      assert Frames(out) == Serialize(out[0]).value + Frames(out[1..]);
      WrapAdd(v.sequence, |out| - 1);
    }
  }

  lemma WrapAdd(s: uint16, n: nat)
    ensures ((s + 1) % 0x1_0000 + n) % 0x1_0000 == (s + 1 + n) % 0x1_0000
  {
    if s + 1 == 0x1_0000 {
      assert (0x1_0000 + n) % 0x1_0000 == n % 0x1_0000;
    }
  }

  /** A closed socket takes nothing: draining sends no byte and leaves the
      sequence where it was. */
  lemma {:induction false} DrainedClosed(v: PeerView, out: seq<Packet>, accepts: nat -> bool)
    requires Sendable(out) && !v.open
    ensures var r := Drained(v, out, accepts);
      r.sent == v.sent && r.sequence == v.sequence && !r.open && (v.reason.Some? ==> r.reason == v.reason)
    decreases |out|
  {
    if out != [] {
      DrainedClosed(AfterWrite(v, out[0], accepts), out[1..], accepts);
    }
  }

  /** The reason ProcessInternal disconnects with for an Internal frame that
      is not a keep-alive: a disconnect notice of the proper 255 bytes
      carries its reason, read as DecodeFixedBytes reads it; a notice of
      any other size, and any other service, get fixed reasons. */
  function InternalReason(p: Packet): (r: string)
    ensures |r| <= TOKEN_SIZE
    ensures p.service != DISCONNECT_SERVICE ==> r == INVALID_INTERNAL
    ensures p.service == DISCONNECT_SERVICE && |p.data| != DISCONNECT_REASON_SIZE ==> r == SERVER_DISCONNECT
    ensures p.service == DISCONNECT_SERVICE && |p.data| == DISCONNECT_REASON_SIZE ==> DecodedFixed(p.data) == Success(r)
  {
    if p.service != DISCONNECT_SERVICE then INVALID_INTERNAL
    else if |p.data| != DISCONNECT_REASON_SIZE then SERVER_DISCONNECT
    else DecodedFixed(p.data).value
  }

  /** The notice Peer.Disconnect sends reaches the other side's
      ProcessInternal with its reason intact up to TOKEN_SIZE characters. */
  lemma DisconnectReasonCrossesWire(reason: string, sequence: uint16, rest: seq<byte>)
    requires PlainAscii(reason) && |reason| <= DISCONNECT_REASON_SIZE
    ensures var r := Deserialize(Serialize(DisconnectPacket(reason, sequence)).value + rest);
      && r.Success? && r.value.rest == rest
      && r.value.packet.opcode == Internal
      && InternalReason(r.value.packet) == Truncated(reason)
  {
    var notice := DisconnectPacket(reason, sequence);
    assert PlainAscii(DISCONNECT_SERVICE);
    DeserializeSerialize(notice, rest);
    assert Truncated(DISCONNECT_SERVICE) == DISCONNECT_SERVICE;
    DecodeEncodedField(reason, DISCONNECT_REASON_SIZE);
  }

  predicate IsKeepAlive(p: Packet)
  {
    p.opcode == Internal && p.service == KEEP_ALIVE_SERVICE
  }

  /** Client.ProcessInternal: a keep-alive only refreshes lastRecvAlive;
      anything else disconnects, sending a notice. Neither queues anything. */
  function AfterInternal(c: LinkView, p: Packet, now: int, accepts: nat -> bool): (r: LinkView)
    ensures r.packetsIn == c.packetsIn && r.packetsOut == c.packetsOut && r.lastSendAlive == c.lastSendAlive
    ensures r.peer.inbox == c.peer.inbox
    ensures p.service == KEEP_ALIVE_SERVICE ==> r.peer == c.peer && r.lastRecvAlive == now
    ensures p.service != KEEP_ALIVE_SERVICE ==>
      && r.lastRecvAlive == c.lastRecvAlive
      && r.peer.state == Disconnected && !r.peer.open
      && r.peer.attempts == c.peer.attempts + 1
      && (c.peer.reason.Some? ==> r.peer.reason == c.peer.reason)
  {
    if p.service == KEEP_ALIVE_SERVICE then c.(lastRecvAlive := now)
    else c.(peer := AfterDisconnect(c.peer, InternalReason(p), true, accepts))
  }

  predicate MarkerFree(s: seq<Packet>)
  {
    forall i :: 0 <= i < |s| ==> s[i].opcode != Opcode.Disconnect
  }

  predicate InternalFree(s: seq<Packet>)
  {
    forall i :: 0 <= i < |s| ==> s[i].opcode != Internal
  }

  /** The inbound queue's invariant while the loop runs. */
  predicate Clean(s: seq<Packet>)
  {
    MarkerFree(s) && InternalFree(s)
  }

  lemma CleanAppend(a: seq<Packet>, b: seq<Packet>)
    requires Clean(a) && Clean(b)
    ensures Clean(a + b)
  {
  }

  /** The packets of a read that reach the inbound queue: all but Internal. */
  function Queued(frames: seq<Packet>): (r: seq<Packet>)
    ensures |r| <= |frames|
    ensures InternalFree(r)
  {
    if frames == [] then []
    else (if frames[0].opcode == Internal then [] else [frames[0]]) + Queued(frames[1..])
  }

  lemma {:induction false} QueuedMarkerFree(frames: seq<Packet>)
    requires MarkerFree(frames)
    ensures MarkerFree(Queued(frames))
  {
    if frames != [] {
      QueuedMarkerFree(frames[1..]);
    }
  }

  lemma QueuedCons(f: Packet, frames: seq<Packet>)
    ensures Queued([f] + frames) == Queued([f]) + Queued(frames)
  {
    assert ([f] + frames)[1..] == frames;
  }

  predicate KeepAliveAmong(frames: seq<Packet>)
  {
    exists i :: 0 <= i < |frames| && IsKeepAlive(frames[i])
  }

  lemma KeepAliveAmongCons(f: Packet, frames: seq<Packet>)
    ensures KeepAliveAmong([f] + frames) <==> IsKeepAlive(f) || KeepAliveAmong(frames)
  {
    if KeepAliveAmong(frames) {
      var i :| 0 <= i < |frames| && IsKeepAlive(frames[i]);
      assert ([f] + frames)[i + 1] == frames[i];
    }
    if KeepAliveAmong([f] + frames) && !IsKeepAlive(f) {
      var i :| 0 <= i < |[f] + frames| && IsKeepAlive(([f] + frames)[i]);
      assert frames[i - 1] == ([f] + frames)[i];
    }
    if IsKeepAlive(f) {
      assert ([f] + frames)[0] == f;
    }
  }

  /** One pass of the reading loop: Peer.Read, then a failed read ends the
      link without a notice, an Internal frame goes to ProcessInternal and
      any other frame to the tail of the inbound queue. */
  function ReadOne(c: LinkView, now: int, accepts: nat -> bool): (r: (LinkView, Option<Packet>))
    requires CanRead(c.peer)
    ensures r.1 == AfterRead(c.peer).1
    ensures r.1.None? ==> !CanRead(r.0.peer) && r.0 == c.(peer := r.0.peer)
    ensures r.1.Some? ==>
      && |r.0.peer.inbox| < |c.peer.inbox| && WireOpcode(r.1.value.opcode)
      && r.0.packetsIn == c.packetsIn + Queued([r.1.value])
      && r.0.packetsOut == c.packetsOut && r.0.lastSendAlive == c.lastSendAlive
      && r.0.lastRecvAlive == if IsKeepAlive(r.1.value) then now else c.lastRecvAlive
  {
    var (v, p) := AfterRead(c.peer);
    match p
    case None => (c.(peer := AfterDrop(v, READ_FAILED)), None)
    case Some(f) =>
      assert Queued([f]) == if f.opcode == Internal then [] else [f];
      if f.opcode == Internal then (AfterInternal(c.(peer := v), f, now, accepts), p)
      else (c.(peer := v, packetsIn := c.packetsIn + [f]), p)
  }

  /** The reading half of an iteration: read while the peer has bytes
      waiting. Returns the new state and the frames read, in order. */
  function ReadInbound(c: LinkView, now: int, accepts: nat -> bool): (r: (LinkView, seq<Packet>))
    ensures r.0.packetsOut == c.packetsOut && r.0.lastSendAlive == c.lastSendAlive
    ensures r.0.lastRecvAlive == if KeepAliveAmong(r.1) then now else c.lastRecvAlive
    ensures forall i :: 0 <= i < |r.1| ==> WireOpcode(r.1[i].opcode)
    ensures !CanRead(r.0.peer)
    decreases |c.peer.inbox|
  {
    if !CanRead(c.peer) then (c, [])
    else
      var one := ReadOne(c, now, accepts);
      if one.1.None? then (one.0, [])
      else
        var f := one.1.value;
        var rest := ReadInbound(one.0, now, accepts);
        KeepAliveAmongCons(f, rest.1);
        var frames := [f] + rest.1;
        assert forall i :: 0 < i < |frames| ==> frames[i] == rest.1[i - 1];
        (rest.0, frames)
  }

  lemma ConcatAssociative<T>(a: seq<T>, b: seq<T>, c: seq<T>)
    ensures (a + b) + c == a + (b + c)
  {
  }

  /** One unfolding of ReadInbound after a frame was read. */
  lemma ReadInboundCons(c: LinkView, now: int, accepts: nat -> bool)
    requires CanRead(c.peer) && ReadOne(c, now, accepts).1.Some?
    ensures var one := ReadOne(c, now, accepts);
      var rest := ReadInbound(one.0, now, accepts);
      ReadInbound(c, now, accepts) == (rest.0, [one.1.value] + rest.1)
  {
  }

  /** The inbound queue grows by exactly the non-Internal frames read, in
      the order they were read. */
  lemma {:induction false} ReadInboundQueues(c: LinkView, now: int, accepts: nat -> bool)
    ensures var r := ReadInbound(c, now, accepts);
      r.0.packetsIn == c.packetsIn + Queued(r.1)
    decreases |c.peer.inbox|
  {
    if CanRead(c.peer) && ReadOne(c, now, accepts).1.Some? {
      var one := ReadOne(c, now, accepts);
      var f := one.1.value;
      var rest := ReadInbound(one.0, now, accepts);
      ReadInboundCons(c, now, accepts);
      ReadInboundQueues(one.0, now, accepts);
      QueuedCons(f, rest.1);
      var a, b, q := c.packetsIn, Queued([f]), Queued(rest.1);
      assert one.0.packetsIn == a + b;
      assert rest.0.packetsIn == (a + b) + q;
      ConcatAssociative(a, b, q);
      assert ReadInbound(c, now, accepts).0 == rest.0;
    }
  }

  /** Every Internal frame among these is a keep-alive. */
  predicate OnlyKeepAlives(frames: seq<Packet>)
  {
    forall i :: 0 <= i < |frames| ==> frames[i].opcode == Internal ==> IsKeepAlive(frames[i])
  }

  lemma OnlyKeepAlivesCons(f: Packet, frames: seq<Packet>)
    ensures OnlyKeepAlives([f] + frames) <==> (f.opcode == Internal ==> IsKeepAlive(f)) && OnlyKeepAlives(frames)
  {
    assert ([f] + frames)[0] == f;
    assert forall i :: 0 <= i < |frames| ==> ([f] + frames)[i + 1] == frames[i];
  }

  /** A read that decodes a frame, seen from the link: the frame comes
      back, and unless it is an Internal frame other than a keep-alive the
      peer is left as it was, minus the frame's bytes. */
  lemma ReadOneDecoded(c: LinkView, now: int, accepts: nat -> bool, f: Packet, tail: seq<byte>)
    requires CanRead(c.peer) && Deserialize(c.peer.inbox) == Success(Decoded(f, tail))
    ensures var one := ReadOne(c, now, accepts);
      && one.1 == Some(f)
      && (f.opcode != Internal || IsKeepAlive(f) ==> one.0.peer == c.peer.(inbox := tail))
      && (f.opcode == Internal && !IsKeepAlive(f) ==> !IsConnected(one.0.peer))
  {
  }

  /** The frames a client reads are the ones its peer's bytes decode to,
      in order: a prefix of them, and all of them when every Internal frame
      among them is a keep-alive. Any other Internal frame ends the link
      right after it, and a read that fails ends it before anything more is
      read. */
  lemma {:induction false} ReadInboundDecodes(c: LinkView, now: int, accepts: nat -> bool)
    requires IsConnected(c.peer)
    ensures var r := ReadInbound(c, now, accepts).1;
      var d := DecodeStream(c.peer.inbox).0;
      && r <= d
      && (OnlyKeepAlives(d) ==> r == d)
    decreases |c.peer.inbox|
  {
    if c.peer.inbox != [] {
      match Deserialize(c.peer.inbox)
      case Failure(_) =>
      case Success(Decoded(f, tail)) =>
        ReadOneDecoded(c, now, accepts, f, tail);
        ReadInboundCons(c, now, accepts);
        var one := ReadOne(c, now, accepts);
        var rest := ReadInbound(one.0, now, accepts).1;
        var d' := DecodeStream(tail).0;
        assert DecodeStream(c.peer.inbox).0 == [f] + d';
        assert ReadInbound(c, now, accepts).1 == [f] + rest;
        OnlyKeepAlivesCons(f, d');
        if IsConnected(one.0.peer) {
          assert one.0.peer.inbox == tail;
          ReadInboundDecodes(one.0, now, accepts);
        } else {
          assert rest == [];
        }
    }
  }

  /** The Internal keep-alive the loop queues: empty token and payload,
      stamped with the peer's current sequence. */
  function KeepAlivePacket(sequence: uint16): (p: Packet)
    ensures IsKeepAlive(p) && p.sequence == sequence && p.token == "" && p.data == []
  {
    CreateWithSequence(Internal, KEEP_ALIVE_SERVICE, "", [], sequence)
  }

  function SendKeepAlive(c: LinkView, now: int): (r: LinkView)
    ensures r.peer == c.peer && r.packetsIn == c.packetsIn && r.lastRecvAlive == c.lastRecvAlive
    ensures c.lastSendAlive + KEEP_ALIVE_DELAY < now ==>
      r.packetsOut == c.packetsOut + [KeepAlivePacket(c.peer.sequence)] && r.lastSendAlive == now
    ensures c.lastSendAlive + KEEP_ALIVE_DELAY >= now ==> r == c
  {
    if c.lastSendAlive + KEEP_ALIVE_DELAY < now then
      c.(packetsOut := c.packetsOut + [KeepAlivePacket(c.peer.sequence)], lastSendAlive := now)
    else c
  }

  function CheckTimeout(c: LinkView, now: int, accepts: nat -> bool): (r: LinkView)
    ensures r.packetsIn == c.packetsIn && r.packetsOut == c.packetsOut
    ensures r.lastSendAlive == c.lastSendAlive && r.lastRecvAlive == c.lastRecvAlive
    ensures c.lastRecvAlive + KEEP_ALIVE_WAIT < now ==> r.peer == AfterDisconnect(c.peer, TIMEOUT, true, accepts)
    ensures c.lastRecvAlive + KEEP_ALIVE_WAIT >= now ==> r == c
  {
    if c.lastRecvAlive + KEEP_ALIVE_WAIT < now then c.(peer := AfterDisconnect(c.peer, TIMEOUT, true, accepts))
    else c
  }

  /** One iteration of Client.Loop at clock reading now. */
  function AfterStep(c: LinkView, now: int, accepts: nat -> bool): (r: LinkView)
    requires Sendable(c.packetsOut)
  {
    var drained := c.(peer := Drained(c.peer, c.packetsOut, accepts), packetsOut := []);
    var read := ReadInbound(drained, now, accepts).0;
    CheckTimeout(SendKeepAlive(read, now), now, accepts)
  }

  /** What one iteration does to the queues: the outbound queue is emptied
      and then holds at most the one keep-alive, exactly when one is due; the
      inbound queue only grows, by the non-Internal frames read, in order. */
  lemma StepQueues(c: LinkView, now: int, accepts: nat -> bool)
    requires Sendable(c.packetsOut)
    ensures var r := AfterStep(c, now, accepts);
      var frames := ReadInbound(c.(peer := Drained(c.peer, c.packetsOut, accepts), packetsOut := []), now, accepts).1;
      && r.packetsIn == c.packetsIn + Queued(frames)
      && |r.packetsOut| == (if c.lastSendAlive + KEEP_ALIVE_DELAY < now then 1 else 0)
      && (forall i :: 0 <= i < |r.packetsOut| ==> IsKeepAlive(r.packetsOut[i]) && r.packetsOut[i].data == [])
      && Sendable(r.packetsOut)
      && MarkerFree(frames)
  {
    var drained := c.(peer := Drained(c.peer, c.packetsOut, accepts), packetsOut := []);
    var read := ReadInbound(drained, now, accepts);
    ReadInboundQueues(drained, now, accepts);
    var alive := SendKeepAlive(read.0, now);
    assert alive.packetsIn == c.packetsIn + Queued(read.1);
    assert AfterStep(c, now, accepts) == CheckTimeout(alive, now, accepts);
  }

  /** An iteration keeps the inbound queue free of markers and of Internal
      frames. */
  lemma StepKeepsInboundClean(c: LinkView, now: int, accepts: nat -> bool)
    requires Sendable(c.packetsOut) && Clean(c.packetsIn)
    ensures Clean(AfterStep(c, now, accepts).packetsIn) && Sendable(AfterStep(c, now, accepts).packetsOut)
  {
    StepQueues(c, now, accepts);
    var frames := ReadInbound(c.(peer := Drained(c.peer, c.packetsOut, accepts), packetsOut := []), now, accepts).1;
    QueuedMarkerFree(frames);
    CleanAppend(c.packetsIn, Queued(frames));
  }

  /** The timeout is strict and measured after reading: a link that
      received a keep-alive during the iteration never times out in it, and
      one silent for more than KEEP_ALIVE_WAIT ends the iteration
      disconnected. */
  lemma StepTimeout(c: LinkView, now: int, accepts: nat -> bool)
    requires Sendable(c.packetsOut)
    ensures var drained := c.(peer := Drained(c.peer, c.packetsOut, accepts), packetsOut := []);
      var frames := ReadInbound(drained, now, accepts).1;
      var r := AfterStep(c, now, accepts);
      && (KeepAliveAmong(frames) ==> r.lastRecvAlive == now && r.peer == ReadInbound(drained, now, accepts).0.peer)
      && (!KeepAliveAmong(frames) && c.lastRecvAlive + KEEP_ALIVE_WAIT < now ==>
            r.peer.state == Disconnected && !r.peer.open)
  {
  }

  /** A client constructed at time t0 and connected no earlier has a
      keep-alive due on its first iteration at any later time. */
  lemma FirstStepSendsKeepAlive(c: LinkView, t0: int, now: int, accepts: nat -> bool)
    requires c.lastSendAlive == t0 - KEEP_ALIVE_WAIT && t0 <= now && Sendable(c.packetsOut)
    ensures |AfterStep(c, now, accepts).packetsOut| == 1
  {
    StepQueues(c, now, accepts);
  }

  /** The end-of-loop marker: stamped with the peer's sequence, no payload. */
  function Marker(sequence: uint16): (p: Packet)
    ensures p.opcode == Opcode.Disconnect && p.sequence == sequence && p.data == []
  {
    CreateWithSequence(Opcode.Disconnect, "", "", [], sequence)
  }

  /** The code after Client.Loop's while: a final disconnect with notice,
      then the marker at the tail of the inbound queue. */
  function Finished(c: LinkView, accepts: nat -> bool): (r: LinkView)
    ensures r.packetsIn == c.packetsIn + [Marker(r.peer.sequence)]
    ensures r.peer == AfterDisconnect(c.peer, LOOP_ENDED, true, accepts)
    ensures r.packetsOut == c.packetsOut
  {
    var v := AfterDisconnect(c.peer, LOOP_ENDED, true, accepts);
    c.(peer := v, packetsIn := c.packetsIn + [Marker(v.sequence)])
  }

  /** A peer closed without a reason (Client.Close) gets "Socket write
      error" as its reason when the loop ends, not "Disconnected": the final
      notice is written to the closed socket first. */
  lemma CloseThenFinishRecordsWriteError(c: LinkView, accepts: nat -> bool)
    requires !c.peer.open && c.peer.reason.None?
    ensures Finished(c, accepts).peer.reason == Some(WRITE_ERROR)
  {
  }

  /** Client.Loop over a run of clock readings, one per iteration: it stops
      at the first iteration that finds the peer disconnected and finishes;
      if the readings run out first, the loop is still running. */
  function AfterLoop(c: LinkView, clock: seq<int>, accepts: nat -> bool): (r: LinkView)
    requires Sendable(c.packetsOut)
    decreases |clock|
  {
    if !IsConnected(c.peer) then Finished(c, accepts)
    else if clock == [] then c
    else
      StepQueues(c, clock[0], accepts);
      AfterLoop(AfterStep(c, clock[0], accepts), clock[1..], accepts)
  }

  /** A loop that ends puts exactly one marker into the inbound queue, as
      its last element; a loop still running has put none. Internal frames
      never reach the queue. */
  lemma {:induction false} LoopMarker(c: LinkView, clock: seq<int>, accepts: nat -> bool)
    requires Sendable(c.packetsOut) && Clean(c.packetsIn)
    ensures var r := AfterLoop(c, clock, accepts);
      && (IsConnected(r.peer) ==> MarkerFree(r.packetsIn))
      && (!IsConnected(r.peer) ==>
            && |r.packetsIn| > 0
            && r.packetsIn[|r.packetsIn| - 1].opcode == Opcode.Disconnect
            && MarkerFree(r.packetsIn[..|r.packetsIn| - 1]))
      && InternalFree(r.packetsIn)
    decreases |clock|
  {
    if !IsConnected(c.peer) {
      var r := Finished(c, accepts);
      assert r.packetsIn[..|r.packetsIn| - 1] == c.packetsIn;
    } else if clock == [] {
    } else {
      var next := AfterStep(c, clock[0], accepts);
      StepKeepsInboundClean(c, clock[0], accepts);
      LoopMarker(next, clock[1..], accepts);
      assert AfterLoop(c, clock, accepts) == AfterLoop(next, clock[1..], accepts);
    }
  }

  class Client {
    var peer: Peer?
    var packetsIn: seq<Packet>
    var packetsOut: seq<Packet>
    var lastSendAlive: int
    var lastRecvAlive: int

    function View(): LinkView
      reads this, peer
      requires peer != null
    {
      LinkView(peer.View(), packetsIn, packetsOut, lastSendAlive, lastRecvAlive)
    }

    /** new Client() at clock reading now: no peer yet, empty queues, and
        both keep-alive stamps KEEP_ALIVE_WAIT in the past. */
    constructor (now: int)
      ensures peer == null && packetsIn == [] && packetsOut == []
      ensures lastSendAlive == now - KEEP_ALIVE_WAIT && lastRecvAlive == now - KEEP_ALIVE_WAIT
    {
      peer := null;
      packetsIn := [];
      packetsOut := [];
      lastSendAlive := now - KEEP_ALIVE_WAIT;
      lastRecvAlive := now - KEEP_ALIVE_WAIT;
    }

    /** Client.Connect: a fresh connected peer over the new socket, and the
        receive stamp reset to now. */
    method Connect(now: int, accepts: nat -> bool)
      modifies this
      ensures fresh(peer) && peer.accepts == accepts
      ensures peer.View() == PeerView(0, State.Connected, true, None, [], [], 0)
      ensures lastRecvAlive == now
      ensures packetsIn == old(packetsIn) && packetsOut == old(packetsOut) && lastSendAlive == old(lastSendAlive)
    {
      peer := new Peer(accepts);
      lastRecvAlive := now;
    }

    /** Client.Available. */
    function Available(): (r: bool)
      reads this
      ensures r <==> packetsIn != []
    {
      |packetsIn| > 0
    }

    /** Client.Write: the packet joins the tail of the outbound queue. */
    method Write(p: Packet)
      requires p.opcode != Opcode.Disconnect
      modifies this
      ensures packetsOut == old(packetsOut) + [p]
      ensures packetsIn == old(packetsIn) && peer == old(peer)
      ensures lastSendAlive == old(lastSendAlive) && lastRecvAlive == old(lastRecvAlive)
    {
      packetsOut := packetsOut + [p];
    }

    /** Client.Read: the head of the inbound queue, or None when it is empty. */
    method Read() returns (p: Option<Packet>)
      modifies this
      ensures old(packetsIn) == [] ==> p.None? && packetsIn == []
      ensures old(packetsIn) != [] ==> p == Some(old(packetsIn)[0]) && packetsIn == old(packetsIn)[1..]
      ensures packetsOut == old(packetsOut) && peer == old(peer)
      ensures lastSendAlive == old(lastSendAlive) && lastRecvAlive == old(lastRecvAlive)
    {
      if packetsIn == [] {
        return None;
      }
      p := Some(packetsIn[0]);
      packetsIn := packetsIn[1..];
    }

    /** Client.Close. */
    method Close()
      requires peer != null
      modifies peer
      ensures peer.View() == AfterClose(old(peer.View()))
    {
      peer.Close();
    }

    /** Client.Disconnect: always with a notice. */
    method Disconnect(reason: string)
      requires peer != null && |reason| <= DISCONNECT_REASON_SIZE
      modifies peer
      ensures peer.View() == AfterDisconnect(old(peer.View()), reason, true, peer.accepts)
    {
      peer.Disconnect(reason, true);
    }

    /** The writing loop of Client.Loop. */
    method DrainOut()
      requires peer != null && Sendable(packetsOut)
      modifies this, peer
      ensures peer == old(peer)
      ensures View() == old(View()).(peer := Drained(old(peer.View()), old(packetsOut), peer.accepts), packetsOut := [])
    {
      while packetsOut != []
        invariant peer == old(peer) && Sendable(packetsOut)
        invariant packetsIn == old(packetsIn)
        invariant lastSendAlive == old(lastSendAlive) && lastRecvAlive == old(lastRecvAlive)
        invariant Drained(peer.View(), packetsOut, peer.accepts) == Drained(old(peer.View()), old(packetsOut), peer.accepts)
        decreases |packetsOut|
      {
        var p := packetsOut[0];
        packetsOut := packetsOut[1..];
        peer.Write(p);
      }
    }

    /** Client.ProcessInternal. */
    method ProcessInternal(p: Packet, now: int)
      requires peer != null
      modifies this, peer
      ensures peer == old(peer)
      ensures View() == AfterInternal(old(View()), p, now, peer.accepts)
    {
      if p.service == KEEP_ALIVE_SERVICE {
        lastRecvAlive := now;
      } else if p.service == DISCONNECT_SERVICE {
        if |p.data| != DISCONNECT_REASON_SIZE {
          peer.Disconnect(SERVER_DISCONNECT, true);
        } else {
          var reason := DecodeFixedBytes(p.data, TOKEN_SIZE, DISCONNECT_REASON_SIZE);
          peer.Disconnect(reason.value, true);
        }
      } else {
        peer.Disconnect(INVALID_INTERNAL, true);
      }
    }

    /** The reading loop of Client.Loop. */
    method ReadIncoming(now: int)
      requires peer != null
      modifies this, peer
      ensures peer == old(peer)
      ensures View() == ReadInbound(old(View()), now, peer.accepts).0
    {
      while peer.Available()
        invariant peer == old(peer)
        invariant ReadInbound(View(), now, peer.accepts).0 == ReadInbound(old(View()), now, peer.accepts).0
        decreases |peer.inbox|
      {
        ghost var before := View();
        var p := peer.Read();
        if p.None? {
          peer.Disconnect(READ_FAILED, false);
          assert View() == ReadOne(before, now, peer.accepts).0;
          return;
        }
        var f := p.value;
        if f.opcode == Internal {
          ProcessInternal(f, now);
        } else {
          packetsIn := packetsIn + [f];
        }
        assert View() == ReadOne(before, now, peer.accepts).0;
      }
    }

    /** One iteration of Client.Loop's outer while. */
    method Step(now: int)
      requires peer != null && Sendable(packetsOut)
      modifies this, peer
      ensures peer == old(peer)
      ensures View() == AfterStep(old(View()), now, peer.accepts)
    {
      DrainOut();
      ReadIncoming(now);
      if lastSendAlive + KEEP_ALIVE_DELAY < now {
        Write(Create(peer, Internal, KEEP_ALIVE_SERVICE, "", []));
        lastSendAlive := now;
      }
      if lastRecvAlive + KEEP_ALIVE_WAIT < now {
        peer.Disconnect(TIMEOUT, true);
      }
    }

    /** The end of Client.Loop. */
    method Finish()
      requires peer != null
      modifies this, peer
      ensures peer == old(peer)
      ensures View() == Finished(old(View()), peer.accepts)
    {
      peer.Disconnect(LOOP_ENDED, true);
      packetsIn := packetsIn + [Create(peer, Opcode.Disconnect, "", "", [])];
    }

    /** Client.Loop, one clock reading per iteration. */
    method Loop(clock: seq<int>)
      requires peer != null && Sendable(packetsOut)
      modifies this, peer
      ensures peer == old(peer)
      ensures View() == AfterLoop(old(View()), clock, peer.accepts)
    {
      var i := 0;
      while i < |clock| && peer.Connected()
        invariant 0 <= i <= |clock| && peer == old(peer) && Sendable(packetsOut)
        invariant AfterLoop(View(), clock[i..], peer.accepts) == AfterLoop(old(View()), clock, peer.accepts)
      {
        StepQueues(View(), clock[i], peer.accepts);
        assert clock[i..][1..] == clock[i + 1..];
        Step(clock[i]);
        i := i + 1;
      }
      if !peer.Connected() {
        Finish();
      }
    }
  }
}
