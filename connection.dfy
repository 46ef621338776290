/** The server side of a link: a peer plus two FIFO queues, serviced by a
    loop that runs while the peer is connected, drains the outbound queue
    and then reads while bytes are waiting. Unlike a client, a connection
    handles no frame itself: every result of Peer.Read is queued, Internal
    frames and a failed read's null included, and no keep-alive is sent or
    expected.

    One iteration is specified by AfterServe over ConnectionView, the value
    of the connection's fields and its peer's. */
module Connections {
  import opened Wire
  import opened Packets
  import opened Peers
  import opened Clients

  /** packetsIn holds what Peer.Read returned, so None stands for the null
      a failed read returns. */
  datatype ConnectionView = ConnectionView(
    peer: PeerView,
    packetsIn: seq<Option<Packet>>,
    packetsOut: seq<Packet>)

  /** The reading half of an iteration: read while the peer has bytes
      waiting, queueing each result. A failed read disconnects the peer
      inside Peer.Read, which ends the reading. Returns the new state and
      the results read, in order. */
  function ServeInbound(c: ConnectionView): (r: (ConnectionView, seq<Option<Packet>>))
    ensures r.0.packetsIn == c.packetsIn + r.1
    ensures r.0.packetsOut == c.packetsOut
    ensures !CanRead(r.0.peer)
    decreases |c.peer.inbox|, if IsConnected(c.peer) then 1 else 0
  {
    if !CanRead(c.peer) then (c, [])
    else
      var (v, p) := AfterRead(c.peer);
      assert p.Some? ==> |v.inbox| < |c.peer.inbox|;
      assert p.None? ==> v.inbox == c.peer.inbox && !IsConnected(v);
      var rest := ServeInbound(c.(peer := v, packetsIn := c.packetsIn + [p]));
      ConcatAssociative(c.packetsIn, [p], rest.1);
      (rest.0, [p] + rest.1)
  }

  /** Frames as the queue holds them. */
  function Present(frames: seq<Packet>): (r: seq<Option<Packet>>)
    ensures |r| == |frames|
    ensures forall i :: 0 <= i < |r| ==> r[i] == Some(frames[i])
  {
    seq(|frames|, i requires 0 <= i < |frames| => Some(frames[i]))
  }

  lemma PresentCons(f: Packet, frames: seq<Packet>)
    ensures Present([f] + frames) == [Some(f)] + Present(frames)
  {
    assert forall i :: 0 < i <= |frames| ==> ([f] + frames)[i] == frames[i - 1];
  }

  /** A read that fails queues its None and ends the reading. */
  lemma ServeFailedRead(c: ConnectionView)
    requires CanRead(c.peer) && Deserialize(c.peer.inbox).Failure?
    ensures var r := ServeInbound(c);
      r.1 == [None] && r.0.peer.inbox == c.peer.inbox && !IsConnected(r.0.peer)
  {
    var (v, p) := AfterRead(c.peer);
    assert p.None? && !IsConnected(v);
  }

  /** A read that succeeds queues its frame, and reading goes on from the
      bytes after it. */
  lemma ServeDecodedRead(c: ConnectionView, f: Packet, tail: seq<byte>)
    requires CanRead(c.peer) && Deserialize(c.peer.inbox) == Success(Decoded(f, tail))
    ensures var next := c.(peer := c.peer.(inbox := tail), packetsIn := c.packetsIn + [Some(f)]);
      var rest := ServeInbound(next);
      ServeInbound(c) == (rest.0, [Some(f)] + rest.1)
  {
  }

  /** A connected peer's reading queues exactly the frames its bytes
      decode to, Internal frames included, in order; a stream that does not
      decode to the end adds one None, leaves the undecodable bytes unread
      and ends the link. */
  lemma {:induction false} ServeInboundDecodes(c: ConnectionView)
    requires IsConnected(c.peer)
    ensures var r := ServeInbound(c);
      var d := DecodeStream(c.peer.inbox);
      && r.1 == Present(d.0) + (if d.1 == [] then [] else [None])
      && r.0.peer.inbox == d.1
      && (IsConnected(r.0.peer) <==> d.1 == [])
    decreases |c.peer.inbox|
  {
    if c.peer.inbox != [] {
      match Deserialize(c.peer.inbox)
      case Failure(_) =>
        ServeFailedRead(c);
      case Success(Decoded(f, tail)) =>
        ServeDecodedRead(c, f, tail);
        ServeInboundDecodes(c.(peer := c.peer.(inbox := tail), packetsIn := c.packetsIn + [Some(f)]));
        PresentCons(f, DecodeStream(tail).0);
    }
  }

  /** One iteration of Connection.Loop's while: every queued packet handed
      to peer.Write, head first, then the reading. */
  function AfterServe(c: ConnectionView, accepts: nat -> bool): (r: ConnectionView)
    requires Sendable(c.packetsOut)
    ensures r.packetsOut == []
  {
    ServeInbound(c.(peer := Drained(c.peer, c.packetsOut, accepts), packetsOut := [])).0
  }

  /** Connection.Loop, cut off after `rounds` iterations: the source's loop
      runs for as long as the peer stays connected. */
  function AfterServeLoop(c: ConnectionView, rounds: nat, accepts: nat -> bool): (r: ConnectionView)
    requires Sendable(c.packetsOut)
    decreases rounds
  {
    if !IsConnected(c.peer) || rounds == 0 then c
    else AfterServeLoop(AfterServe(c, accepts), rounds - 1, accepts)
  }

  /** An iteration with nothing to write and nothing to read changes
      nothing. */
  lemma ServeIdle(c: ConnectionView, accepts: nat -> bool)
    requires c.packetsOut == [] && c.peer.inbox == []
    ensures AfterServe(c, accepts) == c
  {
  }

  /** Later iterations find nothing: the inbound queue after any number of
      iterations is the one the first iteration leaves, and the outbound
      queue is empty. This holds because the inbox stands for every byte
      that will ever arrive, all of it there from the start; a real socket
      can deliver more bytes to a later iteration. */
  lemma {:induction false} ServeLoopSettles(c: ConnectionView, rounds: nat, accepts: nat -> bool)
    requires Sendable(c.packetsOut) && IsConnected(c.peer) && rounds > 0
    ensures AfterServeLoop(c, rounds, accepts) == AfterServe(c, accepts)
    decreases rounds
  {
    var first := AfterServe(c, accepts);
    var drained := c.(peer := Drained(c.peer, c.packetsOut, accepts), packetsOut := []);
    if IsConnected(first.peer) && rounds > 1 {
      if IsConnected(drained.peer) {
        ServeInboundDecodes(drained);
      }
      assert first.peer.inbox == [];
      ServeIdle(first, accepts);
      ServeLoopSettles(first, rounds - 1, accepts);
    }
  }

  /** What a connection's loop queues, from any number of iterations: the
      frames the peer's bytes decode to, in order, and a None for the read
      that failed, unless the writing already ended the link. */
  lemma ServeLoopQueues(c: ConnectionView, rounds: nat, accepts: nat -> bool)
    requires Sendable(c.packetsOut) && IsConnected(c.peer) && rounds > 0
    ensures var r := AfterServeLoop(c, rounds, accepts);
      var d := DecodeStream(c.peer.inbox);
      && r.packetsOut == []
      && (IsConnected(Drained(c.peer, c.packetsOut, accepts)) ==>
            r.packetsIn == c.packetsIn + Present(d.0) + (if d.1 == [] then [] else [None]))
      && (!IsConnected(Drained(c.peer, c.packetsOut, accepts)) ==> r.packetsIn == c.packetsIn)
  {
    ServeLoopSettles(c, rounds, accepts);
    var drained := c.(peer := Drained(c.peer, c.packetsOut, accepts), packetsOut := []);
    if IsConnected(drained.peer) {
      ServeInboundDecodes(drained);
    }
  }

  class Connection {
    const peer: Peer
    var packetsIn: seq<Option<Packet>>
    var packetsOut: seq<Packet>

    function View(): ConnectionView
      reads this, peer
    {
      ConnectionView(peer.View(), packetsIn, packetsOut)
    }

    /** new Connection(client): a fresh connected peer over the accepted
        socket and two empty queues. */
    constructor (accepts: nat -> bool)
      ensures fresh(peer) && peer.accepts == accepts
      ensures View() == ConnectionView(PeerView(0, State.Connected, true, None, [], [], 0), [], [])
    {
      peer := new Peer(accepts);
      packetsIn := [];
      packetsOut := [];
    }

    /** Connection.Available: true also when the head is a failed read's
        None, which Read then returns as if the queue were empty. */
    function Available(): (r: bool)
      reads this
      ensures r <==> packetsIn != []
    {
      |packetsIn| > 0
    }

    /** Connection.Write: the packet joins the tail of the outbound queue. */
    method Write(p: Packet)
      requires p.opcode != Opcode.Disconnect
      modifies this
      ensures packetsOut == old(packetsOut) + [p] && packetsIn == old(packetsIn)
    {
      packetsOut := packetsOut + [p];
    }

    /** Connection.Read: the head of the inbound queue, which may itself be
        None, or None when the queue is empty. */
    method Read() returns (p: Option<Packet>)
      modifies this
      ensures old(packetsIn) == [] ==> p.None? && packetsIn == []
      ensures old(packetsIn) != [] ==> p == old(packetsIn)[0] && packetsIn == old(packetsIn)[1..]
      ensures packetsOut == old(packetsOut)
    {
      if packetsIn == [] {
        return None;
      }
      p := packetsIn[0];
      packetsIn := packetsIn[1..];
    }

    /** The writing loop of Connection.Loop. */
    method DrainOut()
      requires Sendable(packetsOut)
      modifies this, peer
      ensures View() == old(View()).(peer := Drained(old(peer.View()), old(packetsOut), peer.accepts), packetsOut := [])
    {
      while packetsOut != []
        invariant Sendable(packetsOut) && packetsIn == old(packetsIn)
        invariant Drained(peer.View(), packetsOut, peer.accepts) == Drained(old(peer.View()), old(packetsOut), peer.accepts)
        decreases |packetsOut|
      {
        var p := packetsOut[0];
        packetsOut := packetsOut[1..];
        peer.Write(p);
      }
    }

    /** The reading loop of Connection.Loop. */
    method ReadIncoming()
      modifies this, peer
      ensures View() == ServeInbound(old(View())).0
    {
      while peer.Available()
        invariant ServeInbound(View()).0 == ServeInbound(old(View())).0
        decreases |peer.inbox|, if peer.Connected() then 1 else 0
      {
        var p := peer.Read();
        packetsIn := packetsIn + [p];
      }
    }

    /** One iteration of Connection.Loop's while. */
    method Serve()
      requires Sendable(packetsOut)
      modifies this, peer
      ensures View() == AfterServe(old(View()), peer.accepts)
    {
      DrainOut();
      ReadIncoming();
    }

    /** Connection.Loop, for at most `rounds` iterations. */
    method Loop(rounds: nat)
      requires Sendable(packetsOut)
      modifies this, peer
      ensures View() == AfterServeLoop(old(View()), rounds, peer.accepts)
    {
      var i := 0;
      while i < rounds && peer.Connected()
        invariant 0 <= i <= rounds && Sendable(packetsOut)
        invariant AfterServeLoop(View(), rounds - i, peer.accepts) == AfterServeLoop(old(View()), rounds, peer.accepts)
      {
        Serve();
        i := i + 1;
      }
    }
  }
}
