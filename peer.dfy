/** One socket endpoint: reads and writes whole frames, owns the 16-bit
    sequence counter, the connection state and the disconnect reason.

    The socket is abstracted to three things: `inbox`, the bytes the remote
    end will still deliver, read as a BinaryReader reads a stream that has
    ended (a frame cut inside its first 16 bytes fails; so does a token
    field cut short before its NUL, and a service field cut short before a
    NUL within its first 32 bytes; a service field cut after 32 bytes reads
    as its first 32 characters, and a payload cut short is read short);
    `sent`, the bytes
    written so far; and `accepts`, fixed when the peer is made, which says for
    the n-th write attempt whether the socket takes the bytes.

    Every operation is specified by a function over PeerView, the value of
    all fields; the functions carry the properties and the class's methods
    are proved to compute them. */
module Peers {
  import opened Wire
  import opened Packets

  datatype State = Connected | Disconnecting | Disconnected

  /** `open` is the TCP client's own flag: Close clears it together with
      setting the state to Disconnected. */
  datatype PeerView = PeerView(
    sequence: uint16,
    state: State,
    open: bool,
    reason: Option<string>,
    sent: seq<byte>,
    inbox: seq<byte>,
    attempts: nat)

  const DISCONNECT_REASON_SIZE := 255
  const DISCONNECT_SERVICE := "__Disconnect"
  const INVALID_MAGIC_MESSAGE := "Incoming packet has invalid magic"
  const WRITE_ERROR := "Socket write error"
  const READ_ERROR := "Socket read error"

  function NextSequence(s: uint16): (r: uint16)
    ensures r == (s + 1) % 0x1_0000
    ensures s == UINT16_MAX ==> r == 0
  {
    if s == UINT16_MAX then 0 else s + 1
  }

  predicate IsConnected(v: PeerView)
  {
    v.open && v.state == Connected
  }

  /** Peer.Available: a connected peer with unread bytes waiting. */
  predicate CanRead(v: PeerView)
  {
    IsConnected(v) && |v.inbox| > 0
  }

  /** Peer.Close. */
  function AfterClose(v: PeerView): (r: PeerView)
    ensures r.state == Disconnected && !r.open
    ensures r.reason == v.reason && r.sequence == v.sequence && r.sent == v.sent
  {
    v.(state := Disconnected, open := false)
  }

  /** The reason assignment inside Disconnect: only while none is recorded. */
  function Recorded(v: PeerView, reason: string): (r: PeerView)
    ensures r.reason == if v.reason.Some? then v.reason else Some(reason)
  {
    if v.reason.None? then v.(reason := Some(reason)) else v
  }

  /** Disconnect(reason, send: false): nothing is written. */
  function AfterDrop(v: PeerView, reason: string): (r: PeerView)
    ensures r.state == Disconnected && !r.open
    ensures r.reason == if v.reason.Some? then v.reason else Some(reason)
    ensures r.sequence == v.sequence && r.sent == v.sent && r.inbox == v.inbox && r.attempts == v.attempts
  {
    AfterClose(Recorded(v.(state := Disconnecting), reason))
  }

  /** Whether Write gets the frame onto the socket: it must serialize (token
      and service fit), the socket must be open, and the socket must take it. */
  predicate WriteSucceeds(v: PeerView, p: Packet, accepts: nat -> bool)
    requires p.opcode != Opcode.Disconnect
  {
    Serialize(p).Success? && v.open && accepts(v.attempts)
  }

  /** Peer.Write. */
  function AfterWrite(v: PeerView, p: Packet, accepts: nat -> bool): (r: PeerView)
    requires p.opcode != Opcode.Disconnect
    ensures r.attempts == v.attempts + 1 && r.inbox == v.inbox
    ensures WriteSucceeds(v, p, accepts) ==>
      && r.sequence == (v.sequence + 1) % 0x1_0000
      && r.sent == v.sent + Serialize(p).value
      && r.state == v.state && r.open == v.open && r.reason == v.reason
    ensures !WriteSucceeds(v, p, accepts) ==>
      && r.sequence == v.sequence && r.sent == v.sent
      && r.state == Disconnected && !r.open
      && r.reason == if v.reason.Some? then v.reason else Some(WRITE_ERROR)
  {
    var v' := v.(attempts := v.attempts + 1);
    if WriteSucceeds(v, p, accepts) then
      v'.(sent := v.sent + Serialize(p).value, sequence := NextSequence(v.sequence))
    else
      AfterDrop(v', WRITE_ERROR)
  }

  /** The Internal packet Disconnect sends: empty token, the reason NUL-padded
      to exactly 255 bytes, stamped with the current sequence. */
  function DisconnectPacket(reason: string, sequence: uint16): (p: Packet)
    requires |reason| <= DISCONNECT_REASON_SIZE
    ensures p.opcode == Internal && p.service == DISCONNECT_SERVICE && p.token == ""
    ensures p.sequence == sequence && |p.data| == DISCONNECT_REASON_SIZE
    ensures Serialize(p).Success?
  {
    CreateWithSequence(Internal, DISCONNECT_SERVICE, "", EncodeFixedBytes(reason, DISCONNECT_REASON_SIZE).value, sequence)
  }

  /** Peer.Disconnect(reason, send). With send, the notice is written straight
      to the socket; if that write fails, the nested disconnect records
      "Socket write error" before the caller's reason can be. */
  function AfterDisconnect(v: PeerView, reason: string, send: bool, accepts: nat -> bool): (r: PeerView)
    requires send ==> |reason| <= DISCONNECT_REASON_SIZE
    ensures r.state == Disconnected && !r.open && r.inbox == v.inbox
    ensures v.reason.Some? ==> r.reason == v.reason
    ensures !send ==>
      && r.reason == (if v.reason.Some? then v.reason else Some(reason))
      && r.sequence == v.sequence && r.sent == v.sent && r.attempts == v.attempts
    ensures send ==>
      var notice := DisconnectPacket(reason, v.sequence);
      && r.attempts == v.attempts + 1
      && (v.open && accepts(v.attempts) ==>
            && r.sent == v.sent + Serialize(notice).value
            && r.sequence == (v.sequence + 1) % 0x1_0000
            && r.reason == (if v.reason.Some? then v.reason else Some(reason)))
      && (!(v.open && accepts(v.attempts)) ==>
            && r.sent == v.sent && r.sequence == v.sequence
            && r.reason == (if v.reason.Some? then v.reason else Some(WRITE_ERROR)))
  {
    var v1 := v.(state := Disconnecting);
    var v2 := if send then AfterWrite(v1, DisconnectPacket(reason, v.sequence), accepts) else v1;
    AfterClose(Recorded(v2, reason))
  }

  /** Peer.Read: one frame, or None after disconnecting without a notice. A
      bad magic records the ProtocolException's message; any other failure,
      including a read on a closed stream, records "Socket read error". */
  function AfterRead(v: PeerView): (r: (PeerView, Option<Packet>))
    ensures r.1.Some? ==>
      && v.open && r.0 == v.(inbox := r.0.inbox)
      && |r.0.inbox| < |v.inbox| && v.inbox == v.inbox[..|v.inbox| - |r.0.inbox|] + r.0.inbox
      && Deserialize(v.inbox) == Success(Decoded(r.1.value, r.0.inbox))
    ensures r.1.None? ==>
      && r.0 == AfterDrop(v, if v.open && Deserialize(v.inbox) == Failure(InvalidMagic) then INVALID_MAGIC_MESSAGE else READ_ERROR)
    ensures v.open && Deserialize(v.inbox).Success? ==>
      r == (v.(inbox := Deserialize(v.inbox).value.rest), Some(Deserialize(v.inbox).value.packet))
    ensures r.1.None? <==> !v.open || Deserialize(v.inbox).Failure?
  {
    if !v.open then (AfterDrop(v, READ_ERROR), None)
    else
      match Deserialize(v.inbox)
      case Success(Decoded(p, rest)) => (v.(inbox := rest), Some(p))
      case Failure(InvalidMagic) => (AfterDrop(v, INVALID_MAGIC_MESSAGE), None)
      case Failure(_) => (AfterDrop(v, READ_ERROR), None)
  }

  /** The frames that successive Deserialize calls take off the front of a
      byte stream, up to the first call that fails, and the bytes left from
      there on: the reference that reading a peer is measured against. */
  function DecodeStream(inbox: seq<byte>): (r: (seq<Packet>, seq<byte>))
    ensures |r.1| <= |inbox|
    decreases |inbox|
  {
    if inbox == [] then ([], [])
    else
      match Deserialize(inbox)
      case Failure(_) => ([], inbox)
      case Success(Decoded(p, rest)) =>
        var t := DecodeStream(rest);
        ([p] + t.0, t.1)
  }

  /** The operations a peer offers, for reasoning about any sequence of them. */
  datatype PeerOp = ReadOp | WriteOp(packet: Packet) | DisconnectOp(reason: string, send: bool) | CloseOp

  predicate Applicable(op: PeerOp)
  {
    match op
    case WriteOp(p) => p.opcode != Opcode.Disconnect
    case DisconnectOp(reason, send) => send ==> |reason| <= DISCONNECT_REASON_SIZE
    case _ => true
  }

  function Apply(v: PeerView, op: PeerOp, accepts: nat -> bool): PeerView
    requires Applicable(op)
  {
    match op
    case ReadOp => AfterRead(v).0
    case WriteOp(p) => AfterWrite(v, p, accepts)
    case DisconnectOp(reason, send) => AfterDisconnect(v, reason, send, accepts)
    case CloseOp => AfterClose(v)
  }

  function Run(v: PeerView, ops: seq<PeerOp>, accepts: nat -> bool): PeerView
    requires forall i :: 0 <= i < |ops| ==> Applicable(ops[i])
    decreases |ops|
  {
    if ops == [] then v else Run(Apply(v, ops[0], accepts), ops[1..], accepts)
  }

  /** Whatever a peer does after it has left Connected, it never comes back,
      and once a disconnect reason is recorded no later operation changes it. */
  lemma {:induction false} RunNeverReconnects(v: PeerView, ops: seq<PeerOp>, accepts: nat -> bool)
    requires forall i :: 0 <= i < |ops| ==> Applicable(ops[i])
    ensures v.state != Connected ==> Run(v, ops, accepts).state != Connected
    ensures !v.open ==> !Run(v, ops, accepts).open
    ensures v.reason.Some? ==> Run(v, ops, accepts).reason == v.reason
    decreases |ops|
  {
    if ops != [] {
      var v' := Apply(v, ops[0], accepts);
      assert v.state != Connected ==> v'.state != Connected;
      assert !v.open ==> !v'.open;
      assert v.reason.Some? ==> v'.reason == v.reason;
      RunNeverReconnects(v', ops[1..], accepts);
    }
  }

  class Peer {
    var sequence: uint16
    var state: State
    var open: bool
    var disconnectReason: Option<string>
    var sent: seq<byte>
    var inbox: seq<byte>
    var attempts: nat
    const accepts: nat -> bool

    function View(): PeerView
      reads this
    {
      PeerView(sequence, state, open, disconnectReason, sent, inbox, attempts)
    }

    /** new Peer(client): connected, sequence 0, no reason. */
    constructor (accepts: nat -> bool)
      ensures this.accepts == accepts
      ensures View() == PeerView(0, State.Connected, true, None, [], [], 0)
    {
      sequence := 0;
      state := State.Connected;
      open := true;
      disconnectReason := None;
      sent := [];
      inbox := [];
      attempts := 0;
      this.accepts := accepts;
    }

    /** Peer.Connected. */
    function Connected(): (r: bool)
      reads this
      ensures r == IsConnected(View())
    {
      open && state == State.Connected
    }

    /** Peer.Available. */
    function Available(): (r: bool)
      reads this
      ensures r == CanRead(View())
      ensures r ==> Connected()
    {
      if !Connected() then false else |inbox| > 0
    }

    /** Peer.Read. */
    method Read() returns (p: Option<Packet>)
      modifies this
      ensures (View(), p) == AfterRead(old(View()))
    {
      if !open {
        Disconnect(READ_ERROR, false);
        return None;
      }
      match Deserialize(inbox)
      case Success(Decoded(frame, rest)) =>
        inbox := rest;
        p := Some(frame);
      case Failure(e) =>
        var message := if e == InvalidMagic then INVALID_MAGIC_MESSAGE else READ_ERROR;
        Disconnect(message, false);
        p := None;
    }

    /** Peer.Write: serialize and send; advance the sequence only on success. */
    method Write(packet: Packet)
      requires packet.opcode != Opcode.Disconnect
      modifies this
      decreases 1
      ensures View() == AfterWrite(old(View()), packet, accepts)
    {
      var bytes := Serialize(packet);
      var ok := bytes.Success? && open && accepts(attempts);
      attempts := attempts + 1;
      if !ok {
        Disconnect(WRITE_ERROR, false);
        return;
      }
      sent := sent + bytes.value;
      if sequence == UINT16_MAX {
        sequence := 0;
      } else {
        sequence := sequence + 1;
      }
    }

    /** Peer.Disconnect. */
    method Disconnect(reason: string, send: bool)
      requires send ==> |reason| <= DISCONNECT_REASON_SIZE
      modifies this
      decreases if send then 2 else 0
      ensures View() == AfterDisconnect(old(View()), reason, send, accepts)
    {
      state := Disconnecting;
      if send {
        var payload := EncodeFixedBytes(reason, DISCONNECT_REASON_SIZE).value;
        Write(CreateWithSequence(Internal, DISCONNECT_SERVICE, "", payload, sequence));
      }
      if disconnectReason.None? {
        disconnectReason := Some(reason);
      }
      Close();
    }

    /** Peer.Close. */
    method Close()
      modifies this
      ensures View() == AfterClose(old(View()))
    {
      state := Disconnected;
      open := false;
    }
  }

  /** Packet.Create without a sequence: stamped with the peer's current
      sequence, which only a successful Write advances. */
  function Create(peer: Peer, opcode: Opcode, service: string, token: string, data: Bytes): (p: Packet)
    reads peer
    ensures p.sequence == peer.sequence
    ensures p.opcode == opcode && p.service == service && p.token == token && p.data == data
  {
    CreateWithSequence(opcode, service, token, data, peer.sequence)
  }
}
