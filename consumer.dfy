/** The consumer: the application's side of a client link. It sends
    messages and requests through the client's outbound queue, keeps the
    table of pending responses keyed by sequence number, and Poll drains
    the client's inbound queue, routing each transaction to a handler.

    Handlers are identified by number; invoking one is recorded in a log of
    calls, and what a request handler answers is given by the `respond`
    parameter. Poll is specified by AfterPoll over PollView, the value of
    the consumer's fields and of its client's peer and queues. */
module Consumers {
  import opened Wire
  import opened Packets
  import opened Peers
  import opened Transactions
  import opened Clients

  const MALFORMED_JSON := "Malformed or invalid JSON"
  const SERVICE_NOT_FOUND := "Service not found"
  const INVALID_PACKET := "Invalid packet"

  datatype HandlerKind = MessageHandler | RequestHandler | ResponseHandler

  /** One handler invocation: which table it came from, its number, and
      the transaction data it was given. */
  datatype Call = Call(kind: HandlerKind, handler: nat, data: JObject)

  /** What the application supplies: the message and request handler
      tables, the JSON parser, and what each request handler answers. */
  datatype Handlers = Handlers(
    messages: map<string, nat>,
    requests: map<string, nat>,
    parseJson: seq<byte> -> Option<JObject>,
    respond: (nat, JObject) -> Json)

  datatype PollView = PollView(
    peer: PeerView,
    packetsIn: seq<Packet>,
    packetsOut: seq<Packet>,
    lastSendAlive: int,
    lastRecvAlive: int,
    responseHandlers: map<uint16, nat>,
    connected: bool,
    calls: seq<Call>)

  /** Why Message or Request sends nothing: a parameter check, or no peer
      yet (Packet.Create dereferences it). */
  datatype SendError = Refused(error: CreateError) | NoPeer

  /** The parameter checks of Consumer.Message and Consumer.Request, in
      their order, then the peer. */
  function Refusal(service: string, token: string, hasPeer: bool): (r: Option<SendError>)
  {
    if |token| > TOKEN_SIZE then Some(Refused(TokenTooLong))
    else if |service| > SERVICE_SIZE then Some(Refused(ServiceTooLong))
    else if !hasPeer then Some(NoPeer)
    else None
  }

  /** The consumer's checks refuse exactly what the corrected
      Transaction.CreateMessage refuses, with the same error, so everything
      they let through fits its header fields. */
  lemma RefusalMatchesCreateMessage(service: string, json: Json, token: string, sequence: uint16)
    ensures var m := CreateMessageChecked(service, json, token, sequence);
      && (Refusal(service, token, true).None? <==> m.Success?)
      && (m.Failure? ==> Refusal(service, token, true) == Some(Refused(m.error)))
      && (m.Success? ==> Serialize(m.value).Success?)
  {
  }

  /** A Message that passes the checks: the frame joins the outbound
      queue, stamped with the peer's current sequence. */
  function AfterMessage(v: PollView, service: string, json: Json, token: string): (r: PollView)
    requires Refusal(service, token, true).None?
    ensures r == v.(packetsOut := r.packetsOut)
    ensures |r.packetsOut| == |v.packetsOut| + 1 && r.packetsOut[..|v.packetsOut|] == v.packetsOut
    ensures var m := r.packetsOut[|v.packetsOut|];
      && m.opcode == Opcode.Message && m.sequence == v.peer.sequence
      && m.service == service && m.token == token && m.data == JsonBytes(json)
      && Serialize(m).Success?
  {
    var m := CreateMessageChecked(service, json, token, v.peer.sequence).value;
    assert (v.packetsOut + [m])[..|v.packetsOut|] == v.packetsOut;
    v.(packetsOut := v.packetsOut + [m])
  }

  /** A Request that passes the checks: its handler is stored under the
      peer's current sequence, replacing any handler stored there, and the
      frame joins the outbound queue. */
  function AfterRequest(v: PollView, service: string, json: Json, token: string, handler: nat): (r: PollView)
    requires Refusal(service, token, true).None?
    ensures r == v.(packetsOut := r.packetsOut, responseHandlers := r.responseHandlers)
    ensures r.responseHandlers == v.responseHandlers[v.peer.sequence := handler]
    ensures r.packetsOut == v.packetsOut + [CreateRequest(service, json, token, v.peer.sequence)]
  {
    var req := CreateRequest(service, json, token, v.peer.sequence);
    v.(responseHandlers := v.responseHandlers[req.sequence := handler], packetsOut := v.packetsOut + [req])
  }

  /** Two requests made before the client loop writes anything carry the
      same sequence number, and the second one's handler replaces the
      first's: only one response handler is pending for the two. */
  lemma RequestsCollide(v: PollView, s1: string, j1: Json, t1: string, h1: nat, s2: string, j2: Json, t2: string, h2: nat)
    requires Refusal(s1, t1, true).None? && Refusal(s2, t2, true).None?
    ensures var r := AfterRequest(AfterRequest(v, s1, j1, t1, h1), s2, j2, t2, h2);
      && |r.packetsOut| == |v.packetsOut| + 2
      && r.packetsOut[|v.packetsOut|].sequence == r.packetsOut[|v.packetsOut| + 1].sequence == v.peer.sequence
      && r.responseHandlers.Keys == v.responseHandlers.Keys + {v.peer.sequence}
      && r.responseHandlers[v.peer.sequence] == h2
  {
  }

  /** The link ends with a notice. */
  function Refuse(v: PollView, reason: string, accepts: nat -> bool): (r: PollView)
    requires |reason| <= DISCONNECT_REASON_SIZE
    ensures r == v.(peer := r.peer) && !IsConnected(r.peer)
  {
    v.(peer := AfterDisconnect(v.peer, reason, true, accepts))
  }

  /** Consumer.HandleMessage. */
  function AfterHandleMessage(v: PollView, t: Transaction, h: Handlers, accepts: nat -> bool): (r: PollView)
  {
    if t.service in h.messages then v.(calls := v.calls + [Call(MessageHandler, h.messages[t.service], t.data)])
    else Refuse(v, SERVICE_NOT_FOUND, accepts)
  }

  /** Consumer.HandleRequest: the pending-response table first. */
  function AfterHandleRequest(v: PollView, t: Transaction, h: Handlers, accepts: nat -> bool): (r: PollView)
  {
    if t.sequence in v.responseHandlers then
      v.(calls := v.calls + [Call(ResponseHandler, v.responseHandlers[t.sequence], t.data)],
         responseHandlers := v.responseHandlers - {t.sequence})
    else if t.service in h.requests then
      var id := h.requests[t.service];
      v.(calls := v.calls + [Call(RequestHandler, id, t.data)],
         packetsOut := v.packetsOut + [CreateResponse(t, h.respond(id, t.data))])
    else Refuse(v, SERVICE_NOT_FOUND, accepts)
  }

  /** The peer after a dispatch: untouched, or disconnected with notice
      for one of the three reasons Poll gives. */
  predicate PeerOutcome(before: PeerView, after: PeerView, accepts: nat -> bool)
  {
    || after == before
    || after == AfterDisconnect(before, MALFORMED_JSON, true, accepts)
    || after == AfterDisconnect(before, SERVICE_NOT_FOUND, true, accepts)
    || after == AfterDisconnect(before, INVALID_PACKET, true, accepts)
  }

  /** The body of Poll's while for one packet already taken off the
      queue. Only the marker touches `connected`. */
  function Dispatch(v: PollView, p: Packet, h: Handlers, accepts: nat -> bool): (r: PollView)
    ensures r.packetsIn == v.packetsIn
    ensures r.connected == (v.connected && p.opcode != Opcode.Disconnect)
  {
    if p.opcode == Opcode.Message || p.opcode == Request then
      match FromPacket(p, h.parseJson)
      case None => Refuse(v, MALFORMED_JSON, accepts)
      case Some(t) =>
        if t.IsMessage() then AfterHandleMessage(v, t, h, accepts) else AfterHandleRequest(v, t, h, accepts)
    else if p.opcode == Opcode.Disconnect then v.(connected := false)
    else Refuse(v, INVALID_PACKET, accepts)
  }

  /** What one dispatch can do: at most one handler runs; at most one
      entry, the given sequence, leaves the pending table; at most one
      frame is written, a response with the given address; the peer is
      untouched or disconnected for one of Poll's reasons. */
  predicate Bounded(v: PollView, r: PollView, sequence: uint16, service: string, token: string, accepts: nat -> bool)
  {
    && (r.responseHandlers == v.responseHandlers || r.responseHandlers == v.responseHandlers - {sequence})
    && (r.calls == v.calls || (|r.calls| == |v.calls| + 1 && r.calls[..|v.calls|] == v.calls))
    && (r.packetsOut == v.packetsOut || (
          && |r.packetsOut| == |v.packetsOut| + 1 && r.packetsOut[..|v.packetsOut|] == v.packetsOut
          && var reply := r.packetsOut[|v.packetsOut|];
          && reply.opcode == Request
          && reply.sequence == sequence && reply.service == service && reply.token == token))
    && PeerOutcome(v.peer, r.peer, accepts)
  }

  lemma HandleRequestBounded(v: PollView, t: Transaction, h: Handlers, accepts: nat -> bool)
    ensures Bounded(v, AfterHandleRequest(v, t, h, accepts), t.sequence, t.service, t.token, accepts)
  {
    var r := AfterHandleRequest(v, t, h, accepts);
    if t.sequence !in v.responseHandlers && t.service in h.requests {
      assert r.calls[..|v.calls|] == v.calls;
      assert r.packetsOut[..|v.packetsOut|] == v.packetsOut;
    }
  }

  lemma HandleMessageBounded(v: PollView, t: Transaction, h: Handlers, accepts: nat -> bool)
    ensures var r := AfterHandleMessage(v, t, h, accepts);
      Bounded(v, r, t.sequence, t.service, t.token, accepts) && r.packetsOut == v.packetsOut
  {
    var r := AfterHandleMessage(v, t, h, accepts);
    if t.service in h.messages {
      assert r.calls[..|v.calls|] == v.calls;
    }
  }

  /** Only a request is answered, and the answer goes to its sender's
      sequence, service and token. */
  lemma DispatchBounded(v: PollView, p: Packet, h: Handlers, accepts: nat -> bool)
    ensures var r := Dispatch(v, p, h, accepts);
      && Bounded(v, r, p.sequence, p.service, p.token, accepts)
      && (r.packetsOut != v.packetsOut ==> p.opcode == Request)
  {
    if p.opcode == Opcode.Message || p.opcode == Request {
      match FromPacket(p, h.parseJson)
      case None =>
      case Some(t) =>
        if t.IsMessage() {
          HandleMessageBounded(v, t, h, accepts);
        } else {
          HandleRequestBounded(v, t, h, accepts);
        }
    }
  }

  /** A request whose sequence has a pending handler is that handler's
      response: it is called once and forgotten, nothing is written, and
      any request handler for the service is not consulted. */
  lemma ResponseRouted(v: PollView, p: Packet, h: Handlers, accepts: nat -> bool)
    requires p.opcode == Request && h.parseJson(p.data).Some? && p.sequence in v.responseHandlers
    ensures var r := Dispatch(v, p, h, accepts);
      && r.calls == v.calls + [Call(ResponseHandler, v.responseHandlers[p.sequence], h.parseJson(p.data).value)]
      && r.responseHandlers == v.responseHandlers - {p.sequence}
      && r.packetsOut == v.packetsOut && r.peer == v.peer
  {
  }

  /** A request for a bound service with no pending response: the handler
      runs and its answer is written back addressed to the request. */
  lemma RequestServed(v: PollView, p: Packet, h: Handlers, accepts: nat -> bool)
    requires p.opcode == Request && h.parseJson(p.data).Some?
    requires p.sequence !in v.responseHandlers && p.service in h.requests
    ensures var r := Dispatch(v, p, h, accepts);
      var data := h.parseJson(p.data).value;
      var id := h.requests[p.service];
      && r.calls == v.calls + [Call(RequestHandler, id, data)]
      && r.packetsOut == v.packetsOut + [CreateWithSequence(Request, p.service, p.token, JsonBytes(h.respond(id, data)), p.sequence)]
      && r.responseHandlers == v.responseHandlers && r.peer == v.peer
  {
  }

  /** Every failure path ends the link with its own reason: unparsable
      JSON, a service with no handler, a frame that is neither a message,
      a request nor the marker. */
  lemma DispatchFailures(v: PollView, p: Packet, h: Handlers, accepts: nat -> bool)
    ensures var r := Dispatch(v, p, h, accepts);
      && ((p.opcode == Opcode.Message || p.opcode == Request) && h.parseJson(p.data).None? ==>
            r == v.(peer := AfterDisconnect(v.peer, MALFORMED_JSON, true, accepts)))
      && (p.opcode == Opcode.Message && h.parseJson(p.data).Some? && p.service !in h.messages ==>
            r == v.(peer := AfterDisconnect(v.peer, SERVICE_NOT_FOUND, true, accepts)))
      && (p.opcode == Request && h.parseJson(p.data).Some? && p.sequence !in v.responseHandlers && p.service !in h.requests ==>
            r == v.(peer := AfterDisconnect(v.peer, SERVICE_NOT_FOUND, true, accepts)))
      && (p.opcode.Internal? || p.opcode.Unknown? ==>
            r == v.(peer := AfterDisconnect(v.peer, INVALID_PACKET, true, accepts)))
  {
  }

  /** A message for a bound service runs its handler and writes nothing. */
  lemma MessageDelivered(v: PollView, p: Packet, h: Handlers, accepts: nat -> bool)
    requires p.opcode == Opcode.Message && h.parseJson(p.data).Some? && p.service in h.messages
    ensures Dispatch(v, p, h, accepts) == v.(calls := v.calls + [Call(MessageHandler, h.messages[p.service], h.parseJson(p.data).value)])
  {
  }

  /** Consumer.Poll: dispatch from the head of the queue until it is
      empty, or until the marker, which is consumed and stops Poll. */
  function AfterPoll(v: PollView, h: Handlers, accepts: nat -> bool): (r: PollView)
    decreases |v.packetsIn|
  {
    if v.packetsIn == [] then v
    else
      var p := v.packetsIn[0];
      var next := Dispatch(v.(packetsIn := v.packetsIn[1..]), p, h, accepts);
      if p.opcode == Opcode.Disconnect then next else AfterPoll(next, h, accepts)
  }

  /** Poll stops at the first marker, consumed, leaving what follows it
      queued and the consumer no longer connected. */
  lemma {:induction false} PollStopsAtMarker(v: PollView, pre: seq<Packet>, m: Packet, post: seq<Packet>, h: Handlers, accepts: nat -> bool)
    requires v.packetsIn == pre + [m] + post && MarkerFree(pre) && m.opcode == Opcode.Disconnect
    ensures var r := AfterPoll(v, h, accepts);
      r.packetsIn == post && !r.connected
    decreases |pre|
  {
    if pre == [] {
      assert v.packetsIn[0] == m && v.packetsIn[1..] == post;
    } else {
      assert v.packetsIn[0] == pre[0] && v.packetsIn[1..] == pre[1..] + [m] + post;
      var next := Dispatch(v.(packetsIn := v.packetsIn[1..]), pre[0], h, accepts);
      PollStopsAtMarker(next, pre[1..], m, post, h, accepts);
    }
  }

  /** With no marker queued, Poll empties the queue and leaves
      `connected` as it was. */
  lemma {:induction false} PollDrains(v: PollView, h: Handlers, accepts: nat -> bool)
    requires MarkerFree(v.packetsIn)
    ensures var r := AfterPoll(v, h, accepts);
      r.packetsIn == [] && r.connected == v.connected
    decreases |v.packetsIn|
  {
    if v.packetsIn != [] {
      var next := Dispatch(v.(packetsIn := v.packetsIn[1..]), v.packetsIn[0], h, accepts);
      assert MarkerFree(next.packetsIn);
      PollDrains(next, h, accepts);
    }
  }

  /** A queue whose only marker is its last packet is polled empty. */
  lemma PollMarkerLast(v: PollView, h: Handlers, accepts: nat -> bool)
    requires |v.packetsIn| > 0 && v.packetsIn[|v.packetsIn| - 1].opcode == Opcode.Disconnect
    requires MarkerFree(v.packetsIn[..|v.packetsIn| - 1])
    ensures var r := AfterPoll(v, h, accepts);
      r.packetsIn == [] && !r.connected
  {
    var q := v.packetsIn;
    assert q == q[..|q| - 1] + [q[|q| - 1]] + [];
    PollStopsAtMarker(v, q[..|q| - 1], q[|q| - 1], [], h, accepts);
  }

  /** Once the client loop has ended, polling consumes every queued
      packet, the marker last, and the consumer is no longer connected. */
  lemma PollAfterLoopEnded(c: LinkView, clock: seq<int>, accepts: nat -> bool, v: PollView, h: Handlers)
    requires Sendable(c.packetsOut) && Clean(c.packetsIn)
    requires !IsConnected(AfterLoop(c, clock, accepts).peer)
    requires v.packetsIn == AfterLoop(c, clock, accepts).packetsIn
    ensures var r := AfterPoll(v, h, accepts);
      r.packetsIn == [] && !r.connected
  {
    LoopMarker(c, clock, accepts);
    PollMarkerLast(v, h, accepts);
  }

  /** The whole exchange: a request sent with a handler, read by the far
      side as a transaction and answered with CreateResponse, reaches that
      handler with the answer's data when it comes back, and the pending
      entry is gone. */
  lemma RequestAnswered(v: PollView, service: string, json: Json, token: string, handler: nat,
                        answer: Json, h: Handlers, accepts: nat -> bool)
    requires Refusal(service, token, true).None?
    requires h.parseJson(JsonBytes(json)).Some? && h.parseJson(JsonBytes(answer)).Some?
    ensures var sent := AfterRequest(v, service, json, token, handler);
      var request := FromPacket(sent.packetsOut[|v.packetsOut|], h.parseJson).value;
      var r := Dispatch(sent, CreateResponse(request, answer), h, accepts);
      && r.calls == v.calls + [Call(ResponseHandler, handler, h.parseJson(JsonBytes(answer)).value)]
      && r.responseHandlers == v.responseHandlers - {v.peer.sequence}
  {
    var sent := AfterRequest(v, service, json, token, handler);
    var req := sent.packetsOut[|v.packetsOut|];
    ResponseAddressesRequest(req, answer, h.parseJson);
    ResponseRouted(sent, CreateResponse(FromPacket(req, h.parseJson).value, answer), h, accepts);
    assert sent.responseHandlers - {v.peer.sequence} == v.responseHandlers - {v.peer.sequence};
  }

  class Consumer {
    const client: Client
    const handlers: Handlers
    var responseHandlers: map<uint16, nat>
    var connected: bool
    var calls: seq<Call>

    /** A client with no peer has never run its loop, so nothing is queued
        for Poll. */
    ghost predicate Valid()
      reads this, client
    {
      client.peer == null ==> client.packetsIn == []
    }

    function View(): PollView
      reads this, client, client.peer
      requires client.peer != null
    {
      PollView(client.peer.View(), client.packetsIn, client.packetsOut, client.lastSendAlive, client.lastRecvAlive,
               responseHandlers, connected, calls)
    }

    /** new Consumer(): a new client, with both keep-alive stamps
        KEEP_ALIVE_WAIT in the past, and empty tables; the application's
        handler tables are given here. */
    constructor (now: int, handlers: Handlers)
      ensures Valid() && fresh(client) && client.peer == null
      ensures client.packetsIn == [] && client.packetsOut == []
      ensures client.lastSendAlive == now - KEEP_ALIVE_WAIT && client.lastRecvAlive == now - KEEP_ALIVE_WAIT
      ensures this.handlers == handlers
      ensures responseHandlers == map[] && !connected && calls == []
    {
      client := new Client(now);
      this.handlers := handlers;
      responseHandlers := map[];
      connected := false;
      calls := [];
    }

    /** Consumer.Connect: the client connects, which resets its receive
        stamp to now, and the consumer is connected. */
    method Connect(now: int, accepts: nat -> bool)
      requires Valid()
      modifies this, client
      ensures Valid() && connected
      ensures fresh(client.peer) && client.peer.accepts == accepts
      ensures View() == PollView(PeerView(0, State.Connected, true, None, [], [], 0),
        old(client.packetsIn), old(client.packetsOut), old(client.lastSendAlive), now,
        old(responseHandlers), true, old(calls))
    {
      client.Connect(now, accepts);
      connected := true;
    }

    /** Consumer.Close. */
    method Close()
      requires client.peer != null
      modifies client.peer
      ensures client.peer.View() == AfterClose(old(client.peer.View()))
    {
      client.Close();
    }

    /** Consumer.Disconnect. */
    method Disconnect(reason: string)
      requires client.peer != null && |reason| <= DISCONNECT_REASON_SIZE
      modifies client.peer
      ensures client.peer.View() == AfterDisconnect(old(client.peer.View()), reason, true, client.peer.accepts)
    {
      client.Disconnect(reason);
    }

    /** Consumer.Message(service, json, token), through
        Transaction.CreateMessage as written. */
    method Message(service: string, json: Json, token: string) returns (err: Option<SendError>)
      requires Valid()
      modifies client
      ensures Valid() && client.peer == old(client.peer)
      ensures err == Refusal(service, token, client.peer != null)
      ensures err.Some? ==> unchanged(client)
      ensures err.None? ==> client.peer != null && View() == AfterMessage(old(View()), service, json, token)
    {
      if |token| > TOKEN_SIZE {
        return Some(Refused(TokenTooLong));
      } else if |service| > SERVICE_SIZE {
        return Some(Refused(ServiceTooLong));
      }
      if client.peer == null {
        return Some(NoPeer);
      }
      CreateMessageCheckedAgrees(service, json, token, client.peer.sequence);
      var m := CreateMessage(service, json, token, client.peer.sequence);
      client.Write(m.value);
      err := None;
    }

    /** Consumer.Request(service, json, handler, token). */
    method Request(service: string, json: Json, handler: nat, token: string) returns (err: Option<SendError>)
      requires Valid()
      modifies this, client
      ensures Valid() && client.peer == old(client.peer)
      ensures err == Refusal(service, token, client.peer != null)
      ensures err.Some? ==> unchanged(this, client)
      ensures err.None? ==> client.peer != null && View() == AfterRequest(old(View()), service, json, token, handler)
    {
      if |token| > TOKEN_SIZE {
        return Some(Refused(TokenTooLong));
      } else if |service| > SERVICE_SIZE {
        return Some(Refused(ServiceTooLong));
      }
      if client.peer == null {
        return Some(NoPeer);
      }
      var req := CreateRequest(service, json, token, client.peer.sequence);
      responseHandlers := responseHandlers[req.sequence := handler];
      client.Write(req);
      err := None;
    }

    /** Consumer.HandleMessage. */
    method HandleMessage(t: Transaction)
      requires client.peer != null
      modifies this, client.peer
      ensures View() == AfterHandleMessage(old(View()), t, handlers, client.peer.accepts)
    {
      if t.service in handlers.messages {
        calls := calls + [Call(MessageHandler, handlers.messages[t.service], t.data)];
      } else {
        client.Disconnect(SERVICE_NOT_FOUND);
      }
    }

    /** Consumer.HandleRequest. */
    method HandleRequest(t: Transaction)
      requires client.peer != null
      modifies this, client, client.peer
      ensures client.peer == old(client.peer)
      ensures View() == AfterHandleRequest(old(View()), t, handlers, client.peer.accepts)
    {
      if t.sequence in responseHandlers {
        calls := calls + [Call(ResponseHandler, responseHandlers[t.sequence], t.data)];
        responseHandlers := responseHandlers - {t.sequence};
        return;
      }
      if t.service in handlers.requests {
        var id := handlers.requests[t.service];
        calls := calls + [Call(RequestHandler, id, t.data)];
        client.Write(CreateResponse(t, handlers.respond(id, t.data)));
      } else {
        client.Disconnect(SERVICE_NOT_FOUND);
      }
    }

    /** The body of Poll's while for one packet taken off the queue. */
    method DispatchPacket(p: Packet)
      requires client.peer != null
      modifies this, client, client.peer
      ensures client.peer == old(client.peer)
      ensures View() == Dispatch(old(View()), p, handlers, client.peer.accepts)
    {
      if p.opcode == Opcode.Message || p.opcode == Opcode.Request {
        var t := FromPacket(p, handlers.parseJson);
        if t.None? {
          client.Disconnect(MALFORMED_JSON);
          return;
        }
        if t.value.IsMessage() {
          HandleMessage(t.value);
        } else if t.value.IsRequest() {
          HandleRequest(t.value);
        }
      } else if p.opcode == Opcode.Disconnect {
        connected := false;
      } else {
        client.Disconnect(INVALID_PACKET);
      }
    }

    /** Consumer.Poll. */
    method Poll()
      requires Valid()
      modifies this, client, client.peer
      ensures Valid() && client.peer == old(client.peer)
      ensures old(client.peer) == null ==> unchanged(this, client)
      ensures old(client.peer) != null ==> View() == AfterPoll(old(View()), handlers, client.peer.accepts)
    {
      while client.Available()
        invariant Valid() && client.peer == old(client.peer)
        invariant old(client.peer) == null ==> unchanged(this, client)
        invariant old(client.peer) != null ==>
          AfterPoll(View(), handlers, client.peer.accepts) == AfterPoll(old(View()), handlers, client.peer.accepts)
        decreases |client.packetsIn|
      {
        var read := client.Read();
        var p := read.value;
        DispatchPacket(p);
        if p.opcode == Opcode.Disconnect {
          return;
        }
      }
    }
  }
}
