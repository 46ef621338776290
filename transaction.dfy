/** Transactions: the JSON view of a Message or Request frame, and the three
    factories that build outgoing frames. A response is a Request frame that
    carries the sequence, service and token of the transaction it answers;
    that is the whole reply-addressing scheme.

    JSON itself is left abstract: a parsed object is represented by its text,
    and parsing (UTF-8 decoding followed by JObject.Parse) is a partial
    function the caller supplies. */
module Transactions {
  import opened Wire
  import opened Packets

  /** A parsed JSON object. */
  datatype JObject = JObject(text: string)

  /** JSON text whose UTF-8 encoding fits in a .NET byte array. */
  type Json = s: string | |Utf8(s)| <= MAX_BYTE_ARRAY witness ""

  /** Encoding.UTF8.GetBytes on a payload. */
  function JsonBytes(json: Json): (b: Bytes)
    ensures |b| >= |json|
  {
    Utf8(json)
  }

  datatype Kind = MessageKind | RequestKind

  datatype Transaction = Transaction(sequence: uint16, service: string, token: string, data: JObject, kind: Kind)
  {
    predicate IsMessage()
    {
      kind == MessageKind
    }

    predicate IsRequest()
    {
      kind == RequestKind
    }
  }

  /** new Transaction(packet): header fields copied verbatim, the payload
      parsed, and every opcode other than Message classified as a request.
      A payload that does not parse is the constructor's exception. */
  function FromPacket(p: Packet, parseJson: seq<byte> -> Option<JObject>): (r: Option<Transaction>)
    ensures r.Some? <==> parseJson(p.data).Some?
    ensures r.Some? ==>
      && r.value.sequence == p.sequence && r.value.service == p.service && r.value.token == p.token
      && r.value.data == parseJson(p.data).value
    ensures r.Some? ==> (r.value.IsMessage() <==> p.opcode == Message)
    ensures r.Some? ==> (r.value.IsRequest() <==> p.opcode != Message)
    ensures r.Some? ==> r.value.IsMessage() != r.value.IsRequest()
  {
    match parseJson(p.data)
    case None => None
    case Some(data) =>
      Some(Transaction(p.sequence, p.service, p.token, data, if p.opcode == Message then MessageKind else RequestKind))
  }

  /** The InvalidOperationException of the factories' parameter checks. */
  datatype CreateError = TokenTooLong | ServiceTooLong

  /** Transaction.CreateMessage as written: the token is checked against
      TOKEN_SIZE, and then the token again, not the service, against
      SERVICE_SIZE, which can never fail once the first check passed. */
  function CreateMessage(service: string, json: Json, token: string, peerSequence: uint16): (r: Result<Packet, CreateError>)
    ensures r.Failure? <==> |token| > TOKEN_SIZE
    ensures r.Success? ==> r.value.opcode == Message && r.value.sequence == peerSequence
    ensures r.Success? ==> r.value.service == service && r.value.token == token && r.value.data == JsonBytes(json)
  {
    if |token| > TOKEN_SIZE then Failure(TokenTooLong)
    else if |token| > SERVICE_SIZE then Failure(TokenTooLong)
    else Success(CreateWithSequence(Message, service, token, JsonBytes(json), peerSequence))
  }

  /** A service name of 49 characters gets through CreateMessage, and the
      frame it yields cannot be serialized. */
  lemma CreateMessageAcceptsLongService()
    ensures var service := seq(SERVICE_SIZE + 1, i => 'a');
      var r := CreateMessage(service, "", "", 0);
      r.Success? && Serialize(r.value).Failure?
  {
  }

  /** CreateMessage with the second check on the service, as its comparison
      with SERVICE_SIZE and Consumer.Message's own checks show was intended. */
  function CreateMessageChecked(service: string, json: Json, token: string, peerSequence: uint16): (r: Result<Packet, CreateError>)
    ensures r == Failure(TokenTooLong) <==> |token| > TOKEN_SIZE
    ensures r == Failure(ServiceTooLong) <==> |token| <= TOKEN_SIZE && |service| > SERVICE_SIZE
    ensures r.Success? ==> r.value.opcode == Message && r.value.sequence == peerSequence
    ensures r.Success? ==> Serialize(r.value).Success?
    ensures r.Success? ==> r.value.service == service && r.value.token == token && r.value.data == JsonBytes(json)
  {
    if |token| > TOKEN_SIZE then Failure(TokenTooLong)
    else if |service| > SERVICE_SIZE then Failure(ServiceTooLong)
    else Success(CreateWithSequence(Message, service, token, JsonBytes(json), peerSequence))
  }

  /** The two agree on every service name that fits its field. */
  lemma CreateMessageCheckedAgrees(service: string, json: Json, token: string, peerSequence: uint16)
    requires |service| <= SERVICE_SIZE
    ensures CreateMessage(service, json, token, peerSequence) == CreateMessageChecked(service, json, token, peerSequence)
  {
  }

  /** Transaction.CreateRequest: no parameter checks at all. */
  function CreateRequest(service: string, json: Json, token: string, peerSequence: uint16): (p: Packet)
    ensures p.opcode == Request && p.sequence == peerSequence
    ensures p.service == service && p.token == token && p.data == JsonBytes(json)
  {
    CreateWithSequence(Request, service, token, JsonBytes(json), peerSequence)
  }

  /** Transaction.CreateResponse: a Request frame addressed with the
      sequence, service and token of the transaction it answers. */
  function CreateResponse(t: Transaction, json: Json): (p: Packet)
    ensures p.opcode == Request && p.data == JsonBytes(json)
    ensures p.sequence == t.sequence && p.service == t.service && p.token == t.token
  {
    CreateWithSequence(Request, t.service, t.token, JsonBytes(json), t.sequence)
  }

  /** Replying to a transaction read from a packet: the response, read back
      as a transaction, is a request with the original sequence, service and
      token, which is what lets the requester find its pending handler. */
  lemma ResponseAddressesRequest(p: Packet, json: Json, parseJson: seq<byte> -> Option<JObject>)
    requires FromPacket(p, parseJson).Some?
    requires parseJson(JsonBytes(json)).Some?
    ensures var reply := FromPacket(CreateResponse(FromPacket(p, parseJson).value, json), parseJson);
      && reply.Some? && reply.value.IsRequest()
      && reply.value.sequence == p.sequence && reply.value.service == p.service && reply.value.token == p.token
  {
  }

  /** The response crosses the wire with the request's sequence number and
      is read as a Request frame, whatever text its header strings hold. */
  lemma ResponseSequenceSurvivesWire(t: Transaction, json: Json, rest: seq<byte>)
    requires |t.token| <= TOKEN_SIZE && |t.service| <= SERVICE_SIZE
    ensures var reply := CreateResponse(t, json);
      && Serialize(reply).Success?
      && var r := Deserialize(Serialize(reply).value + rest);
      && r.Success? && r.value.rest == rest
      && r.value.packet.opcode == Request && r.value.packet.sequence == t.sequence
  {
    DeserializeSerializeFrame(CreateResponse(t, json), rest);
  }
}
