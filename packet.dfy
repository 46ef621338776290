/** The frame codec: a fixed 96-byte header followed by the payload.

      offset  size  field
           0     5  magic "JSPKZ"
           5     1  opcode
           6     4  payload length (int32, little-endian)
          10     2  sequence (uint16, little-endian)
          12     4  reserved, written as zero, ignored on read
          16    32  token, ASCII, NUL-padded
          48    48  service name, ASCII, NUL-padded
          96     n  payload

    Serialization is the sequence of bytes a BinaryWriter appends to the
    stream; deserialization consumes a prefix of the bytes the stream will
    still deliver and returns the rest. */
module Packets {
  import opened Wire

  const MAGIC: string := "JSPKZ"
  const TOKEN_SIZE := 32
  const SERVICE_SIZE := 48
  /** token + service + opcode byte + int32 length + uint16 sequence + uint32 reserved + magic */
  const HEADER_SIZE := TOKEN_SIZE + SERVICE_SIZE + 1 + 4 + 2 + 4 + |MAGIC|

  /** Byte values 0, 1 and 2 are the named opcodes; the reader casts any other
      byte to the enum unchecked, which Unknown keeps. Disconnect is the local
      end-of-link marker a Client queues for its consumer; it has no byte value
      and is never serialized. */
  datatype Opcode = Internal | Message | Request | Unknown(code: byte) | Disconnect

  function OpcodeByte(op: Opcode): byte
    requires op != Disconnect
  {
    match op
    case Internal => 0
    case Message => 1
    case Request => 2
    case Unknown(c) => c
  }

  function OpcodeOf(b: byte): (op: Opcode)
    ensures op != Disconnect && OpcodeByte(op) == b
    ensures op.Unknown? ==> op.code > 2
  {
    if b == 0 then Internal else if b == 1 then Message else if b == 2 then Request else Unknown(b)
  }

  /** The opcodes the decoder can produce. */
  predicate WireOpcode(op: Opcode)
  {
    op != Disconnect && (op.Unknown? ==> op.code > 2)
  }

  datatype Packet = Packet(opcode: Opcode, sequence: uint16, token: string, service: string, data: Bytes)

  /** Exceptions the reader can raise. InvalidMagic is the ProtocolException;
      the others are the runtime's own: end of stream inside a fixed field, a
      negative array size, an array size above MAX_BYTE_ARRAY, an index past
      a short fixed-width field. */
  datatype ReadError = InvalidMagic | EndOfStream | NegativeLength | ArrayTooLarge | IndexOutOfRange

  /** Array.Copy's ArgumentException when a string is longer than its field. */
  datatype WriteError = FieldTooLong

  function MagicBytes(): (r: seq<byte>)
    ensures |r| == 5
  {
    AsciiBytes(MAGIC)
  }

  predicate HasMagic(input: seq<byte>)
  {
    |input| >= |MAGIC| && input[..|MAGIC|] == MagicBytes()
  }

  /** EncodeFixedBytes: the ASCII bytes of s copied into a fresh zeroed array
      of fixedSize bytes; a string longer than the array makes the copy throw. */
  function EncodeFixedBytes(s: string, fixedSize: nat): (r: Result<seq<byte>, WriteError>)
    ensures r.Success? <==> |s| <= fixedSize
    ensures r.Success? ==> |r.value| == fixedSize
    ensures r.Success? ==> forall i :: 0 <= i < |s| ==> r.value[i] == AsciiByte(s[i])
    ensures r.Success? ==> forall i :: |s| <= i < fixedSize ==> r.value[i] == 0
  {
    if |s| <= fixedSize then Success(AsciiBytes(s) + Zeros(fixedSize - |s|)) else Failure(FieldTooLong)
  }

  /** The bytes before the first NUL among the first limit bytes of b. Reading
      past the end of b before a NUL or the limit is an index error. */
  function NulTerminated(b: seq<byte>, limit: nat): (r: Result<seq<byte>, ReadError>)
    decreases limit
    ensures r.Success? ==> |r.value| <= limit && r.value <= b
    ensures r.Success? ==> forall i :: 0 <= i < |r.value| ==> r.value[i] != 0
    ensures r.Success? && |r.value| < limit ==> |r.value| < |b| && b[|r.value|] == 0
    ensures r.Failure? <==> |b| < limit && forall i :: 0 <= i < |b| ==> b[i] != 0
    ensures r.Failure? ==> r.error == IndexOutOfRange
  {
    if limit == 0 then Success([])
    else if |b| == 0 then Failure(IndexOutOfRange)
    else if b[0] == 0 then Success([])
    else
      match NulTerminated(b[1..], limit - 1)
      case Success(tail) => Success([b[0]] + tail)
      case Failure(e) => Failure(e)
  }

  /** The three conditions of NulTerminated's contract pin its result down. */
  lemma {:induction false} NulTerminatedAt(b: seq<byte>, limit: nat, k: nat)
    requires k <= limit && k <= |b|
    requires forall i :: 0 <= i < k ==> b[i] != 0
    requires k < limit ==> k < |b| && b[k] == 0
    ensures NulTerminated(b, limit) == Success(b[..k])
    decreases limit
  {
    if k > 0 {
      assert b[0] != 0;
      var tail := b[1..];
      assert forall i :: 0 <= i < k - 1 ==> tail[i] == b[i + 1];
      NulTerminatedAt(tail, limit - 1, k - 1);
      assert [b[0]] + tail[..k - 1] == b[..k];
    }
  }

  /** What DecodeFixedBytes returns: the scan always stops after TOKEN_SIZE
      bytes, whatever the field's width. */
  function DecodedFixed(b: seq<byte>): (r: Result<string, ReadError>)
  {
    match NulTerminated(b, TOKEN_SIZE)
    case Success(v) => Success(Chars(v))
    case Failure(e) => Failure(e)
  }

  /** DecodeFixedBytes: append characters until a NUL, for at most TOKEN_SIZE
      bytes. capacity and maxCapacity only size the StringBuilder; every call
      passes a maxCapacity of at least TOKEN_SIZE, so no append can overflow it. */
  method DecodeFixedBytes(fixedStr: seq<byte>, capacity: nat, maxCapacity: nat) returns (r: Result<string, ReadError>)
    requires capacity <= maxCapacity && TOKEN_SIZE <= maxCapacity
    ensures r == DecodedFixed(fixedStr)
    ensures r.Success? ==> |r.value| <= TOKEN_SIZE
  {
    var str: string := "";
    for i := 0 to TOKEN_SIZE
      invariant i <= |fixedStr|
      invariant forall k :: 0 <= k < i ==> fixedStr[k] != 0
      invariant str == Chars(fixedStr[..i])
    {
      if i >= |fixedStr| {
        return Failure(IndexOutOfRange);
      }
      if fixedStr[i] != 0 {
        str := str + [ByteChar(fixedStr[i])];
        assert fixedStr[..i + 1] == fixedStr[..i] + [fixedStr[i]];
      } else {
        NulTerminatedAt(fixedStr, TOKEN_SIZE, i);
        return Success(str);
      }
    }
    NulTerminatedAt(fixedStr, TOKEN_SIZE, TOKEN_SIZE);
    return Success(str);
  }

  /** Packet.Serialize: the bytes the writer appends to the stream. A token or
      service longer than its field makes EncodeFixedBytes throw part-way. */
  function Serialize(p: Packet): (r: Result<seq<byte>, WriteError>)
    requires p.opcode != Disconnect
    ensures r.Success? <==> |p.token| <= TOKEN_SIZE && |p.service| <= SERVICE_SIZE
    ensures r.Success? ==> |r.value| == HEADER_SIZE + |p.data|
  {
    match EncodeFixedBytes(p.token, TOKEN_SIZE)
    case Failure(e) => Failure(e)
    case Success(token) =>
      match EncodeFixedBytes(p.service, SERVICE_SIZE)
      case Failure(e) => Failure(e)
      case Success(service) =>
        Success(MagicBytes() + [OpcodeByte(p.opcode)] + LittleEndian32(|p.data|)
                + LittleEndian16(p.sequence) + LittleEndian32(0) + token + service + p.data)
  }

  /** Where each field of a packet lands in its frame. */
  lemma SerializeLayout(p: Packet)
    requires p.opcode != Disconnect && Serialize(p).Success?
    ensures var f := Serialize(p).value;
      && HEADER_SIZE == 96
      && HasMagic(f)
      && f[5] == OpcodeByte(p.opcode)
      && FromLittleEndianInt32(f[6..10]) == |p.data|
      && FromLittleEndian16(f[10..12]) == p.sequence
      && f[12..16] == [0, 0, 0, 0]
      && f[16..48] == EncodeFixedBytes(p.token, TOKEN_SIZE).value
      && f[48..96] == EncodeFixedBytes(p.service, SERVICE_SIZE).value
      && f[96..] == p.data
  {
    var f := Serialize(p).value;
    var len := LittleEndian32(|p.data|);
    assert f[6..10] == len;
    LittleEndian32RoundTrip(|p.data|);
    assert f[10..12] == LittleEndian16(p.sequence);
    LittleEndian16RoundTrip(p.sequence);
  }

  function Min(a: int, b: int): int
  {
    if a < b then a else b
  }

  lemma SuffixOfSuffix<T>(s: seq<T>, k: nat, n: nat)
    requires k <= |s| && n <= |s| - k
    ensures s[k..][|s[k..]| - n..] == s[|s| - n..]
  {
  }

  /** A decoded packet and the bytes the stream still holds after it. */
  datatype Decoded = Decoded(packet: Packet, rest: seq<byte>)

  /** Packet.Deserialize: read one frame from the front of input. Fixed-size
      reads (opcode, length, sequence, reserved) past the end raise end of
      stream; ReadBytes past the end returns what is left, so a short token,
      service or payload field is read short. */
  function Deserialize(input: seq<byte>): (r: Result<Decoded, ReadError>)
    ensures r == Failure(InvalidMagic) <==> !HasMagic(input)
    ensures HasMagic(input) && |input| >= 10 && FromLittleEndianInt32(input[6..10]) > MAX_BYTE_ARRAY ==>
      r == Failure(ArrayTooLarge)
    ensures r.Success? ==> |r.value.rest| + 16 <= |input| && input[|input| - |r.value.rest|..] == r.value.rest
    ensures r.Success? ==> WireOpcode(r.value.packet.opcode)
  {
    if !HasMagic(input) then Failure(InvalidMagic)
    else if |input| < 10 then Failure(EndOfStream)
    else if FromLittleEndianInt32(input[6..10]) < 0 then Failure(NegativeLength)
    else if FromLittleEndianInt32(input[6..10]) > MAX_BYTE_ARRAY then Failure(ArrayTooLarge)
    else if |input| < 16 then Failure(EndOfStream)
    else ReadFrame(input)
  }

  /** Deserialize once the magic has matched and the four fixed-size
      fields are all there. */
  function ReadFrame(input: seq<byte>): (r: Result<Decoded, ReadError>)
    requires |input| >= 16 && 0 <= FromLittleEndianInt32(input[6..10]) <= MAX_BYTE_ARRAY
    ensures r != Failure(InvalidMagic)
    ensures r.Success? ==> |r.value.rest| + 16 <= |input| && input[|input| - |r.value.rest|..] == r.value.rest
    ensures r.Success? ==> WireOpcode(r.value.packet.opcode)
  {
    var body := input[16..];
    var opcode := OpcodeOf(input[5]);
    var r := ReadFields(opcode, FromLittleEndianInt32(input[6..10]), FromLittleEndian16(input[10..12]), body);
    if r.Failure? then r
    else
      var n := |r.value.rest|;
      SuffixOfSuffix(input, 16, n);
      r
  }

  /** The part of Deserialize after the fixed 16 bytes: the token and
      service fields, then the payload, each read short when the stream ends
      inside it. */
  function ReadFields(opcode: Opcode, length: nat, sequence: uint16, body: seq<byte>): (r: Result<Decoded, ReadError>)
    requires length <= MAX_BYTE_ARRAY
    ensures r != Failure(InvalidMagic)
    ensures r.Success? ==> |r.value.rest| <= |body| && body[|body| - |r.value.rest|..] == r.value.rest
    ensures r.Success? ==> r.value.packet.opcode == opcode
  {
    var tokenEnd := Min(|body|, TOKEN_SIZE);
    var serviceEnd := Min(|body|, tokenEnd + SERVICE_SIZE);
    var dataEnd := Min(|body|, serviceEnd + length);
    var rest := body[dataEnd..];
    assert |body| - |rest| == dataEnd;
    var r := DecodeFields(opcode, sequence, body[..tokenEnd], body[tokenEnd..serviceEnd], body[serviceEnd..dataEnd], rest);
    assert r.Success? ==> r.value.rest == rest;
    r
  }

  /** The two header strings decoded, then the packet assembled. */
  function DecodeFields(opcode: Opcode, sequence: uint16, tokenField: seq<byte>, serviceField: seq<byte>,
                        data: Bytes, rest: seq<byte>): (r: Result<Decoded, ReadError>)
    ensures r.Success? <==> DecodedFixed(tokenField).Success? && DecodedFixed(serviceField).Success?
    ensures r.Failure? ==> r.error == IndexOutOfRange
    ensures r.Success? ==> r.value == Decoded(Packet(opcode, sequence, DecodedFixed(tokenField).value,
                                                     DecodedFixed(serviceField).value, data), rest)
  {
    match DecodedFixed(tokenField)
    case Failure(e) => Failure(e)
    case Success(token) =>
      match DecodedFixed(serviceField)
      case Failure(e) => Failure(e)
      case Success(service) => Success(Decoded(Packet(opcode, sequence, token, service, data), rest))
  }

  /** A service name as it survives a round trip: at most TOKEN_SIZE characters. */
  function Truncated(s: string): (r: string)
    ensures |r| <= TOKEN_SIZE && r <= s
    ensures |s| <= TOKEN_SIZE ==> r == s
  {
    if |s| <= TOKEN_SIZE then s else s[..TOKEN_SIZE]
  }

  /** A packet whose header strings the codec carries: plain ASCII that fits. */
  predicate Encodable(p: Packet)
  {
    && WireOpcode(p.opcode)
    && PlainAscii(p.token) && |p.token| <= TOKEN_SIZE
    && PlainAscii(p.service) && |p.service| <= SERVICE_SIZE
  }

  lemma DecodeEncodedField(s: string, fixedSize: nat)
    requires PlainAscii(s) && |s| <= fixedSize && TOKEN_SIZE <= fixedSize
    ensures DecodedFixed(EncodeFixedBytes(s, fixedSize).value) == Success(Truncated(s))
  {
    var b := EncodeFixedBytes(s, fixedSize).value;
    var t := Truncated(s);
    var k := |t|;
    assert forall i :: 0 <= i < k ==> t[i] == s[i];
    PlainAsciiDecodes(s);
    assert forall i :: 0 <= i < k ==> b[i] == AsciiBytes(s)[i];
    NulTerminatedAt(b, TOKEN_SIZE, k);
    assert b[..k] == AsciiBytes(t);
    PlainAsciiDecodes(t);
  }

  /** ReadFields on a body that holds both fields and the whole payload. */
  lemma ReadWholeFields(opcode: Opcode, length: nat, sequence: uint16, body: seq<byte>)
    requires length <= MAX_BYTE_ARRAY && |body| >= TOKEN_SIZE + SERVICE_SIZE + length
    ensures ReadFields(opcode, length, sequence, body) ==
      DecodeFields(opcode, sequence, body[..32], body[32..80], body[80..80 + length], body[80 + length..])
  {
    assert Min(|body|, TOKEN_SIZE) == 32;
    assert Min(|body|, 32 + SERVICE_SIZE) == 80;
    assert Min(|body|, 80 + length) == 80 + length;
  }

  /** Deserialize of any bytes laid out as SerializeLayout describes: the
      header fields come back as written, the strings as DecodedFixed reads
      their fields, and exactly the frame is consumed. */
  lemma DeserializeLaidOut(p: Packet, f: seq<byte>, rest: seq<byte>)
    requires WireOpcode(p.opcode)
    requires |f| == HEADER_SIZE + |p.data| && HasMagic(f) && f[5] == OpcodeByte(p.opcode)
    requires FromLittleEndianInt32(f[6..10]) == |p.data| && FromLittleEndian16(f[10..12]) == p.sequence
    requires f[96..] == p.data
    ensures DecodedFixed(f[16..48]).Success? && DecodedFixed(f[48..96]).Success?
    ensures Deserialize(f + rest) ==
      Success(Decoded(p.(token := DecodedFixed(f[16..48]).value, service := DecodedFixed(f[48..96]).value), rest))
  {
    var input := f + rest;
    assert input[..5] == f[..5];
    assert input[5] == f[5];
    assert input[6..10] == f[6..10];
    assert input[10..12] == f[10..12];
    var body := input[16..];
    assert body[..32] == f[16..48];
    assert body[32..80] == f[48..96];
    assert body[80..80 + |p.data|] == p.data;
    assert body[80 + |p.data|..] == rest;
    ReadWholeFields(p.opcode, |p.data|, p.sequence, body);
    assert OpcodeOf(input[5]) == p.opcode;
  }

  /** Any frame Serialize produces reads back with its opcode, sequence and
      payload intact, consuming exactly the frame, whatever its header text. */
  lemma DeserializeSerializeFrame(p: Packet, rest: seq<byte>)
    requires WireOpcode(p.opcode) && Serialize(p).Success?
    ensures var r := Deserialize(Serialize(p).value + rest);
      && r.Success? && r.value.rest == rest
      && r.value.packet.opcode == p.opcode
      && r.value.packet.sequence == p.sequence
      && r.value.packet.data == p.data
  {
    SerializeLayout(p);
    DeserializeLaidOut(p, Serialize(p).value, rest);
  }

  /** Reading back a serialized frame restores opcode, sequence, token and
      payload, consumes exactly the frame, and restores the service name cut
      to TOKEN_SIZE characters: names of 33 to 48 characters come back short. */
  lemma DeserializeSerialize(p: Packet, rest: seq<byte>)
    requires Encodable(p)
    ensures Deserialize(Serialize(p).value + rest) == Success(Decoded(p.(service := Truncated(p.service)), rest))
  {
    SerializeLayout(p);
    DeserializeLaidOut(p, Serialize(p).value, rest);
    DecodeEncodedField(p.token, TOKEN_SIZE);
    DecodeEncodedField(p.service, SERVICE_SIZE);
  }

  /** Packet.Create with an explicit sequence number. */
  function CreateWithSequence(opcode: Opcode, service: string, token: string, data: Bytes, sequence: uint16): (p: Packet)
    ensures p.opcode == opcode && p.sequence == sequence && p.service == service && p.token == token && p.data == data
  {
    Packet(opcode, sequence, token, service, data)
  }
}
