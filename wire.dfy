/** Byte-level vocabulary shared by the frame codec: bytes, the fixed-width
    little-endian integers that .NET's BinaryWriter/BinaryReader produce, and
    the two text encodings the protocol uses (ASCII for the fixed header
    strings, UTF-8 for JSON payloads). */
module Wire {

  type byte = x: int | 0 <= x < 0x100
  type uint16 = x: int | 0 <= x < 0x1_0000
  type uint32 = x: int | 0 <= x < 0x1_0000_0000

  const UINT16_MAX: uint16 := 0xFFFF
  const INT32_MAX := 0x7FFF_FFFF

  /** The longest byte[] the .NET runtime allocates; a longer one raises
      OutOfMemoryException. */
  const MAX_BYTE_ARRAY := 0x7FFF_FFC7

  type Bytes = s: seq<byte> | |s| <= MAX_BYTE_ARRAY witness []

  datatype Option<+T> = None | Some(value: T)

  datatype Result<+T, +E> = Success(value: T) | Failure(error: E)

  /** BinaryWriter.Write(ushort): low byte first. */
  function LittleEndian16(x: uint16): (r: seq<byte>)
    ensures |r| == 2
  {
    [x % 0x100, x / 0x100]
  }

  /** BinaryWriter.Write(uint) and Write(int) of a non-negative value. */
  function LittleEndian32(x: uint32): (r: seq<byte>)
    ensures |r| == 4
  {
    [x % 0x100, (x / 0x100) % 0x100, (x / 0x100 / 0x100) % 0x100, x / 0x100 / 0x100 / 0x100]
  }

  /** BinaryReader.ReadUInt16. */
  function FromLittleEndian16(b: seq<byte>): (x: uint16)
    requires |b| == 2
  {
    b[0] as int + 0x100 * (b[1] as int)
  }

  /** BinaryReader.ReadUInt32. */
  function FromLittleEndian32(b: seq<byte>): (x: uint32)
    requires |b| == 4
  {
    b[0] as int + 0x100 * (b[1] as int) + 0x1_0000 * (b[2] as int) + 0x100_0000 * (b[3] as int)
  }

  /** BinaryReader.ReadInt32: the same four bytes read as two's complement. */
  function FromLittleEndianInt32(b: seq<byte>): (x: int)
    requires |b| == 4
    ensures -0x8000_0000 <= x <= INT32_MAX
    ensures x >= 0 <==> b[3] < 0x80
  {
    var u := FromLittleEndian32(b);
    if u <= INT32_MAX then u else u - 0x1_0000_0000
  }

  lemma LittleEndian16RoundTrip(x: uint16)
    ensures FromLittleEndian16(LittleEndian16(x)) == x
  {
  }

  lemma LittleEndian32RoundTrip(x: uint32)
    ensures FromLittleEndian32(LittleEndian32(x)) == x
  {
    var q1 := x / 0x100;
    var q2 := q1 / 0x100;
    var q3 := q2 / 0x100;
    assert x == x % 0x100 + 0x100 * q1;
    assert q1 == q1 % 0x100 + 0x100 * q2;
    assert q2 == q2 % 0x100 + 0x100 * q3;
    assert LittleEndian32(x) == [x % 0x100, q1 % 0x100, q2 % 0x100, q3];
  }

  /** Encoding.ASCII: one byte per character, '?' for anything outside ASCII. */
  function AsciiByte(c: char): (b: byte)
    ensures b < 0x80
    ensures c as int < 0x80 ==> b == c as int
  {
    if c as int < 0x80 then c as int else '?' as int
  }

  function AsciiBytes(s: string): (r: seq<byte>)
    ensures |r| == |s|
    ensures forall i :: 0 <= i < |s| ==> r[i] == AsciiByte(s[i])
  {
    seq(|s|, i requires 0 <= i < |s| => AsciiByte(s[i]))
  }

  /** The cast (char)b that the decoder applies to each header byte. */
  function ByteChar(b: byte): char
  {
    b as char
  }

  function Chars(b: seq<byte>): (s: string)
    ensures |s| == |b|
    ensures forall i :: 0 <= i < |b| ==> s[i] == ByteChar(b[i])
  {
    seq(|b|, i requires 0 <= i < |b| => ByteChar(b[i]))
  }

  /** Text the fixed-width header fields carry without loss: ASCII without NUL. */
  predicate PlainAscii(s: string)
  {
    forall i :: 0 <= i < |s| ==> 0 < s[i] as int < 0x80
  }

  lemma {:induction false} PlainAsciiDecodes(s: string)
    requires PlainAscii(s)
    ensures Chars(AsciiBytes(s)) == s
    ensures forall i :: 0 <= i < |s| ==> AsciiBytes(s)[i] != 0
  {
    var b := AsciiBytes(s);
    forall i | 0 <= i < |s| ensures Chars(b)[i] == s[i] {
      assert b[i] == s[i] as int;
    }
  }

  /** Encoding.UTF8.GetBytes for a string of Unicode scalar values. */
  function Utf8(s: string): (r: seq<byte>)
    ensures |r| >= |s|
  {
    if s == [] then [] else Utf8Char(s[0]) + Utf8(s[1..])
  }

  function Utf8Char(c: char): (r: seq<byte>)
    ensures 1 <= |r| <= 4
    ensures c as int < 0x80 <==> r == [c as int]
  {
    var x := c as int;
    if x < 0x80 then [x]
    else if x < 0x800 then [0xC0 + x / 0x40, 0x80 + x % 0x40]
    else if x < 0x1_0000 then [0xE0 + x / 0x1000, 0x80 + (x / 0x40) % 0x40, 0x80 + x % 0x40]
    else [0xF0 + x / 0x4_0000, 0x80 + (x / 0x1000) % 0x40, 0x80 + (x / 0x40) % 0x40, 0x80 + x % 0x40]
  }

  /**
    Zero-filled buffer, as a freshly allocated .NET byte[] is. */
  function Zeros(n: nat): (r: seq<byte>)
    ensures |r| == n
    ensures forall i :: 0 <= i < n ==> r[i] == 0
  {
    seq(n, i => 0)
  }
}
