/** Big-endian integers as they travel on the wire. */
module Bytes {
  type Byte = b: int | 0 <= b < 0x100
  type UInt16 = v: int | 0 <= v < 0x1_0000
  type UInt32 = v: int | 0 <= v < 0x1_0000_0000
  type Int16 = v: int | -0x8000 <= v < 0x8000
  type Int32 = v: int | -0x8000_0000 <= v < 0x8000_0000

  /** static_cast<int16_t> */
  function ToInt16(v: int): Int16 {
    var u := v % 0x1_0000;
    if u < 0x8000 then u else u - 0x1_0000
  }

  /** static_cast<int32_t> */
  function ToInt32(v: int): Int32 {
    var u := v % 0x1_0000_0000;
    if u < 0x8000_0000 then u else u - 0x1_0000_0000
  }

  /** static_cast<uint16_t> */
  function ToUInt16(v: int): UInt16 { v % 0x1_0000 }

  /** static_cast<uint32_t> */
  function ToUInt32(v: int): UInt32 { v % 0x1_0000_0000 }

  function WriteUInt16(v: UInt16): seq<Byte> { [v / 0x100, v % 0x100] }

  function WriteInt16(v: Int16): seq<Byte> { WriteUInt16(ToUInt16(v)) }

  function WriteUInt32(v: UInt32): seq<Byte> {
    [v / 0x100_0000, v / 0x1_0000 % 0x100, v / 0x100 % 0x100, v % 0x100]
  }

  function ReadUInt16(data: seq<Byte>, offset: nat): UInt16
    requires offset + 2 <= |data|
  {
    var b0: int, b1: int := data[offset], data[offset + 1];
    b0 * 0x100 + b1
  }

  function ReadInt16(data: seq<Byte>, offset: nat): Int16
    requires offset + 2 <= |data|
  {
    ToInt16(ReadUInt16(data, offset))
  }

  function ReadUInt32(data: seq<Byte>, offset: nat): UInt32
    requires offset + 4 <= |data|
  {
    var b0: int, b1: int, b2: int, b3: int := data[offset], data[offset + 1], data[offset + 2], data[offset + 3];
    b0 * 0x100_0000 + b1 * 0x1_0000 + b2 * 0x100 + b3
  }

  lemma UInt16RoundTrip(v: UInt16, data: seq<Byte>, offset: nat)
    requires offset + 2 <= |data| && data[offset..offset + 2] == WriteUInt16(v)
    ensures ReadUInt16(data, offset) == v
  {
    var w := WriteUInt16(v);
    assert data[offset..offset + 2][0] == w[0] && data[offset..offset + 2][1] == w[1];
  }

  lemma Int16RoundTrip(v: Int16, data: seq<Byte>, offset: nat)
    requires offset + 2 <= |data| && data[offset..offset + 2] == WriteInt16(v)
    ensures ReadInt16(data, offset) == v
  {
    UInt16RoundTrip(ToUInt16(v), data, offset);
  }

  lemma UInt32RoundTrip(v: UInt32, data: seq<Byte>, offset: nat)
    requires offset + 4 <= |data| && data[offset..offset + 4] == WriteUInt32(v)
    ensures ReadUInt32(data, offset) == v
  {
    var w := WriteUInt32(v);
    assert forall k :: 0 <= k < 4 ==> data[offset + k] == data[offset..offset + 4][k] == w[k];
    DigitsOf(v);
  }

  lemma DigitsOf(v: UInt32)
    ensures v == v / 0x100_0000 * 0x100_0000 + v / 0x1_0000 % 0x100 * 0x1_0000 + v / 0x100 % 0x100 * 0x100 + v % 0x100
  {
    var q1, q2 := v / 0x100, v / 0x1_0000;
    assert q2 == q1 / 0x100 && v / 0x100_0000 == q2 / 0x100;
  }
}
