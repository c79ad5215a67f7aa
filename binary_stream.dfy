/**
 * The byte layouts of the client library's `BinaryStreamUtils` writers
 * (ClickHouse RowBinary), each as a function on byte sequences, with the
 * readers that undo them, and the piped output stream the writer appends to.
 */
module BinaryStream {
  import opened Wrappers

  newtype byte = x: int | 0 <= x < 0x100

  type int8 = x: int | -0x80 <= x < 0x80
  type int16 = x: int | -0x8000 <= x < 0x8000
  type int32 = x: int | -0x8000_0000 <= x < 0x8000_0000
  type int64 = x: int | -0x8000_0000_0000_0000 <= x < 0x8000_0000_0000_0000
  type uint32 = x: int | 0 <= x < 0x1_0000_0000
  type uint64 = x: int | 0 <= x < 0x1_0000_0000_0000_0000

  /** The marker `writeNull` writes, and the one `writeNonNull` writes. */
  const NULL_MARKER: byte := 1
  const NON_NULL_MARKER: byte := 0

  // ---------------------------------------------------------------------
  // Fixed-width little-endian integers
  // ---------------------------------------------------------------------

  /** 256 to the power `w`: the number of values `w` bytes can hold. */
  function Range(w: nat): (r: nat)
    ensures r >= 1
  {
    if w == 0 then 1 else 256 * Range(w - 1)
  }

  lemma RangeValues()
    ensures Range(1) == 0x100 && Range(2) == 0x1_0000
    ensures Range(4) == 0x1_0000_0000 && Range(8) == 0x1_0000_0000_0000_0000
  {
    assert Range(1) == 256 * Range(0);
    assert Range(2) == 256 * Range(1);
    assert Range(3) == 256 * Range(2);
    assert Range(4) == 256 * Range(3);
    assert Range(5) == 256 * Range(4);
    assert Range(6) == 256 * Range(5);
    assert Range(7) == 256 * Range(6);
    assert Range(8) == 256 * Range(7);
  }

  /** The `w` low-order bytes of `n`, least significant first. */
  function LE(n: nat, w: nat): (r: seq<byte>)
    ensures |r| == w
  {
    if w == 0 then [] else [(n % 256) as byte] + LE(n / 256, w - 1)
  }

  /** The unsigned value of a little-endian byte sequence. */
  function ReadLE(bs: seq<byte>): (n: nat)
  {
    if |bs| == 0 then 0 else bs[0] as int + 256 * ReadLE(bs[1..])
  }

  lemma {:induction false} ReadLEBound(bs: seq<byte>)
    ensures ReadLE(bs) < Range(|bs|)
  {
    if |bs| > 0 {
      ReadLEBound(bs[1..]);
    }
  }

  lemma {:induction false} ReadLEOfLE(n: nat, w: nat)
    requires n < Range(w)
    ensures ReadLE(LE(n, w)) == n
  {
    if w > 0 {
      ReadLEOfLE(n / 256, w - 1);
      assert LE(n, w)[1..] == LE(n / 256, w - 1);
    }
  }

  /** The `w`-byte two's-complement bit pattern of a signed value. */
  function TwosComplement(v: int, w: nat): (u: nat)
    requires -(Range(w) / 2) <= v < Range(w) / 2
    ensures u < Range(w)
  {
    if v < 0 then v + Range(w) else v
  }

  /** The signed value of a `w`-byte two's-complement bit pattern. */
  function Signed(u: nat, w: nat): int
  {
    if u >= Range(w) / 2 then u - Range(w) else u
  }

  lemma SignedOfTwosComplement(v: int, w: nat)
    requires -(Range(w) / 2) <= v < Range(w) / 2
    ensures Signed(TwosComplement(v, w), w) == v
  {
  }

  function Int8Bytes(v: int8): seq<byte> { RangeValues(); LE(TwosComplement(v, 1), 1) }
  function Int16Bytes(v: int16): seq<byte> { RangeValues(); LE(TwosComplement(v, 2), 2) }
  function Int32Bytes(v: int32): seq<byte> { RangeValues(); LE(TwosComplement(v, 4), 4) }
  function Int64Bytes(v: int64): seq<byte> { RangeValues(); LE(TwosComplement(v, 8), 8) }

  /**
   * `writeUnsignedInt8/16/32`: the value must lie in the unsigned range of
   * `w` bytes (the library rejects it otherwise with an
   * IllegalArgumentException, `None` here).
   */
  function UnsignedBytes(v: int, w: nat): (r: Option<seq<byte>>)
    ensures r.Some? <==> 0 <= v < Range(w)
    ensures r.Some? ==> |r.value| == w && ReadLE(r.value) == v
  {
    if 0 <= v < Range(w) then
      ReadLEOfLE(v, w);
      Some(LE(v, w))
    else None
  }

  /** `writeBoolean`: one byte, 1 for true and 0 for false. */
  function BooleanBytes(z: bool): seq<byte> { if z then [1] else [0] }

  // ---------------------------------------------------------------------
  // Variable-length integers (unsigned LEB128) and strings
  // ---------------------------------------------------------------------

  /**
   * `writeVarInt`: seven bits per byte, least significant group first, the
   * high bit set on every byte but the last (unsigned LEB128, DWARF
   * Version 4, section 7.6).
   */
  function VarInt(n: nat): (r: seq<byte>)
    ensures |r| >= 1
  {
    if n < 0x80 then [n as byte]
    else [(0x80 + n % 0x80) as byte] + VarInt(n / 0x80)
  }

  /** The reader for `VarInt`: the value and the bytes after it. */
  function ReadVarInt(bs: seq<byte>): Option<(nat, seq<byte>)>
  {
    if |bs| == 0 then None
    else if bs[0] < 0x80 then Some((bs[0] as nat, bs[1..]))
    else match ReadVarInt(bs[1..])
      case None => None
      case Some((m, rest)) => Some((bs[0] as int - 0x80 + 0x80 * m, rest))
  }

  lemma {:induction false} ReadVarIntOfVarInt(n: nat, rest: seq<byte>)
    ensures ReadVarInt(VarInt(n) + rest) == Some((n, rest))
  {
    var bs := VarInt(n) + rest;
    if n >= 0x80 {
      ReadVarIntOfVarInt(n / 0x80, rest);
      assert bs[1..] == VarInt(n / 0x80) + rest;
      assert bs[0] as int == 0x80 + n % 0x80;
    } else {
      assert bs[1..] == rest;
    }
  }

  function Pow128(k: nat): (r: nat)
    ensures r >= 1
  {
    if k == 0 then 1 else 0x80 * Pow128(k - 1)
  }

  lemma {:induction false} VarIntLengthBound(n: nat, k: nat)
    requires 1 <= k && n < Pow128(k)
    ensures |VarInt(n)| <= k
  {
    if n >= 0x80 {
      assert Pow128(1) == 0x80 * Pow128(0);
      VarIntLengthBound(n / 0x80, k - 1);
    }
  }

  /** A count below 2^31 (a Java `int` size) takes at most five bytes. */
  lemma VarIntLength(n: nat)
    ensures n < 0x80 ==> |VarInt(n)| == 1
    ensures n < 0x8000_0000 ==> |VarInt(n)| <= 5
  {
    assert Pow128(1) == 0x80 * Pow128(0);
    assert Pow128(2) == 0x80 * Pow128(1);
    assert Pow128(3) == 0x80 * Pow128(2);
    assert Pow128(4) == 0x80 * Pow128(3);
    assert Pow128(5) == 0x80 * Pow128(4);
    if n < 0x8000_0000 {
      VarIntLengthBound(n, 5);
    }
  }

  /** `writeString(bytes)`: the byte count as a `VarInt`, then the bytes. */
  function StringBytes(payload: seq<byte>): seq<byte>
  {
    VarInt(|payload|) + payload
  }

  /** UTF-8 encoding of one Unicode scalar value (RFC 3629, section 3). */
  function Utf8Char(ch: char): (r: seq<byte>)
    ensures 1 <= |r| <= 4
  {
    var cp := ch as int;
    if cp < 0x80 then [cp as byte]
    else if cp < 0x800 then
      [(0xC0 + cp / 0x40) as byte, (0x80 + cp % 0x40) as byte]
    else if cp < 0x1_0000 then
      [(0xE0 + cp / 0x1000) as byte, (0x80 + cp / 0x40 % 0x40) as byte, (0x80 + cp % 0x40) as byte]
    else
      [(0xF0 + cp / 0x4_0000) as byte, (0x80 + cp / 0x1000 % 0x40) as byte,
       (0x80 + cp / 0x40 % 0x40) as byte, (0x80 + cp % 0x40) as byte]
  }

  /** `String.getBytes()` with UTF-8 as the platform charset. */
  function Utf8(s: string): seq<byte>
  {
    if |s| == 0 then [] else Utf8Char(s[0]) + Utf8(s[1..])
  }

  // ---------------------------------------------------------------------
  // UUID
  // ---------------------------------------------------------------------

  /** A java.util.UUID: its most and least significant 64-bit halves. */
  datatype Uuid = Uuid(msb: int64, lsb: int64)

  /** `writeUuid`: 16 bytes, the most significant half first, each half as `writeInt64`. */
  function UuidBytes(u: Uuid): (r: seq<byte>)
    ensures |r| == 16
  {
    Int64Bytes(u.msb) + Int64Bytes(u.lsb)
  }

  // ---------------------------------------------------------------------
  // The piped output stream
  // ---------------------------------------------------------------------

  /**
   * The producer side of the piped stream: everything written so far, in
   * order.  Draining it onto the network is not part of this model.
   */
  class PipedOutputStream {
    var data: seq<byte>

    constructor ()
      ensures data == []
    {
      data := [];
    }

    method WriteNull()
      modifies this
      ensures data == old(data) + [NULL_MARKER]
    {
      data := data + [NULL_MARKER];
    }

    method WriteNonNull()
      modifies this
      ensures data == old(data) + [NON_NULL_MARKER]
    {
      data := data + [NON_NULL_MARKER];
    }

    method WriteInt8(v: int8)
      modifies this
      ensures data == old(data) + Int8Bytes(v)
    {
      data := data + Int8Bytes(v);
    }

    method WriteInt16(v: int16)
      modifies this
      ensures data == old(data) + Int16Bytes(v)
    {
      data := data + Int16Bytes(v);
    }

    method WriteInt32(v: int32)
      modifies this
      ensures data == old(data) + Int32Bytes(v)
    {
      data := data + Int32Bytes(v);
    }

    method WriteInt64(v: int64)
      modifies this
      ensures data == old(data) + Int64Bytes(v)
    {
      data := data + Int64Bytes(v);
    }

    /** `writeUnsignedInt8/16/32`; `accepted` is false where the library throws. */
    method WriteUnsigned(v: int, w: nat) returns (accepted: bool)
      modifies this
      ensures accepted == UnsignedBytes(v, w).Some?
      ensures data == old(data) + (if accepted then UnsignedBytes(v, w).value else [])
    {
      var bytes := UnsignedBytes(v, w);
      accepted := bytes.Some?;
      if accepted {
        data := data + bytes.value;
      }
    }

    /** `writeUnsignedInt64` writes the 64-bit pattern of a Java `long` as it is. */
    method WriteUnsignedInt64(v: int64)
      modifies this
      ensures data == old(data) + Int64Bytes(v)
    {
      data := data + Int64Bytes(v);
    }

    /** `writeFloat32/64`, given the IEEE-754 bit pattern of the value. */
    method WriteFloatBits(bits: nat, w: nat)
      modifies this
      ensures data == old(data) + LE(bits, w)
    {
      data := data + LE(bits, w);
    }

    method WriteBoolean(z: bool)
      modifies this
      ensures data == old(data) + BooleanBytes(z)
    {
      data := data + BooleanBytes(z);
    }

    method WriteVarInt(n: nat)
      modifies this
      ensures data == old(data) + VarInt(n)
    {
      data := data + VarInt(n);
    }

    method WriteString(payload: seq<byte>)
      modifies this
      ensures data == old(data) + StringBytes(payload)
    {
      data := data + StringBytes(payload);
    }

    method WriteUuid(u: Uuid)
      modifies this
      ensures data == old(data) + UuidBytes(u)
    {
      data := data + UuidBytes(u);
    }
  }
}
