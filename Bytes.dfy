/** Byte-order helpers of src/utils/byte.rs, and the memory layout of
    multi-byte values that the stack's packed structs rely on.

    The source chooses the target byte order at compile time
    (`cfg!(target_endian = "big")`); here it is the parameter `target`.
    Masks and shifts are written as the equivalent arithmetic on the
    unbounded integers of the subset types `u16` and `u32`. */
module Bytes {
  import opened Common

  datatype Endian = Little | Big

  /** `(v & 0x00ff) << 8 | (v & 0xff00) >> 8` */
  function ByteSwap16(v: u16): u16 {
    (v % 0x100) * 0x100 + v / 0x100
  }

  /** `(v & 0xff) << 24 | (v & 0xff00) << 8 | (v & 0xff0000) >> 8 | (v & 0xff000000) >> 24` */
  function ByteSwap32(v: u32): u32 {
    (v % 0x100) * 0x100_0000 + ((v / 0x100) % 0x100) * 0x1_0000
      + ((v / 0x1_0000) % 0x100) * 0x100 + v / 0x100_0000
  }

  function BeToLe16(target: Endian, v: u16): u16 {
    if target == Big then v else ByteSwap16(v)
  }

  function LeToBe16(target: Endian, v: u16): u16 {
    if target == Big then v else ByteSwap16(v)
  }

  function BeToLe32(target: Endian, v: u32): u32 {
    if target == Big then v else ByteSwap32(v)
  }

  function LeToBe32(target: Endian, v: u32): u32 {
    if target == Big then v else ByteSwap32(v)
  }

  // ----- wire (network) order and native memory layout --------------------

  /** The two bytes of `v`, most significant first (network order). */
  function BigEndian16(v: u16): (r: seq<byte>)
    ensures |r| == 2
  {
    [v / 0x100, v % 0x100]
  }

  /** The four bytes of `v`, most significant first (network order). */
  function BigEndian32(v: u32): (r: seq<byte>)
    ensures |r| == 4
  {
    [v / 0x100_0000, (v / 0x1_0000) % 0x100, (v / 0x100) % 0x100, v % 0x100]
  }

  /** The value of two bytes read most significant first. */
  function FromBigEndian16(b0: byte, b1: byte): u16 {
    b0 * 0x100 + b1
  }

  function FromBigEndian32(b0: byte, b1: byte, b2: byte, b3: byte): u32 {
    b0 * 0x100_0000 + b1 * 0x1_0000 + b2 * 0x100 + b3
  }

  /** The four bytes of `v`, least significant first (`u32::to_le_bytes`). */
  function LittleEndian32(v: u32): (r: seq<byte>)
    ensures |r| == 4
  {
    [v % 0x100, (v / 0x100) % 0x100, (v / 0x1_0000) % 0x100, v / 0x100_0000]
  }

  /** How a `u16` field of a packed struct lies in memory on `target`. */
  function Store16(target: Endian, v: u16): (r: seq<byte>)
    ensures |r| == 2
  {
    if target == Big then BigEndian16(v) else [v % 0x100, v / 0x100]
  }

  /** How a `u32` field of a packed struct lies in memory on `target`. */
  function Store32(target: Endian, v: u32): (r: seq<byte>)
    ensures |r| == 4
  {
    if target == Big then BigEndian32(v) else LittleEndian32(v)
  }

  /** The `u16` a packed struct field holds when its memory is `b0, b1`. */
  function Load16(target: Endian, b0: byte, b1: byte): u16 {
    if target == Big then FromBigEndian16(b0, b1) else FromBigEndian16(b1, b0)
  }

  function Load32(target: Endian, b0: byte, b1: byte, b2: byte, b3: byte): u32 {
    if target == Big then FromBigEndian32(b0, b1, b2, b3) else FromBigEndian32(b3, b2, b1, b0)
  }

  // ----- properties --------------------------------------------------------

  lemma ByteSwap16Involution(v: u16)
    ensures ByteSwap16(ByteSwap16(v)) == v
  {
    var lo, hi := v % 0x100, v / 0x100;
    var s := lo * 0x100 + hi;
    assert s % 0x100 == hi && s / 0x100 == lo;
  }

  /** Swapping the bytes of `v` reverses its two network-order bytes. */
  lemma ByteSwap16Reverses(v: u16)
    ensures BigEndian16(ByteSwap16(v)) == [BigEndian16(v)[1], BigEndian16(v)[0]]
  {
    var lo, hi := v % 0x100, v / 0x100;
    var s := lo * 0x100 + hi;
    assert s % 0x100 == hi && s / 0x100 == lo;
  }

  /** Network-order bytes and their value are mutual inverses. */
  lemma BigEndian16Value(v: u16)
    ensures FromBigEndian16(BigEndian16(v)[0], BigEndian16(v)[1]) == v
  {
  }

  lemma FromBigEndian16Digits(b0: byte, b1: byte)
    ensures BigEndian16(FromBigEndian16(b0, b1)) == [b0, b1]
  {
    var v := FromBigEndian16(b0, b1);
    assert v % 0x100 == b1 && v / 0x100 == b0;
  }

  lemma FromBigEndian32Digits(b0: byte, b1: byte, b2: byte, b3: byte)
    ensures BigEndian32(FromBigEndian32(b0, b1, b2, b3)) == [b0, b1, b2, b3]
  {
    var v := FromBigEndian32(b0, b1, b2, b3);
    assert v % 0x100 == b3;
    assert v / 0x100 == b0 * 0x1_0000 + b1 * 0x100 + b2;
    assert (v / 0x100) % 0x100 == b2;
    assert v / 0x1_0000 == b0 * 0x100 + b1;
    assert (v / 0x1_0000) % 0x100 == b1;
    assert v / 0x100_0000 == b0;
  }

  lemma BigEndian32Value(v: u32)
    ensures FromBigEndian32(BigEndian32(v)[0], BigEndian32(v)[1], BigEndian32(v)[2], BigEndian32(v)[3]) == v
  {
    var b := BigEndian32(v);
    assert v == (v / 0x100) * 0x100 + v % 0x100;
    assert v / 0x100 == (v / 0x1_0000) * 0x100 + (v / 0x100) % 0x100;
    assert v / 0x1_0000 == (v / 0x100_0000) * 0x100 + (v / 0x1_0000) % 0x100;
  }

  /** `byte_swap_u32` reverses the four network-order bytes. */
  lemma ByteSwap32Reverses(v: u32)
    ensures var b := BigEndian32(v); BigEndian32(ByteSwap32(v)) == [b[3], b[2], b[1], b[0]]
  {
    var b := BigEndian32(v);
    assert ByteSwap32(v) == FromBigEndian32(b[3], b[2], b[1], b[0]);
    FromBigEndian32Digits(b[3], b[2], b[1], b[0]);
  }

  lemma ByteSwap32Involution(v: u32)
    ensures ByteSwap32(ByteSwap32(v)) == v
  {
    var b := BigEndian32(v);
    ByteSwap32Reverses(v);
    ByteSwap32Reverses(ByteSwap32(v));
    BigEndian32Value(v);
    BigEndian32Value(ByteSwap32(ByteSwap32(v)));
  }

  /** `be_to_le_u16` and `le_to_be_u16` are the same function, and each
      undoes the other; on a big-endian target both are the identity. */
  lemma Convert16(target: Endian, v: u16)
    ensures BeToLe16(target, v) == LeToBe16(target, v)
    ensures BeToLe16(target, LeToBe16(target, v)) == v
    ensures LeToBe16(target, BeToLe16(target, v)) == v
    ensures target == Big ==> BeToLe16(target, v) == v && LeToBe16(target, v) == v
  {
    ByteSwap16Involution(v);
  }

  lemma Convert32(target: Endian, v: u32)
    ensures BeToLe32(target, v) == LeToBe32(target, v)
    ensures BeToLe32(target, LeToBe32(target, v)) == v
    ensures LeToBe32(target, BeToLe32(target, v)) == v
    ensures target == Big ==> BeToLe32(target, v) == v && LeToBe32(target, v) == v
  {
    ByteSwap32Involution(v);
  }

  /** Why the stack converts with `le_to_be_*` before storing a field of a
      packed header: on either target the memory then holds network order. */
  lemma StoreLeToBe16(target: Endian, v: u16)
    ensures Store16(target, LeToBe16(target, v)) == BigEndian16(v)
  {
    ByteSwap16Reverses(v);
  }

  lemma StoreLeToBe32(target: Endian, v: u32)
    ensures Store32(target, LeToBe32(target, v)) == BigEndian32(v)
  {
    if target == Little {
      var b := BigEndian32(v);
      ByteSwap32Reverses(v);
      BigEndian32Value(ByteSwap32(v));
      assert ByteSwap32(v) == FromBigEndian32(b[3], b[2], b[1], b[0]);
      FromBigEndian32Digits(b[0], b[1], b[2], b[3]);
      BigEndian32Value(v);
    }
  }

  /** And why it converts with `be_to_le_*` after loading one: on either
      target the value read is the network-order value of the bytes. */
  lemma LoadBeToLe16(target: Endian, b0: byte, b1: byte)
    ensures BeToLe16(target, Load16(target, b0, b1)) == FromBigEndian16(b0, b1)
  {
    var v := FromBigEndian16(b1, b0);
    assert v % 0x100 == b0 && v / 0x100 == b1;
  }

  lemma LoadBeToLe32(target: Endian, b0: byte, b1: byte, b2: byte, b3: byte)
    ensures BeToLe32(target, Load32(target, b0, b1, b2, b3)) == FromBigEndian32(b0, b1, b2, b3)
  {
    if target == Little {
      var v := FromBigEndian32(b3, b2, b1, b0);
      FromBigEndian32Digits(b3, b2, b1, b0);
      ByteSwap32Reverses(v);
      FromBigEndian32Digits(b0, b1, b2, b3);
      BigEndian32Value(ByteSwap32(v));
    }
  }

  /** A field written and read back on the same target keeps its value. */
  lemma LoadStore16(target: Endian, v: u16)
    ensures Load16(target, Store16(target, v)[0], Store16(target, v)[1]) == v
  {
  }

  lemma LoadStore32(target: Endian, v: u32)
    ensures var m := Store32(target, v); Load32(target, m[0], m[1], m[2], m[3]) == v
  {
    BigEndian32Value(v);
  }

  /** Memory loaded as a `u32` and stored back is unchanged. */
  lemma StoreLoad32(target: Endian, b0: byte, b1: byte, b2: byte, b3: byte)
    ensures Store32(target, Load32(target, b0, b1, b2, b3)) == [b0, b1, b2, b3]
  {
    if target == Big {
      FromBigEndian32Digits(b0, b1, b2, b3);
    } else {
      var v := FromBigEndian32(b3, b2, b1, b0);
      FromBigEndian32Digits(b3, b2, b1, b0);
      assert BigEndian32(v) == [b3, b2, b1, b0];
    }
  }
}
