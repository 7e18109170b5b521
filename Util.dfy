/** The older helper copies in src/util.rs: `u16_to_le`, `u32_to_le` and
    the struct version of `cksum16`, which sums the memory of a packed
    header. */
module Util {
  import opened Common
  import opened Bytes
  import opened InetChecksum

  /** `u16_to_le`: the identity on a big-endian target, else
      `(v & 0x00ff) << 8 | (v & 0xff00) >> 8`. */
  function U16ToLe(target: Endian, v: u16): u16 {
    if target == Big then v else (v % 0x100) * 0x100 + v / 0x100
  }

  /** `u32_to_le`: the identity on a big-endian target, else the four
      bytes in reverse order. */
  function U32ToLe(target: Endian, v: u32): u32 {
    if target == Big then v
    else
      (v % 0x100) * 0x100_0000 + ((v / 0x100) % 0x100) * 0x1_0000
      + ((v / 0x1_0000) % 0x100) * 0x100 + v / 0x100_0000
  }

  lemma U16ToLeProperties(target: Endian, v: u16)
    ensures target == Little ==> BigEndian16(U16ToLe(target, v)) == [BigEndian16(v)[1], BigEndian16(v)[0]]
    ensures target == Big ==> U16ToLe(target, v) == v
    ensures U16ToLe(target, U16ToLe(target, v)) == v
  {
    ByteSwap16Reverses(v);
    ByteSwap16Involution(v);
  }

  lemma U32ToLeProperties(target: Endian, v: u32)
    ensures var b := BigEndian32(v);
            target == Little ==> BigEndian32(U32ToLe(target, v)) == [b[3], b[2], b[1], b[0]]
    ensures target == Big ==> U32ToLe(target, v) == v
    ensures U32ToLe(target, U32ToLe(target, v)) == v
  {
    ByteSwap32Reverses(v);
    ByteSwap32Involution(v);
  }

  /** The word sum of the struct version: an odd trailing byte is added
      as it is, as the LOW half of a word. */
  function StructSum(mem: seq<byte>, hlen: nat): nat
    requires hlen <= |mem|
  {
    PairSum(mem, hlen) + (if hlen % 2 == 1 then mem[hlen - 1] as int else 0)
  }

  function StructChecksum(mem: seq<byte>, hlen: nat, init: nat): u16
    requires hlen <= |mem|
  {
    0xffff - Fold(init + StructSum(mem, hlen))
  }

  /** `cksum16(hdr, hlen, init)` over the memory `mem` of the header
      struct (`to_u8_slice(hdr)`); `sum` is a `u32` that must not overflow. */
  method StructCksum16(mem: seq<byte>, hlen: nat, init: u32) returns (r: u16)
    requires hlen <= |mem|
    requires init + StructSum(mem, hlen) <= U32_MAX
    ensures r == StructChecksum(mem, hlen, init)
  {
    var i: nat := 0;
    var rem: nat := hlen;
    var sum: int := init;
    while rem > 1
      invariant i + rem == hlen && i % 2 == 0
      invariant sum + PairSum(mem[i..], rem) == init + PairSum(mem, hlen)
      invariant init <= sum
    {
      assert mem[i..][2..] == mem[i + 2..];
      sum := sum + Word(mem[i], mem[i + 1]);
      rem := rem - 2;
      i := i + 2;
    }
    if rem > 0 {
      sum := sum + mem[i];
    }
    assert sum == init + StructSum(mem, hlen);
    ghost var total := sum;
    while sum / 0x1_0000 != 0
      invariant sum >= 0 && Fold(sum) == Fold(total)
      decreases sum
    {
      FoldStep(sum);
      sum := sum % 0x1_0000 + sum / 0x1_0000;
    }
    r := 0xffff - sum;
  }

  /** For an even length both copies of `cksum16` agree. */
  lemma EvenLengthAgrees(mem: seq<byte>, hlen: nat, init: nat)
    requires hlen <= |mem| && hlen % 2 == 0
    ensures StructChecksum(mem, hlen, init) == Checksum(mem, hlen, init)
  {
  }

  /** For an odd length they differ exactly in the weight of the last
      byte: 1 here, 0x100 in the slice version. */
  lemma OddLengthDiffers(mem: seq<byte>, hlen: nat)
    requires hlen <= |mem| && hlen % 2 == 1
    ensures SliceSum(mem, hlen) == StructSum(mem, hlen) + mem[hlen - 1] as int * 0xff
  {
  }

  /** Concretely: the single byte 0x01 sums to 0x0001 here and to 0x0100
      in the slice version, so the two checksums differ. */
  lemma OddLengthExample()
    ensures StructChecksum([1], 1, 0) == 0xfffe
    ensures Checksum([1], 1, 0) == 0xfeff
  {
    assert StructSum([1], 1) == 1;
    assert SliceSum([1], 1) == 0x100;
  }
}
