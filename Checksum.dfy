/** The Internet checksum of RFC 1071 as computed by `cksum16` in
    src/utils/mod.rs: the one's-complement sum of the big-endian 16-bit
    words of the first `len` bytes, seeded with `init`, with carries folded
    back in, then complemented. */
module InetChecksum {
  import opened Common

  /** The big-endian 16-bit word `hi << 8 | lo`. */
  function Word(hi: byte, lo: byte): nat {
    hi as int * 0x100 + lo
  }

  /** The sum of the big-endian words formed by the bytes of `data[0..len)`
      taken in pairs; a trailing odd byte is not included. */
  function PairSum(data: seq<byte>, len: nat): nat
    requires len <= |data|
    decreases len
  {
    if len < 2 then 0 else Word(data[0], data[1]) + PairSum(data[2..], len - 2)
  }

  /** The word sum of the slice version: an odd trailing byte is the high
      half of a last word whose low half is zero. */
  function SliceSum(data: seq<byte>, len: nat): nat
    requires len <= |data|
  {
    PairSum(data, len) + (if len % 2 == 1 then Word(data[len - 1], 0) else 0)
  }

  lemma FoldStep(s: nat)
    requires s >= 0x1_0000
    ensures s % 0x1_0000 + s / 0x1_0000 < s
    ensures (s % 0x1_0000 + s / 0x1_0000) % 0xffff == s % 0xffff
  {
    var q, m := s / 0x1_0000, s % 0x1_0000;
    assert s == q * 0x1_0000 + m;
    assert q * 0x1_0000 == q * 0xffff + q;
    assert s == q * 0xffff + (m + q);
  }

  /** `while (sum >> 16) != 0 { sum = (sum & 0xffff) + (sum >> 16) }`:
      the end-around carry. The result fits in 16 bits, is congruent to the
      input modulo 0xffff, and is zero only for a zero input. */
  function Fold(s: nat): (r: nat)
    ensures r < 0x1_0000
    ensures r % 0xffff == s % 0xffff
    ensures s > 0 ==> r > 0
    decreases s
  {
    if s < 0x1_0000 then s
    else
      FoldStep(s);
      Fold(s % 0x1_0000 + s / 0x1_0000)
  }

  /** The value `cksum16(data, len, init)` returns: the bitwise complement
      (`!(sum as u16)`) of the folded sum. */
  function Checksum(data: seq<byte>, len: nat, init: nat): u16
    requires len <= |data|
  {
    0xffff - Fold(init + SliceSum(data, len))
  }

  /** The slice version, with the source's loops. `sum` is a `u32` in the
      source; the precondition says that it does not overflow. */
  method Cksum16(data: seq<byte>, len: nat, init: u32) returns (r: u16)
    requires len <= |data|
    requires init + SliceSum(data, len) <= U32_MAX
    ensures r == Checksum(data, len, init)
  {
    var i: nat := 0;
    var rem: nat := len;
    var sum: int := init;
    while rem > 1
      invariant i + rem == len
      invariant sum + PairSum(data[i..], rem) == init + PairSum(data, len)
      invariant init <= sum && i % 2 == 0
    {
      assert data[i..][2..] == data[i + 2..];
      sum := sum + Word(data[i], data[i + 1]);
      rem := rem - 2;
      i := i + 2;
    }
    assert PairSum(data, len) + init == sum;
    if rem > 0 {
      sum := sum + Word(data[i], 0);
    }
    assert sum == init + SliceSum(data, len);
    ghost var total := sum;
    while sum / 0x1_0000 != 0
      invariant sum >= 0 && Fold(sum) == Fold(total)
      decreases sum
    {
      FoldStep(sum);
      sum := sum % 0x1_0000 + sum / 0x1_0000;
    }
    r := 0xffff - sum;
  }

  // ----- properties --------------------------------------------------------

  /** Only `data[0..len)` is read. */
  lemma {:induction false} PairSumPrefix(a: seq<byte>, b: seq<byte>, len: nat)
    requires len <= |a| && len <= |b| && a[..len] == b[..len]
    ensures PairSum(a, len) == PairSum(b, len)
    decreases len
  {
    if len >= 2 {
      assert a[0] == a[..len][0] && b[0] == b[..len][0];
      assert a[1] == a[..len][1] && b[1] == b[..len][1];
      assert a[2..][..len - 2] == a[..len][2..];
      assert b[2..][..len - 2] == b[..len][2..];
      PairSumPrefix(a[2..], b[2..], len - 2);
    }
  }

  /** The word sum of an even-length head followed by a tail is the sum
      of the two. */
  lemma {:induction false} PairSumConcat(a: seq<byte>, b: seq<byte>, len: nat)
    requires |a| % 2 == 0 && len <= |b|
    ensures PairSum(a + b, |a| + len) == PairSum(a, |a|) + PairSum(b, len)
    decreases |a|
  {
    if |a| > 0 {
      assert (a + b)[0] == a[0] && (a + b)[1] == a[1];
      assert (a + b)[2..] == a[2..] + b;
      PairSumConcat(a[2..], b, len);
      assert |a[2..]| + len == |a| + len - 2;
    } else {
      assert a + b == b;
    }
  }

  lemma ChecksumPrefix(a: seq<byte>, b: seq<byte>, len: nat, init: nat)
    requires len <= |a| && len <= |b| && a[..len] == b[..len]
    ensures Checksum(a, len, init) == Checksum(b, len, init)
  {
    PairSumPrefix(a, b, len);
    if len % 2 == 1 {
      assert a[len - 1] == a[..len][len - 1] && b[len - 1] == b[..len][len - 1];
    }
  }

  /** A byte sequence of odd length sums as if padded with one zero byte,
      which is how RFC 1071 treats an odd count. */
  lemma {:induction false} OddBytePadded(data: seq<byte>, len: nat)
    requires len <= |data| && len % 2 == 1
    ensures SliceSum(data, len) == PairSum(data[..len] + [0], len + 1)
    decreases len
  {
    var p := data[..len] + [0];
    if len == 1 {
      assert p[2..] == [];
    } else {
      assert p[2..] == data[2..][..len - 2] + [0];
      OddBytePadded(data[2..], len - 2);
      assert data[2..][len - 2 - 1] == data[len - 1];
    }
  }

  /** Each pair of bytes adds at most 0xffff. */
  lemma {:induction false} PairSumBound(data: seq<byte>, len: nat)
    requires len <= |data|
    ensures PairSum(data, len) <= 0xffff * (len / 2)
    decreases len
  {
    if len >= 2 {
      PairSumBound(data[2..], len - 2);
      assert len / 2 == (len - 2) / 2 + 1;
    }
  }

  lemma SliceSumBound(data: seq<byte>, len: nat)
    requires len <= |data|
    ensures SliceSum(data, len) <= 0xffff * ((len + 1) / 2)
  {
    PairSumBound(data, len);
    if len % 2 == 1 {
      assert (len + 1) / 2 == len / 2 + 1;
    } else {
      assert (len + 1) / 2 == len / 2;
    }
  }

  /** With a seed below 2^16 and at most 65535 bytes the `u32` sum of
      `cksum16` cannot overflow. */
  lemma NoOverflow(data: seq<byte>, len: nat, init: nat)
    requires len <= |data| && len <= 0xffff && init <= 0xffff
    ensures init + SliceSum(data, len) <= U32_MAX
  {
    SliceSumBound(data, len);
    assert (len + 1) / 2 <= 0x8000;
  }

  /** Replacing the word at even offset `k` changes the pair sum by the
      difference of the two words. */
  lemma {:induction false} PairSumUpdate(data: seq<byte>, len: nat, k: nat, hi: byte, lo: byte)
    requires len <= |data| && k % 2 == 0 && k + 1 < len
    ensures PairSum(data[k := hi][k + 1 := lo], len)
         == PairSum(data, len) - Word(data[k], data[k + 1]) + Word(hi, lo)
    decreases len
  {
    var d := data[k := hi][k + 1 := lo];
    if k == 0 {
      assert d[2..] == data[2..];
    } else {
      assert d[2..] == data[2..][k - 2 := hi][k - 1 := lo];
      PairSumUpdate(data[2..], len - 2, k - 2, hi, lo);
    }
  }

  /** The receiver's check: once the checksum is written big-endian into a
      zeroed word at an even offset, recomputing it with the same seed
      gives zero. */
  lemma ChecksumVerifies(data: seq<byte>, len: nat, init: nat, k: nat)
    requires len <= |data| && k % 2 == 0 && k + 1 < len
    requires data[k] == 0 && data[k + 1] == 0
    ensures var c := Checksum(data, len, init);
            Checksum(data[k := c / 0x100][k + 1 := c % 0x100], len, init) == 0
  {
    var c := Checksum(data, len, init);
    var d := data[k := c / 0x100][k + 1 := c % 0x100];
    PairSumUpdate(data, len, k, c / 0x100, c % 0x100);
    assert Word(c / 0x100, c % 0x100) == c;
    if len % 2 == 1 {
      assert k + 1 != len - 1;
      assert d[len - 1] == data[len - 1];
    }
    assert SliceSum(d, len) == SliceSum(data, len) + c;
    var s := init + SliceSum(data, len);
    var f := Fold(s);
    assert c == 0xffff - f;
    var s' := s + c;
    assert s' > 0;
    assert (s - f) % 0xffff == 0 by {
      assert s % 0xffff == f % 0xffff;
      DiffMod(s, f);
    }
    assert s' == (s - f) + 0xffff;
    ModShift(s - f);
    assert s' % 0xffff == 0;
    var g := Fold(s');
    assert 0 < g < 0x1_0000 && g % 0xffff == 0;
    assert g == 0xffff;
  }

  lemma DiffMod(a: int, b: int)
    requires a % 0xffff == b % 0xffff
    ensures (a - b) % 0xffff == 0
  {
    var qa, qb := a / 0xffff, b / 0xffff;
    assert a == qa * 0xffff + a % 0xffff;
    assert b == qb * 0xffff + b % 0xffff;
    assert a - b == (qa - qb) * 0xffff;
  }

  lemma ModShift(x: int)
    requires x % 0xffff == 0
    ensures (x + 0xffff) % 0xffff == 0
  {
    var q := x / 0xffff;
    assert x == q * 0xffff;
    assert x + 0xffff == (q + 1) * 0xffff;
  }
}
