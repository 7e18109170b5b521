/** The TCP wire format of src/protocols/ip/tcp.rs: the header that
    `output_segment` lays out in memory with its checksum over the pseudo
    header, and the parsing and checks of `input` before a segment reaches
    `segment_arrives`. Header fields are stored with `le_to_be_*` and read
    with `be_to_le_*`, so the wire holds them in network order on either
    target; ports are copied as they lie in memory. */
module TcpSegment {
  import opened Common
  import opened Bytes
  import opened InetChecksum
  import Ip
  import opened Tcp

  const TCP_PSEUDO_HDR_SIZE: nat := 12
  /** `((20 >> 2) << 4)`: a data offset of five 32-bit words. */
  const TCP_HDR_OFFSET: byte := 0x50

  /** The memory of the TCP `PseudoHeader`; its length field holds
      `le_to_be_u16(len)`, so it lies in network order. */
  function PseudoHeader(target: Endian, src: u32, dst: u32, len: u16): (p: seq<byte>)
    ensures |p| == TCP_PSEUDO_HDR_SIZE
    ensures p[8] == 0 && p[9] == Ip.ProtocolNumber(Ip.TCP) && p[10..12] == BigEndian16(len)
  {
    StoreLeToBe16(target, len);
    Store32(target, src) + Store32(target, dst) + [0, Ip.ProtocolNumber(Ip.TCP)] + Store16(target, LeToBe16(target, len))
  }

  /** The seed `!pseudo_sum` both directions pass to `cksum16`. */
  function PseudoSeed(target: Endian, src: u32, dst: u32, len: u16): u16 {
    0xffff - Checksum(PseudoHeader(target, src, dst, len), TCP_PSEUDO_HDR_SIZE, 0)
  }

  /** The memory of the `TcpHeader` that `output_segment` builds, with the
      checksum and urgent pointer still zero. */
  function HeaderMemory(target: Endian, s: Segment): (h: seq<byte>)
    ensures |h| == TCP_HDR_SIZE
    ensures h[0..2] == Store16(target, s.local.port) && h[2..4] == Store16(target, s.remote.port)
    ensures h[4..8] == BigEndian32(s.seqNum) && h[8..12] == BigEndian32(s.ackNum)
    ensures h[12] == TCP_HDR_OFFSET && h[13] == s.flags as byte
    ensures h[14..16] == BigEndian16(s.window) && h[16..20] == [0, 0, 0, 0]
  {
    StoreLeToBe32(target, s.seqNum);
    StoreLeToBe32(target, s.ackNum);
    StoreLeToBe16(target, s.window);
    Store16(target, s.local.port) + Store16(target, s.remote.port)
    + Store32(target, LeToBe32(target, s.seqNum)) + Store32(target, LeToBe32(target, s.ackNum))
    + [TCP_HDR_OFFSET, s.flags as byte] + Store16(target, LeToBe16(target, s.window)) + [0, 0, 0, 0]
  }

  /** The bytes `output_segment` hands to the IP layer: header and data,
      with the checksum of all of them written most significant byte
      first at offset 16. */
  function Wire(target: Endian, s: Segment): (w: seq<byte>)
    requires TCP_HDR_SIZE + |s.data| <= 0xffff
    ensures |w| == TCP_HDR_SIZE + |s.data| && w[TCP_HDR_SIZE..] == s.data
    ensures w[..16] == HeaderMemory(target, s)[..16] && w[18..20] == [0, 0]
  {
    var total := TCP_HDR_SIZE + |s.data|;
    var zeroed := HeaderMemory(target, s) + s.data;
    var c := Checksum(zeroed, total, PseudoSeed(target, s.local.address, s.remote.address, total));
    var hi: byte, lo: byte := c / 0x100, c % 0x100;
    zeroed[16 := hi][17 := lo]
  }

  /** What `input` hands to `segment_arrives`. */
  datatype Received = Received(seg: SegmentInfo, flags: bv8, data: seq<byte>, len: nat,
                               local: Ip.Endpoint, remote: Ip.Endpoint)

  /** Neither the wildcard address nor the interface's broadcast address. */
  predicate Unicast(a: u32, iface: Ip.Interface) {
    a != Ip.IP_ADDR_ANY && a != iface.broadcast
  }

  /** The checks of `input` on `len` bytes of `data` from `src` to `dst`:
      too short a segment panics, so does a length beyond the data, when
      the checksum reads past its end, an overflowing `u32` sum, a
      wildcard or broadcast address, and a data offset beyond the
      length; a wrong checksum is an error. The header is read from the
      first twenty bytes of `data` whatever `len` is. */
  function Parse(target: Endian, data: seq<byte>, len: nat, src: u32, dst: u32, iface: Ip.Interface): (r: Result<Received>)
    requires |data| >= TCP_HDR_SIZE
    ensures r.Panic? <==>
              len < TCP_HDR_SIZE || len > |data|
              || PseudoSeed(target, src, dst, len % 0x1_0000) + SliceSum(data, len) > U32_MAX
              || (Checksum(data, len, PseudoSeed(target, src, dst, len % 0x1_0000)) == 0
                  && (!Unicast(src, iface) || !Unicast(dst, iface) || HeaderLen(data[12]) > len))
    ensures r == Err <==>
              TCP_HDR_SIZE <= len <= |data|
              && PseudoSeed(target, src, dst, len % 0x1_0000) + SliceSum(data, len) <= U32_MAX
              && Checksum(data, len, PseudoSeed(target, src, dst, len % 0x1_0000)) != 0
    ensures r.Ok? ==>
              r.value.seg.seqNum == FromBigEndian32(data[4], data[5], data[6], data[7])
              && r.value.seg.ackNum == FromBigEndian32(data[8], data[9], data[10], data[11])
              && r.value.seg.window == FromBigEndian16(data[14], data[15])
              && r.value.flags == data[13] as bv8
              && r.value.data == data[TCP_HDR_SIZE..] && r.value.len == len - HeaderLen(data[12])
              && r.value.local.address == dst && r.value.remote.address == src
  {
    if len < TCP_HDR_SIZE then Panic("TCP input: too short data.")
    else
      var c := Verified(target, data, len, src, dst);
      if c.Panic? then Panic(c.reason)
      else if c.Err? then Err
      else if !Unicast(src, iface) || !Unicast(dst, iface) then Panic("TCP input: only unicast is supported.")
      else Decoded(target, data, len, src, dst)
  }

  /** The checksum test of `input` over the pseudo header and the first
      `len` bytes of `data`: reading past the data or overflowing the
      `u32` sum panics, a sum other than zero is an error. */
  function Verified(target: Endian, data: seq<byte>, len: nat, src: u32, dst: u32): (r: Result<()>)
    ensures r.Panic? <==> len > |data| || PseudoSeed(target, src, dst, len % 0x1_0000) + SliceSum(data, len) > U32_MAX
    ensures r == Err <==>
              len <= |data| && PseudoSeed(target, src, dst, len % 0x1_0000) + SliceSum(data, len) <= U32_MAX
              && Checksum(data, len, PseudoSeed(target, src, dst, len % 0x1_0000)) != 0
  {
    if len > |data| then Panic("index out of bounds")
    else
      var seed := PseudoSeed(target, src, dst, len % 0x1_0000);
      if seed + SliceSum(data, len) > U32_MAX then Panic("attempt to add with overflow")
      else if Checksum(data, len, seed) != 0 then Err
      else Ok(())
  }

  /** The header fields of a segment that passed the checksum and address
      checks; a data offset beyond the length panics. */
  function Decoded(target: Endian, data: seq<byte>, len: nat, src: u32, dst: u32): (r: Result<Received>)
    requires TCP_HDR_SIZE <= |data| && TCP_HDR_SIZE <= len
    ensures r.Ok? || r.Panic?
    ensures r.Panic? <==> HeaderLen(data[12]) > len
    ensures r.Ok? ==>
              r.value.seg.seqNum == FromBigEndian32(data[4], data[5], data[6], data[7])
              && r.value.seg.ackNum == FromBigEndian32(data[8], data[9], data[10], data[11])
              && r.value.seg.window == FromBigEndian16(data[14], data[15])
              && r.value.flags == data[13] as bv8
              && r.value.data == data[TCP_HDR_SIZE..] && r.value.len == len - HeaderLen(data[12])
              && r.value.local.address == dst && r.value.remote.address == src
  {
    var flags := data[13] as bv8;
    var segLen := SegLen(len, data[12], flags);
    if segLen.Panic? then Panic(segLen.reason)
    else
      LoadBeToLe32(target, data[4], data[5], data[6], data[7]);
      LoadBeToLe32(target, data[8], data[9], data[10], data[11]);
      LoadBeToLe16(target, data[14], data[15]);
      var seg := SegmentInfo(BeToLe32(target, Load32(target, data[4], data[5], data[6], data[7])),
                             BeToLe32(target, Load32(target, data[8], data[9], data[10], data[11])),
                             segLen.value,
                             BeToLe16(target, Load16(target, data[14], data[15])),
                             BeToLe16(target, Load16(target, data[18], data[19])));
      Ok(Received(seg, flags, data[TCP_HDR_SIZE..], len - HeaderLen(data[12]),
                  Ip.Endpoint(dst, Load16(target, data[2], data[3])),
                  Ip.Endpoint(src, Load16(target, data[0], data[1]))))
  }

  /** The segment length the receiver computes for `s`: its data, plus
      one for SYN and one for FIN. */
  function SegLenOf(s: Segment): u16 {
    (|s.data| + (if FlagExists(s.flags, SYN) then 1 else 0) + (if FlagExists(s.flags, FIN) then 1 else 0)) % 0x1_0000
  }

  /** The checksum written by `output_segment` makes the receiver's sum
      zero, without overflowing a `u32`. */
  lemma WireChecksum(target: Endian, s: Segment)
    requires TCP_HDR_SIZE + |s.data| <= 0xffff
    ensures var total := TCP_HDR_SIZE + |s.data|;
            var seed := PseudoSeed(target, s.local.address, s.remote.address, total);
            seed + SliceSum(Wire(target, s), total) <= U32_MAX && Checksum(Wire(target, s), total, seed) == 0
  {
    var total := TCP_HDR_SIZE + |s.data|;
    var zeroed := HeaderMemory(target, s) + s.data;
    var seed := PseudoSeed(target, s.local.address, s.remote.address, total);
    ChecksumVerifies(zeroed, total, seed, 16);
    NoOverflow(Wire(target, s), total, seed);
  }

  /** The header fields `input` reads back from the bytes of `Wire`. */
  lemma WireFields(target: Endian, s: Segment)
    requires TCP_HDR_SIZE + |s.data| <= 0xffff
    ensures var w := Wire(target, s);
            BeToLe32(target, Load32(target, w[4], w[5], w[6], w[7])) == s.seqNum
            && BeToLe32(target, Load32(target, w[8], w[9], w[10], w[11])) == s.ackNum
            && BeToLe16(target, Load16(target, w[14], w[15])) == s.window
            && BeToLe16(target, Load16(target, w[18], w[19])) == 0
            && Load16(target, w[0], w[1]) == s.local.port && Load16(target, w[2], w[3]) == s.remote.port
            && w[12] == TCP_HDR_OFFSET && w[13] as bv8 == s.flags
  {
    var h, w := HeaderMemory(target, s), Wire(target, s);
    HeaderFields(target, s, h);
    assert forall k :: 0 <= k < 16 ==> w[k] == h[k];
    assert w[18] == w[18..20][0] && w[19] == w[18..20][1];
    LoadBeToLe16(target, 0, 0);
  }

  /** The same read from header bytes `h` that hold the fields where
      `HeaderMemory` puts them. */
  lemma HeaderFields(target: Endian, s: Segment, h: seq<byte>)
    requires |h| == TCP_HDR_SIZE
    requires h[0..2] == Store16(target, s.local.port) && h[2..4] == Store16(target, s.remote.port)
    requires h[4..8] == BigEndian32(s.seqNum) && h[8..12] == BigEndian32(s.ackNum)
    requires h[13] == s.flags as byte && h[14..16] == BigEndian16(s.window)
    ensures BeToLe32(target, Load32(target, h[4], h[5], h[6], h[7])) == s.seqNum
            && BeToLe32(target, Load32(target, h[8], h[9], h[10], h[11])) == s.ackNum
            && BeToLe16(target, Load16(target, h[14], h[15])) == s.window
            && Load16(target, h[0], h[1]) == s.local.port && Load16(target, h[2], h[3]) == s.remote.port
            && h[13] as bv8 == s.flags
  {
    ReadBack32At(target, s.seqNum, h, 4);
    ReadBack32At(target, s.ackNum, h, 8);
    ReadBack16At(target, s.window, h, 14);
    ReadNative16At(target, s.local.port, h, 0);
    ReadNative16At(target, s.remote.port, h, 2);
    assert (s.flags as byte) as bv8 == s.flags;
  }

  /** A big-endian field at offset `k`, loaded natively and converted,
      gives its value. */
  lemma ReadBack32At(target: Endian, v: u32, h: seq<byte>, k: nat)
    requires k + 4 <= |h| && h[k..k + 4] == BigEndian32(v)
    ensures BeToLe32(target, Load32(target, h[k], h[k + 1], h[k + 2], h[k + 3])) == v
  {
    var b := h[k..k + 4];
    assert b[0] == h[k] && b[1] == h[k + 1] && b[2] == h[k + 2] && b[3] == h[k + 3];
    assert [b[0], b[1], b[2], b[3]] == b;
    ReadBack32(target, v, b[0], b[1], b[2], b[3]);
  }

  lemma ReadBack16At(target: Endian, v: u16, h: seq<byte>, k: nat)
    requires k + 2 <= |h| && h[k..k + 2] == BigEndian16(v)
    ensures BeToLe16(target, Load16(target, h[k], h[k + 1])) == v
  {
    var b := h[k..k + 2];
    assert b[0] == h[k] && b[1] == h[k + 1];
    assert [b[0], b[1]] == b;
    ReadBack16(target, v, b[0], b[1]);
  }

  /** A field stored natively at offset `k` and loaded natively gives its
      value. */
  lemma ReadNative16At(target: Endian, v: u16, h: seq<byte>, k: nat)
    requires k + 2 <= |h| && h[k..k + 2] == Store16(target, v)
    ensures Load16(target, h[k], h[k + 1]) == v
  {
    var b := h[k..k + 2];
    assert b[0] == h[k] && b[1] == h[k + 1];
    assert [b[0], b[1]] == b;
    LoadStore16(target, v);
  }

  /** A big-endian field loaded natively and converted gives its value. */
  lemma ReadBack32(target: Endian, v: u32, b0: byte, b1: byte, b2: byte, b3: byte)
    requires [b0, b1, b2, b3] == BigEndian32(v)
    ensures BeToLe32(target, Load32(target, b0, b1, b2, b3)) == v
  {
    LoadBeToLe32(target, b0, b1, b2, b3);
    BigEndian32Value(v);
  }

  lemma ReadBack16(target: Endian, v: u16, b0: byte, b1: byte)
    requires [b0, b1] == BigEndian16(v)
    ensures BeToLe16(target, Load16(target, b0, b1)) == v
  {
    LoadBeToLe16(target, b0, b1);
    BigEndian16Value(v);
  }

  /** The fields `input` decodes from the bytes of `Wire`. */
  lemma DecodedWire(target: Endian, s: Segment)
    requires TCP_HDR_SIZE + |s.data| <= 0xffff
    ensures Decoded(target, Wire(target, s), TCP_HDR_SIZE + |s.data|, s.local.address, s.remote.address)
            == Ok(Received(SegmentInfo(s.seqNum, s.ackNum, SegLenOf(s), s.window, 0), s.flags, s.data, |s.data|,
                           s.remote, s.local))
  {
    WireFields(target, s);
    var w := Wire(target, s);
    assert HeaderLen(w[12]) == TCP_HDR_SIZE;
  }

  /** `input` accepts what `output_segment` sends between unicast
      addresses, and recovers every header field: the receiver's local
      endpoint is the sender's remote one and the reverse. */
  lemma ParseWire(target: Endian, s: Segment, iface: Ip.Interface)
    requires TCP_HDR_SIZE + |s.data| <= 0xffff
    requires Unicast(s.local.address, iface) && Unicast(s.remote.address, iface)
    ensures Parse(target, Wire(target, s), TCP_HDR_SIZE + |s.data|, s.local.address, s.remote.address, iface)
            == Ok(Received(SegmentInfo(s.seqNum, s.ackNum, SegLenOf(s), s.window, 0), s.flags, s.data, |s.data|,
                           s.remote, s.local))
  {
    var total := TCP_HDR_SIZE + |s.data|;
    assert total % 0x1_0000 == total;
    WireChecksum(target, s);
    DecodedWire(target, s);
  }
}
