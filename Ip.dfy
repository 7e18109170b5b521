/** IPv4 header construction and the header id counter of
    src/protocols/ip/mod.rs (RFC 791 section 3.1), together with the IP
    types the transport protocols share. `ip_output` builds a header and
    does nothing further with it; the model returns the header's memory. */
module Ip {
  import opened Common
  import opened Bytes
  import opened InetChecksum
  import opened Util

  const IP_ADDR_LEN: nat := 4
  const IP_VERSION_4: nat := 4
  /** `size_of::<IPHeader>()`: the packed header with no options. */
  const IP_HDR_SIZE: nat := 20
  /** The wildcard address. */
  const IP_ADDR_ANY: u32 := 0
  /** `size_of_val(&data)` for `data: &[u8]` measures the slice reference
      itself: a pointer and a length on a 64-bit target. */
  const SLICE_REF_SIZE: nat := 16

  datatype IPProtocolType = ICMP | TCP | UDP

  function ProtocolNumber(p: IPProtocolType): byte {
    match p
    case ICMP => 0x01
    case TCP => 0x06
    case UDP => 0x11
  }

  datatype Endpoint = Endpoint(address: u32, port: u16)

  /** A message handed to `super::output`, the IP output of the transport
      protocols, with its source and destination arguments. */
  datatype IpSend = IpSend(protocol: IPProtocolType, data: seq<byte>, src: u32, dst: u32)

  /** The addresses of an `IPInterface`. */
  datatype Interface = Interface(unicast: u32, netmask: u32, broadcast: u32)

  class IdGenerator {
    var id: u16

    constructor ()
      ensures id == 128
    {
      id := 128;
    }

    /** `generate_id`: increments the counter and returns it; `*id += 1`
        overflows at 0xffff, which panics. */
    method GenerateId() returns (r: Result<u16>)
      modifies this
      ensures old(id) < 0xffff ==> id == old(id) + 1 && r == Ok(id)
      ensures old(id) == 0xffff ==> r.Panic? && id == old(id)
    {
      if id == 0xffff {
        return Panic("attempt to add with overflow");
      }
      id := id + 1;
      r := Ok(id);
    }
  }

  /** The memory of a packed `IPHeader` on `target`. Fields the source
      stores with `le_to_be_u16` are given here by their values. */
  function HeaderMemory(target: Endian, verLen: byte, total: u16, id: u16, protocol: byte,
                        check: u16, src: u32, dst: u32): (m: seq<byte>)
    ensures |m| == IP_HDR_SIZE
    ensures m[0] == verLen && m[1] == 0 && m[2..4] == BigEndian16(total) && m[4..6] == BigEndian16(id)
    ensures m[6..8] == [0, 0] && m[8] == 0xff && m[9] == protocol && m[10..12] == Store16(target, check)
    ensures m[12..16] == Store32(target, src) && m[16..20] == Store32(target, dst)
  {
    StoreLeToBe16(target, total);
    StoreLeToBe16(target, id);
    [verLen, 0] + Store16(target, LeToBe16(target, total)) + Store16(target, LeToBe16(target, id))
      + [0, 0] + [0xff, protocol] + Store16(target, check) + Store32(target, src) + Store32(target, dst)
  }

  /** `(IP_VERSION_4 << 4) | (hlen as u8 >> 2)`; the two parts do not
      overlap, so the or is a sum. */
  function VerLen(hlen: nat): (v: byte)
    requires hlen < 64
    ensures hlen == IP_HDR_SIZE ==> v == 0x45
    ensures v / 16 == IP_VERSION_4 && (v % 16) * 4 == hlen - hlen % 4
  {
    IP_VERSION_4 * 16 + hlen / 4
  }

  lemma StructSumBound(mem: seq<byte>)
    requires |mem| == IP_HDR_SIZE
    ensures StructSum(mem, IP_HDR_SIZE) <= U32_MAX
  {
    PairSumBound(mem, IP_HDR_SIZE);
  }

  /** The header `ip_output` builds for a total length `total`: id 129
      from a fresh generator, tos 0, offset 0, ttl 0xff, protocol ICMP
      whatever `ip_proto` is, and the struct checksum of the header with a
      zero checksum field, stored natively. */
  method BuildHeader(target: Endian, total: u16, src: u32, dst: u32) returns (hdr: Result<seq<byte>>)
    ensures hdr.Ok? && |hdr.value| == IP_HDR_SIZE
    ensures var zeroed := HeaderMemory(target, 0x45, total, 129, 1, 0, src, dst);
            hdr.value == HeaderMemory(target, 0x45, total, 129, 1,
                                      StructChecksum(zeroed, IP_HDR_SIZE, 0), src, dst)
  {
    var idManager := new IdGenerator();
    var id := idManager.GenerateId();
    var zeroed := HeaderMemory(target, VerLen(IP_HDR_SIZE), total, id.value,
                               ProtocolNumber(ICMP), 0, src, dst);
    StructSumBound(zeroed);
    var check := StructCksum16(zeroed, IP_HDR_SIZE, 0);
    hdr := Ok(HeaderMemory(target, VerLen(IP_HDR_SIZE), total, id.value, ProtocolNumber(ICMP),
                           check, src, dst));
  }

  /** `ip_output` as written: the total length is 20 plus the size of the
      slice reference, so it is 36 for every payload. */
  method OutputAsWritten(target: Endian, ipProto: IPProtocolType, data: seq<byte>, src: u32, dst: u32)
    returns (hdr: Result<seq<byte>>)
    ensures hdr.Ok? && |hdr.value| == IP_HDR_SIZE && hdr.value[2..4] == BigEndian16(36)
  {
    var len := SLICE_REF_SIZE;
    hdr := BuildHeader(target, (IP_HDR_SIZE + len) as u16, src, dst);
  }

  /** The fields of a built header as they are read off the wire. */
  lemma WireFields(target: Endian, total: u16, check: u16, src: u32, dst: u32)
    ensures var m := HeaderMemory(target, 0x45, total, 129, 1, check, src, dst);
            m[0] == 0x45 && m[1] == 0 && FromBigEndian16(m[2], m[3]) == total
            && FromBigEndian16(m[4], m[5]) == 129 && m[6] == 0 && m[7] == 0
            && m[8] == 0xff && m[9] == ProtocolNumber(ICMP)
  {
    var m := HeaderMemory(target, 0x45, total, 129, 1, check, src, dst);
    BigEndian16Value(total);
    BigEndian16Value(129);
    assert m[2..4][0] == m[2] && m[4..6][1] == m[5];
  }

  /** `ip_output` with the length of the payload: `len as u16` truncates
      and the `u16` addition panics when it overflows. */
  method Output(target: Endian, ipProto: IPProtocolType, data: seq<byte>, src: u32, dst: u32)
    returns (hdr: Result<seq<byte>>)
    ensures IP_HDR_SIZE + |data| % 0x1_0000 > 0xffff ==> hdr.Panic?
    ensures IP_HDR_SIZE + |data| % 0x1_0000 <= 0xffff ==>
              hdr.Ok? && |hdr.value| == IP_HDR_SIZE
              && FromBigEndian16(hdr.value[2], hdr.value[3]) == IP_HDR_SIZE + |data| % 0x1_0000
              && hdr.value[0] == 0x45 && hdr.value[1] == 0 && hdr.value[6] == 0 && hdr.value[7] == 0
              && hdr.value[8] == 0xff && hdr.value[9] == ProtocolNumber(ICMP)
              && FromBigEndian16(hdr.value[4], hdr.value[5]) == 129
  {
    var len := |data| % 0x1_0000;
    if IP_HDR_SIZE + len > 0xffff {
      return Panic("attempt to add with overflow");
    }
    var total := (IP_HDR_SIZE + len) as u16;
    hdr := BuildHeader(target, total, src, dst);
    WireFields(target, total, StructChecksum(HeaderMemory(target, 0x45, total, 129, 1, 0, src, dst), IP_HDR_SIZE, 0), src, dst);
  }

  /** The header of `test_ip_header` (4 bytes of data, addresses
      192.0.0.1 and 54.0.2.121 in network order) checksums to 0xC2E9 on
      either target. */
  lemma TestIpHeader(target: Endian)
    ensures var src := Load32(target, 192, 0, 0, 1);
            var dst := Load32(target, 54, 0, 2, 121);
            StructChecksum(HeaderMemory(target, VerLen(IP_HDR_SIZE), IP_HDR_SIZE + 4, 129,
                                        ProtocolNumber(ICMP), 0, src, dst), IP_HDR_SIZE, 0) == 0xC2E9
  {
    var src := Load32(target, 192, 0, 0, 1);
    var dst := Load32(target, 54, 0, 2, 121);
    StoreLoad32(target, 192, 0, 0, 1);
    StoreLoad32(target, 54, 0, 2, 121);
    TestHeaderTotal(target, VerLen(IP_HDR_SIZE), IP_HDR_SIZE + 4, 129, ProtocolNumber(ICMP), 0, src, dst);
  }

  lemma TestHeaderTotal(target: Endian, verLen: byte, total: u16, id: u16, protocol: byte,
                        check: u16, src: u32, dst: u32)
    requires verLen == 0x45 && total == 24 && id == 129 && protocol == 1 && check == 0
    requires Store32(target, src) == [192, 0, 0, 1] && Store32(target, dst) == [54, 0, 2, 121]
    ensures StructChecksum(HeaderMemory(target, verLen, total, id, protocol, check, src, dst),
                           IP_HDR_SIZE, 0) == 0xC2E9
  {
    assert Store16(target, check) == [0, 0];
    HeaderSum(target, verLen, total, id, protocol, check, src, dst);
    assert Fold(0x2_3D14) == 0x3D16;
  }

  /** The word sum of six two-byte pieces. */
  lemma HeadSum(p1: seq<byte>, p2: seq<byte>, p3: seq<byte>, p4: seq<byte>, p5: seq<byte>, p6: seq<byte>)
    requires |p1| == 2 && |p2| == 2 && |p3| == 2 && |p4| == 2 && |p5| == 2 && |p6| == 2
    ensures var h: seq<byte> := p1 + p2 + p3 + p4 + p5 + p6;
            var w: nat := Word(p1[0], p1[1]) + Word(p2[0], p2[1]) + Word(p3[0], p3[1])
              + Word(p4[0], p4[1]) + Word(p5[0], p5[1]) + Word(p6[0], p6[1]);
            PairSum(h, 12) == w
  {
    PairSumConcat(p1, p2, 2);
    PairSumConcat(p1 + p2, p3, 2);
    PairSumConcat(p1 + p2 + p3, p4, 2);
    PairSumConcat(p1 + p2 + p3 + p4, p5, 2);
    PairSumConcat(p1 + p2 + p3 + p4 + p5, p6, 2);
  }

  /** The struct sum of a header: its ten words, the length and the id
      by their values. */
  lemma HeaderSum(target: Endian, verLen: byte, total: u16, id: u16, protocol: byte,
                  check: u16, src: u32, dst: u32)
    ensures var c, s, d := Store16(target, check), Store32(target, src), Store32(target, dst);
            StructSum(HeaderMemory(target, verLen, total, id, protocol, check, src, dst), IP_HDR_SIZE)
            == Word(verLen, 0) + total + id + Word(0xff, protocol) + Word(c[0], c[1])
               + Word(s[0], s[1]) + Word(s[2], s[3]) + Word(d[0], d[1]) + Word(d[2], d[3])
  {
    StoreLeToBe16(target, total);
    StoreLeToBe16(target, id);
    BigEndian16Value(total);
    BigEndian16Value(id);
    var p1: seq<byte> := [verLen, 0];
    var p2 := Store16(target, LeToBe16(target, total));
    var p3 := Store16(target, LeToBe16(target, id));
    var p4: seq<byte> := [0, 0];
    var p5: seq<byte> := [0xff, protocol];
    var p6 := Store16(target, check);
    var p7 := Store32(target, src);
    var p8 := Store32(target, dst);
    var h := p1 + p2 + p3 + p4 + p5 + p6;
    assert HeaderMemory(target, verLen, total, id, protocol, check, src, dst) == h + p7 + p8;
    HeadSum(p1, p2, p3, p4, p5, p6);
    PairSumConcat(h, p7, 4);
    PairSumConcat(h + p7, p8, 4);
    assert PairSum(p7, 4) == Word(p7[0], p7[1]) + Word(p7[2], p7[3]);
    assert PairSum(p8, 4) == Word(p8[0], p8[1]) + Word(p8[2], p8[3]);
  }
}
