/** UDP of src/protocols/ip/udp.rs (RFC 768): the PCB list with its
    open-PCB lookup, the checksum test of `input` and the datagram `output`
    builds. The checksum covers a 12-byte pseudo header (source,
    destination, zero, protocol 17, length) followed by the datagram; both
    are summed with the slice version of `cksum16`. */
module Udp {
  import opened Common
  import opened Bytes
  import opened InetChecksum
  import opened Ip

  const UDP_PCB_COUNT: nat := 16
  const UDP_HDR_SIZE: nat := 8
  const PSEUDO_HDR_SIZE: nat := 12

  datatype UdpPcbState = Free | Open | Closing

  datatype UdpDataEntry = UdpDataEntry(remote: Endpoint, len: nat, data: seq<byte>)

  datatype UdpPcb = UdpPcb(state: UdpPcbState, local: Endpoint, dataEntries: seq<UdpDataEntry>)

  /** The condition of `select_open_pcb`: an open PCB on `hostPort` whose
      address, or the host's, is the wildcard, or which is bound to
      `hostAddr`. */
  predicate Matches(pcb: UdpPcb, hostAddr: u32, hostPort: u16) {
    pcb.state == Open
    && (pcb.local.address == IP_ADDR_ANY || hostAddr == IP_ADDR_ANY || pcb.local.address == hostAddr)
    && pcb.local.port == hostPort
  }

  class UdpPcbs {
    var entries: seq<UdpPcb>

    constructor ()
      ensures entries == []
    {
      entries := [];
    }

    /** `add_pcb`: appends an open PCB with an empty queue. */
    method AddPcb(local: Endpoint)
      modifies this
      ensures entries == old(entries) + [UdpPcb(Open, local, [])]
    {
      entries := entries + [UdpPcb(Open, local, [])];
    }

    /** `delete_pcb` has an empty body. */
    method DeletePcb(local: Endpoint)
      ensures entries == old(entries)
    {
    }

    /** `select_open_pcb`: the index of the first matching PCB (the source
        returns a reference to it). */
    method SelectOpenPcb(hostAddr: u32, hostPort: u16) returns (r: Option<nat>)
      ensures r.Some? ==> r.value < |entries| && Matches(entries[r.value], hostAddr, hostPort)
                          && forall j :: 0 <= j < r.value ==> !Matches(entries[j], hostAddr, hostPort)
      ensures r.None? ==> forall j :: 0 <= j < |entries| ==> !Matches(entries[j], hostAddr, hostPort)
    {
      var i := 0;
      while i < |entries|
        invariant 0 <= i <= |entries|
        invariant forall j :: 0 <= j < i ==> !Matches(entries[j], hostAddr, hostPort)
      {
        var pcb := entries[i];
        if pcb.state == Open {
          if (pcb.local.address == IP_ADDR_ANY || hostAddr == IP_ADDR_ANY || pcb.local.address == hostAddr)
             && pcb.local.port == hostPort
          {
            return Some(i);
          }
        }
        i := i + 1;
      }
      return None;
    }
  }

  /** The memory of the pseudo header; its length field holds
      `le_to_be_u16(len)`, so it lies in network order. */
  function PseudoHeader(target: Endian, src: u32, dst: u32, len: u16): (p: seq<byte>)
    ensures |p| == PSEUDO_HDR_SIZE
    ensures p[8] == 0 && p[9] == ProtocolNumber(UDP) && p[10..12] == BigEndian16(len)
  {
    StoreLeToBe16(target, len);
    Store32(target, src) + Store32(target, dst) + [0, ProtocolNumber(UDP)] + Store16(target, LeToBe16(target, len))
  }

  /** The seed `!pseudo_sum as u32` both directions pass to `cksum16`. */
  function PseudoSeed(target: Endian, src: u32, dst: u32, len: u16): (s: u16)
  {
    0xffff - Checksum(PseudoHeader(target, src, dst, len), PSEUDO_HDR_SIZE, 0)
  }

  /** The checksum test of `input` for a datagram of `len` bytes; the
      length in the pseudo header is `len as u16`. Reading past the end of
      `data`, and a `u32` sum that overflows, panic. */
  function Input(target: Endian, data: seq<byte>, len: nat, src: u32, dst: u32): (r: Result<()>)
    ensures r.Panic? <==> len > |data| || PseudoSeed(target, src, dst, len % 0x1_0000) + SliceSum(data, len) > U32_MAX
    ensures r == Err <==> len <= |data| && PseudoSeed(target, src, dst, len % 0x1_0000) + SliceSum(data, len) <= U32_MAX
                          && Checksum(data, len, PseudoSeed(target, src, dst, len % 0x1_0000)) != 0
    ensures len <= 0xffff && len <= |data| ==> !r.Panic?
  {
    if len > |data| then Panic("index out of bounds")
    else
      var seed := PseudoSeed(target, src, dst, len % 0x1_0000);
      assert len <= 0xffff ==> seed + SliceSum(data, len) <= U32_MAX by {
        if len <= 0xffff {
          NoOverflow(data, len, seed);
        }
      }
      if seed + SliceSum(data, len) > U32_MAX then Panic("attempt to add with overflow")
      else if Checksum(data, len, seed) != 0 then Err
      else Ok(())
  }

  /** The header `output` builds, before the checksum: the ports are
      stored as they are, the length with `le_to_be_u16`. */
  function HeaderMemory(target: Endian, src: Endpoint, dst: Endpoint, total: u16): (h: seq<byte>)
    ensures |h| == UDP_HDR_SIZE && h[4..6] == BigEndian16(total) && h[6] == 0 && h[7] == 0
    ensures h[0..2] == Store16(target, src.port) && h[2..4] == Store16(target, dst.port)
  {
    StoreLeToBe16(target, total);
    Store16(target, src.port) + Store16(target, dst.port) + Store16(target, LeToBe16(target, total)) + [0, 0]
  }

  /** The datagram `output` sends: header and data, with the checksum of
      the first `8 + len` bytes written most significant byte first at
      offset 6. */
  function Datagram(target: Endian, src: Endpoint, dst: Endpoint, udpData: seq<byte>, len: nat): (d: seq<byte>)
    requires len <= |udpData|
    ensures |d| == UDP_HDR_SIZE + |udpData| && d[UDP_HDR_SIZE..] == udpData
    ensures d[4..6] == BigEndian16((UDP_HDR_SIZE + len) % 0x1_0000)
  {
    var total := (UDP_HDR_SIZE + len) % 0x1_0000;
    var zeroed: seq<byte> := HeaderMemory(target, src, dst, total) + udpData;
    var c := Checksum(zeroed, UDP_HDR_SIZE + len, PseudoSeed(target, src.address, dst.address, total));
    var hi: byte, lo: byte := c / 0x100, c % 0x100;
    zeroed[6 := hi][7 := lo]
  }

  /** `output` with the payload-size limit `payloadMax` (the constant
      `IP_PAYLOAD_MAX_SIZE`, at most the 65535 bytes an IPv4 total length
      can express): too long a payload panics, and so does a `len` beyond
      the data given, when the checksum reads past its end. */
  method Output(target: Endian, payloadMax: nat, src: Endpoint, dst: Endpoint, udpData: seq<byte>, len: nat)
    returns (r: Result<IpSend>)
    requires UDP_HDR_SIZE <= payloadMax <= 0xffff
    ensures len > payloadMax - UDP_HDR_SIZE ==> r.Panic?
    ensures len <= payloadMax - UDP_HDR_SIZE && len > |udpData| ==> r.Panic?
    ensures len <= payloadMax - UDP_HDR_SIZE && len <= |udpData| ==>
              r == Ok(IpSend(UDP, Datagram(target, src, dst, udpData, len), src.address, dst.address))
  {
    if len > payloadMax - UDP_HDR_SIZE {
      return Panic("UDP output error: data too big");
    }
    var totalLen: u16 := UDP_HDR_SIZE + len;
    SmallMod(totalLen);
    var pseudo := PseudoHeader(target, src.address, dst.address, totalLen);
    NoOverflow(pseudo, PSEUDO_HDR_SIZE, 0);
    var pseudoSum := Cksum16(pseudo, PSEUDO_HDR_SIZE, 0);
    var data := HeaderMemory(target, src, dst, totalLen) + udpData;
    if totalLen as nat > |data| {
      return Panic("index out of bounds");
    }
    var seed: u16 := 0xffff - pseudoSum;
    assert seed == PseudoSeed(target, src.address, dst.address, totalLen);
    NoOverflow(data, totalLen as nat, seed);
    var sum := Cksum16(data, totalLen as nat, seed);
    data := data[6 := sum / 0x100];
    data := data[7 := sum % 0x100];
    assert data == Datagram(target, src, dst, udpData, len);
    r := Ok(IpSend(UDP, data, src.address, dst.address));
  }

  /** The checksum written into the zeroed field at offset 6 makes the
      sum with the same seed zero, without overflowing a `u32`. */
  lemma ChecksumFieldVerifies(zeroed: seq<byte>, total: nat, seed: u16)
    requires UDP_HDR_SIZE <= total <= |zeroed| && total <= 0xffff && zeroed[6] == 0 && zeroed[7] == 0
    ensures var c := Checksum(zeroed, total, seed);
            var hi: byte, lo: byte := c / 0x100, c % 0x100;
            seed + SliceSum(zeroed[6 := hi][7 := lo], total) <= U32_MAX
            && Checksum(zeroed[6 := hi][7 := lo], total, seed) == 0
  {
    var c := Checksum(zeroed, total, seed);
    ChecksumVerifies(zeroed, total, seed, 6);
    var hi: byte, lo: byte := c / 0x100, c % 0x100;
    NoOverflow(zeroed[6 := hi][7 := lo], total, seed);
  }

  /** `input` accepts what `output` sends: the receiver's pseudo header
      carries the same length, and the checksum field completes the sum. */
  lemma InputAcceptsOutput(target: Endian, src: Endpoint, dst: Endpoint, udpData: seq<byte>, len: nat)
    requires len <= |udpData| && UDP_HDR_SIZE + len <= 0xffff
    ensures Input(target, Datagram(target, src, dst, udpData, len), UDP_HDR_SIZE + len,
                  src.address, dst.address) == Ok(())
  {
    var total := UDP_HDR_SIZE + len;
    var seed := PseudoSeed(target, src.address, dst.address, total);
    var zeroed: seq<byte> := HeaderMemory(target, src, dst, total) + udpData;
    ChecksumFieldVerifies(zeroed, total, seed);
    var c := Checksum(zeroed, total, seed);
    var hi: byte, lo: byte := c / 0x100, c % 0x100;
    var d := Datagram(target, src, dst, udpData, len);
    SmallMod(total);
    var updated: seq<byte> := zeroed[6 := hi];
    updated := updated[7 := lo];
    assert d == updated;
    assert Checksum(d, total, seed) == 0;
    assert PseudoSeed(target, src.address, dst.address, total % 0x1_0000) == seed;
  }

  lemma SmallMod(x: nat)
    requires x < 0x1_0000
    ensures x % 0x1_0000 == x
  {
  }
}
