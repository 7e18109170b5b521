/** ICMP echo handling of src/protocols/ip/icmp.rs (RFC 792). Headers are
    the 8-byte packed `ICMPHeader`, checksummed with the struct version of
    `cksum16` over the header alone. What `super::output` does with a
    message is not modelled: each becomes an `IpSend` record. */
module Icmp {
  import opened Common
  import opened Bytes
  import opened InetChecksum
  import opened Util
  import opened Ip

  const ICMP_HDR_SIZE: nat := 8
  const ICMP_TYPE_ECHOREPLY: byte := 0
  const ICMP_TYPE_ECHO: byte := 8

  /** The memory of a packed `ICMPHeader` whose checksum field holds the
      bytes `check`. */
  function HeaderBytes(target: Endian, icmpType: byte, code: byte, check: seq<byte>, values: u32): (h: seq<byte>)
    requires |check| == 2
    ensures |h| == ICMP_HDR_SIZE
  {
    [icmpType, code] + check + Store32(target, values)
  }

  /** The checksum `output` computes: over the header with a zeroed
      checksum field. */
  function HeaderChecksum(target: Endian, icmpType: byte, code: byte, values: u32): u16 {
    StructChecksum(HeaderBytes(target, icmpType, code, [0, 0], values), ICMP_HDR_SIZE, 0)
  }

  /** `output` as written: the checksum is assigned to the `u16` field
      and so lies in memory in the target's byte order. */
  function OutputAsWritten(target: Endian, icmpType: byte, code: byte, values: u32, icmpData: seq<byte>,
                           src: u32, dst: u32): (r: IpSend)
    ensures r.protocol == ICMP && r.src == src && r.dst == dst
    ensures r.data == HeaderBytes(target, icmpType, code,
                                  Store16(target, HeaderChecksum(target, icmpType, code, values)), values)
                      + icmpData
  {
    IpSend(ICMP, HeaderBytes(target, icmpType, code,
                             Store16(target, HeaderChecksum(target, icmpType, code, values)), values)
                 + icmpData, src, dst)
  }

  /** The header with its checksum written in network order checks out. */
  lemma NetworkOrderVerifies(target: Endian, icmpType: byte, code: byte, values: u32)
    ensures var c := HeaderChecksum(target, icmpType, code, values);
            StructChecksum(HeaderBytes(target, icmpType, code, BigEndian16(c), values), ICMP_HDR_SIZE, 0) == 0
  {
    var c := HeaderChecksum(target, icmpType, code, values);
    var zeroed: seq<byte> := HeaderBytes(target, icmpType, code, [0, 0], values);
    ChecksumVerifies(zeroed, ICMP_HDR_SIZE, 0, 2);
    EvenLengthAgrees(zeroed, ICMP_HDR_SIZE, 0);
    var h: seq<byte> := HeaderBytes(target, icmpType, code, BigEndian16(c), values);
    var hi: byte, lo: byte := c / 0x100, c % 0x100;
    var updated: seq<byte> := zeroed[2 := hi];
    updated := updated[3 := lo];
    assert h == updated;
    EvenLengthAgrees(h, ICMP_HDR_SIZE, 0);
  }

  /** `output` with the checksum stored in network order: the header it
      builds passes the check `input` makes, on either target. */
  function Output(target: Endian, icmpType: byte, code: byte, values: u32, icmpData: seq<byte>,
                  src: u32, dst: u32): (r: IpSend)
    ensures r.protocol == ICMP && r.src == src && r.dst == dst
    ensures |r.data| == ICMP_HDR_SIZE + |icmpData| && r.data[ICMP_HDR_SIZE..] == icmpData
    ensures r.data[0] == icmpType && r.data[1] == code && r.data[4..8] == Store32(target, values)
    ensures StructChecksum(r.data[..ICMP_HDR_SIZE], ICMP_HDR_SIZE, 0) == 0
  {
    var h := HeaderBytes(target, icmpType, code, BigEndian16(HeaderChecksum(target, icmpType, code, values)), values);
    NetworkOrderVerifies(target, icmpType, code, values);
    assert (h + icmpData)[..ICMP_HDR_SIZE] == h;
    IpSend(ICMP, h + icmpData, src, dst)
  }

  /** On a little-endian target a header stored as written fails the
      receiver's check: type 0, code 0, values memory 00 01 00 00. */
  lemma NativeChecksumFails()
    ensures var r := OutputAsWritten(Little, 0, 0, 0x100, [], 0, 0);
            StructChecksum(r.data[..ICMP_HDR_SIZE], ICMP_HDR_SIZE, 0) == 0x00ff
  {
    assert Store32(Little, 0x100) == [0, 1, 0, 0];
    assert HeaderBytes(Little, 0, 0, [0, 0], 0x100) == [0, 0, 0, 0, 0, 1, 0, 0];
    LiteralSums();
    assert HeaderChecksum(Little, 0, 0, 0x100) == 0xfffe;
    assert Store16(Little, 0xfffe) == [0xfe, 0xff];
    assert HeaderBytes(Little, 0, 0, [0xfe, 0xff], 0x100) == [0, 0, 0xfe, 0xff, 0, 1, 0, 0];
    var r := OutputAsWritten(Little, 0, 0, 0x100, [], 0, 0);
    assert r.data == [0, 0, 0xfe, 0xff, 0, 1, 0, 0];
    assert r.data[..ICMP_HDR_SIZE] == r.data;
  }

  lemma LiteralSums()
    ensures StructChecksum([0, 0, 0, 0, 0, 1, 0, 0], ICMP_HDR_SIZE, 0) == 0xfffe
    ensures StructChecksum([0, 0, 0xfe, 0xff, 0, 1, 0, 0], ICMP_HDR_SIZE, 0) == 0x00ff
  {
    var a: seq<byte> := [0, 0, 0, 0, 0, 1, 0, 0];
    assert PairSum(a[6..], 2) == 0;
    assert PairSum(a[4..], 4) == 1;
    assert PairSum(a[2..], 6) == 1;
    assert PairSum(a, 8) == 1;
    var b: seq<byte> := [0, 0, 0xfe, 0xff, 0, 1, 0, 0];
    assert PairSum(b[6..], 2) == 0;
    assert PairSum(b[4..], 4) == 1;
    assert PairSum(b[2..], 6) == 0xfeff + 1;
    assert PairSum(b, 8) == 0xff00;
  }

  /** Whether `data` starts with a header that checks out. */
  predicate HeaderVerifies(data: seq<byte>)
    requires |data| >= ICMP_HDR_SIZE
  {
    StructChecksum(data[..ICMP_HDR_SIZE], ICMP_HDR_SIZE, 0) == 0
  }

  /** The `values` field as `input` reads it. */
  function Values(target: Endian, data: seq<byte>): u32
    requires |data| >= ICMP_HDR_SIZE
  {
    Load32(target, data[4], data[5], data[6], data[7])
  }

  /** The reply's destination: the interface address when the request was
      sent elsewhere (it always ends up the interface address). */
  function ReplyDst(dst: u32, iface: Interface): (d: u32)
    ensures d == iface.unicast
  {
    if dst != iface.unicast then iface.unicast else dst
  }

  /** `input` as written: the reply payload starts one byte early, at the
      last header byte, and the reply is built by `OutputAsWritten`. */
  function InputAsWritten(target: Endian, data: seq<byte>, len: nat, src: u32, dst: u32, iface: Interface)
    : (r: Result<Option<IpSend>>)
    requires |data| >= ICMP_HDR_SIZE
    ensures !HeaderVerifies(data) ==> r == Err
    ensures HeaderVerifies(data) && data[0] == ICMP_TYPE_ECHO && len >= ICMP_HDR_SIZE ==>
              r.Ok? && r.value.Some? && |r.value.value.data| >= ICMP_HDR_SIZE
              && r.value.value.data[ICMP_HDR_SIZE..] == data[ICMP_HDR_SIZE - 1..]
              && |r.value.value.data[ICMP_HDR_SIZE..]| == |data| - ICMP_HDR_SIZE + 1
  {
    if !HeaderVerifies(data) then Err
    else if data[0] == ICMP_TYPE_ECHO then
      if len < ICMP_HDR_SIZE then Panic("attempt to subtract with overflow")
      else
        var reply := OutputAsWritten(target, ICMP_TYPE_ECHOREPLY, data[1], Values(target, data),
                                     data[ICMP_HDR_SIZE - 1..], src, ReplyDst(dst, iface));
        assert |HeaderBytes(target, ICMP_TYPE_ECHOREPLY, data[1],
                            Store16(target, HeaderChecksum(target, ICMP_TYPE_ECHOREPLY, data[1], Values(target, data))),
                            Values(target, data))| == ICMP_HDR_SIZE;
        Ok(Some(reply))
    else Ok(None)
  }

  /** `input` with the reply payload `data[8..]` and the reply built by
      `Output`: a message whose header fails the check is an error; an
      echo request gets exactly one echo reply with the same code, the
      same `values` bytes (identifier and sequence number) and the same
      payload, whose header checks out; other types get nothing. The
      length argument `len - 8` underflows for `len < 8`, which panics. */
  function Input(target: Endian, data: seq<byte>, len: nat, src: u32, dst: u32, iface: Interface)
    : (r: Result<Option<IpSend>>)
    requires |data| >= ICMP_HDR_SIZE
    ensures r == Err <==> !HeaderVerifies(data)
    ensures r == Ok(None) <==> HeaderVerifies(data) && data[0] != ICMP_TYPE_ECHO
    ensures r.Panic? <==> HeaderVerifies(data) && data[0] == ICMP_TYPE_ECHO && len < ICMP_HDR_SIZE
    ensures r.Ok? && r.value.Some? ==>
              var m := r.value.value;
              m.protocol == ICMP && m.src == src && m.dst == iface.unicast
              && |m.data| == |data|
              && m.data[0] == ICMP_TYPE_ECHOREPLY && m.data[1] == data[1]
              && m.data[4..] == data[4..]
              && HeaderVerifies(m.data)
  {
    if !HeaderVerifies(data) then Err
    else if data[0] == ICMP_TYPE_ECHO then
      if len < ICMP_HDR_SIZE then Panic("attempt to subtract with overflow")
      else
        StoreLoad32(target, data[4], data[5], data[6], data[7]);
        ReplyMirrorsRequest(target, data, Values(target, data), src, ReplyDst(dst, iface));
        Ok(Some(Output(target, ICMP_TYPE_ECHOREPLY, data[1], Values(target, data), data[ICMP_HDR_SIZE..],
                       src, ReplyDst(dst, iface))))
    else Ok(None)
  }

  /** The echo reply carries the request's `values` bytes and payload. */
  lemma ReplyMirrorsRequest(target: Endian, data: seq<byte>, values: u32, src: u32, dst: u32)
    requires |data| >= ICMP_HDR_SIZE && Store32(target, values) == data[4..8]
    ensures var m := Output(target, ICMP_TYPE_ECHOREPLY, data[1], values, data[ICMP_HDR_SIZE..], src, dst);
            |m.data| == |data| && m.data[4..] == data[4..]
  {
    var d := Output(target, ICMP_TYPE_ECHOREPLY, data[1], values, data[ICMP_HDR_SIZE..], src, dst).data;
    SameTail(d, data);
  }

  lemma SameTail(d: seq<byte>, data: seq<byte>)
    requires |d| >= ICMP_HDR_SIZE && |data| >= ICMP_HDR_SIZE
    requires d[4..8] == data[4..8] && d[ICMP_HDR_SIZE..] == data[ICMP_HDR_SIZE..]
    ensures d[4..] == data[4..]
  {
    assert d[4..] == d[4..8] + d[ICMP_HDR_SIZE..];
    assert data[4..] == data[4..8] + data[ICMP_HDR_SIZE..];
  }
}
