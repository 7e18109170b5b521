/** The ARP cache and message handling of src/protocols/arp.rs
    (RFC 826, Ethernet hardware and IPv4 protocol addresses).

    Messages are the 28 bytes of the packed `ArpMessage` struct. Header
    fields lie in memory in the target's byte order (`Store16`/`Load16`);
    the stack converts with `le_to_be_u16` before storing them. Addresses
    are `u32`, placed in a message with `to_le_bytes` and read back with a
    native load. What the device does with a transmission is not
    modelled: each becomes a `Transmission` record, and whether the driver
    accepted it is the parameter `txOk`. */
module Arp {
  import opened Common
  import opened Bytes
  import opened Protocols
  import opened Ethernet

  const ARP_HW_SPACE_ETHER: u16 := 0x0001
  const ARP_PROTO_SPACE_IP: u16 := 0x0800
  const ARP_OP_REQUEST: u16 := 0x0001
  const ARP_OP_REPLY: u16 := 0x0002
  const ARP_CACHE_TIMEOUT_SECS: int := 60 * 60 * 4
  const IP_ADDR_LEN: nat := 4
  const ARP_MESSAGE_SIZE: nat := 28

  datatype EntryState = Incomplete | Resolved | Static

  /** A cache entry; `timestamp` is in whole seconds. */
  datatype ArpEntry = ArpEntry(state: EntryState, protoAddress: u32, hwAddress: seq<byte>, timestamp: int)

  /** A frame handed to the device: ethertype, payload and destination
      hardware address. */
  datatype Transmission = Transmission(protocol: ProtocolType, data: seq<byte>, dst: seq<byte>)

  class ArpTable {
    var entries: map<u32, ArpEntry>

    constructor ()
      ensures entries == map[]
    {
      entries := map[];
    }

    /** `get` at time `now` (seconds). The age of an entry is taken with
        `elapsed().unwrap()`, which fails for a timestamp in the future;
        an entry older than the timeout is removed. */
    method Get(ip: u32, now: int) returns (r: Result<Option<seq<byte>>>)
      modifies this
      ensures ip !in old(entries) ==> r == Ok(None) && entries == old(entries)
      ensures ip in old(entries) && now < old(entries)[ip].timestamp ==>
                r.Panic? && entries == old(entries)
      ensures ip in old(entries) && now - old(entries)[ip].timestamp > ARP_CACHE_TIMEOUT_SECS ==>
                r == Ok(None) && entries == old(entries) - {ip}
      ensures ip in old(entries) && 0 <= now - old(entries)[ip].timestamp <= ARP_CACHE_TIMEOUT_SECS ==>
                r == Ok(Some(old(entries)[ip].hwAddress)) && entries == old(entries)
    {
      if ip in entries {
        var entry := entries[ip];
        if now < entry.timestamp {
          return Panic("called `Result::unwrap()` on an `Err` value: SystemTimeError");
        }
        if now - entry.timestamp > ARP_CACHE_TIMEOUT_SECS {
          entries := entries - {ip};
          return Ok(None);
        } else {
          return Ok(Some(entry.hwAddress));
        }
      }
      return Ok(None);
    }

    /** `update`: replaces any entry for `ip` with a resolved one stamped
        `now`. */
    method Update(ip: u32, resolved: seq<byte>, now: int)
      modifies this
      ensures entries == old(entries)[ip := ArpEntry(Resolved, ip, resolved, now)]
      ensures ip in entries && entries[ip].hwAddress == resolved && entries[ip].timestamp == now
      ensures forall k :: k in old(entries) && k != ip ==> k in entries && entries[k] == old(entries)[k]
      ensures forall k :: k in entries ==> k in old(entries) || k == ip
    {
      if ip in entries {
        entries := entries - {ip};
      }
      entries := entries[ip := ArpEntry(Resolved, ip, resolved, now)];
    }
  }

  // ----- messages ----------------------------------------------------------

  /** An ARP message for Ethernet and IPv4 as it is on the wire. */
  function WireMessage(op: u16, sha: seq<byte>, spa: seq<byte>, tha: seq<byte>, tpa: seq<byte>): seq<byte> {
    [0x00, 0x01, 0x08, 0x00, 6, 4] + BigEndian16(op) + sha + spa + tha + tpa
  }

  /** The memory of a packed `ArpMessage` whose header fields were stored
      with `le_to_be_u16`. */
  function Message(target: Endian, op: u16, sha: seq<byte>, spa: u32, tha: seq<byte>, tpa: u32): (m: seq<byte>)
    requires |sha| == ETH_ADDR_LEN && |tha| == ETH_ADDR_LEN
    ensures |m| == ARP_MESSAGE_SIZE
    ensures m == WireMessage(op, sha, LittleEndian32(spa), tha, LittleEndian32(tpa))
  {
    StoreLeToBe16(target, ARP_HW_SPACE_ETHER);
    StoreLeToBe16(target, ARP_PROTO_SPACE_IP);
    StoreLeToBe16(target, op);
    Store16(target, LeToBe16(target, ARP_HW_SPACE_ETHER))
      + Store16(target, LeToBe16(target, ARP_PROTO_SPACE_IP))
      + [ETH_ADDR_LEN as byte, IP_ADDR_LEN as byte]
      + Store16(target, LeToBe16(target, op))
      + sha + LittleEndian32(spa) + tha + LittleEndian32(tpa)
  }

  /** `arp_request`: a broadcast request for `targetIp` from this device's
      hardware address and interface address `unicast` (`unwrap` fails when
      the device has no IP interface). */
  function ArpRequest(target: Endian, dev: Device, unicast: Option<u32>, targetIp: u32): (r: Result<Transmission>)
    requires dev.Valid()
    ensures r.Panic? <==> unicast.None?
    ensures r.Ok? ==>
              r.value.protocol == Arp && r.value.dst == dev.broadcast[..ETH_ADDR_LEN]
              && r.value.data == WireMessage(ARP_OP_REQUEST, dev.address[..ETH_ADDR_LEN],
                                             LittleEndian32(unicast.value), Zeros(ETH_ADDR_LEN),
                                             LittleEndian32(targetIp))
  {
    if unicast.None? then Panic("called `Option::unwrap()` on a `None` value")
    else
      Ok(Transmission(Arp,
                      Message(target, ARP_OP_REQUEST, dev.address[..ETH_ADDR_LEN], unicast.value,
                              Zeros(ETH_ADDR_LEN), targetIp),
                      dev.broadcast[..ETH_ADDR_LEN]))
  }

  /** `arp_reply`: a reply from this device to `dst`, naming `tha` and
      `targetIp` as the target. */
  function ArpReply(target: Endian, dev: Device, unicast: Option<u32>, tha: seq<byte>, targetIp: u32,
                    dst: seq<byte>): (r: Result<Transmission>)
    requires dev.Valid() && |tha| == ETH_ADDR_LEN
    ensures r.Panic? <==> unicast.None?
    ensures r.Ok? ==>
              r.value.protocol == Arp && r.value.dst == dst
              && r.value.data == WireMessage(ARP_OP_REPLY, dev.address[..ETH_ADDR_LEN],
                                             LittleEndian32(unicast.value), tha, LittleEndian32(targetIp))
  {
    if unicast.None? then Panic("called `Option::unwrap()` on a `None` value")
    else
      Ok(Transmission(Arp,
                      Message(target, ARP_OP_REPLY, dev.address[..ETH_ADDR_LEN], unicast.value, tha, targetIp),
                      dst))
  }

  // ----- header validation ---------------------------------------------------

  /** The header test of `input` as written: the natively loaded address
      spaces are compared with the constants without conversion. */
  predicate RawHeaderAccepted(target: Endian, data: seq<byte>)
    requires |data| >= ARP_MESSAGE_SIZE
  {
    Load16(target, data[0], data[1]) == ARP_HW_SPACE_ETHER && data[4] as nat == ETH_ADDR_LEN
    && Load16(target, data[2], data[3]) == ARP_PROTO_SPACE_IP && data[5] as nat == IP_ADDR_LEN
  }

  /** The header test with the address spaces converted with
      `be_to_le_u16`, as `input` does for `op`. */
  predicate HeaderAccepted(target: Endian, data: seq<byte>)
    requires |data| >= ARP_MESSAGE_SIZE
  {
    BeToLe16(target, Load16(target, data[0], data[1])) == ARP_HW_SPACE_ETHER && data[4] as nat == ETH_ADDR_LEN
    && BeToLe16(target, Load16(target, data[2], data[3])) == ARP_PROTO_SPACE_IP && data[5] as nat == IP_ADDR_LEN
  }

  /** The header test of a reading. */
  predicate HeaderTest(reading: Reading, target: Endian, data: seq<byte>)
    requires |data| >= ARP_MESSAGE_SIZE
  {
    if reading == AsWritten then RawHeaderAccepted(target, data) else HeaderAccepted(target, data)
  }

  /** The corrected test accepts exactly the messages whose first six
      bytes are 00 01 08 00 06 04, on either target. */
  lemma HeaderAcceptedIsWire(target: Endian, data: seq<byte>)
    requires |data| >= ARP_MESSAGE_SIZE
    ensures HeaderAccepted(target, data) <==> data[..6] == [0x00, 0x01, 0x08, 0x00, 6, 4]
  {
    LoadBeToLe16(target, data[0], data[1]);
    LoadBeToLe16(target, data[2], data[3]);
    var hw, pr := FromBigEndian16(data[0], data[1]), FromBigEndian16(data[2], data[3]);
    assert HeaderAccepted(target, data) <==> hw == 1 && pr == 0x800 && data[4] == 6 && data[5] == 4;
    FromBigEndian16Digits(data[0], data[1]);
    FromBigEndian16Digits(data[2], data[3]);
    assert BigEndian16(1) == [0, 1] && BigEndian16(0x800) == [8, 0];
    assert hw == 1 <==> data[0] == 0 && data[1] == 1;
    assert pr == 0x800 <==> data[2] == 8 && data[3] == 0;
    var w: seq<byte> := [0x00, 0x01, 0x08, 0x00, 6, 4];
    assert data[..6] == w <==> forall k :: 0 <= k < 6 ==> data[k] == w[k];
  }

  /** As written, a little-endian host rejects every well-formed message,
      including the ones it builds itself; a big-endian host accepts them. */
  lemma RawHeaderRejectsWire(target: Endian, data: seq<byte>)
    requires |data| >= ARP_MESSAGE_SIZE && data[..6] == [0x00, 0x01, 0x08, 0x00, 6, 4]
    ensures target == Little ==> !RawHeaderAccepted(target, data)
    ensures target == Big ==> RawHeaderAccepted(target, data)
  {
    assert data[0] == 0 && data[1] == 1 && data[2] == 8 && data[3] == 0 && data[4] == 6 && data[5] == 4;
  }

  // ----- input and resolution -----------------------------------------------

  /** `input` of a 28-byte message at time `now`, with the header test of
      `reading`: as written, a little-endian host answers `Err` to every
      well-formed message (see `RawHeaderRejectsWire`). */
  method Input(reading: Reading, target: Endian, data: seq<byte>, dev: Device, unicast: Option<u32>, table: ArpTable,
               now: int, txOk: bool) returns (r: Result<()>, sent: seq<Transmission>)
    requires |data| >= ARP_MESSAGE_SIZE && dev.Valid()
    modifies table
    ensures !HeaderTest(reading, target, data) ==>
              r == Err && sent == [] && table.entries == old(table.entries)
    ensures HeaderTest(reading, target, data) && unicast.None? ==>
              r.Panic? && sent == [] && table.entries == old(table.entries)
    ensures HeaderTest(reading, target, data) && unicast.Some?
            && unicast.value != Load32(target, data[24], data[25], data[26], data[27]) ==>
              r == Ok(()) && sent == [] && table.entries == old(table.entries)
    ensures HeaderTest(reading, target, data) && unicast.Some?
            && unicast.value == Load32(target, data[24], data[25], data[26], data[27]) ==>
              var senderIp := Load32(target, data[14], data[15], data[16], data[17]);
              table.entries == old(table.entries)[senderIp := ArpEntry(Resolved, senderIp, data[8..14], now)]
              && (if FromBigEndian16(data[6], data[7]) == ARP_OP_REQUEST
                  then sent == [ArpReply(target, dev, unicast, data[8..14], senderIp, data[8..14]).value]
                       && (r == Ok(()) <==> txOk) && (r == Err <==> !txOk)
                  else sent == [] && r == Ok(()))
  {
    sent := [];
    if !HeaderTest(reading, target, data) {
      return Err, sent;
    }
    var targetIp := Load32(target, data[24], data[25], data[26], data[27]);
    if unicast.None? {
      return Panic("called `Option::unwrap()` on a `None` value"), sent;
    }
    if unicast.value != targetIp {
      return Ok(()), sent;
    }
    var senderIp := Load32(target, data[14], data[15], data[16], data[17]);
    var sha := data[8..14];
    table.Update(senderIp, sha, now);
    LoadBeToLe16(target, data[6], data[7]);
    if BeToLe16(target, Load16(target, data[6], data[7])) == ARP_OP_REQUEST {
      var reply := ArpReply(target, dev, unicast, sha, senderIp, sha);
      sent := [reply.value];
      r := if txOk then Ok(()) else Err;
      return;
    }
    return Ok(()), sent;
  }

  /** `arp_resolve`: only Ethernet devices resolve; a cache hit answers
      at once, and a miss broadcasts a request and answers `None`. */
  method Resolve(target: Endian, dev: Device, unicast: Option<u32>, table: ArpTable, targetIp: u32,
                 now: int, txOk: bool) returns (r: Result<Option<seq<byte>>>, sent: seq<Transmission>)
    requires dev.Valid()
    modifies table
    ensures dev.deviceType != EthernetDevice ==> r == Err && sent == [] && table.entries == old(table.entries)
    ensures dev.deviceType == EthernetDevice && targetIp in old(table.entries)
            && 0 <= now - old(table.entries)[targetIp].timestamp <= ARP_CACHE_TIMEOUT_SECS ==>
              r == Ok(Some(old(table.entries)[targetIp].hwAddress)) && sent == []
              && table.entries == old(table.entries)
    ensures r.Ok? && r.value.None? ==>
              unicast.Some? && sent == [ArpRequest(target, dev, unicast, targetIp).value] && txOk
    ensures dev.deviceType == EthernetDevice && unicast.Some?
            && (targetIp !in old(table.entries)
                || now - old(table.entries)[targetIp].timestamp > ARP_CACHE_TIMEOUT_SECS) ==>
              sent == [ArpRequest(target, dev, unicast, targetIp).value]
              && table.entries == old(table.entries) - {targetIp}
              && (r == Ok(None) <==> txOk) && (r == Err <==> !txOk)
  {
    sent := [];
    if dev.deviceType != EthernetDevice {
      return Err, sent;
    }
    var hit := table.Get(targetIp, now);
    if hit.Panic? {
      return Panic(hit.reason), sent;
    }
    if hit.value.Some? {
      return Ok(Some(hit.value.value)), sent;
    }
    var request := ArpRequest(target, dev, unicast, targetIp);
    if request.Panic? {
      return Panic(request.reason), sent;
    }
    sent := [request.value];
    if txOk {
      r := Ok(None);
    } else {
      r := Err;
    }
  }

  /** On a little-endian host the request one host broadcasts for `ip`
      passes the corrected header test at the host whose address is `ip`,
      names the requester as sender, and asks for a reply; the test as
      written rejects it. */
  lemma RequestReachesTarget(dev: Device, unicast: u32, ip: u32)
    requires dev.Valid()
    ensures var m := ArpRequest(Little, dev, Some(unicast), ip).value.data;
            HeaderAccepted(Little, m) && !RawHeaderAccepted(Little, m)
            && Load32(Little, m[24], m[25], m[26], m[27]) == ip
            && Load32(Little, m[14], m[15], m[16], m[17]) == unicast
            && m[8..14] == dev.address[..ETH_ADDR_LEN]
            && FromBigEndian16(m[6], m[7]) == ARP_OP_REQUEST
  {
    var m := ArpRequest(Little, dev, Some(unicast), ip).value.data;
    WireMessageParts(ARP_OP_REQUEST, dev.address[..ETH_ADDR_LEN], LittleEndian32(unicast), Zeros(ETH_ADDR_LEN),
                     LittleEndian32(ip));
    HeaderAcceptedIsWire(Little, m);
    RawHeaderRejectsWire(Little, m);
    LoadStore32(Little, ip);
    LoadStore32(Little, unicast);
    BigEndian16Value(ARP_OP_REQUEST);
  }

  /** Where the fields of a wire message lie. */
  lemma WireMessageParts(op: u16, sha: seq<byte>, spa: seq<byte>, tha: seq<byte>, tpa: seq<byte>)
    requires |sha| == ETH_ADDR_LEN && |spa| == IP_ADDR_LEN && |tha| == ETH_ADDR_LEN && |tpa| == IP_ADDR_LEN
    ensures var m := WireMessage(op, sha, spa, tha, tpa);
            |m| == ARP_MESSAGE_SIZE && m[..6] == [0x00, 0x01, 0x08, 0x00, 6, 4]
            && m[6..8] == BigEndian16(op) && m[8..14] == sha && m[14..18] == spa
            && m[24..28] == tpa
            && m[14] == spa[0] && m[15] == spa[1] && m[16] == spa[2] && m[17] == spa[3]
            && m[24] == tpa[0] && m[25] == tpa[1] && m[26] == tpa[2] && m[27] == tpa[3]
            && m[6] == BigEndian16(op)[0] && m[7] == BigEndian16(op)[1]
  {
  }
}
