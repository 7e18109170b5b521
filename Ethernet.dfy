/** Ethernet II framing of src/devices/ethernet.rs: destination filtering
    and payload extraction on input, and frame building with zero padding
    on output. The driver that reads or writes the frame is not modelled:
    `ReadData` takes the bytes the driver returned, and `Transmit` returns
    the bytes it would hand to the driver. */
module Ethernet {
  import opened Common
  import opened Bytes
  import opened Protocols

  const INTR_IRQ_BASE: int := 35
  const IRQ_ETHERNET: int := INTR_IRQ_BASE + 2

  const ETH_HDR_SIZE: nat := 14
  const ETH_FRAME_MIN: nat := 60
  const ETH_FRAME_MAX: nat := 1514
  const ETH_PAYLOAD_MIN: nat := ETH_FRAME_MIN - ETH_HDR_SIZE
  const ETH_PAYLOAD_MAX: nat := ETH_FRAME_MAX - ETH_HDR_SIZE
  const ETH_ADDR_LEN: nat := 6
  const NET_DEVICE_ADDR_LEN: nat := 14

  const ETH_ADDR_ANY: seq<byte> := [0, 0, 0, 0, 0, 0]
  const ETH_ADDR_BROADCAST: seq<byte> := [0xff, 0xff, 0xff, 0xff, 0xff, 0xff]

  datatype DeviceType = Loopback | EthernetDevice

  /** The parts of a `NetDevice` the protocol code reads. */
  datatype Device = Device(index: byte, deviceType: DeviceType, name: string, mtu: nat,
                           headerLen: u16, addressLen: u16,
                           address: seq<byte>, broadcast: seq<byte>, irq: int)
  {
    ghost predicate Valid() {
      |address| == NET_DEVICE_ADDR_LEN && |broadcast| == NET_DEVICE_ADDR_LEN
    }
  }

  /** `init`: the tap Ethernet device as registered at start-up. */
  function Init(i: byte): (d: Device)
    ensures d.Valid() && d.deviceType == EthernetDevice && d.index == i
    ensures d.mtu == ETH_PAYLOAD_MAX && d.mtu + d.headerLen as nat == ETH_FRAME_MAX
    ensures d.headerLen as nat == ETH_HDR_SIZE && d.addressLen as nat == ETH_ADDR_LEN
    ensures d.address == Zeros(NET_DEVICE_ADDR_LEN)
    ensures forall k :: 0 <= k < |d.broadcast| ==> d.broadcast[k] == 0xff
    ensures d.broadcast[..ETH_ADDR_LEN] == ETH_ADDR_BROADCAST
    ensures d.irq == 37
  {
    Device(i, EthernetDevice, "tap0", ETH_PAYLOAD_MAX, ETH_HDR_SIZE as u16, ETH_ADDR_LEN as u16,
           Zeros(NET_DEVICE_ADDR_LEN), seq(NET_DEVICE_ADDR_LEN, _ => 0xff), IRQ_ETHERNET)
  }

  /** A parsed input frame: its ethertype, its payload and the payload
      length. */
  datatype Incoming = Incoming(protocol: ProtocolType, data: seq<byte>, len: nat)

  /** Whether the frame's destination is the device or the broadcast
      address. */
  predicate ForDevice(dev: Device, dst: seq<byte>)
    requires dev.Valid()
  {
    dev.address[..ETH_ADDR_LEN] == dst || ETH_ADDR_BROADCAST == dst
  }

  /** `read_data` after the driver returned `len` bytes in `buf`. The
      ethertype is the header's native `u16` converted with `be_to_le_u16`. */
  function ReadData(target: Endian, dev: Device, len: nat, buf: seq<byte>): (r: Result<Option<Incoming>>)
    requires dev.Valid() && len <= |buf|
    ensures r.Panic? <==> len < ETH_HDR_SIZE
    ensures r == Ok(None) <==> len >= ETH_HDR_SIZE && !ForDevice(dev, buf[..ETH_ADDR_LEN])
    ensures r.Ok? && r.value.Some? ==>
              ForDevice(dev, buf[..ETH_ADDR_LEN])
              && r.value.value.protocol == FromU16(FromBigEndian16(buf[12], buf[13]))
              && r.value.value.data == buf[ETH_HDR_SIZE..len]
              && r.value.value.len == len - ETH_HDR_SIZE == |r.value.value.data|
    ensures r.Err? ==> false
  {
    if len < ETH_HDR_SIZE then Panic("Ethernet: data is smaller than eth header.")
    else
      var dst := buf[..ETH_ADDR_LEN];
      if dev.address[..ETH_ADDR_LEN] != dst && ETH_ADDR_BROADCAST != dst then Ok(None)
      else
        var ethType := BeToLe16(target, Load16(target, buf[12], buf[13]));
        LoadBeToLe16(target, buf[12], buf[13]);
        Ok(Some(Incoming(FromU16(ethType), buf[ETH_HDR_SIZE..len], len - ETH_HDR_SIZE)))
  }

  /** The frame as it goes on the wire: destination, source, ethertype in
      network order, the data, and zeros up to the minimum payload. */
  function Frame(dst: seq<byte>, src: seq<byte>, t: ProtocolType, data: seq<byte>): (f: seq<byte>)
    requires |dst| == ETH_ADDR_LEN && |src| == ETH_ADDR_LEN
    ensures |f| == ETH_HDR_SIZE + (if |data| < ETH_PAYLOAD_MIN then ETH_PAYLOAD_MIN else |data|)
    ensures |f| >= ETH_FRAME_MIN
  {
    dst + src + BigEndian16(ToU16(t)) + data
      + Zeros(if |data| < ETH_PAYLOAD_MIN then ETH_PAYLOAD_MIN - |data| else 0)
  }

  /** `copy_from_slice` of `s` into `a` at offset `off`: those cells take
      the bytes of `s`, every other cell keeps its value. */
  method CopyIn(a: array<byte>, off: nat, s: seq<byte>)
    modifies a
    requires off + |s| <= a.Length
    ensures forall k :: 0 <= k < a.Length ==> a[k] == (if off <= k < off + |s| then s[k - off] else old(a[k]))
  {
    var j := 0;
    while j < |s|
      invariant 0 <= j <= |s|
      invariant forall k :: 0 <= k < a.Length ==> a[k] == (if off <= k < off + j then s[k - off] else old(a[k]))
    {
      a[off + j] := s[j];
      j := j + 1;
    }
  }

  /** `transmit` up to the hand-off to the driver: the frame is built in a
      zeroed 1514-byte buffer; data longer than 1500 bytes does not fit and
      the slice copy panics. The `len` argument of the source is unused. */
  method Transmit(target: Endian, dev: Device, etherType: ProtocolType, data: seq<byte>,
                  dst: seq<byte>) returns (r: Result<seq<byte>>)
    requires dev.Valid() && |dst| == ETH_ADDR_LEN
    ensures |data| > ETH_PAYLOAD_MAX ==> r.Panic?
    ensures |data| <= ETH_PAYLOAD_MAX ==> r == Ok(Frame(dst, dev.address[..ETH_ADDR_LEN], etherType, data))
  {
    var src := dev.address[..ETH_ADDR_LEN];
    var hdr := dst + src + Store16(target, LeToBe16(target, ToU16(etherType)));
    StoreLeToBe16(target, ToU16(etherType));
    if |data| > ETH_PAYLOAD_MAX {
      return Panic("range end index out of range for slice");
    }
    var frame := new byte[ETH_FRAME_MAX](_ => 0);
    CopyIn(frame, 0, hdr);
    CopyIn(frame, ETH_HDR_SIZE, data);
    var padLen := 0;
    if |data| < ETH_PAYLOAD_MIN {
      padLen := ETH_PAYLOAD_MIN - |data|;
    }
    var frameLen := ETH_HDR_SIZE + |data| + padLen;
    var f := Frame(dst, src, etherType, data);
    assert frame[..frameLen] == f by {
      forall k | 0 <= k < frameLen
        ensures frame[k] == f[k]
      {
      }
    }
    r := Ok(frame[..frameLen]);
  }

  /** Parsing a frame built for this device gives back its ethertype, and a
      payload that starts with the data sent (padding may follow). */
  lemma FrameRoundTrip(target: Endian, dev: Device, t: ProtocolType, data: seq<byte>)
    requires dev.Valid() && |data| <= ETH_PAYLOAD_MAX
    ensures var f := Frame(dev.address[..ETH_ADDR_LEN], dev.address[..ETH_ADDR_LEN], t, data);
            var r := ReadData(target, dev, |f|, f);
            r.Ok? && r.value.Some? && r.value.value.protocol == t
            && r.value.value.len >= |data| && r.value.value.data[..|data|] == data
  {
    var f := Frame(dev.address[..ETH_ADDR_LEN], dev.address[..ETH_ADDR_LEN], t, data);
    assert f[..ETH_ADDR_LEN] == dev.address[..ETH_ADDR_LEN];
    assert [f[12], f[13]] == BigEndian16(ToU16(t));
    BigEndian16Value(ToU16(t));
    FromU16ToU16(t);
    assert f[ETH_HDR_SIZE..|f|][..|data|] == data;
  }

  /** A broadcast frame is accepted by every device. */
  lemma BroadcastAccepted(target: Endian, dev: Device, t: ProtocolType, data: seq<byte>)
    requires dev.Valid() && |data| <= ETH_PAYLOAD_MAX
    ensures var f := Frame(ETH_ADDR_BROADCAST, dev.address[..ETH_ADDR_LEN], t, data);
            ReadData(target, dev, |f|, f).Ok? && ReadData(target, dev, |f|, f).value.Some?
  {
    var f := Frame(ETH_ADDR_BROADCAST, dev.address[..ETH_ADDR_LEN], t, data);
    assert f[..ETH_ADDR_LEN] == ETH_ADDR_BROADCAST;
  }
}
