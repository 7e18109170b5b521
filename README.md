# rust-user-net: a Dafny model of the protocol core

rust-user-net is a TCP/IP stack that runs in user space on a TAP device.
This project models its protocol core as Dafny code and proves properties
of that model. The core covered is:

- Ethernet framing;
- ARP resolution and its cache;
- the IPv4 header and its id counter;
- ICMP echo;
- UDP;
- the TCP state machine of RFC 793 as `tcp.rs` implements it;
- the protocol dispatch of `protocols/mod.rs`;
- the two Internet checksum routines and the byte-order helpers.

Modelling choices:

- **Byte order.** The source reads and writes structs straight from and
  to memory. That makes byte order a property of the host, so the host
  is an `Endian` parameter (`Little` or `Big`). Each struct is given an
  explicit byte layout.
- **Ethernet and ARP.** Transmitted frames and ARP messages are returned
  as values.
- **IP output.** A message the IP layer would send is an `IpSend` value:
  a protocol, a payload, a source and a destination.
- **TCP state.** The whole TCP state is one value,
  `TcpArrive.Stack(pcbs, out, wakes)`:
  - `pcbs` is the table of protocol control blocks;
  - `out` is the log of segments handed to the IP layer;
  - `wakes` is the log of wake-ups sent on the channels that blocked
    user threads wait on.
- **The PCB table as a class.** `TcpControl.TcpPcbs` keeps the same
  state in fields. Each of its methods updates those fields in place and
  is proved to leave exactly the state its specification function in
  `TcpArrive`, `TcpRetransmit` or `TcpUser` computes.
- **Clocks and randomness.** The wall clock is an integer `now`. TCP uses
  microseconds and ARP whole seconds. The random initial sequence number
  is a parameter.
- **Failure.** Each operation returns `Ok`, `Err` or `Panic`. `Panic`
  stands for an `unwrap`, `expect`, `panic!` or integer underflow that
  would stop the thread.

## Model

| member | source | states |
|---|---|---|
| Bytes.ByteSwap16Involution | src/utils/byte.rs:3-5 | swapping the bytes of a u16 twice gives back the value |
| Bytes.ByteSwap16Reverses | src/utils/byte.rs:3-5 | the big-endian bytes of the swapped value are those of the value in reverse order |
| Bytes.ByteSwap32Reverses | src/utils/byte.rs:7-9 | the four big-endian bytes of the swapped u32 are the value's bytes reversed |
| Bytes.ByteSwap32Involution | src/utils/byte.rs:7-9 | swapping a u32 twice gives back the value |
| Bytes.Convert16 | src/utils/byte.rs:11-25 | `be_to_le_u16` and `le_to_be_u16` are the same map, each undoes the other, and both are the identity on a big-endian host |
| Bytes.Convert32 | src/utils/byte.rs:27-41 | the same for the u32 pair |
| Bytes.StoreLeToBe16 | src/utils/byte.rs:19-25 | storing `le_to_be_u16(v)` in native order lays out the big-endian bytes of `v` on either host |
| Bytes.StoreLeToBe32 | src/utils/byte.rs:35-41 | storing `le_to_be_u32(v)` lays out the big-endian bytes of `v` on either host |
| Bytes.LoadBeToLe16 | src/utils/byte.rs:11-17 | `be_to_le_u16` of a natively loaded pair of bytes is the pair read as big-endian |
| Bytes.LoadBeToLe32 | src/utils/byte.rs:27-33 | `be_to_le_u32` of four natively loaded bytes is them read as big-endian |
| Bytes.LoadStore16 | src/utils/mod.rs:4-13 | reading back a stored u16 (`bytes_to_struct` after `to_u8_slice`) gives the value |
| Bytes.LoadStore32 | src/utils/mod.rs:4-13 | reading back a stored u32 gives the value |
| Bytes.StoreLoad32 | src/utils/mod.rs:4-13 | storing a loaded u32 gives back the four bytes it was loaded from |
| InetChecksum.Fold | src/utils/mod.rs:29-32 | the end-around carry loop ends below 0x10000, keeps the sum modulo 0xffff, and keeps a non-zero sum non-zero |
| InetChecksum.Cksum16 | src/utils/mod.rs:15-34 | the loop over 16-bit words, the odd trailing byte added as the high half, and the folding and complement compute `Checksum` |
| InetChecksum.PairSumPrefix | src/utils/mod.rs:15-28 | the word sum over `len` bytes depends only on those bytes |
| InetChecksum.ChecksumPrefix | src/utils/mod.rs:15-28 | so does the checksum |
| InetChecksum.PairSumConcat | src/utils/mod.rs:20-25 | the word sum over an even-length prefix followed by more bytes is the sum of the two parts |
| InetChecksum.OddBytePadded | src/utils/mod.rs:26-28 | with an odd length the sum is the word sum with a zero byte appended (RFC 1071 padding) |
| InetChecksum.PairSumBound | src/utils/mod.rs:20-25 | each word adds at most 0xffff |
| InetChecksum.SliceSumBound | src/utils/mod.rs:20-28 | the whole sum is at most 0xffff per started word |
| InetChecksum.NoOverflow | src/utils/mod.rs:15-28 | for up to 0xffff bytes and a seed of at most 0xffff, the u32 sum cannot overflow |
| InetChecksum.PairSumUpdate | src/utils/mod.rs:20-25 | overwriting one aligned word changes the sum by the difference of the two words |
| InetChecksum.ChecksumVerifies | src/utils/mod.rs:15-34 | writing the checksum big-endian into a zeroed aligned field makes the checksum over the same bytes 0 |
| Util.U16ToLeProperties | src/util.rs:1-7 | `u16_to_le` reverses the two bytes on a little-endian host, is the identity on a big-endian one, and undoes itself |
| Util.U32ToLeProperties | src/util.rs:9-15 | the same for `u32_to_le` and four bytes |
| Util.StructCksum16 | src/util.rs:26-46 | the loop over the struct's memory, with an odd trailing byte added as the low half, computes `StructChecksum` |
| Util.EvenLengthAgrees | src/util.rs:26-46 | for an even length the struct checksum equals the slice checksum |
| Util.OddLengthDiffers | src/util.rs:38-40 | for an odd length the two sums differ by 0xff times the last byte |
| Util.OddLengthExample | src/util.rs:38-40 | on the single byte 1 the two routines answer 0xfffe and 0xfeff |
| Ip.IdGenerator.constructor | src/protocols/ip/mod.rs:69-73 | a new generator holds 128 |
| Ip.IdGenerator.GenerateId | src/protocols/ip/mod.rs:75-79 | increments the counter and returns the new value; at 0xffff the u16 add panics and the counter is kept |
| Ip.HeaderMemory | src/protocols/ip/mod.rs:88-100 | the 20 bytes of the header struct: total length and id big-endian, offset 0, TTL 0xff, checksum and addresses in native order |
| Ip.VerLen | src/protocols/ip/mod.rs:89 | the high nibble is version 4 and the low nibble the header length in 32-bit words; 0x45 for 20 bytes |
| Ip.BuildHeader | src/protocols/ip/mod.rs:86-101 | the header with id 129, protocol 1 and the struct checksum of the zeroed header in its checksum field |
| Ip.OutputAsWritten | src/protocols/ip/mod.rs:82-101 | as written, the total length field is 36 whatever the payload (finding F6) |
| Ip.WireFields | src/protocols/ip/mod.rs:88-100 | on either host the header carries 0x45, total length, id 129, TTL 0xff and protocol ICMP at their RFC 791 places |
| Ip.Output | src/protocols/ip/mod.rs:82-101 | the header has total length 20 plus the payload length modulo 2^16 (panicking when the u16 add overflows), id 129 and protocol ICMP whatever `ip_proto` is |
| Ip.TestIpHeader | src/protocols/ip/mod.rs:115-139 | the checksum of the header in `test_ip_header` is 0xC2E9 on either host |
| Ip.TestHeaderTotal | src/protocols/ip/mod.rs:115-139 | the same for any header with those field values |
| Icmp.HeaderBytes | src/protocols/ip/icmp.rs:106-112 | the ICMP header struct is 8 bytes long |
| Icmp.OutputAsWritten | src/protocols/ip/icmp.rs:106-117 | as written, the header checksum is stored in host order, followed by the data (finding F4) |
| Icmp.NetworkOrderVerifies | src/protocols/ip/icmp.rs:106-114 | the checksum stored big-endian makes the header's checksum 0 on either host |
| Icmp.Output | src/protocols/ip/icmp.rs:94-128 | the message is type, code, a verifying checksum, `values` in native order and the data, sent as ICMP from `src` to `dst` |
| Icmp.NativeChecksumFails | src/protocols/ip/icmp.rs:114 | on a little-endian host the header `OutputAsWritten` builds for `values` 0x100 has checksum 0x00ff, not 0 |
| Icmp.ReplyDst | src/protocols/ip/icmp.rs:75-77 | the reply's destination is always the interface's unicast address |
| Icmp.InputAsWritten | src/protocols/ip/icmp.rs:56-92 | as written, a verified echo request is answered with a payload starting at byte 7, one byte longer than the request's (finding F5) |
| Icmp.Input | src/protocols/ip/icmp.rs:56-92 | every outcome of `input`: `Err` exactly when the header checksum fails; nothing sent for a type other than echo; a panic when `len` is below 8; otherwise an echo reply of the same length with the request's code, identifier, sequence number and payload and a verifying checksum |
| Icmp.ReplyMirrorsRequest | src/protocols/ip/icmp.rs:73-89 | the reply built from a request keeps its length and every byte from the fourth on |
| Udp.UdpPcbs.constructor | src/protocols/ip/udp.rs:55-59 | a new table is empty |
| Udp.UdpPcbs.AddPcb | src/protocols/ip/udp.rs:61-68 | appends one Open PCB with the endpoint and an empty queue |
| Udp.UdpPcbs.DeletePcb | src/protocols/ip/udp.rs:70 | changes nothing, like the empty source function |
| Udp.UdpPcbs.SelectOpenPcb | src/protocols/ip/udp.rs:72-85 | returns the first Open PCB whose port matches and whose address matches or is a wildcard, and `None` only when there is none |
| Udp.PseudoHeader | src/protocols/ip/udp.rs:142-148 | the 12-byte pseudo-header carries zero, protocol 17 and the big-endian length |
| Udp.PseudoSeed | src/protocols/ip/udp.rs:96-106 | the complement of the pseudo-header checksum, the seed both directions pass to `cksum16` |
| Udp.Input | src/protocols/ip/udp.rs:88-118 | every outcome of `input`: a panic when `len` exceeds the data or the u32 sum would overflow; `Err` exactly when the checksum seeded with the pseudo-header is not 0; no panic for at most 0xffff bytes |
| Udp.HeaderMemory | src/protocols/ip/udp.rs:136-141 | the 8-byte header carries the two ports as stored in memory, the big-endian total length and a zero checksum |
| Udp.Datagram | src/protocols/ip/udp.rs:134-158 | the header is followed by the data, and the length field is 8 plus `len` modulo 2^16 |
| Udp.Output | src/protocols/ip/udp.rs:120-170 | panics when `len` exceeds the payload limit less 8 or the data; otherwise hands the datagram to IP as UDP between the two addresses |
| Udp.ChecksumFieldVerifies | src/protocols/ip/udp.rs:150-158 | writing the checksum into bytes 6 and 7 makes the seeded checksum of the datagram 0, with no u32 overflow |
| Udp.InputAcceptsOutput | src/protocols/ip/udp.rs:88-170 | `input` accepts every datagram `output` builds, on either host |
| Ethernet.Init | src/devices/ethernet.rs:138-154 | the device: type Ethernet, MTU 1500, header 14 bytes, address length 6, zero address, all-ones broadcast, IRQ 37 |
| Ethernet.ReadData | src/devices/ethernet.rs:54-94 | every outcome of reading a frame: a panic for fewer than 14 bytes; nothing for a frame addressed to neither the device nor broadcast; otherwise the ether type decoded big-endian and the bytes after the header |
| Ethernet.Frame | src/devices/ethernet.rs:103-125 | the frame is 14 header bytes plus the data, padded to at least 60 bytes |
| Ethernet.CopyIn | src/devices/ethernet.rs:119-120 | copies the bytes into the array at the offset and changes nothing else |
| Ethernet.Transmit | src/devices/ethernet.rs:96-136 | panics for more than 1500 bytes of data; otherwise sends `Frame` from the device address |
| Ethernet.FrameRoundTrip | src/devices/ethernet.rs:54-125 | a frame the device transmits to itself is read back with the same ether type and the data as prefix |
| Ethernet.BroadcastAccepted | src/devices/ethernet.rs:67-73 | a broadcast frame is accepted by the device |
| Protocols.FromU16 | src/protocols/mod.rs:24-30 | 0x0800 is IP, 0x0806 is ARP and everything else is Unknown, in both directions |
| Protocols.FromU16ToU16 | src/protocols/mod.rs:15-30 | decoding the number of a protocol type gives back the type |
| Protocols.FirstDevice | src/protocols/mod.rs:75-80 | the index of the first device with the IRQ, or `None` when no device has it |
| Protocols.Dispatch | src/protocols/mod.rs:66-81 | each entry queued for a protocol goes to the first device with its IRQ; none is lost when every IRQ is known |
| Protocols.FindDevice | src/protocols/mod.rs:75-80 | the device search loop finds `FirstDevice` |
| Protocols.FirstDeviceIs | src/protocols/mod.rs:75-80 | a device with the IRQ and none before it is the one found |
| Protocols.NetProtocol.constructor | src/protocols/mod.rs:51-56 | a protocol of the given type with an empty queue |
| Protocols.NetProtocol.HandleInput | src/protocols/mod.rs:59-82 | drains the queue and delivers exactly `Dispatch` of what it held |
| Protocols.NetProtocols.constructor | src/protocols/mod.rs:117-121 | an empty list of protocols |
| Protocols.NetProtocols.Register | src/protocols/mod.rs:123-125 | appends the protocol |
| Protocols.NetProtocols.HandleData | src/protocols/mod.rs:127-136 | drains every protocol's queue in order and delivers what each held |
| Arp.ArpTable.constructor | src/protocols/arp.rs:44-48 | a new cache is empty |
| Arp.ArpTable.Get | src/protocols/arp.rs:22-62 | a missing entry answers `None`; an entry older than 4 hours (14400 s) is removed and answers `None`; a younger one answers its hardware address; a timestamp in the future panics |
| Arp.ArpTable.Update | src/protocols/arp.rs:64-78 | inserts or replaces the resolved entry for the address with the time, and keeps every other entry |
| Arp.Message | src/protocols/arp.rs:110-118 | the 28-byte message on the wire: Ethernet and IPv4 address spaces, the operation big-endian, the IP addresses little-endian (`to_le_bytes`) on either host |
| Arp.ArpRequest | src/protocols/arp.rs:99-129 | a broadcast request from the device for the target address; a panic when the device has no IP interface |
| Arp.ArpReply | src/protocols/arp.rs:131-165 | a reply to the asking host carrying the device's address; a panic when the device has no IP interface |
| Arp.HeaderAcceptedIsWire | src/protocols/arp.rs:170-179 | the corrected header test accepts exactly the messages starting 00 01 08 00 06 04 (finding F1) |
| Arp.RawHeaderRejectsWire | src/protocols/arp.rs:170-179 | as written, a little-endian host rejects every well-formed message and a big-endian one accepts it (finding F1) |
| Arp.Input | src/protocols/arp.rs:167-201 | every outcome of `input`, for the header test as written and as corrected: `Err` exactly when that test fails, which as written is every well-formed message on a little-endian host (finding F1); a panic without an IP interface; nothing for another target; otherwise the sender is cached, and a request is answered with a reply whose send result is returned |
| Arp.Resolve | src/protocols/arp.rs:203-219 | `Err` for a non-Ethernet device; a fresh cache hit answers its address; a miss or a stale entry broadcasts one request and answers `None` |
| Arp.RequestReachesTarget | src/protocols/arp.rs:110-118 | on a little-endian host the target reads from a request its own address as target, the requester as sender and the request operation; the corrected header test accepts the request and the test as written rejects it |
| Tcp.NewPcb | src/protocols/ip/tcp.rs:170-206 | a Free PCB with no mode, wildcard endpoints, empty queues and buffer, zero window, no wait time and no channel |
| Tcp.NewQueueEntry | src/protocols/ip/tcp.rs:208-219 | a retransmission entry first and last sent now, with the 200 ms interval |
| Tcp.LeadingBelow | src/protocols/ip/tcp.rs:221-230 | the number of leading entries whose sequence number is below SND.UNA |
| Tcp.CleanRemovesAtMostOne | src/protocols/ip/tcp.rs:221-234 | `clean_data_queue` removes one entry, the last of the leading run below SND.UNA, and nothing when that run is empty |
| Tcp.CleanedQueue | src/protocols/ip/tcp.rs:221-234 | the queue `clean_data_queue` leaves: the last entry of the leading run below SND.UNA removed |
| Tcp.Released | src/protocols/ip/tcp.rs:236-246 | `release` makes the PCB Free with empty queue and backlog and keeps every other field |
| Tcp.SetWaitTime | src/protocols/ip/tcp.rs:324-331 | sets the deadline 30 s ahead when none is set; keeps an existing one |
| Tcp.Output | src/protocols/ip/tcp.rs:434-462 | the segment carries ISS on a SYN and SND.NXT otherwise, RCV.NXT, RCV.WND, the flags, the data and the PCB's endpoints; it is queued for retransmission exactly when it carries data or both SYN and FIN |
| Tcp.FirstDirect | src/protocols/ip/tcp.rs:280-299 | the first PCB bound to the local endpoint whose remote matches, or `None` when there is none |
| Tcp.LastWildListen | src/protocols/ip/tcp.rs:300-308 | the last LISTEN PCB with a wildcard remote on the local endpoint, or `None` when there is none |
| Tcp.Select | src/protocols/ip/tcp.rs:280-308 | what `select` returns is a PCB bound to the local endpoint |
| Tcp.SelectRules | src/protocols/ip/tcp.rs:280-308 | a direct match wins and is the first; otherwise the last wildcard LISTEN PCB; `None` only when neither exists; without a remote, any PCB on the endpoint |
| Tcp.FirstFree | src/protocols/ip/tcp.rs:266-274 | the first Free PCB, or `None` when all are in use |
| Tcp.AcceptableCases | src/protocols/ip/tcp.rs:680-705 | the four cases of the RFC 793 acceptability test, each as an if-and-only-if |
| Tcp.ZeroWindowAcceptsOnlyEmpty | src/protocols/ip/tcp.rs:680-705 | with a zero window only an empty segment at RCV.NXT is acceptable |
| Tcp.InOrderAcceptable | src/protocols/ip/tcp.rs:680-705 | an in-order segment that fits the window is acceptable |
| Tcp.Acceptable | src/protocols/ip/tcp.rs:679-705 | the acceptability test of the synchronized states, case by case on SEG.LEN and RCV.WND |
| Tcp.InWindow | src/protocols/ip/tcp.rs:685-702 | the window test RCV.NXT =< x < RCV.NXT+RCV.WND |
| Tcp.WindowUpdate | src/protocols/ip/tcp.rs:829-835 | the send window is taken when WL1 < SEG.SEQ, or WL1 = SEG.SEQ and WL2 =< SEG.ACK |
| Tcp.Control | src/protocols/ip/tcp.rs:493-516 | a reset segment: no data and a zero window |
| Tcp.HeaderLen | src/protocols/ip/tcp.rs:993 | the data offset gives a multiple of 4 of at most 60 bytes |
| Tcp.SegLen | src/protocols/ip/tcp.rs:993-1004 | SEG.LEN is the data length plus one for SYN and one for FIN, modulo 2^16; a panic when the header is longer than the segment |
| TcpSegment.PseudoHeader | src/protocols/ip/tcp.rs:959-965 | the 12-byte pseudo-header carries zero, protocol 6 and the big-endian length |
| TcpSegment.PseudoSeed | src/protocols/ip/tcp.rs:404-418 | the complement of the pseudo-header checksum, the seed both directions pass to `cksum16` |
| TcpSegment.HeaderMemory | src/protocols/ip/tcp.rs:393-403 | the header struct: ports in native order, sequence and acknowledgment numbers and window big-endian, offset 0x50, the flags, zero checksum and urgent pointer |
| TcpSegment.Wire | src/protocols/ip/tcp.rs:390-420 | the header with the checksum written big-endian into bytes 16 and 17, followed by the data |
| TcpSegment.Parse | src/protocols/ip/tcp.rs:942-1007 | every outcome of the checks in `input`: `Err` exactly when the checksum fails; a panic for a short or overlong length, a u32 overflow, a non-unicast address or a header longer than the segment; otherwise the decoded fields |
| TcpSegment.Verified | src/protocols/ip/tcp.rs:959-972 | the checksum test alone: a panic on overflow or overlong length, `Err` exactly when the sum is not 0 |
| TcpSegment.Decoded | src/protocols/ip/tcp.rs:985-1007 | the decoded sequence and acknowledgment numbers, window, flags, data and length, and the endpoints with local and remote swapped from the IP addresses |
| TcpSegment.SegLenOf | src/protocols/ip/tcp.rs:993-1000 | the SEG.LEN the receiver computes for a built segment: data plus one for SYN and one for FIN, modulo 2^16 |
| TcpSegment.WireChecksum | src/protocols/ip/tcp.rs:404-420 | every segment `output_segment` builds passes the receiver's checksum |
| TcpSegment.WireFields | src/protocols/ip/tcp.rs:393-403 | the receiver reads back the sequence and acknowledgment numbers, window, ports, offset and flags |
| TcpSegment.DecodedWire | src/protocols/ip/tcp.rs:985-1007 | decoding a built segment gives back its fields |
| TcpSegment.ParseWire | src/protocols/ip/tcp.rs:942-1007 | between unicast addresses, `input` accepts and decodes every segment `output_segment` builds |
| TcpArrive.ReleaseAt | src/protocols/ip/tcp.rs:236-246 | releasing a PCB keeps the table size and sends no segment |
| TcpArrive.OutputAt | src/protocols/ip/tcp.rs:434-462 | output through the table keeps its size and wakes nobody |
| TcpArrive.WakeAt | src/protocols/ip/tcp.rs:641-644 | a `send` on the PCB's channel is logged only when a thread waits on it |
| TcpArrive.NoConnection | src/protocols/ip/tcp.rs:483-518 | no PCB or a CLOSED one: a RST is dropped, an ACK gets a RST with SEQ = SEG.ACK, anything else a RST,ACK of SEQ+LEN |
| TcpArrive.ListenChild | src/protocols/ip/tcp.rs:555-568 | a socket listener works on the first Free slot, an RFC 793 listener on itself |
| TcpArrive.SynRecorded | src/protocols/ip/tcp.rs:627-632 | RCV.NXT = SEQ+1 and IRS = SEQ, and for an acceptable ACK SND.UNA = SEG.ACK with the queue cleaned |
| TcpArrive.Acknowledged | src/protocols/ip/tcp.rs:825-835 | SND.UNA = SEG.ACK, the queue cleaned, and the window, WL1 and WL2 taken by the `WindowUpdate` rule |
| TcpArrive.ListenArrives | src/protocols/ip/tcp.rs:529-590 | arrival in LISTEN never fails with `Err` and keeps the table size |
| TcpArrive.Forked | src/protocols/ip/tcp.rs:555-568 | a socket-mode listener claims the child slot as a Closed socket PCB whose parent is the listener; an RFC 793 listener changes nothing |
| TcpArrive.AcceptSyn | src/protocols/ip/tcp.rs:569-587 | keeps the table size |
| TcpArrive.SynSentArrives | src/protocols/ip/tcp.rs:591-662 | keeps the table size |
| TcpArrive.SynSentSyn | src/protocols/ip/tcp.rs:625-659 | keeps the table size |
| TcpArrive.SequenceStep | src/protocols/ip/tcp.rs:669-712 | an acceptable segment passes on the state unchanged; otherwise processing ends with the table size kept |
| TcpArrive.ResetStep | src/protocols/ip/tcp.rs:721-748 | without a stop the state is unchanged; a stop keeps the table size |
| TcpArrive.SynStep | src/protocols/ip/tcp.rs:752-768 | without a stop the state is unchanged; a stop keeps the table size |
| TcpArrive.ClosingAck | src/protocols/ip/tcp.rs:844-853 | keeps the table size |
| TcpArrive.AckStep | src/protocols/ip/tcp.rs:770-867 | ends with `Ok` or a panic, never `Err`, and keeps the table size |
| TcpArrive.SynReceivedAck | src/protocols/ip/tcp.rs:775-812 | ends with `Ok` or a panic and keeps the table size |
| TcpArrive.EstablishedAck | src/protocols/ip/tcp.rs:813-853 | ends with `Ok` when it stops and keeps the table size |
| TcpArrive.TextStep | src/protocols/ip/tcp.rs:871-894 | `Ok` or a panic, with the table size kept |
| TcpArrive.Buffered | src/protocols/ip/tcp.rs:880-882 | the data is appended to the buffer, RCV.NXT becomes SEQ plus SEG.LEN, the window shrinks by the length, and nothing else changes |
| TcpArrive.FinStep | src/protocols/ip/tcp.rs:896-939 | keeps the table size |
| TcpArrive.FinAcked | src/protocols/ip/tcp.rs:908-909 | RCV.NXT becomes SEQ+1 and exactly one ACK of SEQ+1 is sent |
| TcpArrive.FinMoves | src/protocols/ip/tcp.rs:911-938 | the state changes of a FIN in each state, the TIME-WAIT deadline, and no other PCB changed |
| TcpArrive.OtherArrives | src/protocols/ip/tcp.rs:669-939 | processing in a synchronized or SYN-RECEIVED state ends with `Ok` or a panic, never `Err` |
| TcpArrive.Arrive | src/protocols/ip/tcp.rs:464-940 | `segment_arrives` ends with `Ok` or a panic, never `Err` |
| TcpArrive.Input | src/protocols/ip/tcp.rs:942-1022 | TCP `input` answers `Err` exactly when the checksum fails and panics whenever parsing panics |
| TcpProperties.ListenRstAck | src/protocols/ip/tcp.rs:531-550 | in LISTEN a RST is ignored; an ACK is answered with a RST whose SEQ is SEG.ACK, and no PCB changes |
| TcpProperties.ListenSyn | src/protocols/ip/tcp.rs:552-588 | a SYN in LISTEN moves the chosen PCB to SYN-RECEIVED with the endpoints, RCV.NXT = SEQ+1, SND.UNA = ISS and SND.NXT = ISS+1, sends one SYN,ACK and changes no other PCB; a socket listener forks a child that records its parent |
| TcpProperties.UnacceptableDropped | src/protocols/ip/tcp.rs:706-711 | an unacceptable segment changes no PCB and no channel, and is answered with one ACK exactly when it carries RST |
| TcpProperties.EstablishedAckRules | src/protocols/ip/tcp.rs:821-843 | a new ACK advances SND.UNA, cleans the queue and updates the window by the WL1/WL2 rule; an ACK beyond SND.NXT and not below SND.UNA is answered with one ACK; an ACK below SND.UNA, or equal to it, changes nothing |
| TcpProperties.AckStepRules | src/protocols/ip/tcp.rs:770-867 | without ACK the segment is dropped; in LAST-ACK the ACK of our FIN releases the PCB and any other ACK is dropped; in TIME-WAIT a FIN restarts the deadline if none is set and processing goes on; SYN-RECEIVED and the established states go to their own rules |
| TcpProperties.SynReceivedAckRules | src/protocols/ip/tcp.rs:775-812 | an ACK in [SND.UNA, SND.NXT] establishes the connection and wakes its thread; with a parent it is appended to the parent's backlog and the parent's thread is woken, and an unknown parent panics; any other ACK gets one RST with SEQ = SEG.ACK and no PCB changes |
| TcpProperties.ClosingRules | src/protocols/ip/tcp.rs:844-853 | in CLOSING the ACK of our FIN moves to TIME-WAIT with the deadline set unless already set, wakes the thread and sends nothing; another ACK not beyond SND.NXT keeps CLOSING |
| TcpProperties.FinRules | src/protocols/ip/tcp.rs:897-939 | a FIN sets RCV.NXT to SEQ+1, sends one ACK, and moves the state as RFC 793 section 3.9 says for each state |
| TcpProperties.AcceptSynEffect | src/protocols/ip/tcp.rs:569-587 | the chosen PCB takes the endpoints, ISS, RCV.WND = buffer length, RCV.NXT = SEQ+1, SND.UNA = ISS, SND.NXT = ISS+1 and SYN-RECEIVED; one SYN,ACK with SEQ = ISS is sent; nobody is woken and no other PCB changes |
| TcpProperties.ReleaseEffect | src/protocols/ip/tcp.rs:236-246 | `release` frees only that PCB with its queue and backlog emptied, sends nothing and wakes its waiting thread with `false` |
| TcpProperties.SynSentRejects | src/protocols/ip/tcp.rs:594-661 | in SYN-SENT an ACK outside (ISS, SND.NXT] gets one RST with SEQ = SEG.ACK and nothing else changes; a RST releases the PCB when its ACK is acceptable and is dropped otherwise; a segment with neither RST nor SYN is dropped |
| TcpProperties.SynSentSynRules | src/protocols/ip/tcp.rs:624-659 | a SYN in SYN-SENT records IRS and RCV.NXT = SEQ+1 and takes an acceptable ACK as SND.UNA, cleaning the queue; with SND.UNA > ISS it enters ESTABLISHED, takes the send window, WL1 and WL2, sends one ACK and wakes the thread; otherwise it enters SYN-RECEIVED and sends one SYN,ACK with SEQ = ISS; no other PCB changes |
| TcpProperties.SynSentEstablished | src/protocols/ip/tcp.rs:633-646 | with our SYN acknowledged: ESTABLISHED with the segment's window, WL1 and WL2, one ACK, and a `true` wake-up when a thread waits |
| TcpProperties.SynSentSimultaneous | src/protocols/ip/tcp.rs:647-657 | with our SYN not acknowledged: SYN-RECEIVED, one SYN,ACK, nobody woken |
| TcpProperties.ResetRules | src/protocols/ip/tcp.rs:721-748 | the second check stops exactly on a RST in SYN-RECEIVED, ESTABLISHED, FIN-WAIT-1, FIN-WAIT-2 or CLOSE-WAIT, or on any segment in CLOSING, LAST-ACK or TIME-WAIT, and then releases the PCB |
| TcpProperties.SynRules | src/protocols/ip/tcp.rs:752-768 | the fourth check stops exactly on a SYN in a synchronized state, and then releases the PCB |
| TcpProperties.TextRules | src/protocols/ip/tcp.rs:871-894 | text in ESTABLISHED, FIN-WAIT-1 or FIN-WAIT-2 panics exactly when its length exceeds RCV.WND; otherwise buffer appended, RCV.NXT = SEQ+LEN, RCV.WND reduced, one ACK of SEQ+LEN sent, thread woken, no other PCB changed; any other segment changes nothing |
| TcpRetransmit.ResendTestInverted | src/protocols/ip/tcp.rs:357-361 | the resend test as written holds exactly when the intended one does not (finding F2) |
| TcpRetransmit.FreshEntryResentAsWritten | src/protocols/ip/tcp.rs:357-374 | as written, a new entry is sent again at every tick before its deadline and not once the deadline is reached (finding F2) |
| TcpRetransmit.TimeWaitElapsedAsWritten | src/protocols/ip/tcp.rs:338-339 | as written, the TIME-WAIT test panics without a deadline and while the deadline lies ahead (finding F3) |
| TcpRetransmit.TimeWaitElapsed | src/protocols/ip/tcp.rs:338-347 | the corrected test panics only without a deadline and reports whether the deadline has passed (finding F3) |
| TcpRetransmit.TimeWaitAsWrittenPanics | src/protocols/ip/tcp.rs:339 | for 30 s after entering TIME-WAIT every tick panics as written, while the corrected test answers "not elapsed" (finding F3) |
| TcpRetransmit.Resent | src/protocols/ip/tcp.rs:363-373 | the resent segment keeps the entry's sequence number, flags and data with the PCB's current RCV.NXT, window and endpoints |
| TcpRetransmit.SweepEntry | src/protocols/ip/tcp.rs:349-374 | for either reading of the resend test: an entry sent 12 s ago or more closes the PCB; any other entry is sent again exactly when the test holds, which as written is before its deadline (finding F2) and corrected is once the deadline has passed |
| TcpRetransmit.SweepQueueLength | src/protocols/ip/tcp.rs:349-375 | the queue sweep keeps the table size |
| TcpRetransmit.SweepPcbLength | src/protocols/ip/tcp.rs:333-377 | the sweep of one PCB keeps the table size |
| TcpRetransmit.SweepQueuePcbs | src/protocols/ip/tcp.rs:349-375 | for either reading, the queue sweep panics exactly on an entry first sent in the future; otherwise it closes the PCB exactly when some entry has expired and changes no other PCB |
| TcpRetransmit.SweepQueueAppends | src/protocols/ip/tcp.rs:349-375 | the queue sweep only appends to the segment log |
| TcpRetransmit.SweepQueueSound | src/protocols/ip/tcp.rs:349-375 | for either reading, every segment the queue sweep sends resends an entry of the queue that is not expired and passes that reading's resend test |
| TcpRetransmit.SweepQueueComplete | src/protocols/ip/tcp.rs:349-375 | for either reading, every entry that is not expired and passes the resend test is resent; corrected, these are exactly the entries past their deadline |
| TcpRetransmit.SweepFromPcbs | src/protocols/ip/tcp.rs:333-377 | for both readings of the two clock tests, the sweep from slot `i` on panics exactly when some later PCB's sweep does (as written, this includes every TIME-WAIT PCB whose deadline lies ahead), and otherwise leaves each of those PCBs released, closed or unchanged as `Swept` says |
| TcpRetransmit.RetransmitPcbs | src/protocols/ip/tcp.rs:333-377 | for both readings, `retransmit` panics exactly when some PCB's sweep does, and otherwise leaves each PCB as `Swept` says |
| TcpRetransmit.SweptKeepsQueues | src/protocols/ip/tcp.rs:333-348 | a Free PCB is skipped; a finished TIME-WAIT PCB is released; every other PCB keeps its queue |
| TcpRetransmit.SweepFromOut | src/protocols/ip/tcp.rs:333-377 | for both readings, the sweep from slot `i` only appends resent segments of PCBs from `i` on |
| TcpRetransmit.RetransmitOut | src/protocols/ip/tcp.rs:333-377 | for both readings, `retransmit` only appends resent segments of the table's PCBs |
| TcpRetransmit.RetransmitTimeWaitAsWritten | src/protocols/ip/tcp.rs:338-339 | as written, `retransmit` panics whenever some TIME-WAIT PCB has a deadline that lies ahead; corrected, that PCB stops the sweep only when its queue holds an entry sent in the future (finding F3) |
| TcpRetransmit.FreshEntrySweptAsWritten | src/protocols/ip/tcp.rs:357-374 | as written, the queue sweep resends a new entry at every tick before its deadline; corrected, it leaves the state unchanged (finding F2) |
| TcpRetransmit.ResendDueAsWritten | src/protocols/ip/tcp.rs:357-361 | the resend test as written: the deadline `last_sent_at + retry_interval` still lies in the future |
| TcpRetransmit.ResendDue | src/protocols/ip/tcp.rs:357-361 | the corrected resend test: the deadline has been reached |
| TcpRetransmit.SweepQueue | src/protocols/ip/tcp.rs:349-375 | the queue entries in order; an entry first sent in the future panics on `elapsed().unwrap()` |
| TcpRetransmit.SweepPcb | src/protocols/ip/tcp.rs:334-348 | one PCB: Free is skipped; TIME-WAIT runs the reading's deadline test, panicking as it does and releasing once the deadline has passed; otherwise the queue is swept |
| TcpRetransmit.SweepFrom | src/protocols/ip/tcp.rs:333-377 | the outer loop from slot `i` on, stopping at the first panic |
| TcpRetransmit.Retransmitted | src/protocols/ip/tcp.rs:333-377 | `retransmit`: the outer loop from slot 0 |
| TcpRetransmit.Swept | src/protocols/ip/tcp.rs:333-377 | the PCB as the sweep leaves it: released after a passed TIME-WAIT deadline, Closed when its queue is inspected and holds an expired entry, unchanged otherwise |
| TcpUser.OpenAt | src/protocols/ip/tcp.rs:1105-1112 | `open` claims the first Free PCB as a Closed socket and panics when none is free |
| TcpUser.BindAt | src/protocols/ip/tcp.rs:1187-1207 | `bind` answers `Ok` or a panic |
| TcpUser.ListenAt | src/protocols/ip/tcp.rs:1209-1215 | `listen` answers `Ok` or a panic |
| TcpUser.ActiveStart | src/protocols/ip/tcp.rs:1156-1162 | the active open keeps the table size and wakes nobody |
| TcpUser.FreePortFrom | src/protocols/ip/tcp.rs:1136-1147 | the port loop stops at the first port not in use, or at 65534; every port it passes is in use |
| TcpUser.ConnectAt | src/protocols/ip/tcp.rs:1114-1164 | `connect` answers `Ok` or a panic and keeps the table size |
| TcpUser.Rfc793OpenAt | src/protocols/ip/tcp.rs:1026-1079 | `rfc793_open` takes the first Free PCB in RFC 793 mode with the endpoints and a channel; passive opens enter LISTEN and send nothing; active opens send one SYN with ISS and enter SYN-SENT; panics when no PCB is free; no other PCB changes |
| TcpUser.Opened | src/protocols/ip/tcp.rs:1044-1054 | the claimed PCB: Closed, RFC 793 mode, local endpoint, remote when given, a channel, every other field kept |
| TcpUser.AcceptAt | src/protocols/ip/tcp.rs:1217-1235 | `accept` succeeds exactly on a socket in LISTEN, takes the front of its backlog when there is one, and keeps a channel |
| TcpUser.Take | src/protocols/ip/tcp.rs:1402-1408 | taking data answers `Ok` or a panic |
| TcpUser.ReceiveAt | src/protocols/ip/tcp.rs:1343-1408 | `receive` panics for an unknown id; refuses in CLOSED, LISTEN, SYN-SENT and SYN-RECEIVED; spins in CLOSING, LAST-ACK, TIME-WAIT and Free; waits when nothing is buffered; panics on the window underflow when less is buffered than the window |
| TcpUser.Look | src/protocols/ip/tcp.rs:1358-1400 | answers `Ok` or a panic |
| TcpUser.CloseAt | src/protocols/ip/tcp.rs:1411-1423 | `close` keeps the table size |
| TcpUser.ListenRules | src/protocols/ip/tcp.rs:1209-1215 | `listen` succeeds exactly on an existing socket-mode PCB, which enters LISTEN with every other field kept; nothing else changes |
| TcpUser.BindRules | src/protocols/ip/tcp.rs:1187-1207 | binding an endpoint already in use panics; a successful bind is on a socket PCB and sets only its local endpoint |
| TcpUser.BusyPortsTried | src/protocols/ip/tcp.rs:1136-1147 | when the port loop finds no free port, every port below its stop is the local port of some PCB |
| TcpUser.FreePortFound | src/protocols/ip/tcp.rs:1136-1147 | with fewer PCBs than dynamic ports, the port loop always finds a free one |
| TcpUser.ConnectSendsSyn | src/protocols/ip/tcp.rs:1114-1164 | a successful `connect` sends exactly one SYN with ISS to the remote from a non-zero local port, enters SYN-SENT with SND.UNA = ISS and SND.NXT = ISS+1, and changes no other PCB |
| TcpUser.ReceiveTakesFront | src/protocols/ip/tcp.rs:1402-1408 | delivered data is the front of the buffer, at most `size` bytes and at most the filled part, the rest stays buffered and the window grows by what was taken |
| TcpUser.CloseResets | src/protocols/ip/tcp.rs:1411-1423 | `close` sends one RST with SND.NXT, releases the PCB and changes no other |
| TcpUser.EmptyBufferZeroWindow | src/protocols/ip/tcp.rs:1156 | an active open on an empty receive buffer advertises a zero window, so only empty segments are acceptable afterwards |
| TcpControl.TcpPcbs.constructor | src/protocols/ip/tcp.rs:258-264 | sixteen new PCBs and empty logs |
| TcpControl.TcpPcbs.NewEntry | src/protocols/ip/tcp.rs:266-274 | claims the first Free PCB as Closed, or changes nothing when all are in use |
| TcpControl.TcpPcbs.Select | src/protocols/ip/tcp.rs:280-308 | the two loops of `select` find `Tcp.Select` |
| TcpControl.TcpPcbs.AddDataEntry | src/protocols/ip/tcp.rs:208-219 | appends one new entry to the PCB's queue and changes nothing else |
| TcpControl.TcpPcbs.CleanDataQueue | src/protocols/ip/tcp.rs:221-234 | the queue becomes `CleanedQueue` of SND.UNA and nothing else changes |
| TcpControl.TcpPcbs.Release | src/protocols/ip/tcp.rs:236-246 | the state becomes `ReleaseAt` of the old state |
| TcpControl.TcpPcbs.AddBacklog | src/protocols/ip/tcp.rs:248-250 | appends the id to the PCB's backlog and changes nothing else |
| TcpControl.TcpPcbs.SetWaitTime | src/protocols/ip/tcp.rs:324-331 | the PCB becomes `Tcp.SetWaitTime` of itself and nothing else changes |
| TcpControl.TcpPcbs.Wake | src/protocols/ip/tcp.rs:641-644 | the state becomes `WakeAt` of the old state |
| TcpControl.TcpPcbs.OutputSegment | src/protocols/ip/tcp.rs:379-432 | appends exactly the segment to the log, returns the data length and changes no PCB |
| TcpControl.TcpPcbs.Output | src/protocols/ip/tcp.rs:434-462 | the state becomes `OutputAt` of the old state |
| TcpControl.TcpPcbs.ArriveClosed | src/protocols/ip/tcp.rs:483-518 | the state becomes the reply to a segment for no connection, as `NoConnection` gives it |
| TcpControl.TcpPcbs.ArriveListen | src/protocols/ip/tcp.rs:529-590 | the state and result are those of `ListenArrives` |
| TcpControl.TcpPcbs.Fork | src/protocols/ip/tcp.rs:555-568 | chooses `ListenChild` and, when there is one, leaves the state `Forked` gives |
| TcpControl.TcpPcbs.AcceptSyn | src/protocols/ip/tcp.rs:569-587 | the state becomes `TcpArrive.AcceptSyn` of the old state |
| TcpControl.TcpPcbs.ArriveSynSent | src/protocols/ip/tcp.rs:591-662 | the state becomes `SynSentArrives` of the old state |
| TcpControl.TcpPcbs.RecordSyn | src/protocols/ip/tcp.rs:627-632 | the PCB becomes `SynRecorded` of itself and nothing else changes |
| TcpControl.TcpPcbs.SynSentSyn | src/protocols/ip/tcp.rs:625-659 | the state becomes `TcpArrive.SynSentSyn` of the old state |
| TcpControl.TcpPcbs.SequenceCheck | src/protocols/ip/tcp.rs:669-712 | the state and stop flag are those of `SequenceStep` |
| TcpControl.TcpPcbs.ResetCheck | src/protocols/ip/tcp.rs:721-748 | the state and stop flag are those of `ResetStep` |
| TcpControl.TcpPcbs.SynCheck | src/protocols/ip/tcp.rs:752-768 | the state and stop flag are those of `SynStep` |
| TcpControl.TcpPcbs.AckCheck | src/protocols/ip/tcp.rs:770-867 | the state, stop flag and result are those of `AckStep` |
| TcpControl.TcpPcbs.SynReceivedAck | src/protocols/ip/tcp.rs:775-812 | the state and result are those of `TcpArrive.SynReceivedAck` |
| TcpControl.TcpPcbs.EstablishedAck | src/protocols/ip/tcp.rs:813-853 | the state and stop flag are those of `TcpArrive.EstablishedAck` |
| TcpControl.TcpPcbs.AdvanceUna | src/protocols/ip/tcp.rs:825-836 | the PCB becomes `Acknowledged` of itself and nothing else changes |
| TcpControl.TcpPcbs.ClosingCheck | src/protocols/ip/tcp.rs:844-853 | the state becomes `ClosingAck` of the old state |
| TcpControl.TcpPcbs.ProcessText | src/protocols/ip/tcp.rs:871-894 | the state and result are those of `TextStep` |
| TcpControl.TcpPcbs.BufferText | src/protocols/ip/tcp.rs:880-882 | the PCB becomes `Buffered` of itself and nothing else changes |
| TcpControl.TcpPcbs.FinCheck | src/protocols/ip/tcp.rs:896-939 | the state becomes `FinStep` of the old state |
| TcpControl.TcpPcbs.AckFin | src/protocols/ip/tcp.rs:908-909 | the state becomes `FinAcked` of the old state |
| TcpControl.TcpPcbs.FinTransition | src/protocols/ip/tcp.rs:911-938 | the state becomes `FinMoves` of the old state |
| TcpControl.TcpPcbs.SegmentArrives | src/protocols/ip/tcp.rs:464-940 | the state and result are those of `Arrive` |
| TcpControl.TcpPcbs.Retransmit | src/protocols/ip/tcp.rs:333-377 | the loop over the table, with the clock tests as written or corrected, leaves the state and result `Retransmitted` gives for that reading |
| TcpControl.TcpPcbs.RetransmitQueue | src/protocols/ip/tcp.rs:349-375 | the loop over one queue, with the resend test as written or corrected, leaves the state and result of `SweepQueue` for that reading |
| TcpControl.TcpPcbs.Input | src/protocols/ip/tcp.rs:942-1022 | the state and result are those of `TcpArrive.Input` |
| TcpControl.TcpPcbs.Check | src/protocols/ip/tcp.rs:942-1007 | the checks before `segment_arrives` give exactly `TcpSegment.Parse` and change nothing |
| TcpControl.TcpPcbs.Verify | src/protocols/ip/tcp.rs:959-972 | the checksum loop gives exactly `TcpSegment.Verified` |
| TcpControl.TcpPcbs.Decode | src/protocols/ip/tcp.rs:985-1007 | the header reads give exactly `TcpSegment.Decoded` |
| TcpControl.TcpPcbs.Open | src/protocols/ip/tcp.rs:1105-1112 | the state and result are those of `OpenAt` |
| TcpControl.TcpPcbs.Bind | src/protocols/ip/tcp.rs:1187-1207 | the state and result are those of `BindAt` |
| TcpControl.TcpPcbs.SetListen | src/protocols/ip/tcp.rs:1209-1215 | the state and result are those of `ListenAt` |
| TcpControl.TcpPcbs.ActiveOpen | src/protocols/ip/tcp.rs:1156-1162 | the state becomes `ActiveStart` of the old state |
| TcpControl.TcpPcbs.Connect | src/protocols/ip/tcp.rs:1114-1164 | the state and result are those of `ConnectAt` |
| TcpControl.TcpPcbs.Rfc793Open | src/protocols/ip/tcp.rs:1026-1079 | the state and result are those of `Rfc793OpenAt` |
| TcpControl.TcpPcbs.Prepare | src/protocols/ip/tcp.rs:1044-1054 | the PCB becomes `Opened` of itself and nothing else changes |
| TcpControl.TcpPcbs.Accept | src/protocols/ip/tcp.rs:1217-1235 | the state and result are those of `AcceptAt` |
| TcpControl.TcpPcbs.Receive | src/protocols/ip/tcp.rs:1343-1408 | the state and result are those of `ReceiveAt` |
| TcpControl.TcpPcbs.LookAt | src/protocols/ip/tcp.rs:1358-1400 | the state and result are those of `Look` |
| TcpControl.TcpPcbs.TakeData | src/protocols/ip/tcp.rs:1402-1408 | the state and result are those of `Take` |
| TcpControl.TcpPcbs.Close | src/protocols/ip/tcp.rs:1411-1423 | the state becomes `CloseAt` of the old state |

## Left out

- Blocking: `rfc793_open`, `connect`, `accept` and `receive` block on an mpsc channel until the stack wakes them. The model stops at the point where the thread blocks. A wake-up is an entry of the `wakes` log. The values received after waking and `close_sockets` are not modelled.
- `send` (src/protocols/ip/tcp.rs:1259-1341) is not modelled.
- Channel sends: `.send(...).unwrap()` panics when the receiving thread has gone. The model assumes the receiver is still there.
- Concurrency: the mutexes, threads and interrupt handling are not modelled. Each operation is one atomic step on the state.
- Time and randomness: the wall clock is an integer `now`, and the ISS that `rand` chooses is a parameter.
- Device I/O: the TAP driver and the device write are not modelled. Frames, ARP messages, IP sends and TCP segments are returned or logged as values.
- Routing: `super::output` and the route lookup are not part of this model. `connect` takes the route's address as a parameter.
- IP_PAYLOAD_MAX_SIZE is not in the source files modelled. `Udp.Output` takes it as the parameter `payloadMax`.
- IP_ADDR_ANY is taken to be 0.
- Ethernet.Init: the device flags `DEVICE_FLAG_BROADCAST | DEVICE_FLAG_NEED_ARP`, the name `tap0`, the index and the driver type set at src/devices/ethernet.rs:138-154 are not part of the device model, which has no field for them.
- Checksum routine: tcp.rs and udp.rs import `cksum16` from `crate::util`, and src/util.rs defines a generic `cksum16<T: Sized>` that adds an odd trailing byte as the low half. The TCP and UDP checksums are modelled with the slice routine of src/utils/mod.rs, which adds it as the high half. The same import lists `be_to_le_u16`, `le_to_be_u32` and the rest, which only src/utils holds. `input` also passes `data: &[u8]`, which the `T: Sized` form cannot take. `Util.StructCksum16` models the other routine, and `Util.OddLengthDiffers` shows where they part.
- src/icmp.rs is an older duplicate of the ICMP echo code and is not part of this model.
- Raw memory access: the `unsafe` struct-to-bytes casts are replaced by explicit layouts with a host byte-order parameter. The `#[repr(packed)]` structs have no padding. Rust fixes neither the field order nor the padding of a struct without a `repr` attribute, such as the TCP and UDP `PseudoHeader` and `UdpHeader`. For those the model assumes the declared field order with no padding.
- TcpArrive.Arrive: requires that the u32 sequence-number additions do not overflow (`ArriveFits`). In the source such an add panics in a debug build and wraps in a release build. TcpArrive.OtherArrives, TcpArrive.ListenArrives, TcpArrive.TextStep and TcpUser.ActiveStart carry the same kind of requirement.
- Tcp.FlagIs and Tcp.FlagExists are plain predicates for the two flag tests of the source, without contracts of their own.
- TcpArrive.SynSentArrives, TcpArrive.AcceptSyn, TcpArrive.SynSentSyn, TcpArrive.ClosingAck, TcpArrive.FinStep and TcpArrive.TextStep: their own ensures say only that the table keeps its size and what kind of result they give. The behaviour of each step is proved in `TcpProperties`: LISTEN, SYN-SENT, the first, second and fourth checks, ACK, text and FIN.
- TcpArrive.AckStep, TcpArrive.SynReceivedAck and TcpArrive.EstablishedAck: their own ensures say only what kind of result they give and that the table keeps its size. `AckStepRules`, `SynReceivedAckRules`, `EstablishedAckRules` and `ClosingRules` state what they do. The case of a parent that is the PCB itself is not stated.
- TcpArrive.ResetStep, TcpArrive.SynStep and TcpArrive.SequenceStep: their own ensures say only that processing continues with the state unchanged, or stops with the table size kept. `ResetRules`, `SynRules` and `UnacceptableDropped` state when they stop and what they do then.
- TcpUser.BindAt, TcpUser.ListenAt, TcpUser.ConnectAt, TcpUser.Take, TcpUser.Look and TcpUser.CloseAt: their own ensures are weaker than the source's behaviour. `BindRules`, `ListenRules`, `ConnectSendsSyn`, `ReceiveTakesFront` and `CloseResets` state that behaviour for bind, listen, connect, receive and close.
- TcpArrive.Input: states the checksum outcome only; the segment's processing is `Arrive`.

## Findings

| source | as written | input that shows it | evidently intended | confidence | as-written member | corrected member |
|---|---|---|---|---|---|---|
| src/protocols/arp.rs:170-179 | the address spaces loaded from the message in host order are compared with 0x0001 and 0x0800 without `be_to_le_u16` | on a little-endian host, any well-formed message starting 00 01 08 00 06 04 loads as 0x0100 and 0x0008 and is rejected, including the host's own requests | convert with `be_to_le_u16` as `input` does for the operation | not executed | Arp.RawHeaderRejectsWire | Arp.HeaderAcceptedIsWire |
| src/protocols/ip/tcp.rs:361 | `timeout.elapsed().is_err()` decides the resend; `elapsed` fails while `timeout` is still in the future | an entry queued at time t is sent again at every tick in [t, t+200 ms) and never after its deadline | resend once the deadline `last_sent_at + retry_interval` has passed | not executed | TcpRetransmit.FreshEntrySweptAsWritten | TcpRetransmit.SweepQueueComplete |
| src/protocols/ip/tcp.rs:339 | `wait_time.unwrap().elapsed().unwrap()` is evaluated while the TIME-WAIT deadline is 30 s ahead | the first timer tick after a PCB enters TIME-WAIT through `set_wait_time` panics | a deadline in the future has not elapsed | not executed | TcpRetransmit.RetransmitTimeWaitAsWritten | TcpRetransmit.TimeWaitElapsed |
| src/protocols/ip/icmp.rs:114 | the checksum is stored into the u16 field in host order | little-endian host, type 0, code 0, values 0x100: the header's checksum comes out 0x00ff instead of 0, so the receiver discards the reply | store the checksum in network byte order | not executed | Icmp.NativeChecksumFails | Icmp.NetworkOrderVerifies |
| src/protocols/ip/icmp.rs:74 | the reply payload is `data[(icmp_hdr_size - 1)..]` | an echo request with 8 header bytes and payload P is answered with payload `data[7]` followed by P | the payload after the 8-byte header, `data[8..]` | not executed | Icmp.InputAsWritten | Icmp.ReplyMirrorsRequest |
| src/protocols/ip/mod.rs:85 | `size_of_val(&data)` with `data: &[u8]` measures the slice reference (16 bytes on a 64-bit host), not the payload | any payload, for example 4 bytes: total length 36 instead of 24 | `data.len()` | not executed | Ip.OutputAsWritten | Ip.Output |

Notes on the findings:

- The TIME-WAIT test of `retransmit` (F3) panics when the deadline lies in the future. The corrected model treats such a deadline as not yet elapsed. It keeps the panic when no deadline is set, which happens when FIN-WAIT-2 moves to TIME-WAIT at src/protocols/ip/tcp.rs:926-928 without `set_wait_time`.
- `Arp.Input`, the sweep of `TcpRetransmit` and `TcpControl.TcpPcbs.Retransmit` take a `Reading` parameter: `AsWritten` follows the code as it stands (findings F1, F2 and F3), `Corrected` the evidently intended test. Their contracts are proved for both. `TcpRetransmit.FreshEntrySweptAsWritten`, `TcpRetransmit.RetransmitTimeWaitAsWritten` and `Arp.RawHeaderRejectsWire` show where the two differ.
- The rest of the model uses the corrected members `Icmp.Output`, `Icmp.Input` and `Ip.Output`.

Behaviour kept as the source has it:

- `ip_output` writes protocol 1 (ICMP) whatever `ip_proto` is (mod.rs:95).
- `ip_output` builds a fresh id generator on every call, so the id is always 129 (mod.rs:87, 92).
- `segment_arrives` releases a CLOSING, LAST-ACK or TIME-WAIT PCB on any acceptable segment in its reset check.
- `receive` computes `buf.len() - window` as a `usize`, so it panics when less is buffered than the window.
