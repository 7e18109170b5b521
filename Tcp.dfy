/** The data model of the TCP implementation in src/protocols/ip/tcp.rs:
    flags, connection states, protocol control blocks (PCBs) and their
    retransmission queues, the segments handed to the IP layer, and the
    pure parts of the PCB operations. Times are integer microseconds on
    the clock `SystemTime::now` is read from. */
module Tcp {
  import opened Common
  import opened Ip

  const TCP_PCB_COUNT: nat := 16
  const TCP_DEFAULT_ITVL_MICROS: nat := 200000
  /** `TCP_RETRANSMIT_TIMOUT_SEC` (12 s) in microseconds. */
  const TCP_RETRANSMIT_TIMEOUT_MICROS: nat := 12 * 1000000
  /** `TCP_TIMEWAIT_SEC` (30 s, the stand-in for 2 MSL) in microseconds. */
  const TCP_TIMEWAIT_MICROS: nat := 30 * 1000000
  const TCP_SRC_PORT_MIN: u16 := 49152
  const TCP_SRC_PORT_MAX: u16 := 65535
  /** `size_of::<TcpHeader>()`: the packed header without options. */
  const TCP_HDR_SIZE: nat := 20

  const FIN: bv8 := 0x01
  const SYN: bv8 := 0x02
  const RST: bv8 := 0x04
  const PSH: bv8 := 0x08
  const ACK: bv8 := 0x10
  const URG: bv8 := 0x20

  /** `tcp_flag_is`: the six flag bits are exactly `flag`. */
  predicate FlagIs(flags: bv8, flag: bv8) {
    flags & 0x3f == flag
  }

  /** `tcp_flag_exists`: one of the bits of `flag` is among the six flag bits. */
  predicate FlagExists(flags: bv8, flag: bv8) {
    (flags & 0x3f) & flag != 0
  }

  datatype State =
    | Free | Closed | Listen | SynSent | SynReceived | Established
    | FinWait1 | FinWait2 | Closing | TimeWait | CloseWait | LastAck

  /** The states in which `segment_arrives` first checks the sequence
      number: every state past SYN-SENT. */
  predicate Synchronized(s: State) {
    s in {SynReceived, Established, FinWait1, FinWait2, CloseWait, Closing, LastAck, TimeWait}
  }

  datatype Mode = NotSet | Rfc793 | Socket

  datatype SendContext = SendContext(next: u32, una: u32, window: u16, urgPtr: u16, wl1: u32, wl2: u32)

  datatype RecvContext = RecvContext(next: u32, window: u16, urgPtr: u16)

  /** A segment kept for retransmission. */
  datatype QueueEntry = QueueEntry(firstSentAt: int, lastSentAt: int, retryInterval: nat,
                                   seqNum: u32, flags: bv8, data: seq<byte>)

  /** A protocol control block. `hasSender` says whether a user thread
      waits on the PCB's channel; the channel itself is not modelled. */
  datatype Pcb = Pcb(state: State, mode: Mode, local: Endpoint, remote: Endpoint,
                     snd: SendContext, iss: u32, rcv: RecvContext, irs: u32,
                     mtu: u16, mss: u16, buf: seq<byte>, waitTime: Option<int>,
                     hasSender: bool, queue: seq<QueueEntry>, parentId: Option<nat>,
                     backlog: seq<nat>)

  /** The fields of an arriving segment that `input` passes on. */
  datatype SegmentInfo = SegmentInfo(seqNum: u32, ackNum: u32, len: u16, window: u16, urgPtr: u16)

  /** One call of `output_segment`: the header fields and data handed to the IP layer. */
  datatype Segment = Segment(seqNum: u32, ackNum: u32, flags: bv8, window: u16, data: seq<byte>,
                             local: Endpoint, remote: Endpoint)

  /** A `send` on the channel of PCB `pcb`. */
  datatype Wakeup = Wakeup(pcb: nat, value: bool)

  /** `TcpPcb::new`. */
  function NewPcb(): (p: Pcb)
    ensures p.state == Free && p.mode == NotSet && p.queue == [] && p.backlog == [] && p.buf == []
    ensures p.local == Endpoint(IP_ADDR_ANY, 0) && p.remote == Endpoint(IP_ADDR_ANY, 0)
    ensures p.rcv.window == 0 && p.waitTime.None? && !p.hasSender && p.parentId.None?
  {
    Pcb(Free, NotSet, Endpoint(IP_ADDR_ANY, 0), Endpoint(IP_ADDR_ANY, 0),
        SendContext(0, 0, 0, 0, 0, 0), 0, RecvContext(0, 0, 0), 0, 0, 0, [], None,
        false, [], None, [])
  }

  /** The entry `add_data_entry` queues at time `now`. */
  function NewQueueEntry(seqNum: u32, flags: bv8, data: seq<byte>, now: int): (e: QueueEntry)
    ensures e.firstSentAt == now && e.lastSentAt == now && e.retryInterval == TCP_DEFAULT_ITVL_MICROS
    ensures e.seqNum == seqNum && e.flags == flags && e.data == data
  {
    QueueEntry(now, now, TCP_DEFAULT_ITVL_MICROS, seqNum, flags, data)
  }

  /** The number of entries at the front of `q` whose sequence number is
      below `una`. */
  function {:induction false} LeadingBelow(q: seq<QueueEntry>, una: u32): (k: nat)
    ensures k <= |q|
    ensures forall i :: 0 <= i < k ==> q[i].seqNum < una
    ensures k < |q| ==> q[k].seqNum >= una
  {
    if |q| == 0 || q[0].seqNum >= una then 0 else 1 + LeadingBelow(q[1..], una)
  }

  /** The queue `clean_data_queue` leaves: the last entry of the leading
      run below `una` is removed, if the run is not empty. */
  function CleanedQueue(q: seq<QueueEntry>, una: u32): seq<QueueEntry> {
    var k := LeadingBelow(q, una);
    if k == 0 then q else q[..k - 1] + q[k..]
  }

  /** `clean_data_queue` removes at most one entry, the last of the
      leading run below `una`, and nothing when the front entry is not
      below `una`. */
  lemma CleanRemovesAtMostOne(q: seq<QueueEntry>, una: u32)
    ensures var r := CleanedQueue(q, una);
            (|q| == 0 || q[0].seqNum >= una ==> r == q)
            && (|q| > 0 && q[0].seqNum < una ==>
                  exists k :: 0 <= k < |q| && r == q[..k] + q[k + 1..]
                              && (forall i :: 0 <= i <= k ==> q[i].seqNum < una)
                              && (k + 1 < |q| ==> q[k + 1].seqNum >= una))
  {
    var k := LeadingBelow(q, una);
    if |q| > 0 && q[0].seqNum < una {
      assert k > 0;
      assert CleanedQueue(q, una) == q[..k - 1] + q[k - 1 + 1..];
    }
  }

  /** `release`: the state becomes Free and the retransmission queue and
      the backlog are emptied; everything else is kept. */
  function Released(p: Pcb): (r: Pcb)
    ensures r.state == Free && r.queue == [] && r.backlog == []
    ensures r.(state := p.state, queue := p.queue, backlog := p.backlog) == p
  {
    p.(state := Free, queue := [], backlog := [])
  }

  /** `set_wait_time`: the TIME-WAIT deadline is set to `now` + 30 s only
      when there is none; an existing deadline is kept (the source adds
      to a copy and drops it). */
  function SetWaitTime(p: Pcb, now: int): (r: Pcb)
    ensures p.waitTime.None? ==> r == p.(waitTime := Some(now + TCP_TIMEWAIT_MICROS))
    ensures p.waitTime.Some? ==> r == p
  {
    if p.waitTime.None? then p.(waitTime := Some(now + TCP_TIMEWAIT_MICROS)) else p
  }

  datatype Emitted = Emitted(pcb: Pcb, segment: Segment)

  /** `output`: a segment with SYN carries the ISS, any other SND.NXT;
      it acknowledges RCV.NXT and advertises RCV.WND. It is queued for
      retransmission only when it carries data or both SYN and FIN, so a
      plain SYN is never queued. */
  function Output(p: Pcb, flags: bv8, data: seq<byte>, now: int): (e: Emitted)
    ensures e.segment.seqNum == (if FlagExists(flags, SYN) then p.iss else p.snd.next)
    ensures e.segment.ackNum == p.rcv.next && e.segment.window == p.rcv.window
    ensures e.segment.flags == flags && e.segment.data == data
    ensures e.segment.local == p.local && e.segment.remote == p.remote
    ensures e.pcb.(queue := p.queue) == p
    ensures (FlagExists(flags, SYN) && FlagExists(flags, FIN)) || |data| > 0 ==>
              e.pcb.queue == p.queue + [NewQueueEntry(e.segment.seqNum, flags, data, now)]
    ensures !((FlagExists(flags, SYN) && FlagExists(flags, FIN)) || |data| > 0) ==> e.pcb.queue == p.queue
  {
    var seqNum := if FlagExists(flags, SYN) then p.iss else p.snd.next;
    var queued := if (FlagExists(flags, SYN) && FlagExists(flags, FIN)) || |data| > 0
                  then p.(queue := p.queue + [NewQueueEntry(seqNum, flags, data, now)])
                  else p;
    Emitted(queued, Segment(seqNum, p.rcv.next, flags, p.rcv.window, data, p.local, p.remote))
  }

  /** A segment without data that `output_segment` sends from `local` to
      `remote` with a zero window (the resets of `segment_arrives`). */
  function Control(seqNum: u32, ackNum: u32, flags: bv8, local: Endpoint, remote: Endpoint): Segment {
    Segment(seqNum, ackNum, flags, 0, [], local, remote)
  }

  // ---- PCB selection --------------------------------------------------

  /** The local endpoint test of `select`: the same port, and the same
      address or the PCB's wildcard. */
  predicate LocalMatch(p: Pcb, local: Endpoint) {
    (p.local.address == IP_ADDR_ANY || p.local.address == local.address) && p.local.port == local.port
  }

  /** What makes `select` return a PCB at once: the local endpoint
      matches and either no remote is given or the remote addresses are
      equal (the remote port is not compared). */
  predicate DirectMatch(p: Pcb, local: Endpoint, remote: Option<Endpoint>) {
    LocalMatch(p, local) && (remote.None? || p.remote.address == remote.value.address)
  }

  /** A LISTEN PCB on the local endpoint with a wildcard remote. */
  predicate WildListen(p: Pcb, local: Endpoint) {
    LocalMatch(p, local) && p.state == Listen && p.remote.address == IP_ADDR_ANY && p.remote.port == 0
  }

  function {:induction false} FirstDirect(pcbs: seq<Pcb>, local: Endpoint, remote: Option<Endpoint>): (r: Option<nat>)
    ensures r.Some? ==> r.value < |pcbs| && DirectMatch(pcbs[r.value], local, remote)
                        && forall j :: 0 <= j < r.value ==> !DirectMatch(pcbs[j], local, remote)
    ensures r.None? ==> forall j :: 0 <= j < |pcbs| ==> !DirectMatch(pcbs[j], local, remote)
  {
    if |pcbs| == 0 then None
    else if DirectMatch(pcbs[0], local, remote) then Some(0)
    else
      match FirstDirect(pcbs[1..], local, remote)
      case None => None
      case Some(i) => Some(i + 1)
  }

  function {:induction false} LastWildListen(pcbs: seq<Pcb>, local: Endpoint): (r: Option<nat>)
    ensures r.Some? ==> r.value < |pcbs| && WildListen(pcbs[r.value], local)
                        && forall j :: r.value < j < |pcbs| ==> !WildListen(pcbs[j], local)
    ensures r.None? ==> forall j :: 0 <= j < |pcbs| ==> !WildListen(pcbs[j], local)
  {
    if |pcbs| == 0 then None
    else if WildListen(pcbs[|pcbs| - 1], local) then Some(|pcbs| - 1)
    else LastWildListen(pcbs[..|pcbs| - 1], local)
  }

  /** Extending the prefix scanned by one PCB. */
  lemma LastWildListenExtend(pcbs: seq<Pcb>, i: nat, local: Endpoint)
    requires i < |pcbs|
    ensures LastWildListen(pcbs[..i + 1], local)
            == if WildListen(pcbs[i], local) then Some(i) else LastWildListen(pcbs[..i], local)
  {
    assert pcbs[..i + 1][..i] == pcbs[..i];
  }

  /** The PCB `select` returns: the first direct match, failing that the
      last wildcard LISTEN PCB on the local endpoint. */
  function Select(pcbs: seq<Pcb>, local: Endpoint, remote: Option<Endpoint>): (r: Option<nat>)
    ensures r.Some? ==> r.value < |pcbs| && LocalMatch(pcbs[r.value], local)
  {
    var d := FirstDirect(pcbs, local, remote);
    if d.Some? then d else LastWildListen(pcbs, local)
  }

  /** The three rules of `select`. */
  lemma SelectRules(pcbs: seq<Pcb>, local: Endpoint, remote: Option<Endpoint>)
    ensures remote.None? ==>
              (Select(pcbs, local, remote).Some? <==> exists j :: 0 <= j < |pcbs| && LocalMatch(pcbs[j], local))
    ensures var r := Select(pcbs, local, remote);
            r.Some? && DirectMatch(pcbs[r.value], local, remote) ==>
              forall j :: 0 <= j < r.value ==> !DirectMatch(pcbs[j], local, remote)
    ensures var r := Select(pcbs, local, remote);
            r.Some? && !DirectMatch(pcbs[r.value], local, remote) ==>
              remote.Some? && WildListen(pcbs[r.value], local)
              && (forall j :: 0 <= j < |pcbs| ==> !DirectMatch(pcbs[j], local, remote))
              && (forall j :: r.value < j < |pcbs| ==> !WildListen(pcbs[j], local))
    ensures Select(pcbs, local, remote).None? ==>
              forall j :: 0 <= j < |pcbs| ==> !DirectMatch(pcbs[j], local, remote) && !WildListen(pcbs[j], local)
  {
    if remote.None? && exists j :: 0 <= j < |pcbs| && LocalMatch(pcbs[j], local) {
      var j :| 0 <= j < |pcbs| && LocalMatch(pcbs[j], local);
      assert DirectMatch(pcbs[j], local, remote);
    }
  }

  /** The slot `new_entry` claims: the first Free one. */
  function {:induction false} FirstFree(pcbs: seq<Pcb>): (r: Option<nat>)
    ensures r.Some? ==> r.value < |pcbs| && pcbs[r.value].state == Free
                        && forall j :: 0 <= j < r.value ==> pcbs[j].state != Free
    ensures r.None? ==> forall j :: 0 <= j < |pcbs| ==> pcbs[j].state != Free
  {
    if |pcbs| == 0 then None
    else if pcbs[0].state == Free then Some(0)
    else
      match FirstFree(pcbs[1..])
      case None => None
      case Some(i) => Some(i + 1)
  }

  // ---- Sequence acceptability -----------------------------------------

  /** The additions of the acceptability test do not overflow a `u32`. */
  predicate AcceptFits(rcv: RecvContext, seg: SegmentInfo) {
    rcv.next + rcv.window <= U32_MAX && seg.seqNum + seg.len <= U32_MAX
  }

  /** The first check of `segment_arrives` in the synchronized states. */
  predicate Acceptable(rcv: RecvContext, seg: SegmentInfo)
    requires AcceptFits(rcv, seg)
  {
    if seg.len < 1 then
      if rcv.window < 1 then seg.seqNum == rcv.next
      else rcv.next <= seg.seqNum && seg.seqNum < rcv.next + rcv.window
    else
      if rcv.window < 1 then false
      else (rcv.next <= seg.seqNum && seg.seqNum < rcv.next + rcv.window)
           || (rcv.next <= seg.seqNum + seg.len - 1 && seg.seqNum + seg.len - 1 < rcv.next + rcv.window)
  }

  /** `RCV.NXT =< x < RCV.NXT+RCV.WND`, the window test of RFC 793 section 3.3. */
  predicate InWindow(rcv: RecvContext, x: int) {
    rcv.next <= x < rcv.next + rcv.window
  }

  /** The four cases of the acceptability table of RFC 793 section 3.3,
      stated with the window test. */
  lemma AcceptableCases(rcv: RecvContext, seg: SegmentInfo)
    requires AcceptFits(rcv, seg)
    ensures seg.len == 0 && rcv.window == 0 ==> (Acceptable(rcv, seg) <==> seg.seqNum == rcv.next)
    ensures seg.len == 0 && rcv.window > 0 ==> (Acceptable(rcv, seg) <==> InWindow(rcv, seg.seqNum))
    ensures seg.len > 0 && rcv.window == 0 ==> !Acceptable(rcv, seg)
    ensures seg.len > 0 && rcv.window > 0 ==>
              (Acceptable(rcv, seg) <==> InWindow(rcv, seg.seqNum) || InWindow(rcv, seg.seqNum + seg.len - 1))
  {
  }

  /** With the window the PCBs start with (the length of an empty
      buffer), only an empty segment at exactly RCV.NXT is acceptable, so
      no segment carrying data, SYN or FIN ever passes the first check. */
  lemma ZeroWindowAcceptsOnlyEmpty(rcv: RecvContext, seg: SegmentInfo)
    requires AcceptFits(rcv, seg) && rcv.window == 0
    ensures Acceptable(rcv, seg) <==> seg.len == 0 && seg.seqNum == rcv.next
  {
  }

  /** A segment that starts at RCV.NXT and fits in a non-zero window is
      acceptable. */
  lemma InOrderAcceptable(rcv: RecvContext, seg: SegmentInfo)
    requires AcceptFits(rcv, seg) && rcv.window > 0
    requires seg.seqNum == rcv.next && seg.len <= rcv.window
    ensures Acceptable(rcv, seg)
  {
  }

  /** The window update rule of RFC 793 section 3.9 (ESTABLISHED, ACK):
      the send window is taken from a segment newer than the last update. */
  predicate WindowUpdate(snd: SendContext, seg: SegmentInfo) {
    snd.wl1 < seg.seqNum || (snd.wl1 == seg.seqNum && snd.wl2 <= seg.ackNum)
  }

  // ---- Segment length ---------------------------------------------------

  /** `((offset >> 4) << 2)`: the data offset in bytes. */
  function HeaderLen(offset: byte): (n: nat)
    ensures n % 4 == 0 && n <= 60
  {
    (offset / 16) * 4
  }

  /** The `seg_len` of `input`: the payload length plus one for SYN and
      one for FIN, truncated to `u16`. A data offset beyond `len`
      underflows the `usize` subtraction, which panics. */
  function SegLen(len: nat, offset: byte, flags: bv8): (r: Result<u16>)
    ensures r.Panic? <==> HeaderLen(offset) > len
    ensures r.Ok? ==> r.value == (len - HeaderLen(offset) + (if FlagExists(flags, SYN) then 1 else 0)
                                  + (if FlagExists(flags, FIN) then 1 else 0)) % 0x1_0000
    ensures r.Ok? && len - HeaderLen(offset) + 2 < 0x1_0000 ==>
              r.value >= len - HeaderLen(offset)
              && (r.value == len - HeaderLen(offset) <==> !FlagExists(flags, SYN) && !FlagExists(flags, FIN))
  {
    var hl := HeaderLen(offset);
    if hl > len then Panic("attempt to subtract with overflow")
    else
      var n := len - hl;
      var n1 := if FlagExists(flags, SYN) then n + 1 else n;
      var n2 := if FlagExists(flags, FIN) then n1 + 1 else n1;
      Ok(n2 % 0x1_0000)
  }
}
