/** The "SEGMENT ARRIVES" processing of RFC 793 section 3.9 as
    `segment_arrives` in src/protocols/ip/tcp.rs performs it, stated on
    the whole TCP state: the PCB table, the log of segments handed to the
    IP layer and the log of channel wake-ups. Each step of the source is
    one function; a step either ends the processing (`Done`) or hands the
    state to the next step (`Next`). */
module TcpArrive {
  import opened Common
  import Ip
  import opened Tcp
  import opened TcpSegment
  import opened Bytes

  datatype Stack = Stack(pcbs: seq<Pcb>, out: seq<Segment>, wakes: seq<Wakeup>)

  datatype Flow = Done(r: Result<Stack>) | Next(st: Stack)

  function UpdateAt(st: Stack, id: nat, p: Pcb): Stack
    requires id < |st.pcbs|
  {
    st.(pcbs := st.pcbs[id := p])
  }

  function Emit(st: Stack, s: Segment): Stack {
    st.(out := st.out + [s])
  }

  /** `send(v)` on the channel of PCB `id`, when a thread waits on it. */
  function WakeAt(st: Stack, id: nat, v: bool): Stack
    requires id < |st.pcbs|
  {
    if st.pcbs[id].hasSender then st.(wakes := st.wakes + [Wakeup(id, v)]) else st
  }

  /** `release` on PCB `id`, which also wakes its thread with `false`. */
  function ReleaseAt(st: Stack, id: nat): (r: Stack)
    requires id < |st.pcbs|
    ensures |r.pcbs| == |st.pcbs| && r.out == st.out
  {
    var w := WakeAt(st, id, false);
    UpdateAt(w, id, Released(w.pcbs[id]))
  }

  /** `output` on PCB `id`. */
  function OutputAt(st: Stack, id: nat, flags: bv8, data: seq<byte>, now: int): (r: Stack)
    requires id < |st.pcbs|
    ensures |r.pcbs| == |st.pcbs| && r.wakes == st.wakes
  {
    var e := Output(st.pcbs[id], flags, data, now);
    Stack(st.pcbs[id := e.pcb], st.out + [e.segment], st.wakes)
  }

  /** The additions `segment_arrives` performs do not overflow a `u32`:
      SEQ+1, SEQ+LEN, ISS+1 and RCV.NXT+RCV.WND of every PCB. */
  predicate ArriveFits(st: Stack, seg: SegmentInfo, iss: u32) {
    seg.seqNum + seg.len <= U32_MAX && seg.seqNum + 1 <= U32_MAX && iss < U32_MAX
    && forall i :: 0 <= i < |st.pcbs| ==> st.pcbs[i].rcv.next + st.pcbs[i].rcv.window <= U32_MAX
  }

  /** No PCB, or a CLOSED one: a reset is dropped; otherwise a reset is
      sent, with SEQ = SEG.ACK for an ACK and RST|ACK acknowledging
      SEG.SEQ+SEG.LEN for anything else. */
  function NoConnection(st: Stack, seg: SegmentInfo, flags: bv8, local: Ip.Endpoint, remote: Ip.Endpoint): Stack
    requires seg.seqNum + seg.len <= U32_MAX
  {
    if FlagExists(flags, RST) then st
    else if FlagExists(flags, ACK) then Emit(st, Control(seg.ackNum, 0, RST, local, remote))
    else Emit(st, Control(0, seg.seqNum + seg.len, RST | ACK, local, remote))
  }

  /** The PCB a SYN on LISTEN PCB `id` is processed on: a newly claimed
      slot for a socket-mode listener, the listener itself otherwise. */
  function ListenChild(pcbs: seq<Pcb>, id: nat): Option<nat>
    requires id < |pcbs|
  {
    if pcbs[id].mode == Socket then FirstFree(pcbs) else Some(id)
  }

  /** LISTEN: a reset is dropped, an ACK is answered with a reset, a SYN
      moves the chosen PCB to SYN-RECEIVED with a SYN|ACK, and anything
      else is dropped. No free slot for a socket-mode child panics. */
  function ListenArrives(st: Stack, id: nat, seg: SegmentInfo, flags: bv8, local: Ip.Endpoint, remote: Ip.Endpoint,
                         iss: u32, now: int): (r: Result<Stack>)
    requires id < |st.pcbs| && seg.seqNum + 1 <= U32_MAX && iss < U32_MAX
    ensures r.Ok? || r.Panic?
    ensures r.Ok? ==> |r.value.pcbs| == |st.pcbs|
  {
    if FlagExists(flags, RST) then Ok(st)
    else if FlagExists(flags, ACK) then Ok(Emit(st, Control(seg.ackNum, 0, RST, local, remote)))
    else if FlagExists(flags, SYN) then
      match ListenChild(st.pcbs, id)
      case None => Panic("TCP: failed to allocate new pcb.")
      case Some(c) => Ok(AcceptSyn(Forked(st, id, c), c, seg, local, remote, iss, now))
    else Ok(st)
  }

  /** The table once PCB `c` is chosen for a SYN on LISTEN PCB `id`: a
      claimed child of a socket-mode listener becomes a Closed socket-mode
      PCB whose parent is `id`; a listener in RFC 793 mode is used as it is. */
  function Forked(st: Stack, id: nat, c: nat): (r: Stack)
    requires id < |st.pcbs| && c < |st.pcbs|
    ensures r.out == st.out && r.wakes == st.wakes && |r.pcbs| == |st.pcbs|
    ensures st.pcbs[id].mode == Socket ==>
              r.pcbs == st.pcbs[c := st.pcbs[c].(state := Closed, mode := Socket, parentId := Some(id))]
    ensures st.pcbs[id].mode != Socket ==> r == st
  {
    if st.pcbs[id].mode == Socket
    then UpdateAt(st, c, st.pcbs[c].(state := Closed, mode := Socket, parentId := Some(id)))
    else st
  }

  /** The SYN of a LISTEN connection processed on PCB `c`: the endpoints
      are recorded, RCV.WND is the buffer length, RCV.NXT = SEQ+1, a
      SYN|ACK with SEQ = ISS is sent, then SND.NXT = ISS+1, SND.UNA = ISS
      and the state is SYN-RECEIVED. */
  function AcceptSyn(st: Stack, c: nat, seg: SegmentInfo, local: Ip.Endpoint, remote: Ip.Endpoint,
                     iss: u32, now: int): (r: Stack)
    requires c < |st.pcbs| && seg.seqNum + 1 <= U32_MAX && iss < U32_MAX
    ensures |r.pcbs| == |st.pcbs|
  {
    var p := st.pcbs[c];
    var p1 := p.(local := local, remote := remote,
                 rcv := p.rcv.(window := |p.buf| % 0x1_0000, next := seg.seqNum + 1), iss := iss);
    var b := OutputAt(UpdateAt(st, c, p1), c, SYN | ACK, [], now);
    UpdateAt(b, c, b.pcbs[c].(snd := b.pcbs[c].snd.(next := iss + 1, una := iss), state := SynReceived))
  }

  /** SYN-SENT: an ACK outside (ISS, SND.NXT] is answered with a reset; a
      reset closes the connection when its ACK is acceptable; a SYN
      records IRS and moves to ESTABLISHED (our SYN acknowledged) or
      SYN-RECEIVED (simultaneous open). */
  function SynSentArrives(st: Stack, id: nat, seg: SegmentInfo, flags: bv8, local: Ip.Endpoint, remote: Ip.Endpoint,
                          now: int): (r: Stack)
    requires id < |st.pcbs| && seg.seqNum + 1 <= U32_MAX
    ensures |r.pcbs| == |st.pcbs|
  {
    var p := st.pcbs[id];
    if FlagExists(flags, ACK) && (seg.ackNum <= p.iss || seg.ackNum > p.snd.next) then
      Emit(st, Control(seg.ackNum, 0, RST, local, remote))
    else
      var acceptable := FlagExists(flags, ACK) && p.snd.una <= seg.ackNum <= p.snd.next;
      if FlagExists(flags, RST) then
        if acceptable then ReleaseAt(st, id) else st
      else if FlagExists(flags, SYN) then SynSentSyn(st, id, seg, acceptable, now)
      else st
  }

  /** A SYN-SENT PCB after the SYN of `seg`: RCV.NXT = SEQ+1, IRS = SEQ,
      and, for an acceptable ACK, SND.UNA = SEG.ACK with the queue cleaned. */
  function SynRecorded(p: Pcb, seg: SegmentInfo, acceptable: bool): Pcb
    requires seg.seqNum + 1 <= U32_MAX
  {
    var p1 := p.(rcv := p.rcv.(next := seg.seqNum + 1), irs := seg.seqNum);
    if acceptable then
      var u := p1.(snd := p1.snd.(una := seg.ackNum));
      u.(queue := CleanedQueue(u.queue, u.snd.una))
    else p1
  }

  /** The SYN of a SYN-SENT connection: IRS = SEQ and RCV.NXT = SEQ+1; an
      acceptable ACK advances SND.UNA and cleans the queue. With our SYN
      acknowledged (SND.UNA > ISS) the connection is ESTABLISHED, an ACK
      is sent, the send window is initialised and the user is woken;
      otherwise it is SYN-RECEIVED and a SYN|ACK is sent. */
  function SynSentSyn(st: Stack, id: nat, seg: SegmentInfo, acceptable: bool, now: int): (r: Stack)
    requires id < |st.pcbs| && seg.seqNum + 1 <= U32_MAX
    ensures |r.pcbs| == |st.pcbs|
  {
    var p2 := SynRecorded(st.pcbs[id], seg, acceptable);
    if p2.snd.una > p2.iss then
      var a := OutputAt(UpdateAt(st, id, p2.(state := Established)), id, ACK, [], now);
      var q := a.pcbs[id];
      WakeAt(UpdateAt(a, id, q.(snd := q.snd.(window := seg.window, wl1 := seg.seqNum, wl2 := seg.ackNum))), id, true)
    else
      OutputAt(UpdateAt(st, id, p2.(state := SynReceived)), id, SYN | ACK, [], now)
  }

  /** First check: in a synchronized state an unacceptable segment ends
      the processing; it is answered with an ACK only when it carries RST. */
  function SequenceStep(st: Stack, id: nat, seg: SegmentInfo, flags: bv8, now: int): (f: Flow)
    requires id < |st.pcbs| && AcceptFits(st.pcbs[id].rcv, seg)
    ensures f.Next? ==> f.st == st
    ensures f.Done? ==> f.r.Ok? && |f.r.value.pcbs| == |st.pcbs|
  {
    if Synchronized(st.pcbs[id].state) && !Acceptable(st.pcbs[id].rcv, seg) then
      Done(Ok(if FlagExists(flags, RST) then OutputAt(st, id, ACK, [], now) else st))
    else Next(st)
  }

  /** Second check: a reset closes SYN-RECEIVED, ESTABLISHED, FIN-WAIT-1,
      FIN-WAIT-2 and CLOSE-WAIT; CLOSING, LAST-ACK and TIME-WAIT are
      closed by any segment that reaches this check, reset or not. */
  function ResetStep(st: Stack, id: nat, s: State, flags: bv8): (f: Flow)
    requires id < |st.pcbs|
    ensures f.Next? ==> f.st == st
    ensures f.Done? ==> f.r.Ok? && |f.r.value.pcbs| == |st.pcbs|
  {
    if s == SynReceived && FlagExists(flags, RST) then Done(Ok(ReleaseAt(st, id)))
    else if s in {Established, FinWait1, FinWait2, CloseWait} && FlagExists(flags, RST) then Done(Ok(ReleaseAt(st, id)))
    else if s in {Closing, LastAck, TimeWait} then Done(Ok(ReleaseAt(st, id)))
    else Next(st)
  }

  /** Fourth check: a SYN in a synchronized state closes the connection. */
  function SynStep(st: Stack, id: nat, s: State, flags: bv8): (f: Flow)
    requires id < |st.pcbs|
    ensures f.Next? ==> f.st == st
    ensures f.Done? ==> f.r.Ok? && |f.r.value.pcbs| == |st.pcbs|
  {
    if Synchronized(s) && FlagExists(flags, SYN) then Done(Ok(ReleaseAt(st, id))) else Next(st)
  }

  /** CLOSING: the ACK of our FIN moves to TIME-WAIT and starts the timer. */
  function ClosingAck(st: Stack, id: nat, s: State, seg: SegmentInfo, now: int): (r: Stack)
    requires id < |st.pcbs|
    ensures |r.pcbs| == |st.pcbs|
  {
    if s == Closing && seg.ackNum == st.pcbs[id].snd.next then
      WakeAt(UpdateAt(st, id, SetWaitTime(st.pcbs[id].(state := TimeWait), now)), id, true)
    else st
  }

  /** Fifth check: segments without ACK are dropped. SYN-RECEIVED moves to
      ESTABLISHED on an ACK in [SND.UNA, SND.NXT] and puts itself on its
      parent's backlog, and answers any other ACK with a reset. The
      established states advance SND.UNA, clean the queue and update the
      send window; an ACK beyond SND.NXT is answered with an ACK. */
  function AckStep(st: Stack, id: nat, s: State, seg: SegmentInfo, flags: bv8,
                   local: Ip.Endpoint, remote: Ip.Endpoint, now: int): (f: Flow)
    requires id < |st.pcbs|
    ensures f.Done? ==> f.r.Ok? || f.r.Panic?
    ensures f.Next? ==> |f.st.pcbs| == |st.pcbs|
    ensures f.Done? && f.r.Ok? ==> |f.r.value.pcbs| == |st.pcbs|
  {
    var p := st.pcbs[id];
    if !FlagExists(flags, ACK) then Done(Ok(st))
    else if s == SynReceived then SynReceivedAck(st, id, seg, local, remote)
    else if s in {Established, FinWait1, FinWait2, CloseWait, Closing} then EstablishedAck(st, id, s, seg, now)
    else if s == LastAck then
      Done(Ok(if seg.ackNum == p.snd.next then ReleaseAt(st, id) else st))
    else if s == TimeWait then
      Next(if FlagExists(flags, FIN) then UpdateAt(st, id, SetWaitTime(p, now)) else st)
    else Next(st)
  }

  /** SYN-RECEIVED: an ACK in [SND.UNA, SND.NXT] establishes the
      connection, wakes its user and puts it on its parent's backlog,
      waking the parent's user; any other ACK is answered with a reset. */
  function SynReceivedAck(st: Stack, id: nat, seg: SegmentInfo, local: Ip.Endpoint, remote: Ip.Endpoint): (f: Flow)
    requires id < |st.pcbs|
    ensures f.Done? ==> f.r.Ok? || f.r.Panic?
    ensures f.Next? ==> |f.st.pcbs| == |st.pcbs|
    ensures f.Done? && f.r.Ok? ==> |f.r.value.pcbs| == |st.pcbs|
  {
    var p := st.pcbs[id];
    if p.snd.una <= seg.ackNum <= p.snd.next then
      var a := WakeAt(UpdateAt(st, id, p.(state := Established)), id, true);
      match p.parentId
      case None => Next(a)
      case Some(pid) =>
        if pid >= |a.pcbs| then Done(Panic("TCP: PCB with specified id was not found."))
        else
          var b := UpdateAt(a, pid, a.pcbs[pid].(backlog := a.pcbs[pid].backlog + [id]));
          Next(WakeAt(b, pid, true))
    else Done(Ok(Emit(st, Control(seg.ackNum, 0, RST, local, remote))))
  }

  /** A PCB after a new acknowledgment: SND.UNA = SEG.ACK, the queue
      cleaned, and the send window, WL1 and WL2 taken from the segment when
      `WindowUpdate` allows. */
  function Acknowledged(p: Pcb, seg: SegmentInfo): Pcb {
    var p1 := p.(snd := p.snd.(una := seg.ackNum));
    var p2 := p1.(queue := CleanedQueue(p1.queue, p1.snd.una));
    if WindowUpdate(p2.snd, seg)
    then p2.(snd := p2.snd.(window := seg.window, wl1 := seg.seqNum, wl2 := seg.ackNum))
    else p2
  }

  /** ESTABLISHED, FIN-WAIT-1, FIN-WAIT-2, CLOSE-WAIT and CLOSING: an ACK
      in (SND.UNA, SND.NXT] advances SND.UNA, cleans the queue and updates
      the send window by the rule of `WindowUpdate`; an ACK below SND.UNA
      is ignored; any other ACK beyond SND.NXT is answered with an ACK and
      ends the processing; what remains (SEG.ACK = SND.UNA) is ignored. */
  function EstablishedAck(st: Stack, id: nat, s: State, seg: SegmentInfo, now: int): (f: Flow)
    requires id < |st.pcbs|
    ensures f.Next? ==> |f.st.pcbs| == |st.pcbs|
    ensures f.Done? ==> f.r.Ok? && |f.r.value.pcbs| == |st.pcbs|
  {
    var p := st.pcbs[id];
    if p.snd.una < seg.ackNum <= p.snd.next then
      Next(ClosingAck(UpdateAt(st, id, Acknowledged(p, seg)), id, s, seg, now))
    else if seg.ackNum < p.snd.una then Next(ClosingAck(st, id, s, seg, now))
    else if seg.ackNum > p.snd.next then Done(Ok(OutputAt(st, id, ACK, [], now)))
    else Next(ClosingAck(st, id, s, seg, now))
  }

  /** Seventh step: in ESTABLISHED, FIN-WAIT-1 and FIN-WAIT-2 non-empty
      text is appended to the buffer, RCV.NXT advances to SEQ+LEN, the
      window shrinks by the text length (a `u16` subtraction that panics
      when it underflows) and an ACK is sent. */
  function TextStep(st: Stack, id: nat, s: State, seg: SegmentInfo, data: seq<byte>, len: nat, now: int): (r: Result<Stack>)
    requires id < |st.pcbs| && seg.seqNum + seg.len <= U32_MAX
    ensures r.Ok? || r.Panic?
    ensures r.Ok? ==> |r.value.pcbs| == |st.pcbs|
  {
    var p := st.pcbs[id];
    if s in {Established, FinWait1, FinWait2} && len > 0 then
      if p.rcv.window < len % 0x1_0000 then Panic("attempt to subtract with overflow")
      else Ok(WakeAt(OutputAt(UpdateAt(st, id, Buffered(p, seg, data, len)), id, ACK, [], now), id, true))
    else Ok(st)
  }

  /** The PCB after taking in the text of a segment: the data is appended
      to the buffer, RCV.NXT moves past the segment and RCV.WND shrinks by
      the data length (as a `u16`). */
  function Buffered(p: Pcb, seg: SegmentInfo, data: seq<byte>, len: nat): (r: Pcb)
    requires seg.seqNum + seg.len <= U32_MAX && len % 0x1_0000 <= p.rcv.window
    ensures r.buf == p.buf + data && r.rcv.next == seg.seqNum + seg.len
    ensures r.rcv.window + len % 0x1_0000 == p.rcv.window
    ensures r.(buf := p.buf, rcv := p.rcv) == p && r.rcv.urgPtr == p.rcv.urgPtr
  {
    p.(buf := p.buf + data, rcv := p.rcv.(next := seg.seqNum + seg.len, window := p.rcv.window - len % 0x1_0000))
  }

  /** Eighth step: a FIN sets RCV.NXT to SEQ+1, is acknowledged, and moves
      SYN-RECEIVED and ESTABLISHED to CLOSE-WAIT, FIN-WAIT-1 to TIME-WAIT
      (our FIN acknowledged) or CLOSING, and FIN-WAIT-2 to TIME-WAIT. */
  function FinStep(st: Stack, id: nat, s: State, seg: SegmentInfo, flags: bv8, now: int): (r: Stack)
    requires id < |st.pcbs| && seg.seqNum + 1 <= U32_MAX
    ensures |r.pcbs| == |st.pcbs|
  {
    if !FlagExists(flags, FIN) || s in {Closed, Listen, SynSent} then st
    else FinMoves(FinAcked(st, id, seg, now), id, s, seg, now)
  }

  /** A FIN advances RCV.NXT past it and is acknowledged. */
  function FinAcked(st: Stack, id: nat, seg: SegmentInfo, now: int): (r: Stack)
    requires id < |st.pcbs| && seg.seqNum + 1 <= U32_MAX
    ensures |r.pcbs| == |st.pcbs| && r.pcbs[id].rcv.next == seg.seqNum + 1
    ensures |r.out| == |st.out| + 1 && r.out[|st.out|].flags == ACK && r.out[|st.out|].ackNum == seg.seqNum + 1
  {
    var p := st.pcbs[id].(rcv := st.pcbs[id].rcv.(next := seg.seqNum + 1));
    OutputAt(UpdateAt(st, id, p), id, ACK, [], now)
  }

  /** The state a FIN moves the PCB to, once acknowledged. */
  function FinMoves(a: Stack, id: nat, s: State, seg: SegmentInfo, now: int): (r: Stack)
    requires id < |a.pcbs|
    ensures |r.pcbs| == |a.pcbs| && r.out == a.out
    ensures s in {SynReceived, Established} ==> r.pcbs[id].state == CloseWait
    ensures s == FinWait1 ==> r.pcbs[id].state == (if seg.ackNum == a.pcbs[id].snd.next then TimeWait else Closing)
    ensures s == FinWait2 ==> r.pcbs[id].state == TimeWait
    ensures s == TimeWait ==> r.pcbs[id].state == a.pcbs[id].state && r.pcbs[id].waitTime.Some?
    ensures forall j :: 0 <= j < |a.pcbs| && j != id ==> r.pcbs[j] == a.pcbs[j]
  {
    var q := a.pcbs[id];
    if s == SynReceived || s == Established then WakeAt(UpdateAt(a, id, q.(state := CloseWait)), id, true)
    else if s == FinWait1 then
      if seg.ackNum == q.snd.next then UpdateAt(a, id, SetWaitTime(q.(state := TimeWait), now))
      else UpdateAt(a, id, q.(state := Closing))
    else if s == FinWait2 then UpdateAt(a, id, q.(state := TimeWait))
    else if s == TimeWait then UpdateAt(a, id, SetWaitTime(q, now))
    else a
  }

  /** The steps after LISTEN and SYN-SENT, all deciding on `s`, the state
      the PCB had when the segment arrived. */
  function OtherArrives(st: Stack, id: nat, seg: SegmentInfo, flags: bv8, data: seq<byte>, len: nat,
                        local: Ip.Endpoint, remote: Ip.Endpoint, now: int): (r: Result<Stack>)
    requires id < |st.pcbs| && AcceptFits(st.pcbs[id].rcv, seg) && seg.seqNum + 1 <= U32_MAX
    ensures r.Ok? || r.Panic?
  {
    var s := st.pcbs[id].state;
    match SequenceStep(st, id, seg, flags, now)
    case Done(r) => r
    case Next(a) =>
      match ResetStep(a, id, s, flags)
      case Done(r) => r
      case Next(b) =>
        match SynStep(b, id, s, flags)
        case Done(r) => r
        case Next(c) =>
          match AckStep(c, id, s, seg, flags, local, remote, now)
          case Done(r) => r
          case Next(d) =>
            match TextStep(d, id, s, seg, data, len, now)
            case Ok(e) => Ok(FinStep(e, id, s, seg, flags, now))
            case Err => Err
            case Panic(m) => Panic(m)
  }

  /** `segment_arrives`: the PCB is the one `select` finds for the
      segment's endpoints. */
  function Arrive(st: Stack, seg: SegmentInfo, flags: bv8, data: seq<byte>, len: nat,
                  local: Ip.Endpoint, remote: Ip.Endpoint, iss: u32, now: int): (r: Result<Stack>)
    requires ArriveFits(st, seg, iss)
    ensures r.Ok? || r.Panic?
  {
    var sel := Select(st.pcbs, local, Some(remote));
    if sel.None? || st.pcbs[sel.value].state == Closed then Ok(NoConnection(st, seg, flags, local, remote))
    else if st.pcbs[sel.value].state == Listen then ListenArrives(st, sel.value, seg, flags, local, remote, iss, now)
    else if st.pcbs[sel.value].state == SynSent then Ok(SynSentArrives(st, sel.value, seg, flags, local, remote, now))
    else OtherArrives(st, sel.value, seg, flags, data, len, local, remote, now)
  }

  /** The no-overflow requirement of `Arrive` for what `input` parses. */
  predicate InputFits(st: Stack, target: Endian, data: seq<byte>, len: nat, src: u32, dst: u32,
                      iface: Ip.Interface, iss: u32)
    requires |data| >= TCP_HDR_SIZE
  {
    var p := Parse(target, data, len, src, dst, iface);
    p.Ok? ==> ArriveFits(st, p.value.seg, iss)
  }

  /** `input`: a segment that passes the checks of `Parse` is processed
      by `Arrive`; one with a wrong checksum is dropped with an error. */
  function Input(st: Stack, target: Endian, data: seq<byte>, len: nat, src: u32, dst: u32,
                 iface: Ip.Interface, iss: u32, now: int): (r: Result<Stack>)
    requires |data| >= TCP_HDR_SIZE && InputFits(st, target, data, len, src, dst, iface, iss)
    ensures r == Err <==> Parse(target, data, len, src, dst, iface) == Err
    ensures Parse(target, data, len, src, dst, iface).Panic? ==> r.Panic?
  {
    var p := Parse(target, data, len, src, dst, iface);
    if p.Panic? then Panic(p.reason)
    else if p.Err? then Err
    else Arrive(st, p.value.seg, p.value.flags, p.value.data, p.value.len, p.value.local, p.value.remote, iss, now)
  }
}
