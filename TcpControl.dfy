/** The PCB table `TcpPcbs` of src/protocols/ip/tcp.rs with the
    operations that update it in place. The methods of `TcpPcb` act on
    the PCB in slot `id` of the table. `out` is the log of segments handed
    to `output_segment`, `wakeups` the log of channel sends. Every method
    is tied to the functions of `Tcp`, `TcpArrive` and `TcpRetransmit`. */
module TcpControl {
  import opened Common
  import Ip
  import opened Bytes
  import opened InetChecksum
  import opened Tcp
  import opened TcpSegment
  import opened TcpArrive
  import opened TcpRetransmit
  import opened TcpUser

  class TcpPcbs {
    var entries: seq<Pcb>
    var out: seq<Segment>
    ghost var wakeups: seq<Wakeup>

    ghost function State(): Stack
      reads this
    {
      Stack(entries, out, wakeups)
    }

    /** `TcpPcbs::new`: sixteen fresh PCBs. */
    constructor ()
      ensures entries == seq(TCP_PCB_COUNT, _ => NewPcb()) && out == [] && wakeups == []
    {
      var e: seq<Pcb> := [];
      var i := 0;
      while i < TCP_PCB_COUNT
        invariant 0 <= i <= TCP_PCB_COUNT && e == seq(i, _ => NewPcb())
      {
        e := e + [NewPcb()];
        i := i + 1;
      }
      entries := e;
      out := [];
      wakeups := [];
    }

    /** `new_entry`: the lowest Free slot becomes Closed; no other slot changes. */
    method NewEntry() returns (r: Option<nat>)
      modifies this
      ensures r == FirstFree(old(entries))
      ensures r.Some? ==> entries == old(entries)[r.value := old(entries)[r.value].(state := Closed)]
      ensures r.None? ==> entries == old(entries)
      ensures out == old(out) && wakeups == old(wakeups)
    {
      var i := 0;
      while i < |entries|
        invariant 0 <= i <= |entries|
        invariant forall j :: 0 <= j < i ==> entries[j].state != Free
      {
        if entries[i].state == Free {
          entries := entries[i := entries[i].(state := Closed)];
          return Some(i);
        }
        i := i + 1;
      }
      return None;
    }

    /** `select`, which returns the index of the PCB it finds. */
    method Select(local: Ip.Endpoint, remote: Option<Ip.Endpoint>) returns (r: Option<nat>)
      ensures r == Tcp.Select(entries, local, remote)
    {
      var listen: Option<nat> := None;
      var i := 0;
      while i < |entries|
        invariant 0 <= i <= |entries|
        invariant forall j :: 0 <= j < i ==> !DirectMatch(entries[j], local, remote)
        invariant listen == LastWildListen(entries[..i], local)
      {
        var pcb := entries[i];
        if (pcb.local.address == Ip.IP_ADDR_ANY || pcb.local.address == local.address) && pcb.local.port == local.port {
          if remote.None? {
            return Some(i);
          }
          if pcb.remote.address == remote.value.address {
            return Some(i);
          }
          if pcb.state == Listen {
            if pcb.remote.address == Ip.IP_ADDR_ANY && pcb.remote.port == 0 {
              listen := Some(i);
            }
          }
        }
        LastWildListenExtend(entries, i, local);
        i := i + 1;
      }
      assert entries[..|entries|] == entries;
      return listen;
    }

    /** `add_data_entry` at time `now`. */
    method AddDataEntry(id: nat, seqNum: u32, flags: bv8, data: seq<byte>, now: int)
      modifies this
      requires id < |entries|
      ensures entries == old(entries)[id := old(entries)[id].(queue := old(entries)[id].queue
                                                                        + [NewQueueEntry(seqNum, flags, data, now)])]
      ensures out == old(out) && wakeups == old(wakeups)
    {
      var entry := QueueEntry(now, now, TCP_DEFAULT_ITVL_MICROS, seqNum, flags, data);
      entries := entries[id := entries[id].(queue := entries[id].queue + [entry])];
    }

    /** `clean_data_queue`. */
    method CleanDataQueue(id: nat)
      modifies this
      requires id < |entries|
      ensures entries == old(entries)[id := old(entries)[id].(queue := CleanedQueue(old(entries)[id].queue,
                                                                                     old(entries)[id].snd.una))]
      ensures out == old(out) && wakeups == old(wakeups)
    {
      var q := entries[id].queue;
      var una := entries[id].snd.una;
      var found := false;
      var index := 0;
      var i := 0;
      while i < |q|
        invariant 0 <= i <= |q|
        invariant forall j :: 0 <= j < i ==> q[j].seqNum < una
        invariant found <==> i > 0
        invariant found ==> index == i - 1
      {
        if q[i].seqNum >= una {
          break;
        }
        found := true;
        index := i;
        i := i + 1;
      }
      assert i == LeadingBelow(q, una);
      if found {
        q := q[..index] + q[index + 1..];
      }
      entries := entries[id := entries[id].(queue := q)];
    }

    /** `release`. */
    method Release(id: nat)
      modifies this
      requires id < |entries|
      ensures State() == ReleaseAt(old(State()), id)
    {
      entries := entries[id := entries[id].(state := Free)];
      if entries[id].hasSender {
        wakeups := wakeups + [Wakeup(id, false)];
      }
      entries := entries[id := entries[id].(queue := [])];
      entries := entries[id := entries[id].(backlog := [])];
    }

    /** `add_backlog`. */
    method AddBacklog(id: nat, pcbId: nat)
      modifies this
      requires id < |entries|
      ensures entries == old(entries)[id := old(entries)[id].(backlog := old(entries)[id].backlog + [pcbId])]
      ensures out == old(out) && wakeups == old(wakeups)
    {
      entries := entries[id := entries[id].(backlog := entries[id].backlog + [pcbId])];
    }

    /** `set_wait_time` on PCB `id`. */
    method SetWaitTime(id: nat, now: int)
      modifies this
      requires id < |entries|
      ensures entries == old(entries)[id := Tcp.SetWaitTime(old(entries)[id], now)]
      ensures out == old(out) && wakeups == old(wakeups)
    {
      if entries[id].waitTime.None? {
        entries := entries[id := entries[id].(waitTime := Some(now + TCP_TIMEWAIT_MICROS))];
      }
    }

    /** Wakes the thread waiting on PCB `id`, if any. */
    method Wake(id: nat, v: bool)
      modifies this
      requires id < |entries|
      ensures State() == WakeAt(old(State()), id, v)
    {
      if entries[id].hasSender {
        wakeups := wakeups + [Wakeup(id, v)];
      }
    }

    /** `output_segment`: the segment is handed to the IP layer; the
        result is the length of its data. */
    method OutputSegment(seqNum: u32, ackNum: u32, flags: bv8, window: u16, data: seq<byte>,
                         local: Ip.Endpoint, remote: Ip.Endpoint) returns (n: nat)
      modifies this
      ensures out == old(out) + [Segment(seqNum, ackNum, flags, window, data, local, remote)]
      ensures n == |data| && entries == old(entries) && wakeups == old(wakeups)
    {
      out := out + [Segment(seqNum, ackNum, flags, window, data, local, remote)];
      n := |data|;
    }

    /** `output` on PCB `id`. */
    method Output(id: nat, flags: bv8, data: seq<byte>, now: int) returns (n: nat)
      modifies this
      requires id < |entries|
      ensures State() == OutputAt(old(State()), id, flags, data, now) && n == |data|
    {
      var seqNum := entries[id].snd.next;
      if FlagExists(flags, SYN) {
        seqNum := entries[id].iss;
      }
      if (FlagExists(flags, SYN) && FlagExists(flags, FIN)) || |data| > 0 {
        AddDataEntry(id, seqNum, flags, data, now);
      }
      var pcb := entries[id];
      n := OutputSegment(seqNum, pcb.rcv.next, flags, pcb.rcv.window, data, pcb.local, pcb.remote);
    }

    // ---- segment_arrives ------------------------------------------------

    /** No PCB, or a CLOSED one. */
    method ArriveClosed(seg: SegmentInfo, flags: bv8, local: Ip.Endpoint, remote: Ip.Endpoint)
      modifies this
      requires seg.seqNum + seg.len <= U32_MAX
      ensures State() == NoConnection(old(State()), seg, flags, local, remote)
    {
      if FlagExists(flags, RST) {
        return;
      }
      if FlagExists(flags, ACK) {
        var _ := OutputSegment(seg.ackNum, 0, RST, 0, [], local, remote);
      } else {
        var _ := OutputSegment(0, seg.seqNum + seg.len, RST | ACK, 0, [], local, remote);
      }
    }

    /** The LISTEN branch. */
    method ArriveListen(id: nat, seg: SegmentInfo, flags: bv8, local: Ip.Endpoint, remote: Ip.Endpoint,
                        iss: u32, now: int) returns (r: Result<()>)
      modifies this
      requires id < |entries| && seg.seqNum + 1 <= U32_MAX && iss < U32_MAX
      ensures var f := ListenArrives(old(State()), id, seg, flags, local, remote, iss, now);
              (r.Panic? <==> f.Panic?) && (f.Ok? ==> r == Ok(()) && State() == f.value)
    {
      if FlagExists(flags, RST) {
        return Ok(());
      }
      if FlagExists(flags, ACK) {
        var _ := OutputSegment(seg.ackNum, 0, RST, 0, [], local, remote);
        return Ok(());
      }
      if FlagExists(flags, SYN) {
        var c := Fork(id);
        if c.None? {
          return Panic("TCP: failed to allocate new pcb.");
        }
        AcceptSyn(c.value, seg, local, remote, iss, now);
        return Ok(());
      }
      return Ok(());
    }

    /** The PCB a SYN on LISTEN PCB `id` is processed on. */
    method Fork(id: nat) returns (c: Option<nat>)
      modifies this
      requires id < |entries|
      ensures c == ListenChild(old(entries), id)
      ensures c.Some? ==> State() == Forked(old(State()), id, c.value)
    {
      if entries[id].mode == Socket {
        c := NewEntry();
        if c.None? {
          return;
        }
        entries := entries[c.value := entries[c.value].(mode := Socket)];
        entries := entries[c.value := entries[c.value].(parentId := Some(id))];
      } else {
        c := Some(id);
      }
    }

    /** A SYN processed on PCB `c` for a LISTEN connection. */
    method AcceptSyn(c: nat, seg: SegmentInfo, local: Ip.Endpoint, remote: Ip.Endpoint, iss: u32, now: int)
      modifies this
      requires c < |entries| && seg.seqNum + 1 <= U32_MAX && iss < U32_MAX
      ensures State() == TcpArrive.AcceptSyn(old(State()), c, seg, local, remote, iss, now)
    {
      var p := entries[c];
      p := p.(local := local, remote := remote);
      p := p.(rcv := p.rcv.(window := |p.buf| % 0x1_0000));
      p := p.(rcv := p.rcv.(next := seg.seqNum + 1));
      p := p.(iss := iss);
      entries := entries[c := p];
      var _ := Output(c, SYN | ACK, [], now);
      p := entries[c];
      p := p.(snd := p.snd.(next := iss + 1));
      p := p.(snd := p.snd.(una := iss));
      p := p.(state := SynReceived);
      entries := entries[c := p];
    }

    /** The SYN-SENT branch. */
    method ArriveSynSent(id: nat, seg: SegmentInfo, flags: bv8, local: Ip.Endpoint, remote: Ip.Endpoint, now: int)
      modifies this
      requires id < |entries| && seg.seqNum + 1 <= U32_MAX
      ensures State() == SynSentArrives(old(State()), id, seg, flags, local, remote, now)
    {
      var acceptable := false;
      if FlagExists(flags, ACK) {
        if seg.ackNum <= entries[id].iss || seg.ackNum > entries[id].snd.next {
          var _ := OutputSegment(seg.ackNum, 0, RST, 0, [], local, remote);
          return;
        }
        if entries[id].snd.una <= seg.ackNum && seg.ackNum <= entries[id].snd.next {
          acceptable := true;
        }
      }
      if FlagExists(flags, RST) {
        if acceptable {
          Release(id);
        }
        return;
      }
      if FlagExists(flags, SYN) {
        SynSentSyn(id, seg, acceptable, now);
      }
    }

    method RecordSyn(id: nat, seg: SegmentInfo, acceptable: bool)
      modifies this
      requires id < |entries| && seg.seqNum + 1 <= U32_MAX
      ensures entries == old(entries)[id := SynRecorded(old(entries)[id], seg, acceptable)]
      ensures out == old(out) && wakeups == old(wakeups)
    {
      var p := entries[id];
      p := p.(rcv := p.rcv.(next := seg.seqNum + 1));
      p := p.(irs := seg.seqNum);
      entries := entries[id := p];
      if acceptable {
        entries := entries[id := entries[id].(snd := entries[id].snd.(una := seg.ackNum))];
        CleanDataQueue(id);
      }
    }

    /** The SYN of a SYN-SENT connection. */
    method SynSentSyn(id: nat, seg: SegmentInfo, acceptable: bool, now: int)
      modifies this
      requires id < |entries| && seg.seqNum + 1 <= U32_MAX
      ensures State() == TcpArrive.SynSentSyn(old(State()), id, seg, acceptable, now)
    {
      RecordSyn(id, seg, acceptable);
      if entries[id].snd.una > entries[id].iss {
        entries := entries[id := entries[id].(state := Established)];
        var _ := Output(id, ACK, [], now);
        var p := entries[id];
        p := p.(snd := p.snd.(window := seg.window));
        p := p.(snd := p.snd.(wl1 := seg.seqNum));
        p := p.(snd := p.snd.(wl2 := seg.ackNum));
        entries := entries[id := p];
        Wake(id, true);
      } else {
        entries := entries[id := entries[id].(state := SynReceived)];
        var _ := Output(id, SYN | ACK, [], now);
      }
    }

    /** First check of the synchronized states. */
    method SequenceCheck(id: nat, seg: SegmentInfo, flags: bv8, now: int) returns (stop: bool)
      modifies this
      requires id < |entries| && AcceptFits(entries[id].rcv, seg)
      ensures var f := SequenceStep(old(State()), id, seg, flags, now);
              stop == f.Done? && (f.Done? ==> State() == f.r.value) && (f.Next? ==> State() == f.st)
    {
      if Synchronized(entries[id].state) {
        var rcv := entries[id].rcv;
        var acceptable := false;
        if seg.len < 1 {
          if rcv.window < 1 {
            if seg.seqNum == rcv.next {
              acceptable := true;
            }
          } else {
            if rcv.next <= seg.seqNum && seg.seqNum < rcv.next + rcv.window {
              acceptable := true;
            }
          }
        } else {
          if rcv.window < 1 {
          } else {
            if (rcv.next <= seg.seqNum && seg.seqNum < rcv.next + rcv.window)
               || (rcv.next <= seg.seqNum + seg.len - 1 && seg.seqNum + seg.len - 1 < rcv.next + rcv.window)
            {
              acceptable := true;
            }
          }
        }
        if !acceptable {
          if FlagExists(flags, RST) {
            var _ := Output(id, ACK, [], now);
          }
          return true;
        }
      }
      return false;
    }

    /** Second check: the reset bit. */
    method ResetCheck(id: nat, s: State, flags: bv8) returns (stop: bool)
      modifies this
      requires id < |entries|
      ensures var f := ResetStep(old(State()), id, s, flags);
              stop == f.Done? && (f.Done? ==> State() == f.r.value) && (f.Next? ==> State() == f.st)
    {
      if s == SynReceived {
        if FlagExists(flags, RST) {
          Release(id);
          return true;
        }
      } else if s == Established || s == FinWait1 || s == FinWait2 || s == CloseWait {
        if FlagExists(flags, RST) {
          Release(id);
          return true;
        }
      } else if s == Closing || s == LastAck || s == TimeWait {
        Release(id);
        return true;
      }
      return false;
    }

    /** Fourth check: the SYN bit. */
    method SynCheck(id: nat, s: State, flags: bv8) returns (stop: bool)
      modifies this
      requires id < |entries|
      ensures var f := SynStep(old(State()), id, s, flags);
              stop == f.Done? && (f.Done? ==> State() == f.r.value) && (f.Next? ==> State() == f.st)
    {
      if Synchronized(s) {
        if FlagExists(flags, SYN) {
          Release(id);
          return true;
        }
      }
      return false;
    }

    /** Fifth check: the ACK field. */
    method AckCheck(id: nat, s: State, seg: SegmentInfo, flags: bv8, local: Ip.Endpoint, remote: Ip.Endpoint,
                    now: int) returns (stop: bool, r: Result<()>)
      modifies this
      requires id < |entries|
      ensures var f := AckStep(old(State()), id, s, seg, flags, local, remote, now);
              stop == f.Done? && (f.Next? ==> State() == f.st)
              && (f.Done? ==> (r.Panic? <==> f.r.Panic?) && (f.r.Ok? ==> r == Ok(()) && State() == f.r.value))
    {
      r := Ok(());
      if !FlagExists(flags, ACK) {
        return true, r;
      }
      if s == SynReceived {
        stop, r := SynReceivedAck(id, seg, local, remote);
        return;
      } else if s == Established || s == FinWait1 || s == FinWait2 || s == CloseWait || s == Closing {
        stop := EstablishedAck(id, s, seg, now);
        return;
      } else if s == LastAck {
        if seg.ackNum == entries[id].snd.next {
          Release(id);
        }
        return true, r;
      } else if s == TimeWait {
        if FlagExists(flags, FIN) {
          SetWaitTime(id, now);
        }
      }
      return false, r;
    }

    /** The ACK of a SYN-RECEIVED connection. */
    method SynReceivedAck(id: nat, seg: SegmentInfo, local: Ip.Endpoint, remote: Ip.Endpoint)
      returns (stop: bool, r: Result<()>)
      modifies this
      requires id < |entries|
      ensures var f := TcpArrive.SynReceivedAck(old(State()), id, seg, local, remote);
              stop == f.Done? && (f.Next? ==> r == Ok(()) && State() == f.st)
              && (f.Done? ==> (r.Panic? <==> f.r.Panic?) && (f.r.Ok? ==> r == Ok(()) && State() == f.r.value))
    {
      r := Ok(());
      var parentId: Option<nat> := None;
      if entries[id].snd.una <= seg.ackNum && seg.ackNum <= entries[id].snd.next {
        entries := entries[id := entries[id].(state := Established)];
        Wake(id, true);
        if entries[id].parentId.Some? {
          parentId := entries[id].parentId;
        }
      } else {
        var _ := OutputSegment(seg.ackNum, 0, RST, 0, [], local, remote);
        return true, r;
      }
      if parentId.Some? {
        if parentId.value >= |entries| {
          return true, Panic("TCP: PCB with specified id was not found.");
        }
        AddBacklog(parentId.value, id);
        Wake(parentId.value, true);
      }
      return false, r;
    }

    /** The ACK of a connection in ESTABLISHED, FIN-WAIT-1, FIN-WAIT-2,
        CLOSE-WAIT or CLOSING. */
    method EstablishedAck(id: nat, s: State, seg: SegmentInfo, now: int) returns (stop: bool)
      modifies this
      requires id < |entries|
      ensures var f := TcpArrive.EstablishedAck(old(State()), id, s, seg, now);
              stop == f.Done? && (f.Next? ==> State() == f.st) && (f.Done? ==> State() == f.r.value)
    {
      ghost var st0 := State();
      if entries[id].snd.una < seg.ackNum && seg.ackNum <= entries[id].snd.next {
        AdvanceUna(id, seg);
        ghost var st1 := State();
        assert st1 == UpdateAt(st0, id, Acknowledged(st0.pcbs[id], seg));
        ClosingCheck(id, s, seg, now);
        assert State() == ClosingAck(st1, id, s, seg, now);
        assert TcpArrive.EstablishedAck(st0, id, s, seg, now) == Next(ClosingAck(st1, id, s, seg, now));
        return false;
      } else if seg.ackNum >= entries[id].snd.una && seg.ackNum > entries[id].snd.next {
        var _ := Output(id, ACK, [], now);
        return true;
      }
      ClosingCheck(id, s, seg, now);
      return false;
    }

    method AdvanceUna(id: nat, seg: SegmentInfo)
      modifies this
      requires id < |entries|
      ensures entries == old(entries)[id := Acknowledged(old(entries)[id], seg)]
      ensures out == old(out) && wakeups == old(wakeups)
    {
      entries := entries[id := entries[id].(snd := entries[id].snd.(una := seg.ackNum))];
      CleanDataQueue(id);
      var snd := entries[id].snd;
      if snd.wl1 < seg.seqNum || (snd.wl1 == seg.seqNum && snd.wl2 <= seg.ackNum) {
        snd := snd.(window := seg.window);
        snd := snd.(wl1 := seg.seqNum);
        snd := snd.(wl2 := seg.ackNum);
        entries := entries[id := entries[id].(snd := snd)];
      }
    }

    method ClosingCheck(id: nat, s: State, seg: SegmentInfo, now: int)
      modifies this
      requires id < |entries|
      ensures State() == ClosingAck(old(State()), id, s, seg, now)
    {
      if s == Closing {
        if seg.ackNum == entries[id].snd.next {
          entries := entries[id := entries[id].(state := TimeWait)];
          SetWaitTime(id, now);
          Wake(id, true);
        }
      }
    }

    /** Seventh step: segment text. */
    method ProcessText(id: nat, s: State, seg: SegmentInfo, data: seq<byte>, len: nat, now: int)
      returns (r: Result<()>)
      modifies this
      requires id < |entries| && seg.seqNum + seg.len <= U32_MAX
      ensures var f := TextStep(old(State()), id, s, seg, data, len, now);
              (r.Panic? <==> f.Panic?) && (f.Ok? ==> r == Ok(()) && State() == f.value)
    {
      if s == Established || s == FinWait1 || s == FinWait2 {
        if len > 0 {
          if entries[id].rcv.window < len % 0x1_0000 {
            return Panic("attempt to subtract with overflow");
          }
          ghost var st0 := State();
          BufferText(id, seg, data, len);
          ghost var st1 := State();
          assert st1 == UpdateAt(st0, id, Buffered(st0.pcbs[id], seg, data, len));
          var _ := Output(id, ACK, [], now);
          Wake(id, true);
        }
      }
      return Ok(());
    }

    /** The text of a segment joins the buffer of PCB `id`. */
    method BufferText(id: nat, seg: SegmentInfo, data: seq<byte>, len: nat)
      modifies this
      requires id < |entries| && seg.seqNum + seg.len <= U32_MAX && len % 0x1_0000 <= entries[id].rcv.window
      ensures entries == old(entries)[id := Buffered(old(entries)[id], seg, data, len)]
      ensures out == old(out) && wakeups == old(wakeups)
    {
      var p := entries[id];
      p := p.(buf := p.buf + data);
      p := p.(rcv := p.rcv.(next := seg.seqNum + seg.len));
      p := p.(rcv := p.rcv.(window := p.rcv.window - len % 0x1_0000));
      entries := entries[id := p];
    }

    /** Eighth step: the FIN bit. */
    method FinCheck(id: nat, s: State, seg: SegmentInfo, flags: bv8, now: int)
      modifies this
      requires id < |entries| && seg.seqNum + 1 <= U32_MAX
      ensures State() == FinStep(old(State()), id, s, seg, flags, now)
    {
      if FlagExists(flags, FIN) {
        if s == Closed || s == Listen || s == SynSent {
          return;
        }
        AckFin(id, seg, now);
        FinTransition(id, s, seg, now);
      }
    }

    /** A FIN advances RCV.NXT and is acknowledged. */
    method AckFin(id: nat, seg: SegmentInfo, now: int)
      modifies this
      requires id < |entries| && seg.seqNum + 1 <= U32_MAX
      ensures State() == FinAcked(old(State()), id, seg, now)
    {
      entries := entries[id := entries[id].(rcv := entries[id].rcv.(next := seg.seqNum + 1))];
      var _ := Output(id, ACK, [], now);
    }

    /** The state change a FIN causes. */
    method FinTransition(id: nat, s: State, seg: SegmentInfo, now: int)
      modifies this
      requires id < |entries|
      ensures State() == FinMoves(old(State()), id, s, seg, now)
    {
      if s == SynReceived || s == Established {
        entries := entries[id := entries[id].(state := CloseWait)];
        Wake(id, true);
      } else if s == FinWait1 {
        if seg.ackNum == entries[id].snd.next {
          entries := entries[id := entries[id].(state := TimeWait)];
          SetWaitTime(id, now);
        } else {
          entries := entries[id := entries[id].(state := Closing)];
        }
      } else if s == FinWait2 {
        entries := entries[id := entries[id].(state := TimeWait)];
      } else if s == TimeWait {
        SetWaitTime(id, now);
      }
    }

    /** `segment_arrives`. */
    method SegmentArrives(seg: SegmentInfo, flags: bv8, data: seq<byte>, len: nat,
                          local: Ip.Endpoint, remote: Ip.Endpoint, iss: u32, now: int) returns (r: Result<()>)
      modifies this
      requires ArriveFits(State(), seg, iss)
      ensures var f := Arrive(old(State()), seg, flags, data, len, local, remote, iss, now);
              (r.Panic? <==> f.Panic?) && (f.Ok? ==> r == Ok(()) && State() == f.value)
    {
      var sel := Select(local, Some(remote));
      if sel.None? || entries[sel.value].state == Closed {
        ArriveClosed(seg, flags, local, remote);
        return Ok(());
      }
      var id := sel.value;
      var s := entries[id].state;
      if s == Listen {
        r := ArriveListen(id, seg, flags, local, remote, iss, now);
        return;
      }
      if s == SynSent {
        ArriveSynSent(id, seg, flags, local, remote, now);
        return Ok(());
      }
      var stop := SequenceCheck(id, seg, flags, now);
      if stop {
        return Ok(());
      }
      stop := ResetCheck(id, s, flags);
      if stop {
        return Ok(());
      }
      stop := SynCheck(id, s, flags);
      if stop {
        return Ok(());
      }
      stop, r := AckCheck(id, s, seg, flags, local, remote, now);
      if stop {
        return;
      }
      r := ProcessText(id, s, seg, data, len, now);
      if r.Panic? {
        return;
      }
      FinCheck(id, s, seg, flags, now);
      return Ok(());
    }

    /** `retransmit`: the timer sweep over every PCB, with the clock tests
        of `reading`. */
    method Retransmit(reading: Reading, now: int) returns (r: Result<()>)
      modifies this
      ensures var f := Retransmitted(reading, old(State()), now);
              (r.Panic? <==> f.Panic?) && (f.Ok? ==> r == Ok(()) && State() == f.value)
    {
      ghost var st0 := State();
      var i := 0;
      while i < |entries|
        invariant 0 <= i <= |entries| == |st0.pcbs|
        invariant SweepFrom(reading, State(), i, now) == SweepFrom(reading, st0, 0, now)
        decreases |st0.pcbs| - i
      {
        ghost var sti := State();
        SweepPcbLength(reading, sti, i, now);
        if entries[i].state != Free {
          if entries[i].state == TimeWait {
            var w := TimeWaitTest(reading, entries[i].waitTime, now);
            if w.Panic? {
              return Panic(w.reason);
            }
            if w.value {
              Release(i);
              assert SweepPcb(reading, sti, i, now) == Ok(State());
              i := i + 1;
              continue;
            }
          }
          SweepQueuePcbs(reading, sti, i, sti.pcbs[i].queue, now);
          r := RetransmitQueue(reading, i, now);
          if r.Panic? {
            return;
          }
        }
        assert SweepPcb(reading, sti, i, now) == Ok(State());
        i := i + 1;
      }
      return Ok(());
    }

    /** The inner loop of `retransmit` over the queue of PCB `id`. */
    method RetransmitQueue(reading: Reading, id: nat, now: int) returns (r: Result<()>)
      modifies this
      requires id < |entries|
      ensures var f := SweepQueue(reading, old(State()), id, old(entries[id].queue), now);
              (r.Panic? <==> f.Panic?) && (f.Ok? ==> r == Ok(()) && State() == f.value)
    {
      ghost var st0 := State();
      var q := entries[id].queue;
      var k := 0;
      while k < |q|
        invariant 0 <= k <= |q| && |entries| == |st0.pcbs|
        invariant SweepQueue(reading, State(), id, q[k..], now) == SweepQueue(reading, st0, id, q, now)
      {
        var e := q[k];
        assert q[k..][0] == e && q[k..][1..] == q[k + 1..];
        if now < e.firstSentAt {
          return Panic(UNWRAP_ERR);
        }
        ghost var stk := State();
        if now - e.firstSentAt >= TCP_RETRANSMIT_TIMEOUT_MICROS {
          entries := entries[id := entries[id].(state := Closed)];
          Wake(id, false);
        } else if ResendTest(reading, e, now) {
          var p := entries[id];
          var _ := OutputSegment(e.seqNum, p.rcv.next, e.flags, p.rcv.window, e.data, p.local, p.remote);
        }
        assert State() == SweepEntry(reading, stk, id, e, now);
        k := k + 1;
      }
      assert q[k..] == [];
      return Ok(());
    }

    /** `input`: the checks of a received segment, then `segment_arrives`. */
    method Input(target: Endian, data: seq<byte>, len: nat, src: u32, dst: u32, iface: Ip.Interface,
                 iss: u32, now: int) returns (r: Result<()>)
      modifies this
      requires |data| >= TCP_HDR_SIZE && InputFits(State(), target, data, len, src, dst, iface, iss)
      ensures var f := TcpArrive.Input(old(State()), target, data, len, src, dst, iface, iss, now);
              (r.Panic? <==> f.Panic?) && (f == Err ==> r == Err && State() == old(State()))
              && (f.Ok? ==> r == Ok(()) && State() == f.value)
    {
      var p := Check(target, data, len, src, dst, iface);
      if p.Panic? {
        return Panic(p.reason);
      }
      if p.Err? {
        return Err;
      }
      var m := p.value;
      r := SegmentArrives(m.seg, m.flags, m.data, m.len, m.local, m.remote, iss, now);
    }

    /** The checks `input` makes before `segment_arrives`, which change nothing. */
    static method Check(target: Endian, data: seq<byte>, len: nat, src: u32, dst: u32, iface: Ip.Interface)
      returns (r: Result<Received>)
      requires |data| >= TCP_HDR_SIZE
      ensures r == Parse(target, data, len, src, dst, iface)
    {
      if len < TCP_HDR_SIZE {
        return Panic("TCP input: too short data.");
      }
      var c := Verify(target, data, len, src, dst);
      if c.Panic? {
        return Panic(c.reason);
      }
      if c.Err? {
        return Err;
      }
      if src == Ip.IP_ADDR_ANY || src == iface.broadcast || dst == Ip.IP_ADDR_ANY || dst == iface.broadcast {
        return Panic("TCP input: only unicast is supported.");
      }
      r := Decode(target, data, len, src, dst);
    }

    /** The checksum test of `input`. */
    static method Verify(target: Endian, data: seq<byte>, len: nat, src: u32, dst: u32) returns (r: Result<()>)
      ensures r == Verified(target, data, len, src, dst)
    {
      var pseudo := PseudoHeader(target, src, dst, len % 0x1_0000);
      NoOverflow(pseudo, TCP_PSEUDO_HDR_SIZE, 0);
      var pseudoSum := Cksum16(pseudo, TCP_PSEUDO_HDR_SIZE, 0);
      var seed: u16 := 0xffff - pseudoSum;
      if len > |data| {
        return Panic("index out of bounds");
      }
      if seed + SliceSum(data, len) > U32_MAX {
        return Panic("attempt to add with overflow");
      }
      var sum := Cksum16(data, len, seed);
      if sum != 0 {
        return Err;
      }
      return Ok(());
    }

    /** The header fields `input` reads once the checks have passed. */
    static method Decode(target: Endian, data: seq<byte>, len: nat, src: u32, dst: u32) returns (r: Result<Received>)
      requires TCP_HDR_SIZE <= |data| && TCP_HDR_SIZE <= len
      ensures r == Decoded(target, data, len, src, dst)
    {
      var local := Ip.Endpoint(dst, Load16(target, data[2], data[3]));
      var remote := Ip.Endpoint(src, Load16(target, data[0], data[1]));
      var flags := data[13] as bv8;
      var segLen := SegLen(len, data[12], flags);
      if segLen.Panic? {
        return Panic(segLen.reason);
      }
      var seg := SegmentInfo(BeToLe32(target, Load32(target, data[4], data[5], data[6], data[7])),
                             BeToLe32(target, Load32(target, data[8], data[9], data[10], data[11])),
                             segLen.value,
                             BeToLe16(target, Load16(target, data[14], data[15])),
                             BeToLe16(target, Load16(target, data[18], data[19])));
      return Ok(Received(seg, flags, data[TCP_HDR_SIZE..], len - HeaderLen(data[12]), local, remote));
    }

    // ---- user commands ----------------------------------------------------

    /** `open`. */
    method Open() returns (r: Result<nat>)
      modifies this
      ensures var f := OpenAt(old(State()));
              (r.Panic? <==> f.Panic?) && (f.Ok? ==> r == Ok(f.value.1) && State() == f.value.0)
    {
      var n := NewEntry();
      if n.None? {
        return Panic("TCP open: failed to create a new PCB.");
      }
      entries := entries[n.value := entries[n.value].(mode := Socket)];
      return Ok(n.value);
    }

    /** `bind`. */
    method Bind(id: nat, local: Ip.Endpoint) returns (r: Result<()>)
      modifies this
      ensures var f := BindAt(old(State()), id, local);
              (r.Panic? <==> f.Panic?) && (f.Ok? ==> r == Ok(()) && State() == f.value)
    {
      var existing := Select(local, None);
      if existing.Some? {
        return Panic("TCP: ip address and port already exist.");
      }
      if id >= |entries| {
        return Panic(PCB_NOT_FOUND);
      }
      if entries[id].mode != Socket {
        return Panic(NOT_SOCKET);
      }
      entries := entries[id := entries[id].(local := local)];
      return Ok(());
    }

    /** `listen`. */
    method SetListen(id: nat) returns (r: Result<()>)
      modifies this
      ensures var f := ListenAt(old(State()), id);
              (r.Panic? <==> f.Panic?) && (f.Ok? ==> r == Ok(()) && State() == f.value)
    {
      if id >= |entries| {
        return Panic(PCB_NOT_FOUND);
      }
      if entries[id].mode != Socket {
        return Panic(NOT_SOCKET);
      }
      entries := entries[id := entries[id].(state := Listen)];
      return Ok(());
    }

    /** The active open of `rfc793_open` and `connect`. */
    method ActiveOpen(id: nat, iss: u32, now: int)
      modifies this
      requires id < |entries| && iss < U32_MAX
      ensures State() == ActiveStart(old(State()), id, iss, now)
    {
      entries := entries[id := entries[id].(rcv := entries[id].rcv.(window := |entries[id].buf| % 0x1_0000), iss := iss)];
      var _ := Output(id, SYN, [], now);
      entries := entries[id := entries[id].(snd := entries[id].snd.(una := iss, next := iss + 1), state := SynSent)];
    }

    /** `connect` up to its wait; `route` is the unicast address of the
        interface the route to `remote` leaves by, if there is one. */
    method Connect(id: nat, remote: Ip.Endpoint, route: Option<u32>, iss: u32, now: int) returns (r: Result<()>)
      modifies this
      requires iss < U32_MAX
      ensures var f := ConnectAt(old(State()), id, remote, route, iss, now);
              (r.Panic? <==> f.Panic?) && (f.Ok? ==> r == Ok(()) && State() == f.value)
    {
      if id >= |entries| {
        return Panic(PCB_NOT_FOUND);
      }
      if entries[id].mode != Socket {
        return Panic("TCP: pcb is not opened as socket mode.");
      }
      ghost var st0 := State();
      var local := entries[id].local;
      if local.address == Ip.IP_ADDR_ANY {
        if route.None? {
          return Panic("TCP: interface was not found.");
        }
        local := local.(address := route.value);
      }
      if local.port == 0 {
        ghost var address := local.address;
        var port := TCP_SRC_PORT_MIN;
        while true
          invariant State() == st0 && local.address == address
          invariant TCP_SRC_PORT_MIN <= port < TCP_SRC_PORT_MAX
          invariant FreePortFrom(st0.pcbs, local.address, remote, port)
                    == FreePortFrom(st0.pcbs, local.address, remote, TCP_SRC_PORT_MIN)
          decreases TCP_SRC_PORT_MAX - port
        {
          local := local.(port := port);
          var existing := Select(local, Some(remote));
          if existing.None? || port == TCP_SRC_PORT_MAX - 1 {
            break;
          }
          port := port + 1;
        }
        assert local.port == FreePortFrom(st0.pcbs, local.address, remote, TCP_SRC_PORT_MIN);
      }
      entries := entries[id := entries[id].(local := local, remote := remote)];
      ghost var st1 := State();
      assert st1 == UpdateAt(st0, id, st0.pcbs[id].(local := local, remote := remote));
      ActiveOpen(id, iss, now);
      entries := entries[id := entries[id].(hasSender := true)];
      return Ok(());
    }

    /** `rfc793_open` up to its wait. */
    method Rfc793Open(local: Ip.Endpoint, remote: Option<Ip.Endpoint>, active: bool, iss: u32, now: int)
      returns (r: Result<nat>)
      modifies this
      requires iss < U32_MAX
      ensures var f := Rfc793OpenAt(old(State()), local, remote, active, iss, now);
              (r.Panic? <==> f.Panic?) && (f.Ok? ==> r == Ok(f.value.1) && State() == f.value.0)
    {
      var n := NewEntry();
      if n.None? {
        return Panic("TCP: failed to create a new PCB.");
      }
      var i := n.value;
      Prepare(i, local, remote);
      if !active {
        entries := entries[i := entries[i].(state := Listen)];
      } else {
        ActiveOpen(i, iss, now);
      }
      return Ok(i);
    }

    /** The set-up of a claimed PCB by `rfc793_open`. */
    method Prepare(i: nat, local: Ip.Endpoint, remote: Option<Ip.Endpoint>)
      modifies this
      requires i < |entries| && entries[i].state == Closed
      ensures entries == old(entries)[i := Opened(old(entries)[i], local, remote)]
      ensures out == old(out) && wakeups == old(wakeups)
    {
      entries := entries[i := entries[i].(mode := Rfc793, local := local, hasSender := true)];
      if remote.Some? {
        entries := entries[i := entries[i].(remote := remote.value)];
      }
    }

    /** `accept` up to its first wait. */
    method Accept(id: nat) returns (r: Result<Option<nat>>)
      modifies this
      ensures var f := AcceptAt(old(State()), id);
              (r.Panic? <==> f.Panic?) && (f.Ok? ==> r == Ok(f.value.1) && State() == f.value.0)
    {
      if id >= |entries| {
        return Panic(PCB_NOT_FOUND);
      }
      if entries[id].mode != Socket {
        return Panic(NOT_SOCKET);
      }
      if entries[id].state != Listen {
        return Panic("TCP: PCB is not in LISTEN state.");
      }
      entries := entries[id := entries[id].(hasSender := true)];
      var backlog := entries[id].backlog;
      if backlog == [] {
        return Ok(None);
      }
      entries := entries[id := entries[id].(backlog := backlog[1..])];
      return Ok(Some(backlog[0]));
    }

    /** `receive` up to its first wait. */
    method Receive(id: nat, size: nat) returns (r: Result<ReceiveOutcome>)
      modifies this
      ensures var f := ReceiveAt(old(State()), id, size);
              (r.Panic? <==> f.Panic?) && (f.Ok? ==> r == Ok(f.value.1) && State() == f.value.0)
    {
      if id >= |entries| {
        return Panic(PCB_NOT_FOUND);
      }
      entries := entries[id := entries[id].(hasSender := true)];
      r := LookAt(id, size);
    }

    /** The first look of `receive` at PCB `id`. */
    method LookAt(id: nat, size: nat) returns (r: Result<ReceiveOutcome>)
      modifies this
      requires id < |entries|
      ensures var f := Look(old(State()), id, size);
              (r.Panic? <==> f.Panic?) && (f.Ok? ==> r == Ok(f.value.1) && State() == f.value.0)
    {
      var state := entries[id].state;
      var bufLen := |entries[id].buf|;
      var window := entries[id].rcv.window;
      if state == Closed || state == Listen || state == SynSent || state == SynReceived {
        return Ok(Refused);
      } else if state == Established || state == FinWait1 || state == FinWait2 || state == CloseWait {
        if bufLen < window {
          return Panic("attempt to subtract with overflow");
        }
        var remain := bufLen - window;
        if remain == 0 && state != CloseWait {
          return Ok(Waiting);
        }
        r := TakeData(id, size, remain);
      } else {
        return Ok(Spinning);
      }
    }

    /** The end of `receive`: `min(size, remain)` bytes leave the buffer. */
    method TakeData(id: nat, size: nat, remain: nat) returns (r: Result<ReceiveOutcome>)
      modifies this
      requires id < |entries| && remain <= |entries[id].buf|
      ensures var f := Take(old(State()), id, size, remain);
              (r.Panic? <==> f.Panic?) && (f.Ok? ==> r == Ok(f.value.1) && State() == f.value.0)
    {
      var len := if size < remain then size else remain;
      var data := entries[id].buf[..len];
      entries := entries[id := entries[id].(buf := entries[id].buf[len..])];
      if entries[id].rcv.window + len % 0x1_0000 > 0xffff {
        return Panic("attempt to add with overflow");
      }
      entries := entries[id := entries[id].(rcv := entries[id].rcv.(window := entries[id].rcv.window + len % 0x1_0000))];
      return Ok(Delivered(data));
    }

    /** `close`. */
    method Close(id: nat, now: int)
      modifies this
      ensures State() == CloseAt(old(State()), id, now)
    {
      if id < |entries| {
        var _ := Output(id, RST, [], now);
        Release(id);
      }
    }
  }
}
