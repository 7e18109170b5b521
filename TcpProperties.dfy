/** Properties of `segment_arrives` that follow RFC 793 section 3.9,
    stated over several steps of the model in TcpArrive. */
module TcpProperties {
  import opened Common
  import Ip
  import opened Tcp
  import opened TcpArrive

  /** A segment carrying no data, sent from PCB `p`'s endpoints with its
      RCV.NXT and RCV.WND. */
  function Reply(p: Pcb, seqNum: u32, flags: bv8): Segment {
    Segment(seqNum, p.rcv.next, flags, p.rcv.window, [], p.local, p.remote)
  }

  /** LISTEN: a reset is dropped with nothing changed; an ACK is answered
      with a reset whose SEQ is SEG.ACK and changes no PCB. */
  lemma ListenRstAck(st: Stack, id: nat, seg: SegmentInfo, flags: bv8, local: Ip.Endpoint, remote: Ip.Endpoint,
                     iss: u32, now: int)
    requires id < |st.pcbs| && seg.seqNum + 1 <= U32_MAX && iss < U32_MAX
    ensures FlagExists(flags, RST) ==> ListenArrives(st, id, seg, flags, local, remote, iss, now) == Ok(st)
    ensures !FlagExists(flags, RST) && FlagExists(flags, ACK) ==>
              var r := ListenArrives(st, id, seg, flags, local, remote, iss, now);
              r.Ok? && r.value.pcbs == st.pcbs && r.value.wakes == st.wakes
              && r.value.out == st.out + [Segment(seg.ackNum, 0, RST, 0, [], local, remote)]
  {
  }

  /** LISTEN, a SYN without RST or ACK: the chosen PCB `c` (the listener
      itself in RFC 793 mode, the first free slot for a socket) records
      the endpoints, takes IRS+1 as RCV.NXT, ISS as SND.UNA and ISS+1 as
      SND.NXT, enters SYN-RECEIVED and sends exactly one SYN|ACK with
      SEQ = ISS acknowledging SEQ+1; no other PCB changes. */
  lemma {:induction false} ListenSyn(st: Stack, id: nat, seg: SegmentInfo, flags: bv8, local: Ip.Endpoint,
                                     remote: Ip.Endpoint, iss: u32, now: int)
    requires id < |st.pcbs| && seg.seqNum + 1 <= U32_MAX && iss < U32_MAX
    requires st.pcbs[id].state == Listen
    requires !FlagExists(flags, RST) && !FlagExists(flags, ACK) && FlagExists(flags, SYN)
    requires ListenChild(st.pcbs, id).Some?
    ensures var c := ListenChild(st.pcbs, id).value;
            var r := ListenArrives(st, id, seg, flags, local, remote, iss, now);
            var q := r.value.pcbs[c];
            r.Ok? && c < |st.pcbs| && |r.value.pcbs| == |st.pcbs|
            && q.state == SynReceived && q.local == local && q.remote == remote && q.iss == iss
            && q.rcv.next == seg.seqNum + 1 && q.snd.una == iss && q.snd.next == iss + 1
            && q.rcv.window == |st.pcbs[c].buf| % 0x1_0000
            && q.queue == st.pcbs[c].queue && q.buf == st.pcbs[c].buf
            && (st.pcbs[id].mode == Socket ==> c != id && q.mode == Socket && q.parentId == Some(id))
            && (st.pcbs[id].mode != Socket ==> c == id)
            && r.value.out == st.out + [Segment(iss, seg.seqNum + 1, SYN | ACK, q.rcv.window, [], local, remote)]
            && r.value.wakes == st.wakes
            && (forall j :: 0 <= j < |st.pcbs| && j != c ==> r.value.pcbs[j] == st.pcbs[j])
  {
    var c := ListenChild(st.pcbs, id).value;
    if st.pcbs[id].mode == Socket {
      assert st.pcbs[c].state == Free && st.pcbs[id].state != Free ==> c != id;
    }
    var f := Forked(st, id, c);
    assert f.pcbs[c].queue == st.pcbs[c].queue && f.pcbs[c].buf == st.pcbs[c].buf;
    assert forall j :: 0 <= j < |st.pcbs| && j != c ==> f.pcbs[j] == st.pcbs[j];
    AcceptSynEffect(f, c, seg, local, remote, iss, now);
  }

  /** The SYN|ACK step on the chosen PCB `c` of any table. */
  lemma AcceptSynEffect(st: Stack, c: nat, seg: SegmentInfo, local: Ip.Endpoint, remote: Ip.Endpoint,
                        iss: u32, now: int)
    requires c < |st.pcbs| && seg.seqNum + 1 <= U32_MAX && iss < U32_MAX
    ensures var r := AcceptSyn(st, c, seg, local, remote, iss, now);
            var p := st.pcbs[c];
            var q := r.pcbs[c];
            |r.pcbs| == |st.pcbs|
            && q == p.(local := local, remote := remote, iss := iss, state := SynReceived,
                       rcv := p.rcv.(window := |p.buf| % 0x1_0000, next := seg.seqNum + 1),
                       snd := p.snd.(next := iss + 1, una := iss))
            && r.out == st.out + [Segment(iss, seg.seqNum + 1, SYN | ACK, q.rcv.window, [], local, remote)]
            && r.wakes == st.wakes
            && (forall j :: 0 <= j < |st.pcbs| && j != c ==> r.pcbs[j] == st.pcbs[j])
  {
    var p := st.pcbs[c];
    assert !FlagExists(SYN | ACK, FIN) && FlagExists(SYN | ACK, SYN);
    var p1 := p.(local := local, remote := remote,
                 rcv := p.rcv.(window := |p.buf| % 0x1_0000, next := seg.seqNum + 1), iss := iss);
    var e := Output(p1, SYN | ACK, [], now);
    assert e.pcb == p1;
    assert e.segment == Segment(iss, seg.seqNum + 1, SYN | ACK, p1.rcv.window, [], local, remote);
  }

  /** The first check: a synchronized PCB that finds a segment
      unacceptable keeps every PCB and every waiting thread as it was, and
      sends one ACK (SEQ = SND.NXT, ACK = RCV.NXT) exactly when the segment
      carries RST. */
  lemma {:induction false} UnacceptableDropped(st: Stack, id: nat, seg: SegmentInfo, flags: bv8, data: seq<byte>,
                                               len: nat, local: Ip.Endpoint, remote: Ip.Endpoint, now: int)
    requires id < |st.pcbs| && AcceptFits(st.pcbs[id].rcv, seg) && seg.seqNum + 1 <= U32_MAX
    requires Synchronized(st.pcbs[id].state) && !Acceptable(st.pcbs[id].rcv, seg)
    ensures var r := OtherArrives(st, id, seg, flags, data, len, local, remote, now);
            var p := st.pcbs[id];
            r.Ok? && r.value.pcbs == st.pcbs && r.value.wakes == st.wakes
            && r.value.out == st.out + (if FlagExists(flags, RST) then [Reply(p, p.snd.next, ACK)] else [])
  {
    var p := st.pcbs[id];
    assert !FlagExists(ACK, SYN);
    var e := Output(p, ACK, [], now);
    assert e.pcb == p;
    assert st.pcbs[id := p] == st.pcbs;
  }

  /** ESTABLISHED, FIN-WAIT-1, FIN-WAIT-2 and CLOSE-WAIT on an ACK: an ACK
      in (SND.UNA, SND.NXT] sets SND.UNA to SEG.ACK, removes what
      `clean_data_queue` removes and takes the window, WL1 and WL2 from the
      segment exactly when the update rule allows; an ACK beyond SND.NXT
      and not below SND.UNA is answered with one ACK and changes no PCB;
      an ACK below SND.UNA, or equal to it within SND.NXT, changes
      nothing. */
  lemma {:induction false} EstablishedAckRules(st: Stack, id: nat, s: State, seg: SegmentInfo, now: int)
    requires id < |st.pcbs| && s in {Established, FinWait1, FinWait2, CloseWait}
    ensures var p := st.pcbs[id];
            var f := EstablishedAck(st, id, s, seg, now);
            p.snd.una < seg.ackNum <= p.snd.next ==>
              f.Next? && f.st.out == st.out && f.st.wakes == st.wakes
              && f.st.pcbs[id].snd.una == seg.ackNum
              && f.st.pcbs[id].queue == CleanedQueue(p.queue, seg.ackNum)
              && (WindowUpdate(p.snd, seg) ==> f.st.pcbs[id].snd.window == seg.window
                                               && f.st.pcbs[id].snd.wl1 == seg.seqNum
                                               && f.st.pcbs[id].snd.wl2 == seg.ackNum)
              && (!WindowUpdate(p.snd, seg) ==> f.st.pcbs[id].snd == p.snd.(una := seg.ackNum))
              && f.st.pcbs[id].state == p.state
              && (forall j :: 0 <= j < |st.pcbs| && j != id ==> f.st.pcbs[j] == st.pcbs[j])
    ensures var p := st.pcbs[id];
            var f := EstablishedAck(st, id, s, seg, now);
            p.snd.una <= seg.ackNum && seg.ackNum > p.snd.next ==>
              f == Done(Ok(Stack(st.pcbs, st.out + [Reply(p, p.snd.next, ACK)], st.wakes)))
    ensures var p := st.pcbs[id];
            seg.ackNum < p.snd.una || seg.ackNum == p.snd.una <= p.snd.next ==>
              EstablishedAck(st, id, s, seg, now) == Next(st)
  {
    var p := st.pcbs[id];
    if p.snd.una <= seg.ackNum && seg.ackNum > p.snd.next {
      assert !FlagExists(ACK, SYN);
      assert Output(p, ACK, [], now).pcb == p;
      assert st.pcbs[id := p] == st.pcbs;
    }
  }

  /** The eighth step on a FIN in a synchronized state: RCV.NXT becomes
      SEQ+1, exactly one ACK of SEQ+1 is sent, and the state moves as RFC
      793 section 3.9 says (SYN-RECEIVED and ESTABLISHED to CLOSE-WAIT,
      FIN-WAIT-1 to TIME-WAIT when our FIN is acknowledged and to CLOSING
      otherwise, FIN-WAIT-2 to TIME-WAIT, every other state kept). */
  lemma {:induction false} FinRules(st: Stack, id: nat, s: State, seg: SegmentInfo, flags: bv8, now: int)
    requires id < |st.pcbs| && seg.seqNum + 1 <= U32_MAX
    requires FlagExists(flags, FIN) && Synchronized(s) && st.pcbs[id].state == s
    ensures var r := FinStep(st, id, s, seg, flags, now);
            var q := r.pcbs[id];
            |r.pcbs| == |st.pcbs| && q.rcv.next == seg.seqNum + 1
            && r.out == st.out + [Reply(st.pcbs[id].(rcv := q.rcv), st.pcbs[id].snd.next, ACK)]
            && (s in {SynReceived, Established} ==> q.state == CloseWait)
            && (s == FinWait1 && seg.ackNum == st.pcbs[id].snd.next ==> q.state == TimeWait && q.waitTime.Some?)
            && (s == FinWait1 && seg.ackNum != st.pcbs[id].snd.next ==> q.state == Closing)
            && (s == FinWait2 ==> q.state == TimeWait)
            && (s in {CloseWait, Closing, LastAck, TimeWait} ==> q.state == s)
            && (forall j :: 0 <= j < |st.pcbs| && j != id ==> r.pcbs[j] == st.pcbs[j])
  {
    var p := st.pcbs[id].(rcv := st.pcbs[id].rcv.(next := seg.seqNum + 1));
    assert !FlagExists(ACK, SYN);
    assert Output(p, ACK, [], now).pcb == p;
    var a := FinAcked(st, id, seg, now);
    assert a.pcbs == st.pcbs[id := p];
    assert a.out == st.out + [Reply(p, p.snd.next, ACK)];
  }

  /** `release` through the table: only PCB `id` changes, it becomes
      `Released`, no segment is sent, and its waiting thread, if any, is
      woken with `false`. */
  lemma ReleaseEffect(st: Stack, id: nat)
    requires id < |st.pcbs|
    ensures var r := ReleaseAt(st, id);
            r.pcbs == st.pcbs[id := Released(st.pcbs[id])] && r.out == st.out
            && r.wakes == st.wakes + (if st.pcbs[id].hasSender then [Wakeup(id, false)] else [])
  {
  }

  /** SYN-SENT, an ACK outside (ISS, SND.NXT]: one reset with SEQ = SEG.ACK
      is sent and nothing else changes. Otherwise a reset releases the
      PCB when its ACK is acceptable and is dropped when not, and a
      segment with neither RST nor SYN is dropped. */
  lemma SynSentRejects(st: Stack, id: nat, seg: SegmentInfo, flags: bv8, local: Ip.Endpoint, remote: Ip.Endpoint,
                       now: int)
    requires id < |st.pcbs| && seg.seqNum + 1 <= U32_MAX
    ensures var p := st.pcbs[id];
            var r := SynSentArrives(st, id, seg, flags, local, remote, now);
            FlagExists(flags, ACK) && (seg.ackNum <= p.iss || seg.ackNum > p.snd.next) ==>
              r.pcbs == st.pcbs && r.wakes == st.wakes && r.out == st.out + [Control(seg.ackNum, 0, RST, local, remote)]
    ensures var p := st.pcbs[id];
            var r := SynSentArrives(st, id, seg, flags, local, remote, now);
            var acceptable := FlagExists(flags, ACK) && p.snd.una <= seg.ackNum <= p.snd.next;
            !(FlagExists(flags, ACK) && (seg.ackNum <= p.iss || seg.ackNum > p.snd.next)) && FlagExists(flags, RST) ==>
              (acceptable ==> r == ReleaseAt(st, id)) && (!acceptable ==> r == st)
    ensures var p := st.pcbs[id];
            !(FlagExists(flags, ACK) && (seg.ackNum <= p.iss || seg.ackNum > p.snd.next))
            && !FlagExists(flags, RST) && !FlagExists(flags, SYN) ==>
              SynSentArrives(st, id, seg, flags, local, remote, now) == st
  {
  }

  /** SYN-SENT, a SYN without RST whose ACK, if any, lies in (ISS,
      SND.NXT]: IRS = SEQ and RCV.NXT = SEQ+1, an acceptable ACK becomes
      SND.UNA and cleans the queue. When SND.UNA then exceeds ISS the PCB
      is ESTABLISHED, takes the send window, WL1 and WL2 from the segment,
      sends one ACK of SEQ+1 with SEQ = SND.NXT and wakes its thread with
      `true`; otherwise it is SYN-RECEIVED and sends one SYN|ACK with SEQ =
      ISS, waking nobody. No other PCB changes. */
  lemma {:induction false} SynSentSynRules(st: Stack, id: nat, seg: SegmentInfo, flags: bv8, local: Ip.Endpoint,
                                           remote: Ip.Endpoint, now: int)
    requires id < |st.pcbs| && seg.seqNum + 1 <= U32_MAX
    requires !FlagExists(flags, RST) && FlagExists(flags, SYN)
    requires FlagExists(flags, ACK) ==> st.pcbs[id].iss < seg.ackNum <= st.pcbs[id].snd.next
    ensures var p := st.pcbs[id];
            var acceptable := FlagExists(flags, ACK) && p.snd.una <= seg.ackNum;
            var una := if acceptable then seg.ackNum else p.snd.una;
            var r := SynSentArrives(st, id, seg, flags, local, remote, now);
            var q := r.pcbs[id];
            |r.pcbs| == |st.pcbs| && q.irs == seg.seqNum && q.rcv.next == seg.seqNum + 1 && q.snd.una == una
            && q.queue == (if acceptable then CleanedQueue(p.queue, seg.ackNum) else p.queue)
            && q.local == p.local && q.remote == p.remote && q.buf == p.buf
            && (una > p.iss ==>
                  q.state == Established && q.snd.next == p.snd.next
                  && q.snd.window == seg.window && q.snd.wl1 == seg.seqNum && q.snd.wl2 == seg.ackNum
                  && r.out == st.out + [Segment(p.snd.next, seg.seqNum + 1, ACK, p.rcv.window, [], p.local, p.remote)]
                  && r.wakes == st.wakes + (if p.hasSender then [Wakeup(id, true)] else []))
            && (una <= p.iss ==>
                  q.state == SynReceived && q.snd == p.snd.(una := una)
                  && r.out == st.out + [Segment(p.iss, seg.seqNum + 1, SYN | ACK, p.rcv.window, [], p.local, p.remote)]
                  && r.wakes == st.wakes)
            && (forall j :: 0 <= j < |st.pcbs| && j != id ==> r.pcbs[j] == st.pcbs[j])
  {
    var p := st.pcbs[id];
    var acceptable := FlagExists(flags, ACK) && p.snd.una <= seg.ackNum <= p.snd.next;
    var p2 := SynRecorded(p, seg, acceptable);
    assert SynSentArrives(st, id, seg, flags, local, remote, now) == SynSentSyn(st, id, seg, acceptable, now);
    if p2.snd.una > p2.iss {
      SynSentEstablished(st, id, seg, acceptable, now);
    } else {
      SynSentSimultaneous(st, id, seg, acceptable, now);
    }
  }

  /** `SynSentSyn` when our SYN is acknowledged. */
  lemma SynSentEstablished(st: Stack, id: nat, seg: SegmentInfo, acceptable: bool, now: int)
    requires id < |st.pcbs| && seg.seqNum + 1 <= U32_MAX
    requires SynRecorded(st.pcbs[id], seg, acceptable).snd.una > st.pcbs[id].iss
    ensures var p2 := SynRecorded(st.pcbs[id], seg, acceptable);
            var r := SynSentSyn(st, id, seg, acceptable, now);
            r.pcbs == st.pcbs[id := p2.(state := Established,
                                        snd := p2.snd.(window := seg.window, wl1 := seg.seqNum, wl2 := seg.ackNum))]
            && r.out == st.out + [Segment(p2.snd.next, p2.rcv.next, ACK, p2.rcv.window, [], p2.local, p2.remote)]
            && r.wakes == st.wakes + (if p2.hasSender then [Wakeup(id, true)] else [])
  {
    var p2 := SynRecorded(st.pcbs[id], seg, acceptable);
    assert !FlagExists(ACK, SYN);
    assert Output(p2.(state := Established), ACK, [], now).pcb == p2.(state := Established);
  }

  /** `SynSentSyn` when our SYN is not yet acknowledged. */
  lemma SynSentSimultaneous(st: Stack, id: nat, seg: SegmentInfo, acceptable: bool, now: int)
    requires id < |st.pcbs| && seg.seqNum + 1 <= U32_MAX
    requires SynRecorded(st.pcbs[id], seg, acceptable).snd.una <= st.pcbs[id].iss
    ensures var p2 := SynRecorded(st.pcbs[id], seg, acceptable);
            var r := SynSentSyn(st, id, seg, acceptable, now);
            r.pcbs == st.pcbs[id := p2.(state := SynReceived)]
            && r.out == st.out + [Segment(p2.iss, p2.rcv.next, SYN | ACK, p2.rcv.window, [], p2.local, p2.remote)]
            && r.wakes == st.wakes
  {
    var p2 := SynRecorded(st.pcbs[id], seg, acceptable);
    assert FlagExists(SYN | ACK, SYN) && !FlagExists(SYN | ACK, FIN);
    assert Output(p2.(state := SynReceived), SYN | ACK, [], now).pcb == p2.(state := SynReceived);
  }

  /** The second check: processing stops exactly for a reset in
      SYN-RECEIVED, ESTABLISHED, FIN-WAIT-1, FIN-WAIT-2 and CLOSE-WAIT, and
      for any segment in CLOSING, LAST-ACK and TIME-WAIT; it then releases
      the PCB. */
  lemma ResetRules(st: Stack, id: nat, s: State, flags: bv8)
    requires id < |st.pcbs|
    ensures var f := ResetStep(st, id, s, flags);
            (f.Done? <==> (s in {SynReceived, Established, FinWait1, FinWait2, CloseWait} && FlagExists(flags, RST))
                          || s in {Closing, LastAck, TimeWait})
            && (f.Done? ==> f.r == Ok(ReleaseAt(st, id)))
  {
  }

  /** The fourth check: processing stops exactly for a SYN in a
      synchronized state, and it then releases the PCB. */
  lemma SynRules(st: Stack, id: nat, s: State, flags: bv8)
    requires id < |st.pcbs|
    ensures var f := SynStep(st, id, s, flags);
            (f.Done? <==> Synchronized(s) && FlagExists(flags, SYN)) && (f.Done? ==> f.r == Ok(ReleaseAt(st, id)))
  {
  }

  /** The seventh step: in ESTABLISHED, FIN-WAIT-1 and FIN-WAIT-2 a segment
      with text panics exactly when its length exceeds RCV.WND as a `u16`;
      otherwise the text is appended to the buffer, RCV.NXT becomes
      SEQ+LEN, RCV.WND shrinks by the length, one ACK of SEQ+LEN with SEQ =
      SND.NXT and the new window is sent and the thread is woken with
      `true`. Every other segment changes nothing here. */
  lemma {:induction false} TextRules(st: Stack, id: nat, s: State, seg: SegmentInfo, data: seq<byte>, len: nat,
                                     now: int)
    requires id < |st.pcbs| && seg.seqNum + seg.len <= U32_MAX
    ensures var p := st.pcbs[id];
            var r := TextStep(st, id, s, seg, data, len, now);
            s in {Established, FinWait1, FinWait2} && len > 0 ==> (r.Panic? <==> p.rcv.window < len % 0x1_0000)
    ensures var p := st.pcbs[id];
            var r := TextStep(st, id, s, seg, data, len, now);
            s in {Established, FinWait1, FinWait2} && len > 0 && len % 0x1_0000 <= p.rcv.window ==>
              var q := r.value.pcbs[id];
              r.Ok? && |r.value.pcbs| == |st.pcbs|
              && q.buf == p.buf + data && q.rcv.next == seg.seqNum + seg.len
              && q.rcv.window + len % 0x1_0000 == p.rcv.window
              && q.(buf := p.buf, rcv := p.rcv) == p
              && r.value.out == st.out + [Segment(p.snd.next, seg.seqNum + seg.len, ACK, q.rcv.window, [], p.local, p.remote)]
              && r.value.wakes == st.wakes + (if p.hasSender then [Wakeup(id, true)] else [])
              && (forall j :: 0 <= j < |st.pcbs| && j != id ==> r.value.pcbs[j] == st.pcbs[j])
    ensures !(s in {Established, FinWait1, FinWait2} && len > 0) ==> TextStep(st, id, s, seg, data, len, now) == Ok(st)
  {
    var p := st.pcbs[id];
    if s in {Established, FinWait1, FinWait2} && len > 0 && len % 0x1_0000 <= p.rcv.window {
      var b := Buffered(p, seg, data, len);
      assert !FlagExists(ACK, SYN);
      assert Output(b, ACK, [], now).pcb == b;
    }
  }

  /** The fifth check: a segment without ACK is dropped; in LAST-ACK the
      ACK of our FIN releases the PCB and any other ACK is dropped; in
      TIME-WAIT a FIN restarts the deadline only when none is set, and
      processing goes on; states that never reach this check pass on
      unchanged. */
  lemma AckStepRules(st: Stack, id: nat, s: State, seg: SegmentInfo, flags: bv8,
                     local: Ip.Endpoint, remote: Ip.Endpoint, now: int)
    requires id < |st.pcbs|
    ensures !FlagExists(flags, ACK) ==> AckStep(st, id, s, seg, flags, local, remote, now) == Done(Ok(st))
    ensures FlagExists(flags, ACK) && s == LastAck ==>
              var f := AckStep(st, id, s, seg, flags, local, remote, now);
              (seg.ackNum == st.pcbs[id].snd.next ==> f == Done(Ok(ReleaseAt(st, id))))
              && (seg.ackNum != st.pcbs[id].snd.next ==> f == Done(Ok(st)))
    ensures FlagExists(flags, ACK) && s == TimeWait ==>
              var f := AckStep(st, id, s, seg, flags, local, remote, now);
              var p := st.pcbs[id];
              f.Next? && f.st.out == st.out && f.st.wakes == st.wakes
              && f.st.pcbs == st.pcbs[id := if FlagExists(flags, FIN) then SetWaitTime(p, now) else p]
    ensures FlagExists(flags, ACK) && s == SynReceived ==>
              AckStep(st, id, s, seg, flags, local, remote, now) == SynReceivedAck(st, id, seg, local, remote)
    ensures FlagExists(flags, ACK) && s in {Established, FinWait1, FinWait2, CloseWait, Closing} ==>
              AckStep(st, id, s, seg, flags, local, remote, now) == EstablishedAck(st, id, s, seg, now)
    ensures FlagExists(flags, ACK) && s in {Free, Closed, Listen, SynSent} ==>
              AckStep(st, id, s, seg, flags, local, remote, now) == Next(st)
  {
    if FlagExists(flags, ACK) && s == TimeWait && !FlagExists(flags, FIN) {
      assert st.pcbs[id := st.pcbs[id]] == st.pcbs;
    }
  }

  /** SYN-RECEIVED on an ACK: an ACK in [SND.UNA, SND.NXT] makes the PCB
      ESTABLISHED and wakes its thread; a PCB with a parent is appended to
      the parent's backlog and the parent's thread is woken, and a parent
      id beyond the table panics. Any other ACK is answered with a reset
      with SEQ = SEG.ACK and changes no PCB. */
  lemma SynReceivedAckRules(st: Stack, id: nat, seg: SegmentInfo, local: Ip.Endpoint, remote: Ip.Endpoint)
    requires id < |st.pcbs|
    ensures var p := st.pcbs[id];
            var f := SynReceivedAck(st, id, seg, local, remote);
            !(p.snd.una <= seg.ackNum <= p.snd.next) ==>
              f == Done(Ok(Stack(st.pcbs, st.out + [Control(seg.ackNum, 0, RST, local, remote)], st.wakes)))
    ensures var p := st.pcbs[id];
            var f := SynReceivedAck(st, id, seg, local, remote);
            p.snd.una <= seg.ackNum <= p.snd.next && p.parentId.None? ==>
              f == Next(Stack(st.pcbs[id := p.(state := Established)], st.out,
                              st.wakes + (if p.hasSender then [Wakeup(id, true)] else [])))
    ensures var p := st.pcbs[id];
            var f := SynReceivedAck(st, id, seg, local, remote);
            p.snd.una <= seg.ackNum <= p.snd.next && p.parentId.Some? && p.parentId.value >= |st.pcbs| ==>
              f.Done? && f.r.Panic?
    ensures var p := st.pcbs[id];
            var f := SynReceivedAck(st, id, seg, local, remote);
            p.snd.una <= seg.ackNum <= p.snd.next && p.parentId.Some? && p.parentId.value < |st.pcbs|
            && p.parentId.value != id ==>
              var pid := p.parentId.value;
              var parent := st.pcbs[pid];
              f.Next? && f.st.pcbs[id] == p.(state := Established)
              && f.st.pcbs[pid] == parent.(backlog := parent.backlog + [id])
              && |f.st.pcbs| == |st.pcbs|
              && (forall j :: 0 <= j < |st.pcbs| && j != id && j != pid ==> f.st.pcbs[j] == st.pcbs[j])
              && f.st.out == st.out
              && f.st.wakes == st.wakes + (if p.hasSender then [Wakeup(id, true)] else [])
                                        + (if parent.hasSender then [Wakeup(pid, true)] else [])
  {
  }

  /** CLOSING: the ACK of our FIN moves the PCB to TIME-WAIT, sets the
      deadline `now` + 30 s unless one is set, wakes its thread and sends
      nothing; any other ACK not beyond SND.NXT leaves it in CLOSING. */
  lemma ClosingRules(st: Stack, id: nat, seg: SegmentInfo, now: int)
    requires id < |st.pcbs| && st.pcbs[id].state == Closing
    ensures var p := st.pcbs[id];
            var f := EstablishedAck(st, id, Closing, seg, now);
            seg.ackNum == p.snd.next ==>
              f.Next? && f.st.pcbs[id].state == TimeWait
              && f.st.pcbs[id].waitTime == (if p.waitTime.None? then Some(now + TCP_TIMEWAIT_MICROS) else p.waitTime)
              && f.st.out == st.out && f.st.wakes == st.wakes + (if p.hasSender then [Wakeup(id, true)] else [])
              && (forall j :: 0 <= j < |st.pcbs| && j != id ==> f.st.pcbs[j] == st.pcbs[j])
    ensures var p := st.pcbs[id];
            var f := EstablishedAck(st, id, Closing, seg, now);
            seg.ackNum != p.snd.next && (seg.ackNum < p.snd.una || seg.ackNum <= p.snd.next) ==>
              f.Next? && f.st.pcbs[id].state == Closing && f.st.out == st.out && f.st.wakes == st.wakes
  {
    var p := st.pcbs[id];
    if p.snd.una < seg.ackNum <= p.snd.next {
      var a := Acknowledged(p, seg);
      assert a.snd.next == p.snd.next && a.waitTime == p.waitTime && a.hasSender == p.hasSender && a.state == Closing;
      assert EstablishedAck(st, id, Closing, seg, now) == Next(ClosingAck(UpdateAt(st, id, a), id, Closing, seg, now));
    } else if seg.ackNum < p.snd.una || seg.ackNum <= p.snd.next {
      assert EstablishedAck(st, id, Closing, seg, now) == Next(ClosingAck(st, id, Closing, seg, now));
    }
  }
}
