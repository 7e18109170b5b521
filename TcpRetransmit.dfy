/** The retransmission timer `retransmit` of src/protocols/ip/tcp.rs,
    run on every timer tick: each PCB that is not Free is visited in slot
    order; a TIME-WAIT PCB whose deadline has passed is released, and
    otherwise every entry of its retransmission queue is inspected: an
    entry first sent 12 s ago or more closes the connection, and an entry
    whose resend test holds is sent again. Both clock tests come in two
    readings, the code as written and the evidently intended one; every
    sweep member takes the reading as a parameter. Times are integer
    microseconds; `SystemTime::elapsed` fails when the time it is asked
    about lies in the future. */
module TcpRetransmit {
  import opened Common
  import opened Tcp
  import opened TcpArrive

  const UNWRAP_ERR := "called `Result::unwrap()` on an `Err` value"
  const UNWRAP_NONE := "called `Option::unwrap()` on a `None` value"

  /** `first_sent_at.elapsed().unwrap().as_secs() >= 12`, for an entry
      not sent in the future. */
  predicate Expired(e: QueueEntry, now: int) {
    now - e.firstSentAt >= TCP_RETRANSMIT_TIMEOUT_MICROS
  }

  /** The resend test as written: `timeout.elapsed().is_err()` with
      `timeout = last_sent_at + retry_interval` holds while the deadline
      is still in the future. */
  predicate ResendDueAsWritten(e: QueueEntry, now: int) {
    e.lastSentAt + e.retryInterval > now
  }

  /** The resend test as intended: the retry deadline has been reached. */
  predicate ResendDue(e: QueueEntry, now: int) {
    e.lastSentAt + e.retryInterval <= now
  }

  /** The resend test of a reading. */
  predicate ResendTest(reading: Reading, e: QueueEntry, now: int) {
    if reading == AsWritten then ResendDueAsWritten(e, now) else ResendDue(e, now)
  }

  /** An entry that the sweep sends again. */
  predicate Due(reading: Reading, e: QueueEntry, now: int) {
    !Expired(e, now) && ResendTest(reading, e, now)
  }

  /** The two resend tests are complements: as written, an entry is sent
      again exactly when it is not yet due, so an entry queued at `now`
      goes out again on the next tick and an overdue one never does. */
  lemma ResendTestInverted(e: QueueEntry, now: int)
    ensures ResendDueAsWritten(e, now) <==> !ResendDue(e, now)
  {
  }

  lemma {:induction false} FreshEntryResentAsWritten(seqNum: u32, flags: bv8, data: seq<byte>, now: int, later: int)
    requires now <= later < now + TCP_DEFAULT_ITVL_MICROS
    ensures var e := NewQueueEntry(seqNum, flags, data, now);
            ResendDueAsWritten(e, later) && !ResendDue(e, later)
            && !ResendDueAsWritten(e, now + TCP_DEFAULT_ITVL_MICROS) && ResendDue(e, now + TCP_DEFAULT_ITVL_MICROS)
  {
    var e := NewQueueEntry(seqNum, flags, data, now);
    assert e.lastSentAt == now && e.retryInterval == TCP_DEFAULT_ITVL_MICROS;
  }

  /** The TIME-WAIT test as written:
      `wait_time.unwrap().elapsed().unwrap().as_micros() > 0`. */
  function TimeWaitElapsedAsWritten(waitTime: Option<int>, now: int): (r: Result<bool>)
    ensures r.Panic? <==> waitTime.None? || now < waitTime.value
    ensures r.Ok? ==> r.value == (now > waitTime.value)
  {
    match waitTime
    case None => Panic(UNWRAP_NONE)
    case Some(t) => if now < t then Panic(UNWRAP_ERR) else Ok(now > t)
  }

  /** The TIME-WAIT test as intended: a deadline still in the future has
      not elapsed, instead of stopping the stack. A missing deadline still
      panics on `unwrap`. */
  function TimeWaitElapsed(waitTime: Option<int>, now: int): (r: Result<bool>)
    ensures r.Panic? <==> waitTime.None?
    ensures r.Ok? || r.Panic?
    ensures r.Ok? ==> r.value == (now > waitTime.value)
  {
    match waitTime
    case None => Panic(UNWRAP_NONE)
    case Some(t) => Ok(now > t)
  }

  /** The TIME-WAIT test of a reading. */
  function TimeWaitTest(reading: Reading, waitTime: Option<int>, now: int): (r: Result<bool>)
    ensures reading == AsWritten ==> r == TimeWaitElapsedAsWritten(waitTime, now)
    ensures reading == Corrected ==> r == TimeWaitElapsed(waitTime, now)
  {
    if reading == AsWritten then TimeWaitElapsedAsWritten(waitTime, now) else TimeWaitElapsed(waitTime, now)
  }

  /** A PCB that has just entered TIME-WAIT gets a deadline 30 s ahead;
      as written, every tick before that deadline panics, while the
      intended test reports "not elapsed". */
  lemma {:induction false} TimeWaitAsWrittenPanics(p: Pcb, now: int, later: int)
    requires p.waitTime.None? && now <= later < now + TCP_TIMEWAIT_MICROS
    ensures TimeWaitElapsedAsWritten(Tcp.SetWaitTime(p, now).waitTime, later).Panic?
    ensures TimeWaitElapsed(Tcp.SetWaitTime(p, now).waitTime, later) == Ok(false)
  {
    assert Tcp.SetWaitTime(p, now).waitTime == Some(now + TCP_TIMEWAIT_MICROS);
  }

  /** The segment that resends entry `e` of PCB `p`: its own sequence
      number, flags and data, with the PCB's current RCV.NXT and window. */
  function Resent(p: Pcb, e: QueueEntry): (s: Segment)
    ensures s.seqNum == e.seqNum && s.flags == e.flags && s.data == e.data
    ensures s.ackNum == p.rcv.next && s.window == p.rcv.window
    ensures s.local == p.local && s.remote == p.remote
  {
    Segment(e.seqNum, p.rcv.next, e.flags, p.rcv.window, e.data, p.local, p.remote)
  }

  /** One entry `e` of the queue of PCB `id`, sent no later than `now`. */
  function SweepEntry(reading: Reading, st: Stack, id: nat, e: QueueEntry, now: int): (r: Stack)
    requires id < |st.pcbs|
    ensures r.pcbs == st.pcbs[id := if Expired(e, now) then st.pcbs[id].(state := Closed) else st.pcbs[id]]
    ensures r.out == st.out + (if Due(reading, e, now) then [Resent(st.pcbs[id], e)] else [])
  {
    if Expired(e, now) then WakeAt(UpdateAt(st, id, st.pcbs[id].(state := Closed)), id, false)
    else if ResendTest(reading, e, now) then Emit(st, Resent(st.pcbs[id], e))
    else st
  }

  /** The inner loop over the queue `q` of PCB `id`. */
  function SweepQueue(reading: Reading, st: Stack, id: nat, q: seq<QueueEntry>, now: int): (r: Result<Stack>)
    requires id < |st.pcbs|
    decreases |q|
  {
    if q == [] then Ok(st)
    else if now < q[0].firstSentAt then Panic(UNWRAP_ERR)
    else SweepQueue(reading, SweepEntry(reading, st, id, q[0], now), id, q[1..], now)
  }

  /** One PCB of the outer loop. */
  function SweepPcb(reading: Reading, st: Stack, id: nat, now: int): (r: Result<Stack>)
    requires id < |st.pcbs|
  {
    var p := st.pcbs[id];
    if p.state == Free then Ok(st)
    else if p.state == TimeWait then
      var w := TimeWaitTest(reading, p.waitTime, now);
      if w.Panic? then Panic(w.reason)
      else if w.value then Ok(ReleaseAt(st, id))
      else SweepQueue(reading, st, id, p.queue, now)
    else SweepQueue(reading, st, id, p.queue, now)
  }

  /** The outer loop from slot `i` on. */
  function SweepFrom(reading: Reading, st: Stack, i: nat, now: int): (r: Result<Stack>)
    requires i <= |st.pcbs|
    decreases |st.pcbs| - i
  {
    if i == |st.pcbs| then Ok(st)
    else
      SweepPcbLength(reading, st, i, now);
      var r1 := SweepPcb(reading, st, i, now);
      if r1.Ok? then SweepFrom(reading, r1.value, i + 1, now) else r1
  }

  /** `retransmit` on the whole TCP state. */
  function Retransmitted(reading: Reading, st: Stack, now: int): Result<Stack> {
    SweepFrom(reading, st, 0, now)
  }

  // ---------------------------------------------------------------
  // Reference description of the sweep, PCB by PCB.

  /** Some entry of `q` was sent in the future: `elapsed().unwrap()` panics. */
  predicate FutureEntry(q: seq<QueueEntry>, now: int) {
    exists k :: 0 <= k < |q| && now < q[k].firstSentAt
  }

  predicate AnyExpired(q: seq<QueueEntry>, now: int) {
    exists k :: 0 <= k < |q| && Expired(q[k], now)
  }

  /** A TIME-WAIT PCB whose deadline has passed: released, queue unread. */
  predicate TimeWaitDone(p: Pcb, now: int) {
    p.state == TimeWait && p.waitTime.Some? && now > p.waitTime.value
  }

  /** The PCB's queue is inspected by the sweep. */
  predicate QueueSwept(reading: Reading, p: Pcb, now: int) {
    p.state != Free && !(p.state == TimeWait && TimeWaitTest(reading, p.waitTime, now).Panic?) && !TimeWaitDone(p, now)
  }

  /** The sweep stops the stack on this PCB. */
  predicate SweepPanics(reading: Reading, p: Pcb, now: int) {
    (p.state == TimeWait && TimeWaitTest(reading, p.waitTime, now).Panic?)
    || (QueueSwept(reading, p, now) && FutureEntry(p.queue, now))
  }

  /** The PCB as the sweep leaves it. */
  function Swept(reading: Reading, p: Pcb, now: int): Pcb {
    if TimeWaitDone(p, now) then Released(p)
    else if QueueSwept(reading, p, now) && AnyExpired(p.queue, now) then p.(state := Closed)
    else p
  }

  /** `s` resends a due entry of queue `q` of PCB `p`. */
  predicate ResendOf(reading: Reading, s: Segment, p: Pcb, q: seq<QueueEntry>, now: int) {
    exists e :: e in q && Due(reading, e, now) && s == Resent(p, e)
  }

  /** `s` resends a due entry of a PCB from slot `i` on whose queue the
      sweep inspects. */
  predicate ResendOfSome(reading: Reading, s: Segment, pcbs: seq<Pcb>, i: nat, now: int) {
    exists j :: i <= j < |pcbs| && QueueSwept(reading, pcbs[j], now) && ResendOf(reading, s, pcbs[j], pcbs[j].queue, now)
  }

  // ---------------------------------------------------------------
  // Properties.

  lemma {:induction false} SweepQueueLength(reading: Reading, st: Stack, id: nat, q: seq<QueueEntry>, now: int)
    requires id < |st.pcbs|
    ensures var r := SweepQueue(reading, st, id, q, now);
            r.Ok? ==> |r.value.pcbs| == |st.pcbs|
    decreases |q|
  {
    if q != [] && now >= q[0].firstSentAt {
      SweepQueueLength(reading, SweepEntry(reading, st, id, q[0], now), id, q[1..], now);
    }
  }

  lemma SweepPcbLength(reading: Reading, st: Stack, id: nat, now: int)
    requires id < |st.pcbs|
    ensures var r := SweepPcb(reading, st, id, now);
            r.Ok? ==> |r.value.pcbs| == |st.pcbs|
  {
    SweepQueueLength(reading, st, id, st.pcbs[id].queue, now);
  }

  /** The queue loop panics exactly when some entry was sent in the
      future, touches no other slot, and closes the PCB exactly when some
      entry has been outstanding for 12 s. */
  lemma {:induction false} SweepQueuePcbs(reading: Reading, st: Stack, id: nat, q: seq<QueueEntry>, now: int)
    requires id < |st.pcbs|
    ensures var r := SweepQueue(reading, st, id, q, now);
            (r.Panic? <==> FutureEntry(q, now)) && (r.Ok? || r.Panic?)
            && (r.Ok? ==>
                  |r.value.pcbs| == |st.pcbs|
                  && (forall j :: 0 <= j < |st.pcbs| && j != id ==> r.value.pcbs[j] == st.pcbs[j])
                  && r.value.pcbs[id] == (if AnyExpired(q, now) then st.pcbs[id].(state := Closed) else st.pcbs[id]))
    decreases |q|
  {
    if q != [] {
      var e := q[0];
      assert forall k :: 0 <= k < |q[1..]| ==> q[1..][k] == q[k + 1];
      if now < e.firstSentAt {
        assert FutureEntry(q, now) by { assert now < q[0].firstSentAt; }
      } else {
        var st1 := SweepEntry(reading, st, id, e, now);
        SweepQueuePcbs(reading, st1, id, q[1..], now);
        assert FutureEntry(q, now) <==> FutureEntry(q[1..], now) by {
          if FutureEntry(q, now) {
            var k :| 0 <= k < |q| && now < q[k].firstSentAt;
            assert k != 0;
            assert q[1..][k - 1] == q[k];
          }
        }
        assert AnyExpired(q, now) <==> Expired(e, now) || AnyExpired(q[1..], now) by {
          if AnyExpired(q, now) && !Expired(e, now) {
            var k :| 0 <= k < |q| && Expired(q[k], now);
            assert q[1..][k - 1] == q[k];
          }
          if Expired(e, now) {
            assert Expired(q[0], now);
          }
        }
      }
    }
  }

  /** The queue loop only appends to the segment log. */
  lemma {:induction false} SweepQueueAppends(reading: Reading, st: Stack, id: nat, q: seq<QueueEntry>, now: int)
    requires id < |st.pcbs|
    ensures var r := SweepQueue(reading, st, id, q, now);
            r.Ok? ==> |st.out| <= |r.value.out| && r.value.out[..|st.out|] == st.out
    decreases |q|
  {
    if q != [] && now >= q[0].firstSentAt {
      var st1 := SweepEntry(reading, st, id, q[0], now);
      SweepQueueAppends(reading, st1, id, q[1..], now);
      var r := SweepQueue(reading, st1, id, q[1..], now);
      if r.Ok? {
        assert r.value.out[..|st1.out|][..|st.out|] == r.value.out[..|st.out|];
      }
    }
  }

  /** Every segment the queue loop appends resends a due entry of the
      queue, with the entry's own sequence number, flags and data. */
  lemma {:induction false} SweepQueueSound(reading: Reading, st: Stack, id: nat, q: seq<QueueEntry>, now: int)
    requires id < |st.pcbs|
    ensures var r := SweepQueue(reading, st, id, q, now);
            r.Ok? ==> forall k :: |st.out| <= k < |r.value.out| ==> ResendOf(reading, r.value.out[k], st.pcbs[id], q, now)
    decreases |q|
  {
    if q != [] && now >= q[0].firstSentAt {
      var e := q[0];
      var st1 := SweepEntry(reading, st, id, e, now);
      assert st1.pcbs[id].rcv == st.pcbs[id].rcv && st1.pcbs[id].local == st.pcbs[id].local
             && st1.pcbs[id].remote == st.pcbs[id].remote;
      SweepQueueSound(reading, st1, id, q[1..], now);
      SweepQueueAppends(reading, st1, id, q[1..], now);
      var r := SweepQueue(reading, st1, id, q[1..], now);
      if r.Ok? {
        var o := r.value.out;
        forall k | |st.out| <= k < |o|
          ensures ResendOf(reading, o[k], st.pcbs[id], q, now)
        {
          if k < |st1.out| {
            assert o[k] == st1.out[k] by { assert o[..|st1.out|][k] == o[k]; }
            assert e in q && Due(reading, e, now) && o[k] == Resent(st.pcbs[id], e);
          } else {
            assert ResendOf(reading, o[k], st1.pcbs[id], q[1..], now);
            var x :| x in q[1..] && Due(reading, x, now) && o[k] == Resent(st1.pcbs[id], x);
            assert x in q && Due(reading, x, now) && o[k] == Resent(st.pcbs[id], x);
          }
        }
      }
    }
  }

  /** Every due entry of the queue is sent again: the loop does not stop
      at the first one. */
  lemma {:induction false} SweepQueueComplete(reading: Reading, st: Stack, id: nat, q: seq<QueueEntry>, now: int)
    requires id < |st.pcbs|
    ensures var r := SweepQueue(reading, st, id, q, now);
            r.Ok? ==> |st.out| <= |r.value.out|
                      && forall e :: e in q && Due(reading, e, now) ==> Resent(st.pcbs[id], e) in r.value.out[|st.out|..]
    decreases |q|
  {
    if q != [] && now >= q[0].firstSentAt {
      var e := q[0];
      var st1 := SweepEntry(reading, st, id, e, now);
      assert st1.pcbs[id].rcv == st.pcbs[id].rcv && st1.pcbs[id].local == st.pcbs[id].local
             && st1.pcbs[id].remote == st.pcbs[id].remote;
      SweepQueueComplete(reading, st1, id, q[1..], now);
      SweepQueueAppends(reading, st1, id, q[1..], now);
      var r := SweepQueue(reading, st1, id, q[1..], now);
      if r.Ok? {
        var o := r.value.out;
        forall x | x in q && Due(reading, x, now)
          ensures Resent(st.pcbs[id], x) in o[|st.out|..]
        {
          if x == e {
            assert o[|st.out|] == Resent(st.pcbs[id], e) by { assert o[..|st1.out|][|st.out|] == o[|st.out|]; }
            assert o[|st.out|..][0] == o[|st.out|];
          } else {
            assert x in q[1..];
            assert Resent(st1.pcbs[id], x) == Resent(st.pcbs[id], x);
            var k :| 0 <= k < |o[|st1.out|..]| && o[|st1.out|..][k] == Resent(st.pcbs[id], x);
            assert o[|st.out|..][k + |st1.out| - |st.out|] == o[|st1.out|..][k];
          }
        }
      }
    }
  }

  /** The outer loop from slot `i`: it panics exactly when some PCB from
      `i` on stops the sweep, and otherwise leaves the slots before `i`
      alone and every slot from `i` on as `Swept` describes. */
  lemma {:induction false} SweepFromPcbs(reading: Reading, st: Stack, i: nat, now: int)
    requires i <= |st.pcbs|
    ensures var r := SweepFrom(reading, st, i, now);
            (r.Panic? <==> exists j :: i <= j < |st.pcbs| && SweepPanics(reading, st.pcbs[j], now))
            && (r.Ok? ==>
                  |r.value.pcbs| == |st.pcbs|
                  && (forall j :: 0 <= j < i ==> r.value.pcbs[j] == st.pcbs[j])
                  && (forall j :: i <= j < |st.pcbs| ==> r.value.pcbs[j] == Swept(reading, st.pcbs[j], now)))
    decreases |st.pcbs| - i
  {
    if i < |st.pcbs| {
      var p := st.pcbs[i];
      var r1 := SweepPcb(reading, st, i, now);
      SweepQueuePcbs(reading, st, i, p.queue, now);
      assert r1.Panic? <==> SweepPanics(reading, p, now);
      assert r1.Ok? || r1.Panic?;
      if r1.Ok? {
        var st1 := r1.value;
        assert |st1.pcbs| == |st.pcbs| && st1.pcbs[i] == Swept(reading, p, now);
        assert forall j :: 0 <= j < |st.pcbs| && j != i ==> st1.pcbs[j] == st.pcbs[j];
        SweepFromPcbs(reading, st1, i + 1, now);
      }
    }
  }

  /** `retransmit` as a whole: it stops the stack exactly when some PCB
      is in TIME-WAIT without a deadline, or has its queue inspected while
      an entry was sent in the future; otherwise every PCB ends as
      `Swept` says: Free PCBs untouched, expired TIME-WAIT PCBs released,
      PCBs with an entry outstanding for 12 s closed, all others as they
      were, queues included. */
  lemma RetransmitPcbs(reading: Reading, st: Stack, now: int)
    ensures var r := Retransmitted(reading, st, now);
            (r.Panic? <==> exists j :: 0 <= j < |st.pcbs| && SweepPanics(reading, st.pcbs[j], now))
            && (r.Ok? ==>
                  |r.value.pcbs| == |st.pcbs|
                  && forall j :: 0 <= j < |st.pcbs| ==> r.value.pcbs[j] == Swept(reading, st.pcbs[j], now))
  {
    SweepFromPcbs(reading, st, 0, now);
  }

  /** `Swept` keeps every queue that is not released, and never touches a
      Free PCB. */
  lemma SweptKeepsQueues(reading: Reading, p: Pcb, now: int)
    ensures p.state == Free ==> Swept(reading, p, now) == p
    ensures !TimeWaitDone(p, now) ==> Swept(reading, p, now).queue == p.queue
    ensures TimeWaitDone(p, now) ==> Swept(reading, p, now).state == Free && Swept(reading, p, now).queue == []
  {
  }

  /** The outer loop from slot `i` only appends to the segment log, and
      each appended segment resends a due entry of a PCB whose queue was
      swept. */
  lemma {:induction false} SweepFromOut(reading: Reading, st: Stack, i: nat, now: int)
    requires i <= |st.pcbs|
    ensures var r := SweepFrom(reading, st, i, now);
            r.Ok? ==> |st.out| <= |r.value.out| && r.value.out[..|st.out|] == st.out
                      && forall k :: |st.out| <= k < |r.value.out| ==> ResendOfSome(reading, r.value.out[k], st.pcbs, i, now)
    decreases |st.pcbs| - i
  {
    if i < |st.pcbs| {
      var p := st.pcbs[i];
      var r1 := SweepPcb(reading, st, i, now);
      SweepQueuePcbs(reading, st, i, p.queue, now);
      if r1.Ok? {
        var st1 := r1.value;
        SweepFromOut(reading, st1, i + 1, now);
        var r := SweepFrom(reading, st1, i + 1, now);
        if r.Ok? {
          var o := r.value.out;
          if QueueSwept(reading, p, now) {
            assert r1 == SweepQueue(reading, st, i, p.queue, now);
            SweepQueueAppends(reading, st, i, p.queue, now);
            SweepQueueSound(reading, st, i, p.queue, now);
          } else {
            assert st1.out == st.out;
          }
          assert |st.out| <= |st1.out| && st1.out[..|st.out|] == st.out;
          assert o[..|st.out|] == st.out by {
            assert o[..|st1.out|][..|st.out|] == o[..|st.out|];
          }
          forall k | |st.out| <= k < |o|
            ensures ResendOfSome(reading, o[k], st.pcbs, i, now)
          {
            if k < |st1.out| {
              assert QueueSwept(reading, p, now);
              assert o[k] == st1.out[k] by { assert o[..|st1.out|][k] == o[k]; }
              assert ResendOf(reading, o[k], st.pcbs[i], st.pcbs[i].queue, now);
            } else {
              assert ResendOfSome(reading, o[k], st1.pcbs, i + 1, now);
              var j :| i + 1 <= j < |st1.pcbs| && QueueSwept(reading, st1.pcbs[j], now)
                       && ResendOf(reading, o[k], st1.pcbs[j], st1.pcbs[j].queue, now);
              assert st1.pcbs[j] == st.pcbs[j];
            }
          }
        }
      }
    }
  }

  /** Every segment `retransmit` emits resends a due queue entry of a PCB
      whose queue was inspected, with the entry's own sequence number,
      flags and data; earlier log entries are kept. */
  lemma RetransmitOut(reading: Reading, st: Stack, now: int)
    ensures var r := Retransmitted(reading, st, now);
            r.Ok? ==> |st.out| <= |r.value.out| && r.value.out[..|st.out|] == st.out
                      && forall k :: |st.out| <= k < |r.value.out| ==> ResendOfSome(reading, r.value.out[k], st.pcbs, 0, now)
  {
    SweepFromOut(reading, st, 0, now);
  }

  /** Finding F3 inside `retransmit`: a TIME-WAIT PCB whose deadline lies
      ahead stops the stack as written, whatever the other PCBs are; the
      corrected sweep stops on it only when its queue holds an entry sent
      in the future. */
  lemma RetransmitTimeWaitAsWritten(st: Stack, j: nat, now: int)
    requires j < |st.pcbs| && st.pcbs[j].state == TimeWait
    requires st.pcbs[j].waitTime.Some? && now < st.pcbs[j].waitTime.value
    ensures Retransmitted(AsWritten, st, now).Panic?
    ensures SweepPanics(Corrected, st.pcbs[j], now) <==> FutureEntry(st.pcbs[j].queue, now)
  {
    RetransmitPcbs(AsWritten, st, now);
    assert SweepPanics(AsWritten, st.pcbs[j], now);
  }

  /** Finding F2 inside the queue sweep: an entry queued at `t` is sent
      again by every tick in [t, t + 200 ms) as written, and by none of
      them when corrected. */
  lemma {:induction false} FreshEntrySweptAsWritten(st: Stack, id: nat, seqNum: u32, flags: bv8, data: seq<byte>,
                                                    t: int, now: int)
    requires id < |st.pcbs| && t <= now < t + TCP_DEFAULT_ITVL_MICROS
    ensures var e := NewQueueEntry(seqNum, flags, data, t);
            SweepEntry(AsWritten, st, id, e, now) == Emit(st, Resent(st.pcbs[id], e))
            && SweepEntry(Corrected, st, id, e, now) == st
  {
    var e := NewQueueEntry(seqNum, flags, data, t);
    assert !Expired(e, now) && ResendDueAsWritten(e, now) && !ResendDue(e, now);
  }
}
