/** The user commands of src/protocols/ip/tcp.rs (`rfc793_open`, `open`,
    `connect`, `bind`, `listen`, `accept`, `receive` and `close`), up to
    the point where the calling thread blocks on its channel, stated on
    the whole TCP state. The route lookup of `connect` and the random
    initial sequence number are parameters. */
module TcpUser {
  import opened Common
  import Ip
  import opened Tcp
  import opened TcpArrive

  const PCB_NOT_FOUND := "TCP: PCB with specified id was not found."
  const NOT_SOCKET := "TCP: PCB was not open in socket mode."

  /** `open`: the first Free PCB becomes a Closed socket-mode PCB. */
  function OpenAt(st: Stack): (r: Result<(Stack, nat)>)
    ensures r.Panic? <==> FirstFree(st.pcbs).None?
    ensures r.Ok? ==>
              var (st1, i) := r.value;
              i < |st.pcbs| && st.pcbs[i].state == Free
              && (forall j :: 0 <= j < i ==> st.pcbs[j].state != Free)
              && st1.pcbs == st.pcbs[i := st.pcbs[i].(state := Closed, mode := Socket)]
              && st1.out == st.out && st1.wakes == st.wakes
  {
    match FirstFree(st.pcbs)
    case None => Panic("TCP open: failed to create a new PCB.")
    case Some(i) => Ok((UpdateAt(st, i, st.pcbs[i].(state := Closed, mode := Socket)), i))
  }

  /** `bind`: the local endpoint of a socket-mode PCB, unless some PCB
      already uses it. */
  function BindAt(st: Stack, id: nat, local: Ip.Endpoint): (r: Result<Stack>)
    ensures r.Ok? || r.Panic?
  {
    if Select(st.pcbs, local, None).Some? then Panic("TCP: ip address and port already exist.")
    else if id >= |st.pcbs| then Panic(PCB_NOT_FOUND)
    else if st.pcbs[id].mode != Socket then Panic(NOT_SOCKET)
    else Ok(UpdateAt(st, id, st.pcbs[id].(local := local)))
  }

  /** `listen`: a socket-mode PCB enters LISTEN. */
  function ListenAt(st: Stack, id: nat): (r: Result<Stack>)
    ensures r.Ok? || r.Panic?
  {
    if id >= |st.pcbs| then Panic(PCB_NOT_FOUND)
    else if st.pcbs[id].mode != Socket then Panic(NOT_SOCKET)
    else Ok(UpdateAt(st, id, st.pcbs[id].(state := Listen)))
  }

  /** The active open shared by `rfc793_open` and `connect`: the receive
      window becomes the buffer length, the SYN is sent with ISS, then
      SND.UNA = ISS, SND.NXT = ISS+1 and the state is SYN-SENT. */
  function ActiveStart(st: Stack, id: nat, iss: u32, now: int): (r: Stack)
    requires id < |st.pcbs| && iss < U32_MAX
    ensures |r.pcbs| == |st.pcbs| && r.wakes == st.wakes
  {
    var p := st.pcbs[id];
    var a := OutputAt(UpdateAt(st, id, p.(rcv := p.rcv.(window := |p.buf| % 0x1_0000), iss := iss)), id, SYN, [], now);
    var q := a.pcbs[id];
    UpdateAt(a, id, q.(snd := q.snd.(una := iss, next := iss + 1), state := SynSent))
  }

  /** The port loop of `connect`: the first port from `port` up to (not
      including) 65535 that `select` finds unused together with `remote`;
      when every one is in use the loop ends on 65534. */
  function {:induction false} FreePortFrom(pcbs: seq<Pcb>, address: u32, remote: Ip.Endpoint, port: nat): (r: u16)
    requires TCP_SRC_PORT_MIN <= port < TCP_SRC_PORT_MAX
    ensures port <= r < TCP_SRC_PORT_MAX
    ensures Select(pcbs, Ip.Endpoint(address, r), Some(remote)).None? || r == TCP_SRC_PORT_MAX - 1
    ensures forall q :: port <= q < r ==> Select(pcbs, Ip.Endpoint(address, q), Some(remote)).Some?
    decreases TCP_SRC_PORT_MAX - port
  {
    if Select(pcbs, Ip.Endpoint(address, port), Some(remote)).None? || port == TCP_SRC_PORT_MAX - 1 then port
    else FreePortFrom(pcbs, address, remote, port + 1)
  }

  /** `connect`: checks the PCB, fills in a wildcard local address from
      the route to `remote` (`route` is the unicast address of the
      interface found, if any) and a zero local port from the dynamic
      range, then opens actively and keeps the channel. */
  function ConnectAt(st: Stack, id: nat, remote: Ip.Endpoint, route: Option<u32>, iss: u32, now: int): (r: Result<Stack>)
    requires iss < U32_MAX
    ensures r.Ok? || r.Panic?
    ensures r.Ok? ==> |r.value.pcbs| == |st.pcbs|
  {
    if id >= |st.pcbs| then Panic(PCB_NOT_FOUND)
    else
      var p := st.pcbs[id];
      if p.mode != Socket then Panic("TCP: pcb is not opened as socket mode.")
      else if p.local.address == Ip.IP_ADDR_ANY && route.None? then Panic("TCP: interface was not found.")
      else
        var address := if p.local.address == Ip.IP_ADDR_ANY then route.value else p.local.address;
        var port := if p.local.port == 0 then FreePortFrom(st.pcbs, address, remote, TCP_SRC_PORT_MIN)
                    else p.local.port;
        var a := ActiveStart(UpdateAt(st, id, p.(local := Ip.Endpoint(address, port), remote := remote)), id, iss, now);
        Ok(UpdateAt(a, id, a.pcbs[id].(hasSender := true)))
  }

  /** `rfc793_open`: a fresh RFC 793 mode PCB with the given local
      endpoint, the given remote one if any, and the caller's channel;
      passive opens enter LISTEN, active ones start as `ActiveStart` says. */
  function Rfc793OpenAt(st: Stack, local: Ip.Endpoint, remote: Option<Ip.Endpoint>, active: bool, iss: u32, now: int)
    : (r: Result<(Stack, nat)>)
    requires iss < U32_MAX
    ensures r.Panic? <==> FirstFree(st.pcbs).None?
    ensures r.Ok? ==>
              var (st1, i) := r.value;
              Some(i) == FirstFree(st.pcbs) && |st1.pcbs| == |st.pcbs|
              && st1.pcbs[i].mode == Rfc793 && st1.pcbs[i].local == local && st1.pcbs[i].hasSender
              && (remote.Some? ==> st1.pcbs[i].remote == remote.value)
              && (!active ==> st1.pcbs[i].state == Listen && st1.out == st.out)
              && (active ==> st1.pcbs[i].state == SynSent && |st1.out| == |st.out| + 1
                             && st1.out[|st.out|].flags == SYN && st1.out[|st.out|].seqNum == iss)
              && forall j :: 0 <= j < |st.pcbs| && j != i ==> st1.pcbs[j] == st.pcbs[j]
  {
    match FirstFree(st.pcbs)
    case None => Panic("TCP: failed to create a new PCB.")
    case Some(i) =>
      var p1 := Opened(st.pcbs[i], local, remote);
      if !active then Ok((UpdateAt(st, i, p1.(state := Listen)), i))
      else Ok((ActiveStart(UpdateAt(st, i, p1), i, iss, now), i))
  }

  /** A claimed PCB set up by `rfc793_open`: Closed, in RFC 793 mode, with
      the local endpoint, the remote one when given, and the channel. */
  function Opened(p: Pcb, local: Ip.Endpoint, remote: Option<Ip.Endpoint>): (r: Pcb)
    ensures r.state == Closed && r.mode == Rfc793 && r.local == local && r.hasSender
    ensures r.remote == (if remote.Some? then remote.value else p.remote)
    ensures r.(state := p.state, mode := p.mode, local := p.local, hasSender := p.hasSender, remote := p.remote) == p
  {
    var q := p.(state := Closed, mode := Rfc793, local := local, hasSender := true);
    if remote.Some? then q.(remote := remote.value) else q
  }

  /** `accept` up to its first wait: a socket-mode LISTEN PCB keeps the
      channel and takes the first PCB off its backlog; with an empty
      backlog the call returns `None` at once. */
  function AcceptAt(st: Stack, id: nat): (r: Result<(Stack, Option<nat>)>)
    ensures r.Ok? || r.Panic?
    ensures r.Ok? <==> id < |st.pcbs| && st.pcbs[id].mode == Socket && st.pcbs[id].state == Listen
    ensures r.Ok? ==>
              var (st1, next) := r.value;
              |st1.pcbs| == |st.pcbs| && (next.None? <==> st.pcbs[id].backlog == [])
              && (next.Some? ==> [next.value] + st1.pcbs[id].backlog == st.pcbs[id].backlog)
              && st1.pcbs[id].hasSender && st1.out == st.out
              && forall j :: 0 <= j < |st.pcbs| && j != id ==> st1.pcbs[j] == st.pcbs[j]
  {
    if id >= |st.pcbs| then Panic(PCB_NOT_FOUND)
    else
      var p := st.pcbs[id];
      if p.mode != Socket then Panic(NOT_SOCKET)
      else if p.state != Listen then Panic("TCP: PCB is not in LISTEN state.")
      else if p.backlog == [] then Ok((UpdateAt(st, id, p.(hasSender := true)), None))
      else Ok((UpdateAt(st, id, p.(hasSender := true, backlog := p.backlog[1..])), Some(p.backlog[0])))
  }

  /** What `receive` does after its first look at the PCB. */
  datatype ReceiveOutcome =
    | Refused                    // returns `None`
    | Waiting                    // sleeps on the channel
    | Spinning                   // loops without end (CLOSING, LAST-ACK, TIME-WAIT, unknown)
    | Delivered(data: seq<byte>) // returns `Some(data)`

  /** The end of `receive`: `min(size, remain)` bytes leave the front of
      the buffer and the receive window grows by their number (a `u16`
      addition that panics when it overflows). */
  function Take(st: Stack, id: nat, size: nat, remain: nat): (r: Result<(Stack, ReceiveOutcome)>)
    requires id < |st.pcbs| && remain <= |st.pcbs[id].buf|
    ensures r.Ok? || r.Panic?
  {
    var p := st.pcbs[id];
    var len := if size < remain then size else remain;
    if p.rcv.window + len % 0x1_0000 > 0xffff then Panic("attempt to add with overflow")
    else Ok((UpdateAt(st, id, p.(buf := p.buf[len..], rcv := p.rcv.(window := p.rcv.window + len % 0x1_0000))),
             Delivered(p.buf[..len])))
  }

  /** `receive` up to its first wait. The bytes available are
      `buf.len() - window`, a `usize` subtraction that panics when the
      window is the larger. */
  function ReceiveAt(st: Stack, id: nat, size: nat): (r: Result<(Stack, ReceiveOutcome)>)
    ensures r.Ok? || r.Panic?
    ensures id >= |st.pcbs| ==> r.Panic?
    ensures id < |st.pcbs| && st.pcbs[id].state in {Closed, Listen, SynSent, SynReceived} ==> r.Ok? && r.value.1 == Refused
    ensures id < |st.pcbs| && st.pcbs[id].state in {Closing, LastAck, TimeWait, Free} ==> r.Ok? && r.value.1 == Spinning
    ensures id < |st.pcbs| && st.pcbs[id].state in {Established, FinWait1, FinWait2} ==>
              (|st.pcbs[id].buf| == st.pcbs[id].rcv.window ==> r.Ok? && r.value.1 == Waiting)
    ensures id < |st.pcbs| && st.pcbs[id].state in {Established, FinWait1, FinWait2, CloseWait} ==>
              (|st.pcbs[id].buf| < st.pcbs[id].rcv.window ==> r.Panic?)
  {
    if id >= |st.pcbs| then Panic(PCB_NOT_FOUND)
    else Look(UpdateAt(st, id, st.pcbs[id].(hasSender := true)), id, size)
  }

  /** The first look of `receive` at PCB `id` in the state it decides on. */
  function Look(st: Stack, id: nat, size: nat): (r: Result<(Stack, ReceiveOutcome)>)
    requires id < |st.pcbs|
    ensures r.Ok? || r.Panic?
  {
    var p := st.pcbs[id];
    if p.state in {Closed, Listen, SynSent, SynReceived} then Ok((st, Refused))
    else if p.state in {Established, FinWait1, FinWait2, CloseWait} then
      if |p.buf| < p.rcv.window then Panic("attempt to subtract with overflow")
      else
        var remain := |p.buf| - p.rcv.window;
        if remain == 0 && p.state != CloseWait then Ok((st, Waiting))
        else Take(st, id, size, remain)
    else Ok((st, Spinning))
  }

  /** `close`: an existing PCB sends RST and is released; any other id is
      ignored. */
  function CloseAt(st: Stack, id: nat, now: int): (r: Stack)
    ensures |r.pcbs| == |st.pcbs|
  {
    if id < |st.pcbs| then ReleaseAt(OutputAt(st, id, RST, [], now), id) else st
  }

  // ---------------------------------------------------------------
  // Properties.

  /** `listen` succeeds exactly on an existing socket-mode PCB; it then
      enters LISTEN, keeps every other field, and nothing else changes. */
  lemma ListenRules(st: Stack, id: nat)
    ensures ListenAt(st, id).Ok? <==> id < |st.pcbs| && st.pcbs[id].mode == Socket
    ensures ListenAt(st, id).Ok? ==>
              var r := ListenAt(st, id).value;
              |r.pcbs| == |st.pcbs| && r.pcbs[id].state == Listen
              && r.pcbs[id].(state := st.pcbs[id].state) == st.pcbs[id]
              && (forall j :: 0 <= j < |st.pcbs| && j != id ==> r.pcbs[j] == st.pcbs[j])
              && r.out == st.out && r.wakes == st.wakes
  {
  }

  /** `bind` refuses an endpoint that any PCB already uses, whatever its
      state, and otherwise changes only the local endpoint of the PCB. */
  lemma BindRules(st: Stack, id: nat, local: Ip.Endpoint)
    ensures (exists j :: 0 <= j < |st.pcbs| && LocalMatch(st.pcbs[j], local)) ==> BindAt(st, id, local).Panic?
    ensures BindAt(st, id, local).Ok? ==>
              id < |st.pcbs| && st.pcbs[id].mode == Socket
              && BindAt(st, id, local).value == UpdateAt(st, id, st.pcbs[id].(local := local))
  {
    SelectRules(st.pcbs, local, None);
  }

  /** The local ports of a PCB sequence; there are no more of them than
      PCBs. */
  function {:induction false} Ports(pcbs: seq<Pcb>): (r: set<int>)
    ensures forall j :: 0 <= j < |pcbs| ==> pcbs[j].local.port as int in r
    ensures |r| <= |pcbs|
  {
    if pcbs == [] then {}
    else
      var rest := Ports(pcbs[1..]);
      assert forall j :: 1 <= j < |pcbs| ==> pcbs[j] == pcbs[1..][j - 1];
      assert |rest + {pcbs[0].local.port as int}| <= |rest| + 1;
      rest + {pcbs[0].local.port as int}
  }

  /** The integers from `lo` up to, not including, `lo + n`. */
  function {:induction false} Interval(lo: int, n: nat): (r: set<int>)
    ensures forall x :: x in r <==> lo <= x < lo + n
    ensures |r| == n
  {
    if n == 0 then {} else
      var r0 := Interval(lo, n - 1);
      assert lo + n - 1 !in r0;
      r0 + {lo + n - 1}
  }

  /** When the port loop ends on a port in use, every port it tried is a
      local port of some PCB. */
  lemma BusyPortsTried(pcbs: seq<Pcb>, address: u32, remote: Ip.Endpoint, n: nat)
    requires n <= TCP_SRC_PORT_MAX - TCP_SRC_PORT_MIN
    requires Select(pcbs, Ip.Endpoint(address, FreePortFrom(pcbs, address, remote, TCP_SRC_PORT_MIN)), Some(remote)).Some?
    ensures Interval(TCP_SRC_PORT_MIN as int, n) <= Ports(pcbs)
  {
    var r := FreePortFrom(pcbs, address, remote, TCP_SRC_PORT_MIN);
    forall x | x in Interval(TCP_SRC_PORT_MIN as int, n) ensures x in Ports(pcbs) {
      var s := Select(pcbs, Ip.Endpoint(address, x), Some(remote));
      assert s.Some?;
      SelectRules(pcbs, Ip.Endpoint(address, x), Some(remote));
      assert pcbs[s.value].local.port == x;
    }
  }

  /** With fewer PCBs than ports in the dynamic range, the port loop of
      `connect` always ends on a port that `select` finds unused; the
      "dynamic port assignment failed" panic cannot happen. */
  lemma FreePortFound(pcbs: seq<Pcb>, address: u32, remote: Ip.Endpoint)
    requires |pcbs| < TCP_SRC_PORT_MAX - TCP_SRC_PORT_MIN
    ensures Select(pcbs, Ip.Endpoint(address, FreePortFrom(pcbs, address, remote, TCP_SRC_PORT_MIN)), Some(remote)).None?
  {
    var r := FreePortFrom(pcbs, address, remote, TCP_SRC_PORT_MIN);
    if Select(pcbs, Ip.Endpoint(address, r), Some(remote)).Some? {
      var range := Interval(TCP_SRC_PORT_MIN as int, |pcbs| + 1);
      BusyPortsTried(pcbs, address, remote, |pcbs| + 1);
      SubsetSize(range, Ports(pcbs));
    }
  }

  lemma SubsetSize(a: set<int>, b: set<int>)
    requires a <= b
    ensures |a| <= |b|
  {
    assert b == a + (b - a);
  }

  /** `connect` on a socket-mode PCB sends exactly one segment, a SYN
      numbered ISS from the completed local endpoint to `remote`, and
      leaves the PCB in SYN-SENT with SND.UNA = ISS, SND.NXT = ISS+1, a
      non-zero local port and the caller's channel; no other PCB changes. */
  lemma ConnectSendsSyn(st: Stack, id: nat, remote: Ip.Endpoint, route: Option<u32>, iss: u32, now: int)
    requires iss < U32_MAX
    ensures var r := ConnectAt(st, id, remote, route, iss, now);
            r.Ok? ==>
              id < |st.pcbs| && st.pcbs[id].mode == Socket
              && |r.value.out| == |st.out| + 1 && r.value.out[..|st.out|] == st.out
              && var s := r.value.out[|st.out|];
                 var q := r.value.pcbs[id];
                 s.flags == SYN && s.seqNum == iss && s.data == [] && s.remote == remote && s.local == q.local
                 && q.local.port != 0 && q.state == SynSent && q.snd.una == iss && q.snd.next == iss + 1
                 && q.iss == iss && q.hasSender && q.remote == remote
                 && (forall j :: 0 <= j < |st.pcbs| && j != id ==> r.value.pcbs[j] == st.pcbs[j])
  {
    var r := ConnectAt(st, id, remote, route, iss, now);
    if r.Ok? {
      var p := st.pcbs[id];
      var address := if p.local.address == Ip.IP_ADDR_ANY then route.value else p.local.address;
      var port := if p.local.port == 0 then FreePortFrom(st.pcbs, address, remote, TCP_SRC_PORT_MIN)
                  else p.local.port;
      assert port != 0;
      var st0 := UpdateAt(st, id, p.(local := Ip.Endpoint(address, port), remote := remote));
      var p0 := st0.pcbs[id];
      var st1 := UpdateAt(st0, id, p0.(rcv := p0.rcv.(window := |p0.buf| % 0x1_0000), iss := iss));
      var e := Tcp.Output(st1.pcbs[id], SYN, [], now);
      assert e.segment.seqNum == iss;
      assert r.value.out == st.out + [e.segment];
    }
  }

  /** What `receive` delivers is the front of the buffer, no more than
      asked for and no more than `buf.len() - window`; the buffer keeps
      the rest and the window grows by the amount taken. */
  lemma ReceiveTakesFront(st: Stack, id: nat, size: nat)
    ensures var r := ReceiveAt(st, id, size);
            r.Ok? && r.value.1.Delivered? ==>
              var (st1, out) := r.value;
              var p := st.pcbs[id];
              id < |st.pcbs| && p.rcv.window <= |p.buf|
              && out.data + st1.pcbs[id].buf == p.buf
              && |out.data| == (if size < |p.buf| - p.rcv.window then size else |p.buf| - p.rcv.window)
              && st1.pcbs[id].rcv.window == p.rcv.window + |out.data| % 0x1_0000
              && st1.out == st.out
  {
    var r := ReceiveAt(st, id, size);
    if r.Ok? && r.value.1.Delivered? {
      var p := st.pcbs[id];
      var remain := |p.buf| - p.rcv.window;
      var len := if size < remain then size else remain;
      assert p.buf[..len] + p.buf[len..] == p.buf;
    }
  }

  /** `close` answers with RST from SND.NXT and frees the slot. */
  lemma CloseResets(st: Stack, id: nat, now: int)
    requires id < |st.pcbs|
    ensures var r := CloseAt(st, id, now);
            |r.out| == |st.out| + 1 && r.out[..|st.out|] == st.out
            && r.out[|st.out|].flags == RST && r.out[|st.out|].seqNum == st.pcbs[id].snd.next
            && r.pcbs[id].state == Free && r.pcbs[id].queue == []
            && forall j :: 0 <= j < |st.pcbs| && j != id ==> r.pcbs[j] == st.pcbs[j]
  {
    assert !FlagExists(RST, SYN) && !FlagExists(RST, FIN);
  }

  /** An active open on a PCB whose buffer is empty, as every fresh PCB's
      is, advertises a zero receive window; with that window only empty
      segments at RCV.NXT are acceptable, so no data can arrive until the
      window grows. */
  lemma EmptyBufferZeroWindow(st: Stack, id: nat, iss: u32, now: int, seg: SegmentInfo)
    requires id < |st.pcbs| && iss < U32_MAX && st.pcbs[id].buf == []
    ensures var q := ActiveStart(st, id, iss, now).pcbs[id];
            q.rcv.window == 0
            && (AcceptFits(q.rcv, seg) ==> (Acceptable(q.rcv, seg) ==> seg.len == 0))
  {
    var q := ActiveStart(st, id, iss, now).pcbs[id];
    if AcceptFits(q.rcv, seg) {
      ZeroWindowAcceptsOnlyEmpty(q.rcv, seg);
    }
  }
}
