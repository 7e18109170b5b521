/** Ethertype dispatch and the per-protocol input queues of
    src/protocols/mod.rs. What each protocol's `input` does with an entry
    is modelled in Arp (and, for IP, not at all here): `handle_input`
    returns the sequence of (entry, device) pairs it hands to `input`. */
module Protocols {
  import opened Common

  datatype ProtocolType = Arp | IP | Unknown

  /** `ether_type as u16`: the enum's discriminants; `Unknown`, written
      after `IP = 0x0800`, takes the next value. */
  function ToU16(t: ProtocolType): u16 {
    match t
    case Arp => 0x0806
    case IP => 0x0800
    case Unknown => 0x0801
  }

  /** `ProtocolType::from_u16`. */
  function FromU16(v: u16): (t: ProtocolType)
    ensures t == IP <==> v == 0x0800
    ensures t == Arp <==> v == 0x0806
    ensures t == Unknown <==> v != 0x0800 && v != 0x0806
  {
    if v == 0x0800 then IP
    else if v == 0x0806 then Arp
    else Unknown
  }

  /** Every protocol type survives the trip through its ethertype. */
  lemma FromU16ToU16(t: ProtocolType)
    ensures FromU16(ToU16(t)) == t
  {
  }

  /** One queued input: the irq of the device it came from and its bytes
      (always `Some` as `isr` in src/devices/mod.rs queues it). */
  datatype ProtocolData = ProtocolData(irq: int, data: seq<byte>, len: nat)

  /** An entry handed to a protocol's `input`, with the index of the
      device it is handed with. */
  datatype Delivery = Delivery(protocol: ProtocolType, entry: ProtocolData, device: nat)

  /** The index of the first device whose irq is `irq`. */
  function FirstDevice(irqs: seq<int>, irq: int): (r: Option<nat>)
    ensures r.Some? ==> r.value < |irqs| && irqs[r.value] == irq
                        && forall k :: 0 <= k < r.value ==> irqs[k] != irq
    ensures r.None? ==> irq !in irqs
  {
    if |irqs| == 0 then None
    else if irqs[0] == irq then Some(0)
    else
      var r := FirstDevice(irqs[1..], irq);
      if r.Some? then Some(r.value + 1) else None
  }

  /** What draining `queue` hands on, front to back: each entry goes to
      the first device with an equal irq; an entry no device matches is
      dropped. */
  function Dispatch(t: ProtocolType, queue: seq<ProtocolData>, irqs: seq<int>): (h: seq<Delivery>)
    ensures |h| <= |queue|
    ensures forall i :: 0 <= i < |h| ==>
              h[i].protocol == t && h[i].entry in queue && h[i].device < |irqs|
              && irqs[h[i].device] == h[i].entry.irq
              && forall k :: 0 <= k < h[i].device ==> irqs[k] != h[i].entry.irq
    ensures (forall i :: 0 <= i < |queue| ==> queue[i].irq in irqs) ==>
              |h| == |queue| && forall i :: 0 <= i < |h| ==> h[i].entry == queue[i]
    ensures (forall i :: 0 <= i < |queue| ==> queue[i].irq !in irqs) ==> h == []
  {
    if |queue| == 0 then []
    else
      var rest := Dispatch(t, queue[1..], irqs);
      var d := FirstDevice(irqs, queue[0].irq);
      if d.Some? then [Delivery(t, queue[0], d.value)] + rest else rest
  }

  /** The device search of `handle_input`: the first index whose irq
      equals `irq`. */
  method FindDevice(irqs: seq<int>, irq: int) returns (d: Option<nat>)
    ensures d == FirstDevice(irqs, irq)
  {
    var j := 0;
    while j < |irqs|
      invariant 0 <= j <= |irqs|
      invariant forall k :: 0 <= k < j ==> irqs[k] != irq
    {
      if irqs[j] == irq {
        FirstDeviceIs(irqs, irq, j);
        return Some(j);
      }
      j := j + 1;
    }
    return None;
  }

  class NetProtocol {
    var protocolType: ProtocolType
    var inputQueue: seq<ProtocolData>

    constructor (t: ProtocolType)
      ensures protocolType == t && inputQueue == []
    {
      protocolType := t;
      inputQueue := [];
    }

    /** `handle_input`: pops entries front to back until the queue is
        empty and hands each to the first device with an equal irq. */
    method HandleInput(irqs: seq<int>) returns (handed: seq<Delivery>)
      modifies this
      ensures inputQueue == [] && protocolType == old(protocolType)
      ensures handed == Dispatch(protocolType, old(inputQueue), irqs)
    {
      var t := protocolType;
      ghost var all := Dispatch(t, inputQueue, irqs);
      handed := [];
      while |inputQueue| > 0
        invariant protocolType == t
        invariant handed + Dispatch(t, inputQueue, irqs) == all
        decreases |inputQueue|
      {
        var entry := inputQueue[0];
        ghost var q := inputQueue;
        inputQueue := inputQueue[1..];
        var d := FindDevice(irqs, entry.irq);
        assert Dispatch(t, q, irqs)
            == (if d.Some? then [Delivery(t, entry, d.value)] else []) + Dispatch(t, inputQueue, irqs);
        if d.Some? {
          handed := handed + [Delivery(t, entry, d.value)];
        }
      }
    }
  }

  lemma {:induction false} FirstDeviceIs(irqs: seq<int>, irq: int, j: nat)
    requires j < |irqs| && irqs[j] == irq
    requires forall k :: 0 <= k < j ==> irqs[k] != irq
    ensures FirstDevice(irqs, irq) == Some(j)
    decreases j
  {
    if j > 0 {
      FirstDeviceIs(irqs[1..], irq, j - 1);
    }
  }

  /** The deliveries of several queues, protocol after protocol. */
  function DispatchAll(types: seq<ProtocolType>, queues: seq<seq<ProtocolData>>, irqs: seq<int>): seq<Delivery>
    requires |types| == |queues|
  {
    if |types| == 0 then []
    else DispatchAll(types[..|types| - 1], queues[..|queues| - 1], irqs)
         + Dispatch(types[|types| - 1], queues[|queues| - 1], irqs)
  }

  lemma DispatchAllStep(types: seq<ProtocolType>, queues: seq<seq<ProtocolData>>, i: nat, irqs: seq<int>)
    requires |types| == |queues| && i < |types|
    ensures DispatchAll(types[..i + 1], queues[..i + 1], irqs)
            == DispatchAll(types[..i], queues[..i], irqs) + Dispatch(types[i], queues[i], irqs)
  {
    assert types[..i + 1][..i] == types[..i];
    assert queues[..i + 1][..i] == queues[..i];
  }

  class NetProtocols {
    var entries: seq<NetProtocol>

    /** Each protocol is owned by the list once. */
    ghost predicate Valid()
      reads this
    {
      forall i, j :: 0 <= i < j < |entries| ==> entries[i] != entries[j]
    }

    ghost function Types(): seq<ProtocolType>
      reads this, set p | p in entries
    {
      seq(|entries|, i reads this, set p | p in entries requires 0 <= i < |entries| => entries[i].protocolType)
    }

    ghost function Queues(): seq<seq<ProtocolData>>
      reads this, set p | p in entries
    {
      seq(|entries|, i reads this, set p | p in entries requires 0 <= i < |entries| => entries[i].inputQueue)
    }

    constructor ()
      ensures entries == [] && Valid()
    {
      entries := [];
    }

    /** `register`: appends. */
    method Register(p: NetProtocol)
      requires Valid() && p !in entries
      modifies this
      ensures Valid() && entries == old(entries) + [p]
    {
      entries := entries + [p];
    }

    /** `handle_data`: drains every protocol's queue, in registration
        order. */
    method HandleData(irqs: seq<int>) returns (handed: seq<Delivery>)
      requires Valid()
      modifies set p | p in entries
      ensures entries == old(entries)
      ensures forall i :: 0 <= i < |entries| ==>
                entries[i].inputQueue == [] && entries[i].protocolType == old(entries[i].protocolType)
      ensures handed == DispatchAll(old(Types()), old(Queues()), irqs)
    {
      ghost var types := Types();
      ghost var queues := Queues();
      handed := [];
      var i := 0;
      while i < |entries|
        invariant 0 <= i <= |entries|
        invariant forall k :: 0 <= k < |entries| ==> entries[k].protocolType == types[k]
        invariant forall k :: 0 <= k < i ==> entries[k].inputQueue == []
        invariant forall k :: i <= k < |entries| ==> entries[k].inputQueue == queues[k]
        invariant handed == DispatchAll(types[..i], queues[..i], irqs)
      {
        var e := entries[i];
        assert forall k :: 0 <= k < |entries| && k != i ==> entries[k] != e;
        var h := e.HandleInput(irqs);
        DispatchAllStep(types, queues, i, irqs);
        handed := handed + h;
        i := i + 1;
      }
      assert types[..i] == types && queues[..i] == queues;
    }
  }
}
