/** The driver's receive code over its arrays; `model` follows it step by step. */
module RxDriver {
  import opened Bytes
  import opened Lists
  import opened Framing
  import opened RxRing

  class Driver {
    const rxRing: array<uint32>     // the ctrl words
    const rxBuf: array<byte>        // the buffers and what lies behind them
    var tail: nat
    ghost var model: Ring

    ghost predicate Valid()
      reads this, rxRing, rxBuf
    {
      && rxRing[..] == model.ctrl && rxBuf[..] == model.mem && tail == model.tail
      && Inv(model)
    }

    /** grspw_reset_rings, for the receive side. */
    constructor ()
      ensures Valid() && Fresh(model) && fresh(rxRing) && fresh(rxBuf)
    {
      var ring := new uint32[RX_RING_COUNT](_ => 0);
      var memory := new byte[RX_MEMORY](_ => 0);
      for i := 0 to RX_RING_COUNT
        invariant forall k | 0 <= k < i :: ring[k] == Arm(k)
      {
        ring[i] := Arm(i);
      }
      rxRing, rxBuf, tail := ring, memory, 0;
      model := Ring(ring[..], memory[..], 0, 0, Idle, [], seq(RX_RING_COUNT, _ => None), []);
      new;
      FreshInv(model);
    }

    /** The device, at its index d, accepting a packet if it owns that descriptor. */
    method DeviceDeliver(d: nat, p: Packet) returns (next: nat)
      requires Valid() && Possible(model, Deliver(p)) && d == model.dev
      modifies this`model, rxRing, rxBuf
      ensures Valid() && model == Do(old(model), Deliver(p)) && next == model.dev
    {
      DoKeepsInv(model, Deliver(p));
      model := Do(model, Deliver(p));
      next := d;
      if Armed(rxRing[d]) {
        next := if Wraps(rxRing[d]) then 0 else d + 1;
        forall b | 0 <= b < |p| {
          rxBuf[Buffer(d) + b] := p[b];
        }
        rxRing[d] := Complete(rxRing[d], |p|);
      }
    }

    /**
     * grspw_poll_rx over whatever the ring holds: the first completed descriptor at or after the
     * tail, going round; -1 and the tail where it was if all 32 are the device's. At most 32 are
     * looked at.
     */
    method PollRx() returns (idx: int, ghost looked: nat)
      requires rxRing.Length == RX_RING_COUNT && tail < RX_RING_COUNT
      modifies this`tail
      ensures -1 <= idx < RX_RING_COUNT
      ensures looked <= 32
      ensures looked == if idx == -1 then RX_RING_COUNT else Ahead(idx, old(tail)) + 1
      ensures idx == -1 ==> tail == old(tail) && forall i | 0 <= i < RX_RING_COUNT :: Armed(rxRing[i])
      ensures idx != -1 ==> !Armed(rxRing[idx]) && tail == After(idx)
      ensures idx != -1 ==>
        forall i | 0 <= i < RX_RING_COUNT && Ahead(i, old(tail)) < Ahead(idx, old(tail)) :: Armed(rxRing[i])
    {
      var start := tail;
      ghost var checked := 0;
      while true
        invariant checked < RX_RING_COUNT && tail == Round(start, checked)
        invariant forall i | 0 <= i < RX_RING_COUNT && Ahead(i, start) < checked :: Armed(rxRing[i])
        decreases RX_RING_COUNT - checked
      {
        if !Armed(rxRing[tail]) {
          idx, looked := tail, checked + 1;
          tail := (tail + 1) % RX_RING_COUNT;
          return;
        }
        tail := (tail + 1) % RX_RING_COUNT;
        checked := checked + 1;
        if tail == start {
          return -1, checked;
        }
      }
    }

    /** A poll with no delivery in between, seen from the transition system. */
    method Poll() returns (idx: int)
      requires Valid() && model.poll.Idle? && Fifo(model)
      modifies this
      ensures Valid() && Fifo(model)
      ensures model == Polled(old(model))
      ensures idx == if |old(model).returned| < |model.delivered| then old(tail) else -1
    {
      ScanSees(model);
      PollKeepsInv(model);
      ghost var after := Polled(model);
      ghost var looked;
      idx, looked := PollRx();
      if |model.returned| < |model.delivered| && idx != -1 {
        assert Ahead(idx, model.tail) == 0;
      }
      model := after;
    }

    /** rxbd_payload_to_uint32_be on the descriptor that the last poll returned. */
    method PayloadToUint32(idx: nat) returns (r: uint32)
      requires Valid() && Intact(model) && model.poll == Holding(idx) && model.returned != []
      requires model.slot[idx] == Some(Last(model.returned)) && Last(model.returned) < |model.delivered|
      ensures r == CounterOf(model.delivered[Last(model.returned)])
      ensures var p := model.delivered[Last(model.returned)];
        r == if |p| < 4 then 0 else DecodeBE32(p[|p| - 4..])
    {
      ghost var p := model.delivered[Last(model.returned)];
      assert Labelled(model, idx) && BytesAt(model.mem, Buffer(idx), p);
      var len := Length(rxRing[idx]);
      if len < 4 {
        return 0;
      }
      var at := Buffer(idx) + len - 4;
      LastBytes(model.mem, Buffer(idx), p);
      assert rxBuf[at..at + 4] == rxBuf[..][at..at + 4];
      r := DecodeBE32(rxBuf[at..at + 4]);
    }

    method Recycle(idx: nat)
      requires Valid() && model.poll == Holding(idx)
      modifies this`model, rxRing
      ensures Valid() && model == Do(old(model), RxRing.Recycle)
    {
      DoKeepsInv(model, RxRing.Recycle);
      model := Do(model, RxRing.Recycle);
      rxRing[idx] := Arm(idx);
    }

    /** One turn of the drain loop of Init; None ends it. */
    method DrainOne() returns (value: Option<uint32>)
      requires Valid() && Intact(model) && model.poll.Idle? && Fifo(model)
      modifies this, rxRing
      ensures Valid() && Intact(model) && model.poll.Idle? && Fifo(model)
      ensures model.delivered == old(model.delivered) && model.dev == old(model.dev)
      ensures var k := |old(model.returned)|;
        if k < |model.delivered| then
          value == Some(CounterOf(model.delivered[k])) && |model.returned| == k + 1
        else value == None && model == old(model)
    {
      var idx := Poll();
      if idx < 0 {
        return None;
      }
      HeldIsLast(model, idx);
      var r := PayloadToUint32(idx);
      RecycleKeepsFifo(model);
      Recycle(idx);
      value := Some(r);
    }

    /**
     * The drain loop: it ends, and has decoded every packet that was waiting, oldest first; each
     * descriptor is the device's again.
     */
    method Drain() returns (values: seq<uint32>)
      requires Valid() && Intact(model) && model.poll.Idle? && Fifo(model)
      modifies this, rxRing
      ensures Valid() && Intact(model) && model.poll.Idle? && Fifo(model)
      ensures model.delivered == old(model.delivered) && model.dev == old(model.dev)
      ensures values == Counters(model.delivered[|old(model.returned)|..])
      ensures |model.returned| == |model.delivered|
    {
      values := [];
      ghost var first, ps := |model.returned|, model.delivered;
      while true
        invariant Valid() && Intact(model) && model.poll.Idle? && Fifo(model)
        invariant model.delivered == ps && model.dev == old(model.dev) && first <= |model.returned|
        invariant values == Counters(ps[first..|model.returned|])
        decreases |ps| - |model.returned|
      {
        ghost var k := |model.returned|;
        var value := DrainOne();
        if value.None? {
          assert ps[first..k] == ps[first..];
          return;
        }
        CountersOneMore(ps, first, k);
        values := values + [value.value];
      }
    }
  }

  lemma LastBytes(mem: seq<byte>, at: nat, p: seq<byte>)
    requires BytesAt(mem, at, p) && |p| >= 4
    ensures mem[at + |p| - 4..at + |p|] == p[|p| - 4..]
  {
    var n := |p| - 4;
    forall b | 0 <= b < 4
      ensures mem[at + n..at + |p|][b] == p[n..][b]
    {
      assert p[n + b] == mem[at + (n + b)];
    }
  }

  lemma CountersOneMore(ps: seq<Packet>, first: nat, k: nat)
    requires first <= k < |ps|
    ensures Counters(ps[first..k + 1]) == Counters(ps[first..k]) + [CounterOf(ps[k])]
  {
    assert ps[first..k + 1] == ps[first..k] + [ps[k]];
  }

  /** The ring after an undisturbed poll. */
  function Polled(s: Ring): Ring
    requires Shape(s)
  {
    if |s.returned| < |s.delivered| then
      s.(tail := After(s.tail), poll := Holding(s.tail), returned := s.returned + [|s.returned|])
    else s
  }

  /** What a scan meets. */
  lemma ScanSees(s: Ring)
    requires Inv(s) && Fifo(s) && s.poll.Idle?
    ensures |s.returned| < |s.delivered| ==> !Armed(s.ctrl[s.tail])
    ensures |s.returned| == |s.delivered| ==> forall i | 0 <= i < RX_RING_COUNT :: Armed(s.ctrl[i])
  {
    if |s.returned| < |s.delivered| {
      assert s.slot[s.tail] == Expected(s, |s.delivered| - |s.returned|, Ahead(s.tail, s.tail));
    } else {
      AllArmed(s);
    }
  }

  lemma BeginKeeps(s: Ring)
    requires Inv(s) && Fifo(s) && s.poll.Idle?
    ensures Inv(Do(s, Begin)) && Fifo(Do(s, Begin))
  {
    DoKeepsInv(s, Begin);
    DoKeepsFifo(s, Begin);
  }

  lemma PollKeepsInv(s: Ring)
    requires Inv(s) && Fifo(s) && s.poll.Idle?
    ensures Inv(Polled(s)) && Fifo(Polled(s))
  {
    if |s.returned| < |s.delivered| {
      var t := Do(s, Begin);
      BeginKeeps(s);
      FindKeepsFifo(t);
      DoKeepsInv(t, Check);
      assert Polled(s) == Do(t, Check);
    }
  }

  lemma UndisturbedCons(s: Ring, step: Step, steps: seq<Step>, r: Ring)
    requires Possible(s, step) && !step.Deliver? && PollsUndisturbed(Do(s, step), steps, r)
    ensures PollsUndisturbed(s, [step] + steps, r)
  {
    assert ([step] + steps)[1..] == steps;
  }

  /** The poll is a run of the transition system: a Begin and at most 32 checks. */
  lemma PollIsARun(s: Ring) returns (steps: seq<Step>)
    requires Inv(s) && Fifo(s) && s.poll.Idle?
    ensures PollsUndisturbed(s, steps, Polled(s)) && |steps| <= 1 + RX_RING_COUNT
  {
    var t := Do(s, Begin);
    BeginKeeps(s);
    assert t.(tail := t.poll.start, poll := Idle) == s;
    steps := ChecksRun(t);
    UndisturbedCons(s, Begin, steps, Polled(s));
    steps := [Begin] + steps;
  }

  lemma {:induction false} ChecksRun(t: Ring) returns (steps: seq<Step>)
    requires Inv(t) && Fifo(t) && Unmet(t) && t.poll.Scanning?
    ensures PollsUndisturbed(t, steps, Polled(t.(tail := t.poll.start, poll := Idle)))
    ensures |steps| <= RX_RING_COUNT - t.poll.checked
    decreases RX_RING_COUNT - t.poll.checked
  {
    var r := Do(t, Check);
    steps := [];
    if |t.delivered| > |t.returned| {
      FindKeepsFifo(t);
    } else {
      DoKeepsInv(t, Check);
      MissKeepsFifo(t);
      if r.poll.Scanning? {
        steps := ChecksRun(r);
      }
    }
    UndisturbedCons(t, Check, steps, Polled(t.(tail := t.poll.start, poll := Idle)));
    steps := [Check] + steps;
  }

  lemma AllArmed(s: Ring)
    requires Inv(s) && Fifo(s) && s.poll.Idle? && |s.delivered| == |s.returned|
    ensures forall i | 0 <= i < RX_RING_COUNT :: Armed(s.ctrl[i])
  {
    forall i | 0 <= i < RX_RING_COUNT
      ensures Armed(s.ctrl[i])
    {
      assert s.slot[i] == Expected(s, 0, Ahead(i, s.tail));
    }
  }

  lemma HeldIsLast(s: Ring, idx: nat)
    requires Inv(s) && Fifo(s) && s.poll == Holding(idx)
    ensures s.slot[idx] == Some(|s.returned| - 1) && Last(s.returned) == |s.returned| - 1
  {
    assert s.slot[idx] == Expected(s, |s.delivered| - |s.returned|, Ahead(idx, s.tail));
  }

  // ---- bursts ---------------------------------------------------------------------------

  predicate Receivable(ps: seq<Packet>) {
    forall i | 0 <= i < |ps| :: |ps[i]| <= RX_MAX
  }

  /** The device offered a burst of packets with no poll in between. */
  function Burst(s: Ring, ps: seq<Packet>): (r: Ring)
    requires Descriptors(s) && Receivable(ps)
    ensures Descriptors(r)
    decreases |ps|
  {
    if ps == [] then s
    else
      DoKeepsDescriptors(s, Deliver(ps[0]));
      Burst(Do(s, Deliver(ps[0])), ps[1..])
  }

  function Room(s: Ring): int {
    RX_RING_COUNT - (|s.delivered| - |s.returned|) - if s.poll.Holding? then 1 else 0
  }

  lemma DeliverTakesRoom(s: Ring, p: Packet)
    requires Descriptors(s) && Fifo(s) && !s.poll.Scanning? && |p| <= RX_MAX
    ensures Room(s) > 0 ==> Do(s, Deliver(p)).delivered == s.delivered + [p]
    ensures Room(s) == 0 ==> Do(s, Deliver(p)) == s
  {
    assert s.slot[s.dev] == Expected(s, |s.delivered| - |s.returned|, Ahead(s.dev, s.tail));
  }

  /** The device's next descriptor is its own exactly if there is room. */
  lemma ArmedIffRoom(s: Ring)
    requires Descriptors(s) && Fifo(s) && s.poll.Idle?
    ensures Armed(s.ctrl[s.dev]) <==> Room(s) > 0
  {
    assert s.slot[s.dev] == Expected(s, |s.delivered| - |s.returned|, Ahead(s.dev, s.tail));
  }

  /** The ring takes a burst up to exactly the number of descriptors that are free, and in order. */
  lemma {:induction false} BurstFillsTheRoom(s: Ring, ps: seq<Packet>)
    requires Descriptors(s) && Fifo(s) && !s.poll.Scanning? && Receivable(ps)
    ensures var r := Burst(s, ps);
      && Room(s) >= 0 && Fifo(r) && r.returned == s.returned && r.poll == s.poll && r.tail == s.tail
      && r.delivered == s.delivered + if |ps| <= Room(s) then ps else ps[..Room(s)]
    decreases |ps|
  {
    if ps == [] {
      assert s.delivered + [] == s.delivered;
    } else {
      var t := Do(s, Deliver(ps[0]));
      DoKeepsDescriptors(s, Deliver(ps[0]));
      DeliverKeepsFifo(s, ps[0]);
      DeliverTakesRoom(s, ps[0]);
      BurstFillsTheRoom(t, ps[1..]);
      if Room(s) > 0 {
        assert Room(t) == Room(s) - 1;
        TakenSoFar(s.delivered, ps, Room(s));
      }
    }
  }

  lemma TakenSoFar(d: seq<Packet>, ps: seq<Packet>, room: int)
    requires ps != [] && room > 0
    ensures (d + [ps[0]]) + (if |ps| - 1 <= room - 1 then ps[1..] else ps[1..][..room - 1]) ==
            d + if |ps| <= room then ps else ps[..room]
  {
  }

  // ---- a packet longer than a buffer ----------------------------------------------------

  lemma {:induction false} RunsCompose(s: Ring, a: seq<Step>, m: Ring, b: seq<Step>, r: Ring)
    requires Runs(s, a, m) && Runs(m, b, r)
    ensures Runs(s, a + b, r)
    decreases |a|
  {
    if a == [] {
      assert a + b == b;
    } else {
      assert (a + b)[1..] == a[1..] + b;
      RunsCompose(Do(s, a[0]), a[1..], m, b, r);
    }
  }

  lemma {:induction false} BurstIsARun(s: Ring, ps: seq<Packet>) returns (steps: seq<Step>)
    requires Descriptors(s) && Receivable(ps)
    ensures Runs(s, steps, Burst(s, ps))
    decreases |ps|
  {
    steps := [];
    if ps != [] {
      DoKeepsDescriptors(s, Deliver(ps[0]));
      steps := BurstIsARun(Do(s, Deliver(ps[0])), ps[1..]);
      RunsCons(s, Deliver(ps[0]), steps, Burst(s, ps));
      steps := [Deliver(ps[0])] + steps;
    }
  }

  lemma FullRing(s0: Ring, ps: seq<Packet>) returns (steps: seq<Step>, s: Ring)
    requires Fresh(s0) && |ps| == RX_RING_COUNT && Receivable(ps)
    ensures Runs(s0, steps, s) && Inv(s) && Fifo(s) && s.poll.Idle? && s.tail == 0
    ensures s.delivered == ps && s.returned == []
  {
    FreshInv(s0);
    FreshFifo(s0);
    BurstFillsTheRoom(s0, ps);
    s := Burst(s0, ps);
    steps := BurstIsARun(s0, ps);
    RunsKeepInv(s0, steps, s);
  }

  /** A poll that finds the oldest packet, and its recycle. */
  lemma OldestTaken(s: Ring) returns (steps: seq<Step>, r: Ring)
    requires Inv(s) && Fifo(s) && s.poll.Idle? && |s.returned| < |s.delivered|
    ensures Runs(s, steps, r) && Inv(r) && Fifo(r) && r.poll.Idle? && r.tail == After(s.tail)
    ensures r.delivered == s.delivered && r.returned == s.returned + [|s.returned|]
  {
    var polled := Polled(s);
    steps := PollIsARun(s);
    UndisturbedIsNotOvertaken(s, steps, polled);
    PollKeepsInv(s);
    r := Do(polled, RxRing.Recycle);
    DoKeepsInv(polled, RxRing.Recycle);
    RecycleKeepsFifo(polled);
    RunsCons(polled, RxRing.Recycle, [], r);
    RunsCompose(s, steps, polled, [RxRing.Recycle] + [], r);
    steps := steps + ([RxRing.Recycle] + []);
  }

  /** A full ring of which the first packet has been returned and recycled. */
  lemma FullButOne(s0: Ring, ps: seq<Packet>) returns (steps: seq<Step>, s: Ring)
    requires Fresh(s0) && |ps| == RX_RING_COUNT && Receivable(ps)
    ensures Runs(s0, steps, s) && Descriptors(s) && s.delivered == ps && s.returned == [0]
    ensures s.dev == 0 && Armed(s.ctrl[0]) && s.slot[1] == Some(1)
  {
    var filling, r := FullRing(s0, ps);
    var taking, t := OldestTaken(r);
    RunsCompose(s0, filling, r, taking, t);
    steps, s := filling + taking, t;
    assert s.slot[0] == Expected(s, |s.delivered| - |s.returned|, Ahead(0, s.tail));
    assert s.slot[1] == Expected(s, |s.delivered| - |s.returned|, Ahead(1, s.tail));
  }

  /** A packet of 65 bytes goes over the end of its buffer and into the packet that waits next to it. */
  lemma WaitingPacketIsOverwritten(s0: Ring, ps: seq<Packet>, p: Packet) returns (steps: seq<Step>, s: Ring)
    requires Fresh(s0) && |ps| == RX_RING_COUNT && Small(ps) && ps[1] != []
    requires |p| == RX_BUF_SIZE + 1 && p[RX_BUF_SIZE] != ps[1][0]
    ensures Runs(s0, steps, s) && Shape(s) && s.delivered == ps + [p] && s.returned == [0]
    ensures s.slot[1] == Some(1) && !BytesAt(s.mem, Buffer(1), ps[1])
  {
    var before, r := FullButOne(s0, ps);
    s := Do(r, Deliver(p));
    RunsCons(r, Deliver(p), [], s);
    RunsCompose(s0, before, r, [Deliver(p)] + [], s);
    steps := before + ([Deliver(p)] + []);
    assert s.mem[Buffer(1)] == p[RX_BUF_SIZE];
  }
}
