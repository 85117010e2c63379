/**
 * The receive ring that the driver shares with the GRSPW2 device. The EN bit of a descriptor says
 * who owns it: the device may fill it while EN is set, the driver reads it once EN is clear.
 */
module RxRing {
  import opened Bytes
  import opened Lists
  import opened Framing

  const RX_RING_COUNT: nat := 32
  const RX_BUF_SIZE: nat := 64

  /** The longest packet that the driver lets the device accept: it is longer than a buffer. */
  const RX_MAX: nat := 4096

  /** The buffers, one after the other, and as much of what lies behind them as a packet can reach. */
  const RX_MEMORY: nat := RX_RING_COUNT * RX_BUF_SIZE + RX_MAX

  // ---- the control word -----------------------------------------------------------------

  const RXBD_EN: int := 0x200_0000  // bit 25; the length is the 25 bits below it
  const RXBD_WR: int := 0x400_0000  // bit 26

  predicate Armed(ctrl: uint32) {
    ctrl / RXBD_EN % 2 == 1
  }

  predicate Wraps(ctrl: uint32) {
    ctrl / RXBD_WR % 2 == 1
  }

  function Length(ctrl: uint32): nat {
    ctrl % RXBD_EN
  }

  /** The word that the driver writes to hand descriptor i to the device. */
  function Arm(i: nat): (ctrl: uint32)
    ensures Armed(ctrl) && Wraps(ctrl) == (i == RX_RING_COUNT - 1)
  {
    RXBD_EN + if i == RX_RING_COUNT - 1 then RXBD_WR else 0
  }

  /** The word that the device writes when it has filled the buffer: EN clear, the length stored. */
  function Complete(ctrl: uint32, length: nat): (r: uint32)
    requires length <= RX_MAX
    ensures !Armed(r) && Length(r) == length && Wraps(r) == Wraps(ctrl)
  {
    length + if Wraps(ctrl) then RXBD_WR else 0
  }

  /** The words in memory: EN, and WR on the last slot; after completion the length, and WR as it was. */
  lemma ControlWords(i: nat, length: nat)
    requires i < RX_RING_COUNT && length <= RX_MAX
    ensures i < 32 && Arm(i) == (if i == 31 then 0x600_0000 else 0x200_0000)
    ensures Complete(Arm(i), length) == length + if i == 31 then 0x400_0000 else 0
  {
  }

  // ---- the memory -----------------------------------------------------------------------

  function Buffer(i: nat): nat {
    RX_BUF_SIZE * i
  }

  predicate BytesAt(mem: seq<byte>, at: nat, p: seq<byte>) {
    at + |p| <= |mem| && forall b | 0 <= b < |p| :: p[b] == mem[at + b]
  }

  function Written(mem: seq<byte>, at: nat, p: seq<byte>): (r: seq<byte>)
    requires at + |p| <= |mem|
    ensures |r| == |mem|
    ensures forall b | 0 <= b < |mem| :: r[b] == if at <= b < at + |p| then p[b - at] else mem[b]
  {
    mem[..at] + p + mem[at + |p|..]
  }

  /** m bytes at a and n bytes at b have none in common. */
  predicate Apart(a: nat, m: nat, b: nat, n: nat) {
    m == 0 || n == 0 || a + m <= b || b + n <= a
  }

  lemma WrittenIsThere(mem: seq<byte>, at: nat, p: seq<byte>)
    requires at + |p| <= |mem|
    ensures BytesAt(Written(mem, at, p), at, p)
  {
  }

  lemma WrittenElsewhere(mem: seq<byte>, at: nat, p: seq<byte>, b: nat, q: seq<byte>)
    requires at + |p| <= |mem| && BytesAt(mem, b, q) && Apart(at, |p|, b, |q|)
    ensures BytesAt(Written(mem, at, p), b, q)
  {
  }

  // ---- the ring -------------------------------------------------------------------------

  /** What grspw_poll_rx is doing; `Holding` lasts from its return until the recycle. */
  datatype Poll = Idle | Scanning(start: nat, checked: nat) | Holding(idx: nat)

  /**
   * `delivered`, `slot` and `returned` are history: the packets the device accepted, which of
   * them each completed descriptor holds, and in what order polls have returned them.
   */
  datatype Ring = Ring(
    ctrl: seq<uint32>, mem: seq<byte>, dev: nat, tail: nat, poll: Poll,
    delivered: seq<Packet>, slot: seq<Option<nat>>, returned: seq<nat>)

  datatype Step = Deliver(p: Packet) | Begin | Check | Recycle

  predicate Shape(s: Ring) {
    && |s.ctrl| == |s.slot| == RX_RING_COUNT && |s.mem| == RX_MEMORY
    && s.dev < RX_RING_COUNT && s.tail < RX_RING_COUNT
    && match s.poll
       case Idle => true
       case Scanning(start, checked) => start < RX_RING_COUNT && checked < RX_RING_COUNT
       case Holding(idx) => idx < RX_RING_COUNT
  }

  predicate Possible(s: Ring, step: Step) {
    Shape(s) &&
    match step
    case Deliver(p) => |p| <= RX_MAX
    case Begin => s.poll.Idle?
    case Check => s.poll.Scanning?
    case Recycle => s.poll.Holding?
  }

  /** The index n places on from h, going round the ring. */
  function Round(h: nat, n: nat): (r: nat)
    requires h < RX_RING_COUNT && n <= RX_RING_COUNT
    ensures r < RX_RING_COUNT && r == (h + n) % RX_RING_COUNT
  {
    if h + n < RX_RING_COUNT then h + n else h + n - RX_RING_COUNT
  }

  function After(i: nat): (r: nat)
    requires i < RX_RING_COUNT
  {
    Round(i, 1)
  }

  /** The device: fill the descriptor at its index if it owns it, and advance, wrapping on WR. */
  function Delivered(s: Ring, p: Packet): Ring
    requires Possible(s, Deliver(p))
  {
    var d := s.dev;
    if !Armed(s.ctrl[d]) then s
    else s.(
      mem := Written(s.mem, Buffer(d), p),
      ctrl := s.ctrl[d := Complete(s.ctrl[d], |p|)],
      slot := s.slot[d := Some(|s.delivered|)],
      delivered := s.delivered + [p],
      dev := if Wraps(s.ctrl[d]) then 0 else d + 1)
  }

  /** One turn of the do-while loop. */
  function Checked(s: Ring): Ring
    requires Possible(s, Check)
  {
    var next := After(s.tail);
    if !Armed(s.ctrl[s.tail]) then
      s.(tail := next, poll := Holding(s.tail),
         returned := s.returned + if s.slot[s.tail].Some? then [s.slot[s.tail].value] else [])
    else if next == s.poll.start then s.(tail := next, poll := Idle)
    else s.(tail := next, poll := Scanning(s.poll.start, Round(s.poll.checked, 1)))
  }

  function Recycled(s: Ring): Ring
    requires Possible(s, Recycle)
  {
    var i := s.poll.idx;
    s.(ctrl := s.ctrl[i := Arm(i)], slot := s.slot[i := None], poll := Idle)
  }

  function Do(s: Ring, step: Step): Ring
    requires Possible(s, step)
  {
    match step
    case Deliver(p) => Delivered(s, p)
    case Begin => s.(poll := Scanning(s.tail, 0))
    case Check => Checked(s)
    case Recycle => Recycled(s)
  }

  /** grspw_reset_rings: every descriptor armed, the last one wrapping. */
  predicate Fresh(s: Ring) {
    && Shape(s) && s.poll.Idle? && s.dev == 0 && s.tail == 0
    && s.delivered == [] && s.returned == []
    && forall i | 0 <= i < RX_RING_COUNT :: s.ctrl[i] == Arm(i) && s.slot[i] == None
  }

  ghost predicate Runs(s: Ring, steps: seq<Step>, r: Ring)
    decreases |steps|
  {
    if steps == [] then s == r
    else Possible(s, steps[0]) && Runs(Do(s, steps[0]), steps[1..], r)
  }

  /** Packets of up to 4096 bytes are accepted, and written from the start of a buffer of 64. */
  lemma WhatIsAccepted(s: Ring, p: Packet)
    requires Shape(s) && Armed(s.ctrl[s.dev])
    ensures Possible(s, Deliver(p)) <==> |p| <= 4096
    ensures Possible(s, Deliver(p)) ==> BytesAt(Do(s, Deliver(p)).mem, 64 * s.dev, p)
  {
    if Possible(s, Deliver(p)) {
      WrittenIsThere(s.mem, Buffer(s.dev), p);
    }
  }

  // ---- ownership, whatever the interleaving ---------------------------------------------

  /** Descriptor i says what it holds. */
  predicate Labelled(s: Ring, i: nat)
    requires Shape(s) && i < RX_RING_COUNT && s.slot[i].Some?
  {
    var k := s.slot[i].value;
    k < |s.delivered| && |s.delivered[k]| <= RX_MAX && Length(s.ctrl[i]) == |s.delivered[k]|
  }

  predicate Descriptors(s: Ring) {
    && Shape(s)
    && (forall i | 0 <= i < RX_RING_COUNT :: Wraps(s.ctrl[i]) == (i == RX_RING_COUNT - 1))
    && (forall i | 0 <= i < RX_RING_COUNT :: Armed(s.ctrl[i]) == s.slot[i].None?)
    && (forall i | 0 <= i < RX_RING_COUNT && s.slot[i].Some? :: Labelled(s, i))
    && (s.poll.Holding? ==> s.slot[s.poll.idx].Some?)
  }

  predicate Held(s: Ring, i: nat) {
    s.poll == Holding(i)
  }

  /** Each packet number is in one slot or has been returned once; the held one is on both sides. */
  predicate Custody(s: Ring) {
    && Shape(s)
    && (forall i, j | 0 <= i < j < RX_RING_COUNT && s.slot[i].Some? :: s.slot[i] != s.slot[j])
    && (forall a, b | 0 <= a < b < |s.returned| :: s.returned[a] != s.returned[b])
    && (forall a | 0 <= a < |s.returned| :: s.returned[a] < |s.delivered|)
    && (forall i | 0 <= i < RX_RING_COUNT && s.slot[i].Some? ::
          (s.slot[i].value in s.returned) == Held(s, i))
    && (forall k | 0 <= k < |s.delivered| :: k in s.returned || Some(k) in s.slot)
  }

  predicate Inv(s: Ring) {
    Descriptors(s) && Custody(s)
  }

  lemma DoKeepsDescriptors(s: Ring, step: Step)
    requires Descriptors(s) && Possible(s, step)
    ensures Descriptors(Do(s, step))
  {
  }

  lemma DeliverKeepsCustody(s: Ring, p: Packet)
    requires Inv(s) && Possible(s, Deliver(p))
    ensures Custody(Do(s, Deliver(p)))
  {
    var r := Do(s, Deliver(p));
    if r != s {
      assert r.slot[s.dev] == Some(|s.delivered|);
      forall k | 0 <= k < |r.delivered|
        ensures k in r.returned || Some(k) in r.slot
      {
        if k < |s.delivered| && k !in s.returned {
          var i :| 0 <= i < |s.slot| && s.slot[i] == Some(k);
          assert r.slot[i] == Some(k);
        }
      }
    }
  }

  lemma CheckKeepsCustody(s: Ring)
    requires Inv(s) && Possible(s, Check)
    ensures Custody(Do(s, Check))
  {
    var r := Do(s, Check);
    forall k | 0 <= k < |r.delivered|
      ensures k in r.returned || Some(k) in r.slot
    {
      if k in s.returned {
        var a :| 0 <= a < |s.returned| && s.returned[a] == k;
        assert r.returned[a] == k;
      }
    }
  }

  lemma RecycleKeepsCustody(s: Ring)
    requires Inv(s) && Possible(s, Recycle)
    ensures Custody(Do(s, Recycle))
  {
    var r := Do(s, Recycle);
    forall k | 0 <= k < |r.delivered|
      ensures k in r.returned || Some(k) in r.slot
    {
      if k !in s.returned {
        var i :| 0 <= i < |s.slot| && s.slot[i] == Some(k);
        assert r.slot[i] == Some(k);
      }
    }
  }

  lemma DoKeepsInv(s: Ring, step: Step)
    requires Inv(s) && Possible(s, step)
    ensures Inv(Do(s, step))
  {
    DoKeepsDescriptors(s, step);
    match step
    case Deliver(p) => DeliverKeepsCustody(s, p);
    case Begin =>
    case Check => CheckKeepsCustody(s);
    case Recycle => RecycleKeepsCustody(s);
  }

  lemma {:induction false} RunsKeepInv(s: Ring, steps: seq<Step>, r: Ring)
    requires Inv(s) && Runs(s, steps, r)
    ensures Inv(r)
    decreases |steps|
  {
    if steps != [] {
      DoKeepsInv(s, steps[0]);
      RunsKeepInv(Do(s, steps[0]), steps[1..], r);
    }
  }

  lemma FreshInv(s: Ring)
    requires Fresh(s)
    ensures Inv(s)
  {
  }

  /**
   * However the device's deliveries fall between the driver's checks: a packet it accepted and
   * that no poll has returned is in exactly one descriptor, which the device does not own.
   */
  lemma NoPacketLost(s0: Ring, steps: seq<Step>, s: Ring, k: nat) returns (i: nat)
    requires Fresh(s0) && Runs(s0, steps, s) && k < |s.delivered| && k !in s.returned
    ensures Shape(s) && i < RX_RING_COUNT && s.slot[i] == Some(k) && !Armed(s.ctrl[i])
    ensures Length(s.ctrl[i]) == |s.delivered[k]|
    ensures forall j | 0 <= j < RX_RING_COUNT && s.slot[j] == Some(k) :: j == i
  {
    FreshInv(s0);
    RunsKeepInv(s0, steps, s);
    i :| 0 <= i < |s.slot| && s.slot[i] == Some(k);
    assert Labelled(s, i);
  }

  /** No packet is returned twice, and none that was returned is in a descriptor but the one being worked on. */
  lemma ReturnedOnce(s0: Ring, steps: seq<Step>, s: Ring)
    requires Fresh(s0) && Runs(s0, steps, s)
    ensures forall a, b | 0 <= a < b < |s.returned| :: s.returned[a] != s.returned[b]
    ensures forall a | 0 <= a < |s.returned| :: s.returned[a] < |s.delivered|
    ensures Shape(s)
    ensures forall i | 0 <= i < RX_RING_COUNT && s.slot[i].Some? && s.slot[i].value in s.returned :: Held(s, i)
  {
    FreshInv(s0);
    RunsKeepInv(s0, steps, s);
  }

  // ---- what the buffers hold ------------------------------------------------------------

  /** The packet of every completed descriptor is in memory as it came. */
  predicate Intact(s: Ring) {
    && Shape(s)
    && forall i | 0 <= i < RX_RING_COUNT && s.slot[i].Some? ::
         s.slot[i].value < |s.delivered| && BytesAt(s.mem, Buffer(i), s.delivered[s.slot[i].value])
  }

  /** A packet of n bytes written next meets no byte of a completed descriptor's packet. */
  predicate Spares(s: Ring, n: nat) {
    && Shape(s)
    && (Armed(s.ctrl[s.dev]) ==>
          forall i | 0 <= i < RX_RING_COUNT && s.slot[i].Some? ::
            Apart(Buffer(s.dev), n, Buffer(i), Length(s.ctrl[i])))
  }

  lemma DeliverKeepsIntact(s: Ring, p: Packet)
    requires Descriptors(s) && Intact(s) && Possible(s, Deliver(p)) && Spares(s, |p|)
    ensures Intact(Do(s, Deliver(p)))
  {
    var r, d := Do(s, Deliver(p)), s.dev;
    if Armed(s.ctrl[d]) {
      forall i | 0 <= i < RX_RING_COUNT && r.slot[i].Some?
        ensures r.slot[i].value < |r.delivered| && BytesAt(r.mem, Buffer(i), r.delivered[r.slot[i].value])
      {
        if i == d {
          WrittenIsThere(s.mem, Buffer(d), p);
        } else {
          assert Labelled(s, i);
          WrittenElsewhere(s.mem, Buffer(d), p, Buffer(i), s.delivered[s.slot[i].value]);
        }
      }
    }
  }

  lemma DoKeepsIntact(s: Ring, step: Step)
    requires Descriptors(s) && Intact(s) && Possible(s, step)
    requires step.Deliver? ==> Spares(s, |step.p|)
    ensures Intact(Do(s, step))
  {
    if step.Deliver? {
      DeliverKeepsIntact(s, step.p);
    }
  }

  /** Bytes that differ from those that are there. */
  function Others(mem: seq<byte>, at: nat, n: nat): (p: seq<byte>)
    requires at + n <= |mem|
    ensures |p| == n && forall b | 0 <= b < n :: p[b] != mem[at + b]
  {
    seq(n, b requires 0 <= b < n => if mem[at + b] == 0xFF then 0 else mem[at + b] + 1)
  }

  lemma OthersSpoil(mem: seq<byte>, at: nat, n: nat, b: nat, q: seq<byte>)
    requires at + n <= |mem| && BytesAt(mem, b, q) && !Apart(at, n, b, |q|)
    ensures !BytesAt(Written(mem, at, Others(mem, at, n)), b, q)
  {
    var k := if b <= at then at - b else 0;
    assert q[k] == mem[b + k];
    assert Written(mem, at, Others(mem, at, n))[b + k] == Others(mem, at, n)[b + k - at];
  }

  lemma OverlapSpoils(s: Ring, n: nat, i: nat)
    requires Descriptors(s) && Intact(s) && n <= RX_MAX && Armed(s.ctrl[s.dev])
    requires i < RX_RING_COUNT && s.slot[i].Some? && !Apart(Buffer(s.dev), n, Buffer(i), Length(s.ctrl[i]))
    ensures !Intact(Do(s, Deliver(Others(s.mem, Buffer(s.dev), n))))
  {
    var k := s.slot[i].value;
    var r := Do(s, Deliver(Others(s.mem, Buffer(s.dev), n)));
    assert Labelled(s, i);
    OthersSpoil(s.mem, Buffer(s.dev), n, Buffer(i), s.delivered[k]);
    assert r.slot[i] == Some(k) && r.delivered[k] == s.delivered[k];
  }

  /**
   * A delivery of n bytes leaves every completed packet as it is, whatever those bytes are, if and
   * only if the place they go to has no byte in common with such a packet.
   */
  lemma IntactIffSpared(s: Ring, n: nat)
    requires Descriptors(s) && Intact(s) && n <= RX_MAX
    ensures (forall p: Packet | |p| == n :: Intact(Do(s, Deliver(p)))) <==> Spares(s, n)
  {
    if Spares(s, n) {
      forall p: Packet | |p| == n
        ensures Intact(Do(s, Deliver(p)))
      {
        DeliverKeepsIntact(s, p);
      }
    } else {
      var i :| 0 <= i < RX_RING_COUNT && s.slot[i].Some? && !Apart(Buffer(s.dev), n, Buffer(i), Length(s.ctrl[i]));
      var p: Packet := Others(s.mem, Buffer(s.dev), n);
      OverlapSpoils(s, n, i);
      assert |p| == n && !Intact(Do(s, Deliver(p)));
    }
  }

  /** Every delivery of a run is such a one. */
  ghost predicate Spared(s: Ring, steps: seq<Step>)
    decreases |steps|
  {
    steps != [] ==>
      && Possible(s, steps[0]) && (steps[0].Deliver? ==> Spares(s, |steps[0].p|))
      && Spared(Do(s, steps[0]), steps[1..])
  }

  lemma {:induction false} SparedKeepsIntact(s: Ring, steps: seq<Step>, r: Ring)
    requires Inv(s) && Intact(s) && Runs(s, steps, r) && Spared(s, steps)
    ensures Intact(r)
    decreases |steps|
  {
    if steps != [] {
      DoKeepsInv(s, steps[0]);
      DoKeepsIntact(s, steps[0]);
      SparedKeepsIntact(Do(s, steps[0]), steps[1..], r);
    }
  }

  /** Then every packet, from its completion to its recycle, has the bytes with which it came. */
  lemma PacketsStayIntact(s0: Ring, steps: seq<Step>, s: Ring)
    requires Fresh(s0) && Runs(s0, steps, s) && Spared(s0, steps)
    ensures Intact(s)
  {
    FreshInv(s0);
    SparedKeepsIntact(s0, steps, s);
  }

  predicate Small(ps: seq<Packet>) {
    forall i | 0 <= i < |ps| :: |ps[i]| <= RX_BUF_SIZE
  }

  predicate SmallSteps(steps: seq<Step>) {
    forall i | 0 <= i < |steps| && steps[i].Deliver? :: |steps[i].p| <= RX_BUF_SIZE
  }

  lemma SmallSpares(s: Ring, n: nat)
    requires Descriptors(s) && Small(s.delivered) && n <= RX_BUF_SIZE
    ensures Spares(s, n)
  {
    forall i | 0 <= i < RX_RING_COUNT && s.slot[i].Some? && Armed(s.ctrl[s.dev])
      ensures Apart(Buffer(s.dev), n, Buffer(i), Length(s.ctrl[i]))
    {
      assert Labelled(s, i);
    }
  }

  /** Packets of at most a buffer's size never meet. */
  lemma {:induction false} SmallStepsSpare(s: Ring, steps: seq<Step>, r: Ring)
    requires Inv(s) && Small(s.delivered) && Runs(s, steps, r) && SmallSteps(steps)
    ensures Spared(s, steps) && Small(r.delivered)
    decreases |steps|
  {
    if steps != [] {
      if steps[0].Deliver? {
        SmallSpares(s, |steps[0].p|);
      }
      DoKeepsInv(s, steps[0]);
      SmallStepsSpare(Do(s, steps[0]), steps[1..], r);
    }
  }

  /** One byte too many: the next packet goes over the end of the one that waits. */
  lemma LongPacketIsOverwritten(s0: Ring, p: Packet, q: Packet) returns (steps: seq<Step>, s: Ring)
    requires Fresh(s0) && |p| == RX_BUF_SIZE + 1 && 0 < |q| <= RX_BUF_SIZE && q[0] != p[RX_BUF_SIZE]
    ensures Runs(s0, steps, s) && Shape(s) && s.delivered == [p, q] && s.returned == [] && s.slot[0] == Some(0)
    ensures !BytesAt(s.mem, Buffer(0), p)
  {
    var a := Do(s0, Deliver(p));
    s := Do(a, Deliver(q));
    RunsCons(a, Deliver(q), [], s);
    RunsCons(s0, Deliver(p), [Deliver(q)] + [], s);
    steps := [Deliver(p)] + ([Deliver(q)] + []);
    assert s.mem[Buffer(1)] == q[0];
  }

  // ---- order ----------------------------------------------------------------------------

  /** Where the oldest packet would be: a scan has moved `tail` on, but only past armed descriptors. */
  function Head(s: Ring): nat
    requires Shape(s)
  {
    if s.poll.Scanning? then s.poll.start else s.tail
  }

  /** How far descriptor i is ahead of h, going round the ring. */
  function Ahead(i: nat, h: nat): (o: nat)
    requires i < RX_RING_COUNT && h < RX_RING_COUNT
    ensures o < RX_RING_COUNT
  {
    if i >= h then i - h else i + RX_RING_COUNT - h
  }

  /** What the slot o places ahead of the head holds when n packets wait. */
  function Expected(s: Ring, n: nat, o: nat): Option<nat> {
    if o < n then Some(|s.returned| + o)
    else if s.poll.Holding? && o == RX_RING_COUNT - 1 && |s.returned| > 0 then Some(|s.returned| - 1)
    else None
  }

  /** The completed descriptors are the cyclic run from the head to the device's index, in order of arrival. */
  predicate Fifo(s: Ring) {
    && Shape(s) && |s.returned| <= |s.delivered|
    && var n := |s.delivered| - |s.returned|;
    && n + (if s.poll.Holding? then 1 else 0) <= RX_RING_COUNT
    && s.dev == Round(Head(s), n)
    && (forall i | 0 <= i < RX_RING_COUNT :: s.slot[i] == Expected(s, n, Ahead(i, Head(s))))
    && (s.poll.Holding? ==> Ahead(s.poll.idx, s.tail) == RX_RING_COUNT - 1 && |s.returned| > 0)
    && (s.poll.Scanning? ==> s.tail == Round(s.poll.start, s.poll.checked))
    && InArrivalOrder(s.returned)
  }

  predicate InArrivalOrder(returned: seq<nat>) {
    forall a | 0 <= a < |returned| :: returned[a] == a
  }

  /** No more packets have come during a scan than it has passed descriptors. */
  predicate NotOvertaken(s: Ring) {
    s.poll.Scanning? && s.poll.checked > 0 ==> |s.delivered| - |s.returned| <= s.poll.checked
  }

  /** At every check of a run. */
  ghost predicate NoneOvertaken(s: Ring, steps: seq<Step>)
    decreases |steps|
  {
    steps != [] ==>
      && Possible(s, steps[0]) && (steps[0].Check? ==> NotOvertaken(s))
      && NoneOvertaken(Do(s, steps[0]), steps[1..])
  }

  /** A run in which the device only delivers while no scan is under way. */
  ghost predicate PollsUndisturbed(s: Ring, steps: seq<Step>, r: Ring)
    decreases |steps|
  {
    if steps == [] then s == r
    else
      && Possible(s, steps[0]) && (steps[0].Deliver? ==> !s.poll.Scanning?)
      && PollsUndisturbed(Do(s, steps[0]), steps[1..], r)
  }

  lemma DeliverKeepsFifo(s: Ring, p: Packet)
    requires Descriptors(s) && Fifo(s) && Possible(s, Deliver(p))
    ensures Fifo(Do(s, Deliver(p)))
  {
    var n := |s.delivered| - |s.returned|;
    assert s.slot[s.dev] == Expected(s, n, Ahead(s.dev, Head(s)));
    if Armed(s.ctrl[s.dev]) {
      assert Ahead(s.dev, Head(s)) == n;
    }
  }

  lemma AheadOfNext(i: nat, h: nat)
    requires i < RX_RING_COUNT && h < RX_RING_COUNT
    ensures Ahead(i, After(h)) == if i == h then RX_RING_COUNT - 1 else Ahead(i, h) - 1
  {
  }

  /** With a packet waiting, the first check of a scan finds the oldest one. */
  lemma FindKeepsFifo(s: Ring)
    requires Descriptors(s) && Fifo(s) && Possible(s, Check)
    requires s.poll.checked == 0 && |s.delivered| > |s.returned|
    ensures s.tail == s.poll.start && Do(s, Check).poll == Holding(s.tail)
    ensures Do(s, Check).returned == s.returned + [|s.returned|]
    ensures Fifo(Do(s, Check))
  {
    var n, h := |s.delivered| - |s.returned|, s.tail;
    assert s.slot[h] == Expected(s, n, Ahead(h, Head(s)));
    var r := Do(s, Check);
    forall i | 0 <= i < RX_RING_COUNT
      ensures r.slot[i] == Expected(r, n - 1, Ahead(i, Head(r)))
    {
      AheadOfNext(i, h);
      assert s.slot[i] == Expected(s, n, Ahead(i, h));
    }
  }

  /** With no more packets waiting than descriptors passed, a check moves on; the last one ends the scan where it started. */
  lemma MissKeepsFifo(s: Ring)
    requires Descriptors(s) && Fifo(s) && Possible(s, Check) && |s.delivered| - |s.returned| <= s.poll.checked
    ensures Do(s, Check).returned == s.returned && !Do(s, Check).poll.Holding?
    ensures Do(s, Check).poll.Idle? ==> Do(s, Check).tail == s.poll.start
    ensures Do(s, Check).poll.Idle? <==> s.poll.checked == RX_RING_COUNT - 1
    ensures Do(s, Check).poll.Scanning? ==> Do(s, Check).poll.checked == s.poll.checked + 1
    ensures Fifo(Do(s, Check))
  {
    assert s.slot[s.tail] == Expected(s, |s.delivered| - |s.returned|, Ahead(s.tail, Head(s)));
    var r := Do(s, Check);
    assert Head(r) == Head(s);
    assert r.slot == s.slot;
  }

  /** With more, it returns a packet that is not the oldest. */
  lemma OvertakenReorders(s: Ring)
    requires Descriptors(s) && Fifo(s) && Possible(s, Check) && !NotOvertaken(s)
    ensures Do(s, Check).returned == s.returned + [|s.returned| + s.poll.checked]
    ensures !InArrivalOrder(Do(s, Check).returned)
  {
    assert s.slot[s.tail] == Expected(s, |s.delivered| - |s.returned|, Ahead(s.tail, Head(s)));
    var r := Do(s, Check);
    assert r.returned[|s.returned|] != |s.returned|;
  }

  lemma CheckKeepsFifo(s: Ring)
    requires Descriptors(s) && Fifo(s) && Possible(s, Check) && NotOvertaken(s)
    ensures Fifo(Do(s, Check))
  {
    if s.poll.checked == 0 && |s.delivered| > |s.returned| {
      FindKeepsFifo(s);
    } else {
      MissKeepsFifo(s);
    }
  }

  lemma RecycleKeepsFifo(s: Ring)
    requires Descriptors(s) && Fifo(s) && Possible(s, Recycle)
    ensures Fifo(Do(s, Recycle))
  {
  }

  lemma DoKeepsFifo(s: Ring, step: Step)
    requires Descriptors(s) && Fifo(s) && Possible(s, step) && (step.Check? ==> NotOvertaken(s))
    ensures Fifo(Do(s, step))
  {
    match step
    case Deliver(p) => DeliverKeepsFifo(s, p);
    case Begin =>
    case Check => CheckKeepsFifo(s);
    case Recycle => RecycleKeepsFifo(s);
  }

  lemma {:induction false} ReturnedGrows(s: Ring, steps: seq<Step>, r: Ring)
    requires Runs(s, steps, r)
    ensures s.returned <= r.returned
    decreases |steps|
  {
    if steps != [] {
      ReturnedGrows(Do(s, steps[0]), steps[1..], r);
    }
  }

  lemma {:induction false} OrderFrom(s: Ring, steps: seq<Step>, r: Ring)
    requires Inv(s) && Fifo(s) && Runs(s, steps, r)
    ensures InArrivalOrder(r.returned) <==> NoneOvertaken(s, steps)
    ensures NoneOvertaken(s, steps) ==> Inv(r) && Fifo(r)
    decreases |steps|
  {
    if steps != [] {
      var t := Do(s, steps[0]);
      DoKeepsInv(s, steps[0]);
      if steps[0].Check? && !NotOvertaken(s) {
        OvertakenReorders(s);
        ReturnedGrows(t, steps[1..], r);
        assert !InArrivalOrder(r.returned) by {
          var a :| 0 <= a < |t.returned| && t.returned[a] != a;
          assert r.returned[a] == t.returned[a];
        }
      } else {
        DoKeepsFifo(s, steps[0]);
        OrderFrom(t, steps[1..], r);
      }
    }
  }

  lemma FreshFifo(s: Ring)
    requires Fresh(s)
    ensures Fifo(s)
  {
  }

  /**
   * However deliveries and checks interleave: polls return packets in order of arrival if and only
   * if no check past the first of its scan had more packets waiting than descriptors passed.
   */
  lemma ArrivalOrderIffNoneOvertaken(s0: Ring, steps: seq<Step>, s: Ring)
    requires Fresh(s0) && Runs(s0, steps, s)
    ensures InArrivalOrder(s.returned) <==> NoneOvertaken(s0, steps)
  {
    FreshInv(s0);
    FreshFifo(s0);
    OrderFrom(s0, steps, s);
  }

  /**
   * And then the completed descriptors are the cyclic run from the tail to the device's index,
   * together with the one the driver is working on.
   */
  lemma CompletedAreACyclicRun(s0: Ring, steps: seq<Step>, s: Ring)
    requires Fresh(s0) && Runs(s0, steps, s) && InArrivalOrder(s.returned)
    ensures Shape(s) && |s.returned| <= |s.delivered|
    ensures s.dev == (Head(s) + |s.delivered| - |s.returned|) % RX_RING_COUNT
    ensures forall i | 0 <= i < RX_RING_COUNT && !Held(s, i) ::
      Armed(s.ctrl[i]) == (Ahead(i, Head(s)) >= |s.delivered| - |s.returned|)
  {
    FreshInv(s0);
    FreshFifo(s0);
    OrderFrom(s0, steps, s);
    forall i | 0 <= i < RX_RING_COUNT && !Held(s, i)
      ensures Armed(s.ctrl[i]) == (Ahead(i, Head(s)) >= |s.delivered| - |s.returned|)
    {
      assert s.slot[i] == Expected(s, |s.delivered| - |s.returned|, Ahead(i, Head(s)));
    }
  }

  /** A scan that has passed a descriptor has nothing waiting. */
  predicate Unmet(s: Ring) {
    s.poll.Scanning? && s.poll.checked > 0 ==> |s.delivered| == |s.returned|
  }

  lemma UndisturbedStep(s: Ring, step: Step)
    requires Descriptors(s) && Fifo(s) && Unmet(s) && Possible(s, step) && (step.Deliver? ==> !s.poll.Scanning?)
    ensures (step.Check? ==> NotOvertaken(s)) && Fifo(Do(s, step)) && Unmet(Do(s, step))
  {
    DoKeepsFifo(s, step);
    if step.Check? {
      if |s.delivered| > |s.returned| {
        FindKeepsFifo(s);
      } else {
        MissKeepsFifo(s);
      }
    }
  }

  lemma {:induction false} UndisturbedIsNotOvertaken(s: Ring, steps: seq<Step>, r: Ring)
    requires Inv(s) && Fifo(s) && Unmet(s) && PollsUndisturbed(s, steps, r)
    ensures Runs(s, steps, r) && NoneOvertaken(s, steps)
    decreases |steps|
  {
    if steps != [] {
      DoKeepsInv(s, steps[0]);
      UndisturbedStep(s, steps[0]);
      UndisturbedIsNotOvertaken(Do(s, steps[0]), steps[1..], r);
    }
  }

  /** In particular if no delivery falls inside a scan. */
  lemma PollsReturnInArrivalOrder(s0: Ring, steps: seq<Step>, s: Ring)
    requires Fresh(s0) && PollsUndisturbed(s0, steps, s)
    ensures Runs(s0, steps, s) && NoneOvertaken(s0, steps) && InArrivalOrder(s.returned)
  {
    FreshInv(s0);
    FreshFifo(s0);
    UndisturbedIsNotOvertaken(s0, steps, s);
    ArrivalOrderIffNoneOvertaken(s0, steps, s);
  }

  /** Two deliveries between the first two checks of a scan: packet 1 is returned before packet 0. */
  lemma DisturbedScanReorders(s0: Ring, p: Packet, q: Packet) returns (steps: seq<Step>, s: Ring)
    requires Fresh(s0) && |p| <= RX_MAX && |q| <= RX_MAX
    ensures Runs(s0, steps, s) && s.returned == [1] && s.delivered == [p, q]
  {
    var a := Do(s0, Begin);
    var b := Do(a, Check);
    var c := Do(b, Deliver(p));
    var d := Do(c, Deliver(q));
    s := Do(d, Check);
    RunsCons(d, Check, [], s);
    RunsCons(c, Deliver(q), [Check] + [], s);
    RunsCons(b, Deliver(p), [Deliver(q)] + ([Check] + []), s);
    RunsCons(a, Check, [Deliver(p)] + ([Deliver(q)] + ([Check] + [])), s);
    steps := [Check] + ([Deliver(p)] + ([Deliver(q)] + ([Check] + [])));
    RunsCons(s0, Begin, steps, s);
    steps := [Begin] + steps;
  }

  lemma RunsCons(s: Ring, step: Step, steps: seq<Step>, r: Ring)
    requires Possible(s, step) && Runs(Do(s, step), steps, r)
    ensures Runs(s, [step] + steps, r)
  {
    assert ([step] + steps)[1..] == steps;
  }

  // ---- decoding -------------------------------------------------------------------------

  function Counters(ps: seq<Packet>): (r: seq<uint32>)
    ensures |r| == |ps| && forall i | 0 <= i < |r| :: r[i] == CounterOf(ps[i])
  {
    seq(|ps|, i requires 0 <= i < |ps| => CounterOf(ps[i]))
  }
}
