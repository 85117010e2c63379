/**
 * The transmit ring of the counter app. All four descriptors point at one payload buffer, and the
 * driver does not look at EN before it reuses a descriptor.
 */
module TxRing {
  import opened Bytes
  import opened Framing
  import opened Lists

  const TX_RING_COUNT: nat := 4

  const TXBD_EN: int := 0x1000  // bit 12
  const TXBD_WR: int := 0x2000  // bit 13; the header length is the low 8 bits

  const TX_HDR: seq<byte> := [0xFE, 0x00]

  predicate Armed(ctrl: uint32) {
    ctrl / TXBD_EN % 2 == 1
  }

  predicate Wraps(ctrl: uint32) {
    ctrl / TXBD_WR % 2 == 1
  }

  function HeaderLength(ctrl: uint32): nat {
    ctrl % 0x100
  }

  /** The word with which the driver hands descriptor i to the device. */
  function Arm(i: nat): (ctrl: uint32)
    ensures Armed(ctrl) && Wraps(ctrl) == (i == TX_RING_COUNT - 1) && HeaderLength(ctrl) == |TX_HDR|
  {
    TXBD_EN + (if i == TX_RING_COUNT - 1 then TXBD_WR else 0) + |TX_HDR|
  }

  function Disarm(ctrl: uint32): (r: uint32)
    requires Armed(ctrl)
    ensures !Armed(r) && Wraps(r) == Wraps(ctrl)
  {
    ctrl - TXBD_EN
  }

  /**
   * `counter` is the app's counter, which wraps at 32 bits, and `stored` how many of its bytes are
   * in the payload buffer already. History: the packets transmitted, how many were handed over,
   * and whether the payload ever changed while a descriptor was still armed.
   */
  datatype Ring = Ring(
    ctrl: seq<uint32>, payload: seq<byte>, stored: nat, head: nat, dev: nat, counter: uint32,
    sent: seq<Packet>, sends: nat, overlapped: bool)

  /**
   * grspw_send_counter stores four bytes and then hands the descriptor over; `Hand` includes the
   * increment of the counter that follows. `Transmit` is the device.
   */
  datatype Step = Store | Hand | Transmit

  predicate Shape(s: Ring) {
    && |s.ctrl| == TX_RING_COUNT && s.head < TX_RING_COUNT && s.dev < TX_RING_COUNT
    && |s.payload| == 4 && s.stored <= 4
  }

  predicate Possible(s: Ring, step: Step) {
    && Shape(s)
    && match step
       case Store => s.stored < 4
       case Hand => s.stored == 4
       case Transmit => true
  }

  function ArmedCount(s: Ring): nat
    requires Shape(s)
  {
    (if Armed(s.ctrl[0]) then 1 else 0) + (if Armed(s.ctrl[1]) then 1 else 0) +
    (if Armed(s.ctrl[2]) then 1 else 0) + (if Armed(s.ctrl[3]) then 1 else 0)
  }

  function Increment(counter: uint32): uint32 {
    (counter + 1) % 0x1_0000_0000
  }

  function Stored(s: Ring): Ring
    requires Possible(s, Store)
  {
    var b := EncodeBE32(s.counter)[s.stored];
    s.(payload := s.payload[s.stored := b],
       stored := s.stored + 1,
       overlapped := s.overlapped || (ArmedCount(s) > 0 && s.payload[s.stored] != b))
  }

  function Handed(s: Ring): Ring
    requires Possible(s, Hand)
  {
    s.(ctrl := s.ctrl[s.head := Arm(s.head)],
       stored := 0,
       head := (s.head + 1) % TX_RING_COUNT,
       counter := Increment(s.counter),
       sends := s.sends + 1)
  }

  function Transmitted(s: Ring): Ring
    requires Shape(s)
  {
    var bd := s.ctrl[s.dev];
    if !Armed(bd) then s
    else
      var hdr := if HeaderLength(bd) <= |TX_HDR| then TX_HDR[..HeaderLength(bd)] else TX_HDR;
      s.(ctrl := s.ctrl[s.dev := Disarm(bd)],
         sent := s.sent + [hdr + s.payload],
         dev := if Wraps(bd) then 0 else (s.dev + 1) % TX_RING_COUNT)
  }

  function Do(s: Ring, step: Step): Ring
    requires Possible(s, step)
  {
    match step
    case Store => Stored(s)
    case Hand => Handed(s)
    case Transmit => Transmitted(s)
  }

  const RESET := Ring([0, 0, 0, 0], [0, 0, 0, 0], 0, 0, 0, 0, [], 0, false)

  ghost predicate Runs(s: Ring, steps: seq<Step>, r: Ring)
    decreases |steps|
  {
    if steps == [] then s == r
    else Possible(s, steps[0]) && Runs(Do(s, steps[0]), steps[1..], r)
  }

  // ---- the stream the app means to send -------------------------------------------------

  function PacketFor(counter: uint32): (p: Packet)
    ensures |p| == 6
  {
    TX_HDR + EncodeBE32(counter)
  }

  function Wrapped(k: nat): uint32 {
    k % 0x1_0000_0000
  }

  /** Counters 0, 1, 2, … modulo 2^32. */
  function Stream(n: nat): (r: seq<Packet>)
    ensures |r| == n && forall k | 0 <= k < n :: r[k] == PacketFor(Wrapped(k))
  {
    seq(n, k requires 0 <= k < n => PacketFor(Wrapped(k)))
  }

  // ---- every run ------------------------------------------------------------------------

  predicate Common(s: Ring) {
    && Shape(s)
    && (forall i | 0 <= i < TX_RING_COUNT && Armed(s.ctrl[i]) :: s.ctrl[i] == Arm(i))
    && (forall i | 0 <= i < TX_RING_COUNT - 1 :: !Wraps(s.ctrl[i]))
    && s.counter == Wrapped(s.sends)
    && s.head == s.sends % TX_RING_COUNT && s.dev == |s.sent| % TX_RING_COUNT
    && (forall i | 0 <= i < s.stored :: s.payload[i] == EncodeBE32(s.counter)[i])
    && (s.sends > 0 ==>
          forall i | s.stored <= i < 4 :: s.payload[i] == EncodeBE32(Wrapped(s.sends - 1))[i])
    && |s.sent| + ArmedCount(s) <= s.sends
  }

  /** While the payload changed only with no descriptor armed, at most one is and the stream is right. */
  predicate OnTime(s: Ring) {
    && Shape(s) && |s.sent| + ArmedCount(s) == s.sends && ArmedCount(s) <= 1
    && (ArmedCount(s) == 1 ==> Armed(s.ctrl[s.dev]) && s.payload == EncodeBE32(Wrapped(s.sends - 1)))
    && s.sent == Stream(|s.sent|)
  }

  predicate Mismatch(s: Ring) {
    exists k | 0 <= k < |s.sent| :: s.sent[k] != PacketFor(Wrapped(k))
  }

  /** The payload is not that of the counter that is due. */
  predicate Late(s: Ring) {
    Shape(s) && ArmedCount(s) >= 1 && s.payload != EncodeBE32(Wrapped(|s.sent|))
  }

  /** After an overlap the stream is wrong already, or short for good, or about to be wrong. */
  predicate Spoilt(s: Ring) {
    Shape(s) && (Mismatch(s) || |s.sent| + ArmedCount(s) < s.sends || Late(s))
  }

  predicate Inv(s: Ring) {
    Common(s) && if s.overlapped then Spoilt(s) else OnTime(s)
  }

  lemma NextIndex(n: nat)
    ensures (n + 1) % TX_RING_COUNT == (n % TX_RING_COUNT + 1) % TX_RING_COUNT
  {
  }

  lemma NextCounter(n: nat)
    ensures Increment(Wrapped(n)) == Wrapped(n + 1)
  {
  }

  lemma StoreKeepsCommon(s: Ring)
    requires Common(s) && Possible(s, Store)
    ensures Common(Do(s, Store))
  {
  }

  lemma HandKeepsCommon(s: Ring)
    requires Common(s) && Possible(s, Hand)
    ensures Common(Do(s, Hand))
  {
    NextIndex(s.sends);
    NextCounter(s.sends);
  }

  lemma TransmitKeepsCommon(s: Ring)
    requires Common(s)
    ensures Common(Do(s, Transmit))
  {
    NextIndex(|s.sent|);
  }

  lemma LastByte(n: nat)
    ensures EncodeBE32(Wrapped(n))[3] == n % 0x100
  {
  }

  /** Counters that are one to four apart differ in their last byte. */
  lemma LastBytesDiffer(n: nat, d: nat)
    requires 1 <= d <= 4
    ensures EncodeBE32(Wrapped(n + d))[3] != EncodeBE32(Wrapped(n))[3]
  {
    LastByte(n);
    LastByte(n + d);
    RemaindersDiffer(n, d);
  }

  lemma RemaindersDiffer(n: nat, d: nat)
    requires 1 <= d <= 4
    ensures (n + d) % 0x100 != n % 0x100
  {
    var q, r := n / 0x100, n % 0x100;
    assert n + d == 0x100 * q + (r + d);
    if r + d < 0x100 {
      assert (n + d) % 0x100 == r + d;
    } else {
      assert n + d == 0x100 * (q + 1) + (r + d - 0x100);
      assert (n + d) % 0x100 == r + d - 0x100;
    }
  }

  /** Storing more of a later counter does not bring back the one that is due. */
  lemma StoreStaysLate(s: Ring)
    requires Common(s) && Possible(s, Store) && Late(s) && |s.sent| + ArmedCount(s) == s.sends
    ensures Late(Do(s, Store))
  {
    var r, due, n := Do(s, Store), EncodeBE32(Wrapped(|s.sent|)), ArmedCount(s);
    if n == 1 {
      var i :| 0 <= i < 4 && s.payload[i] != due[i];
      assert r.payload[i] != due[i];
    } else {
      LastBytesDiffer(|s.sent|, n - 1);
      LastBytesDiffer(|s.sent|, n);
      StoreKeepsCommon(s);
      assert r.payload[3] != due[3];
    }
  }

  lemma StoreKeepsInv(s: Ring)
    requires Inv(s) && Possible(s, Store)
    ensures Inv(Do(s, Store))
  {
    StoreKeepsCommon(s);
    var r, i := Do(s, Store), s.stored;
    if Mismatch(s) {
      MismatchStays(s, r);
    } else if s.overlapped {
      if |s.sent| + ArmedCount(s) == s.sends {
        StoreStaysLate(s);
      }
    } else if ArmedCount(s) == 1 {
      if r.overlapped {
        assert r.payload[i] != EncodeBE32(Wrapped(|s.sent|))[i];
      } else {
        assert r.payload == s.payload;
      }
    }
  }

  lemma HandKeepsInv(s: Ring)
    requires Inv(s) && Possible(s, Hand)
    ensures Inv(Do(s, Hand))
  {
    HandKeepsCommon(s);
    var r := Do(s, Hand);
    assert s.payload == EncodeBE32(s.counter);
    if Mismatch(s) {
      MismatchStays(s, r);
    } else if !s.overlapped {
      if ArmedCount(s) == 1 {
        LastBytesDiffer(s.sends - 1, 1);
        assert false;
      }
    }
  }

  lemma MismatchStays(s: Ring, r: Ring)
    requires Mismatch(s) && s.sent <= r.sent
    ensures Mismatch(r)
  {
    var k :| 0 <= k < |s.sent| && s.sent[k] != PacketFor(Wrapped(k));
    assert r.sent[k] != PacketFor(Wrapped(k));
  }

  lemma LateMismatches(s: Ring)
    requires Common(s) && Armed(s.ctrl[s.dev]) && Late(s)
    ensures Mismatch(Do(s, Transmit))
  {
    var k := |s.sent|;
    var r := Do(s, Transmit);
    assert TX_HDR[..|TX_HDR|] == TX_HDR;
    assert r.sent[k] == TX_HDR + s.payload;
    assert r.sent[k][2..] == s.payload && PacketFor(Wrapped(k))[2..] == EncodeBE32(Wrapped(k));
  }

  lemma StreamNext(n: nat)
    ensures Stream(n + 1) == Stream(n) + [PacketFor(Wrapped(n))]
  {
  }

  lemma SentNext(s: Ring)
    requires Common(s) && Armed(s.ctrl[s.dev])
    ensures Do(s, Transmit).sent == s.sent + [TX_HDR + s.payload]
    ensures ArmedCount(Do(s, Transmit)) == ArmedCount(s) - 1
  {
    assert s.ctrl[s.dev] == Arm(s.dev);
    assert TX_HDR[..|TX_HDR|] == TX_HDR;
  }

  lemma OnTimeTransmits(s: Ring)
    requires Common(s) && OnTime(s) && Armed(s.ctrl[s.dev])
    ensures OnTime(Do(s, Transmit))
  {
    SentNext(s);
    StreamNext(|s.sent|);
  }

  lemma SpoiltTransmits(s: Ring)
    requires Common(s) && Spoilt(s) && Armed(s.ctrl[s.dev])
    ensures Spoilt(Do(s, Transmit))
  {
    SentNext(s);
    if Mismatch(s) {
      MismatchStays(s, Do(s, Transmit));
    } else if |s.sent| + ArmedCount(s) == s.sends {
      LateMismatches(s);
    }
  }

  lemma TransmitKeepsInv(s: Ring)
    requires Inv(s)
    ensures Inv(Do(s, Transmit))
  {
    TransmitKeepsCommon(s);
    if Armed(s.ctrl[s.dev]) {
      if s.overlapped {
        SpoiltTransmits(s);
      } else {
        OnTimeTransmits(s);
      }
    }
  }

  lemma {:induction false} RunsKeepInv(s: Ring, steps: seq<Step>, r: Ring)
    requires Inv(s) && Runs(s, steps, r)
    ensures Inv(r)
    decreases |steps|
  {
    if steps != [] {
      match steps[0] {
        case Store => StoreKeepsInv(s);
        case Hand => HandKeepsInv(s);
        case Transmit => TransmitKeepsInv(s);
      }
      RunsKeepInv(Do(s, steps[0]), steps[1..], r);
    }
  }

  /**
   * Once everything handed over has been transmitted, the stream is 0, 1, 2, … modulo 2^32, all
   * of it, if and only if the payload buffer never changed while a descriptor was still armed.
   */
  lemma StreamIsRightIffNoOverlap(steps: seq<Step>, s: Ring)
    requires Runs(RESET, steps, s)
    ensures Shape(s)
    ensures ArmedCount(s) == 0 ==> (s.sent == Stream(s.sends) <==> !s.overlapped)
    ensures !s.overlapped ==> s.sent == Stream(|s.sent|) && s.sends <= |s.sent| + 1
    ensures !s.overlapped ==>
      forall k | 0 <= k < |s.sent| :: s.sent[k] == [0xFE, 0x00] + EncodeBE32(k % 0x1_0000_0000)
  {
    RunsKeepInv(RESET, steps, s);
  }

  /** Driver and device go round the ring in step, across wraps, and only the last slot wraps. */
  lemma IndicesAgree(steps: seq<Step>, s: Ring)
    requires Runs(RESET, steps, s)
    ensures Shape(s) && s.head == s.sends % TX_RING_COUNT && s.dev == |s.sent| % TX_RING_COUNT
    ensures !s.overlapped && ArmedCount(s) == 0 ==> s.head == s.dev
    ensures forall i | 0 <= i < TX_RING_COUNT && Armed(s.ctrl[i]) :: Wraps(s.ctrl[i]) == (i == TX_RING_COUNT - 1)
  {
    RunsKeepInv(RESET, steps, s);
  }

  function AllStored(s: Ring): (r: Ring)
    requires Shape(s) && s.stored == 0
    ensures Shape(r) && r.stored == 4
  {
    Do(Do(Do(Do(s, Store), Store), Store), Store)
  }

  /** A call of grspw_send_counter with no transmission in between. */
  function Sent(s: Ring): Ring
    requires Shape(s) && s.stored == 0
  {
    Do(AllStored(s), Hand)
  }

  /** The words in memory: EN, WR on the last slot, and the length of the header. */
  lemma ControlWords(i: nat)
    requires i < TX_RING_COUNT
    ensures i < 4 && Arm(i) == if i == 3 then 0x3002 else 0x1002
  {
  }

  lemma RunsCons(s: Ring, step: Step, steps: seq<Step>, r: Ring)
    requires Possible(s, step) && Runs(Do(s, step), steps, r)
    ensures Runs(s, [step] + steps, r)
  {
    assert ([step] + steps)[1..] == steps;
  }

  const CALL: seq<Step> := [Store] + ([Store] + ([Store] + ([Store] + ([Hand] + []))))

  lemma CallRuns(s: Ring)
    requires Shape(s) && s.stored == 0
    ensures Runs(s, CALL, Sent(s)) && Shape(Sent(s)) && Sent(s).stored == 0
  {
    var a := Do(s, Store);
    var b := Do(a, Store);
    var c := Do(b, Store);
    var d := Do(c, Store);
    RunsCons(d, Hand, [], Do(d, Hand));
    RunsCons(c, Store, [Hand] + [], Do(d, Hand));
    RunsCons(b, Store, [Store] + ([Hand] + []), Do(d, Hand));
    RunsCons(a, Store, [Store] + ([Store] + ([Hand] + [])), Do(d, Hand));
    RunsCons(s, Store, [Store] + ([Store] + ([Store] + ([Hand] + []))), Do(d, Hand));
  }

  lemma CallState(s: Ring)
    requires Shape(s) && s.stored == 0
    ensures var r := Sent(s);
      && r.payload == EncodeBE32(s.counter) && r.counter == Increment(s.counter)
      && r.ctrl == s.ctrl[s.head := Arm(s.head)] && r.head == (s.head + 1) % TX_RING_COUNT
      && r.dev == s.dev && r.sent == s.sent
  {
  }

  lemma CallKeepsInv(s: Ring)
    requires Inv(s) && s.stored == 0
    ensures Inv(Sent(s)) && Sent(s).stored == 0
    ensures ArmedCount(s) == 0 ==> Sent(s).overlapped == s.overlapped
  {
    CallRuns(s);
    RunsKeepInv(s, CALL, Sent(s));
  }

  lemma {:induction false} RunsCompose(s: Ring, a: seq<Step>, m: Ring, b: seq<Step>, r: Ring)
    requires Runs(s, a, m) && Runs(m, b, r)
    ensures Runs(s, a + b, r)
    decreases |a|
  {
    if a == [] {
      assert a + b == b;
    } else {
      assert (a + b)[1..] == a[1..] + b;
      RunsCompose(Do(s, a[0]), a[1..], m, b, r);
    }
  }

  /** Two calls before the device gets to transmit: counter 1 goes out in the place of counter 0. */
  lemma LateDeviceSendsTheWrongCounter() returns (s: Ring)
    ensures Runs(RESET, CALL + (CALL + ([Transmit] + [])), s) && s.sent == [PacketFor(1)]
  {
    var a := Sent(RESET);
    var b := Sent(a);
    s := Do(b, Transmit);
    CallRuns(RESET);
    CallRuns(a);
    RunsCons(b, Transmit, [], s);
    RunsCompose(a, CALL, b, [Transmit] + [], s);
    RunsCompose(RESET, CALL, a, CALL + ([Transmit] + []), s);
    CallState(RESET);
    CallState(a);
    assert TX_HDR[..|TX_HDR|] == TX_HDR;
  }

  // ---- the driver's code ----------------------------------------------------------------

  class Driver {
    const txRing: array<uint32>     // the ctrl words
    const txPayload: array<byte>
    var head: nat
    ghost var model: Ring

    ghost predicate Valid()
      reads this, txRing, txPayload
    {
      txRing[..] == model.ctrl && txPayload[..] == model.payload && head == model.head && Inv(model)
    }

    constructor ()
      ensures Valid() && model == RESET && fresh(txRing) && fresh(txPayload)
    {
      txRing := new uint32[TX_RING_COUNT] [0, 0, 0, 0];
      txPayload := new byte[4] [0, 0, 0, 0];
      head := 0;
      model := RESET;
    }

    method StoreByte(i: nat, b: byte)
      requires Valid() && i == model.stored < 4 && b == EncodeBE32(model.counter)[i]
      modifies this`model, txPayload
      ensures Valid() && model == Do(old(model), Store)
    {
      StoreKeepsInv(model);
      txPayload[i] := b;
      model := Do(model, Store);
    }

    /** The app's counter goes into the payload buffer, byte by byte. */
    method EncodePayload(counter: uint32)
      requires Valid() && counter == model.counter && model.stored == 0
      modifies this`model, txPayload
      ensures Valid() && model == AllStored(old(model)) && model.stored == 4
      ensures txPayload[..] == EncodeBE32(counter)
    {
      StoreByte(0, counter / 0x100_0000 % 0x100);
      StoreByte(1, counter / 0x1_0000 % 0x100);
      StoreByte(2, counter / 0x100 % 0x100);
      StoreByte(3, counter % 0x100);
    }

    method ArmHead()
      requires Valid() && model.stored == 4
      modifies this, txRing
      ensures Valid() && model == Do(old(model), Hand)
      ensures txRing[..] == old(txRing[..])[old(head) := Arm(old(head))]
      ensures head == (old(head) + 1) % TX_RING_COUNT
    {
      HandKeepsInv(model);
      model := Do(model, Hand);
      txRing[head] := TXBD_EN + (if head == TX_RING_COUNT - 1 then TXBD_WR else 0) + |TX_HDR|;
      head := (head + 1) % TX_RING_COUNT;
    }

    /** grspw_send_counter. */
    method SendCounter(counter: uint32)
      requires Valid() && counter == model.counter && model.stored == 0
      modifies this, txRing, txPayload
      ensures Valid() && model == Sent(old(model))
    {
      EncodePayload(counter);
      ArmHead();
    }

    /** The device, at its index d, sending the packet of the descriptor if it owns that. */
    method DeviceTransmit(d: nat) returns (p: Option<Packet>, next: nat)
      requires Valid() && d == model.dev
      modifies this`model, txRing
      ensures Valid() && model == Do(old(model), Transmit) && next == model.dev
      ensures model.sent == old(model.sent) + if p.Some? then [p.value] else []
    {
      TransmitKeepsInv(model);
      model := Do(model, Transmit);
      p, next := None, d;
      var bd := txRing[d];
      if Armed(bd) {
        var hdr := if HeaderLength(bd) <= |TX_HDR| then TX_HDR[..HeaderLength(bd)] else TX_HDR;
        p := Some(hdr + txPayload[..]);
        txRing[d] := Disarm(bd);
        next := if Wraps(bd) then 0 else (d + 1) % TX_RING_COUNT;
      }
    }
  }
}
