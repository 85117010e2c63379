/**
 * The echo demo from end to end: the app's transmit ring, the tap, the peer, the tap again, the
 * app's receive ring; and what the web page shows of it on the way.
 */
module Echo {
  import opened Bytes
  import opened Lists
  import opened Framing
  import opened EchoPeer
  import opened TapObject
  import Tap
  import Hex
  import TxRing
  import RxRing
  import RxDriver

  /** The packets that come back to the device for those it sent. */
  function Returned(ps: seq<Packet>): seq<Packet> {
    Parse(MAX_PACKET, TapOut(PeerOut(TapOut(FrameAll(ps)), 1))).0
  }

  /** The counter that the page shows for a packet message: the last eight digits of its hex text. */
  function PageCounter(p: Packet): Option<uint32> {
    var hex := Hex.OfBytes(p);
    if |p| >= 4 && |hex| >= 8 then Some(WordValue(hex[|hex| - 8..])) else None
  }

  function WordValue(digits: string): uint32
    requires Hex.IsHex(digits)
  {
    Hex.Value(digits) % 0x1_0000_0000
  }

  /** The page and the receiving side read the same counter off a packet, for every packet. */
  lemma PageShowsTheCounter(p: Packet)
    ensures PageCounter(p) == if |p| < 4 then None else Some(CounterOf(p))
  {
    if |p| >= 4 {
      var init, word := p[..|p| - 4], p[|p| - 4..];
      assert p == init + word;
      Hex.OfBytesConcat(init, word);
      assert Hex.OfBytes(p)[2 * |p| - 8..] == Hex.OfBytes(word);
      Hex.ValueOfWord(word);
    }
  }

  /** The whole round trip keeps order and length and adds one to each counter. */
  lemma RoundTrip(ps: seq<Packet>)
    requires Fits(MAX_PACKET, ps) && AllPack(ps, 1)
    ensures Returned(ps) == BumpAll(ps, 1)
  {
    ParseFrameAll(MAX_PACKET, ps);
    ParseFrameAll(NO_CAP, ps);
    AnswerableAll(ps, 1);
    assert ps[..|ps|] == ps;
    var qs := BumpAll(ps, 1);
    ParseFrameAll(MAX_PACKET, qs);
  }

  // ---- the demo's own packets -----------------------------------------------------------

  function PacketsFor(cs: seq<uint32>): (ps: seq<Packet>)
    ensures |ps| == |cs| && forall i | 0 <= i < |ps| :: ps[i] == TxRing.PacketFor(cs[i])
  {
    seq(|cs|, i requires 0 <= i < |cs| => TxRing.PacketFor(cs[i]))
  }

  lemma CounterOfPacket(c: uint32)
    ensures CounterOf(TxRing.PacketFor(c)) == c && PageCounter(TxRing.PacketFor(c)) == Some(c)
  {
    assert TxRing.PacketFor(c)[2..] == EncodeBE32(c);
    DecodeEncodeBE32(c);
    PageShowsTheCounter(TxRing.PacketFor(c));
  }

  /** One counter sent and echoed: a packet comes back that fits a receive buffer and reads counter + 1. */
  lemma EchoAddsOne(c: uint32)
    requires c < 0xFFFF_FFFF
    ensures Packs(TxRing.PacketFor(c), 1)
    ensures Returned([TxRing.PacketFor(c)]) == [Bump(TxRing.PacketFor(c), 1)]
    ensures |Bump(TxRing.PacketFor(c), 1)| <= RxRing.RX_BUF_SIZE
    ensures CounterOf(Bump(TxRing.PacketFor(c), 1)) == c + 1
    ensures PageCounter(TxRing.PacketFor(c)) == Some(c) && PageCounter(Bump(TxRing.PacketFor(c), 1)) == Some(c + 1)
  {
    EchoCounter(c);
    CounterOfPacket(c);
    var ps: seq<Packet> := [TxRing.PacketFor(c)];
    RoundTrip(ps);
    assert BumpAll(ps, 1) == [Bump(ps[0], 1)];
  }

  /** The one counter that does not survive: the peer cannot pack its successor. */
  lemma LastCounterIsNotEchoed()
    ensures Returned([TxRing.PacketFor(0xFFFF_FFFF)]) == []
  {
    var p := TxRing.PacketFor(0xFFFF_FFFF);
    CounterOfPacket(0xFFFF_FFFF);
    ParseFrameAll(MAX_PACKET, [p]);
    ParseFrameAll(NO_CAP, [p]);
    AnswerableAt([p], 1, 0);
    assert [p][..0] == [] && BumpAll([], 1) == [];
    ParseFrameAll(MAX_PACKET, []);
  }

  lemma EchoCounter(c: uint32)
    requires c < 0xFFFF_FFFF
    ensures Packs(TxRing.PacketFor(c), 1) && CounterOf(Bump(TxRing.PacketFor(c), 1)) == c + 1
    ensures PageCounter(Bump(TxRing.PacketFor(c), 1)) == Some(c + 1)
  {
    CounterOfPacket(c);
    BumpCounter(TxRing.PacketFor(c), 1);
    PageShowsTheCounter(Bump(TxRing.PacketFor(c), 1));
  }

  lemma EchoesFitTheRing(cs: seq<uint32>)
    requires forall i | 0 <= i < |cs| :: cs[i] < 0xFFFF_FFFF
    ensures AllPack(PacketsFor(cs), 1) && Returned(PacketsFor(cs)) == BumpAll(PacketsFor(cs), 1)
    ensures RxRing.Small(Returned(PacketsFor(cs)))
  {
    forall i | 0 <= i < |cs|
      ensures Packs(PacketsFor(cs)[i], 1)
    {
      EchoCounter(cs[i]);
    }
    RoundTrip(PacketsFor(cs));
  }

  /**
   * End to end: any counters below 2^32 - 1 that fit the free part of the receive ring, sent
   * through tap, peer and tap and delivered in one burst, wait in the ring in order and decode to
   * the counters plus one.
   */
  lemma EveryCounterComesBackPlusOne(s: RxRing.Ring, cs: seq<uint32>)
    requires forall i | 0 <= i < |cs| :: cs[i] < 0xFFFF_FFFF
    requires RxRing.Descriptors(s) && RxRing.Fifo(s) && s.poll.Idle? && |cs| <= RxDriver.Room(s)
    ensures RxRing.Small(Returned(PacketsFor(cs)))
    ensures var r := RxDriver.Burst(s, Returned(PacketsFor(cs)));
      && RxRing.Fifo(r) && |r.delivered| == |s.delivered| + |cs| && r.returned == s.returned
      && var values := RxRing.Counters(r.delivered[|s.delivered|..]);
      forall i | 0 <= i < |cs| :: values[i] == cs[i] + 1
  {
    EchoesFitTheRing(cs);
    var qs := Returned(PacketsFor(cs));
    RxDriver.BurstFillsTheRoom(s, qs);
    var r := RxDriver.Burst(s, qs);
    assert r.delivered[|s.delivered|..] == qs;
    forall i | 0 <= i < |cs|
      ensures RxRing.Counters(qs)[i] == cs[i] + 1
    {
      EchoCounter(cs[i]);
    }
  }

  // ---- the demo, running its own code ---------------------------------------------------

  /** The app sends n counters and the device transmits each before the next. */
  method SendCounters(n: nat) returns (sent: seq<Packet>)
    ensures sent == TxRing.Stream(n)
  {
    var driver := new TxRing.Driver();
    var counter: uint32, dev := 0, 0;
    sent := [];
    for k := 0 to n
      invariant driver.Valid() && fresh(driver) && fresh(driver.txRing) && fresh(driver.txPayload)
      invariant OnSchedule(driver.model, sent) && |sent| == k
      invariant driver.model.counter == counter && driver.model.dev == dev
    {
      sent, dev := SendOne(driver, counter, dev, sent);
      counter := TxRing.Increment(counter);
    }
  }

  /** Everything handed over has been transmitted, and that is the stream so far. */
  ghost predicate OnSchedule(s: TxRing.Ring, sent: seq<Packet>) {
    && TxRing.Inv(s) && s.sent == sent && s.stored == 0 && !s.overlapped && TxRing.ArmedCount(s) == 0
  }

  lemma SentOnSchedule(s: TxRing.Ring, sent: seq<Packet>)
    requires OnSchedule(s, sent)
    ensures var r := TxRing.Sent(s);
      && TxRing.Inv(r) && r.sent == sent && r.stored == 0 && !r.overlapped && TxRing.Armed(r.ctrl[r.dev])
      && r.counter == TxRing.Increment(s.counter) && TxRing.ArmedCount(r) == 1 && r.dev == s.dev
  {
    TxRing.CallState(s);
    TxRing.CallKeepsInv(s);
  }

  lemma TransmittedOnSchedule(s: TxRing.Ring, sent: seq<Packet>)
    requires TxRing.Inv(s) && s.sent == sent && s.stored == 0 && !s.overlapped
    requires TxRing.ArmedCount(s) == 1 && TxRing.Armed(s.ctrl[s.dev])
    ensures var r := TxRing.Do(s, TxRing.Transmit);
      |r.sent| == |sent| + 1 && OnSchedule(r, r.sent) && r.counter == s.counter
  {
    TxRing.TransmitKeepsInv(s);
    TxRing.SentNext(s);
  }

  method SendOne(driver: TxRing.Driver, counter: uint32, dev: nat, sent: seq<Packet>)
    returns (more: seq<Packet>, next: nat)
    requires driver.Valid() && OnSchedule(driver.model, sent)
    requires driver.model.counter == counter && driver.model.dev == dev
    modifies driver, driver.txRing, driver.txPayload
    ensures driver.Valid() && OnSchedule(driver.model, more) && |more| == |sent| + 1
    ensures driver.model.counter == TxRing.Increment(counter) && driver.model.dev == next
  {
    SentOnSchedule(driver.model, sent);
    driver.SendCounter(counter);
    TransmittedOnSchedule(driver.model, sent);
    var p;
    p, next := driver.DeviceTransmit(dev);
    more := sent + if p.Some? then [p.value] else [];
  }

  /** One connection's bytes through the pump of its side. */
  method Leg(tap: SpwTap, side: Tap.Side, stream: seq<byte>, target: StreamWriter) returns (bytes: seq<byte>)
    requires tap.Valid() && tap.Writer(Tap.Other(side)) == target && target.sent == [] && !target.closing
    modifies target, tap.subscribers
    ensures bytes == TapOut(stream)
  {
    var reader := new StreamReader(stream);
    var _ := tap.Pump(reader, side);
    bytes := target.sent;
  }

  method BothConnected() returns (tap: SpwTap, toQemu: StreamWriter, toPeer: StreamWriter)
    ensures fresh(tap) && fresh(toQemu) && fresh(toPeer) && toQemu != toPeer
    ensures tap.Valid() && tap.subscribers == []
    ensures tap.Writer(Tap.Qemu) == toQemu && toQemu.sent == [] && !toQemu.closing
    ensures tap.Writer(Tap.Peer) == toPeer && toPeer.sent == [] && !toPeer.closing
  {
    tap := new SpwTap();
    toQemu := new StreamWriter();
    toPeer := new StreamWriter();
    var _ := tap.Connect(Tap.Qemu, toQemu);
    assert tap.Writer(Tap.Other(Tap.Peer)) == toQemu;
    var _ := tap.Connect(Tap.Peer, toPeer);
  }

  method Served(bytes: seq<byte>) returns (answers: seq<byte>)
    ensures answers == PeerOut(bytes, 1)
  {
    var conn := new Socket(bytes);
    var _ := Serve(conn, 1);
    answers := conn.sent;
  }

  /** The bytes from QEMU through the tap to the peer, and the peer's back to QEMU. */
  method ThroughTapAndPeer(stream: seq<byte>) returns (back: seq<byte>)
    ensures back == TapOut(PeerOut(TapOut(stream), 1))
  {
    var tap, toQemu, toPeer := BothConnected();
    var bytes := Leg(tap, Tap.Qemu, stream, toPeer);
    var answers := Served(bytes);
    back := Leg(tap, Tap.Peer, answers, toQemu);
  }

  /**
   * The device delivers packets as they come and the app drains its ring at any moments at all, but
   * before it overflows.
   */
  method ReceiveCounters(ps: seq<Packet>) returns (values: seq<uint32>)
    requires RxRing.Small(ps)
    ensures values == RxRing.Counters(ps)
  {
    var driver := new RxDriver.Driver();
    var dev := 0;
    values := [];
    for k := 0 to |ps|
      invariant Receiving(driver, ps[..k], values) && driver.model.dev == dev
      invariant fresh(driver) && fresh(driver.rxRing) && fresh(driver.rxBuf)
    {
      var now: bool := *;
      values, dev := ReceiveOne(driver, dev, ps, k, values, now);
    }
    assert ps[..|ps|] == ps;
    values := DrainMore(driver, ps, values);
  }

  /** One more packet; the app drains first if it likes, and in any case if the ring is full. */
  method ReceiveOne(driver: RxDriver.Driver, dev: nat, ps: seq<Packet>, k: nat, values: seq<uint32>, now: bool)
    returns (more: seq<uint32>, next: nat)
    requires k < |ps| && RxRing.Small(ps) && Receiving(driver, ps[..k], values) && driver.model.dev == dev
    modifies driver, driver.rxRing, driver.rxBuf
    ensures Receiving(driver, ps[..k + 1], more) && driver.model.dev == next
  {
    RxDriver.ArmedIffRoom(driver.model);
    more := values;
    if now || !RxRing.Armed(driver.rxRing[dev]) {
      more := DrainMore(driver, ps[..k], values);
    }
    Delivering(driver.model, ps, k);
    next := driver.DeviceDeliver(dev, ps[k]);
    ghost var n := |driver.model.returned|;
    assert ps[..k + 1][..n] == ps[..k][..n];
  }

  /** The counters decoded so far are those of the packets returned. */
  ghost predicate Receiving(driver: RxDriver.Driver, ps: seq<Packet>, values: seq<uint32>)
    reads driver, driver.rxRing, driver.rxBuf
  {
    && driver.Valid() && Waiting(driver.model) && driver.model.delivered == ps
    && |driver.model.returned| <= |ps| && values == RxRing.Counters(ps[..|driver.model.returned|])
  }

  ghost predicate Waiting(s: RxRing.Ring) {
    RxRing.Inv(s) && RxRing.Intact(s) && RxRing.Fifo(s) && s.poll.Idle? && RxRing.Small(s.delivered)
  }

  lemma Delivering(s: RxRing.Ring, ps: seq<Packet>, k: nat)
    requires Waiting(s) && k < |ps| && s.delivered == ps[..k] && RxRing.Small(ps) && RxDriver.Room(s) > 0
    ensures var r := RxRing.Do(s, RxRing.Deliver(ps[k]));
      Waiting(r) && r.delivered == ps[..k + 1] && r.returned == s.returned
  {
    RxRing.SmallSpares(s, |ps[k]|);
    RxRing.DoKeepsInv(s, RxRing.Deliver(ps[k]));
    RxRing.DeliverKeepsIntact(s, ps[k]);
    RxRing.DeliverKeepsFifo(s, ps[k]);
    RxDriver.DeliverTakesRoom(s, ps[k]);
  }

  method DrainMore(driver: RxDriver.Driver, ghost ps: seq<Packet>, values: seq<uint32>) returns (more: seq<uint32>)
    requires Receiving(driver, ps, values)
    modifies driver, driver.rxRing
    ensures Receiving(driver, ps, more) && more == RxRing.Counters(ps)
    ensures driver.model.dev == old(driver.model.dev) && RxDriver.Room(driver.model) > 0
  {
    ghost var n := |driver.model.returned|;
    var drained := driver.Drain();
    more := values + drained;
    assert ps[..n] + ps[n..] == ps && ps[..|ps|] == ps;
  }

  /**
   * The demo from the app's first send to its last drain: for any number of counters below
   * 2^32 - 1, the app decodes each counter plus one, in order.
   */
  method Demo(n: nat) returns (values: seq<uint32>)
    requires n <= 0xFFFF_FFFF
    ensures |values| == n && forall i | 0 <= i < n :: values[i] == i + 1
  {
    var sent := SendCounters(n);
    var back := ThroughTapAndPeer(FrameAll(sent));
    StreamIsEchoed(n);
    values := ReceiveCounters(Parse(MAX_PACKET, back).0);
  }

  lemma StreamIsEchoed(n: nat)
    requires n <= 0xFFFF_FFFF
    ensures RxRing.Small(Returned(TxRing.Stream(n)))
    ensures var values := RxRing.Counters(Returned(TxRing.Stream(n)));
      |values| == n && forall i | 0 <= i < n :: values[i] == i + 1
  {
    var cs: seq<uint32> := seq(n, i requires 0 <= i < n => i);
    assert PacketsFor(cs) == TxRing.Stream(n);
    EchoesFitTheRing(cs);
    forall i | 0 <= i < n
      ensures CounterOf(Bump(PacketsFor(cs)[i], 1)) == i + 1
    {
      EchoCounter(cs[i]);
    }
  }

  // ---- a packet that goes round again and again -----------------------------------------

  /** The packet after k passes of the peer, as long as the sum fits. */
  function Passes(p: Packet, inc: nat, k: nat): (q: Packet)
    requires |p| >= 4 && CounterOf(p) + k * inc < 0x1_0000_0000
    ensures |q| == |p| && q[..|p| - 4] == p[..|p| - 4] && CounterOf(q) == CounterOf(p) + k * inc
  {
    if k == 0 then p
    else
      assert k * inc == (k - 1) * inc + inc;
      var q := Passes(p, inc, k - 1);
      BumpCounter(q, inc);
      Bump(q, inc)
  }
}
