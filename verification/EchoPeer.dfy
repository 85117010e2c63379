/** The echo peer: it adds a constant to the trailing counter of every packet and sends it back. */
module EchoPeer {
  import opened Bytes
  import opened Lists
  import opened Framing

  /** struct.pack raises when the new counter does not fit 32 bits. */
  predicate Packs(p: Packet, inc: int) {
    |p| >= 4 ==> 0 <= CounterOf(p) + inc < 0x1_0000_0000
  }

  function Bump(p: Packet, inc: int): (q: Packet)
    requires Packs(p, inc)
    ensures |q| == |p|
    ensures |p| < 4 ==> q == p
    ensures |p| >= 4 ==> q[..|p| - 4] == p[..|p| - 4]
  {
    if |p| < 4 then p else p[..|p| - 4] + EncodeBE32(CounterOf(p) + inc)
  }

  lemma BumpCounter(p: Packet, inc: int)
    requires |p| >= 4 && Packs(p, inc)
    ensures CounterOf(Bump(p, inc)) == CounterOf(p) + inc
  {
    DecodeEncodeBE32(CounterOf(p) + inc);
    assert Bump(p, inc)[|p| - 4..] == EncodeBE32(CounterOf(p) + inc);
  }

  predicate AllPack(ps: seq<Packet>, inc: int) {
    forall i | 0 <= i < |ps| :: Packs(ps[i], inc)
  }

  function BumpAll(ps: seq<Packet>, inc: int): (qs: seq<Packet>)
    requires AllPack(ps, inc)
    ensures |qs| == |ps| && forall i | 0 <= i < |qs| :: qs[i] == Bump(ps[i], inc)
  {
    seq(|ps|, i requires 0 <= i < |ps| => Bump(ps[i], inc))
  }

  /** How many packets the peer answers before one whose counter overflows. */
  function Answerable(ps: seq<Packet>, inc: int): (n: nat)
    ensures n <= |ps| && AllPack(ps[..n], inc)
    ensures n < |ps| ==> !Packs(ps[n], inc)
  {
    if ps == [] || !Packs(ps[0], inc) then 0
    else
      var n := 1 + Answerable(ps[1..], inc);
      assert ps[..n] == [ps[0]] + ps[1..][..n - 1];
      n
  }

  lemma AnswerableAll(ps: seq<Packet>, inc: int)
    requires AllPack(ps, inc)
    ensures Answerable(ps, inc) == |ps|
  {
  }

  lemma AnswerableAt(ps: seq<Packet>, inc: int, n: nat)
    requires n < |ps| && AllPack(ps[..n], inc) && !Packs(ps[n], inc)
    ensures Answerable(ps, inc) == n
  {
  }

  // ---- the program ----------------------------------------------------------------------

  class Socket {
    var pending: seq<byte>  // what the other end will have sent before it closes
    var sent: seq<byte>

    constructor (bytes: seq<byte>)
      ensures pending == bytes && sent == []
    {
      pending, sent := bytes, [];
    }

    /** Some of the pending bytes, as many as the network cares to give; none at end of file. */
    method Recv(max: nat) returns (chunk: seq<byte>)
      requires max > 0
      modifies this`pending
      ensures |chunk| <= max && old(pending) == chunk + pending
      ensures chunk == [] <==> old(pending) == []
    {
      if pending == [] {
        return [];
      }
      var k :| 1 <= k <= max && k <= |pending|;
      chunk := pending[..k];
      pending := pending[k..];
    }

    method SendAll(bytes: seq<byte>)
      modifies this`sent
      ensures sent == old(sent) + bytes
    {
      sent := sent + bytes;
    }
  }

  /** All n bytes whatever the segmentation, or what there was before end of file. */
  method RecvExact(sock: Socket, n: nat) returns (buf: seq<byte>)
    modifies sock`pending
    ensures n <= |old(sock.pending)| ==> buf == old(sock.pending)[..n] && sock.pending == old(sock.pending)[n..]
    ensures n > |old(sock.pending)| ==> buf == old(sock.pending) && sock.pending == []
  {
    buf := [];
    while |buf| < n
      invariant |buf| <= n && buf + sock.pending == old(sock.pending)
      decreases n - |buf|
    {
      var chunk := sock.Recv(n - |buf|);
      if chunk == [] {
        return;
      }
      Assoc(buf, chunk, sock.pending);
      buf := buf + chunk;
    }
  }

  datatype Ending = Closed | ShortRead | Overflow

  /** Where serve stops, and with what. */
  function EndingOf(ps: seq<Packet>, rest: seq<byte>, inc: int): Ending {
    if Answerable(ps, inc) < |ps| then Overflow
    else if |rest| < 4 then Closed
    else ShortRead
  }

  /** What the peer sends back for a byte stream. */
  function PeerOut(stream: seq<byte>, inc: int): seq<byte> {
    var ps := Parse(NO_CAP, stream).0;
    FrameAll(BumpAll(ps[..Answerable(ps, inc)], inc))
  }

  /** The packets answered so far and what they leave of the stream. */
  ghost predicate Serving(stream: seq<byte>, done: seq<Packet>, left: seq<byte>, inc: int) {
    && AllPack(done, inc)
    && Parse(NO_CAP, stream) == (done + Parse(NO_CAP, left).0, Parse(NO_CAP, left).1)
  }

  lemma ServedOne(stream: seq<byte>, done: seq<Packet>, left: seq<byte>, inc: int)
    requires Serving(stream, done, left, inc) && HasFrame(NO_CAP, left)
    requires Packs(FirstPacket(NO_CAP, left), inc)
    ensures var p := FirstPacket(NO_CAP, left);
      && Serving(stream, done + [p], AfterFrame(NO_CAP, left), inc)
      && FrameAll(BumpAll(done + [p], inc)) == FrameAll(BumpAll(done, inc)) + Frame(Bump(p, inc))
  {
    var p := FirstPacket(NO_CAP, left);
    Assoc(done, [p], Parse(NO_CAP, AfterFrame(NO_CAP, left)).0);
    assert BumpAll(done + [p], inc) == BumpAll(done, inc) + [Bump(p, inc)];
    FrameAllOne(BumpAll(done, inc), Bump(p, inc));
  }

  datatype Reading = Got(payload: Packet) | Stopped(ending: Ending)

  /** The reading half of a turn of serve. */
  method ReadFrame(conn: Socket) returns (r: Reading)
    modifies conn`pending
    ensures var left := old(conn.pending);
      if HasFrame(NO_CAP, left) then
        r == Got(FirstPacket(NO_CAP, left)) && conn.pending == AfterFrame(NO_CAP, left)
      else r == Stopped(if |left| < 4 then Closed else ShortRead)
  {
    ghost var left := conn.pending;
    var hdr := RecvExact(conn, 4);
    if |hdr| < 4 {
      return Stopped(Closed);
    }
    var length := DecodeBE32(hdr);
    var payload: seq<byte> := [];
    if length > 0 {
      payload := RecvExact(conn, length);
      if |payload| < length {
        return Stopped(ShortRead);
      }
    }
    FrameRead(left, payload, conn.pending);
    r := Got(payload);
  }

  /** The same bytes, but the last four, as a big-endian number, are larger by inc. */
  predicate IsAnswer(p: seq<byte>, q: seq<byte>, inc: int) {
    && |q| == |p| >= 4 && q[..|p| - 4] == p[..|p| - 4]
    && DecodeBE32(q[|p| - 4..]) == DecodeBE32(p[|p| - 4..]) + inc
  }

  /** The answering half; None where struct.pack raises. */
  method Answer(payload: Packet, inc: int) returns (answer: Option<Packet>)
    ensures |payload| < 4 ==> answer == Some(payload)
    ensures |payload| >= 4 && !(0 <= DecodeBE32(payload[|payload| - 4..]) + inc < 0x1_0000_0000) ==> answer == None
    ensures |payload| >= 4 && 0 <= DecodeBE32(payload[|payload| - 4..]) + inc < 0x1_0000_0000 ==>
      answer.Some? && IsAnswer(payload, answer.value, inc)
    ensures answer == if Packs(payload, inc) then Some(Bump(payload, inc)) else None
  {
    var length := |payload|;
    if length < 4 {
      return Some(payload);
    }
    var counter: int := DecodeBE32(payload[length - 4..]) + inc;
    if !(0 <= counter < 0x1_0000_0000) {
      return None;
    }
    BumpCounter(payload, inc);
    answer := Some(payload[..length - 4] + EncodeBE32(counter));
  }

  /**
   * serve over a whole connection, however it is segmented: every complete frame is answered in
   * turn by one of the same length with inc added to its counter, up to one that overflows.
   */
  method Serve(conn: Socket, inc: int) returns (ending: Ending)
    modifies conn
    ensures var (ps, rest) := Parse(NO_CAP, old(conn.pending));
      && conn.sent == old(conn.sent) + PeerOut(old(conn.pending), inc)
      && ending == EndingOf(ps, rest, inc)
    ensures var (ps, rest) := Parse(NO_CAP, old(conn.pending));
      ending == Overflow <==>
        exists n | 0 <= n < |ps| :: |ps[n]| >= 4 && !(0 <= DecodeBE32(ps[n][|ps[n]| - 4..]) + inc < 0x1_0000_0000)
  {
    ghost var stream, sent := conn.pending, conn.sent;
    ghost var done: seq<Packet> := [];
    assert [] + Parse(NO_CAP, stream).0 == Parse(NO_CAP, stream).0;
    while true
      invariant Serving(stream, done, conn.pending, inc)
      invariant conn.sent == sent + FrameAll(BumpAll(done, inc))
      decreases |conn.pending|
    {
      ghost var left := conn.pending;
      var read := ReadFrame(conn);
      if read.Stopped? {
        ServedAll(stream, done, left, inc);
        OverflowIff(done, left, inc);
        return read.ending;
      }
      var answer := Answer(read.payload, inc);
      if answer.None? {
        ServedUpTo(stream, done, left, inc);
        OverflowIff(Parse(NO_CAP, stream).0, Parse(NO_CAP, stream).1, inc);
        return Overflow;
      }
      conn.SendAll(EncodeBE32(|read.payload|) + answer.value);
      ServedOne(stream, done, left, inc);
      Assoc(sent, FrameAll(BumpAll(done, inc)), Frame(answer.value));
      done := done + [read.payload];
    }
  }

  /** The peer gives up exactly if some packet has a counter that leaves 32 bits. */
  lemma OverflowIff(ps: seq<Packet>, rest: seq<byte>, inc: int)
    ensures EndingOf(ps, rest, inc) == Overflow <==>
      exists n | 0 <= n < |ps| :: |ps[n]| >= 4 && !(0 <= DecodeBE32(ps[n][|ps[n]| - 4..]) + inc < 0x1_0000_0000)
  {
    var n := Answerable(ps, inc);
    forall k | 0 <= k < n
      ensures Packs(ps[k], inc)
    {
      assert ps[..n][k] == ps[k];
    }
  }

  /** Packets too short for a counter come back as they are, whatever the increment. */
  lemma ShortPacketsComeBack(ps: seq<Packet>, inc: int)
    requires forall i | 0 <= i < |ps| :: |ps[i]| < 4
    ensures PeerOut(FrameAll(ps), inc) == FrameAll(ps)
  {
    ParseFrameAll(NO_CAP, ps);
    AnswerableAll(ps, inc);
    assert BumpAll(ps, inc) == ps && ps[..|ps|] == ps;
  }

  /** Every packet is answered, in order, if no counter leaves 32 bits. */
  lemma EveryPacketIsAnswered(ps: seq<Packet>, inc: int) returns (qs: seq<Packet>)
    requires forall i | 0 <= i < |ps| && |ps[i]| >= 4 :: 0 <= DecodeBE32(ps[i][|ps[i]| - 4..]) + inc < 0x1_0000_0000
    ensures PeerOut(FrameAll(ps), inc) == FrameAll(qs) && |qs| == |ps|
    ensures forall i | 0 <= i < |ps| :: if |ps[i]| < 4 then qs[i] == ps[i] else IsAnswer(ps[i], qs[i], inc)
  {
    ParseFrameAll(NO_CAP, ps);
    AnswerableAll(ps, inc);
    assert ps[..|ps|] == ps;
    qs := BumpAll(ps, inc);
    forall i | 0 <= i < |ps|
      ensures if |ps[i]| < 4 then qs[i] == ps[i] else IsAnswer(ps[i], qs[i], inc)
    {
      if |ps[i]| >= 4 {
        BumpCounter(ps[i], inc);
      }
    }
  }

  lemma FrameRead(left: seq<byte>, payload: seq<byte>, after: seq<byte>)
    requires |left| >= 4 && |left| >= 4 + DecodeBE32(left[..4])
    requires payload == left[4..][..DecodeBE32(left[..4])] && after == left[4..][DecodeBE32(left[..4])..]
    ensures HasFrame(NO_CAP, left) && payload == FirstPacket(NO_CAP, left) && after == AfterFrame(NO_CAP, left)
  {
  }

  lemma ServedAll(stream: seq<byte>, done: seq<Packet>, left: seq<byte>, inc: int)
    requires Serving(stream, done, left, inc) && !HasFrame(NO_CAP, left)
    ensures Parse(NO_CAP, stream) == (done, left) && Answerable(done, inc) == |done| && done[..|done|] == done
  {
    assert done + [] == done;
    AnswerableAll(done, inc);
  }

  lemma ServedUpTo(stream: seq<byte>, done: seq<Packet>, left: seq<byte>, inc: int)
    requires Serving(stream, done, left, inc) && HasFrame(NO_CAP, left)
    requires !Packs(FirstPacket(NO_CAP, left), inc)
    ensures var ps := Parse(NO_CAP, stream).0;
      |done| < |ps| && Answerable(ps, inc) == |done| && ps[..|done|] == done
  {
    var ps := Parse(NO_CAP, stream).0;
    assert ps[..|done|] == done && ps[|done|] == FirstPacket(NO_CAP, left);
    AnswerableAt(ps, inc, |done|);
  }
}
