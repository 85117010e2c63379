/** The tap's own code, handler by handler, over the streams that asyncio gives it. */
module TapObject {
  import opened Bytes
  import opened Lists
  import opened AsyncQueue
  import opened Framing
  import opened Tap

  /** The reading end of a connection: what has arrived, and what will still arrive before end of file. */
  class StreamReader {
    var buffer: seq<byte>
    var coming: seq<byte>

    ghost function Stream(): seq<byte>
      reads this
    {
      buffer + coming
    }

    constructor (bytes: seq<byte>)
      ensures Stream() == bytes
    {
      buffer := [];
      coming := bytes;
    }

    /** Bytes arrive in segments of any size; None is the IncompleteReadError at end of file. */
    method ReadExactly(n: nat) returns (r: Option<seq<byte>>)
      modifies this
      ensures n <= |old(Stream())| ==> r == Some(old(Stream())[..n]) && Stream() == old(Stream())[n..]
      ensures n > |old(Stream())| ==> r == None && Stream() == []
    {
      while |buffer| < n
        invariant Stream() == old(Stream())
        decreases |coming|
      {
        if coming == [] {
          buffer := [];
          return None;
        }
        var k :| 1 <= k <= |coming|;
        assert buffer + coming == (buffer + coming[..k]) + coming[k..];
        buffer, coming := buffer + coming[..k], coming[k..];
      }
      assert (buffer + coming)[..n] == buffer[..n] && (buffer + coming)[n..] == buffer[n..] + coming;
      r := Some(buffer[..n]);
      buffer := buffer[n..];
    }

    /** The reading half of a turn of the pump: header, length check, payload. */
    method ReadFrame() returns (r: Option<(seq<byte>, Packet)>)
      modifies this
      ensures var s := old(Stream());
        if HasFrame(MAX_PACKET, s) then
          r == Some((s[..4], FirstPacket(MAX_PACKET, s))) && Stream() == AfterFrame(MAX_PACKET, s)
        else r == None
    {
      var hdr := ReadExactly(4);
      if hdr.None? {
        return None;
      }
      var length := DecodeBE32(hdr.value);
      if length > MAX_PACKET {
        return None;
      }
      var payload := ReadExactly(length);
      if payload.None? {
        return None;
      }
      ghost var s := old(Stream());
      assert s[4..][..length] == s[4..4 + length] && s[4..][length..] == s[4 + length..];
      r := Some((hdr.value, payload.value));
    }
  }

  class StreamWriter {
    var sent: seq<byte>
    var closing: bool

    constructor ()
      ensures sent == [] && !closing
    {
      sent := [];
      closing := false;
    }

    method Write(bytes: seq<byte>)
      modifies this`sent
      ensures sent == old(sent) + bytes
    {
      sent := sent + bytes;
    }

    method Close()
      modifies this`closing
      ensures closing
    {
      closing := true;
    }
  }

  /** Every subscriber's queue after one publication, dropped where it met a full queue. */
  function OfferEach(queues: seq<seq<Note>>, note: Note): (r: seq<seq<Note>>)
    ensures |r| == |queues| && forall i | 0 <= i < |r| :: r[i] == Offer(QUEUE_SIZE, queues[i], note)
  {
    seq(|queues|, i requires 0 <= i < |queues| => Offer(QUEUE_SIZE, queues[i], note))
  }

  /** The queues after the packets of one direction have been published in turn. */
  function AfterPackets(queues: seq<seq<Note>>, side: Side, ps: seq<Packet>): (r: seq<seq<Note>>)
    ensures |r| == |queues|
    decreases |ps|
  {
    if ps == [] then queues
    else OfferEach(AfterPackets(queues, side, ps[..|ps| - 1]), PacketNote(side, Last(ps)))
  }

  lemma OnePacketMore(queues: seq<seq<Note>>, side: Side, ps: seq<Packet>, p: Packet)
    ensures AfterPackets(queues, side, ps + [p]) == OfferEach(AfterPackets(queues, side, ps), PacketNote(side, p))
  {
    assert (ps + [p])[..|ps|] == ps;
  }

  function PacketNotes(side: Side, ps: seq<Packet>): (r: seq<Note>)
    ensures |r| == |ps| && forall i | 0 <= i < |r| :: r[i] == PacketNote(side, ps[i])
  {
    seq(|ps|, i requires 0 <= i < |ps| => PacketNote(side, ps[i]))
  }

  /** A queue with room for everything gets everything, in order. */
  lemma {:induction false} RoomForAll(queues: seq<seq<Note>>, side: Side, ps: seq<Packet>, i: nat)
    requires i < |queues| && |queues[i]| + |ps| <= QUEUE_SIZE
    ensures AfterPackets(queues, side, ps)[i] == queues[i] + PacketNotes(side, ps)
    decreases |ps|
  {
    if ps != [] {
      var init := ps[..|ps| - 1];
      RoomForAll(queues, side, init, i);
      assert PacketNotes(side, ps) == PacketNotes(side, init) + [PacketNote(side, Last(ps))];
    }
  }

  /** What a tap sends on to an open target out of a byte stream. */
  function TapOut(stream: seq<byte>): seq<byte> {
    FrameAll(Parse(MAX_PACKET, stream).0)
  }

  class SpwTap {
    var qemuWriter: StreamWriter?
    var peerWriter: StreamWriter?
    var subscribers: seq<Queue<Note>>

    ghost predicate Valid()
      reads this
    {
      && (forall i | 0 <= i < |subscribers| :: subscribers[i].maxsize == QUEUE_SIZE)
      && (forall i, j | 0 <= i < j < |subscribers| :: subscribers[i] != subscribers[j])
    }

    ghost function Queues(): seq<seq<Note>>
      reads this, subscribers
    {
      seq(|subscribers|, i requires 0 <= i < |subscribers| reads this, subscribers => subscribers[i].items)
    }

    constructor ()
      ensures Valid() && qemuWriter == null && peerWriter == null && subscribers == []
    {
      qemuWriter, peerWriter := null, null;
      subscribers := [];
    }

    function Writer(side: Side): StreamWriter?
      reads this
    {
      if side == Qemu then qemuWriter else peerWriter
    }

    method SetWriter(side: Side, w: StreamWriter?)
      modifies this`qemuWriter, this`peerWriter
      ensures Writer(side) == w && Writer(Other(side)) == old(Writer(Other(side)))
    {
      if side == Qemu {
        qemuWriter := w;
      } else {
        peerWriter := w;
      }
    }

    method Broadcast(note: Note)
      requires Valid()
      modifies subscribers
      ensures Queues() == OfferEach(old(Queues()), note)
    {
      var n := 0;
      while n < |subscribers|
        invariant n <= |subscribers|
        invariant forall i | 0 <= i < |subscribers| ::
                    var was := old(subscribers[i].items);
                    subscribers[i].items == if i < n then Offer(QUEUE_SIZE, was, note) else was
      {
        var _ := subscribers[n].PutNowait(note);
        n := n + 1;
      }
    }

    method Subscribe() returns (q: Queue<Note>)
      requires Valid()
      modifies this`subscribers
      ensures Valid() && fresh(q) && subscribers == old(subscribers) + [q]
      ensures Queues() == old(Queues()) + [[]]
    {
      q := new Queue(QUEUE_SIZE);
      subscribers := subscribers + [q];
    }

    method Unsubscribe(q: Queue<Note>) returns (ghost n: nat)
      requires Valid()
      modifies this`subscribers
      ensures Valid() && n <= |old(subscribers)|
      ensures q !in old(subscribers)[..n] && (n < |old(subscribers)| ==> old(subscribers)[n] == q)
      ensures Queues() ==
        if n == |old(subscribers)| then old(Queues()) else old(Queues())[..n] + old(Queues())[n + 1..]
    {
      var k := 0;
      while k < |subscribers| && subscribers[k] != q
        invariant k <= |subscribers| && q !in subscribers[..k]
      {
        k := k + 1;
      }
      n := k;
      if k < |subscribers| {
        ghost var queues := Queues();
        subscribers := subscribers[..k] + subscribers[k + 1..];
        assert Queues() == queues[..k] + queues[k + 1..];
      }
    }

    /** A handler from its start to the pump: a second connection of the same side is closed at once. */
    method Connect(side: Side, w: StreamWriter) returns (accepted: bool)
      requires Valid()
      modifies this`qemuWriter, this`peerWriter, w`closing, subscribers
      ensures Valid() && accepted == (old(Writer(side)) == null)
      ensures Writer(Other(side)) == old(Writer(Other(side)))
      ensures Writer(side) == if accepted then w else old(Writer(side))
      ensures w.closing == if accepted then old(w.closing) else true
      ensures Queues() == if accepted then OfferEach(old(Queues()), Up(side)) else old(Queues())
    {
      if Writer(side) != null {
        w.Close();
        return false;
      }
      SetWriter(side, w);
      Broadcast(Up(side));
      accepted := true;
    }

    /** The cleanup of a handler up to wait_closed. */
    method Leave(side: Side, w: StreamWriter)
      requires Valid()
      modifies this`qemuWriter, this`peerWriter, w`closing
      ensures Valid() && Writer(side) == null && w.closing
      ensures Writer(Other(side)) == old(Writer(Other(side)))
    {
      SetWriter(side, null);
      w.Close();
    }

    /** Packets from `side` go somewhere: the other side is connected and open. */
    predicate Open(side: Side)
      reads this, Writer(Other(side))
    {
      var w := Writer(Other(side));
      w != null && !w.closing
    }

    ghost function Sent(side: Side): seq<byte>
      reads this, Writer(Other(side))
    {
      var w := Writer(Other(side));
      if w == null then [] else w.sent
    }

    /** The frame goes to an open target; answers whether there was one, in which case the pump waits for drain. */
    method Send(side: Side, hdr: seq<byte>, payload: Packet) returns (draining: bool)
      modifies Writer(Other(side))
      ensures draining == old(Open(side)) == Open(side)
      ensures Sent(side) == old(Sent(side)) + if draining then hdr + payload else []
    {
      var target := Writer(Other(side));
      draining := target != null && !target.closing;
      if draining {
        target.Write(hdr + payload);
      }
    }

    /** The forwarding half of a turn of the pump. */
    method Relay(side: Side, hdr: seq<byte>, payload: Packet)
      requires Valid()
      modifies subscribers, Writer(Other(side))
      ensures Queues() == OfferEach(old(Queues()), PacketNote(side, payload))
      ensures Open(side) == old(Open(side))
      ensures Sent(side) == old(Sent(side)) + if Open(side) then hdr + payload else []
    {
      var _ := Send(side, hdr, payload);
      Broadcast(PacketNote(side, payload));
    }

    ghost function Standing(ps: seq<Packet>, reader: StreamReader, side: Side): Progress
      reads this, subscribers, reader, Writer(Other(side))
    {
      Progress(ps, reader.Stream(), Queues(), Sent(side), Open(side))
    }

    /** One turn of the pump; None ends it. */
    method Turn(reader: StreamReader, side: Side, ghost ps: seq<Packet>) returns (payload: Option<Packet>)
      requires Valid()
      modifies reader, subscribers, Writer(Other(side))
      ensures var was := old(Standing(ps, reader, side));
        if HasFrame(MAX_PACKET, was.stream) then
          payload == Some(FirstPacket(MAX_PACKET, was.stream)) && Standing(ps + [payload.value], reader, side) == Next(was, side)
        else payload.None? && Queues() == was.queues && Sent(side) == was.sent && Open(side) == was.open
    {
      ghost var stream := reader.Stream();
      var frame := reader.ReadFrame();
      if frame.None? {
        return None;
      }
      var (hdr, packet) := frame.value;
      Relay(side, hdr, packet);
      HeaderKept(stream);
      payload := Some(packet);
    }

    /**
     * The pump over one whole connection with nothing else going on: however the stream is cut
     * into segments, exactly the longest run of legal frames at its front is published, packet by
     * packet, and sent on byte for byte to the other side if that is open.
     */
    method Pump(reader: StreamReader, side: Side) returns (ps: seq<Packet>)
      requires Valid()
      modifies reader, subscribers, Writer(Other(side))
      ensures ps == Parse(MAX_PACKET, old(reader.Stream())).0
      ensures Queues() == AfterPackets(old(Queues()), side, ps)
      ensures Open(side) == old(Open(side))
      ensures Sent(side) == old(Sent(side)) + if Open(side) then TapOut(old(reader.Stream())) else []
    {
      ps := [];
      ghost var start := Standing([], reader, side);
      StartOfPump(start, side);
      while true
        invariant Pumped(start, Standing(ps, reader, side), side)
        decreases |reader.Stream()|
      {
        ghost var before := Standing(ps, reader, side);
        var payload := Turn(reader, side, ps);
        if payload.None? {
          assert ps + [] == ps;
          return;
        }
        TurnOfPump(start, before, side);
        ps := ps + [payload.value];
      }
    }
  }

  /** Where a pump stands: the packets so far, the stream ahead, the queues and the bytes sent on. */
  datatype Progress = Progress(
    ps: seq<Packet>, stream: seq<byte>, queues: seq<seq<Note>>, sent: seq<byte>, open: bool)

  function Next(now: Progress, side: Side): Progress
    requires HasFrame(MAX_PACKET, now.stream)
  {
    var p := FirstPacket(MAX_PACKET, now.stream);
    Progress(now.ps + [p], AfterFrame(MAX_PACKET, now.stream), OfferEach(now.queues, PacketNote(side, p)),
             now.sent + if now.open then Frame(p) else [], now.open)
  }

  ghost predicate Pumped(start: Progress, now: Progress, side: Side) {
    && Parse(MAX_PACKET, start.stream).0 == now.ps + Parse(MAX_PACKET, now.stream).0
    && now.queues == AfterPackets(start.queues, side, now.ps)
    && now.open == start.open
    && now.sent == start.sent + if now.open then FrameAll(now.ps) else []
  }

  lemma StartOfPump(start: Progress, side: Side)
    requires start.ps == []
    ensures Pumped(start, start, side)
  {
    assert [] + Parse(MAX_PACKET, start.stream).0 == Parse(MAX_PACKET, start.stream).0;
  }

  lemma TurnOfPump(start: Progress, now: Progress, side: Side)
    requires Pumped(start, now, side) && HasFrame(MAX_PACKET, now.stream)
    ensures Pumped(start, Next(now, side), side)
  {
    var p := FirstPacket(MAX_PACKET, now.stream);
    FrameAllOne(now.ps, p);
    Assoc(start.sent, FrameAll(now.ps), Frame(p));
    OnePacketMore(start.queues, side, now.ps, p);
    Assoc(now.ps, [p], Parse(MAX_PACKET, AfterFrame(MAX_PACKET, now.stream)).0);
  }

  /** The four header bytes read are the ones that framing the packet again would write. */
  lemma HeaderKept(stream: seq<byte>)
    requires HasFrame(MAX_PACKET, stream)
    ensures stream[..4] + FirstPacket(MAX_PACKET, stream) == Frame(FirstPacket(MAX_PACKET, stream))
  {
    EncodeDecodeBE32(stream[..4]);
  }
}
