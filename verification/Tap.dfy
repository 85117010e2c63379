/**
 * One SpaceWire tap as a transition system: connections come and go on both sides, one handler
 * per connection pumps frames to the other side, and every packet and every change of connection
 * state is published to bounded subscriber queues. A step is the code between two suspensions.
 */
module Tap {
  import opened Bytes
  import opened Lists
  import opened AsyncQueue
  import opened Framing

  datatype Side = Qemu | Peer

  function Other(side: Side): Side {
    if side == Qemu then Peer else Qemu
  }

  /** A published message; the direction of a packet is the side that sent it. */
  datatype Note = PacketNote(from: Side, packet: Packet) | Up(side: Side) | Down(side: Side)

  const QUEUE_SIZE: nat := 1024

  /** A subscriber: its queue, and as history what it was ever given and how much it missed. */
  datatype Sub = Sub(queue: seq<Note>, seen: seq<Note>, joined: nat, missed: nat)

  /** Where a handler is: in the pump, waiting for drain, in its cleanup, or through. */
  datatype Phase = Pumping | Draining(packet: Packet) | Closing | Done | Refused

  /**
   * A connection and its handler. `received`, `took`, `first`, `lo` and `hi` are history: the
   * bytes that arrived, the packets parsed from them and where those start among all packets of
   * the side, and the range of the other side's packets that was written to this connection.
   */
  datatype Conn = Conn(
    side: Side, phase: Phase, closing: bool, inbox: seq<byte>, written: seq<byte>,
    received: seq<byte>, took: seq<Packet>, first: nat, lo: nat, hi: nat)

  /** The registered writer of a side and all packets ever parsed from that side. */
  datatype Lane = Lane(writer: Option<nat>, parsed: seq<Packet>)

  datatype State = State(conns: seq<Conn>, qemu: Lane, peer: Lane, log: seq<Note>, subs: seq<Sub>)

  const IDLE := State([], Lane(None, []), Lane(None, []), [], [])

  function LaneOf(t: State, side: Side): Lane {
    if side == Qemu then t.qemu else t.peer
  }

  function WithLane(t: State, side: Side, lane: Lane): (r: State)
    ensures LaneOf(r, side) == lane && LaneOf(r, Other(side)) == LaneOf(t, Other(side))
    ensures r.conns == t.conns && r.log == t.log && r.subs == t.subs
  {
    if side == Qemu then t.(qemu := lane) else t.(peer := lane)
  }

  function WithConn(t: State, c: nat, conn: Conn): State
    requires c < |t.conns|
  {
    t.(conns := t.conns[c := conn])
  }

  function Told(sub: Sub, note: Note): Sub {
    if |sub.queue| < QUEUE_SIZE then
      sub.(queue := Offer(QUEUE_SIZE, sub.queue, note), seen := sub.seen + [note])
    else
      sub.(queue := Offer(QUEUE_SIZE, sub.queue, note), missed := sub.missed + 1)
  }

  function Publish(t: State, note: Note): (r: State)
    ensures r.conns == t.conns && r.qemu == t.qemu && r.peer == t.peer
  {
    t.(log := t.log + [note],
       subs := seq(|t.subs|, i requires 0 <= i < |t.subs| => Told(t.subs[i], note)))
  }

  datatype Move =
    | Accept(side: Side)
    | Arrive(c: nat, bytes: seq<byte>)
    | Lose(c: nat)
    | Forward(c: nat)
    | Drained(c: nat)
    | Leave(c: nat)
    | Closed(c: nat)
    | Subscribe
    | Unsubscribe(i: nat)
    | Consume(i: nat)

  predicate Active(conn: Conn) {
    conn.phase.Pumping? || conn.phase.Draining?
  }

  predicate Possible(t: State, move: Move) {
    match move
    case Accept(_) => true
    case Arrive(c, _) => c < |t.conns|
    case Lose(c) => c < |t.conns|
    case Forward(c) => c < |t.conns| && t.conns[c].phase.Pumping? && HasFrame(MAX_PACKET, t.conns[c].inbox)
    case Drained(c) => c < |t.conns| && t.conns[c].phase.Draining?
    case Leave(c) => c < |t.conns| && t.conns[c].phase.Pumping?
    case Closed(c) => c < |t.conns| && t.conns[c].phase.Closing?
    case Subscribe => true
    case Unsubscribe(i) => i < |t.subs|
    case Consume(i) => i < |t.subs| && t.subs[i].queue != []
  }

  /** The connection on the other side that the next packet of `side` will be written to. */
  function Target(t: State, side: Side): Option<nat> {
    match LaneOf(t, Other(side)).writer
    case None => None
    case Some(d) => if d < |t.conns| && !t.conns[d].closing then Some(d) else None
  }

  function Accepted(t: State, side: Side): State {
    var lane := LaneOf(t, side);
    var n, m := |lane.parsed|, |LaneOf(t, Other(side)).parsed|;
    if lane.writer.Some? then
      t.(conns := t.conns + [Conn(side, Refused, true, [], [], [], [], n, m, m)])
    else
      var conn := Conn(side, Pumping, false, [], [], [], [], n, m, m);
      Publish(WithLane(t.(conns := t.conns + [conn]), side, lane.(writer := Some(|t.conns|))), Up(side))
  }

  /** The first packet of c's stream is parsed: off the stream and on to the history of its side. */
  function Parsed(t: State, c: nat): State
    requires Possible(t, Forward(c))
  {
    var conn := t.conns[c];
    var p := FirstPacket(MAX_PACKET, conn.inbox);
    var lane := LaneOf(t, conn.side);
    WithConn(WithLane(t, conn.side, lane.(parsed := lane.parsed + [p])), c,
             conn.(inbox := AfterFrame(MAX_PACKET, conn.inbox), took := conn.took + [p]))
  }

  function Forwarded(t: State, c: nat): State
    requires Possible(t, Forward(c))
  {
    var side := t.conns[c].side;
    var p := FirstPacket(MAX_PACKET, t.conns[c].inbox);
    var n := Parsed(t, c);
    match Target(t, side)
    case None => Publish(n, PacketNote(side, p))
    case Some(d) =>
      var w := n.conns[d];
      var n' := WithConn(n, d, w.(written := w.written + Frame(p), hi := w.hi + 1));
      WithConn(n', c, n'.conns[c].(phase := Draining(p)))
  }

  function Do(t: State, move: Move): (r: State)
    requires Possible(t, move)
  {
    match move
    case Accept(side) => Accepted(t, side)
    case Arrive(c, bytes) =>
      var conn := t.conns[c];
      WithConn(t, c, conn.(inbox := conn.inbox + bytes, received := conn.received + bytes))
    case Lose(c) => WithConn(t, c, t.conns[c].(closing := true))
    case Forward(c) => Forwarded(t, c)
    case Drained(c) =>
      var conn := t.conns[c];
      Publish(WithConn(t, c, conn.(phase := Pumping)), PacketNote(conn.side, conn.phase.packet))
    case Leave(c) =>
      var conn := t.conns[c];
      WithConn(WithLane(t, conn.side, LaneOf(t, conn.side).(writer := None)), c,
               conn.(phase := Closing, closing := true))
    case Closed(c) => Publish(WithConn(t, c, t.conns[c].(phase := Done)), Down(t.conns[c].side))
    case Subscribe => t.(subs := t.subs + [Sub([], [], |t.log|, 0)])
    case Unsubscribe(i) => t.(subs := t.subs[..i] + t.subs[i + 1..])
    case Consume(i) => t.(subs := t.subs[i := t.subs[i].(queue := t.subs[i].queue[1..])])
  }

  ghost predicate Runs(t: State, moves: seq<Move>, r: State)
    decreases |moves|
  {
    if moves == [] then t == r
    else Possible(t, moves[0]) && Runs(Do(t, moves[0]), moves[1..], r)
  }

  // ---- mutual exclusion -----------------------------------------------------------------

  /** The registered writers are exactly the connections whose handler is in the pump. */
  predicate Registered(t: State) {
    && WriterInPump(t, Qemu) && WriterInPump(t, Peer)
    && (forall c | 0 <= c < |t.conns| && Active(t.conns[c]) :: LaneOf(t, t.conns[c].side).writer == Some(c))
  }

  predicate WriterInPump(t: State, side: Side) {
    var writer := LaneOf(t, side).writer;
    writer.Some? ==>
      writer.value < |t.conns| && t.conns[writer.value].side == side && Active(t.conns[writer.value])
  }

  /** Neither the writers nor who is in a pump differ. */
  predicate SameFooting(t: State, r: State) {
    && r.qemu.writer == t.qemu.writer && r.peer.writer == t.peer.writer && |r.conns| == |t.conns|
    && forall c | 0 <= c < |t.conns| :: r.conns[c].side == t.conns[c].side && Active(r.conns[c]) == Active(t.conns[c])
  }

  lemma FootingKeepsRegistered(t: State, r: State)
    requires Registered(t) && SameFooting(t, r)
    ensures Registered(r)
  {
  }

  lemma ForwardFooting(t: State, c: nat)
    requires Possible(t, Forward(c))
    ensures SameFooting(t, Do(t, Forward(c)))
  {
  }

  lemma AcceptKeepsRegistered(t: State, side: Side)
    requires Registered(t)
    ensures Registered(Do(t, Accept(side)))
  {
  }

  lemma LeaveKeepsRegistered(t: State, c: nat)
    requires Registered(t) && Possible(t, Leave(c))
    ensures LaneOf(t, t.conns[c].side).writer == Some(c)
    ensures Registered(Do(t, Leave(c)))
  {
  }

  lemma DoKeepsRegistered(t: State, move: Move)
    requires Registered(t) && Possible(t, move)
    ensures Registered(Do(t, move))
  {
    match move
    case Accept(side) => AcceptKeepsRegistered(t, side);
    case Leave(c) => LeaveKeepsRegistered(t, c);
    case Forward(c) => ForwardFooting(t, c);
      FootingKeepsRegistered(t, Do(t, move));
    case _ => FootingKeepsRegistered(t, Do(t, move));
  }

  // ---- connect and disconnect notes -----------------------------------------------------

  function IsUp(side: Side): Note -> bool {
    (note: Note) => note == Up(side)
  }

  function IsDown(side: Side): Note -> bool {
    (note: Note) => note == Down(side)
  }

  /** A handler of this side between its two notes. */
  function IsLive(side: Side): Conn -> bool {
    (conn: Conn) => conn.side == side && (Active(conn) || conn.phase.Closing?)
  }

  predicate Balanced(t: State, side: Side) {
    Count(t.log, IsUp(side)) == Count(t.log, IsDown(side)) + Count(t.conns, IsLive(side))
  }

  lemma PublishCounts(t: State, note: Note, side: Side)
    ensures var r := Publish(t, note);
      && Count(r.log, IsUp(side)) == Count(t.log, IsUp(side)) + (if note == Up(side) then 1 else 0)
      && Count(r.log, IsDown(side)) == Count(t.log, IsDown(side)) + (if note == Down(side) then 1 else 0)
  {
    CountAppend(t.log, note, IsUp(side));
    CountAppend(t.log, note, IsDown(side));
  }

  lemma ForwardKeepsBalanced(t: State, c: nat, side: Side)
    requires Registered(t) && Balanced(t, side) && Possible(t, Forward(c))
    ensures Balanced(Do(t, Forward(c)), side)
  {
    var r := Do(t, Forward(c));
    CountSame(t.conns, r.conns, IsLive(side));
    if Target(t, t.conns[c].side).None? {
      PublishCounts(t, PacketNote(t.conns[c].side, FirstPacket(MAX_PACKET, t.conns[c].inbox)), side);
    }
  }

  lemma HandlerKeepsBalanced(t: State, move: Move, side: Side)
    requires Balanced(t, side) && Possible(t, move)
    requires move.Arrive? || move.Lose? || move.Drained? || move.Leave? || move.Closed?
    ensures Balanced(Do(t, move), side)
  {
    var r := Do(t, move);
    CountUpdate(t.conns, move.c, r.conns[move.c], IsLive(side));
    match move
    case Drained(c) => PublishCounts(t, PacketNote(t.conns[c].side, t.conns[c].phase.packet), side);
    case Closed(c) => PublishCounts(t, Down(t.conns[c].side), side);
    case _ =>
  }

  lemma AcceptKeepsBalanced(t: State, entrance: Side, side: Side)
    requires Balanced(t, side)
    ensures Balanced(Do(t, Accept(entrance)), side)
  {
    var r := Do(t, Accept(entrance));
    CountAppend(t.conns, r.conns[|t.conns|], IsLive(side));
    if LaneOf(t, entrance).writer.None? {
      PublishCounts(t, Up(entrance), side);
      assert r.log == Publish(t, Up(entrance)).log;
    }
  }

  /** Connected notes less disconnected notes is the number of handlers still at work. */
  lemma DoKeepsBalanced(t: State, move: Move, side: Side)
    requires Registered(t) && Balanced(t, side) && Possible(t, move)
    ensures Balanced(Do(t, move), side)
  {
    match move
    case Accept(entrance) => AcceptKeepsBalanced(t, entrance, side);
    case Forward(c) => ForwardKeepsBalanced(t, c, side);
    case Subscribe =>
    case Unsubscribe(_) =>
    case Consume(_) =>
    case _ => HandlerKeepsBalanced(t, move, side);
  }

  // ---- published packets ----------------------------------------------------------------

  function PacketsFrom(log: seq<Note>, side: Side): seq<Packet> {
    if log == [] then []
    else PacketsFrom(log[..|log| - 1], side) +
         if Last(log).PacketNote? && Last(log).from == side then [Last(log).packet] else []
  }

  lemma PublishPackets(t: State, note: Note, side: Side)
    ensures PacketsFrom(Publish(t, note).log, side) ==
            PacketsFrom(t.log, side) + if note.PacketNote? && note.from == side then [note.packet] else []
  {
    assert (t.log + [note])[..|t.log|] == t.log;
  }

  /** The packet that has been written but not yet published, if there is one. */
  function InFlight(t: State, side: Side): (r: seq<Packet>)
    ensures |r| <= 1
  {
    match LaneOf(t, side).writer
    case None => []
    case Some(c) => if c < |t.conns| && t.conns[c].phase.Draining? then [t.conns[c].phase.packet] else []
  }

  /** Published packets are the parsed ones in order, at most the last one short. */
  predicate InOrder(t: State, side: Side) {
    PacketsFrom(t.log, side) + InFlight(t, side) == LaneOf(t, side).parsed
  }

  lemma ForwardKeepsOwnOrder(t: State, c: nat)
    requires Possible(t, Forward(c)) && Registered(t) && InOrder(t, t.conns[c].side)
    ensures InOrder(Do(t, Forward(c)), t.conns[c].side)
  {
    var side := t.conns[c].side;
    var p := FirstPacket(MAX_PACKET, t.conns[c].inbox);
    assert LaneOf(t, side).writer == Some(c) && InFlight(t, side) == [];
    if Target(t, side).None? {
      PublishPackets(Parsed(t, c), PacketNote(side, p), side);
    }
    assert LaneOf(Do(t, Forward(c)), side).parsed == LaneOf(t, side).parsed + [p];
  }

  lemma ForwardKeepsOtherOrder(t: State, c: nat)
    requires Possible(t, Forward(c)) && Registered(t) && InOrder(t, Other(t.conns[c].side))
    ensures InOrder(Do(t, Forward(c)), Other(t.conns[c].side))
  {
    var side := Other(t.conns[c].side);
    if Target(t, t.conns[c].side).None? {
      PublishPackets(Parsed(t, c), PacketNote(t.conns[c].side, FirstPacket(MAX_PACKET, t.conns[c].inbox)), side);
    }
    var r := Do(t, Forward(c));
    assert LaneOf(r, side) == LaneOf(t, side);
    assert InFlight(r, side) == InFlight(t, side);
  }

  lemma DrainedKeepsInOrder(t: State, c: nat, side: Side)
    requires Registered(t) && InOrder(t, side) && Possible(t, Drained(c))
    ensures InOrder(Do(t, Drained(c)), side)
  {
    var from := t.conns[c].side;
    PublishPackets(t, PacketNote(from, t.conns[c].phase.packet), side);
    if side != from {
      assert InFlight(Do(t, Drained(c)), side) == InFlight(t, side);
    }
  }

  lemma CleanupKeepsInOrder(t: State, move: Move, side: Side)
    requires Registered(t) && InOrder(t, side) && Possible(t, move)
    requires move.Arrive? || move.Lose? || move.Leave? || move.Closed?
    ensures InOrder(Do(t, move), side)
  {
    if move.Closed? {
      PublishPackets(t, Down(t.conns[move.c].side), side);
    }
    assert InFlight(Do(t, move), side) == InFlight(t, side);
  }

  lemma DoKeepsInOrder(t: State, move: Move, side: Side)
    requires Registered(t) && InOrder(t, side) && Possible(t, move)
    ensures InOrder(Do(t, move), side)
  {
    match move
    case Accept(s) => PublishPackets(t, Up(s), side);
    case Forward(c) =>
      if side == t.conns[c].side {
        ForwardKeepsOwnOrder(t, c);
      } else {
        ForwardKeepsOtherOrder(t, c);
      }
    case Drained(c) => DrainedKeepsInOrder(t, c, side);
    case Subscribe =>
    case Unsubscribe(_) =>
    case Consume(_) =>
    case _ => CleanupKeepsInOrder(t, move, side);
  }
}
