/** What flows through a tap: bytes in, bytes out, and what subscribers get to see of it. */
module TapFlow {
  import opened Bytes
  import opened Lists
  import opened Framing
  import opened Tap

  // ---- bytes in -------------------------------------------------------------------------

  /**
   * All that ever arrived on a connection is the frames parsed from it, then what is unread; and
   * those packets are one block of the side's history, ending at its end while the pump runs.
   */
  predicate Sourced(conn: Conn, parsed: seq<Packet>) {
    && Fits(MAX_PACKET, conn.took)
    && conn.received == FrameAll(conn.took) + conn.inbox
    && conn.first + |conn.took| <= |parsed|
    && conn.took == parsed[conn.first..conn.first + |conn.took|]
    && (Active(conn) ==> conn.first + |conn.took| == |parsed|)
  }

  predicate AllSourced(t: State) {
    forall c | 0 <= c < |t.conns| :: Sourced(t.conns[c], LaneOf(t, t.conns[c].side).parsed)
  }

  lemma ForwardSources(conn: Conn, parsed: seq<Packet>)
    requires Sourced(conn, parsed) && Active(conn) && HasFrame(MAX_PACKET, conn.inbox)
    ensures var p := FirstPacket(MAX_PACKET, conn.inbox);
      Sourced(conn.(inbox := AfterFrame(MAX_PACKET, conn.inbox), took := conn.took + [p]), parsed + [p])
  {
    var p := FirstPacket(MAX_PACKET, conn.inbox);
    FrameOfFirst(MAX_PACKET, conn.inbox);
    FrameAllOne(conn.took, p);
    Assoc(FrameAll(conn.took), Frame(p), AfterFrame(MAX_PACKET, conn.inbox));
  }

  lemma OthersStaySourced(conn: Conn, parsed: seq<Packet>, p: Packet)
    requires Sourced(conn, parsed) && !Active(conn)
    ensures Sourced(conn, parsed + [p])
  {
    assert (parsed + [p])[conn.first..conn.first + |conn.took|] == parsed[conn.first..conn.first + |conn.took|];
  }

  /** `written`, `hi`, `closing` and a move between the two pump phases do not concern Sourced. */
  predicate SameSource(a: Conn, b: Conn) {
    && a.side == b.side && a.took == b.took && a.received == b.received && a.inbox == b.inbox
    && a.first == b.first && (Active(b) ==> Active(a))
  }

  lemma SameSourceStays(a: Conn, b: Conn, parsed: seq<Packet>)
    requires Sourced(a, parsed) && SameSource(a, b)
    ensures Sourced(b, parsed)
  {
  }

  lemma ForwardedSameSource(t: State, c: nat, k: nat)
    requires Registered(t) && Possible(t, Forward(c)) && k < |t.conns|
    ensures SameSource(Parsed(t, c).conns[k], Do(t, Forward(c)).conns[k])
  {
  }

  lemma ForwardKeepsOneSourced(t: State, c: nat, k: nat)
    requires Registered(t) && AllSourced(t) && Possible(t, Forward(c)) && k < |t.conns|
    ensures Sourced(Parsed(t, c).conns[k], LaneOf(Parsed(t, c), t.conns[k].side).parsed)
  {
    var side := t.conns[c].side;
    if k == c {
      ForwardSources(t.conns[c], LaneOf(t, side).parsed);
    } else if t.conns[k].side == side {
      OthersStaySourced(t.conns[k], LaneOf(t, side).parsed, FirstPacket(MAX_PACKET, t.conns[c].inbox));
    }
  }

  lemma ForwardKeepsSourced(t: State, c: nat)
    requires Registered(t) && AllSourced(t) && Possible(t, Forward(c))
    ensures AllSourced(Do(t, Forward(c)))
  {
    var r, n := Do(t, Forward(c)), Parsed(t, c);
    assert r.qemu == n.qemu && r.peer == n.peer && |r.conns| == |t.conns|;
    forall k | 0 <= k < |r.conns|
      ensures Sourced(r.conns[k], LaneOf(r, r.conns[k].side).parsed)
    {
      ForwardKeepsOneSourced(t, c, k);
      ForwardedSameSource(t, c, k);
      SameSourceStays(n.conns[k], r.conns[k], LaneOf(n, t.conns[k].side).parsed);
    }
  }

  lemma ArriveKeepsSourced(t: State, c: nat, bytes: seq<byte>)
    requires AllSourced(t) && c < |t.conns|
    ensures AllSourced(Do(t, Arrive(c, bytes)))
  {
    Assoc(FrameAll(t.conns[c].took), t.conns[c].inbox, bytes);
  }

  lemma OtherMovesSameSource(t: State, move: Move)
    requires Possible(t, move) && !move.Forward? && !move.Arrive? && !move.Accept?
    ensures var r := Do(t, move);
      && |r.conns| == |t.conns| && r.qemu.parsed == t.qemu.parsed && r.peer.parsed == t.peer.parsed
      && forall k | 0 <= k < |t.conns| :: SameSource(t.conns[k], r.conns[k])
  {
  }

  lemma AcceptKeepsSourced(t: State, side: Side)
    requires AllSourced(t)
    ensures AllSourced(Do(t, Accept(side)))
  {
    var r := Do(t, Accept(side));
    assert forall k | 0 <= k < |t.conns| :: r.conns[k] == t.conns[k];
    assert r.conns[|t.conns|].took == [];
  }

  lemma DoKeepsSourced(t: State, move: Move)
    requires Registered(t) && AllSourced(t) && Possible(t, move)
    ensures AllSourced(Do(t, move))
  {
    if move.Forward? {
      ForwardKeepsSourced(t, move.c);
    } else if move.Arrive? {
      ArriveKeepsSourced(t, move.c, move.bytes);
    } else if move.Accept? {
      AcceptKeepsSourced(t, move.side);
    } else {
      OtherMovesSameSource(t, move);
      SameSourcesKeepAll(t, Do(t, move));
    }
  }

  lemma SameSourcesKeepAll(t: State, r: State)
    requires AllSourced(t) && |r.conns| == |t.conns|
    requires r.qemu.parsed == t.qemu.parsed && r.peer.parsed == t.peer.parsed
    requires forall k | 0 <= k < |t.conns| :: SameSource(t.conns[k], r.conns[k])
    ensures AllSourced(r)
  {
    forall k | 0 <= k < |r.conns|
      ensures Sourced(r.conns[k], LaneOf(r, r.conns[k].side).parsed)
    {
      SameSourceStays(t.conns[k], r.conns[k], LaneOf(t, t.conns[k].side).parsed);
    }
  }

  // ---- bytes out ------------------------------------------------------------------------

  /**
   * What was written to a connection is whole frames: those of one block of the opposite side's
   * packets, which reaches up to the present while the connection is registered and open.
   */
  predicate Fed(conn: Conn, registered: bool, opposite: seq<Packet>) {
    && conn.lo <= conn.hi <= |opposite|
    && conn.written == FrameAll(opposite[conn.lo..conn.hi])
    && (registered && !conn.closing ==> conn.hi == |opposite|)
  }

  predicate IsRegistered(t: State, c: nat) {
    c < |t.conns| && LaneOf(t, t.conns[c].side).writer == Some(c)
  }

  predicate AllFed(t: State) {
    forall c | 0 <= c < |t.conns| :: Fed(t.conns[c], IsRegistered(t, c), LaneOf(t, Other(t.conns[c].side)).parsed)
  }

  lemma FeedOne(conn: Conn, opposite: seq<Packet>, p: Packet)
    requires Fed(conn, true, opposite) && !conn.closing
    ensures Fed(conn.(written := conn.written + Frame(p), hi := conn.hi + 1), true, opposite + [p])
  {
    var block := opposite[conn.lo..conn.hi];
    FrameAllOne(block, p);
    assert (opposite + [p])[conn.lo..conn.hi + 1] == block + [p];
  }

  lemma FeedNone(conn: Conn, registered: bool, opposite: seq<Packet>, p: Packet)
    requires Fed(conn, registered, opposite) && (conn.closing || !registered)
    ensures Fed(conn, registered, opposite + [p])
  {
    assert (opposite + [p])[conn.lo..conn.hi] == opposite[conn.lo..conn.hi];
  }

  /** The effect of a Forward on the output side: p is parsed from `side` and written to its target only. */
  predicate Fanned(t: State, r: State, side: Side, p: Packet) {
    && LaneOf(r, side) == LaneOf(t, side).(parsed := LaneOf(t, side).parsed + [p])
    && LaneOf(r, Other(side)) == LaneOf(t, Other(side))
    && |r.conns| == |t.conns|
    && forall k | 0 <= k < |t.conns| :: FannedConn(t.conns[k], r.conns[k], Target(t, side) == Some(k), p)
  }

  predicate FannedConn(a: Conn, b: Conn, target: bool, p: Packet) {
    && b.side == a.side && b.closing == a.closing && b.lo == a.lo
    && b.hi == a.hi + (if target then 1 else 0)
    && b.written == if target then a.written + Frame(p) else a.written
  }

  lemma ForwardFans(t: State, c: nat)
    requires Registered(t) && Possible(t, Forward(c))
    ensures Fanned(t, Do(t, Forward(c)), t.conns[c].side, FirstPacket(MAX_PACKET, t.conns[c].inbox))
  {
  }

  lemma FannedKeepsFed(t: State, r: State, side: Side, p: Packet)
    requires Registered(t) && AllFed(t) && Fanned(t, r, side, p)
    ensures AllFed(r)
  {
    forall k | 0 <= k < |r.conns|
      ensures Fed(r.conns[k], IsRegistered(r, k), LaneOf(r, Other(r.conns[k].side)).parsed)
    {
      assert FannedConn(t.conns[k], r.conns[k], Target(t, side) == Some(k), p);
      if t.conns[k].side != side {
        if Target(t, side) == Some(k) {
          FeedOne(t.conns[k], LaneOf(t, side).parsed, p);
        } else {
          FeedNone(t.conns[k], IsRegistered(t, k), LaneOf(t, side).parsed, p);
        }
      }
    }
  }

  lemma AcceptKeepsFed(t: State, side: Side)
    requires Registered(t) && AllFed(t)
    ensures AllFed(Do(t, Accept(side)))
  {
    var r := Do(t, Accept(side));
    var opposite := LaneOf(t, Other(side)).parsed;
    assert opposite[|opposite|..|opposite|] == [];
    forall k | 0 <= k < |t.conns|
      ensures Fed(r.conns[k], IsRegistered(r, k), LaneOf(r, Other(r.conns[k].side)).parsed)
    {
      assert IsRegistered(r, k) ==> IsRegistered(t, k);
    }
  }

  /** No packet is parsed or written, and no closed or unregistered connection comes back. */
  predicate Idles(t: State, r: State) {
    && |r.conns| == |t.conns| && r.qemu.parsed == t.qemu.parsed && r.peer.parsed == t.peer.parsed
    && forall k | 0 <= k < |t.conns| ::
         && FannedConn(t.conns[k], r.conns[k].(closing := t.conns[k].closing), false, [])
         && (t.conns[k].closing ==> r.conns[k].closing)
         && (IsRegistered(r, k) ==> IsRegistered(t, k))
  }

  lemma OtherMovesIdle(t: State, move: Move)
    requires Possible(t, move) && !move.Forward? && !move.Accept?
    ensures Idles(t, Do(t, move))
  {
  }

  lemma IdleKeepsFed(t: State, r: State)
    requires AllFed(t) && Idles(t, r)
    ensures AllFed(r)
  {
    forall k | 0 <= k < |r.conns|
      ensures Fed(r.conns[k], IsRegistered(r, k), LaneOf(r, Other(r.conns[k].side)).parsed)
    {
      assert Fed(t.conns[k], IsRegistered(t, k), LaneOf(t, Other(t.conns[k].side)).parsed);
    }
  }

  lemma DoKeepsFed(t: State, move: Move)
    requires Registered(t) && AllFed(t) && Possible(t, move)
    ensures AllFed(Do(t, move))
  {
    if move.Forward? {
      ForwardFans(t, move.c);
      FannedKeepsFed(t, Do(t, move), t.conns[move.c].side, FirstPacket(MAX_PACKET, t.conns[move.c].inbox));
    } else if move.Accept? {
      AcceptKeepsFed(t, move.side);
    } else {
      OtherMovesIdle(t, move);
      IdleKeepsFed(t, Do(t, move));
    }
  }

  // ---- subscribers ----------------------------------------------------------------------

  predicate Queued(sub: Sub) {
    |sub.queue| <= QUEUE_SIZE && |sub.queue| <= |sub.seen| && sub.queue == sub.seen[|sub.seen| - |sub.queue|..]
  }

  predicate Informed(sub: Sub, log: seq<Note>) {
    && Queued(sub)
    && sub.joined + |sub.seen| + sub.missed == |log|
    && Subsequence(sub.seen, log[sub.joined..])
  }

  predicate AllInformed(t: State) {
    forall i | 0 <= i < |t.subs| :: Informed(t.subs[i], t.log)
  }

  lemma LogTail(log: seq<Note>, joined: nat, note: Note)
    requires joined <= |log|
    ensures (log + [note])[joined..] == log[joined..] + [note]
  {
  }

  lemma ToldStaysQueued(sub: Sub, note: Note)
    requires Queued(sub)
    ensures Queued(Told(sub, note))
  {
    SuffixAppend(sub.queue, sub.seen, note);
  }

  lemma ToldStaysInformed(sub: Sub, log: seq<Note>, note: Note)
    requires Informed(sub, log)
    ensures Informed(Told(sub, note), log + [note])
  {
    ToldStaysQueued(sub, note);
    LogTail(log, sub.joined, note);
    SubsequenceAppend(sub.seen, log[sub.joined..], note);
  }

  lemma PublishKeepsInformed(t: State, note: Note)
    requires AllInformed(t)
    ensures AllInformed(Publish(t, note))
  {
    forall i | 0 <= i < |t.subs|
      ensures Informed(Publish(t, note).subs[i], t.log + [note])
    {
      ToldStaysInformed(t.subs[i], t.log, note);
    }
  }

  lemma DoKeepsInformed(t: State, move: Move)
    requires AllInformed(t) && Possible(t, move)
    ensures AllInformed(Do(t, move))
  {
    match move
    case Accept(side) => PublishKeepsInformed(t, Up(side));
    case Forward(c) => PublishKeepsInformed(t, PacketNote(t.conns[c].side, FirstPacket(MAX_PACKET, t.conns[c].inbox)));
    case Drained(c) => PublishKeepsInformed(t, PacketNote(t.conns[c].side, t.conns[c].phase.packet));
    case Closed(c) => PublishKeepsInformed(t, Down(t.conns[c].side));
    case _ =>
  }

  // ---- every run ------------------------------------------------------------------------

  predicate Inv(t: State) {
    && Registered(t) && AllSourced(t) && AllFed(t) && AllInformed(t)
    && (forall side: Side :: Balanced(t, side) && InOrder(t, side))
  }

  lemma DoKeepsInv(t: State, move: Move)
    requires Inv(t) && Possible(t, move)
    ensures Inv(Do(t, move))
  {
    DoKeepsRegistered(t, move);
    DoKeepsSourced(t, move);
    DoKeepsFed(t, move);
    DoKeepsInformed(t, move);
    forall side: Side
      ensures Balanced(Do(t, move), side) && InOrder(Do(t, move), side)
    {
      DoKeepsBalanced(t, move, side);
      DoKeepsInOrder(t, move, side);
    }
  }

  lemma {:induction false} RunsKeepInv(t: State, moves: seq<Move>, r: State)
    requires Inv(t) && Runs(t, moves, r)
    ensures Inv(r)
    decreases |moves|
  {
    if moves != [] {
      DoKeepsInv(t, moves[0]);
      RunsKeepInv(Do(t, moves[0]), moves[1..], r);
    }
  }

  /** At most one pump per side, and the cleanup of a handler only ever removes its own writer. */
  lemma OnePumpPerSide(moves: seq<Move>, t: State, c: nat, d: nat)
    requires Runs(IDLE, moves, t) && c < |t.conns| && d < |t.conns|
    requires Active(t.conns[c]) && t.conns[c].side == t.conns[d].side
    ensures Active(t.conns[d]) ==> c == d
    ensures LaneOf(t, t.conns[c].side).writer == Some(c)
    ensures Possible(t, Leave(c)) ==>
      LaneOf(Do(t, Leave(c)), t.conns[c].side).writer.None? &&
      LaneOf(Do(t, Leave(c)), Other(t.conns[c].side)) == LaneOf(t, Other(t.conns[c].side))
  {
    RunsKeepInv(IDLE, moves, t);
  }

  lemma NotesBalance(moves: seq<Move>, t: State, side: Side)
    requires Runs(IDLE, moves, t)
    ensures Count(t.log, IsUp(side)) - Count(t.log, IsDown(side)) == Count(t.conns, IsLive(side))
  {
    RunsKeepInv(IDLE, moves, t);
    assert Balanced(t, side);
  }

  /** What is published for a direction is what was parsed, in order, all but at most the last packet. */
  lemma PublishedLagsByAtMostOne(moves: seq<Move>, t: State, side: Side)
    requires Runs(IDLE, moves, t)
    ensures PacketsFrom(t.log, side) <= LaneOf(t, side).parsed
    ensures |LaneOf(t, side).parsed| <= |PacketsFrom(t.log, side)| + 1
    ensures LaneOf(t, side).writer.None? ==> PacketsFrom(t.log, side) == LaneOf(t, side).parsed
  {
    RunsKeepInv(IDLE, moves, t);
    assert InOrder(t, side);
  }

  /**
   * Bytes through the tap: a connection's arrivals parse to a block of its side's packets, and
   * what it was sent is, byte for byte, the frames of a block of the opposite side's packets that
   * has no gap, whatever came and went on either side meanwhile.
   */
  lemma BytesThroughTheTap(moves: seq<Move>, t: State, c: nat)
    requires Runs(IDLE, moves, t) && c < |t.conns|
    ensures var conn := t.conns[c];
      && conn.took <= Parse(MAX_PACKET, conn.received).0
      && conn.first + |conn.took| <= |LaneOf(t, conn.side).parsed|
      && conn.took == LaneOf(t, conn.side).parsed[conn.first..conn.first + |conn.took|]
    ensures var conn, opposite := t.conns[c], LaneOf(t, Other(t.conns[c].side)).parsed;
      && conn.lo <= conn.hi <= |opposite|
      && conn.written == FrameAll(opposite[conn.lo..conn.hi])
      && (Active(conn) && !conn.closing ==> conn.hi == |opposite|)
  {
    RunsKeepInv(IDLE, moves, t);
    var conn := t.conns[c];
    ParseIsLongest(MAX_PACKET, conn.received, conn.took, conn.inbox);
  }

  /** A subscriber misses a message only when its queue holds 1024, and then misses just that one. */
  lemma MissedOnlyWhenFull(t: State, move: Move, i: nat)
    requires Possible(t, move) && !move.Unsubscribe? && i < |t.subs|
    ensures i < |Do(t, move).subs|
    ensures var a, b := t.subs[i], Do(t, move).subs[i];
      && (b.missed != a.missed ==> |a.queue| >= 1024 && b.missed == a.missed + 1 && b.seen == a.seen)
      && (b.missed == a.missed ==> b.seen == a.seen + Do(t, move).log[|t.log|..])
  {
  }

  /** A subscriber's queue is bounded, it sees a subsequence, and it sees everything unless it was full. */
  lemma SubscribersSeeInOrder(moves: seq<Move>, t: State, i: nat)
    requires Runs(IDLE, moves, t) && i < |t.subs|
    ensures var sub := t.subs[i];
      && |sub.queue| <= 1024 && sub.joined <= |t.log|
      && Subsequence(sub.seen, t.log[sub.joined..])
      && (sub.missed == 0 ==> sub.seen == t.log[sub.joined..])
      && |sub.queue| <= |sub.seen| && sub.queue == sub.seen[|sub.seen| - |sub.queue|..]
  {
    RunsKeepInv(IDLE, moves, t);
    var sub := t.subs[i];
    SubsequenceLength(sub.seen, t.log[sub.joined..]);
  }
}
