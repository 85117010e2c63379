/**
 * The tap's handlers at work together: each stretch of a handler between two suspension points is
 * one move of the transition system, so what holds of every run holds of the object.
 */
module TapSession {
  import opened Bytes
  import opened Lists
  import opened AsyncQueue
  import opened Framing
  import opened Tap
  import opened TapObject
  import TapFlow

  /** The writer registered for a side, given those of all connections ever made. */
  function Registrant(writers: seq<StreamWriter>, lane: Lane): StreamWriter? {
    if lane.writer.Some? && lane.writer.value < |writers| then writers[lane.writer.value] else null
  }

  function QueuesOf(subs: seq<Sub>): (r: seq<seq<Note>>)
    ensures |r| == |subs| && forall i | 0 <= i < |r| :: r[i] == subs[i].queue
  {
    seq(|subs|, i requires 0 <= i < |subs| => subs[i].queue)
  }

  lemma {:induction false} RunsSnoc(t: State, moves: seq<Move>, m: State, move: Move)
    requires Runs(t, moves, m) && Possible(m, move)
    ensures Runs(t, moves + [move], Do(m, move))
    decreases |moves|
  {
    if moves == [] {
      assert (moves + [move])[1..] == [];
      assert Runs(Do(t, move), [], Do(m, move));
    } else {
      assert (moves + [move])[1..] == moves[1..] + [move];
      RunsSnoc(Do(t, moves[0]), moves[1..], m, move);
    }
  }

  lemma PublishOffers(t: State, note: Note)
    ensures QueuesOf(Publish(t, note).subs) == OfferEach(QueuesOf(t.subs), note)
  {
  }

  /** What an Accept does to writers and queues. */
  predicate AcceptShows(t: State, side: Side, r: State) {
    var refused := LaneOf(t, side).writer.Some?;
    && |r.conns| == |t.conns| + 1 && r.conns[..|t.conns|] == t.conns
    && r.conns[|t.conns|].written == [] && r.conns[|t.conns|].closing == refused
    && LaneOf(r, Other(side)).writer == LaneOf(t, Other(side)).writer
    && LaneOf(r, side).writer == (if refused then LaneOf(t, side).writer else Some(|t.conns|))
    && QueuesOf(r.subs) == if refused then QueuesOf(t.subs) else OfferEach(QueuesOf(t.subs), Up(side))
  }

  lemma AcceptDoes(t: State, side: Side)
    ensures AcceptShows(t, side, Do(t, Tap.Accept(side)))
  {
    PublishOffers(t, Up(side));
  }

  lemma QueuesWithout(subs: seq<Sub>, n: nat)
    requires n < |subs|
    ensures QueuesOf(subs[..n] + subs[n + 1..]) == QueuesOf(subs)[..n] + QueuesOf(subs)[n + 1..]
  {
  }

  /** What a Forward does to writers and queues. */
  predicate ForwardShows(t: State, c: nat, r: State)
    requires Possible(t, Tap.Forward(c))
  {
    var side, p := t.conns[c].side, FirstPacket(MAX_PACKET, t.conns[c].inbox);
    var target := Target(t, side);
    && |r.conns| == |t.conns| && r.qemu.writer == t.qemu.writer && r.peer.writer == t.peer.writer
    && (forall k | 0 <= k < |r.conns| :: r.conns[k].closing == t.conns[k].closing)
    && (forall k | 0 <= k < |r.conns| ::
          r.conns[k].written == t.conns[k].written + if target == Some(k) then Frame(p) else [])
    && QueuesOf(r.subs) == if target.Some? then QueuesOf(t.subs) else OfferEach(QueuesOf(t.subs), PacketNote(side, p))
  }

  lemma ForwardDoes(t: State, c: nat)
    requires Possible(t, Tap.Forward(c))
    ensures ForwardShows(t, c, Do(t, Tap.Forward(c)))
    ensures Do(t, Tap.Forward(c)).conns[c].phase.Draining? == Target(t, t.conns[c].side).Some?
  {
    var side, p := t.conns[c].side, FirstPacket(MAX_PACKET, t.conns[c].inbox);
    if Target(t, side).None? {
      PublishOffers(Parsed(t, c), PacketNote(side, p));
    }
  }

  class Session {
    const tap: SpwTap
    ghost var writers: seq<StreamWriter>  // of all connections ever made
    ghost var model: State
    ghost var history: seq<Move>

    ghost predicate Written()
      reads this, writers
    {
      && |writers| == |model.conns|
      && (forall c, d | 0 <= c < d < |writers| :: writers[c] != writers[d])
      && (forall c | 0 <= c < |writers| ::
            writers[c].sent == model.conns[c].written && writers[c].closing == model.conns[c].closing)
    }

    /** The fields show what the model says. */
    ghost predicate Shown()
      reads this, tap, tap.subscribers, writers
    {
      && tap.Valid() && Written()
      && tap.qemuWriter == Registrant(writers, model.qemu) && tap.peerWriter == Registrant(writers, model.peer)
      && tap.Queues() == QueuesOf(model.subs)
    }

    ghost predicate Valid()
      reads this, tap, tap.subscribers, writers
    {
      Shown() && Lawful()
    }

    /** The object has come to where it is by moves of the transition system. */
    ghost predicate Lawful()
      reads this`model, this`history
    {
      Runs(IDLE, history, model) && Registered(model)
    }

    constructor ()
      ensures Valid() && model == IDLE
    {
      tap := new SpwTap();
      writers, model, history := [], IDLE, [];
    }

    ghost method Moved(move: Move)
      requires Lawful() && Possible(model, move)
      modifies this`model, this`history
      ensures Lawful() && model == Do(old(model), move)
    {
      RunsSnoc(IDLE, history, model, move);
      DoKeepsRegistered(model, move);
      history := history + [move];
      model := Do(model, move);
    }

    ghost predicate Leads(moves: seq<Move>, after: State) {
      Runs(IDLE, moves, after) && Registered(after)
    }

    /** A connection comes in: its handler runs to the pump, or is refused. */
    method Accept(side: Side, w: StreamWriter) returns (accepted: bool)
      requires Valid() && w !in writers && w.sent == [] && !w.closing
      modifies this, tap, w, tap.subscribers
      ensures Valid() && model == Do(old(model), Tap.Accept(side)) && writers == old(writers) + [w]
    {
      ghost var after := Do(model, Tap.Accept(side));
      AcceptDoes(model, side);
      RunsSnoc(IDLE, history, model, Tap.Accept(side));
      DoKeepsRegistered(model, Tap.Accept(side));
      accepted := AcceptTo(side, w, after, history + [Tap.Accept(side)]);
    }

    method AcceptTo(side: Side, w: StreamWriter, ghost after: State, ghost moves: seq<Move>) returns (accepted: bool)
      requires Shown() && w !in writers && w.sent == [] && !w.closing
      requires forall s: Side | LaneOf(model, s).writer.Some? :: LaneOf(model, s).writer.value < |writers|
      requires AcceptShows(model, side, after) && Leads(moves, after)
      modifies this, tap, w, tap.subscribers
      ensures Valid() && model == after && writers == old(writers) + [w]
    {
      accepted := tap.Connect(side, w);
      assert tap.Writer(side) == Registrant(writers + [w], LaneOf(after, side));
      assert tap.Writer(Other(side)) == Registrant(writers + [w], LaneOf(after, Other(side)));
      Enrol(w, after, moves);
    }

    ghost method Enrol(w: StreamWriter, after: State, moves: seq<Move>)
      requires Written() && w !in writers && Leads(moves, after)
      requires |after.conns| == |writers| + 1 && after.conns[..|writers|] == model.conns
      requires w.sent == after.conns[|writers|].written && w.closing == after.conns[|writers|].closing
      modifies this`writers, this`model, this`history
      ensures Written() && Lawful() && writers == old(writers) + [w] && model == after
    {
      forall c | 0 <= c < |writers|
        ensures after.conns[c] == model.conns[c]
      {
        assert after.conns[..|writers|][c] == model.conns[c];
      }
      writers := writers + [w];
      Adopt(after, moves);
    }

    /** The transport finds the connection lost. */
    method Lose(ghost c: nat, w: StreamWriter)
      requires Valid() && c < |writers| && writers[c] == w
      modifies this`model, this`history, w`closing
      ensures Valid() && model == Do(old(model), Tap.Lose(c))
    {
      w.Close();
      Moved(Tap.Lose(c));
    }

    /** Bytes arrive. */
    ghost method Arrive(c: nat, bytes: seq<byte>)
      requires Valid() && c < |writers|
      modifies this`model, this`history
      ensures Valid() && model == Do(old(model), Tap.Arrive(c, bytes))
    {
      Moved(Tap.Arrive(c, bytes));
    }

    /** The pump has a whole frame: it is sent on, and published unless the pump now waits for drain. */
    method Forward(ghost c: nat, side: Side, hdr: seq<byte>, payload: Packet) returns (draining: bool)
      requires Valid() && Possible(model, Tap.Forward(c)) && model.conns[c].side == side
      requires hdr == model.conns[c].inbox[..4] && payload == FirstPacket(MAX_PACKET, model.conns[c].inbox)
      modifies this`model, this`history, tap.subscribers, tap.Writer(Other(side))
      ensures Valid() && model == Do(old(model), Tap.Forward(c))
      ensures draining == model.conns[c].phase.Draining?
    {
      ghost var after := Do(model, Tap.Forward(c));
      HeaderKept(model.conns[c].inbox);
      ForwardDoes(model, c);
      RunsSnoc(IDLE, history, model, Tap.Forward(c));
      DoKeepsRegistered(model, Tap.Forward(c));
      draining := ForwardTo(c, side, hdr, payload, after, history + [Tap.Forward(c)]);
    }

    method ForwardTo(ghost c: nat, side: Side, hdr: seq<byte>, payload: Packet, ghost after: State, ghost moves: seq<Move>)
      returns (draining: bool)
      requires Shown() && Possible(model, Tap.Forward(c)) && model.conns[c].side == side
      requires hdr + payload == Frame(payload) && payload == FirstPacket(MAX_PACKET, model.conns[c].inbox)
      requires ForwardShows(model, c, after) && Leads(moves, after)
      modifies this`model, this`history, tap.subscribers, tap.Writer(Other(side))
      ensures Valid() && model == after && draining == old(Target(model, side)).Some?
    {
      ghost var target := Target(model, side);
      draining := SendOrPublish(target, side, hdr, payload);
      forall k | 0 <= k < |writers|
        ensures writers[k].sent == after.conns[k].written && writers[k].closing == after.conns[k].closing
      {
        assert old(writers[k].sent) == model.conns[k].written;
      }
      Adopt(after, moves);
    }

    ghost method Adopt(after: State, moves: seq<Move>)
      requires |writers| == |after.conns| && (forall c, d | 0 <= c < d < |writers| :: writers[c] != writers[d])
      requires forall c | 0 <= c < |writers| ::
        writers[c].sent == after.conns[c].written && writers[c].closing == after.conns[c].closing
      requires Leads(moves, after)
      modifies this`model, this`history
      ensures Written() && Lawful() && model == after
    {
      model, history := after, moves;
    }

    method SendOrPublish(ghost target: Option<nat>, side: Side, hdr: seq<byte>, payload: Packet) returns (draining: bool)
      requires Shown() && target == Target(model, side)
      modifies tap.subscribers, tap.Writer(Other(side))
      ensures tap.Valid() && draining == target.Some?
      ensures tap.Queues() == if draining then old(tap.Queues()) else OfferEach(old(tap.Queues()), PacketNote(side, payload))
      ensures forall c | 0 <= c < |writers| ::
        writers[c].closing == old(writers[c].closing) &&
        writers[c].sent == old(writers[c].sent) + if target == Some(c) then hdr + payload else []
    {
      draining := tap.Send(side, hdr, payload);
      if !draining {
        tap.Broadcast(PacketNote(side, payload));
      }
    }

    /** The pump goes on after drain. */
    method Drained(ghost c: nat, side: Side, payload: Packet)
      requires Valid() && Possible(model, Tap.Drained(c)) && model.conns[c].side == side
      requires payload == model.conns[c].phase.packet
      modifies this`model, this`history, tap.subscribers
      ensures Valid() && model == Do(old(model), Tap.Drained(c))
    {
      tap.Broadcast(PacketNote(side, payload));
      Moved(Tap.Drained(c));
    }

    /** The pump has ended: the handler's cleanup up to wait_closed. */
    method Leave(ghost c: nat, side: Side, w: StreamWriter)
      requires Valid() && Possible(model, Tap.Leave(c)) && model.conns[c].side == side && writers[c] == w
      modifies this`model, this`history, tap, w`closing
      ensures Valid() && model == Do(old(model), Tap.Leave(c))
    {
      tap.Leave(side, w);
      Moved(Tap.Leave(c));
    }

    /** The rest of the cleanup. */
    method Closed(ghost c: nat, side: Side)
      requires Valid() && Possible(model, Tap.Closed(c)) && model.conns[c].side == side
      modifies this`model, this`history, tap.subscribers
      ensures Valid() && model == Do(old(model), Tap.Closed(c))
    {
      tap.Broadcast(Down(side));
      Moved(Tap.Closed(c));
    }

    method Subscribe() returns (q: Queue<Note>)
      requires Valid()
      modifies this`model, this`history, tap`subscribers
      ensures Valid() && model == Do(old(model), Tap.Subscribe) && fresh(q)
    {
      q := tap.Subscribe();
      Moved(Tap.Subscribe);
    }

    method Unsubscribe(q: Queue<Note>) returns (ghost n: nat)
      requires Valid()
      modifies this`model, this`history, tap`subscribers
      ensures Valid() && (n < |old(tap.subscribers)| <==> q in old(tap.subscribers))
      ensures model == if n < |old(tap.subscribers)| then Do(old(model), Tap.Unsubscribe(n)) else old(model)
    {
      assert |tap.Queues()| == |tap.subscribers|;
      n := tap.Unsubscribe(q);
      if n < |old(tap.subscribers)| {
        QueuesWithout(model.subs, n);
        Moved(Tap.Unsubscribe(n));
      }
    }

    /** A WebSocket takes the next message from its queue. */
    method Consume(ghost i: nat, q: Queue<Note>) returns (note: Note)
      requires Valid() && i < |tap.subscribers| && tap.subscribers[i] == q && q.items != []
      modifies this`model, this`history, q`items
      ensures Valid() && model == Do(old(model), Tap.Consume(i))
      ensures old(q.items) == [note] + q.items && old(model).subs[i].queue == [note] + model.subs[i].queue
    {
      ghost var queues := tap.Queues();
      assert queues[i] == q.items;
      note := q.Get();
      Moved(Tap.Consume(i));
      assert tap.Queues() == queues[i := q.items];
    }
  }

  /** What the object has sent to a connection is whole frames of a gapless block of the opposite side's packets. */
  lemma SentIsGapless(s: Session, c: nat)
    requires s.Valid() && c < |s.writers|
    ensures c < |s.model.conns|
    ensures var conn, opposite := s.model.conns[c], LaneOf(s.model, Other(s.model.conns[c].side)).parsed;
      && conn.lo <= conn.hi <= |opposite|
      && s.writers[c].sent == FrameAll(opposite[conn.lo..conn.hi])
      && (Active(conn) && !s.writers[c].closing ==> conn.hi == |opposite|)
  {
    TapFlow.BytesThroughTheTap(s.history, s.model, c);
  }
}
