/**
 * The adapter's own objects. Each method is the code between two suspension points and is proved
 * to make exactly one move of the transition system.
 */
module SessionObject {
  import opened Lists
  import opened AsyncQueue
  import opened Qmp
  import opened Server
  import Session

  // ---- QMPClient ------------------------------------------------------------------------

  function Marked(events: seq<Event>): (r: seq<Option<Event>>)
    ensures |r| == |events| && forall i | 0 <= i < |r| :: r[i] == Some(events[i])
  {
    seq(|events|, i requires 0 <= i < |events| => Some(events[i]))
  }

  class QmpClient {
    const eventQueue: Queue<Option<Event>>
    const responseQueue: Queue<Reply>

    constructor ()
      ensures fresh(eventQueue) && fresh(responseQueue)
      ensures eventQueue.maxsize == 0 && responseQueue.maxsize == 0
      ensures eventQueue.items == [] && responseQueue.items == []
    {
      eventQueue := new Queue(0);
      responseQueue := new Queue(0);
    }

    /** The reader loop over all that QEMU writes before it hangs up. */
    method ReadLoop(wire: seq<Line>)
      requires eventQueue.maxsize == 0 && responseQueue.maxsize == 0
      modifies eventQueue, responseQueue
      ensures eventQueue.items == old(eventQueue.items) + Marked(EventsIn(wire)) + [None]
      ensures responseQueue.items == old(responseQueue.items) + RepliesIn(wire) + [DISCONNECTED]
    {
      var n := 0;
      assert wire[..0] == [];
      while n < |wire|
        invariant n <= |wire|
        invariant eventQueue.items == old(eventQueue.items) + Marked(EventsIn(wire[..n]))
        invariant responseQueue.items == old(responseQueue.items) + RepliesIn(wire[..n])
      {
        LinesAppend(wire[..n], wire[n]);
        assert wire[..n + 1] == wire[..n] + [wire[n]];
        match wire[n] {
          case EventLine(event) => var _ := eventQueue.PutNowait(Some(event));
          case ReplyLine(reply) => var _ := responseQueue.PutNowait(reply);
        }
        n := n + 1;
      }
      assert wire[..n] == wire;
      var _ := eventQueue.PutNowait(None);
      var _ := responseQueue.PutNowait(DISCONNECTED);
    }
  }

  /** The transition system's reader, left to run to end of file, leaves the same queues. */
  lemma {:induction false} ReadingToTheEnd(l: Link) returns (steps: seq<Step>, r: Link)
    requires l.reading && !l.open
    ensures LinkRuns(l, steps, r) && !r.reading
    ensures r.events == l.events + Marked(EventsIn(l.inbox)) + [None]
    ensures r.responses == l.responses + RepliesIn(l.inbox) + [DISCONNECTED]
    decreases |l.inbox|
  {
    var step := if l.inbox != [] then ReadLine else ReadEof;
    var n := Advance(l, step);
    if l.inbox == [] {
      steps, r := [], n;
    } else {
      steps, r := ReadingToTheEnd(n);
      match l.inbox[0]
      case EventLine(e) =>
        assert Marked(EventsIn(l.inbox)) == [Some(e)] + Marked(EventsIn(n.inbox));
        Assoc(l.events, [Some(e)], Marked(EventsIn(n.inbox)));
      case ReplyLine(reply) =>
        Assoc(l.responses, [reply], RepliesIn(n.inbox));
    }
    assert ([step] + steps)[1..] == steps;
    steps := [step] + steps;
  }

  // ---- QEMUSession ----------------------------------------------------------------------

  class QemuSession {
    var status: Status
    var started: bool
    var exitCode: Option<ExitCode>
    var eventSubscribers: seq<Queue<Message>>
    ghost var sys: Session.Sys

    ghost predicate Queued()
      reads this
    {
      && (forall i | 0 <= i < |eventSubscribers| :: eventSubscribers[i].maxsize == 0)
      && (forall i, j | 0 <= i < j < |eventSubscribers| :: eventSubscribers[i] != eventSubscribers[j])
    }

    /** The object is the server of a system in which every page is on course. */
    ghost predicate Valid()
      reads this, eventSubscribers
    {
      Queued() && View() == sys.server && Invariant(sys)
    }

    /** The observable state of the transition system. */
    ghost function View(): State
      reads this, eventSubscribers
    {
      State(status, started, exitCode,
            seq(|eventSubscribers|, i requires 0 <= i < |eventSubscribers| reads this, eventSubscribers =>
                  eventSubscribers[i].items))
    }

    constructor ()
      ensures Valid() && sys == Session.INITIAL
    {
      status := Created;
      started := false;
      exitCode := None;
      eventSubscribers := [];
      sys := Session.INITIAL;
    }

    /** The reader, QEMU, the lock or a page makes a move; the session's own fields are as before. */
    ghost method Elsewhere(move: Session.Move)
      requires Valid() && Session.Possible(sys, move) && Session.Do(sys, move).server == sys.server
      modifies this`sys
      ensures Valid() && sys == Session.Do(old(sys), move)
    {
      DoKeepsInvariant(sys, move);
      sys := Session.Do(sys, move);
    }

    method Broadcast(m: Message)
      requires Queued()
      modifies eventSubscribers
      ensures Queued()
      ensures View() == old(View()).(queues := Server.Broadcast(old(View().queues), m))
    {
      var n := 0;
      while n < |eventSubscribers|
        invariant n <= |eventSubscribers|
        invariant forall i | 0 <= i < |eventSubscribers| ::
          eventSubscribers[i].items == old(eventSubscribers[i].items) + if i < n then [m] else []
      {
        var _ := eventSubscribers[n].PutNowait(m);
        n := n + 1;
      }
    }

    /** The first segment of every request handler: None is the refusal. */
    method Begin(kind: Kind) returns (verb: Option<Verb>)
      requires Valid() && Session.Possible(sys, Session.Request(kind))
      modifies this`sys
      ensures Valid() && sys == Session.Do(old(sys), Session.Request(kind))
      ensures verb == WaitsFor(Last(sys.tasks))
      ensures kind == Start ==> verb == if old(status) == Created then Some(Cont) else None
      ensures kind == Pause ==> verb == if old(status) == Running then Some(Stop) else None
      ensures kind == Resume ==> verb == if old(status) == Paused then Some(Cont) else None
      ensures kind == Reset ==> verb == if old(status) != Created then Some(SystemReset) else None
      ensures kind.Query? ==> verb == if old(status) != Created then Some(HumanMonitor(kind.line)) else None
    {
      match kind {
        case Start => verb := if status != Created then None else Some(Cont);
        case Pause => verb := if status != Running then None else Some(Stop);
        case Resume => verb := if status != Paused then None else Some(Cont);
        case Reset => verb := if status == Created then None else Some(SystemReset);
        case Query(line) => verb := if status == Created then None else Some(HumanMonitor(line));
      }
      Elsewhere(Session.Request(kind));
    }

    method FinishStart()
      requires Queued()
      modifies this`status, this`started, eventSubscribers
      ensures Queued() && View() == Commit(old(View()), Start)
    {
      status := Running;
      started := true;
      Broadcast(StatusMsg(status));
    }

    method FinishPause()
      requires Queued()
      modifies this`status, eventSubscribers
      ensures Queued() && View() == Commit(old(View()), Pause)
    {
      status := Paused;
      Broadcast(StatusMsg(status));
    }

    method FinishResume()
      requires Queued()
      modifies this`status, eventSubscribers
      ensures Queued() && View() == Commit(old(View()), Resume)
    {
      status := Running;
      Broadcast(StatusMsg(status));
    }

    /** The reply to `sent` has come; answers the further command that reset still wants. */
    method FinishReset(sent: Verb) returns (more: Option<Verb>)
      requires Queued()
      modifies this`status, eventSubscribers
      ensures Queued()
      ensures more == if NeedsCont(old(View()), Reset, sent) then Some(Cont) else None
      ensures View() == if more.Some? then old(View()) else Commit(old(View()), Reset)
    {
      more := None;
      if sent == SystemReset && status == Exited {
        more := Some(Cont);
        return;
      }
      status := Running;
      Broadcast(StatusMsg(status));
    }

    /** What follows the reply to a handler's command; answers the command it sends next. */
    method Conclude(kind: Kind, sent: Verb, reply: Reply) returns (more: Option<Verb>)
      requires Queued()
      modifies this`status, this`started, eventSubscribers
      ensures Queued()
      ensures more == if reply.Return? && NeedsCont(old(View()), kind, sent) then Some(Cont) else None
      ensures View() == if reply.Failure? || more.Some? then old(View()) else Commit(old(View()), kind)
    {
      more := None;
      if reply.Failure? {
        return;
      }
      match kind {
        case Start => FinishStart();
        case Pause => FinishPause();
        case Resume => FinishResume();
        case Reset => more := FinishReset(sent);
        case Query(_) =>
      }
    }

    /**
     * A handler when execute() returns to it, or raises: whatever the request and the reply, the
     * session makes the transition system's move.
     */
    method Finish(ghost t: nat, kind: Kind, sent: Verb, reply: Reply) returns (more: Option<Verb>)
      requires Valid() && Session.Possible(sys, Session.Finish(t))
      requires sys.tasks[t] == Session.Task(kind, Session.Sent(sent)) && sys.link.responses[0] == reply
      modifies this, eventSubscribers
      ensures Valid() && sys == Session.Do(old(sys), Session.Finish(t))
      ensures more == WaitsFor(sys.tasks[t])
    {
      DoKeepsInvariant(sys, Session.Finish(t));
      ghost var after := Session.Do(sys, Session.Finish(t));
      more := Conclude(kind, sent, reply);
      sys := after;
    }

    method HandleEvent(event: Event)
      requires Queued()
      modifies this`status, eventSubscribers
      ensures Queued() && View() == OnEvent(old(View()), event)
    {
      match event {
        case STOP =>
          status := Paused;
          Broadcast(StatusMsg(status));
        case RESUME =>
          if status != Running {
            status := Running;
            Broadcast(StatusMsg(status));
          }
        case _ =>
      }
    }

    /** One event out of the pump's queue. */
    method PumpEvent(event: Event)
      requires Valid() && Session.Possible(sys, Session.Pump) && sys.link.events[0] == Some(event)
      modifies this`sys, this`status, eventSubscribers
      ensures Valid() && sys == Session.Do(old(sys), Session.Pump)
    {
      DoKeepsInvariant(sys, Session.Pump);
      ghost var after := Session.Do(sys, Session.Pump);
      HandleEvent(event);
      sys := after;
    }

    method RecordExit(rc: int)
      requires Queued()
      modifies this`status, this`exitCode, eventSubscribers
      ensures Queued() && View() == OnExit(old(View()), rc)
    {
      if status == Exited {
        return;
      }
      if rc == 0 {
        exitCode := Some(Code(0));
        status := Exited;
        Broadcast(ExitMsg(0));
      } else {
        exitCode := Some(Fatal);
        status := Exited;
        Broadcast(FatalMsg);
      }
    }

    /** The exit watcher, when the process has gone. */
    method WatchExit(rc: int)
      requires Valid() && Session.Possible(sys, Session.Watch) && sys.rc == Some(rc)
      modifies this`sys, this`status, this`exitCode, eventSubscribers
      ensures Valid() && sys == Session.Do(old(sys), Session.Watch)
    {
      DoKeepsInvariant(sys, Session.Watch);
      ghost var after := Session.Do(sys, Session.Watch);
      RecordExit(rc);
      sys := after;
    }

    /** A new subscriber and the snapshot that ws_events sends it first. */
    method Subscribe(ghost view: View) returns (q: Queue<Message>, snapshot: Message)
      requires Valid()
      modifies this`sys, this`eventSubscribers
      ensures Valid() && sys == Session.Do(old(sys), Session.Subscribe(view))
      ensures fresh(q) && eventSubscribers == old(eventSubscribers) + [q]
      ensures Last(sys.clients).snapshot == Some(snapshot)
    {
      DoKeepsInvariant(sys, Session.Subscribe(view));
      ghost var after := Session.Do(sys, Session.Subscribe(view));
      q := new Queue(0);
      eventSubscribers := eventSubscribers + [q];
      snapshot := StatusMsg(status);
      assert View().queues == after.server.queues;
      sys := after;
    }

    /** One turn of the loop of ws_events. */
    method SendNext(ghost i: nat, q: Queue<Message>) returns (m: Message)
      requires Valid() && i < |eventSubscribers| && eventSubscribers[i] == q && q.items != []
      requires sys.clients[i].snapshot.None?
      modifies this`sys, q`items
      ensures Valid() && sys == Session.Do(old(sys), Session.Deliver(i))
      ensures sys.clients[i].view == Show(old(sys).clients[i].view, m)
    {
      DoKeepsInvariant(sys, Session.Deliver(i));
      ghost var after := Session.Do(sys, Session.Deliver(i));
      ghost var was := View().queues;
      m := q.Get();
      assert View().queues == was[i := q.items];
      assert View().queues == after.server.queues;
      sys := after;
    }

    method Remove(q: Queue<Message>) returns (ghost n: nat)
      requires Queued()
      modifies this`eventSubscribers
      ensures Queued() && n <= |old(eventSubscribers)|
      ensures q !in old(eventSubscribers)[..n] && (n < |old(eventSubscribers)| ==> old(eventSubscribers)[n] == q)
      ensures View() == if n == |old(eventSubscribers)| then old(View()) else
        old(View()).(queues := old(View().queues)[..n] + old(View().queues)[n + 1..])
    {
      var k := 0;
      while k < |eventSubscribers| && eventSubscribers[k] != q
        invariant k <= |eventSubscribers| && q !in eventSubscribers[..k]
      {
        k := k + 1;
      }
      n := k;
      if k < |eventSubscribers| {
        eventSubscribers := eventSubscribers[..k] + eventSubscribers[k + 1..];
        ghost var queues := old(View().queues);
        assert View().queues == queues[..k] + queues[k + 1..];
      }
    }

    /** Removes the subscriber, if it is one. */
    method Unsubscribe(q: Queue<Message>) returns (ghost n: nat)
      requires Valid()
      modifies this`sys, this`eventSubscribers
      ensures Valid() && (n < |old(eventSubscribers)| <==> q in old(eventSubscribers))
      ensures if n < |old(eventSubscribers)| then
        old(eventSubscribers)[n] == q && sys == Session.Do(old(sys), Session.Unsubscribe(n)) else sys == old(sys)
    {
      ghost var was := View();
      n := Remove(q);
      if n < |old(eventSubscribers)| {
        assert |was.queues| == |old(eventSubscribers)|;
        DoKeepsInvariant(sys, Session.Unsubscribe(n));
        sys := Session.Do(sys, Session.Unsubscribe(n));
      }
    }
  }

  ghost predicate Invariant(s: Session.Sys) {
    Session.Sound(s) && Session.InStep(s)
  }

  lemma DoKeepsInvariant(s: Session.Sys, move: Session.Move)
    requires Invariant(s) && Session.Possible(s, move)
    ensures Invariant(Session.Do(s, move))
  {
    Session.DoKeepsSound(s, move);
    Session.DoKeepsInStep(s, move);
  }

  /** The command that a handler sends when it gets the lock, if it has one to send. */
  function WaitsFor(task: Session.Task): Option<Verb> {
    if task.pc.Waiting? then Some(task.pc.verb) else None
  }

  /** Over the whole life of a session object, all that is queued for a page folds to its status. */
  lemma QueuedForAPage(session: QemuSession, i: nat)
    requires session.Valid() && i < |session.eventSubscribers|
    ensures i < |session.sys.clients|
    ensures ShowAll(session.sys.clients[i].view, Session.Outstanding(session.sys, i)).status == session.status
  {
    assert session.View().queues == session.sys.server.queues;
  }
}
