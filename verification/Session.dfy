/**
 * The whole control plane as a transition system: request handlers, the reader loop, the event
 * pump, the exit watcher, QEMU and any number of event subscribers, interleaved freely.
 */
module Session {
  import opened Lists
  import opened Qmp
  import opened Server

  datatype Pc = Waiting(verb: Verb) | Sent(verb: Verb) | Done(text: Option<string>)

  datatype Task = Task(kind: Kind, pc: Pc)

  datatype Phase = Off | On | Ended

  /**
   * A page on /ws/events: what it shows and the snapshot still to be delivered ahead of its
   * queue. `codes` records that its exit code agreed with the server's when it subscribed.
   */
  datatype Client = Client(view: View, snapshot: Option<Message>, codes: bool)

  datatype Sys = Sys(
    link: Link,
    server: State,
    clients: seq<Client>,  // one for each queue of the server
    tasks: seq<Task>,
    pump: Phase,
    watcher: Phase,
    rc: Option<int>,       // the exit status of the QEMU process
    guest: bool)           // QEMU's real run state

  const INITIAL := Sys(CONNECTED, NEW, [], [], Off, Off, None, false)

  /** Where QEMU puts the STOP or RESUME event of a command relative to the reply. */
  datatype Notice = Before | After | Silent

  datatype Move =
    | Request(kind: Kind)
    | TakeLock(task: nat)
    | SendFails(task: nat)
    | Finish(task: nat)
    | Read
    | Pump
    | Watch
    | Subscribe(view: View)
    | Unsubscribe(i: nat)
    | Deliver(i: nat)
    | QemuAnswers(reply: Reply, notice: Notice)
    | QemuEmits(event: Event)
    | QemuExits(rc: int)

  function ReadStep(l: Link): Step {
    if l.inbox != [] then ReadLine else ReadEof
  }

  predicate Possible(s: Sys, move: Move) {
    match move
    case Request(kind) =>
      // a second start while the first is under way is not part of the model
      kind == Start && s.server.status == Created ==> forall t | 0 <= t < |s.tasks| :: s.tasks[t].kind != Start
    case TakeLock(t) => t < |s.tasks| && s.tasks[t].pc.Waiting? && s.link.holder.None?
    case SendFails(t) => t < |s.tasks| && s.tasks[t].pc.Waiting? && s.link.holder.None? && !s.link.open
    case Finish(t) => t < |s.tasks| && s.tasks[t].pc.Sent? && s.link.holder == Some(t) && s.link.responses != []
    case Read => Enabled(s.link, ReadStep(s.link))
    case Pump => s.pump == On && Enabled(s.link, TakeEvent)
    case Watch => s.watcher == On && s.rc.Some?
    case Subscribe(_) => true
    case Unsubscribe(i) => i < |s.clients| && |s.clients| == |s.server.queues|
    case Deliver(i) => i < |s.clients| && |s.clients| == |s.server.queues| &&
                       (s.clients[i].snapshot.Some? || s.server.queues[i] != [])
    case QemuAnswers(reply, _) => Enabled(s.link, Answer(reply))
    case QemuEmits(event) => Enabled(s.link, Emit(event))
    case QemuExits(_) => s.rc.None? && s.link.open
  }

  /** The run state after QEMU carries out a command and answers it. */
  function RunState(guest: bool, verb: Verb, reply: Reply): bool {
    if reply.Failure? then guest
    else match verb
      case Stop => false
      case Cont => true
      case _ => guest
  }

  function RunEvent(guest: bool): Event {
    if guest then RESUME else STOP
  }

  function AnswerLink(l: Link, reply: Reply, changed: bool, event: Event, notice: Notice): Link
    requires Enabled(l, Answer(reply))
  {
    if !changed || notice == Silent then Advance(l, Answer(reply))
    else if notice == Before then Advance(Advance(l, Emit(event)), Answer(reply))
    else Advance(Advance(l, Answer(reply)), Emit(event))
  }

  function FinishTask(s: Sys, t: nat): Sys
    requires Possible(s, Finish(t))
  {
    var task := s.tasks[t];
    var reply := s.link.responses[0];
    var link := Advance(s.link, TakeReply);
    if reply.Failure? then
      s.(link := link, tasks := s.tasks[t := task.(pc := Done(None))])
    else if NeedsCont(s.server, task.kind, task.pc.verb) then
      s.(link := link, tasks := s.tasks[t := task.(pc := Waiting(Cont))])
    else
      s.(link := link, tasks := s.tasks[t := task.(pc := Done(Some(reply.text)))],
         server := Commit(s.server, task.kind),
         pump := if task.kind == Start then On else s.pump,
         watcher := if task.kind == Start then On else s.watcher)
  }

  function PumpTurn(s: Sys): Sys
    requires Possible(s, Pump)
  {
    var link := Advance(s.link, TakeEvent);
    match s.link.events[0]
    case None => s.(link := link, pump := Ended)
    case Some(event) => s.(link := link, server := OnEvent(s.server, event))
  }

  function Delivered(s: Sys, i: nat): Sys
    requires Possible(s, Deliver(i))
  {
    var c := s.clients[i];
    if c.snapshot.Some? then
      s.(clients := s.clients[i := c.(view := Show(c.view, c.snapshot.value), snapshot := None)])
    else
      var q := s.server.queues[i];
      s.(clients := s.clients[i := c.(view := Show(c.view, q[0]))],
         server := s.server.(queues := s.server.queues[i := q[1..]]))
  }

  function Do(s: Sys, move: Move): (r: Sys)
    requires Possible(s, move)
  {
    match move
    case Request(kind) =>
      s.(tasks := s.tasks + [Task(kind, if Allowed(s.server, kind) then Waiting(FirstVerb(kind)) else Done(None))])
    case TakeLock(t) =>
      var verb := s.tasks[t].pc.verb;
      s.(link := Advance(s.link, Issue(t, verb)), tasks := s.tasks[t := s.tasks[t].(pc := Sent(verb))])
    case SendFails(t) =>
      s.(tasks := s.tasks[t := s.tasks[t].(pc := Done(None))])
    case Finish(t) => FinishTask(s, t)
    case Read => s.(link := Advance(s.link, ReadStep(s.link)))
    case Pump => PumpTurn(s)
    case Watch => s.(server := OnExit(s.server, s.rc.value), watcher := Ended)
    case Subscribe(view) =>
      s.(clients := s.clients + [Client(view, Some(StatusMsg(s.server.status)), view.exitCode == s.server.exitCode)],
         server := s.server.(queues := s.server.queues + [[]]))
    case Unsubscribe(i) =>
      s.(clients := s.clients[..i] + s.clients[i + 1..],
         server := s.server.(queues := s.server.queues[..i] + s.server.queues[i + 1..]))
    case Deliver(i) => Delivered(s, i)
    case QemuAnswers(reply, notice) =>
      var guest := RunState(s.guest, s.link.outbox[0], reply);
      s.(link := AnswerLink(s.link, reply, guest != s.guest, RunEvent(guest), notice), guest := guest)
    case QemuEmits(event) => s.(link := Advance(s.link, Emit(event)))
    case QemuExits(rc) => s.(link := Advance(s.link, Hangup), rc := Some(rc))
  }

  ghost predicate Runs(s: Sys, moves: seq<Move>, r: Sys)
    decreases |moves|
  {
    if moves == [] then s == r
    else Possible(s, moves[0]) && Runs(Do(s, moves[0]), moves[1..], r)
  }

  lemma {:induction false} RunsCompose(s: Sys, a: seq<Move>, m: Sys, b: seq<Move>, r: Sys)
    requires Runs(s, a, m) && Runs(m, b, r)
    ensures Runs(s, a + b, r)
    decreases |a|
  {
    if a == [] {
      assert a + b == b;
    } else {
      assert (a + b)[1..] == a[1..] + b;
      RunsCompose(Do(s, a[0]), a[1..], m, b, r);
    }
  }

  // ---- the link and the tasks agree ---------------------------------------------------

  predicate VerbFits(kind: Kind, verb: Verb) {
    verb == FirstVerb(kind) || (kind == Reset && verb == Cont)
  }

  /** Exactly the task inside the lock has a command out, and it is the last one issued. */
  predicate TasksAgree(s: Sys) {
    && (s.link.holder.Some? ==> s.link.holder.value < |s.tasks| && s.tasks[s.link.holder.value].pc.Sent?)
    && (forall t | 0 <= t < |s.tasks| && s.tasks[t].pc.Sent? ::
          s.link.holder == Some(t) && s.link.issued != [] && s.tasks[t].pc.verb == Last(s.link.issued).1)
    && (forall t | 0 <= t < |s.tasks| && (s.tasks[t].pc.Sent? || s.tasks[t].pc.Waiting?) ::
          VerbFits(s.tasks[t].kind, s.tasks[t].pc.verb))
  }

  predicate Sound(s: Sys) {
    && Qmp.Inv(s.link)
    && TasksAgree(s)
    && |s.clients| == |s.server.queues|
  }

  lemma DoKeepsLink(s: Sys, move: Move)
    requires Qmp.Inv(s.link) && Possible(s, move)
    ensures Qmp.Inv(Do(s, move).link)
  {
    match move
    case TakeLock(t) => AdvanceKeepsInv(s.link, Issue(t, s.tasks[t].pc.verb));
    case Finish(t) => AdvanceKeepsInv(s.link, TakeReply);
    case Read => AdvanceKeepsInv(s.link, ReadStep(s.link));
    case Pump => AdvanceKeepsInv(s.link, TakeEvent);
    case QemuAnswers(reply, notice) =>
      var guest := RunState(s.guest, s.link.outbox[0], reply);
      AnswerKeepsInv(s.link, reply, guest != s.guest, RunEvent(guest), notice);
    case QemuEmits(event) => AdvanceKeepsInv(s.link, Emit(event));
    case QemuExits(rc) => AdvanceKeepsInv(s.link, Hangup);
    case _ =>
  }

  lemma AnswerKeepsInv(l: Link, reply: Reply, changed: bool, event: Event, notice: Notice)
    requires Qmp.Inv(l) && Enabled(l, Answer(reply))
    ensures Qmp.Inv(AnswerLink(l, reply, changed, event, notice))
  {
    AdvanceKeepsInv(l, Answer(reply));
    AdvanceKeepsInv(l, Emit(event));
    AdvanceKeepsInv(Advance(l, Emit(event)), Answer(reply));
    AdvanceKeepsInv(Advance(l, Answer(reply)), Emit(event));
  }

  lemma LockMovesKeepTasks(s: Sys, move: Move)
    requires TasksAgree(s) && Possible(s, move)
    requires move.TakeLock? || move.SendFails? || move.Finish?
    ensures TasksAgree(Do(s, move))
  {
  }

  lemma DoKeepsTasks(s: Sys, move: Move)
    requires TasksAgree(s) && Possible(s, move)
    ensures TasksAgree(Do(s, move))
  {
    if move.TakeLock? || move.SendFails? || move.Finish? {
      LockMovesKeepTasks(s, move);
    } else if move.Request? {
      assert TasksAgree(Do(s, move));
    } else {
      var r := Do(s, move);
      assert r.tasks == s.tasks && r.link.holder == s.link.holder && r.link.issued == s.link.issued;
    }
  }

  lemma DoKeepsSound(s: Sys, move: Move)
    requires Sound(s) && Possible(s, move)
    ensures Sound(Do(s, move))
  {
    DoKeepsLink(s, move);
    DoKeepsTasks(s, move);
  }

  lemma {:induction false} RunsKeepSound(s: Sys, moves: seq<Move>, r: Sys)
    requires Sound(s) && Runs(s, moves, r)
    ensures Sound(r)
    decreases |moves|
  {
    if moves != [] {
      DoKeepsSound(s, moves[0]);
      RunsKeepSound(Do(s, moves[0]), moves[1..], r);
    }
  }

  // ---- replay -------------------------------------------------------------------------

  /** Everything on its way to a client, the snapshot first. */
  function Outstanding(s: Sys, i: nat): seq<Message>
    requires i < |s.clients| == |s.server.queues|
  {
    (if s.clients[i].snapshot.Some? then [s.clients[i].snapshot.value] else []) + s.server.queues[i]
  }

  predicate InStep(s: Sys) {
    && |s.clients| == |s.server.queues|
    && forall i | 0 <= i < |s.clients| ::
         Replays(s.server, s.clients[i].view, Outstanding(s, i), s.clients[i].codes)
  }

  /** A server change that is one broadcast message keeps all clients in step. */
  lemma ServerMoveKeepsInStep(s: Sys, r: Sys, m: Message)
    requires InStep(s) && r.clients == s.clients
    requires r.server.queues == Broadcast(s.server.queues, m)
    requires View(r.server.status, r.server.exitCode) == Show(View(s.server.status, s.server.exitCode), m)
    ensures InStep(r)
  {
    forall i | 0 <= i < |s.clients|
      ensures Replays(r.server, r.clients[i].view, Outstanding(r, i), r.clients[i].codes)
    {
      BroadcastReplays(s.server, r.server, s.clients[i].view, Outstanding(s, i), s.clients[i].codes, m);
      assert Outstanding(r, i) == Outstanding(s, i) + [m];
    }
  }

  lemma DeliverKeepsInStep(s: Sys, i: nat)
    requires InStep(s) && Possible(s, Deliver(i))
    ensures InStep(Do(s, Deliver(i)))
  {
    var r := Do(s, Deliver(i));
    assert Outstanding(s, i)[1..] == Outstanding(r, i);
  }

  lemma SubscribeKeepsInStep(s: Sys, view: View)
    requires InStep(s)
    ensures InStep(Do(s, Subscribe(view)))
  {
    var r := Do(s, Subscribe(view));
    var n := |s.clients|;
    var m := StatusMsg(s.server.status);
    assert Outstanding(r, n) == [] + [m];
    ShowAllAppend(view, [], m);
    assert Replays(r.server, r.clients[n].view, Outstanding(r, n), r.clients[n].codes);
    forall i | 0 <= i < n
      ensures Replays(r.server, r.clients[i].view, Outstanding(r, i), r.clients[i].codes)
    {
      assert Outstanding(r, i) == Outstanding(s, i);
    }
  }

  lemma DoKeepsInStep(s: Sys, move: Move)
    requires InStep(s) && Possible(s, move)
    ensures InStep(Do(s, move))
  {
    var r := Do(s, move);
    if r.server != s.server || r.clients != s.clients {
      match move
      case Subscribe(view) => SubscribeKeepsInStep(s, view);
      case Unsubscribe(i) =>
      case Deliver(i) => DeliverKeepsInStep(s, i);
      case Watch => ServerMoveKeepsInStep(s, r, if s.rc.value == 0 then ExitMsg(0) else FatalMsg);
      case _ => ServerMoveKeepsInStep(s, r, StatusMsg(r.server.status));
    }
  }

  lemma {:induction false} RunsKeepInStep(s: Sys, moves: seq<Move>, r: Sys)
    requires InStep(s) && Runs(s, moves, r)
    ensures InStep(r)
    decreases |moves|
  {
    if moves != [] {
      DoKeepsInStep(s, moves[0]);
      RunsKeepInStep(Do(s, moves[0]), moves[1..], r);
    }
  }

  /**
   * In every interleaving, with exits, failures, resets and spurious events included, folding the
   * snapshot and everything queued into what a page shows gives the server's status, and its exit
   * code too for a page that had the right one when it subscribed.
   */
  lemma EveryPageReplaysTheStatus(moves: seq<Move>, s: Sys, i: nat)
    requires Runs(INITIAL, moves, s) && i < |s.clients|
    ensures |s.clients| == |s.server.queues|
    ensures ShowAll(s.clients[i].view, Outstanding(s, i)).status == s.server.status
    ensures s.clients[i].codes ==> ShowAll(s.clients[i].view, Outstanding(s, i)).exitCode == s.server.exitCode
    ensures s.clients[i].snapshot.None? && s.server.queues[i] == [] ==>
      s.clients[i].view.status == s.server.status
  {
    RunsKeepInStep(INITIAL, moves, s);
  }
}
