/**
 * Does the adapter's status end up equal to QEMU's real run state? Late STOP and RESUME events
 * overwrite what the request handlers wrote, so the answer is about quiescent moments only.
 */
module Convergence {
  import opened Lists
  import opened Qmp
  import opened Server
  import opened Session

  function Level(guest: bool): Status {
    if guest then Running else Paused
  }

  /** The run states announced by a list of events; other events announce none. */
  function Announced(events: seq<Event>): seq<bool> {
    if events == [] then []
    else if events[0] == STOP then [false] + Announced(events[1..])
    else if events[0] == RESUME then [true] + Announced(events[1..])
    else Announced(events[1..])
  }

  lemma {:induction false} AnnouncedAppend(a: seq<Event>, e: Event)
    ensures Announced(a + [e]) ==
            if e == STOP then Announced(a) + [false] else if e == RESUME then Announced(a) + [true] else Announced(a)
  {
    if a == [] {
      assert (a + [e])[1..] == [];
    } else {
      assert (a + [e])[1..] == a[1..] + [e];
      AnnouncedAppend(a[1..], e);
    }
  }

  /** Run states still on their way to the event pump. */
  function Ahead(s: Sys): seq<bool> {
    Announced(EventsAhead(s.link))
  }

  /** QEMU has carried out a stop or cont whose handler has not written the status yet. */
  predicate Unsettled(s: Sys) {
    && s.link.holder.Some? && s.link.issued != [] && s.link.outbox == []
    && Last(s.link.issued).1 in {Stop, Cont}
    && RepliesAhead(s.link) != [] && RepliesAhead(s.link)[0].Return?
  }

  predicate Aligned(s: Sys) {
    && s.rc.None? && s.link.open && s.server.status != Exited
    && (Ahead(s) != [] ==> Last(Ahead(s)) == s.guest)
    && (Unsettled(s) ==> s.guest == (Last(s.link.issued).1 == Cont))
    && (!Unsettled(s) && Ahead(s) == [] && s.server.status != Created ==> s.server.status == Level(s.guest))
  }

  /** QEMU stays alive and reports each change of run state, which only stop and cont cause. */
  predicate Tame(s: Sys, move: Move)
    requires Possible(s, move)
  {
    match move
    case QemuExits(_) => false
    case QemuEmits(event) => event != STOP && event != RESUME
    case QemuAnswers(_, notice) => notice != Silent
    case _ => true
  }

  /** A reset that is about to report a running guest finds it running, or a STOP still ahead of the pump. */
  predicate ResetFits(s: Sys, move: Move)
    requires Possible(s, move)
  {
    move.Finish? && s.tasks[move.task].kind == Reset && s.link.responses[0].Return? ==> s.guest || Ahead(s) != []
  }

  predicate Calm(s: Sys, move: Move)
    requires Possible(s, move)
  {
    Tame(s, move) && ResetFits(s, move)
  }

  ghost predicate CalmRun(s: Sys, moves: seq<Move>, r: Sys)
    decreases |moves|
  {
    if moves == [] then s == r
    else Possible(s, moves[0]) && Calm(s, moves[0]) && CalmRun(Do(s, moves[0]), moves[1..], r)
  }

  lemma CalmCons(s: Sys, move: Move, moves: seq<Move>, r: Sys)
    requires Possible(s, move) && Calm(s, move) && CalmRun(Do(s, move), moves, r)
    ensures CalmRun(s, [move] + moves, r)
  {
    assert ([move] + moves)[1..] == moves;
  }

  lemma {:induction false} CalmRunsCompose(s: Sys, a: seq<Move>, m: Sys, b: seq<Move>, r: Sys)
    requires CalmRun(s, a, m) && CalmRun(m, b, r)
    ensures CalmRun(s, a + b, r)
    decreases |a|
  {
    if a == [] {
      assert a + b == b;
    } else {
      assert (a + b)[1..] == a[1..] + b;
      CalmRunsCompose(Do(s, a[0]), a[1..], m, b, r);
    }
  }

  lemma {:induction false} CalmRunIsRun(s: Sys, moves: seq<Move>, r: Sys)
    requires CalmRun(s, moves, r)
    ensures Runs(s, moves, r)
    decreases |moves|
  {
    if moves != [] {
      CalmRunIsRun(Do(s, moves[0]), moves[1..], r);
    }
  }

  // ---- one move at a time -------------------------------------------------------------

  lemma SentCommand(s: Sys)
    requires Sound(s) && s.link.open
    ensures |s.link.outbox| + |RepliesAhead(s.link)| == if s.link.holder.Some? then 1 else 0
    ensures s.link.holder.Some? ==> s.link.issued != []
    ensures s.link.outbox != [] ==> s.link.outbox[0] == Last(s.link.issued).1
  {
    assert |Texts(s.link.received) + RepliesAhead(s.link)| == |s.link.answered|;
  }

  lemma EmitAhead(l: Link, e: Event)
    requires l.open
    ensures EventsAhead(Advance(l, Emit(e))) == EventsAhead(l) + [e]
    ensures RepliesAhead(Advance(l, Emit(e))) == RepliesAhead(l)
  {
    LinesAppend(l.inbox, EventLine(e));
  }

  lemma AnswerAhead(l: Link, reply: Reply)
    requires Enabled(l, Answer(reply))
    ensures EventsAhead(Advance(l, Answer(reply))) == EventsAhead(l)
    ensures RepliesAhead(Advance(l, Answer(reply))) == RepliesAhead(l) + [reply]
  {
    LinesAppend(l.inbox, ReplyLine(reply));
  }

  lemma AnswerLinkAhead(l: Link, reply: Reply, changed: bool, event: Event, notice: Notice)
    requires Enabled(l, Answer(reply)) && notice != Silent
    ensures var r := AnswerLink(l, reply, changed, event, notice);
      && EventsAhead(r) == (if changed then EventsAhead(l) + [event] else EventsAhead(l))
      && RepliesAhead(r) == RepliesAhead(l) + [reply]
      && r.outbox == l.outbox[1..] && r.issued == l.issued && r.holder == l.holder && r.open
  {
    AnswerAhead(l, reply);
    EmitAhead(l, event);
    AnswerAhead(Advance(l, Emit(event)), reply);
    EmitAhead(Advance(l, Answer(reply)), event);
  }

  lemma AnswerKeepsAligned(s: Sys, reply: Reply, notice: Notice)
    requires Sound(s) && Aligned(s) && notice != Silent && Possible(s, QemuAnswers(reply, notice))
    ensures Aligned(Do(s, QemuAnswers(reply, notice)))
  {
    var guest := RunState(s.guest, s.link.outbox[0], reply);
    SentCommand(s);
    AnswerLinkAhead(s.link, reply, guest != s.guest, RunEvent(guest), notice);
    if guest != s.guest {
      AnnouncedAppend(EventsAhead(s.link), RunEvent(guest));
    }
  }

  lemma FinishKeepsAligned(s: Sys, t: nat)
    requires Sound(s) && Aligned(s) && Possible(s, Finish(t)) && Calm(s, Finish(t))
    ensures Aligned(Do(s, Finish(t)))
  {
    SentCommand(s);
    assert Ahead(Do(s, Finish(t))) == Ahead(s);
    assert RepliesAhead(s.link)[0] == s.link.responses[0];
  }

  /** The pump takes exactly the first event that is ahead of it. */
  lemma PumpAhead(s: Sys)
    requires Possible(s, Pump) && s.link.events[0].Some?
    ensures var r := Do(s, Pump);
      && EventsAhead(s.link) == [s.link.events[0].value] + EventsAhead(r.link)
      && RepliesAhead(r.link) == RepliesAhead(s.link)
  {
    var r := Do(s, Pump);
    Assoc([s.link.events[0].value], Somes(r.link.events), EventsIn(r.link.inbox));
  }

  lemma PumpKeepsAligned(s: Sys)
    requires Sound(s) && Aligned(s) && Possible(s, Pump)
    ensures Aligned(Do(s, Pump))
  {
    PumpAhead(s);
    assert Unsettled(Do(s, Pump)) == Unsettled(s);
    assert EventsAhead(s.link)[1..] == EventsAhead(Do(s, Pump).link);
  }

  lemma DoKeepsAligned(s: Sys, move: Move)
    requires Sound(s) && Aligned(s) && Possible(s, move) && Calm(s, move)
    ensures Aligned(Do(s, move))
  {
    match move
    case TakeLock(t) => SentCommand(s);
    case Finish(t) => FinishKeepsAligned(s, t);
    case Read => ReadKeepsAhead(s.link);
    case Pump => PumpKeepsAligned(s);
    case QemuAnswers(reply, notice) => AnswerKeepsAligned(s, reply, notice);
    case QemuEmits(e) =>
      EmitAhead(s.link, e);
      AnnouncedAppend(EventsAhead(s.link), e);
    case _ =>
  }

  lemma {:induction false} CalmRunsKeepAligned(s: Sys, moves: seq<Move>, r: Sys)
    requires Sound(s) && Aligned(s) && CalmRun(s, moves, r)
    ensures Sound(r) && Aligned(r)
    decreases |moves|
  {
    if moves != [] {
      DoKeepsSound(s, moves[0]);
      DoKeepsAligned(s, moves[0]);
      CalmRunsKeepAligned(Do(s, moves[0]), moves[1..], r);
    }
  }

  /**
   * In every calm run from the start, whenever no stop or cont is between QEMU and its handler and
   * no STOP or RESUME is between QEMU and the pump, the status of a started session is QEMU's.
   * Commands that wait for the lock, and queries at any stage, may be pending.
   */
  lemma StatusConverges(moves: seq<Move>, s: Sys)
    requires CalmRun(INITIAL, moves, s)
    requires !Unsettled(s) && Ahead(s) == [] && s.server.status != Created
    ensures s.server.status == Level(s.guest)
  {
    CalmRunsKeepAligned(INITIAL, moves, s);
  }

  // ---- exactly when it holds ----------------------------------------------------------

  /** Without a fitting reset, and only then, the next moment is one of false report. */
  lemma ResetKeepsAlignedIff(s: Sys, t: nat)
    requires Sound(s) && Aligned(s) && Possible(s, Finish(t))
    requires s.tasks[t].kind == Reset && s.link.responses[0].Return?
    ensures Aligned(Do(s, Finish(t))) <==> s.guest || Ahead(s) != []
    ensures Agrees(Do(s, Finish(t))) <==> s.guest || Ahead(s) != []
  {
    SentCommand(s);
    assert Ahead(Do(s, Finish(t))) == Ahead(s);
    assert RepliesAhead(s.link)[0] == s.link.responses[0];
  }

  ghost predicate TameRun(s: Sys, moves: seq<Move>, r: Sys)
    decreases |moves|
  {
    if moves == [] then s == r
    else Possible(s, moves[0]) && Tame(s, moves[0]) && TameRun(Do(s, moves[0]), moves[1..], r)
  }

  /** Nothing that the status depends on is between QEMU and the session. */
  predicate Settled(s: Sys) {
    !Unsettled(s) && Ahead(s) == [] && s.server.status != Created
  }

  predicate Agrees(s: Sys) {
    Settled(s) ==> s.server.status == Level(s.guest)
  }

  ghost predicate AgreesThroughout(s: Sys, moves: seq<Move>)
    decreases |moves|
  {
    && Agrees(s)
    && (moves != [] ==> Possible(s, moves[0]) && AgreesThroughout(Do(s, moves[0]), moves[1..]))
  }

  ghost predicate ResetsFit(s: Sys, moves: seq<Move>)
    decreases |moves|
  {
    moves != [] ==>
      Possible(s, moves[0]) && ResetFits(s, moves[0]) && ResetsFit(Do(s, moves[0]), moves[1..])
  }

  lemma {:induction false} AgreesIffResetsFitFrom(s: Sys, moves: seq<Move>, r: Sys)
    requires Sound(s) && Aligned(s) && TameRun(s, moves, r)
    ensures AgreesThroughout(s, moves) <==> ResetsFit(s, moves)
    decreases |moves|
  {
    if moves != [] {
      var move := moves[0];
      if ResetFits(s, move) {
        DoKeepsSound(s, move);
        DoKeepsAligned(s, move);
        AgreesIffResetsFitFrom(Do(s, move), moves[1..], r);
      } else {
        ResetKeepsAlignedIff(s, move.task);
        assert !AgreesThroughout(Do(s, move), moves[1..]);
      }
    }
  }

  /**
   * In every run in which QEMU stays alive and reports its changes of run state: the status is
   * QEMU's at every settled moment if and only if every reset that reported success found the
   * guest running or a STOP still on its way.
   */
  lemma AgreesIffResetsFit(moves: seq<Move>, s: Sys)
    requires TameRun(INITIAL, moves, s)
    ensures AgreesThroughout(INITIAL, moves) <==> ResetsFit(INITIAL, moves)
  {
    AgreesIffResetsFitFrom(INITIAL, moves, s);
  }

  // ---- convergence is reached ---------------------------------------------------------

  predicate Quiet(s: Sys) {
    && s.link.holder.None? && s.link.outbox == [] && s.link.inbox == []
    && s.link.events == [] && s.link.responses == []
  }

  function Work(s: Sys): nat {
    7 * |s.link.outbox| + 3 * |s.link.inbox| + |s.link.events| + |s.link.responses|
  }

  /** What remains to be done once no new request or event comes in. */
  predicate IsChore(move: Move) {
    move.Read? || move.Pump? || move.Finish? || move.QemuAnswers?
  }

  predicate AllChores(moves: seq<Move>) {
    forall i | 0 <= i < |moves| :: IsChore(moves[i])
  }

  lemma ChoreShrinksWork(s: Sys, move: Move)
    requires s.link.open && Possible(s, move) && IsChore(move)
    ensures Work(Do(s, move)) < Work(s)
  {
  }

  /** While anything is in flight, QEMU, the reader, the handler in the lock or the pump can go on. */
  lemma SomeChore(s: Sys) returns (move: Move)
    requires Sound(s) && s.link.open && s.pump == On && !Quiet(s)
    ensures IsChore(move) && Possible(s, move)
  {
    SentCommand(s);
    move :=
      if s.link.outbox != [] then QemuAnswers(Return(""), Before)
      else if s.link.inbox != [] then Read
      else if s.link.holder.Some? then Finish(s.link.holder.value)
      else Pump;
  }

  predicate Begun(task: Task) {
    task.kind != Start && !task.pc.Done?
  }

  /** The pump of a started session is at work. */
  predicate PumpOn(s: Sys) {
    && (s.server.status != Created ==> s.pump == On) && s.pump != Ended
    && (forall t | 0 <= t < |s.tasks| && Begun(s.tasks[t]) :: s.server.status != Created)
  }

  lemma PumpStaysOn(s: Sys, move: Move)
    requires Sound(s) && Aligned(s) && PumpOn(s) && Possible(s, move) && Tame(s, move)
    ensures PumpOn(Do(s, move))
  {
    match move
    case Finish(t) => FinishKeepsPumpOn(s, t);
    case Pump => assert s.link.events[0].Some?;
    case Watch => assert false;
    case _ =>
  }

  lemma FinishKeepsPumpOn(s: Sys, t: nat)
    requires Sound(s) && PumpOn(s) && Possible(s, Finish(t))
    ensures PumpOn(Do(s, Finish(t)))
  {
    assert s.tasks[t].kind != Start ==> Begun(s.tasks[t]);
  }

  predicate InHand(s: Sys) {
    Sound(s) && Aligned(s) && PumpOn(s)
  }

  lemma {:induction false} CalmRunsKeepInHand(s: Sys, moves: seq<Move>, r: Sys)
    requires InHand(s) && CalmRun(s, moves, r)
    ensures InHand(r)
    decreases |moves|
  {
    if moves != [] {
      DoKeepsSound(s, moves[0]);
      DoKeepsAligned(s, moves[0]);
      PumpStaysOn(s, moves[0]);
      CalmRunsKeepInHand(Do(s, moves[0]), moves[1..], r);
    }
  }

  lemma CalmHistory(history: seq<Move>, s: Sys)
    requires CalmRun(INITIAL, history, s)
    ensures InHand(s)
  {
    CalmRunsKeepInHand(INITIAL, history, s);
  }

  lemma StartedStays(s: Sys, move: Move)
    requires Possible(s, move) && s.server.status != Created
    ensures Do(s, move).server.status != Created
  {
  }

  lemma {:induction false} ChoresAreBounded(s: Sys, chores: seq<Move>, r: Sys)
    requires InHand(s) && s.server.status != Created && CalmRun(s, chores, r) && AllChores(chores)
    ensures |chores| + Work(r) <= Work(s) && r.server.status != Created
    decreases |chores|
  {
    if chores != [] {
      DoKeepsSound(s, chores[0]);
      DoKeepsAligned(s, chores[0]);
      PumpStaysOn(s, chores[0]);
      StartedStays(s, chores[0]);
      ChoreShrinksWork(s, chores[0]);
      ChoresAreBounded(Do(s, chores[0]), chores[1..], r);
    }
  }

  lemma QuietIffNoChore(s: Sys)
    requires InHand(s) && s.server.status != Created
    ensures (forall move | IsChore(move) :: !Possible(s, move)) <==> Quiet(s)
    ensures Quiet(s) ==> s.server.status == Level(s.guest)
  {
    if !Quiet(s) {
      var move := SomeChore(s);
    }
  }

  /**
   * From any moment of a calm run of a started session: what is in flight is dealt with in a
   * bounded number of moves, in any order and whatever QEMU replies, and where no such move is
   * left nothing is in flight and the status is QEMU's.
   */
  lemma AgreementIsReached(history: seq<Move>, s: Sys, chores: seq<Move>, r: Sys)
    requires CalmRun(INITIAL, history, s) && s.server.status != Created
    requires CalmRun(s, chores, r) && AllChores(chores)
    ensures |chores| <= Work(s)
    ensures (forall move | IsChore(move) :: !Possible(r, move)) <==> Quiet(r)
    ensures Quiet(r) ==> r.server.status == Level(r.guest)
  {
    CalmHistory(history, s);
    CalmRunsKeepInHand(s, chores, r);
    ChoresAreBounded(s, chores, r);
    QuietIffNoChore(r);
  }
}
