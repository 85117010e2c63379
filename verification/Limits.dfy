/**
 * Where the control plane falls short of its own contract: a concrete run for each failure, and
 * the exact condition under which the session behaves as documented.
 */
module Limits {
  import opened Lists
  import opened Qmp
  import opened Server
  import opened Session
  import opened Convergence

  // ---- late events ----------------------------------------------------------------------

  predicate Free(s: Sys) {
    && s.link.holder.None? && s.link.outbox == [] && s.link.inbox == [] && s.link.responses == []
    && s.link.open && s.link.reading && s.rc.None?
  }

  /** A request that changes the run state, from its guard to the moment QEMU has answered it. */
  function Asked(s: Sys, kind: Kind): (r: Sys)
    requires Free(s) && kind in {Start, Pause, Resume} && Allowed(s.server, kind)
    requires kind == Start ==> s.tasks == []
  {
    var n := |s.tasks|;
    Do(Do(Do(s, Request(kind)), TakeLock(n)), QemuAnswers(Return(""), Before))
  }

  function AskingMoves(s: Sys, kind: Kind): seq<Move> {
    [Request(kind)] + ([TakeLock(|s.tasks|)] + ([QemuAnswers(Return(""), Before)] + []))
  }

  lemma AskedRuns(s: Sys, kind: Kind)
    requires Free(s) && kind in {Start, Pause, Resume} && Allowed(s.server, kind)
    requires kind == Start ==> s.tasks == []
    requires s.guest != (kind != Pause)
    ensures CalmRun(s, AskingMoves(s, kind), Asked(s, kind))
  {
    var n := |s.tasks|;
    var s1 := Do(s, Request(kind));
    var s2 := Do(s1, TakeLock(n));
    var answer := QemuAnswers(Return(""), Before);
    CalmCons(s2, answer, [], Do(s2, answer));
    CalmCons(s1, TakeLock(n), [answer] + [], Do(s2, answer));
    CalmCons(s, Request(kind), [TakeLock(n)] + ([answer] + []), Do(s2, answer));
  }

  lemma AskedState(s: Sys, kind: Kind)
    requires Free(s) && kind in {Start, Pause, Resume} && Allowed(s.server, kind)
    requires kind == Start ==> s.tasks == []
    requires s.guest != (kind != Pause)
    ensures var n, r := |s.tasks|, Asked(s, kind);
      && r.link == s.link.(inbox := [EventLine(RunEvent(!s.guest)), ReplyLine(Return(""))],
           holder := Some(n), issued := r.link.issued, answered := r.link.answered, emitted := r.link.emitted)
      && r == s.(link := r.link, tasks := s.tasks + [Task(kind, Sent(FirstVerb(kind)))], guest := !s.guest)
  {
  }

  lemma AnsweredRuns(s: Sys, n: nat, event: Event) returns (r: Sys)
    requires n < |s.tasks| && s.tasks[n].pc.Sent? && s.tasks[n].kind in {Start, Pause, Resume}
    requires s.link.inbox == [EventLine(event), ReplyLine(Return(""))] && s.link.responses == []
    requires s.link.holder == Some(n) && s.link.reading
    ensures CalmRun(s, [Read] + ([Read] + ([Finish(n)] + [])), r)
    ensures r.link == s.link.(inbox := [], holder := None, events := s.link.events + [Some(event)],
                              received := r.link.received)
    ensures r.server == Commit(s.server, s.tasks[n].kind) && r.guest == s.guest && r.rc == s.rc
    ensures |r.tasks| == |s.tasks| && r.tasks[..n] == s.tasks[..n]
    ensures r.tasks[n] == Task(s.tasks[n].kind, Done(Some("")))
    ensures r.pump == (if s.tasks[n].kind == Start then On else s.pump)
    ensures r.watcher == (if s.tasks[n].kind == Start then On else s.watcher)
  {
    var s1 := Do(s, Read);
    var s2 := Do(s1, Read);
    r := Do(s2, Finish(n));
    CalmCons(s2, Finish(n), [], r);
    CalmCons(s1, Read, [Finish(n)] + [], r);
    CalmCons(s, Read, [Read] + ([Finish(n)] + []), r);
  }

  /** The whole of such a request, with only its event left behind. */
  lemma RoundRuns(s: Sys, kind: Kind) returns (moves: seq<Move>, r: Sys)
    requires Free(s) && kind in {Start, Pause, Resume} && Allowed(s.server, kind)
    requires kind == Start ==> s.tasks == []
    requires s.guest != (kind != Pause)
    ensures CalmRun(s, moves, r) && Free(r) && |r.tasks| == |s.tasks| + 1 && r.tasks[..|s.tasks|] == s.tasks
    ensures r.tasks[|s.tasks|] == Task(kind, Done(Some("")))
    ensures r.server == Commit(s.server, kind) && r.guest == !s.guest
    ensures r.link.events == s.link.events + [Some(RunEvent(r.guest))] && r.link.ended == s.link.ended
    ensures r.pump == (if kind == Start then On else s.pump)
    ensures r.watcher == (if kind == Start then On else s.watcher)
  {
    var n := |s.tasks|;
    AskedRuns(s, kind);
    AskedState(s, kind);
    var m := Asked(s, kind);
    r := AnsweredRuns(m, n, RunEvent(!s.guest));
    var ask := AskingMoves(s, kind);
    var finish := [Read] + ([Read] + ([Finish(n)] + []));
    CalmRunsCompose(s, ask, m, finish, r);
    moves := ask + finish;
  }

  /**
   * Quiescence is needed for convergence: after a start and a pause have both returned, the late
   * RESUME event of the start makes the adapter report a running guest while QEMU is stopped.
   */
  lemma LateEventOverwrites() returns (moves: seq<Move>, s: Sys)
    ensures CalmRun(INITIAL, moves, s) && s.link.holder.None? && s.link.inbox == []
    ensures s.server.status == Running && !s.guest && s.link.events == [Some(STOP)]
  {
    var starting, a := RoundRuns(INITIAL, Start);
    var pausing, b := RoundRuns(a, Pause);
    s := Do(b, Pump);
    CalmCons(b, Pump, [], s);
    CalmRunsCompose(a, pausing, b, [Pump] + [], s);
    CalmRunsCompose(INITIAL, starting, a, pausing + ([Pump] + []), s);
    moves := starting + (pausing + ([Pump] + []));
  }

  // ---- reset ----------------------------------------------------------------------------

  /** Nothing in flight. */
  predicate Resting(s: Sys) {
    Free(s) && s.link.events == [] && !s.link.ended
  }

  predicate ResetWaits(s: Sys, t: nat) {
    t < |s.tasks| && s.tasks[t] == Task(Reset, Waiting(SystemReset))
  }

  /** A waiting reset takes the lock and is answered. */
  lemma ResetAnswered(s: Sys, t: nat) returns (moves: seq<Move>, r: Sys)
    requires Resting(s) && ResetWaits(s, t)
    ensures TameRun(s, moves, r)
    ensures t < |r.tasks| && r.tasks[t] == Task(Reset, Sent(SystemReset))
    ensures r.link.holder == Some(t) && r.link.responses == [] && r.link.inbox == [ReplyLine(Return(""))]
    ensures r.link.outbox == [] && r.link.events == [] && !r.link.ended && r.link.open && r.link.reading
    ensures r.server == s.server && r.guest == s.guest && r.rc.None?
  {
    var a := Do(s, TakeLock(t));
    var answer := QemuAnswers(Return(""), Before);
    r := Do(a, answer);
    TameCons(a, answer, [], r);
    TameCons(s, TakeLock(t), [answer] + [], r);
    moves := [TakeLock(t)] + ([answer] + []);
  }

  lemma ResetFinished(s: Sys, t: nat) returns (moves: seq<Move>, r: Sys)
    requires t < |s.tasks| && s.tasks[t] == Task(Reset, Sent(SystemReset))
    requires s.link.holder == Some(t) && s.link.responses == [] && s.link.inbox == [ReplyLine(Return(""))]
    requires s.link.outbox == [] && s.link.events == [] && !s.link.ended && s.link.open && s.link.reading
    requires s.server.status != Exited && s.rc.None?
    ensures TameRun(s, moves, r) && Resting(r) && r.server.status == Running && r.guest == s.guest
  {
    var a := Do(s, Read);
    r := Do(a, Finish(t));
    TameCons(a, Finish(t), [], r);
    TameCons(s, Read, [Finish(t)] + [], r);
    moves := [Read] + ([Finish(t)] + []);
  }

  lemma ResetServed(s: Sys, t: nat) returns (moves: seq<Move>, r: Sys)
    requires Resting(s) && ResetWaits(s, t) && s.server.status != Exited
    ensures TameRun(s, moves, r) && Resting(r) && r.server.status == Running && r.guest == s.guest
  {
    var asking, m := ResetAnswered(s, t);
    var finishing, n := ResetFinished(m, t);
    TameRunsCompose(s, asking, m, finishing, n);
    moves, r := asking + finishing, n;
  }

  lemma ResetRequested(s: Sys) returns (r: Sys)
    requires Resting(s) && s.server.status != Created
    ensures Possible(s, Request(Reset)) && Tame(s, Request(Reset)) && r == Do(s, Request(Reset))
    ensures Resting(r) && ResetWaits(r, |s.tasks|) && |r.tasks| == |s.tasks| + 1
    ensures r.server == s.server && r.guest == s.guest && r.pump == s.pump
  {
    r := Do(s, Request(Reset));
  }

  lemma TameCons(s: Sys, move: Move, moves: seq<Move>, r: Sys)
    requires Possible(s, move) && Tame(s, move) && TameRun(Do(s, move), moves, r)
    ensures TameRun(s, [move] + moves, r)
  {
    assert ([move] + moves)[1..] == moves;
  }

  lemma {:induction false} TameRunsCompose(s: Sys, a: seq<Move>, m: Sys, b: seq<Move>, r: Sys)
    requires TameRun(s, a, m) && TameRun(m, b, r)
    ensures TameRun(s, a + b, r)
    decreases |a|
  {
    if a == [] {
      assert a + b == b;
    } else {
      assert (a + b)[1..] == a[1..] + b;
      TameRunsCompose(Do(s, a[0]), a[1..], m, b, r);
    }
  }

  lemma {:induction false} CalmRunIsTame(s: Sys, moves: seq<Move>, r: Sys)
    requires CalmRun(s, moves, r)
    ensures TameRun(s, moves, r)
    decreases |moves|
  {
    if moves != [] {
      CalmRunIsTame(Do(s, moves[0]), moves[1..], r);
    }
  }

  /** A start, pause or resume with its event taken by the pump. */
  lemma RoundRests(s: Sys, kind: Kind) returns (moves: seq<Move>, r: Sys)
    requires Resting(s) && kind in {Start, Pause, Resume} && Allowed(s.server, kind)
    requires kind == Start ==> s.tasks == []
    requires s.guest == (kind == Pause) && (kind != Start ==> s.pump == On)
    ensures TameRun(s, moves, r) && Resting(r) && r.guest == !s.guest && r.pump == On
    ensures r.watcher == if kind == Start then On else s.watcher
    ensures r.server.status == Level(r.guest) && r.server.exitCode == s.server.exitCode
    ensures |r.tasks| == |s.tasks| + 1 && r.tasks[..|s.tasks|] == s.tasks
    ensures r.tasks[|s.tasks|] == Task(kind, Done(Some("")))
  {
    var round, m := RoundRuns(s, kind);
    CalmRunIsTame(s, round, m);
    r := Do(m, Pump);
    TameCons(m, Pump, [], r);
    TameRunsCompose(s, round, m, [Pump] + [], r);
    moves := round + ([Pump] + []);
  }

  lemma StartServed() returns (moves: seq<Move>, s: Sys)
    ensures TameRun(INITIAL, moves, s) && Resting(s) && s.pump == s.watcher == On
    ensures s.guest && s.server.status == Running && s.server.exitCode.None? && |s.tasks| == 1
  {
    moves, s := RoundRests(INITIAL, Start);
  }

  lemma PauseServed(s: Sys) returns (moves: seq<Move>, r: Sys)
    requires Resting(s) && s.server.status == Running && s.guest && s.pump == On
    ensures TameRun(s, moves, r) && Resting(r) && !r.guest && r.pump == On && r.watcher == s.watcher
    ensures r.server.status == Paused && r.server.exitCode == s.server.exitCode
    ensures |r.tasks| == |s.tasks| + 1 && r.tasks[..|s.tasks|] == s.tasks
  {
    moves, r := RoundRests(s, Pause);
  }

  /** A reset of a paused session reports a running guest over a stopped one, with nothing left to correct it. */
  lemma ResetOfPausedGuest() returns (before: seq<Move>, a: Sys, after: seq<Move>, s: Sys)
    ensures TameRun(INITIAL, before, a) && Resting(a) && a.server.status == Paused && !a.guest
    ensures TameRun(a, [Request(Reset)] + after, s) && Resting(s) && s.server.status == Running && !s.guest
  {
    var starting, b := StartServed();
    var pausing, c := PauseServed(b);
    TameRunsCompose(INITIAL, starting, b, pausing, c);
    before, a := starting + pausing, c;
    var d := ResetRequested(a);
    after, s := ResetServed(d, 2);
    TameCons(a, Request(Reset), after, s);
  }

  /** So does a reset requested of a running session with nothing in flight, if a pause gets the lock first. */
  lemma ResetOvertakenByPause() returns (before: seq<Move>, a: Sys, after: seq<Move>, s: Sys)
    ensures TameRun(INITIAL, before, a) && Resting(a) && a.server.status == Running && a.guest
    ensures TameRun(a, [Request(Reset)] + after, s) && Resting(s) && s.server.status == Running && !s.guest
  {
    before, a := StartServed();
    var b := ResetRequested(a);
    var pausing, c := PauseServed(b);
    assert c.tasks[..2][1] == b.tasks[1];
    var resetting, d := ResetServed(c, 1);
    TameRunsCompose(b, pausing, c, resetting, d);
    after, s := pausing + resetting, d;
    TameCons(a, Request(Reset), after, s);
  }

  // ---- exit -----------------------------------------------------------------------------

  /** Whatever the status, only the exit watcher makes it exited. */
  lemma OnlyTheWatcherExits(s: Sys, move: Move)
    requires Possible(s, move) && s.server.status != Exited
    ensures Do(s, move).server.status == Exited <==> move == Watch
  {
  }

  /** Also over a paused guest, with nothing else going on. */
  lemma ExitWhilePaused(rc: int) returns (before: seq<Move>, a: Sys, s: Sys)
    ensures TameRun(INITIAL, before, a) && Resting(a) && a.server.status == Paused && !a.guest
    ensures Runs(a, [QemuExits(rc), Watch], s) && s.server.status == Exited
    ensures s.server.exitCode == Some(if rc == 0 then Code(0) else Fatal)
  {
    var starting, b := StartServed();
    var pausing, c := PauseServed(b);
    TameRunsCompose(INITIAL, starting, b, pausing, c);
    before, a := starting + pausing, c;
    s := ExitWatched(a, rc);
  }

  lemma ExitWatched(a: Sys, rc: int) returns (s: Sys)
    requires Resting(a) && a.watcher == On && a.server.status != Exited
    ensures Runs(a, [QemuExits(rc), Watch], s) && s.server.status == Exited
    ensures s.server.exitCode == Some(if rc == 0 then Code(0) else Fatal)
  {
    var d := Do(a, QemuExits(rc));
    s := Do(d, Watch);
    var moves := [QemuExits(rc), Watch];
    assert moves[1..] == [Watch] && [Watch][1..] == [];
    assert Runs(d, [Watch], s);
  }

  /** The process is gone and the watcher has reported it. */
  predicate Gone(s: Sys) {
    s.rc.Some? && !s.link.open && s.watcher == Ended && s.server.status == Exited && s.pump != Off
  }

  /** The lock's holder will write the status when it gets the reply already on its way. */
  predicate ReplyResidue(s: Sys) {
    && s.link.holder.Some? && s.link.holder.value < |s.tasks|
    && RepliesAhead(s.link) != [] && RepliesAhead(s.link)[0].Return?
    && var task := s.tasks[s.link.holder.value];
      && task.pc.Sent? && !task.kind.Query? && !NeedsCont(s.server, task.kind, task.pc.verb)
  }

  predicate EventResidue(s: Sys) {
    s.pump == On && Ahead(s) != []
  }

  predicate Residue(s: Sys) {
    ReplyResidue(s) || EventResidue(s)
  }

  /** With nobody in the lock, no successful reply is on its way. */
  lemma NoStrayReply(s: Sys)
    requires Sound(s) && s.link.holder.None?
    ensures forall k | 0 <= k < |RepliesAhead(s.link)| :: RepliesAhead(s.link)[k] == DISCONNECTED
  {
    var t := Texts(s.link.received);
    var all := t + RepliesAhead(s.link);
    assert |all| == |t| + |RepliesAhead(s.link)|;
    forall k | 0 <= k < |RepliesAhead(s.link)|
      ensures RepliesAhead(s.link)[k] == DISCONNECTED
    {
      assert RepliesAhead(s.link)[k] == all[|t| + k];
    }
  }

  predicate Final(s: Sys) {
    Sound(s) && Gone(s) && !Residue(s)
  }

  predicate Stays(s: Sys, r: Sys) {
    Gone(r) && !Residue(r) && r.server.exitCode == s.server.exitCode
  }

  lemma ReadKeepsFinal(s: Sys)
    requires Final(s) && Possible(s, Read)
    ensures Stays(s, Do(s, Read))
  {
    var r := Do(s, Read);
    if s.link.inbox != [] {
      ReadKeepsAhead(s.link);
    } else {
      SomesConcat(s.link.events, [None]);
      assert EventsAhead(r.link) == EventsAhead(s.link);
      assert RepliesAhead(r.link) == RepliesAhead(s.link) + [DISCONNECTED];
    }
  }

  lemma NothingAnnounced(e: Event, rest: seq<Event>)
    requires Announced([e] + rest) == []
    ensures e != STOP && e != RESUME && Announced(rest) == []
  {
    assert ([e] + rest)[1..] == rest;
  }

  lemma PumpEndKeepsFinal(s: Sys)
    requires Final(s) && Possible(s, Pump) && s.link.events[0].None?
    ensures Stays(s, Do(s, Pump))
  {
  }

  lemma PumpEventKeepsFinal(s: Sys)
    requires Final(s) && Possible(s, Pump) && s.link.events[0].Some?
    ensures Stays(s, Do(s, Pump))
  {
    var r := Do(s, Pump);
    PumpAhead(s);
    NothingAnnounced(s.link.events[0].value, EventsAhead(r.link));
    assert r.server == s.server && Ahead(r) == [];
    assert !ReplyResidue(r);
  }

  lemma PumpKeepsFinal(s: Sys)
    requires Final(s) && Possible(s, Pump)
    ensures Stays(s, Do(s, Pump))
  {
    if s.link.events[0].Some? {
      PumpEventKeepsFinal(s);
    } else {
      PumpEndKeepsFinal(s);
    }
  }

  lemma LockKeepsFinal(s: Sys, t: nat)
    requires Final(s) && Possible(s, TakeLock(t))
    ensures Stays(s, Do(s, TakeLock(t)))
  {
    NoStrayReply(s);
  }

  lemma FinishKeepsFinal(s: Sys, t: nat)
    requires Final(s) && Possible(s, Finish(t))
    ensures Stays(s, Do(s, Finish(t)))
  {
    assert RepliesAhead(s.link)[0] == s.link.responses[0];
  }

  lemma ClientKeepsFinal(s: Sys, move: Move)
    requires Final(s) && Possible(s, move)
    requires move.Request? || move.SendFails? || move.Subscribe? || move.Unsubscribe? || move.Deliver?
    ensures Stays(s, Do(s, move))
  {
  }

  lemma MoveKeepsFinal(s: Sys, move: Move)
    requires Final(s) && Possible(s, move)
    ensures Stays(s, Do(s, move))
  {
    match move
    case Read => ReadKeepsFinal(s);
    case Pump => PumpKeepsFinal(s);
    case TakeLock(t) => LockKeepsFinal(s, t);
    case Finish(t) => FinishKeepsFinal(s, t);
    case Watch => assert false;
    case QemuAnswers(_, _) => assert false;
    case QemuEmits(_) => assert false;
    case QemuExits(_) => assert false;
    case _ => ClientKeepsFinal(s, move);
  }

  lemma {:induction false} ExitIsFinal(s: Sys, moves: seq<Move>, r: Sys)
    requires Final(s) && Runs(s, moves, r)
    ensures r.server.status == Exited && r.server.exitCode == s.server.exitCode
    decreases |moves|
  {
    if moves != [] {
      MoveKeepsFinal(s, moves[0]);
      DoKeepsSound(s, moves[0]);
      ExitIsFinal(Do(s, moves[0]), moves[1..], r);
    }
  }

  lemma ResidueReads(s: Sys)
    requires Sound(s) && Gone(s) && Residue(s) && s.link.inbox != []
    ensures Possible(s, Read)
    ensures var r := Do(s, Read);
      && Sound(r) && Gone(r) && Residue(r)
      && 2 * |r.link.inbox| + |r.link.events| < 2 * |s.link.inbox| + |s.link.events|
  {
    DoKeepsSound(s, Read);
    ReadKeepsAhead(s.link);
  }

  lemma EventResiduePumps(s: Sys)
    requires Sound(s) && Gone(s) && EventResidue(s) && s.link.inbox == []
    ensures Possible(s, Pump)
    ensures var r := Do(s, Pump);
      r.server.status == Exited ==>
        Sound(r) && Gone(r) && EventResidue(r) && r.link.inbox == [] && |r.link.events| < |s.link.events|
  {
    DoKeepsSound(s, Pump);
    assert EventsAhead(s.link) == Somes(s.link.events);
    PumpAhead(s);
    assert EventsAhead(s.link)[1..] == EventsAhead(Do(s, Pump).link);
  }

  /** Every residue does come to overwrite the exit, in some continuation. */
  lemma {:induction false} ResidueOverwritesExit(s: Sys) returns (moves: seq<Move>, r: Sys)
    requires Sound(s) && Gone(s) && Residue(s)
    ensures Runs(s, moves, r) && r.server.status != Exited
    decreases 2 * |s.link.inbox| + |s.link.events|
  {
    if s.link.inbox != [] {
      ResidueReads(s);
      moves, r := ResidueOverwritesExit(Do(s, Read));
      moves := [Read] + moves;
    } else if EventResidue(s) {
      EventResiduePumps(s);
      var n := Do(s, Pump);
      moves, r := [], n;
      if n.server.status == Exited {
        moves, r := ResidueOverwritesExit(n);
      }
      assert ([Pump] + moves)[1..] == moves;
      moves := [Pump] + moves;
    } else {
      var move := Finish(s.link.holder.value);
      assert RepliesAhead(s.link) == s.link.responses;
      moves, r := [move], Do(s, move);
      assert moves[1..] == [];
    }
  }

  /**
   * A reported exit is the session's last word if and only if, at that moment, no STOP or RESUME
   * was waiting for the pump and no success was waiting for a handler that writes the status.
   */
  lemma ExitIsFinalIffNothingWasLeft(history: seq<Move>, s: Sys)
    requires Runs(INITIAL, history, s) && Gone(s)
    ensures !Residue(s) ==> forall moves, r | Runs(s, moves, r) :: r.server.status == Exited
    ensures Residue(s) ==> exists moves, r :: Runs(s, moves, r) && r.server.status != Exited
  {
    RunsKeepSound(INITIAL, history, s);
    if Residue(s) {
      var moves, r := ResidueOverwritesExit(s);
    } else {
      forall moves, r | Runs(s, moves, r)
        ensures r.server.status == Exited
      {
        ExitIsFinal(s, moves, r);
      }
    }
  }

  lemma ThreeMoves(s: Sys, x: Move, y: Move, z: Move)
    requires Possible(s, x) && Possible(Do(s, x), y) && Possible(Do(Do(s, x), y), z)
    ensures Runs(s, [x, y, z], Do(Do(Do(s, x), y), z))
  {
    var moves := [x, y, z];
    assert moves[1..] == [y, z] && moves[1..][1..] == [z] && [z][1..] == [];
    assert Runs(Do(Do(s, x), y), [z], Do(Do(Do(s, x), y), z));
    assert Runs(Do(s, x), [y, z], Do(Do(Do(s, x), y), z));
  }

  /**
   * Such a residue does occur: QEMU exits before the pump has taken the RESUME event of the start.
   * The session then reports a running guest and an exit code at the same time.
   */
  lemma ExitOverwritten() returns (moves: seq<Move>, s: Sys)
    ensures Runs(INITIAL, moves, s) && s.rc == Some(0) && s.watcher == Ended
    ensures s.server.status == Running && s.server.exitCode == Some(Code(0))
  {
    var starting, a := RoundRuns(INITIAL, Start);
    CalmRunIsRun(INITIAL, starting, a);
    s := ExitBeforeEvent(a);
    RunsCompose(INITIAL, starting, a, [QemuExits(0), Watch, Pump], s);
    moves := starting + [QemuExits(0), Watch, Pump];
  }

  lemma ExitBeforeEvent(a: Sys) returns (s: Sys)
    requires Free(a) && a.link.events == [Some(RESUME)] && !a.link.ended && a.pump == a.watcher == On
    requires a.server.status == Running
    ensures Runs(a, [QemuExits(0), Watch, Pump], s) && s.rc == Some(0) && s.watcher == Ended
    ensures s.server.status == Running && s.server.exitCode == Some(Code(0))
  {
    var b := Do(a, QemuExits(0));
    var c := Do(b, Watch);
    s := Do(c, Pump);
    ThreeMoves(a, QemuExits(0), Watch, Pump);
  }
}
