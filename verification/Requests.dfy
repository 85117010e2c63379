/** What becomes of the requests: which are admitted, what they send, and what they answer. */
module Requests {
  import opened Lists
  import opened Qmp
  import opened Server
  import opened Session
  import Convergence
  import Limits

  // ---- admission ------------------------------------------------------------------------

  /** Of a started session exactly one of pause and resume is admitted, and it changes the status. */
  lemma PauseOrResume(v: State)
    requires v.status == Running || v.status == Paused
    ensures Allowed(v, Pause) != Allowed(v, Resume)
    ensures Allowed(v, Pause) ==> v.status == Running && Commit(v, Pause).status == Paused
    ensures Allowed(v, Resume) ==> v.status == Paused && Commit(v, Resume).status == Running
  {
  }

  /** A run in which a start, a pause and a resume are all served; it ends running over a running guest. */
  lemma StartPauseResume() returns (moves: seq<Move>, s: Sys)
    ensures Convergence.TameRun(INITIAL, moves, s) && Limits.Resting(s) && s.server.status == Running && s.guest
    ensures s.tasks == [Task(Start, Done(Some(""))), Task(Pause, Done(Some(""))), Task(Resume, Done(Some("")))]
  {
    var starting, a := Limits.RoundRests(INITIAL, Start);
    var pausing, b := Limits.RoundRests(a, Pause);
    var resuming, c := Limits.RoundRests(b, Resume);
    Limits.TameRunsCompose(a, pausing, b, resuming, c);
    Limits.TameRunsCompose(INITIAL, starting, a, pausing + resuming, c);
    moves, s := starting + (pausing + resuming), c;
    assert s.tasks == b.tasks[..2] + [s.tasks[2]] && b.tasks == a.tasks[..1] + [b.tasks[1]];
  }

  /** A reset sends system_reset; the reply to that ends it, unless the session has exited, and then cont goes out. */
  lemma ResetGoesOnIffExited(s: Sys, t: nat)
    requires Possible(s, Finish(t)) && s.tasks[t].kind == Reset && s.link.responses[0].Return?
    ensures var r := Do(s, Finish(t));
      if s.tasks[t].pc == Sent(SystemReset) && s.server.status == Exited then
        r.tasks[t].pc == Waiting(Cont) && r.server == s.server
      else r.tasks[t].pc == Done(Some(s.link.responses[0].text)) && r.server.status == Running
  {
  }

  /** A RESUME that a session is already aware of, and any event but STOP and RESUME, is passed over in silence. */
  lemma NothingNewIsSaid(s: Sys)
    requires Possible(s, Pump) && s.link.events[0].Some? && s.link.events[0].value != STOP
    requires s.link.events[0].value == RESUME ==> s.server.status == Running
    ensures Do(s, Pump).server == s.server && Do(s, Pump).clients == s.clients
  {
  }

  // ---- started --------------------------------------------------------------------------

  /** The session has a start time exactly from its start on, and so have its two background tasks. */
  predicate StartKnown(s: Sys) {
    && (s.server.started <==> s.server.status != Created)
    && (s.pump != Off || s.watcher != Off ==> s.server.status != Created)
    && (forall t | 0 <= t < |s.tasks| && Convergence.Begun(s.tasks[t]) :: s.server.status != Created)
  }

  lemma DoKeepsStartKnown(s: Sys, move: Move)
    requires StartKnown(s) && Possible(s, move)
    ensures StartKnown(Do(s, move))
  {
    match move
    case Finish(t) => FinishKeepsStartKnown(s, t);
    case _ =>
  }

  lemma FinishKeepsStartKnown(s: Sys, t: nat)
    requires StartKnown(s) && Possible(s, Finish(t))
    ensures StartKnown(Do(s, Finish(t)))
  {
    assert s.tasks[t].kind != Start ==> Convergence.Begun(s.tasks[t]);
  }

  lemma {:induction false} RunsKeepStartKnown(s: Sys, moves: seq<Move>, r: Sys)
    requires StartKnown(s) && Runs(s, moves, r)
    ensures StartKnown(r)
    decreases |moves|
  {
    if moves != [] {
      DoKeepsStartKnown(s, moves[0]);
      RunsKeepStartKnown(Do(s, moves[0]), moves[1..], r);
    }
  }

  lemma StartedIffNotCreated(moves: seq<Move>, s: Sys)
    requires Runs(INITIAL, moves, s)
    ensures s.server.started <==> s.server.status != Created
  {
    RunsKeepStartKnown(INITIAL, moves, s);
  }

  // ---- answers --------------------------------------------------------------------------

  /** What each request may send. */
  predicate Sends(kind: Kind, verb: Verb) {
    match kind
    case Start => verb == Cont
    case Pause => verb == Stop
    case Resume => verb == Cont
    case Reset => verb == SystemReset || verb == Cont
    case Query(line) => verb == HumanMonitor(line)
  }

  /** The k-th command was task t's, and the k-th reply, a success with that text, its answer. */
  predicate Served(l: Link, k: nat, t: nat, kind: Kind, text: string) {
    && k < |l.issued| && k < |l.received|
    && l.issued[k].0 == t && Sends(kind, l.issued[k].1)
    && l.received[k] == (t, Return(text))
  }

  ghost predicate AllServed(s: Sys) {
    forall t | 0 <= t < |s.tasks| && s.tasks[t].pc.Done? && s.tasks[t].pc.text.Some? ::
      exists k: nat :: Served(s.link, k, t, s.tasks[t].kind, s.tasks[t].pc.text.value)
  }

  /** Nothing issued or received is ever taken back. */
  predicate Grows(l: Link, m: Link) {
    l.issued <= m.issued && l.received <= m.received
  }

  lemma DoGrows(s: Sys, move: Move)
    requires Possible(s, move)
    ensures Grows(s.link, Do(s, move).link)
  {
  }

  lemma ServedStays(l: Link, m: Link, k: nat, t: nat, kind: Kind, text: string)
    requires Grows(l, m) && Served(l, k, t, kind, text)
    ensures Served(m, k, t, kind, text)
  {
  }

  /** The reply that ends a task answers the command it sent last. */
  lemma FinishServes(s: Sys, t: nat)
    requires Sound(s) && Possible(s, Finish(t)) && Do(s, Finish(t)).tasks[t].pc.Done?
    requires Do(s, Finish(t)).tasks[t].pc.text.Some?
    ensures var r := Do(s, Finish(t));
      Served(r.link, |s.link.received|, t, s.tasks[t].kind, r.tasks[t].pc.text.value)
  {
  }

  lemma DoKeepsAllServed(s: Sys, move: Move)
    requires Sound(s) && AllServed(s) && Possible(s, move)
    ensures AllServed(Do(s, move))
  {
    var r := Do(s, move);
    DoGrows(s, move);
    forall t | 0 <= t < |r.tasks| && r.tasks[t].pc.Done? && r.tasks[t].pc.text.Some?
      ensures exists k: nat :: Served(r.link, k, t, r.tasks[t].kind, r.tasks[t].pc.text.value)
    {
      if move == Finish(t) {
        FinishServes(s, t);
      } else {
        OthersStay(s, move, t);
        var k: nat :| Served(s.link, k, t, s.tasks[t].kind, s.tasks[t].pc.text.value);
        ServedStays(s.link, r.link, k, t, s.tasks[t].kind, s.tasks[t].pc.text.value);
      }
    }
  }

  lemma OthersStay(s: Sys, move: Move, t: nat)
    requires Possible(s, move) && move != Finish(t) && t < |Do(s, move).tasks|
    requires Do(s, move).tasks[t].pc.Done? && Do(s, move).tasks[t].pc.text.Some?
    ensures t < |s.tasks| && Do(s, move).tasks[t] == s.tasks[t]
  {
  }

  lemma {:induction false} RunsKeepAllServed(s: Sys, moves: seq<Move>, r: Sys)
    requires Sound(s) && AllServed(s) && Runs(s, moves, r)
    ensures Sound(r) && AllServed(r)
    decreases |moves|
  {
    if moves != [] {
      DoKeepsSound(s, moves[0]);
      DoKeepsAllServed(s, moves[0]);
      RunsKeepAllServed(Do(s, moves[0]), moves[1..], r);
    }
  }

  /**
   * In every run, a request that ends in success has sent its own command, a query exactly its line,
   * and answers with the text that QEMU wrote in reply to that command.
   */
  lemma RequestsGetTheirOwnAnswer(moves: seq<Move>, s: Sys, t: nat) returns (k: nat)
    requires Runs(INITIAL, moves, s) && t < |s.tasks| && s.tasks[t].pc.Done? && s.tasks[t].pc.text.Some?
    ensures k < |s.link.issued| && k < |s.link.answered|
    ensures s.link.issued[k].0 == t && Sends(s.tasks[t].kind, s.link.issued[k].1)
    ensures s.link.answered[k] == Return(s.tasks[t].pc.text.value)
  {
    RunsKeepAllServed(INITIAL, moves, s);
    k :| Served(s.link, k, t, s.tasks[t].kind, s.tasks[t].pc.text.value);
    var l := s.link;
    var all := Texts(l.received) + RepliesAhead(l);
    assert all[k] == Texts(l.received)[k] == Return(s.tasks[t].pc.text.value);
  }
}
