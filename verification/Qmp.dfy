/**
 * One QMP connection: the socket in both directions, the reader loop that splits what QEMU
 * writes into an event queue and a response queue, and the lock that serializes commands.
 * A step is the code between two suspension points of the adapter, or one move of QEMU.
 */
module Qmp {
  import opened Lists

  datatype Event = STOP | RESUME | SHUTDOWN | RESET | OTHER(name: string)

  datatype Verb = Stop | Cont | SystemReset | HumanMonitor(line: string)

  datatype Reply = Return(text: string) | Failure(desc: string)

  datatype Line = EventLine(event: Event) | ReplyLine(reply: Reply)

  const DISCONNECTED := Failure("QMP disconnected")

  /** The last six fields are history: they record what happened and decide nothing. */
  datatype Link = Link(
    outbox: seq<Verb>,            // commands written and not yet answered by QEMU
    inbox: seq<Line>,             // lines QEMU wrote and the reader has not taken
    open: bool,                   // QEMU still holds its end of the socket
    reading: bool,                // the reader loop has not met end of file
    events: seq<Option<Event>>,   // the event queue; None is its end marker
    responses: seq<Reply>,        // the response queue
    holder: Option<nat>,          // the task inside the command lock
    issued: seq<(nat, Verb)>,     // commands in the order they took the lock, with their task
    answered: seq<Reply>,         // replies in the order QEMU wrote them
    received: seq<(nat, Reply)>,  // replies in the order tasks took them, with that task
    emitted: seq<Event>,          // events in the order QEMU wrote them
    consumed: seq<Event>,         // events in the order the consumer saw them
    ended: bool                   // the consumer has seen the end marker
  )

  const CONNECTED := Link([], [], true, true, [], [], None, [], [], [], [], [], false)

  datatype Step =
    | Issue(task: nat, verb: Verb)
    | Answer(reply: Reply)
    | Emit(event: Event)
    | Hangup
    | ReadLine
    | ReadEof
    | TakeReply
    | TakeEvent

  predicate Enabled(l: Link, step: Step) {
    match step
    case Issue(_, _) => l.holder.None?
    case Answer(_) => l.open && l.outbox != []
    case Emit(_) => l.open
    case Hangup => l.open
    case ReadLine => l.reading && l.inbox != []
    case ReadEof => l.reading && l.inbox == [] && !l.open
    case TakeReply => l.holder.Some? && l.responses != []
    case TakeEvent => !l.ended && l.events != []
  }

  function Advance(l: Link, step: Step): (r: Link)
    requires Enabled(l, step)
  {
    match step
    case Issue(task, verb) =>
      l.(outbox := l.outbox + [verb], holder := Some(task), issued := l.issued + [(task, verb)])
    case Answer(reply) =>
      l.(outbox := l.outbox[1..], inbox := l.inbox + [ReplyLine(reply)], answered := l.answered + [reply])
    case Emit(event) =>
      l.(inbox := l.inbox + [EventLine(event)], emitted := l.emitted + [event])
    case Hangup =>
      l.(open := false)
    case ReadLine =>
      (match l.inbox[0]
       case EventLine(event) => l.(inbox := l.inbox[1..], events := l.events + [Some(event)])
       case ReplyLine(reply) => l.(inbox := l.inbox[1..], responses := l.responses + [reply]))
    case ReadEof =>
      l.(reading := false, events := l.events + [None], responses := l.responses + [DISCONNECTED])
    case TakeReply =>
      l.(responses := l.responses[1..], holder := None,
         received := l.received + [(l.holder.value, l.responses[0])])
    case TakeEvent =>
      if l.events[0].None? then l.(events := l.events[1..], ended := true)
      else l.(events := l.events[1..], consumed := l.consumed + [l.events[0].value])
  }

  // ---- what is on its way ------------------------------------------------------------

  function EventsIn(lines: seq<Line>): seq<Event> {
    if lines == [] then []
    else if lines[0].EventLine? then [lines[0].event] + EventsIn(lines[1..])
    else EventsIn(lines[1..])
  }

  function RepliesIn(lines: seq<Line>): seq<Reply> {
    if lines == [] then []
    else if lines[0].ReplyLine? then [lines[0].reply] + RepliesIn(lines[1..])
    else RepliesIn(lines[1..])
  }

  lemma {:induction false} LinesConcat(a: seq<Line>, b: seq<Line>)
    ensures EventsIn(a + b) == EventsIn(a) + EventsIn(b)
    ensures RepliesIn(a + b) == RepliesIn(a) + RepliesIn(b)
  {
    if a == [] {
      assert a + b == b;
    } else {
      var t := a[1..];
      assert (a + b)[1..] == t + b;
      LinesConcat(t, b);
      match a[0]
      case EventLine(event) => Assoc([event], EventsIn(t), EventsIn(b));
      case ReplyLine(reply) => Assoc([reply], RepliesIn(t), RepliesIn(b));
    }
  }

  lemma LinesAppend(a: seq<Line>, line: Line)
    ensures EventsIn(a + [line]) == EventsIn(a) + (if line.EventLine? then [line.event] else [])
    ensures RepliesIn(a + [line]) == RepliesIn(a) + (if line.ReplyLine? then [line.reply] else [])
  {
    LinesConcat(a, [line]);
    assert [line][1..] == [];
  }

  /** Replies between QEMU and the tasks: in the response queue or still on the wire. */
  function RepliesAhead(l: Link): seq<Reply> {
    l.responses + RepliesIn(l.inbox)
  }

  /** Events between QEMU and the consumer. */
  function EventsAhead(l: Link): seq<Event> {
    Somes(l.events) + EventsIn(l.inbox)
  }

  lemma ReadKeepsAhead(l: Link)
    requires Enabled(l, ReadLine)
    ensures RepliesAhead(Advance(l, ReadLine)) == RepliesAhead(l)
    ensures EventsAhead(Advance(l, ReadLine)) == EventsAhead(l)
  {
    if l.inbox[0].EventLine? {
      SomesConcat(l.events, [Some(l.inbox[0].event)]);
    }
  }

  // ---- the invariant -----------------------------------------------------------------

  predicate Commands(l: Link) {
    && |l.issued| == |l.received| + (if l.holder.Some? then 1 else 0)
    && |l.issued| == |l.answered| + |l.outbox|
    && (forall k | 0 <= k < |l.received| :: l.received[k].0 == l.issued[k].0)
    && (l.holder.Some? ==> Last(l.issued).0 == l.holder.value)
    && (forall k | 0 <= k < |l.outbox| :: l.outbox[k] == l.issued[|l.answered| + k].1)
  }

  function Texts(received: seq<(nat, Reply)>): (r: seq<Reply>)
    ensures |r| == |received|
    ensures forall k | 0 <= k < |r| :: r[k] == received[k].1
  {
    seq(|received|, k requires 0 <= k < |received| => received[k].1)
  }

  predicate Replies(l: Link) {
    && Texts(l.received) + RepliesAhead(l) == l.answered + (if l.reading then [] else [DISCONNECTED])
    && (!l.reading ==> l.inbox == [] && !l.open)
  }

  predicate EventsKept(l: Link) {
    l.emitted == l.consumed + EventsAhead(l)
  }

  predicate EndMarker(l: Link) {
    && (l.ended ==> !l.reading && l.events == [])
    && (!l.ended && !l.reading ==> l.events != [] && Last(l.events).None?)
    && (forall i | 0 <= i < |l.events| - (if l.reading then 0 else 1) :: l.events[i].Some?)
  }

  predicate Inv(l: Link) {
    Commands(l) && Replies(l) && EventsKept(l) && EndMarker(l)
  }

  lemma IssueKeepsCommands(l: Link, task: nat, verb: Verb)
    requires Commands(l) && Enabled(l, Issue(task, verb))
    ensures Commands(Advance(l, Issue(task, verb)))
  {
  }

  lemma AnswerKeepsCommands(l: Link, reply: Reply)
    requires Commands(l) && Enabled(l, Answer(reply))
    ensures Commands(Advance(l, Answer(reply)))
  {
  }

  lemma TakeReplyKeepsCommands(l: Link)
    requires Commands(l) && Enabled(l, TakeReply)
    ensures Commands(Advance(l, TakeReply))
  {
  }

  lemma AdvanceKeepsCommands(l: Link, step: Step)
    requires Commands(l) && Enabled(l, step)
    ensures Commands(Advance(l, step))
  {
    match step
    case Issue(task, verb) => IssueKeepsCommands(l, task, verb);
    case Answer(reply) => AnswerKeepsCommands(l, reply);
    case TakeReply => TakeReplyKeepsCommands(l);
    case _ =>
  }

  lemma AnswerKeepsReplies(l: Link, reply: Reply)
    requires Replies(l) && Enabled(l, Answer(reply))
    ensures Replies(Advance(l, Answer(reply)))
  {
    var n := Advance(l, Answer(reply));
    LinesAppend(l.inbox, ReplyLine(reply));
    Assoc(l.responses, RepliesIn(l.inbox), [reply]);
    Assoc(Texts(l.received), RepliesAhead(l), [reply]);
    assert RepliesAhead(n) == RepliesAhead(l) + [reply];
  }

  lemma EofKeepsReplies(l: Link)
    requires Replies(l) && Enabled(l, ReadEof)
    ensures Replies(Advance(l, ReadEof))
  {
    assert RepliesAhead(l) == l.responses && RepliesAhead(Advance(l, ReadEof)) == l.responses + [DISCONNECTED];
    Assoc(Texts(l.received), l.responses, [DISCONNECTED]);
    assert l.answered + [] == l.answered;
  }

  lemma TakeReplyKeepsReplies(l: Link)
    requires Replies(l) && Enabled(l, TakeReply)
    ensures Replies(Advance(l, TakeReply))
  {
    var n := Advance(l, TakeReply);
    HeadFirst(l.responses, RepliesIn(l.inbox));
    assert Texts(n.received) == Texts(l.received) + [l.responses[0]];
    Assoc(Texts(l.received), [l.responses[0]], RepliesAhead(n));
  }

  lemma AdvanceKeepsReplies(l: Link, step: Step)
    requires Replies(l) && Enabled(l, step)
    ensures Replies(Advance(l, step))
  {
    match step
    case Answer(reply) => AnswerKeepsReplies(l, reply);
    case Emit(event) => LinesAppend(l.inbox, EventLine(event));
    case ReadLine => ReadKeepsAhead(l);
    case ReadEof => EofKeepsReplies(l);
    case TakeReply => TakeReplyKeepsReplies(l);
    case _ =>
  }

  lemma AdvanceKeepsEvents(l: Link, step: Step)
    requires EventsKept(l) && Enabled(l, step)
    ensures EventsKept(Advance(l, step))
  {
    var n := Advance(l, step);
    match step
    case Answer(reply) => LinesAppend(l.inbox, ReplyLine(reply));
    case Emit(event) =>
      LinesAppend(l.inbox, EventLine(event));
      assert n.consumed + EventsAhead(n) == (l.consumed + EventsAhead(l)) + [event];
    case ReadLine => ReadKeepsAhead(l);
    case ReadEof => SomesConcat(l.events, [None]);
    case TakeEvent =>
      if l.events[0].Some? {
        var e := l.events[0].value;
        Assoc([e], Somes(n.events), EventsIn(n.inbox));
        Assoc(l.consumed, [e], EventsAhead(n));
      }
    case _ =>
  }

  lemma AdvanceKeepsEndMarker(l: Link, step: Step)
    requires EndMarker(l) && Replies(l) && Enabled(l, step)
    ensures EndMarker(Advance(l, step))
  {
  }

  lemma AdvanceKeepsInv(l: Link, step: Step)
    requires Inv(l) && Enabled(l, step)
    ensures Inv(Advance(l, step))
  {
    AdvanceKeepsCommands(l, step);
    AdvanceKeepsReplies(l, step);
    AdvanceKeepsEvents(l, step);
    AdvanceKeepsEndMarker(l, step);
  }

  // ---- every run ---------------------------------------------------------------------

  ghost predicate LinkRuns(l: Link, steps: seq<Step>, r: Link)
    decreases |steps|
  {
    if steps == [] then l == r
    else Enabled(l, steps[0]) && LinkRuns(Advance(l, steps[0]), steps[1..], r)
  }

  lemma {:induction false} LinkRunsKeepInv(l: Link, steps: seq<Step>, r: Link)
    requires Inv(l) && LinkRuns(l, steps, r)
    ensures Inv(r)
    decreases |steps|
  {
    if steps != [] {
      AdvanceKeepsInv(l, steps[0]);
      LinkRunsKeepInv(Advance(l, steps[0]), steps[1..], r);
    }
  }

  /**
   * Wherever QEMU puts events among its replies: the k-th task to take the lock is the k-th to
   * get a reply and gets the k-th reply QEMU wrote, or the end-of-file error once those run out;
   * and while QEMU has not hung up, at most one command is anywhere between the two.
   */
  lemma RepliesPairUp(steps: seq<Step>, l: Link, k: nat)
    requires LinkRuns(CONNECTED, steps, l) && k < |l.received|
    ensures k < |l.issued| && l.received[k].0 == l.issued[k].0
    ensures k <= |l.answered|
    ensures l.received[k].1 == if k < |l.answered| then l.answered[k] else DISCONNECTED
    ensures k == |l.answered| ==> !l.open
  {
    LinkRunsKeepInv(CONNECTED, steps, l);
    assert Texts(l.received)[k] == (Texts(l.received) + RepliesAhead(l))[k];
  }

  /**
   * Until end of file at most one command is between the lock and its reply, the lock holder's.
   * After end of file the holder finds the disconnect error or the last reply before it, unless an
   * earlier command has taken the error already.
   */
  lemma OneCommandOutstanding(steps: seq<Step>, l: Link)
    requires LinkRuns(CONNECTED, steps, l)
    ensures l.reading ==> |l.outbox| + |RepliesAhead(l)| == if l.holder.Some? then 1 else 0
    ensures l.holder.Some? ==> l.issued != [] && Last(l.issued).0 == l.holder.value
    ensures !l.reading && l.holder.Some? ==> |l.outbox| <= 2 && |l.responses| == 2 - |l.outbox|
    ensures !l.reading && l.responses != [] ==> Last(l.responses) == DISCONNECTED
    ensures !l.reading && l.holder.Some? && l.responses == [] ==> DISCONNECTED in Texts(l.received)
  {
    LinkRunsKeepInv(CONNECTED, steps, l);
    var all := Texts(l.received) + RepliesAhead(l);
    assert |all| == |l.received| + |RepliesAhead(l)|;
    if !l.reading {
      assert RepliesAhead(l) == l.responses;
      assert Last(all) == DISCONNECTED;
    }
  }

  /** Such a later command is never answered: its task keeps the lock for good. */
  lemma {:induction false} SecondCommandWaitsForever(l: Link, steps: seq<Step>, r: Link)
    requires Inv(l) && !l.reading && l.holder.Some? && l.responses == [] && LinkRuns(l, steps, r)
    ensures r.holder == l.holder && r.responses == []
    decreases |steps|
  {
    if steps != [] {
      AdvanceKeepsInv(l, steps[0]);
      SecondCommandWaitsForever(Advance(l, steps[0]), steps[1..], r);
    }
  }

  /**
   * The consumer sees the events in the order QEMU wrote them, and it has missed none once the
   * stream ends. After end of file the end marker is there to be met.
   */
  lemma EventsInWireOrder(steps: seq<Step>, l: Link)
    requires LinkRuns(CONNECTED, steps, l)
    ensures l.consumed <= l.emitted
    ensures l.ended ==> l.consumed == l.emitted
    ensures !l.reading && !l.ended ==> l.events != [] && Last(l.events).None?
  {
    LinkRunsKeepInv(CONNECTED, steps, l);
  }
}
