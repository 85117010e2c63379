/**
 * The part of a session that its clients can observe: the status fields, the queues of the
 * event subscribers, and the rule by which the web page folds the messages it is sent.
 */
module Server {
  import opened Lists
  import opened Qmp

  datatype Status = Created | Running | Paused | Exited

  datatype ExitCode = Code(n: int) | Fatal

  datatype Message = StatusMsg(status: Status) | ExitMsg(code: int) | FatalMsg

  /** The session fields that request handlers, the event pump and the exit watcher share. */
  datatype State = State(
    status: Status,
    started: bool,
    exitCode: Option<ExitCode>,
    queues: seq<seq<Message>>)

  const NEW := State(Created, false, None, [])

  function Broadcast(queues: seq<seq<Message>>, m: Message): (r: seq<seq<Message>>)
    ensures |r| == |queues| && forall i | 0 <= i < |r| :: r[i] == queues[i] + [m]
  {
    seq(|queues|, i requires 0 <= i < |queues| => queues[i] + [m])
  }

  /** Write the status and tell every subscriber, with no suspension in between. */
  function Enter(v: State, status: Status): State {
    v.(status := status, queues := Broadcast(v.queues, StatusMsg(status)))
  }

  /** One turn of the event pump. */
  function OnEvent(v: State, event: Event): State {
    match event
    case STOP => Enter(v, Paused)
    case RESUME => if v.status != Running then Enter(v, Running) else v
    case _ => v
  }

  /** The exit watcher, once the process is gone. */
  function OnExit(v: State, rc: int): State {
    if v.status == Exited then v
    else if rc == 0 then
      v.(exitCode := Some(Code(0)), status := Exited, queues := Broadcast(v.queues, ExitMsg(0)))
    else
      v.(exitCode := Some(Fatal), status := Exited, queues := Broadcast(v.queues, FatalMsg))
  }

  // ---- requests ----------------------------------------------------------------------

  datatype Kind = Start | Pause | Resume | Reset | Query(line: string)

  /** The guard each handler evaluates before it touches QMP. */
  predicate Allowed(v: State, kind: Kind) {
    match kind
    case Start => v.status == Created
    case Pause => v.status == Running
    case Resume => v.status == Paused
    case Reset => v.status != Created
    case Query(_) => v.status != Created
  }

  function FirstVerb(kind: Kind): Verb {
    match kind
    case Start => Cont
    case Pause => Stop
    case Resume => Cont
    case Reset => SystemReset
    case Query(line) => HumanMonitor(line)
  }

  /** A reset that finds the session exited goes on to send cont. */
  predicate NeedsCont(v: State, kind: Kind, verb: Verb) {
    kind == Reset && verb == SystemReset && v.status == Exited
  }

  /** What a handler does after the successful reply to its last command. */
  function Commit(v: State, kind: Kind): State {
    match kind
    case Start => Enter(v, Running).(started := true)
    case Pause => Enter(v, Paused)
    case Resume => Enter(v, Running)
    case Reset => Enter(v, Running)
    case Query(_) => v
  }

  // ---- the page ----------------------------------------------------------------------

  /** The two session fields that the page keeps up to date from messages. */
  datatype View = View(status: Status, exitCode: Option<ExitCode>)

  function Show(view: View, m: Message): View {
    match m
    case StatusMsg(status) => view.(status := status)
    case ExitMsg(code) => View(Exited, Some(Code(code)))
    case FatalMsg => View(Exited, Some(Fatal))
  }

  function ShowAll(view: View, ms: seq<Message>): View
    decreases |ms|
  {
    if ms == [] then view else ShowAll(Show(view, ms[0]), ms[1..])
  }

  lemma {:induction false} ShowAllAppend(view: View, ms: seq<Message>, m: Message)
    ensures ShowAll(view, ms + [m]) == Show(ShowAll(view, ms), m)
    decreases |ms|
  {
    if ms == [] {
      assert (ms + [m])[1..] == [];
    } else {
      assert (ms + [m])[1..] == ms[1..] + [m];
      ShowAllAppend(Show(view, ms[0]), ms[1..], m);
    }
  }

  /** What a page at `view` with `ms` still to come will show. */
  predicate Replays(v: State, view: View, ms: seq<Message>, codes: bool) {
    && ShowAll(view, ms).status == v.status
    && (codes ==> ShowAll(view, ms).exitCode == v.exitCode)
  }

  /** Any change of the server that is one message to everybody keeps every page on course. */
  lemma BroadcastReplays(v: State, w: State, view: View, ms: seq<Message>, codes: bool, m: Message)
    requires Replays(v, view, ms, codes)
    requires View(w.status, w.exitCode) == Show(View(v.status, v.exitCode), m)
    ensures Replays(w, view, ms + [m], codes)
  {
    ShowAllAppend(view, ms, m);
  }
}
