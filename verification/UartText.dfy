/**
 * The terminal of the web page: each UART's WebSocket cuts its text into lines, and each UART
 * keeps its last 2000 lines.
 */
module UartText {
  import opened Lists

  const KEPT: nat := 2000

  /** The parts of a text with one more character. */
  function Extend(parts: seq<string>, c: char): (r: seq<string>)
    requires parts != []
    ensures r != []
  {
    if c == '\n' then parts + [""] else parts[..|parts| - 1] + [Last(parts) + [c]]
  }

  /** JavaScript's split on the newline: always at least one part. */
  function Split(s: string): (parts: seq<string>)
    ensures parts != []
    ensures forall i | 0 <= i < |parts| :: '\n' !in parts[i]
  {
    if s == "" then [""] else Extend(Split(s[..|s| - 1]), s[|s| - 1])
  }

  lemma SplitStep(s: string, c: char)
    ensures Split(s + [c]) == Extend(Split(s), c)
  {
    assert (s + [c])[..|s|] == s;
  }

  lemma ExtendKeepsPrefix(head: seq<string>, mid: seq<string>, c: char)
    requires mid != []
    ensures Extend(head + mid, c) == head + Extend(mid, c)
  {
    assert (head + mid)[..|head + mid| - 1] == head + mid[..|mid| - 1];
    assert Last(head + mid) == Last(mid);
  }

  function Join(parts: seq<string>): string
    requires parts != []
  {
    if |parts| == 1 then parts[0] else Join(parts[..|parts| - 1]) + "\n" + Last(parts)
  }

  lemma JoinStep(parts: seq<string>, c: char)
    requires parts != []
    ensures Join(Extend(parts, c)) == Join(parts) + [c]
  {
    var r := Extend(parts, c);
    if c == '\n' {
      assert r[..|r| - 1] == parts;
    } else {
      assert r[..|r| - 1] == parts[..|parts| - 1];
    }
  }

  /** Nothing is lost by splitting. */
  lemma {:induction false} JoinSplit(s: string)
    ensures Join(Split(s)) == s
    decreases |s|
  {
    if s != "" {
      var init, c := s[..|s| - 1], s[|s| - 1];
      assert s == init + [c];
      JoinSplit(init);
      JoinStep(Split(init), c);
    }
  }

  lemma {:induction false} SplitOfLine(s: string)
    requires '\n' !in s
    ensures Split(s) == [s]
    decreases |s|
  {
    if s != "" {
      SplitOfLine(s[..|s| - 1]);
      assert s == s[..|s| - 1] + [s[|s| - 1]];
    }
  }

  lemma SplitResumesStep(a: string, head: seq<string>, rest: string, c: char)
    requires Split(a) == head + Split(rest)
    ensures Split(a + [c]) == head + Split(rest + [c])
  {
    SplitStep(a, c);
    SplitStep(rest, c);
    ExtendKeepsPrefix(head, Split(rest), c);
  }

  /** Only the last part of what came before takes part in splitting what comes after. */
  lemma {:induction false} SplitResumes(a: string, b: string)
    ensures Split(a + b) == Split(a)[..|Split(a)| - 1] + Split(Last(Split(a)) + b)
    decreases |b|
  {
    var head, rest := Split(a)[..|Split(a)| - 1], Last(Split(a));
    if b == "" {
      assert a + b == a && rest + b == rest;
      SplitOfLine(rest);
    } else {
      var b', c := b[..|b| - 1], b[|b| - 1];
      SplitResumes(a, b');
      SplitResumesStep(a + b', head, rest + b', c);
      assert (a + b') + [c] == a + b && (rest + b') + [c] == rest + b;
    }
  }

  // ---- the page's state -----------------------------------------------------------------

  /** The value of a JavaScript object's property, with the default the page uses. */
  function Lines(m: map<nat, seq<string>>, n: nat): seq<string> {
    if n in m then m[n] else []
  }

  function Pending(m: map<nat, string>, n: nat): string {
    if n in m then m[n] else ""
  }

  /** pushUart. */
  function Pushed(m: map<nat, seq<string>>, n: nat, text: string): map<nat, seq<string>> {
    m[n := LastN(Lines(m, n) + [text], KEPT)]
  }

  /** The line goes to the end of its own UART's lines, of which the last 2000 are kept. */
  lemma PushedKeepsTheEnd(m: map<nat, seq<string>>, n: nat, text: string)
    ensures var all, kept := Lines(m, n) + [text], Lines(Pushed(m, n, text), n);
      |kept| == (if |all| < 2000 then |all| else 2000) && kept == all[|all| - |kept|..]
    ensures forall k: nat | k != n :: Lines(Pushed(m, n, text), k) == Lines(m, k)
  {
    LastNIsTheEnd(Lines(m, n) + [text], KEPT);
  }

  function PushedAll(m: map<nat, seq<string>>, n: nat, texts: seq<string>): map<nat, seq<string>>
    decreases |texts|
  {
    if texts == [] then m else Pushed(PushedAll(m, n, texts[..|texts| - 1]), n, Last(texts))
  }

  lemma PushedOneMore(m: map<nat, seq<string>>, n: nat, texts: seq<string>, k: nat)
    requires k < |texts|
    ensures PushedAll(m, n, texts[..k + 1]) == Pushed(PushedAll(m, n, texts[..k]), n, texts[k])
  {
    assert texts[..k + 1][..k] == texts[..k];
  }

  class Page {
    var uartLines: map<nat, seq<string>>
    var buf: map<nat, string>  // one buffer per open socket

    constructor ()
      ensures uartLines == map[] && buf == map[]
    {
      uartLines, buf := map[], map[];
    }

    method PushUart(n: nat, text: string)
      modifies this`uartLines
      ensures uartLines == Pushed(old(uartLines), n, text)
    {
      var lines := Lines(uartLines, n) + [text];
      uartLines := uartLines[n := LastN(lines, KEPT)];
    }

    /** onmessage of the socket of UART n. */
    method OnMessage(n: nat, data: string)
      modifies this
      ensures var parts := Split(Pending(old(buf), n) + data);
        && uartLines == PushedAll(old(uartLines), n, parts[..|parts| - 1])
        && buf == old(buf)[n := Last(parts)]
    {
      var parts := Split(Pending(buf, n) + data);
      buf := buf[n := Last(parts)];
      PushEach(n, parts[..|parts| - 1]);
    }

    /** parts.forEach */
    method PushEach(n: nat, texts: seq<string>)
      modifies this`uartLines
      ensures uartLines == PushedAll(old(uartLines), n, texts)
    {
      var k := 0;
      while k < |texts|
        invariant k <= |texts|
        invariant uartLines == PushedAll(old(uartLines), n, texts[..k])
      {
        PushUart(n, texts[k]);
        PushedOneMore(old(uartLines), n, texts, k);
        k := k + 1;
      }
      assert texts[..k] == texts;
    }

    /** onclose: what is left over becomes a last line. */
    method OnClose(n: nat)
      modifies this
      ensures buf == old(buf) - {n}
      ensures uartLines ==
        if Pending(old(buf), n) == "" then old(uartLines) else Pushed(old(uartLines), n, Pending(old(buf), n))
    {
      if Pending(buf, n) != "" {
        PushUart(n, Pending(buf, n));
      }
      buf := buf - {n};
    }
  }

  // ---- every run ------------------------------------------------------------------------

  /**
   * History: per UART, all lines pushed since the terminal was last cleared; and per open socket,
   * all text it has received and all lines it has pushed.
   */
  datatype State = State(
    lines: map<nat, seq<string>>, buf: map<nat, string>,
    since: map<nat, seq<string>>, text: map<nat, string>, cut: map<nat, seq<string>>)

  datatype Event = Frame(n: nat, data: string) | Close(n: nat) | Clear

  const BLANK := State(map[], map[], map[], map[], map[])

  function FrameDone(s: State, n: nat, data: string): State {
    var parts := Split(Pending(s.buf, n) + data);
    var whole := parts[..|parts| - 1];
    State(PushedAll(s.lines, n, whole), s.buf[n := Last(parts)],
          s.since[n := Lines(s.since, n) + whole],
          s.text[n := Pending(s.text, n) + data],
          s.cut[n := Lines(s.cut, n) + whole])
  }

  function CloseDone(s: State, n: nat): State {
    var rest := Pending(s.buf, n);
    State(if rest == "" then s.lines else Pushed(s.lines, n, rest), s.buf - {n},
          if rest == "" then s.since else s.since[n := Lines(s.since, n) + [rest]],
          s.text - {n}, s.cut - {n})
  }

  /** Clearing happens when a session is created or deleted. */
  function Do(s: State, e: Event): State {
    match e
    case Frame(n, data) => FrameDone(s, n, data)
    case Close(n) => CloseDone(s, n)
    case Clear => s.(lines := map[], since := map[])
  }

  ghost predicate Runs(s: State, events: seq<Event>, r: State)
    decreases |events|
  {
    if events == [] then s == r else Runs(Do(s, events[0]), events[1..], r)
  }

  predicate InvAt(s: State, n: nat) {
    && Lines(s.lines, n) == LastN(Lines(s.since, n), KEPT)
    && Split(Pending(s.text, n)) == Lines(s.cut, n) + [Pending(s.buf, n)]
  }

  ghost predicate Inv(s: State) {
    forall n: nat :: InvAt(s, n)
  }

  lemma PushedWindow(m: map<nat, seq<string>>, n: nat, all: seq<string>, text: string)
    requires Lines(m, n) == LastN(all, KEPT)
    ensures Lines(Pushed(m, n, text), n) == LastN(all + [text], KEPT)
  {
    LastNAppend(all, KEPT, text);
  }

  lemma {:induction false} PushedAllWindow(m: map<nat, seq<string>>, n: nat, all: seq<string>, texts: seq<string>)
    requires Lines(m, n) == LastN(all, KEPT)
    ensures Lines(PushedAll(m, n, texts), n) == LastN(all + texts, KEPT)
    decreases |texts|
  {
    if texts == [] {
      assert all + texts == all;
    } else {
      var init, text := texts[..|texts| - 1], Last(texts);
      PushedAllWindow(m, n, all, init);
      PushedWindow(PushedAll(m, n, init), n, all + init, text);
      assert (all + init) + [text] == all + texts;
    }
  }

  lemma {:induction false} PushedAllElsewhere(m: map<nat, seq<string>>, n: nat, texts: seq<string>, k: nat)
    requires k != n
    ensures Lines(PushedAll(m, n, texts), k) == Lines(m, k)
    decreases |texts|
  {
    if texts != [] {
      PushedAllElsewhere(m, n, texts[..|texts| - 1], k);
    }
  }

  lemma SplitOneFrame(text: string, cut: seq<string>, rest: string, data: string)
    requires Split(text) == cut + [rest]
    ensures var parts := Split(rest + data);
      Split(text + data) == (cut + parts[..|parts| - 1]) + [Last(parts)]
  {
    var parts := Split(rest + data);
    SplitResumes(text, data);
    assert (cut + [rest])[..|cut|] == cut;
    assert parts == parts[..|parts| - 1] + [Last(parts)];
    Assoc(cut, parts[..|parts| - 1], [Last(parts)]);
  }

  lemma FrameKeepsInvAt(s: State, n: nat, data: string, k: nat)
    requires InvAt(s, k)
    ensures InvAt(FrameDone(s, n, data), k)
  {
    var parts := Split(Pending(s.buf, n) + data);
    if k == n {
      PushedAllWindow(s.lines, n, Lines(s.since, n), parts[..|parts| - 1]);
      SplitOneFrame(Pending(s.text, n), Lines(s.cut, n), Pending(s.buf, n), data);
    } else {
      PushedAllElsewhere(s.lines, n, parts[..|parts| - 1], k);
    }
  }

  lemma CloseKeepsInvAt(s: State, n: nat, k: nat)
    requires InvAt(s, k)
    ensures InvAt(CloseDone(s, n), k)
  {
    LastNAppend(Lines(s.since, n), KEPT, Pending(s.buf, n));
    assert Split("") == [] + [""];
  }

  lemma {:induction false} RunsKeepInv(s: State, events: seq<Event>, r: State)
    requires Inv(s) && Runs(s, events, r)
    ensures Inv(r)
    decreases |events|
  {
    if events != [] {
      match events[0] {
        case Frame(n, data) =>
          forall k: nat ensures InvAt(FrameDone(s, n, data), k) {
            FrameKeepsInvAt(s, n, data, k);
          }
        case Close(n) =>
          forall k: nat ensures InvAt(CloseDone(s, n), k) {
            CloseKeepsInvAt(s, n, k);
          }
        case Clear =>
          forall k: nat ensures InvAt(Do(s, Clear), k) {
            assert InvAt(s, k);
          }
      }
      RunsKeepInv(Do(s, events[0]), events[1..], r);
    }
  }

  /**
   * However the text of each UART is divided into frames and the frames of the UARTs interleave:
   * the lines pushed for an open socket, then its buffer, are one split of all its text, and the
   * terminal shows the last 2000 lines pushed since it was cleared.
   */
  lemma FramesDoNotMatter(events: seq<Event>, s: State, n: nat)
    requires Runs(BLANK, events, s)
    ensures Lines(s.cut, n) + [Pending(s.buf, n)] == Split(Pending(s.text, n))
    ensures Join(Lines(s.cut, n) + [Pending(s.buf, n)]) == Pending(s.text, n)
    ensures |Lines(s.lines, n)| == if |Lines(s.since, n)| < 2000 then |Lines(s.since, n)| else 2000
    ensures Lines(s.lines, n) == Lines(s.since, n)[|Lines(s.since, n)| - |Lines(s.lines, n)|..]
  {
    assert Split("") == [] + [""];
    RunsKeepInv(BLANK, events, s);
    assert InvAt(s, n);
    JoinSplit(Pending(s.text, n));
    LastNIsTheEnd(Lines(s.since, n), KEPT);
  }

  predicate OnlyFrames(events: seq<Event>) {
    forall i | 0 <= i < |events| :: events[i].Frame?
  }

  /** All that the frames for a UART carry, in order. */
  function TextOf(events: seq<Event>, n: nat): string
    requires OnlyFrames(events)
  {
    if events == [] then ""
    else (if events[0].n == n then events[0].data else "") + TextOf(events[1..], n)
  }

  lemma {:induction false} FramesAddUp(s: State, events: seq<Event>, r: State, n: nat)
    requires OnlyFrames(events) && Runs(s, events, r) && Lines(s.since, n) == Lines(s.cut, n)
    ensures Pending(r.text, n) == Pending(s.text, n) + TextOf(events, n)
    ensures Lines(r.since, n) == Lines(r.cut, n)
    decreases |events|
  {
    if events == [] {
      assert Pending(s.text, n) + "" == Pending(s.text, n);
    } else {
      var t := Do(s, events[0]);
      FramesAddUp(t, events[1..], r, n);
      var data := if events[0].n == n then events[0].data else "";
      Assoc(Pending(s.text, n), data, TextOf(events[1..], n));
      assert Pending(s.text, n) + "" == Pending(s.text, n);
    }
  }

  /** So a terminal shows the last 2000 complete lines of its stream, whatever frames it came in. */
  lemma TerminalShowsTheStream(events: seq<Event>, s: State, n: nat)
    requires OnlyFrames(events) && Runs(BLANK, events, s)
    ensures var parts := Split(TextOf(events, n));
      && var whole := |parts| - 1;
      && Pending(s.buf, n) == parts[whole]
      && Lines(s.lines, n) == if whole <= 2000 then parts[..whole] else parts[whole - 2000..whole]
  {
    FramesDoNotMatter(events, s, n);
    FramesAddUp(BLANK, events, s, n);
    assert "" + TextOf(events, n) == TextOf(events, n);
    var parts := Split(TextOf(events, n));
    assert parts[..|parts| - 1] == Lines(s.since, n);
  }

  /** Closing pushes the remainder if there is one, so the lines pushed are those of the text, less an empty last one. */
  lemma CloseFlushes(events: seq<Event>, s: State, n: nat)
    requires Runs(BLANK, events, s)
    ensures var parts, r := Split(Pending(s.text, n)), Do(s, Close(n));
      && var flushed := if Last(parts) == "" then [] else [Last(parts)];
      && Lines(r.since, n) == Lines(s.since, n) + flushed
      && Lines(s.cut, n) + flushed == (if Last(parts) == "" then parts[..|parts| - 1] else parts)
      && forall k: nat | k != n :: Lines(r.lines, k) == Lines(s.lines, k)
  {
    FramesDoNotMatter(events, s, n);
    var parts := Lines(s.cut, n) + [Pending(s.buf, n)];
    assert parts[..|parts| - 1] == Lines(s.cut, n);
  }
}
