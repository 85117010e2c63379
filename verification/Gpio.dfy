/**
 * The GPIO bench of the web page: a pin keeps the last 200 changes of its level, and the waveform
 * pane reconstructs the last ten seconds of the signal from them.
 */
module Gpio {
  import opened Lists

  type Level = l: int | 0 <= l <= 1

  datatype Change = Change(t: int, level: Level)

  datatype Direction = In | Out

  datatype Pin = Pin(dir: Direction, level: Level, lastChange: Option<int>, history: seq<Change>)

  const HISTORY: nat := 200

  /** A pin as makeGpio creates it. */
  function NewPin(dir: Direction): Pin {
    Pin(dir, 0, None, [])
  }

  /** _driveGpio on an existing pin. */
  function Drive(pin: Pin, level: Level, t: int): Pin {
    if pin.level == level then pin
    else pin.(level := level, lastChange := Some(t), history := LastN(pin.history + [Change(t, level)], HISTORY))
  }

  class Bench {
    var gpio: seq<Pin>

    constructor (dirs: seq<Direction>)
      ensures |gpio| == |dirs| && forall i | 0 <= i < |dirs| :: gpio[i] == NewPin(dirs[i]) == Pin(dirs[i], 0, None, [])
    {
      gpio := seq(|dirs|, i requires 0 <= i < |dirs| => NewPin(dirs[i]));
    }

    method DriveGpio(idx: int, level: Level, now: int)
      modifies this
      ensures !(0 <= idx < |old(gpio)|) ==> gpio == old(gpio)
      ensures 0 <= idx < |old(gpio)| ==> gpio == old(gpio)[idx := Drive(old(gpio)[idx], level, now)]
      ensures 0 <= idx < |old(gpio)| ==>
        var was, pin := old(gpio)[idx], gpio[idx];
        && pin.dir == was.dir && pin.level == level
        && pin.lastChange == if was.level == level then was.lastChange else Some(now)
    {
      if !(0 <= idx < |gpio|) {
        return;
      }
      var pin := gpio[idx];
      if pin.level == level {
        return;
      }
      var history := pin.history + [Change(now, level)];
      if |history| > HISTORY {
        history := history[|history| - HISTORY..];
      }
      gpio := gpio[idx := Pin(pin.dir, level, Some(now), history)];
    }

    /** The host may only toggle inputs. */
    method ToggleGpio(idx: int, now: int)
      modifies this
      ensures !(0 <= idx < |old(gpio)|) || old(gpio)[idx].dir == Out ==> gpio == old(gpio)
      ensures 0 <= idx < |old(gpio)| && old(gpio)[idx].dir == In ==>
        gpio == old(gpio)[idx := Drive(old(gpio)[idx], 1 - old(gpio)[idx].level, now)]
    {
      if 0 <= idx < |gpio| && gpio[idx].dir == In {
        DriveGpio(idx, 1 - gpio[idx].level, now);
      }
    }
  }

  // ---- the history against the full log of changes --------------------------------------

  /** A pin driven over and over; `log` is every change it ever made. */
  datatype Track = Track(pin: Pin, log: seq<Change>, clock: int)

  datatype Call = Call(level: Level, t: int)

  function Driven(k: Track, call: Call): Track {
    Track(Drive(k.pin, call.level, call.t),
          if k.pin.level == call.level then k.log else k.log + [Change(call.t, call.level)],
          call.t)
  }

  /** Any calls at all, under a clock that never goes back. */
  ghost predicate Runs(k: Track, calls: seq<Call>, r: Track)
    decreases |calls|
  {
    if calls == [] then k == r
    else calls[0].t >= k.clock && Runs(Driven(k, calls[0]), calls[1..], r)
  }

  /** The level goes 1, 0, 1, … from the initial 0, at times that do not decrease. */
  predicate Alternates(log: seq<Change>) {
    forall j | 0 <= j < |log| :: log[j].level == (j + 1) % 2
  }

  predicate Ordered(log: seq<Change>) {
    forall i, j | 0 <= i < j < |log| :: log[i].t <= log[j].t
  }

  predicate Recorded(k: Track) {
    && Alternates(k.log) && Ordered(k.log)
    && (k.log != [] ==> Last(k.log).t <= k.clock)
    && k.pin.level == |k.log| % 2
    && k.pin.history == LastN(k.log, HISTORY)
    && k.pin.lastChange == if k.log == [] then None else Some(Last(k.log).t)
  }

  lemma AlternatesAppend(log: seq<Change>, change: Change)
    requires Alternates(log) && change.level != |log| % 2
    ensures Alternates(log + [change]) && change.level == (|log| + 1) % 2
  {
  }

  lemma OrderedAppend(log: seq<Change>, change: Change)
    requires Ordered(log) && (log != [] ==> Last(log).t <= change.t)
    ensures Ordered(log + [change])
  {
    forall i | 0 <= i < |log|
      ensures log[i].t <= Last(log).t
    {
    }
  }

  lemma DriveKeepsRecorded(k: Track, call: Call)
    requires Recorded(k) && call.t >= k.clock
    ensures Recorded(Driven(k, call))
  {
    var change := Change(call.t, call.level);
    LastNAppend(k.log, HISTORY, change);
    if k.pin.level != call.level {
      AlternatesAppend(k.log, change);
      OrderedAppend(k.log, change);
    }
  }

  lemma {:induction false} RunsKeepRecorded(k: Track, calls: seq<Call>, r: Track)
    requires Recorded(k) && Runs(k, calls, r)
    ensures Recorded(r)
    decreases |calls|
  {
    if calls != [] {
      DriveKeepsRecorded(k, calls[0]);
      RunsKeepRecorded(Driven(k, calls[0]), calls[1..], r);
    }
  }

  /** The calls that find the pin at another level, starting from the given one. */
  function Changes(calls: seq<Call>, level: Level): seq<Change> {
    if calls == [] then []
    else if calls[0].level == level then Changes(calls[1..], level)
    else [Change(calls[0].t, calls[0].level)] + Changes(calls[1..], calls[0].level)
  }

  lemma {:induction false} LogIsTheChanges(k: Track, calls: seq<Call>, r: Track)
    requires Runs(k, calls, r)
    ensures r.log == k.log + Changes(calls, k.pin.level)
    decreases |calls|
  {
    if calls != [] {
      LogIsTheChanges(Driven(k, calls[0]), calls[1..], r);
      if calls[0].level != k.pin.level {
        Assoc(k.log, [Change(calls[0].t, calls[0].level)], Changes(calls[1..], calls[0].level));
      }
    }
  }

  /**
   * A pin driven by any calls under a clock that never goes back: its changes go 1, 0, 1, …, its
   * level is that of the last one, and its history is the last 200 of them, or all if there are fewer.
   */
  lemma HistoryIsTheEndOfTheLog(dir: Direction, clock: int, calls: seq<Call>, r: Track)
    requires Runs(Track(NewPin(dir), [], clock), calls, r)
    ensures Recorded(r) && r.log == Changes(calls, 0)
    ensures forall j | 0 <= j < |r.log| :: r.log[j].level == if j % 2 == 0 then 1 else 0
    ensures r.pin.level == if r.log == [] then 0 else Last(r.log).level
    ensures |r.pin.history| == if |r.log| < 200 then |r.log| else 200
    ensures r.pin.history == r.log[|r.log| - |r.pin.history|..]
  {
    var k := Track(NewPin(dir), [], clock);
    RunsKeepRecorded(k, calls, r);
    LogIsTheChanges(k, calls, r);
    assert [] + Changes(calls, 0) == Changes(calls, 0);
    RecordedIs(r);
    LevelsAlternate(r.log);
  }

  lemma RecordedIs(k: Track)
    requires Recorded(k)
    ensures |k.pin.history| == if |k.log| < 200 then |k.log| else 200
    ensures k.pin.history == k.log[|k.log| - |k.pin.history|..]
  {
    LastNIsTheEnd(k.log, HISTORY);
  }

  lemma LevelsAlternate(log: seq<Change>)
    requires Alternates(log)
    ensures forall j | 0 <= j < |log| :: log[j].level == if j % 2 == 0 then 1 else 0
    ensures |log| % 2 == if log == [] then 0 else Last(log).level
  {
    forall j | 0 <= j < |log|
      ensures log[j].level == if j % 2 == 0 then 1 else 0
    {
      NextParity(j);
    }
    if log != [] {
      NextParity(|log| - 1);
    }
  }

  lemma NextParity(j: nat)
    ensures (j + 1) % 2 == if j % 2 == 0 then 1 else 0
  {
  }

  // ---- the waveform ---------------------------------------------------------------------

  const SPAN: int := 10000
  const WIDTH: real := 380.0
  const HEIGHT: int := 36

  datatype Point = Point(x: real, y: int)

  function XOf(u: real, start: real): real {
    (u - start) / 10000.0 * WIDTH
  }

  function Distance(a: int, b: int): nat {
    if a <= b then b - a else a - b
  }

  /** Inside the picture, and nearer the label "1" at 11 than the label "0" at 35 exactly for level 1. */
  function LevelY(l: Level): (y: int)
    ensures 0 <= y <= 36
    ensures Distance(y, 11) < Distance(y, 35) <==> l == 1
  {
    if l == 1 then 6 else HEIGHT - 6
  }

  /** history.filter: the changes inside the window. */
  function Visible(history: seq<Change>, start: int): seq<Change> {
    if history == [] then []
    else Visible(history[..|history| - 1], start) + if Last(history).t >= start then [Last(history)] else []
  }

  function Initial(events: seq<Change>, level: Level): Level {
    if events == [] then level else 1 - events[0].level
  }

  function LevelAfter(events: seq<Change>, initial: Level): Level {
    if events == [] then initial else Last(events).level
  }

  /** The polyline up to and including the last event. */
  function Corners(events: seq<Change>, initial: Level, start: int): (ps: seq<Point>)
    ensures ps != [] && Last(ps).y == LevelY(LevelAfter(events, initial))
  {
    if events == [] then [Point(0.0, LevelY(initial))]
    else
      var before, ev := events[..|events| - 1], Last(events);
      var x := XOf(ev.t as real, start as real);
      Corners(before, initial, start) + [Point(x, LevelY(LevelAfter(before, initial))), Point(x, LevelY(ev.level))]
  }

  function Polyline(history: seq<Change>, level: Level, now: int): (ps: seq<Point>) {
    var start := now - SPAN;
    var events := Visible(history, start);
    var initial := Initial(events, level);
    Corners(events, initial, start) + [Point(WIDTH, LevelY(LevelAfter(events, initial)))]
  }

  lemma CornersOneMore(events: seq<Change>, initial: Level, start: int, n: nat)
    requires n < |events|
    ensures var x := XOf(events[n].t as real, start as real);
      Corners(events[..n + 1], initial, start) ==
      (Corners(events[..n], initial, start) + [Point(x, LevelY(LevelAfter(events[..n], initial)))]) +
      [Point(x, LevelY(events[n].level))]
    ensures LevelAfter(events[..n + 1], initial) == events[n].level
  {
    assert events[..n + 1][..n] == events[..n];
  }

  /** PinTrace. */
  method PinTrace(history: seq<Change>, level: Level, now: int) returns (points: seq<Point>)
    ensures points == Polyline(history, level, now)
  {
    var start := now - SPAN;
    var events := Visible(history, start);
    var initial: Level := if |events| > 0 then 1 - events[0].level else level;
    var cur := initial;
    points := [Point(0.0, LevelY(cur))];
    var n := 0;
    while n < |events|
      invariant n <= |events|
      invariant points == Corners(events[..n], initial, start)
      invariant cur == LevelAfter(events[..n], initial)
    {
      var x := XOf(events[n].t as real, start as real);
      CornersOneMore(events, initial, start, n);
      points := points + [Point(x, LevelY(cur))];
      points := points + [Point(x, LevelY(events[n].level))];
      cur := events[n].level;
      n := n + 1;
    }
    assert events[..n] == events;
    points := points + [Point(WIDTH, LevelY(cur))];
  }

  // ---- what is drawn at an instant ------------------------------------------------------

  /** The height of the drawn line at x, on the far side of a vertical edge: that of the last point not beyond x. */
  function DrawnY(points: seq<Point>, x: real): int {
    if points == [] then HEIGHT
    else if Last(points).x <= x then Last(points).y
    else DrawnY(points[..|points| - 1], x)
  }

  /** The level of a signal at an instant, from its changes. */
  function LevelAt(events: seq<Change>, initial: Level, u: real): Level {
    if events == [] then initial
    else if Last(events).t as real <= u then Last(events).level
    else LevelAt(events[..|events| - 1], initial, u)
  }

  /** The true level of a pin: it starts at 0. */
  function TrueLevel(log: seq<Change>, u: real): Level {
    LevelAt(log, 0, u)
  }

  lemma XOfOrder(t: real, u: real, start: real)
    ensures XOf(t, start) <= XOf(u, start) <==> t <= u
    ensures start <= u ==> 0.0 <= XOf(u, start)
  {
  }

  lemma DrawnYAppend(points: seq<Point>, p: Point, x: real)
    ensures DrawnY(points + [p], x) == if p.x <= x then p.y else DrawnY(points, x)
  {
    assert (points + [p])[..|points|] == points;
  }

  lemma {:induction false} CornersDrawTheEvents(events: seq<Change>, initial: Level, start: int, u: real)
    requires start as real <= u
    ensures DrawnY(Corners(events, initial, start), XOf(u, start as real)) == LevelY(LevelAt(events, initial, u))
  {
    var x := XOf(u, start as real);
    if events == [] {
      XOfOrder(u, u, start as real);
      DrawnYAppend([], Point(0.0, LevelY(initial)), x);
    } else {
      var before, ev := events[..|events| - 1], Last(events);
      CornersDrawTheEvents(before, initial, start, u);
      XOfOrder(ev.t as real, u, start as real);
      var c := Corners(before, initial, start);
      var p := Point(XOf(ev.t as real, start as real), LevelY(LevelAfter(before, initial)));
      var q := Point(XOf(ev.t as real, start as real), LevelY(ev.level));
      assert c + [p, q] == (c + [p]) + [q];
      DrawnYAppend(c, p, x);
      DrawnYAppend(c + [p], q, x);
    }
  }
}
