/** Exactly when the drawn waveform shows the true level of the pin. */
module Waveform {
  import opened Lists
  import opened Gpio

  /** The changes that the history no longer has. */
  function Hidden(log: seq<Change>): (r: seq<Change>)
    ensures log == r + LastN(log, HISTORY)
  {
    log[..|log| - |LastN(log, HISTORY)|]
  }

  lemma HiddenLength(log: seq<Change>)
    ensures |Hidden(log)| == if |log| < 200 then 0 else |log| - 200
    ensures Hidden(log) == log[..|Hidden(log)|]
  {
    LastNIsTheEnd(log, HISTORY);
  }

  function LaterThan(u: real): Change -> bool {
    (c: Change) => c.t as real > u
  }

  /** The level that the pane shows at an instant of its window. */
  function DrawnAt(k: Track, now: int, u: real): int {
    DrawnY(Polyline(k.pin.history, k.pin.level, now), XOf(u, (now - SPAN) as real))
  }

  /** k entries are at or before u, the others after it. */
  predicate CutAt(log: seq<Change>, u: real, k: nat) {
    && k <= |log|
    && (forall i | 0 <= i < k :: log[i].t as real <= u)
    && (forall i | k <= i < |log| :: log[i].t as real > u)
  }

  lemma {:induction false} FindCut(log: seq<Change>, u: real) returns (k: nat)
    requires Ordered(log)
    ensures CutAt(log, u, k)
  {
    if log == [] {
      k := 0;
    } else if Last(log).t as real <= u {
      k := |log|;
    } else {
      k := FindCut(log[..|log| - 1], u);
    }
  }

  predicate WindowAt(history: seq<Change>, start: int, m: nat) {
    && m <= |history|
    && (forall i | 0 <= i < m :: history[i].t < start)
    && (forall i | m <= i < |history| :: history[i].t >= start)
  }

  lemma {:induction false} FindWindow(history: seq<Change>, start: int) returns (m: nat)
    requires Ordered(history)
    ensures WindowAt(history, start, m)
  {
    if history == [] {
      m := 0;
    } else if Last(history).t < start {
      m := |history|;
    } else {
      m := FindWindow(history[..|history| - 1], start);
    }
  }

  /** The window keeps a suffix of an ordered history. */
  lemma {:induction false} VisibleIsSuffix(history: seq<Change>, start: int, m: nat)
    requires WindowAt(history, start, m)
    ensures Visible(history, start) == history[m..]
    decreases |history|
  {
    if history != [] {
      var before := history[..|history| - 1];
      if m < |history| {
        VisibleIsSuffix(before, start, m);
        assert history[m..] == before[m..] + [Last(history)];
      } else {
        VisibleIsSuffix(before, start, m - 1);
      }
    }
  }

  function Max(a: int, b: int): int {
    if a >= b then a else b
  }

  /** The level from the e-th change on is the parity of the changes so far. */
  lemma {:induction false} LevelIsParity(log: seq<Change>, e: nat, u: real, k: nat)
    requires Alternates(log) && CutAt(log, u, k) && e <= |log|
    ensures LevelAt(log[e..], e % 2, u) == Max(k, e) % 2
    decreases |log|
  {
    if e < |log| {
      var before := log[..|log| - 1];
      assert log[e..][..|log| - e - 1] == before[e..];
      if k < |log| {
        LevelIsParity(before, e, u, k);
      }
    }
  }

  lemma {:induction false} CountAfterCut(a: seq<Change>, u: real, k: nat)
    requires CutAt(a, u, k)
    ensures Count(a, LaterThan(u)) == |a| - k
    decreases |a|
  {
    if a != [] {
      CountAfterCut(a[1..], u, if k > 0 then k - 1 else 0);
    }
  }

  /** The last point of the polyline only matters at the right edge. */
  lemma PolylineDrawsTheEvents(history: seq<Change>, level: Level, now: int, u: real)
    requires now as real - SPAN as real <= u <= now as real
    requires forall i | 0 <= i < |history| :: history[i].t <= now
    ensures var start := now - SPAN;
      var events := Visible(history, start);
      DrawnY(Polyline(history, level, now), XOf(u, start as real)) == LevelY(LevelAt(events, Initial(events, level), u))
  {
    var start := now - SPAN;
    var events := Visible(history, start);
    var initial := Initial(events, level);
    CornersDrawTheEvents(events, initial, start, u);
    DrawnYAppend(Corners(events, initial, start), Point(WIDTH, LevelY(LevelAfter(events, initial))), XOf(u, start as real));
    assert XOf(now as real, start as real) == WIDTH;
    XOfOrder(now as real, u, start as real);
    VisibleNotBeyond(history, start, now);
  }

  lemma {:induction false} VisibleNotBeyond(history: seq<Change>, start: int, now: int)
    requires forall i | 0 <= i < |history| :: history[i].t <= now
    ensures forall i | 0 <= i < |Visible(history, start)| :: Visible(history, start)[i].t <= now
  {
    if history != [] {
      VisibleNotBeyond(history[..|history| - 1], start, now);
    }
  }

  lemma SuffixOrdered(log: seq<Change>, h: nat, clock: int)
    requires Ordered(log) && h <= |log| && (log != [] ==> Last(log).t <= clock)
    ensures Ordered(log[h..])
    ensures forall i | 0 <= i < |log| - h :: log[h..][i].t <= clock
  {
  }

  lemma InitialIsParity(log: seq<Change>, e: nat, level: Level)
    requires Alternates(log) && e <= |log| && level == |log| % 2
    ensures Initial(log[e..], level) == e % 2
  {
    if e < |log| {
      assert log[e..][0] == log[e];
    }
  }

  lemma DropTwice<T>(a: seq<T>, h: nat, m: nat)
    requires h + m <= |a|
    ensures a[h..][m..] == a[h + m..]
    ensures m > 0 ==> a[h..][m - 1] == a[h + m - 1]
  {
  }

  /** What is drawn is the parity of the changes up to u, or up to the first visible one if that is later. */
  lemma DrawnIsParity(k: Track, now: int, u: real, c: nat) returns (e: nat)
    requires Recorded(k) && k.clock <= now && now as real - SPAN as real <= u <= now as real
    requires CutAt(k.log, u, c)
    ensures |Hidden(k.log)| <= e <= |k.log|
    ensures e > |Hidden(k.log)| ==> c >= e
    ensures DrawnAt(k, now, u) == LevelY(Max(c, e) % 2)
  {
    var h, start := |Hidden(k.log)|, now - SPAN;
    HistoryIsSuffix(k);
    var m := FindWindow(k.pin.history, start);
    e := h + m;
    assert DrawnAt(k, now, u) == LevelY(Max(c, e) % 2) by {
      ParityFromWindow(k, now, u, c, h, m);
    }
    assert e > h ==> c >= e by {
      if m > 0 {
        CutReachesWindow(k.log, h, m, start, u, c);
      }
    }
  }

  lemma HistoryIsSuffix(k: Track)
    requires Recorded(k)
    ensures k.pin.history == k.log[|Hidden(k.log)|..] && Ordered(k.pin.history)
    ensures forall i | 0 <= i < |k.pin.history| :: k.pin.history[i].t <= k.clock
  {
    SuffixOrdered(k.log, |Hidden(k.log)|, k.clock);
  }

  /** A change before the window is at or before every instant of it. */
  lemma CutReachesWindow(log: seq<Change>, h: nat, m: nat, start: int, u: real, c: nat)
    requires 0 < m && h + m <= |log| && WindowAt(log[h..], start, m)
    requires CutAt(log, u, c) && start as real <= u
    ensures c >= h + m
  {
    DropTwice(log, h, m);
    assert log[h + m - 1].t < start;
    assert (log[h + m - 1].t as real) < start as real;
  }

  lemma ParityFromWindow(k: Track, now: int, u: real, c: nat, h: nat, m: nat)
    requires Alternates(k.log) && CutAt(k.log, u, c) && k.pin.level == |k.log| % 2
    requires now as real - SPAN as real <= u <= now as real
    requires h + m <= |k.log| && k.pin.history == k.log[h..] && WindowAt(k.pin.history, now - SPAN, m)
    requires forall i | 0 <= i < |k.pin.history| :: k.pin.history[i].t <= now
    ensures DrawnAt(k, now, u) == LevelY(Max(c, h + m) % 2)
  {
    var events := k.log[h + m..];
    assert Visible(k.pin.history, now - SPAN) == events by {
      VisibleIsSuffix(k.pin.history, now - SPAN, m);
      DropTwice(k.log, h, m);
    }
    assert Initial(events, k.pin.level) == (h + m) % 2 by {
      InitialIsParity(k.log, h + m, k.pin.level);
    }
    assert LevelAt(events, (h + m) % 2, u) == Max(c, h + m) % 2 by {
      LevelIsParity(k.log, h + m, u, c);
    }
    DrawnFromEvents(k, now, u, events, (h + m) % 2);
  }

  lemma DrawnFromEvents(k: Track, now: int, u: real, events: seq<Change>, initial: Level)
    requires now as real - SPAN as real <= u <= now as real
    requires forall i | 0 <= i < |k.pin.history| :: k.pin.history[i].t <= now
    requires Visible(k.pin.history, now - SPAN) == events && Initial(events, k.pin.level) == initial
    ensures DrawnAt(k, now, u) == LevelY(LevelAt(events, initial, u))
  {
    PolylineDrawsTheEvents(k.pin.history, k.pin.level, now, u);
  }

  /**
   * At every instant of its window the pane shows the true level of the pin if and only if the
   * number of later changes that have dropped out of the history is even.
   */
  lemma DrawnIsTrueIffHiddenLaterIsEven(k: Track, now: int, u: real)
    requires Recorded(k) && k.clock <= now && now as real - SPAN as real <= u <= now as real
    ensures DrawnAt(k, now, u) == LevelY(TrueLevel(k.log, u)) <==> Count(Hidden(k.log), LaterThan(u)) % 2 == 0
  {
    var c := FindCut(k.log, u);
    var e := DrawnIsParity(k, now, u, c);
    assert k.log[0..] == k.log;
    LevelIsParity(k.log, 0, u, c);
    var h := |Hidden(k.log)|;
    CountAfterCut(Hidden(k.log), u, if c < h then c else h);
    ParityOfHidden(c, e, h);
  }

  lemma ParityOfHidden(c: nat, e: nat, h: nat)
    requires h <= e && (e > h ==> c >= e)
    ensures LevelY(Max(c, e) % 2) == LevelY(c % 2) <==> (h - if c < h then c else h) % 2 == 0
  {
    assert Max(c, e) == c + (h - if c < h then c else h);
  }

  /** No change after u was dropped. */
  predicate NothingMissing(k: Track, now: int, u: real) {
    || (forall i | 0 <= i < |Hidden(k.log)| :: Hidden(k.log)[i].t < now - SPAN)
    || (k.pin.history != [] && k.pin.history[0].t as real <= u)
  }

  lemma HiddenIsEarlier(k: Track, now: int, u: real)
    requires Recorded(k) && now as real - SPAN as real <= u && NothingMissing(k, now, u)
    ensures Count(Hidden(k.log), LaterThan(u)) == 0
  {
    var hidden := Hidden(k.log);
    forall i | 0 <= i < |hidden|
      ensures hidden[i].t as real <= u
    {
      if !(forall j | 0 <= j < |hidden| :: hidden[j].t < now - SPAN) {
        assert k.log[i] == hidden[i] && k.log[|hidden|] == k.pin.history[0];
      }
    }
    CountAfterCut(hidden, u, |hidden|);
  }

  /** In particular when no change inside the window was dropped, and from the first retained change on. */
  lemma DrawnIsTrueWhereNothingIsMissing(k: Track, now: int, u: real)
    requires Recorded(k) && k.clock <= now && now as real - SPAN as real <= u <= now as real
    requires NothingMissing(k, now, u)
    ensures DrawnAt(k, now, u) == LevelY(TrueLevel(k.log, u))
    ensures Distance(DrawnAt(k, now, u), 11) < Distance(DrawnAt(k, now, u), 35) <==> TrueLevel(k.log, u) == 1
  {
    HiddenIsEarlier(k, now, u);
    DrawnIsTrueIffHiddenLaterIsEven(k, now, u);
  }

  /**
   * What the user sees: at every instant of the last ten seconds, scaled to 380 units, the line is
   * inside the picture, which is 36 units high, and nearer the label "1" at 11 than the label "0"
   * at 35, as the true level has it, if and only if the same number is even.
   */
  lemma DrawnNearTheTrueLabel(k: Track, now: int, u: real)
    requires Recorded(k) && k.clock <= now && now as real - 10000.0 <= u <= now as real
    ensures var y := DrawnY(Polyline(k.pin.history, k.pin.level, now), (u - (now as real - 10000.0)) * 380.0 / 10000.0);
      && 0 <= y <= 36
      && ((Distance(y, 11) < Distance(y, 35) <==> TrueLevel(k.log, u) == 1) <==>
          Count(Hidden(k.log), LaterThan(u)) % 2 == 0)
  {
    DrawnIsTrueIffHiddenLaterIsEven(k, now, u);
    assert (u - (now as real - 10000.0)) * 380.0 / 10000.0 == XOf(u, (now - SPAN) as real);
    var c := FindCut(k.log, u);
    var e := DrawnIsParity(k, now, u, c);
  }

  /** The level goes 0 before the first change, and after each change is that change's. */
  lemma TrueLevelIs(log: seq<Change>, u: real, c: nat)
    requires Alternates(log) && CutAt(log, u, c)
    ensures TrueLevel(log, u) == if c == 0 then 0 else log[c - 1].level
  {
    assert log[0..] == log;
    LevelIsParity(log, 0, u, c);
  }

  /** The line has only horizontal and vertical pieces, so between its corners it is at one of the two levels. */
  lemma {:induction false} CornersAreSquare(events: seq<Change>, initial: Level, start: int)
    ensures Square(Corners(events, initial, start))
  {
    if events != [] {
      var before, ev := events[..|events| - 1], Last(events);
      var c, x := Corners(before, initial, start), XOf(ev.t as real, start as real);
      CornersAreSquare(before, initial, start);
      SquareAppend(c, Point(x, LevelY(LevelAfter(before, initial))), Point(x, LevelY(ev.level)));
    }
  }

  predicate Square(ps: seq<Point>) {
    forall i | 0 <= i < |ps| - 1 :: ps[i].y == ps[i + 1].y || ps[i].x == ps[i + 1].x
  }

  lemma SquareAppend(c: seq<Point>, p: Point, q: Point)
    requires c != [] && Square(c) && Last(c).y == p.y && p.x == q.x
    ensures Square(c + [p, q])
  {
    var ps := c + [p, q];
    forall i | 0 <= i < |ps| - 1
      ensures ps[i].y == ps[i + 1].y || ps[i].x == ps[i + 1].x
    {
      if i < |c| - 1 {
        assert ps[i] == c[i] && ps[i + 1] == c[i + 1];
      }
    }
  }

  lemma PolylineIsSquare(history: seq<Change>, level: Level, now: int)
    ensures var ps := Polyline(history, level, now);
      ps[0].x == 0.0 && Last(ps).x == 380.0 && Square(ps)
  {
    var start := now - SPAN;
    var events := Visible(history, start);
    CornersAreSquare(events, Initial(events, level), start);
    CornersStartAtTheEdge(events, Initial(events, level), start);
  }

  lemma {:induction false} CornersStartAtTheEdge(events: seq<Change>, initial: Level, start: int)
    ensures Corners(events, initial, start)[0].x == 0.0
  {
    if events != [] {
      CornersStartAtTheEdge(events[..|events| - 1], initial, start);
    }
  }
}
