/**
 * A printed register dump, in any order of its parts and for any number of CPUs, and the proof
 * that the adapter's reader gets every register of the CPU it is asked for.
 */
module RegisterPrint {
  import opened Lists
  import opened Hex
  import opened Text
  import opened RegisterDump

  // ---- what a dump is made of -----------------------------------------------------------

  /** `name: value`, a line of eight window registers, or text of no interest; then some separator. */
  datatype Seg =
    | Plain(text: string)
    | Scalar(name: string, value: nat, after: string)
    | Window(c: char, values: seq<nat>, after: string)

  predicate IsName(name: string) {
    name == "pc" || name == "npc" || name == "psr" || name == "y" || name == "wim" || name == "tbr"
  }

  predicate IsWindow(c: char) {
    c == 'g' || c == 'o' || c == 'l' || c == 'i'
  }

  function Spaced(vs: seq<nat>): string {
    if vs == [] then "" else " " + (Padded(vs[0], 8) + Spaced(vs[1..]))
  }

  function SegText(seg: Seg): string {
    match seg
    case Plain(text) => text
    case Scalar(name, v, after) => name + (": " + (Padded(v, 8) + after))
    case Window(c, vs, after) => WindowMark(c) + (Spaced(vs) + after)
  }

  function Texts(segs: seq<Seg>): (ts: seq<string>) {
    seq(|segs|, k requires 0 <= k < |segs| => SegText(segs[k]))
  }

  function BlockText(segs: seq<Seg>): string {
    Joined(Texts(segs))
  }

  /** A name could be taken to start at k: a word may begin there, and the letters do not disagree within w. */
  predicate CouldStart(w: string, k: nat, name: string)
    requires k < |w| && name != ""
  {
    && w[k] == name[0]
    && !(k > 0 && IsWord(w[k - 1]))
    && !(|name| > 1 && k + 1 < |w| && w[k + 1] != name[1])
  }

  predicate NoStart(w: string, name: string)
    requires name != ""
  {
    forall k | 0 <= k < |w| :: !CouldStart(w, k, name)
  }

  predicate NoMark(w: string, c: char) {
    forall k | 0 <= k < |w| && w[k] == '%' :: k + 1 < |w| && w[k + 1] != c
  }

  predicate NoHeader(w: string) {
    forall k | 0 <= k < |w| && w[k] == 'C' :: k + 1 < |w| && w[k + 1] != 'P'
  }

  /** Text that could not be mistaken for anything, up to where a new word may begin. */
  predicate Quiet(w: string) {
    && w != "" && !IsWord(Last(w))
    && NoStart(w, "pc") && NoStart(w, "npc") && NoStart(w, "psr")
    && NoStart(w, "y") && NoStart(w, "wim") && NoStart(w, "tbr")
    && NoMark(w, 'g') && NoMark(w, 'o') && NoMark(w, 'l') && NoMark(w, 'i')
    && NoHeader(w)
  }

  predicate SegOk(seg: Seg) {
    match seg
    case Plain(text) => Quiet(text)
    case Scalar(name, v, after) => IsName(name) && v < 0x1_0000_0000 && Quiet(after) && !IsHexDigit(after[0])
    case Window(c, vs, after) =>
      && IsWindow(c) && |vs| == 8 && (forall k | 0 <= k < 8 :: vs[k] < 0x1_0000_0000)
      && Quiet(after) && !IsHexDigit(after[0])
  }

  predicate BlockOk(segs: seq<Seg>) {
    forall k | 0 <= k < |segs| :: SegOk(segs[k])
  }

  // ---- nothing starts where it should not -----------------------------------------------

  lemma NoStartConcat(a: string, b: string, name: string)
    requires name != "" && NoStart(a, name) && NoStart(b, name)
    ensures NoStart(a + b, name)
  {
    var w := a + b;
    forall k | 0 <= k < |w|
      ensures !CouldStart(w, k, name)
    {
      if k < |a| {
        assert !CouldStart(a, k, name);
        assert w[k] == a[k] && (k > 0 ==> w[k - 1] == a[k - 1]) && (k + 1 < |a| ==> w[k + 1] == a[k + 1]);
      } else {
        var j := k - |a|;
        assert !CouldStart(b, j, name);
        assert w[k] == b[j] && (j > 0 ==> w[k - 1] == b[j - 1]) && (j + 1 < |b| ==> w[k + 1] == b[j + 1]);
      }
    }
  }

  lemma NoMarkConcat(a: string, b: string, c: char)
    requires NoMark(a, c) && NoMark(b, c)
    ensures NoMark(a + b, c)
  {
    var w := a + b;
    forall k | 0 <= k < |w| && w[k] == '%'
      ensures k + 1 < |w| && w[k + 1] != c
    {
      if k < |a| {
        assert a[k] == w[k];
        assert k + 1 < |a| ==> a[k + 1] == w[k + 1];
      } else {
        assert b[k - |a|] == w[k];
        assert k - |a| + 1 < |b| ==> b[k - |a| + 1] == w[k + 1];
      }
    }
  }

  lemma NoHeaderConcat(a: string, b: string)
    requires NoHeader(a) && NoHeader(b)
    ensures NoHeader(a + b)
  {
    var w := a + b;
    forall k | 0 <= k < |w| && w[k] == 'C'
      ensures k + 1 < |w| && w[k + 1] != 'P'
    {
      if k < |a| {
        assert a[k] == w[k];
        assert k + 1 < |a| ==> a[k + 1] == w[k + 1];
      } else {
        assert b[k - |a|] == w[k];
        assert k - |a| + 1 < |b| ==> b[k - |a| + 1] == w[k + 1];
      }
    }
  }

  /** Hex digits as printed, spaces, colons, and the marks of windows. */
  predicate Dull(w: string) {
    forall k | 0 <= k < |w| ::
      '0' <= w[k] <= '9' || 'a' <= w[k] <= 'f' || w[k] == ' ' || w[k] == ':' || w[k] == '-'
  }

  lemma DullConcat(a: string, b: string)
    requires Dull(a) && Dull(b)
    ensures Dull(a + b)
  {
  }

  lemma DullIsQuiet(w: string, name: string, c: char)
    requires Dull(w) && IsName(name)
    ensures NoStart(w, name) && NoMark(w, c) && NoHeader(w)
  {
    assert name[0] > 'f';
  }

  lemma {:induction false} SpacedIsDull(vs: seq<nat>)
    ensures Dull(Spaced(vs))
  {
    if vs != [] {
      SpacedIsDull(vs[1..]);
      DullConcat(Padded(vs[0], 8), Spaced(vs[1..]));
      DullConcat(" ", Padded(vs[0], 8) + Spaced(vs[1..]));
    }
  }

  /** In particular npc is not taken for pc. */
  lemma NameIsNotAnother(m: string, name: string)
    requires IsName(m) && IsName(name) && m != name
    ensures NoStart(m, name)
  {
  }

  lemma NameIsNoMark(m: string, c: char)
    requires IsName(m)
    ensures NoMark(m, c) && NoHeader(m)
  {
  }

  lemma MarkIsNoName(c: char, name: string)
    requires IsWindow(c) && IsName(name)
    ensures NoStart(WindowMark(c), name) && NoHeader(WindowMark(c))
  {
    var w := WindowMark(c);
    assert w == ['%', c, '0', '-', '7', ':'];
  }

  lemma MarkIsNotAnother(d: char, c: char)
    requires d != c && IsWindow(d)
    ensures NoMark(WindowMark(d), c)
  {
    assert WindowMark(d) == ['%', d, '0', '-', '7', ':'];
  }

  lemma SegHasNoStart(seg: Seg, name: string)
    requires SegOk(seg) && IsName(name) && !(seg.Scalar? && seg.name == name)
    ensures NoStart(SegText(seg), name)
  {
    match seg
    case Plain(text) =>
    case Scalar(m, v, after) =>
      NameIsNotAnother(m, name);
      DullIsQuiet(": ", name, 'g');
      DullIsQuiet(Padded(v, 8), name, 'g');
      NoStartConcat(Padded(v, 8), after, name);
      NoStartConcat(": ", Padded(v, 8) + after, name);
      NoStartConcat(m, ": " + (Padded(v, 8) + after), name);
    case Window(c, vs, after) =>
      MarkIsNoName(c, name);
      SpacedIsDull(vs);
      DullIsQuiet(Spaced(vs), name, 'g');
      NoStartConcat(Spaced(vs), after, name);
      NoStartConcat(WindowMark(c), Spaced(vs) + after, name);
  }

  lemma SegHasNoMark(seg: Seg, c: char)
    requires SegOk(seg) && IsWindow(c) && !(seg.Window? && seg.c == c)
    ensures NoMark(SegText(seg), c)
  {
    match seg
    case Plain(text) =>
    case Scalar(m, v, after) =>
      NameIsNoMark(m, c);
      DullIsQuiet(": ", "pc", c);
      DullIsQuiet(Padded(v, 8), "pc", c);
      NoMarkConcat(Padded(v, 8), after, c);
      NoMarkConcat(": ", Padded(v, 8) + after, c);
      NoMarkConcat(m, ": " + (Padded(v, 8) + after), c);
    case Window(d, vs, after) =>
      MarkIsNotAnother(d, c);
      SpacedIsDull(vs);
      DullIsQuiet(Spaced(vs), "pc", c);
      NoMarkConcat(Spaced(vs), after, c);
      NoMarkConcat(WindowMark(d), Spaced(vs) + after, c);
  }

  lemma SegHasNoHeader(seg: Seg)
    requires SegOk(seg)
    ensures NoHeader(SegText(seg))
  {
    match seg
    case Plain(text) =>
    case Scalar(m, v, after) =>
      NameIsNoMark(m, 'g');
      DullIsQuiet(": ", "pc", 'g');
      DullIsQuiet(Padded(v, 8), "pc", 'g');
      NoHeaderConcat(Padded(v, 8), after);
      NoHeaderConcat(": ", Padded(v, 8) + after);
      NoHeaderConcat(m, ": " + (Padded(v, 8) + after));
    case Window(c, vs, after) =>
      MarkIsNoName(c, "pc");
      SpacedIsDull(vs);
      DullIsQuiet(Spaced(vs), "pc", 'g');
      NoHeaderConcat(Spaced(vs), after);
      NoHeaderConcat(WindowMark(c), Spaced(vs) + after);
  }

  // ---- searching ------------------------------------------------------------------------

  /** At i a new word may begin. */
  predicate Boundary(s: string, i: nat) {
    i == 0 || (i <= |s| && !IsWord(s[i - 1]))
  }

  lemma CannotStart(s: string, i: nat, w: string, name: string, k: nat)
    requires name != "" && Occurs(s, i, w) && k < |w| && !CouldStart(w, k, name)
    ensures ScalarAt(s, i + k, name).None?
  {
    assert w[k] == s[i + k];
    assert k > 0 ==> w[k - 1] == s[i + (k - 1)];
    assert k + 1 < |w| ==> w[k + 1] == s[i + (k + 1)];
    assert Occurs(s, i + k, name) ==> name[0] == s[i + k + 0] && (|name| > 1 ==> name[1] == s[i + k + 1]);
  }

  lemma CannotMark(s: string, i: nat, w: string, c: char, k: nat)
    requires Occurs(s, i, w) && k < |w| && NoMark(w, c)
    ensures WindowAt(s, i + k, c).None?
  {
    var mark := WindowMark(c);
    assert w[k] == s[i + k];
    assert k + 1 < |w| ==> w[k + 1] == s[i + (k + 1)];
    assert mark[0] == '%' && mark[1] == c;
  }

  lemma PrintedValue(s: string, a: nat, v: nat, rest: string)
    requires v < 0x1_0000_0000 && Occurs(s, a, Padded(v, 8)) && Occurs(s, a + 8, rest)
    requires rest != "" && !IsHexDigit(rest[0])
    ensures HexEnd(s, a) == a + 8 && HexValueAt(s, a) == Some(v) && !IsSpace(s[a])
  {
    assert rest[0] == s[a + 8 + 0];
    assert Padded(v, 8)[0] == s[a + 0];
    HexEndAt(s, a, Padded(v, 8), 0);
    OccursSlice(s, a, Padded(v, 8));
    assert Pow16(4) == 0x1_0000 && Pow16(8) == 0x1_0000_0000;
    ValueOfPadded(v, 8);
  }

  lemma ScalarFound(s: string, t: nat, seg: Seg)
    requires seg.Scalar? && SegOk(seg) && Occurs(s, t, SegText(seg)) && Boundary(s, t)
    ensures ScalarAt(s, t, seg.name) == Some(seg.value)
  {
    var n, h := |seg.name|, Padded(seg.value, 8);
    OccursParts(s, t, seg.name, ": " + (h + seg.after));
    OccursParts(s, t + n, ": ", h + seg.after);
    OccursParts(s, t + n + 2, h, seg.after);
    PrintedValue(s, t + n + 2, seg.value, seg.after);
    assert s[t + n] == ": "[0] && s[t + n + 1] == ": "[1];
    assert SpaceEnd(s, t + n) == t + n;
    assert SpaceEnd(s, t + n + 2) == t + n + 2;
  }

  lemma SpacedParts(s: string, a: nat, vs: seq<nat>, after: string)
    requires vs != [] && Occurs(s, a, Spaced(vs) + after)
    ensures a + 1 < |s| && s[a] == ' ' && Occurs(s, a + 1, Padded(vs[0], 8))
    ensures Occurs(s, a + 9, Spaced(vs[1..]) + after)
  {
    var h, rest := Padded(vs[0], 8), Spaced(vs[1..]) + after;
    assert Spaced(vs) + after == " " + (h + rest) by {
      Assoc(" ", h + Spaced(vs[1..]), after);
      Assoc(h, Spaced(vs[1..]), after);
    }
    OccursParts(s, a, " ", h + rest);
    assert " "[0] == s[a + 0];
    OccursParts(s, a + 1, h, rest);
  }

  lemma SpacedStarts(vs: seq<nat>, after: string)
    requires after != "" && !IsHexDigit(after[0])
    ensures Spaced(vs) + after != "" && !IsHexDigit((Spaced(vs) + after)[0])
    ensures vs != [] ==> (Spaced(vs) + after)[0] == ' '
  {
  }

  lemma ValuesStep(s: string, a: nat, v: nat, vs: seq<nat>)
    requires vs != [] && a + 9 < |s| && HexEnd(s, a) == a + 8 && HexValueAt(s, a) == Some(v)
    requires s[a + 8] == ' ' && !IsSpace(s[a + 9]) && ValuesAt(s, a + 9, |vs|) == Some(vs)
    ensures ValuesAt(s, a, |vs| + 1) == Some([v] + vs)
  {
    assert SpaceEnd(s, a + 8) == SpaceEnd(s, a + 9) == a + 9;
  }

  lemma FirstFound(s: string, a: nat, vs: seq<nat>, after: string)
    requires vs != [] && vs[0] < 0x1_0000_0000
    requires Occurs(s, a, Spaced(vs) + after) && after != "" && !IsHexDigit(after[0])
    ensures a + 1 < |s| && !IsSpace(s[a + 1]) && HexEnd(s, a + 1) == a + 9 && HexValueAt(s, a + 1) == Some(vs[0])
    ensures Occurs(s, a + 9, Spaced(vs[1..]) + after) && a + 9 < |s|
    ensures |vs| > 1 ==> s[a + 9] == ' '
  {
    SpacedParts(s, a, vs, after);
    SpacedStarts(vs[1..], after);
    PrintedValue(s, a + 1, vs[0], Spaced(vs[1..]) + after);
    assert (Spaced(vs[1..]) + after)[0] == s[a + 9 + 0];
  }

  lemma {:induction false} ValuesFound(s: string, a: nat, vs: seq<nat>, after: string)
    requires vs != [] && (forall k | 0 <= k < |vs| :: vs[k] < 0x1_0000_0000)
    requires Occurs(s, a, Spaced(vs) + after) && after != "" && !IsHexDigit(after[0])
    ensures a + 1 < |s| && !IsSpace(s[a + 1]) && ValuesAt(s, a + 1, |vs|) == Some(vs)
    decreases |vs|
  {
    FirstFound(s, a, vs, after);
    if |vs| == 1 {
      assert vs == [vs[0]];
    } else {
      ValuesFound(s, a + 9, vs[1..], after);
      ValuesStep(s, a + 1, vs[0], vs[1..]);
      assert vs == [vs[0]] + vs[1..];
    }
  }

  lemma WindowFound(s: string, t: nat, seg: Seg)
    requires seg.Window? && SegOk(seg) && Occurs(s, t, SegText(seg))
    ensures WindowAt(s, t, seg.c) == Some(seg.values)
  {
    var tail := Spaced(seg.values) + seg.after;
    OccursParts(s, t, WindowMark(seg.c), tail);
    ValuesFound(s, t + 6, seg.values, seg.after);
    assert tail[0] == ' ';
    assert tail[0] == s[t + 6 + 0];
    assert SpaceEnd(s, t + 6) == SpaceEnd(s, t + 7) == t + 7;
  }

  // ---- one block ------------------------------------------------------------------------

  lemma SegEnds(seg: Seg)
    requires SegOk(seg)
    ensures SegText(seg) != "" && !IsWord(Last(SegText(seg)))
  {
  }

  lemma BoundaryAfter(s: string, i: nat, w: string)
    requires Occurs(s, i, w) && w != "" && !IsWord(Last(w))
    ensures Boundary(s, i + |w|)
  {
    assert w[|w| - 1] == s[i + (|w| - 1)];
  }

  /** A segment that is the wanted one matches where it starts; any other matches nowhere. */
  ghost predicate Tried<T>(tries: seq<Option<T>>, i: nat, j: nat, wanted: Option<T>) {
    && i < j <= |tries|
    && if wanted.Some? then tries[i] == wanted else forall p | i <= p < j :: tries[p].None?
  }

  lemma {:induction false} FirstAfter<T>(tries: seq<Option<T>>, i: nat, j: nat, wanted: Option<T>)
    requires Tried(tries, i, j, wanted)
    ensures First(tries, i) == if wanted.Some? then wanted else First(tries, j)
    decreases j - i
  {
    if wanted.None? && i + 1 < j {
      FirstAfter(tries, i + 1, j, wanted);
    }
  }

  /** Piece by piece, the text matches where a wanted piece starts and nowhere else before it. */
  ghost predicate AllTried<T>(tries: seq<Option<T>>, ts: seq<string>, wanted: seq<Option<T>>) {
    && |wanted| == |ts| && Start(ts, |ts|) == |tries|
    && forall k | 0 <= k < |ts| :: Tried(tries, Start(ts, k), Start(ts, k + 1), wanted[k])
  }

  /** Then the search finds the first wanted piece. */
  lemma {:induction false} FirstWanted<T>(tries: seq<Option<T>>, ts: seq<string>, wanted: seq<Option<T>>, k: nat)
    requires AllTried(tries, ts, wanted) && k <= |ts| && Start(ts, k) <= |tries|
    ensures First(tries, Start(ts, k)) == First(wanted, k)
    decreases |ts| - k
  {
    if k < |ts| {
      FirstAfter(tries, Start(ts, k), Start(ts, k + 1), wanted[k]);
      FirstWanted(tries, ts, wanted, k + 1);
    }
  }

  function WantedScalar(seg: Seg, name: string): Option<nat> {
    if seg.Scalar? && seg.name == name then Some(seg.value) else None
  }

  lemma NoScalarWithin(s: string, i: nat, w: string, name: string)
    requires name != "" && Occurs(s, i, w) && NoStart(w, name)
    ensures forall p | i <= p < i + |w| :: ScalarTries(s, name)[p].None?
  {
    forall p | i <= p < i + |w|
      ensures ScalarTries(s, name)[p].None?
    {
      CannotStart(s, i, w, name, p - i);
    }
  }

  lemma ScalarTried(s: string, i: nat, seg: Seg, name: string)
    requires SegOk(seg) && IsName(name) && Boundary(s, i) && Occurs(s, i, SegText(seg))
    ensures Boundary(s, i + |SegText(seg)|)
    ensures Tried(ScalarTries(s, name), i, i + |SegText(seg)|, WantedScalar(seg, name))
  {
    var w := SegText(seg);
    SegEnds(seg);
    BoundaryAfter(s, i, w);
    if seg.Scalar? && seg.name == name {
      ScalarFound(s, i, seg);
    } else {
      SegHasNoStart(seg, name);
      NoScalarWithin(s, i, w, name);
    }
  }

  /** The first value printed under a name. */
  function ScalarsIn(segs: seq<Seg>, name: string): seq<Option<nat>> {
    seq(|segs|, k requires 0 <= k < |segs| => WantedScalar(segs[k], name))
  }

  function ScalarIn(segs: seq<Seg>, name: string): Option<nat> {
    First(ScalarsIn(segs, name), 0)
  }

  lemma PieceAt(segs: seq<Seg>, k: nat)
    requires BlockOk(segs) && k < |segs|
    ensures SegOk(segs[k]) && Texts(segs)[k] == SegText(segs[k])
    ensures Occurs(BlockText(segs), Start(Texts(segs), k), SegText(segs[k]))
    ensures Start(Texts(segs), k + 1) == Start(Texts(segs), k) + |SegText(segs[k])|
  {
    PieceOccurs(BlockText(segs), 0, Texts(segs), k);
    StartNext(Texts(segs), k);
  }

  lemma BoundaryAt(s: string, ts: seq<string>, k: nat)
    requires Occurs(s, 0, Joined(ts)) && 0 < k <= |ts|
    requires ts[k - 1] != "" && !IsWord(Last(ts[k - 1]))
    ensures Boundary(s, Start(ts, k))
  {
    PieceOccurs(s, 0, ts, k - 1);
    StartNext(ts, k - 1);
    BoundaryAfter(s, Start(ts, k - 1), ts[k - 1]);
  }

  lemma ScalarPiece(segs: seq<Seg>, k: nat, name: string)
    requires BlockOk(segs) && IsName(name) && k < |segs|
    ensures Tried(ScalarTries(BlockText(segs), name), Start(Texts(segs), k), Start(Texts(segs), k + 1),
                  ScalarsIn(segs, name)[k])
  {
    PieceAt(segs, k);
    if k > 0 {
      SegEnds(segs[k - 1]);
      BoundaryAt(BlockText(segs), Texts(segs), k);
    }
    ScalarTried(BlockText(segs), Start(Texts(segs), k), segs[k], name);
  }

  lemma ScalarFirst(segs: seq<Seg>, name: string)
    requires BlockOk(segs) && IsName(name)
    ensures First(ScalarTries(BlockText(segs), name), 0) == ScalarIn(segs, name)
  {
    var tries, ts, wanted := ScalarTries(BlockText(segs), name), Texts(segs), ScalarsIn(segs, name);
    StartEnd(ts);
    forall k | 0 <= k < |ts|
      ensures Tried(tries, Start(ts, k), Start(ts, k + 1), wanted[k])
    {
      ScalarPiece(segs, k, name);
    }
    FirstWanted(tries, ts, wanted, 0);
  }

  function WantedWindow(seg: Seg, c: char): Option<seq<nat>> {
    if seg.Window? && seg.c == c then Some(seg.values) else None
  }

  lemma NoWindowWithin(s: string, i: nat, w: string, c: char)
    requires Occurs(s, i, w) && NoMark(w, c)
    ensures forall p | i <= p < i + |w| :: WindowTries(s, c)[p].None?
  {
    forall p | i <= p < i + |w|
      ensures WindowTries(s, c)[p].None?
    {
      CannotMark(s, i, w, c, p - i);
    }
  }

  lemma WindowTried(s: string, i: nat, seg: Seg, c: char)
    requires SegOk(seg) && IsWindow(c) && Occurs(s, i, SegText(seg))
    ensures Tried(WindowTries(s, c), i, i + |SegText(seg)|, WantedWindow(seg, c))
  {
    SegEnds(seg);
    if seg.Window? && seg.c == c {
      WindowFound(s, i, seg);
    } else {
      SegHasNoMark(seg, c);
      NoWindowWithin(s, i, SegText(seg), c);
    }
  }

  function WindowsIn(segs: seq<Seg>, c: char): seq<Option<seq<nat>>> {
    seq(|segs|, k requires 0 <= k < |segs| => WantedWindow(segs[k], c))
  }

  function WindowIn(segs: seq<Seg>, c: char): Option<seq<nat>> {
    First(WindowsIn(segs, c), 0)
  }

  lemma WindowPiece(segs: seq<Seg>, k: nat, c: char)
    requires BlockOk(segs) && IsWindow(c) && k < |segs|
    ensures Tried(WindowTries(BlockText(segs), c), Start(Texts(segs), k), Start(Texts(segs), k + 1),
                  WindowsIn(segs, c)[k])
  {
    PieceAt(segs, k);
    WindowTried(BlockText(segs), Start(Texts(segs), k), segs[k], c);
  }

  lemma WindowFirst(segs: seq<Seg>, c: char)
    requires BlockOk(segs) && IsWindow(c)
    ensures First(WindowTries(BlockText(segs), c), 0) == WindowIn(segs, c)
  {
    var tries, ts, wanted := WindowTries(BlockText(segs), c), Texts(segs), WindowsIn(segs, c);
    StartEnd(ts);
    forall k | 0 <= k < |ts|
      ensures Tried(tries, Start(ts, k), Start(ts, k + 1), wanted[k])
    {
      WindowPiece(segs, k, c);
    }
    FirstWanted(tries, ts, wanted, 0);
  }

  function OrZero(v: Option<nat>): nat {
    if v.Some? then v.value else 0
  }

  function OrZeros(vs: Option<seq<nat>>): seq<nat> {
    if vs.Some? then vs.value else ZEROS
  }

  /** What the adapter should report for a block: what was printed, and zero for what was not. */
  function Reported(segs: seq<Seg>): Registers {
    Registers(OrZero(ScalarIn(segs, "pc")), OrZero(ScalarIn(segs, "npc")), OrZero(ScalarIn(segs, "psr")),
              OrZero(ScalarIn(segs, "y")), OrZero(ScalarIn(segs, "wim")), OrZero(ScalarIn(segs, "tbr")), 0,
              OrZeros(WindowIn(segs, 'g')), OrZeros(WindowIn(segs, 'o')),
              OrZeros(WindowIn(segs, 'l')), OrZeros(WindowIn(segs, 'i')))
  }

  lemma BlockRoundTrip(segs: seq<Seg>)
    requires BlockOk(segs)
    ensures FromBlock(BlockText(segs)) == Reported(segs)
  {
    ScalarFirst(segs, "pc");
    ScalarFirst(segs, "npc");
    ScalarFirst(segs, "psr");
    ScalarFirst(segs, "y");
    ScalarFirst(segs, "wim");
    ScalarFirst(segs, "tbr");
    WindowFirst(segs, 'g');
    WindowFirst(segs, 'o');
    WindowFirst(segs, 'l');
    WindowFirst(segs, 'i');
  }
}
