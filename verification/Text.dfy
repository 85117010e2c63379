/**
 * The few things regular expressions and split() do in this repository, as functions of a text
 * and a position in it.
 */
module Text {
  import opened Hex

  predicate IsSpace(c: char) {
    c == ' ' || c == '\t' || c == '\n' || c == '\r' || c == (11 as char) || c == (12 as char)
  }

  /** Where a greedy repetition of hex digits from i ends; and likewise for the other two classes. */
  function HexEnd(s: string, i: nat): (j: nat)
    requires i <= |s|
    ensures i <= j <= |s|
    decreases |s| - i
  {
    if i == |s| || !IsHexDigit(s[i]) then i else HexEnd(s, i + 1)
  }

  function SpaceEnd(s: string, i: nat): (j: nat)
    requires i <= |s|
    ensures i <= j <= |s| && (j < |s| ==> !IsSpace(s[j]))
    decreases |s| - i
  {
    if i == |s| || !IsSpace(s[i]) then i else SpaceEnd(s, i + 1)
  }

  function SolidEnd(s: string, i: nat): (j: nat)
    requires i <= |s|
    ensures i <= j <= |s| && (i < |s| && !IsSpace(s[i]) ==> i < j)
    decreases |s| - i
  {
    if i == |s| || IsSpace(s[i]) then i else SolidEnd(s, i + 1)
  }

  /** w stands in s at position i. */
  predicate Occurs(s: string, i: nat, w: string) {
    i + |w| <= |s| && forall k | 0 <= k < |w| :: w[k] == s[i + k]
  }

  lemma OccursParts(s: string, i: nat, a: string, b: string)
    requires Occurs(s, i, a + b)
    ensures Occurs(s, i, a) && Occurs(s, i + |a|, b)
  {
    forall k | 0 <= k < |a|
      ensures a[k] == s[i + k]
    {
      assert (a + b)[k] == a[k];
    }
    forall k | 0 <= k < |b|
      ensures b[k] == s[i + |a| + k]
    {
      assert (a + b)[|a| + k] == b[k];
    }
  }

  lemma OccursSlice(s: string, i: nat, w: string)
    requires Occurs(s, i, w)
    ensures s[i..i + |w|] == w
  {
  }

  /** Pieces printed one after another, and where the k-th one starts. */
  function Joined(ts: seq<string>): string {
    if ts == [] then "" else ts[0] + Joined(ts[1..])
  }

  function Start(ts: seq<string>, k: nat): nat
    requires k <= |ts|
  {
    if k == 0 then 0 else |ts[0]| + Start(ts[1..], k - 1)
  }

  lemma {:induction false} StartNext(ts: seq<string>, k: nat)
    requires k < |ts|
    ensures Start(ts, k + 1) == Start(ts, k) + |ts[k]|
  {
    if k > 0 {
      StartNext(ts[1..], k - 1);
    } else {
      assert Start(ts[1..], 0) == 0;
    }
  }

  lemma {:induction false} StartEnd(ts: seq<string>)
    ensures Start(ts, |ts|) == |Joined(ts)|
  {
    if ts != [] {
      StartEnd(ts[1..]);
    }
  }

  lemma {:induction false} PieceOccurs(s: string, i: nat, ts: seq<string>, k: nat)
    requires Occurs(s, i, Joined(ts)) && k < |ts|
    ensures Occurs(s, i + Start(ts, k), ts[k])
    decreases k
  {
    OccursParts(s, i, ts[0], Joined(ts[1..]));
    if k > 0 {
      PieceOccurs(s, i + |ts[0]|, ts[1..], k - 1);
    }
  }

  lemma PieceAfter(pre: string, ts: seq<string>, k: nat, w: string, i: nat, j: nat)
    requires k < |ts| && w == ts[k] && i == |pre| + Start(ts, k) && j == |pre| + Start(ts, k + 1)
    ensures Occurs(pre + Joined(ts), i, w) && j == i + |w|
  {
    OccursParts(pre + Joined(ts), 0, pre, Joined(ts));
    PieceOccurs(pre + Joined(ts), |pre|, ts, k);
    StartNext(ts, k);
  }

  predicate AllSpace(w: string) {
    forall i | 0 <= i < |w| :: IsSpace(w[i])
  }

  /** A word of split(). */
  predicate Solid(w: string) {
    w != "" && forall i | 0 <= i < |w| :: !IsSpace(w[i])
  }

  lemma {:induction false} HexEndAt(s: string, i: nat, w: string, k: nat)
    requires k <= |w| && Occurs(s, i, w) && IsHex(w)
    requires i + |w| == |s| || !IsHexDigit(s[i + |w|])
    ensures HexEnd(s, i + k) == i + |w|
    decreases |w| - k
  {
    if k < |w| {
      assert w[k] == s[i + k];
      HexEndAt(s, i, w, k + 1);
    }
  }

  lemma {:induction false} SpaceEndAt(s: string, i: nat, w: string, k: nat)
    requires k <= |w| && Occurs(s, i, w) && AllSpace(w)
    requires i + |w| == |s| || !IsSpace(s[i + |w|])
    ensures SpaceEnd(s, i + k) == i + |w|
    decreases |w| - k
  {
    if k < |w| {
      assert w[k] == s[i + k];
      SpaceEndAt(s, i, w, k + 1);
    }
  }

  lemma {:induction false} SolidEndAt(s: string, i: nat, w: string, k: nat)
    requires k <= |w| && Occurs(s, i, w) && Solid(w)
    requires i + |w| == |s| || IsSpace(s[i + |w|])
    ensures SolidEnd(s, i + k) == i + |w|
    decreases |w| - k
  {
    if k < |w| {
      assert w[k] == s[i + k];
      SolidEndAt(s, i, w, k + 1);
    }
  }

  /** Python's split() and JavaScript's split(/\s+/).filter(Boolean), from position i on. */
  function Words(s: string, i: nat): (ws: seq<string>)
    requires i <= |s|
    decreases |s| - i
  {
    var a := SpaceEnd(s, i);
    if a == |s| then []
    else
      var b := SolidEnd(s, a);
      [s[a..b]] + Words(s, b)
  }

  /** Space in front makes no difference. */
  lemma WordsAfterSpace(s: string, i: nat, j: nat)
    requires i <= |s| && SpaceEnd(s, i) == j
    ensures Words(s, i) == Words(s, j)
  {
    assert SpaceEnd(s, j) == j;
  }

  lemma WordsAtWord(s: string, i: nat, j: nat)
    requires i < |s| && !IsSpace(s[i]) && SolidEnd(s, i) == j
    ensures Words(s, i) == [s[i..j]] + Words(s, j)
  {
    assert SpaceEnd(s, i) == i;
  }

  /** A word, then space, then the next word or the end. */
  lemma WordThenSpace(s: string, i: nat, w: string, sp: string)
    requires Occurs(s, i, w) && Solid(w)
    requires Occurs(s, i + |w|, sp) && AllSpace(sp) && (sp == "" ==> i + |w| == |s|)
    requires i + |w| + |sp| == |s| || !IsSpace(s[i + |w| + |sp|])
    ensures Words(s, i) == [w] + Words(s, i + |w| + |sp|)
  {
    var j := i + |w|;
    assert w[0] == s[i + 0];
    assert sp != "" ==> sp[0] == s[j + 0];
    SolidEndAt(s, i, w, 0);
    WordsAtWord(s, i, j);
    OccursSlice(s, i, w);
    SpaceEndAt(s, j, sp, 0);
    WordsAfterSpace(s, j, j + |sp|);
  }

  /** " ".join */
  function JoinSpaced(ws: seq<string>): string {
    if ws == [] then ""
    else if |ws| == 1 then ws[0]
    else ws[0] + (" " + JoinSpaced(ws[1..]))
  }

  lemma JoinedByOneSpace(a: string, b: string)
    ensures JoinSpaced([a, b]) == a + (" " + b)
  {
    assert [a, b][1..] == [b];
  }

  predicate AllWords(ws: seq<string>) {
    forall i | 0 <= i < |ws| :: Solid(ws[i])
  }

  lemma JoinedStart(ws: seq<string>)
    requires ws != [] && Solid(ws[0])
    ensures JoinSpaced(ws) != "" && !IsSpace(JoinSpaced(ws)[0])
  {
    assert !IsSpace(ws[0][0]);
  }

  lemma {:induction false} WordsOfJoined(s: string, i: nat, ws: seq<string>)
    requires AllWords(ws) && Occurs(s, i, JoinSpaced(ws)) && i + |JoinSpaced(ws)| == |s|
    ensures Words(s, i) == ws
    decreases |ws|
  {
    if |ws| == 1 {
      WordThenSpace(s, i, ws[0], "");
      assert Words(s, |s|) == [];
    } else if |ws| > 1 {
      var w, tail := ws[0], JoinSpaced(ws[1..]);
      OccursParts(s, i, w, " " + tail);
      OccursParts(s, i + |w|, " ", tail);
      JoinedStart(ws[1..]);
      assert tail[0] == s[i + |w| + 1 + 0];
      WordThenSpace(s, i, w, " ");
      WordsOfJoined(s, i + |w| + 1, ws[1..]);
    }
  }
}
