/** What the reader makes of text that is not as QEMU prints it: other spacing, other widths, other cases. */
module RegisterReader {
  import opened Lists
  import opened Hex
  import opened Text
  import opened RegisterDump
  import Decimal

  // ---- values ---------------------------------------------------------------------------

  predicate Digits(w: string) {
    w != "" && IsHex(w)
  }

  lemma ValueFound(s: string, a: nat, w: string)
    requires Digits(w) && Occurs(s, a, w) && (a + |w| == |s| || !IsHexDigit(s[a + |w|]))
    ensures HexEnd(s, a) == a + |w| && HexValueAt(s, a) == Some(Value(w)) && !IsSpace(s[a])
  {
    HexEndAt(s, a, w, 0);
    OccursSlice(s, a, w);
    assert w[0] == s[a + 0] && IsHexDigit(w[0]);
  }

  lemma ScalarThere(s: string, p: nat, name: string, q: nat, a: nat, v: nat)
    requires Occurs(s, p, name) && (p == 0 || !IsWord(s[p - 1]))
    requires SpaceEnd(s, p + |name|) == q < |s| && s[q] == ':'
    requires SpaceEnd(s, q + 1) == a && HexValueAt(s, a) == Some(v)
    ensures ScalarAt(s, p, name) == Some(v)
  {
  }

  lemma SpaceThenSolid(s: string, i: nat, gap: string, j: nat)
    requires AllSpace(gap) && Occurs(s, i, gap) && j == i + |gap| < |s| && !IsSpace(s[j])
    ensures SpaceEnd(s, i) == j
  {
    SpaceEndAt(s, i, gap, 0);
  }

  /** A scalar may have space on either side of its colon and any number of digits, in either case. */
  lemma AnyScalar(s: string, p: nat, name: string, l: nat, left: string, q: nat, right: string, a: nat, w: string)
    requires Occurs(s, p, name) && (p == 0 || !IsWord(s[p - 1])) && l == p + |name|
    requires AllSpace(left) && Occurs(s, l, left) && q == l + |left|
    requires q < |s| && s[q] == ':'
    requires AllSpace(right) && Occurs(s, q + 1, right) && a == q + 1 + |right|
    requires Digits(w) && Occurs(s, a, w) && (a + |w| == |s| || !IsHexDigit(s[a + |w|]))
    ensures ScalarAt(s, p, name) == Some(Value(w))
  {
    ValueFound(s, a, w);
    SpaceThenSolid(s, l, left, q);
    SpaceThenSolid(s, q + 1, right, a);
    ScalarThere(s, p, name, q, a, Value(w));
  }

  /** No scalar is read where the name continues a word. */
  lemma NoScalarInsideAWord(s: string, p: nat, name: string)
    requires 0 < p <= |s| && IsWord(s[p - 1])
    ensures ScalarAt(s, p, name) == None
  {
  }

  /** A register of a window and the space after it. */
  datatype Item = Item(digits: string, gap: string)

  /** Items one after another from a on, up to b. */
  predicate ItemsAt(s: string, a: nat, items: seq<Item>, b: nat)
    decreases |items|
  {
    if items == [] then a == b
    else
      && Occurs(s, a, items[0].digits) && Occurs(s, a + |items[0].digits|, items[0].gap)
      && ItemsAt(s, a + |items[0].digits| + |items[0].gap|, items[1..], b)
  }

  function ItemValues(items: seq<Item>): (vs: seq<nat>)
    requires forall i | 0 <= i < |items| :: IsHex(items[i].digits)
    ensures |vs| == |items|
  {
    if items == [] then [] else [Value(items[0].digits)] + ItemValues(items[1..])
  }

  predicate Separated(items: seq<Item>) {
    && (forall i | 0 <= i < |items| :: Digits(items[i].digits) && AllSpace(items[i].gap))
    && (forall i | 0 <= i < |items| - 1 :: items[i].gap != "")
    && (items != [] ==> Last(items).gap == "")
  }

  lemma OneMoreItem(s: string, a: nat, w: string, gap: string, vs: seq<nat>)
    requires Digits(w) && AllSpace(gap) && gap != "" && vs != []
    requires Occurs(s, a, w) && Occurs(s, a + |w|, gap)
    requires var c := a + |w| + |gap|; c < |s| && !IsSpace(s[c]) && ValuesAt(s, c, |vs|) == Some(vs)
    ensures ValuesAt(s, a, |vs| + 1) == Some([Value(w)] + vs)
  {
    assert gap[0] == s[a + |w| + 0];
    ValueFound(s, a, w);
    SpaceEndAt(s, a + |w|, gap, 0);
  }

  lemma LastItem(s: string, a: nat, w: string)
    requires Digits(w) && Occurs(s, a, w) && (a + |w| == |s| || !IsHexDigit(s[a + |w|]))
    ensures ValuesAt(s, a, 1) == Some([Value(w)]) && !IsSpace(s[a])
  {
    ValueFound(s, a, w);
  }

  lemma SeparatedTail(items: seq<Item>)
    requires |items| > 1 && Separated(items)
    ensures Separated(items[1..]) && items[0].gap != ""
  {
    assert Last(items[1..]) == Last(items);
  }

  lemma {:induction false} ItemsFound(s: string, a: nat, items: seq<Item>, b: nat)
    requires items != [] && Separated(items) && ItemsAt(s, a, items, b)
    requires b == |s| || (b < |s| && !IsHexDigit(s[b]))
    ensures a < |s| && !IsSpace(s[a]) && ValuesAt(s, a, |items|) == Some(ItemValues(items))
    decreases |items|
  {
    var w := items[0].digits;
    assert w[0] == s[a + 0] && IsHexDigit(w[0]);
    if |items| == 1 {
      LastItem(s, a, w);
      assert items[1..] == [] && ItemValues(items[1..]) == [];
      assert [Value(w)] + [] == [Value(w)];
    } else {
      SeparatedTail(items);
      ItemsFound(s, a + |w| + |items[0].gap|, items[1..], b);
      OneMoreItem(s, a, w, items[0].gap, ItemValues(items[1..]));
    }
  }

  lemma WindowThere(s: string, p: nat, c: char, a: nat, vs: seq<nat>)
    requires Occurs(s, p, ['%', c, '0', '-', '7', ':']) && SpaceEnd(s, p + 6) == a && ValuesAt(s, a, 8) == Some(vs)
    ensures WindowAt(s, p, c) == Some(vs)
  {
    assert WindowMark(c) == ['%', c, '0', '-', '7', ':'];
  }

  /** A window may have any space before, and at least some between, its eight registers. */
  lemma AnyWindow(s: string, p: nat, c: char, gap: string, a: nat, items: seq<Item>, b: nat)
    requires Occurs(s, p, ['%', c, '0', '-', '7', ':'])
    requires AllSpace(gap) && Occurs(s, p + 6, gap) && a == p + 6 + |gap|
    requires |items| == 8 && Separated(items) && ItemsAt(s, a, items, b)
    requires b == |s| || (b < |s| && !IsHexDigit(s[b]))
    ensures WindowAt(s, p, c) == Some(ItemValues(items))
  {
    ItemsFound(s, a, items, b);
    SpaceThenSolid(s, p + 6, gap, a);
    WindowThere(s, p, c, a, ItemValues(items));
  }

  // ---- headers --------------------------------------------------------------------------

  /** A line that starts with CPU# and a digit. */
  predicate HeaderLine(s: string, p: nat) {
    && (p == 0 || (p <= |s| && s[p - 1] == '\n'))
    && Occurs(s, p, "CPU#") && p + 4 < |s| && '0' <= s[p + 4] <= '9'
  }

  lemma HeaderAtIff(s: string, p: nat)
    ensures HeaderAt(s, p).Some? <==> HeaderLine(s, p)
  {
  }

  /** No header can start inside another. */
  lemma NoneInside(s: string, p: nat, q: nat)
    requires HeaderAt(s, p).Some? && p < q < HeaderAt(s, p).value.end
    ensures HeaderAt(s, q).None?
  {
    if q < p + 4 {
      assert s[p] == "CPU#"[0] && s[p + 1] == "CPU#"[1] && s[p + 2] == "CPU#"[2] && s[p + 3] == "CPU#"[3];
      assert s[q - 1] != '\n';
    } else if q == p + 4 {
      assert s[p + 3] == "CPU#"[3];
    } else {
      assert Decimal.IsDigit(s[q - 1]);
    }
  }

  predicate OneStarts(hs: seq<Header>, p: nat) {
    exists k :: 0 <= k < |hs| && hs[k].start == p
  }

  lemma OneStartsCons(h: Header, hs: seq<Header>, p: nat)
    ensures OneStarts([h] + hs, p) <==> h.start == p || OneStarts(hs, p)
  {
    var all := [h] + hs;
    if h.start == p {
      assert all[0].start == p;
    }
    if OneStarts(hs, p) {
      var k :| 0 <= k < |hs| && hs[k].start == p;
      assert all[k + 1].start == p;
    }
  }

  /** Wherever they stand and whatever is around them, the headers found are exactly such lines. */
  lemma {:induction false} HeadersAreTheLines(s: string, i: nat, p: nat)
    requires i <= p <= |s|
    ensures OneStarts(Headers(s, i), p) <==> HeaderLine(s, p)
    decreases |s| - i
  {
    HeaderAtIff(s, p);
    if i < |s| {
      match HeaderAt(s, i)
      case None =>
        if p > i {
          HeadersAreTheLines(s, i + 1, p);
        }
      case Some(h) =>
        OneStartsCons(h, Headers(s, h.end), p);
        if p >= h.end {
          HeadersAreTheLines(s, h.end, p);
        } else if p > i {
          NoneInside(s, i, p);
        }
    }
  }
}
