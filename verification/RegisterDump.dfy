/**
 * The adapter's reader for QEMU's register dump, and what it makes of a printed dump. Registers
 * are numbers here; the adapter prints each as eight hex digits.
 */
module RegisterDump {
  import opened Lists
  import opened Hex
  import opened Text
  import Decimal

  // ---- the reader -----------------------------------------------------------------------

  predicate IsWord(c: char) {
    '0' <= c <= '9' || 'a' <= c <= 'z' || 'A' <= c <= 'Z' || c == '_'
  }

  /** The scalar expression tried at p: word boundary, name, colon, hex digits. */
  function ScalarAt(s: string, p: nat, name: string): (r: Option<nat>)
  {
    if !(Occurs(s, p, name) && (p == 0 || !IsWord(s[p - 1]))) then None
    else
      var q := SpaceEnd(s, p + |name|);
      if q == |s| || s[q] != ':' then None
      else
        var a := SpaceEnd(s, q + 1);
        HexValueAt(s, a)
  }

  function HexValueAt(s: string, a: nat): (r: Option<nat>)
    requires a <= |s|
  {
    var b := HexEnd(s, a);
    HexEndIsHex(s, a);
    if a == b then None else Some(Value(s[a..b]))
  }

  lemma HexEndIsHex(s: string, a: nat)
    requires a <= |s|
    ensures IsHex(s[a..HexEnd(s, a)])
    decreases |s| - a
  {
    if a < |s| && IsHexDigit(s[a]) {
      HexEndIsHex(s, a + 1);
      assert s[a..HexEnd(s, a)] == [s[a]] + s[a + 1..HexEnd(s, a)];
    }
  }

  /** re.search, given what the expression makes of each position: the leftmost match from i on. */
  function First<T>(tries: seq<Option<T>>, i: nat): Option<T>
    requires i <= |tries|
    decreases |tries| - i
  {
    if i == |tries| then None
    else if tries[i].Some? then tries[i]
    else First(tries, i + 1)
  }

  function ScalarTries(s: string, name: string): (tries: seq<Option<nat>>)
    ensures |tries| == |s| && forall p | 0 <= p < |s| :: tries[p] == ScalarAt(s, p, name)
  {
    seq(|s|, p requires 0 <= p < |s| => ScalarAt(s, p, name))
  }

  function GrabScalar(block: string, name: string): nat {
    match First(ScalarTries(block, name), 0)
    case Some(v) => v
    case None => 0
  }

  /** n hex values with space between them. */
  function ValuesAt(s: string, a: nat, n: nat): (r: Option<seq<nat>>)
    requires a <= |s| && n > 0
    ensures r.Some? ==> |r.value| == n
    decreases n
  {
    match HexValueAt(s, a)
    case None => None
    case Some(v) =>
      var b := HexEnd(s, a);
      var c := SpaceEnd(s, b);
      if n == 1 then Some([v])
      else if c == b then None
      else
        match ValuesAt(s, c, n - 1)
        case None => None
        case Some(vs) => Some([v] + vs)
  }

  function WindowMark(c: char): string {
    ['%', c] + "0-7:"
  }

  /** The window expression tried at p. */
  function WindowAt(s: string, p: nat, c: char): (r: Option<seq<nat>>)
    ensures r.Some? ==> |r.value| == 8
  {
    if !Occurs(s, p, WindowMark(c)) then None else ValuesAt(s, SpaceEnd(s, p + 6), 8)
  }

  function WindowTries(s: string, c: char): (tries: seq<Option<seq<nat>>>)
    ensures |tries| == |s| && forall p | 0 <= p < |s| :: tries[p] == WindowAt(s, p, c)
  {
    seq(|s|, p requires 0 <= p < |s| => WindowAt(s, p, c))
  }

  const ZEROS: seq<nat> := [0, 0, 0, 0, 0, 0, 0, 0]

  function GrabWindow(block: string, c: char): seq<nat> {
    match First(WindowTries(block, c), 0)
    case Some(vs) => vs
    case None => ZEROS
  }

  datatype Registers = Registers(
    pc: nat, npc: nat, psr: nat, y: nat, wim: nat, tbr: nat, asr17: nat,
    global: seq<nat>, out: seq<nat>, local: seq<nat>, in_: seq<nat>)

  const EMPTY := Registers(0, 0, 0, 0, 0, 0, 0, ZEROS, ZEROS, ZEROS, ZEROS)

  /** _registers_from_block */
  function FromBlock(block: string): Registers {
    Registers(GrabScalar(block, "pc"), GrabScalar(block, "npc"), GrabScalar(block, "psr"),
              GrabScalar(block, "y"), GrabScalar(block, "wim"), GrabScalar(block, "tbr"), 0,
              GrabWindow(block, 'g'), GrabWindow(block, 'o'), GrabWindow(block, 'l'), GrabWindow(block, 'i'))
  }

  // ---- sections -------------------------------------------------------------------------

  function DigitEnd(s: string, i: nat): (j: nat)
    requires i <= |s|
    ensures i <= j <= |s| && forall k | i <= k < j :: Decimal.IsDigit(s[k])
    decreases |s| - i
  {
    if i == |s| || !Decimal.IsDigit(s[i]) then i else DigitEnd(s, i + 1)
  }

  /** A match of the header expression: where it starts and ends, and its number. */
  datatype Header = Header(start: nat, end: nat, cpu: nat)

  function HeaderAt(s: string, i: nat): (r: Option<Header>)
    ensures r.Some? ==> i == r.value.start < r.value.end <= |s|
  {
    if !(Occurs(s, i, "CPU#") && (i == 0 || s[i - 1] == '\n')) then None
    else
      var e := DigitEnd(s, i + 4);
      if e == i + 4 then None else Some(Header(i, e, Decimal.Parse(s[i + 4..e])))
  }

  predicate InOrder(hs: seq<Header>, from: nat, size: nat) {
    && (forall k | 0 <= k < |hs| :: from <= hs[k].start < hs[k].end <= size)
    && (forall k | 0 <= k < |hs| - 1 :: hs[k].end <= hs[k + 1].start)
  }

  /** finditer over the headers. */
  function Headers(s: string, i: nat): (hs: seq<Header>)
    requires i <= |s|
    ensures InOrder(hs, i, |s|)
    decreases |s| - i
  {
    if i == |s| then []
    else
      match HeaderAt(s, i)
      case Some(h) => [h] + Headers(s, h.end)
      case None => Headers(s, i + 1)
  }

  /** Each header's text reaches to the next header, or to the end. */
  function SectionAt(s: string, hs: seq<Header>, k: nat): (nat, string)
    requires InOrder(hs, 0, |s|) && k < |hs|
  {
    (hs[k].cpu, if k + 1 < |hs| then s[hs[k].end..hs[k + 1].start] else s[hs[k].end..])
  }

  function Sections(s: string, hs: seq<Header>): (r: seq<(nat, string)>)
    requires InOrder(hs, 0, |s|)
    ensures |r| == |hs| && forall k | 0 <= k < |hs| :: r[k] == SectionAt(s, hs, k)
  {
    seq(|hs|, k requires 0 <= k < |hs| => SectionAt(s, hs, k))
  }

  /** The loop over the matches in _parse_sparc_registers. */
  method CutSections(text: string) returns (sections: seq<(nat, string)>)
    ensures sections == Sections(text, Headers(text, 0))
  {
    var hs := Headers(text, 0);
    sections := [];
    var lastPos, lastCpu := 0, 0;
    var k := 0;
    while k < |hs|
      invariant k <= |hs| && (lastPos == 0 <==> k == 0)
      invariant |sections| == if k == 0 then 0 else k - 1
      invariant forall j | 0 <= j < |sections| :: sections[j] == SectionAt(text, hs, j)
      invariant k > 0 ==> lastPos == hs[k - 1].end && lastCpu == hs[k - 1].cpu
    {
      if lastPos > 0 {
        sections := sections + [(lastCpu, text[lastPos..hs[k].start])];
      }
      lastCpu := hs[k].cpu;
      lastPos := hs[k].end;
      k := k + 1;
    }
    if lastPos > 0 {
      sections := sections + [(lastCpu, text[lastPos..])];
    }
  }

  function Choices(sections: seq<(nat, string)>, cpu: nat): seq<Option<string>> {
    seq(|sections|, k requires 0 <= k < |sections| =>
      if sections[k].0 == cpu then Some(sections[k].1) else None)
  }

  /** Without a header the whole text is CPU 0's. */
  function SectionsOf(text: string): seq<(nat, string)> {
    var sections := Sections(text, Headers(text, 0));
    if sections == [] then [(0, text)] else sections
  }

  function Report(section: Option<string>): Registers {
    if section.Some? then FromBlock(section.value) else EMPTY
  }

  /** _parse_sparc_registers: the first section of the CPU counts. */
  function ParseRegisters(text: string, cpu: nat): Registers {
    Report(First(Choices(SectionsOf(text), cpu), 0))
  }
}
