/**
 * Guest memory on its way to the page: QEMU prints it as byte lines, the adapter reads those with
 * a regular expression and writes 32-bit words, the page reads the words and lays them out.
 */
module MemoryDump {
  import opened Bytes
  import opened Lists
  import opened Hex
  import opened Text

  // ---- the adapter's reader -------------------------------------------------------------

  /** A token of the group: 0x and two hex digits. */
  predicate TokenAt(s: string, i: nat) {
    i + 4 <= |s| && s[i] == '0' && s[i + 1] == 'x' && IsHexDigit(s[i + 2]) && IsHexDigit(s[i + 3])
  }

  /** Where (?:0x[0-9a-fA-F]{2}\s*)* from i ends. */
  function GroupEnd(s: string, i: nat): (j: nat)
    requires i <= |s|
    ensures i <= j <= |s|
    decreases |s| - i
  {
    if TokenAt(s, i) then GroupEnd(s, SpaceEnd(s, i + 4)) else i
  }

  /** The byte-line expression tried at i, which starts a line: where its group starts and ends. */
  function LineMatch(s: string, i: nat): (r: Option<(nat, nat)>)
    requires i <= |s|
    ensures r.Some? ==> i < r.value.0 < r.value.1 <= |s|
  {
    var h := HexEnd(s, i);
    if h == i || h == |s| || s[h] != ':' then None
    else
      var g := SpaceEnd(s, h + 1);
      var e := GroupEnd(s, g);
      if g == h + 1 || e == g then None else Some((g, e))
  }

  /** finditer from i on: the groups of all matches, left to right. */
  function Groups(s: string, i: nat): (gs: seq<string>)
    requires i <= |s|
    decreases |s| - i, 1
  {
    GroupsFrom(s, i, if i == 0 || s[i - 1] == '\n' then LineMatch(s, i) else None)
  }

  function GroupsFrom(s: string, i: nat, m: Option<(nat, nat)>): (gs: seq<string>)
    requires i <= |s| && (m.Some? ==> i < m.value.0 < m.value.1 <= |s|)
    decreases |s| - i, 0
  {
    match m
    case Some((g, e)) => [s[g..e]] + Groups(s, e)
    case None => if i == |s| then [] else Groups(s, i + 1)
  }

  /** int(tok, 16) on a token of such a group; None is the ValueError for two tokens run together. */
  function TokenByte(tok: string): Option<byte> {
    if TokenAt(tok, 0) && |tok| == 4 then Some(16 * DigitValue(tok[2]) + DigitValue(tok[3])) else None
  }

  /** Two digits after 0x are a byte; tokens that run together are none. */
  lemma TokenByteIs(tok: string)
    ensures TokenAt(tok, 0) && |tok| == 4 ==>
      TokenByte(tok).Some? && TokenByte(tok).value == Value([tok[2], tok[3]])
    ensures |tok| != 4 ==> TokenByte(tok) == None
  {
    if TokenAt(tok, 0) && |tok| == 4 {
      ValueAppend("", tok[2]);
      ValueAppend([tok[2]], tok[3]);
      assert "" + [tok[2]] == [tok[2]] && [tok[2]] + [tok[3]] == [tok[2], tok[3]];
    }
  }

  function TokenBytes(toks: seq<string>): (r: Option<seq<byte>>)
    ensures r.Some? ==> |r.value| == |toks|
  {
    if toks == [] then Some([])
    else
      match (TokenByte(toks[0]), TokenBytes(toks[1..]))
      case (Some(b), Some(bs)) => Some([b] + bs)
      case _ => None
  }

  function GroupBytes(gs: seq<string>): Option<seq<byte>> {
    if gs == [] then Some([])
    else
      match (TokenBytes(Words(gs[0], 0)), GroupBytes(gs[1..]))
      case (Some(a), Some(b)) => Some(a + b)
      case _ => None
  }

  function ReadDump(text: string): Option<seq<byte>> {
    GroupBytes(Groups(text, 0))
  }

  /** What reading on gives, with `bs` read already; None as soon as a token cannot be read. */
  function Then(bs: seq<byte>, more: Option<seq<byte>>): Option<seq<byte>> {
    if more.Some? then Some(bs + more.value) else None
  }

  lemma OneTokenRead(bs: seq<byte>, toks: seq<string>, j: nat)
    requires j < |toks|
    ensures TokenByte(toks[j]).None? ==> Then(bs, TokenBytes(toks[j..])) == None
    ensures TokenByte(toks[j]).Some? ==>
      Then(bs, TokenBytes(toks[j..])) == Then(bs + [TokenByte(toks[j]).value], TokenBytes(toks[j + 1..]))
  {
    assert toks[j..][1..] == toks[j + 1..];
    if TokenByte(toks[j]).Some? && TokenBytes(toks[j + 1..]).Some? {
      Assoc(bs, [TokenByte(toks[j]).value], TokenBytes(toks[j + 1..]).value);
    }
  }

  /** The inner loop of _format_memory_dump, over the tokens of one match. */
  method AppendTokens(bs: seq<byte>, toks: seq<string>) returns (r: Option<seq<byte>>)
    ensures r == Then(bs, TokenBytes(toks))
  {
    var bytes, j := bs, 0;
    assert toks[0..] == toks;
    while j < |toks|
      invariant j <= |toks| && Then(bytes, TokenBytes(toks[j..])) == Then(bs, TokenBytes(toks))
    {
      OneTokenRead(bytes, toks, j);
      var b := TokenByte(toks[j]);
      if b.None? {
        return None;
      }
      bytes, j := bytes + [b.value], j + 1;
    }
    assert bytes + [] == bytes;
    r := Some(bytes);
  }

  lemma OneGroupRead(bs: seq<byte>, gs: seq<string>, i: nat)
    requires i < |gs|
    ensures var r := Then(bs, TokenBytes(Words(gs[i], 0)));
      Then(bs, GroupBytes(gs[i..])) == if r.Some? then Then(r.value, GroupBytes(gs[i + 1..])) else None
  {
    assert gs[i..][1..] == gs[i + 1..];
    var here, more := TokenBytes(Words(gs[i], 0)), GroupBytes(gs[i + 1..]);
    if here.Some? && more.Some? {
      Assoc(bs, here.value, more.value);
    }
  }

  /** The loop over the matches. */
  method ReadBytes(text: string) returns (r: Option<seq<byte>>)
    ensures r == ReadDump(text)
  {
    var gs := Groups(text, 0);
    var bytes, i := [], 0;
    assert gs[0..] == gs;
    assert GroupBytes(gs).Some? ==> [] + GroupBytes(gs).value == GroupBytes(gs).value;
    while i < |gs|
      invariant i <= |gs| && Then(bytes, GroupBytes(gs[i..])) == GroupBytes(gs)
    {
      OneGroupRead(bytes, gs, i);
      var more := AppendTokens(bytes, Words(gs[i], 0));
      if more.None? {
        return None;
      }
      bytes, i := more.value, i + 1;
    }
    assert bytes + [] == bytes;
    r := Some(bytes);
  }

  // ---- QEMU's printer -------------------------------------------------------------------

  /** One printed line: an address in bare hex and at least one byte. */
  datatype Row = Row(address: string, bytes: seq<byte>)

  predicate Printable(row: Row) {
    row.address != "" && IsHex(row.address) && row.bytes != []
  }

  predicate AllPrintable(rows: seq<Row>) {
    forall i | 0 <= i < |rows| :: Printable(rows[i])
  }

  function Cell(b: byte): (s: string)
    ensures |s| == 4 && TokenAt(s, 0) && Solid(s)
  {
    "0x" + Padded(b, 2)
  }

  /** The bytes of a line, the end of line included. */
  function Body(bs: seq<byte>, eol: string): string {
    if bs == [] then eol
    else if |bs| == 1 then Cell(bs[0]) + eol
    else Cell(bs[0]) + (" " + Body(bs[1..], eol))
  }

  function PrintRow(row: Row, eol: string): string {
    row.address + (":" + (" " + Body(row.bytes, eol)))
  }

  function PrintDump(rows: seq<Row>, eol: string): string {
    if rows == [] then "" else PrintRow(rows[0], eol) + PrintDump(rows[1..], eol)
  }

  function DumpBytes(rows: seq<Row>): seq<byte> {
    if rows == [] then [] else rows[0].bytes + DumpBytes(rows[1..])
  }

  predicate EndOfLine(eol: string) {
    eol != "" && AllSpace(eol) && eol[|eol| - 1] == '\n'
  }

  // ---- reading back what was printed ----------------------------------------------------

  lemma TokenOfCell(b: byte)
    ensures TokenByte(Cell(b)) == Some(b)
  {
    var p := Padded(b, 2);
    assert b / 16 % 16 == b / 16;
    assert p == Padded(b / 16, 1) + [Digit(b % 16)] && Padded(b / 16, 1) == Padded(0, 0) + [Digit(b / 16)];
    assert Cell(b)[2] == Digit(b / 16) && Cell(b)[3] == Digit(b % 16);
  }

  function Cells(bs: seq<byte>): (cs: seq<string>)
    ensures |cs| == |bs|
  {
    if bs == [] then [] else [Cell(bs[0])] + Cells(bs[1..])
  }

  lemma {:induction false} TokensOfCells(bs: seq<byte>)
    ensures TokenBytes(Cells(bs)) == Some(bs)
  {
    if bs != [] {
      TokenOfCell(bs[0]);
      TokensOfCells(bs[1..]);
      assert Cells(bs)[1..] == Cells(bs[1..]);
      assert bs == [bs[0]] + bs[1..];
    }
  }

  lemma BodyStart(bs: seq<byte>, eol: string)
    requires bs != []
    ensures |Body(bs, eol)| >= 4 && TokenAt(Body(bs, eol), 0)
  {
    assert Body(bs, eol)[..4] == Cell(bs[0]);
  }

  lemma BodyEnds(bs: seq<byte>, eol: string)
    requires EndOfLine(eol) && bs != []
    ensures var b := Body(bs, eol); b != "" && b[|b| - 1] == '\n'
    decreases |bs|
  {
    if |bs| > 1 {
      BodyEnds(bs[1..], eol);
    }
  }

  lemma {:induction false} WordsOfBody(s: string, i: nat, bs: seq<byte>, eol: string)
    requires EndOfLine(eol) && bs != [] && Occurs(s, i, Body(bs, eol)) && i + |Body(bs, eol)| == |s|
    ensures Words(s, i) == Cells(bs)
    decreases |bs|
  {
    var c := Cell(bs[0]);
    if |bs| == 1 {
      OccursParts(s, i, c, eol);
      WordThenSpace(s, i, c, eol);
      assert Words(s, |s|) == [] == Cells(bs[1..]);
    } else {
      var tail := Body(bs[1..], eol);
      OccursParts(s, i, c, " " + tail);
      OccursParts(s, i + 4, " ", tail);
      BodyStart(bs[1..], eol);
      assert tail[0] == s[i + 5 + 0];
      WordThenSpace(s, i, c, " ");
      WordsOfBody(s, i + 5, bs[1..], eol);
    }
  }

  lemma BodyWords(bs: seq<byte>, eol: string)
    requires EndOfLine(eol) && bs != []
    ensures TokenBytes(Words(Body(bs, eol), 0)) == Some(bs)
  {
    WordsOfBody(Body(bs, eol), 0, bs, eol);
    TokensOfCells(bs);
  }

  /** After a line comes the end of the text or something that is neither space nor a token. */
  predicate LineEndsAt(s: string, j: nat) {
    j <= |s| && (j < |s| ==> !IsSpace(s[j])) && !TokenAt(s, j)
  }

  lemma TokenThenSpace(s: string, i: nat, cell: string, sp: string)
    requires |cell| == 4 && TokenAt(cell, 0) && Occurs(s, i, cell)
    requires Occurs(s, i + 4, sp) && AllSpace(sp) && (i + 4 + |sp| == |s| || !IsSpace(s[i + 4 + |sp|]))
    ensures GroupEnd(s, i) == GroupEnd(s, i + 4 + |sp|)
  {
    assert cell[0] == s[i + 0] && cell[1] == s[i + 1] && cell[2] == s[i + 2] && cell[3] == s[i + 3];
    SpaceEndAt(s, i + 4, sp, 0);
  }

  lemma {:induction false} GroupOfBody(s: string, i: nat, bs: seq<byte>, eol: string)
    requires EndOfLine(eol) && bs != [] && Occurs(s, i, Body(bs, eol)) && LineEndsAt(s, i + |Body(bs, eol)|)
    ensures GroupEnd(s, i) == i + |Body(bs, eol)|
    decreases |bs|
  {
    var c := Cell(bs[0]);
    if |bs| == 1 {
      OccursParts(s, i, c, eol);
      TokenThenSpace(s, i, c, eol);
    } else {
      var tail := Body(bs[1..], eol);
      OccursParts(s, i, c, " " + tail);
      OccursParts(s, i + 4, " ", tail);
      BodyStart(bs[1..], eol);
      assert tail[0] == s[i + 5 + 0];
      TokenThenSpace(s, i, c, " ");
      GroupOfBody(s, i + 5, bs[1..], eol);
    }
  }

  lemma MatchOfRow(s: string, i: nat, row: Row, eol: string)
    requires Printable(row) && EndOfLine(eol) && Occurs(s, i, PrintRow(row, eol))
    requires LineEndsAt(s, i + |PrintRow(row, eol)|)
    ensures var g := i + |row.address| + 2;
      && LineMatch(s, i) == Some((g, g + |Body(row.bytes, eol)|)) && Occurs(s, g, Body(row.bytes, eol))
      && i + |PrintRow(row, eol)| == g + |Body(row.bytes, eol)|
  {
    var body, h := Body(row.bytes, eol), i + |row.address|;
    OccursParts(s, i, row.address, ":" + (" " + body));
    OccursParts(s, h, ":", " " + body);
    OccursParts(s, h + 1, " ", body);
    assert s[h] == ":"[0];
    HexEndAt(s, i, row.address, 0);
    BodyStart(row.bytes, eol);
    assert body[0] == s[h + 2 + 0];
    SpaceEndAt(s, h + 1, " ", 0);
    GroupOfBody(s, h + 2, row.bytes, eol);
  }

  lemma RowsStart(s: string, i: nat, rows: seq<Row>, eol: string)
    requires AllPrintable(rows) && EndOfLine(eol)
    requires Occurs(s, i, PrintDump(rows, eol)) && i + |PrintDump(rows, eol)| == |s|
    ensures LineEndsAt(s, i)
  {
    if rows != [] {
      var a := rows[0].address;
      var rest := PrintDump(rows[1..], eol);
      OccursParts(s, i, PrintRow(rows[0], eol), rest);
      OccursParts(s, i, a, ":" + (" " + Body(rows[0].bytes, eol)));
      OccursParts(s, i + |a|, ":", " " + Body(rows[0].bytes, eol));
      assert a[0] == s[i + 0];
      assert |a| > 1 ==> a[1] == s[i + 1];
      assert s[i + |a|] == ":"[0];
    }
  }

  lemma GroupBytesCons(g: string, gs: seq<string>, a: seq<byte>, b: seq<byte>)
    requires TokenBytes(Words(g, 0)) == Some(a) && GroupBytes(gs) == Some(b)
    ensures GroupBytes([g] + gs) == Some(a + b)
  {
    assert ([g] + gs)[1..] == gs;
  }

  lemma GroupsFromMatch(s: string, i: nat, g: nat, e: nat)
    requires i < g < e <= |s| && LineMatch(s, i) == Some((g, e)) && (i == 0 || s[i - 1] == '\n')
    ensures Groups(s, i) == [s[g..e]] + Groups(s, e)
  {
    assert Groups(s, i) == GroupsFrom(s, i, Some((g, e)));
  }

  /** A printed line matches, its group is its body, and scanning goes on right after it. */
  lemma GroupsOfRow(s: string, i: nat, row: Row, eol: string)
    requires Printable(row) && EndOfLine(eol) && Occurs(s, i, PrintRow(row, eol))
    requires LineEndsAt(s, i + |PrintRow(row, eol)|) && (i == 0 || s[i - 1] == '\n')
    ensures var j := i + |PrintRow(row, eol)|;
      Groups(s, i) == [Body(row.bytes, eol)] + Groups(s, j) && s[j - 1] == '\n'
  {
    var g, body := i + |row.address| + 2, Body(row.bytes, eol);
    MatchOfRow(s, i, row, eol);
    BodyEnds(row.bytes, eol);
    GroupsFromBody(s, i, g, body);
  }

  lemma GroupsFromBody(s: string, i: nat, g: nat, body: string)
    requires i < g && Occurs(s, g, body) && body != "" && body[|body| - 1] == '\n'
    requires LineMatch(s, i) == Some((g, g + |body|)) && (i == 0 || s[i - 1] == '\n')
    ensures Groups(s, i) == [body] + Groups(s, g + |body|) && s[g + |body| - 1] == '\n'
  {
    BodyAtEnd(s, g, body);
    GroupsFromMatch(s, i, g, g + |body|);
  }

  lemma BodyAtEnd(s: string, g: nat, body: string)
    requires Occurs(s, g, body) && body != "" && body[|body| - 1] == '\n'
    ensures s[g..g + |body|] == body && s[g + |body| - 1] == '\n'
  {
    OccursSlice(s, g, body);
    assert body[|body| - 1] == s[g + (|body| - 1)];
  }

  lemma {:induction false} GroupsOfRows(s: string, i: nat, rows: seq<Row>, eol: string)
    requires AllPrintable(rows) && EndOfLine(eol)
    requires Occurs(s, i, PrintDump(rows, eol)) && i + |PrintDump(rows, eol)| == |s|
    requires i == 0 || s[i - 1] == '\n'
    ensures GroupBytes(Groups(s, i)) == Some(DumpBytes(rows))
    decreases |rows|
  {
    if rows == [] {
      assert Groups(s, |s|) == [];
    } else {
      var j := i + |PrintRow(rows[0], eol)|;
      OccursParts(s, i, PrintRow(rows[0], eol), PrintDump(rows[1..], eol));
      RowsStart(s, j, rows[1..], eol);
      GroupsOfRow(s, i, rows[0], eol);
      GroupsOfRows(s, j, rows[1..], eol);
      BodyWords(rows[0].bytes, eol);
      GroupBytesCons(Body(rows[0].bytes, eol), Groups(s, j), rows[0].bytes, DumpBytes(rows[1..]));
    }
  }

  /** Whatever the addresses and however many bytes a line has, reading the printed dump gives the bytes. */
  lemma DumpRoundTrip(rows: seq<Row>, eol: string)
    requires AllPrintable(rows) && EndOfLine(eol)
    ensures ReadDump(PrintDump(rows, eol)) == Some(DumpBytes(rows))
  {
    GroupsOfRows(PrintDump(rows, eol), 0, rows, eol);
  }

  // ---- the form in the docstring --------------------------------------------------------

  lemma {:induction false} NoMatches(s: string, i: nat)
    requires i <= |s|
    requires forall p | i <= p <= |s| && (p == 0 || s[p - 1] == '\n') :: LineMatch(s, p).None?
    ensures Groups(s, i) == []
    decreases |s| - i
  {
    if i < |s| {
      NoMatches(s, i + 1);
    }
  }

  /** No newline but perhaps at the very end. */
  predicate OneLine(s: string) {
    forall k | 0 <= k < |s| - 1 :: s[k] != '\n'
  }

  lemma {:induction false} BodyOneLine(bs: seq<byte>)
    requires bs != []
    ensures OneLine(Body(bs, "\n"))
    decreases |bs|
  {
    if |bs| == 1 {
      SolidThenLine(Cell(bs[0]), "\n");
    } else {
      var tail := Body(bs[1..], "\n");
      BodyOneLine(bs[1..]);
      BodyStart(bs[1..], "\n");
      SolidThenLine(" ", tail);
      SolidThenLine(Cell(bs[0]), " " + tail);
    }
  }

  lemma SolidThenLine(w: string, rest: string)
    requires rest != "" && OneLine(rest) && forall i | 0 <= i < |w| :: w[i] != '\n'
    ensures OneLine(w + rest)
  {
    forall k | 0 <= k < |w + rest| - 1
      ensures (w + rest)[k] != '\n'
    {
      assert (w + rest)[k] == if k < |w| then w[k] else rest[k - |w|];
    }
  }

  /** An address with the 0x prefix, as the docstring shows it, makes the line invisible to the reader. */
  lemma PrefixedAddressIsNotRead(row: Row)
    requires Printable(row)
    ensures ReadDump("0x" + PrintRow(row, "\n")) == Some([])
  {
    var body := Body(row.bytes, "\n");
    var s := "0x" + (row.address + (":" + (" " + body)));
    BodyOneLine(row.bytes);
    BodyStart(row.bytes, "\n");
    SolidThenLine(" ", body);
    SolidThenLine(":", " " + body);
    SolidThenLine(row.address, ":" + (" " + body));
    SolidThenLine("0x", row.address + (":" + (" " + body)));
    assert HexEnd(s, 0) == HexEnd(s, 1) == 1;
    NoMatches(s, 0);
  }
}
