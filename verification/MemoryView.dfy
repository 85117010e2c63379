/** The words the adapter writes for a memory read, and the table the page makes of them. */
module MemoryView {
  import opened Bytes
  import opened Lists
  import opened Hex
  import opened Text
  import opened MemoryDump

  /** The adapter's words: whole big-endian words, then single bytes. */
  function WordTokens(bs: seq<byte>): (ws: seq<string>) {
    if |bs| >= 4 then [Padded(DecodeBE32(bs[..4]), 8)] + WordTokens(bs[4..])
    else if bs == [] then []
    else [Padded(bs[0], 2)] + WordTokens(bs[1..])
  }

  /** data[:size] */
  function Cut(bs: seq<byte>, size: nat): seq<byte> {
    if |bs| <= size then bs else bs[..size]
  }

  function FormatDump(text: string, size: nat): Option<string> {
    match ReadDump(text)
    case None => None
    case Some(bs) => Some(JoinSpaced(WordTokens(Cut(bs, size))))
  }

  /** The word loop of _format_memory_dump, up to the last whole word. */
  method WholeWords(bs: seq<byte>) returns (words: seq<string>, end: nat)
    ensures end <= |bs| < end + 4 && words + WordTokens(bs[end..]) == WordTokens(bs)
  {
    words, end := [], 0;
    var whole := |bs| - |bs| % 4;
    ghost var k, n := 0, |bs| / 4;
    assert bs[0..] == bs && [] + WordTokens(bs) == WordTokens(bs);
    while end < whole
      invariant end == 4 * k && whole == 4 * n && k <= n
      invariant words + WordTokens(bs[end..]) == WordTokens(bs)
    {
      var word := DecodeBE32(bs[end..end + 4]);
      OneWord(words, bs, end);
      words := words + [Padded(word, 8)];
      end, k := end + 4, k + 1;
    }
  }

  /** _format_memory_dump; None where int() raises. */
  method FormatMemoryDump(text: string, size: nat) returns (r: Option<string>)
    ensures r == FormatDump(text, size)
  {
    var bytes := ReadBytes(text);
    if bytes.None? {
      return None;
    }
    var data := FormatWords(Cut(bytes.value, size));
    r := Some(data);
  }

  /** The words of a dump, from the bytes on. */
  method FormatWords(bs: seq<byte>) returns (text: string)
    ensures text == JoinSpaced(WordTokens(bs))
  {
    var words, i := WholeWords(bs);
    while i < |bs|
      invariant |bs| - 4 < i <= |bs|
      invariant words + WordTokens(bs[i..]) == WordTokens(bs)
    {
      OneByte(words, bs, i);
      words := words + [Padded(bs[i], 2)];
      i := i + 1;
    }
    assert words + [] == words;
    text := JoinSpaced(words);
  }

  lemma OneWord(words: seq<string>, bs: seq<byte>, i: nat)
    requires i + 4 <= |bs|
    ensures words + WordTokens(bs[i..]) == (words + [Padded(DecodeBE32(bs[i..i + 4]), 8)]) + WordTokens(bs[i + 4..])
  {
    assert bs[i..][..4] == bs[i..i + 4] && bs[i..][4..] == bs[i + 4..];
    Assoc(words, [Padded(DecodeBE32(bs[i..i + 4]), 8)], WordTokens(bs[i + 4..]));
  }

  lemma OneByte(words: seq<string>, bs: seq<byte>, i: nat)
    requires |bs| - 4 < i < |bs|
    ensures words + WordTokens(bs[i..]) == (words + [Padded(bs[i], 2)]) + WordTokens(bs[i + 1..])
  {
    assert bs[i..][1..] == bs[i + 1..];
    Assoc(words, [Padded(bs[i], 2)], WordTokens(bs[i + 1..]));
  }

  // ---- the page -------------------------------------------------------------------------

  /** parseInt(w, 16) of each word of the data field. */
  function PageWords(data: string): Option<seq<nat>> {
    ParseAll(Words(data, 0))
  }

  function ParseAll(ws: seq<string>): Option<seq<nat>> {
    if ws == [] then Some([])
    else
      match ParseAll(ws[1..])
      case Some(vs) => if IsHex(ws[0]) then Some([Value(ws[0])] + vs) else None
      case None => None
  }

  /** What the words stand for: four bytes each, the ones left over one each. */
  function WordValues(bs: seq<byte>): (vs: seq<nat>) {
    if |bs| >= 4 then [DecodeBE32(bs[..4])] + WordValues(bs[4..])
    else if bs == [] then []
    else [bs[0]] + WordValues(bs[1..])
  }

  lemma {:induction false} TokensAreWords(bs: seq<byte>)
    ensures AllWords(WordTokens(bs)) && ParseAll(WordTokens(bs)) == Some(WordValues(bs))
  {
    assert Pow16(8) == 0x1_0000_0000 && Pow16(2) == 0x100 by {
      assert Pow16(4) == 0x1_0000;
    }
    if |bs| >= 4 {
      TokensAreWords(bs[4..]);
      ValueOfPadded(DecodeBE32(bs[..4]), 8);
      TokenInFront(Padded(DecodeBE32(bs[..4]), 8), WordTokens(bs[4..]));
    } else if bs != [] {
      TokensAreWords(bs[1..]);
      ValueOfPadded(bs[0], 2);
      TokenInFront(Padded(bs[0], 2), WordTokens(bs[1..]));
    }
  }

  /** Words are eight digits wide, bytes two. */
  lemma {:induction false} TokenWidths(bs: seq<byte>, i: nat)
    requires i < |WordTokens(bs)|
    ensures |WordTokens(bs)[i]| == if 4 * i + 4 <= |bs| then 8 else 2
    decreases |bs|
  {
    if i > 0 {
      var rest := if |bs| >= 4 then bs[4..] else bs[1..];
      assert WordTokens(bs)[i] == WordTokens(rest)[i - 1];
      TokenWidths(rest, i - 1);
    }
  }

  /** As many tokens as words and bytes. */
  lemma {:induction false} TokenCount(bs: seq<byte>)
    ensures |WordTokens(bs)| == |WordValues(bs)|
    decreases |bs|
  {
    if |bs| >= 4 {
      TokenCount(bs[4..]);
    } else if bs != [] {
      TokenCount(bs[1..]);
    }
  }

  lemma TokenInFront(w: string, ws: seq<string>)
    requires w != "" && IsHex(w) && AllWords(ws) && ParseAll(ws).Some?
    ensures AllWords([w] + ws) && ParseAll([w] + ws) == Some([Value(w)] + ParseAll(ws).value)
  {
    assert ([w] + ws)[1..] == ws;
    forall i | 0 <= i < |w|
      ensures !IsSpace(w[i])
    {
      assert IsHexDigit(w[i]);
    }
  }

  /**
   * From QEMU's print to the page's words, for any layout of the lines: all that was printed, or as
   * much of it as was asked for.
   */
  lemma PageGetsTheWords(rows: seq<Row>, eol: string, size: nat)
    requires AllPrintable(rows) && EndOfLine(eol)
    ensures var data, bs := FormatDump(PrintDump(rows, eol), size), DumpBytes(rows);
      && data.Some?
      && (|bs| <= size ==> PageWords(data.value) == Some(WordValues(bs)))
      && (|bs| > size ==> PageWords(data.value) == Some(WordValues(bs[..size])))
  {
    DumpRoundTrip(rows, eol);
    var bs := Cut(DumpBytes(rows), size);
    TokensAreWords(bs);
    WordsOfJoined(JoinSpaced(WordTokens(bs)), 0, WordTokens(bs));
  }

  // ---- does the table show memory? ------------------------------------------------------

  /** The bytes the page shows for its words: it pads every one to eight digits. */
  function ShownBytes(vs: seq<nat>): (bs: seq<byte>)
    ensures |bs| == 4 * |vs|
  {
    if vs == [] then [] else EncodeBE32(vs[0] % 0x1_0000_0000) + ShownBytes(vs[1..])
  }

  lemma ShownFront(v: uint32, vs: seq<nat>)
    ensures ShownBytes([v] + vs) == EncodeBE32(v) + ShownBytes(vs)
  {
    assert ([v] + vs)[1..] == vs;
  }

  lemma {:induction false} WholeWordsShowMemory(bs: seq<byte>)
    requires |bs| % 4 == 0
    ensures ShownBytes(WordValues(bs)) == bs
  {
    if bs != [] {
      var front, rest := bs[..4], bs[4..];
      WholeWordsShowMemory(rest);
      ShownFront(DecodeBE32(front), WordValues(rest));
      EncodeDecodeBE32(front);
      assert bs == front + rest;
    }
  }

  lemma {:induction false} WordCount(bs: seq<byte>)
    ensures |WordValues(bs)| == |bs| / 4 + |bs| % 4
  {
    if |bs| >= 4 {
      WordCount(bs[4..]);
    } else if bs != [] {
      WordCount(bs[1..]);
    }
  }

  /** The table shows exactly the bytes that were read if and only if their number is a multiple of four. */
  lemma ShownIffWholeWords(bs: seq<byte>)
    ensures ShownBytes(WordValues(bs)) == bs <==> |bs| % 4 == 0
  {
    if |bs| % 4 == 0 {
      WholeWordsShowMemory(bs);
    } else {
      WordCount(bs);
    }
  }

  /** A read of whole words shows exactly the memory asked for, whatever lines QEMU printed it in. */
  lemma PageShowsTheMemory(rows: seq<Row>, eol: string, size: nat)
    requires AllPrintable(rows) && EndOfLine(eol) && size % 4 == 0 && |DumpBytes(rows)| >= size
    ensures var data := FormatDump(PrintDump(rows, eol), size);
      && data.Some? && PageWords(data.value).Some?
      && ShownBytes(PageWords(data.value).value) == DumpBytes(rows)[..size]
  {
    PageGetsTheWords(rows, eol, size);
    var bs := DumpBytes(rows);
    assert |bs| == size ==> bs[..size] == bs;
    WholeWordsShowMemory(bs[..size]);
  }

  function BigEndian(a: int, b: int, c: int, d: int): int {
    a * 0x100_0000 + b * 0x1_0000 + c * 0x100 + d
  }

  /** The words are big-endian, in order, and after them come the last bytes, in order. */
  lemma WordValuesAre(bs: seq<byte>, i: nat)
    requires i < |WordValues(bs)|
    ensures |WordValues(bs)| == |bs| / 4 + |bs| % 4
    ensures var whole := |bs| / 4;
      if i < whole then
        WordValues(bs)[i] == BigEndian(bs[4 * i], bs[4 * i + 1], bs[4 * i + 2], bs[4 * i + 3])
      else WordValues(bs)[i] == bs[4 * whole + (i - whole)]
  {
    var whole := |bs| / 4;
    WordCount(bs);
    if i < whole {
      ValuesDrop(bs, i);
      FirstWord(bs[4 * i..]);
    } else {
      ValuesDrop(bs, whole);
      LastBytesAre(bs[4 * whole..]);
    }
  }

  lemma FirstWord(bs: seq<byte>)
    requires |bs| >= 4
    ensures |WordValues(bs)| > 0
    ensures WordValues(bs)[0] == BigEndian(bs[0], bs[1], bs[2], bs[3])
  {
  }

  lemma {:induction false} LastBytesAre(bs: seq<byte>)
    requires |bs| < 4
    ensures |WordValues(bs)| == |bs| && forall i | 0 <= i < |bs| :: WordValues(bs)[i] == bs[i]
  {
    if bs != [] {
      LastBytesAre(bs[1..]);
      forall i | 0 <= i < |bs|
        ensures WordValues(bs)[i] == bs[i]
      {
        if i > 0 {
          assert WordValues(bs)[i] == WordValues(bs[1..])[i - 1];
        }
      }
    }
  }

  datatype TableRow = TableRow(addr: string, words: seq<nat>, ascii: string)

  function FormatHexAddr(n: nat): string {
    "0x" + Padded(n % 0x1_0000_0000, 8)
  }

  function Glyph(b: byte): char {
    if 32 <= b < 127 then b as char else '.'
  }

  function Glyphs(bs: seq<byte>): (s: string)
    ensures |s| == |bs| && forall i | 0 <= i < |s| :: s[i] == Glyph(bs[i])
  {
    seq(|bs|, i requires 0 <= i < |bs| => Glyph(bs[i]))
  }

  /** The four glyphs of one word, from the high byte down. */
  method WordGlyphs(w: nat) returns (s: string)
    ensures s == Glyphs(EncodeBE32(w % 0x1_0000_0000))
  {
    var word := w % 0x1_0000_0000;
    s := [Glyph(word / 0x100_0000)];
    s := s + [Glyph(word / 0x1_0000 % 0x100)];
    s := s + [Glyph(word / 0x100 % 0x100)];
    s := s + [Glyph(word % 0x100)];
  }

  function Slice<T>(a: seq<T>, i: nat, n: nat): (r: seq<T>)
    requires i <= |a|
  {
    if i + n <= |a| then a[i..i + n] else a[i..]
  }

  function TableRowAt(vs: seq<nat>, base: nat, i: nat): TableRow
    requires i <= |vs|
  {
    var row := Slice(vs, i, 4);
    TableRow(FormatHexAddr(base + 4 * i), row, Glyphs(ShownBytes(row)))
  }

  /** The text column of one row. */
  method RowGlyphs(words: seq<nat>) returns (ascii: string)
    ensures ascii == Glyphs(ShownBytes(words))
  {
    ascii := "";
    var k := 0;
    while k < |words|
      invariant k <= |words| && ascii == Glyphs(ShownBytes(words[..k]))
    {
      var g := WordGlyphs(words[k]);
      ShownOneMore(words[..k], words[k]);
      assert words[..k + 1] == words[..k] + [words[k]];
      ascii := ascii + g;
      k := k + 1;
    }
    assert words[..k] == words;
  }

  method BuildRow(vs: seq<nat>, base: nat, i: nat) returns (row: TableRow)
    requires i < |vs|
    ensures row == TableRowAt(vs, base, i)
  {
    var words := Slice(vs, i, 4);
    var ascii := RowGlyphs(words);
    row := TableRow(FormatHexAddr(base + i * 4), words, ascii);
  }

  /** The row-building loop of MemoryPane. */
  method BuildRows(vs: seq<nat>, base: nat) returns (rows: seq<TableRow>)
    ensures |rows| == (|vs| + 3) / 4
    ensures forall r | 0 <= r < |rows| :: rows[r] == TableRowAt(vs, base, 4 * r)
  {
    rows := [];
    var i := 0;
    while i < |vs|
      invariant i == 4 * |rows| && i < |vs| + 4
      invariant forall r | 0 <= r < |rows| :: rows[r] == TableRowAt(vs, base, 4 * r)
    {
      var row := BuildRow(vs, base, i);
      rows := rows + [row];
      i := i + 4;
    }
  }

  lemma {:induction false} ShownConcat(a: seq<nat>, b: seq<nat>)
    ensures ShownBytes(a + b) == ShownBytes(a) + ShownBytes(b)
    decreases |a|
  {
    if a == [] {
      assert a + b == b;
    } else {
      assert (a + b)[1..] == a[1..] + b;
      ShownConcat(a[1..], b);
    }
  }

  lemma ShownOneMore(a: seq<nat>, v: nat)
    ensures Glyphs(ShownBytes(a + [v])) == Glyphs(ShownBytes(a)) + Glyphs(EncodeBE32(v % 0x1_0000_0000))
  {
    ShownConcat(a, [v]);
    assert [v][1..] == [];
    assert ShownBytes([v]) == EncodeBE32(v % 0x1_0000_0000);
  }

  /**
   * For a read of whole words, row r of the table is headed by the address of byte 16 r and
   * shows, as words and as text, exactly the memory from there on.
   */
  lemma TableShowsMemory(mem: seq<byte>, base: nat, r: nat)
    requires |mem| % 4 == 0 && 16 * r < |mem|
    ensures 4 * r <= |WordValues(mem)|
    ensures var row := TableRowAt(WordValues(mem), base, 4 * r);
      && row.addr == FormatHexAddr(base + 16 * r)
      && ShownBytes(row.words) == Slice(mem, 16 * r, 16)
      && row.ascii == Glyphs(Slice(mem, 16 * r, 16))
  {
    WholeAfterRows(|mem|, r);
    RowShows(mem, mem[16 * r..], 4 * r, 16 * r);
  }

  /** The same in the page's own terms: the address reads back, and printable bytes show as themselves. */
  lemma TableReadsBack(mem: seq<byte>, base: nat, r: nat)
    requires |mem| % 4 == 0 && 16 * r < |mem|
    ensures 4 * r <= |WordValues(mem)|
    ensures var row, n := TableRowAt(WordValues(mem), base, 4 * r), if 16 * r + 16 <= |mem| then 16 else |mem| - 16 * r;
      && |row.addr| == 10 && row.addr[..2] == "0x" && IsHex(row.addr[2..])
      && Value(row.addr[2..]) == (base + 16 * r) % 0x1_0000_0000
      && ShownBytes(row.words) == mem[16 * r..16 * r + n]
      && |row.ascii| == n
      && forall i | 0 <= i < n ::
           row.ascii[i] == if ' ' as int <= mem[16 * r + i] <= '~' as int then mem[16 * r + i] as char else '.'
  {
    TableShowsMemory(mem, base, r);
    AddressReadsBack(base + 16 * r);
  }

  lemma AddressReadsBack(n: nat)
    ensures var addr := FormatHexAddr(n);
      |addr| == 10 && addr[..2] == "0x" && IsHex(addr[2..]) && Value(addr[2..]) == n % 0x1_0000_0000
  {
    assert FormatHexAddr(n)[2..] == Padded(n % 0x1_0000_0000, 8);
    assert Pow16(4) == 0x1_0000 && Pow16(8) == 0x1_0000_0000;
    ValueOfPadded(n % 0x1_0000_0000, 8);
  }

  lemma RowShows(mem: seq<byte>, rest: seq<byte>, n: nat, m: nat)
    requires m == 4 * n && m <= |mem| && rest == mem[m..] && |rest| % 4 == 0
    ensures n <= |WordValues(mem)|
    ensures ShownBytes(Slice(WordValues(mem), n, 4)) == Slice(mem, m, 16)
  {
    ValuesDrop(mem, n);
    FirstRowShows(rest);
    RowFromRest(WordValues(mem), mem, n, m);
  }

  lemma WholeAfterRows(size: nat, r: nat)
    requires size % 4 == 0 && 16 * r <= size
    ensures (size - 16 * r) % 4 == 0
  {
    assert size - 16 * r == 4 * (size / 4 - 4 * r);
  }

  lemma RowFromRest(vs: seq<nat>, mem: seq<byte>, n: nat, m: nat)
    requires n <= |vs| && m <= |mem|
    requires ShownBytes(Slice(vs[n..], 0, 4)) == Slice(mem[m..], 0, 16)
    ensures ShownBytes(Slice(vs, n, 4)) == Slice(mem, m, 16)
  {
    SliceDrop(vs, n, 4);
    SliceDrop(mem, m, 16);
  }

  lemma SliceDrop<T>(a: seq<T>, i: nat, n: nat)
    requires i <= |a|
    ensures Slice(a, i, n) == Slice(a[i..], 0, n)
  {
  }

  lemma FirstRowShows(mem: seq<byte>)
    requires |mem| % 4 == 0
    ensures ShownBytes(Slice(WordValues(mem), 0, 4)) == Slice(mem, 0, 16)
  {
    if |mem| >= 16 {
      ValuesTake(mem, 4);
      WholeWordsShowMemory(mem[..16]);
    } else {
      WholeWordsShowMemory(mem);
      assert WordValues(mem)[0..] == WordValues(mem) && mem[0..] == mem;
    }
  }

  lemma {:induction false} ValuesDrop(mem: seq<byte>, n: nat)
    requires 4 * n <= |mem|
    ensures n <= |WordValues(mem)| && WordValues(mem)[n..] == WordValues(mem[4 * n..])
  {
    if n > 0 {
      ValuesDrop(mem[4..], n - 1);
      assert mem[4..][4 * (n - 1)..] == mem[4 * n..];
      assert WordValues(mem)[n..] == WordValues(mem[4..])[n - 1..];
    } else {
      assert mem[0..] == mem;
    }
  }

  lemma {:induction false} ValuesTake(mem: seq<byte>, n: nat)
    requires 4 * n <= |mem|
    ensures n <= |WordValues(mem)| && WordValues(mem)[..n] == WordValues(mem[..4 * n])
  {
    if n > 0 {
      ValuesTake(mem[4..], n - 1);
      assert mem[..4 * n][4..] == mem[4..][..4 * (n - 1)];
      assert mem[..4 * n][..4] == mem[..4];
    }
  }
}
