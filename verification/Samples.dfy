/** Two dumps as they come, character by character, and what is made of them. */
module Samples {
  import opened Bytes
  import opened Lists
  import opened Hex
  import opened Text
  import opened MemoryDump
  import opened MemoryView
  import opened RegisterDump
  import opened RegisterPrint
  import opened RegisterCpus
  import Decimal

  /** An ordinary read, as text. */
  lemma OrdinaryRead()
    ensures FormatDump("c0000000: 0x82 0x10 0x00 0x00\n", 4) == Some("82100000")
  {
    var bs: seq<byte> := [0x82, 0x10, 0x00, 0x00];
    var rows := [Row("c0000000", bs)];
    assert DumpBytes(rows) == bs;
    OrdinaryPrint(bs);
    DumpRoundTrip(rows, "\n");
    OrdinaryTokens(bs);
  }

  lemma OrdinaryTokens(bs: seq<byte>)
    requires bs == [0x82, 0x10, 0x00, 0x00]
    ensures WordTokens(bs) == ["82100000"]
  {
    assert bs[..4] == bs && bs[4..] == [];
    OrdinaryWord();
  }

  lemma OrdinaryPrint(bs: seq<byte>)
    requires bs == [0x82, 0x10, 0x00, 0x00]
    ensures PrintDump([Row("c0000000", bs)], "\n") == "c0000000: 0x82 0x10 0x00 0x00\n"
  {
    OrdinaryCells();
    BodyOfFour(0x82, 0x10, 0x00, 0x00, "\n");
    LineOfBody(Row("c0000000", bs), "0x82 0x10 0x00 0x00\n", "\n");
  }

  lemma OrdinaryCells()
    ensures Cell(0x82) == "0x82" && Cell(0x10) == "0x10" && Cell(0x00) == "0x00"
  {
    TwoDigits(0x82, 8, 2);
    TwoDigits(0x10, 1, 0);
    TwoDigits(0x00, 0, 0);
  }

  lemma BodyOfFour(a: byte, b: byte, c: byte, d: byte, eol: string)
    ensures Body([a, b, c, d], eol) == Cell(a) + (" " + (Cell(b) + (" " + (Cell(c) + (" " + (Cell(d) + eol))))))
  {
    BodyMore(c, [d], eol);
    BodyMore(b, [c, d], eol);
    BodyMore(a, [b, c, d], eol);
    assert [c] + [d] == [c, d] && [b] + [c, d] == [b, c, d] && [a] + [b, c, d] == [a, b, c, d];
  }

  lemma BodyMore(b: byte, rest: seq<byte>, eol: string)
    requires rest != []
    ensures Body([b] + rest, eol) == Cell(b) + (" " + Body(rest, eol))
  {
    assert ([b] + rest)[1..] == rest;
  }

  lemma LineOfBody(row: Row, body: string, eol: string)
    requires Body(row.bytes, eol) == body
    ensures PrintDump([row], eol) == row.address + (": " + body)
  {
    assert [row][1..] == [];
    assert ":" + (" " + body) == ": " + body;
  }

  lemma TwoDigits(v: nat, h: nat, l: nat)
    requires v / 16 == h < 16 && v % 16 == l
    ensures Padded(v, 2) == [Digit(h), Digit(l)]
  {
    assert h % 16 == h;
    assert Padded(h, 1) == Padded(h / 16, 0) + [Digit(h)];
  }

  lemma OrdinaryWord()
    ensures Padded(0x8210_0000, 8) == "82100000"
  {
    assert Padded(0x8, 1) == Padded(0, 0) + ['8'];
    assert Padded(0x82, 2) == Padded(0x8, 1) + ['2'];
    assert Padded(0x821, 3) == Padded(0x82, 2) + ['1'];
    assert Padded(0x8210, 4) == Padded(0x821, 3) + ['0'];
    assert Padded(0x8_2100, 5) == Padded(0x8210, 4) + ['0'];
    assert Padded(0x82_1000, 6) == Padded(0x8_2100, 5) + ['0'];
    assert Padded(0x821_0000, 7) == Padded(0x82_1000, 6) + ['0'];
    assert Padded(0x8210_0000, 8) == Padded(0x821_0000, 7) + ['0'];
  }

  // ---- registers ------------------------------------------------------------------------

  lemma QuietSpace(w: string)
    requires w == "\n" || w == "  "
    ensures Quiet(w)
  {
  }

  lemma EightDigits(v: nat, h: nat, w: string)
    requires v == 16 * h + v % 16 && Padded(h, 7) + [Digit(v % 16)] == w
    ensures Padded(v, 8) == w
  {
    assert v / 16 == h;
  }

  lemma Address()
    ensures Padded(0x400_0100, 7) == "4000100"
  {
    assert Padded(0x4, 1) == Padded(0, 0) + ['4'];
    assert Padded(0x40, 2) == Padded(0x4, 1) + ['0'];
    assert Padded(0x400, 3) == Padded(0x40, 2) + ['0'];
    assert Padded(0x4000, 4) == Padded(0x400, 3) + ['0'];
    assert Padded(0x4_0001, 5) == Padded(0x4000, 4) + ['1'];
    assert Padded(0x40_0010, 6) == Padded(0x4_0001, 5) + ['0'];
    assert Padded(0x400_0100, 7) == Padded(0x40_0010, 6) + ['0'];
  }

  lemma JoinedThree(a: string, b: string, c: string)
    ensures Joined([a, b, c]) == a + (b + c)
  {
    assert [a, b, c][1..] == [b, c] && [b, c][1..] == [c] && [c][1..] == [];
    assert Joined([c]) == c + "" == c;
    assert Joined([b, c]) == b + Joined([c]);
  }

  lemma ScalarText(name: string, v: nat, digits: string, after: string)
    requires Padded(v, 8) == digits
    ensures SegText(Scalar(name, v, after)) == name + (": " + (digits + after))
  {
  }

  lemma OrdinaryBlock(pc: Seg, npc: Seg)
    requires pc == Scalar("pc", 0x4000_1000, "  ") && npc == Scalar("npc", 0x4000_1004, "\n")
    ensures BlockText([Plain("\n"), pc, npc]) == "\npc: 40001000  npc: 40001004\n"
  {
    Address();
    EightDigits(0x4000_1000, 0x400_0100, "40001000");
    EightDigits(0x4000_1004, 0x400_0100, "40001004");
    ScalarText("pc", 0x4000_1000, "40001000", "  ");
    ScalarText("npc", 0x4000_1004, "40001004", "\n");
    OrdinaryJoined(pc, npc);
    JoinedThree("\n", "pc: 40001000  ", "npc: 40001004\n");
  }

  lemma OrdinaryJoined(pc: Seg, npc: Seg)
    requires SegText(pc) == "pc" + (": " + ("40001000" + "  "))
    requires SegText(npc) == "npc" + (": " + ("40001004" + "\n"))
    ensures Texts([Plain("\n"), pc, npc]) == ["\n", "pc: 40001000  ", "npc: 40001004\n"]
  {
    assert SegText(pc) == "pc: 40001000  ";
    assert SegText(npc) == "npc: 40001004\n";
  }

  lemma OrdinarySegs(segs: seq<Seg>)
    requires segs == [Plain("\n"), Scalar("pc", 0x4000_1000, "  "), Scalar("npc", 0x4000_1004, "\n")]
    ensures BlockOk(segs)
    ensures Reported(segs).pc == 0x4000_1000 && Reported(segs).npc == 0x4000_1004 && Reported(segs).psr == 0
  {
    QuietSpace("\n");
    QuietSpace("  ");
    FirstIs(ScalarsIn(segs, "pc"), 0, 1);
    FirstIs(ScalarsIn(segs, "npc"), 0, 2);
    FirstNone(ScalarsIn(segs, "psr"), 0);
  }

  lemma OneCpu(id: nat, block: string)
    requires 0 < id < 10
    ensures DumpText("", [Part(id, block)]) == "CPU#" + ([Decimal.DigitOf(id)] + block)
  {
    var ts := PartTexts([Part(id, block)]);
    assert Joined(ts[1..]) == "";
    assert Joined(ts) == ts[0] + "" == ts[0];
    assert id / 10 == 0 && id % 10 == id;
    assert Decimal.Digits(id) == Decimal.Digits(0) + [Decimal.DigitOf(id)];
  }

  /** A dump of one CPU is read as its block says, and for another CPU as zeros. */
  lemma DumpOfOne(segs: seq<Seg>, id: nat, block: string, text: string)
    requires BlockOk(segs) && BlockText(segs) == block && 0 < id < 10
    requires block != "" && !Decimal.IsDigit(block[0]) && Last(block) == '\n'
    requires text == "CPU#" + ([Decimal.DigitOf(id)] + block)
    ensures ParseRegisters(text, id) == Reported(segs) && ParseRegisters(text, 0) == EMPTY
  {
    var cpus := [Cpu(id, segs)];
    OneCpu(id, block);
    assert CpuParts(cpus) == [Part(id, block)];
    RegisterRoundTrip("", cpus, 0);
    AbsentCpuIsZero("", cpus, 0);
  }

  /** An ordinary dump: npc does not pass for pc, and a CPU that is not there has no registers. */
  lemma OrdinaryDump()
    ensures var text := "CPU#1" + "\npc: 40001000  npc: 40001004\n";
      && ParseRegisters(text, 1).pc == 0x4000_1000 && ParseRegisters(text, 1).npc == 0x4000_1004
      && ParseRegisters(text, 1).psr == 0 && ParseRegisters(text, 0).pc == 0
  {
    var pc, npc := Scalar("pc", 0x4000_1000, "  "), Scalar("npc", 0x4000_1004, "\n");
    OrdinaryBlock(pc, npc);
    OrdinarySegs([Plain("\n"), pc, npc]);
    var block := "\npc: 40001000  npc: 40001004\n";
    HeaderOne(block);
    DumpOfOne([Plain("\n"), pc, npc], 1, block, "CPU#1" + block);
  }

  lemma HeaderOne(block: string)
    ensures "CPU#" + ([Decimal.DigitOf(1)] + block) == "CPU#1" + block
  {
    assert Decimal.DigitOf(1) == '1';
    assert "CPU#" + ['1'] == "CPU#1";
    Assoc("CPU#", ['1'], block);
  }
}
