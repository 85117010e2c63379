/**
 * A printed dump of several CPUs, and the proof that the adapter's reader cuts it at the right
 * places and reports the CPU it was asked for from that CPU's text alone.
 */
module RegisterCpus {
  import opened Lists
  import opened Text
  import opened RegisterDump
  import opened RegisterPrint
  import Decimal

  /** A CPU's number and the text printed for it. */
  datatype Part = Part(id: nat, block: string)

  predicate PartOk(c: Part) {
    NoHeader(c.block) && c.block != "" && !Decimal.IsDigit(c.block[0]) && Last(c.block) == '\n'
  }

  function PartText(c: Part): string {
    "CPU#" + (Decimal.Numeral(c.id) + c.block)
  }

  function PartTexts(parts: seq<Part>): (ts: seq<string>) {
    seq(|parts|, k requires 0 <= k < |parts| => PartText(parts[k]))
  }

  /** What may come before the first CPU: whole lines without a header. */
  predicate PrefaceOk(pre: string) {
    NoHeader(pre) && (pre != "" ==> Last(pre) == '\n')
  }

  predicate PartsOk(pre: string, parts: seq<Part>) {
    PrefaceOk(pre) && forall k | 0 <= k < |parts| :: PartOk(parts[k])
  }

  function DumpText(pre: string, parts: seq<Part>): string {
    pre + Joined(PartTexts(parts))
  }

  // ---- one header -----------------------------------------------------------------------

  predicate LineStart(s: string, i: nat) {
    i == 0 || (i <= |s| && s[i - 1] == '\n')
  }

  lemma LineStartAfter(s: string, i: nat, w: string)
    requires Occurs(s, i, w) && w != "" && Last(w) == '\n'
    ensures LineStart(s, i + |w|)
  {
    assert w[|w| - 1] == s[i + (|w| - 1)];
  }

  lemma NoHeaderThere(s: string, i: nat, w: string, k: nat)
    requires Occurs(s, i, w) && k < |w| && NoHeader(w)
    ensures HeaderAt(s, i + k).None?
  {
    assert w[k] == s[i + k];
    assert k + 1 < |w| ==> w[k + 1] == s[i + (k + 1)];
    assert "CPU#"[0] == 'C' && "CPU#"[1] == 'P';
  }

  lemma {:induction false} HeadersAfter(s: string, i: nat, w: string, k: nat)
    requires Occurs(s, i, w) && k <= |w| && NoHeader(w)
    ensures Headers(s, i + k) == Headers(s, i + |w|)
    decreases |w| - k
  {
    if k < |w| {
      NoHeaderThere(s, i, w, k);
      HeadersAfter(s, i, w, k + 1);
    }
  }

  lemma {:induction false} DigitEndAt(s: string, i: nat, w: string, k: nat)
    requires k <= |w| && Occurs(s, i, w) && forall j | 0 <= j < |w| :: Decimal.IsDigit(w[j])
    requires i + |w| == |s| || !Decimal.IsDigit(s[i + |w|])
    ensures DigitEnd(s, i + k) == i + |w|
    decreases |w| - k
  {
    if k < |w| {
      assert w[k] == s[i + k];
      DigitEndAt(s, i, w, k + 1);
    }
  }

  function PrintedHeader(i: nat, id: nat): Header {
    Header(i, i + 4 + |Decimal.Numeral(id)|, id)
  }

  lemma HeaderFound(s: string, i: nat, id: nat, rest: string)
    requires Occurs(s, i, "CPU#" + (Decimal.Numeral(id) + rest)) && LineStart(s, i)
    requires rest != "" && !Decimal.IsDigit(rest[0])
    ensures HeaderAt(s, i) == Some(PrintedHeader(i, id))
    ensures Occurs(s, PrintedHeader(i, id).end, rest)
  {
    var n := Decimal.Numeral(id);
    Decimal.NumeralIsTheOne(id, "0");
    OccursParts(s, i, "CPU#", n + rest);
    OccursParts(s, i + 4, n, rest);
    assert rest[0] == s[i + 4 + |n| + 0];
    DigitEndAt(s, i + 4, n, 0);
    OccursSlice(s, i + 4, n);
  }

  lemma PartBlock(s: string, i: nat, c: Part)
    requires Occurs(s, i, PartText(c))
    ensures PrintedHeader(i, c.id).end + |c.block| == i + |PartText(c)|
    ensures Occurs(s, PrintedHeader(i, c.id).end, c.block)
  {
    var n, b := Decimal.Numeral(c.id), c.block;
    OccursParts(s, i, "CPU#", n + b);
    OccursParts(s, i + 4, n, b);
  }

  lemma PartLine(s: string, i: nat, c: Part, j: nat)
    requires PartOk(c) && Occurs(s, i, PartText(c)) && j == i + |PartText(c)|
    ensures LineStart(s, j)
  {
    PartBlock(s, i, c);
    LineStartAfter(s, PrintedHeader(i, c.id).end, c.block);
  }

  function HeadersFrom(s: string, i: nat): seq<Header> {
    if i <= |s| then Headers(s, i) else []
  }

  lemma HeaderThenBlock(s: string, i: nat, h: Header, block: string, j: nat)
    requires HeaderAt(s, i) == Some(h) && Occurs(s, h.end, block) && NoHeader(block) && j == h.end + |block|
    ensures Headers(s, i) == [h] + Headers(s, j)
  {
    HeadersAfter(s, h.end, block, 0);
  }

  lemma FromHeaders(s: string, i: nat, h: Header, j: nat)
    requires i <= |s| && j <= |s| && Headers(s, i) == [h] + Headers(s, j)
    ensures HeadersFrom(s, i) == [h] + HeadersFrom(s, j)
  {
  }

  /** A printed CPU gives its header, and the search goes on where its text ends. */
  lemma PartHeader(s: string, i: nat, c: Part, j: nat)
    requires PartOk(c) && Occurs(s, i, PartText(c)) && LineStart(s, i) && j == i + |PartText(c)|
    ensures HeadersFrom(s, i) == [PrintedHeader(i, c.id)] + HeadersFrom(s, j)
  {
    PartBlock(s, i, c);
    HeaderFound(s, i, c.id, c.block);
    HeaderThenBlock(s, i, PrintedHeader(i, c.id), c.block, j);
    FromHeaders(s, i, PrintedHeader(i, c.id), j);
  }

  // ---- a text in which CPUs stand one after another --------------------------------------

  ghost predicate Laid(s: string, at: seq<nat>, parts: seq<Part>) {
    && |at| == |parts| + 1 && at[|parts|] == |s|
    && forall k | 0 <= k < |parts| :: LaidAt(s, at[k], parts[k], at[k + 1])
  }

  ghost predicate LaidAt(s: string, i: nat, c: Part, j: nat) {
    PartOk(c) && Occurs(s, i, PartText(c)) && LineStart(s, i) && j == i + |PartText(c)|
  }

  lemma HeadersStep(s: string, at: seq<nat>, parts: seq<Part>, k: nat)
    requires Laid(s, at, parts) && k < |parts|
    ensures HeadersFrom(s, at[k]) == [PrintedHeader(at[k], parts[k].id)] + HeadersFrom(s, at[k + 1])
  {
    PartHeader(s, at[k], parts[k], at[k + 1]);
  }

  function PrintedHeaders(at: seq<nat>, parts: seq<Part>): (hs: seq<Header>)
    requires |at| == |parts| + 1
  {
    seq(|parts|, k requires 0 <= k < |parts| => PrintedHeader(at[k], parts[k].id))
  }

  /** Lists that each lose their first element to the next, down to the empty one. */
  lemma {:induction false} Unrolled<T>(tails: seq<seq<T>>, xs: seq<T>, k: nat)
    requires |tails| == |xs| + 1 && tails[|xs|] == [] && k <= |xs|
    requires forall j | 0 <= j < |xs| :: tails[j] == [xs[j]] + tails[j + 1]
    ensures tails[k] == xs[k..]
    decreases |xs| - k
  {
    if k < |xs| {
      Unrolled(tails, xs, k + 1);
    }
  }

  function Tails(s: string, at: seq<nat>): (ts: seq<seq<Header>>) {
    seq(|at|, k requires 0 <= k < |at| => HeadersFrom(s, at[k]))
  }

  /** Exactly the printed headers are found. */
  lemma HeadersFound(s: string, at: seq<nat>, parts: seq<Part>)
    requires Laid(s, at, parts)
    ensures HeadersFrom(s, at[0]) == PrintedHeaders(at, parts)
  {
    var tails, hs := Tails(s, at), PrintedHeaders(at, parts);
    forall k | 0 <= k < |hs|
      ensures tails[k] == [hs[k]] + tails[k + 1]
    {
      HeadersStep(s, at, parts, k);
    }
    assert tails[|hs|] == [];
    Unrolled(tails, hs, 0);
  }

  lemma SectionIs(s: string, hs: seq<Header>, k: nat, block: string)
    requires InOrder(hs, 0, |s|) && k < |hs| && Occurs(s, hs[k].end, block)
    requires hs[k].end + |block| == if k + 1 < |hs| then hs[k + 1].start else |s|
    ensures SectionAt(s, hs, k) == (hs[k].cpu, block)
  {
    OccursSlice(s, hs[k].end, block);
    if k + 1 == |hs| {
      assert s[hs[k].end..] == block;
    }
  }

  lemma SectionFound(s: string, at: seq<nat>, parts: seq<Part>, k: nat)
    requires Laid(s, at, parts) && k < |parts| && InOrder(PrintedHeaders(at, parts), 0, |s|)
    ensures SectionAt(s, PrintedHeaders(at, parts), k) == (parts[k].id, parts[k].block)
  {
    assert LaidAt(s, at[k], parts[k], at[k + 1]);
    PartBlock(s, at[k], parts[k]);
    SectionIs(s, PrintedHeaders(at, parts), k, parts[k].block);
  }

  function Printed(parts: seq<Part>): seq<(nat, string)> {
    seq(|parts|, k requires 0 <= k < |parts| => (parts[k].id, parts[k].block))
  }

  // ---- the whole dump -------------------------------------------------------------------

  /** Where each CPU's text starts, and where the last one ends. */
  function Starts(pre: string, parts: seq<Part>): (at: seq<nat>) {
    seq(|parts| + 1, k requires 0 <= k <= |parts| => |pre| + Start(PartTexts(parts), k))
  }

  lemma PartOccurs(pre: string, parts: seq<Part>, k: nat)
    requires k < |parts|
    ensures Occurs(DumpText(pre, parts), Starts(pre, parts)[k], PartText(parts[k]))
    ensures Starts(pre, parts)[k + 1] == Starts(pre, parts)[k] + |PartText(parts[k])|
  {
    PieceAfter(pre, PartTexts(parts), k, PartText(parts[k]), Starts(pre, parts)[k], Starts(pre, parts)[k + 1]);
  }

  lemma PrefaceOccurs(pre: string, parts: seq<Part>)
    ensures Occurs(DumpText(pre, parts), 0, pre) && Starts(pre, parts)[0] == |pre|
  {
    OccursParts(DumpText(pre, parts), 0, pre, Joined(PartTexts(parts)));
  }

  lemma FirstLineStart(pre: string, parts: seq<Part>)
    requires PrefaceOk(pre)
    ensures LineStart(DumpText(pre, parts), Starts(pre, parts)[0])
  {
    PrefaceOccurs(pre, parts);
    if pre != "" {
      LineStartAfter(DumpText(pre, parts), 0, pre);
    }
  }

  lemma NextLineStart(pre: string, parts: seq<Part>, k: nat)
    requires k < |parts| && PartOk(parts[k])
    ensures LineStart(DumpText(pre, parts), Starts(pre, parts)[k + 1])
  {
    PartOccurs(pre, parts, k);
    PartLine(DumpText(pre, parts), Starts(pre, parts)[k], parts[k], Starts(pre, parts)[k + 1]);
  }

  lemma LineStarts(pre: string, parts: seq<Part>, k: nat)
    requires PartsOk(pre, parts) && k <= |parts|
    ensures LineStart(DumpText(pre, parts), Starts(pre, parts)[k])
  {
    if k == 0 {
      FirstLineStart(pre, parts);
    } else {
      NextLineStart(pre, parts, k - 1);
    }
  }

  lemma DumpLaidAt(pre: string, parts: seq<Part>, k: nat)
    requires PartsOk(pre, parts) && k < |parts|
    ensures LaidAt(DumpText(pre, parts), Starts(pre, parts)[k], parts[k], Starts(pre, parts)[k + 1])
  {
    PartOccurs(pre, parts, k);
    LineStarts(pre, parts, k);
  }

  lemma DumpIsLaid(pre: string, parts: seq<Part>)
    requires PartsOk(pre, parts)
    ensures Laid(DumpText(pre, parts), Starts(pre, parts), parts)
  {
    StartEnd(PartTexts(parts));
    forall k | 0 <= k < |parts|
      ensures LaidAt(DumpText(pre, parts), Starts(pre, parts)[k], parts[k], Starts(pre, parts)[k + 1])
    {
      DumpLaidAt(pre, parts, k);
    }
  }

  lemma PrefaceStep(pre: string, parts: seq<Part>)
    requires PartsOk(pre, parts)
    ensures Headers(DumpText(pre, parts), 0) == HeadersFrom(DumpText(pre, parts), Starts(pre, parts)[0])
  {
    PrefaceOccurs(pre, parts);
    HeadersAfter(DumpText(pre, parts), 0, pre, 0);
  }

  /** The sections of a printed dump are its CPUs, each with the whole of its own text and nothing else. */
  lemma SectionsFound(pre: string, parts: seq<Part>)
    requires PartsOk(pre, parts)
    ensures var s := DumpText(pre, parts); Sections(s, Headers(s, 0)) == Printed(parts)
  {
    var s, at := DumpText(pre, parts), Starts(pre, parts);
    DumpIsLaid(pre, parts);
    PrefaceStep(pre, parts);
    HeadersFound(s, at, parts);
    var r := Sections(s, Headers(s, 0));
    forall k | 0 <= k < |parts|
      ensures r[k] == Printed(parts)[k]
    {
      SectionFound(s, at, parts, k);
    }
  }

  lemma {:induction false} FirstNone<T>(tries: seq<Option<T>>, i: nat)
    requires i <= |tries| && forall k | i <= k < |tries| :: tries[k].None?
    ensures First(tries, i).None?
    decreases |tries| - i
  {
    if i < |tries| {
      FirstNone(tries, i + 1);
    }
  }

  lemma {:induction false} FirstIs<T>(tries: seq<Option<T>>, i: nat, j: nat)
    requires i <= j < |tries| && tries[j].Some? && forall k | i <= k < j :: tries[k].None?
    ensures First(tries, i) == tries[j]
    decreases j - i
  {
    if i < j {
      FirstIs(tries, i + 1, j);
    }
  }

  lemma FirstChoice(parts: seq<Part>, k: nat)
    requires k < |parts| && forall j | 0 <= j < k :: parts[j].id != parts[k].id
    ensures First(Choices(Printed(parts), parts[k].id), 0) == Some(parts[k].block)
  {
    FirstIs(Choices(Printed(parts), parts[k].id), 0, k);
  }

  lemma FirstWithNumber(pre: string, parts: seq<Part>, k: nat)
    requires PartsOk(pre, parts) && k < |parts|
    requires forall j | 0 <= j < k :: parts[j].id != parts[k].id
    ensures ParseRegisters(DumpText(pre, parts), parts[k].id) == FromBlock(parts[k].block)
  {
    SectionsFound(pre, parts);
    assert SectionsOf(DumpText(pre, parts)) == Printed(parts);
    FirstChoice(parts, k);
  }

  // ---- registers ------------------------------------------------------------------------

  lemma JoinedHasNoHeader(ts: seq<string>)
    requires forall k | 0 <= k < |ts| :: NoHeader(ts[k])
    ensures NoHeader(Joined(ts))
  {
    if ts != [] {
      JoinedHasNoHeader(ts[1..]);
      NoHeaderConcat(ts[0], Joined(ts[1..]));
    }
  }

  lemma BlockHasNoHeader(segs: seq<Seg>)
    requires BlockOk(segs)
    ensures NoHeader(BlockText(segs))
  {
    var ts := Texts(segs);
    forall k | 0 <= k < |ts|
      ensures NoHeader(ts[k])
    {
      SegHasNoHeader(segs[k]);
    }
    JoinedHasNoHeader(ts);
  }

  datatype Cpu = Cpu(id: nat, segs: seq<Seg>)

  function CpuParts(cpus: seq<Cpu>): (parts: seq<Part>) {
    seq(|cpus|, k requires 0 <= k < |cpus| => Part(cpus[k].id, BlockText(cpus[k].segs)))
  }

  predicate CpuOk(c: Cpu) {
    && BlockOk(c.segs)
    && BlockText(c.segs) != "" && !Decimal.IsDigit(BlockText(c.segs)[0]) && Last(BlockText(c.segs)) == '\n'
  }

  predicate DumpOk(pre: string, cpus: seq<Cpu>) {
    PrefaceOk(pre) && forall k | 0 <= k < |cpus| :: CpuOk(cpus[k])
  }

  lemma PartsAreOk(pre: string, cpus: seq<Cpu>)
    requires DumpOk(pre, cpus)
    ensures PartsOk(pre, CpuParts(cpus))
  {
    forall k | 0 <= k < |cpus|
      ensures PartOk(CpuParts(cpus)[k])
    {
      BlockHasNoHeader(cpus[k].segs);
    }
  }

  /** The first CPU with the number is reported as printed. */
  lemma RegisterRoundTrip(pre: string, cpus: seq<Cpu>, k: nat)
    requires DumpOk(pre, cpus) && k < |cpus|
    requires forall j | 0 <= j < k :: cpus[j].id != cpus[k].id
    ensures ParseRegisters(DumpText(pre, CpuParts(cpus)), cpus[k].id) == Reported(cpus[k].segs)
  {
    PartsAreOk(pre, cpus);
    FirstWithNumber(pre, CpuParts(cpus), k);
    BlockRoundTrip(cpus[k].segs);
  }

  /** A CPU that is not in the dump reads as all zeros. */
  lemma AbsentCpuIsZero(pre: string, cpus: seq<Cpu>, cpu: nat)
    requires DumpOk(pre, cpus) && cpus != []
    requires forall j | 0 <= j < |cpus| :: cpus[j].id != cpu
    ensures ParseRegisters(DumpText(pre, CpuParts(cpus)), cpu) == EMPTY
  {
    PartsAreOk(pre, cpus);
    SectionsFound(pre, CpuParts(cpus));
    FirstNone(Choices(Printed(CpuParts(cpus)), cpu), 0);
  }

  /** Zero means zero: seven scalars and four windows of eight registers. */
  lemma EmptyIsAllZeros()
    ensures EMPTY.pc == EMPTY.npc == EMPTY.psr == EMPTY.y == EMPTY.wim == EMPTY.tbr == EMPTY.asr17 == 0
    ensures EMPTY.global == EMPTY.out == EMPTY.local == EMPTY.in_ == [0, 0, 0, 0, 0, 0, 0, 0]
  {
  }

  lemma WindowLines()
    ensures WindowMark('g') == "%g0-7:" && WindowMark('o') == "%o0-7:"
    ensures WindowMark('l') == "%l0-7:" && WindowMark('i') == "%i0-7:"
  {
  }

  /** Text without a header belongs to CPU 0. */
  lemma SingleCpuRoundTrip(segs: seq<Seg>, cpu: nat)
    requires BlockOk(segs)
    ensures ParseRegisters(BlockText(segs), cpu) == if cpu == 0 then Reported(segs) else EMPTY
  {
    var s := BlockText(segs);
    BlockHasNoHeader(segs);
    HeadersAfter(s, 0, s, 0);
    assert Headers(s, 0) == [];
    var tries := Choices([(0, s)], cpu);
    assert |tries| == 1;
    BlockRoundTrip(segs);
    if cpu == 0 {
      FirstIs(tries, 0, 0);
    } else {
      FirstNone(tries, 0);
    }
  }
}
