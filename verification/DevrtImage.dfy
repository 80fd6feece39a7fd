/** The generated .devrt section in the image: code, import area and what a loader makes of them. */
module DevrtImage {
  import opened Align
  import opened Bytes
  import opened ImportArea
  import opened ImportWalk
  import opened DevrtLayout

  /** Where the symbols' slots are when the section is at `rva` and the code takes `size` bytes. */
  function SlotsFor(imps: seq<Imp>, ib: nat, rva: nat): (slots: SlotTable) {
    size => IatFor(imps, ib, rva + RoundUp(size, 16))
  }

  /** What is to be generated: the functions as line counts, the imports, the image base, the section's
      relative and absolute address and the import descriptors the image has. */
  datatype Job = Job(asm: Assembler, lines: seq<nat>, imps: seq<Imp>, ib: nat, rva: nat, va: nat, olds: seq<Desc>) {
    ghost function First(): (p: Pass) {
      FirstPass(asm, SlotsFor(imps, ib, rva), va, Estimate(lines, |lines|), |lines|)
    }

    ghost function Final(): (r: Attempt) {
      FinalPass(asm, SlotsFor(imps, ib, rva), va, Estimate(lines, |lines|), |lines|)
    }

    /** The imports can be packed, for the estimate and for the size the first pass finds. */
    ghost predicate Packable() {
      && va == ib + rva && AsciiImps(imps) && OldsOk(olds)
      && FitsSize(imps, rva, Estimate(lines, |lines|)) && FitsSize(imps, rva, First().cursor)
    }
  }

  /** How a section came about: the size the first pass found, the address the import area is built for, the
      final pass and the slot addresses it used, the area and its plan. */
  datatype Made = Made(size: nat, base: nat, pass: Pass, iat: Iat, area: seq<Byte>, plan: Plan)

  ghost predicate IsMade(j: Job, m: Made, dirRva: nat) {
    && m.base == j.rva + RoundUp(m.size, 16) && PassOk(m.pass, j.asm, j.va, m.iat)
    && Built(m.area, dirRva, m.base, m.plan, j.olds) && m.plan.gs == GroupsOf(j.imps, |j.imps|)
    && m.iat == IatFor(j.imps, j.ib, m.base)
  }

  /** NoCode: nothing assembled. Error: the second pass failed. */
  datatype Outcome = NoCode | Error | Section(bytes: seq<Byte>, placed: seq<Placed>, dirRva: nat)

  /** The imports for code of `size` bytes. */
  method BuildImports(j: Job, size: nat)
    returns (area: seq<Byte>, iat: Iat, dirRva: nat, ghost base: nat, ghost p: Plan)
    requires AsciiImps(j.imps) && FitsSize(j.imps, j.rva, size)
    ensures base == j.rva + RoundUp(size, 16)
    ensures Built(area, dirRva, base, p, j.olds) && p.gs == GroupsOf(j.imps, |j.imps|)
    ensures iat == IatFor(j.imps, j.ib, base) == SlotsFor(j.imps, j.ib, j.rva)(size)
  {
    area, iat, dirRva, base, p := BuildNewImports(j.imps, j.ib, j.rva, size, j.olds);
    SlotsForAt(j.imps, j.ib, j.rva, size, base);
  }

  lemma {:induction false} SlotsForAt(imps: seq<Imp>, ib: nat, rva: nat, size: nat, base: nat)
    requires base == rva + RoundUp(size, 16)
    ensures SlotsFor(imps, ib, rva)(size) == IatFor(imps, ib, base)
  {
  }

  method Concatenate(placed: seq<Placed>, area: seq<Byte>) returns (bytes: seq<Byte>)
    ensures bytes == SectionOf(placed, area)
  {
    var data := LayOut(placed);
    data := PadTo(data, Up16(|data|));
    bytes := data + area;
  }

  /** Layout of the section, up to the point where it is written to the file. */
  method GenerateSection(j: Job) returns (r: Outcome, ghost m: Made)
    requires j.Packable()
    ensures r.NoCode? <==> j.First().placed == []
    ensures r.Error? <==> j.First().placed != [] && j.Final().Raised?
    ensures r.Section? ==>
              && r.bytes == SectionOf(m.pass.placed, m.area) && r.placed == m.pass.placed
              && m.size == j.First().cursor && j.Final() == Passed(m.pass) && IsMade(j, m, r.dirRva)
  {
    var n := |j.lines|;
    var est := EstimateCode(j.lines);
    var area, iat, dirRva;
    ghost var base, p;
    area, iat, dirRva, base, p := BuildImports(j, est);
    var placed, cursor := AssembleSkipping(j.asm, j.va, iat, n);
    ghost var q := Pass(placed, cursor);
    m := Made(cursor, base, q, iat, area, p);
    if placed == [] {
      return NoCode, m;
    }
    if cursor != est {
      area, iat, dirRva, base, p := BuildImports(j, cursor);
      var again := AssembleAll(j.asm, j.va, iat, n);
      if again.Raised? {
        return Error, m;
      }
      placed := again.pass.placed;
      q := again.pass;
    }
    FinalOk(j.asm, SlotsFor(j.imps, j.ib, j.rva), j.va, est, n);
    m := Made(cursor, base, q, iat, area, p);
    var bytes := Concatenate(placed, area);
    r := Section(bytes, placed, dirRva);
  }

  // ---------------------------------------------------------------- in the image

  /** The area is found in the image right behind the code. */
  lemma {:induction false} AreaStands(q: Pass, asm: Assembler, va: nat, iat: Iat, rva: nat, area: seq<Byte>,
      img: seq<Byte>, base: nat)
    requires PassOk(q, asm, va, iat) && Holds(img, rva, SectionOf(q.placed, area)) && base == rva + q.cursor
    ensures Holds(img, base, area)
  {
    AreaLands(q, asm, va, iat, area);
    HeldAt(img, rva, SectionOf(q.placed, area), q.cursor, area, base);
  }

  lemma {:induction false} CodeAt(q: Pass, asm: Assembler, va: nat, iat: Iat, area: seq<Byte>, i: nat, f: Placed,
      fva: nat)
    requires PassOk(q, asm, va, iat) && i < |q.placed| && f == q.placed[i] && fva == va + f.off
    ensures Holds(SectionOf(q.placed, area), f.off, f.code) && asm(f.fn, fva, iat) == Code(f.code)
  {
    SectionOk(q, asm, va, iat, area, i);
  }

  lemma {:induction false} HeldAt(img: seq<Byte>, base: nat, area: seq<Byte>, o: nat, data: seq<Byte>, at: nat)
    requires Holds(img, base, area) && Holds(area, o, data) && at == base + o
    ensures Holds(img, at, data)
  {
    HoldsInside(img, base, area, o, data);
  }

  /** When the final pass ends where the first one did, the walk from the directory address the generator
      reports gives the descriptors the image had and then the requested imports, every DLL with its functions. */
  lemma {:induction false} SectionDecodes(j: Job, m: Made, dirRva: nat, img: seq<Byte>, v: View)
    requires IsMade(j, m, dirRva) && OldsOk(j.olds) && m.base == j.rva + m.pass.cursor
    requires Holds(img, j.rva, SectionOf(m.pass.placed, m.area)) && v == ViewOf(img)
    requires m.base + |m.area| <= 0x8000_0000
    ensures WalkDescs(v, dirRva) == j.olds + m.plan.news && Decodes(v, j.olds + m.plan.news, |j.olds|, m.plan.gs)
  {
    AreaStands(m.pass, j.asm, j.va, m.iat, j.rva, m.area, img, m.base);
    ImportsDecode(img, v, m.base, m.area, m.plan, j.olds, dirRva);
  }

  /** Which it does when instruction lengths do not depend on addresses. */
  lemma {:induction false} SectionAgrees(j: Job, m: Made, dirRva: nat)
    requires IsMade(j, m, dirRva) && m.size == j.First().cursor && j.Final() == Passed(m.pass)
    ensures m.base == j.rva + m.pass.cursor <==> m.pass.cursor == m.size
    ensures FixedLengths(j.asm) ==> m.base == j.rva + m.pass.cursor
  {
    var est, n, slots := Estimate(j.lines, |j.lines|), |j.lines|, SlotsFor(j.imps, j.ib, j.rva);
    FirstAligned(j.asm, slots, j.va, est, n);
    if FixedLengths(j.asm) {
      LayoutAgreement(j.asm, slots, j.va, est, n);
    }
  }

  /** Every import of the plan has its own slot in `iat`: entry `e` of the address table of its DLL. */
  ghost predicate SlotsAgree(iat: Iat, ib: nat, p: Plan) {
    |p.news| == |p.gs| && forall d, e :: 0 <= d < |p.gs| && 0 <= e < |p.gs[d].imps| ==>
      p.gs[d].imps[e].sym in iat && iat[p.gs[d].imps[e].sym] == ib + p.news[d].iat + 8 * e
  }

  lemma {:induction false} SlotsAre(imps: seq<Imp>, ib: nat, base: nat, p: Plan)
    requires DistinctSyms(imps, |imps|) && p.gs == GroupsOf(imps, |imps|) && NewsOf(base, p)
    ensures SlotsAgree(IatFor(imps, ib, base), ib, p)
  {
    var iat := IatFor(imps, ib, base);
    forall d, e | 0 <= d < |p.gs| && 0 <= e < |p.gs[d].imps|
      ensures p.gs[d].imps[e].sym in iat && iat[p.gs[d].imps[e].sym] == ib + p.news[d].iat + 8 * e
    {
      SlotAddress(imps, ib, base, p, d, e);
    }
  }

  /** Function `i` stands in the image at the address it was assembled for, against slot addresses that are,
      import by import, the slots the loader fills in. */
  lemma {:induction false} CodeRuns(j: Job, m: Made, dirRva: nat, img: seq<Byte>, i: nat, f: Placed, at: nat, fva: nat)
    requires IsMade(j, m, dirRva) && DistinctSyms(j.imps, |j.imps|) && i < |m.pass.placed| && f == m.pass.placed[i]
    requires Holds(img, j.rva, SectionOf(m.pass.placed, m.area)) && at == j.rva + f.off && fva == j.va + f.off
    ensures Holds(img, at, f.code) && j.asm(f.fn, fva, m.iat) == Code(f.code) && SlotsAgree(m.iat, j.ib, m.plan)
  {
    CodeAt(m.pass, j.asm, j.va, m.iat, m.area, i, f, fva);
    HeldAt(img, j.rva, SectionOf(m.pass.placed, m.area), f.off, f.code, at);
    SlotsAre(j.imps, j.ib, m.base, m.plan);
  }

  // ---------------------------------------------------------------- a misplaced area

  /** Sixteen bytes into a descriptor, its last field is read as the first, followed by the next one's. */
  lemma {:induction false} SixteenOff(v: View, o: nat, d: Desc, e: Desc)
    requires DescAt(v, o) == d && DescAt(v, o + 20) == e
    ensures DescAt(v, o + 16) == Desc(d.iat, e.ilt, e.stamp, e.chain, e.name)
  {
  }

  /** New descriptors, and the null one, have no forwarder chain. */
  lemma {:induction false} NoChains(base: nat, area: seq<Byte>, p: Plan)
    requires 0 < base && base + |area| < 0x1_0000_0000 && IsArea(area, base, p) && NewsOf(base, p) && |p.gs| > 0
    ensures OldsOk(p.news) && |p.news| > 0 && p.news[0].name != 0 && p.news[0].iat != 0
    ensures |p.news| > 1 ==> p.news[1].chain == 0
  {
    NewsOk(base, area, p);
    NewsFit(base, area, p, 0);
    if |p.gs| > 1 {
      NewsFit(base, area, p, 1);
    }
  }

  /** The first descriptor and the one behind it. */
  lemma {:induction false} FirstTwo(v: View, o: nat, news: seq<Desc>)
    requires Seen(DescsAt(v, o), NULL_DESC, news) && |news| > 0 && (|news| > 1 ==> news[1].chain == 0)
    ensures DescAt(v, o) == news[0] && DescAt(v, o + 20).chain == 0
  {
    var at := DescsAt(v, o);
    assert at(0) == DescAt(v, o) && at(1) == DescAt(v, o + 20);
  }

  lemma {:induction false} NewsSeen(img: seq<Byte>, found: nat, area: seq<Byte>, o: nat, news: seq<Desc>, dir: nat)
    requires Holds(img, found, area) && o <= |area| && area == WithDescs(area[..o], [], news) && OldsOk(news)
    requires dir == found + o
    ensures Seen(DescsAt(ViewOf(img), dir), NULL_DESC, news)
  {
    DescsShown(img, found, area, area[..o], [], news, dir);
    assert [] + news == news;
  }

  /** A walk that starts at a descriptor which is not the null one returns it first. */
  lemma {:induction false} WalkStarts(v: View, o: nat)
    requires DescAt(v, o) != NULL_DESC && o + 20 <= v.size
    ensures |WalkDescs(v, o)| > 0 && WalkDescs(v, o)[0] == DescAt(v, o)
  {
    assert DescsAt(v, o)(0) == DescAt(v, o + 20 * 0);
    assert Room(v, o, 20) >= 1;
  }

  /** When the second pass comes out sixteen bytes shorter than the first, the import area is sixteen bytes
      in front of where it was built for: the walk from the reported directory does not give the imports. */
  lemma {:induction false} ShiftedArea(j: Job, m: Made, dirRva: nat, img: seq<Byte>, v: View)
    requires IsMade(j, m, dirRva) && j.olds == [] && |m.plan.gs| > 0 && m.base == j.rva + m.pass.cursor + 16
    requires Holds(img, j.rva, SectionOf(m.pass.placed, m.area)) && v == ViewOf(img)
    requires m.base + |m.area| < 0x1_0000_0000
    ensures WalkDescs(v, dirRva) != m.plan.news
  {
    var found := j.rva + m.pass.cursor;
    var o := found + m.plan.desc;
    AreaStands(m.pass, j.asm, j.va, m.iat, j.rva, m.area, img, found);
    NoChains(m.base, m.area, m.plan);
    NewsSeen(img, found, m.area, m.plan.desc, m.plan.news, o);
    Misread(v, o, m.plan.news, dirRva);
  }

  lemma {:induction false} Misread(v: View, o: nat, news: seq<Desc>, dirRva: nat)
    requires Seen(DescsAt(v, o), NULL_DESC, news) && |news| > 0 && (|news| > 1 ==> news[1].chain == 0)
    requires news[0].name != 0 && news[0].iat != 0 && dirRva == o + 16 && o + 40 <= v.size
    ensures WalkDescs(v, dirRva) != news
  {
    FirstTwo(v, o, news);
    SixteenOff(v, o, news[0], DescAt(v, o + 20));
    WalkStarts(v, dirRva);
  }

  /** One function that calls one import. */
  function OneCall(ib: nat, rva: nat): (j: Job) {
    Job(ShortOrLong, [1], [Imp("d", "f", "f")], ib, rva, ib + rva, [])
  }

  lemma {:induction false} OneGroup()
    ensures var imps := [Imp("d", "f", "f")]; AsciiImps(imps) && GroupsOf(imps, 1) == [Group("d", imps)]
  {
    var imps := [Imp("d", "f", "f")];
    assert GroupsOf(imps, 0) == [];
    assert Insert([], imps[0]) == [Group("d", [imps[0]])];
  }

  lemma {:induction false} OneSlotAt(ib: nat, base: nat)
    ensures IatFor([Imp("d", "f", "f")], ib, base) == map["f" := ib + base]
  {
    OneGroup();
    var imps := [Imp("d", "f", "f")];
    var g := Group("d", imps);
    assert Slots([g], 0) == 0;
    assert GroupMap(map[], g, ib + base, 0) == map[];
    assert GroupMap(map[], g, ib + base, 1) == map["f" := ib + base];
    assert SlotMap([g], ib + base, 0) == map[];
  }

  lemma {:induction false} OneTable(ib: nat, rva: nat, va: nat)
    requires va == ib + rva
    ensures var slots := SlotsFor([Imp("d", "f", "f")], ib, rva);
            slots(10) == map["f" := va + 16] && slots(32) == map["f" := va + 32]
  {
    Up16Is(10);
    Up16Is(32);
    OneSlotAt(ib, rva + 16);
    OneSlotAt(ib, rva + 32);
  }

  lemma {:induction false} OneLine()
    ensures Estimate([1], 1) == 10
  {
    assert Estimate([1], 0) == 0;
  }

  /** It comes out that way: the first pass takes 32 bytes and the second 16. */
  lemma {:induction false} OneCallShifts(ib: nat, rva: nat, slots: SlotTable, va: nat)
    requires slots == SlotsFor([Imp("d", "f", "f")], ib, rva) && va == ib + rva
    ensures var j := OneCall(ib, rva);
            |j.First().placed| == 1 && j.First().cursor == 32 && j.Final().Passed? && j.Final().pass.cursor == 16
  {
    OneTable(ib, rva, va);
    LengthsMatter(slots, va);
    OneLine();
  }

  lemma {:induction false} OneFits(rva: nat, size: nat)
    requires rva + size + 0x100 <= 0x1_0000_0000
    ensures AsciiImps([Imp("d", "f", "f")]) && FitsSize([Imp("d", "f", "f")], rva, size)
  {
    OneGroup();
    var g := Group("d", [Imp("d", "f", "f")]);
    assert Slots([g], 0) == 0 && Slots([g], 1) == 2;
    var zeros, base := ZeroExtend([], 32), rva + RoundUp(size, 16);
    var n := AddDll(Names(zeros, map[]), "d");
    assert |n.buf| <= 35;
    assert AddFuncs(n, base, g, 0) == n;
    assert |AddFuncs(n, base, g, 1).buf| <= 40;
    assert AddGroups(zeros, base, [g], 0) == Names(zeros, map[]);
    assert AddGroups(zeros, base, [g], 1) == AddFuncs(n, base, g, 1);
  }

  /** And nothing stands in the way of generating it. */
  lemma {:induction false} OneCallPackable(ib: nat, rva: nat, slots: SlotTable, va: nat)
    requires slots == SlotsFor([Imp("d", "f", "f")], ib, rva) && va == ib + rva && rva <= 0x7FFF_0000
    ensures OneCall(ib, rva).Packable()
  {
    OneCallShifts(ib, rva, slots, va);
    OneLine();
    OneFits(rva, 10);
    OneFits(rva, 32);
  }

  /** The hypothesis on lengths is needed: whatever section is generated for that job, a loader that walks from
      the reported directory does not find the import. */
  lemma {:induction false} OneCallMisread(ib: nat, rva: nat, va: nat, m: Made, dirRva: nat, img: seq<Byte>, v: View)
    requires va == ib + rva && IsMade(OneCall(ib, rva), m, dirRva)
    requires m.size == OneCall(ib, rva).First().cursor && OneCall(ib, rva).Final() == Passed(m.pass)
    requires Holds(img, rva, SectionOf(m.pass.placed, m.area)) && v == ViewOf(img)
    requires m.base + |m.area| < 0x1_0000_0000
    ensures WalkDescs(v, dirRva) != m.plan.news
  {
    OneCallShifts(ib, rva, SlotsFor([Imp("d", "f", "f")], ib, rva), va);
    RoundUpFixed(32, 16);
    OneGroup();
    ShiftedArea(OneCall(ib, rva), m, dirRva, img, v);
  }
}
