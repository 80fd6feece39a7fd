/** The layout of the .devrt section: devirtualized functions back to back on 16-byte boundaries, then
    the import area. The assembler is a parameter: given a function's number, the address it will run at
    and the slot addresses of the imported symbols, it yields bytes or fails. */
module DevrtLayout {
  import opened Align
  import opened Bytes

  /** The next multiple of 16. */
  function Up16(x: nat): (r: nat)
    ensures x <= r <= x + 15
  {
    if x == 0 then 0 else if x <= 16 then 16 else 16 + Up16(x - 16)
  }

  lemma {:induction false} Up16Is(x: nat)
    ensures Up16(x) == RoundUp(x, 16)
  {
    if x > 16 {
      Up16Is(x - 16);
      RoundUpShift(16, x - 16, 16);
    } else {
      MultipleUnique(Up16(x), RoundUp(x, 16), x, 16);
    }
  }

  /** Rounding an offset from a multiple of 16. */
  lemma {:induction false} Up16Shift(o: nat, x: nat)
    requires Up16(o) == o
    ensures Up16(o + x) == o + Up16(x)
  {
    if 0 < o < 16 {
      assert false;
    } else if o == 16 {
      assert x == 0 || Up16(16 + x) == 16 + Up16(x);
    } else if o > 16 {
      Up16Shift(o - 16, x);
    }
  }

  lemma {:induction false} Up16Twice(x: nat)
    ensures Up16(Up16(x)) == Up16(x)
  {
    if x > 16 {
      Up16Twice(x - 16);
    }
  }

  type Iat = map<string, nat>

  datatype Assembled = Failed | Code(bytes: seq<Byte>)

  type Assembler = (nat, nat, Iat) -> Assembled

  /** A function with its code and its offset in the section. */
  datatype Placed = Placed(fn: nat, code: seq<Byte>, off: nat)

  /** A pass over the functions: what was placed, and where the next function would go. */
  datatype Pass = Pass(placed: seq<Placed>, cursor: nat)

  function Place(p: Pass, fn: nat, code: seq<Byte>): (r: Pass) {
    Pass(p.placed + [Placed(fn, code, p.cursor)], p.cursor + Up16(|code|))
  }

  /** The first pass over functions 0..k: one that does not assemble is skipped. */
  function Skipping(asm: Assembler, va: nat, iat: Iat, k: nat): (p: Pass) {
    if k == 0 then Pass([], 0)
    else
      var p := Skipping(asm, va, iat, k - 1);
      match asm(k - 1, va + p.cursor, iat)
      case Failed => p
      case Code(bytes) => Place(p, k - 1, bytes)
  }

  datatype Attempt = Raised | Passed(pass: Pass)

  /** One more function of the second pass: one that does not assemble ends it. */
  function Step(asm: Assembler, va: nat, iat: Iat, fn: nat, p: Pass): (r: Attempt) {
    var code := asm(fn, va + p.cursor, iat);
    if code.Failed? then Raised else Passed(Place(p, fn, code.bytes))
  }

  function Strict(asm: Assembler, va: nat, iat: Iat, k: nat): (r: Attempt) {
    if k == 0 then Passed(Pass([], 0))
    else
      var r := Strict(asm, va, iat, k - 1);
      if r.Raised? then Raised else Step(asm, va, iat, k - 1, r.pass)
  }

  method AssembleSkipping(asm: Assembler, va: nat, iat: Iat, n: nat) returns (placed: seq<Placed>, cursor: nat)
    ensures Pass(placed, cursor) == Skipping(asm, va, iat, n)
  {
    placed, cursor := [], 0;
    for k := 0 to n
      invariant Pass(placed, cursor) == Skipping(asm, va, iat, k)
    {
      var r := asm(k, va + cursor, iat);
      if r.Failed? {
        continue;
      }
      placed := placed + [Placed(k, r.bytes, cursor)];
      cursor := cursor + Up16(|r.bytes|);
    }
  }

  method AssembleAll(asm: Assembler, va: nat, iat: Iat, n: nat) returns (r: Attempt)
    ensures r == Strict(asm, va, iat, n)
  {
    var p := Pass([], 0);
    for k := 0 to n
      invariant Passed(p) == Strict(asm, va, iat, k)
    {
      var code := asm(k, va + p.cursor, iat);
      if code.Failed? {
        RaisedStays(asm, va, iat, k + 1, n);
        return Raised;
      }
      p := Place(p, k, code.bytes);
    }
    r := Passed(p);
  }

  lemma {:induction false} RaisedStays(asm: Assembler, va: nat, iat: Iat, k: nat, n: nat)
    requires k <= n && Strict(asm, va, iat, k).Raised?
    ensures Strict(asm, va, iat, n).Raised?
  {
    if k < n {
      RaisedStays(asm, va, iat, k, n - 1);
    }
  }

  // ---------------------------------------------------------------- what a pass guarantees

  /** Where function `k` starts when the functions stand back to back on 16-byte boundaries. */
  function Start(placed: seq<Placed>, k: nat): (o: nat)
    requires k <= |placed|
  {
    if k == 0 then 0 else Start(placed, k - 1) + Up16(|placed[k - 1].code|)
  }

  /** A function assembled for the address it gets, at offset `o`. */
  ghost predicate PlacedOk(f: Placed, o: nat, asm: Assembler, va: nat, iat: Iat) {
    f.off == o && asm(f.fn, va + o, iat) == Code(f.code)
  }

  /** The first `k` functions stand back to back, each assembled for the address it gets. */
  ghost predicate AllOk(placed: seq<Placed>, k: nat, asm: Assembler, va: nat, iat: Iat)
    requires k <= |placed|
  {
    k > 0 ==> AllOk(placed, k - 1, asm, va, iat) && PlacedOk(placed[k - 1], Start(placed, k - 1), asm, va, iat)
  }

  ghost predicate PassOk(p: Pass, asm: Assembler, va: nat, iat: Iat) {
    p.cursor == Start(p.placed, |p.placed|) && AllOk(p.placed, |p.placed|, asm, va, iat)
  }

  lemma {:induction false} AllOkAt(placed: seq<Placed>, k: nat, asm: Assembler, va: nat, iat: Iat, i: nat)
    requires i < k <= |placed| && AllOk(placed, k, asm, va, iat)
    ensures PlacedOk(placed[i], Start(placed, i), asm, va, iat)
  {
    if i < k - 1 {
      AllOkAt(placed, k - 1, asm, va, iat, i);
    }
  }

  lemma {:induction false} AllOkSnoc(placed: seq<Placed>, f: Placed, k: nat, asm: Assembler, va: nat, iat: Iat)
    requires k <= |placed| && AllOk(placed, k, asm, va, iat)
    ensures AllOk(placed + [f], k, asm, va, iat)
  {
    if k > 0 {
      AllOkSnoc(placed, f, k - 1, asm, va, iat);
      StartSnoc(placed, f, k - 1);
    }
  }

  lemma {:induction false} StartAligned(placed: seq<Placed>, k: nat)
    requires k <= |placed|
    ensures Up16(Start(placed, k)) == Start(placed, k)
  {
    if k > 0 {
      StartAligned(placed, k - 1);
      Up16Twice(|placed[k - 1].code|);
      Up16Shift(Start(placed, k - 1), Up16(|placed[k - 1].code|));
    }
  }

  lemma {:induction false} StartSnoc(placed: seq<Placed>, f: Placed, k: nat)
    requires k <= |placed|
    ensures Start(placed + [f], k) == Start(placed, k)
  {
    if k > 0 {
      StartSnoc(placed, f, k - 1);
    }
  }

  lemma {:induction false} PlaceOk(p: Pass, asm: Assembler, va: nat, iat: Iat, fn: nat, code: seq<Byte>)
    requires PassOk(p, asm, va, iat) && asm(fn, va + p.cursor, iat) == Code(code)
    ensures PassOk(Place(p, fn, code), asm, va, iat)
  {
    var f := Placed(fn, code, p.cursor);
    StartSnoc(p.placed, f, |p.placed|);
    AllOkSnoc(p.placed, f, |p.placed|, asm, va, iat);
  }

  lemma {:induction false} SkippingOk(asm: Assembler, va: nat, iat: Iat, k: nat)
    ensures PassOk(Skipping(asm, va, iat, k), asm, va, iat)
  {
    if k > 0 {
      SkippingOk(asm, va, iat, k - 1);
      var p := Skipping(asm, va, iat, k - 1);
      var r := asm(k - 1, va + p.cursor, iat);
      if r.Code? {
        PlaceOk(p, asm, va, iat, k - 1, r.bytes);
      }
    }
  }

  lemma {:induction false} StrictOk(asm: Assembler, va: nat, iat: Iat, k: nat)
    requires Strict(asm, va, iat, k).Passed?
    ensures PassOk(Strict(asm, va, iat, k).pass, asm, va, iat)
  {
    if k > 0 {
      StrictOk(asm, va, iat, k - 1);
      StepOk(asm, va, iat, k - 1, Strict(asm, va, iat, k - 1).pass);
    }
  }

  lemma {:induction false} StepOk(asm: Assembler, va: nat, iat: Iat, fn: nat, p: Pass)
    requires PassOk(p, asm, va, iat) && Step(asm, va, iat, fn, p).Passed?
    ensures PassOk(Step(asm, va, iat, fn, p).pass, asm, va, iat)
  {
    PlaceOk(p, asm, va, iat, fn, asm(fn, va + p.cursor, iat).bytes);
  }

  /** No function is missing after a second pass. */
  lemma {:induction false} StrictAll(asm: Assembler, va: nat, iat: Iat, k: nat, i: nat)
    requires Strict(asm, va, iat, k).Passed? && i < k
    ensures var placed := Strict(asm, va, iat, k).pass.placed; |placed| == k && placed[i].fn == i
  {
    if k > 1 {
      StrictAll(asm, va, iat, k - 1, if i < k - 1 then i else 0);
    }
  }

  /** The ranges of different functions do not meet. */
  lemma {:induction false} PassDisjoint(placed: seq<Placed>, i: nat, j: nat)
    requires i < j <= |placed|
    ensures Start(placed, i) + |placed[i].code| <= Start(placed, j)
  {
    if i < j - 1 {
      PassDisjoint(placed, i, j - 1);
    }
  }

  // ---------------------------------------------------------------- the bytes

  /** The section data after the first `k` functions. */
  function Data(placed: seq<Placed>, k: nat): (b: seq<Byte>)
    requires k <= |placed|
  {
    if k == 0 then [] else PadTo(Data(placed, k - 1), placed[k - 1].off) + placed[k - 1].code
  }

  /** Zero bytes up to offset `o`, if there is anything to pad. */
  function PadTo(b: seq<Byte>, o: nat): (r: seq<Byte>)
    ensures b <= r && |r| == if |b| < o then o else |b|
  {
    if |b| < o then ZeroExtend(b, o - |b|) else b
  }

  method LayOut(placed: seq<Placed>) returns (data: seq<Byte>)
    ensures data == Data(placed, |placed|)
  {
    data := [];
    for k := 0 to |placed|
      invariant data == Data(placed, k)
    {
      data := PadTo(data, placed[k].off);
      data := data + placed[k].code;
    }
  }

  /** The data of `k` functions rounds up to where the next one starts. */
  lemma {:induction false} DataEnd(p: Pass, asm: Assembler, va: nat, iat: Iat, k: nat)
    requires PassOk(p, asm, va, iat) && k <= |p.placed|
    ensures Up16(|Data(p.placed, k)|) == Start(p.placed, k)
    ensures k > 0 ==> Holds(Data(p.placed, k), p.placed[k - 1].off, p.placed[k - 1].code)
  {
    if k > 0 {
      DataEnd(p, asm, va, iat, k - 1);
      var f := p.placed[k - 1];
      AllOkAt(p.placed, |p.placed|, asm, va, iat, k - 1);
      PadEnd(Data(p.placed, k - 1), f.off, f.code);
    }
  }

  lemma {:induction false} PadEnd(b: seq<Byte>, o: nat, code: seq<Byte>)
    requires Up16(|b|) == o
    ensures Up16(|PadTo(b, o) + code|) == o + Up16(|code|) && Holds(PadTo(b, o) + code, o, code)
  {
    Up16Twice(|b|);
    Up16Shift(o, |code|);
  }

  lemma {:induction false} DataGrows(placed: seq<Placed>, k: nat)
    requires 0 < k <= |placed|
    ensures Data(placed, k - 1) <= Data(placed, k)
  {
  }

  /** Every function stands at its offset. */
  lemma {:induction false} DataHolds(p: Pass, asm: Assembler, va: nat, iat: Iat, k: nat, i: nat)
    requires PassOk(p, asm, va, iat) && i < k <= |p.placed|
    ensures Holds(Data(p.placed, k), p.placed[i].off, p.placed[i].code)
  {
    if i < k - 1 {
      DataHolds(p, asm, va, iat, k - 1, i);
      DataGrows(p.placed, k);
      HoldsPrefix(Data(p.placed, k - 1), Data(p.placed, k), p.placed[i].off, p.placed[i].code);
    } else {
      DataEnd(p, asm, va, iat, k);
    }
  }

  // ---------------------------------------------------------------- the section

  /** Whether a function assembles, and to how many bytes, does not depend on addresses. */
  ghost predicate FixedLengths(asm: Assembler) {
    forall fn, a, iat, b, jat :: SameLength(asm(fn, a, iat), asm(fn, b, jat))
  }

  predicate SameLength(x: Assembled, y: Assembled) {
    if x.Code? && y.Code? then |x.bytes| == |y.bytes| else x == y
  }

  /** Then both passes end at the same place. */
  lemma {:induction false} PassesAgree(asm: Assembler, va: nat, iat: Iat, jat: Iat, k: nat)
    requires FixedLengths(asm) && Strict(asm, va, jat, k).Passed?
    ensures Skipping(asm, va, iat, k).cursor == Strict(asm, va, jat, k).pass.cursor
  {
    if k > 0 {
      PassesAgree(asm, va, iat, jat, k - 1);
      var p, q := Skipping(asm, va, iat, k - 1), Strict(asm, va, jat, k - 1).pass;
      assert SameLength(asm(k - 1, va + p.cursor, iat), asm(k - 1, va + q.cursor, jat));
    }
  }

  /** The bytes of the section: the functions, padding, the import area. */
  function SectionOf(placed: seq<Placed>, area: seq<Byte>): (b: seq<Byte>) {
    var data := Data(placed, |placed|);
    PadTo(data, Up16(|data|)) + area
  }

  /** On success: the code of every function stands at the offset whose address it was assembled for,
      offsets are multiples of 16, code ranges are disjoint, and the import area starts at the cursor. */
  lemma {:induction false} SectionOk(p: Pass, asm: Assembler, va: nat, iat: Iat, area: seq<Byte>, i: nat)
    requires PassOk(p, asm, va, iat) && i < |p.placed|
    ensures var f := p.placed[i];
            && Holds(SectionOf(p.placed, area), f.off, f.code) && asm(f.fn, va + f.off, iat) == Code(f.code)
            && f.off == RoundUp(f.off, 16)
            && forall j :: i < j < |p.placed| ==> f.off + |f.code| <= p.placed[j].off
    ensures p.placed[i].off + |p.placed[i].code| <= p.cursor
  {
    var n, f := |p.placed|, p.placed[i];
    AllOkAt(p.placed, n, asm, va, iat, i);
    DataHolds(p, asm, va, iat, n, i);
    HoldsPrefix(Data(p.placed, n), SectionOf(p.placed, area), f.off, f.code);
    StartAligned(p.placed, i);
    Up16Is(f.off);
    PassDisjoint(p.placed, i, n);
    forall j | i < j < n
      ensures f.off + |f.code| <= p.placed[j].off
    {
      AllOkAt(p.placed, n, asm, va, iat, j);
      PassDisjoint(p.placed, i, j);
    }
  }

  lemma {:induction false} PadHolds(b: seq<Byte>, o: nat, area: seq<Byte>)
    requires |b| <= o
    ensures |PadTo(b, o) + area| == o + |area| && Holds(PadTo(b, o) + area, o, area)
  {
  }

  lemma {:induction false} AreaLands(p: Pass, asm: Assembler, va: nat, iat: Iat, area: seq<Byte>)
    requires PassOk(p, asm, va, iat)
    ensures |SectionOf(p.placed, area)| == p.cursor + |area| && Holds(SectionOf(p.placed, area), p.cursor, area)
  {
    DataEnd(p, asm, va, iat, |p.placed|);
    var data := Data(p.placed, |p.placed|);
    PadHolds(data, Up16(|data|), area);
  }

  lemma {:induction false} PassAligned(p: Pass, asm: Assembler, va: nat, iat: Iat)
    requires PassOk(p, asm, va, iat)
    ensures RoundUp(p.cursor, 16) == p.cursor
  {
    StartAligned(p.placed, |p.placed|);
    Up16Is(p.cursor);
  }

  /** Ten bytes per line as a first guess of the code size. */
  function Estimate(lines: seq<nat>, k: nat): (n: nat)
    requires k <= |lines|
  {
    if k == 0 then 0 else Estimate(lines, k - 1) + lines[k - 1] * 10
  }

  method EstimateCode(lines: seq<nat>) returns (n: nat)
    ensures n == Estimate(lines, |lines|)
  {
    n := 0;
    for k := 0 to |lines|
      invariant n == Estimate(lines, k)
    {
      n := n + lines[k] * 10;
    }
  }

  /** The slot addresses of the imported symbols when the code takes the given number of bytes. */
  type SlotTable = nat -> Iat

  /** The first pass, against the slots for the estimated size. */
  function FirstPass(asm: Assembler, slots: SlotTable, va: nat, est: nat, n: nat): (p: Pass) {
    Skipping(asm, va, slots(est), n)
  }

  /** The pass whose code ends up in the section. A second one runs when the estimate was wrong. */
  function FinalPass(asm: Assembler, slots: SlotTable, va: nat, est: nat, n: nat): (r: Attempt) {
    var p := FirstPass(asm, slots, va, est, n);
    if p.cursor == est then Passed(p) else Strict(asm, va, slots(p.cursor), n)
  }

  /** The code of the final pass is assembled against the slots for the size the first pass found. */
  lemma {:induction false} FinalOk(asm: Assembler, slots: SlotTable, va: nat, est: nat, n: nat)
    requires FinalPass(asm, slots, va, est, n).Passed?
    ensures PassOk(FinalPass(asm, slots, va, est, n).pass, asm, va, slots(FirstPass(asm, slots, va, est, n).cursor))
  {
    var p := FirstPass(asm, slots, va, est, n);
    if p.cursor == est {
      SkippingOk(asm, va, slots(est), n);
    } else {
      StrictOk(asm, va, slots(p.cursor), n);
    }
  }

  lemma {:induction false} FirstAligned(asm: Assembler, slots: SlotTable, va: nat, est: nat, n: nat)
    ensures var size := FirstPass(asm, slots, va, est, n).cursor; RoundUp(size, 16) == size
  {
    SkippingOk(asm, va, slots(est), n);
    PassAligned(FirstPass(asm, slots, va, est, n), asm, va, slots(est));
  }

  /** With instruction lengths that do not depend on addresses the two passes end at the same place. */
  lemma {:induction false} LayoutAgreement(asm: Assembler, slots: SlotTable, va: nat, est: nat, n: nat)
    requires FixedLengths(asm) && FinalPass(asm, slots, va, est, n).Passed?
    ensures FinalPass(asm, slots, va, est, n).pass.cursor == FirstPass(asm, slots, va, est, n).cursor
  {
    var p := FirstPass(asm, slots, va, est, n);
    if p.cursor != est {
      PassesAgree(asm, va, slots(est), slots(p.cursor), n);
    }
  }

  /** An assembler that needs more bytes for a near target. */
  function ShortOrLong(fn: nat, a: nat, iat: Iat): (r: Assembled) {
    Code(seq(if "f" in iat && iat["f"] == a + 16 then 32 else 16, i => 0x90))
  }

  /** Otherwise they need not: one function, one symbol right behind the code, and the first pass takes 32
      bytes while the second takes 16. */
  lemma {:induction false} LengthsMatter(slots: SlotTable, va: nat)
    requires slots(10) == map["f" := va + 16] && slots(32) == map["f" := va + 32]
    ensures var p, q := FirstPass(ShortOrLong, slots, va, 10, 1), FinalPass(ShortOrLong, slots, va, 10, 1);
            |p.placed| == 1 && p.cursor == 32 && q.Passed? && q.pass.cursor == 16
  {
    var p := FirstPass(ShortOrLong, slots, va, 10, 1);
    assert Skipping(ShortOrLong, va, slots(10), 0) == Pass([], 0);
    assert ShortOrLong(0, va + 0, slots(10)).Code?;
    assert p.cursor == Up16(32) == 32;
    assert Strict(ShortOrLong, va, slots(32), 0) == Passed(Pass([], 0));
    assert Step(ShortOrLong, va, slots(32), 0, Pass([], 0)).Passed?;
  }
}
