/** The FPREM partial-remainder fix-up, in exact integer arithmetic.
    A magnitude is `m * 2^e` in units of the smallest representable step, so all
    values are natural numbers. */
module Fprem {
  import opened Align
  import opened Options

  type Mantissa = m: nat | m < 0x1_0000_0000_0000_0000
  type SignExp = e: nat | e < 0x1_0000

  /** An x87 register: 64-bit mantissa, sign bit and 15-bit exponent. */
  datatype Float = Float(m: Mantissa, ef: SignExp) {
    function Exp(): (e: nat)
      ensures e < 0x8000
    {
      ef % 0x8000
    }

    function Sign(): (s: nat)
      ensures s < 2
    {
      ef / 0x8000
    }

    function Mag(): nat {
      m * Pow2(Exp())
    }
  }

  const N: nat := 63

  function BitLength(x: nat): (n: nat)
    ensures x > 0 ==> n > 0
  {
    if x == 0 then 0 else 1 + BitLength(x / 2)
  }

  lemma {:induction false} BitLengthBounds(x: nat)
    requires x > 0
    ensures Pow2(BitLength(x) - 1) <= x < Pow2(BitLength(x))
  {
    if x > 1 {
      var h := x / 2;
      BitLengthBounds(h);
      var n := BitLength(h);
      assert BitLength(x) == n + 1 && Pow2(n + 1) == 2 * Pow2(n) && Pow2(n) == 2 * Pow2(n - 1);
      assert 2 * h <= x <= 2 * h + 1;
    } else {
      assert BitLength(0) == 0;
      assert Pow2(1) == 2 * Pow2(0);
    }
  }

  lemma {:induction false} Pow2Add(a: nat, b: nat)
    ensures Pow2(a + b) == Pow2(a) * Pow2(b)
  {
    if a > 0 {
      Pow2Add(a - 1, b);
    }
  }

  lemma {:induction false} Pow2Mono(a: nat, b: nat)
    requires a <= b
    ensures Pow2(a) <= Pow2(b)
  {
    if a < b {
      Pow2Mono(a, b - 1);
    }
  }

  lemma {:induction false} Pow64()
    ensures Pow2(64) == 0x1_0000_0000_0000_0000 && Pow2(63) == 0x8000_0000_0000_0000
  {
    assert Pow2(4) == 16;
    Pow2Add(4, 4);
    Pow2Add(8, 8);
    Pow2Add(16, 16);
    Pow2Add(32, 32);
    assert Pow2(8) == 256 && Pow2(16) == 65536 && Pow2(32) == 0x1_0000_0000;
    assert Pow2(64) == 2 * Pow2(63);
  }

  /** Exponent distance of the two operands. */
  function D(st0: Float, st1: Float): (d: int) {
    st0.Exp() - st1.Exp()
  }

  /** Remainder of the scaled mantissa. */
  function Raw(st0: Float, st1: Float): (r: nat)
    requires st1.m > 0
    ensures r < st1.m
  {
    (st0.m * Pow2(N)) % st1.m
  }

  /** Left shift that puts the leading one of the remainder in bit 63. */
  function Shift(raw: Mantissa): (s: nat)
    requires raw > 0
    ensures s <= 63
  {
    BitLengthAtMost64(raw);
    63 - (BitLength(raw) - 1)
  }

  lemma {:induction false} BitLengthAtMost64(x: Mantissa)
    requires x > 0
    ensures 1 <= BitLength(x) <= 64
  {
    Pow64();
    BitLengthBounds(x);
    if BitLength(x) > 64 {
      Pow2Mono(64, BitLength(x) - 1);
      assert false;
    }
  }

  function Max(a: int, b: int): (c: int) {
    if a > b then a else b
  }

  /** The pre-computed result, or nothing when the native instruction is left alone. */
  function Fixup(st0: Float, st1: Float): (r: Option<Float>)
    ensures r.Some? <==> D(st0, st1) >= 64 && st1.m > 0
  {
    if D(st0, st1) < 64 || st1.m == 0 then None
    else
      var raw := Raw(st0, st1);
      var s0 := st0.Sign();
      if raw == 0 then Some(Float(0, s0 * 0x8000))
      else
        var shift := Shift(raw);
        var e := Max(st0.Exp() - N - shift, 1);
        Some(Float((raw * Pow2(shift)) % 0x1_0000_0000_0000_0000, s0 * 0x8000 + e % 0x8000))
  }

  /** The shifted remainder fills exactly 64 bits. */
  lemma {:induction false} ShiftRange(raw: Mantissa)
    requires 0 < raw
    ensures 0x8000_0000_0000_0000 <= raw * Pow2(Shift(raw)) < 0x1_0000_0000_0000_0000
  {
    Pow64();
    BitLengthBounds(raw);
    var n, s := BitLength(raw), Shift(raw);
    Pow2Add(n - 1, s);
    Pow2Add(n, s);
    MulMono(Pow2(n - 1), raw, Pow2(s));
    assert raw * Pow2(s) < Pow2(n) * Pow2(s) by {
      MulMono(raw + 1, Pow2(n), Pow2(s));
      assert (raw + 1) * Pow2(s) == raw * Pow2(s) + Pow2(s);
    }
  }

  lemma {:induction false} MulMono(a: nat, b: nat, c: nat)
    requires a <= b
    ensures a * c <= b * c
  {
  }

  /** What one partial-remainder step has to leave: |ST0| - Q * |ST1| * 2^(D - 63). */
  function Partial(st0: Float, st1: Float): (v: int)
    requires D(st0, st1) >= 64 && st1.m > 0
  {
    var q := (st0.m * Pow2(N)) / st1.m;
    st0.Mag() - q * st1.Mag() * Pow2(D(st0, st1) - N)
  }

  /** The partial remainder is the scaled remainder at exponent e0 - 63. */
  lemma {:induction false} PartialIsRaw(st0: Float, st1: Float)
    requires D(st0, st1) >= 64 && st1.m > 0
    ensures Partial(st0, st1) == Raw(st0, st1) * Pow2(st0.Exp() - N)
  {
    var e0, e1, d := st0.Exp(), st1.Exp(), D(st0, st1);
    Pow2Add(N, e0 - N);
    Pow2Add(e1, d - N);
    assert e1 + (d - N) == e0 - N;
    PartialArith(st0.m, st1.m, Pow2(N), Pow2(e1), Pow2(d - N));
  }

  /** The arithmetic of a step, with the three powers of two as plain factors. */
  lemma {:induction false} PartialArith(m0: nat, m1: nat, a: nat, b: nat, c: nat)
    requires m1 > 0
    ensures m0 * (a * (b * c)) - ((m0 * a) / m1) * (m1 * b) * c == ((m0 * a) % m1) * (b * c)
  {
    var x, p := m0 * a, b * c;
    var q, raw := x / m1, x % m1;
    MulAssoc(m0, a, p);
    MulAssoc(q, m1 * b, c);
    MulAssoc(m1, b, c);
    MulAssoc(q, m1, p);
    assert x == q * m1 + raw;
    MulDist(q * m1, raw, p);
  }

  lemma {:induction false} MulAssoc(a: int, b: int, c: int)
    ensures (a * b) * c == a * (b * c)
  {
  }

  lemma {:induction false} MulSwap(a: int, b: int, c: int)
    ensures (a * b) * c == (a * c) * b
  {
    MulAssoc(a, b, c);
    MulAssoc(a, c, b);
    assert b * c == c * b;
  }

  lemma {:induction false} MulDist(a: int, b: int, c: int)
    ensures (a + b) * c == a * c + b * c
  {
  }

  /** The normalised result at its unclamped exponent has the value of the remainder. */
  lemma {:induction false} NormalisedValue(raw: nat, shift: nat, e: nat)
    requires shift <= e
    ensures (raw * Pow2(shift)) * Pow2(e - shift) == raw * Pow2(e)
  {
    Pow2Add(shift, e - shift);
    MulAssoc(raw, Pow2(shift), Pow2(e - shift));
  }

  /** The exponent clamp `max(e, 1)` does not fire. */
  predicate NoClamp(st0: Float, st1: Float)
    requires st1.m > 0
  {
    Raw(st0, st1) == 0 || st0.Exp() - N - Shift(Raw(st0, st1)) >= 1
  }

  /** One step is exact if and only if the exponent clamp does not fire; the sign is kept, the 64-bit
      mask loses nothing and the mantissa is normalised in every case. */
  lemma {:induction false} StepExact(st0: Float, st1: Float)
    requires D(st0, st1) >= 64 && st1.m > 0
    ensures var r := Fixup(st0, st1).value;
            && r.Sign() == st0.Sign()
            && (r.m == 0 <==> Raw(st0, st1) == 0) && (r.m == 0 || r.m >= 0x8000_0000_0000_0000)
            && (Raw(st0, st1) > 0 ==> r.m == Raw(st0, st1) * Pow2(Shift(Raw(st0, st1))))
            && (r.Mag() == Partial(st0, st1) <==> NoClamp(st0, st1))
            && (NoClamp(st0, st1) && r.m > 0 ==> r.Exp() == st0.Exp() - N - Shift(Raw(st0, st1)))
  {
    var raw, r := Raw(st0, st1), Fixup(st0, st1).value;
    FixupForm(st0, st1);
    PartialIsRaw(st0, st1);
    if raw > 0 {
      ShiftRange(raw);
      ValueExact(raw, Shift(raw), st0.Exp() - N, r);
    }
  }

  lemma {:induction false} PackFields(s: nat, e: nat)
    requires s < 2 && e < 0x8000
    ensures (s * 0x8000 + e) % 0x8000 == e && (s * 0x8000 + e) / 0x8000 == s
  {
  }

  /** Neither mask of the result loses anything. */
  lemma {:induction false} FixupMasks(st0: Float, st1: Float, raw: Mantissa, e: nat)
    requires D(st0, st1) >= 64 && st1.m > 0 && raw == Raw(st0, st1) > 0
    requires e == Max(st0.Exp() - N - Shift(raw), 1)
    ensures var r := Fixup(st0, st1).value;
            r.m == raw * Pow2(Shift(raw)) && r.ef == st0.Sign() * 0x8000 + e && e < 0x8000
  {
    ShiftRange(raw);
    SmallModulo(raw * Pow2(Shift(raw)), 0x1_0000_0000_0000_0000);
    SmallModulo(e, 0x8000);
  }

  lemma {:induction false} SmallModulo(x: nat, m: nat)
    requires x < m
    ensures x % m == x
  {
  }

  /** The three fields of the result. */
  lemma {:induction false} FixupForm(st0: Float, st1: Float)
    requires D(st0, st1) >= 64 && st1.m > 0
    ensures var r, raw := Fixup(st0, st1).value, Raw(st0, st1);
            && r.Sign() == st0.Sign()
            && if raw == 0 then r.m == 0 && r.Exp() == 0
               else r.m == raw * Pow2(Shift(raw)) && r.Exp() == Max(st0.Exp() - N - Shift(raw), 1)
  {
    var raw := Raw(st0, st1);
    if raw == 0 {
      PackFields(st0.Sign(), 0);
    } else {
      var e := Max(st0.Exp() - N - Shift(raw), 1);
      FixupMasks(st0, st1, raw, e);
      PackFields(st0.Sign(), e);
    }
  }

  /** A normalised result has the remainder's value exactly when its exponent was not clamped. */
  lemma {:induction false} ValueExact(raw: nat, shift: nat, e: nat, r: Float)
    requires raw > 0 && r.m == raw * Pow2(shift) && r.Exp() == Max(e - shift, 1)
    ensures r.Mag() == raw * Pow2(e) <==> e - shift >= 1
  {
    if e - shift >= 1 {
      NormalisedValue(raw, shift, e);
    } else {
      ClampTooLarge(raw, shift, e);
    }
  }

  /** A clamped exponent overstates the value. */
  lemma {:induction false} ClampTooLarge(raw: nat, shift: nat, e: nat)
    requires raw > 0 && e <= shift
    ensures (raw * Pow2(shift)) * Pow2(1) > raw * Pow2(e)
  {
    Pow2Mono(e, shift);
    MulMono(Pow2(e), Pow2(shift), raw);
    assert Pow2(1) == 2 * Pow2(0) == 2;
    assert raw * Pow2(shift) > 0;
  }

  /** With the divisor's exponent at least 63 every step is exact. */
  lemma {:induction false} ExactForNormalDivisors(st0: Float, st1: Float)
    requires D(st0, st1) >= 64 && st1.m > 0 && st1.Exp() >= 63
    ensures NoClamp(st0, st1)
    ensures Fixup(st0, st1).value.Mag() == Partial(st0, st1)
  {
    StepExact(st0, st1);
  }

  // ---------------------------------------------------------------- iterating

  /** The exponent distance drops by at least 63 per step, clamped or not. */
  lemma {:induction false} StepShrinks(st0: Float, st1: Float)
    requires D(st0, st1) >= 64 && st1.m > 0
    ensures D(Fixup(st0, st1).value, st1) <= D(st0, st1) - 63
    ensures Fixup(st0, st1).value.Exp() < st0.Exp()
  {
    FixupForm(st0, st1);
  }

  /** Repeat the fix-up as long as it applies. */
  function Iterate(st0: Float, st1: Float): (r: (Float, nat))
    decreases st0.Exp()
  {
    if D(st0, st1) < 64 || st1.m == 0 then (st0, 0)
    else
      StepShrinks(st0, st1);
      var (r, n) := Iterate(Fixup(st0, st1).value, st1);
      (r, n + 1)
  }

  lemma {:induction false} PartialIsMultiple(st0: Float, st1: Float) returns (k: int)
    requires D(st0, st1) >= 64 && st1.m > 0
    ensures Partial(st0, st1) == st0.Mag() - k * st1.Mag()
  {
    k := MultipleOf((st0.m * Pow2(N)) / st1.m, st1.Mag(), Pow2(D(st0, st1) - N));
  }

  lemma {:induction false} MultipleOf(q: int, b: int, p: int) returns (k: int)
    ensures q * b * p == k * b
  {
    k := q * p;
    MulSwap(q, b, p);
  }

  lemma {:induction false} MagPositive(f: Float)
    requires f.m > 0
    ensures f.Mag() > 0
  {
    MulMono(1, f.m, Pow2(f.Exp()));
  }

  /** What a step has to leave has the remainder of |ST0| by |ST1|. */
  lemma {:induction false} PartialRemainder(st0: Float, st1: Float)
    requires D(st0, st1) >= 64 && st1.m > 0
    ensures st1.Mag() > 0 && 0 <= Partial(st0, st1)
    ensures Partial(st0, st1) % st1.Mag() == st0.Mag() % st1.Mag()
  {
    MagPositive(st1);
    PartialIsRaw(st0, st1);
    var k := PartialIsMultiple(st0, st1);
    RemainderShift(st0.Mag(), Partial(st0, st1), k, st1.Mag());
  }

  /** How much more than the partial remainder a step leaves: nothing, unless the clamp fires. */
  function Excess(st0: Float, st1: Float): (x: int)
    requires D(st0, st1) >= 64 && st1.m > 0
  {
    if NoClamp(st0, st1) then 0
    else Raw(st0, st1) * Pow2(Shift(Raw(st0, st1))) * Pow2(1) - Raw(st0, st1) * Pow2(st0.Exp() - N)
  }

  /** The excess, exactly; it is zero if and only if the clamp does not fire. */
  lemma {:induction false} ExcessIs(st0: Float, st1: Float)
    requires D(st0, st1) >= 64 && st1.m > 0
    ensures Fixup(st0, st1).value.Mag() == Partial(st0, st1) + Excess(st0, st1)
    ensures Excess(st0, st1) >= 0 && (Excess(st0, st1) == 0 <==> NoClamp(st0, st1))
  {
    StepExact(st0, st1);
    if !NoClamp(st0, st1) {
      var raw := Raw(st0, st1);
      FixupForm(st0, st1);
      PartialIsRaw(st0, st1);
      ClampTooLarge(raw, Shift(raw), st0.Exp() - N);
    }
  }

  /** A step keeps the remainder of |ST0| by |ST1| if and only if its excess is a multiple of |ST1|; so it
      does whenever the clamp does not fire, at any divisor exponent. */
  lemma {:induction false} StepKeepsRemainder(st0: Float, st1: Float)
    requires D(st0, st1) >= 64 && st1.m > 0
    ensures st1.Mag() > 0
    ensures Fixup(st0, st1).value.Mag() % st1.Mag() == st0.Mag() % st1.Mag() <==> Excess(st0, st1) % st1.Mag() == 0
    ensures NoClamp(st0, st1) ==> Excess(st0, st1) % st1.Mag() == 0
  {
    ExcessIs(st0, st1);
    PartialRemainder(st0, st1);
    SumRemainder(Partial(st0, st1), Excess(st0, st1), st1.Mag());
  }

  lemma {:induction false} SumRemainder(x: nat, y: nat, b: nat)
    requires b > 0
    ensures (x + y) % b == x % b <==> y % b == 0
  {
    var q, r := x / b, x % b;
    var s, t := y / b, y % b;
    MulDist(q, s, b);
    if r + t < b {
      DivModUnique(x + y, b, q + s, r + t);
    } else {
      MulDist(q + s, 1, b);
      DivModUnique(x + y, b, q + s + 1, r + t - b);
    }
  }

  lemma {:induction false} RemainderShift(x: nat, r: nat, k: int, b: nat)
    requires b > 0 && r == x - k * b
    ensures r % b == x % b
  {
    var q := r / b;
    MulDist(q, k, b);
    assert x == (q + k) * b + r % b;
    DivModUnique(x, b, q + k, r % b);
  }

  /** The excess of the first clamped step of the iteration, if there is one. */
  function ClampedExcess(st0: Float, st1: Float): (x: int)
    requires st1.m > 0
    decreases st0.Exp()
  {
    if D(st0, st1) < 64 then 0
    else if !NoClamp(st0, st1) then Excess(st0, st1)
    else
      StepShrinks(st0, st1);
      ClampedExcess(Fixup(st0, st1).value, st1)
  }

  lemma {:induction false} NormalNeverClamped(st0: Float, st1: Float)
    requires st1.m > 0 && st1.Exp() >= 63
    ensures ClampedExcess(st0, st1) == 0
    decreases st0.Exp()
  {
    if D(st0, st1) >= 64 {
      ExactForNormalDivisors(st0, st1);
      StepShrinks(st0, st1);
      NormalNeverClamped(Fixup(st0, st1).value, st1);
    }
  }

  /** A clamped step is the last one. */
  lemma {:induction false} ClampEnds(st0: Float, st1: Float)
    requires D(st0, st1) >= 64 && st1.m > 0 && !NoClamp(st0, st1)
    ensures D(Fixup(st0, st1).value, st1) < 64
  {
    FixupForm(st0, st1);
  }

  /** The whole iteration, for every divisor: it stops below the 64-bit distance after at most D / 63 steps and
      keeps the sign. The remainder of |ST0| by |ST1| is unchanged if and only if the excess of a clamped step,
      if there is one, is a multiple of |ST1|; no step is clamped when the divisor's exponent is at least 63. */
  lemma {:induction false} IterateCorrect(st0: Float, st1: Float)
    requires st1.m > 0
    ensures var (r, n) := Iterate(st0, st1);
            && D(r, st1) < 64
            && (n > 0 ==> 63 * n <= D(st0, st1))
            && r.Sign() == st0.Sign() && st1.Mag() > 0
            && (r.Mag() % st1.Mag() == st0.Mag() % st1.Mag() <==> ClampedExcess(st0, st1) % st1.Mag() == 0)
    ensures st1.Exp() >= 63 ==> ClampedExcess(st0, st1) == 0
    decreases st0.Exp()
  {
    MagPositive(st1);
    if st1.Exp() >= 63 {
      NormalNeverClamped(st0, st1);
    }
    if D(st0, st1) >= 64 {
      StepShrinks(st0, st1);
      StepExact(st0, st1);
      StepKeepsRemainder(st0, st1);
      IterateCorrect(Fixup(st0, st1).value, st1);
      if !NoClamp(st0, st1) {
        ClampEnds(st0, st1);
      }
    }
  }

  // ---------------------------------------------------------------- the clamp

  /** Operands with the least distance and normalised mantissas. */
  function Dividend(e: nat): (f: Float)
    requires e < 63
  {
    Float(0x8000_0000_0000_0000, e + 64)
  }

  function Divisor(e: nat): (f: Float)
    requires e < 63
  {
    Float(0x8000_0000_0000_0001, e)
  }

  lemma {:induction false} ClampedRaw(e: nat)
    requires e < 63
    ensures Raw(Dividend(e), Divisor(e)) == 1 && Shift(1) == 63
  {
    Pow64();
    assert 0x8000_0000_0000_0000 * 0x8000_0000_0000_0000 == 0x7FFF_FFFF_FFFF_FFFF * 0x8000_0000_0000_0001 + 1;
    DivModUnique(0x8000_0000_0000_0000 * 0x8000_0000_0000_0000, 0x8000_0000_0000_0001, 0x7FFF_FFFF_FFFF_FFFF, 1);
    assert BitLength(1) == 1 + BitLength(0);
  }

  /** A clamped step leaves 2^64 where 2^(e + 1) would be right. */
  lemma {:induction false} ClampedValue(e: nat)
    requires e < 63
    ensures D(Dividend(e), Divisor(e)) == 64 && !NoClamp(Dividend(e), Divisor(e))
    ensures Fixup(Dividend(e), Divisor(e)).value.Mag() == 0x1_0000_0000_0000_0000
    ensures Partial(Dividend(e), Divisor(e)) == Pow2(e + 1)
  {
    var st0, st1 := Dividend(e), Divisor(e);
    ClampedRaw(e);
    FixupForm(st0, st1);
    PartialIsRaw(st0, st1);
    Pow64();
    assert Pow2(1) == 2 * Pow2(0) == 2;
  }

  lemma {:induction false} ClampedRemainders(e: nat, p: nat, b: nat)
    requires e < 63 && p == Pow2(e) && b == 0x8000_0000_0000_0001 * p
    ensures Pow2(e + 1) < b && 0x1_0000_0000_0000_0000 % b != Pow2(e + 1)
  {
    assert Pow2(e + 1) == 2 * p;
    Pow64();
    if e == 0 {
      assert p == 1;
      DivModUnique(0x1_0000_0000_0000_0000, b, 1, 0x7FFF_FFFF_FFFF_FFFF);
    } else {
      Pow2Mono(1, e);
      Pow2Mono(e + 1, 63);
      assert Pow2(1) == 2 * Pow2(0) == 2;
      SmallModulo(0x1_0000_0000_0000_0000, b);
    }
  }

  /** The bound on the divisor's exponent is tight: at every exponent below it there is a step whose value is
      wrong and whose remainder is wrong too. */
  lemma {:induction false} ClampCanFire(e: nat)
    requires e < 63
    ensures var st0, st1 := Dividend(e), Divisor(e);
            && D(st0, st1) == 64 && !NoClamp(st0, st1) && Fixup(st0, st1).value.Mag() != Partial(st0, st1)
            && st1.Mag() > 0 && Fixup(st0, st1).value.Mag() % st1.Mag() != st0.Mag() % st1.Mag()
  {
    var st0, st1 := Dividend(e), Divisor(e);
    ClampedValue(e);
    StepExact(st0, st1);
    PartialRemainder(st0, st1);
    ClampedRemainders(e, Pow2(e), st1.Mag());
    SmallModulo(Partial(st0, st1), st1.Mag());
  }

  // ---------------------------------------------------------------- the hook

  predicate IsFprem(b0: nat, b1: nat) {
    b0 == 0xD9 && (b1 == 0xF8 || b1 == 0xF5)
  }

  function Top(fpsw: nat): (t: nat)
    ensures t < 8
  {
    (fpsw / 0x800) % 8
  }

  /** `fpsw | 0x0400`. */
  function SetC2(fpsw: nat): (f: nat)
    ensures (f / 0x400) % 2 == 1
    ensures f == fpsw || f == fpsw + 0x400
  {
    if (fpsw / 0x400) % 2 == 1 then fpsw else fpsw + 0x400
  }

  /** The top-of-stack field is bits 11 to 13 of the status word. */
  lemma {:induction false} TopOf(hi: nat, t: nat, lo: nat)
    requires t < 8 && lo < 0x800
    ensures Top(hi * 0x4000 + t * 0x800 + lo) == t
  {
    DivModUnique(hi * 0x4000 + t * 0x800 + lo, 0x800, hi * 8 + t, lo);
    DivModUnique(hi * 8 + t, 8, hi, t);
  }

  /** Setting C2 is setting bit 10 and nothing else. */
  lemma {:induction false} C2Of(hi: nat, t: nat, lo: nat)
    requires t < 8 && lo < 0x800
    ensures SetC2(hi * 0x4000 + t * 0x800 + lo) ==
            hi * 0x4000 + t * 0x800 + if lo < 0x400 then lo + 0x400 else lo
  {
    var up := hi * 16 + t * 2;
    if lo < 0x400 {
      DivModUnique(hi * 0x4000 + t * 0x800 + lo, 0x400, up, lo);
      DivModUnique(up, 2, hi * 8 + t, 0);
    } else {
      DivModUnique(hi * 0x4000 + t * 0x800 + lo, 0x400, up + 1, lo - 0x400);
      DivModUnique(up + 1, 2, hi * 8 + t, 1);
    }
  }

  /** The emulated FPU with the pending fix-up of the hook. */
  class FpuHook {
    var regs: seq<Float>
    var fpsw: nat
    var pending: bool
    var data: (Float, nat)

    ghost predicate Valid()
      reads this
    {
      |regs| == 8 && data.1 < 8
    }

    constructor (regs: seq<Float>, fpsw: nat)
      requires |regs| == 8
      ensures Valid() && !pending && this.regs == regs && this.fpsw == fpsw
    {
      this.regs := regs;
      this.fpsw := fpsw;
      pending := false;
      data := (Float(0, 0), 0);
    }

    /** Before an instruction: pre-compute the result of an FPREM the emulator would get wrong. */
    method Detect(size: nat, b0: nat, b1: nat, ghost hi: nat, ghost t: nat, ghost lo: nat)
      requires Valid() && fpsw == hi * 0x4000 + t * 0x800 + lo && t < 8 && lo < 0x800
      modifies this`pending, this`data
      ensures Valid()
      ensures var fix := Fixup(regs[t], regs[(t + 1) % 8]);
              if size == 2 && b0 == 0xD9 && (b1 == 0xF8 || b1 == 0xF5) && fix.Some?
              then pending && data == (fix.value, t)
              else pending == old(pending) && data == old(data)
    {
      TopOf(hi, t, lo);
      if size != 2 || !IsFprem(b0, b1) {
        return;
      }
      var top := Top(fpsw);
      var fix := Fixup(regs[top], regs[(top + 1) % 8]);
      if fix.Some? {
        data := (fix.value, top);
        pending := true;
      }
    }

    /** Before the next instruction: overwrite the register and report a partial result. */
    method Apply()
      requires Valid()
      modifies this`regs, this`fpsw, this`pending
      ensures Valid() && !pending
      ensures regs == if old(pending) then old(regs)[data.1 := data.0] else old(regs)
      ensures fpsw == if old(pending) then SetC2(old(fpsw)) else old(fpsw)
    {
      if !pending {
        return;
      }
      pending := false;
      regs := regs[data.1 := data.0];
      fpsw := SetC2(fpsw);
    }

    /** A whole FPREM under the hook, with `t` in the top-of-stack field of the status word and whatever the
        emulator itself writes to register `t` and to the rest of the word: when the distance is 64 or more the
        register ends up with the pre-computed step, which has the dividend's sign and is exact unless the
        exponent clamp fires, and C2 is set; the other seven registers and the other bits keep their values. */
    method Emulate(b1: nat, wrong: Float, wrongFpsw: nat, ghost hi: nat, ghost t: nat, ghost lo: nat,
                   ghost whi: nat, ghost wlo: nat)
      requires Valid() && !pending && (b1 == 0xF8 || b1 == 0xF5) && t < 8
      requires fpsw == hi * 0x4000 + t * 0x800 + lo && lo < 0x800
      requires wrongFpsw == whi * 0x4000 + t * 0x800 + wlo && wlo < 0x800
      modifies this
      ensures Valid() && !pending
      ensures forall i :: 0 <= i < 8 && i != t ==> regs[i] == old(regs)[i]
      ensures var st0, st1 := old(regs)[t], old(regs)[(t + 1) % 8];
              if D(st0, st1) >= 64 && st1.m > 0
              then && regs[t] == Fixup(st0, st1).value && regs[t].Sign() == st0.Sign()
                   && (regs[t].Mag() == Partial(st0, st1) <==> NoClamp(st0, st1))
                   && fpsw == whi * 0x4000 + t * 0x800 + if wlo < 0x400 then wlo + 0x400 else wlo
              else regs[t] == wrong && fpsw == wrongFpsw
    {
      ghost var st0, st1 := regs[t], regs[(t + 1) % 8];
      if D(st0, st1) >= 64 && st1.m > 0 {
        StepExact(st0, st1);
      }
      TopOf(hi, t, lo);
      C2Of(whi, t, wlo);
      Detect(2, 0xD9, b1, hi, t, lo);
      regs := regs[Top(fpsw) := wrong];
      fpsw := wrongFpsw;
      Apply();
    }
  }
}
