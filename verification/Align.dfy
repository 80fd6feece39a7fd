/** Rounding to an alignment. For a power of two `a` the source writes
    `(x + a - 1) & ~(a - 1)`. */
module Align {

  function RoundUp(x: nat, a: nat): (r: nat)
    requires a > 0
    ensures x <= r < x + a && r % a == 0
  {
    var y := x + a - 1;
    assert (y / a) * a % a == 0 by { MulMod(y / a, a); }
    (y / a) * a
  }

  lemma {:induction false} MulMod(q: nat, a: nat)
    requires a > 0
    ensures q * a % a == 0
  {
    if q > 0 {
      MulMod(q - 1, a);
      assert q * a == (q - 1) * a + a;
      AddMod((q - 1) * a, a);
    }
  }

  lemma {:induction false} AddMod(x: nat, a: nat)
    requires a > 0
    ensures (x + a) % a == x % a
  {
    assert x == (x / a) * a + x % a;
    assert x + a == (x / a + 1) * a + x % a;
    DivModUnique(x + a, a, x / a + 1, x % a);
  }

  lemma {:induction false} MulBounds(d: int, a: int)
    requires a > 0
    ensures d >= 1 ==> d * a >= a
    ensures d <= -1 ==> d * a <= -a
  {
    if d >= 1 {
      assert (d - 1) * a >= 0;
    } else if d <= -1 {
      assert (-d - 1) * a >= 0;
    }
  }

  lemma {:induction false} DivModUnique(x: int, a: int, q: int, r: int)
    requires a > 0 && 0 <= r < a && x == q * a + r
    ensures x / a == q && x % a == r
  {
    var q', r' := x / a, x % a;
    assert x == a * q' + r';
    MulBounds(q - q', a);
    assert (q - q') * a == q * a - q' * a;
  }

  /** The multiple of `a` in any window of `a` consecutive numbers is unique. */
  lemma {:induction false} MultipleUnique(x: nat, y: nat, lo: nat, a: nat)
    requires a > 0 && x % a == 0 && y % a == 0
    requires lo <= x < lo + a && lo <= y < lo + a
    ensures x == y
  {
    var p, q := x / a, y / a;
    assert x == p * a && y == q * a;
    MulBounds(p - q, a);
    assert (p - q) * a == p * a - q * a;
  }

  /** Rounding is the identity on multiples. */
  lemma {:induction false} RoundUpFixed(x: nat, a: nat)
    requires a > 0 && x % a == 0
    ensures RoundUp(x, a) == x
  {
    MultipleUnique(x, RoundUp(x, a), x, a);
  }

  lemma {:induction false} SumOfMultiples(x: nat, y: nat, a: nat)
    requires a > 0 && x % a == 0 && y % a == 0
    ensures (x + y) % a == 0
  {
    assert x == (x / a) * a && y == (y / a) * a;
    assert x + y == (x / a + y / a) * a;
    MulMod(x / a + y / a, a);
  }

  /** Rounding an offset from an aligned base. */
  lemma {:induction false} RoundUpShift(base: nat, x: nat, a: nat)
    requires a > 0 && base % a == 0
    ensures RoundUp(base + x, a) == base + RoundUp(x, a)
  {
    SumOfMultiples(base, RoundUp(x, a), a);
    MultipleUnique(RoundUp(base + x, a), base + RoundUp(x, a), base + x, a);
  }

  /** Rounding to a multiple of `a` passes at least the next multiple of `a`. */
  lemma {:induction false} CoarserRound(x: nat, r: nat, a: nat)
    requires a > 0 && r % a == 0 && x <= r
    ensures RoundUp(x, a) <= r
  {
    if r < RoundUp(x, a) {
      assert x <= r < x + a;
      MultipleUnique(r, RoundUp(x, a), x, a);
    }
  }

  function Pow2(n: nat): (p: nat)
    ensures p > 0
  {
    if n == 0 then 1 else 2 * Pow2(n - 1)
  }

  /** A larger power of two is a multiple of a smaller one. */
  lemma {:induction false} MultipleOfPow2(x: nat, j: nat, k: nat)
    requires j <= k && x % Pow2(k) == 0
    ensures x % Pow2(j) == 0
    decreases k
  {
    if j < k {
      var q, a := x / Pow2(k), Pow2(k - 1);
      assert x == q * Pow2(k);
      assert q * (2 * a) == (2 * q) * a;
      MulMod(2 * q, a);
      MultipleOfPow2(x, j, k - 1);
    }
  }
}
