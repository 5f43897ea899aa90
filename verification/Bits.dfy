/** Bitwise AND on naturals, as far as masking ring indices needs it. */
module Bits {
  import opened Geometry

  function And(a: nat, b: nat): nat {
    if a == 0 || b == 0 then 0 else (if a % 2 == 1 && b % 2 == 1 then 1 else 0) + 2 * And(a / 2, b / 2)
  }

  function Pow2(k: nat): (p: nat)
    ensures p > 0
  {
    if k == 0 then 1 else 2 * Pow2(k - 1)
  }

  ghost predicate IsPow2(d: int) {
    exists k: nat :: d == Pow2(k)
  }

  /** `x` without its lowest `k` bits. */
  function Shift(x: nat, k: nat): nat {
    if k == 0 then x else Shift(x / 2, k - 1)
  }

  lemma AndStep(x: nat, p: nat)
    requires p > 0
    ensures And(x, 2 * p - 1) == x % 2 + 2 * And(x / 2, p - 1)
  {
    var m := 2 * p - 1;
    assert m / 2 == p - 1 && m % 2 == 1;
  }

  lemma Recombine(x: nat, s: nat, p: nat, a: nat)
    requires x / 2 == s * p + a
    ensures x == s * (2 * p) + (x % 2 + 2 * a)
  {
    assert s * (2 * p) == 2 * (s * p);
  }

  lemma {:induction false} MaskDecomposes(x: nat, k: nat)
    ensures And(x, Pow2(k) - 1) < Pow2(k) && x == Shift(x, k) * Pow2(k) + And(x, Pow2(k) - 1)
  {
    if k > 0 {
      var p := Pow2(k - 1);
      MaskDecomposes(x / 2, k - 1);
      AndStep(x, p);
      Recombine(x, Shift(x / 2, k - 1), p, And(x / 2, p - 1));
    }
  }

  /** Masking with a power of two minus one is taking the remainder. */
  lemma MaskIsMod(x: nat, k: nat)
    ensures And(x, Pow2(k) - 1) == x % Pow2(k)
  {
    MaskDecomposes(x, k);
    DivMod(Shift(x, k), And(x, Pow2(k) - 1), Pow2(k));
  }

  lemma {:induction false} AndSelf(x: nat)
    ensures And(x, x) == x
  {
    if x > 0 {
      AndSelf(x / 2);
    }
  }

  lemma OddTest(d: nat)
    requires d > 1 && d % 2 == 1
    ensures And(d, d - 1) != 0
  {
    AndSelf(d / 2);
    assert (d - 1) / 2 == d / 2 && (d - 1) % 2 == 0;
  }

  lemma EvenTest(d: nat)
    requires d > 0 && d % 2 == 0
    ensures And(d, d - 1) == 2 * And(d / 2, d / 2 - 1)
  {
    assert (d - 1) / 2 == d / 2 - 1;
  }

  lemma DoublePow2(d: nat)
    requires IsPow2(d)
    ensures IsPow2(2 * d)
  {
    var k: nat :| d == Pow2(k);
    assert 2 * d == Pow2(k + 1);
  }

  /** d & (d - 1) is zero exactly for powers of two. */
  lemma {:induction false} PowerOfTwoTest(d: nat)
    requires d > 0
    ensures And(d, d - 1) == 0 <==> IsPow2(d)
  {
    if IsPow2(d) {
      var k: nat :| d == Pow2(k);
      MaskIsMod(d, k);
      DivMod(1, 0, d);
    } else if d % 2 == 1 {
      assert d == 1 ==> d == Pow2(0);
      OddTest(d);
    } else {
      PowerOfTwoTest(d / 2);
      EvenTest(d);
      if IsPow2(d / 2) { DoublePow2(d / 2); }
    }
  }
}
