/** Bit masks on 64-bit words, with words as naturals. */
module Bits {
  import opened Basics

  /** Values of `size_t` and `uintptr_t`. */
  const WORD := 0x1_0000_0000_0000_0000

  /** x & m */
  function And(x: nat, m: nat): nat
    decreases x
  {
    if x == 0 then 0 else 2 * And(x / 2, m / 2) + (if x % 2 == 1 && m % 2 == 1 then 1 else 0)
  }

  /** x & ~m */
  function AndNot(x: nat, m: nat): nat
    decreases x
  {
    if x == 0 then 0 else 2 * AndNot(x / 2, m / 2) + (if x % 2 == 1 && m % 2 == 0 then 1 else 0)
  }

  predicate PowerOfTwo(a: nat) {
    a == 1 || (a > 0 && a % 2 == 0 && PowerOfTwo(a / 2))
  }

  function Exp2(n: nat): nat { if n == 0 then 1 else 2 * Exp2(n - 1) }

  lemma {:induction false} Power(n: nat)
    ensures PowerOfTwo(Exp2(n))
  {
    if n > 0 { Power(n - 1); }
  }

  lemma {:induction false} AndSame(x: nat)
    ensures And(x, x) == x
  {
    if x > 0 { AndSame(x / 2); }
  }

  /** The test `a & (a - 1)` recognises exactly the powers of two. */
  lemma {:induction false} PowerTest(a: nat)
    requires a > 0
    ensures And(a, a - 1) == 0 <==> PowerOfTwo(a)
  {
    if a % 2 == 0 {
      PowerTest(a / 2);
      assert (a - 1) / 2 == a / 2 - 1;
    } else {
      assert (a - 1) / 2 == a / 2;
      AndSame(a / 2);
    }
  }

  lemma {:induction false} AndNotZero(x: nat)
    ensures AndNot(x, 0) == x
  {
    if x > 0 { AndNotZero(x / 2); }
  }

  lemma {:induction false} AndNotLe(x: nat, m: nat)
    ensures AndNot(x, m) <= x
    decreases x
  {
    if x > 0 { AndNotLe(x / 2, m / 2); }
  }

  lemma BelowWord(x: nat)
    requires x < WORD
    ensures x % WORD == x
  {
  }

  /** `x` rounded down to a multiple of `a`. */
  function Floor(x: nat, a: nat): nat
    requires a > 0
  {
    x - x % a
  }

  lemma FloorHalves(x: nat, a: nat)
    requires a > 0 && a % 2 == 0
    ensures Floor(x, a) == 2 * Floor(x / 2, a / 2)
  {
    var b := a / 2;
    var q, r := x / 2 / b, x / 2 % b;
    assert x / 2 == q * b + r;
    assert q * a == 2 * (q * b) by { assert a == 2 * b; }
    Residue(x, q, 2 * r + x % 2, a);
  }

  lemma MaskStep(x: nat, a: nat)
    requires x > 0 && a > 0 && a % 2 == 0
    ensures AndNot(x, a - 1) == 2 * AndNot(x / 2, a / 2 - 1)
  {
    assert (a - 1) / 2 == a / 2 - 1;
  }

  /** Masking off the bits below a power of two rounds down to its multiple. */
  lemma {:induction false} MaskFloors(x: nat, a: nat)
    requires PowerOfTwo(a)
    ensures AndNot(x, a - 1) == Floor(x, a)
    decreases a
  {
    if a == 1 {
      AndNotZero(x);
    } else if x > 0 {
      MaskStep(x, a);
      MaskFloors(x / 2, a / 2);
      FloorHalves(x, a);
    }
  }

  lemma FloorMultiple(y: nat, a: nat)
    requires a > 0
    ensures Floor(y, a) % a == 0 && Floor(y, a) <= y < Floor(y, a) + a
  {
    assert y - y % a == y / a * a;
    Residue(y - y % a, y / a, 0, a);
  }

  /** (x + a - 1) & ~(a - 1), without wrap-around. */
  function AlignUp(x: nat, a: nat): nat
    requires a > 0
  {
    AndNot(x + a - 1, a - 1)
  }

  /** Rounding up gives the least multiple not below `x`. */
  lemma AlignUpLeast(x: nat, a: nat)
    requires PowerOfTwo(a)
    ensures x <= AlignUp(x, a) < x + a && AlignUp(x, a) % a == 0
  {
    MaskFloors(x + a - 1, a);
    FloorMultiple(x + a - 1, a);
  }

  /** Multiples of a multiple, and their sums, are multiples. */
  lemma Multiples(x: nat, y: nat, a: nat)
    requires a > 0 && x % a == 0 && y % a == 0
    ensures (x + y) % a == 0
  {
    var p, q := x / a, y / a;
    assert x == p * a && y == q * a;
    assert x + y == (p + q) * a by { assert (p + q) * a == p * a + q * a; }
    Residue(x + y, p + q, 0, a);
  }

  /** The lesser of two powers of two divides the other. */
  lemma {:induction false} PowersDivide(a: nat, b: nat)
    requires PowerOfTwo(a) && PowerOfTwo(b) && a <= b
    ensures b % a == 0
    decreases b
  {
    if a < b {
      PowersHalf(a, b);
      PowersDivide(a, b / 2);
      Multiples(b / 2, b / 2, a);
    } else {
      Residue(a, 1, 0, a);
    }
  }

  lemma {:induction false} PowersHalf(a: nat, b: nat)
    requires PowerOfTwo(a) && PowerOfTwo(b) && a < b
    ensures a <= b / 2
    decreases b
  {
    if a > 1 { PowersHalf(a / 2, b / 2); }
  }

  /** A multiple of a multiple of `a` is a multiple of `a`. */
  lemma MultipleOfMultiple(x: nat, b: nat, a: nat)
    requires a > 0 && b > 0 && x % b == 0 && b % a == 0
    ensures x % a == 0
  {
    var p, q := x / b, b / a;
    assert x == p * b && b == q * a;
    assert x == (p * q) * a by { assert p * (q * a) == (p * q) * a; }
    Residue(x, p * q, 0, a);
  }

  lemma MultipleOfPower(x: nat, b: nat, a: nat)
    requires PowerOfTwo(a) && PowerOfTwo(b) && a <= b && x % b == 0
    ensures x % a == 0
  {
    PowersDivide(a, b);
    MultipleOfMultiple(x, b, a);
  }

  lemma MultiplesApart(x: nat, y: nat, a: nat)
    requires a > 0 && x % a == 0 && y % a == 0 && x < y
    ensures x + a <= y
  {
    var p, q := x / a, y / a;
    assert x == p * a && y == q * a;
    if q <= p { MulLe(q, p, a); } else { MulGap(p, q, a); }
  }

  lemma {:induction false} MulLe(x: nat, y: nat, a: nat)
    requires x <= y
    ensures x * a <= y * a
  {
    if x < y { MulGap(x, y, a); }
  }
}
