/** Unsigned integers as bits: the operators of a 32-bit word, and what masks of
    leading ones do to a number. */
module Bits {

  function Pow2(k: nat): (p: nat)
    ensures p > 0
  {
    if k == 0 then 1 else 2 * Pow2(k - 1)
  }

  function And(x: nat, y: nat): nat {
    if x == 0 || y == 0 then 0 else (x % 2) * (y % 2) + 2 * And(x / 2, y / 2)
  }

  function Or(x: nat, y: nat): nat {
    if x == 0 then y else if y == 0 then x
    else (if x % 2 + y % 2 > 0 then 1 else 0) + 2 * Or(x / 2, y / 2)
  }

  function Xor(x: nat, y: nat): nat {
    if x == 0 then y else if y == 0 then x
    else (if x % 2 != y % 2 then 1 else 0) + 2 * Xor(x / 2, y / 2)
  }

  const WORD := 0x1_0000_0000

  /** A 32-bit shift drops what leaves the word. */
  function ShiftLeft(x: nat, k: nat): nat { x * Pow2(k) % WORD }

  function Not(x: nat): nat
    requires x < WORD
  {
    WORD - 1 - x
  }

  lemma WordIsPow2()
    ensures Pow2(32) == WORD
  {
    assert Pow2(8) == 256;
    PowSum(8, 8);
    PowSum(16, 16);
  }

  lemma {:induction false} PowSum(a: nat, b: nat)
    ensures Pow2(a + b) == Pow2(a) * Pow2(b)
  {
    if a != 0 {
      PowSum(a - 1, b);
      MulAssoc(2, Pow2(a - 1), Pow2(b));
    }
  }

  lemma MulAssoc(a: nat, b: nat, c: nat)
    ensures (a * b) * c == a * (b * c)
  {
  }

  lemma {:induction false} PowMonotone(a: nat, b: nat)
    requires a <= b
    ensures Pow2(a) <= Pow2(b)
  {
    if a < b { PowMonotone(a, b - 1); }
  }

  /** A quotient and remainder are the only ones. */
  lemma DivModUnique(x: nat, p: nat, q: nat, r: nat)
    requires r < p && x == q * p + r
    ensures x / p == q && x % p == r
  {
    var d, m := x / p, x % p;
    assert x == d * p + m;
    if d < q { MulStep(d, q, p); }
    if q < d { MulStep(q, d, p); }
  }

  lemma MulStep(a: nat, b: nat, p: nat)
    requires a < b
    ensures a * p + p <= b * p
  {
    assert b * p == (a + 1) * p + (b - a - 1) * p;
  }

  /** Remainders of a number and of its half. */
  lemma HalfMod(x: nat, p: nat)
    requires p > 0
    ensures x % (2 * p) == x % 2 + 2 * (x / 2 % p)
  {
    var h, b := x / 2, x % 2;
    var q, r := h / p, h % p;
    assert h == q * p + r;
    assert x == 2 * h + b;
    assert 2 * (q * p) == q * (2 * p);
    DivModUnique(x, 2 * p, q, 2 * r + b);
  }

  /** Leading ones of a word of `w` bits, the last `k` being zero. */
  function Ones(w: nat, k: nat): nat
    requires k <= w
  {
    PowMonotone(k, w);
    Pow2(w) - Pow2(k)
  }

  /** Such a mask clears the low bits and keeps the rest. */
  lemma {:induction false} MaskClears(x: nat, w: nat, k: nat)
    requires k <= w && x < Pow2(w)
    ensures And(x, Ones(w, k)) == x - x % Pow2(k)
    decreases w
  {
    if w == 0 {
    } else if k == 0 {
      assert Ones(w, 0) == 2 * Ones(w - 1, 0) + 1;
      MaskClears(x / 2, w - 1, 0);
    } else {
      PowMonotone(k - 1, w - 1);
      assert Ones(w, k) == 2 * Ones(w - 1, k - 1);
      MaskClears(x / 2, w - 1, k - 1);
      HalfMod(x, Pow2(k - 1));
    }
  }

  /** Or with trailing ones fills low bits that are zero. */
  lemma {:induction false} OrFills(x: nat, k: nat)
    requires x % Pow2(k) == 0
    ensures Or(x, Pow2(k) - 1) == x + (Pow2(k) - 1)
    decreases k
  {
    if k > 0 {
      HalfMod(x, Pow2(k - 1));
      assert Pow2(k) - 1 == 2 * (Pow2(k - 1) - 1) + 1;
      OrFills(x / 2, k - 1);
    }
  }

  lemma {:induction false} XorZero(x: nat)
    ensures Xor(x, 0) == x
  {
  }

  /** And works on the two parts of a number separately. */
  lemma {:induction false} AndParts(w: nat, h: nat, l: nat, g: nat, m: nat)
    requires l < Pow2(w) && m < Pow2(w)
    ensures And(Pow2(w) * h + l, Pow2(w) * g + m) == Pow2(w) * And(h, g) + And(l, m)
    decreases w
  {
    if w > 0 {
      var p := Pow2(w - 1);
      var x, y := Pow2(w) * h + l, Pow2(w) * g + m;
      MulAssoc(2, p, h);
      MulAssoc(2, p, g);
      MulAssoc(2, p, And(h, g));
      assert x == 2 * (p * h + l / 2) + l % 2;
      assert y == 2 * (p * g + m / 2) + m % 2;
      AndStep(p * h + l / 2, l % 2, p * g + m / 2, m % 2);
      AndStep(l / 2, l % 2, m / 2, m % 2);
      AndParts(w - 1, h, l / 2, g, m / 2);
    }
  }

  /** And, one bit at a time. */
  lemma AndStep(x: nat, a: nat, y: nat, b: nat)
    requires a < 2 && b < 2
    ensures And(2 * x + a, 2 * y + b) == 2 * And(x, y) + a * b
  {
    var s, t := 2 * x + a, 2 * y + b;
    assert s / 2 == x && s % 2 == a && t / 2 == y && t % 2 == b;
  }
}
