/** Unsigned machine arithmetic on naturals: powers of two and the C operators `&`, `|`, `^`. */
module Bits {

  type byte = x: int | 0 <= x < 256

  function Pow2(n: nat): (p: nat)
    ensures p >= 1
  {
    if n == 0 then 1 else 2 * Pow2(n - 1)
  }

  /** `a & b`, bit by bit. */
  function BitAnd(a: nat, b: nat): nat
  {
    if a == 0 || b == 0 then 0
    else (if a % 2 == 1 && b % 2 == 1 then 1 else 0) + 2 * BitAnd(a / 2, b / 2)
  }

  /** `a | b`, bit by bit. */
  function BitOr(a: nat, b: nat): nat
    decreases a + b
  {
    if a == 0 then b else if b == 0 then a
    else (if a % 2 == 1 || b % 2 == 1 then 1 else 0) + 2 * BitOr(a / 2, b / 2)
  }

  /** `a ^ b`, bit by bit. */
  function BitXor(a: nat, b: nat): nat
    decreases a + b
  {
    if a == 0 then b else if b == 0 then a
    else (if a % 2 != b % 2 then 1 else 0) + 2 * BitXor(a / 2, b / 2)
  }

  lemma Pow2Add(m: nat, n: nat)
    ensures Pow2(m + n) == Pow2(m) * Pow2(n)
  {
    if m != 0 {
      Pow2Add(m - 1, n);
      assert Pow2(m + n) == 2 * (Pow2(m - 1) * Pow2(n));
    }
  }

  /** Masking with 2^k - 1 is reduction modulo 2^k. */
  lemma {:induction false} MaskIsMod(v: nat, k: nat)
    ensures BitAnd(v, Pow2(k) - 1) == v % Pow2(k)
  {
    hide BitAnd;
    if k == 0 {
      AndOnes(v, 1);
    } else {
      var p := Pow2(k - 1);
      MaskIsMod(v / 2, k - 1);
      AndOnes(v, p);
      ModDouble(v, p);
    }
  }

  /** The low bit of a mask of ones, and the others. */
  lemma AndOnes(v: nat, p: nat)
    requires p >= 1
    ensures BitAnd(v, 0) == 0
    ensures BitAnd(v, 2 * p - 1) == v % 2 + 2 * BitAnd(v / 2, p - 1)
  {
  }

  lemma ModDouble(v: nat, p: nat)
    requires p >= 1
    ensures v % (2 * p) == v % 2 + 2 * ((v / 2) % p)
  {
    var q, r := (v / 2) / p, (v / 2) % p;
    assert v == (2 * p) * q + (v % 2 + 2 * r);
    DivModUnique(v, 2 * p, q, v % 2 + 2 * r);
  }

  lemma DivModUnique(x: int, d: int, q: int, r: int)
    requires d > 0 && 0 <= r < d && x == d * q + r
    ensures x / d == q && x % d == r
  {
    var q', r' := x / d, x % d;
    assert d * (q - q') == r' - r;
    MulMagnitude(d, q - q');
  }

  lemma MulMagnitude(d: int, k: int)
    requires d > 0
    ensures k >= 1 ==> d * k >= d
    ensures k <= -1 ==> d * k <= -d
  {
  }

  /** Or-ing a multiple of 2^i onto a number below 2^i adds them. */
  lemma {:induction false} OrDisjointIsPlus(low: nat, high: nat, i: nat)
    requires low < Pow2(i)
    ensures BitOr(low, high * Pow2(i)) == low + high * Pow2(i)
    decreases i
  {
    hide BitOr;
    if i == 0 {
      OrZero(high);
    } else {
      var p := Pow2(i - 1);
      OrDisjointIsPlus(low / 2, high, i - 1);
      TwiceProduct(high, p);
      OrEven(low, high * p);
    }
  }

  lemma TwiceProduct(a: nat, b: nat)
    ensures a * (2 * b) == 2 * (a * b)
  {
  }

  lemma OrZero(a: nat)
    ensures BitOr(0, a) == a
  {
  }

  lemma OrEven(a: nat, half: nat)
    ensures BitOr(a, 2 * half) == a % 2 + 2 * BitOr(a / 2, half)
  {
  }

  /** Exclusive or with all ones is the complement. */
  lemma {:induction false} XorOnesIsComplement(x: nat, w: nat)
    requires x < Pow2(w)
    ensures BitXor(x, Pow2(w) - 1) == Pow2(w) - 1 - x
  {
    if w != 0 && x != 0 {
      assert (Pow2(w) - 1) / 2 == Pow2(w - 1) - 1;
      XorOnesIsComplement(x / 2, w - 1);
    }
  }
}
