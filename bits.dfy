/**
  Arbitrary-precision bit operations on non-negative integers, as JavaScript's
  BigInt `<<`, `>>`, `&` and `|` behave on values that are not negative.
  `And` and `Or` are defined bit by bit, least significant bit first, so that
  the facts used by the snowflake layout (masks extract digits in base 2, and
  `+` of values with disjoint bits is `|`) are proved rather than assumed.
 */
module Bits {

  /** 2 to the power n. */
  function Pow2(n: nat): (r: nat)
    ensures r >= 1
  {
    if n == 0 then 1 else 2 * Pow2(n - 1)
  }

  /** BigInt `x << n` for x >= 0. */
  function ShiftLeft(x: nat, n: nat): nat
  {
    x * Pow2(n)
  }

  /** BigInt `x >> n` for x >= 0 (floor division by 2^n). */
  function ShiftRight(x: nat, n: nat): nat
  {
    DivIsNat(x, Pow2(n));
    x / Pow2(n)
  }

  /** BigInt `a & b` for a, b >= 0. */
  function And(a: nat, b: nat): nat
    decreases a
  {
    if a == 0 || b == 0 then 0
    else 2 * And(a / 2, b / 2) + (if a % 2 == 1 && b % 2 == 1 then 1 else 0)
  }

  /** BigInt `a | b` for a, b >= 0. */
  function Or(a: nat, b: nat): nat
    decreases a
  {
    if a == 0 then b
    else if b == 0 then a
    else 2 * Or(a / 2, b / 2) + (if a % 2 == 1 || b % 2 == 1 then 1 else 0)
  }

  /** Pow2 adds exponents. */
  lemma {:induction false} Pow2Add(m: nat, n: nat)
    ensures Pow2(m + n) == Pow2(m) * Pow2(n)
  {
    if m > 0 {
      Pow2Add(m - 1, n);
      assert Pow2(m + n) == 2 * Pow2(m - 1 + n);
    }
  }

  /** The constants the snowflake layout uses. */
  lemma Pow2Values()
    ensures Pow2(5) == 32
    ensures Pow2(12) == 4096
    ensures Pow2(17) == 131072
    ensures Pow2(22) == 4194304
    ensures Pow2(42) == 4398046511104
    ensures Pow2(64) == 18446744073709551616
  {
    assert Pow2(5) == 32;
    assert Pow2(10) == 1024;
    assert Pow2(11) == 2048;
    Pow2Add(5, 7);
    Pow2Add(12, 5);
    Pow2Add(17, 5);
    Pow2Add(22, 9);
    Pow2Add(31, 11);
    Pow2Add(42, 11);
    Pow2Add(53, 11);
  }

  /** A multiple of d by a non-zero factor is at least d away from zero. */
  lemma MulAtLeast(k: int, d: nat)
    ensures k >= 1 ==> k * d >= d
    ensures k <= -1 ==> k * d + d <= 0
  {
    assert k * d - d == (k - 1) * d;
    assert k * d + d == (k + 1) * d;
  }

  /** Division and remainder are determined by any quotient/remainder pair. */
  lemma DivModUnique(x: nat, d: nat, q: nat, r: nat)
    requires 0 <= r < d
    requires x == q * d + r
    ensures x / d == q && x % d == r
  {
    var q', r' := x / d, x % d;
    assert (q' - q) * d == r - r';
    MulAtLeast(q' - q, d);
  }

  /** Dividing by 2 * p is halving, then dividing by p; the remainders agree likewise. */
  lemma DivModDouble(v: nat, p: nat)
    requires p > 0
    ensures v / (2 * p) == (v / 2) / p
    ensures v % (2 * p) == 2 * ((v / 2) % p) + v % 2
  {
    var q, r := (v / 2) / p, (v / 2) % p;
    assert v / 2 == q * p + r;
    assert v == q * (2 * p) + (2 * r + v % 2);
    DivModUnique(v, 2 * p, q, 2 * r + v % 2);
  }

  /** Dividing by 2^(n+1) is halving, then dividing by 2^n. */
  lemma DivPow2Succ(v: nat, n: nat)
    ensures v / Pow2(n + 1) == (v / 2) / Pow2(n)
    ensures v % Pow2(n + 1) == 2 * ((v / 2) % Pow2(n)) + v % 2
  {
    assert Pow2(n + 1) == 2 * Pow2(n);
    DivModDouble(v, Pow2(n));
  }

  /** `&` is commutative. */
  lemma {:induction false} AndComm(a: nat, b: nat)
    ensures And(a, b) == And(b, a)
    decreases a
  {
    if a != 0 && b != 0 {
      AndComm(a / 2, b / 2);
    }
  }

  /** `&` with 2^m - 1 keeps the m lowest bits: it is remainder by 2^m. */
  lemma {:induction false} AndLowMask(v: nat, m: nat)
    ensures And(v, Pow2(m) - 1) == v % Pow2(m)
  {
    if m == 0 {
      assert Pow2(0) == 1;
    } else if v != 0 {
      var half := Pow2(m - 1);
      var mask := Pow2(m) - 1;
      assert mask == 2 * (half - 1) + 1;
      assert mask / 2 == half - 1 && mask % 2 == 1;
      calc {
        And(v, mask);
        2 * And(v / 2, half - 1) + v % 2;
        { AndLowMask(v / 2, m - 1); }
        2 * ((v / 2) % half) + v % 2;
        { DivPow2Succ(v, m - 1); }
        v % Pow2(m);
      }
    }
  }

  /** Division of a natural number by a positive one is a natural number. */
  lemma DivIsNat(v: nat, p: nat)
    requires p > 0
    ensures v / p >= 0
  {
  }

  /** `&` with an even mask: the lowest bit is dropped and the rest is `&` of the halves. */
  lemma AndEvenMask(v: nat, y: nat)
    ensures And(v, 2 * y) == 2 * And(v / 2, y)
  {
    if v != 0 && y != 0 {
      assert (2 * y) / 2 == y && (2 * y) % 2 == 0;
    }
  }

  /** Shifting left by one more place doubles. */
  lemma ShiftLeftSucc(x: nat, k: nat)
    ensures ShiftLeft(x, k + 1) == 2 * ShiftLeft(x, k)
  {
    assert Pow2(k + 1) == 2 * Pow2(k);
  }

  /** Shifting right by one more place halves first. */
  lemma ShiftRightSucc(v: nat, k: nat)
    ensures ShiftRight(v, k + 1) == ShiftRight(v / 2, k)
  {
    DivPow2Succ(v, k);
  }

  /** A mask shifted left by k selects from v shifted right by k, shifted back. */
  lemma {:induction false} AndShiftedMask(v: nat, x: nat, k: nat)
    ensures And(v, ShiftLeft(x, k)) == ShiftLeft(And(ShiftRight(v, k), x), k)
  {
    if k > 0 {
      var z := And(ShiftRight(v, k), x);
      calc {
        And(v, ShiftLeft(x, k));
        { ShiftLeftSucc(x, k - 1); }
        And(v, 2 * ShiftLeft(x, k - 1));
        { AndEvenMask(v, ShiftLeft(x, k - 1)); }
        2 * And(v / 2, ShiftLeft(x, k - 1));
        { AndShiftedMask(v / 2, x, k - 1); ShiftRightSucc(v, k - 1); }
        2 * ShiftLeft(z, k - 1);
        { ShiftLeftSucc(z, k - 1); }
        ShiftLeft(z, k);
      }
    } else {
      assert Pow2(0) == 1 && v / 1 == v;
    }
  }

  /** A value whose k low bits are zero shares no bit with a value below 2^k. */
  lemma AndAlignedLow(x: nat, k: nat, b: nat)
    requires b < Pow2(k)
    ensures And(ShiftLeft(x, k), b) == 0
  {
    AndComm(ShiftLeft(x, k), b);
    AndShiftedMask(b, x, k);
    DivModUnique(b, Pow2(k), 0, b);
  }

  /** When a and b share no bit, `a | b` is `a + b`. */
  lemma {:induction false} OrDisjointIsSum(a: nat, b: nat)
    requires And(a, b) == 0
    ensures Or(a, b) == a + b
    decreases a
  {
    if a != 0 && b != 0 {
      OrDisjointIsSum(a / 2, b / 2);
    }
  }

  /** Or-ing a value below 2^k into one whose k low bits are zero is adding it. */
  lemma OrAlignedLow(x: nat, k: nat, b: nat)
    requires b < Pow2(k)
    ensures Or(ShiftLeft(x, k), b) == ShiftLeft(x, k) + b
  {
    AndAlignedLow(x, k, b);
    OrDisjointIsSum(ShiftLeft(x, k), b);
  }
}
