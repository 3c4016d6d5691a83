/**
 * Unsigned integer bit arithmetic on natural numbers: powers of two, and the exclusive or of
 * the low bits of two numbers.
 */
module Bits {
  /** 2 to the power `k`. */
  function Pow2(k: nat): (r: nat)
    ensures r >= 1
  {
    if k == 0 then 1 else 2 * Pow2(k - 1)
  }

  lemma {:induction false} Pow2Monotone(a: nat, b: nat)
    requires a <= b
    ensures Pow2(a) <= Pow2(b)
  {
    if a < b {
      Pow2Monotone(a, b - 1);
    }
  }

  /** The exclusive or of the low `n` bits of `a` and `b`. */
  function XorBits(a: nat, b: nat, n: nat): (r: nat)
    ensures r < Pow2(n)
  {
    if n == 0 then 0 else (a % 2 + b % 2) % 2 + 2 * XorBits(a / 2, b / 2, n - 1)
  }

  /** The exclusive or of nothing with a number that fits in `n` bits is that number. */
  lemma {:induction false} XorZero(c: nat, n: nat)
    requires c < Pow2(n)
    ensures XorBits(0, c, n) == c
  {
    if n > 0 {
      XorZero(c / 2, n - 1);
    }
  }

  /** And with nothing on the other side. */
  lemma {:induction false} XorZeroRight(c: nat, n: nat)
    requires c < Pow2(n)
    ensures XorBits(c, 0, n) == c
  {
    if n > 0 {
      XorZeroRight(c / 2, n - 1);
    }
  }

  /** `q << m` without a width limit. */
  function Shift(q: nat, m: nat): nat
  {
    if m == 0 then q else 2 * Shift(q, m - 1)
  }

  /** When `a` fits in the low `m` bits, its bits and those of `q << m` do not meet: their
    * exclusive or is their sum. */
  lemma {:induction false} XorDisjoint(a: nat, q: nat, m: nat, n: nat)
    requires a < Pow2(m) && a + Shift(q, m) < Pow2(n)
    ensures XorBits(a, Shift(q, m), n) == a + Shift(q, m)
  {
    if m == 0 {
      XorZero(q, n);
    } else if n > 0 {
      XorDisjoint(a / 2, q, m - 1, n - 1);
    }
  }

  /** `q << m` is `q * 2^m`. */
  lemma {:induction false} ShiftIsProduct(q: nat, m: nat)
    ensures Shift(q, m) == q * Pow2(m)
  {
    if m > 0 {
      ShiftIsProduct(q, m - 1);
      assert q * Pow2(m) == 2 * (q * Pow2(m - 1));
    }
  }

  /** `2^(a + b) == 2^a * 2^b`. */
  lemma {:induction false} Pow2Add(a: nat, b: nat)
    ensures Pow2(a + b) == Pow2(a) * Pow2(b)
  {
    if b > 0 {
      Pow2Add(a, b - 1);
      assert Pow2(a) * Pow2(b) == 2 * (Pow2(a) * Pow2(b - 1));
    }
  }

  /** The shift distances of the variation hash. */
  lemma Pow2At12()
    ensures Pow2(12) == 0x1000
  {
  }

  lemma Pow2At15()
    ensures Pow2(15) == 0x8000
  {
    Pow2At12();
    Pow2Add(12, 3);
  }

  lemma Pow2At24()
    ensures Pow2(24) == 0x100_0000
  {
    Pow2At12();
    Pow2Add(12, 12);
  }

  /** `2^32`, the range of an unsigned 32-bit integer. */
  lemma Pow2At32()
    ensures Pow2(32) == 0x1_0000_0000
  {
    assert Pow2(8) == 0x100;
    Pow2Add(8, 8);
    Pow2Add(16, 16);
  }

  /** XOR of 32-bit values whose set bits do not meet is their sum: `a ^ (q << m)` for an `a`
    * below `2^m`, when the sum still fits 32 bits. */
  lemma {:induction false} Xor32Disjoint(a: nat, q: nat, m: nat)
    requires a < Pow2(m) && a + q * Pow2(m) < 0x1_0000_0000
    ensures XorBits(a, Shift(q, m) % 0x1_0000_0000, 32) == a + q * Pow2(m)
  {
    Pow2At32();
    ShiftIsProduct(q, m);
    var s := Shift(q, m);
    assert s % 0x1_0000_0000 == s;
    XorDisjoint(a, q, m, 32);
  }
}
