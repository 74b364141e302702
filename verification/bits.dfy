/** Bitwise operators of C on naturals, bit by bit from the lowest. */
module Bits {
  function And(a: nat, b: nat): (r: nat)
    ensures r <= a && r <= b
  {
    if a == 0 || b == 0 then 0
    else 2 * And(a / 2, b / 2) + (if a % 2 == 1 && b % 2 == 1 then 1 else 0)
  }

  function Or(a: nat, b: nat): (r: nat)
    ensures a <= r && b <= r && r <= a + b
    decreases a + b
  {
    if a == 0 then b
    else if b == 0 then a
    else 2 * Or(a / 2, b / 2) + (if a % 2 == 1 || b % 2 == 1 then 1 else 0)
  }

  function Xor(a: nat, b: nat): (r: nat)
    ensures r <= a + b
    decreases a + b
  {
    if a == 0 then b
    else if b == 0 then a
    else 2 * Xor(a / 2, b / 2) + (if a % 2 != b % 2 then 1 else 0)
  }

  function Pow2(n: nat): (p: nat)
    ensures p > 0
  {
    if n == 0 then 1 else 2 * Pow2(n - 1)
  }

  function Shl(x: nat, n: nat): nat
    decreases n, x
  {
    if n == 0 then x else 2 * Shl(x, n - 1)
  }

  function Shr(x: nat, n: nat): nat
    decreases n, x
  {
    if n == 0 then x else Shr(x / 2, n - 1)
  }

  const BYTE_BITS: nat := 8

  /** The number of set bits. */
  function Popcount(x: nat): nat {
    if x == 0 then 0 else x % 2 + Popcount(x / 2)
  }

  // ----- one-level unfoldings, also valid at zero -----

  lemma LowestBit(half: nat, bit: nat)
    requires bit < 2
    ensures (2 * half + bit) % 2 == bit && (2 * half + bit) / 2 == half
  {
  }

  lemma {:induction false} AndStep(a: nat, b: nat)
    ensures And(a, b) % 2 == (if a % 2 == 1 && b % 2 == 1 then 1 else 0)
    ensures And(a, b) / 2 == And(a / 2, b / 2)
  {
    if a > 0 && b > 0 {
      LowestBit(And(a / 2, b / 2), if a % 2 == 1 && b % 2 == 1 then 1 else 0);
    }
  }

  lemma {:induction false} OrStep(a: nat, b: nat)
    ensures Or(a, b) % 2 == (if a % 2 == 1 || b % 2 == 1 then 1 else 0)
    ensures Or(a, b) / 2 == Or(a / 2, b / 2)
  {
    if a > 0 && b > 0 {
      LowestBit(Or(a / 2, b / 2), if a % 2 == 1 || b % 2 == 1 then 1 else 0);
    }
  }

  lemma {:induction false} XorStep(a: nat, b: nat)
    ensures Xor(a, b) % 2 == (if a % 2 != b % 2 then 1 else 0)
    ensures Xor(a, b) / 2 == Xor(a / 2, b / 2)
  {
    if a > 0 && b > 0 {
      LowestBit(Xor(a / 2, b / 2), if a % 2 != b % 2 then 1 else 0);
    }
  }

  lemma {:induction false} PopcountAnd(a: nat, b: nat)
    ensures Popcount(And(a, b)) <= Popcount(a)
    ensures And(a, b) != a ==> Popcount(And(a, b)) < Popcount(a)
  {
    if a != 0 {
      PopcountAnd(a / 2, b / 2);
      AndStep(a, b);
    }
  }

  lemma {:induction false} PopcountBound(x: nat, n: nat)
    requires x < Pow2(n)
    ensures Popcount(x) <= n
  {
    if n > 0 {
      PopcountBound(x / 2, n - 1);
    }
  }

  lemma Pow2Values()
    ensures Pow2(8) == 0x100 && Pow2(16) == 0x1_0000 && Pow2(24) == 0x100_0000
    ensures Pow2(32) == 0x1_0000_0000 && Pow2(64) == 0x1_0000_0000_0000_0000
  {
    assert Pow2(8) == 0x100;
    assert Pow2(16) == 0x1_0000;
    assert Pow2(24) == 0x100_0000;
    assert Pow2(32) == 0x1_0000_0000;
    assert Pow2(40) == 0x100_0000_0000;
    assert Pow2(48) == 0x1_0000_0000_0000;
    assert Pow2(56) == 0x100_0000_0000_0000;
  }

  lemma Pow2Sizes()
    ensures Pow2(7) == 0x80 && Pow2(10) == 0x400 && Pow2(12) == 0x1000 && Pow2(19) == 0x8_0000
    ensures Pow2(22) == 0x40_0000 && Pow2(30) == 0x4000_0000
  {
    Pow2Values();
    assert Pow2(10) == 0x400;
    assert Pow2(12) == 0x1000;
    assert Pow2(19) == 0x8_0000;
    assert Pow2(22) == 0x40_0000;
    assert Pow2(26) == 0x400_0000;
    assert Pow2(30) == 0x4000_0000;
  }

  lemma {:induction false} Pow2Grows(a: nat, b: nat)
    requires a <= b
    ensures Pow2(a) <= Pow2(b)
  {
    if a < b {
      Pow2Grows(a, b - 1);
    }
  }

  lemma {:induction false} ShrShrinks(x: nat, n: nat)
    ensures Shr(x, n) <= x
    decreases n
  {
    if n > 0 {
      ShrShrinks(x / 2, n - 1);
    }
  }

  lemma {:induction false} ShrNext(x: nat, n: nat)
    ensures Shr(x, n + 1) == Shr(x, n) / 2
    decreases n
  {
    if n > 0 {
      ShrNext(x / 2, n - 1);
    }
  }

  lemma {:induction false} OrBelow(a: nat, b: nat, n: nat)
    requires a < Pow2(n) && b < Pow2(n)
    ensures Or(a, b) < Pow2(n)
  {
    if n > 0 {
      OrBelow(a / 2, b / 2, n - 1);
      OrStep(a, b);
    }
  }

  lemma {:induction false} XorBelow(a: nat, b: nat, n: nat)
    requires a < Pow2(n) && b < Pow2(n)
    ensures Xor(a, b) < Pow2(n)
  {
    if n > 0 {
      XorBelow(a / 2, b / 2, n - 1);
      XorStep(a, b);
    }
  }

  lemma {:induction false} ShlIsMul(x: nat, n: nat)
    ensures Shl(x, n) == x * Pow2(n)
  {
    if n > 0 {
      ShlIsMul(x, n - 1);
    }
  }

  lemma {:induction false} ShrIsDiv(x: nat, n: nat)
    ensures Shr(x, n) == x / Pow2(n)
  {
    if n > 0 {
      ShrIsDiv(x / 2, n - 1);
      DivTwice(x, 2, Pow2(n - 1));
    }
  }

  lemma MulMonotone(a: nat, x: nat, y: nat)
    requires x <= y
    ensures a * x <= a * y
  {
  }

  lemma DivUnique(x: nat, d: nat, q: nat, r: nat)
    requires d > 0 && r < d && x == d * q + r
    ensures x / d == q && x % d == r
  {
    var q', r' := x / d, x % d;
    assert x == d * q' + r';
    if q < q' {
      MulMonotone(d, q + 1, q');
    }
    if q' < q {
      MulMonotone(d, q' + 1, q);
    }
  }

  lemma DivTwice(x: nat, a: nat, b: nat)
    requires a > 0 && b > 0
    ensures a * b > 0 && x / a / b == x / (a * b)
  {
    var y, r := x / a, x % a;
    var q, s := y / b, y % b;
    assert y == b * q + s;
    assert x == a * y + r;
    DivTwiceParts(x, a, b, y, r, q, s);
  }

  lemma DivTwiceParts(x: nat, a: nat, b: nat, y: nat, r: nat, q: nat, s: nat)
    requires x == a * y + r && r < a && y == b * q + s && s < b
    ensures a * b > 0 && x / (a * b) == q
  {
    calc {
      a * y;
      a * (b * q + s);
      a * (b * q) + a * s;
      (a * b) * q + a * s;
    }
    MulMonotone(a, s + 1, b);
    assert a * (s + 1) == a * s + a;
    DivUnique(x, a * b, q, a * s + r);
  }

  lemma ModDouble(x: nat, p: nat)
    requires p > 0
    ensures x % (2 * p) == 2 * (x / 2 % p) + x % 2
  {
    var h := x / 2;
    var q, r := h / p, h % p;
    assert h == p * q + r;
    assert x == (2 * p) * q + (2 * r + x % 2);
    DivUnique(x, 2 * p, q, 2 * r + x % 2);
  }

  /** Masking with 2^n - 1 keeps the low n bits. */
  lemma {:induction false} AndWhole(a: nat, b: nat, h: nat, k: nat)
    requires h == a / 2 && k == b / 2
    ensures And(a, b) == 2 * And(h, k) + (if a % 2 == 1 && b % 2 == 1 then 1 else 0)
  {
    AndStep(a, b);
  }

  lemma OddMask(p: nat)
    requires p > 0
    ensures (2 * p - 1) % 2 == 1 && (2 * p - 1) / 2 == p - 1
  {
  }

  lemma {:induction false} MaskStep(x: nat, p: nat, m: nat)
    requires p > 0 && m == 2 * p && And(x / 2, p - 1) == x / 2 % p
    ensures And(x, m - 1) == x % m
  {
    OddMask(p);
    AndWhole(x, m - 1, x / 2, p - 1);
    ModDouble(x, p);
  }

  lemma {:induction false} AndMask(x: nat, n: nat)
    ensures And(x, Pow2(n) - 1) == x % Pow2(n)
  {
    if n > 0 {
      AndMask(x / 2, n - 1);
      MaskStep(x, Pow2(n - 1), Pow2(n));
    }
  }

  /** OR of two words without a common bit is their sum. */
  lemma {:induction false} OrDisjoint(lo: nat, hi: nat, n: nat)
    requires lo < Pow2(n)
    ensures Or(lo, Shl(hi, n)) == lo + Shl(hi, n)
    ensures Or(Shl(hi, n), lo) == lo + Shl(hi, n)
  {
    if n > 0 {
      OrDisjoint(lo / 2, hi, n - 1);
      OrStep(lo, Shl(hi, n));
      OrStep(Shl(hi, n), lo);
    }
  }
}
