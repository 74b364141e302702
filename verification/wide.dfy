/** The 64-bit helpers on 32-bit limbs (core/helpers.c): shifts, product, restoring division. */
module Wide {
  import opened Words
  import opened Bits

  function Lo(a: U64): U32 { a % TWO32 }

  function Hi(a: U64): U32 { a / TWO32 }

  /** ((unsigned long long)hi << 32) | lo, limbs being disjoint. */
  function Join(hi: U32, lo: U32): U64 {
    hi * TWO32 + lo
  }

  // ----- limbs cut at a power of two: p * s == 2^32 -----

  lemma Factors(b: nat) returns (p: nat, s: nat)
    requires 0 < b < 32
    ensures p == Pow2(b) && s == Pow2(32 - b) && p * s == TWO32 && p > 0 && s > 0
  {
    p, s := Pow2(b), Pow2(32 - b);
    Pow2Product(b, 32 - b);
    Pow2Values();
  }

  lemma {:induction false} Pow2Product(a: nat, b: nat)
    ensures Pow2(a + b) == Pow2(a) * Pow2(b)
  {
    if a > 0 {
      Pow2Product(a - 1, b);
    }
  }

  /** Quotient and remainder, as a product and a sum. */
  lemma Split(x: int, d: nat) returns (q: int, r: nat)
    requires d > 0
    ensures x == d * q + r && r < d
    ensures x >= 0 ==> q >= 0
  {
    q, r := x / d, x % d;
  }

  /** Division with remainder of any integer is unique. */
  lemma Unique(x: int, d: nat, q: int, r: nat)
    requires d > 0 && r < d && x == d * q + r
    ensures x / d == q && x % d == r
  {
    var q', r' := x / d, x % d;
    assert x == d * q' + r';
    if q < q' {
      Apart(d, q, r, q', r');
    }
    if q' < q {
      Apart(d, q', r', q, r);
    }
  }

  lemma Apart(d: nat, q: int, r: nat, q': int, r': nat)
    requires r < d && q < q'
    ensures d * q + r < d * q' + r'
  {
    MulMonotone(d, 1, q' - q);
    assert d * (q' - q) == d * q' - d * q;
  }

  lemma Mod32(x: int, q: int, r: U32)
    requires x == TWO32 * q + r
    ensures ToU32(x) == r
  {
  }

  lemma Mod64(x: int, q: int, r: U64)
    requires x == TWO64 * q + r
    ensures ToU64(x) == r
  {
  }

  lemma Times(d: nat, q: int, r: int, m: nat)
    ensures (d * q + r) * m == (m * d) * q + r * m
  {
  }

  lemma Room(r: nat, s: nat, p: nat)
    requires r < s
    ensures r * p + p <= p * s
  {
    MulMonotone(p, r + 1, s);
    assert p * (r + 1) == r * p + p;
  }

  /** Shifting right is taking the quotient. */
  lemma TopBits(x: nat, b: nat, s: nat, q: nat, r: nat)
    requires s == Pow2(b) && x == s * q + r && r < s
    ensures Shr(x, b) == q
  {
    ShrIsDiv(x, b);
    Unique(x, s, q, r);
  }

  /** Shifting a limb left drops its top bits. */
  lemma LowBits(x: nat, b: nat, p: nat, s: nat, q: int, r: nat)
    requires p == Pow2(b) && p * s == TWO32 && p > 0 && x == s * q + r && r < s
    ensures x * p == TWO32 * q + r * p && r * p + p <= TWO32 && ToU32(Shl(x, b)) == r * p
  {
    ShlIsMul(x, b);
    Times(s, q, r, p);
    Room(r, s, p);
    Mod32(x * p, q, r * p);
  }

  lemma QuotientBelow(x: U32, p: nat, s: nat, q: nat, r: nat)
    requires p * s == TWO32 && x == s * q + r && s > 0
    ensures q < p
  {
    SwapFactors(p, s);
    if q >= p {
      MulMonotone(s, p, q);
    }
  }

  /** A multiple of 2^b ORed with something below 2^b. */
  lemma OrLow(r: nat, b: nat, p: nat, c: nat)
    requires p == Pow2(b) && c < p
    ensures Or(r * p, c) == r * p + c && Or(c, r * p) == r * p + c
  {
    ShlIsMul(r, b);
    OrDisjoint(c, r, b);
  }

  // ----- shifts -----

  /** `__ashldi3`: the shift amount is taken modulo 64. */
  method Ashldi3(a: U64, amount: int) returns (r: U64)
    ensures r == ToU64(Shl(a, amount % 64))
  {
    var lo, hi, b := Lo(a), Hi(a), amount % 64;
    if b >= 32 {
      ShlHigh(a, b, lo, hi);
      hi := ToU32(Shl(lo, b - 32));
      lo := 0;
    } else if b > 0 {
      ShlLow(a, b, lo, hi);
      hi := Or(ToU32(Shl(hi, b)), Shr(lo, 32 - b));
      lo := ToU32(Shl(lo, b));
    }
    r := Join(hi, lo);
  }

  lemma ShlHigh(a: U64, b: nat, lo: U32, hi: U32)
    requires 32 <= b < 64 && a == Join(hi, lo)
    ensures ToU64(Shl(a, b)) == Join(ToU32(Shl(lo, b - 32)), 0)
  {
    var p := Pow2(b - 32);
    Pow2Product(32, b - 32);
    Pow2Values();
    ShlIsMul(lo, b - 32);
    ShlIsMul(a, b);
    var q, r := Split(lo * p, TWO32);
    Mod32(lo * p, q, r);
    HighProduct(hi, lo, p, q, r);
    Mod64(a * (TWO32 * p), hi * p + q, r * TWO32);
  }

  lemma HighProduct(hi: nat, lo: nat, p: nat, q: int, r: nat)
    requires lo * p == TWO32 * q + r
    ensures (hi * TWO32 + lo) * (TWO32 * p) == TWO64 * (hi * p + q) + r * TWO32
  {
    assert (hi * TWO32 + lo) * (TWO32 * p) == TWO64 * (hi * p) + TWO32 * (lo * p);
  }

  lemma ShlLow(a: U64, b: nat, lo: U32, hi: U32)
    requires 0 < b < 32 && a == Join(hi, lo)
    ensures Or(ToU32(Shl(hi, b)), Shr(lo, 32 - b)) < TWO32
    ensures ToU64(Shl(a, b)) == Join(Or(ToU32(Shl(hi, b)), Shr(lo, 32 - b)), ToU32(Shl(lo, b)))
  {
    var p, s := Factors(b);
    var hq, hr := Split(hi, s);
    var lq, lr := Split(lo, s);
    LowBits(hi, b, p, s, hq, hr);
    LowBits(lo, b, p, s, lq, lr);
    TopBits(lo, 32 - b, s, lq, lr);
    QuotientBelow(lo, p, s, lq, lr);
    OrLow(hr, b, p, lq);
    ShlIsMul(a, b);
    LowProduct(hi, lo, p, hq, hr * p, lq, lr * p);
    Mod64(a * p, hq, TWO32 * (hr * p + lq) + lr * p);
  }

  lemma LowProduct(hi: nat, lo: nat, p: nat, hq: int, hx: nat, lq: int, lx: nat)
    requires hi * p == TWO32 * hq + hx && lo * p == TWO32 * lq + lx
    ensures (hi * TWO32 + lo) * p == TWO64 * hq + (TWO32 * (hx + lq) + lx)
  {
    assert (hi * TWO32 + lo) * p == TWO32 * (hi * p) + lo * p;
  }

  /** `__lshrdi3`. */
  method Lshrdi3(a: U64, amount: int) returns (r: U64)
    ensures r == Shr(a, amount % 64)
  {
    var lo, hi, b := Lo(a), Hi(a), amount % 64;
    if b >= 32 {
      ShrHigh(a, b, lo, hi);
      lo := Shr(hi, b - 32);
      hi := 0;
    } else if b > 0 {
      ShrLow(a, b, lo, hi, hi);
      ShrIsDiv(a, b);
      ShrIsDiv(hi, b);
      lo := Or(Shr(lo, b), ToU32(Shl(hi, 32 - b)));
      ShrShrinks(hi, b);
      hi := Shr(hi, b);
    }
    r := Join(hi, lo);
  }

  lemma ShrHigh(a: U64, b: nat, lo: U32, hi: U32)
    requires 32 <= b < 64 && a == Join(hi, lo)
    ensures Shr(hi, b - 32) <= hi && Shr(a, b) == Shr(hi, b - 32)
  {
    var p := Pow2(b - 32);
    Pow2Product(32, b - 32);
    Pow2Values();
    ShrShrinks(hi, b - 32);
    var q, r := Split(hi, p);
    TopBits(hi, b - 32, p, q, r);
    HighQuotient(hi, lo, p, q, r);
    TopBits(a, b, TWO32 * p, q, r * TWO32 + lo);
  }

  lemma HighQuotient(hi: int, lo: U32, p: nat, q: int, r: nat)
    requires hi == p * q + r && r < p
    ensures hi * TWO32 + lo == (TWO32 * p) * q + (r * TWO32 + lo) && r * TWO32 + lo < TWO32 * p
  {
    Times(p, q, r, TWO32);
    Room(r, p, TWO32);
  }

  /** The middle case of both right shifts: `value` is the shifted number, `top` its high limb as
      the shift reads it, unsigned or signed, and `hi` the bits of that limb. */
  lemma ShrLow(value: int, b: nat, lo: U32, hi: U32, top: int)
    requires 0 < b < 32 && value == top * TWO32 + lo && hi == ToU32(top)
    ensures Or(Shr(lo, b), ToU32(Shl(hi, 32 - b))) < TWO32
    ensures value / Pow2(b) == top / Pow2(b) * TWO32 + Or(Shr(lo, b), ToU32(Shl(hi, 32 - b)))
  {
    var p, s := Factors(b);
    var tq, tr := Split(top, p);
    var lq, lr := Split(lo, p);
    var w := top / TWO32;
    LimbRemainder(top, hi, p, s, w, tq, tr);
    SwapFactors(p, s);
    LowBits(hi, 32 - b, s, p, tq - s * w, tr);
    TopBits(lo, b, p, lq, lr);
    QuotientBelow(lo, s, p, lq, lr);
    OrLow(tr, 32 - b, s, lq);
    MidQuotient(top, lo, p, s, tq, tr, lq, lr);
    Unique(value, p, tq * TWO32 + (tr * s + lq), lr);
    Unique(top, p, tq, tr);
  }

  lemma SwapFactors(p: nat, s: nat)
    ensures p * s == s * p
  {
  }

  lemma LimbRemainder(top: int, hi: U32, p: nat, s: nat, w: int, tq: int, tr: nat)
    requires p * s == TWO32 && top == TWO32 * w + hi && top == p * tq + tr
    ensures hi == p * (tq - s * w) + tr
  {
    assert TWO32 * w == p * (s * w) by {
      assert (p * s) * w == p * (s * w);
    }
    assert p * (tq - s * w) == p * tq - p * (s * w);
  }

  lemma MidQuotient(top: int, lo: nat, p: nat, s: nat, tq: int, tr: nat, lq: nat, lr: nat)
    requires p * s == TWO32 && top == p * tq + tr && lo == p * lq + lr
    ensures top * TWO32 + lo == p * (tq * TWO32 + (tr * s + lq)) + lr
  {
    assert tr * TWO32 == p * (tr * s) by {
      assert tr * (p * s) == p * (tr * s);
    }
    assert (p * tq + tr) * TWO32 == p * (tq * TWO32) + tr * TWO32;
    assert p * (tq * TWO32 + (tr * s + lq)) == p * (tq * TWO32) + p * (tr * s) + p * lq;
  }

  /** The arithmetic right shift, bit by bit. */
  function Sar(x: int, n: nat): int
    decreases n, x
  {
    if n == 0 then x else Sar(x / 2, n - 1)
  }

  /** It is division rounded down. */
  lemma {:induction false} SarIsDiv(x: int, n: nat)
    ensures Sar(x, n) == x / Pow2(n)
    decreases n
  {
    if n > 0 {
      var p := Pow2(n - 1);
      SarIsDiv(x / 2, n - 1);
      var q, r := Split(x / 2, p);
      Unique(x / 2, p, q, r);
      HalfQuotient(x, p, q, r);
    }
  }

  lemma HalfQuotient(x: int, p: nat, q: int, r: nat)
    requires x / 2 == p * q + r && r < p
    ensures x / (2 * p) == q
  {
    assert (2 * p) * q == 2 * (p * q);
    Unique(x, 2 * p, q, 2 * r + x % 2);
  }

  /** `__ashrdi3`: the sign is kept. */
  method Ashrdi3(a: U64, amount: int) returns (r: U64)
    ensures r == ToU64(Sar(Signed64(a), amount % 64))
  {
    var lo: U32, top, b := Lo(a), Signed32(Hi(a)), amount % 64;
    assert Signed64(a) == top * TWO32 + lo;
    if b >= 32 {
      AshrHigh(Signed64(a), b, lo, top);
      lo := ToU32(Sar(top, b - 32));
      top := if top < 0 then -1 else 0;
    } else if b > 0 {
      AshrLow(Signed64(a), b, lo, top);
      lo := Or(Shr(lo, b), ToU32(Shl(ToU32(top), 32 - b)));
      top := Sar(top, b);
    }
    r := Join(ToU32(top), lo);
    JoinSigned(top, lo);
  }

  lemma AshrLow(value: int, b: nat, lo: U32, top: int)
    requires 0 < b < 32 && value == top * TWO32 + lo
    ensures Or(Shr(lo, b), ToU32(Shl(ToU32(top), 32 - b))) < TWO32
    ensures Sar(value, b) == Sar(top, b) * TWO32 + Or(Shr(lo, b), ToU32(Shl(ToU32(top), 32 - b)))
  {
    ShrLow(value, b, lo, ToU32(top), top);
    SarIsDiv(value, b);
    SarIsDiv(top, b);
  }

  lemma JoinSigned(top: int, lo: U32)
    ensures Join(ToU32(top), lo) == ToU64(top * TWO32 + lo)
  {
    var w, z := Split(top, TWO32);
    Mod32(top, w, z);
    Mod64(top * TWO32 + lo, w, z * TWO32 + lo);
  }

  /** An arithmetic shift by 32 or more: the high limb becomes the sign. */
  lemma AshrHigh(value: int, b: nat, lo: U32, top: int)
    requires 32 <= b < 64 && value == top * TWO32 + lo && -0x8000_0000 <= top < 0x8000_0000
    ensures ToU64(Sar(value, b)) == ToU64((if top < 0 then -1 else 0) * TWO32 + ToU32(Sar(top, b - 32)))
  {
    SarIsDiv(value, b);
    SarIsDiv(top, b - 32);
    var p := Pow2(b - 32);
    Pow2Product(32, b - 32);
    Pow2Values();
    var q, r := Split(top, p);
    Unique(top, p, q, r);
    HighQuotient(top, lo, p, q, r);
    Unique(value, TWO32 * p, q, r * TWO32 + lo);
    Shrinks(top, p, q, r);
    if top < 0 {
      Mod32(q, -1, TWO32 + q);
    } else {
      Mod32(q, 0, q);
    }
  }

  lemma Shrinks(top: int, p: nat, q: int, r: nat)
    requires p > 0 && top == p * q + r && r < p && -0x8000_0000 <= top < 0x8000_0000
    ensures top >= 0 ==> 0 <= q < TWO32
    ensures top < 0 ==> -TWO32 < q < 0
  {
    if q >= 0 {
      MulMonotone(q, 1, p);
      assert q * p == p * q;
    } else {
      MulMonotone(0 - q, 1, p);
      assert (0 - q) * p == 0 - p * q;
      MulMonotone(p, 1, 0 - q);
      assert p * (0 - q) == 0 - p * q;
      if q <= -TWO32 {
        MulMonotone(p, 0 - q - 1, 0 - q);
        FarBelow(p, q, r, top);
      }
    }
  }

  lemma FarBelow(p: nat, q: int, r: nat, top: int)
    requires p > 0 && top == p * q + r && r < p && q <= -TWO32
    ensures top < -0x8000_0000
  {
    assert p * (q + 1) == p * q + p;
    MulMonotone(0 - q - 1, 1, p);
    assert (0 - q - 1) * p == 0 - p * (q + 1);
  }

  // ----- product -----

  /** A limb and its weight, multiplied out. */
  lemma LimbProduct(h: nat, l: nat, b: nat, p: nat, q: nat)
    requires p == h * b && q == l * b
    ensures (h * TWO32 + l) * b == p * TWO32 + q
  {
    assert (h * TWO32 + l) * b == h * TWO32 * b + l * b;
    assert h * TWO32 * b == h * b * TWO32;
  }

  /** The four partial products. */
  lemma PartialProducts(ah: U32, al: U32, bh: U32, bl: U32, hh: nat, hl: nat, lh: nat, ll: nat)
    requires hh == ah * bh && hl == ah * bl && lh == al * bh && ll == al * bl
    ensures (ah * TWO32 + al) * (bh * TWO32 + bl) == hh * TWO64 + (lh + hl) * TWO32 + ll
  {
    var b := bh * TWO32 + bl;
    LimbProduct(bh, bl, ah, hh, hl);
    LimbProduct(bh, bl, al, lh, ll);
    LimbProduct(ah, al, b, hh * TWO32 + hl, lh * TWO32 + ll);
  }

  /** The low product and the sum of the cross products, shifted, are the whole product modulo 2^64. */
  lemma ThreeProducts(ah: U32, al: U32, bh: U32, bl: U32, hh: nat, hl: U64, lh: U64, ll: U64)
    requires hh == ah * bh && hl == ah * bl && lh == al * bh && ll == al * bl
    ensures ToU64(ll + ToU64(Shl(ToU64(lh + hl), 32))) == ToU64((ah * TWO32 + al) * (bh * TWO32 + bl))
  {
    PartialProducts(ah, al, bh, bl, hh, hl, lh, ll);
    ShiftedSum(hh, hl, lh, ll);
  }

  lemma ShiftedSum(hh: nat, hl: U64, lh: U64, ll: U64)
    ensures ToU64(ll + ToU64(Shl(ToU64(lh + hl), 32))) == ToU64(hh * TWO64 + (lh + hl) * TWO32 + ll)
  {
    ShlIsMul(ToU64(lh + hl), 32);
    Pow2Values();
    CrossTerms(ll, lh + hl, hh);
  }

  lemma LimbsFit(ah: U32, al: U32, bh: U32, bl: U32)
    ensures 0 <= al * bl < TWO64 && 0 <= al * bh < TWO64 && 0 <= ah * bl < TWO64 && 0 <= ah * bh
  {
    ProductFits(al, bl);
    ProductFits(al, bh);
    ProductFits(ah, bl);
    ProductFits(ah, bh);
  }

  lemma Limbs(a: U64)
    ensures a == Hi(a) * TWO32 + Lo(a)
  {
  }

  /** `__muldi3` on the limbs: the high product is never needed. */
  method MulLimbs(ah: U32, al: U32, bh: U32, bl: U32) returns (r: U64)
    ensures r == ToU64((ah * TWO32 + al) * (bh * TWO32 + bl))
  {
    LimbsFit(ah, al, bh, bl);
    var ll: U64, lh: U64, hl: U64 := al * bl, al * bh, ah * bl;
    ThreeProducts(ah, al, bh, bl, ah * bh, hl, lh, ll);
    r := ToU64(ll + ToU64(Shl(ToU64(lh + hl), 32)));
  }

  /** `__muldi3`. */
  method Muldi3(a: U64, b: U64) returns (r: U64)
    ensures r == ToU64(a * b)
  {
    Limbs(a);
    Limbs(b);
    r := MulLimbs(Hi(a), Lo(a), Hi(b), Lo(b));
  }

  lemma ProductFits(x: U32, y: U32)
    ensures 0 <= x * y < TWO64
  {
    MulMonotone(x, y, TWO32);
    MulMonotone(TWO32, x, TWO32 - 1);
    assert x * TWO32 == TWO32 * x;
  }

  lemma CrossTerms(ll: U64, mid: nat, high: nat)
    ensures ToU64(ll + ToU64(ToU64(mid) * TWO32)) == ToU64(high * TWO64 + mid * TWO32 + ll)
  {
    var q, r := Split(mid, TWO64);
    assert high * TWO64 + mid * TWO32 + ll == TWO64 * (high + q * TWO32) + (r * TWO32 + ll);
    var u, v := Split(r * TWO32, TWO64);
    var x, y := Split(ll + v, TWO64);
    assert r * TWO32 + ll == TWO64 * (u + x) + y;
    Mod64(mid, q, r);
    Mod64(r * TWO32, u, v);
    Mod64(ll + v, x, y);
    Mod64(high * TWO64 + mid * TWO32 + ll, high + q * TWO32 + u + x, y);
  }

  // ----- division -----

  /** The state of the division before bit i - 1: the part of `a` above is quo * b + r, and the
      quotient bits sit in their place. */
  ghost predicate Dividing(a: U64, b: U64, i: nat, quo: nat, q: nat, r: nat) {
    Shr(a, i) == quo * b + r && r < b && q == quo * Pow2(i)
  }

  /** One round on numbers. The remainder is at most the part of `a` already read, so its shift
      stays below 2^64. */
  lemma Round(a: U64, b: U64, i: nat, quo: nat, q: nat, r: nat)
    requires Dividing(a, b, i + 1, quo, q, r)
    ensures var r' := Or(Shl(r, 1), Shr(a, i) % 2);
            && r' < TWO64
            && (if r' >= b then
                  Dividing(a, b, i, 2 * quo + 1, Or(q, Shl(1, i)), r' - b) && Or(q, Shl(1, i)) < TWO64
                else Dividing(a, b, i, 2 * quo, q, r'))
  {
    ShrNext(a, i);
    ShrShrinks(a, i);
    QuotientFits(quo, b, r, Shr(a, i + 1));
    OrBit(r, Shr(a, i) % 2);
    var r' := 2 * r + Shr(a, i) % 2;
    TwiceQuotient(quo, b, r, r', Shr(a, i + 1), Shr(a, i));
    Places(quo, i);
    if r' >= b {
      SetBit(q, quo, i);
      BitFits(a, b, quo, r' - b, i);
    }
  }

  lemma TwiceQuotient(quo: nat, b: nat, r: nat, r': nat, part: nat, next: nat)
    requires part == quo * b + r && next / 2 == part && r' == 2 * r + next % 2
    ensures next == (2 * quo) * b + r' && (2 * quo + 1) * b == (2 * quo) * b + b
  {
    assert (2 * quo) * b == 2 * (quo * b);
  }

  lemma Places(quo: nat, i: nat)
    ensures quo * Pow2(i + 1) == (2 * quo) * Pow2(i)
    ensures (2 * quo + 1) * Pow2(i) == quo * Pow2(i + 1) + Pow2(i)
  {
    var p := Pow2(i);
    assert quo * (2 * p) == (2 * quo) * p;
    assert (2 * quo + 1) * p == (2 * quo) * p + p;
  }

  /** `udivmod`, restoring division: one bit a round, from the top. */
  method UDivMod(a: U64, b: U64) returns (q: U64, r: U64)
    ensures b == 0 ==> q == 0 && r == 0
    ensures b != 0 ==> a == q * b + r && r < b
  {
    q, r := 0, 0;
    if b == 0 {
      return;
    }
    ghost var quo: nat := 0;
    ShrAll(a);
    for i := 64 downto 0
      invariant Dividing(a, b, i, quo, q, r)
    {
      Round(a, b, i, quo, q, r);
      r := Or(Shl(r, 1), Shr(a, i) % 2);
      quo := 2 * quo;
      if r >= b {
        r := r - b;
        q := Or(q, Shl(1, i));
        quo := quo + 1;
      }
    }
    assert Pow2(0) == 1;
  }

  lemma ShrAll(a: U64)
    ensures Shr(a, 64) == 0
  {
    Pow2Values();
    TopBits(a, 64, TWO64, 0, a);
  }

  /** The remainder of a part of `a` is at most that part. */
  lemma QuotientFits(quo: nat, b: nat, r: nat, part: nat)
    requires part == quo * b + r
    ensures r <= part
  {
    MulMonotone(b, 0, quo);
    assert quo * b == b * quo;
  }

  lemma OrBit(r: nat, bit: nat)
    requires bit < 2
    ensures Or(Shl(r, 1), bit) == 2 * r + bit
  {
    assert Pow2(1) == 2;
    ShlIsMul(r, 1);
    OrDisjoint(bit, r, 1);
  }

  lemma SetBit(q: nat, quo: nat, i: nat)
    requires q == quo * Pow2(i + 1)
    ensures Or(q, Shl(1, i)) == q + Pow2(i)
  {
    ShlIsMul(quo, i + 1);
    ShlIsMul(1, i);
    OrDisjoint(Pow2(i), quo, i + 1);
  }

  /** The quotient bits collected so far, as a number, stay below 2^64. */
  lemma BitFits(a: U64, b: nat, quo: nat, r: nat, i: nat)
    requires b > 0 && Shr(a, i) == (2 * quo + 1) * b + r
    ensures quo * Pow2(i + 1) + Pow2(i) < TWO64
  {
    var p, n := Pow2(i), 2 * quo + 1;
    var s, t := Split(a, p);
    TopBits(a, i, p, s, t);
    MulMonotone(n, 1, b);
    MulMonotone(p, n, s);
    Places(quo, i);
    assert n * p == p * n;
  }

  function Abs(x: int): nat { if x < 0 then 0 - x else x }

  /** Division truncated toward zero, as C defines it. */
  function TruncDiv(x: int, y: int): int
    requires y != 0
  {
    if (x < 0) != (y < 0) then 0 - Abs(x) / Abs(y) else Abs(x) / Abs(y)
  }

  function TruncMod(x: int, y: int): int
    requires y != 0
  {
    if x < 0 then 0 - Abs(x) % Abs(y) else Abs(x) % Abs(y)
  }

  /** Quotient and remainder belong together: they give the dividend back, the remainder is smaller
      than the divisor and has the sign of the dividend. */
  lemma TruncIsDivision(x: int, y: int)
    requires y != 0
    ensures x == TruncDiv(x, y) * y + TruncMod(x, y)
    ensures Abs(TruncMod(x, y)) < Abs(y) && (TruncMod(x, y) != 0 ==> (TruncMod(x, y) < 0 <==> x < 0))
  {
    var q, r := Split(Abs(x), Abs(y));
    Unique(Abs(x), Abs(y), q, r);
    TruncParts(x, y, q, r, TruncDiv(x, y), TruncMod(x, y));
  }

  lemma TruncParts(x: int, y: int, q: int, r: nat, d: int, m: int)
    requires y != 0 && Abs(x) == Abs(y) * q + r && r < Abs(y)
    requires d == (if (x < 0) != (y < 0) then 0 - q else q) && m == (if x < 0 then 0 - r else r)
    ensures x == d * y + m && Abs(m) < Abs(y) && (m != 0 ==> (m < 0 <==> x < 0))
  {
    Signs(q, y);
  }

  lemma Signs(q: int, v: int)
    ensures (0 - q) * v == 0 - v * q && q * (0 - v) == 0 - v * q && (0 - q) * (0 - v) == v * q && q * v == v * q
  {
  }

  /** The magnitude of a two's-complement word, as the negated unsigned. */
  function Magnitude(a: U64): U64 {
    if Signed64(a) < 0 then ToU64(0 - a) else a
  }

  lemma MagnitudeIsAbs(a: U64)
    ensures Magnitude(a) == Abs(Signed64(a))
  {
    if Signed64(a) < 0 {
      Mod64(0 - a, -1, TWO64 - a);
    }
  }

  lemma QuotientOf(a: nat, b: nat, q: nat, r: nat)
    requires b > 0 && a == q * b + r && r < b
    ensures a / b == q && a % b == r
  {
    assert q * b == b * q;
    Unique(a, b, q, r);
  }

  /** `__divdi3`: truncated signed division modulo 2^64; zero for a zero divisor. */
  method Divdi3(a: U64, b: U64) returns (r: U64)
    ensures r == if b == 0 then 0 else ToU64(TruncDiv(Signed64(a), Signed64(b)))
  {
    var ua, ub := Magnitude(a), Magnitude(b);
    MagnitudeIsAbs(a);
    MagnitudeIsAbs(b);
    var q, m := UDivMod(ua, ub);
    if b != 0 {
      QuotientOf(ua, ub, q, m);
    }
    r := if (Signed64(a) < 0) != (Signed64(b) < 0) then ToU64(0 - q as int) else q;
    assert ToU64(q) == q;
  }

  /** `__moddi3`: the remainder takes the sign of the dividend. */
  method Moddi3(a: U64, b: U64) returns (r: U64)
    ensures r == if b == 0 then 0 else ToU64(TruncMod(Signed64(a), Signed64(b)))
  {
    var ua, ub := Magnitude(a), Magnitude(b);
    MagnitudeIsAbs(a);
    MagnitudeIsAbs(b);
    var q, m := UDivMod(ua, ub);
    Residue(Signed64(a), Signed64(b), q, m);
    r := if Signed64(a) < 0 then ToU64(0 - m as int) else m;
    assert ToU64(m) == m;
  }

  lemma Residue(x: int, y: int, q: nat, m: nat)
    requires y != 0 ==> Abs(x) == q * Abs(y) + m && m < Abs(y)
    ensures y != 0 ==> TruncMod(x, y) == if x < 0 then 0 - m else m
  {
    if y != 0 {
      QuotientOf(Abs(x), Abs(y), q, m);
    }
  }
}
