/** CRC-16 of the update transport (core/update.c:14-40, tools/update_frame.py:11-17). */
module Crc {
  import opened Words
  import opened Bits

  const POLY: U16 := 0xA001

  /** One bit of the register: shift right, fold the polynomial in when a one fell out. */
  function BitStep(c: U16): (r: U16)
    ensures r < 0x8000 <==> c % 2 == 0
  {
    XorHigh(c / 2);
    if c % 2 == 1 then Xor(c / 2, POLY) else c / 2
  }

  function BitSteps(c: U16, n: nat): U16
    decreases n, c
  {
    if n == 0 then c else BitSteps(BitStep(c), n - 1)
  }

  /** One byte: XOR into the low half, then eight bit steps. */
  function ByteStep(c: U16, b: Byte): U16 {
    BitSteps(Xor16(c, b), BYTE_BITS)
  }

  function Crc16From(c: U16, data: seq<Byte>): U16
    decreases data
  {
    if |data| == 0 then c else Crc16From(ByteStep(c, data[0]), data[1..])
  }

  function Crc16(data: seq<Byte>): U16 {
    Crc16From(0xFFFF, data)
  }

  function Xor16(a: U16, b: U16): U16 {
    Pow2Values();
    XorBelow(a, b, 16);
    Xor(a, b)
  }

  function Le16(lo: Byte, hi: Byte): U16 {
    lo + 0x100 * hi
  }

  /** `crc_ok`: the last two bytes are the CRC of the rest, low byte first. */
  predicate CrcOk(p: seq<Byte>)
    requires |p| >= 2
  {
    Crc16(p[..|p| - 2]) == Le16(p[|p| - 2], p[|p| - 1])
  }

  /** `_crc` of the sender: the body followed by its CRC. */
  function WithCrc(body: seq<Byte>): seq<Byte> {
    var c := Crc16(body);
    body + [c % 0x100, c / 0x100]
  }

  // ----- XOR algebra -----

  lemma XorHigh(h: nat)
    requires h < 0x8000
    ensures 0x8000 <= Xor(h, POLY) < TWO16
  {
    // the top bit of the polynomial is set, the top bit of h is not
    XorBelow(h, POLY - 0x8000, 15);
    Pow2Values();
    assert Pow2(15) == 0x8000;
    XorTop(h, POLY - 0x8000, 15);
  }

  lemma HalfPlus(b: nat, p: nat)
    ensures (b + 2 * p) / 2 == b / 2 + p && (b + 2 * p) % 2 == b % 2
  {
  }

  lemma XorWhole(a: nat, b: nat, h: nat, k: nat)
    requires h == a / 2 && k == b / 2
    ensures Xor(a, b) == 2 * Xor(h, k) + (if a % 2 != b % 2 then 1 else 0)
  {
    XorStep(a, b);
  }

  lemma {:induction false} XorTop(a: nat, b: nat, n: nat)
    requires a < Pow2(n) && b < Pow2(n)
    ensures Xor(a, b + Pow2(n)) == Xor(a, b) + Pow2(n)
    decreases n, 0
  {
    if n == 0 {
      XorZero(1);
    } else {
      XorTopStep(a, b, Pow2(n - 1), n - 1);
    }
  }

  lemma {:induction false} XorTopStep(a: nat, b: nat, p: nat, n: nat)
    requires p == Pow2(n) && a < 2 * p && b < 2 * p
    ensures Xor(a, b + 2 * p) == Xor(a, b) + 2 * p
    decreases n, 1
  {
    XorTop(a / 2, b / 2, n);
    HalfPlus(b, p);
    XorWhole(a, b + 2 * p, a / 2, b / 2 + p);
    XorWhole(a, b, a / 2, b / 2);
  }

  lemma {:induction false} XorSelf(a: nat)
    ensures Xor(a, a) == 0
  {
    if a > 0 {
      XorSelf(a / 2);
      XorStep(a, a);
    }
  }

  lemma {:induction false} XorComm(a: nat, b: nat)
    ensures Xor(a, b) == Xor(b, a)
    decreases a + b
  {
    if a > 0 && b > 0 {
      XorComm(a / 2, b / 2);
    }
  }

  lemma {:induction false} XorAssoc(a: nat, b: nat, c: nat)
    ensures Xor(Xor(a, b), c) == Xor(a, Xor(b, c))
    decreases a + b + c
  {
    if a > 0 && b > 0 && c > 0 {
      XorAssoc(a / 2, b / 2, c / 2);
      XorStep(a, b);
      XorStep(b, c);
      XorStep(Xor(a, b), c);
      XorStep(a, Xor(b, c));
    }
  }

  lemma XorCancel(a: nat, b: nat, c: nat)
    requires Xor(a, c) == Xor(b, c)
    ensures a == b
  {
    XorAssoc(a, c, c);
    XorAssoc(b, c, c);
    XorSelf(c);
  }

  lemma XorZero(a: nat)
    ensures Xor(a, 0) == a && Xor(0, a) == a
  {
  }

  // ----- one bit step is a linear bijection -----

  lemma BitStepInjective(a: U16, b: U16)
    requires BitStep(a) == BitStep(b)
    ensures a == b
  {
    assert a % 2 == b % 2;
    if a % 2 == 1 {
      XorCancel(a / 2, b / 2, POLY);
    }
  }

  lemma BitStepLinear(a: U16, b: U16)
    ensures BitStep(Xor16(a, b)) == Xor16(BitStep(a), BitStep(b))
  {
    var x, y := a / 2, b / 2;
    XorStep(a, b);
    if a % 2 == 1 && b % 2 == 1 {
      XorComm(y, POLY);
      XorAssoc(x, POLY, Xor(POLY, y));
      XorAssoc(POLY, POLY, y);
      XorSelf(POLY);
    } else if a % 2 == 1 {
      XorAssoc(x, POLY, y);
      XorComm(POLY, y);
      XorAssoc(x, y, POLY);
    } else if b % 2 == 1 {
      XorAssoc(x, y, POLY);
    }
  }

  lemma {:induction false} BitStepsInjective(a: U16, b: U16, n: nat)
    requires BitSteps(a, n) == BitSteps(b, n)
    ensures a == b
    decreases n
  {
    if n > 0 {
      BitStepsInjective(BitStep(a), BitStep(b), n - 1);
      BitStepInjective(a, b);
    }
  }

  lemma {:induction false} BitStepsLinear(a: U16, b: U16, n: nat)
    ensures BitSteps(Xor16(a, b), n) == Xor16(BitSteps(a, n), BitSteps(b, n))
    decreases n
  {
    if n > 0 {
      BitStepLinear(a, b);
      BitStepsLinear(BitStep(a), BitStep(b), n - 1);
    }
  }

  /** While only zeros fall out the register just shifts. */
  lemma {:induction false} BitStepsShift(y: nat, n: nat)
    requires Shl(y, n) < TWO16
    ensures BitSteps(Shl(y, n), n) == y
    decreases n
  {
    if n > 0 {
      assert BitStep(Shl(y, n)) == Shl(y, n - 1);
      BitStepsShift(y, n - 1);
    }
  }

  lemma {:induction false} HighByteIs(y: Byte, n: nat)
    requires n == BYTE_BITS
    ensures Shl(y, n) == 0x100 * y
  {
    ShlIsMul(y, n);
    Pow2Values();
  }

  /** Eight steps bring the high byte down when the low byte is zero. */
  lemma {:induction false} HighByteComesDown(y: Byte)
    ensures BitSteps(0x100 * y, BYTE_BITS) == y
  {
    HighByteIs(y, BYTE_BITS);
    BitStepsShift(y, BYTE_BITS);
  }

  /** One byte step is a bijection of the register, for every byte. */
  lemma ByteStepInjective(a: U16, b: U16, x: Byte)
    requires ByteStep(a, x) == ByteStep(b, x)
    ensures a == b
  {
    BitStepsInjective(Xor16(a, x), Xor16(b, x), BYTE_BITS);
    XorCancel(a, b, x);
  }

  lemma {:induction false} CrcFromInjective(a: U16, b: U16, data: seq<Byte>)
    requires Crc16From(a, data) == Crc16From(b, data)
    ensures a == b
    decreases data
  {
    if |data| > 0 {
      CrcFromInjective(ByteStep(a, data[0]), ByteStep(b, data[0]), data[1..]);
      ByteStepInjective(a, b, data[0]);
    }
  }

  lemma {:induction false} CrcFromAppend(c: U16, x: seq<Byte>, y: seq<Byte>)
    ensures Crc16From(c, x + y) == Crc16From(Crc16From(c, x), y)
    decreases x
  {
    if |x| == 0 {
      assert x + y == y;
    } else {
      assert (x + y)[1..] == x[1..] + y;
      CrcFromAppend(ByteStep(c, x[0]), x[1..], y);
    }
  }

  lemma CrcFromPair(c: U16, x: Byte, y: Byte)
    ensures Crc16From(c, [x, y]) == ByteStep(ByteStep(c, x), y)
  {
    assert [x, y][1..] == [y];
    assert Crc16From(c, [x, y]) == Crc16From(ByteStep(c, x), [y]);
    assert [y][1..] == [];
  }

  // ----- the residue -----

  lemma {:induction false} HighMoves(t: nat, lo: nat, b: nat, whole: nat, half: nat, x: nat)
    requires whole == 2 * t + lo && half == t + lo / 2 && x == Xor(lo / 2, b / 2) && Xor(half, b / 2) == t + x
    ensures Xor(whole, b) == 2 * t + Xor(lo, b)
  {
    HalfPlus(lo, t);
    XorWhole(whole, b, half, b / 2);
    XorWhole(lo, b, lo / 2, b / 2);
  }

  lemma {:induction false} XorBytes(hi: nat, lo: nat, b: nat, n: nat)
    requires lo < Pow2(n) && b < Pow2(n)
    ensures Xor(Shl(hi, n) + lo, b) == Shl(hi, n) + Xor(lo, b)
  {
    if n > 0 {
      var t := Shl(hi, n - 1);
      XorBytes(hi, lo / 2, b / 2, n - 1);
      HighMoves(t, lo, b, Shl(hi, n) + lo, t + lo / 2, Xor(lo / 2, b / 2));
    } else {
      XorZero(Shl(hi, n));
    }
  }

  lemma ClearLow(hi: nat, lo: nat, n: nat)
    requires lo < Pow2(n)
    ensures Xor(Shl(hi, n) + lo, lo) == Shl(hi, n)
  {
    XorBytes(hi, lo, lo, n);
    XorSelf(lo);
  }

  lemma ClearLowByte(c: U16)
    ensures Xor(c, c % 0x100) == 0x100 * (c / 0x100)
  {
    var n: nat :| n == 8;
    Pow2Values();
    ShlIsMul(c / 0x100, n);
    ClearLow(c / 0x100, c % 0x100, n);
  }

  lemma OwnLowByte(c: U16)
    ensures ByteStep(c, c % 0x100) == c / 0x100
  {
    ClearLowByte(c);
    HighByteComesDown(c / 0x100);
  }

  /** Feeding a register its own value, low byte first, clears it. */
  lemma OwnValueClears(c: U16, lo: Byte, hi: Byte)
    requires c == Le16(lo, hi)
    ensures Crc16From(c, [lo, hi]) == 0
  {
    BytesOfWord(c, lo, hi);
    BytesOfWord(hi, hi, 0);
    OwnLowByte(c);
    OwnLowByte(hi);
    CrcFromPair(c, lo, hi);
  }

  lemma ResidueFrom(init: U16, body: seq<Byte>, lo: Byte, hi: Byte)
    ensures Crc16From(init, body) == Le16(lo, hi) <==> Crc16From(init, body + [lo, hi]) == 0
  {
    var c, t := Crc16From(init, body), Le16(lo, hi);
    CrcFromAppend(init, body, [lo, hi]);
    OwnValueClears(t, lo, hi);
    if Crc16From(c, [lo, hi]) == 0 {
      CrcFromInjective(c, t, [lo, hi]);
    }
  }

  /** A frame is valid exactly when the CRC over all of it, trailer included, is zero. */
  lemma CrcResidue(p: seq<Byte>)
    requires |p| >= 2
    ensures CrcOk(p) <==> Crc16(p) == 0
  {
    assert p == p[..|p| - 2] + [p[|p| - 2], p[|p| - 1]];
    ResidueFrom(0xFFFF, p[..|p| - 2], p[|p| - 2], p[|p| - 1]);
  }

  /** What the sender appends is what the receiver accepts, and only that. */
  lemma WithCrcIsOk(body: seq<Byte>, p: seq<Byte>)
    requires |p| == |body| + 2 && p[..|body|] == body
    ensures CrcOk(p) <==> p == WithCrc(body)
  {
    assert p == body + [p[|p| - 2], p[|p| - 1]];
    BytesOfWord(Crc16(body), p[|p| - 2], p[|p| - 1]);
  }

  lemma BytesOfWord(c: U16, lo: Byte, hi: Byte)
    ensures c == Le16(lo, hi) <==> lo == c % 0x100 && hi == c / 0x100
  {
  }

  // ----- burst detection -----

  /** Two different byte pairs drive the register to different values. */
  lemma PairDetected(c: U16, x: Byte, y: Byte, x': Byte, y': Byte)
    requires ByteStep(ByteStep(c, x), y) == ByteStep(ByteStep(c, x'), y')
    ensures x == x' && y == y'
  {
    var u, u' := ByteStep(c, x), ByteStep(c, x');
    BitStepsInjective(Xor16(u, y), Xor16(u', y'), 8);
    // the two registers differ by y ^ y', a byte
    var d := Xor(y, y');
    Pow2Values();
    XorBelow(y, y', 8);
    XorSwap(u, y, u', y');
    // and, by linearity, by eight steps of x ^ x'
    var e := Xor(x, x');
    XorBelow(x, x', 8);
    XorMiddle(c, x, x');
    BitStepsLinear(Xor16(c, x), Xor16(c, x'), 8);
    assert BitSteps(e, BYTE_BITS) == d;
    HighByteComesDown(d);
    BitStepsInjective(e, 0x100 * d, BYTE_BITS);
    XorIsZero(x, x');
    XorIsZero(y, y');
  }

  lemma XorIsZero(a: nat, b: nat)
    requires Xor(a, b) == 0
    ensures a == b
  {
    XorSelf(b);
    XorCancel(a, b, b);
  }

  lemma XorSwap(u: nat, y: nat, u': nat, y': nat)
    requires Xor(u, y) == Xor(u', y')
    ensures Xor(u, u') == Xor(y, y')
  {
    // u ^ u' = u ^ (u' ^ y') ^ y' = u ^ (u ^ y) ^ y' = y ^ y'
    XorAssoc(u', y', y');
    XorSelf(y');
    XorZero(u');
    XorAssoc(u, Xor(u, y), y');
    XorAssoc(u, u, y);
    XorSelf(u);
    XorZero(y);
  }

  lemma XorMiddle(c: nat, x: nat, x': nat)
    ensures Xor(Xor(c, x), Xor(c, x')) == Xor(x, x')
  {
    XorComm(c, x);
    XorAssoc(x, c, Xor(c, x'));
    XorAssoc(c, c, x');
    XorSelf(c);
    XorZero(x');
  }

  lemma SplitAt(init: U16, p: seq<Byte>, i: nat)
    requires i + 2 <= |p|
    ensures Crc16From(init, p)
         == Crc16From(ByteStep(ByteStep(Crc16From(init, p[..i]), p[i]), p[i + 1]), p[i + 2..])
  {
    var c := Crc16From(init, p[..i]);
    assert p == p[..i] + ([p[i], p[i + 1]] + p[i + 2..]);
    CrcFromAppend(init, p[..i], [p[i], p[i + 1]] + p[i + 2..]);
    CrcFromAppend(c, [p[i], p[i + 1]], p[i + 2..]);
    CrcFromPair(c, p[i], p[i + 1]);
  }

  lemma PairMovesRegister(c: U16, x: Byte, y: Byte, x': Byte, y': Byte, rest: seq<Byte>)
    requires x != x' || y != y'
    ensures Crc16From(ByteStep(ByteStep(c, x), y), rest) != Crc16From(ByteStep(ByteStep(c, x'), y'), rest)
  {
    var a, b := ByteStep(ByteStep(c, x), y), ByteStep(ByteStep(c, x'), y');
    if Crc16From(a, rest) == Crc16From(b, rest) {
      CrcFromInjective(a, b, rest);
      PairDetected(c, x, y, x', y');
    }
  }

  lemma PairDiffers(p: seq<Byte>, q: seq<Byte>, i: nat)
    requires |p| == |q| && i + 2 <= |p| && p != q
    requires p[..i] == q[..i] && p[i + 2..] == q[i + 2..]
    ensures p[i] != q[i] || p[i + 1] != q[i + 1]
  {
    assert p == p[..i] + [p[i], p[i + 1]] + p[i + 2..];
    assert q == q[..i] + [q[i], q[i + 1]] + q[i + 2..];
  }

  lemma BurstMovesRegister(init: U16, p: seq<Byte>, q: seq<Byte>, i: nat)
    requires |p| == |q| && i + 2 <= |p| && p != q
    requires p[..i] == q[..i] && p[i + 2..] == q[i + 2..]
    ensures Crc16From(init, p) != Crc16From(init, q)
  {
    SplitAt(init, p, i);
    SplitAt(init, q, i);
    PairDiffers(p, q, i);
    PairMovesRegister(Crc16From(init, p[..i]), p[i], p[i + 1], q[i], q[i + 1], p[i + 2..]);
  }

  /** Any change of a valid frame confined to two adjacent bytes, anywhere in it, is detected. */
  lemma BurstDetected(p: seq<Byte>, q: seq<Byte>, i: nat)
    requires |p| == |q| && i + 2 <= |p| && CrcOk(p) && p != q
    requires p[..i] == q[..i] && p[i + 2..] == q[i + 2..]
    ensures !CrcOk(q)
  {
    CrcResidue(p);
    CrcResidue(q);
    BurstMovesRegister(0xFFFF, p, q, i);
  }

  // ----- the loops of the source -----

  /** The inner loop: one byte. */
  method CrcByte(crc0: U16, b: Byte) returns (crc: U16)
    ensures crc == ByteStep(crc0, b)
  {
    crc := Xor16(crc0, b);
    for k := 0 to 8
      invariant BitSteps(crc, 8 - k) == ByteStep(crc0, b)
    {
      NextBit(crc, 8 - k);
      crc := if crc % 2 == 1 then Xor16(crc / 2, POLY) else crc / 2;
    }
  }

  lemma {:induction false} NextBit(c: U16, n: nat)
    requires n > 0
    ensures BitSteps(c, n) == BitSteps(if c % 2 == 1 then Xor16(c / 2, POLY) else c / 2, n - 1)
  {
  }

  /** `update_crc16`. */
  method UpdateCrc16(data: seq<Byte>) returns (crc: U16)
    ensures crc == Crc16(data)
  {
    crc := 0xFFFF;
    for i := 0 to |data|
      invariant Crc16From(crc, data[i..]) == Crc16(data)
    {
      assert data[i..][1..] == data[i + 1..];
      crc := CrcByte(crc, data[i]);
    }
  }
}
