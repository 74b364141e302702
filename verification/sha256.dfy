/** SHA-256 (core/sha256.c) against the standard: FIPS 180-4, padding of section 5.1.1, parsing of
    section 5.2.1 and the computation of section 6.2.2. */
module Sha256 {
  import opened Words
  import opened Bits

  const K: seq<U32> := [
    0x428a2f98, 0x71374491, 0xb5c0fbcf, 0xe9b5dba5, 0x3956c25b, 0x59f111f1, 0x923f82a4, 0xab1c5ed5,
    0xd807aa98, 0x12835b01, 0x243185be, 0x550c7dc3, 0x72be5d74, 0x80deb1fe, 0x9bdc06a7, 0xc19bf174,
    0xe49b69c1, 0xefbe4786, 0x0fc19dc6, 0x240ca1cc, 0x2de92c6f, 0x4a7484aa, 0x5cb0a9dc, 0x76f988da,
    0x983e5152, 0xa831c66d, 0xb00327c8, 0xbf597fc7, 0xc6e00bf3, 0xd5a79147, 0x06ca6351, 0x14292967,
    0x27b70a85, 0x2e1b2138, 0x4d2c6dfc, 0x53380d13, 0x650a7354, 0x766a0abb, 0x81c2c92e, 0x92722c85,
    0xa2bfe8a1, 0xa81a664b, 0xc24b8b70, 0xc76c51a3, 0xd192e819, 0xd6990624, 0xf40e3585, 0x106aa070,
    0x19a4c116, 0x1e376c08, 0x2748774c, 0x34b0bcb5, 0x391c0cb3, 0x4ed8aa4a, 0x5b9cca4f, 0x682e6ff3,
    0x748f82ee, 0x78a5636f, 0x84c87814, 0x8cc70208, 0x90befffa, 0xa4506ceb, 0xbef9a3f7, 0xc67178f2
  ]

  const IV: seq<U32> := [0x6a09e667, 0xbb67ae85, 0x3c6ef372, 0xa54ff53a, 0x510e527f, 0x9b05688c, 0x1f83d9ab, 0x5be0cd19]

  type Hash8 = h: seq<U32> | |h| == 8 witness [0, 0, 0, 0, 0, 0, 0, 0]
  type Block = p: seq<Byte> | |p| == 64 witness seq(64, _ => 0)

  // ----- words of 32 bits, section 3.2 -----

  function Plus(a: U32, b: U32): U32 { ToU32(a + b) }

  function Not(a: U32): U32 { 0xFFFF_FFFF - a }

  function Xor3(a: U32, b: U32, c: U32): U32 {
    Pow2Values();
    XorBelow(a, b, 32);
    XorBelow(Xor(a, b), c, 32);
    Xor(Xor(a, b), c)
  }

  function Xor2(a: U32, b: U32): U32 {
    Pow2Values();
    XorBelow(a, b, 32);
    Xor(a, b)
  }

  /** SHR^n */
  function Shift(x: U32, n: nat): U32 {
    ShrShrinks(x, n);
    Shr(x, n)
  }

  /** ROTR^n(x) = (x >> n) or (x << 32 - n), also the ROR macro of the code. */
  function Rotr(x: U32, n: nat): U32
    requires 0 < n < 32
  {
    Pow2Values();
    ShrShrinks(x, n);
    OrBelow(Shr(x, n), ToU32(Shl(x, 32 - n)), 32);
    Or(Shr(x, n), ToU32(Shl(x, 32 - n)))
  }

  // ----- the functions of section 4.1.2 -----

  function Ch(x: U32, y: U32, z: U32): U32 { Xor2(And(x, y), And(Not(x), z)) }
  function Maj(x: U32, y: U32, z: U32): U32 { Xor3(And(x, y), And(x, z), And(y, z)) }
  function BigSigma0(x: U32): U32 { Xor3(Rotr(x, 2), Rotr(x, 13), Rotr(x, 22)) }
  function BigSigma1(x: U32): U32 { Xor3(Rotr(x, 6), Rotr(x, 11), Rotr(x, 25)) }
  function SmallSigma0(x: U32): U32 { Xor3(Rotr(x, 7), Rotr(x, 18), Shift(x, 3)) }
  function SmallSigma1(x: U32): U32 { Xor3(Rotr(x, 17), Rotr(x, 19), Shift(x, 10)) }

  // ----- the computation of section 6.2.2 -----

  function Word32(a: Byte, b: Byte, c: Byte, d: Byte): U32 {
    a as int * 0x100_0000 + b as int * 0x1_0000 + c as int * 0x100 + d as int
  }

  /** Word t of a block, big-endian. */
  function WordAt(p: Block, t: nat): U32
    requires t < 16
  {
    Word32(p[4 * t], p[4 * t + 1], p[4 * t + 2], p[4 * t + 3])
  }

  /** The message schedule. */
  function Schedule(p: Block, t: nat): U32
    requires t < 64
    decreases t, p
  {
    if t < 16 then WordAt(p, t)
    else
      Plus(Plus(Plus(SmallSigma1(Schedule(p, t - 2)), Schedule(p, t - 7)), SmallSigma0(Schedule(p, t - 15))),
           Schedule(p, t - 16))
  }

  datatype Vars = Vars(a: U32, b: U32, c: U32, d: U32, e: U32, f: U32, g: U32, h: U32)

  function T1(v: Vars, k: U32, w: U32): U32 {
    Plus(Plus(Plus(Plus(v.h, BigSigma1(v.e)), Ch(v.e, v.f, v.g)), k), w)
  }

  function T2(v: Vars): U32 {
    Plus(BigSigma0(v.a), Maj(v.a, v.b, v.c))
  }

  function Round(v: Vars, k: U32, w: U32): Vars {
    Vars(Plus(T1(v, k, w), T2(v)), v.a, v.b, v.c, Plus(v.d, T1(v, k, w)), v.e, v.f, v.g)
  }

  function Rounds(v: Vars, p: Block, t: nat): Vars
    requires t <= 64
    decreases t, v
  {
    if t == 0 then v else Round(Rounds(v, p, t - 1), K[t - 1], Schedule(p, t - 1))
  }

  function Load(h: Hash8): Vars {
    Vars(h[0], h[1], h[2], h[3], h[4], h[5], h[6], h[7])
  }

  function Add(h: Hash8, v: Vars): Hash8 {
    [Plus(h[0], v.a), Plus(h[1], v.b), Plus(h[2], v.c), Plus(h[3], v.d),
     Plus(h[4], v.e), Plus(h[5], v.f), Plus(h[6], v.g), Plus(h[7], v.h)]
  }

  function Compress(h: Hash8, p: Block): Hash8 {
    Add(h, Rounds(Load(h), p, 64))
  }

  /** The blocks of a padded message, one after the other. */
  function Fold(h: Hash8, m: seq<Byte>): Hash8
    decreases |m|, h
  {
    if |m| < 64 then h else Fold(Compress(h, m[..64]), m[64..])
  }

  // ----- padding, section 5.1.1 -----

  /** The number of zero bytes between the 0x80 byte and the length. */
  function ZeroBytes(len: nat): (z: nat)
    ensures z < 64 && (len + 1 + z) % 64 == 56 && (len + 9 + z) % 64 == 0
  {
    (55 - len) % 64
  }

  /** It is the least one that leaves eight bytes in the last block. */
  lemma LeastPadding(len: nat, z: nat)
    requires (len + 1 + z) % 64 == 56
    ensures ZeroBytes(len) <= z
  {
  }

  function Zeros(n: nat): (z: seq<Byte>)
    ensures |z| == n && forall i | 0 <= i < n :: z[i] == 0
  {
    seq(n, _ => 0)
  }

  /** A 64-bit number, most significant byte first. */
  function BigEndian(x: nat): (b: seq<Byte>)
    ensures |b| == 8
  {
    [x / 0x100_0000_0000_0000 % 0x100, x / 0x1_0000_0000_0000 % 0x100, x / 0x100_0000_0000 % 0x100,
     x / 0x1_0000_0000 % 0x100, x / 0x100_0000 % 0x100, x / 0x1_0000 % 0x100, x / 0x100 % 0x100, x % 0x100]
  }

  function Suffix(len: nat): (s: seq<Byte>)
    ensures (len + |s|) % 64 == 0 && |s| == 9 + ZeroBytes(len)
  {
    [0x80] + Zeros(ZeroBytes(len)) + BigEndian(8 * len)
  }

  function Pad(m: seq<Byte>): (p: seq<Byte>)
    ensures |p| % 64 == 0
  {
    m + Suffix(|m|)
  }

  function Bytes(x: U32): (b: seq<Byte>)
    ensures |b| == 4
  {
    [x / 0x100_0000, x / 0x1_0000 % 0x100, x / 0x100 % 0x100, x % 0x100]
  }

  function Output(h: Hash8, n: nat): (b: seq<Byte>)
    requires n <= 8
    ensures |b| == 4 * n
  {
    if n == 0 then [] else Output(h, n - 1) + Bytes(h[n - 1])
  }

  /** The digest of the standard: 32 bytes for every message. */
  function Digest(m: seq<Byte>): (d: seq<Byte>)
    ensures |d| == 32
  {
    Output(Fold(IV, Pad(m)), 8)
  }

  // ----- the code -----

  lemma NextByte(x: nat, c: Byte, n: nat)
    ensures Or(Shl(x, n + 8), Shl(c, n)) == Shl(0x100 * x + c, n)
  {
    if n == 0 {
      Pow2Values();
      OrDisjoint(c, x, 8);
      ShlIsMul(x, 8);
    } else {
      NextByte(x, c, n - 1);
      OrStep(Shl(x, n + 8), Shl(c, n));
    }
  }

  lemma OredPair(x: nat, c: Byte, n: nat, y: nat)
    requires y == 0x100 * x + c
    ensures Or(Shl(x, n + 8), Shl(c, n)) == Shl(y, n)
  {
    NextByte(x, c, n);
  }

  /** The bytes of a word shifted into place and ORed, as the code reads them. */
  lemma OredWord(a: Byte, b: Byte, c: Byte, d: Byte)
    ensures Or(Or(Or(Shl(a, 24), Shl(b, 16)), Shl(c, 8)), d) == Word32(a, b, c, d)
  {
    var ab := 0x100 * a as int + b as int;
    var abc := 0x100 * ab + c as int;
    OredPair(a, b, 16, ab);
    OredPair(ab, c, 8, abc);
    OredPair(abc, d, 0, Word32(a, b, c, d));
  }

  lemma ReadsWord(p: Block, t: nat)
    requires t < 16
    ensures Or(Or(Or(Shl(p[4 * t], 24), Shl(p[4 * t + 1], 16)), Shl(p[4 * t + 2], 8)), p[4 * t + 3]) == Schedule(p, t)
  {
    OredWord(p[4 * t], p[4 * t + 1], p[4 * t + 2], p[4 * t + 3]);
  }

  /** The first sixteen words of the schedule. */
  method ReadWords(p: Block, w: array<U32>)
    requires w.Length == 64
    modifies w
    ensures forall t | 0 <= t < 16 :: w[t] == Schedule(p, t)
  {
    for i := 0 to 16
      invariant forall t | 0 <= t < i :: w[t] == Schedule(p, t)
    {
      ReadsWord(p, i);
      w[i] := Or(Or(Or(Shl(p[4 * i], 24), Shl(p[4 * i + 1], 16)), Shl(p[4 * i + 2], 8)), p[4 * i + 3]);
    }
  }

  lemma PlusMod(x: int, b: U32)
    ensures Plus(ToU32(x), b) == ToU32(x + b)
  {
  }

  /** The order of the four summands does not matter. */
  lemma SumOrder(a: U32, b: U32, c: U32, d: U32)
    ensures Plus(Plus(Plus(a, b), c), d) == Plus(Plus(Plus(d, c), b), a)
  {
    PlusMod(a + b, c);
    PlusMod(a + b + c, d);
    PlusMod(d + c, b);
    PlusMod(d + c + b, a);
  }

  /** The schedule, filled in place. */
  method Expand(p: Block, w: array<U32>)
    requires w.Length == 64
    modifies w
    ensures forall t | 0 <= t < 64 :: w[t] == Schedule(p, t)
  {
    ReadWords(p, w);
    for i := 16 to 64
      invariant forall t | 0 <= t < i :: w[t] == Schedule(p, t)
    {
      var s0 := Xor3(Rotr(w[i - 15], 7), Rotr(w[i - 15], 18), Shift(w[i - 15], 3));
      var s1 := Xor3(Rotr(w[i - 2], 17), Rotr(w[i - 2], 19), Shift(w[i - 2], 10));
      SumOrder(w[i - 16], s0, w[i - 7], s1);
      w[i] := Plus(Plus(Plus(w[i - 16], s0), w[i - 7]), s1);
    }
  }

  /** One turn of the round loop on the eight working variables. */
  method Turn(v: Vars, k: U32, w: U32) returns (r: Vars)
    ensures r == Round(v, k, w)
  {
    var a, b, c, d := v.a, v.b, v.c, v.d;
    var e, f, g, hh := v.e, v.f, v.g, v.h;
    var s1 := Xor3(Rotr(e, 6), Rotr(e, 11), Rotr(e, 25));
    var ch := Xor2(And(e, f), And(Not(e), g));
    var t1 := Plus(Plus(Plus(Plus(hh, s1), ch), k), w);
    var s0 := Xor3(Rotr(a, 2), Rotr(a, 13), Rotr(a, 22));
    var maj := Xor3(And(a, b), And(a, c), And(b, c));
    var t2 := Plus(s0, maj);
    hh, g, f := g, f, e;
    e := Plus(d, t1);
    d, c, b := c, b, a;
    a := Plus(t1, t2);
    r := Vars(a, b, c, d, e, f, g, hh);
  }

  /** `sha256_block`. */
  method BlockInPlace(h: array<U32>, p: Block)
    requires h.Length == 8
    modifies h
    ensures h[..] == Compress(old(h[..]), p)
  {
    var w := new U32[64](_ => 0);
    Expand(p, w);
    ghost var start := Load(h[..]);
    var v := Vars(h[0], h[1], h[2], h[3], h[4], h[5], h[6], h[7]);
    for i := 0 to 64
      invariant h[..] == old(h[..])
      invariant forall t | 0 <= t < 64 :: w[t] == Schedule(p, t)
      invariant v == Rounds(start, p, i)
    {
      v := Turn(v, K[i], w[i]);
    }
    AddInPlace(h, v);
  }

  method AddInPlace(h: array<U32>, v: Vars)
    requires h.Length == 8
    modifies h
    ensures h[..] == Add(old(h[..]), v)
  {
    h[0], h[1], h[2], h[3] := Plus(h[0], v.a), Plus(h[1], v.b), Plus(h[2], v.c), Plus(h[3], v.d);
    h[4], h[5], h[6], h[7] := Plus(h[4], v.e), Plus(h[5], v.f), Plus(h[6], v.g), Plus(h[7], v.h);
    ghost var sum := Add(old(h[..]), v);
    assert forall i | 0 <= i < 8 :: h[i] == sum[i];
  }

  /** What is left of the message, and the 0x80 byte. */
  method CopyRest(data: seq<Byte>, i: nat, tail: array<Byte>)
    requires i <= |data| < i + 64 && tail.Length == 128
    modifies tail
    ensures tail[..|data| - i + 1] == data[i..] + [0x80]
  {
    var r := |data| - i;
    for k := 0 to r
      invariant forall j | 0 <= j < k :: tail[j] == data[i + j]
    {
      tail[k] := data[i + k];
    }
    tail[r] := 0x80;
  }

  method ZeroFill(tail: array<Byte>, from: nat, to: nat)
    requires from <= to <= tail.Length
    modifies tail
    ensures tail[..from] == old(tail[..from]) && tail[from..to] == Zeros(to - from)
  {
    for k := from to to
      invariant tail[..from] == old(tail[..from])
      invariant forall j | from <= j < k :: tail[j] == 0
    {
      tail[k] := 0;
    }
  }

  /** The bit length, byte by byte from the end. */
  method WriteLength(tail: array<Byte>, zlen: nat, bitlen: nat)
    requires 8 <= zlen <= tail.Length
    modifies tail
    ensures tail[..zlen - 8] == old(tail[..zlen - 8]) && tail[zlen - 8..zlen] == BigEndian(bitlen)
  {
    var x := bitlen;
    for k := 0 to 8
      invariant forall j | 0 <= j < zlen - 8 :: tail[j] == old(tail[j])
      invariant x == Shifted(bitlen, k)
      invariant forall j | zlen - k <= j < zlen :: tail[j] == Shifted(bitlen, zlen - 1 - j) % 0x100
    {
      tail[zlen - 1 - k] := x % 0x100;
      x := x / 0x100;
    }
    LengthBytes(bitlen);
    forall j | 0 <= j < 8
      ensures tail[zlen - 8 + j] == BigEndian(bitlen)[j]
    {
      assert tail[zlen - 8 + j] == Shifted(bitlen, 7 - j) % 0x100;
    }
  }

  /** What is left of the message, the 0x80 byte, and zeros up to the length field, which overlaps them. */
  method FillFront(data: seq<Byte>, i: nat, tail: array<Byte>, zlen: nat)
    requires i <= |data| < i + 64 && tail.Length == 128 && |data| - i + 9 <= zlen <= 128
    modifies tail
    ensures tail[..zlen - 8] == data[i..] + [0x80] + Zeros(zlen - (|data| - i) - 9)
  {
    var r := |data| - i;
    CopyRest(data, i, tail);
    ZeroFill(tail, r + 1, zlen);
    assert tail[..r + 1] + tail[r + 1..zlen] == tail[..zlen];
    assert tail[..zlen - 8] == tail[..zlen][..zlen - 8];
    FrontIs(tail[..zlen - 8], tail[..r + 1], tail[r + 1..zlen], zlen - r - 9);
  }

  /** The tail buffer: what is left of the message, the 0x80 byte, zeros and the length. */
  method FillTail(data: seq<Byte>, i: nat, tail: array<Byte>) returns (zlen: nat)
    requires i <= |data| < i + 64 && i % 64 == 0 && tail.Length == 128 && |data| < TWO32
    modifies tail
    ensures (zlen == 64 || zlen == 128) && tail[..zlen] == data[i..] + Suffix(|data|)
  {
    zlen := if |data| - i + 1 <= 56 then 64 else 128;
    TailLength(|data|, i, zlen);
    FillFront(data, i, tail, zlen);
    ghost var front := tail[..zlen - 8];
    WriteLength(tail, zlen, |data| * 8);
    SuffixIs(data[i..], |data|, front, tail[zlen - 8..zlen], tail[..zlen]);
  }

  lemma SuffixIs(rest: seq<Byte>, len: nat, front: seq<Byte>, last: seq<Byte>, whole: seq<Byte>)
    requires front == rest + [0x80] + Zeros(ZeroBytes(len)) && last == BigEndian(8 * len)
    requires |whole| == |front| + |last| && whole[..|front|] == front && whole[|front|..] == last
    ensures whole == rest + Suffix(len)
  {
    assert whole == front + last;
  }

  lemma FrontIs(front: seq<Byte>, head: seq<Byte>, gap: seq<Byte>, z: nat)
    requires |head| + |gap| == |front| + 8 && front == (head + gap)[..|front|]
    requires |gap| == z + 8 && gap == Zeros(z + 8)
    ensures front == head + Zeros(z)
  {
  }

  /** bitlen >> (8 * k) */
  function Shifted(x: nat, k: nat): nat {
    if k == 0 then x else Shifted(x, k - 1) / 0x100
  }

  lemma LengthBytes(x: nat)
    ensures forall k | 0 <= k < 8 :: Shifted(x, k) % 0x100 == BigEndian(x)[7 - k]
  {
    assert Shifted(x, 1) == x / 0x100;
    assert Shifted(x, 2) == x / 0x1_0000;
    assert Shifted(x, 3) == x / 0x100_0000;
    assert Shifted(x, 4) == x / 0x1_0000_0000;
    assert Shifted(x, 5) == x / 0x100_0000_0000;
    assert Shifted(x, 6) == x / 0x1_0000_0000_0000;
    assert Shifted(x, 7) == x / 0x100_0000_0000_0000;
  }

  lemma TailLength(len: nat, i: nat, zlen: nat)
    requires i <= len < i + 64 && i % 64 == 0 && zlen == if len - i + 1 <= 56 then 64 else 128
    ensures len - i + |Suffix(len)| == zlen
  {
    assert len % 64 == len - i;
    assert ZeroBytes(len) == if len - i <= 55 then 55 - (len - i) else 119 - (len - i);
  }

  lemma OutBytes(x: U32)
    ensures Shr(x, 24) < 0x100
    ensures [Shr(x, 24), Shr(x, 16) % 0x100, Shr(x, 8) % 0x100, x % 0x100] == Bytes(x)
  {
    Pow2Values();
    ShrIsDiv(x, 24);
    ShrIsDiv(x, 16);
    ShrIsDiv(x, 8);
  }

  lemma FoldStep(h: Hash8, m: seq<Byte>, h': Hash8, rest: seq<Byte>)
    requires |m| >= 64 && h' == Compress(h, m[..64]) && rest == m[64..]
    ensures Fold(h, m) == Fold(h', rest)
  {
  }

  lemma RestSlices(data: seq<Byte>, i: nat, suffix: seq<Byte>, rest: seq<Byte>)
    requires i + 64 <= |data| && rest == data[i..] + suffix
    ensures rest[..64] == data[i..i + 64] && rest[64..] == data[i + 64..] + suffix
  {
  }

  lemma RestStep(h: Hash8, data: seq<Byte>, i: nat, suffix: seq<Byte>, h': Hash8)
    requires i + 64 <= |data| && h' == Compress(h, data[i..i + 64])
    ensures Fold(h, data[i..] + suffix) == Fold(h', data[i + 64..] + suffix)
  {
    RestSlices(data, i, suffix, data[i..] + suffix);
    FoldStep(h, data[i..] + suffix, h', data[i + 64..] + suffix);
  }

  /** One block; `r` is what the rest of the computation comes to. */
  method OneBlock(h: array<U32>, data: seq<Byte>, i: nat, ghost suffix: seq<Byte>, ghost r: Hash8)
    requires h.Length == 8 && i + 64 <= |data| && Fold(h[..], data[i..] + suffix) == r
    modifies h
    ensures Fold(h[..], data[i + 64..] + suffix) == r
  {
    ghost var before := h[..];
    BlockInPlace(h, data[i..i + 64]);
    RestStep(before, data, i, suffix, h[..]);
  }

  /** The loop over whole blocks; `suffix` is the padding still to come. */
  method WholeBlocks(h: array<U32>, data: seq<Byte>, ghost suffix: seq<Byte>) returns (i: nat)
    requires h.Length == 8 && |data| + 64 < TWO32
    modifies h
    ensures i <= |data| < i + 64 && i % 64 == 0
    ensures Fold(h[..], data[i..] + suffix) == old(Fold(h[..], data + suffix))
  {
    i := 0;
    ghost var r := Fold(h[..], data + suffix);
    assert data[0..] == data;
    while i + 64 <= |data|
      invariant i <= |data| && i % 64 == 0
      invariant Fold(h[..], data[i..] + suffix) == r
    {
      OneBlock(h, data, i, suffix, r);
      i := i + 64;
    }
  }

  /** Nothing left to fold. */
  lemma {:induction false} Spent(h: Hash8, m: seq<Byte>, r: Hash8)
    requires |m| == 0 && Fold(h, m) == r
    ensures h == r
  {
  }

  /** The first block of the tail. */
  method FrontBlock(h: array<U32>, tail: seq<Byte>, ghost r: Hash8)
    requires h.Length == 8 && 64 <= |tail| && Fold(h[..], tail) == r
    modifies h
    ensures Fold(h[..], tail[64..]) == r
  {
    ghost var before := h[..];
    BlockInPlace(h, tail[..64]);
    FoldStep(before, tail, h[..], tail[64..]);
  }

  /** One block of tail, or two when the length did not fit behind the message. */
  method TailBlocks(h: array<U32>, tail: seq<Byte>, ghost r: Hash8)
    requires h.Length == 8 && (|tail| == 64 || |tail| == 128) && Fold(h[..], tail) == r
    modifies h
    ensures h[..] == r
  {
    FrontBlock(h, tail, r);
    if |tail| == 128 {
      FrontBlock(h, tail[64..], r);
      Spent(h[..], tail[64..][64..], r);
    } else {
      Spent(h[..], tail[64..], r);
    }
  }

  method Emit(h: array<U32>) returns (out: seq<Byte>)
    requires h.Length == 8
    ensures out == Output(h[..], 8)
  {
    out := [];
    for k := 0 to 8
      invariant out == Output(h[..], k)
    {
      OutBytes(h[k]);
      out := out + [Shr(h[k], 24), Shr(h[k], 16) % 0x100, Shr(h[k], 8) % 0x100, h[k] % 0x100];
    }
  }

  method Initial() returns (h: array<U32>)
    ensures fresh(h) && h.Length == 8 && h[..] == IV
  {
    h := new U32[8](k requires 0 <= k < 8 => IV[k]);
  }

  /** What follows the whole blocks. */
  method Finish(h: array<U32>, data: seq<Byte>, i: nat) returns (out: seq<Byte>)
    requires h.Length == 8 && i <= |data| < i + 64 && i % 64 == 0 && |data| < TWO32
    modifies h
    ensures out == Output(old(Fold(h[..], data[i..] + Suffix(|data|))), 8)
  {
    var tail := new Byte[128];
    var zlen := FillTail(data, i, tail);
    TailBlocks(h, tail[..zlen], Fold(h[..], tail[..zlen]));
    out := Emit(h);
  }

  /** `sha256`: whole blocks in place, then one or two blocks of tail; the result is the digest of
      the standard for every length at which the loop counter does not wrap. */
  method Sha256(data: seq<Byte>) returns (out: seq<Byte>)
    requires |data| + 64 < TWO32
    ensures out == Digest(data)
  {
    var h := Initial();
    var i := WholeBlocks(h, data, Suffix(|data|));
    out := Finish(h, data, i);
  }
}
