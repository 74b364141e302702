/** PMP regions (core/platform.h:247, qemu/pmp_audit.c:382-398) and the compartment table that
    keeps them armed (core/compartment.c). */
module Pmp {
  import opened Words
  import opened Bits
  import opened Gates

  const DENY: U32 := 0xFFFF_FFFF

  // ----- the encoding -----

  /** The NAPOT macro; below eight bytes the subtraction wraps and every bit comes out set. */
  function Napot(base: U32, size: U32): (enc: U32)
    ensures size >= 8 ==> enc < 0x4000_0000
  {
    if size < 8 then DENY
    else
      Pow2Sizes();
      OrBelow(base / 4, size / 8 - 1, 30);
      Or(base / 4, size / 8 - 1)
  }

  function TrailingOnes(x: nat): nat {
    if x % 2 == 1 then 1 + TrailingOnes(x / 2) else 0
  }

  datatype Region = Region(base: U32, size: U32) | NoRegion

  /** The low k + 1 bits cleared, as `enc & ~((1u << (k + 1)) - 1)`. */
  function ClearLow(enc: U32, k: nat): nat
    requires k < 32
  {
    Pow2Grows(k + 1, 32);
    Pow2Values();
    And(enc, TWO32 - Pow2(k + 1))
  }

  /** `napot_decode`. */
  function Decode(enc: U32): Region {
    var k := if TrailingOnes(enc) < 30 then TrailingOnes(enc) else 30;
    if enc == DENY then Region(0, 0)
    else if enc == 0 then NoRegion
    else if k == 0 then Region(ToU32(4 * enc), 4)
    else if k > 19 then NoRegion
    else
      Pow2Grows(k + 3, 22);
      Pow2Sizes();
      Region(ToU32(4 * ClearLow(enc, k)), Pow2(k + 3))
  }

  method NapotTail(enc: U32) returns (k: nat)
    ensures k == if TrailingOnes(enc) < 30 then TrailingOnes(enc) else 30
  {
    k := 0;
    while k < 30 && Shr(enc, k) % 2 == 1
      invariant k <= 30 && TrailingOnes(enc) == k + TrailingOnes(Shr(enc, k))
    {
      ShrNext(enc, k);
      k := k + 1;
    }
  }

  /** `napot_decode` with its out-parameters; false when there is no region to report. */
  method NapotDecode(enc: U32) returns (ok: bool, base: U32, size: U32)
    ensures Decode(enc) == if ok then Region(base, size) else NoRegion
  {
    ok, base, size := false, 0, 0;
    if enc == DENY {
      return true, 0, 0;
    }
    if enc == 0 {
      return;
    }
    var k := NapotTail(enc);
    if k == 0 {
      return true, ToU32(4 * enc), 4;
    }
    if k > 19 {
      return;
    }
    Pow2Grows(k + 3, 22);
    Pow2Sizes();
    return true, ToU32(4 * ClearLow(enc, k)), Pow2(k + 3);
  }

  // ----- bit facts -----

  lemma TwiceProduct(half: nat, q: nat, p: nat)
    requires p == 2 * half
    ensures p * q == 2 * (half * q)
  {
  }

  lemma OddHalf(half: nat)
    requires half > 0
    ensures (2 * half - 1) / 2 == half - 1 && (2 * half - 1) % 2 == 1
  {
  }

  lemma OrOdd(x: nat, y: nat, z: nat)
    requires y % 2 == 1 && y / 2 == z
    ensures Or(x, y) == 2 * Or(x / 2, z) + 1
  {
    OrStep(x, y);
  }

  /** ORing in the low n bits. */
  lemma {:induction false} OrMask(x: nat, n: nat, p: nat, q: nat, r: nat)
    requires p == Pow2(n) && x == p * q + r && r < p
    ensures Or(x, p - 1) == p * q + (p - 1)
  {
    if n > 0 {
      var half := Pow2(n - 1);
      TwiceProduct(half, q, p);
      HalfSum(x, half * q, r);
      OrMask(x / 2, n - 1, half, q, r / 2);
      OddHalf(half);
      OrOdd(x, p - 1, half - 1);
    }
  }

  lemma HalfSum(x: nat, t: nat, r: nat)
    requires x == 2 * t + r
    ensures x / 2 == t + r / 2
  {
  }

  lemma Doubled(half: nat, q: nat, p: nat)
    requires p == 2 * half
    ensures 2 * (half * q + (half - 1)) + 1 == p * q + (p - 1)
  {
    TwiceProduct(half, q, p);
  }

  /** A word splits into its masked and its complement-masked part. */
  lemma {:induction false} AndSplit(x: nat, m: nat, w: nat)
    requires x < Pow2(w) && m < Pow2(w)
    ensures And(x, m) + And(x, Pow2(w) - 1 - m) == x
  {
    if w > 0 {
      var c := Pow2(w) - 1 - m;
      assert c / 2 == Pow2(w - 1) - 1 - m / 2;
      AndSplit(x / 2, m / 2, w - 1);
      AndStep(x, m);
      AndStep(x, c);
    }
  }

  lemma LowPart(x: nat, n: nat, p: nat, q: nat, r: nat)
    requires p == Pow2(n) && x == p * q + r && r < p
    ensures And(x, p - 1) == r
  {
    AndMask(x, n);
    DivUnique(x, p, q, r);
  }

  lemma ClearLowIs(enc: U32, k: nat, p: nat, q: nat, r: nat)
    requires k < 32 && p == Pow2(k + 1) && enc == p * q + r && r < p
    ensures ClearLow(enc, k) == enc - r
  {
    LowPart(enc, k + 1, p, q, r);
    PowerFits(k + 1);
    ClearedRest(enc, k, p, r);
  }

  lemma ClearedRest(enc: U32, k: nat, p: nat, r: nat)
    requires k < 32 && 1 <= p == Pow2(k + 1) <= TWO32 && And(enc, p - 1) == r
    ensures ClearLow(enc, k) == enc - r
  {
    SplitAt(enc, p - 1, TWO32 - p, r);
  }

  lemma PowerFits(k: nat)
    requires k <= 32
    ensures 1 <= Pow2(k) <= TWO32
  {
    Pow2Grows(k, 32);
    Pow2Values();
  }

  lemma SplitAt(enc: U32, m: nat, c: nat, r: nat)
    requires m + c == TWO32 - 1 && And(enc, m) == r
    ensures And(enc, c) == enc - r
  {
    Pow2Values();
    AndSplit(enc, m, 32);
    assert Pow2(32) - 1 - m == c;
  }

  lemma {:induction false} TrailingOnesOf(h: nat, j: nat, p: nat)
    requires p == Pow2(j)
    ensures TrailingOnes(p * h + (p - 1)) == j + TrailingOnes(h)
  {
    if j > 0 {
      var half := Pow2(j - 1);
      TrailingOnesOf(h, j - 1, half);
      Doubled(half, h, p);
      OddTail(half * h + (half - 1));
    }
  }

  lemma {:induction false} OddTail(y: nat)
    ensures TrailingOnes(2 * y + 1) == 1 + TrailingOnes(y)
  {
    assert (2 * y + 1) % 2 == 1 && (2 * y + 1) / 2 == y;
  }

  lemma {:induction false} Pow2Injective(a: nat, b: nat)
    requires Pow2(a) == Pow2(b)
    ensures a == b
  {
    if a < b {
      Pow2Grows(a + 1, b);
    }
    if b < a {
      Pow2Grows(b + 1, a);
    }
  }

  // ----- when the encoding is exact -----

  lemma EighthOf(size: U32, n: nat, m: nat)
    requires size == Pow2(n) && 10 <= n <= 22 && m == Pow2(n - 3)
    ensures size == 8 * m && 128 <= m <= 0x8_0000
  {
    assert Pow2(n) == 2 * Pow2(n - 1) == 4 * Pow2(n - 2) == 8 * Pow2(n - 3);
    Pow2Sizes();
    Pow2Grows(7, n - 3);
    Pow2Grows(n - 3, 19);
  }

  lemma Quotient(a: nat, m: nat) returns (h: nat, r: nat)
    requires m > 0
    ensures a == m * h + r && r < m
  {
    h, r := a / m, a % m;
  }

  lemma NapotIs(base: U32, size: U32, m: nat)
    requires size == 8 * m && m >= 1
    ensures Napot(base, size) == Or(base / 4, m - 1)
  {
  }

  /** The shape of an encoded region: the quotient of the base by half the size, then ones. */
  lemma NapotShape(base: U32, size: U32, n: nat, m: nat) returns (h: nat, r: nat)
    requires size == Pow2(n) && 10 <= n <= 22 && m == Pow2(n - 3)
    ensures size == 8 * m && 128 <= m <= 0x8_0000
    ensures Napot(base, size) == m * h + (m - 1)
    ensures TrailingOnes(m * h + (m - 1)) == n - 3 + TrailingOnes(h)
    ensures base / 4 == m * h + r && r < m
  {
    EighthOf(size, n, m);
    NapotIs(base, size, m);
    h, r := Quotient(base / 4, m);
    OrMask(base / 4, n - 3, m, h, r);
    TrailingOnesOf(h, n - 3, m);
  }

  /** An encoded word is its cut-off part and the tail. */
  lemma CutTail(m: nat, h: nat)
    requires m > 0 && h % 2 == 0
    ensures m * h + (m - 1) == 2 * m * (h / 2) + (m - 1)
    ensures (m * h + (m - 1)) / (2 * m) == h / 2
  {
    assert m * h == 2 * m * (h / 2) by {
      assert h == 2 * (h / 2);
    }
    DivUnique(m * h + (m - 1), 2 * m, h / 2, m - 1);
  }

  lemma AlignedDecodes(enc: U32, base: U32, size: U32, n: nat, m: nat, h: nat)
    requires size == Pow2(n) == 8 * m && 10 <= n <= 22 && m == Pow2(n - 3)
    requires enc == m * h + (m - 1) < 0x4000_0000 && TrailingOnes(enc) == n - 3 + TrailingOnes(h)
    requires h % 2 == 0 && 4 * (2 * m * (h / 2)) == base
    ensures Decode(enc) == Region(base, size)
  {
    DecodeTail(enc, m, h, n - 3);
  }

  lemma DecodedSize(enc: U32)
    requires Decode(enc).Region? && Decode(enc).size > 4
    ensures TrailingOnes(enc) <= 19 && Decode(enc).size == Pow2(TrailingOnes(enc) + 3)
  {
  }

  lemma DecodedIsAligned(enc: U32, base: U32, size: U32, n: nat, m: nat, h: nat)
    requires size == Pow2(n) == 8 * m >= MIN_REGION && 10 <= n <= 22 && m == Pow2(n - 3)
    requires enc == m * h + (m - 1) < 0x4000_0000 && TrailingOnes(enc) == n - 3 + TrailingOnes(h)
    requires Decode(enc) == Region(base, size)
    ensures base % size == 0
  {
    DecodedSize(enc);
    Pow2Injective(TrailingOnes(enc) + 3, n);
    assert h % 2 == 0;
    DecodeTail(enc, m, h, n - 3);
    EightTimes(m, h / 2, size);
  }

  /** Decoding inverts encoding exactly on the size-aligned regions; the page alignment the
      region test asks for is not enough for sizes above a page. */
  lemma NapotExact(base: U32, size: U32, n: nat)
    requires size == Pow2(n) && 10 <= n <= 22 && size >= MIN_REGION
    ensures Decode(Napot(base, size)) == Region(base, size) <==> base % size == 0
  {
    var m := Pow2(n - 3);
    var h, r := NapotShape(base, size, n, m);
    var enc := Napot(base, size);
    if base % size == 0 {
      AlignedHalf(base, m, h, r, size);
      AlignedDecodes(enc, base, size, n, m, h);
    } else if Decode(enc) == Region(base, size) {
      DecodedIsAligned(enc, base, size, n, m, h);
    }
  }

  lemma {:induction false} DecodeAt(enc: U32, k: nat, rest: nat, size: nat)
    requires 7 <= k <= 19 && 0 < enc < 0x4000_0000 && TrailingOnes(enc) == k && ClearLow(enc, k) == rest <= enc
    requires size == Pow2(k + 3)
    ensures Decode(enc).Region? && Decode(enc).base == 4 * rest && Decode(enc).size == size
  {
    assert ToU32(4 * rest) == 4 * rest;
  }

  /** What decoding gives when the tail ends right below an even quotient. */
  lemma DecodeTail(enc: U32, m: nat, h: nat, k: nat)
    requires 7 <= k <= 19 && m == Pow2(k) && h % 2 == 0 && enc == m * h + (m - 1) < 0x4000_0000
    requires TrailingOnes(enc) == k
    ensures Decode(enc).Region? && Decode(enc).base == 4 * (2 * m * (h / 2)) && Decode(enc).size == Pow2(k + 3)
  {
    TailRoom(k, m);
    CutTail(m, h);
    MulMonotone(m, 0, h);
    ClearLowIs(enc, k, 2 * m, h / 2, m - 1);
    DecodeAt(enc, k, enc - (m - 1), Pow2(k + 3));
  }

  lemma TailRoom(k: nat, m: nat)
    requires 7 <= k <= 19 && m == Pow2(k)
    ensures m >= 2 && Pow2(k + 1) == 2 * m
  {
    Pow2Sizes();
    Pow2Grows(7, k);
  }

  /** A base that is a multiple of 8m has an even quotient by 4m, and is recovered from it. */
  lemma AlignedHalf(base: nat, m: nat, h: nat, r: nat, size: nat)
    requires m > 0 && size == 8 * m && base % size == 0 && base / 4 == m * h + r && r < m
    ensures h % 2 == 0 && 4 * (2 * m * (h / 2)) == base
  {
    var q, z := Quotient(base, size);
    DivUnique(base, size, q, z);
    assert size * q == 8 * (m * q);
    assert base / 4 == m * (2 * q);
    SameQuotient(m, 2 * q, 0, h, r);
    assert 2 * m * q == 2 * (m * q);
  }

  lemma SameQuotient(m: nat, a: nat, r: nat, b: nat, s: nat)
    requires m * a + r == m * b + s && r < m && s < m
    ensures a == b && r == s
  {
    if a < b {
      MulMonotone(m, a + 1, b);
    }
    if b < a {
      MulMonotone(m, b + 1, a);
    }
  }

  lemma EightTimes(m: nat, q: nat, size: nat)
    requires m > 0 && size == 8 * m
    ensures 4 * (2 * m * q) % size == 0
  {
    assert 4 * (2 * m * q) == size * q + 0 by {
      assert size * q == 8 * (m * q) && 2 * m * q == 2 * (m * q);
    }
    DivUnique(4 * (2 * m * q), size, q, 0);
  }

  /** The region test asks for page alignment only: it passes regions the hardware places elsewhere. */
  lemma PageAlignmentIsNotEnough()
    ensures RegionOk(0x1000, 0x2000) && Decode(Napot(0x1000, 0x2000)) != Region(0x1000, 0x2000)
  {
    assert Pow2(13) == 0x2000;
    RegionMeaning(0x1000, 0x2000);
    NapotExact(0x1000, 0x2000, 13);
  }

  // ----- what the armed entries decide -----

  datatype Access = Read | Write | Execute

  /** The four configuration bytes and address words. */
  datatype Csrs = Csrs(cfg: seq<Byte>, addr: seq<U32>)

  const OPEN_DATA: Byte := 0x1B
  const OPEN_TEXT: Byte := 0x1D
  const OFF: Byte := 0x00
  const CLOSED: Byte := 0x18

  /** A NAPOT entry matches the addresses that agree with it above its trailing ones and the zero
      after them; the table writes no other kind of entry than NAPOT and OFF. */
  predicate Matches(cfg: Byte, enc: U32, a: U32) {
    cfg / 8 % 4 == 3 && Shr(a / 4, TrailingOnes(enc) + 1) == Shr(enc, TrailingOnes(enc) + 1)
  }

  predicate Permits(cfg: Byte, access: Access) {
    match access
    case Read => cfg % 2 == 1
    case Write => cfg / 2 % 2 == 1
    case Execute => cfg / 4 % 2 == 1
  }

  predicate Wired(c: Csrs) { |c.cfg| == |c.addr| == 4 }

  /** The lowest-numbered matching entry, or 4. */
  function Decider(c: Csrs, a: U32): nat
    requires Wired(c)
  {
    if Matches(c.cfg[0], c.addr[0], a) then 0
    else if Matches(c.cfg[1], c.addr[1], a) then 1
    else if Matches(c.cfg[2], c.addr[2], a) then 2
    else if Matches(c.cfg[3], c.addr[3], a) then 3
    else 4
  }

  /** That entry decides; without a match U-mode is refused. */
  predicate Allows(c: Csrs, a: U32, access: Access)
    requires Wired(c)
  {
    Decider(c, a) < 4 && Permits(c.cfg[Decider(c, a)], access)
  }

  predicate In(a: U32, base: U32, size: U32) {
    base <= a < base + size
  }

  /** A region the hardware can express: a power of two from 1 KiB to 4 MiB, aligned to its size. */
  ghost predicate Expressible(base: U32, size: U32) {
    size >= MIN_REGION && base % size == 0 && exists n: nat :: 10 <= n <= 22 && size == Pow2(n)
  }

  lemma EvenNoTail(h: nat)
    requires h % 2 == 0
    ensures TrailingOnes(h) == 0
  {
  }

  lemma SameBlock(a: nat, d: nat, q: nat)
    requires d > 0
    ensures a / 4 / d == q <==> 4 * (d * q) <= a < 4 * (d * q) + 4 * d
  {
    var t, r := Quotient(a / 4, d);
    DivUnique(a / 4, d, t, r);
    if 4 * (d * q) <= a < 4 * (d * q) + 4 * d {
      SameQuotient(d, t, r, q, a / 4 - d * q);
    }
  }

  lemma MatchesRegion(cfg: Byte, base: U32, size: U32, a: U32)
    requires cfg / 8 % 4 == 3 && Expressible(base, size)
    ensures Matches(cfg, Napot(base, size), a) <==> In(a, base, size)
  {
    var n: nat :| 10 <= n <= 22 && size == Pow2(n);
    var m := Pow2(n - 3);
    var h, r := NapotShape(base, size, n, m);
    AlignedHalf(base, m, h, r, size);
    EvenNoTail(h);
    assert Pow2(n - 2) == 2 * m;
    ShrIsDiv(a / 4, n - 2);
    ShrIsDiv(m * h + (m - 1), n - 2);
    CutTail(m, h);
    SameBlock(a, 2 * m, h / 2);
  }

  /** The filler entry covers the whole address space. */
  lemma DenyMatchesAll(a: U32)
    ensures Matches(CLOSED, DENY, a)
  {
    Pow2Values();
    TrailingOnesOf(0, 32, TWO32);
    assert Pow2(33) == 2 * TWO32;
    ShrIsDiv(a / 4, 33);
    ShrIsDiv(DENY, 33);
  }

  function Encoded(s: Spec): Csrs {
    Csrs([OPEN_DATA, OPEN_TEXT, OFF, CLOSED],
         [Napot(s.sramBase, s.sramSize), Napot(s.textBase, s.textSize), 0, DENY])
  }

  /** What a spec promises to its compartment: read and write exactly its SRAM, read and execute
      exactly its text. */
  predicate Granted(s: Spec, a: U32, access: Access) {
    if In(a, s.sramBase, s.sramSize) then access != Execute
    else In(a, s.textBase, s.textSize) && access != Write
  }

  ghost predicate HardwareFits(s: Spec) {
    Expressible(s.sramBase, s.sramSize) && Expressible(s.textBase, s.textSize)
  }

  /** One and two pages are sizes the hardware can express. */
  lemma PageWindows()
    ensures 0x1000 == Pow2(12) && 0x2000 == Pow2(13)
  {
    Pow2Sizes();
  }

  /** With a spec armed, user mode has exactly what the spec grants, and whatever lies outside both
      windows is refused by the filler entry, not by the absence of one. */
  lemma ArmedIsExact(s: Spec, a: U32, access: Access)
    requires HardwareFits(s)
    ensures Allows(Encoded(s), a, access) <==> Granted(s, a, access)
    ensures Decider(Encoded(s), a)
         == if In(a, s.sramBase, s.sramSize) then 0 else if In(a, s.textBase, s.textSize) then 1 else 3
  {
    MatchesRegion(OPEN_DATA, s.sramBase, s.sramSize, a);
    MatchesRegion(OPEN_TEXT, s.textBase, s.textSize, a);
    DenyMatchesAll(a);
    DecideFrom(Encoded(s), a, access, In(a, s.sramBase, s.sramSize), In(a, s.textBase, s.textSize));
  }

  lemma DecideFrom(c: Csrs, a: U32, access: Access, data: bool, text: bool)
    requires Wired(c) && c.cfg == [OPEN_DATA, OPEN_TEXT, OFF, CLOSED] && Matches(c.cfg[3], c.addr[3], a)
    requires data == Matches(c.cfg[0], c.addr[0], a) && text == Matches(c.cfg[1], c.addr[1], a)
    ensures Allows(c, a, access) <==> if data then access != Execute else text && access != Write
    ensures Decider(c, a) == if data then 0 else if text then 1 else 3
  {
  }

  // ----- the compartment table -----

  const COMPARTMENTS: nat := 4
  const TCB_WORDS: nat := 32

  datatype Comp = Comp(spec: Spec, entry: U32, armed: bool, evicted: bool, tcb: seq<U32>)

  datatype Table = Table(comps: seq<Comp>, csrs: Csrs)

  predicate Shaped(t: Table) {
    |t.comps| == COMPARTMENTS && Wired(t.csrs)
  }

  datatype Op = Set(i: nat, spec: Spec, entry: U32) | Arm(i: nat) | Evict(i: nat)

  function ZeroTcb(): seq<U32> {
    seq(TCB_WORDS, _ => 0)
  }

  function Disarmed(comps: seq<Comp>): (r: seq<Comp>)
    ensures |r| == |comps|
    ensures forall j | 0 <= j < |comps| :: r[j] == comps[j].(armed := false)
  {
    seq(|comps|, j requires 0 <= j < |comps| => comps[j].(armed := false))
  }

  function Perform(t: Table, op: Op): (t': Table)
    requires Shaped(t)
    ensures Shaped(t')
  {
    match op
    case Set(i, spec, entry) =>
      if i >= COMPARTMENTS then t else t.(comps := t.comps[i := Comp(spec, entry, false, false, ZeroTcb())])
    case Arm(i) =>
      if i >= COMPARTMENTS || t.comps[i].armed then t
      else Table(Disarmed(t.comps)[i := t.comps[i].(armed := true)], Encoded(t.comps[i].spec))
    case Evict(i) =>
      if i >= COMPARTMENTS then t else t.(comps := t.comps[i := t.comps[i].(evicted := true, armed := false)])
  }

  /** The armed bits are a sound cache of the CSRs: at most one is set, and then the CSRs hold that spec. */
  predicate Cached(t: Table) {
    && Shaped(t)
    && (forall i, j | 0 <= i < j < COMPARTMENTS :: !(t.comps[i].armed && t.comps[j].armed))
    && (forall i | 0 <= i < COMPARTMENTS && t.comps[i].armed :: t.csrs == Encoded(t.comps[i].spec))
  }

  lemma PerformCached(t: Table, op: Op)
    requires Cached(t)
    ensures Cached(Perform(t, op))
  {
  }

  function PerformAll(t: Table, ops: seq<Op>): (t': Table)
    requires Shaped(t)
    ensures Shaped(t')
    decreases |ops|, t
  {
    if |ops| == 0 then t else PerformAll(Perform(t, ops[0]), ops[1..])
  }

  lemma PerformTwo(t: Table, a: Op, b: Op)
    requires Shaped(t)
    ensures PerformAll(t, [a, b]) == Perform(Perform(t, a), b)
  {
    assert [a, b][1..] == [b] && [b][1..] == [];
    assert PerformAll(Perform(t, a), [b]) == Perform(Perform(t, a), b);
  }

  lemma PerformFour(t: Table, a: Op, b: Op, c: Op, d: Op)
    requires Shaped(t)
    ensures PerformAll(t, [a, b, c, d]) == Perform(Perform(Perform(Perform(t, a), b), c), d)
  {
    assert [a, b, c, d][1..] == [b, c, d] && [b, c, d][1..] == [c, d];
    PerformTwo(Perform(Perform(t, a), b), c, d);
  }

  lemma {:induction false} AlwaysCached(t: Table, ops: seq<Op>)
    requires Cached(t)
    ensures Cached(PerformAll(t, ops))
    decreases |ops|
  {
    if |ops| > 0 {
      PerformCached(t, ops[0]);
      AlwaysCached(Perform(t, ops[0]), ops[1..]);
    }
  }

  /** After any history, arming a compartment leaves the PMP deciding exactly its spec, whether the
      registers were written or the write was skipped because the bit said so. */
  lemma ArmIsExact(t: Table, ops: seq<Op>, i: nat, a: U32, access: Access)
    requires Cached(t) && i < COMPARTMENTS && HardwareFits(PerformAll(t, ops).comps[i].spec)
    ensures Allows(Perform(PerformAll(t, ops), Arm(i)).csrs, a, access)
       <==> Granted(PerformAll(t, ops).comps[i].spec, a, access)
  {
    AlwaysCached(t, ops);
    ArmedIsExact(PerformAll(t, ops).comps[i].spec, a, access);
  }

  /** The table and the CSRs in place. */
  class Compartments {
    var comps: seq<Comp>
    const cfg: array<Byte>
    const addr: array<U32>

    ghost predicate Valid()
      reads this
    {
      |comps| == COMPARTMENTS && cfg.Length == addr.Length == 4
    }

    ghost function View(): (t: Table)
      requires Valid()
      reads this, cfg, addr
      ensures Shaped(t)
    {
      Table(comps, Csrs(cfg[..], addr[..]))
    }

    constructor ()
      ensures Valid() && Cached(View()) && fresh(cfg) && fresh(addr)
    {
      comps := seq(COMPARTMENTS, _ => Comp(Spec(0, 0, 0, 0), 0, false, false, ZeroTcb()));
      cfg, addr := new Byte[4](_ => 0), new U32[4](_ => 0);
    }

    /** `compartment_set`: a fresh lifetime. */
    method SetUp(i: nat, spec: Spec, entry: U32)
      requires Valid()
      modifies `comps
      ensures Valid() && View() == Perform(old(View()), Set(i, spec, entry))
    {
      if i >= COMPARTMENTS {
        return;
      }
      var tcb: seq<U32> := [];
      for j := 0 to TCB_WORDS
        invariant tcb == ZeroTcb()[..j]
      {
        tcb := tcb + [0];
      }
      assert tcb == ZeroTcb();
      comps := comps[i := Comp(spec, entry, false, false, tcb)];
    }

    /** Everything off, the two windows, the deny filler, then on. */
    method WriteCsrs(s: Spec)
      requires Valid()
      modifies cfg, addr
      ensures Csrs(cfg[..], addr[..]) == Encoded(s)
    {
      cfg[0], cfg[1], cfg[2], cfg[3] := 0, 0, 0, 0;
      addr[0] := Napot(s.sramBase, s.sramSize);
      addr[1] := Napot(s.textBase, s.textSize);
      addr[2] := 0;
      addr[3] := DENY;
      cfg[0], cfg[1], cfg[2], cfg[3] := OPEN_DATA, OPEN_TEXT, OFF, CLOSED;
      assert addr[..] == Encoded(s).addr && cfg[..] == Encoded(s).cfg;
    }

    method DisarmAll()
      requires Valid()
      modifies `comps
      ensures Valid() && comps == Disarmed(old(comps))
    {
      for j := 0 to COMPARTMENTS
        invariant |comps| == COMPARTMENTS
        invariant forall k | 0 <= k < COMPARTMENTS ::
                    comps[k] == if k < j then old(comps)[k].(armed := false) else old(comps)[k]
      {
        comps := comps[j := comps[j].(armed := false)];
      }
    }

    /** `compartment_arm`. */
    method ArmNow(i: nat)
      requires Valid()
      modifies `comps, cfg, addr
      ensures Valid() && View() == Perform(old(View()), Arm(i))
    {
      if i >= COMPARTMENTS || comps[i].armed {
        return;
      }
      WriteCsrs(comps[i].spec);
      DisarmAll();
      comps := comps[i := comps[i].(armed := true)];
    }

    /** `compartment_evict`. */
    method EvictNow(i: nat)
      requires Valid()
      modifies `comps
      ensures Valid() && View() == Perform(old(View()), Evict(i))
    {
      if i >= COMPARTMENTS {
        return;
      }
      comps := comps[i := comps[i].(evicted := true, armed := false)];
    }
  }
}
