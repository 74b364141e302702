/** The descriptor gate (core/loader.c:11-49): regions, native and program descriptors. */
module Gates {
  import opened Words
  import opened Bits

  const MODULE_MAGIC: U32 := 0x494E434C
  const CONTRACT_VERSION: U16 := 1
  const KIND_EBPF: U16 := 1
  const KIND_NATIVE: U16 := 2
  const MIN_REGION: U32 := 0x400

  datatype Status = Accept | ErrArgument | ErrContract

  datatype Spec = Spec(textBase: U32, textSize: U32, sramBase: U32, sramSize: U32)

  datatype Desc = Desc(magic: U32, version: U16, kind: U16, spec: Spec, entry: U32, reserved: U32)

  predicate RegionOk(base: U32, size: U32) {
    base % 0x1000 == 0 && size >= MIN_REGION && And(size, size - 1) == 0 && ToU32(base + size) > base
  }

  function CompartmentCheck(s: Spec): Status {
    if RegionOk(s.textBase, s.textSize) && RegionOk(s.sramBase, s.sramSize) then Accept else ErrArgument
  }

  function CheckNative(d: Desc): Status {
    if CompartmentCheck(d.spec) != Accept then ErrArgument
    else if d.entry % 2 == 1 || d.entry >= d.spec.textSize then ErrArgument
    else Accept
  }

  function CheckEbpf(d: Desc): Status {
    var s := d.spec;
    if s.textBase != 0 && s.textBase % 8 != 0 then ErrArgument
    else if s.textSize % 8 != 0 || s.textSize < 8 then ErrArgument
    else if d.entry % 8 != 0 || d.entry >= s.textSize then ErrArgument
    else if s.sramSize != 0 && s.sramBase % 4 != 0 then ErrArgument
    else if s.sramBase != 0 && s.sramSize == 0 then ErrArgument
    else Accept
  }

  function ModuleCheck(d: Desc): Status {
    if d.magic != MODULE_MAGIC || d.version != CONTRACT_VERSION then ErrContract
    else if d.kind != KIND_EBPF && d.kind != KIND_NATIVE then ErrArgument
    else if d.reserved != 0 then ErrArgument
    else if d.kind == KIND_EBPF then CheckEbpf(d)
    else CheckNative(d)
  }

  // ----- what the region test means -----

  ghost predicate IsPower(x: nat) {
    exists n: nat :: x == Pow2(n)
  }

  lemma HalfPower(x: nat)
    requires x > 0 && x % 2 == 0
    ensures IsPower(x) <==> IsPower(x / 2)
  {
    if IsPower(x) {
      var n: nat :| x == Pow2(n);
      assert n > 0;
      assert x / 2 == Pow2(n - 1);
    }
    if IsPower(x / 2) {
      var n: nat :| x / 2 == Pow2(n);
      assert x == Pow2(n + 1);
    }
  }

  lemma OddPower(x: nat)
    requires x % 2 == 1
    ensures IsPower(x) <==> x == 1
  {
    assert Pow2(0) == 1;
    if IsPower(x) {
      var n: nat :| x == Pow2(n);
      assert n == 0;
    }
  }

  /** x & (x - 1) clears the lowest set bit, so it vanishes exactly on the powers of two. */
  lemma {:induction false} PowerBit(x: nat)
    requires x > 0
    ensures And(x, x - 1) == 0 <==> IsPower(x)
  {
    AndStep(x, x - 1);
    if x % 2 == 0 {
      PowerBit(x / 2);
      HalfPower(x);
      assert (x - 1) / 2 == x / 2 - 1;
    } else {
      OddPower(x);
      AndSelf(x / 2);
      assert (x - 1) / 2 == x / 2;
    }
  }

  lemma {:induction false} AndSelf(x: nat)
    ensures And(x, x) == x
  {
    if x > 0 {
      AndSelf(x / 2);
    }
  }

  lemma SmallExponent(n: nat)
    ensures Pow2(n) >= MIN_REGION <==> n >= 10
  {
    assert Pow2(9) == 512 && Pow2(10) == 1024;
    if n >= 10 {
      Pow2Grows(10, n);
    } else {
      Pow2Grows(n, 9);
    }
  }

  lemma PowerSize(size: U32)
    ensures size >= MIN_REGION && And(size, size - 1) == 0 <==> exists n: nat :: size == Pow2(n) && n >= 10
  {
    if size >= MIN_REGION && And(size, size - 1) == 0 {
      PowerBit(size);
      var n: nat :| size == Pow2(n);
      SmallExponent(n);
    } else if n: nat :| size == Pow2(n) && n >= 10 {
      SmallExponent(n);
      PowerBit(size);
      assert false;
    }
  }

  lemma NoWrap(base: U32, size: U32)
    ensures ToU32(base + size) > base <==> base + size < TWO32 && size > 0
  {
  }

  /** The region test: page-aligned base, a power of two of at least 1 KiB, and an end strictly
      inside the 32-bit space (a region ending exactly at 4 GiB is refused). */
  lemma RegionMeaning(base: U32, size: U32)
    ensures RegionOk(base, size) <==>
              && base % 0x1000 == 0
              && (exists n: nat :: size == Pow2(n) && n >= 10)
              && base + size < TWO32
  {
    PowerSize(size);
    NoWrap(base, size);
  }
}
