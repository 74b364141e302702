/** The register-type lattice of the load-time check (core/loader.c:83-97):
    sixteen 2-bit fields packed in one 32-bit word, met by bitwise AND. */
module RegTypes {
  import opened Words
  import opened Bits

  const BOTTOM: int := 0
  const SCALAR: int := 1
  const CTX: int := 2
  const TOP: int := 3
  const ALL_TOP: U32 := 0xFFFF_FFFF

  type Type = t: int | 0 <= t < 4

  function RegType(st: nat, r: nat): Type {
    Shr(st, 2 * r) % 4
  }

  function SetType(st: U32, r: nat, t: Type): U32
    requires r < 16
  {
    ShlBound(TOP, r);
    ShlBound(t, r);
    OnesAre();
    OrBound(And(st, ALL_TOP - Shl(TOP, 2 * r)), Shl(t, 2 * r), 16);
    Or(And(st, ALL_TOP - Shl(TOP, 2 * r)), Shl(t, 2 * r))
  }

  /** `a` is `b` or lies below it: meeting with `b` changes nothing. */
  predicate Below(a: U32, b: U32) {
    And(a, b) == a
  }

  /** The order on one 2-bit field. */
  predicate TypeBelow(s: Type, t: Type) {
    s == t || s == BOTTOM || t == TOP
  }

  function Meet(s: Type, t: Type): (m: Type)
    ensures TypeBelow(m, s) && TypeBelow(m, t)
    ensures forall u: Type :: TypeBelow(u, s) && TypeBelow(u, t) ==> TypeBelow(u, m)
  {
    if s == TOP then t else if t == TOP || s == t then s else BOTTOM
  }

  // ----- words with n fields -----

  function Ones(n: nat): nat {
    if n == 0 then 0 else 4 * Ones(n - 1) + 3
  }

  lemma OnesAre()
    ensures Ones(16) == ALL_TOP
  {
    assert Ones(4) == 0xFF;
    assert Ones(8) == 0xFFFF;
    assert Ones(12) == 0xFF_FFFF;
  }

  lemma {:induction false} ShlBound(t: Type, r: nat)
    requires r < 16
    ensures Shl(t, 2 * r) <= ALL_TOP
  {
    ShlOnes(t, r, 16);
    OnesAre();
  }

  lemma {:induction false} ShlOnes(t: Type, r: nat, n: nat)
    requires r < n
    ensures Shl(t, 2 * r) <= Ones(n)
  {
    if r > 0 {
      ShlOnes(t, r - 1, n - 1);
      assert Shl(t, 2 * r) == 4 * Shl(t, 2 * (r - 1));
    }
  }

  lemma Digits(x: nat)
    ensures x / 4 == x / 2 / 2
    ensures x % 4 == 2 * (x / 2 % 2) + x % 2
  {
  }

  lemma AndQuarter(a: nat, b: nat)
    ensures And(a, b) / 4 == And(a / 4, b / 4)
    ensures And(a, b) % 4 == Meet(a % 4, b % 4)
  {
    AndStep(a, b);
    AndStep(a / 2, b / 2);
    Digits(And(a, b));
    Digits(a);
    Digits(b);
  }

  lemma OrQuarter(a: nat, b: nat)
    ensures Or(a, b) / 4 == Or(a / 4, b / 4)
    ensures a % 4 == 0 ==> Or(a, b) % 4 == b % 4
    ensures b % 4 == 0 ==> Or(a, b) % 4 == a % 4
  {
    OrStep(a, b);
    OrStep(a / 2, b / 2);
    Digits(Or(a, b));
    Digits(a);
    Digits(b);
  }

  lemma {:induction false} OrBound(a: nat, b: nat, n: nat)
    requires a <= Ones(n) && b <= Ones(n)
    ensures Or(a, b) <= Ones(n)
  {
    if n > 0 {
      OrBound(a / 4, b / 4, n - 1);
      OrQuarter(a, b);
    }
  }

  lemma FieldStep(st: nat, r: nat)
    requires r > 0
    ensures RegType(st, r) == RegType(st / 4, r - 1)
  {
    assert Shr(st, 2 * r) == Shr(st / 2 / 2, 2 * (r - 1));
  }

  lemma {:induction false} FieldOfAnd(a: nat, b: nat, r: nat)
    ensures RegType(And(a, b), r) == Meet(RegType(a, r), RegType(b, r))
  {
    AndQuarter(a, b);
    if r > 0 {
      FieldStep(a, r);
      FieldStep(b, r);
      FieldStep(And(a, b), r);
      FieldOfAnd(a / 4, b / 4, r - 1);
    }
  }

  lemma {:induction false} FieldOfOr(a: nat, b: nat, r: nat)
    ensures RegType(a, r) == 0 ==> RegType(Or(a, b), r) == RegType(b, r)
    ensures RegType(b, r) == 0 ==> RegType(Or(a, b), r) == RegType(a, r)
  {
    OrQuarter(a, b);
    if r > 0 {
      FieldStep(a, r);
      FieldStep(b, r);
      FieldStep(Or(a, b), r);
      FieldOfOr(a / 4, b / 4, r - 1);
    }
  }

  lemma {:induction false} FieldOfComplement(x: nat, r: nat, n: nat)
    requires r < n && x <= Ones(n)
    ensures RegType(Ones(n) - x, r) == TOP - RegType(x, r)
  {
    if r > 0 {
      FieldStep(x, r);
      FieldStep(Ones(n) - x, r);
      FieldOfComplement(x / 4, r - 1, n - 1);
      assert (Ones(n) - x) / 4 == Ones(n - 1) - x / 4;
    }
  }

  lemma {:induction false} FieldOfShl(t: Type, r: nat, q: nat)
    ensures RegType(Shl(t, 2 * r), q) == if q == r then t else 0
  {
    if r > 0 {
      assert Shl(t, 2 * r) == 4 * Shl(t, 2 * (r - 1));
      if q > 0 {
        FieldStep(Shl(t, 2 * r), q);
        FieldOfShl(t, r - 1, q - 1);
      }
    } else if q > 0 {
      FieldStep(t, q);
      FieldOfZero(q - 1);
    }
  }

  lemma {:induction false} FieldOfZero(q: nat)
    ensures RegType(0, q) == 0
  {
    if q > 0 {
      FieldStep(0, q);
      FieldOfZero(q - 1);
    }
  }

  lemma {:induction false} FieldOfOnes(r: nat, n: nat)
    requires r < n
    ensures RegType(Ones(n), r) == TOP
  {
    FieldOfComplement(0, r, n);
    FieldOfZero(r);
  }

  lemma FieldMask(r: nat, q: nat) returns (mask: U32)
    requires r < 16 && q < 16
    ensures Shl(TOP, 2 * r) <= ALL_TOP && mask == ALL_TOP - Shl(TOP, 2 * r)
    ensures RegType(mask, q) == if q == r then BOTTOM else TOP
  {
    OnesAre();
    ShlBound(TOP, r);
    mask := ALL_TOP - Shl(TOP, 2 * r);
    FieldOfShl(TOP, r, q);
    FieldOfComplement(Shl(TOP, 2 * r), q, 16);
  }

  /** Writing one field leaves the others alone. */
  lemma {:induction false} FieldOfSet(st: U32, r: nat, t: Type, q: nat)
    requires r < 16 && q < 16
    ensures RegType(SetType(st, r, t), q) == if q == r then t else RegType(st, q)
  {
    var mask := FieldMask(r, q);
    FieldOfAnd(st, mask, q);
    FieldOfShl(t, r, q);
    FieldOfOr(And(st, mask), Shl(t, 2 * r), q);
  }

  /** A word is determined by its sixteen fields. */
  lemma {:induction false} SameFields(a: nat, b: nat, n: nat)
    requires a <= Ones(n) && b <= Ones(n)
    requires forall r | 0 <= r < n :: RegType(a, r) == RegType(b, r)
    ensures a == b
  {
    if n > 0 {
      forall r | 0 <= r < n - 1
        ensures RegType(a / 4, r) == RegType(b / 4, r)
      {
        FieldStep(a, r + 1);
        FieldStep(b, r + 1);
      }
      SameFields(a / 4, b / 4, n - 1);
      assert RegType(a, 0) == RegType(b, 0);
    }
  }

  /** The packed order is the field-wise order. */
  lemma BelowIsFieldwise(a: U32, b: U32)
    ensures Below(a, b) <==> forall r | 0 <= r < 16 :: TypeBelow(RegType(a, r), RegType(b, r))
  {
    forall r | 0 <= r < 16
      ensures RegType(And(a, b), r) == Meet(RegType(a, r), RegType(b, r))
    {
      FieldOfAnd(a, b, r);
    }
    if forall r | 0 <= r < 16 :: TypeBelow(RegType(a, r), RegType(b, r)) {
      OnesAre();
      forall r | 0 <= r < 16
        ensures RegType(And(a, b), r) == RegType(a, r)
      {
        assert TypeBelow(RegType(a, r), RegType(b, r));
      }
      SameFields(And(a, b), a, 16);
    }
  }

  lemma BelowType(a: U32, b: U32, r: nat)
    requires Below(a, b) && r < 16
    ensures TypeBelow(RegType(a, r), RegType(b, r))
  {
    FieldOfAnd(a, b, r);
  }

  lemma BelowTrans(a: U32, b: U32, c: U32)
    requires Below(a, b) && Below(b, c)
    ensures Below(a, c)
  {
    BelowIsFieldwise(a, c);
    forall r | 0 <= r < 16
      ensures TypeBelow(RegType(a, r), RegType(c, r))
    {
      BelowType(a, b, r);
      BelowType(b, c, r);
    }
  }

  /** AND is the greatest lower bound of the packed order. */
  lemma AndIsMeet(a: U32, b: U32)
    ensures Below(And(a, b), a) && Below(And(a, b), b)
    ensures forall c: U32 | Below(c, a) && Below(c, b) :: Below(c, And(a, b))
  {
    BelowIsFieldwise(And(a, b), a);
    BelowIsFieldwise(And(a, b), b);
    forall r | 0 <= r < 16
      ensures RegType(And(a, b), r) == Meet(RegType(a, r), RegType(b, r))
    {
      FieldOfAnd(a, b, r);
    }
    forall c: U32 | Below(c, a) && Below(c, b)
      ensures Below(c, And(a, b))
    {
      BelowIsFieldwise(c, And(a, b));
      forall r | 0 <= r < 16
        ensures TypeBelow(RegType(c, r), RegType(And(a, b), r))
      {
        BelowType(c, a, r);
        BelowType(c, b, r);
      }
    }
  }

  lemma BelowTop(a: U32)
    ensures Below(a, ALL_TOP)
  {
    BelowIsFieldwise(a, ALL_TOP);
    OnesAre();
    forall r | 0 <= r < 16
      ensures TypeBelow(RegType(a, r), RegType(ALL_TOP, r))
    {
      FieldOfOnes(r, 16);
    }
  }

  lemma BelowRefl(a: U32)
    ensures Below(a, a)
  {
    BelowIsFieldwise(a, a);
  }

  /** Writing the same field of both sides keeps the order. */
  lemma SetTypeMonotone(a: U32, b: U32, r: nat, t: Type)
    requires Below(a, b) && r < 16
    ensures Below(SetType(a, r, t), SetType(b, r, t))
  {
    BelowIsFieldwise(SetType(a, r, t), SetType(b, r, t));
    forall q | 0 <= q < 16
      ensures TypeBelow(RegType(SetType(a, r, t), q), RegType(SetType(b, r, t), q))
    {
      FieldOfSet(a, r, t, q);
      FieldOfSet(b, r, t, q);
      BelowType(a, b, q);
    }
  }

  lemma SetTypeTwice(st: U32, r: nat, t: Type)
    requires r < 16
    ensures SetType(SetType(st, r, t), r, t) == SetType(st, r, t)
  {
    var once := SetType(st, r, t);
    forall q | 0 <= q < 16
      ensures RegType(SetType(once, r, t), q) == RegType(once, q)
    {
      FieldOfSet(st, r, t, q);
      FieldOfSet(once, r, t, q);
    }
    OnesAre();
    SameFields(SetType(once, r, t), once, 16);
  }
}
