/** Admission of concrete programs: a certificate written field by field, and the way to each load. */
module Admission {
  import opened Words
  import opened Isa
  import opened RegTypes
  import opened Dataflow

  /** A type for each of the sixteen fields at each pc. */
  type Typing = (nat, nat) -> Type

  function Pack(t: Typing, pc: nat, n: nat): (w: nat)
    ensures w <= Ones(n)
  {
    if n == 0 then 0 else 4 * Pack((p, r) => t(p, r + 1), pc, n - 1) + t(pc, 0)
  }

  lemma {:induction false} FieldOfPack(t: Typing, pc: nat, n: nat, r: nat)
    requires r < n
    ensures RegType(Pack(t, pc, n), r) == t(pc, r)
  {
    var u: Typing := (p, q) => t(p, q + 1);
    assert Pack(t, pc, n) / 4 == Pack(u, pc, n - 1);
    if r > 0 {
      FieldStep(Pack(t, pc, n), r);
      FieldOfPack(u, pc, n - 1, r - 1);
    }
  }

  function PackAll(t: Typing, cnt: nat): (m: seq<U32>)
    ensures |m| == cnt
  {
    OnesAre();
    seq(cnt, pc requires 0 <= pc < cnt => Pack(t, pc, 16))
  }

  /** The dataflow inequality along one edge, on types. */
  predicate EdgeTyped(i: Insn, t: Typing, pc: nat, s: nat) {
    forall r: nat | r < 16 :: TypeBelow(t(s, r), if Writes(i, r) then SCALAR else t(pc, r))
  }

  /** Every successor is inside the image and typed; written with the jump targets themselves. */
  predicate EdgesTyped(i: Insn, t: Typing, pc: nat, cnt: nat) {
    if i.IsJmp() && i.Op() == JMP_EXIT then true
    else
      var target := pc + 1 + i.off;
      && ((i.IsJmp() && i.Op() == JMP_JA) || (pc + 1 < cnt && EdgeTyped(i, t, pc, pc + 1)))
      && (i.IsJmp() && i.Op() != JMP_CALL ==> 0 <= target < cnt && EdgeTyped(i, t, pc, target))
  }

  lemma EdgesAreSucc(i: Insn, t: Typing, pc: nat, cnt: nat, s: nat)
    requires EdgesTyped(i, t, pc, cnt) && pc < cnt <= MAX_INSNS && s in Succ(i, pc)
    ensures s < cnt && EdgeTyped(i, t, pc, s)
  {
    if pc + 1 < cnt {
      assert ToU32(pc + 1) == pc + 1;
    }
    if 0 <= pc + 1 + i.off < cnt {
      assert JumpTarget(pc, i.off) == pc + 1 + i.off;
    }
  }

  predicate ReadsTyped(i: Insn, t: Typing, pc: nat) {
    !DivByZeroImm(i) && forall r: nat | r < 11 && Reads(i, r) :: ReadOk(i, t(pc, r))
  }

  lemma EdgeIsBelow(i: Insn, t: Typing, a: U32, b: U32, pc: nat, s: nat)
    requires EdgeTyped(i, t, pc, s)
    requires forall r | 0 <= r < 16 :: RegType(a, r) == t(pc, r) && RegType(b, r) == t(s, r)
    ensures Below(b, Out(i, a))
  {
    BelowIsFieldwise(b, Out(i, a));
    forall r | 0 <= r < 16
      ensures TypeBelow(RegType(b, r), RegType(Out(i, a), r))
    {
      OutType(i, a, r);
    }
  }

  /** The words of `m` hold the types of `t`. */
  predicate Packed(t: Typing, m: seq<U32>) {
    forall pc, r | 0 <= pc < |m| && 0 <= r < 16 :: RegType(m[pc], r) == t(pc, r)
  }

  lemma EntryBelow(t: Typing, m: seq<U32>)
    requires Packed(t, m) && |m| > 0
    requires forall r: nat | r < 16 :: TypeBelow(t(0, r), if r == 1 then CTX else BOTTOM)
    ensures Below(m[0], ENTRY)
  {
    BelowIsFieldwise(m[0], ENTRY);
    forall r | 0 <= r < 16
      ensures TypeBelow(RegType(m[0], r), RegType(ENTRY, r))
    {
      EntryType(r);
    }
  }

  lemma EdgesFlow(prog: seq<Insn>, t: Typing, m: seq<U32>, pc: nat)
    requires pc < |prog| == |m| <= MAX_INSNS && Packed(t, m) && EdgesTyped(prog[pc], t, pc, |prog|)
    ensures Flows(prog, m, pc) && Stays(prog, pc)
  {
    var succ := Succ(prog[pc], pc);
    forall k | 0 <= k < |succ|
      ensures succ[k] < |prog| && Below(m[succ[k]], Out(prog[pc], m[pc]))
    {
      EdgesAreSucc(prog[pc], t, pc, |prog|, succ[k]);
      EdgeIsBelow(prog[pc], t, m[pc], m[succ[k]], pc, succ[k]);
    }
  }

  lemma ReadsLocal(i: Insn, t: Typing, m: seq<U32>, pc: nat)
    requires pc < |m| && Packed(t, m) && ReadsTyped(i, t, pc)
    ensures LocalOk(i, m[pc])
  {
  }

  /** A field-wise typing of every instruction is a certificate. */
  lemma TypingIsCertificate(prog: seq<Insn>, t: Typing)
    requires 0 < |prog| <= MAX_INSNS
    requires forall r: nat | r < 16 :: TypeBelow(t(0, r), if r == 1 then CTX else BOTTOM)
    requires forall pc | 0 <= pc < |prog| :: EdgesTyped(prog[pc], t, pc, |prog|) && ReadsTyped(prog[pc], t, pc)
    ensures Certificate(prog, PackAll(t, |prog|))
  {
    var m := PackAll(t, |prog|);
    forall pc, r | 0 <= pc < |prog| && 0 <= r < 16
      ensures RegType(m[pc], r) == t(pc, r)
    {
      FieldOfPack(t, pc, 16, r);
    }
    EntryBelow(t, m);
    forall pc | 0 <= pc < |prog|
      ensures Flows(prog, m, pc) && Stays(prog, pc) && LocalOk(prog[pc], m[pc])
    {
      EdgesFlow(prog, t, m, pc);
      ReadsLocal(prog[pc], t, m, pc);
    }
  }

  // ----- programs written in the macros of core/ebpf_asm.h -----

  predicate IsLoad(opcode: Byte) { opcode == 0x71 || opcode == 0x69 || opcode == 0x61 }

  /** An operation with an immediate that reads its destination. */
  predicate IsUpdate(opcode: Byte) {
    opcode == 0x67 || opcode == 0x77 || opcode == 0x07 || opcode == 0x17 || opcode == 0x57
  }

  predicate IsBranch(opcode: Byte) { opcode == 0x15 || opcode == 0x55 || opcode == 0x25 }

  /** The instruction falls through, having written register d (16: none). */
  predicate After(t: Typing, pc: nat, s: nat, cnt: nat, d: nat) {
    s < cnt && forall r: nat | r < 16 :: TypeBelow(t(s, r), if r == d then SCALAR else t(pc, r))
  }

  predicate Plain(t: Type) { t == SCALAR || t == TOP }

  /** What the check asks of one macro instruction, spelled out by opcode. */
  predicate Fits(i: Insn, t: Typing, pc: nat, cnt: nat) {
    && i.dst < 10 && i.src < 10
    && (i.opcode == 0x95 ||
        After(t, pc, pc + 1, cnt, if IsBranch(i.opcode) then 16 else if i.opcode == 0x85 then 0 else i.dst))
    && if i.opcode == 0x95 then t(pc, 0) != BOTTOM
       else if IsLoad(i.opcode) then t(pc, i.src) == CTX
       else if i.opcode == 0xb7 then true
       else if i.opcode == 0xbf then Plain(t(pc, i.src))
       else if i.opcode == 0x4f then Plain(t(pc, i.dst)) && Plain(t(pc, i.src))
       else if IsUpdate(i.opcode) then Plain(t(pc, i.dst))
       else if IsBranch(i.opcode) then t(pc, i.dst) != BOTTOM && i.off >= 0 && After(t, pc, pc + 1 + i.off, cnt, 16)
       else i.opcode == 0x85 && t(pc, 1) != BOTTOM && (i.imm == 1 || (i.imm == 2 && t(pc, 2) != BOTTOM))
  }

  lemma LoadKind(i: Insn)
    ensures IsLoad(i.opcode) ==> i.IsLdx() && !i.IsAlu() && !i.IsJmp() && OpcodeKnown(i.opcode)
  {
  }

  lemma AluKind(i: Insn)
    requires i.opcode == 0xb7 || i.opcode == 0xbf || i.opcode == 0x4f || IsUpdate(i.opcode)
    ensures i.IsAlu() && !i.IsLdx() && !i.IsJmp() && OpcodeKnown(i.opcode) && !DivByZeroImm(i) && i.Op() != ALU_END
    ensures forall r: nat | Reads(i, r) :: (r == i.dst && i.opcode != 0xb7 && i.opcode != 0xbf)
                                           || (r == i.src && (i.opcode == 0xbf || i.opcode == 0x4f))
  {
  }

  lemma BranchKind(i: Insn)
    requires IsBranch(i.opcode)
    ensures i.IsJmp() && !i.IsAlu() && !i.IsLdx() && OpcodeKnown(i.opcode) && !i.SrcX()
    ensures i.Op() != JMP_EXIT && i.Op() != JMP_CALL && i.Op() != JMP_JA
  {
  }

  lemma JumpKind(i: Insn)
    requires i.opcode == 0x95 || i.opcode == 0x85
    ensures i.IsJmp() && !i.IsAlu() && !i.IsLdx() && OpcodeKnown(i.opcode) && !i.SrcX() && i.Cls() == CLS_JMP
    ensures i.Op() == if i.opcode == 0x95 then JMP_EXIT else JMP_CALL
  {
  }

  /** Such an instruction passes the rules for single instructions, and the typing fits it. */
  lemma FitsTyped(prog: seq<Insn>, t: Typing, pc: nat)
    requires pc < |prog| && Fits(prog[pc], t, pc, |prog|)
    ensures InsnOk(prog, pc) && ReadsTyped(prog[pc], t, pc) && EdgesTyped(prog[pc], t, pc, |prog|)
    ensures prog[pc].IsLdx() <==> IsLoad(prog[pc].opcode)
  {
    var i := prog[pc];
    if IsLoad(i.opcode) {
      LoadKind(i);
    } else if IsBranch(i.opcode) {
      BranchKind(i);
    } else if i.opcode == 0x95 || i.opcode == 0x85 {
      JumpKind(i);
    } else {
      AluKind(i);
    }
  }

  lemma FallsThrough(i: Insn, t: Typing, pc: nat, cnt: nat)
    requires Fits(i, t, pc, cnt) && i.opcode != 0x95 && pc < cnt <= MAX_INSNS
    ensures pc + 1 in Succ(i, pc)
  {
    assert ToU32(pc + 1) == pc + 1;
    if IsLoad(i.opcode) {
      LoadKind(i);
    } else if IsBranch(i.opcode) {
      BranchKind(i);
    } else if i.opcode == 0x85 {
      JumpKind(i);
    } else {
      AluKind(i);
    }
    assert Succ(i, pc)[0] == pc + 1;
  }

  lemma BranchesTo(i: Insn, t: Typing, pc: nat, cnt: nat)
    requires Fits(i, t, pc, cnt) && IsBranch(i.opcode) && pc < cnt <= MAX_INSNS
    ensures pc + 1 + i.off in Succ(i, pc)
  {
    BranchKind(i);
    assert JumpTarget(pc, i.off) == pc + 1 + i.off;
    assert Succ(i, pc)[1] == pc + 1 + i.off;
  }

  /** A program of macros whose loads are all reached through lower instructions is accepted. */
  lemma MacrosAccepted(prog: seq<Insn>, t: Typing)
    requires 0 < |prog| <= MAX_INSNS && forall pc | 0 <= pc < |prog| :: InRange(prog[pc])
    requires forall r: nat | r < 16 :: TypeBelow(t(0, r), if r == 1 then CTX else BOTTOM)
    requires forall pc | 0 <= pc < |prog| :: Fits(prog[pc], t, pc, |prog|)
    requires forall k | 0 <= k < |prog| && IsLoad(prog[k].opcode) :: Reach(prog, k, k)
    ensures Accepted(Assemble(prog))
  {
    AssembleDecodes(prog);
    forall pc | 0 <= pc < |prog|
      ensures InsnOk(prog, pc) && ReadsTyped(prog[pc], t, pc) && EdgesTyped(prog[pc], t, pc, |prog|)
      ensures prog[pc].IsLdx() <==> IsLoad(prog[pc].opcode)
    {
      FitsTyped(prog, t, pc);
    }
    TypingIsCertificate(prog, t);
  }

  /** Instructions a..b fall through, so b is reached when a is. */
  lemma {:induction false} Straight(prog: seq<Insn>, a: nat, b: nat, h: nat)
    requires Reach(prog, a, h) && a <= b <= h && b < |prog| <= MAX_INSNS
    requires forall q | a <= q < b :: q + 1 in Succ(prog[q], q)
    ensures Reach(prog, b, h)
    decreases b - a
  {
    if a < b {
      ReachExtend(prog, a, a + 1, h);
      Straight(prog, a + 1, b, h);
    }
  }
}
