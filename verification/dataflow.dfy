/** The load-time check (core/loader.c) without its algorithm: the rules for single instructions,
    the dataflow problem over packed register types, and what acceptance means. */
module Dataflow {
  import opened Words
  import opened Bits
  import opened Isa
  import opened RegTypes

  // ----- per-instruction tables -----

  predicate OpcodeKnown(opcode: Byte) {
    var cls, o := opcode % 8, opcode - opcode % 16;
    if cls == CLS_LDX then opcode - opcode % 0x20 == MODE_MEM
    else if cls == CLS_ALU || cls == CLS_ALU64 then
      if o == ALU_END then opcode / 8 % 2 == 1 else o <= ALU_ARSH
    else if cls == CLS_JMP || cls == CLS_JMP32 then o <= JMP_EXIT || JMP_JLT <= o <= JMP_JSLE
    else false
  }

  /** The registers an instruction reads. */
  predicate Reads(i: Insn, r: nat) {
    var o := i.Op();
    if i.IsAlu() then
      if o == ALU_MOV then i.SrcX() && r == i.src
      else if o == ALU_NEG || o == ALU_END then r == i.dst
      else r == i.dst || (i.SrcX() && r == i.src)
    else if i.IsJmp() then
      if o == JMP_EXIT then r == 0
      else if o == JMP_CALL then r == 1 || (i.imm == 2 && r == 2)
      else if o == JMP_JA then false
      else r == i.dst || (i.SrcX() && r == i.src)
    else i.IsLdx() && r == i.src
  }

  predicate Writes(i: Insn, r: nat) {
    if i.IsLdx() || i.IsAlu() then r == i.dst
    else i.IsJmp() && i.Op() == JMP_CALL && r == 0
  }

  function Succ(i: Insn, pc: U32): seq<U32> {
    if i.IsJmp() then
      if i.Op() == JMP_EXIT then []
      else if i.Op() == JMP_JA then [JumpTarget(pc, i.off)]
      else if i.Op() == JMP_CALL then [ToU32(pc + 1)]
      else [ToU32(pc + 1), JumpTarget(pc, i.off)]
    else [ToU32(pc + 1)]
  }

  predicate DivByZeroImm(i: Insn) {
    i.IsAlu() && (i.Op() == ALU_DIV || i.Op() == ALU_MOD) && !i.SrcX() && i.imm == 0
  }

  /** The rules `ic_program_check` applies to each instruction on its own. */
  predicate InsnOk(prog: seq<Insn>, pc: nat)
    requires pc < |prog|
  {
    var i := prog[pc];
    && i.dst <= 10 && i.src <= 10
    && !(i.IsLdx() && i.dst == 10)
    && OpcodeKnown(i.opcode)
    && (i.IsAlu() && i.Op() == ALU_END && i.SrcX() ==> i.imm == 16 || i.imm == 32 || i.imm == 64)
    && (i.IsJmp() ==>
          if i.Op() == JMP_EXIT then true
          else if i.Op() == JMP_CALL then i.Cls() == CLS_JMP && !i.SrcX() && (i.imm == 1 || i.imm == 2)
          else 0 <= pc + 1 + i.off < |prog|)
  }

  // ----- the dataflow problem -----

  /** At entry r1 is the context pointer, every other register unwritten. */
  const ENTRY: U32 := SetType(0, 1, CTX)

  /** The state after an instruction: what it writes becomes a scalar. */
  function Out(i: Insn, st: U32): U32 {
    if i.IsLdx() || i.IsAlu() then SetType(st, i.dst, SCALAR)
    else if i.IsJmp() && i.Op() == JMP_CALL then SetType(st, 0, SCALAR)
    else st
  }

  predicate ReadOk(i: Insn, t: Type) {
    t != BOTTOM && (i.IsLdx() ==> t == CTX) && (i.IsAlu() ==> t != CTX)
  }

  predicate LocalOk(i: Insn, st: U32) {
    && (forall r | 0 <= r < 11 && Reads(i, r) :: ReadOk(i, RegType(st, r)))
    && !DivByZeroImm(i)
  }

  predicate Flows(prog: seq<Insn>, m: seq<U32>, pc: nat)
    requires pc < |prog| == |m| <= MAX_INSNS
  {
    forall s | s in Succ(prog[pc], pc) :: s < |m| ==> Below(m[s], Out(prog[pc], m[pc]))
  }

  /** `m` solves the dataflow inequalities. */
  predicate Solution(prog: seq<Insn>, m: seq<U32>) {
    && 0 < |prog| == |m| <= MAX_INSNS
    && Below(m[0], ENTRY)
    && forall pc | 0 <= pc < |prog| :: Flows(prog, m, pc)
  }

  predicate Stays(prog: seq<Insn>, pc: nat)
    requires pc < |prog| <= MAX_INSNS
  {
    var succ := Succ(prog[pc], pc);
    forall k | 0 <= k < |succ| :: succ[k] < |prog|
  }

  /** A solution at which every instruction is well typed and none leaves the image. */
  predicate Certificate(prog: seq<Insn>, m: seq<U32>) {
    && Solution(prog, m)
    && forall pc | 0 <= pc < |prog| :: LocalOk(prog[pc], m[pc]) && Stays(prog, pc)
  }

  predicate AllBelow(a: seq<U32>, b: seq<U32>) {
    |a| == |b| && forall i | 0 <= i < |a| :: Below(a[i], b[i])
  }

  /** A control-flow path from the entry that leaves only instructions below `h`. */
  predicate IsPath(prog: seq<Insn>, p: seq<nat>, h: nat) {
    && |p| > 0 && p[0] == 0 && |prog| <= MAX_INSNS
    && forall j | 0 <= j < |p| - 1 :: p[j] < h && p[j] < |prog| && p[j + 1] in Succ(prog[p[j]], p[j])
  }

  ghost predicate Reach(prog: seq<Insn>, n: nat, h: nat) {
    exists p: seq<nat> :: IsPath(prog, p, h) && p[|p| - 1] == n
  }

  /** Every load can be reached through instructions below it. */
  ghost predicate LoadsReached(prog: seq<Insn>) {
    forall k | 0 <= k < |prog| && prog[k].IsLdx() :: Reach(prog, k, k)
  }

  /** What `check_regs` accepts, stated without the worklist. */
  ghost predicate RegsAccepted(prog: seq<Insn>) {
    (exists m :: Certificate(prog, m)) && LoadsReached(prog)
  }

  /** What `ic_program_check` accepts. */
  ghost predicate Accepted(ins: seq<U64>) {
    var prog := DecodeAll(ins);
    && 0 < |prog| <= MAX_INSNS
    && (forall pc | 0 <= pc < |prog| :: InsnOk(prog, pc))
    && RegsAccepted(prog)
  }

  // ----- lattice facts about the transfer function -----

  lemma OutType(i: Insn, st: U32, r: nat)
    requires r < 16
    ensures RegType(Out(i, st), r) == if Writes(i, r) then SCALAR else RegType(st, r)
  {
    FieldOfSet(st, i.dst, SCALAR, r);
    FieldOfSet(st, 0, SCALAR, r);
  }

  lemma OutMonotone(i: Insn, a: U32, b: U32)
    requires Below(a, b)
    ensures Below(Out(i, a), Out(i, b))
  {
    SetTypeMonotone(a, b, i.dst, SCALAR);
    SetTypeMonotone(a, b, 0, SCALAR);
  }

  lemma EntryType(r: nat)
    requires r < 16
    ensures RegType(ENTRY, r) == if r == 1 then CTX else BOTTOM
  {
    FieldOfSet(0, 1, CTX, r);
    FieldOfZero(r);
  }

  /** Some register is known to be unwritten or the context pointer. */
  ghost predicate Touched(st: U32) {
    exists r :: 0 <= r < 16 && (RegType(st, r) == BOTTOM || RegType(st, r) == CTX)
  }

  /** No register is still unconstrained. */
  ghost predicate Grounded(st: U32) {
    forall r | 0 <= r < 16 :: RegType(st, r) != TOP
  }

  lemma TouchedMeet(a: U32, b: U32)
    requires Touched(And(a, b))
    ensures Touched(a) || Touched(b)
  {
    var r :| 0 <= r < 16 && (RegType(And(a, b), r) == BOTTOM || RegType(And(a, b), r) == CTX);
    FieldOfAnd(a, b, r);
    assert Meet(RegType(a, r), RegType(b, r)) == RegType(And(a, b), r);
    if RegType(a, r) == BOTTOM || RegType(a, r) == CTX {
    } else {
      assert RegType(b, r) == BOTTOM || RegType(b, r) == CTX;
    }
  }

  lemma TouchedOut(i: Insn, st: U32)
    requires Touched(Out(i, st))
    ensures Touched(st)
  {
    var r :| 0 <= r < 16 && (RegType(Out(i, st), r) == BOTTOM || RegType(Out(i, st), r) == CTX);
    OutType(i, st, r);
  }

  lemma AllTopUntouched()
    ensures !Touched(ALL_TOP)
  {
    OnesAre();
    forall r | 0 <= r < 16
      ensures RegType(ALL_TOP, r) == TOP
    {
      FieldOfOnes(r, 16);
    }
  }

  // ----- paths -----

  lemma ReachExtend(prog: seq<Insn>, n: nat, s: nat, h: nat)
    requires Reach(prog, n, h) && n < h && n < |prog| <= MAX_INSNS && s in Succ(prog[n], n)
    ensures Reach(prog, s, h)
  {
    var p :| IsPath(prog, p, h) && p[|p| - 1] == n;
    var q := p + [s];
    assert IsPath(prog, q, h);
    assert q[|q| - 1] == s;
  }

  lemma ReachMonotone(prog: seq<Insn>, n: nat, h: nat, h': nat)
    requires Reach(prog, n, h) && h <= h'
    ensures Reach(prog, n, h')
  {
    var p :| IsPath(prog, p, h) && p[|p| - 1] == n;
    assert IsPath(prog, p, h');
  }

  lemma ReachEntry(prog: seq<Insn>, h: nat)
    requires |prog| <= MAX_INSNS
    ensures Reach(prog, 0, h)
  {
    var p: seq<nat> := [0];
    assert IsPath(prog, p, h) && p[|p| - 1] == 0;
  }
}
