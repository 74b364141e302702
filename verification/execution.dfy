/** Symbolic execution of single instructions, for programs whose text is known. */
module Execution {
  import opened Words
  import opened Bits
  import opened Isa
  import opened Interpreter
  import Soundness
  import opened Dataflow

  predicate At(env: Env, s: Machine, i: Insn) {
    s.pc < |env.prog| <= MAX_INSNS && env.prog[s.pc] == i
  }

  function Put(s: Machine, d: nat, v: U64): Machine
    requires d < 11 && s.pc < MAX_INSNS
  {
    Machine(s.regs[d := v], s.pc + 1, s.cells)
  }

  function Goto(s: Machine, pc: U32): Machine {
    s.(pc := pc)
  }

  /** A context load off the context pointer. */
  lemma Load(env: Env, s0: Machine, n: nat, s: Machine, i: Insn)
    requires Reaches(env, s0, n, s) && At(env, s, i) && Soundness.Placed(env) &&
             (i.opcode == 0x71 || i.opcode == 0x69 || i.opcode == 0x61)
    requires i.dst < 10 && i.src < 10 && s.regs[i.src] == env.base
    requires 0 <= i.off && i.off + LoadSize(i.opcode) <= |env.ctx| && i.off < 0x8000
    ensures var v := LoadLe(env.ctx[i.off..i.off + LoadSize(i.opcode)]);
            v < TWO64 && Reaches(env, s0, n + 1, Put(s, i.dst, v))
  {
    assert i.IsLdx() && OpcodeKnown(i.opcode);
    Soundness.AddrFromBase(env, i);
    Soundness.LoadExact(env, s);
    assert LoadAddr(s.regs[i.src], i.off) - env.base == i.off;
    ReachOne(env, s0, n, s, Put(s, i.dst, LoadLe(env.ctx[i.off..i.off + LoadSize(i.opcode)])));
  }

  /** The fields of an ALU64 instruction and the value it works on. */
  predicate Works(s: Machine, i: Insn, op: int, srcX: bool, arg: U64) {
    && i.Cls() == CLS_ALU64 && i.dst < 10 && i.src <= 10 && i.Op() == op && i.SrcX() == srcX
    && AluArg(s.regs, i) == arg
  }

  /** An ALU64 instruction whose operation yields a value. */
  lemma Compute(env: Env, s0: Machine, n: nat, s: Machine, i: Insn, op: int, srcX: bool, arg: U64, w: U64)
    requires Reaches(env, s0, n, s) && At(env, s, i) && Works(s, i, op, srcX, arg)
    requires Alu(op, true, srcX, i.imm, if op == ALU_MOV then 0 else s.regs[i.dst], arg) == Value(w)
    ensures Reaches(env, s0, n + 1, Put(s, i.dst, w))
  {
    ReachOne(env, s0, n, s, Put(s, i.dst, w));
  }

  lemma MoveImm(env: Env, s0: Machine, n: nat, s: Machine, d: Nibble, imm: nat)
    requires Reaches(env, s0, n, s) && At(env, s, Mov64I(d, imm)) && d < 10 && imm < TWO32
    ensures Reaches(env, s0, n + 1, Put(s, d, imm))
  {
    Compute(env, s0, n, s, Mov64I(d, imm), ALU_MOV, false, imm, imm);
  }

  lemma Move(env: Env, s0: Machine, n: nat, s: Machine, d: Nibble, r: Nibble)
    requires Reaches(env, s0, n, s) && At(env, s, Mov64(d, r)) && d < 10 && r <= 10
    ensures Reaches(env, s0, n + 1, Put(s, d, s.regs[r]))
  {
    Compute(env, s0, n, s, Mov64(d, r), ALU_MOV, true, s.regs[r], s.regs[r]);
  }

  lemma Fits(w: U64)
    ensures ToU64(w) == w
  {
  }

  lemma LshAlu(amount: nat, v: U64, w: U64)
    requires amount < 64 && w == Shl(v, amount)
    ensures Alu(ALU_LSH, true, false, amount, v, amount) == Value(w)
  {
    Fits(w);
  }

  lemma RshAlu(amount: nat, v: U64, w: U64)
    requires amount < 64 && w == Shr(v, amount)
    ensures Alu(ALU_RSH, true, false, amount, v, amount) == Value(w)
  {
    Fits(w);
  }

  lemma ShiftLeft(env: Env, s0: Machine, n: nat, s: Machine, d: Nibble, amount: nat)
    requires Reaches(env, s0, n, s) && At(env, s, Sll64I(d, amount)) && d < 10 && amount < 64 &&
             Shl(s.regs[d], amount) < TWO64
    ensures Reaches(env, s0, n + 1, Put(s, d, Shl(s.regs[d], amount)))
  {
    LshAlu(amount, s.regs[d], Shl(s.regs[d], amount));
    Compute(env, s0, n, s, Sll64I(d, amount), ALU_LSH, false, amount, Shl(s.regs[d], amount));
  }

  lemma ShiftRight(env: Env, s0: Machine, n: nat, s: Machine, d: Nibble, amount: nat)
    requires Reaches(env, s0, n, s) && At(env, s, Rsh64I(d, amount)) && d < 10 && amount < 64
    ensures Shr(s.regs[d], amount) < TWO64 && Reaches(env, s0, n + 1, Put(s, d, Shr(s.regs[d], amount)))
  {
    ShrShrinks(s.regs[d], amount);
    RshAlu(amount, s.regs[d], Shr(s.regs[d], amount));
    Compute(env, s0, n, s, Rsh64I(d, amount), ALU_RSH, false, amount, Shr(s.regs[d], amount));
  }

  lemma MaskImm(env: Env, s0: Machine, n: nat, s: Machine, d: Nibble, imm: nat)
    requires Reaches(env, s0, n, s) && At(env, s, And64I(d, imm)) && d < 10 && imm < 0x8000_0000
    ensures Reaches(env, s0, n + 1, Put(s, d, And(s.regs[d], imm)))
  {
    Compute(env, s0, n, s, And64I(d, imm), ALU_AND, false, imm, And(s.regs[d], imm));
  }

  lemma AddImm(env: Env, s0: Machine, n: nat, s: Machine, d: Nibble, imm: nat)
    requires Reaches(env, s0, n, s) && At(env, s, Add64I(d, imm)) && d < 10 && imm < 0x8000_0000
    ensures Reaches(env, s0, n + 1, Put(s, d, ToU64(s.regs[d] + imm)))
  {
    Compute(env, s0, n, s, Add64I(d, imm), ALU_ADD, false, imm, ToU64(s.regs[d] + imm));
  }

  lemma SubImm(env: Env, s0: Machine, n: nat, s: Machine, d: Nibble, imm: nat)
    requires Reaches(env, s0, n, s) && At(env, s, Sub64I(d, imm)) && d < 10 && imm < 0x8000_0000
    ensures Reaches(env, s0, n + 1, Put(s, d, ToU64(s.regs[d] - imm)))
  {
    Compute(env, s0, n, s, Sub64I(d, imm), ALU_SUB, false, imm, ToU64(s.regs[d] - imm));
  }

  lemma OrAlu(imm: int, v: U64, arg: U64, w: U64)
    requires w == Or(v, arg)
    ensures Alu(ALU_OR, true, true, imm, v, arg) == Value(w)
  {
    Fits(w);
  }

  lemma OrReg(env: Env, s0: Machine, n: nat, s: Machine, d: Nibble, r: Nibble)
    requires Reaches(env, s0, n, s) && At(env, s, Or64(d, r)) && d < 10 && r <= 10 && Or(s.regs[d], s.regs[r]) < TWO64
    ensures Reaches(env, s0, n + 1, Put(s, d, Or(s.regs[d], s.regs[r])))
  {
    OrAlu(0, s.regs[d], s.regs[r], Or(s.regs[d], s.regs[r]));
    Compute(env, s0, n, s, Or64(d, r), ALU_OR, true, s.regs[r], Or(s.regs[d], s.regs[r]));
  }

  /** The three immediate comparisons the policies use. */
  lemma Branch(env: Env, s0: Machine, n: nat, s: Machine, i: Insn)
    requires Reaches(env, s0, n, s) && At(env, s, i) && (i.opcode == 0x15 || i.opcode == 0x55 || i.opcode == 0x25)
    requires i.dst <= 10 && i.src == 0 && 0 <= i.imm < 0x8000_0000 && 0 <= i.off < 0x8000
    ensures var v := s.regs[i.dst];
            var taken := if i.opcode == 0x15 then v == i.imm else if i.opcode == 0x55 then v != i.imm else v > i.imm;
            Reaches(env, s0, n + 1, Goto(s, if taken then s.pc + 1 + i.off else s.pc + 1))
  {
    var v := s.regs[i.dst];
    var taken := if i.opcode == 0x15 then v == i.imm else if i.opcode == 0x55 then v != i.imm else v > i.imm;
    ReachOne(env, s0, n, s, Goto(s, if taken then s.pc + 1 + i.off else s.pc + 1));
  }

  lemma Jump(env: Env, s0: Machine, n: nat, s: Machine, off: int)
    requires Reaches(env, s0, n, s) && At(env, s, Ja(off)) && 0 <= s.pc + 1 + off < TWO32
    ensures Reaches(env, s0, n + 1, Goto(s, s.pc + 1 + off))
  {
    assert JumpTarget(s.pc, off) == s.pc + 1 + off;
    ReachOne(env, s0, n, s, Goto(s, s.pc + 1 + off));
  }

  lemma CallLoad(env: Env, s0: Machine, n: nat, s: Machine)
    requires Reaches(env, s0, n, s) && At(env, s, CallHelper(1)) && env.hasMap && PowerOfTwo(|s.cells|)
    ensures Reaches(env, s0, n + 1, Put(s, 0, s.cells[Cell(s.regs[1], |s.cells|)]))
  {
    ReachOne(env, s0, n, s, Put(s, 0, s.cells[Cell(s.regs[1], |s.cells|)]));
  }

  lemma CallStore(env: Env, s0: Machine, n: nat, s: Machine)
    requires Reaches(env, s0, n, s) && At(env, s, CallHelper(2)) && env.hasMap && PowerOfTwo(|s.cells|)
    ensures var cells := s.cells[Cell(s.regs[1], |s.cells|) := s.regs[2] % TWO32];
            Reaches(env, s0, n + 1, Machine(s.regs[0 := 0], s.pc + 1, cells))
  {
    ReachOne(env, s0, n, s,
             Machine(s.regs[0 := 0], s.pc + 1, s.cells[Cell(s.regs[1], |s.cells|) := s.regs[2] % TWO32]));
  }

  /** A run that reaches EXIT returns r0. */
  lemma Finish(env: Env, s: Machine, n: nat, s': Machine, maxSteps: nat)
    requires Reaches(env, s, n, s') && At(env, s', Exit()) && n < maxSteps
    ensures Exec(env, s, maxSteps, 0) == RunResult(Ok, s'.regs[0], n + 1, s'.cells)
  {
    ReachExec(env, s, n, s', maxSteps);
    assert Step(env, s') == Halt(Ok, s'.regs[0]);
  }
}
