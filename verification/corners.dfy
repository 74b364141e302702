/** Where the check and the interpreter do not do what their names suggest, with the exact conditions. */
module Corners {
  import opened Words
  import opened Bits
  import opened Isa
  import opened RegTypes
  import opened Dataflow
  import opened Worklist
  import opened Interpreter
  import opened Execution
  import opened Admission
  import opened Packets
  import Soundness

  // ----- the check is not complete -----

  /** A load reached only by a backward jump: 0 -> 3 -> 1 -> 2. */
  function BackwardText(pc: nat): Insn
    requires pc < 4
  {
    match pc
    case 0 => Ja(2)
    case 1 => Ldxb(0, 1, 0)
    case 2 => Exit()
    case _ => Ja(-3)
  }

  function BackwardLoad(): (prog: seq<Insn>)
    ensures |prog| == 4 && forall pc | 0 <= pc < 4 :: prog[pc] == BackwardText(pc)
  {
    seq(4, pc requires 0 <= pc < 4 => BackwardText(pc))
  }

  predicate IsBackward(prog: seq<Insn>) {
    |prog| == 4 && forall pc | 0 <= pc < 4 :: prog[pc] == BackwardText(pc)
  }

  function BackwardType(pc: nat, r: nat): Type {
    if r == 1 then CTX else if r == 0 && pc == 2 then SCALAR else BOTTOM
  }

  lemma JaTyped(off: int, pc: nat)
    requires pc < 4 && 0 <= pc + 1 + off < 4 && pc + 1 + off != 2 && pc != 2
    ensures ReadsTyped(Ja(off), BackwardType, pc) && EdgesTyped(Ja(off), BackwardType, pc, 4)
  {
  }

  lemma LoadExitTyped(pc: nat)
    requires pc == 1 || pc == 2
    ensures ReadsTyped(BackwardText(pc), BackwardType, pc) && EdgesTyped(BackwardText(pc), BackwardType, pc, 4)
  {
  }

  lemma BackwardTyped(i: Insn, pc: nat)
    requires pc < 4 && i == BackwardText(pc)
    ensures ReadsTyped(i, BackwardType, pc) && EdgesTyped(i, BackwardType, pc, 4)
  {
    if pc == 0 {
      JaTyped(2, pc);
    } else if pc == 3 {
      JaTyped(-3, pc);
    } else {
      LoadExitTyped(pc);
    }
  }

  lemma BackwardCertified(prog: seq<Insn>)
    requires IsBackward(prog)
    ensures exists m :: Certificate(prog, m)
  {
    forall pc | 0 <= pc < 4
      ensures EdgesTyped(prog[pc], BackwardType, pc, 4) && ReadsTyped(prog[pc], BackwardType, pc)
    {
      BackwardTyped(prog[pc], pc);
    }
    TypingIsCertificate(prog, BackwardType);
  }

  lemma BackwardOnlyFromEntry(prog: seq<Insn>, p: seq<nat>)
    requires IsBackward(prog) && IsPath(prog, p, 1)
    ensures p[|p| - 1] != 1
  {
    if |p| > 1 {
      assert p[1] in Succ(prog[p[0]], p[0]);
      assert p[1] == 3;
    }
  }

  lemma BackwardRefused(prog: seq<Insn>)
    requires IsBackward(prog)
    ensures !LoadsReached(prog)
  {
    if Reach(prog, 1, 1) {
      var p :| IsPath(prog, p, 1) && p[|p| - 1] == 1;
      BackwardOnlyFromEntry(prog, p);
      assert false;
    }
    assert prog[1].IsLdx();
  }

  lemma BackwardRuns(env: Env, s: Machine, maxSteps: nat)
    requires IsBackward(env.prog) && Soundness.Placed(env) && |env.ctx| > 0 && maxSteps >= 4
    requires s.pc == 0 && s.regs[1] == env.base
    ensures Exec(env, s, maxSteps, 0) == RunResult(Ok, env.ctx[0], 4, s.cells)
  {
    ReachNone(env, s);
    Jump(env, s, 0, s, 2);
    Jump(env, s, 1, Goto(s, 3), -3);
    Load(env, s, 2, Goto(s, 1), Ldxb(0, 1, 0));
    LoadOne(env.ctx, 0);
    Execution.Finish(env, s, 3, Put(Goto(s, 1), 0, env.ctx[0]), maxSteps);
  }

  lemma JaEdge(i: Insn, pc: nat, target: nat)
    requires pc < 4 && target < 4 && i == Ja(target - pc - 1)
    ensures target in Succ(i, pc) && !i.IsLdx()
  {
    assert JumpTarget(pc, i.off) == target;
    assert Succ(i, pc)[0] == target;
  }

  lemma BackwardEdges(prog: seq<Insn>)
    requires IsBackward(prog)
    ensures 3 in Succ(prog[0], 0) && 1 in Succ(prog[3], 3)
    ensures !prog[0].IsLdx() && !prog[2].IsLdx() && !prog[3].IsLdx()
  {
    JaEdge(prog[0], 0, 3);
    JaEdge(prog[3], 3, 1);
    assert prog[2] == Exit();
  }

  lemma BackwardConnected(prog: seq<Insn>)
    requires |prog| == 4 && 3 in Succ(prog[0], 0) && 1 in Succ(prog[3], 3)
    requires !prog[0].IsLdx() && !prog[2].IsLdx() && !prog[3].IsLdx()
    ensures LoadsConnected(prog)
  {
    ReachEntry(prog, 4);
    ReachExtend(prog, 0, 3, 4);
    ReachExtend(prog, 3, 1, 4);
  }

  lemma BackwardOrder(prog: seq<Insn>)
    requires IsBackward(prog)
    ensures exists m :: Certificate(prog, m)
    ensures exists picks :: Schedule(prog, picks).Working? && Finished(Schedule(prog, picks).work)
  {
    BackwardCertified(prog);
    BackwardEdges(prog);
    BackwardConnected(prog);
    BackwardSources(prog);
    BestOrder(prog);
  }

  lemma BackwardSources(prog: seq<Insn>)
    requires IsBackward(prog)
    ensures forall pc | 0 <= pc < 4 :: prog[pc].src <= 10
  {
  }

  /** The check is sound, not complete: this program has a certificate, and the worklist would accept it
      in another order; it is refused because the lowest-first order comes to the load too early. */
  lemma SafeButRefused()
    ensures exists m :: Certificate(BackwardLoad(), m)
    ensures exists picks ::
              Schedule(BackwardLoad(), picks).Working? && Finished(Schedule(BackwardLoad(), picks).work)
    ensures !Accepted(Assemble(BackwardLoad()))
  {
    AssembleDecodes(BackwardLoad());
    BackwardOrder(BackwardLoad());
    BackwardRefused(BackwardLoad());
  }

  /** And every run of it on a non-empty context exits cleanly. */
  lemma RefusedButSafe(base: U64, ctx: seq<Byte>, maxSteps: nat)
    requires 8 <= base && base + |ctx| <= TWO32 && |ctx| > 0 && maxSteps >= 4
    ensures Run(Assemble(BackwardLoad()), base, ctx, maxSteps, false, []) == RunResult(Ok, ctx[0], 4, [])
  {
    var prog := BackwardLoad();
    AssembleDecodes(prog);
    BackwardRuns(Env(prog, base, ctx, false), Start(base, []), maxSteps);
  }

  // ----- 32-bit division -----

  /** r2 := 7 / r0 in 32 bits, with r0 == 2^32. */
  function LowZeroText(pc: nat): Insn
    requires pc < 5
  {
    match pc
    case 0 => Mov64I(2, 7)
    case 1 => Mov64I(0, 1)
    case 2 => Sll64I(0, 32)
    case 3 => Insn(0x3c, 2, 0, 0, 0)
    case _ => Exit()
  }

  function LowZero(): (prog: seq<Insn>)
    ensures |prog| == 5 && forall pc | 0 <= pc < 5 :: prog[pc] == LowZeroText(pc)
  {
    seq(5, pc requires 0 <= pc < 5 => LowZeroText(pc))
  }

  function LowZeroType(pc: nat, r: nat): Type {
    if r == 1 then CTX
    else if r == 2 && pc >= 1 then SCALAR
    else if r == 0 && pc >= 2 then SCALAR
    else BOTTOM
  }

  lemma LowZeroAlu(i: Insn, pc: nat)
    requires pc < 4 && i == LowZeroText(pc)
    ensures i.IsAlu() && i.dst == (if pc == 0 || pc == 3 then 2 else 0) && !DivByZeroImm(i)
    ensures forall r | 0 <= r < 11 && Reads(i, r) :: (r == 0 && pc >= 2) || (r == 2 && pc == 3)
  {
  }

  lemma LowZeroTyped(i: Insn, pc: nat)
    requires pc < 5 && i == LowZeroText(pc)
    ensures EdgesTyped(i, LowZeroType, pc, 5) && ReadsTyped(i, LowZeroType, pc)
  {
    if pc < 4 {
      LowZeroAlu(i, pc);
    }
  }

  lemma LowZeroOk(prog: seq<Insn>, pc: nat)
    requires pc < 5 == |prog| && prog[pc] == LowZeroText(pc)
    ensures InsnOk(prog, pc) && !prog[pc].IsLdx()
  {
  }

  lemma DivideByLowZero(env: Env, s: Machine)
    requires |env.prog| == 5 && env.prog[3] == LowZeroText(3) && s.pc == 3 && s.regs[0] == TWO32
    ensures Step(env, s) == Halt(Undefined, 0)
  {
  }

  lemma LowZeroRuns(env: Env, s: Machine, maxSteps: nat)
    requires |env.prog| == 5 && forall pc | 0 <= pc < 5 :: env.prog[pc] == LowZeroText(pc)
    requires s.pc == 0 && maxSteps >= 4
    ensures Exec(env, s, maxSteps, 0).fault == Undefined
  {
    LowZeroReaches(env, s);
    var s3 := Put(Put(Put(s, 2, 7), 0, 1), 0, TWO32);
    DivideByLowZero(env, s3);
    ReachExec(env, s, 3, s3, maxSteps);
  }

  lemma OneShifted()
    ensures Shl(1, 32) == TWO32 && Shl(1, 63) == TWO63
  {
    ShlIsMul(1, 32);
    ShlIsMul(1, 63);
    Pow2Values();
    assert Pow2(64) == 2 * Pow2(63);
  }

  lemma LowZeroReaches(env: Env, s: Machine)
    requires |env.prog| == 5 && forall pc | 0 <= pc < 5 :: env.prog[pc] == LowZeroText(pc)
    requires s.pc == 0
    ensures Reaches(env, s, 3, Put(Put(Put(s, 2, 7), 0, 1), 0, TWO32))
  {
    ReachNone(env, s);
    MoveImm(env, s, 0, s, 2, 7);
    var s1 := Put(s, 2, 7);
    MoveImm(env, s, 1, s1, 0, 1);
    var s2 := Put(s1, 0, 1);
    OneShifted();
    ShiftLeft(env, s, 2, s2, 0, 32);
  }

  /** An accepted program whose division passes the zero test on 64 bits and divides by a zero low word. */
  lemma AcceptedButUndefined(base: U64, ctx: seq<Byte>, maxSteps: nat, hasMap: bool, cells: seq<U32>)
    requires maxSteps >= 4
    ensures Accepted(Assemble(LowZero()))
    ensures Run(Assemble(LowZero()), base, ctx, maxSteps, hasMap, cells).fault == Undefined
  {
    var prog := LowZero();
    AssembleDecodes(prog);
    forall pc | 0 <= pc < 5
      ensures InsnOk(prog, pc) && !prog[pc].IsLdx()
      ensures EdgesTyped(prog[pc], LowZeroType, pc, 5) && ReadsTyped(prog[pc], LowZeroType, pc)
    {
      LowZeroOk(prog, pc);
      LowZeroTyped(prog[pc], pc);
    }
    TypingIsCertificate(prog, LowZeroType);
    LowZeroRuns(Env(prog, base, ctx, hasMap), Start(base, cells), maxSteps);
  }

  // ----- negation -----

  /** r0 := -r0, with r0 == 2^63. */
  function NegateText(pc: nat): Insn
    requires pc < 4
  {
    match pc
    case 0 => Mov64I(0, 1)
    case 1 => Sll64I(0, 63)
    case 2 => Insn(0x87, 0, 0, 0, 0)
    case _ => Exit()
  }

  function Negate(): (prog: seq<Insn>)
    ensures |prog| == 4 && forall pc | 0 <= pc < 4 :: prog[pc] == NegateText(pc)
  {
    seq(4, pc requires 0 <= pc < 4 => NegateText(pc))
  }

  function NegateType(pc: nat, r: nat): Type {
    if r == 1 then CTX else if r == 0 && pc >= 1 then SCALAR else BOTTOM
  }

  lemma NegateAlu(i: Insn, pc: nat)
    requires pc < 3 && i == NegateText(pc)
    ensures i.IsAlu() && i.dst == 0 && !DivByZeroImm(i)
    ensures forall r | 0 <= r < 11 && Reads(i, r) :: r == 0 && pc >= 1
  {
  }

  lemma NegateTyped(i: Insn, pc: nat)
    requires pc < 4 && i == NegateText(pc)
    ensures EdgesTyped(i, NegateType, pc, 4) && ReadsTyped(i, NegateType, pc)
  {
    if pc < 3 {
      NegateAlu(i, pc);
    }
  }

  lemma NegateOk(prog: seq<Insn>, pc: nat)
    requires pc < 4 == |prog| && prog[pc] == NegateText(pc)
    ensures InsnOk(prog, pc) && !prog[pc].IsLdx()
  {
  }

  lemma NegateLeast(env: Env, s: Machine)
    requires |env.prog| == 4 && env.prog[2] == NegateText(2) && s.pc == 2 && s.regs[0] == TWO63
    ensures Step(env, s) == Halt(Undefined, 0)
  {
  }

  lemma NegateRuns(env: Env, s: Machine, maxSteps: nat)
    requires |env.prog| == 4 && forall pc | 0 <= pc < 4 :: env.prog[pc] == NegateText(pc)
    requires s.pc == 0 && maxSteps >= 3
    ensures Exec(env, s, maxSteps, 0).fault == Undefined
  {
    NegateReaches(env, s);
    var s2 := Put(Put(s, 0, 1), 0, TWO63);
    NegateLeast(env, s2);
    ReachExec(env, s, 2, s2, maxSteps);
  }

  lemma NegateReaches(env: Env, s: Machine)
    requires |env.prog| == 4 && forall pc | 0 <= pc < 4 :: env.prog[pc] == NegateText(pc)
    requires s.pc == 0
    ensures Reaches(env, s, 2, Put(Put(s, 0, 1), 0, TWO63))
  {
    ReachNone(env, s);
    MoveImm(env, s, 0, s, 0, 1);
    var s1 := Put(s, 0, 1);
    OneShifted();
    ShiftLeft(env, s, 1, s1, 0, 63);
  }

  /** An accepted program that negates -2^63, which overflows the signed type the source negates in. */
  lemma AcceptedButOverflows(base: U64, ctx: seq<Byte>, maxSteps: nat, hasMap: bool, cells: seq<U32>)
    requires maxSteps >= 3
    ensures Accepted(Assemble(Negate()))
    ensures Run(Assemble(Negate()), base, ctx, maxSteps, hasMap, cells).fault == Undefined
  {
    var prog := Negate();
    AssembleDecodes(prog);
    forall pc | 0 <= pc < 4
      ensures InsnOk(prog, pc) && !prog[pc].IsLdx()
      ensures EdgesTyped(prog[pc], NegateType, pc, 4) && ReadsTyped(prog[pc], NegateType, pc)
    {
      NegateOk(prog, pc);
      NegateTyped(prog[pc], pc);
    }
    TypingIsCertificate(prog, NegateType);
    NegateRuns(Env(prog, base, ctx, hasMap), Start(base, cells), maxSteps);
  }

  // ----- what C leaves open, exactly -----

  /** The machine is about to do what C leaves open: divide in 32 bits by a register that is not
      zero but whose low word is, or negate -2^63. */
  predicate Open(i: Insn, regs: RegFile) {
    && i.dst < 10 && i.src <= 10
    && if Soundness.Negation(i) then regs[i.dst] == TWO63
       else Soundness.LowDivision(i) && regs[i.src] != 0 && regs[i.src] % TWO32 == 0
  }

  /** With a context above the first eight bytes those are the only steps C leaves open, for any program. */
  lemma UndefinedExactly(env: Env, s: Machine)
    requires s.pc < |env.prog| && 8 <= env.base && |env.ctx| < TWO32
    ensures var i := env.prog[s.pc];
            (Step(env, s).Halt? && Step(env, s).fault == Undefined) <==> Open(i, s.regs)
  {
    var i := env.prog[s.pc];
    if i.IsLdx() && i.dst <= 10 && i.src <= 10 {
      Soundness.BoundsExact(env.base, LoadSize(i.opcode));
      var addr := LoadAddr(s.regs[i.src], i.off);
      assert BoundsPass(addr, env.base, LoadSize(i.opcode), |env.ctx|)
        <==> InContext(addr, env.base, LoadSize(i.opcode), |env.ctx|);
    }
  }

  lemma StopsOpen(env: Env, s: Machine)
    requires Stops(env, s, Undefined) && 8 <= env.base && |env.ctx| < TWO32
    ensures s.pc < |env.prog| && Open(env.prog[s.pc], s.regs)
  {
    UndefinedExactly(env, s);
  }

  /** A run of any program has an open result if and only if it gets to such a step in time. */
  lemma OpenRunsExactly(env: Env, s: Machine, maxSteps: nat)
    requires 8 <= env.base && |env.ctx| < TWO32
    ensures Exec(env, s, maxSteps, 0).fault == Undefined <==>
            exists n: nat, s' ::
              n < maxSteps && Reaches(env, s, n, s') && s'.pc < |env.prog| && Open(env.prog[s'.pc], s'.regs)
  {
    if Exec(env, s, maxSteps, 0).fault == Undefined {
      var n, s' := RunEnds(env, s, maxSteps, Exec(env, s, maxSteps, 0));
      StopsOpen(env, s');
    }
    forall n: nat, s' |
      n < maxSteps && Reaches(env, s, n, s') && s'.pc < |env.prog| && Open(env.prog[s'.pc], s'.regs)
      ensures Exec(env, s, maxSteps, 0).fault == Undefined
    {
      UndefinedExactly(env, s');
      ReachExec(env, s, n, s', maxSteps);
    }
  }
}
