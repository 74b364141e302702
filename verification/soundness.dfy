/** What acceptance by the load-time check means for every run of the interpreter. */
module Soundness {
  import opened Words
  import opened Bits
  import opened Isa
  import opened RegTypes
  import opened Dataflow
  import opened Interpreter

  ghost predicate Checked(prog: seq<Insn>, m: seq<U32>) {
    Certificate(prog, m) && forall pc | 0 <= pc < |prog| :: InsnOk(prog, pc)
  }

  lemma AcceptedHasCertificate(ins: seq<U64>) returns (m: seq<U32>)
    requires Accepted(ins)
    ensures Checked(DecodeAll(ins), m)
  {
    m :| Certificate(DecodeAll(ins), m);
  }

  /** The machine agrees with the certificate: the pc is inside, r10 was never written,
      and a register typed as context pointer holds the context pointer. */
  predicate Typed(m: seq<U32>, base: U64, s: Machine) {
    && s.pc < |m|
    && RegType(m[s.pc], 10) == BOTTOM
    && (forall r | 0 <= r < 11 :: RegType(m[s.pc], r) != TOP)
    && forall r | 0 <= r < 11 && RegType(m[s.pc], r) == CTX :: s.regs[r] == base
  }

  // ----- one step -----

  /** A step follows a modelled edge and changes only what the tables say it writes. */
  lemma StepShape(env: Env, s: Machine)
    requires s.pc < |env.prog| <= MAX_INSNS && Step(env, s).Next?
    ensures var i, s' := env.prog[s.pc], Step(env, s).m;
            && s'.pc in Succ(i, s.pc)
            && (forall r | 0 <= r < 11 && !Writes(i, r) :: s'.regs[r] == s.regs[r])
            && !(Writes(i, 10))
            && |s'.cells| == |s.cells|
  {
  }

  /** Along a satisfied edge the certificate keeps describing the machine. */
  lemma TypedAlong(prog: seq<Insn>, m: seq<U32>, base: U64, s: Machine, s': Machine)
    requires Checked(prog, m) && Typed(m, base, s) && s'.pc in Succ(prog[s.pc], s.pc)
    requires forall r | 0 <= r < 11 && !Writes(prog[s.pc], r) :: s'.regs[r] == s.regs[r]
    requires !Writes(prog[s.pc], 10)
    ensures Typed(m, base, s')
  {
    var i := prog[s.pc];
    assert Flows(prog, m, s.pc) && Stays(prog, s.pc);
    forall r | 0 <= r < 11
      ensures TypeBelow(RegType(m[s'.pc], r), if Writes(i, r) then SCALAR else RegType(m[s.pc], r))
    {
      BelowType(m[s'.pc], Out(i, m[s.pc]), r);
      OutType(i, m[s.pc], r);
    }
  }

  lemma TypedStep(env: Env, m: seq<U32>, s: Machine, s': Machine)
    requires Checked(env.prog, m) && Typed(m, env.base, s) && Goes(env, s, s')
    ensures Typed(m, env.base, s') && |s'.cells| == |s.cells|
  {
    StepShape(env, s);
    TypedAlong(env.prog, m, env.base, s, s');
  }

  lemma EntryTyped(ins: seq<U64>, m: seq<U32>, base: U64, cells: seq<U32>)
    requires Checked(DecodeAll(ins), m)
    ensures Typed(m, base, Start(base, cells))
  {
    forall r | 0 <= r < 11
      ensures TypeBelow(RegType(m[0], r), if r == 1 then CTX else BOTTOM)
    {
      BelowType(m[0], ENTRY, r);
      EntryType(r);
    }
  }

  predicate LoadInside(i: Insn, ctxSize: nat) {
    0 <= i.off && i.off + LoadSize(i.opcode) <= ctxSize
  }

  /** A 32-bit division or modulo by a register: C leaves the result open when only its low word is zero. */
  predicate LowDivision(i: Insn) {
    i.Cls() == CLS_ALU && (i.Op() == ALU_DIV || i.Op() == ALU_MOD) && i.SrcX()
  }

  /** A negation: C leaves the result open for the one value whose negation does not fit. */
  predicate Negation(i: Insn) {
    i.IsAlu() && i.Op() == ALU_NEG
  }

  /** A context as the platform lays it out: not in the first 8 bytes, inside the address space. */
  predicate Placed(env: Env) {
    8 <= env.base && env.base + |env.ctx| <= TWO32
  }

  /** The bounds test of a load is exact when the context does not sit below the load size. */
  lemma BoundsExact(base: U64, size: nat)
    requires size == 1 || size == 2 || size == 4 || size == 8
    ensures (forall addr: U64, n: U32 :: BoundsPass(addr, base, size, n) <==> InContext(addr, base, size, n))
       <==> base >= size
  {
    if base >= size {
      forall addr: U64, n: U32
        ensures BoundsPass(addr, base, size, n) <==> InContext(addr, base, size, n)
      {
        if addr >= base {
          assert ToU64(addr - base + size) == addr - base + size;
        }
      }
    } else {
      var addr: U64, n: U32 := TWO64 + base - size, 0;
      assert BoundsPass(addr, base, size, n) && !InContext(addr, base, size, n);
    }
  }

  lemma LoadFits(bytes: seq<Byte>)
    requires |bytes| <= 8
    ensures LoadLe(bytes) < TWO64
  {
    LoadLeBound(bytes);
    Pow2Grows(8 * |bytes|, 64);
    Pow2Values();
  }

  lemma LdxDelivers(env: Env, s: Machine, i: Insn, addr: U64, size: nat, bytes: seq<Byte>)
    requires i.IsLdx() && i.dst < 10 && i.src < 10 && OpcodeKnown(i.opcode)
    requires addr == LoadAddr(s.regs[i.src], i.off) && size == LoadSize(i.opcode)
    requires InContext(addr, env.base, size, |env.ctx|) && BoundsPass(addr, env.base, size, |env.ctx|)
    requires bytes == env.ctx[addr - env.base..addr - env.base + size]
    ensures LoadLe(bytes) < TWO64
    ensures StepLdx(env, s, i) == Next(s.(regs := s.regs[i.dst := LoadLe(bytes)], pc := ToU32(s.pc + 1)))
  {
    LoadFits(bytes);
  }

  /** Any load of any program, verified or not: it succeeds exactly when its whole range
      is in the context, and then delivers the little-endian value. */
  lemma LoadExact(env: Env, s: Machine)
    requires s.pc < |env.prog| && Placed(env)
    requires var i := env.prog[s.pc]; i.IsLdx() && i.dst < 10 && i.src < 10 && OpcodeKnown(i.opcode)
    ensures var i := env.prog[s.pc];
            var size, addr := LoadSize(i.opcode), LoadAddr(s.regs[i.src], i.off);
            if InContext(addr, env.base, size, |env.ctx|) then
              var at := addr - env.base;
              var v := LoadLe(env.ctx[at..at + size]);
              v < TWO64 && Step(env, s) == Next(s.(regs := s.regs[i.dst := v], pc := ToU32(s.pc + 1)))
            else Step(env, s) == Halt(Mem, 0)
  {
    var i := env.prog[s.pc];
    var size, addr := LoadSize(i.opcode), LoadAddr(s.regs[i.src], i.off);
    assert Step(env, s) == StepLdx(env, s, i);
    BoundsExact(env.base, size);
    assert BoundsPass(addr, env.base, size, |env.ctx|) <==> InContext(addr, env.base, size, |env.ctx|);
    if InContext(addr, env.base, size, |env.ctx|) {
      LdxDelivers(env, s, i, addr, size, env.ctx[addr - env.base..addr - env.base + size]);
    }
  }

  /** How an operation of a checked opcode, 0x10 * q, can fail. */
  lemma OperationFaults(q: nat, is64: bool, srcX: bool, imm: int, v: U64, arg: U64)
    requires q <= 12 || (q == 13 && (srcX ==> imm == 16 || imm == 32 || imm == 64))
    requires Alu(0x10 * q, is64, srcX, imm, v, arg).AluFault?
    ensures var f := Alu(0x10 * q, is64, srcX, imm, v, arg).fault;
            || f == Div0
            || (f == Undefined && (q == 8 || (!is64 && arg >= TWO32 && (q == 3 || q == 9))))
  {
  }

  lemma AluFaults(s: Machine, i: Insn)
    requires i.dst <= 10 && i.src <= 10 && i.IsAlu() && OpcodeKnown(i.opcode) && StepAlu(s, i).Halt?
    requires i.Op() == ALU_END && i.SrcX() ==> i.imm == 16 || i.imm == 32 || i.imm == 64
    ensures var f := StepAlu(s, i).fault;
            f == Fp || f == Div0 || (f == Undefined && (LowDivision(i) || Negation(i)))
  {
    if i.dst < 10 {
      var q := i.opcode / 0x10;
      assert i.Op() == 0x10 * q;
      var v := if i.Op() == ALU_MOV then 0 else s.regs[i.dst];
      OperationFaults(q, i.Cls() == CLS_ALU64, i.SrcX(), i.imm, v, AluArg(s.regs, i));
    }
  }

  lemma JmpFaults(env: Env, prog: seq<Insn>, s: Machine)
    requires s.pc < |prog| && InsnOk(prog, s.pc) && prog[s.pc].IsJmp() && StepJmp(env, s, prog[s.pc]).Halt?
    ensures var f := StepJmp(env, s, prog[s.pc]).fault;
            f == Ok || (f == Call && (!env.hasMap || !PowerOfTwo(|s.cells|)))
  {
  }

  lemma LdxFaults(env: Env, s: Machine, i: Insn)
    requires i.dst < 10 && i.src < 10 && i.IsLdx() && OpcodeKnown(i.opcode) && -0x8000 <= i.off < 0x8000
    requires s.regs[i.src] == env.base && StepLdx(env, s, i).Halt?
    ensures var f := StepLdx(env, s, i).fault;
            && (f == Mem || f == Undefined)
            && (Placed(env) ==> f == Mem && !LoadInside(i, |env.ctx|))
  {
    BoundsExact(env.base, LoadSize(i.opcode));
    AddrFromBase(env, i);
    if Placed(env) {
      assert BoundsPass(LoadAddr(env.base, i.off), env.base, LoadSize(i.opcode), |env.ctx|)
        <==> InContext(LoadAddr(env.base, i.off), env.base, LoadSize(i.opcode), |env.ctx|);
    }
  }

  /** A load of a checked program: its base register holds the context pointer. */
  lemma TypedBase(prog: seq<Insn>, m: seq<U32>, base: U64, s: Machine, i: Insn)
    requires Checked(prog, m) && Typed(m, base, s) && i == prog[s.pc] && i.IsLdx()
    ensures i.dst < 10 && i.src < 10 && OpcodeKnown(i.opcode) && s.regs[i.src] == base
  {
    assert InsnOk(prog, s.pc) && LocalOk(i, m[s.pc]);
    assert Reads(i, i.src);
  }

  /** How a checked program can stop at a well-typed machine. */
  lemma StepFaults(env: Env, m: seq<U32>, s: Machine)
    requires Checked(env.prog, m) && Typed(m, env.base, s) && Step(env, s).Halt?
    requires -0x8000 <= env.prog[s.pc].off < 0x8000
    ensures var f, i := Step(env, s).fault, env.prog[s.pc];
            && f != Pc && f != Opcode && f != Store && f != Steps
            && (f == Call ==> !env.hasMap || !PowerOfTwo(|s.cells|))
            && (f == Mem && Placed(env) ==> i.IsLdx() && !LoadInside(i, |env.ctx|))
            && (f == Undefined && Placed(env) ==> LowDivision(i) || Negation(i))
  {
    var i := env.prog[s.pc];
    assert InsnOk(env.prog, s.pc) && LocalOk(i, m[s.pc]);
    if i.IsAlu() {
      AluFaults(s, i);
    } else if i.IsJmp() {
      JmpFaults(env, env.prog, s);
    } else {
      TypedBase(env.prog, m, env.base, s, i);
      LdxFaults(env, s, i);
    }
  }

  /** A load off the context pointer is in range exactly when its offset says so. */
  lemma AddrFromBase(env: Env, i: Insn)
    requires -0x8000 <= i.off < 0x8000
    ensures Placed(env) ==>
              (InContext(LoadAddr(env.base, i.off), env.base, LoadSize(i.opcode), |env.ctx|)
               <==> LoadInside(i, |env.ctx|))
  {
    if Placed(env) {
      if env.base + i.off >= 0 {
        assert LoadAddr(env.base, i.off) == env.base + i.off;
      } else {
        assert LoadAddr(env.base, i.off) == env.base + i.off + TWO64;
      }
    }
  }

  lemma {:induction false} ReachTyped(env: Env, m: seq<U32>, s: Machine, n: nat, s': Machine)
    requires Checked(env.prog, m) && Typed(m, env.base, s) && Reaches(env, s, n, s')
    ensures Typed(m, env.base, s') && |s'.cells| == |s.cells|
    decreases n
  {
    if n > 0 {
      var mid := ReachBack(env, s, n, s');
      ReachTyped(env, m, s, n - 1, mid);
      TypedStep(env, m, mid, s');
    }
  }

  lemma ReachedIsTyped(ins: seq<U64>, env: Env, cells: seq<U32>, n: nat, s: Machine) returns (m: seq<U32>)
    requires Accepted(ins) && env.prog == DecodeAll(ins) && Reaches(env, Start(env.base, cells), n, s)
    ensures Checked(env.prog, m) && Typed(m, env.base, s) && |s.cells| == |cells|
  {
    m := AcceptedHasCertificate(ins);
    EntryTyped(ins, m, env.base, cells);
    ReachTyped(env, m, Start(env.base, cells), n, s);
  }

  // ----- whole runs -----

  /** The claim about the result of a run from a well-typed machine. */
  ghost predicate RunClaim(env: Env, cells: nat, r: RunResult) {
    && r.fault != Pc && r.fault != Opcode && r.fault != Store
    && (r.fault == Call ==> !env.hasMap || !PowerOfTwo(cells))
    && (r.fault == Mem && Placed(env) ==>
          exists pc :: 0 <= pc < |env.prog| && env.prog[pc].IsLdx() && !LoadInside(env.prog[pc], |env.ctx|))
    && (r.fault == Undefined && Placed(env) ==>
          exists pc :: 0 <= pc < |env.prog| && (LowDivision(env.prog[pc]) || Negation(env.prog[pc])))
  }

  lemma StopSound(env: Env, m: seq<U32>, s: Machine, r: RunResult)
    requires Checked(env.prog, m) && Typed(m, env.base, s) && Stops(env, s, r.fault)
    requires InRange(env.prog[s.pc])
    ensures RunClaim(env, |s.cells|, r)
  {
    StepFaults(env, m, s);
  }

  /** The safety theorem of the gate: an accepted program never runs off the image, never
      meets an opcode the interpreter refuses, never stores, never misuses a helper once a
      power-of-two map is attached; it faults on memory only if one of its loads has an
      offset outside the context, and C leaves its result open only if it divides by the
      low word of a register or negates one. */
  lemma VerifierSound(ins: seq<U64>, base: U64, ctx: seq<Byte>, maxSteps: nat, hasMap: bool, cells: seq<U32>)
    requires Accepted(ins)
    ensures RunClaim(Env(DecodeAll(ins), base, ctx, hasMap), |cells|, Run(ins, base, ctx, maxSteps, hasMap, cells))
  {
    var env, r := Env(DecodeAll(ins), base, ctx, hasMap), Run(ins, base, ctx, maxSteps, hasMap, cells);
    if r.fault != Steps {
      var n, s := RunEnds(env, Start(base, cells), maxSteps, r);
      var m := ReachedIsTyped(ins, env, cells, n, s);
      EncodeDecode(ins[s.pc]);
      StopSound(env, m, s, r);
    }
  }

  // ----- every machine a run reaches -----

  /** What a checked program does at a load: the base is the context pointer, and with a placed
      context the offset alone decides between the little-endian value and the memory fault. */
  predicate LoadDecided(env: Env, s: Machine, i: Insn)
    requires s.pc < |env.prog|
  {
    && i.dst < 10 && i.src < 10 && s.regs[i.src] == env.base
    && (Placed(env) ==>
          if LoadInside(i, |env.ctx|) then
            var v := LoadLe(env.ctx[i.off..i.off + LoadSize(i.opcode)]);
            v < TWO64 && Step(env, s) == Next(s.(regs := s.regs[i.dst := v], pc := ToU32(s.pc + 1)))
          else Step(env, s) == Halt(Mem, 0))
  }

  lemma OffsetDecides(env: Env, i: Insn, addr: U64)
    requires Placed(env) && -0x8000 <= i.off < 0x8000 && addr == LoadAddr(env.base, i.off)
    ensures InContext(addr, env.base, LoadSize(i.opcode), |env.ctx|) <==> LoadInside(i, |env.ctx|)
    ensures LoadInside(i, |env.ctx|) ==> addr - env.base == i.off
  {
    AddrFromBase(env, i);
  }

  lemma TypedLoad(env: Env, m: seq<U32>, s: Machine, i: Insn)
    requires Checked(env.prog, m) && Typed(m, env.base, s) && i == env.prog[s.pc] && i.IsLdx() && InRange(i)
    ensures LoadDecided(env, s, i)
  {
    TypedBase(env.prog, m, env.base, s, i);
    if Placed(env) {
      LoadExact(env, s);
      OffsetDecides(env, i, LoadAddr(env.base, i.off));
    }
  }

  /** At every machine any run of an accepted program reaches, the pc is inside the image and a load
      is decided by its offset: it faults exactly when its range is not inside the context. */
  lemma EveryMachine(ins: seq<U64>, env: Env, cells: seq<U32>, n: nat, s: Machine)
    requires Accepted(ins) && env.prog == DecodeAll(ins) && Reaches(env, Start(env.base, cells), n, s)
    ensures s.pc < |ins|
    ensures env.prog[s.pc].IsLdx() ==> LoadDecided(env, s, env.prog[s.pc])
  {
    var m := ReachedIsTyped(ins, env, cells, n, s);
    EncodeDecode(ins[s.pc]);
    if env.prog[s.pc].IsLdx() {
      TypedLoad(env, m, s, env.prog[s.pc]);
    }
  }

  predicate StoringCall(i: Insn) {
    i.Cls() == CLS_JMP && i.Op() == JMP_CALL && i.imm == 2
  }

  /** The only memory a step writes is the one map cell the helper index selects. */
  lemma StepCells(env: Env, s: Machine)
    requires s.pc < |env.prog| && Step(env, s).Next?
    ensures var s' := Step(env, s).m;
            && |s'.cells| == |s.cells|
            && (StoringCall(env.prog[s.pc]) || s'.cells == s.cells)
            && (forall c | 0 <= c < |s.cells| && c != And(s.regs[1] % TWO32, |s.cells| - 1) ::
                  s'.cells[c] == s.cells[c])
  {
  }

  lemma StepNotSteps(env: Env, s: Machine)
    requires s.pc < |env.prog|
    ensures Step(env, s).Halt? ==> Step(env, s).fault != Steps
  {
  }

  /** For every program, verified or not: the step cap is never exceeded and is used up when
      the run ends in the steps fault. */
  lemma RunBounds(env: Env, s: Machine, left: nat)
    ensures Exec(env, s, left, 0).executed <= left
    ensures Exec(env, s, left, 0).fault == Steps ==> Exec(env, s, left, 0).executed == left
  {
    var n, s' := RunToEnd(env, s, left);
    ReachExec(env, s, n, s', left);
    EndCount(env, s', left - n, n, Exec(env, s, left, 0));
  }

  /** So the 32-bit counter of the source counts a whole run. */
  lemma RunCounted(ins: seq<U64>, base: U64, ctx: seq<Byte>, maxSteps: U32, hasMap: bool, cells: seq<U32>)
    ensures Counted(Run(ins, base, ctx, maxSteps, hasMap, cells)) == Run(ins, base, ctx, maxSteps, hasMap, cells)
  {
    if 0 < |ins| <= MAX_INSNS {
      RunBounds(Env(DecodeAll(ins), base, ctx, hasMap), Start(base, cells), maxSteps);
    }
    Small(Run(ins, base, ctx, maxSteps, hasMap, cells));
  }

  lemma Small(r: RunResult)
    requires r.executed < TWO32
    ensures Counted(r) == r
  {
  }

  lemma EndCount(env: Env, s: Machine, left: nat, executed: nat, r: RunResult)
    requires r == Exec(env, s, left, executed) && (left == 0 || s.pc >= |env.prog| || Step(env, s).Halt?)
    ensures r.executed <= executed + left && (r.fault == Steps ==> r.executed == executed + left)
  {
    EndResult(env, s, left, executed, r);
    if s.pc < |env.prog| {
      StepNotSteps(env, s);
    }
  }

  lemma {:induction false} ReachCells(env: Env, s: Machine, n: nat, s': Machine)
    requires Reaches(env, s, n, s')
    ensures |s'.cells| == |s.cells|
    ensures (forall pc | 0 <= pc < |env.prog| :: !StoringCall(env.prog[pc])) ==> s'.cells == s.cells
    decreases n
  {
    if n > 0 {
      var mid := ReachBack(env, s, n, s');
      ReachCells(env, s, n - 1, mid);
      StepCells(env, mid);
    }
  }

  /** No run changes the size of the map, and a program without a storing helper call leaves it as it was. */
  lemma RunCells(env: Env, s: Machine, left: nat)
    ensures |Exec(env, s, left, 0).cells| == |s.cells|
    ensures (forall pc | 0 <= pc < |env.prog| :: !StoringCall(env.prog[pc])) ==> Exec(env, s, left, 0).cells == s.cells
  {
    var n, s' := RunToEnd(env, s, left);
    ReachCells(env, s, n, s');
    ReachExec(env, s, n, s', left);
    EndResult(env, s', left - n, n, Exec(env, s, left, 0));
  }

  // ----- two runs -----

  /** Two machines that differ at most in registers the certificate calls unwritten. */
  predicate Agree(m: seq<U32>, a: Machine, b: Machine) {
    && a.pc == b.pc < |m| && a.cells == b.cells
    && forall r | 0 <= r < 11 && RegType(m[a.pc], r) != BOTTOM :: a.regs[r] == b.regs[r]
  }

  /** The tables list every register a step observes. */
  lemma StepObserves(env: Env, a: Machine, b: Machine)
    requires a.pc == b.pc < |env.prog| && a.cells == b.cells && InsnOk(env.prog, a.pc)
    requires forall r | 0 <= r < 11 && Reads(env.prog[a.pc], r) :: a.regs[r] == b.regs[r]
    ensures Step(env, a).Halt? ==> Step(env, b) == Step(env, a)
    ensures Step(env, a).Next? ==>
              && Step(env, b).Next?
              && Step(env, b).m.pc == Step(env, a).m.pc
              && Step(env, b).m.cells == Step(env, a).m.cells
              && forall r | 0 <= r < 11 && Writes(env.prog[a.pc], r) :: Step(env, a).m.regs[r] == Step(env, b).m.regs[r]
  {
    var i := env.prog[a.pc];
    if i.IsAlu() {
      assert Step(env, a) == StepAlu(a, i) && Step(env, b) == StepAlu(b, i);
    }
  }

  lemma AgreeAlong(prog: seq<Insn>, m: seq<U32>, a: Machine, b: Machine, a': Machine, b': Machine)
    requires Checked(prog, m) && Agree(m, a, b) && a'.pc in Succ(prog[a.pc], a.pc)
    requires a'.pc == b'.pc && a'.cells == b'.cells
    requires forall r | 0 <= r < 11 && !Writes(prog[a.pc], r) :: a'.regs[r] == a.regs[r] && b'.regs[r] == b.regs[r]
    requires forall r | 0 <= r < 11 && Writes(prog[a.pc], r) :: a'.regs[r] == b'.regs[r]
    ensures Agree(m, a', b')
  {
    var i := prog[a.pc];
    assert Flows(prog, m, a.pc) && Stays(prog, a.pc);
    forall r | 0 <= r < 11 && RegType(m[a'.pc], r) != BOTTOM
      ensures a'.regs[r] == b'.regs[r]
    {
      BelowType(m[a'.pc], Out(i, m[a.pc]), r);
      OutType(i, m[a.pc], r);
    }
  }

  lemma AgreeStep(env: Env, m: seq<U32>, a: Machine, b: Machine) returns (a': Machine, b': Machine)
    requires Checked(env.prog, m) && Agree(m, a, b)
    ensures Step(env, a).Halt? ==> Step(env, b) == Step(env, a)
    ensures Step(env, a).Next? ==> Goes(env, a, a') && Goes(env, b, b') && Agree(m, a', b')
  {
    assert InsnOk(env.prog, a.pc) && LocalOk(env.prog[a.pc], m[a.pc]);
    StepObserves(env, a, b);
    a', b' := a, b;
    if Step(env, a).Next? {
      a', b' := Step(env, a).m, Step(env, b).m;
      StepShape(env, a);
      StepShape(env, b);
      AgreeAlong(env.prog, m, a, b, a', b');
    }
  }

  lemma StopAlike(env: Env, a: Machine, b: Machine, left: nat, executed: nat, ra: RunResult, rb: RunResult)
    requires a.pc == b.pc < |env.prog| && a.cells == b.cells
    requires left == 0 || (Step(env, a).Halt? && Step(env, b) == Step(env, a))
    requires ra == Exec(env, a, left, executed) && rb == Exec(env, b, left, executed)
    ensures ra == rb
  {
  }

  lemma {:induction false} ReachAgree(env: Env, m: seq<U32>, a: Machine, b: Machine, n: nat, a': Machine)
    returns (b': Machine)
    requires Checked(env.prog, m) && Agree(m, a, b) && Reaches(env, a, n, a')
    ensures Reaches(env, b, n, b') && Agree(m, a', b')
    decreases n
  {
    if n == 0 {
      b' := b;
      ReachNone(env, b);
    } else {
      var mid := ReachBack(env, a, n, a');
      var other := ReachAgree(env, m, a, b, n - 1, mid);
      var _, next := AgreeStep(env, m, mid, other);
      ReachOne(env, b, n - 1, other, next);
      b' := next;
    }
  }

  lemma ExecAgree(env: Env, m: seq<U32>, a: Machine, b: Machine, left: nat)
    requires Checked(env.prog, m) && Agree(m, a, b)
    ensures Exec(env, a, left, 0) == Exec(env, b, left, 0)
  {
    var n, a' := RunToEnd(env, a, left);
    var b' := ReachAgree(env, m, a, b, n, a');
    var _, _ := AgreeStep(env, m, a', b');
    ReachExec(env, a, n, a', left);
    ReachExec(env, b, n, b', left);
    StopAlike(env, a', b', left - n, n, Exec(env, a, left, 0), Exec(env, b, left, 0));
  }

  lemma EntryAgrees(m: seq<U32>, prog: seq<Insn>, a: RegFile, b: RegFile, cells: seq<U32>)
    requires Checked(prog, m) && a[1] == b[1]
    ensures Agree(m, Machine(a, 0, cells), Machine(b, 0, cells))
  {
    forall r | 0 <= r < 11
      ensures TypeBelow(RegType(m[0], r), if r == 1 then CTX else BOTTOM)
    {
      BelowType(m[0], ENTRY, r);
      EntryType(r);
    }
  }

  /** No accepted program depends on a register it has not written: from any two register
      files that agree on r1 alone, fault, return value, instruction count and final map are equal. */
  lemma NoUninitialisedReads(ins: seq<U64>, env: Env, a: RegFile, b: RegFile, cells: seq<U32>, maxSteps: nat)
    requires Accepted(ins) && env.prog == DecodeAll(ins) && a[1] == b[1]
    ensures Exec(env, Machine(a, 0, cells), maxSteps, 0) == Exec(env, Machine(b, 0, cells), maxSteps, 0)
  {
    var m := AcceptedHasCertificate(ins);
    EntryAgrees(m, env.prog, a, b, cells);
    ExecAgree(env, m, Machine(a, 0, cells), Machine(b, 0, cells), maxSteps);
  }
}
