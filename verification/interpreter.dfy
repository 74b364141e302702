/** The eBPF interpreter (core/ebpf.c): a small-step semantics, its bounded
    iteration, and the in-place loop proved to compute that iteration. */
module Interpreter {
  import opened Words
  import opened Bits
  import opened Isa

  /** The fault codes, and one outcome C leaves undefined: a 32-bit division by
      a register whose low word alone is zero, the negation of -2^63, or a read
      outside the context that the wrapped bounds test lets through. */
  datatype Fault = Ok | Pc | Steps | Mem | Store | Div0 | Opcode | Call | Fp | Undefined

  /** What a run is given: decoded program, context pointer and bytes, whether a map is attached. */
  datatype Env = Env(prog: seq<Insn>, base: U64, ctx: seq<Byte>, hasMap: bool)

  type RegFile = s: seq<U64> | |s| == 11 witness [0, 0, 0, 0, 0, 0, 0, 0, 0, 0, 0]

  datatype Machine = Machine(regs: RegFile, pc: U32, cells: seq<U32>)

  datatype Outcome = Next(m: Machine) | Halt(fault: Fault, retval: U64)

  datatype RunResult = RunResult(fault: Fault, retval: U64, executed: nat, cells: seq<U32>)

  // ----- arithmetic -----

  datatype AluResult = Value(v: U64) | AluFault(fault: Fault)

  function Low(is64: bool, v: U64): U64 {
    if is64 then v else v % TWO32
  }

  function Signed(is64: bool, v: U64): int {
    if is64 then Signed64(v) else Signed32(v % TWO32)
  }

  function SwapBytes(v: nat, n: nat): nat {
    if n == 0 then 0 else v % 0x100 * Pow2(8 * (n - 1)) + SwapBytes(v / 0x100, n - 1)
  }

  /** One ALU operation before the 32-bit truncation. */
  function Alu(op: int, is64: bool, srcX: bool, imm: int, v: U64, arg: U64): AluResult {
    var shift := if is64 then arg % 64 else arg % 32;
    if op == ALU_ADD then Value(ToU64(v + arg))
    else if op == ALU_SUB then Value(ToU64(v - arg))
    else if op == ALU_MUL then Value(ToU64(v * arg))
    else if op == ALU_DIV || op == ALU_MOD then
      if arg == 0 then AluFault(Div0)
      else if Low(is64, arg) == 0 then AluFault(Undefined)
      else if op == ALU_DIV then Value(ToU64(Low(is64, v) / Low(is64, arg)))
      else Value(ToU64(Low(is64, v) % Low(is64, arg)))
    else if op == ALU_OR then Value(ToU64(Or(v, arg)))
    else if op == ALU_AND then Value(ToU64(And(v, arg)))
    else if op == ALU_XOR then Value(ToU64(Xor(v, arg)))
    else if op == ALU_MOV then Value(arg)
    else if op == ALU_LSH then Value(if is64 then ToU64(Shl(v, shift)) else ToU32(Shl(Low(is64, v), shift)))
    else if op == ALU_RSH then Value(ToU64(Shr(Low(is64, v), shift)))
    else if op == ALU_ARSH then Value(ToU64(Signed(is64, v) / Pow2(shift)))
    else if op == ALU_NEG then if v == TWO63 then AluFault(Undefined) else Value(ToU64(0 - v))
    else if op == ALU_END then
      if !srcX then Value(v)
      else
        var size := imm % 0x100;
        if size == 16 then Value(ToU64(SwapBytes(v % TWO16, 2)))
        else if size == 32 then Value(ToU64(SwapBytes(v % TWO32, 4)))
        else if size == 64 then Value(ToU64(SwapBytes(v, 8)))
        else AluFault(Opcode)
    else AluFault(Opcode)
  }

  function AluArg(regs: RegFile, i: Insn): U64
    requires i.src <= 10
  {
    if i.Op() == ALU_NEG || i.Op() == ALU_END then 0
    else if i.SrcX() then regs[i.src]
    else if i.Cls() == CLS_ALU64 then ToU64(i.imm) else ToU32(i.imm)
  }

  function StepAlu(m: Machine, i: Insn): Outcome
    requires i.dst <= 10 && i.src <= 10
  {
    var is64 := i.Cls() == CLS_ALU64;
    if i.dst == 10 then Halt(Fp, 0)
    else
      var v := if i.Op() == ALU_MOV then 0 else m.regs[i.dst];
      match Alu(i.Op(), is64, i.SrcX(), i.imm, v, AluArg(m.regs, i))
      case AluFault(f) => Halt(f, 0)
      case Value(w) => Next(m.(regs := m.regs[i.dst := Low(is64, w)], pc := ToU32(m.pc + 1)))
  }

  // ----- jumps and calls -----

  /** The condition of a two-way jump, on the low words for the 32-bit class. */
  function Taken(op: int, is64: bool, v: U64, arg: U64): bool {
    var a, b := Low(is64, v), Low(is64, arg);
    var sa, sb := Signed(is64, v), Signed(is64, arg);
    if op == JMP_JEQ then a == b
    else if op == JMP_JNE then a != b
    else if op == JMP_JGT then a > b
    else if op == JMP_JGE then a >= b
    else if op == JMP_JLT then a < b
    else if op == JMP_JLE then a <= b
    else if op == JMP_JSET then And(a, b) != 0
    else if op == JMP_JSGT then sa > sb
    else if op == JMP_JSGE then sa >= sb
    else if op == JMP_JSLT then sa < sb
    else op == JMP_JSLE && sa <= sb
  }

  function JumpArg(regs: RegFile, i: Insn): U64
    requires i.src <= 10
  {
    if i.SrcX() then regs[i.src]
    else if i.Cls() == CLS_JMP32 then ToU32(i.imm) else ToU64(i.imm)
  }

  predicate PowerOfTwo(n: nat) {
    n != 0 && And(n, n - 1) == 0
  }

  /** The map cell a helper touches: r1 masked by the cell count. */
  function Cell(r1: U64, cells: nat): (c: nat)
    requires cells > 0
    ensures c < cells
  {
    And(r1 % TWO32, cells - 1)
  }

  function StepCall(env: Env, m: Machine, i: Insn): Outcome {
    if !env.hasMap || !PowerOfTwo(|m.cells|) then Halt(Call, 0)
    else
      var c := Cell(m.regs[1], |m.cells|);
      if i.imm == 1 then Next(m.(regs := m.regs[0 := m.cells[c]], pc := ToU32(m.pc + 1)))
      else if i.imm == 2 then
        Next(Machine(m.regs[0 := 0], ToU32(m.pc + 1), m.cells[c := m.regs[2] % TWO32]))
      else Halt(Call, 0)
  }

  function StepJmp(env: Env, m: Machine, i: Insn): Outcome
    requires i.dst <= 10 && i.src <= 10
  {
    var op := i.Op();
    if op == JMP_CALL then
      if i.Cls() == CLS_JMP then StepCall(env, m, i) else Halt(Call, 0)
    else if op == JMP_EXIT then Halt(Ok, m.regs[0])
    else if op == JMP_JA then Next(m.(pc := JumpTarget(m.pc, i.off)))
    else if op > JMP_JSLE then Halt(Opcode, 0)
    else if Taken(op, i.Cls() == CLS_JMP, m.regs[i.dst], JumpArg(m.regs, i)) then
      Next(m.(pc := JumpTarget(m.pc, i.off)))
    else Next(m.(pc := ToU32(m.pc + 1)))
  }

  // ----- loads -----

  /** The little-endian value of a byte string. */
  function LoadLe(bytes: seq<Byte>): nat {
    if |bytes| == 0 then 0 else bytes[0] + 0x100 * LoadLe(bytes[1..])
  }

  lemma {:induction false} LoadLeBound(bytes: seq<Byte>)
    ensures LoadLe(bytes) < Pow2(8 * |bytes|)
  {
    if |bytes| > 0 {
      LoadLeBound(bytes[1..]);
      Pow2Byte(|bytes| - 1);
    }
  }

  lemma Pow2Byte(n: nat)
    ensures Pow2(8 * (n + 1)) == 0x100 * Pow2(8 * n)
  {
    var k := 8 * n;
    assert Pow2(k + 4) == 2 * Pow2(k + 3) == 4 * Pow2(k + 2) == 8 * Pow2(k + 1) == 16 * Pow2(k);
    assert Pow2(k + 8) == 2 * Pow2(k + 7) == 4 * Pow2(k + 6) == 8 * Pow2(k + 5) == 16 * Pow2(k + 4);
  }

  function LoadSize(opcode: Byte): (n: nat)
    ensures n == 1 || n == 2 || n == 4 || n == 8
  {
    var szcode := opcode / 8 % 4;
    if szcode == 0 then 4 else if szcode == 2 then 1 else if szcode == 1 then 2 else 8
  }

  /** The bounds test as written: 64-bit, so the addition may wrap. */
  predicate BoundsPass(addr: U64, base: U64, size: nat, ctxSize: nat) {
    addr >= base && ToU64(addr - base + size) <= ctxSize
  }

  predicate InContext(addr: U64, base: U64, size: nat, ctxSize: nat) {
    base <= addr && addr + size <= base + ctxSize
  }

  function LoadAddr(r: U64, off: int): U64 {
    ToU64(r + off)
  }

  function StepLdx(env: Env, m: Machine, i: Insn): Outcome
    requires i.dst <= 10 && i.src <= 10
  {
    if i.opcode - i.opcode % 0x20 != MODE_MEM || i.src == 10 || i.dst == 10 then Halt(Opcode, 0)
    else
      var size, addr := LoadSize(i.opcode), LoadAddr(m.regs[i.src], i.off);
      if !BoundsPass(addr, env.base, size, |env.ctx|) then Halt(Mem, 0)
      else if !InContext(addr, env.base, size, |env.ctx|) then Halt(Undefined, 0)
      else
        var at := addr - env.base;
        Next(m.(regs := m.regs[i.dst := ToU64(LoadLe(env.ctx[at..at + size]))], pc := ToU32(m.pc + 1)))
  }

  // ----- the step and its iteration -----

  function Step(env: Env, m: Machine): Outcome
    requires m.pc < |env.prog|
  {
    var i := env.prog[m.pc];
    if i.dst > 10 || i.src > 10 then Halt(Opcode, 0)
    else if i.IsAlu() then StepAlu(m, i)
    else if i.IsJmp() then StepJmp(env, m, i)
    else if i.IsLdx() then StepLdx(env, m, i)
    else if i.Cls() == CLS_ST || i.Cls() == CLS_STX then Halt(Store, 0)
    else Halt(Opcode, 0)
  }

  /** At most `left` further instructions, `executed` already done. */
  function Exec(env: Env, m: Machine, left: nat, executed: nat): RunResult
    decreases left, m
  {
    if m.pc >= |env.prog| then RunResult(Pc, 0, executed, m.cells)
    else if left == 0 then RunResult(Steps, 0, executed, m.cells)
    else
      match Step(env, m)
      case Halt(f, v) => RunResult(f, if f == Ok then v else 0, executed + 1, m.cells)
      case Next(m') => Exec(env, m', left - 1, executed + 1)
  }

  function Start(base: U64, cells: seq<U32>): Machine {
    Machine([0, base, 0, 0, 0, 0, 0, 0, 0, 0, 0], 0, cells)
  }

  /** A whole run of `ins`. */
  function Run(ins: seq<U64>, base: U64, ctx: seq<Byte>, maxSteps: nat, hasMap: bool, cells: seq<U32>): RunResult {
    if |ins| == 0 || |ins| > MAX_INSNS then RunResult(Pc, 0, 0, cells)
    else Exec(Env(DecodeAll(ins), base, ctx, hasMap), Start(base, cells), maxSteps, 0)
  }

  // ----- runs as traces -----

  /** The machine moves from `s` to `s'` in one instruction. */
  predicate Goes(env: Env, s: Machine, s': Machine) {
    s.pc < |env.prog| && Step(env, s) == Next(s')
  }

  lemma Unroll(env: Env, s: Machine, s': Machine, left: nat, executed: nat, r: RunResult)
    requires Goes(env, s, s') && left > 0 && r == Exec(env, s, left, executed)
    ensures r == Exec(env, s', left - 1, executed + 1)
  {
  }

  /** Position i of a trace is one instruction. */
  predicate Link(env: Env, t: seq<Machine>, i: nat) {
    i + 1 < |t| && Goes(env, t[i], t[i + 1])
  }

  predicate IsTrace(env: Env, t: seq<Machine>, s: Machine, n: nat, s': Machine) {
    |t| == n + 1 && t[0] == s && t[n] == s' && forall i | 0 <= i < n :: Link(env, t, i)
  }

  /** The machine is in state `s'` after `n` instructions. */
  ghost predicate Reaches(env: Env, s: Machine, n: nat, s': Machine) {
    exists t :: IsTrace(env, t, s, n, s')
  }

  lemma ReachNone(env: Env, s: Machine)
    ensures Reaches(env, s, 0, s)
  {
    assert IsTrace(env, [s], s, 0, s);
  }

  lemma ReachTwice(env: Env, s: Machine, n: nat, s': Machine, k: nat, s'': Machine)
    requires Reaches(env, s, n, s') && Reaches(env, s', k, s'')
    ensures Reaches(env, s, n + k, s'')
  {
    var t :| IsTrace(env, t, s, n, s');
    var u :| IsTrace(env, u, s', k, s'');
    var w := t + u[1..];
    forall i | 0 <= i < n + k
      ensures Link(env, w, i)
    {
      assert if i < n then Link(env, t, i) else Link(env, u, i - n);
      assert i >= n ==> w[i] == u[i - n];
    }
    assert IsTrace(env, w, s, n + k, s'');
  }

  lemma ReachOne(env: Env, s: Machine, n: nat, s': Machine, s'': Machine)
    requires Reaches(env, s, n, s') && Goes(env, s', s'')
    ensures Reaches(env, s, n + 1, s'')
  {
    var t := [s', s''];
    assert Link(env, t, 0);
    assert IsTrace(env, t, s', 1, s'');
    ReachTwice(env, s, n, s', 1, s'');
  }

  lemma ReachLater(env: Env, s: Machine, next: Machine, n: nat, s': Machine)
    requires Goes(env, s, next) && Reaches(env, next, n, s')
    ensures Reaches(env, s, n + 1, s')
  {
    ReachNone(env, s);
    ReachOne(env, s, 0, s, next);
    ReachTwice(env, s, 1, next, n, s');
  }

  lemma TraceTail(env: Env, t: seq<Machine>, s: Machine, n: nat, s': Machine)
    requires IsTrace(env, t, s, n, s') && n > 0
    ensures IsTrace(env, t[1..], t[1], n - 1, s')
  {
    forall i | 0 <= i < n - 1
      ensures Link(env, t[1..], i)
    {
      assert Link(env, t, i + 1);
    }
  }

  lemma ReachBack(env: Env, s: Machine, n: nat, s': Machine) returns (mid: Machine)
    requires Reaches(env, s, n, s') && n > 0
    ensures Reaches(env, s, n - 1, mid) && Goes(env, mid, s')
  {
    var t :| IsTrace(env, t, s, n, s');
    mid := t[n - 1];
    TracePrefix(env, t, s, n, s');
    assert Link(env, t, n - 1);
  }

  lemma TracePrefix(env: Env, t: seq<Machine>, s: Machine, n: nat, s': Machine)
    requires IsTrace(env, t, s, n, s') && n > 0
    ensures IsTrace(env, t[..n], s, n - 1, t[n - 1])
  {
    forall i | 0 <= i < n - 1
      ensures Link(env, t[..n], i)
    {
      assert Link(env, t, i);
    }
  }

  lemma UnrollFirst(env: Env, t: seq<Machine>, s: Machine, n: nat, s': Machine, left: nat, executed: nat, r: RunResult)
    requires IsTrace(env, t, s, n, s') && n > 0 && left > 0 && r == Exec(env, s, left, executed)
    ensures r == Exec(env, t[1], left - 1, executed + 1)
  {
    assert Link(env, t, 0);
    Unroll(env, s, t[1], left, executed, r);
  }

  lemma {:induction false} TraceExec(env: Env, t: seq<Machine>, s: Machine, n: nat, s': Machine, left: nat,
      executed: nat, left': nat, executed': nat, r: RunResult)
    requires IsTrace(env, t, s, n, s') && left == left' + n && executed' == executed + n
    requires r == Exec(env, s, left, executed)
    ensures r == Exec(env, s', left', executed')
    decreases n
  {
    if n == 0 {
      assert s == s' && left == left' && executed == executed';
    } else {
      TraceTail(env, t, s, n, s');
      UnrollFirst(env, t, s, n, s', left, executed, r);
      TraceExec(env, t[1..], t[1], n - 1, s', left - 1, executed + 1, left', executed', r);
    }
  }

  /** What a run comes to, from any machine on its way. */
  lemma ReachExec(env: Env, s: Machine, n: nat, s': Machine, left: nat)
    requires Reaches(env, s, n, s') && left >= n
    ensures Exec(env, s, left, 0) == Exec(env, s', left - n, n)
  {
    var t :| IsTrace(env, t, s, n, s');
    TraceExec(env, t, s, n, s', left, 0, left - n, n, Exec(env, s, left, 0));
  }

  /** A machine at which a run stops with this fault, before the step limit has a say. */
  predicate Stops(env: Env, s: Machine, fault: Fault) {
    if s.pc >= |env.prog| then fault == Pc else Step(env, s).Halt? && Step(env, s).fault == fault
  }

  /** Every run comes to a machine at which it ends: off the image, at a halt, or out of steps. */
  lemma {:induction false} RunToEnd(env: Env, s: Machine, left: nat) returns (n: nat, s': Machine)
    ensures n <= left && Reaches(env, s, n, s')
    ensures n == left || s'.pc >= |env.prog| || Step(env, s').Halt?
    decreases left
  {
    if left == 0 || s.pc >= |env.prog| || Step(env, s).Halt? {
      n, s' := 0, s;
      ReachNone(env, s);
    } else {
      n, s' := RunToEnd(env, Step(env, s).m, left - 1);
      ReachLater(env, s, Step(env, s).m, n, s');
      n := n + 1;
    }
  }

  /** The result of a run that is at its end. */
  lemma EndResult(env: Env, s: Machine, left: nat, executed: nat, r: RunResult)
    requires r == Exec(env, s, left, executed) && (left == 0 || s.pc >= |env.prog| || Step(env, s).Halt?)
    ensures r.cells == s.cells && executed <= r.executed <= executed + left
    ensures r.fault != Steps ==> Stops(env, s, r.fault) && (s.pc < |env.prog| ==> left > 0)
    ensures r.fault == Steps && left > 0 ==> Stops(env, s, Steps)
  {
  }

  /** A run that does not use up its steps has reached a machine at which it stops. */
  lemma RunEnds(env: Env, s: Machine, left: nat, r: RunResult) returns (n: nat, s': Machine)
    requires r == Exec(env, s, left, 0) && r.fault != Steps
    ensures n <= left && Reaches(env, s, n, s') && Stops(env, s', r.fault)
    ensures s'.pc < |env.prog| ==> n < left
  {
    n, s' := RunToEnd(env, s, left);
    ReachExec(env, s, n, s', left);
    EndResult(env, s', left - n, n, r);
  }

  // ----- the loop of the source -----

  /** The ALU case: the destination register is overwritten in place. */
  method AluInsn(i: Insn, regs: array<U64>, pc: U32, ghost m: Machine) returns (fault: Fault)
    requires regs.Length == 11 && regs[..] == m.regs && pc == m.pc < TWO32 - 1
    requires i.dst <= 10 && i.src <= 10
    modifies regs
    ensures StepAlu(m, i) == if fault != Ok then Halt(fault, 0) else Next(Machine(regs[..], pc + 1, m.cells))
  {
    fault := Ok;
    if i.dst == 10 {
      return Fp;
    }
    var arg: U64 := 0;
    if i.Op() != ALU_NEG && i.Op() != ALU_END {
      if i.SrcX() {
        arg := regs[i.src];
      } else {
        arg := if i.Cls() == CLS_ALU64 then ToU64(i.imm) else ToU32(i.imm);
      }
    }
    var v := if i.Op() == ALU_MOV then 0 else regs[i.dst];
    match Alu(i.Op(), i.Cls() == CLS_ALU64, i.SrcX(), i.imm, v, arg) {
      case AluFault(f) =>
        fault := f;
      case Value(w) =>
        regs[i.dst] := Low(i.Cls() == CLS_ALU64, w);
    }
  }

  /** The helper call: r0 receives a cell or a cell is overwritten by r2. */
  method CallInsn(i: Insn, regs: array<U64>, grid: array?<U32>, pc: U32, ghost env: Env, ghost m: Machine)
    returns (fault: Fault)
    requires regs.Length == 11 && regs[..] == m.regs && pc == m.pc < TWO32 - 1
    requires env.hasMap == (grid != null) && m.cells == Cells(grid)
    modifies regs, if grid == null then {} else {grid}
    ensures StepCall(env, m, i)
         == if fault != Ok then Halt(fault, 0) else Next(Machine(regs[..], pc + 1, Cells(grid)))
    ensures fault != Ok ==> Cells(grid) == old(Cells(grid))
  {
    fault := Ok;
    if grid == null || !PowerOfTwo(grid.Length) {
      return Call;
    }
    if i.imm == 1 {
      regs[0] := grid[Cell(regs[1], grid.Length)];
    } else if i.imm == 2 {
      grid[Cell(regs[1], grid.Length)] := regs[2] % TWO32;
      regs[0] := 0;
    } else {
      fault := Call;
    }
  }

  /** The context load. */
  method LdxInsn(i: Insn, regs: array<U64>, pc: U32, env: Env, ghost m: Machine)
    returns (fault: Fault)
    requires regs.Length == 11 && regs[..] == m.regs && pc == m.pc < TWO32 - 1
    requires i.dst <= 10 && i.src <= 10
    modifies regs
    ensures StepLdx(env, m, i) == if fault != Ok then Halt(fault, 0) else Next(Machine(regs[..], pc + 1, m.cells))
  {
    fault := Ok;
    if i.opcode - i.opcode % 0x20 != MODE_MEM || i.src == 10 || i.dst == 10 {
      return Opcode;
    }
    var size, addr := LoadSize(i.opcode), LoadAddr(regs[i.src], i.off);
    if !BoundsPass(addr, env.base, size, |env.ctx|) {
      return Mem;
    }
    if !InContext(addr, env.base, size, |env.ctx|) {
      return Undefined;
    }
    regs[i.dst] := ToU64(LoadLe(env.ctx[addr - env.base..addr - env.base + size]));
  }

  function Cells(grid: array?<U32>): seq<U32>
    reads if grid == null then {} else {grid}
  {
    if grid == null then [] else grid[..]
  }

  /** One instruction in place; `done` when the run ends here. */
  method InsnInPlace(i: Insn, regs: array<U64>, grid: array?<U32>, pc: U32, env: Env, ghost m: Machine)
    returns (done: bool, fault: Fault, retval: U64, next: U32)
    requires regs.Length == 11 && regs[..] == m.regs && pc == m.pc < |env.prog| < TWO32 - 1
    requires env.hasMap == (grid != null) && m.cells == Cells(grid) && i == env.prog[pc]
    modifies regs, if grid == null then {} else {grid}
    ensures Step(env, m) == if done then Halt(fault, retval) else Next(Machine(regs[..], next, Cells(grid)))
    ensures done ==> Cells(grid) == old(Cells(grid))
    ensures done && fault != Ok ==> retval == 0
  {
    done, fault, retval, next := true, Ok, 0, pc + 1;
    if i.dst > 10 || i.src > 10 {
      fault := Opcode;
    } else if i.IsAlu() {
      fault := AluInsn(i, regs, pc, m);
      done := fault != Ok;
    } else if i.IsJmp() {
      if i.Cls() == CLS_JMP && i.Op() == JMP_CALL {
        fault := CallInsn(i, regs, grid, pc, env, m);
        done := fault != Ok;
      } else if i.Op() == JMP_CALL {
        fault := Call;
      } else if i.Op() == JMP_EXIT {
        retval := regs[0];
      } else if i.Op() > JMP_JSLE {
        fault := Opcode;
      } else {
        var taken := i.Op() == JMP_JA
          || Taken(i.Op(), i.Cls() == CLS_JMP, regs[i.dst], JumpArg(regs[..], i));
        done := false;
        next := if taken then JumpTarget(pc, i.off) else pc + 1;
      }
    } else if i.IsLdx() {
      fault := LdxInsn(i, regs, pc, env, m);
      done := fault != Ok;
    } else {
      fault := if i.Cls() == CLS_ST || i.Cls() == CLS_STX then Store else Opcode;
    }
  }

  /** The counters of a run are 32 bits wide. */
  function Counted(r: RunResult): RunResult {
    r.(executed := r.executed % TWO32)
  }

  /** How many instructions the loop may execute: the step limit, except that the step counter wraps
      around below the limit 2^32 - 1, which therefore limits nothing. */
  ghost function StepBound(maxSteps: U32, enough: nat): nat {
    if maxSteps == TWO32 - 1 then enough else maxSteps
  }

  lemma CountUp(steps: U32, done: nat)
    requires steps == done % TWO32
    ensures ToU32(steps + 1) == (done + 1) % TWO32
    ensures done + 1 < TWO32 ==> ToU32(steps + 1) == done + 1
  {
  }

  lemma ExecHalts(env: Env, s: Machine, left: nat, executed: nat, f: Fault, v: U64)
    requires s.pc < |env.prog| && left > 0 && Step(env, s) == Halt(f, v)
    ensures Exec(env, s, left, executed) == RunResult(f, if f == Ok then v else 0, executed + 1, s.cells)
  {
  }

  /** One turn of the loop in place, `n` instructions into the run from `s0`. */
  method Turn(regs: array<U64>, grid: array?<U32>, pc: U32, env: Env, ghost s0: Machine, ghost n: nat,
      ghost left: nat, ghost r: RunResult)
    returns (done: bool, fault: Fault, retval: U64, next: U32)
    requires regs.Length == 11 && pc < |env.prog| < TWO32 - 1 && env.hasMap == (grid != null)
    requires Reaches(env, s0, n, Machine(regs[..], pc, Cells(grid))) && n < left && r == Exec(env, s0, left, 0)
    modifies regs, if grid == null then {} else {grid}
    ensures if done then r == RunResult(fault, retval, n + 1, Cells(grid))
            else Reaches(env, s0, n + 1, Machine(regs[..], next, Cells(grid)))
  {
    ghost var m := Machine(regs[..], pc, Cells(grid));
    done, fault, retval, next := InsnInPlace(env.prog[pc], regs, grid, pc, env, m);
    if done {
      ExecHalts(env, m, left - n, n, fault, retval);
      ReachExec(env, s0, n, m, left);
    } else {
      ReachOne(env, s0, n, m, Machine(regs[..], next, Cells(grid)));
    }
  }

  lemma RunsOff(env: Env, s0: Machine, n: nat, s: Machine, left: nat, r: RunResult)
    requires Reaches(env, s0, n, s) && n <= left && s.pc >= |env.prog| && r == Exec(env, s0, left, 0)
    ensures r == RunResult(Pc, 0, n, s.cells)
  {
    ReachExec(env, s0, n, s, left);
  }

  lemma RunsOut(env: Env, s0: Machine, n: nat, s: Machine, r: RunResult)
    requires Reaches(env, s0, n, s) && s.pc < |env.prog| && r == Exec(env, s0, n, 0)
    ensures r == RunResult(Steps, 0, n, s.cells)
  {
    ReachExec(env, s0, n, s, n);
  }

  /** The fetch loop, from any register file at pc 0. Without a limit it returns exactly when the
      program ends by itself, here after at most `enough` instructions. */
  method FetchLoop(env: Env, maxSteps: U32, regs: array<U64>, grid: array?<U32>, ghost enough: nat)
    returns (fault: Fault, retval: U64, executed: U32)
    requires |env.prog| <= MAX_INSNS
    requires regs.Length == 11 && env.hasMap == (grid != null)
    requires maxSteps == TWO32 - 1 ==> Exec(env, Machine(regs[..], 0, Cells(grid)), enough, 0).fault != Steps
    modifies regs, if grid == null then {} else {grid}
    ensures RunResult(fault, retval, executed, Cells(grid))
         == Counted(old(Exec(env, Machine(regs[..], 0, Cells(grid)), StepBound(maxSteps, enough), 0)))
  {
    ghost var bound := StepBound(maxSteps, enough);
    ghost var s0 := Machine(regs[..], 0, Cells(grid));
    ghost var r := Exec(env, s0, bound, 0);
    ReachNone(env, s0);
    ghost var done: nat := 0;
    var steps: U32, pc: U32 := 0, 0;
    fault, retval, executed := Ok, 0, 0;
    while true
      invariant fault == Ok && steps == executed == done % TWO32 && done <= bound && retval == 0
      invariant maxSteps < TWO32 - 1 ==> steps == done
      invariant Reaches(env, s0, done, Machine(regs[..], pc, Cells(grid)))
      decreases bound - done
    {
      if pc >= |env.prog| {
        RunsOff(env, s0, done, Machine(regs[..], pc, Cells(grid)), bound, r);
        fault := Pc;
        break;
      }
      if done == bound {
        RunsOut(env, s0, done, Machine(regs[..], pc, Cells(grid)), r);
      }
      CountUp(steps, done);
      steps := ToU32(steps + 1);
      if steps > maxSteps {
        fault := Steps;
        break;
      }
      executed := ToU32(executed + 1);
      var ended;
      ended, fault, retval, pc := Turn(regs, grid, pc, env, s0, done, bound, r);
      done := done + 1;
      if ended {
        break;
      }
      fault, retval := Ok, 0;
    }
  }

  /** `ebpf_run`: the register file and the map are updated in place; the result
      is the one the bounded iteration of `Step` gives. */
  method EbpfRun(ins: seq<U64>, base: U64, ctx: seq<Byte>, maxSteps: U32, grid: array?<U32>, ghost enough: nat)
    returns (fault: Fault, retval: U64, executed: U32)
    requires maxSteps == TWO32 - 1 ==> Run(ins, base, ctx, enough, grid != null, Cells(grid)).fault != Steps
    modifies if grid == null then {} else {grid}
    ensures RunResult(fault, retval, executed, Cells(grid))
         == Counted(Run(ins, base, ctx, StepBound(maxSteps, enough), grid != null, old(Cells(grid))))
  {
    if |ins| == 0 || |ins| > MAX_INSNS {
      return Pc, 0, 0;
    }
    var regs := new U64[11](_ => 0);
    regs[1] := base;
    assert regs[..] == Start(base, []).regs;
    fault, retval, executed := FetchLoop(Env(DecodeAll(ins), base, ctx, grid != null), maxSteps, regs, grid, enough);
  }
}
