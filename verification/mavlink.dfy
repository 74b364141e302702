/** The shipped MAVLink filter as bytecode (modules/policies/mavlink.h) and its native twin
    (modules/monitor.c): the interpreter gives the native verdict on every packet. */
module Mavlink {
  import opened Words
  import opened Bits
  import opened Isa
  import opened Interpreter
  import opened Execution
  import opened Soundness
  import opened Packets

  /** The instruction at each pc of the policy. */
  function Text(pc: nat): Insn
    requires pc < 28
  {
    match pc
    case 0 => Ldxb(2, 1, 0)
    case 1 => Mov64I(3, 0xFD)
    case 2 => Jne64I(2, 0xFD, 19)
    case 3 => Ldxh(4, 1, 7)
    case 4 => Ldxb(5, 1, 9)
    case 5 => Sll64I(5, 16)
    case 6 => Or64(4, 5)
    case 7 => Jeq64I(4, 0, 4)
    case 8 => Jeq64I(4, 33, 7)
    case 9 => Jeq64I(4, 32, 2)
    case 10 => Mov64I(0, 2)
    case 11 => Exit()
    case 12 => Ldxb(9, 1, 1)
    case 13 => Jgt64I(9, 240, 10)
    case 14 => Mov64I(0, 1)
    case 15 => Exit()
    case 16 => Ldxb(9, 1, 1)
    case 17 => Jgt64I(9, 240, 6)
    case 18 => Ldxw(6, 1, 10)
    case 19 => Jgt64I(6, 900000000, 6)
    case 20 => Mov64I(0, 1)
    case 21 => Exit()
    case 22 => Mov64I(0, 0)
    case 23 => Exit()
    case 24 => Mov64I(0, 3)
    case 25 => Exit()
    case 26 => Mov64I(0, 4)
    case _ => Exit()
  }

  function Policy(): (prog: seq<Insn>)
    ensures |prog| == 28 && forall pc | 0 <= pc < 28 :: prog[pc] == Text(pc)
  {
    seq(28, pc requires 0 <= pc < 28 => Text(pc))
  }

  /** The native reference filter on one packet. */
  function NativeVerdict(p: seq<Byte>): U32
    requires |p| >= 14
  {
    if p[0] != 0xFD then 0
    else
      var msgid := Or(Or(p[7], Shl(p[8], 8)), Shl(p[9], 16));
      if msgid != 0 && msgid != 32 && msgid != 33 then 2
      else if p[1] > 240 then 3
      else if msgid == 33 then
        var lat := Or(Or(Or(p[10], Shl(p[11], 8)), Shl(p[12], 16)), Shl(p[13], 24));
        if lat > 900000000 then 4 else 1
      else 1
  }

  /** The same decision on the fields themselves. */
  function Decide(magic: nat, id: nat, len: nat, lat: nat): U32 {
    if magic != 0xFD then 0
    else if id != 0 && id != 32 && id != 33 then 2
    else if len > 240 then 3
    else if id == 33 && lat > 900000000 then 4
    else 1
  }

  lemma NativeDecides(p: seq<Byte>)
    requires |p| >= 14
    ensures NativeVerdict(p) == Decide(p[0], MessageId(p), p[1], LoadLe(p[10..14]))
  {
    NativeId(p);
    LoadFour(p, 10);
    NativeOn(p, MessageId(p), LoadLe(p[10..14]));
  }

  lemma NativeOn(p: seq<Byte>, id: nat, lat: nat)
    requires |p| >= 14 && id == Or(Or(p[7], Shl(p[8], 8)), Shl(p[9], 16))
    requires lat == Or(Or(Or(p[10], Shl(p[11], 8)), Shl(p[12], 16)), Shl(p[13], 24))
    ensures NativeVerdict(p) == Decide(p[0], id, p[1], lat)
  {
  }

  lemma NativeId(p: seq<Byte>)
    requires |p| >= 14
    ensures Or(Or(p[7], Shl(p[8], 8)), Shl(p[9], 16)) == MessageId(p)
  {
    LoadTwo(p, 7);
  }

  // ----- the paths -----

  predicate Ready(env: Env) {
    |env.prog| == 28 && (forall pc | 0 <= pc < 28 :: env.prog[pc] == Text(pc)) && Placed(env) && |env.ctx| >= 14
  }

  /** The state at `pc` with the registers the rest of the program looks at. */
  predicate Mid(env: Env, s: Machine, pc: nat) {
    s.pc == pc && s.regs[1] == env.base
  }

  /** Magic byte: pc 0 to pc 3, or the "not MAVLink" exit at 22. */
  lemma Magic(env: Env, s: Machine) returns (s': Machine)
    requires Ready(env) && Mid(env, s, 0)
    ensures Reaches(env, s, 3, s') && Mid(env, s', if env.ctx[0] == 0xFD then 3 else 22) && s'.cells == s.cells
  {
    ReachNone(env, s);
    LoadOne(env.ctx, 0);
    Load(env, s, 0, s, Ldxb(2, 1, 0));
    var s1 := Put(s, 2, env.ctx[0]);
    MoveImm(env, s, 1, s1, 3, 0xFD);
    var s2 := Put(s1, 3, 0xFD);
    Branch(env, s, 2, s2, Jne64I(2, 0xFD, 19));
    s' := Goto(s2, if env.ctx[0] == 0xFD then 3 else 22);
  }

  /** Message id into r4: pc 3 to pc 7. */
  lemma Id(env: Env, s: Machine) returns (s': Machine)
    requires Ready(env) && Mid(env, s, 3)
    ensures Reaches(env, s, 4, s') && Mid(env, s', 7) && s'.regs[4] == MessageId(env.ctx) && s'.cells == s.cells
  {
    assert BuildsId(env, s.pc, 4, 5);
    s' := BuildId(env, s, 4, 5);
  }

  /** The three-way dispatch on the id: pc 7 to 12, 16 or 10. */
  lemma Dispatch(env: Env, s: Machine) returns (s': Machine, n: nat)
    requires Ready(env) && Mid(env, s, 7)
    ensures var id := s.regs[4];
            && n <= 3 && (id == 33 ==> n <= 2) && s'.cells == s.cells && Reaches(env, s, n, s')
            && Mid(env, s', if id == 0 || id == 32 then 12 else if id == 33 then 16 else 10)
  {
    ReachNone(env, s);
    Branch(env, s, 0, s, Jeq64I(4, 0, 4));
    if s.regs[4] == 0 {
      return Goto(s, 12), 1;
    }
    var s1 := Goto(s, 8);
    Branch(env, s, 1, s1, Jeq64I(4, 33, 7));
    if s.regs[4] == 33 {
      return Goto(s1, 16), 2;
    }
    var s2 := Goto(s1, 9);
    Branch(env, s, 2, s2, Jeq64I(4, 32, 2));
    return Goto(s2, if s.regs[4] == 32 then 12 else 10), 3;
  }

  /** The length check: from pc 12 or 16, two instructions. */
  lemma Length(env: Env, s: Machine) returns (s': Machine)
    requires Ready(env) && (Mid(env, s, 12) || Mid(env, s, 16))
    ensures Reaches(env, s, 2, s') && Mid(env, s', if env.ctx[1] > 240 then 24 else s.pc + 2) && s'.cells == s.cells
  {
    ReachNone(env, s);
    LoadOne(env.ctx, 1);
    Load(env, s, 0, s, Ldxb(9, 1, 1));
    var s1 := Put(s, 9, env.ctx[1]);
    Branch(env, s, 1, s1, Jgt64I(9, 240, if s.pc == 12 then 10 else 6));
    s' := Goto(s1, if env.ctx[1] > 240 then 24 else s.pc + 2);
  }

  /** The latitude check: pc 18 to 26 or 20. */
  lemma Latitude(env: Env, s: Machine) returns (s': Machine)
    requires Ready(env) && Mid(env, s, 18)
    ensures Reaches(env, s, 2, s') && s'.cells == s.cells
    ensures Mid(env, s', if LoadLe(env.ctx[10..14]) > 900000000 then 26 else 20)
  {
    ReachNone(env, s);
    Load(env, s, 0, s, Ldxw(6, 1, 10));
    var v := LoadLe(env.ctx[10..14]);
    var s1 := Put(s, 6, v);
    Branch(env, s, 1, s1, Jgt64I(6, 900000000, 6));
    s' := Goto(s1, if v > 900000000 then 26 else 20);
  }

  /** A verdict pair: move the verdict to r0 and exit. */
  function VerdictAt(pc: nat): int {
    if pc == 10 then 2 else if pc == 14 || pc == 20 then 1 else if pc == 22 then 0
    else if pc == 24 then 3 else if pc == 26 then 4 else -1
  }

  lemma Verdict(env: Env, s: Machine) returns (s': Machine)
    requires Ready(env) && s.pc < 28 && VerdictAt(s.pc) >= 0
    ensures Reaches(env, s, 1, s') && At(env, s', Exit()) && s'.regs[0] == VerdictAt(s.pc) && s'.cells == s.cells
  {
    ReachNone(env, s);
    MoveImm(env, s, 0, s, 0, VerdictAt(s.pc));
    s' := Put(s, 0, VerdictAt(s.pc));
  }

  /** The state at the verdict, after at most 13 instructions. */
  lemma Classify(env: Env, s: Machine) returns (s': Machine, n: nat)
    requires Ready(env) && Mid(env, s, 0)
    ensures Reaches(env, s, n, s') && n <= 13 && s'.cells == s.cells
    ensures s'.pc < 28
    ensures VerdictAt(s'.pc) == Decide(env.ctx[0], MessageId(env.ctx), env.ctx[1], LoadLe(env.ctx[10..14]))
  {
    var c := env.ctx;
    s' := Magic(env, s);
    n := 3;
    if c[0] == 0xFD {
      var s1 := s';
      var s2 := Id(env, s1);
      ReachTwice(env, s, 3, s1, 4, s2);
      var s3, k := Dispatch(env, s2);
      ReachTwice(env, s, 7, s2, k, s3);
      s', n := s3, 7 + k;
      if s3.pc != 10 {
        var s4 := Length(env, s3);
        ReachTwice(env, s, 7 + k, s3, 2, s4);
        s', n := s4, 9 + k;
        if s4.pc == 18 {
          var s5 := Latitude(env, s4);
          ReachTwice(env, s, 9 + k, s4, 2, s5);
          s', n := s5, 11 + k;
        }
      }
    }
  }

  /** On every packet of at least 14 bytes the bytecode run by the interpreter exits without a
      fault, with the verdict of the native filter, in at most 15 instructions, map untouched. */
  lemma PolicyIsNativeFilter(base: U64, ctx: seq<Byte>, maxSteps: nat, hasMap: bool, cells: seq<U32>)
    requires |ctx| >= 14 && 8 <= base && base + |ctx| <= TWO32 && maxSteps >= 15
    ensures var r := Run(Assemble(Policy()), base, ctx, maxSteps, hasMap, cells);
            r.fault == Ok && r.retval == NativeVerdict(ctx) && r.executed <= 15 && r.cells == cells
  {
    AssembleDecodes(Policy());
    NativeDecides(ctx);
    var env := Env(Policy(), base, ctx, hasMap);
    var s := Start(base, cells);
    var s1, n := Classify(env, s);
    var s2 := Verdict(env, s1);
    ReachTwice(env, s, n, s1, 1, s2);
    Finish(env, s, n + 1, s2, maxSteps);
  }
}
