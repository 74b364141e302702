/** Packet fields as both sides read them: little-endian loads and shifted ORs of bytes. */
module Packets {
  import opened Words
  import opened Bits
  import opened Isa
  import opened Interpreter
  import opened Execution
  import Soundness

  /** A packet and where it lies. */
  datatype Located = Located(base: U64, bytes: seq<Byte>)

  lemma LoadOne(c: seq<Byte>, k: nat)
    requires k < |c|
    ensures LoadLe(c[k..k + 1]) == c[k]
  {
    assert c[k..k + 1][1..] == [];
  }

  lemma LoadTwo(c: seq<Byte>, k: nat)
    requires k + 2 <= |c|
    ensures LoadLe(c[k..k + 2]) == c[k] as int + 0x100 * c[k + 1] as int
    ensures LoadLe(c[k..k + 2]) == Or(c[k], Shl(c[k + 1], 8))
  {
    assert c[k..k + 2][1..] == c[k + 1..k + 2];
    LoadOne(c, k + 1);
    Pow2Values();
    OrDisjoint(c[k], c[k + 1], 8);
    ShlIsMul(c[k + 1], 8);
  }

  lemma LoadFour(c: seq<Byte>, k: nat)
    requires k + 4 <= |c|
    ensures LoadLe(c[k..k + 4]) == Or(Or(Or(c[k], Shl(c[k + 1], 8)), Shl(c[k + 2], 16)), Shl(c[k + 3], 24))
  {
    LoadLow(c, k);
    LoadTwo(c, k);
    LoadTwo(c, k + 2);
    OrFour(LoadLe(c[k..k + 2]), c[k + 2], c[k + 3]);
  }

  lemma LoadLow(c: seq<Byte>, k: nat)
    requires k + 4 <= |c|
    ensures LoadLe(c[k..k + 4]) == c[k] + 0x100 * c[k + 1] + 0x1_0000 * LoadLe(c[k + 2..k + 4])
  {
    assert c[k..k + 4][1..] == c[k + 1..k + 4];
    assert c[k + 1..k + 4][1..] == c[k + 2..k + 4];
  }

  lemma OrFour(lo: U16, c: Byte, d: Byte)
    ensures lo + 0x1_0000 * (c + 0x100 * d) == Or(Or(lo, Shl(c, 16)), Shl(d, 24))
  {
    OrThird(lo, c);
    OrFourth(lo + 0x1_0000 * c, d);
  }

  lemma OrThird(lo: U16, c: Byte)
    ensures lo + 0x1_0000 * c == Or(lo, Shl(c, 16))
  {
    Pow2Values();
    OrDisjoint(lo, c, 16);
    ShlIsMul(c, 16);
  }

  lemma OrFourth(lo: nat, d: Byte)
    requires lo < 0x100_0000
    ensures lo + 0x100_0000 * d == Or(lo, Shl(d, 24))
  {
    Pow2Values();
    OrDisjoint(lo, d, 24);
    ShlIsMul(d, 24);
  }

  /** The message id as the bytecode builds it: a 16-bit load, then the third byte ORed in. */
  function MessageId(c: seq<Byte>): (id: nat)
    requires |c| >= 10
    ensures id < 0x100_0000
  {
    LoadTwo(c, 7);
    ShlIsMul(c[9], 16);
    Pow2Values();
    OrDisjoint(LoadLe(c[7..9]), c[9], 16);
    Or(LoadLe(c[7..9]), Shl(c[9], 16))
  }

  lemma IdWord(c: seq<Byte>)
    requires |c| >= 10
    ensures Shl(c[9], 16) < TWO64 && LoadLe(c[7..9]) < TWO64
    ensures Or(LoadLe(c[7..9]), Shl(c[9], 16)) == MessageId(c) < TWO64
  {
    ShlIsMul(c[9], 16);
    Pow2Values();
    LoadTwo(c, 7);
  }

  // ----- the four instructions that build the message id, in registers d and e -----

  predicate BuildsId(env: Env, pc: nat, d: Nibble, e: Nibble) {
    && pc + 4 < |env.prog| <= MAX_INSNS && 1 < d < 10 && 1 < e < 10 && d != e
    && env.prog[pc] == Ldxh(d, 1, 7) && env.prog[pc + 1] == Ldxb(e, 1, 9)
    && env.prog[pc + 2] == Sll64I(e, 16) && env.prog[pc + 3] == Or64(d, e)
  }

  lemma LoadId(env: Env, s: Machine, d: Nibble, e: Nibble) returns (s': Machine)
    requires BuildsId(env, s.pc, d, e) && Soundness.Placed(env) && |env.ctx| >= 10 && s.regs[1] == env.base
    ensures Reaches(env, s, 2, s') && s'.pc == s.pc + 2 && s'.cells == s.cells && s'.regs[1] == env.base
    ensures s'.regs[d] == LoadLe(env.ctx[7..9]) && s'.regs[e] == env.ctx[9]
  {
    ReachNone(env, s);
    Load(env, s, 0, s, Ldxh(d, 1, 7));
    var s1 := Put(s, d, LoadLe(env.ctx[7..9]));
    LoadOne(env.ctx, 9);
    Load(env, s, 1, s1, Ldxb(e, 1, 9));
    s' := Put(s1, e, env.ctx[9]);
  }

  lemma JoinId(env: Env, s: Machine, d: Nibble, e: Nibble, lo: U64, hi: U64, id: U64) returns (s': Machine)
    requires s.pc >= 2 && BuildsId(env, s.pc - 2, d, e) && s.regs[d] == lo && s.regs[e] == hi
    requires Shl(hi, 16) < TWO64 && Or(lo, Shl(hi, 16)) == id
    ensures Reaches(env, s, 2, s') && s'.pc == s.pc + 2 && s'.cells == s.cells && s'.regs[1] == s.regs[1]
    ensures s'.regs[d] == id
  {
    ReachNone(env, s);
    ShiftLeft(env, s, 0, s, e, 16);
    var s1 := Put(s, e, Shl(hi, 16));
    OrReg(env, s, 1, s1, d, e);
    s' := Put(s1, d, id);
  }

  lemma BuildId(env: Env, s: Machine, d: Nibble, e: Nibble) returns (s': Machine)
    requires BuildsId(env, s.pc, d, e) && Soundness.Placed(env) && |env.ctx| >= 10 && s.regs[1] == env.base
    ensures Reaches(env, s, 4, s') && s'.pc == s.pc + 4 && s'.cells == s.cells && s'.regs[1] == env.base
    ensures s'.regs[d] == MessageId(env.ctx)
  {
    IdWord(env.ctx);
    var t := LoadId(env, s, d, e);
    s' := JoinId(env, t, d, e, LoadLe(env.ctx[7..9]), env.ctx[9], MessageId(env.ctx));
    ReachTwice(env, s, 2, t, 2, s');
  }
}
