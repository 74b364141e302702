/** Instruction words: field layout (core/ebpf.c:6-12), the encoder of
    core/ebpf_asm.h, and the opcode constants both sides of the gate share. */
module Isa {
  import opened Words

  const CLS_LDX: int := 0x01
  const CLS_ST: int := 0x02
  const CLS_STX: int := 0x03
  const CLS_ALU: int := 0x04
  const CLS_JMP: int := 0x05
  const CLS_JMP32: int := 0x06
  const CLS_ALU64: int := 0x07

  const ALU_ADD: int := 0x00
  const ALU_SUB: int := 0x10
  const ALU_MUL: int := 0x20
  const ALU_DIV: int := 0x30
  const ALU_OR: int := 0x40
  const ALU_AND: int := 0x50
  const ALU_LSH: int := 0x60
  const ALU_RSH: int := 0x70
  const ALU_NEG: int := 0x80
  const ALU_MOD: int := 0x90
  const ALU_XOR: int := 0xa0
  const ALU_MOV: int := 0xb0
  const ALU_ARSH: int := 0xc0
  const ALU_END: int := 0xd0

  const JMP_JA: int := 0x00
  const JMP_JEQ: int := 0x10
  const JMP_JGT: int := 0x20
  const JMP_JGE: int := 0x30
  const JMP_JSET: int := 0x40
  const JMP_JNE: int := 0x50
  const JMP_JSGT: int := 0x60
  const JMP_JSGE: int := 0x70
  const JMP_CALL: int := 0x80
  const JMP_EXIT: int := 0x90
  const JMP_JLT: int := 0xa0
  const JMP_JLE: int := 0xb0
  const JMP_JSLT: int := 0xc0
  const JMP_JSLE: int := 0xd0

  const MODE_MEM: int := 0x60
  const MAX_INSNS: int := 64

  type Nibble = x: int | 0 <= x < 16

  datatype Insn = Insn(opcode: Byte, dst: Nibble, src: Nibble, off: int, imm: int) {
    /** opcode & 0x07 */
    function Cls(): int { opcode % 8 }

    /** opcode & 0xf0 */
    function Op(): int { opcode - opcode % 16 }

    /** opcode & 0x08: the operand is a register */
    predicate SrcX() { opcode / 8 % 2 == 1 }

    predicate IsAlu() { Cls() == CLS_ALU || Cls() == CLS_ALU64 }

    predicate IsJmp() { Cls() == CLS_JMP || Cls() == CLS_JMP32 }

    predicate IsLdx() { Cls() == CLS_LDX }
  }

  /** Where a taken jump lands; a target before the image wraps to a huge pc. */
  function JumpTarget(pc: U32, off: int): U32 {
    ToU32(pc + 1 + off)
  }

  function Decode(e: U64): Insn {
    Insn(e % 0x100, e / 0x100 % 0x10, e / 0x1000 % 0x10, Signed16(e / 0x1_0000 % 0x1_0000), Signed32(e / TWO32))
  }

  function DecodeAll(ins: seq<U64>): (prog: seq<Insn>)
    ensures |prog| == |ins|
  {
    seq(|ins|, i requires 0 <= i < |ins| => Decode(ins[i]))
  }

  /** The EBPF_ENC macro: each field truncated to its width and put in place. */
  function Encode(op: int, d: int, s: int, o: int, i: int): U64 {
    op % 0x100 + 0x100 * (d % 0x10) + 0x1000 * (s % 0x10) + 0x1_0000 * (o % 0x1_0000) + TWO32 * (i % TWO32)
  }

  predicate InRange(i: Insn) {
    -0x8000 <= i.off < 0x8000 && -0x8000_0000 <= i.imm < 0x8000_0000
  }

  lemma LowByte(lo: Byte, hi: nat)
    ensures (lo + 0x100 * hi) % 0x100 == lo && (lo + 0x100 * hi) / 0x100 == hi
  {
  }

  lemma LowNibble(lo: Nibble, hi: nat)
    ensures (lo + 0x10 * hi) % 0x10 == lo && (lo + 0x10 * hi) / 0x10 == hi
  {
  }

  lemma LowHalf(lo: U16, hi: nat)
    ensures (lo + 0x1_0000 * hi) % 0x1_0000 == lo && (lo + 0x1_0000 * hi) / 0x1_0000 == hi
  {
  }

  lemma Quotients(e: nat)
    ensures e / 0x1000 == e / 0x100 / 0x10 && e / 0x1_0000 == e / 0x100 / 0x10 / 0x10
    ensures e / TWO32 == e / 0x1_0000 / 0x1_0000
  {
  }

  lemma FieldsOf(e: nat, op: Byte, d: Nibble, s: Nibble, o: U16, i: U32)
    requires e == op + 0x100 * d + 0x1000 * s + 0x1_0000 * o + TWO32 * i
    ensures e % 0x100 == op
    ensures e / 0x100 % 0x10 == d
    ensures e / 0x1000 % 0x10 == s
    ensures e / 0x1_0000 % 0x1_0000 == o
    ensures e / TWO32 == i
  {
    var c := o + 0x1_0000 * i;
    var b := s + 0x10 * c;
    var a := d + 0x10 * b;
    Quotients(e);
    LowByte(op, a);
    LowNibble(d, b);
    LowNibble(s, c);
    LowHalf(o, i);
  }

  /** Decoding inverts encoding on in-range fields. */
  lemma DecodeEncode(i: Insn)
    requires InRange(i)
    ensures Decode(Encode(i.opcode, i.dst, i.src, i.off, i.imm)) == i
  {
    var e := Encode(i.opcode, i.dst, i.src, i.off, i.imm);
    FieldsOf(e, i.opcode, i.dst, i.src, i.off % 0x1_0000, i.imm % TWO32);
  }

  lemma Recompose(e: nat)
    ensures e == e % 0x100 + 0x100 * (e / 0x100 % 0x10) + 0x1000 * (e / 0x1000 % 0x10)
              + 0x1_0000 * (e / 0x1_0000 % 0x1_0000) + TWO32 * (e / TWO32)
  {
    var a := e / 0x100;
    var b := a / 0x10;
    var c := b / 0x10;
    assert b == e / 0x1000;
    assert c == e / 0x1_0000;
    assert c / 0x1_0000 == e / TWO32;
  }

  lemma SignedWords(o: U16, m: U32)
    ensures Signed16(o) % 0x1_0000 == o
    ensures Signed32(m) % TWO32 == m
  {
  }

  /** Encoding inverts decoding on every word, so the two are a bijection. */
  lemma EncodeDecode(e: U64)
    ensures InRange(Decode(e))
    ensures var i := Decode(e); Encode(i.opcode, i.dst, i.src, i.off, i.imm) == e
  {
    Recompose(e);
    SignedWords(e / 0x1_0000 % 0x1_0000, e / TWO32);
  }

  // ----- the instruction macros of core/ebpf_asm.h used by the shipped policies -----

  function Mov64I(d: Nibble, i: int): Insn { Insn(0xb7, d, 0, 0, i) }
  function Sll64I(d: Nibble, i: int): Insn { Insn(0x67, d, 0, 0, i) }
  function Rsh64I(d: Nibble, i: int): Insn { Insn(0x77, d, 0, 0, i) }
  function Add64I(d: Nibble, i: int): Insn { Insn(0x07, d, 0, 0, i) }
  function Sub64I(d: Nibble, i: int): Insn { Insn(0x17, d, 0, 0, i) }
  function And64I(d: Nibble, i: int): Insn { Insn(0x57, d, 0, 0, i) }
  function Or64(d: Nibble, s: Nibble): Insn { Insn(0x4f, d, s, 0, 0) }
  function Mov64(d: Nibble, s: Nibble): Insn { Insn(0xbf, d, s, 0, 0) }
  function Jeq64I(d: Nibble, i: int, o: int): Insn { Insn(0x15, d, 0, o, i) }
  function Jne64I(d: Nibble, i: int, o: int): Insn { Insn(0x55, d, 0, o, i) }
  function Jgt64I(d: Nibble, i: int, o: int): Insn { Insn(0x25, d, 0, o, i) }
  function CallHelper(h: int): Insn { Insn(0x85, 0, 0, 0, h) }
  function Ldxb(d: Nibble, s: Nibble, o: int): Insn { Insn(0x71, d, s, o, 0) }
  function Ldxh(d: Nibble, s: Nibble, o: int): Insn { Insn(0x69, d, s, o, 0) }
  function Ldxw(d: Nibble, s: Nibble, o: int): Insn { Insn(0x61, d, s, o, 0) }
  function Exit(): Insn { Insn(0x95, 0, 0, 0, 0) }

  /** The unconditional jump, for which the source has no macro. */
  function Ja(o: int): Insn { Insn(0x05, 0, 0, o, 0) }

  function Assemble(prog: seq<Insn>): (ins: seq<U64>)
    ensures |ins| == |prog|
  {
    seq(|prog|, k requires 0 <= k < |prog| =>
      Encode(prog[k].opcode, prog[k].dst, prog[k].src, prog[k].off, prog[k].imm))
  }

  /** Assembling and decoding a program gives it back. */
  lemma AssembleDecodes(prog: seq<Insn>)
    requires forall k | 0 <= k < |prog| :: InRange(prog[k])
    ensures DecodeAll(Assemble(prog)) == prog
  {
    forall k | 0 <= k < |prog|
      ensures DecodeAll(Assemble(prog))[k] == prog[k]
    {
      DecodeEncode(prog[k]);
    }
  }
}
