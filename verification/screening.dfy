/** The shipped screening policy (modules/policies/screening.h): a count per grid cell, kept in
    the map by two helpers, refines plain counting; its C mirror (qemu/report.c) agrees. */
module Screening {
  import opened Words
  import opened Bits
  import opened Isa
  import opened Interpreter
  import opened Execution
  import opened Soundness
  import opened Packets

  const CELLS: int := 64

  /** The instruction at each pc of the policy. */
  function Text(pc: nat): Insn
    requires pc < 34
  {
    match pc
    case 0 => Ldxh(2, 1, 7)
    case 1 => Ldxb(3, 1, 9)
    case 2 => Sll64I(3, 16)
    case 3 => Or64(2, 3)
    case 4 => Mov64I(3, 33)
    case 5 => Jne64I(2, 33, 24)
    case 6 => Ldxw(4, 1, 10)
    case 7 => Ldxw(5, 1, 14)
    case 8 => Rsh64I(4, 26)
    case 9 => And64I(4, 7)
    case 10 => Rsh64I(5, 26)
    case 11 => And64I(5, 7)
    case 12 => Sll64I(4, 3)
    case 13 => Or64(4, 5)
    case 14 => Mov64(1, 4)
    case 15 => CallHelper(1)
    case 16 => Mov64(6, 0)
    case 17 => Add64I(6, 1)
    case 18 => Mov64(1, 4)
    case 19 => Mov64(2, 6)
    case 20 => CallHelper(2)
    case 21 => Jgt64I(6, 3, 10)
    case 22 => Mov64(1, 4)
    case 23 => Sub64I(1, 1)
    case 24 => CallHelper(1)
    case 25 => Jgt64I(0, 3, 6)
    case 26 => Mov64(1, 4)
    case 27 => Add64I(1, 1)
    case 28 => CallHelper(1)
    case 29 => Jgt64I(0, 3, 2)
    case 30 => Mov64I(0, 1)
    case 31 => Exit()
    case 32 => Mov64I(0, 5)
    case _ => Exit()
  }

  function Policy(): (prog: seq<Insn>)
    ensures |prog| == 34 && forall pc | 0 <= pc < 34 :: prog[pc] == Text(pc)
  {
    seq(34, pc requires 0 <= pc < 34 => Text(pc))
  }

  type Packet = p: seq<Byte> | |p| >= 18 witness seq(18, _ => 0)
  type Grid = g: seq<U32> | |g| == CELLS witness seq(64, _ => 0)

  predicate IsPosition(p: Packet) {
    MessageId(p) == 33
  }

  /** The grid cell of a position: three bits of latitude, three of longitude. */
  function CellOf(p: Packet): (c: nat)
    ensures c < CELLS
  {
    And(Shr(LoadLe(p[10..14]), 26), 7) * 8 + And(Shr(LoadLe(p[14..18]), 26), 7)
  }

  function Left(c: nat): nat { (c + CELLS - 1) % CELLS }

  function Right(c: nat): nat { (c + 1) % CELLS }

  /** The grid after one packet. */
  function Bump(p: Packet, g: Grid): Grid {
    if IsPosition(p) then g[CellOf(p) := ToU32(g[CellOf(p)] as int + 1)] else g
  }

  /** Whether the packet raises an alert: its cell or a circular neighbour is above three. */
  predicate Alert(p: Packet, g: Grid) {
    IsPosition(p) &&
    (g[CellOf(p)] as int + 1 > 3 || Bump(p, g)[Left(CellOf(p))] > 3 || Bump(p, g)[Right(CellOf(p))] > 3)
  }

  // ----- the helper index -----

  lemma CellIndex(x: nat)
    ensures And(x, CELLS - 1) == x % CELLS
  {
    assert Pow2(6) == CELLS;
    AndMask(x, 6);
  }

  lemma SixtyFourCells()
    ensures PowerOfTwo(CELLS)
  {
    CellIndex(CELLS);
    AndComm(CELLS, CELLS - 1);
  }

  lemma {:induction false} AndComm(a: nat, b: nat)
    ensures And(a, b) == And(b, a)
  {
    if a > 0 && b > 0 {
      AndComm(a / 2, b / 2);
    }
  }

  lemma CellIs(x: U64, y: nat)
    requires x % TWO32 == y
    ensures Cell(x, CELLS) == y % CELLS
  {
    CellIndex(y);
  }

  /** r1 reduced to 32 bits and masked: the cell itself, and its neighbours around the grid. */
  lemma OwnCell(c: nat)
    requires c < CELLS
    ensures Cell(c, CELLS) == c
  {
    CellIs(c, c);
  }

  lemma LeftWord(c: nat)
    requires c < CELLS
    ensures ToU64(c - 1) % TWO32 == if c == 0 then TWO32 - 1 else c - 1
  {
    if c == 0 {
      assert ToU64(c - 1) == TWO64 - 1;
    } else {
      assert ToU64(c - 1) == c - 1;
    }
  }

  lemma LeftIs(c: nat, word: nat)
    requires c < CELLS && word == if c == 0 then TWO32 - 1 else c - 1
    ensures word % CELLS == Left(c)
  {
  }

  lemma LeftCell(c: nat)
    requires c < CELLS
    ensures Cell(ToU64(c - 1), CELLS) == Left(c)
  {
    var word := if c == 0 then TWO32 - 1 else c - 1;
    LeftWord(c);
    LeftIs(c, word);
    CellIs(ToU64(c - 1), word);
  }

  lemma RightCell(c: nat)
    requires c < CELLS
    ensures Cell(ToU64(c + 1), CELLS) == Right(c)
  {
    assert ToU64(c + 1) == c + 1;
    CellIs(c + 1, c + 1);
  }

  lemma CellWord(p: Packet)
    ensures var a, b := And(Shr(LoadLe(p[10..14]), 26), 7), And(Shr(LoadLe(p[14..18]), 26), 7);
            Shl(a, 3) < TWO64 && Or(Shl(a, 3), b) == CellOf(p)
  {
    var a, b := And(Shr(LoadLe(p[10..14]), 26), 7), And(Shr(LoadLe(p[14..18]), 26), 7);
    assert Pow2(3) == 8;
    ShlIsMul(a, 3);
    OrDisjoint(b, a, 3);
  }

  // ----- the paths -----

  predicate Ready(env: Env) {
    |env.prog| == 34 && (forall pc | 0 <= pc < 34 :: env.prog[pc] == Text(pc)) && Placed(env) && |env.ctx| >= 18 &&
        env.hasMap
  }

  /** pc 0 to 4: the message id in r2. */
  lemma ReadId(env: Env, s: Machine) returns (s': Machine)
    requires Ready(env) && s.pc == 0 && s.regs[1] == env.base
    ensures Reaches(env, s, 4, s') && s'.pc == 4 && s'.regs[2] == MessageId(env.ctx)
    ensures s'.cells == s.cells && s'.regs[1] == env.base
  {
    assert BuildsId(env, s.pc, 2, 3);
    s' := BuildId(env, s, 2, 3);
  }

  /** pc 0 to 6, or to 30 when the packet is not a position report. */
  lemma Filter(env: Env, s: Machine) returns (s': Machine)
    requires Ready(env) && s.pc == 0 && s.regs[1] == env.base
    ensures Reaches(env, s, 6, s') && s'.pc == (if IsPosition(env.ctx) then 6 else 30)
    ensures s'.cells == s.cells && s'.regs[1] == env.base
  {
    var s4 := ReadId(env, s);
    MoveImm(env, s, 4, s4, 3, 33);
    var s5 := Put(s4, 3, 33);
    Branch(env, s, 5, s5, Jne64I(2, 33, 24));
    s' := Goto(s5, if IsPosition(env.ctx) then 6 else 30);
  }

  /** Two instructions that keep the three bits from bit 26 on. */
  lemma ThreeBits(env: Env, s: Machine, d: Nibble, v: U64) returns (s': Machine)
    requires s.pc + 2 < |env.prog| <= MAX_INSNS && 1 < d < 10 && s.regs[d] == v
    requires env.prog[s.pc] == Rsh64I(d, 26) && env.prog[s.pc + 1] == And64I(d, 7)
    ensures Reaches(env, s, 2, s') && s'.pc == s.pc + 2 && s'.cells == s.cells
    ensures And(Shr(v, 26), 7) < TWO64 && s'.regs == s.regs[d := And(Shr(v, 26), 7)]
  {
    ReachNone(env, s);
    ShiftRight(env, s, 0, s, d, 26);
    var s1 := Put(s, d, Shr(v, 26));
    MaskImm(env, s, 1, s1, d, 7);
    s' := Put(s1, d, And(Shr(v, 26), 7));
  }

  /** pc 6 to 8: latitude and longitude. */
  lemma LoadBoth(env: Env, s: Machine) returns (s': Machine)
    requires Ready(env) && s.pc == 6 && s.regs[1] == env.base
    ensures Reaches(env, s, 2, s') && s'.pc == 8 && s'.cells == s.cells
    ensures s'.regs[4] == LoadLe(env.ctx[10..14]) && s'.regs[5] == LoadLe(env.ctx[14..18])
  {
    ReachNone(env, s);
    Load(env, s, 0, s, Ldxw(4, 1, 10));
    var s1 := Put(s, 4, LoadLe(env.ctx[10..14]));
    Load(env, s, 1, s1, Ldxw(5, 1, 14));
    s' := Put(s1, 5, LoadLe(env.ctx[14..18]));
  }

  /** pc 6 to 12: the two masked coordinates. */
  lemma Coordinates(env: Env, s: Machine) returns (s': Machine)
    requires Ready(env) && s.pc == 6 && s.regs[1] == env.base
    ensures Reaches(env, s, 6, s') && s'.pc == 12 && s'.cells == s.cells
    ensures s'.regs[4] == And(Shr(LoadLe(env.ctx[10..14]), 26), 7)
    ensures s'.regs[5] == And(Shr(LoadLe(env.ctx[14..18]), 26), 7)
  {
    var a := LoadBoth(env, s);
    var b := ThreeBits(env, a, 4, a.regs[4]);
    ReachTwice(env, s, 2, a, 2, b);
    s' := ThreeBits(env, b, 5, b.regs[5]);
    ReachTwice(env, s, 4, b, 2, s');
  }

  /** pc 12 to 15: the cell number in r4 and r1. */
  lemma JoinCell(env: Env, s: Machine, a: U64, b: U64, c: U64) returns (s': Machine)
    requires Ready(env) && s.pc == 12 && s.regs[4] == a && s.regs[5] == b
    requires Shl(a, 3) < TWO64 && Or(Shl(a, 3), b) == c
    ensures Reaches(env, s, 3, s') && s'.pc == 15 && s'.cells == s.cells && s'.regs[4] == s'.regs[1] == c
  {
    ReachNone(env, s);
    ShiftLeft(env, s, 0, s, 4, 3);
    var s1 := Put(s, 4, Shl(a, 3));
    OrReg(env, s, 1, s1, 4, 5);
    var s2 := Put(s1, 4, c);
    Move(env, s, 2, s2, 1, 4);
    s' := Put(s2, 1, c);
  }

  lemma CellNumber(env: Env, s: Machine) returns (s': Machine)
    requires Ready(env) && s.pc == 12
    requires s.regs[4] == And(Shr(LoadLe(env.ctx[10..14]), 26), 7)
    requires s.regs[5] == And(Shr(LoadLe(env.ctx[14..18]), 26), 7)
    ensures Reaches(env, s, 3, s') && s'.pc == 15 && s'.cells == s.cells
    ensures s'.regs[4] == s'.regs[1] == CellOf(env.ctx)
  {
    CellWord(env.ctx);
    s' := JoinCell(env, s, s.regs[4], s.regs[5], CellOf(env.ctx));
  }

  /** pc 15 to 18: the count of the cell, one up, in r6. */
  lemma FetchCount(env: Env, s: Machine, c: nat) returns (s': Machine)
    requires Ready(env) && s.pc == 15 && |s.cells| == CELLS && c < CELLS && s.regs[1] == s.regs[4] == c
    ensures Reaches(env, s, 3, s') && s'.pc == 18 && s'.cells == s.cells
    ensures s'.regs[4] == c && s'.regs[6] == s.cells[c] as int + 1
  {
    SixtyFourCells();
    OwnCell(c);
    ReachNone(env, s);
    CallLoad(env, s, 0, s);
    var s1 := Put(s, 0, s.cells[c]);
    Move(env, s, 1, s1, 6, 0);
    var s2 := Put(s1, 6, s.cells[c]);
    AddImm(env, s, 2, s2, 6, 1);
    s' := Put(s2, 6, s.cells[c] as int + 1);
  }

  /** pc 18 to 20: cell and count where the helper takes them. */
  lemma StoreArgs(env: Env, s: Machine, c: nat) returns (s': Machine)
    requires Ready(env) && s.pc == 18 && c < CELLS && s.regs[4] == c
    ensures Reaches(env, s, 2, s') && s'.pc == 20 && s'.cells == s.cells
    ensures s'.regs[1] == s'.regs[4] == c && s'.regs[2] == s'.regs[6] == s.regs[6]
  {
    ReachNone(env, s);
    Move(env, s, 0, s, 1, 4);
    var s1 := Put(s, 1, c);
    Move(env, s, 1, s1, 2, 6);
    s' := Put(s1, 2, s.regs[6]);
  }

  /** pc 20 to 22 or 32: store the count, truncated, and test it, 64 bits wide. */
  lemma StoreTest(env: Env, s: Machine, c: nat, v: U64) returns (s': Machine)
    requires Ready(env) && s.pc == 20 && |s.cells| == CELLS && c < CELLS
    requires s.regs[1] == s.regs[4] == c && s.regs[2] == s.regs[6] == v
    ensures Reaches(env, s, 2, s') && s'.regs[4] == c && s'.cells == s.cells[c := ToU32(v)]
    ensures s'.pc == if v > 3 then 32 else 22
  {
    SixtyFourCells();
    OwnCell(c);
    ReachNone(env, s);
    CallStore(env, s, 0, s);
    var s1 := Machine(s.regs[0 := 0], 21, s.cells[c := ToU32(v)]);
    Branch(env, s, 1, s1, Jgt64I(6, 3, 10));
    s' := Goto(s1, if v > 3 then 32 else 22);
  }

  /** pc 18 to 22 or 32. */
  lemma StoreCount(env: Env, s: Machine, c: nat) returns (s': Machine)
    requires Ready(env) && s.pc == 18 && |s.cells| == CELLS && c < CELLS && s.regs[4] == c
    ensures Reaches(env, s, 4, s') && s'.regs[4] == c && s'.cells == s.cells[c := ToU32(s.regs[6])]
    ensures s'.pc == if s.regs[6] > 3 then 32 else 22
  {
    var t := StoreArgs(env, s, c);
    s' := StoreTest(env, t, c, s.regs[6]);
    ReachTwice(env, s, 2, t, 2, s');
  }

  /** pc 15 to 22 or 32: the cell counted up. */
  lemma CountUp(env: Env, s: Machine, c: nat) returns (s': Machine)
    requires Ready(env) && s.pc == 15 && |s.cells| == CELLS && c < CELLS && s.regs[1] == s.regs[4] == c
    ensures Reaches(env, s, 7, s') && s'.regs[4] == c && s'.cells == s.cells[c := ToU32(s.cells[c] as int + 1)]
    ensures s'.pc == if s.cells[c] as int + 1 > 3 then 32 else 22
  {
    var t := FetchCount(env, s, c);
    s' := StoreCount(env, t, c);
    ReachTwice(env, s, 3, t, 4, s');
  }

  /** Fetch the cell r1 selects and test it. */
  lemma LookUp(env: Env, s: Machine, c: nat, skip: nat) returns (s': Machine)
    requires env.hasMap && |s.cells| == CELLS && c < CELLS && Cell(s.regs[1], CELLS) == c && skip < 34
    requires At(env, s, CallHelper(1)) && s.pc + 1 < |env.prog| && env.prog[s.pc + 1] == Jgt64I(0, 3, skip)
    ensures Reaches(env, s, 2, s') && s'.regs[4] == s.regs[4] && s'.cells == s.cells
    ensures s'.pc == s.pc + 2 + if s.cells[c] > 3 then skip else 0
  {
    SixtyFourCells();
    ReachNone(env, s);
    CallLoad(env, s, 0, s);
    var s1 := Put(s, 0, s.cells[c]);
    Branch(env, s, 1, s1, Jgt64I(0, 3, skip));
    s' := Goto(s1, s.pc + 2 + if s.cells[c] > 3 then skip else 0);
  }

  /** pc 22 to 24 and 26 to 28: a neighbour in r1. */
  lemma GoLeft(env: Env, s: Machine, c: nat) returns (s': Machine)
    requires Ready(env) && s.pc == 22 && c < CELLS && s.regs[4] == c
    ensures Reaches(env, s, 2, s') && s'.pc == 24 && s'.regs[4] == c && s'.cells == s.cells
    ensures Cell(s'.regs[1], CELLS) == Left(c)
  {
    LeftCell(c);
    ReachNone(env, s);
    Move(env, s, 0, s, 1, 4);
    var s1 := Put(s, 1, c);
    SubImm(env, s, 1, s1, 1, 1);
    s' := Put(s1, 1, ToU64(c - 1));
  }

  lemma GoRight(env: Env, s: Machine, c: nat) returns (s': Machine)
    requires Ready(env) && s.pc == 26 && c < CELLS && s.regs[4] == c
    ensures Reaches(env, s, 2, s') && s'.pc == 28 && s'.cells == s.cells
    ensures Cell(s'.regs[1], CELLS) == Right(c)
  {
    RightCell(c);
    ReachNone(env, s);
    Move(env, s, 0, s, 1, 4);
    var s1 := Put(s, 1, c);
    AddImm(env, s, 1, s1, 1, 1);
    s' := Put(s1, 1, ToU64(c + 1));
  }

  /** pc 22 to 26 or 32: the left neighbour. */
  lemma TestLeft(env: Env, s: Machine, c: nat) returns (s': Machine)
    requires Ready(env) && s.pc == 22 && |s.cells| == CELLS && c < CELLS && s.regs[4] == c
    ensures Reaches(env, s, 4, s') && s'.regs[4] == c && s'.cells == s.cells
    ensures s'.pc == if s.cells[Left(c)] > 3 then 32 else 26
  {
    var t := GoLeft(env, s, c);
    s' := LookUp(env, t, Left(c), 6);
    ReachTwice(env, s, 2, t, 2, s');
  }

  /** pc 26 to 30 or 32: the right neighbour. */
  lemma TestRight(env: Env, s: Machine, c: nat) returns (s': Machine)
    requires Ready(env) && s.pc == 26 && |s.cells| == CELLS && c < CELLS && s.regs[4] == c
    ensures Reaches(env, s, 4, s') && s'.cells == s.cells
    ensures s'.pc == if s.cells[Right(c)] > 3 then 32 else 30
  {
    var t := GoRight(env, s, c);
    s' := LookUp(env, t, Right(c), 2);
    ReachTwice(env, s, 2, t, 2, s');
  }

  /** pc 6 to 22 or 32: the cell of the report counted up. */
  lemma CountCell(env: Env, s: Machine, c: nat) returns (s': Machine)
    requires Ready(env) && s.pc == 6 && s.regs[1] == env.base && |s.cells| == CELLS && c == CellOf(env.ctx)
    ensures Reaches(env, s, 16, s') && s'.regs[4] == c && s'.cells == s.cells[c := ToU32(s.cells[c] as int + 1)]
    ensures s'.pc == if s.cells[c] as int + 1 > 3 then 32 else 22
  {
    var a := Coordinates(env, s);
    var b := CellNumber(env, a);
    ReachTwice(env, s, 6, a, 3, b);
    s' := CountUp(env, b, c);
    ReachTwice(env, s, 9, b, 7, s');
  }

  /** A position report, from pc 6 to its verdict. */
  lemma Position(env: Env, s: Machine) returns (s': Machine, n: nat)
    requires Ready(env) && s.pc == 6 && s.regs[1] == env.base && |s.cells| == CELLS && IsPosition(env.ctx)
    ensures Reaches(env, s, n, s') && n <= 24 && s'.cells == Bump(env.ctx, s.cells)
    ensures s'.pc == if Alert(env.ctx, s.cells) then 32 else 30
  {
    var c := CellOf(env.ctx);
    var d := CountCell(env, s, c);
    s', n := d, 16;
    if d.pc == 22 {
      var e := TestLeft(env, d, c);
      ReachTwice(env, s, 16, d, 4, e);
      s', n := e, 20;
      if e.pc == 26 {
        var f := TestRight(env, e, c);
        ReachTwice(env, s, 20, e, 4, f);
        s', n := f, 24;
      }
    }
  }

  lemma Verdict(env: Env, s: Machine) returns (s': Machine)
    requires Ready(env) && (s.pc == 30 || s.pc == 32)
    ensures Reaches(env, s, 1, s') && At(env, s', Exit()) && s'.regs[0] == (if s.pc == 30 then 1 else 5) &&
            s'.cells == s.cells
  {
    var v := if s.pc == 30 then 1 else 5;
    ReachNone(env, s);
    MoveImm(env, s, 0, s, 0, v);
    s' := Put(s, 0, v);
  }

  /** One packet through the interpreter: no fault, the grid bumped, 5 exactly on an alert. */
  lemma PolicyScreens(base: U64, p: Packet, maxSteps: nat, g: Grid)
    requires 8 <= base && base + |p| <= TWO32 && maxSteps >= 32
    ensures var r := Run(Assemble(Policy()), base, p, maxSteps, true, g);
            r.fault == Ok && r.retval == (if Alert(p, g) then 5 else 1) && r.cells == Bump(p, g) && r.executed <= 32
  {
    AssembleDecodes(Policy());
    var env := Env(Policy(), base, p, true);
    var s := Start(base, g);
    var a := Filter(env, s);
    var b, n := a, 6;
    if IsPosition(p) {
      var k;
      b, k := Position(env, a);
      ReachTwice(env, s, 6, a, k, b);
      n := 6 + k;
    }
    var e := Verdict(env, b);
    ReachTwice(env, s, n, b, 1, e);
    Finish(env, s, n + 1, e, maxSteps);
  }

  // ----- streams of packets -----

  /** A packet of the stream, at an address of its own. */
  type Report = p: Located | |p.bytes| >= 18 witness Located(0, seq(18, _ => 0))

  function ZeroGrid(): (g: Grid)
    ensures forall c | 0 <= c < CELLS :: g[c] == 0
  {
    seq(64, _ => 0)
  }

  function RunOn(p: Report, maxSteps: nat, g: seq<U32>): RunResult {
    Run(Assemble(Policy()), p.base, p.bytes, maxSteps, true, g)
  }

  /** The grid after a stream, each packet run by the interpreter on the map the last one left. */
  function StreamGrid(packets: seq<Report>, maxSteps: nat): seq<U32> {
    if |packets| == 0 then ZeroGrid()
    else RunOn(packets[|packets| - 1], maxSteps, StreamGrid(packets[..|packets| - 1], maxSteps)).cells
  }

  /** The result of the run on packet i of a stream. */
  function StreamRun(packets: seq<Report>, maxSteps: nat, i: nat): RunResult
    requires i < |packets|
  {
    RunOn(packets[i], maxSteps, StreamGrid(packets[..i], maxSteps))
  }

  predicate InCell(p: Report, c: nat) {
    IsPosition(p.bytes) && CellOf(p.bytes) == c
  }

  /** How many position reports of the stream fall in cell c. */
  function Count(packets: seq<Report>, c: nat): nat {
    if |packets| == 0 then 0
    else Count(packets[..|packets| - 1], c) + if InCell(packets[|packets| - 1], c) then 1 else 0
  }

  predicate Crowded(packets: seq<Report>, c: nat) {
    Count(packets, c) > 3 || Count(packets, Left(c)) > 3 || Count(packets, Right(c)) > 3
  }

  /** Packet i is a position report whose cell, or one beside it around the grid, has been
      reported more than three times so far. */
  predicate Suspicious(packets: seq<Report>, i: nat)
    requires i < |packets|
  {
    IsPosition(packets[i].bytes) && Crowded(packets[..i + 1], CellOf(packets[i].bytes))
  }

  predicate OnBoard(p: Report) {
    8 <= p.base && p.base + |p.bytes| <= TWO32
  }

  predicate Hosted(packets: seq<Report>) {
    forall i | 0 <= i < |packets| :: OnBoard(packets[i])
  }

  lemma {:induction false} CountBound(packets: seq<Report>, c: nat)
    ensures Count(packets, c) <= |packets|
  {
    if |packets| > 0 {
      CountBound(packets[..|packets| - 1], c);
    }
  }

  /** A grid that holds exactly the counts of a stream. */
  predicate Holds(g: seq<U32>, packets: seq<Report>) {
    |g| == CELLS && forall c | 0 <= c < CELLS :: g[c] == Count(packets, c)
  }

  lemma CountStep(packets: seq<Report>, i: nat, d: nat)
    requires i < |packets|
    ensures Count(packets[..i + 1], d) == Count(packets[..i], d) + if InCell(packets[i], d) then 1 else 0
    ensures Count(packets[..i], d) <= i
  {
    CountBound(packets[..i], d);
    var now := packets[..i + 1];
    assert now[..i] == packets[..i] && now[|now| - 1] == packets[i];
  }

  lemma BumpAt(p: Packet, g: Grid, d: nat)
    requires d < CELLS
    ensures Bump(p, g)[d] == if IsPosition(p) && CellOf(p) == d then ToU32(g[d] as int + 1) else g[d]
  {
  }

  lemma BumpHoldsAt(packets: seq<Report>, i: nat, g: Grid, d: nat)
    requires i < |packets| < TWO32 && d < CELLS && g[d] == Count(packets[..i], d)
    ensures Bump(packets[i].bytes, g)[d] == Count(packets[..i + 1], d)
  {
    BumpAt(packets[i].bytes, g, d);
    CountStep(packets, i, d);
    NoWrap(g[d]);
  }

  lemma NoWrap(n: U32)
    requires n < TWO32 - 1
    ensures ToU32(n + 1) == n + 1
  {
  }

  /** One more packet: the bumped grid holds the new counts. */
  lemma BumpHolds(packets: seq<Report>, i: nat, g: Grid)
    requires i < |packets| < TWO32 && Holds(g, packets[..i])
    ensures Holds(Bump(packets[i].bytes, g), packets[..i + 1])
  {
    forall d | 0 <= d < CELLS
      ensures Bump(packets[i].bytes, g)[d] == Count(packets[..i + 1], d)
    {
      BumpHoldsAt(packets, i, g, d);
    }
  }

  /** And the alert is the crowded test on the counts that include the packet. */
  lemma BumpCounts(packets: seq<Report>, i: nat, g: Grid)
    requires i < |packets| < TWO32 && Holds(g, packets[..i])
    ensures Holds(Bump(packets[i].bytes, g), packets[..i + 1])
    ensures Alert(packets[i].bytes, g) <==> Suspicious(packets, i)
  {
    BumpHolds(packets, i, g);
    CountStep(packets, i, CellOf(packets[i].bytes));
  }

  lemma StreamNext(packets: seq<Report>, maxSteps: nat, i: nat)
    requires i < |packets|
    ensures StreamGrid(packets[..i + 1], maxSteps) == StreamRun(packets, maxSteps, i).cells
  {
    assert packets[..i + 1][..i] == packets[..i];
  }

  /** The map is the exact count: each cell holds the number of position reports in it. */
  lemma {:induction false} GridCounts(packets: seq<Report>, maxSteps: nat, i: nat)
    requires Hosted(packets) && maxSteps >= 32 && i <= |packets| < TWO32
    ensures Holds(StreamGrid(packets[..i], maxSteps), packets[..i])
  {
    if i > 0 {
      GridCounts(packets, maxSteps, i - 1);
      var g, p := StreamGrid(packets[..i - 1], maxSteps), packets[i - 1];
      PolicyScreens(p.base, p.bytes, maxSteps, g);
      BumpCounts(packets, i - 1, g);
      StreamNext(packets, maxSteps, i - 1);
    }
  }

  /** The right result for packet i. */
  predicate Judged(packets: seq<Report>, i: nat, r: RunResult)
    requires i < |packets|
  {
    r.fault == Ok && r.executed <= 32 && r.retval == if Suspicious(packets, i) then 5 else 1
  }

  predicate AllJudged(packets: seq<Report>, rs: seq<RunResult>)
    requires |rs| <= |packets|
  {
    forall i | 0 <= i < |rs| :: Judged(packets, i, rs[i])
  }

  /** The screening theorem: over any stream no run faults, each takes at most 32 instructions,
      and packet i gets verdict 5 exactly when it is suspicious, else 1. */
  lemma StreamVerdicts(packets: seq<Report>, maxSteps: nat, i: nat)
    requires Hosted(packets) && maxSteps >= 32 && i < |packets| < TWO32
    ensures Judged(packets, i, StreamRun(packets, maxSteps, i))
  {
    GridCounts(packets, maxSteps, i);
    var g, p := StreamGrid(packets[..i], maxSteps), packets[i];
    PolicyScreens(p.base, p.bytes, maxSteps, g);
    BumpCounts(packets, i, g);
  }

  /** The results of the first n packets. */
  function StreamResults(packets: seq<Report>, maxSteps: nat, n: nat): (rs: seq<RunResult>)
    requires n <= |packets|
    ensures |rs| == n
  {
    if n == 0 then [] else StreamResults(packets, maxSteps, n - 1) + [StreamRun(packets, maxSteps, n - 1)]
  }

  lemma {:induction false} JudgedNext(packets: seq<Report>, rs: seq<RunResult>, r: RunResult)
    requires |rs| < |packets| && AllJudged(packets, rs) && Judged(packets, |rs|, r)
    ensures AllJudged(packets, rs + [r])
  {
  }

  /** The alerts among the first n packets. */
  function Alerts(packets: seq<Report>, n: nat): (k: nat)
    requires n <= |packets|
    ensures k <= n
  {
    if n == 0 then 0 else Alerts(packets, n - 1) + if Suspicious(packets, n - 1) then 1 else 0
  }

  // ----- the mirror -----

  /** How many packets of the stream, whatever their message id, fall in cell c. */
  function MirrorCount(packets: seq<Report>, c: nat): nat {
    if |packets| == 0 then 0
    else MirrorCount(packets[..|packets| - 1], c) + if CellOf(packets[|packets| - 1].bytes) == c then 1 else 0
  }

  predicate MirrorCrowded(packets: seq<Report>, c: nat) {
    MirrorCount(packets, c) > 3 || MirrorCount(packets, Left(c)) > 3 || MirrorCount(packets, Right(c)) > 3
  }

  /** The mirror's test of packet i. */
  predicate MirrorAlarm(packets: seq<Report>, i: nat)
    requires i < |packets|
  {
    MirrorCrowded(packets[..i + 1], CellOf(packets[i].bytes))
  }

  function MirrorAlerts(packets: seq<Report>, n: nat): nat
    requires n <= |packets|
  {
    if n == 0 then 0 else MirrorAlerts(packets, n - 1) + if MirrorAlarm(packets, n - 1) then 1 else 0
  }

  predicate MirrorHolds(g: seq<U32>, packets: seq<Report>) {
    |g| == CELLS && forall c | 0 <= c < CELLS :: g[c] == MirrorCount(packets, c)
  }

  lemma {:induction false} MirrorBound(packets: seq<Report>, c: nat)
    ensures Count(packets, c) <= MirrorCount(packets, c) <= |packets|
  {
    if |packets| > 0 {
      MirrorBound(packets[..|packets| - 1], c);
    }
  }

  lemma MirrorNext(packets: seq<Report>, i: nat, d: nat)
    requires i < |packets|
    ensures MirrorCount(packets[..i + 1], d)
         == MirrorCount(packets[..i], d) + if CellOf(packets[i].bytes) == d then 1 else 0
    ensures MirrorCount(packets[..i], d) <= i
  {
    MirrorBound(packets[..i], d);
    var now := packets[..i + 1];
    assert now[..i] == packets[..i] && now[|now| - 1] == packets[i];
  }

  lemma MirrorKeeps(packets: seq<Report>, i: nat, g: seq<U32>, c: nat, g': seq<U32>)
    requires i < |packets| < TWO32 && MirrorHolds(g, packets[..i])
    requires c == CellOf(packets[i].bytes) && g' == g[c := ToU32(g[c] as int + 1)]
    ensures MirrorHolds(g', packets[..i + 1])
  {
    forall d | 0 <= d < CELLS
      ensures g'[d] == MirrorCount(packets[..i + 1], d)
    {
      MirrorKeepsAt(packets, i, g[d], c, d);
    }
  }

  lemma MirrorKeepsAt(packets: seq<Report>, i: nat, n: U32, c: nat, d: nat)
    requires i < |packets| < TWO32 && c == CellOf(packets[i].bytes) && n == MirrorCount(packets[..i], d)
    ensures (if c == d then ToU32(n + 1) else n) == MirrorCount(packets[..i + 1], d)
  {
    MirrorNext(packets, i, d);
    NoWrap(n);
  }

  lemma MirrorTest(packets: seq<Report>, i: nat, g: seq<U32>, c: nat)
    requires i < |packets| && MirrorHolds(g, packets[..i + 1]) && c == CellOf(packets[i].bytes)
    ensures MirrorAlarm(packets, i) <==> g[c] > 3 || g[(c + 63) % 64] > 3 || g[(c + 1) % 64] > 3
  {
  }

  /** One turn of the mirror's loop: it counts the packet whatever its message id. */
  method MirrorOne(packets: seq<Report>, i: nat, m: array<U32>, alerts: nat) returns (alerts': nat)
    requires i < |packets| < TWO32 && MirrorHolds(m[..], packets[..i]) && alerts == MirrorAlerts(packets, i)
    modifies m
    ensures MirrorHolds(m[..], packets[..i + 1]) && alerts' == MirrorAlerts(packets, i + 1)
  {
    ghost var before := m[..];
    var p := packets[i].bytes;
    var lat, lon := LoadLe(p[10..14]), LoadLe(p[14..18]);
    var c := And(Shr(lat, 26), 7) * 8 + And(Shr(lon, 26), 7);
    assert c == CellOf(p);
    m[c] := ToU32(m[c] as int + 1);
    MirrorKeeps(packets, i, before, c, m[..]);
    var left, right := m[(c + 63) % 64], m[(c + 1) % 64];
    var alert := m[c] > 3 || left > 3 || right > 3;
    MirrorTest(packets, i, m[..], c);
    alerts' := if alert then alerts + 1 else alerts;
  }

  /** The C mirror of `report`. */
  method Mirror(packets: seq<Report>) returns (alerts: nat)
    requires |packets| < TWO32
    ensures alerts == MirrorAlerts(packets, |packets|)
  {
    var m := new U32[64](_ => 0);
    alerts := 0;
    assert packets[..0] == [];
    for i := 0 to |packets|
      invariant MirrorHolds(m[..], packets[..i]) && alerts == MirrorAlerts(packets, i)
    {
      alerts := MirrorOne(packets, i, m, alerts);
    }
  }

  /** Whatever the policy alerts on, the mirror does too. */
  lemma SuspiciousAlarms(packets: seq<Report>, i: nat)
    requires i < |packets| && Suspicious(packets, i)
    ensures MirrorAlarm(packets, i)
  {
    var c := CellOf(packets[i].bytes);
    MirrorBound(packets[..i + 1], c);
    MirrorBound(packets[..i + 1], Left(c));
    MirrorBound(packets[..i + 1], Right(c));
  }

  function Total(flags: seq<bool>): nat {
    if |flags| == 0 then 0 else Total(flags[..|flags| - 1]) + if flags[|flags| - 1] then 1 else 0
  }

  /** Of two lists of flags, one implying the other, the totals are ordered, and equal only if the lists are. */
  lemma {:induction false} TotalsOrdered(a: seq<bool>, b: seq<bool>)
    requires |a| == |b| && forall i | 0 <= i < |a| && a[i] :: b[i]
    ensures Total(a) <= Total(b)
    ensures Total(a) == Total(b) <==> a == b
  {
    if |a| > 0 {
      var n := |a| - 1;
      TotalsOrdered(a[..n], b[..n]);
      assert a == a[..n] + [a[n]] && b == b[..n] + [b[n]];
    }
  }

  function Suspicions(packets: seq<Report>, n: nat): (flags: seq<bool>)
    requires n <= |packets|
    ensures |flags| == n && forall i | 0 <= i < n :: flags[i] == Suspicious(packets, i)
  {
    seq(n, i requires 0 <= i < n => Suspicious(packets, i))
  }

  function Alarms(packets: seq<Report>, n: nat): (flags: seq<bool>)
    requires n <= |packets|
    ensures |flags| == n && forall i | 0 <= i < n :: flags[i] == MirrorAlarm(packets, i)
  {
    seq(n, i requires 0 <= i < n => MirrorAlarm(packets, i))
  }

  lemma {:induction false} AlertsAreTotal(packets: seq<Report>, n: nat)
    requires n <= |packets|
    ensures Alerts(packets, n) == Total(Suspicions(packets, n))
  {
    if n > 0 {
      AlertsAreTotal(packets, n - 1);
      assert Suspicions(packets, n)[..n - 1] == Suspicions(packets, n - 1);
    }
  }

  lemma {:induction false} MirrorIsTotal(packets: seq<Report>, n: nat)
    requires n <= |packets|
    ensures MirrorAlerts(packets, n) == Total(Alarms(packets, n))
  {
    if n > 0 {
      MirrorIsTotal(packets, n - 1);
      assert Alarms(packets, n)[..n - 1] == Alarms(packets, n - 1);
    }
  }

  lemma FlagsAgree(packets: seq<Report>, n: nat, a: seq<bool>, b: seq<bool>)
    requires n <= |packets| && a == Suspicions(packets, n) && b == Alarms(packets, n)
    ensures forall i | 0 <= i < n && a[i] :: b[i]
    ensures a == b <==> forall i | 0 <= i < n && MirrorAlarm(packets, i) :: Suspicious(packets, i)
  {
    forall i | 0 <= i < n && a[i]
      ensures b[i]
    {
      SuspiciousAlarms(packets, i);
    }
  }

  /** The mirror never counts fewer alerts than the policy, and it counts as many exactly when every
      packet it alerts on is a suspicious position report. */
  lemma MirrorAgreesExactly(packets: seq<Report>, n: nat)
    requires n <= |packets|
    ensures Alerts(packets, n) <= MirrorAlerts(packets, n)
    ensures Alerts(packets, n) == MirrorAlerts(packets, n)
       <==> forall i | 0 <= i < n && MirrorAlarm(packets, i) :: Suspicious(packets, i)
  {
    var a, b := Suspicions(packets, n), Alarms(packets, n);
    AlertsAreTotal(packets, n);
    MirrorIsTotal(packets, n);
    FlagsAgree(packets, n, a, b);
    TotalsOrdered(a, b);
  }

  function Copies(p: Report, n: nat): (packets: seq<Report>)
    ensures |packets| == n && forall i | 0 <= i < n :: packets[i] == p
  {
    seq(n, _ => p)
  }

  lemma {:induction false} CopiesCount(p: Report, n: nat, c: nat)
    ensures MirrorCount(Copies(p, n), c) == if CellOf(p.bytes) == c then n else 0
  {
    if n > 0 {
      assert Copies(p, n)[..n - 1] == Copies(p, n - 1);
      CopiesCount(p, n - 1, c);
    }
  }

  lemma CopiesAlarm(p: Report, n: nat, i: nat)
    requires i < n
    ensures MirrorAlarm(Copies(p, n), i) <==> i >= 3
  {
    var c := CellOf(p.bytes);
    assert Copies(p, n)[..i + 1] == Copies(p, i + 1);
    CopiesCount(p, i + 1, c);
    CopiesCount(p, i + 1, Left(c));
    CopiesCount(p, i + 1, Right(c));
  }

  /** They disagree on packets of another kind: n copies of one that is no position report raise no
      alert of the policy, and from the fourth on one each of the mirror. */
  lemma {:induction false} OtherPacketsDisagree(p: Report, n: nat, k: nat)
    requires !IsPosition(p.bytes) && k <= n
    ensures Alerts(Copies(p, n), k) == 0 && MirrorAlerts(Copies(p, n), k) == if k <= 3 then 0 else k - 3
  {
    if k > 0 {
      OtherPacketsDisagree(p, n, k - 1);
      CopiesAlarm(p, n, k - 1);
    }
  }

  lemma {:induction false} PositionsCount(packets: seq<Report>, c: nat)
    requires forall i | 0 <= i < |packets| :: IsPosition(packets[i].bytes)
    ensures MirrorCount(packets, c) == Count(packets, c)
  {
    if |packets| > 0 {
      PositionsCount(packets[..|packets| - 1], c);
    }
  }

  /** In particular the totals agree on a stream of position reports. */
  lemma MirrorOfPositions(packets: seq<Report>)
    requires forall i | 0 <= i < |packets| :: IsPosition(packets[i].bytes)
    ensures MirrorAlerts(packets, |packets|) == Alerts(packets, |packets|)
  {
    forall i | 0 <= i < |packets| && MirrorAlarm(packets, i)
      ensures Suspicious(packets, i)
    {
      var c := CellOf(packets[i].bytes);
      PositionsCount(packets[..i + 1], c);
      PositionsCount(packets[..i + 1], Left(c));
      PositionsCount(packets[..i + 1], Right(c));
    }
    MirrorAgreesExactly(packets, |packets|);
  }
}
