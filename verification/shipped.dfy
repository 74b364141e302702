/** The two shipped policies pass the load-time check, so everything proved of accepted
    programs holds of them. */
module Shipped {
  import opened Isa
  import opened RegTypes
  import opened Dataflow
  import opened Admission
  import Mavlink
  import Screening

  /** What is known of each register of the filter before the instruction at pc. */
  function MavlinkType(pc: nat, r: nat): Type {
    if r == 1 then CTX
    else if r == 2 && pc >= 1 then SCALAR
    else if r == 3 && pc >= 2 then SCALAR
    else if r == 4 && 4 <= pc < 22 then SCALAR
    else if r == 5 && 5 <= pc < 22 then SCALAR
    else if r == 9 && (13 <= pc < 16 || 17 <= pc < 22) then SCALAR
    else if r == 6 && 19 <= pc < 22 then SCALAR
    else if r == 0 && (pc == 11 || pc == 15 || pc == 21 || pc == 23 || pc == 25 || pc == 27) then SCALAR
    else BOTTOM
  }

  lemma MavlinkFits(i: Insn, pc: nat)
    requires pc < 28 && i == Mavlink.Text(pc)
    ensures Fits(i, MavlinkType, pc, 28) && InRange(i)
  {
    if pc < 6 {
      MavlinkFits1(i, pc);
    } else if pc < 11 {
      MavlinkFits2(i, pc);
    } else if pc < 17 {
      MavlinkFits3(i, pc);
    } else if pc < 22 {
      MavlinkFits4(i, pc);
    } else {
      MavlinkFits5(i, pc);
    }
  }

  lemma MavlinkFits1(i: Insn, pc: nat)
    requires pc < 6 && i == Mavlink.Text(pc)
    ensures Fits(i, MavlinkType, pc, 28) && InRange(i)
  {
  }

  lemma MavlinkFits2(i: Insn, pc: nat)
    requires 6 <= pc < 11 && i == Mavlink.Text(pc)
    ensures Fits(i, MavlinkType, pc, 28) && InRange(i)
  {
  }

  lemma MavlinkFits3(i: Insn, pc: nat)
    requires 11 <= pc < 17 && i == Mavlink.Text(pc)
    ensures Fits(i, MavlinkType, pc, 28) && InRange(i)
  {
  }

  lemma MavlinkFits4(i: Insn, pc: nat)
    requires 17 <= pc < 22 && i == Mavlink.Text(pc)
    ensures Fits(i, MavlinkType, pc, 28) && InRange(i)
  {
  }

  lemma MavlinkFits5(i: Insn, pc: nat)
    requires 22 <= pc < 28 && i == Mavlink.Text(pc)
    ensures Fits(i, MavlinkType, pc, 28) && InRange(i)
  {
  }

  lemma MavlinkLoadsAt(i: Insn, k: nat)
    requires k < 28 && i == Mavlink.Text(k) && IsLoad(i.opcode)
    ensures k == 0 || k == 3 || k == 4 || k == 12 || k == 16 || k == 18
  {
  }

  /** The ways the loads are reached: 0..7, then 12 from 7, or 8, 16..18 from 8. */
  lemma MavlinkEdges(prog: seq<Insn>)
    requires |prog| == 28 && forall pc | 0 <= pc < 28 :: prog[pc] == Mavlink.Text(pc)
    ensures forall pc | 0 <= pc < 8 || 16 <= pc < 18 :: pc + 1 in Succ(prog[pc], pc)
    ensures 12 in Succ(prog[7], 7) && 16 in Succ(prog[8], 8)
  {
    forall pc | 0 <= pc < 8 || 16 <= pc < 18
      ensures pc + 1 in Succ(prog[pc], pc)
    {
      MavlinkFits(prog[pc], pc);
      FallsThrough(prog[pc], MavlinkType, pc, 28);
    }
    MavlinkFits(prog[7], 7);
    BranchesTo(prog[7], MavlinkType, 7, 28);
    MavlinkFits(prog[8], 8);
    BranchesTo(prog[8], MavlinkType, 8, 28);
  }

  lemma MavlinkReached(prog: seq<Insn>, k: nat)
    requires |prog| == 28
    requires forall pc | 0 <= pc < 8 || 16 <= pc < 18 :: pc + 1 in Succ(prog[pc], pc)
    requires 12 in Succ(prog[7], 7) && 16 in Succ(prog[8], 8)
    requires k == 0 || k == 3 || k == 4 || k == 12 || k == 16 || k == 18
    ensures Reach(prog, k, k)
  {
    ReachEntry(prog, k);
    if k < 12 {
      Straight(prog, 0, k, k);
    } else if k == 12 {
      Straight(prog, 0, 7, k);
      ReachExtend(prog, 7, 12, k);
    } else {
      Straight(prog, 0, 8, k);
      ReachExtend(prog, 8, 16, k);
      Straight(prog, 16, k, k);
    }
  }

  lemma MavlinkAccepted()
    ensures Accepted(Assemble(Mavlink.Policy()))
  {
    var prog := Mavlink.Policy();
    MavlinkEdges(prog);
    forall pc | 0 <= pc < 28
      ensures Fits(prog[pc], MavlinkType, pc, 28) && InRange(prog[pc])
      ensures IsLoad(prog[pc].opcode) ==> Reach(prog, pc, pc)
    {
      MavlinkFits(prog[pc], pc);
      if IsLoad(prog[pc].opcode) {
        MavlinkLoadsAt(prog[pc], pc);
        MavlinkReached(prog, pc);
      }
    }
    MacrosAccepted(prog, MavlinkType);
  }

  /** The same for the screening policy; the helpers overwrite r0. */
  function ScreeningType(pc: nat, r: nat): Type {
    if r == 1 && pc <= 14 then CTX
    else if r == 1 && 15 <= pc < 30 then SCALAR
    else if r == 2 && pc >= 1 then SCALAR
    else if r == 3 && pc >= 2 then SCALAR
    else if r == 4 && (7 <= pc < 30 || pc >= 32) then SCALAR
    else if r == 5 && (8 <= pc < 30 || pc >= 32) then SCALAR
    else if r == 6 && (17 <= pc < 30 || pc >= 32) then SCALAR
    else if r == 0 && (16 <= pc < 30 || pc >= 31) then SCALAR
    else BOTTOM
  }

  lemma ScreeningFits(i: Insn, pc: nat)
    requires pc < 34 && i == Screening.Text(pc)
    ensures Fits(i, ScreeningType, pc, 34) && InRange(i)
  {
    if pc < 9 {
      ScreeningFits1(i, pc);
    } else if pc < 17 {
      ScreeningFits2(i, pc);
    } else if pc < 26 {
      ScreeningFits3(i, pc);
    } else {
      ScreeningFits4(i, pc);
    }
  }

  lemma ScreeningFits1(i: Insn, pc: nat)
    requires pc < 9 && i == Screening.Text(pc)
    ensures Fits(i, ScreeningType, pc, 34) && InRange(i)
  {
  }

  lemma ScreeningFits2(i: Insn, pc: nat)
    requires 9 <= pc < 17 && i == Screening.Text(pc)
    ensures Fits(i, ScreeningType, pc, 34) && InRange(i)
  {
  }

  lemma ScreeningFits3(i: Insn, pc: nat)
    requires 17 <= pc < 26 && i == Screening.Text(pc)
    ensures Fits(i, ScreeningType, pc, 34) && InRange(i)
  {
  }

  lemma ScreeningFits4(i: Insn, pc: nat)
    requires 26 <= pc < 34 && i == Screening.Text(pc)
    ensures Fits(i, ScreeningType, pc, 34) && InRange(i)
  {
  }

  /** The loads come first and are reached in line. */
  lemma ScreeningLoadsAt(i: Insn, pc: nat)
    requires pc < 34 && i == Screening.Text(pc)
    ensures IsLoad(i.opcode) ==> pc <= 7
    ensures pc < 7 ==> i.opcode != 0x95
  {
  }

  lemma ScreeningAccepted()
    ensures Accepted(Assemble(Screening.Policy()))
  {
    var prog := Screening.Policy();
    forall pc | 0 <= pc < 34
      ensures Fits(prog[pc], ScreeningType, pc, 34) && InRange(prog[pc])
      ensures IsLoad(prog[pc].opcode) ==> pc <= 7
      ensures pc < 7 ==> pc + 1 in Succ(prog[pc], pc)
    {
      ScreeningFits(prog[pc], pc);
      ScreeningLoadsAt(prog[pc], pc);
      if pc < 7 {
        FallsThrough(prog[pc], ScreeningType, pc, 34);
      }
    }
    forall k | 0 <= k < 34 && IsLoad(prog[k].opcode)
      ensures Reach(prog, k, k)
    {
      ReachEntry(prog, k);
      Straight(prog, 0, k, k);
    }
    MacrosAccepted(prog, ScreeningType);
  }
}
