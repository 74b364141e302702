/** The load-time check as the source runs it (core/loader.c): the worklist in place, lowest pending
    instruction first. What it accepts is characterised exactly. */
module Verifier {
  import opened Words
  import opened Bits
  import opened Isa
  import opened RegTypes
  import opened Dataflow
  import opened Worklist

  // ----- the lowest-first order -----

  predicate Lowest(w: Work, pc: nat) {
    pc < |w.pend| && w.pend[pc] && forall q | 0 <= q < pc :: !w.pend[q]
  }

  /** Each pick is the lowest pending instruction in its turn. */
  predicate LowestFirst(prog: seq<Insn>, picks: seq<nat>)
    requires 0 < |prog| <= MAX_INSNS
    decreases |picks|
  {
    |picks| > 0 ==>
      var init := picks[..|picks| - 1];
      LowestFirst(prog, init) && Schedule(prog, init).Working? && Lowest(Schedule(prog, init).work, picks[|picks| - 1])
  }

  /** What this order adds: everything from `hw` on is pending, and every load below `hw` was reached
      through instructions below it. */
  ghost predicate Upto(prog: seq<Insn>, w: Work, hw: nat)
    requires Sized(prog, w)
  {
    && hw <= |prog|
    && (forall q | hw <= q < |prog| :: w.pend[q])
    && (forall q | 0 <= q < hw && prog[q].IsLdx() :: Reach(prog, q, q))
    && Explored(prog, w, hw)
  }

  lemma BeginUpto(prog: seq<Insn>)
    requires 0 < |prog| <= MAX_INSNS
    ensures Upto(prog, Begin(prog), 0)
  {
    BeginExplored(prog);
  }

  function Height(hw: nat, pc: nat): nat {
    if pc < hw then hw else pc + 1
  }

  lemma VisitUpto(prog: seq<Insn>, w: Work, hw: nat, pc: nat)
    requires Sized(prog, w) && Upto(prog, w, hw) && CanVisit(prog, w, pc) && pc <= hw && prog[pc].src <= 10
    ensures Upto(prog, Visit(prog, w, pc), Height(hw, pc))
  {
    if pc == hw && prog[pc].IsLdx() {
      LoadTouched(prog, w, hw, pc);
    }
    forall q | Height(hw, pc) <= q < |prog|
      ensures Visit(prog, w, pc).pend[q]
    {
      MergeAllPending(Taken(w, pc), Succ(prog[pc], pc), Out(prog[pc], w.m[pc]), q);
    }
    VisitExplores(prog, w, hw, Height(hw, pc), pc);
  }

  /** What the lowest-first order has reached through lower instructions has no unconstrained register. */
  lemma NotTooEarly(prog: seq<Insn>, w: Work, pc: nat)
    requires Inv(prog, w, -1) && Lowest(w, pc) && Reach(prog, pc, pc) && prog[pc].src <= 10
    ensures !TooEarly(prog[pc], w.m[pc])
  {
    var p :| IsPath(prog, p, pc) && p[|p| - 1] == pc;
    forall j | 0 <= j < |p| - 1
      ensures Settled(prog, w.m, p[j])
    {
      assert p[j] < pc && !w.pend[p[j]];
    }
    GroundedAlong(prog, w.m, pc, p);
  }

  /** A visit this order refuses is a rejection the declarative rule also makes. */
  lemma RejectVisit(prog: seq<Insn>, w: Work, pc: nat)
    requires Inv(prog, w, -1) && Lowest(w, pc) && !CanVisit(prog, w, pc) && prog[pc].src <= 10
    ensures !RegsAccepted(prog)
  {
    if exists m :: Certificate(prog, m) {
      RefusedForGood(prog, w, pc);
      if Reach(prog, pc, pc) {
        NotTooEarly(prog, w, pc);
      }
    }
  }

  lemma FinishedAccepts(prog: seq<Insn>, w: Work, hw: nat)
    requires Inv(prog, w, -1) && Upto(prog, w, hw) && Finished(w)
    ensures RegsAccepted(prog)
  {
    FinishedIsGreatest(prog, w);
    UptoEnd(prog, w, hw);
  }

  lemma UptoEnd(prog: seq<Insn>, w: Work, hw: nat)
    requires Sized(prog, w) && Upto(prog, w, hw)
    ensures hw == |prog| || w.pend[hw]
  {
  }

  /** The lowest pending instruction cannot be visited. */
  predicate Blocked(prog: seq<Insn>, w: Work, pc: nat) {
    Sized(prog, w) && Lowest(w, pc) && !CanVisit(prog, w, pc)
  }

  /** What the loop keeps: these picks led here, and both invariants hold. */
  ghost predicate OnWay(prog: seq<Insn>, picks: seq<nat>, w: Work, hw: nat) {
    && Inv(prog, w, -1) && Upto(prog, w, hw)
    && Schedule(prog, picks) == Working(w) && LowestFirst(prog, picks)
    && |picks| + Potential(w) <= 33 * |prog|
  }

  lemma BeginOnWay(prog: seq<Insn>)
    requires 0 < |prog| <= MAX_INSNS
    ensures OnWay(prog, [], Begin(prog), 0)
  {
    BeginUpto(prog);
    BeginInv(prog);
    PotentialBound(Begin(prog));
  }

  /** One more turn of the loop. */
  lemma VisitAdvances(prog: seq<Insn>, picks: seq<nat>, w: Work, hw: nat, pc: nat)
    requires OnWay(prog, picks, w, hw) && Lowest(w, pc) && CanVisit(prog, w, pc) && prog[pc].src <= 10
    ensures OnWay(prog, picks + [pc], Visit(prog, w, pc), Height(hw, pc))
    ensures Potential(Visit(prog, w, pc)) < Potential(w)
  {
    assert (picks + [pc])[..|picks|] == picks;
    VisitKeeps(prog, w, pc);
    VisitSpends(prog, w, pc);
    assert pc <= hw by {
      assert hw < |prog| ==> w.pend[hw];
    }
    VisitUpto(prog, w, hw, pc);
  }

  // ----- the pieces of a visit in place -----

  /** The scan for the lowest pending instruction; the count when the list is empty. */
  method LowestPending(pending: array<bool>, cnt: nat, ghost w: Work) returns (pc: nat)
    requires cnt == pending.Length && w.pend == pending[..]
    ensures pc <= cnt
    ensures pc < cnt ==> Lowest(w, pc)
    ensures pc == cnt ==> Finished(w)
  {
    for q := 0 to cnt
      invariant forall j | 0 <= j < q :: !w.pend[j]
    {
      if pending[q] {
        return q;
      }
    }
    return cnt;
  }

  /** The typing of the registers an instruction reads; the first bad one is reported. */
  method CheckReads(i: Insn, st: U32) returns (bad: nat)
    ensures bad <= 11
    ensures bad < 11 ==> Reads(i, bad) && !ReadOk(i, RegType(st, bad))
    ensures bad == 11 ==> forall r | 0 <= r < 11 && Reads(i, r) :: ReadOk(i, RegType(st, r))
  {
    for r := 0 to 11
      invariant forall q | 0 <= q < r && Reads(i, q) :: ReadOk(i, RegType(st, q))
    {
      if Reads(i, r) {
        var t := RegType(st, r);
        if t == BOTTOM {
          return r;
        }
        if i.IsLdx() && t != CTX {
          return r;
        }
        if i.IsAlu() && t == CTX {
          return r;
        }
      }
    }
    return 11;
  }

  /** The out-state, register by register as the source builds it. */
  method OutState(i: Insn, st: U32) returns (out: U32)
    requires i.dst <= 10
    ensures out == Out(i, st)
  {
    out := st;
    for r := 0 to 11
      invariant out == if exists q :: 0 <= q < r && Writes(i, q) then Out(i, st) else st
    {
      if Writes(i, r) {
        out := SetType(out, r, SCALAR);
      }
    }
    if i.IsJmp() && i.Op() == JMP_CALL {
      assert Writes(i, 0);
      SetTypeTwice(st, 0, SCALAR);
      out := SetType(out, 0, SCALAR);
    } else if i.IsLdx() || i.IsAlu() {
      assert Writes(i, i.dst);
    }
  }

  method MergeInPlace(inM: array<U32>, pending: array<bool>, s: nat, out: U32)
    requires s < inM.Length == pending.Length
    modifies inM, pending
    ensures Work(inM[..], pending[..]) == old(Merge(Work(inM[..], pending[..]), s, out))
  {
    ghost var w := Work(inM[..], pending[..]);
    var merged := And(inM[s], out);
    if merged != inM[s] {
      inM[s] := merged;
      pending[s] := true;
    }
    assert inM[..] == Merge(w, s, out).m && pending[..] == Merge(w, s, out).pend;
  }

  lemma MergeNext(w: Work, succ: seq<U32>, out: U32, k: nat)
    requires |w.m| == |w.pend| && k < |succ| && forall j | 0 <= j <= k :: succ[j] < |w.m|
    ensures MergeAll(w, succ[..k + 1], out) == Merge(MergeAll(w, succ[..k], out), succ[k], out)
  {
    assert succ[..k + 1][..k] == succ[..k];
  }

  /** Propagation of the out-state of `pc` along its edges; it stops at an edge that leaves the image. */
  method Propagate(prog: seq<Insn>, inM: array<U32>, pending: array<bool>, pc: nat, st: U32) returns (ok: bool)
    requires inM.Length == pending.Length == |prog| && pc < |prog| <= MAX_INSNS && prog[pc].dst <= 10
    modifies inM, pending
    ensures ok <==> Stays(prog, pc)
    ensures ok ==> Work(inM[..], pending[..])
                   == old(MergeAll(Work(inM[..], pending[..]), Succ(prog[pc], pc), Out(prog[pc], st)))
  {
    var out := OutState(prog[pc], st);
    var succ := Succ(prog[pc], pc);
    ghost var w0 := Work(inM[..], pending[..]);
    for k := 0 to |succ|
      invariant forall j | 0 <= j < k :: succ[j] < |prog|
      invariant Work(inM[..], pending[..]) == MergeAll(w0, succ[..k], out)
    {
      if succ[k] >= |prog| {
        return false;
      }
      MergeInPlace(inM, pending, succ[k], out);
      MergeNext(w0, succ, out, k);
    }
    assert succ[..|succ|] == succ;
    return true;
  }

  /** One visit in place: refused by a read or a division by an immediate zero before anything is
      propagated, by an edge that leaves the image after that. */
  method VisitInPlace(prog: seq<Insn>, inM: array<U32>, pending: array<bool>, pc: nat) returns (ok: bool)
    requires Sized(prog, Work(inM[..], pending[..])) && pc < |prog| && pending[pc]
    requires prog[pc].dst <= 10
    modifies inM, pending
    ensures ok <==> old(CanVisit(prog, Work(inM[..], pending[..]), pc))
    ensures ok ==> Work(inM[..], pending[..]) == old(Visit(prog, Work(inM[..], pending[..]), pc))
  {
    ghost var w := Work(inM[..], pending[..]);
    pending[pc] := false;
    assert Work(inM[..], pending[..]) == Taken(w, pc);
    var i, st := prog[pc], inM[pc];
    var bad := CheckReads(i, st);
    if bad < 11 || DivByZeroImm(i) {
      return false;
    }
    ok := Propagate(prog, inM, pending, pc, st);
  }

  /** `check_regs`: true exactly when the declarative rule accepts. `picks` is the order of its visits:
      lowest pending first, at most 33 an instruction. On success the states are the greatest solution
      and nothing is pending; otherwise the lowest pending instruction cannot be visited. */
  method CheckRegs(prog: seq<Insn>) returns (ok: bool, ghost picks: seq<nat>)
    requires 0 < |prog| <= MAX_INSNS
    requires forall q | 0 <= q < |prog| :: prog[q].dst <= 10 && prog[q].src <= 10
    ensures ok <==> RegsAccepted(prog)
    ensures LowestFirst(prog, picks) && Schedule(prog, picks).Working? && |picks| <= 33 * |prog|
    ensures ok ==> var w := Schedule(prog, picks).work; Finished(w) && Certificate(prog, w.m) && Above(prog, w.m)
    ensures !ok ==> exists pc :: Blocked(prog, Schedule(prog, picks).work, pc)
  {
    var cnt := |prog|;
    var inM := new U32[cnt](_ => ALL_TOP);
    var pending := new bool[cnt](_ => true);
    inM[0] := SetType(0, 1, CTX);
    ghost var hw, w := 0, Begin(prog);
    picks := [];
    BeginOnWay(prog);
    assert inM[..] == w.m && pending[..] == w.pend;
    while true
      invariant w == Work(inM[..], pending[..]) && OnWay(prog, picks, w, hw)
      decreases Potential(w)
    {
      var pc := LowestPending(pending, cnt, w);
      if pc == cnt {
        FinishedIsGreatest(prog, w);
        FinishedAccepts(prog, w, hw);
        return true, picks;
      }
      var ok := VisitInPlace(prog, inM, pending, pc);
      if !ok {
        RejectVisit(prog, w, pc);
        assert Blocked(prog, w, pc);
        return false, picks;
      }
      VisitAdvances(prog, picks, w, hw, pc);
      w, hw, picks := Visit(prog, w, pc), Height(hw, pc), picks + [pc];
    }
  }

  datatype Status = Accept | ErrArgument | ErrValidate

  /** `ic_program_check`. */
  method ProgramCheck(ins: seq<U64>) returns (status: Status)
    ensures status == ErrArgument <==> |ins| == 0 || |ins| > MAX_INSNS
    ensures status == Accept <==> Accepted(ins)
  {
    if |ins| == 0 || |ins| > MAX_INSNS {
      return ErrArgument;
    }
    var prog := DecodeAll(ins);
    for pc := 0 to |prog|
      invariant forall q | 0 <= q < pc :: InsnOk(prog, q)
    {
      var i := prog[pc];
      assert InsnOk(prog, pc) ==> i.dst <= 10 && i.src <= 10;
      if i.dst > 10 || i.src > 10 {
        return ErrValidate;
      }
      if i.IsLdx() && i.dst == 10 {
        return ErrValidate;
      }
      if !OpcodeKnown(i.opcode) {
        return ErrValidate;
      }
      if i.IsAlu() && i.Op() == ALU_END && i.SrcX() && i.imm != 16 && i.imm != 32 && i.imm != 64 {
        return ErrValidate;
      }
      if i.IsJmp() {
        if i.Op() == JMP_EXIT {
          continue;
        }
        if i.Op() == JMP_CALL {
          if i.Cls() == CLS_JMP32 || i.SrcX() || (i.imm != 1 && i.imm != 2) {
            return ErrValidate;
          }
          continue;
        }
        var target := pc + 1 + i.off;
        if target < 0 || target >= |prog| {
          return ErrValidate;
        }
      }
    }
    forall q | 0 <= q < |prog|
      ensures prog[q].dst <= 10 && prog[q].src <= 10
    {
      assert InsnOk(prog, q);
    }
    var ok, _ := CheckRegs(prog);
    return if ok then Accept else ErrValidate;
  }
}
