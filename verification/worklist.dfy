/** The worklist of the load-time check (core/loader.c), one visit at a time, with an arbitrary choice
    among the pending instructions: what every order keeps, how long it can go on, where it can stop. */
module Worklist {
  import opened Words
  import opened Bits
  import opened Isa
  import opened RegTypes
  import opened Dataflow

  // ----- one visit -----

  /** The type word at every instruction and the flags of those still to visit. */
  datatype Work = Work(m: seq<U32>, pend: seq<bool>)

  predicate Sized(prog: seq<Insn>, w: Work) {
    0 < |prog| == |w.m| == |w.pend| <= MAX_INSNS
  }

  function Begin(prog: seq<Insn>): (w: Work)
    requires 0 < |prog| <= MAX_INSNS
    ensures Sized(prog, w) && w.m[0] == ENTRY
    ensures forall q | 0 <= q < |prog| :: w.pend[q] && (q > 0 ==> w.m[q] == ALL_TOP)
  {
    Work(seq(|prog|, q => if q == 0 then ENTRY else ALL_TOP), seq(|prog|, _ => true))
  }

  /** One edge: the state of the successor is met with the out-state, and it is pending if that changed it. */
  function Merge(w: Work, s: nat, out: U32): (w': Work)
    requires s < |w.m| == |w.pend|
    ensures |w'.m| == |w.m| && |w'.pend| == |w.pend|
  {
    var merged := And(w.m[s], out);
    Work(w.m[s := merged], if merged != w.m[s] then w.pend[s := true] else w.pend)
  }

  function MergeAll(w: Work, succ: seq<U32>, out: U32): (w': Work)
    requires |w.m| == |w.pend| && forall k | 0 <= k < |succ| :: succ[k] < |w.m|
    ensures |w'.m| == |w.m| && |w'.pend| == |w.pend|
  {
    if |succ| == 0 then w else Merge(MergeAll(w, succ[..|succ| - 1], out), succ[|succ| - 1], out)
  }

  /** The instruction is pending and passes the tests of a visit. */
  predicate CanVisit(prog: seq<Insn>, w: Work, pc: nat)
    requires Sized(prog, w)
  {
    pc < |prog| && w.pend[pc] && LocalOk(prog[pc], w.m[pc]) && Stays(prog, pc)
  }

  function Taken(w: Work, pc: nat): Work
    requires pc < |w.pend|
  {
    w.(pend := w.pend[pc := false])
  }

  function Visit(prog: seq<Insn>, w: Work, pc: nat): (w': Work)
    requires Sized(prog, w) && CanVisit(prog, w, pc)
    ensures Sized(prog, w')
  {
    MergeAll(Taken(w, pc), Succ(prog[pc], pc), Out(prog[pc], w.m[pc]))
  }

  /** Where the worklist is after visiting `picks` in this order, if each can be visited in its turn. */
  datatype Progress = Refused | Working(work: Work)

  function Schedule(prog: seq<Insn>, picks: seq<nat>): (p: Progress)
    requires 0 < |prog| <= MAX_INSNS
    ensures p.Working? ==> Sized(prog, p.work)
    decreases |picks|
  {
    if |picks| == 0 then Working(Begin(prog))
    else
      match Schedule(prog, picks[..|picks| - 1])
      case Refused => Refused
      case Working(w) =>
        if CanVisit(prog, w, picks[|picks| - 1]) then Working(Visit(prog, w, picks[|picks| - 1])) else Refused
  }

  predicate Finished(w: Work) {
    forall q | 0 <= q < |w.pend| :: !w.pend[q]
  }

  // ----- what every visit keeps -----

  /** Instruction q is well typed at its state and its edges are satisfied. */
  ghost predicate Settled(prog: seq<Insn>, m: seq<U32>, q: nat)
    requires q < |prog| == |m| <= MAX_INSNS
  {
    LocalOk(prog[q], m[q]) && Stays(prog, q) && Flows(prog, m, q)
  }

  ghost predicate Above(prog: seq<Insn>, m: seq<U32>) {
    forall sol | Solution(prog, sol) :: AllBelow(sol, m)
  }

  /** Between two visits, and inside the visit to `skip` (-1 for none): whatever is not pending is
      settled, and the states are above every solution. */
  ghost predicate Inv(prog: seq<Insn>, w: Work, skip: int) {
    && Sized(prog, w)
    && Below(w.m[0], ENTRY)
    && (forall q | 0 <= q < |prog| && !w.pend[q] && q != skip :: Settled(prog, w.m, q))
    && Above(prog, w.m)
  }

  /** Inside the visit to `pc`, entered with type word `st`, after `k` of its edges. */
  ghost predicate Visiting(prog: seq<Insn>, w: Work, pc: nat, st: U32, k: nat) {
    && Inv(prog, w, pc) && pc < |prog| && Stays(prog, pc)
    && LocalOk(prog[pc], st)
    && k <= |Succ(prog[pc], pc)|
    && (forall j | 0 <= j < k :: Below(w.m[Succ(prog[pc], pc)[j]], Out(prog[pc], st)))
    && (w.m[pc] == st || w.pend[pc])
    && (forall sol | Solution(prog, sol) :: Below(sol[pc], st))
  }

  lemma BeginInv(prog: seq<Insn>)
    requires 0 < |prog| <= MAX_INSNS
    ensures Inv(prog, Begin(prog), -1)
  {
    var m := Begin(prog).m;
    BelowRefl(ENTRY);
    forall sol | Solution(prog, sol)
      ensures AllBelow(sol, m)
    {
      forall q | 0 <= q < |m|
        ensures Below(sol[q], m[q])
      {
        BelowTop(sol[q]);
      }
    }
  }

  ghost predicate Lowered(m': seq<U32>, m: seq<U32>) {
    |m'| == |m| && forall q | 0 <= q < |m| :: Below(m'[q], m[q])
  }

  lemma MergeLowers(m: seq<U32>, s: nat, out: U32)
    requires s < |m|
    ensures Lowered(m[s := And(m[s], out)], m)
  {
    forall q | 0 <= q < |m|
      ensures Below(m[s := And(m[s], out)][q], m[q])
    {
      AndIsMeet(m[s], out);
      BelowRefl(m[q]);
    }
  }

  lemma SettledLowered(prog: seq<Insn>, m: seq<U32>, m': seq<U32>, q: nat)
    requires q < |prog| == |m| <= MAX_INSNS && Lowered(m', m) && m'[q] == m[q]
    requires Settled(prog, m, q)
    ensures Settled(prog, m', q)
  {
    forall s | s in Succ(prog[q], q) && s < |m|
      ensures Below(m'[s], Out(prog[q], m'[q]))
    {
      BelowTrans(m'[s], m[s], Out(prog[q], m[q]));
    }
  }

  lemma MergeAbove(prog: seq<Insn>, m: seq<U32>, pc: nat, st: U32, s: nat)
    requires 0 < |prog| == |m| <= MAX_INSNS && pc < |prog| && s < |m| && s in Succ(prog[pc], pc)
    requires Above(prog, m) && forall sol | Solution(prog, sol) :: Below(sol[pc], st)
    ensures Above(prog, m[s := And(m[s], Out(prog[pc], st))])
  {
    var out := Out(prog[pc], st);
    forall sol | Solution(prog, sol)
      ensures AllBelow(sol, m[s := And(m[s], out)])
    {
      assert AllBelow(sol, m) && Flows(prog, sol, pc);
      OutMonotone(prog[pc], sol[pc], st);
      BelowTrans(sol[s], Out(prog[pc], sol[pc]), out);
      AndIsMeet(m[s], out);
    }
  }

  /** One edge of a visit keeps every settled instruction settled and the states above every solution. */
  lemma MergeEdge(prog: seq<Insn>, w: Work, pc: nat, st: U32, k: nat)
    requires Visiting(prog, w, pc, st, k) && k < |Succ(prog[pc], pc)|
    ensures Visiting(prog, Merge(w, Succ(prog[pc], pc)[k], Out(prog[pc], st)), pc, st, k + 1)
  {
    var s, out := Succ(prog[pc], pc)[k], Out(prog[pc], st);
    assert s in Succ(prog[pc], pc);
    var w' := Merge(w, s, out);
    AndIsMeet(w.m[s], out);
    MergeLowers(w.m, s, out);
    BelowTrans(w'.m[0], w.m[0], ENTRY);
    forall q | 0 <= q < |prog| && !w'.pend[q] && q != pc
      ensures Settled(prog, w'.m, q)
    {
      SettledLowered(prog, w.m, w'.m, q);
    }
    forall j | 0 <= j < k + 1
      ensures Below(w'.m[Succ(prog[pc], pc)[j]], out)
    {
      if j < k {
        var t := Succ(prog[pc], pc)[j];
        BelowTrans(w'.m[t], w.m[t], out);
      }
    }
    MergeAbove(prog, w.m, pc, st, s);
  }

  lemma {:induction false} MergeSome(prog: seq<Insn>, w: Work, pc: nat, st: U32, k: nat)
    requires Visiting(prog, w, pc, st, 0) && k <= |Succ(prog[pc], pc)|
    ensures Visiting(prog, MergeAll(w, Succ(prog[pc], pc)[..k], Out(prog[pc], st)), pc, st, k)
  {
    if k > 0 {
      var succ := Succ(prog[pc], pc);
      assert succ[..k][..k - 1] == succ[..k - 1];
      MergeSome(prog, w, pc, st, k - 1);
      MergeEdge(prog, MergeAll(w, succ[..k - 1], Out(prog[pc], st)), pc, st, k - 1);
    }
  }

  lemma VisitKeeps(prog: seq<Insn>, w: Work, pc: nat)
    requires Inv(prog, w, -1) && CanVisit(prog, w, pc)
    ensures Inv(prog, Visit(prog, w, pc), -1)
  {
    var succ := Succ(prog[pc], pc);
    assert succ[..|succ|] == succ;
    MergeSome(prog, Taken(w, pc), pc, w.m[pc], |succ|);
    var w' := Visit(prog, w, pc);
    if !w'.pend[pc] {
      assert Settled(prog, w'.m, pc);
    }
  }

  // ----- how many visits there can be -----

  function BitSum(m: seq<U32>): nat {
    if |m| == 0 then 0 else Popcount(m[0]) + BitSum(m[1..])
  }

  function PendingCount(pend: seq<bool>): nat {
    if |pend| == 0 then 0 else (if pend[0] then 1 else 0) + PendingCount(pend[1..])
  }

  /** Every visit spends one: a pending flag, and each flag set again costs a lattice bit. */
  function Potential(w: Work): nat {
    BitSum(w.m) + PendingCount(w.pend)
  }

  lemma {:induction false} BitSumUpdate(m: seq<U32>, i: nat, v: U32)
    requires i < |m|
    ensures BitSum(m[i := v]) == BitSum(m) - Popcount(m[i]) + Popcount(v)
  {
    if i > 0 {
      BitSumUpdate(m[1..], i - 1, v);
      assert m[i := v][1..] == m[1..][i - 1 := v];
    } else {
      assert m[i := v][1..] == m[1..];
    }
  }

  lemma {:induction false} PendingUpdate(pend: seq<bool>, i: nat, b: bool)
    requires i < |pend|
    ensures PendingCount(pend[i := b]) == PendingCount(pend) - (if pend[i] then 1 else 0) + (if b then 1 else 0)
  {
    if i > 0 {
      PendingUpdate(pend[1..], i - 1, b);
      assert pend[i := b][1..] == pend[1..][i - 1 := b];
    } else {
      assert pend[i := b][1..] == pend[1..];
    }
  }

  lemma {:induction false} PotentialBound(w: Work)
    requires |w.m| == |w.pend|
    ensures Potential(w) <= 33 * |w.m|
    decreases |w.m|
  {
    if |w.m| > 0 {
      Pow2Values();
      PopcountBound(w.m[0], 32);
      PotentialBound(Work(w.m[1..], w.pend[1..]));
    }
  }

  lemma MergeSpends(w: Work, s: nat, out: U32)
    requires s < |w.m| == |w.pend|
    ensures Potential(Merge(w, s, out)) <= Potential(w)
  {
    PopcountAnd(w.m[s], out);
    BitSumUpdate(w.m, s, And(w.m[s], out));
    PendingUpdate(w.pend, s, true);
  }

  lemma {:induction false} MergeAllSpends(w: Work, succ: seq<U32>, out: U32)
    requires |w.m| == |w.pend| && forall k | 0 <= k < |succ| :: succ[k] < |w.m|
    ensures Potential(MergeAll(w, succ, out)) <= Potential(w)
  {
    if |succ| > 0 {
      MergeAllSpends(w, succ[..|succ| - 1], out);
      MergeSpends(MergeAll(w, succ[..|succ| - 1], out), succ[|succ| - 1], out);
    }
  }

  lemma VisitSpends(prog: seq<Insn>, w: Work, pc: nat)
    requires Sized(prog, w) && CanVisit(prog, w, pc)
    ensures Potential(Visit(prog, w, pc)) < Potential(w)
  {
    PendingUpdate(w.pend, pc, false);
    MergeAllSpends(Taken(w, pc), Succ(prog[pc], pc), Out(prog[pc], w.m[pc]));
  }

  /** In every order: at most 33 visits an instruction, and the invariant holds after each. */
  lemma {:induction false} AnyOrder(prog: seq<Insn>, picks: seq<nat>)
    requires 0 < |prog| <= MAX_INSNS && Schedule(prog, picks).Working?
    ensures Inv(prog, Schedule(prog, picks).work, -1)
    ensures |picks| + Potential(Schedule(prog, picks).work) <= 33 * |prog|
    decreases |picks|
  {
    if |picks| == 0 {
      BeginInv(prog);
      PotentialBound(Begin(prog));
    } else {
      var init, pc := picks[..|picks| - 1], picks[|picks| - 1];
      AnyOrder(prog, init);
      VisitKeeps(prog, Schedule(prog, init).work, pc);
      VisitSpends(prog, Schedule(prog, init).work, pc);
    }
  }

  /** The greatest solution is unique. */
  lemma GreatestIsUnique(prog: seq<Insn>, a: seq<U32>, b: seq<U32>)
    requires Solution(prog, a) && Above(prog, a)
    requires Solution(prog, b) && Above(prog, b)
    ensures a == b
  {
    forall q | 0 <= q < |a|
      ensures a[q] == b[q]
    {
      assert AllBelow(a, b) && AllBelow(b, a);
      forall r | 0 <= r < 16
        ensures RegType(a[q], r) == RegType(b[q], r)
      {
        BelowType(a[q], b[q], r);
        BelowType(b[q], a[q], r);
      }
      OnesAre();
      SameFields(a[q], b[q], 16);
    }
  }

  lemma FinishedIsGreatest(prog: seq<Insn>, w: Work)
    requires Inv(prog, w, -1) && Finished(w)
    ensures Certificate(prog, w.m) && Above(prog, w.m)
  {
    forall q | 0 <= q < |prog|
      ensures LocalOk(prog[q], w.m[q]) && Stays(prog, q) && Flows(prog, w.m, q)
    {
      assert Settled(prog, w.m, q);
    }
  }

  /** Any two orders that empty the list end in the same states, and those are a certificate. */
  lemma OrderDoesNotMatter(prog: seq<Insn>, a: seq<nat>, b: seq<nat>)
    requires 0 < |prog| <= MAX_INSNS
    requires Schedule(prog, a).Working? && Finished(Schedule(prog, a).work)
    requires Schedule(prog, b).Working? && Finished(Schedule(prog, b).work)
    ensures Schedule(prog, a) == Schedule(prog, b)
    ensures Certificate(prog, Schedule(prog, a).work.m)
  {
    var wa, wb := Schedule(prog, a).work, Schedule(prog, b).work;
    AnyOrder(prog, a);
    AnyOrder(prog, b);
    FinishedIsGreatest(prog, wa);
    FinishedIsGreatest(prog, wb);
    GreatestIsUnique(prog, wa.m, wb.m);
    assert wa.pend == wb.pend;
  }

  // ----- where a visit is refused -----

  /** A load whose base register is still unconstrained: no visited path has come to it yet. */
  predicate TooEarly(i: Insn, st: U32) {
    i.IsLdx() && RegType(st, i.src) == TOP
  }

  /** In every order: a pending instruction that cannot be visited rules out a certificate, unless it
      is a load the worklist has come to too early. */
  lemma RefusedForGood(prog: seq<Insn>, w: Work, pc: nat)
    requires Inv(prog, w, -1) && pc < |prog| && !(LocalOk(prog[pc], w.m[pc]) && Stays(prog, pc))
    requires exists sol :: Certificate(prog, sol)
    ensures TooEarly(prog[pc], w.m[pc])
  {
    var sol :| Certificate(prog, sol);
    assert AllBelow(sol, w.m) && LocalOk(prog[pc], sol[pc]) && Stays(prog, pc);
    var r :| 0 <= r < 11 && Reads(prog[pc], r) && !ReadOk(prog[pc], RegType(w.m[pc], r));
    BelowType(sol[pc], w.m[pc], r);
  }

  /** Along a path of settled instructions from the entry no register is unconstrained. */
  lemma {:induction false} GroundedAlong(prog: seq<Insn>, m: seq<U32>, h: nat, p: seq<nat>)
    requires 0 < |prog| == |m| <= MAX_INSNS && Below(m[0], ENTRY)
    requires IsPath(prog, p, h)
    requires forall j | 0 <= j < |p| - 1 :: Settled(prog, m, p[j])
    ensures p[|p| - 1] < |m| && Grounded(m[p[|p| - 1]])
  {
    if |p| == 1 {
      forall r | 0 <= r < 16
        ensures RegType(m[0], r) != TOP
      {
        BelowType(m[0], ENTRY, r);
        EntryType(r);
      }
    } else {
      var p' := p[..|p| - 1];
      assert IsPath(prog, p', h);
      GroundedAlong(prog, m, h, p');
      var q, s := p[|p| - 2], p[|p| - 1];
      assert s in Succ(prog[q], q) && Settled(prog, m, q);
      forall r | 0 <= r < 16
        ensures RegType(m[s], r) != TOP
      {
        BelowType(m[s], Out(prog[q], m[q]), r);
        OutType(prog[q], m[q], r);
      }
    }
  }

  /** States that have seen the entry belong to instructions on a path from it, through instructions below `h`. */
  ghost predicate Explored(prog: seq<Insn>, w: Work, h: nat)
    requires Sized(prog, w)
  {
    forall q | 0 <= q < |prog| && Touched(w.m[q]) :: Reach(prog, q, h)
  }

  lemma BeginExplored(prog: seq<Insn>)
    requires 0 < |prog| <= MAX_INSNS
    ensures Explored(prog, Begin(prog), 0)
  {
    AllTopUntouched();
    ReachEntry(prog, 0);
  }

  lemma MergeExplored(prog: seq<Insn>, w: Work, h: nat, pc: nat, st: U32, s: nat)
    requires Sized(prog, w) && pc < |prog| && pc < h && s < |prog| && s in Succ(prog[pc], pc)
    requires Explored(prog, w, h) && (Touched(st) ==> Reach(prog, pc, h))
    ensures Explored(prog, Merge(w, s, Out(prog[pc], st)), h)
  {
    var out := Out(prog[pc], st);
    if Touched(And(w.m[s], out)) && !Touched(w.m[s]) {
      TouchedMeet(w.m[s], out);
      TouchedOut(prog[pc], st);
      ReachExtend(prog, pc, s, h);
    }
  }

  lemma {:induction false} MergeAllExplored(prog: seq<Insn>, w: Work, h: nat, pc: nat, st: U32, succ: seq<U32>)
    requires Sized(prog, w) && pc < |prog| && pc < h
    requires forall k | 0 <= k < |succ| :: succ[k] < |prog| && succ[k] in Succ(prog[pc], pc)
    requires Explored(prog, w, h) && (Touched(st) ==> Reach(prog, pc, h))
    ensures Explored(prog, MergeAll(w, succ, Out(prog[pc], st)), h)
  {
    if |succ| > 0 {
      MergeAllExplored(prog, w, h, pc, st, succ[..|succ| - 1]);
      MergeExplored(prog, MergeAll(w, succ[..|succ| - 1], Out(prog[pc], st)), h, pc, st, succ[|succ| - 1]);
    }
  }

  lemma VisitExplores(prog: seq<Insn>, w: Work, h: nat, h': nat, pc: nat)
    requires Sized(prog, w) && CanVisit(prog, w, pc) && Explored(prog, w, h) && h <= h' && pc < h'
    ensures Explored(prog, Visit(prog, w, pc), h')
  {
    forall q | 0 <= q < |prog| && Touched(w.m[q])
      ensures Reach(prog, q, h')
    {
      ReachMonotone(prog, q, h, h');
    }
    MergeAllExplored(prog, Taken(w, pc), h', pc, w.m[pc], Succ(prog[pc], pc));
  }

  /** A load that can be visited has been reached. */
  lemma LoadTouched(prog: seq<Insn>, w: Work, h: nat, pc: nat)
    requires Sized(prog, w) && CanVisit(prog, w, pc) && Explored(prog, w, h)
    requires prog[pc].IsLdx() && prog[pc].src <= 10
    ensures Reach(prog, pc, h)
  {
    assert Reads(prog[pc], prog[pc].src);
    assert RegType(w.m[pc], prog[pc].src) == CTX;
    assert Touched(w.m[pc]);
  }

  // ----- the best any order can do -----

  /** Every load is on some path from the entry. */
  ghost predicate LoadsConnected(prog: seq<Insn>) {
    forall k | 0 <= k < |prog| && prog[k].IsLdx() :: Reach(prog, k, |prog|)
  }

  lemma {:induction false} MergeAllPending(w: Work, succ: seq<U32>, out: U32, q: nat)
    requires |w.m| == |w.pend| && (forall k | 0 <= k < |succ| :: succ[k] < |w.m|) && q < |w.pend| && w.pend[q]
    ensures MergeAll(w, succ, out).pend[q]
  {
    if |succ| > 0 {
      MergeAllPending(w, succ[..|succ| - 1], out, q);
    }
  }

  lemma {:induction false} AnyOrderReaches(prog: seq<Insn>, picks: seq<nat>)
    requires 0 < |prog| <= MAX_INSNS && Schedule(prog, picks).Working?
    requires forall q | 0 <= q < |prog| :: prog[q].src <= 10
    ensures var w := Schedule(prog, picks).work;
            && Explored(prog, w, |prog|)
            && forall q | 0 <= q < |prog| && prog[q].IsLdx() && !w.pend[q] :: Reach(prog, q, |prog|)
    decreases |picks|
  {
    if |picks| == 0 {
      AllTopUntouched();
      ReachEntry(prog, |prog|);
    } else {
      var init, pc := picks[..|picks| - 1], picks[|picks| - 1];
      AnyOrderReaches(prog, init);
      var w := Schedule(prog, init).work;
      VisitExplores(prog, w, |prog|, |prog|, pc);
      forall q | 0 <= q < |prog| && prog[q].IsLdx() && !Visit(prog, w, pc).pend[q]
        ensures Reach(prog, q, |prog|)
      {
        if q == pc {
          LoadTouched(prog, w, |prog|, pc);
        } else if w.pend[q] {
          MergeAllPending(Taken(w, pc), Succ(prog[pc], pc), Out(prog[pc], w.m[pc]), q);
        }
      }
    }
  }

  /** While a certificate exists, every load is connected and something is pending, something can be visited. */
  lemma SomeCanVisit(prog: seq<Insn>, w: Work) returns (pc: nat)
    requires Inv(prog, w, -1) && !Finished(w)
    requires (exists sol :: Certificate(prog, sol)) && LoadsConnected(prog)
    ensures CanVisit(prog, w, pc)
  {
    pc :| 0 <= pc < |prog| && w.pend[pc];
    if !CanVisit(prog, w, pc) {
      RefusedForGood(prog, w, pc);
      var p :| IsPath(prog, p, |prog|) && p[|p| - 1] == pc;
      pc := FirstPending(prog, w, p);
    }
  }

  /** The first pending instruction on a path from the entry can be visited. */
  lemma {:induction false} FirstPending(prog: seq<Insn>, w: Work, p: seq<nat>) returns (pc: nat)
    requires Inv(prog, w, -1) && IsPath(prog, p, |prog|) && p[|p| - 1] < |prog| && w.pend[p[|p| - 1]]
    requires exists sol :: Certificate(prog, sol)
    ensures CanVisit(prog, w, pc)
    decreases |p|
  {
    if j :| 0 <= j < |p| - 1 && w.pend[p[j]] {
      assert IsPath(prog, p[..j + 1], |prog|);
      pc := FirstPending(prog, w, p[..j + 1]);
    } else {
      pc := p[|p| - 1];
      forall j | 0 <= j < |p| - 1
        ensures Settled(prog, w.m, p[j])
      {
        assert !w.pend[p[j]];
      }
      GroundedAlong(prog, w.m, |prog|, p);
      if !(LocalOk(prog[pc], w.m[pc]) && Stays(prog, pc)) {
        RefusedForGood(prog, w, pc);
      }
    }
  }

  lemma {:induction false} ScheduleOn(prog: seq<Insn>, picks: seq<nat>) returns (more: seq<nat>)
    requires 0 < |prog| <= MAX_INSNS && Schedule(prog, picks).Working?
    requires (exists sol :: Certificate(prog, sol)) && LoadsConnected(prog)
    ensures Schedule(prog, more).Working? && Finished(Schedule(prog, more).work)
    decreases Potential(Schedule(prog, picks).work)
  {
    var w := Schedule(prog, picks).work;
    if Finished(w) {
      return picks;
    }
    AnyOrder(prog, picks);
    var pc := SomeCanVisit(prog, w);
    VisitSpends(prog, w, pc);
    assert (picks + [pc])[..|picks|] == picks;
    more := ScheduleOn(prog, picks + [pc]);
  }

  /** Some order empties the list if and only if a certificate exists and every load is on a path from
      the entry; the lowest-first order of the source needs such a path through lower instructions. */
  lemma BestOrder(prog: seq<Insn>)
    requires 0 < |prog| <= MAX_INSNS && forall q | 0 <= q < |prog| :: prog[q].src <= 10
    ensures (exists picks :: Schedule(prog, picks).Working? && Finished(Schedule(prog, picks).work))
       <==> (exists sol :: Certificate(prog, sol)) && LoadsConnected(prog)
  {
    if picks :| Schedule(prog, picks).Working? && Finished(Schedule(prog, picks).work) {
      AnyOrder(prog, picks);
      FinishedIsGreatest(prog, Schedule(prog, picks).work);
      AnyOrderReaches(prog, picks);
    }
    if (exists sol :: Certificate(prog, sol)) && LoadsConnected(prog) {
      var picks := ScheduleOn(prog, []);
    }
  }
}
