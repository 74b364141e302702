/** The monitor's packet loops (modules/monitor.c): the native reference filter, the default mode
    that runs the live program, or the built-in filter, on every packet without a map, and the
    screening mode, where every packet finds the map the last one left. */
module Monitor {
  import opened Words
  import opened Isa
  import opened Interpreter
  import opened Packets
  import Mavlink
  import Screening
  import Soundness

  const BUDGET: U32 := 1_000_000

  /** The live program, or the built-in filter when the slot is empty. */
  function InForce(live: seq<U64>): seq<U64> {
    if |live| > 0 then live else Assemble(Mavlink.Policy())
  }

  function RunOn(program: seq<U64>, p: Located): RunResult {
    Run(program, p.base, p.bytes, BUDGET, false, [])
  }

  /** The results of the first n packets. */
  function Results(program: seq<U64>, packets: seq<Located>, n: nat): (rs: seq<RunResult>)
    requires n <= |packets|
    ensures |rs| == n
  {
    if n == 0 then [] else Results(program, packets, n - 1) + [RunOn(program, packets[n - 1])]
  }

  /** The fault of the last packet that had one. */
  function LastFault(rs: seq<RunResult>): Fault {
    if |rs| == 0 then Ok
    else if rs[|rs| - 1].fault != Ok then rs[|rs| - 1].fault
    else LastFault(rs[..|rs| - 1])
  }

  lemma {:induction false} CleanMeansAllClean(rs: seq<RunResult>)
    ensures LastFault(rs) == Ok <==> forall i | 0 <= i < |rs| :: rs[i].fault == Ok
  {
    if |rs| > 0 {
      CleanMeansAllClean(rs[..|rs| - 1]);
      assert forall i | 0 <= i < |rs| - 1 :: rs[..|rs| - 1][i] == rs[i];
    }
  }

  predicate Hosted(p: Located) {
    |p.bytes| >= 14 && 8 <= p.base && p.base + |p.bytes| <= TWO32
  }

  function NativeVerdicts(packets: seq<Located>, n: nat): (v: seq<U32>)
    requires n <= |packets| && forall i | 0 <= i < |packets| :: Hosted(packets[i])
    ensures |v| == n
  {
    if n == 0 then [] else NativeVerdicts(packets, n - 1) + [Mavlink.NativeVerdict(packets[n - 1].bytes)]
  }

  /** Mode 2: the native filter on every packet. */
  method NativeFilter(packets: seq<Located>, native: array<U32>)
    requires native.Length == |packets| && forall i | 0 <= i < |packets| :: Hosted(packets[i])
    modifies native
    ensures native[..] == NativeVerdicts(packets, |packets|)
  {
    for i := 0 to |packets|
      invariant native[..i] == NativeVerdicts(packets, i)
    {
      native[i] := Mavlink.NativeVerdict(packets[i].bytes);
      assert native[..i + 1] == native[..i] + [native[i]];
    }
  }

  method RunPacket(program: seq<U64>, p: Located) returns (fault: Fault, retval: U64, executed: U32)
    ensures RunResult(fault, retval, executed, []) == RunOn(program, p)
  {
    Soundness.RunCounted(program, p.base, p.bytes, BUDGET, false, []);
    fault, retval, executed := EbpfRun(program, p.base, p.bytes, BUDGET, null, 0);
  }

  /** Slot i of the two result arrays, which lie side by side in the monitor's memory. */
  method Record(verdicts: array<U32>, insns: array<U32>, i: nat, v: U32, n: U32)
    requires i < verdicts.Length == insns.Length && verdicts != insns
    modifies verdicts, insns
    ensures verdicts[..] == old(verdicts[..])[i := v] && insns[..] == old(insns[..])[i := n]
  {
    verdicts[i] := v;
    insns[i] := n;
  }

  /** What the result arrays hold of the first results. */
  predicate Recorded(rs: seq<RunResult>, verdicts: seq<U32>, insns: seq<U32>)
    requires |rs| <= |verdicts| == |insns|
  {
    forall j | 0 <= j < |rs| :: verdicts[j] == ToU32(rs[j].retval) && insns[j] == rs[j].executed
  }

  lemma RecordedNext(rs: seq<RunResult>, verdicts: seq<U32>, insns: seq<U32>, r: RunResult, n: U32)
    requires |rs| < |verdicts| == |insns| && Recorded(rs, verdicts, insns) && n == r.executed
    requires r.retval < TWO64
    ensures Recorded(rs + [r], verdicts[|rs| := ToU32(r.retval)], insns[|rs| := n])
    ensures LastFault(rs + [r]) == if r.fault != Ok then r.fault else LastFault(rs)
  {
    OneMore(rs, r);
  }

  /** One turn of the loop of mode 0. */
  method FilterOne(program: seq<U64>, packets: seq<Located>, i: nat, verdicts: array<U32>, insns: array<U32>,
      fault: Fault, ghost rs: seq<RunResult>) returns (fault': Fault, ghost rs': seq<RunResult>)
    requires verdicts.Length == insns.Length == |packets| && verdicts != insns && i < |packets|
    requires rs == Results(program, packets, i) && fault == LastFault(rs) && Recorded(rs, verdicts[..], insns[..])
    modifies verdicts, insns
    ensures rs' == Results(program, packets, i + 1) && fault' == LastFault(rs')
    ensures Recorded(rs', verdicts[..], insns[..])
  {
    var f, v, executed := RunPacket(program, packets[i]);
    ghost var r := RunResult(f, v, executed, []);
    RecordedNext(rs, verdicts[..], insns[..], r, executed);
    Record(verdicts, insns, i, ToU32(v), executed);
    rs' := rs + [r];
    fault' := if f != Ok then f else fault;
  }

  /** The loop of mode 0 over one program. */
  method FilterRound(program: seq<U64>, packets: seq<Located>, verdicts: array<U32>, insns: array<U32>)
    returns (fault: Fault, ghost rs: seq<RunResult>)
    requires verdicts.Length == insns.Length == |packets| && verdicts != insns
    modifies verdicts, insns
    ensures rs == Results(program, packets, |packets|) && Recorded(rs, verdicts[..], insns[..])
    ensures fault == LastFault(rs)
  {
    fault, rs := Ok, [];
    for i := 0 to |packets|
      invariant rs == Results(program, packets, i) && fault == LastFault(rs)
      invariant Recorded(rs, verdicts[..], insns[..])
    {
      fault, rs := FilterOne(program, packets, i, verdicts, insns, fault, rs);
    }
  }

  /** Mode 0: the live program, or the built-in filter; the fault word is what rolls it back. */
  method DefaultMode(live: seq<U64>, packets: seq<Located>, verdicts: array<U32>, insns: array<U32>)
    returns (fault: Fault, ghost rs: seq<RunResult>)
    requires verdicts.Length == insns.Length == |packets| && verdicts != insns
    modifies verdicts, insns
    ensures rs == Results(InForce(live), packets, |packets|) && Recorded(rs, verdicts[..], insns[..])
    ensures fault == LastFault(rs)
  {
    var program := Assemble(Mavlink.Policy());
    if |live| > 0 {
      program := live;
    }
    fault, rs := FilterRound(program, packets, verdicts, insns);
  }

  lemma BuiltInOn(live: seq<U64>, p: Located, r: RunResult)
    requires |live| == 0 && Hosted(p) && r == RunOn(InForce(live), p)
    ensures r.fault == Ok && r.retval == Mavlink.NativeVerdict(p.bytes) && r.executed <= 15
  {
    Mavlink.PolicyIsNativeFilter(p.base, p.bytes, BUDGET, false, []);
  }

  /** Results as the built-in filter gives them. */
  predicate BuiltIn(packets: seq<Located>, rs: seq<RunResult>)
    requires |rs| <= |packets| && forall i | 0 <= i < |packets| :: Hosted(packets[i])
  {
    && LastFault(rs) == Ok
    && (forall i | 0 <= i < |rs| :: rs[i].executed <= 15)
    && (forall i | 0 <= i < |rs| :: rs[i].retval == NativeVerdicts(packets, |rs|)[i])
  }

  /** The round with the slot empty: no fault, at most fifteen instructions a packet, and the
      verdicts the native filter writes. */
  lemma {:induction false} BuiltInRound(live: seq<U64>, packets: seq<Located>, n: nat)
    requires |live| == 0 && n <= |packets| && forall i | 0 <= i < |packets| :: Hosted(packets[i])
    ensures BuiltIn(packets, Results(InForce(live), packets, n))
  {
    BuiltInResults(live, InForce(live), packets, n);
  }

  lemma {:induction false} BuiltInResults(live: seq<U64>, program: seq<U64>, packets: seq<Located>, n: nat)
    requires |live| == 0 && program == InForce(live)
    requires n <= |packets| && forall i | 0 <= i < |packets| :: Hosted(packets[i])
    ensures BuiltIn(packets, Results(program, packets, n))
  {
    if n > 0 {
      BuiltInResults(live, program, packets, n - 1);
      BuiltInOn(live, packets[n - 1], RunOn(program, packets[n - 1]));
      BuiltInNext(packets, n - 1, Results(program, packets, n - 1), RunOn(program, packets[n - 1]));
    }
  }

  lemma BuiltInNext(packets: seq<Located>, n: nat, rs: seq<RunResult>, r: RunResult)
    requires n < |packets| && (forall i | 0 <= i < |packets| :: Hosted(packets[i])) && |rs| == n
    requires BuiltIn(packets, rs)
    requires r.fault == Ok && r.executed <= 15 && r.retval == Mavlink.NativeVerdict(packets[n].bytes)
    ensures BuiltIn(packets, rs + [r])
  {
    OneMore(rs, r);
    assert NativeVerdicts(packets, n + 1)[..n] == NativeVerdicts(packets, n);
  }

  lemma OneMore(rs: seq<RunResult>, r: RunResult)
    ensures LastFault(rs + [r]) == if r.fault != Ok then r.fault else LastFault(rs)
  {
    assert (rs + [r])[..|rs|] == rs;
  }

  // ----- mode 1: screening -----

  method RunWith(program: seq<U64>, p: Located, grid: array<U32>)
    returns (retval: U64, executed: U32, ghost r: RunResult)
    modifies grid
    ensures r == Run(program, p.base, p.bytes, BUDGET, true, old(grid[..]))
    ensures retval == r.retval && executed == r.executed && grid[..] == r.cells
  {
    r := Run(program, p.base, p.bytes, BUDGET, true, grid[..]);
    Soundness.RunCounted(program, p.base, p.bytes, BUDGET, true, grid[..]);
    var fault;
    fault, retval, executed := EbpfRun(program, p.base, p.bytes, BUDGET, grid, 0);
  }

  /** One packet through the policy on the map the last one left. */
  method ScreenPacket(packets: seq<Screening.Report>, i: nat, grid: array<U32>)
    returns (retval: U64, executed: U32, ghost r: RunResult)
    requires i < |packets| && grid[..] == Screening.StreamGrid(packets[..i], BUDGET)
    modifies grid
    ensures r == Screening.StreamRun(packets, BUDGET, i)
    ensures retval == r.retval && executed == r.executed && grid[..] == r.cells
  {
    retval, executed, r := RunWith(Assemble(Screening.Policy()), packets[i], grid);
  }

  /** What the loop has done after i packets. */
  ghost predicate Screened(packets: seq<Screening.Report>, i: nat, g: seq<U32>, rs: seq<RunResult>, alerts: nat)
    requires i <= |packets|
  {
    && g == Screening.StreamGrid(packets[..i], BUDGET)
    && rs == Screening.StreamResults(packets, BUDGET, i)
    && alerts == Screening.Alerts(packets, i)
    && Screening.AllJudged(packets, rs)
  }

  lemma ScreenedNext(packets: seq<Screening.Report>, i: nat, g: seq<U32>, rs: seq<RunResult>, alerts: nat, r: RunResult)
    requires Screening.Hosted(packets) && i < |packets| < TWO32 && Screened(packets, i, g, rs, alerts)
    requires r == Screening.StreamRun(packets, BUDGET, i)
    ensures Screened(packets, i + 1, r.cells, rs + [r], if r.retval == 5 then alerts + 1 else alerts)
  {
    Screening.StreamNext(packets, BUDGET, i);
    Screening.StreamVerdicts(packets, BUDGET, i);
    Screening.JudgedNext(packets, rs, r);
  }

  method ScreenOne(packets: seq<Screening.Report>, i: nat, grid: array<U32>, verdicts: array<U32>, insns: array<U32>,
      alerts: nat, ghost rs: seq<RunResult>) returns (alerts': nat, ghost rs': seq<RunResult>)
    requires Screening.Hosted(packets) && i < |packets| == verdicts.Length == insns.Length < TWO32
    requires grid != verdicts && grid != insns && verdicts != insns
    requires Screened(packets, i, grid[..], rs, alerts) && Recorded(rs, verdicts[..], insns[..])
    modifies grid, verdicts, insns
    ensures Screened(packets, i + 1, grid[..], rs', alerts') && Recorded(rs', verdicts[..], insns[..])
  {
    ghost var g := grid[..];
    var v, n;
    ghost var r;
    v, n, r := ScreenPacket(packets, i, grid);
    ScreenedNext(packets, i, g, rs, alerts, r);
    RecordedNext(rs, verdicts[..], insns[..], r, n);
    Record(verdicts, insns, i, ToU32(v), n);
    rs' := rs + [r];
    alerts' := if v == 5 then alerts + 1 else alerts;
  }

  /** Mode 1: zero the map, run the policy on every packet, keep verdict and instruction count of
      each, count the alerts. */
  method ScreenSwarm(packets: seq<Screening.Report>, grid: array<U32>, verdicts: array<U32>, insns: array<U32>)
    returns (alerts: nat, ghost rs: seq<RunResult>)
    requires Screening.Hosted(packets) && |packets| == verdicts.Length == insns.Length < TWO32
    requires grid.Length == Screening.CELLS && grid != verdicts && grid != insns && verdicts != insns
    modifies grid, verdicts, insns
    ensures Screening.Holds(grid[..], packets) && alerts == Screening.Alerts(packets, |packets|)
    ensures rs == Screening.StreamResults(packets, BUDGET, |packets|) && Recorded(rs, verdicts[..], insns[..])
    ensures forall i | 0 <= i < |packets| ::
              verdicts[..][i] == (if Screening.Suspicious(packets, i) then 5 else 1) && insns[..][i] <= 32
  {
    for c := 0 to Screening.CELLS
      invariant forall d | 0 <= d < c :: grid[d] == 0
    {
      grid[c] := 0;
    }
    alerts, rs := 0, [];
    assert packets[..0] == [] && grid[..] == Screening.ZeroGrid();
    for i := 0 to |packets|
      invariant Screened(packets, i, grid[..], rs, alerts) && Recorded(rs, verdicts[..], insns[..])
    {
      alerts, rs := ScreenOne(packets, i, grid, verdicts, insns, alerts, rs);
    }
    assert packets[..|packets|] == packets;
    Screening.GridCounts(packets, BUDGET, |packets|);
    RecordedVerdicts(packets, rs, verdicts[..], insns[..]);
  }

  lemma {:induction false} RecordedVerdicts(packets: seq<Screening.Report>, rs: seq<RunResult>, verdicts: seq<U32>,
      insns: seq<U32>)
    requires |rs| == |packets| == |verdicts| == |insns| && Recorded(rs, verdicts, insns)
    requires Screening.AllJudged(packets, rs)
    ensures forall i | 0 <= i < |packets| ::
              verdicts[i] == (if Screening.Suspicious(packets, i) then 5 else 1) && insns[i] <= 32
  {
    forall i | 0 <= i < |packets|
      ensures verdicts[i] == (if Screening.Suspicious(packets, i) then 5 else 1) && insns[i] <= 32
    {
      JudgedVerdict(packets, i, rs[i], verdicts[i], insns[i]);
    }
  }

  lemma JudgedVerdict(packets: seq<Screening.Report>, i: nat, r: RunResult, verdict: U32, n: U32)
    requires i < |packets| && Screening.Judged(packets, i, r) && verdict == ToU32(r.retval) && n == r.executed
    ensures verdict == (if Screening.Suspicious(packets, i) then 5 else 1) && n <= 32
  {
  }
}
