/** One strike: the monitor's default round (modules/monitor.c) and the rollback of the supervisor
    (modules/supervisor.c) together, whatever values the operations C leaves open give. */
module Rollback {
  import opened Words
  import opened Isa
  import opened Interpreter
  import opened Supervisor
  import opened Packets
  import opened Resolved
  import D = Dataflow
  import Monitor
  import Shipped
  import Soundness

  /** The values of the open operations of each packet's run. */
  type Choices = nat -> Choice

  function RunOn(program: seq<U64>, p: Located, choice: Choice): RunResult {
    RunGiven(program, p.base, p.bytes, Monitor.BUDGET, false, [], choice)
  }

  /** The results of the first n packets. */
  function Results(program: seq<U64>, packets: seq<Located>, choices: Choices, n: nat): (rs: seq<RunResult>)
    requires n <= |packets|
    ensures |rs| == n
  {
    if n == 0 then [] else Results(program, packets, choices, n - 1) + [RunOn(program, packets[n - 1], choices(n - 1))]
  }

  /** The fault word the default round leaves, for the program that is live. */
  function FaultWord(s: State, packets: seq<Located>, choices: Choices): Fault {
    Monitor.LastFault(Results(Monitor.InForce(s.progs.live), packets, choices, |packets|))
  }

  /** The program in force faults on some packet. */
  predicate FaultsOnSome(s: State, packets: seq<Located>, choices: Choices) {
    exists i :: 0 <= i < |packets| && RunOn(Monitor.InForce(s.progs.live), packets[i], choices(i)).fault != Ok
  }

  predicate AllPlaced(packets: seq<Located>) {
    forall i | 0 <= i < |packets| :: 8 <= packets[i].base && packets[i].base + |packets[i].bytes| <= TWO32
  }

  /** When the default round is over, a live program is replaced, by its shadow or by the built-in filter,
      if and only if it faulted on some packet of the round; then one rollback is counted. */
  lemma RolledBackExactly(b: Build, s: State, packets: seq<Located>, choices: Choices)
    requires Shaped(s) && s.sched.phase == 1
    ensures var s' := Resume(b, s, FaultWord(s, packets, choices) != Ok);
            if |s.progs.live| > 0 && FaultsOnSome(s, packets, choices) then
              && s'.progs == Programs(s.progs.shadow, []) && s'.counts.rolls == s.counts.rolls + 1
            else s'.progs == s.progs && s'.counts.rolls == s.counts.rolls
  {
    FaultWordExactly(s, packets, choices);
  }

  lemma FaultWordExactly(s: State, packets: seq<Located>, choices: Choices)
    ensures FaultWord(s, packets, choices) != Ok <==> FaultsOnSome(s, packets, choices)
  {
    var program := Monitor.InForce(s.progs.live);
    var rs := Results(program, packets, choices, |packets|);
    Monitor.CleanMeansAllClean(rs);
    forall i | 0 <= i < |packets|
      ensures rs[i] == RunOn(program, packets[i], choices(i))
    {
      ResultAt(program, packets, choices, |packets|, i);
    }
  }

  lemma {:induction false} ResultAt(program: seq<U64>, packets: seq<Located>, choices: Choices, n: nat, i: nat)
    requires i < n <= |packets|
    ensures Results(program, packets, choices, n)[i] == RunOn(program, packets[i], choices(i))
  {
    var before := Results(program, packets, choices, n - 1);
    assert Results(program, packets, choices, n) == before + [RunOn(program, packets[n - 1], choices(n - 1))];
    if i < n - 1 {
      ResultAt(program, packets, choices, n - 1, i);
    }
  }

  /** How a program in force can fault in the round. */
  ghost predicate RoundFault(program: seq<U64>, p: Located, f: Fault) {
    && f != Pc && f != Opcode && f != Store && f != Undefined
    && (f == Mem ==>
          exists pc :: 0 <= pc < |program| && Decode(program[pc]).IsLdx()
                       && !Soundness.LoadInside(Decode(program[pc]), |p.bytes|))
  }

  /** Values are the only thing C leaves open in a round: in every state of every run, on packets where the
      platform puts them, no packet's run leaves anything else open, runs off its image or stores, and it
      faults on memory only when a load's own offset leaves the packet. */
  lemma RoundIsDefined(b: Build, boot: State, s: State, packets: seq<Located>, choices: Choices, i: nat)
    requires Invariant(b, boot, s) && i < |packets| && AllPlaced(packets)
    ensures var program := Monitor.InForce(s.progs.live);
            RoundFault(program, packets[i], RunOn(program, packets[i], choices(i)).fault)
  {
    InForceIsAccepted(b, boot, s);
    FaultOf(Monitor.InForce(s.progs.live), packets[i], choices(i));
  }

  lemma InForceIsAccepted(b: Build, boot: State, s: State)
    requires Invariant(b, boot, s)
    ensures D.Accepted(Monitor.InForce(s.progs.live))
  {
    Shipped.MavlinkAccepted();
  }

  lemma FaultOf(program: seq<U64>, p: Located, choice: Choice)
    requires D.Accepted(program) && 8 <= p.base && p.base + |p.bytes| <= TWO32
    ensures RoundFault(program, p, RunOn(program, p, choice).fault)
  {
    AnyValueSound(program, p.base, p.bytes, Monitor.BUDGET, false, [], choice);
  }

  /** A round in which no run comes to an open operation is the default round of the monitor. */
  lemma {:induction false} ClosedRound(program: seq<U64>, packets: seq<Located>, choices: Choices, n: nat)
    requires n <= |packets|
    requires forall i | 0 <= i < |packets| :: Monitor.RunOn(program, packets[i]).fault != Undefined
    ensures Results(program, packets, choices, n) == Monitor.Results(program, packets, n)
  {
    if n > 0 {
      ClosedRound(program, packets, choices, n - 1);
      ClosedRun(program, packets[n - 1], choices(n - 1));
    }
  }

  lemma ClosedRun(program: seq<U64>, p: Located, choice: Choice)
    requires Monitor.RunOn(program, p).fault != Undefined
    ensures RunOn(program, p, choice) == Monitor.RunOn(program, p)
  {
    if 0 < |program| <= MAX_INSNS {
      NothingOpen(Env(DecodeAll(program), p.base, p.bytes, false), choice, Start(p.base, []), Monitor.BUDGET, 0);
    }
  }
}
