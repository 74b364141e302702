/** Runs with the operations C leaves open given a value: a 32-bit division by a zero low word and the
    negation of the least 64-bit value put some value into their register, whichever, and the run goes on.
    What acceptance means for all of these runs. */
module Resolved {
  import opened Words
  import opened Isa
  import opened Dataflow
  import opened Interpreter
  import opened Soundness

  /** The value an open operation gives, for each instruction executed so far. */
  type Choice = nat -> U64

  /** The machine is at an operation on registers whose result C leaves open. */
  predicate OpenHere(env: Env, s: Machine) {
    s.pc < |env.prog| && env.prog[s.pc].IsAlu() && Step(env, s) == Halt(Undefined, 0)
  }

  /** The machine after that operation has given this value. */
  function Given(i: Insn, s: Machine, v: U64): Machine
    requires i.dst < 11
  {
    s.(regs := s.regs[i.dst := Low(i.Cls() == CLS_ALU64, v)], pc := ToU32(s.pc + 1))
  }

  function StepGiven(env: Env, s: Machine, v: U64): Outcome {
    if s.pc >= |env.prog| then Halt(Pc, 0)
    else if OpenHere(env, s) then Next(Given(env.prog[s.pc], s, v))
    else Step(env, s)
  }

  type Stepper = (nat, Machine) -> Outcome

  function Resolver(env: Env, choice: Choice): Stepper {
    (n: nat, s: Machine) => StepGiven(env, s, choice(n))
  }

  /** At most `left` further steps of a machine with `len` instructions, `executed` already done. */
  function ExecBy(step: Stepper, len: nat, s: Machine, left: nat, executed: nat): RunResult
    decreases left, s
  {
    if s.pc >= len then RunResult(Pc, 0, executed, s.cells)
    else if left == 0 then RunResult(Steps, 0, executed, s.cells)
    else
      match step(executed, s)
      case Halt(f, v) => RunResult(f, if f == Ok then v else 0, executed + 1, s.cells)
      case Next(s') => ExecBy(step, len, s', left - 1, executed + 1)
  }

  /** A whole run of `ins` with its open operations resolved. */
  function RunGiven(ins: seq<U64>, base: U64, ctx: seq<Byte>, maxSteps: nat, hasMap: bool, cells: seq<U32>,
                    choice: Choice): RunResult {
    if |ins| == 0 || |ins| > MAX_INSNS then RunResult(Pc, 0, 0, cells)
    else ExecBy(Resolver(Env(DecodeAll(ins), base, ctx, hasMap), choice), |ins|, Start(base, cells), maxSteps, 0)
  }

  // ----- soundness, whatever the values -----

  /** How a run of a checked program can stop. */
  ghost predicate StopOk(env: Env, cells: nat, f: Fault) {
    && f != Pc && f != Opcode && f != Store && f != Steps
    && (f == Call ==> !env.hasMap || !PowerOfTwo(cells))
    && (f == Mem && Placed(env) ==>
          exists pc :: 0 <= pc < |env.prog| && env.prog[pc].IsLdx() && !LoadInside(env.prog[pc], |env.ctx|))
    && (Placed(env) ==> f != Undefined)
  }

  /** What a step of a checked program comes to. */
  ghost predicate OutcomeOk(env: Env, m: seq<U32>, cells: nat, o: Outcome) {
    match o
    case Halt(f, _) => StopOk(env, cells, f)
    case Next(s) => Typed(m, env.base, s) && |s.cells| == cells
  }

  lemma GivenShape(env: Env, s: Machine, v: U64)
    requires OpenHere(env, s) && |env.prog| <= MAX_INSNS
    ensures var i := env.prog[s.pc];
            && i.dst < 10 && Succ(i, s.pc) == [s.pc + 1] && ToU32(s.pc + 1) == s.pc + 1
            && (forall r | 0 <= r < 11 :: Writes(i, r) <==> r == i.dst)
            && StepGiven(env, s, v) == Next(Given(i, s, v))
  {
  }

  lemma GivenTyped(env: Env, m: seq<U32>, s: Machine, v: U64)
    requires Checked(env.prog, m) && Typed(m, env.base, s) && OpenHere(env, s)
    ensures StepGiven(env, s, v).Next? && Typed(m, env.base, StepGiven(env, s, v).m)
    ensures |StepGiven(env, s, v).m.cells| == |s.cells|
  {
    GivenShape(env, s, v);
    TypedAlong(env.prog, m, env.base, s, Given(env.prog[s.pc], s, v));
  }

  lemma OpenIsAlu(env: Env, s: Machine)
    requires s.pc < |env.prog| && Step(env, s) == Halt(Undefined, 0)
    requires LowDivision(env.prog[s.pc]) || Negation(env.prog[s.pc])
    ensures OpenHere(env, s)
  {
  }

  lemma HaltValue(env: Env, s: Machine)
    requires s.pc < |env.prog| && Step(env, s).Halt? && Step(env, s).fault != Ok
    ensures Step(env, s).retval == 0
  {
  }

  lemma HaltOk(env: Env, m: seq<U32>, s: Machine, f: Fault)
    requires Checked(env.prog, m) && Typed(m, env.base, s) && InRange(env.prog[s.pc])
    requires !OpenHere(env, s) && Step(env, s).Halt? && f == Step(env, s).fault
    ensures StopOk(env, |s.cells|, f)
  {
    StepFaults(env, m, s);
    if Placed(env) && f == Undefined {
      HaltValue(env, s);
      OpenIsAlu(env, s);
    }
  }

  lemma StepOk(env: Env, m: seq<U32>, s: Machine, v: U64)
    requires Checked(env.prog, m) && Typed(m, env.base, s) && InRange(env.prog[s.pc])
    ensures OutcomeOk(env, m, |s.cells|, StepGiven(env, s, v))
  {
    if OpenHere(env, s) {
      GivenTyped(env, m, s, v);
    } else if Step(env, s).Halt? {
      HaltOk(env, m, s, Step(env, s).fault);
    } else {
      TypedStep(env, m, s, Step(env, s).m);
    }
  }

  /** The claim about a resolved run. */
  ghost predicate GivenClaim(env: Env, cells: nat, steps: nat, r: RunResult) {
    && (r.fault == Steps || StopOk(env, cells, r.fault))
    && |r.cells| == cells && r.executed <= steps && (r.fault == Steps ==> r.executed == steps)
  }

  lemma {:induction false} ExecByOk(env: Env, m: seq<U32>, step: Stepper, cells: nat, s: Machine, left: nat,
                                    executed: nat)
    requires forall n: nat, t: Machine | Typed(m, env.base, t) && |t.cells| == cells ::
               OutcomeOk(env, m, cells, step(n, t))
    requires Typed(m, env.base, s) && |s.cells| == cells
    ensures GivenClaim(env, cells, executed + left, ExecBy(step, |m|, s, left, executed))
    decreases left
  {
    if left > 0 {
      assert OutcomeOk(env, m, cells, step(executed, s));
      if step(executed, s).Next? {
        ExecByOk(env, m, step, cells, step(executed, s).m, left - 1, executed + 1);
      }
    }
  }

  /** Soundness for every value: a resolved run of an accepted program, from any context, with any step limit
      and map, never runs off the image, never meets an opcode the interpreter refuses and never stores; it
      misuses a helper only without a power-of-two map, and faults on memory only if a load's own offset
      leaves the context; and with a placed context nothing else about it is left open. */
  lemma AnyValueSound(ins: seq<U64>, base: U64, ctx: seq<Byte>, maxSteps: nat, hasMap: bool, cells: seq<U32>,
                      choice: Choice)
    requires Accepted(ins)
    ensures GivenClaim(Env(DecodeAll(ins), base, ctx, hasMap), |cells|, maxSteps,
                       RunGiven(ins, base, ctx, maxSteps, hasMap, cells, choice))
  {
    var env := Env(DecodeAll(ins), base, ctx, hasMap);
    var m := AcceptedHasCertificate(ins);
    EntryTyped(ins, m, base, cells);
    var step := Resolver(env, choice);
    forall n: nat, t: Machine | Typed(m, env.base, t) && |t.cells| == |cells|
      ensures OutcomeOk(env, m, |cells|, step(n, t))
    {
      EncodeDecode(ins[t.pc]);
      StepOk(env, m, t, choice(n));
    }
    ExecByOk(env, m, step, |cells|, Start(base, cells), maxSteps, 0);
  }

  // ----- the values are the only thing left open -----

  /** Two machines that agree stay in agreement, given the same value. */
  lemma GivenAgrees(env: Env, m: seq<U32>, a: Machine, b: Machine, v: U64)
    requires Checked(env.prog, m) && Agree(m, a, b)
    ensures StepGiven(env, a, v).Halt? ==> StepGiven(env, b, v) == StepGiven(env, a, v)
    ensures StepGiven(env, a, v).Next? ==>
              StepGiven(env, b, v).Next? && Agree(m, StepGiven(env, a, v).m, StepGiven(env, b, v).m)
  {
    var a', b' := AgreeStep(env, m, a, b);
    if OpenHere(env, a) {
      GivenShape(env, a, v);
      GivenShape(env, b, v);
      AgreeAlong(env.prog, m, a, b, Given(env.prog[a.pc], a, v), Given(env.prog[b.pc], b, v));
    }
  }

  /** What two steps of agreeing machines come to. */
  predicate Alike(m: seq<U32>, a: Outcome, b: Outcome) {
    if a.Halt? then b == a else b.Next? && Agree(m, a.m, b.m)
  }

  lemma {:induction false} ExecByAlike(m: seq<U32>, step: Stepper, a: Machine, b: Machine, left: nat, executed: nat)
    requires forall n: nat, s: Machine, t: Machine | Agree(m, s, t) :: Alike(m, step(n, s), step(n, t))
    requires Agree(m, a, b)
    ensures ExecBy(step, |m|, a, left, executed) == ExecBy(step, |m|, b, left, executed)
    decreases left
  {
    if left > 0 {
      assert Alike(m, step(executed, a), step(executed, b));
      if step(executed, a).Next? {
        ExecByAlike(m, step, step(executed, a).m, step(executed, b).m, left - 1, executed + 1);
      }
    }
  }

  /** No accepted program depends on a register it has not written, whatever its open operations give. */
  lemma AnyValueReads(ins: seq<U64>, env: Env, a: RegFile, b: RegFile, cells: seq<U32>, maxSteps: nat, choice: Choice)
    requires Accepted(ins) && env.prog == DecodeAll(ins) && a[1] == b[1]
    ensures ExecBy(Resolver(env, choice), |ins|, Machine(a, 0, cells), maxSteps, 0)
         == ExecBy(Resolver(env, choice), |ins|, Machine(b, 0, cells), maxSteps, 0)
  {
    var m := AcceptedHasCertificate(ins);
    EntryAgrees(m, env.prog, a, b, cells);
    forall n: nat, s: Machine, t: Machine | Agree(m, s, t)
      ensures Alike(m, Resolver(env, choice)(n, s), Resolver(env, choice)(n, t))
    {
      GivenAgrees(env, m, s, t, choice(n));
    }
    ExecByAlike(m, Resolver(env, choice), Machine(a, 0, cells), Machine(b, 0, cells), maxSteps, 0);
  }

  // ----- runs with nothing open -----

  lemma Unopened(env: Env, choice: Choice, s: Machine, n: nat)
    requires s.pc < |env.prog| && (Step(env, s).Halt? ==> Step(env, s).fault != Undefined)
    ensures Resolver(env, choice)(n, s) == Step(env, s)
  {
    assert !OpenHere(env, s);
    assert Resolver(env, choice)(n, s) == StepGiven(env, s, choice(n));
  }

  /** A run that comes to no open operation is the run of the interpreter, whatever the values would be. */
  lemma {:induction false} NothingOpen(env: Env, choice: Choice, s: Machine, left: nat, executed: nat)
    requires Exec(env, s, left, executed).fault != Undefined
    ensures ExecBy(Resolver(env, choice), |env.prog|, s, left, executed) == Exec(env, s, left, executed)
    decreases left
  {
    if left > 0 && s.pc < |env.prog| {
      Unopened(env, choice, s, executed);
      if Step(env, s).Next? {
        NothingOpen(env, choice, Step(env, s).m, left - 1, executed + 1);
      }
    }
  }
}
