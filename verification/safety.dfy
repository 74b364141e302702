/** What holds over every run of the supervisor. */
module Safety {
  import opened Words
  import opened Update
  import opened Isa
  import opened Supervisor
  import opened Images
  import Pmp
  import D = Dataflow
  import G = Gates

  // ----- boot -----

  /** The state boot hands to the first round. The native table is whatever the restore left:
      slot 0 holds the built-in image, nothing is struck out, the live slot is valid. */
  ghost predicate Booted(s: State) {
    && Shaped(s) && Pmp.Cached(s.sched.pmp)
    && (|s.progs.live| > 0 ==> D.Accepted(s.progs.live)) && s.progs.shadow == []
    && s.nats.slots[0].valid && s.nats.slots[s.nats.live].valid
    && !s.nats.slots[0].evicted && !s.nats.slots[1].evicted && !s.nats.retired
    && s.link.dev.magic == 0 && s.link.dev.rx.phase == Idle
    && s.counts == Counts(0, 0, 0) && s.log == Log(0, 0, 0, [0, 0], [0, 0], [0, 0])
  }

  /** The first round. */
  function Started(b: Build, s: State): State
    requires Shaped(s)
  {
    s.(sched := StartRound(b, s.nats, s.sched))
  }

  // ----- the compartment table -----

  lemma SetIs(t: Pmp.Table, i: nat, spec: G.Spec, entry: U32)
    requires Pmp.Cached(t) && i < 4
    ensures var t' := Pmp.Perform(t, Pmp.Set(i, spec, entry));
            && Pmp.Cached(t')
            && t'.comps[i].spec == spec && t'.comps[i].entry == entry && !t'.comps[i].evicted
            && forall j | 0 <= j < 4 && j != i :: t'.comps[j] == t.comps[j]
  {
    Pmp.PerformCached(t, Pmp.Set(i, spec, entry));
  }

  lemma ArmIs(t: Pmp.Table, i: nat)
    requires Pmp.Cached(t) && i < 4
    ensures var t' := Pmp.Perform(t, Pmp.Arm(i));
            && Pmp.Cached(t') && t'.comps[i].armed
            && forall j | 0 <= j < 4 ::
                 t'.comps[j].spec == t.comps[j].spec && t'.comps[j].entry == t.comps[j].entry
                 && t'.comps[j].evicted == t.comps[j].evicted
  {
    Pmp.PerformCached(t, Pmp.Arm(i));
  }

  lemma EvictIs(t: Pmp.Table, i: nat)
    requires Pmp.Cached(t) && i < 4
    ensures var t' := Pmp.Perform(t, Pmp.Evict(i));
            && Pmp.Cached(t')
            && (forall j | 0 <= j < 4 :: t'.comps[j].spec == t.comps[j].spec && t'.comps[j].entry == t.comps[j].entry)
            && forall j | 0 <= j < 4 && j != i :: t'.comps[j].evicted == t.comps[j].evicted
  {
    Pmp.PerformCached(t, Pmp.Evict(i));
  }

  /** Entering a live compartment arms it; nothing else about the table changes. */
  lemma EnterIs(c: Sched, i: nat)
    requires Pmp.Cached(c.pmp) && i < 3 && !c.pmp.comps[i].evicted
    ensures var c' := Enter(c, i);
            && c' == c.(pmp := c'.pmp, at := Inside(i), entries := c.entries + 1)
            && Pmp.Cached(c'.pmp) && c'.pmp.comps[i].armed
            && forall j | 0 <= j < 4 ::
                 c'.pmp.comps[j].spec == c.pmp.comps[j].spec && c'.pmp.comps[j].entry == c.pmp.comps[j].entry
                 && c'.pmp.comps[j].evicted == c.pmp.comps[j].evicted
  {
    ArmIs(c.pmp, i);
  }

  lemma SetArmIs(t: Pmp.Table, i: nat, spec: G.Spec, entry: U32)
    requires Pmp.Cached(t) && i < 4
    ensures var t' := Pmp.PerformAll(t, [Pmp.Set(i, spec, entry), Pmp.Arm(i)]);
            && Pmp.Cached(t') && t'.comps[i].armed
            && t'.comps[i].spec == spec && t'.comps[i].entry == entry && !t'.comps[i].evicted
            && forall j | 0 <= j < 4 && j != i ::
                 t'.comps[j].spec == t.comps[j].spec && t'.comps[j].entry == t.comps[j].entry
                 && t'.comps[j].evicted == t.comps[j].evicted
  {
    Pmp.PerformTwo(t, Pmp.Set(i, spec, entry), Pmp.Arm(i));
    SetIs(t, i, spec, entry);
    ArmIs(Pmp.Perform(t, Pmp.Set(i, spec, entry)), i);
  }

  lemma WiringIs(b: Build, n: Natives, t: Pmp.Table, c: Sched)
    requires Pmp.Cached(t) && TwoSlots(n) && c.pmp == Pmp.PerformAll(t, Wiring(b, n)) && c.vector == 0
    ensures Pmp.Cached(c.pmp) && Wired(b, n, c) && forall j | 0 <= j < 3 :: !c.pmp.comps[j].evicted
  {
    var a0, a1 := Pmp.Set(0, MONITOR, b.monitorEntry), Pmp.Set(1, ATTACKER, b.attackEntries[0]);
    var a2 := Pmp.Set(2, NatSpec(n.live), n.slots[n.live].entry);
    Pmp.PerformFour(t, a0, a1, a2, Pmp.Arm(0));
    SetIs(t, 0, MONITOR, b.monitorEntry);
    var t1 := Pmp.Perform(t, a0);
    SetIs(t1, 1, ATTACKER, b.attackEntries[0]);
    var t2 := Pmp.Perform(t1, a1);
    SetIs(t2, 2, NatSpec(n.live), n.slots[n.live].entry);
    ArmIs(Pmp.Perform(t2, a2), 0);
  }

  // ----- the schedule -----

  lemma StartOk(b: Build, n: Natives, c: Sched)
    requires TwoSlots(n) && Pmp.Cached(c.pmp)
    ensures SchedOk(b, n, StartRound(b, n, c))
  {
    var w := Sched(1, 0, Pmp.PerformAll(c.pmp, Wiring(b, n)), c.at, 0);
    WiringIs(b, n, c.pmp, w);
    EnterIs(w, 0);
  }

  /** What the next lifetime needs of the schedule; compartment 1 is about to be set up again. */
  predicate MayAttack(b: Build, n: Natives, c: Sched) {
    && TwoSlots(n) && Pmp.Cached(c.pmp) && c.phase == 4
    && var m := c.pmp.comps;
       && m[0].spec == MONITOR && m[0].entry == b.monitorEntry
       && m[2].spec == NatSpec(n.live) && m[2].entry == n.slots[n.live].entry && !m[2].evicted
       && m[1].spec == ATTACKER
  }

  lemma LifetimeOk(b: Build, n: Natives, c: Sched, v: nat)
    requires MayAttack(b, n, c) && v < LIFETIMES && c.entries == 3 + v
    ensures SchedOk(b, n, Lifetime(b, c, v))
  {
    var t := Pmp.PerformAll(c.pmp, [Pmp.Set(1, ATTACKER, b.attackEntries[v]), Pmp.Arm(1)]);
    SetArmIs(c.pmp, 1, ATTACKER, b.attackEntries[v]);
    EnterIs(c.(vector := v, pmp := t), 1);
  }

  lemma AdvanceOk(b: Build, n: Natives, c: Sched)
    requires MayAttack(b, n, c) && c.vector < LIFETIMES && c.entries == 4 + c.vector
    ensures SchedOk(b, n, Advance(b, n, c))
  {
    if c.vector + 1 < LIFETIMES {
      LifetimeOk(b, n, c, c.vector + 1);
    } else if !n.retired && n.slots[n.live].Runnable() {
      EnterIs(c.(vector := c.vector + 1, phase := 5), 2);
    }
  }

  lemma NextModeOk(b: Build, n: Natives, c: Sched)
    requires SchedOk(b, n, c) && c.at == Inside(0) && c.phase <= 2
    ensures SchedOk(b, n, NextMode(c))
  {
    ArmIs(c.pmp, 0);
    EnterIs(c.(phase := c.phase + 1, pmp := Pmp.Perform(c.pmp, Pmp.Arm(0))), 0);
  }

  lemma YieldedOk(b: Build, n: Natives, c: Sched)
    requires SchedOk(b, n, c) && c.at.Inside?
    ensures SchedOk(b, n, Yielded(b, n, c))
  {
    if c.phase <= 2 {
      NextModeOk(b, n, c);
    } else if c.phase == 3 {
      LifetimeOk(b, n, c.(phase := 4), 0);
    } else if c.phase == 4 {
      AdvanceOk(b, n, c);
    }
  }

  lemma EndedOk(b: Build, n: Natives, c: Sched)
    requires SchedOk(b, n, c) && c.at.Inside?
    ensures SchedOk(b, n, Ended(b, n, c))
    ensures c.phase >= 5 ==> Ended(b, n, c).at.Serving?
  {
    EvictIs(c.pmp, c.at.comp);
    if c.phase == 4 {
      AdvanceOk(b, n, c.(pmp := Pmp.Perform(c.pmp, Pmp.Evict(c.at.comp))));
    }
  }

  /** Outside the compartments the table of natives may change under the schedule. */
  lemma SchedIgnoresNatives(b: Build, n: Natives, n': Natives, c: Sched)
    requires SchedOk(b, n, c) && !c.at.Inside? && TwoSlots(n')
    ensures SchedOk(b, n', c)
  {
  }

  // ----- one step on the slots, the table and the accounts -----

  lemma JudgedIsPinned(b: Build, p: seq<Byte>, v: Verdict)
    requires |p| >= MAX_IMAGE && v == Inspect(b, p) && !v.Refused?
    ensures Pinned(b, v) && (v.Program? ==> 0 < |v.ins| <= MAX_INSNS && D.Accepted(v.ins))
  {
    assert Carries(b, p, v);
  }

  lemma ProgramsKept(b: Build, boot: seq<U64>, p: Programs, log: Log, ins: seq<U64>)
    requires ProgramsOk(b, boot, p, log) && |ins| > 0 && D.Accepted(ins) && Pinned(b, Program(ins))
    ensures ProgramsOk(b, boot, ApplyProgs(p, Program(ins)), log.(programs := log.programs + 1))
  {
  }

  lemma NativesKept(b: Build, boot: Natives, n: Natives, k: nat, entry: U32, code: seq<Byte>)
    requires NativesOk(b, boot, n) && k < 2 && Pinned(b, Native(k, entry, code))
    ensures NativesOk(b, boot, Installed(n, k, entry, code))
  {
    assert forall j | 0 <= j < 2 && j != k :: Installed(n, k, entry, code).slots[j] == n.slots[j];
  }

  lemma InstallPays(n: Natives, log: Log, k: nat, entry: U32, code: seq<Byte>)
    requires TwoSlots(n) && |log.installs| == |log.rearms| == |log.strikes| == 2 && StrikesPaid(n, log) && k < 2
    ensures StrikesPaid(Installed(n, k, entry, code), log.(installs := Bumped(log.installs, k)))
  {
  }

  /** A verdict that installs something has it from a pinned image. */
  ghost predicate Backed(b: Build, v: Verdict) {
    && (v.Program? ==> |v.ins| > 0 && D.Accepted(v.ins) && Pinned(b, v))
    && (v.Native? ==> v.slot < 2 && Pinned(b, v))
  }

  lemma ApplyKeeps(b: Build, boot: State, s: State, v: Verdict)
    requires Core(b, boot, s) && Backed(b, v)
    ensures Core(b, boot, Apply(s, v))
  {
    match v
    case NoImage =>
    case Refused =>
    case Program(ins) =>
      ProgramsKept(b, boot.progs.live, s.progs, s.log, ins);
    case Native(k, entry, code) =>
      NativesKept(b, boot.nats, s.nats, k, entry, code);
      InstallPays(s.nats, s.log, k, entry, code);
  }

  /** Installing a native module moves compartment 2 at once; the table stays a sound cache. */
  lemma RemapKeeps(t: Pmp.Table, k: nat, entry: U32)
    requires Pmp.Cached(t)
    ensures Pmp.Cached(Remapped(t, k, entry))
  {
    SetArmIs(t, 2, NatSpec(k), entry);
  }

  lemma ApplyServing(b: Build, n: Natives, c: Sched, v: Verdict)
    requires SchedOk(b, n, c) && c.at.Serving? && (v.Native? ==> v.slot < 2)
    ensures SchedOk(b, ApplyNats(n, v), c.(pmp := ApplyTable(c.pmp, v)))
  {
    if v.Native? {
      RemapKeeps(c.pmp, v.slot, v.entry);
    }
  }

  lemma DecisionBacked(b: Build, d: Device)
    requires Roomy(d)
    ensures Backed(b, Decision(b, d))
  {
    var v := Decision(b, d);
    if v.Program? || v.Native? {
      JudgedIsPinned(b, d.pend, v);
    }
  }

  lemma HotSwapKeeps(b: Build, boot: State, s: State)
    requires Core(b, boot, s) && SchedOk(b, s.nats, s.sched) && s.sched.at.Serving?
    ensures Core(b, boot, HotSwap(b, s))
    ensures SchedOk(b, HotSwap(b, s).nats, HotSwap(b, s).sched) && HotSwap(b, s).sched.at.Serving?
  {
    var v := Decision(b, s.link.dev);
    DecisionBacked(b, s.link.dev);
    ApplyKeeps(b, boot, s, v);
    ApplyServing(b, s.nats, s.sched, v);
  }

  /** A magic word is always consumed, and exactly one of the two counters shows it. */
  lemma HotSwapCounts(b: Build, s: State)
    requires Shaped(s)
    ensures var c, v := HotSwap(b, s), Decision(b, s.link.dev);
            && (v.NoImage? <==> s.link.dev.magic != PEND_MAGIC) && c.link.dev.magic != PEND_MAGIC
            && c.counts.loads + c.counts.rejects == s.counts.loads + s.counts.rejects + (if v.NoImage? then 0 else 1)
            && (c.counts.loads > s.counts.loads <==> v.Program? || v.Native?)
            && (c.counts.rejects > s.counts.rejects <==> v.Refused?)
  {
  }

  // ----- the channel -----

  /** An image staged by the update protocol was noted when it was staged. */
  predicate Noted(l: Link, c: Counts) {
    Roomy(l.dev) &&
      (l.dev.rx.phase == Staged ==>
         l.dev.magic == PEND_MAGIC && l.seenLoads == c.loads && l.seenRejects == c.rejects)
  }

  lemma UpdateFrameNotes(b: Build, l: Link, c: Counts, p: seq<Byte>)
    requires Roomy(l.dev) && NothingStaged(l.dev)
    ensures Noted(UpdateFrame(b, l, c, p), c)
  {
    StagingIsAnnounced(b.hash, l.dev, Parse(p));
  }

  lemma CoreIgnoresLink(b: Build, boot: State, s: State, l: Link)
    requires Core(b, boot, s) && Roomy(l.dev)
    ensures Core(b, boot, s.(link := l))
  {
  }

  lemma RearmPays(n: Natives, log: Log, k: nat)
    requires TwoSlots(n) && |log.installs| == |log.rearms| == |log.strikes| == 2 && StrikesPaid(n, log) && k < 2
    ensures StrikesPaid(Rearmed(n, k), log.(rearms := Bumped(log.rearms, k)))
  {
  }

  lemma RearmOk(b: Build, boot: Natives, n: Natives, k: nat)
    requires NativesOk(b, boot, n) && k < 2 && n.slots[k].valid
    ensures NativesOk(b, boot, Rearmed(n, k))
  {
    forall j | 0 <= j < 2
      ensures NativeOk(b, boot.slots[j], j, Rearmed(n, k).slots[j])
    {
      assert NativeOk(b, boot.slots[j], j, n.slots[j]);
    }
  }

  lemma RearmKeeps(b: Build, boot: State, s: State, p: seq<Byte>)
    requires Core(b, boot, s)
    ensures Core(b, boot, s.(nats := RearmNats(s.nats, p), log := RearmLog(s.nats, s.log, p)))
  {
    if Rearms(s.nats, p) {
      RearmPays(s.nats, s.log, Word(p, 0));
      RearmOk(b, boot.nats, s.nats, Word(p, 0));
    }
  }

  /** What a poll leaves for the rest of the turn. */
  predicate Polled(s: State, s': State) {
    && Noted(s'.link, s'.counts) && s'.sched == s.sched && s'.progs == s.progs && s'.counts == s.counts
    && s'.log.programs == s.log.programs
  }

  lemma LinkPolled(b: Build, boot: State, s: State, l: Link)
    requires Core(b, boot, s) && Noted(l, s.counts)
    ensures Core(b, boot, s.(link := l)) && Polled(s, s.(link := l))
  {
    CoreIgnoresLink(b, boot, s, l);
  }

  lemma PollNotes(b: Build, l: Link, c: Counts, kind: Byte, p: seq<Byte>)
    requires Roomy(l.dev) && NothingStaged(l.dev)
    ensures Noted(PollLink(b, l, c, kind, p), c)
  {
    UpdateFrameNotes(b, l, c, p);
  }

  lemma PollKeeps(b: Build, boot: State, s: State, kind: Byte, p: seq<Byte>)
    requires Core(b, boot, s) && NothingStaged(s.link.dev)
    ensures Core(b, boot, Poll(b, s, kind, p)) && Polled(s, Poll(b, s, kind, p))
  {
    PollNotes(b, s.link, s.counts, kind, p);
    if kind == FRAME_REARM {
      RearmKeeps(b, boot, s, p);
    } else {
      LinkPolled(b, boot, s, PollLink(b, s.link, s.counts, kind, p));
    }
  }

  lemma PollServing(b: Build, s: State, kind: Byte, p: seq<Byte>)
    requires Shaped(s) && SchedOk(b, s.nats, s.sched) && s.sched.at.Serving?
    ensures var s' := Poll(b, s, kind, p); s'.sched == s.sched && SchedOk(b, s'.nats, s'.sched)
  {
    SchedIgnoresNatives(b, s.nats, Poll(b, s, kind, p).nats, s.sched);
  }

  /** The report is due once a counter has moved, and then nothing stays staged. */
  lemma FinalizeClears(l: Link, c: Counts)
    requires Roomy(l.dev) && l.dev.magic != PEND_MAGIC && (l.dev.rx.phase == Staged ==> Due(l, c))
    ensures NothingStaged(Finalize(l, c).dev) && Roomy(Finalize(l, c).dev)
  {
  }

  lemma SwapIsDue(b: Build, s: State)
    requires Shaped(s) && Noted(s.link, s.counts)
    ensures var c := HotSwap(b, s); NothingStaged(Finalize(c.link, c.counts).dev) && Roomy(c.link.dev)
  {
    HotSwapCounts(b, s);
    var c := HotSwap(b, s);
    FinalizeClears(c.link, c.counts);
  }

  lemma AfterPollKeeps(b: Build, boot: State, s: State, swarm: bool)
    requires Core(b, boot, s) && Noted(s.link, s.counts)
    requires SchedOk(b, s.nats, s.sched) && s.sched.at.Serving?
    ensures Invariant(b, boot, AfterPoll(b, s, swarm))
  {
    HotSwapKeeps(b, boot, s);
    SwapIsDue(b, s);
    var c := HotSwap(b, s);
    CoreIgnoresLink(b, boot, c, Finalize(c.link, c.counts));
    StartOk(b, c.nats, c.sched);
  }

  lemma ServeKeeps(b: Build, boot: State, s: State, kind: Byte, p: seq<Byte>)
    requires Invariant(b, boot, s) && s.sched.at.Serving?
    ensures Invariant(b, boot, Serve(b, s, kind, p))
  {
    PollKeeps(b, boot, s, kind, p);
    PollServing(b, s, kind, p);
    AfterPollKeeps(b, boot, Poll(b, s, kind, p), kind == FRAME_SWARM && IsSwarm(p));
  }

  // ----- yields and faults -----

  lemma RollbackKeeps(b: Build, boot: State, s: State, faulted: bool)
    requires Core(b, boot, s)
    ensures Core(b, boot, Rollback(s, faulted)) && Rollback(s, faulted).nats == s.nats
    ensures Rollback(s, faulted).link == s.link
  {
  }

  lemma StrikePays(n: Natives, log: Log)
    requires TwoSlots(n) && |log.installs| == |log.rearms| == |log.strikes| == 2 && StrikesPaid(n, log)
    requires n.slots[n.live].Runnable()
    ensures StrikesPaid(Struck(n), log.(strikes := Bumped(log.strikes, n.live)))
  {
  }

  lemma StruckOk(b: Build, boot: Natives, n: Natives)
    requires NativesOk(b, boot, n) && n.slots[n.live].Runnable() && !n.retired
    ensures NativesOk(b, boot, Struck(n))
  {
    var m := Struck(n);
    assert m.slots[1 - n.live] == n.slots[1 - n.live];
    forall k | 0 <= k < 2
      ensures NativeOk(b, boot.slots[k], k, m.slots[k])
    {
      assert NativeOk(b, boot.slots[k], k, n.slots[k]);
    }
  }

  /** Striking out the running slot keeps the table, the accounts and the program slots sound. */
  lemma StrikeKeeps(b: Build, boot: State, s: State)
    requires Core(b, boot, s) && s.nats.slots[s.nats.live].Runnable() && !s.nats.retired
    ensures Core(b, boot, Strike(s)) && Strike(s).link == s.link
  {
    StrikePays(s.nats, s.log);
    StruckOk(b, boot.nats, s.nats);
  }

  lemma ResumeKeeps(b: Build, boot: State, s: State, faulted: bool)
    requires Invariant(b, boot, s) && s.sched.at.Inside?
    ensures Invariant(b, boot, Resume(b, s, faulted))
  {
    RollbackKeeps(b, boot, s, faulted);
    YieldedOk(b, s.nats, s.sched);
  }

  lemma TrapKeeps(b: Build, boot: State, s: State)
    requires Invariant(b, boot, s) && s.sched.at.Inside?
    ensures Invariant(b, boot, Trap(b, s))
  {
    EndedOk(b, s.nats, s.sched);
    if s.sched.phase >= 5 {
      StrikeKeeps(b, boot, s);
      SchedIgnoresNatives(b, s.nats, Struck(s.nats), Ended(b, s.nats, s.sched));
    }
  }

  lemma NextKeeps(b: Build, boot: State, s: State, e: Step)
    requires Invariant(b, boot, s) && Enabled(s, e)
    ensures Invariant(b, boot, Next(b, s, e))
  {
    match e
    case Frame(kind, p) =>
      ServeKeeps(b, boot, s, kind, p);
    case Yield(faulted) =>
      ResumeKeeps(b, boot, s, faulted);
    case Fault =>
      TrapKeeps(b, boot, s);
  }

  lemma BootAccounts(s: State)
    requires Booted(s)
    ensures StrikesPaid(s.nats, s.log) && CountersOk(s.counts, s.log)
  {
  }

  lemma BootSlots(b: Build, s: State)
    requires Booted(s)
    ensures ProgramsOk(b, s.progs.live, s.progs, s.log) && NativesOk(b, s.nats, s.nats)
  {
  }

  lemma CoreIgnoresSched(b: Build, boot: State, s: State, c: Sched)
    requires Core(b, boot, s) && Pmp.Shaped(c.pmp)
    ensures Core(b, boot, s.(sched := c))
  {
  }

  lemma CoreFrom(b: Build, boot: State, s: State)
    requires Shaped(s) && ProgramsOk(b, boot.progs.live, s.progs, s.log) && NativesOk(b, boot.nats, s.nats)
    requires StrikesPaid(s.nats, s.log) && CountersOk(s.counts, s.log)
    ensures Core(b, boot, s)
  {
  }

  lemma CoreOfBoot(b: Build, s: State)
    requires Booted(s)
    ensures Core(b, s, s)
  {
    BootAccounts(s);
    BootSlots(b, s);
    CoreFrom(b, s, s);
  }

  lemma InvariantWith(b: Build, boot: State, s: State, c: Sched, s': State)
    requires Core(b, boot, s) && NothingStaged(s.link.dev) && SchedOk(b, s.nats, c) && s' == s.(sched := c)
    ensures Invariant(b, boot, s')
  {
    CoreIgnoresSched(b, boot, s, c);
  }

  lemma FirstRound(b: Build, boot: State, s: State)
    requires Core(b, boot, s) && NothingStaged(s.link.dev) && Pmp.Cached(s.sched.pmp)
    ensures Invariant(b, boot, Started(b, s))
  {
    StartOk(b, s.nats, s.sched);
    InvariantWith(b, boot, s, StartRound(b, s.nats, s.sched), Started(b, s));
  }

  lemma BootIsQuiet(s: State)
    requires Booted(s)
    ensures NothingStaged(s.link.dev) && Pmp.Cached(s.sched.pmp)
  {
  }

  lemma BootEstablishes(b: Build, s: State)
    requires Booted(s)
    ensures Invariant(b, s, Started(b, s))
  {
    BootIsQuiet(s);
    CoreOfBoot(b, s);
    FirstRound(b, s, s);
  }

  // ----- whole runs -----

  ghost predicate Moves(b: Build, s: State, e: Step, s': State) {
    Shaped(s) && Enabled(s, e) && s' == Next(b, s, e)
  }

  /** A run: each state follows from the one before by an enabled step. */
  ghost predicate IsRun(b: Build, states: seq<State>, steps: seq<Step>) {
    && |states| == |steps| + 1
    && forall i | 0 <= i < |steps| :: Moves(b, states[i], steps[i], states[i + 1])
  }

  /** From boot on. */
  ghost predicate FromBoot(b: Build, boot: State, states: seq<State>, steps: seq<Step>) {
    Booted(boot) && IsRun(b, states, steps) && states[0] == Started(b, boot)
  }

  lemma {:induction false} InvariantAlong(b: Build, boot: State, states: seq<State>, steps: seq<Step>, i: nat)
    requires IsRun(b, states, steps) && Invariant(b, boot, states[0]) && i < |states|
    ensures Invariant(b, boot, states[i])
  {
    if i > 0 {
      InvariantAlong(b, boot, states, steps, i - 1);
      KeptAt(b, boot, states, steps, i - 1);
    }
  }

  lemma KeptAt(b: Build, boot: State, states: seq<State>, steps: seq<Step>, i: nat)
    requires IsRun(b, states, steps) && i < |steps| && Invariant(b, boot, states[i])
    ensures Invariant(b, boot, states[i + 1])
  {
    assert Moves(b, states[i], steps[i], states[i + 1]);
    MoveKeeps(b, boot, states[i], steps[i], states[i + 1]);
  }

  lemma MoveKeeps(b: Build, boot: State, s: State, e: Step, s': State)
    requires Invariant(b, boot, s) && Moves(b, s, e, s')
    ensures Invariant(b, boot, s')
  {
    NextKeeps(b, boot, s, e);
  }

  /** From boot on, every state of every run satisfies the invariant. */
  lemma EveryState(b: Build, boot: State, states: seq<State>, steps: seq<Step>, i: nat)
    requires FromBoot(b, boot, states, steps) && i < |states|
    ensures Invariant(b, boot, states[i])
  {
    BootEstablishes(b, boot);
    InvariantAlong(b, boot, states, steps, i);
  }

  /** A program in either slot is one the check accepts, and it is the boot program or came in a pinned
      image; a native slot holds the boot image or one that came pinned for it. */
  ghost predicate KnownOrigin(b: Build, boot: State, c: State)
    requires Shaped(boot) && Shaped(c)
  {
    && (forall ins | ins in {c.progs.live, c.progs.shadow} && |ins| > 0 ::
          D.Accepted(ins) && (ins == boot.progs.live || Pinned(b, Program(ins))))
    && (forall k | 0 <= k < 2 && c.nats.slots[k].valid ::
          var slot, first := c.nats.slots[k], boot.nats.slots[k];
          || (first.valid && slot.code == first.code && slot.entry == first.entry)
          || Pinned(b, Native(k, slot.entry, slot.code)))
  }

  /** The native phase is retired exactly when no slot can run, a slot is struck out at most once more
      than it was installed and re-armed, and rollbacks never exceed installs, boot loads and strikes. */
  predicate AccountsOk(boot: State, c: State)
    requires Shaped(c)
  {
    && (c.nats.retired <==> !c.nats.slots[0].Runnable() && !c.nats.slots[1].Runnable())
    && (!c.nats.retired ==> c.nats.slots[c.nats.live].Runnable())
    && (forall k | 0 <= k < 2 :: c.log.strikes[k] <= 1 + c.log.installs[k] + c.log.rearms[k])
    && c.log.programRolls <= c.log.programs + Occupied(boot.progs.live)
    && c.counts.rolls <= c.log.programs + Occupied(boot.progs.live) + c.log.strikes[0] + c.log.strikes[1]
  }

  lemma OriginKnown(b: Build, boot: State, c: State)
    requires Shaped(boot) && Core(b, boot, c)
    ensures KnownOrigin(b, boot, c)
  {
    forall k | 0 <= k < 2
      ensures NativeOk(b, boot.nats.slots[k], k, c.nats.slots[k])
    {
    }
  }

  lemma AccountsHold(b: Build, boot: State, c: State)
    requires Core(b, boot, c)
    ensures AccountsOk(boot, c)
  {
  }

  /** The safety theorem: at every state of every run the origin of every installed image is known and
      the accounts hold, the refusal of `enter_checked` is never reached, and a round makes at most
      eleven entries. */
  lemma SafeAtEveryState(b: Build, boot: State, states: seq<State>, steps: seq<Step>, i: nat)
    requires FromBoot(b, boot, states, steps) && i < |states|
    ensures Shaped(boot) && Shaped(states[i])
    ensures KnownOrigin(b, boot, states[i]) && AccountsOk(boot, states[i])
    ensures states[i].sched.at != ScheduleBug && states[i].sched.entries <= 11
  {
    EveryState(b, boot, states, steps, i);
    OriginKnown(b, boot, states[i]);
    AccountsHold(b, boot, states[i]);
  }

  // ----- memory protection over whole runs -----

  /** Every window of the address map is a region the PMP can express. */
  lemma WindowsFit(i: nat, k: nat)
    ensures Pmp.HardwareFits(SpecOf(i, k))
  {
    var s := SpecOf(i, k);
    PageFits(s.sramBase, s.sramSize);
    PageFits(s.textBase, s.textSize);
  }

  lemma PageFits(base: U32, size: U32)
    requires (size == 0x1000 || size == 0x2000) && base % size == 0
    ensures Pmp.Expressible(base, size)
  {
    Pmp.PageWindows();
  }

  predicate InWindows(s: G.Spec, a: U32) {
    Pmp.In(a, s.textBase, s.textSize) || Pmp.In(a, s.sramBase, s.sramSize)
  }

  /** The windows of the address map are disjoint, across compartments and across native slots. */
  lemma WindowsDisjoint(i: nat, j: nat, k: nat, l: nat, a: U32)
    requires i < 3 && j < 3 && k < 2 && l < 2 && InWindows(SpecOf(i, k), a) && InWindows(SpecOf(j, l), a)
    ensures i == j && (i == 2 ==> k == l)
  {
  }

  lemma ArmedSpec(b: Build, n: Natives, c: Sched)
    requires SchedOk(b, n, c) && c.at.Inside?
    ensures c.at.comp < 3 && c.pmp.csrs == Pmp.Encoded(SpecOf(c.at.comp, n.live))
  {
  }

  /** Confinement. At every state of every run in which compartment i is running, the PMP grants user
      mode exactly the windows of i, the native ones being those of the live slot; so every address
      of another compartment, and of the native slot that is not live, is refused for every access. */
  lemma ConfinedAtEveryState(b: Build, boot: State, states: seq<State>, steps: seq<Step>, i: nat, a: U32,
      access: Pmp.Access)
    requires FromBoot(b, boot, states, steps) && i < |states| && states[i].sched.at.Inside?
    ensures var c := states[i]; var comp, live, csrs := c.sched.at.comp, c.nats.live, c.sched.pmp.csrs;
            && comp < 3 && live < 2 && Pmp.Wired(csrs)
            && (Pmp.Allows(csrs, a, access) <==> Pmp.Granted(SpecOf(comp, live), a, access))
            && (forall j, k | 0 <= j < 3 && 0 <= k < 2 && InWindows(SpecOf(j, k), a) && Pmp.Allows(csrs, a, access) ::
                  j == comp && (j == 2 ==> k == live))
  {
    EveryState(b, boot, states, steps, i);
    var c := states[i];
    ArmedSpec(b, c.nats, c.sched);
    OnlyOwnWindows(c.sched.at.comp, c.nats.live, a, access);
  }

  lemma OnlyOwnWindows(comp: nat, live: nat, a: U32, access: Pmp.Access)
    requires comp < 3 && live < 2
    ensures var csrs := Pmp.Encoded(SpecOf(comp, live));
            && (Pmp.Allows(csrs, a, access) <==> Pmp.Granted(SpecOf(comp, live), a, access))
            && (forall j, k | 0 <= j < 3 && 0 <= k < 2 && InWindows(SpecOf(j, k), a) && Pmp.Allows(csrs, a, access) ::
                  j == comp && (j == 2 ==> k == live))
  {
    WindowsFit(comp, live);
    Pmp.ArmedIsExact(SpecOf(comp, live), a, access);
    GrantedInside(SpecOf(comp, live), a, access);
    forall j, k | 0 <= j < 3 && 0 <= k < 2 && InWindows(SpecOf(j, k), a) && Pmp.Granted(SpecOf(comp, live), a, access)
      ensures j == comp && (j == 2 ==> k == live)
    {
      WindowsDisjoint(j, comp, k, live, a);
    }
  }

  lemma GrantedInside(s: G.Spec, a: U32, access: Pmp.Access)
    ensures Pmp.Granted(s, a, access) ==> InWindows(s, a)
    ensures Pmp.Granted(s, a, Pmp.Write) ==> Pmp.In(a, s.sramBase, s.sramSize)
  {
  }

  /** And it was entered where it should: the monitor at its entry, the attacker at the entry of the
      lifetime in flight, the native compartment at the entry of the live slot's image. */
  lemma EnteredAtItsEntry(b: Build, boot: State, states: seq<State>, steps: seq<Step>, i: nat)
    requires FromBoot(b, boot, states, steps) && i < |states| && states[i].sched.at.Inside?
    ensures var c := states[i].sched; var comp := c.at.comp;
            && comp < 3 && Pmp.Shaped(c.pmp) && TwoSlots(states[i].nats)
            && c.pmp.comps[comp].spec == SpecOf(comp, states[i].nats.live) && !c.pmp.comps[comp].evicted
            && (comp == 0 ==> c.pmp.comps[0].entry == b.monitorEntry)
            && (comp == 1 ==> c.vector < LIFETIMES && c.pmp.comps[1].entry == b.attackEntries[c.vector])
            && (comp == 2 ==> c.pmp.comps[2].entry == states[i].nats.slots[states[i].nats.live].entry
                              && states[i].nats.slots[states[i].nats.live].Runnable())
  {
    EveryState(b, boot, states, steps, i);
  }

  // ----- a round ends -----

  /** The entries after a step of the schedule: one more when it enters a compartment. */
  predicate OneEntry(c: Sched, c': Sched) {
    c'.at.Inside? ==> c'.entries == c.entries + 1
  }

  lemma EnterGrows(c: Sched, i: nat)
    requires Pmp.Shaped(c.pmp) && i < 3
    ensures Enter(c, i).at.Inside? ==> Enter(c, i).entries == c.entries + 1
  {
  }

  lemma LifetimeGrows(b: Build, c: Sched, v: nat)
    requires Pmp.Shaped(c.pmp) && v < LIFETIMES
    ensures OneEntry(c, Lifetime(b, c, v))
  {
    var t := Pmp.PerformAll(c.pmp, [Pmp.Set(1, ATTACKER, b.attackEntries[v]), Pmp.Arm(1)]);
    EnterGrows(c.(vector := v, pmp := t), 1);
  }

  lemma AdvanceGrows(b: Build, n: Natives, c: Sched)
    requires Pmp.Shaped(c.pmp) && TwoSlots(n)
    ensures OneEntry(c, Advance(b, n, c))
  {
    if c.vector + 1 < LIFETIMES {
      LifetimeGrows(b, c, c.vector + 1);
    } else {
      EnterGrows(c.(vector := c.vector + 1, phase := 5), 2);
    }
  }

  lemma YieldedGrows(b: Build, n: Natives, c: Sched)
    requires Pmp.Shaped(c.pmp) && TwoSlots(n)
    ensures OneEntry(c, Yielded(b, n, c))
  {
    if c.phase == 1 || c.phase == 2 {
      EnterGrows(c.(phase := c.phase + 1, pmp := Pmp.Perform(c.pmp, Pmp.Arm(0))), 0);
    } else if c.phase == 3 {
      LifetimeGrows(b, c.(phase := 4), 0);
    } else if c.phase == 4 {
      AdvanceGrows(b, n, c);
    }
  }

  lemma EndedGrows(b: Build, n: Natives, c: Sched)
    requires Pmp.Shaped(c.pmp) && TwoSlots(n) && c.at.Inside?
    ensures OneEntry(c, Ended(b, n, c))
  {
    if c.phase == 4 {
      AdvanceGrows(b, n, c.(pmp := Pmp.Perform(c.pmp, Pmp.Evict(c.at.comp))));
    }
  }

  /** Inside a round every yield or fault either leaves the compartments or costs one entry. */
  lemma EntriesGrow(b: Build, boot: State, s: State, e: Step)
    requires Invariant(b, boot, s) && Enabled(s, e) && !e.Frame?
    ensures Next(b, s, e).sched.at.Inside? ==> Next(b, s, e).sched.entries == s.sched.entries + 1
  {
    YieldedGrows(b, s.nats, s.sched);
    EndedGrows(b, s.nats, s.sched);
  }

  /** A compartment runs, within the entries of a round, and entering another costs one. */
  predicate Grows(c: Sched, c': Sched) {
    && c.at.Inside? && c.entries <= 11
    && (c'.at.Inside? ==> c'.entries == c.entries + 1)
  }

  lemma MoveGrows(b: Build, boot: State, s: State, e: Step, s': State)
    requires Invariant(b, boot, s) && Moves(b, s, e, s') && !e.Frame?
    ensures Grows(s.sched, s'.sched)
  {
    EntriesGrow(b, boot, s, e);
  }

  predicate AllGrow(states: seq<State>) {
    forall i | 0 <= i < |states| - 1 :: Grows(states[i].sched, states[i + 1].sched)
  }

  lemma {:induction false} EntriesAlong(states: seq<State>, i: nat)
    requires AllGrow(states) && i < |states|
    ensures states[i].sched.at.Inside? ==> states[i].sched.entries == states[0].sched.entries + i
  {
    if i > 0 {
      EntriesAlong(states, i - 1);
      assert Grows(states[i - 1].sched, states[i].sched);
    }
  }

  lemma RunGrows(b: Build, boot: State, states: seq<State>, steps: seq<Step>)
    requires IsRun(b, states, steps) && Invariant(b, boot, states[0])
    requires forall i | 0 <= i < |steps| :: !steps[i].Frame?
    ensures AllGrow(states)
  {
    forall i | 0 <= i < |steps|
      ensures Grows(states[i].sched, states[i + 1].sched)
    {
      InvariantAlong(b, boot, states, steps, i);
      assert Moves(b, states[i], steps[i], states[i + 1]);
      MoveGrows(b, boot, states[i], steps[i], states[i + 1]);
    }
  }

  /** A round ends: a run of yields and faults is never longer than the entries left in the round,
      so the core returns to the service loop, or parks because the monitor itself faulted. */
  lemma RoundEnds(b: Build, boot: State, states: seq<State>, steps: seq<Step>)
    requires IsRun(b, states, steps) && Invariant(b, boot, states[0])
    requires forall i | 0 <= i < |steps| :: !steps[i].Frame?
    ensures |steps| <= 12 - states[0].sched.entries
    ensures states[|steps|].sched.at.Inside? ==> states[|steps|].sched.entries == states[0].sched.entries + |steps|
  {
    RunGrows(b, boot, states, steps);
    EntriesAlong(states, |steps|);
    if |steps| > 0 {
      EntriesAlong(states, |steps| - 1);
      assert Grows(states[|steps| - 1].sched, states[|steps|].sched);
    }
  }

  /** A turn of the service loop ends there or in a new round. */
  lemma ServeStays(b: Build, boot: State, s: State, kind: Byte, p: seq<Byte>)
    requires Invariant(b, boot, s) && s.sched.at.Serving?
    ensures Serve(b, s, kind, p).sched.at.Serving? || Serve(b, s, kind, p).sched.at.Inside?
  {
    PollKeeps(b, boot, s, kind, p);
    TurnStays(b, Poll(b, s, kind, p), kind == FRAME_SWARM && IsSwarm(p));
  }

  lemma TurnStays(b: Build, s: State, swarm: bool)
    requires Shaped(s) && Pmp.Cached(s.sched.pmp) && s.sched.at.Serving?
    ensures AfterPoll(b, s, swarm).sched.at.Serving? || AfterPoll(b, s, swarm).sched.at.Inside?
  {
    var v := Decision(b, s.link.dev);
    if v.Native? {
      RemapKeeps(s.sched.pmp, v.slot, v.entry);
    }
    var c := Apply(s, v);
    RestartStays(b, c.nats, c.sched, c.counts.loads != s.counts.loads || swarm);
  }

  lemma RestartStays(b: Build, n: Natives, c: Sched, again: bool)
    requires TwoSlots(n) && Pmp.Cached(c.pmp) && c.at.Serving?
    ensures Restarted(b, n, c, again).at.Serving? || Restarted(b, n, c, again).at.Inside?
  {
    StartsAtMonitor(b, n, c);
  }

  lemma YieldedStays(b: Build, n: Natives, c: Sched)
    requires Pmp.Shaped(c.pmp) && TwoSlots(n) && c.at.Inside?
    ensures !Yielded(b, n, c).at.Parked?
  {
  }

  /** A clean yield leaves receiver, slots and accounts alone; the core goes on to the next entry of the
      round or is back in the service loop. */
  lemma YieldMoves(b: Build, boot: State, s: State) returns (s': State)
    requires Invariant(b, boot, s) && s.sched.at.Inside?
    ensures Moves(b, s, Yield(false), s') && Invariant(b, boot, s') && s' == s.(sched := s'.sched)
    ensures s.sched.entries <= 11
    ensures s'.sched.at.Serving? || (s'.sched.at.Inside? && s'.sched.entries == s.sched.entries + 1)
  {
    s' := Next(b, s, Yield(false));
    ResumeKeeps(b, boot, s, false);
    YieldedStays(b, s.nats, s.sched);
    EntriesGrow(b, boot, s, Yield(false));
  }

  // ----- updates and installs across several steps -----

  /** What a verdict does to the program slots and the table. */
  predicate Applied(s: State, s': State, v: Verdict)
    requires Shaped(s) && Shaped(s') && (v.Native? ==> v.slot < 2)
  {
    match v
    case NoImage => s'.progs == s.progs && s'.nats == s.nats
    case Refused => s'.progs == s.progs && s'.nats == s.nats
    case Program(ins) => s'.progs == Programs(ins, s.progs.live) && s'.nats == s.nats
    case Native(k, entry, code) =>
      && s'.progs == s.progs
      && s'.nats.slots == s.nats.slots[k := Slot(code, entry, true, false)] && s'.nats.live == k && !s'.nats.retired
  }

  lemma HotSwapApplies(b: Build, s: State)
    requires Shaped(s)
    ensures Applied(s, HotSwap(b, s), Decision(b, s.link.dev))
  {
  }

  /** The commit of a transfer: what a turn of the service loop answers is what it did. The image
      was complete and had the announced digest; the final answer, in the receiver and on the wire, is
      ACCEPT exactly when the gates let the staging area through; then what they read there is
      installed, otherwise nothing moved. They read the announced image, and not what an earlier one
      left behind it, if and only if it reaches as far as its own header says or is refused. */
  lemma AnswerIsTruth(b: Build, boot: State, s: State, kind: Byte, p: seq<Byte>)
    requires Invariant(b, boot, s) && s.sched.at.Serving?
    requires s.link.dev.rx.phase == Active && Serve(b, s, kind, p).link.dev.rx.phase == Done
    ensures var s', v, rx := Serve(b, s, kind, p), Inspect(b, s.link.dev.pend), s.link.dev.rx;
            var image := s.link.dev.pend[..rx.total];
            && rx.received == rx.total && b.hash(image) == rx.expected
            && s'.link.dev.rx.finalCode == (if v.Refused? then REJECT else ACCEPT)
            && Applied(s, s', v)
            && Answer(Reply(rx.id, rx.nextSeq, if v.Refused? then REJECT else ACCEPT,
                            if v.Refused? then ERR_STATE else 0)) in ServeSends(b, s, kind, p)
            && (v == Alone(b, image) <==> Whole(image) || v.Refused?)
  {
    PollNotDone(b, s, kind, p);
    DoneWasStaged(b, Poll(b, s, kind, p), kind == FRAME_SWARM && IsSwarm(p));
    StagedByUpdate(b, s, kind, p);
    JudgedInTurn(b, s, Poll(b, s, kind, p), kind == FRAME_SWARM && IsSwarm(p));
    AloneExactly(b, s.link.dev.pend, s.link.dev.rx.total);
  }

  lemma DoneWasStaged(b: Build, polled: State, swarm: bool)
    requires Shaped(polled) && polled.link.dev.rx.phase != Done
    requires AfterPoll(b, polled, swarm).link.dev.rx.phase == Done
    ensures polled.link.dev.rx.phase == Staged
  {
    HotSwapCounts(b, polled);
  }

  lemma JudgedInTurn(b: Build, s: State, c: State, swarm: bool)
    requires Shaped(s) && Shaped(c) && c == s.(link := c.link) && Noted(c.link, c.counts)
    requires c.link.dev.rx.phase == Staged && c.link.dev.pend == s.link.dev.pend
    ensures var v := Inspect(b, s.link.dev.pend);
            var d := HotSwap(b, c);
            && AfterPoll(b, c, swarm).link.dev == Judge(c.link.dev, !v.Refused?)
            && Applied(s, AfterPoll(b, c, swarm), v)
            && FinalAnswer(d.link, d.counts)
               == [Answer(Reply(c.link.dev.rx.id, c.link.dev.rx.nextSeq, if v.Refused? then REJECT else ACCEPT,
                                if v.Refused? then ERR_STATE else 0))]
  {
    HotSwapApplies(b, c);
    HotSwapCounts(b, c);
  }

  lemma StagedByUpdate(b: Build, s: State, kind: Byte, p: seq<Byte>)
    requires Shaped(s) && NothingStaged(s.link.dev) && s.link.dev.rx.phase == Active
    requires Poll(b, s, kind, p).link.dev.rx.phase == Staged
    ensures var c, rx := Poll(b, s, kind, p), s.link.dev.rx;
            && c == s.(link := c.link) && Noted(c.link, c.counts) && c.link.dev.pend == s.link.dev.pend
            && c.link.dev.rx.id == rx.id && c.link.dev.rx.nextSeq == rx.nextSeq
            && rx.received == rx.total && b.hash(s.link.dev.pend[..rx.total]) == rx.expected
  {
    StagingIsAnnounced(b.hash, s.link.dev, Parse(p));
    UpdateFrameNotes(b, s.link, s.counts, p);
  }

  lemma PollNotDone(b: Build, s: State, kind: Byte, p: seq<Byte>)
    requires Shaped(s) && NothingStaged(s.link.dev) && s.link.dev.rx.phase != Done
    ensures Poll(b, s, kind, p).link.dev.rx.phase != Done
  {
    if |p| > 0 && kind == FRAME_UPDATE {
      StagingIsAnnounced(b.hash, s.link.dev, Parse(p));
    }
  }

  /** One strike: when a freshly installed program faults in its first round, the program that was
      live before is back, word for word, or the built-in policy when there was none. */
  lemma FaultUndoesInstall(b: Build, boot: State, s: State, kind: Byte, p: seq<Byte>)
    requires Invariant(b, boot, s) && s.sched.at.Serving?
    requires Serve(b, s, kind, p).log.programs == s.log.programs + 1
    ensures var s' := Serve(b, s, kind, p);
            && s'.sched.at == Inside(0) && s'.sched.phase == 1
            && Resume(b, s', true).progs == Programs(s.progs.live, [])
            && Resume(b, s', true).counts.rolls == s.counts.rolls + 1
            && Resume(b, s', false).progs == s'.progs
            && D.Accepted(s'.progs.live) && Pinned(b, Program(s'.progs.live))
  {
    PollKeeps(b, boot, s, kind, p);
    InstallThenFault(b, Poll(b, s, kind, p), kind == FRAME_SWARM && IsSwarm(p));
  }

  lemma StartsAtMonitor(b: Build, n: Natives, c: Sched)
    requires TwoSlots(n) && Pmp.Cached(c.pmp)
    ensures StartRound(b, n, c).at == Inside(0) && StartRound(b, n, c).phase == 1
  {
    StartOk(b, n, c);
  }

  lemma InstalledIs(b: Build, s: State, swarm: bool)
    requires Shaped(s) && Pmp.Cached(s.sched.pmp) && AfterPoll(b, s, swarm).log.programs == s.log.programs + 1
    ensures var s', v := AfterPoll(b, s, swarm), Inspect(b, s.link.dev.pend);
            && v.Program? && s'.progs == Programs(v.ins, s.progs.live)
            && s'.sched.at == Inside(0) && s'.sched.phase == 1 && s'.counts.rolls == s.counts.rolls
  {
    var c := HotSwap(b, s);
    StartsAtMonitor(b, c.nats, s.sched);
  }

  lemma InstallThenFault(b: Build, s: State, swarm: bool)
    requires Shaped(s) && Pmp.Cached(s.sched.pmp) && AfterPoll(b, s, swarm).log.programs == s.log.programs + 1
    ensures var s' := AfterPoll(b, s, swarm);
            && s'.sched.at == Inside(0) && s'.sched.phase == 1
            && Resume(b, s', true).progs == Programs(s.progs.live, [])
            && Resume(b, s', true).counts.rolls == s.counts.rolls + 1
            && Resume(b, s', false).progs == s'.progs
            && D.Accepted(s'.progs.live) && Pinned(b, Program(s'.progs.live))
  {
    InstalledIs(b, s, swarm);
    JudgedIsPinned(b, s.link.dev.pend, Inspect(b, s.link.dev.pend));
    RollsBack(b, AfterPoll(b, s, swarm), s.progs.live);
  }

  lemma RollsBack(b: Build, s: State, before: seq<U64>)
    requires Shaped(s) && s.sched.phase == 1 && |s.progs.live| > 0 && s.progs.shadow == before
    ensures Resume(b, s, true).progs == Programs(before, [])
    ensures Resume(b, s, true).counts.rolls == s.counts.rolls + 1 && Resume(b, s, false).progs == s.progs
  {
  }

  // ----- what is sent is what is installed -----

  /** The image a program frame leaves in the staging area. */
  function FrameImage(p: seq<Byte>): seq<Byte>
    requires |p| >= 40
  {
    Le32Bytes(Word(p, 1)) + Le32Bytes(STAGED_EBPF) + p[8..]
  }

  lemma FramePasses(b: Build, p: seq<Byte>, cnt: nat, image: seq<Byte>)
    requires 0 < cnt <= MAX_INSNS && |p| == |image| == 8 + 8 * cnt + 32
    requires image[..8] == Le32Bytes(cnt) + Le32Bytes(STAGED_EBPF) && image[8..8 + 8 * cnt] == p[8..8 + 8 * cnt]
    requires Genuine(b, image, 8 + 8 * cnt) && D.Accepted(Code(p, cnt))
    ensures Whole(image) && Inspect(b, image) == Program(Code(p, cnt))
  {
    HeaderWords(image, cnt, STAGED_EBPF);
    CodeAgrees(image, p, cnt);
    ProgramInspected(b, image, cnt, Code(p, cnt));
  }

  lemma FrameSlices(p: seq<Byte>, cnt: nat, image: seq<Byte>)
    requires |p| == 8 + 8 * cnt + 32 && Word(p, 1) == cnt && image == FrameImage(p)
    ensures |image| == |p| && image[..8] == Le32Bytes(cnt) + Le32Bytes(STAGED_EBPF)
    ensures image[8..8 + 8 * cnt] == p[8..8 + 8 * cnt]
  {
  }

  lemma StagedPasses(b: Build, pend: seq<Byte>, p: seq<Byte>, cnt: nat)
    requires |pend| >= MAX_IMAGE && 0 < cnt <= MAX_INSNS && |p| == 8 + 8 * cnt + 32 && Word(p, 1) == cnt
    requires Genuine(b, FrameImage(p), 8 + 8 * cnt) && D.Accepted(Code(p, cnt))
    ensures Inspect(b, Write(pend, 0, FrameImage(p))) == Program(Code(p, cnt))
  {
    FrameSlices(p, cnt, FrameImage(p));
    FramePasses(b, p, cnt, FrameImage(p));
    WriteInspects(b, pend, FrameImage(p));
  }

  /** A program frame whose image is pinned and whose code the check accepts is installed in the
      same turn: its instructions are live word for word, the program live before is the shadow,
      and a round starts with it. */
  lemma ProgramFrameInstalls(b: Build, boot: State, s: State, p: seq<Byte>, cnt: nat)
    requires Invariant(b, boot, s) && s.sched.at.Serving?
    requires 0 < cnt <= MAX_INSNS && |p| == 8 + 8 * cnt + 32 && Word(p, 0) == PROG_MAGIC && Word(p, 1) == cnt
    requires Genuine(b, FrameImage(p), 8 + 8 * cnt) && D.Accepted(Code(p, cnt))
    ensures var s' := Serve(b, s, FRAME_PROGRAM, p);
            s'.progs == Programs(Code(p, cnt), s.progs.live) && s'.sched.at == Inside(0) && s'.sched.phase == 1
  {
    StagedPasses(b, s.link.dev.pend, p, cnt);
    InstalledStarts(b, s.(link := s.link.(dev := StageProgram(s.link.dev, p))));
  }

  lemma InstalledStarts(b: Build, s: State)
    requires Shaped(s) && Pmp.Cached(s.sched.pmp)
    requires s.link.dev.magic == PEND_MAGIC && Inspect(b, s.link.dev.pend).Program?
    ensures var s' := AfterPoll(b, s, false);
            && s'.progs == Programs(Inspect(b, s.link.dev.pend).ins, s.progs.live)
            && s'.sched.at == Inside(0) && s'.sched.phase == 1
  {
    var c := HotSwap(b, s);
    StartsAtMonitor(b, c.nats, c.sched);
  }

  /** What a native frame installs, whatever its length: the code is what the staging area holds behind
      the header once the frame is written over it. A frame that is too short for the code it announces
      is completed by bytes of an earlier image. */
  lemma NativeFrameInstallsStaged(b: Build, boot: State, s: State, p: seq<Byte>)
    requires Invariant(b, boot, s) && s.sched.at.Serving? && 16 <= |p| <= 0x200
    requires Inspect(b, Write(s.link.dev.pend, 0, p)).Native?
    ensures var s', n := Serve(b, s, FRAME_NATIVE, p), Word(p, 0);
            && n <= NATIVE_LIMIT && Word(p, 3) < 2 && |s.link.dev.pend| >= 16 + n
            && NativeRuns(s, s', Word(p, 3), Word(p, 2), CodeBehind(s.link.dev.pend, p, n))
  {
    NativeRead(b, s.link.dev.pend, p);
    StagedRuns(b, boot, s, p, Inspect(b, Write(s.link.dev.pend, 0, p)));
  }

  lemma StagedRuns(b: Build, boot: State, s: State, p: seq<Byte>, v: Verdict)
    requires Invariant(b, boot, s) && s.sched.at.Serving? && 16 <= |p| <= 0x200
    requires v == Inspect(b, Write(s.link.dev.pend, 0, p)) && v.Native?
    ensures NativeRuns(s, Serve(b, s, FRAME_NATIVE, p), v.slot, v.entry, v.code)
  {
    var dev := s.link.dev.(pend := Write(s.link.dev.pend, 0, p), magic := PEND_MAGIC);
    NativePoll(b, s, p, dev);
    NativeStarts(b, s.(link := s.link.(dev := dev)), v);
  }

  /** Slot k holds this code and goes live, the programs stay, and a round starts in which compartment 2
      has the windows of that slot and its entry. */
  predicate NativeRuns(s: State, s': State, k: nat, entry: U32, code: seq<Byte>)
    requires Shaped(s) && Shaped(s') && k < 2
  {
    && s'.nats == Installed(s.nats, k, entry, code) && s'.progs == s.progs
    && s'.sched.at == Inside(0) && s'.sched.phase == 1
    && s'.sched.pmp.comps[2].spec == NatSpec(k) && s'.sched.pmp.comps[2].entry == entry
  }

  /** A native frame that reaches as far as its header says and passes the gates by itself is installed
      in the same turn, byte for byte as it came. */
  lemma NativeFrameInstalls(b: Build, boot: State, s: State, p: seq<Byte>, n: nat)
    requires Invariant(b, boot, s) && s.sched.at.Serving?
    requires 16 + n + 32 <= |p| <= 0x200 && 0 < n == Word(p, 0) && Word(p, 1) == STAGED_NATIVE
    requires Genuine(b, p, 16 + n) && Word(p, 2) % 2 == 0 && Word(p, 2) < NATIVE_TEXT && Word(p, 3) < 2
    ensures NativeRuns(s, Serve(b, s, FRAME_NATIVE, p), Word(p, 3), Word(p, 2), p[16..16 + n])
  {
    NativeInspected(b, p, n);
    WriteInspects(b, s.link.dev.pend, p);
    NativeFrameInstallsStaged(b, boot, s, p);
  }

  /** The short frame: the header of a native image that lies in the staging area, sent alone, installs
      the whole of that image, of which the frame holds not one byte of code. */
  lemma HeaderAloneInstalls(b: Build, boot: State, s: State, p: seq<Byte>, n: nat)
    requires Invariant(b, boot, s) && s.sched.at.Serving?
    requires Inspect(b, s.link.dev.pend).Native? && p == s.link.dev.pend[..16] && n == Word(p, 0)
    ensures 16 + n <= |s.link.dev.pend| && Word(p, 3) < 2
    ensures NativeRuns(s, Serve(b, s, FRAME_NATIVE, p), Word(p, 3), Word(p, 2), s.link.dev.pend[16..16 + n])
  {
    HeaderRewritten(s.link.dev.pend, p, n);
    NativeRead(b, s.link.dev.pend, p);
    StagedRuns(b, boot, s, p, Inspect(b, s.link.dev.pend));
  }

  lemma HeaderRewritten(pend: seq<Byte>, p: seq<Byte>, n: nat)
    requires |pend| >= MAX_IMAGE && p == pend[..16]
    ensures Write(pend, 0, p) == pend
    ensures 16 + n <= |pend| ==> CodeBehind(pend, p, n) == pend[16..16 + n]
  {
  }

  lemma NativePoll(b: Build, s: State, p: seq<Byte>, dev: Device)
    requires Shaped(s) && 16 <= |p| <= 0x200
    requires dev == s.link.dev.(pend := Write(s.link.dev.pend, 0, p), magic := PEND_MAGIC)
    ensures Poll(b, s, FRAME_NATIVE, p) == s.(link := s.link.(dev := dev))
  {
  }

  lemma NativeStarts(b: Build, s: State, v: Verdict)
    requires Shaped(s) && Pmp.Cached(s.sched.pmp)
    requires s.link.dev.magic == PEND_MAGIC && v == Inspect(b, s.link.dev.pend) && v.Native?
    ensures var s' := AfterPoll(b, s, false);
            && s'.nats == Installed(s.nats, v.slot, v.entry, v.code) && s'.progs == s.progs
            && s'.sched.at == Inside(0) && s'.sched.phase == 1
            && s'.sched.pmp.comps[2].spec == NatSpec(v.slot) && s'.sched.pmp.comps[2].entry == v.entry
  {
    RemapKeeps(s.sched.pmp, v.slot, v.entry);
    var c := HotSwap(b, s);
    StartOk(b, c.nats, c.sched);
    StartsAtMonitor(b, c.nats, c.sched);
  }
}
