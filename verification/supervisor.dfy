/** The supervisor (modules/supervisor.c) as a state machine: program slots with a shadow, the
    two-slot native table, the update receiver, the phases of a round over the compartment table of
    the PMP, and the service loop. */
module Supervisor {
  import opened Words
  import opened Update
  import opened Isa
  import Pmp
  import Soundness
  import D = Dataflow
  import G = Gates
  import I = Interpreter

  const STAGED_EBPF: U32 := 1
  const STAGED_NATIVE: U32 := 2
  const NATIVE_LIMIT: U32 := 0x1F0
  const NATIVE_TEXT: U32 := 0x1000
  const BODY_LIMIT: nat := 0x240 - 8 - 32
  const PROG_MAGIC: U32 := 0x474F5250
  const SWARM_MAGIC: U32 := 0x5741524D
  const MAX_SWARM: U32 := 64
  const LIFETIMES: nat := 7

  // ----- the address map of the board -----

  const MONITOR: G.Spec := G.Spec(0x0800_4000, 0x2000, 0x2000_4000, 0x2000)
  const ATTACKER: G.Spec := G.Spec(0x0800_6000, 0x2000, 0x2000_8000, 0x2000)

  /** The specification of native slot k. */
  function NatSpec(k: nat): G.Spec {
    if k == 0 then G.Spec(0x2000_A000, 0x1000, 0x2000_B000, 0x1000)
    else G.Spec(0x2000_C000, 0x1000, 0x2000_D000, 0x1000)
  }

  /** The specification compartment i runs under while native slot k is the live one. */
  function SpecOf(i: nat, k: nat): G.Spec {
    if i == 0 then MONITOR else if i == 1 then ATTACKER else NatSpec(k)
  }

  // ----- the gates on a staged image -----

  type Entries = e: seq<U32> | |e| == LIFETIMES witness seq(LIFETIMES, _ => 0)

  /** What is fixed when the firmware is built: the digest function and the digests it accepts, the
      entry of the monitor and of the seven attacker lifetimes. */
  datatype Build = Build(hash: Hash, pinned: seq<seq<Byte>>, monitorEntry: U32, attackEntries: Entries)

  function Word(p: seq<Byte>, k: nat): U32
    requires 4 * k + 4 <= |p|
  {
    Le32(p[4 * k], p[4 * k + 1], p[4 * k + 2], p[4 * k + 3])
  }

  function Load64(bytes: seq<Byte>): U64
    requires |bytes| == 8
  {
    Soundness.LoadFits(bytes);
    I.LoadLe(bytes)
  }

  /** The n instruction words behind the 8-byte header. */
  function Code(p: seq<Byte>, n: nat): (ins: seq<U64>)
    requires 8 + 8 * n <= |p|
    ensures |ins| == n
  {
    seq(n, i requires 0 <= i < n => Load64(p[8 + 8 * i..16 + 8 * i]))
  }

  /** Bytes the digest covers; 0 when the header is malformed. */
  function BodyLength(p: seq<Byte>): (n: nat)
    requires |p| >= 8
    ensures n <= 520
    ensures n != 0 && Word(p, 1) == STAGED_EBPF ==> n == 8 + 8 * Word(p, 0) && 0 < Word(p, 0) <= MAX_INSNS
    ensures n != 0 ==> n >= 16 && (Word(p, 1) == STAGED_EBPF || Word(p, 1) == STAGED_NATIVE)
  {
    if Word(p, 1) == STAGED_NATIVE then if Word(p, 0) == 0 || Word(p, 0) > NATIVE_LIMIT then 0 else 16 + Word(p, 0)
    else if Word(p, 1) == STAGED_EBPF then if Word(p, 0) == 0 || Word(p, 0) > MAX_INSNS then 0 else 8 + 8 * Word(p, 0)
    else 0
  }

  /** The bytes hold a header, and the body and digest the header announces. */
  predicate Whole(p: seq<Byte>) {
    |p| >= 16 && (BodyLength(p) == 0 || BodyLength(p) + 32 <= |p|)
  }

  /** The trailing digest is the digest of the body, and pinned. */
  predicate Genuine(b: Build, p: seq<Byte>, body: nat)
    requires body + 32 <= |p|
  {
    var digest := p[body..body + 32];
    b.hash(p[..body]) == digest && digest in b.pinned
  }

  /** What `hot_swap` makes of the staging area: no image waits there, or it is refused, or it holds a
      program or a native module. */
  datatype Verdict = NoImage | Refused | Program(ins: seq<U64>) | Native(slot: nat, entry: U32, code: seq<Byte>)

  function NativeImage(p: seq<Byte>): (v: Verdict)
    requires |p| >= 16 && |p| >= 16 + Word(p, 0)
    ensures v.Native? ==> v.slot < 2 && |v.code| == Word(p, 0)
    ensures !v.NoImage?
  {
    if Word(p, 2) % 2 == 1 || Word(p, 2) >= NATIVE_TEXT || Word(p, 3) > 1 then Refused
    else Native(Word(p, 3), Word(p, 2), p[16..16 + Word(p, 0)])
  }

  ghost function ProgramImage(p: seq<Byte>): (v: Verdict)
    requires |p| >= 8 && |p| >= 8 + 8 * Word(p, 0)
    ensures !v.Native? && !v.NoImage?
  {
    if D.Accepted(Code(p, Word(p, 0))) then Program(Code(p, Word(p, 0))) else Refused
  }

  /** The gates on an image. */
  ghost function Inspect(b: Build, p: seq<Byte>): (v: Verdict)
    requires Whole(p)
    ensures (v.Native? ==> v.slot < 2) && !v.NoImage?
  {
    var body := BodyLength(p);
    if body == 0 || !Genuine(b, p, body) then Refused
    else if Word(p, 1) == STAGED_NATIVE then NativeImage(p)
    else ProgramImage(p)
  }

  ghost function Decision(b: Build, d: Device): (v: Verdict)
    requires Roomy(d)
    ensures v.Native? ==> v.slot < 2
  {
    if d.magic != PEND_MAGIC then NoImage else Inspect(b, d.pend)
  }

  /** The staged image p passes the gates and holds what the verdict says. */
  ghost predicate Carries(b: Build, p: seq<Byte>, v: Verdict)
    requires Whole(p)
  {
    var body := BodyLength(p);
    body != 0 && Genuine(b, p, body) && v == Inspect(b, p)
  }

  /** Some staged image with a pinned digest holds exactly this. */
  ghost predicate Pinned(b: Build, v: Verdict) {
    exists p: seq<Byte> :: Whole(p) && Carries(b, p, v)
  }

  // ----- state -----

  /** A native slot: the image in its text, where it starts, whether it may run. */
  datatype Slot = Slot(code: seq<Byte>, entry: U32, valid: bool, evicted: bool) {
    predicate Runnable() { valid && !evicted }
  }

  /** Where the core is: in a compartment, in the service loop, parked after a monitor fault, or
      in the refusal of `enter_checked`. */
  datatype Place = Inside(comp: nat) | Serving | Parked | ScheduleBug

  datatype Programs = Programs(live: seq<U64>, shadow: seq<U64>)

  datatype Natives = Natives(slots: seq<Slot>, live: nat, retired: bool)

  /** The update receiver, and the counters as they were when it staged an image. */
  datatype Link = Link(dev: Device, seenLoads: nat, seenRejects: nat)

  datatype Counts = Counts(loads: nat, rejects: nat, rolls: nat)

  /** The schedule over the compartment table; `entries` since the start of the round. */
  datatype Sched = Sched(phase: nat, vector: nat, pmp: Pmp.Table, at: Place, entries: nat)

  /** Counts of what happened since boot. */
  datatype Log = Log(programs: nat, programRolls: nat, remaps: nat, installs: seq<nat>, rearms: seq<nat>,
                     strikes: seq<nat>)

  datatype State = State(progs: Programs, nats: Natives, link: Link, counts: Counts, sched: Sched, log: Log)

  predicate TwoSlots(n: Natives) {
    |n.slots| == 2 && n.live < 2
  }

  /** Shape and room: what every state has. */
  predicate Shaped(s: State) {
    && TwoSlots(s.nats) && Roomy(s.link.dev) && Pmp.Shaped(s.sched.pmp)
    && |s.log.installs| == |s.log.rearms| == |s.log.strikes| == 2
  }

  function Bumped(counts: seq<nat>, k: nat): (r: seq<nat>)
    requires k < |counts|
    ensures |r| == |counts|
  {
    counts[k := counts[k] + 1]
  }

  // ----- hot swap and its report -----

  /** Live -> shadow, staged -> live. */
  function ApplyProgs(p: Programs, v: Verdict): Programs {
    if v.Program? then Programs(v.ins, p.live) else p
  }

  /** A fresh lifetime of slot k, which goes live. */
  function Installed(n: Natives, k: nat, entry: U32, code: seq<Byte>): (n': Natives)
    requires TwoSlots(n) && k < 2
    ensures TwoSlots(n')
  {
    Natives(n.slots[k := Slot(code, entry, true, false)], k, false)
  }

  function ApplyNats(n: Natives, v: Verdict): (n': Natives)
    requires TwoSlots(n) && (v.Native? ==> v.slot < 2)
    ensures TwoSlots(n')
  {
    if v.Native? then Installed(n, v.slot, v.entry, v.code) else n
  }

  /** Compartment 2 moved to slot k, with the window on it. */
  function Remapped(t: Pmp.Table, k: nat, entry: U32): (t': Pmp.Table)
    requires Pmp.Shaped(t)
    ensures Pmp.Shaped(t')
  {
    Pmp.PerformAll(t, [Pmp.Set(2, NatSpec(k), entry), Pmp.Arm(2)])
  }

  function ApplyTable(t: Pmp.Table, v: Verdict): (t': Pmp.Table)
    requires Pmp.Shaped(t)
    ensures Pmp.Shaped(t')
  {
    if v.Native? then Remapped(t, v.slot, v.entry) else t
  }

  /** The magic word is consumed whatever the verdict. */
  function ApplyLink(l: Link, v: Verdict): Link {
    if v.NoImage? then l else l.(dev := l.dev.(magic := 0))
  }

  function ApplyCounts(c: Counts, v: Verdict): Counts {
    match v
    case NoImage => c
    case Refused => c.(rejects := c.rejects + 1)
    case _ => c.(loads := c.loads + 1)
  }

  function ApplyLog(log: Log, v: Verdict): Log
    requires v.Native? ==> v.slot < |log.installs|
  {
    match v
    case Program(_) => log.(programs := log.programs + 1)
    case Native(k, _, _) => log.(installs := Bumped(log.installs, k))
    case _ => log
  }

  /** The consequence of a verdict. */
  function Apply(s: State, v: Verdict): (s': State)
    requires Shaped(s) && (v.Native? ==> v.slot < 2)
    ensures Shaped(s')
  {
    State(ApplyProgs(s.progs, v), ApplyNats(s.nats, v), ApplyLink(s.link, v), ApplyCounts(s.counts, v),
          s.sched.(pmp := ApplyTable(s.sched.pmp, v)), ApplyLog(s.log, v))
  }

  /** `hot_swap`. */
  ghost function HotSwap(b: Build, s: State): (s': State)
    requires Shaped(s)
    ensures Shaped(s')
  {
    Apply(s, Decision(b, s.link.dev))
  }

  /** A staged transfer is answered once a counter has moved. */
  predicate Due(l: Link, c: Counts) {
    l.dev.rx.phase == Staged && (c.loads != l.seenLoads || c.rejects != l.seenRejects)
  }

  function Passed(l: Link, c: Counts): bool {
    c.loads != l.seenLoads && c.rejects == l.seenRejects
  }

  function Finalize(l: Link, c: Counts): Link {
    if Due(l, c) then l.(dev := Finish(l.dev, Passed(l, c))) else l
  }

  // ----- what goes back over the wire -----

  /** A frame the device sends: an update reply, the echo of a re-arm, the window of counters
      (whose contents are not part of this model). */
  datatype Sent = Answer(r: Reply) | Echo(payload: seq<Byte>) | Counters

  function FinalAnswer(l: Link, c: Counts): seq<Sent> {
    if Due(l, c) then
      [Answer(Reply(l.dev.rx.id, l.dev.rx.nextSeq, if Passed(l, c) then ACCEPT else REJECT,
                    if Passed(l, c) then 0 else ERR_STATE))]
    else []
  }

  // ----- the channel -----

  const FRAME_PROGRAM: Byte := 1
  const FRAME_SWARM: Byte := 2
  const FRAME_NATIVE: Byte := 3
  const FRAME_UPDATE: Byte := 4
  const FRAME_STATUS: Byte := 13
  const FRAME_REARM: Byte := 14

  /** The counters are noted when a frame stages an image. */
  function Noting(l: Link, c: Counts, r: Result): Link {
    if r.accepted && r.reply.code == STAGED then Link(r.dev, c.loads, c.rejects) else l.(dev := r.dev)
  }

  function UpdateFrame(b: Build, l: Link, c: Counts, p: seq<Byte>): (l': Link)
    requires Roomy(l.dev)
    ensures Roomy(l'.dev)
  {
    Noting(l, c, Process(b.hash, l.dev, Parse(p)))
  }

  function Stage(d: Device, image: seq<Byte>): (d': Device)
    requires |image| <= |d.pend|
    ensures Roomy(d) ==> Roomy(d')
  {
    d.(pend := Write(d.pend, 0, image), magic := PEND_MAGIC)
  }

  /** A program frame lands in the staging area under an eBPF header. */
  function StageProgram(d: Device, p: seq<Byte>): (d': Device)
    requires Roomy(d)
    ensures Roomy(d')
  {
    if |p| < 40 || Word(p, 0) != PROG_MAGIC then d
    else
      var cnt := Word(p, 1);
      if cnt == 0 || cnt > MAX_INSNS || |p| != 8 + 8 * cnt + 32 then d
      else Stage(d, Le32Bytes(cnt) + Le32Bytes(STAGED_EBPF) + p[8..])
  }

  function StageNative(d: Device, p: seq<Byte>): (d': Device)
    requires Roomy(d)
    ensures Roomy(d')
  {
    if |p| < 16 || |p| > 0x200 then d else Stage(d, p)
  }

  /** The frame names a slot that holds an image. */
  predicate Rearms(n: Natives, p: seq<Byte>)
    requires TwoSlots(n)
  {
    |p| == 4 && Word(p, 0) <= 1 && n.slots[Word(p, 0)].valid
  }

  function Rearmed(n: Natives, k: nat): (n': Natives)
    requires TwoSlots(n) && k < 2
    ensures TwoSlots(n')
  {
    Natives(n.slots[k := n.slots[k].(evicted := false)], k, false)
  }

  function RearmNats(n: Natives, p: seq<Byte>): (n': Natives)
    requires TwoSlots(n)
    ensures TwoSlots(n')
  {
    if Rearms(n, p) then Rearmed(n, Word(p, 0)) else n
  }

  function RearmLog(n: Natives, log: Log, p: seq<Byte>): Log
    requires TwoSlots(n) && |log.rearms| == 2
  {
    if Rearms(n, p) then log.(rearms := Bumped(log.rearms, Word(p, 0))) else log
  }

  predicate IsSwarm(p: seq<Byte>) {
    |p| >= 12 && Word(p, 0) == SWARM_MAGIC && 0 < Word(p, 1) <= MAX_SWARM && |p| == 8 + 42 * Word(p, 1)
  }

  function PollLink(b: Build, l: Link, c: Counts, kind: Byte, p: seq<Byte>): (l': Link)
    requires Roomy(l.dev)
    ensures Roomy(l'.dev)
  {
    if |p| == 0 then l
    else if kind == FRAME_UPDATE then UpdateFrame(b, l, c, p)
    else if kind == FRAME_PROGRAM then l.(dev := StageProgram(l.dev, p))
    else if kind == FRAME_NATIVE then l.(dev := StageNative(l.dev, p))
    else l
  }

  function PollNats(n: Natives, kind: Byte, p: seq<Byte>): (n': Natives)
    requires TwoSlots(n)
    ensures TwoSlots(n')
  {
    if kind == FRAME_REARM then RearmNats(n, p) else n
  }

  function PollLog(n: Natives, log: Log, kind: Byte, p: seq<Byte>): Log
    requires TwoSlots(n) && |log.rearms| == 2
  {
    if kind == FRAME_REARM then RearmLog(n, log, p) else log
  }

  /** `chan_poll` on a complete frame; no payload means no frame. */
  function Poll(b: Build, s: State, kind: Byte, p: seq<Byte>): (s': State)
    requires Shaped(s)
    ensures Shaped(s')
  {
    s.(link := PollLink(b, s.link, s.counts, kind, p), nats := PollNats(s.nats, kind, p),
       log := PollLog(s.nats, s.log, kind, p))
  }

  function PollSends(b: Build, d: Device, kind: Byte, p: seq<Byte>): seq<Sent>
    requires Roomy(d)
  {
    if |p| == 0 then []
    else if kind == FRAME_UPDATE then [Answer(Process(b.hash, d, Parse(p)).reply)]
    else if kind == FRAME_STATUS && p[0] == 0 then [Counters]
    else if kind == FRAME_REARM && |p| == 4 then [Echo(p)]
    else []
  }

  // ----- the schedule -----

  /** `enter_checked`: arms the compartment and enters it, unless it is evicted. */
  function Enter(c: Sched, i: nat): (c': Sched)
    requires Pmp.Shaped(c.pmp) && i < 3
    ensures Pmp.Shaped(c'.pmp)
  {
    if c.pmp.comps[i].evicted then c.(at := ScheduleBug)
    else c.(pmp := Pmp.Perform(c.pmp, Pmp.Arm(i)), at := Inside(i), entries := c.entries + 1)
  }

  /** The three compartments set up afresh, the native one onto the live slot, and the monitor armed. */
  function Wiring(b: Build, n: Natives): seq<Pmp.Op>
    requires TwoSlots(n)
  {
    [Pmp.Set(0, MONITOR, b.monitorEntry), Pmp.Set(1, ATTACKER, b.attackEntries[0]),
     Pmp.Set(2, NatSpec(n.live), n.slots[n.live].entry), Pmp.Arm(0)]
  }

  /** `hot_round`: everything reset and wired, and the monitor entered. */
  function StartRound(b: Build, n: Natives, c: Sched): (c': Sched)
    requires Pmp.Shaped(c.pmp) && TwoSlots(n)
    ensures Pmp.Shaped(c'.pmp)
  {
    Enter(Sched(1, 0, Pmp.PerformAll(c.pmp, Wiring(b, n)), c.at, 0), 0)
  }

  /** `atk_schedule`: a fresh lifetime of the attacker compartment. */
  function Lifetime(b: Build, c: Sched, v: nat): (c': Sched)
    requires Pmp.Shaped(c.pmp) && v < LIFETIMES
    ensures Pmp.Shaped(c'.pmp)
  {
    Enter(c.(vector := v, pmp := Pmp.PerformAll(c.pmp, [Pmp.Set(1, ATTACKER, b.attackEntries[v]), Pmp.Arm(1)])), 1)
  }

  /** All lifetimes ran: the native compartment, or the end of the round when no slot can run. */
  function NativePhase(n: Natives, c: Sched): (c': Sched)
    requires Pmp.Shaped(c.pmp) && TwoSlots(n)
    ensures Pmp.Shaped(c'.pmp)
  {
    if n.retired || !n.slots[n.live].Runnable() then c.(vector := c.vector + 1, at := Serving)
    else Enter(c.(vector := c.vector + 1, phase := 5), 2)
  }

  /** `atk_advance`. */
  function Advance(b: Build, n: Natives, c: Sched): (c': Sched)
    requires Pmp.Shaped(c.pmp) && TwoSlots(n)
    ensures Pmp.Shaped(c'.pmp)
  {
    if c.vector + 1 < LIFETIMES then Lifetime(b, c, c.vector + 1) else NativePhase(n, c)
  }

  /** The monitor armed and entered for its next mode. */
  function NextMode(c: Sched): (c': Sched)
    requires Pmp.Shaped(c.pmp)
    ensures Pmp.Shaped(c'.pmp)
  {
    Enter(c.(phase := c.phase + 1, pmp := Pmp.Perform(c.pmp, Pmp.Arm(0))), 0)
  }

  /** The schedule after a yield. */
  function Yielded(b: Build, n: Natives, c: Sched): (c': Sched)
    requires Pmp.Shaped(c.pmp) && TwoSlots(n)
    ensures Pmp.Shaped(c'.pmp)
  {
    if c.phase == 1 || c.phase == 2 then NextMode(c)
    else if c.phase == 3 then Lifetime(b, c.(phase := 4), 0)
    else if c.phase == 4 then Advance(b, n, c)
    else c.(at := Serving)
  }

  /** The schedule after a trap or an overrun slice ended the running lifetime. */
  function Ended(b: Build, n: Natives, c: Sched): (c': Sched)
    requires Pmp.Shaped(c.pmp) && TwoSlots(n) && c.at.Inside?
    ensures Pmp.Shaped(c'.pmp)
  {
    var d := c.(pmp := Pmp.Perform(c.pmp, Pmp.Evict(c.at.comp)));
    if c.phase == 4 then Advance(b, n, d)
    else if c.phase >= 5 then d.(at := Serving)
    else d.(at := Parked)
  }

  // ----- yields and faults -----

  /** One strike: a fault of the live program restores the shadow, or the built-in policy. */
  predicate Faulty(p: Programs, faulted: bool) {
    |p.live| > 0 && faulted
  }

  function RollbackProgs(p: Programs, faulted: bool): Programs {
    if !Faulty(p, faulted) then p else if |p.shadow| > 0 then Programs(p.shadow, []) else p.(live := [])
  }

  function RollbackCounts(p: Programs, c: Counts, faulted: bool): Counts {
    if Faulty(p, faulted) then c.(rolls := c.rolls + 1) else c
  }

  function RollbackLog(p: Programs, log: Log, faulted: bool): Log {
    if Faulty(p, faulted) then log.(programRolls := log.programRolls + 1) else log
  }

  function Rollback(s: State, faulted: bool): (s': State)
    requires Shaped(s)
    ensures Shaped(s')
  {
    s.(progs := RollbackProgs(s.progs, faulted), counts := RollbackCounts(s.progs, s.counts, faulted),
       log := RollbackLog(s.progs, s.log, faulted))
  }

  /** `supervisor_resume`: the compartment yielded; the flag is the monitor's fault word. */
  function Resume(b: Build, s: State, faulted: bool): (s': State)
    requires Shaped(s)
    ensures Shaped(s')
  {
    Rollback(s, s.sched.phase == 1 && faulted).(sched := Yielded(b, s.nats, s.sched))
  }

  predicate Other(n: Natives)
    requires TwoSlots(n)
  {
    n.slots[1 - n.live].Runnable()
  }

  /** The live native slot is struck out and the window moves to the other one when it can run. */
  function Struck(n: Natives): (n': Natives)
    requires TwoSlots(n)
    ensures TwoSlots(n')
  {
    var slots := n.slots[n.live := n.slots[n.live].(evicted := true)];
    if Other(n) then Natives(slots, 1 - n.live, false) else Natives(slots, n.live, true)
  }

  function StrikeCounts(n: Natives, c: Counts): Counts
    requires TwoSlots(n)
  {
    if Other(n) then c.(rolls := c.rolls + 1) else c
  }

  function StrikeLog(n: Natives, log: Log): Log
    requires TwoSlots(n) && |log.strikes| == 2
  {
    log.(strikes := Bumped(log.strikes, n.live), remaps := if Other(n) then log.remaps + 1 else log.remaps)
  }

  function Strike(s: State): (s': State)
    requires Shaped(s)
    ensures Shaped(s')
  {
    s.(nats := Struck(s.nats), counts := StrikeCounts(s.nats, s.counts), log := StrikeLog(s.nats, s.log))
  }

  /** `supervisor_fault`. */
  function Trap(b: Build, s: State): (s': State)
    requires Shaped(s) && s.sched.at.Inside?
    ensures Shaped(s')
  {
    (if s.sched.phase >= 5 && s.sched.at.comp == 2 then Strike(s) else s).(sched := Ended(b, s.nats, s.sched))
  }

  // ----- the service loop -----

  /** A new round when a module was installed or a new swarm arrived. */
  function Restarted(b: Build, n: Natives, c: Sched, again: bool): (c': Sched)
    requires Pmp.Shaped(c.pmp) && TwoSlots(n)
    ensures Pmp.Shaped(c'.pmp)
  {
    if again then StartRound(b, n, c) else c
  }

  /** The rest of a turn of the service loop, once the verdict on the staging area is known: swap,
      report, perhaps a new round. */
  function Concluded(b: Build, s: State, v: Verdict, swarm: bool): (s': State)
    requires Shaped(s) && (v.Native? ==> v.slot < 2)
    ensures Shaped(s')
  {
    var c := Apply(s, v);
    var again := c.counts.loads != s.counts.loads || swarm;
    c.(link := Finalize(c.link, c.counts), sched := Restarted(b, c.nats, c.sched, again))
  }

  ghost function AfterPoll(b: Build, s: State, swarm: bool): (s': State)
    requires Shaped(s)
    ensures Shaped(s')
  {
    Concluded(b, s, Decision(b, s.link.dev), swarm)
  }

  ghost function Serve(b: Build, s: State, kind: Byte, p: seq<Byte>): (s': State)
    requires Shaped(s)
    ensures Shaped(s')
  {
    AfterPoll(b, Poll(b, s, kind, p), kind == FRAME_SWARM && IsSwarm(p))
  }

  /** What the rest of a turn sends, and a whole turn of the loop. */
  ghost function TurnSends(b: Build, l: Link, c: Counts): seq<Sent>
    requires Roomy(l.dev)
  {
    var v := Decision(b, l.dev);
    FinalAnswer(ApplyLink(l, v), ApplyCounts(c, v))
  }

  ghost function ServeSends(b: Build, s: State, kind: Byte, p: seq<Byte>): seq<Sent>
    requires Shaped(s)
  {
    PollSends(b, s.link.dev, kind, p) + TurnSends(b, PollLink(b, s.link, s.counts, kind, p), s.counts)
  }

  datatype Step = Yield(faulted: bool) | Fault | Frame(kind: Byte, payload: seq<Byte>)

  predicate Enabled(s: State, e: Step) {
    if e.Frame? then s.sched.at.Serving? else s.sched.at.Inside?
  }

  ghost function Next(b: Build, s: State, e: Step): (s': State)
    requires Shaped(s) && Enabled(s, e)
    ensures Shaped(s')
  {
    match e
    case Yield(faulted) => Resume(b, s, faulted)
    case Fault => Trap(b, s)
    case Frame(kind, p) => Serve(b, s, kind, p)
  }

  // ----- what always holds, part by part -----

  ghost predicate ProgramOk(b: Build, boot: seq<U64>, ins: seq<U64>) {
    |ins| > 0 ==> D.Accepted(ins) && (ins == boot || Pinned(b, Program(ins)))
  }

  function Occupied(ins: seq<U64>): nat {
    if |ins| > 0 then 1 else 0
  }

  /** Both program slots hold verified programs of known origin, and every rollback used one up. */
  ghost predicate ProgramsOk(b: Build, boot: seq<U64>, p: Programs, log: Log) {
    && ProgramOk(b, boot, p.live) && ProgramOk(b, boot, p.shadow)
    && log.programRolls + Occupied(p.live) + Occupied(p.shadow) <= log.programs + Occupied(boot)
  }

  /** What is in native slot k came with the boot or in a pinned image for that slot. */
  ghost predicate NativeOk(b: Build, boot: Slot, k: nat, slot: Slot) {
    slot.valid ==>
      (boot.valid && slot.code == boot.code && slot.entry == boot.entry) || Pinned(b, Native(k, slot.entry, slot.code))
  }

  /** The native table: retired means no slot can run, otherwise the live one can. */
  predicate TableOk(n: Natives)
    requires TwoSlots(n)
  {
    && (n.retired <==> !n.slots[0].Runnable() && !n.slots[1].Runnable())
    && (!n.retired ==> n.slots[n.live].Runnable())
  }

  ghost predicate NativesOk(b: Build, boot: Natives, n: Natives) {
    TwoSlots(boot) && TwoSlots(n) && TableOk(n) && forall k | 0 <= k < 2 :: NativeOk(b, boot.slots[k], k, n.slots[k])
  }

  /** A strike has to be paid for by the boot image, an install or an operator's re-arm. */
  predicate StrikesPaid(n: Natives, log: Log)
    requires TwoSlots(n) && |log.installs| == |log.rearms| == |log.strikes| == 2
  {
    forall k | 0 <= k < 2 ::
      log.strikes[k] + (if n.slots[k].Runnable() then 1 else 0) <= 1 + log.installs[k] + log.rearms[k]
  }

  predicate CountersOk(c: Counts, log: Log)
    requires |log.installs| == |log.rearms| == |log.strikes| == 2
  {
    && c.rolls == log.programRolls + log.remaps
    && log.remaps <= log.strikes[0] + log.strikes[1]
    && c.loads == log.programs + log.installs[0] + log.installs[1]
  }

  /** The compartments are wired to the address map and to the live native slot. */
  predicate Wired(b: Build, n: Natives, c: Sched)
    requires Pmp.Shaped(c.pmp) && TwoSlots(n)
  {
    var m := c.pmp.comps;
    && m[0].spec == MONITOR && m[0].entry == b.monitorEntry
    && m[1].spec == ATTACKER && (c.vector < LIFETIMES ==> m[1].entry == b.attackEntries[c.vector])
    && m[2].spec == NatSpec(n.live) && m[2].entry == n.slots[n.live].entry
  }

  /** Who runs in which phase, and how many entries that took. */
  predicate PhaseOk(n: Natives, c: Sched)
    requires TwoSlots(n)
  {
    && 1 <= c.phase <= 5 && c.vector <= LIFETIMES && c.entries <= 11
    && match c.at
       case Inside(i) =>
         if c.phase <= 3 then i == 0 && c.vector == 0 && c.entries == c.phase
         else if c.phase == 4 then i == 1 && c.vector < LIFETIMES && c.entries == 4 + c.vector
         else i == 2 && n.slots[n.live].Runnable() && !n.retired && c.entries == 11
       case Parked => c.phase <= 3
       case Serving => c.phase >= 4
       case ScheduleBug => false
  }

  /** The running compartment is armed and alive, and the native one is alive until it runs. */
  predicate Alive(c: Sched)
    requires Pmp.Shaped(c.pmp)
  {
    c.at.Inside? ==>
      c.at.comp < 3 && c.pmp.comps[c.at.comp].armed && !c.pmp.comps[c.at.comp].evicted && !c.pmp.comps[2].evicted
  }

  predicate SchedOk(b: Build, n: Natives, c: Sched) {
    && TwoSlots(n) && Pmp.Cached(c.pmp) && PhaseOk(n, c) && Alive(c)
    && (c.at.Inside? ==> Wired(b, n, c))
  }

  /** Between steps no image waits to be judged. */
  predicate NothingStaged(d: Device) {
    d.magic != PEND_MAGIC && d.rx.phase != Staged
  }

  /** Everything the invariant says apart from the schedule and the staging area; `boot` is the state
      before the first round. */
  ghost predicate Core(b: Build, boot: State, s: State) {
    && Shaped(s) && ProgramsOk(b, boot.progs.live, s.progs, s.log) && NativesOk(b, boot.nats, s.nats)
    && StrikesPaid(s.nats, s.log) && CountersOk(s.counts, s.log)
  }

  ghost predicate Invariant(b: Build, boot: State, s: State) {
    Core(b, boot, s) && SchedOk(b, s.nats, s.sched) && NothingStaged(s.link.dev)
  }
}
