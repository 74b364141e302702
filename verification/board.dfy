/** The supervisor in place: its globals as fields, its handlers as methods, each proved to take
    the step of the state machine. */
module Board {
  import opened Words
  import opened Bits
  import opened Update
  import opened Isa
  import opened Supervisor
  import S = Safety
  import Pmp
  import Sha256
  import D = Dataflow
  import V = Verifier
  import G = Gates
  import I = Interpreter

  const SLOT_WORDS: nat := 64
  const MON_PROG: U32 := 0x2000_5600

  ghost predicate Proper(b: Build) {
    IsHash(b.hash) && forall d | d in b.pinned :: |d| == 32
  }

  /** SHA-256 as proved against the standard is a digest function in the sense of the protocol. */
  lemma ShaIsProper(b: Build)
    requires b.hash == Sha256.Digest && forall d | d in b.pinned :: |d| == 32
    ensures Proper(b)
  {
  }

  /** Little-endian assembly of one instruction word, top byte first. */
  method LoadWord(src: seq<Byte>) returns (v: U64)
    requires |src| == 8
    ensures v == Load64(src)
  {
    v := 0;
    assert src[8..] == [];
    for b := 8 downto 0
      invariant v == I.LoadLe(src[b..])
      invariant v < Pow2(8 * (8 - b))
    {
      assert src[b..][1..] == src[b + 1..];
      assert src[b..][0] == src[b];
      ShiftIn(v, src[b], 7 - b);
      v := Or(Shl(v, 8), src[b]);
    }
    assert src[0..] == src;
  }

  /** v << 8 | byte, while the result still fits 64 bits. */
  lemma ShiftIn(v: nat, byte: Byte, n: nat)
    requires v < Pow2(8 * n) && n < 8
    ensures Or(Shl(v, 8), byte) == byte + 0x100 * v
    ensures byte + 0x100 * v < Pow2(8 * (n + 1)) <= TWO64
  {
    Pow2Values();
    OrDisjoint(byte, v, 8);
    ShlIsMul(v, 8);
    I.Pow2Byte(n);
    Pow2Grows(8 * (n + 1), 64);
  }

  /** The trailing digest against the recomputed one, then against the pinned list. */
  method TrustCheck(b: Build, img: seq<Byte>, body: nat) returns (ok: bool)
    requires Proper(b) && body + 32 <= |img|
    ensures ok <==> Genuine(b, img, body)
  {
    var computed := b.hash(img[..body]);
    var digest := img[body..body + 32];
    for k := 0 to 32
      invariant forall j | 0 <= j < k :: computed[j] == digest[j]
    {
      if computed[k] != digest[k] {
        return false;
      }
    }
    assert computed == digest;
    for n := 0 to |b.pinned|
      invariant forall m | 0 <= m < n :: b.pinned[m] != digest
    {
      var same := true;
      var k := 0;
      while k < 32 && same
        invariant k <= 32
        invariant same <==> b.pinned[n][..k] == digest[..k]
      {
        same := b.pinned[n][k] == digest[k];
        k := k + 1;
      }
      if same {
        assert b.pinned[n] == b.pinned[n][..32] && digest == digest[..32];
        return true;
      }
      assert b.pinned[n] != digest;
    }
    return false;
  }

  /** The header: the kind first, and the count bounded before it is multiplied. */
  method HeaderLength(pend: seq<Byte>) returns (body: nat)
    requires |pend| >= MAX_IMAGE
    ensures body == BodyLength(pend)
  {
    var w0, kind := Word(pend, 0), Word(pend, 1);
    if kind == STAGED_NATIVE {
      if w0 == 0 || w0 > NATIVE_LIMIT {
        return 0;
      }
      body := 16 + w0;
    } else if kind == STAGED_EBPF {
      if w0 == 0 || w0 > MAX_INSNS {
        return 0;
      }
      body := 8 + w0 * 8;
    } else {
      return 0;
    }
    if body > BODY_LIMIT || body < 16 {
      return 0;
    }
  }

  method InspectNative(pend: seq<Byte>) returns (v: Verdict)
    requires |pend| >= MAX_IMAGE && Word(pend, 0) <= NATIVE_LIMIT
    ensures v == NativeImage(pend)
  {
    var entry, slot := Word(pend, 2), Word(pend, 3);
    if entry % 2 == 1 || entry >= NATIVE_TEXT || slot > 1 {
      return Refused;
    }
    NativeGateRepeats(slot, entry);
    if G.ModuleCheck(G.Desc(G.MODULE_MAGIC, 1, G.KIND_NATIVE, NatSpec(slot), entry, 0)) != G.Accept {
      return Refused;
    }
    return Native(slot, entry, pend[16..16 + Word(pend, 0)]);
  }

  method InspectProgram(pend: seq<Byte>) returns (v: Verdict)
    requires |pend| >= MAX_IMAGE && 0 < Word(pend, 0) <= MAX_INSNS
    ensures v == ProgramImage(pend)
    ensures v.Program? ==> |v.ins| <= SLOT_WORDS
  {
    var w0 := Word(pend, 0);
    var code := Code(pend, w0);
    ProgramGateRepeats(w0);
    if G.ModuleCheck(G.Desc(G.MODULE_MAGIC, 1, G.KIND_EBPF, G.Spec(MON_PROG, w0 * 8, 0, 0), 0, 0)) != G.Accept {
      return Refused;
    }
    var status := V.ProgramCheck(code);
    return if status == V.Accept then Program(code) else Refused;
  }

  /** An image that fits where it goes. */
  predicate Fits(v: Verdict) {
    match v
    case NoImage => true
    case Refused => true
    case Program(ins) => |ins| <= SLOT_WORDS
    case Native(k, _, code) => k < 2 && |code| <= NATIVE_TEXT
  }

  /** The gates of `hot_swap`, in their order. */
  method InspectImage(b: Build, pend: seq<Byte>) returns (v: Verdict)
    requires Proper(b) && |pend| >= MAX_IMAGE
    ensures v == Inspect(b, pend) && Fits(v)
  {
    var body := HeaderLength(pend);
    if body == 0 {
      return Refused;
    }
    var ok := TrustCheck(b, pend, body);
    if !ok {
      return Refused;
    }
    if Word(pend, 1) == STAGED_NATIVE {
      v := InspectNative(pend);
    } else {
      v := InspectProgram(pend);
    }
  }

  /** After the checks above it, the descriptor gate cannot refuse a native image. */
  lemma NativeGateRepeats(slot: nat, entry: U32)
    requires slot < 2 && entry % 2 == 0 && entry < NATIVE_TEXT
    ensures G.ModuleCheck(G.Desc(G.MODULE_MAGIC, 1, G.KIND_NATIVE, NatSpec(slot), entry, 0)) == G.Accept
  {
    assert Pow2(12) == 0x1000;
    G.PowerBit(0x1000);
  }

  lemma ProgramGateRepeats(count: U32)
    requires 0 < count <= MAX_INSNS
    ensures G.ModuleCheck(G.Desc(G.MODULE_MAGIC, 1, G.KIND_EBPF, G.Spec(MON_PROG, count * 8, 0, 0), 0, 0)) == G.Accept
  {
  }

  /** A yield and a trap put together from their parts. */
  lemma ResumeIs(b: Build, s: State, faulted: bool, t: State)
    requires Shaped(s) && t.nats == s.nats && t.link == s.link
    requires var blamed := s.sched.phase == 1 && faulted;
             && t.progs == RollbackProgs(s.progs, blamed)
             && t.counts == RollbackCounts(s.progs, s.counts, blamed)
             && t.log == RollbackLog(s.progs, s.log, blamed)
    requires t.sched == Yielded(b, s.nats, s.sched)
    ensures t == Resume(b, s, faulted)
  {
  }

  lemma TrapIs(b: Build, s: State, t: State)
    requires Shaped(s) && s.sched.at.Inside? && t.progs == s.progs && t.link == s.link
    requires t.sched == Ended(b, s.nats, s.sched)
    requires var native := s.sched.phase >= 5 && s.sched.at.comp == 2;
             && t.nats == (if native then Struck(s.nats) else s.nats)
             && t.counts == (if native then StrikeCounts(s.nats, s.counts) else s.counts)
             && t.log == (if native then StrikeLog(s.nats, s.log) else s.log)
    ensures t == Trap(b, s)
  {
  }

  /** The end of a turn put together from the swap and the report. */
  lemma ConcludedIs(b: Build, s: State, mid: State, v: Verdict, swarm: bool, t: State)
    requires Shaped(s) && Fits(v) && Shaped(mid) && mid == Apply(s, v)
    requires t == mid.(link := Finalize(mid.link, mid.counts),
                       sched := Restarted(b, mid.nats, mid.sched, mid.counts.loads != s.counts.loads || swarm))
    ensures t == Concluded(b, s, v, swarm)
  {
  }

  /** A turn put together from its halves. */
  lemma ServeIs(b: Build, s: State, mid: State, v: Verdict, kind: Byte, p: seq<Byte>, t: State,
                first: seq<Sent>, rest: seq<Sent>)
    requires Shaped(s) && Shaped(mid) && mid == Poll(b, s, kind, p) && v == Decision(b, mid.link.dev)
    requires t == Concluded(b, mid, v, kind == FRAME_SWARM && IsSwarm(p))
    requires first == PollSends(b, s.link.dev, kind, p)
    requires rest == FinalAnswer(ApplyLink(mid.link, v), ApplyCounts(mid.counts, v))
    ensures t == Serve(b, s, kind, p) && first + rest == ServeSends(b, s, kind, p)
  {
  }

  /** A row of the native table. */
  datatype Row = Row(len: nat, entry: U32, valid: bool, evicted: bool)

  class Machine {
    const prog: array<U64>
    const progB: array<U64>
    var count: nat
    var countB: nat
    const text0: array<Byte>
    const text1: array<Byte>
    var rows: seq<Row>
    var natLive: nat
    var retired: bool
    const update: Receiver
    var seenLoads: nat
    var seenRejects: nat
    var loads: nat
    var rejects: nat
    var rolls: nat
    const pmp: Pmp.Compartments
    var phase: nat
    var vector: nat
    var at: Place
    ghost var entries: nat
    ghost var log: Log

    /** The arrays do not overlap. */
    predicate Apart() {
      && prog.Length == progB.Length == SLOT_WORDS && prog != progB
      && text0.Length == text1.Length == NATIVE_TEXT && text0 != text1
      && update.pend != text0 && update.pend != text1
      && pmp.cfg != text0 && pmp.cfg != text1 && pmp.cfg != update.pend
    }

    ghost predicate Valid()
      reads this, update, pmp
    {
      && Apart() && update.Valid() && pmp.Valid()
      && count <= SLOT_WORDS && countB <= SLOT_WORDS
      && |rows| == 2 && rows[0].len <= NATIVE_TEXT && rows[1].len <= NATIVE_TEXT && natLive < 2
      && |log.installs| == |log.rearms| == |log.strikes| == 2
    }

    ghost function Progs(): Programs
      requires count <= prog.Length && countB <= progB.Length
      reads `count, `countB, prog, progB
    {
      Programs(prog[..count], progB[..countB])
    }

    ghost function SlotAt(k: nat): Slot
      requires k < |rows| && rows[k].len <= (if k == 0 then text0 else text1).Length
      reads `rows, text0, text1
    {
      var text := if k == 0 then text0 else text1;
      Slot(text[..rows[k].len], rows[k].entry, rows[k].valid, rows[k].evicted)
    }

    ghost function Nats(): (n: Natives)
      requires |rows| == 2 && rows[0].len <= text0.Length && rows[1].len <= text1.Length
      reads `rows, `natLive, `retired, text0, text1
    {
      Natives([SlotAt(0), SlotAt(1)], natLive, retired)
    }

    ghost function LinkView(): Link
      reads `seenLoads, `seenRejects, update, update.pend
    {
      Link(update.State(), seenLoads, seenRejects)
    }

    function Totals(): Counts
      reads `loads, `rejects, `rolls
    {
      Counts(loads, rejects, rolls)
    }

    ghost function SchedView(): (c: Sched)
      requires pmp.Valid()
      reads `phase, `vector, `at, `entries, pmp, pmp.cfg, pmp.addr
      ensures Pmp.Shaped(c.pmp)
    {
      Sched(phase, vector, pmp.View(), at, entries)
    }

    ghost function View(): (s: State)
      requires Valid()
      reads this, update, update.pend, prog, progB, text0, text1, pmp, pmp.cfg, pmp.addr
      ensures Shaped(s)
    {
      State(Progs(), Nats(), LinkView(), Totals(), SchedView(), log)
    }

    /** The globals after boot, before the first program load; `table` and the two texts are what the
        restore left. */
    constructor (rx: Receiver, table: seq<Row>, live: nat, image0: array<Byte>, image1: array<Byte>)
      requires rx.Valid() && rx.phase == Idle && rx.magic == 0
      requires image0.Length == image1.Length == NATIVE_TEXT && image0 != image1
      requires image0 != rx.pend && image1 != rx.pend
      requires |table| == 2 && table[0].len <= NATIVE_TEXT && table[1].len <= NATIVE_TEXT
      requires live < 2 && table[0].valid && table[live].valid && !table[0].evicted && !table[1].evicted
      ensures Valid() && update == rx && fresh(prog) && fresh(progB) && fresh(pmp)
      ensures S.Booted(View()) && View().progs.live == []
    {
      prog, progB := new U64[SLOT_WORDS](_ => 0), new U64[SLOT_WORDS](_ => 0);
      text0, text1, update := image0, image1, rx;
      pmp := new Pmp.Compartments();
      count, countB, rows, natLive, retired := 0, 0, table, live, false;
      seenLoads, seenRejects, loads, rejects, rolls := 0, 0, 0, 0, 0;
      phase, vector, at, entries := 1, 0, Serving, 0;
      log := Log(0, 0, 0, [0, 0], [0, 0], [0, 0]);
    }

    // ----- program slots -----

    /** `memcpy` of a whole slot. */
    method CopySlot(dst: array<U64>, src: array<U64>)
      requires dst.Length == src.Length == SLOT_WORDS && dst != src
      modifies dst
      ensures dst[..] == old(src[..])
    {
      for i := 0 to SLOT_WORDS
        invariant forall j | 0 <= j < i :: dst[j] == src[j]
      {
        dst[i] := src[i];
      }
    }

    method StoreProgram(code: seq<U64>)
      requires prog.Length == SLOT_WORDS && |code| <= SLOT_WORDS
      modifies prog
      ensures prog[..|code|] == code
    {
      for i := 0 to |code|
        invariant forall j | 0 <= j < i :: prog[j] == code[j]
      {
        prog[i] := code[i];
      }
    }

    /** Live -> shadow, staged -> live. */
    method SwapProgram(code: seq<U64>)
      requires Apart() && count <= SLOT_WORDS && |code| <= SLOT_WORDS
      modifies `count, `countB, prog, progB
      ensures count <= SLOT_WORDS && countB <= SLOT_WORDS
      ensures Progs() == Programs(code, old(prog[..count]))
    {
      ghost var live := prog[..count];
      countB := count;
      CopySlot(progB, prog);
      assert progB[..countB] == live;
      StoreProgram(code);
      count := |code|;
    }

    /** The one-strike rollback: the shadow copied over the live slot, or the slot emptied. */
    method RestoreProgram()
      requires Apart() && count <= SLOT_WORDS && countB <= SLOT_WORDS
      modifies `count, `countB, prog
      ensures count <= SLOT_WORDS && countB <= SLOT_WORDS
      ensures Progs() == if old(countB) > 0 then Programs(old(progB[..countB]), [])
                         else Programs([], old(progB[..countB]))
    {
      if countB != 0 {
        ghost var shadow := progB[..countB];
        CopySlot(prog, progB);
        count := countB;
        assert prog[..count] == shadow;
        countB := 0;
      } else {
        count := 0;
      }
    }

    method RollbackNow(faulted: bool)
      requires Valid()
      modifies `count, `countB, prog, `rolls, `log
      ensures Valid()
      ensures Progs() == RollbackProgs(old(Progs()), faulted)
      ensures Totals() == RollbackCounts(old(Progs()), old(Totals()), faulted)
      ensures log == RollbackLog(old(Progs()), old(log), faulted)
    {
      if count != 0 && faulted {
        RestoreProgram();
        rolls := rolls + 1;
        log := log.(programRolls := log.programRolls + 1);
      }
    }

    // ----- the native table -----

    /** `memcpy` of a staged native image into the text of its slot. */
    method CopyText(dst: array<Byte>, code: seq<Byte>)
      requires |code| <= dst.Length
      modifies dst
      ensures dst[..|code|] == code
    {
      for i := 0 to |code|
        invariant forall j | 0 <= j < i :: dst[j] == code[j]
      {
        dst[i] := code[i];
      }
    }

    /** A fresh lifetime of slot k, which goes live. */
    method InstallSlot(k: nat, entry: U32, code: seq<Byte>)
      requires Apart() && |rows| == 2 && rows[0].len <= NATIVE_TEXT && rows[1].len <= NATIVE_TEXT && natLive < 2
      requires k < 2 && |code| <= NATIVE_TEXT
      modifies `rows, `natLive, `retired, text0, text1
      ensures |rows| == 2 && rows[0].len <= NATIVE_TEXT && rows[1].len <= NATIVE_TEXT && natLive < 2
      ensures Nats() == Installed(old(Nats()), k, entry, code)
    {
      if k == 0 {
        CopyText(text0, code);
      } else {
        CopyText(text1, code);
      }
      rows := rows[k := Row(|code|, entry, true, false)];
      natLive, retired := k, false;
    }

    /** The exec window rewritten onto the slot at once. */
    method RemapNow(k: nat, entry: U32)
      requires pmp.Valid()
      modifies pmp`comps, pmp.cfg, pmp.addr
      ensures pmp.Valid() && pmp.View() == Remapped(old(pmp.View()), k, entry)
    {
      Pmp.PerformTwo(pmp.View(), Pmp.Set(2, NatSpec(k), entry), Pmp.Arm(2));
      pmp.SetUp(2, NatSpec(k), entry);
      pmp.ArmNow(2);
    }

    method InstallNativeNow(k: nat, entry: U32, code: seq<Byte>)
      requires Valid() && k < 2 && |code| <= NATIVE_TEXT
      modifies `rows, `natLive, `retired, text0, text1, pmp`comps, pmp.cfg, pmp.addr, `log
      ensures Valid()
      ensures Nats() == Installed(old(Nats()), k, entry, code)
      ensures SchedView() == old(SchedView()).(pmp := Remapped(old(pmp.View()), k, entry))
      ensures log == old(log).(installs := Bumped(old(log).installs, k))
    {
      InstallSlot(k, entry, code);
      RemapNow(k, entry);
      log := log.(installs := Bumped(log.installs, k));
    }

    method RearmNow(p: seq<Byte>)
      requires Valid()
      modifies `rows, `natLive, `retired, `log
      ensures Valid() && Nats() == RearmNats(old(Nats()), p) && log == RearmLog(old(Nats()), old(log), p)
    {
      if |p| != 4 || Word(p, 0) > 1 || !rows[Word(p, 0)].valid {
        return;
      }
      var k := Word(p, 0);
      rows := rows[k := rows[k].(evicted := false)];
      natLive, retired := k, false;
      log := log.(rearms := Bumped(log.rearms, k));
    }

    method StrikeOut() returns (moved: bool)
      requires Apart() && |rows| == 2 && rows[0].len <= NATIVE_TEXT && rows[1].len <= NATIVE_TEXT && natLive < 2
      modifies `rows, `natLive, `retired
      ensures |rows| == 2 && rows[0].len <= NATIVE_TEXT && rows[1].len <= NATIVE_TEXT && natLive < 2
      ensures Nats() == Struck(old(Nats())) && moved == old(Other(Nats()))
    {
      var dead, other := natLive, 1 - natLive;
      rows := rows[dead := rows[dead].(evicted := true)];
      moved := rows[other].valid && !rows[other].evicted;
      if moved {
        natLive, retired := other, false;
      } else {
        retired := true;
      }
    }

    /** The live native slot is struck out and the window moves to the other one when it can run. */
    method StrikeNow()
      requires Valid()
      modifies `rows, `natLive, `retired, `rolls, `log
      ensures Valid() && Nats() == Struck(old(Nats()))
      ensures Totals() == StrikeCounts(old(Nats()), old(Totals())) && log == StrikeLog(old(Nats()), old(log))
    {
      log := StrikeLog(Nats(), log);
      var moved := StrikeOut();
      if moved {
        rolls := rolls + 1;
      }
    }

    // ----- hot swap and its report -----

    method ApplyProgramNow(code: seq<U64>)
      requires Valid() && |code| <= SLOT_WORDS
      modifies `count, `countB, prog, progB, `loads, `log
      ensures Valid() && Progs() == Programs(code, old(Progs().live))
      ensures Totals() == old(Totals()).(loads := old(loads) + 1)
      ensures log == old(log).(programs := old(log).programs + 1)
    {
      SwapProgram(code);
      log := log.(programs := log.programs + 1);
      loads := loads + 1;
    }

    method ApplyNativeNow(k: nat, entry: U32, code: seq<Byte>)
      requires Valid() && k < 2 && |code| <= NATIVE_TEXT
      modifies `rows, `natLive, `retired, text0, text1, pmp`comps, pmp.cfg, pmp.addr, `loads, `log
      ensures Valid() && Nats() == Installed(old(Nats()), k, entry, code)
      ensures SchedView() == old(SchedView()).(pmp := Remapped(old(pmp.View()), k, entry))
      ensures Totals() == old(Totals()).(loads := old(loads) + 1)
      ensures log == old(log).(installs := Bumped(old(log).installs, k))
    {
      InstallNativeNow(k, entry, code);
      loads := loads + 1;
    }

    method ApplyNow(v: Verdict)
      requires Valid() && Fits(v)
      modifies `count, `countB, prog, progB, `rows, `natLive, `retired, text0, text1, pmp`comps, pmp.cfg, pmp.addr
      modifies `loads, `rejects, `log
      ensures Valid()
      ensures Progs() == ApplyProgs(old(Progs()), v) && Nats() == ApplyNats(old(Nats()), v)
      ensures Totals() == ApplyCounts(old(Totals()), v)
      ensures SchedView() == old(SchedView()).(pmp := ApplyTable(old(pmp.View()), v))
      ensures log == ApplyLog(old(log), v)
    {
      match v {
        case NoImage =>
        case Refused =>
          rejects := rejects + 1;
        case Native(k, entry, code) =>
          ApplyNativeNow(k, entry, code);
        case Program(code) =>
          ApplyProgramNow(code);
      }
    }

    /** The first half of `hot_swap`: is there an image, and what do the gates say of it. */
    method DecideNow(b: Build) returns (v: Verdict)
      requires Valid() && Proper(b)
      ensures v == Decision(b, update.State()) && Fits(v)
    {
      if update.magic != PEND_MAGIC {
        return NoImage;
      }
      v := InspectImage(b, update.pend[..]);
    }

    /** The second half: the swap, and the magic word consumed. */
    method SwapNow(v: Verdict)
      requires Valid() && Fits(v)
      modifies `count, `countB, prog, progB, `rows, `natLive, `retired, text0, text1, pmp`comps, pmp.cfg, pmp.addr
      modifies `loads, `rejects, `log, update`magic
      ensures Valid()
      ensures Progs() == ApplyProgs(old(Progs()), v) && Nats() == ApplyNats(old(Nats()), v)
      ensures LinkView() == ApplyLink(old(LinkView()), v) && Totals() == ApplyCounts(old(Totals()), v)
      ensures SchedView() == old(SchedView()).(pmp := ApplyTable(old(pmp.View()), v))
      ensures log == ApplyLog(old(log), v)
    {
      ApplyNow(v);
      if !v.NoImage? {
        update.magic := 0;
      }
    }

    method SwapAll(v: Verdict)
      requires Valid() && Fits(v)
      modifies `count, `countB, prog, progB, `rows, `natLive, `retired, text0, text1, pmp`comps, pmp.cfg, pmp.addr
      modifies `loads, `rejects, `log, update`magic
      ensures Valid() && View() == Apply(old(View()), v)
    {
      SwapNow(v);
    }

    /** `hot_swap`; the ghost result is what the gates said. */
    method HotSwapNow(b: Build) returns (ghost v: Verdict)
      requires Valid() && Proper(b)
      modifies `count, `countB, prog, progB, `rows, `natLive, `retired, text0, text1, pmp`comps, pmp.cfg, pmp.addr
      modifies `loads, `rejects, `log, update`magic
      ensures Valid() && v == Decision(b, old(update.State())) && Fits(v)
      ensures View() == Apply(old(View()), v)
    {
      var verdict := DecideNow(b);
      SwapAll(verdict);
      v := verdict;
    }

    /** `hot_update_finalize`: the verdict is entered and the reply sent, when one is due. */
    method FinalizeNow() returns (sent: seq<Sent>)
      requires Valid()
      modifies update`phase, update`finalCode
      ensures Valid() && LinkView() == Finalize(old(LinkView()), old(Totals()))
      ensures sent == FinalAnswer(old(LinkView()), old(Totals()))
    {
      if update.phase != Staged {
        return [];
      }
      if loads == seenLoads && rejects == seenRejects {
        return [];
      }
      var accepted := loads != seenLoads && rejects == seenRejects;
      update.FinishTransfer(accepted);
      sent := [Answer(Reply(update.id, update.nextSeq, if accepted then ACCEPT else REJECT,
                            if accepted then 0 else ERR_STATE))];
    }

    // ----- the channel -----

    method UpdateNow(b: Build, p: seq<Byte>) returns (sent: seq<Sent>)
      requires Valid() && Proper(b)
      modifies update, update.pend, `seenLoads, `seenRejects
      ensures Valid() && LinkView() == UpdateFrame(b, old(LinkView()), old(Totals()), p)
      ensures sent == old([Answer(Process(b.hash, update.State(), Parse(p)).reply)])
    {
      var accepted, reply := update.ProcessFrame(b.hash, p);
      sent := [Answer(reply)];
      if accepted && reply.code == STAGED {
        seenLoads, seenRejects := loads, rejects;
      }
    }

    method StageNow(image: seq<Byte>)
      requires Valid() && |image| <= MAX_IMAGE
      modifies update`magic, update.pend
      ensures Valid() && update.State() == Stage(old(update.State()), image)
    {
      update.CopyIn(0, image);
      update.magic := PEND_MAGIC;
    }

    method StageProgramNow(p: seq<Byte>)
      requires Valid()
      modifies update`magic, update.pend
      ensures Valid() && update.State() == StageProgram(old(update.State()), p)
    {
      if |p| < 40 || Word(p, 0) != PROG_MAGIC {
        return;
      }
      var cnt := Word(p, 1);
      if cnt == 0 || cnt > MAX_INSNS || |p| != 8 + 8 * cnt + 32 {
        return;
      }
      StageNow(Le32Bytes(cnt) + Le32Bytes(STAGED_EBPF) + p[8..]);
    }

    method StageNativeNow(p: seq<Byte>)
      requires Valid()
      modifies update`magic, update.pend
      ensures Valid() && update.State() == StageNative(old(update.State()), p)
    {
      if |p| < 16 || |p| > 0x200 {
        return;
      }
      StageNow(p);
    }

    /** `chan_poll` on one complete frame: the state it leaves, what it sends, and whether a new
        swarm was committed. */
    method PollNow(b: Build, kind: Byte, p: seq<Byte>) returns (swarm: bool, sent: seq<Sent>)
      requires Valid() && Proper(b)
      modifies update, update.pend, `seenLoads, `seenRejects, `rows, `natLive, `retired, `log
      ensures Valid() && LinkView() == PollLink(b, old(LinkView()), old(Totals()), kind, p)
      ensures Nats() == PollNats(old(Nats()), kind, p) && log == PollLog(old(Nats()), old(log), kind, p)
      ensures sent == PollSends(b, old(update.State()), kind, p)
      ensures swarm <==> kind == FRAME_SWARM && IsSwarm(p)
    {
      swarm, sent := kind == FRAME_SWARM && IsSwarm(p), [];
      if |p| == 0 {
        return;
      }
      if kind == FRAME_UPDATE {
        sent := UpdateNow(b, p);
      } else if kind == FRAME_PROGRAM {
        StageProgramNow(p);
      } else if kind == FRAME_STATUS {
        sent := if p[0] == 0 then [Counters] else [];
      } else if kind == FRAME_REARM {
        sent := if |p| == 4 then [Echo(p)] else [];
        RearmNow(p);
      } else if kind == FRAME_NATIVE {
        StageNativeNow(p);
      }
    }

    // ----- the schedule -----

    /** `enter_checked`. */
    method EnterChecked(i: nat)
      requires pmp.Valid() && i < 3
      modifies `at, `entries, pmp`comps, pmp.cfg, pmp.addr
      ensures pmp.Valid() && SchedView() == Enter(old(SchedView()), i)
    {
      if pmp.comps[i].evicted {
        at := ScheduleBug;
      } else {
        pmp.ArmNow(i);
        at := Inside(i);
        entries := entries + 1;
      }
    }

    method WireNow(b: Build)
      requires Valid()
      modifies pmp`comps, pmp.cfg, pmp.addr
      ensures pmp.Valid() && pmp.View() == Pmp.PerformAll(old(pmp.View()), Wiring(b, old(Nats())))
    {
      Pmp.PerformFour(pmp.View(), Pmp.Set(0, MONITOR, b.monitorEntry), Pmp.Set(1, ATTACKER, b.attackEntries[0]),
                      Pmp.Set(2, NatSpec(natLive), rows[natLive].entry), Pmp.Arm(0));
      pmp.SetUp(0, MONITOR, b.monitorEntry);
      pmp.SetUp(1, ATTACKER, b.attackEntries[0]);
      pmp.SetUp(2, NatSpec(natLive), rows[natLive].entry);
      pmp.ArmNow(0);
    }

    /** `hot_round`: reset the schedule, wire the compartments, arm and enter the monitor. */
    method RoundNow(b: Build)
      requires Valid()
      modifies `phase, `vector, `at, `entries, pmp`comps, pmp.cfg, pmp.addr
      ensures Valid() && SchedView() == Supervisor.StartRound(b, old(Nats()), old(SchedView()))
    {
      WireNow(b);
      phase, vector, entries := 1, 0, 0;
      EnterChecked(0);
    }

    /** `atk_schedule`. */
    method LifetimeNow(b: Build, v: nat)
      requires pmp.Valid() && v < LIFETIMES
      modifies `vector, `at, `entries, pmp`comps, pmp.cfg, pmp.addr
      ensures pmp.Valid() && SchedView() == Lifetime(b, old(SchedView()), v)
    {
      vector := v;
      Pmp.PerformTwo(pmp.View(), Pmp.Set(1, ATTACKER, b.attackEntries[v]), Pmp.Arm(1));
      pmp.SetUp(1, ATTACKER, b.attackEntries[v]);
      pmp.ArmNow(1);
      EnterChecked(1);
    }

    /** All lifetimes ran: the native compartment, or the end of the round. */
    method NativePhaseNow()
      requires Valid()
      modifies `phase, `vector, `at, `entries, pmp`comps, pmp.cfg, pmp.addr
      ensures pmp.Valid() && SchedView() == NativePhase(old(Nats()), old(SchedView()))
    {
      vector := vector + 1;
      if retired || !rows[natLive].valid || rows[natLive].evicted {
        at := Serving;
      } else {
        phase := 5;
        EnterChecked(2);
      }
    }

    /** `atk_advance`. */
    method AdvanceNow(b: Build)
      requires Valid()
      modifies `phase, `vector, `at, `entries, pmp`comps, pmp.cfg, pmp.addr
      ensures pmp.Valid() && SchedView() == Advance(b, old(Nats()), old(SchedView()))
    {
      if vector + 1 < LIFETIMES {
        LifetimeNow(b, vector + 1);
      } else {
        NativePhaseNow();
      }
    }

    method NextModeNow()
      requires pmp.Valid()
      modifies `phase, `at, `entries, pmp`comps, pmp.cfg, pmp.addr
      ensures pmp.Valid() && SchedView() == NextMode(old(SchedView()))
    {
      pmp.ArmNow(0);
      phase := phase + 1;
      EnterChecked(0);
    }

    method YieldNow(b: Build)
      requires Valid()
      modifies `phase, `vector, `at, `entries, pmp`comps, pmp.cfg, pmp.addr
      ensures pmp.Valid() && SchedView() == Yielded(b, old(Nats()), old(SchedView()))
    {
      if phase == 1 || phase == 2 {
        NextModeNow();
      } else if phase == 3 {
        phase := 4;
        LifetimeNow(b, 0);
      } else if phase == 4 {
        AdvanceNow(b);
      } else {
        at := Serving;
      }
    }

    method ResumeParts(b: Build, faulted: bool)
      requires Valid()
      modifies `phase, `vector, `at, `entries, pmp`comps, pmp.cfg, pmp.addr, `count, `countB, prog, `rolls, `log
      ensures Valid()
      ensures var blamed := old(phase) == 1 && faulted;
              && Progs() == RollbackProgs(old(Progs()), blamed)
              && Totals() == RollbackCounts(old(Progs()), old(Totals()), blamed)
              && log == RollbackLog(old(Progs()), old(log), blamed)
      ensures SchedView() == Yielded(b, old(Nats()), old(SchedView()))
    {
      if phase == 1 {
        RollbackNow(faulted);
      }
      YieldNow(b);
    }

    /** `supervisor_resume`. */
    method ResumeNow(b: Build, faulted: bool)
      requires Valid()
      modifies `phase, `vector, `at, `entries, pmp`comps, pmp.cfg, pmp.addr, `count, `countB, prog, `rolls, `log
      ensures Valid() && View() == Resume(b, old(View()), faulted)
    {
      ResumeParts(b, faulted);
      ResumeIs(b, old(View()), faulted, View());
    }

    method EndNow(b: Build)
      requires Valid() && at.Inside?
      modifies `phase, `vector, `at, `entries, pmp`comps, pmp.cfg, pmp.addr
      ensures pmp.Valid() && SchedView() == Ended(b, old(Nats()), old(SchedView()))
    {
      pmp.EvictNow(at.comp);
      if phase == 4 {
        AdvanceNow(b);
      } else if phase >= 5 {
        at := Serving;
      } else {
        at := Parked;
      }
    }

    method TrapParts(b: Build)
      requires Valid() && at.Inside?
      modifies `phase, `vector, `at, `entries, pmp`comps, pmp.cfg, pmp.addr, `rows, `natLive, `retired, `rolls, `log
      ensures Valid() && SchedView() == Ended(b, old(Nats()), old(SchedView()))
      ensures var native := old(phase) >= 5 && old(at).comp == 2;
              && Nats() == (if native then Struck(old(Nats())) else old(Nats()))
              && Totals() == (if native then StrikeCounts(old(Nats()), old(Totals())) else old(Totals()))
              && log == (if native then StrikeLog(old(Nats()), old(log)) else old(log))
    {
      var native := phase >= 5 && at.comp == 2;
      EndNow(b);
      if native {
        StrikeNow();
      }
    }

    /** `supervisor_fault`. */
    method TrapNow(b: Build)
      requires Valid() && at.Inside?
      modifies `phase, `vector, `at, `entries, pmp`comps, pmp.cfg, pmp.addr, `rows, `natLive, `retired, `rolls, `log
      ensures Valid() && View() == Trap(b, old(View()))
    {
      TrapParts(b);
      TrapIs(b, old(View()), View());
    }

    // ----- the service loop -----

    method RestartNow(b: Build, again: bool)
      requires Valid()
      modifies `phase, `vector, `at, `entries, pmp`comps, pmp.cfg, pmp.addr
      ensures pmp.Valid() && SchedView() == Restarted(b, old(Nats()), old(SchedView()), again)
    {
      if again {
        RoundNow(b);
      }
    }

    /** Report, perhaps a new round. */
    method ReportNow(b: Build, seen: nat, swarm: bool) returns (sent: seq<Sent>)
      requires Valid()
      modifies update`phase, update`finalCode, `phase, `vector, `at, `entries, pmp`comps, pmp.cfg, pmp.addr
      ensures Valid() && LinkView() == Finalize(old(LinkView()), Totals())
      ensures SchedView() == Restarted(b, Nats(), old(SchedView()), loads != seen || swarm)
      ensures sent == FinalAnswer(old(LinkView()), Totals())
    {
      var again := loads != seen || swarm;
      sent := FinalizeNow();
      RestartNow(b, again);
    }

    /** The same, as a step of the whole state. */
    method CloseNow(b: Build, seen: nat, swarm: bool) returns (sent: seq<Sent>)
      requires Valid()
      modifies update`phase, update`finalCode, `phase, `vector, `at, `entries, pmp`comps, pmp.cfg, pmp.addr
      ensures Valid()
      ensures View() == old(View()).(link := Finalize(old(LinkView()), old(Totals())),
                                     sched := Restarted(b, old(Nats()), old(SchedView()), old(loads) != seen || swarm))
      ensures sent == FinalAnswer(old(LinkView()), old(Totals()))
    {
      sent := ReportNow(b, seen, swarm);
    }

    /** The frame, as a step of the whole state. */
    method ReceiveNow(b: Build, kind: Byte, p: seq<Byte>) returns (swarm: bool, sent: seq<Sent>)
      requires Valid() && Proper(b)
      modifies update, update.pend, `seenLoads, `seenRejects, `rows, `natLive, `retired, `log
      ensures Valid() && View() == Poll(b, old(View()), kind, p)
      ensures sent == PollSends(b, old(update.State()), kind, p)
      ensures swarm <==> kind == FRAME_SWARM && IsSwarm(p)
    {
      swarm, sent := PollNow(b, kind, p);
    }

    /** One turn of the service loop. */
    method ServeNow(b: Build, kind: Byte, p: seq<Byte>) returns (sent: seq<Sent>)
      requires Valid() && Proper(b)
      modifies this, update, update.pend, prog, progB, text0, text1, pmp, pmp.cfg, pmp.addr
      ensures Valid() && View() == Serve(b, old(View()), kind, p)
      ensures sent == ServeSends(b, old(View()), kind, p)
    {
      var swarm, first := ReceiveNow(b, kind, p);
      ghost var polled := View();
      var seen := loads;
      ghost var v := HotSwapNow(b);
      ghost var swapped := View();
      var rest := CloseNow(b, seen, swarm);
      ConcludedIs(b, polled, swapped, v, swarm, View());
      ServeIs(b, old(View()), polled, v, kind, p, View(), first, rest);
      sent := first + rest;
    }

    /** `load_program`: a boot image goes through the same check; the slot stays empty otherwise. */
    method LoadProgram(area: seq<Byte>) returns (status: nat)
      requires Valid() && |area| >= 8 + 8 * MAX_INSNS && S.Booted(View()) && count == 0
      modifies `count, prog
      ensures Valid() && S.Booted(View())
      ensures BootLoaded(area, View().progs.live, status)
    {
      if Word(area, 0) != PROG_MAGIC {
        return 0;
      }
      var cnt := Word(area, 1);
      if cnt == 0 || cnt > MAX_INSNS {
        return 2;
      }
      LoadWords(area, cnt);
      var verdict := V.ProgramCheck(prog[..cnt]);
      if verdict != V.Accept {
        return 4;
      }
      count := cnt;
      return 1;
    }

    method LoadWords(area: seq<Byte>, cnt: nat)
      requires prog.Length == SLOT_WORDS && cnt <= MAX_INSNS && |area| >= 8 + 8 * cnt
      modifies prog
      ensures prog[..cnt] == Code(area, cnt)
    {
      for i := 0 to cnt
        invariant forall j | 0 <= j < i :: prog[j] == Code(area, cnt)[j]
      {
        prog[i] := LoadWord(area[8 + 8 * i..16 + 8 * i]);
      }
    }
  }

  /** The relation between a boot image, the program it leaves live and the recorded code. */
  ghost predicate BootLoaded(area: seq<Byte>, live: seq<U64>, status: nat)
    requires |area| >= 8 + 8 * MAX_INSNS
  {
    if Word(area, 0) != PROG_MAGIC then live == [] && status == 0
    else if Word(area, 1) == 0 || Word(area, 1) > MAX_INSNS then live == [] && status == 2
    else
      var code := Code(area, Word(area, 1));
      if D.Accepted(code) then live == code && status == 1 else live == [] && status == 4
  }
}
