/** Runs from boot in which the bytes an earlier image left in the staging area decide the answer to a
    transfer. */
module StaleBytes {
  import opened Words
  import opened Update
  import opened Isa
  import opened Supervisor
  import opened Images
  import D = Dataflow
  import Deployment
  import Leftovers
  import P = Protocol
  import S = Safety

  /** Some run from boot comes to this state. */
  ghost predicate Reachable(b: Build, boot: State, s: State) {
    Shaped(s) && exists states, steps :: S.FromBoot(b, boot, states, steps) && states[|steps|] == s
  }

  lemma ReachInvariant(b: Build, boot: State, s: State)
    requires Reachable(b, boot, s)
    ensures Invariant(b, boot, s)
  {
    var states, steps :| S.FromBoot(b, boot, states, steps) && states[|steps|] == s;
    S.EveryState(b, boot, states, steps, |steps|);
  }

  lemma ReachNext(b: Build, boot: State, s: State, e: Step, s': State)
    requires Reachable(b, boot, s) && S.Moves(b, s, e, s')
    ensures Reachable(b, boot, s')
  {
    var states, steps :| S.FromBoot(b, boot, states, steps) && states[|steps|] == s;
    var longer, more := states + [s'], steps + [e];
    forall i | 0 <= i < |more|
      ensures S.Moves(b, longer[i], more[i], longer[i + 1])
    {
      if i < |steps| {
        assert S.Moves(b, states[i], steps[i], states[i + 1]);
      }
    }
    assert S.FromBoot(b, boot, longer, more);
  }

  /** Clean yields bring the core back to the service loop, and change the schedule only. */
  lemma {:induction false} ToService(b: Build, boot: State, s: State) returns (s': State)
    requires Reachable(b, boot, s) && (s.sched.at.Inside? || s.sched.at.Serving?)
    ensures Reachable(b, boot, s') && s'.sched.at.Serving? && s' == s.(sched := s'.sched)
    decreases s.sched.at.Inside?, 12 - s.sched.entries
  {
    s' := s;
    if s.sched.at.Inside? {
      ReachInvariant(b, boot, s);
      var next := S.YieldMoves(b, boot, s);
      ReachNext(b, boot, s, Yield(false), next);
      s' := ToService(b, boot, next);
    }
  }

  lemma FirstService(b: Build, boot: State) returns (s: State)
    requires S.Booted(boot)
    ensures Reachable(b, boot, s) && s.sched.at.Serving? && s == boot.(sched := s.sched)
  {
    var first := S.Started(b, boot);
    assert S.FromBoot(b, boot, [first], []);
    S.StartsAtMonitor(b, boot.nats, boot.sched);
    s := ToService(b, boot, first);
  }

  /** A frame, and the round it may start. */
  lemma Served(b: Build, boot: State, s: State, kind: Byte, p: seq<Byte>) returns (s': State)
    requires Reachable(b, boot, s) && s.sched.at.Serving?
    ensures Reachable(b, boot, s') && s'.sched.at.Serving? && Serve(b, s, kind, p).link == s'.link
  {
    ReachInvariant(b, boot, s);
    S.ServeStays(b, boot, s, kind, p);
    var next := Serve(b, s, kind, p);
    ReachNext(b, boot, s, Step.Frame(kind, p), next);
    s' := ToService(b, boot, next);
  }

  // ----- a program frame -----

  function ProgramFrame(ins: seq<U64>, digest: seq<Byte>): seq<Byte>
    requires |ins| <= MAX_INSNS
  {
    Le32Bytes(PROG_MAGIC) + Le32Bytes(|ins|) + CodeBytes(ins) + digest
  }

  lemma FrameParts(x: seq<Byte>, y: seq<Byte>, code: seq<Byte>, digest: seq<Byte>, p: seq<Byte>)
    requires |x| == |y| == 4 && p == x + y + code + digest
    ensures |p| == 8 + |code| + |digest| && p[..8] == x + y && p[8..] == code + digest
  {
  }

  lemma FrameHeader(ins: seq<U64>, digest: seq<Byte>, p: seq<Byte>)
    requires 0 < |ins| <= MAX_INSNS && |digest| == 32 && p == ProgramFrame(ins, digest)
    ensures |p| == 8 + 8 * |ins| + 32 && Word(p, 0) == PROG_MAGIC && Word(p, 1) == |ins|
    ensures p[8..] == CodeBytes(ins) + digest
  {
    FrameParts(Le32Bytes(PROG_MAGIC), Le32Bytes(|ins|), CodeBytes(ins), digest, p);
    HeaderWords(p, PROG_MAGIC, |ins|);
  }

  lemma ProgramStaged(d: Device, p: seq<Byte>, cnt: nat, image: seq<Byte>)
    requires Roomy(d) && 0 < cnt <= MAX_INSNS && |p| == 8 + 8 * cnt + 32
    requires Word(p, 0) == PROG_MAGIC && Word(p, 1) == cnt
    requires image == Le32Bytes(cnt) + Le32Bytes(STAGED_EBPF) + p[8..]
    ensures |image| <= |d.pend| && StageProgram(d, p) == Stage(d, image)
  {
  }

  lemma Joined(head: seq<Byte>, code: seq<Byte>, digest: seq<Byte>, rest: seq<Byte>)
    requires rest == code + digest
    ensures head + rest == head + code + digest
  {
  }

  /** It leaves its image at the front of the staging area, whatever its digest and the verdict. */
  lemma FrameLeaves(b: Build, s: State, ins: seq<U64>, digest: seq<Byte>, p: seq<Byte>, image: seq<Byte>)
    requires Shaped(s) && NothingStaged(s.link.dev) && 0 < |ins| <= MAX_INSNS && |digest| == 32
    requires p == ProgramFrame(ins, digest) && image == BodyOf(ins) + digest
    ensures Serve(b, s, FRAME_PROGRAM, p).link.dev
         == s.link.dev.(pend := Write(s.link.dev.pend, 0, image), magic := 0)
  {
    FrameHeader(ins, digest, p);
    Joined(Le32Bytes(|ins|) + Le32Bytes(STAGED_EBPF), CodeBytes(ins), digest, p[8..]);
    ProgramStaged(s.link.dev, p, |ins|, image);
    StagedTurn(b, s, p, image);
  }

  lemma StagedTurn(b: Build, s: State, p: seq<Byte>, image: seq<Byte>)
    requires Shaped(s) && NothingStaged(s.link.dev) && |p| > 0 && |image| <= |s.link.dev.pend|
    requires StageProgram(s.link.dev, p) == Stage(s.link.dev, image)
    ensures Serve(b, s, FRAME_PROGRAM, p).link.dev
         == s.link.dev.(pend := Write(s.link.dev.pend, 0, image), magic := 0)
  {
  }

  // ----- a transfer of its first bytes -----

  const LEAD: int := 48

  lemma Announce(hash: Hash, d: Device, image: P.Image)
    requires IsHash(hash) && Roomy(d) && d.rx.phase == Idle && d.magic != PEND_MAGIC && |image| == LEAD
    ensures Process(hash, d, Parse(P.BeginFrame(hash, 1, image))).dev
         == d.(rx := Rx(1, LEAD, 0, 0, hash(image), Active, 0), magic := 0)
  {
    P.BeginFields(hash, 1, image);
    AnnounceRead(hash, d, Parse(P.BeginFrame(hash, 1, image)), image, hash(image));
  }

  lemma AnnounceRead(hash: Hash, d: Device, w: Wire, image: P.Image, digest: seq<Byte>)
    requires Roomy(d) && d.rx.phase == Idle && d.magic != PEND_MAGIC && |image| == LEAD
    requires WellSized(w) && P.IsBegin(w, 1, image, digest)
    ensures Process(hash, d, w).dev == d.(rx := Rx(1, LEAD, 0, 0, digest, Active, 0), magic := 0)
  {
  }

  lemma Bring(hash: Hash, d: Device, digest: seq<Byte>)
    requires Roomy(d) && d.rx == Rx(1, LEAD, 0, 0, digest, Active, 0)
    ensures Process(hash, d, Parse(P.DataBytes(1, 0, 0, d.pend[..LEAD]))).dev
         == d.(rx := Rx(1, LEAD, LEAD, 1, digest, Active, 0))
  {
    P.DataBytesFields(1, 0, 0, d.pend[..LEAD]);
    BringRead(hash, d, Parse(P.DataBytes(1, 0, 0, d.pend[..LEAD])), digest);
  }

  lemma BringRead(hash: Hash, d: Device, w: Wire, digest: seq<Byte>)
    requires Roomy(d) && d.rx == Rx(1, LEAD, 0, 0, digest, Active, 0)
    requires WellSized(w) && w.n == 12 + LEAD && w.op == OP_DATA && w.id == 1 && w.crcOk
    requires w.w5 == 0 && w.w7 == 0 && w.b9 == LEAD && w.data == d.pend[..LEAD]
    ensures Process(hash, d, w).dev == d.(rx := Rx(1, LEAD, LEAD, 1, digest, Active, 0))
  {
    assert Write(d.pend, 0, d.pend[..LEAD]) == d.pend;
  }

  lemma UpdateServed(b: Build, boot: State, s: State, p: seq<Byte>, d: Device) returns (s': State)
    requires Reachable(b, boot, s) && s.sched.at.Serving? && |p| > 0
    requires d == Process(b.hash, s.link.dev, Parse(p)).dev && d.rx.phase != Staged
    ensures Reachable(b, boot, s') && s'.sched.at.Serving? && s'.link.dev == d
  {
    ReachInvariant(b, boot, s);
    Deployment.PlainTurn(b, s, p, Process(b.hash, s.link.dev, Parse(p)));
    s' := Served(b, boot, s, FRAME_UPDATE, p);
  }

  lemma FrameServed(b: Build, boot: State, s: State, ins: seq<U64>, digest: seq<Byte>, p: seq<Byte>, image: seq<Byte>)
    returns (s': State)
    requires Reachable(b, boot, s) && s.sched.at.Serving? && 0 < |ins| <= MAX_INSNS && |digest| == 32
    requires p == ProgramFrame(ins, digest) && image == BodyOf(ins) + digest
    ensures Reachable(b, boot, s') && s'.sched.at.Serving?
    ensures s'.link.dev == s.link.dev.(pend := Write(s.link.dev.pend, 0, image), magic := 0)
  {
    ReachInvariant(b, boot, s);
    FrameLeaves(b, s, ins, digest, p, image);
    s' := Served(b, boot, s, FRAME_PROGRAM, p);
  }

  lemma ImageLeft(b: Build, boot: State, ins: seq<U64>, digest: seq<Byte>, image: seq<Byte>) returns (s: State)
    requires S.Booted(boot) && 2 <= |ins| <= MAX_INSNS && |digest| == 32 && image == BodyOf(ins) + digest
    ensures Reachable(b, boot, s) && s.sched.at.Serving?
    ensures s.link.dev == boot.link.dev.(pend := Write(boot.link.dev.pend, 0, image), magic := 0)
  {
    s := FirstService(b, boot);
    s := FrameServed(b, boot, s, ins, digest, ProgramFrame(ins, digest), image);
  }

  /** From any boot the device comes to a transfer of the first 48 bytes of a program image, complete and
      with its digest, while the rest of that image lies behind them. */
  lemma LeftBehind(b: Build, boot: State, ins: seq<U64>, digest: seq<Byte>, image: seq<Byte>) returns (s: State)
    requires IsHash(b.hash) && S.Booted(boot) && 2 <= |ins| <= MAX_INSNS && |digest| == 32
    requires image == BodyOf(ins) + digest
    ensures Reachable(b, boot, s) && s.sched.at.Serving? && Invariant(b, boot, s)
    ensures var pend := s.link.dev.pend;
            && pend == Write(boot.link.dev.pend, 0, image)
            && s.link.dev.rx == Rx(1, LEAD, LEAD, 1, b.hash(pend[..LEAD]), Active, 0)
  {
    s := ImageLeft(b, boot, ins, digest, image);
    s := Transferred(b, boot, s);
    ReachInvariant(b, boot, s);
  }

  lemma Transferred(b: Build, boot: State, s: State) returns (s': State)
    requires IsHash(b.hash) && Reachable(b, boot, s) && s.sched.at.Serving?
    requires s.link.dev.rx.phase == Idle && s.link.dev.magic != PEND_MAGIC
    ensures Reachable(b, boot, s') && s'.sched.at.Serving?
    ensures var pend := s.link.dev.pend;
            s'.link.dev == Device(Rx(1, LEAD, LEAD, 1, b.hash(pend[..LEAD]), Active, 0), pend, 0)
  {
    var d := s.link.dev;
    var image: P.Image := d.pend[..LEAD];
    Announce(b.hash, d, image);
    var begun := d.(rx := Rx(1, LEAD, 0, 0, b.hash(image), Active, 0), magic := 0);
    s' := UpdateServed(b, boot, s, P.BeginFrame(b.hash, 1, image), begun);
    Bring(b.hash, begun, b.hash(image));
    var full := begun.(rx := Rx(1, LEAD, LEAD, 1, b.hash(image), Active, 0));
    s' := UpdateServed(b, boot, s', P.DataBytes(1, 0, 0, image), full);
  }

  // ----- answered both ways -----

  function Spoil(digest: seq<Byte>): (r: seq<Byte>)
    requires |digest| == 32
    ensures |r| == 32 && r != digest && r[..31] == digest[..31]
  {
    assert digest[31 := if digest[31] == 0 then 1 else 0][31] != digest[31];
    digest[31 := if digest[31] == 0 then 1 else 0]
  }

  lemma WrittenPart(pend: seq<Byte>, a: seq<Byte>, n: nat, k: nat)
    requires n <= k <= |a| <= |pend|
    ensures Write(pend, 0, a)[n..k] == a[n..k]
  {
  }

  lemma ProgramBody(pend: seq<Byte>, cnt: nat, body: seq<Byte>, digest: seq<Byte>, staged: seq<Byte>)
    requires |pend| >= MAX_IMAGE && 2 <= cnt <= MAX_INSNS && |body| == 8 + 8 * cnt && |digest| == 32
    requires body[..8] == Le32Bytes(cnt) + Le32Bytes(STAGED_EBPF) && staged == Write(pend, 0, body + digest)
    ensures BodyLength(staged) == |body| && staged[..|body|] == body && staged[|body|..|body| + 32] == digest
  {
    var image := body + digest;
    WrittenPart(pend, image, 0, |body|);
    WrittenPart(pend, image, |body|, |body| + 32);
    WrittenPart(pend, image, 0, 8);
    assert image[0..8] == body[..8];
    HeaderWords(staged, cnt, STAGED_EBPF);
  }

  lemma Rejected(b: Build, p: seq<Byte>, end: nat)
    requires |p| >= MAX_IMAGE && BodyLength(p) == end && end + 32 <= |p| && b.hash(p[..end]) != p[end..end + 32]
    ensures Inspect(b, p).Refused?
  {
  }

  lemma SpoiltRefused(b: Build, pend: seq<Byte>, cnt: nat, body: seq<Byte>, digest: seq<Byte>, staged: seq<Byte>)
    requires |pend| >= MAX_IMAGE && 2 <= cnt <= MAX_INSNS && |body| == 8 + 8 * cnt && |digest| == 32
    requires body[..8] == Le32Bytes(cnt) + Le32Bytes(STAGED_EBPF) && staged == Write(pend, 0, body + digest)
    requires b.hash(body) != digest
    ensures Inspect(b, staged).Refused?
  {
    ProgramBody(pend, cnt, body, digest, staged);
    Rejected(b, staged, |body|);
  }

  lemma BodyHead(ins: seq<U64>, body: seq<Byte>)
    requires |ins| <= MAX_INSNS && body == BodyOf(ins)
    ensures body[..8] == Le32Bytes(|ins|) + Le32Bytes(STAGED_EBPF)
  {
  }

  lemma GenuinePasses(b: Build, pend: seq<Byte>, ins: seq<U64>, image: seq<Byte>)
    requires IsHash(b.hash) && |pend| >= MAX_IMAGE && D.Accepted(ins) && 2 <= |ins| <= MAX_INSNS
    requires b.hash(BodyOf(ins)) in b.pinned && image == ImageOf(b.hash, ins)
    ensures Inspect(b, Write(pend, 0, image)) == Program(ins)
  {
    ImageOfIsToolImage(b.hash, ins);
    assert image[..8 + 8 * |ins|] == BodyOf(ins);
    ToolImagePasses(b, ins, image, |ins|);
    WriteInspects(b, pend, image);
  }

  /** The leads of the two images are the same. */
  lemma SameLead(pend: seq<Byte>, body: seq<Byte>, digest: seq<Byte>)
    requires |pend| >= MAX_IMAGE && |digest| == 32 && 24 <= |body| && |body| + 32 <= MAX_IMAGE
    ensures Write(pend, 0, body + digest)[..LEAD] == Write(pend, 0, body + Spoil(digest))[..LEAD]
  {
    var x, y := body + digest, body + Spoil(digest);
    assert x[..|body| + 31] == body + digest[..31] == body + Spoil(digest)[..31] == y[..|body| + 31];
    assert x[..LEAD] == x[..|body| + 31][..LEAD] == y[..|body| + 31][..LEAD] == y[..LEAD];
    WrittenPart(pend, x, 0, LEAD);
    WrittenPart(pend, y, 0, LEAD);
  }

  /** The same receiver: the id, the length, the digest and the bytes of the transfer. */
  predicate SameTransfer(s: State, t: State)
    requires Shaped(s) && Shaped(t)
  {
    s.link.dev.rx == t.link.dev.rx && s.link.dev.pend[..s.link.dev.rx.total] == t.link.dev.pend[..s.link.dev.rx.total]
  }

  /** From any boot, for any pinned and accepted program of two instructions or more, two runs come to the
      same transfer, complete and with the announced digest. In one the COMMIT is answered ACCEPT, and the
      program goes live though the transfer did not bring it; in the other it is answered REJECT, and the
      program slots stay. */
  lemma BothAnswers(b: Build, boot: State, ins: seq<U64>) returns (s: State, t: State)
    requires IsHash(b.hash) && S.Booted(boot) && D.Accepted(ins) && 2 <= |ins| && b.hash(BodyOf(ins)) in b.pinned
    ensures Reachable(b, boot, s) && Reachable(b, boot, t) && Invariant(b, boot, s) && Invariant(b, boot, t)
    ensures SameTransfer(s, t) && s.link.dev.rx.phase == Active && s.link.dev.rx.received == s.link.dev.rx.total
    ensures b.hash(s.link.dev.pend[..s.link.dev.rx.total]) == s.link.dev.rx.expected
    ensures var s' := Serve(b, s, FRAME_UPDATE, P.CommitFrame(1));
            s'.link.dev.rx.finalCode == ACCEPT && s'.progs == Programs(ins, s.progs.live)
    ensures var t' := Serve(b, t, FRAME_UPDATE, P.CommitFrame(1));
            t'.link.dev.rx.finalCode == REJECT && t'.progs == t.progs && t'.nats == t.nats
  {
    var body, digest := BodyOf(ins), b.hash(BodyOf(ins));
    s := LeftBehind(b, boot, ins, digest, body + digest);
    t := LeftBehind(b, boot, ins, Spoil(digest), body + Spoil(digest));
    SameLead(boot.link.dev.pend, body, digest);
    GenuinePasses(b, boot.link.dev.pend, ins, body + digest);
    BodyHead(ins, body);
    SpoiltRefused(b, boot.link.dev.pend, |ins|, body, Spoil(digest), t.link.dev.pend);
    Leftovers.CommitServed(b, s, P.CommitFrame(1));
    Leftovers.CommitServed(b, t, P.CommitFrame(1));
  }
}
