/** When is the answer of `transfer` (tools/update_client.py) the verdict of the device on the image that
    was sent? The wait after STAGED takes the first verdict that arrives, whatever its id; here the device
    decides by its gates, and earlier transfers may have left verdicts on the wire or at the receiver. The
    condition, and why it is enough. */
module TrueAnswers {
  import opened Words
  import opened Update
  import opened Supervisor
  import opened Deployment
  import P = Protocol
  import V = Verdicts

  /** The verdict of the gates on the image that is sent. */
  ghost function TrueCode(j: P.Job, b: Build): Byte
    requires Whole(j.image)
  {
    VerdictCode(Inspect(b, j.image))
  }

  /** The staging area once these bytes complete the image a receiver has begun. */
  function Filled(d: Device, rest: seq<Byte>): (pend: seq<Byte>)
    requires d.rx.received + |rest| <= |d.pend|
    ensures |pend| == |d.pend|
  {
    Write(d.pend, d.rx.received, rest)
  }

  /** Whatever verdict the receiver can still give on the transfer it is on, it is this one. */
  ghost predicate Benign(b: Build, code: Byte, d: Device)
    requires Roomy(d)
  {
    match d.rx.phase
    case Idle => true
    case Active =>
      d.rx.received <= d.rx.total ==>
        forall rest | V.Completes(b.hash, d, rest) :: VerdictCode(Inspect(b, Filled(d, rest))) == code
    case Staged => false
    case Done => P.IsVerdictCode(d.rx.finalCode) ==> d.rx.finalCode == code
  }

  /** Every verdict among these replies is this one. */
  predicate Only(replies: set<Reply>, code: Byte) {
    forall r | r in replies && P.IsVerdict(r) :: r.code == code
  }

  /** Every verdict in flight, and every verdict an earlier transfer can still bring, is the one that the
      gates give on our image. */
  ghost predicate OnlyTrue(j: P.Job, b: Build, w: World)
    requires Roomy(w.st.link.dev) && Whole(j.image)
  {
    && Only(w.replies, TrueCode(j, b))
    && (w.st.link.dev.rx.id != j.tid ==> Benign(b, TrueCode(j, b), w.st.link.dev))
  }

  // ----- what frames do to a receiver on another transfer -----

  /** Only a receiver that is done answers a frame with a verdict, and it is the one it gave. */
  lemma FrameVerdict(hash: Hash, d: Device, w: Wire)
    requires Roomy(d) && WellSized(w) && P.IsVerdict(Process(hash, d, w).reply)
    ensures d.rx.phase == Done && Process(hash, d, w).reply.code == d.rx.finalCode
  {
  }

  lemma FilledOn(d: Device, d': Device, data: seq<Byte>, rest: seq<Byte>)
    requires d.rx.received + |data| + |rest| <= |d.pend| && d'.rx.received == d.rx.received + |data|
    requires d'.pend == Write(d.pend, d.rx.received, data)
    ensures Filled(d', rest) == Filled(d, data + rest)
    ensures d'.pend[..d'.rx.received] + rest == d.pend[..d.rx.received] + (data + rest)
  {
  }

  lemma AppendKeepsBenign(b: Build, code: Byte, d: Device, w: Wire)
    requires Roomy(d) && WellSized(w) && d.rx.phase == Active && Benign(b, code, d)
    ensures Benign(b, code, OnData(d, w).dev)
  {
    var d' := OnData(d, w).dev;
    if d' != d && d'.rx.received <= d'.rx.total {
      forall rest | V.Completes(b.hash, d', rest)
        ensures VerdictCode(Inspect(b, Filled(d', rest))) == code
      {
        FilledOn(d, d', w.data, rest);
        assert V.Completes(b.hash, d, w.data + rest);
      }
    }
  }

  lemma TheirsKeepsBenign(b: Build, code: Byte, d: Device, w: Wire)
    requires Roomy(d) && WellSized(w) && Benign(b, code, d) && w.op != OP_BEGIN
    requires Process(b.hash, d, w).dev.rx.phase != Staged
    ensures Benign(b, code, Process(b.hash, d, w).dev)
  {
    if d.rx.phase == Active && Process(b.hash, d, w) == OnData(d, w) {
      AppendKeepsBenign(b, code, d, w);
    }
  }

  lemma BeginKeepsDevice(j: P.Job, d: Device, w: Wire)
    requires Roomy(d) && WellSized(w) && w.op == OP_BEGIN && d.rx.id != j.tid && (w.id == j.tid || P.Stray(j, d, w))
    ensures var d' := Process(j.hash, d, w).dev; d' == d || d'.rx.id == j.tid
  {
  }

  lemma FrameKeepsBenign(j: P.Job, b: Build, code: Byte, d: Device, w: Wire)
    requires j.hash == b.hash && Roomy(d) && WellSized(w) && d.rx.id != j.tid && Benign(b, code, d)
    requires w.id == j.tid || P.Stray(j, d, w)
    ensures var d' := Process(b.hash, d, w).dev;
            d'.rx.phase != Staged && d'.rx.id != j.tid ==> Benign(b, code, d')
  {
    if w.op == OP_BEGIN {
      BeginKeepsDevice(j, d, w);
    } else if Process(b.hash, d, w).dev.rx.phase != Staged {
      TheirsKeepsBenign(b, code, d, w);
    }
  }

  // ----- the condition holds on along every run -----

  lemma BroughtId(j: P.Job, w: World, p: seq<Byte>)
    requires IsHash(j.hash) && P.Consistent(j, View(w)) && Brings(j, w, p)
    ensures Parse(p).id == j.tid || P.Stray(j, w.st.link.dev, Parse(p))
  {
    if p in w.sent {
      assert P.SentBy(j, w.client, p);
      V.OwnFrameIds(j, w.client, p);
    }
  }

  lemma PlainStaysTrue(j: P.Job, b: Build, boot: State, rolls: nat, w: World, w': World, p: seq<Byte>, r: Result)
    requires IsHash(b.hash) && j.hash == b.hash && Deployed(j, b, boot, rolls, w) && OnlyTrue(j, b, w)
    requires Turns(j, b, boot, w, w', Plain(p, r))
    ensures OnlyTrue(j, b, w')
  {
    BroughtId(j, w, p);
    var d := w.st.link.dev;
    if P.IsVerdict(r.reply) {
      FrameVerdict(b.hash, d, Parse(p));
    }
    if d.rx.id == j.tid {
      V.OurFrameKeepsOwn(j, d, Parse(p));
    } else {
      FrameKeepsBenign(j, b, TrueCode(j, b), d, Parse(p));
    }
  }

  /** A transfer that was benign is judged as foreseen. */
  lemma BenignJudged(b: Build, code: Byte, d: Device, w: Wire)
    requires Roomy(d) && WellSized(w) && Benign(b, code, d) && d.magic != PEND_MAGIC
    requires Process(b.hash, d, w).dev.rx.phase == Staged
    ensures VerdictCode(Inspect(b, d.pend)) == code
  {
    StagingIsAnnounced(b.hash, d, w);
    assert d.pend[..d.rx.received] + [] == d.pend[..d.rx.total];
    assert V.Completes(b.hash, d, []);
    assert Filled(d, []) == d.pend;
  }

  /** Whichever transfer is judged, the verdict is that on our image. */
  lemma JudgedCode(j: P.Job, b: Build, boot: State, rolls: nat, w: World, w': World, p: seq<Byte>, r: Result,
                   v: Verdict)
    requires IsHash(b.hash) && j.hash == b.hash && Deployed(j, b, boot, rolls, w) && OnlyTrue(j, b, w)
    requires Turns(j, b, boot, w, w', Judging(p, r, v))
    ensures VerdictCode(v) == TrueCode(j, b)
  {
    StagingIsAnnounced(b.hash, w.st.link.dev, Parse(p));
    if r.dev.rx.id == j.tid {
      Deployment.Delivered(j, View(w), View(w).(dev := r.dev, replies := w.replies + {r.reply}), p, r);
      StagedIsOurs(j, b, View(w).(dev := r.dev, replies := w.replies + {r.reply}));
    } else {
      BenignJudged(b, TrueCode(j, b), w.st.link.dev, Parse(p));
    }
  }

  lemma JudgedIsBenign(b: Build, d: Device, v: Verdict)
    requires Roomy(d) && d.rx.phase == Staged
    ensures Benign(b, VerdictCode(v), Judge(d, !v.Refused?))
  {
  }

  lemma OnlyWith(replies: set<Reply>, first: Reply, last: Reply, code: Byte)
    requires Only(replies, code) && !P.IsVerdict(first) && last.code == code
    ensures Only(replies + {first, last}, code)
  {
  }

  lemma JudgedReplies(j: P.Job, b: Build, boot: State, w: World, w': World, p: seq<Byte>, r: Result, v: Verdict,
                      code: Byte)
    requires Shaped(w.st) && NothingStaged(w.st.link.dev) && Only(w.replies, code) && VerdictCode(v) == code
    requires Turns(j, b, boot, w, w', Judging(p, r, v))
    ensures Only(w'.replies, code)
  {
    StagingIsAnnounced(b.hash, w.st.link.dev, Parse(p));
    OnlyWith(w.replies, r.reply, FinalReply(r.dev.rx, v), code);
  }

  lemma JudgedStaysTrue(j: P.Job, b: Build, boot: State, rolls: nat, w: World, w': World, p: seq<Byte>, r: Result,
                        v: Verdict)
    requires IsHash(b.hash) && j.hash == b.hash && Deployed(j, b, boot, rolls, w) && OnlyTrue(j, b, w)
    requires Turns(j, b, boot, w, w', Judging(p, r, v))
    ensures OnlyTrue(j, b, w')
  {
    JudgedCode(j, b, boot, rolls, w, w', p, r, v);
    JudgedReplies(j, b, boot, w, w', p, r, v, TrueCode(j, b));
    JudgedIsBenign(b, r.dev, v);
  }

  lemma ActStaysTrue(j: P.Job, b: Build, boot: State, rolls: nat, w: World, a: Act)
    requires IsHash(b.hash) && j.hash == b.hash && Deployed(j, b, boot, rolls, w) && Possible(j, w, a)
    requires OnlyTrue(j, b, w)
    ensures Roomy(After(j, b, w, a).st.link.dev) && OnlyTrue(j, b, After(j, b, w, a))
  {
    if a.Turn? {
      var o := TurnOutcome(j, b, boot, w, a.e);
      match o
      case Still =>
      case Plain(p, r) =>
        PlainStaysTrue(j, b, boot, rolls, w, After(j, b, w, a), p, r);
      case Judging(p, r, v) =>
        JudgedStaysTrue(j, b, boot, rolls, w, After(j, b, w, a), p, r, v);
    }
  }

  lemma MoveStaysTrue(j: P.Job, b: Build, boot: State, worlds: seq<World>, acts: seq<Act>, i: nat)
    requires IsRun(j, b, worlds, acts) && Begins(j, b, boot, worlds[0]) && i < |acts|
    requires Roomy(worlds[i].st.link.dev) && OnlyTrue(j, b, worlds[i])
    ensures Roomy(worlds[i + 1].st.link.dev) && OnlyTrue(j, b, worlds[i + 1])
  {
    DeployedAlong(j, b, boot, worlds, acts, i);
    assert Moves(j, b, worlds[i], acts[i], worlds[i + 1]);
    ActStaysTrue(j, b, boot, worlds[0].st.log.programRolls, worlds[i], acts[i]);
  }

  lemma {:induction false} StaysTrue(j: P.Job, b: Build, boot: State, worlds: seq<World>, acts: seq<Act>, i: nat)
    requires IsRun(j, b, worlds, acts) && Begins(j, b, boot, worlds[0]) && OnlyTrue(j, b, worlds[0]) && i < |worlds|
    ensures Roomy(worlds[i].st.link.dev) && OnlyTrue(j, b, worlds[i])
  {
    if i > 0 {
      StaysTrue(j, b, boot, worlds, acts, i - 1);
      MoveStaysTrue(j, b, boot, worlds, acts, i - 1);
    }
  }

  // ----- starts from which no transfer is ever answered -----

  /** The receiver refuses such a BEGIN always. */
  predicate Malformed(j: P.Job) {
    j.tid == 0 || |j.image| < 48
  }

  /** The client has no answer to its BEGIN and will get none: it is malformed, or the core is parked. */
  predicate Mute(j: P.Job, w: World) {
    && w.client == P.Beginning && w.st.link.dev.rx.id != j.tid
    && (Malformed(j) || w.st.sched.at.Parked?)
  }

  lemma FrameLeavesMute(j: P.Job, w: World, p: seq<Byte>)
    requires IsHash(j.hash) && P.Consistent(j, View(w)) && Mute(j, w) && Malformed(j) && Brings(j, w, p)
    ensures Process(j.hash, w.st.link.dev, Parse(p)).dev.rx.id != j.tid
  {
    if p in w.sent {
      V.OnlyBegin(j, View(w), p);
    }
    V.FrameKeepsClosed(j, w.st.link.dev, p);
  }

  lemma ActStaysMute(j: P.Job, b: Build, boot: State, rolls: nat, w: World, a: Act)
    requires IsHash(b.hash) && j.hash == b.hash && Deployed(j, b, boot, rolls, w) && Possible(j, w, a) && Mute(j, w)
    ensures Mute(j, After(j, b, w, a))
  {
    match a
    case Transmit =>
    case Receive(r) =>
      V.NoAnswerYet(j, View(w), r);
    case Turn(e) =>
      var o := TurnOutcome(j, b, boot, w, e);
      if !o.Still? {
        FrameLeavesMute(j, w, o.p);
      }
  }

  lemma MoveStaysMute(j: P.Job, b: Build, boot: State, worlds: seq<World>, acts: seq<Act>, i: nat)
    requires IsRun(j, b, worlds, acts) && Begins(j, b, boot, worlds[0]) && i < |acts| && Mute(j, worlds[i])
    ensures Mute(j, worlds[i + 1])
  {
    DeployedAlong(j, b, boot, worlds, acts, i);
    assert Moves(j, b, worlds[i], acts[i], worlds[i + 1]);
    ActStaysMute(j, b, boot, worlds[0].st.log.programRolls, worlds[i], acts[i]);
  }

  lemma {:induction false} StaysMute(j: P.Job, b: Build, boot: State, worlds: seq<World>, acts: seq<Act>, i: nat)
    requires IsRun(j, b, worlds, acts) && Begins(j, b, boot, worlds[0]) && Mute(j, worlds[0]) && i < |worlds|
    ensures Mute(j, worlds[i])
  {
    if i > 0 {
      StaysMute(j, b, boot, worlds, acts, i - 1);
      MoveStaysMute(j, b, boot, worlds, acts, i - 1);
    }
  }

  // ----- what an answer means -----

  /** Whatever happens from here on, an answer of `transfer` is the verdict of the gates on its image. */
  ghost predicate AnswersTruly(j: P.Job, b: Build, w: World)
    requires Whole(j.image)
  {
    forall worlds: seq<World>, acts: seq<Act>, code: Byte ::
      IsRun(j, b, worlds, acts) && worlds[0] == w && Returns(worlds[|acts|], code) ==> code == TrueCode(j, b)
  }

  /** The exact condition on the start. */
  ghost predicate TrueStart(j: P.Job, b: Build, w: World)
    requires Roomy(w.st.link.dev) && Whole(j.image)
  {
    Malformed(j) || w.st.sched.at.Parked? || OnlyTrue(j, b, w)
  }

  lemma TrueStartAnswers(j: P.Job, b: Build, boot: State, worlds: seq<World>, acts: seq<Act>, code: Byte)
    requires IsRun(j, b, worlds, acts) && Begins(j, b, boot, worlds[0]) && TrueStart(j, b, worlds[0])
    requires Returns(worlds[|acts|], code)
    ensures code == TrueCode(j, b)
  {
    DeployedAlong(j, b, boot, worlds, acts, |acts|);
    FinishedIsGiven(j, b, boot, worlds[0].st.log.programRolls, worlds[|acts|]);
    if OnlyTrue(j, b, worlds[0]) {
      StaysTrue(j, b, boot, worlds, acts, |acts|);
    } else {
      StaysMute(j, b, boot, worlds, acts, |acts|);
    }
  }
}
