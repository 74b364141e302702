/** The wait of the client after STAGED (tools/update_client.py): it takes the first verdict that
    arrives, whatever its id. When is that verdict the receiver's on this image? */
module Verdicts {
  import opened Words
  import opened Update
  import opened Protocol

  /** The last loop of `transfer` takes the first verdict that arrives, whatever id it carries. */
  predicate Concludes(s: Sys, r: Reply) {
    s.client == Finished(STAGED) && r in s.replies && IsVerdict(r)
  }

  /** The verdict the client takes is the one the receiver has given on this image. */
  predicate TrueAnswer(j: Job, d: Device, r: Reply) {
    d.rx.id == j.tid && d.rx.phase == Done && d.rx.finalCode == r.code
  }

  /** Whatever happens from `s` on, a client that concludes has the receiver's verdict. */
  ghost predicate Truthful(j: Job, s: Sys) {
    forall states: seq<Sys>, actions: seq<Action>, r: Reply ::
      IsRun(j, states, actions) && states[0] == s && Concludes(states[|actions|], r) ==>
        TrueAnswer(j, states[|actions|].dev, r)
  }

  /** Some bytes complete the image the receiver has begun to what was announced. */
  ghost predicate Completable(hash: Hash, d: Device)
    requires Roomy(d)
  {
    d.rx.received <= d.rx.total && exists rest :: Completes(hash, d, rest)
  }

  predicate Completes(hash: Hash, d: Device, rest: seq<Byte>)
    requires Roomy(d) && d.rx.received <= d.rx.total
  {
    d.rx.received + |rest| == d.rx.total && hash(d.pend[..d.rx.received] + rest) == d.rx.expected
  }

  /** The receiver has nothing to say on the transfer it is on, and never will: it is not done with a
      verdict, has no image staged, and what it has begun cannot be completed. */
  ghost predicate Quiet(hash: Hash, d: Device)
    requires Roomy(d)
  {
    match d.rx.phase
    case Idle => true
    case Active => !Completable(hash, d)
    case Staged => false
    case Done => d.rx.finalCode != ACCEPT && d.rx.finalCode != REJECT
  }

  /** No verdict of an earlier transfer is in flight or can still come. */
  ghost predicate NoOldVerdict(j: Job, s: Sys)
    requires Roomy(s.dev)
  {
    Quiet(j.hash, s.dev) && forall r | r in s.replies :: !IsVerdict(r)
  }

  /** The receiver refuses our BEGIN for good: it is malformed, or the staging area is taken while
      no transfer is there to give it back. */
  predicate Closed(j: Job, d: Device) {
    j.tid == 0 || |j.image| < 48 || (d.magic == PEND_MAGIC && !Busy(d))
  }

  // ----- without an old verdict the answer is true -----

  /** Every verdict in flight is ours, and a receiver on another transfer has none to give. */
  ghost predicate OwnVerdicts(j: Job, s: Sys)
    requires Roomy(s.dev)
  {
    && (forall r | r in s.replies && IsVerdict(r) :: r.id == j.tid)
    && (s.dev.rx.id != j.tid ==> Quiet(j.hash, s.dev))
  }

  lemma AppendKeepsQuiet(hash: Hash, d: Device, w: Wire)
    requires Roomy(d) && WellSized(w) && d.rx.phase == Active && !Completable(hash, d)
    ensures Quiet(hash, OnData(d, w).dev)
  {
    var d' := OnData(d, w).dev;
    if d' != d && Completable(hash, d') {
      var rest :| Completes(hash, d', rest);
      assert d'.pend[..d'.rx.received] + rest == d.pend[..d.rx.received] + (w.data + rest);
      assert Completes(hash, d, w.data + rest);
    }
  }

  lemma CommitKeepsQuiet(hash: Hash, d: Device, w: Wire)
    requires Roomy(d) && Quiet(hash, d)
    ensures Quiet(hash, OnCommit(hash, d, w).dev) && !IsVerdict(OnCommit(hash, d, w).reply)
  {
    if d.rx.phase == Active && d.rx.received == d.rx.total {
      assert d.pend[..d.rx.received] + [] == d.pend[..d.rx.total];
      assert !Completes(hash, d, []);
    }
  }

  /** Frames of the transfer it is on leave a quiet receiver quiet. */
  lemma TheirsKeepsQuiet(hash: Hash, d: Device, w: Wire)
    requires Roomy(d) && WellSized(w) && Quiet(hash, d) && w.op != OP_BEGIN
    ensures Quiet(hash, Process(hash, d, w).dev) && !IsVerdict(Process(hash, d, w).reply)
  {
    if d.rx.phase == Active && Process(hash, d, w) == OnData(d, w) {
      AppendKeepsQuiet(hash, d, w);
    } else {
      CommitKeepsQuiet(hash, d, w);
    }
  }

  /** A BEGIN starts our transfer on a quiet receiver, or leaves it as it is. */
  lemma BeginKeepsQuiet(hash: Hash, d: Device, w: Wire)
    requires Roomy(d) && WellSized(w) && Quiet(hash, d) && w.op == OP_BEGIN
    ensures var r := Process(hash, d, w);
            (r.dev == d || (r.dev.rx.id == w.id && !Busy(d))) && (IsVerdict(r.reply) ==> r.reply.id == w.id)
  {
  }

  lemma FrameKeepsOwn(j: Job, d: Device, w: Wire)
    requires Roomy(d) && WellSized(w) && d.rx.id != j.tid && Quiet(j.hash, d)
    requires w.id == j.tid || Stray(j, d, w)
    ensures var r := Process(j.hash, d, w);
            && (r.dev.rx.id != j.tid ==> Quiet(j.hash, r.dev))
            && (IsVerdict(r.reply) ==> r.reply.id == j.tid)
  {
    if w.op != OP_BEGIN {
      TheirsKeepsQuiet(j.hash, d, w);
    } else {
      BeginKeepsQuiet(j.hash, d, w);
      if w.id != j.tid {
        LateBegin(j, d, w);
      }
    }
  }

  lemma LateBegin(j: Job, d: Device, w: Wire)
    requires Roomy(d) && WellSized(w) && w.op == OP_BEGIN && w.id != j.tid && Stray(j, d, w) && Quiet(j.hash, d)
    ensures Process(j.hash, d, w).dev == d && !IsVerdict(Process(j.hash, d, w).reply)
  {
  }

  lemma TheirFrameRefused(j: Job, d: Device, w: Wire)
    requires Roomy(d) && WellSized(w) && OnJob(j, d) && w.id != j.tid && Stray(j, d, w)
    ensures var r := Process(j.hash, d, w); r.dev.rx.id == j.tid && r.reply.code == NACK
  {
  }

  lemma OurFrameAnswered(j: Job, d: Device, w: Wire)
    requires Roomy(d) && WellSized(w) && OnJob(j, d) && w.id == j.tid
    ensures var r := Process(j.hash, d, w); r.dev.rx.id == j.tid && r.reply.id == j.tid
  {
  }

  /** A receiver on our transfer stays there, and answers others without a verdict. */
  lemma OurFrameKeepsOwn(j: Job, d: Device, w: Wire)
    requires Roomy(d) && WellSized(w) && OnJob(j, d) && (w.id == j.tid || Stray(j, d, w))
    ensures var r := Process(j.hash, d, w);
            r.dev.rx.id == j.tid && (IsVerdict(r.reply) ==> r.reply.id == j.tid)
  {
    if w.id == j.tid {
      OurFrameAnswered(j, d, w);
    } else {
      TheirFrameRefused(j, d, w);
    }
  }

  lemma OwnFrameIds(j: Job, c: Client, p: seq<Byte>)
    requires IsHash(j.hash) && SentBy(j, c, p)
    ensures Parse(p).id == j.tid
  {
    if p == BeginFrame(j.hash, j.tid, j.image) {
      BeginFields(j.hash, j.tid, j.image);
    } else if p == CommitFrame(j.tid) {
      CommitFields(j.tid);
    } else {
      var i: nat :| i < ChunkCount(j.image) && p == DataFrame(j.tid, j.image, i);
      DataFields(j.tid, j.image, i);
    }
  }

  lemma ReplyKeepsOwn(j: Job, s: Sys, d: Device, reply: Reply)
    requires Roomy(s.dev) && Roomy(d) && OwnVerdicts(j, s)
    requires (d.rx.id != j.tid ==> Quiet(j.hash, d)) && (IsVerdict(reply) ==> reply.id == j.tid)
    ensures OwnVerdicts(j, s.(dev := d, replies := s.replies + {reply}))
  {
  }

  lemma DeliveryKeepsOwn(j: Job, s: Sys, p: seq<Byte>)
    requires IsHash(j.hash) && Consistent(j, s) && Enabled(j, s, DeliverFrame(p)) && OwnVerdicts(j, s)
    ensures OwnVerdicts(j, Next(j, s, DeliverFrame(p)))
  {
    if p in s.sent {
      OwnFrameIds(j, s.client, p);
    }
    var r := Process(j.hash, s.dev, Parse(p));
    if s.dev.rx.id == j.tid {
      OurFrameKeepsOwn(j, s.dev, Parse(p));
    } else {
      FrameKeepsOwn(j, s.dev, Parse(p));
    }
    ReplyKeepsOwn(j, s, r.dev, r.reply);
  }

  lemma StepKeepsOwn(j: Job, s: Sys, a: Action)
    requires IsHash(j.hash) && Consistent(j, s) && Enabled(j, s, a) && OwnVerdicts(j, s)
    ensures Roomy(Next(j, s, a).dev) && OwnVerdicts(j, Next(j, s, a))
  {
    match a
    case DeliverFrame(p) =>
      DeliveryKeepsOwn(j, s, p);
    case Decide(acc) =>
      var d := Judge(s.dev, acc);
      ReplyKeepsOwn(j, s, d, Reply(d.rx.id, d.rx.nextSeq, d.rx.finalCode, if acc then 0 else ERR_STATE));
    case Transmit =>
    case DeliverReply(_) =>
  }

  lemma {:induction false} RunKeepsOwn(j: Job, states: seq<Sys>, actions: seq<Action>)
    requires IsHash(j.hash) && IsRun(j, states, actions) && OwnVerdicts(j, states[0])
    ensures Roomy(states[|actions|].dev) && OwnVerdicts(j, states[|actions|])
    decreases |actions|
  {
    var n := |actions|;
    if n > 0 {
      RunPrefix(j, states, actions);
      RunKeepsOwn(j, states[..n], actions[..n - 1]);
      RunConsistent(j, states[..n], actions[..n - 1]);
      assert StepOf(j, states[n - 1], actions[n - 1], states[n]);
      StepKeepsOwn(j, states[n - 1], actions[n - 1]);
    }
  }

  /** From a start without an old verdict every concluding run ends with the receiver's verdict. */
  lemma CleanStartIsTruthful(j: Job, s: Sys)
    requires IsHash(j.hash) && Initial(j, s) && NoOldVerdict(j, s)
    ensures Truthful(j, s)
  {
    forall states: seq<Sys>, actions: seq<Action>, r: Reply |
      IsRun(j, states, actions) && states[0] == s && Concludes(states[|actions|], r)
      ensures TrueAnswer(j, states[|actions|].dev, r)
    {
      RunKeepsOwn(j, states, actions);
      OwnVerdictIsTrue(j, states, actions, r);
    }
  }

  // ----- a start that refuses our BEGIN for good -----

  predicate Shut(j: Job, s: Sys) {
    s.client == Beginning && s.dev.rx.id != j.tid && Closed(j, s.dev)
  }

  lemma ClosedRefuses(j: Job, d: Device)
    requires IsHash(j.hash) && Roomy(d) && d.rx.id != j.tid && Closed(j, d)
    ensures Process(j.hash, d, Parse(BeginFrame(j.hash, j.tid, j.image))).dev == d
  {
    BeginFields(j.hash, j.tid, j.image);
    BeginRefused(j, d, Parse(BeginFrame(j.hash, j.tid, j.image)));
  }

  lemma BeginRefused(j: Job, d: Device, w: Wire)
    requires IsHash(j.hash) && Roomy(d) && d.rx.id != j.tid && Closed(j, d)
    requires WellSized(w) && IsBegin(w, j.tid, j.image, j.hash(j.image))
    ensures Process(j.hash, d, w).dev == d
  {
  }

  lemma StrayKeepsClosed(j: Job, d: Device, w: Wire)
    requires Roomy(d) && WellSized(w) && d.rx.id != j.tid && Closed(j, d) && Stray(j, d, w)
    ensures var d' := Process(j.hash, d, w).dev; d'.rx.id != j.tid && Closed(j, d')
  {
  }

  /** Before the receiver is on our transfer nothing in flight is an answer to our BEGIN. */
  lemma NoAnswerYet(j: Job, s: Sys, r: Reply)
    requires Consistent(j, s) && s.dev.rx.id != j.tid && r in s.replies && s.client == Beginning
    ensures !Accepts(j, s.client, r)
  {
    assert ReplyOk(j, s.dev, r);
  }

  /** Before its BEGIN is answered the client has sent nothing else. */
  lemma OnlyBegin(j: Job, s: Sys, p: seq<Byte>)
    requires Consistent(j, s) && s.client == Beginning && p in s.sent
    ensures p == BeginFrame(j.hash, j.tid, j.image)
  {
    assert SentBy(j, s.client, p);
  }

  lemma FrameKeepsClosed(j: Job, d: Device, p: seq<Byte>)
    requires IsHash(j.hash) && Roomy(d) && d.rx.id != j.tid && Closed(j, d)
    requires p == BeginFrame(j.hash, j.tid, j.image) || Stray(j, d, Parse(p))
    ensures var d' := Process(j.hash, d, Parse(p)).dev; d'.rx.id != j.tid && Closed(j, d')
  {
    if p == BeginFrame(j.hash, j.tid, j.image) {
      ClosedRefuses(j, d);
    } else {
      StrayKeepsClosed(j, d, Parse(p));
    }
  }

  lemma FrameKeepsShut(j: Job, s: Sys, p: seq<Byte>)
    requires IsHash(j.hash) && Consistent(j, s) && Enabled(j, s, DeliverFrame(p)) && Shut(j, s)
    ensures Shut(j, Next(j, s, DeliverFrame(p)))
  {
    if p in s.sent {
      OnlyBegin(j, s, p);
    }
    FrameKeepsClosed(j, s.dev, p);
  }

  lemma VerdictKeepsShut(j: Job, d: Device, acc: bool)
    requires d.rx.id != j.tid && Closed(j, d) && d.rx.phase == Staged
    ensures var d' := Judge(d, acc); d'.rx.id != j.tid && Closed(j, d')
  {
  }

  lemma StepKeepsShut(j: Job, s: Sys, a: Action)
    requires IsHash(j.hash) && Consistent(j, s) && Enabled(j, s, a) && Shut(j, s)
    ensures Shut(j, Next(j, s, a))
  {
    match a
    case DeliverFrame(p) =>
      FrameKeepsShut(j, s, p);
    case DeliverReply(r) =>
      NoAnswerYet(j, s, r);
    case Decide(acc) =>
      VerdictKeepsShut(j, s.dev, acc);
    case Transmit =>
  }

  /** From there the client never gets past its BEGIN, in no run. */
  lemma {:induction false} ClosedNeverStarts(j: Job, states: seq<Sys>, actions: seq<Action>)
    requires IsHash(j.hash) && IsRun(j, states, actions) && Closed(j, states[0].dev)
    ensures Shut(j, states[|actions|])
    decreases |actions|
  {
    var n := |actions|;
    if n > 0 {
      RunPrefix(j, states, actions);
      ClosedNeverStarts(j, states[..n], actions[..n - 1]);
      RunConsistent(j, states[..n], actions[..n - 1]);
      assert StepOf(j, states[n - 1], actions[n - 1], states[n]);
      StepKeepsShut(j, states[n - 1], actions[n - 1]);
    }
  }

  // ----- with one, some run answers falsely -----

  lemma Extend(j: Job, states: seq<Sys>, actions: seq<Action>, a: Action, s: Sys)
    requires IsRun(j, states, actions) && StepOf(j, states[|actions|], a, s)
    ensures IsRun(j, states + [s], actions + [a])
  {
    var n := |actions|;
    var longer, more := states + [s], actions + [a];
    forall i | 0 <= i < n + 1
      ensures StepOf(j, longer[i], more[i], longer[i + 1])
    {
      if i < n {
        assert StepOf(j, states[i], actions[i], states[i + 1]);
      }
    }
  }

  /** The receiver has given no verdict on this transfer. */
  predicate Undecided(j: Job, d: Device) {
    d.rx.id == j.tid ==> d.rx.phase != Done
  }

  lemma FrameDecidesNothing(j: Job, d: Device, w: Wire)
    requires Roomy(d) && WellSized(w) && Undecided(j, d)
    ensures Undecided(j, Process(j.hash, d, w).dev)
  {
  }

  /** A client that takes this reply while nothing is decided finishes, if at all, with STAGED. */
  lemma UndecidedAdvance(j: Job, c: Client, d: Device, r: Reply)
    requires ReplyOk(j, d, r) && Undecided(j, d) && Accepts(j, c, r)
    ensures Advance(j, c, r).Finished? ==> Advance(j, c, r) == Finished(STAGED)
  {
  }

  /** What one undisturbed exchange leaves while the receiver has not decided. */
  lemma ExchangeUndecided(j: Job, s: Sys, r: Result)
    requires Consistent(j, s) && Undecided(j, s.dev)
    requires r == Process(j.hash, s.dev, Parse(Current(j, s.client))) && Accepts(j, s.client, r.reply)
    requires Consistent(j, Exchange(j, s))
    ensures Undecided(j, Exchange(j, s).dev) && s.replies <= Exchange(j, s).replies
    ensures Exchange(j, s).client.Finished? ==> Exchange(j, s).client == Finished(STAGED)
  {
    FrameDecidesNothing(j, s.dev, Parse(Current(j, s.client)));
    assert r.reply in Exchange(j, s).replies;
    UndecidedAdvance(j, s.client, r.dev, r.reply);
  }

  /** One exchange is three steps. */
  lemma ThreeSteps(j: Job, s: Sys, p: seq<Byte>, r: Result, s1: Sys, s2: Sys)
    requires Roomy(s.dev) && (s.client.Sending? ==> s.client.k < ChunkCount(j.image))
    requires p == Current(j, s.client) && r == Process(j.hash, s.dev, Parse(p)) && Accepts(j, s.client, r.reply)
    requires s1 == s.(sent := s.sent + {p}) && s2 == s1.(dev := r.dev, replies := s.replies + {r.reply})
    ensures StepOf(j, s, Transmit, s1) && StepOf(j, s1, DeliverFrame(p), s2)
    ensures StepOf(j, s2, DeliverReply(r.reply), After(j, s, p, r))
  {
    TransmitStep(j, s, p);
    DeliverStep(j, s1, p, r);
    ReplyStep(j, s2, r.reply);
  }

  /** The same without naming frame and reply. */
  lemma ExchangeSteps(j: Job, s: Sys) returns (a: seq<Action>, s1: Sys, s2: Sys)
    requires ExchangeWorks(j, s)
    ensures |a| == 3 && StepOf(j, s, a[0], s1) && StepOf(j, s1, a[1], s2) && StepOf(j, s2, a[2], Exchange(j, s))
  {
    var p := Current(j, s.client);
    var r := Process(j.hash, s.dev, Parse(p));
    assert Exchange(j, s) == After(j, s, p, r);
    s1 := s.(sent := s.sent + {p});
    s2 := s1.(dev := r.dev, replies := s.replies + {r.reply});
    ThreeSteps(j, s, p, r, s1, s2);
    a := [Transmit, DeliverFrame(p), DeliverReply(r.reply)];
  }

  /** And what it leaves undecided. */
  lemma ExchangeLeaves(j: Job, s: Sys)
    requires IsHash(j.hash) && Consistent(j, s) && Reachable(j, s) && !s.client.Finished? && Undecided(j, s.dev)
    ensures ExchangeWorks(j, s)
    ensures Undecided(j, Exchange(j, s).dev) && s.replies <= Exchange(j, s).replies
    ensures Exchange(j, s).client.Finished? ==> Exchange(j, s).client == Finished(STAGED)
  {
    ExchangeAdvances(j, s);
    ExchangeUndecided(j, s, Process(j.hash, s.dev, Parse(Current(j, s.client))));
  }

  lemma ExtendThrice(j: Job, states: seq<Sys>, actions: seq<Action>, a: seq<Action>, s1: Sys, s2: Sys, s3: Sys)
    returns (longer: seq<Sys>, more: seq<Action>)
    requires IsRun(j, states, actions) && |a| == 3
    requires StepOf(j, states[|actions|], a[0], s1) && StepOf(j, s1, a[1], s2) && StepOf(j, s2, a[2], s3)
    ensures IsRun(j, longer, more) && longer[0] == states[0] && longer[|more|] == s3
  {
    Extend(j, states, actions, a[0], s1);
    longer, more := states + [s1], actions + [a[0]];
    Extend(j, longer, more, a[1], s2);
    longer, more := longer + [s2], more + [a[1]];
    Extend(j, longer, more, a[2], s3);
    longer, more := longer + [s3], more + [a[2]];
  }

  /** Undisturbed exchanges take the client to STAGED and leave every reply in flight. */
  lemma {:induction false} ExtendToStaged(j: Job, states: seq<Sys>, actions: seq<Action>)
    returns (longer: seq<Sys>, more: seq<Action>)
    requires IsHash(j.hash) && IsRun(j, states, actions) && Reachable(j, states[|actions|])
    requires Undecided(j, states[|actions|].dev)
    requires states[|actions|].client.Finished? ==> states[|actions|].client == Finished(STAGED)
    ensures IsRun(j, longer, more) && longer[0] == states[0]
    ensures Undecided(j, longer[|more|].dev) && longer[|more|].client == Finished(STAGED)
    ensures states[|actions|].replies <= longer[|more|].replies
    decreases Remaining(j, states[|actions|].client)
  {
    if states[|actions|].client.Finished? {
      return states, actions;
    }
    var s := states[|actions|];
    RunConsistent(j, states, actions);
    ExchangeCounts(j, s);
    ExchangeLeaves(j, s);
    var a, s1, s2 := ExchangeSteps(j, s);
    longer, more := ExtendThrice(j, states, actions, a, s1, s2, Exchange(j, s));
    longer, more := ExtendToStaged(j, longer, more);
  }

  /** From there the receiver can decide the other way. */
  lemma DecideAgainst(j: Job, states: seq<Sys>, actions: seq<Action>, stale: Reply)
    returns (longer: seq<Sys>, more: seq<Action>)
    requires IsHash(j.hash) && IsRun(j, states, actions) && Reachable(j, states[|actions|])
    requires states[|actions|].client == Beginning && states[|actions|].dev.rx.id != j.tid
    requires stale in states[|actions|].replies && IsVerdict(stale)
    ensures IsRun(j, longer, more) && longer[0] == states[0]
    ensures Concludes(longer[|more|], stale) && !TrueAnswer(j, longer[|more|].dev, stale)
  {
    longer, more := ExtendToStaged(j, states, actions);
    RunConsistent(j, longer, more);
    var a := Decide(stale.code == REJECT);
    var s := Next(j, longer[|more|], a);
    Extend(j, longer, more, a, s);
    longer, more := longer + [s], more + [a];
  }

  /** A run that has brought the client no further, with an old verdict in flight. */
  predicate Poised(j: Job, start: Sys, states: seq<Sys>, actions: seq<Action>, stale: Reply) {
    && IsRun(j, states, actions) && states[0] == start && states[|actions|].client == Beginning
    && states[|actions|].dev.rx.id != j.tid && stale in states[|actions|].replies && IsVerdict(stale)
  }

  /** A run that has brought the client no further. */
  predicate Waiting(j: Job, start: Sys, states: seq<Sys>, actions: seq<Action>) {
    && IsRun(j, states, actions) && states[0] == start
    && states[|actions|].client == Beginning && states[|actions|].dev.rx.id != j.tid
  }

  /** A run that goes on from another. */
  predicate Continues(states: seq<Sys>, actions: seq<Action>, longer: seq<Sys>, more: seq<Action>) {
    && |states| == |actions| + 1 <= |longer| && longer[..|states|] == states
    && |actions| <= |more| && more[..|actions|] == actions
  }

  lemma ContinuesTwice(s1: seq<Sys>, a1: seq<Action>, s2: seq<Sys>, a2: seq<Action>, s3: seq<Sys>, a3: seq<Action>)
    requires Continues(s1, a1, s2, a2) && Continues(s2, a2, s3, a3)
    ensures Continues(s1, a1, s3, a3)
  {
    assert s3[..|s1|] == s3[..|s2|][..|s1|];
    assert a3[..|a1|] == a3[..|a2|][..|a1|];
  }

  /** One more frame of the old transfer. */
  lemma ExtendOld(j: Job, start: Sys, states: seq<Sys>, actions: seq<Action>, p: seq<Byte>, r: Result)
    returns (longer: seq<Sys>, more: seq<Action>)
    requires Waiting(j, start, states, actions) && Roomy(states[|actions|].dev)
    requires r == Process(j.hash, states[|actions|].dev, Parse(p)) && r.dev.rx.id == states[|actions|].dev.rx.id
    requires Parse(p).id != j.tid && Parse(p).op != OP_BEGIN
    ensures Waiting(j, start, longer, more) && Continues(states, actions, longer, more) && longer[|more|].dev == r.dev
    ensures longer[|more|].replies == states[|actions|].replies + {r.reply}
  {
    var s := states[|actions|];
    var s' := s.(dev := r.dev, replies := s.replies + {r.reply});
    Extend(j, states, actions, DeliverFrame(p), s');
    longer, more := states + [s'], actions + [DeliverFrame(p)];
  }

  lemma OldVerdictGiven(j: Job, start: Sys, states: seq<Sys>, actions: seq<Action>, acc: bool)
    returns (longer: seq<Sys>, more: seq<Action>, stale: Reply)
    requires Waiting(j, start, states, actions) && Roomy(states[|actions|].dev)
    requires states[|actions|].dev.rx.phase == Staged
    ensures Poised(j, start, longer, more, stale) && Free(longer[|more|].dev)
    ensures Continues(states, actions, longer, more) && longer[|more|].dev == Judge(states[|actions|].dev, acc)
    ensures stale.id == states[|actions|].dev.rx.id && stale.code == if acc then ACCEPT else REJECT
  {
    var s := states[|actions|];
    var s' := Next(j, s, Decide(acc));
    Extend(j, states, actions, Decide(acc), s');
    longer, more := states + [s'], actions + [Decide(acc)];
    var d := s'.dev;
    stale := Reply(d.rx.id, d.rx.nextSeq, d.rx.finalCode, if acc then 0 else ERR_STATE);
  }

  /** The receiver would take a well-formed BEGIN. */
  predicate Free(d: Device) {
    !Busy(d) && d.magic != PEND_MAGIC
  }

  /** A delayed ABORT frees a receiver in the middle of a transfer. */
  lemma AbortFrees(hash: Hash, d: Device)
    requires Roomy(d) && d.rx.phase == Active
    ensures IsShort(Parse(AbortFrame(d.rx.id)), OP_ABORT, d.rx.id)
    ensures var d' := Process(hash, d, Parse(AbortFrame(d.rx.id))).dev; d'.rx.id == d.rx.id && Free(d')
  {
    ShortFields(OP_ABORT, d.rx.id);
    AbortTaken(hash, d, Parse(AbortFrame(d.rx.id)));
  }

  lemma AbortTaken(hash: Hash, d: Device, w: Wire)
    requires Roomy(d) && WellSized(w) && d.rx.phase == Active && IsShort(w, OP_ABORT, d.rx.id)
    ensures Process(hash, d, w).dev.rx.id == d.rx.id && Free(Process(hash, d, w).dev)
  {
  }

  function AbortFrame(id: U32): seq<Byte> {
    ShortFrame(OP_ABORT, id)
  }

  /** A COMMIT of the transfer a receiver is done with makes it repeat that verdict. */
  lemma CommitRepeats(hash: Hash, d: Device)
    requires Roomy(d) && d.rx.phase == Done && (d.rx.finalCode == ACCEPT || d.rx.finalCode == REJECT)
    ensures IsShort(Parse(CommitFrame(d.rx.id)), OP_COMMIT, d.rx.id)
    ensures var r := Process(hash, d, Parse(CommitFrame(d.rx.id))); r.dev == d && IsVerdict(r.reply)
  {
    ShortFields(OP_COMMIT, d.rx.id);
    RepeatTaken(hash, d, Parse(CommitFrame(d.rx.id)));
  }

  lemma RepeatTaken(hash: Hash, d: Device, w: Wire)
    requires Roomy(d) && WellSized(w) && d.rx.phase == Done && (d.rx.finalCode == ACCEPT || d.rx.finalCode == REJECT)
    requires IsShort(w, OP_COMMIT, d.rx.id)
    ensures Process(hash, d, w).dev == d && IsVerdict(Process(hash, d, w).reply)
  {
  }

  /** The next byte of an unfinished transfer is taken. */
  lemma NextByteTaken(hash: Hash, d: Device, rest: seq<Byte>)
    requires Roomy(d) && d.rx.phase == Active && d.rx.received < d.rx.total && Completes(hash, d, rest)
    ensures var w := Parse(DataBytes(d.rx.id, d.rx.nextSeq, d.rx.received, rest[..1]));
            var d' := Process(hash, d, w).dev;
            && w.id == d.rx.id && w.op == OP_DATA
            && d'.rx.id == d.rx.id && d'.rx.phase == Active && d'.pend == Write(d.pend, d.rx.received, rest[..1])
            && d'.rx.received == d.rx.received + 1 <= d'.rx.total == d.rx.total && Completes(hash, d', rest[1..])
  {
    DataBytesFields(d.rx.id, d.rx.nextSeq, d.rx.received, rest[..1]);
    ByteTaken(hash, d, Parse(DataBytes(d.rx.id, d.rx.nextSeq, d.rx.received, rest[..1])), rest);
  }

  lemma ByteTaken(hash: Hash, d: Device, w: Wire, rest: seq<Byte>)
    requires Roomy(d) && WellSized(w) && d.rx.phase == Active && d.rx.received < d.rx.total && Completes(hash, d, rest)
    requires w.n == 13 && w.op == OP_DATA && w.id == d.rx.id && w.crcOk
    requires w.w5 == d.rx.nextSeq && w.w7 == d.rx.received && w.b9 == 1 && w.data == rest[..1]
    ensures var d' := Process(hash, d, w).dev;
            && d'.rx.id == d.rx.id && d'.rx.phase == Active && d'.pend == Write(d.pend, d.rx.received, rest[..1])
            && d'.rx.received == d.rx.received + 1 <= d'.rx.total == d.rx.total && Completes(hash, d', rest[1..])
  {
    var n := d.rx.received;
    assert Write(d.pend, n, rest[..1])[..n + 1] + rest[1..] == d.pend[..n] + rest;
  }

  lemma CommitStages(hash: Hash, d: Device)
    requires Roomy(d) && d.rx.phase == Active && d.rx.received == d.rx.total && Completes(hash, d, [])
    ensures IsShort(Parse(CommitFrame(d.rx.id)), OP_COMMIT, d.rx.id)
    ensures Process(hash, d, Parse(CommitFrame(d.rx.id))).dev
         == d.(rx := d.rx.(phase := Staged), magic := PEND_MAGIC)
  {
    ShortFields(OP_COMMIT, d.rx.id);
    StageTaken(hash, d, Parse(CommitFrame(d.rx.id)));
  }

  lemma StageTaken(hash: Hash, d: Device, w: Wire)
    requires Roomy(d) && WellSized(w) && d.rx.phase == Active && d.rx.received == d.rx.total && Completes(hash, d, [])
    requires IsShort(w, OP_COMMIT, d.rx.id)
    ensures Process(hash, d, w).dev == d.(rx := d.rx.(phase := Staged), magic := PEND_MAGIC)
  {
    assert d.pend[..d.rx.received] + [] == d.pend[..d.rx.total];
  }

  /** What the receiver on an old transfer has come to: these bytes complete the image it had begun, and it
      is done with this verdict. */
  predicate Finishes(d: Device, rest: seq<Byte>, d': Device, verdict: Reply) {
    && d'.rx.id == d.rx.id == verdict.id && d'.rx.total == d.rx.total <= |d'.pend|
    && d.rx.received <= d.rx.total && d.rx.received <= |d.pend|
    && d'.pend[..d.rx.total] == d.pend[..d.rx.received] + rest
    && d'.rx.phase == Done && d'.rx.finalCode == verdict.code
  }

  /** The COMMIT of a complete old transfer, and its verdict, whichever it is. */
  lemma OldCommit(j: Job, start: Sys, states: seq<Sys>, actions: seq<Action>, d: Device, acc: bool)
    returns (longer: seq<Sys>, more: seq<Action>, stale: Reply)
    requires Waiting(j, start, states, actions) && d == states[|actions|].dev && Roomy(d)
    requires d.rx.phase == Active && d.rx.received == d.rx.total && Completes(j.hash, d, [])
    ensures Poised(j, start, longer, more, stale) && Free(longer[|more|].dev)
    ensures Continues(states, actions, longer, more) && Finishes(d, [], longer[|more|].dev, stale)
    ensures stale.code == if acc then ACCEPT else REJECT
  {
    var p := CommitFrame(d.rx.id);
    CommitStages(j.hash, d);
    var mid, so := ExtendOld(j, start, states, actions, p, Process(j.hash, d, Parse(p)));
    longer, more, stale := OldVerdictGiven(j, start, mid, so, acc);
    ContinuesTwice(states, actions, mid, so, longer, more);
    assert d.pend[..d.rx.received] + [] == d.pend[..d.rx.total];
  }

  lemma NextByteFinishes(d: Device, rest: seq<Byte>, d': Device, d'': Device, verdict: Reply)
    requires |rest| > 0 && d.rx.received + |rest| <= |d.pend| && d.rx.received <= d.rx.total
    requires d'.pend == Write(d.pend, d.rx.received, rest[..1]) && d'.rx.received == d.rx.received + 1
    requires d'.rx.id == d.rx.id && d'.rx.total == d.rx.total && Finishes(d', rest[1..], d'', verdict)
    ensures Finishes(d, rest, d'', verdict)
  {
    assert d'.pend[..d'.rx.received] + rest[1..] == d.pend[..d.rx.received] + rest;
  }

  /** From any run on which the receiver is in the middle of an old transfer: late frames, each byte of a
      completion and a COMMIT, carry it to the end, and its verdict, whichever it is, is in flight. */
  lemma {:induction false} OldTransferCompletes(j: Job, start: Sys, states: seq<Sys>, actions: seq<Action>, d: Device,
      rest: seq<Byte>, acc: bool) returns (longer: seq<Sys>, more: seq<Action>, stale: Reply)
    requires Waiting(j, start, states, actions) && d == states[|actions|].dev && Roomy(d)
    requires d.rx.phase == Active && d.rx.received <= d.rx.total && Completes(j.hash, d, rest)
    ensures Poised(j, start, longer, more, stale) && Free(longer[|more|].dev)
    ensures Continues(states, actions, longer, more) && Finishes(d, rest, longer[|more|].dev, stale)
    ensures stale.code == if acc then ACCEPT else REJECT
    decreases |rest|
  {
    if d.rx.received == d.rx.total {
      assert rest == [];
      longer, more, stale := OldCommit(j, start, states, actions, d, acc);
    } else {
      var p := DataBytes(d.rx.id, d.rx.nextSeq, d.rx.received, rest[..1]);
      NextByteTaken(j.hash, d, rest);
      var r := Process(j.hash, d, Parse(p));
      var next, so := ExtendOld(j, start, states, actions, p, r);
      longer, more, stale := OldTransferCompletes(j, start, next, so, r.dev, rest[1..], acc);
      ContinuesTwice(states, actions, next, so, longer, more);
      NextByteFinishes(d, rest, r.dev, longer[|more|].dev, stale);
    }
  }

  /** An old verdict in flight, and a receiver that can be freed. */
  lemma VerdictInFlight(j: Job, s: Sys, stale: Reply) returns (states: seq<Sys>, actions: seq<Action>, r: Reply)
    requires Initial(j, s) && !Closed(j, s.dev) && stale in s.replies && IsVerdict(stale)
    ensures Poised(j, s, states, actions, r) && Free(states[|actions|].dev)
  {
    states, actions, r := [s], [], stale;
    if s.dev.rx.phase == Active {
      var p := AbortFrame(s.dev.rx.id);
      AbortFrees(j.hash, s.dev);
      states, actions := ExtendOld(j, s, states, actions, p, Process(j.hash, s.dev, Parse(p)));
    } else if s.dev.rx.phase == Staged {
      states, actions, r := OldVerdictGiven(j, s, states, actions, true);
    }
  }

  /** A receiver with a verdict to give puts it in flight. */
  lemma VerdictCalledUp(j: Job, s: Sys) returns (states: seq<Sys>, actions: seq<Action>, stale: Reply)
    requires Initial(j, s) && !Closed(j, s.dev) && !Quiet(j.hash, s.dev)
    ensures Poised(j, s, states, actions, stale) && Free(states[|actions|].dev)
  {
    states, actions := [s], [];
    match s.dev.rx.phase
    case Active =>
      var rest :| Completes(j.hash, s.dev, rest);
      states, actions, stale := OldTransferCompletes(j, s, states, actions, s.dev, rest, true);
    case Staged =>
      states, actions, stale := OldVerdictGiven(j, s, states, actions, true);
    case Done =>
      var p := CommitFrame(s.dev.rx.id);
      CommitRepeats(j.hash, s.dev);
      var r := Process(j.hash, s.dev, Parse(p));
      states, actions := ExtendOld(j, s, states, actions, p, r);
      stale := r.reply;
  }

  /** From every other start some run ends with a verdict the receiver did not give. */
  lemma OldVerdictMisleads(j: Job, s: Sys) returns (states: seq<Sys>, actions: seq<Action>, stale: Reply)
    requires IsHash(j.hash) && Initial(j, s) && !Closed(j, s.dev) && !NoOldVerdict(j, s)
    ensures IsRun(j, states, actions) && states[0] == s
    ensures Concludes(states[|actions|], stale) && !TrueAnswer(j, states[|actions|].dev, stale)
  {
    if r :| r in s.replies && IsVerdict(r) {
      states, actions, stale := VerdictInFlight(j, s, r);
    } else {
      states, actions, stale := VerdictCalledUp(j, s);
    }
    states, actions := DecideAgainst(j, states, actions, stale);
  }

  /** The exact condition, for every start: the client's answer is the receiver's verdict in every
      run if and only if our BEGIN is refused for good, or no verdict of an earlier transfer is in
      flight and the receiver has none to give: it is not done with one, has no image staged, and the
      transfer it is in the middle of, if any, has no completion with the announced digest. */
  lemma TruthfulExactly(j: Job, s: Sys)
    requires IsHash(j.hash) && Initial(j, s)
    ensures Truthful(j, s) <==> Closed(j, s.dev) || NoOldVerdict(j, s)
  {
    if Closed(j, s.dev) {
      forall states: seq<Sys>, actions: seq<Action> | IsRun(j, states, actions) && states[0] == s
        ensures Shut(j, states[|actions|])
      {
        ClosedNeverStarts(j, states, actions);
      }
    } else if NoOldVerdict(j, s) {
      CleanStartIsTruthful(j, s);
    } else {
      var states, actions, stale := OldVerdictMisleads(j, s);
    }
  }
}
