/** When is the answer of `transfer` (tools/update_client.py) the verdict of the device on the image that
    was sent, exactly? From every start outside the condition some run ends with another answer. And what
    the answer then means. */
module Answers {
  import opened Words
  import opened Update
  import opened Supervisor
  import opened Deployment
  import opened QuietWire
  import opened TrueAnswers
  import P = Protocol
  import S = Safety
  import V = Verdicts

  /** A run on which the client has got no further than its BEGIN. */
  ghost predicate Waits(j: P.Job, b: Build, boot: State, start: World, worlds: seq<World>, acts: seq<Act>) {
    && IsRun(j, b, worlds, acts) && worlds[0] == start && Begins(j, b, boot, start)
    && worlds[|acts|].client == P.Beginning && worlds[|acts|].st.link.dev.rx.id != j.tid
  }

  lemma WaitOn(j: P.Job, b: Build, boot: State, start: World, worlds: seq<World>, acts: seq<Act>, a: Act, w: World)
    requires Waits(j, b, boot, start, worlds, acts) && Moves(j, b, worlds[|acts|], a, w)
    requires w.client == P.Beginning && w.st.link.dev.rx.id != j.tid
    ensures Waits(j, b, boot, start, worlds + [w], acts + [a])
  {
    Extend(j, b, worlds, acts, a, w);
  }

  /** The core is where rounds and turns leave it: it can come back to the service loop. */
  predicate Live(w: World) {
    w.st.sched.at.Serving? || w.st.sched.at.Inside?
  }

  // ----- back to the service loop -----

  lemma SilentTurn(w: World, s': State)
    ensures Turned(w, s', []) == w.(st := s')
  {
    NoAnswers();
  }

  lemma YieldIs(j: P.Job, b: Build, boot: State, w: World) returns (s': State)
    requires Invariant(b, boot, w.st) && w.st.sched.at.Inside?
    ensures Moves(j, b, w, Turn(Yield(false)), w.(st := s')) && s'.link == w.st.link && w.st.sched.entries <= 11
    ensures s'.sched.at.Serving? || (s'.sched.at.Inside? && s'.sched.entries == w.st.sched.entries + 1)
  {
    s' := S.YieldMoves(b, boot, w.st);
    SilentTurn(w, s');
    TurnIs(j, b, w, Yield(false));
  }

  /** One clean yield more on the run. */
  lemma YieldOn(j: P.Job, b: Build, boot: State, start: World, worlds: seq<World>, acts: seq<Act>, w: World)
    returns (longer: seq<World>, more: seq<Act>)
    requires Waits(j, b, boot, start, worlds, acts) && w == worlds[|acts|] && w.st.sched.at.Inside?
    ensures Waits(j, b, boot, start, longer, more) && Live(longer[|more|])
    ensures longer[|more|].replies == w.replies && longer[|more|].st.link == w.st.link
    ensures w.st.sched.entries <= 11
    ensures longer[|more|].st.sched.at.Inside? ==> longer[|more|].st.sched.entries == w.st.sched.entries + 1
  {
    DeployedAlong(j, b, boot, worlds, acts, |acts|);
    var s' := YieldIs(j, b, boot, w);
    WaitOn(j, b, boot, start, worlds, acts, Turn(Yield(false)), w.(st := s'));
    longer, more := worlds + [w.(st := s')], acts + [Turn(Yield(false))];
  }

  /** Clean yields bring the core back to the service loop, and nothing else changes. */
  lemma {:induction false} ToService(j: P.Job, b: Build, boot: State, start: World, worlds: seq<World>, acts: seq<Act>)
    returns (longer: seq<World>, more: seq<Act>)
    requires Waits(j, b, boot, start, worlds, acts) && Live(worlds[|acts|])
    ensures Waits(j, b, boot, start, longer, more) && longer[|more|].st.sched.at.Serving?
    ensures longer[|more|].replies == worlds[|acts|].replies && longer[|more|].st.link == worlds[|acts|].st.link
    decreases worlds[|acts|].st.sched.at.Inside?, 12 - worlds[|acts|].st.sched.entries
  {
    longer, more := worlds, acts;
    if worlds[|acts|].st.sched.at.Inside? {
      longer, more := YieldOn(j, b, boot, start, worlds, acts, worlds[|acts|]);
      longer, more := ToService(j, b, boot, start, longer, more);
    }
  }

  // ----- late frames of an earlier transfer -----

  /** A frame of the transfer the receiver is on, coming late. */
  predicate Late(j: P.Job, d: Device, p: seq<Byte>) {
    |p| > 0 && Parse(p).id == d.rx.id && Parse(p).op != OP_BEGIN && d.rx.id != j.tid
  }

  lemma LateKeepsId(hash: Hash, d: Device, w: Wire)
    requires Roomy(d) && WellSized(w) && w.op != OP_BEGIN
    ensures Process(hash, d, w).dev.rx.id == d.rx.id
  {
  }

  lemma LateTurn(j: P.Job, b: Build, boot: State, w: World, p: seq<Byte>)
    requires Invariant(b, boot, w.st) && w.st.sched.at.Serving? && Late(j, w.st.link.dev, p)
    ensures Brings(j, w, p)
    ensures Moves(j, b, w, Turn(Step.Frame(FRAME_UPDATE, p)),
                  Turned(w, Serve(b, w.st, FRAME_UPDATE, p), ServeSends(b, w.st, FRAME_UPDATE, p)))
  {
    TurnIs(j, b, w, Step.Frame(FRAME_UPDATE, p));
  }

  lemma LatePlainTurn(j: P.Job, b: Build, boot: State, w: World, p: seq<Byte>, r: Result) returns (w': World)
    requires Invariant(b, boot, w.st) && w.st.sched.at.Serving? && Late(j, w.st.link.dev, p)
    requires r == Process(b.hash, w.st.link.dev, Parse(p)) && r.dev.rx.phase != Staged
    ensures Moves(j, b, w, Turn(Step.Frame(FRAME_UPDATE, p)), w') && w'.client == w.client
    ensures w'.st.sched.at.Serving? && w'.st.link.dev == r.dev && w'.replies == w.replies + {r.reply}
  {
    LateTurn(j, b, boot, w, p);
    var s', sends := Serve(b, w.st, FRAME_UPDATE, p), ServeSends(b, w.st, FRAME_UPDATE, p);
    PlainFrame(j, b, boot, w, p, r, s', sends);
    w' := Turned(w, s', sends);
  }

  lemma LateJudgedTurn(j: P.Job, b: Build, boot: State, w: World, p: seq<Byte>, r: Result, v: Verdict)
    returns (w': World)
    requires Invariant(b, boot, w.st) && w.st.sched.at.Serving? && Late(j, w.st.link.dev, p)
    requires r == Process(b.hash, w.st.link.dev, Parse(p)) && r.dev.rx.phase == Staged
    requires v == Inspect(b, w.st.link.dev.pend)
    ensures Moves(j, b, w, Turn(Step.Frame(FRAME_UPDATE, p)), w') && w'.client == w.client
    ensures Live(w') && V.Free(w'.st.link.dev) && w'.st.link.dev.rx.id == r.dev.rx.id
    ensures FinalReply(r.dev.rx, v) in w'.replies
  {
    LateTurn(j, b, boot, w, p);
    var s', sends := Serve(b, w.st, FRAME_UPDATE, p), ServeSends(b, w.st, FRAME_UPDATE, p);
    JudgedFrame(j, b, boot, w, p, r, v, s', sends);
    S.ServeStays(b, boot, w.st, FRAME_UPDATE, p);
    w' := Turned(w, s', sends);
  }

  /** A late frame that stages nothing. */
  lemma LatePlain(j: P.Job, b: Build, boot: State, start: World, worlds: seq<World>, acts: seq<Act>, p: seq<Byte>,
      r: Result) returns (longer: seq<World>, more: seq<Act>)
    requires Waits(j, b, boot, start, worlds, acts) && worlds[|acts|].st.sched.at.Serving?
    requires Roomy(worlds[|acts|].st.link.dev) && Late(j, worlds[|acts|].st.link.dev, p)
    requires r == Process(b.hash, worlds[|acts|].st.link.dev, Parse(p)) && r.dev.rx.phase != Staged
    ensures Waits(j, b, boot, start, longer, more) && longer[|more|].st.sched.at.Serving?
    ensures longer[|more|].st.link.dev == r.dev && longer[|more|].replies == worlds[|acts|].replies + {r.reply}
  {
    DeployedAlong(j, b, boot, worlds, acts, |acts|);
    LateKeepsId(b.hash, worlds[|acts|].st.link.dev, Parse(p));
    var w' := LatePlainTurn(j, b, boot, worlds[|acts|], p, r);
    WaitOn(j, b, boot, start, worlds, acts, Turn(Step.Frame(FRAME_UPDATE, p)), w');
    longer, more := worlds + [w'], acts + [Turn(Step.Frame(FRAME_UPDATE, p))];
  }

  /** A late COMMIT that stages the old image: it is judged, and its verdict is in flight. */
  lemma LateJudged(j: P.Job, b: Build, boot: State, start: World, worlds: seq<World>, acts: seq<Act>, p: seq<Byte>,
      r: Result, v: Verdict) returns (longer: seq<World>, more: seq<Act>)
    requires Waits(j, b, boot, start, worlds, acts) && worlds[|acts|].st.sched.at.Serving?
    requires Roomy(worlds[|acts|].st.link.dev) && Late(j, worlds[|acts|].st.link.dev, p)
    requires r == Process(b.hash, worlds[|acts|].st.link.dev, Parse(p)) && r.dev.rx.phase == Staged
    requires v == Inspect(b, worlds[|acts|].st.link.dev.pend)
    ensures Poised(j, b, boot, start, longer, more, FinalReply(r.dev.rx, v))
  {
    DeployedAlong(j, b, boot, worlds, acts, |acts|);
    LateKeepsId(b.hash, worlds[|acts|].st.link.dev, Parse(p));
    var w' := LateJudgedTurn(j, b, boot, worlds[|acts|], p, r, v);
    WaitOn(j, b, boot, start, worlds, acts, Turn(Step.Frame(FRAME_UPDATE, p)), w');
    longer, more := worlds + [w'], acts + [Turn(Step.Frame(FRAME_UPDATE, p))];
  }

  // ----- a false verdict in flight -----

  /** A run with the client at its BEGIN, the receiver free, and this verdict in flight. */
  ghost predicate Poised(j: P.Job, b: Build, boot: State, start: World, worlds: seq<World>, acts: seq<Act>,
                         stale: Reply) {
    && Waits(j, b, boot, start, worlds, acts) && Live(worlds[|acts|]) && V.Free(worlds[|acts|].st.link.dev)
    && stale in worlds[|acts|].replies && P.IsVerdict(stale)
  }

  /** Then the client can be led to take it. */
  lemma PoisedMisleads(j: P.Job, b: Build, boot: State, start: World, worlds: seq<World>, acts: seq<Act>, stale: Reply)
    returns (longer: seq<World>, more: seq<Act>)
    requires Poised(j, b, boot, start, worlds, acts, stale) && !Malformed(j)
    ensures IsRun(j, b, longer, more) && longer[0] == start && Returns(longer[|more|], stale.code)
  {
    longer, more := ToService(j, b, boot, start, worlds, acts);
    longer, more := QuietWireReturns(j, b, boot, longer, more);
  }

  /** The next byte of the old transfer. */
  lemma OldByte(j: P.Job, b: Build, boot: State, start: World, worlds: seq<World>, acts: seq<Act>, d: Device,
      rest: seq<Byte>) returns (longer: seq<World>, more: seq<Act>, d': Device)
    requires Waits(j, b, boot, start, worlds, acts) && worlds[|acts|].st.sched.at.Serving?
    requires d == worlds[|acts|].st.link.dev && Roomy(d) && d.rx.phase == Active && d.rx.received < d.rx.total
    requires V.Completes(b.hash, d, rest)
    ensures Waits(j, b, boot, start, longer, more) && longer[|more|].st.sched.at.Serving?
    ensures d' == longer[|more|].st.link.dev && Roomy(d') && d'.rx.phase == Active && d'.rx.received <= d'.rx.total
    ensures |rest| > 0 && V.Completes(b.hash, d', rest[1..]) && Filled(d', rest[1..]) == Filled(d, rest)
  {
    var p := P.DataBytes(d.rx.id, d.rx.nextSeq, d.rx.received, rest[..1]);
    V.NextByteTaken(b.hash, d, rest);
    var r := Process(b.hash, d, Parse(p));
    FilledOn(d, r.dev, rest[..1], rest[1..]);
    assert rest[..1] + rest[1..] == rest;
    longer, more := LatePlain(j, b, boot, start, worlds, acts, p, r);
    d' := r.dev;
  }

  /** The COMMIT of the old transfer, when it is complete. */
  lemma OldCommit(j: P.Job, b: Build, boot: State, start: World, worlds: seq<World>, acts: seq<Act>, d: Device)
    returns (longer: seq<World>, more: seq<Act>, stale: Reply)
    requires Waits(j, b, boot, start, worlds, acts) && worlds[|acts|].st.sched.at.Serving?
    requires d == worlds[|acts|].st.link.dev && Roomy(d) && d.rx.phase == Active && d.rx.received == d.rx.total
    requires V.Completes(b.hash, d, [])
    ensures Poised(j, b, boot, start, longer, more, stale) && stale.code == VerdictCode(Inspect(b, d.pend))
  {
    var p := P.CommitFrame(d.rx.id);
    V.CommitStages(b.hash, d);
    var r := Process(b.hash, d, Parse(p));
    longer, more := LateJudged(j, b, boot, start, worlds, acts, p, r, Inspect(b, d.pend));
    stale := FinalReply(r.dev.rx, Inspect(b, d.pend));
  }

  lemma NothingLeft(hash: Hash, d: Device, rest: seq<Byte>)
    requires Roomy(d) && d.rx.received == d.rx.total && V.Completes(hash, d, rest)
    ensures rest == [] && Filled(d, rest) == d.pend
  {
  }

  /** The old transfer completed by late frames, byte by byte, and judged. */
  lemma {:induction false} OldTransferJudged(j: P.Job, b: Build, boot: State, start: World, worlds: seq<World>,
      acts: seq<Act>, d: Device, rest: seq<Byte>, pend: seq<Byte>)
    returns (longer: seq<World>, more: seq<Act>, stale: Reply)
    requires Waits(j, b, boot, start, worlds, acts) && worlds[|acts|].st.sched.at.Serving?
    requires d == worlds[|acts|].st.link.dev && Roomy(d) && d.rx.phase == Active && d.rx.received <= d.rx.total
    requires V.Completes(b.hash, d, rest) && pend == Filled(d, rest) && |pend| >= MAX_IMAGE
    ensures Poised(j, b, boot, start, longer, more, stale) && stale.code == VerdictCode(Inspect(b, pend))
    decreases |rest|
  {
    if d.rx.received == d.rx.total {
      NothingLeft(b.hash, d, rest);
      longer, more, stale := OldCommit(j, b, boot, start, worlds, acts, d);
    } else {
      var next, so, d' := OldByte(j, b, boot, start, worlds, acts, d, rest);
      var tail := rest[1..];
      longer, more, stale := OldTransferJudged(j, b, boot, start, next, so, d', tail, pend);
    }
  }

  // ----- every start outside the condition -----

  /** A false verdict in flight already; the receiver is freed if it must be. */
  lemma FalseInFlight(j: P.Job, b: Build, boot: State, start: World, worlds: seq<World>, acts: seq<Act>, stale: Reply)
    returns (longer: seq<World>, more: seq<Act>)
    requires Waits(j, b, boot, start, worlds, acts) && worlds[|acts|].st.sched.at.Serving?
    requires stale in worlds[|acts|].replies && P.IsVerdict(stale)
    ensures Poised(j, b, boot, start, longer, more, stale)
  {
    DeployedAlong(j, b, boot, worlds, acts, |acts|);
    var d := worlds[|acts|].st.link.dev;
    longer, more := worlds, acts;
    if d.rx.phase == Active {
      V.AbortFrees(b.hash, d);
      var p := V.AbortFrame(d.rx.id);
      longer, more := LatePlain(j, b, boot, start, worlds, acts, p, Process(b.hash, d, Parse(p)));
    }
  }

  /** A receiver that is done repeats its verdict for a late COMMIT. */
  lemma FalseRepeated(j: P.Job, b: Build, boot: State, start: World, worlds: seq<World>, acts: seq<Act>, d: Device)
    returns (longer: seq<World>, more: seq<Act>, stale: Reply)
    requires Waits(j, b, boot, start, worlds, acts) && worlds[|acts|].st.sched.at.Serving?
    requires d == worlds[|acts|].st.link.dev && d.rx.phase == Done && P.IsVerdictCode(d.rx.finalCode)
    ensures Poised(j, b, boot, start, longer, more, stale) && stale.code == d.rx.finalCode
  {
    DeployedAlong(j, b, boot, worlds, acts, |acts|);
    V.CommitRepeats(b.hash, d);
    var p := P.CommitFrame(d.rx.id);
    var r := Process(b.hash, d, Parse(p));
    FrameVerdict(b.hash, d, Parse(p));
    longer, more := LatePlain(j, b, boot, start, worlds, acts, p, r);
    stale := r.reply;
  }

  /** From the service loop: some false verdict can be put in flight. */
  lemma FalseVerdict(j: P.Job, b: Build, boot: State, start: World, worlds: seq<World>, acts: seq<Act>)
    returns (longer: seq<World>, more: seq<Act>, stale: Reply)
    requires Waits(j, b, boot, start, worlds, acts) && worlds[|acts|].st.sched.at.Serving?
    requires Roomy(worlds[|acts|].st.link.dev) && !OnlyTrue(j, b, worlds[|acts|])
    ensures Poised(j, b, boot, start, longer, more, stale) && stale.code != TrueCode(j, b)
  {
    DeployedAlong(j, b, boot, worlds, acts, |acts|);
    var w := worlds[|acts|];
    var d := w.st.link.dev;
    if r :| r in w.replies && P.IsVerdict(r) && r.code != TrueCode(j, b) {
      longer, more := FalseInFlight(j, b, boot, start, worlds, acts, r);
      stale := r;
    } else if d.rx.phase == Done {
      longer, more, stale := FalseRepeated(j, b, boot, start, worlds, acts, d);
    } else {
      var rest :| V.Completes(b.hash, d, rest) && VerdictCode(Inspect(b, Filled(d, rest))) != TrueCode(j, b);
      longer, more, stale := OldTransferJudged(j, b, boot, start, worlds, acts, d, rest, Filled(d, rest));
    }
  }

  /** From every start outside the condition some run ends with an answer that is not the verdict on the
      image that was sent. */
  lemma FalselyAnswered(j: P.Job, b: Build, boot: State, w: World)
    returns (worlds: seq<World>, acts: seq<Act>, code: Byte)
    requires Begins(j, b, boot, w) && !TrueStart(j, b, w)
    ensures IsRun(j, b, worlds, acts) && worlds[0] == w && Returns(worlds[|acts|], code) && code != TrueCode(j, b)
  {
    worlds, acts := ToService(j, b, boot, w, [w], []);
    var stale;
    worlds, acts, stale := FalseVerdict(j, b, boot, w, worlds, acts);
    worlds, acts := PoisedMisleads(j, b, boot, w, worlds, acts, stale);
    code := stale.code;
  }

  /** The exact condition, for every start of client, wire and device: an answer of `transfer` is the verdict
      of the gates on the image it sent, in every run, if and only if the BEGIN is malformed, or the core is
      parked, or every verdict that is in flight or that an earlier transfer can still bring is that one. */
  lemma TrulyExactly(j: P.Job, b: Build, boot: State, w: World)
    requires Begins(j, b, boot, w)
    ensures AnswersTruly(j, b, w) <==> TrueStart(j, b, w)
  {
    if TrueStart(j, b, w) {
      forall worlds: seq<World>, acts: seq<Act>, code: Byte |
        IsRun(j, b, worlds, acts) && worlds[0] == w && Returns(worlds[|acts|], code)
        ensures code == TrueCode(j, b)
      {
        TrueStartAnswers(j, b, boot, worlds, acts, code);
      }
    } else {
      var worlds, acts, code := FalselyAnswered(j, b, boot, w);
    }
  }

  // ----- what the answer means -----

  /** What an answer means, from every start on which it can be relied on: `transfer` returns True only if
      the gates pass the image it sent, and then the program of that image is live, unless it has been
      rolled back since it was installed, or the native module is in its slot. It returns on a REJECT only
      if they refuse it. */
  lemma AnswerMeansInstalled(j: P.Job, b: Build, boot: State, worlds: seq<World>, acts: seq<Act>, code: Byte, k: nat)
    requires IsRun(j, b, worlds, acts) && Begins(j, b, boot, worlds[0]) && TrueStart(j, b, worlds[0])
    requires Returns(worlds[|acts|], code) && k <= |acts| && !Given(j, worlds[k].st.link.dev)
    ensures code == TrueCode(j, b)
    ensures code == ACCEPT ==> InForce(worlds[|acts|].st, Inspect(b, j.image), worlds[k].st.log.programRolls)
  {
    TrueStartAnswers(j, b, boot, worlds, acts, code);
    FinishedMeansJudged(j, b, boot, worlds, acts, k);
  }

  /** For the image the tools build: once `transfer` has returned on a verdict it returns True, and the
      device runs exactly the program that was sent, unless that has been rolled back since it was
      installed. */
  lemma {:induction false} ProgramSentIsLive(j: P.Job, b: Build, boot: State, worlds: seq<World>, acts: seq<Act>,
      code: Byte, ins: seq<U64>, k: nat)
    requires IsRun(j, b, worlds, acts) && Begins(j, b, boot, worlds[0]) && TrueStart(j, b, worlds[0])
    requires Returns(worlds[|acts|], code) && k <= |acts| && !Given(j, worlds[k].st.link.dev)
    requires SendsProgram(j, b, ins)
    ensures var before, last := worlds[k].st, worlds[|acts|].st;
            code == ACCEPT && (last.progs.live == ins || last.log.programRolls > before.log.programRolls)
  {
    SentVerdict(j, b, ins);
    AnswerMeansInstalled(j, b, boot, worlds, acts, code, k);
  }

  /** And it can be completed from every world such a run can be in with the device in the service loop: in
      three acts for each frame left `transfer` returns True, with exactly that program live. */
  lemma {:induction false} TransferInstalls(j: P.Job, b: Build, boot: State, worlds: seq<World>, acts: seq<Act>,
      ins: seq<U64>) returns (longer: seq<World>, more: seq<Act>)
    requires IsRun(j, b, worlds, acts) && Begins(j, b, boot, worlds[0]) && SendsProgram(j, b, ins)
    requires P.Reachable(j, View(worlds[|acts|])) && worlds[|acts|].st.sched.at.Serving?
    requires !worlds[|acts|].client.Finished? && !Given(j, worlds[|acts|].st.link.dev)
    ensures IsRun(j, b, longer, more) && GoesOn(worlds, acts, longer, more)
    ensures |more| == |acts| + 3 * P.Remaining(j, worlds[|acts|].client)
    ensures Returns(longer[|more|], ACCEPT) && longer[|more|].st.progs.live == ins
  {
    SentVerdict(j, b, ins);
    longer, more := QuietWireReturns(j, b, boot, worlds, acts);
    assert longer[|acts|] == longer[..|worlds|][|acts|];
    FinishedMeansJudged(j, b, boot, longer, more, |acts|);
  }
}
