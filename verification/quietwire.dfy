/** A transfer on a quiet wire: the client, the device and its gates, undisturbed from some point on. */
module QuietWire {
  import opened Words
  import opened Update
  import opened Supervisor
  import opened Deployment
  import P = Protocol

  // ----- longer runs -----

  /** A run that goes on from another. */
  predicate GoesOn(worlds: seq<World>, acts: seq<Act>, longer: seq<World>, more: seq<Act>) {
    && |worlds| == |acts| + 1 <= |longer| && longer[..|worlds|] == worlds
    && |acts| <= |more| && more[..|acts|] == acts
  }

  lemma GoesOnTwice(w1: seq<World>, a1: seq<Act>, w2: seq<World>, a2: seq<Act>, w3: seq<World>, a3: seq<Act>)
    requires GoesOn(w1, a1, w2, a2) && GoesOn(w2, a2, w3, a3)
    ensures GoesOn(w1, a1, w3, a3)
  {
    assert w3[..|w1|] == w3[..|w2|][..|w1|];
    assert a3[..|a1|] == a3[..|a2|][..|a1|];
  }

  lemma Extend(j: P.Job, b: Build, worlds: seq<World>, acts: seq<Act>, a: Act, w: World)
    requires IsRun(j, b, worlds, acts) && Moves(j, b, worlds[|acts|], a, w)
    ensures IsRun(j, b, worlds + [w], acts + [a])
  {
    var longer, more := worlds + [w], acts + [a];
    forall i | 0 <= i < |more|
      ensures Moves(j, b, longer[i], more[i], longer[i + 1])
    {
      if i < |acts| {
        assert Moves(j, b, worlds[i], acts[i], worlds[i + 1]);
      }
    }
  }

  /** Three acts: the client sends its current frame, the device takes it, the client its answer. */
  lemma ExtendThrice(j: P.Job, b: Build, worlds: seq<World>, acts: seq<Act>, p: seq<Byte>, r: Reply, w2: World,
                     w3: World) returns (longer: seq<World>, more: seq<Act>)
    requires IsRun(j, b, worlds, acts) && Shaped(worlds[|acts|].st)
    requires Possible(j, worlds[|acts|], Transmit) && p == P.Current(j, worlds[|acts|].client)
    requires Moves(j, b, Sent(worlds[|acts|], p), Turn(Step.Frame(FRAME_UPDATE, p)), w2)
    requires Moves(j, b, w2, Receive(r), w3)
    ensures IsRun(j, b, longer, more) && GoesOn(worlds, acts, longer, more)
    ensures |more| == |acts| + 3 && longer[|more|] == w3
  {
    var w1 := Sent(worlds[|acts|], p);
    Extend(j, b, worlds, acts, Transmit, w1);
    longer, more := worlds + [w1], acts + [Transmit];
    Extend(j, b, longer, more, Turn(Step.Frame(FRAME_UPDATE, p)), w2);
    longer, more := longer + [w2], more + [Turn(Step.Frame(FRAME_UPDATE, p))];
    Extend(j, b, longer, more, Receive(r), w3);
    longer, more := longer + [w3], more + [Receive(r)];
  }

  function Sent(w: World, p: seq<Byte>): World {
    w.(sent := w.sent + {p})
  }

  /** The device in the service loop takes a frame that has been sent. */
  lemma TurnMoves(j: P.Job, b: Build, w: World, p: seq<Byte>) returns (w': World)
    requires Shaped(w.st) && w.st.sched.at.Serving? && p in w.sent
    ensures Moves(j, b, w, Turn(Step.Frame(FRAME_UPDATE, p)), w')
    ensures w' == World(Serve(b, w.st, FRAME_UPDATE, p), w.client, w.sent,
                        w.replies + Answers(ServeSends(b, w.st, FRAME_UPDATE, p)))
  {
    w' := After(j, b, w, Turn(Step.Frame(FRAME_UPDATE, p)));
  }

  lemma ReceiveMoves(j: P.Job, b: Build, w: World, r: Reply) returns (w': World)
    requires Shaped(w.st) && r in w.replies && P.Accepts(j, w.client, r)
    ensures Moves(j, b, w, Receive(r), w') && w' == w.(client := P.Advance(j, w.client, r))
  {
    w' := After(j, b, w, Receive(r));
  }

  lemma AnswersHold(r: Reply, sends: seq<Sent>)
    requires Answer(r) in sends
    ensures r in Answers(sends)
  {
  }

  /** One exchange more on the run, and nothing heard before is lost. */
  ghost predicate Exchanged(j: P.Job, b: Build, worlds: seq<World>, acts: seq<Act>, longer: seq<World>,
                            more: seq<Act>) {
    && IsRun(j, b, longer, more) && GoesOn(worlds, acts, longer, more) && |more| == |acts| + 3
    && worlds[|acts|].replies <= longer[|more|].replies
    && longer[|more|].st.log.programRolls == worlds[|acts|].st.log.programRolls
  }

  /** While nothing is staged the device stays in the service loop. */
  lemma PlainExchange(j: P.Job, b: Build, worlds: seq<World>, acts: seq<Act>, w: World, p: seq<Byte>, r: Result)
    returns (longer: seq<World>, more: seq<Act>)
    requires IsRun(j, b, worlds, acts) && w == worlds[|acts|] && Shaped(w.st) && NothingStaged(w.st.link.dev)
    requires w.st.sched.at.Serving? && Possible(j, w, Transmit) && p == P.Current(j, w.client) && |p| > 0
    requires r == Process(b.hash, w.st.link.dev, Parse(p)) && P.Accepts(j, w.client, r.reply)
    requires r.dev.rx.phase != Staged
    ensures Exchanged(j, b, worlds, acts, longer, more)
    ensures longer[|more|].client == P.Advance(j, w.client, r.reply) && longer[|more|].st.sched.at.Serving?
    ensures longer[|more|].st.link.dev == r.dev
  {
    PlainTurn(b, w.st, p, r);
    var w2 := TurnMoves(j, b, Sent(w, p), p);
    AnswersHold(r.reply, ServeSends(b, w.st, FRAME_UPDATE, p));
    var w3 := ReceiveMoves(j, b, w2, r.reply);
    longer, more := ExtendThrice(j, b, worlds, acts, p, r.reply, w2, w3);
  }

  /** The exchange that stages the image: the verdict is on the wire when the client has its answer. */
  lemma JudgingExchange(j: P.Job, b: Build, worlds: seq<World>, acts: seq<Act>, w: World, p: seq<Byte>, r: Result,
      v: Verdict) returns (longer: seq<World>, more: seq<Act>)
    requires IsRun(j, b, worlds, acts) && w == worlds[|acts|] && Shaped(w.st) && NothingStaged(w.st.link.dev)
    requires w.st.sched.at.Serving? && Possible(j, w, Transmit) && p == P.Current(j, w.client) && |p| > 0
    requires r == Process(b.hash, w.st.link.dev, Parse(p)) && P.Accepts(j, w.client, r.reply)
    requires r.dev.rx.phase == Staged && v == Inspect(b, w.st.link.dev.pend)
    ensures Exchanged(j, b, worlds, acts, longer, more)
    ensures longer[|more|].client == P.Advance(j, w.client, r.reply)
    ensures FinalReply(r.dev.rx, v) in longer[|more|].replies
  {
    JudgingTurn(b, w.st, p, r, v);
    var w2 := TurnMoves(j, b, Sent(w, p), p);
    var sends := ServeSends(b, w.st, FRAME_UPDATE, p);
    assert sends[0] in sends && sends[1] in sends;
    AnswersHold(r.reply, sends);
    AnswersHold(FinalReply(r.dev.rx, v), sends);
    var w3 := ReceiveMoves(j, b, w2, r.reply);
    longer, more := ExtendThrice(j, b, worlds, acts, p, r.reply, w2, w3);
  }

  lemma FramesAreLong(j: P.Job, c: P.Client)
    requires c.Sending? ==> c.k < P.ChunkCount(j.image)
    ensures |P.Current(j, c)| > 0
  {
  }

  /** Before the COMMIT nothing is staged. */
  lemma NotYetStaged(j: P.Job, s: P.Sys, r: Result)
    requires IsHash(j.hash) && P.Consistent(j, s) && P.Reachable(j, s) && (s.client.Beginning? || s.client.Sending?)
    requires s.dev.rx.phase != Staged && r == Process(j.hash, s.dev, Parse(P.Current(j, s.client)))
    ensures r.dev.rx.phase != Staged
  {
    match s.client
    case Beginning =>
      P.BeginDelivered(j, s.dev);
    case Sending(k) =>
      P.DataDelivered(j, s.dev, k);
  }

  /** The answer STAGED to a COMMIT means that the image has just been staged. */
  lemma StagedAnswer(hash: Hash, d: Device, w: Wire)
    requires Roomy(d) && WellSized(w) && w.op == OP_COMMIT && d.rx.phase != Staged
    requires d.rx.phase == Done ==> d.rx.finalCode != STAGED
    ensures Process(hash, d, w).reply.code == STAGED ==> Process(hash, d, w).dev.rx.phase == Staged
  {
  }

  lemma CommitAnswer(j: P.Job, s: P.Sys, r: Result)
    requires IsHash(j.hash) && P.Consistent(j, s) && s.client == P.Committing && s.dev.rx.phase != Staged
    requires r == Process(j.hash, s.dev, Parse(P.Current(j, s.client))) && P.Accepts(j, s.client, r.reply)
    ensures r.dev.rx.phase != Staged ==> P.Advance(j, s.client, r.reply) != P.Finished(STAGED)
  {
    P.CommitFields(j.tid);
    StagedAnswer(j.hash, s.dev, Parse(P.CommitFrame(j.tid)));
  }

  /** What the COMMIT of our client stages is our image. */
  lemma StagedCode(j: P.Job, b: Build, s: P.Sys, r: Result)
    requires IsHash(j.hash) && P.Consistent(j, s) && s.client == P.Committing && s.dev.rx.phase != Staged
    requires s.dev.magic != PEND_MAGIC && Whole(j.image)
    requires r == Process(j.hash, s.dev, Parse(P.CommitFrame(j.tid))) && r.dev.rx.phase == Staged
    ensures Inspect(b, s.dev.pend) == Inspect(b, j.image) && r.reply.code == STAGED
  {
    StagingIsAnnounced(j.hash, s.dev, Parse(P.CommitFrame(j.tid)));
    P.CommitDelivered(j, s.dev);
    StagedIsOurs(j, b, s.(dev := r.dev, replies := {}, client := P.Committing));
  }

  /** An exchange before the last: one frame less to go, the device still in the service loop. */
  lemma NextExchange(j: P.Job, b: Build, boot: State, worlds: seq<World>, acts: seq<Act>, w: World)
    returns (longer: seq<World>, more: seq<Act>)
    requires IsRun(j, b, worlds, acts) && Begins(j, b, boot, worlds[0]) && w == worlds[|acts|]
    requires P.Reachable(j, View(w)) && w.st.sched.at.Serving? && (w.client.Beginning? || w.client.Sending?)
    ensures Exchanged(j, b, worlds, acts, longer, more)
    ensures P.Remaining(j, longer[|more|].client) == P.Remaining(j, w.client) - 1
    ensures !longer[|more|].client.Finished? && !longer[|more|].client.Beginning?
    ensures longer[|more|].st.sched.at.Serving?
    ensures Given(j, longer[|more|].st.link.dev) ==> Given(j, w.st.link.dev)
  {
    DeployedAlong(j, b, boot, worlds, acts, |acts|);
    var p := P.Current(j, w.client);
    var r := Process(b.hash, w.st.link.dev, Parse(p));
    P.CurrentAnswered(j, View(w));
    NotYetStaged(j, View(w), r);
    FramesAreLong(j, w.client);
    longer, more := PlainExchange(j, b, worlds, acts, w, p, r);
    P.AdvanceCounts(j, w.client, r.reply);
    if r.dev.rx.phase == Done {
      DoneBefore(b.hash, w.st.link.dev, Parse(p));
    }
  }

  /** The last exchange: the COMMIT, and its answer. When the device had given no verdict before, it stages
      the image and gives it now. */
  lemma LastExchange(j: P.Job, b: Build, boot: State, worlds: seq<World>, acts: seq<Act>, w: World)
    returns (longer: seq<World>, more: seq<Act>)
    requires IsRun(j, b, worlds, acts) && Begins(j, b, boot, worlds[0]) && w == worlds[|acts|]
    requires P.Reachable(j, View(w)) && w.st.sched.at.Serving? && w.client == P.Committing
    ensures Exchanged(j, b, worlds, acts, longer, more)
    ensures Returns(longer[|more|], VerdictCode(Inspect(b, j.image)))
    ensures !Given(j, w.st.link.dev) ==> longer[|more|].client == P.Finished(STAGED)
  {
    DeployedAlong(j, b, boot, worlds, acts, |acts|);
    var p := P.CommitFrame(j.tid);
    var r := Process(b.hash, w.st.link.dev, Parse(p));
    P.CurrentAnswered(j, View(w));
    if r.dev.rx.phase == Staged {
      StagedCode(j, b, View(w), r);
      longer, more := JudgingExchange(j, b, worlds, acts, w, p, r, Inspect(b, w.st.link.dev.pend));
      assert FinalReply(r.dev.rx, Inspect(b, w.st.link.dev.pend)).code == VerdictCode(Inspect(b, j.image));
    } else {
      CommitAnswer(j, View(w), r);
      longer, more := PlainExchange(j, b, worlds, acts, w, p, r);
      AnsweredReturns(j, b, boot, longer, more, r.reply);
      DoneBefore(b.hash, w.st.link.dev, Parse(p));
    }
  }

  /** A client that has an ACCEPT or REJECT has returned on it, and it is the device's. */
  lemma AnsweredReturns(j: P.Job, b: Build, boot: State, worlds: seq<World>, acts: seq<Act>, r: Reply)
    requires IsRun(j, b, worlds, acts) && Begins(j, b, boot, worlds[0])
    requires worlds[|acts|].client == P.Finished(r.code) && P.IsVerdict(r)
    ensures Returns(worlds[|acts|], VerdictCode(Inspect(b, j.image))) && Given(j, worlds[|acts|].st.link.dev)
  {
    DeployedAlong(j, b, boot, worlds, acts, |acts|);
    FinishedIsGiven(j, b, boot, worlds[0].st.log.programRolls, worlds[|acts|]);
  }

  /** From any world a run can be in, with the device in the service loop: the run goes on from there by
      three acts for each frame left, send, take and answer, and then the client has the verdict of the
      gates on its image; nothing that was in flight is lost, and nothing is rolled back. */
  lemma {:induction false} QuietWireReturns(j: P.Job, b: Build, boot: State, worlds: seq<World>, acts: seq<Act>)
    returns (longer: seq<World>, more: seq<Act>)
    requires IsRun(j, b, worlds, acts) && Begins(j, b, boot, worlds[0])
    requires P.Reachable(j, View(worlds[|acts|])) && worlds[|acts|].st.sched.at.Serving?
    requires !worlds[|acts|].client.Finished?
    ensures IsRun(j, b, longer, more) && GoesOn(worlds, acts, longer, more)
    ensures |more| == |acts| + 3 * P.Remaining(j, worlds[|acts|].client)
    ensures Returns(longer[|more|], VerdictCode(Inspect(b, j.image)))
    ensures worlds[|acts|].replies <= longer[|more|].replies
    ensures longer[|more|].st.log.programRolls == worlds[|acts|].st.log.programRolls
    ensures !Given(j, worlds[|acts|].st.link.dev) ==> longer[|more|].client == P.Finished(STAGED)
    decreases P.Remaining(j, worlds[|acts|].client)
  {
    var w := worlds[|acts|];
    if w.client == P.Committing {
      longer, more := LastExchange(j, b, boot, worlds, acts, w);
    } else {
      var next, so := NextExchange(j, b, boot, worlds, acts, w);
      longer, more := QuietWireReturns(j, b, boot, next, so);
      GoesOnTwice(worlds, acts, next, so, longer, more);
    }
  }
}
