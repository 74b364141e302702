/** A transfer end to end: the client, the unreliable wire and the supervisor with its service loop.
    What it means for the device that the client reports success. */
module Deployment {
  import opened Words
  import opened Update
  import opened Isa
  import opened Supervisor
  import opened Images
  import D = Dataflow
  import P = Protocol
  import S = Safety

  // ----- one update frame through the service loop -----

  function VerdictCode(v: Verdict): Byte {
    if v.Refused? then REJECT else ACCEPT
  }

  function FinalReply(rx: Rx, v: Verdict): Reply {
    Reply(rx.id, rx.nextSeq, VerdictCode(v), if v.Refused? then ERR_STATE else 0)
  }

  /** What a turn leaves and sends when the frame stages nothing: just the step of the receiver. */
  predicate PlainOutcome(s: State, s': State, sends: seq<Sent>, r: Result) {
    && s'.link.dev == r.dev && s'.progs == s.progs && s'.nats == s.nats && s'.log == s.log && s'.sched == s.sched
    && sends == [Answer(r.reply)]
  }

  lemma PlainTurn(b: Build, s: State, p: seq<Byte>, r: Result)
    requires Shaped(s) && NothingStaged(s.link.dev) && |p| > 0
    requires r == Process(b.hash, s.link.dev, Parse(p)) && r.dev.rx.phase != Staged
    ensures PlainOutcome(s, Serve(b, s, FRAME_UPDATE, p), ServeSends(b, s, FRAME_UPDATE, p), r)
  {
    StagingIsAnnounced(b.hash, s.link.dev, Parse(p));
  }

  /** And when it stages the image: it is judged at once, and answered twice. */
  predicate JudgedOutcome(s: State, s': State, sends: seq<Sent>, r: Result, v: Verdict)
    requires Shaped(s) && Shaped(s') && (v.Native? ==> v.slot < 2)
  {
    && s'.link.dev == Judge(r.dev, !v.Refused?) && S.Applied(s, s', v)
    && s'.log.programRolls == s.log.programRolls
    && sends == [Answer(r.reply), Answer(FinalReply(r.dev.rx, v))]
  }

  lemma JudgingTurn(b: Build, s: State, p: seq<Byte>, r: Result, v: Verdict)
    requires Shaped(s) && NothingStaged(s.link.dev) && |p| > 0
    requires r == Process(b.hash, s.link.dev, Parse(p)) && r.dev.rx.phase == Staged
    requires v == Inspect(b, s.link.dev.pend)
    ensures JudgedOutcome(s, Serve(b, s, FRAME_UPDATE, p), ServeSends(b, s, FRAME_UPDATE, p), r, v)
    ensures r.dev.pend == s.link.dev.pend
  {
    StagingIsAnnounced(b.hash, s.link.dev, Parse(p));
    S.UpdateFrameNotes(b, s.link, s.counts, p);
    S.JudgedInTurn(b, s, Poll(b, s, FRAME_UPDATE, p), false);
  }

  /** Frames that neither speak of updates nor write the staging area. */
  predicate Aside(kind: Byte, p: seq<Byte>) {
    |p| == 0 || (kind != FRAME_UPDATE && kind != FRAME_PROGRAM && kind != FRAME_NATIVE)
  }

  predicate SameImages(n: Natives, n': Natives) {
    && TwoSlots(n) && TwoSlots(n')
    && forall k | 0 <= k < 2 :: n'.slots[k].code == n.slots[k].code && n'.slots[k].entry == n.slots[k].entry
  }

  lemma AsideTurn(b: Build, s: State, kind: Byte, p: seq<Byte>)
    requires Shaped(s) && NothingStaged(s.link.dev) && Aside(kind, p)
    ensures Keeps(s, Serve(b, s, kind, p)) && Serve(b, s, kind, p).link.dev == s.link.dev
    ensures forall r :: Answer(r) !in ServeSends(b, s, kind, p)
  {
  }

  // ----- the world -----

  /** Device, client and wire. */
  datatype World = World(st: State, client: P.Client, sent: set<seq<Byte>>, replies: set<Reply>)

  function View(w: World): P.Sys {
    P.Sys(w.st.link.dev, w.client, w.sent, w.replies)
  }

  datatype Act = Transmit | Receive(r: Reply) | Turn(e: Step)

  /** What the wire may bring to the device: frames of this transfer and strays; no other tool stages
      an image meanwhile. */
  predicate Carried(j: P.Job, w: World, e: Step) {
    e.Frame? ==>
      Aside(e.kind, e.payload)
      || (e.kind == FRAME_UPDATE && (e.payload in w.sent || P.Stray(j, w.st.link.dev, Parse(e.payload))))
  }

  predicate Possible(j: P.Job, w: World, a: Act) {
    match a
    case Transmit => P.Enabled(j, View(w), P.Transmit)
    case Receive(r) => P.Enabled(j, View(w), P.DeliverReply(r))
    case Turn(e) => Enabled(w.st, e) && Carried(j, w, e)
  }

  function Answers(sends: seq<Sent>): set<Reply> {
    set m | m in sends && m.Answer? :: m.r
  }

  ghost function Sends(b: Build, s: State, e: Step): seq<Sent>
    requires Shaped(s)
  {
    if e.Frame? then ServeSends(b, s, e.kind, e.payload) else []
  }

  ghost function After(j: P.Job, b: Build, w: World, a: Act): World
    requires Shaped(w.st) && Possible(j, w, a)
  {
    match a
    case Transmit => w.(sent := w.sent + {P.Current(j, w.client)})
    case Receive(r) => w.(client := P.Advance(j, w.client, r))
    case Turn(e) => w.(st := Next(b, w.st, e), replies := w.replies + Answers(Sends(b, w.st, e)))
  }

  // ----- what the device holds -----

  /** The verdict is in force: the program is live, unless there have been more rollbacks than this; the
      native module is in its slot. */
  predicate InForce(s: State, v: Verdict, rolls: nat) {
    match v
    case Program(ins) => s.progs.live == ins || s.log.programRolls > rolls
    case Native(k, entry, code) =>
      k < |s.nats.slots| && s.nats.slots[k].code == code && s.nats.slots[k].entry == entry
    case _ => false
  }

  /** What a device step leaves alone. */
  predicate Keeps(s: State, s': State) {
    && SameImages(s.nats, s'.nats) && s'.log.programRolls >= s.log.programRolls
    && (s'.progs.live == s.progs.live || s'.log.programRolls > s.log.programRolls)
  }

  lemma KeepsInForce(s: State, s': State, v: Verdict, rolls: nat)
    requires Keeps(s, s') && InForce(s, v, rolls) && s.log.programRolls >= rolls
    ensures InForce(s', v, rolls)
  {
  }

  /** Yields and faults do not touch the receiver, and replace a live program only by rolling it back. */
  lemma RoundStepKeeps(b: Build, s: State, e: Step)
    requires Shaped(s) && Enabled(s, e) && !e.Frame?
    ensures Keeps(s, Next(b, s, e)) && Next(b, s, e).link == s.link
  {
  }

  lemma AppliedInForce(s: State, s': State, v: Verdict, rolls: nat)
    requires Shaped(s) && Shaped(s') && (v.Native? ==> v.slot < 2) && S.Applied(s, s', v)
    requires !v.NoImage? && !v.Refused?
    ensures InForce(s', v, rolls)
  {
  }

  // ----- the invariant of a deployment -----

  /** Once the device is done with our transfer, the verdict it gave is that of the gates on our image,
      and in force if it was positive. */
  ghost predicate Settled(j: P.Job, b: Build, s: State, rolls: nat)
    requires Whole(j.image)
  {
    var v := Inspect(b, j.image);
    s.link.dev.rx.id == j.tid && s.link.dev.rx.phase == Done ==>
      s.link.dev.rx.finalCode == VerdictCode(v) && (!v.Refused? ==> InForce(s, v, rolls))
  }

  ghost predicate Deployed(j: P.Job, b: Build, boot: State, rolls: nat, w: World) {
    && Invariant(b, boot, w.st) && P.Consistent(j, View(w))
    && Whole(j.image) && w.st.log.programRolls >= rolls && Settled(j, b, w.st, rolls)
  }

  /** Client and wire as they were, and the replies of a turn added. */
  predicate Heard(w: World, w': World, replies: set<Reply>) {
    w'.client == w.client && w'.sent == w.sent && w'.replies == w.replies + replies
  }

  /** What does not touch the receiver keeps what it has settled. */
  lemma SettledKept(j: P.Job, b: Build, s: State, s': State, rolls: nat)
    requires Whole(j.image) && Settled(j, b, s, rolls) && Keeps(s, s') && s.log.programRolls >= rolls
    requires s'.link.dev.rx == s.link.dev.rx
    ensures Settled(j, b, s', rolls)
  {
    if InForce(s, Inspect(b, j.image), rolls) {
      KeepsInForce(s, s', Inspect(b, j.image), rolls);
    }
  }

  lemma QuietKeeps(j: P.Job, b: Build, boot: State, rolls: nat, w: World, w': World)
    requires Deployed(j, b, boot, rolls, w) && Invariant(b, boot, w'.st)
    requires Keeps(w.st, w'.st) && w'.st.link.dev == w.st.link.dev && Heard(w, w', {})
    ensures Deployed(j, b, boot, rolls, w')
  {
    SettledKept(j, b, w.st, w'.st, rolls);
    assert View(w') == View(w);
  }

  /** What the device does to the world in one turn. */
  function Turned(w: World, st: State, sends: seq<Sent>): World {
    World(st, w.client, w.sent, w.replies + Answers(sends))
  }

  lemma TurnIs(j: P.Job, b: Build, w: World, e: Step)
    requires Shaped(w.st) && Possible(j, w, Turn(e))
    ensures After(j, b, w, Turn(e)) == Turned(w, Next(b, w.st, e), Sends(b, w.st, e))
  {
  }

  lemma RoundKeeps(b: Build, boot: State, s: State, e: Step, s': State)
    requires Invariant(b, boot, s) && Enabled(s, e) && !e.Frame? && s' == Next(b, s, e)
    ensures Invariant(b, boot, s') && Keeps(s, s') && s'.link == s.link
  {
    S.NextKeeps(b, boot, s, e);
    RoundStepKeeps(b, s, e);
  }

  lemma NoAnswers()
    ensures Answers([]) == {}
  {
  }

  lemma AsideKeeps(b: Build, boot: State, s: State, kind: Byte, p: seq<Byte>, s': State, sends: seq<Sent>)
    requires Invariant(b, boot, s) && s.sched.at.Serving? && Aside(kind, p)
    requires s' == Serve(b, s, kind, p) && sends == ServeSends(b, s, kind, p)
    ensures Invariant(b, boot, s') && Keeps(s, s') && s'.link.dev == s.link.dev && Answers(sends) == {}
  {
    S.ServeKeeps(b, boot, s, kind, p);
    AsideTurn(b, s, kind, p);
  }

  /** The client and the wire see the delivery of a frame. */
  lemma Delivered(j: P.Job, s: P.Sys, s': P.Sys, p: seq<Byte>, r: Result)
    requires IsHash(j.hash) && P.Consistent(j, s) && (p in s.sent || P.Stray(j, s.dev, Parse(p)))
    requires r == Process(j.hash, s.dev, Parse(p)) && s' == s.(dev := r.dev, replies := s.replies + {r.reply})
    ensures P.Consistent(j, s')
  {
    P.NextConsistent(j, s, P.DeliverFrame(p));
  }

  /** The client and the wire see the verdict on a staged image. */
  lemma Judged(j: P.Job, s: P.Sys, s': P.Sys, v: Verdict)
    requires IsHash(j.hash) && P.Consistent(j, s) && s.dev.rx.phase == Staged
    requires s' == s.(dev := Judge(s.dev, !v.Refused?), replies := s.replies + {FinalReply(s.dev.rx, v)})
    ensures P.Consistent(j, s')
  {
    P.NextConsistent(j, s, P.Decide(!v.Refused?));
  }

  /** A receiver that is done after a frame was done before it. */
  lemma DoneBefore(hash: Hash, d: Device, w: Wire)
    requires Roomy(d) && WellSized(w) && Process(hash, d, w).dev.rx.phase == Done
    ensures Process(hash, d, w).dev.rx == d.rx
  {
  }

  lemma PlainSettles(j: P.Job, b: Build, s: State, s': State, sends: seq<Sent>, r: Result, rolls: nat)
    requires Shaped(s) && Shaped(s') && Whole(j.image) && Settled(j, b, s, rolls) && s.log.programRolls >= rolls
    requires PlainOutcome(s, s', sends, r) && (r.dev.rx.phase == Done ==> r.dev.rx == s.link.dev.rx)
    ensures Settled(j, b, s', rolls)
  {
    if r.dev.rx.phase == Done {
      SettledKept(j, b, s, s', rolls);
    }
  }

  lemma OneAnswer(r: Reply)
    ensures Answers([Answer(r)]) == {r}
  {
    assert Answer(r) in [Answer(r)];
  }

  lemma TwoReplies(a: set<Reply>, first: Reply, last: Reply)
    ensures a + {first} + {last} == a + {first, last}
  {
  }

  lemma TwoAnswers(first: Reply, last: Reply)
    ensures Answers([Answer(first), Answer(last)]) == {first, last}
  {
    var sends := [Answer(first), Answer(last)];
    assert sends[0] in sends && sends[1] in sends;
  }

  /** The frame of a deployed world is one the protocol allows. */
  predicate Brings(j: P.Job, w: World, p: seq<Byte>) {
    |p| > 0 && (p in w.sent || P.Stray(j, w.st.link.dev, Parse(p)))
  }

  /** What a turn of the device comes to: the receiver is not concerned; or one frame is answered and
      nothing staged; or the frame stages an image, which is judged at once. */
  datatype Outcome = Still | Plain(p: seq<Byte>, r: Result) | Judging(p: seq<Byte>, r: Result, v: Verdict)

  ghost predicate Turns(j: P.Job, b: Build, boot: State, w: World, w': World, o: Outcome)
    requires Shaped(w.st)
  {
    && Invariant(b, boot, w'.st)
    && match o
       case Still => Keeps(w.st, w'.st) && w'.st.link.dev == w.st.link.dev && Heard(w, w', {})
       case Plain(p, r) =>
         && Brings(j, w, p) && r == Process(b.hash, w.st.link.dev, Parse(p)) && r.dev.rx.phase != Staged
         && PlainOutcome(w.st, w'.st, [Answer(r.reply)], r) && Heard(w, w', {r.reply})
       case Judging(p, r, v) =>
         && Brings(j, w, p) && r == Process(b.hash, w.st.link.dev, Parse(p)) && r.dev.rx.phase == Staged
         && r.dev.pend == w.st.link.dev.pend && v == Inspect(b, r.dev.pend)
         && JudgedOutcome(w.st, w'.st, [Answer(r.reply), Answer(FinalReply(r.dev.rx, v))], r, v)
         && Heard(w, w', {r.reply, FinalReply(r.dev.rx, v)})
  }

  lemma PlainKeeps(j: P.Job, b: Build, boot: State, rolls: nat, w: World, w': World, p: seq<Byte>, r: Result)
    requires IsHash(b.hash) && j.hash == b.hash && Deployed(j, b, boot, rolls, w)
    requires Turns(j, b, boot, w, w', Plain(p, r))
    ensures Deployed(j, b, boot, rolls, w')
  {
    Delivered(j, View(w), View(w'), p, r);
    if r.dev.rx.phase == Done {
      DoneBefore(b.hash, w.st.link.dev, Parse(p));
    }
    PlainSettles(j, b, w.st, w'.st, [Answer(r.reply)], r, rolls);
  }

  /** A receiver that has our image staged has it in the staging area. */
  lemma StagedIsOurs(j: P.Job, b: Build, s: P.Sys)
    requires P.Consistent(j, s) && s.dev.rx.id == j.tid && s.dev.rx.phase == Staged && Whole(j.image)
    ensures Inspect(b, s.dev.pend) == Inspect(b, j.image)
  {
    assert s.dev.pend[..|j.image|] == j.image[..|j.image|] == j.image;
    PrefixInspects(b, s.dev.pend, |j.image|);
  }

  lemma JudgedSettles(j: P.Job, b: Build, s: State, s': State, mid: P.Sys, v: Verdict, rolls: nat)
    requires Shaped(s) && Shaped(s') && (v.Native? ==> v.slot < 2) && S.Applied(s, s', v) && !v.NoImage?
    requires P.Consistent(j, mid) && mid.dev.rx.phase == Staged && Whole(j.image)
    requires v == Inspect(b, mid.dev.pend) && s'.link.dev == Judge(mid.dev, !v.Refused?)
    ensures Settled(j, b, s', rolls)
  {
    if mid.dev.rx.id == j.tid {
      StagedIsOurs(j, b, mid);
      if !v.Refused? {
        AppliedInForce(s, s', v, rolls);
      }
    }
  }

  /** Delivery and verdict together, as the client and the wire see them. */
  lemma DeliveredAndJudged(j: P.Job, s: P.Sys, s': P.Sys, p: seq<Byte>, r: Result, v: Verdict)
    requires IsHash(j.hash) && P.Consistent(j, s) && (p in s.sent || P.Stray(j, s.dev, Parse(p)))
    requires r == Process(j.hash, s.dev, Parse(p)) && r.dev.rx.phase == Staged
    requires s' == s.(dev := Judge(r.dev, !v.Refused?), replies := s.replies + {r.reply, FinalReply(r.dev.rx, v)})
    ensures P.Consistent(j, s.(dev := r.dev, replies := s.replies + {r.reply}))
    ensures P.Consistent(j, s')
  {
    var mid := s.(dev := r.dev, replies := s.replies + {r.reply});
    Delivered(j, s, mid, p, r);
    TwoReplies(s.replies, r.reply, FinalReply(r.dev.rx, v));
    Judged(j, mid, s', v);
  }

  lemma JudgedKeeps(j: P.Job, b: Build, boot: State, rolls: nat, w: World, w': World, p: seq<Byte>, r: Result,
                    v: Verdict)
    requires IsHash(b.hash) && j.hash == b.hash && Deployed(j, b, boot, rolls, w)
    requires Turns(j, b, boot, w, w', Judging(p, r, v))
    ensures Deployed(j, b, boot, rolls, w')
  {
    DeliveredAndJudged(j, View(w), View(w'), p, r, v);
    JudgedSettles(j, b, w.st, w'.st, View(w).(dev := r.dev, replies := w.replies + {r.reply}), v, rolls);
  }

  lemma PlainFrame(j: P.Job, b: Build, boot: State, w: World, p: seq<Byte>, r: Result, s': State, sends: seq<Sent>)
    requires Invariant(b, boot, w.st) && w.st.sched.at.Serving?
    requires Brings(j, w, p) && r == Process(b.hash, w.st.link.dev, Parse(p)) && r.dev.rx.phase != Staged
    requires s' == Serve(b, w.st, FRAME_UPDATE, p) && sends == ServeSends(b, w.st, FRAME_UPDATE, p)
    ensures Turns(j, b, boot, w, Turned(w, s', sends), Plain(p, r))
  {
    S.ServeKeeps(b, boot, w.st, FRAME_UPDATE, p);
    PlainTurn(b, w.st, p, r);
    OneAnswer(r.reply);
  }

  lemma JudgedFrame(j: P.Job, b: Build, boot: State, w: World, p: seq<Byte>, r: Result, v: Verdict, s': State,
                    sends: seq<Sent>)
    requires Invariant(b, boot, w.st) && w.st.sched.at.Serving?
    requires Brings(j, w, p) && r == Process(b.hash, w.st.link.dev, Parse(p)) && r.dev.rx.phase == Staged
    requires v == Inspect(b, w.st.link.dev.pend)
    requires s' == Serve(b, w.st, FRAME_UPDATE, p) && sends == ServeSends(b, w.st, FRAME_UPDATE, p)
    ensures Turns(j, b, boot, w, Turned(w, s', sends), Judging(p, r, v))
  {
    S.ServeKeeps(b, boot, w.st, FRAME_UPDATE, p);
    JudgingTurn(b, w.st, p, r, v);
    TwoAnswers(r.reply, FinalReply(r.dev.rx, v));
  }

  lemma FrameOutcome(j: P.Job, b: Build, boot: State, w: World, kind: Byte, p: seq<Byte>, s': State, sends: seq<Sent>)
    returns (o: Outcome)
    requires Invariant(b, boot, w.st) && w.st.sched.at.Serving? && Carried(j, w, Step.Frame(kind, p))
    requires s' == Serve(b, w.st, kind, p) && sends == ServeSends(b, w.st, kind, p)
    ensures Turns(j, b, boot, w, Turned(w, s', sends), o)
  {
    if Aside(kind, p) {
      AsideKeeps(b, boot, w.st, kind, p, s', sends);
      o := Still;
    } else {
      var r := Process(b.hash, w.st.link.dev, Parse(p));
      if r.dev.rx.phase == Staged {
        var v := Inspect(b, w.st.link.dev.pend);
        JudgedFrame(j, b, boot, w, p, r, v, s', sends);
        o := Judging(p, r, v);
      } else {
        PlainFrame(j, b, boot, w, p, r, s', sends);
        o := Plain(p, r);
      }
    }
  }

  /** Every turn of the device is one of the three. */
  lemma TurnOutcome(j: P.Job, b: Build, boot: State, w: World, e: Step) returns (o: Outcome)
    requires Invariant(b, boot, w.st) && Possible(j, w, Turn(e))
    ensures Turns(j, b, boot, w, After(j, b, w, Turn(e)), o)
  {
    TurnIs(j, b, w, e);
    if e.Frame? {
      o := FrameOutcome(j, b, boot, w, e.kind, e.payload, Next(b, w.st, e), Sends(b, w.st, e));
    } else {
      RoundKeeps(b, boot, w.st, e, Next(b, w.st, e));
      NoAnswers();
      o := Still;
    }
  }

  lemma TurnKeeps(j: P.Job, b: Build, boot: State, rolls: nat, w: World, w': World, o: Outcome)
    requires IsHash(b.hash) && j.hash == b.hash && Deployed(j, b, boot, rolls, w) && Turns(j, b, boot, w, w', o)
    ensures Deployed(j, b, boot, rolls, w')
  {
    match o
    case Still =>
      QuietKeeps(j, b, boot, rolls, w, w');
    case Plain(p, r) =>
      PlainKeeps(j, b, boot, rolls, w, w', p, r);
    case Judging(p, r, v) =>
      JudgedKeeps(j, b, boot, rolls, w, w', p, r, v);
  }

  lemma ClientStep(j: P.Job, b: Build, boot: State, rolls: nat, w: World, w': World, a: P.Action)
    requires IsHash(b.hash) && j.hash == b.hash && Deployed(j, b, boot, rolls, w) && P.Enabled(j, View(w), a)
    requires w'.st == w.st && View(w') == P.Next(j, View(w), a)
    ensures Deployed(j, b, boot, rolls, w')
  {
    P.NextConsistent(j, View(w), a);
  }

  lemma EveryAct(j: P.Job, b: Build, boot: State, rolls: nat, w: World, a: Act)
    requires IsHash(b.hash) && j.hash == b.hash && Deployed(j, b, boot, rolls, w) && Possible(j, w, a)
    ensures Deployed(j, b, boot, rolls, After(j, b, w, a))
  {
    match a
    case Transmit =>
      ClientStep(j, b, boot, rolls, w, After(j, b, w, a), P.Transmit);
    case Receive(r) =>
      ClientStep(j, b, boot, rolls, w, After(j, b, w, a), P.DeliverReply(r));
    case Turn(e) =>
      var o := TurnOutcome(j, b, boot, w, e);
      TurnKeeps(j, b, boot, rolls, w, After(j, b, w, a), o);
  }

  // ----- whole runs -----

  ghost predicate Moves(j: P.Job, b: Build, w: World, a: Act, w': World) {
    Shaped(w.st) && Possible(j, w, a) && w' == After(j, b, w, a)
  }

  ghost predicate IsRun(j: P.Job, b: Build, worlds: seq<World>, acts: seq<Act>) {
    && |worlds| == |acts| + 1
    && forall i | 0 <= i < |acts| :: Moves(j, b, worlds[i], acts[i], worlds[i + 1])
  }

  /** A client about to begin with a fresh id, and a device in order, wherever it is in its round and
      whatever earlier transfers left at the receiver and on the wire. */
  ghost predicate Begins(j: P.Job, b: Build, boot: State, w: World) {
    IsHash(b.hash) && j.hash == b.hash && Whole(j.image) && Invariant(b, boot, w.st) && P.Initial(j, View(w))
  }

  lemma StartDeployed(j: P.Job, b: Build, boot: State, w: World)
    requires Begins(j, b, boot, w)
    ensures Deployed(j, b, boot, w.st.log.programRolls, w)
  {
    P.RunConsistent(j, [View(w)], []);
  }

  lemma MoveKeeps(j: P.Job, b: Build, boot: State, rolls: nat, w: World, a: Act, w': World)
    requires IsHash(b.hash) && j.hash == b.hash && Deployed(j, b, boot, rolls, w) && Moves(j, b, w, a, w')
    ensures Deployed(j, b, boot, rolls, w')
  {
    EveryAct(j, b, boot, rolls, w, a);
  }

  lemma KeptAt(j: P.Job, b: Build, boot: State, rolls: nat, worlds: seq<World>, acts: seq<Act>, i: nat)
    requires IsHash(b.hash) && j.hash == b.hash && IsRun(j, b, worlds, acts) && i < |acts|
    requires Deployed(j, b, boot, rolls, worlds[i])
    ensures Deployed(j, b, boot, rolls, worlds[i + 1])
  {
    assert Moves(j, b, worlds[i], acts[i], worlds[i + 1]);
    MoveKeeps(j, b, boot, rolls, worlds[i], acts[i], worlds[i + 1]);
  }

  /** Induction along a run. */
  lemma {:induction false} Onward(holds: nat -> bool, k: nat, i: nat)
    requires k <= i && holds(k) && forall n: nat | k <= n < i && holds(n) :: holds(n + 1)
    ensures holds(i)
    decreases i
  {
    if k < i {
      Onward(holds, k, i - 1);
      assert holds(i - 1);
    }
  }

  lemma DeployedOnward(j: P.Job, b: Build, boot: State, rolls: nat, worlds: seq<World>, acts: seq<Act>, k: nat, i: nat)
    requires IsHash(b.hash) && j.hash == b.hash && IsRun(j, b, worlds, acts) && k <= i < |worlds|
    requires Deployed(j, b, boot, rolls, worlds[k])
    ensures Deployed(j, b, boot, rolls, worlds[i])
  {
    ghost var holds := (n: nat) => n < |worlds| && Deployed(j, b, boot, rolls, worlds[n]);
    forall n: nat | k <= n < i && holds(n)
      ensures holds(n + 1)
    {
      KeptAt(j, b, boot, rolls, worlds, acts, n);
    }
    Onward(holds, k, i);
  }

  lemma DeployedAlong(j: P.Job, b: Build, boot: State, worlds: seq<World>, acts: seq<Act>, i: nat)
    requires IsRun(j, b, worlds, acts) && Begins(j, b, boot, worlds[0]) && i < |worlds|
    ensures Deployed(j, b, boot, worlds[0].st.log.programRolls, worlds[i])
  {
    StartDeployed(j, b, boot, worlds[0]);
    DeployedOnward(j, b, boot, worlds[0].st.log.programRolls, worlds, acts, 0, i);
  }

  /** The device has given its verdict on our transfer. */
  predicate Given(j: P.Job, d: Device) {
    d.rx.id == j.tid && d.rx.phase == Done
  }

  /** Before that nothing is settled, so rollbacks count from there. */
  lemma CountFrom(j: P.Job, b: Build, boot: State, rolls: nat, w: World)
    requires Deployed(j, b, boot, rolls, w) && !Given(j, w.st.link.dev)
    ensures Deployed(j, b, boot, w.st.log.programRolls, w)
  {
  }

  /** From any point of a run at which the device has given no verdict on our transfer: once it has, that
      is the verdict of the gates on our image, and a positive one is in force, unless a rollback has been
      counted since that point. */
  lemma DeployedSince(j: P.Job, b: Build, boot: State, worlds: seq<World>, acts: seq<Act>, k: nat, i: nat)
    requires IsRun(j, b, worlds, acts) && Begins(j, b, boot, worlds[0]) && k <= i < |worlds|
    requires !Given(j, worlds[k].st.link.dev)
    ensures Deployed(j, b, boot, worlds[k].st.log.programRolls, worlds[i])
  {
    DeployedAlong(j, b, boot, worlds, acts, k);
    CountFrom(j, b, boot, worlds[0].st.log.programRolls, worlds[k]);
    DeployedOnward(j, b, boot, worlds[k].st.log.programRolls, worlds, acts, k, i);
  }

  /** A client whose COMMIT has been answered: the device has given its verdict, and if the answer was one,
      that is it. */
  lemma FinishedIsGiven(j: P.Job, b: Build, boot: State, rolls: nat, w: World)
    requires Deployed(j, b, boot, rolls, w) && w.client.Finished?
    ensures Given(j, w.st.link.dev) && w.st.link.dev.rx.finalCode == VerdictCode(Inspect(b, j.image))
    ensures P.IsVerdictCode(w.client.code) ==> w.client.code == VerdictCode(Inspect(b, j.image))
  {
  }

  /** What a finished transfer means, over every run of client, wire and supervisor, whatever earlier
      transfers have left about: the device has given the verdict of the gates on the image that was sent.
      If it is positive, the program of that image is live, unless it has been rolled back since it was
      installed, or the native module is in its slot. */
  lemma FinishedMeansJudged(j: P.Job, b: Build, boot: State, worlds: seq<World>, acts: seq<Act>, k: nat)
    requires IsRun(j, b, worlds, acts) && Begins(j, b, boot, worlds[0]) && worlds[|acts|].client.Finished?
    requires k <= |acts| && !Given(j, worlds[k].st.link.dev)
    ensures var last, v := worlds[|acts|].st, Inspect(b, j.image);
            && Given(j, last.link.dev) && last.link.dev.rx.finalCode == VerdictCode(v)
            && (!v.Refused? ==> InForce(last, v, worlds[k].st.log.programRolls))
  {
    DeployedSince(j, b, boot, worlds, acts, k, |acts|);
    FinishedIsGiven(j, b, boot, worlds[k].st.log.programRolls, worlds[|acts|]);
  }

  /** `transfer` has returned on this verdict: the answer to its COMMIT, or the first to arrive after STAGED. */
  predicate Returns(w: World, code: Byte) {
    && P.IsVerdictCode(code)
    && (w.client == P.Finished(code)
        || (w.client == P.Finished(STAGED) && exists r :: r in w.replies && r.code == code))
  }

  /** The job is to send the tools' image of an accepted program whose digest is pinned. */
  ghost predicate SendsProgram(j: P.Job, b: Build, ins: seq<U64>) {
    && 0 < |ins| <= MAX_INSNS && D.Accepted(ins) && ToolImage(b.hash, ins, j.image)
    && b.hash(j.image[..8 + 8 * |ins|]) in b.pinned
  }

  lemma {:induction false} SentVerdict(j: P.Job, b: Build, ins: seq<U64>)
    requires SendsProgram(j, b, ins)
    ensures Whole(j.image) && Inspect(b, j.image) == Program(ins)
  {
    ToolImagePasses(b, ins, j.image, |ins|);
  }
}
