/** What an earlier image leaves in the staging area: the cases in which the bytes behind an image decide
    what is answered and installed. */
module Leftovers {
  import opened Words
  import opened Update
  import opened Isa
  import opened Supervisor
  import opened Images
  import Deployment
  import Mavlink
  import P = Protocol
  import S = Safety
  import Shipped
  import V = Verdicts

  /** A COMMIT of a complete transfer with the announced digest is judged in the same turn, by what the
      gates make of the whole staging area. */
  lemma CommitServed(b: Build, s: State, p: seq<Byte>)
    requires Shaped(s) && NothingStaged(s.link.dev) && s.link.dev.rx.phase == Active
    requires p == P.CommitFrame(s.link.dev.rx.id) && s.link.dev.rx.received == s.link.dev.rx.total
    requires b.hash(s.link.dev.pend[..s.link.dev.rx.total]) == s.link.dev.rx.expected
    ensures var s', v := Serve(b, s, FRAME_UPDATE, p), Inspect(b, s.link.dev.pend);
            s'.link.dev.rx.phase == Done && s'.link.dev.rx.finalCode == Deployment.VerdictCode(v) && S.Applied(s, s', v)
  {
    var d := s.link.dev;
    assert d.pend[..d.rx.received] + [] == d.pend[..d.rx.total];
    V.CommitStages(b.hash, d);
    Deployment.JudgingTurn(b, s, p, Process(b.hash, d, Parse(p)), Inspect(b, d.pend));
  }

  function WithPend(s: State, pend: seq<Byte>): State {
    s.(link := s.link.(dev := s.link.dev.(pend := pend)))
  }

  lemma PendIsFree(b: Build, boot: State, s: State, pend: seq<Byte>)
    requires Invariant(b, boot, s) && |pend| == |s.link.dev.pend|
    ensures Invariant(b, boot, WithPend(s, pend))
  {
    S.CoreIgnoresLink(b, boot, s, s.link.(dev := s.link.dev.(pend := pend)));
  }

  /** The same announced image, answered both ways. A transfer whose image ends before the digest its
      header speaks of is complete, its digest as announced, and the staging area behind it still holds
      the rest of an earlier image that passes the gates: its COMMIT is answered ACCEPT, and all of that
      image goes in force. With one other byte behind the announced image the same COMMIT is answered
      REJECT, and nothing moves. */
  lemma SameImageOtherAnswer(b: Build, boot: State, s: State, p: seq<Byte>)
    requires Invariant(b, boot, s) && s.link.dev.rx.phase == Active
    requires p == P.CommitFrame(s.link.dev.rx.id) && s.link.dev.rx.received == s.link.dev.rx.total
    requires b.hash(s.link.dev.pend[..s.link.dev.rx.total]) == s.link.dev.rx.expected
    requires !Inspect(b, s.link.dev.pend).Refused? && s.link.dev.rx.total < BodyLength(s.link.dev.pend) + 32
    ensures var pend, n := s.link.dev.pend, s.link.dev.rx.total;
            var t := WithPend(s, Spoilt(pend, BodyLength(pend)));
            && t.link.dev.pend[..n] == pend[..n] && Invariant(b, boot, t)
            && Serve(b, s, FRAME_UPDATE, p).link.dev.rx.finalCode == ACCEPT
            && S.Applied(s, Serve(b, s, FRAME_UPDATE, p), Inspect(b, pend))
            && Serve(b, t, FRAME_UPDATE, p).link.dev.rx.finalCode == REJECT
            && S.Applied(t, Serve(b, t, FRAME_UPDATE, p), Refused)
  {
    var pend, n := s.link.dev.pend, s.link.dev.rx.total;
    var body := BodyLength(pend);
    SpoiltIsRefused(b, pend);
    var q := Spoilt(pend, body);
    assert q[..n] == q[..body + 31][..n] == pend[..body + 31][..n] == pend[..n];
    PendIsFree(b, boot, s, q);
    CommitServed(b, s, p);
    CommitServed(b, WithPend(s, q), p);
  }

  // ----- and such staging areas exist -----

  /** The image of the shipped packet filter, 28 instructions, at the front of the staging area: of its
      232 bytes before the digest a transfer of 48 bytes brings five instructions. */
  lemma FilterLeftOver(b: Build, ins: seq<U64>, pend: seq<Byte>)
    requires IsHash(b.hash) && ins == Assemble(Mavlink.Policy()) && b.hash(BodyOf(ins)) in b.pinned
    requires |pend| == MAX_IMAGE && pend[..264] == ImageOf(b.hash, ins)
    ensures BodyLength(pend) == 232 && Inspect(b, pend) == Program(ins)
    ensures !Whole(pend[..48]) && !DecidedAlone(b, pend[..48])
  {
    var image := ImageOf(b.hash, ins);
    Shipped.MavlinkAccepted();
    ImageOfIsToolImage(b.hash, ins);
    assert image[..232] == BodyOf(ins);
    ToolImagePasses(b, ins, image, 28);
    PrefixInspects(b, pend, |image|);
    PrefixWord(pend, |image|, 0);
    PrefixWord(pend, |image|, 1);
    PrefixBody(pend, 48);
    NotAlone(b, pend, 48);
  }

  /** Header and code of a native image of 100 zero bytes: length 100, kind 2, the rest zero. */
  function ZeroBody(): (r: seq<Byte>)
    ensures |r| == 116
  {
    seq(116, i => if i == 0 then 100 else if i == 4 then 2 else 0)
  }

  lemma ZeroWords(p: seq<Byte>)
    requires |p| >= 16 && p[0] == 100 && p[4] == 2 && forall i | 0 <= i < 16 && i != 0 && i != 4 :: p[i] == 0
    ensures Word(p, 0) == 100 && Word(p, 1) == STAGED_NATIVE && Word(p, 2) == 0 && Word(p, 3) == 0
  {
  }

  lemma ZeroHeader(pend: seq<Byte>)
    requires |pend| >= 148 && pend[..116] == ZeroBody()
    ensures Word(pend, 0) == 100 && Word(pend, 1) == STAGED_NATIVE && Word(pend, 2) == 0 && Word(pend, 3) == 0
  {
    forall i | 0 <= i < 16
      ensures pend[i] == ZeroBody()[i]
    {
      assert pend[..116][i] == pend[i];
    }
    ZeroWords(pend);
  }

  lemma HundredPass(b: Build, pend: seq<Byte>)
    requires |pend| == MAX_IMAGE && Genuine(b, pend, 116) && BodyLength(pend) == 116 && Whole(pend)
    requires Word(pend, 0) == 100 && Word(pend, 1) == STAGED_NATIVE && Word(pend, 2) == 0 && Word(pend, 3) == 0
    ensures Inspect(b, pend) == Native(0, 0, pend[16..116]) && !DecidedAlone(b, pend[..16])
  {
    NativeInspected(b, pend, 100);
    NotAlone(b, pend, 16);
  }

  /** With this image at the front of the staging area and its digest pinned the image passes, and the
      verdict on its header alone is decided by what lies behind. */
  lemma NativeLeftOver(b: Build, pend: seq<Byte>)
    requires IsHash(b.hash) && |pend| == MAX_IMAGE && pend[..148] == ZeroBody() + b.hash(ZeroBody())
    requires b.hash(ZeroBody()) in b.pinned
    ensures Whole(pend) && Inspect(b, pend) == Native(0, 0, pend[16..116])
    ensures !DecidedAlone(b, pend[..16])
  {
    assert pend[..148][..116] == ZeroBody() && pend[..148][116..] == b.hash(ZeroBody());
    ZeroHeader(pend);
    HundredPass(b, pend);
  }

  /** What passes the gates is not decided by a part that ends before its digest. */
  lemma NotAlone(b: Build, pend: seq<Byte>, n: nat)
    requires |pend| >= MAX_IMAGE && 16 <= n <= MAX_IMAGE && BodyLength(pend) + 32 > n && !Inspect(b, pend).Refused?
    ensures !DecidedAlone(b, pend[..n])
  {
    PrefixBody(pend, n);
    DecidedExactly(b, pend[..n]);
    assert Staging(pend[..n], pend);
  }
}
