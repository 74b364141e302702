/** Images in the staging area: what the gates make of an image alone, and of an image that does not
    reach as far as its header says; and the image the tools build for a program. */
module Images {
  import opened Words
  import opened Update
  import opened Isa
  import opened Supervisor
  import D = Dataflow
  import I = Interpreter

  // ----- what the bytes behind an image can do -----

  lemma PrefixWord(p: seq<Byte>, n: nat, k: nat)
    requires 4 * k + 4 <= n <= |p|
    ensures Word(p[..n], k) == Word(p, k)
  {
  }

  lemma PrefixBody(p: seq<Byte>, n: nat)
    requires 16 <= n <= |p|
    ensures BodyLength(p[..n]) == BodyLength(p)
  {
    PrefixWord(p, n, 0);
    PrefixWord(p, n, 1);
  }

  lemma PrefixGenuine(b: Build, p: seq<Byte>, n: nat, body: nat)
    requires body + 32 <= n <= |p|
    ensures Genuine(b, p[..n], body) <==> Genuine(b, p, body)
  {
    assert p[..n][..body] == p[..body];
    assert p[..n][body..body + 32] == p[body..body + 32];
  }

  lemma PrefixCode(p: seq<Byte>, n: nat, cnt: nat)
    requires 8 + 8 * cnt <= n <= |p|
    ensures Code(p[..n], cnt) == Code(p, cnt)
  {
    forall i | 0 <= i < cnt
      ensures Code(p[..n], cnt)[i] == Code(p, cnt)[i]
    {
      assert p[..n][8 + 8 * i..16 + 8 * i] == p[8 + 8 * i..16 + 8 * i];
    }
  }

  /** The gates look no further than the digest behind the body. */
  lemma PrefixInspects(b: Build, p: seq<Byte>, n: nat)
    requires Whole(p) && n <= |p| && Whole(p[..n])
    ensures Inspect(b, p[..n]) == Inspect(b, p)
  {
    PrefixBody(p, n);
    var body := BodyLength(p);
    if body != 0 {
      PrefixGenuine(b, p, n, body);
      PrefixWord(p, n, 0);
      PrefixWord(p, n, 1);
      PrefixWord(p, n, 2);
      PrefixWord(p, n, 3);
      if Word(p, 1) == STAGED_NATIVE {
        assert p[..n][16..16 + Word(p, 0)] == p[16..16 + Word(p, 0)];
      } else {
        PrefixCode(p, n, Word(p, 0));
      }
    }
  }

  lemma WriteInspects(b: Build, pend: seq<Byte>, a: seq<Byte>)
    requires |pend| >= MAX_IMAGE && |a| <= |pend| && Whole(a)
    ensures Inspect(b, Write(pend, 0, a)) == Inspect(b, a)
  {
    var staged := Write(pend, 0, a);
    assert staged[..|a|] == a;
    PrefixInspects(b, staged, |a|);
  }

  /** Whatever lies behind it in the staging area, the gates make the same of this image. */
  ghost predicate DecidedAlone(b: Build, a: seq<Byte>) {
    forall p, q | Staging(a, p) && Staging(a, q) :: Inspect(b, p) == Inspect(b, q)
  }

  /** A staging area that begins with these bytes. */
  predicate Staging(a: seq<Byte>, p: seq<Byte>) {
    |p| >= MAX_IMAGE && |p| >= |a| && p[..|a|] == a
  }

  /** No staging area with these bytes in front passes the gates. */
  ghost predicate NothingFits(b: Build, a: seq<Byte>) {
    forall p | Staging(a, p) :: Inspect(b, p).Refused?
  }

  /** The last byte of the digest changed. */
  function Spoilt(p: seq<Byte>, body: nat): (q: seq<Byte>)
    requires body + 32 <= |p|
    ensures |q| == |p| && q[..body + 31] == p[..body + 31]
  {
    p[body + 31 := if p[body + 31] == 0 then 1 else 0]
  }

  lemma SpoiltIsRefused(b: Build, p: seq<Byte>)
    requires Whole(p) && !Inspect(b, p).Refused?
    ensures BodyLength(p) != 0 && Whole(Spoilt(p, BodyLength(p))) && Inspect(b, Spoilt(p, BodyLength(p))).Refused?
  {
    var body := BodyLength(p);
    var q := Spoilt(p, body);
    assert q[..16] == p[..16] by {
      assert q[..body + 31][..16] == p[..body + 31][..16];
    }
    PrefixBody(p, 16);
    PrefixBody(q, 16);
    assert q[..body] == p[..body] by {
      assert q[..body + 31][..body] == p[..body + 31][..body];
    }
    assert q[body..body + 32][31] != p[body..body + 32][31];
  }

  /** The verdict on an image does not depend on what lies behind it if and only if the image reaches
      as far as its header says, or nothing that begins with it passes the gates. */
  lemma DecidedExactly(b: Build, a: seq<Byte>)
    requires 16 <= |a| <= MAX_IMAGE
    ensures DecidedAlone(b, a) <==> Whole(a) || NothingFits(b, a)
  {
    if Whole(a) {
      forall p, q | Staging(a, p) && Staging(a, q)
        ensures Inspect(b, p) == Inspect(b, q)
      {
        PrefixInspects(b, p, |a|);
        PrefixInspects(b, q, |a|);
      }
    } else if !NothingFits(b, a) {
      var p :| Staging(a, p) && !Inspect(b, p).Refused?;
      SpoiltIsRefused(b, p);
      PrefixBody(p, |a|);
      var q := Spoilt(p, BodyLength(p));
      assert q[..|a|] == q[..BodyLength(p) + 31][..|a|];
      assert p[..|a|] == p[..BodyLength(p) + 31][..|a|];
      assert Staging(a, q);
    }
  }

  /** What the gates would make of an image with nothing behind it. */
  ghost function Alone(b: Build, a: seq<Byte>): Verdict {
    if Whole(a) then Inspect(b, a) else Refused
  }

  /** The gates read the image in front of a staging area alone, exactly if it reaches as far as its
      header says or the staging area is refused. */
  lemma AloneExactly(b: Build, p: seq<Byte>, n: nat)
    requires |p| >= MAX_IMAGE && n <= |p|
    ensures Inspect(b, p) == Alone(b, p[..n]) <==> Whole(p[..n]) || Inspect(b, p).Refused?
  {
    if Whole(p[..n]) {
      PrefixInspects(b, p, n);
    }
  }

  /** The n bytes behind the header of an image written over the staging area: its own, and those of an
      earlier image where it is too short. */
  function CodeBehind(pend: seq<Byte>, p: seq<Byte>, n: nat): seq<Byte>
    requires 16 <= |p| <= |pend| && 16 + n <= |pend|
  {
    if 16 + n <= |p| then p[16..16 + n] else p[16..] + pend[|p|..16 + n]
  }

  /** What the gates read of a native image written over the staging area. */
  lemma NativeRead(b: Build, pend: seq<Byte>, p: seq<Byte>)
    requires |pend| >= MAX_IMAGE && 16 <= |p| <= |pend| && Inspect(b, Write(pend, 0, p)).Native?
    ensures var v, n := Inspect(b, Write(pend, 0, p)), Word(p, 0);
            && n <= NATIVE_LIMIT && v.slot == Word(p, 3) && v.entry == Word(p, 2)
            && v.code == CodeBehind(pend, p, n)
  {
    var staged, n := Write(pend, 0, p), Word(p, 0);
    assert staged[..|p|] == p;
    PrefixWord(staged, |p|, 0);
    PrefixWord(staged, |p|, 2);
    PrefixWord(staged, |p|, 3);
    assert n <= NATIVE_LIMIT;
    CodePart(pend, p, n);
  }

  lemma CodePart(pend: seq<Byte>, p: seq<Byte>, n: nat)
    requires 16 <= |p| <= |pend| && 16 + n <= |pend|
    ensures Write(pend, 0, p)[16..16 + n] == CodeBehind(pend, p, n)
  {
    var a, c := Write(pend, 0, p)[16..16 + n], CodeBehind(pend, p, n);
    assert |a| == |c| == n;
    forall i | 0 <= i < n
      ensures a[i] == c[i]
    {
      assert c[i] == if 16 + i < |p| then p[16 + i] else pend[16 + i];
    }
  }

  lemma NativeInspected(b: Build, p: seq<Byte>, n: nat)
    requires |p| >= 16 + n + 32 && 0 < n == Word(p, 0) <= NATIVE_LIMIT && Word(p, 1) == STAGED_NATIVE
    requires Genuine(b, p, 16 + n) && Word(p, 2) % 2 == 0 && Word(p, 2) < NATIVE_TEXT && Word(p, 3) < 2
    ensures Whole(p) && Inspect(b, p) == Native(Word(p, 3), Word(p, 2), p[16..16 + n])
  {
  }

  // ----- the image of a program, as the tools build it -----

  function Le64Bytes(x: U64): seq<Byte> {
    Le32Bytes(x % TWO32) + Le32Bytes(x / TWO32)
  }

  function CodeBytes(ins: seq<U64>): (r: seq<Byte>)
    ensures |r| == 8 * |ins|
  {
    if |ins| == 0 then [] else CodeBytes(ins[..|ins| - 1]) + Le64Bytes(ins[|ins| - 1])
  }

  /** Header and code of the image of a program. */
  function BodyOf(ins: seq<U64>): (r: seq<Byte>)
    requires |ins| <= MAX_INSNS
    ensures |r| == 8 + 8 * |ins|
  {
    Le32Bytes(|ins|) + Le32Bytes(STAGED_EBPF) + CodeBytes(ins)
  }

  /** `pass_all_image`. */
  function ImageOf(hash: Hash, ins: seq<U64>): seq<Byte>
    requires |ins| <= MAX_INSNS
  {
    BodyOf(ins) + hash(BodyOf(ins))
  }

  lemma LoadFirst(bytes: seq<Byte>)
    requires |bytes| > 0
    ensures I.LoadLe(bytes) == bytes[0] + 0x100 * I.LoadLe(bytes[1..])
  {
  }

  lemma LoadFour(bytes: seq<Byte>)
    requires |bytes| >= 4
    ensures I.LoadLe(bytes) == Le32(bytes[0], bytes[1], bytes[2], bytes[3]) + TWO32 * I.LoadLe(bytes[4..])
  {
    LoadFirst(bytes);
    LoadFirst(bytes[1..]);
    LoadFirst(bytes[2..]);
    LoadFirst(bytes[3..]);
    assert bytes[1..][1..] == bytes[2..] && bytes[2..][1..] == bytes[3..] && bytes[3..][1..] == bytes[4..];
  }

  lemma LoadStored(x: U64)
    ensures Load64(Le64Bytes(x)) == x
  {
    var bytes := Le64Bytes(x);
    LoadFour(bytes);
    LoadFour(bytes[4..]);
    Le32RoundTrip(x % TWO32);
    Le32RoundTrip(x / TWO32);
    assert bytes[4..][4..] == [];
  }

  lemma {:induction false} CodeBytesAt(ins: seq<U64>, i: nat)
    requires i < |ins|
    ensures CodeBytes(ins)[8 * i..8 * i + 8] == Le64Bytes(ins[i])
  {
    var n := |ins| - 1;
    if i < n {
      CodeBytesAt(ins[..n], i);
      assert CodeBytes(ins)[8 * i..8 * i + 8] == CodeBytes(ins[..n])[8 * i..8 * i + 8];
    }
  }

  // ----- reading an image -----

  lemma HeaderWords(p: seq<Byte>, x: U32, y: U32)
    requires |p| >= 8 && p[..8] == Le32Bytes(x) + Le32Bytes(y)
    ensures Word(p, 0) == x && Word(p, 1) == y
  {
    Le32RoundTrip(x);
    Le32RoundTrip(y);
    var h := p[..8];
    assert h[0] == p[0] && h[1] == p[1] && h[2] == p[2] && h[3] == p[3];
    assert h[4] == p[4] && h[5] == p[5] && h[6] == p[6] && h[7] == p[7];
  }

  lemma CodeAgrees(a: seq<Byte>, b: seq<Byte>, cnt: nat)
    requires 8 + 8 * cnt <= |a| && 8 + 8 * cnt <= |b| && a[8..8 + 8 * cnt] == b[8..8 + 8 * cnt]
    ensures Code(a, cnt) == Code(b, cnt)
  {
    forall i | 0 <= i < cnt
      ensures Code(a, cnt)[i] == Code(b, cnt)[i]
    {
      SubSlice(a, 8, 8 + 8 * cnt, 8 * i, 8 * i + 8);
      SubSlice(b, 8, 8 + 8 * cnt, 8 * i, 8 * i + 8);
    }
  }

  lemma ProgramInspected(b: Build, p: seq<Byte>, cnt: nat, code: seq<U64>)
    requires 0 < cnt <= MAX_INSNS && |p| >= 8 + 8 * cnt + 32 && Word(p, 0) == cnt && Word(p, 1) == STAGED_EBPF
    requires Genuine(b, p, 8 + 8 * cnt) && code == Code(p, cnt) && D.Accepted(code)
    ensures Whole(p) && Inspect(b, p) == Program(code)
  {
  }

  lemma SubSlice(p: seq<Byte>, from: nat, end: nat, i: nat, k: nat)
    requires from <= end <= |p| && i <= k <= end - from
    ensures p[from..end][i..k] == p[from + i..from + k]
  {
    var a, b := p[from..end][i..k], p[from + i..from + k];
    assert |a| == |b| && forall n | 0 <= n < |a| :: a[n] == b[n];
  }

  lemma {:induction false} CodeAt(ins: seq<U64>, i: nat, word: seq<Byte>)
    requires i < |ins| && word == CodeBytes(ins)[8 * i..8 * i + 8]
    ensures Load64(word) == ins[i]
  {
    CodeBytesAt(ins, i);
    LoadStored(ins[i]);
  }

  lemma {:induction false} CodeIsAt(ins: seq<U64>, p: seq<Byte>, end: nat, i: nat)
    requires end == 8 + 8 * |ins| <= |p| && p[8..end] == CodeBytes(ins) && i < |ins|
    ensures Code(p, |ins|)[i] == ins[i]
  {
    SubSlice(p, 8, end, 8 * i, 8 * i + 8);
    CodeAt(ins, i, p[8 + 8 * i..16 + 8 * i]);
  }

  lemma {:induction false} CodeIs(ins: seq<U64>, p: seq<Byte>, end: nat)
    requires end == 8 + 8 * |ins| <= |p| && p[8..end] == CodeBytes(ins)
    ensures Code(p, |ins|) == ins
  {
    forall i | 0 <= i < |ins|
      ensures Code(p, |ins|)[i] == ins[i]
    {
      CodeIsAt(ins, p, end, i);
    }
  }

  /** The image of a program: header, code, digest of both. */
  predicate ToolImage(hash: Hash, ins: seq<U64>, p: seq<Byte>) {
    var end := 8 + 8 * |ins|;
    && |p| == end + 32 && Word(p, 0) == |ins| && Word(p, 1) == STAGED_EBPF
    && p[8..end] == CodeBytes(ins) && p[end..] == hash(p[..end])
  }

  /** What `pass_all_image` builds is one. */
  lemma {:induction false} ImageOfIsToolImage(hash: Hash, ins: seq<U64>)
    requires IsHash(hash) && |ins| <= MAX_INSNS
    ensures ToolImage(hash, ins, ImageOf(hash, ins))
  {
    var p, body := ImageOf(hash, ins), BodyOf(ins);
    var end := 8 + 8 * |ins|;
    assert p[..end] == body && p[end..] == hash(body);
    assert p[8..end] == body[8..] == CodeBytes(ins);
    assert p[..8] == body[..8] == Le32Bytes(|ins|) + Le32Bytes(STAGED_EBPF);
    HeaderWords(p, |ins|, STAGED_EBPF);
  }

  /** The image of an accepted program passes the gates, as that program, if its digest is pinned. */
  lemma {:induction false} ToolImagePasses(b: Build, ins: seq<U64>, p: seq<Byte>, cnt: nat)
    requires cnt == |ins| && 0 < cnt <= MAX_INSNS && D.Accepted(ins)
    requires ToolImage(b.hash, ins, p) && b.hash(p[..8 + 8 * cnt]) in b.pinned
    ensures Whole(p) && Inspect(b, p) == Program(ins)
  {
    CodeIs(ins, p, 8 + 8 * cnt);
    assert p[8 + 8 * cnt..8 + 8 * cnt + 32] == p[8 + 8 * cnt..];
    ProgramInspected(b, p, cnt, ins);
  }
}
