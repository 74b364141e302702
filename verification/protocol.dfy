/** The stop-and-wait sender (tools/update_client.py, tools/update_frame.py) against the
    receiver, over a wire that loses, duplicates, reorders and corrupts frames both ways. */
module Protocol {
  import opened Words
  import opened Crc
  import opened Update

  const CHUNK: int := 32

  function Le16Bytes(x: U16): seq<Byte> {
    [x % 0x100, x / 0x100]
  }

  // ----- the frames the client sends -----

  type Image = s: seq<Byte> | 0 < |s| <= MAX_IMAGE witness [0]

  function ChunkCount(image: Image): nat {
    (|image| + CHUNK - 1) / CHUNK
  }

  function ChunkEnd(image: Image, k: nat): nat {
    if CHUNK * (k + 1) <= |image| then CHUNK * (k + 1) else |image|
  }

  function Chunk(image: Image, k: nat): seq<Byte>
    requires k < ChunkCount(image)
  {
    image[CHUNK * k..ChunkEnd(image, k)]
  }

  function BeginFrame(hash: Hash, tid: U32, image: Image): seq<Byte> {
    WithCrc([OP_BEGIN] + Le32Bytes(tid) + Le16Bytes(|image|) + hash(image))
  }

  function DataBytes(id: U32, n: U16, off: U16, data: seq<Byte>): seq<Byte>
    requires |data| < 0x100
  {
    WithCrc([OP_DATA] + Le32Bytes(id) + Le16Bytes(n) + Le16Bytes(off) + [|data|] + data)
  }

  function DataFrame(tid: U32, image: Image, k: nat): seq<Byte>
    requires k < ChunkCount(image)
  {
    DataBytes(tid, k, CHUNK * k, Chunk(image, k))
  }

  /** An operation and an id, all there is to a COMMIT or an ABORT. */
  function ShortFrame(op: Byte, id: U32): seq<Byte> {
    WithCrc([op] + Le32Bytes(id))
  }

  function CommitFrame(tid: U32): seq<Byte> {
    ShortFrame(OP_COMMIT, tid)
  }

  lemma AppendedIsOk(body: seq<Byte>, p: seq<Byte>)
    requires p == WithCrc(body)
    ensures |p| == |body| + 2 && p[..|body|] == body && CrcOk(p)
  {
    WithCrcIsOk(body, p);
  }

  lemma BeginParts(tid: U32, image: Image, digest: seq<Byte>, p: seq<Byte>)
    requires |digest| == 32 && p == WithCrc([OP_BEGIN] + Le32Bytes(tid) + Le16Bytes(|image|) + digest)
    ensures |p| == 41 && p[0] == OP_BEGIN && CrcOk(p) && p[7..39] == digest
    ensures [p[1], p[2], p[3], p[4]] == Le32Bytes(tid) && [p[5], p[6]] == Le16Bytes(|image|)
  {
    var body := [OP_BEGIN] + Le32Bytes(tid) + Le16Bytes(|image|) + digest;
    AppendedIsOk(body, p);
    BeginLayout(p, Le32Bytes(tid), Le16Bytes(|image|), digest);
  }

  lemma BeginLayout(p: seq<Byte>, id: seq<Byte>, n: seq<Byte>, digest: seq<Byte>)
    requires |id| == 4 && |n| == 2 && |digest| == 32 && |p| == 41 && p[..39] == [OP_BEGIN] + id + n + digest
    ensures p[0] == OP_BEGIN && p[7..39] == digest && [p[1], p[2], p[3], p[4]] == id && [p[5], p[6]] == n
  {
    var body := p[..39];
    assert p[7..39] == body[7..] == digest;
    assert [body[1], body[2], body[3], body[4]] == id;
    assert [body[5], body[6]] == n;
  }

  predicate IsBegin(w: Wire, tid: U32, image: Image, digest: seq<Byte>) {
    w.n == 41 && w.op == OP_BEGIN && w.id == tid && w.crcOk && w.w5 == |image| && w.sha == digest
  }

  lemma BeginFields(hash: Hash, tid: U32, image: Image)
    requires IsHash(hash)
    ensures IsBegin(Parse(BeginFrame(hash, tid, image)), tid, image, hash(image))
  {
    BeginParts(tid, image, hash(image), BeginFrame(hash, tid, image));
    Le32RoundTrip(tid);
    Le16RoundTrip(|image|);
  }

  lemma Le16RoundTrip(x: U16)
    ensures Le16(Le16Bytes(x)[0], Le16Bytes(x)[1]) == x
  {
  }

  /** Where the parts of a DATA frame lie. */
  lemma DataLayout(p: seq<Byte>, id: seq<Byte>, n: seq<Byte>, off: seq<Byte>, len: Byte, data: seq<Byte>)
    requires |id| == 4 && |n| == |off| == 2 && |p| == 12 + |data|
    requires p[..10 + |data|] == [OP_DATA] + id + n + off + [len] + data
    ensures p[0] == OP_DATA && p[9] == len && p[10..|p| - 2] == data
    ensures [p[1], p[2], p[3], p[4]] == id && [p[5], p[6]] == n && [p[7], p[8]] == off
  {
    var body := p[..10 + |data|];
    assert p[10..|p| - 2] == body[10..] == data;
    assert [body[1], body[2], body[3], body[4]] == id;
    assert [body[5], body[6]] == n;
    assert [body[7], body[8]] == off;
  }

  lemma DataParts(id: U32, n: U16, off: U16, data: seq<Byte>, p: seq<Byte>)
    requires |data| < 0x100 && p == DataBytes(id, n, off, data)
    ensures |p| == 12 + |data| && p[0] == OP_DATA && p[9] == |data| && p[10..|p| - 2] == data && CrcOk(p)
    ensures [p[1], p[2], p[3], p[4]] == Le32Bytes(id)
    ensures [p[5], p[6]] == Le16Bytes(n) && [p[7], p[8]] == Le16Bytes(off)
  {
    var body := [OP_DATA] + Le32Bytes(id) + Le16Bytes(n) + Le16Bytes(off) + [|data|] + data;
    AppendedIsOk(body, p);
    DataLayout(p, Le32Bytes(id), Le16Bytes(n), Le16Bytes(off), |data|, data);
  }

  lemma DataBytesFields(id: U32, n: U16, off: U16, data: seq<Byte>)
    requires |data| < 0x100
    ensures var w := Parse(DataBytes(id, n, off, data));
            && w.n == 12 + |data| && w.op == OP_DATA && w.id == id && w.crcOk
            && w.w5 == n && w.w7 == off && w.b9 == |data| && w.data == data
  {
    DataParts(id, n, off, data, DataBytes(id, n, off, data));
    DataRead(id, n, off, data, DataBytes(id, n, off, data));
  }

  lemma DataRead(id: U32, n: U16, off: U16, data: seq<Byte>, p: seq<Byte>)
    requires |p| == 12 + |data| && p[0] == OP_DATA && p[9] == |data| && p[10..|p| - 2] == data && CrcOk(p)
    requires [p[1], p[2], p[3], p[4]] == Le32Bytes(id)
    requires [p[5], p[6]] == Le16Bytes(n) && [p[7], p[8]] == Le16Bytes(off)
    ensures var w := Parse(p);
            && w.n == 12 + |data| && w.op == OP_DATA && w.id == id && w.crcOk
            && w.w5 == n && w.w7 == off && w.b9 == |data| && w.data == data
  {
    Le32RoundTrip(id);
    Le16RoundTrip(n);
    Le16RoundTrip(off);
  }

  lemma DataFields(tid: U32, image: Image, k: nat)
    requires k < ChunkCount(image)
    ensures var w, data := Parse(DataFrame(tid, image, k)), Chunk(image, k);
            && 1 <= |data| <= CHUNK && w.n == 12 + |data| && w.op == OP_DATA && w.id == tid && w.crcOk
            && w.w5 == k && w.w7 == CHUNK * k && w.b9 == |data| && w.data == data
  {
    DataBytesFields(tid, k, CHUNK * k, Chunk(image, k));
  }

  lemma ShortParts(op: Byte, id: U32, p: seq<Byte>)
    requires p == ShortFrame(op, id)
    ensures |p| == 7 && p[0] == op && [p[1], p[2], p[3], p[4]] == Le32Bytes(id) && CrcOk(p)
  {
    AppendedIsOk([op] + Le32Bytes(id), p);
    assert p[..5] == [op] + Le32Bytes(id);
    assert [p[1], p[2], p[3], p[4]] == p[..5][1..];
  }

  predicate IsShort(w: Wire, op: Byte, id: U32) {
    w.n == 7 && w.op == op && w.id == id && w.crcOk
  }

  lemma ShortFields(op: Byte, id: U32)
    ensures IsShort(Parse(ShortFrame(op, id)), op, id)
  {
    ShortParts(op, id, ShortFrame(op, id));
    Le32RoundTrip(id);
  }

  lemma CommitFields(tid: U32)
    ensures var w := Parse(CommitFrame(tid)); w.n == 7 && w.op == OP_COMMIT && w.id == tid && w.crcOk
  {
    ShortFields(OP_COMMIT, tid);
  }

  // ----- the replies on the wire -----

  /** `update_send_reply`. */
  function ReplyBytes(r: Reply): seq<Byte> {
    WithCrc([r.code] + Le32Bytes(r.id) + Le16Bytes(r.nextSeq) + [r.detail])
  }

  datatype Decoded = Reading(r: Reply) | Damaged

  /** `decode_reply`. */
  function DecodeReply(p: seq<Byte>): Decoded {
    if |p| != 10 || !CrcOk(p) then Damaged
    else Reading(Reply(Le32(p[1], p[2], p[3], p[4]), Le16(p[5], p[6]), p[0], p[7]))
  }

  lemma LowDigit(a: Byte, b: nat)
    ensures (a + 0x100 * b) % 0x100 == a && (a + 0x100 * b) / 0x100 == b
  {
  }

  lemma Le32Bijective(a: Byte, b: Byte, c: Byte, d: Byte)
    ensures Le32Bytes(Le32(a, b, c, d)) == [a, b, c, d]
  {
    var x := Le32(a, b, c, d);
    LowDigit(a, b + 0x100 * (c + 0x100 * d));
    LowDigit(b, c + 0x100 * d);
    LowDigit(c, d);
    assert x / 0x1_0000 == x / 0x100 / 0x100;
    assert x / 0x100_0000 == x / 0x100 / 0x100 / 0x100;
  }

  lemma Le16Bijective(a: Byte, b: Byte)
    ensures Le16Bytes(Le16(a, b)) == [a, b]
  {
    LowDigit(a, b);
  }

  lemma ReplyDecodes(r: Reply)
    ensures DecodeReply(ReplyBytes(r)) == Reading(r)
  {
    var body := [r.code] + Le32Bytes(r.id) + Le16Bytes(r.nextSeq) + [r.detail];
    AppendedIsOk(body, ReplyBytes(r));
    Le32RoundTrip(r.id);
    Le16RoundTrip(r.nextSeq);
  }

  lemma DecodedIsSent(p: seq<Byte>, r: Reply)
    requires DecodeReply(p) == Reading(r)
    ensures p == ReplyBytes(r)
  {
    var body := [p[0], p[1], p[2], p[3], p[4], p[5], p[6], p[7]];
    assert p[..8] == body;
    WithCrcIsOk(body, p);
    Le32Bijective(p[1], p[2], p[3], p[4]);
    Le16Bijective(p[5], p[6]);
    assert body == [r.code] + Le32Bytes(r.id) + Le16Bytes(r.nextSeq) + [r.detail];
  }

  /** The client reads a reply from a payload if and only if the payload is what the device sends for it. */
  lemma ReplyExact(r: Reply, p: seq<Byte>)
    ensures DecodeReply(p) == Reading(r) <==> p == ReplyBytes(r)
  {
    ReplyDecodes(r);
    if DecodeReply(p) == Reading(r) {
      DecodedIsSent(p, r);
    }
  }

  // ----- the system -----

  /** Where the client is: waiting for the reply to BEGIN, to chunk k, to COMMIT, or finished. */
  datatype Client = Beginning | Sending(k: nat) | Committing | Finished(code: Byte)

  /** What a transfer is about, fixed for a run. */
  datatype Job = Job(hash: Hash, tid: U32, image: Image)

  /** The wire keeps every frame and every reply ever sent: delivering nothing, or one of
      them again, or an old one, models loss, duplication and reordering. */
  datatype Sys = Sys(dev: Device, client: Client, sent: set<seq<Byte>>, replies: set<Reply>)

  /** The client's filter in `_exchange`, with the acceptance test of each stage of `transfer`. */
  predicate Accepts(j: Job, c: Client, r: Reply) {
    r.id == j.tid &&
    match c
    case Beginning => r.code == ACK || r.code == STAGED || r.code == ACCEPT || r.code == REJECT
    case Sending(k) => r.code == ACK && r.nextSeq >= k + 1
    case Committing => r.code == STAGED || r.code == ACCEPT || r.code == REJECT
    case Finished(_) => false
  }

  function Advance(j: Job, c: Client, r: Reply): Client {
    match c
    case Beginning => Sending(0)
    case Sending(k) => if k + 1 < ChunkCount(j.image) then Sending(k + 1) else Committing
    case Committing => Finished(r.code)
    case Finished(_) => c
  }

  /** The frame the client is currently (re)sending. */
  function Current(j: Job, c: Client): seq<Byte>
    requires c.Sending? ==> c.k < ChunkCount(j.image)
  {
    match c
    case Beginning => BeginFrame(j.hash, j.tid, j.image)
    case Sending(k) => DataFrame(j.tid, j.image, k)
    case Committing => CommitFrame(j.tid)
    case Finished(_) => CommitFrame(j.tid)
  }

  /** A receiver that refuses the BEGIN of any other transfer. */
  predicate Busy(d: Device) {
    d.rx.phase == Active || d.rx.phase == Staged
  }

  /** Frames that were not sent by this client: damaged so that the CRC fails, or of another
      transfer. A BEGIN of another transfer may arrive late at a busy receiver; one that a free
      receiver would take is a second sender, which stop-and-wait excludes. */
  predicate Stray(j: Job, d: Device, w: Wire) {
    (w.n >= 7 ==> !w.crcOk) || (w.id != j.tid && (w.op == OP_BEGIN ==> Busy(d)))
  }

  datatype Action =
    | Transmit
    | DeliverFrame(p: seq<Byte>)
    | DeliverReply(r: Reply)
    | Decide(accepted: bool)

  predicate Enabled(j: Job, s: Sys, a: Action) {
    match a
    case Transmit => s.client.Sending? ==> s.client.k < ChunkCount(j.image)
    case DeliverFrame(p) => p in s.sent || Stray(j, s.dev, Parse(p))
    case DeliverReply(r) => r in s.replies && Accepts(j, s.client, r)
    case Decide(_) => s.dev.rx.phase == Staged
  }

  function Next(j: Job, s: Sys, a: Action): Sys
    requires Roomy(s.dev) && Enabled(j, s, a)
  {
    match a
    case Transmit => s.(sent := s.sent + {Current(j, s.client)})
    case DeliverFrame(p) =>
      var r := Process(j.hash, s.dev, Parse(p));
      s.(dev := r.dev, replies := s.replies + {r.reply})
    case DeliverReply(r) => s.(client := Advance(j, s.client, r))
    case Decide(acc) =>
      var d := Judge(s.dev, acc);
      s.(dev := d, replies := s.replies + {Reply(d.rx.id, d.rx.nextSeq, d.rx.finalCode, if acc then 0 else ERR_STATE)})
  }

  // ----- the invariant -----

  /** The receiver is on our transfer and holds a prefix of our image. */
  predicate OnJob(j: Job, d: Device) {
    && Roomy(d)
    && d.rx.id == j.tid
    && d.rx.phase != Idle
    && d.rx.total == |j.image|
    && d.rx.expected == j.hash(j.image)
    && d.rx.nextSeq <= ChunkCount(j.image)
    && d.rx.received == (if d.rx.nextSeq == 0 then 0 else ChunkEnd(j.image, d.rx.nextSeq - 1))
    && d.pend[..d.rx.received] == j.image[..d.rx.received]
    && (d.rx.phase != Active ==> d.rx.received == d.rx.total)
    && (d.rx.phase == Done ==> d.rx.finalCode == ACCEPT || d.rx.finalCode == REJECT)
  }

  /** How far the client is, against the receiver's counter. */
  predicate InStep(j: Job, c: Client, d: Device) {
    match c
    case Beginning => d.rx.id == j.tid ==> d.rx.nextSeq == 0 && d.rx.phase == Active
    case Sending(k) => d.rx.id == j.tid && k < ChunkCount(j.image) && k <= d.rx.nextSeq <= k + 1 && d.rx.phase == Active
    case Committing => d.rx.id == j.tid && d.rx.nextSeq == ChunkCount(j.image)
    case Finished(code) =>
      && d.rx.id == j.tid && d.rx.nextSeq == ChunkCount(j.image) && d.rx.phase != Active
      && (code == ACCEPT || code == REJECT ==> d.rx.phase == Done && d.rx.finalCode == code)
  }

  /** The frames in flight are ones the client has already had reason to send. */
  predicate SentBy(j: Job, c: Client, p: seq<Byte>) {
    || p == BeginFrame(j.hash, j.tid, j.image)
    || (exists i: nat ::
          i < ChunkCount(j.image) && (c.Sending? ==> i <= c.k) && !c.Beginning? && p == DataFrame(j.tid, j.image, i))
    || ((c.Committing? || c.Finished?) && p == CommitFrame(j.tid))
  }

  /** What a positive reply for our id says about the receiver from then on. */
  predicate ReplyOk(j: Job, d: Device, r: Reply) {
    r.id == j.tid && r.code != NACK ==>
      && d.rx.id == j.tid
      && r.nextSeq <= d.rx.nextSeq
      && (r.code != ACK ==> d.rx.phase == Staged || d.rx.phase == Done)
      && (IsVerdict(r) ==> d.rx.phase == Done && d.rx.finalCode == r.code)
  }

  predicate IsVerdictCode(code: Byte) {
    code == ACCEPT || code == REJECT
  }

  predicate IsVerdict(r: Reply) {
    IsVerdictCode(r.code)
  }

  predicate Consistent(j: Job, s: Sys) {
    && Roomy(s.dev)
    && (s.dev.rx.id == j.tid ==> OnJob(j, s.dev))
    && InStep(j, s.client, s.dev)
    && (forall p | p in s.sent :: SentBy(j, s.client, p))
    && (forall r | r in s.replies :: ReplyOk(j, s.dev, r))
  }

  lemma ChunkArithmetic(image: Image, k: nat)
    requires k < ChunkCount(image)
    ensures CHUNK * k < |image| && ChunkEnd(image, k) == CHUNK * k + |Chunk(image, k)|
    ensures k + 1 == ChunkCount(image) <==> ChunkEnd(image, k) == |image|
    ensures k > 0 ==> ChunkEnd(image, k - 1) == CHUNK * k
  {
  }

  // ----- one delivered frame -----

  predicate BeginResult(j: Job, d: Device, r: Result) {
    && Roomy(r.dev)
    && (d.rx.id == j.tid ==> r.dev == d && (r.accepted || j.tid == 0 || |j.image| < 48))
    && (d.rx.id != j.tid && r.dev != d ==> OnJob(j, r.dev) && r.dev.rx.nextSeq == 0 && r.dev.rx.phase == Active)
    && (r.accepted ==> r.dev.rx.id == j.tid && r.reply.id == j.tid)
    && (r.accepted ==> r.reply.nextSeq == r.dev.rx.nextSeq && r.reply.code == ReplayCode(r.dev.rx))
    && (!r.accepted ==> r.reply.code == NACK)
  }

  /** Our BEGIN starts the transfer on a free receiver and is otherwise a no-op. */
  lemma BeginDelivered(j: Job, d: Device)
    requires IsHash(j.hash) && Roomy(d) && (d.rx.id == j.tid ==> OnJob(j, d))
    ensures BeginResult(j, d, Process(j.hash, d, Parse(BeginFrame(j.hash, j.tid, j.image))))
  {
    BeginFields(j.hash, j.tid, j.image);
    BeginTaken(j, d, Parse(BeginFrame(j.hash, j.tid, j.image)));
  }

  lemma BeginTaken(j: Job, d: Device, w: Wire)
    requires IsHash(j.hash) && Roomy(d) && (d.rx.id == j.tid ==> OnJob(j, d))
    requires WellSized(w) && IsBegin(w, j.tid, j.image, j.hash(j.image))
    ensures BeginResult(j, d, Process(j.hash, d, w))
  {
  }

  /** One of our chunks: accepted when it is the next or the last one, ignored otherwise. */
  lemma DataDelivered(j: Job, d: Device, k: nat)
    requires Roomy(d) && k < ChunkCount(j.image) && (d.rx.id == j.tid ==> OnJob(j, d))
    ensures var r := Process(j.hash, d, Parse(DataFrame(j.tid, j.image, k)));
            && (d.rx.id != j.tid ==> r.dev == d)
            && (d.rx.id == j.tid ==> OnJob(j, r.dev) && r.dev.rx.phase == d.rx.phase)
            && (d.rx.id == j.tid && r.dev != d ==> d.rx.nextSeq == k && r.dev.rx.nextSeq == k + 1)
            && (d.rx.id == j.tid && d.rx.phase == Active && k <= d.rx.nextSeq <= k + 1 ==>
                  r.accepted && r.dev.rx.nextSeq == k + 1)
            && (r.accepted ==> r.reply.code == ACK && r.reply.nextSeq == r.dev.rx.nextSeq)
            && r.reply.id == (if j.tid != 0 then j.tid else d.rx.id)
            && (if r.accepted then d.rx.id == j.tid else r.reply.code == NACK)
  {
    DataFields(j.tid, j.image, k);
    ChunkArithmetic(j.image, k);
    var w := Parse(DataFrame(j.tid, j.image, k));
    if d.rx.id == j.tid {
      assert Process(j.hash, d, w) == OnData(d, w);
      if d.rx.phase == Active {
        DataOnJob(j, d, w, k);
      }
    }
  }

  predicate ChunkFields(j: Job, w: Wire, k: nat) {
    && k < ChunkCount(j.image) && WellSized(w)
    && w.n == 12 + |w.data| && w.id == j.tid && w.w5 == k && w.w7 == CHUNK * k && w.b9 == |w.data|
    && w.data == Chunk(j.image, k)
  }

  lemma DataOnJob(j: Job, d: Device, w: Wire, k: nat)
    requires OnJob(j, d) && d.rx.phase == Active && ChunkFields(j, w, k)
    ensures var r := OnData(d, w);
            && OnJob(j, r.dev) && r.dev.rx.phase == Active
            && (r.dev != d ==> d.rx.nextSeq == k && r.dev.rx.nextSeq == k + 1)
            && (k <= d.rx.nextSeq <= k + 1 ==> r.accepted && r.dev.rx.nextSeq == k + 1)
  {
    ChunkArithmetic(j.image, k);
    if d.rx.nextSeq > 0 {
      ChunkArithmetic(j.image, d.rx.nextSeq - 1);
    }
    if d.rx.nextSeq == k + 1 {
      LastChunkMatches(j, d, k);
    } else if d.rx.nextSeq == k {
      NextChunkFits(j, d, w, k);
    }
  }

  lemma LastChunkMatches(j: Job, d: Device, k: nat)
    requires OnJob(j, d) && k < ChunkCount(j.image) && d.rx.nextSeq == k + 1
    ensures d.pend[CHUNK * k..ChunkEnd(j.image, k)] == Chunk(j.image, k)
  {
    assert d.pend[CHUNK * k..d.rx.received] == d.pend[..d.rx.received][CHUNK * k..];
    assert j.image[CHUNK * k..d.rx.received] == j.image[..d.rx.received][CHUNK * k..];
  }

  lemma PrefixGrows(pend: seq<Byte>, image: seq<Byte>, n: nat, data: seq<Byte>)
    requires n + |data| <= |pend| && n + |data| <= |image| && pend[..n] == image[..n] && data == image[n..n + |data|]
    ensures Write(pend, n, data)[..n + |data|] == image[..n + |data|]
  {
    assert Write(pend, n, data)[..n + |data|] == pend[..n] + data;
    assert image[..n + |data|] == image[..n] + data;
  }

  lemma NextChunkFits(j: Job, d: Device, w: Wire, k: nat)
    requires OnJob(j, d) && d.rx.phase == Active && ChunkFields(j, w, k) && d.rx.nextSeq == k
    ensures var r := OnData(d, w);
            r.accepted && OnJob(j, r.dev) && r.dev.rx.phase == Active && r.dev.rx.nextSeq == k + 1
  {
    ChunkArithmetic(j.image, k);
    if k > 0 {
      ChunkArithmetic(j.image, k - 1);
    }
    PrefixGrows(d.pend, j.image, d.rx.received, w.data);
  }

  predicate CommitResult(j: Job, d: Device, r: Result) {
    && Roomy(r.dev)
    && (d.rx.id != j.tid ==> r.dev == d && !r.accepted)
    && (d.rx.id == j.tid ==> OnJob(j, r.dev) && r.dev.rx.nextSeq == d.rx.nextSeq)
    && (r.dev.rx.phase == Active ==> r.dev == d)
    && (d.rx.phase == Done ==> r.dev.rx.phase == Done && r.dev.rx.finalCode == d.rx.finalCode)
    && (d.rx.phase == Staged ==> r.dev.rx.phase == Staged)
    && (d.rx.id == j.tid && d.rx.received == d.rx.total ==> r.accepted && r.dev.rx.phase != Active)
    && (r.accepted ==>
          (r.dev.rx.phase == Staged || r.dev.rx.phase == Done) && r.reply.nextSeq == r.dev.rx.nextSeq)
    && (if r.accepted then r.reply.code == STAGED || r.reply.code == ACCEPT || r.reply.code == REJECT
        else r.reply.code == NACK)
    && (IsVerdict(r.reply) ==> r.dev.rx.phase == Done && r.dev.rx.finalCode == r.reply.code)
    && r.reply.id == (if j.tid != 0 then j.tid else d.rx.id)
  }

  /** Our COMMIT stages the image once it is complete, and repeats the verdict afterwards. */
  lemma CommitDelivered(j: Job, d: Device)
    requires Roomy(d) && (d.rx.id == j.tid ==> OnJob(j, d))
    ensures CommitResult(j, d, Process(j.hash, d, Parse(CommitFrame(j.tid))))
  {
    ShortFields(OP_COMMIT, j.tid);
    CommitTaken(j, d, Parse(CommitFrame(j.tid)));
  }

  lemma CommitTaken(j: Job, d: Device, w: Wire)
    requires Roomy(d) && WellSized(w) && (d.rx.id == j.tid ==> OnJob(j, d)) && IsShort(w, OP_COMMIT, j.tid)
    ensures CommitResult(j, d, Process(j.hash, d, w))
  {
    if d.rx.id == j.tid && d.rx.received == d.rx.total {
      assert d.pend[..d.rx.total] == j.image[..d.rx.total] == j.image;
    }
  }

  /** Damaged frames and frames of other transfers leave our transfer alone and never
      produce a positive reply for our id. */
  lemma StrayDelivered(j: Job, d: Device, w: Wire)
    requires Roomy(d) && WellSized(w) && Stray(j, d, w) && (d.rx.id == j.tid ==> OnJob(j, d))
    ensures var r := Process(j.hash, d, w);
            && r.dev.rx.id == d.rx.id
            && (d.rx.id == j.tid ==> r.dev == d)
            && (r.accepted ==> r.reply.id != j.tid)
            && (!r.accepted ==> r.reply.code == NACK)
  {
  }

  // ----- every action keeps the invariant -----

  /** The receiver never goes back on our transfer. */
  predicate Onward(j: Job, d: Device, d': Device) {
    d.rx.id == j.tid ==>
      && d'.rx.id == j.tid && d.rx.nextSeq <= d'.rx.nextSeq
      && (d.rx.phase == Staged || d.rx.phase == Done ==> d'.rx.phase == Staged || d'.rx.phase == Done)
      && (d.rx.phase == Done ==> d'.rx.phase == Done && d'.rx.finalCode == d.rx.finalCode)
  }

  lemma ReplyOnward(j: Job, d: Device, d': Device, r: Reply)
    requires ReplyOk(j, d, r) && Onward(j, d, d')
    ensures ReplyOk(j, d', r)
  {
  }

  /** What delivering one frame preserves, whichever frame it was. */
  predicate DeliveryOk(j: Job, c: Client, d: Device, r: Result) {
    && Roomy(r.dev)
    && (r.dev.rx.id == j.tid ==> OnJob(j, r.dev))
    && InStep(j, c, r.dev)
    && Onward(j, d, r.dev)
    && ReplyOk(j, r.dev, r.reply)
  }

  lemma DataFrameDelivered(j: Job, s: Sys, i: nat)
    requires Consistent(j, s) && i < ChunkCount(j.image) && !s.client.Beginning? &&
             (s.client.Sending? ==> i <= s.client.k)
    ensures DeliveryOk(j, s.client, s.dev, Process(j.hash, s.dev, Parse(DataFrame(j.tid, j.image, i))))
  {
    DataDelivered(j, s.dev, i);
  }

  lemma BeginResultOk(j: Job, s: Sys, r: Result)
    requires Consistent(j, s) && BeginResult(j, s.dev, r)
    ensures DeliveryOk(j, s.client, s.dev, r)
  {
  }

  lemma BeginFrameDelivered(j: Job, s: Sys)
    requires IsHash(j.hash) && Consistent(j, s)
    ensures DeliveryOk(j, s.client, s.dev, Process(j.hash, s.dev, Parse(BeginFrame(j.hash, j.tid, j.image))))
  {
    BeginDelivered(j, s.dev);
    BeginResultOk(j, s, Process(j.hash, s.dev, Parse(BeginFrame(j.hash, j.tid, j.image))));
  }

  lemma CommitResultOk(j: Job, s: Sys, r: Result)
    requires Consistent(j, s) && (s.client.Committing? || s.client.Finished?) && CommitResult(j, s.dev, r)
    ensures DeliveryOk(j, s.client, s.dev, r)
  {
  }

  lemma CommitFrameDelivered(j: Job, s: Sys)
    requires Consistent(j, s) && (s.client.Committing? || s.client.Finished?)
    ensures DeliveryOk(j, s.client, s.dev, Process(j.hash, s.dev, Parse(CommitFrame(j.tid))))
  {
    CommitDelivered(j, s.dev);
    CommitResultOk(j, s, Process(j.hash, s.dev, Parse(CommitFrame(j.tid))));
  }

  lemma FrameDelivered(j: Job, s: Sys, p: seq<Byte>)
    requires IsHash(j.hash) && Consistent(j, s) && Enabled(j, s, DeliverFrame(p))
    ensures DeliveryOk(j, s.client, s.dev, Process(j.hash, s.dev, Parse(p)))
  {
    if p in s.sent {
      assert SentBy(j, s.client, p);
      if p == BeginFrame(j.hash, j.tid, j.image) {
        BeginFrameDelivered(j, s);
      } else if p == CommitFrame(j.tid) && (s.client.Committing? || s.client.Finished?) {
        CommitFrameDelivered(j, s);
      } else {
        var i: nat :| i < ChunkCount(j.image) && (s.client.Sending? ==> i <= s.client.k) && !s.client.Beginning?
                      && p == DataFrame(j.tid, j.image, i);
        DataFrameDelivered(j, s, i);
      }
    } else {
      StrayDelivered(j, s.dev, Parse(p));
    }
  }

  lemma AdvanceKeepsSent(j: Job, c: Client, r: Reply, p: seq<Byte>)
    requires SentBy(j, c, p) && Accepts(j, c, r)
    ensures SentBy(j, Advance(j, c, r), p)
  {
  }

  lemma ReplyDelivered(j: Job, s: Sys, r: Reply)
    requires Consistent(j, s) && Enabled(j, s, DeliverReply(r))
    ensures Consistent(j, Next(j, s, DeliverReply(r)))
  {
    assert ReplyOk(j, s.dev, r);
    var c' := Advance(j, s.client, r);
    forall p | p in s.sent
      ensures SentBy(j, c', p)
    {
      AdvanceKeepsSent(j, s.client, r, p);
    }
  }

  lemma FrameKeeps(j: Job, s: Sys, p: seq<Byte>)
    requires IsHash(j.hash) && Consistent(j, s) && Enabled(j, s, DeliverFrame(p))
    ensures Consistent(j, Next(j, s, DeliverFrame(p)))
  {
    FrameDelivered(j, s, p);
    var r := Process(j.hash, s.dev, Parse(p));
    KeepReplies(j, s, r.dev, r.reply);
  }

  /** Replies stay true when the receiver only moves onward, and the new one is true too. */
  lemma KeepReplies(j: Job, s: Sys, d: Device, reply: Reply)
    requires Consistent(j, s) && Onward(j, s.dev, d) && ReplyOk(j, d, reply)
    ensures forall r | r in s.replies + {reply} :: ReplyOk(j, d, r)
  {
    forall r | r in s.replies
      ensures ReplyOk(j, d, r)
    {
      ReplyOnward(j, s.dev, d, r);
    }
  }

  lemma DecideKeeps(j: Job, s: Sys, acc: bool)
    requires Consistent(j, s) && Enabled(j, s, Decide(acc))
    ensures Consistent(j, Next(j, s, Decide(acc)))
  {
    var d := Judge(s.dev, acc);
    KeepReplies(j, s, d, Reply(d.rx.id, d.rx.nextSeq, d.rx.finalCode, if acc then 0 else ERR_STATE));
  }

  lemma NextConsistent(j: Job, s: Sys, a: Action)
    requires IsHash(j.hash) && Consistent(j, s) && Enabled(j, s, a)
    ensures Consistent(j, Next(j, s, a))
  {
    match a
    case Transmit =>
      assert SentBy(j, s.client, Current(j, s.client));
    case DeliverFrame(p) =>
      FrameKeeps(j, s, p);
    case DeliverReply(r) =>
      ReplyDelivered(j, s, r);
    case Decide(acc) =>
      DecideKeeps(j, s, acc);
  }

  // ----- whole runs -----

  /** A fresh id: neither the receiver nor a reply still in flight knows it. */
  predicate Initial(j: Job, s: Sys) {
    Roomy(s.dev) && s.dev.rx.id != j.tid && s.client == Beginning && s.sent == {} &&
        forall r | r in s.replies :: r.id != j.tid
  }

  predicate StepOf(j: Job, s: Sys, a: Action, s': Sys) {
    Roomy(s.dev) && Enabled(j, s, a) && s' == Next(j, s, a)
  }

  predicate IsRun(j: Job, states: seq<Sys>, actions: seq<Action>) {
    && |states| == |actions| + 1
    && Initial(j, states[0])
    && forall i | 0 <= i < |actions| :: StepOf(j, states[i], actions[i], states[i + 1])
  }

  lemma RunPrefix(j: Job, states: seq<Sys>, actions: seq<Action>)
    requires IsRun(j, states, actions) && |actions| > 0
    ensures IsRun(j, states[..|actions|], actions[..|actions| - 1])
  {
    var n := |actions|;
    forall i | 0 <= i < n - 1
      ensures StepOf(j, states[..n][i], actions[..n - 1][i], states[..n][i + 1])
    {
      assert StepOf(j, states[i], actions[i], states[i + 1]);
    }
  }

  lemma {:induction false} RunConsistent(j: Job, states: seq<Sys>, actions: seq<Action>)
    requires IsHash(j.hash) && IsRun(j, states, actions)
    ensures Consistent(j, states[|actions|])
    decreases |actions|
  {
    var n := |actions|;
    if n > 0 {
      RunPrefix(j, states, actions);
      RunConsistent(j, states[..n], actions[..n - 1]);
      assert StepOf(j, states[n - 1], actions[n - 1], states[n]);
      NextConsistent(j, states[n - 1], actions[n - 1]);
    }
  }

  /** A verdict reply with the id of the transfer is the verdict of the receiver on this image. */
  lemma OwnVerdictIsTrue(j: Job, states: seq<Sys>, actions: seq<Action>, r: Reply)
    requires IsHash(j.hash) && IsRun(j, states, actions)
    requires r in states[|actions|].replies && IsVerdict(r) && r.id == j.tid
    ensures var rx := states[|actions|].dev.rx;
            rx.id == j.tid && rx.phase == Done && rx.finalCode == r.code
  {
    RunConsistent(j, states, actions);
    assert ReplyOk(j, states[|actions|].dev, r);
  }

  /** The end-to-end theorem, for every run over the unreliable wire: the client and the
      receiver are never more than one chunk apart, the received bytes are a prefix of the
      image, and once the client holds a STAGED, ACCEPT or REJECT reply (or the receiver has
      sent one) the staging area is the whole image. */
  lemma EndToEnd(j: Job, states: seq<Sys>, actions: seq<Action>)
    requires IsHash(j.hash) && IsRun(j, states, actions)
    ensures var s := states[|actions|];
            var rx, pend := s.dev.rx, s.dev.pend;
            && Roomy(s.dev)
            && (s.client.Sending? ==> rx.id == j.tid && s.client.k <= rx.nextSeq <= s.client.k + 1)
            && (rx.id == j.tid ==>
                  rx.received <= |j.image| <= |pend| && pend[..rx.received] == j.image[..rx.received])
            && (s.client.Finished? ==> |j.image| <= |pend| && pend[..|j.image|] == j.image)
            && (forall r | r in s.replies && r.id == j.tid && r.code == STAGED ::
                  |j.image| <= |pend| && pend[..|j.image|] == j.image)
  {
    RunConsistent(j, states, actions);
    var s := states[|actions|];
    if s.dev.rx.id == j.tid && s.dev.rx.phase != Active {
      assert j.image[..s.dev.rx.received] == j.image;
    }
    forall r | r in s.replies && r.id == j.tid && r.code == STAGED
      ensures s.dev.pend[..|j.image|] == j.image
    {
      assert ReplyOk(j, s.dev, r);
    }
  }

  // ----- progress -----

  /** The receiver's answer to the current frame is one the client waits for. */
  predicate ExchangeWorks(j: Job, s: Sys) {
    && Roomy(s.dev) && (s.client.Sending? ==> s.client.k < ChunkCount(j.image))
    && Accepts(j, s.client, Process(j.hash, s.dev, Parse(Current(j, s.client))).reply)
  }

  /** Send, deliver, answer, once each: TransmitStep, DeliverStep and ReplyStep. */
  function Exchange(j: Job, s: Sys): Sys
    requires ExchangeWorks(j, s)
  {
    var p := Current(j, s.client);
    After(j, s, p, Process(j.hash, s.dev, Parse(p)))
  }

  /** What is left when frame and reply have been delivered. */
  function After(j: Job, s: Sys, p: seq<Byte>, r: Result): Sys {
    Sys(r.dev, Advance(j, s.client, r.reply), s.sent + {p}, s.replies + {r.reply})
  }

  lemma TransmitStep(j: Job, s: Sys, p: seq<Byte>)
    requires Roomy(s.dev) && (s.client.Sending? ==> s.client.k < ChunkCount(j.image)) && p == Current(j, s.client)
    ensures StepOf(j, s, Transmit, s.(sent := s.sent + {p}))
  {
  }

  lemma DeliverStep(j: Job, s: Sys, p: seq<Byte>, r: Result)
    requires Roomy(s.dev) && p in s.sent && r == Process(j.hash, s.dev, Parse(p))
    ensures StepOf(j, s, DeliverFrame(p), s.(dev := r.dev, replies := s.replies + {r.reply})) && Roomy(r.dev)
  {
  }

  lemma ReplyStep(j: Job, s: Sys, r: Reply)
    requires Roomy(s.dev) && r in s.replies && Accepts(j, s.client, r)
    ensures StepOf(j, s, DeliverReply(r), s.(client := Advance(j, s.client, r)))
  {
  }

  /** The receiver can take our BEGIN, or already has. */
  predicate Reachable(j: Job, s: Sys) {
    && j.tid != 0 && 48 <= |j.image|
    && (s.client.Beginning? && s.dev.rx.id != j.tid ==>
          s.dev.rx.phase != Active && s.dev.rx.phase != Staged && s.dev.magic != PEND_MAGIC)
  }

  /** Whatever was lost before, the receiver answers the current frame the way the client wants. */
  lemma CurrentAnswered(j: Job, s: Sys)
    requires IsHash(j.hash) && Consistent(j, s) && Reachable(j, s) && !s.client.Finished?
    ensures Accepts(j, s.client, Process(j.hash, s.dev, Parse(Current(j, s.client))).reply)
  {
    match s.client
    case Beginning =>
      BeginFields(j.hash, j.tid, j.image);
    case Sending(k) =>
      DataDelivered(j, s.dev, k);
    case Committing =>
      ChunkArithmetic(j.image, ChunkCount(j.image) - 1);
      CommitDelivered(j, s.dev);
  }

  /** From any state a run can be in, a single undisturbed exchange moves the client on:
      retransmission always recovers, whatever was lost before. */
  lemma ExchangeAdvances(j: Job, s: Sys)
    requires IsHash(j.hash) && Consistent(j, s) && Reachable(j, s) && !s.client.Finished?
    ensures ExchangeWorks(j, s) && Consistent(j, Exchange(j, s)) && Reachable(j, Exchange(j, s))
    ensures Exchange(j, s).client == Advance(j, s.client, Process(j.hash, s.dev, Parse(Current(j, s.client))).reply)
  {
    CurrentAnswered(j, s);
    var p := Current(j, s.client);
    ExchangeConsistent(j, s, p, Process(j.hash, s.dev, Parse(p)));
  }

  lemma ExchangeConsistent(j: Job, s: Sys, p: seq<Byte>, r: Result)
    requires IsHash(j.hash) && Consistent(j, s)
    requires p == Current(j, s.client) && r == Process(j.hash, s.dev, Parse(p)) && Accepts(j, s.client, r.reply)
    ensures Consistent(j, Exchange(j, s))
  {
    var s1 := s.(sent := s.sent + {p});
    var s2 := s1.(dev := r.dev, replies := s.replies + {r.reply});
    TransmitStep(j, s, p);
    NextConsistent(j, s, Transmit);
    DeliverStep(j, s1, p, r);
    NextConsistent(j, s1, DeliverFrame(p));
    NextConsistent(j, s2, DeliverReply(r.reply));
  }

  function Remaining(j: Job, c: Client): nat {
    match c
    case Beginning => ChunkCount(j.image) + 2
    case Sending(k) => if k < ChunkCount(j.image) then ChunkCount(j.image) - k + 1 else 0
    case Committing => 1
    case Finished(_) => 0
  }

  lemma FinishedHasImage(j: Job, s: Sys)
    requires Consistent(j, s) && s.client.Finished?
    ensures |j.image| <= |s.dev.pend| && s.dev.pend[..|j.image|] == j.image
  {
    assert j.image[..s.dev.rx.received] == j.image;
  }

  /** Every exchange is one frame less to go. */
  lemma AdvanceCounts(j: Job, c: Client, r: Reply)
    requires Accepts(j, c, r) && (c.Sending? ==> c.k < ChunkCount(j.image))
    ensures Remaining(j, Advance(j, c, r)) == Remaining(j, c) - 1
  {
  }

  lemma ExchangeCounts(j: Job, s: Sys)
    requires IsHash(j.hash) && Consistent(j, s) && Reachable(j, s) && !s.client.Finished?
    ensures ExchangeWorks(j, s) && Consistent(j, Exchange(j, s)) && Reachable(j, Exchange(j, s))
    ensures Remaining(j, Exchange(j, s).client) == Remaining(j, s.client) - 1
  {
    ExchangeAdvances(j, s);
    AdvanceCounts(j, s.client, Process(j.hash, s.dev, Parse(Current(j, s.client))).reply);
  }

  /** The system after n undisturbed exchanges, at most as many as frames are left. */
  ghost function Exchanges(j: Job, s: Sys, n: nat): (last: Sys)
    requires IsHash(j.hash) && Consistent(j, s) && Reachable(j, s) && n <= Remaining(j, s.client)
    ensures Consistent(j, last) && Reachable(j, last) && Remaining(j, last.client) == Remaining(j, s.client) - n
    decreases n
  {
    if n == 0 then s
    else
      ExchangeCounts(j, s);
      Exchanges(j, Exchange(j, s), n - 1)
  }

  lemma NothingRemains(j: Job, s: Sys)
    requires Consistent(j, s)
    ensures s.client.Finished? <==> Remaining(j, s.client) == 0
  {
  }

  /** A wire that is quiet for one exchange per frame left completes the transfer: after exactly
      that many exchanges, and no fewer, the client is done and the receiver holds the image. */
  lemma TransferCompletes(j: Job, s: Sys, n: nat)
    requires IsHash(j.hash) && Consistent(j, s) && Reachable(j, s) && n <= Remaining(j, s.client)
    ensures Exchanges(j, s, n).client.Finished? <==> n == Remaining(j, s.client)
    ensures n == Remaining(j, s.client) ==>
              var pend := Exchanges(j, s, n).dev.pend;
              |j.image| <= |pend| && pend[..|j.image|] == j.image
  {
    var last := Exchanges(j, s, n);
    NothingRemains(j, last);
    if last.client.Finished? {
      FinishedHasImage(j, last);
    }
  }
}
