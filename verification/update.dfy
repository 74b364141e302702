/** The update receiver (core/update.c): begin, data, commit, abort, with idempotent
    retransmission. A pure transition, the facts about it, and the in-place receiver. */
module Update {
  import opened Words
  import opened Crc

  const MAX_IMAGE: int := 552
  const MAX_CHUNK: int := 64
  const OP_BEGIN: Byte := 1
  const OP_DATA: Byte := 2
  const OP_COMMIT: Byte := 3
  const OP_ABORT: Byte := 4
  const ACK: Byte := 0x80
  const NACK: Byte := 0x81
  const STAGED: Byte := 0x82
  const ACCEPT: Byte := 0x83
  const REJECT: Byte := 0x84
  const ABORTED: Byte := 0x85
  const ERR_FORMAT: Byte := 1
  const ERR_CRC: Byte := 2
  const ERR_SEQUENCE: Byte := 3
  const ERR_BUSY: Byte := 4
  const ERR_HASH: Byte := 5
  const ERR_STATE: Byte := 6
  const ERR_ID: Byte := 7
  const PEND_MAGIC: U32 := 0x444E4550

  /** The digest function, left abstract: any function from bytes to 32 bytes. */
  type Hash = seq<Byte> -> seq<Byte>

  ghost predicate IsHash(hash: Hash) {
    forall s :: |hash(s)| == 32
  }

  datatype Phase = Idle | Active | Staged | Done

  datatype Rx = Rx(id: U32, total: U16, received: U16, nextSeq: U16, expected: seq<Byte>, phase: Phase, finalCode: Byte)

  /** Receiver state, the staging area and the magic word that hands it over. */
  datatype Device = Device(rx: Rx, pend: seq<Byte>, magic: U32)

  datatype Reply = Reply(id: U32, nextSeq: U16, code: Byte, detail: Byte)

  datatype Result = Result(accepted: bool, dev: Device, reply: Reply)

  function Le32(a: Byte, b: Byte, c: Byte, d: Byte): U32 {
    a + 0x100 * b + 0x1_0000 * c + 0x100_0000 * d
  }

  function Le32Bytes(x: U32): seq<Byte> {
    [x % 0x100, x / 0x100 % 0x100, x / 0x1_0000 % 0x100, x / 0x100_0000]
  }

  lemma Le32RoundTrip(x: U32)
    ensures var b := Le32Bytes(x); Le32(b[0], b[1], b[2], b[3]) == x
  {
    assert x / 0x100 == x / 0x100 % 0x100 + 0x100 * (x / 0x1_0000);
    assert x / 0x1_0000 == x / 0x1_0000 % 0x100 + 0x100 * (x / 0x100_0000);
  }

  function FrameId(p: seq<Byte>): U32 {
    if |p| >= 5 then Le32(p[1], p[2], p[3], p[4]) else 0
  }

  /** The fields of a frame: size, operation, id, checksum verdict, the two 16-bit words at
      5 and 7, the byte at 9, the digest of a BEGIN and the payload of a DATA frame. */
  datatype Wire = Wire(n: nat, op: Byte, id: U32, crcOk: bool, w5: U16, w7: U16, b9: Byte,
                       sha: seq<Byte>, data: seq<Byte>)

  predicate WellSized(w: Wire) {
    (w.n >= 12 ==> |w.data| == w.n - 12) && (w.n == 41 ==> |w.sha| == 32)
  }

  function Parse(p: seq<Byte>): (w: Wire)
    ensures WellSized(w) && w.n == |p|
    ensures w.n >= 7 ==> (w.crcOk <==> CrcOk(p))
  {
    Wire(|p|,
         if |p| >= 1 then p[0] else 0,
         FrameId(p),
         |p| >= 2 && CrcOk(p),
         if |p| >= 7 then Le16(p[5], p[6]) else 0,
         if |p| >= 9 then Le16(p[7], p[8]) else 0,
         if |p| >= 10 then p[9] else 0,
         if |p| == 41 then p[7..39] else [],
         if |p| >= 12 then p[10..|p| - 2] else [])
  }

  function ReplySet(rx: Rx, code: Byte, detail: Byte, id: U32): Reply {
    Reply(if id != 0 then id else rx.id, rx.nextSeq, code, detail)
  }

  function Nack(d: Device, detail: Byte, id: U32): Result {
    Result(false, d, ReplySet(d.rx, NACK, detail, id))
  }

  function Good(d: Device, code: Byte, id: U32): Result {
    Result(true, d, ReplySet(d.rx, code, 0, id))
  }

  predicate Roomy(d: Device) {
    |d.pend| >= MAX_IMAGE && d.rx.total <= MAX_IMAGE
  }

  function ReplayCode(rx: Rx): Byte {
    if rx.phase == Done then rx.finalCode else if rx.phase == Staged then STAGED else ACK
  }

  function OnBegin(d: Device, w: Wire): Result {
    var rx := d.rx;
    if w.n != 41 then Nack(d, ERR_FORMAT, w.id)
    else if !w.crcOk then Nack(d, ERR_CRC, w.id)
    else if w.id == 0 || w.w5 < 48 || w.w5 > MAX_IMAGE then Nack(d, ERR_FORMAT, w.id)
    else if rx.phase != Idle && rx.id == w.id then
      if rx.total != w.w5 || rx.expected != w.sha then Nack(d, ERR_ID, w.id) else Good(d, ReplayCode(rx), w.id)
    else if rx.phase == Active || rx.phase == Staged || d.magic == PEND_MAGIC then Nack(d, ERR_BUSY, w.id)
    else Good(d.(rx := Rx(w.id, w.w5, 0, 0, w.sha, Active, 0), magic := 0), ACK, w.id)
  }

  function Write(pend: seq<Byte>, off: nat, data: seq<Byte>): (r: seq<Byte>)
    requires off + |data| <= |pend|
    ensures |r| == |pend|
  {
    pend[..off] + data + pend[off + |data|..]
  }

  function OnData(d: Device, w: Wire): Result
    requires Roomy(d) && WellSized(w)
  {
    var rx := d.rx;
    if w.n < 12 then Nack(d, ERR_FORMAT, w.id)
    else if w.b9 == 0 || w.b9 > MAX_CHUNK || w.n != 12 + w.b9 || w.w7 + w.b9 > rx.total then Nack(d, ERR_FORMAT, w.id)
    else if rx.phase != Active then Nack(d, ERR_STATE, w.id)
    else if w.w5 as int + 1 == rx.nextSeq && w.w7 + w.b9 == rx.received then
      if d.pend[w.w7..w.w7 + w.b9] != w.data then Nack(d, ERR_SEQUENCE, w.id) else Good(d, ACK, w.id)
    else if w.w5 != rx.nextSeq || w.w7 != rx.received then Nack(d, ERR_SEQUENCE, w.id)
    else
      var rx' := rx.(received := w.w7 + w.b9, nextSeq := (rx.nextSeq + 1) % TWO16);
      Good(d.(rx := rx', pend := Write(d.pend, w.w7, w.data)), ACK, w.id)
  }

  function OnCommit(hash: Hash, d: Device, w: Wire): Result
    requires Roomy(d)
  {
    var rx := d.rx;
    if w.n != 7 then Nack(d, ERR_FORMAT, w.id)
    else
      match rx.phase
      case Done => Good(d, rx.finalCode, w.id)
      case Staged => Good(d, STAGED, w.id)
      case Idle => Nack(d, ERR_STATE, w.id)
      case Active =>
        if rx.received != rx.total then Nack(d, ERR_SEQUENCE, w.id)
        else if hash(d.pend[..rx.total]) != rx.expected then Nack(d.(rx := rx.(phase := Idle)), ERR_HASH, w.id)
        else Good(d.(rx := rx.(phase := Staged), magic := PEND_MAGIC), STAGED, w.id)
  }

  function OnAbort(d: Device, w: Wire): Result {
    if w.n != 7 then Nack(d, ERR_FORMAT, w.id)
    else if d.rx.phase == Active then
      Good(d.(rx := d.rx.(phase := Idle, received := 0, nextSeq := 0), magic := 0), ABORTED, w.id)
    else Nack(d, ERR_STATE, w.id)
  }

  /** `update_process` on the fields of a frame. */
  function Process(hash: Hash, d: Device, w: Wire): (r: Result)
    requires Roomy(d) && WellSized(w)
    ensures Roomy(r.dev)
  {
    if w.n == 0 then Nack(d, ERR_FORMAT, 0)
    else if w.op == OP_BEGIN then OnBegin(d, w)
    else if w.n < 7 then Nack(d, ERR_FORMAT, w.id)
    else if !w.crcOk then Nack(d, ERR_CRC, w.id)
    else if d.rx.phase == Idle || w.id != d.rx.id then Nack(d, ERR_ID, w.id)
    else if w.op == OP_DATA then OnData(d, w)
    else if w.op == OP_COMMIT then OnCommit(hash, d, w)
    else if w.op == OP_ABORT then OnAbort(d, w)
    else Nack(d, ERR_FORMAT, w.id)
  }

  /** `update_finish`. */
  function Finish(d: Device, accepted: bool): Device {
    d.(rx := d.rx.(finalCode := if accepted then ACCEPT else REJECT, phase := Done))
  }

  /** The supervisor between two frames: a staged image is consumed and judged. */
  function Judge(d: Device, accepted: bool): Device {
    if d.rx.phase == Staged then Finish(d.(magic := 0), accepted) else d
  }

  // ----- what one frame can do -----

  /** A refused frame changes nothing, except that a digest mismatch ends the transfer. */
  lemma NackChangesNothing(hash: Hash, d: Device, w: Wire)
    requires Roomy(d) && WellSized(w)
    ensures var r := Process(hash, d, w);
            !r.accepted ==>
              && r.reply.code == NACK
              && r.reply.nextSeq == d.rx.nextSeq
              && (r.dev != d ==> r.reply.detail == ERR_HASH && r.dev == d.(rx := d.rx.(phase := Idle)))
  {
  }

  /** Only complete frames with a correct CRC and the id of the transfer are accepted. */
  lemma AcceptedIsSound(hash: Hash, d: Device, w: Wire)
    requires Roomy(d) && WellSized(w) && Process(hash, d, w).accepted
    ensures w.n >= 7 && w.crcOk && w.id == Process(hash, d, w).dev.rx.id
    ensures Process(hash, d, w).reply.id == w.id || w.id == 0
  {
  }

  /** From a device without a staged image, a frame stages one only as an accepted COMMIT whose
      image has the announced digest; the magic word says so, and nothing else sets it. */
  lemma StagingIsAnnounced(hash: Hash, d: Device, w: Wire)
    requires Roomy(d) && WellSized(w) && d.rx.phase != Staged && d.magic != PEND_MAGIC
    ensures var r := Process(hash, d, w);
            && (r.dev.rx.phase == Staged <==> r.dev.magic == PEND_MAGIC)
            && (r.dev.rx.phase == Done ==> d.rx.phase == Done)
            && (r.dev.rx.phase == Staged ==>
                  && r.accepted && r.reply.code == STAGED
                  && d.rx.phase == Active && r.dev == d.(rx := d.rx.(phase := Staged), magic := PEND_MAGIC)
                  && d.rx.received == d.rx.total && hash(d.pend[..d.rx.total]) == d.rx.expected)
  {
  }

  /** The staging area and counters in terms of the chunks accepted since the last BEGIN. */
  predicate History(d: Device, chunks: seq<seq<Byte>>) {
    && Roomy(d)
    && d.rx.received <= d.rx.total
    && d.pend[..d.rx.received] == Concat(chunks)
    && d.rx.nextSeq == |chunks| <= d.rx.received
    && (forall c | c in chunks :: 1 <= |c| <= MAX_CHUNK)
    && (d.rx.phase != Idle ==> d.rx.id != 0 && 48 <= d.rx.total && |d.rx.expected| == 32)
  }

  /** What staging promises: the image is complete and has the announced digest. */
  predicate Delivered(hash: Hash, d: Device) {
    d.rx.phase == Staged || d.rx.phase == Done ==>
      Roomy(d) && d.rx.received == d.rx.total && hash(d.pend[..d.rx.total]) == d.rx.expected
  }

  function Concat(chunks: seq<seq<Byte>>): seq<Byte> {
    if |chunks| == 0 then [] else Concat(chunks[..|chunks| - 1]) + chunks[|chunks| - 1]
  }

  /** The chunks accepted since the last BEGIN, after one more frame. */
  function NextChunks(hash: Hash, d: Device, w: Wire, chunks: seq<seq<Byte>>): seq<seq<Byte>>
    requires Roomy(d) && WellSized(w)
  {
    var r := Process(hash, d, w);
    if !r.accepted then chunks
    else if w.op == OP_ABORT || (w.op == OP_BEGIN && r.dev != d) then []
    else if r.dev.rx.nextSeq != d.rx.nextSeq then chunks + [w.data]
    else chunks
  }

  lemma DataKeepsHistory(d: Device, w: Wire, chunks: seq<seq<Byte>>)
    requires History(d, chunks) && WellSized(w) && OnData(d, w).accepted
    ensures var d' := OnData(d, w).dev;
            if d'.rx.nextSeq != d.rx.nextSeq then History(d', chunks + [w.data]) else d' == d
    ensures OnData(d, w).dev.rx.phase == Active
  {
    var d' := OnData(d, w).dev;
    if d' != d {
      var next := chunks + [w.data];
      assert next[..|next| - 1] == chunks;
      assert Concat(next) == Concat(chunks) + w.data;
      assert d'.pend[..d'.rx.received] == d.pend[..d.rx.received] + w.data;
    }
  }

  lemma ProcessKeepsHistory(hash: Hash, d: Device, w: Wire, chunks: seq<seq<Byte>>)
    requires History(d, chunks) && Delivered(hash, d) && WellSized(w)
    ensures History(Process(hash, d, w).dev, NextChunks(hash, d, w, chunks))
    ensures Delivered(hash, Process(hash, d, w).dev)
  {
    var r := Process(hash, d, w);
    if r.accepted {
      if w.op == OP_DATA {
        DataKeepsHistory(d, w, chunks);
      } else if w.op == OP_BEGIN {
        assert r.dev.pend[..0] == [];
      } else if w.op == OP_ABORT {
        assert r.dev.pend[..0] == [];
      }
    } else {
      NackChangesNothing(hash, d, w);
    }
  }

  /** An event of an update-only run: a frame, or the verdict on a staged image. */
  datatype Event = Frame(p: seq<Byte>) | Verdict(accepted: bool)

  function Handle(hash: Hash, d: Device, e: Event): (d': Device)
    requires Roomy(d)
    ensures Roomy(d')
  {
    match e
    case Frame(p) => Process(hash, d, Parse(p)).dev
    case Verdict(a) => Judge(d, a)
  }

  function RunEvents(hash: Hash, d: Device, events: seq<Event>): Device
    requires Roomy(d)
    decreases |events|
  {
    if |events| == 0 then d else RunEvents(hash, Handle(hash, d, events[0]), events[1..])
  }

  /** The chunks accepted since the last BEGIN, after one event. */
  function EventChunks(hash: Hash, d: Device, e: Event, chunks: seq<seq<Byte>>): seq<seq<Byte>>
    requires Roomy(d)
  {
    match e
    case Frame(p) => NextChunks(hash, d, Parse(p), chunks)
    case Verdict(_) => chunks
  }

  /** And after a whole run: the data of every frame the receiver took, in the order it took them. */
  function RunChunks(hash: Hash, d: Device, events: seq<Event>, chunks: seq<seq<Byte>>): seq<seq<Byte>>
    requires Roomy(d)
    decreases |events|
  {
    if |events| == 0 then chunks
    else RunChunks(hash, Handle(hash, d, events[0]), events[1..], EventChunks(hash, d, events[0], chunks))
  }

  lemma EventKeepsHistory(hash: Hash, d: Device, e: Event, chunks: seq<seq<Byte>>)
    requires History(d, chunks) && Delivered(hash, d)
    ensures History(Handle(hash, d, e), EventChunks(hash, d, e, chunks)) && Delivered(hash, Handle(hash, d, e))
  {
    match e
    case Frame(p) =>
      ProcessKeepsHistory(hash, d, Parse(p), chunks);
    case Verdict(a) =>
  }

  /** Over every run: the received prefix is the concatenation of the chunks that were accepted, in
      order; their number is next_seq; nothing exceeds the image limit; and an image is staged only
      complete and with the announced digest. */
  lemma {:induction false} EveryRun(hash: Hash, d: Device, events: seq<Event>, chunks: seq<seq<Byte>>)
    requires History(d, chunks) && Delivered(hash, d)
    ensures History(RunEvents(hash, d, events), RunChunks(hash, d, events, chunks))
    ensures Delivered(hash, RunEvents(hash, d, events))
    decreases |events|
  {
    if |events| > 0 {
      EventKeepsHistory(hash, d, events[0], chunks);
      EveryRun(hash, Handle(hash, d, events[0]), events[1..], EventChunks(hash, d, events[0], chunks));
    }
  }

  /** Retransmission is idempotent: an accepted frame delivered again at once leaves the
      device as it is and gets the same reply; only an ABORT cannot be repeated. */
  lemma ReplayIsIdempotent(hash: Hash, d: Device, w: Wire, chunks: seq<seq<Byte>>)
    requires History(d, chunks) && WellSized(w) && Process(hash, d, w).accepted
    ensures var r := Process(hash, d, w);
            if w.op != OP_ABORT then Process(hash, r.dev, w) == r
            else Process(hash, r.dev, w) == Nack(r.dev, ERR_ID, w.id)
  {
    var r := Process(hash, d, w);
    if w.op == OP_DATA && r.dev != d {
      assert r.dev.pend[w.w7..w.w7 + w.b9] == w.data;
    }
  }

  // ----- the receiver in place -----

  class Receiver {
    var id: U32
    var total: U16
    var received: U16
    var nextSeq: U16
    var expected: seq<Byte>
    var phase: Phase
    var finalCode: Byte
    const pend: array<Byte>
    var magic: U32

    ghost predicate Valid()
      reads this
    {
      pend.Length >= MAX_IMAGE && total <= MAX_IMAGE && |expected| == 32
    }

    ghost function State(): Device
      reads this, pend
    {
      Device(Rx(id, total, received, nextSeq, expected, phase, finalCode), pend[..], magic)
    }

    constructor (area: array<Byte>)
      requires area.Length >= MAX_IMAGE
      ensures Valid() && pend == area
      ensures State() == Device(Rx(0, 0, 0, 0, seq(32, _ => 0), Idle, 0), area[..], 0)
    {
      pend, magic := area, 0;
      id, total, received, nextSeq, phase, finalCode := 0, 0, 0, 0, Idle, 0;
      expected := seq(32, _ => 0);
    }

    method Answer(code: Byte, detail: Byte, frameId: U32) returns (r: Reply)
      ensures r == ReplySet(State().rx, code, detail, frameId)
    {
      r := Reply(if frameId != 0 then frameId else id, nextSeq, code, detail);
    }

    /** Byte-wise comparison against a stretch of the staging area. */
    method SameBytes(off: nat, data: seq<Byte>) returns (same: bool)
      requires off + |data| <= pend.Length
      ensures same <==> pend[off..off + |data|] == data
    {
      for i := 0 to |data|
        invariant forall j | 0 <= j < i :: pend[off + j] == data[j]
      {
        if pend[off + i] != data[i] {
          assert pend[off..off + |data|][i] != data[i];
          return false;
        }
      }
      return true;
    }

    method CopyIn(off: nat, data: seq<Byte>)
      requires off + |data| <= pend.Length
      modifies pend
      ensures pend[..] == Write(old(pend[..]), off, data)
    {
      for i := 0 to |data|
        invariant forall j | 0 <= j < i :: pend[off + j] == data[j]
        invariant forall j | 0 <= j < pend.Length && !(off <= j < off + i) :: pend[j] == old(pend[j])
      {
        pend[off + i] := data[i];
      }
    }

    method Begin(w: Wire) returns (accepted: bool, reply: Reply)
      requires Valid() && WellSized(w)
      modifies this
      ensures Valid()
      ensures Result(accepted, State(), reply) == old(OnBegin(State(), w))
    {
      accepted := false;
      if w.n != 41 {
        reply := Answer(NACK, ERR_FORMAT, w.id);
      } else if !w.crcOk {
        reply := Answer(NACK, ERR_CRC, w.id);
      } else if w.id == 0 || w.w5 < 48 || w.w5 > MAX_IMAGE {
        reply := Answer(NACK, ERR_FORMAT, w.id);
      } else if phase != Idle && id == w.id {
        if total != w.w5 || expected != w.sha {
          reply := Answer(NACK, ERR_ID, w.id);
        } else {
          accepted := true;
          reply := Answer(if phase == Done then finalCode else if phase == Staged then STAGED else ACK, 0, w.id);
        }
      } else if phase == Active || phase == Staged || magic == PEND_MAGIC {
        reply := Answer(NACK, ERR_BUSY, w.id);
      } else {
        received, nextSeq, finalCode := 0, 0, 0;
        id, total, expected, phase := w.id, w.w5, w.sha, Active;
        magic := 0;
        accepted := true;
        reply := Answer(ACK, 0, w.id);
      }
    }

    method Data(w: Wire) returns (accepted: bool, reply: Reply)
      requires Valid() && WellSized(w)
      modifies this, pend
      ensures Valid()
      ensures Result(accepted, State(), reply) == old(OnData(State(), w))
    {
      accepted := false;
      var off, len := w.w7, w.b9;
      if w.n < 12 {
        reply := Answer(NACK, ERR_FORMAT, w.id);
      } else if len == 0 || len > MAX_CHUNK || w.n != 12 + len || off + len > total {
        reply := Answer(NACK, ERR_FORMAT, w.id);
      } else if phase != Active {
        reply := Answer(NACK, ERR_STATE, w.id);
      } else if w.w5 as int + 1 == nextSeq && off + len == received {
        accepted := SameBytes(off, w.data);
        assert pend[off..off + len] == pend[..][off..off + len];
        reply := Answer(if accepted then ACK else NACK, if accepted then 0 else ERR_SEQUENCE, w.id);
      } else if w.w5 != nextSeq || off != received {
        reply := Answer(NACK, ERR_SEQUENCE, w.id);
      } else {
        CopyIn(off, w.data);
        received := received + len;
        nextSeq := (nextSeq + 1) % TWO16;
        accepted := true;
        reply := Answer(ACK, 0, w.id);
      }
    }

    method Commit(hash: Hash, w: Wire) returns (accepted: bool, reply: Reply)
      requires Valid() && IsHash(hash)
      modifies this
      ensures Valid()
      ensures Result(accepted, State(), reply) == old(OnCommit(hash, State(), w))
    {
      accepted := false;
      if w.n != 7 {
        reply := Answer(NACK, ERR_FORMAT, w.id);
      } else if phase == Done || phase == Staged {
        accepted := true;
        reply := Answer(if phase == Done then finalCode else STAGED, 0, w.id);
      } else if phase == Idle {
        reply := Answer(NACK, ERR_STATE, w.id);
      } else if received != total {
        reply := Answer(NACK, ERR_SEQUENCE, w.id);
      } else {
        var digest := hash(pend[..total]);
        assert pend[..total] == pend[..][..total];
        var same := SameDigest(digest);
        if same {
          magic, phase := PEND_MAGIC, Staged;
          accepted := true;
          reply := Answer(STAGED, 0, w.id);
        } else {
          phase := Idle;
          reply := Answer(NACK, ERR_HASH, w.id);
        }
      }
    }

    method SameDigest(digest: seq<Byte>) returns (same: bool)
      requires |digest| == 32 && |expected| == 32
      ensures same <==> digest == expected
    {
      for i := 0 to 32
        invariant forall j | 0 <= j < i :: digest[j] == expected[j]
      {
        if digest[i] != expected[i] {
          return false;
        }
      }
      return true;
    }

    method Abort(w: Wire) returns (accepted: bool, reply: Reply)
      requires Valid()
      modifies this
      ensures Valid()
      ensures Result(accepted, State(), reply) == old(OnAbort(State(), w))
    {
      accepted := w.n == 7 && phase == Active;
      if w.n != 7 {
        reply := Answer(NACK, ERR_FORMAT, w.id);
      } else if phase == Active {
        magic, phase, received, nextSeq := 0, Idle, 0, 0;
        reply := Answer(ABORTED, 0, w.id);
      } else {
        reply := Answer(NACK, ERR_STATE, w.id);
      }
    }

    /** `update_process`. */
    method ProcessFrame(hash: Hash, p: seq<Byte>) returns (accepted: bool, reply: Reply)
      requires Valid() && IsHash(hash)
      modifies this, pend
      ensures Valid()
      ensures Result(accepted, State(), reply) == old(Process(hash, State(), Parse(p)))
    {
      var w := Parse(p);
      accepted := false;
      if w.n == 0 {
        reply := Answer(NACK, ERR_FORMAT, 0);
      } else if w.op == OP_BEGIN {
        accepted, reply := Begin(w);
      } else if w.n < 7 {
        reply := Answer(NACK, ERR_FORMAT, w.id);
      } else if !w.crcOk {
        reply := Answer(NACK, ERR_CRC, w.id);
      } else if phase == Idle || w.id != id {
        reply := Answer(NACK, ERR_ID, w.id);
      } else if w.op == OP_DATA {
        accepted, reply := Data(w);
      } else if w.op == OP_COMMIT {
        accepted, reply := Commit(hash, w);
      } else if w.op == OP_ABORT {
        accepted, reply := Abort(w);
      } else {
        reply := Answer(NACK, ERR_FORMAT, w.id);
      }
    }

    /** `update_finish`. */
    method FinishTransfer(ok: bool)
      requires Valid()
      modifies `phase, `finalCode
      ensures Valid()
      ensures State() == Finish(old(State()), ok)
    {
      finalCode := if ok then ACCEPT else REJECT;
      phase := Done;
    }
  }
}
