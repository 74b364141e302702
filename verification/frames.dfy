/** The console frame machine (core/frame.c) and the sender of the same format (core/uart.c):
    round trip over whole streams, and bounded resynchronisation. */
module Frames {
  import opened Words
  import opened Bits

  const SYNC: Byte := 0x7E

  /** Fields of the assembler; `sum` is a C unsigned and wraps. */
  datatype Rx = Rx(phase: nat, kind: Byte, len: nat, idx: nat, sum: U32)

  const IDLE: Rx := Rx(0, 0, 0, 0, 0)

  /** A complete frame. */
  datatype Message = Message(kind: Byte, payload: seq<Byte>)

  /** Assembler and buffer after some bytes, and the messages delivered on the way. */
  datatype Fed = Fed(rx: Rx, buf: seq<Byte>, delivered: seq<Message>)

  /** What every reachable assembler satisfies. */
  predicate Sane(rx: Rx, cap: nat) {
    && rx.phase <= 6
    && (rx.phase == 4 ==> rx.len < 0x100)
    && (rx.phase == 5 ==> rx.idx < rx.len <= cap)
    && (rx.phase == 6 ==> rx.len <= cap)
  }

  function Length(lo: nat, hi: Byte): nat {
    Or(lo, Shl(hi, BYTE_BITS))
  }

  function AfterLength(rx: Rx, cap: nat, byte: Byte): Rx {
    var len, sum := Length(rx.len, byte), ToU32(rx.sum + byte);
    if len > cap then rx.(phase := 0, len := len, sum := sum)
    else rx.(phase := if len != 0 then 5 else 6, len := len, idx := 0, sum := sum)
  }

  /** `uart_frame_step` without the buffer. */
  function NextRx(rx: Rx, cap: nat, byte: Byte): Rx {
    match rx.phase
    case 0 => rx.(phase := if byte == SYNC then 1 else 0)
    case 1 => rx.(phase := if byte == SYNC then 2 else 0)
    case 2 => rx.(phase := 3, kind := byte, sum := byte)
    case 3 => rx.(phase := 4, len := byte, sum := ToU32(rx.sum + byte))
    case 4 => AfterLength(rx, cap, byte)
    case 5 => rx.(phase := if rx.idx + 1 == rx.len then 6 else 5, idx := rx.idx + 1, sum := ToU32(rx.sum + byte))
    case _ => rx.(phase := 0)
  }

  /** The payload length when a frame with a valid checksum just ended, else 0. */
  function Completed(rx: Rx, byte: Byte): nat {
    if rx.phase == 6 && ToU32(rx.sum + byte) % 0x100 == 0 then rx.len else 0
  }

  function NextBuf(rx: Rx, buf: seq<Byte>, byte: Byte): seq<Byte>
    requires rx.phase == 5 ==> rx.idx < |buf|
  {
    if rx.phase == 5 then buf[rx.idx := byte] else buf
  }

  lemma LengthBound(lo: Byte, hi: Byte)
    ensures Length(lo, hi) == lo as int + 0x100 * hi as int
  {
    Pow2Values();
    OrDisjoint(lo, hi, BYTE_BITS);
    ShlIsMul(hi, BYTE_BITS);
  }

  lemma NextSane(rx: Rx, cap: nat, byte: Byte)
    requires Sane(rx, cap)
    ensures Sane(NextRx(rx, cap, byte), cap)
  {
  }

  /** The machine over a byte string. */
  function Feed(rx: Rx, buf: seq<Byte>, cap: nat, bytes: seq<Byte>): (r: Fed)
    requires Sane(rx, cap) && |buf| >= cap
    ensures Sane(r.rx, cap) && |r.buf| == |buf|
    decreases |bytes|, rx
  {
    if |bytes| == 0 then Fed(rx, buf, [])
    else
      NextSane(rx, cap, bytes[0]);
      var n := Completed(rx, bytes[0]);
      var rest := Feed(NextRx(rx, cap, bytes[0]), NextBuf(rx, buf, bytes[0]), cap, bytes[1..]);
      if n > 0 then rest.(delivered := [Message(rx.kind, buf[..n])] + rest.delivered) else rest
  }

  function Head(rx: Rx, buf: seq<Byte>, byte: Byte): seq<Message>
    requires Completed(rx, byte) <= |buf|
  {
    var n := Completed(rx, byte);
    if n > 0 then [Message(rx.kind, buf[..n])] else []
  }

  // ----- whole strings -----

  lemma {:induction false} FeedConcat(rx: Rx, buf: seq<Byte>, cap: nat, a: seq<Byte>, b: seq<Byte>)
    requires Sane(rx, cap) && |buf| >= cap
    ensures var mid := Feed(rx, buf, cap, a);
            var end := Feed(mid.rx, mid.buf, cap, b);
            Feed(rx, buf, cap, a + b) == end.(delivered := mid.delivered + end.delivered)
    decreases |a|
  {
    if |a| == 0 {
      assert a + b == b;
    } else {
      assert (a + b)[1..] == a[1..] + b;
      NextSane(rx, cap, a[0]);
      FeedConcat(NextRx(rx, cap, a[0]), NextBuf(rx, buf, a[0]), cap, a[1..], b);
    }
  }

  /** Nothing is written at or above the cap. */
  lemma {:induction false} WritesBelowCap(rx: Rx, buf: seq<Byte>, cap: nat, bytes: seq<Byte>)
    requires Sane(rx, cap) && |buf| >= cap
    ensures Feed(rx, buf, cap, bytes).buf[cap..] == buf[cap..]
    decreases |bytes|
  {
    if |bytes| > 0 {
      NextSane(rx, cap, bytes[0]);
      WritesBelowCap(NextRx(rx, cap, bytes[0]), NextBuf(rx, buf, bytes[0]), cap, bytes[1..]);
    }
  }

  // ----- the sender -----

  function Sum(bytes: seq<Byte>): nat {
    if |bytes| == 0 then 0 else Sum(bytes[..|bytes| - 1]) + bytes[|bytes| - 1]
  }

  function Header(m: Message): seq<Byte> {
    [SYNC, SYNC, m.kind, |m.payload| % 0x100, |m.payload| / 0x100 % 0x100]
  }

  function HeaderSum(m: Message): nat {
    m.kind + |m.payload| % 0x100 + |m.payload| / 0x100
  }

  function Checksum(m: Message): Byte {
    (0 - HeaderSum(m) - Sum(m.payload)) % 0x100
  }

  function Encode(m: Message): seq<Byte> {
    Header(m) + m.payload + [Checksum(m)]
  }

  /** The payload after what was emitted, with the running sum. */
  method EmitPayload(opening: seq<Byte>, payload: seq<Byte>, sum0: U32, ghost base: nat)
    returns (wire: seq<Byte>, sum: U32)
    requires sum0 == ToU32(base)
    ensures wire == opening + payload && sum == ToU32(base + Sum(payload))
  {
    wire, sum := opening, sum0;
    for i := 0 to |payload|
      invariant wire == opening + payload[..i]
      invariant sum == ToU32(base + Sum(payload[..i]))
    {
      SumNext(payload, i);
      WrapSum(base + Sum(payload[..i]), payload[i]);
      wire := wire + [payload[i]];
      sum := ToU32(sum + payload[i]);
    }
    assert payload[..|payload|] == payload;
  }

  /** `uart_send_frame`: the bytes on the wire, the sum accumulated as a wrapping unsigned. */
  method SendFrame(m: Message) returns (wire: seq<Byte>)
    requires |m.payload| < TWO32
    ensures wire == Encode(m)
  {
    var sum: U32 := HeaderSum(m);
    wire, sum := EmitPayload(Header(m), m.payload, sum, HeaderSum(m));
    NegatedSum(HeaderSum(m) + Sum(m.payload), sum);
    wire := wire + [ToU32(0 - sum) % 0x100];
  }

  lemma {:induction false} SumNext(data: seq<Byte>, i: nat)
    requires i < |data|
    ensures data[..i + 1] == data[..i] + [data[i]] && Sum(data[..i + 1]) == Sum(data[..i]) + data[i]
  {
    assert data[..i + 1][..i] == data[..i];
  }

  lemma WrapSum(total: nat, byte: Byte)
    ensures ToU32(ToU32(total) + byte) == ToU32(total + byte)
  {
  }

  lemma NegatedSum(total: nat, sum: U32)
    requires sum == ToU32(total)
    ensures ToU32(0 - sum) % 0x100 == (0 - total) % 0x100
  {
    var u, v := sum / 0x100, sum % 0x100;
    LowByteKept(total, sum, u, v);
    if sum == 0 {
      assert ToU32(0 - sum) == 0;
    } else {
      assert ToU32(0 - sum) == TWO32 - sum;
      if v == 0 {
        ByteIs(TWO32 - sum, 0x100_0000 - u, 0);
      } else {
        ByteIs(TWO32 - sum, 0x100_0000 - u - 1, 0x100 - v);
      }
    }
  }

  // ----- round trip -----

  predicate Fits(m: Message, cap: nat) {
    0 < |m.payload| <= cap && |m.payload| < 0x1_0000
  }

  /** The states of the machine along a header. */
  function AfterHeader(rx: Rx, cap: nat, h: seq<Byte>, k: nat): Rx
    requires k <= |h|
    decreases k, rx
  {
    if k == 0 then rx else NextRx(AfterHeader(rx, cap, h, k - 1), cap, h[k - 1])
  }

  lemma HeaderStep(rx: Rx, cap: nat, h: seq<Byte>, k: nat, now: Rx)
    requires k < |h| && AfterHeader(rx, cap, h, k) == now
    ensures AfterHeader(rx, cap, h, k + 1) == NextRx(now, cap, h[k])
  {
  }

  /** Sync pair and type. */
  lemma OpeningStates(rx: Rx, cap: nat, h: seq<Byte>, kind: Byte)
    requires rx.phase == 0 && |h| == 5 && h[0] == h[1] == SYNC && h[2] == kind
    ensures AfterHeader(rx, cap, h, 0) == rx && AfterHeader(rx, cap, h, 1) == rx.(phase := 1)
    ensures AfterHeader(rx, cap, h, 2) == rx.(phase := 2)
    ensures AfterHeader(rx, cap, h, 3) == rx.(phase := 3, kind := kind, sum := kind)
  {
    HeaderStep(rx, cap, h, 0, rx);
    HeaderStep(rx, cap, h, 1, rx.(phase := 1));
    HeaderStep(rx, cap, h, 2, rx.(phase := 2));
  }

  /** The high byte of the length, for the length it makes. */
  lemma HighByteState(rx: Rx, cap: nat, hi: Byte, total: nat, sum: U32)
    requires rx.phase == 4 && Length(rx.len, hi) == total <= cap && sum == rx.sum as int + hi as int
    ensures NextRx(rx, cap, hi) == Rx(if total == 0 then 6 else 5, rx.kind, total, 0, sum)
  {
  }

  lemma LengthStates(rx: Rx, cap: nat, lo: Byte, hi: Byte, total: nat)
    requires rx.phase == 3 && rx.sum < 0x100 && total == lo as int + 0x100 * hi as int <= cap
    ensures var mid := NextRx(rx, cap, lo);
            && mid == rx.(phase := 4, sum := rx.sum as int + lo as int, len := lo)
            && NextRx(mid, cap, hi)
               == Rx(if total == 0 then 6 else 5, rx.kind, total, 0, rx.sum as int + lo as int + hi as int)
  {
    LengthBound(lo, hi);
    HighByteState(rx.(phase := 4, sum := rx.sum as int + lo as int, len := lo), cap, hi, total,
                  rx.sum as int + lo as int + hi as int);
  }

  /** The states along a header whose length fits. */
  lemma HeaderStates(rx: Rx, cap: nat, h: seq<Byte>, kind: Byte, lo: Byte, hi: Byte, total: nat)
    requires rx.phase == 0 && h == [SYNC, SYNC, kind, lo, hi] && total == lo as int + 0x100 * hi as int <= cap
    ensures forall j | 0 <= j < 5 :: AfterHeader(rx, cap, h, j).phase < 5
    ensures AfterHeader(rx, cap, h, 5)
         == Rx(if total == 0 then 6 else 5, kind, total, 0, kind as int + lo as int + hi as int)
  {
    OpeningStates(rx, cap, h, kind);
    var typed := rx.(phase := 3, kind := kind, sum := kind);
    LengthStates(typed, cap, lo, hi, total);
    HeaderStep(rx, cap, h, 3, typed);
    HeaderStep(rx, cap, h, 4, NextRx(typed, cap, lo));
  }

  /** Bytes that complete no frame only move the machine. */
  lemma {:induction false} QuietFed(rx: Rx, buf: seq<Byte>, cap: nat, h: seq<Byte>, k: nat)
    requires Sane(rx, cap) && |buf| >= cap && k <= |h|
    requires forall j | 0 <= j < |h| :: AfterHeader(rx, cap, h, j).phase < 5
    ensures Feed(rx, buf, cap, h[..k]) == Fed(AfterHeader(rx, cap, h, k), buf, [])
    decreases k
  {
    if k > 0 {
      QuietFed(rx, buf, cap, h, k - 1);
      assert h[..k] == h[..k - 1] + [h[k - 1]];
      FeedConcat(rx, buf, cap, h[..k - 1], [h[k - 1]]);
      assert [h[k - 1]][1..] == [];
    }
  }

  /** The header brings the idle machine to the payload phase. */
  lemma HeaderFed(rx: Rx, buf: seq<Byte>, cap: nat, m: Message)
    requires rx.phase == 0 && |buf| >= cap && Fits(m, cap)
    ensures Feed(rx, buf, cap, Header(m)) == Fed(Rx(5, m.kind, |m.payload|, 0, HeaderSum(m)), buf, [])
  {
    var h := Header(m);
    HeaderStates(rx, cap, h, m.kind, h[3], h[4], |m.payload|);
    QuietFed(rx, buf, cap, h, 5);
    assert h[..5] == h;
  }

  /** k bytes of payload: they are in the buffer, and nothing was delivered. */
  lemma {:induction false} PayloadFed(rx: Rx, buf: seq<Byte>, cap: nat, data: seq<Byte>)
    requires rx.phase == 5 && Sane(rx, cap) && |buf| >= cap && rx.idx + |data| <= rx.len
    ensures PayloadIn(rx, buf, data, Feed(rx, buf, cap, data))
    decreases |data|
  {
    if |data| > 0 {
      var k := |data| - 1;
      PayloadFed(rx, buf, cap, data[..k]);
      FeedConcat(rx, buf, cap, data[..k], data[k..]);
      assert data[..k] + data[k..] == data;
      OneMoreIn(rx, buf, cap, data, k, Feed(rx, buf, cap, data[..k]));
    }
  }

  /** What feeding these bytes of a payload comes to: they are in the buffer, and nothing was delivered. */
  predicate PayloadIn(rx: Rx, buf: seq<Byte>, data: seq<Byte>, r: Fed)
    requires rx.idx + |data| <= |buf|
  {
    && r.delivered == []
    && r.rx.kind == rx.kind && r.rx.len == rx.len && r.rx.sum == ToU32(rx.sum + Sum(data))
    && r.rx.phase == (if rx.idx + |data| == rx.len then 6 else 5)
    && r.rx.idx == rx.idx + |data|
    && r.buf == buf[..rx.idx] + data + buf[rx.idx + |data|..]
  }

  lemma {:induction false} OneMoreIn(rx: Rx, buf: seq<Byte>, cap: nat, data: seq<Byte>, k: nat, mid: Fed)
    requires rx.phase == 5 && Sane(rx, cap) && |buf| >= cap && k + 1 == |data| && rx.idx + |data| <= rx.len
    requires PayloadIn(rx, buf, data[..k], mid)
    ensures Sane(mid.rx, cap) && |mid.buf| >= cap && PayloadIn(rx, buf, data, Feed(mid.rx, mid.buf, cap, data[k..]))
  {
    LastByteFed(mid.rx, mid.buf, cap, data[k..], rx.sum + Sum(data[..k]));
    assert mid.buf[rx.idx + k := data[k]] == buf[..rx.idx] + data + buf[rx.idx + |data|..];
  }

  lemma LastByteFed(rx: Rx, buf: seq<Byte>, cap: nat, one: seq<Byte>, sum: nat)
    requires rx.phase == 5 && Sane(rx, cap) && |buf| >= cap && |one| == 1 && rx.sum == ToU32(sum)
    ensures Feed(rx, buf, cap, one)
         == Fed(rx.(phase := if rx.idx + 1 == rx.len then 6 else 5, idx := rx.idx + 1, sum := ToU32(sum + one[0])),
                buf[rx.idx := one[0]], [])
  {
    assert one[1..] == [];
    WrapSum(sum, one[0]);
  }

  lemma BodyFed(rx: Rx, buf: seq<Byte>, cap: nat, m: Message)
    requires rx.phase == 0 && |buf| >= cap && Fits(m, cap)
    ensures var r := Feed(rx, buf, cap, Header(m) + m.payload);
            && r.delivered == [] && r.buf[..|m.payload|] == m.payload
            && r.rx.phase == 6 && r.rx.kind == m.kind && r.rx.len == |m.payload|
            && r.rx.sum == ToU32(HeaderSum(m) + Sum(m.payload))
  {
    HeaderFed(rx, buf, cap, m);
    FeedConcat(rx, buf, cap, Header(m), m.payload);
    PayloadFed(Rx(5, m.kind, |m.payload|, 0, HeaderSum(m)), buf, cap, m.payload);
  }

  lemma ChecksumFed(rx: Rx, buf: seq<Byte>, cap: nat, total: nat)
    requires Sane(rx, cap) && rx.phase == 6 && |buf| >= cap && rx.len > 0 && rx.sum == ToU32(total)
    ensures var r := Feed(rx, buf, cap, [(0 - total) % 0x100]);
            r.delivered == [Message(rx.kind, buf[..rx.len])] && r.rx.phase == 0
  {
    var one := [(0 - total) % 0x100];
    ChecksumCloses(total, rx.sum, one[0]);
    assert one[1..] == [];
  }

  /** A frame fed to an idle machine is delivered, exactly it and only it, and the machine is idle again. */
  lemma RoundTrip(rx: Rx, buf: seq<Byte>, cap: nat, m: Message)
    requires rx.phase == 0 && |buf| >= cap && Fits(m, cap)
    ensures Feed(rx, buf, cap, Encode(m)).delivered == [m]
    ensures Feed(rx, buf, cap, Encode(m)).rx.phase == 0
  {
    var body := Header(m) + m.payload;
    var total := HeaderSum(m) + Sum(m.payload);
    BodyFed(rx, buf, cap, m);
    var mid := Feed(rx, buf, cap, body);
    ChecksumFed(mid.rx, mid.buf, cap, total);
    assert [Checksum(m)] == [(0 - total) % 0x100];
    FeedConcat(rx, buf, cap, body, [Checksum(m)]);
  }

  lemma ByteIs(x: int, k: int, r: nat)
    requires x == 0x100 * k + r && r < 0x100
    ensures x % 0x100 == r
  {
  }

  /** The low byte of a wrapped sum, and of its negation. */
  lemma LowByteKept(total: nat, sum: U32, u: nat, v: Byte)
    requires sum == ToU32(total) && sum == 0x100 * u + v
    ensures total % 0x100 == v && (0 - total) % 0x100 == if v == 0 then 0 else 0x100 - v
  {
    var q := total / TWO32;
    assert total == TWO32 * q + sum;
    ByteIs(total, 0x100_0000 * q + u, v);
    if v == 0 {
      ByteIs(0 - total, 0 - (0x100_0000 * q + u), 0);
    } else {
      ByteIs(0 - total, 0 - (0x100_0000 * q + u) - 1, 0x100 - v);
    }
  }

  lemma Wrapped(x: nat, sum: U32)
    requires x == sum || x == sum + TWO32
    ensures ToU32(x) == sum
  {
  }

  lemma ChecksumCloses(total: nat, sum: U32, check: Byte)
    requires sum == ToU32(total) && check == (0 - total) % 0x100
    ensures ToU32(sum + check) % 0x100 == 0
  {
    var u, v := sum / 0x100, sum % 0x100;
    LowByteKept(total, sum, u, v);
    var w := if v == 0 then u else u + 1;
    assert sum + check == 0x100 * w;
    if w < 0x100_0000 {
      Wrapped(sum + check, 0x100 * w);
      ByteIs(0x100 * w, w, 0);
    } else {
      Wrapped(sum + check, 0x100 * w - TWO32);
    }
  }

  lemma PrefixSilent(rx: Rx, buf: seq<Byte>, cap: nat, a: seq<Byte>, b: seq<Byte>)
    requires Sane(rx, cap) && |buf| >= cap && Feed(rx, buf, cap, a + b).delivered == []
    ensures Feed(rx, buf, cap, a).delivered == []
  {
    FeedConcat(rx, buf, cap, a, b);
    var mid := Feed(rx, buf, cap, a);
    Empties(mid.delivered, Feed(mid.rx, mid.buf, cap, b).delivered);
  }

  lemma Empties(a: seq<Message>, b: seq<Message>)
    ensures a + b == [] ==> a == []
  {
    assert |a + b| == |a| + |b|;
  }

  /** And not earlier: no proper prefix of a frame delivers anything. */
  lemma NothingEarly(rx: Rx, buf: seq<Byte>, cap: nat, m: Message, k: nat)
    requires rx.phase == 0 && |buf| >= cap && Fits(m, cap) && k < |Encode(m)|
    ensures Feed(rx, buf, cap, Encode(m)[..k]).delivered == []
  {
    var body := Header(m) + m.payload;
    BodyFed(rx, buf, cap, m);
    assert Encode(m)[..k] == body[..k];
    assert body[..k] + body[k..] == body;
    PrefixSilent(rx, buf, cap, body[..k], body[k..]);
  }

  function EncodeAll(ms: seq<Message>): seq<Byte> {
    if |ms| == 0 then [] else Encode(ms[0]) + EncodeAll(ms[1..])
  }

  /** A stream of frames is delivered message for message, in order. */
  lemma {:induction false} StreamRoundTrip(rx: Rx, buf: seq<Byte>, cap: nat, ms: seq<Message>)
    requires rx.phase == 0 && |buf| >= cap && forall i | 0 <= i < |ms| :: Fits(ms[i], cap)
    ensures Feed(rx, buf, cap, EncodeAll(ms)).delivered == ms
    ensures Feed(rx, buf, cap, EncodeAll(ms)).rx.phase == 0
    decreases |ms|
  {
    if |ms| > 0 {
      RoundTrip(rx, buf, cap, ms[0]);
      var mid := Feed(rx, buf, cap, Encode(ms[0]));
      FeedConcat(rx, buf, cap, Encode(ms[0]), EncodeAll(ms[1..]));
      StreamRoundTrip(mid.rx, mid.buf, cap, ms[1..]);
    }
  }

  /** The exception to the round trip: a frame without payload passes its checksum silently. */
  lemma EmptyFrameIsSilent(rx: Rx, buf: seq<Byte>, cap: nat, kind: Byte)
    requires rx.phase == 0 && |buf| >= cap
    ensures Feed(rx, buf, cap, Encode(Message(kind, []))).delivered == []
    ensures Feed(rx, buf, cap, Encode(Message(kind, []))).rx.phase == 0
  {
    var m := Message(kind, []);
    var h := Encode(m)[..5];
    assert h == [SYNC, SYNC, kind, 0, 0];
    HeaderStates(rx, cap, h, kind, 0, 0, 0);
    QuietFed(rx, buf, cap, h, 5);
    assert h[..5] == h;
    FeedConcat(rx, buf, cap, h, [Checksum(m)]);
    assert Encode(m) == h + [Checksum(m)];
    assert [Checksum(m)][1..] == [];
  }

  // ----- resynchronisation -----

  /** How many bytes can still pass before the machine must be idle, if no sync byte comes. */
  function Window(rx: Rx, cap: nat): nat {
    match rx.phase
    case 0 => 0
    case 1 => 1
    case 2 => cap + 4
    case 3 => cap + 3
    case 4 => cap + 2
    case 5 => if rx.idx < rx.len then rx.len - rx.idx + 1 else 1
    case _ => 1
  }

  lemma WindowShrinks(rx: Rx, cap: nat, byte: Byte)
    requires Sane(rx, cap) && byte != SYNC
    ensures Window(NextRx(rx, cap, byte), cap) < Window(rx, cap) || (rx.phase == 0 && NextRx(rx, cap, byte).phase == 0)
  {
  }

  /** From any reachable state, cap + 4 bytes without a sync byte bring the machine back to idle. */
  lemma {:induction false} Resync(rx: Rx, buf: seq<Byte>, cap: nat, noise: seq<Byte>)
    requires Sane(rx, cap) && |buf| >= cap && SYNC !in noise && |noise| >= Window(rx, cap)
    ensures Feed(rx, buf, cap, noise).rx.phase == 0
    decreases |noise|
  {
    if |noise| > 0 {
      NextSane(rx, cap, noise[0]);
      WindowShrinks(rx, cap, noise[0]);
      Resync(NextRx(rx, cap, noise[0]), NextBuf(rx, buf, noise[0]), cap, noise[1..]);
    }
  }

  // ----- and no fewer bytes do -----

  /** A header announcing a payload of the whole cap, from right after its sync pair, and that payload. */
  function LongestNoise(cap: U16): (noise: seq<Byte>)
    ensures |noise| == cap + 3
  {
    [0, cap % 0x100, cap / 0x100] + seq(cap, _ => 0)
  }

  lemma AnnouncedCap(buf: seq<Byte>, cap: U16)
    requires |buf| >= cap
    ensures Feed(Rx(2, 0, 0, 0, 0), buf, cap, [0, cap % 0x100, cap / 0x100])
         == Fed(Rx(if cap == 0 then 6 else 5, 0, cap, 0, cap % 0x100 + cap / 0x100), buf, [])
  {
    var rx, h := Rx(2, 0, 0, 0, 0), [0, cap % 0x100, cap / 0x100];
    HeaderStep(rx, cap, h, 0, rx);
    var kindRead := Rx(3, 0, 0, 0, 0);
    LengthStates(kindRead, cap, cap % 0x100, cap / 0x100, cap);
    HeaderStep(rx, cap, h, 1, kindRead);
    var mid := NextRx(kindRead, cap, h[1]);
    HeaderStep(rx, cap, h, 2, mid);
    QuietFed(rx, buf, cap, h, 3);
    assert h[..3] == h;
  }

  lemma LongestNoiseBusy(buf: seq<Byte>, cap: U16)
    requires |buf| >= cap
    ensures Feed(Rx(2, 0, 0, 0, 0), buf, cap, LongestNoise(cap)).rx.phase == 6
  {
    var h, data := [0, cap % 0x100, cap / 0x100], seq(cap, _ => 0 as Byte);
    AnnouncedCap(buf, cap);
    FeedConcat(Rx(2, 0, 0, 0, 0), buf, cap, h, data);
    if cap > 0 {
      PayloadFed(Rx(5, 0, cap, 0, cap % 0x100 + cap / 0x100), buf, cap, data);
    }
  }

  /** After fewer bytes the machine is not idle either: it would have stayed idle. */
  lemma ShorterNoiseBusy(buf: seq<Byte>, cap: U16, n: nat)
    requires |buf| >= cap && n <= cap + 3 && SYNC !in LongestNoise(cap)
    ensures Feed(Rx(2, 0, 0, 0, 0), buf, cap, LongestNoise(cap)[..n]).rx.phase != 0
  {
    var rx, noise := Rx(2, 0, 0, 0, 0), LongestNoise(cap);
    LongestNoiseBusy(buf, cap);
    var mid := Feed(rx, buf, cap, noise[..n]);
    FeedConcat(rx, buf, cap, noise[..n], noise[n..]);
    assert noise == noise[..n] + noise[n..];
    if mid.rx.phase == 0 {
      Resync(mid.rx, mid.buf, cap, noise[n..]);
    }
  }

  /** n bytes without a sync byte bring every reachable machine to idle. */
  ghost predicate Resyncs(cap: nat, n: nat) {
    forall rx, buf, noise: seq<Byte> | Sane(rx, cap) && |buf| >= cap && |noise| == n && SYNC !in noise ::
      Feed(rx, buf, cap, noise).rx.phase == 0
  }

  /** The window is exact: cap + 4 bytes are needed and enough, for every cap that can be announced
      without a sync byte. */
  lemma ResyncExactly(cap: U16, n: nat)
    requires cap % 0x100 != SYNC && cap / 0x100 != SYNC
    ensures Resyncs(cap, n) <==> n >= cap + 4
  {
    if n >= cap + 4 {
      forall rx, buf, noise: seq<Byte> | Sane(rx, cap) && |buf| >= cap && |noise| == n && SYNC !in noise
        ensures Feed(rx, buf, cap, noise).rx.phase == 0
      {
        Resync(rx, buf, cap, noise);
      }
    } else {
      var buf := seq(cap, _ => 0 as Byte);
      ShorterNoiseBusy(buf, cap, n);
      assert Sane(Rx(2, 0, 0, 0, 0), cap) && |LongestNoise(cap)[..n]| == n && SYNC !in LongestNoise(cap)[..n];
    }
  }

  /** So a stream that follows such a stretch is delivered, whatever came before it. */
  lemma DeliveredAfterNoise(rx: Rx, buf: seq<Byte>, cap: nat, noise: seq<Byte>, ms: seq<Message>)
    requires Sane(rx, cap) && |buf| >= cap && SYNC !in noise && |noise| >= cap + 4
    requires forall i | 0 <= i < |ms| :: Fits(ms[i], cap)
    ensures Feed(rx, buf, cap, noise + EncodeAll(ms)).delivered == Feed(rx, buf, cap, noise).delivered + ms
  {
    Resync(rx, buf, cap, noise);
    var mid := Feed(rx, buf, cap, noise);
    FeedConcat(rx, buf, cap, noise, EncodeAll(ms));
    StreamRoundTrip(mid.rx, mid.buf, cap, ms);
  }

  /** What the poll does to a frame that has stalled. */
  function Expired(rx: Rx): Rx {
    if rx.phase != 0 then rx.(phase := 0, idx := 0, len := 0) else rx
  }

  /** After that the next frame is delivered, wherever the stalled one broke off. */
  lemma StalledFrameIsDropped(rx: Rx, buf: seq<Byte>, cap: nat, m: Message)
    requires |buf| >= cap && Fits(m, cap)
    ensures Feed(Expired(rx), buf, cap, Encode(m)).delivered == [m]
  {
    RoundTrip(Expired(rx), buf, cap, m);
  }

  // ----- the machine in place -----

  class Assembler {
    var phase: nat
    var kind: Byte
    var len: nat
    var idx: nat
    var sum: U32

    function State(): Rx
      reads this
    {
      Rx(phase, kind, len, idx, sum)
    }

    constructor ()
      ensures State() == IDLE
    {
      phase, kind, len, idx, sum := 0, 0, 0, 0, 0;
    }

    /** `uart_frame_step`. */
    method Step(byte: Byte, dst: array<Byte>, cap: nat) returns (n: nat)
      requires Sane(State(), cap) && dst.Length >= cap
      modifies this, dst
      ensures State() == NextRx(old(State()), cap, byte) && Sane(State(), cap)
      ensures n == old(Completed(State(), byte))
      ensures dst[..] == old(NextBuf(State(), dst[..], byte))
    {
      n := 0;
      NextSane(State(), cap, byte);
      if phase == 0 {
        phase := if byte == SYNC then 1 else 0;
      } else if phase == 1 {
        phase := if byte == SYNC then 2 else 0;
      } else if phase == 2 {
        kind, sum, phase := byte, byte, 3;
      } else if phase == 3 {
        sum := ToU32(sum + byte);
        len, phase := byte, 4;
      } else if phase == 4 {
        sum := ToU32(sum + byte);
        len := Or(len, Shl(byte, BYTE_BITS));
        if len > cap {
          phase := 0;
          return;
        }
        idx := 0;
        phase := if len != 0 then 5 else 6;
      } else if phase == 5 {
        dst[idx] := byte;
        idx := idx + 1;
        sum := ToU32(sum + byte);
        phase := if idx == len then 6 else 5;
      } else {
        phase := 0;
        n := if ToU32(sum + byte) % 0x100 == 0 then len else 0;
      }
    }

    /** `uart_poll_frame`: a frame that stalled for too long is dropped; then bytes are taken until one
        completes a frame, whose length is returned, or none is left. `bytes` is what the receiver
        holds, `stalled` what the timer says. */
    method Poll(bytes: seq<Byte>, stalled: bool, dst: array<Byte>, cap: nat) returns (n: nat, taken: nat)
      requires Sane(State(), cap) && dst.Length >= cap
      modifies this, dst
      ensures taken <= |bytes| && n <= dst.Length && (n == 0 ==> taken == |bytes|)
      ensures var rx := if stalled then Expired(old(State())) else old(State());
              && Sane(rx, cap)
              && Fed(State(), dst[..], if n > 0 then [Message(kind, dst[..n])] else [])
                 == Feed(rx, old(dst[..]), cap, bytes[..taken])
              && (n > 0 ==> taken > 0 && Feed(rx, old(dst[..]), cap, bytes[..taken - 1]).delivered == [])
    {
      if phase != 0 && stalled {
        phase, idx, len := 0, 0, 0;
      }
      ghost var rx, buf := State(), dst[..];
      taken := 0;
      assert bytes[..0] == [];
      while taken < |bytes|
        invariant taken <= |bytes| && Sane(State(), cap)
        invariant Feed(rx, buf, cap, bytes[..taken]) == Fed(State(), dst[..], [])
      {
        ghost var mid := Fed(State(), dst[..], []);
        n := Step(bytes[taken], dst, cap);
        FeedNext(rx, buf, cap, bytes, taken, mid);
        Stepped(mid, cap, bytes[taken], State(), dst[..], n);
        taken := taken + 1;
        if n > 0 {
          return;
        }
      }
      n := 0;
    }
  }

  /** The machine and the message after one more byte. */
  function Advanced(mid: Fed, cap: nat, byte: Byte): Fed
    requires Sane(mid.rx, cap) && |mid.buf| >= cap
  {
    Fed(NextRx(mid.rx, cap, byte), NextBuf(mid.rx, mid.buf, byte), mid.delivered + Head(mid.rx, mid.buf, byte))
  }

  /** One byte more at the end. */
  lemma FeedNext(rx: Rx, buf: seq<Byte>, cap: nat, bytes: seq<Byte>, k: nat, mid: Fed)
    requires Sane(rx, cap) && |buf| >= cap && k < |bytes| && mid == Feed(rx, buf, cap, bytes[..k])
    ensures Feed(rx, buf, cap, bytes[..k + 1]) == Advanced(mid, cap, bytes[k])
  {
    var one := [bytes[k]];
    assert bytes[..k + 1] == bytes[..k] + one && one[1..] == [];
    FeedConcat(rx, buf, cap, bytes[..k], one);
  }

  lemma Stepped(mid: Fed, cap: nat, byte: Byte, rx: Rx, buf: seq<Byte>, n: nat)
    requires Sane(mid.rx, cap) && |mid.buf| >= cap && mid.delivered == []
    requires rx == NextRx(mid.rx, cap, byte) && buf == NextBuf(mid.rx, mid.buf, byte) && n == Completed(mid.rx, byte)
    ensures n <= |buf| && Advanced(mid, cap, byte) == Fed(rx, buf, if n > 0 then [Message(rx.kind, buf[..n])] else [])
  {
  }
}
