/** The length-prefixed frames of the message bus and the splitting of a batch of them. */
module Frame {
  import opened Bytes

  const FRAME_LEN_SIZE: nat := 4
  const FRAME_BODY_HEAD_SIZE: nat := 25

  datatype Head = Head(actorID: uint64, sesID: uint64, msgID: uint32, flag: uint8,
                       fromSer: uint8, fromSerID: uint8, toSer: uint8, toSerID: uint8)

  datatype Message = Message(head: Head, data: Str)

  // ---------- encoding ----------

  function HeadBytes(h: Head): (s: seq<byte>)
    ensures |s| == FRAME_BODY_HEAD_SIZE
  {
    LittleEndian(h.msgID, 4) + (LittleEndian(h.actorID, 8) + (LittleEndian(h.sesID, 8) +
      [h.fromSer, h.fromSerID, h.toSer, h.toSerID, h.flag]))
  }

  /** The body size goes through uint32, so only its low 32 bits are written. */
  function FrameBytes(m: Message): (s: seq<byte>)
    ensures |s| == FRAME_LEN_SIZE + FRAME_BODY_HEAD_SIZE + |m.data|
  {
    LittleEndian(FRAME_BODY_HEAD_SIZE + |m.data|, 4) + (HeadBytes(m.head) + m.data)
  }

  function Frames(ms: seq<Message>): seq<byte> {
    if ms == [] then [] else FrameBytes(ms[0]) + Frames(ms[1..])
  }

  lemma {:induction false} FramesConcat(a: seq<Message>, b: seq<Message>)
    ensures Frames(a + b) == Frames(a) + Frames(b)
  {
    if a == [] {
      assert a + b == b;
    } else {
      FramesConcat(a[1..], b);
      assert (a + b)[1..] == a[1..] + b && (a + b)[0] == a[0];
    }
  }

  /** binary.LittleEndian.PutUint32 and PutUint64 at position at of a buffer. */
  method PutWord(dst: array<byte>, at: nat, v: nat, n: nat)
    requires at + n <= dst.Length
    modifies dst
    ensures Wrote(old(dst[..]), dst[..], at, at + n, LittleEndian(v, n))
  {
    var x := v;
    for k := 0 to n
      invariant dst[at..at + k] + LittleEndian(x, n - k) == LittleEndian(v, n)
      invariant dst[..at] == old(dst[..at]) && dst[at + n..] == old(dst[at + n..])
    {
      dst[at + k] := x % 256;
      assert dst[at..at + k + 1] == dst[at..at + k] + [x % 256];
      x := x / 256;
    }
  }

  /** Head.EncodeTo(dst[at:], bodySize). */
  method EncodeHeadTo(h: Head, dst: array<byte>, at: nat, bodySize: nat)
    requires at + FRAME_LEN_SIZE + FRAME_BODY_HEAD_SIZE <= dst.Length
    modifies dst
    ensures Wrote(old(dst[..]), dst[..], at, at + 29, LittleEndian(bodySize, 4) + HeadBytes(h))
  {
    ghost var s0 := dst[..];
    PutWord(dst, at, bodySize, 4);
    ghost var s1 := dst[..];
    PutWord(dst, at + 4, h.msgID, 4);
    ghost var s2 := dst[..];
    PutWord(dst, at + 8, h.actorID, 8);
    ghost var s3 := dst[..];
    PutWord(dst, at + 16, h.sesID, 8);
    ghost var s4 := dst[..];
    PutFive(dst, at + 24, h.fromSer, h.fromSerID, h.toSer, h.toSerID, h.flag);
    WroteNext(s3, s4, dst[..], at + 16, at + 24, at + 29, LittleEndian(h.sesID, 8), [h.fromSer, h.fromSerID, h.toSer, h.toSerID, h.flag]);
    WroteNext(s2, s3, dst[..], at + 8, at + 16, at + 29, LittleEndian(h.actorID, 8),
      LittleEndian(h.sesID, 8) + [h.fromSer, h.fromSerID, h.toSer, h.toSerID, h.flag]);
    WroteNext(s1, s2, dst[..], at + 4, at + 8, at + 29, LittleEndian(h.msgID, 4),
      LittleEndian(h.actorID, 8) + (LittleEndian(h.sesID, 8) + [h.fromSer, h.fromSerID, h.toSer, h.toSerID, h.flag]));
    WroteNext(s0, s1, dst[..], at, at + 4, at + 29, LittleEndian(bodySize, 4), HeadBytes(h));
  }

  method PutFive(dst: array<byte>, at: nat, a: byte, b: byte, c: byte, d: byte, e: byte)
    requires at + 5 <= dst.Length
    modifies dst
    ensures Wrote(old(dst[..]), dst[..], at, at + 5, [a, b, c, d, e])
  {
    dst[at], dst[at + 1], dst[at + 2], dst[at + 3], dst[at + 4] := a, b, c, d, e;
  }

  /** Message.EncodeTo(dst[at:], bodySize), which fills exactly one frame. */
  method EncodeTo(m: Message, dst: array<byte>, at: nat)
    requires at + |FrameBytes(m)| <= dst.Length
    modifies dst
    ensures Wrote(old(dst[..]), dst[..], at, at + |FrameBytes(m)|, FrameBytes(m))
  {
    ghost var s0 := dst[..];
    EncodeHeadTo(m.head, dst, at, FRAME_BODY_HEAD_SIZE + |m.data|);
    ghost var s1 := dst[..];
    CopyTo(dst, at + 29, m.data);
    ghost var prefix := LittleEndian(FRAME_BODY_HEAD_SIZE + |m.data|, 4);
    WroteNext(s0, s1, dst[..], at, at + 29, at + 29 + |m.data|, prefix + HeadBytes(m.head), m.data);
    assert (prefix + HeadBytes(m.head)) + m.data == FrameBytes(m);
  }

  /** copy(dst[at:], b). */
  method CopyTo(dst: array<byte>, at: nat, b: seq<byte>)
    requires at + |b| <= dst.Length
    modifies dst
    ensures Wrote(old(dst[..]), dst[..], at, at + |b|, b)
  {
    for k := 0 to |b|
      invariant dst[at..at + k] == b[..k]
      invariant dst[..at] == old(dst[..at]) && dst[at + |b|..] == old(dst[at + |b|..])
    {
      dst[at + k] := b[k];
      assert dst[at..at + k + 1] == dst[at..at + k] + [b[k]];
    }
  }

  // ---------- decoding ----------

  datatype FrameError = MissingPrefix | BufferTooSmall

  /** What DecodeManyAndHandle did: the messages it called back, in order, and its error if any. */
  datatype Batch = Batch(msgs: seq<Message>, err: Option<FrameError>)

  /** Head.Decode. */
  function DecodeHead(b: seq<byte>): Head
    requires |b| >= FRAME_BODY_HEAD_SIZE
  {
    Head(WordAt(b, 4, 8), WordAt(b, 12, 8), WordAt(b, 0, 4), b[24], b[20], b[21], b[22], b[23])
  }

  function WordAt(b: seq<byte>, at: nat, n: nat): (w: nat)
    requires at + n <= |b|
    ensures n == 4 ==> w < TWO32
    ensures n == 8 ==> w < TWO64
  {
    FromLittleEndianBound(b[at..at + n]);
    Pow256Values();
    FromLittleEndian(b[at..at + n])
  }

  /** Message.Decode of one sub-buffer; a body shorter than a header is skipped by the caller. */
  function DecodeBody(b: seq<byte>): Option<Message> {
    if |b| < FRAME_BODY_HEAD_SIZE then None
    else Some(Message(DecodeHead(b), b[FRAME_BODY_HEAD_SIZE..]))
  }

  function Deliver(m: Option<Message>, rest: Batch): Batch {
    if m.None? then rest else Batch([m.value] + rest.msgs, rest.err)
  }

  function DecodeMany(buf: seq<byte>): Batch {
    if buf == [] then Batch([], None)
    else if |buf| < 4 then Batch([], Some(MissingPrefix))
    else
      var subSize := WordAt(buf, 0, 4);
      if |buf| - 4 < subSize then Batch([], Some(BufferTooSmall))
      else Deliver(DecodeBody(buf[4..4 + subSize]), DecodeMany(buf[4 + subSize..]))
  }

  /** The batch with some messages called back before it. */
  function After(handled: seq<Message>, rest: Batch): Batch { Batch(handled + rest.msgs, rest.err) }

  lemma AfterDeliver(handled: seq<Message>, m: Option<Message>, rest: Batch)
    ensures After(handled, Deliver(m, rest)) == After(if m.Some? then handled + [m.value] else handled, rest)
  {
    if m.Some? { assert handled + ([m.value] + rest.msgs) == (handled + [m.value]) + rest.msgs; }
  }

  /** One turn of DecodeManyAndHandle: the callback's argument and the next offset, or the error it ends with. */
  datatype Turn = Next(m: Option<Message>, offset: nat) | Stop(err: FrameError)

  /** DecodeMany of the rest of the buffer is this turn, and then the rest after it. */
  ghost predicate Turns(buf: seq<byte>, at: nat, t: Turn)
    requires at < |buf|
  {
    match t
    case Stop(err) => DecodeMany(buf[at..]) == Batch([], Some(err))
    case Next(m, offset) => at < offset <= |buf| && DecodeMany(buf[at..]) == Deliver(m, DecodeMany(buf[offset..]))
  }

  method HandleOne(buf: seq<byte>, at: nat) returns (t: Turn)
    requires at < |buf|
    ensures Turns(buf, at, t)
  {
    if |buf| - at < 4 { return Stop(MissingPrefix); }
    var subSize := WordAt(buf[at..], 0, 4);
    var offset := at + 4;
    if |buf| - offset < subSize { return Stop(BufferTooSmall); }
    assert buf[at..][4..4 + subSize] == buf[offset..offset + subSize];
    assert buf[at..][4 + subSize..] == buf[offset + subSize..];
    return Next(DecodeBody(buf[offset..offset + subSize]), offset + subSize);
  }

  /** DecodeManyAndHandle: offset walks over the buffer; handled collects the callback's arguments. */
  method DecodeManyAndHandle(buf: seq<byte>) returns (handled: seq<Message>, err: Option<FrameError>)
    ensures Batch(handled, err) == DecodeMany(buf)
  {
    var offset := 0;
    handled := [];
    ghost var goal := DecodeMany(buf);
    assert buf[0..] == buf;
    while offset < |buf|
      invariant offset <= |buf| && After(handled, DecodeMany(buf[offset..])) == goal
    {
      var t := HandleOne(buf, offset);
      if t.Stop? { return handled, Some(t.err); }
      AfterDeliver(handled, t.m, DecodeMany(buf[t.offset..]));
      if t.m.Some? { handled := handled + [t.m.value]; }
      offset := t.offset;
    }
    err := None;
  }

  // ---------- the wire round trip ----------

  /** The frame's length field can hold its body size. */
  predicate Fits(m: Message) { FRAME_BODY_HEAD_SIZE + |m.data| < TWO32 }

  lemma WordReads(v: nat, n: nat, b: seq<byte>, at: nat)
    requires at + n <= |b| && b[at..at + n] == LittleEndian(v, n) && v < Pow256(n)
    ensures WordAt(b, at, n) == v
  {
    LittleEndianRoundTrip(v, n);
    SmallMod(v, Pow256(n));
  }

  lemma SmallMod(v: nat, p: nat)
    requires v < p
    ensures v % p == v
  {
    DivModUnique(v, p, 0, v);
  }

  lemma HeadRoundTrip(h: Head, data: seq<byte>)
    ensures DecodeBody(HeadBytes(h) + data) == Some(Message(h, data))
  {
    var b := HeadBytes(h) + data;
    Pow256Values();
    assert b[0..4] == LittleEndian(h.msgID, 4);
    assert b[4..12] == LittleEndian(h.actorID, 8);
    assert b[12..20] == LittleEndian(h.sesID, 8);
    WordReads(h.msgID, 4, b, 0);
    WordReads(h.actorID, 8, b, 4);
    WordReads(h.sesID, 8, b, 12);
    assert b[25..] == data;
  }

  /** A frame in front of anything is split off as exactly its message. */
  lemma FrameRoundTrip(m: Message, rest: seq<byte>)
    requires Fits(m)
    ensures DecodeMany(FrameBytes(m) + rest) == Deliver(Some(m), DecodeMany(rest))
  {
    var buf, n := FrameBytes(m) + rest, FRAME_BODY_HEAD_SIZE + |m.data|;
    Pow256Values();
    assert buf[0..4] == LittleEndian(n, 4);
    WordReads(n, 4, buf, 0);
    HeadRoundTrip(m.head, m.data);
    assert buf[4..4 + n] == HeadBytes(m.head) + m.data;
    assert buf[4 + n..] == rest;
  }

  lemma {:induction false} FramesRoundTrip(ms: seq<Message>)
    requires forall m :: m in ms ==> Fits(m)
    ensures DecodeMany(Frames(ms)) == Batch(ms, None)
  {
    if ms != [] {
      FrameRoundTrip(ms[0], Frames(ms[1..]));
      FramesRoundTrip(ms[1..]);
    }
  }

  /** Whatever is called back came from a length field, so its size fits one. */
  lemma {:induction false} DeliveredFit(buf: seq<byte>)
    ensures forall m :: m in DecodeMany(buf).msgs ==> Fits(m)
    decreases |buf|
  {
    if |buf| >= 4 && WordAt(buf, 0, 4) <= |buf| - 4 {
      DeliveredFit(buf[4 + WordAt(buf, 0, 4)..]);
    }
  }

  /** The receiver gets back exactly the batched messages, in order and without error,
      if and only if every body size fits the 32-bit length field. */
  lemma WireExact(ms: seq<Message>)
    ensures DecodeMany(Frames(ms)) == Batch(ms, None) <==> forall m :: m in ms ==> Fits(m)
  {
    if forall m :: m in ms ==> Fits(m) {
      FramesRoundTrip(ms);
    }
    DeliveredFit(Frames(ms));
  }

  /** Four gigabytes of zeros under any head do not come back. */
  lemma LongBodyLost(h: Head)
    ensures var m := Message(h, seq(0x1_0000_0000, _ => 0)); DecodeMany(Frames([m])) != Batch([m], None)
  {
    var m := Message(h, seq(0x1_0000_0000, _ => 0));
    WireExact([m]);
    assert m in [m] && !Fits(m);
  }
}
