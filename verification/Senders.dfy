/** The senders and the RPC calls: a message is sized, a pooled buffer is grown if need be,
    and the message is marshalled into it behind a frame head or alone. */
module Senders {
  import opened Bytes
  import opened Frame
  import opened Protohelpers
  import opened PbMessages
  import opened PbDecode
  import opened PbRoleRoundTrip
  import opened PbUnknown
  import opened PbSize
  import opened BatcherObject

  /** ensureBuf, and the same three lines in RpcCall and RpcRespond: p has room for size bytes. */
  method EnsureBuf(p: Buffer, size: nat)
    modifies p
    ensures p.mem.Length >= size
    ensures if old(p.mem.Length) >= size then p.mem == old(p.mem) && p.len == old(p.len) else fresh(p.mem) && p.mem.Length == size
  {
    if p.mem.Length < size {
      p.mem := new byte[size];
      p.len := size;
    }
  }

  /** SendToClient, SendToNode, RpcRespond: buf[:n] is the whole encoding, whatever the buffer held. */
  method MarshalAlone(m: Msg, walk: seq<Str>, order: seq<Str>, p: Buffer) returns (out: seq<byte>)
    requires Iterates(walk, m) && Iterates(order, m)
    modifies p, p.mem
    ensures out == Encode(m, order)
  {
    var size := Size(m, walk);
    EnsureBuf(p, size);
    var n := MarshalToSizedBuffer(m, order, p.mem, size);
    out := p.mem[..n];
    assert out == p.mem[..][size - n..size];
  }

  /** The request behind the first 29 bytes of dst. */
  method BodyInto(m: Msg, order: seq<Str>, ghost body: seq<byte>, reqSize: nat, dst: array<byte>)
    requires Iterates(order, m) && body == Encode(m, order) && reqSize == |body| && 29 + reqSize <= dst.Length
    modifies dst
    ensures Wrote(old(dst[..]), dst[..], 29, 29 + reqSize, body)
  {
    var n := MarshalToSizedBuffer(m, order, dst, 29 + reqSize);
  }

  /** The head with its length field, then the request, at the front of dst. */
  method FrameInto(h: Head, m: Msg, order: seq<Str>, ghost body: seq<byte>, reqSize: nat, dst: array<byte>)
    requires Iterates(order, m) && body == Encode(m, order) && reqSize == |body| && 29 + reqSize <= dst.Length
    modifies dst
    ensures dst[..29 + reqSize] == FrameBytes(Message(h, body))
  {
    ghost var s0 := dst[..];
    EncodeHeadTo(h, dst, 0, FRAME_BODY_HEAD_SIZE + reqSize);
    ghost var s1 := dst[..];
    BodyInto(m, order, body, reqSize, dst);
    ghost var s2 := dst[..];
    HeadThenBody(s0, s1, s2, h, body);
    assert dst[..29 + reqSize] == s2[..29 + reqSize];
  }

  /** RpcCall: the frame fills a buffer of exactly its size, and its length field matches its body. */
  method MarshalFrame(h: Head, m: Msg, walk: seq<Str>, order: seq<Str>, p: Buffer) returns (out: seq<byte>)
    requires Iterates(walk, m) && Iterates(order, m)
    modifies p, p.mem
    ensures out == FrameBytes(Message(h, Encode(m, order)))
  {
    var reqSize := Size(m, walk);
    var totalSize := FRAME_BODY_HEAD_SIZE + reqSize + FRAME_LEN_SIZE;
    EnsureBuf(p, totalSize);
    FrameInto(h, m, order, Encode(m, order), reqSize, p.mem);
    out := p.mem[..totalSize];
  }

  lemma HeadThenBody(s0: seq<byte>, s1: seq<byte>, s2: seq<byte>, h: Head, body: seq<byte>)
    requires 29 + |body| <= |s0|
    requires Wrote(s0, s1, 0, 29, LittleEndian(25 + |body|, 4) + HeadBytes(h))
    requires Wrote(s1, s2, 29, 29 + |body|, body)
    ensures s2[..29 + |body|] == FrameBytes(Message(h, body))
  {
    var size, front := LittleEndian(25 + |body|, 4), LittleEndian(25 + |body|, 4) + HeadBytes(h);
    WroteNext(s0, s1, s2, 0, 29, 29 + |body|, front, body);
    assert front + body == size + (HeadBytes(h) + body);
    assert s2[..29 + |body|] == s2[0..29 + |body|];
  }

  /** What the called server gets out of an RPC frame is the head that was put in, and the request if and only if the
      unknown bytes in it are unknown fields. */
  lemma CallDelivers(h: Head, m: Msg, order: seq<Str>)
    requires Iterates(order, m) && Fits(Message(h, Encode(m, order)))
    ensures DecodeMany(FrameBytes(Message(h, Encode(m, order)))) == Batch([Message(h, Encode(m, order))], None)
    ensures Unmarshal(Empty(m), Encode(m, order)) == Ok(m) <==> Kept(m)
  {
    var msg := Message(h, Encode(m, order));
    FrameRoundTrip(msg, []);
    assert FrameBytes(msg) + [] == FrameBytes(msg);
    RoundTrip(m, order);
  }
}
