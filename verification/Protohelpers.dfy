/** The wire primitives the generated protobuf code calls: base-128 varints, zigzag and Skip. */
module Protohelpers {
  import opened Bytes

  /** The error values of UnmarshalVT. ErrInvalidLength and ErrUnexpectedEOF are one value here. */
  datatype WireError = IntOverflow | Truncated | EndGroup | IllegalTag | WrongWireType | IllegalWireType

  datatype Result<+T> = Ok(value: T) | Fail(error: WireError)

  // ---------- varints ----------

  /** Section "Base 128 Varints" of the Protocol Buffers encoding. */
  function Varint(v: nat): (s: seq<byte>)
    ensures |s| >= 1
  {
    if v < 128 then [v] else [v % 128 + 128] + Varint(v / 128)
  }

  /** A varint value together with the number of bytes it occupied. */
  datatype Read = Got(value: nat, n: nat) | Bad(error: WireError)

  /** Reads one varint after k of its bytes were already consumed; at most ten bytes are accepted. */
  function ReadVarint(s: seq<byte>, k: nat): (r: Read)
    requires k <= 10
    ensures r.Got? ==> 1 <= r.n <= |s|
    decreases |s|
  {
    if k == 10 then Bad(IntOverflow)
    else if s == [] then Bad(Truncated)
    else if s[0] < 128 then Got(s[0], 1)
    else match ReadVarint(s[1..], k + 1)
      case Got(v, n) => Got(s[0] - 128 + 128 * v, n + 1)
      case Bad(e) => Bad(e)
  }

  lemma {:induction false} VarintFitsTen(v: nat, k: nat)
    requires k <= 9 && v < Pow128(10 - k)
    ensures |Varint(v)| <= 10 - k
    decreases 10 - k
  {
    assert Pow128(10 - k) == 128 * Pow128(9 - k);
    if v >= 128 && k < 9 { VarintFitsTen(v / 128, k + 1); }
  }

  function Pow128(n: nat): nat { if n == 0 then 1 else 128 * Pow128(n - 1) }

  lemma VarintU64(v: uint64)
    ensures |Varint(v)| <= 10
  {
    assert Pow128(5) == 128 * 128 * 128 * 128 * 128;
    assert Pow128(10) == 128 * 128 * 128 * 128 * 128 * Pow128(5);
    VarintFitsTen(v, 0);
  }

  /** What Varint writes, ReadVarint reads back, whatever follows. */
  lemma {:induction false} VarintRoundTrip(v: nat, k: nat, rest: seq<byte>)
    requires k + |Varint(v)| <= 10
    ensures ReadVarint(Varint(v) + rest, k) == Got(v, |Varint(v)|)
    decreases 10 - k
  {
    var s := Varint(v) + rest;
    if v >= 128 {
      VarintRoundTrip(v / 128, k + 1, rest);
      assert s[1..] == Varint(v / 128) + rest;
    }
  }

  /** A varint that was read in full is read the same way when more bytes follow. */
  lemma {:induction false} ReadVarintStable(s: seq<byte>, t: seq<byte>, k: nat)
    requires k <= 10 && ReadVarint(s, k).Got?
    ensures ReadVarint(s + t, k) == ReadVarint(s, k)
    decreases 10 - k
  {
    if s[0] >= 128 {
      ReadVarintStable(s[1..], t, k + 1);
      assert (s + t)[1..] == s[1..] + t;
    }
  }

  // ---------- sizes ----------

  /** bits.Len64. */
  function BitLen(x: nat): nat { if x == 0 then 0 else 1 + BitLen(x / 2) }

  /** SizeOfVarint: (bits.Len64(x|1) + 6) / 7. */
  function SizeOfVarint(x: nat): (n: nat)
  {
    (BitLen(if x % 2 == 0 then x + 1 else x) + 6) / 7
  }

  lemma BitLenBy7(x: nat)
    requires x >= 128
    ensures BitLen(x) == 7 + BitLen(x / 128)
  {
    assert x / 2 / 2 / 2 / 2 / 2 / 2 / 2 == x / 128;
    BitLenBy2(x, 7);
  }

  lemma {:induction false} BitLenBy2(x: nat, n: nat)
    requires x >= Pow2(n)
    ensures BitLen(x) == n + BitLen(Halve(x, n))
    ensures n == 7 ==> Pow2(n) == 128 && Halve(x, n) == x / 2 / 2 / 2 / 2 / 2 / 2 / 2
  {
    if n > 0 { BitLenBy2(x / 2, n - 1); }
    if n == 7 { assert Pow2(4) == 16; }
  }

  function Pow2(n: nat): nat { if n == 0 then 1 else 2 * Pow2(n - 1) }
  function Halve(x: nat, n: nat): nat { if n == 0 then x else Halve(x / 2, n - 1) }

  /** The closed-form size is the number of bytes the encoder writes. */
  lemma {:induction false} SizeOfVarintExact(v: nat)
    ensures SizeOfVarint(v) == |Varint(v)|
  {
    var odd := if v % 2 == 0 then v + 1 else v;
    if v < 128 {
      BitLenSmall(odd);
    } else {
      SizeOfVarintExact(v / 128);
      BitLenBy7(odd);
      var q := v / 128;
      assert odd / 128 == q;
      assert BitLen(if q % 2 == 0 then q + 1 else q) == BitLen(q) by { assert (q + 1 - q % 2) / 2 == q / 2; }
    }
  }

  lemma BitLenSmall(x: nat)
    requires 1 <= x < 128
    ensures 1 <= BitLen(x) <= 7
  {
    assert BitLen(x / 2 / 2 / 2 / 2 / 2 / 2 / 2) == 0;
    assert BitLen(x / 2 / 2 / 2 / 2 / 2 / 2) <= 1;
    assert BitLen(x / 2 / 2 / 2 / 2) <= 3;
    assert BitLen(x / 2 / 2) <= 5;
  }

  // ---------- zigzag ----------

  /** (uint64(v) << 1) ^ uint64(v >> 63): the exclusive-or with all ones is the complement. */
  function Zigzag64(v: int64): (z: uint64) {
    var shifted := Low64(2 * ToU64(v));
    if v < 0 then TWO64 - 1 - shifted else shifted
  }

  /** (uint32(v) << 1) ^ uint32(v >> 31). */
  function Zigzag32(v: int32): (z: uint32) {
    var shifted := Low32(2 * (if v < 0 then v + TWO32 else v));
    if v < 0 then TWO32 - 1 - shifted else shifted
  }

  /** (z >> 1) ^ uint64((int64(z&1) << 63) >> 63), read as int64. */
  function Unzigzag64(z: uint64): int64 {
    if z % 2 == 0 then z / 2 else ToI64(TWO64 - 1 - z / 2)
  }

  /** int32((uint32(v) >> 1) ^ uint32(((v&1) << 31) >> 31)). */
  function Unzigzag32(z: uint32): int32 {
    if z % 2 == 0 then z / 2 else ToI32(TWO32 - 1 - z / 2)
  }

  /** SizeOfZigzag(uint64(v)) as the generated code calls it, for both widths. */
  function SizeOfZigzag(v: int64): nat { SizeOfVarint(Zigzag64(v)) }

  /** Both zigzag codecs are bijections, and the 32-bit one agrees with the 64-bit one. */
  lemma ZigzagRoundTrip(v: int64)
    ensures Unzigzag64(Zigzag64(v)) == v
    ensures Zigzag64(v) == 0 <==> v == 0
    ensures -0x8000_0000 <= v < 0x8000_0000 ==>
              Zigzag32(v) == Zigzag64(v) && Unzigzag32(Zigzag32(v)) == v
  {
    if v < 0 { assert (2 * (v + TWO64)) % TWO64 == 2 * v + TWO64; }
  }

  // ---------- skipping a field ----------

  /** The byte length of a length-delimited record at s, prefix included; it may exceed |s|. */
  function SkipLength(s: seq<byte>): (r: Result<nat>)
    ensures r.Ok? ==> r.value >= 1
  {
    match ReadVarint(s, 0)
    case Bad(e) => Fail(e)
    case Got(v, k) => if ToI64(Low64(v)) < 0 then Fail(Truncated) else Ok(k + ToI64(Low64(v)))
  }

  /** The payload length of a field of wire type wt whose payload starts s; groups are handled by Skip. */
  function SkipPayload(s: seq<byte>, wt: nat): (r: Result<nat>)
  {
    if wt == 0 then (match ReadVarint(s, 0) case Bad(e) => Fail(e) case Got(_, k) => Ok(k))
    else if wt == 1 then Ok(8)
    else if wt == 2 then SkipLength(s)
    else if wt == 5 then Ok(4)
    else if wt == 3 || wt == 4 then Ok(0)
    else Fail(IllegalWireType)
  }

  /** The payload length after the tag r read at the front of s. */
  function PayloadAfter(s: seq<byte>, tag: Read): (r: Result<nat>)
    requires tag.Got? ==> tag.n <= |s|
  {
    if tag.Bad? then Fail(tag.error) else SkipPayload(s[tag.n..], tag.value % 8)
  }

  /** The bytes passed over and the group depth reached, from a tag and its payload length. */
  function Advance(tag: Read, payload: Result<nat>, depth: nat): (r: Result<(nat, nat)>)
    requires payload.Ok? ==> tag.Got?
  {
    match payload
    case Fail(e) => Fail(e)
    case Ok(k) =>
      var wt := tag.value % 8;
      if wt == 3 then Ok((tag.n, depth + 1))
      else if wt != 4 then Ok((tag.n + k, depth))
      else if depth == 0 then Fail(EndGroup)
      else Ok((tag.n, depth - 1))
  }

  /** One turn of Skip's loop: the bytes it passes over and the group depth after it. */
  function SkipOne(s: seq<byte>, depth: nat): (r: Result<(nat, nat)>)
    ensures r.Ok? ==> r.value.0 >= 1
  {
    var tag := ReadVarint(s, 0);
    Advance(tag, PayloadAfter(s, tag), depth)
  }

  /** protohelpers.Skip: the length of the field at s, or of the rest of depth open groups.
      The caller must still compare the answer with |s|. */
  function Skip(s: seq<byte>, depth: nat): (r: Result<nat>)
    ensures r.Ok? ==> r.value >= 1
    decreases |s|, 1
  {
    var one := SkipOne(s, depth);
    var rest := SkipRest(s, one);
    if rest.Ok? then Ok(one.value.0 + rest.value) else rest
  }

  /** What Skip still passes over after one turn of its loop. */
  function SkipRest(s: seq<byte>, one: Result<(nat, nat)>): (r: Result<nat>)
    requires one.Ok? ==> one.value.0 >= 1
    ensures r.Ok? ==> one.Ok?
    decreases |s|, 0
  {
    if one.Fail? then Fail(one.error)
    else if one.value.1 == 0 then Ok(0)
    else if one.value.0 >= |s| then Fail(Truncated)
    else Skip(s[one.value.0..], one.value.1)
  }

  lemma SkipPayloadStable(s: seq<byte>, t: seq<byte>, wt: nat)
    requires SkipPayload(s, wt).Ok?
    ensures SkipPayload(s + t, wt) == SkipPayload(s, wt)
  {
    if wt == 0 || wt == 2 { ReadVarintStable(s, t, 0); }
  }

  lemma SkipOneStable(s: seq<byte>, t: seq<byte>, depth: nat)
    requires SkipOne(s, depth).Ok?
    ensures SkipOne(s + t, depth) == SkipOne(s, depth)
  {
    var tag := ReadVarint(s, 0);
    ReadVarintStable(s, t, 0);
    assert PayloadAfter(s + t, tag) == PayloadAfter(s, tag) by {
      assert (s + t)[tag.n..] == s[tag.n..] + t;
      SkipPayloadStable(s[tag.n..], t, tag.value % 8);
    }
  }

  /** A field that lies inside s is skipped the same way when more bytes follow. */
  lemma {:induction false} SkipStable(s: seq<byte>, t: seq<byte>, depth: nat)
    requires Skip(s, depth).Ok? && Skip(s, depth).value <= |s|
    ensures Skip(s + t, depth) == Skip(s, depth)
    decreases |s|
  {
    SkipOneStable(s, t, depth);
    var one := SkipOne(s, depth);
    if one.value.1 != 0 {
      var n := one.value.0;
      assert (s + t)[n..] == s[n..] + t;
      SkipStable(s[n..], t, one.value.1);
    }
  }

  // ---------- nothing past the end of a field matters ----------

  lemma {:induction false} ReadVarintCut(s: seq<byte>, p: nat, k: nat)
    requires k <= 10 && ReadVarint(s, k).Got? && ReadVarint(s, k).n <= p <= |s|
    ensures ReadVarint(s[..p], k) == ReadVarint(s, k)
    decreases 10 - k
  {
    if s[0] >= 128 {
      ReadVarintCut(s[1..], p - 1, k + 1);
      assert s[..p][1..] == s[1..][..p - 1];
    }
  }

  lemma SkipPayloadCut(s: seq<byte>, p: nat, wt: nat)
    requires SkipPayload(s, wt).Ok? && SkipPayload(s, wt).value <= p <= |s|
    ensures SkipPayload(s[..p], wt) == SkipPayload(s, wt)
  {
    if wt == 0 || wt == 2 { ReadVarintCut(s, p, 0); }
  }

  lemma SkipOneCut(s: seq<byte>, p: nat, depth: nat)
    requires SkipOne(s, depth).Ok? && SkipOne(s, depth).value.0 <= p <= |s|
    ensures SkipOne(s[..p], depth) == SkipOne(s, depth)
  {
    var tag := ReadVarint(s, 0);
    ReadVarintCut(s, p, 0);
    assert s[..p][tag.n..] == s[tag.n..][..p - tag.n];
    SkipPayloadCut(s[tag.n..], p - tag.n, tag.value % 8);
  }

  /** A field is skipped the same way when what follows it is cut off. */
  lemma {:induction false} SkipCut(s: seq<byte>, p: nat, depth: nat)
    requires Skip(s, depth).Ok? && Skip(s, depth).value <= p <= |s|
    ensures Skip(s[..p], depth) == Skip(s, depth)
    decreases |s|
  {
    SkipOneCut(s, p, depth);
    var one := SkipOne(s, depth);
    if one.value.1 != 0 {
      var n := one.value.0;
      assert s[..p][n..] == s[n..][..p - n];
      SkipCut(s[n..], p - n, one.value.1);
    }
  }
}
