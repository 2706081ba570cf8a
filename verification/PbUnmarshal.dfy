/** UnmarshalVT as the generated parse loops run it, proved equal to the meaning in PbDecode. */
module PbUnmarshal {
  import opened Bytes
  import opened Protohelpers
  import opened PbMessages
  import opened PbDecode

  /** What the loop has read so far, joined with what a read of the rest gives. */
  function Join(acc: nat, scale: nat, k: nat, rest: Read): Read {
    if rest.Bad? then rest else Got(acc + scale * rest.value, k + rest.n)
  }

  lemma JoinStep(acc: nat, scale: nat, k: nat, s: seq<byte>, part: nat, next: nat)
    requires k < 10 && s != [] && part == scale * (s[0] % 128) && next == scale * 128
    ensures Join(acc, scale, k, ReadVarint(s, k)) ==
            if s[0] < 128 then Got(acc + part, k + 1) else Join(acc + part, next, k + 1, ReadVarint(s[1..], k + 1))
  {
    if s[0] >= 128 && ReadVarint(s[1..], k + 1).Got? {
      var v := ReadVarint(s[1..], k + 1).value;
      assert s[0] % 128 == s[0] - 128;
      assert scale * (s[0] - 128 + 128 * v) == scale * (s[0] - 128) + scale * 128 * v;
    }
  }

  /** One byte of the accumulation: acc |= uint64(b & 0x7F) << shift, scale being 1 << shift. */
  method VarintByte(b: byte, acc: nat, scale: nat, k: nat, ghost s: seq<byte>) returns (acc': nat, scale': nat)
    requires k < 10 && s != [] && s[0] == b
    ensures Join(acc, scale, k, ReadVarint(s, k)) ==
            if b < 128 then Got(acc', k + 1) else Join(acc', scale', k + 1, ReadVarint(s[1..], k + 1))
  {
    var bits: int := b;
    var part: nat := scale * (bits % 128);
    acc', scale' := acc + part, scale * 128;
    JoinStep(acc, scale, k, s, part, scale');
  }

  /** for shift := uint(0); ; shift += 7 { ... }. The bits that the shift pushes out of the word
      are dropped once, at the end. */
  method VarintLoop(dAtA: seq<byte>, start: nat) returns (r: Read)
    requires start <= |dAtA|
    ensures r == Cut(ReadVarint(dAtA[start..], 0))
  {
    ghost var goal := ReadVarint(dAtA[start..], 0);
    var i, k := start, 0;
    var acc: nat, scale: nat := 0, 1;
    while true
      invariant k <= 10 && start + k == i <= |dAtA|
      invariant Join(acc, scale, k, ReadVarint(dAtA[i..], k)) == goal
      decreases 10 - k
    {
      if k == 10 { return Bad(IntOverflow); }
      if i >= |dAtA| { return Bad(Truncated); }
      acc, scale := VarintByte(dAtA[i], acc, scale, k, dAtA[i..]);
      assert dAtA[i..][1..] == dAtA[i + 1..];
      i, k := i + 1, k + 1;
      if dAtA[i - 1] < 128 { return Got(Low64(acc), k); }
    }
  }

  lemma Low64Twice(x: nat)
    ensures Low64(Low64(x)) == Low64(x) && Low64(x) % 8 == x % 8
  {
  }

  method TagLoop(s: seq<byte>) returns (t: Tag)
    ensures t == ReadTag(s)
  {
    assert s[0..] == s;
    var w := VarintLoop(s, 0);
    if w.Bad? { return NoTag(w.error); }
    Low64Twice(ReadVarint(s, 0).value);
    t := Tag(ToI32(w.value / 8), w.value % 8, w.n);
  }

  /** The loop over one entry of the map; s starts at the entry, and at is the index into it. */
  method EntryLoop(s: seq<byte>, len: nat) returns (r: Result<Entry>)
    requires len <= |s|
    ensures r == ReadEntry(s, len, Entry([], 0, 0))
  {
    var e := Entry([], 0, 0);
    while e.at < len
      invariant ReadEntry(s, len, e) == ReadEntry(s, len, Entry([], 0, 0))
      decreases len - e.at
    {
      var next := EntryStep(s, len, e);
      if next.Fail? { return next; }
      e := next.value;
    }
    r := Ok(e);
  }

  /** A varint whose value was cut to 64 bits already. */
  function Cut(v: Read): Read { if v.Bad? then v else Got(Low64(v.value), v.n) }

  lemma CutRoom(v: Read, room: int)
    ensures Room(Cut(v), room) == Room(v, room)
  {
    if v.Got? { Low64Twice(v.value); }
  }

  lemma KeyCut(s: seq<byte>, at: nat, v: Read, e: Entry)
    requires at <= |s|
    ensures EntryKey(s, at, Cut(v), e) == EntryKey(s, at, v, e)
  {
    CutRoom(v, |s| - at);
  }

  method KeyLoop(s: seq<byte>, at: nat, e: Entry) returns (r: Result<Entry>)
    requires at <= |s|
    ensures r == EntryKey(s, at, ReadVarint(s[at..], 0), e)
  {
    var n := VarintLoop(s, at);
    KeyCut(s, at, ReadVarint(s[at..], 0), e);
    r := EntryKey(s, at, n, e);
  }

  method ValueLoop(s: seq<byte>, at: nat, e: Entry) returns (r: Result<Entry>)
    requires at <= |s|
    ensures r == EntryValue(at, ReadVarint(s[at..], 0), e)
  {
    var v := VarintLoop(s, at);
    if v.Got? { Low64Twice(ReadVarint(s[at..], 0).value); }
    r := EntryValue(at, v, e);
  }

  lemma CaseIs(s: seq<byte>, len: nat, e: Entry, tag: Tag)
    requires e.at < len <= |s| && (tag.Tag? ==> 1 <= tag.n <= |s| - e.at)
    ensures tag.NoTag? ==> EntryCase(s, len, e, tag) == Fail(tag.error)
    ensures tag.Tag? ==>
      EntryCase(s, len, e, tag) ==
        if tag.num == 1 then EntryKey(s, e.at + tag.n, ReadVarint(s[e.at + tag.n..], 0), e)
        else if tag.num == 2 then EntryValue(e.at + tag.n, ReadVarint(s[e.at + tag.n..], 0), e)
        else EntryOther(s, len, e)
  {
  }

  method EntrySwitch(s: seq<byte>, len: nat, e: Entry, tag: Tag) returns (r: Result<Entry>)
    requires e.at < len <= |s| && (tag.Tag? ==> 1 <= tag.n <= |s| - e.at)
    ensures r == EntryCase(s, len, e, tag)
  {
    CaseIs(s, len, e, tag);
    if tag.NoTag? {
      r := Fail(tag.error);
    } else if tag.num == 1 {
      r := KeyLoop(s, e.at + tag.n, e);
    } else if tag.num == 2 {
      r := ValueLoop(s, e.at + tag.n, e);
    } else {
      r := EntryOther(s, len, e);
    }
  }

  method EntryStep(s: seq<byte>, len: nat, e: Entry) returns (r: Result<Entry>)
    requires e.at < len <= |s|
    ensures r == EntryField(s, len, e)
  {
    var tag := TagLoop(s[e.at..]);
    r := EntrySwitch(s, len, e, tag);
  }

  /** A length-delimited field; sub-messages are parsed by their own UnmarshalVT on the sub-slice. */
  method ParseBytes(m: Msg, num: int, s: seq<byte>, len: nat) returns (r: Result<Msg>)
    requires ShapeOf(m, num) == BytesField && len <= |s|
    ensures r == SetBytes(m, num, s, len)
    decreases |s|, 3
  {
    if Sub(m, num).Some? {
      var sub := UnmarshalVT(Sub(m, num).value, s[..len]);
      r := if sub.Fail? then sub else Ok(SetSub(m, num, sub.value));
    } else if IsItems(m, num) {
      var e := EntryLoop(s, len);
      r := if e.Fail? then Fail(e.error) else Ok(SetItem(m, e.value));
    } else {
      r := Ok(SetStr(m, num, s[..len]));
    }
  }

  lemma CutBytes(m: Msg, num: int, s: seq<byte>, at: nat, v: Read)
    requires ShapeOf(m, num) == BytesField && 1 <= at <= |s|
    ensures BytesAt(m, num, s, at, Cut(v)) == BytesAt(m, num, s, at, v)
  {
    CutRoom(v, |s| - at);
  }

  /** The two bound checks on the length of a field, then its contents. */
  method ParseLength(m: Msg, num: int, s: seq<byte>, at: nat, len: Read) returns (r: Result<Field>)
    requires ShapeOf(m, num) == BytesField && 1 <= at <= |s|
    ensures r == BytesAt(m, num, s, at, len)
    decreases |s|, 0
  {
    var n := Room(len, |s| - at);
    if n.Fail? { return Fail(n.error); }
    var b := ParseBytes(m, num, s[at + len.n..], n.value);
    r := if b.Fail? then Fail(b.error) else Ok(Field(b.value, at + len.n + n.value));
  }

  method ParseVarint(m: Msg, num: int, s: seq<byte>, at: nat) returns (r: Result<Field>)
    requires ShapeOf(m, num) == VarintField && 1 <= at <= |s|
    ensures r == VarintAt(m, num, at, ReadVarint(s[at..], 0))
  {
    var v := VarintLoop(s, at);
    if v.Got? { Low64Twice(ReadVarint(s[at..], 0).value); }
    r := VarintAt(m, num, at, v);
  }

  /** One turn of the parse loop. */
  method ParseField(m: Msg, s: seq<byte>) returns (r: Result<Field>)
    ensures r == DecodeField(m, s)
    decreases |s|, 1
  {
    var tag := TagLoop(s);
    if tag.NoTag? { return Fail(tag.error); }
    if tag.wt == 4 { return Fail(EndGroup); }
    if tag.num <= 0 { return Fail(IllegalTag); }
    assert DecodeField(m, s) == DecodeCase(m, s, tag) == Switch(m, s, tag.num, tag.wt, tag.n);
    match ShapeOf(m, tag.num) {
      case VarintField =>
        if tag.wt != 0 { return Fail(WrongWireType); }
        r := ParseVarint(m, tag.num, s, tag.n);
      case BytesField =>
        if tag.wt != 2 { return Fail(WrongWireType); }
        var len := VarintLoop(s, tag.n);
        CutBytes(m, tag.num, s, tag.n, ReadVarint(s[tag.n..], 0));
        r := ParseLength(m, tag.num, s, tag.n, len);
      case UnknownField =>
        r := UnknownAt(m, s, Skip(s, 0));
    }
  }

  lemma OneField(m: Msg, s: seq<byte>, i: nat)
    requires i < |s|
    ensures var f := DecodeField(m, s[i..]);
            Unmarshal(m, s[i..]) == if f.Fail? then Fail(f.error) else Unmarshal(f.value.msg, s[i + f.value.n..])
  {
    var f := DecodeField(m, s[i..]);
    if f.Ok? { assert s[i..][f.value.n..] == s[i + f.value.n..]; }
  }

  lemma NoField(m: Msg, s: seq<byte>)
    ensures Unmarshal(m, s[|s|..]) == Ok(m)
  {
  }

  /** UnmarshalVT: field by field to the end of the input. */
  method UnmarshalVT(m0: Msg, dAtA: seq<byte>) returns (r: Result<Msg>)
    ensures r == Unmarshal(m0, dAtA)
    decreases |dAtA|, 2
  {
    var m, iNdEx := m0, 0;
    ghost var goal := Unmarshal(m0, dAtA);
    assert dAtA[0..] == dAtA;
    while iNdEx < |dAtA|
      invariant iNdEx <= |dAtA| && Unmarshal(m, dAtA[iNdEx..]) == goal
    {
      OneField(m, dAtA, iNdEx);
      var f := ParseField(m, dAtA[iNdEx..]);
      if f.Fail? { return Fail(f.error); }
      m, iNdEx := f.value.msg, iNdEx + f.value.n;
    }
    NoField(m, dAtA);
    r := Ok(m);
  }
}
