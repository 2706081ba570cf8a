/** Unknown fields: what a message keeps of them, and that they come back. */
module PbUnknown {
  import opened Bytes
  import opened Protohelpers
  import opened PbMessages
  import opened PbDecode
  import opened PbConcat

  // ---------- bytes that are unknown fields and nothing else ----------

  /** The field at the front of u is whole, and messages of m's kind do not know it. */
  predicate UnknownFirst(m: Msg, u: seq<byte>) {
    && ReadTag(u).Tag? && ReadTag(u).wt != 4 && ReadTag(u).num > 0 && ShapeOf(m, ReadTag(u).num) == UnknownField
    && Skip(u, 0).Ok? && Skip(u, 0).value <= |u|
  }

  /** u is a sequence of such fields. */
  predicate Unknowns(m: Msg, u: seq<byte>)
    decreases |u|
  {
    u == [] || (UnknownFirst(m, u) && Unknowns(m, u[Skip(u, 0).value..]))
  }

  function UnknownOf(m: Msg): seq<byte> {
    match m
    case OfClient(c) => c.unknown
    case OfLogin(l) => l.unknown
    case OfRole(r) => r.unknown
    case OfReply(y) => y.unknown
  }

  lemma SameShape(m: Msg, m': Msg, num: int)
    requires SameKind(m, m')
    ensures ShapeOf(m, num) == ShapeOf(m', num)
  {
  }

  lemma {:induction false} UnknownsKind(m: Msg, m': Msg, u: seq<byte>)
    requires SameKind(m, m') && Unknowns(m, u)
    ensures Unknowns(m', u)
    decreases |u|
  {
    if u != [] {
      SameShape(m, m', ReadTag(u).num);
      UnknownsKind(m, m', u[Skip(u, 0).value..]);
    }
  }

  lemma AddUnknownTwice(m: Msg, a: seq<byte>, b: seq<byte>)
    ensures AddUnknown(AddUnknown(m, a), b) == AddUnknown(m, a + b) && SameKind(m, AddUnknown(m, a))
  {
    assert UnknownOf(m) + a + b == UnknownOf(m) + (a + b);
  }

  lemma UnknownField1(m: Msg, u: seq<byte>)
    requires UnknownFirst(m, u)
    ensures var k := Skip(u, 0).value; DecodeField(m, u) == Ok(Field(AddUnknown(m, u[..k]), k))
  {
    var tag := ReadTag(u);
    assert DecodeCase(m, u, tag) == Switch(m, u, tag.num, tag.wt, tag.n);
  }

  lemma UnknownThen(m: Msg, u: seq<byte>)
    requires UnknownFirst(m, u)
    ensures var k := Skip(u, 0).value; Unmarshal(m, u) == Unmarshal(AddUnknown(m, u[..k]), u[k..])
  {
    UnknownField1(m, u);
  }

  lemma AddUnknownParts(m: Msg, u: seq<byte>, k: nat)
    requires k <= |u|
    ensures AddUnknown(AddUnknown(m, u[..k]), u[k..]) == AddUnknown(m, u)
  {
    AddUnknownTwice(m, u[..k], u[k..]);
    assert u[..k] + u[k..] == u;
  }

  /** Decoding unknown fields into any message keeps them all, in order, and changes nothing else. */
  lemma {:induction false} UnknownsDecode(m: Msg, u: seq<byte>)
    requires Unknowns(m, u)
    ensures Unmarshal(m, u) == Ok(AddUnknown(m, u))
    decreases |u|
  {
    if u == [] {
      assert UnknownOf(m) + [] == UnknownOf(m);
    } else {
      var k := Skip(u, 0).value;
      var m1 := AddUnknown(m, u[..k]);
      UnknownThen(m, u);
      UnknownsKind(m, m1, u[k..]);
      UnknownsDecode(m1, u[k..]);
      AddUnknownParts(m, u, k);
    }
  }

  // ---------- the converse ----------

  /** A field that decodes has a proper tag and goes through the switch. */
  lemma Switched(m: Msg, s: seq<byte>)
    requires DecodeField(m, s).Ok?
    ensures var t := ReadTag(s);
            t.Tag? && t.wt != 4 && t.num > 0 && DecodeField(m, s) == Switch(m, s, t.num, t.wt, t.n)
  {
    var t := ReadTag(s);
    assert DecodeField(m, s) == DecodeCase(m, s, t);
  }

  lemma SwitchedVarint(m: Msg, s: seq<byte>, num: int, wt: nat, n: nat)
    requires 1 <= n <= |s| && ShapeOf(m, num) == VarintField && Switch(m, s, num, wt, n).Ok?
    ensures ReadVarint(s[n..], 0).Got?
    ensures Switch(m, s, num, wt, n).value.msg == SetVarint(m, num, Low64(ReadVarint(s[n..], 0).value))
  {
    assert Switch(m, s, num, wt, n) == VarintAt(m, num, n, ReadVarint(s[n..], 0));
  }

  lemma SwitchedBytes(m: Msg, s: seq<byte>, num: int, wt: nat, n: nat)
    requires 1 <= n <= |s| && ShapeOf(m, num) == BytesField && Switch(m, s, num, wt, n).Ok?
    ensures BytesAt(m, num, s, n, ReadVarint(s[n..], 0)) == Switch(m, s, num, wt, n)
  {
  }

  lemma SwitchedUnknown(m: Msg, s: seq<byte>, num: int, wt: nat, n: nat)
    requires 1 <= n <= |s| && ShapeOf(m, num) == UnknownField && Switch(m, s, num, wt, n).Ok?
    ensures Skip(s, 0).Ok? && Skip(s, 0).value <= |s|
  {
    assert Switch(m, s, num, wt, n) == UnknownAt(m, s, Skip(s, 0));
  }

  lemma BytesParts(m: Msg, num: int, s: seq<byte>, at: nat, len: Read)
    requires ShapeOf(m, num) == BytesField && 1 <= at <= |s| && BytesAt(m, num, s, at, len).Ok?
    ensures Room(len, |s| - at).Ok? && at + len.n <= |s| && Room(len, |s| - at).value <= |s| - at - len.n
    ensures var r := SetBytes(m, num, s[at + len.n..], Room(len, |s| - at).value);
            r.Ok? && BytesAt(m, num, s, at, len).value.msg == r.value
  {
  }

  lemma BytesAtKeeps(m: Msg, num: int, s: seq<byte>, at: nat, len: Read)
    requires ShapeOf(m, num) == BytesField && 1 <= at <= |s| && BytesAt(m, num, s, at, len).Ok?
    ensures UnknownOf(BytesAt(m, num, s, at, len).value.msg) == UnknownOf(m)
  {
    BytesParts(m, num, s, at, len);
    BytesKeeps(m, num, s[at + len.n..], Room(len, |s| - at).value);
  }

  /** A field the message knows leaves its unknown bytes alone. */
  lemma KnownField(m: Msg, s: seq<byte>)
    requires DecodeField(m, s).Ok? && ReadTag(s).Tag? && ShapeOf(m, ReadTag(s).num) != UnknownField
    ensures UnknownOf(DecodeField(m, s).value.msg) == UnknownOf(m)
  {
    Switched(m, s);
    var t := ReadTag(s);
    var r := ReadVarint(s[t.n..], 0);
    if ShapeOf(m, t.num) == VarintField {
      SwitchedVarint(m, s, t.num, t.wt, t.n);
      VarintKeeps(m, t.num, Low64(r.value));
    } else {
      SwitchedBytes(m, s, t.num, t.wt, t.n);
      BytesAtKeeps(m, t.num, s, t.n, r);
    }
  }

  lemma VarintKeeps(m: Msg, num: int, v: uint64)
    requires ShapeOf(m, num) == VarintField
    ensures UnknownOf(SetVarint(m, num, v)) == UnknownOf(m)
  {
  }

  lemma BytesKeeps(m: Msg, num: int, s: seq<byte>, len: nat)
    requires ShapeOf(m, num) == BytesField && len <= |s| && SetBytes(m, num, s, len).Ok?
    ensures UnknownOf(SetBytes(m, num, s, len).value) == UnknownOf(m)
  {
  }

  lemma UnknownOrKnown(m: Msg, s: seq<byte>)
    requires DecodeField(m, s).Ok?
    ensures ReadTag(s).Tag? && (ShapeOf(m, ReadTag(s).num) == UnknownField ==> UnknownFirst(m, s))
  {
    Switched(m, s);
    var t := ReadTag(s);
    if ShapeOf(m, t.num) == UnknownField { SwitchedUnknown(m, s, t.num, t.wt, t.n); }
  }

  /** Decoding keeps at most as many unknown bytes as it was given, and all of them only if all are unknown fields. */
  lemma {:induction false} UnknownGrows(m: Msg, s: seq<byte>)
    requires Unmarshal(m, s).Ok?
    ensures |UnknownOf(Unmarshal(m, s).value)| <= |UnknownOf(m)| + |s|
    ensures |UnknownOf(Unmarshal(m, s).value)| == |UnknownOf(m)| + |s| ==> Unknowns(m, s)
    decreases |s|
  {
    if s != [] {
      var f := DecodeField(m, s).value;
      UnknownOrKnown(m, s);
      if ShapeOf(m, ReadTag(s).num) == UnknownField {
        UnknownField1(m, s);
      } else {
        KnownField(m, s);
      }
      UnknownGrows(f.msg, s[f.n..]);
      if Unknowns(f.msg, s[f.n..]) { UnknownsKind(f.msg, m, s[f.n..]); }
    }
  }

  /** Bytes decode, into any message, to themselves as unknown bytes if and only if they are unknown fields. */
  lemma UnknownsExact(m: Msg, u: seq<byte>)
    ensures Unknowns(m, u) <==> Unmarshal(m, u) == Ok(AddUnknown(m, u))
  {
    if Unknowns(m, u) { UnknownsDecode(m, u); }
    if Unmarshal(m, u) == Ok(AddUnknown(m, u)) { UnknownGrows(m, u); }
  }

  // ---------- what a decoded message holds ----------

  lemma {:induction false} UnknownsConcat(m: Msg, a: seq<byte>, b: seq<byte>)
    requires Unknowns(m, a) && Unknowns(m, b)
    ensures Unknowns(m, a + b)
    decreases |a|
  {
    if a == [] {
      assert a + b == b;
    } else {
      var k := Skip(a, 0).value;
      ReadVarintStable(a, b, 0);
      SkipStable(a, b, 0);
      assert (a + b)[k..] == a[k..] + b;
      UnknownsConcat(m, a[k..], b);
    }
  }

  /** The bytes of one unknown field, taken out of what follows it. */
  lemma FirstAlone(m: Msg, s: seq<byte>)
    requires UnknownFirst(m, s)
    ensures Unknowns(m, s[..Skip(s, 0).value])
  {
    var k := Skip(s, 0).value;
    SkipCut(s, k, 0);
    TagInside(s);
    ReadVarintCut(s, k, 0);
    assert s[..k][k..] == [];
  }

  lemma TagInside(s: seq<byte>)
    requires Skip(s, 0).Ok?
    ensures ReadVarint(s, 0).Got? && ReadVarint(s, 0).n <= Skip(s, 0).value
  {
  }

  /** The unknown bytes of m, and of the messages in it, are unknown fields. */
  predicate Kept(m: Msg) {
    && Unknowns(m, UnknownOf(m))
    && (m.OfLogin? && m.login.cliInfo.Some? ==> Kept0(OfClient(m.login.cliInfo.value)))
    && (m.OfReply? && m.reply.data.Some? ==> KeptLogin(m.reply.data.value))
    && (m.OfReply? && m.reply.player.Some? ==> Kept0(OfRole(m.reply.player.value)))
  }

  predicate Kept0(m: Msg) { Unknowns(m, UnknownOf(m)) }

  predicate KeptLogin(l: C2SLogin) {
    Kept0(OfLogin(l)) && (l.cliInfo.Some? ==> Kept0(OfClient(l.cliInfo.value)))
  }

  /** The messages have the same unknown bytes and hold the same messages. */
  predicate SameInside(m: Msg, m': Msg) {
    && SameKind(m, m') && UnknownOf(m) == UnknownOf(m')
    && (m.OfLogin? ==> m.login.cliInfo == m'.login.cliInfo)
    && (m.OfReply? ==> m.reply.data == m'.reply.data && m.reply.player == m'.reply.player)
  }

  lemma SameKept(m: Msg, m': Msg)
    requires Kept(m) && SameInside(m, m')
    ensures Kept(m')
  {
    UnknownsKind(m, m', UnknownOf(m));
  }

  lemma VarintInside(m: Msg, num: int, v: uint64)
    requires ShapeOf(m, num) == VarintField
    ensures SameInside(m, SetVarint(m, num, v))
  {
  }

  lemma VarintKept(m: Msg, num: int, v: uint64)
    requires Kept(m) && ShapeOf(m, num) == VarintField
    ensures Kept(SetVarint(m, num, v))
  {
    VarintInside(m, num, v);
    SameKept(m, SetVarint(m, num, v));
  }

  lemma SubKept(m: Msg, num: int)
    requires Kept(m) && Sub(m, num).Some?
    ensures Kept(Sub(m, num).value)
  {
  }

  lemma SetSubKept(m: Msg, num: int, sub: Msg)
    requires Kept(m) && Sub(m, num).Some? && SameKind(Sub(m, num).value, sub) && Kept(sub)
    ensures Kept(SetSub(m, num, sub))
  {
    UnknownsKind(m, SetSub(m, num, sub), UnknownOf(m));
  }

  lemma SetOtherKept(m: Msg, num: int, b: Str, e: Entry)
    requires Kept(m) && ShapeOf(m, num) == BytesField && Sub(m, num).None?
    ensures IsItems(m, num) ==> Kept(SetItem(m, e))
    ensures !IsItems(m, num) ==> Kept(SetStr(m, num, b))
  {
    if IsItems(m, num) { SameKept(m, SetItem(m, e)); } else { SameKept(m, SetStr(m, num, b)); }
  }

  lemma AddUnknownKept(m: Msg, s: seq<byte>)
    requires Kept(m) && UnknownFirst(m, s)
    ensures Kept(AddUnknown(m, s[..Skip(s, 0).value]))
  {
    var u := s[..Skip(s, 0).value];
    FirstAlone(m, s);
    UnknownsConcat(m, UnknownOf(m), u);
    UnknownsKind(m, AddUnknown(m, u), UnknownOf(m) + u);
  }

  lemma BytesKept(m: Msg, num: int, s: seq<byte>, len: nat)
    requires Kept(m) && ShapeOf(m, num) == BytesField && len <= |s| && SetBytes(m, num, s, len).Ok?
    ensures Kept(SetBytes(m, num, s, len).value)
    decreases |s|, 2
  {
    if Sub(m, num).Some? {
      SubKept(m, num);
      var sub := Unmarshal(Sub(m, num).value, s[..len]);
      DecodedKept(Sub(m, num).value, s[..len]);
      SetSubKept(m, num, sub.value);
    } else if IsItems(m, num) {
      SetOtherKept(m, num, [], ReadEntry(s, len, Entry([], 0, 0)).value);
    } else {
      SetOtherKept(m, num, s[..len], Entry([], 0, 0));
    }
  }

  lemma BytesAtKept(m: Msg, num: int, s: seq<byte>, at: nat, len: Read)
    requires Kept(m) && ShapeOf(m, num) == BytesField && 1 <= at <= |s| && BytesAt(m, num, s, at, len).Ok?
    ensures Kept(BytesAt(m, num, s, at, len).value.msg)
    decreases |s| - 1, 3
  {
    BytesParts(m, num, s, at, len);
    BytesKept(m, num, s[at + len.n..], Room(len, |s| - at).value);
  }

  lemma FieldKept(m: Msg, s: seq<byte>)
    requires Kept(m) && DecodeField(m, s).Ok?
    ensures Kept(DecodeField(m, s).value.msg)
    decreases |s|, 0
  {
    Switched(m, s);
    UnknownOrKnown(m, s);
    var t := ReadTag(s);
    var r := ReadVarint(s[t.n..], 0);
    match ShapeOf(m, t.num) {
      case UnknownField =>
        UnknownField1(m, s);
        AddUnknownKept(m, s);
      case VarintField =>
        SwitchedVarint(m, s, t.num, t.wt, t.n);
        VarintKept(m, t.num, Low64(r.value));
      case BytesField =>
        SwitchedBytes(m, s, t.num, t.wt, t.n);
        BytesAtKept(m, t.num, s, t.n, r);
    }
  }

  /** Whatever UnmarshalVT makes of any bytes, the unknown bytes it keeps are unknown fields. */
  lemma {:induction false} DecodedKept(m: Msg, s: seq<byte>)
    requires Kept(m) && Unmarshal(m, s).Ok?
    ensures Kept(Unmarshal(m, s).value)
    decreases |s|, 1
  {
    if s != [] {
      FieldKept(m, s);
      var f := DecodeField(m, s).value;
      DecodedKept(f.msg, s[f.n..]);
    }
  }
}
