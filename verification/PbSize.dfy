/** SizeVT: the size that is computed before marshalling is the size that marshalling uses. */
module PbSize {
  import opened Bytes
  import opened Protohelpers
  import opened PbMessages
  import opened PbEncode
  import opened PbMarshal
  import opened PbRoleRoundTrip

  // ---------- the size of one field, as SizeVT adds it up ----------

  /** A string of length l with a one-byte tag; an empty one is not written. */
  function StrSize(l: nat): nat { if l > 0 then 1 + l + SizeOfVarint(l) else 0 }

  /** A length-delimited field with a tag of the given length that is always written. */
  function BytesSize(tag: nat, l: nat): nat { tag + l + SizeOfVarint(l) }

  function UintSize(tag: nat, v: uint64): nat { if v != 0 then tag + SizeOfVarint(v) else 0 }

  function IntSize(tag: nat, v: int64): nat { if v != 0 then tag + SizeOfVarint(ToU64(v)) else 0 }

  /** Both zigzag widths are sized by the 64-bit formula. */
  function ZigzagSize(tag: nat, v: int64): nat { if v != 0 then tag + SizeOfZigzag(v) else 0 }

  lemma TagSize(tag: nat)
    ensures tag < 128 ==> |Varint(tag)| == 1
    ensures 128 <= tag < 128 * 128 ==> |Varint(tag)| == 2
  {
    if 128 <= tag < 128 * 128 { assert |Varint(tag / 128)| == 1; }
  }

  lemma VarintRecSize(num: nat, v: uint64)
    requires 1 <= num <= 100
    ensures |VarintRec(num, v)| == UintSize(if num < 16 then 1 else 2, v)
  {
    TagSize(8 * num);
    SizeOfVarintExact(v);
  }

  lemma BytesRecSize(num: nat, b: seq<byte>)
    requires 1 <= num <= 100
    ensures |BytesRec(num, b)| == BytesSize(if num < 16 then 1 else 2, |b|)
  {
    TagSize(8 * num + 2);
    SizeOfVarintExact(|b|);
  }

  function RecSize(r: Rec): nat {
    match r
    case VarintR(num, v) => UintSize(if num < 16 then 1 else 2, v)
    case StrR(num, b) => if b == [] then 0 else BytesSize(if num < 16 then 1 else 2, |b|)
    case BytesR(num, b) => BytesSize(if num < 16 then 1 else 2, |b|)
  }

  /** The sum of the first k record sizes. */
  function SizeUpto(rs: seq<Rec>, k: nat): nat
    requires k <= |rs|
  {
    if k == 0 then 0 else SizeUpto(rs, k - 1) + RecSize(rs[k - 1])
  }

  lemma {:induction false} SizeFrom(rs: seq<Rec>, k: nat)
    requires k <= |rs| && forall i :: 0 <= i < |rs| ==> 1 <= rs[i].num <= 100
    ensures SizeUpto(rs, k) + |Flat(rs[k..])| == |Flat(rs)|
  {
    if k == 0 {
      assert rs[0..] == rs;
    } else {
      SizeFrom(rs, k - 1);
      assert rs[k - 1..][1..] == rs[k..];
      match rs[k - 1] {
        case VarintR(num, v) => VarintRecSize(num, v);
        case StrR(num, b) => BytesRecSize(num, b);
        case BytesR(num, b) => BytesRecSize(num, b);
      }
    }
  }

  lemma SizeAll(rs: seq<Rec>)
    requires forall i :: 0 <= i < |rs| ==> 1 <= rs[i].num <= 100
    ensures SizeUpto(rs, |rs|) == |Flat(rs)|
  {
    SizeFrom(rs, |rs|);
  }

  // ---------- messages ----------

  function ClientSize(m: ClientInfo): nat {
    StrSize(|m.devID|) + StrSize(|m.advType|) + StrSize(|m.phoneModel|) + StrSize(|m.sysVersion|)
    + StrSize(|m.machine|) + StrSize(|m.ip|) + |m.unknown|
  }

  lemma ClientSizeExact(m: ClientInfo)
    ensures ClientSize(m) == |EncodeClient(m)|
  {
    var rs := ClientRecs(m);
    assert SizeUpto(rs, 1) == StrSize(|m.devID|);
    assert SizeUpto(rs, 2) == SizeUpto(rs, 1) + StrSize(|m.advType|);
    assert SizeUpto(rs, 3) == SizeUpto(rs, 2) + StrSize(|m.phoneModel|);
    assert SizeUpto(rs, 4) == SizeUpto(rs, 3) + StrSize(|m.sysVersion|);
    assert SizeUpto(rs, 5) == SizeUpto(rs, 4) + StrSize(|m.machine|);
    assert SizeUpto(rs, 6) == SizeUpto(rs, 5) + StrSize(|m.ip|);
    SizeAll(rs);
  }

  /** The size of one map entry, without its own tag and length. */
  function EntrySize(key: Str, value: int64): (n: nat)
    ensures n == |EncodeEntry(key, value)|
  {
    BytesRecSize(1, key);
    SizeOfVarintExact(Zigzag64(value));
    TagSize(16);
    1 + |key| + SizeOfVarint(|key|) + 1 + SizeOfZigzag(value)
  }

  // ---------- the order in which a map is walked does not change the size ----------

  lemma FlatHead(rs: seq<Rec>)
    requires rs != []
    ensures |Flat(rs)| == |RecBytes(rs[0])| + |Flat(rs[1..])|
  {
  }

  lemma {:induction false} FlatLength(rs: seq<Rec>, ts: seq<Rec>)
    ensures |Flat(rs + ts)| == |Flat(rs)| + |Flat(ts)|
  {
    if rs == [] {
      assert rs + ts == ts;
    } else {
      var all := rs + ts;
      assert all[1..] == rs[1..] + ts && all[0] == rs[0];
      FlatLength(rs[1..], ts);
      FlatHead(all);
      FlatHead(rs);
    }
  }

  function ItemsSize(items: map<Str, int64>, order: seq<Str>): nat
    requires forall k :: k in order ==> k in items
  {
    if order == [] then 0
    else |BytesRec(35, EncodeEntry(order[0], items[order[0]]))| + ItemsSize(items, order[1..])
  }

  lemma {:induction false} ItemsSizeFlat(items: map<Str, int64>, order: seq<Str>)
    requires forall k :: k in order ==> k in items
    ensures |Flat(ItemRecs(items, order))| == ItemsSize(items, order)
  {
    if order != [] {
      ItemsSizeFlat(items, order[1..]);
      var rs := ItemRecs(items, order);
      assert rs[1..] == ItemRecs(items, order[1..]);
      assert Flat(rs) == RecBytes(rs[0]) + Flat(rs[1..]);
    }
  }

  lemma {:induction false} ItemsSizeWithout(items: map<Str, int64>, order: seq<Str>, j: nat)
    requires j < |order| && forall k :: k in order ==> k in items
    ensures ItemsSize(items, order)
         == |BytesRec(35, EncodeEntry(order[j], items[order[j]]))| + ItemsSize(items, order[..j] + order[j + 1..])
  {
    var rest := order[..j] + order[j + 1..];
    if j == 0 {
      assert rest == order[1..];
    } else {
      ItemsSizeWithout(items, order[1..], j - 1);
      assert rest[1..] == order[1..][..j - 1] + order[1..][j..];
    }
  }

  /** Two walks over the same keys, each visiting a key once. */
  ghost predicate SameWalk(a: seq<Str>, b: seq<Str>) {
    && (forall k :: k in a <==> k in b)
    && (forall i, j :: 0 <= i < j < |a| ==> a[i] != a[j])
    && (forall i, j :: 0 <= i < j < |b| ==> b[i] != b[j])
  }

  lemma {:induction false} ItemsSizePermuted(items: map<Str, int64>, a: seq<Str>, b: seq<Str>)
    requires SameWalk(a, b) && forall k :: k in a ==> k in items
    ensures ItemsSize(items, a) == ItemsSize(items, b)
  {
    if a == [] {
      assert forall k :: k in b ==> k in a;
    } else {
      assert a[0] in b;
      var j :| 0 <= j < |b| && b[j] == a[0];
      var rest := b[..j] + b[j + 1..];
      SameWalkWithout(a, b, j);
      ItemsSizePermuted(items, a[1..], rest);
      ItemsSizeWithout(items, b, j);
    }
  }

  lemma SameWalkWithout(a: seq<Str>, b: seq<Str>, j: nat)
    requires SameWalk(a, b) && |a| > 0 && j < |b| && b[j] == a[0]
    ensures SameWalk(a[1..], b[..j] + b[j + 1..])
  {
    var rest := b[..j] + b[j + 1..];
    forall k | k in a[1..] ensures k in rest {
      assert k in a && k in b;
      var i :| 0 <= i < |b| && b[i] == k;
      assert i != j;
      assert rest[if i < j then i else i - 1] == k;
    }
    forall k | k in rest ensures k in a[1..] {
      assert k in b && k != a[0];
      var i :| 0 <= i < |a| && a[i] == k;
      assert a[1..][i - 1] == k;
    }
  }

  /** The marshalled size of a RoleData is the same for every order of its map. */
  lemma AnyOrder(m: RoleData, walk: seq<Str>, order: seq<Str>)
    requires Lists(walk, m.items) && Lists(order, m.items)
    ensures |EncodeRole(m, walk)| == |EncodeRole(m, order)|
  {
    FlatLength(RoleScalars(m), ItemRecs(m.items, walk));
    FlatLength(RoleScalars(m), ItemRecs(m.items, order));
    ItemsSizeFlat(m.items, walk);
    ItemsSizeFlat(m.items, order);
    ItemsSizePermuted(m.items, walk, order);
  }


  function LoginSize(m: C2SLogin): nat {
    IntSize(1, m.sdkType) + StrSize(|m.account|) + StrSize(|m.token|) + UintSize(1, m.channel)
    + StrSize(|m.dev|) + UintSize(1, m.area) + StrSize(|m.version|) + (if m.reconnect then 2 else 0)
    + (if m.cliInfo.Some? then BytesSize(1, ClientSize(m.cliInfo.value)) else 0) + |m.unknown|
  }

  lemma LoginScalarsSize(m: C2SLogin)
    ensures |Flat(LoginScalars(m))|
         == IntSize(1, m.sdkType) + StrSize(|m.account|) + StrSize(|m.token|) + UintSize(1, m.channel)
            + StrSize(|m.dev|) + UintSize(1, m.area) + StrSize(|m.version|) + (if m.reconnect then 2 else 0)
  {
    var rs := LoginScalars(m);
    assert SizeUpto(rs, 1) == IntSize(1, m.sdkType);
    assert SizeUpto(rs, 2) == SizeUpto(rs, 1) + StrSize(|m.account|);
    assert SizeUpto(rs, 3) == SizeUpto(rs, 2) + StrSize(|m.token|);
    assert SizeUpto(rs, 4) == SizeUpto(rs, 3) + UintSize(1, m.channel);
    assert SizeUpto(rs, 5) == SizeUpto(rs, 4) + StrSize(|m.dev|);
    assert SizeUpto(rs, 6) == SizeUpto(rs, 5) + UintSize(1, m.area);
    assert SizeUpto(rs, 7) == SizeUpto(rs, 6) + StrSize(|m.version|);
    assert SizeOfVarint(1) == 1 by { SizeOfVarintExact(1); }
    assert SizeUpto(rs, 8) == SizeUpto(rs, 7) + if m.reconnect then 2 else 0;
    SizeAll(rs);
  }

  lemma OneSize(r: Rec)
    requires 1 <= r.num <= 100
    ensures |Flat([r])| == RecSize(r)
  {
    SizeAll([r]);
    assert SizeUpto([r], 1) == RecSize(r);
  }

  lemma LoginSizeExact(m: C2SLogin)
    ensures LoginSize(m) == |EncodeLogin(m)|
  {
    LoginScalarsSize(m);
    assert m.cliInfo.None? ==> LoginRecs(m) == LoginScalars(m);
    if m.cliInfo.Some? {
      var r := BytesR(10, EncodeClient(m.cliInfo.value));
      ClientSizeExact(m.cliInfo.value);
      OneSize(r);
      FlatLength(LoginScalars(m), [r]);
    }
  }

  function RoleScalarsSize(m: RoleData): nat {
    UintSize(1, m.id) + ZigzagSize(1, m.level) + UintSize(1, m.exp) + StrSize(|m.name|) + UintSize(2, m.country)
    + IntSize(2, m.offlineTime) + IntSize(2, m.onlineTime) + IntSize(2, m.createTime)
    + ZigzagSize(2, m.resetTime) + ZigzagSize(2, m.dayChange) + ZigzagSize(2, m.dataResetMonth)
  }

  lemma ZigzagSizeExact(tag: nat, v: int64)
    ensures ZigzagSize(tag, v) == UintSize(tag, Zigzag64(v))
    ensures -0x8000_0000 <= v < 0x8000_0000 ==> Zigzag32(v) == Zigzag64(v)
  {
    ZigzagRoundTrip(v);
  }

  /** The fields with one-byte tags. */
  lemma RoleFront(m: RoleData)
    ensures SizeUpto(RoleScalars(m), 4) == UintSize(1, m.id) + ZigzagSize(1, m.level) + UintSize(1, m.exp) + StrSize(|m.name|)
  {
    var rs := RoleScalars(m);
    ZigzagSizeExact(1, m.level);
    assert SizeUpto(rs, 1) == UintSize(1, m.id);
    assert SizeUpto(rs, 2) == SizeUpto(rs, 1) + ZigzagSize(1, m.level);
    assert SizeUpto(rs, 3) == SizeUpto(rs, 2) + UintSize(1, m.exp);
    assert SizeUpto(rs, 4) == SizeUpto(rs, 3) + StrSize(|m.name|);
  }

  lemma RoleScalarsSizeExact(m: RoleData)
    ensures RoleScalarsSize(m) == |Flat(RoleScalars(m))|
  {
    var rs := RoleScalars(m);
    RoleFront(m);
    assert SizeUpto(rs, 5) == SizeUpto(rs, 4) + UintSize(2, m.country);
    assert SizeUpto(rs, 6) == SizeUpto(rs, 5) + IntSize(2, m.offlineTime);
    assert SizeUpto(rs, 7) == SizeUpto(rs, 6) + IntSize(2, m.onlineTime);
    assert SizeUpto(rs, 8) == SizeUpto(rs, 7) + IntSize(2, m.createTime);
    ZigzagSizeExact(2, m.resetTime); ZigzagSizeExact(2, m.dayChange); ZigzagSizeExact(2, m.dataResetMonth);
    assert SizeUpto(rs, 9) == SizeUpto(rs, 8) + ZigzagSize(2, m.resetTime);
    assert SizeUpto(rs, 10) == SizeUpto(rs, 9) + ZigzagSize(2, m.dayChange);
    assert SizeUpto(rs, 11) == SizeUpto(rs, 10) + ZigzagSize(2, m.dataResetMonth);
    SizeAll(rs);
  }

  /** The range over the map in RoleData.SizeVT. */
  method SizeItems(items: map<Str, int64>, walk: seq<Str>) returns (n: nat)
    requires Lists(walk, items)
    ensures n == |Flat(ItemRecs(items, walk))|
  {
    ghost var ts := ItemRecs(items, walk);
    n := 0;
    for i := 0 to |walk|
      invariant n == SizeUpto(ts, i)
    {
      assert ts[i] == BytesR(35, EncodeEntry(walk[i], items[walk[i]]));
      n := n + BytesSize(2, EntrySize(walk[i], items[walk[i]]));
    }
    SizeAll(ts);
  }

  /** RoleData.SizeVT. walk is the order in which its range over the map visits the keys;
      it need not be the order the marshal will see. */
  method SizeRole(m: RoleData, walk: seq<Str>) returns (n: nat)
    requires Lists(walk, m.items)
    ensures forall order | Lists(order, m.items) :: n == |EncodeRole(m, order)|
  {
    var items := SizeItems(m.items, walk);
    n := RoleScalarsSize(m) + items + |m.unknown|;
    RoleScalarsSizeExact(m);
    FlatLength(RoleScalars(m), ItemRecs(m.items, walk));
    assert n == |EncodeRole(m, walk)|;
    forall order | Lists(order, m.items)
      ensures n == |EncodeRole(m, order)|
    {
      AnyOrder(m, walk, order);
    }
  }

  function ReplyScalarsSize(m: S2CLogin): nat {
    IntSize(1, m.code) + UintSize(1, m.gameID) + ZigzagSize(1, m.openTime) + IntSize(1, m.serverNowTime)
    + IntSize(1, m.serverBeginTime) + StrSize(|m.dev|) + StrSize(|m.retDesc|) + UintSize(1, m.token) + StrSize(|m.cliVersion|)
  }

  lemma ReplyScalarsSizeExact(m: S2CLogin)
    ensures ReplyScalarsSize(m) == |Flat(ReplyScalars(m))|
  {
    var rs := ReplyScalars(m);
    ZigzagSizeExact(1, m.openTime);
    assert SizeUpto(rs, 1) == IntSize(1, m.code);
    assert SizeUpto(rs, 2) == SizeUpto(rs, 1) + UintSize(1, m.gameID);
    assert SizeUpto(rs, 3) == SizeUpto(rs, 2) + ZigzagSize(1, m.openTime);
    assert SizeUpto(rs, 4) == SizeUpto(rs, 3) + IntSize(1, m.serverNowTime);
    assert SizeUpto(rs, 5) == SizeUpto(rs, 4) + IntSize(1, m.serverBeginTime);
    assert SizeUpto(rs, 6) == SizeUpto(rs, 5) + StrSize(|m.dev|);
    assert SizeUpto(rs, 7) == SizeUpto(rs, 6) + StrSize(|m.retDesc|);
    assert SizeUpto(rs, 8) == SizeUpto(rs, 7) + UintSize(1, m.token);
    assert SizeUpto(rs, 9) == SizeUpto(rs, 8) + StrSize(|m.cliVersion|);
    SizeAll(rs);
  }

  method SizeSubs(m: S2CLogin, walk: seq<Str>) returns (n: nat)
    requires m.player.Some? ==> Lists(walk, m.player.value.items)
    ensures forall order | (m.player.Some? ==> Lists(order, m.player.value.items)) :: n == |Flat(ReplySubs(m, order))|
  {
    n := 0;
    ghost var xs := if m.data.None? then [] else [BytesR(10, EncodeLogin(m.data.value))];
    if m.data.Some? {
      LoginSizeExact(m.data.value);
      OneSize(xs[0]);
      n := BytesSize(1, LoginSize(m.data.value));
    }
    if m.player.Some? {
      var l := SizeRole(m.player.value, walk);
      n := n + BytesSize(1, l);
      forall order | Lists(order, m.player.value.items)
        ensures n == |Flat(ReplySubs(m, order))|
      {
        var r := BytesR(11, EncodeRole(m.player.value, order));
        OneSize(r);
        FlatLength(xs, [r]);
      }
    }
  }

  /** S2CLogin.SizeVT. */
  method SizeReply(m: S2CLogin, walk: seq<Str>) returns (n: nat)
    requires m.player.Some? ==> Lists(walk, m.player.value.items)
    ensures forall order | (m.player.Some? ==> Lists(order, m.player.value.items)) :: n == |EncodeReply(m, order)|
  {
    ghost var ts := StrRecs(m.connectAcc);
    var subs := SizeSubs(m, walk);
    n := ReplyScalarsSize(m) + subs;
    for i := 0 to |m.connectAcc|
      invariant n == ReplyScalarsSize(m) + subs + SizeUpto(ts, i)
    {
      n := n + BytesSize(1, |m.connectAcc[i]|);
    }
    SizeAll(ts);
    ReplyScalarsSizeExact(m);
    n := n + |m.unknown|;
    forall order | m.player.Some? ==> Lists(order, m.player.value.items)
      ensures n == |EncodeReply(m, order)|
    {
      FlatLength(ReplyScalars(m), ReplySubs(m, order) + ts);
      FlatLength(ReplySubs(m, order), ts);
    }
  }

  // ---------- any message ----------

  /** SizeVT, for every order in which the marshal may later walk the map. */
  method Size(m: Msg, walk: seq<Str>) returns (n: nat)
    requires Iterates(walk, m)
    ensures forall order | Iterates(order, m) :: n == |Encode(m, order)|
  {
    match m {
      case OfClient(c) => ClientSizeExact(c); n := ClientSize(c);
      case OfLogin(l) => LoginSizeExact(l); n := LoginSize(l);
      case OfRole(r) => n := SizeRole(r, walk);
      case OfReply(y) => n := SizeReply(y, walk);
    }
  }

  /** MarshalToSizedBufferVT(dAtA[:hi]). */
  method MarshalToSizedBuffer(m: Msg, order: seq<Str>, dAtA: array<byte>, hi: nat) returns (n: nat)
    requires Iterates(order, m) && |Encode(m, order)| <= hi <= dAtA.Length
    modifies dAtA
    ensures n == |Encode(m, order)| && Wrote(old(dAtA[..]), dAtA[..], hi - n, hi, Encode(m, order))
  {
    ghost var enc := Encode(m, order);
    match m {
      case OfClient(c) =>
        assert enc == EncodeClient(c);
        n := MarshalClient(c, dAtA, hi);
      case OfLogin(l) =>
        assert enc == EncodeLogin(l);
        n := MarshalLogin(l, dAtA, hi);
      case OfRole(r) =>
        assert enc == EncodeRole(r, order);
        n := MarshalRole(r, order, dAtA, hi);
      case OfReply(y) =>
        assert enc == EncodeReply(y, order);
        n := MarshalReply(y, order, dAtA, hi);
    }
  }

  /** MarshalVT: a buffer of SizeVT bytes, filled from the back; the cursor ends exactly at its front. */
  method MarshalVT(m: Msg, walk: seq<Str>, order: seq<Str>) returns (out: seq<byte>)
    requires Iterates(walk, m) && Iterates(order, m)
    ensures out == Encode(m, order)
  {
    var size := Size(m, walk);
    var dAtA := new byte[size];
    var n := MarshalToSizedBuffer(m, order, dAtA, size);
    out := dAtA[..n];
    assert out == dAtA[size - n..size];
  }
}
