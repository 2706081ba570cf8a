/** RoleData and S2CLogin: two-byte tags, zigzag fields, a map in any iteration order, repeated strings. */
module PbRoleRoundTrip {
  import opened Bytes
  import opened Protohelpers
  import opened PbMessages
  import opened PbDecode
  import opened PbEncode
  import opened PbRoundTrip
  import opened PbUnknown

  // ---------- map entries ----------

  lemma EntryKeyAt(s: seq<byte>, at: nat, n: nat, key: Str, e: Entry)
    requires e.at < |s| && at + n + |key| <= |s| && |key| < TWO63 && e.at < at
    requires ReadVarint(s[at..], 0) == Got(|key|, n) && s[at + n..at + n + |key|] == key
    ensures EntryCase(s, |s|, e, Tag(1, 2, at - e.at)) == Ok(Entry(key, e.value, at + n + |key|))
  {
    RoomEnough(|key|, n, |s| - at);
    assert EntryKey(s, at, Got(|key|, n), e) == Ok(Entry(key, e.value, at + n + |key|));
    CaseKey(s, |s|, e, at - e.at);
  }

  lemma CaseKey(s: seq<byte>, len: nat, e: Entry, n: nat)
    requires e.at < len <= |s| && 1 <= n <= |s| - e.at
    ensures EntryCase(s, len, e, Tag(1, 2, n)) == EntryKey(s, e.at + n, ReadVarint(s[e.at + n..], 0), e)
  {
  }

  /** The first field of a marshalled entry is read as its key. */
  lemma EntryKeyReads(key: Str, tail: seq<byte>, s: seq<byte>)
    requires |s| < TWO63 && s == BytesRec(1, key) + tail && tail != []
    ensures EntryField(s, |s|, Entry([], 0, 0)) == Ok(Entry(key, 0, |BytesRec(1, key)|))
  {
    var at, n := |Varint(10)|, |Varint(|key|)|;
    BytesRecReads(1, key, tail, s);
    assert s[at + n..at + n + |key|] == key by { SliceOf(s, at + n, key, tail); }
    EntryKeyAt(s, at, n, key, Entry([], 0, 0));
    assert s[0..] == s;
  }

  lemma SliceOf<T>(s: seq<T>, i: nat, a: seq<T>, b: seq<T>)
    requires i <= |s| && s[i..] == a + b
    ensures s[i..i + |a|] == a && s[i + |a|..] == b
  {
    assert s[i..i + |a|] == s[i..][..|a|];
    assert s[i + |a|..] == s[i..][|a|..];
  }

  lemma EntryValueAt(s: seq<byte>, at: nat, z: uint64, e: Entry)
    requires e.at < at <= |s| && ReadVarint(s[at..], 0) == Got(z, |s| - at)
    ensures EntryCase(s, |s|, e, Tag(2, 0, at - e.at)) == Ok(Entry(e.key, Unzigzag64(z), |s|))
  {
    EntryValueOf(at, z, |s| - at, e);
    assert EntryCase(s, |s|, e, Tag(2, 0, at - e.at)) == EntryValue(at, ReadVarint(s[at..], 0), e);
  }

  lemma EntryValueOf(at: nat, z: uint64, n: nat, e: Entry)
    ensures EntryValue(at, Got(z, n), e) == Ok(Entry(e.key, Unzigzag64(z), at + n))
  {
    assert Low64(z) == z;
  }

  /** The second field of a marshalled entry is read as its value. */
  lemma EntryValueReads(key: Str, z: uint64, s: seq<byte>, at: nat)
    requires at <= |s| && s[at..] == Varint(16) + Varint(z)
    ensures EntryField(s, |s|, Entry(key, 0, at)) == Ok(Entry(key, Unzigzag64(z), |s|))
  {
    var tag, val := Varint(16), Varint(z);
    TagReads(2, 0, val);
    SliceOf(s, at, tag, val);
    VarintReads(z, []);
    assert val + [] == val;
    EntryValueAt(s, at + |tag|, z, Entry(key, 0, at));
  }

  /** A marshalled entry is read back as its key and value. */
  lemma EntryReads(key: Str, value: int64)
    requires |EncodeEntry(key, value)| < TWO63
    ensures var s := EncodeEntry(key, value); ReadEntry(s, |s|, Entry([], 0, 0)) == Ok(Entry(key, value, |s|))
  {
    var s, at := EncodeEntry(key, value), |BytesRec(1, key)|;
    var tail := Varint(16) + Varint(Zigzag64(value));
    EntryKeyReads(key, tail, s);
    assert s[at..] == tail;
    EntryValueReads(key, Zigzag64(value), s, at);
    ZigzagRoundTrip(value);
    var e := Entry(key, 0, at);
    assert ReadEntry(s, |s|, e) == ReadEntry(s, |s|, Entry(key, value, |s|));
    assert ReadEntry(s, |s|, Entry([], 0, 0)) == ReadEntry(s, |s|, e);
  }

  /** The items a after the entries of b from the i-th on, in the given order, were decoded. */
  function Filled(a: map<Str, int64>, b: map<Str, int64>, order: seq<Str>, i: nat): map<Str, int64>
    requires i <= |order| && forall k :: k in order ==> k in b
    decreases |order| - i
  {
    if i == |order| then a else Filled(a[order[i] := b[order[i]]], b, order, i + 1)
  }

  lemma {:induction false} FilledAt(a: map<Str, int64>, b: map<Str, int64>, order: seq<Str>, i: nat, k: Str)
    requires i <= |order| && forall k :: k in order ==> k in b
    ensures var r := Filled(a, b, order, i);
            && (k in r <==> k in a || k in order[i..])
            && (k in r ==> r[k] == if k in order[i..] then b[k] else a[k])
    decreases |order| - i
  {
    if i < |order| {
      FilledAt(a[order[i] := b[order[i]]], b, order, i + 1, k);
      assert order[i..] == [order[i]] + order[i + 1..];
    }
  }

  lemma FilledAll(a: map<Str, int64>, b: map<Str, int64>, order: seq<Str>)
    requires Lists(order, b)
    ensures Filled(a, b, order, 0) == a + b
  {
    var r := Filled(a, b, order, 0);
    assert order[0..] == order;
    forall k
      ensures (k in r <==> k in a + b) && (k in r ==> r[k] == (a + b)[k])
    {
      FilledAt(a, b, order, 0, k);
    }
  }

  lemma ItemStep(m: RoleData, key: Str, value: int64)
    requires |EncodeEntry(key, value)| < TWO63
    ensures var r := BytesR(35, EncodeEntry(key, value));
            Fits(OfRole(m), r) && Apply(OfRole(m), r) == Ok(OfRole(m.(items := m.items[key := value])))
  {
    EntryReads(key, value);
  }

  lemma {:induction false} ItemsRunFrom(m: RoleData, b: map<Str, int64>, order: seq<Str>, i: nat)
    requires Lists(order, b) && Small(ItemRecs(b, order)) && i <= |order|
    ensures Runs(OfRole(m), ItemRecs(b, order), i, OfRole(m.(items := Filled(m.items, b, order, i))))
    decreases |order| - i
  {
    if i < |order| {
      var key, value, rs := order[i], b[order[i]], ItemRecs(b, order);
      assert rs[i] == BytesR(35, EncodeEntry(key, value));
      var n := m.(items := m.items[key := value]);
      ItemStep(m, key, value);
      ItemsRunFrom(n, b, order, i + 1);
      RunsNext(OfRole(m), rs, i, OfRole(n), OfRole(m.(items := Filled(m.items, b, order, i))));
    }
  }

  lemma ItemsRun(m: RoleData, b: map<Str, int64>, order: seq<Str>)
    requires Lists(order, b) && Small(ItemRecs(b, order))
    ensures Runs(OfRole(m), ItemRecs(b, order), 0, OfRole(m.(items := m.items + b)))
  {
    ItemsRunFrom(m, b, order, 0);
    FilledAll(m.items, b, order);
  }

  // ---------- RoleData ----------

  function RoleUpto(a: RoleData, b: RoleData, i: nat): RoleData {
    a.(id := if i > 0 then Last(a.id, b.id, 0) else a.id,
       level := if i > 1 then Last(a.level, b.level, 0) else a.level,
       exp := if i > 2 then Last(a.exp, b.exp, 0) else a.exp,
       name := if i > 3 then Last(a.name, b.name, []) else a.name,
       country := if i > 4 then Last(a.country, b.country, 0) else a.country,
       offlineTime := if i > 5 then Last(a.offlineTime, b.offlineTime, 0) else a.offlineTime,
       onlineTime := if i > 6 then Last(a.onlineTime, b.onlineTime, 0) else a.onlineTime,
       createTime := if i > 7 then Last(a.createTime, b.createTime, 0) else a.createTime,
       resetTime := if i > 8 then Last(a.resetTime, b.resetTime, 0) else a.resetTime,
       dayChange := if i > 9 then Last(a.dayChange, b.dayChange, 0) else a.dayChange,
       dataResetMonth := if i > 10 then Last(a.dataResetMonth, b.dataResetMonth, 0) else a.dataResetMonth)
  }

  lemma RoleStep(a: RoleData, b: RoleData, i: nat)
    requires i < 11 && Small(RoleScalars(b))
    ensures var m, r := OfRole(RoleUpto(a, b, i)), RoleScalars(b)[i];
            Fits(m, r) && Apply(m, r) == Ok(OfRole(RoleUpto(a, b, i + 1)))
  {
    if i < 5 {
      S32Wire(b.level); U32Wire(b.exp); U32Wire(b.country);
    } else if i < 8 {
      I64Wire(b.offlineTime); I64Wire(b.onlineTime); I64Wire(b.createTime);
    } else {
      ZigzagRoundTrip(b.resetTime); ZigzagRoundTrip(b.dayChange); ZigzagRoundTrip(b.dataResetMonth);
    }
  }

  lemma RoleScalarsRun(a: RoleData, b: RoleData)
    requires Small(RoleScalars(b))
    ensures Runs(OfRole(a), RoleScalars(b), 0, OfRole(RoleUpto(a, b, 11)))
  {
    var ms := seq(12, i requires 0 <= i < 12 => OfRole(RoleUpto(a, b, i)));
    forall j | 0 <= j < 11
      ensures Fits(ms[j], RoleScalars(b)[j]) && Apply(ms[j], RoleScalars(b)[j]) == Ok(ms[j + 1])
    {
      RoleStep(a, b, j);
    }
    RunsChain(ms, RoleScalars(b), 0);
  }

  lemma SmallParts(rs: seq<Rec>, ts: seq<Rec>)
    requires Small(rs + ts)
    ensures Small(rs) && Small(ts)
  {
    assert forall i :: 0 <= i < |rs| ==> rs[i] == (rs + ts)[i];
    assert forall i :: 0 <= i < |ts| ==> ts[i] == (rs + ts)[|rs| + i];
  }

  /** Decoding the bytes of b into a is merging b into a, whatever order the map was walked in. */
  lemma RoleDecodes(a: RoleData, b: RoleData, order: seq<Str>)
    requires Kept(OfRole(b)) && Lists(order, b.items) && |EncodeRole(b, order)| < TWO63
    ensures Unmarshal(OfRole(a), EncodeRole(b, order)) == Ok(OfRole(MergeRole(a, b)))
  {
    var rs, ts, m := RoleScalars(b), ItemRecs(b.items, order), RoleUpto(a, b, 11);
    SmallFlat(rs + ts);
    SmallParts(rs, ts);
    RoleScalarsRun(a, b);
    ItemsRun(m, b.items, order);
    var n := m.(items := m.items + b.items);
    assert MergeRole(a, b) == n.(unknown := a.unknown + b.unknown);
    RunsConcat(OfRole(a), rs, ts, 0, OfRole(m), OfRole(n));
    RunsAllDecode(OfRole(a), rs + ts, OfRole(n), OfRole(b));
  }

  // ---------- S2CLogin ----------

  function ReplyUpto(a: S2CLogin, b: S2CLogin, i: nat): S2CLogin {
    a.(code := if i > 0 then Last(a.code, b.code, 0) else a.code,
       gameID := if i > 1 then Last(a.gameID, b.gameID, 0) else a.gameID,
       openTime := if i > 2 then Last(a.openTime, b.openTime, 0) else a.openTime,
       serverNowTime := if i > 3 then Last(a.serverNowTime, b.serverNowTime, 0) else a.serverNowTime,
       serverBeginTime := if i > 4 then Last(a.serverBeginTime, b.serverBeginTime, 0) else a.serverBeginTime,
       dev := if i > 5 then Last(a.dev, b.dev, []) else a.dev,
       retDesc := if i > 6 then Last(a.retDesc, b.retDesc, []) else a.retDesc,
       token := if i > 7 then Last(a.token, b.token, 0) else a.token,
       cliVersion := if i > 8 then Last(a.cliVersion, b.cliVersion, []) else a.cliVersion)
  }

  lemma ReplyStep(a: S2CLogin, b: S2CLogin, i: nat)
    requires i < 9 && Small(ReplyScalars(b))
    ensures var m, r := OfReply(ReplyUpto(a, b, i)), ReplyScalars(b)[i];
            Fits(m, r) && Apply(m, r) == Ok(OfReply(ReplyUpto(a, b, i + 1)))
  {
    if i < 3 {
      I32Wire(b.code); U32Wire(b.gameID); ZigzagRoundTrip(b.openTime);
    } else {
      I64Wire(b.serverNowTime); I64Wire(b.serverBeginTime); U32Wire(b.token);
    }
  }

  lemma ReplyScalarsRun(a: S2CLogin, b: S2CLogin)
    requires Small(ReplyScalars(b))
    ensures Runs(OfReply(a), ReplyScalars(b), 0, OfReply(ReplyUpto(a, b, 9)))
  {
    var ms := seq(10, i requires 0 <= i < 10 => OfReply(ReplyUpto(a, b, i)));
    forall j | 0 <= j < 9
      ensures Fits(ms[j], ReplyScalars(b)[j]) && Apply(ms[j], ReplyScalars(b)[j]) == Ok(ms[j + 1])
    {
      ReplyStep(a, b, j);
    }
    RunsChain(ms, ReplyScalars(b), 0);
  }

  lemma StrsRun(m: S2CLogin, ss: seq<Str>)
    requires Small(StrRecs(ss))
    ensures Runs(OfReply(m), StrRecs(ss), 0, OfReply(m.(connectAcc := m.connectAcc + ss)))
  {
    var n, rs := |ss|, StrRecs(ss);
    var ms := seq(n + 1, i requires 0 <= i <= n => OfReply(m.(connectAcc := m.connectAcc + ss[..i])));
    forall j | 0 <= j < n
      ensures Fits(ms[j], rs[j]) && Apply(ms[j], rs[j]) == Ok(ms[j + 1])
    {
      assert rs[j] == BytesR(12, ss[j]) && ss[j][..|ss[j]|] == ss[j];
      assert (m.connectAcc + ss[..j]) + [ss[j]] == m.connectAcc + ss[..j + 1];
    }
    RunsChain(ms, rs, 0);
    assert m.connectAcc + ss[..0] == m.connectAcc && ss[..n] == ss;
  }

  lemma DataRuns(m: S2CLogin, b: C2SLogin)
    requires Kept(OfLogin(b)) && |EncodeLogin(b)| < TWO63
    ensures Runs(OfReply(m), [BytesR(10, EncodeLogin(b))], 0,
                 OfReply(m.(data := Some(MergeLogin(if m.data.None? then NoLogin else m.data.value, b)))))
  {
    var prev := if m.data.None? then NoLogin else m.data.value;
    LoginDecodes(prev, b);
    SubRun(OfReply(m), 10, EncodeLogin(b), OfLogin(MergeLogin(prev, b)));
  }

  lemma PlayerRuns(m: S2CLogin, b: RoleData, order: seq<Str>)
    requires Kept(OfRole(b)) && Lists(order, b.items) && |EncodeRole(b, order)| < TWO63
    ensures Runs(OfReply(m), [BytesR(11, EncodeRole(b, order))], 0,
                 OfReply(m.(player := Some(MergeRole(if m.player.None? then NoRole else m.player.value, b)))))
  {
    var prev := if m.player.None? then NoRole else m.player.value;
    RoleDecodes(prev, b, order);
    SubRun(OfReply(m), 11, EncodeRole(b, order), OfRole(MergeRole(prev, b)));
  }

  /** The two optional sub-messages of b merged into m, which still holds those of a. */
  lemma SubsRun(a: S2CLogin, b: S2CLogin, order: seq<Str>, m: S2CLogin)
    requires Kept(OfReply(b)) && (b.player.Some? ==> Lists(order, b.player.value.items))
    requires Small(ReplySubs(b, order)) && m.data == a.data && m.player == a.player
    ensures Runs(OfReply(m), ReplySubs(b, order), 0,
                 OfReply(m.(data := MergeReply(a, b).data, player := MergeReply(a, b).player)))
  {
    var rs := ReplySubs(b, order);
    var d, p := MergeReply(a, b).data, MergeReply(a, b).player;
    var xs := if b.data.None? then [] else [BytesR(10, EncodeLogin(b.data.value))];
    var ys := if b.player.None? then [] else [BytesR(11, EncodeRole(b.player.value, order))];
    var m1 := m.(data := d);
    SmallParts(xs, ys);
    if b.data.Some? {
      assert |xs[0].b| < TWO63;
      DataRuns(m, b.data.value);
    }
    if b.player.Some? {
      assert |ys[0].b| < TWO63;
      PlayerRuns(m1, b.player.value, order);
    }
    RunsConcat(OfReply(m), xs, ys, 0, OfReply(m1), OfReply(m1.(player := p)));
  }

  /** Decoding the bytes of b into a is merging b into a: both sub-messages, the map and the repeated field. */
  lemma ReplyDecodes(a: S2CLogin, b: S2CLogin, order: seq<Str>)
    requires Kept(OfReply(b)) && (b.player.Some? ==> Lists(order, b.player.value.items))
    requires |EncodeReply(b, order)| < TWO63
    ensures Unmarshal(OfReply(a), EncodeReply(b, order)) == Ok(OfReply(MergeReply(a, b)))
  {
    var rs, ss, ts := ReplyScalars(b), ReplySubs(b, order), StrRecs(b.connectAcc);
    var m, e := ReplyUpto(a, b, 9), MergeReply(a, b);
    var m2 := m.(data := e.data, player := e.player);
    SmallFlat(rs + (ss + ts));
    SmallParts(rs, ss + ts);
    SmallParts(ss, ts);
    ReplyScalarsRun(a, b);
    SubsRun(a, b, order, m);
    StrsRun(m2, b.connectAcc);
    var m3 := m2.(connectAcc := m2.connectAcc + b.connectAcc);
    assert e == m3.(unknown := a.unknown + b.unknown);
    RunsConcat(OfReply(m), ss, ts, 0, OfReply(m2), OfReply(m3));
    RunsConcat(OfReply(a), rs, ss + ts, 0, OfReply(m), OfReply(m3));
    RunsAllDecode(OfReply(a), rs + (ss + ts), OfReply(m3), OfReply(b));
  }

  // ---------- into an empty message ----------

  function Empty(m: Msg): Msg {
    match m
    case OfClient(_) => OfClient(NoClient)
    case OfLogin(_) => OfLogin(NoLogin)
    case OfRole(_) => OfRole(NoRole)
    case OfReply(_) => OfReply(NoReply)
  }

  /** order is a possible iteration of the one map in m, if m holds a map. */
  ghost predicate Iterates(order: seq<Str>, m: Msg) {
    && (m.OfRole? ==> Lists(order, m.role.items))
    && (m.OfReply? && m.reply.player.Some? ==> Lists(order, m.reply.player.value.items))
  }

  function Encode(m: Msg, order: seq<Str>): seq<byte>
    requires Iterates(order, m)
  {
    match m
    case OfClient(c) => EncodeClient(c)
    case OfLogin(l) => EncodeLogin(l)
    case OfRole(r) => EncodeRole(r, order)
    case OfReply(y) => EncodeReply(y, order)
  }

  function Merge(a: Msg, b: Msg): Msg
    requires SameKind(a, b)
  {
    match b
    case OfClient(c) => OfClient(MergeClient(a.client, c))
    case OfLogin(l) => OfLogin(MergeLogin(a.login, l))
    case OfRole(r) => OfRole(MergeRole(a.role, r))
    case OfReply(y) => OfReply(MergeReply(a.reply, y))
  }

  /** Decoding the bytes of b into any message of its kind merges b into it. */
  lemma Decodes(a: Msg, b: Msg, order: seq<Str>)
    requires SameKind(a, b) && Kept(b) && Iterates(order, b) && |Encode(b, order)| < TWO63
    ensures Unmarshal(a, Encode(b, order)) == Ok(Merge(a, b))
  {
    match b {
      case OfClient(c) => ClientDecodes(a.client, c);
      case OfLogin(l) => LoginDecodes(a.login, l);
      case OfRole(r) => RoleDecodes(a.role, r, order);
      case OfReply(y) => ReplyDecodes(a.reply, y, order);
    }
  }

  lemma LoginUnit(l: C2SLogin)
    ensures MergeLogin(NoLogin, l) == l
  {
    if l.cliInfo.Some? { ClientUnit(l.cliInfo.value); }
    assert [] + l.unknown == l.unknown;
  }

  lemma ClientUnit(c: ClientInfo)
    ensures MergeClient(NoClient, c) == c
  {
    assert [] + c.unknown == c.unknown;
  }

  lemma RoleUnit(r: RoleData)
    ensures MergeRole(NoRole, r) == r
  {
    assert map[] + r.items == r.items && [] + r.unknown == r.unknown;
  }

  lemma ReplyUnit(y: S2CLogin)
    ensures MergeReply(NoReply, y) == y
  {
    if y.data.Some? { LoginUnit(y.data.value); }
    if y.player.Some? { RoleUnit(y.player.value); }
    assert [] + y.connectAcc == y.connectAcc && [] + y.unknown == y.unknown;
  }

  lemma MergeUnit(m: Msg)
    ensures Merge(Empty(m), m) == m
  {
    match m {
      case OfClient(c) => ClientUnit(c);
      case OfLogin(l) => LoginUnit(l);
      case OfRole(r) => RoleUnit(r);
      case OfReply(y) => ReplyUnit(y);
    }
  }

  /** Marshalling and then unmarshalling into an empty message is the identity if and only if the unknown bytes in
      the message are unknown fields, as they are in every message without unknown bytes and every decoded one. */
  lemma RoundTrip(m: Msg, order: seq<Str>)
    requires Iterates(order, m) && |Encode(m, order)| < TWO63
    ensures Unmarshal(Empty(m), Encode(m, order)) == Ok(m) <==> Kept(m)
  {
    if Kept(m) {
      Decodes(Empty(m), m, order);
      MergeUnit(m);
    } else if Unmarshal(Empty(m), Encode(m, order)) == Ok(m) {
      DecodedKept(Empty(m), Encode(m, order));
    }
  }

  /** Whatever bytes UnmarshalVT accepts, marshalling the message it makes of them and unmarshalling again gives
      that message. */
  lemma Reencode(kind: Msg, s: seq<byte>, order: seq<Str>)
    requires Unmarshal(Empty(kind), s).Ok?
    requires var m := Unmarshal(Empty(kind), s).value; Iterates(order, m) && |Encode(m, order)| < TWO63
    ensures var m := Unmarshal(Empty(kind), s).value; Unmarshal(Empty(kind), Encode(m, order)) == Ok(m)
  {
    DecodedKept(Empty(kind), s);
    RoundTrip(Unmarshal(Empty(kind), s).value, order);
  }
}
