/** The bytes MarshalVT produces, and the theorem that decoding them merges the message. */
module PbEncode {
  import opened Bytes
  import opened Protohelpers
  import opened PbMessages
  import opened PbDecode

  // ---------- records ----------

  /** A scalar record; a zero value is left out. */
  function VarintRec(num: nat, v: uint64): seq<byte> {
    if v == 0 then [] else Varint(8 * num) + Varint(v)
  }

  /** Section "Length-Delimited Records". */
  function BytesRec(num: nat, b: seq<byte>): (s: seq<byte>) {
    Varint(8 * num + 2) + (Varint(|b|) + b)
  }

  function StrRec(num: nat, b: Str): seq<byte> { if b == [] then [] else BytesRec(num, b) }

  /** A record of a message: a scalar or a string, left out when zero, or bytes that are always written. */
  datatype Rec = VarintR(num: nat, v: uint64) | StrR(num: nat, b: Str) | BytesR(num: nat, b: seq<byte>)

  function RecBytes(r: Rec): seq<byte> {
    match r
    case VarintR(num, v) => VarintRec(num, v)
    case StrR(num, b) => StrRec(num, b)
    case BytesR(num, b) => BytesRec(num, b)
  }

  function Flat(rs: seq<Rec>): seq<byte> {
    if rs == [] then [] else RecBytes(rs[0]) + Flat(rs[1..])
  }

  // ---------- messages: records in ascending field order, unknown bytes last ----------

  function ClientRec(m: ClientInfo, i: nat): Rec {
    if i == 0 then StrR(1, m.devID) else if i == 1 then StrR(2, m.advType) else if i == 2 then StrR(3, m.phoneModel)
    else if i == 3 then StrR(4, m.sysVersion) else if i == 4 then StrR(5, m.machine) else StrR(6, m.ip)
  }

  function ClientRecs(m: ClientInfo): (rs: seq<Rec>)
    ensures |rs| == 6
  {
    seq(6, i requires 0 <= i < 6 => ClientRec(m, i))
  }

  function EncodeClient(m: ClientInfo): seq<byte> { Flat(ClientRecs(m)) + m.unknown }

  function LoginScalar(m: C2SLogin, i: nat): Rec {
    if i == 0 then VarintR(1, ToU64(m.sdkType)) else if i == 1 then StrR(2, m.account) else if i == 2 then StrR(3, m.token)
    else if i == 3 then VarintR(4, m.channel) else if i == 4 then StrR(5, m.dev) else if i == 5 then VarintR(7, m.area)
    else if i == 6 then StrR(8, m.version) else VarintR(9, if m.reconnect then 1 else 0)
  }

  function LoginScalars(m: C2SLogin): (rs: seq<Rec>)
    ensures |rs| == 8
  {
    seq(8, i requires 0 <= i < 8 => LoginScalar(m, i))
  }

  function LoginRecs(m: C2SLogin): seq<Rec> {
    LoginScalars(m) + if m.cliInfo.None? then [] else [BytesR(10, EncodeClient(m.cliInfo.value))]
  }

  function EncodeLogin(m: C2SLogin): seq<byte> { Flat(LoginRecs(m)) + m.unknown }

  /** One map entry: a two-field message whose fields are written even when zero. */
  function EncodeEntry(key: Str, value: int64): seq<byte> {
    BytesRec(1, key) + (Varint(16) + Varint(Zigzag64(value)))
  }

  /** order lists the keys of items, each once: one iteration of a Go map. */
  ghost predicate Lists(order: seq<Str>, items: map<Str, int64>) {
    && (forall k :: k in order <==> k in items)
    && forall i, j :: 0 <= i < j < |order| ==> order[i] != order[j]
  }

  function ItemRecs(items: map<Str, int64>, order: seq<Str>): (rs: seq<Rec>)
    requires forall k :: k in order ==> k in items
    ensures |rs| == |order|
  {
    seq(|order|, i requires 0 <= i < |order| => BytesR(35, EncodeEntry(order[i], items[order[i]])))
  }

  function RoleScalar(m: RoleData, i: nat): Rec {
    if i == 0 then VarintR(1, m.id) else if i == 1 then VarintR(3, Zigzag32(m.level)) else if i == 2 then VarintR(4, m.exp)
    else if i == 3 then StrR(5, m.name) else if i == 4 then VarintR(20, m.country)
    else if i == 5 then VarintR(23, ToU64(m.offlineTime)) else if i == 6 then VarintR(24, ToU64(m.onlineTime))
    else if i == 7 then VarintR(25, ToU64(m.createTime)) else if i == 8 then VarintR(26, Zigzag64(m.resetTime))
    else if i == 9 then VarintR(27, Zigzag64(m.dayChange)) else VarintR(28, Zigzag64(m.dataResetMonth))
  }

  function RoleScalars(m: RoleData): (rs: seq<Rec>)
    ensures |rs| == 11
  {
    seq(11, i requires 0 <= i < 11 => RoleScalar(m, i))
  }

  function EncodeRole(m: RoleData, order: seq<Str>): seq<byte>
    requires Lists(order, m.items)
  {
    Flat(RoleScalars(m) + ItemRecs(m.items, order)) + m.unknown
  }

  function ReplyScalar(m: S2CLogin, i: nat): Rec {
    if i == 0 then VarintR(1, ToU64(m.code)) else if i == 1 then VarintR(2, m.gameID)
    else if i == 2 then VarintR(3, Zigzag64(m.openTime)) else if i == 3 then VarintR(4, ToU64(m.serverNowTime))
    else if i == 4 then VarintR(5, ToU64(m.serverBeginTime)) else if i == 5 then StrR(6, m.dev)
    else if i == 6 then StrR(7, m.retDesc) else if i == 7 then VarintR(8, m.token) else StrR(9, m.cliVersion)
  }

  function ReplyScalars(m: S2CLogin): (rs: seq<Rec>)
    ensures |rs| == 9
  {
    seq(9, i requires 0 <= i < 9 => ReplyScalar(m, i))
  }

  function ReplySubs(m: S2CLogin, order: seq<Str>): seq<Rec>
    requires m.player.Some? ==> Lists(order, m.player.value.items)
  {
    (if m.data.None? then [] else [BytesR(10, EncodeLogin(m.data.value))])
    + if m.player.None? then [] else [BytesR(11, EncodeRole(m.player.value, order))]
  }

  /** A repeated string field: every element is written, empty ones too. */
  function StrRecs(ss: seq<Str>): (rs: seq<Rec>)
    ensures |rs| == |ss|
  {
    seq(|ss|, i requires 0 <= i < |ss| => BytesR(12, ss[i]))
  }

  function EncodeReply(m: S2CLogin, order: seq<Str>): seq<byte>
    requires m.player.Some? ==> Lists(order, m.player.value.items)
  {
    Flat(ReplyScalars(m) + (ReplySubs(m, order) + StrRecs(m.connectAcc))) + m.unknown
  }

  // ---------- one record decoded ----------

  lemma Assoc<T>(a: seq<T>, b: seq<T>, c: seq<T>)
    ensures (a + b) + c == a + (b + c)
    ensures (a + (b + c))[|a|..] == b + c && (a + (b + c))[|a| + |b|..] == c
  {
  }

  lemma VarintReads(v: uint64, rest: seq<byte>)
    ensures ReadVarint(Varint(v) + rest, 0) == Got(v, |Varint(v)|)
  {
    VarintU64(v);
    VarintRoundTrip(v, 0, rest);
  }

  lemma TagReads(num: nat, wt: nat, rest: seq<byte>)
    requires num <= 100 && wt < 8
    ensures ReadTag(Varint(8 * num + wt) + rest) == Tag(num, wt, |Varint(8 * num + wt)|)
  {
    var wire := 8 * num + wt;
    VarintReads(wire, rest);
    assert Low64(wire) == wire && wire / 8 == num && wire % 8 == wt;
  }

  lemma VarintFieldAt(m: Msg, num: nat, s: seq<byte>, at: nat, v: uint64, n: nat)
    requires 1 <= num && ShapeOf(m, num) == VarintField && 1 <= at <= |s|
    requires ReadVarint(s[at..], 0) == Got(v, n)
    ensures DecodeCase(m, s, Tag(num, 0, at)) == Ok(Field(SetVarint(m, num, v), at + n))
  {
    assert Low64(v) == v;
  }

  lemma VarintRecReads(num: nat, v: uint64, rest: seq<byte>, s: seq<byte>)
    requires num <= 100 && v != 0 && s == VarintRec(num, v) + rest
    ensures var at, n := |Varint(8 * num)|, |Varint(v)|;
            && |s| == at + n + |rest| && s[at + n..] == rest
            && ReadTag(s) == Tag(num, 0, at) && ReadVarint(s[at..], 0) == Got(v, n)
  {
    Assoc(Varint(8 * num), Varint(v), rest);
    TagReads(num, 0, Varint(v) + rest);
    VarintReads(v, rest);
  }

  /** A scalar record decodes to the assignment of that field, or to nothing when the value is zero. */
  lemma VarintRecDecodes(m: Msg, num: nat, v: uint64, rest: seq<byte>)
    requires 1 <= num <= 100 && ShapeOf(m, num) == VarintField
    ensures Unmarshal(m, VarintRec(num, v) + rest) == Unmarshal(if v == 0 then m else SetVarint(m, num, v), rest)
  {
    var s := VarintRec(num, v) + rest;
    if v == 0 {
      assert s == rest;
    } else {
      VarintRecReads(num, v, rest, s);
      VarintFieldAt(m, num, s, |Varint(8 * num)|, v, |Varint(v)|);
    }
  }

  lemma BytesFieldAt(m: Msg, num: nat, s: seq<byte>, at: nat, n: nat, len: nat, m': Msg)
    requires ShapeOf(m, num) == BytesField && 1 <= at && len < TWO63 && at + n + len <= |s|
    requires SetBytes(m, num, s[at + n..], len) == Ok(m')
    ensures BytesAt(m, num, s, at, Got(len, n)) == Ok(Field(m', at + n + len))
  {
    RoomEnough(len, n, |s| - at);
    BytesAtOk(m, num, s, at, Got(len, n), len, m');
  }

  /** A length-delimited field whose tag was read is taken off the front. */
  lemma BytesThen(m: Msg, num: nat, s: seq<byte>, at: nat, f: Field)
    requires 1 <= num && ShapeOf(m, num) == BytesField && 1 <= at <= |s| && ReadTag(s) == Tag(num, 2, at)
    requires BytesAt(m, num, s, at, ReadVarint(s[at..], 0)) == Ok(f)
    ensures Unmarshal(m, s) == Unmarshal(f.msg, s[f.n..])
  {
    CaseBytes(m, num, s, at);
    assert DecodeField(m, s) == Ok(f);
  }

  lemma CaseBytes(m: Msg, num: nat, s: seq<byte>, at: nat)
    requires 1 <= num && ShapeOf(m, num) == BytesField && 1 <= at <= |s|
    ensures DecodeCase(m, s, Tag(num, 2, at)) == BytesAt(m, num, s, at, ReadVarint(s[at..], 0))
  {
    assert DecodeCase(m, s, Tag(num, 2, at)) == Switch(m, s, num, 2, at);
  }

  lemma BytesAtOk(m: Msg, num: nat, s: seq<byte>, at: nat, r: Read, len: nat, m': Msg)
    requires ShapeOf(m, num) == BytesField && 1 <= at <= |s| && Room(r, |s| - at) == Ok(len)
    requires SetBytes(m, num, s[at + r.n..], len) == Ok(m')
    ensures BytesAt(m, num, s, at, r) == Ok(Field(m', at + r.n + len))
  {
  }

  lemma RoomEnough(len: nat, n: nat, room: int)
    requires len < TWO63 && n + len <= room
    ensures Room(Got(len, n), room) == Ok(len)
  {
    assert Low64(len) == len;
  }

  lemma BytesRecReads(num: nat, b: seq<byte>, rest: seq<byte>, s: seq<byte>)
    requires num <= 100 && |b| < TWO63 && s == BytesRec(num, b) + rest
    ensures var at, n := |Varint(8 * num + 2)|, |Varint(|b|)|;
            && |s| == at + n + |b| + |rest| && s[at + n..] == b + rest && s[at + n + |b|..] == rest
            && ReadTag(s) == Tag(num, 2, at) && ReadVarint(s[at..], 0) == Got(|b|, n)
  {
    var tag, len := Varint(8 * num + 2), Varint(|b|);
    assert s == tag + (len + (b + rest));
    Assoc(tag, len, b + rest);
    TagReads(num, 2, len + (b + rest));
    VarintReads(|b|, b + rest);
  }

  /** A length-delimited record decodes to what SetBytes makes of its contents. */
  lemma BytesRecDecodes(m: Msg, num: nat, b: seq<byte>, rest: seq<byte>, m': Msg)
    requires 1 <= num <= 100 && ShapeOf(m, num) == BytesField && |b| < TWO63
    requires SetBytes(m, num, b + rest, |b|) == Ok(m')
    ensures Unmarshal(m, BytesRec(num, b) + rest) == Unmarshal(m', rest)
  {
    var s := BytesRec(num, b) + rest;
    var at, n := |Varint(8 * num + 2)|, |Varint(|b|)|;
    BytesRecReads(num, b, rest, s);
    BytesFieldAt(m, num, s, at, n, |b|, m');
    BytesThen(m, num, s, at, Field(m', at + n + |b|));
  }

  /** The tags the encoder makes are the bytes the generated code writes one by one: one byte up to field 15, two
      from field 16 on. */
  lemma TagBytes(num: nat, wt: nat)
    requires 1 <= num <= 100 && wt < 8
    ensures num < 16 ==> Varint(8 * num + wt) == [8 * num + wt]
    ensures num >= 16 ==> Varint(8 * num + wt) == [(8 * num + wt) % 128 + 128, (8 * num + wt) / 128]
    ensures Varint(8 * 35 + 2) == [0x9a, 0x2] && Varint(8 * 20) == [0xa0, 0x1] && Varint(8 * 23) == [0xb8, 0x1]
    ensures Varint(8 * 24) == [0xc0, 0x1] && Varint(8 * 25) == [0xc8, 0x1] && Varint(8 * 26) == [0xd0, 0x1]
    ensures Varint(8 * 27) == [0xd8, 0x1] && Varint(8 * 28) == [0xe0, 0x1]
  {
    var t := 8 * num + wt;
    if num >= 16 { assert Varint(t / 128) == [t / 128]; }
    assert Varint(1) == [1] && Varint(2) == [2];
  }
}
