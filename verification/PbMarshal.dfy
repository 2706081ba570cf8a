/** MarshalToSizedBufferVT: the fields are written backwards from the end of a sized buffer. */
module PbMarshal {
  import opened Bytes
  import opened Protohelpers
  import opened PbMessages
  import opened PbEncode

  lemma VarintTail(front: seq<byte>, x: nat)
    requires x >= 128
    ensures (front + [x % 128 + 128]) + Varint(x / 128) == front + Varint(x)
    ensures |Varint(x)| == 1 + |Varint(x / 128)|
  {
  }

  /** protohelpers.EncodeVarint. */
  method EncodeVarint(dAtA: array<byte>, offset: nat, v: nat) returns (base: nat)
    requires |Varint(v)| <= offset <= dAtA.Length
    modifies dAtA
    ensures Wrote(old(dAtA[..]), dAtA[..], base, offset, Varint(v))
  {
    SizeOfVarintExact(v);
    base := offset - SizeOfVarint(v);
    var at, x := base, v;
    while x >= 128
      invariant base <= at < offset && offset - at == |Varint(x)|
      invariant dAtA[base..at] + Varint(x) == Varint(v)
      invariant dAtA[..base] == old(dAtA[..base]) && dAtA[offset..] == old(dAtA[offset..])
    {
      dAtA[at] := x % 128 + 128;
      VarintTail(dAtA[base..at], x);
      assert dAtA[base..at + 1] == dAtA[base..at] + [x % 128 + 128];
      at, x := at + 1, x / 128;
    }
    dAtA[at] := x;
    assert dAtA[base..at + 1] == dAtA[base..at] + [x];
  }

  /** i -= len(b); copy(dAtA[i:], b). */
  method CopyBack(dAtA: array<byte>, i: nat, b: seq<byte>) returns (j: nat)
    requires |b| <= i <= dAtA.Length
    modifies dAtA
    ensures Wrote(old(dAtA[..]), dAtA[..], j, i, b)
  {
    j := i - |b|;
    for k := 0 to |b|
      invariant dAtA[j..j + k] == b[..k]
      invariant dAtA[..j] == old(dAtA[..j]) && dAtA[i..] == old(dAtA[i..])
    {
      dAtA[j + k] := b[k];
      assert dAtA[j..j + k + 1] == dAtA[j..j + k] + [b[k]];
    }
  }

  // ---------- the plan of one message ----------

  /** The records a call must produce: rs, then the unknown bytes u, ending at hi. */
  datatype Plan = Plan(before: seq<byte>, hi: nat, rs: seq<Rec>, u: seq<byte>)

  /** The cursor stands at i, with the unknown bytes and all records from the k-th on written. */
  ghost predicate At(p: Plan, now: seq<byte>, i: nat, k: nat) {
    && k <= |p.rs| && |Flat(p.rs)| + |p.u| <= p.hi
    && Wrote(p.before, now, i, p.hi, Flat(p.rs[k..]) + p.u)
  }

  lemma {:induction false} FlatSuffix(rs: seq<Rec>, k: nat)
    requires k <= |rs|
    ensures |Flat(rs[k..])| <= |Flat(rs)|
  {
    if k > 0 {
      assert rs[1..][k - 1..] == rs[k..];
      FlatSuffix(rs[1..], k - 1);
    } else {
      assert rs[0..] == rs;
    }
  }

  /** There is room in front of the cursor for the next record. */
  lemma RoomLeft(p: Plan, now: seq<byte>, i: nat, k: nat)
    requires k < |p.rs| && At(p, now, i, k + 1)
    ensures |RecBytes(p.rs[k])| <= i <= |now|
  {
    assert p.rs[k..][1..] == p.rs[k + 1..];
    FlatSuffix(p.rs, k);
  }

  lemma RoomForBytes(p: Plan, now: seq<byte>, i: nat, k: nat, num: nat, b: seq<byte>)
    requires k < |p.rs| && RecBytes(p.rs[k]) == BytesRec(num, b) && At(p, now, i, k + 1)
    ensures |b| <= i <= |now|
  {
    RoomLeft(p, now, i, k);
  }

  lemma FlatStep(rs: seq<Rec>, k: nat, u: seq<byte>)
    requires k < |rs|
    ensures RecBytes(rs[k]) + (Flat(rs[k + 1..]) + u) == Flat(rs[k..]) + u
  {
    assert rs[k..][1..] == rs[k + 1..];
    Assoc(RecBytes(rs[k]), Flat(rs[k + 1..]), u);
  }

  /** Writing the k-th record in front of the cursor advances the plan. */
  lemma Advances(p: Plan, s1: seq<byte>, s2: seq<byte>, i: nat, j: nat, k: nat)
    requires k < |p.rs| && At(p, s1, i, k + 1) && Wrote(s1, s2, j, i, RecBytes(p.rs[k]))
    ensures At(p, s2, j, k)
  {
    FlatStep(p.rs, k, p.u);
    WroteWrote(p.before, s1, s2, j, i, p.hi, Flat(p.rs[k + 1..]) + p.u, RecBytes(p.rs[k]));
  }

  lemma Finished(p: Plan, now: seq<byte>, i: nat)
    requires At(p, now, i, 0)
    ensures Wrote(p.before, now, i, p.hi, Flat(p.rs) + p.u)
  {
    assert p.rs[0..] == p.rs;
  }

  /** The unknown bytes go in first, at the end of the buffer. */
  method PutUnknown(ghost p: Plan, dAtA: array<byte>, hi: nat, u: seq<byte>) returns (i: nat)
    requires p.before == dAtA[..] && p.hi == hi <= dAtA.Length && p.u == u && |Flat(p.rs)| + |u| <= hi
    modifies dAtA
    ensures At(p, dAtA[..], i, |p.rs|)
  {
    i := CopyBack(dAtA, hi, u);
    assert Flat(p.rs[|p.rs|..]) + u == u;
  }

  /** A scalar field: value, then tag, unless the value is zero. */
  method PutVarint(ghost p: Plan, ghost k: nat, dAtA: array<byte>, i: nat, num: nat, v: uint64) returns (j: nat)
    requires k < |p.rs| && p.rs[k] == VarintR(num, v) && At(p, dAtA[..], i, k + 1)
    modifies dAtA
    ensures At(p, dAtA[..], j, k)
  {
    RoomLeft(p, dAtA[..], i, k);
    ghost var s1 := dAtA[..];
    j := i;
    if v != 0 {
      j := EncodeVarint(dAtA, j, v);
      ghost var s2, m := dAtA[..], j;
      j := EncodeVarint(dAtA, j, 8 * num);
      WroteWrote(s1, s2, dAtA[..], j, m, i, Varint(v), Varint(8 * num));
    }
    Advances(p, s1, dAtA[..], i, j, k);
  }

  /** The length prefix and tag in front of size bytes b that already stand before i. */
  method PutPrefix(ghost before: seq<byte>, dAtA: array<byte>, i: nat, ghost hi: nat, num: nat, size: nat, ghost b: seq<byte>)
    returns (j: nat)
    requires Wrote(before, dAtA[..], i, hi, b) && size == |b| && |BytesRec(num, b)| <= hi
    modifies dAtA
    ensures Wrote(before, dAtA[..], j, hi, BytesRec(num, b))
  {
    ghost var s1 := dAtA[..];
    j := EncodeVarint(dAtA, i, size);
    ghost var s2, m := dAtA[..], j;
    WroteWrote(before, s1, s2, m, i, hi, b, Varint(size));
    j := EncodeVarint(dAtA, j, 8 * num + 2);
    WroteWrote(before, s2, dAtA[..], j, m, hi, Varint(size) + b, Varint(8 * num + 2));
  }

  /** The prefix in front of the contents b of the k-th record, which were written before i. */
  method PutRecordPrefix(ghost p: Plan, ghost k: nat, ghost s1: seq<byte>, dAtA: array<byte>, i: nat, num: nat, size: nat,
                         ghost b: seq<byte>) returns (j: nat)
    requires k < |p.rs| && RecBytes(p.rs[k]) == BytesRec(num, b) && At(p, s1, i, k + 1)
    requires size == |b| <= i && Wrote(s1, dAtA[..], i - size, i, b)
    modifies dAtA
    ensures At(p, dAtA[..], j, k)
  {
    RoomLeft(p, s1, i, k);
    j := PutPrefix(s1, dAtA, i - size, i, num, size, b);
    Advances(p, s1, dAtA[..], i, j, k);
  }

  /** i -= len(b); copy; EncodeVarint(len(b)); tag: a string or element that is always written. */
  method PutBytes(ghost p: Plan, ghost k: nat, dAtA: array<byte>, i: nat, num: nat, b: seq<byte>) returns (j: nat)
    requires k < |p.rs| && RecBytes(p.rs[k]) == BytesRec(num, b) && At(p, dAtA[..], i, k + 1)
    modifies dAtA
    ensures At(p, dAtA[..], j, k)
  {
    ghost var s1 := dAtA[..];
    RoomForBytes(p, s1, i, k, num, b);
    j := CopyBack(dAtA, i, b);
    j := PutRecordPrefix(p, k, s1, dAtA, i, num, |b|, b);
  }

  /** A singular string field, unless it is empty. */
  method PutStr(ghost p: Plan, ghost k: nat, dAtA: array<byte>, i: nat, num: nat, b: Str) returns (j: nat)
    requires k < |p.rs| && p.rs[k] == StrR(num, b) && At(p, dAtA[..], i, k + 1)
    modifies dAtA
    ensures At(p, dAtA[..], j, k)
  {
    if |b| > 0 {
      j := PutBytes(p, k, dAtA, i, num, b);
    } else {
      j := i;
      Advances(p, dAtA[..], dAtA[..], i, j, k);
    }
  }

  /** One block of the generated chain. */
  method PutField(ghost p: Plan, ghost k: nat, dAtA: array<byte>, i: nat, r: Rec) returns (j: nat)
    requires k < |p.rs| && p.rs[k] == r && At(p, dAtA[..], i, k + 1)
    modifies dAtA
    ensures At(p, dAtA[..], j, k)
  {
    match r {
      case VarintR(num, v) => j := PutVarint(p, k, dAtA, i, num, v);
      case StrR(num, b) => j := PutStr(p, k, dAtA, i, num, b);
      case BytesR(num, b) => j := PutBytes(p, k, dAtA, i, num, b);
    }
  }

  /** rs stands at position base of all. */
  ghost predicate Holds(all: seq<Rec>, base: nat, rs: seq<Rec>) {
    base + |rs| <= |all| && forall k :: 0 <= k < |rs| ==> all[base + k] == rs[k]
  }

  /** The generated chain of field blocks, last block first. */
  method PutFields(ghost p: Plan, dAtA: array<byte>, i: nat, ghost base: nat, rs: seq<Rec>) returns (j: nat)
    requires Holds(p.rs, base, rs) && At(p, dAtA[..], i, base + |rs|)
    modifies dAtA
    ensures At(p, dAtA[..], j, base)
  {
    j := i;
    for k := |rs| downto 0
      invariant At(p, dAtA[..], j, base + k)
    {
      j := PutField(p, base + k, dAtA, j, rs[k]);
    }
  }

  // ---------- messages ----------

  method MarshalClient(m: ClientInfo, dAtA: array<byte>, hi: nat) returns (n: nat)
    requires |EncodeClient(m)| <= hi <= dAtA.Length
    modifies dAtA
    ensures n == |EncodeClient(m)| && Wrote(old(dAtA[..]), dAtA[..], hi - n, hi, EncodeClient(m))
  {
    ghost var p := Plan(dAtA[..], hi, ClientRecs(m), m.unknown);
    var i := PutUnknown(p, dAtA, hi, m.unknown);
    i := PutFields(p, dAtA, i, 0, ClientRecs(m));
    Finished(p, dAtA[..], i);
    n := hi - i;
  }

  /** The nested ClientInfo is marshalled in front of the cursor, then the prefix of its record. */
  method PutClient(ghost p: Plan, ghost k: nat, dAtA: array<byte>, i: nat, c: ClientInfo) returns (j: nat)
    requires k < |p.rs| && p.rs[k] == BytesR(10, EncodeClient(c)) && At(p, dAtA[..], i, k + 1)
    modifies dAtA
    ensures At(p, dAtA[..], j, k)
  {
    RoomForBytes(p, dAtA[..], i, k, 10, EncodeClient(c));
    ghost var s1 := dAtA[..];
    var size := MarshalClient(c, dAtA, i);
    j := PutRecordPrefix(p, k, s1, dAtA, i, 10, size, EncodeClient(c));
  }

  method MarshalLogin(m: C2SLogin, dAtA: array<byte>, hi: nat) returns (n: nat)
    requires |EncodeLogin(m)| <= hi <= dAtA.Length
    modifies dAtA
    ensures n == |EncodeLogin(m)| && Wrote(old(dAtA[..]), dAtA[..], hi - n, hi, EncodeLogin(m))
  {
    ghost var p := Plan(dAtA[..], hi, LoginRecs(m), m.unknown);
    var i := PutUnknown(p, dAtA, hi, m.unknown);
    if m.cliInfo.Some? {
      i := PutClient(p, 8, dAtA, i, m.cliInfo.value);
    }
    i := PutFields(p, dAtA, i, 0, LoginScalars(m));
    Finished(p, dAtA[..], i);
    n := hi - i;
  }

  /** The body of one map entry: value, its tag, key, its length, its tag, written backwards. */
  method PutEntry(dAtA: array<byte>, baseI: nat, key: Str, value: int64) returns (i: nat)
    requires |EncodeEntry(key, value)| <= baseI <= dAtA.Length
    modifies dAtA
    ensures Wrote(old(dAtA[..]), dAtA[..], i, baseI, EncodeEntry(key, value))
  {
    ghost var s0, z := dAtA[..], Varint(Zigzag64(value));
    i := EncodeVarint(dAtA, baseI, Zigzag64(value));
    ghost var s1, i1 := dAtA[..], i;
    i := EncodeVarint(dAtA, i, 16);
    ghost var s2, i2 := dAtA[..], i;
    WroteWrote(s0, s1, s2, i2, i1, baseI, z, Varint(16));
    i := CopyBack(dAtA, i, key);
    i := PutPrefix(s2, dAtA, i, i2, 1, |key|, key);
    WroteWrote(s0, s2, dAtA[..], i, i2, baseI, Varint(16) + z, BytesRec(1, key));
  }

  /** The map entries, in order, are the records of rs from base to the end. */
  ghost predicate ItemsStand(rs: seq<Rec>, base: nat, items: map<Str, int64>, order: seq<Str>) {
    && base + |order| == |rs|
    && forall n :: 0 <= n < |order| ==>
         order[n] in items && rs[base + n] == BytesR(35, EncodeEntry(order[n], items[order[n]]))
  }

  /** Where the two parts of a role's records stand. */
  lemma RoleParts(rs: seq<Rec>, m: RoleData, order: seq<Str>)
    requires Lists(order, m.items) && rs == RoleScalars(m) + ItemRecs(m.items, order)
    ensures Holds(rs, 0, RoleScalars(m)) && ItemsStand(rs, 11, m.items, order)
  {
    forall n | 0 <= n < |order|
      ensures order[n] in m.items && rs[11 + n] == BytesR(35, EncodeEntry(order[n], m.items[order[n]]))
    {
      assert order[n] in order && rs[11 + n] == ItemRecs(m.items, order)[n];
    }
  }

  /** The n-th map entry of the order. */
  method PutItem(ghost p: Plan, ghost base: nat, n: nat, dAtA: array<byte>, i: nat, items: map<Str, int64>, order: seq<Str>)
    returns (j: nat)
    requires ItemsStand(p.rs, base, items, order) && n < |order| && At(p, dAtA[..], i, base + n + 1)
    modifies dAtA
    ensures At(p, dAtA[..], j, base + n)
  {
    var key, value := order[n], items[order[n]];
    ghost var s1, k, b := dAtA[..], base + n, EncodeEntry(key, value);
    assert RecBytes(p.rs[k]) == BytesRec(35, b);
    RoomForBytes(p, s1, i, k, 35, b);
    j := PutEntry(dAtA, i, key, value);
    j := PutRecordPrefix(p, k, s1, dAtA, i, 35, i - j, b);
  }

  /** The runtime walks the map from the last key of order to the first. */
  method PutItems(ghost p: Plan, ghost base: nat, dAtA: array<byte>, i: nat, items: map<Str, int64>, order: seq<Str>)
    returns (j: nat)
    requires ItemsStand(p.rs, base, items, order) && At(p, dAtA[..], i, base + |order|)
    modifies dAtA
    ensures At(p, dAtA[..], j, base)
  {
    j := i;
    for n := |order| downto 0
      invariant At(p, dAtA[..], j, base + n)
    {
      j := PutItem(p, base, n, dAtA, j, items, order);
    }
  }

  /** The field blocks of a role, last field first. */
  method PutRole(ghost p: Plan, dAtA: array<byte>, i: nat, m: RoleData, order: seq<Str>) returns (j: nat)
    requires Holds(p.rs, 0, RoleScalars(m)) && ItemsStand(p.rs, 11, m.items, order)
    requires At(p, dAtA[..], i, |p.rs|)
    modifies dAtA
    ensures At(p, dAtA[..], j, 0)
  {
    j := PutItems(p, 11, dAtA, i, m.items, order);
    j := PutFields(p, dAtA, j, 0, RoleScalars(m));
  }

  method MarshalRole(m: RoleData, order: seq<Str>, dAtA: array<byte>, hi: nat) returns (n: nat)
    requires Lists(order, m.items) && |EncodeRole(m, order)| <= hi <= dAtA.Length
    modifies dAtA
    ensures n == |EncodeRole(m, order)| && Wrote(old(dAtA[..]), dAtA[..], hi - n, hi, EncodeRole(m, order))
  {
    ghost var p := Plan(dAtA[..], hi, RoleScalars(m) + ItemRecs(m.items, order), m.unknown);
    RoleParts(p.rs, m, order);
    var i := PutUnknown(p, dAtA, hi, m.unknown);
    i := PutRole(p, dAtA, i, m, order);
    Finished(p, dAtA[..], i);
    n := hi - i;
  }

  /** The sub-messages of a reply are the records of rs from the ninth to the end-th. */
  ghost predicate SubsStand(rs: seq<Rec>, m: S2CLogin, order: seq<Str>, end: nat)
    requires m.player.Some? ==> Lists(order, m.player.value.items)
  {
    var d := if m.data.Some? then 1 else 0;
    && end == 9 + d + (if m.player.Some? then 1 else 0) <= |rs|
    && (m.data.Some? ==> rs[9] == BytesR(10, EncodeLogin(m.data.value)))
    && (m.player.Some? ==> rs[9 + d] == BytesR(11, EncodeRole(m.player.value, order)))
  }

  /** Where the three parts of a reply's records stand. */
  lemma ReplyParts(rs: seq<Rec>, m: S2CLogin, order: seq<Str>)
    requires m.player.Some? ==> Lists(order, m.player.value.items)
    requires rs == ReplyScalars(m) + (ReplySubs(m, order) + StrRecs(m.connectAcc))
    ensures var end := 9 + |ReplySubs(m, order)|;
            && Holds(rs, 0, ReplyScalars(m)) && SubsStand(rs, m, order, end)
            && Holds(rs, end, StrRecs(m.connectAcc)) && |rs| == end + |m.connectAcc|
  {
    var subs := ReplySubs(m, order);
    assert m.data.Some? ==> rs[9] == subs[0];
    assert m.player.Some? ==> rs[8 + |subs|] == subs[|subs| - 1];
  }

  method MarshalReply(m: S2CLogin, order: seq<Str>, dAtA: array<byte>, hi: nat) returns (n: nat)
    requires m.player.Some? ==> Lists(order, m.player.value.items)
    requires |EncodeReply(m, order)| <= hi <= dAtA.Length
    modifies dAtA
    ensures n == |EncodeReply(m, order)| && Wrote(old(dAtA[..]), dAtA[..], hi - n, hi, EncodeReply(m, order))
  {
    ghost var p := Plan(dAtA[..], hi, ReplyScalars(m) + (ReplySubs(m, order) + StrRecs(m.connectAcc)), m.unknown);
    ReplyParts(p.rs, m, order);
    var i := PutUnknown(p, dAtA, hi, m.unknown);
    i := PutReply(p, dAtA, i, m, order, 9 + |ReplySubs(m, order)|);
    Finished(p, dAtA[..], i);
    n := hi - i;
  }

  /** The field blocks of a reply, last field first. */
  method PutReply(ghost p: Plan, dAtA: array<byte>, i: nat, m: S2CLogin, order: seq<Str>, ghost end: nat) returns (j: nat)
    requires m.player.Some? ==> Lists(order, m.player.value.items)
    requires Holds(p.rs, 0, ReplyScalars(m)) && SubsStand(p.rs, m, order, end)
    requires Holds(p.rs, end, StrRecs(m.connectAcc)) && At(p, dAtA[..], i, end + |m.connectAcc|)
    modifies dAtA
    ensures At(p, dAtA[..], j, 0)
  {
    j := PutFields(p, dAtA, i, end, StrRecs(m.connectAcc));
    j := PutSubs(p, dAtA, j, m, order, end);
    j := PutFields(p, dAtA, j, 0, ReplyScalars(m));
  }

  method PutSubs(ghost p: Plan, dAtA: array<byte>, i: nat, m: S2CLogin, order: seq<Str>, ghost end: nat) returns (j: nat)
    requires m.player.Some? ==> Lists(order, m.player.value.items)
    requires SubsStand(p.rs, m, order, end) && At(p, dAtA[..], i, end)
    modifies dAtA
    ensures At(p, dAtA[..], j, 9)
  {
    j := i;
    if m.player.Some? {
      j := PutPlayer(p, end - 1, dAtA, j, m.player.value, order);
    }
    if m.data.Some? {
      j := PutData(p, 9, dAtA, j, m.data.value);
    }
  }

  method PutData(ghost p: Plan, ghost k: nat, dAtA: array<byte>, i: nat, l: C2SLogin) returns (j: nat)
    requires k < |p.rs| && p.rs[k] == BytesR(10, EncodeLogin(l)) && At(p, dAtA[..], i, k + 1)
    modifies dAtA
    ensures At(p, dAtA[..], j, k)
  {
    RoomForBytes(p, dAtA[..], i, k, 10, EncodeLogin(l));
    ghost var s1 := dAtA[..];
    var size := MarshalLogin(l, dAtA, i);
    j := PutRecordPrefix(p, k, s1, dAtA, i, 10, size, EncodeLogin(l));
  }

  method PutPlayer(ghost p: Plan, ghost k: nat, dAtA: array<byte>, i: nat, r: RoleData, order: seq<Str>) returns (j: nat)
    requires Lists(order, r.items)
    requires k < |p.rs| && p.rs[k] == BytesR(11, EncodeRole(r, order)) && At(p, dAtA[..], i, k + 1)
    modifies dAtA
    ensures At(p, dAtA[..], j, k)
  {
    RoomForBytes(p, dAtA[..], i, k, 11, EncodeRole(r, order));
    ghost var s1 := dAtA[..];
    var size := MarshalRole(r, order, dAtA, i);
    j := PutRecordPrefix(p, k, s1, dAtA, i, 11, size, EncodeRole(r, order));
  }
}
