/** Decoding a marshalled message into another one merges it; into an empty one, it gives it back. */
module PbRoundTrip {
  import opened Bytes
  import opened Protohelpers
  import opened PbMessages
  import opened PbDecode
  import opened PbEncode
  import opened PbConcat
  import opened PbUnknown

  // ---------- records ----------

  /** The field of m that r is meant for exists and has r's shape. */
  predicate Fits(m: Msg, r: Rec) {
    1 <= r.num <= 100 &&
    match r
    case VarintR(num, _) => ShapeOf(m, num) == VarintField
    case StrR(num, b) => ShapeOf(m, num) == BytesField && Sub(m, num).None? && !IsItems(m, num) && |b| < TWO63
    case BytesR(num, b) => ShapeOf(m, num) == BytesField && |b| < TWO63
  }

  /** What a record does to a message. */
  function Apply(m: Msg, r: Rec): (res: Result<Msg>)
    requires Fits(m, r)
    ensures res.Ok? ==> SameKind(m, res.value)
  {
    match r
    case VarintR(num, v) => Ok(if v == 0 then m else SetVarint(m, num, v))
    case StrR(num, b) => Ok(if b == [] then m else SetStr(m, num, b))
    case BytesR(num, b) => SetBytes(m, num, b, |b|)
  }

  lemma RecDecodes(m: Msg, r: Rec, rest: seq<byte>)
    requires Fits(m, r) && Apply(m, r).Ok?
    ensures Unmarshal(m, RecBytes(r) + rest) == Unmarshal(Apply(m, r).value, rest)
  {
    match r {
      case VarintR(num, v) => VarintRecDecodes(m, num, v, rest);
      case StrR(num, b) =>
        if b == [] { assert RecBytes(r) + rest == rest; }
        else { assert b[..|b|] == b; BytesDecodes(m, num, b, rest, SetStr(m, num, b)); }
      case BytesR(num, b) => BytesDecodes(m, num, b, rest, Apply(m, r).value);
    }
  }

  lemma BytesDecodes(m: Msg, num: nat, b: seq<byte>, rest: seq<byte>, m': Msg)
    requires 1 <= num <= 100 && ShapeOf(m, num) == BytesField && |b| < TWO63
    requires SetBytes(m, num, b, |b|) == Ok(m')
    ensures Unmarshal(m, BytesRec(num, b) + rest) == Unmarshal(m', rest)
  {
    SetBytesStable(m, num, b, rest, |b|);
    BytesRecDecodes(m, num, b, rest, m');
  }

  /** The records from the i-th on take m to m'. */
  ghost predicate Runs(m: Msg, rs: seq<Rec>, i: nat, m': Msg)
    requires i <= |rs|
    decreases |rs| - i
  {
    if i == |rs| then m == m'
    else Fits(m, rs[i]) && Apply(m, rs[i]).Ok? && Runs(Apply(m, rs[i]).value, rs, i + 1, m')
  }

  lemma {:induction false} RunsDecodes(m: Msg, rs: seq<Rec>, i: nat, m': Msg, rest: seq<byte>)
    requires i <= |rs| && Runs(m, rs, i, m')
    ensures Unmarshal(m, Flat(rs[i..]) + rest) == Unmarshal(m', rest)
    decreases |rs| - i
  {
    if i == |rs| {
      assert Flat(rs[i..]) + rest == rest;
    } else {
      var m1 := Apply(m, rs[i]).value;
      RecDecodes(m, rs[i], Flat(rs[i + 1..]) + rest);
      RunsDecodes(m1, rs, i + 1, m', rest);
      assert rs[i..][1..] == rs[i + 1..];
      assert Flat(rs[i..]) + rest == RecBytes(rs[i]) + (Flat(rs[i + 1..]) + rest);
    }
  }

  lemma {:induction false} RunsConcat(m: Msg, rs: seq<Rec>, ts: seq<Rec>, i: nat, m1: Msg, m2: Msg)
    requires i <= |rs| && Runs(m, rs, i, m1) && Runs(m1, ts, 0, m2)
    ensures Runs(m, rs + ts, i, m2)
    decreases |rs| - i
  {
    if i == |rs| {
      RunsShift(m, rs, ts, 0, m2);
    } else {
      RunsConcat(Apply(m, rs[i]).value, rs, ts, i + 1, m1, m2);
    }
  }

  lemma {:induction false} RunsShift(m: Msg, rs: seq<Rec>, ts: seq<Rec>, i: nat, m': Msg)
    requires i <= |ts| && Runs(m, ts, i, m')
    ensures Runs(m, rs + ts, |rs| + i, m')
    decreases |ts| - i
  {
    if i < |ts| { RunsShift(Apply(m, ts[i]).value, rs, ts, i + 1, m'); }
  }

  /** All strings of rs are short enough to have a length at all in Go. */
  predicate Small(rs: seq<Rec>) { forall i :: 0 <= i < |rs| && !rs[i].VarintR? ==> |rs[i].b| < TWO63 }

  lemma {:induction false} SmallFlat(rs: seq<Rec>)
    requires |Flat(rs)| < TWO63
    ensures Small(rs)
  {
    if rs != [] {
      SmallFlat(rs[1..]);
      assert forall i :: 1 <= i < |rs| ==> rs[i] == rs[1..][i - 1];
    }
  }

  /** Messages that each record takes to the next form a run. */
  lemma RunsNext(m: Msg, rs: seq<Rec>, i: nat, n: Msg, m': Msg)
    requires i < |rs| && Fits(m, rs[i]) && Apply(m, rs[i]) == Ok(n) && Runs(n, rs, i + 1, m')
    ensures Runs(m, rs, i, m')
  {
  }

  lemma {:induction false} RunsChain(ms: seq<Msg>, rs: seq<Rec>, i: nat)
    requires i <= |rs| && |ms| == |rs| + 1
    requires forall j :: i <= j < |rs| ==> Fits(ms[j], rs[j]) && Apply(ms[j], rs[j]) == Ok(ms[j + 1])
    ensures Runs(ms[i], rs, i, ms[|rs|])
    decreases |rs| - i
  {
    if i < |rs| { RunsChain(ms, rs, i + 1); }
  }

  /** The integer conversions on the two sides of the wire are inverse. */
  lemma I32Wire(v: int32)
    ensures ToI32(ToU64(v)) == v && (ToU64(v) == 0 <==> v == 0)
  {
    if v < 0 { assert Low32(v + TWO64) == v + TWO32; }
  }

  lemma U32Wire(v: uint32)
    ensures Low32(v) == v
  {
  }

  lemma I64Wire(v: int64)
    ensures ToI64(ToU64(v)) == v && (ToU64(v) == 0 <==> v == 0)
  {
  }

  lemma S32Wire(v: int32)
    ensures Unzigzag32(Low32(Zigzag32(v))) == v && (Zigzag32(v) == 0 <==> v == 0)
  {
    ZigzagRoundTrip(v);
  }

  // ---------- ClientInfo ----------

  /** a after the first i records of b. */
  function ClientUpto(a: ClientInfo, b: ClientInfo, i: nat): ClientInfo {
    a.(devID := if i > 0 then Last(a.devID, b.devID, []) else a.devID,
       advType := if i > 1 then Last(a.advType, b.advType, []) else a.advType,
       phoneModel := if i > 2 then Last(a.phoneModel, b.phoneModel, []) else a.phoneModel,
       sysVersion := if i > 3 then Last(a.sysVersion, b.sysVersion, []) else a.sysVersion,
       machine := if i > 4 then Last(a.machine, b.machine, []) else a.machine,
       ip := if i > 5 then Last(a.ip, b.ip, []) else a.ip)
  }

  lemma ClientStep(a: ClientInfo, b: ClientInfo, i: nat)
    requires i < 6 && Small(ClientRecs(b))
    ensures var m, r := OfClient(ClientUpto(a, b, i)), ClientRecs(b)[i];
            Fits(m, r) && Apply(m, r) == Ok(OfClient(ClientUpto(a, b, i + 1)))
  {
  }

  lemma ClientRuns(a: ClientInfo, b: ClientInfo)
    requires Small(ClientRecs(b))
    ensures Runs(OfClient(a), ClientRecs(b), 0, OfClient(ClientUpto(a, b, 6)))
  {
    var ms := seq(7, i requires 0 <= i < 7 => OfClient(ClientUpto(a, b, i)));
    forall j | 0 <= j < 6
      ensures Fits(ms[j], ClientRecs(b)[j]) && Apply(ms[j], ClientRecs(b)[j]) == Ok(ms[j + 1])
    {
      ClientStep(a, b, j);
    }
    RunsChain(ms, ClientRecs(b), 0);
  }

  /** Decoding the bytes of b into a is merging b into a. */
  lemma ClientDecodes(a: ClientInfo, b: ClientInfo)
    requires Kept(OfClient(b)) && |EncodeClient(b)| < TWO63
    ensures Unmarshal(OfClient(a), EncodeClient(b)) == Ok(OfClient(MergeClient(a, b)))
  {
    var rs := ClientRecs(b);
    SmallFlat(rs);
    ClientRuns(a, b);
    RunsAllDecode(OfClient(a), rs, OfClient(ClientUpto(a, b, 6)), OfClient(b));
    assert MergeClient(a, b) == ClientUpto(a, b, 6).(unknown := a.unknown + b.unknown);
  }

  /** The records of b, then its unknown fields. */
  lemma RunsAllDecode(m: Msg, rs: seq<Rec>, m': Msg, b: Msg)
    requires Runs(m, rs, 0, m') && SameKind(m', b) && Unknowns(b, UnknownOf(b))
    ensures Unmarshal(m, Flat(rs) + UnknownOf(b)) == Ok(AddUnknown(m', UnknownOf(b)))
  {
    assert rs[0..] == rs;
    RunsDecodes(m, rs, 0, m', UnknownOf(b));
    UnknownsKind(b, m', UnknownOf(b));
    UnknownsDecode(m', UnknownOf(b));
  }

  // ---------- C2SLogin ----------

  function LoginUpto(a: C2SLogin, b: C2SLogin, i: nat): C2SLogin {
    a.(sdkType := if i > 0 then Last(a.sdkType, b.sdkType, 0) else a.sdkType,
       account := if i > 1 then Last(a.account, b.account, []) else a.account,
       token := if i > 2 then Last(a.token, b.token, []) else a.token,
       channel := if i > 3 then Last(a.channel, b.channel, 0) else a.channel,
       dev := if i > 4 then Last(a.dev, b.dev, []) else a.dev,
       area := if i > 5 then Last(a.area, b.area, 0) else a.area,
       version := if i > 6 then Last(a.version, b.version, []) else a.version,
       reconnect := if i > 7 then a.reconnect || b.reconnect else a.reconnect)
  }

  lemma LoginStep(a: C2SLogin, b: C2SLogin, i: nat)
    requires i < 8 && Small(LoginScalars(b))
    ensures var m, r := OfLogin(LoginUpto(a, b, i)), LoginScalars(b)[i];
            Fits(m, r) && Apply(m, r) == Ok(OfLogin(LoginUpto(a, b, i + 1)))
  {
    I32Wire(b.sdkType); U32Wire(b.channel); U32Wire(b.area);
  }

  lemma LoginScalarsRun(a: C2SLogin, b: C2SLogin)
    requires Small(LoginScalars(b))
    ensures Runs(OfLogin(a), LoginScalars(b), 0, OfLogin(LoginUpto(a, b, 8)))
  {
    var ms := seq(9, i requires 0 <= i < 9 => OfLogin(LoginUpto(a, b, i)));
    forall j | 0 <= j < 8
      ensures Fits(ms[j], LoginScalars(b)[j]) && Apply(ms[j], LoginScalars(b)[j]) == Ok(ms[j + 1])
    {
      LoginStep(a, b, j);
    }
    RunsChain(ms, LoginScalars(b), 0);
  }

  /** A sub-message record that is present or left out. */
  lemma SubRun(m: Msg, num: nat, b: seq<byte>, sub: Msg)
    requires 1 <= num <= 100 && ShapeOf(m, num) == BytesField && Sub(m, num).Some? && |b| < TWO63
    requires Unmarshal(Sub(m, num).value, b) == Ok(sub)
    ensures Runs(m, [BytesR(num, b)], 0, SetSub(m, num, sub))
  {
    assert b[..|b|] == b;
    RunsChain([m, SetSub(m, num, sub)], [BytesR(num, b)], 0);
  }

  lemma LoginClientRuns(a: C2SLogin, b: C2SLogin, m: C2SLogin)
    requires b.cliInfo.Some? && Kept(OfClient(b.cliInfo.value)) && |EncodeClient(b.cliInfo.value)| < TWO63
    requires m.cliInfo == a.cliInfo
    ensures Runs(OfLogin(m), [BytesR(10, EncodeClient(b.cliInfo.value))], 0, OfLogin(m.(cliInfo := MergeLogin(a, b).cliInfo)))
  {
    var prev := if a.cliInfo.None? then NoClient else a.cliInfo.value;
    ClientDecodes(prev, b.cliInfo.value);
    SubRun(OfLogin(m), 10, EncodeClient(b.cliInfo.value), OfClient(MergeClient(prev, b.cliInfo.value)));
  }

  /** Decoding the bytes of b into a is merging b into a, the nested ClientInfo included. */
  lemma LoginDecodes(a: C2SLogin, b: C2SLogin)
    requires Kept(OfLogin(b)) && |EncodeLogin(b)| < TWO63
    ensures Unmarshal(OfLogin(a), EncodeLogin(b)) == Ok(OfLogin(MergeLogin(a, b)))
  {
    var rs, m8 := LoginRecs(b), LoginUpto(a, b, 8);
    SmallFlat(rs);
    assert forall i :: 0 <= i < 8 ==> LoginScalars(b)[i] == rs[i];
    LoginScalarsRun(a, b);
    var m := m8.(cliInfo := MergeLogin(a, b).cliInfo);
    assert MergeLogin(a, b) == m.(unknown := a.unknown + b.unknown);
    if b.cliInfo.None? {
      assert rs == LoginScalars(b);
    } else {
      var sub := [BytesR(10, EncodeClient(b.cliInfo.value))];
      assert rs == LoginScalars(b) + sub && rs[8] == sub[0];
      LoginClientRuns(a, b, m8);
      RunsConcat(OfLogin(a), LoginScalars(b), sub, 0, OfLogin(m8), OfLogin(m));
    }
    RunsAllDecode(OfLogin(a), rs, OfLogin(m), OfLogin(b));
  }
}
