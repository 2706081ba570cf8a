/** The etcd keys of services: how they are made and how they are read back. */
module DiscoveryPath {
  import opened Bytes

  // ---------- decimal numbers ----------

  function Digit(d: nat): char
    requires d < 10
  {
    "0123456789"[d]
  }

  /** The digits of n, as %d prints them. */
  function Digits(n: nat): (s: string)
    ensures s != []
  {
    if n < 10 then [Digit(n)] else Digits(n / 10) + [Digit(n % 10)]
  }

  function Itoa(n: int): string { if n < 0 then "-" + Digits(-n) else Digits(n) }

  predicate IsDigit(c: char) { '0' <= c <= '9' }

  function DigitValue(c: char): nat
    requires IsDigit(c)
  {
    c as int - '0' as int
  }

  function Value(s: string): nat
    requires AllDigits(s)
  {
    if s == [] then 0 else 10 * Value(s[..|s| - 1]) + DigitValue(s[|s| - 1])
  }

  predicate AllDigits(s: string) { forall i :: 0 <= i < |s| ==> IsDigit(s[i]) }

  /** strconv.Atoi: an optional sign, at least one digit, and the range of a 64-bit int. */
  function Atoi(s: string): Option<int> {
    if s != [] && (s[0] == '-' || s[0] == '+') then Signed(s[0] == '-', s[1..]) else Signed(false, s)
  }

  function Signed(negative: bool, digits: string): Option<int> {
    if digits == [] || !AllDigits(digits) then None
    else
      var v: int := Value(digits);
      InRange(if negative then -v else v)
  }

  function InRange(n: int): Option<int> { if -TWO63 <= n < TWO63 then Some(n) else None }

  lemma {:induction false} DigitsValue(n: nat)
    ensures AllDigits(Digits(n)) && Value(Digits(n)) == n
  {
    if n < 10 {
      assert Digits(n)[..0] == [];
    } else {
      DigitsValue(n / 10);
      var s := Digits(n);
      assert s[..|s| - 1] == Digits(n / 10) && s[|s| - 1] == Digit(n % 10);
    }
  }

  predicate SlashFree(s: string) { '/' !in s }

  lemma DigitsRead(negative: bool, n: nat)
    ensures Signed(negative, Digits(n)) == InRange(if negative then 0 - n else n) && SlashFree(Digits(n))
  {
    DigitsValue(n);
  }

  lemma ItoaRoundTrip(n: int)
    requires -TWO63 <= n < TWO63
    ensures Atoi(Itoa(n)) == Some(n) && SlashFree(Itoa(n)) && Itoa(n) != []
  {
    if n < 0 {
      DigitsRead(true, -n);
      assert Itoa(n)[1..] == Digits(-n) && Itoa(n)[0] == '-';
    } else {
      DigitsRead(false, n);
      DigitsValue(n);
      assert IsDigit(Itoa(n)[0]);
    }
  }

  // ---------- keys ----------

  function EtcdSvcPrefix(prefix: string, svc: string): string { prefix + "/" + svc + "/" }

  function EtcdPath(prefix: string, svc: string, id: int32): string { prefix + "/" + svc + "/" + Itoa(id) }

  function TrimLeft(s: string): string {
    if s != [] && s[0] == '/' then TrimLeft(s[1..]) else s
  }

  function TrimRight(s: string): string {
    if s != [] && s[|s| - 1] == '/' then TrimRight(s[..|s| - 1]) else s
  }

  /** strings.Split at each slash. */
  function Split(s: string): (parts: seq<string>)
    ensures parts != [] && forall i :: 0 <= i < |parts| ==> SlashFree(parts[i])
  {
    if s == [] then [[]]
    else
      var parts, c := Split(s[..|s| - 1]), s[|s| - 1];
      if c == '/' then parts + [[]] else parts[|parts| - 1 := parts[|parts| - 1] + [c]]
  }

  /** int32(n). */
  function Int32(n: int): int32 {
    var u := n % 0x1_0000_0000; if u < 0x8000_0000 then u else u - 0x1_0000_0000
  }

  lemma Int32Same(n: int32)
    ensures Int32(n) == n
  {
  }

  /** parseServicePath: the last two parts, the number cut down to 32 bits. */
  function ParseServicePath(key: string): Option<(string, int32)> { ParseParts(Split(TrimRight(TrimLeft(key)))) }

  function ParseParts(parts: seq<string>): Option<(string, int32)> {
    if |parts| < 2 then None
    else
      var n := Atoi(parts[|parts| - 1]);
      if n.None? then None else Some((parts[|parts| - 2], Int32(n.value)))
  }

  lemma {:induction false} SplitLast(a: string, b: string)
    requires SlashFree(b)
    ensures Split(a + "/" + b) == Split(a) + [b]
  {
    var s := a + "/" + b;
    if b == [] {
      assert s[..|s| - 1] == a;
    } else {
      var n := |b| - 1;
      SplitLast(a, b[..n]);
      assert s[..|s| - 1] == a + "/" + b[..n];
      assert b == b[..n] + [b[n]];
    }
  }

  lemma {:induction false} SplitOne(b: string)
    requires SlashFree(b)
    ensures Split(b) == [b]
  {
    if b != [] {
      SplitOne(b[..|b| - 1]);
      assert b == b[..|b| - 1] + [b[|b| - 1]];
    }
  }

  predicate AllSlashes(s: string) { forall i :: 0 <= i < |s| ==> s[i] == '/' }

  lemma {:induction false} TrimLeftConcat(p: string, r: string)
    ensures TrimLeft(p + r) == if AllSlashes(p) then TrimLeft(r) else TrimLeft(p) + r
  {
    if p == [] {
      assert p + r == r;
    } else if p[0] == '/' {
      assert (p + r)[1..] == p[1..] + r;
      TrimLeftConcat(p[1..], r);
      assert AllSlashes(p[1..]) ==> AllSlashes(p) by {
        assert forall i :: 1 <= i < |p| ==> p[i] == p[1..][i - 1];
      }
    }
  }

  /** What is split is the key without its leading slashes: it ends in a digit. */
  lemma Trimmed(prefix: string, svc: string, id: int32)
    ensures TrimRight(TrimLeft(EtcdPath(prefix, svc, id))) == TrimLeft(EtcdPath(prefix, svc, id))
  {
    ItoaRoundTrip(id);
    var front := prefix + "/" + svc + "/";
    var key := EtcdPath(prefix, svc, id);
    TrimLeftConcat(front, Itoa(id));
    var t := TrimLeft(key);
    assert TrimLeft(Itoa(id)) == Itoa(id);
    assert t[|t| - 1] == Itoa(id)[|Itoa(id)| - 1];
  }

  /** The key without its leading slashes, when the service name is not empty or the prefix is more than slashes. */
  lemma TrimmedParts(prefix: string, svc: string, id: int32)
    requires SlashFree(svc) && (svc != "" || !AllSlashes(prefix))
    ensures var t := TrimLeft(EtcdPath(prefix, svc, id));
            t == (if AllSlashes(prefix) then svc else TrimLeft(prefix) + "/" + svc) + "/" + Itoa(id)
  {
    var rest := "/" + (svc + ("/" + Itoa(id)));
    Associate(prefix, svc, Itoa(id));
    TrimLeftConcat(prefix, rest);
    if AllSlashes(prefix) {
      FirstNotSlash(svc, Itoa(id));
    } else {
      Associate(TrimLeft(prefix), svc, Itoa(id));
    }
  }

  lemma Associate(a: string, b: string, c: string)
    ensures a + "/" + b + "/" + c == a + ("/" + (b + ("/" + c)))
    ensures b + "/" + c == b + ("/" + c)
  {
  }

  lemma FirstNotSlash(svc: string, tail: string)
    requires SlashFree(svc) && svc != ""
    ensures TrimLeft("/" + (svc + ("/" + tail))) == svc + "/" + tail
  {
    var s := svc + ("/" + tail);
    assert ("/" + s)[1..] == s && s[0] == svc[0] && svc[0] in svc;
    assert TrimLeft(s) == s;
    assert s == svc + "/" + tail;
  }

  lemma RoundTripHolds(prefix: string, svc: string, id: int32)
    requires SlashFree(svc) && (svc != "" || !AllSlashes(prefix))
    ensures ParseServicePath(EtcdPath(prefix, svc, id)) == Some((svc, id))
  {
    ItoaRoundTrip(id);
    Trimmed(prefix, svc, id);
    TrimmedParts(prefix, svc, id);
    var front := if AllSlashes(prefix) then svc else TrimLeft(prefix) + "/" + svc;
    SplitLast(front, Itoa(id));
    FrontEndsIn(prefix, svc);
    Int32Same(id);
    var parts := Split(front) + [Itoa(id)];
    assert parts[|parts| - 1] == Itoa(id) && parts[|parts| - 2] == svc;
    assert ParseParts(parts) == Some((svc, id));
  }

  lemma FrontEndsIn(prefix: string, svc: string)
    requires SlashFree(svc)
    ensures var parts := Split(if AllSlashes(prefix) then svc else TrimLeft(prefix) + "/" + svc);
            parts[|parts| - 1] == svc
  {
    if AllSlashes(prefix) { SplitOne(svc); } else { SplitLast(TrimLeft(prefix), svc); }
  }

  lemma EmptyNameFails(prefix: string, id: int32)
    requires AllSlashes(prefix)
    ensures ParseServicePath(EtcdPath(prefix, "", id)).None?
  {
    ItoaRoundTrip(id);
    Trimmed(prefix, "", id);
    var front := prefix + "/" + "" + "/";
    TrimLeftConcat(front, Itoa(id));
    assert TrimLeft(Itoa(id)) == Itoa(id);
    SplitOne(Itoa(id));
  }

  /** Reading back a key gives its service and node, for every node id, if and only if the service name has no
      slash, and is not empty under a prefix that is nothing but slashes. */
  lemma PathRoundTrip(prefix: string, svc: string, id: int32)
    ensures ParseServicePath(EtcdPath(prefix, svc, id)) == Some((svc, id))
            <==> SlashFree(svc) && (svc != "" || !AllSlashes(prefix))
  {
    if SlashFree(svc) {
      if svc == "" && AllSlashes(prefix) {
        EmptyNameFails(prefix, id);
      } else {
        RoundTripHolds(prefix, svc, id);
      }
    }
  }

  /** A name with a slash is read back as what follows its last slash. */
  lemma NestedMisread(prefix: string, a: string, b: string, id: int32)
    requires SlashFree(b) && b != ""
    ensures ParseServicePath(EtcdPath(prefix, a + "/" + b, id)) == Some((b, id)) && a + "/" + b != b
  {
    assert EtcdPath(prefix, a + "/" + b, id) == EtcdPath(prefix + "/" + a, b, id);
    RoundTripHolds(prefix + "/" + a, b, id);
    assert |a + "/" + b| > |b|;
  }

  lemma {:induction false} SameName(svc: string, other: string, tail: string)
    requires SlashFree(svc) && SlashFree(other) && svc + "/" <= other + "/" + tail
    ensures svc == other
  {
    var a, b := svc + "/", other + "/" + tail;
    if svc == [] || other == [] {
      assert a[0] == b[0];
    } else {
      assert a[0] == b[0] && a[1..] == svc[1..] + "/" && b[1..] == other[1..] + "/" + tail;
      SameName(svc[1..], other[1..], tail);
      assert svc == [svc[0]] + svc[1..] && other == [other[0]] + other[1..];
    }
  }

  /** The watch prefix of a service selects the keys of that service and of no other. */
  lemma PrefixSelects(prefix: string, svc: string, other: string, id: int32)
    requires SlashFree(svc) && SlashFree(other)
    ensures EtcdSvcPrefix(prefix, svc) <= EtcdPath(prefix, other, id) <==> svc == other
  {
    var a, b, n := EtcdSvcPrefix(prefix, svc), EtcdPath(prefix, other, id), |prefix| + 1;
    assert a[n..] == svc + "/" && b[n..] == other + "/" + Itoa(id);
    if a <= b {
      assert a == b[..|a|] && a[n..] == b[n..][..|a| - n];
      SameName(svc, other, Itoa(id));
    }
  }
}
