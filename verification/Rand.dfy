/** Random selection. A draw of the generator is a parameter; what is proved holds for every draw. */
module Rand {
  import opened Bytes

  // ---------- ranges over every integer type ----------

  /** An integer type of Go: modulus is two to the number of bits. */
  datatype Kind = Kind(bits: nat, signed: bool) {
    function Modulus(): int {
      if bits == 8 then 0x100 else if bits == 16 then 0x1_0000 else if bits == 32 then 0x1_0000_0000
      else 0x1_0000_0000_0000_0000
    }

    predicate Holds(v: int) {
      if signed then -Modulus() / 2 <= v < Modulus() / 2 else 0 <= v < Modulus()
    }

    /** T(u): the low bits, read as the type reads them. */
    function Of(u: nat): (v: int)
      ensures Holds(v)
    {
      var low := u % Modulus();
      if signed && low >= Modulus() / 2 then low - Modulus() else low
    }
  }

  predicate KindOk(k: Kind) { k.bits == 8 || k.bits == 16 || k.bits == 32 || k.bits == 64 }

  /** uint64(v), and the wrap-around of uint64 arithmetic. */
  function U64(v: int): uint64 { v % 0x1_0000_0000_0000_0000 }

  function Lower(a: int, b: int): int { if a < b then a else b }

  function Upper(a: int, b: int): int { if a < b then b else a }

  /** The argument of rand.N in RandRange; RandRangeInc asks for one more, or for the whole of uint64. */
  function Diff(min: int, max: int): uint64 { U64(U64(Upper(min, max)) - U64(Lower(min, max))) }

  function RandRange(k: Kind, min: int, max: int, draw: nat): int {
    if min == max then min else k.Of(U64(U64(Lower(min, max)) + draw))
  }

  function RandRangeInc(k: Kind, min: int, max: int, draw: nat): int {
    if min == max then min
    else if Diff(min, max) == 0xffff_ffff_ffff_ffff then k.Of(draw)
    else k.Of(U64(U64(Lower(min, max)) + draw))
  }

  /** How many values the generator is asked to choose from. */
  function IncDraws(min: int, max: int): nat {
    if min == max then 1 else Diff(min, max) + 1
  }

  /** Converting to uint64 and back loses nothing. */
  lemma OfU64(k: Kind, v: int)
    requires KindOk(k) && k.Holds(v)
    ensures k.Of(U64(v)) == v
  {
    if v >= 0 {
      assert U64(v) == v && v < k.Modulus() && v % k.Modulus() == v;
    } else {
      assert U64(v) == v + 0x1_0000_0000_0000_0000;
      NegativeLow(k, v);
    }
  }

  lemma NegativeLow(k: Kind, v: int)
    requires KindOk(k) && -k.Modulus() <= v < 0
    ensures (v + 0x1_0000_0000_0000_0000) % k.Modulus() == v + k.Modulus()
  {
    var q := if k.bits == 8 then 0x100_0000_0000_0000 else if k.bits == 16 then 0x1_0000_0000_0000
             else if k.bits == 32 then 0x1_0000_0000 else 1;
    assert q * k.Modulus() == 0x1_0000_0000_0000_0000;
    DivModUnique(v + 0x1_0000_0000_0000_0000, k.Modulus(), q - 1, v + k.Modulus());
  }

  lemma U64Plus(a: int, d: int)
    ensures U64(U64(a) + d) == U64(a + d)
  {
  }

  lemma DiffExact(k: Kind, min: int, max: int)
    requires KindOk(k) && k.Holds(min) && k.Holds(max)
    ensures Diff(min, max) == Upper(min, max) - Lower(min, max)
  {
    var lo, hi := Lower(min, max), Upper(min, max);
    Apart(k, lo, hi);
    DiffOf(lo, hi);
  }

  lemma DiffOf(lo: int, hi: int)
    requires 0 <= hi - lo < 0x1_0000_0000_0000_0000
    ensures U64(U64(hi) - U64(lo)) == hi - lo
  {
    U64Minus(hi, lo);
  }

  lemma Apart(k: Kind, lo: int, hi: int)
    requires KindOk(k) && k.Holds(lo) && k.Holds(hi) && lo <= hi
    ensures hi - lo < 0x1_0000_0000_0000_0000
  {
  }

  lemma U64Minus(a: int, b: int)
    ensures U64(U64(a) - U64(b)) == U64(a - b)
  {
  }

  /** Despite every wrap-around, the result is the lower bound plus the draw. */
  lemma RangeShifts(k: Kind, min: int, max: int, draw: nat)
    requires KindOk(k) && k.Holds(min) && k.Holds(max) && min != max
    ensures draw <= Upper(min, max) - Lower(min, max) ==> k.Of(U64(U64(Lower(min, max)) + draw)) == Lower(min, max) + draw
  {
    var lo := Lower(min, max);
    if draw <= Upper(min, max) - lo {
      U64Plus(lo, draw);
      OfU64(k, lo + draw);
    }
  }

  /** How many values RandRange chooses from: with equal bounds there is nothing to draw. */
  function RangeDraws(min: int, max: int): nat { if min == max then 1 else Diff(min, max) }

  /** RandRange maps its draws one-to-one onto the half-open interval between its arguments, in either order, or
      onto the one argument when they are equal. */
  lemma RandRangeExact(k: Kind, min: int, max: int, v: int)
    requires KindOk(k) && k.Holds(min) && k.Holds(max)
    ensures Lower(min, max) <= v < Upper(min, max) || v == min == max
            <==> exists d :: 0 <= d < RangeDraws(min, max) && RandRange(k, min, max, d) == v
    ensures forall d, e :: 0 <= d < e < RangeDraws(min, max) ==> RandRange(k, min, max, d) != RandRange(k, min, max, e)
  {
    DiffExact(k, min, max);
    var lo := Lower(min, max);
    if min == max {
      assert RandRange(k, min, max, 0) == min;
    } else {
      forall d | 0 <= d < Diff(min, max) ensures RandRange(k, min, max, d) == lo + d { RangeShifts(k, min, max, d); }
      if lo <= v < Upper(min, max) { assert RandRange(k, min, max, v - lo) == v; }
    }
  }

  /** A result of RandRange lies in the half-open interval if and only if its arguments differ. */
  lemma InHalfOpen(k: Kind, min: int, max: int, draw: nat)
    requires KindOk(k) && k.Holds(min) && k.Holds(max) && draw < RangeDraws(min, max)
    ensures Lower(min, max) <= RandRange(k, min, max, draw) < Upper(min, max) <==> min != max
  {
    RandRangeExact(k, min, max, RandRange(k, min, max, draw));
  }

  /** RandRangeInc maps its draws one-to-one onto the closed interval, the whole of a 64-bit type included. */
  lemma RandRangeIncExact(k: Kind, min: int, max: int, v: int)
    requires KindOk(k) && k.Holds(min) && k.Holds(max)
    ensures Lower(min, max) <= v <= Upper(min, max)
            <==> exists d :: 0 <= d < IncDraws(min, max) && RandRangeInc(k, min, max, d) == v
    ensures forall d, e :: 0 <= d < e < IncDraws(min, max) ==> RandRangeInc(k, min, max, d) != RandRangeInc(k, min, max, e)
  {
    DiffExact(k, min, max);
    var lo := Lower(min, max);
    if min == max {
      assert RandRangeInc(k, min, max, 0) == min;
    } else if Diff(min, max) == 0xffff_ffff_ffff_ffff {
      WholeType(k, min, max);
      if k.Holds(v) {
        OfU64(k, v);
        assert RandRangeInc(k, min, max, U64(v)) == v;
      }
      forall d | 0 <= d < IncDraws(min, max) ensures U64(RandRangeInc(k, min, max, d)) == d { WholeDraw(k, d); }
    } else {
      forall d | 0 <= d < IncDraws(min, max) ensures RandRangeInc(k, min, max, d) == lo + d { IncShifts(k, min, max, d); }
      if lo <= v <= Upper(min, max) { assert RandRangeInc(k, min, max, v - lo) == v; }
    }
  }

  lemma IncShifts(k: Kind, min: int, max: int, d: nat)
    requires KindOk(k) && k.Holds(min) && k.Holds(max) && min != max
    requires Diff(min, max) < 0xffff_ffff_ffff_ffff && d < IncDraws(min, max)
    ensures RandRangeInc(k, min, max, d) == Lower(min, max) + d
  {
    DiffExact(k, min, max);
    RangeShifts(k, min, max, d);
  }

  /** Only the two bounds of a 64-bit type are so far apart. */
  lemma WholeType(k: Kind, min: int, max: int)
    requires KindOk(k) && k.Holds(min) && k.Holds(max) && Upper(min, max) - Lower(min, max) == 0xffff_ffff_ffff_ffff
    ensures k.bits == 64 && forall v :: k.Holds(v) <==> Lower(min, max) <= v <= Upper(min, max)
  {
  }

  lemma WholeDraw(k: Kind, d: nat)
    requires k.bits == 64 && d <= 0xffff_ffff_ffff_ffff
    ensures U64(k.Of(d)) == d
  {
  }

  // ---------- by weight ----------

  datatype Data<T> = Data(weight: int, value: T)

  function Sum<T>(ds: seq<Data<T>>): int { if ds == [] then 0 else Sum(ds[..|ds| - 1]) + ds[|ds| - 1].weight }

  ghost predicate Positive<T>(ds: seq<Data<T>>) { forall i :: 0 <= i < |ds| ==> 0 < ds[i].weight <= 0x7fff_ffff }

  lemma SumSnoc<T>(ds: seq<Data<T>>, d: Data<T>)
    ensures Sum(ds + [d]) == Sum(ds) + d.weight
  {
    assert (ds + [d])[..|ds|] == ds;
  }

  /** With int32 weights the int64 total of fewer than 2^32 entries does not overflow. */
  lemma {:induction false} SumFits<T>(ds: seq<Data<T>>)
    requires Positive(ds)
    ensures 0 <= Sum(ds) <= |ds| * 0x7fff_ffff
    ensures |ds| <= 0x1_0000_0000 ==> Sum(ds) < 0x8000_0000_0000_0000
  {
    if ds != [] { SumFits(ds[..|ds| - 1]); }
  }

  lemma {:induction false} SumMonotone<T>(ds: seq<Data<T>>, i: nat, j: nat)
    requires Positive(ds) && i <= j <= |ds|
    ensures Sum(ds[..i]) <= Sum(ds[..j])
  {
    if i < j {
      SumMonotone(ds, i, j - 1);
      assert ds[..j][..j - 1] == ds[..j - 1];
    }
  }

  /** The draw rate falls into the stretch of entry i, which is weight long. */
  ghost predicate Hits<T>(ds: seq<Data<T>>, rate: int, i: nat) {
    i < |ds| && Sum(ds[..i]) <= rate < Sum(ds[..i]) + ds[i].weight
  }

  lemma PrefixStep<T>(ds: seq<Data<T>>, i: nat)
    requires i < |ds|
    ensures Sum(ds[..i + 1]) == Sum(ds[..i]) + ds[i].weight
  {
    assert ds[..i + 1][..i] == ds[..i];
  }

  /** The stretches do not overlap: each draw belongs to one entry. */
  lemma HitsOne<T>(ds: seq<Data<T>>, rate: int, i: nat, j: nat)
    requires Positive(ds) && Hits(ds, rate, i) && Hits(ds, rate, j)
    ensures i == j
  {
    PrefixStep(ds, i);
    PrefixStep(ds, j);
    if i < j { SumMonotone(ds, i + 1, j); }
    if j < i { SumMonotone(ds, j + 1, i); }
  }

  /** The n numbers from lo on. */
  function Stretch(lo: int, n: nat): (s: set<int>)
    ensures |s| == n && forall r :: r in s <==> lo <= r < lo + n
  {
    if n == 0 then {} else Stretch(lo, n - 1) + {lo + n - 1}
  }

  /** Of the draws below the total, exactly weight many go to entry i. */
  lemma ExactShare<T>(ds: seq<Data<T>>, i: nat)
    requires Positive(ds) && i < |ds|
    ensures |set rate | 0 <= rate < Sum(ds) && Hits(ds, rate, i)| == ds[i].weight
  {
    var lo := Sum(ds[..i]);
    PrefixStep(ds, i);
    SumMonotone(ds, 0, i);
    SumMonotone(ds, i + 1, |ds|);
    assert ds[..|ds|] == ds;
    assert (set rate | 0 <= rate < Sum(ds) && Hits(ds, rate, i)) == Stretch(lo, ds[i].weight);
  }

  /** Entry i filled with the last, which is dropped. */
  function SwapRemove<X>(s: seq<X>, i: nat): seq<X>
    requires i < |s|
  {
    s[i := s[|s| - 1]][..|s| - 1]
  }

  lemma SwapRemoveKeeps<X>(s: seq<X>, i: nat)
    requires i < |s|
    ensures multiset(SwapRemove(s, i)) + multiset{s[i]} == multiset(s)
  {
    var n := |s| - 1;
    assert s == s[..n] + [s[n]];
    if i < n {
      assert SwapRemove(s, i) == s[..n][i := s[n]];
    } else {
      assert SwapRemove(s, i) == s[..n];
    }
  }

  lemma {:induction false} SumUpdate<T>(ds: seq<Data<T>>, i: nat, d: Data<T>)
    requires i < |ds|
    ensures Sum(ds[i := d]) == Sum(ds) - ds[i].weight + d.weight
  {
    var n := |ds| - 1;
    if i < n {
      SumUpdate(ds[..n], i, d);
      assert ds[i := d][..n] == ds[..n][i := d];
    } else {
      assert ds[i := d][..n] == ds[..n];
    }
  }

  lemma SwapRemoveSum<T>(ds: seq<Data<T>>, i: nat)
    requires i < |ds|
    ensures Sum(SwapRemove(ds, i)) == Sum(ds) - ds[i].weight
  {
    SumUpdate(ds, i, ds[|ds| - 1]);
  }

  class RandByWeight<T> {
    var datas: seq<Data<T>>
    var max: int

    ghost predicate Valid()
      reads this
    {
      Positive(datas) && max == Sum(datas)
    }

    constructor ()
      ensures Valid() && datas == []
    {
      datas, max := [], 0;
    }

    /** Add: a weight that is not positive is ignored. */
    method Add(weight: int32, v: T)
      requires Valid()
      modifies this
      ensures Valid() && datas == old(datas) + if weight > 0 then [Data(weight, v)] else []
    {
      if weight <= 0 { return; }
      SumSnoc(datas, Data(weight, v));
      datas := datas + [Data(weight, v)];
      max := max + weight;
    }

    /** The loop of Get and of GetAndDelete, on the draw rate. */
    method Find(rate: int) returns (i: nat)
      requires Valid() && 0 <= rate < max
      ensures Hits(datas, rate, i)
    {
      var cr := 0;
      i := 0;
      assert datas[..|datas|] == datas;
      while i < |datas|
        invariant i <= |datas| && cr == Sum(datas[..i]) && cr <= rate
        invariant i == |datas| ==> cr == max
      {
        PrefixStep(datas, i);
        cr := cr + datas[i].weight;
        if cr > rate { return; }
        i := i + 1;
      }
    }

    /** Get: refused exactly when there is no entry, whatever rate is then. */
    method Get(rate: int) returns (r: Option<T>, ghost i: nat)
      requires Valid() && (datas != [] ==> 0 <= rate < max)
      ensures r.None? <==> datas == []
      ensures r.Some? ==> Hits(datas, rate, i) && r.value == datas[i].value
    {
      i := 0;
      SumFits(datas);
      if !(|datas| > 0 && max > 0) {
        NonEmptySum(datas);
        return None, 0;
      }
      var k := Find(rate);
      return Some(datas[k].value), k;
    }

    /** GetAndDelete: as Get, and the entry is gone. */
    method GetAndDelete(rate: int) returns (r: Option<T>, ghost i: nat)
      requires Valid() && (datas != [] ==> 0 <= rate < max)
      modifies this
      ensures Valid()
      ensures r.None? <==> old(datas) == []
      ensures r.None? ==> datas == old(datas)
      ensures r.Some? ==> Hits(old(datas), rate, i) && r.value == old(datas)[i].value && datas == SwapRemove(old(datas), i)
    {
      i := 0;
      if !(|datas| > 0 && max > 0) {
        NonEmptySum(datas);
        return None, 0;
      }
      var k := Find(rate);
      var v := datas[k];
      SwapRemoveSum(datas, k);
      max := max - v.weight;
      var lastIdx := |datas| - 1;
      datas := datas[k := datas[lastIdx]];
      datas := datas[..lastIdx];
      return Some(v.value), k;
    }

    /** Taking entries until none is left yields each entry once, whatever the draws are. */
    method Drain() returns (out: seq<T>)
      requires Valid()
      modifies this
      ensures Valid() && datas == [] && max == 0
      ensures multiset(out) == multiset(Values(old(datas)))
    {
      out := [];
      ghost var all := Values(datas);
      while |datas| > 0
        invariant Valid() && multiset(out) + multiset(Values(datas)) == multiset(all)
        decreases |datas|
      {
        NonEmptySum(datas);
        var rate :| 0 <= rate < max;
        ghost var was := datas;
        var r, i := GetAndDelete(rate);
        ValuesSwapRemove(was, i);
        SwapRemoveKeeps(Values(was), i);
        out := out + [r.value];
      }
      assert Values(datas) == [];
    }
  }

  lemma NonEmptySum<T>(ds: seq<Data<T>>)
    requires Positive(ds)
    ensures ds != [] <==> Sum(ds) > 0
  {
    if ds != [] { SumFits(ds[..|ds| - 1]); }
  }

  function Values<T>(ds: seq<Data<T>>): (r: seq<T>)
    ensures |r| == |ds|
  {
    seq(|ds|, i requires 0 <= i < |ds| => ds[i].value)
  }

  lemma ValuesSwapRemove<T>(ds: seq<Data<T>>, i: nat)
    requires i < |ds|
    ensures Values(SwapRemove(ds, i)) == SwapRemove(Values(ds), i)
  {
  }

  // ---------- without repetition ----------

  class RandUnique<T(0)> {
    var data: seq<T>

    constructor (values: seq<T>)
      ensures data == values
    {
      data := values;
    }

    /** Get with the draw cur: refused when nothing is left. */
    method Get(cur: nat) returns (r: Option<T>)
      requires data != [] ==> cur < |data|
      modifies this
      ensures r.None? <==> old(data) == []
      ensures r.None? ==> data == []
      ensures r.Some? ==> r.value == old(data)[cur] && data == SwapRemove(old(data), cur)
    {
      var n := |data|;
      if n == 0 { return None; }
      r := Some(data[cur]);
      data := data[cur := data[n - 1]];
      data := data[..n - 1];
    }

    /** Drawn to the end, the values come out in some order, each as often as it was put in. */
    method Drain() returns (out: seq<T>)
      modifies this
      ensures data == [] && multiset(out) == multiset(old(data))
    {
      out := [];
      ghost var all := data;
      while |data| > 0
        invariant multiset(out) + multiset(data) == multiset(all)
        decreases |data|
      {
        var cur: nat :| cur < |data|;
        SwapRemoveKeeps(data, cur);
        var r := Get(cur);
        out := out + [r.value];
      }
    }
  }
}
