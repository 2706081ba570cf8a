/** Machine integers as bounded mathematical integers, byte strings, and little-endian words. */
module Bytes {
  const TWO32: int := 0x1_0000_0000
  const TWO63: int := 0x8000_0000_0000_0000
  const TWO64: int := 0x1_0000_0000_0000_0000

  type byte = x: int | 0 <= x < 256
  type uint8 = x: int | 0 <= x < 256
  type uint32 = x: int | 0 <= x < 0x1_0000_0000
  type uint64 = x: int | 0 <= x < 0x1_0000_0000_0000_0000
  type int32 = x: int | -0x8000_0000 <= x < 0x8000_0000
  type int64 = x: int | -0x8000_0000_0000_0000 <= x < 0x8000_0000_0000_0000

  /** A Go string or byte slice, taken as a value. */
  type Str = seq<byte>

  datatype Option<+T> = None | Some(value: T)

  /** uint64(x) and uint32(x) of a value with no bound: the low-order bits. */
  function Low64(x: nat): uint64 { x % 0x1_0000_0000_0000_0000 }
  function Low32(x: nat): uint32 { x % 0x1_0000_0000 }

  /** uint64(v) for a signed v: two's complement. */
  function ToU64(v: int): uint64 requires -TWO63 <= v < TWO64 { if v < 0 then v + TWO64 else v }

  /** int64(v) for an unsigned 64-bit v. */
  function ToI64(v: uint64): int64 { if v < TWO63 then v else v - TWO64 }

  /** int32(v): the low 32 bits read as a signed number. */
  function ToI32(v: nat): int32 {
    var u := Low32(v); if u < 0x8000_0000 then u else u - TWO32
  }

  /** The n low-order bytes of v, least significant first. */
  function LittleEndian(v: nat, n: nat): (s: seq<byte>)
    ensures |s| == n
  {
    if n == 0 then [] else [v % 256] + LittleEndian(v / 256, n - 1)
  }

  function FromLittleEndian(s: seq<byte>): nat {
    if s == [] then 0 else s[0] + 256 * FromLittleEndian(s[1..])
  }

  function Pow256(n: nat): (p: nat)
    ensures p > 0
  {
    if n == 0 then 1 else 256 * Pow256(n - 1)
  }

  lemma {:induction false} FromLittleEndianBound(s: seq<byte>)
    ensures FromLittleEndian(s) < Pow256(|s|)
  {
    if s != [] { FromLittleEndianBound(s[1..]); }
  }

  lemma Pow256Values()
    ensures Pow256(4) == TWO32 && Pow256(8) == TWO64
  {
    assert Pow256(2) == 65536;
    assert Pow256(4) == 65536 * 65536;
    assert Pow256(6) == 65536 * Pow256(4);
    assert Pow256(8) == 65536 * Pow256(6);
  }

  /** Writing n bytes of v and reading them back yields v modulo 256^n. */
  lemma {:induction false} LittleEndianRoundTrip(v: nat, n: nat)
    ensures FromLittleEndian(LittleEndian(v, n)) == v % Pow256(n)
  {
    if n > 0 {
      LittleEndianRoundTrip(v / 256, n - 1);
      var p := Pow256(n - 1);
      assert LittleEndian(v, n)[1..] == LittleEndian(v / 256, n - 1);
      ModSplit(v, p);
    }
  }

  lemma ModSplit(v: nat, p: nat)
    requires p > 0
    ensures v % (256 * p) == v % 256 + 256 * ((v / 256) % p)
  {
    var q, r := v / 256, v % 256;
    var a, b := q / p, q % p;
    assert v == 256 * q + r && q == a * p + b;
    var w := r + 256 * b;
    assert v == a * (256 * p) + w by {
      assert 256 * (a * p + b) == a * (256 * p) + 256 * b;
    }
    assert 0 <= w < 256 * p by { assert b <= p - 1; assert 256 * b <= 256 * (p - 1); }
    DivModUnique(v, 256 * p, a, w);
  }

  lemma DivModUnique(x: int, d: int, q: int, r: int)
    requires 0 <= r < d && x == q * d + r
    ensures x / d == q && x % d == r
  {
    var q', r' := x / d, x % d;
    assert x == q' * d + r';
    assert (q - q') * d == r' - r;
    MulBound(q - q', d);
  }

  lemma MulBound(a: int, d: int)
    requires d > 0
    ensures a >= 1 ==> a * d >= d
    ensures a <= -1 ==> a * d <= -d
  {
  }

  // ---------- writes into a buffer ----------

  /** Exactly the bytes from j to i changed, and they are now b. */
  ghost predicate Wrote(before: seq<byte>, after: seq<byte>, j: nat, i: nat, b: seq<byte>) {
    && |before| == |after| && j <= i <= |before| && i - j == |b|
    && after[..j] == before[..j] && after[j..i] == b && after[i..] == before[i..]
  }

  /** Two adjacent writes, the later one in front, are one write. */
  lemma WroteWrote(s0: seq<byte>, s1: seq<byte>, s2: seq<byte>, k: nat, j: nat, i: nat, b: seq<byte>, a: seq<byte>)
    requires Wrote(s0, s1, j, i, b) && Wrote(s1, s2, k, j, a)
    ensures Wrote(s0, s2, k, i, a + b)
  {
    assert s2[..k] == s0[..k] by { assert s1[..k] == s1[..j][..k] && s0[..k] == s0[..j][..k]; }
    assert s2[k..i] == s2[k..j] + s2[j..i];
    assert s2[j..i] == s2[j..][..i - j] && s1[j..i] == s1[j..][..i - j];
    assert s2[i..] == s2[j..][i - j..] && s1[i..] == s1[j..][i - j..];
  }

  /** Two adjacent writes, the later one behind, are one write. */
  lemma WroteNext(s0: seq<byte>, s1: seq<byte>, s2: seq<byte>, j: nat, i: nat, h: nat, b: seq<byte>, c: seq<byte>)
    requires Wrote(s0, s1, j, i, b) && Wrote(s1, s2, i, h, c)
    ensures Wrote(s0, s2, j, h, b + c)
  {
    assert s2[..j] == s0[..j] by { assert s2[..j] == s2[..i][..j] && s1[..j] == s1[..i][..j]; }
    assert s2[j..h] == s2[j..i] + s2[i..h];
    assert s2[j..i] == s2[..i][j..] && s1[j..i] == s1[..i][j..];
    assert s2[h..] == s0[h..] by { assert s1[h..] == s1[i..][h - i..] && s0[h..] == s0[i..][h - i..]; }
  }
}
