/** Decoding a concatenation is decoding the parts in turn. */
module PbConcat {
  import opened Bytes
  import opened Protohelpers
  import opened PbMessages
  import opened PbDecode

  lemma EntryKeyStable(s: seq<byte>, t: seq<byte>, at: nat, len: Read, e: Entry)
    requires at <= |s| && EntryKey(s, at, len, e).Ok?
    ensures EntryKey(s + t, at, len, e) == EntryKey(s, at, len, e)
  {
    var n := Room(len, |s| - at).value;
    assert (s + t)[at + len.n..at + len.n + n] == s[at + len.n..at + len.n + n];
  }

  lemma EntryOtherStable(s: seq<byte>, t: seq<byte>, len: nat, e: Entry)
    requires e.at < len <= |s| && EntryOther(s, len, e).Ok?
    ensures EntryOther(s + t, len, e) == EntryOther(s, len, e)
  {
    assert (s + t)[e.at..] == s[e.at..] + t;
    SkipStable(s[e.at..], t, 0);
  }

  lemma EntryCaseStable(s: seq<byte>, t: seq<byte>, len: nat, e: Entry, tag: Tag)
    requires e.at < len <= |s| && (tag.Tag? ==> 1 <= tag.n <= |s| - e.at) && EntryCase(s, len, e, tag).Ok?
    ensures EntryCase(s + t, len, e, tag) == EntryCase(s, len, e, tag)
  {
    var at := e.at + tag.n;
    if tag.num == 1 || tag.num == 2 {
      assert (s + t)[at..] == s[at..] + t;
      ReadVarintStable(s[at..], t, 0);
      if tag.num == 1 { EntryKeyStable(s, t, at, ReadVarint(s[at..], 0), e); }
    } else {
      EntryOtherStable(s, t, len, e);
    }
  }

  lemma EntryFieldStable(s: seq<byte>, t: seq<byte>, len: nat, e: Entry)
    requires e.at < len <= |s| && EntryField(s, len, e).Ok?
    ensures EntryField(s + t, len, e) == EntryField(s, len, e)
  {
    assert (s + t)[e.at..] == s[e.at..] + t;
    ReadVarintStable(s[e.at..], t, 0);
    EntryCaseStable(s, t, len, e, ReadTag(s[e.at..]));
  }

  lemma {:induction false} ReadEntryStable(s: seq<byte>, t: seq<byte>, len: nat, e: Entry)
    requires len <= |s| && ReadEntry(s, len, e).Ok?
    ensures ReadEntry(s + t, len, e) == ReadEntry(s, len, e)
    decreases len - e.at
  {
    if e.at < len {
      EntryFieldStable(s, t, len, e);
      ReadEntryStable(s, t, len, EntryField(s, len, e).value);
    }
  }

  lemma SetBytesStable(m: Msg, num: int, s: seq<byte>, t: seq<byte>, len: nat)
    requires ShapeOf(m, num) == BytesField && len <= |s| && SetBytes(m, num, s, len).Ok?
    ensures SetBytes(m, num, s + t, len) == SetBytes(m, num, s, len)
  {
    assert (s + t)[..len] == s[..len];
    if IsItems(m, num) { ReadEntryStable(s, t, len, Entry([], 0, 0)); }
  }

  lemma BytesAtStable(m: Msg, num: int, s: seq<byte>, t: seq<byte>, at: nat, len: Read)
    requires ShapeOf(m, num) == BytesField && 1 <= at <= |s| && BytesAt(m, num, s, at, len).Ok?
    ensures BytesAt(m, num, s + t, at, len) == BytesAt(m, num, s, at, len)
  {
    var n := Room(len, |s| - at).value;
    assert Room(len, |s + t| - at) == Room(len, |s| - at);
    assert (s + t)[at + len.n..] == s[at + len.n..] + t;
    SetBytesStable(m, num, s[at + len.n..], t, n);
  }

  lemma SwitchStable(m: Msg, s: seq<byte>, t: seq<byte>, num: int, wt: nat, n: nat)
    requires 1 <= n <= |s| && Switch(m, s, num, wt, n).Ok?
    ensures Switch(m, s + t, num, wt, n) == Switch(m, s, num, wt, n)
  {
    assert (s + t)[n..] == s[n..] + t;
    match ShapeOf(m, num) {
      case VarintField => ReadVarintStable(s[n..], t, 0);
      case BytesField =>
        ReadVarintStable(s[n..], t, 0);
        BytesAtStable(m, num, s, t, n, ReadVarint(s[n..], 0));
      case UnknownField =>
        SkipStable(s, t, 0);
        assert (s + t)[..Skip(s, 0).value] == s[..Skip(s, 0).value];
    }
  }

  /** A field that was decoded in full is decoded the same way when more bytes follow. */
  lemma DecodeFieldStable(m: Msg, s: seq<byte>, t: seq<byte>)
    requires DecodeField(m, s).Ok?
    ensures DecodeField(m, s + t) == DecodeField(m, s)
  {
    ReadVarintStable(s, t, 0);
    var tag := ReadTag(s);
    SwitchStable(m, s, t, tag.num, tag.wt, tag.n);
  }

  /** If a decodes, decoding a followed by b is decoding b into the message a gave. */
  lemma {:induction false} UnmarshalConcat(m: Msg, a: seq<byte>, b: seq<byte>)
    requires Unmarshal(m, a).Ok?
    ensures Unmarshal(m, a + b) == Unmarshal(Unmarshal(m, a).value, b)
    decreases |a|
  {
    if a == [] {
      assert a + b == b;
    } else {
      DecodeFieldStable(m, a, b);
      var f := DecodeField(m, a).value;
      assert (a + b)[f.n..] == a[f.n..] + b;
      UnmarshalConcat(f.msg, a[f.n..], b);
    }
  }
}
