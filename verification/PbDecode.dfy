/** UnmarshalVT: the meaning of a byte string as an update of a message. */
module PbDecode {
  import opened Bytes
  import opened Protohelpers
  import opened PbMessages

  datatype Shape = VarintField | BytesField | UnknownField

  /** The cases of the generated switch over fieldNum, with the wire type each case demands. */
  function ShapeOf(m: Msg, num: int): Shape {
    match m
    case OfClient(_) => if 1 <= num <= 6 then BytesField else UnknownField
    case OfLogin(_) =>
      if num == 1 || num == 4 || num == 7 || num == 9 then VarintField
      else if num == 2 || num == 3 || num == 5 || num == 8 || num == 10 then BytesField
      else UnknownField
    case OfRole(_) =>
      if num == 1 || num == 3 || num == 4 || num == 20 || 23 <= num <= 28 then VarintField
      else if num == 5 || num == 35 then BytesField
      else UnknownField
    case OfReply(_) =>
      if 1 <= num <= 5 || num == 8 then VarintField
      else if num == 6 || num == 7 || 9 <= num <= 12 then BytesField
      else UnknownField
  }

  /** A varint field: the 64 accumulated bits, cut to the width and sign of the Go field. */
  function SetVarint(m: Msg, num: int, v: uint64): (r: Msg)
    requires ShapeOf(m, num) == VarintField
  {
    match m
    case OfLogin(l) => OfLogin(
      if num == 1 then l.(sdkType := ToI32(v)) else if num == 4 then l.(channel := Low32(v))
      else if num == 7 then l.(area := Low32(v)) else l.(reconnect := v != 0))
    case OfRole(r) => OfRole(
      if num == 1 then r.(id := v) else if num == 3 then r.(level := Unzigzag32(Low32(v)))
      else if num == 4 then r.(exp := Low32(v)) else if num == 20 then r.(country := Low32(v))
      else if num == 23 then r.(offlineTime := ToI64(v)) else if num == 24 then r.(onlineTime := ToI64(v))
      else if num == 25 then r.(createTime := ToI64(v)) else if num == 26 then r.(resetTime := Unzigzag64(v))
      else if num == 27 then r.(dayChange := Unzigzag64(v)) else r.(dataResetMonth := Unzigzag64(v)))
    case OfReply(y) => OfReply(
      if num == 1 then y.(code := ToI32(v)) else if num == 2 then y.(gameID := Low32(v))
      else if num == 3 then y.(openTime := Unzigzag64(v)) else if num == 4 then y.(serverNowTime := ToI64(v))
      else if num == 5 then y.(serverBeginTime := ToI64(v)) else y.(token := Low32(v)))
  }

  function AddUnknown(m: Msg, u: seq<byte>): (r: Msg) {
    match m
    case OfClient(c) => OfClient(c.(unknown := c.unknown + u))
    case OfLogin(l) => OfLogin(l.(unknown := l.unknown + u))
    case OfRole(r) => OfRole(r.(unknown := r.unknown + u))
    case OfReply(y) => OfReply(y.(unknown := y.unknown + u))
  }

  /** A decoded tag: field number, wire type, bytes taken. */
  datatype Tag = Tag(num: int, wt: nat, n: nat) | NoTag(error: WireError)

  /** The tag at the front of s: its low three bits are the wire type, the rest cut to 32 bits the number. */
  function ReadTag(s: seq<byte>): (t: Tag)
    ensures t.Tag? ==> 1 <= t.n <= |s|
  {
    var r := ReadVarint(s, 0);
    if r.Bad? then NoTag(r.error) else Tag(ToI32(Low64(r.value) / 8), r.value % 8, r.n)
  }

  // ---------- map entries ----------

  datatype Entry = Entry(key: Str, value: int64, at: nat)

  /** The length of a record whose length prefix was read as len, checked against the room left after it. */
  function Room(len: Read, room: int): (r: Result<nat>)
    ensures r.Ok? ==> len.Got? && r.value == Low64(len.value) && len.n + r.value <= room
  {
    if len.Bad? then Fail(len.error)
    else if ToI64(Low64(len.value)) < 0 || len.n + Low64(len.value) > room then Fail(Truncated)
    else Ok(Low64(len.value))
  }

  /** A key field of a map entry: it may end anywhere inside s, even past the entry. */
  function EntryKey(s: seq<byte>, at: nat, len: Read, e: Entry): (r: Result<Entry>)
    requires at <= |s|
    ensures r.Ok? ==> at <= r.value.at <= |s|
  {
    var n := Room(len, |s| - at);
    if n.Fail? then Fail(n.error)
    else Ok(Entry(s[at + len.n..at + len.n + n.value], e.value, at + len.n + n.value))
  }

  function EntryValue(at: nat, v: Read, e: Entry): (r: Result<Entry>) {
    if v.Bad? then Fail(v.error) else Ok(Entry(e.key, Unzigzag64(Low64(v.value)), at + v.n))
  }

  /** An unknown field of a map entry is dropped, and must end inside the entry. */
  function EntryOther(s: seq<byte>, len: nat, e: Entry): (r: Result<Entry>)
    requires e.at < len <= |s|
    ensures r.Ok? ==> e.at < r.value.at <= len
  {
    var k := Skip(s[e.at..], 0);
    if k.Fail? then Fail(k.error)
    else if e.at + k.value > len then Fail(Truncated)
    else Ok(e.(at := e.at + k.value))
  }

  /** One field of a map entry, by the tag read at e.at. The wire type is not looked at. */
  function EntryCase(s: seq<byte>, len: nat, e: Entry, tag: Tag): (r: Result<Entry>)
    requires e.at < len <= |s| && (tag.Tag? ==> 1 <= tag.n <= |s| - e.at)
    ensures r.Ok? ==> e.at < r.value.at <= |s|
  {
    if tag.NoTag? then Fail(tag.error)
    else
      var at := e.at + tag.n;
      if tag.num == 1 then EntryKey(s, at, ReadVarint(s[at..], 0), e)
      else if tag.num == 2 then EntryValue(at, ReadVarint(s[at..], 0), e)
      else EntryOther(s, len, e)
  }

  function EntryField(s: seq<byte>, len: nat, e: Entry): (r: Result<Entry>)
    requires e.at < len <= |s|
    ensures r.Ok? ==> e.at < r.value.at <= |s|
  {
    EntryCase(s, len, e, ReadTag(s[e.at..]))
  }

  /** The loop over one map entry of the given length, which starts s. */
  function ReadEntry(s: seq<byte>, len: nat, e: Entry): (r: Result<Entry>)
    requires len <= |s|
    decreases len - e.at
  {
    if e.at >= len then Ok(e)
    else
      var next := EntryField(s, len, e);
      if next.Fail? then next else ReadEntry(s, len, next.value)
  }

  // ---------- messages ----------

  /** The sub-message a field is merged into, if the field holds one; a nil pointer is allocated first. */
  function Sub(m: Msg, num: int): Option<Msg> {
    match m
    case OfLogin(l) =>
      if num == 10 then Some(OfClient(if l.cliInfo.None? then NoClient else l.cliInfo.value)) else None
    case OfReply(y) =>
      if num == 10 then Some(OfLogin(if y.data.None? then NoLogin else y.data.value))
      else if num == 11 then Some(OfRole(if y.player.None? then NoRole else y.player.value))
      else None
    case _ => None
  }

  /** A sub-message field set to its decoded message. */
  function SetSub(m: Msg, num: int, sub: Msg): (r: Msg)
    requires Sub(m, num).Some? && SameKind(Sub(m, num).value, sub)
  {
    match m
    case OfLogin(l) => OfLogin(l.(cliInfo := Some(sub.client)))
    case OfReply(y) =>
      OfReply(if num == 10 then y.(data := Some(sub.login)) else y.(player := Some(sub.role)))
  }

  function IsItems(m: Msg, num: int): bool { m.OfRole? && num == 35 }

  function SetItem(m: Msg, e: Entry): Msg
    requires m.OfRole?
  {
    OfRole(m.role.(items := m.role.items[e.key := e.value]))
  }

  /** A string field, or one more element of a repeated one. */
  function SetStr(m: Msg, num: int, b: Str): (r: Msg)
    requires ShapeOf(m, num) == BytesField && Sub(m, num).None? && !IsItems(m, num)
  {
    match m
    case OfClient(c) => OfClient(
      if num == 1 then c.(devID := b) else if num == 2 then c.(advType := b)
      else if num == 3 then c.(phoneModel := b) else if num == 4 then c.(sysVersion := b)
      else if num == 5 then c.(machine := b) else c.(ip := b))
    case OfLogin(l) => OfLogin(
      if num == 2 then l.(account := b) else if num == 3 then l.(token := b)
      else if num == 5 then l.(dev := b) else l.(version := b))
    case OfRole(r) => OfRole(r.(name := b))
    case OfReply(y) => OfReply(
      if num == 6 then y.(dev := b) else if num == 7 then y.(retDesc := b)
      else if num == 9 then y.(cliVersion := b) else y.(connectAcc := y.connectAcc + [b]))
  }

  /** A length-delimited field of length len at the front of s. Only a map entry can look past its length. */
  function SetBytes(m: Msg, num: int, s: seq<byte>, len: nat): (r: Result<Msg>)
    requires ShapeOf(m, num) == BytesField && len <= |s|
    ensures r.Ok? ==> SameKind(m, r.value)
    decreases |s|, 5
  {
    if Sub(m, num).Some? then
      var sub := Unmarshal(Sub(m, num).value, s[..len]);
      if sub.Fail? then sub else Ok(SetSub(m, num, sub.value))
    else if IsItems(m, num) then
      var e := ReadEntry(s, len, Entry([], 0, 0));
      if e.Fail? then Fail(e.error) else Ok(SetItem(m, e.value))
    else Ok(SetStr(m, num, s[..len]))
  }

  /** A decoded field: the message after it and the bytes it took. */
  datatype Field = Field(msg: Msg, n: nat)

  function VarintAt(m: Msg, num: int, at: nat, v: Read): (r: Result<Field>)
    requires ShapeOf(m, num) == VarintField
  {
    if v.Bad? then Fail(v.error) else Ok(Field(SetVarint(m, num, Low64(v.value)), at + v.n))
  }

  function BytesAt(m: Msg, num: int, s: seq<byte>, at: nat, len: Read): (r: Result<Field>)
    requires ShapeOf(m, num) == BytesField && 1 <= at <= |s|
    ensures r.Ok? ==> at <= r.value.n <= |s| && SameKind(m, r.value.msg)
    decreases |s|, 0
  {
    var n := Room(len, |s| - at);
    if n.Fail? then Fail(n.error)
    else
      var r := SetBytes(m, num, s[at + len.n..], n.value);
      if r.Fail? then Fail(r.error) else Ok(Field(r.value, at + len.n + n.value))
  }

  function UnknownAt(m: Msg, s: seq<byte>, k: Result<nat>): (r: Result<Field>) {
    if k.Fail? then Fail(k.error)
    else if k.value > |s| then Fail(Truncated)
    else Ok(Field(AddUnknown(m, s[..k.value]), k.value))
  }

  /** The switch over the field number, after a tag of n bytes. */
  function Switch(m: Msg, s: seq<byte>, num: int, wt: nat, n: nat): (r: Result<Field>)
    requires 1 <= n <= |s|
    ensures r.Ok? ==> SameKind(m, r.value.msg) && 1 <= r.value.n <= |s|
    decreases |s|, 1
  {
    match ShapeOf(m, num)
    case VarintField => if wt != 0 then Fail(WrongWireType) else VarintAt(m, num, n, ReadVarint(s[n..], 0))
    case BytesField => if wt != 2 then Fail(WrongWireType) else BytesAt(m, num, s, n, ReadVarint(s[n..], 0))
    case UnknownField => UnknownAt(m, s, Skip(s, 0))
  }

  /** The body of the parse loop after its tag. */
  function DecodeCase(m: Msg, s: seq<byte>, tag: Tag): (r: Result<Field>)
    requires tag.Tag? ==> 1 <= tag.n <= |s|
    ensures r.Ok? ==> SameKind(m, r.value.msg) && 1 <= r.value.n <= |s|
    decreases |s|, 2
  {
    if tag.NoTag? then Fail(tag.error)
    else if tag.wt == 4 then Fail(EndGroup)
    else if tag.num <= 0 then Fail(IllegalTag)
    else Switch(m, s, tag.num, tag.wt, tag.n)
  }

  /** One turn of the parse loop. */
  function DecodeField(m: Msg, s: seq<byte>): (r: Result<Field>)
    ensures r.Ok? ==> 1 <= r.value.n <= |s| && SameKind(m, r.value.msg)
    decreases |s|, 3
  {
    DecodeCase(m, s, ReadTag(s))
  }

  function Unmarshal(m: Msg, s: seq<byte>): (r: Result<Msg>)
    ensures r.Ok? ==> SameKind(m, r.value)
    decreases |s|, 4
  {
    if s == [] then Ok(m)
    else
      var f := DecodeField(m, s);
      if f.Fail? then Fail(f.error) else Unmarshal(f.value.msg, s[f.value.n..])
  }
}
