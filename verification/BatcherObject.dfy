/** The locked sections of Batcher as they run: in place, on a pooled byte slice. */
module BatcherObject {
  import opened Bytes
  import opened Frame
  import opened Batching

  // ---------- what a locked section does, on values ----------

  /** The current buffer as a value: contents, capacity, number of frames. */
  datatype View = View(bytes: seq<byte>, cap: nat, count: nat)

  /** What flushFn is to be given. */
  datatype Parcel = Parcel(bytes: seq<byte>, count: nat)

  datatype Outcome = Outcome(cur: Option<View>, parcels: seq<Parcel>)

  /** The frame placed into v, which is empty or has room for it. */
  function PlaceView(v: View, frame: seq<byte>): Outcome {
    if |frame| > v.cap then Outcome(Some(v), [Parcel(frame, 1)])
    else
      var w := View(v.bytes + frame, v.cap, v.count + 1);
      if w.count >= BATCH_COUNT || |w.bytes| >= BUFF_SIZE then Outcome(None, [Parcel(w.bytes, w.count)])
      else Outcome(Some(w), [])
  }

  /** Room for n more bytes, or an empty buffer; spare is the capacity of what the pool would answer. */
  function RoomView(v: Option<View>, n: nat, spare: nat): (o: Outcome)
    ensures o.cur.Some?
    ensures |o.cur.value.bytes| + n <= o.cur.value.cap || o.cur.value.bytes == []
  {
    if v.None? then Outcome(Some(View([], spare, 0)), [])
    else if |v.value.bytes| + n > v.value.cap && |v.value.bytes| > 0 then
      Outcome(Some(View([], spare, 0)), [Parcel(v.value.bytes, v.value.count)])
    else Outcome(v, [])
  }

  /** The locked section of Add. */
  function AddView(v: Option<View>, frame: seq<byte>, spare: nat): Outcome {
    var r := RoomView(v, |frame|, spare);
    var o := PlaceView(r.cur.value, frame);
    Outcome(o.cur, r.parcels + o.parcels)
  }

  /** The step of the interleaving model is this function, seen from the batcher. */
  ghost function ViewOf(c: Core): Option<View>
    requires CoreOk(c)
  {
    if c.buf.None? then None
    else var b := c.heap[c.buf.value]; Some(View(b.mem[..b.len], |b.mem|, c.count))
  }

  /** The t-th task waits for flushFn to be given p. */
  ghost predicate Waits(c: Core, t: nat, p: Parcel) {
    && t < |c.tasks| && TaskOk(c.heap, c.tasks[t]) && c.tasks[t].status == Pending
    && c.tasks[t].count == p.count
    && p.bytes == if c.tasks[t].src.None? then c.tasks[t].own
                  else c.heap[c.tasks[t].src.value].mem[..c.tasks[t].len]
  }

  /** To the tasks ts the tasks ps were added, in that order, and no other task changed. */
  ghost predicate Made(ts: seq<Task>, d: Core, ps: seq<Parcel>) {
    && |d.tasks| == |ts| + |ps|
    && (forall t :: 0 <= t < |ts| ==> d.tasks[t] == ts[t])
    && (forall i :: 0 <= i < |ps| ==> Waits(d, |ts| + i, ps[i]))
  }

  function PickCap(c: Core, p: Pick): nat
    requires p.FromPool? ==> p.id in c.heap
  {
    if p.FromPool? then |c.heap[p.id].mem| else |p.mem|
  }

  lemma SealRefines(c: Core)
    requires CoreOk(c) && c.buf.Some? && c.cur != []
    ensures CoreOk(Seal(c)) && Made(c.tasks, Seal(c), [Parcel(ViewOf(c).value.bytes, c.count)]) && ViewOf(Seal(c)).None?
  {
    SealKeeps(c);
    assert TaskOk(Seal(c).heap, Seal(c).tasks[|c.tasks|]);
  }

  lemma PlaceRefines(c: Core, op: Op)
    requires CoreOk(c) && c.buf.Some? && !Overflows(c, |FrameBytes(op.msg)|)
    ensures var d, o := Place(c, op), PlaceView(ViewOf(c).value, FrameBytes(op.msg));
            CoreOk(d) && Made(c.tasks, d, o.parcels) && ViewOf(d) == o.cur
  {
    var frame, b := FrameBytes(op.msg), c.heap[c.buf.value];
    if |frame| <= |b.mem| {
      AppendKeeps(c, op);
      var d := Append(c, op);
      var e := d.heap[c.buf.value];
      assert e.mem[..e.len] == b.mem[..b.len] + frame && |e.mem| == |b.mem|;
      assert ViewOf(d) == Some(View(b.mem[..b.len] + frame, |b.mem|, c.count + 1));
      if Full(d) { SealRefines(d); }
    } else {
      OversizeKeeps(c, op);
      var d := Oversize(c, op);
      assert TaskOk(d.heap, d.tasks[|c.tasks|]);
    }
  }

  lemma TakeRefines(c: Core, p: Pick)
    requires CoreOk(c) && c.buf.None? && PickOk(c, p)
    ensures p.FromPool? ==> p.id in c.heap
    ensures CoreOk(Take(c, p)) && ViewOf(Take(c, p)) == Some(View([], PickCap(c, p), 0))
  {
    TakeKeeps(c, p);
  }

  /** A task not yet flushed keeps its contents, whatever else happened. */
  lemma WaitsStill(c: Core, d: Core, t: nat, p: Parcel)
    requires Waits(c, t, p) && CoreOk(d) && t < |d.tasks| && d.tasks[t] == c.tasks[t]
    ensures Waits(d, t, p)
  {
    assert TaskOk(d.heap, d.tasks[t]);
  }

  lemma MadeFirst(ts: seq<Task>, us: seq<Task>, f: Core, p: Parcel, ps: seq<Parcel>)
    requires |us| == |ts| + 1 && (forall t :: 0 <= t < |ts| ==> us[t] == ts[t])
    requires Made(us, f, ps) && Waits(f, |ts|, p)
    ensures Made(ts, f, [p] + ps)
  {
    forall i | 0 <= i < |ps| + 1 ensures Waits(f, |ts| + i, ([p] + ps)[i]) {
      if i > 0 { MadeAt(us, f, ps, i - 1); }
    }
  }

  lemma MadeAt(ts: seq<Task>, d: Core, ps: seq<Parcel>, i: nat)
    requires Made(ts, d, ps) && i < |ps|
    ensures Waits(d, |ts| + i, ps[i])
  {
  }

  lemma OverflowRefines(c: Core, op: Op, p: Pick)
    requires CoreOk(c) && c.buf.Some? && Overflows(c, |FrameBytes(op.msg)|) && PickOk(c, p) && (p.FromPool? ==> p.id in c.heap)
    ensures var o := AddView(ViewOf(c), FrameBytes(op.msg), PickCap(c, p));
            CoreOk(AddBody(c, op, p)) && Made(c.tasks, AddBody(c, op, p), o.parcels) && ViewOf(AddBody(c, op, p)) == o.cur
  {
    EmptyBuffer(c);
    SealRefines(c);
    var d := Seal(c);
    TakeRefines(d, p);
    var e := Take(d, p);
    PlaceRefines(e, op);
    var f, o := Place(e, op), PlaceView(View([], PickCap(c, p), 0), FrameBytes(op.msg));
    var sealed := Parcel(ViewOf(c).value.bytes, c.count);
    assert Waits(d, |c.tasks| + 0, [sealed][0]);
    WaitsStill(d, f, |c.tasks|, sealed);
    MadeFirst(c.tasks, e.tasks, f, sealed, o.parcels);
  }

  lemma NoneBefore(v: Option<View>, frame: seq<byte>, spare: nat)
    requires RoomView(v, |frame|, spare).parcels == []
    ensures AddView(v, frame, spare) == PlaceView(RoomView(v, |frame|, spare).cur.value, frame)
  {
    var o := PlaceView(RoomView(v, |frame|, spare).cur.value, frame);
    assert [] + o.parcels == o.parcels;
  }

  lemma FirstRefines(c: Core, op: Op, p: Pick)
    requires CoreOk(c) && c.buf.None? && PickOk(c, p) && (p.FromPool? ==> p.id in c.heap)
    ensures var o := AddView(ViewOf(c), FrameBytes(op.msg), PickCap(c, p));
            CoreOk(AddBody(c, op, p)) && Made(c.tasks, AddBody(c, op, p), o.parcels) && ViewOf(AddBody(c, op, p)) == o.cur
  {
    TakeRefines(c, p);
    PlaceRefines(Take(c, p), op);
    NoneBefore(ViewOf(c), FrameBytes(op.msg), PickCap(c, p));
  }

  lemma FitsRefines(c: Core, op: Op, p: Pick)
    requires CoreOk(c) && c.buf.Some? && !Overflows(c, |FrameBytes(op.msg)|) && (p.FromPool? ==> p.id in c.heap)
    ensures var o := AddView(ViewOf(c), FrameBytes(op.msg), PickCap(c, p));
            CoreOk(AddBody(c, op, p)) && Made(c.tasks, AddBody(c, op, p), o.parcels) && ViewOf(AddBody(c, op, p)) == o.cur
  {
    PlaceRefines(c, op);
    NoneBefore(ViewOf(c), FrameBytes(op.msg), PickCap(c, p));
  }

  /** The locked section of the interleaving model is AddView on the batcher's own buffer. */
  lemma AddRefines(c: Core, op: Op, p: Pick)
    requires CoreOk(c) && AddPickOk(c, op, p) && (p.FromPool? ==> p.id in c.heap)
    ensures var o := AddView(ViewOf(c), FrameBytes(op.msg), PickCap(c, p));
            CoreOk(AddBody(c, op, p)) && Made(c.tasks, AddBody(c, op, p), o.parcels) && ViewOf(AddBody(c, op, p)) == o.cur
  {
    if c.buf.None? {
      FirstRefines(c, op, p);
    } else if Overflows(c, |FrameBytes(op.msg)|) {
      OverflowRefines(c, op, p);
    } else {
      FitsRefines(c, op, p);
    }
  }

  // ---------- nothing lost, nothing reordered ----------

  function Contents(v: Option<View>): seq<byte> { if v.None? then [] else v.value.bytes }

  function Counted(v: Option<View>): nat { if v.None? then 0 else v.value.count }

  function Handed(ps: seq<Parcel>): (r: seq<byte>) { if ps == [] then [] else ps[0].bytes + Handed(ps[1..]) }

  function HandedCount(ps: seq<Parcel>): (r: nat) { if ps == [] then 0 else ps[0].count + HandedCount(ps[1..]) }

  lemma HandedOne(p: Parcel)
    ensures Handed([p]) == p.bytes && HandedCount([p]) == p.count
  {
    assert [p][1..] == [] && p.bytes + [] == p.bytes;
  }

  lemma HandedConcat(ps: seq<Parcel>, qs: seq<Parcel>)
    requires |ps| <= 1
    ensures Handed(ps + qs) == Handed(ps) + Handed(qs) && HandedCount(ps + qs) == HandedCount(ps) + HandedCount(qs)
  {
    if ps == [] {
      assert ps + qs == qs;
    } else {
      assert (ps + qs)[1..] == qs && ps == [ps[0]];
      HandedOne(ps[0]);
    }
  }

  lemma PlaceConserves(v: View, frame: seq<byte>)
    requires |v.bytes| + |frame| <= v.cap || v.bytes == []
    ensures var o := PlaceView(v, frame);
            && Handed(o.parcels) + Contents(o.cur) == v.bytes + frame
            && HandedCount(o.parcels) + Counted(o.cur) == v.count + 1 && |o.parcels| <= 1
  {
    var o := PlaceView(v, frame);
    if |o.parcels| == 1 { HandedOne(o.parcels[0]); }
  }

  lemma RoomConserves(v: Option<View>, n: nat, spare: nat)
    ensures var o := RoomView(v, n, spare);
            && Handed(o.parcels) + Contents(o.cur) == Contents(v)
            && HandedCount(o.parcels) + Counted(o.cur) == Counted(v) && |o.parcels| <= 1
  {
    if v.Some? { HandedOne(Parcel(v.value.bytes, v.value.count)); }
  }

  /** What Add gives to flushFn and what it keeps is what was there, followed by the new frame. */
  lemma AddConserves(v: Option<View>, frame: seq<byte>, spare: nat)
    ensures var o := AddView(v, frame, spare);
            && Handed(o.parcels) + Contents(o.cur) == Contents(v) + frame
            && HandedCount(o.parcels) + Counted(o.cur) == Counted(v) + 1 && |o.parcels| <= 2
  {
    var r := RoomView(v, |frame|, spare);
    var o := PlaceView(r.cur.value, frame);
    RoomConserves(v, |frame|, spare);
    PlaceConserves(r.cur.value, frame);
    HandedConcat(r.parcels, o.parcels);
    Chain(Handed(r.parcels), Handed(o.parcels), Contents(o.cur), Contents(r.cur), Contents(v), frame);
  }

  lemma Chain(a: seq<byte>, b: seq<byte>, c: seq<byte>, d: seq<byte>, v: seq<byte>, f: seq<byte>)
    requires a + d == v && b + c == d + f
    ensures (a + b) + c == v + f
  {
    assert (a + b) + c == a + (b + c) && (a + d) + f == a + (d + f);
  }

  // ---------- the object ----------

  /** A *[]byte: the pointer is what the pool hands round, its length and backing array change. */
  class Buffer {
    var mem: array<byte>
    var len: nat

    constructor (cap: nat)
      ensures len == 0 && mem.Length == cap && fresh(mem)
    {
      mem := new byte[cap];
      len := 0;
    }
  }

  /** tasks[i] of Add: pBuf is null for an oversize frame, whose array is not pooled. */
  datatype FlushTask = FlushTask(mem: array<byte>, len: nat, pBuf: Buffer?, count: nat)

  class Batcher {
    var buf: Buffer?
    var count: nat
    var running: bool

    ghost predicate Valid()
      reads this, buf
    {
      if buf == null then count == 0 else buf.len <= buf.mem.Length
    }

    ghost function Footprint(): set<object?>
      reads this, buf
    {
      if buf == null then {} else {buf, buf.mem}
    }

    ghost function Seen(): Option<View>
      requires Valid()
      reads this, buf, Footprint()
    {
      if buf == null then None else Some(View(buf.mem[..buf.len], buf.mem.Length, count))
    }

    constructor ()
      ensures Valid() && Seen().None? && running
    {
      buf := null;
      count := 0;
      running := true;
    }

    /** The current buffer gets room for frameSize more bytes, or is replaced by spare. */
    method Rotate(frameSize: nat, spare: Buffer) returns (tasks: seq<FlushTask>)
      requires Valid() && spare !in Footprint() && spare.mem !in Footprint()
      modifies this`buf, this`count, spare`len
      ensures Valid() && buf != null
      ensures var o := RoomView(old(Seen()), frameSize, spare.mem.Length);
              Seen() == o.cur && Carry(tasks, o.parcels)
      ensures tasks == [] || (buf == spare && tasks == [FlushTask(old(buf.mem), old(buf.len), old(buf), old(count))])
      ensures buf == spare || buf == old(buf)
    {
      tasks := [];
      if buf == null {
        buf := spare;
        buf.len := 0;
      }
      if buf.len + frameSize > buf.mem.Length && buf.len > 0 {
        tasks := [FlushTask(buf.mem, buf.len, buf, count)];
        buf := spare;
        buf.len := 0;
        count := 0;
      }
    }

    /** The frame is placed, and a full buffer sealed. */
    method Place(p: Message, frameSize: nat) returns (tasks: seq<FlushTask>)
      requires Valid() && buf != null && frameSize == |FrameBytes(p)|
      requires buf.len + frameSize <= buf.mem.Length || buf.len == 0
      modifies this`buf, this`count, buf`len, buf.mem
      ensures Valid() && (buf == null || buf == old(buf)) && old(buf).mem == old(buf.mem)
      ensures var o := PlaceView(old(Seen()).value, FrameBytes(p));
              Seen() == o.cur && Carry(tasks, o.parcels)
      ensures forall t :: t in tasks ==>
        if t.pBuf == null then fresh(t.mem) else buf == null && t.pBuf == old(buf) && t.mem == old(buf.mem)
    {
      tasks := [];
      if frameSize > buf.mem.Length {
        var monster := new byte[frameSize];
        EncodeTo(p, monster, 0);
        assert monster[..frameSize] == FrameBytes(p);
        tasks := [FlushTask(monster, frameSize, null, 1)];
      } else {
        var pos := buf.len;
        ghost var was := buf.mem[..pos];
        EncodeTo(p, buf.mem, pos);
        assert buf.mem[..pos + frameSize] == was + FrameBytes(p);
        buf.len := pos + frameSize;
        count := count + 1;
        if count >= BATCH_COUNT || buf.len >= BUFF_SIZE {
          tasks := [FlushTask(buf.mem, buf.len, buf, count)];
          buf := null;
          count := 0;
        }
      }
    }

    /** The locked section of Add. spare is what the pool answers if it is asked. */
    method Add(p: Message, spare: Buffer) returns (ok: bool, tasks: seq<FlushTask>)
      requires Valid() && spare !in Footprint() && spare.mem !in Footprint()
      modifies this, Footprint(), spare, spare.mem
      ensures Valid() && ok == old(running) && running == old(running)
      ensures !ok ==> tasks == [] && Seen() == old(Seen())
      ensures ok ==>
        var o := AddView(old(Seen()), FrameBytes(p), old(spare.mem.Length));
        Seen() == o.cur && Carry(tasks, o.parcels)
      ensures Released(tasks, old(buf), spare)
    {
      if !running { return false, []; }
      var frameSize := 29 + |p.data|;
      var sealed := Rotate(frameSize, spare);
      ghost var r := RoomView(old(Seen()), frameSize, spare.mem.Length);
      var placed := Place(p, frameSize);
      assert Carry(sealed, r.parcels);
      ok, tasks := true, sealed + placed;
    }

    /** Each pooled buffer in tasks was this batcher's or is spare, is there once, and is the batcher's no more. */
    ghost predicate Released(tasks: seq<FlushTask>, was: Buffer?, spare: Buffer)
      reads this
    {
      && |tasks| <= 2
      && (forall t :: t in tasks && t.pBuf != null ==> t.pBuf != buf && (t.pBuf == was || t.pBuf == spare))
      && (|tasks| == 2 && tasks[0].pBuf != null ==> tasks[0].pBuf != tasks[1].pBuf)
    }

    /** The locked section of flush. */
    method TakeBatch() returns (tasks: seq<FlushTask>)
      requires Valid()
      modifies this
      ensures Valid() && running == old(running)
      ensures old(count) > 0 ==> Seen().None? && Carry(tasks, [Parcel(Contents(old(Seen())), old(count))])
      ensures old(count) == 0 ==> tasks == [] && Seen() == old(Seen())
    {
      tasks := [];
      if count > 0 && buf != null {
        tasks := [FlushTask(buf.mem, buf.len, buf, count)];
        buf := null;
        count := 0;
      }
    }
  }

  /** The tasks point at what ps says, in order. */
  ghost predicate Carry(tasks: seq<FlushTask>, ps: seq<Parcel>)
    reads set i | 0 <= i < |tasks| :: tasks[i].mem
  {
    && |tasks| == |ps|
    && (forall i :: 0 <= i < |tasks| ==>
          tasks[i].len <= tasks[i].mem.Length && tasks[i].mem[..tasks[i].len] == ps[i].bytes && tasks[i].count == ps[i].count)
  }
}
