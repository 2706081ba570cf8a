/** The data side of a Batcher: pooled buffers, the current buffer, and flush tasks.
    Every function here is what one locked section does to them. */
module Batching {
  import opened Bytes
  import opened Frame

  const BATCH_COUNT: nat := 500
  const BUFF_SIZE: nat := 1024 * 500

  type BufId = nat

  /** One call of Add; calls are told apart by id, whatever they carry. */
  datatype Op = Op(id: nat, msg: Message)

  /** A *[]byte of the pool: length len, capacity |mem|. */
  datatype Buf = Buf(mem: seq<byte>, len: nat)

  datatype Status = Pending | Flushed | Finished

  /** A flushTask. An oversize frame has a buffer of its own, with contents own; otherwise src is pooled.
      out is what flushFn was given, once it was called. */
  datatype Task = Task(src: Option<BufId>, own: seq<byte>, len: nat, count: nat, ops: seq<Op>, status: Status, out: seq<byte>)

  /** The pool, the buffers other batchers and RPC calls hold (one per handle), and this batcher. */
  datatype Core = Core(heap: map<BufId, Buf>, free: set<BufId>, held: map<nat, BufId>,
                       buf: Option<BufId>, count: nat, cur: seq<Op>, tasks: seq<Task>)

  function Msgs(ops: seq<Op>): (ms: seq<Message>)
    ensures |ms| == |ops|
  {
    seq(|ops|, i requires 0 <= i < |ops| => ops[i].msg)
  }

  function Wire(ops: seq<Op>): seq<byte> { Frames(Msgs(ops)) }

  lemma WireSnoc(ops: seq<Op>, op: Op)
    ensures Wire(ops + [op]) == Wire(ops) + FrameBytes(op.msg)
  {
    assert Msgs(ops + [op]) == Msgs(ops) + [op.msg];
    FramesConcat(Msgs(ops), [op.msg]);
    assert Frames([op.msg]) == FrameBytes(op.msg) + Frames([]);
  }

  // ---------- who holds which buffer ----------

  datatype Holder = InPool(id: BufId) | Current | InTask(t: nat) | Other(handle: nat)

  function Ref(c: Core, h: Holder): Option<BufId> {
    match h
    case InPool(id) => if id in c.free then Some(id) else None
    case Current => c.buf
    case InTask(t) => if t < |c.tasks| && c.tasks[t].status != Finished then c.tasks[t].src else None
    case Other(k) => if k in c.held then Some(c.held[k]) else None
  }

  /** Every reference is to an allocated buffer, and no buffer has two. */
  ghost predicate OwnedOnce(c: Core) {
    && (forall h :: Ref(c, h).Some? ==> Ref(c, h).value in c.heap)
    && (forall g, h :: g != h && Ref(c, g).Some? && Ref(c, h).Some? ==> Ref(c, g).value != Ref(c, h).value)
  }

  ghost predicate RoomyHeap(c: Core) { forall id :: id in c.heap ==> |c.heap[id].mem| >= BUFF_SIZE }

  /** The batched frames stand in the current buffer. */
  ghost predicate CurOk(c: Core) {
    && c.count == |c.cur|
    && (c.buf.None? ==> c.cur == [])
    && (c.buf.Some? ==> c.buf.value in c.heap && Holds(c.heap[c.buf.value], c.heap[c.buf.value].len, c.cur))
  }

  ghost predicate Holds(b: Buf, len: nat, ops: seq<Op>) {
    len <= |b.mem| && b.mem[..len] == Wire(ops)
  }

  ghost predicate TaskOk(heap: map<BufId, Buf>, t: Task) {
    && t.count == |t.ops| && t.ops != [] && t.len == |Wire(t.ops)|
    && (t.src.None? ==> t.own == Wire(t.ops))
    && (t.src.Some? && t.status != Finished ==> t.src.value in heap && Holds(heap[t.src.value], t.len, t.ops))
    && (t.status != Pending ==> t.out == Wire(t.ops))
  }

  ghost predicate TasksOk(c: Core) { forall t :: 0 <= t < |c.tasks| ==> TaskOk(c.heap, c.tasks[t]) }

  ghost predicate CoreOk(c: Core) { OwnedOnce(c) && RoomyHeap(c) && CurOk(c) && TasksOk(c) }

  // ---------- the steps ----------

  /** What sync.Pool answers: a buffer it holds, or a newly made one. */
  datatype Pick = FromPool(id: BufId) | Fresh(id: BufId, mem: seq<byte>)

  ghost predicate PickOk(c: Core, p: Pick) {
    match p
    case FromPool(id) => id in c.free
    case Fresh(id, mem) => id !in c.heap && |mem| == BUFF_SIZE
  }

  /** BytesPool.Get and the reset of the length; the buffer is now nobody's but the caller's. */
  function Get(c: Core, p: Pick): (r: Core)
    requires p.FromPool? ==> p.id in c.heap
  {
    match p
    case FromPool(id) => c.(free := c.free - {id}, heap := c.heap[id := c.heap[id].(len := 0)])
    case Fresh(id, mem) => c.(heap := c.heap[id := Buf(mem, 0)])
  }

  /** BytesPool.Put: a buffer over ten times the standard size is dropped. */
  function Put(c: Core, id: BufId): (r: Core)
    requires id in c.heap
  {
    if |c.heap[id].mem| > 10 * BUFF_SIZE then c
    else c.(free := c.free + {id}, heap := c.heap[id := c.heap[id].(len := 0)])
  }

  /** A batcher without a buffer asks the pool for one. */
  function Take(c: Core, p: Pick): (r: Core)
    requires p.FromPool? ==> p.id in c.heap
  {
    if c.buf.None? then Get(c, p).(buf := Some(p.id)) else c
  }

  /** The current buffer becomes a flush task. */
  function Seal(c: Core): (r: Core)
    requires c.buf.Some? && c.buf.value in c.heap
  {
    c.(tasks := c.tasks + [Task(c.buf, [], c.heap[c.buf.value].len, c.count, c.cur, Pending, [])],
       buf := None, count := 0, cur := [])
  }

  /** len + frameSize > cap && len > 0: the frame does not fit behind what is there. */
  predicate Overflows(c: Core, frame: nat)
    requires c.buf.Some? && c.buf.value in c.heap
  {
    var b := c.heap[c.buf.value];
    b.len + frame > |b.mem| && b.len > 0
  }

  /** An oversize frame gets a task of its own. */
  function Oversize(c: Core, op: Op): (r: Core) {
    var frame := FrameBytes(op.msg);
    c.(tasks := c.tasks + [Task(None, frame, |frame|, 1, [op], Pending, [])])
  }

  function Append(c: Core, op: Op): (r: Core)
    requires c.buf.Some? && c.buf.value in c.heap
    requires c.heap[c.buf.value].len + |FrameBytes(op.msg)| <= |c.heap[c.buf.value].mem|
  {
    var id, frame := c.buf.value, FrameBytes(op.msg);
    var b := c.heap[id];
    c.(heap := c.heap[id := Buf(b.mem[..b.len] + frame + b.mem[b.len + |frame|..], b.len + |frame|)],
       count := c.count + 1, cur := c.cur + [op])
  }

  predicate Full(c: Core)
    requires c.buf.Some? && c.buf.value in c.heap
  {
    c.count >= BATCH_COUNT || c.heap[c.buf.value].len >= BUFF_SIZE
  }

  /** The last part of Add: the frame is placed, and a full buffer sealed. */
  function Place(c: Core, op: Op): (r: Core)
    requires c.buf.Some? && c.buf.value in c.heap && !Overflows(c, |FrameBytes(op.msg)|)
    requires c.heap[c.buf.value].len <= |c.heap[c.buf.value].mem|
  {
    if |FrameBytes(op.msg)| > |c.heap[c.buf.value].mem| then Oversize(c, op)
    else
      var d := Append(c, op);
      if Full(d) then Seal(d) else d
  }

  /** Sealing an overflowing buffer and taking another. */
  function Rotate(c: Core, frame: nat, p: Pick): (r: Core)
    requires c.buf.Some? && c.buf.value in c.heap && (p.FromPool? ==> p.id in c.heap)
  {
    if Overflows(c, frame) then Take(Seal(c), p) else c
  }

  /** flushFn(t.buf, t.count): it is given the memory of the buffer as it is now. */
  function FlushTask(c: Core, t: nat): (r: Core)
    requires t < |c.tasks| && (c.tasks[t].src.Some? ==> c.tasks[t].src.value in c.heap)
  {
    var k := c.tasks[t];
    var mem := if k.src.None? then k.own else c.heap[k.src.value].mem;
    c.(tasks := c.tasks[t := k.(status := Flushed, out := mem[..if k.len <= |mem| then k.len else |mem|])])
  }

  /** FreeBuffer(t.pBuf), unless the buffer is the task's own. */
  function FinishTask(c: Core, t: nat): (r: Core)
    requires t < |c.tasks| && (c.tasks[t].src.Some? ==> c.tasks[t].src.value in c.heap)
  {
    var k := c.tasks[t];
    var d := c.(tasks := c.tasks[t := k.(status := Finished)]);
    if k.src.None? then d else Put(d, k.src.value)
  }

  /** Another batcher or an RPC call gets a buffer under a new handle. */
  function OtherGet(c: Core, h: nat, p: Pick): (r: Core)
    requires p.FromPool? ==> p.id in c.heap
  {
    var d := Get(c, p);
    d.(held := d.held[h := p.id])
  }

  /** It writes to its buffer, or replaces the backing array by a larger one (RpcCall, RpcRespond). */
  function OtherWrite(c: Core, h: nat, b: Buf): (r: Core)
    requires h in c.held
  {
    c.(heap := c.heap[c.held[h] := b])
  }

  function OtherPut(c: Core, h: nat): (r: Core)
    requires h in c.held && c.held[h] in c.heap
  {
    Put(c.(held := c.held - {h}), c.held[h])
  }

  /** If this call of Add asks the pool for a buffer, p is a possible answer. It asks at most once:
      a buffer just taken is empty and cannot overflow. */
  ghost predicate AddPickOk(c: Core, op: Op, p: Pick) {
    c.buf.None? || (c.buf.value in c.heap && Overflows(c, |FrameBytes(op.msg)|)) ==> PickOk(c, p)
  }

  // ---------- what every step keeps ----------

  /** A buffer that changes is not seen by a task that does not hold it. */
  lemma TasksFramed(c: Core, d: Core, id: BufId)
    requires TasksOk(c) && d.tasks == c.tasks
    requires d.heap.Keys >= c.heap.Keys && forall x :: x in c.heap && x != id ==> d.heap[x] == c.heap[x]
    requires forall t :: 0 <= t < |c.tasks| ==> Ref(c, InTask(t)) != Some(id)
    ensures TasksOk(d)
  {
    forall t | 0 <= t < |d.tasks| ensures TaskOk(d.heap, d.tasks[t]) {
      assert TaskOk(c.heap, c.tasks[t]) && Ref(c, InTask(t)) != Some(id);
    }
  }

  lemma TakeKeeps(c: Core, p: Pick)
    requires CoreOk(c) && c.buf.None? && PickOk(c, p)
    ensures p.FromPool? ==> p.id in c.heap
    ensures CoreOk(Take(c, p)) && Take(c, p).heap[p.id].len == 0
  {
    assert p.FromPool? ==> Ref(c, InPool(p.id)) == Some(p.id);
    var d := Take(c, p);
    forall t | 0 <= t < |c.tasks| ensures Ref(c, InTask(t)) != Some(p.id) {
      if p.FromPool? { assert InPool(p.id) != InTask(t); }
    }
    TasksFramed(c, d, p.id);
    forall h | Ref(d, h).Some? ensures Ref(d, h).value in d.heap {
      assert h != Current ==> Ref(c, h) == Ref(d, h);
    }
    forall g, h | g != h && Ref(d, g).Some? && Ref(d, h).Some? ensures Ref(d, g).value != Ref(d, h).value {
      assert h != Current ==> Ref(c, h) == Ref(d, h) && Ref(d, h) != Some(p.id);
      assert g != Current ==> Ref(c, g) == Ref(d, g) && Ref(d, g) != Some(p.id);
    }
    assert Wire([]) == [];
  }

  /** If every reference of d was one of c, held by the holder that from names, nothing is shared. */
  lemma OwnedMoved(c: Core, d: Core, moved: Holder, to: Holder)
    requires OwnedOnce(c) && d.heap.Keys >= c.heap.Keys
    requires Ref(d, to) == Ref(c, moved) || Ref(d, to).None?
    requires forall h :: h != to ==> Ref(d, h) == Ref(c, h) || Ref(d, h).None?
    requires moved != to ==> Ref(d, moved).None?
    ensures OwnedOnce(d)
  {
    forall h | Ref(d, h).Some? ensures Ref(d, h).value in d.heap {
      assert Ref(c, if h == to then moved else h) == Ref(d, h);
    }
    forall g, h | g != h && Ref(d, g).Some? && Ref(d, h).Some? ensures Ref(d, g).value != Ref(d, h).value {
      var g', h' := if g == to then moved else g, if h == to then moved else h;
      assert g' != h' && Ref(c, g') == Ref(d, g) && Ref(c, h') == Ref(d, h);
    }
  }

  lemma SealKeeps(c: Core)
    requires CoreOk(c) && c.buf.Some? && c.cur != []
    ensures CoreOk(Seal(c))
  {
    var d, n := Seal(c), |c.tasks|;
    assert TaskOk(d.heap, d.tasks[n]);
    forall h | h != InTask(n) && h != Current ensures Ref(d, h) == Ref(c, h) {
      if h.InTask? && h.t < n { assert d.tasks[h.t] == c.tasks[h.t]; }
    }
    OwnedMoved(c, d, Current, InTask(n));
  }

  lemma AppendKeeps(c: Core, op: Op)
    requires CoreOk(c) && c.buf.Some?
    requires c.heap[c.buf.value].len + |FrameBytes(op.msg)| <= |c.heap[c.buf.value].mem|
    ensures CoreOk(Append(c, op))
  {
    var d, id := Append(c, op), c.buf.value;
    var b, e := c.heap[id], d.heap[id];
    assert e.mem[..e.len] == b.mem[..b.len] + FrameBytes(op.msg);
    WireSnoc(c.cur, op);
    assert Ref(c, Current) == Some(id);
    forall t | 0 <= t < |c.tasks| ensures Ref(c, InTask(t)) != Some(id) { assert InTask(t) != Current; }
    TasksFramed(c, d, id);
    assert forall h :: Ref(d, h) == Ref(c, h);
    OwnedMoved(c, d, Current, Current);
  }

  lemma OversizeKeeps(c: Core, op: Op)
    requires CoreOk(c)
    ensures CoreOk(Oversize(c, op))
  {
    var d, n := Oversize(c, op), |c.tasks|;
    WireSnoc([], op);
    assert [] + [op] == [op] && Wire([]) == [];
    assert TaskOk(d.heap, d.tasks[n]);
    forall h ensures Ref(d, h) == Ref(c, h) {
      if h.InTask? && h.t < n { assert d.tasks[h.t] == c.tasks[h.t]; }
    }
    OwnedMoved(c, d, Current, Current);
  }

  lemma FlushKeeps(c: Core, t: nat)
    requires CoreOk(c) && t < |c.tasks| && c.tasks[t].status == Pending
    ensures c.tasks[t].src.Some? ==> c.tasks[t].src.value in c.heap
    ensures CoreOk(FlushTask(c, t))
  {
    assert TaskOk(c.heap, c.tasks[t]);
    var d := FlushTask(c, t);
    forall i | 0 <= i < |d.tasks| ensures TaskOk(d.heap, d.tasks[i]) { assert TaskOk(c.heap, c.tasks[i]); }
    assert forall h :: Ref(d, h) == Ref(c, h);
    OwnedMoved(c, d, Current, Current);
  }

  /** Put by a holder that gives up its reference. The buffer cannot have been in the pool already. */
  lemma PutKeeps(c: Core, d: Core, h: Holder, id: BufId)
    requires CoreOk(c) && Ref(c, h) == Some(id) && (h.InTask? || h.Other?)
    requires d.heap == c.heap && d.free == c.free && d.buf == c.buf && d.count == c.count && d.cur == c.cur && |d.tasks| == |c.tasks|
    requires forall t :: 0 <= t < |c.tasks| ==> TaskOk(d.heap, d.tasks[t])
    requires Ref(d, h).None? && forall g :: g != h ==> Ref(d, g) == Ref(c, g)
    ensures id !in c.free && CoreOk(Put(d, id))
  {
    assert InPool(id) != h && Current != h;
    assert Ref(c, InPool(id)) != Some(id);
    var e := Put(d, id);
    forall t | 0 <= t < |d.tasks| ensures Ref(d, InTask(t)) != Some(id) {
      if InTask(t) != h { assert Ref(d, InTask(t)) == Ref(c, InTask(t)); }
    }
    TasksFramed(d, e, id);
    assert Ref(c, Current) == c.buf != Some(id);
    forall g | g != InPool(id) ensures Ref(e, g) == Ref(d, g) { }
    OwnedMoved(c, e, h, InPool(id));
  }

  lemma FinishKeeps(c: Core, t: nat)
    requires CoreOk(c) && t < |c.tasks| && c.tasks[t].status == Flushed
    ensures c.tasks[t].src.Some? ==> c.tasks[t].src.value in c.heap && c.tasks[t].src.value !in c.free
    ensures CoreOk(FinishTask(c, t))
  {
    assert TaskOk(c.heap, c.tasks[t]);
    var k := c.tasks[t];
    var d := c.(tasks := c.tasks[t := k.(status := Finished)]);
    forall i | 0 <= i < |d.tasks| ensures TaskOk(d.heap, d.tasks[i]) { assert TaskOk(c.heap, c.tasks[i]); }
    assert forall h :: h != InTask(t) ==> Ref(d, h) == Ref(c, h);
    if k.src.Some? {
      PutKeeps(c, d, InTask(t), k.src.value);
    } else {
      OwnedMoved(c, d, Current, Current);
    }
  }

  lemma OtherGetKeeps(c: Core, h: nat, p: Pick)
    requires CoreOk(c) && h !in c.held && PickOk(c, p)
    ensures p.FromPool? ==> p.id in c.heap
    ensures CoreOk(OtherGet(c, h, p))
  {
    // The reasoning of TakeKeeps, with the handle in the place of the current buffer.
    assert p.FromPool? ==> Ref(c, InPool(p.id)) == Some(p.id);
    var d := OtherGet(c, h, p);
    forall t | 0 <= t < |c.tasks| ensures Ref(c, InTask(t)) != Some(p.id) {
      if p.FromPool? { assert InPool(p.id) != InTask(t); }
    }
    TasksFramed(c, d, p.id);
    assert c.buf != Some(p.id) by {
      assert Ref(c, Current) == c.buf;
      if p.FromPool? { assert InPool(p.id) != Current; }
    }
    forall g | Ref(d, g).Some? ensures Ref(d, g).value in d.heap {
      assert g != Other(h) ==> Ref(c, g) == Ref(d, g);
    }
    forall f, g | f != g && Ref(d, f).Some? && Ref(d, g).Some? ensures Ref(d, f).value != Ref(d, g).value {
      assert f != Other(h) ==> Ref(c, f) == Ref(d, f) && Ref(d, f) != Some(p.id);
      assert g != Other(h) ==> Ref(c, g) == Ref(d, g) && Ref(d, g) != Some(p.id);
    }
  }

  lemma OtherWriteKeeps(c: Core, h: nat, b: Buf)
    requires CoreOk(c) && h in c.held && c.held[h] in c.heap && |b.mem| >= |c.heap[c.held[h]].mem|
    ensures CoreOk(OtherWrite(c, h, b))
  {
    var d, id := OtherWrite(c, h, b), c.held[h];
    assert Ref(c, Other(h)) == Some(id) && Ref(c, Current) == c.buf;
    assert c.buf != Some(id) by { assert Current != Other(h); }
    forall t | 0 <= t < |c.tasks| ensures Ref(c, InTask(t)) != Some(id) { assert InTask(t) != Other(h); }
    TasksFramed(c, d, id);
    assert forall g :: Ref(d, g) == Ref(c, g);
    OwnedMoved(c, d, Current, Current);
  }

  lemma OtherPutKeeps(c: Core, h: nat)
    requires CoreOk(c) && h in c.held
    ensures c.held[h] in c.heap && c.held[h] !in c.free && CoreOk(OtherPut(c, h))
  {
    var id, d := c.held[h], c.(held := c.held - {h});
    assert Ref(c, Other(h)) == Some(id);
    forall t | 0 <= t < |c.tasks| ensures TaskOk(d.heap, d.tasks[t]) { assert TaskOk(c.heap, c.tasks[t]); }
    assert forall g :: g != Other(h) ==> Ref(d, g) == Ref(c, g);
    PutKeeps(c, d, Other(h), id);
  }

  lemma DropKeeps(c: Core, id: BufId)
    requires CoreOk(c)
    ensures CoreOk(c.(free := c.free - {id}))
  {
    var d := c.(free := c.free - {id});
    assert forall g :: g != InPool(id) ==> Ref(d, g) == Ref(c, g);
    OwnedMoved(c, d, InPool(id), InPool(id));
  }

  // ---------- conservation ----------

  /** All operations put into tasks, in the order the tasks were made. */
  function AllOps(ts: seq<Task>): seq<Op> {
    if ts == [] then [] else AllOps(ts[..|ts| - 1]) + ts[|ts| - 1].ops
  }

  /** Everything accepted so far, in the order of the locked sections. */
  function Log(c: Core): seq<Op> { AllOps(c.tasks) + c.cur }

  lemma AllOpsSnoc(ts: seq<Task>, t: Task)
    ensures AllOps(ts + [t]) == AllOps(ts) + t.ops
  {
    assert (ts + [t])[..|ts|] == ts;
  }

  lemma {:induction false} AllOpsUpdate(ts: seq<Task>, t: nat, k: Task)
    requires t < |ts| && k.ops == ts[t].ops
    ensures AllOps(ts[t := k]) == AllOps(ts)
  {
    var n := |ts| - 1;
    if t < n {
      AllOpsUpdate(ts[..n], t, k);
      assert ts[t := k][..n] == ts[..n][t := k];
    } else {
      assert ts[t := k][..n] == ts[..n];
    }
  }

  /** The whole locked section of Add for an accepted message. */
  function AddBody(c: Core, op: Op, p: Pick): (r: Core)
    requires c.buf.Some? ==> c.buf.value in c.heap && c.heap[c.buf.value].len <= |c.heap[c.buf.value].mem|
    requires p.FromPool? ==> p.id in c.heap
  {
    Place(Rotate(Take(c, p), |FrameBytes(op.msg)|, p), op)
  }

  lemma PlaceKeeps(c: Core, op: Op)
    requires CoreOk(c) && c.buf.Some? && !Overflows(c, |FrameBytes(op.msg)|)
    ensures CoreOk(Place(c, op)) && Log(Place(c, op)) == Log(c) + [op]
    ensures |Place(c, op).tasks| <= |c.tasks| + 1
  {
    if |FrameBytes(op.msg)| > |c.heap[c.buf.value].mem| {
      OversizeKeeps(c, op);
      AllOpsSnoc(c.tasks, Oversize(c, op).tasks[|c.tasks|]);
      EmptyBuffer(c);
    } else {
      AppendKeeps(c, op);
      var d := Append(c, op);
      if Full(d) { SealKeeps(d); SealLog(d); }
    }
  }

  /** The current buffer has length zero exactly when nothing is batched. */
  lemma EmptyBuffer(c: Core)
    requires CoreOk(c) && c.buf.Some?
    ensures c.heap[c.buf.value].len == 0 <==> c.cur == []
  {
    var ms := Msgs(c.cur);
    assert ms != [] ==> Frames(ms) == FrameBytes(ms[0]) + Frames(ms[1..]);
  }

  lemma SealLog(c: Core)
    requires c.buf.Some? && c.buf.value in c.heap
    ensures Log(Seal(c)) == Log(c) && |Seal(c).tasks| == |c.tasks| + 1
  {
    AllOpsSnoc(c.tasks, Seal(c).tasks[|c.tasks|]);
  }

  /** Add appends its message to the log, keeps all invariants, and makes at most two tasks. */
  lemma AddKeeps(c: Core, op: Op, p: Pick)
    requires CoreOk(c) && AddPickOk(c, op, p)
    requires p.FromPool? ==> p.id in c.heap
    ensures CoreOk(AddBody(c, op, p)) && Log(AddBody(c, op, p)) == Log(c) + [op]
    ensures |AddBody(c, op, p).tasks| <= |c.tasks| + 2
  {
    var n := |FrameBytes(op.msg)|;
    if c.buf.None? {
      TakeKeeps(c, p);
      PlaceKeeps(Take(c, p), op);
    } else if Overflows(c, n) {
      EmptyBuffer(c);
      SealKeeps(c);
      SealLog(c);
      TakeKeeps(Seal(c), p);
      PlaceKeeps(Take(Seal(c), p), op);
    } else {
      PlaceKeeps(c, op);
    }
  }
}
