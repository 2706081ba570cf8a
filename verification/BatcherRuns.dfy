/** Every interleaving of Add calls, timer flushes and Close on one Batcher. */
module BatcherRuns {
  import opened Bytes
  import opened Frame
  import opened Batching

  datatype State = Running | Closing | Stopped

  /** lock: the Add call inside its locked section, past its state check. closing: how far Close has got:
      0 not called, 1 state stored, 2 channel closed, 3 loop waited for, 4 tasks waited for, 5 returned. */
  datatype Sys = Sys(core: Core, state: State, lock: Option<Op>, loopDone: bool, closing: nat, wgTask: nat,
                     accepted: seq<Op>, refused: seq<Op>, seen: set<nat>)

  datatype Action =
    | AddCheck(op: Op)            // Lock; load of state; on a closed batcher Unlock and ErrClosed
    | AddPlace(pick: Pick)        // the rest of the locked section; Unlock
    | Tick                        // ticker.C: the locked section of flush
    | FinalFlush                  // the closed channel: the locked section of flush, then the loop ends
    | CallFlushFn(t: nat)
    | Free(t: nat)                // FreeBuffer, wgTask.Done
    | StoreClosing | CloseChannel | WaitLoop | WaitTasks | StoreStopped
    | EnvGet(h: nat, pick: Pick) | EnvWrite(h: nat, b: Buf) | EnvPut(h: nat) | PoolDrop(id: BufId)

  const Start := Sys(Core(map[], {}, map[], None, 0, [], []), Running, None, false, 0, 0, [], [], {})

  ghost predicate Enabled(s: Sys, a: Action) {
    match a
    case AddCheck(op) => s.lock.None? && op.id !in s.seen
    case AddPlace(p) => s.lock.Some? && AddPickOk(s.core, s.lock.value, p) && (p.FromPool? ==> p.id in s.core.heap)
    case Tick => s.lock.None? && !s.loopDone
    case FinalFlush => s.lock.None? && !s.loopDone && s.closing >= 2
    case CallFlushFn(t) => t < |s.core.tasks| && s.core.tasks[t].status == Pending
    case Free(t) => t < |s.core.tasks| && s.core.tasks[t].status == Flushed
    case StoreClosing => s.closing == 0
    case CloseChannel => s.closing == 1
    case WaitLoop => s.closing == 2 && s.loopDone
    case WaitTasks => s.closing == 3 && s.wgTask == 0
    case StoreStopped => s.closing == 4
    case EnvGet(h, p) => h !in s.core.held && PickOk(s.core, p)
    case EnvWrite(h, b) =>
      h in s.core.held && s.core.held[h] in s.core.heap && |b.mem| >= |s.core.heap[s.core.held[h]].mem|
    case EnvPut(h) => h in s.core.held
    case PoolDrop(id) => true
  }

  /** A batch that is not empty becomes a task, and one more for the wait group. */
  function TakeAll(s: Sys): Sys
    requires s.core.buf.Some? ==> s.core.buf.value in s.core.heap
  {
    if s.core.count > 0 && s.core.buf.Some? then s.(core := Seal(s.core), wgTask := s.wgTask + 1) else s
  }

  ghost function Do(s: Sys, a: Action): (r: Sys)
    requires CoreOk(s.core) && Enabled(s, a)
  {
    match a
    case AddCheck(op) =>
      var t := s.(seen := s.seen + {op.id});
      if s.state == Running then t.(lock := Some(op)) else t.(refused := s.refused + [op])
    case AddPlace(p) =>
      var core := AddBody(s.core, s.lock.value, p);
      s.(core := core, lock := None, accepted := s.accepted + [s.lock.value],
         wgTask := s.wgTask + |core.tasks| - |s.core.tasks|)
    case Tick => TakeAll(s)
    case FinalFlush => TakeAll(s).(loopDone := true)
    case CallFlushFn(t) => FlushKeeps(s.core, t); s.(core := FlushTask(s.core, t))
    case Free(t) => FinishKeeps(s.core, t);
      s.(core := FinishTask(s.core, t), wgTask := if s.wgTask > 0 then s.wgTask - 1 else 0)
    case StoreClosing => s.(closing := 1, state := Closing)
    case CloseChannel => s.(closing := 2)
    case WaitLoop => s.(closing := 3)
    case WaitTasks => s.(closing := 4)
    case StoreStopped => s.(closing := 5, state := Stopped)
    case EnvGet(h, p) => OtherGetKeeps(s.core, h, p); s.(core := OtherGet(s.core, h, p))
    case EnvWrite(h, b) => s.(core := OtherWrite(s.core, h, b))
    case EnvPut(h) => OtherPutKeeps(s.core, h); s.(core := OtherPut(s.core, h))
    case PoolDrop(id) => s.(core := s.core.(free := s.core.free - {id}))
  }

  function Unfinished(ts: seq<Task>): nat {
    if ts == [] then 0 else Unfinished(ts[..|ts| - 1]) + if ts[|ts| - 1].status == Finished then 0 else 1
  }

  lemma UnfinishedSnoc(ts: seq<Task>, t: Task)
    ensures Unfinished(ts + [t]) == Unfinished(ts) + if t.status == Finished then 0 else 1
  {
    assert (ts + [t])[..|ts|] == ts;
  }

  lemma {:induction false} UnfinishedUpdate(ts: seq<Task>, t: nat, k: Task)
    requires t < |ts|
    ensures Unfinished(ts[t := k]) + (if ts[t].status == Finished then 0 else 1)
         == Unfinished(ts) + (if k.status == Finished then 0 else 1)
  {
    var n := |ts| - 1;
    if t < n {
      UnfinishedUpdate(ts[..n], t, k);
      assert ts[t := k][..n] == ts[..n][t := k];
    } else {
      assert ts[t := k][..n] == ts[..n];
    }
  }

  lemma {:induction false} UnfinishedZero(ts: seq<Task>)
    requires Unfinished(ts) == 0
    ensures forall t :: 0 <= t < |ts| ==> ts[t].status == Finished
  {
    if ts != [] {
      var n := |ts| - 1;
      UnfinishedZero(ts[..n]);
      assert forall t :: 0 <= t < n ==> ts[t] == ts[..n][t];
    }
  }

  /** Each task Add makes is pending, and one more for the wait group. */
  lemma PlaceUnfinished(c: Core, op: Op)
    requires CoreOk(c) && c.buf.Some? && !Overflows(c, |FrameBytes(op.msg)|)
    ensures Unfinished(Place(c, op).tasks) - Unfinished(c.tasks) == |Place(c, op).tasks| - |c.tasks|
  {
    var d := Place(c, op);
    if |d.tasks| > |c.tasks| { UnfinishedSnoc(c.tasks, d.tasks[|c.tasks|]); }
  }

  lemma AddUnfinished(c: Core, op: Op, p: Pick)
    requires CoreOk(c) && AddPickOk(c, op, p) && (p.FromPool? ==> p.id in c.heap)
    ensures Unfinished(AddBody(c, op, p).tasks) - Unfinished(c.tasks) == |AddBody(c, op, p).tasks| - |c.tasks|
  {
    if c.buf.None? {
      TakeKeeps(c, p);
      PlaceUnfinished(Take(c, p), op);
    } else if Overflows(c, |FrameBytes(op.msg)|) {
      EmptyBuffer(c);
      SealKeeps(c);
      UnfinishedSnoc(c.tasks, Seal(c).tasks[|c.tasks|]);
      TakeKeeps(Seal(c), p);
      PlaceUnfinished(Take(Seal(c), p), op);
    } else {
      PlaceUnfinished(c, op);
    }
  }

  // ---------- the invariant ----------

  /** Buffers, tasks and the wait group agree, and nothing accepted was lost, doubled or reordered. */
  ghost predicate DataInv(s: Sys) {
    CoreOk(s.core) && s.accepted == Log(s.core) && s.wgTask == Unfinished(s.core.tasks)
  }

  ghost predicate Distinct(ops: seq<Op>) { forall i, j :: 0 <= i < j < |ops| ==> ops[i].id != ops[j].id }

  ghost predicate Apart(ops: seq<Op>, id: nat) { forall i :: 0 <= i < |ops| ==> ops[i].id != id }

  /** No call was both accepted and refused, or accepted twice. */
  ghost predicate CallInv(s: Sys) {
    && Distinct(s.accepted) && (forall i :: 0 <= i < |s.refused| ==> Apart(s.accepted, s.refused[i].id))
    && (forall i :: 0 <= i < |s.accepted| ==> s.accepted[i].id in s.seen)
    && (forall i :: 0 <= i < |s.refused| ==> s.refused[i].id in s.seen)
    && (s.lock.Some? ==> s.lock.value.id in s.seen && Apart(s.accepted, s.lock.value.id) && Apart(s.refused, s.lock.value.id))
  }

  /** Close's waits mean what they are for. */
  ghost predicate CloseInv(s: Sys) {
    && (s.state == Running <==> s.closing == 0)
    && (s.loopDone ==> s.closing >= 2 && s.lock.None? && s.core.cur == [])
    && (s.closing >= 3 ==> s.loopDone)
    && (s.closing >= 4 ==> s.wgTask == 0)
  }

  ghost predicate Inv(s: Sys) { DataInv(s) && CallInv(s) && CloseInv(s) }

  lemma TakeAllData(s: Sys)
    requires DataInv(s)
    ensures DataInv(TakeAll(s)) && TakeAll(s).core.cur == []
  {
    var c := s.core;
    if c.count > 0 && c.buf.Some? {
      SealKeeps(c);
      SealLog(c);
      UnfinishedSnoc(c.tasks, Seal(c).tasks[|c.tasks|]);
    }
  }

  lemma TaskUpdateData(s: Sys, t: nat, k: Task)
    requires DataInv(s) && t < |s.core.tasks| && k.ops == s.core.tasks[t].ops
    ensures AllOps(s.core.tasks[t := k]) == AllOps(s.core.tasks)
    ensures Unfinished(s.core.tasks[t := k]) + (if s.core.tasks[t].status == Finished then 0 else 1)
         == s.wgTask + (if k.status == Finished then 0 else 1)
  {
    AllOpsUpdate(s.core.tasks, t, k);
    UnfinishedUpdate(s.core.tasks, t, k);
  }

  lemma AddData(s: Sys, p: Pick)
    requires DataInv(s) && Enabled(s, AddPlace(p))
    ensures DataInv(Do(s, AddPlace(p)))
  {
    AddKeeps(s.core, s.lock.value, p);
    AddUnfinished(s.core, s.lock.value, p);
  }

  lemma FlushData(s: Sys, t: nat)
    requires DataInv(s) && Enabled(s, CallFlushFn(t))
    ensures DataInv(Do(s, CallFlushFn(t)))
  {
    FlushKeeps(s.core, t);
    TaskUpdateData(s, t, FlushTask(s.core, t).tasks[t]);
  }

  lemma FreeData(s: Sys, t: nat)
    requires DataInv(s) && Enabled(s, Free(t))
    ensures DataInv(Do(s, Free(t)))
  {
    FinishKeeps(s.core, t);
    TaskUpdateData(s, t, s.core.tasks[t].(status := Finished));
  }

  lemma EnvData(s: Sys, a: Action)
    requires DataInv(s) && Enabled(s, a) && (a.EnvGet? || a.EnvWrite? || a.EnvPut? || a.PoolDrop?)
    ensures DataInv(Do(s, a))
  {
    match a {
      case EnvGet(h, p) => OtherGetKeeps(s.core, h, p);
      case EnvWrite(h, b) => OtherWriteKeeps(s.core, h, b);
      case EnvPut(h) => OtherPutKeeps(s.core, h);
      case PoolDrop(id) => DropKeeps(s.core, id);
    }
  }

  lemma DataStep(s: Sys, a: Action)
    requires DataInv(s) && Enabled(s, a)
    ensures DataInv(Do(s, a))
  {
    match a {
      case AddPlace(p) => AddData(s, p);
      case Tick => TakeAllData(s);
      case FinalFlush => TakeAllData(s);
      case CallFlushFn(t) => FlushData(s, t);
      case Free(t) => FreeData(s, t);
      case EnvGet(_, _) => EnvData(s, a);
      case EnvWrite(_, _) => EnvData(s, a);
      case EnvPut(_) => EnvData(s, a);
      case PoolDrop(_) => EnvData(s, a);
      case _ =>
    }
  }

  lemma CallStep(s: Sys, a: Action)
    requires CoreOk(s.core) && CallInv(s) && Enabled(s, a)
    ensures CallInv(Do(s, a))
  {
  }

  lemma CloseStep(s: Sys, a: Action)
    requires DataInv(s) && CloseInv(s) && Enabled(s, a)
    ensures CloseInv(Do(s, a))
  {
    match a {
      case FinalFlush => TakeAllData(s);
      case Tick => TakeAllData(s);
      case _ =>
    }
  }

  /** A run: the state after doing the actions in turn, or None when one of them was not enabled. */
  ghost function Run(acts: seq<Action>): (r: Option<Sys>)
    ensures r.Some? ==> Inv(r.value)
  {
    if acts == [] then Some(Start)
    else
      var s := Run(acts[..|acts| - 1]);
      var a := acts[|acts| - 1];
      if s.None? || !Enabled(s.value, a) then None
      else
        DataStep(s.value, a);
        CallStep(s.value, a);
        CloseStep(s.value, a);
        Some(Do(s.value, a))
  }

  // ---------- what a run guarantees ----------

  /** op was batched into task t. */
  predicate InTaskOf(s: Sys, op: Op, t: nat) { t < |s.core.tasks| && op in s.core.tasks[t].ops }

  lemma {:induction false} AllOpsMember(ts: seq<Task>, op: Op)
    ensures op in AllOps(ts) <==> exists t :: 0 <= t < |ts| && op in ts[t].ops
  {
    if ts != [] {
      var n := |ts| - 1;
      AllOpsMember(ts[..n], op);
      assert forall t :: 0 <= t < n ==> ts[..n][t] == ts[t];
    }
  }

  /** Where the operations of task t start in the log. */
  function Offset(ts: seq<Task>, t: nat): nat
    requires t <= |ts|
  {
    |AllOps(ts[..t])|
  }

  lemma {:induction false} OffsetGrows(ts: seq<Task>, t: nat, u: nat)
    requires t <= u <= |ts|
    ensures Offset(ts, t) <= Offset(ts, u)
  {
    if t < u {
      OffsetGrows(ts, t, u - 1);
      assert ts[..u][..u - 1] == ts[..u - 1];
    }
  }

  /** The position in the log of an operation of task t. */
  lemma {:induction false} Position(ts: seq<Task>, op: Op, t: nat) returns (i: nat)
    requires t < |ts| && op in ts[t].ops
    ensures Offset(ts, t) <= i < Offset(ts, t + 1) && i < |AllOps(ts)| && AllOps(ts)[i] == op
  {
    var n := |ts| - 1;
    assert ts[..t + 1][..t] == ts[..t];
    if t < n {
      i := Position(ts[..n], op, t);
      assert ts[..n][..t] == ts[..t] && ts[..n][..t + 1] == ts[..t + 1];
    } else {
      var j :| 0 <= j < |ts[n].ops| && ts[n].ops[j] == op;
      i := Offset(ts, n) + j;
      assert ts[..n + 1] == ts;
    }
  }

  lemma SamePlace(ops: seq<Op>, i: nat, j: nat)
    requires Distinct(ops) && i < |ops| && j < |ops| && ops[i] == ops[j]
    ensures i == j
  {
  }

  lemma OneTask(s: Sys, op: Op, t: nat, u: nat)
    requires Distinct(AllOps(s.core.tasks)) && InTaskOf(s, op, t) && InTaskOf(s, op, u)
    ensures t == u
  {
    var ts := s.core.tasks;
    var i := Position(ts, op, t);
    var j := Position(ts, op, u);
    SamePlace(AllOps(ts), i, j);
    if t + 1 <= u { OffsetGrows(ts, t + 1, u); }
    if u + 1 <= t { OffsetGrows(ts, u + 1, t); }
  }

  /** At every moment of every run: no buffer has two holders, every buffer in the pool, current, in flight or
      with another client has at least the standard capacity, and a handed-over buffer was exactly its frames. */
  lemma Always(acts: seq<Action>)
    requires Run(acts).Some?
    ensures var s := Run(acts).value;
            && OwnedOnce(s.core) && RoomyHeap(s.core)
            && forall t :: 0 <= t < |s.core.tasks| && s.core.tasks[t].status != Pending ==>
                 s.core.tasks[t].out == Wire(s.core.tasks[t].ops) && s.core.tasks[t].count == |s.core.tasks[t].ops|
  {
    var s := Run(acts).value;
    assert forall t :: 0 <= t < |s.core.tasks| ==> TaskOk(s.core.heap, s.core.tasks[t]);
  }

  /** The receiver of a handed-over buffer calls back exactly the messages batched into it, in order,
      if and only if each of them fits its length field. */
  lemma Received(acts: seq<Action>, t: nat)
    requires Run(acts).Some? && t < |Run(acts).value.core.tasks| && Run(acts).value.core.tasks[t].status != Pending
    ensures var k := Run(acts).value.core.tasks[t];
            && |Msgs(k.ops)| == k.count
            && (DecodeMany(k.out) == Batch(Msgs(k.ops), None) <==> forall m :: m in Msgs(k.ops) ==> Fits(m))
  {
    Always(acts);
    WireExact(Msgs(Run(acts).value.core.tasks[t].ops));
  }

  /** Every accepted call is in exactly one buffer, each such buffer was handed to flushFn and is done with,
      and the buffers hold the calls in the order of their locked sections. */
  ghost predicate Delivered(s: Sys) {
    && AllOps(s.core.tasks) == s.accepted
    && (forall t :: 0 <= t < |s.core.tasks| ==> s.core.tasks[t].status == Finished)
    && forall op :: op in s.accepted ==> exists t :: InTaskOf(s, op, t) && forall u :: InTaskOf(s, op, u) ==> u == t
  }

  lemma ClosedDelivered(s: Sys)
    requires Inv(s) && s.closing == 5
    ensures Delivered(s)
  {
    UnfinishedZero(s.core.tasks);
    assert s.accepted == AllOps(s.core.tasks) by { assert AllOps(s.core.tasks) + [] == AllOps(s.core.tasks); }
    forall op | op in s.accepted
      ensures exists t :: InTaskOf(s, op, t) && forall u :: InTaskOf(s, op, u) ==> u == t
    {
      ExactlyOne(s, op);
    }
  }

  /** In every run in which Close has returned, all accepted calls were delivered. */
  lemma CloseDelivers(acts: seq<Action>)
    requires Run(acts).Some? && Run(acts).value.closing == 5
    ensures Delivered(Run(acts).value)
  {
    ClosedDelivered(Run(acts).value);
  }

  lemma ExactlyOne(s: Sys, op: Op)
    requires Distinct(AllOps(s.core.tasks)) && op in AllOps(s.core.tasks)
    ensures exists t :: InTaskOf(s, op, t) && forall u :: InTaskOf(s, op, u) ==> u == t
  {
    AllOpsMember(s.core.tasks, op);
    var t :| 0 <= t < |s.core.tasks| && op in s.core.tasks[t].ops;
    forall u | InTaskOf(s, op, u) ensures u == t { OneTask(s, op, t, u); }
    assert InTaskOf(s, op, t);
  }

  /** At no moment of any run is a refused call in a buffer. */
  lemma RefusedNowhere(acts: seq<Action>, op: Op, t: nat)
    requires Run(acts).Some? && op in Run(acts).value.refused
    ensures !InTaskOf(Run(acts).value, op, t) && op !in Run(acts).value.core.cur
  {
    var s := Run(acts).value;
    AllOpsMember(s.core.tasks, op);
    var i :| 0 <= i < |s.refused| && s.refused[i] == op;
    assert Apart(s.accepted, op.id);
    assert op !in Log(s.core);
  }
}
