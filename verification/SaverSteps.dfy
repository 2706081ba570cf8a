/** One saver goroutine against stores whose calls may fail after doing any part of their work. */
module SaverSteps {
  import opened Bytes
  import opened SaverData

  const CHUNK_SIZE: nat := 1000

  datatype Stores = Stores(redis: Store, mongo: Store)

  /** final: inside the branch taken once closeCh is closed. A flush goes through the listing order of the
      batch in chunks starting at at. */
  datatype Mode =
    | Waiting
    | Merging(final: bool)
    | ToRedis(order: seq<Id>, at: nat, final: bool)
    | ToMongo(order: seq<Id>, at: nat, final: bool)
    | Posting(order: seq<Id>, at: nat, final: bool)
    | Finishing
    | Returned

  /** queue: the write side of the SwapQueue; hand: swapped out, not yet merged. */
  datatype Saver = Saver(queue: seq<SaveOp>, hand: seq<SaveOp>, batch: Batch, mode: Mode, closed: bool)

  datatype Action =
    | Swap | SeeClose | MergeNext | MergeEnd
    | StartFlush(order: seq<Id>)
    | ExecPipe(applied: set<Id>, ok: bool)
    | BulkWrite(applied: set<Id>, ok: bool)
    | Posted
    | Return

  const NewSaver := Saver([], [], map[], Waiting, false)

  function ChunkEnd(order: seq<Id>, at: nat): nat {
    if at + CHUNK_SIZE > |order| then |order| else at + CHUNK_SIZE
  }

  function ChunkIds(order: seq<Id>, at: nat): seq<Id> {
    if at < |order| then order[at..ChunkEnd(order, at)] else []
  }

  function Chunk(order: seq<Id>, at: nat): set<Id> { set i | at <= i < ChunkEnd(order, at) :: order[i] }

  /** The ids of the chunk that saveToDB makes a write model for. */
  function Models(b: Batch, order: seq<Id>, at: nat): set<Id> {
    set id | id in Chunk(order, at) && id in b && b[id].both && b[id].data != map[]
  }

  ghost predicate Enabled(v: Saver, a: Action) {
    match a
    case Swap => v.mode.Waiting?
    case SeeClose => v.mode.Waiting? && v.closed
    case MergeNext => v.mode.Merging? && v.hand != []
    case MergeEnd => v.mode.Merging? && v.hand == []
    case StartFlush(order) =>
      (v.mode.Waiting? || v.mode.Finishing?) && v.batch != map[] && multiset(order) == multiset(v.batch.Keys)
    case ExecPipe(applied, ok) =>
      // HSET without a field is refused, the other commands may or may not have been done
      && v.mode.ToRedis? && applied <= Chunk(v.mode.order, v.mode.at)
      && (forall id :: id in applied ==> Data(v.batch, id) != map[])
      && (ok ==> applied == Chunk(v.mode.order, v.mode.at))
    case BulkWrite(applied, ok) =>
      && v.mode.ToMongo? && applied <= Models(v.batch, v.mode.order, v.mode.at)
      && (ok ==> applied == Models(v.batch, v.mode.order, v.mode.at))
    case Posted => v.mode.Posting?
    case Return => v.mode.Finishing? && v.batch == map[]
  }

  /** Each of ids is written its part of the batch. */
  function SetAll(s: Store, b: Batch, ids: set<Id>): Store {
    map id | id in s.Keys + ids :: if id in ids then Get(s, id) + Data(b, id) else s[id]
  }

  lemma SetAllGet(s: Store, b: Batch, ids: set<Id>, id: Id)
    ensures Get(SetAll(s, b, ids), id) == if id in ids then Get(s, id) + Data(b, id) else Get(s, id)
  {
  }

  function Back(final: bool): Mode { if final then Finishing else Waiting }

  /** On to the next chunk; past the last one the batch is saved and a new one begun. */
  function NextChunk(v: Saver, order: seq<Id>, at: nat, final: bool): Saver {
    if at + CHUNK_SIZE >= |order| then v.(batch := map[], mode := Back(final))
    else v.(mode := ToRedis(order, at + CHUNK_SIZE, final))
  }

  /** saveToDB succeeded; only if it wrote anything does it post EvtSaveSuccess. */
  function AfterBulk(v: Saver, wrote: bool): Saver
    requires v.mode.ToMongo?
  {
    if wrote then v.(mode := Posting(v.mode.order, v.mode.at, v.mode.final))
    else NextChunk(v, v.mode.order, v.mode.at, v.mode.final)
  }

  function DoSaver(v: Saver, a: Action): Saver
    requires (a.MergeNext? ==> v.hand != []) && (a.MergeEnd? ==> v.mode.Merging?)
    requires (a.ExecPipe? ==> v.mode.ToRedis?) && (a.BulkWrite? ==> v.mode.ToMongo?) && (a.Posted? ==> v.mode.Posting?)
  {
    match a
    case Swap => if v.queue == [] then v else v.(hand := v.queue, queue := [], mode := Merging(false))
    case SeeClose => v.(hand := v.queue, queue := [], mode := Merging(true))
    case MergeNext => v.(batch := MergeOp(v.batch, v.hand[0]), hand := v.hand[1..])
    case MergeEnd => v.(mode := Back(v.mode.final))
    case StartFlush(order) => v.(mode := ToRedis(order, 0, v.mode.Finishing?))
    case ExecPipe(_, ok) =>
      v.(mode := if ok then ToMongo(v.mode.order, v.mode.at, v.mode.final) else Back(v.mode.final))
    case BulkWrite(_, ok) =>
      if !ok then v.(mode := Back(v.mode.final))
      else AfterBulk(v, Models(v.batch, v.mode.order, v.mode.at) != {})
    case Posted => NextChunk(v, v.mode.order, v.mode.at, v.mode.final)
    case Return => v.(mode := Returned)
  }

  function DoStores(st: Stores, v: Saver, a: Action): Stores {
    match a
    case ExecPipe(applied, _) => st.(redis := SetAll(st.redis, v.batch, applied))
    case BulkWrite(applied, _) => st.(mongo := SetAll(st.mongo, v.batch, applied))
    case _ => st
  }

  // ---------- what is pending ----------

  /** What Redis will say of id once everything pending is written. */
  function View(st: Stores, v: Saver, id: Id): Doc {
    Get(st.redis, id) + Data(v.batch, id) + (ForId(v.hand, id) + ForId(v.queue, id))
  }

  /** Redis took the HSET of id, which must have had a field. */
  ghost predicate InRedis(st: Stores, b: Batch, id: Id) {
    id in b && b[id].data != map[] && Covers(Get(st.redis, id), b[id].data)
  }

  ghost predicate Saved(st: Stores, b: Batch, id: Id) {
    InRedis(st, b, id) && (b[id].both ==> Covers(Get(st.mongo, id), b[id].data))
  }

  /** How far a flush has got. */
  ghost predicate Progress(st: Stores, b: Batch, m: Mode) {
    m.ToRedis? || m.ToMongo? || m.Posting? ==>
      && (forall id :: id in b <==> id in m.order)
      && (forall i :: 0 <= i < m.at < |m.order| ==> Saved(st, b, m.order[i]))
      && (m.ToMongo? ==> forall i :: m.at <= i < ChunkEnd(m.order, m.at) ==> InRedis(st, b, m.order[i]))
      && (m.Posting? ==> forall i :: m.at <= i < ChunkEnd(m.order, m.at) ==> Saved(st, b, m.order[i]))
      && m.at < |m.order|
  }

  predicate Final(m: Mode) {
    m.Finishing? || m.Returned? || ((m.Merging? || m.ToRedis? || m.ToMongo? || m.Posting?) && m.final)
  }

  ghost predicate SaverOk(st: Stores, v: Saver) {
    && BatchOk(v.batch) && Progress(st, v.batch, v.mode)
    && (v.hand != [] ==> v.mode.Merging?)
    && (Final(v.mode) ==> v.closed && v.queue == [])
    && (v.mode.Returned? ==> v.batch == map[])
  }

  // ---------- what every step keeps ----------

  lemma SwapKeeps(st: Stores, v: Saver, a: Action, id: Id)
    requires SaverOk(st, v) && Enabled(v, a) && (a.Swap? || a.SeeClose?)
    ensures SaverOk(st, DoSaver(v, a)) && View(st, DoSaver(v, a), id) == View(st, v, id)
  {
    OverlayNone(ForId(v.queue, id));
  }

  lemma MergeKeeps(st: Stores, v: Saver, id: Id)
    requires SaverOk(st, v) && Enabled(v, MergeNext)
    ensures SaverOk(st, DoSaver(v, MergeNext)) && View(st, DoSaver(v, MergeNext), id) == View(st, v, id)
  {
    var op, d := v.hand[0], Get(st.redis, id);
    var h, q := ForId(v.hand[1..], id), ForId(v.queue, id);
    MergeFolds(v.batch, op, id);
    ForIdFirst(v.hand, id);
    var m := Mine(op, id);
    Overlay3(d, Data(v.batch, id), m);
    Overlay3(d + Data(v.batch, id), m, h + q);
    Overlay3(m, h, q);
  }

  /** Writing part of the batch again changes nothing about what is pending. */
  lemma SetAllView(st: Stores, v: Saver, ids: set<Id>, id: Id)
    ensures View(st.(redis := SetAll(st.redis, v.batch, ids)), v, id) == View(st, v, id)
  {
    SetAllGet(st.redis, v.batch, ids, id);
    OverlayCovered(Get(st.redis, id), Data(v.batch, id));
  }

  /** What a store has of the batch it keeps when the batch is written to it again. */
  lemma SetAllCovers(s: Store, b: Batch, ids: set<Id>, id: Id)
    requires id in b
    ensures Covers(Get(s, id), b[id].data) || id in ids ==> Covers(Get(SetAll(s, b, ids), id), b[id].data)
  {
    SetAllGet(s, b, ids, id);
    OverlayCovered(Get(s, id), b[id].data);
  }

  lemma PipeKeeps(st: Stores, v: Saver, applied: set<Id>, ok: bool)
    requires SaverOk(st, v) && Enabled(v, ExecPipe(applied, ok))
    ensures SaverOk(DoStores(st, v, ExecPipe(applied, ok)), DoSaver(v, ExecPipe(applied, ok)))
  {
    var st', m := DoStores(st, v, ExecPipe(applied, ok)), v.mode;
    forall i | 0 <= i < m.at ensures Saved(st', v.batch, m.order[i]) {
      SetAllCovers(st.redis, v.batch, applied, m.order[i]);
    }
    forall i | m.at <= i < ChunkEnd(m.order, m.at) && ok ensures InRedis(st', v.batch, m.order[i]) {
      assert m.order[i] in Chunk(m.order, m.at);
      SetAllCovers(st.redis, v.batch, applied, m.order[i]);
    }
  }

  lemma BulkSaved(st: Stores, v: Saver, applied: set<Id>, id: Id)
    requires id in v.batch && InRedis(st, v.batch, id)
    requires Saved(st, v.batch, id) || (v.batch[id].both && v.batch[id].data != map[] ==> id in applied)
    ensures Saved(st.(mongo := SetAll(st.mongo, v.batch, applied)), v.batch, id)
  {
    SetAllCovers(st.mongo, v.batch, applied, id);
  }

  /** At the end of a chunk, the whole listing so far is saved. */
  lemma NextChunkKeeps(st: Stores, v: Saver, order: seq<Id>, at: nat, final: bool)
    requires BatchOk(v.batch) && v.hand == [] && (final ==> v.closed && v.queue == []) && at < |order|
    requires forall id :: id in v.batch <==> id in order
    requires forall i :: 0 <= i < ChunkEnd(order, at) ==> Saved(st, v.batch, order[i])
    ensures SaverOk(st, NextChunk(v, order, at, final))
  {
  }

  lemma BulkOne(st: Stores, v: Saver, i: nat)
    requires Progress(st, v.batch, v.mode) && v.mode.ToMongo? && i < ChunkEnd(v.mode.order, v.mode.at)
    ensures var applied := Models(v.batch, v.mode.order, v.mode.at);
            Saved(st.(mongo := SetAll(st.mongo, v.batch, applied)), v.batch, v.mode.order[i])
  {
    var m := v.mode;
    var id := m.order[i];
    if i < m.at {
      assert Saved(st, v.batch, id);
    } else {
      assert id in Chunk(m.order, m.at) && InRedis(st, v.batch, id);
    }
    BulkSaved(st, v, Models(v.batch, m.order, m.at), id);
  }

  lemma AfterBulkKeeps(st: Stores, v: Saver, wrote: bool)
    requires SaverOk(st, v) && v.mode.ToMongo?
    requires forall i :: 0 <= i < ChunkEnd(v.mode.order, v.mode.at) ==> Saved(st, v.batch, v.mode.order[i])
    ensures SaverOk(st, AfterBulk(v, wrote))
  {
    if !wrote { NextChunkKeeps(st, v, v.mode.order, v.mode.at, v.mode.final); }
  }

  lemma BulkProgress(st: Stores, v: Saver, applied: set<Id>)
    requires SaverOk(st, v) && v.mode.ToMongo?
    ensures SaverOk(st.(mongo := SetAll(st.mongo, v.batch, applied)), v)
  {
    var m, st' := v.mode, st.(mongo := SetAll(st.mongo, v.batch, applied));
    forall i | 0 <= i < m.at ensures Saved(st', v.batch, m.order[i]) {
      assert Saved(st, v.batch, m.order[i]);
      BulkSaved(st, v, applied, m.order[i]);
    }
    assert forall id :: InRedis(st', v.batch, id) == InRedis(st, v.batch, id);
  }

  lemma BulkKeeps(st: Stores, v: Saver, applied: set<Id>, ok: bool)
    requires SaverOk(st, v) && Enabled(v, BulkWrite(applied, ok))
    ensures SaverOk(DoStores(st, v, BulkWrite(applied, ok)), DoSaver(v, BulkWrite(applied, ok)))
  {
    if ok {
      var m, st' := v.mode, DoStores(st, v, BulkWrite(applied, ok));
      BulkProgress(st, v, applied);
      forall i | 0 <= i < ChunkEnd(m.order, m.at) ensures Saved(st', v.batch, m.order[i]) { BulkOne(st, v, i); }
      AfterBulkKeeps(st', v, applied != {});
    }
  }

  lemma PostedKeeps(st: Stores, v: Saver)
    requires SaverOk(st, v) && v.mode.Posting?
    ensures SaverOk(st, DoSaver(v, Posted))
  {
    NextChunkKeeps(st, v, v.mode.order, v.mode.at, v.mode.final);
  }

  lemma FlushedAll(st: Stores, v: Saver, a: Action, id: Id)
    requires SaverOk(st, v) && Enabled(v, a) && DoSaver(v, a).batch == map[] && id in v.batch
    ensures Saved(DoStores(st, v, a), v.batch, id)
  {
    assert !a.MergeNext?;
    var i :| 0 <= i < |v.mode.order| && v.mode.order[i] == id;
    if a.BulkWrite? { BulkOne(st, v, i); }
  }

  /** A flush that reaches the end of its listing has saved the whole batch: Redis has every field of every id,
      and Mongo agrees with Redis on those of every id flagged Both. */
  lemma FlushSaves(st: Stores, v: Saver, a: Action, id: Id, f: Str)
    requires SaverOk(st, v) && Enabled(v, a) && DoSaver(v, a).batch == map[]
    requires id in v.batch && f in v.batch[id].data
    ensures var st' := DoStores(st, v, a);
            && f in Get(st'.redis, id) && Get(st'.redis, id)[f] == v.batch[id].data[f]
            && (v.batch[id].both ==> f in Get(st'.mongo, id) && Get(st'.mongo, id)[f] == Get(st'.redis, id)[f])
  {
    FlushedAll(st, v, a, id);
  }

  /** When a whole batch is saved, dropping it changes nothing about what is pending. */
  lemma DropSaved(st: Stores, v: Saver, mode: Mode, id: Id)
    requires id in v.batch ==> InRedis(st, v.batch, id)
    ensures View(st, v.(batch := map[], mode := mode), id) == View(st, v, id)
  {
    OverlayNone(Get(st.redis, id));
    OverlayCovered(Get(st.redis, id), Data(v.batch, id));
  }

  lemma StepOk(st: Stores, v: Saver, a: Action)
    requires SaverOk(st, v) && Enabled(v, a)
    ensures SaverOk(DoStores(st, v, a), DoSaver(v, a))
  {
    match a {
      case Swap => SwapKeeps(st, v, a, 0);
      case SeeClose => SwapKeeps(st, v, a, 0);
      case MergeNext => MergeKeeps(st, v, 0);
      case ExecPipe(applied, ok) => PipeKeeps(st, v, applied, ok);
      case BulkWrite(applied, ok) => BulkKeeps(st, v, applied, ok);
      case Posted => PostedKeeps(st, v);
      case StartFlush(order) => assert forall id :: id in v.batch <==> id in multiset(order);
      case _ =>
    }
  }

  /** No step of the saver, failed, partial or retried, changes what is stored overlaid with what is pending. */
  lemma StepView(st: Stores, v: Saver, a: Action, id: Id)
    requires SaverOk(st, v) && Enabled(v, a)
    ensures View(DoStores(st, v, a), DoSaver(v, a), id) == View(st, v, id)
  {
    match a {
      case Swap => SwapKeeps(st, v, a, id);
      case SeeClose => SwapKeeps(st, v, a, id);
      case MergeNext => MergeKeeps(st, v, id);
      case ExecPipe(applied, ok) => SetAllView(st, v, applied, id);
      case BulkWrite(_, _) => EndView(st, v, a, id);
      case Posted => EndView(st, v, a, id);
      case _ =>
    }
  }

  lemma EndBatch(v: Saver, a: Action)
    requires Enabled(v, a) && (a.BulkWrite? || a.Posted?)
    ensures var w := DoSaver(v, a); w == v.(mode := w.mode) || w == v.(batch := map[], mode := w.mode)
  {
  }

  lemma EndView(st: Stores, v: Saver, a: Action, id: Id)
    requires SaverOk(st, v) && Enabled(v, a) && (a.BulkWrite? || a.Posted?)
    ensures View(DoStores(st, v, a), DoSaver(v, a), id) == View(st, v, id)
  {
    var w, st' := DoSaver(v, a), DoStores(st, v, a);
    EndBatch(v, a);
    assert View(st', v, id) == View(st, v, id);
    if w == v.(mode := w.mode) {
      assert View(st', w, id) == View(st', v, id);
    } else {
      if id in v.batch { FlushedAll(st, v, a, id); }
      DropSaved(st', v, w.mode, id);
    }
  }

  /** Only ids of the batch are written. */
  lemma StepFrame(st: Stores, v: Saver, a: Action, id: Id)
    requires Progress(st, v.batch, v.mode) && Enabled(v, a) && id !in v.batch
    ensures Get(DoStores(st, v, a).redis, id) == Get(st.redis, id) && Get(DoStores(st, v, a).mongo, id) == Get(st.mongo, id)
  {
    if a.ExecPipe? { SetAllGet(st.redis, v.batch, a.applied, id); }
    if a.BulkWrite? { SetAllGet(st.mongo, v.batch, a.applied, id); }
  }

  // ---------- a save without fields ----------

  /** A save without a field is in the batch, and Redis will refuse it. */
  predicate Stuck(v: Saver, id: Id) { id in v.batch && v.batch[id].data == map[] }

  /** The step that merges a save with a field for id. */
  ghost predicate GivesField(v: Saver, a: Action, id: Id) {
    a.MergeNext? && v.hand != [] && v.hand[0].id == id && v.hand[0].data != map[]
  }

  /** A batch that holds such a save is not emptied, whatever the stores do, until a field is merged for its id. */
  lemma StuckStep(st: Stores, v: Saver, a: Action, id: Id)
    requires SaverOk(st, v) && Enabled(v, a) && Stuck(v, id) && !GivesField(v, a, id)
    ensures Stuck(DoSaver(v, a), id) && !DoSaver(v, a).mode.Returned?
  {
    if a.MergeNext? {
      MergeFolds(v.batch, v.hand[0], id);
    } else if a.BulkWrite? || a.Posted? {
      StuckEnd(st, v, a, id);
    }
  }

  lemma StuckEnd(st: Stores, v: Saver, a: Action, id: Id)
    requires SaverOk(st, v) && Enabled(v, a) && Stuck(v, id) && (a.BulkWrite? || a.Posted?)
    ensures Stuck(DoSaver(v, a), id) && !DoSaver(v, a).mode.Returned?
  {
    EndBatch(v, a);
    if DoSaver(v, a).batch == map[] { FlushedAll(st, v, a, id); }
  }
}
