/** The saver's own code: the batch merged in place, the chunk loop, and the stores it writes to. */
module SaverObject {
  import opened Bytes
  import opened SaverData
  import opened SaverSteps

  class Db {
    var redis: Store
    var mongo: Store

    ghost function Now(): Stores
      reads this
    {
      Stores(redis, mongo)
    }
  }

  /** How one chunk fares: which commands of a failing pipeline or bulk write are done all the same. */
  datatype Fault = Fault(pipeFails: bool, pipeDone: set<Id>, bulkFails: bool, bulkDone: set<Id>)

  /** Some ids of the batch were written their part of it, nothing else changed. */
  ghost predicate Between(s: Store, s': Store, b: Batch) {
    forall id :: Get(s', id) == Get(s, id) || (id in b && Get(s', id) == Get(s, id) + b[id].data)
  }

  lemma BetweenThen(s: Store, s': Store, s'': Store, b: Batch)
    requires Between(s, s', b) && Between(s', s'', b)
    ensures Between(s, s'', b)
  {
    forall id ensures Get(s'', id) == Get(s, id) || (id in b && Get(s'', id) == Get(s, id) + b[id].data) {
      if id in b { OverlayCovered(Get(s, id), b[id].data); }
    }
  }

  lemma BetweenSet(s: Store, b: Batch, op: SaveOp)
    requires op.id in b && b[op.id] == op
    ensures Between(s, Set(s, op.id, op.data), b) && Covers(Get(Set(s, op.id, op.data), op.id), op.data)
  {
    OverlayCovered(Get(s, op.id), op.data);
  }

  lemma BetweenCovers(s: Store, s': Store, b: Batch, id: Id)
    requires Between(s, s', b) && id in b && Covers(Get(s, id), b[id].data)
    ensures Covers(Get(s', id), b[id].data)
  {
    OverlayCovered(Get(s, id), b[id].data);
  }

  /** What is pending over what is stored is as before. */
  lemma BetweenPending(s: Store, s': Store, b: Batch, id: Id)
    requires Between(s, s', b)
    ensures Get(s', id) + Data(b, id) == Get(s, id) + Data(b, id)
  {
    OverlayCovered(Get(s, id), Data(b, id));
  }

  ghost predicate FromBatch(ops: seq<SaveOp>, b: Batch) {
    forall i :: 0 <= i < |ops| ==> ops[i].id in b && b[ops[i].id] == ops[i]
  }

  /** Each field of data is written into the other document, in the order of keys. */
  method SetFields(into: Doc, data: Doc, keys: seq<Str>) returns (r: Doc)
    requires forall f :: f in data <==> f in keys
    ensures r == into + data
  {
    r := into;
    for i := 0 to |keys|
      invariant forall f :: f in r <==> f in into || f in keys[..i]
      invariant forall f :: f in r ==> r[f] == if f in keys[..i] then data[f] else into[f]
    {
      r := r[keys[i] := data[keys[i]]];
      assert keys[..i + 1] == keys[..i] + [keys[i]];
    }
    assert keys[..|keys|] == keys;
  }

  class Saver {
    var batch: Batch
    const db: Db

    constructor (db: Db)
      ensures this.db == db && batch == map[]
    {
      this.db := db;
      batch := map[];
    }

    /** merge: keys is the order in which the fields of op are met. */
    method Merge(op: SaveOp, keys: seq<Str>)
      requires forall f :: f in op.data <==> f in keys
      modifies this
      ensures batch == MergeOp(old(batch), op)
    {
      if op.id in batch {
        var was := batch[op.id];
        var data := SetFields(was.data, op.data, keys);
        batch := batch[op.id := SaveOp(was.id, data, was.both || op.both)];
      } else {
        batch := batch[op.id := op];
      }
    }

    /** The pipeline of saveChunk: HSET for each, refused for an op without fields. */
    method ExecPipe(chunk: seq<SaveOp>, fault: Fault) returns (ok: bool)
      requires FromBatch(chunk, batch)
      modifies db`redis
      ensures Between(old(db.redis), db.redis, batch)
      ensures ok <==> !fault.pipeFails && forall i :: 0 <= i < |chunk| ==> chunk[i].data != map[]
      ensures ok ==> forall i :: 0 <= i < |chunk| ==> Covers(Get(db.redis, chunk[i].id), chunk[i].data)
    {
      ok := !fault.pipeFails;
      ghost var s0 := db.redis;
      for i := 0 to |chunk|
        invariant Between(s0, db.redis, batch)
        invariant ok <==> !fault.pipeFails && forall j :: 0 <= j < i ==> chunk[j].data != map[]
        invariant ok ==> forall j :: 0 <= j < i ==> Covers(Get(db.redis, chunk[j].id), chunk[j].data)
      {
        var op := chunk[i];
        if op.data == map[] {
          ok := false;
        } else if !fault.pipeFails || op.id in fault.pipeDone {
          ghost var s1 := db.redis;
          db.redis := Set(db.redis, op.id, op.data);
          BetweenSet(s1, batch, op);
          BetweenThen(s0, s1, db.redis, batch);
          forall j | 0 <= j < i && ok ensures Covers(Get(db.redis, chunk[j].id), chunk[j].data) {
            BetweenCovers(s1, db.redis, batch, chunk[j].id);
          }
        }
      }
    }

    /** saveToDB: an unordered bulk of upserts, without the documents that have no field. */
    method SaveToDB(toDB: seq<SaveOp>, fault: Fault) returns (ok: bool)
      requires FromBatch(toDB, batch)
      modifies db`mongo
      ensures Between(old(db.mongo), db.mongo, batch)
      ensures ok <==> !fault.bulkFails || forall i :: 0 <= i < |toDB| ==> toDB[i].data == map[]
      ensures ok ==> forall i :: 0 <= i < |toDB| ==> Covers(Get(db.mongo, toDB[i].id), toDB[i].data)
    {
      ghost var s0 := db.mongo;
      var any := false;
      for i := 0 to |toDB|
        invariant Between(s0, db.mongo, batch)
        invariant any <==> exists j :: 0 <= j < i && toDB[j].data != map[]
        invariant !any || !fault.bulkFails ==>
          forall j :: 0 <= j < i ==> Covers(Get(db.mongo, toDB[j].id), toDB[j].data)
      {
        var op := toDB[i];
        if op.data != map[] {
          any := true;
          if !fault.bulkFails || op.id in fault.bulkDone {
            ghost var s1 := db.mongo;
            db.mongo := Set(db.mongo, op.id, op.data);
            BetweenSet(s1, batch, op);
            BetweenThen(s0, s1, db.mongo, batch);
            forall j | 0 <= j < i && !fault.bulkFails ensures Covers(Get(db.mongo, toDB[j].id), toDB[j].data) {
              BetweenCovers(s1, db.mongo, batch, toDB[j].id);
            }
          }
        }
      }
      ok := !any || !fault.bulkFails;
    }

    /** saveChunk: Redis first, then Mongo for the ids flagged Both. */
    method SaveChunk(chunk: seq<SaveOp>, fault: Fault) returns (ok: bool)
      requires FromBatch(chunk, batch)
      modifies db
      ensures Between(old(db.redis), db.redis, batch) && Between(old(db.mongo), db.mongo, batch)
      ensures ok ==> forall i :: 0 <= i < |chunk| ==> Saved(db.Now(), batch, chunk[i].id)
    {
      var toDB: seq<SaveOp> := [];
      for i := 0 to |chunk|
        invariant FromBatch(toDB, batch)
        invariant forall j :: 0 <= j < i && chunk[j].both ==> chunk[j] in toDB
      {
        if chunk[i].both { toDB := toDB + [chunk[i]]; }
      }
      ok := ExecPipe(chunk, fault);
      if !ok { return; }
      ok := SaveToDB(toDB, fault);
    }

    /** saveBatch: chunks of a thousand, up to the first that fails. */
    method SaveBatch(order: seq<Id>, faults: seq<Fault>) returns (ok: bool)
      requires BatchOk(batch) && forall id :: id in order <==> id in batch
      modifies db
      ensures Between(old(db.redis), db.redis, batch) && Between(old(db.mongo), db.mongo, batch)
      ensures ok ==> forall id :: id in batch ==> Saved(db.Now(), batch, id)
    {
      var allData: seq<SaveOp> := [];
      for j := 0 to |order|
        invariant |allData| == j && FromBatch(allData, batch)
        invariant forall k :: 0 <= k < j ==> allData[k].id == order[k]
      {
        allData := allData + [batch[order[j]]];
      }
      ghost var s0, m0 := db.redis, db.mongo;
      var i, n := 0, 0;
      while i < |allData|
        invariant Between(s0, db.redis, batch) && Between(m0, db.mongo, batch)
        invariant forall j :: 0 <= j < i && j < |order| ==> Saved(db.Now(), batch, order[j])
        decreases |allData| - i
      {
        var end := if i + CHUNK_SIZE > |allData| then |allData| else i + CHUNK_SIZE;
        var chunk := allData[i..end];
        ghost var s1, m1 := db.redis, db.mongo;
        ok := SaveChunk(chunk, if n < |faults| then faults[n] else Fault(false, {}, false, {}));
        BetweenThen(s0, s1, db.redis, batch);
        BetweenThen(m0, m1, db.mongo, batch);
        if !ok { return; }
        forall j | 0 <= j < end ensures Saved(db.Now(), batch, order[j]) {
          SavedStill(Stores(s1, m1), db.Now(), batch, order[j]);
          assert j >= i ==> chunk[j - i].id == order[j];
        }
        i, n := i + CHUNK_SIZE, n + 1;
      }
      ok := true;
    }

    /** flush: what is pending over Redis is the same afterwards, and on success nothing is pending. */
    method Flush(order: seq<Id>, faults: seq<Fault>)
      requires BatchOk(batch) && forall id :: id in order <==> id in batch
      modifies this, db
      ensures batch == old(batch) || batch == map[]
      ensures forall id :: Get(db.redis, id) + Data(batch, id) == old(Get(db.redis, id) + Data(batch, id))
      ensures batch == map[] ==> forall id :: id in old(batch) ==> Saved(db.Now(), old(batch), id)
    {
      if |batch| > 0 {
        ghost var s0, b := db.redis, batch;
        var ok := SaveBatch(order, faults);
        forall id ensures Get(db.redis, id) + Data(b, id) == Get(s0, id) + Data(b, id) {
          BetweenPending(s0, db.redis, b, id);
        }
        if ok {
          batch := map[];
          forall id ensures Get(db.redis, id) + Data(b, id) == Get(db.redis, id) + Data(batch, id) {
            if id in b { OverlayCovered(Get(db.redis, id), b[id].data); }
          }
        }
      }
    }
  }

  lemma SavedStill(st: Stores, st': Stores, b: Batch, id: Id)
    requires Between(st.redis, st'.redis, b) && Between(st.mongo, st'.mongo, b)
    ensures Saved(st, b, id) ==> Saved(st', b, id)
  {
    if Saved(st, b, id) {
      BetweenCovers(st.redis, st'.redis, b, id);
      if b[id].both { BetweenCovers(st.mongo, st'.mongo, b, id); }
    }
  }
}
