/** When exactly Mongo has the last logout of a role. */
module LogonWritten {
  import opened Bytes
  import opened SaverData
  import opened SaverSteps
  import opened LogonRuns
  import opened LogonLimits

  predicate Writes(x: Step, id: Id) { x.SaverStep? && x.a.BulkWrite? && id in x.a.applied }

  /** Some step of xs wrote id to Mongo when the p-th save of id had been merged. */
  ghost predicate WrittenSince(stores: Stores, xs: seq<Step>, id: Id, p: nat) {
    xs != [] &&
    var ys := xs[..|xs| - 1];
    || WrittenSince(stores, ys, id, p)
    || (Run(stores, ys).Some? && Writes(xs[|xs| - 1], id) && p < MergedOf(Run(stores, ys).value, id))
  }

  predicate Has(d: Doc, f: Str, y: Str) { f in d && d[f] == y }

  /** None of the first p saves gives f the value y. */
  ghost predicate Unseen(all: seq<SaveOp>, p: nat, f: Str, y: Str) {
    forall i :: 0 <= i < p && i < |all| ==> !Has(all[i].data, f, y)
  }

  // ---------- what a saver holds before the p-th save is merged ----------

  /** Before the p-th of all saves of id is merged, the batch does not give f the value y. */
  ghost predicate Clean(all: seq<SaveOp>, v: Saver, id: Id, p: nat, f: Str, y: Str) {
    |all| - |Pending(v, id)| <= p ==> !Has(Data(v.batch, id), f, y)
  }

  lemma CleanMerge(all: seq<SaveOp>, v: Saver, id: Id, p: nat, f: Str, y: Str)
    requires Follows(all, v, id) && v.hand != [] && BatchOk(v.batch) && Unseen(all, p, f, y) && Clean(all, v, id, p, f, y)
    ensures Clean(all, v.(batch := MergeOp(v.batch, v.hand[0]), hand := v.hand[1..]), id, p, f, y)
  {
    var op, w := v.hand[0], v.(batch := MergeOp(v.batch, v.hand[0]), hand := v.hand[1..]);
    var n := |all| - |Pending(v, id)|;
    IdOpsFirst(v.hand, id);
    MergeFolds(v.batch, op, id);
    if op.id == id {
      assert Pending(v, id) == [op] + Pending(w, id);
      assert all[n] == all[n..][0] == op;
    } else {
      assert Pending(v, id) == Pending(w, id);
    }
  }

  lemma CleanStep(st: Stores, all: seq<SaveOp>, v: Saver, a: Action, id: Id, p: nat, f: Str, y: Str)
    requires SaverOk(st, v) && Enabled(v, a) && Follows(all, v, id) && Unseen(all, p, f, y) && Clean(all, v, id, p, f, y)
    ensures Clean(all, DoSaver(v, a), id, p, f, y)
  {
    if a.MergeNext? {
      CleanMerge(all, v, id, p, f, y);
    } else {
      FollowsStep(st, all, v, a, id);
      BatchSame(v, a);
    }
  }

  lemma BatchSame(v: Saver, a: Action)
    requires Enabled(v, a) && !a.MergeNext?
    ensures DoSaver(v, a).batch == v.batch || DoSaver(v, a).batch == map[]
  {
  }

  // ---------- one step of the system ----------

  ghost predicate Behind(s: Sys, id: Id, p: nat, f: Str, y: Str)
    requires |s.savers| == 3
  {
    Clean(IdOps(Ops(s.accepted), id), s.savers[id % 3], id, p, f, y)
  }

  lemma BehindNext(s: Sys, x: Step, id: Id, p: nat, f: Str, y: Str)
    requires SaverInv(s) && IdInv(s, id) && Possible(s, x) && Behind(s, id, p, f, y)
    requires Unseen(IdOps(Ops(s.accepted), id), p, f, y)
    ensures |Next(s, x).savers| == 3 && Behind(Next(s, x), id, p, f, y)
  {
    NextId(s, x, id);
    if x.SaverStep? && x.k == id % 3 {
      CleanStep(s.stores, IdOps(Ops(s.accepted), id), s.savers[x.k], x.a, id, p, f, y);
    } else {
      BatchKept(s, x, id % 3);
    }
  }

  lemma MongoKept(s: Sys, x: Step, id: Id)
    requires |s.savers| == 3 && Possible(s, x) && !Writes(x, id)
    ensures Get(Next(s, x).stores.mongo, id) == Get(s.stores.mongo, id)
  {
    if !x.SaverStep? {
      LoopAlone(s, x);
    } else if x.a.BulkWrite? {
      SetAllGet(s.stores.mongo, s.savers[x.k].batch, x.a.applied, id);
    }
  }

  lemma MongoWritten(s: Sys, x: Step, id: Id)
    requires SaverInv(s) && Possible(s, x) && Writes(x, id)
    ensures id in s.savers[id % 3].batch
    ensures Get(Next(s, x).stores.mongo, id) == Get(s.stores.mongo, id) + s.savers[id % 3].batch[id].data
  {
    assert id in s.savers[x.k].batch && id % 3 == x.k;
    SetAllGet(s.stores.mongo, s.savers[x.k].batch, x.a.applied, id);
  }

  // ---------- runs ----------

  /** Until then Mongo does not have a value that is new with the p-th save. */
  lemma {:induction false} Unwritten(stores: Stores, xs: seq<Step>, id: Id, p: nat, f: Str, y: Str)
    requires Run(stores, xs).Some? && !WrittenSince(stores, xs, id, p) && !Has(Get(stores.mongo, id), f, y)
    requires Unseen(IdOps(Ops(Run(stores, xs).value.accepted), id), p, f, y)
    ensures var s := Run(stores, xs).value; Behind(s, id, p, f, y) && !Has(Get(s.stores.mongo, id), f, y)
  {
    if xs != [] {
      var ys, x := xs[..|xs| - 1], xs[|xs| - 1];
      var u := RunLast(stores, xs);
      RunId(stores, ys, id);
      NextId(u, x, id);
      UnseenEarlier(IdOps(Ops(u.accepted), id), IdOps(Ops(Next(u, x).accepted), id), p, f, y);
      Unwritten(stores, ys, id, p, f, y);
      BehindNext(u, x, id, p, f, y);
      if Writes(x, id) { MongoWritten(u, x, id); } else { MongoKept(u, x, id); }
    }
  }

  lemma UnseenEarlier(a: seq<SaveOp>, b: seq<SaveOp>, p: nat, f: Str, y: Str)
    requires a <= b && Unseen(b, p, f, y)
    ensures Unseen(a, p, f, y)
  {
    assert forall i :: 0 <= i < |a| ==> a[i] == b[i];
  }

  lemma {:induction false} Written(stores: Stores, xs: seq<Step>, id: Id, p: nat, data: Doc)
    requires Run(stores, xs).Some? && SameSince(Run(stores, xs).value, id, p, data) && WrittenSince(stores, xs, id, p)
    ensures InMongo(Run(stores, xs).value, id, p, data)
  {
    var ys, x := xs[..|xs| - 1], xs[|xs| - 1];
    var u := RunLast(stores, xs);
    RunId(stores, ys, id);
    NextId(u, x, id);
    SameEarlier(u, Next(u, x), id, p, data);
    if WrittenSince(stores, ys, id, p) {
      Written(stores, ys, id, p, data);
      NextMongo(u, x, id, p, data);
    } else {
      MongoWritten(u, x, id);
      BatchHas(u, id, p, data);
      CoversMore(Get(u.stores.mongo, id), u.savers[id % 3].batch[id].data, data);
    }
  }

  /** Let every save of id from its p-th on carry the same data, as the last logout and what cleanup saves again do,
      and let that data have a value that Mongo did not start with and no earlier save of id had. Then Mongo has the
      data, in any run, if and only if id was written to Mongo after the p-th save was merged. A report of an earlier
      write does not imply it, see LogonStale. */
  lemma LogoutInMongo(stores: Stores, xs: seq<Step>, id: Id, p: nat, data: Doc, f: Str)
    requires Run(stores, xs).Some? && SameSince(Run(stores, xs).value, id, p, data)
    requires f in data && !Has(Get(stores.mongo, id), f, data[f])
    requires Unseen(IdOps(Ops(Run(stores, xs).value.accepted), id), p, f, data[f])
    ensures Covers(Get(Run(stores, xs).value.stores.mongo, id), data) <==> WrittenSince(stores, xs, id, p)
  {
    if WrittenSince(stores, xs, id, p) {
      Written(stores, xs, id, p, data);
    } else {
      Unwritten(stores, xs, id, p, f, data[f]);
    }
  }
}
