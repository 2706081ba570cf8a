/** What LogonService does not promise, and when it does: saves without a field, and roles dropped from the cache. */
module LogonLimits {
  import opened Bytes
  import opened SaverData
  import opened SaverSteps
  import opened LogonRuns

  // ---------- a save without fields ----------

  lemma RunNext(stores: Stores, xs: seq<Step>, s: Sys, x: Step)
    requires Run(stores, xs) == Some(s) && Possible(s, x)
    ensures Run(stores, xs + [x]) == Some(Next(s, x)) && Inv(Next(s, x))
  {
    assert (xs + [x])[..|xs|] == xs;
  }

  /** Step x merges a save with a field for id. */
  ghost predicate FieldMerged(s: Sys, x: Step, id: Id)
    requires |s.savers| == 3
  {
    x.SaverStep? && x.k == id % 3 && GivesField(s.savers[id % 3], x.a, id)
  }

  lemma StuckNext(s: Sys, x: Step, id: Id)
    requires Inv(s) && Possible(s, x) && Stuck(s.savers[id % 3], id) && !FieldMerged(s, x, id)
    ensures Stuck(Next(s, x).savers[id % 3], id)
  {
    if x.SaverStep? && x.k == id % 3 {
      StuckStep(s.stores, s.savers[x.k], x.a, id);
    } else {
      BatchKept(s, x, id % 3);
    }
  }

  /** A saver as the other goroutines leave it: they push and close, and do no more. */
  predicate Alone(v: Saver, w: Saver) { w.hand == v.hand && w.batch == v.batch && w.mode == v.mode }

  ghost predicate AllAlone(s: Sys, t: Sys) {
    t.stores == s.stores && |s.savers| == |t.savers| == 3 && forall k :: 0 <= k < 3 ==> Alone(s.savers[k], t.savers[k])
  }

  lemma OfferAlone(s: Sys, op: SaveOp)
    requires |s.savers| == 3
    ensures AllAlone(s, Offer(s, op)) && AllAlone(s, Pushed(s, op))
  {
  }

  lemma TakeAlone(s: Sys)
    requires |s.savers| == 3 && s.ops != []
    ensures AllAlone(s, Handle(s.(ops := s.ops[1..], taken := s.taken + [s.ops[0]]), s.ops[0]))
  {
    var e, u := s.ops[0], s.(ops := s.ops[1..], taken := s.taken + [s.ops[0]]);
    HandleSaves(u, e);
    if e.SaveRole? { OfferAlone(u.(entries := SetCache(u.entries, e.id, e.data)), SaveOp(e.id, e.data, e.both)); }
  }

  lemma LoopAlone(s: Sys, x: Step)
    requires |s.savers| == 3 && Possible(s, x) && !x.SaverStep?
    ensures AllAlone(s, Next(s, x))
  {
    if x.Take? {
      TakeAlone(s);
    } else if x.Cleanup? {
      OfferAlone(s, SaveOp(x.id, s.entries[x.id].cache, true));
    } else if x.TryPush? {
      OfferAlone(s, s.loop.op);
    } else if !x.CloseSaver? {
      assert Next(s, x).savers == s.savers;
    }
  }

  lemma BatchKept(s: Sys, x: Step, k: nat)
    requires |s.savers| == 3 && Possible(s, x) && k < 3 && !(x.SaverStep? && x.k == k)
    ensures Next(s, x).savers[k].batch == s.savers[k].batch
  {
    if !x.SaverStep? {
      LoopAlone(s, x);
      assert Alone(s.savers[k], Next(s, x).savers[k]);
    }
  }

  /** No step of xs after the first n merges a save with a field for id. */
  ghost predicate NoFieldMerged(stores: Stores, xs: seq<Step>, n: nat, id: Id) {
    |xs| <= n ||
    var ys := xs[..|xs| - 1];
    && NoFieldMerged(stores, ys, n, id)
    && (Run(stores, ys).Some? ==> !FieldMerged(Run(stores, ys).value, xs[|xs| - 1], id))
  }

  /** Once a save without a field is in a saver's batch (after n steps), that batch is not emptied and Close does not
      return, for any stores and any schedule, until a save with a field is merged for the same id. */
  lemma {:induction false} StuckStays(stores: Stores, xs: seq<Step>, n: nat, id: Id)
    requires n <= |xs| && Run(stores, xs).Some? && NoFieldMerged(stores, xs, n, id)
    requires Run(stores, xs[..n]).Some? && Stuck(Run(stores, xs[..n]).value.savers[id % 3], id)
    ensures var t := Run(stores, xs).value; Stuck(t.savers[id % 3], id) && !t.closed
  {
    if |xs| == n {
      assert xs[..n] == xs;
    } else {
      var u := RunLast(stores, xs);
      assert xs[..|xs| - 1][..n] == xs[..n];
      StuckStays(stores, xs[..|xs| - 1], n, id);
      StuckNext(u, xs[|xs| - 1], id);
    }
    NotClosed(Run(stores, xs).value, id);
  }

  /** A run that was not empty made its last step. */
  lemma RunLast(stores: Stores, xs: seq<Step>) returns (u: Sys)
    requires xs != [] && Run(stores, xs).Some?
    ensures Run(stores, xs[..|xs| - 1]) == Some(u)
    ensures Inv(u) && Possible(u, xs[|xs| - 1]) && Run(stores, xs) == Some(Next(u, xs[|xs| - 1]))
  {
    u := Run(stores, xs[..|xs| - 1]).value;
  }

  lemma NotClosed(s: Sys, id: Id)
    requires Inv(s) && Stuck(s.savers[id % 3], id)
    ensures !s.closed
  {
    assert SaverOk(s.stores, s.savers[id % 3]);
  }

  /** A login event that leaves an offline entry without data makes cleanup produce such a save. */
  lemma StuckReached(stores: Stores, id: Id)
    ensures var k := id % 3;
            var xs := [Put(LoginPath(id, Entry(Offline, map[]))), Take, Cleanup(id), SaverStep(k, Swap), SaverStep(k, MergeNext)];
            Run(stores, xs).Some? && Stuck(Run(stores, xs).value.savers[k], id)
  {
    var k, e := id % 3, LoginPath(id, Entry(Offline, map[]));
    var xs := [] + [Put(e)] + [Take] + [Cleanup(id)];
    OfflineSaved(stores, id);
    var s3 := Run(stores, xs).value;
    RunNext(stores, xs, s3, SaverStep(k, Swap));
    var s4 := Next(s3, SaverStep(k, Swap));
    RunNext(stores, xs + [SaverStep(k, Swap)], s4, SaverStep(k, MergeNext));
    assert xs + [SaverStep(k, Swap)] + [SaverStep(k, MergeNext)]
        == [Put(e), Take, Cleanup(id), SaverStep(k, Swap), SaverStep(k, MergeNext)];
  }

  lemma OfflineSaved(stores: Stores, id: Id)
    ensures var xs := [] + [Put(LoginPath(id, Entry(Offline, map[])))] + [Take] + [Cleanup(id)];
            && Run(stores, xs).Some?
            && Run(stores, xs).value.savers[id % 3] == NewSaver.(queue := [SaveOp(id, map[], true)])
  {
    var s := LoggedOff(stores, id);
    RunNext(stores, [] + [Put(LoginPath(id, Entry(Offline, map[])))] + [Take], s, Cleanup(id));
    OfferedFirst(s, SaveOp(id, map[], true));
  }

  lemma OfferedFirst(s: Sys, op: SaveOp)
    requires s.savers == [NewSaver, NewSaver, NewSaver]
    ensures |Offer(s, op).savers| == 3 && Offer(s, op).savers[op.id % 3] == NewSaver.(queue := [op])
  {
    assert s.savers[op.id % 3] == NewSaver && [] + [op] == [op];
  }

  /** A login path has left the role offline, with nothing cached. */
  lemma LoggedOff(stores: Stores, id: Id) returns (s: Sys)
    ensures Run(stores, [] + [Put(LoginPath(id, Entry(Offline, map[])))] + [Take]) == Some(s)
    ensures s.loop == Select && s.savers == [NewSaver, NewSaver, NewSaver] && s.entries == map[id := Entry(Offline, map[])]
  {
    var e := LoginPath(id, Entry(Offline, map[]));
    var s0 := Init(stores);
    RunNext(stores, [], s0, Put(e));
    var s1 := Next(s0, Put(e));
    RunNext(stores, [] + [Put(e)], s1, Take);
    s := Next(s1, Take);
  }

  // ---------- a role dropped from the cache ----------

  /** The saves of id among ops. */
  function IdOps(ops: seq<SaveOp>, id: Id): (r: seq<SaveOp>) {
    if ops == [] then []
    else IdOps(ops[..|ops| - 1], id) + if ops[|ops| - 1].id == id then [ops[|ops| - 1]] else []
  }

  lemma {:induction false} IdOpsConcat(a: seq<SaveOp>, b: seq<SaveOp>, id: Id)
    ensures IdOps(a + b, id) == IdOps(a, id) + IdOps(b, id)
  {
    if b == [] {
      assert a + b == a && IdOps(a, id) + [] == IdOps(a, id);
    } else {
      var n := |b| - 1;
      assert (a + b)[..|a + b| - 1] == a + b[..n];
      IdOpsConcat(a, b[..n], id);
    }
  }

  lemma IdOpsOne(op: SaveOp, id: Id)
    ensures IdOps([op], id) == if op.id == id then [op] else []
  {
    assert [op][..0] == [];
  }

  lemma IdOpsFirst(ops: seq<SaveOp>, id: Id)
    requires ops != []
    ensures IdOps(ops, id) == (if ops[0].id == id then [ops[0]] else []) + IdOps(ops[1..], id)
  {
    assert ops == [ops[0]] + ops[1..];
    IdOpsConcat([ops[0]], ops[1..], id);
    IdOpsOne(ops[0], id);
  }

  /** The saves of id that were accepted and not yet merged. */
  function Pending(v: Saver, id: Id): seq<SaveOp> { IdOps(v.hand, id) + IdOps(v.queue, id) }

  /** all are the accepted saves of id: the pending ones are the last of them, and what the batch holds for id
      covers the last one merged. */
  ghost predicate Follows(all: seq<SaveOp>, v: Saver, id: Id) {
    && |Pending(v, id)| <= |all| && all[|all| - |Pending(v, id)|..] == Pending(v, id)
    && (id in v.batch ==> 0 < |all| - |Pending(v, id)| && Covers(v.batch[id].data, all[|all| - |Pending(v, id)| - 1].data))
  }

  lemma FollowsPush(all: seq<SaveOp>, v: Saver, op: SaveOp, id: Id)
    requires Follows(all, v, id)
    ensures var one := if op.id == id then [op] else [];
            var w := v.(queue := v.queue + [op]);
            Follows(all + one, w, id) && |Pending(w, id)| == |Pending(v, id)| + |one|
  {
    var p, one := Pending(v, id), if op.id == id then [op] else [];
    IdOpsConcat(v.queue, [op], id);
    IdOpsOne(op, id);
    assert IdOps(v.hand, id) + (IdOps(v.queue, id) + one) == p + one;
    Suffix(all, p, one);
  }

  lemma Suffix<T>(all: seq<T>, p: seq<T>, one: seq<T>)
    requires |p| <= |all| && all[|all| - |p|..] == p
    ensures (all + one)[|all| - |p|..] == p + one
  {
  }

  lemma FollowsMerge(all: seq<SaveOp>, v: Saver, id: Id)
    requires Follows(all, v, id) && v.hand != [] && BatchOk(v.batch)
    ensures Follows(all, v.(batch := MergeOp(v.batch, v.hand[0]), hand := v.hand[1..]), id)
  {
    var op, w := v.hand[0], v.(batch := MergeOp(v.batch, v.hand[0]), hand := v.hand[1..]);
    var n := |all| - |Pending(v, id)|;
    IdOpsFirst(v.hand, id);
    MergeFolds(v.batch, op, id);
    if op.id == id {
      assert Pending(v, id) == [op] + Pending(w, id);
      assert all[n] == all[n..][0] == op && all[n + 1..] == all[n..][1..];
      OverlayCovered(Data(v.batch, id), op.data);
    } else {
      assert Pending(v, id) == Pending(w, id);
    }
  }

  lemma FollowsSwap(all: seq<SaveOp>, v: Saver, id: Id)
    requires Follows(all, v, id) && v.hand == []
    ensures forall m :: Follows(all, v.(hand := v.queue, queue := [], mode := m), id)
  {
    assert IdOps(v.queue, id) + [] == [] + IdOps(v.queue, id);
  }

  lemma FollowsStep(st: Stores, all: seq<SaveOp>, v: Saver, a: Action, id: Id)
    requires SaverOk(st, v) && Enabled(v, a) && Follows(all, v, id)
    ensures Follows(all, DoSaver(v, a), id) && |Pending(DoSaver(v, a), id)| <= |Pending(v, id)|
  {
    if a.Swap? || a.SeeClose? {
      FollowsSwap(all, v, id);
      assert IdOps(v.queue, id) + [] == [] + IdOps(v.queue, id);
    } else if a.MergeNext? {
      FollowsMerge(all, v, id);
      IdOpsFirst(v.hand, id);
    } else {
      FlushFrame(v, a);
      FollowsSame(all, v, DoSaver(v, a), id);
    }
  }

  lemma FlushFrame(v: Saver, a: Action)
    requires Enabled(v, a) && !a.Swap? && !a.SeeClose? && !a.MergeNext?
    ensures var w := DoSaver(v, a); w.hand == v.hand && w.queue == v.queue && (w.batch == v.batch || w.batch == map[])
  {
  }

  lemma FollowsSame(all: seq<SaveOp>, v: Saver, w: Saver, id: Id)
    requires Follows(all, v, id) && w.hand == v.hand && w.queue == v.queue && (w.batch == v.batch || w.batch == map[])
    ensures Follows(all, w, id) && Pending(w, id) == Pending(v, id)
  {
  }

  ghost predicate IdInv(s: Sys, id: Id)
    requires |s.savers| == 3
  {
    Follows(IdOps(Ops(s.accepted), id), s.savers[id % 3], id)
  }

  /** How many of the accepted saves of id were merged into a batch so far. */
  function MergedOf(s: Sys, id: Id): int
    requires |s.savers| == 3
  {
    |IdOps(Ops(s.accepted), id)| - |Pending(s.savers[id % 3], id)|
  }

  lemma OpsPushed(s: Sys, op: SaveOp, id: Id)
    requires |s.savers| == 3
    ensures IdOps(Ops(Pushed(s, op).accepted), id) == IdOps(Ops(s.accepted), id) + if op.id == id then [op] else []
  {
    assert Ops(Pushed(s, op).accepted) == Ops(s.accepted) + [op];
    IdOpsConcat(Ops(s.accepted), [op], id);
    IdOpsOne(op, id);
  }

  lemma PushedId(s: Sys, op: SaveOp, id: Id)
    requires |s.savers| == 3 && IdInv(s, id)
    ensures IdInv(Pushed(s, op), id) && MergedOf(Pushed(s, op), id) == MergedOf(s, id)
    ensures IdOps(Ops(s.accepted), id) <= IdOps(Ops(Pushed(s, op).accepted), id)
  {
    OpsPushed(s, op, id);
    if op.id % 3 == id % 3 {
      FollowsPush(IdOps(Ops(s.accepted), id), s.savers[id % 3], op, id);
    }
  }

  /** Steps that push nothing and are not the saver's own. */
  lemma SameId(s: Sys, t: Sys, id: Id)
    requires |s.savers| == 3 && |t.savers| == 3 && IdInv(s, id) && t.accepted == s.accepted
    requires var v, w := s.savers[id % 3], t.savers[id % 3]; w.hand == v.hand && w.queue == v.queue && w.batch == v.batch
    ensures IdInv(t, id) && MergedOf(t, id) == MergedOf(s, id)
  {
  }

  ghost predicate Later(s: Sys, t: Sys, id: Id)
    requires |s.savers| == 3 && |t.savers| == 3
  {
    && IdInv(t, id) && MergedOf(s, id) <= MergedOf(t, id)
    && IdOps(Ops(s.accepted), id) <= IdOps(Ops(t.accepted), id)
  }

  lemma TakeId(s: Sys, id: Id)
    requires |s.savers| == 3 && IdInv(s, id) && s.ops != []
    ensures var t := Handle(s.(ops := s.ops[1..], taken := s.taken + [s.ops[0]]), s.ops[0]);
            |t.savers| == 3 && Later(s, t, id)
  {
    var e := s.ops[0];
    var u := s.(ops := s.ops[1..], taken := s.taken + [e]);
    HandleSaves(u, e);
    if e.SaveRole? {
      var w := u.(entries := SetCache(u.entries, e.id, e.data));
      OfferId(w, SaveOp(e.id, e.data, e.both), id);
    }
  }

  lemma HandleSaves(u: Sys, e: Event)
    requires |u.savers| == 3
    ensures var t := Handle(u, e);
            if e.SaveRole? then t == Offer(u.(entries := SetCache(u.entries, e.id, e.data)), SaveOp(e.id, e.data, e.both))
            else t.savers == u.savers && t.accepted == u.accepted && t.stores == u.stores
  {
  }

  lemma PushId(s: Sys, id: Id)
    requires |s.savers| == 3 && IdInv(s, id) && Possible(s, TryPush)
    ensures |Next(s, TryPush).savers| == 3 && Later(s, Next(s, TryPush), id)
  {
    if !Full(s, s.loop.op) {
      PushedId(s, s.loop.op, id);
      SameId(Pushed(s, s.loop.op), Next(s, TryPush), id);
    }
  }

  lemma CleanupId(s: Sys, x: Id, id: Id)
    requires |s.savers| == 3 && IdInv(s, id) && Possible(s, Cleanup(x))
    ensures |Next(s, Cleanup(x)).savers| == 3 && Later(s, Next(s, Cleanup(x)), id)
  {
    CleanedId(s, x, id);
  }

  lemma CleanedId(s: Sys, x: Id, id: Id)
    requires |s.savers| == 3 && IdInv(s, id) && x in s.entries
    ensures |Cleaned(s, x).savers| == 3 && Later(s, Cleaned(s, x), id)
  {
    if s.entries[x].state == Offline {
      OfferId(s, SaveOp(x, s.entries[x].cache, true), id);
    } else {
      SameId(s, Cleaned(s, x), id);
    }
  }

  lemma NextId(s: Sys, x: Step, id: Id)
    requires SaverInv(s) && IdInv(s, id) && Possible(s, x)
    ensures |Next(s, x).savers| == 3 && Later(s, Next(s, x), id)
  {
    match x {
      case SaverStep(k, a) => SaverId(s, k, a, id);
      case Take => TakeId(s, id);
      case Cleanup(other) => CleanupId(s, other, id);
      case TryPush => PushId(s, id);
      case _ => SameId(s, Next(s, x), id);
    }
  }

  lemma OfferId(s: Sys, op: SaveOp, id: Id)
    requires |s.savers| == 3 && IdInv(s, id)
    ensures Later(s, Offer(s, op), id)
  {
    if !Full(s, op) { PushedId(s, op, id); }
  }

  lemma SaverId(s: Sys, k: nat, a: Action, id: Id)
    requires SaverInv(s) && IdInv(s, id) && Possible(s, SaverStep(k, a))
    ensures Later(s, Next(s, SaverStep(k, a)), id)
  {
    var t := Next(s, SaverStep(k, a));
    if k == id % 3 {
      FollowsStep(s.stores, IdOps(Ops(s.accepted), id), s.savers[k], a, id);
      assert t.savers[k] == DoSaver(s.savers[k], a) && t.accepted == s.accepted;
    } else {
      SameId(s, t, id);
    }
  }

  lemma {:induction false} RunId(stores: Stores, xs: seq<Step>, id: Id)
    requires Run(stores, xs).Some?
    ensures IdInv(Run(stores, xs).value, id)
  {
    if xs != [] {
      RunId(stores, xs[..|xs| - 1], id);
      NextId(Run(stores, xs[..|xs| - 1]).value, xs[|xs| - 1], id);
    }
  }

  /** From the p-th save of id on all its saves carry data. */
  ghost predicate SameSince(s: Sys, id: Id, p: nat, data: Doc) {
    forall i :: p <= i < |IdOps(Ops(s.accepted), id)| ==> IdOps(Ops(s.accepted), id)[i].data == data
  }

  /** The p-th save of id was merged, and Mongo has its data. */
  ghost predicate InMongo(s: Sys, id: Id, p: nat, data: Doc)
    requires |s.savers| == 3
  {
    p < MergedOf(s, id) && Covers(Get(s.stores.mongo, id), data)
  }

  /** What a batch holds for id then has data. */
  lemma BatchHas(s: Sys, id: Id, p: nat, data: Doc)
    requires |s.savers| == 3 && IdInv(s, id) && SameSince(s, id, p, data) && p < MergedOf(s, id) && id in s.savers[id % 3].batch
    ensures Covers(s.savers[id % 3].batch[id].data, data)
  {
    assert IdOps(Ops(s.accepted), id)[MergedOf(s, id) - 1].data == data;
  }

  lemma CoversMore(a: Doc, b: Doc, c: Doc)
    requires Covers(b, c)
    ensures Covers(a + b, c)
  {
  }

  lemma NextMongo(s: Sys, x: Step, id: Id, p: nat, data: Doc)
    requires SaverInv(s) && IdInv(s, id) && Possible(s, x) && SameSince(s, id, p, data) && InMongo(s, id, p, data)
    ensures |Next(s, x).savers| == 3 && InMongo(Next(s, x), id, p, data)
  {
    NextId(s, x, id);
    if x.SaverStep? {
      StoreMongo(s, x.k, x.a, id, p, data);
    } else {
      LoopAlone(s, x);
    }
  }

  lemma StoreMongo(s: Sys, k: nat, a: Action, id: Id, p: nat, data: Doc)
    requires SaverInv(s) && IdInv(s, id) && Possible(s, SaverStep(k, a))
    requires SameSince(s, id, p, data) && InMongo(s, id, p, data)
    ensures Covers(Get(DoStores(s.stores, s.savers[k], a).mongo, id), data)
  {
    if a.BulkWrite? {
      var v := s.savers[k];
      SetAllGet(s.stores.mongo, v.batch, a.applied, id);
      if id in a.applied {
        assert id in v.batch && id % 3 == k;
        BatchHas(s, id, p, data);
        CoversMore(Get(s.stores.mongo, id), v.batch[id].data, data);
      }
    }
  }

  lemma SameEarlier(s: Sys, t: Sys, id: Id, p: nat, data: Doc)
    requires |s.savers| == 3 && |t.savers| == 3 && Later(s, t, id) && SameSince(t, id, p, data)
    ensures SameSince(s, id, p, data)
  {
    assert forall i :: 0 <= i < |IdOps(Ops(s.accepted), id)| ==> IdOps(Ops(s.accepted), id)[i] == IdOps(Ops(t.accepted), id)[i];
  }

  lemma {:induction false} StaysInMongo(stores: Stores, xs: seq<Step>, n: nat, id: Id, p: nat, data: Doc)
    requires n <= |xs| && Run(stores, xs[..n]).Some? && Run(stores, xs).Some?
    requires SameSince(Run(stores, xs).value, id, p, data) && InMongo(Run(stores, xs[..n]).value, id, p, data)
    ensures InMongo(Run(stores, xs).value, id, p, data)
  {
    if |xs| == n {
      assert xs[..n] == xs;
    } else {
      var ys, x := xs[..|xs| - 1], xs[|xs| - 1];
      var u := RunLast(stores, xs);
      assert ys[..n] == xs[..n];
      RunId(stores, ys, id);
      NextId(u, x, id);
      SameEarlier(u, Next(u, x), id, p, data);
      StaysInMongo(stores, ys, n, id, p, data);
      NextMongo(u, x, id, p, data);
    }
  }

  /** The saver is about to report that it has written id to Mongo. */
  ghost predicate Reporting(v: Saver, id: Id) {
    && v.mode.Posting? && id in v.batch && v.batch[id].both
    && exists i :: v.mode.at <= i < ChunkEnd(v.mode.order, v.mode.at) && v.mode.order[i] == id
  }

  lemma ReportedInMongo(s: Sys, id: Id, p: nat, data: Doc)
    requires Inv(s) && IdInv(s, id) && Reporting(s.savers[id % 3], id) && p < MergedOf(s, id) && SameSince(s, id, p, data)
    ensures InMongo(s, id, p, data)
  {
    var v := s.savers[id % 3];
    assert SaverOk(s.stores, v);
    assert Saved(s.stores, v.batch, id);
    BatchHas(s, id, p, data);
  }

  /** If a report of id was posted (after n steps) when its p-th save had been merged, and every save of id from that
      one on carries the same data, as the logout and what cleanup saves again do, then Mongo has that data ever after;
      so a role dropped from the cache on such a report has its last logout in Mongo. */
  lemma ReportHolds(stores: Stores, xs: seq<Step>, n: nat, id: Id, p: nat, data: Doc)
    requires n <= |xs| && Run(stores, xs[..n]).Some? && Run(stores, xs).Some?
    requires var s := Run(stores, xs[..n]).value; Reporting(s.savers[id % 3], id) && p < MergedOf(s, id)
    requires SameSince(Run(stores, xs).value, id, p, data)
    ensures Covers(Get(Run(stores, xs).value.stores.mongo, id), data)
  {
    RunId(stores, xs[..n], id);
    LaterRun(stores, xs, n, id);
    SameEarlier(Run(stores, xs[..n]).value, Run(stores, xs).value, id, p, data);
    ReportedInMongo(Run(stores, xs[..n]).value, id, p, data);
    StaysInMongo(stores, xs, n, id, p, data);
  }

  lemma {:induction false} LaterRun(stores: Stores, xs: seq<Step>, n: nat, id: Id)
    requires n <= |xs| && Run(stores, xs[..n]).Some? && Run(stores, xs).Some?
    ensures Later(Run(stores, xs[..n]).value, Run(stores, xs).value, id)
  {
    if |xs| == n {
      assert xs[..n] == xs;
      RunId(stores, xs, id);
    } else {
      var ys := xs[..|xs| - 1];
      var u := RunLast(stores, xs);
      assert ys[..n] == xs[..n];
      LaterRun(stores, ys, n, id);
      NextId(u, xs[|xs| - 1], id);
    }
  }
}
