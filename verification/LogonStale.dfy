/** A run in which a role is dropped from the cache while its last logout is not in Mongo. */
module LogonStale {
  import opened Bytes
  import opened SaverData
  import opened SaverSteps
  import opened LogonRuns
  import opened LogonLimits

  function One(f: Str, x: Str): Doc { map[f := x] }

  function Three(k: nat, v: Saver): seq<Saver>
    requires k < 3
  {
    [NewSaver, NewSaver, NewSaver][k := v]
  }

  /** A state in which one role is known and one saver at work. */
  function Scene(id: Id, events: seq<Event>, left: seq<Event>, loop: Loop, entry: Entry, v: Saver, stores: Stores,
                 accepted: seq<Acc>): Sys {
    Sys(left, events + left, events, false, 0, loop, map[id := entry], Three(id % 3, v), stores, map[], accepted, false)
  }

  // ---------- the events ----------

  function Login(id: Id): Event { LoginPath(id, Entry(InUse, map[])) }

  function Events(id: Id, f: Str, x: Str, y: Str): seq<Event> {
    [Login(id), SaveRole(id, One(f, x), true), Logout(id, One(f, y))]
  }

  const Nothing := Stores(map[], map[])

  function OpX(id: Id, f: Str, x: Str): SaveOp { SaveOp(id, One(f, x), true) }

  function OpY(id: Id, f: Str, y: Str): SaveOp { SaveOp(id, One(f, y), false) }

  /** The role is in use and a save with Both is queued. */
  function Queued(id: Id, f: Str, x: Str): Sys {
    Scene(id, [Login(id), SaveRole(id, One(f, x), true)], [], Select, Entry(InUse, One(f, x)),
          NewSaver.(queue := [OpX(id, f, x)]), Nothing, [Acc(OpX(id, f, x), 2)])
  }

  function QueuedBy(id: Id, f: Str, x: Str): seq<Step> {
    [Put(Login(id)), Take, Put(SaveRole(id, One(f, x), true)), Take]
  }

  lemma RunQueued(id: Id, f: Str, x: Str)
    ensures Run(Nothing, QueuedBy(id, f, x)) == Some(Queued(id, f, x))
  {
    var k, e, g := id % 3, Login(id), SaveRole(id, One(f, x), true);
    var s0 := Init(Nothing);
    RunNext(Nothing, [], s0, Put(e));
    var s1 := Next(s0, Put(e));
    RunNext(Nothing, [] + [Put(e)], s1, Take);
    var s2 := Scene(id, [e], [], Select, Entry(InUse, map[]), NewSaver, Nothing, []);
    assert Next(s1, Take) == s2;
    RunNext(Nothing, [] + [Put(e)] + [Take], s2, Put(g));
    var s3 := Scene(id, [e], [g], Select, Entry(InUse, map[]), NewSaver, Nothing, []);
    assert Next(s2, Put(g)) == s3;
    RunNext(Nothing, [] + [Put(e)] + [Take] + [Put(g)], s3, Take);
    TakeSave(id, f, x, s3);
    assert [] + [Put(e)] + [Take] + [Put(g)] + [Take] == QueuedBy(id, f, x);
  }

  lemma TakeSave(id: Id, f: Str, x: Str, s: Sys)
    requires s == Scene(id, [Login(id)], [SaveRole(id, One(f, x), true)], Select, Entry(InUse, map[]), NewSaver, Nothing, [])
    ensures Next(s, Take) == Queued(id, f, x)
  {
    var g, t := SaveRole(id, One(f, x), true), Next(s, Take);
    HandleSaves(s.(ops := s.ops[1..], taken := s.taken + [g]), g);
    assert [] + [OpX(id, f, x)] == [OpX(id, f, x)];
    assert t.savers == Three(id % 3, NewSaver.(queue := [OpX(id, f, x)]));
    assert t.entries == map[id := Entry(InUse, One(f, x))];
    assert t.put == [Login(id), g] && t.taken == [Login(id), g] && t.ops == [];
  }

  // ---------- the flush ----------

  /** The save has been merged and written to both stores, and its report is about to be posted. */
  function Written(id: Id, f: Str, x: Str): Saver {
    Saver([], [], map[id := OpX(id, f, x)], Posting([id], 0, false), false)
  }

  function Both(id: Id, f: Str, x: Str): Stores { Stores(map[id := One(f, x)], map[id := One(f, x)]) }

  function FlushActs(id: Id): seq<Action> {
    [Swap, MergeNext, MergeEnd, StartFlush([id]), ExecPipe({id}, true), BulkWrite({id}, true)]
  }

  /** The saver after the first n steps of the flush. */
  function Flushing(id: Id, f: Str, x: Str, n: nat): Saver {
    var op := OpX(id, f, x);
    if n == 0 then NewSaver.(queue := [op])
    else if n == 1 then Saver([], [op], map[], Merging(false), false)
    else if n == 2 then Saver([], [], map[id := op], Merging(false), false)
    else if n == 3 then Saver([], [], map[id := op], Waiting, false)
    else if n == 4 then Saver([], [], map[id := op], ToRedis([id], 0, false), false)
    else if n == 5 then Saver([], [], map[id := op], ToMongo([id], 0, false), false)
    else Written(id, f, x)
  }

  function FlushStores(id: Id, f: Str, x: Str, n: nat): Stores {
    Stores(if n >= 5 then map[id := One(f, x)] else map[], if n >= 6 then map[id := One(f, x)] else map[])
  }

  lemma FlushStep(id: Id, f: Str, x: Str, n: nat)
    requires n < 6
    ensures var v, a := Flushing(id, f, x, n), FlushActs(id)[n];
            && Enabled(v, a) && !a.Posted? && DoSaver(v, a) == Flushing(id, f, x, n + 1)
            && DoStores(FlushStores(id, f, x, n), v, a) == FlushStores(id, f, x, n + 1)
  {
    var v, op := Flushing(id, f, x, n), OpX(id, f, x);
    assert f in One(f, x) && One(f, x) != map[];
    if n == 1 {
      assert [op][1..] == [] && map[][id := op] == map[id := op];
    } else if n == 3 {
      assert v.batch.Keys == {id} && multiset([id]) == multiset({id});
    } else if n >= 4 {
      assert [id][0] == id && Chunk([id], 0) == {id};
      assert map[] + One(f, x) == One(f, x);
      assert SetAll(map[], v.batch, {id}) == map[id := One(f, x)];
      assert Models(v.batch, [id], 0) == {id};
    }
  }

  function FlushingSys(id: Id, f: Str, x: Str, n: nat): Sys {
    Queued(id, f, x).(savers := Three(id % 3, Flushing(id, f, x, n)), stores := FlushStores(id, f, x, n))
  }

  function FlushBy(id: Id, f: Str, x: Str, n: nat): seq<Step>
    requires n <= 6
  {
    if n == 0 then QueuedBy(id, f, x) else FlushBy(id, f, x, n - 1) + [SaverStep(id % 3, FlushActs(id)[n - 1])]
  }

  lemma {:induction false} RunFlush(id: Id, f: Str, x: Str, n: nat)
    requires n <= 6
    ensures Run(Nothing, FlushBy(id, f, x, n)) == Some(FlushingSys(id, f, x, n))
  {
    if n == 0 {
      RunQueued(id, f, x);
    } else {
      RunFlush(id, f, x, n - 1);
      FlushStep(id, f, x, n - 1);
      var s, a := FlushingSys(id, f, x, n - 1), FlushActs(id)[n - 1];
      RunNext(Nothing, FlushBy(id, f, x, n - 1), s, SaverStep(id % 3, a));
      assert s.savers[id % 3 := Flushing(id, f, x, n)] == Three(id % 3, Flushing(id, f, x, n));
    }
  }

  // ---------- the logout, and the report of the earlier save ----------

  function Offlined(id: Id, f: Str, x: Str, y: Str): Sys {
    Scene(id, Events(id, f, x, y), [], Select, Entry(Offline, One(f, y)), Written(id, f, x).(queue := [OpY(id, f, y)]),
          Both(id, f, x), [Acc(OpX(id, f, x), 2), Acc(OpY(id, f, y), 3)])
  }

  lemma RunLogout(id: Id, f: Str, x: Str, y: Str)
    ensures var xs := FlushBy(id, f, x, 6) + [Put(Logout(id, One(f, y)))] + [Take] + [TryPush];
            Run(Nothing, xs) == Some(Offlined(id, f, x, y))
  {
    var xs, e := FlushBy(id, f, x, 6), Logout(id, One(f, y));
    RunFlush(id, f, x, 6);
    var s0 := FlushingSys(id, f, x, 6);
    RunNext(Nothing, xs, s0, Put(e));
    var s1 := Next(s0, Put(e));
    RunNext(Nothing, xs + [Put(e)], s1, Take);
    var s2 := Scene(id, Events(id, f, x, y), [], Must(OpY(id, f, y), false), Entry(Offline, One(f, y)), Written(id, f, x),
                    Both(id, f, x), [Acc(OpX(id, f, x), 2)]);
    LogoutTaken(id, f, x, y, s1, s2);
    RunNext(Nothing, xs + [Put(e)] + [Take], s2, TryPush);
    LogoutPushed(id, f, x, y, s2);
  }

  lemma LogoutPushed(id: Id, f: Str, x: Str, y: Str, s: Sys)
    requires s == Scene(id, Events(id, f, x, y), [], Must(OpY(id, f, y), false), Entry(Offline, One(f, y)),
                        Written(id, f, x), Both(id, f, x), [Acc(OpX(id, f, x), 2)])
    ensures Possible(s, TryPush) && Next(s, TryPush) == Offlined(id, f, x, y)
  {
    var t := Next(s, TryPush);
    assert [] + [OpY(id, f, y)] == [OpY(id, f, y)];
    assert t.savers == Offlined(id, f, x, y).savers && t.accepted == Offlined(id, f, x, y).accepted;
  }

  lemma LogoutTaken(id: Id, f: Str, x: Str, y: Str, s: Sys, t: Sys)
    requires s == Sent(FlushingSys(id, f, x, 6), Logout(id, One(f, y)))
    requires t == Scene(id, Events(id, f, x, y), [], Must(OpY(id, f, y), false), Entry(Offline, One(f, y)),
                        Written(id, f, x), Both(id, f, x), [Acc(OpX(id, f, x), 2)])
    ensures Possible(s, Take) && Next(s, Take) == t
  {
    var e, u := Logout(id, One(f, y)), Next(s, Take);
    assert s.ops == [e] && s.ops[1..] == [];
    assert u.taken == t.taken && u.put == t.put && u.ops == t.ops;
    assert u.entries == t.entries;
  }

  /** The report of the first save has been taken: it is believed to be for the logout. */
  function Fooled(id: Id, f: Str, x: Str, y: Str): Sys {
    Scene(id, Events(id, f, x, y) + [SaveSuccess([id])], [], Select, Entry(CanDel, One(f, y)),
          NewSaver.(queue := [OpY(id, f, y)]), Both(id, f, x), [Acc(OpX(id, f, x), 2), Acc(OpY(id, f, y), 3)])
  }

  function FooledBy(id: Id, f: Str, x: Str, y: Str): seq<Step> {
    FlushBy(id, f, x, 6) + [Put(Logout(id, One(f, y)))] + [Take] + [TryPush] + [SaverStep(id % 3, Posted)] + [Take]
  }

  lemma RunReport(id: Id, f: Str, x: Str, y: Str)
    ensures Run(Nothing, FooledBy(id, f, x, y)) == Some(Fooled(id, f, x, y))
  {
    var k := id % 3;
    var xs := FlushBy(id, f, x, 6) + [Put(Logout(id, One(f, y)))] + [Take] + [TryPush];
    RunLogout(id, f, x, y);
    var s0 := Offlined(id, f, x, y);
    RunNext(Nothing, xs, s0, SaverStep(k, Posted));
    ReportIs(id, f, x, y, s0);
    var s1 := Next(s0, SaverStep(k, Posted));
    RunNext(Nothing, xs + [SaverStep(k, Posted)], s1, Take);
    ReportTaken(id, f, x, y, s1);
  }

  function Unread(id: Id, f: Str, x: Str, y: Str): Sys {
    Scene(id, Events(id, f, x, y), [SaveSuccess([id])], Select, Entry(Offline, One(f, y)),
          NewSaver.(queue := [OpY(id, f, y)]), Both(id, f, x), [Acc(OpX(id, f, x), 2), Acc(OpY(id, f, y), 3)])
  }

  lemma ReportIs(id: Id, f: Str, x: Str, y: Str, s: Sys)
    requires s == Offlined(id, f, x, y)
    ensures Possible(s, SaverStep(id % 3, Posted)) && Next(s, SaverStep(id % 3, Posted)) == Unread(id, f, x, y)
  {
    var k, v, w := id % 3, Written(id, f, x).(queue := [OpY(id, f, y)]), NewSaver.(queue := [OpY(id, f, y)]);
    assert s.savers == Three(k, v);
    OneReported(id, f, x);
    ReportEnds(id, f, x, y);
    assert s.savers[k := w] == Three(k, w);
  }

  lemma ReportEnds(id: Id, f: Str, x: Str, y: Str)
    ensures var v := Written(id, f, x).(queue := [OpY(id, f, y)]);
            Enabled(v, Posted) && DoSaver(v, Posted) == NewSaver.(queue := [OpY(id, f, y)])
  {
    assert ChunkEnd([id], 0) == 1;
  }

  lemma OneReported(id: Id, f: Str, x: Str)
    ensures BothIds(Written(id, f, x).batch, ChunkIds([id], 0)) == [id]
  {
    assert [id][0..1] == [id] && [id][..0] == [];
  }

  lemma ReportTaken(id: Id, f: Str, x: Str, y: Str, s: Sys)
    requires s == Unread(id, f, x, y)
    ensures Possible(s, Take) && Next(s, Take) == Fooled(id, f, x, y)
  {
    var t := Next(s, Take);
    assert s.ops[1..] == [] && t.entries == map[id := Entry(CanDel, One(f, y))];
  }

  /** Cleanup drops the role although what Mongo has is the save before its last logout. */
  lemma StaleReport(id: Id, f: Str, x: Str, y: Str)
    requires x != y
    ensures Run(Nothing, FooledBy(id, f, x, y)).Some?
    ensures var s := Run(Nothing, FooledBy(id, f, x, y)).value;
            && Possible(s, Cleanup(id)) && id !in Next(s, Cleanup(id)).entries
            && LatestSave(s.taken, id) == Some(One(f, y)) && !Covers(Get(s.stores.mongo, id), One(f, y))
  {
    RunReport(id, f, x, y);
    var es, r := Events(id, f, x, y), SaveSuccess([id]);
    assert (es + [r])[..3] == es && f in One(f, y);
  }
}
