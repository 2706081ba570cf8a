/** The local cache of service nodes against etcd: full syncs, event streams, cancels and resyncs of any number of
    watched services, while etcd goes on changing. */
module DiscoveryRuns {
  import opened Bytes
  import opened DiscoveryPath

  /** A key in etcd: that of a node of some service, or one outside the discovery prefix. */
  datatype Key = OfNode(svc: string, id: int32) | Outside(raw: string)

  function Raw(prefix: string, k: Key): string {
    match k
    case OfNode(svc, id) => EtcdPath(prefix, svc, id)
    case Outside(raw) => raw
  }

  predicate Name(svc: string) { SlashFree(svc) && svc != "" }

  predicate KeyOk(prefix: string, k: Key) {
    match k
    case OfNode(svc, _) => Name(svc)
    case Outside(raw) => !(prefix + "/" <= raw)
  }

  /** One revision of etcd: a put, whose value may be one that cannot be decoded, or a delete. */
  datatype Event = Put(key: Key, decodable: bool) | Delete(key: Key)

  /** The keys in etcd after the events of log. */
  function Live(prefix: string, log: seq<Event>): set<string> {
    if log == [] then {}
    else
      var e := log[|log| - 1];
      var before := Live(prefix, log[..|log| - 1]);
      if e.Put? then before + {Raw(prefix, e.key)} else before - {Raw(prefix, e.key)}
  }

  /** Those of them whose value can be decoded. */
  function Readable(prefix: string, log: seq<Event>): set<string> {
    if log == [] then {}
    else
      var e := log[|log| - 1];
      var before := Readable(prefix, log[..|log| - 1]);
      if e.Put? && e.decodable then before + {Raw(prefix, e.key)} else before - {Raw(prefix, e.key)}
  }

  // ---------- what the discoverer does to its map ----------

  /** The ids of each service that has a group. */
  type Services = map<string, set<int32>>

  function Ids(s: Services, svc: string): set<int32> { if svc in s then s[svc] else {} }

  function Upsert(s: Services, key: string): Services {
    var p := ParseServicePath(key);
    if p.None? then s else s[p.value.0 := Ids(s, p.value.0) + {p.value.1}]
  }

  /** A group that becomes empty is removed. */
  function Remove(s: Services, key: string): Services {
    var p := ParseServicePath(key);
    if p.None? || p.value.0 !in s then s
    else if s[p.value.0] - {p.value.1} == {} then s - {p.value.0}
    else s[p.value.0 := s[p.value.0] - {p.value.1}]
  }

  /** The group that syncSvcFullState makes of the keys it is given with values that can be decoded. */
  function Group(keys: set<string>, svcPrefix: string): set<int32> {
    set k | k in keys && svcPrefix <= k && ParseServicePath(k).Some? :: ParseServicePath(k).value.1
  }

  // ---------- the runs ----------

  /** Idle: before a full read. Got(rev): the read was answered at revision rev. Following: the watch is open. */
  datatype Phase = Idle | Got(rev: nat) | Following

  /** synced: the revision of the last full read that was stored. at: the last revision applied since. */
  datatype Cached = Cached(synced: nat, at: nat)

  datatype Watcher = Watcher(phase: Phase, cached: Option<Cached>)

  datatype Sys = Sys(log: seq<Event>, services: Services, watchers: map<string, Watcher>)

  datatype Action =
    | Etcd(e: Event)
    | Watch(svc: string)
    | Read(svc: string)
    | Store(svc: string)
    | Apply(svc: string)
    | Cancel(svc: string)

  const Start := Sys([], map[], map[])

  predicate Enabled(prefix: string, s: Sys, a: Action) {
    match a
    case Etcd(e) => KeyOk(prefix, e.key)
    case Watch(svc) => Name(svc) && svc !in s.watchers
    case Read(svc) => svc in s.watchers && s.watchers[svc].phase.Idle?
    case Store(svc) => svc in s.watchers && s.watchers[svc].phase.Got? && s.watchers[svc].phase.rev <= |s.log|
    case Apply(svc) =>
      && svc in s.watchers && s.watchers[svc].phase.Following?
      && s.watchers[svc].cached.Some? && s.watchers[svc].cached.value.at < |s.log|
    case Cancel(svc) => svc in s.watchers && s.watchers[svc].phase.Following?
  }

  /** One event of the watch, which delivers only keys under the prefix of the service. */
  function Applied(prefix: string, svc: string, s: Services, e: Event): Services {
    var key := Raw(prefix, e.key);
    if !(EtcdSvcPrefix(prefix, svc) <= key) then s
    else if e.Delete? then Remove(s, key)
    else if e.decodable then Upsert(s, key)
    else s
  }

  function Do(prefix: string, s: Sys, a: Action): Sys
    requires Enabled(prefix, s, a)
  {
    match a
    case Etcd(e) => s.(log := s.log + [e])
    case Watch(svc) => s.(watchers := s.watchers[svc := Watcher(Idle, None)])
    case Read(svc) => s.(watchers := s.watchers[svc := s.watchers[svc].(phase := Got(|s.log|))])
    case Store(svc) =>
      var rev := s.watchers[svc].phase.rev;
      s.(services := s.services[svc := Group(Readable(prefix, s.log[..rev]), EtcdSvcPrefix(prefix, svc))],
         watchers := s.watchers[svc := Watcher(Following, Some(Cached(rev, rev)))])
    case Apply(svc) =>
      var c := s.watchers[svc].cached.value;
      s.(services := Applied(prefix, svc, s.services, s.log[c.at]),
         watchers := s.watchers[svc := Watcher(Following, Some(c.(at := c.at + 1)))])
    case Cancel(svc) => s.(watchers := s.watchers[svc := s.watchers[svc].(phase := Idle)])
  }

  // ---------- what every step keeps ----------

  predicate LogOk(prefix: string, log: seq<Event>) { forall i :: 0 <= i < |log| ==> KeyOk(prefix, log[i].key) }

  /** Revision i put key with a value that can be decoded, it was not deleted before revision k, and the put is
      one the cache took notice of: it came after the full read at r, or was the last put up to it. */
  ghost predicate Shows(prefix: string, log: seq<Event>, r: nat, k: nat, key: string, i: nat)
    requires k <= |log|
  {
    && i < k && log[i].Put? && log[i].decodable && Raw(prefix, log[i].key) == key
    && (forall j :: i < j < k && log[j].Delete? ==> Raw(prefix, log[j].key) != key)
    && (forall j :: i < j < k && j < r && log[j].Put? ==> Raw(prefix, log[j].key) != key)
  }

  ghost predicate Shown(prefix: string, log: seq<Event>, r: nat, k: nat, key: string)
    requires k <= |log|
  {
    exists i :: Shows(prefix, log, r, k, key, i)
  }

  /** The cached ids of svc are those shown at revision c.at. */
  ghost predicate Agrees(prefix: string, services: Services, svc: string, log: seq<Event>, c: Cached)
    requires c.synced <= c.at <= |log|
  {
    forall id: int32 :: id in Ids(services, svc) <==> Shown(prefix, log, c.synced, c.at, EtcdPath(prefix, svc, id))
  }

  ghost predicate WatcherOk(prefix: string, s: Sys, svc: string)
    requires svc in s.watchers
  {
    var w := s.watchers[svc];
    && Name(svc) && (w.phase.Got? ==> w.phase.rev <= |s.log|) && (w.phase.Following? ==> w.cached.Some?)
    && (w.cached.Some? ==>
          w.cached.value.synced <= w.cached.value.at <= |s.log| && Agrees(prefix, s.services, svc, s.log, w.cached.value))
  }

  ghost predicate Inv(prefix: string, s: Sys) {
    LogOk(prefix, s.log) && forall svc :: svc in s.watchers ==> WatcherOk(prefix, s, svc)
  }

  // ---------- keys ----------

  /** A key under the prefix of a service is that of one of its nodes. */
  lemma UnderPrefix(prefix: string, svc: string, k: Key)
    requires Name(svc) && KeyOk(prefix, k)
    ensures EtcdSvcPrefix(prefix, svc) <= Raw(prefix, k) <==> k.OfNode? && k.svc == svc
  {
    if k.OfNode? {
      PrefixSelects(prefix, svc, k.svc, k.id);
    } else {
      assert prefix + "/" <= EtcdSvcPrefix(prefix, svc);
    }
  }

  lemma SamePath(prefix: string, svc: string, id: int32, k: Key)
    requires Name(svc) && KeyOk(prefix, k)
    ensures Raw(prefix, k) == EtcdPath(prefix, svc, id) <==> k == OfNode(svc, id)
  {
    UnderPrefix(prefix, svc, k);
    RoundTripHolds(prefix, svc, id);
    if k.OfNode? { RoundTripHolds(prefix, k.svc, k.id); }
    assert EtcdSvcPrefix(prefix, svc) <= EtcdPath(prefix, svc, id);
  }

  lemma {:induction false} ReadableFrom(prefix: string, log: seq<Event>, x: string) returns (i: nat)
    requires x in Readable(prefix, log)
    ensures i < |log| && Raw(prefix, log[i].key) == x
  {
    var n := |log| - 1;
    if log[n].Put? && Raw(prefix, log[n].key) == x { i := n; } else { i := ReadableFrom(prefix, log[..n], x); }
  }

  /** A full read finds the ids in etcd whose value can be decoded. */
  lemma GroupExact(prefix: string, svc: string, log: seq<Event>, id: int32)
    requires Name(svc) && LogOk(prefix, log)
    ensures id in Group(Readable(prefix, log), EtcdSvcPrefix(prefix, svc))
            <==> EtcdPath(prefix, svc, id) in Readable(prefix, log)
  {
    var live, p := Readable(prefix, log), EtcdSvcPrefix(prefix, svc);
    RoundTripHolds(prefix, svc, id);
    if EtcdPath(prefix, svc, id) in live {
      assert p <= EtcdPath(prefix, svc, id);
    }
    if id in Group(live, p) {
      var k :| k in live && p <= k && ParseServicePath(k).Some? && ParseServicePath(k).value.1 == id;
      var i := ReadableFrom(prefix, log, k);
      UnderPrefix(prefix, svc, log[i].key);
      RoundTripHolds(prefix, svc, log[i].key.id);
    }
  }

  /** Upsert and Remove on a key that reads as (svc, x) change that one id of that one service. */
  lemma OneNode(services: Services, key: string, svc: string, x: int32)
    requires ParseServicePath(key) == Some((svc, x))
    ensures Ids(Upsert(services, key), svc) == Ids(services, svc) + {x}
    ensures Ids(Remove(services, key), svc) == Ids(services, svc) - {x}
    ensures forall other :: other != svc ==>
      Ids(Upsert(services, key), other) == Ids(services, other) == Ids(Remove(services, key), other)
  {
  }

  // ---------- what is shown, revision by revision ----------

  /** One more revision after the full read. */
  lemma ShownNext(prefix: string, log: seq<Event>, r: nat, k: nat, key: string)
    requires r <= k < |log|
    ensures Shown(prefix, log, r, k + 1, key)
            <==> if Raw(prefix, log[k].key) != key then Shown(prefix, log, r, k, key)
                 else log[k].Put? && (log[k].decodable || Shown(prefix, log, r, k, key))
  {
    if Shown(prefix, log, r, k, key) && (Raw(prefix, log[k].key) != key || log[k].Put?) {
      var i: nat :| Shows(prefix, log, r, k, key, i);
      assert Shows(prefix, log, r, k + 1, key, i);
    }
    if Raw(prefix, log[k].key) == key && log[k].Put? && log[k].decodable { assert Shows(prefix, log, r, k + 1, key, k); }
    if Shown(prefix, log, r, k + 1, key) { ShownBefore(prefix, log, r, k, key); }
  }

  lemma ShownBefore(prefix: string, log: seq<Event>, r: nat, k: nat, key: string)
    requires r <= k < |log| && Shown(prefix, log, r, k + 1, key)
    ensures if Raw(prefix, log[k].key) != key then Shown(prefix, log, r, k, key)
            else log[k].Put? && (log[k].decodable || Shown(prefix, log, r, k, key))
  {
    var i: nat :| Shows(prefix, log, r, k + 1, key, i);
    if i < k { assert Shows(prefix, log, r, k, key, i); }
  }

  /** What a full read sees: with k up to r only the last put counts. */
  lemma {:induction false} ShownRead(prefix: string, log: seq<Event>, r: nat, k: nat, key: string)
    requires k <= r && k <= |log|
    ensures Shown(prefix, log, r, k, key) <==> key in Readable(prefix, log[..k])
  {
    if k > 0 {
      var n := k - 1;
      ShownRead(prefix, log, r, n, key);
      assert log[..k][..n] == log[..n] && log[..k][n] == log[n];
      var same := Raw(prefix, log[n].key) == key;
      if same && log[n].Put? && log[n].decodable { assert Shows(prefix, log, r, k, key, n); }
      if !same && Shown(prefix, log, r, n, key) {
        var i: nat :| Shows(prefix, log, r, n, key, i);
        assert Shows(prefix, log, r, k, key, i);
      }
      if Shown(prefix, log, r, k, key) {
        var i: nat :| Shows(prefix, log, r, k, key, i);
        if i < n { assert Shows(prefix, log, r, n, key, i); }
      }
    }
  }

  /** What is shown is in etcd. */
  lemma {:induction false} ShownLive(prefix: string, log: seq<Event>, r: nat, k: nat, key: string, i: nat)
    requires k <= |log| && Shows(prefix, log, r, k, key, i)
    ensures key in Live(prefix, log[..k])
  {
    var n := k - 1;
    assert log[..k][..n] == log[..n] && log[..k][n] == log[n];
    if i < n {
      assert Shows(prefix, log, r, n, key, i);
      ShownLive(prefix, log, r, n, key, i);
    }
  }

  lemma ShownLonger(prefix: string, log: seq<Event>, log': seq<Event>, r: nat, k: nat, key: string)
    requires k <= |log| && log <= log'
    ensures Shown(prefix, log, r, k, key) <==> Shown(prefix, log', r, k, key)
  {
    assert forall i :: 0 <= i < k ==> log'[i] == log[i];
    if Shown(prefix, log, r, k, key) {
      var i: nat :| Shows(prefix, log, r, k, key, i);
      assert Shows(prefix, log', r, k, key, i);
    }
    if Shown(prefix, log', r, k, key) {
      var i: nat :| Shows(prefix, log', r, k, key, i);
      assert Shows(prefix, log, r, k, key, i);
    }
  }

  // ---------- what every step keeps ----------

  /** One event keeps the agreement, one revision further. */
  lemma AppliedExact(prefix: string, svc: string, services: Services, log: seq<Event>, c: Cached, id: int32)
    requires Name(svc) && LogOk(prefix, log) && c.synced <= c.at < |log| && Agrees(prefix, services, svc, log, c)
    ensures id in Ids(Applied(prefix, svc, services, log[c.at]), svc)
            <==> Shown(prefix, log, c.synced, c.at + 1, EtcdPath(prefix, svc, id))
  {
    var e := log[c.at];
    ShownNext(prefix, log, c.synced, c.at, EtcdPath(prefix, svc, id));
    UnderPrefix(prefix, svc, e.key);
    SamePath(prefix, svc, id, e.key);
    if e.key.OfNode? && e.key.svc == svc {
      RoundTripHolds(prefix, svc, e.key.id);
      OneNode(services, Raw(prefix, e.key), svc, e.key.id);
    }
  }

  lemma AppliedOthers(prefix: string, svc: string, services: Services, e: Event, other: string)
    requires Name(svc) && KeyOk(prefix, e.key) && other != svc
    ensures Ids(Applied(prefix, svc, services, e), other) == Ids(services, other)
  {
    UnderPrefix(prefix, svc, e.key);
    if e.key.OfNode? && e.key.svc == svc {
      RoundTripHolds(prefix, svc, e.key.id);
      OneNode(services, Raw(prefix, e.key), svc, e.key.id);
    }
  }

  /** A watcher whose service is left alone, while etcd may have gone on. */
  lemma OtherKept(prefix: string, s: Sys, t: Sys, other: string)
    requires other in s.watchers && WatcherOk(prefix, s, other)
    requires other in t.watchers && t.watchers[other].cached == s.watchers[other].cached
    requires t.watchers[other].phase.Got? ==> t.watchers[other].phase.rev <= |t.log|
    requires t.watchers[other].phase.Following? ==> s.watchers[other].phase.Following?
    requires Ids(t.services, other) == Ids(s.services, other) && s.log <= t.log
    ensures WatcherOk(prefix, t, other)
  {
    var w := s.watchers[other];
    if w.cached.Some? {
      var c := w.cached.value;
      forall id: int32
        ensures id in Ids(t.services, other) <==> Shown(prefix, t.log, c.synced, c.at, EtcdPath(prefix, other, id))
      {
        ShownLonger(prefix, s.log, t.log, c.synced, c.at, EtcdPath(prefix, other, id));
      }
    }
  }

  lemma StoreKeeps(prefix: string, s: Sys, svc: string)
    requires Inv(prefix, s) && Enabled(prefix, s, Store(svc))
    ensures Inv(prefix, Do(prefix, s, Store(svc)))
  {
    var t, rev := Do(prefix, s, Store(svc)), s.watchers[svc].phase.rev;
    assert WatcherOk(prefix, s, svc) && LogOk(prefix, s.log[..rev]);
    forall id: int32
      ensures id in Ids(t.services, svc) <==> Shown(prefix, t.log, rev, rev, EtcdPath(prefix, svc, id))
    {
      GroupExact(prefix, svc, s.log[..rev], id);
      ShownRead(prefix, s.log, rev, rev, EtcdPath(prefix, svc, id));
    }
    OneChanged(prefix, s, t, svc, Watcher(Following, Some(Cached(rev, rev))));
  }

  lemma AppliedAgrees(prefix: string, svc: string, services: Services, log: seq<Event>, c: Cached)
    requires Name(svc) && LogOk(prefix, log) && c.synced <= c.at < |log| && Agrees(prefix, services, svc, log, c)
    ensures Agrees(prefix, Applied(prefix, svc, services, log[c.at]), svc, log, c.(at := c.at + 1))
  {
    var after := Applied(prefix, svc, services, log[c.at]);
    forall id: int32
      ensures id in Ids(after, svc) <==> Shown(prefix, log, c.synced, c.at + 1, EtcdPath(prefix, svc, id))
    {
      AppliedExact(prefix, svc, services, log, c, id);
    }
  }

  lemma ApplyKeeps(prefix: string, s: Sys, svc: string)
    requires Inv(prefix, s) && Enabled(prefix, s, Apply(svc))
    ensures Inv(prefix, Do(prefix, s, Apply(svc)))
  {
    var t, c := Do(prefix, s, Apply(svc)), s.watchers[svc].cached.value;
    assert WatcherOk(prefix, s, svc);
    AppliedAgrees(prefix, svc, s.services, s.log, c);
    forall other | other != svc ensures Ids(t.services, other) == Ids(s.services, other) {
      AppliedOthers(prefix, svc, s.services, s.log[c.at], other);
    }
    OneChanged(prefix, s, t, svc, Watcher(Following, Some(c.(at := c.at + 1))));
  }

  /** One watcher and its service are changed. */
  lemma OneChanged(prefix: string, s: Sys, t: Sys, svc: string, w: Watcher)
    requires Inv(prefix, s) && t.log == s.log && t.watchers == s.watchers[svc := w] && WatcherOk(prefix, t, svc)
    requires forall other :: other != svc ==> Ids(t.services, other) == Ids(s.services, other)
    ensures Inv(prefix, t)
  {
    forall other | other in t.watchers && other != svc ensures WatcherOk(prefix, t, other) {
      OtherKept(prefix, s, t, other);
    }
  }

  lemma StepKeeps(prefix: string, s: Sys, a: Action)
    requires Inv(prefix, s) && Enabled(prefix, s, a)
    ensures Inv(prefix, Do(prefix, s, a))
  {
    if a.Store? {
      StoreKeeps(prefix, s, a.svc);
    } else if a.Apply? {
      ApplyKeeps(prefix, s, a.svc);
    } else {
      var t := Do(prefix, s, a);
      forall svc | svc in t.watchers ensures WatcherOk(prefix, t, svc) {
        if svc in s.watchers { OtherKept(prefix, s, t, svc); }
      }
    }
  }

  /** The state after acts, if each was possible in its turn. */
  ghost function Run(prefix: string, acts: seq<Action>): (r: Option<Sys>)
    ensures r.Some? ==> Inv(prefix, r.value)
  {
    if acts == [] then Some(Start)
    else
      var before := Run(prefix, acts[..|acts| - 1]);
      var a := acts[|acts| - 1];
      if before.None? || !Enabled(prefix, before.value, a) then None
      else StepKeeps(prefix, before.value, a); Some(Do(prefix, before.value, a))
  }

  // ---------- what that means for every run ----------

  /** A run in which svc has a cached group, its state and how far the group is. */
  ghost predicate Reached(prefix: string, acts: seq<Action>, s: Sys, svc: string, c: Cached) {
    Run(prefix, acts) == Some(s) && svc in s.watchers && s.watchers[svc].cached == Some(c)
  }

  /** In every run, across any syncs, cancels and resyncs of any services, an id is cached if and only if some put
      the cache took notice of shows it; and then it is in etcd at the revision the watcher has got to. */
  lemma CacheExact(prefix: string, acts: seq<Action>, s: Sys, svc: string, c: Cached, id: int32)
    requires Reached(prefix, acts, s, svc, c)
    ensures c.synced <= c.at <= |s.log|
    ensures id in Ids(s.services, svc) <==> Shown(prefix, s.log, c.synced, c.at, EtcdPath(prefix, svc, id))
    ensures id in Ids(s.services, svc) ==> EtcdPath(prefix, svc, id) in Live(prefix, s.log[..c.at])
  {
    assert WatcherOk(prefix, s, svc);
    var key := EtcdPath(prefix, svc, id);
    if Shown(prefix, s.log, c.synced, c.at, key) {
      var i: nat :| Shows(prefix, s.log, c.synced, c.at, key, i);
      ShownLive(prefix, s.log, c.synced, c.at, key, i);
    }
  }

  /** The cached ids of a service are those in etcd at the revision its watcher has got to, if and only if each key
      of the service in etcd then has, since its last delete, a put with a value that can be decoded that came
      after the last full read or was the last put up to it. */
  lemma CacheIsEtcd(prefix: string, acts: seq<Action>, s: Sys, svc: string, c: Cached)
    requires Reached(prefix, acts, s, svc, c)
    ensures c.synced <= c.at <= |s.log|
    ensures (forall id: int32 :: id in Ids(s.services, svc) <==> EtcdPath(prefix, svc, id) in Live(prefix, s.log[..c.at]))
            <==> (forall id: int32 :: EtcdPath(prefix, svc, id) in Live(prefix, s.log[..c.at]) ==>
                    exists i :: Shows(prefix, s.log, c.synced, c.at, EtcdPath(prefix, svc, id), i))
  {
    CacheExact(prefix, acts, s, svc, c, 0);
    forall id: int32
      ensures id in Ids(s.services, svc) <==> Shown(prefix, s.log, c.synced, c.at, EtcdPath(prefix, svc, id))
      ensures id in Ids(s.services, svc) ==> EtcdPath(prefix, svc, id) in Live(prefix, s.log[..c.at])
    {
      CacheExact(prefix, acts, s, svc, c, id);
    }
  }

  ghost predicate AllDecodable(log: seq<Event>) { forall i :: 0 <= i < |log| && log[i].Put? ==> log[i].decodable }

  lemma {:induction false} LiveShown(prefix: string, log: seq<Event>, r: nat, k: nat, key: string)
    requires k <= |log| && AllDecodable(log) && key in Live(prefix, log[..k])
    ensures Shown(prefix, log, r, k, key)
  {
    var n := k - 1;
    assert log[..k][..n] == log[..n] && log[..k][n] == log[n];
    if log[n].Put? && Raw(prefix, log[n].key) == key {
      assert Shows(prefix, log, r, k, key, n);
    } else {
      LiveShown(prefix, log, r, n, key);
      var i: nat :| Shows(prefix, log, r, n, key, i);
      assert Shows(prefix, log, r, k, key, i);
    }
  }

  /** While every value put can be decoded, the cached ids are those in etcd. */
  lemma DecodableIsEtcd(prefix: string, acts: seq<Action>, s: Sys, svc: string, c: Cached, id: int32)
    requires Reached(prefix, acts, s, svc, c) && AllDecodable(s.log)
    ensures c.at <= |s.log|
    ensures id in Ids(s.services, svc) <==> EtcdPath(prefix, svc, id) in Live(prefix, s.log[..c.at])
  {
    CacheExact(prefix, acts, s, svc, c, id);
    if EtcdPath(prefix, svc, id) in Live(prefix, s.log[..c.at]) {
      LiveShown(prefix, s.log, c.synced, c.at, EtcdPath(prefix, svc, id));
    }
  }

  /** A node put with a value that cannot be decoded is in etcd and not in the cache, although the watcher has seen
      the put. */
  lemma UndecodableUncached(prefix: string, svc: string, id: int32)
    requires Name(svc)
    ensures var acts := [Watch(svc), Read(svc), Store(svc), Etcd(Put(OfNode(svc, id), false)), Apply(svc)];
            && Run(prefix, acts).Some?
            && var s := Run(prefix, acts).value;
               && svc in s.watchers && s.watchers[svc].cached == Some(Cached(0, 1)) && |s.log| == 1
               && EtcdPath(prefix, svc, id) in Live(prefix, s.log[..1]) && id !in Ids(s.services, svc)
  {
    var e, s := Put(OfNode(svc, id), false), FirstGroup(svc);
    var synced := [Watch(svc), Read(svc), Store(svc)];
    FirstSync(prefix, svc);
    RunNext(prefix, synced, s, Etcd(e));
    var t := s.(log := [e]);
    assert s.log + [e] == [e];
    NoticedOnly(prefix, svc, id, t);
    RunNext(prefix, synced + [Etcd(e)], t, Apply(svc));
    assert synced + [Etcd(e)] + [Apply(svc)] == [Watch(svc), Read(svc), Store(svc), Etcd(e), Apply(svc)];
  }

  /** The watcher counts the put and caches nothing. */
  lemma NoticedOnly(prefix: string, svc: string, id: int32, s: Sys)
    requires Name(svc) && s == FirstGroup(svc).(log := [Put(OfNode(svc, id), false)])
    ensures Enabled(prefix, s, Apply(svc))
    ensures var t := Do(prefix, s, Apply(svc));
            && svc in t.watchers && t.watchers[svc].cached == Some(Cached(0, 1)) && t.log == s.log
            && EtcdPath(prefix, svc, id) in Live(prefix, t.log[..1]) && id !in Ids(t.services, svc)
  {
    var e := Put(OfNode(svc, id), false);
    assert [e][..1] == [e] && [e][..0] == [];
  }

  /** An empty etcd was read and stored. */
  function FirstGroup(svc: string): Sys { Sys([], map[svc := {}], map[svc := Watcher(Following, Some(Cached(0, 0)))]) }

  lemma FirstSync(prefix: string, svc: string)
    requires Name(svc)
    ensures Run(prefix, [Watch(svc), Read(svc), Store(svc)]) == Some(FirstGroup(svc))
  {
    var s := Start.(watchers := map[svc := Watcher(Got(0), None)]);
    FirstRead(prefix, svc);
    RunNext(prefix, [Watch(svc), Read(svc)], s, Store(svc));
    FirstStore(prefix, svc, s, FirstGroup(svc));
    assert [Watch(svc), Read(svc)] + [Store(svc)] == [Watch(svc), Read(svc), Store(svc)];
  }

  lemma FirstRead(prefix: string, svc: string)
    requires Name(svc)
    ensures Run(prefix, [Watch(svc), Read(svc)]) == Some(Start.(watchers := map[svc := Watcher(Got(0), None)]))
  {
    var s := Start.(watchers := map[svc := Watcher(Idle, None)]);
    RunNext(prefix, [], Start, Watch(svc));
    assert Start.watchers[svc := Watcher(Idle, None)] == s.watchers && [] + [Watch(svc)] == [Watch(svc)];
    RunNext(prefix, [Watch(svc)], s, Read(svc));
    assert s.watchers[svc := Watcher(Got(0), None)] == map[svc := Watcher(Got(0), None)];
    assert [Watch(svc)] + [Read(svc)] == [Watch(svc), Read(svc)];
  }

  lemma RunNext(prefix: string, acts: seq<Action>, s: Sys, a: Action)
    requires Run(prefix, acts) == Some(s) && Enabled(prefix, s, a)
    ensures Run(prefix, acts + [a]) == Some(Do(prefix, s, a))
  {
    assert (acts + [a])[..|acts|] == acts;
  }

  lemma FirstStore(prefix: string, svc: string, s: Sys, t: Sys)
    requires s == Start.(watchers := map[svc := Watcher(Got(0), None)])
    requires t == Sys([], map[svc := {}], map[svc := Watcher(Following, Some(Cached(0, 0)))])
    ensures Do(prefix, s, Store(svc)) == t
  {
    assert s.log[..0] == [] && Group({}, EtcdSvcPrefix(prefix, svc)) == {};
    assert s.services[svc := {}] == t.services && s.watchers[svc := Watcher(Following, Some(Cached(0, 0)))] == t.watchers;
  }
}
