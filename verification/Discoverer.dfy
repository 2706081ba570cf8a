/** Discoverer's map of node groups as the watch loop changes it. */
module Discoverer {
  import opened Bytes
  import opened DiscoveryPath
  import opened DiscoveryRuns
  import NG = NodeGroup

  /** A key and what its value decodes to: a load, or nothing. */
  datatype Kv = Kv(key: string, load: Option<int32>)

  function Decoded(kvs: seq<Kv>): set<string> { set i | 0 <= i < |kvs| && kvs[i].load.Some? :: kvs[i].key }

  lemma DecodedSnoc(kvs: seq<Kv>, i: nat)
    requires i < |kvs|
    ensures Decoded(kvs[..i + 1]) == Decoded(kvs[..i]) + if kvs[i].load.Some? then {kvs[i].key} else {}
  {
    assert kvs[..i + 1] == kvs[..i] + [kvs[i]];
    forall k | k in Decoded(kvs[..i]) ensures k in Decoded(kvs[..i + 1]) {
      var j :| 0 <= j < i && kvs[..i][j].load.Some? && kvs[..i][j].key == k;
      assert kvs[..i + 1][j] == kvs[..i][j];
    }
    assert kvs[i].load.Some? ==> kvs[i].key in Decoded(kvs[..i + 1]) by { assert kvs[..i + 1][i] == kvs[i]; }
  }

  /** The first half of syncSvcFullState: a group made of the answer of etcd. */
  method BuildGroup(svcPrefix: string, kvs: seq<Kv>) returns (g: NG.NodeGroup)
    requires forall i :: 0 <= i < |kvs| ==> svcPrefix <= kvs[i].key
    ensures fresh(g) && g.Valid() && g.state.nodes.Keys == Group(Decoded(kvs), svcPrefix)
  {
    g := new NG.NodeGroup();
    for i := 0 to |kvs|
      invariant fresh(g) && g.Valid() && g.state.nodes.Keys == Group(Decoded(kvs[..i]), svcPrefix)
    {
      DecodedSnoc(kvs, i);
      if kvs[i].load.Some? {
        GroupSnoc(Decoded(kvs[..i]), kvs[i].key, svcPrefix);
        var path := ParseServicePath(kvs[i].key);
        if path.Some? { g.Add(path.value.1, kvs[i].load.value); }
      }
    }
    assert kvs[..|kvs|] == kvs;
  }

  lemma SetTwice(v: Services, svc: string, a: set<int32>, b: set<int32>)
    ensures v[svc := a][svc := b] == v[svc := b]
  {
  }

  class Discoverer {
    var services: map<string, NG.NodeGroup>
    /** The ids of each service that has a group. */
    ghost var view: Services
    const prefix: string

    constructor (prefix: string)
      ensures this.prefix == prefix && Valid() && view == map[]
    {
      this.prefix := prefix;
      services := map[];
      view := map[];
    }

    /** view is what the groups say, and no two services share a group. */
    ghost predicate Valid()
      reads this, services.Values
    {
      && services.Keys == view.Keys
      && (forall a :: a in services ==> services[a].Valid() && services[a].state.nodes.Keys == view[a])
      && (forall a, b :: a in services && b in services && a != b ==> services[a] != services[b])
    }

    /** The first locked part of upsertNode: the group of svc, made if there is none. */
    method GroupOf(svc: string)
      requires Valid()
      modifies this
      ensures Valid() && svc in services && view == old(view)[svc := Ids(old(view), svc)]
      ensures fresh(services.Values - old(services.Values))
    {
      if svc !in services {
        var one := new NG.NodeGroup();
        services := services[svc := one];
        view := view[svc := {}];
      } else {
        assert view == view[svc := Ids(view, svc)];
      }
    }

    method AddTo(svc: string, id: int32, load: int32)
      requires Valid() && svc in services
      modifies this`view, services[svc]
      ensures Valid() && view == old(view)[svc := old(view)[svc] + {id}]
    {
      services[svc].Add(id, load);
      view := view[svc := view[svc] + {id}];
    }

    method UpsertNode(key: string, load: Option<int32>)
      requires Valid()
      modifies this, services.Values
      ensures Valid() && view == if load.None? then old(view) else Upsert(old(view), key)
    {
      if load.None? { return; }
      var path := ParseServicePath(key);
      if path.None? { return; }
      var (svc, id) := path.value;
      ghost var was := view;
      GroupOf(svc);
      AddTo(svc, id, load.value);
      SetTwice(was, svc, Ids(was, svc), Ids(was, svc) + {id});
    }

    method RemoveNode(key: string)
      requires Valid()
      modifies this, services.Values
      ensures Valid() && view == Remove(old(view), key)
    {
      var path := ParseServicePath(key);
      if path.None? { return; }
      var (svc, id) := path.value;
      if svc in services {
        var one := services[svc];
        var empty := one.Delete(id);
        assert one.state.nodes.Keys == view[svc] - {id};
        assert empty <==> view[svc] - {id} == {};
        if empty { services := services - {svc}; }
        view := Remove(view, key);
      }
    }

    /** syncSvcFullState: a new group takes the place of the old one. */
    method SyncSvcFullState(svc: string, kvs: seq<Kv>)
      requires Valid() && forall i :: 0 <= i < |kvs| ==> EtcdSvcPrefix(prefix, svc) <= kvs[i].key
      modifies this
      ensures Valid() && view == old(view)[svc := Group(Decoded(kvs), EtcdSvcPrefix(prefix, svc))]
    {
      var newGroup := BuildGroup(EtcdSvcPrefix(prefix, svc), kvs);
      services := services[svc := newGroup];
      view := view[svc := Group(Decoded(kvs), EtcdSvcPrefix(prefix, svc))];
    }
  }

  lemma GroupSnoc(keys: set<string>, k: string, svcPrefix: string)
    requires svcPrefix <= k
    ensures Group(keys + {k}, svcPrefix)
         == Group(keys, svcPrefix) + if ParseServicePath(k).Some? then {ParseServicePath(k).value.1} else {}
  {
    var g := Group(keys + {k}, svcPrefix);
    assert forall x :: x in keys ==> x in keys + {k};
    assert ParseServicePath(k).Some? ==> ParseServicePath(k).value.1 in g by { assert k in keys + {k}; }
    forall id | id in Group(keys, svcPrefix) ensures id in g {
      var x :| x in keys && svcPrefix <= x && ParseServicePath(x).Some? && ParseServicePath(x).value.1 == id;
      assert x in keys + {k};
    }
  }
}
