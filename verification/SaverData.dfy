/** Saves, the batch they are merged into, and the two stores. Data maps are values. */
module SaverData {
  import opened Bytes

  type Id = nat
  type Doc = map<Str, Str>
  type Store = map<Id, Doc>

  datatype SaveOp = SaveOp(id: Id, data: Doc, both: bool)

  type Batch = map<Id, SaveOp>

  function Get(s: Store, id: Id): Doc { if id in s then s[id] else map[] }

  /** HSET, or $set with upsert: given fields are written, the others stay. */
  function Set(s: Store, id: Id, data: Doc): Store { s[id := Get(s, id) + data] }

  function Data(b: Batch, id: Id): Doc { if id in b then b[id].data else map[] }

  /** What ops say about id, later ones over earlier ones. */
  function ForId(ops: seq<SaveOp>, id: Id): Doc {
    if ops == [] then map[]
    else ForId(ops[..|ops| - 1], id) + Mine(ops[|ops| - 1], id)
  }

  function Mine(op: SaveOp, id: Id): Doc { if op.id == id then op.data else map[] }

  /** d already has every field of e, with e's value. */
  predicate Covers(d: Doc, e: Doc) { e.Keys <= d.Keys && forall f :: f in e ==> d[f] == e[f] }

  // ---------- overlaying documents ----------

  lemma Overlay3(a: Doc, b: Doc, c: Doc)
    ensures (a + b) + c == a + (b + c)
  {
  }

  lemma OverlayNone(a: Doc)
    ensures a + map[] == a && map[] + a == a
  {
  }

  lemma OverlayCovered(a: Doc, b: Doc)
    ensures Covers(a + b, b)
    ensures Covers(a, b) <==> a + b == a
    ensures (a + b) + b == a + b
  {
    if a + b == a { assert forall f :: f in b ==> f in (a + b) && (a + b)[f] == b[f]; }
  }

  lemma {:induction false} ForIdConcat(a: seq<SaveOp>, b: seq<SaveOp>, id: Id)
    ensures ForId(a + b, id) == ForId(a, id) + ForId(b, id)
  {
    if b == [] {
      assert a + b == a;
      OverlayNone(ForId(a, id));
    } else {
      var n := |b| - 1;
      ForIdConcat(a, b[..n], id);
      assert (a + b)[..|a + b| - 1] == a + b[..n];
      Overlay3(ForId(a, id), ForId(b[..n], id), Mine(b[n], id));
    }
  }

  lemma ForIdOne(op: SaveOp, id: Id)
    ensures ForId([op], id) == Mine(op, id)
  {
    assert [op][..0] == [];
    OverlayNone(Mine(op, id));
  }

  lemma ForIdFirst(ops: seq<SaveOp>, id: Id)
    requires ops != []
    ensures ForId(ops, id) == Mine(ops[0], id) + ForId(ops[1..], id)
  {
    assert ops == [ops[0]] + ops[1..];
    ForIdConcat([ops[0]], ops[1..], id);
    ForIdOne(ops[0], id);
  }

  /** Each field of the fold is that of the last op that has it. */
  lemma {:induction false} LastWins(ops: seq<SaveOp>, id: Id, p: nat, f: Str) returns (q: nat)
    requires p < |ops| && ops[p].id == id && f in ops[p].data
    ensures p <= q < |ops| && ops[q].id == id && f in ops[q].data
    ensures forall r :: q < r < |ops| && ops[r].id == id ==> f !in ops[r].data
    ensures f in ForId(ops, id) && ForId(ops, id)[f] == ops[q].data[f]
  {
    var n := |ops| - 1;
    if ops[n].id == id && f in ops[n].data {
      q := n;
    } else {
      q := LastWins(ops[..n], id, p, f);
      assert forall r :: 0 <= r < n ==> ops[..n][r] == ops[r];
    }
  }

  // ---------- merge ----------

  /** merge(batch, op): newer fields over older ones, Both once set stays set. */
  function MergeOp(b: Batch, op: SaveOp): (r: Batch)
    ensures op.id in r
  {
    if op.id in b then b[op.id := SaveOp(b[op.id].id, b[op.id].data + op.data, b[op.id].both || op.both)]
    else b[op.id := op]
  }

  ghost predicate BatchOk(b: Batch) { forall id :: id in b ==> b[id].id == id }

  /** Merging is appending to what is pending: the fold of a batch is the fold of the saves merged into it. */
  lemma MergeFolds(b: Batch, op: SaveOp, id: Id)
    requires BatchOk(b)
    ensures BatchOk(MergeOp(b, op)) && Data(MergeOp(b, op), id) == Data(b, id) + Mine(op, id)
    ensures id in MergeOp(b, op) <==> id in b || id == op.id
    ensures id in MergeOp(b, op) && MergeOp(b, op)[id].both <==> (id in b && b[id].both) || (id == op.id && op.both)
  {
    OverlayNone(Data(b, id));
    OverlayNone(op.data);
  }
}
