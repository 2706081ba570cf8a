/** A service's nodes: copy-on-write states that share the cells holding the loads. */
module NodeGroup {
  import opened Bytes

  /** The cell of one node. Its load is stored in place, also through states that are no longer current. */
  class NodeMeta {
    const nodeID: int32
    var load: int32

    constructor (nodeID: int32, load: int32)
      ensures this.nodeID == nodeID && this.load == load
    {
      this.nodeID := nodeID;
      this.load := load;
    }
  }

  datatype State = State(nodes: map<int32, NodeMeta>, nodeIDs: seq<int32>)

  /** ids lists the keys, each once. */
  ghost predicate Lists(ids: seq<int32>, keys: set<int32>) {
    (forall i, j :: 0 <= i < j < |ids| ==> ids[i] != ids[j]) && (forall id :: id in keys <==> id in ids)
  }

  ghost predicate StateOk(s: State) {
    Lists(s.nodeIDs, s.nodes.Keys) && forall id :: id in s.nodes ==> s.nodes[id].nodeID == id
  }

  /** The second index drawn: j runs over one value less, and skips i. */
  function Second(i: nat, j: nat): nat { if j >= i then j + 1 else j }

  /** The two draws of SelectNode are one-to-one onto the ordered pairs of different indices below n. */
  lemma DrawsArePairs(n: nat, a: nat, b: nat)
    requires a < n && b < n
    ensures a != b <==> exists j :: 0 <= j < n - 1 && Second(a, j) == b
    ensures forall j, k :: 0 <= j < n - 1 && 0 <= k < n - 1 && Second(a, j) == Second(a, k) ==> j == k
    ensures forall j :: 0 <= j < n - 1 ==> Second(a, j) < n
  {
    if a != b { assert Second(a, if b > a then b - 1 else b) == b; }
  }

  /** Keys are gone through in any order. */
  method ListKeys(nodes: map<int32, NodeMeta>) returns (ids: seq<int32>)
    ensures Lists(ids, nodes.Keys)
  {
    ids := [];
    var todo := nodes.Keys;
    while todo != {}
      invariant todo <= nodes.Keys && Lists(ids, nodes.Keys - todo)
    {
      var id :| id in todo;
      ids := ids + [id];
      todo := todo - {id};
    }
    assert nodes.Keys - todo == nodes.Keys;
  }

  /** The entries of nodes except that of skip, if any, in a new map. */
  method CopyNodes(nodes: map<int32, NodeMeta>, skip: Option<int32>) returns (copy: map<int32, NodeMeta>)
    ensures copy == if skip.None? then nodes else nodes - {skip.value}
  {
    copy := map[];
    var todo := nodes.Keys;
    while todo != {}
      invariant todo <= nodes.Keys
      invariant forall k :: k in copy <==> k in nodes && k !in todo && skip != Some(k)
      invariant forall k :: k in copy ==> copy[k] == nodes[k]
    {
      var k :| k in todo;
      if skip != Some(k) { copy := copy[k := nodes[k]]; }
      todo := todo - {k};
    }
    assert copy == if skip.None? then nodes else nodes - {skip.value};
  }

  class NodeGroup {
    var state: State

    ghost predicate Valid()
      reads this
    {
      StateOk(state)
    }

    constructor ()
      ensures Valid() && state.nodes == map[]
    {
      state := State(map[], []);
    }

    /** Add: a new cell for id; every other node keeps its cell. */
    method Add(id: int32, load: int32)
      requires Valid()
      modifies this
      ensures Valid() && state.nodes.Keys == old(state.nodes.Keys) + {id}
      ensures forall k :: k in old(state.nodes) && k != id ==> state.nodes[k] == old(state.nodes[k])
      ensures fresh(state.nodes[id]) && state.nodes[id].load == load
    {
      var newNodes := CopyNodes(state.nodes, None);
      var meta := new NodeMeta(id, load);
      newNodes := newNodes[id := meta];
      var ids := ListKeys(newNodes);
      state := State(newNodes, ids);
    }

    /** Delete: the others keep their cells; the answer is whether no node is left. */
    method Delete(id: int32) returns (empty: bool)
      requires Valid()
      modifies this
      ensures Valid() && state.nodes == old(state.nodes) - {id} && empty == (state.nodes == map[])
      ensures id !in old(state.nodes) ==> state == old(state)
    {
      if id !in state.nodes {
        assert state.nodes == state.nodes - {id};
        return |state.nodes| == 0;
      }
      var newNodes := CopyNodes(state.nodes, Some(id));
      var ids := ListKeys(newNodes);
      state := State(newNodes, ids);
      empty := |newNodes| == 0;
    }

    /** SelectNode with its two draws: one of two different nodes, the less loaded, the first on a tie. */
    method SelectNode(i: nat, j: nat) returns (id: int32, ok: bool)
      requires Valid() && (|state.nodeIDs| >= 2 ==> i < |state.nodeIDs| && j < |state.nodeIDs| - 1)
      ensures ok <==> state.nodes != map[]
      ensures ok ==> id in state.nodes
      ensures |state.nodeIDs| >= 2 ==>
        var a, b := state.nodes[state.nodeIDs[i]], state.nodes[state.nodeIDs[Second(i, j)]];
        a != b && id == if a.load <= b.load then a.nodeID else b.nodeID
      ensures forall x :: x in state.nodes && |state.nodeIDs| >= 2 && MostLoaded(x) ==> id != x
    {
      var ids := state.nodeIDs;
      if |ids| == 0 { return 0, false; }
      assert ids[0] in ids && ids[0] in state.nodes;
      if |ids| == 1 { return ids[0], true; }
      var j' := if j >= i then j + 1 else j;
      assert ids[i] in ids && ids[j'] in ids && ids[i] != ids[j'];
      var node1, node2 := state.nodes[ids[i]], state.nodes[ids[j']];
      if node1.load <= node2.load { return node1.nodeID, true; }
      return node2.nodeID, true;
    }

    /** Every other node carries strictly less. */
    ghost predicate MostLoaded(x: int32)
      requires x in state.nodes
      reads this, state.nodes.Values
    {
      forall y :: y in state.nodes && y != x ==> state.nodes[y].load < state.nodes[x].load
    }
  }

  /** UpdateLoad from the moment it has read the state: the cell is changed, whatever the state is by then. */
  method StoreLoad(s: State, id: int32, load: int32)
    requires StateOk(s)
    modifies if id in s.nodes then {s.nodes[id]} else {}
    ensures id in s.nodes ==> s.nodes[id].load == load
  {
    if id in s.nodes { s.nodes[id].load := load; }
  }

  // ---------- stale updates over any history ----------

  /** A group as a value: each node has a cell, and loads has the load of each cell ever made. */
  datatype Cells = Cells(nodes: map<int32, nat>, loads: seq<int32>)

  datatype Op = AddNode(id: int32, load: int32) | DeleteNode(id: int32) | SetCell(cell: nat, load: int32)

  function Do(c: Cells, op: Op): Cells {
    match op
    case AddNode(id, load) => Cells(c.nodes[id := |c.loads|], c.loads + [load])
    case DeleteNode(id) => c.(nodes := c.nodes - {id})
    case SetCell(cell, load) => if cell < |c.loads| then c.(loads := c.loads[cell := load]) else c
  }

  function DoAll(c: Cells, ops: seq<Op>): Cells {
    if ops == [] then c else Do(DoAll(c, ops[..|ops| - 1]), ops[|ops| - 1])
  }

  function Load(c: Cells, id: int32): Option<int32> {
    if id in c.nodes && c.nodes[id] < |c.loads| then Some(c.loads[c.nodes[id]]) else None
  }

  predicate Touches(op: Op, id: int32) { !op.SetCell? && op.id == id }

  ghost predicate CellsOk(c: Cells) { forall id :: id in c.nodes ==> c.nodes[id] < |c.loads| }

  /** A node keeps its cell exactly as long as it is neither added again nor deleted. */
  lemma {:induction false} CellKept(c: Cells, ops: seq<Op>, id: int32)
    requires CellsOk(c) && id in c.nodes
    ensures var d := DoAll(c, ops);
            && CellsOk(d) && |c.loads| <= |d.loads|
            && (id in d.nodes && d.nodes[id] == c.nodes[id]
                <==> forall k :: 0 <= k < |ops| ==> !Touches(ops[k], id))
            && (id in d.nodes && d.nodes[id] != c.nodes[id] ==> d.nodes[id] >= |c.loads|)
  {
    if ops != [] {
      var n := |ops| - 1;
      CellKept(c, ops[..n], id);
      assert forall k :: 0 <= k < n ==> ops[..n][k] == ops[k];
    }
  }

  /** c and d differ in the load of one cell at most. */
  ghost predicate AlikeBut(c: Cells, d: Cells, cell: nat) {
    c.nodes == d.nodes && |c.loads| == |d.loads| && forall i :: 0 <= i < |c.loads| && i != cell ==> c.loads[i] == d.loads[i]
  }

  /** Later steps keep two such groups alike, and a later store to the cell makes them the same. */
  lemma {:induction false} StaysAlike(c: Cells, d: Cells, ops: seq<Op>, cell: nat)
    requires AlikeBut(c, d, cell) && cell < |c.loads|
    ensures AlikeBut(DoAll(c, ops), DoAll(d, ops), cell) && |c.loads| <= |DoAll(c, ops).loads|
    ensures (exists k :: 0 <= k < |ops| && ops[k].SetCell? && ops[k].cell == cell) ==>
              DoAll(c, ops).loads[cell] == DoAll(d, ops).loads[cell]
    ensures (forall k :: 0 <= k < |ops| && ops[k].SetCell? ==> ops[k].cell != cell) ==>
              DoAll(c, ops).loads[cell] == c.loads[cell]
  {
    if ops != [] {
      var n := |ops| - 1;
      StaysAlike(c, d, ops[..n], cell);
      assert forall k :: 0 <= k < n ==> ops[..n][k] == ops[k];
    }
  }

  /** The history ops, a store of load through the state c, and the history more. */
  function Stale(c: Cells, ops: seq<Op>, id: int32, load: int32, more: seq<Op>): Cells
    requires id in c.nodes
  {
    DoAll(Do(DoAll(c, ops), SetCell(c.nodes[id], load)), more)
  }

  /** Nothing after the state c adds or deletes the node, and no later store goes to its cell. */
  ghost predicate Undisturbed(c: Cells, ops: seq<Op>, id: int32, more: seq<Op>)
    requires id in c.nodes
  {
    && (forall k :: 0 <= k < |ops| ==> !Touches(ops[k], id))
    && (forall k :: 0 <= k < |more| ==> !Touches(more[k], id))
    && (forall k :: 0 <= k < |more| && more[k].SetCell? ==> more[k].cell != c.nodes[id])
  }

  lemma StaleSeen(c: Cells, ops: seq<Op>, id: int32, load: int32, more: seq<Op>)
    requires CellsOk(c) && id in c.nodes && Undisturbed(c, ops, id, more)
    ensures Load(Stale(c, ops, id, load, more), id) == Some(load)
  {
    CellKept(c, ops, id);
    var d := Do(DoAll(c, ops), SetCell(c.nodes[id], load));
    CellKept(d, more, id);
    StaysAlike(d, d, more, c.nodes[id]);
  }

  /** If anything disturbs it, what is seen in the end does not depend on what was stored. */
  lemma StaleLost(c: Cells, ops: seq<Op>, id: int32, a: int32, b: int32, more: seq<Op>)
    requires CellsOk(c) && id in c.nodes && !Undisturbed(c, ops, id, more)
    ensures Load(Stale(c, ops, id, a, more), id) == Load(Stale(c, ops, id, b, more), id)
  {
    var cell, m := c.nodes[id], DoAll(c, ops);
    CellKept(c, ops, id);
    var d, e := Do(m, SetCell(cell, a)), Do(m, SetCell(cell, b));
    StaysAlike(d, e, more, cell);
    CellMoved(m, d, more, id, cell);
  }

  /** A node that had lost a cell, or loses it, does not get it back. */
  lemma CellMoved(m: Cells, d: Cells, more: seq<Op>, id: int32, cell: nat)
    requires CellsOk(m) && d.nodes == m.nodes && |d.loads| == |m.loads| && cell < |m.loads|
    ensures (id in m.nodes ==> m.nodes[id] != cell) || (exists k :: 0 <= k < |more| && Touches(more[k], id)) ==>
              var f := DoAll(d, more); id in f.nodes ==> f.nodes[id] != cell
  {
    if id in m.nodes {
      CellKept(d, more, id);
    } else {
      CellNew(d, more, id, |m.loads|);
    }
  }

  lemma {:induction false} CellNew(d: Cells, ops: seq<Op>, id: int32, n: nat)
    requires CellsOk(d) && id !in d.nodes && n <= |d.loads|
    ensures var f := DoAll(d, ops); |f.loads| >= n && (id in f.nodes ==> f.nodes[id] >= n)
  {
    if ops != [] { CellNew(d, ops[..|ops| - 1], id, n); }
  }

  /** A load stored through an old state is what GetLoad then says, whatever the load, if and only if the node was
      neither added again nor deleted since that state, and nobody stored to its cell later. What happened to the
      other nodes, before or after the store, does not matter. */
  lemma StaleUpdateSurvives(c: Cells, ops: seq<Op>, id: int32, more: seq<Op>)
    requires CellsOk(c) && id in c.nodes
    ensures (forall load: int32 :: Load(Stale(c, ops, id, load, more), id) == Some(load)) <==> Undisturbed(c, ops, id, more)
  {
    if Undisturbed(c, ops, id, more) {
      forall load: int32 ensures Load(Stale(c, ops, id, load, more), id) == Some(load) {
        StaleSeen(c, ops, id, load, more);
      }
    } else {
      StaleLost(c, ops, id, 0, 1, more);
      assert Load(Stale(c, ops, id, 0, more), id) == Load(Stale(c, ops, id, 1, more), id);
    }
  }

  // ---------- the object is such a group ----------

  /** made is every cell ever made for the group g, in order; with them g is the group c. */
  ghost predicate Shows(g: NodeGroup, made: seq<NodeMeta>, c: Cells)
    reads g, made
  {
    && |c.loads| == |made| && (forall i :: 0 <= i < |made| ==> made[i].load == c.loads[i])
    && (forall i, j :: 0 <= i < j < |made| ==> made[i] != made[j])
    && SameCells(g.state.nodes, made, c.nodes)
  }

  ghost predicate SameCells(nodes: map<int32, NodeMeta>, made: seq<NodeMeta>, cells: map<int32, nat>) {
    && (forall id :: id in nodes <==> id in cells)
    && (forall id :: id in cells ==> id in nodes && cells[id] < |made| && made[cells[id]] == nodes[id])
  }

  method AddRefines(g: NodeGroup, id: int32, load: int32, ghost made: seq<NodeMeta>, ghost c: Cells)
    returns (ghost made': seq<NodeMeta>)
    requires g.Valid() && Shows(g, made, c)
    modifies g
    ensures g.Valid() && made <= made' && Shows(g, made', Do(c, AddNode(id, load)))
  {
    g.Add(id, load);
    made' := made + [g.state.nodes[id]];
  }

  method DeleteRefines(g: NodeGroup, id: int32, ghost made: seq<NodeMeta>, ghost c: Cells) returns (empty: bool)
    requires g.Valid() && Shows(g, made, c)
    modifies g
    ensures g.Valid() && Shows(g, made, Do(c, DeleteNode(id))) && empty == (Do(c, DeleteNode(id)).nodes == map[])
  {
    ghost var was := g.state.nodes;
    empty := g.Delete(id);
    assert forall x :: x in g.state.nodes <==> x in c.nodes - {id};
    assert g.state.nodes == map[] <==> c.nodes - {id} == map[] by {
      assert g.state.nodes.Keys == (c.nodes - {id}).Keys;
    }
  }

  /** A store through the old state s, in which id had the given cell. */
  method StoreRefines(g: NodeGroup, s: State, id: int32, load: int32, ghost made: seq<NodeMeta>, ghost c: Cells, ghost cell: nat)
    requires g.Valid() && StateOk(s) && Shows(g, made, c) && id in s.nodes && cell < |made| && made[cell] == s.nodes[id]
    modifies s.nodes[id]
    ensures g.Valid() && Shows(g, made, Do(c, SetCell(cell, load)))
  {
    StoreLoad(s, id, load);
  }

  /** The load of a node now, if it is in the group. */
  method GetLoad(g: NodeGroup, id: int32, ghost made: seq<NodeMeta>, ghost c: Cells) returns (r: Option<int32>)
    requires g.Valid() && Shows(g, made, c)
    ensures r == Load(c, id)
  {
    if id in g.state.nodes { return Some(g.state.nodes[id].load); }
    return None;
  }
}
