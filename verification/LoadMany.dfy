/** One-to-many eager loading: loadChildren, loadUsageLogs and loadAccountGroups. The three
    bodies differ in the foreign-key column and in whether that column is nullable. */
module LoadMany {
  import opened Graph

  /** Position i is the last one that holds its id: the node the map nodeids keeps. */
  ghost predicate IsOwner(nodes: seq<Node>, i: int) {
    0 <= i < |nodes| && forall j :: i < j < |nodes| ==> nodes[j].row.id != nodes[i].row.id
  }

  /** The neighbours whose foreign key is k, in query order. */
  function Matching(e: Edge, neighbors: seq<Node>, k: int): seq<Node> {
    if neighbors == [] then [] else
      var n := neighbors[|neighbors| - 1];
      var init := Matching(e, neighbors[..|neighbors| - 1], k);
      if ForeignKey(e, n.row) == Key(k) then init + [n] else init
  }

  /** The list node i ends up with. */
  ghost function Attached(e: Edge, nodes: seq<Node>, neighbors: seq<Node>, i: int): seq<Node>
    requires 0 <= i < |nodes|
  {
    if IsOwner(nodes, i) then Matching(e, neighbors, nodes[i].row.id) else []
  }

  /** The row's foreign key names one of the nodes. */
  ghost predicate Referenced(e: Edge, nodes: seq<Node>, r: Row) {
    exists n :: n in nodes && ForeignKey(e, r) == Key(n.row.id)
  }

  ghost predicate Expected(e: Edge, nodes: seq<Node>, a: Answer) {
    a.Rows? && forall r :: r in a.rows ==> Referenced(e, nodes, r)
  }

  /** Every node holds its share under e; its other lists are those of `before`. */
  ghost predicate Loaded(e: Edge, nodes: seq<Node>, neighbors: seq<Node>, before: map<Node, map<Edge, seq<Node>>>)
    reads nodes`many
  {
    forall i :: 0 <= i < |nodes| ==>
      nodes[i] in before && nodes[i].many == before[nodes[i]][e := Attached(e, nodes, neighbors, i)]
  }

  method Load(e: Edge, nodes: seq<Node>, query: seq<int> -> Answer)
    returns (outcome: Outcome, neighbors: seq<Node>)
    requires e in OWNED_EDGES && Distinct(nodes)
    modifies nodes`many
    ensures forall n :: n in neighbors ==> fresh(n)
    ensures query(IdsOf(nodes)).Rows? ==> RowsOf(neighbors) == query(IdsOf(nodes)).rows
    ensures outcome == Done <==> Expected(e, nodes, query(IdsOf(nodes)))
    ensures outcome == Done ==> Loaded(e, nodes, neighbors, map n | n in nodes :: old(n.many))
  {
    ghost var before := map n | n in nodes :: n.many;
    var fks, nodeids := Index(e, nodes);
    neighbors := [];
    var answer := query(fks);
    if answer.Failed? { return QueryFailed, []; }
    neighbors := Materialize(answer.rows, {});
    IndexedKeys(nodes, nodeids);
    ghost var reset := map n | n in nodes :: n.many;
    outcome := Distribute(e, nodes, nodeids, neighbors);
    AllKnownIff(e, nodes, nodeids, neighbors, answer.rows);
    if outcome == Done {
      Conclude(e, nodes, nodeids, neighbors, before, reset);
    }
  }

  lemma Conclude(e: Edge, nodes: seq<Node>, nodeids: map<int, Node>, neighbors: seq<Node>,
                 before: map<Node, map<Edge, seq<Node>>>, reset: map<Node, map<Edge, seq<Node>>>)
    requires Distinct(nodes) && Indexed(nodes, nodeids)
    requires forall n :: n in nodes ==> n in before && n in reset && reset[n] == before[n][e := []]
    requires Delivered(e, nodes, nodeids, neighbors, reset)
    ensures Loaded(e, nodes, neighbors, before)
  {
    forall i | 0 <= i < |nodes|
      ensures nodes[i].many == before[nodes[i]][e := Attached(e, nodes, neighbors, i)]
    {
      KeepsIffOwner(nodes, nodeids, i);
    }
  }

  lemma IndexedKeys(nodes: seq<Node>, nodeids: map<int, Node>)
    requires Indexed(nodes, nodeids)
    ensures forall k :: k in nodeids ==> nodeids[k] in nodes && nodeids[k].row.id == k
  {
    forall k | k in nodeids ensures nodeids[k] in nodes && nodeids[k].row.id == k {
      var owner := OwnerOfKey(nodes, nodeids, k);
    }
  }

  lemma AllKnownIff(e: Edge, nodes: seq<Node>, nodeids: map<int, Node>, neighbors: seq<Node>, rows: seq<Row>)
    requires Indexed(nodes, nodeids) && RowsOf(neighbors) == rows
    ensures AllKnown(e, nodeids, neighbors) <==> Expected(e, nodes, Rows(rows))
  {
    forall m | m in neighbors ensures Known(e, nodeids, m) <==> Referenced(e, nodes, m.row) {
      KnownIffReferenced(e, nodes, nodeids, m);
    }
    RowsAndNodes(neighbors);
  }

  /** The first loop: the ids to send, the node each id stands for, and an empty list everywhere. */
  method Index(e: Edge, nodes: seq<Node>) returns (fks: seq<int>, nodeids: map<int, Node>)
    requires Distinct(nodes)
    modifies nodes`many
    ensures forall n :: n in nodes ==> n.many == old(n.many)[e := []]
    ensures fks == IdsOf(nodes)
    ensures Indexed(nodes, nodeids)
  {
    fks, nodeids := [], map[];
    for i := 0 to |nodes|
      invariant fks == IdsOf(nodes[..i])
      invariant Indexed(nodes[..i], nodeids)
      invariant forall j :: 0 <= j < i ==> nodes[j].many == old(nodes[j].many)[e := []]
      invariant forall j :: i <= j < |nodes| ==> nodes[j].many == old(nodes[j].many)
    {
      IndexStep(nodes[..i], nodes[i], nodeids);
      assert nodes[..i + 1] == nodes[..i] + [nodes[i]];
      fks := fks + [nodes[i].row.id];
      nodeids := nodeids[nodes[i].row.id := nodes[i]];
      nodes[i].many := nodes[i].many[e := []];
    }
    TakeAll(nodes);
  }

  /** nodeids maps each id among the nodes to the last node that holds it. */
  ghost predicate Indexed(nodes: seq<Node>, nodeids: map<int, Node>) {
    && (forall i :: IsOwner(nodes, i) ==>
          nodes[i].row.id in nodeids && nodeids[nodes[i].row.id] == nodes[i])
    && (forall k :: k in nodeids ==> exists i :: IsOwner(nodes, i) && nodes[i].row.id == k)
  }

  lemma IndexStep(nodes: seq<Node>, n: Node, nodeids: map<int, Node>)
    requires Indexed(nodes, nodeids)
    ensures Indexed(nodes + [n], nodeids[n.row.id := n])
  {
    var all, nodeids' := nodes + [n], nodeids[n.row.id := n];
    assert all[|nodes|] == n;
    forall i | IsOwner(all, i)
      ensures all[i].row.id in nodeids' && nodeids'[all[i].row.id] == all[i]
    {
      if i < |nodes| {
        assert all[i] == nodes[i] && all[|nodes|].row.id != all[i].row.id;
        assert forall j :: i < j < |nodes| ==> nodes[j] == all[j];
        assert IsOwner(nodes, i);
      }
    }
    forall k | k in nodeids'
      ensures exists i :: IsOwner(all, i) && all[i].row.id == k
    {
      if k == n.row.id {
        assert IsOwner(all, |nodes|);
      } else {
        var i :| IsOwner(nodes, i) && nodes[i].row.id == k;
        assert IsOwner(all, i);
      }
    }
  }

  /** The second loop: each neighbour is appended to the node its foreign key names. */
  method Distribute(e: Edge, nodes: seq<Node>, nodeids: map<int, Node>, neighbors: seq<Node>)
    returns (outcome: Outcome)
    requires forall k :: k in nodeids ==> nodeids[k] in nodes && nodeids[k].row.id == k
    requires forall n :: n in nodes ==> e in n.many && n.many[e] == []
    modifies nodes`many
    ensures outcome == Done <==> AllKnown(e, nodeids, neighbors)
    ensures outcome == Done ==> Delivered(e, nodes, nodeids, neighbors, map n | n in nodes :: old(n.many))
  {
    ghost var before := map n | n in nodes :: n.many;
    for j := 0 to |neighbors|
      invariant AllKnown(e, nodeids, neighbors[..j])
      invariant Delivered(e, nodes, nodeids, neighbors[..j], before)
    {
      TakeNext(neighbors, j);
      outcome := Deliver(e, nodes, nodeids, neighbors[j], neighbors[..j], before);
      if outcome != Done {
        UnknownStops(e, nodeids, neighbors, j);
        return;
      }
    }
    TakeAll(neighbors);
    return Done;
  }

  method Deliver(e: Edge, nodes: seq<Node>, nodeids: map<int, Node>, m: Node,
                 ghost earlier: seq<Node>, ghost before: map<Node, map<Edge, seq<Node>>>)
    returns (outcome: Outcome)
    requires forall k :: k in nodeids ==> nodeids[k] in nodes && nodeids[k].row.id == k
    requires Delivered(e, nodes, nodeids, earlier, before)
    modifies nodes`many
    ensures outcome == Done <==> Known(e, nodeids, m)
    ensures outcome == Done ==> Delivered(e, nodes, nodeids, earlier + [m], before)
  {
    var fk := ForeignKey(e, m.row);
    if fk.Nil? { return NilForeignKey(m.row.id); }
    if fk.id !in nodeids { return UnexpectedNode(m.row.id); }
    var node := nodeids[fk.id];
    assert (earlier + [m])[..|earlier|] == earlier;
    node.many := node.many[e := node.many[e] + [m]];
    assert node.many == before[node][e := Matching(e, earlier + [m], node.row.id)];
    return Done;
  }

  /** Every node the map keeps holds the neighbours with its id; the others are as before. */
  ghost predicate Delivered(e: Edge, nodes: seq<Node>, nodeids: map<int, Node>, neighbors: seq<Node>,
                            before: map<Node, map<Edge, seq<Node>>>)
    reads nodes`many
  {
    forall n :: n in nodes ==>
      n in before && n.many == if Keeps(nodeids, n) then before[n][e := Matching(e, neighbors, n.row.id)] else before[n]
  }

  predicate Keeps(nodeids: map<int, Node>, n: Node) {
    n.row.id in nodeids && nodeids[n.row.id] == n
  }

  predicate Known(e: Edge, nodeids: map<int, Node>, m: Node) {
    var fk := ForeignKey(e, m.row);
    fk.Key? && fk.id in nodeids
  }

  ghost predicate AllKnown(e: Edge, nodeids: map<int, Node>, ms: seq<Node>) {
    forall m :: m in ms ==> Known(e, nodeids, m)
  }

  lemma UnknownStops(e: Edge, nodeids: map<int, Node>, ms: seq<Node>, j: nat)
    requires j < |ms| && !Known(e, nodeids, ms[j])
    ensures !AllKnown(e, nodeids, ms)
  {
  }

  lemma KnownIffReferenced(e: Edge, nodes: seq<Node>, nodeids: map<int, Node>, m: Node)
    requires Indexed(nodes, nodeids)
    ensures Known(e, nodeids, m) <==> Referenced(e, nodes, m.row)
  {
    if Referenced(e, nodes, m.row) {
      var i := LastWith(nodes, ForeignKey(e, m.row).id);
    }
    if Known(e, nodeids, m) {
      var i := OwnerOfKey(nodes, nodeids, ForeignKey(e, m.row).id);
      assert nodes[i] in nodes;
    }
  }

  lemma OwnerOfKey(nodes: seq<Node>, nodeids: map<int, Node>, k: int) returns (owner: int)
    requires Indexed(nodes, nodeids) && k in nodeids
    ensures IsOwner(nodes, owner) && nodes[owner].row.id == k && nodeids[k] == nodes[owner]
  {
    owner :| IsOwner(nodes, owner) && nodes[owner].row.id == k;
  }

  lemma KeepsIffOwner(nodes: seq<Node>, nodeids: map<int, Node>, i: int)
    requires Distinct(nodes) && Indexed(nodes, nodeids) && 0 <= i < |nodes|
    ensures Keeps(nodeids, nodes[i]) <==> IsOwner(nodes, i)
  {
    if Keeps(nodeids, nodes[i]) {
      var owner := OwnerOfKey(nodes, nodeids, nodes[i].row.id);
    }
  }

  lemma {:induction false} LastWith(nodes: seq<Node>, k: int) returns (i: int)
    requires exists n :: n in nodes && n.row.id == k
    ensures IsOwner(nodes, i) && nodes[i].row.id == k
  {
    i := |nodes| - 1;
    if nodes[i].row.id != k {
      i := LastWith(nodes[..|nodes| - 1], k);
    }
  }
}
