/** Many-to-one eager loading: loadProxy and loadParent of AccountQuery, and loadAccount and
    loadGroup of AccountGroupQuery. The four bodies differ only in the foreign-key column. */
module LoadOne {
  import opened Options
  import opened Graph

  /** The ids sent to the edge query: the foreign keys that are not nil, each once. */
  function SentIds(e: Edge, nodes: seq<Node>): (ids: seq<int>) {
    if nodes == [] then [] else
      var init := SentIds(e, nodes[..|nodes| - 1]);
      var key := ForeignKey(e, nodes[|nodes| - 1].row);
      if key.Key? && key.id !in init then init + [key.id] else init
  }

  lemma {:induction false} SentIdsExact(e: Edge, nodes: seq<Node>)
    ensures Distinct(SentIds(e, nodes))
    ensures forall n :: n in nodes && ForeignKey(e, n.row).Key? ==> ForeignKey(e, n.row).id in SentIds(e, nodes)
    ensures forall id :: id in SentIds(e, nodes) ==> exists n :: n in nodes && ForeignKey(e, n.row) == Key(id)
  {
    if nodes != [] {
      var init, last := nodes[..|nodes| - 1], nodes[|nodes| - 1];
      SentIdsExact(e, init);
      assert nodes == init + [last];
      assert last in nodes;
      forall id | id in SentIds(e, nodes) ensures exists n :: n in nodes && ForeignKey(e, n.row) == Key(id) {
        if id in SentIds(e, init) {
          var n :| n in init && ForeignKey(e, n.row) == Key(id);
          assert n in nodes;
        }
      }
    }
  }

  /** The neighbour a node ends up with: the last one returned whose id is its foreign key. */
  function LastMatch(neighbors: seq<Node>, key: Key): (n: Option<Node>) {
    if neighbors == [] then None else
      var last := neighbors[|neighbors| - 1];
      if Key(last.row.id) == key then Some(last)
      else LastMatch(neighbors[..|neighbors| - 1], key)
  }

  lemma {:induction false} LastMatchExact(neighbors: seq<Node>, key: Key)
    ensures var n := LastMatch(neighbors, key);
      && (n.Some? ==> n.value in neighbors && Key(n.value.row.id) == key)
      && (n.None? ==> forall m :: m in neighbors ==> Key(m.row.id) != key)
  {
    if neighbors != [] {
      LastMatchExact(neighbors[..|neighbors| - 1], key);
    }
  }

  /** The neighbour that edge e of a node with this row ends up with. */
  function Attached(e: Edge, neighbors: seq<Node>, row: Row): Option<Node> {
    LastMatch(neighbors, ForeignKey(e, row))
  }

  function SetOne(one: map<Edge, Node>, e: Edge, n: Option<Node>): map<Edge, Node> {
    if n.Some? then one[e := n.value] else one
  }

  /** The rows the edge query yields; it is not run when there is no key to send. */
  function Fetched(e: Edge, nodes: seq<Node>, query: seq<int> -> Answer): Answer {
    var ids := SentIds(e, nodes);
    if ids == [] then Rows([]) else query(ids)
  }

  ghost predicate Expected(ids: seq<int>, a: Answer) {
    a.Rows? && forall r :: r in a.rows ==> r.id in ids
  }

  /** Every node holds the neighbour its key names under e; its other edges are those of `before`. */
  ghost predicate Loaded(e: Edge, nodes: seq<Node>, neighbors: seq<Node>, before: map<Node, map<Edge, Node>>)
    reads nodes`one
  {
    forall n :: n in nodes ==>
      n in before && n.one == SetOne(before[n], e, Attached(e, neighbors, n.row))
  }

  method Load(e: Edge, nodes: seq<Node>, query: seq<int> -> Answer)
    returns (outcome: Outcome, neighbors: seq<Node>)
    requires e in ONE_EDGES
    modifies nodes`one
    ensures forall n :: n in neighbors ==> fresh(n)
    ensures outcome == Done <==> Expected(SentIds(e, nodes), Fetched(e, nodes, query))
    ensures outcome == Done ==> RowsOf(neighbors) == Fetched(e, nodes, query).rows
    ensures outcome == Done ==> Loaded(e, nodes, neighbors, map n | n in nodes :: old(n.one))
  {
    ghost var before := map n | n in nodes :: n.one;
    var ids, nodeids := Index(e, nodes);
    neighbors := [];
    if ids == [] { return Done, []; }
    var answer := query(ids);
    if answer.Failed? { return QueryFailed, []; }
    neighbors := Materialize(answer.rows, {});
    outcome := Distribute(e, nodes, nodeids, neighbors, before);
    ExpectedIff(e, nodes, nodeids, neighbors, answer.rows);
  }

  lemma ExpectedIff(e: Edge, nodes: seq<Node>, nodeids: map<int, seq<Node>>, neighbors: seq<Node>, rows: seq<Row>)
    requires Indexed(e, nodes, nodeids) && RowsOf(neighbors) == rows
    ensures Expected(SentIds(e, nodes), Rows(rows)) <==> AllKnown(nodeids, neighbors)
  {
    forall m | m in neighbors ensures m.row.id in nodeids <==> m.row.id in SentIds(e, nodes) {
      SentIffHeld(e, nodes, m.row.id);
      assert Waiting(nodeids, m.row.id) == Holders(e, nodes, m.row.id);
    }
    RowsAndNodes(neighbors);
  }

  /** The first loop: the keys to send, and the nodes waiting for each of them. */
  method Index(e: Edge, nodes: seq<Node>) returns (ids: seq<int>, nodeids: map<int, seq<Node>>)
    ensures ids == SentIds(e, nodes)
    ensures Indexed(e, nodes, nodeids)
  {
    ids, nodeids := [], map[];
    for i := 0 to |nodes|
      invariant ids == SentIds(e, nodes[..i])
      invariant Indexed(e, nodes[..i], nodeids)
    {
      assert nodes[..i + 1][..i] == nodes[..i];
      var key := ForeignKey(e, nodes[i].row);
      if key.Key? {
        var fk: int := key.id;
        SentIffHeld(e, nodes[..i], fk);
        if fk !in nodeids { ids := ids + [fk]; }
        nodeids := nodeids[fk := Waiting(nodeids, fk) + [nodes[i]]];
      }
    }
    TakeAll(nodes);
  }

  /** The second loop: every neighbour goes to the nodes waiting for its id. */
  method Distribute(e: Edge, nodes: seq<Node>, nodeids: map<int, seq<Node>>, neighbors: seq<Node>,
                    ghost before: map<Node, map<Edge, Node>>) returns (outcome: Outcome)
    requires Indexed(e, nodes, nodeids) && Loaded(e, nodes, [], before)
    modifies nodes`one
    ensures outcome == Done <==> AllKnown(nodeids, neighbors)
    ensures outcome == Done ==> Loaded(e, nodes, neighbors, before)
  {
    for j := 0 to |neighbors|
      invariant AllKnown(nodeids, neighbors[..j])
      invariant Loaded(e, nodes, neighbors[..j], before)
    {
      var m := neighbors[j];
      TakeNext(neighbors, j);
      if m.row.id !in nodeids {
        assert m in neighbors;
        return UnexpectedNode(m.row.id);
      }
      HoldersExact(e, nodes, m.row.id);
      assert Waiting(nodeids, m.row.id) == Holders(e, nodes, m.row.id);
      AssignAll(e, nodeids[m.row.id], m, nodes, neighbors[..j], before);
    }
    TakeAll(neighbors);
    return Done;
  }

  ghost predicate AllKnown(nodeids: map<int, seq<Node>>, neighbors: seq<Node>) {
    forall m :: m in neighbors ==> m.row.id in nodeids
  }

  function Waiting(nodeids: map<int, seq<Node>>, k: int): seq<Node> {
    if k in nodeids then nodeids[k] else []
  }

  /** nodeids lists, per foreign key, the nodes that hold it. */
  ghost predicate Indexed(e: Edge, nodes: seq<Node>, nodeids: map<int, seq<Node>>) {
    && (forall k :: Waiting(nodeids, k) == Holders(e, nodes, k))
    && (forall k :: k in nodeids ==> nodeids[k] != [])
  }

  /** The nodes whose foreign key is k, in order. */
  ghost function Holders(e: Edge, nodes: seq<Node>, k: int): (hs: seq<Node>) {
    if nodes == [] then [] else
      var n := nodes[|nodes| - 1];
      var init := Holders(e, nodes[..|nodes| - 1], k);
      if ForeignKey(e, n.row) == Key(k) then init + [n] else init
  }

  lemma {:induction false} HoldersExact(e: Edge, nodes: seq<Node>, k: int)
    ensures forall n :: n in Holders(e, nodes, k) ==> n in nodes && ForeignKey(e, n.row) == Key(k)
    ensures forall n :: n in nodes && ForeignKey(e, n.row) == Key(k) ==> n in Holders(e, nodes, k)
  {
    if nodes != [] {
      HoldersExact(e, nodes[..|nodes| - 1], k);
    }
  }

  lemma {:induction false} SentIffHeld(e: Edge, nodes: seq<Node>, k: int)
    ensures k in SentIds(e, nodes) <==> Holders(e, nodes, k) != []
  {
    if nodes != [] {
      SentIffHeld(e, nodes[..|nodes| - 1], k);
    }
  }

  /** The inner loop: every node waiting for this key gets the neighbour. */
  method AssignAll(e: Edge, holders: seq<Node>, m: Node, ghost nodes: seq<Node>,
                   ghost earlier: seq<Node>, ghost before: map<Node, map<Edge, Node>>)
    requires Loaded(e, nodes, earlier, before)
    requires forall n :: n in holders ==> n in nodes && ForeignKey(e, n.row) == Key(m.row.id)
    requires forall n :: n in nodes && ForeignKey(e, n.row) == Key(m.row.id) ==> n in holders
    modifies nodes`one
    ensures Loaded(e, nodes, earlier + [m], before)
  {
    for i := 0 to |holders|
      invariant forall n :: n in nodes ==>
        n.one == if n in holders[..i] then before[n][e := m]
                 else SetOne(before[n], e, Attached(e, earlier, n.row))
    {
      assert holders[i] in nodes;
      holders[i].one := holders[i].one[e := m];
    }
    TakeAll(holders);
    assert (earlier + [m])[..|earlier|] == earlier;
  }
}
