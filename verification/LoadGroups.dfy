/** Many-to-many eager loading: loadGroups. One joined query returns (account id, group row)
    pairs; a scan hook builds `nids`, the accounts of each group, and keeps one group node per
    distinct group id; the groups are then handed out in an order of accounts that the Go map
    iteration leaves open. */
module LoadGroups {
  import opened Graph
  import LoadMany

  datatype JoinRow = JoinRow(account: int, group: Row)

  datatype JoinAnswer = JoinFailed | Joined(rows: seq<JoinRow>)

  predicate HasRow(rows: seq<JoinRow>, a: int, g: int) {
    exists r :: r in rows && r.account == a && r.group.id == g
  }

  predicate HasGroup(rows: seq<JoinRow>, g: int) {
    exists r :: r in rows && r.group.id == g
  }

  /** The group of every row whose group id did not occur before it. */
  function FirstGroups(rows: seq<JoinRow>): seq<Row> {
    if rows == [] then [] else
      var init := rows[..|rows| - 1];
      var last := rows[|rows| - 1];
      if HasGroup(init, last.group.id) then FirstGroups(init) else FirstGroups(init) + [last.group]
  }

  /** The neighbours that have a row with account a, in neighbour order. */
  ghost function GroupsOf(rows: seq<JoinRow>, neighbors: seq<Node>, a: int): seq<Node> {
    if neighbors == [] then [] else
      var init := GroupsOf(rows, neighbors[..|neighbors| - 1], a);
      var n := neighbors[|neighbors| - 1];
      if HasRow(rows, a, n.row.id) then init + [n] else init
  }

  ghost function Attached(rows: seq<JoinRow>, nodes: seq<Node>, neighbors: seq<Node>, i: int): seq<Node>
    requires 0 <= i < |nodes|
  {
    if LoadMany.IsOwner(nodes, i) then GroupsOf(rows, neighbors, nodes[i].row.id) else []
  }

  ghost predicate Loaded(rows: seq<JoinRow>, nodes: seq<Node>, neighbors: seq<Node>,
                         before: map<Node, map<Edge, seq<Node>>>)
    reads nodes`many
  {
    forall i :: 0 <= i < |nodes| ==>
      nodes[i] in before && nodes[i].many == before[nodes[i]][Groups := Attached(rows, nodes, neighbors, i)]
  }

  /** Every group handed back has join rows, and all of them name accounts being loaded. */
  ghost predicate Expected(rows: seq<JoinRow>, nodes: seq<Node>, groups: seq<Row>) {
    forall x :: x in groups ==>
      HasGroup(rows, x.id) && forall r :: r in rows && r.group.id == x.id ==> r.account in IdsOf(nodes)
  }

  method Load(nodes: seq<Node>, query: seq<int> -> JoinAnswer, intercept: seq<Row> -> seq<Row>)
    returns (outcome: Outcome, neighbors: seq<Node>)
    requires Distinct(nodes)
    modifies nodes`many
    ensures forall n :: n in neighbors ==> fresh(n)
    ensures query(IdsOf(nodes)).Joined? ==>
      RowsOf(neighbors) == intercept(FirstGroups(query(IdsOf(nodes)).rows))
    ensures outcome == Done <==>
      && query(IdsOf(nodes)).Joined?
      && var rows := query(IdsOf(nodes)).rows; Expected(rows, nodes, intercept(FirstGroups(rows)))
    ensures outcome == Done ==>
      Loaded(query(IdsOf(nodes)).rows, nodes, neighbors, map n | n in nodes :: old(n.many))
  {
    ghost var before := map n | n in nodes :: n.many;
    var edgeIDs, byID := LoadMany.Index(Groups, nodes);
    neighbors := [];
    var answer := query(edgeIDs);
    if answer.JoinFailed? { return QueryFailed, []; }
    var nids, groups := Scan(answer.rows, byID);
    neighbors := Materialize(intercept(groups), {});
    ScannedWithin(answer.rows, nodes, byID, nids);
    ghost var reset := map n | n in nodes :: n.many;
    NothingHanded(nids, nodes, reset);
    outcome := Distribute(nodes, nids, neighbors, reset);
    HandedIff(answer.rows, nodes, byID, nids, neighbors);
    if outcome == Done {
      Conclude(answer.rows, nodes, byID, nids, neighbors, before, reset);
    }
  }

  function ById(byID: map<int, Node>, a: int): Node? {
    if a in byID then byID[a] else null
  }

  /** The spec.Assign hook: group ids to the accounts they were seen with. */
  method Scan(rows: seq<JoinRow>, byID: map<int, Node>)
    returns (nids: map<int, set<Node?>>, groups: seq<Row>)
    ensures groups == FirstGroups(rows)
    ensures Scanned(rows, byID, nids)
  {
    nids, groups := map[], [];
    for i := 0 to |rows|
      invariant groups == FirstGroups(rows[..i])
      invariant Scanned(rows[..i], byID, nids)
    {
      TakeNext(rows, i);
      var outValue, inValue := rows[i].account, rows[i].group.id;
      ScanStep(rows[..i], rows[i], byID, nids);
      if inValue !in nids {
        nids := nids[inValue := {ById(byID, outValue)}];
        groups := groups + [rows[i].group];
      } else {
        nids := nids[inValue := nids[inValue] + {ById(byID, outValue)}];
      }
    }
    TakeAll(rows);
  }

  function Accounts(rows: seq<JoinRow>, byID: map<int, Node>, g: int): set<Node?> {
    set r | r in rows && r.group.id == g :: ById(byID, r.account)
  }

  ghost predicate Scanned(rows: seq<JoinRow>, byID: map<int, Node>, nids: map<int, set<Node?>>) {
    && (forall g :: g in nids <==> HasGroup(rows, g))
    && (forall g :: g in nids ==> nids[g] == Accounts(rows, byID, g))
  }

  lemma ScanStep(rows: seq<JoinRow>, r: JoinRow, byID: map<int, Node>, nids: map<int, set<Node?>>)
    requires Scanned(rows, byID, nids)
    ensures var g := r.group.id;
      var seen := if g in nids then nids[g] else {};
      Scanned(rows + [r], byID, nids[g := seen + {ById(byID, r.account)}])
  {
    var all, g := rows + [r], r.group.id;
    assert r in all;
    forall h ensures HasGroup(all, h) <==> h == g || HasGroup(rows, h) {
      assert forall s :: s in all <==> s in rows || s == r;
    }
    forall h | h != g ensures Accounts(all, byID, h) == Accounts(rows, byID, h) {
      assert forall s :: s in all <==> s in rows || s == r;
    }
    assert Accounts(all, byID, g) == Accounts(rows, byID, g) + {ById(byID, r.account)} by {
      assert forall s :: s in all <==> s in rows || s == r;
    }
    assert g !in nids ==> Accounts(rows, byID, g) == {};
  }

  /** Every account the map keeps holds the neighbours it was seen with. */
  ghost predicate Handed(nids: map<int, set<Node?>>, nodes: seq<Node>, neighbors: seq<Node>,
                         before: map<Node, map<Edge, seq<Node>>>)
    reads nodes`many
  {
    forall n :: n in nodes ==>
      n in before && n.many == before[n][Groups := SeenWith(nids, neighbors, n)]
  }

  lemma NothingHanded(nids: map<int, set<Node?>>, nodes: seq<Node>, reset: map<Node, map<Edge, seq<Node>>>)
    requires forall n :: n in nodes ==> n in reset && reset[n] == n.many && Groups in n.many && n.many[Groups] == []
    ensures Handed(nids, nodes, [], reset)
  {
  }

  ghost function SeenWith(nids: map<int, set<Node?>>, neighbors: seq<Node>, n: Node): seq<Node> {
    if neighbors == [] then [] else
      var init := SeenWith(nids, neighbors[..|neighbors| - 1], n);
      var m := neighbors[|neighbors| - 1];
      if m.row.id in nids && n in nids[m.row.id] then init + [m] else init
  }

  ghost predicate CanHand(nids: map<int, set<Node?>>, m: Node) {
    m.row.id in nids && null !in nids[m.row.id]
  }

  ghost predicate AllHanded(nids: map<int, set<Node?>>, neighbors: seq<Node>) {
    forall m :: m in neighbors ==> CanHand(nids, m)
  }

  ghost predicate Within(nids: map<int, set<Node?>>, nodes: seq<Node>) {
    forall g, n :: g in nids && n in nids[g] && n != null ==> n in nodes
  }

  /** The second loop over the neighbours. */
  method Distribute(nodes: seq<Node>, nids: map<int, set<Node?>>, neighbors: seq<Node>,
                    ghost before: map<Node, map<Edge, seq<Node>>>) returns (outcome: Outcome)
    requires Within(nids, nodes) && Handed(nids, nodes, [], before)
    modifies nodes`many
    ensures outcome == Done <==> AllHanded(nids, neighbors)
    ensures outcome == Done ==> Handed(nids, nodes, neighbors, before)
  {
    for j := 0 to |neighbors|
      invariant AllHanded(nids, neighbors[..j])
      invariant Handed(nids, nodes, neighbors[..j], before)
    {
      var m := neighbors[j];
      TakeNext(neighbors, j);
      if m.row.id !in nids {
        assert !CanHand(nids, m) && m in neighbors;
        return UnexpectedNode(m.row.id);
      }
      outcome := AssignAll(nids, m, nodes, neighbors[..j], before);
      if outcome != Done {
        assert !CanHand(nids, m) && m in neighbors;
        return;
      }
    }
    TakeAll(neighbors);
    return Done;
  }

  /** The inner loop over the accounts of one group, in any order. */
  method AssignAll(nids: map<int, set<Node?>>, m: Node, ghost nodes: seq<Node>,
                   ghost earlier: seq<Node>, ghost before: map<Node, map<Edge, seq<Node>>>)
    returns (outcome: Outcome)
    requires m.row.id in nids && Within(nids, nodes) && Handed(nids, nodes, earlier, before)
    modifies nodes`many
    ensures outcome == Done <==> CanHand(nids, m)
    ensures outcome == Done ==> Handed(nids, nodes, earlier + [m], before)
  {
    var todo := nids[m.row.id];
    while todo != {}
      invariant todo <= nids[m.row.id]
      invariant null in nids[m.row.id] ==> null in todo
      invariant forall n :: n in nodes ==>
        n.many == before[n][Groups := if n in nids[m.row.id] && n !in todo then SeenWith(nids, earlier, n) + [m]
                                      else SeenWith(nids, earlier, n)]
      decreases todo
    {
      var kn :| kn in todo;
      if kn == null { return NilPointer; }
      assert kn in nodes;
      kn.many := kn.many[Groups := kn.many[Groups] + [m]];
      todo := todo - {kn};
    }
    assert (earlier + [m])[..|earlier|] == earlier;
    return Done;
  }

  lemma HandedIff(rows: seq<JoinRow>, nodes: seq<Node>, byID: map<int, Node>,
                  nids: map<int, set<Node?>>, neighbors: seq<Node>)
    requires LoadMany.Indexed(nodes, byID) && Scanned(rows, byID, nids)
    ensures Expected(rows, nodes, RowsOf(neighbors)) <==> AllHanded(nids, neighbors)
  {
    forall a ensures a in byID <==> a in IdsOf(nodes) {
      KeysAreIds(nodes, byID, a);
    }
    RowsAndNodes(neighbors);
    forall m | m in neighbors && m.row.id in nids
      ensures null in nids[m.row.id] <==> exists r :: r in rows && r.group.id == m.row.id && r.account !in byID
    {
    }
  }

  lemma KeysAreIds(nodes: seq<Node>, byID: map<int, Node>, a: int)
    requires LoadMany.Indexed(nodes, byID)
    ensures a in byID <==> a in IdsOf(nodes)
  {
    if a in byID {
      var i := LoadMany.OwnerOfKey(nodes, byID, a);
      assert IdsOf(nodes)[i] == a;
    }
    if a in IdsOf(nodes) {
      var i :| 0 <= i < |nodes| && nodes[i].row.id == a;
      assert nodes[i] in nodes;
      var j := LoadMany.LastWith(nodes, a);
    }
  }

  lemma Conclude(rows: seq<JoinRow>, nodes: seq<Node>, byID: map<int, Node>, nids: map<int, set<Node?>>,
                 neighbors: seq<Node>, before: map<Node, map<Edge, seq<Node>>>, reset: map<Node, map<Edge, seq<Node>>>)
    requires Distinct(nodes) && LoadMany.Indexed(nodes, byID) && Scanned(rows, byID, nids)
    requires forall n :: n in nodes ==> n in before && n in reset && reset[n] == before[n][Groups := []]
    requires Handed(nids, nodes, neighbors, reset)
    ensures Loaded(rows, nodes, neighbors, before)
  {
    forall i | 0 <= i < |nodes| ensures SeenWith(nids, neighbors, nodes[i]) == Attached(rows, nodes, neighbors, i) {
      SeenIsAttached(rows, nodes, byID, nids, neighbors, i);
    }
  }

  lemma SeenIsAttached(rows: seq<JoinRow>, nodes: seq<Node>, byID: map<int, Node>, nids: map<int, set<Node?>>,
                       neighbors: seq<Node>, i: int)
    requires Distinct(nodes) && LoadMany.Indexed(nodes, byID) && Scanned(rows, byID, nids) && 0 <= i < |nodes|
    ensures SeenWith(nids, neighbors, nodes[i]) == Attached(rows, nodes, neighbors, i)
  {
    LoadMany.KeepsIffOwner(nodes, byID, i);
    LoadMany.IndexedKeys(nodes, byID);
    SeenIsJoined(rows, byID, nids, neighbors, nodes[i]);
  }

  lemma ScannedWithin(rows: seq<JoinRow>, nodes: seq<Node>, byID: map<int, Node>, nids: map<int, set<Node?>>)
    requires LoadMany.Indexed(nodes, byID) && Scanned(rows, byID, nids)
    ensures Within(nids, nodes)
  {
    LoadMany.IndexedKeys(nodes, byID);
  }

  lemma {:induction false} SeenIsJoined(rows: seq<JoinRow>, byID: map<int, Node>, nids: map<int, set<Node?>>,
                                        neighbors: seq<Node>, n: Node)
    requires Scanned(rows, byID, nids)
    requires forall k :: k in byID ==> byID[k].row.id == k
    ensures SeenWith(nids, neighbors, n) ==
      if LoadMany.Keeps(byID, n) then GroupsOf(rows, neighbors, n.row.id) else []
  {
    if neighbors != [] {
      SeenIsJoined(rows, byID, nids, neighbors[..|neighbors| - 1], n);
      var g := neighbors[|neighbors| - 1].row.id;
      assert (g in nids && n in nids[g]) <==> LoadMany.Keeps(byID, n) && HasRow(rows, n.row.id, g);
    }
  }
}
