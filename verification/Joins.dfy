/** What the eager-loaded edges mean: each load agrees with the plain relational reading of the
    tables. These lemmas are about the lists that the Load methods are proved to build. */
module Joins {
  import opened Options
  import opened Graph
  import LoadOne
  import LoadMany
  import LoadGroups

  // ---- many-to-many ----

  /** Position of the first row with group g. */
  function FirstAt(rows: seq<LoadGroups.JoinRow>, g: int): (i: nat)
    requires LoadGroups.HasGroup(rows, g)
    ensures i < |rows| && rows[i].group.id == g
    ensures forall j :: 0 <= j < i ==> rows[j].group.id != g
  {
    var init := rows[..|rows| - 1];
    if LoadGroups.HasGroup(init, g) then FirstAt(init, g)
    else
      assert forall j :: 0 <= j < |init| ==> rows[j] in init;
      |init|
  }

  /** Strictly increasing in the position of the groups' first rows: in particular no group twice. */
  ghost predicate InFirstRowOrder(rows: seq<LoadGroups.JoinRow>, groups: seq<Row>) {
    && (forall i :: 0 <= i < |groups| ==>
          LoadGroups.HasGroup(rows, groups[i].id) && groups[i] == rows[FirstAt(rows, groups[i].id)].group)
    && (forall i, j :: 0 <= i < j < |groups| ==> FirstAt(rows, groups[i].id) < FirstAt(rows, groups[j].id))
  }

  lemma FirstAtGrows(rows: seq<LoadGroups.JoinRow>, r: LoadGroups.JoinRow, g: int)
    requires LoadGroups.HasGroup(rows, g)
    ensures LoadGroups.HasGroup(rows + [r], g) && FirstAt(rows + [r], g) == FirstAt(rows, g)
  {
    var all := rows + [r];
    var s :| s in rows && s.group.id == g;
    assert s in all;
    assert forall j :: 0 <= j < |rows| ==> all[j] == rows[j];
    var i, j := FirstAt(all, g), FirstAt(rows, g);
    assert all[j].group.id == g;
    assert i >= |rows| || rows[i].group.id == g;
  }

  lemma OrderGrows(rows: seq<LoadGroups.JoinRow>, r: LoadGroups.JoinRow, groups: seq<Row>)
    requires InFirstRowOrder(rows, groups)
    ensures InFirstRowOrder(rows + [r], groups)
  {
    forall i | 0 <= i < |groups|
      ensures LoadGroups.HasGroup(rows + [r], groups[i].id)
      ensures FirstAt(rows + [r], groups[i].id) == FirstAt(rows, groups[i].id)
    {
      FirstAtGrows(rows, r, groups[i].id);
    }
  }

  lemma OrderAppends(rows: seq<LoadGroups.JoinRow>, groups: seq<Row>, x: Row)
    requires InFirstRowOrder(rows, groups)
    requires LoadGroups.HasGroup(rows, x.id) && x == rows[FirstAt(rows, x.id)].group
    requires forall y :: y in groups ==> FirstAt(rows, y.id) < FirstAt(rows, x.id)
    ensures InFirstRowOrder(rows, groups + [x])
  {
  }

  lemma {:induction false} FirstGroupsOrdered(rows: seq<LoadGroups.JoinRow>)
    ensures InFirstRowOrder(rows, LoadGroups.FirstGroups(rows))
  {
    if rows != [] {
      var init, last := rows[..|rows| - 1], rows[|rows| - 1];
      assert rows == init + [last];
      FirstGroupsOrdered(init);
      OrderGrows(init, last, LoadGroups.FirstGroups(init));
      if !LoadGroups.HasGroup(init, last.group.id) {
        assert last in rows;
        assert FirstAt(rows, last.group.id) == |init|;
        forall x | x in LoadGroups.FirstGroups(init) ensures FirstAt(rows, x.id) < |init| {
          FirstAtGrows(init, last, x.id);
        }
        OrderAppends(rows, LoadGroups.FirstGroups(init), last.group);
      }
    }
  }

  lemma {:induction false} FirstGroupsCover(rows: seq<LoadGroups.JoinRow>, g: int)
    requires LoadGroups.HasGroup(rows, g)
    ensures exists x :: x in LoadGroups.FirstGroups(rows) && x.id == g
  {
    var init, last := rows[..|rows| - 1], rows[|rows| - 1];
    if LoadGroups.HasGroup(init, g) {
      FirstGroupsCover(init, g);
      var x :| x in LoadGroups.FirstGroups(init) && x.id == g;
      assert x in LoadGroups.FirstGroups(rows);
    } else {
      assert last.group in LoadGroups.FirstGroups(rows);
    }
  }

  /** GroupsOf keeps exactly the neighbours with a row for account a. */
  lemma {:induction false} GroupsOfFilters(rows: seq<LoadGroups.JoinRow>, neighbors: seq<Node>, a: int)
    ensures forall n :: n in LoadGroups.GroupsOf(rows, neighbors, a) ==>
      n in neighbors && LoadGroups.HasRow(rows, a, n.row.id)
    ensures forall n :: n in neighbors && LoadGroups.HasRow(rows, a, n.row.id) ==>
      n in LoadGroups.GroupsOf(rows, neighbors, a)
  {
    if neighbors != [] {
      GroupsOfFilters(rows, neighbors[..|neighbors| - 1], a);
    }
  }

  /** The same order, on the nodes that carry the group rows. */
  ghost predicate NodesInOrder(rows: seq<LoadGroups.JoinRow>, nodes: seq<Node>) {
    && (forall n :: n in nodes ==>
          LoadGroups.HasGroup(rows, n.row.id) && n.row == rows[FirstAt(rows, n.row.id)].group)
    && (forall i, j :: 0 <= i < j < |nodes| ==> FirstAt(rows, nodes[i].row.id) < FirstAt(rows, nodes[j].row.id))
  }

  lemma {:induction false} GroupsOfKeepsOrder(rows: seq<LoadGroups.JoinRow>, neighbors: seq<Node>, a: int)
    requires NodesInOrder(rows, neighbors)
    ensures NodesInOrder(rows, LoadGroups.GroupsOf(rows, neighbors, a))
  {
    if neighbors != [] {
      var init, last := neighbors[..|neighbors| - 1], neighbors[|neighbors| - 1];
      GroupsOfKeepsOrder(rows, init, a);
      GroupsOfFilters(rows, init, a);
      var kept := LoadGroups.GroupsOf(rows, init, a);
      forall i | 0 <= i < |kept| ensures FirstAt(rows, kept[i].row.id) < FirstAt(rows, last.row.id) {
        assert kept[i] in init;
      }
    }
  }

  /** Many-to-many loading is the join: an account's groups are exactly those it has a row with,
      each once, in the order of the groups' first rows. */
  lemma ManyToManyIsJoin(rows: seq<LoadGroups.JoinRow>, neighbors: seq<Node>, a: int)
    requires RowsOf(neighbors) == LoadGroups.FirstGroups(rows)
    ensures var list := LoadGroups.GroupsOf(rows, neighbors, a);
      && (forall g :: LoadGroups.HasRow(rows, a, g) <==> exists n :: n in list && n.row.id == g)
      && NodesInOrder(rows, list)
      && (forall i, j :: 0 <= i < j < |list| ==> list[i].row.id != list[j].row.id)
  {
    FirstGroupsOrdered(rows);
    GroupsOfFilters(rows, neighbors, a);
    GroupsOfKeepsOrder(rows, neighbors, a);
    var list := LoadGroups.GroupsOf(rows, neighbors, a);
    forall g ensures LoadGroups.HasRow(rows, a, g) <==> exists n :: n in list && n.row.id == g {
      if LoadGroups.HasRow(rows, a, g) {
        assert LoadGroups.HasGroup(rows, g);
        FirstGroupsCover(rows, g);
        var x :| x in RowsOf(neighbors) && x.id == g;
        var j :| 0 <= j < |neighbors| && neighbors[j].row == x;
        assert neighbors[j] in list;
      }
    }
  }

  /** When the joined query honours its IN predicate and nothing rewrites the neighbours, no
      error branch is reachable and no nil account is dereferenced. */
  lemma JoinNeverFails(rows: seq<LoadGroups.JoinRow>, nodes: seq<Node>)
    requires forall r :: r in rows ==> r.account in IdsOf(nodes)
    ensures LoadGroups.Expected(rows, nodes, LoadGroups.FirstGroups(rows))
  {
    FirstGroupsOrdered(rows);
  }

  // ---- one-to-many ----

  lemma {:induction false} MatchingFilters(e: Edge, neighbors: seq<Node>, k: int)
    ensures forall n :: n in LoadMany.Matching(e, neighbors, k) ==> n in neighbors && ForeignKey(e, n.row) == Key(k)
    ensures forall n :: n in neighbors && ForeignKey(e, n.row) == Key(k) ==> n in LoadMany.Matching(e, neighbors, k)
  {
    if neighbors != [] {
      MatchingFilters(e, neighbors[..|neighbors| - 1], k);
    }
  }

  /** Query order is kept: the list is the neighbours at strictly increasing positions. */
  lemma {:induction false} MatchingKeepsOrder(e: Edge, neighbors: seq<Node>, k: int) returns (at: seq<nat>)
    ensures |at| == |LoadMany.Matching(e, neighbors, k)|
    ensures forall i, j :: 0 <= i < j < |at| ==> at[i] < at[j]
    ensures forall i :: 0 <= i < |at| ==>
      at[i] < |neighbors| && LoadMany.Matching(e, neighbors, k)[i] == neighbors[at[i]]
  {
    at := [];
    if neighbors != [] {
      var init, last := neighbors[..|neighbors| - 1], neighbors[|neighbors| - 1];
      at := MatchingKeepsOrder(e, init, k);
      var kept := LoadMany.Matching(e, init, k);
      if ForeignKey(e, last.row) == Key(k) {
        assert LoadMany.Matching(e, neighbors, k) == kept + [last];
        at := at + [|neighbors| - 1];
      } else {
        assert LoadMany.Matching(e, neighbors, k) == kept;
      }
    }
  }

  ghost function Lists(e: Edge, nodes: seq<Node>, neighbors: seq<Node>): (lists: seq<seq<Node>>)
    ensures |lists| == |nodes|
    ensures forall i :: 0 <= i < |nodes| ==> lists[i] == LoadMany.Attached(e, nodes, neighbors, i)
  {
    seq(|nodes|, i requires 0 <= i < |nodes| => LoadMany.Attached(e, nodes, neighbors, i))
  }

  /** All the lists thrown together. */
  ghost function Tally<T>(lists: seq<seq<T>>): multiset<T> {
    if lists == [] then multiset{} else multiset(lists[0]) + Tally(lists[1..])
  }

  lemma {:induction false} TallyGrows<T>(lists: seq<seq<T>>, o: nat, m: T)
    requires o < |lists|
    ensures Tally(lists[o := lists[o] + [m]]) == Tally(lists) + multiset{m}
  {
    var grown := lists[o := lists[o] + [m]];
    if o == 0 {
      assert grown[1..] == lists[1..];
    } else {
      TallyGrows(lists[1..], o - 1, m);
      assert grown[1..] == lists[1..][o - 1 := lists[o] + [m]];
    }
  }

  lemma {:induction false} TallyEmpty<T>(lists: seq<seq<T>>)
    requires forall i :: 0 <= i < |lists| ==> lists[i] == []
    ensures Tally(lists) == multiset{}
  {
    if lists != [] {
      TallyEmpty(lists[1..]);
    }
  }

  /** A further neighbour lengthens one list, that of the owner of its key. */
  lemma ListsGrow(e: Edge, nodes: seq<Node>, neighbors: seq<Node>, m: Node, owner: int)
    requires LoadMany.IsOwner(nodes, owner) && ForeignKey(e, m.row) == Key(nodes[owner].row.id)
    ensures var lists := Lists(e, nodes, neighbors);
      Lists(e, nodes, neighbors + [m]) == lists[owner := lists[owner] + [m]]
  {
    assert (neighbors + [m])[..|neighbors|] == neighbors;
  }

  /** One-to-many loading partitions the neighbours: each is in exactly one list, once, so the
      list lengths add up to the number of neighbours. */
  lemma {:induction false} ListsPartition(e: Edge, nodes: seq<Node>, neighbors: seq<Node>)
    requires forall m :: m in neighbors ==> LoadMany.Referenced(e, nodes, m.row)
    ensures Tally(Lists(e, nodes, neighbors)) == multiset(neighbors)
    ensures |Tally(Lists(e, nodes, neighbors))| == |neighbors|
  {
    if neighbors == [] {
      TallyEmpty(Lists(e, nodes, []));
    } else {
      var init, last := neighbors[..|neighbors| - 1], neighbors[|neighbors| - 1];
      assert neighbors == init + [last];
      ListsPartition(e, nodes, init);
      assert LoadMany.Referenced(e, nodes, last.row);
      var owner := LoadMany.LastWith(nodes, ForeignKey(e, last.row).id);
      ListsGrow(e, nodes, init, last, owner);
      TallyGrows(Lists(e, nodes, init), owner, last);
    }
  }

  /** A duplicated id: the last object gets the whole list, the earlier ones stay empty. */
  lemma DuplicateIds(e: Edge, nodes: seq<Node>, neighbors: seq<Node>, i: int, j: int)
    requires 0 <= i < j < |nodes| && nodes[i].row.id == nodes[j].row.id && LoadMany.IsOwner(nodes, j)
    ensures LoadMany.Attached(e, nodes, neighbors, i) == []
    ensures forall m :: m in neighbors && ForeignKey(e, m.row) == Key(nodes[i].row.id) ==>
      m in LoadMany.Attached(e, nodes, neighbors, j)
  {
    MatchingFilters(e, neighbors, nodes[j].row.id);
  }

  // ---- tables ----

  ghost predicate UniqueIds(table: seq<Row>) {
    forall i, j :: 0 <= i < j < |table| ==> table[i].id != table[j].id
  }

  predicate HasCell(r: Row, c: Column, v: int) {
    c in r.cells && r.cells[c] == v
  }

  /** The answer to "id IN ids" over a table, in any order. */
  ghost predicate AnswersById(table: seq<Row>, ids: seq<int>, rows: seq<Row>) {
    forall r :: r in rows <==> r in table && r.id in ids
  }

  /** The answer to "c IN ids" over a table, in any order. */
  ghost predicate AnswersByCell(c: Column, table: seq<Row>, ids: seq<int>, rows: seq<Row>) {
    forall r :: r in rows <==> r in table && c in r.cells && r.cells[c] in ids
  }

  /** The rows of a table whose ids occur in column c of the nodes, in any order. */
  ghost predicate AnswersReferenced(c: Column, table: seq<Row>, nodes: seq<Node>, rows: seq<Row>) {
    forall r :: r in rows <==> r in table && exists n :: n in nodes && HasCell(n.row, c, r.id)
  }

  /** The schema: the column in which the row that holds the foreign key of an edge has it. */
  predicate HeldIn(e: Edge, c: Column) {
    match e
    case Groups => false
    case Proxy => c == ProxyId
    case Parent => c == ParentAccountId
    case Children => c == ParentAccountId
    case UsageLogs => c == AccountId
    case AccountGroups => c == AccountId
    case Account => c == AccountId
    case Group => c == GroupId
  }

  /** account_id and group_id are never NULL; proxy_id and parent_account_id may be. */
  ghost predicate NotNull(e: Edge, c: Column, rows: seq<Row>) {
    e == Account || e == Group ==> forall r :: r in rows ==> c in r.cells
  }

  lemma KeyIsCell(e: Edge, c: Column, r: Row, v: int)
    requires HeldIn(e, c) && (c in r.cells || e == Proxy || e == Parent || e == Children)
    ensures ForeignKey(e, r) == Key(v) <==> HasCell(r, c, v)
  {
  }

  /** Many-to-one loading is a lookup: a node gets the row its key references, or nothing. */
  lemma ManyToOneIsLookup(e: Edge, c: Column, table: seq<Row>, nodes: seq<Node>, neighbors: seq<Node>, n: Node)
    requires e in ONE_EDGES && HeldIn(e, c) && NotNull(e, c, RowsOf(nodes)) && UniqueIds(table) && n in nodes
    requires AnswersReferenced(c, table, nodes, RowsOf(neighbors))
    ensures var got := LoadOne.Attached(e, neighbors, n.row);
      && (got.Some? ==> got.value.row in table && HasCell(n.row, c, got.value.row.id))
      && (got.None? <==> forall r :: r in table ==> !HasCell(n.row, c, r.id))
      && (forall r :: r in table && HasCell(n.row, c, r.id) ==> got.Some? && got.value.row == r)
  {
    RowsAndNodes(nodes);
    forall v ensures ForeignKey(e, n.row) == Key(v) <==> HasCell(n.row, c, v) {
      KeyIsCell(e, c, n.row, v);
    }
    LoadOne.LastMatchExact(neighbors, ForeignKey(e, n.row));
    RowsAndNodes(neighbors);
    var got := LoadOne.Attached(e, neighbors, n.row);
    if got.Some? {
      assert got.value.row in RowsOf(neighbors);
      assert HasCell(n.row, c, got.value.row.id);
    }
    forall r | r in table && HasCell(n.row, c, r.id) ensures got.Some? && got.value.row.id == r.id {
      assert r in RowsOf(neighbors);
      var m :| m in neighbors && m.row == r;
    }
    UniqueRows(table);
  }

  lemma UniqueRows(table: seq<Row>)
    requires UniqueIds(table)
    ensures forall r, q :: r in table && q in table && r.id == q.id ==> r == q
  {
  }

  /** The ids sent are the ids that column c of the nodes holds: an edge query over them answers with the
      rows they reference. */
  lemma SentAreReferenced(e: Edge, c: Column, table: seq<Row>, nodes: seq<Node>, rows: seq<Row>)
    requires e in ONE_EDGES && HeldIn(e, c) && NotNull(e, c, RowsOf(nodes))
    requires AnswersById(table, LoadOne.SentIds(e, nodes), rows)
    ensures AnswersReferenced(c, table, nodes, rows)
  {
    LoadOne.SentIdsExact(e, nodes);
    RowsAndNodes(nodes);
    forall n, v | n in nodes ensures ForeignKey(e, n.row) == Key(v) <==> HasCell(n.row, c, v) {
      KeyIsCell(e, c, n.row, v);
    }
  }

  /** With an honest edge query the foreign-key error branches of one-to-many loading are dead. */
  lemma OwnedNeverFails(e: Edge, c: Column, table: seq<Row>, nodes: seq<Node>, rows: seq<Row>)
    requires e in OWNED_EDGES && HeldIn(e, c) && AnswersByCell(c, table, IdsOf(nodes), rows)
    ensures LoadMany.Expected(e, nodes, Rows(rows))
  {
    forall r | r in rows ensures LoadMany.Referenced(e, nodes, r) {
      var i :| 0 <= i < |nodes| && IdsOf(nodes)[i] == r.cells[c];
      assert nodes[i] in nodes;
      KeyIsCell(e, c, r, r.cells[c]);
    }
  }

  /** Parent and children are inverse: c is in the children list that node i holds exactly when loading the
      parent of c attaches that node's row, and i is the last node with its id; and then c's
      parent_account_id is the node's id. */
  lemma ParentInvertsChildren(table: seq<Row>, nodes: seq<Node>, i: int, c: Node, children: seq<Node>, parents: seq<Node>)
    requires UniqueIds(table) && 0 <= i < |nodes| && nodes[i].row in table && c in nodes && c.row in table
    requires AnswersByCell(ParentAccountId, table, IdsOf(nodes), RowsOf(children))
    requires AnswersReferenced(ParentAccountId, table, nodes, RowsOf(parents))
    ensures (exists m :: m in LoadMany.Attached(Children, nodes, children, i) && m.row == c.row) <==>
      LoadMany.IsOwner(nodes, i) && exists m :: Some(m) == LoadOne.Attached(Parent, parents, c.row) && m.row == nodes[i].row
    ensures (exists m :: m in LoadMany.Attached(Children, nodes, children, i) && m.row == c.row) <==>
      LoadMany.IsOwner(nodes, i) && HasCell(c.row, ParentAccountId, nodes[i].row.id)
  {
    var p := nodes[i];
    ManyToOneIsLookup(Parent, ParentAccountId, table, nodes, parents, c);
    MatchingFilters(Children, children, p.row.id);
    LoadOne.LastMatchExact(parents, ForeignKey(Parent, c.row));
    KeyIsCell(Children, ParentAccountId, c.row, p.row.id);
    if HasCell(c.row, ParentAccountId, p.row.id) {
      assert IdsOf(nodes)[i] == p.row.id;
      assert c.row in RowsOf(children);
      var j :| 0 <= j < |children| && RowsOf(children)[j] == c.row;
      assert children[j] in LoadMany.Matching(Children, children, p.row.id);
    }
  }

  // ---- two routes from account to group ----

  predicate Links(link: Row, a: int, g: int) {
    HasCell(link, AccountId, a) && HasCell(link, GroupId, g)
  }

  /** The answer to groups JOIN account_groups ON group_id WHERE account_id IN ids, in any order. */
  ghost predicate AnswersJoin(groups: seq<Row>, links: seq<Row>, ids: seq<int>, rows: seq<LoadGroups.JoinRow>) {
    forall r :: r in rows <==>
      && r.account in ids && r.group in groups
      && exists link :: link in links && Links(link, r.account, r.group.id)
  }

  /** The tables and answers of the two routes: accounts to groups directly, and to links and then groups. */
  ghost predicate TwoRoutes(groups: seq<Row>, links: seq<Row>, ids: seq<int>, rows: seq<LoadGroups.JoinRow>,
                            through: seq<Node>, second: seq<Node>) {
    && UniqueIds(groups) && (forall link :: link in links ==> GroupId in link.cells)
    && AnswersJoin(groups, links, ids, rows)
    && AnswersByCell(AccountId, links, ids, RowsOf(through))
    && AnswersReferenced(GroupId, groups, through, RowsOf(second))
  }

  /** Over the same tables, the groups that node i holds after WithGroups have the same ids as the groups
      it reaches through the list it holds after WithAccountGroups and the join entities' own Group edge. */
  lemma TwoRoutesAgree(groups: seq<Row>, links: seq<Row>, nodes: seq<Node>, i: int, g: int,
                       rows: seq<LoadGroups.JoinRow>, direct: seq<Node>, through: seq<Node>, second: seq<Node>)
    requires 0 <= i < |nodes| && TwoRoutes(groups, links, IdsOf(nodes), rows, through, second)
    requires RowsOf(direct) == LoadGroups.FirstGroups(rows)
    ensures (exists n :: n in LoadGroups.Attached(rows, nodes, direct, i) && n.row.id == g) <==>
      (exists l :: l in LoadMany.Attached(AccountGroups, nodes, through, i) && Reached(second, l, g))
  {
    var a := nodes[i].row.id;
    assert IdsOf(nodes)[i] == a;
    ManyToManyIsJoin(rows, direct, a);
    RowIffReached(groups, links, IdsOf(nodes), a, g, rows, through, second);
  }

  /** The Group edge of the join entity holds the group g. */
  predicate Reached(second: seq<Node>, link: Node, g: int) {
    var got := LoadOne.Attached(Group, second, link.row);
    got.Some? && got.value.row.id == g
  }

  lemma RowIffReached(groups: seq<Row>, links: seq<Row>, ids: seq<int>, a: int, g: int,
                      rows: seq<LoadGroups.JoinRow>, through: seq<Node>, second: seq<Node>)
    requires a in ids && TwoRoutes(groups, links, ids, rows, through, second)
    ensures LoadGroups.HasRow(rows, a, g) <==>
      (exists l :: l in LoadMany.Matching(AccountGroups, through, a) && Reached(second, l, g))
  {
    if LoadGroups.HasRow(rows, a, g) {
      var r :| r in rows && r.account == a && r.group.id == g;
      var link :| link in links && Links(link, a, g);
      var l := JoinedIsReached(groups, links, ids, rows, a, r.group, link, through, second);
    }
    if l :| l in LoadMany.Matching(AccountGroups, through, a) && Reached(second, l, g) {
      var r := ReachedIsJoined(groups, links, ids, rows, a, g, l, through, second);
      assert LoadGroups.JoinRow(a, r) in rows;
    }
  }

  lemma LinksHaveGroups(groups: seq<Row>, links: seq<Row>, ids: seq<int>, rows: seq<LoadGroups.JoinRow>,
                        through: seq<Node>, second: seq<Node>)
    requires TwoRoutes(groups, links, ids, rows, through, second)
    ensures NotNull(Group, GroupId, RowsOf(through))
    ensures forall l :: l in through ==> l.row in links && AccountId in l.row.cells
  {
    RowsAndNodes(through);
  }

  lemma JoinedIsReached(groups: seq<Row>, links: seq<Row>, ids: seq<int>, rows: seq<LoadGroups.JoinRow>, a: int, r: Row, link: Row,
                        through: seq<Node>, second: seq<Node>) returns (l: Node)
    requires a in ids && r in groups && link in links && Links(link, a, r.id)
    requires TwoRoutes(groups, links, ids, rows, through, second)
    ensures l in LoadMany.Matching(AccountGroups, through, a) && Reached(second, l, r.id)
  {
    LinksHaveGroups(groups, links, ids, rows, through, second);
    assert link in RowsOf(through);
    var j :| 0 <= j < |through| && RowsOf(through)[j] == link;
    l := through[j];
    KeyIsCell(AccountGroups, AccountId, link, a);
    MatchingFilters(AccountGroups, through, a);
    ManyToOneIsLookup(Group, GroupId, groups, through, second, l);
  }

  lemma ReachedIsJoined(groups: seq<Row>, links: seq<Row>, ids: seq<int>, rows: seq<LoadGroups.JoinRow>, a: int, g: int, l: Node,
                        through: seq<Node>, second: seq<Node>) returns (r: Row)
    requires TwoRoutes(groups, links, ids, rows, through, second)
    requires l in LoadMany.Matching(AccountGroups, through, a) && Reached(second, l, g)
    ensures r in groups && r.id == g && exists link :: link in links && Links(link, a, g)
  {
    LinksHaveGroups(groups, links, ids, rows, through, second);
    MatchingFilters(AccountGroups, through, a);
    KeyIsCell(AccountGroups, AccountId, l.row, a);
    ManyToOneIsLookup(Group, GroupId, groups, through, second, l);
    r := LoadOne.Attached(Group, second, l.row).value.row;
    assert Links(l.row, a, g);
  }
}
