/** An account query over tables: what the accessors of the returned nodes hold is the relational reading
    of the tables. */
module Relational {
  import opened Options
  import opened Graph
  import opened Joins
  import opened SqlAll
  import LoadOne
  import LoadMany
  import LoadGroups

  datatype Tables = Tables(accounts: seq<Row>, groups: seq<Row>, proxies: seq<Row>, links: seq<Row>, logs: seq<Row>)

  /** The rows of the table whose column c is one of the ids, as often as the table has them, in any order. */
  ghost predicate SelectsByCell(c: Column, table: seq<Row>, ids: seq<int>, rows: seq<Row>) {
    forall r :: multiset(rows)[r] == if c in r.cells && r.cells[c] in ids then multiset(table)[r] else 0
  }

  ghost predicate AnswersLookup(table: seq<Row>, ids: seq<int>, a: Answer) {
    a.Rows? && AnswersById(table, ids, a.rows)
  }

  ghost predicate AnswersSelection(c: Column, table: seq<Row>, ids: seq<int>, a: Answer) {
    a.Rows? && SelectsByCell(c, table, ids, a.rows)
  }

  /** Unfiltered edge queries over the tables, and no interceptor. */
  ghost predicate Serves(plan: Plan, t: Tables) {
    && (forall ids :: plan.join(ids).Joined? && AnswersJoin(t.groups, t.links, ids, plan.join(ids).rows))
    && (forall rows :: plan.intercept(rows) == rows)
    && (forall ids :: AnswersLookup(t.proxies, ids, plan.edge(Proxy, ids)))
    && (forall ids :: AnswersLookup(t.accounts, ids, plan.edge(Parent, ids)))
    && (forall ids :: AnswersSelection(ParentAccountId, t.accounts, ids, plan.edge(Children, ids)))
    && (forall ids :: AnswersSelection(AccountId, t.logs, ids, plan.edge(UsageLogs, ids)))
    && (forall ids :: AnswersSelection(AccountId, t.links, ids, plan.edge(AccountGroups, ids)))
  }

  /** A single-valued edge: the row that column c of the account references, or not found and there is none. */
  ghost predicate IsLookup(c: Column, table: seq<Row>, row: Row, got: Access<Node>) {
    match got
    case Found(m) => m.row in table && HasCell(row, c, m.row.id)
    case NotFound => forall r :: r in table ==> !HasCell(row, c, r.id)
    case NotLoaded => false
  }

  /** An owned list: the table's rows with the id in column c, as often as the table has them. */
  ghost predicate IsSelection(c: Column, table: seq<Row>, id: int, got: Access<seq<Node>>) {
    got.Found? && forall r :: multiset(RowsOf(got.value))[r] == if HasCell(r, c, id) then multiset(table)[r] else 0
  }

  /** The groups list: the groups linked to the account, each once. */
  ghost predicate IsJoin(t: Tables, id: int, got: Access<seq<Node>>) {
    && got.Found?
    && (forall n :: n in got.value ==> n.row in t.groups)
    && (forall i, j :: 0 <= i < j < |got.value| ==> got.value[i].row.id != got.value[j].row.id)
    && (forall x :: x in t.groups ==>
          ((exists n :: n in got.value && n.row.id == x.id) <==> exists link :: link in t.links && Links(link, id, x.id)))
  }

  /** The accessor of edge e reports the relational reading of the tables for the full row. */
  ghost predicate Relates(t: Tables, e: Edge, n: Node, row: Row)
    reads n
  {
    match e
    case Groups => IsJoin(t, row.id, ManyOrErr(n, Groups))
    case Proxy => IsLookup(ProxyId, t.proxies, row, OneOrErr(n, Proxy))
    case Parent => IsLookup(ParentAccountId, t.accounts, row, OneOrErr(n, Parent))
    case Children => IsSelection(ParentAccountId, t.accounts, row.id, ManyOrErr(n, Children))
    case UsageLogs => IsSelection(AccountId, t.logs, row.id, ManyOrErr(n, UsageLogs))
    case AccountGroups => IsSelection(AccountId, t.links, row.id, ManyOrErr(n, AccountGroups))
    case _ => true
  }

  /** sqlAll over tables: it succeeds, and for every selection and every set of requested edges each node
      holds the join, the lookup and the selections of its full row. */
  method RunOnTables(fields: seq<Column>, want: set<Edge>, root: seq<Row>, t: Tables, plan: Plan)
    returns (outcome: Outcome, nodes: seq<Node>)
    requires want <= ACCOUNT_EDGES && Serves(plan, t) && UniqueIds(root)
    ensures outcome == Done && |nodes| == |root|
    ensures forall i :: 0 <= i < |nodes| ==>
      Keeps(fields, root[i], nodes[i].row) && forall e :: e in want ==> Relates(t, e, nodes[i], root[i])
  {
    forall e | e in want ensures HonestTo(e, plan, root) {
      ServesHonestly(e, plan, t, root);
    }
    var found;
    outcome, nodes, found := Run(fields, want, Rows(root), plan);
    forall i, e | 0 <= i < |nodes| && e in want ensures Relates(t, e, nodes[i], root[i]) {
      TruthIsRelational(e, want, plan, t, nodes, found, i, root);
    }
  }

  /** What the schema and the tables say of an edge; Groups has neither key column nor table of its own. */
  ghost predicate Over(t: Tables, e: Edge, c: Column, table: seq<Row>) {
    match e
    case Proxy => c == ProxyId && table == t.proxies
    case Parent => c == ParentAccountId && table == t.accounts
    case Children => c == ParentAccountId && table == t.accounts
    case UsageLogs => c == AccountId && table == t.logs
    case AccountGroups => c == AccountId && table == t.links
    case _ => false
  }

  lemma TableFor(t: Tables, e: Edge) returns (c: Column, table: seq<Row>)
    requires e in ACCOUNT_EDGES && e != Groups
    ensures Over(t, e, c, table) && HeldIn(e, c)
  {
    c := if e == Proxy then ProxyId else if e == Parent || e == Children then ParentAccountId else AccountId;
    table := if e == Proxy then t.proxies else if e == Parent || e == Children then t.accounts
             else if e == UsageLogs then t.logs else t.links;
  }

  lemma OneServed(e: Edge, plan: Plan, t: Tables, c: Column, table: seq<Row>, ids: seq<int>)
    requires (e == Proxy || e == Parent) && Serves(plan, t) && Over(t, e, c, table)
    ensures AnswersLookup(table, ids, plan.edge(e, ids))
  {
  }

  lemma OwnedServed(e: Edge, plan: Plan, t: Tables, c: Column, table: seq<Row>, ids: seq<int>)
    requires e in OWNED_EDGES && Serves(plan, t) && Over(t, e, c, table)
    ensures AnswersSelection(c, table, ids, plan.edge(e, ids))
  {
  }

  lemma SelectedHaveKeys(e: Edge, c: Column, table: seq<Row>, ids: seq<int>, rows: seq<Row>)
    requires e in OWNED_EDGES && HeldIn(e, c) && SelectsByCell(c, table, ids, rows)
    ensures forall r :: r in rows ==> ForeignKey(e, r).Key? && ForeignKey(e, r).id in ids
  {
    forall r | r in rows ensures ForeignKey(e, r).Key? && ForeignKey(e, r).id in ids {
      assert multiset(rows)[r] > 0;
      KeyIsCell(e, c, r, r.cells[c]);
    }
  }

  lemma ServesHonestly(e: Edge, plan: Plan, t: Tables, rows: seq<Row>)
    requires e in ACCOUNT_EDGES && Serves(plan, t)
    ensures HonestTo(e, plan, rows)
  {
    if e == Groups {
      assert AnswersJoin(t.groups, t.links, Ids(rows), plan.join(Ids(rows)).rows);
      FirstGroupsOrdered(plan.join(Ids(rows)).rows);
    } else {
      var c, table := TableFor(t, e);
      if e == Proxy || e == Parent {
        OneServed(e, plan, t, c, table, Keys(e, rows));
      } else {
        OwnedServed(e, plan, t, c, table, Ids(rows));
        SelectedHaveKeys(e, c, table, Ids(rows), plan.edge(e, Ids(rows)).rows);
      }
    }
  }

  /** What one accessor reports, taken from the truth about all of them. */
  ghost predicate Reports(e: Edge, plan: Plan, nodes: seq<Node>, neighbors: seq<Node>, i: int, rows: seq<Row>)
    requires 0 <= i < |nodes| == |rows|
    reads nodes
  {
    && RowsOf(neighbors) == AnswerTo(e, plan, rows)
    && var slot := Filled(e, plan, nodes, neighbors, i, rows[i]);
       if e in ONE_EDGES then OneOrErr(nodes[i], e) == (if slot.one.Some? then Found(slot.one.value) else NotFound)
       else slot.many.Some? && ManyOrErr(nodes[i], e) == Found(slot.many.value)
  }

  lemma TruthIsRelational(e: Edge, want: set<Edge>, plan: Plan, t: Tables, nodes: seq<Node>, found: map<Edge, seq<Node>>,
                          i: int, rows: seq<Row>)
    requires e in want && want <= ACCOUNT_EDGES && Serves(plan, t) && UniqueIds(rows)
    requires 0 <= i < |nodes| == |rows| && forall k :: 0 <= k < |nodes| ==> nodes[k].row.id == rows[k].id
    requires Truthful(want, plan, nodes, found, i, rows)
    ensures Relates(t, e, nodes[i], rows[i])
  {
    EveryNodeOwns(nodes, i, rows);
    assert Reports(e, plan, nodes, found[e], i, rows);
    if e == Groups {
      GroupsAreJoined(plan, t, nodes, found[e], i, rows);
      GroupsReport(plan, t, nodes, found[e], i, rows);
    } else {
      var c, table := TableFor(t, e);
      if e == Proxy || e == Parent {
        SinglesAreLookedUp(e, plan, t, c, table, found[e], i, rows);
        SingleReports(e, plan, t, c, table, nodes, found[e], i, rows);
      } else {
        OwnedServed(e, plan, t, c, table, Ids(rows));
        OwnedAreSelected(e, plan, c, table, found[e], i, rows);
        OwnedReport(e, plan, t, c, table, nodes, found[e], i, rows);
      }
    }
  }

  lemma GroupsReport(plan: Plan, t: Tables, nodes: seq<Node>, neighbors: seq<Node>, i: int, rows: seq<Row>)
    requires 0 <= i < |nodes| == |rows| && Reports(Groups, plan, nodes, neighbors, i, rows)
    requires LoadMany.IsOwner(nodes, i) && nodes[i].row.id == rows[i].id
    requires IsJoin(t, rows[i].id, Found(LoadGroups.GroupsOf(JoinRows(plan, nodes), neighbors, rows[i].id)))
    ensures Relates(t, Groups, nodes[i], rows[i])
  {
  }

  lemma SingleReports(e: Edge, plan: Plan, t: Tables, c: Column, table: seq<Row>, nodes: seq<Node>, neighbors: seq<Node>,
                      i: int, rows: seq<Row>)
    requires (e == Proxy || e == Parent) && Over(t, e, c, table)
    requires 0 <= i < |nodes| == |rows| && Reports(e, plan, nodes, neighbors, i, rows)
    requires IsLookup(c, table, rows[i], Lookup(neighbors, ForeignKey(e, rows[i])))
    ensures Relates(t, e, nodes[i], rows[i])
  {
    assert OneOrErr(nodes[i], e) == Lookup(neighbors, ForeignKey(e, rows[i]));
  }

  lemma OwnedReport(e: Edge, plan: Plan, t: Tables, c: Column, table: seq<Row>, nodes: seq<Node>, neighbors: seq<Node>,
                    i: int, rows: seq<Row>)
    requires e in OWNED_EDGES && Over(t, e, c, table)
    requires 0 <= i < |nodes| == |rows| && Reports(e, plan, nodes, neighbors, i, rows)
    requires LoadMany.IsOwner(nodes, i) && nodes[i].row.id == rows[i].id
    requires IsSelection(c, table, rows[i].id, Found(LoadMany.Matching(e, neighbors, rows[i].id)))
    ensures Relates(t, e, nodes[i], rows[i])
  {
    assert ManyOrErr(nodes[i], e) == Found(LoadMany.Matching(e, neighbors, rows[i].id));
  }

  function Lookup(neighbors: seq<Node>, key: Key): Access<Node> {
    var got := LoadOne.LastMatch(neighbors, key);
    if got.Some? then Found(got.value) else NotFound
  }

  lemma EveryNodeOwns(nodes: seq<Node>, i: int, rows: seq<Row>)
    requires UniqueIds(rows) && 0 <= i < |nodes| == |rows| && forall k :: 0 <= k < |nodes| ==> nodes[k].row.id == rows[k].id
    ensures LoadMany.IsOwner(nodes, i) && IdsOf(nodes) == Ids(rows)
  {
  }

  // ---- many-to-many ----

  lemma GroupsAreJoined(plan: Plan, t: Tables, nodes: seq<Node>, neighbors: seq<Node>, i: int, rows: seq<Row>)
    requires Serves(plan, t) && 0 <= i < |nodes| == |rows| && IdsOf(nodes) == Ids(rows)
    requires RowsOf(neighbors) == AnswerTo(Groups, plan, rows)
    ensures IsJoin(t, rows[i].id, Found(LoadGroups.GroupsOf(JoinRows(plan, nodes), neighbors, rows[i].id)))
  {
    var joined, id := plan.join(Ids(rows)).rows, rows[i].id;
    assert AnswersJoin(t.groups, t.links, Ids(rows), joined);
    assert Ids(rows)[i] == id;
    JoinedGroups(t, Ids(rows), joined, neighbors, id);
  }

  lemma JoinedGroups(t: Tables, ids: seq<int>, joined: seq<LoadGroups.JoinRow>, neighbors: seq<Node>, id: int)
    requires AnswersJoin(t.groups, t.links, ids, joined) && id in ids
    requires RowsOf(neighbors) == LoadGroups.FirstGroups(joined)
    ensures IsJoin(t, id, Found(LoadGroups.GroupsOf(joined, neighbors, id)))
  {
    var list := LoadGroups.GroupsOf(joined, neighbors, id);
    ManyToManyIsJoin(joined, neighbors, id);
    forall n | n in list ensures n.row in t.groups {
      assert joined[FirstAt(joined, n.row.id)] in joined;
    }
    forall x | x in t.groups
      ensures LoadGroups.HasRow(joined, id, x.id) <==> exists link :: link in t.links && Links(link, id, x.id)
    {
      LinkedIffJoined(t, ids, joined, id, x);
    }
  }

  lemma LinkedIffJoined(t: Tables, ids: seq<int>, joined: seq<LoadGroups.JoinRow>, id: int, x: Row)
    requires AnswersJoin(t.groups, t.links, ids, joined) && id in ids && x in t.groups
    ensures LoadGroups.HasRow(joined, id, x.id) <==> exists link :: link in t.links && Links(link, id, x.id)
  {
    if link :| link in t.links && Links(link, id, x.id) {
      assert LoadGroups.JoinRow(id, x) in joined;
    }
  }

  // ---- many-to-one ----

  lemma {:induction false} KeysCover(e: Edge, rows: seq<Row>)
    ensures forall r :: r in rows && ForeignKey(e, r).Key? ==> ForeignKey(e, r).id in Keys(e, rows)
  {
    if rows != [] {
      KeysCover(e, rows[..|rows| - 1]);
    }
  }

  lemma SinglesAreLookedUp(e: Edge, plan: Plan, t: Tables, c: Column, table: seq<Row>, neighbors: seq<Node>,
                           i: int, rows: seq<Row>)
    requires (e == Proxy || e == Parent) && Serves(plan, t) && Over(t, e, c, table) && 0 <= i < |rows|
    requires RowsOf(neighbors) == AnswerTo(e, plan, rows)
    ensures IsLookup(c, table, rows[i], Lookup(neighbors, ForeignKey(e, rows[i])))
  {
    OneServed(e, plan, t, c, table, Keys(e, rows));
    SingleIsLookup(e, c, table, plan.edge(e, Keys(e, rows)).rows, neighbors, i, rows);
  }

  lemma SingleIsLookup(e: Edge, c: Column, table: seq<Row>, answer: seq<Row>, neighbors: seq<Node>, i: int, rows: seq<Row>)
    requires (e == Proxy || e == Parent) && HeldIn(e, c) && 0 <= i < |rows| && AnswersById(table, Keys(e, rows), answer)
    requires RowsOf(neighbors) == if Keys(e, rows) == [] then [] else answer
    ensures IsLookup(c, table, rows[i], Lookup(neighbors, ForeignKey(e, rows[i])))
  {
    var key := ForeignKey(e, rows[i]);
    KeysCover(e, rows);
    assert rows[i] in rows;
    LoadOne.LastMatchExact(neighbors, key);
    RowsAndNodes(neighbors);
    forall v ensures key == Key(v) <==> HasCell(rows[i], c, v) {
      KeyIsCell(e, c, rows[i], v);
    }
  }

  // ---- one-to-many ----

  lemma {:induction false} MatchingCounts(e: Edge, neighbors: seq<Node>, k: int, r: Row)
    ensures multiset(RowsOf(LoadMany.Matching(e, neighbors, k)))[r] ==
      if ForeignKey(e, r) == Key(k) then multiset(RowsOf(neighbors))[r] else 0
  {
    if neighbors != [] {
      var init, last := neighbors[..|neighbors| - 1], neighbors[|neighbors| - 1];
      MatchingCounts(e, init, k, r);
      assert RowsOf(neighbors) == RowsOf(init) + [last.row];
      var kept := LoadMany.Matching(e, init, k);
      assert RowsOf(kept + [last]) == RowsOf(kept) + [last.row];
    }
  }

  lemma OwnedAreSelected(e: Edge, plan: Plan, c: Column, table: seq<Row>, neighbors: seq<Node>, i: int, rows: seq<Row>)
    requires e in OWNED_EDGES && HeldIn(e, c) && 0 <= i < |rows|
    requires AnswersSelection(c, table, Ids(rows), plan.edge(e, Ids(rows))) && RowsOf(neighbors) == AnswerTo(e, plan, rows)
    ensures IsSelection(c, table, rows[i].id, Found(LoadMany.Matching(e, neighbors, rows[i].id)))
  {
    assert RowsOf(neighbors) == plan.edge(e, Ids(rows)).rows;
    assert Ids(rows)[i] == rows[i].id;
    MatchingIsSelection(e, c, table, Ids(rows), neighbors, rows[i].id);
  }

  lemma MatchingIsSelection(e: Edge, c: Column, table: seq<Row>, ids: seq<int>, neighbors: seq<Node>, id: int)
    requires e in OWNED_EDGES && HeldIn(e, c) && SelectsByCell(c, table, ids, RowsOf(neighbors)) && id in ids
    ensures IsSelection(c, table, id, Found(LoadMany.Matching(e, neighbors, id)))
  {
    forall r ensures multiset(RowsOf(LoadMany.Matching(e, neighbors, id)))[r] ==
      if HasCell(r, c, id) then multiset(table)[r] else 0
    {
      MatchingCounts(e, neighbors, id, r);
      if c in r.cells {
        KeyIsCell(e, c, r, id);
      }
    }
  }
}
