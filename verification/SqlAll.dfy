/** AccountQuery.sqlAll: the projected root query, the six eager loads in order, and the edge
    accessors of Account. */
module SqlAll {
  import opened Options
  import opened Graph
  import LoadOne
  import LoadMany
  import LoadGroups

  datatype Columns = Every | Only(list: seq<Column>)

  predicate Selects(cols: Columns, c: Column) {
    cols.Every? || c in cols.list
  }

  /** What scanning a row through a column list leaves: the other fields keep their zero value. */
  function Project(row: Row, cols: Columns): Row {
    Row(row.id, map c | c in row.cells && Selects(cols, c) :: row.cells[c])
  }

  function AddOnce(cols: seq<Column>, c: Column): seq<Column> {
    if c in cols then cols else cols + [c]
  }

  /** The column part of querySpec. The id comes first and once, every selected field is kept, and
      the foreign keys needed by the requested many-to-one edges are added. */
  method QueryColumns(fields: seq<Column>, want: set<Edge>) returns (cols: Columns)
    ensures cols.Every? <==> fields == []
    ensures cols.Only? ==> cols.list != [] && cols.list[0] == Id
    ensures cols.Only? ==> forall i :: 0 < i < |cols.list| ==> cols.list[i] != Id
    ensures cols.Only? ==> forall c :: c in cols.list <==>
      c == Id || c in fields || (Proxy in want && c == ProxyId) || (Parent in want && c == ParentAccountId)
  {
    if fields == [] { return Every; }
    var list := [Id];
    for i := 0 to |fields|
      invariant list != [] && list[0] == Id
      invariant forall j :: 0 < j < |list| ==> list[j] != Id
      invariant forall c :: c in list <==> c == Id || c in fields[..i]
    {
      TakeNext(fields, i);
      if fields[i] != Id { list := list + [fields[i]]; }
    }
    TakeAll(fields);
    if Proxy in want { list := AddOnce(list, ProxyId); }
    if Parent in want { list := AddOnce(list, ParentAccountId); }
    return Only(list);
  }

  /** AppendFieldOnce on the edge query of a one-to-many load. */
  function EdgeColumns(e: Edge, fields: seq<Column>): Columns {
    if fields == [] then Every else Only(AddOnce(fields, KeyColumn(e)))
  }

  lemma KeySurvives(e: Edge, row: Row, cols: Columns)
    requires Selects(cols, KeyColumn(e))
    ensures ForeignKey(e, Project(row, cols)) == ForeignKey(e, row)
  {
  }

  /** Projection is transparent on the neighbour side too: whatever fields a one-to-many edge query
      selects, its foreign keys are those of the full rows. */
  lemma EdgeProjectionIsTransparent(e: Edge, fields: seq<Column>, row: Row)
    ensures ForeignKey(e, Project(row, EdgeColumns(e, fields))) == ForeignKey(e, row)
  {
    KeySurvives(e, row, EdgeColumns(e, fields));
  }

  // ---- accessors ----

  datatype Access<+T> = Found(value: T) | NotFound | NotLoaded

  function OneOrErr(n: Node, e: Edge): Access<Node>
    reads n
  {
    if e in n.one then Found(n.one[e]) else if e in n.loaded then NotFound else NotLoaded
  }

  function ManyOrErr(n: Node, e: Edge): Access<seq<Node>>
    reads n
  {
    if e in n.loaded then Found(if e in n.many then n.many[e] else []) else NotLoaded
  }

  // ---- the six loads ----

  /** The behaviour of the edge queries: arbitrary functions of the ids they are sent. */
  datatype Plan = Plan(join: seq<int> -> LoadGroups.JoinAnswer, intercept: seq<Row> -> seq<Row>,
                       edge: (Edge, seq<int>) -> Answer)

  datatype Slot = Slot(one: Option<Node>, many: Option<seq<Node>>)

  const EMPTY := Slot(None, None)

  function SlotOf(n: Node, e: Edge): Slot
    reads n
  {
    Slot(if e in n.one then Some(n.one[e]) else None, if e in n.many then Some(n.many[e]) else None)
  }

  function JoinRowsIn(answer: LoadGroups.JoinAnswer): seq<LoadGroups.JoinRow> {
    if answer.Joined? then answer.rows else []
  }

  function JoinRows(plan: Plan, nodes: seq<Node>): seq<LoadGroups.JoinRow> {
    JoinRowsIn(plan.join(IdsOf(nodes)))
  }

  /** What edge e of node i holds after a load, given the full row of the node. */
  ghost function Filled(e: Edge, plan: Plan, nodes: seq<Node>, neighbors: seq<Node>, i: int, row: Row): Slot
    requires 0 <= i < |nodes|
  {
    match e
    case Groups => Slot(None, Some(LoadGroups.Attached(JoinRows(plan, nodes), nodes, neighbors, i)))
    case Proxy | Parent => Slot(LoadOne.LastMatch(neighbors, ForeignKey(e, row)), None)
    case _ => Slot(None, Some(LoadMany.Attached(e, nodes, neighbors, i)))
  }

  /** The rows the edge query hands back for these nodes. */
  function Answered(e: Edge, plan: Plan, nodes: seq<Node>): seq<Row> {
    match e
    case Groups => plan.intercept(LoadGroups.FirstGroups(JoinRows(plan, nodes)))
    case Proxy | Parent => RowsIn(LoadOne.Fetched(e, nodes, ids => plan.edge(e, ids)))
    case _ => RowsIn(plan.edge(e, IdsOf(nodes)))
  }

  function RowsIn(a: Answer): seq<Row> {
    if a.Rows? then a.rows else []
  }

  /** The neighbours are the answered rows, and every node holds its own of them. */
  ghost predicate AllFilled(e: Edge, plan: Plan, nodes: seq<Node>, neighbors: seq<Node>)
    reads nodes
  {
    && RowsOf(neighbors) == Answered(e, plan, nodes)
    && forall i :: 0 <= i < |nodes| ==> SlotOf(nodes[i], e) == Filled(e, plan, nodes, neighbors, i, nodes[i].row)
  }

  /** The edge query succeeds and returns only rows that belong to the nodes. */
  ghost predicate Honest(e: Edge, plan: Plan, nodes: seq<Node>) {
    match e
    case Groups =>
      && plan.join(IdsOf(nodes)).Joined?
      && LoadGroups.Expected(JoinRows(plan, nodes), nodes, plan.intercept(LoadGroups.FirstGroups(JoinRows(plan, nodes))))
    case Proxy | Parent =>
      LoadOne.Expected(LoadOne.SentIds(e, nodes), LoadOne.Fetched(e, nodes, ids => plan.edge(e, ids)))
    case _ => LoadMany.Expected(e, nodes, plan.edge(e, IdsOf(nodes)))
  }

  method FillGroups(plan: Plan, nodes: seq<Node>) returns (outcome: Outcome, neighbors: seq<Node>)
    requires Distinct(nodes)
    requires forall n :: n in nodes ==> Groups !in n.one
    modifies nodes`many
    ensures outcome == Done ==> SameLists(Groups, nodes, map n | n in nodes :: old(n.many))
    ensures outcome == Done ==> AllFilled(Groups, plan, nodes, neighbors)
    ensures outcome == Done <==> Honest(Groups, plan, nodes)
  {
    ghost var before := map n | n in nodes :: n.many;
    outcome, neighbors := LoadGroups.Load(nodes, plan.join, plan.intercept);
    if outcome == Done {
      GroupsFilled(plan, nodes, neighbors, before);
    }
  }

  method FillOne(e: Edge, plan: Plan, nodes: seq<Node>) returns (outcome: Outcome, neighbors: seq<Node>)
    requires e == Proxy || e == Parent
    requires forall n :: n in nodes ==> e !in n.one && e !in n.many
    modifies nodes`one
    ensures outcome == Done ==> SameSingles(e, nodes, map n | n in nodes :: old(n.one))
    ensures outcome == Done ==> AllFilled(e, plan, nodes, neighbors)
    ensures outcome == Done <==> Honest(e, plan, nodes)
  {
    ghost var before := map n | n in nodes :: n.one;
    outcome, neighbors := LoadOne.Load(e, nodes, ids => plan.edge(e, ids));
    if outcome == Done {
      SinglesFilled(e, plan, nodes, neighbors, before);
    }
  }

  method FillMany(e: Edge, plan: Plan, nodes: seq<Node>) returns (outcome: Outcome, neighbors: seq<Node>)
    requires e in OWNED_EDGES && Distinct(nodes)
    requires forall n :: n in nodes ==> e !in n.one
    modifies nodes`many
    ensures outcome == Done ==> SameLists(e, nodes, map n | n in nodes :: old(n.many))
    ensures outcome == Done ==> AllFilled(e, plan, nodes, neighbors)
    ensures outcome == Done <==> Honest(e, plan, nodes)
  {
    ghost var before := map n | n in nodes :: n.many;
    outcome, neighbors := LoadMany.Load(e, nodes, ids => plan.edge(e, ids));
    if outcome == Done {
      ListsFilled(e, plan, nodes, neighbors, before);
    }
  }

  ghost predicate SameLists(e: Edge, nodes: seq<Node>, before: map<Node, map<Edge, seq<Node>>>)
    reads nodes`many
  {
    forall n :: n in nodes ==> n in before && forall x :: x != e ==>
      (x in n.many <==> x in before[n]) && (x in n.many ==> n.many[x] == before[n][x])
  }

  ghost predicate SameSingles(e: Edge, nodes: seq<Node>, before: map<Node, map<Edge, Node>>)
    reads nodes`one
  {
    forall n :: n in nodes ==> n in before && forall x :: x != e ==>
      (x in n.one <==> x in before[n]) && (x in n.one ==> n.one[x] == before[n][x])
  }

  lemma ListsFilled(e: Edge, plan: Plan, nodes: seq<Node>, neighbors: seq<Node>, before: map<Node, map<Edge, seq<Node>>>)
    requires RowsOf(neighbors) == Answered(e, plan, nodes)
    requires e in OWNED_EDGES && LoadMany.Loaded(e, nodes, neighbors, before)
    requires forall n :: n in nodes ==> e !in n.one
    ensures SameLists(e, nodes, before) && AllFilled(e, plan, nodes, neighbors)
  {
    forall i | 0 <= i < |nodes| ensures SlotOf(nodes[i], e) == Filled(e, plan, nodes, neighbors, i, nodes[i].row) {
      assert nodes[i] in nodes;
    }
  }

  lemma GroupsFilled(plan: Plan, nodes: seq<Node>, neighbors: seq<Node>, before: map<Node, map<Edge, seq<Node>>>)
    requires RowsOf(neighbors) == Answered(Groups, plan, nodes)
    requires LoadGroups.Loaded(JoinRows(plan, nodes), nodes, neighbors, before)
    requires forall n :: n in nodes ==> Groups !in n.one
    ensures SameLists(Groups, nodes, before) && AllFilled(Groups, plan, nodes, neighbors)
  {
    forall i | 0 <= i < |nodes|
      ensures SlotOf(nodes[i], Groups) == Filled(Groups, plan, nodes, neighbors, i, nodes[i].row)
    {
      assert nodes[i] in nodes;
    }
  }

  lemma SinglesFilled(e: Edge, plan: Plan, nodes: seq<Node>, neighbors: seq<Node>, before: map<Node, map<Edge, Node>>)
    requires RowsOf(neighbors) == Answered(e, plan, nodes)
    requires (e == Proxy || e == Parent) && LoadOne.Loaded(e, nodes, neighbors, before)
    requires forall n :: n in nodes ==> n in before && e !in before[n] && e !in n.many
    ensures SameSingles(e, nodes, before) && AllFilled(e, plan, nodes, neighbors)
  {
    forall i | 0 <= i < |nodes| ensures SlotOf(nodes[i], e) == Filled(e, plan, nodes, neighbors, i, nodes[i].row) {
      assert nodes[i] in nodes;
    }
  }

  method LoadEdge(e: Edge, plan: Plan, nodes: seq<Node>) returns (outcome: Outcome, neighbors: seq<Node>)
    requires e in ACCOUNT_EDGES && Distinct(nodes)
    requires forall n :: n in nodes ==> SlotOf(n, e) == EMPTY
    modifies nodes`one, nodes`many
    ensures outcome == Done ==> forall n, x :: n in nodes && x != e ==> SlotOf(n, x) == old(SlotOf(n, x))
    ensures outcome == Done ==> AllFilled(e, plan, nodes, neighbors)
    ensures outcome == Done <==> Honest(e, plan, nodes)
  {
    match e
    case Groups => outcome, neighbors := FillGroups(plan, nodes);
    case Proxy | Parent => outcome, neighbors := FillOne(e, plan, nodes);
    case Children | UsageLogs | AccountGroups => outcome, neighbors := FillMany(e, plan, nodes);
  }

  const ORDER := [Groups, Proxy, Parent, Children, UsageLogs, AccountGroups]

  lemma OrderCovers(e: Edge)
    requires e in ACCOUNT_EDGES
    ensures e in ORDER[..|ORDER|]
  {
    TakeAll(ORDER);
    assert ORDER[0] == Groups && ORDER[1] == Proxy && ORDER[2] == Parent;
    assert ORDER[3] == Children && ORDER[4] == UsageLogs && ORDER[5] == AccountGroups;
  }

  /** Edge e is filled if it is requested and among the first k, and empty otherwise. */
  ghost predicate EdgeProgress(e: Edge, k: int, want: set<Edge>, plan: Plan, nodes: seq<Node>, found: map<Edge, seq<Node>>)
    requires 0 <= k <= |ORDER|
    reads nodes
  {
    if e in ORDER[..k] && e in want then e in found && AllFilled(e, plan, nodes, found[e])
    else forall n :: n in nodes ==> SlotOf(n, e) == EMPTY
  }

  ghost predicate Progress(k: int, want: set<Edge>, plan: Plan, nodes: seq<Node>, found: map<Edge, seq<Node>>)
    requires 0 <= k <= |ORDER|
    reads nodes
  {
    forall e :: EdgeProgress(e, k, want, plan, nodes, found)
  }

  /** The load of edge k, if it is requested. */
  method LoadNext(k: nat, want: set<Edge>, plan: Plan, nodes: seq<Node>, found: map<Edge, seq<Node>>)
    returns (outcome: Outcome, found': map<Edge, seq<Node>>)
    requires k < |ORDER| && Distinct(nodes) && Progress(k, want, plan, nodes, found)
    modifies nodes`one, nodes`many
    ensures outcome == Done ==> Progress(k + 1, want, plan, nodes, found')
    ensures outcome == Done <==> (ORDER[k] in want ==> Honest(ORDER[k], plan, nodes))
  {
    var e, next := ORDER[k], k + 1;
    OrderStep(k);
    if e !in want {
      forall x ensures EdgeProgress(x, next, want, plan, nodes, found) {
        assert EdgeProgress(x, k, want, plan, nodes, found);
      }
      return Done, found;
    }
    assert EdgeProgress(e, k, want, plan, nodes, found);
    var neighbors;
    outcome, neighbors := LoadEdge(e, plan, nodes);
    found' := found[e := neighbors];
    if outcome == Done {
      forall x ensures EdgeProgress(x, next, want, plan, nodes, found') {
        assert x != e ==> old(EdgeProgress(x, k, want, plan, nodes, found));
      }
    }
  }

  lemma OrderStep(k: nat)
    requires k < |ORDER|
    ensures ORDER[k] in ACCOUNT_EDGES && ORDER[k] !in ORDER[..k]
    ensures forall x :: x in ORDER[..k + 1] <==> x in ORDER[..k] || x == ORDER[k]
  {
    TakeNext(ORDER, k);
  }

  method LoadEdges(want: set<Edge>, plan: Plan, nodes: seq<Node>)
    returns (outcome: Outcome, found: map<Edge, seq<Node>>)
    requires Distinct(nodes)
    requires forall n, e :: n in nodes ==> SlotOf(n, e) == EMPTY
    modifies nodes`one, nodes`many
    ensures outcome == Done ==> Progress(|ORDER|, want, plan, nodes, found)
    ensures outcome == Done <==> forall e :: e in ACCOUNT_EDGES && e in want ==> Honest(e, plan, nodes)
  {
    found := map[];
    for k := 0 to |ORDER|
      invariant Progress(k, want, plan, nodes, found)
      invariant forall i :: 0 <= i < k && ORDER[i] in want ==> Honest(ORDER[i], plan, nodes)
    {
      outcome, found := LoadNext(k, want, plan, nodes, found);
      if outcome != Done {
        assert ORDER[k] in ACCOUNT_EDGES;
        return;
      }
    }
    forall e | e in ACCOUNT_EDGES && e in want ensures Honest(e, plan, nodes) {
      OrderCovers(e);
    }
    return Done, found;
  }

  function ProjectAll(rows: seq<Row>, cols: Columns): (out: seq<Row>)
    ensures |out| == |rows|
    ensures forall i :: 0 <= i < |rows| ==> out[i] == Project(rows[i], cols)
  {
    seq(|rows|, i requires 0 <= i < |rows| => Project(rows[i], cols))
  }

  // ---- projection is transparent ----

  function Ids(rows: seq<Row>): (ids: seq<int>)
    ensures |ids| == |rows|
    ensures forall i :: 0 <= i < |rows| ==> ids[i] == rows[i].id
  {
    seq(|rows|, i requires 0 <= i < |rows| => rows[i].id)
  }

  /** The foreign keys of the rows that are not nil, each once: what the full rows would send. */
  function Keys(e: Edge, rows: seq<Row>): seq<int> {
    if rows == [] then [] else
      var init := Keys(e, rows[..|rows| - 1]);
      var key := ForeignKey(e, rows[|rows| - 1]);
      if key.Key? && key.id !in init then init + [key.id] else init
  }

  /** The nodes were scanned from these rows, with the columns that the requested edge needs. */
  ghost predicate ScannedFrom(e: Edge, nodes: seq<Node>, rows: seq<Row>, cols: Columns) {
    RowsOf(nodes) == ProjectAll(rows, cols) && (e == Proxy || e == Parent ==> Selects(cols, KeyColumn(e)))
  }

  lemma {:induction false} SameKeysSent(e: Edge, nodes: seq<Node>, rows: seq<Row>, cols: Columns)
    requires RowsOf(nodes) == ProjectAll(rows, cols) && Selects(cols, KeyColumn(e))
    ensures LoadOne.SentIds(e, nodes) == Keys(e, rows)
  {
    if nodes != [] {
      var k := |nodes| - 1;
      assert |rows| == |nodes| && nodes[k].row == Project(rows[k], cols);
      assert RowsOf(nodes[..k]) == ProjectAll(rows[..k], cols);
      SameKeysSent(e, nodes[..k], rows[..k], cols);
      KeySurvives(e, rows[k], cols);
    }
  }

  /** The rows that the edge query hands back for the full rows. */
  function AnswerTo(e: Edge, plan: Plan, rows: seq<Row>): seq<Row> {
    match e
    case Groups => plan.intercept(LoadGroups.FirstGroups(JoinRowsIn(plan.join(Ids(rows)))))
    case Proxy | Parent => if Keys(e, rows) == [] then [] else RowsIn(plan.edge(e, Keys(e, rows)))
    case _ => RowsIn(plan.edge(e, Ids(rows)))
  }

  /** For the full rows, the edge query succeeds and returns only rows that belong to them. */
  ghost predicate HonestTo(e: Edge, plan: Plan, rows: seq<Row>) {
    match e
    case Groups =>
      && plan.join(Ids(rows)).Joined?
      && var joined := plan.join(Ids(rows)).rows;
         forall x :: x in AnswerTo(Groups, plan, rows) ==>
           LoadGroups.HasGroup(joined, x.id) && forall r :: r in joined && r.group.id == x.id ==> r.account in Ids(rows)
    case Proxy | Parent =>
      Keys(e, rows) != [] ==> LoadOne.Expected(Keys(e, rows), plan.edge(e, Keys(e, rows)))
    case _ =>
      && plan.edge(e, Ids(rows)).Rows?
      && forall r :: r in plan.edge(e, Ids(rows)).rows ==> ForeignKey(e, r).Key? && ForeignKey(e, r).id in Ids(rows)
  }

  lemma ReferencedIff(e: Edge, nodes: seq<Node>, r: Row)
    ensures LoadMany.Referenced(e, nodes, r) <==> ForeignKey(e, r).Key? && ForeignKey(e, r).id in IdsOf(nodes)
  {
    if ForeignKey(e, r).Key? && ForeignKey(e, r).id in IdsOf(nodes) {
      var i :| 0 <= i < |nodes| && IdsOf(nodes)[i] == ForeignKey(e, r).id;
      assert nodes[i] in nodes;
    }
    if LoadMany.Referenced(e, nodes, r) {
      var n :| n in nodes && ForeignKey(e, r) == Key(n.row.id);
      var i :| 0 <= i < |nodes| && nodes[i] == n;
      assert IdsOf(nodes)[i] == n.row.id;
    }
  }

  /** Whatever was selected, the edge queries are sent what the full rows would send, so they answer, and
      fail, as for the full rows. */
  lemma SameAnswers(e: Edge, plan: Plan, nodes: seq<Node>, rows: seq<Row>, cols: Columns)
    requires e in ACCOUNT_EDGES && ScannedFrom(e, nodes, rows, cols)
    ensures IdsOf(nodes) == Ids(rows)
    ensures Answered(e, plan, nodes) == AnswerTo(e, plan, rows)
    ensures Honest(e, plan, nodes) <==> HonestTo(e, plan, rows)
  {
    assert forall i :: 0 <= i < |nodes| ==> RowsOf(nodes)[i] == nodes[i].row;
    assert IdsOf(nodes) == Ids(rows);
    if e == Proxy || e == Parent {
      SameKeysSent(e, nodes, rows, cols);
    }
    forall r ensures LoadMany.Referenced(e, nodes, r) <==> ForeignKey(e, r).Key? && ForeignKey(e, r).id in Ids(rows) {
      ReferencedIff(e, nodes, r);
    }
  }

  /** The edges that node i reports are those of the full rows. */
  ghost predicate Truthful(want: set<Edge>, plan: Plan, nodes: seq<Node>, found: map<Edge, seq<Node>>, i: int, rows: seq<Row>)
    requires 0 <= i < |nodes| == |rows|
    reads nodes
  {
    forall e :: e in ACCOUNT_EDGES ==>
      if e !in want then (if e in ONE_EDGES then OneOrErr(nodes[i], e).NotLoaded? else ManyOrErr(nodes[i], e).NotLoaded?)
      else
        && e in found && RowsOf(found[e]) == AnswerTo(e, plan, rows)
        && var slot := Filled(e, plan, nodes, found[e], i, rows[i]);
           if e in ONE_EDGES then OneOrErr(nodes[i], e) == (if slot.one.Some? then Found(slot.one.value) else NotFound)
           else slot.many.Some? && ManyOrErr(nodes[i], e) == Found(slot.many.value)
  }

  /** The scanned row has the id and every selected cell of the full row. */
  ghost predicate Keeps(fields: seq<Column>, full: Row, row: Row) {
    && row.id == full.id && (fields == [] ==> row == full)
    && (forall c :: c in fields && c in full.cells ==> c in row.cells)
    && (forall c :: c in row.cells ==> c in full.cells && row.cells[c] == full.cells[c])
  }

  lemma ProjectKeeps(fields: seq<Column>, full: Row, cols: Columns)
    requires cols.Every? <==> fields == []
    requires forall c :: c in fields ==> Selects(cols, c)
    ensures Keeps(fields, full, Project(full, cols))
  {
    if fields == [] {
      assert Project(full, cols).cells == full.cells;
    }
  }

  /** sqlAll: whatever fields are selected, each returned node's accessors tell the truth about the
      edges of the full rows, for every set of requested edges. */
  method Run(fields: seq<Column>, want: set<Edge>, root: Answer, plan: Plan)
    returns (outcome: Outcome, nodes: seq<Node>, found: map<Edge, seq<Node>>)
    requires want <= ACCOUNT_EDGES
    ensures outcome == Done <==>
      root.Rows? && (root.rows == [] || forall e :: e in want ==> HonestTo(e, plan, root.rows))
    ensures outcome == Done ==> |nodes| == |root.rows|
    ensures outcome != Done ==> nodes == []
    ensures forall n :: n in nodes ==> fresh(n)
    ensures outcome == Done ==> forall i :: 0 <= i < |nodes| ==>
      Keeps(fields, root.rows[i], nodes[i].row) && Truthful(want, plan, nodes, found, i, root.rows)
  {
    found := map[];
    var cols := QueryColumns(fields, want);
    if root.Failed? { return QueryFailed, [], map[]; }
    nodes := Materialize(ProjectAll(root.rows, cols), want);
    if nodes == [] { return Done, nodes, map[]; }
    assert forall i :: 0 <= i < |nodes| ==> nodes[i] in nodes;
    forall e | e in want ensures ScannedFrom(e, nodes, root.rows, cols) {
    }
    outcome, found := LoadEdges(want, plan, nodes);
    HonestAlike(want, plan, nodes, root.rows, cols);
    if outcome != Done { return outcome, [], map[]; }
    forall i | 0 <= i < |nodes|
      ensures Keeps(fields, root.rows[i], nodes[i].row) && Truthful(want, plan, nodes, found, i, root.rows)
    {
      ProjectKeeps(fields, root.rows[i], cols);
      AccessorsTellTheTruth(want, plan, nodes, found, i, root.rows, cols);
    }
  }

  lemma HonestAlike(want: set<Edge>, plan: Plan, nodes: seq<Node>, rows: seq<Row>, cols: Columns)
    requires want <= ACCOUNT_EDGES && forall e :: e in want ==> ScannedFrom(e, nodes, rows, cols)
    ensures (forall e :: e in ACCOUNT_EDGES && e in want ==> Honest(e, plan, nodes)) <==>
      (forall e :: e in want ==> HonestTo(e, plan, rows))
  {
    forall e | e in want ensures Honest(e, plan, nodes) <==> HonestTo(e, plan, rows) {
      SameAnswers(e, plan, nodes, rows, cols);
    }
  }

  lemma AccessorsTellTheTruth(want: set<Edge>, plan: Plan, nodes: seq<Node>, found: map<Edge, seq<Node>>,
                              i: int, rows: seq<Row>, cols: Columns)
    requires 0 <= i < |nodes| == |rows| && nodes[i].loaded == want
    requires forall e :: e in want ==> ScannedFrom(e, nodes, rows, cols)
    requires Progress(|ORDER|, want, plan, nodes, found)
    ensures Truthful(want, plan, nodes, found, i, rows)
  {
    var n := nodes[i];
    forall e | e in ACCOUNT_EDGES && e in want
      ensures e in found && RowsOf(found[e]) == AnswerTo(e, plan, rows)
      ensures SlotOf(n, e) == Filled(e, plan, nodes, found[e], i, rows[i])
    {
      EdgeIsTrue(e, want, plan, nodes, found, i, rows, cols);
    }
    forall e | e in ACCOUNT_EDGES && e !in want ensures SlotOf(n, e) == EMPTY {
      assert n in nodes && EdgeProgress(e, |ORDER|, want, plan, nodes, found);
    }
  }

  lemma EdgeIsTrue(e: Edge, want: set<Edge>, plan: Plan, nodes: seq<Node>, found: map<Edge, seq<Node>>,
                   i: int, rows: seq<Row>, cols: Columns)
    requires 0 <= i < |nodes| == |rows| && e in ACCOUNT_EDGES && e in want && ScannedFrom(e, nodes, rows, cols)
    requires Progress(|ORDER|, want, plan, nodes, found)
    ensures e in found && RowsOf(found[e]) == AnswerTo(e, plan, rows)
    ensures SlotOf(nodes[i], e) == Filled(e, plan, nodes, found[e], i, rows[i])
  {
    OrderCovers(e);
    assert EdgeProgress(e, |ORDER|, want, plan, nodes, found);
    SameAnswers(e, plan, nodes, rows, cols);
    assert nodes[i].row == RowsOf(nodes)[i] == Project(rows[i], cols);
    if e == Proxy || e == Parent { KeySurvives(e, rows[i], cols); }
  }
}
