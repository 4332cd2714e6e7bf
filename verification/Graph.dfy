/** Rows, nodes and edges shared by the eager-loading functions.
    A database row is an id and a finite map of integer cells: an absent cell is
    SQL NULL, or a column the query did not select. */
module Graph {

  datatype Column = Id | ProxyId | ParentAccountId | AccountId | GroupId | Other(name: string)

  datatype Key = Nil | Key(id: int)

  datatype Row = Row(id: int, cells: map<Column, int>)

  /** What a query may answer: the driver fails, or it returns rows. */
  datatype Answer = Failed | Rows(rows: seq<Row>)

  /** The edges of Account, then the two edges of the join entity AccountGroup. */
  datatype Edge = Groups | Proxy | Parent | Children | UsageLogs | AccountGroups | Account | Group

  datatype Outcome = Done | QueryFailed | UnexpectedNode(id: int) | NilForeignKey(id: int) | NilPointer

  const ACCOUNT_EDGES := {Groups, Proxy, Parent, Children, UsageLogs, AccountGroups}
  const ONE_EDGES := {Proxy, Parent, Account, Group}
  const OWNED_EDGES := {Children, UsageLogs, AccountGroups}

  function KeyColumn(e: Edge): Column {
    match e
    case Proxy => ProxyId
    case Parent | Children => ParentAccountId
    case Group => GroupId
    case _ => AccountId
  }

  /** proxy_id and parent_account_id are pointers in the entity; account_id and group_id are
      plain integers, which read 0 when the column was not scanned. */
  predicate Nullable(e: Edge) {
    e.Proxy? || e.Parent? || e.Children?
  }

  function ForeignKey(e: Edge, row: Row): Key {
    if KeyColumn(e) in row.cells then Key(row.cells[KeyColumn(e)])
    else if Nullable(e) then Nil
    else Key(0)
  }

  /** A loaded entity: its scanned row, and the edges filled in by eager loading. */
  class Node {
    const row: Row
    const loaded: set<Edge>
    var one: map<Edge, Node>
    var many: map<Edge, seq<Node>>

    constructor (row: Row, loaded: set<Edge>)
      ensures this.row == row && this.loaded == loaded
      ensures one == map[] && many == map[]
    {
      this.row, this.loaded := row, loaded;
      one, many := map[], map[];
    }
  }

  ghost predicate Distinct<T>(s: seq<T>) {
    forall i, j :: 0 <= i < j < |s| ==> s[i] != s[j]
  }

  lemma TakeNext<T>(s: seq<T>, i: nat)
    requires i < |s|
    ensures s[..i + 1] == s[..i] + [s[i]] && s[..i + 1][..i] == s[..i]
  {
  }

  lemma TakeAll<T>(s: seq<T>)
    ensures s[..|s|] == s
  {
  }

  function RowsOf(nodes: seq<Node>): (rows: seq<Row>)
    ensures |rows| == |nodes|
    ensures forall i :: 0 <= i < |nodes| ==> rows[i] == nodes[i].row
  {
    seq(|nodes|, i requires 0 <= i < |nodes| => nodes[i].row)
  }

  lemma RowsAndNodes(nodes: seq<Node>)
    ensures forall n :: n in nodes ==> n.row in RowsOf(nodes)
    ensures forall r :: r in RowsOf(nodes) ==> exists n :: n in nodes && n.row == r
  {
    forall n | n in nodes ensures n.row in RowsOf(nodes) {
      var i :| 0 <= i < |nodes| && nodes[i] == n;
      assert RowsOf(nodes)[i] == n.row;
    }
    forall r | r in RowsOf(nodes) ensures exists n :: n in nodes && n.row == r {
      var i :| 0 <= i < |nodes| && RowsOf(nodes)[i] == r;
      assert nodes[i] in nodes;
    }
  }

  function IdsOf(nodes: seq<Node>): (ids: seq<int>)
    ensures |ids| == |nodes|
    ensures forall i :: 0 <= i < |nodes| ==> ids[i] == nodes[i].row.id
  {
    seq(|nodes|, i requires 0 <= i < |nodes| => nodes[i].row.id)
  }

  /** One fresh node per returned row, in the order of the rows. */
  method Materialize(rows: seq<Row>, loaded: set<Edge>) returns (nodes: seq<Node>)
    ensures RowsOf(nodes) == rows && Distinct(nodes)
    ensures forall n :: n in nodes ==>
      fresh(n) && n.loaded == loaded && n.one == map[] && n.many == map[]
  {
    nodes := [];
    for i := 0 to |rows|
      invariant |nodes| == i && Distinct(nodes)
      invariant forall j :: 0 <= j < i ==> nodes[j].row == rows[j]
      invariant forall n :: n in nodes ==>
        fresh(n) && n.loaded == loaded && n.one == map[] && n.many == map[]
    {
      var node := new Node(rows[i], loaded);
      nodes := nodes + [node];
    }
  }
}
