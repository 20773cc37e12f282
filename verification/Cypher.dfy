/** The statements the mappers write, and what they do to a property graph.
    A graph is a list of nodes and a list of edges; a statement is a list of clauses that
    carry a table of rows (variable bindings) from one clause to the next. */
module Cypher {
  import opened Payloads

  datatype Label = Person | Organization | CalendarEvent | Email

  datatype Kind = ORGANIZED | ATTENDED | WORKS_AT

  /** Property names, the natural keys first. */
  datatype Prop =
    | PEmail | PName | PUid | PMessageId
    | PFn | PTel | PDeleted
    | PSummary | PDescription | PLocation | PStartAt | PEndAt | PMeetUrl
    | PStatus | PUser | PMailboxPath | PReceivedAt | PRead

  function NaturalKey(lab: Label): Prop {
    match lab
    case Person => PEmail
    case Organization => PName
    case CalendarEvent => PUid
    case Email => PMessageId
  }

  type Props = map<Prop, Json>

  datatype Node = Node(lab: Label, props: Props)

  datatype Edge = Edge(kind: Kind, src: nat, dst: nat, props: Props)

  datatype Graph = Graph(nodes: seq<Node>, edges: seq<Edge>)

  const EMPTY_GRAPH := Graph([], [])

  function GetProp(props: Props, p: Prop): Json {
    if p in props then props[p] else JNull
  }

  /** SET x.p = v; setting a property to null removes it. */
  function SetProp(props: Props, p: Prop, v: Json): Props {
    if v == JNull then props - {p} else props[p := v]
  }

  datatype Var = VarP | VarE | VarO | VarR

  datatype Ref = NodeRef(i: nat) | EdgeRef(j: nat)

  type Row = map<Var, Ref>

  datatype Clause =
    | MergeNode(v: Var, lab: Label, key: Json)
    | MatchNode(v: Var, lab: Label, key: Json)
    | MergeEdge(v: Var, src: Var, kind: Kind, dst: Var)
    | SetTo(v: Var, prop: Prop, value: Json)
    | SetCoalesce(v: Var, prop: Prop, value: Json)

  type Stmt = seq<Clause>

  predicate IsNode(n: Node, lab: Label, key: Json) {
    n.lab == lab && GetProp(n.props, NaturalKey(lab)) == key
  }

  predicate IsEdge(e: Edge, kind: Kind, src: nat, dst: nat) {
    e.kind == kind && e.src == src && e.dst == dst
  }

  /** Positions of all nodes a pattern matches, in list order. */
  function NodesMatching(nodes: seq<Node>, lab: Label, key: Json): (m: seq<nat>)
    ensures forall a :: 0 <= a < |m| ==> m[a] < |nodes| && IsNode(nodes[m[a]], lab, key)
    ensures forall i :: 0 <= i < |nodes| && IsNode(nodes[i], lab, key) ==> i in m
    ensures forall a, b :: 0 <= a < b < |m| ==> m[a] < m[b]
  {
    if nodes == [] then []
    else
      var n := |nodes| - 1;
      var before := NodesMatching(nodes[..n], lab, key);
      if IsNode(nodes[n], lab, key) then before + [n] else before
  }

  /** Positions of all edges of a kind between two nodes, in list order. */
  function EdgesMatching(edges: seq<Edge>, kind: Kind, src: nat, dst: nat): (m: seq<nat>)
    ensures forall a :: 0 <= a < |m| ==> m[a] < |edges| && IsEdge(edges[m[a]], kind, src, dst)
    ensures forall i :: 0 <= i < |edges| && IsEdge(edges[i], kind, src, dst) ==> i in m
    ensures forall a, b :: 0 <= a < b < |m| ==> m[a] < m[b]
  {
    if edges == [] then []
    else
      var n := |edges| - 1;
      var before := EdgesMatching(edges[..n], kind, src, dst);
      if IsEdge(edges[n], kind, src, dst) then before + [n] else before
  }

  /** One row per matching node: a pattern that matches several nodes multiplies the table. */
  function BindNodes(row: Row, v: Var, found: seq<nat>): seq<Row> {
    seq(|found|, a requires 0 <= a < |found| => row[v := NodeRef(found[a])])
  }

  function BindEdges(row: Row, v: Var, found: seq<nat>): seq<Row> {
    seq(|found|, a requires 0 <= a < |found| => row[v := EdgeRef(found[a])])
  }

  predicate BindsNode(g: Graph, row: Row, v: Var) {
    v in row && row[v].NodeRef? && row[v].i < |g.nodes|
  }

  function Assign(g: Graph, ref: Ref, p: Prop, value: Json, coalesce: bool): Graph {
    match ref
    case NodeRef(i) =>
      if i < |g.nodes| then
        var n := g.nodes[i];
        var v := if coalesce && p in n.props then n.props[p] else value;
        g.(nodes := g.nodes[i := n.(props := SetProp(n.props, p, v))])
      else g
    case EdgeRef(j) =>
      if j < |g.edges| then
        var e := g.edges[j];
        var v := if coalesce && p in e.props then e.props[p] else value;
        g.(edges := g.edges[j := e.(props := SetProp(e.props, p, v))])
      else g
  }

  datatype Table = Table(g: Graph, rows: seq<Row>)

  /** One clause on one row: the graph afterwards and the rows that continue. */
  function ExecRow(g: Graph, row: Row, c: Clause): Table {
    match c
    case MergeNode(v, lab, key) =>
      var found := NodesMatching(g.nodes, lab, key);
      if found == [] then
        var created := Node(lab, SetProp(map[], NaturalKey(lab), key));
        Table(g.(nodes := g.nodes + [created]), [row[v := NodeRef(|g.nodes|)]])
      else Table(g, BindNodes(row, v, found))
    case MatchNode(v, lab, key) =>
      Table(g, BindNodes(row, v, NodesMatching(g.nodes, lab, key)))
    case MergeEdge(v, src, kind, dst) =>
      if BindsNode(g, row, src) && BindsNode(g, row, dst) then
        var found := EdgesMatching(g.edges, kind, row[src].i, row[dst].i);
        if found == [] then
          var created := Edge(kind, row[src].i, row[dst].i, map[]);
          Table(g.(edges := g.edges + [created]), [row[v := EdgeRef(|g.edges|)]])
        else Table(g, BindEdges(row, v, found))
      else Table(g, [])
    case SetTo(v, p, value) =>
      Table(if v in row then Assign(g, row[v], p, value, false) else g, [row])
    case SetCoalesce(v, p, value) =>
      Table(if v in row then Assign(g, row[v], p, value, true) else g, [row])
  }

  function ExecClause(t: Table, c: Clause): Table
    decreases |t.rows|
  {
    if t.rows == [] then t
    else
      var first := ExecRow(t.g, t.rows[0], c);
      var rest := ExecClause(Table(first.g, t.rows[1..]), c);
      Table(rest.g, first.rows + rest.rows)
  }

  function ExecClauses(t: Table, cs: seq<Clause>): Table
    decreases |cs|
  {
    if cs == [] then t else ExecClauses(ExecClause(t, cs[0]), cs[1..])
  }

  /** A statement starts from a table with one empty row. */
  function ExecStmt(g: Graph, s: Stmt): Graph {
    ExecClauses(Table(g, [map[]]), s).g
  }

  function ExecStmts(g: Graph, stmts: seq<Stmt>): Graph
    decreases |stmts|
  {
    if stmts == [] then g else ExecStmts(ExecStmt(g, stmts[0]), stmts[1..])
  }
}
