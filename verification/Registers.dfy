/** A duplicate-free graph seen as a bank of independent registers, one per node, edge and
    property, and the proof that a well-typed statement acts on each register by itself. */
module Registers {
  import opened Payloads
  import opened Cypher

  datatype NodeId = NodeId(lab: Label, key: Json)

  datatype Entity =
    | NodeEnt(id: NodeId)
    | EdgeEnt(kind: Kind, src: NodeId, dst: NodeId)

  /** `Exists` is JBool(true) or JNull; an absent property is JNull. */
  datatype Cell = Exists(ent: Entity) | PropOf(ent: Entity, prop: Prop)

  /** What a statement does to a register: overwrite it, or fill it when it is null. */
  datatype CellOp = Put(cell: Cell, value: Json) | Fill(cell: Cell, value: Json)

  function Apply(op: CellOp, c: Cell, x: Json): Json {
    if op.cell != c then x
    else match op
      case Put(_, v) => v
      case Fill(_, v) => if x == JNull then v else x
  }

  function RunOps(ops: seq<CellOp>, c: Cell, x: Json): Json {
    if ops == [] then x else RunOps(ops[1..], c, Apply(ops[0], c, x))
  }

  lemma RunOne(op: CellOp, c: Cell, x: Json)
    ensures RunOps([op], c, x) == Apply(op, c, x)
  {
    assert [op][1..] == [];
  }

  lemma RunTwo(a: CellOp, b: CellOp, c: Cell, x: Json)
    ensures RunOps([a, b], c, x) == Apply(b, c, Apply(a, c, x))
  {
    assert [a, b][1..] == [b];
    RunOne(b, c, Apply(a, c, x));
  }

  lemma {:induction false} RunOpsConcat(a: seq<CellOp>, b: seq<CellOp>, c: Cell, x: Json)
    ensures RunOps(a + b, c, x) == RunOps(b, c, RunOps(a, c, x))
  {
    if a == [] {
      assert a + b == b;
    } else {
      assert (a + b)[1..] == a[1..] + b;
      RunOpsConcat(a[1..], b, c, Apply(a[0], c, x));
    }
  }

  // ---- A graph without duplicates ----

  function IdOf(n: Node): NodeId {
    NodeId(n.lab, GetProp(n.props, NaturalKey(n.lab)))
  }

  ghost predicate NoNulls(props: Props) {
    forall p :: p in props ==> props[p] != JNull
  }

  ghost predicate WellFormedNodes(nodes: seq<Node>) {
    && (forall i :: 0 <= i < |nodes| ==> IdOf(nodes[i]).key != JNull && NoNulls(nodes[i].props))
    && (forall i, j :: 0 <= i < j < |nodes| ==> IdOf(nodes[i]) != IdOf(nodes[j]))
  }

  predicate SameEnds(a: Edge, b: Edge) {
    a.kind == b.kind && a.src == b.src && a.dst == b.dst
  }

  ghost predicate WellFormedEdges(edges: seq<Edge>, n: nat) {
    && (forall j :: 0 <= j < |edges| ==> edges[j].src < n && edges[j].dst < n && NoNulls(edges[j].props))
    && (forall i, j :: 0 <= i < j < |edges| ==> !SameEnds(edges[i], edges[j]))
  }

  /** At most one node per natural key and at most one edge per (source, kind, target). */
  ghost predicate WellFormed(g: Graph) {
    WellFormedNodes(g.nodes) && WellFormedEdges(g.edges, |g.nodes|)
  }

  ghost predicate NodeAt(g: Graph, id: NodeId, i: nat) {
    i < |g.nodes| && IdOf(g.nodes[i]) == id
  }

  ghost predicate EdgeAt(g: Graph, ent: Entity, j: nat)
    requires ent.EdgeEnt?
  {
    && j < |g.edges|
    && g.edges[j].kind == ent.kind
    && NodeAt(g, ent.src, g.edges[j].src)
    && NodeAt(g, ent.dst, g.edges[j].dst)
  }

  ghost function PropsOf(g: Graph, ent: Entity): Option<Props> {
    match ent
    case NodeEnt(id) =>
      if exists i: nat :: NodeAt(g, id, i) then
        var i: nat :| NodeAt(g, id, i);
        Some(g.nodes[i].props)
      else None
    case EdgeEnt(_, _, _) =>
      if exists j: nat :: EdgeAt(g, ent, j) then
        var j: nat :| EdgeAt(g, ent, j);
        Some(g.edges[j].props)
      else None
  }

  /** The register of a graph. */
  ghost function Look(g: Graph, c: Cell): Json {
    match c
    case Exists(ent) => if PropsOf(g, ent).Some? then JBool(true) else JNull
    case PropOf(ent, p) => if PropsOf(g, ent).Some? then GetProp(PropsOf(g, ent).value, p) else JNull
  }

  lemma NodeUnique(g: Graph, id: NodeId, i: nat, j: nat)
    requires WellFormed(g) && NodeAt(g, id, i) && NodeAt(g, id, j)
    ensures i == j
  {
  }

  lemma PropsOfNode(g: Graph, id: NodeId, i: nat)
    requires WellFormed(g) && NodeAt(g, id, i)
    ensures PropsOf(g, NodeEnt(id)) == Some(g.nodes[i].props)
  {
    var k: nat :| NodeAt(g, id, k) && PropsOf(g, NodeEnt(id)) == Some(g.nodes[k].props);
    NodeUnique(g, id, i, k);
  }

  lemma EdgeUnique(g: Graph, ent: Entity, i: nat, j: nat)
    requires ent.EdgeEnt? && WellFormed(g) && EdgeAt(g, ent, i) && EdgeAt(g, ent, j)
    ensures i == j
  {
    NodeUnique(g, ent.src, g.edges[i].src, g.edges[j].src);
    NodeUnique(g, ent.dst, g.edges[i].dst, g.edges[j].dst);
    assert SameEnds(g.edges[i], g.edges[j]);
  }

  lemma PropsOfEdge(g: Graph, ent: Entity, j: nat)
    requires ent.EdgeEnt? && WellFormed(g) && EdgeAt(g, ent, j)
    ensures PropsOf(g, ent) == Some(g.edges[j].props)
  {
    var k: nat :| EdgeAt(g, ent, k) && PropsOf(g, ent) == Some(g.edges[k].props);
    EdgeUnique(g, ent, j, k);
  }

  // ---- The effect of a clause, read off its text ----

  /** Which entity each variable of the statement names. */
  type Names = map<Var, Entity>

  predicate NamesNode(names: Names, v: Var) {
    v in names && names[v].NodeEnt?
  }

  /** Variables are bound before use, merged keys are not null, and SET never writes a natural key. */
  predicate Typed(c: Clause, names: Names) {
    match c
    case MergeNode(_, _, key) => key != JNull
    case MatchNode(_, _, key) => key != JNull
    case MergeEdge(_, src, _, dst) => NamesNode(names, src) && NamesNode(names, dst)
    case SetTo(v, p, _) => v in names && (names[v].NodeEnt? ==> p != NaturalKey(names[v].id.lab))
    case SetCoalesce(v, p, _) => v in names && (names[v].NodeEnt? ==> p != NaturalKey(names[v].id.lab))
  }

  function NamesAfter(c: Clause, names: Names): Names
    requires Typed(c, names)
  {
    match c
    case MergeNode(v, lab, key) => names[v := NodeEnt(NodeId(lab, key))]
    case MatchNode(v, lab, key) => names[v := NodeEnt(NodeId(lab, key))]
    case MergeEdge(v, src, kind, dst) => names[v := EdgeEnt(kind, names[src].id, names[dst].id)]
    case _ => names
  }

  function OpsOf(c: Clause, names: Names): seq<CellOp>
    requires Typed(c, names)
  {
    match c
    case MergeNode(_, lab, key) =>
      var ent := NodeEnt(NodeId(lab, key));
      [Put(Exists(ent), JBool(true)), Put(PropOf(ent, NaturalKey(lab)), key)]
    case MatchNode(_, _, _) => []
    case MergeEdge(_, src, kind, dst) =>
      [Put(Exists(EdgeEnt(kind, names[src].id, names[dst].id)), JBool(true))]
    case SetTo(v, p, value) => [Put(PropOf(names[v], p), value)]
    case SetCoalesce(v, p, value) => [Fill(PropOf(names[v], p), value)]
  }

  predicate TypedAll(cs: seq<Clause>, names: Names) {
    cs == [] || (Typed(cs[0], names) && TypedAll(cs[1..], NamesAfter(cs[0], names)))
  }

  function OpsOfAll(cs: seq<Clause>, names: Names): seq<CellOp>
    requires TypedAll(cs, names)
  {
    if cs == [] then []
    else OpsOf(cs[0], names) + OpsOfAll(cs[1..], NamesAfter(cs[0], names))
  }

  function Merged(c: Clause): set<NodeId> {
    if c.MergeNode? then {NodeId(c.lab, c.key)} else {}
  }

  /** Every MATCH names a node in `known` or one merged earlier in the list. */
  predicate Supplied(cs: seq<Clause>, known: set<NodeId>) {
    cs == [] ||
    ((cs[0].MatchNode? ==> NodeId(cs[0].lab, cs[0].key) in known) && Supplied(cs[1..], known + Merged(cs[0])))
  }

  // ---- One clause on one row ----

  ghost predicate Binds(g: Graph, ref: Ref, ent: Entity) {
    match ent
    case NodeEnt(id) => ref.NodeRef? && NodeAt(g, id, ref.i)
    case EdgeEnt(_, _, _) => ref.EdgeRef? && EdgeAt(g, ent, ref.j)
  }

  /** The row binds each variable to the entity it names. */
  ghost predicate Matches(g: Graph, row: Row, names: Names) {
    row.Keys == names.Keys && forall v :: v in names ==> Binds(g, row[v], names[v])
  }

  /** Nodes and edges keep their position and identity; new ones come at the end. */
  ghost predicate Grows(g: Graph, h: Graph) {
    && |g.nodes| <= |h.nodes| && |g.edges| <= |h.edges|
    && (forall i :: 0 <= i < |g.nodes| ==> IdOf(h.nodes[i]) == IdOf(g.nodes[i]))
    && (forall j :: 0 <= j < |g.edges| ==> SameEnds(h.edges[j], g.edges[j]))
  }

  lemma GrowsTransitive(f: Graph, g: Graph, h: Graph)
    requires Grows(f, g) && Grows(g, h)
    ensures Grows(f, h)
  {
    forall j | 0 <= j < |f.edges| ensures SameEnds(h.edges[j], f.edges[j]) {
      assert SameEnds(g.edges[j], f.edges[j]) && SameEnds(h.edges[j], g.edges[j]);
    }
  }

  lemma GrowsBinds(g: Graph, h: Graph, ref: Ref, ent: Entity)
    requires Grows(g, h) && Binds(g, ref, ent) && WellFormed(g)
    ensures Binds(h, ref, ent)
  {
    if ent.EdgeEnt? {
      assert SameEnds(h.edges[ref.j], g.edges[ref.j]);
    }
  }

  ghost predicate Acts(g: Graph, h: Graph, ops: seq<CellOp>) {
    forall c :: Look(h, c) == RunOps(ops, c, Look(g, c))
  }
}
