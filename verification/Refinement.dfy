/** Every well-typed statement refines its register effect, clause by clause. */
module Refinement {
  import opened Payloads
  import opened Cypher
  import opened Registers

  lemma EdgeAtGrows(g: Graph, h: Graph, ent: Entity)
    requires WellFormed(g) && Grows(g, h) && |h.edges| == |g.edges| && ent.EdgeEnt?
    ensures forall j: nat :: EdgeAt(h, ent, j) <==> EdgeAt(g, ent, j)
  {
    forall j: nat ensures EdgeAt(h, ent, j) <==> EdgeAt(g, ent, j) {
      if j < |g.edges| {
        assert SameEnds(h.edges[j], g.edges[j]);
      }
    }
  }

  lemma EdgesKeepProps(g: Graph, h: Graph, ent: Entity)
    requires WellFormed(g) && WellFormed(h) && Grows(g, h) && h.edges == g.edges && ent.EdgeEnt?
    ensures PropsOf(h, ent) == PropsOf(g, ent)
  {
    EdgeAtGrows(g, h, ent);
    if j: nat :| EdgeAt(g, ent, j) {
      PropsOfEdge(g, ent, j);
      PropsOfEdge(h, ent, j);
    }
  }

  lemma NodesKeepProps(g: Graph, h: Graph, id: NodeId)
    requires WellFormed(g) && WellFormed(h) && h.nodes == g.nodes
    ensures PropsOf(h, NodeEnt(id)) == PropsOf(g, NodeEnt(id))
  {
    if i: nat :| NodeAt(g, id, i) {
      PropsOfNode(g, id, i);
      PropsOfNode(h, id, i);
    } else {
      assert forall i: nat :: NodeAt(h, id, i) ==> NodeAt(g, id, i);
    }
  }

  // ---- Creating a node ----

  function WithNode(g: Graph, lab: Label, key: Json): Graph {
    g.(nodes := g.nodes + [Node(lab, SetProp(map[], NaturalKey(lab), key))])
  }

  lemma NewNodeWellFormed(g: Graph, lab: Label, key: Json)
    requires WellFormed(g) && key != JNull
    requires forall i: nat :: !NodeAt(g, NodeId(lab, key), i)
    ensures WellFormed(WithNode(g, lab, key)) && Grows(g, WithNode(g, lab, key))
    ensures NodeAt(WithNode(g, lab, key), NodeId(lab, key), |g.nodes|)
  {
    var h := WithNode(g, lab, key);
    forall i, j | 0 <= i < j < |h.nodes| ensures IdOf(h.nodes[i]) != IdOf(h.nodes[j]) {
      if j == |g.nodes| {
        assert !NodeAt(g, NodeId(lab, key), i);
      }
    }
  }

  lemma NewNodeActs(g: Graph, lab: Label, key: Json, c: Cell)
    requires WellFormed(g) && key != JNull
    requires forall i: nat :: !NodeAt(g, NodeId(lab, key), i)
    ensures var ent := NodeEnt(NodeId(lab, key));
            var ops := [Put(Exists(ent), JBool(true)), Put(PropOf(ent, NaturalKey(lab)), key)];
            Look(WithNode(g, lab, key), c) == RunOps(ops, c, Look(g, c))
  {
    var h := WithNode(g, lab, key);
    var id := NodeId(lab, key);
    RunTwo(Put(Exists(NodeEnt(id)), JBool(true)), Put(PropOf(NodeEnt(id), NaturalKey(lab)), key), c, Look(g, c));
    NewNodeWellFormed(g, lab, key);
    match c.ent
    case EdgeEnt(_, _, _) =>
      EdgesKeepProps(g, h, c.ent);
    case NodeEnt(other) =>
      if other == id {
        PropsOfNode(h, id, |g.nodes|);
      } else if i: nat :| NodeAt(g, other, i) {
        PropsOfNode(g, other, i);
        PropsOfNode(h, other, i);
      } else {
        assert forall i: nat :: NodeAt(h, other, i) ==> i == |g.nodes| || NodeAt(g, other, i);
      }
  }

  // ---- Creating an edge ----

  function WithEdge(g: Graph, kind: Kind, src: nat, dst: nat): Graph {
    g.(edges := g.edges + [Edge(kind, src, dst, map[])])
  }

  lemma NewEdgeWellFormed(g: Graph, ent: Entity, src: nat, dst: nat)
    requires WellFormed(g) && ent.EdgeEnt?
    requires NodeAt(g, ent.src, src) && NodeAt(g, ent.dst, dst)
    requires forall j: nat :: !EdgeAt(g, ent, j)
    ensures var h := WithEdge(g, ent.kind, src, dst);
            WellFormed(h) && Grows(g, h) && EdgeAt(h, ent, |g.edges|)
  {
    var h := WithEdge(g, ent.kind, src, dst);
    forall i, j | 0 <= i < j < |h.edges| ensures !SameEnds(h.edges[i], h.edges[j]) {
      if j == |g.edges| {
        assert !EdgeAt(g, ent, i);
      }
    }
  }

  lemma NewEdgeActs(g: Graph, ent: Entity, src: nat, dst: nat, c: Cell)
    requires WellFormed(g) && ent.EdgeEnt?
    requires NodeAt(g, ent.src, src) && NodeAt(g, ent.dst, dst)
    requires forall j: nat :: !EdgeAt(g, ent, j)
    ensures Look(WithEdge(g, ent.kind, src, dst), c) == RunOps([Put(Exists(ent), JBool(true))], c, Look(g, c))
  {
    var h := WithEdge(g, ent.kind, src, dst);
    NewEdgeWellFormed(g, ent, src, dst);
    match c.ent
    case NodeEnt(id) =>
      NodesKeepProps(g, h, id);
    case EdgeEnt(_, _, _) =>
      if c.ent == ent {
        PropsOfEdge(h, ent, |g.edges|);
      } else if j: nat :| EdgeAt(g, c.ent, j) {
        PropsOfEdge(g, c.ent, j);
        assert EdgeAt(h, c.ent, j);
        PropsOfEdge(h, c.ent, j);
      } else {
        forall j: nat ensures !EdgeAt(h, c.ent, j) {
          assert !EdgeAt(g, c.ent, j);
        }
      }
  }

  // ---- Writing a property ----

  ghost predicate KeepsKey(ent: Entity, p: Prop) {
    ent.NodeEnt? ==> p != NaturalKey(ent.id.lab)
  }

  lemma AssignWellFormed(g: Graph, ref: Ref, ent: Entity, p: Prop, value: Json, coalesce: bool)
    requires WellFormed(g) && Binds(g, ref, ent) && KeepsKey(ent, p)
    ensures WellFormed(Assign(g, ref, p, value, coalesce)) && Grows(g, Assign(g, ref, p, value, coalesce))
  {
    var h := Assign(g, ref, p, value, coalesce);
    if ent.NodeEnt? {
      assert IdOf(h.nodes[ref.i]) == IdOf(g.nodes[ref.i]);
      forall i, j | 0 <= i < j < |h.nodes| ensures IdOf(h.nodes[i]) != IdOf(h.nodes[j]) {
        assert IdOf(h.nodes[i]) == IdOf(g.nodes[i]) && IdOf(h.nodes[j]) == IdOf(g.nodes[j]);
      }
    } else {
      forall i, j | 0 <= i < j < |h.edges| ensures !SameEnds(h.edges[i], h.edges[j]) {
        assert !SameEnds(g.edges[i], g.edges[j]);
      }
    }
  }

  lemma AssignKeepsOthers(g: Graph, ref: Ref, ent: Entity, p: Prop, value: Json, coalesce: bool, other: Entity)
    requires WellFormed(g) && Binds(g, ref, ent) && KeepsKey(ent, p) && other != ent
    ensures PropsOf(Assign(g, ref, p, value, coalesce), other) == PropsOf(g, other)
  {
    var h := Assign(g, ref, p, value, coalesce);
    AssignWellFormed(g, ref, ent, p, value, coalesce);
    match other
    case NodeEnt(id) =>
      if i: nat :| NodeAt(g, id, i) {
        PropsOfNode(g, id, i);
        PropsOfNode(h, id, i);
      } else {
        assert forall i: nat :: NodeAt(h, id, i) ==> NodeAt(g, id, i);
      }
    case EdgeEnt(_, _, _) =>
      EdgeAtGrows(g, h, other);
      if j: nat :| EdgeAt(g, other, j) {
        PropsOfEdge(g, other, j);
        PropsOfEdge(h, other, j);
      }
  }

  lemma AssignActs(g: Graph, ref: Ref, ent: Entity, p: Prop, value: Json, coalesce: bool, c: Cell)
    requires WellFormed(g) && Binds(g, ref, ent) && KeepsKey(ent, p)
    ensures var op := if coalesce then Fill(PropOf(ent, p), value) else Put(PropOf(ent, p), value);
            Look(Assign(g, ref, p, value, coalesce), c) == Apply(op, c, Look(g, c))
  {
    if c.ent != ent {
      AssignKeepsOthers(g, ref, ent, p, value, coalesce, c.ent);
    } else {
      AssignSets(g, ref, ent, p, value, coalesce);
      if c.PropOf? {
        SetThenGet(PropsOf(g, ent).value, p, value, coalesce, c.prop);
      }
    }
  }

  lemma SetThenGet(props: Props, p: Prop, value: Json, coalesce: bool, q: Prop)
    ensures var v := if coalesce && GetProp(props, p) != JNull then GetProp(props, p) else value;
            GetProp(SetProp(props, p, v), q) == if q == p then v else GetProp(props, q)
  {
  }

  lemma AssignSets(g: Graph, ref: Ref, ent: Entity, p: Prop, value: Json, coalesce: bool)
    requires WellFormed(g) && Binds(g, ref, ent) && KeepsKey(ent, p)
    ensures var was := PropsOf(g, ent);
            was.Some? && PropsOf(Assign(g, ref, p, value, coalesce), ent) ==
            Some(SetProp(was.value, p, if coalesce && GetProp(was.value, p) != JNull then GetProp(was.value, p) else value))
  {
    var h := Assign(g, ref, p, value, coalesce);
    AssignWellFormed(g, ref, ent, p, value, coalesce);
    if ent.NodeEnt? {
      PropsOfNode(g, ent.id, ref.i);
      PropsOfNode(h, ent.id, ref.i);
    } else {
      PropsOfEdge(g, ent, ref.j);
      EdgeAtGrows(g, h, ent);
      PropsOfEdge(h, ent, ref.j);
    }
  }

  // ---- Clauses, statements, statement lists ----

  lemma OneNodeMatches(g: Graph, id: NodeId, i: nat)
    requires WellFormed(g) && NodeAt(g, id, i)
    ensures NodesMatching(g.nodes, id.lab, id.key) == [i]
  {
    var m := NodesMatching(g.nodes, id.lab, id.key);
    assert IsNode(g.nodes[i], id.lab, id.key);
    forall a | 0 <= a < |m| ensures m[a] == i {
      assert NodeAt(g, id, m[a]);
      NodeUnique(g, id, m[a], i);
    }
    assert m[0] == m[|m| - 1];
  }

  lemma OneEdgeMatches(g: Graph, ent: Entity, src: nat, dst: nat, j: nat)
    requires WellFormed(g) && ent.EdgeEnt? && EdgeAt(g, ent, j)
    requires NodeAt(g, ent.src, src) && NodeAt(g, ent.dst, dst)
    ensures EdgesMatching(g.edges, ent.kind, src, dst) == [j]
  {
    var m := EdgesMatching(g.edges, ent.kind, src, dst);
    NodeUnique(g, ent.src, g.edges[j].src, src);
    NodeUnique(g, ent.dst, g.edges[j].dst, dst);
    assert IsEdge(g.edges[j], ent.kind, src, dst);
    forall a | 0 <= a < |m| ensures m[a] == j {
      assert EdgeAt(g, ent, m[a]);
      EdgeUnique(g, ent, m[a], j);
    }
    assert m[0] == m[|m| - 1];
  }

  /** The outcome of a clause on a row that binds what the text names: one row goes on. */
  ghost predicate Refines(g: Graph, t: Table, ops: seq<CellOp>, names: Names) {
    WellFormed(t.g) && Grows(g, t.g) && Acts(g, t.g, ops) && |t.rows| == 1 && Matches(t.g, t.rows[0], names)
  }

  lemma MatchesExtended(g: Graph, h: Graph, row: Row, names: Names, v: Var, ref: Ref, ent: Entity)
    requires WellFormed(g) && Grows(g, h) && Matches(g, row, names) && Binds(h, ref, ent)
    ensures Matches(h, row[v := ref], names[v := ent])
  {
    var row', names' := row[v := ref], names[v := ent];
    forall w | w in names' ensures Binds(h, row'[w], names'[w]) {
      if w != v {
        GrowsBinds(g, h, row[w], names[w]);
      }
    }
  }

  lemma MergeNodeRefines(g: Graph, row: Row, c: Clause, names: Names)
    requires WellFormed(g) && Matches(g, row, names) && c.MergeNode? && Typed(c, names)
    ensures Refines(g, ExecRow(g, row, c), OpsOf(c, names), NamesAfter(c, names))
  {
    var id := NodeId(c.lab, c.key);
    var t := ExecRow(g, row, c);
    if i: nat :| NodeAt(g, id, i) {
      OneNodeMatches(g, id, i);
      PropsOfNode(g, id, i);
      MatchesExtended(g, g, row, names, c.v, NodeRef(i), NodeEnt(id));
      forall cell ensures Look(g, cell) == RunOps(OpsOf(c, names), cell, Look(g, cell)) {
        RunTwo(OpsOf(c, names)[0], OpsOf(c, names)[1], cell, Look(g, cell));
      }
    } else {
      NoNodeAtMatches(g, id);
      NewNodeWellFormed(g, c.lab, c.key);
      MatchesExtended(g, t.g, row, names, c.v, NodeRef(|g.nodes|), NodeEnt(id));
      forall cell ensures Look(t.g, cell) == RunOps(OpsOf(c, names), cell, Look(g, cell)) {
        NewNodeActs(g, c.lab, c.key, cell);
      }
    }
  }

  lemma NoNodeAtMatches(g: Graph, id: NodeId)
    requires forall i: nat :: !NodeAt(g, id, i)
    ensures NodesMatching(g.nodes, id.lab, id.key) == []
  {
    var m := NodesMatching(g.nodes, id.lab, id.key);
    if m != [] {
      assert NodeAt(g, id, m[0]);
    }
  }

  lemma MatchNodeRefines(g: Graph, row: Row, c: Clause, names: Names)
    requires WellFormed(g) && Matches(g, row, names) && c.MatchNode? && Typed(c, names)
    requires Look(g, Exists(NodeEnt(NodeId(c.lab, c.key)))) != JNull
    ensures Refines(g, ExecRow(g, row, c), OpsOf(c, names), NamesAfter(c, names))
  {
    var id := NodeId(c.lab, c.key);
    var i: nat :| NodeAt(g, id, i);
    OneNodeMatches(g, id, i);
    MatchesExtended(g, g, row, names, c.v, NodeRef(i), NodeEnt(id));
  }

  lemma MergeEdgeRefines(g: Graph, row: Row, c: Clause, names: Names)
    requires WellFormed(g) && Matches(g, row, names) && c.MergeEdge? && Typed(c, names)
    ensures Refines(g, ExecRow(g, row, c), OpsOf(c, names), NamesAfter(c, names))
  {
    var ent := EdgeEnt(c.kind, names[c.src].id, names[c.dst].id);
    assert Binds(g, row[c.src], names[c.src]) && Binds(g, row[c.dst], names[c.dst]);
    var src, dst := row[c.src].i, row[c.dst].i;
    var t := ExecRow(g, row, c);
    if j: nat :| EdgeAt(g, ent, j) {
      OneEdgeMatches(g, ent, src, dst, j);
      PropsOfEdge(g, ent, j);
      MatchesExtended(g, g, row, names, c.v, EdgeRef(j), ent);
      forall cell ensures Look(g, cell) == RunOps(OpsOf(c, names), cell, Look(g, cell)) {
        RunOne(OpsOf(c, names)[0], cell, Look(g, cell));
      }
    } else {
      NoEdgeAtMatches(g, ent, src, dst);
      NewEdgeWellFormed(g, ent, src, dst);
      assert t.g == WithEdge(g, c.kind, src, dst);
      MatchesExtended(g, t.g, row, names, c.v, EdgeRef(|g.edges|), ent);
      forall cell ensures Look(t.g, cell) == RunOps(OpsOf(c, names), cell, Look(g, cell)) {
        NewEdgeActs(g, ent, src, dst, cell);
      }
    }
  }

  lemma NoEdgeAtMatches(g: Graph, ent: Entity, src: nat, dst: nat)
    requires ent.EdgeEnt? && NodeAt(g, ent.src, src) && NodeAt(g, ent.dst, dst)
    requires forall j: nat :: !EdgeAt(g, ent, j)
    ensures EdgesMatching(g.edges, ent.kind, src, dst) == []
  {
    var m := EdgesMatching(g.edges, ent.kind, src, dst);
    if m != [] {
      assert EdgeAt(g, ent, m[0]);
    }
  }

  lemma SetRefines(g: Graph, row: Row, c: Clause, names: Names)
    requires WellFormed(g) && Matches(g, row, names) && (c.SetTo? || c.SetCoalesce?) && Typed(c, names)
    ensures Refines(g, ExecRow(g, row, c), OpsOf(c, names), NamesAfter(c, names))
  {
    var ent, ref := names[c.v], row[c.v];
    assert Binds(g, ref, ent);
    var h := Assign(g, ref, c.prop, c.value, c.SetCoalesce?);
    AssignWellFormed(g, ref, ent, c.prop, c.value, c.SetCoalesce?);
    forall w | w in names ensures Binds(h, row[w], names[w]) {
      GrowsBinds(g, h, row[w], names[w]);
    }
    forall cell ensures Look(h, cell) == RunOps(OpsOf(c, names), cell, Look(g, cell)) {
      AssignActs(g, ref, ent, c.prop, c.value, c.SetCoalesce?, cell);
      RunOne(OpsOf(c, names)[0], cell, Look(g, cell));
    }
  }

  lemma ClauseRefines(g: Graph, row: Row, c: Clause, names: Names)
    requires WellFormed(g) && Matches(g, row, names) && Typed(c, names)
    requires c.MatchNode? ==> Look(g, Exists(NodeEnt(NodeId(c.lab, c.key)))) != JNull
    ensures Refines(g, ExecClause(Table(g, [row]), c), OpsOf(c, names), NamesAfter(c, names))
  {
    var t := ExecRow(g, row, c);
    assert [row][1..] == [];
    assert t.rows + [] == t.rows;
    match c
    case MergeNode(_, _, _) => MergeNodeRefines(g, row, c, names);
    case MatchNode(_, _, _) => MatchNodeRefines(g, row, c, names);
    case MergeEdge(_, _, _, _) => MergeEdgeRefines(g, row, c, names);
    case _ => SetRefines(g, row, c, names);
  }

  ghost predicate HasAll(g: Graph, known: set<NodeId>) {
    forall id :: id in known ==> Look(g, Exists(NodeEnt(id))) != JNull
  }

  lemma GrowsHasAll(g: Graph, h: Graph, known: set<NodeId>)
    requires WellFormed(g) && Grows(g, h) && HasAll(g, known)
    ensures HasAll(h, known)
  {
    forall id | id in known ensures Look(h, Exists(NodeEnt(id))) != JNull {
      var i: nat :| NodeAt(g, id, i);
      assert NodeAt(h, id, i);
    }
  }

  lemma ActsCompose(f: Graph, g: Graph, h: Graph, a: seq<CellOp>, b: seq<CellOp>)
    requires Acts(f, g, a) && Acts(g, h, b)
    ensures Acts(f, h, a + b)
  {
    forall c ensures Look(h, c) == RunOps(a + b, c, Look(f, c)) {
      RunOpsConcat(a, b, c, Look(f, c));
    }
  }

  lemma KnownAfterClause(g: Graph, row: Row, c: Clause, names: Names, known: set<NodeId>)
    requires WellFormed(g) && Matches(g, row, names) && Typed(c, names) && HasAll(g, known)
    requires c.MatchNode? ==> NodeId(c.lab, c.key) in known
    ensures HasAll(ExecClause(Table(g, [row]), c).g, known + Merged(c))
  {
    ClauseRefines(g, row, c, names);
    var h := ExecClause(Table(g, [row]), c).g;
    GrowsHasAll(g, h, known);
    if c.MergeNode? {
      var ops := OpsOf(c, names);
      RunTwo(ops[0], ops[1], ops[0].cell, Look(g, ops[0].cell));
      assert Look(h, ops[0].cell) == RunOps(ops, ops[0].cell, Look(g, ops[0].cell));
    }
  }

  function MergedIn(cs: seq<Clause>): set<NodeId> {
    if cs == [] then {} else Merged(cs[0]) + MergedIn(cs[1..])
  }

  lemma {:induction false} ClausesRefine(g: Graph, row: Row, cs: seq<Clause>, names: Names, known: set<NodeId>)
    requires WellFormed(g) && Matches(g, row, names) && TypedAll(cs, names) && Supplied(cs, known) && HasAll(g, known)
    ensures var h := ExecClauses(Table(g, [row]), cs).g;
            WellFormed(h) && Grows(g, h) && Acts(g, h, OpsOfAll(cs, names)) && HasAll(h, known + MergedIn(cs))
    decreases |cs|
  {
    if cs == [] {
      assert known + MergedIn(cs) == known;
    } else {
      var c := cs[0];
      ClauseRefines(g, row, c, names);
      KnownAfterClause(g, row, c, names, known);
      var t := ExecClause(Table(g, [row]), c);
      assert t == Table(t.g, [t.rows[0]]);
      ClausesRefine(t.g, t.rows[0], cs[1..], NamesAfter(c, names), known + Merged(c));
      var h := ExecClauses(t, cs[1..]).g;
      GrowsTransitive(g, t.g, h);
      ActsCompose(g, t.g, h, OpsOf(c, names), OpsOfAll(cs[1..], NamesAfter(c, names)));
      assert known + Merged(c) + MergedIn(cs[1..]) == known + MergedIn(cs);
    }
  }

  /** Statements that are typed, and whose MATCHes name nodes merged before them. */
  predicate SoundStmts(stmts: seq<Stmt>, known: set<NodeId>) {
    stmts == [] ||
    (TypedAll(stmts[0], map[]) && Supplied(stmts[0], known) &&
     SoundStmts(stmts[1..], known + MergedIn(stmts[0])))
  }

  function OpsOfStmts(stmts: seq<Stmt>): seq<CellOp>
    requires forall i :: 0 <= i < |stmts| ==> TypedAll(stmts[i], map[])
  {
    if stmts == [] then [] else OpsOfAll(stmts[0], map[]) + OpsOfStmts(stmts[1..])
  }

  lemma {:induction false} SoundAreTyped(stmts: seq<Stmt>, known: set<NodeId>)
    requires SoundStmts(stmts, known)
    ensures forall i :: 0 <= i < |stmts| ==> TypedAll(stmts[i], map[])
  {
    if stmts != [] {
      SoundAreTyped(stmts[1..], known + MergedIn(stmts[0]));
      forall i | 0 <= i < |stmts| ensures TypedAll(stmts[i], map[]) {
        if i > 0 {
          assert stmts[i] == stmts[1..][i - 1];
        }
      }
    }
  }

  /** Main refinement: on any duplicate-free graph, running the statements leaves a duplicate-free
      graph in which every register holds what its own operations make of its old value. */
  lemma {:induction false} StmtsRefine(g: Graph, stmts: seq<Stmt>, known: set<NodeId>)
    requires WellFormed(g) && SoundStmts(stmts, known) && HasAll(g, known)
    requires forall i :: 0 <= i < |stmts| ==> TypedAll(stmts[i], map[])
    ensures var h := ExecStmts(g, stmts);
            WellFormed(h) && Grows(g, h) && Acts(g, h, OpsOfStmts(stmts))
    decreases |stmts|
  {
    if stmts != [] {
      ClausesRefine(g, map[], stmts[0], map[], known);
      var m := ExecStmt(g, stmts[0]);
      StmtsRefine(m, stmts[1..], known + MergedIn(stmts[0]));
      var h := ExecStmts(m, stmts[1..]);
      GrowsTransitive(g, m, h);
      ActsCompose(g, m, h, OpsOfAll(stmts[0], map[]), OpsOfStmts(stmts[1..]));
    }
  }
}
