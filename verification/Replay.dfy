/** Replaying any suffix of the log onto the graph it produced leaves that graph unchanged. */
module Replay {
  import opened Payloads
  import opened Cypher
  import opened Registers
  import opened Refinement
  import opened Mappers
  import opened Projection

  lemma RunsAreSound(env: Env, ev: Event)
    requires OutcomeOf(env, ev).Runs?
    ensures SoundStmts(OutcomeOf(env, ev).stmts, {})
    ensures forall i :: 0 <= i < |OutcomeOf(env, ev).stmts| ==> TypedAll(OutcomeOf(env, ev).stmts[i], map[])
  {
    MappersSound(env, GetMapper(ev.exchange).value, ev.payload);
    SoundAreTyped(OutcomeOf(env, ev).stmts, {});
  }

  /** The register operations of one event, read off the event alone. */
  function OpsOfEvent(env: Env, ev: Event): seq<CellOp> {
    var o := OutcomeOf(env, ev);
    if o.Runs? then
      RunsAreSound(env, ev);
      OpsOfStmts(o.stmts)
    else []
  }

  function OpsOfLog(env: Env, evs: seq<Event>): seq<CellOp> {
    if evs == [] then [] else OpsOfEvent(env, evs[0]) + OpsOfLog(env, evs[1..])
  }

  lemma ProjectRefines(env: Env, g: Graph, ev: Event)
    requires WellFormed(g)
    ensures var h := Project(env, g, ev);
            WellFormed(h) && Grows(g, h) && Acts(g, h, OpsOfEvent(env, ev))
  {
    var o := OutcomeOf(env, ev);
    if o.Runs? {
      RunsAreSound(env, ev);
      StmtsRefine(g, o.stmts, {});
    }
  }

  /** The list graph refines the registers over every log: it stays free of duplicates, and each
      register ends as the fold of the log's own operations on it. */
  lemma {:induction false} ProjectAllRefines(env: Env, g: Graph, evs: seq<Event>)
    requires WellFormed(g)
    ensures var h := ProjectAll(env, g, evs);
            WellFormed(h) && Grows(g, h) && Acts(g, h, OpsOfLog(env, evs))
    decreases |evs|
  {
    if evs != [] {
      ProjectRefines(env, g, evs[0]);
      var m := Project(env, g, evs[0]);
      ProjectAllRefines(env, m, evs[1..]);
      var h := ProjectAll(env, m, evs[1..]);
      GrowsTransitive(g, m, h);
      ActsCompose(g, m, h, OpsOfEvent(env, evs[0]), OpsOfLog(env, evs[1..]));
    }
  }

  // ---- Folding a list of operations twice is folding it once ----

  predicate Overwrites(ops: seq<CellOp>, c: Cell) {
    exists i :: 0 <= i < |ops| && ops[i].Put? && ops[i].cell == c
  }

  lemma {:induction false} OverwrittenForgets(ops: seq<CellOp>, c: Cell, x: Json, y: Json)
    requires Overwrites(ops, c)
    ensures RunOps(ops, c, x) == RunOps(ops, c, y)
  {
    if !(ops[0].Put? && ops[0].cell == c) {
      var i :| 0 <= i < |ops| && ops[i].Put? && ops[i].cell == c;
      assert ops[1..][i - 1] == ops[i];
      OverwrittenForgets(ops[1..], c, Apply(ops[0], c, x), Apply(ops[0], c, y));
    }
  }

  lemma {:induction false} FilledStays(ops: seq<CellOp>, c: Cell, x: Json)
    requires !Overwrites(ops, c) && x != JNull
    ensures RunOps(ops, c, x) == x
  {
    if ops != [] {
      assert !(ops[0].Put? && ops[0].cell == c);
      assert forall i :: 0 <= i < |ops[1..]| ==> ops[1..][i] == ops[i + 1];
      FilledStays(ops[1..], c, x);
    }
  }

  /** Holds although the operations do not commute and mix overwriting with coalescing. */
  lemma RunOpsIdempotent(ops: seq<CellOp>, c: Cell, x: Json)
    ensures RunOps(ops, c, RunOps(ops, c, x)) == RunOps(ops, c, x)
  {
    var y := RunOps(ops, c, x);
    if Overwrites(ops, c) {
      OverwrittenForgets(ops, c, y, x);
    } else if y != JNull {
      FilledStays(ops, c, y);
    } else if x != JNull {
      FilledStays(ops, c, x);
    }
  }

  // ---- Registers determine the list graph ----

  lemma CreatedNodeIsNew(g: Graph, h: Graph, i: nat)
    requires WellFormed(h) && Grows(g, h) && |g.nodes| <= i < |h.nodes|
    ensures var c := Exists(NodeEnt(IdOf(h.nodes[i]))); Look(h, c) != Look(g, c)
  {
    var id := IdOf(h.nodes[i]);
    assert NodeAt(h, id, i);
    forall k: nat ensures !NodeAt(g, id, k) {
      assert k < |g.nodes| ==> IdOf(h.nodes[k]) != IdOf(h.nodes[i]);
    }
  }

  lemma CreatedEdgeIsNew(g: Graph, h: Graph, j: nat)
    requires WellFormed(h) && Grows(g, h) && |g.edges| <= j < |h.edges|
    ensures exists c :: Look(h, c) != Look(g, c)
  {
    var e := h.edges[j];
    var ent := EdgeEnt(e.kind, IdOf(h.nodes[e.src]), IdOf(h.nodes[e.dst]));
    assert EdgeAt(h, ent, j);
    forall k: nat ensures !EdgeAt(g, ent, k) {
      if EdgeAt(g, ent, k) {
        assert SameEnds(h.edges[k], g.edges[k]);
        EdgeUnique(h, ent, k, j);
      }
    }
    assert Look(h, Exists(ent)) != Look(g, Exists(ent));
  }

  lemma SameLengths(g: Graph, h: Graph)
    requires WellFormed(h) && Grows(g, h)
    requires forall c :: Look(h, c) == Look(g, c)
    ensures |h.nodes| == |g.nodes| && |h.edges| == |g.edges|
  {
    if |h.nodes| > |g.nodes| {
      CreatedNodeIsNew(g, h, |g.nodes|);
    }
    if |h.edges| > |g.edges| {
      CreatedEdgeIsNew(g, h, |g.edges|);
    }
  }

  lemma SameProperties(p: Props, q: Props)
    requires NoNulls(p) && NoNulls(q) && forall k :: GetProp(p, k) == GetProp(q, k)
    ensures p == q
  {
    forall k ensures k in p <==> k in q {
      assert GetProp(p, k) == GetProp(q, k);
    }
    assert forall k :: k in p ==> p[k] == GetProp(p, k) == GetProp(q, k) == q[k];
  }

  lemma RegistersDetermineGraph(g: Graph, h: Graph)
    requires WellFormed(g) && WellFormed(h) && Grows(g, h)
    requires forall c :: Look(h, c) == Look(g, c)
    ensures h == g
  {
    SameLengths(g, h);
    forall i | 0 <= i < |g.nodes| ensures h.nodes[i] == g.nodes[i] {
      var id := IdOf(g.nodes[i]);
      assert NodeAt(g, id, i) && NodeAt(h, id, i);
      PropsOfNode(g, id, i);
      PropsOfNode(h, id, i);
      forall k ensures GetProp(g.nodes[i].props, k) == GetProp(h.nodes[i].props, k) {
        assert Look(h, PropOf(NodeEnt(id), k)) == Look(g, PropOf(NodeEnt(id), k));
      }
      SameProperties(g.nodes[i].props, h.nodes[i].props);
    }
    forall j | 0 <= j < |g.edges| ensures h.edges[j] == g.edges[j] {
      var e := g.edges[j];
      var ent := EdgeEnt(e.kind, IdOf(g.nodes[e.src]), IdOf(g.nodes[e.dst]));
      assert SameEnds(h.edges[j], g.edges[j]);
      assert EdgeAt(g, ent, j) && EdgeAt(h, ent, j);
      PropsOfEdge(g, ent, j);
      PropsOfEdge(h, ent, j);
      forall k ensures GetProp(e.props, k) == GetProp(h.edges[j].props, k) {
        assert Look(h, PropOf(ent, k)) == Look(g, PropOf(ent, k));
      }
      SameProperties(e.props, h.edges[j].props);
    }
  }

  // ---- The theorems ----

  /** Projecting a list of events again changes nothing, not even the order of the lists. */
  lemma ReplayIdempotent(env: Env, g: Graph, evs: seq<Event>)
    requires WellFormed(g)
    ensures var h := ProjectAll(env, g, evs); ProjectAll(env, h, evs) == h
  {
    var h := ProjectAll(env, g, evs);
    ProjectAllRefines(env, g, evs);
    ProjectAllRefines(env, h, evs);
    var ops := OpsOfLog(env, evs);
    var k := ProjectAll(env, h, evs);
    forall c ensures Look(k, c) == Look(h, c) {
      RunOpsIdempotent(ops, c, Look(g, c));
      assert Look(k, c) == RunOps(ops, c, Look(h, c));
      assert Look(h, c) == RunOps(ops, c, Look(g, c));
    }
    RegistersDetermineGraph(h, k);
  }

  /** Replaying the log from any row on restores the graph of the whole log. */
  lemma ReplayFromRestores(env: Env, g: Graph, log: seq<Event>, k: nat)
    requires WellFormed(g) && k <= |log|
    ensures ProjectAll(env, ProjectAll(env, g, log), log[k..]) == ProjectAll(env, g, log)
  {
    assert log == log[..k] + log[k..];
    ProjectConcat(env, g, log[..k], log[k..]);
    ProjectAllRefines(env, g, log[..k]);
    ReplayIdempotent(env, ProjectAll(env, g, log[..k]), log[k..]);
  }
}
