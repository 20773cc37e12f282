/** Ingest, projector and replay interleaved: arrivals, fetched batches, rows processed one by one,
    crashes between rows, and `replay_from` at any moment. */
module Pipeline {
  import opened Payloads
  import opened Cypher
  import opened Registers
  import opened Refinement
  import opened Mappers
  import opened Projection
  import opened Replay
  import opened Projector
  import Ingest

  /** `inflight`: ids the worker has fetched and not yet processed. */
  datatype Pipe = Pipe(rows: seq<LogRow>, graph: Graph, inflight: seq<nat>)

  datatype Step =
    | Arrives(ev: Event)
    | Fetches(limit: nat)
    | ProcessesNext
    | Crashes
    | ReplaysFrom(k: nat)

  function Next(env: Env, s: Pipe, step: Step): Pipe {
    match step
    case Arrives(ev) => s.(rows := s.rows + [LogRow(ev, Pending)])
    case Fetches(limit) => if s.inflight == [] then s.(inflight := FirstPending(s.rows, limit)) else s
    case ProcessesNext =>
      if s.inflight == [] || s.inflight[0] >= |s.rows| then s
      else
        var id := s.inflight[0];
        Pipe(s.rows[id := Settle(env, s.rows[id])], Project(env, s.graph, s.rows[id].event), s.inflight[1..])
    case Crashes => s.(inflight := [])
    case ReplaysFrom(k) => s.(rows := Replayed(s.rows, k))
  }

  /** A replay is in order when no batch is in flight, or it starts at or after the batch. */
  predicate InOrder(s: Pipe, step: Step) {
    step.ReplaysFrom? ==> s.inflight == [] || step.k >= s.inflight[0]
  }

  predicate AllInOrder(env: Env, s: Pipe, steps: seq<Step>)
    decreases |steps|
  {
    steps == [] || (InOrder(s, steps[0]) && AllInOrder(env, Next(env, s, steps[0]), steps[1..]))
  }

  function Run(env: Env, s: Pipe, steps: seq<Step>): Pipe
    decreases |steps|
  {
    if steps == [] then s else Run(env, Next(env, s, steps[0]), steps[1..])
  }

  function Events(rows: seq<LogRow>): seq<Event> {
    seq(|rows|, i requires 0 <= i < |rows| => rows[i].event)
  }

  /** Same nodes, edges and properties; a graph store promises no order of its lists. */
  ghost predicate SameContents(g: Graph, h: Graph) {
    WellFormed(g) && WellFormed(h) && forall c :: Look(g, c) == Look(h, c)
  }

  // ---- The invariant ----

  function RunLog(env: Env, evs: seq<Event>, c: Cell, x: Json): Json {
    RunOps(OpsOfLog(env, evs), c, x)
  }

  ghost predicate Restores(env: Env, g0: Graph, evs: seq<Event>, graph: Graph, k: nat)
    requires k <= |evs|
  {
    forall c :: RunLog(env, evs[k..], c, Look(graph, c)) == RunLog(env, evs, c, Look(g0, c))
  }

  /** Rows below `p` are done, the others pending; the batch in flight starts at `p`; and running the
      log from any row up to `p` over the present graph gives the graph of the whole log. */
  ghost predicate Inv(env: Env, g0: Graph, s: Pipe, p: nat) {
    && p <= |s.rows|
    && (forall i :: 0 <= i < |s.rows| ==> (s.rows[i].status == Pending <==> i >= p))
    && p + |s.inflight| <= |s.rows|
    && (forall a :: 0 <= a < |s.inflight| ==> s.inflight[a] == p + a)
    && WellFormed(s.graph)
    && (forall k :: 0 <= k <= p ==> Restores(env, g0, Events(s.rows), s.graph, k))
  }

  lemma {:induction false} OpsOfLogConcat(env: Env, a: seq<Event>, b: seq<Event>)
    ensures OpsOfLog(env, a + b) == OpsOfLog(env, a) + OpsOfLog(env, b)
  {
    if a == [] {
      assert a + b == b;
    } else {
      assert (a + b)[1..] == a[1..] + b;
      OpsOfLogConcat(env, a[1..], b);
    }
  }

  lemma RunLogConcat(env: Env, a: seq<Event>, b: seq<Event>, c: Cell, x: Json)
    ensures RunLog(env, a + b, c, x) == RunLog(env, b, c, RunLog(env, a, c, x))
  {
    OpsOfLogConcat(env, a, b);
    RunOpsConcat(OpsOfLog(env, a), OpsOfLog(env, b), c, x);
  }

  lemma OverwritesConcat(a: seq<CellOp>, b: seq<CellOp>, c: Cell)
    ensures Overwrites(a + b, c) <==> Overwrites(a, c) || Overwrites(b, c)
  {
    if i :| 0 <= i < |a| && a[i].Put? && a[i].cell == c {
      assert (a + b)[i] == a[i];
    }
    if i :| 0 <= i < |b| && b[i].Put? && b[i].cell == c {
      assert (a + b)[|a| + i] == b[i];
    }
  }

  /** Running `e` early does not disturb a later run of `a + e + r`, given that both `e + r` and
      `a + e + r` lead to the same value from `x`. */
  lemma Absorbs(a: seq<CellOp>, e: seq<CellOp>, r: seq<CellOp>, c: Cell, x: Json)
    requires RunOps(a + (e + r), c, x) == RunOps(e + r, c, x)
    ensures RunOps(a + (e + r), c, RunOps(e, c, x)) == RunOps(e + r, c, x)
  {
    var all, y := a + (e + r), RunOps(e, c, x);
    OverwritesConcat(a, e + r, c);
    OverwritesConcat(e, r, c);
    RunOpsConcat(e, r, c, x);
    if Overwrites(all, c) {
      OverwrittenForgets(all, c, x, y);
    } else if x != JNull {
      FilledStays(e, c, x);
    } else if y != JNull {
      FilledStays(all, c, y);
      FilledStays(r, c, y);
    }
  }

  lemma RestoresAfterRow(env: Env, g0: Graph, evs: seq<Event>, graph: Graph, p: nat, k: nat)
    requires WellFormed(graph) && p < |evs| && k <= p + 1
    requires Restores(env, g0, evs, graph, p) && (k <= p ==> Restores(env, g0, evs, graph, k))
    ensures Restores(env, g0, evs, Project(env, graph, evs[p]), k)
  {
    var h := Project(env, graph, evs[p]);
    ProjectRefines(env, graph, evs[p]);
    var e, r := OpsOfEvent(env, evs[p]), OpsOfLog(env, evs[p + 1..]);
    assert evs[p..][1..] == evs[p + 1..];
    forall c ensures RunLog(env, evs[k..], c, Look(h, c)) == RunLog(env, evs, c, Look(g0, c)) {
      var x := Look(graph, c);
      assert Look(h, c) == RunOps(e, c, x);
      assert RunLog(env, evs[p..], c, x) == RunLog(env, evs, c, Look(g0, c));
      if k == p + 1 {
        RunOpsConcat(e, r, c, x);
      } else {
        OpsFrom(env, evs, k, p);
        assert RunLog(env, evs[k..], c, x) == RunLog(env, evs, c, Look(g0, c));
        Absorbs(OpsOfLog(env, evs[k..p]), e, r, c, x);
      }
    }
  }

  lemma OpsFrom(env: Env, evs: seq<Event>, k: nat, p: nat)
    requires k <= p < |evs|
    ensures OpsOfLog(env, evs[k..]) ==
            OpsOfLog(env, evs[k..p]) + (OpsOfEvent(env, evs[p]) + OpsOfLog(env, evs[p + 1..]))
  {
    assert evs[k..] == evs[k..p] + evs[p..] && evs[p..][1..] == evs[p + 1..];
    OpsOfLogConcat(env, evs[k..p], evs[p..]);
  }

  lemma RestoresAfterArrival(env: Env, g0: Graph, evs: seq<Event>, graph: Graph, k: nat, ev: Event)
    requires k <= |evs| && Restores(env, g0, evs, graph, k)
    ensures Restores(env, g0, evs + [ev], graph, k)
  {
    assert (evs + [ev])[k..] == evs[k..] + [ev];
    forall c ensures RunLog(env, (evs + [ev])[k..], c, Look(graph, c)) == RunLog(env, evs + [ev], c, Look(g0, c)) {
      RunLogConcat(env, evs[k..], [ev], c, Look(graph, c));
      RunLogConcat(env, evs, [ev], c, Look(g0, c));
    }
  }

  // ---- Every step keeps it ----

  lemma ArrivesKeeps(env: Env, g0: Graph, s: Pipe, p: nat, ev: Event)
    requires Inv(env, g0, s, p)
    ensures Inv(env, g0, Next(env, s, Arrives(ev)), p)
  {
    var t := Next(env, s, Arrives(ev));
    assert Events(t.rows) == Events(s.rows) + [ev];
    forall k | 0 <= k <= p ensures Restores(env, g0, Events(t.rows), t.graph, k) {
      RestoresAfterArrival(env, g0, Events(s.rows), s.graph, k, ev);
    }
  }

  lemma FetchesKeeps(env: Env, g0: Graph, s: Pipe, p: nat, limit: nat)
    requires Inv(env, g0, s, p)
    ensures Inv(env, g0, Next(env, s, Fetches(limit)), p)
  {
    PendingRange(s.rows, p);
  }

  /** When exactly the rows from `p` on are pending, their ids are p, p + 1, and so on. */
  lemma {:induction false} PendingRange(rows: seq<LogRow>, p: nat)
    requires p <= |rows| && forall i :: 0 <= i < |rows| ==> (rows[i].status == Pending <==> i >= p)
    ensures |PendingIds(rows)| == |rows| - p
    ensures forall a :: 0 <= a < |rows| - p ==> PendingIds(rows)[a] == p + a
    ensures PendingEvents(rows) == Events(rows)[p..]
  {
    if rows != [] {
      var n := |rows| - 1;
      var before := rows[..n];
      if p <= n {
        PendingRange(before, p);
        assert Events(rows) == Events(before) + [rows[n].event];
      } else {
        PendingRange(before, n);
        assert Events(rows)[p..] == [];
      }
    }
  }

  lemma ProcessKeeps(env: Env, g0: Graph, s: Pipe, p: nat)
    requires Inv(env, g0, s, p) && s.inflight != []
    ensures Inv(env, g0, Next(env, s, ProcessesNext), p + 1)
  {
    var t := Next(env, s, ProcessesNext);
    var evs := Events(s.rows);
    assert s.inflight[0] == p;
    assert Events(t.rows) == evs;
    ProjectRefines(env, s.graph, s.rows[p].event);
    forall k | 0 <= k <= p + 1 ensures Restores(env, g0, evs, t.graph, k) {
      assert Restores(env, g0, evs, s.graph, p);
      RestoresAfterRow(env, g0, evs, s.graph, p, k);
    }
  }

  lemma ReplayKeeps(env: Env, g0: Graph, s: Pipe, p: nat, k: nat)
    requires Inv(env, g0, s, p) && InOrder(s, ReplaysFrom(k))
    ensures Inv(env, g0, Next(env, s, ReplaysFrom(k)), if s.inflight == [] then Min(k, p) else p)
  {
    var t := Next(env, s, ReplaysFrom(k));
    assert Events(t.rows) == Events(s.rows);
    if s.inflight != [] {
      assert s.inflight[0] == p;
      assert t.rows == s.rows;
    }
  }

  lemma StepKeeps(env: Env, g0: Graph, s: Pipe, p: nat, step: Step)
    requires Inv(env, g0, s, p) && InOrder(s, step)
    ensures exists q :: Inv(env, g0, Next(env, s, step), q)
  {
    match step
    case Arrives(ev) => ArrivesKeeps(env, g0, s, p, ev);
    case Fetches(limit) => FetchesKeeps(env, g0, s, p, limit);
    case ProcessesNext =>
      if s.inflight != [] {
        ProcessKeeps(env, g0, s, p);
      } else {
        assert Inv(env, g0, Next(env, s, step), p);
      }
    case Crashes => assert Inv(env, g0, Next(env, s, step), p);
    case ReplaysFrom(k) => ReplayKeeps(env, g0, s, p, k);
  }

  lemma {:induction false} RunKeeps(env: Env, g0: Graph, s: Pipe, p: nat, steps: seq<Step>)
    requires Inv(env, g0, s, p) && AllInOrder(env, s, steps)
    ensures exists q :: Inv(env, g0, Run(env, s, steps), q)
    decreases |steps|
  {
    if steps == [] {
      assert Inv(env, g0, Run(env, s, steps), p);
    } else {
      StepKeeps(env, g0, s, p, steps[0]);
      var q :| Inv(env, g0, Next(env, s, steps[0]), q);
      RunKeeps(env, g0, Next(env, s, steps[0]), q, steps[1..]);
      assert Run(env, s, steps) == Run(env, Next(env, s, steps[0]), steps[1..]);
    }
  }

  /** End to end: after any run in which replays do not cut into a batch, once no row is pending the
      graph is the in-order fold of the whole log, whatever was fetched, replayed or lost to crashes. */
  lemma DrainedIsFold(env: Env, g0: Graph, steps: seq<Step>)
    requires WellFormed(g0) && AllInOrder(env, Pipe([], g0, []), steps)
    ensures var s := Run(env, Pipe([], g0, []), steps);
            (forall i :: 0 <= i < |s.rows| ==> s.rows[i].status != Pending) ==>
            SameContents(s.graph, ProjectAll(env, g0, Events(s.rows)))
  {
    var s0 := Pipe([], g0, []);
    var s := Run(env, s0, steps);
    assert Restores(env, g0, Events([]), g0, 0) by {
      assert Events([])[0..] == Events([]);
    }
    RunKeeps(env, g0, s0, 0, steps);
    var p: nat :| Inv(env, g0, s, p);
    var evs := Events(s.rows);
    ProjectAllRefines(env, g0, evs);
    assert p < |s.rows| ==> s.rows[p].status == Pending;
    if forall i :: 0 <= i < |s.rows| ==> s.rows[i].status != Pending {
      assert Restores(env, g0, evs, s.graph, p);
      assert evs[p..] == [];
      forall c ensures Look(s.graph, c) == Look(ProjectAll(env, g0, evs), c) {
        assert RunLog(env, evs[p..], c, Look(s.graph, c)) == RunLog(env, evs, c, Look(g0, c));
      }
    }
  }

  function Arrived(steps: seq<Step>): seq<Event> {
    if steps == [] then []
    else (if steps[0].Arrives? then [steps[0].ev] else []) + Arrived(steps[1..])
  }

  lemma {:induction false} RowsAreArrivals(env: Env, s: Pipe, steps: seq<Step>)
    ensures Events(Run(env, s, steps).rows) == Events(s.rows) + Arrived(steps)
    decreases |steps|
  {
    if steps == [] {
      assert Events(s.rows) + [] == Events(s.rows);
    } else {
      RowsAfterStep(env, s, steps[0]);
      RowsAreArrivals(env, Next(env, s, steps[0]), steps[1..]);
      ArrivedNext(Events(s.rows), steps);
    }
  }

  lemma RowsAfterStep(env: Env, s: Pipe, step: Step)
    ensures Events(Next(env, s, step).rows) ==
            if step.Arrives? then Events(s.rows) + [step.ev] else Events(s.rows)
  {
  }

  lemma ArrivedNext(evs: seq<Event>, steps: seq<Step>)
    requires steps != []
    ensures evs + Arrived(steps) == (if steps[0].Arrives? then evs + [steps[0].ev] else evs) + Arrived(steps[1..])
  {
    if steps[0].Arrives? {
      assert Arrived(steps) == [steps[0].ev] + Arrived(steps[1..]);
    } else {
      assert Arrived(steps) == [] + Arrived(steps[1..]);
    }
  }

  /** The events of the first accepted delivery of every key, in delivery order. */
  function FirstEvents(cfg: Ingest.Config, ds: seq<Ingest.Delivery>): seq<Event> {
    var at := Ingest.Firsts(cfg, ds, |ds|);
    seq(|at|, a requires 0 <= a < |at| => Ingest.EntryOf(cfg, ds[at[a]]).event)
  }

  function LogEvents(log: seq<Ingest.Entry>): seq<Event> {
    seq(|log|, i requires 0 <= i < |log| => log[i].event)
  }

  /** From the queue to the graph: when the arrivals are what ingest made of the deliveries, whatever was
      redelivered, however arrivals, batches, crashes and orderly replays interleave, once nothing is pending
      the graph is the fold of the owner's first occurrences in delivery order. */
  lemma EndToEnd(env: Env, cfg: Ingest.Config, ds: seq<Ingest.Delivery>, steps: seq<Step>)
    requires Arrived(steps) == LogEvents(Ingest.IngestAll(cfg, [], ds))
    requires AllInOrder(env, Pipe([], EMPTY_GRAPH, []), steps)
    ensures var s := Run(env, Pipe([], EMPTY_GRAPH, []), steps);
            PendingIds(s.rows) == [] ==>
            SameContents(s.graph, ProjectAll(env, EMPTY_GRAPH, FirstEvents(cfg, ds)))
  {
    var s0 := Pipe([], EMPTY_GRAPH, []);
    var s := Run(env, s0, steps);
    Ingest.LogIsFirstOccurrences(cfg, ds);
    assert LogEvents(Ingest.IngestAll(cfg, [], ds)) == FirstEvents(cfg, ds);
    RowsAreArrivals(env, s0, steps);
    assert Events(s.rows) == FirstEvents(cfg, ds);
    PendingIdsSpec(s.rows);
    DrainedIsFold(env, EMPTY_GRAPH, steps);
    if PendingIds(s.rows) == [] {
      assert forall i: nat :: i < |s.rows| ==> i !in PendingIds(s.rows);
    }
  }

  // ---- A replay that cuts into a batch ----

  /** What is projected from the moment `replay_from(k)` arrives with rows below `p` done and rows
      `p` to `b` in flight: the rest of the batch, then the replayed rows, then the rows not fetched yet. */
  function AfterCut(evs: seq<Event>, k: nat, p: nat, b: nat): seq<Event>
    requires p <= b <= |evs|
  {
    evs[p..b] + (evs[Min(k, p)..p] + evs[b..])
  }

  function ProcessTimes(env: Env, s: Pipe, n: nat): Pipe
    decreases n
  {
    if n == 0 then s else ProcessTimes(env, Next(env, s, ProcessesNext), n - 1)
  }

  ghost predicate AtCut(s: Pipe, p: nat, b: nat, k: nat, n: nat) {
    && p <= b <= |s.rows|
    && |s.inflight| == b - p
    && (forall a :: 0 <= a < |s.inflight| ==> s.inflight[a] == p + a)
    && (forall i :: 0 <= i < |s.rows| ==> (s.rows[i].status == Pending <==> (k <= i < n || i >= p)))
  }

  /** Finishing the batch projects its rows in order, and leaves the replayed ones pending. */
  lemma {:induction false} FinishBatch(env: Env, s: Pipe, p: nat, b: nat, k: nat, n: nat)
    requires AtCut(s, p, b, k, n) && n <= p
    ensures var t := ProcessTimes(env, s, b - p);
            && AtCut(t, b, b, k, n)
            && Events(t.rows) == Events(s.rows)
            && t.graph == ProjectAll(env, s.graph, Events(s.rows)[p..b])
    decreases b - p
  {
    var evs := Events(s.rows);
    if p < b {
      var t := Next(env, s, ProcessesNext);
      assert s.inflight[0] == p;
      assert Events(t.rows) == evs;
      FinishBatch(env, t, p + 1, b, k, n);
      assert evs[p..b][0] == evs[p] && evs[p..b][1..] == evs[p + 1..b];
    } else {
      assert evs[p..b] == [];
    }
  }

  lemma {:induction false} PendingConcat(a: seq<LogRow>, b: seq<LogRow>)
    ensures PendingEvents(a + b) == PendingEvents(a) + PendingEvents(b)
  {
    if b == [] {
      assert a + b == a;
    } else {
      var n := |b| - 1;
      assert (a + b)[..|a| + n] == a + b[..n];
      PendingConcat(a, b[..n]);
    }
  }

  lemma {:induction false} PendingAllOrNone(rows: seq<LogRow>, all: bool)
    requires forall i :: 0 <= i < |rows| ==> (rows[i].status == Pending <==> all)
    ensures PendingEvents(rows) == if all then Events(rows) else []
  {
    if rows != [] {
      var n := |rows| - 1;
      PendingAllOrNone(rows[..n], all);
      assert Events(rows) == Events(rows[..n]) + [rows[n].event];
    }
  }

  /** Split off rows `i` to `j`, which are all pending or all done. */
  lemma PendingPart(rows: seq<LogRow>, i: nat, j: nat, all: bool)
    requires i <= j <= |rows|
    requires forall x :: i <= x < j ==> (rows[x].status == Pending <==> all)
    ensures PendingEvents(rows[i..]) == (if all then Events(rows)[i..j] else []) + PendingEvents(rows[j..])
  {
    assert rows[i..] == rows[i..j] + rows[j..];
    PendingConcat(rows[i..j], rows[j..]);
    assert Events(rows[i..j]) == Events(rows)[i..j];
    assert PendingEvents(rows[i..j]) == if all then Events(rows[i..j]) else [] by {
      PendingAllOrNone(rows[i..j], all);
    }
  }

  lemma PendingAroundGap(rows: seq<LogRow>, k: nat, n: nat, b: nat)
    requires k <= n <= b <= |rows|
    requires forall i :: 0 <= i < |rows| ==> (rows[i].status == Pending <==> (k <= i < n || i >= b))
    ensures PendingEvents(rows) == Events(rows)[k..n] + Events(rows)[b..]
  {
    assert PendingEvents(rows[b..]) == Events(rows)[b..] by {
      PendingTail(rows, b);
    }
    assert PendingEvents(rows[n..]) == PendingEvents(rows[b..]) by {
      PendingPart(rows, n, b, false);
    }
    assert PendingEvents(rows[k..]) == Events(rows)[k..n] + PendingEvents(rows[n..]) by {
      PendingPart(rows, k, n, true);
    }
    assert PendingEvents(rows) == PendingEvents(rows[k..]) by {
      PendingPart(rows, 0, k, false);
      assert rows[0..] == rows;
    }
  }

  lemma PendingTail(rows: seq<LogRow>, b: nat)
    requires b <= |rows| && forall i :: b <= i < |rows| ==> rows[i].status == Pending
    ensures PendingEvents(rows[b..]) == Events(rows)[b..]
  {
    PendingAllOrNone(rows[b..], true);
    assert Events(rows[b..]) == Events(rows)[b..];
  }

  /** What the worker does after such a replay: the rest of its batch, then the pending rows. */
  lemma ReplayAtCut(env: Env, s: Pipe, p: nat, b: nat, k: nat)
    requires AtCut(s, p, b, p, p)
    ensures var t := ProcessTimes(env, Next(env, s, ReplaysFrom(k)), b - p);
            ProjectAll(env, t.graph, PendingEvents(t.rows)) ==
            ProjectAll(env, s.graph, AfterCut(Events(s.rows), k, p, b))
  {
    var evs := Events(s.rows);
    var r := Next(env, s, ReplaysFrom(k));
    var low := Min(k, p);
    assert Events(r.rows) == evs;
    assert AtCut(r, p, b, low, p);
    FinishBatch(env, r, p, b, low, p);
    var t := ProcessTimes(env, r, b - p);
    PendingAroundGap(t.rows, low, p, b);
    ProjectConcat(env, s.graph, evs[p..b], evs[low..p] + evs[b..]);
  }

  /** The replay does no harm to this log: the final graph is that of the log in order. */
  ghost predicate CutHarmless(env: Env, g0: Graph, evs: seq<Event>, k: nat, p: nat, b: nat)
    requires p <= b <= |evs|
  {
    ProjectAll(env, g0, evs[..p] + AfterCut(evs, k, p, b)) == ProjectAll(env, g0, evs)
  }

  lemma InOrderIsHarmless(env: Env, g0: Graph, evs: seq<Event>, k: nat, p: nat, b: nat)
    requires WellFormed(g0) && p <= b <= |evs| && (p == b || k >= p)
    ensures CutHarmless(env, g0, evs, k, p, b)
  {
    if k >= p {
      assert evs[..p] + AfterCut(evs, k, p, b) == evs;
    } else {
      assert AfterCut(evs, k, p, b) == evs[k..p] + evs[p..];
      assert evs == evs[..p] + evs[p..];
      ProjectConcat(env, g0, evs[..p], evs[k..p] + evs[p..]);
      ProjectConcat(env, ProjectAll(env, g0, evs[..p]), evs[k..p], evs[p..]);
      assert evs[..p][k..] == evs[k..p];
      ReplayFromRestores(env, g0, evs[..p], k);
      ProjectConcat(env, g0, evs[..p], evs[p..]);
    }
  }

  // A log that any cut spoils: `\\Seen` set below `p`, unset in the batch, silence above.

  const LENIENT := Env(_ => "", _ => false)

  function FlagsEvent(flags: seq<Json>): Event {
    Event("mail:message:flags:updated", [Field("message_id", JNum(1)), Field("flags", JArr(flags))])
  }

  const SEEN := FlagsEvent([JStr("\\Seen")])
  const UNSEEN := FlagsEvent([])
  const SILENT := Event("", [])
  const READ_CELL := PropOf(NodeEnt(NodeId(Email, JNum(1))), PRead)

  function SpoiledLog(n: nat, p: nat, b: nat): seq<Event> {
    seq(n, i => if i < p then SEEN else if i < b then UNSEEN else SILENT)
  }

  lemma FlagsOutcome(flags: seq<Json>)
    ensures OutcomeOf(LENIENT, FlagsEvent(flags)) ==
            Runs([[MergeNode(VarE, Email, JNum(1)), SetTo(VarE, PRead, JBool(JStr("\\Seen") in flags))]])
  {
    var ev := FlagsEvent(flags);
    assert Get(ev.payload, "message_id") == JNum(1);
    assert ev.payload[1..][0].name == "flags";
    assert Get(ev.payload, "flags") == JArr(flags);
  }

  lemma FlagsOps(flags: seq<Json>, x: Json)
    ensures RunOps(OpsOfEvent(LENIENT, FlagsEvent(flags)), READ_CELL, x) == JBool(JStr("\\Seen") in flags)
  {
    var ev := FlagsEvent(flags);
    var v := JBool(JStr("\\Seen") in flags);
    var c0, c1 := MergeNode(VarE, Email, JNum(1)), SetTo(VarE, PRead, v);
    var stmt: Stmt := [c0, c1];
    FlagsOutcome(flags);
    RunsAreSound(LENIENT, ev);
    assert [stmt][0] == stmt && [stmt][1..] == [];
    assert stmt[1..] == [c1] && [c1][1..] == [];
    var names := NamesAfter(c0, map[]);
    var ops := OpsOf(c0, map[]) + OpsOf(c1, names);
    assert OpsOfAll([c1], names) == OpsOf(c1, names) + [];
    assert OpsOfAll(stmt, map[]) == OpsOf(c0, map[]) + OpsOfAll([c1], names);
    assert OpsOfStmts([stmt]) == OpsOfAll(stmt, map[]) + [];
    assert OpsOfEvent(LENIENT, ev) == ops;
    RunOpsConcat(OpsOf(c0, map[]), OpsOf(c1, names), READ_CELL, x);
    RunOne(OpsOf(c1, names)[0], READ_CELL, RunOps(OpsOf(c0, map[]), READ_CELL, x));
  }

  lemma {:induction false} ManyFlags(evs: seq<Event>, flags: seq<Json>, x: Json)
    requires evs != [] && forall i :: 0 <= i < |evs| ==> evs[i] == FlagsEvent(flags)
    ensures RunLog(LENIENT, evs, READ_CELL, x) == JBool(JStr("\\Seen") in flags)
  {
    FlagsOps(flags, x);
    RunOpsConcat(OpsOfEvent(LENIENT, evs[0]), OpsOfLog(LENIENT, evs[1..]), READ_CELL, x);
    if |evs| > 1 {
      ManyFlags(evs[1..], flags, JBool(JStr("\\Seen") in flags));
    }
  }

  lemma {:induction false} ManySilent(evs: seq<Event>, x: Json)
    requires forall i :: 0 <= i < |evs| ==> evs[i] == SILENT
    ensures RunLog(LENIENT, evs, READ_CELL, x) == x
  {
    if evs != [] {
      ManySilent(evs[1..], x);
      assert OpsOfEvent(LENIENT, evs[0]) == [];
      assert OpsOfLog(LENIENT, evs) == OpsOfLog(LENIENT, evs[1..]);
    }
  }

  /** Rows done, then unset, then silence: the flag ends unset. With seen rows in between, it ends set. */
  lemma FlagAtEnd(done: seq<Event>, batch: seq<Event>, again: seq<Event>, rest: seq<Event>, x: Json)
    requires batch != [] && forall i :: 0 <= i < |batch| ==> batch[i] == UNSEEN
    requires forall i :: 0 <= i < |again| ==> again[i] == SEEN
    requires forall i :: 0 <= i < |rest| ==> rest[i] == SILENT
    ensures RunLog(LENIENT, done + (batch + (again + rest)), READ_CELL, x) == JBool(again != [])
  {
    RunLogConcat(LENIENT, done, batch + (again + rest), READ_CELL, x);
    var y := RunLog(LENIENT, done, READ_CELL, x);
    RunLogConcat(LENIENT, batch, again + rest, READ_CELL, y);
    ManyFlags(batch, [], y);
    RunLogConcat(LENIENT, again, rest, READ_CELL, JBool(false));
    if again != [] {
      ManyFlags(again, [JStr("\\Seen")], JBool(false));
    }
    ManySilent(rest, JBool(again != []));
  }

  lemma SpoiledRuns(n: nat, k: nat, p: nat, b: nat, x: Json)
    requires k < p < b <= n
    ensures var evs := SpoiledLog(n, p, b);
            && RunLog(LENIENT, evs, READ_CELL, x) == JBool(false)
            && RunLog(LENIENT, evs[..p] + AfterCut(evs, k, p, b), READ_CELL, x) == JBool(true)
  {
    var evs := SpoiledLog(n, p, b);
    var done, batch, again, rest := evs[..p], evs[p..b], evs[k..p], evs[b..];
    assert evs == done + (batch + ([] + rest));
    FlagAtEnd(done, batch, [], rest, x);
    FlagAtEnd(done, batch, again, rest, x);
  }

  lemma CutSpoils(n: nat, k: nat, p: nat, b: nat)
    requires k < p < b <= n
    ensures !CutHarmless(LENIENT, EMPTY_GRAPH, SpoiledLog(n, p, b), k, p, b)
  {
    var evs := SpoiledLog(n, p, b);
    var cut := evs[..p] + AfterCut(evs, k, p, b);
    SpoiledRuns(n, k, p, b, Look(EMPTY_GRAPH, READ_CELL));
    ProjectAllRefines(LENIENT, EMPTY_GRAPH, evs);
    ProjectAllRefines(LENIENT, EMPTY_GRAPH, cut);
  }

  /** `replay_from` restores the graph for every log exactly when it does not cut into a batch: no row
      is in flight, or the replay starts at or after the first row in flight. */
  lemma ReplayExactlyWhenInOrder(n: nat, k: nat, p: nat, b: nat)
    requires p <= b <= n
    ensures (forall env, g0, evs: seq<Event> :: WellFormed(g0) && |evs| == n ==> CutHarmless(env, g0, evs, k, p, b))
       <==> (p == b || k >= p)
  {
    if p == b || k >= p {
      forall env, g0, evs: seq<Event> | WellFormed(g0) && |evs| == n ensures CutHarmless(env, g0, evs, k, p, b) {
        InOrderIsHarmless(env, g0, evs, k, p, b);
      }
    } else {
      CutSpoils(n, k, p, b);
      assert WellFormed(EMPTY_GRAPH) && |SpoiledLog(n, p, b)| == n;
    }
  }
}
