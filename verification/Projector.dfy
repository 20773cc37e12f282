/** The projector worker: fetch a batch of pending rows in id order, project each row in its own
    transaction, mark it; and `replay_from`, which marks rows pending again. */
module Projector {
  import opened Payloads
  import opened Cypher
  import opened Registers
  import opened Refinement
  import opened Mappers
  import opened Projection
  import opened Replay

  datatype Status = Pending | Processed | Failed

  /** A row of `event_log`; its id is its position. */
  datatype LogRow = LogRow(event: Event, status: Status)

  /** Ids of pending rows, in id order. */
  function PendingIds(rows: seq<LogRow>): seq<nat> {
    if rows == [] then []
    else
      var n := |rows| - 1;
      PendingIds(rows[..n]) + (if rows[n].status == Pending then [n] else [])
  }

  /** ORDER BY id LIMIT n. */
  function FirstPending(rows: seq<LogRow>, n: nat): seq<nat> {
    Take(PendingIds(rows), n)
  }

  function Take(ids: seq<nat>, n: nat): seq<nat> {
    if |ids| <= n then ids else ids[..n]
  }

  /** The events of the pending rows, in id order. */
  function PendingEvents(rows: seq<LogRow>): seq<Event> {
    if rows == [] then []
    else
      var n := |rows| - 1;
      PendingEvents(rows[..n]) + (if rows[n].status == Pending then [rows[n].event] else [])
  }

  ghost predicate Ascending(ids: seq<nat>) {
    forall i, j :: 0 <= i < j < |ids| ==> ids[i] < ids[j]
  }

  lemma {:induction false} PendingIdsSpec(rows: seq<LogRow>)
    ensures Ascending(PendingIds(rows))
    ensures forall i: nat :: i in PendingIds(rows) <==> i < |rows| && rows[i].status == Pending
  {
    if rows != [] {
      var n := |rows| - 1;
      PendingIdsSpec(rows[..n]);
      AppendAbove(PendingIds(rows[..n]), n, rows[n].status == Pending);
      forall i: nat ensures i in PendingIds(rows) <==> i < |rows| && rows[i].status == Pending {
        assert i in PendingIds(rows[..n]) <==> i < n && rows[..n][i].status == Pending;
      }
    }
  }

  lemma AppendAbove(ids: seq<nat>, n: nat, append: bool)
    requires Ascending(ids) && forall i: nat :: i in ids ==> i < n
    ensures var longer := ids + (if append then [n] else []);
            Ascending(longer) && forall i: nat :: i in longer <==> i in ids || (append && i == n)
  {
    assert forall a :: 0 <= a < |ids| ==> ids[a] in ids;
  }

  lemma {:induction false} PendingEventsSpec(rows: seq<LogRow>)
    ensures |PendingEvents(rows)| == |PendingIds(rows)|
    ensures forall a :: 0 <= a < |PendingIds(rows)| ==>
              PendingIds(rows)[a] < |rows| && PendingEvents(rows)[a] == rows[PendingIds(rows)[a]].event
  {
    if rows != [] {
      PendingEventsSpec(rows[..|rows| - 1]);
    }
  }

  /** The mapper of the event raises, or one of its statements carries the reserved tag or is refused. */
  predicate Breaks(env: Env, ev: Event) {
    var m := GetMapper(ev.exchange);
    m.Some? &&
    (MapWith(env, m.value, ev.payload).None? ||
     exists i :: 0 <= i < |MapWith(env, m.value, ev.payload).value| && StmtFails(env, MapWith(env, m.value, ev.payload).value[i]))
  }

  /** Each row that was pending has the status its event calls for, and nothing else of the log has changed. */
  ghost predicate AllSettled(env: Env, before: seq<LogRow>, after: seq<LogRow>) {
    && |after| == |before|
    && forall i :: 0 <= i < |before| ==>
         after[i] == if before[i].status != Pending then before[i]
                     else before[i].(status := if Breaks(env, before[i].event) then Failed else Processed)
  }

  function Settle(env: Env, r: LogRow): LogRow {
    if r.status != Pending then r
    else r.(status := if OutcomeOf(env, r.event).Fails? then Failed else Processed)
  }

  /** The rows once every pending row below `cut` has been processed. */
  ghost predicate SettledBelow(env: Env, before: seq<LogRow>, after: seq<LogRow>, cut: nat) {
    |after| == |before| &&
    forall i :: 0 <= i < |before| ==> after[i] == if i < cut then Settle(env, before[i]) else before[i]
  }

  /** The id just above the first `m` pending ids. */
  function Cut(ids: seq<nat>, m: nat): nat
    requires m <= |ids|
  {
    if m == 0 then 0 else ids[m - 1] + 1
  }

  function Replayed(rows: seq<LogRow>, k: nat): seq<LogRow> {
    seq(|rows|, i requires 0 <= i < |rows| => if i >= k then rows[i].(status := Pending) else rows[i])
  }

  lemma AscendingLast(ids: seq<nat>, x: nat)
    requires Ascending(ids) && ids != []
    ensures x in ids[..|ids| - 1] <==> x in ids && x != ids[|ids| - 1]
    ensures x in ids ==> x <= ids[|ids| - 1]
    ensures ids == ids[..|ids| - 1] + [ids[|ids| - 1]]
  {
  }

  lemma {:induction false} AscendingUnique(a: seq<nat>, b: seq<nat>)
    requires Ascending(a) && Ascending(b) && forall x: nat :: x in a <==> x in b
    ensures a == b
  {
    assert a != [] ==> a[0] in b;
    assert b != [] ==> b[0] in a;
    if a != [] && b != [] {
      AscendingLast(a, b[|b| - 1]);
      AscendingLast(b, a[|a| - 1]);
      var a', b' := a[..|a| - 1], b[..|b| - 1];
      forall z: nat ensures z in a' <==> z in b' {
        AscendingLast(a, z);
        AscendingLast(b, z);
      }
      AscendingUnique(a', b');
    }
  }

  lemma DropIsAbove(ids: seq<nat>, m: nat, x: nat)
    requires Ascending(ids) && m <= |ids|
    ensures x in ids[m..] <==> x in ids && x >= Cut(ids, m)
  {
    if x in ids {
      var a :| 0 <= a < |ids| && ids[a] == x;
      if a >= m {
        assert ids[m..][a - m] == x;
      }
    }
  }

  /** Processing the first `m` pending rows leaves exactly the other pending ids. */
  lemma PendingAfter(env: Env, before: seq<LogRow>, after: seq<LogRow>, m: nat)
    requires m <= |PendingIds(before)| && SettledBelow(env, before, after, Cut(PendingIds(before), m))
    ensures PendingIds(after) == PendingIds(before)[m..]
  {
    var ids := PendingIds(before);
    PendingIdsSpec(before);
    PendingIdsSpec(after);
    forall x: nat ensures x in PendingIds(after) <==> x in ids[m..] {
      DropIsAbove(ids, m, x);
      if x < |after| {
        assert x in PendingIds(after) <==> after[x].status == Pending;
        assert x in ids <==> before[x].status == Pending;
      }
    }
    AscendingUnique(PendingIds(after), ids[m..]);
  }

  /** Processing the next pending row moves the cut past it. */
  lemma CutMoves(env: Env, start: seq<LogRow>, before: seq<LogRow>, m: nat)
    requires m < |PendingIds(start)| && SettledBelow(env, start, before, Cut(PendingIds(start), m))
    ensures var id := PendingIds(start)[m];
            id < |before| && before[id] == start[id] &&
            SettledBelow(env, start, before[id := Settle(env, before[id])], Cut(PendingIds(start), m + 1))
  {
    var ids := PendingIds(start);
    var id := ids[m];
    PendingIdsSpec(start);
    assert id in ids;
    assert m > 0 ==> ids[m - 1] < id;
    forall i: nat | Cut(ids, m) <= i < id ensures start[i] == Settle(env, start[i]) {
      DropIsAbove(ids, m, i);
      assert ids[m..][0] == id;
      assert forall a :: 0 <= a < |ids[m..]| ==> id <= ids[m..][a];
    }
  }

  /** Where a worker is: the first `m` rows pending at `start` are projected onto `g0`, in order. */
  ghost predicate Progress(env: Env, g0: Graph, start: seq<LogRow>, m: nat, rows: seq<LogRow>, graph: Graph) {
    && m <= |PendingIds(start)|
    && SettledBelow(env, start, rows, Cut(PendingIds(start), m))
    && m <= |PendingEvents(start)| && graph == ProjectAll(env, g0, PendingEvents(start)[..m])
  }

  lemma NextRow(env: Env, g0: Graph, start: seq<LogRow>, m: nat, rows: seq<LogRow>, graph: Graph)
    requires Progress(env, g0, start, m, rows, graph) && m < |PendingIds(start)|
    ensures var id := PendingIds(start)[m];
            id < |rows| && rows[id] == start[id] &&
            Progress(env, g0, start, m + 1, rows[id := Settle(env, rows[id])], Project(env, graph, rows[id].event))
  {
    var evs := PendingEvents(start);
    PendingEventsSpec(start);
    CutMoves(env, start, rows, m);
    assert evs[..m + 1] == evs[..m] + [evs[m]];
    ProjectConcat(env, g0, evs[..m], [evs[m]]);
    assert [evs[m]][1..] == [];
  }

  ghost predicate IsBatch(start: seq<LogRow>, m: nat, batch: seq<nat>) {
    IsSlice(PendingIds(start), m, batch)
  }

  predicate IsSlice(ids: seq<nat>, m: nat, batch: seq<nat>) {
    m + |batch| <= |ids| && batch == ids[m..m + |batch|]
  }

  function Min(a: nat, b: nat): nat {
    if a <= b then a else b
  }

  lemma NextBatch(env: Env, g0: Graph, start: seq<LogRow>, m: nat, rows: seq<LogRow>, graph: Graph, limit: nat)
    requires Progress(env, g0, start, m, rows, graph)
    ensures IsBatch(start, m, FirstPending(rows, limit))
    ensures |FirstPending(rows, limit)| == Min(limit, |PendingIds(start)| - m)
    ensures m == |PendingIds(start)| ==> PendingIds(rows) == []
  {
    PendingLeft(env, g0, start, m, rows, graph);
    TakeOfDrop(PendingIds(start), m, PendingIds(rows), limit);
  }

  lemma PendingLeft(env: Env, g0: Graph, start: seq<LogRow>, m: nat, rows: seq<LogRow>, graph: Graph)
    requires Progress(env, g0, start, m, rows, graph)
    ensures m <= |PendingIds(start)| && PendingIds(rows) == PendingIds(start)[m..]
  {
    PendingAfter(env, start, rows, m);
  }

  lemma TakeOfDrop(ids: seq<nat>, m: nat, rest: seq<nat>, limit: nat)
    requires m <= |ids| && rest == ids[m..]
    ensures IsSlice(ids, m, Take(rest, limit)) && |Take(rest, limit)| == Min(limit, |ids| - m)
    ensures m == |ids| ==> rest == []
  {
  }

  /** When every row pending at `start` has been processed, each has its status. */
  lemma DoneMeansSettled(env: Env, g0: Graph, start: seq<LogRow>, rows: seq<LogRow>, graph: Graph)
    requires Progress(env, g0, start, |PendingIds(start)|, rows, graph)
    ensures AllSettled(env, start, rows)
  {
    var ids := PendingIds(start);
    PendingIdsSpec(start);
    forall i | 0 <= i < |start| ensures start[i].status == Pending ==> i < Cut(ids, |ids|) {
      DropIsAbove(ids, |ids|, i);
    }
  }

  class Worker {
    const env: Env
    var rows: seq<LogRow>
    var graph: Graph

    constructor (env: Env)
      ensures this.env == env && rows == [] && graph == EMPTY_GRAPH
    {
      this.env := env;
      rows := [];
      graph := EMPTY_GRAPH;
    }

    /** Run the statements of a row; None when one of them raises. */
    method ExecuteCypher(stmts: seq<Stmt>) returns (r: Option<Graph>)
      ensures r.Some? <==> forall i :: 0 <= i < |stmts| ==> !StmtFails(env, stmts[i])
      ensures r.Some? ==> r.value == ExecStmts(graph, stmts)
    {
      var g := graph;
      assert stmts[0..] == stmts;
      for i := 0 to |stmts|
        invariant forall j :: 0 <= j < i ==> !StmtFails(env, stmts[j])
        invariant ExecStmts(graph, stmts) == ExecStmts(g, stmts[i..])
      {
        if StmtFails(env, stmts[i]) {
          return None;
        }
        assert stmts[i..][1..] == stmts[i + 1..];
        g := ExecStmt(g, stmts[i]);
      }
      return Some(g);
    }

    /** The mapper of the row; the calendar mappers run their loops. */
    method MapRow(m: Mapper, payload: Dict) returns (r: Mapped)
      ensures r == MapWith(env, m, payload)
    {
      match m
      case CalendarCreated => r := MapCalendarCreatedLoop(payload);
      case CalendarReply => r := MapCalendarReplyLoop(payload);
      case _ => r := MapWith(env, m, payload);
    }

    method MarkIfPending(id: nat, status: Status)
      requires id < |rows|
      modifies this`rows
      ensures rows == old(rows)[id := if old(rows[id]).status == Pending then old(rows[id]).(status := status)
                                      else old(rows[id])]
    {
      if rows[id].status == Pending {
        rows := rows[id := rows[id].(status := status)];
      }
    }

    /** One transaction per row: the statements and the mark, or only the error mark. A row that was pending ends
        failed exactly when its mapper raised or a statement failed. */
    method ProcessRow(id: nat) returns (ok: bool)
      requires id < |rows|
      modifies this
      ensures |rows| == |old(rows)|
      ensures old(rows[id]).status == Pending ==>
                rows[id].status == if Breaks(env, old(rows[id]).event) then Failed else Processed
      ensures old(rows[id]).status != Pending ==> rows == old(rows)
      ensures Breaks(env, old(rows[id]).event) ==> graph == old(graph)
      ensures graph == Project(env, old(graph), old(rows[id]).event)
      ensures rows == old(rows)[id := Settle(env, old(rows[id]))]
      ensures ok <==> OutcomeOf(env, old(rows[id]).event).Runs?
    {
      var ev := rows[id].event;
      var m := GetMapper(ev.exchange);
      if m.None? {
        MarkIfPending(id, Processed);
        return false;
      }
      var mapped := MapRow(m.value, ev.payload);
      if mapped.None? {
        MarkIfPending(id, Failed);
        return false;
      }
      var committed := ExecuteCypher(mapped.value);
      if committed.None? {
        MarkIfPending(id, Failed);
        return false;
      }
      graph := committed.value;
      MarkIfPending(id, Processed);
      return true;
    }

    /** The first `batchSize` pending ids. */
    method FetchBatch(batchSize: nat) returns (batch: seq<nat>)
      ensures batch == FirstPending(rows, batchSize)
    {
      var ids := PendingIds(rows);
      batch := if |ids| <= batchSize then ids else ids[..batchSize];
    }

    /** `start`, `g0` and `m` say where the worker is in its run. */
    method ProcessBatch(batch: seq<nat>, ghost start: seq<LogRow>, ghost g0: Graph, ghost m: nat)
      requires IsBatch(start, m, batch) && Progress(env, g0, start, m, rows, graph)
      modifies this
      ensures Progress(env, g0, start, m + |batch|, rows, graph)
    {
      for i := 0 to |batch|
        invariant Progress(env, g0, start, m + i, rows, graph)
      {
        assert batch[i] == PendingIds(start)[m + i];
        NextRow(env, g0, start, m + i, rows, graph);
        var _ := ProcessRow(batch[i]);
      }
    }

    /** Fetch a batch and process it. `count` pending rows of `start` are done before, `r` more after. */
    method Turn(batchSize: nat, ghost start: seq<LogRow>, ghost g0: Graph, ghost count: nat)
      returns (empty: bool, ghost r: nat)
      requires batchSize >= 1 && Progress(env, g0, start, count, rows, graph)
      modifies this
      ensures Progress(env, g0, start, count + r, rows, graph)
      ensures r == Min(batchSize, |PendingIds(start)| - count)
      ensures empty <==> r == 0
      ensures empty ==> PendingIds(rows) == []
    {
      NextBatch(env, g0, start, count, rows, graph, batchSize);
      var batch := FetchBatch(batchSize);
      r := |batch|;
      empty := batch == [];
      if !empty {
        ProcessBatch(batch, start, g0, count);
      }
    }

    /** `run`: batches until none is pending (or one batch when `once`). Whatever the batch size, the
        pending rows are projected in id order, each exactly once. */
    method Run(batchSize: nat, once: bool)
      requires batchSize >= 1
      modifies this
      ensures !once ==> Progress(env, old(graph), old(rows), |PendingIds(old(rows))|, rows, graph)
      ensures !once ==> PendingIds(rows) == [] && AllSettled(env, old(rows), rows)
      ensures once ==> Progress(env, old(graph), old(rows), Min(batchSize, |PendingIds(old(rows))|), rows, graph)
    {
      ghost var start, g0 := rows, graph;
      ghost var n: nat := |PendingIds(rows)|;
      ghost var m: nat, r: nat := 0, 0;
      var stop := false;
      while !stop
        invariant m <= n && Progress(env, g0, start, m, rows, graph)
        invariant once ==> m == if stop then Min(batchSize, n) else 0
        invariant stop && !once ==> m == n && PendingIds(rows) == []
        decreases !stop, n - m
      {
        var empty: bool;
        empty, r := Turn(batchSize, start, g0, m);
        m := m + r;
        stop := empty || once;
      }
      if !once {
        DoneMeansSettled(env, g0, start, rows, graph);
      }
    }

    method ReplayFrom(k: nat) returns (n: nat)
      modifies this`rows
      ensures rows == Replayed(old(rows), k)
      ensures n == |PendingIds(rows)| - |PendingIds(old(rows))|
    {
      n := 0;
      assert rows[..|rows|] == rows;
      for i := 0 to |rows|
        invariant |rows| == |old(rows)|
        invariant forall j :: 0 <= j < i ==> rows[j] == Replayed(old(rows), k)[j]
        invariant forall j :: i <= j < |rows| ==> rows[j] == old(rows)[j]
        invariant n == |PendingIds(rows[..i])| - |PendingIds(old(rows)[..i])|
      {
        if i >= k && rows[i].status != Pending {
          rows := rows[i := rows[i].(status := Pending)];
          n := n + 1;
        }
        assert rows[..i + 1][..i] == rows[..i] && old(rows)[..i + 1][..i] == old(rows)[..i];
      }
      assert rows[..|rows|] == rows && old(rows)[..|rows|] == old(rows);
    }
  }
}
