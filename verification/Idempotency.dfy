/** The 24-hour idempotency window: deliveries check the run table, insert a row, process and update it
    in separate steps, while a housekeeping job purges old rows. */
module Idempotency {
  import opened Payloads

  /** Seconds. */
  const HOUR := 3600
  const WINDOW := 24 * HOUR
  const DAY := 24 * HOUR

  datatype Outcome = Ignored | Processed | MissionCreated | Delegated | Error

  datatype Row = Row(ref: string, startedAt: int, outcome: Outcome, completed: bool)

  /** `sentinel_run` of one sentinel, by id. */
  type Table = map<nat, Row>

  /** `find_run_by_event_ref(…, 24)` finds something: any outcome counts. */
  predicate Found(rows: Table, ref: string, now: int) {
    exists id :: id in rows && rows[id].ref == ref && rows[id].startedAt > now - WINDOW
  }

  /** A run of the event, however it ended, that started within 24 hours. */
  predicate SeenInLastDay(rows: Table, id: nat, ref: string, now: int) {
    id in rows && rows[id].ref == ref && now - rows[id].startedAt < 86400
  }

  lemma FoundExactly(rows: Table, ref: string, now: int)
    ensures Found(rows, ref, now) <==> exists id :: SeenInLastDay(rows, id, ref, now)
  {
    if Found(rows, ref, now) {
      var id :| id in rows && rows[id].ref == ref && rows[id].startedAt > now - WINDOW;
      assert SeenInLastDay(rows, id, ref, now);
    }
  }

  /** A delivery leaves a completed row of its event: ignored if the event was seen within a day, else with the
      outcome of `process`. */
  lemma RowExactly(rows: Table, ref: string, now: int, result: Outcome)
    ensures var r := RowAfter(rows, ref, now, result);
            && r.ref == ref && r.startedAt == now && r.completed
            && ((exists id :: SeenInLastDay(rows, id, ref, now)) ==> r.outcome == Ignored)
            && (!(exists id :: SeenInLastDay(rows, id, ref, now)) ==> r.outcome == result)
  {
    FoundExactly(rows, ref, now);
  }

  function Purged(rows: Table, retentionDays: int, now: int): Table {
    map id | id in rows && !(rows[id].startedAt < now - retentionDays * DAY) :: rows[id]
  }

  // ---- One delivery at a time ----

  /** A delivery by itself: the row it leaves, and whether `process` was called. `result` is what
      `process` returns, Error when it raises or times out. */
  function RowAfter(rows: Table, ref: string, now: int, result: Outcome): Row {
    Row(ref, now, if Found(rows, ref, now) then Ignored else result, true)
  }

  class RunTable {
    var rows: Table
    var next: nat

    ghost predicate Valid()
      reads this
    {
      forall id :: id in rows ==> id < next
    }

    method InsertRun(row: Row) returns (id: nat)
      requires Valid()
      modifies this
      ensures Valid() && id !in old(rows) && rows == old(rows)[id := row]
    {
      id := next;
      rows := rows[id := row];
      next := next + 1;
    }

    /** False: there is no such row. */
    method UpdateRun(id: nat, outcome: Outcome) returns (ok: bool)
      requires Valid()
      modifies this
      ensures Valid() && ok == (id in old(rows))
      ensures rows == if ok then old(rows)[id := old(rows)[id].(outcome := outcome, completed := true)] else old(rows)
    {
      ok := id in rows;
      if ok {
        rows := rows[id := rows[id].(outcome := outcome, completed := true)];
      }
    }

    method PurgeOldRuns(retentionDays: int, now: int) returns (deleted: nat)
      requires Valid()
      modifies this
      ensures Valid() && rows == Purged(old(rows), retentionDays, now)
      ensures forall id :: id in old(rows) ==>
                if old(rows)[id].startedAt >= now - retentionDays * 86400 then id in rows && rows[id] == old(rows)[id]
                else id !in rows
      ensures deleted == |old(rows).Keys - rows.Keys|
    {
      var kept := map id | id in rows && !(rows[id].startedAt < now - retentionDays * DAY) :: rows[id];
      deleted := |rows.Keys - kept.Keys|;
      rows := kept;
    }

    /** `_dispatch` around `_process_with_bookkeeping`, uninterrupted: one new completed row, and an
        acknowledgement unless its outcome is Error. */
    method Dispatch(ref: string, now: int, result: Outcome) returns (processed: bool, acked: bool)
      requires Valid()
      modifies this
      ensures Valid()
      ensures processed == !Found(old(rows), ref, now)
      ensures exists id: nat :: id !in old(rows) && rows == old(rows)[id := RowAfter(old(rows), ref, now, result)]
      ensures acked <==> RowAfter(old(rows), ref, now, result).outcome != Error
      ensures (exists id :: SeenInLastDay(old(rows), id, ref, now)) ==> !processed && acked
      ensures !(exists id :: SeenInLastDay(old(rows), id, ref, now)) ==> processed && (acked <==> result != Error)
    {
      FoundExactly(rows, ref, now);
      ghost var was := rows;
      processed := !(exists id :: id in rows && rows[id].ref == ref && rows[id].startedAt > now - WINDOW);
      var outcome := if processed then result else Ignored;
      var id := InsertRun(Row(ref, now, if processed then Processed else Ignored, false));
      var ok := UpdateRun(id, outcome);
      assert rows == was[id := RowAfter(was, ref, now, result)];
      acked := outcome != Error;
    }
  }

  /** Deliveries of one event at these times, one after the other; the table after them. */
  function Deliver(rows: Table, next: nat, ref: string, times: seq<int>, results: seq<Outcome>): Table
    requires |times| == |results|
    decreases |times|
  {
    if times == [] then rows
    else Deliver(rows[next := RowAfter(rows, ref, times[0], results[0])], next + 1, ref, times[1..], results[1..])
  }

  /** What a table that has only seen deliveries up to `last` may hold for `ref`. */
  ghost predicate LastSeen(rows: Table, next: nat, ref: string, last: Option<int>) {
    && (forall id :: id in rows ==> id < next)
    && (last.None? ==> forall id :: id in rows ==> rows[id].ref != ref)
    && (last.Some? ==>
          (exists id :: id in rows && rows[id].ref == ref && rows[id].startedAt == last.value) &&
          forall id :: id in rows && rows[id].ref == ref ==> rows[id].startedAt <= last.value)
  }

  lemma LastSeenNext(rows: Table, next: nat, ref: string, last: Option<int>, t: int, result: Outcome)
    requires LastSeen(rows, next, ref, last) && (last.Some? ==> last.value <= t)
    ensures Found(rows, ref, t) <==> last.Some? && t - last.value < WINDOW
    ensures LastSeen(rows[next := RowAfter(rows, ref, t, result)], next + 1, ref, Some(t))
  {
    var after := rows[next := RowAfter(rows, ref, t, result)];
    assert after[next].ref == ref && after[next].startedAt == t;
  }

  /** The window slides: after any number of deliveries, the next one is processed if and only if none, in
      whatever way it ended and even if it was ignored itself, came within the previous 24 hours. So an
      event redelivered every 23 hours is never processed again. */
  lemma {:induction false} ProcessedExactlyAfterQuietDay(
    rows: Table, next: nat, ref: string, last: Option<int>, times: seq<int>, results: seq<Outcome>, t: int)
    requires |times| == |results| && LastSeen(rows, next, ref, last)
    requires forall i, j :: 0 <= i < j < |times| ==> times[i] <= times[j]
    requires forall i :: 0 <= i < |times| ==> times[i] <= t && (last.Some? ==> last.value <= times[i])
    requires last.Some? ==> last.value <= t
    ensures var latest := if times == [] then last else Some(times[|times| - 1]);
            !Found(Deliver(rows, next, ref, times, results), ref, t) <==>
            (latest.None? || t - latest.value >= 86400)
    decreases |times|
  {
    if times == [] {
      LastSeenNext(rows, next, ref, last, t, Processed);
    } else {
      LastSeenNext(rows, next, ref, last, times[0], results[0]);
      var after := rows[next := RowAfter(rows, ref, times[0], results[0])];
      ProcessedExactlyAfterQuietDay(after, next + 1, ref, Some(times[0]), times[1..], results[1..], t);
    }
  }

  // ---- Overlapping deliveries ----

  datatype Pc =
    | Idle
    | Checking(ref: string)
    | Checked(ref: string, found: bool, checkedAt: int, checkedStep: nat)
    | Stamped(ref: string, startedAt: int, checkedStep: nat)     // nothing found; the insert is under way
    | Duplicate(ref: string)                                      // found; the ignored row is to be inserted
    | Running(id: nat)
    | Closing(id: nat, outcome: Outcome)

  /** One call of `process`. `checkedStep`, `insertedStep`: when, in steps, its delivery looked in the table
      and inserted its row. */
  datatype Call = Call(id: nat, ref: string, startedAt: int, beganAt: int, checkedStep: nat, insertedStep: nat)

  datatype World = World(
    now: int, step: nat, rows: Table, next: nat, pcs: map<nat, Pc>, calls: seq<Call>, acked: seq<Outcome>)

  datatype Step =
    | Tick(dt: nat)
    | Arrive(d: nat, ref: string)
    | Check(d: nat)
    | Stamp(d: nat)
    | Insert(d: nat)
    | Return(d: nat, outcome: Outcome)
    | Close(d: nat)
    | Crash(d: nat)
    | Purge

  function At(w: World, d: nat): Pc {
    if d in w.pcs then w.pcs[d] else Idle
  }

  function Move(w: World, d: nat, pc: Pc): World {
    w.(pcs := w.pcs[d := pc])
  }

  function Effect(retentionDays: int, w: World, s: Step): World {
    match s
    case Tick(dt) => w.(now := w.now + dt)
    case Arrive(d, ref) => if At(w, d).Idle? then Move(w, d, Checking(ref)) else w
    case Check(d) =>
      if At(w, d).Checking? then Move(w, d, Checked(At(w, d).ref, Found(w.rows, At(w, d).ref, w.now), w.now, w.step))
      else w
    case Stamp(d) =>
      var pc := At(w, d);
      if !pc.Checked? then w
      else if pc.found then Move(w, d, Duplicate(pc.ref))
      else Move(w, d, Stamped(pc.ref, w.now, pc.checkedStep))
    case Insert(d) =>
      var pc := At(w, d);
      if pc.Duplicate? then
        Move(w, d, Closing(w.next, Ignored)).(
          rows := w.rows[w.next := Row(pc.ref, w.now, Ignored, false)], next := w.next + 1)
      else if pc.Stamped? then
        Move(w, d, Running(w.next)).(
          rows := w.rows[w.next := Row(pc.ref, pc.startedAt, Processed, false)], next := w.next + 1,
          calls := w.calls + [Call(w.next, pc.ref, pc.startedAt, w.now, pc.checkedStep, w.step)])
      else w
    case Return(d, outcome) => if At(w, d).Running? then Move(w, d, Closing(At(w, d).id, outcome)) else w
    case Close(d) =>
      var pc := At(w, d);
      if !pc.Closing? then w
      else if pc.id !in w.rows then Move(w, d, Idle)
      else
        Move(w, d, Idle).(
          rows := w.rows[pc.id := w.rows[pc.id].(outcome := pc.outcome, completed := true)],
          acked := if pc.outcome == Error then w.acked else w.acked + [pc.outcome])
    case Crash(d) => Move(w, d, Idle)
    case Purge => w.(rows := Purged(w.rows, retentionDays, w.now))
  }

  function Next(retentionDays: int, w: World, s: Step): World {
    Effect(retentionDays, w, s).(step := w.step + 1)
  }

  function Run(retentionDays: int, w: World, steps: seq<Step>): World
    decreases |steps|
  {
    if steps == [] then w else Run(retentionDays, Next(retentionDays, w, steps[0]), steps[1..])
  }

  function Start(now: int): World {
    World(now, 0, map[], 0, map[], [], [])
  }

  /** The row of a call stays until it leaves the window for good. */
  predicate Kept(w: World, c: Call) {
    && c.id < w.next && c.startedAt <= c.beganAt <= w.now && c.checkedStep < c.insertedStep < w.step
    && (c.startedAt <= w.now - WINDOW ||
        (c.id in w.rows && w.rows[c.id].ref == c.ref && w.rows[c.id].startedAt == c.startedAt))
  }

  /** A delivery of `ref` that looked at step `k` and found nothing may start at `t`. */
  predicate Clears(calls: seq<Call>, ref: string, k: nat, t: int) {
    forall i :: 0 <= i < |calls| && calls[i].ref == ref && calls[i].insertedStep < k ==>
      t - calls[i].startedAt >= WINDOW
  }

  predicate PcSound(w: World, pc: Pc) {
    && (pc.Checked? ==> pc.checkedAt <= w.now && pc.checkedStep < w.step &&
                        (!pc.found ==> Clears(w.calls, pc.ref, pc.checkedStep, pc.checkedAt)))
    && (pc.Stamped? ==> pc.startedAt <= w.now && pc.checkedStep < w.step &&
                        Clears(w.calls, pc.ref, pc.checkedStep, pc.startedAt))
  }

  /** Two calls of one event: the second delivery looked in the table before the first inserted its row. */
  predicate Overlap(first: Call, second: Call) {
    second.checkedStep <= first.insertedStep
  }

  ghost predicate Separated(calls: seq<Call>) {
    forall i, j :: 0 <= i < j < |calls| && calls[i].ref == calls[j].ref ==>
      Overlap(calls[i], calls[j]) || calls[j].startedAt - calls[i].startedAt >= WINDOW
  }

  ghost predicate Inv(w: World) {
    && (forall id :: id in w.rows ==> id < w.next)
    && (forall i :: 0 <= i < |w.calls| ==> Kept(w, w.calls[i]))
    && (forall d: nat :: PcSound(w, At(w, d)))
    && Separated(w.calls)
  }

  lemma CheckKeeps(retentionDays: int, w: World, d: nat)
    requires Inv(w) && At(w, d).Checking?
    ensures Inv(Next(retentionDays, w, Check(d)))
  {
    var t := Next(retentionDays, w, Check(d));
    var ref := At(w, d).ref;
    forall i | 0 <= i < |w.calls| && w.calls[i].ref == ref && !Found(w.rows, ref, w.now)
      ensures w.now - w.calls[i].startedAt >= WINDOW
    {
      assert Kept(w, w.calls[i]);
    }
    forall c: nat ensures PcSound(t, At(t, c)) {
      assert PcSound(w, At(w, c));
    }
    assert forall i :: 0 <= i < |t.calls| ==> Kept(w, t.calls[i]) ==> Kept(t, t.calls[i]);
  }

  lemma CallKeeps(retentionDays: int, w: World, d: nat)
    requires Inv(w) && At(w, d).Stamped?
    ensures Inv(Next(retentionDays, w, Insert(d)))
  {
    var t, pc := Next(retentionDays, w, Insert(d)), At(w, d);
    assert PcSound(w, pc);
    var call := Call(w.next, pc.ref, pc.startedAt, w.now, pc.checkedStep, w.step);
    assert t.calls == w.calls + [call];
    forall i | 0 <= i < |t.calls| ensures Kept(t, t.calls[i]) {
      if i < |w.calls| {
        assert Kept(w, w.calls[i]);
      }
    }
    forall c: nat ensures PcSound(t, At(t, c)) {
      assert PcSound(w, At(w, c));
    }
    forall i | 0 <= i < |w.calls| && w.calls[i].ref == call.ref
      ensures Overlap(w.calls[i], call) || call.startedAt - w.calls[i].startedAt >= WINDOW
    {
      assert Clears(w.calls, pc.ref, pc.checkedStep, pc.startedAt);
    }
  }

  /** Rows only appear, are completed, or are purged after they have left the window. */
  ghost predicate RowsKept(w: World, t: World) {
    && t.next >= w.next && t.now >= w.now
    && (forall id :: id in t.rows ==> id < t.next)
    && (forall id :: id in w.rows ==>
          w.rows[id].startedAt <= t.now - WINDOW ||
          (id in t.rows && t.rows[id].ref == w.rows[id].ref && t.rows[id].startedAt == w.rows[id].startedAt))
  }

  lemma RowsStay(retentionDays: int, w: World, s: Step)
    requires retentionDays >= 1 && Inv(w)
    ensures RowsKept(w, Next(retentionDays, w, s))
  {
    if s.Purge? {
      assert retentionDays * DAY >= WINDOW;
    }
  }

  lemma OtherKeeps(retentionDays: int, w: World, s: Step)
    requires retentionDays >= 1 && Inv(w)
    requires s.Check? ==> !At(w, s.d).Checking?
    requires s.Insert? ==> !At(w, s.d).Stamped?
    ensures Inv(Next(retentionDays, w, s))
  {
    var t := Next(retentionDays, w, s);
    RowsStay(retentionDays, w, s);
    assert t.calls == w.calls && t.step == w.step + 1;
    forall i | 0 <= i < |t.calls| ensures Kept(t, t.calls[i]) {
      assert Kept(w, w.calls[i]);
    }
    forall c: nat ensures PcSound(t, At(t, c)) {
      PcKeeps(retentionDays, w, s, c);
    }
  }

  lemma PcKeeps(retentionDays: int, w: World, s: Step, c: nat)
    requires Inv(w)
    requires s.Check? ==> !At(w, s.d).Checking?
    requires s.Insert? ==> !At(w, s.d).Stamped?
    ensures PcSound(Next(retentionDays, w, s), At(Next(retentionDays, w, s), c))
  {
    var t := Next(retentionDays, w, s);
    assert PcSound(w, At(w, c));
    assert t.calls == w.calls && t.step == w.step + 1 && t.now >= w.now;
    var before, after := At(w, c), At(t, c);
    if s.Stamp? && s.d == c && before.Checked? && !before.found {
      assert Clears(w.calls, before.ref, before.checkedStep, before.checkedAt);
      assert Clears(w.calls, before.ref, before.checkedStep, w.now);
    } else {
      assert after == before || (!after.Checked? && !after.Stamped?);
    }
  }

  lemma {:induction false} RunKeeps(retentionDays: int, w: World, steps: seq<Step>)
    requires retentionDays >= 1 && Inv(w)
    ensures Inv(Run(retentionDays, w, steps))
    decreases |steps|
  {
    if steps != [] {
      var s := steps[0];
      if s.Check? && At(w, s.d).Checking? {
        CheckKeeps(retentionDays, w, s.d);
      } else if s.Insert? && At(w, s.d).Stamped? {
        CallKeeps(retentionDays, w, s.d);
      } else {
        OtherKeeps(retentionDays, w, s);
      }
      RunKeeps(retentionDays, Next(retentionDays, w, s), steps[1..]);
    }
  }

  /** In every interleaving of deliveries, crashes and purges, with a retention of at least one day: two
      `process` calls of one event start 24 hours apart, unless the later delivery looked in the table
      before the earlier one had inserted its row. */
  lemma CallsAreADayApart(retentionDays: int, now: int, steps: seq<Step>, i: nat, j: nat)
    requires retentionDays >= 1
    requires i < j < |Run(retentionDays, Start(now), steps).calls|
    ensures var calls := Run(retentionDays, Start(now), steps).calls;
            calls[i].ref == calls[j].ref && !Overlap(calls[i], calls[j]) ==>
            calls[j].startedAt - calls[i].startedAt >= 86400
  {
    RunKeeps(retentionDays, Start(now), steps);
  }

  lemma RunStep(retentionDays: int, w: World, s: Step, rest: seq<Step>)
    ensures Run(retentionDays, w, [s] + rest) == Run(retentionDays, Next(retentionDays, w, s), rest)
  {
    assert ([s] + rest)[1..] == rest;
  }

  lemma RunFour(retentionDays: int, w: World, a: Step, b: Step, c: Step, d: Step)
    ensures Run(retentionDays, w, [a, b, c, d]) ==
            Next(retentionDays, Next(retentionDays, Next(retentionDays, Next(retentionDays, w, a), b), c), d)
  {
    RunStep(retentionDays, w, a, [b, c, d]);
    RunStep(retentionDays, Next(retentionDays, w, a), b, [c, d]);
    RunStep(retentionDays, Next(retentionDays, Next(retentionDays, w, a), b), c, [d]);
    RunStep(retentionDays, Next(retentionDays, Next(retentionDays, Next(retentionDays, w, a), b), c), d, []);
    assert [a] + [b, c, d] == [a, b, c, d] && [b] + [c, d] == [b, c, d] && [c] + [d] == [c, d] && [d] + [] == [d];
  }

  /** Overlap is enough: in any state where two fresh deliveries are about to look for an event the table
      does not know, both may go on to process it at the same time. */
  lemma OverlapProcessesTwice(retentionDays: int, w: World, d: nat, e: nat)
    requires d != e && At(w, d).Checking? && At(w, e) == At(w, d) && !Found(w.rows, At(w, d).ref, w.now)
    ensures exists steps :: var t := Run(retentionDays, w, steps);
              && t.now == w.now && |t.calls| == |w.calls| + 2
              && At(t, d).Running? && At(t, e).Running?
              && t.calls[|w.calls|].ref == t.calls[|w.calls| + 1].ref == At(w, d).ref
  {
    RunFour(retentionDays, w, Check(d), Check(e), Stamp(d), Stamp(e));
    var u := Run(retentionDays, w, [Check(d), Check(e), Stamp(d), Stamp(e)]);
    RunStep(retentionDays, u, Insert(d), [Insert(e)]);
    var v := Next(retentionDays, u, Insert(d));
    RunStep(retentionDays, v, Insert(e), []);
    assert [Insert(d)] + [Insert(e)] == [Insert(d), Insert(e)] && [Insert(e)] + [] == [Insert(e)];
    RunConcat(retentionDays, w, [Check(d), Check(e), Stamp(d), Stamp(e)], [Insert(d), Insert(e)]);
    var t := Next(retentionDays, v, Insert(e));
    assert Run(retentionDays, w, [Check(d), Check(e), Stamp(d), Stamp(e)] + [Insert(d), Insert(e)]) == t;
  }

  lemma {:induction false} RunConcat(retentionDays: int, w: World, xs: seq<Step>, ys: seq<Step>)
    ensures Run(retentionDays, w, xs + ys) == Run(retentionDays, Run(retentionDays, w, xs), ys)
    decreases |xs|
  {
    if xs == [] {
      assert xs + ys == ys;
    } else {
      assert (xs + ys)[1..] == xs[1..] + ys;
      RunConcat(retentionDays, Next(retentionDays, w, xs[0]), xs[1..], ys);
    }
  }

  /** A call that returns is closed with its outcome in its row, and acknowledged exactly when that is no Error. */
  lemma ReturnIsRecorded(retentionDays: int, w: World, d: nat, outcome: Outcome)
    requires At(w, d).Running? && At(w, d).id in w.rows
    ensures var id := At(w, d).id;
            var t := Next(retentionDays, Next(retentionDays, w, Return(d, outcome)), Close(d));
            && id in t.rows && t.rows[id].outcome == outcome && t.rows[id].completed
            && t.rows[id].ref == w.rows[id].ref && t.rows[id].startedAt == w.rows[id].startedAt
            && (outcome == Error ==> t.acked == w.acked) && (outcome != Error ==> t.acked == w.acked + [outcome])
  {
  }

  /** Over every run no Error is ever acknowledged. */
  lemma {:induction false} ErrorsNotAcknowledged(retentionDays: int, w: World, steps: seq<Step>)
    requires Error !in w.acked
    ensures Error !in Run(retentionDays, w, steps).acked
    decreases |steps|
  {
    if steps != [] {
      ErrorsNotAcknowledged(retentionDays, Next(retentionDays, w, steps[0]), steps[1..]);
    }
  }

  /** An event that was not seen within the window is inserted with the present time and goes to `process`. */
  lemma NewEventIsProcessed(retentionDays: int, w: World, d: nat)
    requires Inv(w) && At(w, d).Checking? && !(exists id :: SeenInLastDay(w.rows, id, At(w, d).ref, w.now))
    ensures var t := Next(retentionDays, Next(retentionDays, Next(retentionDays, w, Check(d)), Stamp(d)), Insert(d));
            && At(t, d) == Running(w.next) && w.next !in w.rows
            && t.rows == w.rows[w.next := Row(At(w, d).ref, w.now, Processed, false)]
            && |t.calls| == |w.calls| + 1 && t.calls[|w.calls|].id == w.next && t.calls[|w.calls|].ref == At(w, d).ref
  {
    FoundExactly(w.rows, At(w, d).ref, w.now);
  }

  /** A redelivery within the window runs to its acknowledgement in any state: looked up, stamped, inserted as ignored
      and closed, it is acknowledged and `process` is not called. */
  lemma RedeliveryAcknowledged(retentionDays: int, w: World, d: nat, id: nat)
    requires Inv(w) && At(w, d).Checking? && SeenInLastDay(w.rows, id, At(w, d).ref, w.now)
    ensures var t := Run(retentionDays, w, [Check(d), Stamp(d), Insert(d), Close(d)]);
            && t.acked == w.acked + [Ignored] && t.calls == w.calls && At(t, d).Idle?
            && t.rows == w.rows[w.next := Row(At(w, d).ref, w.now, Ignored, true)] && w.next !in w.rows
  {
    FoundExactly(w.rows, At(w, d).ref, w.now);
    RunFour(retentionDays, w, Check(d), Stamp(d), Insert(d), Close(d));
  }

  /** Purging never removes a row that a check could still find, now or later, exactly when the retention is
      at least one day. */
  lemma PurgeSparesWindowExactly(retentionDays: int)
    ensures retentionDays >= 1 <==>
            forall rows: Table, ref, now: int, later: int :: now <= later ==>
              (Found(Purged(rows, retentionDays, now), ref, later) <==> Found(rows, ref, later))
  {
    if retentionDays >= 1 {
      forall rows: Table, ref, now: int, later: int | now <= later
        ensures Found(Purged(rows, retentionDays, now), ref, later) <==> Found(rows, ref, later)
      {
        if Found(rows, ref, later) {
          var id :| id in rows && rows[id].ref == ref && rows[id].startedAt > later - WINDOW;
          assert id in Purged(rows, retentionDays, now);
        }
      }
    } else {
      var rows: Table := map[0 := Row("", -1, Processed, true)];
      assert rows[0].ref == "";
      assert Found(rows, "", 0);
      assert !Found(Purged(rows, retentionDays, 0), "", 0);
    }
  }
}
