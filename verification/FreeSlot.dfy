/** `next_free_slot`: collect the participants' conflicts, sort them as text, sweep once. No earlier start
    than the answer works, in any order; the answer itself is sound exactly when the order serves the sweep
    and no gap opens before a conflict that starts after the window. */
module FreeSlot {
  import opened Payloads

  /** A conflict as the graph query returns it: ISO timestamps of its start and end. */
  datatype Conflict = Conflict(start: string, end: string)

  /** A point on the time line, or for a naive timestamp on a wall clock without a place. */
  datatype Instant = Instant(aware: bool, t: int)

  /** `datetime.fromisoformat`: None when it raises. */
  type Clock = string -> Option<Instant>

  /** The time of a timestamp of this kind. None when it does not parse, or when Python raises because it
      would be compared with, or subtracted from, one of the other kind. */
  function TimeOf(clock: Clock, s: string, aware: bool): Option<int> {
    var x := clock(s);
    if x.Some? && x.value.aware == aware then Some(x.value.t) else None
  }

  datatype Answer = Raises | NoSlot | Slot(start: int, end: int)

  // ---- Sorting by text ----

  predicate TextLeq(a: string, b: string) {
    a == "" || (b != "" && (a[0] < b[0] || (a[0] == b[0] && TextLeq(a[1..], b[1..]))))
  }

  predicate Leq(a: Conflict, b: Conflict) {
    if a.start != b.start then TextLeq(a.start, b.start) else TextLeq(a.end, b.end)
  }

  lemma {:induction false} TextTotal(a: string, b: string)
    ensures TextLeq(a, b) || TextLeq(b, a)
    ensures TextLeq(a, b) && TextLeq(b, a) ==> a == b
  {
    if a != "" && b != "" && a[0] == b[0] {
      TextTotal(a[1..], b[1..]);
      assert a == [a[0]] + a[1..] && b == [b[0]] + b[1..];
    }
  }

  lemma {:induction false} TextTransitive(a: string, b: string, c: string)
    requires TextLeq(a, b) && TextLeq(b, c)
    ensures TextLeq(a, c)
  {
    if a != "" && a[0] == b[0] == c[0] {
      TextTransitive(a[1..], b[1..], c[1..]);
    }
  }

  lemma LeqTotal(a: Conflict, b: Conflict)
    ensures Leq(a, b) || Leq(b, a)
  {
    TextTotal(a.start, b.start);
    TextTotal(a.end, b.end);
  }

  lemma LeqStarts(a: Conflict, b: Conflict)
    requires Leq(a, b)
    ensures TextLeq(a.start, b.start)
  {
    TextTotal(a.start, b.start);
  }

  ghost predicate SortedByText(cs: seq<Conflict>) {
    forall i, j :: 0 <= i < j < |cs| ==> TextLeq(cs[i].start, cs[j].start)
  }

  function Insert(c: Conflict, cs: seq<Conflict>): (r: seq<Conflict>)
    ensures multiset(r) == multiset(cs) + multiset{c}
  {
    if cs == [] then [c]
    else if Leq(c, cs[0]) then [c] + cs
    else
      assert cs == [cs[0]] + cs[1..];
      [cs[0]] + Insert(c, cs[1..])
  }

  /** `conflicts.sort()` on pairs of strings. */
  function Sort(cs: seq<Conflict>): (r: seq<Conflict>)
    ensures multiset(r) == multiset(cs)
  {
    if cs == [] then []
    else
      assert cs == [cs[0]] + cs[1..];
      Insert(cs[0], Sort(cs[1..]))
  }

  lemma {:induction false} InsertSorted(c: Conflict, cs: seq<Conflict>)
    requires SortedByText(cs)
    ensures SortedByText(Insert(c, cs))
  {
    if cs != [] {
      if Leq(c, cs[0]) {
        LeqStarts(c, cs[0]);
        forall j | 0 < j < |cs| ensures TextLeq(c.start, cs[j].start) {
          TextTransitive(c.start, cs[0].start, cs[j].start);
        }
      } else {
        LeqTotal(c, cs[0]);
        LeqStarts(cs[0], c);
        InsertSorted(c, cs[1..]);
        var rest := Insert(c, cs[1..]);
        forall j | 0 <= j < |rest| ensures TextLeq(cs[0].start, rest[j].start) {
          assert rest[j] in multiset(rest);
          assert rest[j] == c || rest[j] in cs[1..];
        }
      }
    }
  }

  lemma {:induction false} SortSorted(cs: seq<Conflict>)
    ensures SortedByText(Sort(cs))
  {
    if cs != [] {
      SortSorted(cs[1..]);
      InsertSorted(cs[0], Sort(cs[1..]));
    }
  }

  // ---- The sweep ----

  /** A parsed conflict. */
  datatype Busy = Busy(start: int, end: int)

  predicate Overlaps(t: int, need: int, b: Busy) {
    b.start < t + need && t < b.end
  }

  predicate Free(t: int, need: int, bs: seq<Busy>) {
    forall i :: 0 <= i < |bs| ==> !Overlaps(t, need, bs[i])
  }

  function Max(a: int, b: int): int {
    if a >= b then a else b
  }

  /** The start the sweep finds, over parsed conflicts in the given order. */
  function Sweep(bs: seq<Busy>, cursor: int, end: int, need: int): Option<int> {
    if bs == [] then if end - cursor >= need then Some(cursor) else None
    else if bs[0].start - cursor >= need then Some(cursor)
    else Sweep(bs[1..], Max(cursor, bs[0].end), end, need)
  }

  /** All timestamps parse, and are aware or naive as the window is. */
  ghost predicate Parses(clock: Clock, aware: bool, cs: seq<Conflict>, bs: seq<Busy>) {
    |bs| == |cs| && forall i :: 0 <= i < |cs| ==>
      TimeOf(clock, cs[i].start, aware) == Some(bs[i].start) && TimeOf(clock, cs[i].end, aware) == Some(bs[i].end)
  }

  method Collect(found: seq<seq<Conflict>>) returns (conflicts: seq<Conflict>)
    ensures forall c :: c in conflicts <==> exists p :: 0 <= p < |found| && c in found[p]
  {
    conflicts := [];
    for p := 0 to |found|
      invariant forall c :: c in conflicts <==> exists q :: 0 <= q < p && c in found[q]
    {
      ghost var before := conflicts;
      for i := 0 to |found[p]|
        invariant forall c :: c in conflicts <==> c in before || c in found[p][..i]
      {
        conflicts := conflicts + [found[p][i]];
        assert found[p][..i + 1] == found[p][..i] + [found[p][i]];
      }
      assert found[p][..|found[p]|] == found[p];
    }
  }

  /** The sweep over timestamps still in text: a timestamp is parsed when the sweep reaches it. `aware` is the
      kind of the cursor; it never changes, since a timestamp of the other kind raises. */
  function SweepText(clock: Clock, aware: bool, cs: seq<Conflict>, cursor: int, end: Instant, need: int): Answer {
    if cs == [] then
      if end.aware != aware then Raises
      else if end.t - cursor >= need then Slot(cursor, cursor + need)
      else NoSlot
    else
      var s, e := TimeOf(clock, cs[0].start, aware), TimeOf(clock, cs[0].end, aware);
      if s.None? then Raises
      else if s.value - cursor >= need then Slot(cursor, cursor + need)
      else if e.None? then Raises
      else SweepText(clock, aware, cs[1..], Max(cursor, e.value), end, need)
  }

  lemma {:induction false} SweepTextParsed(
    clock: Clock, aware: bool, cs: seq<Conflict>, bs: seq<Busy>, cursor: int, end: int, need: int)
    requires Parses(clock, aware, cs, bs)
    ensures SweepText(clock, aware, cs, cursor, Instant(aware, end), need) ==
            var t := Sweep(bs, cursor, end, need);
            if t.None? then NoSlot else Slot(t.value, t.value + need)
    decreases |cs|
  {
    if cs != [] {
      assert Parses(clock, aware, cs[1..], bs[1..]);
      SweepTextParsed(clock, aware, cs[1..], bs[1..], Max(cursor, bs[0].end), end, need);
    }
  }

  /** `cursor` after the first `n` conflicts of a window that starts at `from`, when none of them stops the sweep: each
      start parses and leaves no gap, each end parses and moves the cursor on. */
  ghost predicate Passed(clock: Clock, aware: bool, cs: seq<Conflict>, from: int, need: int, n: nat, cursor: int)
    requires n <= |cs|
    decreases n
  {
    if n == 0 then cursor == from
    else
      var s, e := TimeOf(clock, cs[n - 1].start, aware), TimeOf(clock, cs[n - 1].end, aware);
      s.Some? && e.Some? &&
      exists before: int :: Passed(clock, aware, cs, from, need, n - 1, before)
                            && s.value - before < need && cursor == Max(before, e.value)
  }

  /** The sweep raises at conflict `n`: its start does not parse or is of the other kind, or there is no gap before it
      and its end is so; or past the last conflict the end of the window is of the other kind. */
  ghost predicate Stops(clock: Clock, aware: bool, cs: seq<Conflict>, from: int, end: Instant, need: int, n: nat) {
    n <= |cs| && exists cursor: int :: Passed(clock, aware, cs, from, need, n, cursor)
                   && StopsAt(clock, aware, cs, end, need, n, cursor)
  }

  predicate StopsAt(clock: Clock, aware: bool, cs: seq<Conflict>, end: Instant, need: int, n: nat, cursor: int)
    requires n <= |cs|
  {
    if n == |cs| then end.aware != aware
    else
      var s, e := TimeOf(clock, cs[n].start, aware), TimeOf(clock, cs[n].end, aware);
      s.None? || (s.value - cursor < need && e.None?)
  }

  lemma {:induction false} PassedUnique(
    clock: Clock, aware: bool, cs: seq<Conflict>, from: int, need: int, n: nat, a: int, b: int)
    requires n <= |cs| && Passed(clock, aware, cs, from, need, n, a) && Passed(clock, aware, cs, from, need, n, b)
    ensures a == b
    decreases n
  {
    if n > 0 {
      var e := TimeOf(clock, cs[n - 1].end, aware).value;
      var s := TimeOf(clock, cs[n - 1].start, aware).value;
      var x: int :| Passed(clock, aware, cs, from, need, n - 1, x) && s - x < need && a == Max(x, e);
      var y: int :| Passed(clock, aware, cs, from, need, n - 1, y) && s - y < need && b == Max(y, e);
      PassedUnique(clock, aware, cs, from, need, n - 1, x, y);
    }
  }

  lemma {:induction false} PassedBefore(
    clock: Clock, aware: bool, cs: seq<Conflict>, from: int, need: int, n: nat, cursor: int, k: nat)
    requires k <= n <= |cs| && Passed(clock, aware, cs, from, need, n, cursor)
    ensures exists before: int :: Passed(clock, aware, cs, from, need, k, before)
    decreases n
  {
    if k < n {
      var s, e := TimeOf(clock, cs[n - 1].start, aware), TimeOf(clock, cs[n - 1].end, aware);
      var before: int :| Passed(clock, aware, cs, from, need, n - 1, before)
                         && s.value - before < need && cursor == Max(before, e.value);
      PassedBefore(clock, aware, cs, from, need, n - 1, before, k);
    }
  }

  lemma {:induction false} RaisesFrom(
    clock: Clock, aware: bool, cs: seq<Conflict>, from: int, end: Instant, need: int, n: nat, cursor: int)
    requires n <= |cs| && Passed(clock, aware, cs, from, need, n, cursor)
    ensures SweepText(clock, aware, cs[n..], cursor, end, need) == Raises <==>
            exists k: nat :: n <= k && Stops(clock, aware, cs, from, end, need, k)
    decreases |cs| - n
  {
    if n == |cs| {
      assert cs[n..] == [];
      StopsHere(clock, aware, cs, from, end, need, n, cursor);
    } else {
      assert cs[n..][0] == cs[n] && cs[n..][1..] == cs[n + 1..];
      var s, e := TimeOf(clock, cs[n].start, aware), TimeOf(clock, cs[n].end, aware);
      if StopsAt(clock, aware, cs, end, need, n, cursor) {
        assert Stops(clock, aware, cs, from, end, need, n);
      } else if s.value - cursor >= need {
        forall k: nat | n <= k ensures !Stops(clock, aware, cs, from, end, need, k) {
          NotStopped(clock, aware, cs, from, end, need, n, cursor, k);
        }
      } else {
        var next := Max(cursor, e.value);
        assert Passed(clock, aware, cs, from, need, n + 1, next);
        RaisesFrom(clock, aware, cs, from, end, need, n + 1, next);
        StopsHere(clock, aware, cs, from, end, need, n, cursor);
      }
    }
  }

  lemma StopsHere(
    clock: Clock, aware: bool, cs: seq<Conflict>, from: int, end: Instant, need: int, n: nat, cursor: int)
    requires n <= |cs| && Passed(clock, aware, cs, from, need, n, cursor)
    ensures Stops(clock, aware, cs, from, end, need, n) <==> StopsAt(clock, aware, cs, end, need, n, cursor)
  {
    if Stops(clock, aware, cs, from, end, need, n) {
      var x: int :| Passed(clock, aware, cs, from, need, n, x) && StopsAt(clock, aware, cs, end, need, n, x);
      PassedUnique(clock, aware, cs, from, need, n, cursor, x);
    }
  }

  /** A gap ends the sweep before anything later can raise. */
  lemma NotStopped(
    clock: Clock, aware: bool, cs: seq<Conflict>, from: int, end: Instant, need: int, n: nat, cursor: int, k: nat)
    requires n < |cs| && Passed(clock, aware, cs, from, need, n, cursor) && n <= k
    requires TimeOf(clock, cs[n].start, aware).Some? && TimeOf(clock, cs[n].start, aware).value - cursor >= need
    ensures !Stops(clock, aware, cs, from, end, need, k)
  {
    if Stops(clock, aware, cs, from, end, need, k) {
      var x: int :| Passed(clock, aware, cs, from, need, k, x) && StopsAt(clock, aware, cs, end, need, k, x);
      if k == n {
        PassedUnique(clock, aware, cs, from, need, n, cursor, x);
      } else {
        PassedBefore(clock, aware, cs, from, need, k, x, n + 1);
        var y: int :| Passed(clock, aware, cs, from, need, n + 1, y);
        var s, e := TimeOf(clock, cs[n].start, aware), TimeOf(clock, cs[n].end, aware);
        var before: int :| Passed(clock, aware, cs, from, need, n, before)
                           && s.value - before < need && y == Max(before, e.value);
        PassedUnique(clock, aware, cs, from, need, n, cursor, before);
      }
    }
  }

  /** The sweep raises if and only if it reaches a conflict it cannot use before it finds a gap, or finds none and the
      end of the window is of the other kind. */
  lemma RaisesExactly(clock: Clock, aware: bool, cs: seq<Conflict>, from: int, end: Instant, need: int)
    ensures SweepText(clock, aware, cs, from, end, need) == Raises <==>
            exists k: nat :: Stops(clock, aware, cs, from, end, need, k)
  {
    assert cs[0..] == cs;
    RaisesFrom(clock, aware, cs, from, end, need, 0, from);
  }

  /** A timestamp parsed on its own, and used beside a cursor of kind `aware`; None when either raises. */
  method ParseBeside(clock: Clock, s: string, aware: bool) returns (r: Option<int>)
    ensures r == TimeOf(clock, s, aware)
  {
    var x := clock(s);
    if x.None? || x.value.aware != aware {
      return None;
    }
    return Some(x.value.t);
  }

  /** `found`: what `find_conflicts` returns for each participant. */
  method NextFreeSlot(clock: Clock, found: seq<seq<Conflict>>, need: int, windowFrom: string, windowTo: string)
    returns (r: Answer, conflicts: seq<Conflict>)
    ensures forall c :: c in conflicts <==> exists p :: 0 <= p < |found| && c in found[p]
    ensures var from, to := clock(windowFrom), clock(windowTo);
            r == if from.None? || to.None? then Raises
                 else SweepText(clock, from.value.aware, Sort(conflicts), from.value.t, to.value, need)
  {
    conflicts := Collect(found);
    var cs := Sort(conflicts);
    var from, to := clock(windowFrom), clock(windowTo);
    if from.None? || to.None? {
      return Raises, conflicts;
    }
    var aware, cursor, end := from.value.aware, from.value.t, to.value;
    assert cs[0..] == cs;
    for i := 0 to |cs|
      invariant SweepText(clock, aware, cs, from.value.t, end, need) ==
                SweepText(clock, aware, cs[i..], cursor, end, need)
    {
      assert cs[i..][1..] == cs[i + 1..];
      var s := ParseBeside(clock, cs[i].start, aware);
      if s.None? {
        return Raises, conflicts;
      }
      if s.value - cursor >= need {
        return Slot(cursor, cursor + need), conflicts;
      }
      var e := ParseBeside(clock, cs[i].end, aware);
      if e.None? {
        return Raises, conflicts;
      }
      cursor := Max(cursor, e.value);
    }
    if end.aware != aware {
      return Raises, conflicts;
    }
    if end.t - cursor >= need {
      return Slot(cursor, cursor + need), conflicts;
    }
    return NoSlot, conflicts;
  }

  // ---- Earliest and complete, in any order ----

  /** No start before the answer works, and without an answer no start in the window works: the order of
      the conflicts and their shape do not matter for this half. */
  lemma {:induction false} SweepEarliest(bs: seq<Busy>, cursor: int, end: int, need: int, t: int)
    requires cursor <= t
    ensures Sweep(bs, cursor, end, need).Some? && t < Sweep(bs, cursor, end, need).value ==> !Free(t, need, bs)
    ensures Sweep(bs, cursor, end, need).None? && t + need <= end ==> !Free(t, need, bs)
    ensures Sweep(bs, cursor, end, need).Some? ==> cursor <= Sweep(bs, cursor, end, need).value
    decreases |bs|
  {
    if bs != [] && bs[0].start - cursor < need {
      var next := Max(cursor, bs[0].end);
      if t < next {
        assert Overlaps(t, need, bs[0]);
        SweepEarliest(bs[1..], next, end, need, next);
      } else {
        SweepEarliest(bs[1..], next, end, need, t);
        if !Free(t, need, bs[1..]) {
          var i :| 0 <= i < |bs[1..]| && Overlaps(t, need, bs[1..][i]);
          assert Overlaps(t, need, bs[i + 1]);
        }
      }
    }
  }

  // ---- Sound exactly when the order serves the sweep ----

  predicate CoveredBefore(bs: seq<Busy>, i: nat, x: int)
    requires i <= |bs|
  {
    exists k :: 0 <= k < i && bs[k].end >= x
  }

  /** Wherever a gap opens before conflict `i`, later conflicts start no earlier than `i` does or are
      over before the gap. Sorting by start is enough for this, and more than needed. */
  ghost predicate ServesSweep(bs: seq<Busy>) {
    forall i, j :: 0 <= i < j < |bs| && !CoveredBefore(bs, i, bs[i].start) ==>
      bs[j].start >= bs[i].start || CoveredBefore(bs, i, bs[j].end)
  }

  /** `cursor` stands where the first `i` conflicts leave it. */
  ghost predicate Reached(bs: seq<Busy>, from: int, i: nat, cursor: int) {
    && i <= |bs| && from <= cursor
    && (forall k :: 0 <= k < i ==> bs[k].end <= cursor)
    && (cursor == from || CoveredBefore(bs, i, cursor))
  }

  lemma ReachedNext(bs: seq<Busy>, from: int, i: nat, cursor: int)
    requires Reached(bs, from, i, cursor) && i < |bs|
    ensures Reached(bs, from, i + 1, Max(cursor, bs[i].end))
  {
    if cursor != from {
      var k :| 0 <= k < i && bs[k].end >= cursor;
    }
    if bs[i].end >= cursor {
      assert CoveredBefore(bs, i + 1, bs[i].end);
    }
  }

  lemma GapIsFree(bs: seq<Busy>, from: int, i: nat, cursor: int, need: int)
    requires ServesSweep(bs) && need > 0 && Reached(bs, from, i, cursor) && i < |bs|
    requires bs[i].start - cursor >= need
    ensures Free(cursor, need, bs)
  {
    assert !CoveredBefore(bs, i, bs[i].start);
    forall j | 0 <= j < |bs| ensures !Overlaps(cursor, need, bs[j]) {
      if j > i && bs[j].start < bs[i].start {
        var k :| 0 <= k < i && bs[k].end >= bs[j].end;
      }
    }
  }

  lemma SweepAt(bs: seq<Busy>, i: nat, cursor: int, end: int, need: int)
    requires i <= |bs|
    ensures Sweep(bs[i..], cursor, end, need) ==
            if i == |bs| then (if end - cursor >= need then Some(cursor) else None)
            else if bs[i].start - cursor >= need then Some(cursor)
            else Sweep(bs[i + 1..], Max(cursor, bs[i].end), end, need)
  {
    if i < |bs| {
      assert bs[i..][0] == bs[i] && bs[i..][1..] == bs[i + 1..];
    }
  }

  lemma {:induction false} SweepSoundFrom(bs: seq<Busy>, from: int, i: nat, cursor: int, end: int, need: int)
    requires ServesSweep(bs) && need > 0 && Reached(bs, from, i, cursor)
    ensures var t := Sweep(bs[i..], cursor, end, need); t.Some? ==> Free(t.value, need, bs)
    decreases |bs| - i
  {
    SweepAt(bs, i, cursor, end, need);
    if i < |bs| {
      if bs[i].start - cursor >= need {
        GapIsFree(bs, from, i, cursor, need);
      } else {
        ReachedNext(bs, from, i, cursor);
        SweepSoundFrom(bs, from, i + 1, Max(cursor, bs[i].end), end, need);
      }
    } else {
      EndIsFree(bs, from, cursor, need);
    }
  }

  lemma EndIsFree(bs: seq<Busy>, from: int, cursor: int, need: int)
    requires Reached(bs, from, |bs|, cursor) && need > 0
    ensures Free(cursor, need, bs)
  {
  }

  /** Every slot found in a window that ends at `end`, wherever it begins, lies in it and is free. */
  ghost predicate AlwaysSound(bs: seq<Busy>, end: int) {
    forall from, need :: need > 0 ==> SlotSound(bs, from, end, need)
  }

  ghost predicate SlotSound(bs: seq<Busy>, from: int, end: int, need: int) {
    var t := Sweep(bs, from, end, need);
    t.Some? ==> from <= t.value && t.value + need <= end && Free(t.value, need, bs)
  }

  /** A conflict before which a gap can open starts no later than the window ends. */
  ghost predicate GapsEndBy(bs: seq<Busy>, end: int) {
    forall i :: 0 <= i < |bs| && !CoveredBefore(bs, i, bs[i].start) ==> bs[i].start <= end
  }

  lemma {:induction false} SweepInWindow(bs: seq<Busy>, from: int, i: nat, cursor: int, end: int, need: int)
    requires GapsEndBy(bs, end) && need > 0 && Reached(bs, from, i, cursor)
    ensures var t := Sweep(bs[i..], cursor, end, need); t.Some? ==> from <= t.value && t.value + need <= end
    decreases |bs| - i
  {
    SweepAt(bs, i, cursor, end, need);
    if i < |bs| {
      if bs[i].start - cursor >= need {
        assert !CoveredBefore(bs, i, bs[i].start);
      } else {
        ReachedNext(bs, from, i, cursor);
        SweepInWindow(bs, from, i + 1, Max(cursor, bs[i].end), end, need);
      }
    }
  }

  function LatestEnd(bs: seq<Busy>): int
    requires bs != []
  {
    if |bs| == 1 then bs[0].end else Max(bs[0].end, LatestEnd(bs[1..]))
  }

  lemma {:induction false} LatestEndSpec(bs: seq<Busy>)
    requires bs != []
    ensures forall i :: 0 <= i < |bs| ==> bs[i].end <= LatestEnd(bs)
    ensures exists i :: 0 <= i < |bs| && bs[i].end == LatestEnd(bs)
  {
    if |bs| > 1 {
      LatestEndSpec(bs[1..]);
      var i :| 0 <= i < |bs[1..]| && bs[1..][i].end == LatestEnd(bs[1..]);
      assert bs[i + 1].end == LatestEnd(bs[1..]);
      assert forall k :: 0 < k < |bs| ==> bs[k] == bs[1..][k - 1];
      assert bs[0].end == LatestEnd(bs) || bs[i + 1].end == LatestEnd(bs);
    } else {
      assert bs[0].end == LatestEnd(bs);
    }
  }

  /** A cursor that all of the first `n` conflicts end by stays until a gap is wide enough. */
  lemma {:induction false} SweepStays(bs: seq<Busy>, n: nat, cursor: int, end: int, need: int)
    requires n < |bs| && bs[n].start - cursor >= need
    requires forall k :: 0 <= k < n ==> bs[k].end <= cursor
    ensures Sweep(bs, cursor, end, need) == Some(cursor)
    decreases n
  {
    if n > 0 {
      SweepStays(bs[1..], n - 1, cursor, end, need);
    }
  }

  /** A window from which the sweep offers the whole gap before conflict `i`, begun before `below` if `i` is
      the first. */
  lemma GapOffered(bs: seq<Busy>, i: nat, below: int, end: int) returns (from: int, need: int)
    requires i < |bs| && !CoveredBefore(bs, i, bs[i].start) && below <= bs[i].start
    ensures need > 0 && from + need == bs[i].start && Sweep(bs, from, end, need) == Some(from)
    ensures if i == 0 then from < below else exists k :: 0 <= k < i && bs[k].end == from
  {
    from := if i == 0 then below - 1 else LatestEnd(bs[..i]);
    if i > 0 {
      LatestEndSpec(bs[..i]);
      assert forall k :: 0 <= k < i ==> bs[k] == bs[..i][k];
      var k :| 0 <= k < i && bs[k].end == from;
    }
    need := bs[i].start - from;
    SweepStays(bs, i, from, end, need);
  }

  lemma LateGapSpoils(bs: seq<Busy>, i: nat, end: int)
    requires i < |bs| && !CoveredBefore(bs, i, bs[i].start) && bs[i].start > end
    ensures !AlwaysSound(bs, end)
  {
    var from, need := GapOffered(bs, i, bs[i].start, end);
    assert !SlotSound(bs, from, end, need);
  }

  lemma DisorderSpoils(bs: seq<Busy>, i: nat, j: nat, end: int)
    requires i < j < |bs| && !CoveredBefore(bs, i, bs[i].start)
    requires bs[j].start < bs[i].start && !CoveredBefore(bs, i, bs[j].end)
    ensures !AlwaysSound(bs, end)
  {
    var below := if bs[j].end < bs[j].start then bs[j].end else bs[j].start;
    var from, need := GapOffered(bs, i, below, end);
    assert Overlaps(from, need, bs[j]);
    assert !SlotSound(bs, from, end, need);
  }

  lemma SoundWhenOrderServes(bs: seq<Busy>, from: int, end: int, need: int)
    requires ServesSweep(bs) && GapsEndBy(bs, end) && need > 0
    ensures SlotSound(bs, from, end, need)
  {
    assert bs[0..] == bs;
    SweepSoundFrom(bs, from, 0, from, end, need);
    SweepInWindow(bs, from, 0, from, end, need);
  }

  /** Every window that ends at `end` gets sound answers for every positive duration if and only if the order
      serves the sweep and no gap opens before a conflict that starts after `end`. */
  lemma SoundExactlyWhenOrderServes(bs: seq<Busy>, end: int)
    ensures AlwaysSound(bs, end) <==> ServesSweep(bs) && GapsEndBy(bs, end)
  {
    if ServesSweep(bs) && GapsEndBy(bs, end) {
      forall from, need | need > 0 ensures SlotSound(bs, from, end, need) {
        SoundWhenOrderServes(bs, from, end, need);
      }
    } else if !ServesSweep(bs) {
      var i, j :| 0 <= i < j < |bs| && !CoveredBefore(bs, i, bs[i].start)
                  && bs[j].start < bs[i].start && !CoveredBefore(bs, i, bs[j].end);
      DisorderSpoils(bs, i, j, end);
    } else {
      var i :| 0 <= i < |bs| && !CoveredBefore(bs, i, bs[i].start) && bs[i].start > end;
      LateGapSpoils(bs, i, end);
    }
  }

  // ---- What sorting the text gives ----

  /** On the starts and the end of the window, text order is time order (one offset, one precision). */
  ghost predicate OneFormat(clock: Clock, aware: bool, cs: seq<Conflict>, windowTo: string) {
    forall a, b :: IsStart(cs, a) && (IsStart(cs, b) || b == windowTo) && TextLeq(a, b) ==>
      InTimeOrder(TimeOf(clock, a, aware), TimeOf(clock, b, aware))
  }

  predicate IsStart(cs: seq<Conflict>, s: string) {
    exists i :: 0 <= i < |cs| && cs[i].start == s
  }

  predicate InTimeOrder(a: Option<int>, b: Option<int>) {
    a.Some? && b.Some? ==> a.value <= b.value
  }

  /** The text filter of `find_conflicts`. */
  ghost predicate Listed(cs: seq<Conflict>, windowFrom: string, windowTo: string) {
    forall i :: 0 <= i < |cs| ==> TextLeq(windowFrom, cs[i].start) && TextLeq(cs[i].start, windowTo)
  }

  lemma SortedStarts(cs: seq<Conflict>, i: nat)
    requires i < |Sort(cs)|
    ensures IsStart(cs, Sort(cs)[i].start) && Sort(cs)[i] in cs
  {
    var c := Sort(cs)[i];
    assert c in multiset(Sort(cs));
    assert c in cs;
  }

  lemma SortedServes(clock: Clock, aware: bool, cs: seq<Conflict>, windowTo: string, bs: seq<Busy>)
    requires Parses(clock, aware, Sort(cs), bs) && OneFormat(clock, aware, cs, windowTo)
    ensures ServesSweep(bs)
  {
    SortSorted(cs);
    var sorted := Sort(cs);
    forall i, j | 0 <= i < j < |bs| ensures bs[i].start <= bs[j].start {
      SortedStarts(cs, i);
      SortedStarts(cs, j);
      assert TextLeq(sorted[i].start, sorted[j].start);
      assert InTimeOrder(TimeOf(clock, sorted[i].start, aware), TimeOf(clock, sorted[j].start, aware));
    }
  }

  lemma ListedStartsInTime(
    clock: Clock, aware: bool, cs: seq<Conflict>, windowFrom: string, windowTo: string, bs: seq<Busy>, end: int)
    requires Parses(clock, aware, Sort(cs), bs) && OneFormat(clock, aware, cs, windowTo)
    requires Listed(cs, windowFrom, windowTo) && clock(windowTo) == Some(Instant(aware, end))
    ensures GapsEndBy(bs, end)
  {
    forall i | 0 <= i < |bs| ensures bs[i].start <= end {
      SortedStarts(cs, i);
      assert InTimeOrder(TimeOf(clock, Sort(cs)[i].start, aware), TimeOf(clock, windowTo, aware));
    }
  }

  /** When the window and the conflicts that the text filter lists share one format, the answer lies in the
      window, is free of every conflict, and is the first such; no answer means that there is none. */
  lemma SlotCorrect(
    clock: Clock, aware: bool, cs: seq<Conflict>, bs: seq<Busy>, windowFrom: string, windowTo: string,
    from: int, end: int, need: int)
    requires clock(windowTo) == Some(Instant(aware, end)) && need > 0
    requires Listed(cs, windowFrom, windowTo) && OneFormat(clock, aware, cs, windowTo)
    requires Parses(clock, aware, Sort(cs), bs)
    ensures var r := SweepText(clock, aware, Sort(cs), from, Instant(aware, end), need);
            match r
            case Slot(t, u) =>
              && from <= t && u == t + need <= end && Free(t, need, bs)
              && forall e :: from <= e < t ==> !Free(e, need, bs)
            case NoSlot => forall e :: from <= e && e + need <= end ==> !Free(e, need, bs)
            case Raises => false
  {
    SweepTextParsed(clock, aware, Sort(cs), bs, from, end, need);
    SortedServes(clock, aware, cs, windowTo, bs);
    ListedStartsInTime(clock, aware, cs, windowFrom, windowTo, bs, end);
    SoundWhenOrderServes(bs, from, end, need);
    forall e | from <= e
      ensures Sweep(bs, from, end, need).Some? && e < Sweep(bs, from, end, need).value ==> !Free(e, need, bs)
      ensures Sweep(bs, from, end, need).None? && e + need <= end ==> !Free(e, need, bs)
    {
      SweepEarliest(bs, from, end, need, e);
    }
  }

  // ---- Against all events, listed or not ----

  /** The events whose start the text filter lets through. */
  function Filtered(events: seq<Conflict>, windowFrom: string, windowTo: string): seq<Conflict> {
    if events == [] then []
    else
      (if TextLeq(windowFrom, events[0].start) && TextLeq(events[0].start, windowTo) then [events[0]] else []) +
      Filtered(events[1..], windowFrom, windowTo)
  }

  lemma {:induction false} FilteredExactly(events: seq<Conflict>, windowFrom: string, windowTo: string)
    ensures Listed(Filtered(events, windowFrom, windowTo), windowFrom, windowTo)
    ensures forall c :: c in Filtered(events, windowFrom, windowTo) <==>
                          c in events && TextLeq(windowFrom, c.start) && TextLeq(c.start, windowTo)
  {
    if events != [] {
      FilteredExactly(events[1..], windowFrom, windowTo);
      assert events == [events[0]] + events[1..];
    }
  }

  /** All these texts parse as this kind, and their text order is their time order. */
  ghost predicate SameFormat(clock: Clock, aware: bool, texts: set<string>) {
    && (forall a :: a in texts ==> TimeOf(clock, a, aware).Some?)
    && (forall a, b :: a in texts && b in texts && TextLeq(a, b) ==>
          InTimeOrder(TimeOf(clock, a, aware), TimeOf(clock, b, aware)))
  }

  function Starts(events: seq<Conflict>): set<string> {
    set c | c in events :: c.start
  }

  /** The slot overlaps the event. */
  predicate Hit(clock: Clock, aware: bool, t: int, need: int, c: Conflict) {
    var s, e := TimeOf(clock, c.start, aware), TimeOf(clock, c.end, aware);
    s.Some? && e.Some? && Overlaps(t, need, Busy(s.value, e.value))
  }

  /** An event that began before the window and is not over at `t`. */
  predicate UnderWay(clock: Clock, aware: bool, windowFrom: string, t: int, c: Conflict) {
    var e := TimeOf(clock, c.end, aware);
    !TextLeq(windowFrom, c.start) && e.Some? && t < e.value
  }

  lemma ListedMissed(clock: Clock, aware: bool, cs: seq<Conflict>, bs: seq<Busy>, t: int, need: int, c: Conflict)
    requires Parses(clock, aware, Sort(cs), bs) && Free(t, need, bs) && c in cs
    ensures !Hit(clock, aware, t, need, c)
  {
    SortSorted(cs);
    assert c in multiset(cs) && c in Sort(cs);
    var i :| 0 <= i < |Sort(cs)| && Sort(cs)[i] == c;
    assert !Overlaps(t, need, bs[i]);
  }

  /** The answer to the question the caller asked, over every event of the participants, listed by the filter or not:
      it hits none of them if and only if none that began before the window is still under way at its start. */
  lemma FreeOfAllExactly(
    clock: Clock, aware: bool, events: seq<Conflict>, bs: seq<Busy>, windowFrom: string, windowTo: string,
    from: int, end: int, need: int)
    requires clock(windowFrom) == Some(Instant(aware, from)) && clock(windowTo) == Some(Instant(aware, end)) && need > 0
    requires SameFormat(clock, aware, Starts(events) + {windowFrom, windowTo})
    requires Parses(clock, aware, Sort(Filtered(events, windowFrom, windowTo)), bs)
    ensures var r := SweepText(clock, aware, Sort(Filtered(events, windowFrom, windowTo)), from, Instant(aware, end), need);
            r.Slot? ==>
              ((forall c :: c in events ==> !Hit(clock, aware, r.start, need, c)) <==>
               (forall c :: c in events ==> !UnderWay(clock, aware, windowFrom, r.start, c)))
  {
    var cs := Filtered(events, windowFrom, windowTo);
    FilteredExactly(events, windowFrom, windowTo);
    forall a, b | IsStart(cs, a) && (IsStart(cs, b) || b == windowTo) && TextLeq(a, b)
      ensures InTimeOrder(TimeOf(clock, a, aware), TimeOf(clock, b, aware))
    {
      assert a in Starts(events) && b in Starts(events) + {windowTo};
    }
    SlotCorrect(clock, aware, cs, bs, windowFrom, windowTo, from, end, need);
    var r := SweepText(clock, aware, Sort(cs), from, Instant(aware, end), need);
    if r.Slot? {
      forall c | c in events
        ensures Hit(clock, aware, r.start, need, c) <==> UnderWay(clock, aware, windowFrom, r.start, c)
      {
        assert c.start in Starts(events);
        TextTotal(windowFrom, c.start);
        TextTotal(c.start, windowTo);
        if c in cs {
          ListedMissed(clock, aware, cs, bs, r.start, need, c);
        }
      }
    }
  }

  // ---- Mixed offsets ----

  const DAY := "2026-08-01T"
  const EARLY := Conflict(DAY + "10:00+02:00", DAY + "11:00+02:00")
  const LATE := Conflict(DAY + "09:00Z", DAY + "10:00Z")

  /** Minutes after midnight UTC of the four timestamps above. */
  function MixedClock(s: string): Option<Instant> {
    if s == EARLY.start then Some(Instant(true, 480)) else if s == EARLY.end then Some(Instant(true, 540))
    else if s == LATE.start then Some(Instant(true, 540)) else if s == LATE.end then Some(Instant(true, 600))
    else None
  }

  lemma {:induction false} TextPrefix(p: string, a: string, b: string)
    requires TextLeq(a, b)
    ensures TextLeq(p + a, p + b)
  {
    if p == "" {
      assert p + a == a && p + b == b;
    } else {
      assert (p + a)[1..] == p[1..] + a && (p + b)[1..] == p[1..] + b;
      TextPrefix(p[1..], a, b);
    }
  }

  /** 09:00Z sorts before 10:00+02:00, which is an hour earlier. */
  lemma MixedOrder()
    ensures Sort([LATE, EARLY]) == [LATE, EARLY]
  {
    var a, b := "09:00Z", "10:00+02:00";
    TextPrefix(DAY, a, b);
    assert |LATE.start| != |EARLY.start|;
    assert Leq(LATE, EARLY);
    TwoInOrder(LATE, EARLY);
  }

  lemma TwoInOrder(a: Conflict, b: Conflict)
    requires Leq(a, b)
    ensures Sort([a, b]) == [a, b]
  {
    assert [a, b][1..] == [b] && [b][1..] == [];
    assert Sort([b]) == [b];
  }

  lemma MixedParses()
    ensures Parses(MixedClock, true, [LATE, EARLY], [Busy(540, 600), Busy(480, 540)])
  {
    assert |LATE.start| == |LATE.end| != |EARLY.start| == |EARLY.end|;
    assert LATE.start[12] != LATE.end[12] && EARLY.start[12] != EARLY.end[12];
  }

  /** Mixed offsets: the meeting at 08:00Z sorts after the one at 09:00Z, so from 07:00Z the sweep offers
      a 90-minute slot that runs into it. */
  lemma MixedOffsetsFail()
    ensures Parses(MixedClock, true, Sort([LATE, EARLY]), [Busy(540, 600), Busy(480, 540)])
    ensures !SlotSound([Busy(540, 600), Busy(480, 540)], 420, 720, 90)
  {
    MixedOrder();
    MixedParses();
    var bs := [Busy(540, 600), Busy(480, 540)];
    assert Sweep(bs, 420, 720, 90) == Some(420);
    assert Overlaps(420, 90, bs[1]);
  }

  // The window has an offset of its own: 11:30-05:00 is 16:30Z, but as text it is not after 12:00Z.

  const WINDOW_FROM := DAY + "11:00:00Z"
  const WINDOW_TO := DAY + "12:00:00Z"
  const AFTERNOON := Conflict(DAY + "11:30:00-05:00", DAY + "12:30:00-05:00")

  /** Minutes after midnight UTC of the four timestamps above. */
  function LateClock(s: string): Option<Instant> {
    if s == AFTERNOON.start then Some(Instant(true, 990)) else if s == AFTERNOON.end then Some(Instant(true, 1050))
    else if s == WINDOW_FROM then Some(Instant(true, 660)) else if s == WINDOW_TO then Some(Instant(true, 720))
    else None
  }

  lemma LateParses()
    ensures Parses(LateClock, true, [AFTERNOON], [Busy(990, 1050)])
    ensures LateClock(WINDOW_FROM) == Some(Instant(true, 660)) && LateClock(WINDOW_TO) == Some(Instant(true, 720))
  {
    assert |AFTERNOON.start| == |AFTERNOON.end| != |WINDOW_FROM| == |WINDOW_TO|;
    assert AFTERNOON.start[12] != AFTERNOON.end[12] && WINDOW_FROM[12] != WINDOW_TO[12];
  }

  /** A conflict after the window passes the text filter, whatever the order, and the sweep offers three hours in a
      window of one. */
  lemma LateConflictFails()
    ensures Listed([AFTERNOON], WINDOW_FROM, WINDOW_TO)
    ensures Parses(LateClock, true, Sort([AFTERNOON]), [Busy(990, 1050)])
    ensures ServesSweep([Busy(990, 1050)]) && !GapsEndBy([Busy(990, 1050)], 720)
    ensures var from, to := LateClock(WINDOW_FROM), LateClock(WINDOW_TO);
            && from == Some(Instant(true, 660)) && to == Some(Instant(true, 720))
            && SweepText(LateClock, true, Sort([AFTERNOON]), 660, to.value, 180) == Slot(660, 840)
            && !SlotSound([Busy(990, 1050)], 660, 720, 180)
  {
    TextPrefix(DAY, "11:00:00Z", "11:30:00-05:00");
    TextPrefix(DAY, "11:30:00-05:00", "12:00:00Z");
    LateParses();
    var bs := [Busy(990, 1050)];
    assert Sort([AFTERNOON]) == [AFTERNOON];
    assert bs[0].start == 990 && !CoveredBefore(bs, 0, 990);
    SweepTextParsed(LateClock, true, [AFTERNOON], bs, 660, 720, 180);
    assert Sweep(bs, 660, 720, 180) == Some(660);
  }
}
