/** The mail observer's cursor over the server's change log: ticks, failed calls and crashes. */
module Observer {
  import opened Payloads

  /** A change of one email. The state string after `n` changes is modelled as `n`. */
  datatype Change = Changed(id: string) | Destroyed(id: string)

  datatype Phase = Idle | Dispatching(from: nat, to: nat, ids: seq<string>, done: nat)

  /** One call of `_dispatch`, whatever became of it, and the answer it came from. */
  datatype Handed = Handed(id: string, from: nat, to: nat)

  /** An answer the observer acts on: `ids` lists the created emails, then the updated ones. */
  datatype Answer = Answer(from: nat, to: nat, ids: seq<string>)

  /** `origin`: the state stored by the bootstrap. `answers`: all answers taken, in order. */
  datatype World = World(
    log: seq<Change>, stored: Option<nat>, origin: nat, phase: Phase,
    answers: seq<Answer>, handed: seq<Handed>, crashes: nat)

  datatype Step =
    | Grow(changes: seq<Change>)
    | Bootstrap
    | Ask(to: nat, created: seq<string>, updated: seq<string>)
    | Hand
    | Save
    | Crash

  predicate DestroyedIn(log: seq<Change>, id: string, from: nat, to: nat)
    requires to <= |log|
  {
    exists i :: from <= i < to && log[i] == Destroyed(id)
  }

  predicate Distinct(ids: seq<string>) {
    forall i, j :: 0 <= i < j < |ids| ==> ids[i] != ids[j]
  }

  /** What a server that follows section 5.2 of RFC 8620 may answer: some state no older than the one asked
      about, and every email created or updated in between, unless it was destroyed in between. An email
      created and then updated may be listed twice. */
  predicate Answers(log: seq<Change>, from: nat, to: nat, ids: seq<string>) {
    && from <= to <= |log|
    && forall i :: from <= i < to && log[i].Changed? ==> log[i].id in ids || DestroyedIn(log, log[i].id, i, to)
  }

  function Next(w: World, s: Step): World {
    match s
    case Grow(changes) => w.(log := w.log + changes)
    case Bootstrap =>
      if w.phase.Idle? && w.stored.None? then w.(stored := Some(|w.log|), origin := |w.log|) else w
    case Ask(to, created, updated) =>
      var ids := created + updated;
      if w.phase.Idle? && w.stored.Some? && Answers(w.log, w.stored.value, to, ids) then
        w.(phase := Dispatching(w.stored.value, to, ids, 0), answers := w.answers + [Answer(w.stored.value, to, ids)])
      else w
    case Hand =>
      if w.phase.Dispatching? && w.phase.done < |w.phase.ids| then
        w.(phase := w.phase.(done := w.phase.done + 1),
           handed := w.handed + [Handed(w.phase.ids[w.phase.done], w.phase.from, w.phase.to)])
      else w
    case Save =>
      if w.phase.Dispatching? && w.phase.done == |w.phase.ids| then w.(stored := Some(w.phase.to), phase := Idle)
      else w
    case Crash => if w.phase.Idle? then w else w.(phase := Idle, crashes := w.crashes + 1)
  }

  function Run(w: World, steps: seq<Step>): World
    decreases |steps|
  {
    if steps == [] then w else Run(Next(w, steps[0]), steps[1..])
  }

  function Start(log: seq<Change>): World {
    World(log, None, 0, Idle, [], [], 0)
  }

  /** Some `_dispatch` call stems from an answer that covers change `i` of `id`. */
  ghost predicate Covered(handed: seq<Handed>, id: string, i: nat) {
    exists k :: 0 <= k < |handed| && handed[k].id == id && handed[k].from <= i < handed[k].to
  }

  ghost predicate NoGap(w: World, upTo: nat) {
    upTo <= |w.log| && forall i :: w.origin <= i < upTo && w.log[i].Changed? ==>
      Covered(w.handed, w.log[i].id, i) || DestroyedIn(w.log, w.log[i].id, i, |w.log|)
  }

  ghost predicate HandedSoFar(w: World) {
    w.phase.Dispatching? ==>
      && w.stored == Some(w.phase.from) && w.phase.done <= |w.phase.ids|
      && Answers(w.log, w.phase.from, w.phase.to, w.phase.ids)
      && forall k :: 0 <= k < w.phase.done ==> Handed(w.phase.ids[k], w.phase.from, w.phase.to) in w.handed
  }

  ghost predicate Inv(w: World) {
    && (w.stored.None? ==> w.handed == [] && w.phase.Idle?)
    && (w.stored.Some? ==> w.origin <= w.stored.value && NoGap(w, w.stored.value))
    && HandedSoFar(w)
  }

  lemma GrowKeeps(w: World, changes: seq<Change>)
    requires Inv(w)
    ensures Inv(Next(w, Grow(changes)))
  {
    var t := Next(w, Grow(changes));
    assert forall i :: 0 <= i < |w.log| ==> t.log[i] == w.log[i];
    forall i: nat, id, to: nat | to <= |w.log| && DestroyedIn(w.log, id, i, to)
      ensures DestroyedIn(t.log, id, i, to) && DestroyedIn(t.log, id, i, |t.log|)
    {
      var j :| i <= j < to && w.log[j] == Destroyed(id);
      assert t.log[j] == Destroyed(id);
    }
  }

  lemma HandKeeps(w: World)
    requires Inv(w)
    ensures Inv(Next(w, Hand))
  {
    var t := Next(w, Hand);
    assert forall k :: 0 <= k < |w.handed| ==> t.handed[k] == w.handed[k];
    assert forall h :: h in w.handed ==> h in t.handed;
    if t != w {
      assert t.handed[|w.handed|] == Handed(w.phase.ids[w.phase.done], w.phase.from, w.phase.to);
    }
    forall id, i: nat | Covered(w.handed, id, i) ensures Covered(t.handed, id, i) {
      var k :| 0 <= k < |w.handed| && w.handed[k].id == id && w.handed[k].from <= i < w.handed[k].to;
      assert t.handed[k] == w.handed[k];
    }
  }

  lemma SaveKeeps(w: World)
    requires Inv(w) && w.phase.Dispatching? && w.phase.done == |w.phase.ids|
    ensures Inv(Next(w, Save))
  {
    var from, to, ids := w.phase.from, w.phase.to, w.phase.ids;
    forall i | w.origin <= i < to && w.log[i].Changed?
      ensures Covered(w.handed, w.log[i].id, i) || DestroyedIn(w.log, w.log[i].id, i, |w.log|)
    {
      if i >= from {
        if w.log[i].id in ids {
          var k :| 0 <= k < |ids| && ids[k] == w.log[i].id;
          var h :| 0 <= h < |w.handed| && w.handed[h] == Handed(ids[k], from, to);
          assert Covered(w.handed, w.log[i].id, i);
        } else {
          var j :| i <= j < to && w.log[j] == Destroyed(w.log[i].id);
          assert DestroyedIn(w.log, w.log[i].id, i, |w.log|);
        }
      }
    }
  }

  lemma StepKeeps(w: World, s: Step)
    requires Inv(w)
    ensures Inv(Next(w, s))
    ensures w.stored.Some? ==> Next(w, s).stored.Some? && w.stored.value <= Next(w, s).stored.value
    ensures w.stored.Some? ==> Next(w, s).origin == w.origin
  {
    match s
    case Grow(changes) => GrowKeeps(w, changes);
    case Hand => HandKeeps(w);
    case Save =>
      if w.phase.Dispatching? && w.phase.done == |w.phase.ids| {
        SaveKeeps(w);
      }
    case _ =>
  }

  lemma {:induction false} RunKeeps(w: World, steps: seq<Step>)
    requires Inv(w)
    ensures Inv(Run(w, steps))
    ensures w.stored.Some? ==> Run(w, steps).stored.Some? && w.stored.value <= Run(w, steps).stored.value
    ensures w.stored.Some? ==> Run(w, steps).origin == w.origin
    decreases |steps|
  {
    if steps != [] {
      StepKeeps(w, steps[0]);
      RunKeeps(Next(w, steps[0]), steps[1..]);
    }
  }

  /** No gaps: whatever the ticks, failures and crashes, every email created or updated between the bootstrap
      and the stored cursor has been handed to `_dispatch` in an answer covering that change, or is gone. */
  lemma CursorHasNoGaps(log: seq<Change>, steps: seq<Step>, i: nat)
    ensures var w := Run(Start(log), steps);
            w.stored.Some? && w.origin <= i < w.stored.value ==>
            i < |w.log| &&
            (w.log[i].Changed? ==> Covered(w.handed, w.log[i].id, i) || DestroyedIn(w.log, w.log[i].id, i, |w.log|))
  {
    RunKeeps(Start(log), steps);
  }

  /** The stored cursor never moves back, from any reachable state on. */
  lemma CursorNeverMovesBack(log: seq<Change>, before: seq<Step>, more: seq<Step>)
    ensures var w := Run(Start(log), before);
            w.stored.Some? ==> Run(w, more).stored.Some? && w.stored.value <= Run(w, more).stored.value
  {
    RunKeeps(Start(log), before);
    RunKeeps(Run(Start(log), before), more);
  }

  // ---- Once or twice, without crashes ----

  function HandedAll(ids: seq<string>, from: nat, to: nat): seq<Handed> {
    seq(|ids|, i requires 0 <= i < |ids| => Handed(ids[i], from, to))
  }

  /** Some change of an email has been handed over twice. */
  ghost predicate Twice(handed: seq<Handed>) {
    exists a, b, i :: SameChange(handed, a, b, i)
  }

  predicate SameChange(handed: seq<Handed>, a: int, b: int, i: nat) {
    && 0 <= a < b < |handed| && handed[a].id == handed[b].id
    && handed[a].from <= i < handed[a].to && handed[b].from <= i < handed[b].to
  }

  /** Some answer that covers a change lists an email twice. */
  ghost predicate Repeats(answers: seq<Answer>) {
    exists x :: 0 <= x < |answers| && RepeatsIn(answers[x])
  }

  predicate RepeatsIn(answer: Answer) {
    answer.from < answer.to && !Distinct(answer.ids)
  }

  /** What is handed over when every answer is worked through. */
  function Flat(answers: seq<Answer>): seq<Handed> {
    if answers == [] then []
    else
      var n := |answers| - 1;
      Flat(answers[..n]) + HandedAll(answers[n].ids, answers[n].from, answers[n].to)
  }

  ghost predicate UpTo(answers: seq<Answer>, state: nat) {
    forall x :: 0 <= x < |answers| ==> answers[x].to <= state
  }

  /** Each answer starts where all earlier ones have ended. */
  ghost predicate Ordered(answers: seq<Answer>) {
    forall x, y :: 0 <= x < y < |answers| ==> answers[x].to <= answers[y].from
  }

  /** The last answer is in progress: `done` of its emails have been handed over. */
  predicate InProgress(w: World) {
    && w.phase.Dispatching? && w.answers != [] && w.phase.done <= |w.phase.ids|
    && w.answers[|w.answers| - 1] == Answer(w.phase.from, w.phase.to, w.phase.ids)
    && w.handed == Flat(w.answers[..|w.answers| - 1])
                   + HandedAll(w.phase.ids[..w.phase.done], w.phase.from, w.phase.to)
  }

  ghost predicate OnceInv(w: World) {
    && Ordered(w.answers)
    && if w.phase.Idle? then
         w.handed == Flat(w.answers) && UpTo(w.answers, if w.stored.None? then 0 else w.stored.value)
       else
         InProgress(w) && UpTo(w.answers, w.phase.to)
  }

  lemma AskOnce(w: World, to: nat, created: seq<string>, updated: seq<string>)
    requires OnceInv(w)
    ensures OnceInv(Next(w, Ask(to, created, updated)))
  {
    var t := Next(w, Ask(to, created, updated));
    if t != w {
      assert t.answers[..|t.answers| - 1] == w.answers;
      assert HandedAll(t.phase.ids[..0], t.phase.from, t.phase.to) == [];
      assert t.handed == Flat(w.answers) + [];
    }
  }

  lemma HandOnce(w: World)
    requires OnceInv(w) && w.phase.Dispatching? && w.phase.done < |w.phase.ids|
    ensures OnceInv(Next(w, Hand))
  {
    var ids, n := w.phase.ids, w.phase.done;
    assert HandedAll(ids[..n + 1], w.phase.from, w.phase.to) ==
           HandedAll(ids[..n], w.phase.from, w.phase.to) + [Handed(ids[n], w.phase.from, w.phase.to)];
  }

  lemma OnceStep(w: World, s: Step)
    requires OnceInv(w) && Next(w, s).crashes == w.crashes
    ensures OnceInv(Next(w, s))
  {
    match s
    case Ask(to, created, updated) => AskOnce(w, to, created, updated);
    case Hand =>
      if w.phase.Dispatching? && w.phase.done < |w.phase.ids| {
        HandOnce(w);
      }
    case Save =>
      if w.phase.Dispatching? && w.phase.done == |w.phase.ids| {
        assert w.phase.ids[..w.phase.done] == w.phase.ids;
      }
    case _ =>
  }

  lemma {:induction false} CrashesGrow(w: World, steps: seq<Step>)
    ensures Run(w, steps).crashes >= w.crashes
    decreases |steps|
  {
    if steps != [] {
      CrashesGrow(Next(w, steps[0]), steps[1..]);
    }
  }

  lemma {:induction false} OnceRun(w: World, steps: seq<Step>)
    requires OnceInv(w) && Run(w, steps).crashes == w.crashes
    ensures OnceInv(Run(w, steps))
    decreases |steps|
  {
    if steps != [] {
      CrashesGrow(Next(w, steps[0]), steps[1..]);
      OnceStep(w, steps[0]);
      OnceRun(Next(w, steps[0]), steps[1..]);
    }
  }

  lemma TwiceInOne(answer: Answer)
    ensures Twice(HandedAll(answer.ids, answer.from, answer.to)) <==> RepeatsIn(answer)
  {
    var hs := HandedAll(answer.ids, answer.from, answer.to);
    if RepeatsIn(answer) {
      var a, b :| 0 <= a < b < |answer.ids| && answer.ids[a] == answer.ids[b];
      assert SameChange(hs, a, b, answer.from);
    }
    if a, b, i :| SameChange(hs, a, b, i) {
      assert answer.ids[a] == answer.ids[b];
    }
  }

  /** Calls of answers whose ranges do not meet share no change. */
  lemma TwiceApart(xs: seq<Handed>, ys: seq<Handed>, state: nat)
    requires forall k :: 0 <= k < |xs| ==> xs[k].to <= state
    requires forall k :: 0 <= k < |ys| ==> state <= ys[k].from
    ensures Twice(xs + ys) <==> Twice(xs) || Twice(ys)
  {
    var all := xs + ys;
    if a, b, i :| SameChange(all, a, b, i) {
      if b < |xs| {
        assert SameChange(xs, a, b, i);
      } else {
        assert a >= |xs|;
        assert SameChange(ys, a - |xs|, b - |xs|, i);
      }
    }
    if a, b, i :| SameChange(xs, a, b, i) {
      assert SameChange(all, a, b, i);
    }
    if a, b, i :| SameChange(ys, a, b, i) {
      assert SameChange(all, a + |xs|, b + |xs|, i);
    }
  }

  lemma {:induction false} FlatUpTo(answers: seq<Answer>, state: nat)
    requires UpTo(answers, state)
    ensures forall k :: 0 <= k < |Flat(answers)| ==> Flat(answers)[k].to <= state
  {
    if answers != [] {
      FlatUpTo(answers[..|answers| - 1], state);
    }
  }

  lemma RepeatsNext(answers: seq<Answer>)
    requires answers != []
    ensures Repeats(answers) <==> Repeats(answers[..|answers| - 1]) || RepeatsIn(answers[|answers| - 1])
  {
    var n := |answers| - 1;
    if x :| 0 <= x < n && RepeatsIn(answers[x]) {
      assert RepeatsIn(answers[..n][x]);
    }
    if x :| 0 <= x < n && RepeatsIn(answers[..n][x]) {
      assert RepeatsIn(answers[x]);
    }
  }

  lemma {:induction false} FlatTwice(answers: seq<Answer>)
    requires Ordered(answers)
    ensures Twice(Flat(answers)) <==> Repeats(answers)
  {
    if answers != [] {
      var n := |answers| - 1;
      var last := answers[n];
      FlatTwice(answers[..n]);
      FlatUpTo(answers[..n], last.from);
      TwiceApart(Flat(answers[..n]), HandedAll(last.ids, last.from, last.to), last.from);
      TwiceInOne(last);
      RepeatsNext(answers);
    }
  }

  lemma TwiceGrows(xs: seq<Handed>, ys: seq<Handed>)
    requires xs <= ys && Twice(xs)
    ensures Twice(ys)
  {
    var a, b, i :| SameChange(xs, a, b, i);
    assert SameChange(ys, a, b, i);
  }

  /** In every crash-free run no change is handed over twice unless some answer has repeated an email; and
      between ticks that is exactly when one has. */
  lemma HandedOnceExactly(log: seq<Change>, steps: seq<Step>)
    requires Run(Start(log), steps).crashes == 0
    ensures var w := Run(Start(log), steps);
            && (Twice(w.handed) ==> Repeats(w.answers))
            && (w.phase.Idle? ==> (Twice(w.handed) <==> Repeats(w.answers)))
  {
    OnceRun(Start(log), steps);
    var w := Run(Start(log), steps);
    FlatTwice(w.answers);
    if w.phase.Dispatching? && Twice(w.handed) {
      var n := |w.answers| - 1;
      assert w.handed <= Flat(w.answers) by {
        assert HandedAll(w.phase.ids[..w.phase.done], w.phase.from, w.phase.to) <=
               HandedAll(w.phase.ids, w.phase.from, w.phase.to);
      }
      TwiceGrows(w.handed, Flat(w.answers));
    }
  }

  lemma RunStep(w: World, s: Step, rest: seq<Step>)
    ensures Run(w, [s] + rest) == Run(Next(w, s), rest)
  {
    assert ([s] + rest)[1..] == rest;
  }

  /** It happens without a crash and with a server that keeps to the standard: an email created and then
      updated since the last tick may be in both lists, and both changes are then handed over twice. */
  lemma CreatedAndUpdatedTwice(log: seq<Change>, id: string)
    ensures exists steps :: var w := Run(Start(log), steps); w.crashes == 0 && w.phase.Idle? && Twice(w.handed)
  {
    var n := |log|;
    var w0 := Start(log);
    var w1 := Next(w0, Bootstrap);
    var w2 := Next(w1, Grow([Changed(id), Changed(id)]));
    var ask := Ask(n + 2, [id], [id]);
    assert [id] + [id] == [id, id];
    var w3 := Next(w2, ask);
    var w4 := Next(Next(w3, Hand), Hand);
    var w5 := Next(w4, Save);
    RunStep(w0, Bootstrap, [Grow([Changed(id), Changed(id)])] + ([ask] + ([Hand] + ([Hand] + ([Save] + [])))));
    RunStep(w1, Grow([Changed(id), Changed(id)]), [ask] + ([Hand] + ([Hand] + ([Save] + []))));
    RunStep(w2, ask, [Hand] + ([Hand] + ([Save] + [])));
    RunStep(w3, Hand, [Hand] + ([Save] + []));
    RunStep(Next(w3, Hand), Hand, [Save] + []);
    RunStep(w4, Save, []);
    assert SameChange(w5.handed, 0, 1, n);
  }

  // ---- The tick itself ----

  class MailObserver {
    var stored: Option<nat>
    var handed: seq<Handed>

    constructor ()
      ensures stored == None && handed == []
    {
      stored, handed := None, [];
    }

    /** `current`: the server's state; `answer`: its new state and the emails created and updated since the
        stored one. None: the call failed. */
    method RunTick(current: Option<nat>, answer: Option<(nat, seq<string>, seq<string>)>)
      modifies this
      ensures old(stored).None? ==> stored == current && handed == old(handed)
      ensures old(stored).Some? && answer.None? ==> stored == old(stored) && handed == old(handed)
      ensures old(stored).Some? && answer.Some? ==>
                && stored == Some(answer.value.0)
                && handed == old(handed) + HandedAll(answer.value.1 + answer.value.2, old(stored).value, answer.value.0)
    {
      if stored.None? {
        stored := current;
        return;
      }
      if answer.None? {
        return;
      }
      var to, ids := answer.value.0, answer.value.1 + answer.value.2;
      for i := 0 to |ids|
        invariant stored == old(stored)
        invariant handed == old(handed) + HandedAll(ids[..i], stored.value, to)
      {
        handed := handed + [Handed(ids[i], stored.value, to)];
        assert HandedAll(ids[..i + 1], stored.value, to) ==
               HandedAll(ids[..i], stored.value, to) + [Handed(ids[i], stored.value, to)];
      }
      assert ids[..|ids|] == ids;
      stored := Some(to);
    }
  }

  function HandSteps(n: nat): seq<Step> {
    if n == 0 then [] else [Hand] + HandSteps(n - 1)
  }

  lemma {:induction false} HandStepsRun(w: World, n: nat)
    requires w.phase.Dispatching? && w.phase.done + n == |w.phase.ids|
    ensures Run(w, HandSteps(n) + [Save]) ==
            w.(stored := Some(w.phase.to), phase := Idle,
               handed := w.handed + HandedAll(w.phase.ids[w.phase.done..], w.phase.from, w.phase.to))
    decreases n
  {
    var rest := w.phase.ids[w.phase.done..];
    if n == 0 {
      assert HandSteps(0) + [Save] == [Save] && [Save][1..] == [];
      assert Run(w, [Save]) == Run(Next(w, Save), []);
      assert w.handed + HandedAll(rest, w.phase.from, w.phase.to) == w.handed;
    } else {
      assert (HandSteps(n) + [Save])[1..] == HandSteps(n - 1) + [Save];
      HandStepsRun(Next(w, Hand), n - 1);
      assert HandedAll(rest, w.phase.from, w.phase.to) ==
             [Handed(rest[0], w.phase.from, w.phase.to)] + HandedAll(rest[1..], w.phase.from, w.phase.to);
    }
  }

  /** A tick that nothing interrupts is the run ask, hand over each, save: it has the effect of `RunTick`. */
  lemma TickIsRun(w: World, to: nat, created: seq<string>, updated: seq<string>)
    requires w.phase.Idle? && w.stored.Some? && Answers(w.log, w.stored.value, to, created + updated)
    ensures var ids := created + updated;
            Run(w, [Ask(to, created, updated)] + (HandSteps(|ids|) + [Save])) ==
            w.(stored := Some(to), answers := w.answers + [Answer(w.stored.value, to, ids)],
               handed := w.handed + HandedAll(ids, w.stored.value, to))
  {
    var ids := created + updated;
    var ask := Ask(to, created, updated);
    RunStep(w, ask, HandSteps(|ids|) + [Save]);
    HandStepsRun(Next(w, ask), |ids|);
    assert ids[0..] == ids;
  }
}
