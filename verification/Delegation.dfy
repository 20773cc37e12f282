/** A sentinel waits for the mission it delegated: LISTEN first, then one read, then a read per
    matching notification. Commits, notifications and the waiter are separate steps in any order, and the
    draft extractor may write the mission Done past the engine, which notifies nobody. */
module Delegation {
  import opened Payloads
  import opened Missions

  /** What the waiter's queue carries: a notification of its mission, of another one, or unreadable text. */
  datatype Note = Mine | Other | Garbled

  datatype Result = Terminal(state: State, payload: seq<Json>) | TimedOut

  datatype Waiter = Connecting | Listening | Looping | Returned(result: Result)

  /** `unsent`: commits on the mission whose notification has not been sent yet. `lost`: some
      notification failed to send (the engine only logs that). `silent`: a draft write met the mission before
      it had ended, and ended it. */
  datatype World = World(
    mission: Mission, unsent: nat, lost: bool, silent: bool, queue: seq<Note>, waiter: Waiter)

  /** What changes the mission: a committed engine call, a claim, a draft write. */
  datatype Write = ByOp(op: Op) | ByClaim | ByDraft

  datatype Step =
    | Commits(write: Write)
    | Sends
    | SendFails
    | OtherNotice(garbled: bool)
    | Listens
    | ReadsFirst
    | TakesNotice
    | StreamCloses
    | TimesOut

  predicate Registered(w: Waiter) {
    w.Listening? || w.Looping?
  }

  /** What a read of the mission makes of the waiter. */
  function AfterRead(m: Mission): Waiter {
    if IsTerminal(m.state) then Returned(Terminal(m.state, m.artifacts)) else Looping
  }

  function Committed(s: World, write: Write): World {
    match write
    case ByOp(op) =>
      var r := ApplyOp(s.mission, op);
      if r.None? then s else s.(mission := r.value, unsent := s.unsent + 1)
    case ByClaim =>
      if s.mission.state == Declared then s.(mission := s.mission.(state := Planning)) else s
    case ByDraft =>
      s.(mission := DraftDone(s.mission), silent := s.silent || !IsTerminal(s.mission.state))
  }

  function Next(s: World, step: Step): World {
    match step
    case Commits(write) => Committed(s, write)
    case Sends =>
      if s.unsent == 0 then s
      else s.(unsent := s.unsent - 1, queue := if Registered(s.waiter) then s.queue + [Mine] else s.queue)
    case SendFails => if s.unsent == 0 then s else s.(unsent := s.unsent - 1, lost := true)
    case OtherNotice(garbled) =>
      if Registered(s.waiter) then s.(queue := s.queue + [if garbled then Garbled else Other]) else s
    case Listens => if s.waiter.Connecting? then s.(waiter := Listening) else s
    case ReadsFirst => if s.waiter.Listening? then s.(waiter := AfterRead(s.mission)) else s
    case TakesNotice =>
      if s.waiter.Looping? && s.queue != [] then
        s.(queue := s.queue[1..], waiter := if s.queue[0].Mine? then AfterRead(s.mission) else Looping)
      else s
    case StreamCloses =>
      if s.waiter.Looping? then
        s.(waiter := Returned(if IsTerminal(s.mission.state) then Terminal(s.mission.state, s.mission.artifacts)
                              else TimedOut))
      else s
    case TimesOut => if s.waiter.Returned? then s else s.(waiter := Returned(TimedOut))
  }

  function Run(s: World, steps: seq<Step>): World
    decreases |steps|
  {
    if steps == [] then s else Run(Next(s, steps[0]), steps[1..])
  }

  /** `delegate` has just declared the mission; nothing is known about the declaring notification. */
  function Start(m: Mission, unsent: nat): World {
    World(m, unsent, false, false, [], Connecting)
  }

  /** Something will wake the waiter: a matching notification queued, or still to be sent, or lost by a failed
      send. */
  predicate Accounted(s: World) {
    Mine in s.queue || s.unsent > 0 || s.lost
  }

  predicate Sleeping(s: World) {
    s.waiter.Looping? && IsTerminal(s.mission.state)
  }

  /** The result is the mission's end as it was when the waiter read it: a draft write may have made it Done since. */
  predicate TrueResult(r: Result, m: Mission) {
    r.Terminal? ==>
      && IsTerminal(r.state) && IsTerminal(m.state) && r.payload == m.artifacts
      && (r.state == m.state || m == DraftDone(m))
  }

  /** Only a draft write that ended the mission leaves a looping waiter without a wakeup to come. */
  ghost predicate Inv(s: World) {
    && (Sleeping(s) ==> Accounted(s) || s.silent)
    && (s.waiter.Returned? ==> TrueResult(s.waiter.result, s.mission))
    && (s.silent ==> s.mission == DraftDone(s.mission))
  }

  lemma StepKeeps(s: World, step: Step)
    requires Inv(s)
    ensures Inv(Next(s, step))
  {
    match step
    case Sends =>
      if s.unsent > 0 && Registered(s.waiter) {
        assert (s.queue + [Mine])[|s.queue|] == Mine;
        assert Mine in s.queue + [Mine];
      }
    case OtherNotice(garbled) =>
      assert Mine in s.queue ==> Mine in s.queue + [if garbled then Garbled else Other];
    case TakesNotice =>
      if s.queue != [] {
        assert s.queue == [s.queue[0]] + s.queue[1..];
      }
    case _ =>
  }

  lemma {:induction false} NoLostWakeup(s: World, steps: seq<Step>)
    requires Inv(s)
    ensures Inv(Run(s, steps))
    decreases |steps|
  {
    if steps != [] {
      StepKeeps(s, steps[0]);
      NoLostWakeup(Next(s, steps[0]), steps[1..]);
    }
  }

  /** In every interleaving: the waiter cannot sleep through the end of its mission unless a draft write ended it,
      and what it returns, a timeout apart, is a terminal state with the mission's final artifacts; the state is the
      mission's own unless a draft write has made it Done since. */
  lemma WaiterSound(m: Mission, unsent: nat, steps: seq<Step>)
    ensures var s := Run(Start(m, unsent), steps);
            && (Sleeping(s) ==> Accounted(s) || s.silent)
            && (s.waiter.Returned? ==> TrueResult(s.waiter.result, s.mission))
  {
    NoLostWakeup(Start(m, unsent), steps);
  }

  /** A result never changes, and neither do the artifacts; the mission stays as it is exactly when no draft write
      meets it, unless one already has. */
  lemma {:induction false} ResultIsFinal(s: World, steps: seq<Step>)
    requires Inv(s) && s.waiter.Returned? && s.waiter.result.Terminal?
    ensures var t := Run(s, steps);
            && t.waiter == s.waiter && t.mission.artifacts == s.mission.artifacts
            && (t.mission == s.mission <==> Commits(ByDraft) !in steps || s.mission == DraftDone(s.mission))
            && t.mission == if Commits(ByDraft) in steps then DraftDone(s.mission) else s.mission
    decreases |steps|
  {
    if steps != [] {
      StepKeeps(s, steps[0]);
      ResultIsFinal(Next(s, steps[0]), steps[1..]);
      assert steps == [steps[0]] + steps[1..];
    }
  }

  /** What each write makes of the mission that is waited for. */
  lemma WriteExactly(s: World, write: Write)
    ensures var t := Next(s, Commits(write)).mission;
            match write
            case ByOp(op) =>
              if ApplyOp(s.mission, op).Some? then Leaves(s.mission, op, t) else t == s.mission
            case ByClaim => t == if s.mission.state == Declared then s.mission.(state := Planning) else s.mission
            case ByDraft => t == s.mission.(state := Done, reason := Some("draft_sent_by_user"))
  {
    if write.ByOp? && ApplyOp(s.mission, write.op).Some? {
      ApplyLeaves(s.mission, write.op);
    }
  }

  /** When the engine's `Finish` ends the mission, whatever terminal result `delegate` then returns carries its final
      artifacts last, and its state unless a draft write has come in between. */
  lemma FinishedIsReturned(s: World, done: bool, final: seq<Json>, note: string, steps: seq<Step>)
    requires Inv(s) && !s.waiter.Returned? && s.mission.state == Running
    ensures var t := Run(Next(s, Commits(ByOp(Finish(done, final, note)))), steps);
            t.waiter.Returned? && t.waiter.result.Terminal? ==>
              && t.waiter.result.payload == s.mission.artifacts + final
              && (Commits(ByDraft) !in steps ==> t.waiter.result.state == if done then Done else Failed)
  {
    ApplyLeaves(s.mission, Finish(done, final, note));
    EndedResult(Next(s, Commits(ByOp(Finish(done, final, note)))), steps);
  }

  /** A mission that has ended gives its end as the only terminal result. */
  lemma {:induction false} EndedResult(s: World, steps: seq<Step>)
    requires IsTerminal(s.mission.state)
    requires s.waiter.Returned? && s.waiter.result.Terminal? ==> s.waiter.result.payload == s.mission.artifacts
    ensures var t := Run(s, steps);
            t.waiter.Returned? && t.waiter.result.Terminal? ==>
              && t.waiter.result.payload == s.mission.artifacts
              && (Commits(ByDraft) !in steps
                  && (s.waiter.Returned? && s.waiter.result.Terminal? ==> s.waiter.result.state == s.mission.state) ==>
                    t.waiter.result.state == s.mission.state)
    decreases |steps|
  {
    if steps != [] {
      assert steps == [steps[0]] + steps[1..];
      EndedResult(Next(s, steps[0]), steps[1..]);
    }
  }

  /** When the stream of notifications closes on a finished mission, `delegate` still returns its end; on an
      unfinished one it reports a timeout. */
  lemma CloseReturnsEnd(s: World)
    requires s.waiter.Looping?
    ensures Next(s, StreamCloses).waiter.Returned?
    ensures IsTerminal(s.mission.state) <==> Next(s, StreamCloses).waiter.result.Terminal?
    ensures IsTerminal(s.mission.state) ==>
              Next(s, StreamCloses).waiter.result == Terminal(s.mission.state, s.mission.artifacts)
  {
  }

  // ---- The wakeup arrives: sending what is unsent and reading the queue ends the wait ----

  function SendAll(s: World): World
    decreases s.unsent
  {
    if s.unsent == 0 then s else SendAll(Next(s, Sends))
  }

  function TakeAll(s: World): World
    decreases s.queue
  {
    if s.waiter.Looping? && s.queue != [] then TakeAll(Next(s, TakesNotice)) else s
  }

  lemma {:induction false} SendAllKeeps(s: World)
    requires s.waiter.Looping?
    ensures var t := SendAll(s);
            && t.unsent == 0 && t.waiter.Looping? && t.mission == s.mission
            && (Mine in t.queue <==> Mine in s.queue || s.unsent > 0)
    decreases s.unsent
  {
    if s.unsent > 0 {
      assert (s.queue + [Mine])[|s.queue|] == Mine;
      SendAllKeeps(Next(s, Sends));
    }
  }

  lemma {:induction false} TakeAllReturns(s: World)
    requires Sleeping(s)
    ensures TakeAll(s).waiter ==
            if Mine in s.queue then Returned(Terminal(s.mission.state, s.mission.artifacts)) else Looping
    decreases s.queue
  {
    if s.queue != [] {
      assert s.queue == [s.queue[0]] + s.queue[1..];
      if !s.queue[0].Mine? {
        TakeAllReturns(Next(s, TakesNotice));
      }
    }
  }

  /** From every reachable state where the waiter loops on a terminal mission and no notification failed,
      delivering and reading notifications alone makes `delegate` return the mission's end exactly when one is
      queued or unsent; and one is, unless a draft write ended the mission. */
  lemma WaitEnds(m: Mission, unsent: nat, steps: seq<Step>)
    ensures var s := Run(Start(m, unsent), steps);
            Sleeping(s) && !s.lost ==>
              && (TakeAll(SendAll(s)).waiter == Returned(Terminal(s.mission.state, s.mission.artifacts))
                  <==> Mine in s.queue || s.unsent > 0)
              && (Mine in s.queue || s.unsent > 0 || s.silent)
  {
    var s := Run(Start(m, unsent), steps);
    NoLostWakeup(Start(m, unsent), steps);
    if Sleeping(s) && !s.lost {
      SendAllKeeps(s);
      TakeAllReturns(SendAll(s));
    }
  }

  // ---- Exactly the draft writes that end a mission lose wakeups ----

  /** What the writes make of the mission, whoever is waiting. */
  function Written(m: Mission, write: Write): Mission {
    match write
    case ByOp(op) => if ApplyOp(m, op).None? then m else ApplyOp(m, op).value
    case ByClaim => if m.state == Declared then m.(state := Planning) else m
    case ByDraft => DraftDone(m)
  }

  /** No draft write meets the mission before it has ended. */
  predicate NoSilentEnd(m: Mission, writes: seq<Write>)
    decreases |writes|
  {
    writes == [] ||
    ((writes[0].ByDraft? ==> IsTerminal(m.state)) && NoSilentEnd(Written(m, writes[0]), writes[1..]))
  }

  /** The writes of an interleaving, in order. */
  function WritesOf(steps: seq<Step>): seq<Write> {
    if steps == [] then []
    else (if steps[0].Commits? then [steps[0].write] else []) + WritesOf(steps[1..])
  }

  lemma {:induction false} SilentOnlyByDraft(s: World, steps: seq<Step>)
    ensures Run(s, steps).silent <==> s.silent || !NoSilentEnd(s.mission, WritesOf(steps))
    decreases |steps|
  {
    if steps != [] {
      var t := Next(s, steps[0]);
      SilentOnlyByDraft(t, steps[1..]);
      if steps[0].Commits? {
        assert t.mission == Written(s.mission, steps[0].write);
        assert WritesOf(steps)[1..] == WritesOf(steps[1..]);
      } else {
        assert WritesOf(steps) == WritesOf(steps[1..]);
      }
    }
  }

  /** A looping waiter with nothing queued, sent or lost. */
  predicate Attentive(s: World) {
    s.waiter.Looping? && s.queue == [] && s.unsent == 0 && !s.lost
  }

  /** Each write committed, and announced at once if the engine made it. */
  function Promptly(m: Mission, writes: seq<Write>): seq<Step>
    decreases |writes|
  {
    if writes == [] then []
    else
      [Commits(writes[0])] +
      (if writes[0].ByOp? && ApplyOp(m, writes[0].op).Some? then [Sends, TakesNotice] else []) +
      Promptly(Written(m, writes[0]), writes[1..])
  }

  function WriteIn(step: Step): seq<Write> {
    if step.Commits? then [step.write] else []
  }

  lemma WritesFirst(steps: seq<Step>)
    requires steps != []
    ensures WritesOf(steps) == WriteIn(steps[0]) + WritesOf(steps[1..])
  {
  }

  lemma Regroup(a: seq<Write>, b: seq<Write>, c: seq<Write>)
    ensures a + b + c == a + (b + c)
  {
  }

  lemma {:induction false} WritesConcat(a: seq<Step>, b: seq<Step>)
    ensures WritesOf(a + b) == WritesOf(a) + WritesOf(b)
  {
    if a == [] {
      assert a + b == b;
    } else {
      assert (a + b)[1..] == a[1..] + b && (a + b)[0] == a[0];
      WritesFirst(a + b);
      WritesFirst(a);
      WritesConcat(a[1..], b);
      Regroup(WriteIn(a[0]), WritesOf(a[1..]), WritesOf(b));
    }
  }

  lemma {:induction false} RunConcat(s: World, a: seq<Step>, b: seq<Step>)
    ensures Run(s, a + b) == Run(Run(s, a), b)
    decreases |a|
  {
    if a == [] {
      assert a + b == b;
    } else {
      assert (a + b)[1..] == a[1..] + b;
      RunConcat(Next(s, a[0]), a[1..], b);
    }
  }

  lemma {:induction false} PromptWrites(m: Mission, writes: seq<Write>)
    ensures WritesOf(Promptly(m, writes)) == writes
    decreases |writes|
  {
    if writes != [] {
      var first := [Commits(writes[0])];
      var told := if writes[0].ByOp? && ApplyOp(m, writes[0].op).Some? then [Sends, TakesNotice] else [];
      var rest := Promptly(Written(m, writes[0]), writes[1..]);
      PromptWrites(Written(m, writes[0]), writes[1..]);
      WritesConcat(first + told, rest);
      WritesConcat(first, told);
      assert first[1..] == [] && WritesOf(first) == [writes[0]];
      assert [Sends, TakesNotice][1..] == [TakesNotice] && [TakesNotice][1..] == [];
      assert WritesOf(told) == [];
    }
  }

  /** One write, announced: the waiter is attentive again if the mission has not ended, or ended silently. */
  lemma PromptWrite(s: World, write: Write)
    requires Attentive(s)
    requires !IsTerminal(Written(s.mission, write).state) || write.ByDraft? || IsTerminal(s.mission.state)
    ensures var told := if write.ByOp? && ApplyOp(s.mission, write.op).Some? then [Sends, TakesNotice] else [];
            var t := Run(s, [Commits(write)] + told);
            Attentive(t) && t.mission == Written(s.mission, write)
  {
    var told := if write.ByOp? && ApplyOp(s.mission, write.op).Some? then [Sends, TakesNotice] else [];
    var u := Next(s, Commits(write));
    assert ([Commits(write)] + told)[1..] == told;
    if told != [] {
      assert told[1..] == [TakesNotice] && [TakesNotice][1..] == [];
      var v := Next(u, Sends);
      assert v.queue == [Mine];
      assert Run(u, told) == Run(v, [TakesNotice]) == Run(Next(v, TakesNotice), []);
    }
  }

  lemma {:induction false} SilentEndSleeps(s: World, writes: seq<Write>)
    requires Attentive(s) && (IsTerminal(s.mission.state) || !NoSilentEnd(s.mission, writes))
    ensures var t := Run(s, Promptly(s.mission, writes)); Attentive(t) && IsTerminal(t.mission.state)
    decreases |writes|
  {
    if writes != [] {
      var m := Written(s.mission, writes[0]);
      var told := if writes[0].ByOp? && ApplyOp(s.mission, writes[0].op).Some? then [Sends, TakesNotice] else [];
      if IsTerminal(m.state) && !IsTerminal(s.mission.state) && !writes[0].ByDraft? {
        EndedLoudly(m, writes[1..]);
      }
      PromptWrite(s, writes[0]);
      var t := Run(s, [Commits(writes[0])] + told);
      RunConcat(s, [Commits(writes[0])] + told, Promptly(m, writes[1..]));
      SilentEndSleeps(t, writes[1..]);
    }
  }

  /** A mission that has ended is not ended again by a draft write. */
  lemma {:induction false} EndedLoudly(m: Mission, writes: seq<Write>)
    requires IsTerminal(m.state)
    ensures NoSilentEnd(m, writes)
    decreases |writes|
  {
    if writes != [] {
      EndedLoudly(Written(m, writes[0]), writes[1..]);
    }
  }

  function SendsOf(n: nat): seq<Step> {
    if n == 0 then [] else [Sends] + SendsOf(n - 1)
  }

  /** Notifications sent before LISTEN reach nobody. */
  lemma {:induction false} SentTooEarly(m: Mission, n: nat)
    ensures Run(Start(m, n), SendsOf(n)) == Start(m, 0) && WritesOf(SendsOf(n)) == []
  {
    if n > 0 {
      assert SendsOf(n)[1..] == SendsOf(n - 1);
      SentTooEarly(m, n - 1);
    }
  }

  /** In every interleaving with these writes, a waiter that loops on the ended mission has a wakeup to come. */
  ghost predicate AlwaysAccounted(m: Mission, unsent: nat, writes: seq<Write>) {
    forall steps :: WritesOf(steps) == writes && Sleeping(Run(Start(m, unsent), steps)) ==>
      Accounted(Run(Start(m, unsent), steps))
  }

  /** No wakeup is lost, whatever the interleaving, if and only if no draft write ends the mission. */
  lemma NoLostWakeupExactly(m: Mission, unsent: nat, writes: seq<Write>)
    ensures AlwaysAccounted(m, unsent, writes) <==> NoSilentEnd(m, writes)
  {
    if NoSilentEnd(m, writes) {
      forall steps | WritesOf(steps) == writes && Sleeping(Run(Start(m, unsent), steps))
        ensures Accounted(Run(Start(m, unsent), steps))
      {
        NoLostWakeup(Start(m, unsent), steps);
        SilentOnlyByDraft(Start(m, unsent), steps);
      }
    } else {
      SilentEndReached(m, unsent, writes);
    }
  }

  /** The interleaving that loses the wakeup: everything else is announced and read at once. */
  lemma SilentEndReached(m: Mission, unsent: nat, writes: seq<Write>)
    requires !NoSilentEnd(m, writes)
    ensures var steps := SendsOf(unsent) + ([Listens, ReadsFirst] + Promptly(m, writes));
            var t := Run(Start(m, unsent), steps);
            WritesOf(steps) == writes && Sleeping(t) && !Accounted(t)
  {
    if IsTerminal(m.state) {
      EndedLoudly(m, writes);
    }
    var ready := [Listens, ReadsFirst];
    var s := Next(Next(Start(m, 0), Listens), ReadsFirst);
    assert ready[1..] == [ReadsFirst] && [ReadsFirst][1..] == [];
    assert Run(Start(m, 0), ready) == Run(Next(Start(m, 0), Listens), [ReadsFirst]) == Run(s, []);
    SentTooEarly(m, unsent);
    RunConcat(Start(m, unsent), SendsOf(unsent), ready + Promptly(m, writes));
    RunConcat(Start(m, 0), ready, Promptly(m, writes));
    SilentEndSleeps(s, writes);
    WritesConcat(SendsOf(unsent), ready + Promptly(m, writes));
    WritesConcat(ready, Promptly(m, writes));
    assert WritesOf(ready) == WritesOf([ReadsFirst]) == [];
    PromptWrites(m, writes);
  }

  /** And the waiter sleeps on whatever is written: only the end of the stream or the timeout lets it return. */
  lemma {:induction false} SleepsUntilTimeout(s: World, steps: seq<Step>)
    requires Sleeping(s) && s.unsent == 0 && Mine !in s.queue
    requires StreamCloses !in steps && TimesOut !in steps
    ensures Run(s, steps).waiter.Looping?
    decreases |steps|
  {
    if steps != [] {
      var step := steps[0];
      assert steps == [step] + steps[1..];
      if step.TakesNotice? && s.queue != [] {
        assert s.queue == [s.queue[0]] + s.queue[1..];
      }
      SleepsUntilTimeout(Next(s, step), steps[1..]);
    }
  }

  // ---- Why LISTEN comes before the first read ----

  /** The order the docstring warns about: read, then LISTEN. */
  function ReadThenListen(s: World, between: seq<Step>): World {
    var read := s.(waiter := if IsTerminal(s.mission.state) then AfterRead(s.mission) else Connecting);
    var later := Run(read, between);
    if later.waiter.Connecting? then later.(waiter := Looping) else later
  }

  /** With that order, a mission that finishes and notifies in between leaves a waiter with nothing to
      wake it, although no notification was lost. */
  lemma ReadBeforeListenLosesWakeup(m: Mission)
    requires m.state == Running
    ensures var s := ReadThenListen(Start(m, 0), [Commits(ByOp(Finish(true, [], ""))), Sends]);
            s.waiter.Looping? && IsTerminal(s.mission.state) && !s.lost && s.unsent == 0 && s.queue == []
  {
    var steps := [Commits(ByOp(Finish(true, [], ""))), Sends];
    assert steps[1..] == [Sends] && [Sends][1..] == [];
    assert Run(Start(m, 0), steps) == Next(Next(Start(m, 0), steps[0]), Sends);
  }
}
