/** How often the Atlas node runs over a mission's whole life: driver threads, the graph loop with its
    checkpointed step counter, parking and resuming, timeouts that leave a thread running, and restarts. */
module AtlasRuns {
  import opened Payloads
  import opened Missions

  /** Where the driver thread of the mission stands. A timed-out thread keeps its phase. */
  datatype Phase =
    | Idle
    | Scheduled(isFresh: bool)
    | Loaded(isFresh: bool, seen: State)   // the row has been read
    | Committed                          // commit_plan went through, the graph starts afresh
    | InAtlas(base: nat)                 // the Atlas node runs; `base` is the step count it read
    | Routing(afterTools: bool)          // a node has been checkpointed
    | InTools
    | Ended                              // the graph returned its final state
    | Crashing                           // an exception is on its way to `_bounded_run`

  /** `steps`: the checkpointed step count. `runs`: times the Atlas node was entered.
      `begins`: times a fresh graph state (step count 0) was written. */
  datatype World = World(state: State, phase: Phase, steps: Option<nat>, runs: nat, restarts: nat, begins: nat)

  datatype Event =
    | Claim                              // _claim_declared, by the sweep or a notification
    | ResumeNotice                       // _schedule_resumed
    | RecoverBoot                        // _recover_and_schedule
    | External(op: Op)                   // any engine call by anybody else
    | DraftSent                          // the draft extractor writes Done past the engine
    | Read
    | Drive                              // what the driver does after reading the row
    | Enter                              // the graph is invoked
    | AtlasDone                          // the Atlas node returns and is checkpointed
    | Route(goOn: bool)                  // the reply has tool calls; the tool message is no finish marker
    | ToolsDone
    | Conclude(op: Op)                   // the driver's last engine call
    | Raise                              // the driver raises
    | Contain                            // _bounded_run fails the mission after an exception
    | Timeout                            // _bounded_run fails the mission; the thread goes on
    | Restart                            // the daemon dies; checkpoints survive

  /** The mission state after an engine call; unchanged when the guard refuses it. */
  function After(s: State, op: Op): State {
    if Allowed(s, Target(op)) then Target(op) else s
  }

  const FAIL := Finish(false, [], "")

  function StepCount(w: World): nat {
    if w.steps.None? then 0 else w.steps.value
  }

  /** The driver after reading state `seen`. */
  function Driven(w: World, isFresh: bool, seen: State): World {
    if seen == Planning && !isFresh then w.(state := After(w.state, FAIL), phase := Idle)
    else if seen == Running || seen == AwaitingUser then w.(phase := InAtlas(StepCount(w)), runs := w.runs + 1)
    else
      var planning := if seen == Declared then After(w.state, StartPlanning) else w.state;
      if seen == Declared && !Allowed(w.state, Planning) then w.(phase := Crashing)
      else if Allowed(planning, Running) then w.(state := Running, phase := Committed)
      else w.(state := planning, phase := Crashing)
  }

  function Next(max: nat, w: World, e: Event): World {
    match e
    case Claim =>
      if w.phase.Idle? && w.state == Declared then w.(state := Planning, phase := Scheduled(true)) else w
    case ResumeNotice =>
      if w.phase.Idle? && w.state == Running then w.(phase := Scheduled(false)) else w
    case RecoverBoot =>
      if w.phase.Idle? && (w.state == Planning || w.state == Running) then
        if w.steps.Some? then w.(phase := Scheduled(false)) else w.(state := After(w.state, FAIL))
      else w
    case External(op) => w.(state := After(w.state, op))
    case DraftSent => w.(state := Done)
    case Read => if w.phase.Scheduled? then w.(phase := Loaded(w.phase.isFresh, w.state)) else w
    case Drive => if w.phase.Loaded? then Driven(w, w.phase.isFresh, w.phase.seen) else w
    case Enter =>
      if w.phase.Committed? then
        w.(phase := InAtlas(0), steps := Some(0), runs := w.runs + 1, begins := w.begins + 1)
      else w
    case AtlasDone => if w.phase.InAtlas? then w.(phase := Routing(false), steps := Some(w.phase.base + 1)) else w
    case Route(goOn) =>
      if !w.phase.Routing? then w
      else if StepCount(w) > max || !goOn then w.(phase := Ended)
      else if w.phase.afterTools then w.(phase := InAtlas(StepCount(w)), runs := w.runs + 1)
      else w.(phase := InTools)
    case ToolsDone => if w.phase.InTools? then w.(phase := Routing(true)) else w
    case Conclude(op) =>
      if !w.phase.Ended? then w
      else if StepCount(w) > max then
        if Allowed(w.state, Failed) then w.(state := Failed, phase := Idle) else w.(phase := Crashing)
      else if op.RequestUserInput? || op.Finish? then
        if Allowed(w.state, Target(op)) then w.(state := Target(op), phase := Idle) else w.(phase := Crashing)
      else w.(phase := Idle)
    case Raise => if w.phase.Idle? then w else w.(phase := Crashing)
    case Contain => if w.phase.Crashing? then w.(state := After(w.state, FAIL), phase := Idle) else w
    case Timeout => if w.phase.Idle? || w.phase.Crashing? then w else w.(state := After(w.state, FAIL))
    case Restart => if w.phase.Idle? then w else w.(phase := Idle, restarts := w.restarts + 1)
  }

  function RunAll(max: nat, w: World, es: seq<Event>): World
    decreases |es|
  {
    if es == [] then w else RunAll(max, Next(max, w, es[0]), es[1..])
  }

  const START := World(Declared, Idle, None, 0, 0, 0)

  /** Before its fresh driver reaches the graph, the Atlas node has not run. */
  predicate NotBegun(w: World) {
    w.runs == 0 && w.begins == 0 && w.steps == None
  }

  /** No Atlas call is under way and one more is affordable. `lost` counts the restarts that hit an
      Atlas call in progress, whose step was never checkpointed. */
  predicate Affordable(max: nat, w: World, lost: nat) {
    w.runs <= StepCount(w) + lost && StepCount(w) <= max + (w.restarts - lost)
  }

  /** One call is under way, uncounted. */
  predicate UnderWay(max: nat, w: World, lost: nat) {
    w.runs <= StepCount(w) + lost + 1 && StepCount(w) <= max + (w.restarts - lost)
  }

  /** A call has been counted; the limit may have been passed by one. */
  predicate Counted(max: nat, w: World, lost: nat) {
    w.runs <= StepCount(w) + lost && StepCount(w) <= max + (w.restarts - lost) + 1
  }

  ghost predicate Budget(max: nat, w: World, lost: nat) {
    match w.phase
    case Idle => IsTerminal(w.state) || Affordable(max, w, lost)
    case Scheduled(_) => Affordable(max, w, lost)
    case Loaded(_, _) => Affordable(max, w, lost)
    case Committed => Affordable(max, w, lost)
    case InAtlas(base) => base == StepCount(w) && UnderWay(max, w, lost)
    case Crashing => UnderWay(max, w, lost) || Counted(max, w, lost)
    case _ => Counted(max, w, lost)
  }

  /** Only the first driver is fresh, and it finds no earlier run. */
  ghost predicate Order(w: World) {
    && w.begins <= 1
    && (w.state == Declared ==> w.phase.Idle? && NotBegun(w))
    && (w.phase.Scheduled? && w.phase.isFresh ==> NotBegun(w))
    && (w.phase.Loaded? && w.phase.isFresh ==> NotBegun(w))
    && (w.phase.Loaded? ==> w.phase.seen != Declared && (IsTerminal(w.phase.seen) ==> IsTerminal(w.state)))
    && (w.phase.Committed? ==> NotBegun(w))
  }

  ghost predicate Inv(max: nat, w: World, lost: nat) {
    lost <= w.restarts && Order(w) && Budget(max, w, lost) && w.runs <= max + 1 + w.restarts
  }

  lemma DriveKeeps(max: nat, w: World, lost: nat)
    requires Inv(max, w, lost) && w.phase.Loaded?
    ensures Inv(max, Next(max, w, Drive), lost)
  {
  }

  lemma RestartKeeps(max: nat, w: World, lost: nat)
    requires Inv(max, w, lost)
    ensures Inv(max, Next(max, w, Restart), lost) || Inv(max, Next(max, w, Restart), lost + 1)
  {
  }

  lemma StepKeeps(max: nat, w: World, lost: nat, e: Event)
    requires Inv(max, w, lost)
    ensures exists l :: Inv(max, Next(max, w, e), l)
  {
    match e
    case Drive =>
      if w.phase.Loaded? {
        DriveKeeps(max, w, lost);
      }
      assert Inv(max, Next(max, w, e), lost);
    case Restart => RestartKeeps(max, w, lost);
    case _ => assert Inv(max, Next(max, w, e), lost);
  }

  lemma {:induction false} RunKeeps(max: nat, w: World, lost: nat, es: seq<Event>)
    requires Inv(max, w, lost)
    ensures exists l :: Inv(max, RunAll(max, w, es), l)
    decreases |es|
  {
    if es == [] {
      assert Inv(max, RunAll(max, w, es), lost);
    } else {
      StepKeeps(max, w, lost, es[0]);
      var l :| Inv(max, Next(max, w, es[0]), l);
      RunKeeps(max, Next(max, w, es[0]), l, es[1..]);
      assert RunAll(max, w, es) == RunAll(max, Next(max, w, es[0]), es[1..]);
    }
  }

  /** Over a mission's whole life, parks, resumes, timeouts, exceptions and interference by other
      callers included, the Atlas node runs at most `max` + 1 times plus once per daemon restart, and the
      step counter is reset at most once, before the first run. */
  lemma AtlasRunsBounded(max: nat, es: seq<Event>)
    ensures RunAll(max, START, es).runs <= max + 1 + RunAll(max, START, es).restarts
    ensures RunAll(max, START, es).begins <= 1
  {
    RunKeeps(max, START, 0, es);
  }

  // ---- How a life past the limit ends ----

  /** Nobody but the driver and the daemon acts on the mission. */
  predicate Alone(es: seq<Event>) {
    forall i :: 0 <= i < |es| ==> !es[i].External? && !es[i].DraftSent?
  }

  predicate InGraph(p: Phase) {
    p.InAtlas? || p.Routing? || p.InTools? || p.Ended? || p.Committed?
  }

  /** While the graph runs the mission is Running or has been timed out; past the limit, a driver that is through has
      failed it, unless a restart took the driver away. */
  predicate LimitInv(max: nat, w: World) {
    && (InGraph(w.phase) ==> w.state in {Running, Failed})
    && (w.phase.Loaded? ==> w.phase.seen in {Planning, Running, Failed} && (w.phase.seen == Running ==> w.state in {Running, Failed}))
    && (w.phase.Loaded? && w.phase.seen == Planning ==> w.state in {Planning, Failed})
    && (w.phase.Scheduled? ==> w.state in {Planning, Running, Failed})
    && (w.phase.Loaded? && w.phase.seen == Failed ==> w.state == Failed)
    && (StepCount(w) > max && w.phase.Idle? ==> w.state == Failed || w.restarts > 0)
    && (StepCount(w) > max ==> w.state in {Running, Failed} || w.restarts > 0)
    && (StepCount(w) > max && w.restarts == 0 && !w.phase.Idle? ==>
          (w.phase.Routing? || w.phase.Ended? || w.phase.Crashing?))
  }

  lemma LimitStep(max: nat, w: World, e: Event)
    requires LimitInv(max, w) && Order(w) && !e.External? && !e.DraftSent?
    ensures LimitInv(max, Next(max, w, e))
  {
  }

  lemma {:induction false} LimitRun(max: nat, w: World, lost: nat, es: seq<Event>)
    requires LimitInv(max, w) && Inv(max, w, lost) && Alone(es)
    ensures LimitInv(max, RunAll(max, w, es))
    decreases |es|
  {
    if es != [] {
      assert !es[0].External? && !es[0].DraftSent?;
      LimitStep(max, w, es[0]);
      StepKeeps(max, w, lost, es[0]);
      var l :| Inv(max, Next(max, w, es[0]), l);
      LimitRun(max, Next(max, w, es[0]), l, es[1..]);
    }
  }

  /** A mission that nobody interferes with and no restart interrupts, and that passes the limit, ends Failed once its
      driver is through. */
  lemma PastLimitFails(max: nat, es: seq<Event>)
    requires Alone(es)
    ensures var w := RunAll(max, START, es);
            StepCount(w) > max && w.phase.Idle? && w.restarts == 0 ==> w.state == Failed
  {
    LimitRun(max, START, 0, es);
  }

  /** Within the limit a driver that is through leaves the mission in the state its last call is for: waiting for the
      user, done or failed; if it has none, or the mission is no longer Running, the state stays. */
  lemma ConcludesAsCalled(max: nat, w: World, op: Op)
    requires w.phase.Ended? && StepCount(w) <= max && w.state == Running
    ensures var t := Next(max, w, Conclude(op));
            && t.phase.Idle?
            && (op.RequestUserInput? ==> t.state == AwaitingUser)
            && (op.Finish? ==> t.state == if op.done then Done else Failed)
            && (!op.RequestUserInput? && !op.Finish? ==> t.state == Running)
  {
  }

  /** A resumed mission goes back to the Atlas node with its checkpointed step count: resuming resets nothing. */
  lemma ResumeContinues(max: nat, w: World)
    requires w.phase.Idle? && w.state == Running
    ensures var t := Next(max, Next(max, Next(max, w, ResumeNotice), Read), Drive);
            t == w.(phase := InAtlas(StepCount(w)), runs := w.runs + 1)
  {
  }

  /** Failures end missions: a timeout, an exception that the daemon contains, and a recovery that finds no
      checkpoint leave a mission that had not ended Failed. */
  lemma FailuresEnd(max: nat, w: World, e: Event)
    requires match e
             case Timeout => !w.phase.Idle? && !w.phase.Crashing?
             case Contain => w.phase.Crashing?
             case RecoverBoot => w.phase.Idle? && w.steps.None? && w.state in {Planning, Running}
             case _ => false
    ensures Next(max, w, e).state == if IsTerminal(w.state) then w.state else Failed
  {
  }

  // ---- The bound is tight ----

  lemma {:induction false} RunConcat(max: nat, w: World, a: seq<Event>, b: seq<Event>)
    ensures RunAll(max, w, a + b) == RunAll(max, RunAll(max, w, a), b)
    decreases |a|
  {
    if a == [] {
      assert a + b == b;
    } else {
      assert (a + b)[1..] == a[1..] + b;
      RunConcat(max, Next(max, w, a[0]), a[1..], b);
    }
  }

  lemma FourEvents(max: nat, w: World, a: Event, b: Event, c: Event, d: Event)
    ensures RunAll(max, w, [a, b, c, d]) == Next(max, Next(max, Next(max, Next(max, w, a), b), c), d)
  {
    assert [a, b, c, d][1..] == [b, c, d] && [b, c, d][1..] == [c, d] && [c, d][1..] == [d] && [d][1..] == [];
    assert RunAll(max, w, [a, b, c, d]) == RunAll(max, Next(max, w, a), [b, c, d]);
    assert RunAll(max, Next(max, w, a), [b, c, d]) == RunAll(max, Next(max, Next(max, w, a), b), [c, d]);
    assert RunAll(max, Next(max, Next(max, w, a), b), [c, d]) ==
           RunAll(max, Next(max, Next(max, Next(max, w, a), b), c), [d]);
  }

  /** The Atlas node runs, `base` steps checkpointed before it. */
  function Working(base: nat, runs: nat, restarts: nat): World {
    World(Running, InAtlas(base), Some(base), runs, restarts, 1)
  }

  const BEGIN := [Claim, Read, Drive, Enter]
  const LOSE := [Restart, RecoverBoot, Read, Drive]
  const TURN := [AtlasDone, Route(true), ToolsDone, Route(true)]

  function Repeat(es: seq<Event>, n: nat): seq<Event> {
    if n == 0 then [] else es + Repeat(es, n - 1)
  }

  lemma {:induction false} Losing(max: nat, n: nat, base: nat, runs: nat, restarts: nat)
    ensures RunAll(max, Working(base, runs, restarts), Repeat(LOSE, n)) == Working(base, runs + n, restarts + n)
  {
    if n > 0 {
      RunConcat(max, Working(base, runs, restarts), LOSE, Repeat(LOSE, n - 1));
      FourEvents(max, Working(base, runs, restarts), Restart, RecoverBoot, Read, Drive);
      Losing(max, n - 1, base, runs + 1, restarts + 1);
    }
  }

  lemma {:induction false} Turning(max: nat, n: nat, base: nat, runs: nat, restarts: nat)
    requires base + n <= max
    ensures RunAll(max, Working(base, runs, restarts), Repeat(TURN, n)) == Working(base + n, runs + n, restarts)
  {
    if n > 0 {
      RunConcat(max, Working(base, runs, restarts), TURN, Repeat(TURN, n - 1));
      FourEvents(max, Working(base, runs, restarts), AtlasDone, Route(true), ToolsDone, Route(true));
      Turning(max, n - 1, base + 1, runs + 1, restarts);
    }
  }

  /** A claim and a first driver; restarts in the middle of its first Atlas call; full turns up to the limit. */
  function WorstLife(max: nat, restarts: nat): seq<Event> {
    BEGIN + (Repeat(LOSE, restarts) + Repeat(TURN, max))
  }

  /** The bound is reached for every limit and every number of restarts: a restart in the middle of an Atlas
      call loses its step, and the recovered driver runs the node again. */
  lemma BoundIsReached(max: nat, restarts: nat)
    ensures var w := RunAll(max, START, WorstLife(max, restarts));
            w.runs == max + 1 + restarts && w.restarts == restarts
  {
    FourEvents(max, START, Claim, Read, Drive, Enter);
    RunConcat(max, START, BEGIN, Repeat(LOSE, restarts) + Repeat(TURN, max));
    RunConcat(max, Working(0, 1, 0), Repeat(LOSE, restarts), Repeat(TURN, max));
    Losing(max, restarts, 0, 1, 0);
    Turning(max, max, 0, 1 + restarts, restarts);
  }

  ghost predicate WithinLimit(max: nat, restarts: nat) {
    forall es :: RunAll(max, START, es).restarts == restarts ==> RunAll(max, START, es).runs <= max + 1
  }

  /** The limit plus one holds of every life with this many restarts if and only if there is none; otherwise
      each restart adds exactly one run to the worst life. */
  lemma LimitHoldsExactlyWithoutRestarts(max: nat, restarts: nat)
    ensures WithinLimit(max, restarts) <==> restarts == 0
  {
    BoundIsReached(max, restarts);
    forall es ensures RunAll(max, START, es).runs <= max + 1 + RunAll(max, START, es).restarts {
      AtlasRunsBounded(max, es);
    }
  }
}
