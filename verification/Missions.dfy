/** Missions: the guard table, the engine's calls as atomic transactions on the mission table, the
    daemon's claim, and what every interleaving of such calls keeps. */
module Missions {
  import opened Payloads

  datatype State = Declared | Planning | Running | AwaitingUser | Done | Failed | Cancelled

  predicate IsTerminal(s: State) {
    s in {Done, Failed, Cancelled}
  }

  function AllowedFrom(s: State): set<State> {
    match s
    case Declared => {Planning, AwaitingUser, Cancelled, Failed}
    case Planning => {Running, Cancelled, Failed}
    case Running => {AwaitingUser, Done, Failed, Cancelled}
    case AwaitingUser => {Running, Cancelled, Failed}
    case Done => {}
    case Failed => {}
    case Cancelled => {}
  }

  predicate Allowed(a: State, b: State) {
    b in AllowedFrom(a)
  }

  datatype PlanStep = PlanStep(agent: string, tool: string)

  datatype Mission = Mission(
    owner: string, declaredAt: int, intent: string, plan: Option<seq<PlanStep>>,
    state: State, reason: Option<string>, artifacts: seq<Json>)

  function Fresh(owner: string, declaredAt: int, intent: string): Mission {
    Mission(owner, declaredAt, intent, None, Declared, None, [])
  }

  /** Engine calls on an existing mission. */
  datatype Op =
    | StartPlanning
    | CommitPlan(plan: seq<PlanStep>)
    | RequestUserInput(why: string, artifact: Json)
    | Resume(at: string, response: Json)
    | Finish(done: bool, final: seq<Json>, note: string)
    | Cancel(why: string)

  function Target(op: Op): State {
    match op
    case StartPlanning => Planning
    case CommitPlan(_) => Running
    case RequestUserInput(_, _) => AwaitingUser
    case Resume(_, _) => Running
    case Finish(done, _, _) => if done then Done else Failed
    case Cancel(_) => Cancelled
  }

  function UserResponse(at: string, response: Json): Json {
    JObj([Field("kind", JStr("user_response")), Field("at", JStr(at)), Field("payload", response)])
  }

  /** The row after a call; None when the guard refuses it (InvalidTransition). */
  function ApplyOp(m: Mission, op: Op): Option<Mission> {
    if !Allowed(m.state, Target(op)) then None
    else
      var moved := m.(state := Target(op));
      match op
      case StartPlanning => Some(moved.(reason := None))
      case CommitPlan(plan) => Some(moved.(reason := None, plan := Some(plan)))
      case RequestUserInput(why, artifact) => Some(moved.(reason := Some(why), artifacts := m.artifacts + [artifact]))
      case Resume(at, response) =>
        Some(moved.(reason := Some("user_response_received"), artifacts := m.artifacts + [UserResponse(at, response)]))
      case Finish(_, final, note) =>
        Some(moved.(reason := if note == "" then None else Some(note), artifacts := m.artifacts + final))
      case Cancel(why) => Some(moved.(reason := Some(why)))
  }

  /** From which states each call is accepted. */
  lemma AcceptedExactly(m: Mission, op: Op)
    ensures ApplyOp(m, op).Some? <==>
            match op
            case StartPlanning => m.state == Declared
            case CommitPlan(_) => m.state in {Planning, AwaitingUser}
            case RequestUserInput(_, _) => m.state in {Declared, Running}
            case Resume(_, _) => m.state in {Planning, AwaitingUser}
            case Finish(done, _, _) => if done then m.state == Running else m.state !in {Done, Failed, Cancelled}
            case Cancel(_) => m.state !in {Done, Failed, Cancelled}
  {
  }

  /** What a call adds to the artifacts. */
  function Adds(op: Op): seq<Json> {
    match op
    case RequestUserInput(_, artifact) => [artifact]
    case Resume(at, response) =>
      [JObj([Field("kind", JStr("user_response")), Field("at", JStr(at)), Field("payload", response)])]
    case Finish(_, final, _) => final
    case _ => []
  }

  /** What a call leaves in the row: the state it is named for, what it carries, and nothing else changed. */
  ghost predicate Leaves(m: Mission, op: Op, r: Mission) {
    && r.owner == m.owner && r.declaredAt == m.declaredAt && r.intent == m.intent
    && r.artifacts == m.artifacts + Adds(op)
    && r.plan == (if op.CommitPlan? then Some(op.plan) else m.plan)
    && match op
       case StartPlanning => r.state == Planning && r.reason == None
       case CommitPlan(_) => r.state == Running && r.reason == None
       case RequestUserInput(why, _) => r.state == AwaitingUser && r.reason == Some(why)
       case Resume(_, _) => r.state == Running && r.reason == Some("user_response_received")
       case Finish(done, _, note) =>
         r.state == (if done then Done else Failed) && r.reason == (if note == "" then None else Some(note))
       case Cancel(why) => r.state == Cancelled && r.reason == Some(why)
  }

  lemma ApplyLeaves(m: Mission, op: Op)
    requires ApplyOp(m, op).Some?
    ensures Leaves(m, op, ApplyOp(m, op).value)
  {
    assert m.artifacts + [] == m.artifacts;
  }

  /** The row after `_transition_mission_to_done`, which asks no guard and tells nobody. */
  function DraftDone(m: Mission): Mission {
    m.(state := Done, reason := Some("draft_sent_by_user"))
  }

  type Table = map<int, Mission>

  predicate Claimable(t: Table, id: int, owner: string) {
    id in t && t[id].state == Declared && t[id].owner == owner
  }

  /** `id` is an oldest claimable mission of the owner among those not locked. */
  ghost predicate Oldest(t: Table, id: int, owner: string, locked: set<int>) {
    && Claimable(t, id, owner) && id !in locked
    && forall other :: Claimable(t, other, owner) && other !in locked ==> t[id].declaredAt <= t[other].declaredAt
  }

  datatype Outcome = Ok | InvalidTransition | NotFound

  /** Notifications sent after commits. */
  datatype Notice = MissionChanged(id: int, state: State) | MissionDeclared(id: int) | MissionResumed(id: int)

  lemma Inhabited(s: set<int>)
    requires s != {}
    ensures exists x :: x in s
  {
    assert (forall x :: x !in s) ==> s == {};
  }

  class Engine {
    var missions: Table
    var sent: seq<Notice>

    constructor ()
      ensures missions == map[] && sent == []
    {
      missions := map[];
      sent := [];
    }

    /** False: the primary key is taken, the INSERT raises and nothing happens. */
    method Declare(id: int, owner: string, now: int, intent: string) returns (ok: bool)
      modifies this
      ensures ok <==> id !in old(missions)
      ensures missions == if ok then old(missions)[id := Fresh(owner, now, intent)] else old(missions)
      ensures sent == old(sent) + if ok then [MissionChanged(id, Declared), MissionDeclared(id)] else []
    {
      if id in missions {
        return false;
      }
      missions := missions[id := Fresh(owner, now, intent)];
      sent := sent + [MissionChanged(id, Declared)];
      sent := sent + [MissionDeclared(id)];
      return true;
    }

    /** INSERT and UPDATE in one transaction: nobody sees the row as Declared. */
    method ParkForReview(id: int, owner: string, now: int, intent: string, why: string, artifact: Json)
      returns (ok: bool)
      modifies this
      ensures ok <==> id !in old(missions)
      ensures missions == if ok then old(missions)[id := ApplyOp(Fresh(owner, now, intent), RequestUserInput(why, artifact)).value]
                          else old(missions)
      ensures sent == old(sent) + if ok then [MissionChanged(id, AwaitingUser)] else []
    {
      if id in missions {
        return false;
      }
      var row := Fresh(owner, now, intent);
      assert row.artifacts + [artifact] == [artifact];
      row := row.(state := AwaitingUser, reason := Some(why), artifacts := [artifact]);
      missions := missions[id := row];
      sent := sent + [MissionChanged(id, AwaitingUser)];
      return true;
    }

    /** `_transition` and `finish`: lock the row, check the guard, update, commit; then notify. */
    method Call(id: int, op: Op) returns (r: Outcome)
      modifies this
      ensures r == NotFound <==> id !in old(missions)
      ensures id in old(missions) ==> (r == Ok <==> Allowed(old(missions)[id].state, Target(op)))
      ensures missions == if r == Ok then old(missions)[id := ApplyOp(old(missions)[id], op).value] else old(missions)
      ensures r == Ok ==> id in missions && Leaves(old(missions)[id], op, missions[id])
      ensures sent == old(sent) + (if r != Ok then [] else
                [MissionChanged(id, Target(op))] + (if op.Resume? then [MissionResumed(id)] else []))
    {
      if id !in missions {
        return NotFound;
      }
      var current := missions[id];
      if !Allowed(current.state, Target(op)) {
        return InvalidTransition;
      }
      var artifacts := current.artifacts;
      match op {
        case RequestUserInput(_, artifact) => artifacts := artifacts + [artifact];
        case Resume(at, response) => artifacts := artifacts + [UserResponse(at, response)];
        case Finish(_, final, _) => artifacts := artifacts + final;
        case _ =>
      }
      var reason := match op
        case RequestUserInput(why, _) => Some(why)
        case Resume(_, _) => Some("user_response_received")
        case Finish(_, _, note) => if note == "" then None else Some(note)
        case Cancel(why) => Some(why)
        case _ => None;
      var plan := if op.CommitPlan? then Some(op.plan) else current.plan;
      missions := missions[id := current.(state := Target(op), reason := reason, plan := plan, artifacts := artifacts)];
      sent := sent + [MissionChanged(id, Target(op))];
      if op.Resume? {
        sent := sent + [MissionResumed(id)];
      }
      ApplyLeaves(current, op);
      return Ok;
    }

    /** `_claim_declared`: one UPDATE ... RETURNING moves a row to Planning, an oldest one of those that no
        other transaction has locked (SKIP LOCKED). */
    method ClaimDeclared(owner: string, locked: set<int>) returns (claimed: Option<int>)
      modifies this
      ensures claimed.None? <==> forall id :: Claimable(old(missions), id, owner) ==> id in locked
      ensures claimed.None? ==> missions == old(missions)
      ensures claimed.Some? ==> Oldest(old(missions), claimed.value, owner, locked)
      ensures claimed.Some? ==>
                missions == old(missions)[claimed.value := old(missions)[claimed.value].(state := Planning)]
      ensures sent == old(sent)
    {
      var left: set<int> := missions.Keys;
      claimed := None;
      while left != {}
        invariant left <= missions.Keys && missions == old(missions) && sent == old(sent)
        invariant claimed.Some? ==> Claimable(missions, claimed.value, owner) && claimed.value !in locked
        invariant forall id :: id !in left && Claimable(missions, id, owner) && id !in locked ==>
                    claimed.Some? && missions[claimed.value].declaredAt <= missions[id].declaredAt
        decreases |left|
      {
        Inhabited(left);
        var id: int :| id in left;
        left := left - {id};
        if missions[id].state == Declared && missions[id].owner == owner && id !in locked {
          if claimed.None? || missions[id].declaredAt < missions[claimed.value].declaredAt {
            claimed := Some(id);
          }
        }
      }
      if claimed.Some? {
        missions := missions[claimed.value := missions[claimed.value].(state := Planning)];
      }
    }
  }

  // ---- Every interleaving ----

  /** A transaction on the table, by anybody: the API, a driver thread (timed out or not), recovery, and the
      draft extractor, which writes the row past the engine some time after it saw it waiting for the user. */
  datatype Txn =
    | Declares(id: int, owner: string, now: int, intent: string)
    | Parks(id: int, owner: string, now: int, intent: string, why: string, artifact: Json)
    | Calls(id: int, op: Op)
    | Claims(id: int)
    | DraftSent(id: int)

  /** The versions of row `id` a transaction adds: none, one, or for a park the insert and the update. */
  function Versions(t: Table, x: Txn, id: int): seq<Mission> {
    match x
    case Declares(i, owner, now, intent) =>
      if i == id && id !in t then [Fresh(owner, now, intent)] else []
    case Parks(i, owner, now, intent, why, artifact) =>
      if i == id && id !in t then
        var row := Fresh(owner, now, intent);
        [row, ApplyOp(row, RequestUserInput(why, artifact)).value]
      else []
    case Calls(i, op) =>
      if i == id && id in t && ApplyOp(t[id], op).Some? then [ApplyOp(t[id], op).value] else []
    case Claims(i) =>
      if i == id && id in t && t[id].state == Declared then [t[id].(state := Planning)] else []
    case DraftSent(i) => if i == id && id in t then [DraftDone(t[id])] else []
  }

  function Commit(t: Table, x: Txn): Table {
    var v := Versions(t, x, x.id);
    if v == [] then t else t[x.id := v[|v| - 1]]
  }

  function CommitAll(t: Table, xs: seq<Txn>): Table
    decreases |xs|
  {
    if xs == [] then t else CommitAll(Commit(t, xs[0]), xs[1..])
  }

  /** One step of a mission: along the guard table, artifacts only appended, and one at least when parking. */
  predicate Step(a: Mission, b: Mission) {
    && Allowed(a.state, b.state)
    && a.artifacts <= b.artifacts
    && (b.state == AwaitingUser ==> |a.artifacts| < |b.artifacts|)
    && a.owner == b.owner && a.declaredAt == b.declaredAt && a.intent == b.intent
  }

  /** Consecutive versions follow the guard table. */
  ghost predicate Chain(vs: seq<Mission>) {
    forall i, j :: 0 <= i < j < |vs| && j == i + 1 ==> Step(vs[i], vs[j])
  }

  /** Consecutive versions follow the guard table or are a draft write. */
  ghost predicate LooseChain(vs: seq<Mission>) {
    forall i, j :: 0 <= i < j < |vs| && j == i + 1 ==> Step(vs[i], vs[j]) || vs[j] == DraftDone(vs[i])
  }

  predicate Begins(m: Mission) {
    m.state == Declared && m.artifacts == []
  }

  predicate WritesDraft(t: Table, x: Txn, id: int) {
    x == DraftSent(id) && id in t
  }

  /** What is seen of one row during a run: every version it goes through, how many of them are draft writes, and
      whether each draft write found it Running, the one state from which the table allows Done. */
  datatype Watched = Watched(table: Table, versions: seq<Mission>, drafts: nat, foundRunning: bool)

  function WatchOne(w: Watched, x: Txn, id: int): Watched {
    var writes := WritesDraft(w.table, x, id);
    Watched(Commit(w.table, x), w.versions + Versions(w.table, x, id), if writes then w.drafts + 1 else w.drafts,
            w.foundRunning && (writes ==> w.table[id].state == Running))
  }

  function Watch(w: Watched, xs: seq<Txn>, id: int): Watched
    decreases |xs|
  {
    if xs == [] then w else Watch(WatchOne(w, xs[0], id), xs[1..], id)
  }

  const NOTHING_YET := Watched(map[], [], 0, true)

  lemma {:induction false} WatchCommits(w: Watched, xs: seq<Txn>, id: int)
    ensures Watch(w, xs, id).table == CommitAll(w.table, xs)
    decreases |xs|
  {
    if xs != [] {
      WatchCommits(WatchOne(w, xs[0], id), xs[1..], id);
    }
  }

  lemma OpSteps(m: Mission, op: Op)
    requires ApplyOp(m, op).Some?
    ensures Step(m, ApplyOp(m, op).value)
  {
  }

  function Rank(s: State): nat {
    match s
    case Declared => 0
    case Planning => 1
    case AwaitingUser => 1
    case Running => 2
    case _ => 3
  }

  ghost predicate Tracks(w: Watched, id: int) {
    && (id in w.table <==> w.versions != [])
    && (w.versions != [] ==>
          var last := w.versions[|w.versions| - 1];
          && w.table[id] == last && Begins(w.versions[0])
          && |w.versions| - 1 <= 2 * |last.artifacts| + Rank(last.state) + w.drafts)
    && LooseChain(w.versions)
    && (Chain(w.versions) <==> w.foundRunning)
  }

  /** A version joins the chain. */
  lemma Extend(past: seq<Mission>, m: Mission, n: nat)
    requires past != [] && LooseChain(past)
    requires |past| - 1 <= 2 * |past[|past| - 1].artifacts| + Rank(past[|past| - 1].state) + n
    requires Step(past[|past| - 1], m) || m == DraftDone(past[|past| - 1])
    ensures LooseChain(past + [m])
    ensures Step(past[|past| - 1], m) ==> |past| <= 2 * |m.artifacts| + Rank(m.state) + n
    ensures m == DraftDone(past[|past| - 1]) ==> |past| <= 2 * |m.artifacts| + Rank(m.state) + n + 1
    ensures Chain(past + [m]) <==> Chain(past) && Step(past[|past| - 1], m)
  {
    var all := past + [m];
    forall i, j | 0 <= i < j < |all| && j == i + 1 ensures Step(all[i], all[j]) || all[j] == DraftDone(all[i]) {
      if j < |past| {
        assert Step(past[i], past[j]) || past[j] == DraftDone(past[i]);
      }
    }
    assert Chain(all) ==> Step(all[|past| - 1], all[|past|]);
    if Chain(all) {
      forall i, j | 0 <= i < j < |past| && j == i + 1 ensures Step(past[i], past[j]) {
        assert Step(all[i], all[j]);
      }
    }
    if Chain(past) && Step(past[|past| - 1], m) {
      forall i, j | 0 <= i < j < |all| && j == i + 1 ensures Step(all[i], all[j]) {
        if j < |past| {
          assert Step(past[i], past[j]);
        }
      }
    }
  }

  /** What a transaction does to a row that exists: nothing, one guarded step, or a draft write. */
  lemma RowAfter(t: Table, x: Txn, id: int)
    requires id in t
    ensures id in Commit(t, x)
    ensures Versions(t, x, id) == [] ==> Commit(t, x)[id] == t[id] && !WritesDraft(t, x, id)
    ensures Versions(t, x, id) != [] ==>
              && Versions(t, x, id) == [Commit(t, x)[id]]
              && if WritesDraft(t, x, id) then Commit(t, x)[id] == DraftDone(t[id]) else Step(t[id], Commit(t, x)[id])
  {
    if x.Calls? && x.id == id && ApplyOp(t[id], x.op).Some? {
      OpSteps(t[id], x.op);
    }
  }

  /** How a row comes into being. */
  lemma RowBorn(t: Table, x: Txn, id: int)
    requires id !in t
    ensures var v := Versions(t, x, id);
            && !WritesDraft(t, x, id)
            && (id in Commit(t, x) <==> v != [])
            && (v != [] ==> v[|v| - 1] == Commit(t, x)[id] && Begins(v[0]) && Chain(v) && LooseChain(v)
                            && |v| - 1 <= |v[|v| - 1].artifacts|)
  {
  }

  lemma BornTracks(w: Watched, x: Txn, id: int)
    requires Tracks(w, id) && id !in w.table
    ensures Tracks(WatchOne(w, x, id), id)
  {
    RowBorn(w.table, x, id);
    var v := Versions(w.table, x, id);
    assert w.versions == [] && w.versions + v == v;
    assert WatchOne(w, x, id) == Watched(Commit(w.table, x), v, w.drafts, w.foundRunning);
  }

  lemma GrownTracks(w: Watched, x: Txn, id: int)
    requires Tracks(w, id) && id in w.table
    ensures Tracks(WatchOne(w, x, id), id)
  {
    RowAfter(w.table, x, id);
    var v, t := Versions(w.table, x, id), WatchOne(w, x, id);
    if v == [] {
      assert t.versions == w.versions;
    } else {
      var m := t.table[id];
      Extend(w.versions, m, w.drafts);
      assert t.versions == w.versions + [m] && t.versions[|w.versions|] == m && t.versions[0] == w.versions[0];
      assert Step(w.table[id], DraftDone(w.table[id])) <==> w.table[id].state == Running;
    }
  }

  lemma WatchOneTracks(w: Watched, x: Txn, id: int)
    requires Tracks(w, id)
    ensures Tracks(WatchOne(w, x, id), id)
  {
    if id in w.table {
      GrownTracks(w, x, id);
    } else {
      BornTracks(w, x, id);
    }
  }

  lemma {:induction false} WatchTracks(w: Watched, xs: seq<Txn>, id: int)
    requires Tracks(w, id)
    ensures Tracks(Watch(w, xs, id), id)
    decreases |xs|
  {
    if xs != [] {
      WatchOneTracks(w, xs[0], id);
      WatchTracks(WatchOne(w, xs[0], id), xs[1..], id);
    }
  }

  lemma {:induction false} LooseGrows(vs: seq<Mission>, i: nat, j: nat)
    requires LooseChain(vs) && i <= j < |vs|
    ensures vs[i].artifacts <= vs[j].artifacts
    ensures IsTerminal(vs[i].state) ==>
              vs[j].artifacts == vs[i].artifacts && (i == j || vs[j] == DraftDone(vs[i]))
    ensures vs[j].state == Declared ==> i == j
    decreases j - i
  {
    if i < j {
      LooseGrows(vs, i, j - 1);
      assert Step(vs[j - 1], vs[j]) || vs[j] == DraftDone(vs[j - 1]);
    }
  }

  /** The whole life of a mission as a sequence of versions, draft writes or not: artifacts only grow at the end,
      Declared is left for good, and after a terminal version only draft writes come. */
  ghost predicate LooseLife(vs: seq<Mission>) {
    && vs != [] && Begins(vs[0]) && LooseChain(vs)
    && (forall i, j :: 0 <= i < j < |vs| ==> vs[i].artifacts <= vs[j].artifacts && vs[j].state != Declared)
    && (forall i, j :: 0 <= i < j < |vs| && IsTerminal(vs[i].state) ==> vs[j] == DraftDone(vs[i]))
  }

  /** A life as the engine promises it: along the guard table, a terminal version is the last one, and there are at
      most 2 * |artifacts| + 3 transitions. */
  ghost predicate Life(vs: seq<Mission>) {
    && LooseLife(vs) && Chain(vs)
    && (forall i :: 0 <= i < |vs| - 1 ==> !IsTerminal(vs[i].state))
    && |vs| - 1 <= 2 * |vs[|vs| - 1].artifacts| + 3
  }

  lemma {:induction false} ChainBounded(vs: seq<Mission>)
    requires vs != [] && Chain(vs) && Begins(vs[0])
    ensures |vs| - 1 <= 2 * |vs[|vs| - 1].artifacts| + Rank(vs[|vs| - 1].state)
  {
    if |vs| > 1 {
      ChainBounded(vs[..|vs| - 1]);
      assert Step(vs[|vs| - 2], vs[|vs| - 1]);
    }
  }

  lemma LooseIsLife(vs: seq<Mission>)
    requires vs != [] && Begins(vs[0]) && LooseChain(vs)
    ensures LooseLife(vs) && (Life(vs) <==> Chain(vs))
  {
    forall i, j | 0 <= i < j < |vs|
      ensures vs[i].artifacts <= vs[j].artifacts && vs[j].state != Declared
      ensures IsTerminal(vs[i].state) ==> vs[j] == DraftDone(vs[i])
    {
      LooseGrows(vs, i, j);
    }
    if Chain(vs) {
      ChainBounded(vs);
      forall i | 0 <= i < |vs| - 1 ensures !IsTerminal(vs[i].state) {
        assert Step(vs[i], vs[i + 1]);
      }
    }
  }

  /** The history of a mission: it begins Declared and never returns there, old artifacts are a prefix of new ones,
      only a draft write changes a terminal row, and there are at most 2 * |artifacts| + 3 transitions besides draft
      writes. It follows the guard table, and a terminal version is its last, exactly if every draft write found the
      row Running. */
  ghost predicate History(w: Watched, id: int) {
    if w.versions == [] then id !in w.table
    else
      && id in w.table && w.table[id] == w.versions[|w.versions| - 1] && LooseLife(w.versions)
      && |w.versions| - 1 <= 2 * |w.table[id].artifacts| + 3 + w.drafts
      && (Life(w.versions) <==> w.foundRunning)
  }

  /** In every interleaving of transactions, draft writes included, every mission has such a history. */
  lemma MissionHistory(xs: seq<Txn>, id: int)
    ensures History(Watch(NOTHING_YET, xs, id), id)
    ensures Watch(NOTHING_YET, xs, id).table == CommitAll(map[], xs)
  {
    WatchTracks(NOTHING_YET, xs, id);
    WatchCommits(NOTHING_YET, xs, id);
    var vs := Watch(NOTHING_YET, xs, id).versions;
    if vs != [] {
      LooseIsLife(vs);
    }
  }

  // ---- What the artifacts are ----

  /** What each transaction makes of a row, field by field. */
  lemma RowExactly(t: Table, x: Txn, id: int)
    ensures x.id != id ==> (id in Commit(t, x) <==> id in t) && (id in t ==> Commit(t, x)[id] == t[id])
    ensures x.id == id && x.Declares? && id !in t ==>
              id in Commit(t, x) && Commit(t, x)[id] == Mission(x.owner, x.now, x.intent, None, Declared, None, [])
    ensures x.id == id && x.Parks? && id !in t ==>
              id in Commit(t, x) &&
              Commit(t, x)[id] == Mission(x.owner, x.now, x.intent, None, AwaitingUser, Some(x.why), [x.artifact])
    ensures x.id == id && (x.Declares? || x.Parks?) && id in t ==> id in Commit(t, x) && Commit(t, x)[id] == t[id]
    ensures x.id == id && x.Calls? && id in t ==>
              id in Commit(t, x) &&
              if ApplyOp(t[id], x.op).Some? then Leaves(t[id], x.op, Commit(t, x)[id]) else Commit(t, x)[id] == t[id]
    ensures x.id == id && x.Claims? && id in t ==>
              id in Commit(t, x) &&
              Commit(t, x)[id] == if t[id].state == Declared then t[id].(state := Planning) else t[id]
    ensures x.id == id && x.DraftSent? && id in t ==>
              id in Commit(t, x) && Commit(t, x)[id] == t[id].(state := Done, reason := Some("draft_sent_by_user"))
    ensures x.id == id && !x.Declares? && !x.Parks? && id !in t ==> id !in Commit(t, x)
  {
    if x.Calls? && id in t && ApplyOp(t[id], x.op).Some? {
      ApplyLeaves(t[id], x.op);
    }
  }

  /** What a transaction adds to the artifacts of the row, when it is accepted. */
  function Carried(t: Table, x: Txn, id: int): seq<Json> {
    match x
    case Parks(i, _, _, _, _, artifact) => if i == id && id !in t then [artifact] else []
    case Calls(i, op) => if i == id && id in t && ApplyOp(t[id], op).Some? then Adds(op) else []
    case _ => []
  }

  function AllCarried(t: Table, xs: seq<Txn>, id: int): seq<Json>
    decreases |xs|
  {
    if xs == [] then [] else Carried(t, xs[0], id) + AllCarried(Commit(t, xs[0]), xs[1..], id)
  }

  function ArtifactsOf(t: Table, id: int): seq<Json> {
    if id in t then t[id].artifacts else []
  }

  lemma CommitCarries(t: Table, x: Txn, id: int)
    ensures ArtifactsOf(Commit(t, x), id) == ArtifactsOf(t, id) + Carried(t, x, id)
  {
    if x.Calls? && x.id == id && id in t && ApplyOp(t[id], x.op).Some? {
      ApplyLeaves(t[id], x.op);
    } else {
      assert ArtifactsOf(t, id) + [] == ArtifactsOf(t, id);
    }
  }

  /** In every interleaving the artifacts of a mission are the old ones followed, in order, by exactly what each
      accepted transaction carried: an artifact, a user response with its time and payload, a final list. */
  lemma {:induction false} ArtifactsAreCarried(t: Table, xs: seq<Txn>, id: int)
    ensures ArtifactsOf(CommitAll(t, xs), id) == ArtifactsOf(t, id) + AllCarried(t, xs, id)
    decreases |xs|
  {
    if xs == [] {
      assert ArtifactsOf(t, id) + [] == ArtifactsOf(t, id);
    } else {
      var u := Commit(t, xs[0]);
      CommitCarries(t, xs[0], id);
      ArtifactsAreCarried(u, xs[1..], id);
      RegroupJson(ArtifactsOf(t, id), Carried(t, xs[0], id), AllCarried(u, xs[1..], id));
    }
  }

  lemma RegroupJson(a: seq<Json>, b: seq<Json>, c: seq<Json>)
    ensures a + b + c == a + (b + c)
  {
  }

  /** A terminal mission keeps its artifacts under every later transaction. It keeps its state exactly when it is
      Done or no draft write meets it, and the whole row exactly when no draft write meets it, unless a draft write
      has already left it as it is. */
  lemma {:induction false} TerminalIsFinal(t: Table, xs: seq<Txn>, id: int)
    requires id in t && IsTerminal(t[id].state)
    ensures var u := CommitAll(t, xs);
            && id in u && u[id] == (if DraftSent(id) in xs then DraftDone(t[id]) else t[id])
            && u[id].artifacts == t[id].artifacts
            && (u[id].state == t[id].state <==> t[id].state == Done || DraftSent(id) !in xs)
            && (u[id] == t[id] <==> t[id] == DraftDone(t[id]) || DraftSent(id) !in xs)
    decreases |xs|
  {
    if xs != [] {
      TerminalIsFinal(Commit(t, xs[0]), xs[1..], id);
      assert xs == [xs[0]] + xs[1..];
    }
  }

  /** The write leaves the guard table although the extractor looked first: a mission that waits for the user, as it
      did when it was looked up, goes straight to Done; and when it is cancelled in between, Cancelled becomes Done. */
  lemma DraftLeavesGuardTable(t: Table, id: int, why: string)
    requires id in t && t[id].state == AwaitingUser
    ensures var sent := CommitAll(t, [DraftSent(id)]);
            id in sent && sent[id].state == Done && !Allowed(AwaitingUser, Done)
    ensures var cancelled := CommitAll(t, [Calls(id, Cancel(why))]);
            var sent := CommitAll(t, [Calls(id, Cancel(why)), DraftSent(id)]);
            && id in cancelled && IsTerminal(cancelled[id].state)
            && id in sent && sent[id].state == Done != cancelled[id].state
  {
    var cancel, draft := Calls(id, Cancel(why)), DraftSent(id);
    assert [cancel, draft][1..] == [draft] && [draft][1..] == [] && [cancel][1..] == [];
    var u := Commit(t, cancel);
    assert u[id].state == Cancelled;
    assert CommitAll(t, [cancel]) == CommitAll(u, []) == u;
    assert CommitAll(t, [cancel, draft]) == CommitAll(u, [draft]) == CommitAll(Commit(u, draft), []);
    assert CommitAll(t, [draft]) == CommitAll(Commit(t, draft), []);
  }

  predicate ClaimsRow(t: Table, x: Txn, id: int) {
    x == Claims(id) && Versions(t, x, id) != []
  }

  function ClaimCount(t: Table, xs: seq<Txn>, id: int): nat
    decreases |xs|
  {
    if xs == [] then 0
    else (if ClaimsRow(t, xs[0], id) then 1 else 0) + ClaimCount(Commit(t, xs[0]), xs[1..], id)
  }

  lemma {:induction false} NoClaimAfter(t: Table, xs: seq<Txn>, id: int)
    requires id in t && t[id].state != Declared
    ensures ClaimCount(t, xs, id) == 0
    decreases |xs|
  {
    if xs != [] {
      NoClaimAfter(Commit(t, xs[0]), xs[1..], id);
    }
  }

  /** The first transaction that creates row `id` parks it. */
  predicate ParkedAtBirth(xs: seq<Txn>, id: int) {
    xs != [] &&
    if xs[0].Parks? && xs[0].id == id then true
    else !(xs[0].Declares? && xs[0].id == id) && ParkedAtBirth(xs[1..], id)
  }

  /** A mission is claimed at most once, and never when it was parked at birth. */
  lemma {:induction false} ClaimedOnce(t: Table, xs: seq<Txn>, id: int)
    ensures ClaimCount(t, xs, id) <= 1
    ensures id !in t && ParkedAtBirth(xs, id) ==> ClaimCount(t, xs, id) == 0
    decreases |xs|
  {
    if xs != [] {
      var u := Commit(t, xs[0]);
      if ClaimsRow(t, xs[0], id) || (id !in t && xs[0].Parks? && xs[0].id == id) {
        NoClaimAfter(u, xs[1..], id);
      } else {
        ClaimedOnce(u, xs[1..], id);
        if id !in t && ParkedAtBirth(xs, id) {
          assert ParkedAtBirth(xs[1..], id);
        }
      }
    }
  }
}
