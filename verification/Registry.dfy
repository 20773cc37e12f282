/** The sentinel registry: a lazily filled cache of the `sentinel` table, read by several threads, whose
    database reads happen outside its lock and whose invalidations arrive as lagging notifications. */
module Registry {
  import opened Payloads

  datatype Config = Config(enabled: bool, values: string)

  /** The rows of the table, or of a result set, by name. */
  type Table = map<string, Config>

  function Find(t: Table, name: string): Option<Config> {
    if name in t then Some(t[name]) else None
  }

  function Enabled(t: Table): Table {
    map name | name in t && t[name].enabled :: t[name]
  }

  datatype Cache = Cache(byName: Table, enabledLoaded: bool)

  function Put(c: Cache, name: string, row: Option<Config>): Cache {
    if row.None? then c else c.(byName := c.byName[name := row.value])
  }

  function PutAll(c: Cache, rows: Table): Cache {
    Cache(c.byName + rows, true)
  }

  function Dropped(c: Cache, name: string): Cache {
    Cache(c.byName - {name}, false)
  }

  /** One method per critical section. */
  class SentinelRegistry {
    var byName: Table
    var enabledLoaded: bool

    ghost function View(): Cache
      reads this
    {
      Cache(byName, enabledLoaded)
    }

    constructor ()
      ensures View() == Cache(map[], false)
    {
      byName, enabledLoaded := map[], false;
    }

    method GetCached(name: string) returns (r: Option<Config>)
      ensures r == Find(byName, name)
    {
      if name in byName {
        return Some(byName[name]);
      }
      return None;
    }

    method Insert(name: string, fetched: Option<Config>)
      modifies this
      ensures View() == Put(old(View()), name, fetched)
    {
      if fetched.Some? {
        byName := byName[name := fetched.value];
      }
    }

    /** `get` when its read of the database is not interrupted; `row` is what the read finds. Afterwards the cache
        holds whatever was returned. */
    method Get(name: string, row: Option<Config>) returns (r: Option<Config>)
      modifies this
      ensures r == if name in old(byName) then Some(old(byName)[name]) else row
      ensures Find(byName, name) == r
      ensures enabledLoaded == old(enabledLoaded) && byName - {name} == old(byName) - {name}
    {
      r := GetCached(name);
      if r.None? {
        Insert(name, row);
        r := row;
      }
    }

    method EnabledCached() returns (r: Option<Table>)
      ensures r == if enabledLoaded then Some(Enabled(byName)) else None
    {
      if enabledLoaded {
        return Some(map name | name in byName && byName[name].enabled :: byName[name]);
      }
      return None;
    }

    method InsertEnabled(rows: Table)
      modifies this
      ensures View() == PutAll(old(View()), rows)
    {
      byName := byName + rows;
      enabledLoaded := true;
    }

    method Invalidate(name: string)
      modifies this
      ensures View() == Dropped(old(View()), name)
    {
      byName, enabledLoaded := byName - {name}, false;
    }

    method InvalidateAll()
      modifies this
      ensures View() == Cache(map[], false)
    {
      byName, enabledLoaded := map[], false;
    }
  }

  // ---- Readers, writers and the listener together ----

  /** A reader between its first look and its insertion. `crossed`: an invalidation (of this name; of
      these names) came after its database read. */
  datatype Pc =
    | Idle
    | Getting(name: string)
    | Got(name: string, row: Option<Config>, crossed: bool)
    | Listing
    | Listed(rows: Table, crossedNames: set<string>)

  /** `pending`: notifications under way, one name each. `missed`: names of notifications lost with the
      listener's connection, until a later one arrives. `straddled`: names whose cached entry, or absence,
      comes from a read that an invalidation of that name crossed. */
  datatype World = World(
    db: Table, cache: Cache, pending: seq<string>, readers: map<nat, Pc>,
    missed: set<string>, straddled: set<string>)

  datatype Step =
    | Update(name: string, config: Config)
    | Deliver
    | Reconnect
    | ClearAll
    | BeginGet(r: nat, name: string)
    | BeginList(r: nat)
    | Fetch(r: nat)
    | Store(r: nat)

  function At(w: World, r: nat): Pc {
    if r in w.readers then w.readers[r] else Idle
  }

  function Move(w: World, r: nat, pc: Pc): World {
    w.(readers := w.readers[r := pc])
  }

  function Cross(pc: Pc, name: string): Pc {
    if pc.Got? && pc.name == name then pc.(crossed := true)
    else if pc.Listed? then pc.(crossedNames := pc.crossedNames + {name})
    else pc
  }

  function CrossAll(readers: map<nat, Pc>, name: string): map<nat, Pc> {
    map r | r in readers :: Cross(readers[r], name)
  }

  /** Names. */
  function Names(pending: seq<string>): set<string> {
    set i | 0 <= i < |pending| :: pending[i]
  }

  function Stored(w: World, pc: Pc): World {
    if pc.Got? && pc.row.Some? then
      w.(cache := Put(w.cache, pc.name, pc.row),
         straddled := if pc.crossed then w.straddled + {pc.name} else w.straddled - {pc.name})
    else if pc.Listed? then
      w.(cache := PutAll(w.cache, pc.rows),
         straddled := pc.crossedNames +
           (set n | n in w.straddled && n in w.cache.byName && n !in pc.rows))
    else w
  }

  function Next(w: World, s: Step): World {
    match s
    case Update(name, config) =>
      if name in w.db then w.(db := w.db[name := config], pending := w.pending + [name]) else w
    case Deliver =>
      if w.pending == [] then w
      else
        var name := w.pending[0];
        w.(pending := w.pending[1..], cache := Dropped(w.cache, name), readers := CrossAll(w.readers, name),
           missed := w.missed - {name}, straddled := w.straddled - {name})
    case Reconnect => w.(pending := [], missed := w.missed + Names(w.pending))
    case ClearAll => w.(cache := Cache(map[], false), straddled := {})
    case BeginGet(r, name) =>
      if At(w, r).Idle? && name !in w.cache.byName then Move(w, r, Getting(name)) else w
    case BeginList(r) =>
      if At(w, r).Idle? && !w.cache.enabledLoaded then Move(w, r, Listing) else w
    case Fetch(r) =>
      var pc := At(w, r);
      if pc.Getting? then Move(w, r, Got(pc.name, Find(w.db, pc.name), false))
      else if pc.Listing? then Move(w, r, Listed(Enabled(w.db), {}))
      else w
    case Store(r) =>
      var pc := At(w, r);
      if pc.Got? || pc.Listed? then Stored(Move(w, r, Idle), pc) else w
  }

  function Run(w: World, steps: seq<Step>): World
    decreases |steps|
  {
    if steps == [] then w else Run(Next(w, steps[0]), steps[1..])
  }

  function Start(db: Table): World {
    World(db, Cache(map[], false), [], map[], {}, {})
  }

  // ---- Coherence ----

  /** A notification for this name is still under way, or was lost. */
  predicate Noticed(w: World, name: string) {
    name in w.pending || name in w.missed
  }

  /** What `list_enabled` may get wrong about one name when it trusts `rows`. */
  predicate WrongRow(db: Table, rows: Table, name: string) {
    || (name in rows && Find(rows, name) != Find(db, name))
    || (name in db && db[name].enabled && name !in rows)
  }

  /** The cache is wrong about `name`: a stale entry, or an enabled row missing from a loaded set. */
  predicate Stale(w: World, name: string) {
    || (name in w.cache.byName && Find(w.cache.byName, name) != Find(w.db, name))
    || (w.cache.enabledLoaded && name in w.db && w.db[name].enabled && name !in w.cache.byName)
  }

  ghost predicate ReaderSound(w: World, pc: Pc) {
    && (pc.Got? && !pc.crossed && pc.row != Find(w.db, pc.name) ==> Noticed(w, pc.name))
    && (pc.Listed? ==> forall name :: WrongRow(w.db, pc.rows, name) && name !in pc.crossedNames ==> Noticed(w, name))
  }

  ghost predicate Coherent(w: World) {
    forall name :: Stale(w, name) ==> Noticed(w, name) || name in w.straddled
  }

  ghost predicate Inv(w: World) {
    Coherent(w) && forall r: nat :: ReaderSound(w, At(w, r))
  }

  lemma UpdateKeeps(w: World, name: string, config: Config)
    requires Inv(w)
    ensures Inv(Next(w, Update(name, config)))
  {
    var t := Next(w, Update(name, config));
    if name in w.db {
      assert t.pending[|w.pending|] == name;
      assert forall n :: n in w.pending ==> n in t.pending;
      forall n | Stale(t, n) ensures Noticed(t, n) || n in t.straddled {
        assert n != name ==> Stale(w, n);
      }
      forall r: nat ensures ReaderSound(t, At(t, r)) {
        assert ReaderSound(w, At(w, r));
        assert forall n :: n != name && At(w, r).Listed? && WrongRow(t.db, At(w, r).rows, n) ==>
          WrongRow(w.db, At(w, r).rows, n);
      }
    }
  }

  lemma DeliverKeeps(w: World)
    requires Inv(w)
    ensures Inv(Next(w, Deliver))
  {
    var t := Next(w, Deliver);
    if w.pending != [] {
      var name := w.pending[0];
      assert w.pending == [name] + w.pending[1..];
      forall n | Stale(t, n) ensures Noticed(t, n) || n in t.straddled {
        assert n != name && Stale(w, n);
      }
      forall r: nat ensures ReaderSound(t, At(t, r)) {
        assert ReaderSound(w, At(w, r));
        assert At(t, r) == Cross(At(w, r), name);
      }
    }
  }

  lemma ReconnectKeeps(w: World)
    requires Inv(w)
    ensures Inv(Next(w, Reconnect))
  {
    var t := Next(w, Reconnect);
    forall n ensures Noticed(w, n) ==> Noticed(t, n) {
      if n in w.pending {
        var i :| 0 <= i < |w.pending| && w.pending[i] == n;
        assert n in Names(w.pending);
      }
    }
    forall n ensures Stale(t, n) ==> Stale(w, n) {
    }
    forall r: nat ensures ReaderSound(t, At(t, r)) {
      assert ReaderSound(w, At(w, r));
    }
  }

  lemma StoreKeeps(w: World, r: nat)
    requires Inv(w)
    ensures Inv(Next(w, Store(r)))
  {
    var t, pc := Next(w, Store(r)), At(w, r);
    assert ReaderSound(w, pc);
    forall n | Stale(t, n) ensures Noticed(t, n) || n in t.straddled {
      if pc.Listed? {
        assert n in pc.rows || n !in pc.crossedNames ==> Stale(w, n) || WrongRow(w.db, pc.rows, n);
      } else {
        assert Stale(w, n) || (pc.Got? && n == pc.name);
      }
    }
    forall q: nat ensures ReaderSound(t, At(t, q)) {
      assert ReaderSound(w, At(w, q));
    }
  }

  lemma ReadKeeps(w: World, s: Step)
    requires Inv(w) && (s.BeginGet? || s.BeginList? || s.Fetch? || s.ClearAll?)
    ensures Inv(Next(w, s))
  {
    var t := Next(w, s);
    forall n | Stale(t, n) ensures Noticed(t, n) || n in t.straddled {
      assert Stale(w, n);
    }
    forall q: nat ensures ReaderSound(t, At(t, q)) {
      assert ReaderSound(w, At(w, q));
    }
  }

  lemma StepKeeps(w: World, s: Step)
    requires Inv(w)
    ensures Inv(Next(w, s))
  {
    match s
    case Update(name, config) => UpdateKeeps(w, name, config);
    case Deliver => DeliverKeeps(w);
    case Reconnect => ReconnectKeeps(w);
    case Store(r) => StoreKeeps(w, r);
    case _ => ReadKeeps(w, s);
  }

  lemma {:induction false} RunKeeps(w: World, steps: seq<Step>)
    requires Inv(w)
    ensures Inv(Run(w, steps))
    decreases |steps|
  {
    if steps != [] {
      StepKeeps(w, steps[0]);
      RunKeeps(Next(w, steps[0]), steps[1..]);
    }
  }

  /** In every interleaving, whatever the cache gets wrong about a name has a notification of that name
      under way or lost, or was read before and stored after the last invalidation of that name. */
  lemma StaleOnlyFor(db: Table, steps: seq<Step>, name: string)
    ensures var w := Run(Start(db), steps);
            Stale(w, name) ==> name in w.pending || name in w.missed || name in w.straddled
  {
    RunKeeps(Start(db), steps);
  }

  // ---- What readers see ----

  /** `list_enabled` and `get`, with nothing happening in between. */
  function ListEnabled(w: World): Table {
    if w.cache.enabledLoaded then Enabled(w.cache.byName) else Enabled(w.db)
  }

  function Get(w: World, name: string): Option<Config> {
    if name in w.cache.byName then Some(w.cache.byName[name]) else Find(w.db, name)
  }

  /** What a reader may rely on at any moment: `get` answers with the row of the database, and `list_enabled` lists
      the row exactly if it is enabled, unless the name has a notification under way or lost, or was straddled. */
  lemma ReadsWrongOnlyFor(db: Table, steps: seq<Step>, name: string)
    ensures var w := Run(Start(db), steps);
            Get(w, name) != Find(w.db, name) || Find(ListEnabled(w), name) != Find(Enabled(w.db), name) ==>
            name in w.pending || name in w.missed || name in w.straddled
  {
    RunKeeps(Start(db), steps);
    var w := Run(Start(db), steps);
    if !Stale(w, name) {
      assert Get(w, name) == Find(w.db, name);
      assert Find(ListEnabled(w), name) == Find(Enabled(w.db), name);
    }
  }

  predicate Quiet(w: World) {
    w.pending == [] && w.missed == {} && w.straddled == {}
  }

  lemma QuietIsExact(db: Table, steps: seq<Step>)
    ensures var w := Run(Start(db), steps);
            Quiet(w) ==> ListEnabled(w) == Enabled(w.db) && forall name :: Get(w, name) == Find(w.db, name)
  {
    RunKeeps(Start(db), steps);
    var w := Run(Start(db), steps);
    if Quiet(w) {
      assert forall name :: !Stale(w, name);
      forall name ensures Find(ListEnabled(w), name) == Find(Enabled(w.db), name) {
        assert !Stale(w, name);
      }
      SameTable(ListEnabled(w), Enabled(w.db));
      forall name ensures Get(w, name) == Find(w.db, name) {
        assert !Stale(w, name);
      }
    }
  }

  lemma SameTable(a: Table, b: Table)
    requires forall name :: Find(a, name) == Find(b, name)
    ensures a == b
  {
    assert forall name :: name in a <==> Find(a, name).Some?;
    assert forall name :: name in b <==> Find(b, name).Some?;
    forall name | name in a ensures name in b && a[name] == b[name] {
      assert Find(a, name) == Find(b, name);
    }
    forall name | name in b ensures name in a {
      assert Find(a, name) == Find(b, name);
    }
  }

  // ---- Atomic fetches never straddle ----

  /** A call with its database read in one piece, or any other single step. */
  datatype Call = GetCall(r: nat, name: string) | ListCall(r: nat) | Other(step: Step)

  predicate IsReader(s: Step) {
    s.BeginGet? || s.BeginList? || s.Fetch? || s.Store?
  }

  function Perform(w: World, c: Call): World {
    match c
    case GetCall(r, name) => Next(Next(Next(w, BeginGet(r, name)), Fetch(r)), Store(r))
    case ListCall(r) => Next(Next(Next(w, BeginList(r)), Fetch(r)), Store(r))
    case Other(step) => if IsReader(step) then w else Next(w, step)
  }

  function PerformAll(w: World, calls: seq<Call>): World
    decreases |calls|
  {
    if calls == [] then w else PerformAll(Perform(w, calls[0]), calls[1..])
  }

  ghost predicate AtRest(w: World) {
    w.straddled == {} && forall r: nat :: At(w, r) == Idle
  }

  lemma PerformRests(w: World, c: Call)
    requires Inv(w) && AtRest(w)
    ensures Inv(Perform(w, c)) && AtRest(Perform(w, c))
  {
    match c
    case GetCall(r, name) =>
      StepKeeps(w, BeginGet(r, name));
      StepKeeps(Next(w, BeginGet(r, name)), Fetch(r));
      StepKeeps(Next(Next(w, BeginGet(r, name)), Fetch(r)), Store(r));
      assert At(w, r) == Idle;
      assert forall q: nat :: At(Perform(w, c), q) == At(w, q);
    case ListCall(r) =>
      StepKeeps(w, BeginList(r));
      StepKeeps(Next(w, BeginList(r)), Fetch(r));
      StepKeeps(Next(Next(w, BeginList(r)), Fetch(r)), Store(r));
      assert At(w, r) == Idle;
      assert forall q: nat :: At(Perform(w, c), q) == At(w, q);
    case Other(step) =>
      StepKeeps(w, step);
      assert forall q: nat :: At(w, q) == Idle ==> At(Perform(w, c), q) == Idle;
  }

  lemma {:induction false} CallsRest(w: World, calls: seq<Call>)
    requires Inv(w) && AtRest(w)
    ensures Inv(PerformAll(w, calls)) && AtRest(PerformAll(w, calls))
    decreases |calls|
  {
    if calls != [] {
      PerformRests(w, calls[0]);
      CallsRest(Perform(w, calls[0]), calls[1..]);
    }
  }

  /** With atomic fetches every error of the cache has its notification under way or lost. */
  lemma AtomicStaleOnlyFor(db: Table, calls: seq<Call>, name: string)
    ensures var w := PerformAll(Start(db), calls);
            Stale(w, name) ==> name in w.pending || name in w.missed
  {
    CallsRest(Start(db), calls);
  }

  // ---- The remaining causes are real ----

  lemma RunStep(w: World, s: Step, rest: seq<Step>)
    ensures Run(w, [s] + rest) == Run(Next(w, s), rest)
  {
    assert ([s] + rest)[1..] == rest;
  }

  /** A read that straddles an invalidation leaves the old row cached with nothing under way: `get` goes on
      returning it. Holds for every row and every change of it. */
  lemma StraddleGoesStale(db: Table, name: string, config: Config)
    requires name in db && db[name] != config
    ensures exists steps :: var w := Run(Start(db), steps);
              w.pending == [] && w.missed == {} && Get(w, name) == Some(db[name]) && Find(w.db, name) == Some(config)
  {
    var w0 := Start(db);
    var w1 := Next(w0, BeginGet(0, name));
    var w2 := Next(w1, Fetch(0));
    var w3 := Next(w2, Update(name, config));
    var w4 := Next(w3, Deliver);
    RunStep(w0, BeginGet(0, name), [Fetch(0)] + ([Update(name, config)] + ([Deliver] + ([Store(0)] + []))));
    RunStep(w1, Fetch(0), [Update(name, config)] + ([Deliver] + ([Store(0)] + [])));
    RunStep(w2, Update(name, config), [Deliver] + ([Store(0)] + []));
    RunStep(w3, Deliver, [Store(0)] + []);
    RunStep(w4, Store(0), []);
    assert w4.readers[0] == Got(name, Some(db[name]), true);
  }

  /** The listener invalidates nothing when it reconnects, so a change whose notification fell into the
      gap stays invisible. */
  lemma GapGoesStale(db: Table, name: string, config: Config)
    requires name in db && db[name] != config
    ensures exists calls :: var w := PerformAll(Start(db), calls);
              w.pending == [] && Get(w, name) == Some(db[name]) && Find(w.db, name) == Some(config)
  {
    var calls := [GetCall(0, name), Other(Update(name, config)), Other(Reconnect)];
    assert calls[1..][1..] == [Other(Reconnect)] && [Other(Reconnect)][1..] == [];
    var w1 := Perform(Start(db), calls[0]);
    var w2 := Perform(w1, calls[1]);
    var w3 := Perform(w2, calls[2]);
    assert PerformAll(Start(db), calls) == PerformAll(w1, calls[1..]);
    assert PerformAll(w1, calls[1..]) == PerformAll(w2, [Other(Reconnect)]);
    assert PerformAll(w2, [Other(Reconnect)]) == PerformAll(w3, []);
  }
}
