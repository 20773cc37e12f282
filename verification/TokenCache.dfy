/** The OAuth access-token cache: many coroutines of one event loop, interleaved at their await points,
    around one cache, one lock and one credential row that other processes also write. */
module TokenCache {
  import opened Payloads

  /** Seconds. */
  const CACHE_TTL := 30.0
  const EXPIRY_SKEW := 60.0

  /** An access token with the expiry recorded for it. The cache in the source holds the text alone. */
  datatype Token = Token(text: string, expiresAt: real)

  datatype Row = Row(access: Option<Token>, refresh: Option<string>)

  /** `token`, `at` and `holder` are `_cached_token`, `_cached_at` and the owner of `_lock`. */
  datatype Cache = Cache(token: Option<Token>, at: real, holder: Option<nat>)

  predicate Warm(c: Cache, now: real) {
    c.token.Some? && now - c.at < CACHE_TTL
  }

  /** A token read from the database is good enough to be served. */
  predicate Usable(row: Option<Row>, now: real) {
    row.Some? && row.value.access.Some? && row.value.access.value.expiresAt > now + EXPIRY_SKEW
  }

  // ---- The manager: one method per stretch of code between two awaits ----

  class RefreshManager {
    var token: Option<Token>
    var at: real
    var holder: Option<nat>

    ghost function View(): Cache
      reads this
    {
      Cache(token, at, holder)
    }

    constructor ()
      ensures View() == Cache(None, 0.0, None)
    {
      token, at, holder := None, 0.0, None;
    }

    /** The fast path of `get_access_token` and the double check of `_refresh`. */
    method Cached(now: real) returns (r: Option<Token>)
      ensures r == if Warm(View(), now) then token else None
    {
      if token.Some? && now - at < CACHE_TTL {
        return token;
      }
      return None;
    }

    /** `get_access_token` after its database read. */
    method TakeRow(row: Option<Row>, now: real) returns (r: Option<Token>)
      modifies this
      ensures r == if Usable(row, now) then row.value.access else None
      ensures View() == if r.Some? then Remember(old(View()), r.value, now) else old(View())
    {
      if row.Some? && row.value.access.Some? && row.value.access.value.expiresAt > now + EXPIRY_SKEW {
        token, at := row.value.access, now;
        return token;
      }
      return None;
    }

    /** `_refresh` once the lock is free: double check, and keep the lock only on a cold cache. */
    method Enter(me: nat, now: real) returns (r: Option<Token>)
      requires holder == None
      modifies this
      ensures r == if Warm(old(View()), now) then old(token) else None
      ensures View() == old(View()).(holder := if r.Some? then None else Some(me))
    {
      holder := Some(me);
      r := Cached(now);
      if r.Some? {
        holder := None;
      }
    }

    /** The end of a successful `_refresh`. */
    method Finish(refreshed: Token, now: real)
      modifies this
      ensures View() == Remember(old(View()), refreshed, now).(holder := None)
    {
      token, at := Some(refreshed), now;
      holder := None;
    }

    /** Leaving `_refresh` by an exception. */
    method Release()
      modifies this
      ensures View() == old(View()).(holder := None)
    {
      holder := None;
    }

    method Invalidate()
      modifies this
      ensures View() == Cache(None, 0.0, old(holder))
    {
      token, at := None, 0.0;
    }
  }

  function Remember(c: Cache, t: Token, now: real): Cache {
    c.(token := Some(t), at := now)
  }

  // ---- All coroutines together ----

  /** Where a coroutine is suspended. From `Fetching` on it holds the lock. */
  datatype Pc =
    | Idle
    | Reading                                        // get_access_token awaits the row
    | HasRead(row: Option<Row>)
    | Queued                                         // _refresh awaits the lock
    | Fetching                                       // _refresh awaits the row
    | Fetched(row: Option<Row>)
    | Posting
    | Saving(token: Token, rotated: Option<string>, stamped: real, expiresIn: real)
    | Saved(token: Token, stamped: real, expiresIn: real)
    | Failing                                        // _refresh awaits set_error

  /** `epoch` counts invalidations. A mark records the clock and the epoch. */
  datatype Mark = Mark(at: real, epoch: nat)

  /** `obtained`: the caller's own row read or refresh gave the token; otherwise it came from the cache. */
  datatype Served = Served(token: Token, at: real, epoch: nat, obtained: bool)

  /** `posts`, `stores`, `served`: every token POST, successful refresh and returned token so far; `sent`: the refresh
      token each POST carried. */
  datatype World = World(
    now: real, cache: Cache, db: Option<Row>, pcs: map<nat, Pc>, epoch: nat,
    posts: seq<Mark>, sent: seq<string>, stores: seq<Mark>, served: seq<Served>)

  datatype Answer = Refused | Granted(text: string, rotated: Option<string>, expiresIn: real)

  datatype Step =
    | Tick(dt: real)
    | Get(c: nat)
    | Force(c: nat)
    | RowRead(c: nat)
    | Resume(c: nat)
    | Acquire(c: nat)
    | RowFetched(c: nat)
    | Send(c: nat)
    | Reply(c: nat, answer: Answer)
    | RowSaved(c: nat)
    | Store(c: nat)
    | GiveUp(c: nat)
    | Cancel(c: nat)
    | Invalidates
    | OthersWrite(db: Option<Row>)

  function At(w: World, c: nat): Pc {
    if c in w.pcs then w.pcs[c] else Idle
  }

  predicate Holds(pc: Pc) {
    pc.Fetching? || pc.Fetched? || pc.Posting? || pc.Saving? || pc.Saved? || pc.Failing?
  }

  function Move(w: World, c: nat, pc: Pc): World {
    w.(pcs := w.pcs[c := pc])
  }

  function Serve(w: World, c: nat, t: Token, obtained: bool): World {
    Move(w, c, Idle).(served := w.served + [Served(t, w.now, w.epoch, obtained)])
  }

  function Free(w: World): World {
    w.(cache := w.cache.(holder := None))
  }

  function Here(w: World): Mark {
    Mark(w.now, w.epoch)
  }

  /** `async with self._lock` and the double check, when the lock is free; otherwise the queue. */
  function EnterRefresh(w: World, c: nat): World {
    if w.cache.holder.Some? then Move(w, c, Queued)
    else if Warm(w.cache, w.now) then Serve(w, c, w.cache.token.value, false)
    else Move(w, c, Fetching).(cache := w.cache.(holder := Some(c)))
  }

  function SavedRow(row: Option<Row>, token: Token, rotated: Option<string>): Option<Row> {
    if row.None? then None
    else Some(Row(Some(token), if rotated.Some? && rotated.value != "" then rotated else row.value.refresh))
  }

  function Next(w: World, s: Step): World {
    match s
    case Tick(dt) => if dt > 0.0 then w.(now := w.now + dt) else w
    case Get(c) =>
      if !At(w, c).Idle? then w
      else if Warm(w.cache, w.now) then Serve(w, c, w.cache.token.value, false)
      else Move(w, c, Reading)
    case Force(c) => if At(w, c).Idle? then EnterRefresh(w, c) else w
    case RowRead(c) => if At(w, c).Reading? then Move(w, c, HasRead(w.db)) else w
    case Resume(c) =>
      if !At(w, c).HasRead? then w
      else if Usable(At(w, c).row, w.now) then
        var t := At(w, c).row.value.access.value;
        Serve(w, c, t, true).(cache := Remember(w.cache, t, w.now))
      else EnterRefresh(w, c)
    case Acquire(c) => if At(w, c).Queued? && w.cache.holder.None? then EnterRefresh(w, c) else w
    case RowFetched(c) => if At(w, c).Fetching? then Move(w, c, Fetched(w.db)) else w
    case Send(c) =>
      if !At(w, c).Fetched? then w
      else
        var row := At(w, c).row;
        if row.None? || row.value.refresh.None? then Free(Move(w, c, Idle))
        else Move(w, c, Posting).(posts := w.posts + [Here(w)], sent := w.sent + [row.value.refresh.value])
    case Reply(c, answer) =>
      if !At(w, c).Posting? then w
      else if answer.Refused? then Move(w, c, Failing)
      else Move(w, c, Saving(Token(answer.text, w.now + answer.expiresIn), answer.rotated, w.now, answer.expiresIn))
    case RowSaved(c) =>
      if !At(w, c).Saving? then w
      else
        var pc := At(w, c);
        if w.db.None? then Free(Move(w, c, Idle))
        else Move(w, c, Saved(pc.token, pc.stamped, pc.expiresIn)).(db := SavedRow(w.db, pc.token, pc.rotated))
    case Store(c) =>
      if !At(w, c).Saved? then w
      else
        var t := At(w, c).token;
        Free(Serve(w, c, t, true).(cache := Remember(w.cache, t, w.now), stores := w.stores + [Here(w)]))
    case GiveUp(c) => if At(w, c).Failing? then Free(Move(w, c, Idle)) else w
    case Cancel(c) => if Holds(At(w, c)) then Free(Move(w, c, Idle)) else Move(w, c, Idle)
    case Invalidates => w.(cache := Cache(None, 0.0, w.cache.holder), epoch := w.epoch + 1)
    case OthersWrite(db) => w.(db := db)
  }

  function Run(w: World, steps: seq<Step>): World
    decreases |steps|
  {
    if steps == [] then w else Run(Next(w, steps[0]), steps[1..])
  }

  function Start(now: real, db: Option<Row>): World {
    World(now, Cache(None, 0.0, None), db, map[], 0, [], [], [], [])
  }

  // ---- Single flight ----

  ghost predicate OneHolder(w: World) {
    forall c: nat :: Holds(At(w, c)) <==> w.cache.holder == Some(c)
  }

  lemma OneHolderStep(w: World, s: Step)
    requires OneHolder(w)
    ensures OneHolder(Next(w, s))
  {
    if !s.Tick? && !s.Invalidates? && !s.OthersWrite? {
      assert Holds(At(w, s.c)) <==> w.cache.holder == Some(s.c);
      forall c: nat ensures Holds(At(Next(w, s), c)) <==> Next(w, s).cache.holder == Some(c) {
        assert Holds(At(w, c)) <==> w.cache.holder == Some(c);
      }
    } else {
      forall c: nat ensures Holds(At(Next(w, s), c)) <==> Next(w, s).cache.holder == Some(c) {
        assert At(Next(w, s), c) == At(w, c);
      }
    }
  }

  // ---- Refreshes are a time-to-live apart ----

  /** Marks of one epoch are `gap` apart. */
  ghost predicate Spaced(marks: seq<Mark>, gap: real) {
    forall i, j :: 0 <= i < j < |marks| && marks[i].epoch == marks[j].epoch ==> marks[j].at - marks[i].at >= gap
  }

  ghost predicate Past(marks: seq<Mark>, now: real, epoch: nat) {
    forall i :: 0 <= i < |marks| ==> marks[i].at <= now && marks[i].epoch <= epoch
  }

  /** Every refresh of this epoch is at least a time-to-live old. */
  ghost predicate Cold(stores: seq<Mark>, now: real, epoch: nat) {
    forall i :: 0 <= i < |stores| && stores[i].epoch == epoch ==> now - stores[i].at >= CACHE_TTL
  }

  /** The cache is not older than any refresh of this epoch. */
  ghost predicate Remembered(w: World) {
    forall i :: 0 <= i < |w.stores| && w.stores[i].epoch == w.epoch ==>
      w.cache.token.Some? && w.stores[i].at <= w.cache.at
  }

  /** A POST comes before, or a time-to-live after, any refresh of its epoch. */
  ghost predicate PostsFollow(posts: seq<Mark>, stores: seq<Mark>) {
    forall i, j :: 0 <= i < |stores| && 0 <= j < |posts| && stores[i].epoch == posts[j].epoch ==>
      posts[j].at <= stores[i].at || posts[j].at - stores[i].at >= 30.0
  }

  /** Whoever holds the lock after the double check holds it because the cache was cold. */
  ghost predicate SpacingInv(w: World) {
    && (w.cache.token.Some? ==> w.cache.at <= w.now)
    && Past(w.stores, w.now, w.epoch) && Past(w.posts, w.now, w.epoch)
    && Remembered(w)
    && (w.cache.holder.Some? ==> Cold(w.stores, w.now, w.epoch))
    && Spaced(w.stores, 30.0)
    && PostsFollow(w.posts, w.stores)
  }

  lemma StoreKeepsSpacing(w: World, c: nat)
    requires SpacingInv(w) && w.cache.holder.Some? && At(w, c).Saved?
    ensures SpacingInv(Next(w, Store(c)))
  {
    var t := Next(w, Store(c));
    assert t.stores == w.stores + [Here(w)];
    assert Spaced(t.stores, 30.0);
    assert PostsFollow(t.posts, t.stores);
  }

  lemma SendKeepsSpacing(w: World, c: nat)
    requires SpacingInv(w) && w.cache.holder.Some? && At(w, c).Fetched?
    ensures SpacingInv(Next(w, Send(c)))
  {
    var t := Next(w, Send(c));
    assert t.posts == w.posts || t.posts == w.posts + [Here(w)];
    assert PostsFollow(t.posts, t.stores);
  }

  /** A step that sends no POST and ends no refresh keeps the spacing if it only lets time pass, keeps or
      renews the cached token, and takes the lock only on a cold cache. */
  lemma QuietKeepsSpacing(w: World, t: World)
    requires SpacingInv(w) && Quiet(w, t) && (t.cache.token.Some? ==> t.cache.at <= t.now)
    ensures SpacingInv(t)
  {
  }

  /** What such a step may do. */
  predicate Quiet(w: World, t: World) {
    && t.posts == w.posts && t.stores == w.stores && t.now >= w.now
    && (t.epoch > w.epoch || (t.epoch == w.epoch
        && ((t.cache.token == w.cache.token && t.cache.at == w.cache.at)
            || (t.cache.token.Some? && t.cache.at == t.now))
        && (t.cache.holder.Some? ==> w.cache.holder.Some? || !Warm(w.cache, w.now))))
  }

  lemma QuietStep(w: World, s: Step)
    requires !(s.Store? && At(w, s.c).Saved?) && !(s.Send? && At(w, s.c).Fetched?)
    ensures Quiet(w, Next(w, s))
    ensures (w.cache.token.Some? ==> w.cache.at <= w.now) ==>
              (Next(w, s).cache.token.Some? ==> Next(w, s).cache.at <= Next(w, s).now)
  {
  }

  lemma SpacingStep(w: World, s: Step)
    requires OneHolder(w) && SpacingInv(w)
    ensures SpacingInv(Next(w, s))
  {
    if s.Store? && At(w, s.c).Saved? {
      assert Holds(At(w, s.c));
      StoreKeepsSpacing(w, s.c);
    } else if s.Send? && At(w, s.c).Fetched? {
      assert Holds(At(w, s.c));
      SendKeepsSpacing(w, s.c);
    } else {
      QuietStep(w, s);
      QuietKeepsSpacing(w, Next(w, s));
    }
  }

  // ---- Served tokens last ----

  /** What a caller may rely on: more than the skew minus the cache's time to live, 60 - 30 seconds. */
  predicate Lasts(s: Served) {
    s.token.expiresAt > s.at + 30.0
  }

  ghost predicate LifetimeInv(w: World) {
    && (w.cache.token.Some? ==> w.cache.token.value.expiresAt >= w.cache.at + EXPIRY_SKEW)
    && (forall c: nat :: Stamps(At(w, c)))
    && (forall i :: 0 <= i < |w.served| ==> Lasts(w.served[i]))
  }

  /** The token being stored outlives the skew by the time its database write took. */
  predicate LongLived(w: World, c: nat)
    requires At(w, c).Saved?
  {
    At(w, c).expiresIn >= 60.0 + (w.now - At(w, c).stamped)
  }

  ghost predicate LongLivedRun(w: World, steps: seq<Step>)
    decreases |steps|
  {
    steps == [] ||
    ((steps[0].Store? && At(w, steps[0].c).Saved? ==> LongLived(w, steps[0].c)) &&
     LongLivedRun(Next(w, steps[0]), steps[1..]))
  }

  ghost predicate Stamps(pc: Pc) {
    && (pc.Saving? ==> pc.token.expiresAt == pc.stamped + pc.expiresIn)
    && (pc.Saved? ==> pc.token.expiresAt == pc.stamped + pc.expiresIn)
  }

  lemma StampsStep(w: World, s: Step, c: nat)
    requires forall d: nat :: Stamps(At(w, d))
    ensures Stamps(At(Next(w, s), c))
  {
    assert Stamps(At(w, c));
  }

  lemma LifetimeStep(w: World, s: Step)
    requires LifetimeInv(w) && (s.Store? && At(w, s.c).Saved? ==> LongLived(w, s.c))
    ensures LifetimeInv(Next(w, s))
  {
    var t := Next(w, s);
    forall c: nat ensures Stamps(At(t, c)) {
      StampsStep(w, s, c);
    }
    if s.Store? {
      assert Stamps(At(w, s.c));
    }
    assert t.served == w.served || (|t.served| == |w.served| + 1 && t.served[..|w.served|] == w.served
                                    && Lasts(t.served[|w.served|]));
  }

  // ---- Cached tokens are recent ----

  /** Entry `j` came from the cache: some caller of the same epoch obtained its token less than a time to live
      before. */
  predicate Explains(served: seq<Served>, k: int, j: int) {
    && 0 <= k < j < |served| && served[k].obtained
    && served[k].token == served[j].token && served[k].epoch == served[j].epoch
    && served[j].at - served[k].at < 30.0
  }

  ghost predicate Explained(served: seq<Served>, j: int)
    requires 0 <= j < |served|
  {
    served[j].obtained || exists k :: Explains(served, k, j)
  }

  /** The cached token is one that was obtained, at the time the cache remembers, in this epoch. */
  ghost predicate RecentInv(w: World) {
    && (w.cache.token.Some? ==> Served(w.cache.token.value, w.cache.at, w.epoch, true) in w.served)
    && forall j :: 0 <= j < |w.served| ==> Explained(w.served, j)
  }

  lemma ServedMore(served: seq<Served>, s: Served)
    requires forall j :: 0 <= j < |served| ==> Explained(served, j)
    requires s.obtained || exists k :: 0 <= k < |served| && served[k].obtained && served[k].token == s.token
                                       && served[k].epoch == s.epoch && s.at - served[k].at < CACHE_TTL
    ensures forall j :: 0 <= j <= |served| ==> Explained(served + [s], j)
    ensures forall x :: x in served || x == s ==> x in served + [s]
  {
    var all := served + [s];
    assert all[|served|] == s;
    assert forall j :: 0 <= j < |served| ==> all[j] == served[j];
    forall j | 0 <= j < |served| ensures Explained(all, j) {
      assert Explained(served, j);
      if !served[j].obtained {
        var k :| Explains(served, k, j);
        assert Explains(all, k, j);
      }
    }
    if k :| 0 <= k < |served| && served[k].obtained && served[k].token == s.token
            && served[k].epoch == s.epoch && s.at - served[k].at < CACHE_TTL {
      assert Explains(all, k, |served|);
    }
  }

  lemma RecentStep(w: World, s: Step)
    requires RecentInv(w)
    ensures RecentInv(Next(w, s))
  {
    var t := Next(w, s);
    if t.served != w.served {
      var last := t.served[|w.served|];
      assert t.served == w.served + [last];
      if !last.obtained {
        var k :| 0 <= k < |w.served| && w.served[k] == Served(w.cache.token.value, w.cache.at, w.epoch, true);
      }
      ServedMore(w.served, last);
    }
  }

  lemma {:induction false} RunRecent(w: World, steps: seq<Step>)
    requires RecentInv(w)
    ensures RecentInv(Run(w, steps))
    decreases |steps|
  {
    if steps != [] {
      RecentStep(w, steps[0]);
      RunRecent(Next(w, steps[0]), steps[1..]);
    }
  }

  /** What a cache hit means: in every interleaving, a token that is returned from the cache was obtained from
      the row or a refresh less than 30 s before, by a caller that was returned the same token, with no
      invalidation in between. */
  lemma CachedTokensAreRecent(now: real, db: Option<Row>, steps: seq<Step>, j: nat)
    requires j < |Run(Start(now, db), steps).served|
    ensures var served := Run(Start(now, db), steps).served;
            served[j].obtained || exists k :: Explains(served, k, j)
  {
    RunRecent(Start(now, db), steps);
    assert Explained(Run(Start(now, db), steps).served, j);
  }

  // ---- Which token is sent, saved and served ----

  /** Once its row has been read, `get_access_token` serves and caches the row's token exactly if that expires more than a
      minute from now; otherwise it goes on to refresh. */
  lemma RowServedExactly(w: World, c: nat)
    requires At(w, c).HasRead?
    ensures var row, t := At(w, c).row, Next(w, Resume(c));
            var good := row.Some? && row.value.access.Some? && row.value.access.value.expiresAt > w.now + 60.0;
            if good then
              && t.served == w.served + [Served(row.value.access.value, w.now, w.epoch, true)]
              && t.cache.token == row.value.access && t.cache.at == w.now && At(t, c).Idle?
            else t == EnterRefresh(w, c)
  {
  }

  /** What an observer of the steps notes down: the row each coroutine's last read found, the answer it was given and
      when, every answer whose save went through, every refresh token sent, and every access token obtained. */
  datatype Notes = Notes(
    rows: map<nat, Option<Row>>, answers: map<nat, (Answer, real)>,
    saved: seq<(Answer, real)>, sent: seq<string>, obtained: seq<Token>)

  const NO_NOTES := Notes(map[], map[], [], [], [])

  function TokenOf(a: (Answer, real)): Token
    requires a.0.Granted?
  {
    Token(a.0.text, a.1 + a.0.expiresIn)
  }

  function Note(n: Notes, w: World, s: Step): Notes {
    match s
    case RowRead(c) => if At(w, c).Reading? then n.(rows := n.rows[c := w.db]) else n
    case RowFetched(c) => if At(w, c).Fetching? then n.(rows := n.rows[c := w.db]) else n
    case Send(c) =>
      if At(w, c).Fetched? && c in n.rows && n.rows[c].Some? && n.rows[c].value.refresh.Some? then
        n.(sent := n.sent + [n.rows[c].value.refresh.value])
      else n
    case Reply(c, answer) => if At(w, c).Posting? then n.(answers := n.answers[c := (answer, w.now)]) else n
    case RowSaved(c) =>
      if At(w, c).Saving? && w.db.Some? && c in n.answers then n.(saved := n.saved + [n.answers[c]]) else n
    case Resume(c) =>
      if At(w, c).HasRead? && c in n.rows && Usable(n.rows[c], w.now) then
        n.(obtained := n.obtained + [n.rows[c].value.access.value])
      else n
    case Store(c) =>
      if At(w, c).Saved? && c in n.answers && n.answers[c].0.Granted? then
        n.(obtained := n.obtained + [TokenOf(n.answers[c])])
      else n
    case _ => n
  }

  function NoteAll(n: Notes, w: World, steps: seq<Step>): Notes
    decreases |steps|
  {
    if steps == [] then n else NoteAll(Note(n, w, steps[0]), Next(w, steps[0]), steps[1..])
  }

  /** The last refresh token that a saved answer carried, else the first one. */
  function LastRefresh(saved: seq<(Answer, real)>, first: Option<string>): Option<string> {
    if saved == [] then first
    else
      var a := saved[|saved| - 1].0;
      if a.Granted? && a.rotated.Some? && a.rotated.value != "" then a.rotated
      else LastRefresh(saved[..|saved| - 1], first)
  }

  function Obtained(served: seq<Served>): seq<Token> {
    if served == [] then []
    else
      var last := served[|served| - 1];
      Obtained(served[..|served| - 1]) + (if last.obtained then [last.token] else [])
  }

  /** What a coroutine is about to use is what it read or was given. */
  predicate Grounded(n: Notes, pc: Pc, c: nat) {
    && (pc.HasRead? ==> c in n.rows && n.rows[c] == pc.row)
    && (pc.Fetched? ==> c in n.rows && n.rows[c] == pc.row)
    && (pc.Saving? ==> c in n.answers && n.answers[c].0.Granted? && pc.token == TokenOf(n.answers[c])
                       && pc.rotated == n.answers[c].0.rotated)
    && (pc.Saved? ==> c in n.answers && n.answers[c].0.Granted? && pc.token == TokenOf(n.answers[c]))
  }

  ghost predicate Noted(n: Notes, w: World) {
    && (forall c: nat :: Grounded(n, At(w, c), c))
    && w.sent == n.sent && |w.posts| == |w.sent| && Obtained(w.served) == n.obtained
  }

  /** The row holds what the saves have left of the first one. */
  predicate RowNoted(n: Notes, w: World, first: Row) {
    && w.db.Some?
    && w.db.value.refresh == LastRefresh(n.saved, first.refresh)
    && w.db.value.access == (if n.saved == [] then first.access
                             else if n.saved[|n.saved| - 1].0.Granted? then Some(TokenOf(n.saved[|n.saved| - 1]))
                             else None)
  }

  lemma NoteGrounded(n: Notes, w: World, s: Step, c: nat)
    requires forall d: nat :: Grounded(n, At(w, d), d)
    ensures Grounded(Note(n, w, s), At(Next(w, s), c), c)
  {
    assert Grounded(n, At(w, c), c);
  }

  lemma NoteStep(n: Notes, w: World, s: Step)
    requires Noted(n, w)
    ensures Noted(Note(n, w, s), Next(w, s))
  {
    var t := Next(w, s);
    forall c: nat ensures Grounded(Note(n, w, s), At(t, c), c) {
      NoteGrounded(n, w, s, c);
    }
    if t.served != w.served {
      assert Grounded(n, At(w, s.c), s.c);
      assert t.served[..|w.served|] == w.served && |t.served| == |w.served| + 1;
      assert Obtained(t.served) ==
             Obtained(w.served) + (if t.served[|w.served|].obtained then [t.served[|w.served|].token] else []);
    } else if s.Send? {
      assert Grounded(n, At(w, s.c), s.c);
    }
  }

  lemma NoteRow(n: Notes, w: World, s: Step, first: Row)
    requires Noted(n, w) && RowNoted(n, w, first) && !s.OthersWrite?
    ensures RowNoted(Note(n, w, s), Next(w, s), first)
  {
    if s.RowSaved? && At(w, s.c).Saving? {
      assert Grounded(n, At(w, s.c), s.c);
      var m := Note(n, w, s);
      assert m.saved[..|n.saved|] == n.saved && m.saved[|n.saved|] == n.answers[s.c];
    }
  }

  lemma {:induction false} NotesHold(n: Notes, w: World, steps: seq<Step>)
    requires Noted(n, w)
    ensures Noted(NoteAll(n, w, steps), Run(w, steps))
    decreases |steps|
  {
    if steps != [] {
      NoteStep(n, w, steps[0]);
      NotesHold(Note(n, w, steps[0]), Next(w, steps[0]), steps[1..]);
    }
  }

  lemma {:induction false} RowNotesHold(n: Notes, w: World, steps: seq<Step>, first: Row)
    requires Noted(n, w) && RowNoted(n, w, first) && forall i :: 0 <= i < |steps| ==> !steps[i].OthersWrite?
    ensures RowNoted(NoteAll(n, w, steps), Run(w, steps), first)
    decreases |steps|
  {
    if steps != [] {
      assert !steps[0].OthersWrite?;
      NoteStep(n, w, steps[0]);
      NoteRow(n, w, steps[0], first);
      RowNotesHold(Note(n, w, steps[0]), Next(w, steps[0]), steps[1..], first);
    }
  }

  /** In every interleaving each POST carries the refresh token its own row read found, and each token obtained, from
      the row or a refresh, is the one in the row that was read or in the answer that was given. */
  lemma TokensAreTheRightOnes(now: real, db: Option<Row>, steps: seq<Step>)
    ensures var w, n := Run(Start(now, db), steps), NoteAll(NO_NOTES, Start(now, db), steps);
            w.sent == n.sent && |w.posts| == |w.sent| && Obtained(w.served) == n.obtained
  {
    NotesHold(NO_NOTES, Start(now, db), steps);
  }

  /** In every interleaving without other writers the row holds the access token of the last saved answer and the last
      refresh token that any saved answer carried, so a rotated token is never dropped or overwritten by its absence. */
  lemma RotationIsKept(now: real, first: Row, steps: seq<Step>)
    requires forall i :: 0 <= i < |steps| ==> !steps[i].OthersWrite?
    ensures RowNoted(NoteAll(NO_NOTES, Start(now, Some(first)), steps), Run(Start(now, Some(first)), steps), first)
  {
    RowNotesHold(NO_NOTES, Start(now, Some(first)), steps, first);
  }

  // ---- Main results ----

  ghost predicate Inv(w: World) {
    OneHolder(w) && SpacingInv(w)
  }

  lemma {:induction false} RunKeeps(w: World, steps: seq<Step>)
    requires Inv(w)
    ensures Inv(Run(w, steps))
    decreases |steps|
  {
    if steps != [] {
      OneHolderStep(w, steps[0]);
      SpacingStep(w, steps[0]);
      RunKeeps(Next(w, steps[0]), steps[1..]);
    }
  }

  lemma {:induction false} RunLasts(w: World, steps: seq<Step>)
    requires LifetimeInv(w) && LongLivedRun(w, steps)
    ensures LifetimeInv(Run(w, steps))
    decreases |steps|
  {
    if steps != [] {
      LifetimeStep(w, steps[0]);
      RunLasts(Next(w, steps[0]), steps[1..]);
    }
  }

  /** Single flight, in every interleaving: at most one token POST is in flight, and between two
      invalidations successful refreshes are a time-to-live apart and nobody POSTs sooner than that after
      one. Cancellation and other writers of the row are included. */
  lemma SingleFlight(now: real, db: Option<Row>, steps: seq<Step>)
    ensures var w := Run(Start(now, db), steps);
            && (forall c: nat, d: nat :: At(w, c).Posting? && At(w, d).Posting? ==> c == d)
            && Spaced(w.stores, 30.0)
            && PostsFollow(w.posts, w.stores)
  {
    RunKeeps(Start(now, db), steps);
    var w := Run(Start(now, db), steps);
    forall c: nat, d: nat | At(w, c).Posting? && At(w, d).Posting? ensures c == d {
      assert Holds(At(w, c)) && Holds(At(w, d));
    }
  }

  /** If every refresh brings a token that outlives the skew and its own database write, every token ever
      returned, from the cache, the row or a refresh, has more than 30 s left. */
  lemma ServedTokensLast(now: real, db: Option<Row>, steps: seq<Step>)
    requires LongLivedRun(Start(now, db), steps)
    ensures var w := Run(Start(now, db), steps);
            forall i :: 0 <= i < |w.served| ==> Lasts(w.served[i])
  {
    RunLasts(Start(now, db), steps);
  }

  lemma RunTwo(w: World, a: Step, b: Step)
    ensures Run(w, [a, b]) == Next(Next(w, a), b)
  {
    assert [a, b][1..] == [b] && [b][1..] == [];
    assert Run(w, [a, b]) == Run(Next(w, a), [b]);
    assert Run(Next(w, a), [b]) == Run(Next(Next(w, a), b), []);
  }

  /** The condition is exact. When a refresh ends, all that can be served afterwards lasts if and only if
      that refresh brought a long-lived token. */
  lemma LastsExactlyWhenLongLived(w: World, c: nat)
    requires LifetimeInv(w) && At(w, c).Saved?
    ensures LongLived(w, c) <==>
            forall steps :: LongLivedRun(Next(w, Store(c)), steps) ==>
                              LifetimeServed(Run(Next(w, Store(c)), steps))
  {
    var t := Next(w, Store(c));
    assert Stamps(At(w, c));
    if LongLived(w, c) {
      LifetimeStep(w, Store(c));
      forall steps | LongLivedRun(t, steps) ensures LifetimeServed(Run(t, steps)) {
        RunLasts(t, steps);
      }
    } else {
      var left := At(w, c).token.expiresAt - w.now;
      var steps := [Tick(if left > 30.0 then left - 30.0 else 0.0), Get(c)];
      RunTwo(t, steps[0], steps[1]);
      assert steps[1..] == [steps[1]] && [steps[1]][1..] == [];
      assert LongLivedRun(t, steps);
      var u := Run(t, steps);
      assert !Lasts(u.served[|t.served|]);
    }
  }

  ghost predicate LifetimeServed(w: World) {
    forall i :: 0 <= i < |w.served| ==> Lasts(w.served[i])
  }

  // ---- What the names promise and the code does not ----

  lemma {:induction false} TimeGrows(w: World, steps: seq<Step>)
    ensures Run(w, steps).now >= w.now
    decreases |steps|
  {
    if steps != [] {
      TimeGrows(Next(w, steps[0]), steps[1..]);
    }
  }

  predicate Undisturbed(steps: seq<Step>) {
    Invalidates !in steps
  }

  predicate Reads(pc: Pc) {
    pc.Reading? || pc.HasRead?
  }

  ghost predicate NobodyReads(w: World) {
    forall c: nat :: !Reads(At(w, c))
  }

  /** Warm until `until`, with the lock free. */
  predicate WarmAndFree(w: World, until: real) {
    w.cache.token.Some? && w.cache.holder.None? && until <= w.cache.at + 30.0
  }

  lemma WarmStep(w: World, s: Step, until: real)
    requires OneHolder(w) && (w.cache.token.Some? ==> w.cache.at <= w.now)
    requires WarmAndFree(w, until) && w.now < until && !s.Invalidates?
    ensures var t := Next(w, s);
            WarmAndFree(t, until) && t.posts == w.posts && (t.cache.token.Some? ==> t.cache.at <= t.now)
    ensures NobodyReads(w) ==>
              && NobodyReads(Next(w, s)) && Next(w, s).cache == w.cache
              && (Next(w, s).served == w.served ||
                  Next(w, s).served == w.served + [Served(w.cache.token.value, w.now, w.epoch, false)])
  {
    if !s.Tick? && !s.OthersWrite? {
      assert !Holds(At(w, s.c));
      if NobodyReads(w) {
        assert !Reads(At(w, s.c));
        forall c: nat ensures !Reads(At(Next(w, s), c)) {
          assert !Reads(At(w, c));
        }
      }
    } else if NobodyReads(w) {
      forall c: nat ensures !Reads(At(Next(w, s), c)) {
        assert !Reads(At(w, c));
      }
    }
  }

  /** `force_refresh` never reaches the token endpoint while the cache is warm. From any state with a warm cache
      and a free lock, over every run that is not invalidated and stays within the time to live, nobody sends a
      POST or takes the lock, whether calling `get_access_token`, calling `force_refresh` or already queued; and
      unless somebody had a row read under way, every call returns the very token it may have wanted replaced. */
  lemma {:induction false} ForceHonoursWarmCache(w: World, steps: seq<Step>, until: real)
    requires Inv(w) && WarmAndFree(w, until)
    requires Undisturbed(steps) && Run(w, steps).now < until
    ensures var t := Run(w, steps);
            && t.posts == w.posts && t.cache.holder.None?
            && (forall c: nat :: !Holds(At(t, c)))
            && (NobodyReads(w) ==>
                  && t.cache.token == w.cache.token && w.served <= t.served
                  && forall i :: |w.served| <= i < |t.served| ==> t.served[i].token == w.cache.token.value)
    decreases |steps|
  {
    if steps != [] {
      TimeGrows(w, steps);
      WarmStep(w, steps[0], until);
      OneHolderStep(w, steps[0]);
      SpacingStep(w, steps[0]);
      ForceHonoursWarmCache(Next(w, steps[0]), steps[1..], until);
    }
  }

  /** The database announces a refresh to the process that made it, too. When that invalidation comes
      before a queued coroutine gets the lock, the coroutine POSTs again, however recent the refresh and
      however good the token in the row. Without it, a warm cache spares the POST. */
  lemma OwnNoticeDefeatsSingleFlight(w: World, c: nat)
    requires At(w, c).Queued? && w.cache.holder.None? && Warm(w.cache, w.now)
    requires w.db.Some? && w.db.value.refresh.Some?
    ensures Next(w, Acquire(c)).served == w.served + [Served(w.cache.token.value, w.now, w.epoch, false)]
    ensures Run(w, [Invalidates, Acquire(c), RowFetched(c), Send(c)]).posts == w.posts + [Mark(w.now, w.epoch + 1)]
  {
    var w1 := Next(w, Invalidates);
    var w2 := Next(w1, Acquire(c));
    var w3 := Next(w2, RowFetched(c));
    RunTwo(w, Invalidates, Acquire(c));
    RunTwo(w2, RowFetched(c), Send(c));
    RunConcat(w, [Invalidates, Acquire(c)], [RowFetched(c), Send(c)]);
    assert [Invalidates, Acquire(c)] + [RowFetched(c), Send(c)] == [Invalidates, Acquire(c), RowFetched(c), Send(c)];
  }

  lemma {:induction false} RunConcat(w: World, xs: seq<Step>, ys: seq<Step>)
    ensures Run(w, xs + ys) == Run(Run(w, xs), ys)
    decreases |xs|
  {
    if xs == [] {
      assert xs + ys == ys;
    } else {
      assert (xs + ys)[1..] == xs[1..] + ys;
      RunConcat(Next(w, xs[0]), xs[1..], ys);
    }
  }
}
