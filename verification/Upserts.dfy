/** What contact, mail and deletion events mean for the graph, and what a person is called after a whole log. */
module Upserts {
  import opened Payloads
  import opened Cypher
  import opened Registers
  import opened Refinement
  import opened Mappers
  import opened Projection
  import opened Replay
  import opened Effects

  /** The node an event upserts and the values it offers it; null values are not written. */
  datatype Upsert = Upsert(id: NodeId, offers: seq<(Prop, Json)>)

  predicate Upserting(m: Mapper) {
    m != CalendarCreated && m != CalendarReply
  }

  /** The natural key of the payload: without it the event asks for nothing. */
  function KeyOf(m: Mapper, payload: Dict): Json {
    match m
    case CalendarDeleted => Get(payload, "uid")
    case ContactCreated => Get(payload, "email")
    case ContactDeleted => Get(payload, "email")
    case _ => Get(payload, "message_id")
  }

  function LabelOf(m: Mapper): Label {
    match m
    case CalendarDeleted => CalendarEvent
    case ContactCreated => Person
    case ContactDeleted => Person
    case _ => Email
  }

  function OffersOf(env: Env, m: Mapper, payload: Dict): seq<(Prop, Json)> {
    match m
    case ContactCreated => [(PFn, Get(payload, "fn")), (PTel, Get(payload, "tel")), (PDeleted, JBool(false))]
    case MailReceived =>
      [(PUser, Get(payload, "user")), (PMailboxPath, FlattenPath(env, Get(payload, "mailbox_path"))),
       (PReceivedAt, Get(payload, "timestamp")), (PDeleted, JBool(false))]
    case MailMoved => [(PMailboxPath, FlattenPath(env, Get(payload, "mailbox_path")))]
    case MailFlags =>
      var flags := Get(payload, "flags");
      [(PRead, JBool(flags.JArr? && JStr("\\Seen") in flags.items))]
    case _ => [(PDeleted, JBool(true))]
  }

  /** A move whose path cannot be read asks for nothing, not even for the node. */
  function AskedBy(env: Env, m: Mapper, payload: Dict): Option<Upsert> {
    if !Truthy(KeyOf(m, payload)) then None
    else if m == MailMoved && FlattenPath(env, Get(payload, "mailbox_path")) == JNull then None
    else Some(Upsert(NodeId(LabelOf(m), KeyOf(m, payload)), OffersOf(env, m, payload)))
  }

  predicate Employs(m: Mapper, payload: Dict) {
    m == ContactCreated && Truthy(Get(payload, "email")) && Truthy(Get(payload, "org"))
  }

  // ---- Operations ----

  function UpsertOps(u: Upsert): seq<CellOp> {
    var ent := NodeEnt(u.id);
    [Put(Exists(ent), JBool(true)), Put(PropOf(ent, NaturalKey(u.id.lab)), u.id.key)] + SetOps(ent, u.offers)
  }

  function EmployerOps(person: Json, org: Json): seq<CellOp> {
    var company := NodeId(Organization, org);
    [Put(Exists(NodeEnt(company)), JBool(true)), Put(PropOf(NodeEnt(company), PName), org)] +
    [Put(Exists(EdgeEnt(WORKS_AT, NodeId(Person, person), company)), JBool(true))]
  }

  function UpsertStmt(v: Var, u: Upsert): Stmt {
    [MergeNode(v, u.id.lab, u.id.key)] + SetNonNull(v, u.offers)
  }

  predicate SparesKey(u: Upsert) {
    u.id.key != JNull && forall i :: 0 <= i < |u.offers| ==> u.offers[i].0 != NaturalKey(u.id.lab)
  }

  lemma UpsertStmtOps(v: Var, u: Upsert)
    requires SparesKey(u)
    ensures TypedAll(UpsertStmt(v, u), map[]) && OpsOfAll(UpsertStmt(v, u), map[]) == UpsertOps(u)
  {
    var c := MergeNode(v, u.id.lab, u.id.key);
    SetNonNullOps(v, u.offers, NamesAfter(c, map[]));
    OpsCons(c, SetNonNull(v, u.offers), map[]);
  }

  lemma WorksAtOps(email: Json, org: Json)
    requires email != JNull && org != JNull
    ensures TypedAll(WorksAtStmt(email, org), map[])
    ensures OpsOfAll(WorksAtStmt(email, org), map[]) == EmployerOps(email, org)
  {
    var c0, c1 := MergeNode(VarO, Organization, org), MatchNode(VarP, Person, email);
    var c2 := MergeEdge(VarR, VarP, WORKS_AT, VarO);
    var n1 := NamesAfter(c0, map[]);
    var n2 := NamesAfter(c1, n1);
    OpsCons(c2, [], n2);
    OpsCons(c1, [c2] + [], n1);
    OpsCons(c0, [c1] + ([c2] + []), map[]);
    assert WorksAtStmt(email, org) == [c0] + ([c1] + ([c2] + []));
  }

  lemma OneStmtOps(s: Stmt)
    requires TypedAll(s, map[])
    ensures AllTyped([s]) && OpsOfStmts([s]) == OpsOfAll(s, map[])
  {
    assert [s][1..] == [];
    assert OpsOfStmts([s]) == OpsOfAll(s, map[]) + [];
  }

  function VarOf(m: Mapper): Var {
    if m == ContactCreated || m == ContactDeleted then VarP else VarE
  }

  lemma OneOffer(v: Var, p: Prop, value: Json)
    requires value != JNull
    ensures SetNonNull(v, [(p, value)]) == [SetTo(v, p, value)]
  {
    assert [(p, value)][1..] == [];
  }

  /** The statements of such an event: one upsert, and the employer of a contact. */
  lemma UpsertStmts(env: Env, m: Mapper, payload: Dict)
    requires Upserting(m)
    ensures var asked := AskedBy(env, m, payload);
            MapWith(env, m, payload) ==
            Some((if asked.None? then [] else [UpsertStmt(VarOf(m), asked.value)]) +
                 (if Employs(m, payload) then [WorksAtStmt(Get(payload, "email"), Get(payload, "org"))] else []))
  {
    var asked := AskedBy(env, m, payload);
    var none: seq<Stmt> := [];
    if asked.None? {
      assert none + none == none;
    } else {
      var v, u := VarOf(m), asked.value;
      var stmt := UpsertStmt(v, u);
      assert [stmt] + none == [stmt];
      if |u.offers| == 1 {
        OneOffer(v, u.offers[0].0, u.offers[0].1);
        assert stmt == [MergeNode(v, u.id.lab, u.id.key), SetTo(v, u.offers[0].0, u.offers[0].1)];
      }
    }
  }

  lemma AskedSparesKey(env: Env, m: Mapper, payload: Dict)
    requires Upserting(m) && AskedBy(env, m, payload).Some?
    ensures SparesKey(AskedBy(env, m, payload).value)
  {
  }

  function EventOpsOf(env: Env, m: Mapper, payload: Dict): seq<CellOp> {
    var asked := AskedBy(env, m, payload);
    (if asked.None? then [] else UpsertOps(asked.value)) +
    (if Employs(m, payload) then EmployerOps(Get(payload, "email"), Get(payload, "org")) else [])
  }

  ghost predicate Applies(env: Env, ev: Event, m: Mapper) {
    GetMapper(ev.exchange) == Some(m) && OutcomeOf(env, ev).Runs?
  }

  lemma UpsertEventOps(env: Env, ev: Event, m: Mapper)
    requires Applies(env, ev, m) && Upserting(m)
    ensures OpsOfEvent(env, ev) == EventOpsOf(env, m, ev.payload)
  {
    var asked, email, org := AskedBy(env, m, ev.payload), Get(ev.payload, "email"), Get(ev.payload, "org");
    var first := if asked.None? then [] else [UpsertStmt(VarOf(m), asked.value)];
    var second := if Employs(m, ev.payload) then [WorksAtStmt(email, org)] else [];
    RunsAreSound(env, ev);
    UpsertStmts(env, m, ev.payload);
    assert OutcomeOf(env, ev).stmts == first + second;
    if asked.Some? {
      AskedSparesKey(env, m, ev.payload);
      UpsertStmtOps(VarOf(m), asked.value);
      OneStmtOps(UpsertStmt(VarOf(m), asked.value));
    }
    if Employs(m, ev.payload) {
      WorksAtOps(email, org);
      OneStmtOps(WorksAtStmt(email, org));
    }
    OpsOfStmtsConcat(first, second);
  }

  // ---- Effects ----

  /** A register after the upsert. */
  function Upserted(u: Upsert, c: Cell, x: Json): Json {
    if c.ent != NodeEnt(u.id) then x
    else if c.Exists? then JBool(true)
    else if c.prop == NaturalKey(u.id.lab) then u.id.key
    else LastSet(u.offers, c.prop, x)
  }

  lemma UpsertOpsOn(u: Upsert, c: Cell, x: Json)
    requires SparesKey(u)
    ensures RunOps(UpsertOps(u), c, x) == Upserted(u, c, x)
  {
    var ent := NodeEnt(u.id);
    var a, b := Put(Exists(ent), JBool(true)), Put(PropOf(ent, NaturalKey(u.id.lab)), u.id.key);
    RunOpsConcat([a, b], SetOps(ent, u.offers), c, x);
    RunTwo(a, b, c, x);
    SetOpsOn(ent, u.offers, c, RunOps([a, b], c, x));
    NotSet(u.offers, NaturalKey(u.id.lab), u.id.key);
  }

  /** A register after the employer statement. */
  function Employed(person: Json, org: Json, c: Cell, x: Json): Json {
    var company := NodeId(Organization, org);
    if c == Exists(NodeEnt(company)) || c == Exists(EdgeEnt(WORKS_AT, NodeId(Person, person), company)) then JBool(true)
    else if c == PropOf(NodeEnt(company), PName) then org
    else x
  }

  lemma EmployerOpsOn(person: Json, org: Json, c: Cell, x: Json)
    ensures RunOps(EmployerOps(person, org), c, x) == Employed(person, org, c, x)
  {
    var ops := EmployerOps(person, org);
    assert ops == [ops[0], ops[1]] + [ops[2]];
    RunOpsConcat([ops[0], ops[1]], [ops[2]], c, x);
    RunTwo(ops[0], ops[1], c, x);
    RunOne(ops[2], c, RunOps([ops[0], ops[1]], c, x));
  }

  /** Contact, mail and deletion events: the node with the payload's key exists and has the offered values,
      missing ones kept; a contact's employer and the edge to it exist; and every other node, edge and
      property of the graph is as before. */
  lemma UpsertEffects(env: Env, g: Graph, ev: Event, m: Mapper, c: Cell)
    requires WellFormed(g) && Applies(env, ev, m) && Upserting(m)
    ensures var asked := AskedBy(env, m, ev.payload);
            var x := if asked.None? then Look(g, c) else Upserted(asked.value, c, Look(g, c));
            Look(Project(env, g, ev), c) ==
            if Employs(m, ev.payload) then Employed(Get(ev.payload, "email"), Get(ev.payload, "org"), c, x) else x
  {
    ProjectRefines(env, g, ev);
    UpsertEventOps(env, ev, m);
    var asked, email, org := AskedBy(env, m, ev.payload), Get(ev.payload, "email"), Get(ev.payload, "org");
    var first := if asked.None? then [] else UpsertOps(asked.value);
    var second := if Employs(m, ev.payload) then EmployerOps(email, org) else [];
    RunOpsConcat(first, second, c, Look(g, c));
    if asked.Some? {
      AskedSparesKey(env, m, ev.payload);
      UpsertOpsOn(asked.value, c, Look(g, c));
    }
    if Employs(m, ev.payload) {
      EmployerOpsOn(email, org, c, RunOps(first, c, Look(g, c)));
    }
    assert Look(Project(env, g, ev), c) == RunOps(OpsOfEvent(env, ev), c, Look(g, c));
  }

  /** What a deletion leaves behind: the node, marked deleted, with all its other properties and edges. */
  lemma DeletionKeepsHistory(env: Env, g: Graph, ev: Event, m: Mapper, c: Cell)
    requires WellFormed(g) && Applies(env, ev, m)
    requires m in {CalendarDeleted, ContactDeleted, MailExpunged} && Truthy(KeyOf(m, ev.payload))
    ensures var id := NodeId(LabelOf(m), KeyOf(m, ev.payload));
            Look(Project(env, g, ev), c) ==
            if c == PropOf(NodeEnt(id), PDeleted) || c == Exists(NodeEnt(id)) then JBool(true)
            else if c == PropOf(NodeEnt(id), NaturalKey(id.lab)) then id.key
            else Look(g, c)
  {
    UpsertEffects(env, g, ev, m, c);
    var offers := OffersOf(env, m, ev.payload);
    assert offers[1..] == [];
    assert forall p, x :: LastSet(offers, p, x) == LastSet([], p, if p == PDeleted then JBool(true) else x);
  }

  // ---- Names over a whole log ----

  /** The name a contact event gives for an address, or null. */
  function ContactName(env: Env, ev: Event, email: Json): Json {
    if GetMapper(ev.exchange) == Some(ContactCreated) && OutcomeOf(env, ev).Runs?
       && Truthy(email) && Get(ev.payload, "email") == email then Get(ev.payload, "fn")
    else JNull
  }

  /** The first name a calendar event gives for an address, or null. */
  function CalendarName(env: Env, ev: Event, email: Json): Json {
    if GetMapper(ev.exchange) == Some(CalendarCreated) && OutcomeOf(env, ev).Runs? && Truthy(Get(ev.payload, "uid")) then
      FirstName(People(ev.payload), email)
    else JNull
  }

  lemma {:induction false} RsvpsKeepNames(rsvps: seq<Rsvp>, uid: Json, email: Json, x: Json)
    ensures RunOps(RsvpsOps(rsvps, uid), PropOf(PersonEnt(email), PFn), x) == x
  {
    if rsvps != [] {
      var c := PropOf(PersonEnt(email), PFn);
      var ops := RsvpOps(rsvps[0], uid);
      RunOpsConcat(ops, RsvpsOps(rsvps[1..], uid), c, x);
      assert ops == [ops[0], ops[1]] + [ops[2], ops[3], ops[4], ops[5]];
      RunOpsConcat([ops[0], ops[1]], [ops[2], ops[3], ops[4], ops[5]], c, x);
      RunTwo(ops[0], ops[1], c, x);
      Run4(ops[2], ops[3], ops[4], ops[5], c, x);
      RsvpsKeepNames(rsvps[1..], uid, email, x);
    }
  }

  /** A contact's name overwrites, a calendar's name only fills in, and nothing else names anybody. */
  lemma NameAfterEvent(env: Env, g: Graph, ev: Event, email: Json)
    requires WellFormed(g)
    ensures var c := PropOf(PersonEnt(email), PFn);
            var contact, known := ContactName(env, ev, email), Look(g, c);
            Look(Project(env, g, ev), c) ==
            if contact != JNull then contact
            else if known != JNull then known
            else CalendarName(env, ev, email)
  {
    var c := PropOf(PersonEnt(email), PFn);
    var o := OutcomeOf(env, ev);
    if o.Runs? {
      var m := GetMapper(ev.exchange).value;
      if m == CalendarCreated {
        CalendarNameAfter(env, g, ev, email);
      } else if m == CalendarReply {
        ReplyNameAfter(env, g, ev, email);
      } else {
        UpsertEffects(env, g, ev, m, c);
        OffersName(env, m, ev.payload, Look(g, c));
      }
    }
  }

  lemma OffersName(env: Env, m: Mapper, payload: Dict, x: Json)
    requires Upserting(m)
    ensures LastSet(OffersOf(env, m, payload), PFn, x) ==
            if m == ContactCreated && Get(payload, "fn") != JNull then Get(payload, "fn") else x
  {
    var offers := OffersOf(env, m, payload);
    NotSet(offers[1..], PFn, if offers[0].0 == PFn && offers[0].1 != JNull then offers[0].1 else x);
  }

  lemma CalendarNameAfter(env: Env, g: Graph, ev: Event, email: Json)
    requires WellFormed(g) && Applies(env, ev, CalendarCreated)
    ensures var c := PropOf(PersonEnt(email), PFn);
            Look(Project(env, g, ev), c) == if Look(g, c) != JNull then Look(g, c) else CalendarName(env, ev, email)
  {
    if Truthy(Get(ev.payload, "uid")) {
      CreatedNames(env, g, ev, email);
    }
  }

  lemma ReplyNameAfter(env: Env, g: Graph, ev: Event, email: Json)
    requires WellFormed(g) && Applies(env, ev, CalendarReply)
    ensures var c := PropOf(PersonEnt(email), PFn); Look(Project(env, g, ev), c) == Look(g, c)
  {
    var c, uid := PropOf(PersonEnt(email), PFn), Get(ev.payload, "uid");
    ProjectRefines(env, g, ev);
    if Truthy(uid) {
      ReplyOps(env, ev);
      RsvpsKeepNames(Rsvps(ev.payload), uid, email, Look(g, c));
      assert Look(Project(env, g, ev), c) == RunOps(OpsOfEvent(env, ev), c, Look(g, c));
    }
  }

  /** The last name any contact event of the log gives for the address, or null. */
  function LastContactName(env: Env, evs: seq<Event>, email: Json): Json {
    if evs == [] then JNull
    else
      var later := LastContactName(env, evs[1..], email);
      if later != JNull then later else ContactName(env, evs[0], email)
  }

  /** The first name any calendar event of the log gives for the address, or null. */
  function FirstCalendarName(env: Env, evs: seq<Event>, email: Json): Json {
    if evs == [] then JNull
    else
      var here := CalendarName(env, evs[0], email);
      if here != JNull then here else FirstCalendarName(env, evs[1..], email)
  }

  /** After a whole log a person is called what the last contact event with a name says, wherever the
      calendar events stand; failing that, what the graph already said; failing that, what the first calendar
      event with a name says. */
  lemma {:induction false} NameAfterLog(env: Env, g: Graph, evs: seq<Event>, email: Json)
    requires WellFormed(g)
    ensures var c := PropOf(PersonEnt(email), PFn);
            var contact, known := LastContactName(env, evs, email), Look(g, c);
            Look(ProjectAll(env, g, evs), c) ==
            if contact != JNull then contact
            else if known != JNull then known
            else FirstCalendarName(env, evs, email)
    decreases |evs|
  {
    if evs != [] {
      NameAfterEvent(env, g, evs[0], email);
      ProjectRefines(env, g, evs[0]);
      NameAfterLog(env, Project(env, g, evs[0]), evs[1..], email);
    }
  }
}
