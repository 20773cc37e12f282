/** What a calendar event means for the graph: which edges it adds, whose name it fills in, which
    properties it overwrites, and what it leaves alone. */
module Effects {
  import opened Payloads
  import opened Cypher
  import opened Registers
  import opened Refinement
  import opened Mappers
  import opened Projection
  import opened Replay

  /** A person a calendar payload mentions, and how. */
  datatype Mention = Mention(kind: Kind, email: Json, cn: Json)

  function MentionIn(kind: Kind, entry: Json): seq<Mention> {
    if entry.JObj? && Truthy(Get(entry.fields, "email")) then
      [Mention(kind, Get(entry.fields, "email"), Get(entry.fields, "cn"))]
    else []
  }

  function AttendeeMentions(atts: seq<Json>): seq<Mention> {
    if atts == [] then [] else MentionIn(ATTENDED, atts[0]) + AttendeeMentions(atts[1..])
  }

  /** Organizer first, then attendees in order. */
  function People(payload: Dict): seq<Mention> {
    var atts := Iterate(Get(payload, "attendees"));
    MentionIn(ORGANIZED, Get(payload, "organizer")) + (if atts.None? then [] else AttendeeMentions(atts.value))
  }

  predicate Mentioned(people: seq<Mention>, kind: Kind, email: Json) {
    exists i :: 0 <= i < |people| && people[i].kind == kind && people[i].email == email
  }

  /** The first name given for an address, or null. */
  function FirstName(people: seq<Mention>, email: Json): Json {
    if people == [] then JNull
    else if people[0].email == email && people[0].cn != JNull then people[0].cn
    else FirstName(people[1..], email)
  }

  // ---- Operations of the statements ----

  function PersonEnt(email: Json): Entity {
    NodeEnt(NodeId(Person, email))
  }

  function EventEnt(uid: Json): Entity {
    NodeEnt(NodeId(CalendarEvent, uid))
  }

  function LinkEnt(m: Mention, uid: Json): Entity {
    EdgeEnt(m.kind, NodeId(Person, m.email), NodeId(CalendarEvent, uid))
  }

  function MentionOps(m: Mention, uid: Json): seq<CellOp> {
    [Put(Exists(PersonEnt(m.email)), JBool(true)), Put(PropOf(PersonEnt(m.email), PEmail), m.email),
     Fill(PropOf(PersonEnt(m.email), PFn), m.cn), Put(Exists(LinkEnt(m, uid)), JBool(true))]
  }

  function MentionsOps(people: seq<Mention>, uid: Json): seq<CellOp> {
    if people == [] then [] else MentionOps(people[0], uid) + MentionsOps(people[1..], uid)
  }

  lemma {:induction false} MentionsOpsConcat(a: seq<Mention>, b: seq<Mention>, uid: Json)
    ensures MentionsOps(a + b, uid) == MentionsOps(a, uid) + MentionsOps(b, uid)
  {
    if a == [] {
      assert a + b == b;
    } else {
      assert (a + b)[1..] == a[1..] + b;
      MentionsOpsConcat(a[1..], b, uid);
    }
  }

  lemma OpsCons(c: Clause, rest: seq<Clause>, names: Names)
    requires Typed(c, names) && TypedAll(rest, NamesAfter(c, names))
    ensures TypedAll([c] + rest, names)
    ensures OpsOfAll([c] + rest, names) == OpsOf(c, names) + OpsOfAll(rest, NamesAfter(c, names))
  {
    assert ([c] + rest)[1..] == rest;
  }

  lemma LinkOps(m: Mention, uid: Json)
    requires uid != JNull && m.email != JNull
    ensures TypedAll(LinkStmt(uid, m.email, m.cn, m.kind), map[])
    ensures OpsOfAll(LinkStmt(uid, m.email, m.cn, m.kind), map[]) == MentionOps(m, uid)
  {
    var c0, c1 := MergeNode(VarP, Person, m.email), SetCoalesce(VarP, PFn, m.cn);
    var c2, c3 := MatchNode(VarE, CalendarEvent, uid), MergeEdge(VarR, VarP, m.kind, VarE);
    var n1 := NamesAfter(c0, map[]);
    var n2 := NamesAfter(c1, n1);
    var n3 := NamesAfter(c2, n2);
    OpsCons(c3, [], n3);
    OpsCons(c2, [c3] + [], n2);
    OpsCons(c1, [c2] + ([c3] + []), n1);
    OpsCons(c0, [c1] + ([c2] + ([c3] + [])), map[]);
    assert LinkStmt(uid, m.email, m.cn, m.kind) == [c0] + ([c1] + ([c2] + ([c3] + [])));
  }

  predicate AllTyped(stmts: seq<Stmt>) {
    forall i :: 0 <= i < |stmts| ==> TypedAll(stmts[i], map[])
  }

  lemma {:induction false} OpsOfStmtsConcat(a: seq<Stmt>, b: seq<Stmt>)
    requires AllTyped(a) && AllTyped(b)
    ensures AllTyped(a + b) && OpsOfStmts(a + b) == OpsOfStmts(a) + OpsOfStmts(b)
  {
    if a == [] {
      assert a + b == b;
    } else {
      assert (a + b)[1..] == a[1..] + b;
      OpsOfStmtsConcat(a[1..], b);
    }
  }

  lemma OneLink(kind: Kind, uid: Json, entry: Json, stmts: seq<Stmt>)
    requires uid != JNull
    requires MentionIn(kind, entry) == [] ==> stmts == []
    requires MentionIn(kind, entry) != [] ==>
               stmts == [LinkStmt(uid, Get(entry.fields, "email"), Get(entry.fields, "cn"), kind)]
    ensures AllTyped(stmts) && OpsOfStmts(stmts) == MentionsOps(MentionIn(kind, entry), uid)
  {
    if MentionIn(kind, entry) != [] {
      LinkOps(MentionIn(kind, entry)[0], uid);
      assert stmts[1..] == [] && MentionIn(kind, entry)[1..] == [];
    }
  }

  lemma {:induction false} AttendeeOps(uid: Json, atts: seq<Json>)
    requires uid != JNull && AttendeeStmts(uid, atts).Some?
    ensures AllTyped(AttendeeStmts(uid, atts).value)
    ensures OpsOfStmts(AttendeeStmts(uid, atts).value) == MentionsOps(AttendeeMentions(atts), uid)
  {
    if atts != [] {
      var head := AttendeeStmts1(uid, atts[0]).value;
      OneLink(ATTENDED, uid, atts[0], head);
      AttendeeOps(uid, atts[1..]);
      OpsOfStmtsConcat(head, AttendeeStmts(uid, atts[1..]).value);
      MentionsOpsConcat(MentionIn(ATTENDED, atts[0]), AttendeeMentions(atts[1..]), uid);
    }
  }

  /** The properties a created, updated or requested event sets on its node. */
  function Settable(payload: Dict): seq<(Prop, Json)> {
    [(PSummary, Get(payload, "summary")), (PDescription, Get(payload, "description")),
     (PLocation, Get(payload, "location")), (PStartAt, Get(payload, "start")),
     (PEndAt, Get(payload, "end")), (PMeetUrl, ExtractMeetUrl(payload)), (PDeleted, JBool(false))]
  }

  function SetOps(ent: Entity, pairs: seq<(Prop, Json)>): seq<CellOp> {
    if pairs == [] then []
    else (if pairs[0].1 == JNull then [] else [Put(PropOf(ent, pairs[0].0), pairs[0].1)]) + SetOps(ent, pairs[1..])
  }

  lemma {:induction false} SetNonNullOps(v: Var, pairs: seq<(Prop, Json)>, names: Names)
    requires NamesNode(names, v)
    requires forall i :: 0 <= i < |pairs| ==> pairs[i].0 != NaturalKey(names[v].id.lab)
    ensures TypedAll(SetNonNull(v, pairs), names)
    ensures OpsOfAll(SetNonNull(v, pairs), names) == SetOps(names[v], pairs)
  {
    if pairs != [] {
      SetNonNullOps(v, pairs[1..], names);
      if pairs[0].1 == JNull {
        assert SetNonNull(v, pairs) == SetNonNull(v, pairs[1..]);
      } else {
        OpsCons(SetTo(v, pairs[0].0, pairs[0].1), SetNonNull(v, pairs[1..]), names);
      }
    }
  }

  lemma EventOps(uid: Json, payload: Dict)
    requires uid != JNull
    ensures TypedAll(EventStmt(uid, payload), map[])
    ensures OpsOfAll(EventStmt(uid, payload), map[]) ==
            [Put(Exists(EventEnt(uid)), JBool(true)), Put(PropOf(EventEnt(uid), PUid), uid)] +
            SetOps(EventEnt(uid), Settable(payload))
  {
    var c := MergeNode(VarE, CalendarEvent, uid);
    SetNonNullOps(VarE, Settable(payload), NamesAfter(c, map[]));
    OpsCons(c, SetNonNull(VarE, Settable(payload)), map[]);
    assert EventStmt(uid, payload) == [c] + SetNonNull(VarE, Settable(payload));
  }

  function CreatedOps(uid: Json, payload: Dict): seq<CellOp> {
    [Put(Exists(EventEnt(uid)), JBool(true)), Put(PropOf(EventEnt(uid), PUid), uid)] +
    (SetOps(EventEnt(uid), Settable(payload)) + MentionsOps(People(payload), uid))
  }

  lemma ThreeParts(first: Stmt, org: seq<Stmt>, rest: seq<Stmt>)
    requires TypedAll(first, map[]) && AllTyped(org) && AllTyped(rest)
    ensures AllTyped([first] + org + rest)
    ensures OpsOfStmts([first] + org + rest) == OpsOfAll(first, map[]) + (OpsOfStmts(org) + OpsOfStmts(rest))
  {
    OpsOfStmtsConcat(org, rest);
    OpsOfStmtsConcat([first], org + rest);
    assert [first][1..] == [] && [first] + org + rest == [first] + (org + rest);
    assert OpsOfStmts([first]) == OpsOfAll(first, map[]) + [];
  }

  lemma CreatedStmtsOps(payload: Dict)
    requires MapCalendarCreated(payload).Some? && Truthy(Get(payload, "uid"))
    ensures AllTyped(MapCalendarCreated(payload).value)
    ensures OpsOfStmts(MapCalendarCreated(payload).value) == CreatedOps(Get(payload, "uid"), payload)
  {
    var uid, organizer := Get(payload, "uid"), Get(payload, "organizer");
    var org := OrganizerStmts(uid, organizer).value;
    var atts := Iterate(Get(payload, "attendees")).value;
    var rest := AttendeeStmts(uid, atts).value;
    EventOps(uid, payload);
    OneLink(ORGANIZED, uid, organizer, org);
    AttendeeOps(uid, atts);
    ThreeParts(EventStmt(uid, payload), org, rest);
    MentionsOpsConcat(MentionIn(ORGANIZED, organizer), AttendeeMentions(atts), uid);
    Regroup([Put(Exists(EventEnt(uid)), JBool(true)), Put(PropOf(EventEnt(uid), PUid), uid)],
            SetOps(EventEnt(uid), Settable(payload)), MentionsOps(People(payload), uid));
  }

  lemma Regroup(a: seq<CellOp>, b: seq<CellOp>, c: seq<CellOp>)
    ensures a + b + c == a + (b + c)
  {
  }

  lemma CalendarCreatedOps(env: Env, ev: Event)
    requires GetMapper(ev.exchange) == Some(CalendarCreated) && OutcomeOf(env, ev).Runs?
    requires Truthy(Get(ev.payload, "uid"))
    ensures OpsOfEvent(env, ev) == CreatedOps(Get(ev.payload, "uid"), ev.payload)
  {
    CreatedStmtsOps(ev.payload);
    RunsAreSound(env, ev);
  }

  // ---- Running them ----

  lemma {:induction false} MentionsOnEdge(people: seq<Mention>, uid: Json, kind: Kind, src: NodeId, dst: NodeId, x: Json)
    ensures RunOps(MentionsOps(people, uid), Exists(EdgeEnt(kind, src, dst)), x) ==
            if src.lab == Person && dst == NodeId(CalendarEvent, uid) && Mentioned(people, kind, src.key)
            then JBool(true) else x
  {
    if people != [] {
      var c := Exists(EdgeEnt(kind, src, dst));
      var ops := MentionOps(people[0], uid);
      RunOpsConcat(ops, MentionsOps(people[1..], uid), c, x);
      Run4(ops[0], ops[1], ops[2], ops[3], c, x);
      MentionsOnEdge(people[1..], uid, kind, src, dst, RunOps(ops, c, x));
      assert Mentioned(people, kind, src.key) <==>
             (people[0].kind == kind && people[0].email == src.key) || Mentioned(people[1..], kind, src.key) by {
        assert forall i :: 0 < i < |people| ==> people[i] == people[1..][i - 1];
      }
    }
  }

  lemma Run4(a: CellOp, b: CellOp, d: CellOp, e: CellOp, c: Cell, x: Json)
    ensures RunOps([a, b, d, e], c, x) == Apply(e, c, Apply(d, c, Apply(b, c, Apply(a, c, x))))
  {
    assert [a, b, d, e] == [a, b] + [d, e];
    RunOpsConcat([a, b], [d, e], c, x);
    RunTwo(a, b, c, x);
    RunTwo(d, e, c, RunOps([a, b], c, x));
  }

  lemma {:induction false} MentionsOnName(people: seq<Mention>, uid: Json, email: Json, x: Json)
    ensures RunOps(MentionsOps(people, uid), PropOf(PersonEnt(email), PFn), x) ==
            if x != JNull then x else FirstName(people, email)
  {
    if people != [] {
      var c := PropOf(PersonEnt(email), PFn);
      var ops := MentionOps(people[0], uid);
      RunOpsConcat(ops, MentionsOps(people[1..], uid), c, x);
      Run4(ops[0], ops[1], ops[2], ops[3], c, x);
      MentionsOnName(people[1..], uid, email, RunOps(ops, c, x));
    }
  }

  /** Mentions leave every property of events and of edges alone. */
  lemma {:induction false} MentionsKeep(people: seq<Mention>, uid: Json, c: Cell, x: Json)
    requires c.PropOf? && (c.ent.EdgeEnt? || c.ent.id.lab != Person)
    ensures RunOps(MentionsOps(people, uid), c, x) == x
  {
    if people != [] {
      var ops := MentionOps(people[0], uid);
      RunOpsConcat(ops, MentionsOps(people[1..], uid), c, x);
      Run4(ops[0], ops[1], ops[2], ops[3], c, x);
      MentionsKeep(people[1..], uid, c, x);
    }
  }

  /** The last non-null value a list of pairs gives a property, else the old one. */
  function LastSet(pairs: seq<(Prop, Json)>, p: Prop, x: Json): Json {
    if pairs == [] then x
    else LastSet(pairs[1..], p, if pairs[0].0 == p && pairs[0].1 != JNull then pairs[0].1 else x)
  }

  lemma {:induction false} SetOpsOn(ent: Entity, pairs: seq<(Prop, Json)>, c: Cell, x: Json)
    ensures RunOps(SetOps(ent, pairs), c, x) ==
            if c.PropOf? && c.ent == ent then LastSet(pairs, c.prop, x) else x
  {
    if pairs != [] {
      var head := if pairs[0].1 == JNull then [] else [Put(PropOf(ent, pairs[0].0), pairs[0].1)];
      RunOpsConcat(head, SetOps(ent, pairs[1..]), c, x);
      if head != [] {
        RunOne(head[0], c, x);
      }
      SetOpsOn(ent, pairs[1..], c, RunOps(head, c, x));
    }
  }

  lemma CreatedOn(uid: Json, payload: Dict, c: Cell, x: Json)
    ensures var a, b := Put(Exists(EventEnt(uid)), JBool(true)), Put(PropOf(EventEnt(uid), PUid), uid);
            var y := Apply(b, c, Apply(a, c, x));
            var z := if c.PropOf? && c.ent == EventEnt(uid) then LastSet(Settable(payload), c.prop, y) else y;
            RunOps(CreatedOps(uid, payload), c, x) == RunOps(MentionsOps(People(payload), uid), c, z)
  {
    var a, b := Put(Exists(EventEnt(uid)), JBool(true)), Put(PropOf(EventEnt(uid), PUid), uid);
    var sets, people := SetOps(EventEnt(uid), Settable(payload)), MentionsOps(People(payload), uid);
    RunOpsConcat([a, b], sets + people, c, x);
    RunTwo(a, b, c, x);
    var y := RunOps([a, b], c, x);
    RunOpsConcat(sets, people, c, y);
    SetOpsOn(EventEnt(uid), Settable(payload), c, y);
  }

  ghost predicate Creates(env: Env, ev: Event) {
    && GetMapper(ev.exchange) == Some(CalendarCreated)
    && OutcomeOf(env, ev).Runs?
    && Truthy(Get(ev.payload, "uid"))
  }

  /** No edge is lost and none is invented: afterwards an edge exists exactly when it did before or
      when the payload names its person as organizer or attendee of this event. */
  lemma CreatedEdges(env: Env, g: Graph, ev: Event, kind: Kind, src: NodeId, dst: NodeId)
    requires WellFormed(g) && Creates(env, ev)
    ensures Look(Project(env, g, ev), Exists(EdgeEnt(kind, src, dst))) != JNull
       <==> Look(g, Exists(EdgeEnt(kind, src, dst))) != JNull
            || (src.lab == Person && dst == NodeId(CalendarEvent, Get(ev.payload, "uid"))
                && Mentioned(People(ev.payload), kind, src.key))
  {
    var c, uid := Exists(EdgeEnt(kind, src, dst)), Get(ev.payload, "uid");
    ProjectRefines(env, g, ev);
    CalendarCreatedOps(env, ev);
    CreatedOn(uid, ev.payload, c, Look(g, c));
    MentionsOnEdge(People(ev.payload), uid, kind, src, dst, Look(g, c));
    assert Look(Project(env, g, ev), c) == RunOps(OpsOfEvent(env, ev), c, Look(g, c));
  }

  /** A known name is kept; an unknown one becomes the first name the payload gives for the address. */
  lemma CreatedNames(env: Env, g: Graph, ev: Event, email: Json)
    requires WellFormed(g) && Creates(env, ev)
    ensures var c := PropOf(PersonEnt(email), PFn);
            Look(Project(env, g, ev), c) ==
            if Look(g, c) != JNull then Look(g, c) else FirstName(People(ev.payload), email)
  {
    var c, uid := PropOf(PersonEnt(email), PFn), Get(ev.payload, "uid");
    ProjectRefines(env, g, ev);
    CalendarCreatedOps(env, ev);
    CreatedOn(uid, ev.payload, c, Look(g, c));
    MentionsOnName(People(ev.payload), uid, email, Look(g, c));
    assert Look(Project(env, g, ev), c) == RunOps(OpsOfEvent(env, ev), c, Look(g, c));
  }

  /** On the event node a value that is given replaces the old one, a missing value keeps it, and
      `deleted` becomes false; other events and all edge properties, RSVP statuses among them, stay. */
  lemma CreatedProperties(env: Env, g: Graph, ev: Event, ent: Entity, p: Prop)
    requires WellFormed(g) && Creates(env, ev) && (ent.EdgeEnt? || ent.id.lab != Person)
    ensures var uid := Get(ev.payload, "uid");
            var x := Look(g, PropOf(ent, p));
            Look(Project(env, g, ev), PropOf(ent, p)) ==
            if ent != EventEnt(uid) then x
            else if p == PUid then uid
            else LastSet(Settable(ev.payload), p, x)
  {
    var c, uid := PropOf(ent, p), Get(ev.payload, "uid");
    ProjectRefines(env, g, ev);
    CalendarCreatedOps(env, ev);
    CreatedPropertyOps(uid, ev.payload, ent, p, Look(g, c));
  }

  lemma CreatedPropertyOps(uid: Json, payload: Dict, ent: Entity, p: Prop, x: Json)
    requires ent.EdgeEnt? || ent.id.lab != Person
    ensures RunOps(CreatedOps(uid, payload), PropOf(ent, p), x) ==
            if ent != EventEnt(uid) then x
            else if p == PUid then uid
            else LastSet(Settable(payload), p, x)
  {
    var c := PropOf(ent, p);
    CreatedOn(uid, payload, c, x);
    var y := if ent == EventEnt(uid) && p == PUid then uid else x;
    var z := if ent == EventEnt(uid) then LastSet(Settable(payload), p, y) else y;
    NotSet(Settable(payload), PUid, uid);
    MentionsKeep(People(payload), uid, c, z);
  }

  lemma {:induction false} NotSet(pairs: seq<(Prop, Json)>, p: Prop, x: Json)
    requires forall i :: 0 <= i < |pairs| ==> pairs[i].0 != p
    ensures LastSet(pairs, p, x) == x
  {
    if pairs != [] {
      NotSet(pairs[1..], p, x);
    }
  }

  // ---- RSVPs ----

  datatype Rsvp = Rsvp(email: Json, status: string)

  function RsvpIn(entry: Json): seq<Rsvp> {
    if entry.JObj? && Truthy(Get(entry.fields, "email")) && NormStatus(Get(entry.fields, "partstat")).Some? then
      [Rsvp(Get(entry.fields, "email"), NormStatus(Get(entry.fields, "partstat")).value)]
    else []
  }

  function RsvpsIn(atts: seq<Json>): seq<Rsvp> {
    if atts == [] then [] else RsvpIn(atts[0]) + RsvpsIn(atts[1..])
  }

  /** The single attendee first, then the list. */
  function Rsvps(payload: Dict): seq<Rsvp> {
    var atts := Iterate(Get(payload, "attendees"));
    RsvpIn(Get(payload, "attendee")) + (if atts.None? then [] else RsvpsIn(atts.value))
  }

  function LastStatus(rsvps: seq<Rsvp>, email: Json, x: Json): Json {
    if rsvps == [] then x
    else LastStatus(rsvps[1..], email, if rsvps[0].email == email then JStr(rsvps[0].status) else x)
  }

  function RsvpOps(r: Rsvp, uid: Json): seq<CellOp> {
    var edge := EdgeEnt(ATTENDED, NodeId(Person, r.email), NodeId(CalendarEvent, uid));
    [Put(Exists(PersonEnt(r.email)), JBool(true)), Put(PropOf(PersonEnt(r.email), PEmail), r.email)] +
    [Put(Exists(EventEnt(uid)), JBool(true)), Put(PropOf(EventEnt(uid), PUid), uid),
     Put(Exists(edge), JBool(true)), Put(PropOf(edge, PStatus), JStr(r.status))]
  }

  function RsvpsOps(rsvps: seq<Rsvp>, uid: Json): seq<CellOp> {
    if rsvps == [] then [] else RsvpOps(rsvps[0], uid) + RsvpsOps(rsvps[1..], uid)
  }

  lemma {:induction false} RsvpsOpsConcat(a: seq<Rsvp>, b: seq<Rsvp>, uid: Json)
    ensures RsvpsOps(a + b, uid) == RsvpsOps(a, uid) + RsvpsOps(b, uid)
  {
    if a == [] {
      assert a + b == b;
    } else {
      assert (a + b)[1..] == a[1..] + b;
      RsvpsOpsConcat(a[1..], b, uid);
    }
  }

  lemma RsvpStmtOps(uid: Json, r: Rsvp)
    requires uid != JNull && r.email != JNull
    ensures TypedAll(RsvpStmt(uid, r.email, r.status), map[])
    ensures OpsOfAll(RsvpStmt(uid, r.email, r.status), map[]) == RsvpOps(r, uid)
  {
    var c0, c1 := MergeNode(VarP, Person, r.email), MergeNode(VarE, CalendarEvent, uid);
    var c2, c3 := MergeEdge(VarR, VarP, ATTENDED, VarE), SetTo(VarR, PStatus, JStr(r.status));
    var n1 := NamesAfter(c0, map[]);
    var n2 := NamesAfter(c1, n1);
    var n3 := NamesAfter(c2, n2);
    OpsCons(c3, [], n3);
    OpsCons(c2, [c3] + [], n2);
    OpsCons(c1, [c2] + ([c3] + []), n1);
    OpsCons(c0, [c1] + ([c2] + ([c3] + [])), map[]);
    assert RsvpStmt(uid, r.email, r.status) == [c0] + ([c1] + ([c2] + ([c3] + [])));
  }

  lemma OneRsvp(uid: Json, entry: Json)
    requires uid != JNull && RsvpStmts1(uid, entry).Some?
    ensures AllTyped(RsvpStmts1(uid, entry).value)
    ensures OpsOfStmts(RsvpStmts1(uid, entry).value) == RsvpsOps(RsvpIn(entry), uid)
  {
    var stmts := RsvpStmts1(uid, entry).value;
    if stmts != [] {
      RsvpStmtOps(uid, RsvpIn(entry)[0]);
      assert stmts[1..] == [] && RsvpIn(entry)[1..] == [];
    }
  }

  lemma {:induction false} ManyRsvps(uid: Json, atts: seq<Json>)
    requires uid != JNull && RsvpStmts(uid, atts).Some?
    ensures AllTyped(RsvpStmts(uid, atts).value)
    ensures OpsOfStmts(RsvpStmts(uid, atts).value) == RsvpsOps(RsvpsIn(atts), uid)
  {
    if atts != [] {
      OneRsvp(uid, atts[0]);
      ManyRsvps(uid, atts[1..]);
      OpsOfStmtsConcat(RsvpStmts1(uid, atts[0]).value, RsvpStmts(uid, atts[1..]).value);
      RsvpsOpsConcat(RsvpIn(atts[0]), RsvpsIn(atts[1..]), uid);
    }
  }

  lemma ReplyOps(env: Env, ev: Event)
    requires GetMapper(ev.exchange) == Some(CalendarReply) && OutcomeOf(env, ev).Runs?
    requires Truthy(Get(ev.payload, "uid"))
    ensures OpsOfEvent(env, ev) == RsvpsOps(Rsvps(ev.payload), Get(ev.payload, "uid"))
  {
    var uid, att := Get(ev.payload, "uid"), Get(ev.payload, "attendee");
    var atts := Iterate(Get(ev.payload, "attendees")).value;
    OneRsvp(uid, att);
    ManyRsvps(uid, atts);
    OpsOfStmtsConcat(RsvpStmts1(uid, att).value, RsvpStmts(uid, atts).value);
    RsvpsOpsConcat(RsvpIn(att), RsvpsIn(atts), uid);
    RunsAreSound(env, ev);
  }

  lemma RsvpOpsOn(r: Rsvp, uid: Json, src: NodeId, dst: NodeId, x: Json)
    ensures RunOps(RsvpOps(r, uid), PropOf(EdgeEnt(ATTENDED, src, dst), PStatus), x) ==
            if src == NodeId(Person, r.email) && dst == NodeId(CalendarEvent, uid) then JStr(r.status) else x
  {
    var c := PropOf(EdgeEnt(ATTENDED, src, dst), PStatus);
    var ops := RsvpOps(r, uid);
    assert ops == [ops[0], ops[1]] + [ops[2], ops[3], ops[4], ops[5]];
    RunOpsConcat([ops[0], ops[1]], [ops[2], ops[3], ops[4], ops[5]], c, x);
    RunTwo(ops[0], ops[1], c, x);
    Run4(ops[2], ops[3], ops[4], ops[5], c, x);
  }

  lemma {:induction false} RsvpsOn(rsvps: seq<Rsvp>, uid: Json, src: NodeId, dst: NodeId, x: Json)
    ensures RunOps(RsvpsOps(rsvps, uid), PropOf(EdgeEnt(ATTENDED, src, dst), PStatus), x) ==
            if src.lab == Person && dst == NodeId(CalendarEvent, uid) then LastStatus(rsvps, src.key, x) else x
  {
    if rsvps != [] {
      var c := PropOf(EdgeEnt(ATTENDED, src, dst), PStatus);
      RunOpsConcat(RsvpOps(rsvps[0], uid), RsvpsOps(rsvps[1..], uid), c, x);
      RsvpOpsOn(rsvps[0], uid, src, dst, x);
      RsvpsOn(rsvps[1..], uid, src, dst, RunOps(RsvpOps(rsvps[0], uid), c, x));
    }
  }

  /** After a reply, the status on each attendance of the event is the last one the payload gives for
      that person; every other attendance keeps its status. */
  lemma ReplyStatuses(env: Env, g: Graph, ev: Event, src: NodeId, dst: NodeId)
    requires WellFormed(g) && GetMapper(ev.exchange) == Some(CalendarReply) && OutcomeOf(env, ev).Runs?
    requires Truthy(Get(ev.payload, "uid"))
    ensures var c := PropOf(EdgeEnt(ATTENDED, src, dst), PStatus);
            Look(Project(env, g, ev), c) ==
            if src.lab == Person && dst == NodeId(CalendarEvent, Get(ev.payload, "uid"))
            then LastStatus(Rsvps(ev.payload), src.key, Look(g, c)) else Look(g, c)
  {
    var c, uid := PropOf(EdgeEnt(ATTENDED, src, dst), PStatus), Get(ev.payload, "uid");
    ProjectRefines(env, g, ev);
    ReplyOps(env, ev);
    RsvpsOn(Rsvps(ev.payload), uid, src, dst, Look(g, c));
    assert Look(Project(env, g, ev), c) == RunOps(OpsOfEvent(env, ev), c, Look(g, c));
  }
}
