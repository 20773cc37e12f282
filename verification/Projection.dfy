/** Projecting events, and why every statement a mapper emits is sound: typed, with each MATCH served by a
    MERGE of the same event. */
module Projection {
  import opened Payloads
  import opened Cypher
  import opened Registers
  import opened Refinement
  import opened Mappers

  datatype Event = Event(exchange: string, payload: Dict)

  /** What `_process_row` finds: no mapper, an exception, or statements to run. */
  datatype Outcome = NoMapper | Fails | Runs(stmts: seq<Stmt>)

  function OutcomeOf(env: Env, ev: Event): Outcome {
    var m := GetMapper(ev.exchange);
    if m.None? then NoMapper
    else
      var r := MapWith(env, m.value, ev.payload);
      if r.None? || (exists i :: 0 <= i < |r.value| && StmtFails(env, r.value[i])) then Fails
      else Runs(r.value)
  }

  /** The graph after one row; a failing row rolls its statements back. */
  function Project(env: Env, g: Graph, ev: Event): Graph {
    var o := OutcomeOf(env, ev);
    if o.Runs? then ExecStmts(g, o.stmts) else g
  }

  function ProjectAll(env: Env, g: Graph, evs: seq<Event>): Graph
    decreases |evs|
  {
    if evs == [] then g else ProjectAll(env, Project(env, g, evs[0]), evs[1..])
  }

  lemma {:induction false} ProjectConcat(env: Env, g: Graph, a: seq<Event>, b: seq<Event>)
    ensures ProjectAll(env, g, a + b) == ProjectAll(env, ProjectAll(env, g, a), b)
    decreases |a|
  {
    if a == [] {
      assert a + b == b;
    } else {
      assert (a + b)[1..] == a[1..] + b;
      ProjectConcat(env, Project(env, g, a[0]), a[1..], b);
    }
  }

  // ---- Mappers emit sound statements ----

  lemma {:induction false} SoundConcat(a: seq<Stmt>, b: seq<Stmt>, known: set<NodeId>, later: set<NodeId>)
    requires SoundStmts(a, known) && later <= known + MergedInAll(a) && SoundStmts(b, later)
    ensures SoundStmts(a + b, known)
  {
    if a == [] {
      assert a + b == b;
      SoundMonotone(b, later, known);
    } else {
      assert (a + b)[1..] == a[1..] + b;
      assert known + MergedInAll(a) == known + MergedIn(a[0]) + MergedInAll(a[1..]);
      SoundConcat(a[1..], b, known + MergedIn(a[0]), later);
    }
  }

  function MergedInAll(stmts: seq<Stmt>): set<NodeId> {
    if stmts == [] then {} else MergedIn(stmts[0]) + MergedInAll(stmts[1..])
  }

  lemma {:induction false} SuppliedMonotone(cs: seq<Clause>, small: set<NodeId>, big: set<NodeId>)
    requires Supplied(cs, small) && small <= big
    ensures Supplied(cs, big)
  {
    if cs != [] {
      SuppliedMonotone(cs[1..], small + Merged(cs[0]), big + Merged(cs[0]));
    }
  }

  lemma {:induction false} SoundMonotone(stmts: seq<Stmt>, small: set<NodeId>, big: set<NodeId>)
    requires SoundStmts(stmts, small) && small <= big
    ensures SoundStmts(stmts, big)
  {
    if stmts != [] {
      SuppliedMonotone(stmts[0], small, big);
      SoundMonotone(stmts[1..], small + MergedIn(stmts[0]), big + MergedIn(stmts[0]));
    }
  }

  lemma SoundCons(c: Clause, rest: seq<Clause>, names: Names, known: set<NodeId>)
    requires Typed(c, names) && TypedAll(rest, NamesAfter(c, names))
    requires c.MatchNode? ==> NodeId(c.lab, c.key) in known
    requires Supplied(rest, known + Merged(c))
    ensures TypedAll([c] + rest, names) && Supplied([c] + rest, known)
    ensures MergedIn([c] + rest) == Merged(c) + MergedIn(rest)
  {
    assert ([c] + rest)[1..] == rest;
  }

  /** SET lists that leave the natural key of their node alone. */
  lemma {:induction false} SetNonNullSound(v: Var, pairs: seq<(Prop, Json)>, names: Names, known: set<NodeId>)
    requires NamesNode(names, v)
    requires forall i :: 0 <= i < |pairs| ==> pairs[i].0 != NaturalKey(names[v].id.lab)
    ensures TypedAll(SetNonNull(v, pairs), names) && Supplied(SetNonNull(v, pairs), known)
  {
    if pairs != [] {
      var c := SetTo(v, pairs[0].0, pairs[0].1);
      assert known + Merged(c) == known;
      SetNonNullSound(v, pairs[1..], names, known);
      if pairs[0].1 == JNull {
        assert SetNonNull(v, pairs) == SetNonNull(v, pairs[1..]);
      } else {
        SoundCons(c, SetNonNull(v, pairs[1..]), names, known);
      }
    }
  }

  lemma UpsertSound(v: Var, lab: Label, key: Json, pairs: seq<(Prop, Json)>)
    requires key != JNull
    requires forall i :: 0 <= i < |pairs| ==> pairs[i].0 != NaturalKey(lab)
    ensures var s := [MergeNode(v, lab, key)] + SetNonNull(v, pairs);
            SoundStmts([s], {}) && NodeId(lab, key) in MergedInAll([s])
  {
    var c := MergeNode(v, lab, key);
    SetNonNullSound(v, pairs, NamesAfter(c, map[]), {} + Merged(c));
    SoundCons(c, SetNonNull(v, pairs), map[], {});
    assert [[c] + SetNonNull(v, pairs)][1..] == [];
  }

  lemma LinkSound(uid: Json, email: Json, cn: Json, kind: Kind, known: set<NodeId>)
    requires uid != JNull && email != JNull && NodeId(CalendarEvent, uid) in known
    ensures SoundStmts([LinkStmt(uid, email, cn, kind)], known)
  {
    var c0, c1 := MergeNode(VarP, Person, email), SetCoalesce(VarP, PFn, cn);
    var c2, c3 := MatchNode(VarE, CalendarEvent, uid), MergeEdge(VarR, VarP, kind, VarE);
    var n1 := NamesAfter(c0, map[]);
    var n2 := NamesAfter(c1, n1);
    var n3 := NamesAfter(c2, n2);
    var k1 := known + Merged(c0);
    var k2 := k1 + Merged(c1);
    SoundCons(c3, [], n3, k2 + Merged(c2));
    SoundCons(c2, [c3], n2, k2);
    SoundCons(c1, [c2] + [c3], n1, k1);
    SoundCons(c0, [c1] + ([c2] + [c3]), map[], known);
    var s := LinkStmt(uid, email, cn, kind);
    assert s == [c0] + ([c1] + ([c2] + [c3]));
    assert [s][1..] == [];
  }

  lemma RsvpSound(uid: Json, email: Json, status: string)
    requires uid != JNull && email != JNull
    ensures SoundStmts([RsvpStmt(uid, email, status)], {})
  {
    var c0, c1 := MergeNode(VarP, Person, email), MergeNode(VarE, CalendarEvent, uid);
    var c2, c3 := MergeEdge(VarR, VarP, ATTENDED, VarE), SetTo(VarR, PStatus, JStr(status));
    var n1 := NamesAfter(c0, map[]);
    var n2 := NamesAfter(c1, n1);
    var n3 := NamesAfter(c2, n2);
    var k1 := {} + Merged(c0);
    var k2 := k1 + Merged(c1);
    SoundCons(c3, [], n3, k2 + Merged(c2));
    SoundCons(c2, [c3], n2, k2);
    SoundCons(c1, [c2] + [c3], n1, k1);
    SoundCons(c0, [c1] + ([c2] + [c3]), map[], {});
    var s := RsvpStmt(uid, email, status);
    assert s == [c0] + ([c1] + ([c2] + [c3]));
    assert [s][1..] == [];
  }

  lemma WorksAtSound(email: Json, org: Json, known: set<NodeId>)
    requires email != JNull && org != JNull && NodeId(Person, email) in known
    ensures SoundStmts([WorksAtStmt(email, org)], known)
  {
    var c0, c1 := MergeNode(VarO, Organization, org), MatchNode(VarP, Person, email);
    var c2 := MergeEdge(VarR, VarP, WORKS_AT, VarO);
    var n1 := NamesAfter(c0, map[]);
    var n2 := NamesAfter(c1, n1);
    var k1 := known + Merged(c0);
    SoundCons(c2, [], n2, k1 + Merged(c1));
    SoundCons(c1, [c2], n1, k1);
    SoundCons(c0, [c1] + [c2], map[], known);
    var s := WorksAtStmt(email, org);
    assert s == [c0] + ([c1] + [c2]);
    assert [s][1..] == [];
  }

  lemma {:induction false} AttendeesSound(uid: Json, atts: seq<Json>, known: set<NodeId>)
    requires uid != JNull && NodeId(CalendarEvent, uid) in known && AttendeeStmts(uid, atts).Some?
    ensures SoundStmts(AttendeeStmts(uid, atts).value, known)
  {
    if atts != [] {
      var head := AttendeeStmts1(uid, atts[0]).value;
      AttendeesSound(uid, atts[1..], known);
      if head != [] {
        var d := atts[0].fields;
        LinkSound(uid, Get(d, "email"), Get(d, "cn"), ATTENDED, known);
      }
      SoundConcat(head, AttendeeStmts(uid, atts[1..]).value, known, known);
    }
  }

  lemma {:induction false} RsvpsSound(uid: Json, atts: seq<Json>)
    requires uid != JNull && RsvpStmts(uid, atts).Some?
    ensures SoundStmts(RsvpStmts(uid, atts).value, {})
  {
    if atts != [] {
      RsvpsSound(uid, atts[1..]);
      Rsvp1Sound(uid, atts[0]);
      SoundConcat(RsvpStmts1(uid, atts[0]).value, RsvpStmts(uid, atts[1..]).value, {}, {});
    }
  }

  lemma Rsvp1Sound(uid: Json, att: Json)
    requires uid != JNull && RsvpStmts1(uid, att).Some?
    ensures SoundStmts(RsvpStmts1(uid, att).value, {})
  {
    if RsvpStmts1(uid, att).value != [] {
      RsvpSound(uid, Get(att.fields, "email"), NormStatus(Get(att.fields, "partstat")).value);
    }
  }

  lemma CalendarCreatedSound(payload: Dict)
    requires MapCalendarCreated(payload).Some?
    ensures SoundStmts(MapCalendarCreated(payload).value, {})
  {
    var uid := Get(payload, "uid");
    if Truthy(uid) {
      var first := [EventStmt(uid, payload)];
      var known := {NodeId(CalendarEvent, uid)};
      var sets := [
        (PSummary, Get(payload, "summary")), (PDescription, Get(payload, "description")),
        (PLocation, Get(payload, "location")), (PStartAt, Get(payload, "start")),
        (PEndAt, Get(payload, "end")), (PMeetUrl, ExtractMeetUrl(payload)), (PDeleted, JBool(false))];
      UpsertSound(VarE, CalendarEvent, uid, sets);
      var organizer := Get(payload, "organizer");
      var org := OrganizerStmts(uid, organizer).value;
      if org != [] {
        LinkSound(uid, Get(organizer.fields, "email"), Get(organizer.fields, "cn"), ORGANIZED, known);
      }
      var atts := Iterate(Get(payload, "attendees")).value;
      AttendeesSound(uid, atts, known);
      SoundConcat(org, AttendeeStmts(uid, atts).value, known, known);
      SoundConcat(first, org + AttendeeStmts(uid, atts).value, {}, known);
      assert first + (org + AttendeeStmts(uid, atts).value) == MapCalendarCreated(payload).value;
    }
  }

  lemma TombstoneSound(v: Var, lab: Label, key: Json, p: Prop, value: Json)
    requires key != JNull && p != NaturalKey(lab)
    ensures SoundStmts([[MergeNode(v, lab, key), SetTo(v, p, value)]], {})
  {
    var c0, c1 := MergeNode(v, lab, key), SetTo(v, p, value);
    SoundCons(c1, [], NamesAfter(c0, map[]), {} + Merged(c0));
    SoundCons(c0, [c1], map[], {});
    assert [c0, c1] == [c0] + [c1];
    assert [[c0, c1]][1..] == [];
  }

  lemma ContactCreatedSound(payload: Dict)
    ensures SoundStmts(MapContactCreated(payload).value, {})
  {
    var email := Get(payload, "email");
    if Truthy(email) {
      UpsertSound(VarP, Person, email, [(PFn, Get(payload, "fn")), (PTel, Get(payload, "tel")), (PDeleted, JBool(false))]);
      var org := Get(payload, "org");
      if Truthy(org) {
        WorksAtSound(email, org, {NodeId(Person, email)});
        SoundConcat([ContactStmt(email, payload)], [WorksAtStmt(email, org)], {}, {NodeId(Person, email)});
      }
    }
  }

  /** No mapper ever writes a natural key, uses an unbound variable, or MATCHes a node it has not merged first. */
  lemma MappersSound(env: Env, m: Mapper, payload: Dict)
    requires MapWith(env, m, payload).Some?
    ensures SoundStmts(MapWith(env, m, payload).value, {})
  {
    var uid, email, mid := Get(payload, "uid"), Get(payload, "email"), Get(payload, "message_id");
    match m
    case CalendarCreated => CalendarCreatedSound(payload);
    case CalendarDeleted => if Truthy(uid) { TombstoneSound(VarE, CalendarEvent, uid, PDeleted, JBool(true)); }
    case CalendarReply =>
      if Truthy(uid) {
        Rsvp1Sound(uid, Get(payload, "attendee"));
        var atts := Iterate(Get(payload, "attendees")).value;
        RsvpsSound(uid, atts);
        SoundConcat(RsvpStmts1(uid, Get(payload, "attendee")).value, RsvpStmts(uid, atts).value, {}, {});
      }
    case ContactCreated => ContactCreatedSound(payload);
    case ContactDeleted => if Truthy(email) { TombstoneSound(VarP, Person, email, PDeleted, JBool(true)); }
    case MailReceived =>
      if Truthy(mid) {
        UpsertSound(VarE, Email, mid, [
          (PUser, Get(payload, "user")), (PMailboxPath, FlattenPath(env, Get(payload, "mailbox_path"))),
          (PReceivedAt, Get(payload, "timestamp")), (PDeleted, JBool(false))]);
      }
    case MailExpunged => if Truthy(mid) { TombstoneSound(VarE, Email, mid, PDeleted, JBool(true)); }
    case MailFlags =>
      if Truthy(mid) {
        var flags := Get(payload, "flags");
        TombstoneSound(VarE, Email, mid, PRead, JBool(flags.JArr? && JStr("\\Seen") in flags.items));
      }
    case MailMoved =>
      if Truthy(mid) { TombstoneSound(VarE, Email, mid, PMailboxPath, FlattenPath(env, Get(payload, "mailbox_path"))); }
  }
}
