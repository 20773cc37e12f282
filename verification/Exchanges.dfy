/** What each exchange means for the graph, from the text of the exchange and of the payload to the registers of the
    graph, without the mappers in between. */
module Exchanges {
  import opened Payloads
  import opened Cypher
  import opened Registers
  import opened Refinement
  import opened Mappers
  import opened Projection
  import opened Replay
  import opened Effects
  import opened Upserts

  const CALENDAR_UPSERTS := {"calendar:event:created", "calendar:event:updated", "calendar:event:request"}
  const CALENDAR_DELETIONS := {"calendar:event:deleted", "calendar:event:cancel"}
  const CONTACT_UPSERTS := {"sabre:contact:created", "sabre:contact:updated", "sabre:contact:update"}
  const MAILS := {"mail:message:received", "mail:message:expunged", "mail:message:flags:updated", "mail:message:moved"}
  const OTHER_MAPPED := {"calendar:event:reply", "sabre:contact:deleted"}

  function NodeOf(lab: Label, key: Json): Entity {
    NodeEnt(NodeId(lab, key))
  }

  /** A value that is given replaces the old one; a missing one keeps it. */
  function Given(v: Json, x: Json): Json {
    if v != JNull then v else x
  }

  /** An event on any other exchange leaves the graph alone. */
  lemma OtherExchanges(env: Env, g: Graph, ev: Event)
    requires ev.exchange !in CALENDAR_UPSERTS + CALENDAR_DELETIONS + CONTACT_UPSERTS + MAILS + OTHER_MAPPED
    ensures Project(env, g, ev) == g && OutcomeOf(env, ev) == NoMapper
  {
  }

  /** The payload key that names the node an event is about. */
  function KeyName(exchange: string): string {
    if exchange in CONTACT_UPSERTS || exchange == "sabre:contact:deleted" then "email"
    else if exchange in MAILS then "message_id"
    else "uid"
  }

  /** An event without it leaves the graph alone. */
  lemma NoKeyNoEffect(env: Env, g: Graph, ev: Event)
    requires !Truthy(Get(ev.payload, KeyName(ev.exchange)))
    ensures Project(env, g, ev) == g
  {
    var m := GetMapper(ev.exchange);
    if m.Some? {
      assert MapWith(env, m.value, ev.payload) == Some([]);
    }
  }

  // ---- Deletions ----

  /** Only the mark, and what makes the node exist, change. */
  function Marked(lab: Label, key: Json, c: Cell, x: Json): Json {
    if c == Exists(NodeOf(lab, key)) || c == PropOf(NodeOf(lab, key), PDeleted) then JBool(true)
    else if c == PropOf(NodeOf(lab, key), NaturalKey(lab)) then key
    else x
  }

  lemma CalendarDeletions(env: Env, g: Graph, ev: Event, c: Cell)
    requires WellFormed(g) && OutcomeOf(env, ev).Runs?
    requires ev.exchange in CALENDAR_DELETIONS && Truthy(Get(ev.payload, "uid"))
    ensures Look(Project(env, g, ev), c) == Marked(CalendarEvent, Get(ev.payload, "uid"), c, Look(g, c))
  {
    DeletionKeepsHistory(env, g, ev, CalendarDeleted, c);
  }

  lemma ContactDeletions(env: Env, g: Graph, ev: Event, c: Cell)
    requires WellFormed(g) && OutcomeOf(env, ev).Runs?
    requires ev.exchange == "sabre:contact:deleted" && Truthy(Get(ev.payload, "email"))
    ensures Look(Project(env, g, ev), c) == Marked(Person, Get(ev.payload, "email"), c, Look(g, c))
  {
    DeletionKeepsHistory(env, g, ev, ContactDeleted, c);
  }

  lemma MailExpunctions(env: Env, g: Graph, ev: Event, c: Cell)
    requires WellFormed(g) && OutcomeOf(env, ev).Runs?
    requires ev.exchange == "mail:message:expunged" && Truthy(Get(ev.payload, "message_id"))
    ensures Look(Project(env, g, ev), c) == Marked(Email, Get(ev.payload, "message_id"), c, Look(g, c))
  {
    DeletionKeepsHistory(env, g, ev, MailExpunged, c);
  }

  // ---- Mail ----

  ghost predicate DistinctOffers(offers: seq<(Prop, Json)>) {
    forall i, j :: 0 <= i < j < |offers| ==> offers[i].0 != offers[j].0
  }

  /** Of distinct properties each gets its own value. */
  lemma {:induction false} OfferTaken(offers: seq<(Prop, Json)>, i: nat, x: Json)
    requires DistinctOffers(offers) && i < |offers|
    ensures LastSet(offers, offers[i].0, x) == Given(offers[i].1, x)
  {
    if i == 0 {
      NotSet(offers[1..], offers[0].0, Given(offers[0].1, x));
    } else {
      OfferTaken(offers[1..], i - 1, x);
    }
  }

  /** The register of a property after the upsert: of the first so many properties, whichever it is. */
  lemma PropUpserted(u: Upsert, p: Prop, x: Json)
    requires DistinctOffers(u.offers) && SparesKey(u)
    ensures var c := PropOf(NodeEnt(u.id), p);
            && (p == NaturalKey(u.id.lab) ==> Upserted(u, c, x) == u.id.key)
            && (forall i :: 0 <= i < |u.offers| && u.offers[i].0 == p ==> Upserted(u, c, x) == Given(u.offers[i].1, x))
            && (p != NaturalKey(u.id.lab) && (forall i :: 0 <= i < |u.offers| ==> u.offers[i].0 != p) ==>
                  Upserted(u, c, x) == x)
  {
    forall i | 0 <= i < |u.offers| && u.offers[i].0 == p ensures LastSet(u.offers, p, x) == Given(u.offers[i].1, x) {
      OfferTaken(u.offers, i, x);
    }
    if forall i :: 0 <= i < |u.offers| ==> u.offers[i].0 != p {
      NotSet(u.offers, p, x);
    }
  }

  /** One offered property, that is not the key. */
  lemma OneUpserted(id: NodeId, p: Prop, v: Json, c: Cell, x: Json)
    requires p != NaturalKey(id.lab) && v != JNull && id.key != JNull
    ensures var node := NodeEnt(id);
            Upserted(Upsert(id, [(p, v)]), c, x) ==
            if c == Exists(node) then JBool(true)
            else if c == PropOf(node, NaturalKey(id.lab)) then id.key
            else if c == PropOf(node, p) then v
            else x
  {
    var u := Upsert(id, [(p, v)]);
    if c.PropOf? && c.ent == NodeEnt(id) {
      PropUpserted(u, c.prop, x);
      assert u.offers[0] == (p, v);
    }
  }

  /** Three offered properties. */
  lemma ThreeUpserted(id: NodeId, a: (Prop, Json), b: (Prop, Json), d: (Prop, Json), c: Cell, x: Json)
    requires NaturalKey(id.lab) !in {a.0, b.0, d.0} && a.0 != b.0 && a.0 != d.0 && b.0 != d.0 && id.key != JNull
    ensures var node := NodeEnt(id);
            Upserted(Upsert(id, [a, b, d]), c, x) ==
            if c == Exists(node) then JBool(true)
            else if c == PropOf(node, NaturalKey(id.lab)) then id.key
            else if c == PropOf(node, a.0) then Given(a.1, x)
            else if c == PropOf(node, b.0) then Given(b.1, x)
            else if c == PropOf(node, d.0) then Given(d.1, x)
            else x
  {
    var u := Upsert(id, [a, b, d]);
    if c.PropOf? && c.ent == NodeEnt(id) {
      PropUpserted(u, c.prop, x);
      assert u.offers[0] == a && u.offers[1] == b && u.offers[2] == d;
    }
  }

  /** Four offered properties. */
  lemma FourUpserted(id: NodeId, a: (Prop, Json), b: (Prop, Json), d: (Prop, Json), e: (Prop, Json), c: Cell, x: Json)
    requires NaturalKey(id.lab) !in {a.0, b.0, d.0, e.0} && id.key != JNull
    requires a.0 != b.0 && a.0 != d.0 && a.0 != e.0 && b.0 != d.0 && b.0 != e.0 && d.0 != e.0
    ensures var node := NodeEnt(id);
            Upserted(Upsert(id, [a, b, d, e]), c, x) ==
            if c == Exists(node) then JBool(true)
            else if c == PropOf(node, NaturalKey(id.lab)) then id.key
            else if c == PropOf(node, a.0) then Given(a.1, x)
            else if c == PropOf(node, b.0) then Given(b.1, x)
            else if c == PropOf(node, d.0) then Given(d.1, x)
            else if c == PropOf(node, e.0) then Given(e.1, x)
            else x
  {
    var u := Upsert(id, [a, b, d, e]);
    if c.PropOf? && c.ent == NodeEnt(id) {
      PropUpserted(u, c.prop, x);
      assert u.offers[0] == a && u.offers[1] == b && u.offers[2] == d && u.offers[3] == e;
    }
  }

  predicate Seen(flags: Json) {
    flags.JArr? && exists i :: 0 <= i < |flags.items| && flags.items[i] == JStr("\\Seen")
  }

  /** The flag list decides whether the message is read; without a list it is unread. */
  lemma MailFlagsUpdates(env: Env, g: Graph, ev: Event, c: Cell)
    requires WellFormed(g) && OutcomeOf(env, ev).Runs?
    requires ev.exchange == "mail:message:flags:updated" && Truthy(Get(ev.payload, "message_id"))
    ensures var mid, flags := Get(ev.payload, "message_id"), Get(ev.payload, "flags");
            var node := NodeOf(Email, mid);
            Look(Project(env, g, ev), c) ==
            if c == Exists(node) then JBool(true)
            else if c == PropOf(node, PMessageId) then mid
            else if c == PropOf(node, PRead) then JBool(Seen(flags))
            else Look(g, c)
  {
    var mid, flags := Get(ev.payload, "message_id"), Get(ev.payload, "flags");
    var read := JBool(flags.JArr? && JStr("\\Seen") in flags.items);
    UpsertEffects(env, g, ev, MailFlags, c);
    assert AskedBy(env, MailFlags, ev.payload) == Some(Upsert(NodeId(Email, mid), [(PRead, read)]));
    OneUpserted(NodeId(Email, mid), PRead, read, c, Look(g, c));
    SeenExactly(flags);
  }

  lemma MailMoves(env: Env, g: Graph, ev: Event, c: Cell)
    requires WellFormed(g) && OutcomeOf(env, ev).Runs?
    requires ev.exchange == "mail:message:moved" && Truthy(Get(ev.payload, "message_id"))
    ensures var mid, path := Get(ev.payload, "message_id"), FlattenPath(env, Get(ev.payload, "mailbox_path"));
            var node := NodeOf(Email, mid);
            Look(Project(env, g, ev), c) ==
            if path == JNull then Look(g, c)
            else if c == Exists(node) then JBool(true)
            else if c == PropOf(node, PMessageId) then mid
            else if c == PropOf(node, PMailboxPath) then path
            else Look(g, c)
  {
    var mid, path := Get(ev.payload, "message_id"), FlattenPath(env, Get(ev.payload, "mailbox_path"));
    UpsertEffects(env, g, ev, MailMoved, c);
    if path != JNull {
      assert AskedBy(env, MailMoved, ev.payload) == Some(Upsert(NodeId(Email, mid), [(PMailboxPath, path)]));
      OneUpserted(NodeId(Email, mid), PMailboxPath, path, c, Look(g, c));
    }
  }

  lemma MailReceptions(env: Env, g: Graph, ev: Event, c: Cell)
    requires WellFormed(g) && OutcomeOf(env, ev).Runs?
    requires ev.exchange == "mail:message:received" && Truthy(Get(ev.payload, "message_id"))
    ensures var mid, x := Get(ev.payload, "message_id"), Look(g, c);
            var node := NodeOf(Email, mid);
            Look(Project(env, g, ev), c) ==
            if c == Exists(node) then JBool(true)
            else if c == PropOf(node, PMessageId) then mid
            else if c == PropOf(node, PUser) then Given(Get(ev.payload, "user"), x)
            else if c == PropOf(node, PMailboxPath) then Given(FlattenPath(env, Get(ev.payload, "mailbox_path")), x)
            else if c == PropOf(node, PReceivedAt) then Given(Get(ev.payload, "timestamp"), x)
            else if c == PropOf(node, PDeleted) then JBool(false)
            else x
  {
    var mid, path := Get(ev.payload, "message_id"), FlattenPath(env, Get(ev.payload, "mailbox_path"));
    var user, at := Get(ev.payload, "user"), Get(ev.payload, "timestamp");
    UpsertEffects(env, g, ev, MailReceived, c);
    assert AskedBy(env, MailReceived, ev.payload) ==
           Some(Upsert(NodeId(Email, mid), [(PUser, user), (PMailboxPath, path), (PReceivedAt, at), (PDeleted, JBool(false))]));
    FourUpserted(NodeId(Email, mid), (PUser, user), (PMailboxPath, path), (PReceivedAt, at), (PDeleted, JBool(false)),
                 c, Look(g, c));
  }

  lemma SeenExactly(flags: Json)
    ensures (flags.JArr? && JStr("\\Seen") in flags.items) <==> Seen(flags)
  {
  }

  /** The path of a mailbox: the namespace, user and name that are given, joined by slashes; text stays as it is;
      anything else is no path. */
  lemma MailboxPath(env: Env, mbp: Json)
    ensures mbp.JStr? ==> FlattenPath(env, mbp) == mbp
    ensures !mbp.JStr? && !mbp.JObj? ==> FlattenPath(env, mbp) == JNull
    ensures mbp.JObj? ==>
              var ns, user, name := Get(mbp.fields, "namespace"), Get(mbp.fields, "user"), Get(mbp.fields, "name");
              && FlattenPath(env, mbp).JStr?
              && (Truthy(ns) && Truthy(user) && Truthy(name) ==>
                    FlattenPath(env, mbp).s == TextOf(env, ns) + "/" + (TextOf(env, user) + "/" + TextOf(env, name)))
              && (Truthy(ns) && !Truthy(user) && Truthy(name) ==>
                    FlattenPath(env, mbp).s == TextOf(env, ns) + "/" + TextOf(env, name))
              && (!Truthy(ns) && Truthy(user) && Truthy(name) ==>
                    FlattenPath(env, mbp).s == TextOf(env, user) + "/" + TextOf(env, name))
              && (Truthy(ns) && Truthy(user) && !Truthy(name) ==>
                    FlattenPath(env, mbp).s == TextOf(env, ns) + "/" + TextOf(env, user))
              && (Truthy(ns) && !Truthy(user) && !Truthy(name) ==> FlattenPath(env, mbp).s == TextOf(env, ns))
              && (!Truthy(ns) && Truthy(user) && !Truthy(name) ==> FlattenPath(env, mbp).s == TextOf(env, user))
              && (!Truthy(ns) && !Truthy(user) && Truthy(name) ==> FlattenPath(env, mbp).s == TextOf(env, name))
              && (!Truthy(ns) && !Truthy(user) && !Truthy(name) ==> FlattenPath(env, mbp).s == "")
    ensures mbp.JStr? ==> TextOf(env, mbp) == mbp.s
  {
    if mbp.JObj? {
      var ns, user, name := Get(mbp.fields, "namespace"), Get(mbp.fields, "user"), Get(mbp.fields, "name");
      var parts := [ns, user, name];
      assert parts[1..] == [user, name] && [user, name][1..] == [name] && [name][1..] == [];
      JoinNext(env, ns, [user, name]);
      JoinNext(env, user, [name]);
      JoinNext(env, name, []);
    }
  }

  lemma JoinNext(env: Env, part: Json, rest: seq<Json>)
    ensures JoinParts(env, [part] + rest) ==
            if !Truthy(part) then JoinParts(env, rest)
            else if forall i :: 0 <= i < |rest| ==> !Truthy(rest[i]) then TextOf(env, part)
            else TextOf(env, part) + "/" + JoinParts(env, rest)
  {
    var parts := [part] + rest;
    assert parts[1..] == rest;
    assert forall i :: 0 <= i < |rest| ==> rest[i] == parts[i + 1];
    assert (forall i :: 1 <= i < |parts| ==> !Truthy(parts[i])) <==> (forall i :: 0 <= i < |rest| ==> !Truthy(rest[i])) by {
      assert forall i :: 1 <= i < |parts| ==> parts[i] == rest[i - 1];
    }
  }

  // ---- Contacts ----

  lemma ContactUpserts(env: Env, g: Graph, ev: Event, c: Cell)
    requires WellFormed(g) && OutcomeOf(env, ev).Runs?
    requires ev.exchange in CONTACT_UPSERTS && Truthy(Get(ev.payload, "email"))
    ensures var email, org, x := Get(ev.payload, "email"), Get(ev.payload, "org"), Look(g, c);
            var person, company := NodeOf(Person, email), NodeOf(Organization, org);
            Look(Project(env, g, ev), c) ==
            if c == Exists(person) then JBool(true)
            else if c == PropOf(person, PEmail) then email
            else if c == PropOf(person, PFn) then Given(Get(ev.payload, "fn"), x)
            else if c == PropOf(person, PTel) then Given(Get(ev.payload, "tel"), x)
            else if c == PropOf(person, PDeleted) then JBool(false)
            else if Truthy(org) && (c == Exists(company) || c == Exists(EdgeEnt(WORKS_AT, person.id, company.id))) then
              JBool(true)
            else if Truthy(org) && c == PropOf(company, PName) then org
            else x
  {
    var email, fn, tel := Get(ev.payload, "email"), Get(ev.payload, "fn"), Get(ev.payload, "tel");
    assert Applies(env, ev, ContactCreated);
    UpsertEffects(env, g, ev, ContactCreated, c);
    assert AskedBy(env, ContactCreated, ev.payload) ==
           Some(Upsert(NodeId(Person, email), [(PFn, fn), (PTel, tel), (PDeleted, JBool(false))]));
    assert Employs(ContactCreated, ev.payload) <==> Truthy(Get(ev.payload, "org"));
    ThreeUpserted(NodeId(Person, email), (PFn, fn), (PTel, tel), (PDeleted, JBool(false)), c, Look(g, c));
  }

  // ---- Calendar events ----

  /** The values of the event node. */
  lemma CalendarUpsertProperties(env: Env, g: Graph, ev: Event, p: Prop)
    requires WellFormed(g) && OutcomeOf(env, ev).Runs?
    requires ev.exchange in CALENDAR_UPSERTS && Truthy(Get(ev.payload, "uid"))
    ensures var uid := Get(ev.payload, "uid");
            var c := PropOf(NodeOf(CalendarEvent, uid), p);
            var x := Look(g, c);
            Look(Project(env, g, ev), c) ==
            match p
            case PUid => uid
            case PSummary => Given(Get(ev.payload, "summary"), x)
            case PDescription => Given(Get(ev.payload, "description"), x)
            case PLocation => Given(Get(ev.payload, "location"), x)
            case PStartAt => Given(Get(ev.payload, "start"), x)
            case PEndAt => Given(Get(ev.payload, "end"), x)
            case PMeetUrl => Given(ExtractMeetUrl(ev.payload), x)
            case PDeleted => JBool(false)
            case _ => x
  {
    var uid := Get(ev.payload, "uid");
    CreatedProperties(env, g, ev, EventEnt(uid), p);
    SettableTaken(ev.payload, p, Look(g, PropOf(NodeOf(CalendarEvent, uid), p)));
  }

  lemma SettableTaken(payload: Dict, p: Prop, x: Json)
    ensures p == PSummary ==> LastSet(Settable(payload), p, x) == Given(Get(payload, "summary"), x)
    ensures p == PDescription ==> LastSet(Settable(payload), p, x) == Given(Get(payload, "description"), x)
    ensures p == PLocation ==> LastSet(Settable(payload), p, x) == Given(Get(payload, "location"), x)
    ensures p == PStartAt ==> LastSet(Settable(payload), p, x) == Given(Get(payload, "start"), x)
    ensures p == PEndAt ==> LastSet(Settable(payload), p, x) == Given(Get(payload, "end"), x)
    ensures p == PMeetUrl ==> LastSet(Settable(payload), p, x) == Given(ExtractMeetUrl(payload), x)
    ensures p == PDeleted ==> LastSet(Settable(payload), p, x) == JBool(false)
    ensures p !in {PSummary, PDescription, PLocation, PStartAt, PEndAt, PMeetUrl, PDeleted} ==>
              LastSet(Settable(payload), p, x) == x
  {
    var offers := Settable(payload);
    forall i | 0 <= i < |offers| && offers[i].0 == p ensures LastSet(offers, p, x) == Given(offers[i].1, x) {
      OfferTaken(offers, i, x);
    }
    if p !in {PSummary, PDescription, PLocation, PStartAt, PEndAt, PMeetUrl, PDeleted} {
      NotSet(offers, p, x);
    }
    assert offers[0].0 == PSummary && offers[1].0 == PDescription && offers[2].0 == PLocation && offers[3].0 == PStartAt;
    assert offers[4].0 == PEndAt && offers[5].0 == PMeetUrl && offers[6].0 == PDeleted;
  }

  /** The meeting link: the given one, else that of the conference, else the location if it looks like a link. */
  lemma MeetUrl(payload: Dict)
    ensures Truthy(Get(payload, "meetUrl")) ==> ExtractMeetUrl(payload) == Get(payload, "meetUrl")
    ensures !Truthy(Get(payload, "meetUrl")) ==>
              var conference, loc := Get(payload, "conference"), Get(payload, "location");
              && (conference.JObj? && Truthy(Get(conference.fields, "uri")) ==>
                    ExtractMeetUrl(payload) == Get(conference.fields, "uri"))
              && ((!conference.JObj? || !Truthy(Get(conference.fields, "uri"))) ==>
                    && (ExtractMeetUrl(payload) == loc || ExtractMeetUrl(payload) == JNull)
                    && (ExtractMeetUrl(payload) != JNull <==>
                          loc.JStr? && ("http://" <= loc.s || "https://" <= loc.s)))
  {
  }

  /** Edges: organizer and attendees with an address are linked to the event; no other edge appears or goes. */
  lemma CalendarUpsertEdges(env: Env, g: Graph, ev: Event, kind: Kind, src: NodeId, dst: NodeId)
    requires WellFormed(g) && OutcomeOf(env, ev).Runs?
    requires ev.exchange in CALENDAR_UPSERTS && Truthy(Get(ev.payload, "uid"))
    ensures Look(Project(env, g, ev), Exists(EdgeEnt(kind, src, dst))) != JNull
       <==> Look(g, Exists(EdgeEnt(kind, src, dst))) != JNull
            || (src.lab == Person && dst == NodeId(CalendarEvent, Get(ev.payload, "uid"))
                && ((kind == ORGANIZED && Organizes(ev.payload, src.key)) || (kind == ATTENDED && Attends(ev.payload, src.key))))
  {
    CreatedEdges(env, g, ev, kind, src, dst);
    MentionedExactly(ev.payload, kind, src.key);
  }

  predicate Names(entry: Json, email: Json) {
    entry.JObj? && Truthy(email) && Get(entry.fields, "email") == email
  }

  predicate Organizes(payload: Dict, email: Json) {
    Names(Get(payload, "organizer"), email)
  }

  predicate Attends(payload: Dict, email: Json) {
    var atts := Get(payload, "attendees");
    atts.JArr? && exists i :: 0 <= i < |atts.items| && Names(atts.items[i], email)
  }

  lemma {:induction false} AttendeesMentioned(atts: seq<Json>, kind: Kind, email: Json)
    ensures Mentioned(AttendeeMentions(atts), kind, email) <==>
            kind == ATTENDED && exists i :: 0 <= i < |atts| && Names(atts[i], email)
  {
    if atts != [] {
      AttendeesMentioned(atts[1..], kind, email);
      MentionedConcat(MentionIn(ATTENDED, atts[0]), AttendeeMentions(atts[1..]), kind, email);
      OneMentioned(ATTENDED, atts[0], kind, email);
      assert forall i :: 0 < i < |atts| ==> atts[i] == atts[1..][i - 1];
    }
  }

  lemma OneMentioned(how: Kind, entry: Json, kind: Kind, email: Json)
    ensures Mentioned(MentionIn(how, entry), kind, email) <==> kind == how && Names(entry, email)
  {
    if kind == how && Names(entry, email) {
      assert MentionIn(how, entry)[0].email == email;
    }
  }

  lemma MentionedConcat(a: seq<Mention>, b: seq<Mention>, kind: Kind, email: Json)
    ensures Mentioned(a + b, kind, email) <==> Mentioned(a, kind, email) || Mentioned(b, kind, email)
  {
    if i :| 0 <= i < |a| && a[i].kind == kind && a[i].email == email {
      assert (a + b)[i] == a[i];
    }
    if i :| 0 <= i < |b| && b[i].kind == kind && b[i].email == email {
      assert (a + b)[|a| + i] == b[i];
    }
  }

  /** Text and dictionaries iterate too, but over text, which names nobody. */
  lemma MentionedExactly(payload: Dict, kind: Kind, email: Json)
    ensures Mentioned(People(payload), kind, email) <==>
            (kind == ORGANIZED && Organizes(payload, email)) || (kind == ATTENDED && Attends(payload, email))
  {
    var org, atts := MentionIn(ORGANIZED, Get(payload, "organizer")), Iterate(Get(payload, "attendees"));
    OneMentioned(ORGANIZED, Get(payload, "organizer"), kind, email);
    if atts.Some? {
      AttendeesMentioned(atts.value, kind, email);
      MentionedConcat(org, AttendeeMentions(atts.value), kind, email);
    } else {
      assert org + [] == org;
    }
  }

  /** Names: an unknown person gets the first name given for the address, organizer before attendees. */
  lemma CalendarUpsertNames(env: Env, g: Graph, ev: Event, email: Json)
    requires WellFormed(g) && OutcomeOf(env, ev).Runs?
    requires ev.exchange in CALENDAR_UPSERTS && Truthy(Get(ev.payload, "uid"))
    ensures var c := PropOf(NodeOf(Person, email), PFn);
            Look(Project(env, g, ev), c) ==
            if Look(g, c) != JNull then Look(g, c)
            else if Organizes(ev.payload, email) && Get(Get(ev.payload, "organizer").fields, "cn") != JNull then
              Get(Get(ev.payload, "organizer").fields, "cn")
            else FirstAttendeeName(ev.payload, email)
  {
    CreatedNames(env, g, ev, email);
    var org, atts := MentionIn(ORGANIZED, Get(ev.payload, "organizer")), Iterate(Get(ev.payload, "attendees"));
    FirstNameConcat(org, if atts.None? then [] else AttendeeMentions(atts.value), email);
    if atts.Some? {
      AttendeeName(atts.value, email);
      if !Get(ev.payload, "attendees").JArr? {
        NobodyNamed(atts.value, email);
      }
    }
    if org != [] {
      assert org[1..] == [];
    }
  }

  /** The name of the first attendee entry with this address and a name, or null. */
  function FirstAttendeeName(payload: Dict, email: Json): Json {
    var atts := Get(payload, "attendees");
    if atts.JArr? then FirstGiven(atts.items, email) else JNull
  }

  function FirstGiven(entries: seq<Json>, email: Json): Json {
    if entries == [] then JNull
    else if Names(entries[0], email) && Get(entries[0].fields, "cn") != JNull then Get(entries[0].fields, "cn")
    else FirstGiven(entries[1..], email)
  }

  lemma {:induction false} FirstNameConcat(a: seq<Mention>, b: seq<Mention>, email: Json)
    ensures FirstName(a + b, email) == Given(FirstName(a, email), FirstName(b, email))
  {
    if a == [] {
      assert a + b == b;
    } else {
      assert (a + b)[1..] == a[1..] + b;
      FirstNameConcat(a[1..], b, email);
    }
  }

  lemma {:induction false} AttendeeName(atts: seq<Json>, email: Json)
    ensures FirstName(AttendeeMentions(atts), email) == FirstGiven(atts, email)
  {
    if atts != [] {
      AttendeeName(atts[1..], email);
      var head := MentionIn(ATTENDED, atts[0]);
      FirstNameConcat(head, AttendeeMentions(atts[1..]), email);
      if head != [] {
        assert head[1..] == [];
      }
    }
  }

  lemma {:induction false} NobodyNamed(entries: seq<Json>, email: Json)
    requires forall i :: 0 <= i < |entries| ==> !entries[i].JObj?
    ensures FirstGiven(entries, email) == JNull
  {
    if entries != [] {
      NobodyNamed(entries[1..], email);
    }
  }

  /** Everything else: other nodes that are no persons, persons' other values, and all values of edges stay. */
  lemma CalendarUpsertFrame(env: Env, g: Graph, ev: Event, ent: Entity, p: Prop)
    requires WellFormed(g) && OutcomeOf(env, ev).Runs? && ev.exchange in CALENDAR_UPSERTS
    requires ent.EdgeEnt? || (ent.id.lab != Person && ent != NodeOf(CalendarEvent, Get(ev.payload, "uid")))
    ensures Look(Project(env, g, ev), PropOf(ent, p)) == Look(g, PropOf(ent, p))
  {
    if Truthy(Get(ev.payload, "uid")) {
      CreatedProperties(env, g, ev, ent, p);
    }
  }

  // ---- Replies ----

  /** The status a participation text stands for, whatever its case and the space around it. */
  lemma StatusOf(partstat: Json)
    ensures !Truthy(partstat) ==> NormStatus(partstat) == Some("unknown")
    ensures Truthy(partstat) && !partstat.JStr? ==> NormStatus(partstat) == None
    ensures partstat.JStr? && partstat.s != "" ==>
              var text := Lower(Strip(partstat.s));
              && NormStatus(partstat).Some?
              && (text == "accepted" ==> NormStatus(partstat).value == "accepted")
              && (text == "confirmed" ==> NormStatus(partstat).value == "accepted")
              && (text == "declined" ==> NormStatus(partstat).value == "declined")
              && (text == "tentative" ==> NormStatus(partstat).value == "tentative")
              && (text !in {"accepted", "confirmed", "declined", "tentative"} ==> NormStatus(partstat).value == text)
  {
  }

  /** A reply by one attendee stores the status its text stands for, on the edge from that person to the event and on
      no other. */
  lemma SingleReply(env: Env, g: Graph, ev: Event, src: NodeId, dst: NodeId)
    requires WellFormed(g) && OutcomeOf(env, ev).Runs?
    requires ev.exchange == "calendar:event:reply" && Truthy(Get(ev.payload, "uid"))
    requires Get(ev.payload, "attendee").JObj? && Truthy(Get(Get(ev.payload, "attendee").fields, "email"))
    requires !Truthy(Get(ev.payload, "attendees"))
    ensures var att, c := Get(ev.payload, "attendee").fields, PropOf(EdgeEnt(ATTENDED, src, dst), PStatus);
            var partstat := Get(att, "partstat");
            var text := if partstat.JStr? then Lower(Strip(partstat.s)) else "";
            var mine := src == NodeId(Person, Get(att, "email")) && dst == NodeId(CalendarEvent, Get(ev.payload, "uid"));
            && (!mine ==> Look(Project(env, g, ev), c) == Look(g, c))
            && (mine && !Truthy(partstat) ==> Look(Project(env, g, ev), c) == JStr("unknown"))
            && (mine && text in {"accepted", "confirmed"} ==> Look(Project(env, g, ev), c) == JStr("accepted"))
            && (mine && text == "declined" ==> Look(Project(env, g, ev), c) == JStr("declined"))
            && (mine && text == "tentative" ==> Look(Project(env, g, ev), c) == JStr("tentative"))
  {
    ReplyStatuses(env, g, ev, src, dst);
    var att := Get(ev.payload, "attendee");
    StatusOf(Get(att.fields, "partstat"));
    assert RsvpsIn([]) == [];
    var r := RsvpIn(att);
    assert Rsvps(ev.payload) == r + [] == r;
    assert r[1..] == [];
  }

  /** The reply of the last entry for a person counts; the single attendee comes before the list. */
  lemma ReplyList(env: Env, g: Graph, ev: Event, src: NodeId, dst: NodeId)
    requires WellFormed(g) && OutcomeOf(env, ev).Runs?
    requires ev.exchange == "calendar:event:reply" && Truthy(Get(ev.payload, "uid"))
    ensures var c := PropOf(EdgeEnt(ATTENDED, src, dst), PStatus);
            Look(Project(env, g, ev), c) ==
            if src.lab == Person && dst == NodeId(CalendarEvent, Get(ev.payload, "uid"))
            then LastStatus(Rsvps(ev.payload), src.key, Look(g, c)) else Look(g, c)
  {
    ReplyStatuses(env, g, ev, src, dst);
  }

  // ---- Which events fail ----

  predicate NoDictionary(entry: Json) {
    Truthy(entry) && !entry.JObj?
  }

  /** Some entry is neither empty nor a dictionary. Text and dictionaries iterate over text. */
  predicate HasNoDictionary(atts: Json) {
    || (atts.JArr? && exists i :: 0 <= i < |atts.items| && NoDictionary(atts.items[i]))
    || (atts.JStr? && atts.s != "")
    || (atts.JObj? && exists i :: 0 <= i < |atts.fields| && atts.fields[i].name != "")
  }

  lemma {:induction false} AttendeesRaise(uid: Json, atts: seq<Json>)
    ensures AttendeeStmts(uid, atts).None? <==> exists i :: 0 <= i < |atts| && NoDictionary(atts[i])
  {
    if atts != [] {
      AttendeesRaise(uid, atts[1..]);
      assert NoDictionary(atts[0]) <==> AttendeeStmts1(uid, atts[0]).None?;
      assert forall i :: 0 < i < |atts| ==> atts[i] == atts[1..][i - 1];
    }
  }

  /** Iterating: what it gives, and when it raises. */
  lemma IteratesTo(atts: Json)
    ensures Iterate(atts).None? <==> Truthy(atts) && !atts.JArr? && !atts.JStr? && !atts.JObj?
    ensures Iterate(atts).Some? ==>
              ((exists i :: 0 <= i < |Iterate(atts).value| && NoDictionary(Iterate(atts).value[i])) <==> HasNoDictionary(atts))
  {
    if atts.JStr? && atts.s != "" {
      assert NoDictionary(Iterate(atts).value[0]);
    }
    if atts.JObj? && atts.fields != [] {
      assert forall i :: 0 <= i < |atts.fields| ==> Iterate(atts).value[i] == JStr(atts.fields[i].name);
    }
  }

  /** A calendar event raises exactly on these shapes: an organizer that is no dictionary, attendees that cannot be
      iterated, or one of them that is no dictionary. */
  lemma CalendarUpsertRaises(payload: Dict)
    ensures var organizer, atts := Get(payload, "organizer"), Get(payload, "attendees");
            MapCalendarCreated(payload).None? <==>
            Truthy(Get(payload, "uid")) &&
            (NoDictionary(organizer) || (Truthy(atts) && !atts.JArr? && !atts.JStr? && !atts.JObj?) || HasNoDictionary(atts))
  {
    var uid, atts := Get(payload, "uid"), Get(payload, "attendees");
    IteratesTo(atts);
    if Iterate(atts).Some? {
      AttendeesRaise(uid, Iterate(atts).value);
    }
  }

  predicate BadReply(entry: Json) {
    && entry.JObj? && Truthy(Get(entry.fields, "email"))
    && Truthy(Get(entry.fields, "partstat")) && !Get(entry.fields, "partstat").JStr?
  }

  lemma {:induction false} RepliesRaise(uid: Json, atts: seq<Json>)
    ensures RsvpStmts(uid, atts).None? <==> exists i :: 0 <= i < |atts| && BadReply(atts[i])
  {
    if atts != [] {
      RepliesRaise(uid, atts[1..]);
      assert BadReply(atts[0]) <==> RsvpStmts1(uid, atts[0]).None?;
      assert forall i :: 0 < i < |atts| ==> atts[i] == atts[1..][i - 1];
    }
  }

  /** A reply raises exactly when an attendee with an address has a participation that is no text, or the attendees
      cannot be iterated. Entries that are no dictionaries are passed over. */
  lemma ReplyRaises(payload: Dict)
    ensures var atts := Get(payload, "attendees");
            MapCalendarReply(payload).None? <==>
            Truthy(Get(payload, "uid")) &&
            (BadReply(Get(payload, "attendee"))
             || (Truthy(atts) && !atts.JArr? && !atts.JStr? && !atts.JObj?)
             || (atts.JArr? && exists i :: 0 <= i < |atts.items| && BadReply(atts.items[i])))
  {
    var uid, atts := Get(payload, "uid"), Get(payload, "attendees");
    IteratesTo(atts);
    if Iterate(atts).Some? {
      RepliesRaise(uid, Iterate(atts).value);
      assert !atts.JArr? ==> forall i :: 0 <= i < |Iterate(atts).value| ==> !Iterate(atts).value[i].JObj?;
    }
  }

  /** A summary with the reserved tag makes the event fail, and nothing of it reaches the graph. */
  lemma ReservedTagFails(env: Env, g: Graph, ev: Event, i: int)
    requires ev.exchange in CALENDAR_UPSERTS && Truthy(Get(ev.payload, "uid"))
    requires Get(ev.payload, "summary").JStr? && FoundAt(Get(ev.payload, "summary").s, "$CQR$", i)
    ensures OutcomeOf(env, ev) == Fails && Project(env, g, ev) == g
  {
    var summary := Get(ev.payload, "summary");
    ContainsExactly(summary.s, "$CQR$");
    var stmt := EventStmt(Get(ev.payload, "uid"), ev.payload);
    assert stmt[1] == SetTo(VarE, PSummary, summary);
    assert ClauseMentionsTag(stmt[1]) && StmtFails(env, stmt);
    var r := MapCalendarCreated(ev.payload);
    if r.Some? {
      assert r.value[0] == stmt;
    }
  }

  /** And so does a refused statement, whichever mapper wrote it. */
  lemma RefusedFails(env: Env, g: Graph, ev: Event, m: Mapper, i: nat)
    requires GetMapper(ev.exchange) == Some(m) && MapWith(env, m, ev.payload).Some?
    requires i < |MapWith(env, m, ev.payload).value| && env.ageRejects(MapWith(env, m, ev.payload).value[i])
    ensures OutcomeOf(env, ev) == Fails && Project(env, g, ev) == g
  {
    assert StmtFails(env, MapWith(env, m, ev.payload).value[i]);
  }
}
