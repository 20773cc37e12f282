/** The mappers: from an event's exchange and payload to the statements that project it.
    Each `map_event` with a loop is a method proved against a function of the payload. */
module Mappers {
  import opened Payloads
  import opened Cypher

  /** What the mappers call but this model does not define: `str(x)` on values that are not text,
      and the statements the graph extension itself refuses. */
  datatype Env = Env(pyStr: Json -> string, ageRejects: Stmt -> bool)

  /** None: the mapper raised. */
  type Mapped = Option<seq<Stmt>>

  /** SET with one assignment per value that is not None. */
  function SetNonNull(v: Var, pairs: seq<(Prop, Json)>): seq<Clause> {
    if pairs == [] then []
    else
      (if pairs[0].1 == JNull then [] else [SetTo(v, pairs[0].0, pairs[0].1)]) + SetNonNull(v, pairs[1..])
  }

  // ---- calendar:event:{created,updated,request} ----

  function PersonClauses(email: Json, cn: Json): seq<Clause> {
    [MergeNode(VarP, Person, email), SetCoalesce(VarP, PFn, cn)]
  }

  function LinkStmt(uid: Json, email: Json, cn: Json, kind: Kind): Stmt {
    PersonClauses(email, cn) + [MatchNode(VarE, CalendarEvent, uid), MergeEdge(VarR, VarP, kind, VarE)]
  }

  function ExtractMeetUrl(payload: Dict): Json {
    if Truthy(Get(payload, "meetUrl")) then Get(payload, "meetUrl")
    else if Get(payload, "conference").JObj? && Truthy(Get(Get(payload, "conference").fields, "uri")) then
      Get(Get(payload, "conference").fields, "uri")
    else
      var loc := Get(payload, "location");
      if loc.JStr? && ("http://" <= loc.s || "https://" <= loc.s) then loc else JNull
  }

  function EventStmt(uid: Json, payload: Dict): Stmt {
    [MergeNode(VarE, CalendarEvent, uid)] +
    SetNonNull(VarE, [
      (PSummary, Get(payload, "summary")),
      (PDescription, Get(payload, "description")),
      (PLocation, Get(payload, "location")),
      (PStartAt, Get(payload, "start")),
      (PEndAt, Get(payload, "end")),
      (PMeetUrl, ExtractMeetUrl(payload)),
      (PDeleted, JBool(false))])
  }

  function OrganizerStmts(uid: Json, organizer: Json): Mapped {
    if !Truthy(organizer) then Some([])
    else if !organizer.JObj? then None
    else
      var email := Get(organizer.fields, "email");
      Some(if Truthy(email) then [LinkStmt(uid, email, Get(organizer.fields, "cn"), ORGANIZED)] else [])
  }

  function AttendeeStmts1(uid: Json, att: Json): Mapped {
    if !Truthy(att) then Some([])
    else if !att.JObj? then None
    else
      var email := Get(att.fields, "email");
      Some(if Truthy(email) then [LinkStmt(uid, email, Get(att.fields, "cn"), ATTENDED)] else [])
  }

  function Prepend(acc: seq<Stmt>, rest: Mapped): Mapped {
    if rest.None? then None else Some(acc + rest.value)
  }

  lemma PrependTwice(a: seq<Stmt>, b: seq<Stmt>, rest: Mapped)
    ensures Prepend(a, Prepend(b, rest)) == Prepend(a + b, rest)
  {
    if rest.Some? {
      assert a + (b + rest.value) == (a + b) + rest.value;
    }
  }

  function AttendeeStmts(uid: Json, atts: seq<Json>): Mapped {
    if atts == [] then Some([])
    else if AttendeeStmts1(uid, atts[0]).None? then None
    else Prepend(AttendeeStmts1(uid, atts[0]).value, AttendeeStmts(uid, atts[1..]))
  }

  function MapCalendarCreated(payload: Dict): Mapped {
    var uid := Get(payload, "uid");
    if !Truthy(uid) then Some([])
    else if OrganizerStmts(uid, Get(payload, "organizer")).None? then None
    else if Iterate(Get(payload, "attendees")).None? then None
    else
      Prepend([EventStmt(uid, payload)] + OrganizerStmts(uid, Get(payload, "organizer")).value,
              AttendeeStmts(uid, Iterate(Get(payload, "attendees")).value))
  }

  method MapCalendarCreatedLoop(payload: Dict) returns (r: Mapped)
    ensures r == MapCalendarCreated(payload)
  {
    var uid := Get(payload, "uid");
    if !Truthy(uid) {
      return Some([]);
    }
    var stmts := [EventStmt(uid, payload)];

    var organizer := Get(payload, "organizer");
    if Truthy(organizer) {
      if !organizer.JObj? {
        return None;
      }
      var orgEmail := Get(organizer.fields, "email");
      if Truthy(orgEmail) {
        stmts := stmts + [LinkStmt(uid, orgEmail, Get(organizer.fields, "cn"), ORGANIZED)];
      }
    }

    assert OrganizerStmts(uid, organizer).Some? && stmts == [EventStmt(uid, payload)] + OrganizerStmts(uid, organizer).value;
    var iter := Iterate(Get(payload, "attendees"));
    if iter.None? {
      return None;
    }
    var atts := iter.value;
    assert atts[0..] == atts;
    for i := 0 to |atts|
      invariant MapCalendarCreated(payload) == Prepend(stmts, AttendeeStmts(uid, atts[i..]))
    {
      var att := atts[i];
      assert atts[i..][1..] == atts[i + 1..];
      if AttendeeStmts1(uid, att).Some? {
        PrependTwice(stmts, AttendeeStmts1(uid, att).value, AttendeeStmts(uid, atts[i + 1..]));
      }
      assert stmts + [] == stmts;
      if Truthy(att) {
        if !att.JObj? {
          return None;
        }
        var email := Get(att.fields, "email");
        if Truthy(email) {
          stmts := stmts + [LinkStmt(uid, email, Get(att.fields, "cn"), ATTENDED)];
        }
      }
    }
    assert stmts + [] == stmts;
    return Some(stmts);
  }

  // ---- calendar:event:{deleted,cancel} ----

  function MapCalendarDeleted(payload: Dict): Mapped {
    var uid := Get(payload, "uid");
    Some(if Truthy(uid) then [[MergeNode(VarE, CalendarEvent, uid), SetTo(VarE, PDeleted, JBool(true))]] else [])
  }

  // ---- calendar:event:reply ----

  /** None: `partstat.strip()` raises on a truthy value that is not text. */
  function NormStatus(partstat: Json): Option<string> {
    if !Truthy(partstat) then Some("unknown")
    else if !partstat.JStr? then None
    else
      var p := Lower(Strip(partstat.s));
      Some(if p == "accepted" || p == "confirmed" then "accepted"
           else if p == "declined" then "declined"
           else if p == "tentative" then "tentative"
           else p)
  }

  function RsvpStmt(uid: Json, email: Json, status: string): Stmt {
    [MergeNode(VarP, Person, email), MergeNode(VarE, CalendarEvent, uid),
     MergeEdge(VarR, VarP, ATTENDED, VarE), SetTo(VarR, PStatus, JStr(status))]
  }

  function RsvpStmts1(uid: Json, att: Json): Mapped {
    if !att.JObj? || !Truthy(Get(att.fields, "email")) then Some([])
    else if NormStatus(Get(att.fields, "partstat")).None? then None
    else Some([RsvpStmt(uid, Get(att.fields, "email"), NormStatus(Get(att.fields, "partstat")).value)])
  }

  function RsvpStmts(uid: Json, atts: seq<Json>): Mapped {
    if atts == [] then Some([])
    else if RsvpStmts1(uid, atts[0]).None? then None
    else Prepend(RsvpStmts1(uid, atts[0]).value, RsvpStmts(uid, atts[1..]))
  }

  function MapCalendarReply(payload: Dict): Mapped {
    var uid := Get(payload, "uid");
    if !Truthy(uid) then Some([])
    else if RsvpStmts1(uid, Get(payload, "attendee")).None? then None
    else if Iterate(Get(payload, "attendees")).None? then None
    else
      Prepend(RsvpStmts1(uid, Get(payload, "attendee")).value,
              RsvpStmts(uid, Iterate(Get(payload, "attendees")).value))
  }

  method MapCalendarReplyLoop(payload: Dict) returns (r: Mapped)
    ensures r == MapCalendarReply(payload)
  {
    var uid := Get(payload, "uid");
    if !Truthy(uid) {
      return Some([]);
    }
    var first := RsvpStmts1(uid, Get(payload, "attendee"));
    if first.None? {
      return None;
    }
    var stmts := first.value;

    var iter := Iterate(Get(payload, "attendees"));
    if iter.None? {
      return None;
    }
    var atts := iter.value;
    assert atts[0..] == atts;
    for i := 0 to |atts|
      invariant MapCalendarReply(payload) == Prepend(stmts, RsvpStmts(uid, atts[i..]))
    {
      var a := atts[i];
      assert atts[i..][1..] == atts[i + 1..];
      if RsvpStmts1(uid, a).Some? {
        PrependTwice(stmts, RsvpStmts1(uid, a).value, RsvpStmts(uid, atts[i + 1..]));
      }
      assert stmts + [] == stmts;
      if a.JObj? && Truthy(Get(a.fields, "email")) {
        var status := NormStatus(Get(a.fields, "partstat"));
        if status.None? {
          return None;
        }
        stmts := stmts + [RsvpStmt(uid, Get(a.fields, "email"), status.value)];
      }
    }
    assert stmts + [] == stmts;
    return Some(stmts);
  }

  // ---- sabre:contact:* ----

  function ContactStmt(email: Json, payload: Dict): Stmt {
    [MergeNode(VarP, Person, email)] +
    SetNonNull(VarP, [(PFn, Get(payload, "fn")), (PTel, Get(payload, "tel")), (PDeleted, JBool(false))])
  }

  function WorksAtStmt(email: Json, org: Json): Stmt {
    [MergeNode(VarO, Organization, org), MatchNode(VarP, Person, email), MergeEdge(VarR, VarP, WORKS_AT, VarO)]
  }

  function MapContactCreated(payload: Dict): Mapped {
    var email := Get(payload, "email");
    var org := Get(payload, "org");
    Some(if !Truthy(email) then []
         else [ContactStmt(email, payload)] + (if Truthy(org) then [WorksAtStmt(email, org)] else []))
  }

  function MapContactDeleted(payload: Dict): Mapped {
    var email := Get(payload, "email");
    Some(if Truthy(email) then [[MergeNode(VarP, Person, email), SetTo(VarP, PDeleted, JBool(true))]] else [])
  }

  // ---- mail:message:* ----

  function TextOf(env: Env, j: Json): string {
    if j.JStr? then j.s else env.pyStr(j)
  }

  /** "/".join(str(p) for p in parts if p) */
  function JoinParts(env: Env, parts: seq<Json>): string {
    if parts == [] then ""
    else if !Truthy(parts[0]) then JoinParts(env, parts[1..])
    else if forall i :: 1 <= i < |parts| ==> !Truthy(parts[i]) then TextOf(env, parts[0])
    else TextOf(env, parts[0]) + "/" + JoinParts(env, parts[1..])
  }

  function FlattenPath(env: Env, mbp: Json): Json {
    match mbp
    case JObj(d) => JStr(JoinParts(env, [Get(d, "namespace"), Get(d, "user"), Get(d, "name")]))
    case JStr(_) => mbp
    case _ => JNull
  }

  function MapMailReceived(env: Env, payload: Dict): Mapped {
    var mid := Get(payload, "message_id");
    Some(if !Truthy(mid) then []
         else [[MergeNode(VarE, Email, mid)] +
               SetNonNull(VarE, [
                 (PUser, Get(payload, "user")),
                 (PMailboxPath, FlattenPath(env, Get(payload, "mailbox_path"))),
                 (PReceivedAt, Get(payload, "timestamp")),
                 (PDeleted, JBool(false))])])
  }

  function MapMailMoved(env: Env, payload: Dict): Mapped {
    var mid := Get(payload, "message_id");
    var path := FlattenPath(env, Get(payload, "mailbox_path"));
    Some(if !Truthy(mid) || path == JNull then []
         else [[MergeNode(VarE, Email, mid), SetTo(VarE, PMailboxPath, path)]])
  }

  function MapMailFlags(payload: Dict): Mapped {
    var mid := Get(payload, "message_id");
    var flags := Get(payload, "flags");
    var read := flags.JArr? && JStr("\\Seen") in flags.items;
    Some(if !Truthy(mid) then [] else [[MergeNode(VarE, Email, mid), SetTo(VarE, PRead, JBool(read))]])
  }

  function MapMailExpunged(payload: Dict): Mapped {
    var mid := Get(payload, "message_id");
    Some(if Truthy(mid) then [[MergeNode(VarE, Email, mid), SetTo(VarE, PDeleted, JBool(true))]] else [])
  }

  // ---- The registry ----

  datatype Mapper =
    | CalendarCreated | CalendarDeleted | CalendarReply
    | ContactCreated | ContactDeleted
    | MailReceived | MailExpunged | MailFlags | MailMoved

  function GetMapper(exchange: string): Option<Mapper> {
    if exchange in {"calendar:event:created", "calendar:event:updated", "calendar:event:request"} then Some(CalendarCreated)
    else if exchange in {"calendar:event:deleted", "calendar:event:cancel"} then Some(CalendarDeleted)
    else if exchange == "calendar:event:reply" then Some(CalendarReply)
    else if exchange in {"sabre:contact:created", "sabre:contact:updated", "sabre:contact:update"} then Some(ContactCreated)
    else if exchange == "sabre:contact:deleted" then Some(ContactDeleted)
    else if exchange == "mail:message:received" then Some(MailReceived)
    else if exchange == "mail:message:expunged" then Some(MailExpunged)
    else if exchange == "mail:message:flags:updated" then Some(MailFlags)
    else if exchange == "mail:message:moved" then Some(MailMoved)
    else None
  }

  function MapWith(env: Env, m: Mapper, payload: Dict): Mapped {
    match m
    case CalendarCreated => MapCalendarCreated(payload)
    case CalendarDeleted => MapCalendarDeleted(payload)
    case CalendarReply => MapCalendarReply(payload)
    case ContactCreated => MapContactCreated(payload)
    case ContactDeleted => MapContactDeleted(payload)
    case MailReceived => MapMailReceived(env, payload)
    case MailExpunged => MapMailExpunged(payload)
    case MailFlags => MapMailFlags(payload)
    case MailMoved => MapMailMoved(env, payload)
  }

  /** The dollar-quote tag no statement may contain. */
  const SAFE_TAG := "$CQR$"

  predicate ClauseMentionsTag(c: Clause) {
    match c
    case MergeNode(_, _, key) => Mentions(key, SAFE_TAG)
    case MatchNode(_, _, key) => Mentions(key, SAFE_TAG)
    case MergeEdge(_, _, _, _) => false
    case SetTo(_, _, value) => Mentions(value, SAFE_TAG)
    case SetCoalesce(_, _, value) => Mentions(value, SAFE_TAG)
  }

  /** Running the statement raises: it carries the reserved tag, or the extension refuses it. */
  predicate StmtFails(env: Env, s: Stmt) {
    (exists i :: 0 <= i < |s| && ClauseMentionsTag(s[i])) || env.ageRejects(s)
  }
}
