/** From broker deliveries to the event log: owner filter, message keys, deduplication. */
module Ingest {
  import opened Payloads
  import opened Projection

  /** `dbOk`: the insert transaction of this delivery goes through. */
  datatype Delivery = Delivery(exchange: string, body: string, messageId: Option<string>, dbOk: bool)

  /** JSON decoding and SHA-256, which this model does not define, and the configured owner. */
  datatype Config = Config(decode: string -> Dict, digest: string -> string, owner: string)

  function MessageKey(cfg: Config, d: Delivery): string {
    if d.messageId.Some? && d.messageId.value != "" then d.messageId.value
    else "sha256:" + cfg.digest(d.exchange + "|" + d.body)
  }

  // ---- Owner filter. None: the rule raises on the shape of the payload. ----

  predicate IsOwner(att: Json, owner: string) {
    att.JObj? && Get(att.fields, "email") == JStr(owner)
  }

  function MatchCalendarEvent(payload: Dict, owner: string): Option<bool> {
    var organizer := Get(payload, "organizer");
    if Truthy(organizer) && !organizer.JObj? then None
    else if Truthy(organizer) && Get(organizer.fields, "email") == JStr(owner) then Some(true)
    else
      var atts := Iterate(Get(payload, "attendees"));
      if atts.None? then None else Some(exists i :: 0 <= i < |atts.value| && IsOwner(atts.value[i], owner))
  }

  function MatchesOwner(exchange: string, payload: Dict, owner: string): Option<bool> {
    if "calendar:event:" <= exchange then MatchCalendarEvent(payload, owner)
    else if "sabre:contact:" <= exchange then Some(Get(payload, "email") == JStr(owner))
    else if "mail:message:" <= exchange then Some(Get(payload, "user") == JStr(owner))
    else Some(false)
  }

  // ---- The log ----

  datatype Entry = Entry(key: string, event: Event)

  predicate Accepted(cfg: Config, d: Delivery) {
    MatchesOwner(d.exchange, cfg.decode(d.body), cfg.owner) == Some(true) && d.dbOk
  }

  function EntryOf(cfg: Config, d: Delivery): Entry {
    Entry(MessageKey(cfg, d), Event(d.exchange, cfg.decode(d.body)))
  }

  predicate HasKey(log: seq<Entry>, key: string) {
    exists i :: 0 <= i < |log| && log[i].key == key
  }

  /** INSERT ... ON CONFLICT (message_id) DO NOTHING. */
  function Insert(log: seq<Entry>, e: Entry): seq<Entry> {
    if HasKey(log, e.key) then log else log + [e]
  }

  function IngestOne(cfg: Config, log: seq<Entry>, d: Delivery): seq<Entry> {
    if Accepted(cfg, d) then Insert(log, EntryOf(cfg, d)) else log
  }

  function IngestAll(cfg: Config, log: seq<Entry>, ds: seq<Delivery>): seq<Entry>
    decreases |ds|
  {
    if ds == [] then log else IngestAll(cfg, IngestOne(cfg, log, ds[0]), ds[1..])
  }

  datatype Reply = Ack | Reject

  /** Rejected (dead-lettered) deliveries are those whose filter raised, or whose insert failed. */
  predicate Rejected(cfg: Config, d: Delivery) {
    var m := MatchesOwner(d.exchange, cfg.decode(d.body), cfg.owner);
    m.None? || (m.value && !d.dbOk)
  }

  class EventLog {
    var entries: seq<Entry>

    constructor ()
      ensures entries == []
    {
      entries := [];
    }

    /** Filter, insert once per key, acknowledge or dead-letter. */
    method ConsumeOne(cfg: Config, d: Delivery) returns (reply: Reply)
      modifies this
      ensures entries == IngestOne(cfg, old(entries), d)
      ensures reply == Reject <==> Rejected(cfg, d)
      ensures var mine := MatchesOwner(d.exchange, cfg.decode(d.body), cfg.owner);
              && (mine == None ==> reply == Reject && entries == old(entries))
              && (mine == Some(false) ==> reply == Ack && entries == old(entries))
              && (mine == Some(true) && !d.dbOk ==> reply == Reject && entries == old(entries))
              && (mine == Some(true) && d.dbOk ==> reply == Ack && HasKey(entries, MessageKey(cfg, d)))
    {
      var payload := cfg.decode(d.body);
      var mine := MatchesOwner(d.exchange, payload, cfg.owner);
      if mine.None? {
        return Reject;
      }
      if !mine.value {
        return Ack;
      }
      if !d.dbOk {
        return Reject;
      }
      var entry := Entry(MessageKey(cfg, d), Event(d.exchange, payload));
      entries := Insert(entries, entry);
      assert !HasKey(old(entries), entry.key) ==> entries[|old(entries)|] == entry;
      return Ack;
    }

    /** `_consume`, over all deliveries in their order. */
    method Consume(cfg: Config, ds: seq<Delivery>) returns (replies: seq<Reply>)
      modifies this
      ensures entries == IngestAll(cfg, old(entries), ds)
      ensures |replies| == |ds|
      ensures forall i :: 0 <= i < |ds| ==> (replies[i] == Reject <==> Rejected(cfg, ds[i]))
    {
      replies := [];
      assert ds[0..] == ds;
      for i := 0 to |ds|
        invariant IngestAll(cfg, old(entries), ds) == IngestAll(cfg, entries, ds[i..])
        invariant |replies| == i
        invariant forall j :: 0 <= j < i ==> (replies[j] == Reject <==> Rejected(cfg, ds[j]))
      {
        assert ds[i..][1..] == ds[i + 1..];
        var reply := ConsumeOne(cfg, ds[i]);
        replies := replies + [reply];
      }
    }
  }

  // ---- The log holds the first accepted delivery of every key, in order ----

  predicate FirstOfItsKey(cfg: Config, ds: seq<Delivery>, j: nat)
    requires j < |ds|
  {
    Accepted(cfg, ds[j]) &&
    forall i :: 0 <= i < j && Accepted(cfg, ds[i]) ==> MessageKey(cfg, ds[i]) != MessageKey(cfg, ds[j])
  }

  /** The positions of first occurrences, by definition. */
  function Firsts(cfg: Config, ds: seq<Delivery>, n: nat): (r: seq<nat>)
    requires n <= |ds|
    ensures forall a :: 0 <= a < |r| ==> r[a] < n && FirstOfItsKey(cfg, ds, r[a])
    ensures forall a, b :: 0 <= a < b < |r| ==> r[a] < r[b]
    ensures forall j :: 0 <= j < n && FirstOfItsKey(cfg, ds, j) ==> j in r
  {
    if n == 0 then []
    else Firsts(cfg, ds, n - 1) + (if FirstOfItsKey(cfg, ds, n - 1) then [n - 1] else [])
  }

  function EntriesAt(cfg: Config, ds: seq<Delivery>, at: seq<nat>): seq<Entry>
    requires forall a :: 0 <= a < |at| ==> at[a] < |ds|
  {
    seq(|at|, a requires 0 <= a < |at| => EntryOf(cfg, ds[at[a]]))
  }

  lemma {:induction false} IngestSnoc(cfg: Config, log: seq<Entry>, ds: seq<Delivery>, d: Delivery)
    ensures IngestAll(cfg, log, ds + [d]) == IngestOne(cfg, IngestAll(cfg, log, ds), d)
    decreases |ds|
  {
    if ds == [] {
      assert ([] + [d])[1..] == [];
    } else {
      assert (ds + [d])[1..] == ds[1..] + [d];
      IngestSnoc(cfg, IngestOne(cfg, log, ds[0]), ds[1..], d);
    }
  }

  /** Some accepted delivery among the first `n` has the key exactly when a first occurrence does. */
  lemma {:induction false} EarlierKey(cfg: Config, ds: seq<Delivery>, n: nat, key: string)
    requires n <= |ds|
    ensures (exists i :: 0 <= i < n && Accepted(cfg, ds[i]) && MessageKey(cfg, ds[i]) == key)
       <==> (exists i :: 0 <= i < n && FirstOfItsKey(cfg, ds, i) && MessageKey(cfg, ds[i]) == key)
  {
    if i :| 0 <= i < n && Accepted(cfg, ds[i]) && MessageKey(cfg, ds[i]) == key && !FirstOfItsKey(cfg, ds, i) {
      EarlierKey(cfg, ds, i, key);
    }
  }

  lemma KeyInLog(cfg: Config, ds: seq<Delivery>, n: nat, key: string)
    requires n <= |ds|
    ensures HasKey(EntriesAt(cfg, ds, Firsts(cfg, ds, n)), key)
       <==> (exists i :: 0 <= i < n && Accepted(cfg, ds[i]) && MessageKey(cfg, ds[i]) == key)
  {
    EarlierKey(cfg, ds, n, key);
    var firsts := Firsts(cfg, ds, n);
    var log := EntriesAt(cfg, ds, firsts);
    assert forall a :: 0 <= a < |log| ==> log[a].key == MessageKey(cfg, ds[firsts[a]]);
    if i :| 0 <= i < n && FirstOfItsKey(cfg, ds, i) && MessageKey(cfg, ds[i]) == key {
      var a :| 0 <= a < |firsts| && firsts[a] == i;
      assert log[a].key == key;
    }
  }

  lemma NextFirst(cfg: Config, ds: seq<Delivery>, n: nat)
    requires 0 < n <= |ds|
    ensures var log := EntriesAt(cfg, ds, Firsts(cfg, ds, n - 1));
            EntriesAt(cfg, ds, Firsts(cfg, ds, n)) ==
            if FirstOfItsKey(cfg, ds, n - 1) then log + [EntryOf(cfg, ds[n - 1])] else log
  {
  }

  lemma {:induction false} LogOfPrefix(cfg: Config, ds: seq<Delivery>, n: nat)
    requires n <= |ds|
    ensures IngestAll(cfg, [], ds[..n]) == EntriesAt(cfg, ds, Firsts(cfg, ds, n))
  {
    if n > 0 {
      LogOfPrefix(cfg, ds, n - 1);
      assert ds[..n] == ds[..n - 1] + [ds[n - 1]];
      IngestSnoc(cfg, [], ds[..n - 1], ds[n - 1]);
      NextFirst(cfg, ds, n);
      KeyInLog(cfg, ds, n - 1, MessageKey(cfg, ds[n - 1]));
    }
  }

  /** Whatever was redelivered, the log is the accepted first occurrences in delivery order. */
  lemma LogIsFirstOccurrences(cfg: Config, ds: seq<Delivery>)
    ensures IngestAll(cfg, [], ds) == EntriesAt(cfg, ds, Firsts(cfg, ds, |ds|))
  {
    assert ds[..|ds|] == ds;
    LogOfPrefix(cfg, ds, |ds|);
  }

  // ---- Whose events are in the log ----

  /** The owner organises the event, or is among its attendees. */
  predicate Invites(payload: Dict, owner: string) {
    var organizer, atts := Get(payload, "organizer"), Get(payload, "attendees");
    || (organizer.JObj? && Get(organizer.fields, "email") == JStr(owner))
    || (atts.JArr? && exists i :: 0 <= i < |atts.items| && atts.items[i].JObj?
                                  && Get(atts.items[i].fields, "email") == JStr(owner))
  }

  /** The shapes on which the rule raises: an organizer that is no dictionary, or attendees that cannot be iterated
      when the organizer does not decide. */
  predicate Misshapen(payload: Dict, owner: string) {
    var organizer, atts := Get(payload, "organizer"), Get(payload, "attendees");
    || (Truthy(organizer) && !organizer.JObj?)
    || (!(organizer.JObj? && Get(organizer.fields, "email") == JStr(owner))
        && Truthy(atts) && !atts.JArr? && !atts.JStr? && !atts.JObj?)
  }

  /** Which deliveries concern the owner, by exchange. */
  lemma OwnersExactly(exchange: string, payload: Dict, owner: string)
    ensures "calendar:event:" <= exchange ==>
              && (MatchesOwner(exchange, payload, owner).None? <==> Misshapen(payload, owner))
              && (!Misshapen(payload, owner) ==> MatchesOwner(exchange, payload, owner) == Some(Invites(payload, owner)))
    ensures "sabre:contact:" <= exchange ==>
              MatchesOwner(exchange, payload, owner) == Some(Get(payload, "email") == JStr(owner))
    ensures "mail:message:" <= exchange ==>
              MatchesOwner(exchange, payload, owner) == Some(Get(payload, "user") == JStr(owner))
    ensures !("calendar:event:" <= exchange) && !("sabre:contact:" <= exchange) && !("mail:message:" <= exchange) ==>
              MatchesOwner(exchange, payload, owner) == Some(false)
  {
    assert "calendar:event:" <= exchange ==> exchange[0] == 'c';
    assert "sabre:contact:" <= exchange ==> exchange[0] == 's';
    assert "mail:message:" <= exchange ==> exchange[0] == 'm';
    var organizer, atts := Get(payload, "organizer"), Iterate(Get(payload, "attendees"));
    if !Truthy(organizer) && organizer.JObj? {
      assert organizer.fields == [];
    }
    if atts.Some? {
      assert (exists i :: 0 <= i < |atts.value| && IsOwner(atts.value[i], owner)) <==>
             (Get(payload, "attendees").JArr? &&
              exists i :: 0 <= i < |atts.value| && atts.value[i].JObj? && Get(atts.value[i].fields, "email") == JStr(owner));
    }
  }

  /** What identifies a delivery: the publisher's id, else the digest of exchange and body. */
  lemma KeysExactly(cfg: Config, d: Delivery, id: string)
    ensures d.messageId == Some(id) && id != "" ==> MessageKey(cfg, d) == id
    ensures d.messageId == None || d.messageId == Some("") ==>
              MessageKey(cfg, d) == "sha256:" + cfg.digest(d.exchange + "|" + d.body)
  {
  }

  /** An invitation that names the owner is in the log, under its key, once it has been delivered. */
  lemma InvitationIsLogged(cfg: Config, ds: seq<Delivery>, j: nat)
    requires j < |ds| && ds[j].dbOk && "calendar:event:" <= ds[j].exchange
    requires !Misshapen(cfg.decode(ds[j].body), cfg.owner) && Invites(cfg.decode(ds[j].body), cfg.owner)
    ensures HasKey(IngestAll(cfg, [], ds), MessageKey(cfg, ds[j]))
  {
    OwnersExactly(ds[j].exchange, cfg.decode(ds[j].body), cfg.owner);
    LogIsFirstOccurrences(cfg, ds);
    KeyInLog(cfg, ds, |ds|, MessageKey(cfg, ds[j]));
    assert Accepted(cfg, ds[j]);
  }

  /** Every entry of the log is some delivery that concerns the owner, with its key, exchange and decoded body. */
  lemma EntriesAreDeliveries(cfg: Config, ds: seq<Delivery>, k: nat)
    requires k < |IngestAll(cfg, [], ds)|
    ensures exists j :: 0 <= j < |ds| && Logs(cfg, ds[j], IngestAll(cfg, [], ds)[k])
  {
    LogIsFirstOccurrences(cfg, ds);
    var j := Firsts(cfg, ds, |ds|)[k];
    assert FirstOfItsKey(cfg, ds, j);
    assert Logs(cfg, ds[j], IngestAll(cfg, [], ds)[k]);
  }

  predicate Logs(cfg: Config, d: Delivery, e: Entry) {
    && MatchesOwner(d.exchange, cfg.decode(d.body), cfg.owner) == Some(true) && d.dbOk
    && e.key == MessageKey(cfg, d) && e.event.exchange == d.exchange && e.event.payload == cfg.decode(d.body)
  }
}
