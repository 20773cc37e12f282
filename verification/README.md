# Twaky: a verified model

Twaky turns a stream of calendar, contact and mail events into a property graph, runs long-lived
missions over it, and triages mail. This project models the parts of it that are hard to get right and
proves what they keep. It is one Dafny project; `dafny verify dfyconfig.toml` checks all of it.

The source is Python with asynchronous workers and a Postgres database. The model follows its form: an
object that updates its fields is a class whose methods are proved against functions of the state, a
loop is a method with invariants, and code that several workers run against shared state is a step
machine whose theorems hold for every interleaving of its steps.

## What is modelled

**Event log to graph** (`Payloads`, `Cypher`, `Mappers`, `Registers`, `Refinement`, `Projection`, `Replay`,
`Ingest`, `Projector`, `Pipeline`, `Effects`, `Upserts`, `Exchanges`). Statements are a small syntax tree executed on lists of nodes
and edges. MERGE really is match-or-create, a pattern that matches twice multiplies the rows, and a MATCH
that finds nothing silently ends its row, so neither "no duplicates" nor "no edge lost" holds by
definition. All nine mappers are functions of the payload; the two with loops are also methods. The main
results: every statement a mapper emits acts on the graph as a list of independent register operations;
hence the graph never has two nodes with one natural key or two edges with the same ends and kind;
hence projecting any part of the log again changes nothing, although events do not commute and
`Person.fn` mixes SET with `coalesce`. On top of that, ingest, batches, crashes and `replay_from` are
interleaved, and the drained graph is the in-order fold of the first occurrences that ingest let through.
`Effects` and `Upserts` say what single events mean, and what a person is called after a whole log; `Exchanges` says
it from the text of the exchange and of the payload to the registers, without the mappers in between.

**Missions** (`Missions`, `Delegation`, `AtlasRuns`). Declare, park, claim and the engine calls are atomic
transactions that anybody may issue at any time: the API, a driver, a driver that has timed out and goes
on, recovery. So is the one write that goes past the engine, that of the draft extractor. The delegation
waiter is a third party, with commit and NOTIFY as separate steps. A separate
machine follows one mission through its driver threads, the graph loop, parks, resumes, timeouts and
restarts to bound the number of model calls.

**Caches and cursors** (`TokenCache`, `Registry`, `Idempotency`, `Observer`, `Broker`, `Pending`). Each is a
machine over the await points or critical sections of the source, with any number of coroutines or
threads, together with the class or method that runs between two such points.

**Mail rules** (`Rules`) and **the free-slot sweep** (`FreeSlot`).

## Where the code does less than it says

Each of these is a theorem here, with the exact condition where there is one.

- `replay_from` promises a rebuilt graph. If it arrives while a batch is in flight and starts below that
  batch, the older rows are projected after newer ones. It is safe exactly when no row is in flight or it
  starts at or after the first row in flight (`Pipeline.ReplayExactlyWhenInOrder`).
- `next_free_slot` compares ISO timestamps as text, to sort conflicts and to pick them. Earliest and complete
  hold in any order. Sound answers for a window end are had exactly when the order serves the sweep and no gap
  opens before a conflict that starts after the window (`FreeSlot.SoundExactlyWhenOrderServes`). Mixed UTC offsets
  break either half: an overlap (`FreeSlot.MixedOffsetsFail`), a slot outside the window (`FreeSlot.LateConflictFails`).
- `force_refresh` is documented to bypass the cache; while the cache is warm no call, forced or queued, reaches
  the token endpoint (`TokenCache.ForceHonoursWarmCache`). A refresh also notifies the process that made it, and that
  invalidation makes a queued coroutine POST again (`TokenCache.OwnNoticeDefeatsSingleFlight`). Served tokens
  have more than 30 s left exactly when each refresh outlives 60 s plus its own database write
  (`TokenCache.LastsExactlyWhenLongLived`).
- A registry fetch can straddle an invalidation and cache a stale row for good, and the listener invalidates
  nothing after it reconnects (`Registry.StraddleGoesStale`, `Registry.GapGoesStale`). The table's trigger
  fires on UPDATE only, so inserts and deletes are not part of this model.
- The check and the insert of a run are not atomic: overlapping deliveries process an event twice
  (`Idempotency.OverlapProcessesTwice`). An ignored redelivery also extends the window, so an event redelivered
  every 23 hours is never processed again (`Idempotency.ProcessedExactlyAfterQuietDay`).
- The rule preview does not call itself partial for conditions on `to` or on headers that are never captured
  (`Rules.RecipientRuleMissesSilently`, `Rules.UncapturedHeaderMissesSilently`, `Rules.SurvivesExactly`).
- A restart in the middle of a model call loses its step. The limit plus one bounds the calls of a mission
  exactly when there is no restart; each restart adds one to the bound, and every bound is reached
  (`AtlasRuns.LimitHoldsExactlyWithoutRestarts`, `AtlasRuns.BoundIsReached`).
- The observer concatenates created and updated emails. A server may list an email in both (section 5.2 of
  RFC 8620), and then one tick without a crash dispatches it twice. Between ticks of a crash-free run that has
  happened exactly when an answer covering a change repeated an email (`Observer.HandedOnceExactly`,
  `Observer.CreatedAndUpdatedTwice`).
- The engine says that every mutation of a mission goes through it. The mail observer's draft extractor does not
  (`src/twaky/sentinels/mail/extractors/draft_diff.py:91-98`): some time after it saw a mission waiting it sets the
  row Done, with no lock, guard or notification. The guard table, the finality of terminal rows and the wakeup of a
  delegate hold exactly without such a write in the wrong place (`Missions.MissionHistory`, `Missions.TerminalIsFinal`,
  `Missions.DraftLeavesGuardTable`, `Delegation.NoLostWakeupExactly`, `Delegation.SleepsUntilTimeout`).
- The rule preview compares priorities only, and the store breaks ties by name. Priorities have a default, so a rule
  of the same priority and a smaller name shadows the proposal without being reported, and the counts, the
  shadowing rules and the examples leave it out (`Rules.TieHidesShadower`; exact guard in
  `Rules.PreviewAgreesWithLive`). A disabled proposal is previewed as if it were enabled.
- `next_free_slot` promises a slot that no event overlaps, but sees only events that start in the window. It keeps the
  promise exactly when no event that began earlier is still under way at the slot's start (`FreeSlot.FreeOfAllExactly`).
- `_claim_declared` says that a database trigger announces its change; no trigger on the mission table
  exists, so the model sends nothing after a claim.

## Assumptions

- One projector at a time. Whether a row fails depends on its payload and on which statements the graph
  extension refuses, not on the moment.
- Row ids are positions in the log. Graphs are those a projector can have written: keys are not duplicated.
- Uninterpreted: body decoding and its digest, `str` on values that are no text, the statements the
  extension refuses, the ISO parser, the regular-expression and glob engines. `lower` and `strip` are the
  ASCII ones. JSON numbers are integers.
- One monotone clock.
- In `AtlasRuns` a mission has one driver at a time until that driver's graph call returns.
- In `TokenCache` all coroutines of a manager share one event loop, and a token carries the expiry that was
  recorded for it.
- In `Rules` the store lists enabled rules by priority and then by name, under some strict order of names. The
  columns for captured headers exist in the database. The results about the live matcher concern its static stage
  alone: thread continuity and learned patterns come before it, the language model after it.
- In `FreeSlot` timestamps compare as text character by character.

## Model

| member | source | states |
|---|---|---|
| Cypher.NodesMatching | src/twaky/mappers/calendar_event_created.py:28-32 | A node pattern matches exactly the nodes with this label and key, each once, in list order. |
| Cypher.EdgesMatching | src/twaky/mappers/calendar_event_created.py:78-95 | An edge pattern matches exactly the edges of this kind between these two nodes. |
| Mappers.MapCalendarCreatedLoop | src/twaky/mappers/calendar_event_created.py:50-97 | The loop that appends the statements of a calendar event computes the mapper's specification: upsert, organizer, one pair per attendee with an address; None when the code raises. |
| Mappers.MapCalendarReplyLoop | src/twaky/mappers/calendar_event_reply.py:43-61 | The loop over reply attendees computes its specification, the single attendee first. |
| Projection.MappersSound | src/twaky/mappers/__init__.py:31-59 | Whatever the payload, no mapper writes a natural key, uses an unbound variable, merges a null key, or MATCHes a node it has not merged in the same event. |
| Projection.LinkSound | src/twaky/mappers/calendar_event_created.py:78-95 | Linking a person to an event finds both ends once they are merged. |
| Projection.RsvpSound | src/twaky/mappers/calendar_event_reply.py:31-40 | An RSVP statement merges both ends before it uses them and writes only the edge. |
| Projection.WorksAtSound | src/twaky/mappers/sabre_contact_created.py:36-42 | The employer edge finds the person the statement before it merged. |
| Projection.CalendarCreatedSound | src/twaky/mappers/calendar_event_created.py:50-97 | All statements of a created event are sound, with every MATCH served by an earlier MERGE. |
| Registers.RunOpsConcat | src/twaky/mappers/calendar_event_created.py:50-97 | Running operations in two parts is running them in one. |
| Refinement.NewNodeActs | src/twaky/mappers/calendar_event_created.py:28-32 | Creating a node changes that node's registers and no other. |
| Refinement.NewEdgeActs | src/twaky/mappers/calendar_event_created.py:78-95 | Creating an edge changes its existence and no other register. |
| Refinement.AssignActs | src/twaky/mappers/sabre_contact_created.py:22-33 | SET overwrites or, with coalesce, fills one property and leaves every other register alone. |
| Refinement.ClauseRefines | src/twaky/mappers/calendar_event_created.py:28-97 | Each clause on a duplicate-free graph continues with exactly one row and acts as its operations say; in particular a MATCH of a present node never drops the row. |
| Refinement.ClausesRefine | src/twaky/mappers/calendar_event_created.py:28-97 | The same for clause lists, from any graph that has the nodes the MATCHes need. |
| Refinement.StmtsRefine | src/twaky/projector.py:56-79 | Running sound statements on a duplicate-free list graph keeps it duplicate-free and leaves in every register what its own operations make of the old value. |
| Replay.ProjectRefines | src/twaky/projector.py:82-120 | One row acts on the registers through operations read off the event alone; failed and unmapped rows act as nothing. |
| Replay.ProjectAllRefines | README.md:32 | Over every log the list graph stays duplicate-free and each register is the fold of the log's operations on it. |
| Replay.RunOpsIdempotent | src/twaky/mappers/calendar_event_created.py:28-32 | A fold that mixes overwriting with coalescing is idempotent as a whole, although its operations do not commute. |
| Replay.RegistersDetermineGraph | src/twaky/projector.py:163-175 | A duplicate-free graph that has grown from another and agrees on all registers is the same graph, list positions included. |
| Replay.ReplayIdempotent | README.md:32 | Projecting any list of events again onto its own result leaves the graph as it was. |
| Replay.ReplayFromRestores | src/twaky/projector.py:163-175 | For every log and every row, replaying from that row on restores the graph of the whole log. |
| Effects.CreatedEdges | src/twaky/mappers/calendar_event_created.py:78-95 | After a created event an edge exists if and only if it did before or the payload names that person as organizer or attendee: none lost, none invented. |
| Effects.CreatedNames | src/twaky/mappers/calendar_event_created.py:28-32 | A known name is kept; an unknown one becomes the first name the payload gives for the address. |
| Effects.CreatedProperties | src/twaky/mappers/calendar_event_created.py:55-76 | Given values replace, missing ones keep, `deleted` is cleared; other events and every edge property stay. |
| Effects.ReplyStatuses | src/twaky/mappers/calendar_event_reply.py:18-61 | After a reply each attendance of the event has the last status the payload gives that person; all others keep theirs. |
| Upserts.UpsertEffects | src/twaky/mappers/mail_message_received.py:24-40 | Contact, mail and deletion events: the node with the payload's key exists and has the offered values, missing ones kept; a contact's employer and its edge exist; every other node, edge and property is as before. |
| Upserts.UpsertStmts | src/twaky/mappers/sabre_contact_created.py:17-44 | Seven mappers emit one upsert of the node the payload names, and the employer of a contact; nothing without a key. |
| Upserts.DeletionKeepsHistory | src/twaky/mappers/calendar_event_deleted.py:13-19 | A deletion marks the node and keeps all its other properties and edges. |
| Upserts.NameAfterEvent | src/twaky/mappers/sabre_contact_created.py:22-33 | A contact's name overwrites, a calendar's name only fills in, and no other event names anybody. |
| Upserts.NameAfterLog | src/twaky/mappers/calendar_event_created.py:28-32 | After a whole log a person is called what the last contact event with a name says, wherever calendar events stand; else what the graph said; else what the first calendar event with a name says. |
| Exchanges.CalendarDeletions | src/twaky/mappers/calendar_event_deleted.py:13-19 | An event on `calendar:event:deleted` or `calendar:event:cancel` marks its event deleted and changes nothing else. |
| Exchanges.ContactDeletions | src/twaky/mappers/sabre_contact_deleted.py:13-17 | An event on `sabre:contact:deleted` marks its person deleted and changes nothing else. |
| Exchanges.MailExpunctions | src/twaky/mappers/mail_message_expunged.py:8-12 | An event on `mail:message:expunged` marks its message deleted and changes nothing else. |
| Exchanges.MailFlagsUpdates | src/twaky/mappers/mail_message_flags_updated.py:8-19 | An event on `mail:message:flags:updated` makes the message read exactly if its flags are a list with the seen flag. |
| Exchanges.MailMoves | src/twaky/mappers/mail_message_moved.py:9-21 | An event on `mail:message:moved` sets the path of the message, or does nothing when no path can be read. |
| Exchanges.MailReceptions | src/twaky/mappers/mail_message_received.py:24-40 | An event on `mail:message:received`: user, path and time replace or keep, and the message is not deleted. |
| Exchanges.MailboxPath | src/twaky/mappers/mail_message_received.py:11-21 | A mailbox path is the given ones of namespace, user and name, in that order, joined by slashes; text stays; anything else is no path. |
| Exchanges.ContactUpserts | src/twaky/mappers/sabre_contact_created.py:17-44 | The three contact exchanges: every register of the person, the employer and the edge to it, from the payload; everything else stays. |
| Exchanges.CalendarUpsertProperties | src/twaky/mappers/calendar_event_created.py:55-76 | The three calendar exchanges: each property of the event from its own payload key. |
| Exchanges.MeetUrl | src/twaky/mappers/calendar_event_created.py:35-47 | The meeting link is the given one, else the conference's, else the location if it looks like a link. |
| Exchanges.CalendarUpsertEdges | src/twaky/mappers/calendar_event_created.py:78-95 | The three calendar exchanges: an edge exists afterwards exactly if it did before or the payload's organizer or attendee list names that person. |
| Exchanges.CalendarUpsertNames | src/twaky/mappers/calendar_event_created.py:28-32 | The three calendar exchanges: a known name stays, an unknown one becomes the organizer's given name for the address, else the first attendee's. |
| Exchanges.SingleReply | src/twaky/mappers/calendar_event_reply.py:18-61 | A reply stores, on that attendance alone, accepted, declined, tentative or unknown, as the participation text says in any case and spacing. |
| Exchanges.StatusOf | src/twaky/mappers/calendar_event_reply.py:18-28 | Every participation text and the status it stands for; other text stands for itself. |
| Exchanges.CalendarUpsertRaises | src/twaky/mappers/calendar_event_created.py:78-95 | Exactly the payload shapes on which the calendar mapper raises. |
| Exchanges.ReplyRaises | src/twaky/mappers/calendar_event_reply.py:43-61 | Exactly the payload shapes on which the reply mapper raises. |
| Exchanges.ReservedTagFails | src/twaky/projector.py:53-79 | A summary with the reserved tag makes the event fail and leaves the graph alone. |
| Exchanges.OtherExchanges | src/twaky/mappers/__init__.py:31-56 | An event on any exchange but the fourteen has no mapper and leaves the graph alone. |
| Exchanges.NoKeyNoEffect | src/twaky/mappers/calendar_event_created.py:51-53 | An event without its natural key leaves the graph alone, whatever its exchange. |
| Ingest.EventLog.ConsumeOne | src/twaky/ingest.py:62-132 | One delivery: filtered, inserted unless its key is there, dead-lettered exactly when the filter or the insert raises. |
| Ingest.EventLog.Consume | src/twaky/ingest.py:109-132 | The consume loop leaves the log the specification computes and one right reply per delivery. |
| Ingest.KeyInLog | src/twaky/ingest.py:37-79 | A key is in the log exactly when some accepted delivery so far carried it. |
| Ingest.LogIsFirstOccurrences | src/twaky/ingest.py:37-132 | Whatever is redelivered, the log is the owner's first occurrences by key, in delivery order. |
| Ingest.OwnersExactly | src/twaky/owner_filter.py:16-48 | For each kind of exchange, exactly which payloads concern the owner and on which the filter raises. |
| Ingest.InvitationIsLogged | src/twaky/owner_filter.py:16-23 | An invitation that names the owner as organizer or attendee is in the log once it has been delivered. |
| Ingest.EntriesAreDeliveries | src/twaky/ingest.py:37-79 | Every entry is some delivery that concerns the owner, with its key, exchange and decoded body. |
| Projector.PendingIdsSpec | src/twaky/projector.py:30-50 | The pending ids are exactly the pending rows, ascending. |
| Projector.PendingEventsSpec | src/twaky/projector.py:30-50 | The pending events are those of the pending ids, in that order. |
| Projector.PendingAfter | src/twaky/projector.py:30-50 | After the first m pending rows are processed, exactly the others are pending. |
| Projector.DoneMeansSettled | src/twaky/projector.py:82-160 | When all rows pending at the start have been processed, each has the status its own event calls for and the others are untouched. |
| Projector.NextBatch | src/twaky/projector.py:30-50 | The next batch is the next stretch of the rows pending at the start; nothing is fetched exactly when nothing is left. |
| Projector.Worker.ExecuteCypher | src/twaky/projector.py:56-79 | All statements run in order, or none takes effect when one carries the reserved tag or is refused. |
| Projector.Worker.ProcessRow | src/twaky/projector.py:82-120 | One row: if it was pending it ends failed exactly when its mapper raised or a statement failed, with the graph unchanged, and otherwise processed with its statements run; a row that was not pending keeps its status. |
| Projector.Worker.FetchBatch | src/twaky/projector.py:30-50 | The first pending ids, at most the batch size. |
| Projector.Worker.ProcessBatch | src/twaky/projector.py:143-155 | A batch projects its rows in order. |
| Projector.Worker.Run | src/twaky/projector.py:123-160 | For every batch size of at least one the drain loop ends, with each pending row projected once and in id order, none pending, and each row that was pending failed exactly when its mapper raised or a statement failed, else processed. |
| Projector.Worker.ReplayFrom | src/twaky/projector.py:163-175 | Rows from the given id on become pending again, the others stay; the count is the number of rows that changed. |
| Pipeline.Absorbs | src/twaky/projector.py:163-175 | Projecting an event early does no harm to a later run that covers it. |
| Pipeline.DrainedIsFold | src/twaky/projector.py:123-175 | Over every interleaving of arrivals, batches, crashes and replays that do not cut into a batch, once nothing is pending the graph is the in-order fold of the whole log. |
| Pipeline.RowsAreArrivals | src/twaky/ingest.py:62-79 | Batches, crashes and replays never add, drop or reorder rows. |
| Pipeline.EndToEnd | src/twaky/ingest.py:109-132 | From the queue to the graph: whatever is redelivered and however the workers interleave, once nothing is pending the graph is the fold of the owner's first occurrences in delivery order. |
| Pipeline.ReplayAtCut | src/twaky/projector.py:46-49 | What a replay in mid-batch makes the worker project: the rest of the batch, then the replayed rows, then the rest. |
| Pipeline.InOrderIsHarmless | src/twaky/projector.py:163-175 | A replay with no batch in flight, or at or above it, restores the graph of every log. |
| Pipeline.CutSpoils | src/twaky/projector.py:163-175 | A replay below a batch in flight gives a different graph for a log that toggles one mail flag. |
| Pipeline.ReplayExactlyWhenInOrder | src/twaky/projector.py:163-175 | `replay_from` restores every log's graph if and only if it does not cut into a batch. |
| Missions.Engine.Declare | src/twaky/missions/engine.py:70-99 | A fresh Declared row and its two notifications, or nothing when the id is taken. |
| Missions.Engine.ParkForReview | src/twaky/missions/engine.py:132-209 | The row appears in AwaitingUser with its artifact, never visible as Declared; nothing happens when the id is taken. |
| Missions.Engine.Call | src/twaky/missions/engine.py:102-286 | Each engine call: refused exactly when the guard table forbids it; otherwise the state it is named for, its own reason, plan and artifacts, the rest of the row unchanged, and its notifications. |
| Missions.AcceptedExactly | src/twaky/missions/guards.py:12-37 | From exactly which states each call is accepted. |
| Missions.ArtifactsAreCarried | src/twaky/missions/engine.py:102-286 | In every interleaving the artifacts are the old ones followed, in order, by exactly what each accepted transaction carried: an artifact, a user response with its time and payload, a final list. |
| Missions.RowExactly | src/twaky/missions/engine.py:70-286 | What each transaction makes of a row, field by field, claims and draft writes included. |
| Missions.Engine.ClaimDeclared | src/twaky/daemon/atlas_daemon.py:36-73 | Claims an oldest Declared mission of the owner among those no other transaction has locked, if there is one, and changes nothing else. |
| Missions.ChainBounded | src/twaky/missions/guards.py:12-20 | A history along the guard table is at most twice its artifacts plus a rank of its state long. |
| Missions.WatchTracks | src/twaky/missions/engine.py:102-286 | Every transaction, draft writes included, keeps the versions a chain of guarded steps and draft writes, bounds its length, and keeps it within the table exactly as long as each draft write finds the row Running. |
| Missions.MissionHistory | src/twaky/missions/engine.py:102-286 | In every interleaving, zombie drivers and the unguarded draft write included: old artifacts are a prefix of new ones, Declared is left for good, only a draft write changes a terminal row, and there are at most 2 * artifacts + 3 transitions besides draft writes; versions follow the guard table, a terminal one last, if and only if every draft write finds the row Running. |
| Missions.TerminalIsFinal | src/twaky/missions/guards.py:12-20 | A terminal row keeps its artifacts for ever; it keeps its state if and only if it is Done or no draft write meets it, and the whole row if and only if no draft write meets it or one has already left it so. |
| Missions.DraftLeavesGuardTable | src/twaky/sentinels/mail/extractors/draft_diff.py:56-98 | The draft write takes a waiting mission to Done, which the table forbids, and one that was cancelled since it was looked up from Cancelled to Done. |
| Missions.ClaimedOnce | src/twaky/daemon/atlas_daemon.py:36-73 | A mission is claimed at most once, a parked one never. |
| Delegation.WaiterSound | src/twaky/sentinels/delegation.py:120-204 | In every interleaving a waiter that loops on a terminal mission has a notification queued, to be sent, or lost by a failed send, unless a draft write ended the mission; a result other than a timeout is a terminal state with the mission's final artifacts, and the mission's own state unless a draft write has made it Done since. |
| Delegation.NoLostWakeupExactly | src/twaky/sentinels/delegation.py:120-204 | For every sequence of writes: in all interleavings with them a looping waiter of the ended mission has a wakeup to come, if and only if no draft write meets the mission before it has ended. |
| Delegation.SilentEndReached | src/twaky/sentinels/mail/extractors/draft_diff.py:91-98 | The interleaving that loses the wakeup: all other writes are announced and read at once, and nothing is queued, unsent or lost when the draft write ends the mission. |
| Delegation.SleepsUntilTimeout | src/twaky/sentinels/delegation.py:156-204 | Once asleep so, the waiter returns only when the stream closes or the timeout fires, whatever is written. |
| Delegation.ResultIsFinal | src/twaky/sentinels/delegation.py:120-204 | A terminal result and the artifacts never change after it is returned; the mission stays as it is if and only if no draft write meets it or one has already. |
| Delegation.FinishedIsReturned | src/twaky/sentinels/delegation.py:142-204 | When `finish` ended the mission, a terminal result carries its final artifacts last, and its state unless a draft write came in between. |
| Delegation.CloseReturnsEnd | src/twaky/sentinels/delegation.py:196-204 | A stream that closes on a finished mission still returns its end, and on an unfinished one a timeout. |
| Delegation.WaitEnds | src/twaky/sentinels/delegation.py:156-204 | From every reachable state of a finished mission without a failed send, delivering what is under way makes `delegate` return its end exactly when a notification is queued or unsent, which holds unless a draft write ended it. |
| AtlasRuns.AtlasRunsBounded | src/twaky/agents/atlas/agent.py:29-59 | Over a mission's whole life the Atlas node runs at most the limit plus one plus once per restart, and the counter is reset at most once. |
| AtlasRuns.PastLimitFails | src/twaky/daemon/atlas_daemon.py:237-246 | A mission that nobody interferes with and no restart interrupts, and that passes the limit, is Failed once its driver is through. |
| AtlasRuns.FailuresEnd | src/twaky/daemon/atlas_daemon.py:114-146 | A timeout, a contained exception and a recovery without a checkpoint leave a mission that had not ended Failed. |
| AtlasRuns.ConcludesAsCalled | src/twaky/daemon/atlas_daemon.py:257-303 | Within the limit a driver that is through leaves a Running mission waiting, done or failed, as its last call says. |
| AtlasRuns.ResumeContinues | src/twaky/daemon/atlas_daemon.py:214-235 | A resumed mission goes back to the Atlas node with its checkpointed step count. |
| AtlasRuns.BoundIsReached | src/twaky/daemon/atlas_daemon.py:344-360 | For every limit and every number of restarts some life reaches the limit plus one plus that number. |
| AtlasRuns.LimitHoldsExactlyWithoutRestarts | src/twaky/agents/atlas/agent.py:29-59 | The limit plus one bounds every life with a given number of restarts if and only if that number is zero. |
| TokenCache.CachedTokensAreRecent | src/twaky/oauth/refresh_manager.py:80-99 | In every interleaving a token returned from the cache was obtained from the row or a refresh less than 30 s before, with no invalidation in between. |
| TokenCache.RefreshManager.TakeRow | src/twaky/oauth/refresh_manager.py:89-102 | A row is served and cached exactly when it expires more than 60 s from now. |
| TokenCache.RefreshManager.Enter | src/twaky/oauth/refresh_manager.py:139-155 | The lock is kept only on a cold cache; a warm one is served at once. |
| TokenCache.RefreshManager.Finish | src/twaky/oauth/refresh_manager.py:198-208 | The refreshed token is cached with the present time and the lock released. |
| TokenCache.RefreshManager.Invalidate | src/twaky/oauth/refresh_manager.py:108-113 | The cache is emptied, the lock stays with its owner. |
| TokenCache.SingleFlight | src/twaky/oauth/refresh_manager.py:139-208 | In every interleaving at most one token POST is in flight; between invalidations refreshes are at least 30 s apart and no POST follows one sooner. |
| TokenCache.ServedTokensLast | src/twaky/oauth/refresh_manager.py:71-102 | If each refresh outlives 60 s plus its database write, every token ever returned has more than 30 s left. |
| TokenCache.LastsExactlyWhenLongLived | src/twaky/oauth/refresh_manager.py:192-208 | When a refresh ends, all that can be served later has more than 30 s left if and only if that refresh was long-lived. |
| TokenCache.TokensAreTheRightOnes | src/twaky/oauth/refresh_manager.py:157-208 | In every interleaving each POST carries the refresh token its own row read found, and each token obtained is the one in the row that was read or in the answer that was given. |
| TokenCache.RotationIsKept | src/twaky/oauth/refresh_manager.py:192-204 | Without other writers the row holds the last saved answer's access token and the last non-empty refresh token any saved answer carried, else the first one. |
| TokenCache.RowServedExactly | src/twaky/oauth/refresh_manager.py:88-102 | After its read `get_access_token` serves and caches the row's token exactly if it expires more than a minute from now, and else goes on to refresh. |
| TokenCache.ForceHonoursWarmCache | src/twaky/oauth/refresh_manager.py:104-155 | From any state with a warm cache and a free lock, over every uninvalidated run within the time to live, no call POSTs or keeps the lock, plain, forced or already queued; and unless a row read was under way all of them return the cached token. |
| TokenCache.OwnNoticeDefeatsSingleFlight | src/twaky/oauth/refresh_manager.py:139-155 | After an invalidation a queued coroutine POSTs again, however recent the refresh; without it the warm cache is served. |
| Registry.ReadsWrongOnlyFor | src/twaky/sentinels/registry.py:39-79 | At any moment `get` gives the database's row, and `list_enabled` the row exactly if it is enabled, unless that name has a notification under way or lost or was straddled. |
| Registry.SentinelRegistry.Get | src/twaky/sentinels/registry.py:39-60 | An uninterrupted `get` answers from the cache, else from the database; the cache then holds the answer and nothing else has changed. |
| Registry.SentinelRegistry.Insert | src/twaky/sentinels/registry.py:49-60 | A fetched row is cached; an absent one leaves the cache alone. |
| Registry.SentinelRegistry.EnabledCached | src/twaky/sentinels/registry.py:67-69 | The enabled cached rows, once the set has been loaded. |
| Registry.SentinelRegistry.InsertEnabled | src/twaky/sentinels/registry.py:71-79 | The fetched rows replace their entries and the set counts as loaded. |
| Registry.SentinelRegistry.Invalidate | src/twaky/sentinels/registry.py:81-89 | One entry goes, and the set counts as not loaded. |
| Registry.DeliverKeeps | src/twaky/sentinels/config_listener.py:66-80 | Delivering a notification repairs its name and keeps the others accounted for. |
| Registry.StoreKeeps | src/twaky/sentinels/registry.py:49-79 | Storing a fetched row or set leaves every wrong name noticed or straddled. |
| Registry.StaleOnlyFor | src/twaky/sentinels/registry.py:39-95 | In every interleaving a stale entry, or an enabled row missing from a loaded set, has a notification of its name under way or lost, or was read before and stored after the last invalidation of that name. |
| Registry.QuietIsExact | src/twaky/sentinels/registry.py:39-79 | With nothing under way, lost or straddled, `list_enabled` is the database's enabled set and `get` its rows. |
| Registry.AtomicStaleOnlyFor | src/twaky/sentinels/registry.py:39-95 | With atomic fetches only a notification under way or lost explains a stale name. |
| Registry.StraddleGoesStale | src/twaky/sentinels/registry.py:49-60 | For every row and change a straddling fetch ends with the old row cached and nothing under way. |
| Registry.GapGoesStale | src/twaky/sentinels/config_listener.py:44-110 | A change whose notification fell into a reconnect stays invisible. |
| Idempotency.RunTable.Dispatch | src/twaky/sentinels/runtime.py:250-416 | A delivery by itself: processed exactly when no row of its event is in the window, one new completed row, acknowledged exactly when its outcome is not Error. |
| Idempotency.RowExactly | src/twaky/sentinels/runtime.py:314-416 | A delivery leaves a completed row, ignored if a run of the event started within 24 hours, however it ended, else with the outcome of `process`. |
| Idempotency.RedeliveryAcknowledged | src/twaky/sentinels/runtime.py:261-341 | In any reachable state a redelivery within the window runs through to a completed ignored row of its own and its acknowledgement, without a call. |
| Idempotency.NewEventIsProcessed | src/twaky/sentinels/runtime.py:343-356 | In any reachable state an event not seen within the window is inserted with the present time and goes to `process`. |
| Idempotency.ReturnIsRecorded | src/twaky/sentinels/runtime.py:390-416 | What `process` returns ends up in its row, and is acknowledged exactly if it is no Error. |
| Idempotency.ErrorsNotAcknowledged | src/twaky/sentinels/runtime.py:258-262 | Over every run no Error is acknowledged. |
| Idempotency.RunTable.PurgeOldRuns | src/twaky/sentinels/repository.py:381-390 | Exactly the rows older than the retention go, and the count is right. |
| Idempotency.ProcessedExactlyAfterQuietDay | src/twaky/sentinels/repository.py:327-359 | After any deliveries the next one is processed if and only if none came within 24 hours, ignored and failed ones included. |
| Idempotency.CallsAreADayApart | src/twaky/sentinels/runtime.py:270-416 | In every interleaving of deliveries, crashes and purges, two runs of one event start 24 hours apart unless the later one looked before the earlier one had inserted its row. |
| Idempotency.OverlapProcessesTwice | src/twaky/sentinels/runtime.py:314-356 | Two deliveries that both look before either inserts may both process the event. |
| Idempotency.PurgeSparesWindowExactly | src/twaky/sentinels/repository.py:381-390 | Purging never hides a row from a present or later check if and only if the retention is at least one day. |
| Observer.MailObserver.RunTick | src/twaky/sentinels/mail/observer.py:114-176 | A tick bootstraps, does nothing after a failed call, or hands over every email of the answer and then moves the cursor. |
| Observer.TickIsRun | src/twaky/sentinels/mail/observer.py:148-176 | An uninterrupted tick has the effect of its single steps. |
| Observer.CursorHasNoGaps | src/twaky/sentinels/mail/observer.py:137-176 | Over every run with failures and crashes, each email created or updated between bootstrap and cursor was handed over in an answer covering that change, or destroyed since. |
| Observer.CursorNeverMovesBack | src/twaky/sentinels/mail/observer.py:137-176 | The stored state never moves back, given a server that never answers with a state older than the one asked about; the observer stores whatever state it is given. |
| Observer.HandedOnceExactly | src/twaky/sentinels/mail/observer.py:148-176 | In crash-free runs a change is handed over twice only if some answer repeated an email, and between ticks exactly when one that covers a change did. |
| Observer.CreatedAndUpdatedTwice | src/twaky/sentinels/mail/observer.py:155-162 | An email that a server lists as created and as updated is handed over twice for each change, without any crash. |
| Broker.SSEBroker.PutDroppingOldest | src/twaky/api/sse/broker.py:75-93 | The event is put; a full queue loses its oldest event. |
| Broker.SSEBroker.Broadcast | src/twaky/api/sse/broker.py:70-72 | Every subscriber's queue takes the event, in whatever order the snapshot lists them. |
| Broker.QueueAccounted | src/twaky/api/sse/broker.py:40-93 | Each queue is a suffix of the broadcasts since its subscription within its bound, what was consumed is an in-order selection of what came before, and consumed, lost and queued add up to all. |
| Broker.NothingLostExactly | src/twaky/api/sse/broker.py:75-93 | Consumed followed by queued is the whole history if and only if at every put fewer than `maxsize` events were queued, or there is no bound. |
| Pending.LatestIn | src/twaky/agents/atlas/pending.py:40-54 | The loop finds the newest request of the window. |
| Pending.HumanAfter | src/twaky/agents/atlas/pending.py:55-60 | The loop finds whether a human message follows the request. |
| Pending.ExtractPending | src/twaky/agents/atlas/pending.py:21-61 | A request is returned if and only if it is the newest of the whole history, no human message follows it, and it is among the last six messages. |
| Pending.RequestExactly | src/twaky/agents/atlas/pending.py:37-53 | What counts as a request, and the window of six. |
| Pending.ResumeNeedsNewRequest | src/twaky/daemon/atlas_daemon.py:215-266 | After a resume only a request made at or after the answer is reported. |
| Pending.OldRequestDropped | src/twaky/agents/atlas/pending.py:37-39 | An unanswered request further back than six messages is dropped. |
| Rules.ExtractEnvelopeHeaders | src/twaky/sentinels/mail/nodes.py:1589-1601 | The dictionary loop captures the first occurrence of each whitelisted header. |
| Rules.AndSplits | src/twaky/sentinels/mail/nodes.py:192-196 | An AND rule over two groups of conditions matches exactly when the rules over either group both match. |
| Rules.OrSplits | src/twaky/sentinels/mail/nodes.py:197-201 | An OR rule, exactly when one of them does. |
| Rules.TakenByEachCondition | src/twaky/sentinels/mail/nodes.py:192-201 | An email that an AND rule takes live would be taken by each of its conditions alone. |
| Rules.OperatorsExactly | src/twaky/sentinels/mail/nodes.py:153-174 | What each operator asks of the field's value. |
| Rules.HeaderExactly | src/twaky/sentinels/mail/nodes.py:142-149 | A header field is the first header of that name in any case, else empty. |
| Rules.FirstMatchExactly | src/twaky/sentinels/mail/nodes.py:295-305 | The static stage picks the first rule that matches, if one does. |
| Rules.CapturedValue | src/twaky/sentinels/mail/nodes.py:1577-1601 | A captured value is what the live matcher reads for that header. |
| Rules.CapturePreservesVerdict | src/twaky/api/routers/mail_sentinel.py:312-337 | On rules over surviving fields the envelope rebuilt from the stored row gets the original email's verdict, for every operator, combinator and order of the stored headers. |
| Rules.SurvivesExactly | src/twaky/sentinels/mail/nodes.py:115-150 | A field has the same value on every rebuilt envelope if and only if it is not `to`, not `body` and not a header outside the whitelist. |
| Rules.FindShadower | src/twaky/api/routers/mail_sentinel.py:430-447 | The shadow loop finds the first earlier rule that matches. |
| Rules.ProposeRule | src/twaky/api/routers/mail_sentinel.py:373-484 | Counts, the set of shadowing rules, the first ten examples and the two partial flags equal their definitions. |
| Rules.MatchedExactly | src/twaky/api/routers/mail_sentinel.py:406-428 | The counted decisions are exactly those the proposal matches on their rebuilt envelope, in order. |
| Rules.ShadowedExactly | src/twaky/api/routers/mail_sentinel.py:430-451 | The shadowed ones are exactly those a smaller-priority rule matches. |
| Rules.ReportShowsExamples | src/twaky/api/routers/mail_sentinel.py:453-464 | The first ten are shown as stored, with the first smaller-priority rule that matches. |
| Rules.PartialExactly | src/twaky/api/routers/mail_sentinel.py:410-447 | Exactly when a decision makes the preview partial. |
| Rules.PreviewAgreesWithLive | src/twaky/sentinels/mail/nodes.py:292-306 | With rules in the store's order by priority and name, on an email the proposal matches the live static stage picks the reported shadowing rule, or the proposal when none is reported, if and only if a strictly smaller priority matches, or the proposal is enabled and no matching rule of its priority has a smaller name. |
| Rules.TieHidesShadower | src/twaky/api/routers/mail_sentinel.py:378-379 | A rule of the same priority and a smaller name takes the email live, and the preview reports no shadowing rule. |
| Rules.PreviewPredictsLive | src/twaky/api/routers/mail_sentinel.py:373-466 | End to end: the stored row tells whether the proposal matches the original email, and what the live static stage does with it, exactly when the stored row passes that guard. |
| Rules.RecipientRuleMissesSilently | src/twaky/api/routers/mail_sentinel.py:406-420 | A proposal on `to` misses stored decisions it would match live, with neither partial flag raised. |
| Rules.UncapturedHeaderMissesSilently | src/twaky/api/routers/mail_sentinel.py:406-420 | The same for a proposal on a header outside the whitelist, when other headers were captured. |
| FreeSlot.Collect | src/twaky/agents/chronos/tools.py:125-130 | The collected conflicts are those of all participants. |
| FreeSlot.NextFreeSlot | src/twaky/agents/chronos/tools.py:115-150 | The method sweeps the sorted conflicts once; it raises when the window, or a timestamp it reaches, does not parse or would be mixed with one of the other kind, naive or aware. |
| FreeSlot.RaisesExactly | src/twaky/agents/chronos/tools.py:142-150 | The sweep raises if and only if, before any gap, it reaches a conflict whose start, or then whose end, does not parse or is of the other kind, or finds no gap and the end of the window is so. |
| FreeSlot.SortSorted | src/twaky/agents/chronos/tools.py:131 | Sorting by text. |
| FreeSlot.SweepTextParsed | src/twaky/agents/chronos/tools.py:136-150 | When all timestamps parse and are of the window's kind, the sweep over text is the sweep over instants. |
| FreeSlot.SweepEarliest | src/twaky/agents/chronos/tools.py:138-150 | In any order: no start before the answer is free, and without an answer none in the window is. |
| FreeSlot.SoundExactlyWhenOrderServes | src/twaky/agents/chronos/tools.py:138-150 | For every list of conflicts and every window end: all answers, for every window start and positive duration, lie in the window and are free, if and only if the order serves the sweep and no gap opens before a conflict that starts after the window. |
| FreeSlot.SlotCorrect | src/twaky/agents/chronos/tools.py:90-150 | When the window's end and the starts that the text filter lists share one format, the answer lies in the window, is free and is the first such, and no answer means there is none. |
| FreeSlot.MixedOffsetsFail | src/twaky/agents/chronos/tools.py:131-150 | With mixed UTC offsets the sweep offers a slot that overlaps a conflict. |
| FreeSlot.LateConflictFails | src/twaky/agents/chronos/tools.py:90-145 | A conflict whose offset differs from the window's passes the text filter, and with its parsed times the sweep offers a slot that runs past the window. |
| FreeSlot.FilteredExactly | src/twaky/agents/chronos/tools.py:90-95 | The text filter lists exactly the events that start, as text, within the window. |
| FreeSlot.FreeOfAllExactly | src/twaky/agents/chronos/tools.py:84-150 | With all starts and the window in one format, the answer hits no event of the participants, listed or not, if and only if no event that began before the window is still under way at the answer's start. |

## Left out

- Cypher text, JSON rendering and dollar quoting; statements are syntax trees. A statement is taken to contain
  the reserved tag when one of its literals does.
- Graphs that already hold duplicates before the projector starts, and two projectors at once.
- `find_conflicts`, the graph query behind `next_free_slot`: its results are inputs, of which `FreeSlot.SlotCorrect`
  and `FreeSlot.FreeOfAllExactly` assume the query's text filter. Deleted events and events without a start are
  not among the inputs.
- The wait between polls of the drain loop, signals and logging.
- Projector.Worker.Run: ends when nothing is pending, where the source without `once` sleeps and polls again.
- Tracing and the notification of a commit that fails to send, except in `Delegation`, where it may be lost.
- Two drivers of one mission inside the graph at once, which a resume during a timed-out call can cause.
- Whether a resumed mission is ever picked up: there is no sweep for Running missions.
- Token managers shared by several event loops, through the synchronous wrappers; decryption failures.
- Registry.SentinelRegistry.EnabledCached: gives rows by name and not the order of the list.
- Inserts and deletes of sentinels, which send no notification.
- The semaphore that bounds concurrent deliveries, and the trace list that concurrent deliveries share.
- Server answers to the observer that name no new state, or that break section 5.2 of RFC 8620; what `_dispatch`
  does with an email; style analysis.
- The live matcher's stages before the static one, thread continuity and learned patterns, and the language model
  after it.
- A proposal whose name is taken: the store refuses it.
- When the draft extractor writes: how it finds a mission and what it makes of the draft.
- Observer.CursorNeverMovesBack: rests on a server that never answers with an older state, because the observer
  stores whatever state it is given.
- Spam heuristics, drafting, memories, skills, the other routers, configuration, the command line and the frontend.
- `LLMCircuitBreaker` and the restore of mail from Junk.
