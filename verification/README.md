# Verification model of RRCP

RRCP is a server for multi-party chat threads with assistants. A run is one execution of an
assistant's handler. Its Python server drives runs with `asyncio`, keeps `runs`, `events` and
members in Postgres, and broadcasts over Socket.IO; its React client merges live pushes with
replays. This project models that logic in Dafny and proves what it keeps over every
interleaving, every run and every input.

`dafny verify dfyconfig.toml` checks everything.

## What is modelled

- **The run protocol** (`Protocol`): a state machine in which any number of coroutines are inside
  `execute`, `publish_event` and `_drive`. Each stretch of code between two awaits is one atomic
  step. At any step a coroutine may be interrupted (a cancel, the run's deadline, a failing
  statement), membership may change, and the authorize callback may answer either way. A handler
  is an arbitrary sequence of yields, stream operations and invocations with an arbitrary outcome.
  Fields marked history record the past for the theorems and decide nothing. On top of it:
  `Invariant` (the inductive invariant), `Exclusivity` (the `runs` table and stuck runs),
  `Linearization` (`execute`), `Trace` (the events of a run), `Outcomes` (what each outcome of a
  handler leaves), `Authorship` and `Provenance` (whose events and rows are logged), `Streams`,
  `Cascade` (the bound on auto-invoked runs), `EventLog` (the single write path), `Delivery` (from
  the log to the broadcast channel), `AutoInvoke` (the recipient loop) and `Context`
  (`query_event`). `Witness` gives concrete executions that reach the states in which a run goes
  wrong.
- **The same operations as objects**: `Store`, `Executor`, `Server` and `HandlerStream` are classes
  whose methods update their fields in place. At every await of `execute`, `_drive`,
  `invoke_from_handler` and `publish_event` an environment changes tables, members, threads,
  handlers and dicts in any way the protocol allows, and may deliver a fault. It records the worlds
  met, the faults delivered and every change that the coroutine made itself (`EventLoop`), and the
  contracts of the methods speak about these records. `Calls` says what one call of `execute`
  returns and does, `Job` what faults make of a run, `RecipientLoop` what the recipient loop did
  and what it comes to undisturbed.
- **Log, pages, replay, replica**: `Paging` and `Listing` (keyset pagination, the capped replay),
  `ThreadStore` (the client's merge) and `Replication` (publish, join and delivery as a second
  state machine). One total order on (`created_at`, `id`) is shared by both sides.
- **Codecs**: `Namespace` (paths and routing), `Mentions` (the `@name` scanner), `Recipients`,
  `Tenant`.

## What the code does against its documentation

- The empty idempotency key is skipped by lookups but stored and indexed. An undisturbed call with
  it raises the unique violation when another row of the thread holds it and the pair has no
  active run (`Linearization.UndisturbedOutcome`, `Linearization.RaisesOnlyIfRunEnded`).
- A run gets stuck, active for ever and found by every later lookup for its assistant, exactly when
  its claimant is interrupted between the insert and the start of the driver, before the driver's
  first step, or at the status write of a handler clause (`Exclusivity.StuckExactly`,
  `Exclusivity.StuckRunBlocks`, `Witness.StrandingHappens`).
- A cancel after `run.completed` is logged rewrites the row to `cancelled` and adds a second
  terminal event (`Trace.LateCancelAddsTerminal`, `Witness.LateCancelHappens`);
  `Trace.RunTraceGrammar` says exactly when the events of a run are in order.
- Exactly the events whose publication is interrupted between append and broadcast are never
  broadcast (`Delivery.DroppedExactly`, `Witness.DroppingHappens`).
- The event of a stream disagrees with its deltas exactly when the buffer holds text that was not
  sent: from an earlier entry of the same object, or from an `append` that a fault struck before
  its delta was sent (`HandlerStream.Stream.Exit`).
- A publication to a thread whose tenant has no namespace path, or whose auto-invocation raises,
  fails although its event is in the log (`Server.ThreadServer.PublishEvent`).
- A client that shows nothing sends no cursor and is replayed nothing
  (`Replication.EmptyClientNeedsEmptyPast`); a gap that a truncated replay leaves before the last
  event shown is never closed by later joins (`Replication.GapSurvivesRejoin`,
  `Replication.GapsHappen`).
- `query_event` documents a walk back from the most recent event, but reads the oldest 50: an
  auto-invoked handler finds its question exactly when that is among them
  (`Context.AutoInvokedFindsQuestion`).
- `validate_namespace_value` accepts a final newline (`Namespace.ValidValueExactly`), and a
  session on a path with superfluous slashes passes the namespace check but is on another
  Socket.IO namespace than the broadcasts (`Namespace.RoutingAgrees`).

## Model

| member | source | states |
|---|---|---|
| RunTable.FindActive | packages/rrcp-py/src/rrcp/store/postgres/store.py:252-265 | the answer is an active row of the thread and assistant; None only if there is none |
| RunTable.FindByKey | packages/rrcp-py/src/rrcp/store/postgres/store.py:239-250 | the answer is a row of the thread that holds the key; None only if there is none |
| RunTable.LookupMeaning | packages/rrcp-py/src/rrcp/store/postgres/store.py:239-265 | both lookups in the columns of the table: a hit has this thread and assistant and status pending or running, or this thread and key; None means that no row has |
| RunTable.QueriesAreFunctional | packages/rrcp-py/src/rrcp/store/postgres/schema.sql:23-28 | while both unique indexes hold, any matching row is the one answer of both lookups |
| RunTable.InsertKeepsIndexes | packages/rrcp-py/src/rrcp/store/postgres/schema.sql:23-28 | an insert the indexes admit keeps both |
| RunTable.WriteKeepsIndexes | packages/rrcp-py/src/rrcp/store/postgres/store.py:214-237 | a status write that does not revive a finished row violates no index |
| Store.PostgresThreadStore.CreateRun | packages/rrcp-py/src/rrcp/store/postgres/store.py:181-200 | appends the row exactly when no other active row has its thread and assistant (if it is active itself) and no row of the thread has its key, otherwise a unique violation and no change |
| Store.PostgresThreadStore.UpdateRunStatus | packages/rrcp-py/src/rrcp/store/postgres/store.py:214-237 | changes only that row: status and error overwritten, `completed_at` stamped on terminal and kept otherwise; a missing row is an error; the active index refuses it exactly when it would revive the row beside another active one |
| Store.PostgresThreadStore.AppendEvent | packages/rrcp-py/src/rrcp/store/postgres/store.py:97-133 | appends exactly when the id is unused, otherwise no change |
| Store.PostgresThreadStore.AddMember | packages/rrcp-py/src/rrcp/store/postgres/store.py:267-298 | an existing member keeps its row and is what is returned; other threads unchanged |
| Store.PostgresThreadStore.RemoveMember | packages/rrcp-py/src/rrcp/store/postgres/store.py:300-306 | removes that member only |
| Invariant.InvAlways | packages/rrcp-py/src/rrcp/handler/executor.py:92-238 | in every reachable state: indexes hold, rows coherent, each coroutine fits its row, at most one claimant per row, both dicts list exactly the unfinished drivers |
| Exclusivity.ExclusiveAlways | packages/rrcp-py/src/rrcp/handler/executor.py:120-135 | over all runs: two rows of one thread and assistant are never both pending or running, no two rows of a thread share a key, at most one driver per row, and `_tasks` and `_chain_depths` have equal keys |
| Exclusivity.RowsEvolve | packages/rrcp-py/src/rrcp/handler/executor.py:164-238 | between any two moments rows persist, keep their identity and never fall in status rank; `completed_at` iff terminal, `error` iff failed, under late cancels and store failures too |
| Exclusivity.StuckOnlyByStranding | packages/rrcp-py/src/rrcp/handler/executor.py:120-140 | an active row becomes stuck by a step if and only if the step interrupts its claimant between insert and start, before the driver's first step, or at the status write of a handler clause |
| Exclusivity.StuckExactly | packages/rrcp-py/src/rrcp/handler/executor.py:219-238 | over whole executions a row is stuck if and only if some earlier step stranded it |
| Exclusivity.StuckRunBlocks | packages/rrcp-py/src/rrcp/handler/executor.py:107-109 | a stuck row stays active for ever and every later active-run lookup of its pair returns it |
| Witness.StrandingHappens | packages/rrcp-py/src/rrcp/handler/executor.py:120-140 | concrete executions reach each of the three exposed places, and a cancel there strands the run |
| Linearization.ExecuteLinearizes | packages/rrcp-py/src/rrcp/handler/executor.py:102-135 | under any interleaving a call returns the row it inserted during the call, pending and with exactly its thread, assistant, triggerer and key, or one that was active for its pair or held its key at a moment of the call; it raises only after a moment that refused its row |
| Linearization.RaisesOnlyIfRunEnded | packages/rrcp-py/src/rrcp/handler/executor.py:120-130 | a re-raise means an active run of the pair ended between a moment of the call that refused the insert and a later one without an active run, or the key is empty and some row held it |
| Linearization.KeyIsIdempotent | packages/rrcp-py/src/rrcp/handler/executor.py:102-105 | once a row holds a truthy key, every later-starting call with that key returns that row |
| Linearization.UndisturbedOutcome | packages/rrcp-py/src/rrcp/handler/executor.py:102-135 | sequential meaning: raises iff the key is empty, held, and the pair idle; creates iff the indexes admit the row; a held key wins |
| Executor.RunExecutor.Execute | packages/rrcp-py/src/rrcp/handler/executor.py:92-135 | with tables, members and dicts changing and faults arriving at every await: the result is justified by worlds met in the call, a key held at the first of them decides, the call itself does nothing but one insert and one entry in both dicts for a created run, it is interrupted exactly when a fault strikes it, one at the insert and only that leaves a pending row without a task, and an undisturbed call is the lone call |
| Executor.RunExecutor.Insert | packages/rrcp-py/src/rrcp/handler/executor.py:111-135 | either inserts the row into a table that admits it and starts its driver, or recovers without a change of its own, or is interrupted, with an orphan exactly if the fault struck after the insert |
| Calls.LoneIsAlone | packages/rrcp-py/src/rrcp/handler/executor.py:102-135 | the result that an undisturbed call of the class has is the one that the steps of the protocol compose to |
| Calls.CallMeaning | packages/rrcp-py/src/rrcp/handler/executor.py:102-135 | what a call of the class returns and leaves, in fields: a created row is pending, has the arguments of the call and a driver at its depth; an existing one was active for the pair or held the key in a world met; an orphan is pending and has no task |
| Executor.RunExecutor.Lookup | packages/rrcp-py/src/rrcp/handler/executor.py:102-109 | a hit matched the request in a table met; a held truthy key decides |
| Executor.RunExecutor.Recover | packages/rrcp-py/src/rrcp/handler/executor.py:122-130 | after the refused insert: a row that matches, or a raise after a table without an active run and, for a key, one without the key |
| Executor.RunExecutor.InvokeFromHandler | packages/rrcp-py/src/rrcp/handler/executor.py:70-90 | errors exactly without a resolver, for an assistant not registered when asked, and for one that is no assistant member in the world the member read met, having done nothing; otherwise a justified keyless call at depth 0, with what such a call does |
| Executor.RunExecutor.Drive | packages/rrcp-py/src/rrcp/handler/executor.py:164-238 | the faults that hit the run are exactly those that its awaits delivered, a refused event id that was in use, and the outcome of its handler; they determine the row, the events and what the task raises. Unless they spoilt the events, the last one is `run.completed`, `run.failed` or `run.cancelled` exactly as the row is completed, failed or cancelled. Unless a fault struck a handler clause or the cleanup, row, error code, last event and re-raise are those of the table: returned, cancelled, ordinary exception (`handler_error`), `TimeoutError` or deadline (`timeout`, not raised again). Every event is in the thread of the run and comes from its assistant. The row stays active if and only if a fault struck the status write of a handler clause before the row was completed; nothing but the run is touched, and both dict entries go unless the cleanup is struck |
| Job.LeftIsClosed | packages/rrcp-py/src/rrcp/handler/executor.py:164-238 | what the hits leave is `run.started`, handler events and the one terminal event for the status of the row, if and only if no hit kept out the first or last event or came after a logged `run.completed` |
| Job.LeftTable | packages/rrcp-py/src/rrcp/handler/executor.py:217-233 | the table per cause: status, error code, terminal event and re-raise for a handler that returns, an ordinary exception, a `TimeoutError`, a passed deadline and a cancel |
| Executor.RunExecutor.TryExcept | packages/rrcp-py/src/rrcp/handler/executor.py:164-234 | the `try` block and its handler clauses: row, events and what is raised for every combination of delivered faults, refusals and handler outcome; with no fault in a clause, the line of the table of outcomes; timeouts are not raised again |
| Executor.RunExecutor.EndRun | packages/rrcp-py/src/rrcp/handler/executor.py:217-233 | a final status and error code written and the event of that very status logged last, `run.completed`, `run.failed` or `run.cancelled`, with the given id; or the one fault that an await delivered or the store refused, with what it leaves |
| Executor.RunExecutor.Consume | packages/rrcp-py/src/rrcp/handler/executor.py:211-215 | logs exactly the events of the first yields, in order, up to the one that failed or all of them, and ends with a delivered fault, a refusal or the outcome of the handler |
| Executor.RunExecutor.Publish | packages/rrcp-py/src/rrcp/handler/executor.py:53-60 | the run gains exactly this event or nothing; a return without a fault means it was logged; a fault was delivered by an await, or the id was in use |
| Linearization.AloneShape | packages/rrcp-py/src/rrcp/handler/executor.py:102-135 | the steps of an undisturbed call compose to: held key, else active run, else insert, else raise |
| Trace.RunTraceGrammar | packages/rrcp-py/src/rrcp/handler/executor.py:164-238 | a finished run has `run.started`, then handler events, then exactly one terminal event, if and only if no interruption spoilt it; that event is `run.completed` iff the row is completed, `run.cancelled` iff cancelled and `run.failed` iff failed |
| Trace.RunEventsMeaning | packages/rrcp-py/src/rrcp/handler/executor.py:53-60 | the events of a run are the events of the log that name it, each once, in append order |
| Outcomes.OutcomeTable | packages/rrcp-py/src/rrcp/handler/executor.py:215-233 | on the machine, if only the handler was interrupted: what became of the handler gives the status, the error code and the last event of the run, for a return, an ordinary exception, a `TimeoutError`, a passed deadline and a cancel |
| Outcomes.OutcomeRow | packages/rrcp-py/src/rrcp/handler/executor.py:215-233 | status and error code follow the outcome of the handler even after interruptions before it |
| Authorship.RunEventsAreSigned | packages/rrcp-py/src/rrcp/handler/executor.py:206-215 | in every reachable state each event that names a run is in the thread of the run and comes from its assistant: lifecycle events, yields and the events of closing streams |
| Provenance.LoggedWasPublished | packages/rrcp-py/src/rrcp/server/thread_server.py:130-143 | every logged event is, field by field, one that an earlier step started to publish, with its recipients normalized |
| Provenance.RunWasRequested | packages/rrcp-py/src/rrcp/handler/executor.py:92-120 | every row has the thread, assistant, triggerer and key that an earlier step asked for |
| Trace.HandlerOutcomesClose | packages/rrcp-py/src/rrcp/handler/executor.py:215-234 | interruptions confined to the handler never spoil a run, whatever its outcome |
| Trace.LateCancelAddsTerminal | packages/rrcp-py/src/rrcp/handler/executor.py:217-221 | a cancel after `run.completed` is logged rewrites the row and adds a second terminal event |
| Witness.LateCancelHappens | packages/rrcp-py/src/rrcp/handler/executor.py:217-221 | a concrete execution that reaches such a cancel |
| Streams.StreamContentAgrees | packages/rrcp-py/src/rrcp/handler/stream.py:63-116 | a persisted streamed event has the id of a stream of its run whose start frame, deltas and error-free end frame are on the wire in this order, and its text is the concatenation of these deltas |
| Streams.StreamsNestInRuns | packages/rrcp-py/src/rrcp/handler/stream.py:50-93 | at a run's terminal event every stream of the run has had its one end frame after its deltas, and no stream frame follows |
| Streams.StreamsClose | packages/rrcp-py/src/rrcp/handler/stream.py:75-93 | on completion, error, cancel and timeout a driver past its handler has no open stream, and frames are never out of order |
| Streams.FaultEndsStream | packages/rrcp-py/src/rrcp/handler/stream.py:75-93 | a stream that a fault closes ends with `handler_error` for an ordinary exception, `timeout` for a `TimeoutError` and `cancelled` for a cancel or a passed deadline |
| Streams.LifeMeaning | packages/rrcp-py/src/rrcp/handler/stream.py:50-93 | what the life of a stream is in frames: one start frame, then only its deltas with the concatenated text, then at most one end frame |
| HandlerStream.Stream.Enter | packages/rrcp-py/src/rrcp/handler/stream.py:50-61 | a new id; the start frame is sent unless a fault strikes before it; the buffer keeps what it had, which is not on the wire |
| HandlerStream.Stream.Append | packages/rrcp-py/src/rrcp/handler/stream.py:63-73 | empty text does nothing; other text enters the buffer and is sent as one delta, and is lost to the wire exactly when the send is struck before it is done |
| HandlerStream.Stream.Exit | packages/rrcp-py/src/rrcp/handler/stream.py:75-123 | the end frame, with the code of the exception if there is one; only without one and after an end that did not raise, one event whose id is the id of the start frame, with the thread, run, author and kind of the stream, no recipients and the buffer as its text, which agrees with the deltas if and only if none of the buffer was lost to the wire |
| Cascade.RecordedDepthsBounded | packages/rrcp-py/src/rrcp/server/thread_server.py:181-185 | every recorded depth is at most 8 |
| Cascade.PotentialNeverGrows | packages/rrcp-py/src/rrcp/server/thread_server.py:181-208 | no step of any coroutine raises rows-created plus the weight of work still to do, for disciplined handlers |
| Cascade.WeightIsGeometric | packages/rrcp-py/src/rrcp/server/thread_server.py:23 | the weight W(8)=1, W(d)=1+MR W(d+1) is the geometric sum |
| Cascade.CascadeBound | packages/rrcp-py/src/rrcp/server/thread_server.py:171-208 | in every interleaving one root message leads to at most R(1+MR+...+(MR)^7) runs, counted as the rows born of the message |
| Cascade.RootsFollow | packages/rrcp-py/src/rrcp/server/thread_server.py:171-208 | what born of means: a coroutine from outside is its own root, a driver has the root of the coroutine that started it, and a row is born of the root of the coroutine that inserted it |
| EventLog.LogInvariant | packages/rrcp-py/src/rrcp/server/thread_server.py:130-151 | every logged event has a unique id and absent or well-formed recipients, and the call that logged it had met one state in which all of them were members; nothing is broadcast before it is logged |
| EventLog.AutoInvokedWasAsked | packages/rrcp-py/src/rrcp/server/thread_server.py:187-208 | a run at depth above 0 was started by the recipient loop of one message, which is in the log and in the thread of the run, comes from the identity that triggered the run and has its assistant among the recipients |
| EventLog.MemberKeepsItsRow | packages/rrcp-py/src/rrcp/store/postgres/store.py:267-298 | as long as an identity stays a member of a thread it stays the assistant or the user it was added as, whatever is added again |
| Delivery.DroppedExactly | packages/rrcp-py/src/rrcp/server/thread_server.py:143-151 | an event is logged, never broadcast and without a sender if and only if an earlier step interrupted its publication between append and broadcast |
| Delivery.LoggedIsAccounted | packages/rrcp-py/src/rrcp/server/thread_server.py:143-151 | every logged event is on the wire, or about to be sent by one coroutine, or dropped by an interruption |
| Delivery.InterruptDropsBroadcast | packages/rrcp-py/src/rrcp/server/thread_server.py:143-151 | after such an interruption the event is in the log and off the wire in every later state |
| Witness.DroppingHappens | packages/rrcp-py/src/rrcp/server/thread_server.py:143-151 | a concrete execution that drops an event |
| Recipients.NormalizedShape | packages/rrcp-py/src/rrcp/protocol/recipients.py:10-28 | no author, no empty id, no repetition; None iff nobody else is named; otherwise the unique list of the named ids in first-occurrence order |
| Recipients.NormalizeIdempotent | packages/rrcp-py/src/rrcp/protocol/recipients.py:10-28 | normalizing twice is normalizing once |
| Recipients.NormalizeRecipients | packages/rrcp-py/src/rrcp/protocol/recipients.py:15-28 | the loop with its set computes that list |
| Deduplication.DedupExactly | packages/rrcp-py/src/rrcp/protocol/recipients.py:19-27 | a list is the dedup iff it holds exactly the wanted items in first-occurrence order |
| AutoInvoke.AutoInvokeExactly | packages/rrcp-py/src/rrcp/server/thread_server.py:153-208 | invoked are, once each and in recipient order, exactly the recipients with handler, authorization and assistant membership; nobody for a broadcast, a non-message or a parent at depth 8 |
| AutoInvoke.LoopDecidesExactly | packages/rrcp-py/src/rrcp/server/thread_server.py:187-208 | under any interleaving the loop takes the recipients in order, once each, and calls `execute` for one exactly when at its own step it is registered, authorized and an assistant of the snapshot: in the thread of the message, on behalf of its author, without a key, at depth parent+1 |
| AutoInvoke.LoopBeginsExactly | packages/rrcp-py/src/rrcp/server/thread_server.py:151-185 | the step after the append broadcasts the event, and enters the loop over its recipients, at the depth recorded for its run, exactly for a directed message from below depth 8 with auto-invocation on |
| AutoInvoke.LoopCallsAreInvoked | packages/rrcp-py/src/rrcp/server/thread_server.py:187-208 | with fixed registrations and authorizations the calls are a prefix of the invoked list at any moment and all of it at the end |
| AutoInvoke.SelectIsDedup | packages/rrcp-py/src/rrcp/server/thread_server.py:188-201 | over distinct recipients the filtering loop is the ordered dedup |
| Server.ThreadServer.AutoInvokeRecipients | packages/rrcp-py/src/rrcp/server/thread_server.py:171-208 | nothing at depth 8; below it one turn per recipient in order, skipped or called by what a world of the turn says; all that changes is what the calls of `execute` did, one insert and start per created run at depth parent+1; it stops at the first call that raises or at a fault; undisturbed, the table gains exactly one pending row per accepted recipient without an active run and nothing else changes |
| Server.ThreadServer.Consider | packages/rrcp-py/src/rrcp/server/thread_server.py:188-208 | the turn of one recipient: skipped without an effect or called exactly by handler, authorization and assistant membership, with the effects of that one call |
| RecipientLoop.CallsAreInvoked | packages/rrcp-py/src/rrcp/server/thread_server.py:187-208 | while no handler is registered, what the class calls `execute` for is the invoked list, once each and in order |
| RecipientLoop.CreatedTurn | packages/rrcp-py/src/rrcp/server/thread_server.py:187-208 | a turn that created a run: a recipient with handler, authorization and assistant membership, one pending row of the thread for it on behalf of the author, and a driver at depth parent+1 |
| RecipientLoop.LoneLoopServes | packages/rrcp-py/src/rrcp/server/thread_server.py:187-208 | after an undisturbed loop every accepted recipient has exactly one active run in the thread: the one it had, or a new one with a driver at depth parent+1; both indexes hold |
| RecipientLoop.LoneLoopAdds | packages/rrcp-py/src/rrcp/server/thread_server.py:187-208 | all that an undisturbed loop adds: rows of accepted recipients without an active run, in recipient order, and a driver for each; everything else stays |
| Server.ThreadServer.CheckRecipients | packages/rrcp-py/src/rrcp/server/thread_server.py:131-141 | the normalized event and one members snapshot of this call that holds every recipient, or the first recipient that is not a member; nothing changes |
| Server.NormalizedMeaning | packages/rrcp-py/src/rrcp/server/thread_server.py:131-135 | the event as it is logged: nothing but the recipients differs, and of those exactly the ids other than the author and the empty id are kept, in first-occurrence order |
| Server.ThreadServer.Log | packages/rrcp-py/src/rrcp/server/thread_server.py:131-143 | an accepted event is appended and nothing else changes; a refused one, by its first non-member, a used id or a fault, changes nothing |
| Server.ThreadServer.Broadcast | packages/rrcp-py/src/rrcp/server/thread_server.py:144-151 | with keys and a known thread the event is sent once on the path whose pieces are the values of its tenant under the keys in order, which parses back to the tenant restricted to the keys, is not "/", and is the canonical path of exactly the sessions whose tenant the tenant of the thread contains; on "/" without keys or thread; the thread is read if it was not passed in; nothing without a broadcaster; a tenant without a valid value under some key, or a fault, raises |
| Server.ThreadServer.PublishEvent | packages/rrcp-py/src/rrcp/server/thread_server.py:130-169 | with everything changing at every await: all that the call itself does is one append and the calls of its recipient loop; refused, it does nothing and sends nothing; logged, it sends at most once, on the path of the tenant of its thread as `Broadcast` states it, and runs the loop at the depth recorded for its run; it is stopped exactly when a fault strikes; undisturbed, it logs exactly acceptable events, succeeds exactly if the thread is routable, and leaves exactly the world of the lone publication |
| Context.QueryEvent | packages/rrcp-py/src/rrcp/handler/context.py:91-124 | the backward walk returns the last message by the triggerer that has no recipients or has the assistant among them, and None exactly when the list has none |
| Context.LastAnswerMeaning | packages/rrcp-py/src/rrcp/handler/context.py:116-124 | author, kind and recipients of the one found, none like it after it, and None means none exists |
| Context.AutoInvokedFindsQuestion | packages/rrcp-py/src/rrcp/handler/context.py:91-124 | for the message that started the run, and every other one directed at it: `query_event` finds a message no earlier in time and id order if and only if that message is among the first 50 events of the thread |
| Context.FindsFromExactly | packages/rrcp-py/src/rrcp/handler/context.py:111-124 | for any message that answers at position k of the sorted log: the one found is no earlier if and only if k < 50 |
| Context.LookbackExactly | packages/rrcp-py/src/rrcp/handler/context.py:111-112 | the event at position k of the sorted log is read if and only if k < 50 |
| Paging.QueryMeaning | packages/rrcp-py/src/rrcp/store/postgres/store.py:154-171 | the query result is strictly sorted and holds exactly the wanted rows after the cursor |
| Paging.PageMeaning | packages/rrcp-py/src/rrcp/store/postgres/store.py:172-179 | a page is the first `limit` rows; a cursor iff more remain, and it is the last row's key |
| Paging.FollowIsStable | packages/rrcp-py/src/rrcp/store/postgres/store.py:146-179 | following cursors over any growing table: increasing keys, only wanted rows, none of the first table missed |
| Paging.PagesAreTheQuery | packages/rrcp-py/src/rrcp/store/postgres/store.py:146-179 | on a fixed table the pages concatenate to the query and rows+1 pages suffice |
| Listing.PaginationIsStable | packages/rrcp-py/src/rrcp/store/postgres/store.py:146-179 | `list_events` paging while others append: in order of `created_at` and then of id, no event twice, every event present at the start once |
| Listing.PagesAreTheLog | packages/rrcp-py/src/rrcp/store/postgres/store.py:146-179 | on a fixed log the pages are exactly the events of the thread and kinds after the cursor and before `until`, by `created_at` and then by id |
| Listing.ThreadListingIsExact | packages/rrcp-py/src/rrcp/store/postgres/store.py:46-71 | paging `list_threads` yields exactly the threads the filter covers, once each, by falling `created_at` and then by falling id |
| Listing.LogMeaning | packages/rrcp-py/src/rrcp/store/postgres/store.py:154-171 | the log after a cursor: exactly the events of the thread with a greater `created_at`, or the same and a greater id, in that order |
| Keys.TextLessExactly | packages/rrcp-py/src/rrcp/store/postgres/store.py:170 | text order: the smaller character at the first difference, or the end of the shorter text |
| Tenant.Matches | packages/rrcp-py/src/rrcp/protocol/tenant.py:6-10 | the walk accepts exactly the threads whose tenant the identity's contains, which is the listing's filter |
| Listing.ReadReplay | packages/rrcp-py/src/rrcp/socketio/server.py:222-241 | despite two over-fetches the reply is the first `cap` later events, truncated iff more exist |
| Listing.ReplayExactly | packages/rrcp-py/src/rrcp/socketio/server.py:225-235 | an event is replayed if and only if it is after the cursor in time and id, with fewer than `cap` events between; the replay is in order of time and id |
| Listing.TruncatedExactly | packages/rrcp-py/src/rrcp/socketio/server.py:225-235 | a replay is flagged as truncated if and only if some later event of the thread is missing from it |
| Listing.CatchUpIsComplete | packages/rrcp-py/src/rrcp/socketio/server.py:225-235 | joining again from the last replayed event delivers every later event once, in order of time and id, and ends within events-left+1 joins on a quiet log |
| ThreadStore.MergeShowsDelivered | packages/rrcp-react/src/store/threadStore.ts:29-77 | any sequence of pushes and replays ends in the list of exactly what was there and delivered, by `created_at` and then by id |
| ThreadStore.MergeIsConfluent | packages/rrcp-react/src/store/threadStore.ts:29-77 | equal deliveries in any order, split or repetition give equal lists without a repeated id |
| ThreadStore.Store.AddEvent | packages/rrcp-react/src/store/threadStore.ts:48-69 | an event with a known id changes nothing, a new one takes its place by `created_at` and then by id; a new terminal event takes its run off the active runs, other threads unchanged |
| ThreadStore.Store.UpsertRun | packages/rrcp-react/src/store/threadStore.ts:88-100 | an active run is entered and any other taken off, other threads unchanged |
| ThreadStore.Store.SetEventsBulk | packages/rrcp-react/src/store/threadStore.ts:70-77 | the two Map loops and the sort compute the bulk merge: what was there and what was replayed, each id once, by `created_at` and then by id; other threads unchanged |
| Replication.ConvergesExactly | packages/rrcp-react/src/hooks/useThreadSession.ts:25-36 | at rest the client shows exactly the log, by `created_at` and then by id, iff every event broadcast before it entered, or never, was held by it or lay within the cap after its cursor |
| Replication.JoinAsked | packages/rrcp-react/src/hooks/useThreadSession.ts:25-31 | the cursor of a join under way is the latest event the client showed when it asked, and what it held is all it showed then |
| Replication.PushedSinceEntry | packages/rrcp-py/src/rrcp/socketio/server.py:216-241 | a client in the room entered at its last entry, the early events are the logged ones that had been broadcast by then, and every event broadcast since is shown or on its way |
| Replication.NoGapOnJoin | packages/rrcp-py/src/rrcp/socketio/server.py:220-241 | untruncated replay, nothing missing up to the cursor and no dropped broadcast give the sorted server log |
| Replication.CompleteClientConverges | packages/rrcp-react/src/hooks/useThreadSession.ts:25-36 | a client complete up to its cursor, events keyed after it, an untruncated replay and no dropped broadcast: whatever else happened, it ends with the sorted server log |
| Replication.NothingSlipsThrough | packages/rrcp-py/src/rrcp/server/thread_server.py:143-151 | at every moment of a join each logged event after the cursor is shown, under way, or still to be sent or replayed |
| Replication.GapSurvivesRejoin | packages/rrcp-react/src/hooks/useThreadSession.ts:27-31 | whatever is published and however often the client joins again, it never shows a missing event |
| Replication.MissingExactly | packages/rrcp-py/src/rrcp/socketio/server.py:220-241 | an event before the last one shown is missing if and only if it was broadcast before entry or never, not held, and not within the cap after the cursor |
| Replication.GapsHappen | packages/rrcp-py/src/rrcp/socketio/server.py:232-234 | for every cap a concrete execution in which an event goes missing |
| Replication.EmptyClientNeedsEmptyPast | packages/rrcp-react/src/hooks/useThreadSession.ts:27-31 | a client without a cursor converges iff nothing was broadcast before it entered or dropped |
| Namespace.ValidateNamespaceKeys | packages/rrcp-py/src/rrcp/server/thread_server.py:26-38 | accepts exactly None and non-empty lists of distinct non-empty keys, unchanged |
| Namespace.DeriveNamespacePath | packages/rrcp-py/src/rrcp/server/namespace.py:22-38 | the loop computes the path, or the first key's violation |
| Namespace.DerivedIsPath | packages/rrcp-py/src/rrcp/server/namespace.py:22-38 | a tenant has a path iff it has a valid value under every key; its pieces are these values in key order, it parses back to the restricted tenant, and it is the canonical path of exactly the sessions that the tenant covers |
| Namespace.ParseNamespacePath | packages/rrcp-py/src/rrcp/server/namespace.py:41-59 | the loop computes the tenant, or the first violation |
| Namespace.ParseOfDerive | packages/rrcp-py/src/rrcp/server/namespace.py:22-59 | parsing a derived path gives the tenant restricted to the keys |
| Namespace.DeriveIsInjective | packages/rrcp-py/src/rrcp/server/namespace.py:22-38 | equal paths iff equal restrictions to the keys |
| Namespace.DeriveOfParse | packages/rrcp-py/src/rrcp/server/namespace.py:41-59 | deriving a parsed path gives the path without superfluous slashes |
| Namespace.RoutingAgrees | packages/rrcp-py/src/rrcp/socketio/server.py:191-202 | a thread's broadcast path is the session's canonical path iff the namespace check accepts it, and the session's own path iff that is canonical too |
| Namespace.AdmitSession | packages/rrcp-py/src/rrcp/socketio/server.py:160-173 | a connection is admitted iff the path parses and the identity carries every value it spells |
| Namespace.CheckNamespaceMatch | packages/rrcp-py/src/rrcp/socketio/server.py:198-202 | the loop accepts exactly the threads whose tenant contains the session's |
| Namespace.VisibleThreadsRouteHere | packages/rrcp-py/src/rrcp/socketio/server.py:160-214 | for an admitted session every visible thread with a path is broadcast on the session's canonical path, and a thread of another path never passes the check |
| Namespace.ValidValueExactly | packages/rrcp-py/src/rrcp/server/namespace.py:5-19 | a value is valid if and only if it has at most 32 characters and is plain, or plain followed by one newline |
| Namespace.NewlineInPath | packages/rrcp-py/src/rrcp/server/namespace.py:22-38 | a derived path holds a newline if and only if the tenant value under some key ends in one |
| Mentions.ScanExactly | packages/rrcp-react/src/utils/parseMentions.ts:3 | the left-to-right scan finds exactly the `@` positions followed by a maximal non-empty run of name characters |
| Mentions.ScanIsApart | packages/rrcp-react/src/utils/parseMentions.ts:48 | matches are increasing and disjoint |
| Mentions.ParseMentions | packages/rrcp-react/src/utils/parseMentions.ts:30-67 | the loops compute the recipients and spans of `RecipientsOverMembers` and `SpansOverMembers` |
| Mentions.RecipientsOverMembers | packages/rrcp-react/src/utils/parseMentions.ts:30-57 | over the members: a match whose lower-cased text is "here" adds the ids of all assistants in member order; one that equals the lower-cased name of an assistant adds the id of the last such member; no other match adds anything; the recipients are what is added, in first-occurrence order |
| Mentions.SpansOverMembers | packages/rrcp-react/src/utils/parseMentions.ts:48-64 | over the members: a match has a span iff its lower-cased text is not "here" and is the lower-cased name of an assistant; the span has the id of the last such member |
| Mentions.RecipientsExactly | packages/rrcp-react/src/utils/parseMentions.ts:41-57 | recipients are exactly the ids the declared matches stand for, distinct, in first-occurrence order, all assistants |
| Mentions.SpansExactly | packages/rrcp-react/src/utils/parseMentions.ts:48-64 | exactly one span per named match, disjoint, slicing back to `@` and its text, each id a recipient |

## Left out

- Handlers that catch a cancellation, or yield while a stream block is open: what such a generator does next is not synchronous with the driver.
- A second cancel while open streams are being closed: one broadcast is one step.
- Events that a handler yields other than messages, reasoning, tool calls and tool results.
- `ctx.update_thread` and the `thread.tenant_changed` event it publishes.
- In the protocol machine the member read of `ctx.invoke` and the start of its call are one step; the class method has the await between them.
- Executor.RunExecutor.Drive: there the handler opens no streams, and neither it nor its events invoke anybody; `Streams` and `AutoInvoke` state those on the machine.
- A fault at a status write strikes before the statement takes effect, one at the insert of a run before or after.
- Server.ThreadServer.PublishEvent: the authorize callback answers by recipient.
- Streams.StreamContentAgrees: a stream is entered once and its handler does not catch a fault of `append`; `HandlerStream.Stream.Exit` says what either comes to.
- HandlerStream.Stream.Append: frames of other coroutines between those of the stream; `Streams` has them.
- Task objects: `_tasks` is modelled by its keys, `cancel` by interruption steps.
- Store failures other than unique violations: they arrive as interruptions. Foreign keys and thread deletion are not modelled.
- Random ids are assumed fresh where a step draws one; the protocol also covers a publication whose event id is already used.
- Text collation: Postgres, `localeCompare` and timestamp strings are taken to agree on one total order of keys.
- Mentions.ParseMentions: lower-casing is an arbitrary function and characters are not decoded from UTF-16.
- Namespace.DeriveNamespacePath: tenant values that are not strings.
- Recipients.NormalizeRecipients: list items that are not strings.
- Listing.PaginationIsStable: asks for a limit of at least 1; with limit 0 a page is empty and has no cursor.
- Rooms of several clients, session storage, handshakes, and the membership and authorize checks of `thread:join`.
- Replication.ConvergesExactly: pushes still in flight when a client leaves are lost, never delivered late.
- Members and thread metadata in the client store, and any invariant of its `activeRuns`.
- REST routers, authentication, JSON encoding, analytics, React rendering, `mappers.ts`: field copying or I/O.
- Process restarts and several server processes: the depth record is per process by design.
