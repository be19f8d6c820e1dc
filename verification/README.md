# OniWorks core protocols, verified

OniWorks is a Go web framework. Around its plumbing sit a few state machines and
translations on which everything else leans: a replicated key-value store, a
realtime hub whose clients resume after a disconnect, nested transactions built
from savepoints, a query builder, a job queue, a rate limiter, a migrator, a
timeout writer, and two matchers. This project models those parts in Dafny and
proves what they promise, over every run and every input.

`dafny verify dfyconfig.toml` checks the whole project. One module follows one
component; a class is an object that the source updates in place, and its methods
are proved against the functions on values that the lemmas talk about.

| files | component |
|---|---|
| `Text`, `Int64`, `Options`, `Seqs` | string order, 64-bit wrap-around, missing values, cutting sequences |
| `Clocks`, `Replication`, `Convergence`, `Divergence` | vector clocks, store, gossip runs, last-write-wins and its limits |
| `Savepoints` | nested transactions on a savepoint stack |
| `EventIds`, `Events`, `Resume`, `GapFree`, `Ages`, `Interleaved`, `Realtime` | event IDs, ring buffer, resume protocol, when it loses nothing, the age limit in terms of broadcast times, concurrent broadcasts, hub and client objects |
| `Sql`, `Builder`, `Placeholders`, `Filters` | query builder, dialects, WHERE meaning |
| `Reading`, `Statements`, `Writes` | how a server reads the clauses off a statement, and that what is sent reads back as meant |
| `Paging`, `Miscount`, `Relations` | pagination and its one wrong total, eager loading |
| `JobQueue`, `JobHistory` | queue and workers, where each job ends up |
| `Migrations`, `MigrationOutcomes` | migrator, when it succeeds and where it ends |
| `RateLimit`, `Timeout` | limiter, timeout writer |
| `Glob`, `Presence`, `Routing` | glob matching, presence keys, routes and URLs |

## What turned out to be false of the code

Each of these is kept as the code has it, with a lemma that exhibits a concrete
failing family and, beside it, the exact condition under which the promise holds.

- Convergence (the comment at framework/memory/clock.go:79-82): `After` is not
  transitive, and two nodes that heard the same three writes can settle on
  different values (`NodesMayDiverge`). A set of writes settles on one value in
  every order if and only if one of them is After all others
  (`ConvergesExactlyOnMaximum`), and over runs two nodes can be led apart by what a
  node has heard if and only if none of those writes leads
  (`DivergesExactlyWithoutLeader`).
- The own-lane test at the end of `Merge` (framework/memory/clock.go:50-54) can
  never hold, because the loop before it has already raised that lane
  (`VectorClock.Merge`). The lane invariant makes this harmless in every run.
- A nested transaction whose panic the enclosing callback recovers keeps its
  writes (`RecoveredPanicKeepsWrites`): nothing on that path issues ROLLBACK TO.
  A nested call that does not end well leaves a trace if and only if it panics with
  changed data (`NestedLeavesTraceExactly`); a block may be followed by any safe
  recovery if and only if it panics with unchanged data only
  (`SafeInAllContextsExactly`); and `TransactionFollowsMeaning` gives the exact
  result of every program.
- A broadcast between a resubscription and its replay overtakes the replay: whatever
  the number of broadcasts, what the client is to dispatch on that connection is free
  of gaps if and only if it had missed nothing (`OvertakenExactly`). What it had
  missed is lost for good once it has dispatched one of the overtaking events
  (`OlderIsLostForGood`); if the link closes before that, the next replay may still
  recover it (`OvertakenThenClosed`). A replay closes the gap if and only if ring, age
  limit and send queue hold what was missed (`ReplayExactly`). On several channels,
  which share one last ID, all new events get through if and only if they rise in the
  order in which the channels are visited (`ManyChannelsExactly`). Concurrent
  broadcasts get through if and only if their sends come about in increasing ID order
  (`ConcurrentSendsExactly`).
- Event IDs up to a clock and a counter all sort right if and only if both fit the
  printed widths (`IdsSortExactlyInWidth`). Past them the client drops newer events
  (`OverflowedEventIsDropped`): dispatch in increasing order and without duplicates
  needs no width (`SafeFromStart`), dispatch in the order of publication and dispatch
  without gaps do.
- The retry delay overflows at attempt 34 (`BackoffOverflowsAt34`); it is exact
  if and only if the attempt is at most 33, and every delay of a job lies ahead if and
  only if the job has at most 34 attempts (`DelaysAreAheadExactly`).
- `Paginate` counts wrongly for a query with HAVING and no GROUP BY, because
  buildCount does not wrap it (framework/database/builder.go:674-684): its total is
  the number of rows in the one group. For a table query, whatever its select list and
  its order, the total is right on every lawful server if and only if the query is
  grouped or has no HAVING (`TotalIsRightExactly`).
- A page's length is To - From + 1 if and only if the result is not empty and the
  page starts at or before its end (`LengthMatchesExactly`).
- A replay counts an event as up to 999 milliseconds older than it is, because the
  event keeps whole seconds (framework/realtime/resume.go:100): `InWindowExactly`
  gives the exact age limit, `YoungWithinASecond` its bounds.
- `Members` of a channel also finds the entries of every channel whose name goes on
  with a colon behind it, so "room" lists who is in "room:1" (`SubroomIsListed`), and
  of names that differ only in '.', '/', ' ' and '_'; of no others
  (`MembersSelectExactly`).
- The guard of `Update` and `Delete` against a missing WHERE lets a builder through
  that holds a raw query, which the statement sent then ignores (`Builder.Update`). A
  write that is sent changes all rows, whatever holds of them, if and only if the
  builder has no conditions (`AllRowsExactly`).
- A `?` directly before a digit, or a `$` before the number of an argument,
  changes the PostgreSQL statement (`RenumberingKeepsMeaning`, if and only if).

## Model

| member | source | states |
|---|---|---|
| `Clocks.CompareAfter` | framework/memory/clock.go:83-113 | the two-flag loop over the union of lanes decides After: strict dominance wins, being dominated loses, otherwise TS and then node ID break the tie |
| `Clocks.AfterAsymmetric` | framework/memory/clock.go:83-113 | no two stamps are each After the other |
| `Clocks.AfterTotal` | framework/memory/clock.go:83-113 | of two stamps that differ in node or TS one is After the other |
| `Clocks.VectorClock.Tick` | framework/memory/clock.go:31-38 | the counter grows by one, the own lane takes it, and the stamp carries the new vector |
| `Clocks.VectorClock.Merge` | framework/memory/clock.go:42-55 | lanes become the pointwise maximum; the local counter never changes, so the own-lane branch is dead |
| `Replicas.Store.Set` | framework/memory/store.go:136-151 | a local write ticks once, overwrites the key, and gossips the same stamped write |
| `Replicas.Store.IncrBy` | framework/memory/store.go:238-257 | adds to the stored number, or to 0 when there is none, wraps at 64 bits, and writes the sum under a fresh stamp |
| `Replicas.Store.CompareAndSwap` | framework/memory/store.go:264-285 | writes if and only if the stored value equals the expected one |
| `Replicas.CounterAddsUp` | framework/memory/store.go:238-257 | from a stored number a (0 when the key is fresh or holds none), after any sequence of calls that touches the key by increments only, the key holds the 64-bit wrap of a plus all of them |
| `Replicas.FirstSwapWins` | framework/memory/store.go:264-285 | of any number of swaps that expect the same value exactly the first wins, if the key holds that value, and none otherwise |
| `Replicas.Store.ApplyRemoteSet` | framework/memory/store.go:416-427 | merges the clock and replaces the entry unless the stored one is After |
| `Cluster.LanesHold` | framework/memory/clock.go:31-63 | in every run each lane n of a node's vector or of a gossiped stamp is at most node n's counter, which is node n's own lane |
| `Cluster.LanesNeverDecrease` | framework/memory/clock.go:42-55 | along a run a node's vector only grows, lane by lane |
| `Cluster.StampsIdentifyWrites` | framework/memory/clock.go:31-38 | two writes of a run with the same node ID and TS are the same write |
| `Cluster.DominanceIsCausality` | framework/memory/clock.go:31-63 | one write's vector dominates another's if and only if the other happened before it through program order and deliveries |
| `Cluster.ReachesTransitive` | framework/memory/gossip.go:271-308 | the happened-before paths of a run compose |
| `Convergence.StoresHold` | framework/memory/store.go:136-144 | every stored write is one of the run's, heard by its node, and its clock is at most the node's vector |
| `Convergence.StoredLanesHold` | framework/memory/store.go:416-424 | so every lane n of a stored clock is at most node n's counter |
| `Convergence.OverwriteAgreesWithLww` | framework/memory/store.go:136-144 | in every reachable state the unconditional overwrite of Set equals last-write-wins resolution, because the new stamp is After the one it replaces |
| `Convergence.ConvergesExactlyOnMaximum` | framework/memory/store.go:416-424 | resolving a set of writes in every order with duplicates ends on w if and only if w is After all others |
| `Convergence.ConcurrentWritesHaveMaximum` | framework/memory/clock.go:103-113 | a finite set of pairwise concurrent writes always has a maximum |
| `Convergence.MaximumIsNewest` | framework/memory/clock.go:103-113 | among concurrent writes the one After all others is the one with the greatest tick, ties going to the greatest node ID |
| `Convergence.HoldsTheLeader` | framework/memory/store.go:416-424 | in every run a node that heard a set of writes to a key, reordered and duplicated, holds the one After all others |
| `Convergence.NodesAgree` | framework/memory/clock.go:79-82 | two nodes that heard the same writes to a key, one of them leading, hold the same write |
| `Convergence.CausallyLastIsHeld` | framework/memory/store.go:416-424 | a heard write that all other heard writes happened before is the one held |
| `Convergence.ConcurrentWritesAreSettled` | framework/memory/store.go:416-424 | when no two heard writes are causally ordered, one of them leads and is held: the one with the greatest tick, then the greatest node ID |
| `Convergence.AfterCycles` | framework/memory/clock.go:83-113 | three stamps each After the next: After is not transitive |
| `Convergence.NodesMayDiverge` | framework/memory/clock.go:79-82 | a reachable run in which two nodes heard the same three writes and hold different values |
| `Divergence.DivergesExactlyWithoutLeader` | framework/memory/clock.go:79-82 | over runs: two nodes that have heard nothing can be told the gossiped writes a node has heard of and end with different values if and only if none of these writes is After all others |
| `Divergence.NoLeaderCanDiverge` | framework/memory/store.go:416-424 | without a leader, the run that leads them apart |
| `Divergence.LeaderPreventsDivergence` | framework/memory/store.go:416-424 | with a leader, no extension of the run leads them apart |
| `Savepoints.NewestIsOurs` | framework/database/db.go:208-217 | under the stack discipline ROLLBACK TO and RELEASE find the block's own savepoint, although siblings reuse its name |
| `Savepoints.CloseKeepsBelow` | framework/database/db.go:213-219 | however a block ends, RELEASE succeeds and the savepoints of enclosing blocks are untouched |
| `Savepoints.NestedFollowsMeaning` | framework/database/db.go:206-220 | one nested call: writes kept on nil, undone on error, left on panic, with failed savepoints left on the stack |
| `Savepoints.IssueFollowsMeaning` | framework/database/db.go:205-241 | any callback on the stack machine has the data and outcome of the recursive meaning |
| `Savepoints.NestedLeavesTraceExactly` | framework/database/db.go:206-220 | a nested call that does not end well leaves a trace if and only if it panics with changed data |
| `Savepoints.TransactionIsAllOrNothing` | framework/database/db.go:205-241 | in both savepoint dialects the committed data and the result are those of nested all-or-nothing blocks, for every nest of calls in which a callback that recovers a nested panic returns an error, panics in its turn, or recovers a block that panics only with unchanged data |
| `Savepoints.SafeInAllContextsExactly` | framework/database/db.go:205-241 | a block may be followed by any safe recovery of its panic, with the all-or-nothing result, if and only if it panics with unchanged data only |
| `Savepoints.TransactionFollowsMeaning` | framework/database/db.go:221-241 | for every program at all, the outermost call commits its meaning when it ends well and nothing otherwise |
| `Savepoints.RecoveredPanicKeepsWrites` | framework/database/db.go:213-218 | a nested panic recovered by the enclosing callback leaves the nested writes to be committed |
| `Savepoints.Tx.Run` | framework/database/db.go:205-251 | a callback run step by step on a transaction object issues the modelled commands |
| `Savepoints.Tx.NestedTransaction` | framework/database/db.go:206-220 | SAVEPOINT, body, then ROLLBACK TO or RELEASE, on the object's own state |
| `Savepoints.Transaction` | framework/database/db.go:221-241 | BEGIN, body with panic recovery, COMMIT or ROLLBACK: the all-or-nothing result |
| `EventIds.PadIsFixed` | framework/realtime/event.go:48-52 | within its width a zero-padded hex number is exactly that many digits |
| `EventIds.IdsSortAsPairs` | framework/realtime/event.go:48-52 | string order and equality of IDs are order and equality of (millis, counter), while both fit their 13 and 8 digits |
| `EventIds.IdsSortExactlyInWidth` | framework/realtime/event.go:48-52 | all IDs up to a clock and a counter sort right if and only if both fit |
| `EventIds.CounterOverflowBreaksOrder` | framework/realtime/event.go:48-52 | the first ID past the counter width sorts before the full-width IDs of its millisecond |
| `EventIds.ClockOverflowBreaksOrder` | framework/realtime/event.go:48-52 | so does the first ID past the width of the clock |
| `EventIds.IdSource.NewEventID` | framework/realtime/event.go:48-52 | bumps the counter by one and formats time and counter |
| `RingBuffers.RingBuffer.Push` | framework/realtime/resume.go:75-84 | the array ring holds the last capacity events, in order, after each push |
| `RingBuffers.PushAllKeepsLast` | framework/realtime/resume.go:75-84 | after any sequence of pushes the ring holds exactly the last min(n, capacity) |
| `RingBuffers.RingBuffer.Since` | framework/realtime/resume.go:87-121 | the single pass over the array ring, remembering where the marker sits, computes Since of its contents; `Ages` and `Events.SinceReplaysWhatWasMissed` say what that is |
| `Events.SinceReplaysWhatWasMissed` | framework/realtime/resume.go:87-121 | an in-order list with every buffered in-window event after the ID, and nothing at or before it while the ID itself is in the window |
| `Events.SinceSplits` | framework/realtime/resume.go:87-121 | what came after the marker is replayed whole, at the end of the list |
| `Resume.SafetyStep` | client/oni-socket.ts:217-242 | every protocol step keeps the safety invariant, whatever the order of the IDs; IDs are strings, compared as strings |
| `Resume.SafetyRun` | client/oni-socket.ts:225-232 | so does every run of broadcasts, dropped sends, reconnects and replays on any channels |
| `Resume.SafeFromStart` | client/oni-socket.ts:225-232 | from a fresh client, in every run: the dispatched log is strictly increasing as strings, free of duplicates, and holds published events only |
| `Resume.DispatchedAsPublished` | client/oni-socket.ts:225-232 | while clock and counter fit the printed IDs, events of all channels are dispatched in the order in which they were published |
| `Resume.StaleIsLostForGood` | client/oni-socket.ts:225-232 | an event that is not newer than the last one dispatched, and was not dispatched, never is in any later run |
| `Resume.OlderIsLostForGood` | client/oni-socket.ts:225-232 | so once an event is dispatched, every older one that was not dispatched is lost for good |
| `Resume.OverflowedEventIsDropped` | client/oni-socket.ts:225-232 | the client drops the first event past the counter width, newer than its last one, as a duplicate |
| `Resume.ServedMeansSubscribed` | client/oni-socket.ts:193-203 | in every run, a connection whose requests are all served is subscribed to exactly the client's channels, joined ones included |
| `GapFree.DedupeIsLosslessExactlyInOrder` | client/oni-socket.ts:225-232 | the one-ID dedupe drops nothing if and only if the events arrive in increasing order above the last ID |
| `GapFree.ReplayCoversExactly` | framework/realtime/hub.go:394-409 | the replay after dedupe is exactly the missed part if and only if at most capacity events, all in the age window, came since the client's last one |
| `GapFree.BroadcastExactly` | framework/realtime/conn.go:112-124 | a live broadcast leaves no gap if and only if the send queue has room, or nothing was delivered before |
| `GapFree.ReplayExactly` | framework/realtime/hub.go:394-409 | serving a replay leaves no gap if and only if nothing was missed, or it can all be replayed and queued |
| `GapFree.GapFreeStepExactly` | framework/realtime/hub.go:344-366 | in width, a step keeps the invariant that the log has no gap if and only if it meets the hypotheses: room in the queue, a replay that recovers, no event queued between subscription and replay |
| `GapFree.GapFreeRun` | framework/realtime/hub.go:204-223 | whole runs of such steps keep it |
| `GapFree.ResumeLosesNothing` | framework/realtime/hub.go:394-409 | in width, after any disconnects and resumes under those hypotheses the dispatched log is a contiguous part of the published one, and reaches its end once the link has drained |
| `GapFree.OvertakenExactly` | client/oni-socket.ts:193-203 | after any number of broadcasts between subscription and replay, what the client is to dispatch on that connection has no gap if and only if it had missed nothing, and holds nothing that it had missed |
| `GapFree.OvertakenThenClosed` | client/oni-socket.ts:193-203 | if the link closes before a live event has reached the client, the log is as it was and the next replay may recover |
| `GapFree.ManyChannelsExactly` | framework/realtime/hub.go:394-409 | replayed channel by channel, all events new to the client get through if and only if they rise in the order of the channels |
| `Ages.InWindowExactly` | framework/realtime/resume.go:100-102 | an event broadcast at t passes the age test at now if and only if now less t, rounded down to the second, is at most the age limit, or t lies in the first second |
| `Ages.YoungWithinASecond` | framework/realtime/resume.go:100-102 | so an event passes when it is at least 999 milliseconds below the limit, and fails when it is past it |
| `Ages.DatedRun` | framework/realtime/hub.go:204-223 | a channel's history was broadcast at the times of the run's broadcasts on it, in order |
| `Ages.ReplayCoversRecent` | framework/realtime/hub.go:394-409 | after any run in width, the replay after dedupe is exactly the missed part if and only if at most capacity broadcasts came since, each at a time within the age limit |
| `Ages.ResumeLosesNothingRecent` | framework/realtime/hub.go:394-409 | the gap-free log of `GapFree.ResumeLosesNothing`, with the hypothesis on each replay stated of the times of the run's broadcasts |
| `Interleaved.SafeUnderInterleaving` | framework/realtime/hub.go:204-223 | with minting, pushing and sending of concurrent broadcasts interleaved in any way, with each other and with every other step, the dispatched log is strictly increasing and published |
| `Interleaved.UninterruptedIsAtomic` | framework/realtime/hub.go:204-223 | a broadcast that nothing interrupts is the one step of the atomic protocol |
| `Interleaved.ConcurrentSendsExactly` | framework/realtime/hub.go:251-264 | concurrent sends on a connection with room all get through if and only if they come about in increasing ID order, above what is on its way |
| `Realtime.Socket.Message` | client/oni-socket.ts:217-242 | the client object's frame handler, comparing ID strings, is the protocol's receive step |
| `Realtime.Socket.Opened` | client/oni-socket.ts:193-203 | on open: one subscribe frame a channel, then one resume frame if an ID is known |
| `Realtime.Hub.Broadcast` | framework/realtime/hub.go:204-223 | the event is appended to the channel's history, whose last part its ring holds, and for each connection and its client the hub takes the protocol's broadcast step |
| `Realtime.Hub.PushToChannel` | framework/realtime/hub.go:251-264 | each subscribed connection gets the event once, bounded by its buffer; others are untouched |
| `Realtime.Hub.ReplayTo` | framework/realtime/hub.go:394-409 | the replay loop sends, channel by channel, what Since returns |
| `Sql.ArgumentsLandInPlace` | framework/database/builder.go:674-820 | fragments that each have as many placeholders as arguments give a statement with as many placeholders as arguments, and binding left to right puts each argument into its own fragment |
| `Sql.EveryStatementIsAligned` | framework/database/builder.go:614-820 | that holds of every SELECT, COUNT, INSERT, UPDATE, soft delete and DELETE of a builder whose conditions are aligned and whose other texts have no placeholder |
| `Builders.Builder.AddWhere` | framework/database/builder.go:134-137 | appends an AND condition and changes nothing else |
| `Builders.Builder.OrWhere` | framework/database/builder.go:140-143 | appends an OR condition and changes nothing else |
| `Builders.Builder.BuildWhere` | framework/database/builder.go:801-820 | the loop emits the chain's text and its arguments in the same order, and an empty text only for no conditions |
| `Builders.Builder.BuildFilter` | framework/database/builder.go:713-728 | soft-delete filter alone, chain alone, both with the chain parenthesised, or nothing |
| `Builders.Builder.BuildSelect` | framework/database/builder.go:686-758 | the emitted text and argument list are those of the SELECT fragments, or the raw query; `Statements.SelectReadsBack` says what a server reads there |
| `Builders.Builder.BuildCount` | framework/database/builder.go:674-684 | emits the COUNT fragments, a grouped query wrapped and stripped of order and page; and what it leaves in the builder |
| `Builders.Builder.BuildInsert` | framework/database/builder.go:760-773 | emits the INSERT fragments, one placeholder a column |
| `Builders.Builder.BuildUpdate` | framework/database/builder.go:775-790 | emits the UPDATE fragments, set values before condition arguments |
| `Builders.Builder.BuildDelete` | framework/database/builder.go:792-799 | emits the DELETE fragments |
| `Builders.Builder.BuildDeleteStmt` | framework/database/builder.go:614-620 | a soft-delete builder stamps deleted_at by UPDATE, any other deletes |
| `Builders.Builder.Update` | framework/database/builder.go:574-592 | refuses if and only if the builder has neither conditions nor a raw query, and otherwise sends the UPDATE fragments |
| `Builders.Builder.Delete` | framework/database/builder.go:597-609 | the same for Delete |
| `Builders.Builder.ForceDelete` | framework/database/builder.go:625-628 | the same with a real DELETE on a soft-delete builder too |
| `Placeholders.NormalizePlaceholders` | framework/database/builder.go:945-960 | the loop turns the k-th "?" into "$k" for PostgreSQL, and changes nothing else |
| `Placeholders.RenumberingKeepsMeaning` | framework/database/builder.go:945-960 | PostgreSQL reads the renumbered text as MySQL reads the original if and only if no digit follows a "?" and no "$" stands before an argument's number |
| `Placeholders.BothDialectsAgree` | framework/database/builder.go:945-960 | for every statement of an aligned builder: both servers see the fragments with their own arguments, exactly when the text is clean |
| `Placeholders.OrdinaryTextIsClean` | framework/database/builder.go:945-960 | text without "$" and without a digit after "?" is clean |
| `Placeholders.DigitAfterHoleIsMisread` | framework/database/builder.go:945-960 | "?5" becomes "$15" and means something else |
| `Filters.WhereMeansChain` | framework/database/builder.go:801-820 | read under SQL precedence the chain's bound text holds if and only if some OR-alternative has all its conditions, each with its own arguments, for any conditions with balanced parentheses |
| `Filters.FilterMeansLiveAndChain` | framework/database/builder.go:713-728 | the whole condition is the soft-delete filter and the chain: an OR in the chain never lets a deleted row through |
| `Filters.GuardConjoins` | framework/database/builder.go:720-721 | the filter conjoins with the whole parenthesised text |
| `Reading.ReadsBack` | framework/database/builder.go:693-758 | a server that splits a statement at the keywords outside all parentheses reads, from one written with any legible clauses, exactly these clauses, page numbers included |
| `Statements.SelectReadsBack` | framework/database/builder.go:693-758 | what is sent for a legible query reads back as its columns, its table and joins, its whole condition, its groups, its HAVING with its arguments, its order and its page |
| `Statements.CountReadsBack` | framework/database/builder.go:674-684 | the count reads back as COUNT(*) over the query's clauses, or over the query as a derived table when it is grouped |
| `Statements.ClausesAreLegible` | framework/database/builder.go:713-728 | legible texts of the caller and paired parentheses in the conditions suffice: the WHERE clause never hides or adds a keyword |
| `Statements.TableQueryIsLegible` | framework/database/builder.go:693-758 | a query on a one-word table, with no other texts than conditions whose parentheses pair up, is legible |
| `Statements.QuotedReadsBack` | framework/database/grammar.go:45-47 | whatever a name holds, quote marks included, a server reads back that name and stops behind it; the same for MySQL |
| `Writes.InsertSpells` | framework/database/builder.go:760-773 | the INSERT names its columns and its values in the same order, one for one |
| `Writes.UpdateReadsBack` | framework/database/builder.go:775-790 | the UPDATE reads back as its table, column by column its values, and its chain |
| `Writes.DeleteReadsBack` | framework/database/builder.go:792-799 | the DELETE reads back as its table and its chain |
| `Writes.DeleteStmtReadsBack` | framework/database/builder.go:614-620 | Delete on a soft-delete builder reads as an UPDATE that stamps deleted_at and nothing else, on any other as a DELETE |
| `Writes.WritesTouchTheChain` | framework/database/builder.go:775-799 | a write changes exactly the rows for which some alternative of the chain holds, soft-deleted ones included, and all rows without conditions |
| `Writes.AllRowsExactly` | framework/database/builder.go:579-581 | an UPDATE changes every row, whatever holds of it, if and only if the builder has no conditions |
| `Paging.Paginate` | framework/database/builder.go:363-432 | on a legible table query with plain columns and a server that reads clauses and obeys one law for each, the answer is the requested page of the whole unpaged result, under the total that the count statement gives; 15 a page and page 1 by default |
| `Paging.CountsSelected` | framework/database/builder.go:674-684 | the clone's core is the data query's core; its count statement gives the number of groups when wrapped, and otherwise the rows kept, or 0 when HAVING drops the one group |
| `Paging.CountAgreesExactly` | framework/database/builder.go:376-392 | the total is the number of rows of the data query if and only if the query is grouped, or has no HAVING, or its one group is dropped or is a single row |
| `Paging.ResultIsWantedRows` | framework/database/builder.go:713-728 | without grouping the whole result is, each once, the rows of FROM and JOIN that are not deleted and for which some alternative of the chain holds |
| `Miscount.TotalIsRightExactly` | framework/database/builder.go:674-684 | for every table query: the total is right on every lawful server that reads it as meant if and only if the query has GROUP BY or has no HAVING, or its texts are not legible, so that there is no such server |
| `Miscount.HavingMiscounts` | framework/database/builder.go:674-684 | every legible query with HAVING and no GROUP BY, whatever its columns and order, has a lawful server on which one row is shown under a total of two |
| `Paging.PageNumbers` | framework/database/builder.go:405-421 | last page, From and To |
| `Paging.PagesAreTheWholeResult` | framework/database/builder.go:398-411 | pages 1 to LastPage concatenate to the whole ordered result |
| `Paging.NoPageIsSpare` | framework/database/builder.go:405-411 | fewer pages do not |
| `Paging.PagesTile` | framework/database/builder.go:413-421 | [From, To] of those pages tile 1..Total and name exactly the rows shown |
| `Paging.LengthMatchesExactly` | framework/database/builder.go:413-421 | a page has To - From + 1 rows if and only if the result is not empty and the page starts at or before its end |
| `Relations.Collect` | framework/database/relations.go:168-179 | each key once, in order of first appearance |
| `Relations.DistinctKeepsAll` | framework/database/relations.go:168-179 | no key is lost and none repeated |
| `Relations.InIsSent` | framework/database/relations.go:57-64 | the IN query has one placeholder a key and reaches both dialects with each key in its place |
| `Relations.InReadsBack` | framework/database/relations.go:57-64 | it reads back as all columns of the table where the column is among exactly these keys |
| `Relations.BuildFKMap` | framework/database/relations.go:221-252 | every key with rows maps to exactly its rows, in row order |
| `Relations.BuildPKMap` | framework/database/relations.go:254-281 | every key with rows maps to its last row |
| `Relations.GroupOfBatch` | framework/database/relations.go:50-79 | grouping the batch by one of its keys gives what that key alone selects |
| `Relations.LoadHasMany` | framework/database/relations.go:50-79 | each parent, duplicates included, gets exactly what its own query would answer, in row order; one without rows is left alone |
| `Relations.LoadBelongsTo` | framework/database/relations.go:84-130 | each parent gets the row that its own query would answer |
| `Relations.AssignHasMany` | framework/database/relations.go:283-302 | sets the relation field of each parent in place from the map, and no other |
| `Relations.AssignBelongsTo` | framework/database/relations.go:304-323 | the same for the owner field |
| `Relations.FreshChildren` | framework/database/relations.go:50-79 | a freshly scanned parent ends with exactly the rows that point to it |
| `Relations.FreshOwner` | framework/database/relations.go:84-130 | with unique keys a freshly scanned parent ends with the one row of its foreign key, or with none |
| `JobQueue.ConservationStep` | framework/queue/queue.go:150-180 | no step loses or doubles a job |
| `JobQueue.RemainingStep` | framework/queue/queue.go:150-180 | each process call strictly decreases the sum of remaining attempts |
| `JobQueue.QueueRuns` | framework/queue/queue.go:80-180 | in every interleaving of dispatches and workers the invariant holds and process calls are bounded by the attempts granted |
| `JobQueue.EveryJobInOnePlace` | framework/queue/queue.go:80-180 | from an empty system: each dispatched job is in exactly one of queue, hands, dead letters or done, queued jobs have attempts left, and Handle ran at most MaxAttempts times |
| `JobHistory.EveryJobIsInItsPlace` | framework/queue/queue.go:80-180 | in every run a job is done if and only if its last try succeeded, dead if and only if that could not be decoded or failed as the last attempt granted, in hand if and only if it was taken since, and waiting otherwise; its queue, attempts, Handle calls and due time are those of its history |
| `JobQueue.BackoffIsExactUpTo33` | framework/queue/queue.go:173-176 | the 64-bit delay equals 2^attempts seconds if and only if attempts is at most 33 |
| `JobQueue.ReleaseLandsInFuture` | framework/queue/queue.go:167-176 | with at most 34 attempts every release is due at least two seconds ahead |
| `JobQueue.DelaysAreAheadExactly` | framework/queue/queue.go:167-176 | every delay a job can be given is at least two seconds if and only if it has at most 34 attempts |
| `JobQueue.BackoffOverflowsAt34` | framework/queue/queue.go:173-176 | at attempt 34 the delay is negative |
| `JobQueue.Memory.Push` | framework/queue/drivers/memory.go:24-29 | appends to its queue |
| `JobQueue.Memory.Pop` | framework/queue/drivers/memory.go:31-43 | removes the oldest due payload of the queue and leaves all others in place |
| `JobQueue.Memory.Release` | framework/queue/drivers/memory.go:52-58 | appends with the new due time |
| `JobQueue.Memory.Dead` | framework/queue/drivers/memory.go:45-50 | appends to the dead letters |
| `JobQueue.ProcessOne` | framework/queue/queue.go:150-180 | one process call on the driver object settles the payload as the step system does; `JobHistory.EveryJobIsInItsPlace` says where that is |
| `JobQueue.ProcessNext` | framework/queue/queue.go:138-148 | one turn of the inner loop pops and settles the next due job, or finds none; work left strictly decreases and no job is lost |
| `JobQueue.ProcessAll` | framework/queue/queue.go:138-148 | with a frozen clock and handlers that dispatch nothing it terminates, leaves nothing due in its queues, and conserves the jobs |
| `RateLimit.DecideRefines` | framework/middleware/ratelimit.go:95-136 | one call on the pruned table answers as the reference that keeps every admission ever made |
| `RateLimit.AnswersAgree` | framework/middleware/ratelimit.go:95-181 | so does every run with a clock that does not go back |
| `RateLimit.CleanupIsInvisible` | framework/middleware/ratelimit.go:154-181 | a cleanup pass at any moment changes no later answer |
| `RateLimit.LimitHolds` | framework/middleware/ratelimit.go:95-118 | in every run of the program any half-open interval of one window has at most Max granted requests a key |
| `RateLimit.RefusalIsJustified` | framework/middleware/ratelimit.go:95-136 | after every run the program refuses if and only if Max requests were granted in the window that ends now, and Remaining is Max less those granted |
| `RateLimit.EvictInPlace` | framework/middleware/ratelimit.go:103-110 | the compacting loop leaves exactly the recent times, in order, at the front of the same array |
| `RateLimit.Limiter.Allow` | framework/middleware/ratelimit.go:95-118 | the object's new table and answer are those of the decision function |
| `RateLimit.Limiter.Remaining` | framework/middleware/ratelimit.go:120-136 | the same for Remaining |
| `RateLimit.Limiter.Cleanup` | framework/middleware/ratelimit.go:154-181 | the same for the cleanup pass |
| `Migrations.PendingInOrder` | framework/migrations/migrator.go:93-102 | what Migrate runs: exactly the registered migrations not in the ledger, by ascending name |
| `Migrations.MigrateAddsOneBatch` | framework/migrations/migrator.go:84-139 | success appends one ascending batch and keeps the schema the fold of the ledger; failure changes nothing |
| `MigrationOutcomes.MigrateExactly` | framework/migrations/migrator.go:84-139 | Migrate succeeds if and only if the Ups of the pending migrations lead from the stored schema through a sequence of schemas; it then ends in the last with one row each, and otherwise changes nothing |
| `Migrations.DownAllLeavesPrefix` | framework/migrations/migrator.go:142-179 | undoing a suffix in reverse ends at a prefix of the ledger whose fold is the schema, also when a Down fails |
| `Migrations.RollbackUndoesSuffix` | framework/migrations/migrator.go:142-179 | the last batch is a suffix of the ledger and Rollback undoes it in reverse; a failing Down leaves a prefix |
| `MigrationOutcomes.RollbackExactly` | framework/migrations/migrator.go:142-179 | Rollback succeeds if and only if the Downs of the newest batch, last row first, lead through a sequence of schemas; it then ends in the last without these rows, and otherwise stops in front of the first Down that fails |
| `Migrations.MigrateThenRollbackRestores` | framework/migrations/migrator.go:84-179 | Migrate with something pending, then Rollback: schema and ledger are as before |
| `Migrations.SchemaFollowsLedger` | framework/migrations/migrator.go:78-179 | over every history of registrations, migrations and rollbacks, failing ones included, the schema is the fold of Up over the ledger |
| `Migrations.Migrator.CollectPending` | framework/migrations/migrator.go:97-102 | the loop collects the pending migrations of the sorted list |
| `Migrations.Migrator.RunBatch` | framework/migrations/migrator.go:112-138 | the transaction's outcome: all Ups and ledger rows, or nothing |
| `Migrations.Migrator.RunMigrate` | framework/migrations/migrator.go:84-139 | the object's new database and result are those of the Migrate function, which `MigrationOutcomes.MigrateExactly` characterises; the list is left sorted |
| `Migrations.Migrator.RunRollback` | framework/migrations/migrator.go:142-179 | the same for Rollback |
| `Timeout.ExactlyOneResponse` | framework/middleware/timeout.go:25-78 | every interleaving of handler writes, return and deadline keeps the response decided at most once |
| `Timeout.TimeoutFromStart` | framework/middleware/timeout.go:25-78 | the real writer has received nothing, or exactly the handler's first status, headers and whole body, or exactly status 503 with the JSON error body |
| `Timeout.TimeoutWriter.WriteHeader` | framework/middleware/timeout.go:94-102 | the first status wins; nothing is taken after the timeout |
| `Timeout.TimeoutWriter.Write` | framework/middleware/timeout.go:104-115 | buffers the bytes with an implied 200, or reports the timeout and takes none |
| `Glob.GlobMatch` | framework/memory/store.go:311-334 | accepts s if and only if s is p0 w1 p1 ... wk pk for some strings wi |
| `Glob.MatchRest` | framework/memory/store.go:324-333 | the loop over middle parts and the suffix test decide whether the parts can follow one another |
| `Glob.LeftmostSuffices` | framework/memory/store.go:325-331 | taking the leftmost occurrence of a part loses no match |
| `Glob.PatternIsItsOwnWeave` | framework/memory/store.go:311-334 | filling each gap with a star gives the pattern back |
| `Presence.LeaveAllPatternSelects` | framework/realtime/presence.go:104-121 | LeaveAll's pattern matches a presence key if and only if it is of that connection, for any channel name |
| `Presence.Members.Keys` | framework/memory/store.go:291-305 | the keys that match, all of them and no other |
| `Presence.Members.LeaveAll` | framework/realtime/presence.go:104-113 | what remains are the entries that do not match |
| `Presence.LeaveAllIsExact` | framework/realtime/presence.go:104-121 | a leaving connection loses all its entries and no other connection loses any |
| `Presence.MembersSelectExactly` | framework/realtime/presence.go:77-90 | the pattern of Members matches a presence key if and only if its channel is the one asked for, up to '.', '/', ' ' and '_', or goes on with a colon behind that |
| `Presence.SubroomIsListed` | framework/realtime/presence.go:77-90 | so "room" lists the members of "room:1" |
| `Routing.ParsePattern` | framework/routing/trie.go:30-53 | the loop compiles a pattern to its segments |
| `Routing.Match` | framework/routing/trie.go:56-87 | the loop with the advancing index is the recursive match |
| `Routing.URL` | framework/routing/router.go:125-155 | the loop prints the segments with the given pairs, or fails on a missing parameter |
| `Routing.MatchMeansFits` | framework/routing/trie.go:56-87 | matching returns the supplied parameters if and only if the path's parts spell the segments |
| `Routing.UrlRoundTrip` | framework/routing/router.go:125-155 | matching the generated URL returns exactly the supplied parameters if and only if the values are printable: slash-free, the last one not empty, a wildcard without trailing slash (inner values may be empty, save for two empty ones alone) |
| `Routing.PatternRoundTrip` | framework/routing/trie.go:30-97 | the same for patterns as they are registered |
| `Routing.PatternReadsBack` | framework/routing/trie.go:30-53 | a pattern written from its segments, names with a colon or in braces, compiles to these segments |
| `Routing.PairsKeepLast` | framework/routing/router.go:133-136 | the parameters of a call are the names at even positions with a value behind them, each with the value behind its last mention |
| `Routing.PrintFailsExactly` | framework/routing/router.go:137-155 | URL fails if and only if a named parameter of the pattern, other than a wildcard, is missing |

## Left out

- Deletes, Flush, TTL expiry, snapshots and restarts of the store: deletes carry no clock, so a late older set reinstates a key.
- Replicas.Store.Set: no expiry time, and no notice to local subscribers.
- Replicas.Store.IncrBy: the stored int, int64 and float64 are one kind of number, and an expired entry is not treated as missing.
- Replicas.Store.CompareAndSwap: no expiry time, and an expired entry is not treated as missing.
- The Redis adapter of the store and the Redis queue driver: they pass no clock, and the client library is foreign code.
- Clocks.VectorClock.Tick: the counter and lanes are unbounded, so their 64-bit wrap-around is not modelled; the split atomic add and lock count as one step.
- EventIds.IdSource.NewEventID: the counter is unbounded; the global atomic is one step.
- RateLimit.Limiter.Allow: takes the lookup of an entry and its update as one step, and entries as lists in one table, not as separate locked objects.
- Realtime.Hub.Broadcast: the map of rings and the connections are values here (the ring itself is an array in `RingBuffers`), and the method runs uninterrupted (`Interleaved` takes it apart); remote broadcast to other nodes, unsubscribe, and events pushed with a caller's own ID are not modelled.
- GapFree.ResumeLosesNothing: one channel and a client that stays on it; for several channels there are the safety theorems and `ManyChannelsExactly`, which is about one replay. Frames with an empty event ID do not occur.
- Ages.InWindowExactly: the clock is read in whole milliseconds.
- Ages.ResumeLosesNothingRecent: one channel, as `GapFree.ResumeLosesNothing`.
- GapFree.GapFreeRun: over whole runs the hypotheses are sufficient, and a broadcast is one step; they are exact for each step (`GapFreeStepExactly`), but an event that overtakes a replay may itself be lost with its connection before it does harm (`OvertakenThenClosed`).
- Savepoints.TransactionIsAllOrNothing: BEGIN, COMMIT or SAVEPOINT that fail, statements that abort a PostgreSQL transaction, and bodies that use an outer handle are not modelled; whether later writes happen to repair a kept write depends on the data, and `TransactionFollowsMeaning` states the result in all cases.
- Divergence.DivergesExactlyWithoutLeader: is about writes that were gossiped; one that was not is known to its own node only.
- Placeholders.RenumberingKeepsMeaning: a "?" or "$" inside an SQL string literal or comment is read as a placeholder, as the code does; the servers' own lexical rules beyond that are not modelled.
- Filters.WhereMeansChain: parentheses inside string literals count as parentheses; how a server evaluates one condition is a parameter.
- Miscount.TotalIsRightExactly: raw queries are outside.
- Statements.SelectReadsBack: a text of the caller with a keyword outside parentheses, between blanks, or with parentheses that do not pair up, is not legible; names, string literals and comments are not told apart from other text there.
- Writes.UpdateReadsBack: columns come as two lists of one length; the order in which Go walks the map does not matter to what is proved.
- Paging.Paginate: raw queries, DISTINCT and other select lists that do not show each row once, texts that a server would not read as the clause they stand for, a failing query, writes between the two queries, and overflow of page times size are outside the statement.
- Relations.LoadHasMany: keys are plain comparable values (no nullable pointer keys), parents sit in a slice of structs, and reflection is not modelled.
- Many-to-many loading: the grouping key is looked up on the related struct, so the batch equivalence is no general fact there.
- Insert's RETURNING path, hooks, identifier validation in Select, OrderBy and GroupBy, and scanning of rows.
- JobQueue.ProcessAll: payloads are values, so a handler that keeps a pointer to its payload is not modelled; nor are handlers that dispatch, or a driver whose Pop fails.
- Migrations.SchemaFollowsLedger: assumes DDL inside transactions and a Down that undoes its Up; MySQL's implicit commits, a ledger delete that fails after its Down, names in the ledger that are no longer registered, Fresh and Status are not modelled, and lastBatch is taken to return the value it scanned.
- Timeout.TimeoutFromStart: a handler that writes nothing sends nothing, its headers included, as the code has it; a handler panic and a client that went away are not modelled.
- Presence.MembersSelectExactly: channel names with a '*', which the pattern takes for a wildcard, are outside.
- Presence across nodes and the channel name recovered from a key: connection IDs come from a per-process counter and sanitised names are not injective.
- Route dispatch, middleware chains, method tables and the realtime channel router: lookups in tables, with no state that outlives a request.
- Gossip transport, sockets, WebSocket frames, encoding, DSNs and DDL text: foreign libraries and I/O.
- Authentication, sessions, CSRF, CORS, CLI, admin panel, mail, storage, deployment, metrics, front end and sample application: thin wrappers and plumbing.
