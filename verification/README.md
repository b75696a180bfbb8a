# Verified core of the plug hub

A Dafny model of the parts of the hub whose correctness depends on interleavings, on counters
that must agree with something simpler, or on arithmetic that must match an encoder exactly. The
model follows the TypeScript branch by branch; every theorem is about every input or every run.

Asynchronous code is modelled as steps between two awaits. A component is a value `State` (or
`Sys`), one function per step, and `Run`, which folds any list of steps: a lemma about `Run` from
the initial state holds in every interleaving of callers, replicas, crashes and clocks. Where the
source is an object or a loop that changes things in place, there is also a class or a method
with the same fields and loops, proved equal to the step functions.

| files | component |
|---|---|
| `RefreshCoordinator`, `RefreshAnswers`, `SnapshotFlights`, `ListRefresh` | profile-refresh scheduler, single flight per agent, list refresh workers |
| `IdempotentPublish`, `PublishSafety`, `PublishLapses`, `PublishFallback`, `PublishAnswers`, `PublishSerialization`, `IdempotencyStore`, `ExpirationHeap` | idempotent publish across replicas, per-key promise tails, local entries and their expiry heap |
| `JsonText`, `JsonValues`, `JsonReading`, `SqlChunkCodec`, `SqlChunkShape`, `SqlStreamMerge` | exact JSON sizes, a reader for that text, columnar chunk normalization, stream merge |
| `ActionIoInput`, `ActionIoProgress`, `ActionIoConsume` | crash-safe action input and output over write-once files |
| `AccessLifecycle`, `AccessAgreement`, `AccessEffects`, `AccessAnswers`, `AccessService`, `AccessInterleaving`, `AccessCalls`, `AccessRaces`, `AccessOutcomes` | client-to-agent access requests, tokens and access rows |
| `AuditQueue`, `LatencyHistogram`, `CatalogPageCache` | head-offset queue, latency histogram, generation-checked page cache |
| `AgentProfile`, `ProfileVersionGate`, `ProfileRevisions`, `ProfileAnswers` | profile patches and the version gate |
| `Options` | the optional value the other modules share |

JSON text follows section 7 of RFC 8259, UTF-8 lengths section 3 of RFC 3629, and lone surrogates
are escaped as ECMA-262 section 25.5.2 (`JSON.stringify`) says.

## Where the code keeps less than its documentation suggests

- **Row limit.** `normalizeColumnarSqlChunk` compares the row count with `maxRows` only for a
  chunk in columnar form. A chunk that carries row maps beside a `columnar` member passes with any
  number of rows. `SqlChunkCodec.RowLimitOnlyForColumns` states exactly when a chunk within the byte
  limit is accepted, and `SqlChunkCodec.RowFormPassesRowLimit` gives an input.
- **Overlapping access calls.** With whole calls atomic the tables always agree
  (`AccessAgreement.TablesAgree`). With overlapping calls they need not. `approveByToken` and
  `rejectByToken` write `expired` unconditionally, so an access row can stay beside an expired request
  (`AccessAgreement.OverlappingCallsDisagree`). `removeApprovedAccess` reads the requests, deletes the
  rows and then marks what it had read as approved, so an approval in between leaves an approved
  request without a row (`AccessAgreement.OverlappingRemovalDisagrees`), and so does a crash between
  its two writes. `AccessRaces.RunAgreesIff` gives the exact condition over every interleaving of
  writes: the tables agree throughout a run if and only if every write met its guard, which looks only
  at the tables just before that write. For the late writes of one call as a whole,
  `AccessAgreement.LateExpiryKeepsIff`, `AccessAgreement.LateReopenKeepsIff` and
  `AccessAgreement.LateRemovalKeepsIff` say exactly when an expiry, a request and a removal that read
  earlier leave the tables in agreement. Two writes of one removal part the tables only for a moment;
  `AccessOutcomes.EndsInAgreementIff` says exactly when they agree once everything has finished: every
  write that parted a row from its approval, or a token from its request, was settled by a later one.
- **Redelivered creation.** A pulled profile that created the record is trimmed, so the same payload
  delivered again is a content conflict exactly when its name was not trimmed and nothing replaced
  the record (`ProfileVersionGate.RedeliveryIsQuietIff`, `ProfileVersionGate.PaddedNameConflicts`).
  The one parser in front of it trims, so it does not arise there
  (`ProfileVersionGate.ParsedProfilesAreQuiet`).
- **Deactivation.** `deactivate` writes the whole record it had read, version included, without
  comparing, so a profile committed in between is undone. The record is the last commit throughout a
  run if and only if every such write-back restored the version that stood
  (`ProfileVersionGate.GateHoldsIff`). The commit also creates a revision row, unique for the agent and
  version, and that row still guards the version: while it is kept, a pulled profile delivered again
  over the older record plans its commit and is refused (`ProfileRevisions.KeptRevisionRefuses`). A
  second commit takes both a stale write-back and a revision that the retention job has pruned since
  (`ProfileRevisions.PulledCommitsOnce`); `ProfileRevisions.CommitsAgainIff` gives the exact condition in
  every state and `ProfileRevisions.StaleDeactivationCommitsTwice` such a run. Without pruning a stale
  write-back can still let a later commit have a lower version
  (`ProfileRevisions.StaleDeactivationReorders`; exactly when: `ProfileRevisions.ReordersIff`), or leave
  a record that takes no http or socket write at all (`ProfileRevisions.StaleDeactivationBlocks`;
  exactly when: `ProfileRevisions.DirectWriteIff`).
- **Lapsed lease.** The publish protocol emits twice when a lease lapses before the emit
  (`PublishLapses.LapsedLeaseEmitsTwice`). `PublishLapses.LapseHarmsIff` says exactly which
  lapses do that: in every reachable state a second emit can follow the lapse, with no other failure,
  if and only if no entry is stored and the holder has emitted or still may. Only such a lapse ends
  the at-most-once theorem; the lease of a holder that died before it emitted, or after it stored its
  entry, may lapse. Failed reads before the lock do not end it either. Without it, once per process is
  what remains.
- **Resumed state.** `consume` hands a page's state on as it is in memory when it created the record
  and as parsed JSON when it found one. All consumers of all runs return equal states exactly if every
  state survives that round trip (`ActionIoConsume.EqualResultsIff`).
- **Colons in client ids.** The composed idempotency key does not determine client and key when ids
  hold colons (`PublishSerialization.ColonsCollide`); `PublishSerialization.KeysCollideIff` says exactly
  which pairs share a key.

## Model

| member | source | states |
|---|---|---|
| `RefreshCoordinator.EveryReachableState` | src/application/services/agent_profile_refresh_coordinator.ts:54-225 | in every reachable state `active` is the number of active jobs and within a positive limit, the queue is exactly the queued jobs, a free slot beside a queued job means a pump is scheduled, and `interested` is the number of unreleased waiters |
| `RefreshCoordinator.NoOvertaking` | src/application/services/agent_profile_refresh_coordinator.ts:54-71 | in every run each started job was submitted before every job still queued |
| `RefreshCoordinator.PumpIsWorkConserving` | src/application/services/agent_profile_refresh_coordinator.ts:173-188 | a pump starts exactly a prefix of the queue and ends with an empty queue or all slots taken |
| `RefreshCoordinator.OneOutcome` | src/application/services/agent_profile_refresh_coordinator.ts:190-225 | a job gets at most one outcome, keeps it in every later state, and is cancelled exactly if it never started |
| `RefreshCoordinator.LastAbortCancels` | src/application/services/agent_profile_refresh_coordinator.ts:107-137 | the last abort of a queued job cancels it; any other abort changes no job's fate |
| `RefreshCoordinator.ShutdownIsFinal` | src/application/services/agent_profile_refresh_coordinator.ts:151-157 | after shutdown the queue stays empty, nothing starts and `active` only falls |
| `RefreshCoordinator.DrainOnlyWhenIdle` | src/application/services/agent_profile_refresh_coordinator.ts:159-162 | a drain caller is let go only in a state with no active job |
| `RefreshCoordinator.RunEvolves` | src/application/services/agent_profile_refresh_coordinator.ts:213-225 | over every run settled is final, a started job never returns to the queue and the start log only grows |
| `RefreshCoordinator.ApplyKeeps` | src/application/services/agent_profile_refresh_coordinator.ts:54-225 | every step keeps the whole invariant |
| `RefreshCoordinator.Coordinator.Submit` | src/application/services/agent_profile_refresh_coordinator.ts:54-80 | the object's submit is the submit step, keeps the invariant and leaves the new job queued last with a pump scheduled, or cancelled when admission is closed |
| `RefreshCoordinator.Coordinator.Wait` | src/application/services/agent_profile_refresh_coordinator.ts:82-138 | joining, with an already aborted signal handled at once, is the wait step |
| `RefreshCoordinator.Coordinator.AbortWaiter` | src/application/services/agent_profile_refresh_coordinator.ts:119-124 | an abort is the abort step |
| `RefreshCoordinator.Coordinator.CompletionSettled` | src/application/services/agent_profile_refresh_coordinator.ts:94-105 | one observer releases every waiter of the group, in order |
| `RefreshCoordinator.Coordinator.Microtask` | src/application/services/agent_profile_refresh_coordinator.ts:164-188 | the scheduled pump, with its loop over the queue, is the pump step |
| `RefreshCoordinator.Coordinator.PresenceFailed` | src/application/services/agent_profile_refresh_coordinator.ts:190-197 | a failed presence lookup finishes every job of the batch, one by one |
| `RefreshCoordinator.Coordinator.BatchResult` | src/application/services/agent_profile_refresh_coordinator.ts:198-210 | one result of a batch is the finish step |
| `RefreshCoordinator.Coordinator.FinishJob` | src/application/services/agent_profile_refresh_coordinator.ts:213-225 | finishing frees the slot, leaves the queue, delivers, schedules and lets drains go |
| `RefreshCoordinator.Coordinator.BeginShutdown` | src/application/services/agent_profile_refresh_coordinator.ts:151-157 | the loop over the queue cancels every queued job |
| `RefreshCoordinator.Coordinator.Drain` | src/application/services/agent_profile_refresh_coordinator.ts:159-162 | a drain caller waits only while something is active |
| `RefreshCoordinator.SubmitAnswers` | src/application/services/agent_profile_refresh_coordinator.ts:54-80 | an open scheduler queues the new job last, behind the unchanged queue, with a pump scheduled and no outcome; a closed one settles it as cancelled and leaves the queue |
| `RefreshAnswers.CancelledOnlyForACause` | src/application/services/agent_profile_refresh_coordinator.ts:107-157 | in every run without an abort or a shutdown no submitted job is ever cancelled |
| `RefreshAnswers.WaitAnswers` | src/application/services/agent_profile_refresh_coordinator.ts:82-118 | a caller becomes one more parked waiter of its job and nothing else changes |
| `RefreshAnswers.AbortedWaitAnswers` | src/application/services/agent_profile_refresh_coordinator.ts:126-137 | a caller with an aborted signal gets the fallback at once and leaves nobody interested |
| `RefreshAnswers.AbortAnswers` | src/application/services/agent_profile_refresh_coordinator.ts:119-124 | an abort answers the fallback exactly once, to that waiter alone |
| `RefreshAnswers.CompletionAnswers` | src/application/services/agent_profile_refresh_coordinator.ts:94-105 | a settled job answers its outcome to exactly the waiters still parked on it |
| `RefreshAnswers.PumpAnswers` | src/application/services/agent_profile_refresh_coordinator.ts:164-188 | the pump takes a prefix of the queue, as long as slots and queue allow; those jobs run and no other job changes |
| `RefreshAnswers.ResultAnswers` | src/application/services/agent_profile_refresh_coordinator.ts:198-225 | a running job is settled with the very outcome of its refresh and its slot is free again |
| `RefreshAnswers.ShutdownAnswers` | src/application/services/agent_profile_refresh_coordinator.ts:151-157 | shutdown closes admission, cancels exactly the queued jobs and leaves running ones alone |
| `RefreshAnswers.ShutdownCloses` | src/application/services/agent_profile_refresh_coordinator.ts:151-157 | nothing submitted after a shutdown is queued |
| `RefreshAnswers.DrainsAreKept` | src/application/services/agent_profile_refresh_coordinator.ts:159-162 | in every run each drain caller is parked or let go, none is lost, and one that arrives while nothing runs is let go at once |
| `RefreshAnswers.HeadStarts` | src/application/services/agent_profile_refresh_coordinator.ts:173-188 | the head of the queue starts with the next pump whenever a slot is free |
| `RefreshAnswers.HeadCanStart` | src/application/services/agent_profile_refresh_coordinator.ts:164-225 | in every reachable state with open admission there is a continuation that starts the head of the queue |
| `SnapshotFlights.OneFlightPerAgent` | src/application/services/agent_snapshot_refresher.ts:118-167 | until the table is cleared by closing, two unfinished flights of one agent are the same flight |
| `SnapshotFlights.ForgetDropsNoOther` | src/application/services/agent_snapshot_refresher.ts:162-166 | forgetting one flight leaves every other open flight reachable under its agent, also after a clear |
| `SnapshotFlights.JoinSharesTheFlight` | src/application/services/agent_snapshot_refresher.ts:118-132 | a caller joins the open flight, opens no second one, and marks it for caching if it came from a list |
| `SnapshotFlights.RecentOnlyFromLists` | src/application/services/agent_snapshot_refresher.ts:143-150 | a recent result comes from a settled, list-joined flight of that agent and none exists while closing |
| `SnapshotFlights.Refresher.JoinFlight` | src/application/services/agent_snapshot_refresher.ts:118-160 | the object's join is the join step and answers the agent's open flight |
| `SnapshotFlights.Refresher.ForgetFlight` | src/application/services/agent_snapshot_refresher.ts:162-166 | the object's forget is the forget step |
| `SnapshotFlights.ClosingAwaitsAll` | src/application/services/agent_snapshot_refresher.ts:61-66 | in every run the completions that closing awaits are exactly those of the unfinished flights |
| `SnapshotFlights.FirstJoinOpens` | src/application/services/agent_snapshot_refresher.ts:118-142 | the first caller for an agent opens a flight that waits for the coordinator |
| `SnapshotFlights.OutcomeIsTaken` | src/application/services/agent_snapshot_refresher.ts:136-142 | a flight resolves with the outcome the coordinator gave it, and no other flight moves |
| `SnapshotFlights.ResolveStoresIff` | src/application/services/agent_snapshot_refresher.ts:143-150 | a resolved result is kept for later callers exactly if a list joined the flight and the refresher is open |
| `SnapshotFlights.ForgottenIsGone` | src/application/services/agent_snapshot_refresher.ts:162-166 | after a flight is forgotten the next caller of its agent opens a new one |
| `SnapshotFlights.ClosingEmpties` | src/application/services/agent_snapshot_refresher.ts:55-66 | closing empties the recent results at once and the table once everything has drained |
| `ListRefresh.ClaimedAtMostOnce` | src/application/services/agent_snapshot_refresher.ts:78-87 | under any worker interleaving claims are strictly increasing indices of candidates |
| `ListRefresh.ClaimedExactlyOnce` | src/application/services/agent_snapshot_refresher.ts:78-87 | without abort or rejection a finished pool claimed each candidate once, and every online item comes back with an agent that a refresh of its id answered |
| `ListRefresh.OutputKeepsTheList` | src/application/services/agent_snapshot_refresher.ts:88-91 | length, order and all other fields are kept; an agent is the old one or one answered for its own id; offline items are untouched |
| `ListRefresh.WorkerCount` | src/application/services/agent_snapshot_refresher.ts:168-173 | never an empty pool for a non-empty list, never more workers than items or than a positive limit |
| `ListRefresh.TurnAnswers` | src/application/services/agent_snapshot_refresher.ts:78-84 | at the loop head a worker claims the next candidate, or stops when there is none left or on an abort |
| `ListRefresh.EndingsAnswer` | src/application/services/agent_snapshot_refresher.ts:80-86 | a rejected refresh fails the call and stops its worker; an abort is seen by every worker at its next turn |
| `ListRefresh.AnswerIsKept` | src/application/services/agent_snapshot_refresher.ts:84-87 | a refreshed agent is kept under its own id and the worker goes on |
| `ListRefresh.OutputIs` | src/application/services/agent_snapshot_refresher.ts:88-91 | the returned list holds for each item the answer for its id, or the item as it was |
| `ListRefresh.NoWorkerStuck` | src/application/services/agent_snapshot_refresher.ts:78-87 | every worker that is not done can take a step, so the pool always finishes |
| `PublishSafety.AtMostOnePublish` | src/application/services/client_socket_event_publish.service.ts:186-296 | in every interleaving that is not degraded at most one call emits, every other success carries that emit's event id and body, and a conflict means another body; which answer each call must give is stated by the `PublishAnswers` members; holders that die, failed reads and lapses of unneeded leases are included |
| `PublishFallback.LockGivenBack` | src/application/services/client_socket_event_publish.service.ts:335-533 | in every run a call that has returned does not hold the lock, unless the store failed the release or took the lock while reporting an error |
| `PublishFallback.AtMostOncePerProcess` | src/application/services/client_socket_event_publish.service.ts:225-232 | however badly the store behaved, two emits of one process mean that process lost its local entry |
| `PublishLapses.LapsedLeaseEmitsTwice` | src/application/services/client_socket_event_publish.service.ts:335-400 | a concrete run in which a lapsed lease leads to two emits of one body |
| `PublishLapses.LapseHarmsIff` | src/application/services/client_socket_event_publish.service.ts:186-533 | in every reachable state a second emit can follow the lapse of the held lease, with no other failure, if and only if no entry is stored and the holder has emitted or still may |
| `PublishLapses.NeededLapseEmitsAgain` | src/application/services/client_socket_event_publish.service.ts:335-400 | for every such state the run that emits again: a newcomer takes the free lock and both emit |
| `PublishLapses.UnneededLapseIsHarmless` | src/application/services/client_socket_event_publish.service.ts:233-296 | after any other lapse no run without a further failure emits twice |
| `PublishSafety.SafeStep` | src/application/services/client_socket_event_publish.service.ts:186-533 | every step that does not degrade the store keeps the safety invariant |
| `PublishFallback.OnceStep` | src/application/services/client_socket_event_publish.service.ts:125-146 | every step keeps: one running call per process, and a process that emitted remembers it or lost it |
| `PublishAnswers.LocalEntryAnswers` | src/application/services/client_socket_event_publish.service.ts:125-192 | a process that remembers the key answers the stored event id if the bodies agree and a conflict exactly if they differ, without asking the store |
| `PublishAnswers.StoredEntryAnswers` | src/application/services/client_socket_event_publish.service.ts:208-267 | so does a call that finds the entry at its first look or while it polls |
| `PublishAnswers.RecheckedEntryAnswers` | src/application/services/client_socket_event_publish.service.ts:275-290 | so does a call that finds it under the lock, after giving the lock back |
| `PublishAnswers.NoEntryGoesOn` | src/application/services/client_socket_event_publish.service.ts:204-296 | without an entry each look goes on: to the lock, to the next poll, to the emit |
| `PublishAnswers.FailedReadAnswers` | src/application/services/client_socket_event_publish.service.ts:253-295 | a read that throws fails the call, under the lock only after giving that back; a poll that runs out answers busy |
| `PublishAnswers.SwallowedReadAnswers` | src/application/services/client_socket_event_publish.service.ts:204-296 | a read whose failure was swallowed goes on as if there were no entry |
| `PublishAnswers.LockErrorAnswers` | src/application/services/client_socket_event_publish.service.ts:219-232 | a call that cannot ask for the lock emits without it |
| `PublishAnswers.WorldSteps` | src/application/services/client_socket_event_publish.service.ts:335-533 | a lapse takes the lock, an expiry the entry or one process memory of it, and nothing else |
| `PublishAnswers.CrashTakes` | src/application/services/client_socket_event_publish.service.ts:186-533 | a process dies with its running call and its memory; lock and entry stay |
| `PublishAnswers.AnswerStays` | src/application/services/client_socket_event_publish.service.ts:186-533 | a settled answer never changes; only the death of the process keeps it from its caller |
| `PublishAnswers.FailureHasACause` | src/application/services/client_socket_event_publish.service.ts:186-533 | a call fails only for a read that threw or an emit that failed, and is told busy only when its polling ran out |
| `PublishAnswers.PublishedIffEmitted` | src/application/services/client_socket_event_publish.service.ts:335-519 | in every run, degraded or not, a call that returned answers "published" exactly if it emitted |
| `PublishAnswers.EmitterFinishes` | src/application/services/client_socket_event_publish.service.ts:468-533 | from the emit on: the event is remembered locally and in the store, the lock is free and the answer is "published" |
| `PublishAnswers.NewcomerPublishes` | src/application/services/client_socket_event_publish.service.ts:186-519 | in every state with a free lock and no entry a new call on an idle process publishes once and answers so |
| `PublishAnswers.NewcomerIsAnswered` | src/application/services/client_socket_event_publish.service.ts:186-214 | in every state with a stored entry a new call on an idle process is answered from it and emits nothing |
| `PublishSerialization.OneAtATimeInCallOrder` | src/application/services/client_socket_event_publish_idempotency_serialization.ts:31-63 | tasks of one key never overlap, start in call order whatever earlier ones did, and tracked keys stay within a positive cap |
| `PublishSerialization.TrackedIffUnfinished` | src/application/services/client_socket_event_publish_idempotency_serialization.ts:52-62 | a key is tracked exactly while it has an unfinished call |
| `PublishSerialization.OnlyNewestRemoves` | src/application/services/client_socket_event_publish_idempotency_serialization.ts:54-60 | an entry disappears only when the newest call of its key closes |
| `PublishSerialization.OldestCanStep` | src/application/services/client_socket_event_publish_idempotency_serialization.ts:52-53 | the oldest unfinished call of a key can always proceed |
| `PublishSerialization.KeysAreDistinct` | src/application/services/client_socket_event_publish_idempotency_serialization.ts:17-18 | client ids without a colon never share a composed key |
| `PublishSerialization.KeysCollideIff` | src/application/services/client_socket_event_publish_idempotency_serialization.ts:17-18 | for all strings, two calls share a key exactly if client and key are the same or one client id runs on, past a colon, into the other's key |
| `PublishSerialization.ColonsCollide` | src/application/services/client_socket_event_publish_idempotency_serialization.ts:17-18 | two different clients with one composed key |
| `PublishSerialization.ApplyKeeps` | src/application/services/client_socket_event_publish_idempotency_serialization.ts:31-63 | every step keeps the invariant on calls, tails and starts |
| `PublishSerialization.Tails.RunWith` | src/application/services/client_socket_event_publish_idempotency_serialization.ts:31-63 | entering is the enter step and is refused exactly when the map is full and the key new |
| `PublishSerialization.Tails.TaskStarts` | src/application/services/client_socket_event_publish_idempotency_serialization.ts:53-53 | a task starting after its predecessor closed is the begin step |
| `PublishSerialization.Tails.TailCloses` | src/application/services/client_socket_event_publish_idempotency_serialization.ts:54-60 | the tail's clean-up is the close step |
| `PublishSerialization.EnterAnswers` | src/application/services/client_socket_event_publish_idempotency_serialization.ts:31-51 | entering adds a call behind the tail of its key, or refuses exactly when the map is full and the key is new |
| `PublishSerialization.PhasesAnswer` | src/application/services/client_socket_event_publish_idempotency_serialization.ts:44-62 | a task starts only when the tail before it has closed, settles as it ends, and then closes |
| `ExpirationHeap.Heap.Set` | src/shared/utils/indexed_expiration_heap.ts:18-28 | adding or renewing keeps heap order and the position index, and the map of expiries gains exactly that key |
| `ExpirationHeap.Heap.Delete` | src/shared/utils/indexed_expiration_heap.ts:30-40 | deleting keeps both and removes exactly that key |
| `ExpirationHeap.Heap.TakeExpired` | src/shared/utils/indexed_expiration_heap.ts:42-47 | answers a key due now with the least expiry of all and removes it; answers none exactly when none is due |
| `ExpirationHeap.Heap.Up` | src/shared/utils/indexed_expiration_heap.ts:63-71 | sifting up leaves the moved node in order with its parent and loses nothing |
| `ExpirationHeap.Heap.Down` | src/shared/utils/indexed_expiration_heap.ts:73-92 | sifting down restores the heap and loses nothing |
| `ExpirationHeap.FirstIsEarliest` | src/shared/utils/indexed_expiration_heap.ts:14-16 | the first node is due no later than any other |
| `ExpirationHeap.UpStep` | src/shared/utils/indexed_expiration_heap.ts:54-71 | one swap upwards moves the only disorder to the parent's place |
| `ExpirationHeap.DownStep` | src/shared/utils/indexed_expiration_heap.ts:73-92 | one swap downwards moves the only disorder to the earliest child's place |
| `IdempotencyStore.Store.Get` | src/application/services/client_socket_event_idempotency_store.ts:56-72 | answers an entry exactly while it has not lapsed, and drops a lapsed one from map and heap |
| `IdempotencyStore.Store.Set` | src/application/services/client_socket_event_idempotency_store.ts:74-100 | prunes, evicts and stores as `SetEntry` says, and the heap still schedules exactly the entries |
| `IdempotencyStore.Store.Prune` | src/application/services/client_socket_event_idempotency_store.ts:102-111 | removes exactly the lapsed entries, keeps the order of the rest and answers how many went |
| `IdempotencyStore.SetThenGet` | src/application/services/client_socket_event_idempotency_store.ts:56-100 | a stored entry is found until it lapses and no longer |
| `IdempotencyStore.NeverOverCapacity` | src/application/services/client_socket_event_idempotency_store.ts:84-91 | the store never holds more than its maximum |
| `IdempotencyStore.OthersEvictedIff` | src/application/services/client_socket_event_idempotency_store.ts:84-100 | storing one key costs another exactly if that is among the oldest live insertions needed to make room; every other key answers as before |
| `IdempotencyStore.MakeRoomKeepsSuffix` | src/application/services/client_socket_event_idempotency_store.ts:85-92 | eviction keeps a suffix of the insertion order, unchanged, with room for one |
| `JsonText.JsonStringBytes` | src/infrastructure/codecs/sql_stream_chunk_codec.ts:13-30 | for every UTF-16 string the scanning counter is the length of the escaped, quoted UTF-8 encoding |
| `JsonText.PlainLength` | src/infrastructure/codecs/sql_stream_chunk_codec.ts:29-29 | a string that needs no escape is its UTF-8 length plus two |
| `JsonText.EscapeWellFormed` | src/infrastructure/codecs/sql_stream_chunk_codec.ts:12-27 | escaped text has no lone surrogate, whatever the string |
| `JsonReading.Utf8ReadsBack` | src/infrastructure/codecs/sql_stream_chunk_codec.ts:52-52 | every text without lone surrogates is read back from its UTF-8 bytes |
| `JsonReading.StringReadsBack` | src/infrastructure/codecs/sql_stream_chunk_codec.ts:37-37 | every string, lone surrogates included, is read back from its quoted JSON text |
| `JsonReading.ValueReadsBack` | src/infrastructure/codecs/sql_stream_chunk_codec.ts:38-38 | every value is read back from its JSON text, whatever text follows; numbers as their text, overflows as null |
| `JsonReading.WireReadsBack` | src/infrastructure/codecs/sql_stream_chunk_codec.ts:52-52 | the bytes whose number the limits compare read back as the value, and the summed size is their number |
| `JsonReading.IntegerReadsBack` | src/infrastructure/codecs/sql_stream_chunk_codec.ts:36-36 | the decimal text of an integer stands for that integer |
| `JsonValues.SizeIsEncodedSize` | src/infrastructure/codecs/sql_stream_chunk_codec.ts:33-39 | for every JSON value the summed size is the UTF-8 length of its text |
| `SqlChunkCodec.InspectChunk` | src/infrastructure/codecs/sql_stream_chunk_inspection.ts:17-47 | the validating loop decides as `Inspect`, whose three outcomes `SqlChunkShape.RowFormIff`, `ColumnFormIff` and `InvalidIff` pin down on the raw members |
| `SqlChunkCodec.SelectedIsLast` | src/infrastructure/codecs/sql_stream_chunk_inspection.ts:33-46 | under every name the selected vector is the last one sent (on the raw members: `SqlChunkShape.CellsAreAsSent`) |
| `SqlChunkCodec.ExpansionTransposes` | src/infrastructure/codecs/sql_stream_chunk_inspection.ts:65-90 | row i holds under each name the i-th value of the last vector of that name and nothing else (on the raw members: `SqlChunkShape.CellsAreAsSent`) |
| `SqlChunkCodec.ExpandInspectedRows` | src/infrastructure/codecs/sql_stream_chunk_inspection.ts:65-90 | the filling loops build exactly those rows |
| `SqlChunkCodec.ExpandedPayloadSize` | src/infrastructure/codecs/sql_stream_chunk_codec.ts:52-70 | the size summed before expansion is the UTF-8 length of the payload with its expanded rows |
| `SqlChunkCodec.CountRows` | src/infrastructure/codecs/sql_stream_chunk_codec.ts:62-69 | the loop that gives up early answers "over" exactly when the full sum is over |
| `SqlChunkCodec.MeasureColumns` | src/infrastructure/codecs/sql_stream_chunk_codec.ts:51-71 | either the true size is over the limit or the measured size is the true size |
| `SqlChunkCodec.JsonValueBytes` | src/infrastructure/codecs/sql_stream_chunk_codec.ts:33-39 | the length counted for a cell is the length of its JSON text |
| `SqlChunkCodec.NormalizeColumnarChunk` | src/infrastructure/codecs/sql_stream_chunk_codec.ts:42-75 | accepted exactly when valid, within the row limit (columnar form) and the true encoded size within the byte limit, and admitted; the payload is the expanded one |
| `SqlChunkCodec.RowLimitOnlyForColumns` | src/infrastructure/codecs/sql_stream_chunk_codec.ts:53-55 | within the byte limit and admitted, a chunk passes exactly when columnar form implies the row limit |
| `SqlChunkCodec.RowFormPassesRowLimit` | src/infrastructure/codecs/sql_stream_chunk_codec.ts:53-55 | two row objects beside a columnar object pass a limit of one row |
| `SqlChunkShape.TypeIff` | src/infrastructure/codecs/sql_stream_chunk_inspection.ts:38-38 | a column type is accepted exactly if it is one of the four names, or one-element lists around one, which `String` reads the same way |
| `SqlChunkShape.RowFormIff` | src/infrastructure/codecs/sql_stream_chunk_inspection.ts:18-21 | on the raw members: row form exactly for a list of rows that is not empty or has no columnar member beside it |
| `SqlChunkShape.ColumnFormIff` | src/infrastructure/codecs/sql_stream_chunk_inspection.ts:22-46 | on the raw members: columnar form with this count exactly for an empty list of rows beside an object with that count and well-formed vectors |
| `SqlChunkShape.InvalidIff` | src/infrastructure/codecs/sql_stream_chunk_inspection.ts:18-43 | everything else is invalid, with the message of the first check that fails |
| `SqlChunkShape.CellsAreAsSent` | src/infrastructure/codecs/sql_stream_chunk_inspection.ts:65-90 | on the raw members: row i of the expansion holds under each name item i of the `values` of the last vector sent under that name, and nothing under a name no vector has |
| `SqlChunkShape.PayloadMembers` | src/infrastructure/codecs/sql_stream_chunk_codec.ts:51-73 | the payload loses its columnar member, has the expanded rows and keeps every other member |
| `SqlChunkShape.VerdictIff` | src/infrastructure/codecs/sql_stream_chunk_codec.ts:48-75 | exactly which chunks come out normalized, vetoed, untouched or refused, and with which message |
| `SqlStreamMerge.StreamedReply` | src/application/agent_commands/merge_sql_stream_rpc_response.ts:30-79 | for any mix of valid chunks, normalized and merged, the rows are the initial rows followed by every chunk's rows, the total is the completion's finite number or else the sum of the counters, and `stream_id` is gone |
| `SqlStreamMerge.MergeSqlStreamRpcResponse` | src/application/agent_commands/merge_sql_stream_rpc_response.ts:30-79 | the one-shot merge is the merge of all chunk rows |
| `SqlStreamMerge.MergeRows` | src/application/agent_commands/merge_sql_stream_rpc_response.ts:81-143 | both accumulating merges give the same reply; the array is the accumulator only when owned and the initial rows are empty, otherwise fresh, and the accumulator is unchanged |
| `SqlStreamMerge.MergeIncrementally` | src/application/agent_commands/merge_sql_stream_rpc_response.ts:17-28 | appending chunk by chunk and merging once equals the one-shot merge, with the right row count |
| `SqlStreamMerge.AppendSqlStreamChunkRows` | src/application/agent_commands/merge_sql_stream_rpc_response.ts:17-28 | appends exactly the chunk's rows and answers how many |
| `SqlStreamMerge.AppendArrayElements` | src/application/agent_commands/merge_sql_stream_rpc_response.ts:10-15 | the element loop appends the source |
| `SqlStreamMerge.NormalFormKeepsRows` | src/infrastructure/codecs/sql_stream_chunk_inspection.ts:49-62 | normalizing never changes the rows a chunk stands for, and the counter counts them |
| `SqlStreamMerge.ResultOfReply` | src/application/agent_commands/merge_sql_stream_rpc_response.ts:63-78 | every member of the merged result, name by name |
| `SqlStreamMerge.EnvelopeKept` | src/application/agent_commands/merge_sql_stream_rpc_response.ts:75-78 | the envelope keeps every other member |
| `SqlStreamMerge.ListSpread` | src/application/agent_commands/merge_sql_stream_rpc_response.ts:68-69 | a result that is a list is spread into an object with each value under its index and no further property |
| `SqlStreamMerge.MergeAnswers` | src/application/agent_commands/merge_sql_stream_rpc_response.ts:30-79 | on the raw members: no result object hands the message on as it is, a stream that ended aborted or in error fails with that status, and every other stream gets its rows |
| `ActionIoInput.SentExactlyInOrder` | docs/snippets/action_io_session.ts:93-123 | over any crashes, restarts and concurrent processes the i-th dispatch is the i-th sequence number: each at most once, none skipped |
| `ActionIoInput.ClaimedPrefix` | docs/snippets/action_io_session.ts:93-123 | claimed numbers form a gap-free prefix with distinct labels, each claimed only after its predecessor was confirmed, and no predecessor is a close |
| `ActionIoInput.ReturnedMeansWritten` | docs/snippets/action_io_checkpoint.ts:45-62 | a call returns only when its own input, under its label alone, was dispatched once and confirmed; when it must return is stated by the `ActionIoProgress` members |
| `ActionIoInput.NothingAfterClose` | docs/snippets/action_io_session.ts:119-120 | once a close is claimed no later run creates another file |
| `ActionIoInput.DoKeeps` | docs/snippets/action_io_checkpoint.ts:7-30 | every step of claim, dispatch and poll keeps the invariant |
| `ActionIoProgress.OwnStepReturns` | docs/snippets/action_io_session.ts:104-117 | a process that finds its own step with the same content waits for the receipt, returns with it and sends nothing |
| `ActionIoProgress.OwnLabelOtherContentThrows` | docs/snippets/action_io_session.ts:105-105 | its own label with another content is an error |
| `ActionIoProgress.OpenStepIsPassed` | docs/snippets/action_io_session.ts:119-121 | another step that is still open, once written, moves the process to the next number |
| `ActionIoProgress.DeadEndThrows` | docs/snippets/action_io_session.ts:96-122 | a step that closed the input, a file of another session, a torn file and the last number are errors |
| `ActionIoProgress.SendAnswers` | docs/snippets/action_io_checkpoint.ts:24-30 | a send that failed for certain throws; one with an unknown outcome goes on to the receipt |
| `ActionIoProgress.FreshNumberReturns` | docs/snippets/action_io_session.ts:97-117 | a free number is claimed, written and sent once, and with the receipt the call returns |
| `ActionIoProgress.StartAnswers` | docs/snippets/action_io_session.ts:93-97 | a new call starts at the first number of its session with nothing sent |
| `ActionIoProgress.WalksPast` | docs/snippets/action_io_session.ts:96-121 | a process walks past any number of written open steps without sending anything |
| `ActionIoProgress.RestartReturns` | docs/snippets/action_io_session.ts:93-123 | in every reachable state a process restarted with a step already written walks to its file and returns, without sending, whatever crashed before |
| `ActionIoProgress.ResumeReturns` | docs/snippets/action_io_session.ts:93-123 | after any run, a call whose file was written and whose predecessors belong to its session can still return |
| `ActionIoProgress.NewStepReturns` | docs/snippets/action_io_session.ts:93-123 | a new step behind written open steps is sent exactly once, under the first free number, and returns |
| `ActionIoConsume.ConsumersAgree` | docs/snippets/action_io_session.ts:127-181 | any two consumers that return, resumed however often, have walked the same cursors and return the one state saved at the end of the chain, as written or as read back |
| `ActionIoConsume.EqualResultsIff` | docs/snippets/action_io_checkpoint.ts:7-22 | all consumers of all runs return equal states exactly if every state survives the JSON round trip |
| `ActionIoConsume.WriterAndReader` | docs/snippets/action_io_session.ts:137-179 | for every state a run in which one consumer returns it as written and another as read back |
| `ActionIoConsume.RecordsAreForever` | docs/snippets/action_io_checkpoint.ts:7-22 | a saved page record never changes and points strictly forward |
| `ActionIoConsume.OneEnd` | docs/snippets/action_io_session.ts:172-179 | there is one chain from cursor 0 and at most one end |
| `ActionIoConsume.DoKeeps` | docs/snippets/action_io_session.ts:137-179 | every step keeps the invariant and only adds to the records |
| `ActionIoConsume.SavedPageAnswers` | docs/snippets/action_io_session.ts:136-178 | a saved page is taken as it is read back: the last one is returned, any other leads on to its next cursor |
| `ActionIoConsume.NoPageAnswers` | docs/snippets/action_io_session.ts:138-146 | a torn record is an error, a missing one leads to a fetch |
| `ActionIoConsume.StartAndCrash` | docs/snippets/action_io_session.ts:127-136 | a consumer starts at cursor 0 with its initial state; one that throws or dies leaves the records alone |
| `ActionIoConsume.FreshPageAnswers` | docs/snippets/action_io_session.ts:164-178 | a fetched page is claimed, written and taken as it is in memory |
| `ActionIoConsume.RacedPageAnswers` | docs/snippets/action_io_session.ts:170-172 | a page another consumer wrote first is taken exactly if it reads back equal, else an error |
| `ActionIoConsume.WalksToEnd` | docs/snippets/action_io_session.ts:135-179 | from any cursor a consumer walks the rest of a saved chain and returns the state at its end |
| `ActionIoConsume.ResumeReturns` | docs/snippets/action_io_session.ts:127-179 | a resumed consumer of a complete saved chain reads all of it back and returns its end |
| `AccessAgreement.TablesAgree` | src/application/services/client_agent_access_decision.service.ts:114-483 | in every run of whole calls an access row exists exactly for approved requests, a pending request has exactly one token, tokens exist only for pending or expired requests and retries stay bounded |
| `AccessAgreement.RequestKeeps` | src/application/services/client_agent_access_request.service.ts:90-294 | a request call keeps that agreement, whatever it debounces, reopens or creates |
| `AccessAgreement.ByTokenKeeps` | src/application/services/client_agent_access_decision.service.ts:114-460 | a decision through a link keeps it on every branch |
| `AccessAgreement.DecideKeeps` | src/infrastructure/persistence/prisma_client_agent_access_approval_txn.ts:12-114 | both transactions keep it, with either way of consuming the token |
| `AccessAgreement.PollKeeps` | src/application/services/client_agent_access_decision.service.ts:462-483 | a status poll keeps it |
| `AccessAgreement.RevokeKeeps` | src/infrastructure/persistence/prisma_client_agent_access_approval_txn.ts:65-84 | a revocation keeps it (what it does: `AccessAnswers.RevokeAnswers`) |
| `AccessAgreement.RemoveKeeps` | src/application/services/client_agent_access_request.service.ts:331-356 | a removal by the client that nothing overlaps keeps it |
| `AccessAgreement.SweepKeeps` | src/application/services/agent_data_maintenance.service.ts:293-364 | the expiry sweep keeps it |
| `AccessEffects.RequestEffect` | src/application/services/client_agent_access_request.service.ts:130-294 | after an answered request every listed agent without access is pending, asked for now with a link of full lifetime and the right retry count unless debounced; every other request is untouched |
| `AccessEffects.CallMoves` | src/application/services/client_agent_access_decision.service.ts:114-483 | every call moves a request only along the lifecycle diagram and counts one retry exactly for a reopening |
| `AccessEffects.RetriesAreReopenings` | src/application/services/client_agent_access_request.service.ts:186-213 | in every run the retry count is the number of reopenings; resends of a pending request are free |
| `AccessEffects.DoneIffDecided` | src/application/services/client_agent_access_decision.service.ts:130-280 | a link decides exactly when known, not lapsed, pending and grantable, and then status, access row and token are as decided |
| `AccessEffects.WrittenExactly` | src/infrastructure/persistence/prisma_pending_client_agent_access.writer.ts:18-63 | a committed write leaves exactly its rows and tokens and every other request alone |
| `AccessAnswers.RevokeAnswers` | src/infrastructure/persistence/prisma_client_agent_access_approval_txn.ts:65-84 | after a revocation the pair has no row, its request is revoked if it was approved and unchanged otherwise, and every other pair and every token is as before; only the owner can |
| `AccessAnswers.RemovalAnswers` | src/application/services/client_agent_access_request.service.ts:331-356 | a removal takes the rows of the listed pairs and revokes exactly those it had read as approved |
| `AccessAnswers.RemoveAnswers` | src/application/services/client_agent_access_request.service.ts:331-356 | undisturbed, the client then holds none of the listed agents and none of those requests is approved |
| `AccessAnswers.OwnerAnswers` | src/application/services/client_agent_access_decision.service.ts:530-636 | one outcome for each case of an owner decision: missing, not the owner, not pending, not eligible, decided; a decision changes status, row and tokens only in the last |
| `AccessAnswers.LinkAnswers` | src/application/services/client_agent_access_decision.service.ts:130-280 | one outcome for each case of what a link decision finds, with the token it deletes and the status it leaves |
| `AccessAnswers.LostDecisionAnswers` | src/application/services/client_agent_access_decision.service.ts:331-450 | a decision that lost the race changes no request: an approval leaves the token, a rejection deletes it |
| `AccessAnswers.PollAnswers` | src/application/services/client_agent_access_decision.service.ts:462-483 | a poll changes at most one thing: a pending request with a lapsed token becomes expired |
| `AccessAnswers.SweepAnswers` | src/application/services/agent_data_maintenance.service.ts:293-364 | a sweep deletes exactly the lapsed tokens and expires exactly the pending requests that had one |
| `AccessAnswers.RequestLists` | src/application/services/client_agent_access_request.service.ts:90-294 | agent by agent, which list of the answer holds it: with access, new, asked for again, debounced, requested |
| `AccessAnswers.ListsInOrder` | src/application/services/client_agent_access_request.service.ts:90-160 | the lists of requested, new, reopened and debounced agents follow the order in which the call first named them |
| `AccessAnswers.RefusedRequestChangesNothing` | src/application/services/client_agent_access_request.service.ts:90-213 | a call that is refused, stopped or fails writes nothing; it is refused exactly for an unknown client or an unowned agent that still needs access |
| `AccessAnswers.RetryAnswers` | src/application/services/client_agent_access_request.service.ts:296-329 | a retry is refused to strangers, answered at once where approved access stands, and otherwise is a request for that agent |
| `AccessAnswers.RetryAsksAgain` | src/application/services/client_agent_access_request.service.ts:296-329 | after a successful retry the pair is pending, asked for now unless debounced |
| `AccessAgreement.StopsIffExhausted` | src/application/services/client_agent_access_request.service.ts:186-201 | a request is refused for retries exactly when a listed decided request has used up a positive maximum |
| `AccessAgreement.PlanPartitions` | src/application/services/client_agent_access_request.service.ts:170-224 | each agent worked on is in exactly the list its state calls for (new, reopened or debounced), the lists add up to all of them, and rows are written for the first two |
| `AccessAgreement.PollKeepsLinkExpired` | src/application/services/client_agent_access_decision.service.ts:471-481 | after a poll persisted an expiry the link still answers "expired", not "unknown" |
| `AccessAgreement.LinkWorksOnce` | src/application/services/client_agent_access_decision.service.ts:130-183 | after any answer but "not eligible" the same link is unknown |
| `AccessAgreement.LateExpiryKeepsIff` | src/application/services/client_agent_access_decision.service.ts:152-156 | an expiry decided on an earlier read leaves requests, tokens and access rows in agreement exactly if the request has not been approved since |
| `AccessAgreement.LateReopenKeepsIff` | src/infrastructure/persistence/prisma_pending_client_agent_access.writer.ts:18-63 | pending rows built on an earlier read and committed now leave them in agreement exactly if none of their pairs has access by now |
| `AccessAgreement.LateRemovalKeepsIff` | src/application/services/client_agent_access_request.service.ts:331-356 | a removal that read earlier leaves them in agreement exactly if every listed request approved now was approved then and none that it marks has been opened again |
| `AccessAgreement.OverlappingRemovalDisagrees` | src/application/services/client_agent_access_request.service.ts:331-356 | a removal overlapping an approval that leaves an approved request without an access row |
| `AccessRaces.RunAgreesIff` | src/application/services/client_agent_access_decision.service.ts:114-483 | over every interleaving of single writes the tables agree throughout if and only if every write met its guard |
| `AccessRaces.StepAgreesIff` | src/infrastructure/persistence/prisma_client_agent_access_approval_txn.ts:12-114 | one write keeps the whole agreement if and only if its guard holds |
| `AccessRaces.AccessIff` | src/application/services/client_agent_access_decision.service.ts:152-156 | access rows stay in step with approvals exactly if pending rows meet no access row, a status write matches the row, and a removal meets none |
| `AccessRaces.TokensIff` | src/infrastructure/persistence/prisma_client_agent_access_approval_txn.ts:47-57 | tokens stay with pending or expired requests exactly if a decision consumes its own token, no deciding status meets a token and no pending request's token is dropped |
| `AccessOutcomes.EndsInAgreementIff` | src/application/services/client_agent_access_decision.service.ts:114-483 | over every interleaving of single writes requests, tokens and access rows agree at the end if and only if every write that parted them was settled by a later one |
| `AccessOutcomes.WrongIffUnsettled` | src/application/services/client_agent_access_decision.service.ts:114-483 | a pair ends without its row or its token, or with a stray one, exactly if some write caused that and none after it settled it |
| `AccessOutcomes.StepOutcome` | src/infrastructure/persistence/prisma_client_agent_access_approval_txn.ts:12-114 | for each write, exactly when a pair is wrong after it, in each of the four ways |
| `AccessOutcomes.FinishedRemoval` | src/application/services/client_agent_access_request.service.ts:331-356 | a finished removal leaves wrong exactly the listed pairs approved by now that it had not read as approved, and those it marked that have a token again |
| `AccessOutcomes.RemovalSparesOthers` | src/application/services/client_agent_access_request.service.ts:331-356 | a removal leaves every other pair as it stood |
| `AccessOutcomes.FinishedExpiry` | src/application/services/client_agent_access_decision.service.ts:152-156 | a finished expiry leaves wrong the pair it expires exactly if that has an access row by now, and spares the others |
| `AccessAgreement.OverlappingCallsDisagree` | src/application/services/client_agent_access_decision.service.ts:130-157 | two overlapping link decisions that leave an access row beside an expired request |
| `AccessService.Tables.RequestAccess` | src/application/services/client_agent_access_request.service.ts:90-294 | the loops over agents and the write leave tables and answer as specified, all or nothing |
| `AccessService.Tables.WritePendingRequests` | src/infrastructure/persistence/prisma_pending_client_agent_access.writer.ts:9-67 | the upsert loop commits all rows or none |
| `AccessService.Tables.RemoveApprovedAccess` | src/application/services/client_agent_access_request.service.ts:331-356 | undisturbed, rows go and exactly the approved requests of the listed agents become revoked |
| `AccessService.Tables.FinishRemoval` | src/application/services/client_agent_access_request.service.ts:337-346 | the writes of a removal on any later tables: rows go, and exactly what was read as approved becomes revoked |
| `AccessService.Tables.ApprovePendingAndGrantAccess` | src/infrastructure/persistence/prisma_client_agent_access_approval_txn.ts:12-63 | compare-and-set on pending, access row and token in one step |
| `AccessService.Tables.RejectPendingAndConsumeToken` | src/infrastructure/persistence/in_memory_client_agent_access_approval_txn.ts:66-84 | compare-and-set on pending and token in one step |
| `AccessService.Tables.RevokeAccess` | src/infrastructure/persistence/in_memory_client_agent_access_approval_txn.ts:53-64 | on the fields: the row is gone, the request is revoked if it was approved, every other pair and token is as before, and the answer says whether there was a row |
| `AccessService.Tables.DecideByToken` | src/application/services/client_agent_access_decision.service.ts:130-280 | the ordered checks and writes end in the specified tables and outcome |
| `AccessService.Tables.SweepExpired` | src/application/services/agent_data_maintenance.service.ts:293-364 | the two batched loops, for every batch size, expire exactly the pending requests with a lapsed token, delete exactly the lapsed tokens, and report both counts |
| `AccessService.ClassifyAll` | src/application/services/client_agent_access_request.service.ts:170-224 | the classifying loop, with its early return, computes the plan |
| `AccessService.OldestFirst` | src/application/services/agent_data_maintenance.service.ts:305-306 | a batch is the requested number of earliest expiries |
| `AccessInterleaving.EachRoundDecidedOnce` | src/infrastructure/persistence/prisma_client_agent_access_approval_txn.ts:12-114 | with every write interleaved freely, each time a request is pending it is approved or rejected at most once |
| `AccessInterleaving.RetryBoundHolds` | src/application/services/client_agent_access_request.service.ts:186-213 | the retry count never passes a positive maximum, stale reads included |
| `AccessInterleaving.AccessOnlyByApproval` | src/infrastructure/persistence/prisma_client_agent_access_approval_txn.ts:12-46 | an access row always goes back to an approval of that pair, and a request never has two tokens |
| `AccessCalls.LinkCallIsSteps` | src/application/services/client_agent_access_decision.service.ts:130-280 | the writes of a link decision, fixed by whatever it had read, are steps of that machine and leave what the call leaves |
| `AccessCalls.OwnerCallIsSteps` | src/application/services/client_agent_access_decision.service.ts:530-636 | so are those of an owner decision |
| `AccessCalls.PollIsSteps` | src/application/services/client_agent_access_decision.service.ts:462-483 | so are those of a status poll |
| `AccessCalls.RequestCallIsSteps` | src/application/services/client_agent_access_request.service.ts:130-294 | so are the read and the write of a request call |
| `AccessCalls.RemovalIsSteps` | src/application/services/client_agent_access_request.service.ts:331-356 | so are those of a removal, from any earlier read |
| `AccessCalls.SweepBatchIsSteps` | src/application/services/agent_data_maintenance.service.ts:293-340 | so are those of a sweep transaction over any tokens |
| `AccessCalls.DropBatchIsSteps` | src/application/services/agent_data_maintenance.service.ts:342-364 | so are those of a batch of the second sweep loop |
| `AuditQueue.Queue.Enqueue` | src/application/services/socket_audit.service.ts:316-325 | a push onto a drop-oldest queue of bounded length |
| `AuditQueue.Queue.DequeueBatch` | src/application/services/socket_audit.service.ts:136-147 | takes the oldest events, at least one and at most the asked number |
| `AuditQueue.Queue.Length` | src/application/services/socket_audit.service.ts:118-119 | the length is the number of live events |
| `AuditQueue.Queue.Clear` | src/application/services/socket_audit.service.ts:198-204 | a missing table empties the queue and answers how many events were skipped |
| `AuditQueue.Queue.Compact` | src/application/services/socket_audit.service.ts:121-134 | compaction changes no live element and total moves never exceed total removals |
| `AuditQueue.PhysicalBound` | src/application/services/socket_audit.service.ts:130-133 | the array is never longer than the larger of live + 63 and twice the live length |
| `AuditQueue.AuditBooksBalance` | src/application/services/socket_audit.service.ts:191-331 | in every run each attempted event stands in exactly one place (sampled out, dropped, skipped, written, failed, awaiting the table probe, queued or being written), nothing else does, the queue is bounded and order is kept |
| `AuditQueue.CountersAddUp` | src/application/services/socket_audit.service.ts:191-331 | in every run the attempts are the sum of the counters and of the events still on their way |
| `AuditQueue.RunStaysSound` | src/application/services/socket_audit.service.ts:191-331 | every run keeps that partition by event, the order and the bound |
| `AuditQueue.RecordAnswers` | src/application/services/socket_audit.service.ts:278-331 | a recorded event is sampled out, or queued last while the oldest makes room in a full queue |
| `AuditQueue.DirectAnswers` | src/application/services/socket_audit.service.ts:286-313 | a direct event waits for the table probe and is then written alone, or skipped |
| `AuditQueue.FlushAnswers` | src/application/services/socket_audit.service.ts:136-147 | a flush takes the oldest events, at least one and at most the asked number |
| `AuditQueue.MissingTableAnswers` | src/application/services/socket_audit.service.ts:197-204 | without the table everything queued is counted as skipped |
| `AuditQueue.WriteAnswers` | src/application/services/socket_audit.service.ts:206-241 | a finished write is counted whole under its result, and nothing else is |
| `LatencyHistogram.FindBucketIndex` | src/application/services/redis_command_latency_histogram.ts:45-58 | the binary search finds the bucket of a duration, or one past the end exactly above the last bound |
| `LatencyHistogram.CumulativeStep` | src/application/services/redis_command_latency_histogram.ts:86-93 | observations at or below a bound are those at or below the previous one plus the bucket's own |
| `LatencyHistogram.InsideBucket` | src/application/services/redis_command_latency_histogram.ts:98-111 | the bucket found is never empty and the interpolated value lies inside it |
| `LatencyHistogram.QuantileInRankBucket` | src/application/services/redis_command_latency_histogram.ts:94-117 | the quantile lies in the bucket of the observation of rank ceil(q n), clamped exactly when that lies above all bounds |
| `LatencyHistogram.QuantileMonotone` | src/application/services/redis_command_latency_histogram.ts:94-117 | the quantile is monotone in q |
| `LatencyHistogram.RankExists` | src/application/services/redis_command_latency_histogram.ts:94-117 | every rank has an observation |
| `LatencyHistogram.Histogram.Observe` | src/application/services/redis_command_latency_histogram.ts:67-80 | the counts stay those of the recorded observations; non-finite and negative durations are ignored |
| `LatencyHistogram.Histogram.CumulativeCounts` | src/application/services/redis_command_latency_histogram.ts:86-93 | each cumulative count is the number of observations at or below its bound |
| `LatencyHistogram.Histogram.TakeSnapshot` | src/application/services/redis_command_latency_histogram.ts:81-126 | count, sum, cumulative counts and the three quantiles are those of the observations |
| `LatencyHistogram.Histogram.Reset` | src/application/services/redis_command_latency_histogram.ts:127-133 | forgets every observation |
| `CatalogPageCache.NeverStale` | src/application/services/agent_catalog_page_cache.ts:32-58 | a returned page answers its key and began to load after every bump that had landed when the call read the generation |
| `CatalogPageCache.SixtyFourPages` | src/application/services/agent_catalog_page_cache.ts:60-68 | a cache never holds more than 64 pages or two of one key, in order of use |
| `CatalogPageCache.EvictsLeastRecentlyUsed` | src/application/services/agent_catalog_page_cache.ts:60-68 | storing keeps the new page and drops only entries used before all that stay, from a full cache |
| `CatalogPageCache.StoredThenHit` | src/application/services/agent_catalog_page_cache.ts:38-43 | a stored page is found again exactly by calls that read its generation |
| `CatalogPageCache.BumpKeeps` | src/application/services/memory_agent_catalog_generation.ts:11-13 | a landing bump keeps everything known about earlier reads |
| `CatalogPageCache.DoKeeps` | src/application/services/agent_catalog_page_cache.ts:32-68 | every step keeps the invariant |
| `CatalogPageCache.ReadAnswers` | src/application/services/agent_catalog_page_cache.ts:33-34 | the generation read is the number of bumps that have landed, or none |
| `CatalogPageCache.HitAnswers` | src/application/services/agent_catalog_page_cache.ts:38-43 | an entry of the same key and generation is answered without a load and becomes the newest |
| `CatalogPageCache.FindIs` | src/application/services/agent_catalog_page_cache.ts:38-38 | the entry found is the one under that key |
| `CatalogPageCache.MissAnswers` | src/application/services/agent_catalog_page_cache.ts:33-44 | without such an entry a load starts; without a generation the cache is emptied first |
| `CatalogPageCache.LoadAnswers` | src/application/services/agent_catalog_page_cache.ts:44-47 | a finished load is returned, and stored under the generation that was read, if any |
| `CatalogPageCache.OtherStepsAnswer` | src/application/services/agent_catalog_page_cache.ts:44-58 | a failed load fails its call alone; a bump empties its own cache before it lands |
| `CatalogPageCache.PageCache.Lookup` | src/application/services/agent_catalog_page_cache.ts:33-43 | a missing generation clears; a matching entry is answered and becomes the newest; otherwise nothing changes |
| `CatalogPageCache.PageCache.Clear` | src/application/services/agent_catalog_page_cache.ts:49-50 | a bump empties the cache before it reaches the shared counter |
| `CatalogPageCache.PageCache.Store` | src/application/services/agent_catalog_page_cache.ts:60-68 | delete, set and the eviction loop are `Remember` |
| `AgentProfile.UpdateTwice` | src/domain/entities/agent.entity.ts:163-244 | a patch applied to its own stored result changes nothing |
| `AgentProfile.UpdateAfterCreate` | src/application/services/agent_self_profile.service.ts:510-574 | a patch applied to the record it created changes at most the name |
| `AgentProfile.CreateIsUpdateOfNothing` | src/domain/entities/agent.entity.ts:93-135 | a created record is the patch applied to an empty one, with the name trimmed |
| `AgentProfile.StoredTwice` | src/shared/utils/agent_document_normalize.ts:16-25 | the stored form of a document is its own stored form |
| `AgentProfile.UpdateFields` | src/domain/entities/agent.entity.ts:163-244 | field by field, an absent patch keeps, a null clears and a value sets, in the profile and in its address |
| `AgentProfile.UpdateComposes` | src/domain/entities/agent.entity.ts:163-244 | two patches one after the other are one patch |
| `AgentProfile.CreateIff` | src/application/services/agent_self_profile.service.ts:510-574 | a record is created exactly from a name that is not blank, and gets that name trimmed |
| `AgentProfile.TrimIs` | src/application/services/agent_self_profile.service.ts:510-517 | trimming takes white space off both ends and nothing else |
| `AgentProfile.StoredIs` | src/shared/utils/agent_document_normalize.ts:16-25 | the stored document is the first twenty digits, and none exactly without digits |
| `AgentProfile.DigitsConcat` | src/shared/utils/agent_document_normalize.ts:16-25 | the digits of a text are those of its parts, in order |
| `AgentProfile.DigitsOfOne` | src/shared/utils/agent_document_normalize.ts:16-25 | of a single character exactly a digit is kept |
| `AgentProfile.ContentEqualIff` | src/application/services/agent_profile_catalog_compare.ts:7-21 | two profiles compare equal exactly if they agree once empty texts are read as none |
| `ProfileAnswers.InvalidDocumentAnswers` | src/application/services/agent_self_profile.service.ts:231-232 | an invalid document refuses every call, and nothing else is refused that way |
| `ProfileAnswers.CreateAnswers` | src/application/services/agent_self_profile.service.ts:353-405 | without a record a call with a name commits a new one under version 1, or under the pulled version; without a name it is refused |
| `ProfileAnswers.ExpectedAnswers` | src/application/services/agent_self_profile.service.ts:245-250 | an expected version that is not the standing one refuses the call |
| `ProfileAnswers.DirectAnswers` | src/application/services/agent_self_profile.service.ts:353-414 | an http or socket write commits the patched record under the next version |
| `ProfileAnswers.VersionedAnswers` | src/application/services/agent_self_profile.service.ts:252-289 | a pulled profile with a version: older is skipped, an equal one must agree, a newer one commits under its version |
| `ProfileAnswers.UnversionedAnswers` | src/application/services/agent_self_profile.service.ts:291-351 | a pulled profile without a version commits exactly if it is not outdated and changes something |
| `ProfileAnswers.CommitsIff` | src/infrastructure/repositories/prisma_agent.repository.ts:251-430 | a planned commit goes through exactly if the document is free, the dedupe key unused, the record as it was read and the revision new |
| `ProfileAnswers.OtherStepsAnswer` | src/application/services/agent_catalog.service.ts:28-36 | a read changes no record, a stub only fills a gap, a deactivation puts back the record it had read, pruning takes one revision or key |
| `ProfileAnswers.CommitAnswers` | src/infrastructure/repositories/prisma_agent.repository.ts:251-430 | it then writes the planned record, its key and its revision; otherwise nothing changes |
| `ProfileVersionGate.VersionsIncrease` | src/application/services/agent_self_profile.service.ts:231-456 | from any record, over any overlapping mix of sources, committed versions strictly increase and lie above the version that stood at the start, as long as every write-back restores the version that stands |
| `ProfileRevisions.PulledCommitsOnce` | src/application/services/agent_self_profile.service.ts:252-291 | in every run from any record, keys and revisions, stale write-backs included, a versioned pulled profile commits at most once; a second commit takes both a revision pruned since the first and a stale write-back |
| `ProfileRevisions.VersionsAreDistinct` | src/infrastructure/repositories/prisma_agent.repository.ts:391-403 | in every run a version commits at most once until its revision is pruned |
| `ProfileRevisions.CommitsAgainIff` | src/infrastructure/repositories/prisma_agent.repository.ts:251-430 | in every state of every run a committed pulled profile commits again if and only if its revision is gone, the record stands below its version and its dedupe key is not on file; otherwise nothing is committed |
| `ProfileRevisions.KeptRevisionRefuses` | src/infrastructure/repositories/prisma_agent.repository.ts:311-323 | after a stale write-back, while the revision is kept, a redelivered profile is refused and nothing changes |
| `ProfileRevisions.DirectWriteIff` | src/infrastructure/repositories/prisma_agent.repository.ts:391-403 | an http or socket write commits exactly if the next version has no revision yet |
| `ProfileRevisions.ReordersIff` | src/application/services/agent_self_profile.service.ts:353-360 | some delivery commits below the last committed version exactly if a version between the record and that one has no revision |
| `ProfileRevisions.StaleDeactivationCommitsTwice` | src/application/services/agent_data_maintenance.service.ts:193-208 | for every pulled profile a run in which a stale deactivation and a pruned revision let it commit twice |
| `ProfileRevisions.StaleDeactivationReorders` | src/application/services/agent_catalog.service.ts:28-36 | a stale deactivation after which a later commit has a lower version |
| `ProfileRevisions.StaleDeactivationBlocks` | src/application/services/agent_catalog.service.ts:28-36 | a stale deactivation after which no direct write commits |
| `ProfileVersionGate.RedeliveryIsQuietIff` | src/application/services/agent_self_profile.service.ts:252-291 | from any record, under the same condition, a committed pulled profile read again never plans a commit, and is quiet exactly unless it created the record from an untrimmed name and is still current |
| `ProfileVersionGate.ParsedProfilesAreQuiet` | src/application/services/agent_profile_sync.service.ts:188-197 | with the name trimmed by the parser every redelivery is quiet, from any record |
| `ProfileVersionGate.StubbedRecordsAreQuiet` | src/application/services/agent_access.service.ts:249-266 | once a stub record was saved every redelivery is quiet, whatever the name |
| `ProfileVersionGate.GateHoldsIff` | src/application/services/agent_catalog.service.ts:28-36 | from any record the record is the last commit throughout a run if and only if every write-back restored the version that stood |
| `ProfileVersionGate.WriteBackKeepsIff` | src/application/services/agent_catalog.service.ts:28-36 | one write-back of a record read earlier keeps the gate whole exactly if no commit came in between |
| `ProfileVersionGate.WriteBackReopensIff` | src/application/services/agent_self_profile.service.ts:252-291 | over a restored record a pulled profile plans its commit again exactly when that record is older than the profile |
| `ProfileVersionGate.PaddedNameConflicts` | src/application/services/agent_self_profile.service.ts:510-517 | a padded name, created and delivered again, is a conflict |
| `ProfileVersionGate.CommitKeeps` | src/infrastructure/repositories/prisma_agent.repository.ts:251-400 | the transaction (dedupe key, create or compare-and-set, unique revision row) keeps the record equal to the last commit and versions increasing |

## Left out

- Express and Socket.IO wiring, boot, shutdown order, namespaces and rooms: plumbing around the modelled calls.
- Prisma, Redis, mail and push adapters: only the outcomes of their transactions appear; a Redis generation that goes backwards, a stale read replica and a failed or lapsed store operation are outside the freshness and at-most-once claims or set `degraded`.
- PublishSafety.AtMostOnePublish: claims nothing once `degraded` is set, that is after a needed lease lapsed, a re-check missed a stored entry, the lock could not be asked for, a commit did not take effect or the entry expired; lease renewal is a lease that lapses or does not, and polling delays are steps that may happen at any time.
- IdempotentPublish and the action I/O session are state machines of steps, not methods: their promises, timers and renewal interval have no in-place counterpart in Dafny.
- `ActionIoSession.open` and `reconcileRun`: one claim of one file, the same pattern as an input claim.
- ActionIoInput: the empty-label check, the 64 KiB check of `write` and file-system durability beyond "a created file stays, possibly incomplete".
- ActionIoConsume.ConsumersAgree: page events and the handler are arbitrary values, timeouts appear as a consumer that throws, and `assert.deepEqual` is taken as equality.
- LatencyHistogram: durations and quantiles are real numbers, so floating-point rounding is not modelled.
- SqlChunkCodec: the `inspection` argument is taken to be the inspection of the same chunk, and a column `type` is a JSON value (a decoded object with its own `toString` is not modelled).
- SqlChunkCodec.NormalizeColumnarChunk: the row limit is stated as the code applies it, for columnar form only.
- JsonReading: a reference reader written from the standards, not a part of the program; it keeps a number as its text and an object's properties in the order of the text.
- JsonValues: a number is its decimal text; values `JSON.stringify` would omit (`undefined`, functions) do not occur in decoded payloads.
- AccessLifecycle: client, agent and ownership lookups, mail, push and socket revocation are flags or absent; decision reasons and timestamps other than `requestedAt` are not stored; listing and paging are easy reads, and the agents that already have access are answered in the order asked, where the source takes the order of its query.
- AccessInterleaving: the database executes each transaction or statement atomically; what concurrent transactions could do inside one sweep statement is covered by its separate `Mark` and `DropToken` steps.
- ProfileVersionGate: models the Prisma store; the memory store keeps no revisions and overwrites on create, and is not modelled. Document checksum, document uniqueness and the patch fingerprint are inputs, the retention job may prune any revision or key at any time, and metrics, broadcast and the status that a deactivation changes are left out.
- CatalogPageCache: the key is an opaque number; building it from scope and filter is not modelled.
- SnapshotFlights: the recent-results cache is a map whose entries may expire at any step; its 30-second timer is not modelled.
- ListRefresh: the presence lookup of the list is a given set of online ids.
- AuditQueue: the debounce timer and the table probe are steps or flags; audit rows are opaque.
- Other metrics, logging, retention, password and token code, guards, schemas and the contract-compatibility script: short branch lists or SQL with no invariant of this kind.
