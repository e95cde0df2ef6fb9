# Verified model of the event-sourced control plane and its KV-cache layer

The repository keeps the whole state of an agent in an append-only event log. `rfsn_agent` owns the log (`SQLiteEventStore`), folds it into snapshots (`reduce_event`), and lets several clients work on it at once: tool workers and runtimes. `rfsn_kv` manages the physical cache beside it. This project models the parts where something can go wrong between operations and proves what they promise over all inputs and all runs.

| file | what it models |
|---|---|
| `Schema.dfy` | records, payloads, events, hashes and signatures |
| `Reducer.dfy`, `FoldFacts.dfy` | `reduce_event` with its 14 handlers, and folding a log |
| `Consistency.dfy`, `Projection.dfy`, `ToolHistory.dfy` | what every reachable snapshot satisfies, and what each of its collections is in terms of the log |
| `LogRecords.dfy`, `LogClaims.dfy`, `Refusals.dfy` | the records of a snapshot matched one to one with the events of its log, and which events are refused, spelled out field by field |
| `ClockIndependence.dfy` | the two handlers that read the wall clock, and what that does to replays |
| `StoreTables.dfy` | every operation of the store as a function over the contents of its tables |
| `StoreFacts.dfy`, `CommitFacts.dfy`, `CommitOutcome.dfy`, `StoreTheorems.dfy` | checkpoints, replays, what a commit does and when it succeeds, retries, the optimistic lock |
| `Integrity.dfy` | what a reading detects on tables that were changed |
| `EventStore.dfy` | the store object: shared database, transactions with rollback, head cache |
| `StoreMachine.dfy` | every run of any number of store instances from the creation of the database on |
| `Counterexamples.dfy` | reachable stores at which a promise of the source fails |
| `ToolWorker.dfy`, `WorkerSafety.dfy`, `WorkerOutcomes.dfy` | the tool worker, any number of its calls interleaved over the shared log, and where what they commit comes from |
| `Actions.dfy`, `ActionEffects.dfy`, `Runtime.dfy` | actions, what they come to, and concurrent runtimes |
| `ClientRuns.dfy` | the steps and runs of the store as steps and runs of the client machines |
| `CasTree.dfy`, `PayloadCodec.dfy`, `PayloadWire.dfy` | offloading long strings with an explicit stack, the payload codec, and the stored form entry by entry |
| `QuantizeArithmetic.dfy`, `Quantize.dfy`, `QuantizeLayout.dfy` | min-max quantization, nibble packing, framing, and the byte layout |
| `Subsequences.dfy` | results that keep some elements of a list, in order |
| `Residency.dfy`, `PrefixIndex.dfy`, `PageTable.dfy`, `ContextAllocator.dfy` | bounded structures against their simple specifications |

## How to read the model

- **Hashes.** SHA-256 and HMAC values are constructors over the hashed term, so two digests are equal exactly when the hashed terms are. The hashes that a record stores about itself are recomputed and compared by its constructor; they are functions of the other fields and are not stored in the model.
- **The clock.** A reading of the clock during reduction is an argument. `Clock` maps the sequence number of an event to what `utc_now` returned while that event was reduced. Fresh event ids and commit timestamps come from an environment record.
- **Tables.** A table is split by trajectory, as every query of the store is. A commit is a function from tables to tables and a result; `EventStore.SQLiteEventStore.CommitEvents` is the imperative method with its loop, rollback and cache, proved equal to that function.
- **Concurrency.** A worker call or a runtime is a program counter with its private data; one step of one of them, or any operation of another client, changes the shared world. Stale snapshots are allowed wherever the code allows them. What the clients assume of the database is proved in `StoreMachine.dfy` for every run that starts with an empty one.
- **Rounding.** Python's `round` of a float quotient is any function that returns a nearest integer to the exact quotient, ties going either way. A quotient of these operands that is not a tie is at least 1/510 away from one, far more than a float64 error.

## What the code decides, where its comments say otherwise

- `commit_events` returns an idempotent retry from inside its transaction (rfsn_agent/store.py:370-377). The retry is right and changes no table, but the write lock stays taken until that instance is closed: `StoreMachine.LockedUntilClosed`, at an input `Counterexamples.RetryThenCommit`.
- `_insert_snapshot` leaves the signature column empty, while the checkpoint hash covers the signature and validation compares the column (rfsn_agent/store.py:1483-1502, 1522-1547). A stored checkpoint is therefore usable exactly when it is unsigned or the genesis one (`StoreFacts.CheckpointUsableIff`), and a signed trajectory blocks at its first automatic checkpoint, at a head divisible by 50 (`StoreTheorems.SignedStoreStopsAtFifty`, at an input `Counterexamples.SignedStoreBlocks`).
- A revised claim and a new evidence link take `created_at` from the clock, not from the event (rfsn_agent/reducer.py:318-333, 603-611), and the state hash covers it. A stored checkpoint freezes the stamps before it. So a readable trajectory can be replayed at every time exactly when no `snapshot_checkpointed` event follows one of these two after the newest stored checkpoint: `StoreFacts.AlwaysReplaysIff`, `StoreFacts.AlwaysLoadsIff`. `Counterexamples.CheckpointSplitsClocks` is a store that another clock cannot read, and `Counterexamples.SavedRevisionLoadsAlways` the same log with a checkpoint between, which every clock reads.
- `save_snapshot` accepts any `event_count`; with a wrong one the trajectory can no longer be read: `StoreTheorems.SavedSnapshotReadableIff`, at an input `Counterexamples.WrongCountBlocks`.
- The worker releases the leases of a whole batch, including leases that another call holds (rfsn_agent/tool_worker.py:147-150). So execution is exclusive only as long as nobody releases (`WorkerOutcomes.GrantsAreSeparated`); the other results are about what is committed.
- `validate_action` does not look at some of the ids that the reducer insists are new: `Actions.ValidatedPlanAcceptedIff` says which, and `Counterexamples.ValidatedActionRefused` is such an action.

## Model

| member | source | states |
|---|---|---|
| Reducer.IndexById | rfsn_agent/reducer.py:677-685 | the position returned is the first one that holds the id; nothing is returned exactly when no position holds it |
| FoldFacts.FoldConcat | rfsn_agent/reducer.py:60-73 | folding a log in two parts is folding it in one, including where and with which error it stops |
| FoldFacts.ReduceEnvelope | rfsn_agent/reducer.py:76-124 | an accepted event belongs to the trajectory, has the next sequence, links to the head by hash and, where signatures are in use, by signature, has the type of its payload, and becomes the head |
| FoldFacts.EnvelopeAcceptedIff | rfsn_agent/reducer.py:76-124 | after any log the envelope is accepted exactly when the event is the next one of the trajectory, of a known schema and of its payload's type, and links to the head by hash and, once signatures are in use, by signature |
| FoldFacts.FoldWellChained | rfsn_agent/reducer.py:135-178 | after any log there is a head hash exactly when there are events |
| FoldFacts.FoldNumbering | rfsn_agent/reducer.py:76-124 | an accepted log is numbered consecutively from the snapshot it starts at, and the fold ends at its last event |
| FoldFacts.FoldPrefix | rfsn_agent/reducer.py:96-124 | every prefix of an accepted log is accepted and the next event names the head of that prefix |
| FoldFacts.AuthenticExact | rfsn_agent/events.py:334-402 | an event is authentic exactly when its type is its payload's, its hash covers every other header field and the digest of its payload, and its signature covers that hash and the signature before it, or is absent without a key |
| FoldFacts.SameHashSameEvent | rfsn_agent/events.py:334-402 | under one signing key an event is determined by its hash |
| FoldFacts.HeadHashIdentifiesLog | rfsn_agent/events.py:214-234 | two logs accepted from one fresh trajectory and verified under one key that end in the same last_event_hash are equal event for event |
| FoldFacts.DivergentLogsNeverRejoin | rfsn_agent/reducer.py:96-124 | histories that differ anywhere after a common part differ at the head |
| Consistency.PreservedByEvidenceLinked | rfsn_agent/reducer.py:588-635 | a new link is appended to the list of its own claim and no other, starts unverified, and all other relations keep |
| Consistency.PreservedByEvidenceVerified | rfsn_agent/reducer.py:340-407 | the verified link follows its new record, verified for confirmed, refuted for refuted and inconclusive for inconclusive; the others follow their old ones |
| Consistency.PreservedByClaimRevised | rfsn_agent/reducer.py:310-337 | a revision keeps the links of every claim and all relations |
| Consistency.PreservedByContextPruned | rfsn_agent/reducer.py:457-473 | pruning keeps ids unique and leaves only items that cite existing candidates |
| Consistency.PreservedByEvidenceCurated | rfsn_agent/reducer.py:270-307 | a curated item cites only existing candidates and has a new id |
| Consistency.PreservedByToolResultReceived | rfsn_agent/reducer.py:229-267 | a result names an existing invocation that had no result |
| Consistency.ReducePreservesConsistency | rfsn_agent/reducer.py:60-73 | one accepted event leaves a consistent state consistent, whichever of the 14 handlers runs |
| Consistency.ReachableConsistent | rfsn_agent/reducer.py:340-407 | in every snapshot folded from an empty trajectory ids are unique, each claim lists exactly its links in order, each link is verified, refuted or inconclusive exactly as its last verification record says and unverified exactly without one, curated items cite existing candidates, and references resolve |
| Projection.SnapshotIsProjection | rfsn_agent/reducer.py:181-635 | every collection is read off the log: candidates, submissions and verification records as introduced, a task done exactly when a completion names it and at that time, curated items that every later pruning retained, claims with their latest content and status, links as made, the epoch of the last pruning |
| Projection.ItemsStep | rfsn_agent/reducer.py:410-506 | one event keeps candidates, curated items, submissions and tasks equal to their projections |
| Projection.ClaimsStep | rfsn_agent/reducer.py:310-337 | one event keeps the content and status of every claim those of the latest event about it |
| Projection.LinksStep | rfsn_agent/reducer.py:340-399 | one event keeps links and verification records equal to their projections; a record names the claim of its link |
| Projection.CuratedGrows | rfsn_agent/reducer.py:457-473 | one more event filters the surviving items if it prunes and leaves them alone otherwise |
| LogClaims.SnapshotFollowsLog | rfsn_agent/reducer.py:181-635 | every snapshot that a log leads to from an empty trajectory, record by record: one record for each event of its kind, in order, with the event's fields, time, actor, action id and event id; curated items exactly those that every later pruning retained; tasks done since the event that completed them; claims, links, lists of links and epoch as the latest events say |
| LogClaims.GrowingFollowLog | rfsn_agent/reducer.py:181-582 | candidates, submissions, invocations, results, verification records, links, claim ids and tasks stand at exactly the positions of the events that introduce them, each with the fields and under the name of its event |
| LogRecords.ResultsRecorded | rfsn_agent/reducer.py:229-267 | a tool result has the status that its event spells: pending, running, success, failure or timeout |
| LogRecords.CuratedRecorded | rfsn_agent/reducer.py:457-473 | the curated items are those of exactly the events whose item every later pruning retains, in order |
| LogRecords.LinksAreJudged | rfsn_agent/reducer.py:402-407 | in every reachable snapshot a link is verified, refuted or inconclusive exactly when the last evidence_verified event about it says confirmed, refuted or inconclusive, and names that verification; it is unverified and names none exactly when there is no such event |
| LogClaims.ClaimsFollowLog | rfsn_agent/reducer.py:310-337 | a claim has the content and the status of the last event that set them, the provenance of the last event about it, and that event's time or, for a revision, the reading of the clock; a link is stamped by the clock; a record names the claim of its link |
| LogClaims.LinksNamingExact | rfsn_agent/reducer.py:613-629 | the list of a claim holds the ids of exactly the links that name it, in order |
| Refusals.EnvelopeError | rfsn_agent/reducer.py:76-124 | which rule of the envelope an event breaks first |
| Refusals.SpendExact | rfsn_agent/domain.py:369-383 | spending adds exactly the amounts to what is used, takes the tokens off the reservation down to nothing, leaves the limits alone, and is refused exactly for a negative amount |
| Refusals.HandlerRefuses | rfsn_agent/reducer.py:181-635 | which of the checks of its handler an event fails first, in terms of the records that the snapshot holds, and that it is accepted when it fails none |
| ToolHistory.ReduceTools | rfsn_agent/reducer.py:189-267 | an event adds exactly its own invocation or result, charges one tool call per invocation and nothing else, and is refused for a known invocation, an unknown one or a second result |
| ToolHistory.ToolsFollowLog | rfsn_agent/reducer.py:189-267 | invocations, results and the charged budget of a snapshot are exactly what the log says |
| ToolHistory.OneInvocation | rfsn_agent/reducer.py:189-226 | no invocation id occurs twice in an accepted log |
| ToolHistory.OneResult | rfsn_agent/reducer.py:229-267 | no invocation has two results in an accepted log |
| ToolHistory.ResultFollowsInvocation | rfsn_agent/reducer.py:229-242 | a result comes after the invocation it answers |
| ClockIndependence.ClockFreeReplaysAreEqual | rfsn_agent/reducer.py:60-73 | a log without claim_revised and evidence_linked folds identically under any two clocks |
| ClockIndependence.ReplaysAgree | rfsn_agent/reducer.py:310-337 | replays of a checkpoint-safe log under two clocks accept the same events, refuse with the same error, and differ at most in created_at of evidence links and of revised claims |
| ClockIndependence.StepAgree | rfsn_agent/reducer.py:588-635 | one event, read at two times from states equal up to those stamps, has the same outcome up to those stamps |
| ClockIndependence.AcceptedReplaysAgree | rfsn_agent/reducer.py:60-73 | any two replays that accept a log, checkpoint-safe or not, differ at most in those stamps |
| ClockIndependence.UnsafeLogSplitsReplays | rfsn_agent/reducer.py:509-524 | two replays whose readings always differ cannot both accept a log in which a checkpoint event follows a clock-reading one |
| ClockIndependence.AlwaysReplayableIff | rfsn_agent/domain.py:618-637 | folding from a given snapshot, a log that was accepted once is accepted under every clock exactly when no checkpoint event follows a clock-reading one |
| StoreTables.LatestCheckpoint | rfsn_agent/store.py:713-733 | the checkpoint chosen has the largest sequence within the bound, and one is chosen whenever there is one |
| StoreFacts.CheckpointUsableIff | rfsn_agent/store.py:513-559 | a checkpoint written by the store validates exactly when the store is unsigned or the checkpoint is the genesis one |
| Integrity.CheckpointValidIff | rfsn_agent/store.py:513-559 | on any numbered rows, validation accepts exactly the checkpoint rows that agree with themselves, with their snapshot, and with the event at their sequence |
| Integrity.TamperingIsDetected | rfsn_agent/store.py:561-605 | on tables of any contents, a changed newest checkpoint blocks every reading that would start from it, and a changed row behind it every reading of the head and every replay |
| StoreFacts.ReplayFromCheckpoint | rfsn_agent/store.py:700-742 | replay up to n starts at the newest checkpoint at or below n and folds exactly the events in between |
| StoreFacts.ReplayIsFold | rfsn_agent/store.py:700-742 | whatever a replay up to n returns is a fold of the first n events from genesis |
| StoreFacts.ReplayIsFoldFromGenesis | rfsn_agent/store.py:700-742 | a replay up to n and the fold of the first n events from genesis, each under its own clock, agree up to the stamps, and exactly if no event reads the clock; in an unsigned store both succeed if these events are checkpoint-safe |
| StoreFacts.AlwaysReplaysIff | rfsn_agent/store.py:700-742 | what can be replayed up to n at some time can be at every time exactly when no checkpoint event follows a clock-reading one after the newest checkpoint at or below n |
| StoreFacts.LoadHeadIsReplay | rfsn_agent/store.py:561-605 | the head that a commit works on is the replay of the whole log |
| StoreFacts.LoadHeadIsFold | rfsn_agent/store.py:561-605 | the loaded head is a fold of the whole log and sits at its end; an unsigned store with a checkpoint-safe log loads it |
| StoreFacts.ReplayBounds | rfsn_agent/store.py:700-742 | a replay below genesis finds no checkpoint, one beyond the head replays everything, and one of an unknown trajectory is refused |
| StoreFacts.StateHashIff | rfsn_agent/domain.py:618-637 | two snapshots have one state hash exactly when they differ at most in created_at |
| StoreFacts.AlwaysLoadsIff | rfsn_agent/store.py:561-605 | a head that loads at some time loads at every time exactly when no checkpoint event follows a clock-reading one after the newest checkpoint; events before it do not matter |
| CommitFacts.RetryReceiptsIff | rfsn_agent/store.py:355-369 | a batch with a used key yields receipts exactly when every key is used for the same request |
| CommitFacts.NewProposalsExact | rfsn_agent/store.py:396-456 | the proposals that get a row are those at the first position of each key, in order |
| CommitFacts.LoopKeepsBatchOk | rfsn_agent/store.py:396-456 | after any number of turns the loop has one row and one key per new key, a head that is the fold of the new events, the hash and signature that the next event must link to, and a receipt per proposal |
| CommitFacts.UnappendedCommit | rfsn_agent/store.py:471-476 | a refused commit, and a commit of which some key was used before, change no table |
| CommitFacts.AppendedCommit | rfsn_agent/store.py:346-482 | a successful commit with fresh keys found the expected sequence and head hash, appended one event per distinct key in order with consecutive sequences and a linked chain that the reducer accepts on the loaded head, each with the id and the time that were drawn for its proposal, registered exactly those keys, stored the new head exactly at a multiple of 50, touched no other trajectory, and kept the trajectory valid |
| CommitOutcome.SealFitsHead | rfsn_agent/store.py:396-456 | the envelope that the store seals always fits the head it links to: only a wrong event type or the handler of the event can make the reducer refuse it |
| CommitOutcome.LoopSucceedsIff | rfsn_agent/store.py:396-456 | the loop comes through exactly when each key of the batch stands for one request, every event id is free, and the reducer accepts the sealed events in turn; it commits exactly these events. What a sealed event is, field by field, is in CommitSucceedsIffAnswered |
| CommitOutcome.AutoCheckpointSucceeds | rfsn_agent/store.py:458-465 | the automatic checkpoint of an accepted batch never meets an older one |
| CommitOutcome.CommitSucceedsIff | rfsn_agent/store.py:327-482 | commit_events succeeds exactly when there are proposals, the head loads, and either every key was used for the very same request, or none was used, the head is the expected one and the sealed batch is acceptable; CommitSucceedsIffAnswered says the same without sealing |
| CommitOutcome.CommitSucceedsIffAnswered | rfsn_agent/store.py:327-482 | a batch of fresh keys is committed exactly when the head loads and is the expected one, each key stands for one request, and there are events that answer it - the i-th new proposal with the i-th drawn id and time, its own fields, the next sequence, linked and signed - with free ids, which the reducer accepts; these are then the committed ones |
| CommitOutcome.DistinctIdsSuffice | rfsn_agent/store.py:412-412 | ids drawn pairwise different and not taken are free for the whole batch |
| CommitOutcome.CommitErrors | rfsn_agent/store.py:327-482 | which error a refused commit reports: no proposals, an unreadable head, a stale head, a key used for another request, or a failed insert or reduction, the first one in the order of the batch |
| StoreTheorems.CommitKeepsTablesValid | rfsn_agent/store.py:327-482 | commit_events keeps every trajectory valid, whoever calls it with whatever arguments |
| StoreTheorems.InitKeepsTablesValid | rfsn_agent/store.py:278-313 | init_trajectory succeeds exactly for a new trajectory and starts it with an empty log and the genesis snapshot of the given or default budget |
| StoreTheorems.SaveKeepsTablesValid | rfsn_agent/store.py:765-793 | save_snapshot, given the fold of the whole log and event_count equal to its sequence, keeps the store valid |
| StoreTheorems.InitOutcome | rfsn_agent/store.py:278-313 | init_trajectory stores a row, and as genesis checkpoint an empty snapshot of this trajectory, epoch, time and budget, with a default budget when none is given, and nothing else |
| StoreTheorems.SaveOutcome | rfsn_agent/store.py:765-793 | save_snapshot succeeds exactly for the sequence, hash and signature of the last event and a sequence that has no checkpoint, and adds exactly this snapshot with the count and its digests |
| StoreTheorems.CommitExtends | rfsn_agent/store.py:634-656 | a commit only adds: no row, key or checkpoint is removed or rewritten |
| StoreTheorems.InitExtends | rfsn_agent/store.py:278-313 | init_trajectory only adds |
| StoreTheorems.SaveExtends | rfsn_agent/store.py:765-793 | save_snapshot only adds |
| StoreTheorems.ExtendsTransitive | rfsn_agent/store.py:634-656 | so any sequence of operations only adds |
| StoreTheorems.RetryIsIdempotent | rfsn_agent/store.py:346-377 | repeating a successful commit after any other operations and under any expected head changes no table and, while the trajectory can be read, returns the receipts of the original |
| StoreTheorems.FirstCommitReceipts | rfsn_agent/store.py:607-656 | every successful commit leaves a key for each proposal and returns its receipt |
| StoreTheorems.ReceiptNamesItsEvent | rfsn_agent/store.py:607-656 | a receipt names the one row of the log that carries the proposal, its key and the digest of its request |
| StoreTheorems.LockMeansNothingHappened | rfsn_agent/store.py:379-388 | a commit that passes the lock with the sequence and hash of some reading appends to exactly the log that was read: any authentic history of this trajectory that folds to the reading is the stored log, event for event |
| StoreTheorems.SignedCheckpointBlocks | rfsn_agent/store.py:1475-1547 | a signed trajectory with a checkpoint past genesis can be neither replayed nor committed to |
| StoreTheorems.SignedStoreStopsAtFifty | rfsn_agent/store.py:458-465 | the commit that brings a signed trajectory to a multiple of 50 is the last one it accepts |
| StoreTheorems.SavedSnapshotReadableIff | rfsn_agent/store.py:765-793 | what save_snapshot stores can be read back exactly when event_count is the sequence and the snapshot is unsigned; otherwise the trajectory is blocked |
| EventStore.LatestSnapshotIsWholeLog | rfsn_agent/store.py:744-763 | get_latest_snapshot returns the fold of the whole log as it is now, however many other instances have committed since the cache was filled; it succeeds whenever the head loads, so always in an unsigned store with a checkpoint-safe log |
| EventStore.ThreadSafeSnapshotIsPrefix | rfsn_agent/store.py:159-221 | the thread-safe path returns the fold of some prefix of the log, possibly old and never wrong, even if another thread fills the cache meanwhile |
| EventStore.CacheSurvives | rfsn_agent/store.py:132-136 | operations of other instances can make a cache old but not wrong |
| EventStore.LatestCacheEffect | rfsn_agent/store.py:744-763 | a reading leaves what it returned in the cache and other trajectories alone; a cached head that is still the head is returned as it is, and anything else is a replay |
| EventStore.ThreadSafeCacheEffect | rfsn_agent/store.py:159-221 | a cached entry is returned whatever happened since; otherwise the head is loaded, and the entry that another thread has stored meanwhile wins if it is the same head |
| EventStore.Database.Begin | rfsn_agent/store.py:346-352 | a write transaction begins only when no connection has one open, and remembers the tables for a rollback |
| EventStore.Database.Rollback | rfsn_agent/store.py:471-476 | a rollback restores the tables of the beginning |
| EventStore.Database.InsertEventRow | rfsn_agent/store.py:1434-1472 | an event row is inserted exactly when its id, its sequence and its key are new |
| EventStore.Database.InsertCheckpointRow | rfsn_agent/store.py:1475-1502 | a checkpoint is inserted exactly when the trajectory has none at that sequence |
| EventStore.SQLiteEventStore.Close | rfsn_agent/store.py:223-227 | closing a connection rolls back the transaction it has open, and does nothing else |
| EventStore.SQLiteEventStore.ReplayEventRows | rfsn_agent/store.py:735-742 | the loop decodes and folds row after row, stopping at the first error |
| EventStore.SQLiteEventStore.LoadTrajectoryHead | rfsn_agent/store.py:561-605 | computes the head function of the tables |
| EventStore.SQLiteEventStore.ReplayTrajectory | rfsn_agent/store.py:700-742 | computes the replay function of the tables, every row being decoded before any is reduced |
| EventStore.SQLiteEventStore.GetLatestSnapshot | rfsn_agent/store.py:744-763 | updates the cache and returns what the specification of the cache says |
| EventStore.SQLiteEventStore.GetLatestSnapshotThreadSafe | rfsn_agent/store.py:159-221 | the path for worker threads, without interference; the function it is tied to also covers interference |
| EventStore.SQLiteEventStore.InitNewTrajectory | rfsn_agent/store.py:278-313 | all or nothing, and the snapshot returned is the one stored as genesis checkpoint |
| EventStore.SQLiteEventStore.SaveCheckpoint | rfsn_agent/store.py:765-793 | all or nothing, with the error of the failing check |
| EventStore.SQLiteEventStore.CommitProposal | rfsn_agent/store.py:396-456 | one turn of the loop inside the transaction |
| EventStore.SQLiteEventStore.CommitEvents | rfsn_agent/store.py:346-482 | tables and result are those of the commit function, whose outcome CommitSucceedsIffAnswered and AppendedCommit spell out; a refusal is rolled back, the cache entry is dropped after a commit, and an idempotent retry leaves its transaction open |
| EventStore.SQLiteEventStore.CommitAfterRetry | rfsn_agent/store.py:370-377 | a retry succeeds exactly when the head loads and every key was used for the same request, and after it every commit of every connection finds the database locked |
| StoreMachine.NextIsGood | rfsn_agent/store.py:87-136 | whatever an instance does next, tables stay valid, caches and pending readings stay good, every stretch of the log behind its checkpoint stays acceptable, and history only grows |
| StoreMachine.ReachableIsValid | rfsn_agent/store.py:87-136 | from the creation of the database on, in every state of every run of any number of instances, the tables are valid and every cached snapshot was the head at some time |
| StoreMachine.HistoryGrows | rfsn_agent/store.py:634-656 | over any run no row, key or checkpoint is removed or rewritten |
| StoreMachine.ReachableIdsUnique | rfsn_agent/store.py:412-456 | in every reachable store no two events of any trajectories have one id |
| StoreMachine.ReachableReplaysIff | rfsn_agent/store.py:700-742 | a reachable trajectory can be replayed up to n at some time exactly if the store is unsigned or no checkpoint past genesis lies at or below n |
| StoreMachine.ReachableReplay | rfsn_agent/store.py:700-742 | in every reachable unsigned store a replay up to n succeeds under every clock exactly if no checkpoint event follows a clock-reading one after the newest checkpoint, and what it returns is the fold from genesis up to stamps |
| StoreMachine.ReachableReadings | rfsn_agent/store.py:744-763 | in every reachable state get_latest_snapshot returns the fold of the whole log to any instance, and a thread-safe reading that ends there the fold of a prefix, whatever happened since it began |
| StoreMachine.ReachableRetry | rfsn_agent/store.py:346-377 | over any run, repeating a successful commit later, through any instance and under any expected head, changes no table and returns the same receipts while the head loads |
| StoreMachine.LockedUntilClosed | rfsn_agent/store.py:370-377 | the lock that a retry has left taken is given back by closing that instance and by no other step |
| StoreMachine.NothingWrittenWhileLocked | rfsn_agent/store.py:370-377 | until then no step of any instance writes anything |
| Counterexamples.SignedStoreBlocks | rfsn_agent/store.py:458-465 | a signed store built from nothing takes its 50th event, and after it refuses every commit of anything by anybody |
| Counterexamples.RetrySucceeds | rfsn_agent/store.py:370-377 | a first commit, repeated, succeeds with the same receipts and no new event |
| Counterexamples.NoteBatchCommits | rfsn_agent/store.py:396-456 | over a new store a batch of any number of proposals with different keys and ids is committed, event for event |
| Counterexamples.RetryLocks | rfsn_agent/store.py:370-377 | the state after that retry is reachable and has the write lock taken; no next step writes or frees it, except closing the instance |
| Counterexamples.RetryThenCommit | rfsn_agent/store.py:370-377 | on two store objects over a new database: commit and retry succeed, and then the other store finds the database locked |
| Counterexamples.CheckpointSplitsClocks | rfsn_agent/reducer.py:509-524 | a reachable unsigned store of a claim, its revision and a checkpoint event loads at one reading of the clock and at no other |
| Counterexamples.SavedRevisionLoadsAlways | rfsn_agent/store.py:561-605 | with the revision saved before the checkpoint event, such a log loads at every reading although it is not checkpoint-safe |
| Counterexamples.WrongCountBlocks | rfsn_agent/store.py:765-793 | a save with any wrong event_count passes, and no reading or commit of the trajectory ever succeeds again |
| ToolWorker.ValidProposalsFilter | rfsn_agent/tool_worker.py:126-137 | the filter proposes only outcomes, one per invocation and none for an answered one, and drops an outcome only if its invocation is answered or proposed |
| ToolWorker.FindPendingExact | rfsn_agent/tool_worker.py:154-164 | the pending ids are those of exactly the invocations without a result, in order |
| ToolWorker.ExecutionRecordsNothing | rfsn_agent/tool_worker.py:166-210 | an execution records nothing exactly when there is no such invocation, it has a result, or it is permitted and waits for a dependency |
| ToolWorker.ExecutionRecords | rfsn_agent/tool_worker.py:176-271 | what it records otherwise: the refusal by name, the passed deadline, the exact output of the tool or the exact message of its error, under the key result-id-status, the actor and the action id of the worker |
| ToolWorker.ExecutionOutcome | rfsn_agent/tool_worker.py:166-234 | a recorded success means that the tool was permitted, ready and in time and returned exactly the content; timeout that it was permitted, ready and late; failure that it was refused or raised exactly the content |
| ToolWorker.SuccessNeedsDependencies | rfsn_agent/tool_worker.py:166-234 | an execution proposes success only if its snapshot shows success results of all dependencies and no result of the invocation |
| WorkerSafety.ExecutionIsSafe | rfsn_agent/tool_worker.py:166-234 | what a task decides on an old snapshot is safe to append to the log as it is now |
| WorkerSafety.CommitIsSafe | rfsn_agent/tool_worker.py:273-292 | the events that a commit of safe proposals appends are safe where they land |
| WorkerSafety.NextIsSafe | rfsn_agent/tool_worker.py:105-152 | every step of every call, and every operation of other clients, keeps the world safe |
| WorkerSafety.SuccessFollowsDependencies | rfsn_agent/tool_worker.py:205-230 | in every run a success result committed by the worker comes later in the log than a success result of every dependency of its invocation |
| WorkerSafety.NoTwoResults | rfsn_agent/tool_worker.py:118-137 | in every run no invocation has two results in the log, from whomever |
| WorkerSafety.DependencyPathGoesBack | rfsn_agent/tool_worker.py:205-230 | along a chain of dependent invocations that the worker has succeeded the results lie further and further back |
| WorkerSafety.DependenciesAcyclic | rfsn_agent/tool_worker.py:205-230 | invocations that the worker has succeeded never depend on each other in a circle |
| WorkerOutcomes.NextIsDecided | rfsn_agent/tool_worker.py:105-152 | whatever step comes next, everything that a call holds or a worker has committed was decided by an execution of the run |
| WorkerOutcomes.WorkerEventIsExplained | rfsn_agent/tool_worker.py:166-292 | in every run an event that a worker committed has an execution of its invocation behind it that saw and met what its status and content say, and the key, actor and action id of the worker |
| WorkerOutcomes.SuccessIsToolOutput | rfsn_agent/tool_worker.py:212-234 | in every run the content of a success result of a worker is what the tool returned in some execution of that invocation |
| WorkerOutcomes.GrantsAreSeparated | rfsn_agent/tool_worker.py:147-175 | in every run, between two grants of the lease of one invocation some call releases it: as long as nobody does, one task of all calls executes it |
| ClientRuns.StoreStepIsWorkerStep | rfsn_agent/tool_worker.py:123-137 | every step of the store is one that the machine of the tool workers allows other clients |
| ClientRuns.StoreRunIsWorkerRun | rfsn_agent/tool_worker.py:123-137 | every run of the store from its creation is a run of that machine, so what it assumes of its first state is met |
| ToolWorker.ToolWorker.TryLease | rfsn_agent/tool_worker.py:170-175 | a lease is taken exactly when nobody has it |
| ToolWorker.ToolWorker.ReleaseLeases | rfsn_agent/tool_worker.py:147-150 | all leases of the batch are released, whoever holds them |
| ToolWorker.ToolWorker.FilterProposals | rfsn_agent/tool_worker.py:123-137 | the loop computes the filter: the results of unanswered invocations, the first one for each invocation, in order |
| ToolWorker.ToolWorker.CommitResults | rfsn_agent/tool_worker.py:273-292 | commits under the head that was read; a stale head is not an error and changes nothing |
| Actions.PlanAcceptedIff | rfsn_agent/actions.py:345-566 | in a consistent state the reducer accepts a planned event, in its place in the chain, exactly when what it refers to exists and the ids it introduces are new |
| Actions.ValidatedPlanAcceptedIff | rfsn_agent/actions.py:242-337 | the event of a validated action is accepted exactly when the ids that validation does not look at are new |
| ActionEffects.ValidationExact | rfsn_agent/actions.py:204-337 | which of the three errors a validated action meets, in terms of its fields, the budget and the records that exist, and when it meets none |
| ActionEffects.PlanIsOne | rfsn_agent/actions.py:345-566 | one proposal, under the actor and the action id of the call, with the action id and the suffix of its kind as key |
| ActionEffects.ActionShows | rfsn_agent/actions.py:345-566 | once the planned event is accepted the snapshot shows what the action said, action by action: the record its result and details and the link the verdict, the claim its content, the submission its text, the invocation its tool and argument, and so on; what the action does not speak of is unchanged |
| ActionEffects.JoinSplits | rfsn_agent/actions.py:438-438 | the ids of a discard are joined by commas |
| Counterexamples.ValidatedActionRefused | rfsn_agent/actions.py:242-337 | submitting one submission id twice: the second action validates against the head, and its commit at that very head is refused |
| Runtime.ValidatedActionFits | rfsn_agent/actions.py:224-239 | a validated action with its tool call fits the budget after the log it was validated against |
| Runtime.CommittedCalls | rfsn_agent/runtime.py:80-86 | a commit that passes the lock adds at most the planned tool calls to exactly the log they were planned for |
| Runtime.ToollessCommitIsOther | rfsn_agent/runtime.py:80-86 | a commit that proposes no tool call is one of the steps that other clients may take |
| Runtime.NextIsSolvent | rfsn_agent/runtime.py:103-141 | planning, committing at any later time or again, and other clients keep every budget within its limit |
| Runtime.ToolBudgetHolds | rfsn_agent/runtime.py:59-141 | under any number of concurrent runtimes tool_calls_used is its initial value plus the number of invocations and never exceeds max_tool_calls if it started within |
| Runtime.PlanShown | rfsn_agent/runtime.py:80-87 | after a commit that appended the plan of an action, any reading of the head shows the action |
| ClientRuns.StoreStepIsRuntimeStep | rfsn_agent/runtime.py:59-141 | every step of the store that proposes no tool call is one that the machine of the runtimes allows other clients |
| ClientRuns.StoreRunIsRuntimeRun | rfsn_agent/runtime.py:59-141 | every run of the store without tool calls is a run of that machine |
| Runtime.Runtime.Execute | rfsn_agent/runtime.py:49-87 | an action that fails validation, or that meets a taken write lock, changes nothing; otherwise the tables are those of one commit of its plan at the head it was validated against; if the log has grown, it has grown by one event that carries the action, and the snapshot returned shows it |
| CasTree.FinishChildren | rfsn_agent/store.py:1648-1656 | finishing the children that were pushed on the stack is finishing their container |
| CasTree.Traverse | rfsn_agent/store.py:1626-1656 | the traversal with a stack and in-place replacement terminates, equals the recursive rewrite, and stores exactly the replaced texts |
| CasTree.MaybeOffloadToCas | rfsn_agent/store.py:1617-1656 | every string longer than 4096 characters, and nothing else, is replaced by a marker and stored |
| CasTree.MaybeResolveFromCas | rfsn_agent/store.py:1659-1694 | markers are replaced by their texts, and an unknown digest is an error |
| CasTree.ResolveOffloadedIff | rfsn_agent/store.py:1617-1694 | resolving an offloaded tree restores the original exactly when it has no dictionary whose only key is the marker with an inline string |
| CasTree.OffloadedForm | rfsn_agent/store.py:1617-1656 | a string of more than 4096 characters becomes a dictionary of __cas_ref__ and its digest, a container keeps its form with every child offloaded, everything else stays |
| CasTree.StoredExact | rfsn_agent/store.py:1617-1656 | exactly the strings of more than 4096 characters of the tree are stored, wherever they stand |
| CasTree.ResolvedForm | rfsn_agent/store.py:1659-1694 | a reference becomes the text that it names or an error, a container keeps its form with every child resolved, everything else stays |
| PayloadCodec.PayloadRoundTrip | rfsn_agent/events.py:423-606 | every typed payload, of all 14 kinds, is restored from its dictionary |
| PayloadWire.DecodesIff | rfsn_agent/events.py:473-606 | a dictionary is decoded to a payload exactly when its entries, name by name and text by text, say that payload and the type is the payload's; a missing or null entry is no value where one is optional |
| PayloadWire.EncodedSays | rfsn_agent/events.py:423-444 | the dictionary of a payload says that payload and no other |
| PayloadWire.TypeOfPayload | rfsn_agent/events.py:447-465 | each of the 14 kinds of payload has its own type of event |
| PayloadCodec.PayloadHasNoMarker | rfsn_agent/events.py:423-444 | no payload dictionary contains an inline marker, whatever its strings contain |
| PayloadCodec.StoredPayloadRoundTrip | rfsn_agent/store.py:1434-1443 | offloaded into a row, resolved and decoded again, every typed payload is the one that was stored |
| QuantizeArithmetic.RestoreInRange | rfsn_kv/codecs/quantize.py:145-150 | a decoded byte lies between the stored minimum and maximum, even if they are swapped |
| QuantizeArithmetic.RoundTrip | rfsn_kv/codecs/quantize.py:77-79 | one byte with eight bits is exact; with four it is off by at most (span + 15) / 30 and exact in a span of at most 15 |
| QuantizeArithmetic.IndexStable | rfsn_kv/codecs/quantize.py:77-79 | quantizing a restored byte gives the same index |
| Quantize.UnpackPack | rfsn_kv/codecs/quantize.py:189-207 | unpacking returns the packed indices, and the padding nibble exactly when there is room for it |
| Quantize.DecodeStep | rfsn_kv/codecs/quantize.py:130-152 | the decoder consumes exactly what the encoder wrote for a group |
| Quantize.DecompressCompressed | rfsn_kv/codecs/quantize.py:105-152 | whatever compress returns, decompress accepts, and gives the restored groups with at most one byte more |
| Quantize.EightBitRoundTrip | rfsn_kv/codecs/quantize.py:65-152 | with eight bits decompress(compress(d)) is d for every length and group size; compress fails exactly when a header count does not fit 32 bits |
| Quantize.FourBitRoundTrip | rfsn_kv/codecs/quantize.py:65-152 | with four bits every byte stays within its group's range and within the error bound, and one byte is added exactly when the length modulo the group size is odd: the minimum of the last group |
| Quantize.FourBitAccurate | rfsn_kv/codecs/quantize.py:70-84 | the bound and the range for each byte, in terms of the group it belongs to |
| Quantize.FourBitLength | rfsn_kv/codecs/quantize.py:199-207 | when the output has one byte more and what it is |
| Quantize.GroupOfIsSlice | rfsn_kv/codecs/quantize.py:183-187 | the group of a byte is the slice that the source cuts out |
| QuantizeArithmetic.RemIsMod | rfsn_kv/codecs/quantize.py:183-187 | the length of the last group, as the functions count it, is the length modulo the group size |
| Quantize.CompressionStable | rfsn_kv/codecs/quantize.py:65-152 | for both bit widths and every byte string compressing what was decompressed gives the same bytes again |
| Quantize.DecodeSucceedsIff | rfsn_kv/codecs/quantize.py:130-137 | on arbitrary bytes the decoder fails exactly when a group header is cut short |
| Quantize.Pack4Bit | rfsn_kv/codecs/quantize.py:190-197 | the loop packs two indices per byte, the first one high |
| Quantize.Unpack4Bit | rfsn_kv/codecs/quantize.py:200-207 | the loop that appends every high nibble and cuts the list at the end unpacks at most n indices |
| Quantize.Compress | rfsn_kv/codecs/quantize.py:65-88 | the loop over groups computes the compressed bytes |
| Quantize.Decompress | rfsn_kv/codecs/quantize.py:125-152 | the loop that advances an offset computes the decoded bytes or fails like the source |
| QuantizeLayout.CompressedLayout | rfsn_kv/codecs/quantize.py:65-88 | the output of compress byte by byte: group size and number of groups as four bytes each, most significant first, then for each group its minimum, its maximum and an index nearest to its place between them for every byte, two to a byte with the first one high |
| QuantizeLayout.DecompressedLayout | rfsn_kv/codecs/quantize.py:125-152 | on arbitrary bytes, what decompress reads: the header, and for each group as many indices as there are, each restored to the nearest value between the two bounds |
| Residency.VictimIsFirstOldest | rfsn_kv/residency.py:70-77 | the victim is, of the unpinned entries accessed longest ago, the first in the list |
| Residency.Load | rfsn_kv/residency.py:115-135 | afterwards the page is resident and ids are still unique: a resident page only gets a new access time, in its place; otherwise the page is appended and, if the list was full, exactly the first of the oldest unpinned entries is gone; the limit is exceeded only if it was before or every page is pinned |
| Residency.LoadOverflowsIff | rfsn_kv/residency.py:115-135 | load leaves more pages than allowed and than before exactly when it adds a page to a full manager of which every page is pinned |
| Residency.EvictOutcome | rfsn_kv/residency.py:193-212 | evict takes out exactly the first of the oldest unpinned entries and names it, or nothing if every page is pinned |
| Residency.PinOutcome | rfsn_kv/residency.py:169-187 | pin adds one to the count of a resident page, in its place, and does nothing for another |
| Residency.UnloadOutcome | rfsn_kv/residency.py:137-167 | unload takes one off the count of a pinned page, removes an unpinned one, and does nothing for a page that is not resident |
| Residency.Run | rfsn_kv/residency.py:115-222 | after any operations page ids are unique |
| Residency.PinnedPageStays | rfsn_kv/residency.py:137-187 | while the pins of a resident page outnumber the unloads it stays resident and its pin count is the difference |
| Residency.EvictAllLeavesPinned | rfsn_kv/residency.py:214-222 | evict_all leaves exactly the pinned pages, in order |
| Residency.EvictAllPages | rfsn_kv/residency.py:214-222 | the loop terminates with exactly the entries of positive pin count, in order |
| Residency.VictimIsOldest | rfsn_kv/residency.py:70-77 | the victim of a full cache is the page whose last load is the oldest |
| Residency.TraceCaches | rfsn_kv/residency.py:115-135 | for load-only traces with an increasing clock the cache holds the n most recently loaded distinct pages |
| Residency.ResidentIffRecent | rfsn_kv/residency.py:115-135 | a page is in memory exactly when it was loaded and fewer than n distinct pages have been loaded since |
| Residency.SmallerCacheIncluded | rfsn_kv/residency.py:115-135 | a smaller cache never holds a page that a larger one does not, on the same trace |
| PrefixIndex.ForkBranch | rfsn_kv/prefix_index.py:312-349 | a known source is required; the new branch comes last with its id, its root and the chain of the shared and then the added nodes, old branches and the ranges of old nodes are as they were, exactly the shared nodes count one more, and the added nodes come last |
| PrefixIndex.RegisterOutcome | rfsn_kv/prefix_index.py:235-256 | the registered branch comes last with its id, root and chain, its nodes come last, and everything before is as it was |
| PrefixIndex.ForkSharesPrefix | rfsn_kv/prefix_index.py:272-349 | after a fork get_common_prefix of the source and the new branch returns the pages of exactly the shared nodes |
| PrefixIndex.CollectedExact | rfsn_kv/prefix_index.py:351-362 | gc keeps exactly the nodes that a branch holds or that are still counted, in order, and every branch |
| PrefixIndex.CountCommon | rfsn_kv/prefix_index.py:290-299 | the loop counts the longest common prefix of two chains |
| PrefixIndex.Gc | rfsn_kv/prefix_index.py:351-362 | the loop collects exactly the referenced ids |
| PrefixIndex.RegisterKeepsForest | rfsn_kv/prefix_index.py:235-256 | registering a chain of new nodes keeps the forest |
| PrefixIndex.ForkKeepsForest | rfsn_kv/prefix_index.py:312-349 | forking a prefix of a source chain followed by new nodes keeps the forest, and succeeds exactly when the source exists; what the new chain is and who gains a count is in ForkBranch |
| PrefixIndex.GcRemovesNothing | rfsn_kv/prefix_index.py:351-362 | no node of a forest is garbage |
| PrefixIndex.CommonPrefixIsShared | rfsn_kv/prefix_index.py:272-310 | get_common_prefix returns the pages of exactly the nodes that both branches hold, in order, from the start of the first to the end of the last; it finds nothing exactly when they share no node, and fails exactly when the last shared node does not end after the first starts |
| PrefixIndex.BuiltIsForest | rfsn_kv/prefix_index.py:235-362 | in every index built by registering and forking, node ids are unique, every ref_count is the number of branches holding the node, chains have at most a common prefix in common, and gc removes nothing; that a fork shares exactly what it was given is in ForkSharesPrefix |
| PageTable.Lookup | rfsn_kv/page_table.py:106-119 | the binary search finds what a linear search finds: an entry that covers the position, and none exactly when no entry does |
| PageTable.RangeQuery | rfsn_kv/page_table.py:121-139 | on every table that the constructor accepts: lists the pages of the entries that meet the interval, in order; an empty interval is an error |
| PageTable.MeetingExact | rfsn_kv/page_table.py:121-139 | the pages listed are those of exactly the entries that have a position in the interval, in order |
| PageTable.MeetsIffHit | rfsn_kv/page_table.py:121-139 | an entry meets an interval exactly when lookup hits it somewhere in the interval |
| PageTable.WithEntry | rfsn_kv/page_table.py:141-153 | puts the entry between the earlier and the later positions and moves nothing else; the constructor refuses the result exactly when the position is taken |
| PageTable.InsertDisjoint | rfsn_kv/page_table.py:141-153 | inserting an entry that overlaps no other is accepted, keeps the table disjoint and adds exactly its own positions to what lookup finds |
| PageTable.RemoveDisjoint | rfsn_kv/page_table.py:155-159 | removing pages keeps the table disjoint and takes exactly their entries from what lookup finds |
| PageTable.RemovedExact | rfsn_kv/page_table.py:155-159 | exactly the entries of other pages stay, in order |
| ContextAllocator.SectionsWithinBudget | rfsn_agent/context.py:706-717 | no section goes over its budget |
| ContextAllocator.RankingRanked | rfsn_agent/context.py:719-722 | the ranking lists every position once, by falling priority and then by position |
| ContextAllocator.FitLengthLongest | rfsn_agent/context.py:724-730 | evicting from the end keeps the longest prefix of the ranking that fits |
| ContextAllocator.KeptIff | rfsn_agent/context.py:719-730 | a segment survives the global budget exactly when it and everything that ranks before it fit |
| ContextAllocator.AllocatedIsFittingPrefix | rfsn_agent/context.py:698-732 | allocation keeps, in original order, exactly the segments within their section budgets that fit the global budget together with everything ranked before them |
| ContextAllocator.AllocatedFits | rfsn_agent/context.py:724-732 | what is allocated fits the global budget |
| ContextAllocator.SelectedFitsAndLists | rfsn_agent/context.py:735-770 | the selection fits with its handles; when the handle segment is emitted every curated item and tool result is listed by it or by another segment and never by both; it is missing exactly when nothing is omitted or it does not fit. Which segments are selected is in SelectedExact |
| ContextAllocator.SelectedExact | rfsn_agent/context.py:180-204 | the selection in three steps, each by the positions that it keeps: the first segment of each content, the allocated ones, and one handle segment at most |
| ContextAllocator.DedupedFirsts | rfsn_agent/context.py:188-195 | the segments kept are exactly those whose content no earlier segment has, in order |
| ContextAllocator.SectionKeptExact | rfsn_agent/context.py:706-717 | a segment is dropped from its section exactly when its kind has a budget and the earlier kept ones of its kind together with it exceed the budget |
| ContextAllocator.AllocatedExact | rfsn_agent/context.py:698-732 | what is allocated, by positions: the sections filled in order, and of these the segments that fit with everything ranked before them |
| ContextAllocator.OmittedExact | rfsn_agent/context.py:735-755 | the omitted ids are exactly those that no selected segment lists, in order |
| ContextAllocator.HandlesExact | rfsn_agent/context.py:735-770 | the handle segment is appended exactly when something is omitted and it fits, and lists exactly what is omitted |
| ContextAllocator.ApplySectionBudgets | rfsn_agent/context.py:706-717 | the loop with a usage table computes the section filter |
| ContextAllocator.ApplyGlobalBudget | rfsn_agent/context.py:719-732 | the loop that evicts from the end of the ranking computes the surviving positions |
| ContextAllocator.Deduplicate | rfsn_agent/context.py:188-195 | the loop keeps exactly the first segment of each content, in order |
| ContextAllocator.AddRetrievalHandles | rfsn_agent/context.py:735-770 | the loop collects the omitted ids in order and appends the handle if it fits |
| ContextAllocator.Select | rfsn_agent/context.py:180-204 | exactly the first segment of each content, of these those that fit their sections and the global budget, in original order, and the handle segment for what is then not listed |

## Left out

- Schema migrations (rfsn_agent/store.py:835-1426) and the v1 readers: a database starts at the current schema.
- SQLite itself, WAL, SQL text, schema columns that repeat the serialized event, and the comparison of those columns when a row is read: a row is the event it serializes.
- Connections per thread: a store instance has one connection; a thread with its own connection is another instance in the model, except that they share a cache, which `EventStore.ThreadSafeSnapshotIsPrefix` covers.
- EventStore.SQLiteEventStore.GetLatestSnapshotThreadSafe: the method runs without another thread; the second look at a cache that another thread has filled is in the function it is tied to, and in the readings of `StoreMachine`.
- StoreMachine.ReachableIsValid: all instances of a run have one signing key, a reading sees one state of the tables, and save_snapshot is called as its documentation asks; what another event_count does is `Counterexamples.WrongCountBlocks`.
- SHA-256, HMAC, canonical JSON text and datetime text: collision-free or injective. A payload text that happens to be a digest is therefore distinct from that digest.
- The JSON form of snapshots: a checkpoint row stores the snapshot itself.
- content_ref, metadata and the stored self-hashes of records: derived from the modelled fields, or always empty in what the reducer builds.
- The CAS file system: a set of stored texts. Concurrent deletion of objects is not modelled.
- CasTree.Traverse: containers are addressed by their path from the root instead of by reference, so sharing of one container in two places is not captured; the trees that the store traverses are freshly built and have none.
- PayloadCodec.PayloadRoundTrip: the decoder of the model refuses a field of another JSON type, where the Python decoder passes some of them through; the round trip is about dictionaries that the encoder wrote.
- Quantize.Compress: works on the bytes of a page; the page fields around them are copied unchanged and left out.
- estimate_ratio, the identity codec, the normalizer, the MLX codec, KVPersistence and IntegrityChecker: ratios, copies, field checks and file formats of the cache are not modelled.
- Which of several errors a refused action or event reports: `ReduceError` and `ActionError` name the failing check, not the message.
- Path jails and patterns of the security profile: given as predicates. Real tool execution: its outcome is given.
- Exclusive execution, progress and polling of the worker: not claimed beyond WorkerOutcomes.GrantsAreSeparated; the worker releases leases that it does not own.
- Runtime.Runtime.Execute: runs without interference between its reading and its commit; interference, and the retries of step, are steps of the machine in the same module. run repeats step.
- Runtime.ToolBudgetHolds: is about stores in which every invocation enters through a runtime, because the reducer itself does not check the limit.
- Token counting and the texts of context segments: given. compute_epoch, renderers and packets: not modelled.
- Residency.TraceCaches: an entry's loaded_at and last_accessed are one reading of the clock; times of later operations are strictly larger, as the claim requires.
- PrefixIndex.BuiltIsForest: hashes, branch_id of a node and page_table_hash are not modelled.
- PageTable.Lookup: token_offset, layer_index and the table hash are not modelled; the constructor checks only that positions rise, lookup and the updates are about tables whose entries do not overlap, as its documentation demands.
- BudgetLedger.reserve and wall-time spending: no event reaches them.
