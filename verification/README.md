# Strata: a verified model of the write path, deletion and recall

Strata keeps memory truth in a canonical store and treats vector and lexical indexes as
disposable projections. This project models the parts that have to keep that promise and proves
what they guarantee:

- **Write Coordinator.** A durable operation log with one writer, per-id order, destructive
  barriers, exponential backoff and crash recovery. The central theorem: in every reachable state
  of every run, with operations overtaking each other in backoff, crashes at any point and
  arbitrary handler behaviour, the indexes hold exactly what applying the effective operations
  once each in log order would leave. For runs with arbitrary manual retries the exact condition
  for this is proved.
- **Canonical store and deletion.** The dependency traversal returns the connected component on
  every graph; a deletion tombstones that component before it touches a surface and ends with all
  of it verified or all of it escalated; with a drained log it is verified at the first attempt.
- **Engine.** Over whole runs of operations: a tombstone is never lost and a tombstoned record
  never recalled, a corrected record is not told as truth again unless somebody revives it and its
  replacement no longer stands, and every current record is found under its current content in
  every index at every moment if and only if each operation met a condition that can be checked
  before it. With handlers that fail, crashes and retries the same conditions decide what the log
  promises, and once everything logged is DONE the promise is kept.
- **Reflection.** Jaccard distance is a metric, so clusters have a diameter; consolidation leaves
  no two reflectable facts with equal content and keeps one record of each merged cluster.
- **Resolver.** For every candidate list, the bundle is made of canonical, undeleted, valid and
  permitted records, each once, and nothing told as truth contradicts or supersedes another part
  of it. In a coherent state a record that may be told is left out only for a full search, a full
  list or a similar record, none of which it outranks.

## How the model is built

Each source file with state is a module with a class whose fields are the tables or dictionaries
of the original, and with functions that say what one commit does to the value of that state.
Every method is specified by such a function, and the theorems are about the functions:

| module | models |
|---|---|
| Records | records and their enumerations |
| VectorStore | the in-memory vector store |
| OpLog, Coordinator, CoordinatorRuns | the operation log, the coordinator object, its interruptible runs |
| CoordinatorReplay, CoordinatorRetry, CoordinatorRevival | when exactly a run keeps log order, what decides that at a retry, and a run that does not |
| Canonical, Lexical | the canonical tables and the lexical postings |
| Surfaces, Deletion | the managed-surface registry and the deletion flow |
| Engine, EngineRuns, EngineOutcomes | the engine operations, whole runs of them, and what each leaves behind in rows, postings and searches |
| EngineReindex, EngineConvergence, EngineRecall | reindexing beyond one drain, runs with failures, and recall completeness |
| Diversity, Buffer, Reflection | similarity, clustering, consolidation and the contradiction audit |
| Resolver | candidates to belief bundle |

What comes from outside is a parameter that the theorems quantify over: clock readings and
handler outcomes (`Attempt`), the answers of further registered surfaces (`PurgeEnv`), the
tokenizer, the content hash, the permission filter, fresh ids, and the row order of queries. A
coordinator run (`CoordinatorRuns.Run`) is any list of events; an event that is not enabled changes
nothing. A handler call in such a run may take effect or not and may be acknowledged or not, in
every combination. `DrainIsRun` says that a drain of the coordinator object is such a run.

Ids are naturals, `target_ids` is a set (the code only ever uses it as one), and `seq` is the
position in the log, whose rows are never deleted.

## What the code does not promise

- Reviving a FAILED operation by `retry` can undo log order. `CoordinatorRevival` gives a run in
  which the older write wins. Exactly (`CoordinatorReplay.LogOrderIff`): the indexes follow log
  order throughout a run if and only if every handler effect comes while its operation is
  undisturbed, that is, while no later effective operation on the same store has left another row
  under one of its keys, removed an id it writes, or written an id it removes. With nothing in
  flight this is already decided when `retry` is called (`RetryKeepsLogOrderIff`). A retry that
  revives nothing behind a later operation on common ids of the same store is always fine, so a
  write that failed on one store may be retried although its sibling on another store is done
  (`LogOrderEquivalence` in its lenient reading); only the scheduler's own barriers across stores,
  `SingleWriterOrder`, need the stricter guard.
- `request_deletion` documents a job id usable with `deletion_status`. A second tombstone keeps
  the first job's id, so the job is known if and only if the deletion tombstoned something new
  (`JobKnownIff`).
- The indexes do not keep up with every operation. With succeeding handlers each current record is
  found at every moment of a run if and only if each operation met `KeepsUp` (`CoherentRunsIff`):
  a current record written into another generation must be stored with that hash in the active
  one; a correction of an id that is no record, which stores the new belief and then fails on the
  foreign key, must bring a record the indexes have; a status patch may activate only a record the
  indexes have as it is; and a promoted generation must serve every current record, those just
  reindexed aside. `EarlyPromotionExample` is a run in which a promotion loses a record.
- `reindex_into` drains at most 10,000 operations and says nothing about the rest. Exactly the
  records whose upserts fit are served (`ServedByReindexIff`), and after promotion the last store
  returns none of the others (`OverflowLosesRecord`). The rest stays logged: later drains catch up
  (`RunConverges`).
- An engine that is opened with its default generation after a promotion serves from a generation
  that its own table calls retired (`TableNamesServedIff`).
- `hard_delete` says that a tombstone keeps an id from being resurrected, but `write` does not
  look at tombstones. The row stays gone throughout a run if and only if no step stores a record
  under that id (`HardDeletedStaysGoneIff`); `Resurrected` shows the row back as written. Recall
  refuses the id in any case (`DeletedIsNeverRecalled`).
- A corrected record can become current again by a status patch or a write under its id. It stays
  retired if and only if neither gives it an active row (`RetiredStaysRetiredIff`). Even revived it
  is not told as truth while the edge to its replacement and a current replacement stand
  (`CorrectionIsPermanent`).

## Model

| member | source | states |
|---|---|---|
| CoordinatorRuns.LogOrderEquivalence | strata/coordinator/coordinator.py:104-213 | in every reachable state the indexes are the operations that took effect, applied once each in log order, whichever FAILED operations were revived behind later ones on other ids or stores |
| CoordinatorRuns.HistoryEqualsReplay | strata/coordinator/coordinator.py:93-195 | the effects that really happened, in real order and with crash repeats, amount to that replay |
| CoordinatorRuns.CrashReplayUndisturbed | strata/coordinator/coordinator.py:93-195 | between two effects of one operation no operation on common ids of its store takes effect, and in strict runs no conflicting one at all, so crash replay repeats an effect on untouched ground |
| CoordinatorRuns.CrashThenRecover | strata/coordinator/coordinator.py:93-101 | while the process is down nothing happens; after recovery the interrupted operation is pending with the attempts it had, nothing is in progress, and every other row and the indexes are as the crash found them |
| CoordinatorRuns.SingleWriterOrder | strata/coordinator/coordinator.py:104-163 | at most one operation is in progress; meanwhile each earlier unfinished one and it are both index upserts without a common id, so REMOVE_INDEX, TOMBSTONE, REINDEX_PROMOTE and HARD_PURGE are barriers both ways; operation ids are unique |
| CoordinatorRuns.DrainedRunAppliesWholeLog | strata/coordinator/coordinator.py:165-195 | with handlers that acknowledge only what they did, once every operation is DONE the indexes are the whole log applied in order |
| CoordinatorRuns.StepKeepsInv | strata/coordinator/coordinator.py:72-247 | each safe event, whether enqueue, begin, handler, settle, crash, recover or retry, keeps uniqueness, order, serialization and both index equations, for the scheduler's conflicts and for clashes on one store |
| CoordinatorReplay.LogOrderIff | strata/coordinator/coordinator.py:104-247 | for every run whatsoever, the indexes are the replay of the log at every moment if and only if every handler effect comes while its operation is undisturbed |
| CoordinatorRetry.RetryKeepsLogOrderIff | strata/coordinator/coordinator.py:237-247 | from a reachable state with nothing in flight, reviving a FAILED row keeps log order through every continuation without further unsafe retries if and only if the row is undisturbed at the retry |
| CoordinatorRetry.StepKeepsRevived | strata/coordinator/coordinator.py:72-247 | after such a revival every event keeps the row undisturbed until it is over, and every effect comes while its operation is undisturbed |
| CoordinatorReplay.StepInLogOrderIff | strata/coordinator/coordinator.py:72-247 | one event of any kind, from a state in log order, keeps it if and only if it is no disturbed effect |
| CoordinatorReplay.LateEffectIff | strata/vector/fake.py:27-67 | applying an operation now equals its place in log order if and only if no later effective one on its store left another row under its keys, removed an id it writes or wrote an id it removes |
| CoordinatorReplay.SafeRunsAreTimely | strata/coordinator/coordinator.py:237-247 | a run whose retries revive nothing behind a later operation on common ids of the same store has only undisturbed effects |
| CoordinatorRuns.StrictIsLenient | strata/coordinator/coordinator.py:129-143 | a run that respects the barriers across stores respects those of each store |
| CoordinatorRevival.RevivedFailureBreaksLogOrder | strata/coordinator/coordinator.py:237-247 | a concrete run in which a revived FAILED write overwrites a later write of the same record although both end DONE |
| CoordinatorRuns.AppliedCommute | strata/vector/fake.py:27-67 | operations on different stores or without common ids commute on every index, removals included |
| CoordinatorRuns.AppliedTwice | strata/engine.py:79-87 | every handler effect is idempotent |
| CoordinatorRuns.LateEffect | strata/coordinator/coordinator.py:146-195 | an effect that happens late, or again, lands where log order puts it unless a later operation on common ids of its store took effect |
| CoordinatorRuns.TotalBackoffBound | strata/coordinator/coordinator.py:197-213 | an operation never retried by hand has at most max_attempts attempts (at least one), is FAILED only after exactly that many, and has at most base * (2^(max_attempts-1) - 1) ms of scheduled backoff |
| CoordinatorRuns.ApplyNextIsThreeEvents | strata/coordinator/coordinator.py:146-180 | one undisturbed apply_next is begin, handler and settle of the interruptible machine |
| CoordinatorRuns.DrainIsRun | strata/coordinator/coordinator.py:224-235 | a drain is a run of that machine made of attempts only, and an honest one |
| CoordinatorRuns.DrainReachable | strata/coordinator/coordinator.py:224-235 | a drain from a reachable state ends in a reachable one, so with the indexes in log order |
| OpLog.ApplyConsumesWork | strata/coordinator/coordinator.py:146-213 | every apply_next that returns an operation strictly decreases the sum of remaining attempts, for any handler behaviour |
| OpLog.DrainStops | strata/coordinator/coordinator.py:224-235 | a drain stops within that sum of steps with nothing eligible left, if its step limit allows as many |
| CoordinatorRuns.BackoffOverRuns | strata/coordinator/coordinator.py:118-213 | after its n-th failed attempt, through any run without a manual retry of its id, an operation keeps its row and is not taken up before base * 2^(n-1) ms have passed |
| OpLog.NoDeadlock | strata/coordinator/coordinator.py:104-143 | with none in progress and all backoffs due, the scheduler finds nothing if and only if every operation is DONE or FAILED |
| OpLog.PatientDrainFinishes | strata/coordinator/coordinator.py:104-235 | if every clock reading is past the backoffs then pending, a drain ends with every operation DONE or FAILED |
| OpLog.DrainFreshTail | strata/coordinator/coordinator.py:224-235 | with succeeding handlers one drain applies exactly the first max_steps of the fresh operations behind a drained log, in order and marked DONE, and leaves the rest as they were |
| OpLog.Select | strata/coordinator/coordinator.py:104-127 | the scheduler takes the lowest eligible position; none means that nothing is eligible |
| OpLog.SelectMeaning | strata/coordinator/coordinator.py:104-143 | in states, types and ids: the chosen row is pending or partly failed and due, and it passes an unfinished row only if both are index upserts without a common id; each row in front of it is over, in progress, in backoff, or behind an unfinished row that is a barrier to it or shares an id |
| Coordinator.BlockedIsConflict | strata/coordinator/coordinator.py:129-143 | the three blocking tests say: some earlier unfinished operation conflicts |
| Coordinator.WriteCoordinator.Enqueue | strata/coordinator/coordinator.py:72-90 | appends a pending row, or nothing when the operation id is already logged |
| Coordinator.WriteCoordinator.Recover | strata/coordinator/coordinator.py:93-101 | exactly the in-progress rows become pending, and the answer is their number |
| Coordinator.WriteCoordinator.SelectEligible | strata/coordinator/coordinator.py:104-127 | the scan over not-done rows returns the lowest eligible position |
| Coordinator.WriteCoordinator.RunHandler | strata/engine.py:79-87 | row by row of the target store: upserts store the payload, REMOVE_INDEX and HARD_PURGE mark the ids, other types, unknown targets and handlers that raise first change nothing; the acknowledged ids are the payload's or the removed ones |
| Coordinator.WriteCoordinator.ApplyNext | strata/coordinator/coordinator.py:146-180 | one attempt of the chosen operation on log and stores, or no change when none is eligible |
| Coordinator.WriteCoordinator.FailOrFinish | strata/coordinator/coordinator.py:182-213 | an acknowledged row is DONE; a failed attempt is counted and FAILED when it was the last allowed, else due again after base * 2^(attempts so far) |
| Coordinator.WriteCoordinator.RunUntilIdle | strata/coordinator/coordinator.py:224-235 | repeats apply_next until none is eligible or the step limit, and counts |
| Coordinator.WriteCoordinator.Retry | strata/coordinator/coordinator.py:237-247 | exactly the failed or partly failed rows of that id become pending and due at once, attempts kept |
| Coordinator.WriteCoordinator.PendingCount | strata/coordinator/coordinator.py:274-278 | the number of operations that are neither DONE nor FAILED |
| VectorStore.InMemoryVectorStore.Upsert | strata/vector/fake.py:27-34 | stores each record under (id, generation), clears its soft delete in all generations, acknowledges exactly the payload's ids |
| VectorStore.InMemoryVectorStore.Remove | strata/vector/fake.py:62-67 | soft-deletes exactly the ids and acknowledges them |
| VectorStore.InMemoryVectorStore.Search | strata/vector/fake.py:36-56 | distinct live fitting rows of the generation, in descending score; a live fitting row is left out only when top_k rows are returned that score no less |
| VectorStore.InMemoryVectorStore.PurgeDeleted | strata/vector/fake.py:74-81 | drops soft-deleted rows and the marks that had rows, and counts the rows |
| VectorStore.PurgeKeepsLive | strata/vector/fake.py:69-81 | compaction changes no live row and no presence answer |
| VectorStore.PurgeDropsDead | strata/vector/fake.py:74-81 | compaction leaves no stored row of a soft-deleted id, keeps every other row, and clears a mark exactly when its id had a row |
| VectorStore.ContainsIsLive | strata/vector/fake.py:36-72 | contains answers true if and only if a search of some generation can return the id |
| VectorStore.UpsertMeaning | strata/vector/fake.py:27-34 | of each (id, generation) in a payload the last record is stored and the id's mark cleared; rows and marks of other ids stay |
| VectorStore.UpsertedForm | strata/vector/fake.py:27-34 | a payload amounts to one overwrite of its keys and one clearing of its marks |
| VectorStore.UpsertsCommute | strata/vector/fake.py:27-34 | upserts of disjoint id sets commute |
| VectorStore.UpsertRemoveCommute | strata/vector/fake.py:27-67 | an upsert and a removal of disjoint id sets commute |
| VectorStore.UpsertReplay | strata/vector/fake.py:27-34 | repeating an upsert changes nothing |
| Canonical.CanonicalStore.DependencyGraph | strata/canonical/store.py:282-306 | terminates on every graph and returns exactly the undirected component of the record without the record; no edge crosses out of it |
| Canonical.ComponentSymmetric | strata/canonical/store.py:282-306 | membership in a component is symmetric |
| Canonical.NoEdgeLeavesComponent | strata/canonical/store.py:282-306 | no dependency edge crosses out of a component |
| Canonical.ComponentIsLeast | strata/canonical/store.py:282-306 | in terms of edges alone: the component is the least set that holds the record and that no edge crosses out of |
| Canonical.CanonicalStore.Write | strata/canonical/store.py:104-135 | replaces the head row of the id and nothing else |
| Canonical.CanonicalStore.AddDependency | strata/canonical/store.py:137-143 | adds the edge, or fails without change when an end is no record |
| Canonical.CanonicalStore.SetStatus | strata/canonical/store.py:145-151 | changes the status of an existing row only |
| Canonical.CanonicalStore.Supersede | strata/canonical/store.py:153-162 | new row, old status and edge; the edge fails when the old id is no record |
| Canonical.CanonicalStore.MarkDeleted | strata/canonical/store.py:212-238 | tombstone and DELETED status together; a second tombstone keeps the first job id |
| Canonical.CanonicalStore.SetTombstoneState | strata/canonical/store.py:240-251 | changes the state, and the verification time when given, of an existing tombstone |
| Canonical.CanonicalStore.HardDelete | strata/canonical/store.py:270-279 | the row and its edges go, the tombstone stays |
| Lexical.LexicalStore.Index | strata/lexical/fts.py:67-75 | exactly one posting for the record, with its current content |
| Lexical.LexicalStore.Remove | strata/lexical/fts.py:77-85 | removes exactly the postings of the ids |
| Lexical.LexicalStore.Rebuild | strata/lexical/fts.py:87-100 | a posting for every canonical row, deleted and superseded included |
| Surfaces.PurgeSucceeds | strata/deletion/managed_surfaces.py:90-144 | from a drained log with succeeding handlers a purge adds one finished barrier remove per store and leaves no id on any surface |
| Surfaces.RemoveViaSucceeds | strata/deletion/managed_surfaces.py:90-97 | one coordinated removal appends one remove that is applied and done within its own drain |
| Surfaces.SurfaceRegistry.RemoveFrom | strata/deletion/managed_surfaces.py:90-97 | enqueues a remove, drives the coordinator, reports exactly the ids that a search of some generation of that store can still return |
| Surfaces.SurfaceRegistry.Purge | strata/deletion/managed_surfaces.py:141-144 | every surface in turn; the answer is the ids some surface did not let go |
| Surfaces.PurgeReports | strata/deletion/managed_surfaces.py:90-144 | the vector stores report an id if and only if a search of some store, right after that store's turn, can still return it |
| Surfaces.SurfaceRegistry.Verify | strata/deletion/managed_surfaces.py:146-149 | true if and only if no surface holds any of the ids; then no search of any generation of any store returns one |
| Surfaces.ArtifactSurface.Put | strata/deletion/managed_surfaces.py:113-114 | appends one blob to the record's list |
| Surfaces.ArtifactSurface.Remove | strata/deletion/managed_surfaces.py:116-121 | drops exactly the ids |
| Deletion.DeletionOutcome | strata/deletion/flows.py:58-130 | for arbitrary surfaces the record's whole component ends tombstoned in the given mode, a first job id kept: all VERIFIED with the time stamp if the deciding attempt verified, else all MANUAL_ATTENTION; VERIFIED leaves no id that a search of any generation of any store returns, nor a posting, an artifact or, in hard mode, a row; all other records are untouched |
| Deletion.AttemptMeaning | strata/deletion/flows.py:95-115 | one attempt erases nothing unless every surface let go; in hard mode then exactly the rows of the ids and the edges at them go and the postings are those of the rows left; after a clean purge it verifies if and only if no surface, by any search, can bring an id back and each is tombstoned and, in hard mode, without a row |
| Deletion.JobStateMeaning | strata/deletion/flows.py:145-170 | a job stands in the first of MANUAL_ATTENTION, PARTIALLY_FAILED, INDEX_DELETING, CANONICAL_TOMBSTONED, REQUESTED, VERIFIED that one of its tombstones is in, and is unknown without tombstones |
| Deletion.FlowOutcome | strata/deletion/flows.py:95-130 | the same for the purge-and-verify loop, which leaves job ids and all other tombstones alone; the deciding attempt is the first that verified or the last allowed |
| Deletion.FlowBounded | strata/deletion/flows.py:123-130 | the outcome depends on at most max_retries + 1 attempts |
| Deletion.DeletionVerifiesAtOnce | strata/deletion/flows.py:95-121 | with a drained log, succeeding handlers and no further surface in the way the first attempt is the deciding one and verifies |
| Deletion.DeletionClearsSurfaces | strata/deletion/managed_surfaces.py:77-149 | in that case exactly one barrier remove per vector store is logged and done, and no surface contains an id of the component |
| Deletion.JobKnownIff | strata/deletion/flows.py:145-170 | the returned job has exactly the newly tombstoned ids, is known if and only if there are any, and reports verified if and only if all ids are |
| Deletion.DeletionService.RequestDeletion | strata/deletion/flows.py:58-81 | tombstones the record and its component, then purges and verifies |
| Deletion.DeletionService.PurgeAndVerifyFrom | strata/deletion/flows.py:95-130 | only for ids already tombstoned: attempt, then verify, retry or escalate, on the whole state |
| Deletion.DeletionService.Attempt | strata/deletion/flows.py:96-115 | one attempt: mark, purge, erase in hard mode only after a clean purge, verify |
| Deletion.DeletionService.Verify | strata/deletion/verify.py:16-38 | true if and only if every id is off every surface, tombstoned, and in hard mode without a row; then no search of any generation returns one |
| Deletion.DeletionService.HardErase | strata/deletion/flows.py:136-142 | erases the rows of all ids, then rebuilds the postings from what is left |
| Deletion.DeletionService.TombstoneAll | strata/deletion/flows.py:74-78 | every id tombstoned, and marked DELETED where it has a row |
| Deletion.DeletionService.SetStates | strata/deletion/flows.py:96-130 | exactly the tombstones of the ids change state |
| Deletion.DeletionService.Retry | strata/deletion/flows.py:83-93 | attempts the ids that carry the job, in the mode of one of its rows; unknown if there are none |
| EngineOutcomes.RetryOutcome | strata/deletion/flows.py:83-130 | a retried job fails if and only if no tombstone carries it; else its ids end all VERIFIED, out of every search, posting, artifact and, in hard mode, row, or all in MANUAL_ATTENTION; all else stays |
| Deletion.DeletionService.DeletionStatus | strata/deletion/flows.py:145-170 | the job's ids, the mode of one of its rows and their least complete state; verified if and only if every row is; unknown if there are none |
| Deletion.DeletionService.Correct | strata/deletion/flows.py:173-193 | new row, old status, edge, posting and purge of the old id; stops after the old status when the edge fails |
| Engine.WriteIsIndexed | strata/engine.py:90-120 | a write behind a drained log reaches every vector store within its own drain |
| Engine.ServesIsLive | strata/vector/fake.py:36-56 | the served-with-this-hash condition is about rows a search can return |
| Engine.MemoryEngine.EnqueueVectorUpsert | strata/engine.py:98-120 | one pending upsert per vector store and nothing applied |
| Engine.MemoryEngine.WriteMemory | strata/engine.py:90-96 | row, posting and drained upserts in the given or the active generation |
| Engine.MemoryEngine.UpdateMemory | strata/gateway/api.py:108-117 | an unknown id changes nothing; otherwise the row differs from the old one in content, hash and time stamp only, and the posting is the new content |
| EngineOutcomes.UpdateOutcome | strata/gateway/api.py:108-117 | the same for the whole state: no other row, edge, tombstone, posting or artifact changes, and from a drained log with succeeding handlers every store serves the new hash in the active generation |
| EngineOutcomes.WriteOutcome | strata/engine.py:90-120 | a write changes one row and one posting, no edge and no tombstone, and from a drained log every store serves its hash in the generation written to |
| Engine.MemoryEngine.Correct | strata/engine.py:149-153 | the deletion service's correction, then the new record's vectors if it completed |
| EngineOutcomes.CorrectionOutcome | strata/engine.py:149-153 | a correction takes the old posting and artifacts away whatever the handlers do; from a drained log with succeeding handlers no search of any generation returns the old record and every store serves the new one; other rows stay as they were |
| EngineOutcomes.HistoryKept | strata/deletion/flows.py:184-193 | with keep_history the same canonical rows and edges result, and no index, artifact or log entry changes but the new posting |
| Engine.MemoryEngine.DeleteMemory | strata/engine.py:155-156 | deletion with dependents |
| Engine.MemoryEngine.MergeRecords | strata/engine.py:158-175 | supersedes and links every duplicate that is neither the primary nor tombstoned, then purges them; a missing record stops it before the purge |
| EngineOutcomes.MergeOutcome | strata/engine.py:158-175 | a merge completes if and only if each duplicate it takes, and then the primary, has a row; each taken one ends superseded, linked, without posting or artifact and, from a drained log with succeeding handlers, out of every search; all other rows stay; a merge that stops has purged nothing |
| Engine.MemoryEngine.ReindexInto | strata/engine.py:190-221 | upserts the existing untombstoned records from canonical rows, then drains |
| Engine.MemoryEngine.PromoteGeneration | strata/engine.py:223-229 | serves from the generation, retires the active rows of the table and activates its row if there is one; nothing else changes |
| Engine.TableNamesServedIff | strata/engine.py:61-67 | the table names exactly the served generation after a promotion if and only if that was registered, and after opening the engine if and only if it did before; a shadow generation does not change that |
| Engine.MemoryEngine.constructor | strata/engine.py:61-77 | registers the generation unless it is there, and every vector store's handler with the coordinator |
| Engine.MemoryEngine.Recall | strata/engine.py:123-146 | the bundle resolved from, in turn, each store's hits, which are its best fitting live rows of the generation cut at top_k with score and stored hash, and the lexical hits |
| Engine.FlatMeaning | strata/engine.py:133-138 | each hit of each store is a candidate, behind the hits of the stores before |
| Engine.FlatSound | strata/engine.py:133-138 | the stores contribute no other candidate |
| Engine.LexicalMeaning | strata/lexical/fts.py:103-130 | the lexical hits are the first top_k ranked postings whose records are in the table, active and untombstoned, each in its place with the negated rank and the canonical hash, and nothing else |
| Engine.MemoryEngine.LexicalSearch | strata/lexical/fts.py:103-130 | the loop over the ranked postings returns exactly those hits |
| EngineRuns.CoherentRunsIff | strata/engine.py:90-229 | with succeeding handlers, at every moment of a run each current record has its current content in the postings and its current hash live in the active generation of every store, if and only if each operation met its condition when it started |
| EngineRuns.StepCoherentIff | strata/engine.py:90-229 | a write, update, correction, merge, deletion, deletion retry, reindex, migration, promotion or status patch keeps that coherence if and only if it meets its condition |
| EngineRuns.MigratedCoherentIff | strata/engine.py:190-229 | reindexing within one drain and promoting keeps coherence if and only if each current record was reindexed or served by that generation before |
| EngineRuns.WrittenCoherentIff | strata/engine.py:90-120 | a write keeps coherence if and only if it goes into the active generation, makes no record current, or the active generation stores that hash already |
| EngineRuns.PatchedCoherentIff | strata/gateway/api.py:108-120 | a status patch keeps coherence if and only if the record it activates is indexed as it is |
| EngineRuns.EarlyPromotionLosesRecord | strata/engine.py:223-229 | promoting a generation that lacks a record just written makes that record unfindable in it |
| EngineRuns.EarlyPromotionExample | strata/engine.py:223-229 | a concrete run of one write and one promotion after which a current record is not served |
| EngineReindex.ServedByReindexIff | strata/engine.py:190-221 | after a reindex of any list, with missing, tombstoned and repeated ids, a record new to the generation is served there if and only if the upserts up to its last, counted over the ids that are taken, are among the first 10,000 |
| EngineReindex.OverflowLosesRecord | strata/engine.py:190-229 | promotion after an overflowing reindex leaves every record behind the limit out of the last store's search of the served generation, although its row is unchanged |
| EngineConvergence.PromiseStandsIff | strata/engine.py:90-229 | in every run with arbitrary handler outcomes, drains, crashes and safe retries, the indexes that the log amounts to have every current record at every moment if and only if each operation met its condition against them |
| EngineConvergence.RunConverges | strata/engine.py:90-229 | in such a run, whenever everything logged is DONE, the indexes are exactly what the log in order amounts to and every current record is found in every one of them |
| EngineConvergence.StepAgreesIff | strata/engine.py:90-229 | each operation, however its handlers end and however long its drain, logs what keeps that promise if and only if it meets its condition |
| EngineConvergence.HonoredDrained | strata/coordinator/coordinator.py:165-235 | a drain of the log of an honest run, failing or not, is again one |
| EngineRuns.CorrectionCoherentIff | strata/deletion/flows.py:173-193 | a correction keeps coherence if and only if the old id is a record, or the new one, or the new record is not current or is in every index already |
| EngineRecall.FoundIsKept | strata/resolver/resolver.py:106-127 | in a coherent state every vector store returns each current record, and that hit survives hydration whatever stale hits are merged with it |
| EngineRecall.RecallIsComplete | strata/engine.py:123-146 | in a coherent state a current, valid, permitted, unsuperseded and uncontradicted record is live in every store under its current hash; recall tells it under its route, unless each store whose search it fits returns top_k rows that score no less, its list is full of records that do not rank below it, or a similar one that does not rank below it was kept |
| EngineRecall.FullTextIsComplete | strata/engine.py:139-146 | the same, in any state, for a record that only the full-text index ranks: it is told unless top_k returned rows are ranked before it, its list is full, or a similar record was kept |
| EngineRecall.CandidateIsTold | strata/resolver/resolver.py:69-208 | the same from a candidate on, for any canonical state |
| EngineRuns.TombstonesOnlyGrow | strata/canonical/store.py:212-279 | no run of operations, however they fail and whatever happens to the indexes, loses a tombstone |
| EngineRuns.DeletedIsNeverRecalled | strata/resolver/resolver.py:106-127 | once tombstoned, an id is in no list of any later bundle, for any candidates |
| EngineRuns.DeletedUnderAnyInterleaving | strata/canonical/store.py:104-279 | the same between any two commits of arbitrarily interleaved writers |
| EngineRuns.HardDeletedStaysGoneIff | strata/canonical/store.py:270-279 | a hard-deleted row stays gone throughout a run if and only if no step stores a record under its id |
| EngineRuns.Resurrected | strata/canonical/store.py:104-135 | a write under a hard-deleted id brings the row back as written, and recall still refuses it |
| EngineRuns.RetiredStaysRetiredIff | strata/canonical/store.py:104-162 | a superseded or contradicted record stays inactive throughout a run if and only if no step patches it to an active status or stores an active record under its id |
| EngineRuns.CorrectionIsPermanent | strata/resolver/resolver.py:181-205 | after a correction completes, no later state and no candidate list makes the old record a current belief, recent context or guidance, unless a step revived it and, besides, the new record is not current any more or one of the two rows was erased in between |
| EngineRuns.StepKeepsEdges | strata/canonical/store.py:137-279 | no operation drops a dependency edge between two rows that stay |
| EngineRuns.CorrectionRetires | strata/deletion/flows.py:184-187 | a correction completes if and only if the old id has a row once the new one is stored; then the old record is retired and linked; another new record is stored as given in any case |
| Diversity.JaccardTriangle | strata/resolver/diversity.py:20-26 | 1 - jaccard satisfies the triangle inequality, empty token sets included |
| Diversity.Jaccard | strata/resolver/diversity.py:20-26 | between 0 and 1, and 1 for equal token sets |
| Diversity.SimilarityMeaning | strata/resolver/diversity.py:16-26 | two texts are as similar as common tokens per token of either, in both orders, and fully if their token sets are equal |
| Diversity.Diversify | strata/resolver/diversity.py:29-39 | the loop keeps exactly the greedy selection, in increasing index order |
| Diversity.KeptAreApart | strata/resolver/diversity.py:29-39 | kept texts are pairwise below the threshold |
| Diversity.DroppedIsCovered | strata/resolver/diversity.py:29-39 | every dropped text has an earlier kept one at or above the threshold |
| Diversity.DiversifyIdempotent | strata/resolver/diversity.py:29-39 | the filter keeps all of what it kept |
| Buffer.ClusterDiameter | strata/reflection/buffer.py:23-39 | two records of one cluster with threshold t are at least 2t - 1 similar |
| Buffer.ClustersPartition | strata/reflection/buffer.py:23-39 | every record lands in exactly one cluster, in input order |
| Buffer.HomeIsClose | strata/reflection/buffer.py:31-38 | a record is within the threshold of its representative, or is it, and below the threshold of every earlier one |
| Buffer.RepresentativesApart | strata/reflection/buffer.py:23-39 | representatives are pairwise below the threshold |
| Buffer.EqualTokensShareCluster | strata/reflection/buffer.py:23-39 | for thresholds up to 1, records with equal token sets share a cluster although the list grows between them |
| Buffer.ClusterL1 | strata/reflection/buffer.py:23-39 | the nested loops build exactly the greedy clusters |
| Buffer.ReviewWorthy | strata/reflection/buffer.py:42-43 | exactly the clusters with two or more members |
| Buffer.WorthyInOrder | strata/reflection/buffer.py:42-43 | in the order of the clusters |
| Buffer.MembersInOrder | strata/reflection/buffer.py:30-38 | a cluster lists its members in input order |
| Reflection.NoDuplicateFactsLeft | strata/reflection/engine.py:58-86 | after consolidation with auto-accept at most 0.95 no two reflectable facts have equal content |
| Reflection.ConsolidationOutcome | strata/reflection/engine.py:58-86 | each auto-merged cluster keeps exactly its primary, the rest are superseded with an edge from it, and no other record and no tombstone changes |
| Reflection.EqualFactsMerged | strata/reflection/engine.py:62-83 | two facts with equal content are members of one auto-merged cluster |
| Reflection.AutoMergeIffExact | strata/reflection/engine.py:68-85 | for thresholds above 0.89 and up to 0.95 a cluster is merged without review if and only if two of its members share a content hash |
| Reflection.Best | strata/reflection/engine.py:65-66 | a member that no other exceeds in salience and then length |
| Reflection.PlanMeaning | strata/reflection/engine.py:63-79 | the primary is the first member of greatest salience and then length, the duplicates are the rest in order; the confidence is 0.95 if and only if two members share a hash, and otherwise the smaller of 0.89 and 0.6 + 0.1 per duplicate |
| Reflection.WorthyMeaning | strata/reflection/buffer.py:23-43 | a cluster under review has two or more members, each a current L1 fact at least 0.6 similar to the representative |
| Reflection.FoundersApart | strata/reflection/buffer.py:23-39 | two representatives of the consolidation's clusters are less than 0.6 similar |
| Reflection.ConsolidationMeaning | strata/reflection/engine.py:58-86 | record by record: a fact of a cluster under review is superseded with an edge from the primary if it is no primary and the plan reaches the threshold, and every other record stays as it was |
| Reflection.ProposalMeaning | strata/reflection/engine.py:72-85 | a proposal keeps the primary first and the duplicates after it, and is applied if and only if it reaches the threshold, else left for review |
| Reflection.FactsMeaning | strata/reflection/engine.py:45-55 | a record is consolidated if and only if it is active or reinforced, untombstoned, an L1 fact and below the ceiling |
| Reflection.FactsInOrder | strata/reflection/engine.py:45-55 | the facts stand in the row order of the query |
| Reflection.ReflectionEngine.ReflectableFacts | strata/reflection/engine.py:45-55 | exactly the current L1 facts below the ceiling, in row order |
| Reflection.ReflectionEngine.Consolidate | strata/reflection/engine.py:58-86 | plans on the facts at the start, merges the confident clusters in turn, records one proposal per worthy cluster |
| Reflection.ReflectionEngine.ApplyProposal | strata/reflection/engine.py:117-128 | merges an open merge proposal once; applied and rejected ones and conflicts change no record |
| Reflection.ReflectionEngine.ContradictionAudit | strata/reflection/engine.py:89-114 | flags exactly the contradictions between current records, each unordered pair once, the record whose row came first named first |
| Reflection.AuditSound | strata/reflection/engine.py:89-114 | an audit reports, for review and with confidence 0.5, only pairs of active, untombstoned records joined by a contradicts edge in one direction or the other |
| Reflection.AuditComplete | strata/reflection/engine.py:89-114 | it reports every such pair, whichever end the edge starts from |
| Reflection.AuditOnce | strata/reflection/engine.py:93-103 | it reports none twice, in either order |
| Resolver.BundleCoherent | strata/resolver/resolver.py:152-208 | no two records told as truth are joined by a contradicts or supersedes edge |
| Resolver.EntryIsCanonical | strata/resolver/resolver.py:106-127 | every entry repeats the content and validity of an untombstoned row, valid now and permitted, under its route, with the standing and caution of that route; some candidate names it, and if any candidate for it reports a hash, one reports the row's own |
| Resolver.SurvivesIff | strata/resolver/resolver.py:87-127 | hydration keeps an id if and only if some candidate names it, its row is there, untombstoned, valid now and permitted, and no candidate for it reports a hash or one reports the row's own; an empty hash is none |
| Resolver.RouteMeaning | strata/resolver/resolver.py:181-221 | by a record's own fields and the edges at it: reflections are hypotheses, guardrails and L4 rules policy; of the rest only active records without an active, undeleted superseder are told, as open conflicts if such a record contradicts them in either direction, else as guidance, recent context or belief |
| Resolver.LabelMeaning | strata/resolver/resolver.py:57-60 | an entry is labelled high if and only if its record is strong, or supported by repeated candidates or salience and not weak, and low if and only if it is weak and unsupported |
| Resolver.IdsOccurOnce | strata/resolver/resolver.py:87-208 | each id occurs at most once over all six lists |
| Resolver.TruthIsCurrent | strata/resolver/resolver.py:181-205 | what is told as truth is active or reinforced and untombstoned, and no active, undeleted record supersedes it or contradicts it in either direction |
| Resolver.OnlyRankCrowdsOut | strata/resolver/resolver.py:250-258 | a shortlisted record missing from its list lost its place to a full list of records that do not rank below it |
| Resolver.DiversityDropsForBetter | strata/resolver/resolver.py:175-179 | diversity drops an item only for a similar one that does not rank below it |
| Resolver.BundleIsDiverse | strata/resolver/resolver.py:175-208 | with diversity no two entries of a bundle, of one list or of two, have claims at or above the threshold of similarity |
| Resolver.MergeMeaning | strata/resolver/resolver.py:87-104 | one row per candidate id, with its best score, its reported hashes and its number of occurrences |
| Resolver.CandidatesInOrder | strata/resolver/resolver.py:87-127 | what survives stands in the order in which the ids first occur among the candidates, which ranking keeps for ties |
| Resolver.RankRanks | strata/resolver/resolver.py:163-174 | ranking is a permutation in descending key order |
| Resolver.RankMeaning | strata/resolver/resolver.py:163-174 | of two ranked items the first is reinforced if the second is and active or reinforced if the second is active; within a class it has no less confidence, then no older update, then no lower score, then no less evidence |
| Resolver.RankStable | strata/resolver/resolver.py:163-174 | ranking is stable: an item stays before every later one that does not outrank it |
| Resolver.EvidenceMeaning | strata/resolver/resolver.py:87-104 | the evidence count is the number of candidates with that id |
| Resolver.Trimmed | strata/resolver/resolver.py:250-258 | a budgeted list is a prefix, cut only at its budget |
| Resolver.BeliefResolver.Merge | strata/resolver/resolver.py:87-104 | the loop over candidates builds the merged rows in first-seen order |
| Resolver.BeliefResolver.HydrateAndFilter | strata/resolver/resolver.py:106-127 | exactly the rows that survive hydration, in order |
| Resolver.BeliefResolver.BuildBundle | strata/resolver/resolver.py:152-208 | each list is the routed shortlist in rank order, trimmed to its budget |
| Resolver.BeliefResolver.Resolve | strata/resolver/resolver.py:69-84 | merge, hydrate and build in turn |

## Left out

- SQLite itself, connections, write-ahead logging and the FTS5 tables: tables are maps, sets or sequences and a commit is one step.
- Vectors and cosine scores, metadata and the lexical query language: a search takes score and filter as functions, and recall is proved for every candidate list.
- Threads: an engine operation is one step of an engine run; interleaving inside the coordinator is modelled by its events.
- Audit-only data: versions, index acknowledgements, source spans, creation times and proposal rationales.
- Engine operations take one clock reading for all the rows they stamp, where the code reads the clock at each commit.
- Two vector store names for one store object: every target has its own store.
- Updates of the proposal store other than appending and state changes, because the engine does not register it as a deletion surface.
- `rebuild_index`, zvec and TurboVec adapters, HTTP gateway, worker thread, serialization and command line.
- Surfaces.SurfaceRegistry.Purge: answers with the ids some surface kept, not with one answer per surface and id, because only the audit table reads the rest.
- Surfaces.SurfaceRegistry.Verify: answers with the one flag its caller computes from the answers per surface and id.
- Resolver.BeliefResolver.BuildBundle: leaves out the `superseded_by` field, which names whichever superseding row the query returns first, and `source_ids`, which repeats the id.
- Resolver.BeliefResolver.Resolve: leaves out the same two fields.
- EngineRuns.CoherentRunsIff: is about succeeding handlers; for failing ones coherence waits for the log, which EngineConvergence.RunConverges covers.
- EngineConvergence.RunConverges: does not cover other writers to the indexes, nor operations that end FAILED and are never retried.
- CoordinatorRuns.LogOrderEquivalence: a handler effect is all or nothing; an effect on some ids of an operation only is not modelled.
