# Verified model of the memory service

A Dafny 4.11 model of the parts of the memory service that keep state across crashes,
replays and retries, and of the array and arithmetic code they rely on.
`dafny verify dfyconfig.toml` checks the whole project.

The service keeps the live messages of a session in Redis, moves them into immutable
archives in MongoDB, extracts memories from each archive into a Neo4j graph, mirrors the
graph in a search index, re-scores memories in consolidation runs, and answers retrieval
requests from index and graph. Five cores are modelled.

- **Closing a session.** `CloseSplit` and `ArchiveKeys` hold the greedy split into batches
  and the archive keys. `CloseProtocol` is a state machine over single Redis scripts and
  Mongo calls: message writes, compression rounds and close attempts, interleaved in any
  order, with crashes, lost requests and lost replies. `CloseInvariant`, `CloseSteps` and
  `CloseSafety` prove what every run keeps. `CloseSession` is the close procedure itself, on
  a class with mutable stores, shown to be a run of that machine; `SessionScripts` has the
  scripts of writes and rounds in the same form. `CloseWitness` holds the
  runs that mark the boundary of the theorems. `PrefixSelection` is the prefix search of
  compression.
- **Extraction that survives replays.** `ReconciliationPlan` builds a plan of memory updates
  and creations from an archive's candidates, with the laws in `ReconciliationLaws` and
  `ReconciliationOrder`, and in `ReconciliationMeaning` what a plan says about the
  candidates themselves; `Confidence` is its arithmetic and `CandidateMerge` the
  deduplication before it. `EvidenceRows`, `EvidenceGraph` and `GraphWriteLaws` write a plan
  into the graph behind the evidence gate. `Reconcile` derives plans from the graph and
  arbitrary model answers, and `AnswerLaws` says what becomes of each answer; `Replay`, `ReplaySteps` and `ReplaySafety` run any number of
  attempts, and `IndexSync` brings the search index up to date. `ReplayWitness` shows where
  this stops working. `MemoryLife` follows a single memory over all plans. `ExtractionTask`
  and `ExtractionTaskLaws` are the task document with its consumers and admin actions.
- **Consolidation.** `ConsolidationBatch` is one page (query, scoring, version-checked
  write), `ConsolidationRun` the loop over pages and users while other writers act.
- **Redaction.** `Redaction` merges spans and replaces them; `Luhn` is the check of Annex B
  of ISO/IEC 7812-1.
- **Retrieval ranking.** `Rrf`, `MemoryValidator`, `GraphExpansion`, `Rerank` and `Recall`.

Scores are rationals, confidences and importances whole numbers of 0.0001, memory and user
ids numbers in the order of their strings, digests injective, and fresh ids numbers not used
before. The language model, the reranking service, store failures and other writers are
arbitrary within the stated rules.

## Where the code does less than it promises

Each of these is a set of lemmas: a concrete input or run in which the code fails, and the
exact condition under which it does not, for all inputs or runs.

- *A close can delete messages that were never archived.* A compression round reads its
  snapshot before it takes the lock, and `pending_archive_write.lua` does not compare the
  compression version. A pending archive written from a stale snapshot no longer is the head
  of the list, yet close takes as many messages from the head as already archived
  (`StalePendingWriteLosesMessages`). A run loses nothing at any moment exactly when every
  terminal delete is sent while those messages are in archives (`RunLosesNothingExactly`,
  `DeleteLosesNothingExactly`). An attempt can compare the pending archive with the head of
  the list as soon as it has the lock: if they are equal at any moment from then on, the
  attempt loses nothing, whatever else happens before its delete (`HeadKept`,
  `CloseLosesNothing`). For the procedure itself the condition is on the stores before the
  call (`ClosedLosesNothingExactly`, and the last postcondition of `CloseSession`).
- *Archive keys collide when message ids contain a colon*, and a second batch under the same
  key is reported as stored (`KeyCollisions` is the exact condition,
  `CollidingBatchIsNotStored` the effect).
- *A session can become impossible to close.* The progress flags belong to one attempt, so a
  later attempt may make the session active again although archives exist; compression then
  moves the version on and every further attempt without faults stops at the version check
  (`RevertAfterArchiveBlocksClose`, `ClashPersists`; `CloseSession` closes exactly the
  sessions without a clash).
- *The penalty in the prefix score* selects what is preferred exactly for targets up to
  1,000,000,001 (`SelectsPreferredExactly`); for every larger target there are three messages
  of which the search archives too few (`MissedTarget`).
- *A replay of a crashed attempt need not bring the index up to date.* If it gets new answers
  for candidates skipped before, its plan is not empty and nothing is repaired: memories of
  the crashed attempt stay unsynced although the task completes
  (`ReplayWithNewAnswerLeavesIndexBehind`). It catches up exactly when its plan is empty or
  each memory the crashed attempt touched is planned again, next to a planned memory, or about
  an aligned entity (`ReplayCatchesUpExactly`). That an empty plan is enough rests on distinct
  evidence ids, and fails without them (`RepeatedEvidenceLeavesIndexBehind`).
- *An archive whose candidates the model all skips never completes*
  (`EmptyPlanAbortsExactly`, `SkippedArchiveAborts`).
- *Overlapping attempts of one archive* apply shared evidence twice exactly when the second
  plan is not wholly within the first (`OverlapAppliesTwiceExactly`); `OverlapAppliesTwice`
  is a run in which they do. Two consumers can also replace each other's extraction result
  (`TwoConsumersReplaceTheResult`): it stays the same exactly as long as no step rebuilds the
  task or stores another result for a consumer that loaded the task without one
  (`ResultSurvivesExactly`, `ResultStaysExactly`).
- *Overlapping attempts of different archives* can undo each other's work on a memory: the
  write does not check that the target is as it was when the plan was made, so a confidence
  can fall and a superseded memory can be changed. A target moves on as it may exactly when
  it is not superseded and its confidence is not above the planned one
  (`WriteMovesOnExactly`, `OverlapLowersConfidence`); attempts that follow one another
  always do (`MemoriesMoveOn`).
- *Fingerprints leave out the confidence*, so candidates that differ in nothing else share
  an evidence id (`FingerprintsDistinctExactly`, `ConfidenceAloneSharesFingerprint`).
- *Reranking falls back whenever there are more documents than its limit*, because an answer
  must name every document: a usable answer is possible exactly within the limit
  (`RerankingIsPossibleExactly`). An answer that repeats a document can return a memory twice
  (`OutputDistinctExactly`, `RepeatedAnswerRepeatsAMemory`).
- *Merges stop at 0.9998:* from 0.9998 or less, no number of merges gets past it
  (`MergesNeverReachOne`, `MergeMovesExactly`).

## Model

| member | source | states |
|---|---|---|
| CloseSplit.SplitCloseSuffixBatches | src/memory_system/domain/services/session_close_service.py:91-117 | fails exactly when some message exceeds the cap, naming the first such message; otherwise returns the greedy split |
| CloseSplit.SplitIsPartition | src/memory_system/domain/services/session_close_service.py:91-117 | the batches of the split are non-empty, within the cap, and concatenate to the list |
| CloseSplit.SplitIsOptimal | src/memory_system/domain/services/session_close_service.py:91-117 | no partition of the list into contiguous in-cap batches has fewer batches |
| CloseSplit.SplitIsOnline | src/memory_system/domain/services/session_close_service.py:91-117 | appending messages changes only the last batch, which can only grow |
| ArchiveKeys.KeysAreInjective | src/memory_system/domain/services/context_archive_service.py:38-44 | a key determines session, first and last message id when session and first ids have no colon |
| ArchiveKeys.KeyCollisions | src/memory_system/domain/services/context_archive_service.py:38-44 | exactly when two boundary pairs of one session share a key |
| CloseInvariant.ProcStepRely | src/memory_system/domain/services/session_close_service.py:211-369 | what no step of one process may disturb for another: archives stay, histories grow, a closing session is left alone by everyone but the lock holder |
| CloseInvariant.CreateOrReuseHolds | src/memory_system/domain/services/context_archive_service.py:86-128 | whether the insert creates or reuses, the archive under the key then holds exactly the batch |
| CloseSteps.FinalizeTrimsArchived | src/memory_system/infrastructure/redis/scripts/compression_finalize.lua:1-243 | the boundary check of finalize makes the archived batch equal the head it trims, even after a stale pending write |
| CloseSteps.StepKeeps | src/memory_system/domain/services/session_close_service.py:211-369 | every step of any process, and every fault, keeps the invariant of the protocol |
| CloseSafety.RunKeeps | src/memory_system/domain/services/session_close_service.py:211-369 | the invariant holds after every run from a new session |
| CloseSafety.RunLosesNothingExactly | src/memory_system/domain/services/session_close_service.py:211-369 | a run loses no accepted message at any moment if and only if every terminal delete is sent while the messages it takes as already archived are in archives |
| CloseSafety.DeleteLosesNothingExactly | src/memory_system/domain/services/session_close_service.py:282-369 | in every run, the terminal delete of an attempt loses nothing if and only if every message of the pending head is in an archive when it is sent |
| CloseSafety.HeadKept | src/memory_system/domain/services/session_close_service.py:211-369 | while an attempt is under way, no step of any process takes the pending archive off the head of the list |
| CloseSafety.CloseLosesNothing | src/memory_system/domain/services/session_close_service.py:211-369 | if the pending archive is the head of the list at any moment from the lock of an attempt on, nothing is lost by its terminal delete, whatever happens in between |
| CloseSafety.FreshRunsLoseNothing | src/memory_system/domain/services/session_close_service.py:211-369 | a case of it: if all pending writes of the run still see the version they read, every accepted message is live or archived at every moment |
| CloseSafety.OnlyThePendingHeadCanBeLost | src/memory_system/domain/services/session_close_service.py:211-369 | in every run nothing is lost while the session lives, and afterwards nothing but messages of the head that the terminal delete took as archived |
| CloseSafety.ArchivesAreImmutable | src/memory_system/domain/services/context_archive_service.py:86-128 | no later action of any run removes or changes an archive |
| CloseSafety.ReusedArchiveIsTheBatch | src/memory_system/domain/services/context_archive_service.py:113-128 | in every run, an archive found under the key of a history segment holds that segment |
| CloseSession.BuildClosePlan | src/memory_system/domain/services/session_close_service.py:134-190 | when a plan exists, its batches (the pending head, then the greedy split of the rest under their keys), and that together they are the message list; otherwise which error, naming the first message that is too large |
| CloseSession.Backend.EnterClosing | src/memory_system/infrastructure/redis/scripts/session_close_enter.lua:1-27 | the session becomes closing if it exists, and nothing else changes |
| CloseSession.Backend.RevertActive | src/memory_system/infrastructure/redis/scripts/session_close_revert_active.lua:1-23 | the session becomes active if it exists, and nothing else changes |
| CloseSession.Backend.CreateOrReuseArchive | src/memory_system/domain/services/context_archive_service.py:86-128 | insert, or find what is stored under the key; a lost reply still leaves the archive |
| CloseSession.Backend.TerminalDelete | src/memory_system/infrastructure/redis/scripts/session_close_terminal.lua:1-25 | deletes exactly a closing session |
| CloseSession.Backend.ArchiveBatches | src/memory_system/domain/services/session_close_service.py:282-326 | the loop archives every batch at the plan's version under the reported ids, or stops at the first batch with a fault or a version clash, the batches before it being archived; every iteration is a step of the attempt in the protocol |
| CloseSession.Backend.ArchiveAndDelete | src/memory_system/domain/services/session_close_service.py:282-369 | either all batches are archived, each archive holding its batch, and the session is gone, or only its status may differ, active again exactly if no archive was confirmed; which failure, and after how many batches |
| CloseSession.Backend.RunPlan | src/memory_system/domain/services/session_close_service.py:255-369 | fails on the plan exactly if the session cannot be planned, and says why; otherwise ends as the first archive call that does not go through decides, or closes and reports the archives in order, and these hold the batches |
| CloseSession.Backend.CloseSession | src/memory_system/domain/services/session_close_service.py:211-378 | the procedure is a run of the attempt's own protocol steps; the lock, a missing session, an impossible plan, the first lost request and the first version clash each give their own failure, and only they; without any it closes and reports the archive ids; from a reachable state a close keeps the invariant, its archives hold the batches, and nothing is lost if and only if the pending head was in archives before the call, as it is when it is the head of the list; a failed attempt deletes nothing and always gives the lock back |
| SessionScripts.RedisKeys.WriteMessage | src/memory_system/infrastructure/redis/scripts/message_write.lua:1-49 | appends a new message to an active session; a missing or closing session and a known id are refused, each with its own status |
| SessionScripts.RedisKeys.WritePending | src/memory_system/infrastructure/redis/scripts/pending_archive_write.lua:1-120 | sets an empty pending archive or accepts the same one, for the lock holder of an active session only; nothing else changes |
| SessionScripts.RedisKeys.MarkPending | src/memory_system/domain/services/compression_preparation_service.py:78-141 | the locked write of a round is its step in the protocol; a refused write gives the lock back |
| SessionScripts.PrepareRound | src/memory_system/domain/services/compression_coordinator_service.py:211-279 | the unlocked part of a round is its steps in the protocol: both versions as read, and the pending archive as found or the archived prefix with its boundary ids |
| SessionScripts.RedisKeys.FinalizeCompression | src/memory_system/infrastructure/redis/scripts/compression_finalize.lua:75-243 | succeeds exactly when the checks of the protocol hold; then the list loses exactly the archived head, the version goes up by one, the pending archive and the lock are gone; otherwise nothing changes, and the status names the first failed check |
| CloseSession.ReachesKeeps | src/memory_system/domain/services/session_close_service.py:211-378 | what an attempt reaches by its own steps satisfies the invariant if its start did |
| CloseSession.BatchesHeld | src/memory_system/domain/services/session_close_service.py:282-326 | the archives that the loop found or made hold the batches |
| CloseSession.ClosedLosesNothingExactly | src/memory_system/domain/services/session_close_service.py:282-369 | a closed attempt has lost nothing if and only if every message of the pending head was in an archive before the call |
| CloseWitness.StalePendingWriteLosesMessages | src/memory_system/domain/services/compression_coordinator_service.py:199-372 | a run without any store failure after which a message is in no archive and no list |
| CloseWitness.RevertAfterArchiveBlocksClose | src/memory_system/domain/services/session_close_service.py:193-208 | a run to an idle active session that can be planned but not closed |
| CloseWitness.ClashPersists | src/memory_system/domain/services/session_close_service.py:311-321 | a version clash outlasts every further attempt |
| CloseWitness.CollidingBatchIsNotStored | src/memory_system/domain/services/context_archive_service.py:113-128 | with a colon in ids, a batch is taken as stored although its messages are in no archive |
| PrefixSelection.PenaltyIsEnoughExactly | src/memory_system/domain/services/compression_coordinator_service.py:100-124 | the score orders two prefixes of a list as intended if and only if the target is at most 10^9 + 1 |
| PrefixSelection.SelectsPreferredExactly | src/memory_system/domain/services/compression_coordinator_service.py:140-184 | the search selects what is preferred, for all messages and other settings, if and only if the target is at most 10^9 + 1 |
| PrefixSelection.ShrinkPrefixToCap | src/memory_system/domain/services/compression_coordinator_service.py:127-137 | dropping messages from the end leaves exactly the longest prefix within the cap |
| PrefixSelection.ConsiderTail | src/memory_system/domain/services/compression_coordinator_service.py:154-182 | one tail choice: inadmissible choices change nothing, admissible ones compete with the best so far |
| PrefixSelection.SelectArchivePrefix | src/memory_system/domain/services/compression_coordinator_service.py:140-184 | the bounded search returns the best candidate over every allowed tail, and nothing exactly when none is admissible |
| PrefixSelection.SelectionIsPreferred | src/memory_system/domain/services/compression_coordinator_service.py:140-184 | the selection is a non-empty in-cap head prefix keeping the minimum tail; if any choice reaches the target it does so archiving no more, else it archives the most |
| PrefixSelection.EveryTailCounts | src/memory_system/domain/services/compression_coordinator_service.py:140-184 | every tail from the minimum to the preferred one is considered: the selection is what one of them archives, and against each of them it reaches the target archiving no more, or else archives the most |
| PrefixSelection.NoneExactlyWhenTooFew | src/memory_system/domain/services/compression_coordinator_service.py:140-184 | with in-cap messages and a token total at least their sum, there is no selection exactly when no more than the minimum tail is there |
| Confidence.MergeInUnits | src/memory_system/domain/services/reconciliation_plan_builder.py:65-72 | a quarter of the remaining distance times the candidate is added, and the cap at 1 never takes effect |
| Confidence.RoundsToNearest | src/memory_system/domain/services/reconciliation_plan_builder.py:65-66 | rounding gives the nearest multiple of 0.0001, of two equally near ones the even one |
| Confidence.MergeStaysBelowOne | src/memory_system/domain/services/reconciliation_plan_builder.py:65-72 | a merge never lowers a confidence, and gives 1 only from 1 |
| Confidence.MergeIsMonotone | src/memory_system/domain/services/reconciliation_plan_builder.py:65-72 | the rounded merge is monotone in both arguments |
| Confidence.MergeMovesExactly | src/memory_system/domain/services/reconciliation_plan_builder.py:65-72 | exactly when a merge changes the stored confidence; from 0.9998 on nothing does |
| Confidence.MergesNeverReachOne | src/memory_system/domain/services/reconciliation_plan_builder.py:65-72 | over any sequence of merges: non-decreasing, within [0, 1], 1 only from 1, never past 0.9998 from below |
| Confidence.MergesAreMonotone | src/memory_system/domain/services/reconciliation_plan_builder.py:65-72 | more, and more confident, candidates never give a lower confidence |
| ReconciliationPlan.GroupMembers | src/memory_system/domain/services/reconciliation_plan_builder.py:159-182 | a group holds exactly the candidates of its slot, as often as they are listed |
| ReconciliationPlan.GroupCandidates | src/memory_system/domain/services/reconciliation_plan_builder.py:159-182 | the two dictionaries hold the groups in order of first occurrence; fails exactly when a candidate lacks its target or key |
| ReconciliationPlan.PlanUpdates | src/memory_system/domain/services/reconciliation_plan_builder.py:184-291 | the updates of all targets, or failure exactly when some group cannot be planned |
| ReconciliationPlan.PlanCreations | src/memory_system/domain/services/reconciliation_plan_builder.py:293-319 | one creation per key, after the linked ones |
| ReconciliationPlan.BuildReconciliationPlan | src/memory_system/domain/services/reconciliation_plan_builder.py:136-331 | the loops build the specified plan, and fail exactly when the candidates are not plannable |
| ReconciliationMeaning.PlannableExactly | src/memory_system/domain/services/reconciliation_plan_builder.py:159-240 | there is a plan if and only if every candidate has its target or key, the candidates of each target agree on a plain action and on the merged text, and one of them has recalled the target |
| ReconciliationMeaning.PlannedUpdateIs | src/memory_system/domain/services/reconciliation_plan_builder.py:184-291 | an update has the action of all candidates of its target, their latest time, their one merged text, and the confidence of a recalled snapshot raised by the largest of theirs |
| ReconciliationMeaning.LinkedCreationIs | src/memory_system/domain/services/reconciliation_plan_builder.py:242-291 | the new memory of a supersede or conflict has the facts, own text, rounded confidence, time and evidence of the one candidate for the target, the kind of its action, and the importance of its type |
| ReconciliationMeaning.KeyedCreationIs | src/memory_system/domain/services/reconciliation_plan_builder.py:293-319 | a new memory has the latest time, the largest confidence and the facts of a top-ranked candidate of its key, the text they share or else that candidate's own, and the importance of its type |
| ReconciliationLaws.UpdatesAndLinks | src/memory_system/domain/services/reconciliation_plan_builder.py:184-291 | one update per target; a supersede or conflict has one contributor and belongs to one new memory, and every linked memory to such an update |
| ReconciliationLaws.CreationsAreDistinct | src/memory_system/domain/services/reconciliation_plan_builder.py:293-319 | new memories have consecutive fresh ids, and keyed ones distinct keys |
| ReconciliationLaws.PlanPartitionsCandidates | src/memory_system/domain/services/reconciliation_plan_builder.py:136-331 | every candidate that is not skipped contributes to exactly one update or keyed creation, once, and nothing else contributes |
| ReconciliationOrder.RepresentativeIs | src/memory_system/domain/services/reconciliation_plan_builder.py:94-102 | the representative is a candidate of the group that no other precedes by confidence, time and fingerprint |
| ReconciliationOrder.GroupOkAgrees | src/memory_system/domain/services/reconciliation_plan_builder.py:184-240 | a group plannable in one order is plannable in every order |
| ReconciliationOrder.UpdatesAgree | src/memory_system/domain/services/reconciliation_plan_builder.py:225-291 | the update of a group is the same in every order, up to contributor order and the fresh id |
| ReconciliationOrder.KeyedAgree | src/memory_system/domain/services/reconciliation_plan_builder.py:79-102 | content, representative, confidence and time of a creation are the same in every order |
| ReconciliationOrder.OrderDoesNotMatter | src/memory_system/domain/services/reconciliation_plan_builder.py:136-331 | listing the candidates in another order changes neither whether there is a plan nor what it contains |
| CandidateMerge.MergeDuplicates | src/memory_system/domain/services/extraction_llm_service.py:390-424 | the merged list has one entry per key, with all its sources and its latest time |
| CandidateMerge.MergedIs | src/memory_system/domain/services/extraction_llm_service.py:374-424 | everything said with one confidence is listed once, with exactly the sources of all candidates that say it and the latest of their times |
| CandidateMerge.FingerprintsDistinctExactly | src/memory_system/domain/services/extraction_fingerprint.py:13-41 | merged candidates have distinct fingerprints unless two differ in nothing but confidence, and only then |
| CandidateMerge.ConfidenceAloneSharesFingerprint | src/memory_system/domain/services/extraction_llm_service.py:390-424 | two candidates kept apart by their confidence share a fingerprint |
| EvidenceRows.BuildEvidenceRows | src/memory_system/domain/services/graph_write_plan_builder.py:318-381 | the loop with its set of seen ids builds the specified rows |
| EvidenceRows.RowsAre | src/memory_system/domain/services/graph_write_plan_builder.py:318-381 | every planned evidence id gets exactly one row, on the memory of the first source that mentions it |
| EvidenceRows.PlansAreWellLinked | src/memory_system/domain/services/reconciliation_plan_builder.py:136-331 | what every plan satisfies: distinct targets and keys, links in both directions, consecutive ids |
| EvidenceRows.DistinctEvidenceSeparates | src/memory_system/domain/services/graph_write_plan_builder.py:318-381 | with distinct evidence ids, two sources share one only as the two halves of a link |
| EvidenceRows.EvidencePlacement | src/memory_system/domain/services/graph_write_plan_builder.py:318-381 | the row of an evidence id is on the new memory for a supersede or conflict, and on the updated memory otherwise |
| EvidenceGraph.GraphStore.FindProcessed | src/memory_system/infrastructure/neo4j/evidence_lookup_repository.py:9-54 | of the given ids, those whose evidence node supports a memory |
| EvidenceGraph.GraphStore.Write | src/memory_system/infrastructure/neo4j/graph_write_repository.py:207-303 | the statements of the transaction turn the graph into the specified one |
| EvidenceGraph.GraphStore.WriteBehindGate | src/memory_system/domain/services/graph_write_service.py:98-145 | skipped exactly when something is planned and all of it processed; otherwise the plan is written |
| EvidenceGraph.CollectPlannedEvidenceIds | src/memory_system/domain/services/graph_write_service.py:53-59 | exactly the evidence ids of the plan's contributors |
| EvidenceGraph.CountingIsEnough | src/memory_system/domain/services/graph_write_service.py:98-108 | comparing the two counts decides the gate |
| GraphWriteLaws.TargetWritten | src/memory_system/infrastructure/neo4j/graph_write_repository.py:68-95 | a superseded target becomes superseded, a conflicting one conflicted, any other keeps its status; text and confidence are the planned ones if there are any; time is the planned one, the version one higher, facts and importance as before |
| GraphWriteLaws.OthersStay | src/memory_system/infrastructure/neo4j/graph_write_repository.py:68-95 | no other memory of the graph changes |
| GraphWriteLaws.NewMemoryHas | src/memory_system/infrastructure/neo4j/graph_write_repository.py:38-67 | a new memory has the planned fields, version 1, and is conflicted exactly if it is about a conflict, otherwise active; event fields are kept for events only |
| GraphWriteLaws.EvidenceWritten | src/memory_system/infrastructure/neo4j/graph_write_repository.py:132-148 | every planned evidence id gains exactly one supported memory, no other gains any |
| GraphWriteLaws.EvidenceSettled | src/memory_system/infrastructure/neo4j/graph_write_repository.py:132-148 | evidence of a separated plan supports the memory it settles on |
| GraphWriteLaws.EdgesWritten | src/memory_system/infrastructure/neo4j/graph_write_repository.py:114-131 | every linked memory is connected to the one it supersedes or conflicts with |
| GraphWriteLaws.EdgesWrittenExactly | src/memory_system/infrastructure/neo4j/graph_write_repository.py:114-131 | the edges after the write are those before it and one per linked memory, of its kind and from new to old |
| Reconcile.ReconcileArchive | src/memory_system/domain/services/reconciliation_service.py:125-317 | processed evidence is skipped, unrecalled candidates are created, the rest is as answered; no plan exactly when the model fails or the plan conflicts |
| Reconcile.PlanIsFresh | src/memory_system/domain/services/reconciliation_service.py:140-199 | whatever the answers, a plan is only about the archive's own evidence that is not in the graph |
| Reconcile.PlanTargetsExist | src/memory_system/domain/services/reconciliation_llm_service.py:127-170 | whatever the answers, updates target memories of the graph |
| Reconcile.PlanIsSeparated | src/memory_system/domain/services/reconciliation_service.py:140-317 | distinct fingerprints make the plan separated |
| Reconcile.ProcessedArchivePlansNothing | src/memory_system/domain/services/reconciliation_service.py:140-199 | with all evidence in the graph the plan is empty |
| AnswerLaws.RecallIs | src/memory_system/infrastructure/neo4j/memory_recall_repository.py:12-64 | at most twenty memories of the candidate's type, subject and predicate that are not superseded, and all of these if they are fewer |
| AnswerLaws.AnswerIsPlanned | src/memory_system/domain/services/reconciliation_service.py:201-317 | an answered merge, supersede or conflict becomes the update of the answered memory, with that action, the candidate's evidence and the answered text |
| AnswerLaws.AnswerBringsMemory | src/memory_system/domain/services/reconciliation_service.py:201-317 | an answered supersede or conflict brings along a new memory with the candidate's own text, facts and evidence |
| AnswerLaws.NewIsCreated | src/memory_system/domain/services/reconciliation_service.py:199-317 | a candidate without recalled memories, or one to be created, contributes to the new memory of its key |
| AnswerLaws.SkippedIsNotPlanned | src/memory_system/domain/services/reconciliation_service.py:140-199 | evidence that is in the graph, or that the model skips, is nowhere in the plan |
| Replay.ReconcilingIsAllowed | src/memory_system/domain/services/reconciliation_service.py:125-317 | reconciling with any candidates and answers is a step the replay machine allows |
| ReplaySteps.StoreKeeps | src/memory_system/domain/services/graph_write_service.py:98-145 | writing a plan, while attempts of other archives are under way, keeps the invariant and is never skipped |
| ReplaySafety.EvidenceIsAppliedExactlyOnce | src/memory_system/domain/services/graph_write_service.py:98-133 | at every point of every run: evidence in the graph supports exactly one memory and comes from exactly one applied plan, and versions count exactly the applied updates |
| IndexSync.SearchIndex.Sync | src/memory_system/domain/services/retrieval_index_sync_service.py:158-231 | completes, aborts or fails by the task's status and the presence of the memories; on completion the seeds, every memory joined to one by an edge in either direction, and every memory whose subject or object is an aligned entity are in the index as in the graph, and nothing else changed; a failed bulk write leaves a part of them written |
| IndexSync.RepairSyncSet | src/memory_system/domain/services/production_extraction_pipeline.py:293-315 | an empty set becomes the memories that the archive's evidence supports, or an abort if there are none; any other set, and that of an archive without candidates, stays |
| IndexSync.TouchedIsCovered | src/memory_system/infrastructure/neo4j/retrieval_index_read_repository.py:11-28 | every memory a plan touched is supported by the archive's evidence or next to one that is |
| IndexSync.RunKeepsSeparated | src/memory_system/domain/services/reconciliation_service.py:140-317 | in every run, distinct fingerprints of an archive's candidates keep all its plans separated |
| IndexSync.ReplayCatchesUpExactly | src/memory_system/domain/services/production_extraction_pipeline.py:293-315 | at any point of any run, an attempt syncs every memory that another attempt of the archive touched if and only if it planned nothing or each of them is planned, next to a planned memory, or about an aligned entity; what it syncs is there to be loaded |
| IndexSync.EmptyReplayCatchesUp | src/memory_system/domain/services/production_extraction_pipeline.py:82-159 | at any point of any run, with distinct fingerprints, an attempt that plans nothing syncs every memory that the archive's earlier plans created or updated |
| IndexSync.EmptyPlanAbortsExactly | src/memory_system/domain/services/production_extraction_pipeline.py:293-315 | an empty plan aborts exactly when no plan of the archive with any evidence was ever applied |
| ReplayWitness.ReplayWithNewAnswerLeavesIndexBehind | src/memory_system/domain/services/production_extraction_pipeline.py:293-315 | a run in which a non-empty replay completes without syncing a memory of the crashed attempt |
| ReplayWitness.RepeatedEvidenceLeavesIndexBehind | src/memory_system/domain/services/production_extraction_pipeline.py:293-315 | a run in which, with repeated evidence ids, even an empty replay leaves a touched memory unsynced |
| ReplayWitness.SkippedArchiveAborts | src/memory_system/domain/services/production_extraction_pipeline.py:293-315 | a run after which an archive whose one candidate is skipped aborts, and changes nothing by it |
| ReplayWitness.GateAfterOverlap | src/memory_system/domain/services/graph_write_service.py:98-133 | after another attempt of the archive was written, the gate skips a plan exactly when the other plan covers all its evidence |
| ReplayWitness.OverlapAppliesTwiceExactly | src/memory_system/domain/services/graph_write_service.py:98-133 | exactly when two overlapping attempts apply shared evidence twice |
| ReplayWitness.PartialOverlapHappens | src/memory_system/domain/services/reconciliation_service.py:201-317 | a reachable graph for which two attempts reconcile to such plans |
| ReplayWitness.OverlapAppliesTwice | src/memory_system/domain/services/graph_write_service.py:98-133 | a run in which two overlapping attempts of an archive both apply the same evidence |
| MemoryLife.WriteMovesOnExactly | src/memory_system/infrastructure/neo4j/graph_write_repository.py:68-95 | whenever a plan is written: its target keeps facts, confidence and standing exactly when it is not superseded and not more certain than planned |
| MemoryLife.PlannedInTime | src/memory_system/domain/services/reconciliation_plan_builder.py:184-241 | every update planned from the present graph, with any answers, is in time for its target |
| MemoryLife.WriteMovesOn | src/memory_system/domain/services/graph_write_service.py:98-145 | a plan written to the graph it was made from lowers no confidence, reaches 1 only from 1, moves status only from active over conflicted to superseded, and leaves superseded memories untouched |
| MemoryLife.MemoriesMoveOn | src/memory_system/domain/services/production_extraction_pipeline.py:186-291 | the same over any stretch of any run whose attempts follow one another |
| MemoryLife.SupersededIsNotRecalled | src/memory_system/infrastructure/neo4j/graph_write_repository.py:68-95 | once superseded, a memory stays as it is and no recall of the rest of a serial run finds it |
| MemoryLife.StaysSupersededExactly | src/memory_system/infrastructure/neo4j/graph_write_repository.py:68-95 | whatever overlaps, a write leaves a superseded memory superseded exactly when it has no conflict with it |
| MemoryLife.OverlapLowersConfidence | src/memory_system/infrastructure/neo4j/graph_write_repository.py:68-95 | a run with overlapping attempts of two archives in which a confidence falls |
| ExtractionTask.TaskStore.UpsertPendingTask | src/memory_system/infrastructure/mongodb/extraction_task_repository.py:108-144 | inserts a pending task only if there is none, and returns the stored one |
| ExtractionTask.TaskStore.FindOneAndUpdate | src/memory_system/infrastructure/mongodb/extraction_task_repository.py:147-344 | which update each status admits, and the value of every field afterwards; otherwise nothing changes |
| ExtractionTask.TaskStore.ProcessArchiveCreatedEvent | src/memory_system/domain/services/extraction_task_consumer_service.py:55-209 | the procedure is the consumer of the step machine running alone; the offset is committed exactly when the task has ended; an ended task is left as it is; otherwise one attempt is counted |
| ExtractionTask.ProcessAmongOthers | src/memory_system/domain/services/extraction_task_consumer_service.py:55-209 | with other consumers and admin actions between its calls, whatever they do to the document: every call and the end of the procedure are those of the step machine |
| ExtractionTaskLaws.PipelineWrites | src/memory_system/domain/services/production_extraction_pipeline.py:186-291 | a result is stored only if the task was loaded without one, and an end only to a task that is still processing |
| ExtractionTaskLaws.AdminProceedsExactly | src/memory_system/domain/constants/extraction_retry_policy.py:5-30 | which failed tasks a retry and a rebuild admit, by error code |
| ExtractionTaskLaws.AdminResets | src/memory_system/domain/services/extraction_admin_service.py:139-227 | an admitted action makes the task pending, a rebuild also drops the result; if publishing fails the task is failed again |
| ExtractionTaskLaws.TaskStaysWellFormed | src/memory_system/infrastructure/mongodb/extraction_task_repository.py:108-344 | in every interleaving: an error exactly if failed, a completion time exactly if completed, no attempt only while pending |
| ExtractionTaskLaws.TaskMovesOnward | src/memory_system/infrastructure/mongodb/extraction_task_repository.py:108-344 | over any stretch of any run attempts never fall and a completed task never changes |
| ExtractionTaskLaws.ResultClearedOnlyByRebuild | src/memory_system/domain/services/extraction_admin_service.py:139-227 | an extraction result disappears exactly when a rebuild resets the failed task |
| ExtractionTaskLaws.ResultSurvivesExactly | src/memory_system/domain/services/production_extraction_pipeline.py:193-204 | a stored result survives a step unchanged if and only if the step neither rebuilds the task nor stores a different result for a consumer that loaded it without one |
| ExtractionTaskLaws.ResultStaysExactly | src/memory_system/domain/services/production_extraction_pipeline.py:193-204 | the same over any stretch of any run, with any number of consumers |
| ExtractionTaskLaws.CommitOnlyAfterTerminal | src/memory_system/infrastructure/kafka/archive_created_consumer.py:301-302 | an offset is committed only after its task was completed or failed at some point of the run |
| ExtractionTaskLaws.ResultIsWrittenOnce | src/memory_system/domain/services/production_extraction_pipeline.py:193-204 | with one consumer at a time, a stored result stays the same until a rebuild |
| ExtractionTaskLaws.TwoConsumersReplaceTheResult | src/memory_system/domain/services/extraction_llm_service.py:651-706 | a run in which a second consumer replaces the stored result |
| ConsolidationBatch.FetchCandidateBatch | src/memory_system/infrastructure/neo4j/consolidation_memory_read_repository.py:14-27 | the first eligible memories above the cursor in id order, up to the limit |
| ConsolidationBatch.ImportanceInRange | src/memory_system/domain/services/consolidation_importance.py:139-147 | with validated settings the clamped and rounded importance lies in [0, 1], above the floor of its status |
| ConsolidationBatch.NewImportanceIs | src/memory_system/domain/services/consolidation_importance.py:118-147 | the new importance is the raw one rounded, between the floor of the status and the maximum, and the rounded bound outside |
| ConsolidationBatch.ImportanceIsMonotone | src/memory_system/domain/services/consolidation_importance.py:118-147 | a higher raw importance never gives a lower one |
| ConsolidationBatch.ProcessBatch | src/memory_system/domain/services/consolidation_batch_service.py:62-148 | every row is scored, invalid or without evidence, and counted once |
| ConsolidationBatch.WriteOfRow | src/memory_system/domain/services/consolidation_batch_service.py:62-148 | every row that is well formed, with evidence and a version, is written with its new importance and its version |
| ConsolidationBatch.RowOfWrite | src/memory_system/domain/services/consolidation_batch_service.py:62-148 | and no other row is written |
| ConsolidationBatch.PartitionRows | src/memory_system/domain/services/consolidation_write_service.py:52-95 | the admissible rows, the first per id, and the number of those refused |
| ConsolidationBatch.NothingRejected | src/memory_system/domain/services/consolidation_write_service.py:52-95 | distinct admissible rows are all kept |
| ConsolidationBatch.WriteTouches | src/memory_system/infrastructure/neo4j/consolidation_memory_write_repository.py:13-21 | only listed memories whose version matches change, and only in importance and consolidation time |
| ConsolidationBatch.WriteApplies | src/memory_system/infrastructure/neo4j/consolidation_memory_write_repository.py:13-21 | with distinct ids, every row whose version matched before the write is applied |
| ConsolidationRun.PageIsAdmissible | src/memory_system/domain/services/consolidation_write_service.py:52-95 | with validated settings, versions from 1 and no empty id, nothing a page scores is refused |
| ConsolidationRun.PageWrites | src/memory_system/domain/services/consolidation_run_service.py:118-156 | a page rescores exactly the memories of its rows that are still at the version that was read, changing importance and consolidation time only |
| ConsolidationRun.PageComesTo | src/memory_system/domain/services/consolidation_run_service.py:118-156 | a page as it is read and written rescores its memories; if nobody writes in between, exactly the scorable ones, without conflicts, and the invalid ones and those without evidence are counted as such |
| ConsolidationRun.PageCoversCandidates | src/memory_system/domain/services/consolidation_run_service.py:118-156 | a candidate is on the page or still a candidate after it, despite the run's own write and other writers |
| ConsolidationRun.ScanningStep | src/memory_system/domain/services/consolidation_run_service.py:118-156 | a short page ends the scan with every candidate returned; a full page moves the cursor up |
| ConsolidationRun.Consolidation.WriteBatch | src/memory_system/domain/services/consolidation_write_service.py:98-136 | scored rows are updated, in conflict or refused; conflicts are never negative; no call without admissible rows |
| ConsolidationRun.Consolidation.ScanPage | src/memory_system/domain/services/consolidation_run_service.py:118-156 | one page: bounded, increasing, above the cursor, balanced, covering every candidate; what it read, what it wrote after whatever others did in between, and its counts |
| ConsolidationRun.Consolidation.ScanUser | src/memory_system/domain/services/consolidation_run_service.py:118-156 | the scan ends and returns every memory eligible at its start exactly once in increasing id order, in as many pages as it takes; if nobody else writes, each is rescored and the counts are those of the memories |
| ConsolidationRun.Consolidation.ListUsers | src/memory_system/domain/services/consolidation_run_service.py:116 | the users with an eligible memory, each once |
| ConsolidationRun.Consolidation.ExecuteRun | src/memory_system/domain/services/consolidation_run_service.py:87-249 | skipped exactly if a run is under way; on success every memory eligible at the start, of any user, was scanned once and the counts balance; if nobody else writes, every scanned memory that can be scored has its new importance, no other changed, nothing conflicted, and the invalid ones and those without evidence are counted as such; the mutex is released however the run ends |
| Luhn.LuhnValid | src/memory_system/domain/services/extraction_redaction_service.py:54-66 | the left-to-right parity loop over the decimal digits of the candidate, of any script, decides the right-to-left definition of the standard |
| Luhn.CheckDigitIs | src/memory_system/domain/services/extraction_redaction_service.py:54-66 | of the ten check digits exactly one makes a number valid: the one that fills the sum of the standard up to a multiple of 10 |
| Luhn.SingleDigitErrorIsDetected | src/memory_system/domain/services/extraction_redaction_service.py:54-66 | a changed digit in a valid number always makes it invalid |
| Luhn.AdjacentSwapIsDetected | src/memory_system/domain/services/extraction_redaction_service.py:54-66 | a swap of adjacent digits stays valid exactly if they are equal or 0 and 9 |
| Redaction.MergeSpans | src/memory_system/domain/services/extraction_redaction_service.py:89-102 | merged spans are sorted, separated, and cover exactly the positions of the input spans |
| Redaction.Redact | src/memory_system/domain/services/extraction_redaction_service.py:105-110 | the rewrite from the last cut to the first equals the left-to-right text with one marker per covered run, and its length |
| Redaction.ReplacedIsRedacted | src/memory_system/domain/services/extraction_redaction_service.py:105-110 | replacing separated cuts is replacing maximal covered runs |
| Redaction.RedactedLength | src/memory_system/domain/services/extraction_redaction_service.py:105-110 | the length equation: covered characters go, one marker comes for every run |
| Rrf.EffectiveChannelMap | src/memory_system/domain/services/rrf_fusion.py:142-160 | a channel counts exactly if it found something without listing a memory twice; its map agrees with its hits |
| Rrf.NormalizedScore | src/memory_system/domain/services/rrf_fusion.py:49-71 | the normalised score lies in (0, 1] and is 1 exactly for rank 1 in every effective channel |
| Rrf.FusedIs | src/memory_system/domain/services/rrf_fusion.py:48-118 | each fused memory has its rank in every effective channel that lists it, the sum of the reciprocals of k plus these ranks, and the better rank |
| Rrf.FusionIsOrdered | src/memory_system/domain/services/rrf_fusion.py:87-94 | higher scores first, then better ranks, then smaller ids; no memory twice, and none missing unless the limit is reached |
| Rrf.FusionIsNormalized | src/memory_system/domain/services/rrf_fusion.py:48-94 | the same for every candidate of every fusion: the cap never takes effect |
| Rrf.BetterRanksScoreNoLower | src/memory_system/domain/services/rrf_fusion.py:107-118 | a memory ranked at least as well in every channel never scores lower |
| Rrf.CutIsTop | src/memory_system/domain/services/rrf_fusion.py:87-94 | no memory that was cut off comes before one that was kept |
| Rrf.FuseRrf | src/memory_system/domain/services/rrf_fusion.py:17-104 | fails exactly when both channels fail; mode; the best fused memories of the effective channels in order |
| MemoryValidator.ValidIsVisible | src/memory_system/domain/services/retrieval_memory_validator.py:13-58 | the case analysis accepts exactly the requester's memories of a type asked for that are active or of a status asked for |
| GraphExpansion.DedupeEdges | src/memory_system/domain/services/graph_expansion_ranker.py:64-74 | the two-step comparison keeps the key-minimal edge per related memory |
| GraphExpansion.TopRankedIs | src/memory_system/domain/services/graph_expansion_ranker.py:77-91 | dedupe, sort and truncate give the first of the key-minimal edges: strictly ascending, distinct, nothing better left out |
| GraphExpansion.TopRankedOrder | src/memory_system/domain/services/graph_expansion_ranker.py:55-61 | lower tier, then more important, then later (no time counting as 0), then smaller id |
| GraphExpansion.RankPerSeedEdges | src/memory_system/domain/services/graph_expansion_ranker.py:77-91 | the dictionary of seeds yields the top edges of each seed, seed after seed |
| GraphExpansion.SelectedAreTop | src/memory_system/domain/services/graph_expansion_ranker.py:77-91 | a selected edge is an input edge among the top of its own seed |
| GraphExpansion.ScoreIsLargest | src/memory_system/domain/services/graph_expansion_ranker.py:94-109 | the score is the largest decayed score of the seeds that retain the memory, 0 if there is none |
| GraphExpansion.ComputeGraphScore | src/memory_system/domain/services/graph_expansion_ranker.py:94-109 | the loop computes that score |
| GraphExpansion.AggregateExpanded | src/memory_system/domain/services/graph_expansion_ranker.py:112-141 | the top related memories over all seeds, distinct, each with its score |
| GraphExpansion.MergeOverlap | src/memory_system/domain/services/graph_expansion_ranker.py:155-178 | direct candidates stay in place and are marked exactly if reached; the others, in order, are the expanded ones |
| GraphExpansion.MarkedExactly | src/memory_system/domain/services/graph_expansion_ranker.py:155-178 | a mark adds the graph to the sources, exactly if the graph reached the memory, and changes nothing else |
| Rerank.RerankDirect | src/memory_system/domain/services/cross_encoder_rerank_service.py:43-111 | applied exactly when the answer names every document; positions without text keep their candidate, the others follow the answer |
| Rerank.ScoreIsLast | src/memory_system/domain/services/cross_encoder_rerank_service.py:90-94 | the score of a document is the one the answer gives it last |
| Rerank.CompleteIsLongEnough | src/memory_system/domain/services/cross_encoder_rerank_service.py:82-111 | the iterator over a complete answer never runs out |
| Rerank.OutputDistinctExactly | src/memory_system/domain/services/cross_encoder_rerank_service.py:82-111 | no candidate is returned twice exactly when the first answers, one per document, are distinct |
| Rerank.RepeatedAnswerRepeatsAMemory | src/memory_system/domain/services/cross_encoder_rerank_service.py:82-111 | a usable answer for which a memory is returned twice |
| Rerank.OutputCovers | src/memory_system/domain/services/cross_encoder_rerank_service.py:82-111 | if the service does not repeat itself every candidate is returned |
| Rerank.RerankingIsPossibleExactly | src/memory_system/domain/services/cross_encoder_rerank_service.py:72-88 | a service that returns no more than the limit can answer usably if and only if there are documents and all fit the limit |
| Recall.DedupeFused | src/memory_system/domain/services/graph_expansion_ranker.py:36-52 | one candidate per memory, with its smallest rank, in order of rank |
| Recall.ReadDirect | src/memory_system/domain/services/authoritative_recall_service.py:151-212 | one direct candidate for each fused memory that is read back and may be shown, from its best entry, best rank first |
| Recall.RerankBuilt | src/memory_system/domain/services/authoritative_recall_service.py:121-129 | the specified reordering, or the same candidates if reranking is off or its answer unusable; visible, and if the service does not repeat itself the same memories |
| Recall.ExpansionAddsExactly | src/memory_system/domain/services/authoritative_recall_service.py:214-321 | exactly the top neighbours that are not direct and are read back, shown and indexed are added |
| Recall.ExpansionIs | src/memory_system/domain/services/authoritative_recall_service.py:214-321 | what is added has the graph as its only source, its graph score and no other, and the memory as read back |
| Recall.SecondSortChangesNothing | src/memory_system/domain/services/authoritative_recall_service.py:263 | the neighbours already come in the order in which the expanded candidates are sorted |
| Recall.Expand | src/memory_system/domain/services/authoritative_recall_service.py:214-321 | the specified marks and additions; a failed call adds nothing; added memories are distinct, visible and disjoint from the direct ones |
| Recall.RecallMemories | src/memory_system/domain/services/authoritative_recall_service.py:87-149 | the outcome of the stages; every candidate may be shown; if reranking does not repeat itself no memory is returned twice and the direct ones are exactly the fused memories that can be shown |

## Left out

- One session is modelled, next to other sessions' archives; session ids are assumed free of colons, message ids only where a theorem says so.
- Role and timestamp of a message travel with its body; the capacity and token-total checks of the message write, and token arithmetic of finalize, are not modelled.
- The prefix a round archives is any non-empty prefix in the protocol; `PrefixSelection` says which one the code picks.
- Lock expiry while its holder lives, shutdown deadlines and timeouts; a lock expires only after its holder is gone.
- Faults of the enter, read and delete requests of a close appear as crashes; archive requests can also be lost or answered too late.
- Kafka publishing, compression summaries, and the consumer loop moving on past a record that was not committed.
- Floating point: scores are rationals, and a confidence is rounded to four places exactly.
- exp and log in the importance score: the raw value is arbitrary before clamping.
- Digest collisions and reused UUIDs; which memories a recall query returns beyond its limit is arbitrary.
- Entity nodes and SUBJECT/OBJECT edges of the graph: memories carry their entities as facts. Entity search texts and embeddings of index documents.
- Finding processed evidence and recalling memories read the same graph; expansion, reading and writing of an index sync are one step.
- Warnings, telemetry, per-candidate decisions, and the order of retrieval sources.
- Which characters are decimal digits of which value is given; card candidates are matches of the card pattern, so every digit in them is a decimal one.
- Regular expressions, NFKC normalisation, JSON parsing, prompts, tokenizers; spans and normal forms are given.
- HTTP routes, schemas, settings loading, migrations, and `scripts/locomo_eval`.
- FreshRunsLoseNothing: is a sufficient case; `RunLosesNothingExactly` is the exact condition.
- OnlyThePendingHeadCanBeLost: is about the state after the delete; `DeleteLosesNothingExactly` says when a delete loses something.
- CloseSession: no other process acts between its steps; interleaved attempts are those of the protocol in `CloseProtocol`.
- EmptyReplayCatchesUp: asks that the archive's candidates have distinct fingerprints; `RepeatedEvidenceLeavesIndexBehind` says what can happen otherwise.
- `Replay` and `ExtractionTask` are separate machines: that redeliveries see the same candidates is proved of the task document, and `Replay` allows any candidates.
- EvidenceIsAppliedExactlyOnce: attempts of one archive do not overlap; `OverlapAppliesTwiceExactly` says what happens otherwise.
- MemoriesMoveOn: attempts follow one another, as the records of one user do in their partition; candidate confidences are from 0 to 1, as extraction admits them.
- ResultIsWrittenOnce: one consumer per archive at a time, as the partitioning of the topic is meant to give.
- ExecuteRun: other writers may change versions and add memories but not remove one or end its eligibility; a memory with an empty id ends a run as a failure.
- WriteApplies: a repeated id in one batch is excluded by the partition before it.
