# A verified model of the WMS configuration assistant

This project models, in Dafny, the parts of the repository whose correctness depends on more than one function at a
time, and proves what they promise.

* **Ingestion commit.** One ingestion run moves a vector collection, a BM25 index, an embedding model, a history row
  and document artifacts together. `ChromaStore.dfy`, `IndexStores.dfy`, `Indexing.dfy` and `IngestionRun.dfy` model
  the three nested layers of compensation as methods that change the stores step by step. Every external call may
  fail, before it takes effect, and `ExternalCalls.dfy` counts the calls that do, those of the work and those of its
  restoration apart: so a run may raise, and may stay unrestored, only with a failed call to show for it. A trail of
  all disk states makes the crash behaviour of the swap a statement about every prefix. `Resync.dfy` adds the
  selection and the fail-closed check before a full replacement.
* **Plan, validate, approve, export.** `TaskGraph.dfy`, `TaskPlanning.dfy` and `PlanOrder.dfy` (Kahn's algorithm with
  a heap), `CycleCheck.dfy` (an independent depth-first search), `Validation.dfy`, `ReportContents.dfy`,
  `CleanDrafts.dfy` and `PlanFindings.dfy` (the rules, what a report says, and what passing them means),
  `Supervisor.dfy` and `SupervisorSafety.dfy` (the workflow as a state machine with budgets and a bounded retry loop),
  `SessionTables.dfy`, `SessionRepository.dfy`, `SessionHistory.dfy` and `SessionRuns.dfy` (the versioned repository
  under optimistic concurrency), `Governance.dfy` and `SolutionService.dfy` (what is decided, approved and exported,
  over whole runs in which readers act late).
* **Evidence and retrieval.** `EvidenceRegistry.dfy` and `Knowledge.dfy` (collection with concurrent searches, and
  what becomes of all they find), `EvidenceMerging.dfy` and `TargetedRetrieval.dfy` (what merging and targeting keep
  and forget over whole runs), `Ranking.dfy`, `Fusion.dfy`, `FusedResults.dfy`, `Diversity.dfy` and `HybridSearch.dfy`
  (from two rankings to an optimal selection of genuine hits), `BM25.dfy`, `BM25Index.dfy` and `LockedIndex.dfy` (the
  inverted index against a brute-force scan, with several instances on one file).
* **Text, conversation, files.** `Splitting.dfy`, `ConversationMemory.dfy`, `LifecycleLock.dfy`, `ImageStorage.dfy`.

`Ordering.dfy`, `Text.dfy`, `Corpus.dfy` and `Outcomes.dfy` hold what they share: sorting by a key, the string
operations of Python, chunks, results and options.

Some promises turned out not to hold for every input. They are kept as the code has them, with a concrete input and
the exact condition:

* `RefusedTurnEndsIff`, `RefusedRetryIsReached`, `RefusedRetryHappens`: a turn refused inside the retry loop goes
  round for ever, because the route after validation does not look at why the turn paused.
* `MergeTracksIff`, `ForgetsIff`, `RefreshMayForget`: a refreshed requirement drops every gap in whose text it occurs,
  and a task can read as supported while another requirement has no evidence.
* `TargetsCoverIff`, `TargetingForgetsIff`, `WorkflowForgets`: so it does when the workflow searches for exactly the
  targets of validation, if the gap of a search that raised names another requirement and not its own.
* `StaysOpenIff`, `RaisedStaysOpen`: the other way round, a search that raised and is repeated with success leaves its
  gap behind, and its binding does not read as supported although nothing is lacking.
* `RunLocked`, `SharedImageIsLost`: a file comes back after a failed run exactly when `ComesBack` says so. An image
  that was there without this document listing it is lost when processing lists it; the report of processing, and
  images that were rewritten unlisted, stay as processing left them.
* `EmptyDraftIsClean`, `EmptyDraftCanBeApproved`: a draft without tasks passes validation.
* `RestoreFaithfulIff`, `SilentFailureNotRestored`: a failed history row without a message is not restored as it was.
* `AnswersFromFileIff`, `FailedBuildIsLost`: after a failed save an instance answers from documents that are not in
  the file, until the file is replaced.
* `LocatedExactlyIff`, `LocatedTooEarly`: a chunk whose text also occurs a little earlier is located there.
* `ImageStorage.SaveBytes`, `FileLeftBehind`: a new file stays behind when its transaction and the queueing of it both
  fail.

Conventions. A nondeterministic choice (`*`) is an external call that may fail; when it does, `calls.failed` or, for a
call of a restoration, `calls.failedUndo` grows. `Raised(true)` is an exception after which everything is restored,
`Raised(false)` one after which it is not, which `Accountable` allows only when a call of the restoration failed.
Where several processes or callers act at once, the model is a state machine over their atomic steps, and the lemmas
speak of every sequence of steps. Scores are real numbers and stable identifiers are an injective function.

## Model

| member | source | states |
|---|---|---|
| ChromaSwap.ChromaStore.ReplaceAllAtomically | src/libs/vector_store/chroma_store.py:71-154 | A normal return has moved the whole corpus under the canonical name, with history, BM25 and model committed. Given records that every store counts alike, it raises only when a call failed. It cannot undo itself only when a call of the undoing failed as well, and then the journal makes opening refused; when none failed, exactly the collections of before are there, with the same handle. Every disk state on the way, and so every crash, is refused or opens on the complete old or the complete new corpus |
| ChromaSwap.ChromaStore.TrySwap | src/libs/vector_store/chroma_store.py:99-133 | How far stage, rename, switch and finalize got is exactly what the two flags say, the journal exists throughout, and with counts that agree only a failed call stops it |
| ChromaSwap.ChromaStore.UndoSwap | src/libs/vector_store/chroma_store.py:129-152 | From every intermediate state the compensation gives the old corpus its name and the handle back, unless a call of it failed; the new corpus keeps the name only when two did; when none failed, the collections are exactly those of before, without leftovers |
| ChromaSwap.ChromaStore.UndoSwitch | src/libs/vector_store/chroma_store.py:130-140 | After both renames: the new collection gives up the canonical name and the old one gets it back, unless a call of this failed |
| ChromaSwap.ChromaStore.StageCorpus | src/libs/vector_store/chroma_store.py:105-119 | The staged collection holds exactly the records, as many as were sent, and nothing else changed; with distinct records only a failed call stops it |
| ChromaSwap.ChromaStore.SwitchNames | src/libs/vector_store/chroma_store.py:120-127 | The two renames, with what each flag means if the second fails |
| ChromaSwap.ChromaStore.UpsertCollection | src/libs/vector_store/chroma_store.py:157-167 | Batches of 256 write the same collection as all records at once; when one fails, exactly a number of whole batches is written |
| ChromaSwap.ChromaStore.RefreshActiveGeneration | src/libs/vector_store/chroma_store.py:348-363 | The handle points at whatever carries the canonical name |
| Indexing.IndexingPipeline.Index | src/ingestion/pipeline.py:123-391 | All or nothing over the vector store, BM25, the model file and the history for every failing call: a normal return has committed all of them to the same corpus, a compensated raise has changed none (the history row is the caller's to restore). It raises only on unusable chunks, an unfinished preparation or a failed call; each store that is then not restored has a failed call of the compensation of its own; a crash opens on the corpus from before or on the complete encoding of the new one; and a second unforced run on the same chunks touches neither the vector store nor the model |
| Indexing.IndexingPipeline.Run | src/ingestion/pipeline.py:136-381 | The attempt with its compensation, after the BM25 snapshot was taken; each store that is not compensated has a failed call of the compensation of its own |
| Indexing.IndexingPipeline.Attempt | src/ingestion/pipeline.py:146-347 | What the try block leaves when it raises: which of the stores it touched, as the two flags say; with distinct chunks only a failed call makes it raise |
| Indexing.IndexingPipeline.Prepare | src/ingestion/pipeline.py:146-210 | The `try` block before any store is written: fitting when it is forced or the model does not cover the corpus, and what is pending; it stops only on a failed call or an unfinished preparation |
| Indexing.IndexingPipeline.ReplaceCorpus | src/ingestion/pipeline.py:241-285 | The swap with the finalize callback: a normal return holds exactly the chunks in every store, a raise is accounted for |
| Indexing.IndexingPipeline.Compensate | src/ingestion/pipeline.py:355-369 | BM25 is rebuilt from the snapshot and the model rolled back, each as far as it was touched, and whether or not the other or the swap could be undone: what is not restored has a failed call of its own |
| Indexing.IndexingPipeline.Synchronize | src/ingestion/pipeline.py:282-327 | Through the swap or, when every vector is current, without it: a normal return holds exactly the chunks under one model, and whatever a crash may open on is the corpus from before or the complete encoding of the chunks |
| Indexing.CountedApart | src/ingestion/pipeline.py:444-457 | The count check alone forces the identifiers apart and equal as sets: fewer identifiers than chunks would show |
| Indexing.CountsAgree | src/ingestion/pipeline.py:444-457 | Chunks with distinct identifiers are counted alike by every store, so the count check does not stop them |
| Indexing.EncodedCorpus | src/ingestion/pipeline.py:193-206 | The encoded records are distinct and each carries the current signature and content hash |
| Indexing.EncodedSays | src/ingestion/pipeline.py:193-206 | The record of every chunk carries its text, its metadata, the signature and the hash of its text |
| Indexing.SparseCorpusSays | src/ingestion/pipeline.py:222-222 | The BM25 corpus holds of every chunk what is counted of that chunk |
| Indexing.CurrentMeans | src/ingestion/pipeline.py:403-419 | In a current corpus the vector of every chunk has the hash of its text and the signature of the model |
| Indexing.NothingToDoIff | src/ingestion/pipeline.py:403-425 | A corpus is current if and only if nothing is pending and nothing is to be deleted |
| Indexing.Pending | src/ingestion/pipeline.py:403-419 | Exactly the chunks whose stored vector is missing or out of date, in order |
| IndexStores.CoordinatedStores.PrepareFit | src/libs/embedding/local_lsa_embedding.py:68-112 | What is prepared gives back the model in memory and on disk from before; a refused second preparation changes nothing |
| IndexStores.CoordinatedStores.RollbackFit | src/libs/embedding/local_lsa_embedding.py:128-150 | Memory and file are those from before the preparation |
| IndexStores.CoordinatedStores.CommitFit | src/libs/embedding/local_lsa_embedding.py:114-119 | The file holds the prepared model, or is unchanged when the write failed |
| IndexStores.CoordinatedStores.CommitHistory | src/ingestion/pipeline.py:612-629 | The success row is written, or nothing, or it is written and the checkpoint after it still raises |
| IndexStores.CoordinatedStores.RestoreHistory | src/ingestion/corpus_processor.py:396-429 | Only the one row is touched; with no captured row it is gone, otherwise it is the captured one as restored |
| IndexStores.CoordinatedStores.BuildSparse | src/ingestion/storage/bm25_indexer.py:44-52 | The file is replaced as a whole or not at all; a failure leaves memory as it was or at the new index |
| IndexStores.CoordinatedStores.CommitSparseAndModel | src/ingestion/pipeline.py:241-280 | In order: BM25, model, history, counts; a failure names what was already changed |
| IndexStores.RestoreFaithfulIff | src/ingestion/corpus_processor.py:396-429 | A captured history row comes back equal, but for the time of processing, if and only if it is a success or a failure that says why |
| IndexStores.SilentFailureNotRestored | src/ingestion/corpus_processor.py:420-429 | A failed row with an empty message comes back with another message |
| IngestionRun.IngestionPipeline.RunLocked | src/ingestion/pipeline.py:563-709 | All or nothing over every store for every failing call. It raises only when what processing left may not be indexed or a call failed; whatever is then not restored, of vectors, BM25, model, files, images and history, each has a failed call of the restoration of its own. After a restored run every store is as before, and so exactly are the files that come back. A normal return holds one complete corpus, neither losing nor resurrecting a chunk of another source; of the history only superseded rows may be gone and of the files only those of superseded rows, all of them when no call failed. At every moment a crash is refused or opens on the complete old corpus or the complete encoding of the new one |
| IngestionRun.IngestionPipeline.Advance | src/ingestion/pipeline.py:586-640 | The try block up to the committed index: what a normal return has committed, what a raise leaves for the rollback, and that it raises for a reason |
| IngestionRun.IngestionPipeline.Rollback | src/ingestion/pipeline.py:674-697 | Every restoration is tried even when an earlier one raised; captured files, new images and the history row, whichever is not restored, each have a failed call of their own; when none failed, a file is as before if and only if it comes back; every other row is untouched |
| IngestionRun.IngestionPipeline.ProcessedIs | src/ingestion/corpus_processor.py:75-309 | Processing writes what it writes and unlinks what it unlinks, artifacts of the document only, and leaves the rest |
| IngestionRun.IngestionPipeline.RestoreFiles | src/ingestion/pipeline.py:674-687 | The first two restorations: the captured files and the new images, each restored or with a failed call of its own |
| IngestionRun.IngestionPipeline.RestoreArtifacts | src/ingestion/corpus_processor.py:334-353 | Every captured path has its captured content, or is absent as it was; every other image the current document lists is unlinked; nothing else changes |
| IngestionRun.IngestionPipeline.OwnFilesComeBack | src/ingestion/corpus_processor.py:311-353 | The artifacts of the document, the ledger and the images its document listed before always come back |
| IngestionRun.IngestionPipeline.SharedImageIsLost | src/ingestion/corpus_processor.py:311-353 | An image that was there without its document listing it is lost when processing lists it and the run fails |
| IngestionRun.IngestionPipeline.RemoveNewImages | src/ingestion/corpus_processor.py:383-394 | No managed image that was not there before is left; nothing else is touched |
| IngestionRun.IngestionPipeline.CleanUp | src/ingestion/corpus_processor.py:558-623 | After the commit the history differs only in superseded rows that are gone; every file is as processing left it but the failure ledger, managed files that only superseded rows list, which may be gone, and the document, which may have its final form; when no call failed nothing superseded is left that lies in the managed directories |
| IngestionRun.IngestionPipeline.CleanUpSuperseded | src/ingestion/corpus_processor.py:578-623 | Rows and files of nothing but superseded records go; when no call failed, none of them is left that is manageable |
| IngestionRun.IngestionPipeline.RemoveRecords | src/ingestion/corpus_processor.py:590-608 | Whatever record fails, the records gone are among the superseded ones, and the files gone are their own and in no other use; without a failed call every manageable record is gone |
| IngestionRun.IngestionPipeline.RemoveRecord | src/ingestion/corpus_processor.py:590-608 | The record goes last, and only with all of its files |
| IngestionRun.IngestionPipeline.DeleteArtifacts | src/ingestion/corpus_processor.py:664-692 | In order, up to the first artifact outside its directory or that cannot be removed; images in other use stay |
| IngestionRun.IngestionPipeline.FinalizeOptionalAssets | src/ingestion/corpus_processor.py:558-576 | Only the document may be rewritten, and only when it is there |
| IngestionRun.IngestionPipeline.WhatGoes | src/ingestion/corpus_processor.py:664-708 | A file goes with a record if and only if the record lists it in its managed directory, and, if it is an image, only removed successful records list it |
| IngestionRun.IngestionPipeline.LoadChunks | src/ingestion/pipeline.py:65-104 | Whatever is loaded is what is stored, sorted by identifier, not empty and with distinct identifiers; it refuses such chunks only when a call failed |
| Resync.SelectIndexedOrCurrent | src/ingestion/pipeline.py:711-744 | The loops compute the selection: what is indexed already, or current at the current hash |
| Resync.ValidateSnapshot | src/ingestion/pipeline.py:746-785 | Accepts if and only if every indexed chunk of another source is among the chunks |
| Resync.SelectionOfCurrent | src/ingestion/pipeline.py:720-744 | Dropping outdated chunks first changes nothing of the selection; with an empty index nothing else is dropped |
| Resync.SelectionMembers | src/ingestion/pipeline.py:711-744 | Exactly the selectable chunks, with distinct identifiers kept distinct |
| Resync.ResyncPreserves | src/ingestion/pipeline.py:711-785 | Whatever the selection keeps and the check accepts neither loses a chunk of another source nor resurrects one that was not indexed |
| Corpus.EmbeddedText | src/ingestion/embedding/dense_encoder.py:41-55 | What is embedded begins with the context and ends with the text, so that the hash of a model tells changed texts apart |
| Corpus.PathKeyIff | src/ingestion/corpus_processor.py:710-711 | Two paths are one source if and only if they differ in slashes and case at most |
| Corpus.PathKeyOfDot | src/ingestion/corpus_processor.py:710-711 | A leading "./" does not matter |
| Corpus.CurrentSourceIff | src/ingestion/pipeline.py:788-800 | A chunk is of the source being ingested if and only if it is in its collection and its relative path, or without one its path, is that source |
| DependencyGraph.ScheduleByPosition | src/agents/task_graph.py:158-170 | A schedule, by positions: tasks of the graph, none twice, each after all its dependencies |
| DependencyGraph.KahnCompleteIffAcyclic | src/agents/task_graph.py:149-170 | Kahn's loop orders every task if and only if there is no cycle, and then in a topological order |
| DependencyGraph.KahnLexicographicallyLeast | src/agents/task_graph.py:149-170 | That order is the lexicographically least of all topological orders, and the only one as small |
| TaskPlanning.StableTopologicalOrder | src/agents/task_graph.py:149-170 | The counters and the heap compute exactly that order, and raise exactly on a cycle, naming the tasks left over |
| TaskPlanning.Drain | src/agents/task_graph.py:156-165 | The heap loop |
| TaskPlanning.CollectDependents | src/agents/task_graph.py:151-154 | For every task the tasks that wait for it |
| TaskPlanning.Release | src/agents/task_graph.py:162-165 | One dependency of every dependent is done; those with none left enter the heap |
| TaskPlanning.BuildTaskPlan | src/agents/task_graph.py:76-146 | Succeeds if and only if the goal is not blank and the drafts can be planned; the plan is then the one the drafts determine, and an error is a true statement about the drafts |
| TaskPlanning.TaskSaysDraft | src/agents/task_graph.py:173-194 | A task says what its draft says in every field, every item once, stripped and in the given order, and depends on exactly the tasks of the drafts it depends on |
| TaskPlanning.IdentifiersAreStable | src/agents/task_graph.py:110-114 | Writing the areas in another case or with more white space before them changes no identifier |
| TaskPlanning.FileDrafts | src/agents/task_graph.py:91-101 | Succeeds if and only if keys and meanings are distinct; files every draft under its key |
| TaskPlanning.CheckDependencies | src/agents/task_graph.py:103-108 | Finds the first draft that names a task nobody drafted, with the sorted missing names |
| PlanOrder.PlanIgnoresDraftOrder | src/agents/task_graph.py:76-146 | Any permutation of the drafts is refused too, or gives exactly the same plan |
| PlanOrder.StaleTasksInvalidated | src/agents/task_graph.py:139-145 | Exactly the earlier tasks planned on another baseline are invalidated |
| CycleCheck.HasCycle | src/agents/services/validation_service.py:250-267 | The depth-first search answers true if and only if the dependencies among known tasks contain a cycle |
| CycleCheck.Visit | src/agents/services/validation_service.py:254-265 | One visit: a cycle was found, or the task and everything below it is scheduled |
| CycleCheck.DetectorsAgree | src/agents/services/validation_service.py:250-267 | It fires exactly when Kahn's loop would leave tasks over |
| Validation.Validate | src/agents/services/validation_service.py:37-66 | The report is the set of all conflicts, the set of all findings and the requirements to search for again |
| Validation.FindConflicts | src/agents/services/validation_service.py:68-115 | All conflicts of all tasks in all dimensions |
| Validation.TaskConflicts | src/agents/services/validation_service.py:75-113 | The conflicts of one task |
| Validation.FindFindings | src/agents/services/validation_service.py:117-175 | All findings of all tasks and of the graph |
| Validation.FindGraphFindings | src/agents/services/validation_service.py:152-174 | Edges that disagree with the tasks, a cycle, tasks left over from an older plan |
| Text.StripIs | src/agents/services/validation_service.py:274-276 | What `strip` removes is white space, at both ends |
| ReportContents.FindingsAre | src/agents/services/validation_service.py:117-175 | The findings are exactly one for every rule that a task breaks and one for every rule that the graph breaks |
| ReportContents.TaskFindingsAre | src/agents/services/validation_service.py:124-151 | A task is reported for exactly the rules it breaks, each with what it says of the task |
| ReportContents.ConflictsAre | src/agents/services/validation_service.py:68-115 | The conflicts are exactly one for every task and dimension in which its bound evidence disagrees with itself or with what is expected, with the disputed values |
| CleanDrafts.FindingsEmptyIff | src/agents/services/validation_service.py:117-175 | There is no finding if and only if every task is complete and supported by known evidence, the edges are those of the tasks, there is no cycle and nothing is invalidated |
| CleanDrafts.ConflictsEmptyIff | src/agents/services/validation_service.py:68-115 | There is no conflict if and only if all bound evidence of every task agrees with itself and with the expected scope |
| CleanDrafts.EmptyDraftIsClean | src/agents/services/validation_service.py:37-66 | A draft without tasks validates without conflict or finding |
| PlanFindings.PlanIsRenamedGraph | src/agents/task_graph.py:115-146 | Every plan, by identifier, is closed, has exactly the edges of its tasks and no cycle |
| PlanFindings.PlansHaveSoundDependencies | src/agents/services/validation_service.py:124-172 | No plan ever yields a missing dependency, an edge mismatch or a cycle finding |
| SupervisorSafety.StepKeepsSound | src/agents/graph.py:99-155 | No reachable node makes the status transition raise, and every step keeps all budgets and the rest of the invariant |
| SupervisorSafety.MemoryStaysInBudget | src/agents/graph.py:293-328 | The calls that prepare memory enter the node budget one by one and never exceed it; tokens and repairs stay within theirs when the turn goes on |
| SupervisorSafety.CallIsAccounted | src/agents/budget.py:40-62 | A node that calls the model pays for exactly that call; when time, repairs or tokens run over, in this order, the turn ends paused with that reason and nothing is called any more |
| SupervisorSafety.MemoryIsAccounted | src/agents/graph.py:293-328 | While memory is prepared every call made is paid for, none is made after a limit is exceeded, and all are made unless the turn is paused |
| SupervisorSafety.StepGoesOn | src/agents/graph.py:182-288 | Which node follows which, and under what answer of the model, the user or validation |
| SupervisorSafety.StepChangesDraft | src/agents/graph.py:655-887 | Only the requirement node changes the context, only planning the tasks and edges, and only the retrieving nodes the evidence; a node that moves on has written all of what it was given |
| SupervisorSafety.UnclearEnds | src/agents/graph.py:290-404 | What does not fit the context, or cannot be resolved from it, ends the turn with its reason |
| SupervisorSafety.OutsideEnds | src/agents/graph.py:655-833 | Requirements or a plan from outside the workspace, and evidence that breaks its contract, end the turn and leave the work as it was |
| SupervisorSafety.StepEndsFor | src/agents/graph.py:182-288 | A turn ends, but for a refusal, only at a clean validation, without anybody to search for evidence, or paused with a reason that is true of what happened in that step |
| SupervisorSafety.AnswerIsTaken | src/agents/graph.py:592-929 | An awaiting node does nothing until it is answered; an answer goes through memory again, to the requirements or the classifier, and after validation allows new rounds of retrieval |
| SupervisorSafety.AllowedIff | src/agents/graph.py:99-147 | The statuses from which each status may be reached: only a validated draft comes under review, and no node approves or rejects |
| SupervisorSafety.ContinueIsSound | src/agents/supervisor.py:158-217 | However the last turn ended, or was cut off, the next starts in a state the graph expects |
| SupervisorSafety.ContinueKeepsWork | src/agents/supervisor.py:158-217 | A resumed question goes on where it waited with what it had; any other turn starts anew with the same work; both with fresh budgets |
| SupervisorSafety.TurnKeepsSound | src/agents/graph.py:182-288 | The invariant over a whole turn |
| SupervisorSafety.SessionKeepsSound | src/agents/supervisor.py:104-217 | Over every session: no node raises on its transition, `nodes_executed` never exceeds the budget, whenever a node is about to run tokens and repairs are within their budgets, and a draft offered for review was just validated without conflict or finding |
| SupervisorSafety.WholeSessionIsSound | src/agents/supervisor.py:104-217 | The same from the first message of a session on |
| SupervisorSafety.RefusalSticks | src/agents/budget.py:31-38 | A refused entry pauses the turn, changes nothing else, and every later entry is refused too |
| SupervisorSafety.StepDecreases | src/agents/graph.py:182-288 | Every step that is not refused lowers the measure (answer pending, retrieval rounds left, node position) |
| SupervisorSafety.TurnEndsUnlessRefusedInRetry | src/agents/graph.py:182-288 | Every turn ends or waits for the user within a number of steps known when it starts; the only exception is a refusal inside the retry loop |
| SupervisorSafety.RefusedTurnEndsIff | src/agents/graph.py:951-962 | After a refusal no node does any work, and the turn ends if and only if the retry guard is false where it was refused |
| SupervisorSafety.RefusedRetryIsReached | src/agents/graph.py:864-887 | With a budget of seven nodes and the rules of the validation service, every session for whose one task the searches found nothing reaches the refused retry loop |
| SupervisorSafety.RefusedRetryHappens | src/agents/graph.py:864-887 | One concrete such session |
| SupervisorSafety.NothingFoundIsRetried | src/agents/services/validation_service.py:37-66 | The rules make of a task for which nothing was found a finding without a conflict and with something to search for again |
| SessionRepositories.SessionRepository.CreateSession | src/agents/repositories/session_repository.py:141-212 | One transaction: the row and revision 1, or nothing and the reason |
| SessionRepositories.SessionRepository.AppendTurn | src/agents/repositories/session_repository.py:363-420 | One transaction: the next turn under the expected revision, or nothing and the reason |
| SessionHistory.TurnIsAppended | src/agents/repositories/session_repository.py:363-420 | An accepted turn is added to its session alone, after the others, with the next number and the text that was given, stripped |
| SessionRepositories.SessionRepository.UpdateRevision | src/agents/repositories/session_repository.py:422-503 | One transaction: the merged state as the next revision, or nothing and the reason |
| SessionRepositories.SessionRepository.CancelSession | src/agents/repositories/session_repository.py:505-520 | A revision that only changes the status |
| SessionRepositories.SessionRepository.RecordApproval | src/agents/repositories/session_repository.py:555-602 | One approval row for the expected revision, or nothing and the reason |
| SessionRepositories.SessionRepository.RecordExport | src/agents/repositories/session_repository.py:604-637 | One export row for the expected revision, or nothing and the reason |
| SessionRepositories.SessionRepository.ApplyReviewTransition | src/agents/repositories/session_repository.py:639-727 | The approval and the revision it leads to, together or not at all |
| SessionRepositories.SessionRepository.DeleteSession | src/agents/repositories/session_repository.py:248-256 | Moves a visible session to the bin |
| SessionRepositories.SessionRepository.RestoreSession | src/agents/repositories/session_repository.py:258-263 | Takes a session out of the bin |
| SessionRepositories.SessionRepository.PurgeDeletedSessions | src/agents/repositories/session_repository.py:278-339 | Removes every selected session and the checkpoints of its thread, if and only if all of them are in this workspace's bin at the confirmed revision and the checkpoint database has the expected tables; otherwise changes nothing |
| SessionRepositories.SessionRepository.InsertRevision | src/agents/repositories/session_repository.py:463-503 | The revision row and the moved session row, or a conflict |
| SessionHistory.NextSequence | src/agents/repositories/session_repository.py:391-396 | `MAX(sequence) + 1` continues the numbering 1, 2, ... |
| SessionHistory.ApplyKeepsConsistent | src/agents/repositories/session_repository.py:141-727 | After every operation revisions are exactly 1 to the current one, the row agrees with the last, turns are numbered 1 to n, and turns, approvals and exports refer to existing revisions in non-decreasing order |
| SessionRuns.ApplyTouches | src/agents/repositories/session_repository.py:141-727 | One operation only adds to a session it does not purge, adds nothing to a cancelled one, and leaves every session of another workspace exactly as it is |
| SessionRuns.AddsOnlyToCurrent | src/agents/repositories/session_repository.py:363-727 | Whatever is added to a session is added while it is visible, not cancelled, in this workspace and at the expected revision |
| SessionRuns.WrittenIsPermitted | src/agents/repositories/session_repository.py:422-503 | A revision is written by its own workspace only, and only with a draft that the workspace permits |
| SessionRuns.PurgeIsAllOrNothing | src/agents/repositories/session_repository.py:278-339 | A purge forgets every selected session with everything recorded about it or changes nothing, and removes only what was selected, in the bin, in this workspace and at the confirmed revision |
| SessionRuns.RunKeepsConsistent | src/agents/repositories/session_repository.py:141-727 | The history invariant over every interleaving of any number of repositories |
| SessionRuns.RunOnlyGrows | src/agents/repositories/session_repository.py:141-727 | Until a purge, no revision, turn, approval or export is ever lost or rewritten, and nothing follows a cancellation |
| SessionRuns.OtherWorkspacesIsolated | src/agents/repositories/session_repository.py:838-851 | However long other workspaces work, purging included, the sessions of this one stay as they are |
| SessionRuns.RevisionsConsumedOnce | src/agents/repositories/session_repository.py:865-880 | Two commits to a session never consume the same expected revision |
| SolutionServices.SolutionService.Review | src/agents/services/solution_service.py:57-100 | Only a revision under review is reviewed. A successful review adds one approval row and revision `expected + 1`, which is approved as it was, rejected as it was, or sent back to planning with its tasks kept but invalid and its evidence dropped, as the decision says; otherwise nothing changes; tables in governance stay so |
| SolutionServices.SolutionService.Export | src/agents/services/solution_service.py:102-139 | Only an approved revision that composes is exported: the file holds that revision, then the row is recorded; a repeated export records nothing new, a refused row leaves the file, and nothing is written only when the call failed; tables in governance stay so |
| SolutionServices.SolutionService.Validate | src/mcp_server/tools/configuration_sessions.py:73-107 | The next revision differs in the report of the stored draft alone: paused when it blocks, under review when it does not; otherwise nothing changes; tables in governance stay so |
| SolutionServices.SolutionService.PersistResult | src/agents/supervisor.py:269-293 | The next revision has the status, draft and report a turn left, and is otherwise as before; for a sound turn, tables in governance stay so |
| SolutionServices.ReviewIsEvents | src/agents/services/solution_service.py:57-100 | `review` is the two events of reading the revision and writing the decision |
| SolutionServices.ExportIsEvents | src/agents/services/solution_service.py:102-139 | `export` is the two events of reading the revision and recording the row |
| SolutionServices.ValidationIsEvents | src/mcp_server/tools/configuration_sessions.py:73-107 | `validate` is the two events of reading the revision and writing the report |
| SolutionServices.GovernedMeansReviewed | src/agents/services/solution_service.py:57-100 | In the tables every operation of the service keeps in governance, every approved revision follows a clean revision under review with the same draft and an approve row |
| Governance.StepKeepsGovernance | src/agents/services/solution_service.py:57-139 | Every step of the services, with reads and writes interleaved, keeps the governance invariant |
| Governance.RunKeepsGovernance | src/agents/services/solution_service.py:57-139 | The invariant over every run |
| Governance.ApprovedMeansReviewed | src/agents/services/solution_service.py:57-100 | In every run, every approved revision follows a revision under review with the same draft and an approve row, and validating its draft again gives no conflict and no finding |
| Governance.DecisionsAreFollowed | src/agents/services/solution_service.py:57-100 | In every run, every approval row has a next revision that is approved, rejected or back in planning as its decision says |
| Governance.RejectedIsReworked | src/agents/services/solution_service.py:57-100 | In every run, a rejected revision is not approved later unless a turn or a validation put a clean revision under review in between |
| Governance.ReviewWasWritten | src/mcp_server/tools/configuration_sessions.py:73-107 | In every run, what is under review was put there by a turn or a validation of that run, never by a decision |
| Governance.RevisionStays | src/agents/repositories/session_repository.py:278-339 | In every run, a revision that is still there has not changed, and a purged session does not come back |
| Governance.ExportedMeansApproved | src/agents/services/solution_service.py:102-139 | Every export row points at an approved revision that can be composed |
| Governance.ComposeNeverRefuses | src/agents/services/solution_service.py:30-55 | `compose` never refuses an export the services let through, even of a session purged meanwhile |
| Governance.ExportIsReached | src/agents/services/solution_service.py:102-139 | A session whose draft validates does reach an export: the statements above are not empty |
| Governance.ApprovedDraftsAreSound | src/agents/services/validation_service.py:117-175 | With the rules of the validation service: every approved draft is complete, supported, acyclic and in scope |
| Governance.RevisedDraftIsBlocked | src/agents/services/solution_service.py:76-86 | A draft with tasks that was sent back is blocked until it is planned again |
| Governance.EmptyDraftCanBeApproved | src/mcp_server/tools/configuration_sessions.py:73-107 | A draft without tasks can be validated, approved and composed |
| Knowledge.Execute | src/agents/nodes/knowledge.py:176-210 | The answers are those of all requests, in whatever order the searches complete |
| Knowledge.Collect | src/agents/nodes/knowledge.py:91-174 | For distinct tasks the collection is the same for every completion order. For all tasks and every completion order, no known identifier is lost, all that was found is listed by identifier, every piece was found or was known before, and every binding names exactly what the searches for its task found; every binding is that of one round of answers to clean requirements, and meets the contract |
| Knowledge.Gather | src/agents/nodes/knowledge.py:104-174 | The same, for scopes in order |
| Knowledge.BindScope | src/agents/nodes/knowledge.py:126-163 | The inner loop computes the binding and the registry with the evidence of every sufficient answer |
| Knowledge.BindScopes | src/agents/nodes/knowledge.py:124-166 | The loop over the tasks |
| Knowledge.EvidenceIsAccounted | src/agents/nodes/knowledge.py:127-168 | In whatever order the answers came, the returned evidence is accounted for: distinct identifiers in order, none lost, each found by a sufficient search or known and not found again |
| Knowledge.BindingNamesFound | src/agents/nodes/knowledge.py:126-163 | A binding names an identifier if and only if a sufficient search for its task found evidence with it |
| EvidenceRegistry.RegisterGrows | src/agents/nodes/knowledge.py:143-151 | The registry grows by what was found: no identifier is lost, and every piece was found now, or was there before and not found again |
| EvidenceRegistry.ListingIs | src/agents/nodes/knowledge.py:168-168 | All of the registry is listed, once each, by identifier |
| Knowledge.CompletionOrderIsIrrelevant | src/agents/nodes/knowledge.py:117-121 | Whatever the completion order, the sorted answers are the same |
| Knowledge.BindMeetsContract | src/agents/contracts.py:343-376 | A binding made from any answers is supported, partial or unsupported exactly as the contract demands |
| EvidenceMerging.MergeBindings | src/agents/nodes/knowledge.py:294-329 | Raises only for a saved binding that breaks the contract itself; every merged binding meets it, and bindings that rounds of collecting led to stay such |
| EvidenceMerging.MergeMeetsContract | src/agents/contracts.py:343-376 | Merging two bindings that meet the contract gives one that does |
| EvidenceMerging.SupportedIff | src/agents/nodes/knowledge.py:313-320 | A merged binding is supported if and only if the new round lacks nothing and every old gap contains something it asked for |
| EvidenceMerging.MergeTracksIff | src/agents/nodes/knowledge.py:302-329 | The merged binding still reports everything that is lacking if and only if no gap that is to stay contains a requirement of the round, but for gaps the round reports itself |
| EvidenceMerging.ForgetsIff | src/agents/nodes/knowledge.py:302-329 | A merge calls a task supported while something is lacking if and only if its round lacks nothing itself, leaves something lacking unasked, and every old gap contains something it asked for |
| EvidenceMerging.StaysOpenIff | src/agents/nodes/knowledge.py:302-329 | A merge leaves a task unsupported with nothing lacking if and only if its round answers everything and some old gap contains nothing it asked for |
| EvidenceMerging.SupportedMeansNothingLacking | src/agents/nodes/knowledge.py:212-329 | After any number of rounds that lose no gap of what they did not ask about, supported means that nothing is lacking, whatever the reason the searches failed for |
| EvidenceMerging.LackingIsTracked | src/agents/nodes/knowledge.py:126-163 | What `collect` binds reports every requirement without evidence: insufficient, raised or beyond the budget |
| EvidenceMerging.TargetsCoverIff | src/agents/services/validation_service.py:178-197 | Targeting reaches everything lacking if and only if every lacking requirement is named by some gap, or no requirement is |
| EvidenceMerging.TargetedForgetsIff | src/agents/nodes/knowledge.py:212-329 | A round that asks exactly for the targets of validation forgets if and only if it lacks nothing itself, some lacking requirement is named by no gap, and every gap names some requirement |
| EvidenceMerging.LacksOfRounds | src/agents/nodes/knowledge.py:212-329 | Over any rounds with clean requirements, what is lacking is a requirement the binding was queried for |
| EvidenceMerging.MergeExtendsHistory | src/agents/nodes/knowledge.py:302-329 | Merging a round into a binding with a history of rounds gives one with a longer history |
| EvidenceMerging.MergeKeepsNames | src/agents/nodes/knowledge.py:294-329 | Merged bindings name only what saved or fresh ones named |
| EvidenceMerging.OnlyRaisedIsUnnamed | src/agents/nodes/knowledge.py:176-210 | Only a requirement whose search raised can lack evidence without its own gap naming it |
| EvidenceMerging.RefreshMayForget | src/agents/nodes/knowledge.py:306-311 | Asking again for "a" makes a binding supported although "abc" has no evidence |
| EvidenceMerging.TargetedRefreshMayForget | src/agents/nodes/knowledge.py:302-329 | Targets of validation forget "alpha", whose search raised a `TimeoutError`, because the requirement "Timeout" is part of its gap |
| EvidenceMerging.RaisedStaysOpen | src/agents/nodes/knowledge.py:302-329 | A search that raised and is repeated with success leaves its gap behind |
| TargetedRetrieval.CollectTargeted | src/agents/nodes/knowledge.py:212-239 | Collects for the targeted tasks only and merges: no evidence and no saved binding is lost, nor what it named, and when the saved bindings named known evidence, so does every binding. Every binding meets the contract and stays one that rounds led to; with the targets of validation, every targeted task is bound to its old binding merged with answers to exactly its targets |
| TargetedRetrieval.TargetedAre | src/agents/nodes/knowledge.py:221-227 | Exactly the tasks with a requirement that is targeted are searched for again, asking for those requirements and nothing else |
| TargetedRetrieval.NamesAreKept | src/agents/nodes/knowledge.py:212-239 | After a round, merged bindings name only returned evidence, and no saved binding or evidence it named is gone |
| TargetedRetrieval.RoundAsks | src/agents/nodes/knowledge.py:91-163 | What `collect` binds to a task is made of answers to exactly its requirements, all of them clean |
| TargetedRetrieval.TargetedBinding | src/agents/nodes/knowledge.py:212-239 | What a round for the targets of validation binds to a targeted task: its old binding merged once, with answers to exactly `TargetOf` it |
| TargetedRetrieval.TargetingForgetsIff | src/agents/graph.py:864-887 | A round of the workflow, for any distinct tasks and any bindings that rounds led to, extends the history of every targeted task, and forgets under exactly the conditions of `TargetedForgetsIff` |
| TargetedRetrieval.WorkflowForgets | src/agents/graph.py:864-887 | The workflow forgets "alpha": its search raised a `TimeoutError`, validation targets "Timeout" only, and once that is found the task reads as supported |
| Fusion.Fuse | src/core/query_engine/fusion.py:16-49 | The nested loops compute the fused ranking: one result for every identifier, its score the sum of its reciprocal ranks, ranked by (-score, id) and cut |
| Fusion.FusedRanksEveryIdOnce | src/core/query_engine/fusion.py:29-49 | Every identifier once, with a positive score, best first |
| Fusion.FusedUnique | src/core/query_engine/fusion.py:48-48 | The ranking does not depend on the order of the dictionary |
| Fusion.FusionKeepsDominance | src/core/query_engine/fusion.py:29-34 | A result that no ranking places below another is not fused to a lower score |
| FusedResults.FusedCarries | src/core/query_engine/fusion.py:29-47 | A fused result carries the text and the metadata of the first hit with its identifier, dense before sparse |
| FusedResults.FusedHolds | src/core/query_engine/fusion.py:29-47 | No identifier of either ranking is missing |
| FusedResults.FusedScoreIs | src/core/query_engine/fusion.py:29-31 | Its score is the sum of what its rank in either ranking adds |
| FusedResults.FirstIsFirstHit | src/core/query_engine/fusion.py:29-32 | What is kept of an identifier is the first hit that carries it |
| HybridSearch.BoostMetadataMatches | src/core/query_engine/hybrid_search.py:227-263 | Every result with its bonus, ranked again; unchanged without query terms |
| HybridSearch.BoostedKeepsRest | src/core/query_engine/hybrid_search.py:239-262 | A bonus is added to the score and recorded; everything else stays |
| HybridSearch.BonusGrows | src/core/query_engine/hybrid_search.py:241-250 | More matching query terms never give less, no match gives nothing, at most 0.032 in all; a title that the query names as a whole gets more than 0.008 |
| HybridSearch.PluralIsTheSame | src/core/query_engine/hybrid_search.py:265-270 | A long word counts like its plural, in any case; a short one is left alone |
| HybridSearch.FilterIsChoice | src/core/query_engine/hybrid_search.py:283-292 | Filtering keeps exactly the positions that match every filter, in their order and each once |
| HybridSearch.CandidatesDescend | src/core/query_engine/hybrid_search.py:119-121 | Fusion, boost and filter leave candidates in descending order of non-negative scores |
| HybridSearch.CandidatesAre | src/core/query_engine/hybrid_search.py:119-121 | Every candidate has the text and metadata of a genuine hit and agrees with every filter; no identifier whose first hit agrees is missing |
| HybridSearch.CandidatesApart | src/core/query_engine/hybrid_search.py:119-121 | No identifier is a candidate twice |
| HybridSearch.Diversify | src/core/query_engine/hybrid_search.py:294-310 | The loop makes the greedy choice under the caps |
| Diversity.GreedyIsOptimal | src/core/query_engine/hybrid_search.py:294-310 | No other choice within `top_k` and the cap per document has a greater total score |
| Diversity.GreedyIsFeasible | src/core/query_engine/hybrid_search.py:294-310 | The greedy choice is within both limits |
| Diversity.SameDocumentIff | src/core/query_engine/hybrid_search.py:298-302 | Two hits with a file hash count as one document if and only if the hashes are equal; without one the source paths decide, and without these the identifiers |
| Diversity.AtMostCapOfAFile | src/core/query_engine/hybrid_search.py:294-310 | Of the hits with one file hash no more than the cap are chosen |
| Diversity.ChosenIs | src/core/query_engine/hybrid_search.py:294-310 | What is chosen is chosen from the candidates, one for each place taken |
| Diversity.ChosenDistinct | src/core/query_engine/hybrid_search.py:294-310 | No identifier is chosen twice when none is a candidate twice |
| Diversity.GreedyDominates | src/core/query_engine/hybrid_search.py:294-310 | In every prefix it has taken at least as many as any choice within the limits |
| HybridSearch.Search | src/core/query_engine/hybrid_search.py:68-122 | A limit that is not positive is refused; otherwise the results are hits of the rankings that agree with every filter, with distinct identifiers, at most `top_k` and at most the cap of any file hash, and no selection from the same candidates within the limits is worth more |
| HybridSearch.SelectionIsFair | src/core/query_engine/hybrid_search.py:294-310 | The same of every selection within the limits, without the worth |
| Splitting.RecursiveSplitter.Create | src/libs/splitter/recursive_splitter.py:16-24 | The three refused settings |
| Splitting.PreferredBreak | src/libs/splitter/recursive_splitter.py:67-76 | Right after the boundary that starts last in the window, and of those that start there the most preferred one; the end of the window when there is none |
| Splitting.RecursiveSplitter.SplitPlain | src/libs/splitter/recursive_splitter.py:42-64 | Terminates; chunks are non-empty, at most `chunk_size` long, trimmed texts of spans that overlap by at most the overlap and leave out nothing but white space; the spans are a function of text and settings |
| Splitting.RecursiveSplitter.SplitLong | src/libs/splitter/recursive_splitter.py:48-64 | The same for the loop |
| Splitting.StartsInOverlap | src/libs/splitter/recursive_splitter.py:62-63 | The next range begins at the first text within the overlap |
| Splitting.SpansOverlapAtMost | src/libs/splitter/recursive_splitter.py:42-64 | Any two chunks of a range, however far apart, have at most the overlap in common |
| Splitting.RecursiveSplitter.SplitText | src/libs/splitter/recursive_splitter.py:26-40 | The same for a whole document, fenced blocks being chunks as a whole |
| Splitting.LocateOffsets | src/ingestion/chunking/document_chunker.py:67-80 | The first occurrence from the start of the search, else the first at all, else an error |
| Splitting.SplitDocument | src/ingestion/chunking/document_chunker.py:28-59 | For this splitter's chunks the first search always succeeds, at or before the true start, so the fallback and the error are unreachable; all offsets are the true ones if and only if no chunk is ambiguous, which text and settings decide before |
| Splitting.FirstSearchSucceeds | src/ingestion/chunking/document_chunker.py:75-76 | A search that starts no later than the true start finds the chunk there or before |
| Splitting.FoundText | src/ingestion/chunking/document_chunker.py:75-80 | The text at the located offsets is the chunk |
| Splitting.LocatedExactlyIff | src/ingestion/chunking/document_chunker.py:42-80 | All chunks are located where they came from if and only if the text of none also occurs between the start of its search and its own start |
| Splitting.LocatedTooEarly | src/ingestion/chunking/document_chunker.py:75-80 | "aa aa" with chunk size 2 and no overlap: the second chunk, from 3, is located at 0 |
| BM25Index.RebuildPostings | src/ingestion/storage/bm25_indexer.py:251-258 | Postings are the exact transpose of the documents; the average is that of all lengths |
| BM25.TotalWithout | src/ingestion/storage/bm25_indexer.py:253-258 | The total length does not depend on the order of the documents |
| BM25.ScanIsRanked | src/ingestion/storage/bm25_indexer.py:88-90 | Every answer of the scan holds a term of the query and has a positive score; at most `top_k`, sorted by (-score, id) |
| BM25.OneOccurrenceInAverageChunk | src/ingestion/storage/bm25_indexer.py:82-88 | The measure of a score: one occurrence in a chunk of average length counts the inverse document frequency |
| BM25.TermScoreGrows | src/ingestion/storage/bm25_indexer.py:82-88 | More occurrences in a chunk that is not longer never count less |
| BM25.ScoreKeepsDominance | src/ingestion/storage/bm25_indexer.py:72-88 | A chunk that is not longer and holds every term of the query at least as often scores at least as much |
| BM25Index.ScoreTerms | src/ingestion/storage/bm25_indexer.py:72-87 | The loops over terms and postings give every matching chunk its brute-force score, and no other chunk one |
| BM25Index.AddTerm | src/ingestion/storage/bm25_indexer.py:82-87 | One term adds its score to exactly the chunks that hold it |
| BM25Index.RankScores | src/ingestion/storage/bm25_indexer.py:88-88 | The score table, in whatever order, sorted |
| BM25Index.BM25Indexer.Query | src/ingestion/storage/bm25_indexer.py:65-90 | The answer is the brute-force scan; it is of the latest file if and only if the last change of this instance was saved, or the file was replaced since, or the change would change nothing |
| BM25Index.BM25Indexer.Build | src/ingestion/storage/bm25_indexer.py:44-52 | The file and the memory of the instance after every outcome: on success the file holds exactly the given corpus, on a failed save only memory does; a read-only instance refuses, and otherwise it fails only when a call failed |
| BM25Index.BM25Indexer.Upsert | src/ingestion/storage/bm25_indexer.py:54-63 | The same: the encodings are written over what the file held just before, whatever this instance last saw, and stay in memory when saving fails |
| BM25Index.BM25Indexer.RemoveDocument | src/ingestion/storage/bm25_indexer.py:126-158 | The same: exactly the named or matching chunks go, and the count says how many |
| BM25Index.UpsertedHolds | src/ingestion/storage/bm25_indexer.py:54-63 | An upserted chunk is indexed as its last encoding says, whether it was there or not |
| BM25Index.BuiltHolds | src/ingestion/storage/bm25_indexer.py:44-52 | A built index holds nothing but its encodings |
| BM25Index.RemovalKeeps | src/ingestion/storage/bm25_indexer.py:126-173 | A chunk stays, as it is, if and only if it is not named and its metadata differ from the filters somewhere |
| BM25Index.BM25Indexer.RefreshIfChanged | src/ingestion/storage/bm25_indexer.py:175-178 | Memory agrees with the file after it under the same condition, which is stated before the call |
| BM25Index.BM25Indexer.LoadLatest | src/ingestion/storage/bm25_indexer.py:180-206 | Memory is the file, with postings rebuilt, or unchanged when reading failed |
| BM25Index.BM25Indexer.Save | src/ingestion/storage/bm25_indexer.py:208-231 | The file is replaced as a whole or not at all |
| BM25Index.FailedBuildIsLost | src/ingestion/storage/bm25_indexer.py:44-52 | A first build that fails in saving: a refresh keeps the corpus that is not in the file |
| BM25Index.FailedBuildIsAnswered | src/ingestion/storage/bm25_indexer.py:44-90 | After a first build that failed in saving, the same instance answers from the corpus that is not in the file |
| BM25Index.InstancesStayCoherent | src/ingestion/storage/bm25_indexer.py:44-206 | In every such run every instance holds, while the file has the signature it read, what is in the file, or what its own unsaved change would make of it |
| BM25Index.AnswersFromFileIff | src/ingestion/storage/bm25_indexer.py:65-71 | At any point of any run, an instance that is asked answers from the file if and only if its last change was saved, or the file was replaced since, or the change would change nothing |
| BM25Index.FileIsAfterAll | src/ingestion/storage/bm25_indexer.py:44-158 | The file always holds what the successful changes make of it, in order, whatever the instances had in memory |
| BM25Index.NoUpdateIsLost | src/ingestion/storage/bm25_indexer.py:54-63 | In every run of instances that write, fail and refresh, what one of them put into the file stays as it is until a successful change names it |
| LockedIndex.LockedRunIsAtomic | src/ingestion/storage/bm25_indexer.py:44-158 | Reading and replacing the file under the lifecycle lock is one step for all other instances: however locks, reads, saves, failures and crashes interleave, file and memories are those of a run of whole writes |
| LockedIndex.LockedFileIsAfterAll | src/ingestion/storage/lifecycle_lock.py:49-107 | So in every such run the file holds what the successful writes make of it, in order |
| ConversationMemory.PrepareMemory | src/agents/conversation_memory.py:24-106 | Success splits the pending turns into at most four contiguous batches, each the longest that fits, summarized in order, and a recent part that ends with the latest turn, fits the context and is the longest that leaves room for a summary; an error is raised only for its reason; both loops terminate |
| ConversationMemory.PreparePending | src/agents/conversation_memory.py:48-106 | The same once there are pending turns and the latest fits |
| ConversationMemory.KeptTurns | src/agents/conversation_memory.py:48-57 | The most turns within the limit that leave room for a summary, and at least one |
| ConversationMemory.NextBatch | src/agents/conversation_memory.py:64-70 | The longest beginning of the older turns that fits the window |
| ConversationMemory.KeptAreMost | src/agents/conversation_memory.py:48-57 | No longer recent part within the limit would leave room for a summary |
| ConversationMemory.SummaryIsReply | src/agents/conversation_memory.py:72-95 | The summary is the last reply of the model, stripped, to the summary before it and the last batch; not blank and within its limit |
| ConversationMemory.SummarizeOlder | src/agents/conversation_memory.py:59-97 | Every older turn is in exactly one batch, each the longest that fits; it stops only for the reason it gives |
| ConversationMemory.CursorSplitsPending | src/agents/conversation_memory.py:95-105 | Exactly the recent turns are above the new cursor |
| ConversationMemory.NothingIsDropped | src/agents/conversation_memory.py:24-106 | Over a whole conversation every turn was summarized exactly once, in order, or is still kept word for word |
| LifecycleLock.StepKeepsInvariant | src/ingestion/storage/lifecycle_lock.py:49-107 | Every step of every process keeps: at most one owner, and the path is its file with its token |
| LifecycleLock.MutualExclusion | src/ingestion/storage/lifecycle_lock.py:49-83 | However processes interleave, fail and crash, at most one lock is held |
| LifecycleLock.RemovesOnlyItsOwn | src/ingestion/storage/lifecycle_lock.py:94-107 | Whatever a lock unlinks is the file it created |
| LifecycleLock.ReleaseFindsItself | src/ingestion/storage/lifecycle_lock.py:94-107 | A release always finds its own token in the file, and goes on to unlink it |
| LifecycleLock.ReleaseLetsNextIn | src/ingestion/storage/lifecycle_lock.py:49-107 | A release that nothing disturbs lets a waiting lock in, which before could not create its file |
| LifecycleLock.CrashedLockIsNeverTaken | src/ingestion/storage/lifecycle_lock.py:121-133 | After the process of an owner dies, its file stays and nobody else ever gets the lock |
| ImageStorage.ImageStorage.SaveTransaction | src/ingestion/storage/image_storage.py:75-93 | The file, then the row: mapped paths exist at every step; a failure keeps rows and queue, and may leave the file |
| ImageStorage.ImageStorage.SaveBytes | src/ingestion/storage/image_storage.py:51-100 | Mapped paths exist; an unreferenced file is left unqueued if and only if it was new and not queued before, the transaction failed after writing it, and queueing it failed too |
| ImageStorage.FileLeftBehind | src/ingestion/storage/image_storage.py:51-100 | The first image of a fresh storage, when its transaction and its queueing both fail |
| ImageStorage.ImageStorage.RecoverFile | src/ingestion/storage/image_storage.py:406-424 | The file of a rolled-back save is queued and purged, or nothing changes |
| ImageStorage.ImageStorage.QueueIfUnreferenced | src/ingestion/storage/image_storage.py:406-424 | Queues the file unless something refers to it |
| ImageStorage.ImageStorage.RemoveTransaction | src/ingestion/storage/image_storage.py:226-239 | Exactly the rows of the document are gone, and paths nothing refers to any more are queued |
| ImageStorage.ImageStorage.RemoveDocument | src/ingestion/storage/image_storage.py:213-242 | Nothing else is unmapped, and only unreferenced managed files are deleted |
| ImageStorage.ImageStorage.PurgeOne | src/ingestion/storage/image_storage.py:445-462 | A file is unlinked only while nothing can refer to it |
| ImageStorage.ImageStorage.PurgeDeleteQueue | src/ingestion/storage/image_storage.py:426-466 | Whatever is deleted was queued, managed and unreferenced |
| ImageStorage.ImageStorage.SavedStaysTidy | src/ingestion/storage/image_storage.py:360-404 | The upsert queues the one file that may have lost its last reference |

## Left out

- Chroma, SQLite, LangGraph, scikit-learn and joblib internals: a collection is a map, a database transaction is one atomic step, a checkpoint is the state of the last step, a model is a value. The step limit LangGraph puts on a run, which would end the refused retry loop with an exception, is not part of this model.
- Failing after taking effect: an external call of the ingestion run fails before it takes effect, except the history commit, whose checkpoint may fail afterwards. Removing the swap journal is assumed not to fail.
- IngestionRun.IngestionPipeline.RunLocked: traces and progress callbacks are left out; a trace that raises after the index was committed would restore the history row while every store is new.
- ChromaSwap.ChromaStore.ReplaceAllAtomically: a handle that does not point at the canonical collection is excluded; the method does not check it, and its only caller refreshes the handle first.
- IndexStores.CoordinatedStores.PrepareFit: fitting is a call that may fail, which it does for texts too few or too alike to fit a model to. A preparation that raised after it saved the model in memory leaves later preparations refused, as in the code; the model says what then happens, not how to recover.
- IngestionRun.IngestionPipeline.CleanUp: the rewritten document and the new failure ledger are inputs, and so is whether a document has optional assets at all; what the image storage unmaps meanwhile is a call that may fail, and `ImageStorage` a model of its own.
- IngestionRun.IngestionPipeline.Process: what processing removes, writes, and whether it returns are inputs, arbitrary within the artifacts of the document; parsing, refinement and enrichment are not part of this model.
- ChromaSwap.ChromaStore.RefreshActiveGeneration: racing constructors, the age and owner checks of an abandoned journal, and the pruning of backup generations are left out.
- DependencyGraph.KahnLexicographicallyLeast: cycles deeper than the recursion limit of Python, which end the depth-first search with an exception, are not modelled.
- TaskPlanning.BuildTaskPlan: case folding is that of ASCII letters; which of several errors a permutation of the drafts raises first may differ.
- Validation.Validate: summaries, labels, identifiers and fingerprints of conflicts and findings are left out, and both are sets because the code sorts them by hash; whether a step looks like a command is a parameter.
- Supervisor: prompts, replies, language detection, intent and guard heuristics; what a model call returns is arbitrary, and accounted for. Reducers that merge confirmed context and assumptions are part of the arbitrary new context.
- SessionRepositories.SessionRepository.UpdateRevision: timestamps, actors, titles, feedback and decisions are left out; the policy of a workspace is a predicate on drafts; identifiers are taken as already stripped.
- SessionRepositories.SessionRepository.PurgeDeletedSessions: the two databases of the transaction change together; a crash between their commits is left out, as is the table of an older feedback feature.
- Governance.ApprovedMeansReviewed: identifiers of sessions are never given out twice, as random ones are not.
- SolutionServices.SolutionService.Export: the text of an exported file is left out; what is kept of it is the revision it was written from.
- Knowledge.Collect: for tasks that share an identifier only what every binding meets is proved, since their answers can be ordered either way; the text of queries and filters is a parameter, as is the answer of every search.
- HybridSearch.Search: query processing, the two retrievers, the tokens of a title, traces and the evidence verdict are parameters or left out; scores are exact reals.
- Splitting.RecursiveSplitter.SplitText: fenced blocks are given as an ordered list of disjoint ranges instead of by the regular expression. Metadata, image references, pages and chunk identifiers are not part of this model.
- BM25Index.BM25Indexer.Query: tokenizing is left out, `k1` is not negative and `b` is between 0 and 1, frequencies are positive as an encoder counts them, the inverse document frequency is any function that is positive when it should be, and no two versions of the file share a signature. The public `save`, which nothing calls and which writes memory without reading the file first, is left out, as is a constructor that fails to read.
- ConversationMemory.PrepareMemory: the length of a serialized context is any function of summary and turns; resolving follow-up questions is left out.
- LifecycleLock.MutualExclusion: process identifiers are not reused, polling and timeouts are a choice to give up, and nobody but the lock touches its file.
- ImageStorage.ImageStorage.RemoveDocument: rows that another process adds between reading and deleting are left out where tidiness is claimed; that mapped paths exist does not depend on it. Nobody but the storage deletes managed files. What fails during `save_bytes` is an input. Hashing and file names are a parameter.
- Evaluation, dashboard, MCP transport and schemas, settings, PDF loading, citations and catalog views: they would only add easy members.
