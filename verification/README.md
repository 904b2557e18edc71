# Managed knowledge, retrieval, event streams and routing: a verified model

This project models the parts of the agent service whose correctness rests on protocol rather than on I/O, and proves
what they keep. It is organised as the service is.

- `knowledge/` is the lifecycle of managed knowledge: library, documents, versions, revisions, operations, tasks, index
  generations and stored chunks. Every transaction of the five repositories, and the one-shot catalog import, is one
  atomic step on the tables (`Steps.dfy`). `Invariant.dfy` is the invariant of every reachable state, `Monotone.dfy` what
  no step takes back; one file per group of steps proves both. `Runs.dfy` composes the steps into runs in which upload
  plans, index claims, prepared finalizations and rejections that are owed come back at any later time, or never.
  `Outcomes.dfy`, `Fence.dfy`, `Ledger.dfy`, `Chains.dfy`, `Replays.dfy`, `Bodies.dfy`, `Pointers.dfy`, `Draining.dfy`,
  `Unfinished.dfy` and `Succeeding.dfy` state the theorems about all runs, `Indexing.dfy` which texts can be indexed.
  `Guards.dfy`, `Working.dfy`, `Claiming.dfy`, `Committing.dfy` and `Catalog.dfy` say for each transaction when exactly it
  takes effect and which rows it then leaves, in terms of the rows before it; `Answers.dfy` gives the receipts, and
  `Lifecycle.dfy` a run from an upload to its published text.
  `Repository.dfy` is the repositories as a class whose methods assign rows in place; each method is proved equal to its
  step.
- `chunking/` is the deterministic chunker: text primitives, the Markdown scanner with its fence state and heading stack,
  the splitter and packer, and the numbered chunk identities. The evidence of a published version in `knowledge/` is
  this chunking of its text. `Lexing.dfy`, `Loading.dfy` and `Packing.dfy` say which lines are headings and fences, how a
  body is loaded, and where a text is cut, in terms of the characters alone.
- `retrieval/` is the fusion of two ranked channels into runs of adjacent chunks, and the selection of keyword terms.
  `Answer.dfy` describes the fused answer by the hits of the two channels, `Tokens.dfy` the terms by the characters.
- `stream/` is the browser's event-stream client: framing of text cut anywhere by the network, the fields of a block, the
  gate on event numbers and the reconnect loop, joined with the writer on the service side. `Meaning.dfy` says what the
  lines of a block mean, `Reconnecting.dfy` how connections follow each other.
- `routing/` is the priority merge of entity candidates and the clarification dialogue. `Sources.dfy` says which source
  decides a field, `Asking.dfy` what is asked and which answers are taken.

Values that the service compares by digest are compared as the digested values themselves, so a digest is injective by
construction. Identities are chosen by the caller; a clash with an existing primary key is refused as a conflict. Scores
are real numbers. Clocks enter only as the day on which validity is checked and as the creation order of generations.

Four places where the code differs from what one might expect are kept as they are. A closing code fence may be followed
by text. Events that follow a terminal event in the same network chunk are still delivered. The read-back of a finished
publication refuses a version that was imported as HISTORICAL, because the receipt has no such state; for all other
versions it succeeds (`FinalizationReplays` gives both directions, `ImportedHistoricalNeverReadsBack` the versions it
hits, `HistoricalDoesNotReadBack` a run). A section path of a stored chunk takes titles of one to 128 characters, but a
document title may have 256 and a Markdown heading any length or none; parsing, preview and confirmation do not look at
this, so such a revision is accepted for publication and every build of it ends as INDEX_VALIDATION_FAILED
(`IndexableTexts` is the exact condition, `ParsedButNeverIndexed` a text that shows it).

## Model

| member | source | states |
|---|---|---|
| KnowledgeRuns.StepIsSafe | agent-service/app/repositories/managed_knowledge.py:97-839 | Every transaction keeps the whole invariant and takes nothing back, even when its plan, claim or prepared value was read long before and other steps came between |
| KnowledgeRuns.ReachableIsSafe | agent-service/app/repositories/knowledge_publication_finalize.py:59-372 | Every state that any interleaving of any number of steps can reach satisfies the invariant; rejections are owed only to operations whose index work is over |
| KnowledgeRuns.LaterIsMonotone | agent-service/app/repositories/managed_knowledge.py:797-839 | Between any reachable state and any later one rows stay, identities stay, counters do not fall and finished rows are frozen |
| KnowledgeRuns.FailedPreparationIsOver | agent-service/app/repositories/knowledge_publication_finalize.py:164-213 | Preparing can fail as stale or invalid only when the operation has ended or its generation is READY, so a rejection never meets unfinished index work |
| KnowledgeRuns.WorkStaysOver | agent-service/app/services/knowledge_publication_finalize.py:69-104 | A rejection carried out in a later transaction still finds the index work over |
| KnowledgeOutcomes.CurrentIsPublished | agent-service/app/repositories/knowledge_publication_finalize.py:309-358 | In every reachable state the pointer of a document names a version exactly when it is the document's one PUBLISHED version, and is null exactly when there is none |
| KnowledgeOutcomes.CommitReplacesCurrent | agent-service/app/repositories/knowledge_publication_finalize.py:324-341 | When a finalization is prepared, the published versions of the document are exactly the confirmed previous one: the check of them inside the commit never fails |
| KnowledgeOutcomes.BuildingHasOneTask | agent-service/app/repositories/knowledge_index_build.py:204-224 | A generation is BUILDING exactly when one task on it is QUEUED under a CONFIRMED operation or RUNNING under an EXECUTING one, and never two are |
| KnowledgeOutcomes.OneOperationInFlight | agent-service/app/repositories/managed_knowledge.py:609-620 | A document has at most one CONFIRMED or EXECUTING publication or retry, and it is on the current revision of a draft |
| KnowledgeOutcomes.OneTaskInFlight | agent-service/app/models/managed_knowledge_processing.py:232-239 | At most one task per version, revision and type is unfinished; the partial unique index is never what prevents a second |
| KnowledgeOutcomes.ReadyForever | agent-service/app/repositories/knowledge_index_build.py:246-326 | Every READY generation built by the index path, published or not, stores exactly the chunking of its revision's body, and generation, body and chunks are the same in every later state |
| KnowledgeOutcomes.EvidenceForever | agent-service/app/repositories/knowledge_index_build.py:246-326 | A version published by finalization is backed, in every later state, by the same stored chunks of the same text, which are exactly the chunking of its body |
| KnowledgeOutcomes.EvidenceIsWhole | agent-service/app/knowledge/index_build.py:85-106 | Accepted evidence loses, repeats and reorders nothing of the text, fits the chunk limit, is numbered from zero and has distinct identities, so the numbering check before saving never fails |
| KnowledgeOutcomes.EndingsAreFinal | agent-service/app/repositories/knowledge_index_build.py:163-180 | Finished tasks, operations and generations and written bodies never change again; versions move only forward |
| KnowledgeOutcomes.DisableIsBarrier | agent-service/app/repositories/knowledge_disable.py:192-260 | An operation in flight on a document when a disable commits is STALE in every continuation, however late its claim or prepared value returns |
| KnowledgeOutcomes.EndedTaskNeverCompletes | agent-service/app/repositories/knowledge_index_build.py:266-295 | In any state at all, a task whose operation is no longer EXECUTING cannot make a generation READY |
| KnowledgeFence.FenceIsSound | agent-service/app/repositories/knowledge_publication_finalize.py:201-220 | If a finalization can commit, then since any earlier state that held its operation nothing was accepted on the document, nothing finalized, and no version of it changed state |
| KnowledgeFence.SameCounterUndisturbed | agent-service/app/repositories/managed_knowledge.py:354-360 | Equal counters of a document in two states of a run mean equal sets of accepted and finalized operations and equal version states |
| KnowledgeFence.StepIsFenced | agent-service/app/repositories/managed_knowledge.py:691-695 | Every accepted operation has moved its document's counter beyond the value it was confirmed against |
| KnowledgeLedger.CounterCounts | agent-service/app/repositories/managed_knowledge.py:354-360 | The counter of a document is the number of intents accepted on it plus its finalized publications, plus one when it was imported |
| KnowledgeLedger.OneFinishedOperation | agent-service/app/repositories/knowledge_publication_finalize.py:341-356 | A version has left DRAFT exactly when one SUCCEEDED publication is on it, and is DISABLED exactly when one disable is |
| KnowledgeLedger.ReleaseCounts | agent-service/app/repositories/knowledge_disable.py:321-342 | The release counter equals finalized publications plus disables plus the import, counted in operations and, equally, in versions |
| KnowledgeChains.RetryChains | agent-service/app/repositories/knowledge_index_retry.py:78-137 | The attempt number of a task is its depth in the retry chain; chains neither branch nor cycle, share version and revision, and all but their last task have failed |
| KnowledgeChains.EveryTaskHasItsChain | agent-service/app/repositories/knowledge_index_retry.py:346-362 | From every task, following retries backwards ends at a first attempt after exactly as many tasks as its attempt number |
| KnowledgeChains.RetriedStaysFailed | agent-service/app/repositories/knowledge_index_retry.py:78-137 | A task that has been retried stays FAILED or INTERRUPTED for ever |
| KnowledgeBodies.BodiesAreParsed | agent-service/app/repositories/managed_knowledge.py:776-795 | In every reachable state a revision that has a body has a parse task that SUCCEEDED, so a build in flight is never refused as unparsed |
| KnowledgeBodies.RecordsAreValid | agent-service/app/knowledge/index_build.py:85-106 | In every reachable state the chunks of a READY generation built here are the chunking of its body and meet the record schema, so preparing a publication never finds damaged chunks |
| KnowledgePointers.PreviousIsCurrent | agent-service/app/repositories/managed_knowledge.py:651-695 | While an operation in flight is the last one accepted on its document, the current version of the document is the previous version it was confirmed against |
| KnowledgeDraining.RecoveryEndsIff | agent-service/app/repositories/managed_knowledge.py:797-839 | Recovery ends an operation in flight exactly when another owner holds an unfinished index task of it; a publication that reuses a READY generation is never ended by it |
| KnowledgeDraining.EvidenceCheckDecides | agent-service/app/services/knowledge_publication_finalize.py:79-86 | In every reachable state the evidence check between preparing and committing accepts a prepared publication exactly when its index is the configured one |
| KnowledgeDraining.FinalizationEnds | agent-service/app/services/knowledge_publication_finalize.py:69-104 | An operation in flight without unfinished task is a publication, and one finalization ends it: rejected as stale exactly when it is no longer due, for its evidence exactly when it is due but the configured index has changed, and otherwise committed |
| KnowledgeDraining.WorkCanEnd | agent-service/app/repositories/knowledge_publication_finalize.py:164-213 | From every reachable state each CONFIRMED or EXECUTING operation can be brought to an end, and what has no unfinished task, is due and has counter room can end SUCCEEDED |
| KnowledgeSucceeding.PublishesIff | agent-service/app/repositories/knowledge_publication_finalize.py:299-358 | From every reachable state some continuation publishes an operation in flight exactly when nothing was accepted on its document since, both counters have room, its validity period is not empty and its text can be indexed |
| KnowledgeUnfinished.StepLeavesOpen | agent-service/app/repositories/knowledge_publication_finalize.py:341-356 | No step but a commit of a prepared publication with counter room makes a publication SUCCEEDED |
| KnowledgeLifecycle.UploadIsPublished | agent-service/app/repositories/managed_knowledge.py:219-795 | From every reachable state an accepted upload of a text that can be indexed, with a validity period, counter room and no other version of its document in flight, is claimed, parsed, confirmed, built for any index and committed in some run: the version is PUBLISHED and current, holds the text, and its READY evidence is the chunking of this text |
| KnowledgeLifecycle.TextsArePublished | agent-service/app/repositories/knowledge_publication_finalize.py:299-358 | From the empty library every text that can be indexed is published by some run as the first version of a new document |
| KnowledgeLifecycle.PlainTextsArePublished | agent-service/app/repositories/managed_knowledge.py:757-795 | Every visible plain text without byte order mark and carriage returns, under a title of one to 128 characters, is published by some run |
| KnowledgeLifecycle.OneTextIsPublished | agent-service/app/repositories/managed_knowledge.py:219-364 | A concrete upload that a run brings to the current version of its document |
| KnowledgeGuards.PlanIsMade | agent-service/app/repositories/managed_knowledge.py:170-217 | A plan is made exactly for a document and draft that are as the user saw them; with room and free identities it is accepted in the same state, and it names the current version |
| KnowledgeGuards.UploadAccepted | agent-service/app/repositories/managed_knowledge.py:219-364 | An upload takes effect exactly when its key is new, its target is as seen with room, and its identities are free; it adds exactly the unparsed revision, a finished operation and a queued parse, ends all unfinished work on the same version, and changes nothing else |
| KnowledgeGuards.PublicationAccepted | agent-service/app/repositories/managed_knowledge.py:543-695 | A publication takes effect exactly when the target is the visible, parsed, valid current revision of a draft that the user confirmed as shown, the document is idle and has room; it reserves the next counter value and reuses the earliest READY generation of the same input or queues one build, with every row given |
| KnowledgeGuards.RetryAccepted | agent-service/app/repositories/knowledge_index_retry.py:49-364 | A retry takes effect exactly for a failed, unretried build of the still publishable revision and the configured index, confirmed as shown; it queues one more attempt on a generation of its own, with every row given |
| KnowledgeGuards.DisableAccepted | agent-service/app/repositories/knowledge_disable.py:86-346 | A disable takes effect exactly on the confirmed current version with counter room; it leaves no current version and ends exactly the work in flight on the document |
| KnowledgeWorking.ParseIsClaimed | agent-service/app/repositories/managed_knowledge.py:736-755 | A parse is handed out exactly when it is queued for this owner and its revision is the unwritten current one of a draft; otherwise a queued task of this owner becomes stale |
| KnowledgeWorking.ParseIsStored | agent-service/app/repositories/managed_knowledge.py:757-795 | A parse result is stored exactly when its task is running for this owner, its revision is the unwritten current one of a draft, no error is reported and the body is visible, has neither byte order mark nor carriage return and equals its hash; then this body is the revision's, the task has SUCCEEDED and no other row changes. All other outcomes are given too |
| KnowledgeWorking.BuildIsFailed | agent-service/app/repositories/knowledge_index_build.py:163-244 | A build fails exactly while it runs for this owner, and task, operation and generation then end together in the states of its error |
| KnowledgeWorking.RecoveryInterrupts | agent-service/app/repositories/managed_knowledge.py:797-839 | Recovery interrupts exactly the unfinished tasks of other owners, with the operations and generations they work on |
| KnowledgeWorking.RejectionEnds | agent-service/app/repositories/knowledge_publication_finalize.py:360-372 | A rejection ends an unfinished publication of its actor and scope as STALE or FAILED, and changes nothing else |
| KnowledgeClaiming.BuildIsClaimed | agent-service/app/repositories/knowledge_index_build.py:84-224 | In every reachable state a queued build of this owner is handed out exactly in the scope of its text, while due and for the index it was reserved for, with the rows as they are; otherwise it ends as invalid when only the index differs and as stale in every other case |
| KnowledgeClaiming.BuildIsSaved | agent-service/app/repositories/knowledge_index_build.py:246-326 | In every reachable state records are saved exactly when they are evidence of the claimed text, nothing that the claim read has changed, and the build is still due in its scope and for its index; the generation is then READY with these records, a retry is over, and all other outcomes are given |
| KnowledgeCommitting.PublicationIsCommitted | agent-service/app/repositories/knowledge_publication_finalize.py:299-358 | In every reachable state a commit changes the tables exactly for a publication in flight whose build is done, which is still due, has room and carries the checked evidence; it publishes the version, supersedes exactly the one that was current, and moves pointer and counters |
| KnowledgeCatalog.CatalogIsImported | agent-service/app/repositories/catalog_import.py:177-347 | A catalog is imported exactly once, on the release the caller saw, with free identities; every version then has all its rows, each document points at its active version, and everything that was there stays |
| KnowledgeAnswers.UploadAnswers | agent-service/app/repositories/managed_knowledge.py:122-159 | An upload is answered with a new receipt exactly under its guards, and the receipt names its queued parse on the current revision |
| KnowledgeAnswers.PublicationAnswers | agent-service/app/repositories/managed_knowledge.py:472-541 | A publication is answered with a new receipt exactly under its guards, naming the reused READY generation without task or its own queued build |
| KnowledgeAnswers.RetryAnswers | agent-service/app/repositories/knowledge_index_retry.py:176-245 | A retry is answered with a new receipt exactly under its guards, with the next attempt number |
| KnowledgeAnswers.DisableAnswers | agent-service/app/repositories/knowledge_disable.py:142-190 | A disable is answered with a new receipt exactly under its guards, without a current version |
| KnowledgeAnswers.CommitAnswers | agent-service/app/repositories/knowledge_publication_finalize.py:122-162 | A commit is answered with a new receipt exactly under its guards: PUBLISHED and current |
| KnowledgeSucceeding.ReadyIsIndexable | agent-service/app/repositories/knowledge_index_build.py:246-326 | Every READY generation built here has a text that can be indexed: of any other text no build ever succeeds, in any run |
| KnowledgeIndexing.IndexableIff | agent-service/app/knowledge/index_build.py:85-106 | A text can be indexed exactly when some list of records passes the validation before saving |
| KnowledgeIndexing.IndexableTexts | agent-service/app/schemas/managed_knowledge_processing.py:197-220 | A text can be indexed exactly when it parses to itself and its titles have one to 128 characters: the document title of a plain text, every heading outside the fences of a Markdown text, and its document title when visible text stands before the first heading |
| KnowledgeIndexing.ParsedButNeverIndexed | agent-service/app/schemas/knowledge_management.py:73-80 | A two-line Markdown text with an empty heading that parses, but for which no evidence passes validation |
| KnowledgeReplays.OneOperationPerKey | agent-service/app/repositories/managed_knowledge.py:564-575 | An actor's idempotency key names at most one operation of an action in any run |
| KnowledgeReplays.UploadReplays | agent-service/app/repositories/managed_knowledge.py:219-249 | A replayed upload changes nothing and names the original operation, or reports a conflict when the request differs |
| KnowledgeReplays.PublicationReplays | agent-service/app/repositories/managed_knowledge.py:472-575 | A replayed publication changes nothing and never finds damaged data, whatever was published, disabled or retried since |
| KnowledgeReplays.RetryReplays | agent-service/app/repositories/knowledge_index_retry.py:176-245 | A replayed retry changes nothing and reports the original operation's present state |
| KnowledgeReplays.DisableReplays | agent-service/app/repositories/knowledge_disable.py:142-190 | A replayed disable changes nothing and succeeds even after another version has become current |
| KnowledgeReplays.FinalizationReplays | agent-service/app/repositories/knowledge_publication_finalize.py:122-162 | Repeating a finished finalization changes nothing; it returns the receipt exactly when the version was not imported as HISTORICAL |
| KnowledgeReplays.ImportedHistoricalNeverReadsBack | agent-service/app/repositories/knowledge_publication_finalize.py:122-162 | After the import of any catalog, in every later state, the finished publication of each inactive version is refused as damaged data |
| KnowledgeReplays.UploadIsAtomic | agent-service/app/repositories/managed_knowledge.py:219-364 | An upload either returns the receipt of its new operation or leaves every table as it was |
| KnowledgeReplays.PublicationIsAtomic | agent-service/app/repositories/managed_knowledge.py:543-695 | A publication either returns the receipt of its new operation or leaves every table as it was |
| KnowledgeReplays.RetryIsAtomic | agent-service/app/repositories/knowledge_index_retry.py:247-364 | A retry either returns the receipt of its new operation or leaves every table as it was |
| KnowledgeReplays.DisableIsAtomic | agent-service/app/repositories/knowledge_disable.py:262-346 | A disable either returns its receipt or leaves every table as it was |
| KnowledgeReplays.FinalizationIsAtomic | agent-service/app/repositories/knowledge_publication_finalize.py:299-358 | A commit either switches the version and returns its receipt or leaves every table as it was |
| KnowledgeUpload.PlansMatch | agent-service/app/repositories/managed_knowledge.py:204-217 | A plan made in any state fits its command in the way that acceptance relies on |
| KnowledgeUpload.AcceptUploadKeeps | agent-service/app/repositories/managed_knowledge.py:219-364 | Accepting an upload with any plan for its command, however old, keeps the invariant |
| KnowledgeParsing.FinishParseKeeps | agent-service/app/repositories/managed_knowledge.py:757-795 | A late, repeated or foreign parse result keeps the invariant; a body is written once |
| KnowledgeAccepting.AcceptPublicationKeeps | agent-service/app/repositories/managed_knowledge.py:543-695 | Accepting a publication, with a reused or a new generation, keeps the invariant |
| KnowledgeAccepting.AcceptRetryKeeps | agent-service/app/repositories/knowledge_index_retry.py:247-364 | Accepting a retry keeps the invariant; no task gets a second retry although no constraint says so |
| KnowledgeCompleting.FinishIndexKeeps | agent-service/app/repositories/knowledge_index_build.py:246-326 | Saving with any claim whatever keeps the invariant: only the chunking of the stored body can become READY |
| KnowledgeFinalizing.CommitKeeps | agent-service/app/repositories/knowledge_publication_finalize.py:299-358 | Committing with any fingerprint keeps the invariant and supersedes the version it replaces |
| KnowledgeFinalizing.RejectKeeps | agent-service/app/repositories/knowledge_publication_finalize.py:360-372 | Ending an operation without touching its task keeps the invariant exactly when its index work is over |
| KnowledgeWithdrawing.DisableKeeps | agent-service/app/repositories/knowledge_disable.py:262-346 | A disable keeps the invariant while ending all pending work of the document |
| KnowledgeWork.RecoverKeeps | agent-service/app/repositories/managed_knowledge.py:797-839 | Recovery after a restart ends task, operation and generation together and keeps the invariant |
| KnowledgeImporting.ImportKeeps | agent-service/app/repositories/catalog_import.py:177-347 | The one-shot import of any well-formed catalog keeps the invariant |
| KnowledgeImporting.StillAdmits | agent-service/app/repositories/catalog_import.py:177-347 | Inserting one catalog version leaves room for every later one, also on the same document |
| KnowledgeRepository.Repository.AcceptUpload | agent-service/app/repositories/managed_knowledge.py:219-364 | The method ends in exactly the state and receipt of the atomic step and keeps the invariant |
| KnowledgeRepository.Repository.ClaimParse | agent-service/app/repositories/managed_knowledge.py:736-755 | As above; only the task's state changes |
| KnowledgeRepository.Repository.FinishParse | agent-service/app/repositories/managed_knowledge.py:757-795 | As above, with the outcomes of `KnowledgeWorking.ParseIsStored`; only the task's state and the unwritten body change |
| KnowledgeRepository.Repository.RecoverInterrupted | agent-service/app/repositories/managed_knowledge.py:797-839 | The loop over the tasks and the two bulk updates end exactly the work of other owners, and the count is theirs |
| KnowledgeRepository.Repository.FindReusable | agent-service/app/repositories/managed_knowledge.py:622-645 | The scan finds the earliest READY generation of the same input, and nothing exactly when there is none |
| KnowledgeRepository.Repository.AcceptPublication | agent-service/app/repositories/managed_knowledge.py:543-695 | The method ends in exactly the state and receipt of the atomic step and keeps the invariant |
| KnowledgeRepository.Repository.AcceptRetry | agent-service/app/repositories/knowledge_index_retry.py:247-364 | The method ends in exactly the state and receipt of the atomic step and keeps the invariant |
| KnowledgeRepository.ValidateRecords | agent-service/app/knowledge/index_build.py:85-106 | The loop accepts a record list exactly when it is the chunking of the claimed body, record by record |
| KnowledgeRepository.Repository.ClaimIndex | agent-service/app/repositories/knowledge_index_build.py:189-224 | The method ends in exactly the state and claim of the atomic step and keeps the invariant |
| KnowledgeRepository.Repository.FailIndex | agent-service/app/repositories/knowledge_index_build.py:226-244 | The method ends task, operation and generation together exactly when the step does |
| KnowledgeRepository.Repository.FinishIndex | agent-service/app/repositories/knowledge_index_build.py:246-326 | The method ends in exactly the state of the atomic step and keeps the invariant |
| KnowledgeRepository.Repository.PrepareFinalization | agent-service/app/repositories/knowledge_publication_finalize.py:281-297 | The method changes nothing and returns what the re-check finds |
| KnowledgeRepository.Repository.CommitFinalization | agent-service/app/repositories/knowledge_publication_finalize.py:299-358 | Updating only the one previous version gives exactly the state of the atomic step |
| KnowledgeRepository.Repository.RejectFinalization | agent-service/app/repositories/knowledge_publication_finalize.py:360-372 | The method ends in exactly the state of the atomic step, from any valid state, and keeps the invariant exactly when the index work of the operation is over |
| KnowledgeRepository.Repository.InvalidatePending | agent-service/app/repositories/knowledge_disable.py:192-260 | The three loops end exactly the pending operations of the document, their live tasks and their BUILDING generations |
| KnowledgeRepository.Repository.Disable | agent-service/app/repositories/knowledge_disable.py:262-346 | The method ends in exactly the state and receipt of the atomic step and keeps the invariant |
| KnowledgeRepository.Repository.Import | agent-service/app/repositories/catalog_import.py:177-347 | The loop over the plan ends in exactly the state of the bulk step and keeps the invariant |
| Text.SplitLinesSqueeze | agent-service/app/knowledge/chunking.py:141-141 | Splitting at line breaks loses only white space |
| Markdown.InsideIffUnclosed | agent-service/app/knowledge/chunking.py:141-163 | The fence state before a line is open exactly when some earlier line opened a fence that no line since has closed |
| Markdown.FencedLinesStartNothing | agent-service/app/knowledge/chunking.py:144-165 | A line starts a section exactly when it reads as a heading, is no fence line and lies in no unclosed fence |
| Markdown.ChainIncreases | agent-service/app/knowledge/chunking.py:166-174 | Levels on the heading stack strictly increase and the stack is at most six deep |
| Markdown.PopIsAbove | agent-service/app/knowledge/chunking.py:169-171 | Popping the stack leaves exactly the headings that enclose the new one: the nearest earlier of smaller level, and those above it |
| Markdown.PopHeadings | agent-service/app/knowledge/chunking.py:169-171 | The popping loop leaves the longest part of the stack below the new level |
| Markdown.MarkdownSections | agent-service/app/knowledge/chunking.py:124-176 | One pass with a fence flag and a heading stack gives the sections whose paths are defined by nearest enclosing headings, headings and fences being the lines of `Lexing.HeadingIffShaped` and `Lexing.FenceIffShaped` |
| Markdown.SectionsConserve | agent-service/app/knowledge/chunking.py:124-176 | The sections together hold every visible character of the document, once and in order |
| Lexing.HeadingIffShaped | agent-service/app/knowledge/chunking.py:37-37 | A line is a heading of level n exactly when it is n hashes, one to six, a blank and at least one further character |
| Lexing.HeadingReads | agent-service/app/knowledge/chunking.py:160-168 | One to six hashes, any blanks, a title without closing run and any trailing blanks read as that level and title |
| Lexing.ClosedHeadingReads | agent-service/app/knowledge/chunking.py:160-168 | A closing run of hashes after a blank is dropped with its blanks, whatever the title before it |
| Lexing.BareHeadingReads | agent-service/app/knowledge/chunking.py:160-168 | Hashes and two or more blanks are a heading without title |
| Lexing.HeadingSplits | agent-service/app/knowledge/chunking.py:37-37 | Every heading line has one of these forms |
| Lexing.FenceIffShaped | agent-service/app/knowledge/chunking.py:38-38 | A line is a fence exactly when it is optional blanks and a run of at least three equal backticks or tildes, of exactly that length |
| Lexing.LinesAre | agent-service/app/knowledge/chunking.py:141-141 | A text is split at every line break and nowhere else, a carriage return taking the line feed after it along |
| Lexing.PathsEnclose | agent-service/app/knowledge/chunking.py:166-174 | The path of a section is the title of its heading after those of the nearest enclosing headings |
| Lexing.SectionsFollow | agent-service/app/knowledge/chunking.py:124-176 | The sections are the visible stretches between headings, stripped, on those paths, and on the title before the first heading |
| Loading.LineEndsUnify | agent-service/app/knowledge/loaders.py:30-36 | Every line end becomes one line feed, whichever of the three it was, and nothing else changes |
| Loading.OneMarkIsRemoved | agent-service/app/knowledge/loaders.py:30-36 | One byte order mark at the beginning is removed, and no second one |
| Loading.TitleReads | agent-service/app/knowledge/loaders.py:122-135 | A Markdown body is accepted under exactly the title of its first visible line, less a closing run of hashes |
| Loading.NoTitleReads | agent-service/app/knowledge/loaders.py:122-135 | A body whose first visible line does not begin with one hash and a blank is accepted under no title |
| Splitting.SplitLongParagraph | agent-service/app/knowledge/chunking.py:208-230 | The hard splitter terminates and gives the parts of its recursive definition |
| Splitting.LongPartsFit | agent-service/app/knowledge/chunking.py:208-230 | Every hard part is visible and within the limit |
| Splitting.LongPartsSqueeze | agent-service/app/knowledge/chunking.py:208-230 | The hard parts hold every visible character of the paragraph in order |
| Splitting.SplitOversizedText | agent-service/app/knowledge/chunking.py:185-205 | The greedy packing loop gives the pieces of its recursive definition |
| Splitting.SplitTextCorrect | agent-service/app/knowledge/chunking.py:185-230 | For every text and every limit of at least 32, the pieces are visible, within the limit, and hold every visible character in order |
| Splitting.PackKeepsParagraphs | agent-service/app/knowledge/chunking.py:185-205 | A paragraph that fits the limit is never cut: it stands whole inside one piece |
| Packing.ParagraphsAre | agent-service/app/knowledge/chunking.py:185-205 | Paragraphs are separated by a line feed, blanks and all line feeds that follow, by nothing else, and each is stripped |
| Packing.OneParagraphIs | agent-service/app/knowledge/chunking.py:185-205 | A text without such a separator is one paragraph, or none when it is blank |
| Packing.LongPartsCut | agent-service/app/knowledge/chunking.py:208-230 | A paragraph above the limit is cut behind the last punctuation mark in the second half of the window, or at the limit when there is none, and goes on behind the white space |
| Packing.CutExists | agent-service/app/knowledge/chunking.py:208-230 | Every long text has such a cut |
| Packing.TextIsPacked | agent-service/app/knowledge/chunking.py:185-205 | Pieces are the maximal groups of consecutive paragraphs that fit the limit together; a paragraph that is too long stands alone |
| Chunker.Split | agent-service/app/knowledge/chunking.py:72-121 | The split loop yields the numbered chunks of all sections |
| Chunker.NumberChunks | agent-service/app/knowledge/chunking.py:95-121 | The running counters per signature number each fragment by its earlier equals |
| Chunker.ChunksConserve | agent-service/app/knowledge/chunking.py:72-121 | Concatenating all chunks and removing white space gives the document without white space; every chunk is visible and within the limit |
| Chunker.IdsDistinct | agent-service/app/knowledge/chunking.py:239-265 | Two chunks of a document never share an identity |
| Chunker.IdIffCounted | agent-service/app/knowledge/chunking.py:95-121 | An identity is used exactly when its occurrence number is below the number of equal fragments |
| Chunker.IdsIgnoreOrder | agent-service/app/knowledge/chunking.py:95-121 | The set of identities depends only on how often each fragment occurs, not on the order |
| Chunker.UniqueFragmentKeepsId | agent-service/app/knowledge/chunking.py:95-121 | A fragment that occurs once keeps its identity when other fragments change |
| Hybrid.Collect | agent-service/app/knowledge/hybrid.py:55-85 | The two scans succeed exactly when no hit has a fault, report the first one otherwise, and keep for each chunk its first rank and score per channel |
| Hybrid.ConflictIsPayload | agent-service/app/knowledge/hybrid.py:88-128 | Comparing a hit with the stored candidate finds exactly the conflicts with any earlier hit of the same chunk |
| Fusion.SplitRuns | agent-service/app/knowledge/hybrid.py:149-170 | The loop with one open run gives the maximal stretches of consecutive indices |
| Fusion.RunsPartition | agent-service/app/knowledge/hybrid.py:149-170 | Runs partition the candidates; each has one document, one section and consecutive indices |
| Fusion.RunsAreMaximal | agent-service/app/knowledge/hybrid.py:149-170 | When indices are distinct within each document and section, no run continues another |
| Ranking.MergeAdjacent | agent-service/app/knowledge/hybrid.py:149-170 | Grouping, sorting and splitting in any order of the tables gives the same fragments |
| Ranking.RunScoresMost | agent-service/app/knowledge/hybrid.py:173-216 | The reciprocal-rank score of a run is at least that of each of its members |
| Ranking.KeysAreOrdered | agent-service/app/knowledge/hybrid.py:219-228 | The sort key is a strict total order |
| Ranking.FragmentOrder | agent-service/app/knowledge/hybrid.py:219-228 | Any two different fragments are ordered, so ties cannot depend on iteration order |
| Ranking.FusedIsPrefix | agent-service/app/knowledge/hybrid.py:82-85 | The answer has length min(topK, runs) and every fragment left out comes after every one returned |
| Answer.Fuse | agent-service/app/knowledge/hybrid.py:55-85 | The fusion is refused exactly for a bad topK, an incomplete hit, a score out of range or two payloads of one chunk; otherwise it returns at most topK fragments, each described by the hits of its chunks, scores never increasing, equal scores by better rank, document, place and identities, and whatever is not returned stands below all that is |
| Answer.FusableIff | agent-service/app/knowledge/hybrid.py:231-259 | Channels can be fused exactly when every hit is complete, scores are in range and hits of one chunk agree |
| Answer.RunDescribed | agent-service/app/knowledge/hybrid.py:173-216 | A fragment is a stretch of consecutive chunks of one section with their texts in order, the best rank and score that any has in each channel, and the sum of 1/(60 + rank) as its score |
| Answer.LessLeads | agent-service/app/knowledge/hybrid.py:219-228 | What is sorted first has the higher score, and among equals the better rank, the earlier document, the earlier place, the smaller identities |
| Answer.TextsCompare | agent-service/app/knowledge/hybrid.py:219-228 | Texts are compared by their first difference, and a proper prefix comes first |
| Answer.NothingBetterLeftOut | agent-service/app/knowledge/hybrid.py:82-85 | Every chunk that was found is in a returned fragment, or in one that scores no more than any returned |
| Ranking.RepeatedHitIsIgnored | agent-service/app/knowledge/hybrid.py:67-80 | A chunk repeated further down a channel changes nothing |
| KeywordQuery.PairsAreTerms | agent-service/app/knowledge/search.py:71-81 | Every pair of neighbouring Chinese characters of the query is a term |
| KeywordQuery.TermsArePairs | agent-service/app/knowledge/search.py:71-81 | A term that ends in a Chinese character is such a pair of the query |
| Tokens.TermsAre | agent-service/app/knowledge/search.py:71-81 | The terms are, in order, every pair of neighbouring Chinese characters and every whole word in lower case, and no others |
| KeywordQuery.FirstsAre | agent-service/app/knowledge/search.py:83-84 | Deduplication keeps the terms, each once, in the order of first occurrence |
| KeywordQuery.Bound | agent-service/app/knowledge/search.py:87-101 | At most 64 terms are kept, at strictly increasing places that include the first and the last, with no gap above (n - 1) / 63 rounded up; beyond 64 the i-th is at i (n - 1) / 63 rounded down |
| KeywordQuery.Preprocess | agent-service/app/knowledge/search.py:62-102 | The whole preprocessing: refused for a bad length or no terms, and otherwise a duplicate-free ordered selection that spans the query |
| Framing.FirstBoundaryIsStable | agent-frontend/src/api/runEventClient.ts:264-283 | A boundary found in a prefix of the text is the first boundary of the whole text |
| Framing.FramingIgnoresCuts | agent-frontend/src/api/runEventClient.ts:264-283 | For every way of cutting a text into pushes the blocks and the open rest are those of a single push |
| Framing.BlocksConserve | agent-frontend/src/api/runEventClient.ts:264-283 | Blocks, boundaries and open rest make up the text again |
| Framing.BlocksHaveNone | agent-frontend/src/api/runEventClient.ts:264-283 | No block and no open rest contains a boundary |
| Framing.FramableIff | agent-service/app/services/run_events.py:401-408 | A written block is read back whole exactly when it holds no boundary and does not end in a line end |
| Framing.FrameRoundTrip | agent-service/app/services/run_events.py:401-408 | Reading what was framed gives the blocks back, with nothing left open |
| Framing.Parser.Push | agent-frontend/src/api/runEventClient.ts:264-283 | One push completes exactly the blocks of buffer and chunk and keeps the rest |
| EventBlocks.EventRoundTrip | agent-frontend/src/api/runEventClient.ts:285-327 | What the writer writes for an event, the reader reads as that event |
| EventBlocks.HelloRoundTrip | agent-service/app/services/run_events.py:138-138 | The writer's first block confirms the connection and carries no event |
| BlockMeaning.LinesAre | agent-frontend/src/api/runEventClient.ts:285-300 | The lines of a block end at a line feed, with or without a carriage return before it |
| BlockMeaning.LinesMean | agent-frontend/src/api/runEventClient.ts:285-310 | The last id line and the last event line give these fields, the data lines their values in order, and a comment that begins with connected confirms; a value follows the colon and at most one blank |
| BlockMeaning.BlockIs | agent-frontend/src/api/runEventClient.ts:285-346 | A block without data brings no event; one with data brings the event it decodes to exactly when its number is safe and the id and event fields agree with it, and is a fault otherwise |
| BlockMeaning.DecimalReads | agent-frontend/src/api/runEventClient.ts:425-427 | Different numbers have different decimal forms |
| BlockMeaning.NamesDiffer | agent-frontend/src/api/runEventClient.ts:285-327 | Different kinds have different names |
| BlockMeaning.EventIsGated | agent-frontend/src/api/runEventClient.ts:203-213 | An event is delivered exactly when its number is the next one, or any above zero for a new client; an old one is ignored and a gap is a fault |
| Delivery.DeliveryIsContiguous | agent-frontend/src/api/runEventClient.ts:131-161 | Whatever is received, delivered numbers form one contiguous strictly increasing run, and at most max + 1 connections are made |
| Delivery.ReadHandlesPrefix | agent-frontend/src/api/runEventClient.ts:215-231 | Reading a response chunk by chunk handles a prefix of the blocks of the whole text, all of them unless a fault or a terminal event stops it |
| Delivery.CutsAgree | agent-frontend/src/api/runEventClient.ts:215-231 | Two ways of cutting the same response always agree on the terminal flag, and on the verdict exactly when the chunk that completes the halting block completes the first faulty block under both or under neither |
| Delivery.ReadHandlesReached | agent-frontend/src/api/runEventClient.ts:215-231 | Reading handles exactly the blocks that are complete at the end of the chunk in which it halts, a number that the cuts alone determine |
| Delivery.HaltAndFaultExist | agent-frontend/src/api/runEventClient.ts:215-231 | Every text has such a first halt and first fault, and the fault is the halt or comes after it |
| ExactlyOnce.ConnectStaysInLog | agent-frontend/src/api/runEventClient.ts:163-245 | One connection to a writer that resends its log keeps delivery inside the log; it fails only when the confirmation did not arrive |
| ExactlyOnce.DeliveredExactlyOnce | agent-frontend/src/api/runEventClient.ts:131-213 | Over any connections with arbitrary resends, cuts and breaks, what is delivered is exactly one stretch of the log, in order, beginning where the connection that brought the first event began |
| ExactlyOnce.CompletedRunDeliversAll | agent-frontend/src/api/runEventClient.ts:131-213 | A run that completes has delivered the log to its end, and the whole log when every answer to a client without events starts at its beginning |
| ExactlyOnce.ServedRunDeliversAll | agent-service/app/services/run_events.py:244-291 | Against the service's bounded history the stretch begins with the oldest event kept when the first connection with events was made, so a completed run of at most 256 events is delivered whole |
| StreamClient.RunEventStream.OnEvent | agent-frontend/src/api/runEventClient.ts:203-213 | The gate: old numbers ignored, the next delivered, a gap refused |
| StreamClient.RunEventStream.ConnectOnce | agent-frontend/src/api/runEventClient.ts:163-245 | The connection loop ends in exactly the state and verdict of its definition |
| StreamClient.RunEventStream.Run | agent-frontend/src/api/runEventClient.ts:131-161 | The reconnect loop ends after at most max + 1 connections in the result of its definition, whose connections `Reconnecting.RunIsConnections` gives |
| Reconnecting.RunIsConnections | agent-frontend/src/api/runEventClient.ts:131-161 | A run is its connections: it ends with the first that does not break off, or with connection max, and a failure after a break means that max + 1 were made |
| Reconnecting.EndingsDecide | agent-frontend/src/api/runEventClient.ts:163-245 | What broke off is retried, what the user closed is not, a fault is final, and an ended response is retried only when it was confirmed and brought no terminal event |
| Reconnecting.BreakIsRetried | agent-frontend/src/api/runEventClient.ts:146-154 | A connection that breaks off anywhere in a served log is retried, unless the end of the log had come |
| Reconnecting.UnconfirmedFails | agent-frontend/src/api/runEventClient.ts:232-245 | A response that ends before its confirmation, or a refusal for good, is an error |
| Reconnecting.WholeCompletes | agent-frontend/src/api/runEventClient.ts:163-245 | A connection that brings the rest of the log whole completes the run |
| Reconnecting.BrokenRunCompletes | agent-frontend/src/api/runEventClient.ts:131-161 | When connections before the k-th are refused for now or break off anywhere, and the k-th, k at most max, arrives whole up to the terminal event, the run is completed after at most k + 1 connections and has delivered the log to its end |
| Reconnecting.BreaksLoseNothing | agent-frontend/src/api/runEventClient.ts:131-161 | A new client then has delivered the log from the event at which its first connection with events began, and the whole log when every answer begins at the start |
| Merging.CandidatePool.Append | agent-service/app/routing/entity_merge.py:60-75 | A candidate is added once, in its accepted form, exactly when its field accepts it |
| Merging.CandidatePool.AppendAll | agent-service/app/routing/entity_merge.py:78-153 | Candidates are added in order up to the first one that is not accepted, which is reported |
| Merging.BestByValue | agent-service/app/routing/entity_merge.py:156-159 | Grouping by value keeps for each value its highest source |
| Merging.SelectHighest | agent-service/app/routing/entity_merge.py:208-219 | A value is selected exactly when no other shares the highest source |
| EntityMerge.Merge | agent-service/app/routing/entity_merge.py:162-240 | On the inputs alone: the first value that its field does not accept is reported; otherwise the user message decides a field, else the confirmed session, else the page, else the session candidates, one value selecting and several leaving it unresolved; a field nobody holds is neither, and conflicts list each value once under the first source that holds it |
| EntityMerge.CandidatesAre | agent-service/app/routing/entity_merge.py:78-153 | The candidates of a field are exactly the accepted values that its four sources hold |
| EntityMerge.MergeDecides | agent-service/app/routing/entity_merge.py:187-240 | Which source decides each field of a merge, and what its conflict lists, in terms of the values held |
| EntityMerge.ReadInOrder | agent-service/app/routing/entity_merge.py:162-186 | The sources are read in the order user message, confirmed session, page, session candidates |
| Consistency.MergeIsConsistent | agent-service/app/routing/entity_merge.py:187-240 | Resolved and unresolved fields are disjoint and cover exactly the fields with candidates; a conflict is recorded exactly when two values differ, and for every unresolved field |
| Consistency.MergeIgnoresOrder | agent-service/app/routing/entity_merge.py:187-240 | The order and repetition of candidates do not matter |
| RoutingDecisions.ReadyIffGatesPass | agent-service/app/routing/decision.py:152-222 | Composing never fails on a merge result, and a decision is ready exactly when every gate passes |
| RoutingDecisions.ComposeMeetsContract | agent-service/app/schemas/routing.py:239-280 | Every composed decision passes the validation that guards against hand-made ones |
| Asking.DecisionAsks | agent-service/app/routing/decision.py:104-222 | A decision asks about the first that holds of: unknown intent, conflict, missing parameter, confidence below 0.60, unconfirmed confidence below 0.85, the model's own question; when none holds it is ready |
| Asking.SelectionRecords | agent-service/app/routing/decision.py:265-320 | A selection leaves other conflicts alone and lists the selected value first, then every other that was there |
| Asking.AnswerTaken | agent-service/app/routing/decision.py:245-356 | An answer is taken exactly when it was asked for and accepted, and then resolves its field as said by the user |
| Asking.ConfirmationTaken | agent-service/app/routing/decision.py:360-376 | A confirmation is taken exactly when it was asked for |
| RoutingDecisions.ApplySelectionStepwise | agent-service/app/routing/decision.py:265-320 | The two loops compute the selected merge |
| RoutingDecisions.SelectionKeepsConsistent | agent-service/app/routing/decision.py:265-320 | A valid selection resolves its field and keeps the invariant of merge results |
| RoutingDecisions.TurnMakesProgress | agent-service/app/routing/decision.py:324-376 | Every accepted selection or confirmation leaves strictly less open, an answer strictly fewer answers wanted, and changes nothing about the request |
| RoutingDecisions.DialogueTerminates | agent-service/app/routing/decision.py:324-376 | No more turns are accepted than unresolved fields, missing parameters and the confirmation, and no more answers than unresolved fields and missing parameters |
| RoutingDecisions.AnswersSettleEntities | agent-service/app/routing/decision.py:324-356 | At every level of confidence some answers, at most as many as fields are unresolved and parameters missing, bring the decision past its conflicts and missing parameters |
| RoutingDecisions.StuckIffSettled | agent-service/app/routing/decision.py:152-222 | When required fields have acceptable values, a decision takes no turn exactly when it is ready or waits only for what no turn supplies: an unknown intent, low confidence or the model's own request |
| RoutingDecisions.DialogueSettles | agent-service/app/routing/decision.py:324-376 | However the user answers, a dialogue that can go no further asks about nothing, and ends ready exactly when the intent is known, its confidence is not low and the model asked for nothing |
| RoutingDecisions.SomeDialogueSettles | agent-service/app/routing/decision.py:324-376 | From every decision some dialogue of at most as many turns as are open reaches that end |
| RoutingDecisions.AnswersAreAccepted | agent-service/app/routing/decision.py:324-356 | The dialogue is never stuck: every offered option and every accepted value for a missing parameter is taken |
| RoutingDecisions.RoutingStartsDialogue | agent-service/app/routing/decision.py:226-242 | From any accepted candidates routing yields a sound decision and a bounded dialogue |

## Left out

- HTTP routes, authorization calls, model and embedding providers, file storage and the web pages: input and output only; authorization enters as a given scope.
- SQL, isolation levels, advisory locks and row locks: each transaction is one atomic step, and a raised error inside one leaves the tables as they were.
- Times: `finished_at`, `published_at` and their order are not modelled; the database clock is the day and the creation instant that a step is given.
- Search documents, token counts and vector validity beyond dimension and non-zero norm: they do not enter any identity or state.
- Original-file rows and the upload to storage between planning and accepting: the raw digest is an input.
- KnowledgeDraining.FinalizationEnds: a service whose authorization fails or whose index is not configured stops before the evidence check and leaves the operation in flight; at the largest counter value a due commit is refused without a rejection, so room is required for it.
- KnowledgeImporting.ImportKeeps: the preflight of the catalog files, its fixed counts and the completeness check of a replayed import are not modelled; the derived identities of a plan are taken to differ as their derivation gives.
- KnowledgeRepository.Repository.Import: as for `ImportKeeps`, a replayed import is recognised by its keys and its request alone.
- HeadingDocumentChunker on Unicode: white space and line breaks are those of Python's str methods; no other Unicode table is used.
- KeywordQuery.Preprocess: takes the text after NFKC normalization and stripping; the logging of a bounded query is not modelled.
- Hybrid.Collect: `isinstance` checks against booleans are not modelled; scores are finite because they are real numbers.
- EventBlocks.EventRoundTrip: JSON text is a codec with a decoder that inverts its encoder; members other than the number and the type are one value.
- ExactlyOnce.DeliveredExactlyOnce: the writer keeps one log for the whole run; a service that drops an idle stream and opens it again under the same id numbers from 1, and the client then ignores the low numbers without a fault.
- StreamClient.RunEventStream.ConnectOnce: the connection timer is not modelled; its expiry is a connection that breaks.
- StreamClient.RunEventStream.Run: delays, the connection timer and the state callbacks are not modelled; a user closing the stream is an ending of a connection.
- RoutingDecisions.AnswersAreAccepted: field schemas are a function that accepts its own results again; questions and labels shown to the user are not modelled, nor is the page-order mismatch check after routing.
- Approval and run services, evaluation metrics, reports and prompts: their rules are in other files or would only add simple members.
