# Verified model of the community knowledge service

This project models the parts of the service that carry state from one request to the next, and
proves what they promise over every run. The original is written in Go with SQL; nothing of it is
executed here. `dafny verify dfyconfig.toml` checks everything.

## What is modelled

**The fair search scheduler.** Communities compete for workers, and verified readers compete inside
a community. `SchedulerState`, `SchedulerSteps` and `SchedulerEvents` say what each holder of the
lock does; `SchedulerInvariant`, `SchedulerRuns` and `SchedulerTheorems` prove what holds after
every event and over every run. `SchedulerReaders` says who is served next inside a community,
`SchedulerQueues` that each reader's requests start in the order they came, and `SchedulerAdmission` who
is let in and what a start is charged. `DebtRecord` and `SchedulerDebt` say how long a community or reader
that went idle is remembered, and `DebtLoss` is a run in which it is not. `GroupHeap` is the in-place
binary heap with back-indices, `ReadyHeaps` keeps a heap of communities and one of readers for each of them, and
`SearchScheduler` is the object itself: fields, heaps, history list and all, each method proved to
do exactly the step of the same name.

**The library and its search index.** `KnowledgeLibrary` is the upload and delete transactions,
`SearchIndex` the worker's statements over one community's index, and `IndexAgreement` the two
together, with uploads, deletions, crashes and rebuilds between any two statements. `LibraryOutcomes`
says field by field what an upload or deletion leaves.

**Deletion with an archive.** `ArchiveFormat` is what a complete archive is, `ArchiveExport` the
server's resumable cursor, `ArchiveSizes` how long its lines really are, and `ArchiveTransfer` the
owner's steps, the client's checkpointed download and a network that loses and repeats responses.

**Copies of one finding.** `CopyBases` is the cache of agreed baselines, `CopyReconciliation` the
choice among a local copy and its remotes, `CopyQueries` a whole query, and `CopyLists` the ranked
lists: collapsing, interleaving, windows. `CopyOutcomes` and `QueryOutcomes` say what is shown and
stored, from the copies and the cache's rows alone. `Ordering` sorts by a given order.

**Finding texts.** `KnowledgeProjection` sorts the lines of an upload into kept, removed and
dropped, `RemovedSections` says by the lines themselves which go where, and `ProjectionIdempotence`
exactly when doing so twice is doing it once. `FindingIdentity` and `FindingDates` read and write
frontmatter, `FrontmatterRules` says which of it is at fault, and `HashedKnowledge` which changes of
a line a fingerprint sees. `TextLines` splits and trims.

**Two smaller objects.** `LockRegistry` is the per-community reader/writer lock, `FieldRanking` the
word and pair counter behind field ranking.

## How it is modelled

A method of the source that updates fields is a method of a class here, and its contract equates the
new state with a function of the old one; the theorems are about that function. A loop of the source
is a loop here. What the surroundings decide is a parameter: whether a context is done, what the
clock reads, which upload is valid, how a date is parsed, which files survive a crash.

`Tally` in `SchedulerState` adds a measure up over all requests that ever took the lock, so that one
lemma about changing one request serves every counter. `Inv` in each module is what holds between
any two steps. `Credit` of a group is its service less what its running requests were charged;
`Standing` counts each running request as the least it can cost.

## What turned out otherwise

The code was kept as it is in each case.

- Projecting a projection is not always the projection. It is, exactly when no return is left before
  a newline and no kept line that reads like an evidence title stands right before a removed section
  that ends in a ruler (`ProjectionIdempotence.ProjectingTwice`, with an input of each kind that
  fails). The second kind needs a setext title made of dashes.
- A finished archive is always complete, but its own verifier refuses it exactly when some line is
  longer than the reader's buffer. The row limit is checked before the row is encoded again, and
  encoding writes each '<', '>' and '&' as six bytes, so 900,000 of them pass the limit and spoil
  the archive (`ArchiveSizes.ExportIsSpoiledIff`, `ArchiveSizes.EncodingCanSpoilAnExport`). An upload
  is limited after the same encoding (server/gateway.go:315), so documents that were uploaded never
  do (`ArchiveSizes.UploadedExportVerifies`); those carried over from the older format
  (server/database/knowledge.go:41-68) had no such limit.
- Going idle can reset what a community or reader owes within the minute it is meant to be kept:
  exactly when at some moment as many newer debts as the list holds were remembered, of holders that
  had not come back. As many quick requests from other communities are enough, so the debt of a slow
  one can be gone at once (`SchedulerDebt.IdleReturnKeepsDebt`, `DebtLoss.DebtCanBeLost`).
- Writing dates loses the identity exactly when the line after the opening rule is a rule itself and
  an identity was read past it (`FindingDates.WrittenDatesKeepTheId`).
- Copies that all agree are not always recorded: not where the link's row already holds another text at
  a sequence that no writing link of that community has passed (`QueryOutcomes.AgreementIsStored`, with a
  query that leaves such a row in `QueryOutcomes.BehindKeepsItsRow`).
- A step of the owner that is refused leaves no trace, so an expiry it noticed is not recorded
  (`ArchiveTransfer.DeletionWorkflow.Operation`).
- An upload whose fingerprint and path did not change leaves the stored text alone, although identity
  and dates in it may differ (`KnowledgeLibrary.PutAllIs`).

## Model

| member | source | states |
|---|---|---|
| SchedulerTheorems.InvariantOverRuns | server/search_scheduler.go:89-383 | From the empty scheduler, over every run of arrivals, wake-ups, releases and deletions: server, community and reader counters equal tallies over the real requests, placement, budgets, history bound and saturation hold at every lock release |
| SchedulerTheorems.Conservation | server/search_scheduler.go:109-208 | Requests that took the lock are completed, rejected, expired, cancelled, active or waiting, each once |
| SchedulerTheorems.EventsNeverStick | server/search_scheduler.go:120-145 | An eviction order exists for every arrival and a drop order for every deletion: no event gets stuck |
| SchedulerTheorems.NextOnward | server/search_scheduler.go:283-314 | One event: clocks only rise, and for every group and every reader that stays, service less running charges rises by at least the time its finished work took |
| SchedulerTheorems.NextOvertakes | server/search_scheduler.go:234-282 | While a community waits for its first worker, one event starts a competitor at most once, and then from a standing at most 1 ms past the waiting community's service |
| SchedulerTheorems.BoundedOvertaking | server/search_scheduler.go:70-78 | A competitor that stays present overtakes a waiting community at most (its service lead)/1 ms + 1 times, over any run |
| SchedulerReaders.TurnIsFair | server/search_scheduler.go:70-78 | A worker goes to a community, and in it to a reader, such that every other one with queued work has more running requests, or as many and more service, or both equal and a later turn |
| SchedulerReaders.TurnServesTheFront | server/search_scheduler.go:236-266 | The request at the front of that reader starts, charged both estimates, or is cancelled or expired if its context or deadline is over; no other record changes |
| SchedulerReaders.TurnGoesToTheBack | server/search_scheduler.go:267-280 | Whoever had a turn and has more work gets the latest turn of all that wait, the community and, in it, the reader |
| SchedulerReaders.NextReaderOvertakes | server/search_scheduler.go:234-282 | While a reader waits for its first worker, one event starts a competitor of its community at most once, and then from a standing at most 1 ms past its service |
| SchedulerReaders.BoundedReaderOvertaking | server/search_scheduler.go:70-78 | Inside a community a competitor that stays overtakes a waiting reader at most (its service lead)/1 ms + 1 times, over any run |
| SchedulerQueues.FirstComeFirstServed | server/search_scheduler.go:153-170 | In no run does a request start while one that waited in front of it at its reader still waits |
| SchedulerQueues.ArrivalWaitsItsTurn | server/search_scheduler.go:153-170 | Over any run an arrival does not start while a request its reader already had waiting still waits |
| SchedulerAdmission.AdmittedIff | server/search_scheduler.go:101-153 | With room nobody is evicted; without, somebody is unless all are balanced; an arrival is turned away exactly if there still is no room, then all are balanced, and nobody but it and the evicted is turned away |
| SchedulerAdmission.TurnCharges | server/search_scheduler.go:252-264 | A start charges community and reader their own estimates at once and raises each clock at most to what was paid when the turn came |
| SchedulerAdmission.EstimatesNear | server/search_scheduler.go:283-300 | Finishing moves both estimates a quarter of the way to the observed time, never past it |
| SchedulerTheorems.WorkIsPaidFor | server/search_scheduler.go:283-314 | Over any run a group that stays pays for all its observed work; both clocks only rise |
| SchedulerTheorems.ReaderWorkIsPaidFor | server/search_scheduler.go:292-298 | Over any run a reader that stays pays for all its observed work |
| SchedulerTheorems.ClampNeverActs | server/search_scheduler.go:289-298 | The clamp at zero never acts: service corrected to the observed time is at least 1 ms at both levels |
| SchedulerDebt.IdleReturnKeepsDebt | server/search_scheduler.go:316-383 | Over any run in which a community or reader leaves, does not come back and its community is not deleted: all it owed and worked for is left behind; that is remembered exactly unless at some moment since as many newer debts as the list holds were; and it would restart from the larger of it and the clock exactly if so and within the minute, else from the clock |
| SchedulerDebt.EventCarries | server/search_scheduler.go:227-232 | One event, for any community or reader: it stays and pays for its work, or leaves with all it owes recorded, or stays away and its record is untouched |
| SchedulerDebt.DebtOverRuns | server/search_scheduler.go:316-337 | The same over any run in which it does not come back |
| SchedulerDebt.RecordedFromStart | server/search_scheduler.go:318-369 | In every state a run reaches, the remembered debts are what the record of departures, returns and deletions comes to |
| SchedulerDebt.ReturnIsRestore | server/search_scheduler.go:370-383 | What an arrival restores is that restart, for a group and for a reader |
| DebtRecord.RememberedIff | server/search_scheduler.go:328-336 | A debt kept and untouched since is the one looked up, exactly unless the list was crowded by newer ones |
| DebtRecord.RememberedUpTo | server/search_scheduler.go:328-336 | After each entry of the record: those in front of a remembered debt are exactly the newer ones whose holders have not come back |
| DebtRecord.FewLeaversCrowdNobody | server/search_scheduler.go:331-336 | Fewer leavers than the list holds crowd nobody out |
| DebtRecord.GoneIsForgotten | server/search_scheduler.go:146-153 | A debt whose holder came back, or whose community was deleted, is not looked up |
| DebtLoss.DebtCanBeLost | server/search_scheduler.go:331-336 | For every budget that admits a request: a run of no time at all after which a community, and its reader, that worked as long as you like return owing nothing |
| SchedulerTheorems.OutcomesAreFinal | server/search_scheduler.go:140-208 | Over any run a closed channel stays closed, running work can only complete and an ended request never ends again |
| SchedulerTheorems.DoubleRelease | server/search_scheduler.go:200-207 | A second release changes nothing, and the first completes one request exactly if it was running |
| SchedulerTheorems.CancelledDispatchReturnsItsWorker | server/search_scheduler.go:179-207 | A request dispatched before its context ended keeps its worker over any run until its acquirer releases it, which returns that one worker, and nothing it does later returns another |
| SchedulerEvents.EvictionEnds | server/search_scheduler.go:120-145 | The eviction loop ends from every state that can be reached |
| SchedulerEvents.DonorOrNone | server/search_scheduler.go:123-139 | There is a victim exactly unless no strictly longer community and no strictly longer reader can give way |
| SchedulerEvents.EvictionSpares | server/search_scheduler.go:120-145 | Evicting leaves the group and reader being admitted as they are, and its donor at least as long as the newcomer's queue will be |
| SchedulerEvents.EvictionsSpare | server/search_scheduler.go:120-153 | The same over the whole loop: the newcomer's group and reader are never retired by it |
| SchedulerEvents.InitOk | server/search_scheduler.go:89-91 | The empty scheduler satisfies the invariant |
| SchedulerInvariant.RememberKeeps | server/search_scheduler.go:318-337 | Remembering a departure keeps one entry a key, within the bound, for nobody who is present |
| SchedulerInvariant.TidyKeeps | server/search_scheduler.go:227-232 | After a change at one reader, retiring what went idle leaves no idle group or reader in the maps |
| SchedulerInvariant.PopKeeps | server/search_scheduler.go:234-282 | One turn of dispatch keeps the invariant, whether the popped request runs, was cancelled or expired |
| SchedulerInvariant.CompleteKeeps | server/search_scheduler.go:283-314 | Finishing keeps every counter, estimate and service bound |
| GroupHeap.RootIsNext | server/search_scheduler.go:70-78 | The root of a heap in order is the one member that comes before all others |
| GroupHeap.Up | server/search_scheduler.go:70-88 | Moving a member up restores order up to `n`, keeps every back-index true and the rest of the array |
| GroupHeap.Down | server/search_scheduler.go:70-88 | Moving a member down restores order, or leaves the heap alone and says its children come after it |
| GroupHeap.Push | server/search_scheduler.go:80-80 | After a push the heap holds exactly the keyed members, in order, each knowing its slot |
| GroupHeap.Pop | server/search_scheduler.go:81-88 | Pop takes the least member, which loses its index; the rest stay in order |
| GroupHeap.Remove | server/search_scheduler.go:221-226 | Removal from any slot keeps order and back-indices |
| GroupHeap.Fix | server/search_scheduler.go:301-306 | After one key changed, order is restored |
| GroupHeap.LastInPlace | server/search_scheduler.go:79-88 | After the swap with the last slot only the refilled slot can be out of order |
| ReadyHeaps.PopHeaps | server/search_scheduler.go:236-237 | The community popped has the fewest running requests, of those the least service, of those the earliest turn, and so has its reader; both heaps stay in order |
| ReadyHeaps.RejoinHeaps | server/search_scheduler.go:267-280 | Reader and group go back exactly if they still have work |
| ReadyHeaps.ShrunkHeaps | server/search_scheduler.go:221-226 | With one waiter fewer, whoever has no work left is out of its heap |
| ReadyHeaps.FixedHeaps | server/search_scheduler.go:301-306 | After both services changed, both heaps are in order again |
| ReadyHeaps.GrownHeaps | server/search_scheduler.go:160-169 | A newcomer's reader and group are in their heaps, with a new turn if they had no work |
| SearchScheduler.SearchScheduler.Acquire | server/search_scheduler.go:93-170 | Refuses what has no identity, is abandoned or exceeds the budget without a change; otherwise evicts, and admits or refuses, exactly as the specified event, ending in the invariant |
| SearchScheduler.SearchScheduler.MakeRoom | server/search_scheduler.go:120-145 | The eviction loop takes victims one by one until there is room or no donor |
| SearchScheduler.SearchScheduler.ChooseVictim | server/search_scheduler.go:123-140 | The newest waiter of the longest community beyond the limit, else of the longest reader of this one, whatever the map order |
| SearchScheduler.SearchScheduler.WakeUp | server/search_scheduler.go:179-189 | A waiter woken by context or timer gives up its place exactly if it still has one |
| SearchScheduler.SearchScheduler.Conclude | server/search_scheduler.go:190-207 | A request that holds a worker is handed its release, or, if its context is done, gives the worker back at once |
| SearchScheduler.SearchScheduler.Remove | server/search_scheduler.go:211-233 | A queued waiter leaves queue, counters and heaps, and idle seats are retired |
| SearchScheduler.SearchScheduler.DispatchFree | server/search_scheduler.go:234-282 | Hands out free workers until none is free or nobody waits |
| SearchScheduler.SearchScheduler.Start | server/search_scheduler.go:252-264 | Charges both estimates, advances both clocks, occupies one worker |
| SearchScheduler.SearchScheduler.Finish | server/search_scheduler.go:283-314 | Returns the worker of a request that holds one, corrects both services and hands the worker on; a second call changes nothing |
| SearchScheduler.SearchScheduler.Remember | server/search_scheduler.go:318-337 | Map and list of remembered debt stay matched, newest first, within the bound |
| SearchScheduler.SearchScheduler.RestoreSeat | server/search_scheduler.go:370-383 | A returning group or reader has the larger of clock and remembered service, within the kept minute |
| SearchScheduler.SearchScheduler.DropCommunity | server/search_scheduler.go:342-363 | Cancels everything the community has queued and forgets all its debt, in whatever order the maps are scanned |
| SearchScheduler.LongestReader | server/search_scheduler.go:384-392 | A longest queue above the minimum, none exactly when there is none |
| KnowledgeLibrary.KnowledgeStore.PutKnowledge | server/knowledge.go:57-137 | Refusals, replay and storage in the source's order; either the whole batch takes effect or only a receipt is read |
| KnowledgeLibrary.KnowledgeStore.DeleteKnowledge | server/knowledge.go:139-166 | Removes what is there of 1 to 500 ids, counts it, and moves sequence and reset exactly if something went |
| KnowledgeLibrary.KnowledgeStore.CheckItems | server/knowledge.go:72-81 | The first repeated id or invalid item, whichever comes first |
| KnowledgeLibrary.StoreRows | server/knowledge.go:101-129 | The row loop stores the batch and its receipt exactly unless a running total passes a limit at some changed item |
| KnowledgeLibrary.StoreItem | server/knowledge.go:103-128 | One row's effect on totals and receipt |
| KnowledgeLibrary.RemoveRows | server/knowledge.go:157-161 | What is removed is what was asked for and present, with its bytes and count |
| KnowledgeLibrary.PutAllIs | server/knowledge.go:102-129 | After a batch each changed item is stored under the new generation; unchanged ones and all others are untouched |
| KnowledgeLibrary.PutAllChanges | server/knowledge.go:109-113 | The documents change exactly when some item's fingerprint or path does |
| KnowledgeLibrary.CountersOverRuns | server/knowledge.go:130-166 | Over all runs byte and document counters equal the sums over what is stored, no generation is ahead of the sequence, deletions never after the reset |
| KnowledgeLibrary.SequenceMovesWithDocuments | server/knowledge.go:130-134 | The sequence moves, by one, exactly when the document set changes |
| KnowledgeLibrary.RetryReturnsTheReceipt | server/knowledge.go:88-97 | After any uploads and deletions in between, a retried batch returns its first receipt and changes nothing |
| KnowledgeLibrary.KeyBelongsToItsContent | server/knowledge.go:92-95 | After any uploads and deletions in between, the same key under other content is refused and changes nothing |
| LibraryOutcomes.UploadTakesEffect | server/knowledge.go:57-137 | An accepted upload: a new path or fingerprint is stored, what is there under both stays with its text, other documents are untouched, and the receipt says so of each item |
| LibraryOutcomes.UploadIsTakenIff | server/knowledge.go:57-119 | Exactly when an upload is accepted: size, count, age, valid items with ids of their own, a new key, and no total past a limit |
| LibraryOutcomes.OfferedIsStored | server/knowledge.go:101-119 | A new path alone is a change, a new text under the same path and fingerprint is none |
| LibraryOutcomes.DeletionTakesEffect | server/knowledge.go:139-166 | Exactly the ids asked for are gone, and sequence and reset move exactly if one was there |
| SearchIndex.IndexFile.Step | server/search_index.go:62-113 | One uninterrupted step: clear if due, read a page, commit it and move the cursor |
| SearchIndex.IndexFile.ApplyRemoteRecords | retrieval/internal/search/remote_index.go:48-80 | Search row and record of every document in the batch are replaced together, and the sequence committed exactly on the last page |
| SearchIndex.ReadPage | server/search_index.go:81-99 | The first 32 documents after the cursor up to the target, in (generation, id) order, none skipped |
| SearchIndex.FirstAfter | server/search_index.go:81-81 | The next eligible document, none exactly when there is none |
| IndexAgreement.AgreementOverRuns | server/search_index.go:27-114 | With uploads, deletions, crashes and rebuilds between any two statements: every current document the cursor is past is indexed as stored, each record has exactly one row, and a damaged index admits that it must be cleared |
| IndexAgreement.AgreementFromStart | server/search_index.go:27-114 | From an empty library and index it holds in every run, and whenever the index stands at the library's sequence it mirrors it |
| IndexAgreement.CaughtUpMeansEqual | server/search_index.go:100-112 | An index at the library's sequence has a record for exactly the library's documents, each with its path, text, fingerprint and generation, under one row each |
| IndexAgreement.GuardedQueriesShowNothingDeleted | server/search.go:68-116 | Past the reset guard every hit joins its record, and no record is a version deleted before the guard read the reset |
| IndexAgreement.ShownVersionsWereLive | server/search.go:75-82 | What a guarded query can show is live: the stored version, or an older one since replaced |
| IndexAgreement.StepIsItsStatements | server/search_index.go:35-113 | The statements run one by one without interruption are the whole step |
| IndexAgreement.StepProgresses | server/search_index.go:100-113 | A step catches up or takes exactly one full page off what is left; a step without work has caught up |
| IndexAgreement.StepsCatchUp | server/search_index.go:62-113 | With nobody writing, one step more than there are full pages ends with the index holding exactly the library's documents, one row each, wherever a run had left it |
| IndexAgreement.NextKeeps | server/search_index.go:35-113 | Each event keeps the agreement |
| IndexAgreement.ApplyKeeps | server/search_index.go:100-107 | Committing a page fetched before later writes keeps the agreement |
| IndexAgreement.ClearKeeps | server/search_index.go:66-71 | So does each statement of the clear, with a crash after any of them |
| ArchiveFormat.Verify | retrieval/knowledgearchive/archive.go:50-133 | A summary comes back exactly for a manifest, entries and an end that counts them, with every line within the reader's buffer |
| ArchiveFormat.ChainDeterminesFile | retrieval/knowledgearchive/archive.go:35-41 | Equal chains mean equal files, chunk for chunk |
| ArchiveExport.ArchiveSession.BuildArchiveChunk | server/community_archive.go:123-229 | Serves the expected chunk or replays the last, refusing anything else; a new chunk moves the cursor and keeps the previous one |
| ArchiveExport.CutChunk | server/community_archive.go:139-211 | The chunk cut from a position, or none when a row or the chunk is too large |
| ArchiveExport.QueryNext | server/community_archive.go:231-239 | The next document by id after a key |
| ArchiveExport.FinishedExportIsWhole | server/community_archive.go:146-211 | A finished export is the manifest, every document once in id order and the end that counts them |
| ArchiveExport.FinishedExportIsArchive | server/community_archive.go:146-239 | A finished export names the community, name, scope and sequence that were locked, and for each id exactly one entry, with the path, text and fingerprint of that document |
| ArchiveExport.FinishedExportVerifies | retrieval/knowledgearchive/archive.go:69-131 | It is complete, and the verifier reads it exactly when manifest, end and every document's line fit the buffer |
| ArchiveExport.BuildNeverFails | server/community_archive.go:170-208 | While rows and lines fit, the limit on a whole chunk never stops an export |
| ArchiveExport.ExportEnds | server/community_archive.go:151-203 | At most two chunks more than there are documents |
| ArchiveSizes.DocumentFitsIff | retrieval/knowledgearchive/archive.go:69-70 | A document's line fits the verifier's buffer exactly if its rendering, and five bytes more for each '<', '>' and '&', does |
| ArchiveSizes.ExportIsSpoiledIff | server/community_archive.go:140-174 | A finished export is refused by its verifier exactly if its manifest or such a document is too long |
| ArchiveSizes.UploadedExportVerifies | server/knowledge.go:62-64 | An export of documents within the upload limit always comes to its end and is accepted |
| ArchiveSizes.EncodingCanSpoilAnExport | server/community_archive.go:170-174 | One document of 900,000 '<' passes the row limit, is exported in full, and the verifier refuses the archive |
| ArchiveTransfer.InStepOverRuns | server/community_archive.go:95-229 | Whatever is lost, repeated, stopped, restarted, cancelled or prepared again: the server is where the client is or one chunk ahead, and cursor, chain, count and file agree on the one export of what was locked |
| ArchiveTransfer.InStepFromStart | server/community_archive.go:95-229 | The same from an unlocked community and a client with nothing |
| ArchiveTransfer.RepeatedChunkIsTheSame | server/community_archive.go:127-138 | Two responses for one chunk under one ticket are equal |
| ArchiveTransfer.ResumingIsNeverRefused | server/community_archive.go:123-135 | An unfinished download's next request is answered with what it requires, unless a row cannot be exported |
| ArchiveTransfer.FinishedDownloadIsWhole | retrieval/community/archive.go:147-200 | A finished download holds manifest, every locked document once in id order and end, with the export's chain and count |
| ArchiveTransfer.FinishedDownloadIsArchive | retrieval/community/archive.go:147-200 | And that is what the file of a finished download says, of what was locked under its ticket |
| ArchiveTransfer.VerificationNeedsTheWholeExport | server/deletion_workflow.go:127-132 | A report is taken only for the chain and count of the whole export |
| ArchiveTransfer.FinishedDownloadVerifies | retrieval/community/archive.go:212-228 | And it is taken from the client that finished |
| ArchiveTransfer.VerifiedOnlyByReport | server/deletion_workflow.go:127-132 | Nothing else makes a session verified |
| ArchiveTransfer.ErasedOnlyVerifiedOrWaived | server/database/021_archive_deletion.sql:55-72 | Nothing is erased without a verified archive, or a lock that waived it |
| ArchiveTransfer.ErasedHadLeave | server/database/021_archive_deletion.sql:55-72 | In every run that erases, there is a moment before it when the archive was verified or had been waived |
| ArchiveTransfer.DeletionWorkflow.Operation | server/deletion_workflow.go:41-148 | Prepare, status, cancel, lock and verify, each as its step, and the library marked locked exactly past the preview |
| ArchiveTransfer.ArchiveDownload.Resume | retrieval/community/archive.go:111-141 | A file that does not begin with the checkpoint's bytes is refused, any other is cut back to them |
| ArchiveTransfer.ArchiveDownload.Take | retrieval/community/archive.go:148-186 | A response is written and the checkpoint moved exactly if size, index, chain and count check out |
| ArchiveTransfer.ArchiveDownload.Download | retrieval/community/archive.go:147-190 | Goes on until done or the first failed request or bad response, and stays resumable |
| CopyBases.CopyBaseCache.StoreCopyBases | retrieval/community/reconcile.go:68-122 | All entries take effect, or none if one is invalid; skipping what is current changes nothing but the number of writes |
| CopyBases.StoredOnlyRises | retrieval/community/reconcile.go:110-117 | Within a format a stored sequence never falls, and equal sequences keep their text |
| CopyBases.StoringTwiceIsStoringOnce | retrieval/community/reconcile.go:110-117 | Storing the same entries again stores nothing |
| CopyReconciliation.ResolveGroup | retrieval/community/reconcile.go:288-377 | Winner, other copies, variants and reason are those of the specified resolution of the copies in presentation order |
| CopyReconciliation.ChooseWinner | retrieval/community/reconcile.go:311-351 | The decision between a local text and its remotes, with its reason |
| CopyReconciliation.CopyVariant | retrieval/community/reconcile.go:383-396 | The first hit with text, else the first, at every place of the copies |
| CopyReconciliation.OrderDoesNotMatter | retrieval/community/reconcile.go:288-310 | Copies from distinct sources resolve alike in every order they are observed in |
| CopyReconciliation.RemoteReplacesLocalIff | retrieval/community/reconcile.go:311-377 | The result shows another text than the group's local copy exactly when some link proposes it, all proposing links propose the same, none contradicts, none ever had it as its baseline, and a copy of it matched |
| CopyOutcomes.AgreedGroup | retrieval/community/reconcile.go:288-351 | Copies with one text are shown as that text, without a reason, or not at all exactly if none matched |
| CopyOutcomes.GroupWithoutLocal | retrieval/community/reconcile.go:311-377 | Without a local copy, differing texts are all shown: one hit from several sources with a variant for each text, in order, or none exactly if no copy matched |
| CopyOutcomes.GroupWithLocal | retrieval/community/reconcile.go:311-377 | With a local copy, the one text that supersedes it if there is one, else its own text with the first reason that applies |
| CopyReconciliation.LocationsConserved | retrieval/community/reconcile.go:352-396 | Every copy's place is exactly once with the winner, among the other copies, or under its variant |
| CopyReconciliation.ResolutionUnique | retrieval/community/reconcile.go:288-377 | The copies determine the result |
| CopyQueries.ReconcileSources | retrieval/community/reconcile.go:163-281 | A whole query: baselines stored only where all copies agree; the results, in the candidates' order, are each identified finding's resolution from the observed copies and the baselines read at the start, other local hits, and other remote ones their source still answers |
| QueryOutcomes.RemoteChangeIsShown | retrieval/community/reconcile.go:163-281 | Over a whole query another text is shown for a finding with a local copy exactly when the rows of the cache, under service, community and id in the current format, and the answers of the links adopt it, and a link found it |
| QueryOutcomes.LinkSays | retrieval/community/reconcile.go:198-213 | A hit of a link counts before a text it compared; a link that did not answer says nothing |
| QueryOutcomes.AgreementIsStored | retrieval/community/reconcile.go:233-255 | Where the local copy and all links agree, each link that could write leaves its row at the sequence answered or later, with that text exactly unless the row held another one at a sequence not passed |
| QueryOutcomes.BehindKeepsItsRow | retrieval/community/reconcile.go:110-117 | A query in which everybody agrees and the row keeps another text |
| CopyQueries.RepeatIsStable | retrieval/community/reconcile.go:222-255 | Asked again of the same observations after the baselines were written, every finding resolves as before |
| CopyQueries.RepeatAnswers | retrieval/community/reconcile.go:222-281 | So the whole answer is as before |
| CopyQueries.DisputedKeeps | retrieval/community/reconcile.go:233-255 | A finding on which copies differ keeps every baseline it had |
| CopyQueries.BaselinesOnlyRise | retrieval/community/reconcile.go:236-255 | Over a whole query no baseline of the current format falls back |
| CopyLists.CollapseCopies | retrieval/community/identity.go:27-77 | The groups of equal copies, each shown with its places and whether its identity has two texts, up to the limit |
| CopyLists.ScanMeans | retrieval/community/identity.go:38-72 | Keeping only the last text of each identity misses nothing: it is marked exactly when two texts of it came |
| CopyLists.GroupsByFirstRank | retrieval/community/identity.go:52-58 | Groups stand in the order of their earliest copies |
| CopyLists.GroupsShowMembers | retrieval/community/identity.go:52-62 | Each group shows one of its own copies, and a local one if it has one |
| CopyLists.CollapseKeepsPlaces | retrieval/community/identity.go:48-69 | Every copy is in the result under its own key, at exactly the places of all copies with that key, each once |
| CopyLists.CollapsedTexts | retrieval/community/identity.go:33-52 | Every hit has its text among the results and no text is there twice, by identity and fingerprint, by local path, by address in one community, or as itself |
| CopyLists.TwoTextsStayTwo | retrieval/community/identity.go:33-72 | Two texts of one finding are never collapsed into one, and both are marked |
| CopyLists.CollapsingTwiceIsOnce | retrieval/community/identity.go:27-77 | Collapsing what is collapsed, without a limit, changes nothing |
| CopyLists.InterleaveSources | retrieval/community/identity.go:95-114 | Ends with a permutation of the hits, taken rank by rank |
| CopyLists.RanksNeverFall | retrieval/community/identity.go:105-112 | In the blend no hit comes before one of an earlier rank in its own source's list, and no place is given twice |
| CopyLists.RoundsTake | retrieval/community/identity.go:105-112 | The rounds so far have taken exactly the first hits of every source |
| CopyLists.CandidateWindow | retrieval/community/workflow.go:145-162 | The first hits of distinct findings, up to a positive limit |
| CopyLists.FirstOnlyDistinct | retrieval/community/workflow.go:145-162 | No finding is in the window twice |
| CopyLists.FirstOnlyFinds | retrieval/community/workflow.go:145-162 | Without a limit a finding is in it exactly when it is among the hits |
| CopyLists.WindowFindings | retrieval/community/workflow.go:145-162 | Every hit has its finding in the window, by identity or by source and place, and none twice |
| CopyLists.CandidateIdentityIDs | retrieval/community/workflow.go:134-143 | Exactly the identified findings, in the order they first come |
| KnowledgeProjection.ProjectKnowledge | retrieval/internal/knowledge/projection.go:12-125 | One pass with lookahead: what is kept and removed, joined and trimmed |
| KnowledgeProjection.HeadingForms | retrieval/internal/knowledge/projection.go:70-94 | A hashed heading is exactly a line of at most three spaces, one to six hashes and a space, of that level; an underlined one exactly a line that says something, that no hash opens, above a row of '=' or '-', of level one or two |
| RemovedSections.HashedTitle | retrieval/internal/knowledge/projection.go:74-78 | Its title is what stands behind the opening hashes without the closing ones and the blanks around either |
| RemovedSections.FenceForms | retrieval/internal/knowledge/projection.go:46-59 | A run of three or more backquotes or tildes opens a fence; only a run of that character, no shorter and alone, closes it |
| RemovedSections.RemovedIff | retrieval/internal/knowledge/projection.go:46-121 | A line is removed exactly if it lies in a section that an evidence title outside frontmatter and fences opens, up to the next title of at most its level |
| RemovedSections.SectionEndsAt | retrieval/internal/knowledge/projection.go:95-105 | A section takes every line up to exactly the next heading outside a fence, hashed or underlined, of at most its level, which is kept unless it names evidence itself |
| RemovedSections.DroppedIff | retrieval/internal/knowledge/projection.go:28-45 | Dropped are exactly the lines of the evidence field of the frontmatter |
| RemovedSections.ProjectionIs | retrieval/internal/knowledge/projection.go:119-124 | The projection is the lines no section and no evidence field takes, and the removed material those of the sections |
| RemovedSections.NamedIff | retrieval/internal/knowledge/projection.go:98-102 | A section is named exactly where one opens that no other holds, and the evidence field where it begins |
| ProjectionIdempotence.EachLineInItsPlace | retrieval/internal/knowledge/projection.go:21-121 | Line by line, what is kept and what is removed keep their order |
| ProjectionIdempotence.EveryLineOnce | retrieval/internal/knowledge/projection.go:21-121 | Kept, removed and dropped together are the lines, each once |
| ProjectionIdempotence.BodyNeverDrops | retrieval/internal/knowledge/projection.go:28-45 | Only lines of the frontmatter are dropped |
| ProjectionIdempotence.SecondRunKeepsAll | retrieval/internal/knowledge/projection.go:12-125 | A run over the kept lines keeps them all exactly when none is exposed |
| ProjectionIdempotence.ProjectingTwice | retrieval/internal/knowledge/projection.go:12-125 | A projection is its own projection exactly when no return is left before a newline and nothing is exposed |
| ProjectionIdempotence.ProjectingTwiceOrdinarily | retrieval/internal/knowledge/projection.go:12-125 | With ordinary line ends: exactly when nothing is exposed |
| ProjectionIdempotence.NoRulerTitles | retrieval/internal/knowledge/projection.go:82-94 | In particular whenever no row of '-' or '=' stands right above another |
| ProjectionIdempotence.ProjectingTwiceCanDiffer | retrieval/internal/knowledge/projection.go:82-105 | A seven-line text that projects differently the second time |
| ProjectionIdempotence.DoubledReturnSpoilsIt | retrieval/internal/knowledge/projection.go:12-15 | A return left before a newline comes from a doubled one, and then projecting again differs |
| ProjectionIdempotence.DoubledReturnCanDiffer | retrieval/internal/knowledge/projection.go:12-15 | A two-line text with a doubled return that projects differently the second time |
| FindingIdentity.FindID | retrieval/internal/knowledge/identity.go:22-51 | The one canonical top-level id, none, or which fault |
| FrontmatterRules.FindingIdIff | retrieval/internal/knowledge/identity.go:22-51 | An identity is read exactly where the frontmatter is enclosed and no id line in it is nested, repeated or not canonical; it is the value of the one id line, and otherwise the first fault is reported |
| FrontmatterRules.CutAtColon | retrieval/internal/knowledge/identity.go:35-39 | A field is split at its first colon |
| FindingIdentity.KnowledgeFingerprint | retrieval/internal/knowledge/identity.go:79-96 | The text that is hashed: all but the three server fields of the frontmatter |
| HashedKnowledge.CountedAre | retrieval/internal/knowledge/identity.go:83-94 | Hashed are, in order, exactly the lines that are not one of the three fields inside the frontmatter |
| HashedKnowledge.SameHashIff | retrieval/internal/knowledge/identity.go:79-96 | Two texts have one fingerprint exactly if those lines are one text up to the blanks at its ends |
| HashedKnowledge.ChangedLineIff | retrieval/internal/knowledge/identity.go:79-96 | Exactly when the change of a line, anywhere, goes unseen: it counts neither before nor after, it looks the same up to blanks at the ends of the text, or it only adds or drops blanks there |
| FindingIdentity.WrittenIdIsRead | retrieval/internal/knowledge/identity.go:53-75 | An identity written where there was none is the one read back |
| FindingIdentity.WrittenIdIsNotHashed | retrieval/internal/knowledge/identity.go:79-96 | Writing it does not change the hashed text |
| FindingIdentity.IdIsNeverReplaced | retrieval/internal/knowledge/identity.go:53-63 | A second, different identity is refused; the same one changes nothing |
| FindingIdentity.EditedLines | retrieval/internal/knowledge/identity.go:68-74 | Writing puts one line after the opening rule, in the text's own line style |
| FindingDates.ReadTimestamps | retrieval/internal/knowledge/timestamps.go:10-36 | Both dates, or a fault for a nested, repeated or unreadable one |
| FrontmatterRules.TimestampFieldsIff | retrieval/internal/knowledge/timestamps.go:10-36 | Dates are read exactly if no date line up to the next line that begins with a rule is nested, repeated or unreadable; each is that of its one line, or empty |
| FindingDates.WriteTimestamps | retrieval/internal/knowledge/timestamps.go:38-60 | Old dates go, new ones come after the opening rule |
| FindingDates.WrittenDatesAreRead | retrieval/internal/knowledge/timestamps.go:38-60 | For text of one newline style, canonical dates written are the dates read |
| FindingDates.WrittenDatesAreNotHashed | retrieval/internal/knowledge/timestamps.go:38-60 | And do not change the hashed text |
| FindingDates.WrittenDatesKeepTheId | retrieval/internal/knowledge/timestamps.go:38-60 | The identity stays exactly unless the second line is a rule and an identity was read past it |
| FindingDates.WrittenDatesCanLoseTheId | retrieval/internal/knowledge/timestamps.go:38-60 | A text with the rule twice and an identity loses it |
| LockRegistry.SearchStates.Enter | server/search_concurrency.go:19-29 | One more user of the community's registered state, a new one exactly if there is none |
| LockRegistry.SearchStates.Acquire | server/search_concurrency.go:71-84 | A waiter is let in exactly if the weight it asks for is left |
| LockRegistry.SearchStates.Unlock | server/search_concurrency.go:71-84 | What was held is given back; the state stays in use |
| LockRegistry.SearchStates.Leave | server/search_concurrency.go:31-38 | One user fewer, and the last takes the entry out of the registry |
| LockRegistry.WriterIsAlone | server/search_concurrency.go:71-84 | Two holders of one community's lock are both readers, although entries come and go |
| LockRegistry.EnterNewKeeps | server/search_concurrency.go:19-29 | A new entry keeps the invariant: nobody else uses its community or its semaphore |
| LockRegistry.LeaveKeeps | server/search_concurrency.go:31-38 | An entry exists exactly while its count is positive, and all its users share its semaphore |
| FieldRanking.VisitFieldWords | retrieval/internal/search/ranking.go:19-36 | The words of a field in one scan |
| FieldRanking.FieldWordsAre | retrieval/internal/search/ranking.go:19-36 | The words are exactly the longest runs of letters and digits, in order, of two characters or more, that are no stop words |
| FieldRanking.LowerAt | retrieval/internal/search/ranking.go:20-20 | Letter by letter, the field is read in lower case |
| FieldRanking.NewFieldQuery | retrieval/internal/search/ranking.go:50-66 | Distinct words of the analysed terms and distinct neighbours of the question, each with a place of its own |
| FieldRanking.PairsAre | retrieval/internal/search/ranking.go:58-65 | The pairs are exactly the neighbours |
| FieldRanking.Seen.First | retrieval/internal/search/ranking.go:84-98 | Whether a place is seen for the first time, in the 64-bit mask and in the array alike |
| FieldRanking.CountMatches | retrieval/internal/search/ranking.go:71-112 | The counts are the numbers of distinct query words, and of distinct query pairs within one field, that occur |
| FieldRanking.Match | retrieval/internal/search/ranking.go:71-120 | Coverage and pairs are those fractions and lie in [0,1] |
| FieldRanking.MaskWith | retrieval/internal/search/ranking.go:92-97 | Setting one bit of the mask sets that place and no other |

## Left out

- Integers are unbounded; the counters' 64-bit wrap-around after some 290 years of service time is not modelled.
- Groups, readers and waiters of the scheduler are values in maps keyed by their names, not shared objects; the heaps hold names.
- Stats: the scheduler's waiting and running time totals, which nothing reads back.
- Timers, goroutines and channels: a wake-up, a deadline and a cancelled context are events that may come at any time, and each clock reading inside one critical section is the surroundings' choice.
- Cancelling running work of a deleted community (server/search_concurrency.go:42-69): it ends as a release here.
- The database and search engines: a statement or transaction is atomic; a row's search entry is its text; matching, scores, snippets, triggers and row-level security are not modelled.
- That a locked community's documents cannot change is what the database triggers refuse (server/database/022_current_knowledge.sql:32-33); here it is the condition of `Edit`.
- SHA-256 is an injective function and compression is left out: a frame is its lines.
- The rule that one archive is prepared at a time (server/database/021_archive_deletion.sql:14), the archive's name and paths, file locks, renames and permissions.
- The final erase is one step; the server's clean-up after it is not modelled.
- The expiry of receipts: a retry returns its receipt while it is kept.
- The worker's rotation over communities (server/search_index.go:116-148); a rebuild request is one event that empties the index.
- How a query is analysed, which words are stop words, and how dates are parsed are parameters; a parsed date is never empty.
- Text is compared as characters of one byte would be: Unicode case, Unicode blanks, the two Unicode line separators the encoder also escapes, and encodings are left out.
- How a service address is normalised (retrieval/community/reconcile.go:22-31), and the network calls that gather the observations of a query.
- Sorting in place (`sort.Slice`, `sort.Strings`) is sorting a value.
- The weighting of ranked fields (retrieval/internal/search/ranking.go:122-141) is arithmetic on floating-point scores.
- ArchiveTransfer.ResumingIsNeverRefused: speaks of sessions that have not expired; an expired one is refused, and its owner starts again.
- LockRegistry.SearchStates.Acquire: says when a waiter can be let in, not in which order waiters are; the semaphore's queue is not modelled.
- FindingDates.WrittenDatesAreRead: a text that mixes newline styles is outside it, as the source splits at one style only.
