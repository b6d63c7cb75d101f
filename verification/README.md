# Verified model of the RAG service's data protocols

The service ingests uploaded files and webpages for many owners, searches them, and erases an owner on
request. This project models the parts of it in which correctness lies between functions: what every
interleaving of transactions keeps, what a crash may leave behind, what a reader of stored data can rely
on. It verifies with `dafny verify dfyconfig.toml`.

| files | what they model |
|---|---|
| `SyncModel`, `SyncRuns`, `WebpageRepository` | the webpage synchronization queue: leases, claim tokens, the 24-hour schedule, atomic publication; each repository method in place, and what whole runs of its transactions keep |
| `WebpageWorker`, `Windows`, `Embedder`, `WebpageSync` | the client of that queue: collecting, digesting, window chunking, batched embedding, its agreement with the repository, and one job from its claim to the stored row |
| `StagingDisk`, `UploadStorage`, `AccountErasure` | a file system with volatile and durable entries and failing fsyncs, removal and startup recovery on it, and the erasure service |
| `ErasureSystem`, `ErasureLocks`, `StartupRecovery`, `OrdinaryRun` | the system of savers, ingesters, erasers and starting processes with kills and machine crashes: what erasure achieves, the locks, what a startup removes while others go on, and a run in which an upload is saved, parsed and erased |
| `IngestPipeline`, `IngestQueue`, `IngestWorker` | one ingest job and its original, and the worker's queue, retries and erasure as steps and in place, while the upload route and other processes may unlink originals |
| `IngestExits`, `IngestOutcomes`, `IngestErasure` | which events make a job leave, with or without its original behind, what becomes of a job whose document is gone, and how a call of `erase_user` is answered |
| `DocumentStore` | the store, the route in front of re-embedding, and runs in which re-embedding overlaps everything else |
| `Bindings`, `Base64`, `PrivateData`, `UploadFrames`, `Backfill`, `StoredNames`, `JsonFormat` | storage bindings, canonical base64 (RFC 4648), chunked envelopes over an ideal cipher, encrypted upload files, the conversion of plain columns, what is written in letters, and a JSON text format that meets what they require |
| `TopHits`, `Revisions` | limits on two branches and on their union, knowledge revisions and their search |
| `TableSweep` | flattening tables whose cells span rows and columns |
| `Common` | identifiers and small datatypes |

How the parts are modelled:

- A repository method is one transaction under owner admission and a row lock, so it is one step. The
  class methods change their fields as the source does and are proved equal to a step function; the
  theorems are about all sequences of steps. Clock readings, random ids, answers of the provider, the
  page source and the cipher are parameters.
- The SQL functions are taken by their contract: admission holds to the end of the transaction, the
  fence is durable and permanent, erasure removes the owner's rows.
- A successful fsync makes a directory's durable entries its present ones, a failing one changes
  nothing, the system may write any single entry back at any time, and a crash leaves the durable
  entries.
- A seal opens exactly under the associated data it was made with. For private data and uploads, JSON
  text and SHA-256 are functions given as parameters; where two contents share a digest the statement
  says so instead of assuming it away. What is required of the JSON text can be met (`LawsCanBeMet`). The
  digest of a webpage's pages, in contrast, is the list of pages itself: different pages are assumed to
  have different digests. Ids from uuid4 do not repeat within a run.

Where the code does not do what one would expect, the model follows the code, a concrete case is given,
and the exact condition is proved:

- A row that still has a raw digest and whose pages did not change is treated as unchanged by the worker
  and as changed by the repository, so its synchronization ends in a refusal: shown at the end of a run
  (`RawDigestOfSamePagesIsRefused`), and exactly then (`FinishRefusedOnlyForRawDigest`).
- A starting process lists the owners before it tries the markers. An instance that makes a directory for
  a new owner after the listing and dies before its marker is tried loses the marker while the directory
  stays (`MarkerCanGoEarly`); exactly if, when the marker was locked, some owner with a directory of the
  instance was not listed (`MarkerIsUnlinkedLastIff`). Instances dead when the startup lock was taken
  never meet this (`DeadFromTheStartIsUnlinkedLast`), and to a later startup the instance is one of those (`StartupClearsTheDead`).
- An error of the worker's own admission check, which is outside the pipeline's classification, removes
  the original with nothing recorded (`WorkerAdmissionErrorLosesOriginal`, `Ingestion.IngestJob`).
- A delayed retry whose admission check fails with any error but erasure is in no place any more, its
  original still on disk, its owner active and the worker running (`FailingRetryStrandsOriginal`). The
  events that leave a job so are listed, each by a test on the event and the state before it
  (`AbandonedIff`).
- The upload route unlinks the original and deletes the document when its last admission check fails, but
  the job it has enqueued stays (`CompensationTakesTheOriginal`). An original is on disk exactly if its job
  is open or was abandoned, and no such compensation, no other process and no erasure that got stuck
  unlinked it (`JobsAreNeverLost`, `LostIff`).
- A job whose document is gone is tried again without end (`AbsentJobIsTriedWithoutEnd`), until exactly one
  of the listed events ends it (`AbsentJobLeavesIff`).
- `erase_user` passes on the exception of the job it waits for: when that job's own admission check finds
  the fence, the erasure raises although nothing of the owner is left in the worker
  (`FencedJobMakesErasureRaise`). When it returns is `ReturnsIff`, and a repetition returns
  (`RepetitionReturns`).
- A job that becomes retryable while its owner is being erased is unlinked outside the loop's handlers, so
  that a failing unlink ends the run loop for all owners (`FailingUnlinkEndsLoop`), and nothing else does
  (`LoopDiesIff`).
- Spans of a table can overlap without either cell being covered (`OverlapIsPossible`); the emitted cells
  tile the table exactly if its spans admit a tiling (`SweepTilesIff`).
- Ingestion and re-embedding compare only the total number of vectors, which can be right with one batch
  answered short and another long (`TotalCountCanDeceive`). Given a right total, every batch was right
  exactly if none was answered with too many vectors (`TotalCountSuffices`), as always up to 128 texts.
- The conversion never settles a row whose content hash is the empty string
  (`EmptyHashIsNeverSettled`, `RunLeavesEmptyHashes`, `SecondRunChangesNothing`). The service itself
  refuses to publish an empty hash (src/rag/webpages/repository.py:327-328), so such a row can only come
  from outside it.

## Model

| member | source | states |
|---|---|---|
| WebpageRepositories.WebpageRepository.Create | src/rag/webpages/repository.py:69-115 | a page is created exactly when the URL count is 1 to 100, the owner is active, the key is free and the cipher answers; the URLs are the given ones, each once, in the order of their first appearance, and every other column is stated |
| WebpageRepositories.WebpageRepository.Enqueue | src/rag/webpages/repository.py:170-191 | a manual request is accepted exactly for an own row neither queued nor running; the new row is stated column by column; its answer decrypts after the commit, so an accepted request may still end as unavailable |
| WebpageRepositories.WebpageRepository.SetAutoSync | src/rag/webpages/repository.py:193-216 | the toggle fences automatic claims only, leaves manual and initial requests, and sets the next time 24 hours after the last check; the answer may be unavailable after the commit |
| WebpageRepositories.WebpageRepository.TryClaim | src/rag/webpages/repository.py:242-280 | one listed row is claimed exactly if it is still due (queued, past a 15-minute lease, or past its next time) and unlocked under admission, and the record returned is the row's |
| WebpageRepositories.WebpageRepository.Claim | src/rag/webpages/repository.py:231-281 | of a possibly stale listing the first row that is still eligible is claimed, no other is touched |
| WebpageRepositories.WebpageRepository.ClaimIsCurrent | src/rag/webpages/repository.py:283-297 | true exactly for the running row's own token and an active owner |
| WebpageRepositories.WebpageRepository.Finish | src/rag/webpages/repository.py:311-393 | a success is accepted exactly for the current token and a publishable result; then chunk i is stored with embedding i and every other column is as stated; anything else leaves every column |
| WebpageRepositories.WebpageRepository.Fail | src/rag/webpages/repository.py:307-393 | a failure is accepted exactly for the current token, keeps the published snapshot, and shows the first 1000 characters of its message |
| SyncRuns.ReachableIsWellFormed | src/rag/db/models.py:188-204 | in every reachable state: running iff token and claim time, no next time without auto-sync, queued never automatic, an idle or failed auto-synced page has a next time, 24 hours after its check; ready iff hash iff chunks iff content; keys unique per owner |
| SyncRuns.ClaimedRowTracesBack | src/rag/webpages/repository.py:257-277 | a row with a token got it from the last claim on it, has not completed since, and agrees with the record that claim returned |
| SyncRuns.AcceptedCompletionFollowsItsClaim | src/rag/webpages/repository.py:318-325 | an accepted completion carries the last claim's token, with no other claim, completion or removal of that document between |
| SyncRuns.TokenCompletesOnce | src/rag/webpages/repository.py:324-388 | no token completes twice, on one document or two |
| SyncRuns.SupersededClaimIsFenced | src/rag/webpages/repository.py:324-325 | once a document is claimed again, completions of the older claim change nothing |
| SyncRuns.ClaimOvertakesOnlyAfterLease | src/rag/webpages/repository.py:219-229 | a running claim is taken over only strictly after its 15-minute lease |
| SyncRuns.ClaimLastsThroughItsJob | src/rag/webpages/worker.py:19-95 | for its ten minutes a claim stays current whatever other transactions are tried, except its own completion, the owner's toggle, deletion or erasure |
| SyncRuns.ManualRequestPersists | src/rag/webpages/repository.py:176-216 | an accepted manual request stays queued or running until a claim issued after it completes or the row is removed |
| SyncRuns.SnapshotIsCoherent | src/rag/webpages/repository.py:326-362 | content, hash, chunks and embeddings of every reachable row come from one accepted completion |
| SyncRuns.StoredChunksFit | src/rag/webpages/repository.py:326-362 | if every publication brings each chunk with the embedding of its text, no reachable row holds a chunk with another one's |
| SyncRuns.OnlyPublicationChangesSnapshot | src/rag/webpages/repository.py:326-379 | failures, stale workers, claims and toggles leave the snapshot and a ready status |
| SyncRuns.DueExactlyFrom | src/rag/webpages/repository.py:218-229 | every queued, running or auto-synced page is due exactly from a computed time on; only idle or failed pages without auto-sync never are |
| SyncRuns.ErasedOwnerStaysEmpty | src/rag/security/owner_erasure.py:27-62 | after fence and row erasure no transaction gives the owner a webpage row again |
| SyncModel.DistinctKeepsOrder | src/rag/webpages/repository.py:69-115 | deduplication keeps each URL once, in the order of first appearance |
| WebpageWorkers.Collect | src/rag/webpages/worker.py:94-107 | pages are collected in claim order, each after an admission check, all visible and within 4 MiB, or the first turn that fails ends the job as it says |
| WebpageWorkers.NextPage | src/rag/webpages/worker.py:95-107 | one turn of that loop ends the job exactly if admission, the fetch, the text or the size does, with the message for it |
| WebpageWorkers.ChunkPages | src/rag/webpages/worker.py:123-132 | the loops compute the specified windows of all pages |
| WebpageWorkers.ChunkPage | src/rag/webpages/worker.py:125-132 | one page's windows are appended, numbered on from the chunks before |
| WebpageWorkers.EmbedChunks | src/rag/webpages/worker.py:133-143 | every 32 chunks are one admitted call whose vectors stand at their places; it goes through exactly if all calls do, else the first that fails ends the job |
| WebpageWorkers.WebpageWorker.Begin | src/rag/webpages/worker.py:70-75 | claims of owners erased in this process are dropped |
| WebpageWorkers.WebpageWorker.EraseUser | src/rag/webpages/worker.py:84-91 | the owner's jobs end, other owners' go on |
| WebpageWorkers.WebpageWorker.Process | src/rag/webpages/worker.py:93-156 | a job publishes exactly if all pages are there and either the captured hash was made of these very pages or every batch is answered; the request carries all chunks exactly if it was not; a publication that raises is reported afterwards |
| WebpageWorkers.WebpageWorker.ProcessOverEmbedder | src/rag/webpages/worker.py:133-143 | over the embedder itself, whose providers answer faithfully, embedding i is that of chunk i |
| WebpageWorkers.NestedBatchesAreFaithful | src/rag/ingest/embedder.py:122-134 | batches of 32 chunks, each sent in requests of up to 128 texts, keep every vector with its text |
| WebpageWorkers.CurrentClaimAgrees | src/rag/webpages/repository.py:262-276 | while a claim is current its URLs, hash and reason are the row's |
| WebpageWorkers.DigestIsOfThePages | src/rag/webpages/worker.py:110-115 | two page lists have one digest exactly if they agree address by address and text by text |
| WebpageWorkers.ChangedPagesArePublished | src/rag/webpages/worker.py:122-147 | in every run, a current worker that found other pages than the captured hash was made of asks with all their chunks, and the commit replaces the row's chunks by exactly those |
| WebpageWorkers.JoinedFromTheFront | src/rag/webpages/worker.py:121 | the content is the texts in order with an empty line between two |
| WebpageSync.RunJob | src/rag/webpages/worker.py:93-156 | one whole job: an accepted publication leaves the row with the chunks of the fetched pages in order, each with the embedding of its own text; any other end leaves the published columns, and other rows are never touched |
| WebpageWorkers.FinishRefusedOnlyForRawDigest | src/rag/webpages/worker.py:122-147 | a worker with a current claim is refused exactly when the captured hash is the raw digest of the pages it collected |
| WebpageWorkers.IdenticalPagesReplaceNothing | src/rag/webpages/repository.py:326-366 | pages with the stored fingerprint replace no chunk and change only the check columns |
| WebpageWorkers.RawDigestOfSamePagesIsRefused | src/rag/webpages/worker.py:122 | at the end of a run of five transactions a current claim for an unmigrated, unchanged page makes a request that is refused |
| Windows.StripOfWindow | src/rag/webpages/worker.py:126 | slicing and stripping is the stripped stretch of the page |
| Windows.PassageInOneChunk | src/rag/webpages/worker.py:125-132 | every passage of at most 161 characters with visible ends lies whole in one chunk of its page |
| Windows.ChunkIsAStretch | src/rag/webpages/worker.py:125-132 | chunk c is numbered c, has 1 to 1600 characters, and is a stretch of one collected page |
| Windows.VisibleTextYieldsChunks | src/rag/webpages/worker.py:125-132 | a page with visible text yields a chunk |
| Windows.ChunksFromTheFront | src/rag/webpages/worker.py:123-132 | the chunks are those of the first page with its addresses, then those of the others, numbered on |
| Windows.WindowTextsFromTheFront | src/rag/webpages/worker.py:125-128 | a page's texts are its slices of 1600 characters every 1440, stripped, unless nothing is left |
| Embedder.EmbedBatchWithRetry | src/rag/ingest/embedder.py:136-165 | the first answer within three attempts, else the code of the last failure, with pauses of half a second and a second |
| Embedder.ClassifyByCause | src/rag/ingest/embedder.py:145-160 | which failures get which code |
| Embedder.Embed | src/rag/ingest/embedder.py:122-134 | the answers of the batches of 128 joined in order, whatever their sizes; it fails exactly if some batch is not answered on three attempts |
| Embedder.FaithfulIsAligned | src/rag/ingest/embedder.py:122-134 | if every answered batch is right, vector i is the embedding of text i across batches |
| Embedder.TotalCountSuffices | src/rag/ingest/pipeline.py:48-53 | given a right total, every batch was answered with the right number exactly if none was answered with too many |
| Embedder.RightBatchesAreAligned | src/rag/ingest/embedder.py:122-134 | if every batch has the right number, and right numbers come in order, vector i is the embedding of text i |
| Embedder.OneBatchTotalSuffices | src/rag/ingest/pipeline.py:48-53 | a right total means right vectors for up to 128 texts |
| Embedder.TotalCountCanDeceive | src/rag/ingest/pipeline.py:48-53 | a concrete provider with a right total and a misplaced vector |
| StagingDisk.NoDirectoryNoOriginals | src/rag/ingest/uploads.py:227-239 | without the owner's directory no path leads to an original of theirs |
| UploadStorage.LocalUploadStorage.SyncDirectory | src/rag/ingest/uploads.py:314-319 | the directory becomes durable, or the call raises and changes nothing |
| UploadStorage.LocalUploadStorage.RemoveUploadDirectory | src/rag/ingest/uploads.py:296-312 | on return the instance's directory is gone, before and after a crash; siblings stay; it raises only if an fsync failed or something unexpected is in the way |
| UploadStorage.LocalUploadStorage.EraseOwner | src/rag/ingest/uploads.py:219-239 | a normal return ends with the barrier on `owners` and leaves no directory of the owner, present or durable, also when an earlier attempt had failed its barrier; it raises only if an fsync failed or something unexpected is in the way |
| UploadStorage.LocalUploadStorage.RecoverFromOwners | src/rag/ingest/uploads.py:276-286 | a dead instance loses its directory under every owner whose lock is free, and no other |
| UploadStorage.LocalUploadStorage.SettleMarker | src/rag/ingest/uploads.py:287-291 | the marker goes durably exactly if every owner was free |
| UploadStorage.LocalUploadStorage.CleanupAbandonedInstances | src/rag/ingest/uploads.py:252-294 | alone on the disk, every instance found by marker or directory is settled: cleared under free owners, its marker gone exactly if nothing of it is left and then unlinked last; it raises only if an fsync failed or something unexpected is there |
| UploadStorage.OthersAreSpared | src/rag/ingest/uploads.py:269-294 | at every point of a removal, live instances, busy owners and other owners keep their files, and what was durable stays durable |
| UploadStorage.CrashAfterBarrierRestoresNothing | src/rag/ingest/uploads.py:237-239 | a crash after the barrier brings no original of the owner back |
| AccountErasure.AccountErasureService.Erase | src/rag/http/account_erasure.py:46-55 | a normal return exactly if every call succeeds, and then fenced, no rows, no directory present or durable; which call fails decides the error, keeps all rows and whatever comes after it; other owners are untouched |
| ErasureSystem.InvariantHolds | src/rag/ingest/uploads.py:113-239 | in every run: acknowledged owners are erased, erased ones purged, purged ones drained, drained ones fenced, and no task past its last admission check belongs to a drained owner |
| ErasureSystem.DiskStaysSound | src/rag/ingest/uploads.py:314-319 | over all runs every directory has one entry per name and every entry, present or durable, was made |
| ErasureSystem.NoResurrection | src/rag/http/account_erasure.py:46-55 | after an erasure returned, no later state of any interleaving, with kills and crashes, has a row, an original or parser plaintext of the owner |
| ErasureSystem.RowsGoLast | src/rag/http/account_erasure.py:54-55 | when an erasure has deleted the rows no original is durable, whatever earlier attempts failed |
| ErasureSystem.ErasureIsOwnerScoped | src/rag/security/owner_erasure.py:56-62 | rows that an erasure deletes are its own, fenced owner's |
| ErasureLocks.ExclusionHolds | src/rag/ingest/uploads.py:96-111 | in every run an exclusively held lock has one holder, and recovered instances are dead |
| ErasureLocks.RemovalsAreExclusive | src/rag/ingest/uploads.py:269-286 | startup removes files only of dead instances, and files are removed only while nobody else holds their owner's lock |
| ErasureLocks.WaitsUpwards | src/rag/ingest/uploads.py:223-226 | a waiting task holds only locks ranked below the one it waits for |
| ErasureLocks.NoDeadlock | src/rag/ingest/uploads.py:280-285 | savers, ingesters, erasers and starting processes never wait in a cycle |
| ErasureLocks.ChainsAreShort | src/rag/ingest/worker.py:90-94 | a chain of waiting tasks has at most five |
| ErasureLocks.SomeHolderRuns | src/rag/ingest/uploads.py:96-111 | following who waits for whom ends at a task that waits for nobody |
| StartupRecovery.DeadInstanceGainsNothing | src/rag/ingest/uploads.py:113-117 | whatever follows, a dead instance without tasks has no directory and no original that it did not have when it was over |
| StartupRecovery.VisitedOwnersAreCleared | src/rag/ingest/uploads.py:276-286 | over all runs, an owner that recovery has visited has no directory of the instance, present or after a crash |
| StartupRecovery.UnlinkedMarkersLeaveOnlyUnlisted | src/rag/ingest/uploads.py:287-288 | a marker is unlinked only of a dead instance; what is left of it stands under owners that were not listed |
| StartupRecovery.MarkerIsUnlinkedLastIff | src/rag/ingest/uploads.py:254-288 | no directory of the instance is left when its marker is unlinked exactly if all owners that had one when the marker was locked had been listed |
| StartupRecovery.StartupClearsTheDead | src/rag/ingest/uploads.py:252-294 | a completed startup has removed every present entry of each instance dead when it began, except under owners it skipped, while others work all the time |
| StartupRecovery.StartupClearsDurably | src/rag/ingest/uploads.py:252-294 | of such an instance that a marker or a directory under a listed owner had shown, no durable entry is left either under a listed owner it did not skip whose directory is there |
| StartupRecovery.SkippedWasBusy | src/rag/ingest/uploads.py:279-285 | an owner was skipped only because its lock was held when it was tried |
| StartupRecovery.DeadFromTheStartIsUnlinkedLast | src/rag/ingest/uploads.py:287-288 | markers of instances dead when the startup began are unlinked last |
| StartupRecovery.MarkerCanGoEarly | src/rag/ingest/uploads.py:254-288 | a concrete run unlinks a marker while a directory of its instance stands |
| ErasureSystem.ErasePathIsARun | src/rag/ingest/uploads.py:227-239 | every operation the storage method records is a step of the system, which ends past the barrier with the owner purged and the same disk |
| OrdinaryRuns.SomethingOfTheOwner | src/rag/ingest/uploads.py:113-152 | a run after which an owner has an original, a row and plaintext at the parser |
| OrdinaryRuns.ErasureGoesThrough | src/rag/http/account_erasure.py:46-55 | that run continued: the owner's erasure gets to its answer and nothing is left |
| OrdinaryRuns.StartupGoesThrough | src/rag/ingest/uploads.py:252-294 | after a kill instead, a startup finds, visits and clears the dead instance and goes live |
| IngestPipelines.Ingestion.RunStages | src/rag/ingest/pipeline.py:39-56 | the first stage that did not pass decides; ready is recorded exactly if all admissions and stages passed, there is a chunk, and as many embeddings as chunks |
| IngestPipelines.Ingestion.Ingest | src/rag/ingest/pipeline.py:37-81 | the original stays exactly for the retryable error (or a cancellation while an outage is recorded); it goes only after ready or failed was recorded, an erasure or a cancellation |
| IngestPipelines.Ingestion.IngestJob | src/rag/ingest/worker.py:168-179 | the original stays exactly for the retryable error; it is lost without a record exactly if the lock or the worker's admission check raises another error |
| IngestPipelines.WorkerAdmissionErrorLosesOriginal | src/rag/ingest/worker.py:171-179 | a concrete job loses its original; the same failure one step later keeps it |
| IngestQueue.InvariantHolds | src/rag/ingest/worker.py:47-166 | in every run, with the upload route, other processes and stuck erasures unlinking originals at any time: each open job is in exactly one place, counts agree, an original is on disk exactly if its job did not finish and nothing else unlinked it, and drained owners have nothing queued |
| IngestQueue.JobsAreNeverLost | src/rag/ingest/worker.py:117-166 | an accepted job is in the queue, the active slot or the retry table, once, or left by one named exit; its original is on disk exactly if it is open or was abandoned and no compensation, outside removal or stuck erasure met it since; the count is never negative and zero only when nothing is left |
| IngestQueue.LostIff | src/rag/http/documents.py:264-277 | the worker loses an original exactly by those events, each a test on the event and the state before it |
| IngestExits.AbandonedIff | src/rag/ingest/worker.py:104-166 | an accepted job is nowhere with its original on disk exactly if no compensation, outside removal or stuck erasure took that and one of these events met the job: a failing delayed retry, `stop` while delayed, becoming retryable while stopping, or an unlink of its original that failed, at its end, at a retry that finds the owner erased, or in its owner's erasure |
| IngestExits.ExitsAreFinal | src/rag/ingest/worker.py:117-166 | a job that left does not come back nor change how it left |
| IngestExits.FailingRetryStrandsOriginal | src/rag/ingest/worker.py:156-164 | a concrete run of six events after which a living owner's job is nowhere and its original stays |
| IngestExits.CompensationTakesTheOriginal | src/rag/http/documents.py:264-277 | a concrete run in which a living owner's job is queued and its original gone |
| IngestOutcomes.LeftIff | src/rag/ingest/worker.py:59-166 | a job has left exactly if one of the listed events came: erasure reaching it, `stop` while delayed, a retry not admitted, or an end that is not retryable or may not be retried |
| IngestOutcomes.MissingRowIsRetried | src/rag/ingest/store.py:183-194 | without the document's row a job records nothing and ends retryable exactly unless erased, cancelled, or stopped by the worker's own lock or admission check |
| IngestOutcomes.AbsentJobLeavesIff | src/rag/ingest/worker.py:117-166 | in every run such a job stays in exactly one place until erasure, `stop`, a retry not admitted, the worker's own lock or admission check, or an erased owner ends it |
| IngestOutcomes.AbsentJobIsTriedWithoutEnd | src/rag/ingest/worker.py:146-166 | for every n, a run in which it was tried n times and is queued again |
| IngestExits.LoopDiesIff | src/rag/ingest/worker.py:117-151 | the run loop is dead exactly if a job became retryable whose owner was being erased and whose original could not be unlinked, and no start followed |
| IngestExits.DeadLoopTakesNothing | src/rag/ingest/worker.py:117-144 | in every run a dead loop has nothing in flight and takes nothing from the queue |
| IngestExits.FailingUnlinkEndsLoop | src/rag/ingest/worker.py:146-151 | a concrete run of six events after which the loop is dead and an erased owner's original stays |
| IngestQueue.ErasedOwnerHasNoJobs | src/rag/ingest/worker.py:59-94 | after a normal return of `erase_user` none of the owner's jobs is anywhere, ever again |
| IngestErasures.ReturnsIff | src/rag/ingest/worker.py:59-94 | an answered `erase_user` returned exactly if no original was stuck and the owner's active job, if it met one, was admitted, did not end retryable and was unlinked |
| IngestErasures.ReturnedMeansNoJobs | src/rag/ingest/worker.py:59-94 | after a return the worker has nothing of the owner in any continuation |
| IngestErasures.RepetitionReturns | src/rag/ingest/worker.py:59-94 | a call that raised only because of the active job returns when repeated at any later time |
| IngestErasures.FencedJobMakesErasureRaise | src/rag/ingest/worker.py:88-94 | a concrete call that raises though nothing of the owner is left |
| IngestQueue.OthersBag | src/rag/ingest/worker.py:75-78 | the rebuilt queue keeps exactly the other owners' entries and the sentinels |
| IngestQueue.OthersFromTheFront | src/rag/ingest/worker.py:75-78 | and keeps their order |
| IngestErasures.DrainingTakesTheOwners | src/rag/ingest/worker.py:59-87 | a draining that gets through takes exactly the owner's queued and delayed jobs and their originals |
| IngestErasures.EraseStuckIff | src/rag/ingest/worker.py:59-87 | it raises at once exactly if an original of the owner, queued or delayed, is there and cannot be unlinked |
| IngestQueue.FinishDoes | src/rag/ingest/worker.py:117-151 | what the end of the active job does to the files, the retry table and the count |
| IngestWorkers.AsyncQueue.TaskDone | src/rag/ingest/worker.py:142 | the count goes down by one, never below zero, and releases waiters only at zero |
| IngestWorkers.IngestWorker.Enqueue | src/rag/ingest/worker.py:47-57 | accepted exactly for active owners, at the end of the queue; a refused owner's original is unlinked if that works, other errors keep it |
| IngestWorkers.IngestWorker.Rebuild | src/rag/ingest/worker.py:69-78 | the queue is the order-preserving filter (or the whole queue again), and waiters are released only if nothing is queued or in flight |
| IngestWorkers.IngestWorker.EraseUser | src/rag/ingest/worker.py:59-87 | is the specified step; a failing unlink restores the whole queue; no `join` is released while other work remains |
| IngestWorkers.IngestWorker.Finish | src/rag/ingest/worker.py:120-144 | is the specified step, with exactly one `task_done` per entry taken, also when an unlink fails |
| IngestWorkers.IngestWorker.ScheduleRetry | src/rag/ingest/worker.py:146-166 | a retryable job waits in the retry table, unless its owner is erased or the worker stops; it raises exactly if an erased owner's original cannot be unlinked |
| IngestWorkers.IngestWorker.RetryFires | src/rag/ingest/worker.py:156-164 | a delayed job is queued again or leaves by a named exit, also when its unlink fails |
| IngestWorkers.IngestWorker.Stop | src/rag/ingest/worker.py:104-115 | delayed retries are cancelled with their originals kept, and the sentinel is queued |
| DocumentStores.EmbeddingsStayWithTheirTexts | src/rag/ingest/store.py:32-157 | in every run of uploads, jobs, publications, deletions, erasures and re-embeddings, whose texts may have been read at any earlier point, each chunk has the embedding of its own text and erased owners own nothing |
| DocumentStores.ReplacingChunks | src/rag/ingest/store.py:32-70 | chunk i is stored with text i and embedding i and the document is ready, or the answer says why not and nothing changes |
| DocumentStores.ReplacingEmbeddings | src/rag/ingest/store.py:126-157 | every text stays and chunk i gets embedding i, or the answer says why not and nothing changes |
| DocumentStores.MarkingFailed | src/rag/ingest/store.py:72-80 | a failure changes the status only |
| DocumentStores.IngestedIsParsed | src/rag/ingest/pipeline.py:42-56 | a job that is through has stored every parsed text in order, each with its embedding |
| DocumentStores.RouteLetsInIff | src/rag/http/documents.py:291-301 | the route lets in exactly an active owner's own upload that is not being processed |
| DocumentStores.WebpagesAreNotReembedded | src/rag/http/documents.py:291-301 | no re-embedding, succeeding or giving up, touches a webpage in any run |
| DocumentStores.LateEmbeddingsFitIff | src/rag/ingest/store.py:126-157 | late embeddings are accepted exactly by their number, and fit exactly if the stored texts still have the embeddings of those read |
| DocumentStores.DocumentStore.ReadChunks | src/rag/ingest/store.py:90-124 | refused exactly for erased owners; else the texts in order exactly for the owner's document that is not being processed |
| DocumentStores.DocumentStore.FailReindex | src/rag/ingest/store.py:159-181 | the failure is recorded on a document that is still there, else not found |
| DocumentStores.DocumentStore.Reindex | src/rag/ingest/pipeline.py:83-111 | with other transactions between any two of its steps, exactly when it succeeds, is refused for erasure, or records a failure |
| Base64.RoundTrip | src/rag/ingest/uploads.py:131-188 | decoding what was encoded gives the bytes |
| Base64.CanonicalIffEncoded | src/rag/ingest/uploads.py:188-190 | the re-encoding test passes for exactly the encodings, so no two accepted texts have the same bytes |
| Base64.IgnoredBitsDecodeAlike | src/rag/ingest/uploads.py:188-190 | without the test two texts would pass for one another |
| StoredNames.Base64Vectors | src/rag/ingest/uploads.py:131 | the vectors of section 10 of RFC 4648 |
| Bindings.AssociatedDataSeparates | src/rag/security/private_data.py:29-43 | different bindings have different associated data |
| Bindings.SealsAreSeparate | src/rag/security/private_data.py:29-46 | associated data determines owner, resource, place and portion: no two field names or derived parts collide |
| Bindings.PartValidIffFits | src/rag/security/private_data.py:30-46 | a derived binding is valid exactly if the longer field fits in 256 characters |
| Bindings.ShortFieldsHaveValidParts | src/rag/security/private_data.py:45-46 | fields up to 246 characters keep all their parts valid |
| StoredNames.DocumentFields | src/rag/security/private_data.py:45-46 | what the unnumbered fields are called |
| StoredNames.NumberedFields | src/rag/search/repository.py:147-172 | what the numbered fields are called |
| StoredNames.RevisionFields | src/rag/search/repository.py:147-172 | what a revision's fields are called |
| StoredNames.AssociatedDataIsAList | src/rag/security/private_data.py:29-43 | the associated data is the JSON list of the format and the three fields, in order |
| StoredNames.ValidFieldIff | src/rag/security/private_data.py:30-36 | a field is valid exactly with 1 to 256 characters, no control character, and nothing to strip |
| PrivateData.EncryptSucceedsIff | src/rag/security/private_data.py:112-132 | encryption fails only above 32 MiB or for an invalid binding, its own or a derived one |
| PrivateData.ShortFieldsServe | src/rag/security/private_data.py:112-132 | a valid binding with a field up to 246 characters serves for values of every size |
| PrivateData.FormFollowsSize | src/rag/security/private_data.py:116-132 | up to 256 KiB one seal, above an envelope of the ceiling number of 64 KiB chunks |
| PrivateData.EnvelopeHolds | src/rag/security/private_data.py:118-132 | chunk k seals the k-th 64 KiB, and the manifest length, number and digest |
| PrivateData.RoundTrip | src/rag/security/private_data.py:112-160 | what was encrypted decrypts to the same value, on both paths |
| PrivateData.OpensUnderOneBinding | src/rag/security/private_data.py:134-160 | no ciphertext, with manifests nested to any depth, opens under two bindings |
| PrivateData.ChunksAreInPlace | src/rag/security/private_data.py:148-153 | an envelope that opens has at each index a chunk sealed for that index |
| PrivateData.OnlyTheOriginalSequence | src/rag/security/private_data.py:139-157 | of all sequences of an envelope's own chunks, shortened, repeated or reordered, only the original opens |
| PrivateData.ManifestPinsTheValue | src/rag/security/private_data.py:154-157 | whatever chunks open beside a manifest give its value, or a digest collision |
| PrivateData.OpenBaoKeepsFaith | src/rag/security/private_data.py:96-160 | the service keeps the laws that its users rely on |
| StoredNames.LookupIs | src/rag/security/private_data.py:96-110 | a lookup is a keyed digest of the value and the whole binding, for up to 4096 bytes |
| StoredNames.LookupsAgreeIff | src/rag/security/private_data.py:96-110 | two lookups agree exactly if those digests do |
| StoredNames.ReadingColumns | src/rag/security/private_data.py:134-160 | plain columns read as they are, sealed ones as what opens |
| UploadFrames.Save | src/rag/ingest/uploads.py:120-152 | fails exactly above 128 MiB or when the cipher refuses; else writes one line per read and the manifest |
| UploadFrames.Read | src/rag/ingest/uploads.py:164-207 | the reading loop computes the specified verdict |
| UploadFrames.RoundTrip | src/rag/ingest/uploads.py:120-207 | reading a saved file gives exactly the uploaded bytes, for every pattern of short reads |
| UploadFrames.ContentFromTheFront | src/rag/ingest/uploads.py:124-129 | the content is the reads in order |
| UploadFrames.OnlyTheOriginalLines | src/rag/ingest/uploads.py:174-203 | of all files made from a file's own lines, dropped, repeated, reordered or added after the manifest, only the original is accepted |
| UploadFrames.ManifestPinsTheContent | src/rag/ingest/uploads.py:197-203 | an accepted file with an upload's manifest ends with it and has its length and digest |
| UploadFrames.ManifestIsNeeded | src/rag/ingest/uploads.py:197-203 | a file without a manifest line is refused |
| UploadFrames.ChunkIsOneSeal | src/rag/security/private_data.py:17-117 | every written chunk stays on the single-seal path |
| UploadFrames.AcceptedIsWithinLimits | src/rag/ingest/uploads.py:172-193 | any accepted file has the magic line, only chunk and manifest lines within the line limit, and at most 128 MiB |
| UploadFrames.UploadCodecIsLawful | src/rag/ingest/uploads.py:130-190 | chunks open only in their own position and every line is below the reader's limit, given a bound on cipher expansion |
| UploadFrames.RefusedOnlyForItsNames | src/rag/ingest/uploads.py:130-144 | an upload within the limit is refused exactly for an owner or file name that no binding admits |
| Backfill.ReadersSeeTheSame | src/rag/security/private_data_backfill.py:84-121 | converting a row changes nothing a reader sees under the runtime bindings |
| Backfill.RawHashBecomesFingerprint | src/rag/security/private_data_backfill.py:122-125 | a raw hash becomes the fingerprint the worker computes |
| Backfill.UnchangedPagesStayRecognised | src/rag/security/private_data_backfill.py:122-125 | pages recognised as unchanged before are so after; new recognition needs equal fingerprints |
| Backfill.PrefixedPlainTextIsRefused | src/rag/security/private_data_backfill.py:57-92 | plain text that starts like ciphertext stops the conversion |
| Backfill.ConvertedRowIsSettled | src/rag/security/private_data_backfill.py:61-126 | a converted row is legacy exactly if it has an empty hash, and converting again changes nothing |
| Backfill.LegacyIff | src/rag/security/private_data_backfill.py:61-77 | a row counts as legacy exactly for a value in the clear that does not merely look sealed |
| Backfill.AppliedRunSeals | src/rag/security/private_data_backfill.py:157-183 | after an applied run every text and JSON value of every row is sealed and opens under its own owner, resource and field, and every hash but the empty one is a fingerprint |
| Backfill.ReportCountsUnsealed | src/rag/security/private_data_backfill.py:157-199 | it reports and converts exactly the rows that had something in the clear |
| Backfill.EmptyHashIsNeverSettled | src/rag/security/private_data_backfill.py:61-126 | a concrete page row with an empty hash is legacy and converts to itself |
| Backfill.LayoutIsKept | src/rag/security/private_data_backfill.py:102-126 | every column stays at the place the runtime reads it from |
| Backfill.Connection.Query | src/rag/security/private_data_backfill.py:152-154 | the next hundred rows above the cursor in key order |
| Backfill.Connection.VisitPage | src/rag/security/private_data_backfill.py:157-184 | each row of a page is visited once and legacy rows are counted |
| Backfill.Connection.BackfillTable | src/rag/security/private_data_backfill.py:149-199 | the walk ends, visits each row of the table once, and reports the legacy, converted and remaining rows |
| Backfill.Connection.Backfill | src/rag/security/private_data_backfill.py:129-200 | all four tables are walked; the revision trigger is back in place afterwards |
| Backfill.Connection.Run | src/rag/security/private_data_backfill.py:217-222 | commits exactly if the trigger is in place and no row is refused, else nothing changes; the four reports come in order with converted and remaining as stated |
| Backfill.RunKeepsReadings | src/rag/security/private_data_backfill.py:157-183 | a run leaves every reading of every row |
| Backfill.RunLeavesEmptyHashes | src/rag/security/private_data_backfill.py:61-77 | after an applied run a row counts as legacy exactly if its hash is empty |
| Backfill.SecondRunChangesNothing | src/rag/security/private_data_backfill.py:129-200 | a second run changes nothing and converts nothing exactly if no hash is empty |
| TopHits.BranchLosesNothing | src/rag/search/repository.py:108-138 | a candidate that its branch's limit cut off beats no returned hit |
| TopHits.TopOfTops | src/rag/search/repository.py:108-138 | limiting both branches and then their union is limiting the union |
| TopHits.TopExists | src/rag/search/repository.py:138 | such results exist for all candidates and limits |
| Revisions.NotFoundIff | src/rag/knowledge/revisions.py:82-93 | creation refuses exactly if a selected document is missing, foreign, not ready or without a chunk |
| Revisions.FrozenShowsItsSource | src/rag/knowledge/revisions.py:107-153 | a frozen chunk read under the revision's bindings shows what its source showed |
| Revisions.HitsShowTheirChunk | src/rag/search/repository.py:147-172 | a live hit and a frozen one show the name, text and metadata that the document's columns read as, its number, and one minus the distance |
| Revisions.FilesAndPages | src/rag/knowledge/revisions.py:56-81 | the selection is the chunks of the owner's ready, selected documents; files are frozen, webpages not |
| Revisions.CreationAnswers | src/rag/knowledge/revisions.py:56-173 | why a creation is refused, in the order of its checks |
| Revisions.NewRevisionOffersItsSelection | src/rag/knowledge/revisions.py:56-173 | a new revision offers exactly the selected chunks, files frozen and webpages live, each hit shows its chunk's own name, text, metadata, number and score, and its count is their number |
| Revisions.RevisionsNeverChange | src/rag/db/models.py:232-240 | in every run a revision stays as created until its owner is erased, and then the owner has none |
| Revisions.BranchesAreDisjoint | src/rag/search/repository.py:84-107 | in every run no document is both frozen and live in a revision |
| Revisions.CandidatesOverRuns | src/rag/knowledge/revisions.py:175-213 | frozen hits never change, and the listed count is the number of all candidates |
| Revisions.LiveHitsAreCurrent | src/rag/search/repository.py:111-136 | live hits are exactly the present chunks of ready, selected, same-owner webpages |
| Revisions.StrangersFindNothing | src/rag/search/repository.py:99-106 | a revision has no candidates for anybody but its owner |
| Revisions.RevisionSearchIsExact | src/rag/search/repository.py:72-145 | at any point of any run a search returns min(k, count) hits and no candidate beats one |
| TableSweep.Sweep | src/rag/ingest/parser.py:165-194 | the emitted cells are in reading order, each with the text, spans and header mark of its cell; every position is where one starts or inside another one's rectangle, never both |
| TableSweep.SweepIsUnique | src/rag/ingest/parser.py:168-179 | that condition has only one solution, whatever the spans |
| TableSweep.SweepTilesIff | src/rag/ingest/parser.py:168-194 | emitted rectangles tile the table exactly if its spans admit a tiling by some choice of cells, and it is the only one |
| TableSweep.OverlapIsPossible | src/rag/ingest/parser.py:172-179 | a concrete table whose rectangles overlap and which no choice of cells tiles |

## Left out

- WebpageRepositories.WebpageRepository.Claim: the listing of at most 100 due rows and its order; the listing is arbitrary, so nothing is said about fairness.
- WebpageWorkers.WebpageWorker.EraseUser: cancelling the webpage jobs and awaiting their end is one step.
- UploadStorage.LocalUploadStorage.EraseOwner: the method has the disk to itself; module ErasureSystem has the interleavings.
- UploadStorage.LocalUploadStorage.RecoverFromOwners: the method has the disk to itself; module StartupRecovery has the interleavings.
- Revisions.NewRevisionOffersItsSelection: the revision is created as a function of the tables, not by inserting rows into a session; chunk ids are left out.
- UploadStorage.LocalUploadStorage.CleanupAbandonedInstances: the method has the disk to itself, module StartupRecovery has the interleavings; instances are recovered in any order, the source sorts them.
- ErasureSystem.ErasePathIsARun: the recorded path is replayed without steps of others in between; InvariantHolds is about all interleavings.
- AccountErasure.AccountErasureService.Erase: the two worker drains and the check for legacy directories are booleans; when the ingest worker's drain returns is IngestErasures.ReturnsIff.
- IngestWorkers.IngestWorker.Stop: cancelling the retries, awaiting them and queueing the sentinel is one step.
- IngestPipelines.Ingestion.IngestJob: the parser thread is drained by waiting, so its inside is one stage; its failing unlinks are those of module IngestQueue.
- IngestQueue.JobsAreNeverLost: a retry is delayed by an unspecified time and may be tried any number of times.
- Backfill.Connection.Query: a table is kept in key order; rows inserted by others during a run are excluded by its locks and its transaction.
- UploadFrames.UploadCodecIsLawful: the bound on how much longer ciphertext is than what it seals is a parameter of the cipher service.
- PrivateData.EncryptSucceedsIff: outages of the cipher service are not part of the codec; the callers' modules have them.
- DocumentStores.EmbeddingsStayWithTheirTexts: parsing and chunking an upload is a function of the document, its one original being never rewritten; the embedder answers each text with that text's vector, module Embedder says when the total number shows it.
- DocumentStores.DocumentStore.Reindex: the store keeps the texts that readers see; how they are sealed is module PrivateData.
- Manifests that give their numbers as floats or booleans, which Python compares as integers, do not occur among the JSON values.
- Admission checks of `save` and `decrypted_path` are steps of ErasureSystem, not of the upload frames; path checks, file modes, symlinks, the volatile root and the legacy-directory glob are not modelled.
- `upload_document` and `delete_document` themselves, listing and response building: their effect on accepted jobs is the events `Compensate` and a missing row; compensation may come at any time after acceptance, and more than once.
- `_kordoc_block_text` and captions: plain concatenation; the sweep takes a cell's text as given.
- URL normalization and validation, display names, HTTP routing, middleware, metrics and configuration.
- Revisions.HitsShowTheirChunk: hits show the stored JSON metadata; the conversion of its values to strings is left out.
- JSON text, UTF-8, SHA-256 and HMAC internals, TLS and credentials of the outside services, pgvector's approximate index.
- Plaintext that a killed process leaves on the memory file system, physical media and backups.
