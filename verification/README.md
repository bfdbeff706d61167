# Proofs about the video archive service

This project models the concurrent bookkeeping of the service in Dafny 4.11 and proves what it
keeps. `dafny verify dfyconfig.toml` checks all of it.

Database tables and the file system are maps. Where the program releases a lock or makes a
separate database, disk or channel operation, the model has a separate step, a run is any
sequence of enabled steps, and the theorems hold of every run. Code that changes an object in
place is a class whose methods follow the program's statements; each is proved against functions
on values, and the lemmas are about those functions.

| component | files |
|---|---|
| library syncer: work queue, event loop, consumer, reconcile | `WorkQueue`, `Syncer`, `LibrarySync`, `SyncProgress` |
| browsing directories: naming, projection, rebuilds | `Naming`, `Projection`, `ProjectionProofs`, `Projector`, `Exporter` |
| storage accounting, download and check handlers, cleanup | `StorageCache`, `StorageRuns`, `RareCount`, `Handlers`, `Cleanup` |
| jobs: table, worker, restarts, startup recovery | `JobTable`, `EnqueueRace`, `Worker`, `Recovery` |
| event broker | `Broker` |
| discovery: scoring, merging, ranking | `Scorer`, `ScoreMerge`, `Keyed`, `RelatedTopK` |
| creators file | `FileSync`, `Paging` |
| client kernels: limiter, signed query, backoff | `Limiter`, `SignedQuery`, `MixinKey`, `Backoff` |
| shared | `Common`, `Sorting`, `Text` |

What the proofs found beyond confirming the code:

* The library consumer is the only receiver of the channel it sends to. With at most as many
  creators as the channel holds no send ever blocks; with one more there is a run after which the
  consumer is stuck for good (`SyncProgress.StuckIsReachable`, `SyncProgress.StuckForever`).
* The clean-up of creator `a` also removes the directories of a creator whose uid is `a_b`, and the
  clean-up of `a_b` the directory of creator `a` when its name is `b_c`. `Naming.OwnersOfName` says
  for all uids exactly which directories it takes for its own.
* The settled storage totals are off by exactly what faults have added. A download over an existing
  file counts it twice (`StorageRuns.OverwriteCountsTwice`), a cleanup that misses its target never
  reports what it deleted (`StorageRuns.MissedCleanupIsNotReported`), and a run stays exact if and
  only if the guard of every step holds (`StorageRuns.RunIsExact`).
* A download that cannot seed the cache because counting fails counts its file twice when the
  delta is applied (`Handlers.FailedSeedingCountsTwice`); `Handlers.DownloadKeepsTotals` has the
  exact condition. A download of a rare video takes it out of the rare videos without marking the
  cached count (`Handlers.DownloadKeepsRareCount`).
* `RareCount.RunIsRareExact` says exactly when the cached count of rare videos stays right or marked.
  Besides downloads of rare videos and cleanups that report nothing in the end there are four ways for
  it to go wrong unmarked: a recount comes between the eviction of a rare video and the cleanup's report
  (`RareCount.EvictingRareBreaksTheCount`); a check makes a video rare while it is being downloaded, a
  recount clears the mark, and the download's last state write takes it out again
  (`RareCount.LateStateIsReachable`); a video turns rare, or stops being rare, between the cleanup's
  listing and its eviction, even when no rare video is ever listed
  (`RareCount.StaleListingIsReachable`); or a check compares with a listing that is out of date, as
  from before an eviction (`RareCount.StaleCheckIsReachable`).
* Enqueue looks before it inserts, in two queries. A run stays free of rival jobs if and only if every
  insert finds no active rival when it is done (`EnqueueRace.RaceIsExact`); two callers that both look
  first end with two workers downloading one video (`EnqueueRace.RaceDoublesDownload`).
* The limiter keeps its rate over every second exactly when the rate divides a second
  (`Limiter.RateIsKeptIfItDividesASecond`); otherwise one call too many fits, and above 10^9 per
  second nothing is limited.
* The jitter's bounds on the backoff hold in every run exactly when the jitter is at most one half
  (`Backoff.JitterBoundsHold`).
* An entry of the creators file that fails asks for nobody, so a creator with no other entry is paused:
  `FileSync.ActiveIffDecided` says from the entries alone who is active afterwards, and
  `FileSync.UnknownNamePauses` is an example.

## Model

| member | source | states |
|---|---|---|
| WorkQueue.HandleKeepsTidy | internal/library/queue.go:216-232 | the locked part of an enqueue keeps the queue tidy: dirty within processing, pending apart from processing, one token for each pending creator and no other |
| WorkQueue.SendKeepsTidy | internal/library/queue.go:234-234 | the send outside the lock keeps the queue tidy |
| WorkQueue.ReceiveKeepsTidy | internal/library/queue.go:136-145 | taking a creator from the channel keeps the queue tidy |
| WorkQueue.BeginKeepsTidy | internal/library/queue.go:149-152 | the first locked part of processing keeps the queue tidy |
| WorkQueue.FinishKeepsTidy | internal/library/queue.go:156-163 | the second locked part, which turns dirty into pending, keeps the queue tidy |
| WorkQueue.ResendKeepsTidy | internal/library/queue.go:172-177 | the consumer's send to its own channel keeps the queue tidy |
| WorkQueue.TokensArePending | internal/library/queue.go:136-235 | in a tidy queue the tokens in the channel, in the sender's hand and in the consumer's hand are together exactly the pending creators, each once |
| Syncer.Syncer.Enqueue | internal/library/queue.go:216-232 | changes the three sets as the enqueue transition does and says whether a send must follow |
| Syncer.Syncer.Send | internal/library/queue.go:234-234 | appends to the channel, which must have room |
| Syncer.Syncer.Receive | internal/library/queue.go:136-145 | takes the first id from the channel |
| Syncer.Syncer.Begin | internal/library/queue.go:149-152 | changes the sets as the begin transition does |
| Syncer.Syncer.Finish | internal/library/queue.go:156-163 | changes the sets as the finish transition does and says whether a re-send must follow |
| Syncer.Syncer.HandleCreator | internal/library/queue.go:216-235 | wherever the consumer is, an enqueue marks a creator under rebuild dirty and otherwise makes it pending, queues it once, keeps the queue tidy, and waits only on a full channel, never while fewer creators are pending than the channel holds |
| Syncer.Syncer.RunQueue | internal/library/queue.go:136-179 | left alone the consumer builds every pending creator exactly once, in channel order, and leaves all three sets and the channel empty |
| LibrarySync.StepKeepsInv | internal/library/queue.go:91-235 | every step of writers, broker, event loop, consumer and reconcile keeps the invariant that each wrong directory has a repair under way or owed, or is waived |
| LibrarySync.RunKeepsInv | internal/library/queue.go:91-235 | so does every run, and the capacities never change |
| SyncProgress.NoLostUpdate | internal/library/queue.go:136-235 | over every interleaving, once nothing is in flight every directory shows the database, except where a change was silent or dropped or a rebuild failed and nothing repaired it since |
| SyncProgress.WaivedNeverGrows | internal/library/queue.go:192-214 | without such faults the set of excepted creators never grows |
| SyncProgress.ReconcileRepairs | internal/library/queue.go:101-134 | whatever had gone wrong before and whatever runs between the first of a reconcile's two queries for a creator and its write, if the creator's source stays the same the write leaves the directory right, and no longer excepted unless the consumer holds an older copy |
| SyncProgress.NoSendBlocks | internal/library/queue.go:172-177 | in every reachable state a pending send finds room, if the distinct creators are at most the channel's capacity |
| SyncProgress.StuckForever | internal/library/queue.go:172-177 | a consumer that waits to send to the full channel waits forever, whatever anyone does |
| SyncProgress.StuckIsReachable | internal/library/queue.go:136-235 | for every capacity a run that announces only the creators 1 to capacity + 1 gets the consumer stuck |
| SyncProgress.InternalStepsFall | internal/library/queue.go:147-235 | every step of the event loop and of the consumer lowers a measure of the remaining work |
| SyncProgress.SomeoneCanMove | internal/library/queue.go:136-235 | while the creators fit the channel and the queue is not idle, one of the two can move |
| SyncProgress.Drains | internal/library/queue.go:136-235 | once announcements stop the two finish in boundedly many steps, and then every directory that is not excepted shows the database |
| Naming.SquashLoop | internal/library/path.go:37-51 | the builder loop keeps allowed runes and turns every run of others into one underscore |
| Naming.SanitizedIsClean | internal/library/path.go:32-57 | a sanitised name is not empty, has only allowed runes, no separator at either end, no slash and no dot |
| Naming.SanitizeIsIdempotent | internal/library/path.go:32-57 | sanitising a sanitised name changes nothing |
| Naming.RunBecomesUnderscore | internal/library/path.go:37-51 | every maximal run of runes that are not allowed becomes one underscore, whatever surrounds it |
| Naming.SanitizeKeepsLetters | internal/library/path.go:32-57 | a name without a letter becomes "unknown"; any other keeps all its letters in order and is the squashed name but for white space and separators at its ends |
| Naming.OneOwner | internal/library/projector.go:198-202 | a directory name has the prefix of at most one uid without underscores |
| Naming.OwnersOfName | internal/library/projector.go:198-202 | for all uids, the prefix test of u accepts the directory of v if and only if v is u, or v continues u with an underscore, or u continues v with an underscore and the sanitised name of v makes up for the rest |
| Naming.NoUnderscoreNoMixing | internal/library/projector.go:198-202 | if neither uid holds an underscore, it accepts exactly the own directories |
| Naming.UnderscoreMixesOwners | internal/library/projector.go:198-202 | the prefix test of uid a accepts every directory of uid a_b |
| Naming.NameMixesOwners | internal/library/projector.go:198-202 | the prefix test of uid a_b accepts the directory of uid a named b_c |
| ProjectionProofs.RebuildIsFaithful | internal/library/projector.go:43-179 | after a rebuild the creator has a directory if and only if some stored video is DOWNLOADED, STABLE or OUT_OF_PRINT; it links the first two kinds under `videos`, the third under `rare` and nothing else; both manifests tell exactly that, with sizes, counts and the newest video first; other files in the directory stay |
| ProjectionProofs.IndexIgnoresOrder | internal/library/projector.go:139-168 | the projected list does not depend on the order in which the videos are listed |
| ProjectionProofs.RebuildTouchesOnlyOwn | internal/library/projector.go:188-212 | a rebuild leaves every directory alone that does not carry its creator's prefix |
| ProjectionProofs.RebuildReadsOnlyOwn | internal/library/projector.go:43-131 | what it makes of the creator's directories depends on those alone |
| ProjectionProofs.RepeatChangesOnlyStamps | internal/library/projector.go:72-88 | repeating a rebuild later changes nothing but the two time stamps, and repeating it at the same time changes nothing |
| ProjectionProofs.LaterRebuildReplaces | internal/library/projector.go:43-131 | of two rebuilds of one creator only the clock of the later one matters |
| ProjectionProofs.RebuildIgnoresClock | internal/library/projector.go:72-88 | but for the stamps, what a rebuild makes of its creator's directories depends neither on when it is done nor on earlier stamps |
| ProjectionProofs.RebuildsCommute | internal/library/projector.go:43-131 | rebuilds of two different creators without underscores in their uids, each at its own time, give the same tree in either order |
| ProjectionProofs.RunOnSlice | internal/library/queue.go:181-190 | after any run of rebuilds, each stamped at its own time, a creator's directories are those of one rebuild from the start at the time of its last turn, or untouched if the run skipped it |
| ProjectionProofs.FullOnSlice | internal/library/queue.go:109-134 | a full rebuild, each creator at its own time, leaves a listed creator exactly what one rebuild of it at that time would |
| ProjectionProofs.IncrementalEqualsFull | internal/library/queue.go:109-190 | incremental rebuilds in any order, with repetitions and each at its own time, leave every listed creator what a full rebuild at any other times leaves, but for the stamps, if and only if they include every creator that is not up to date (creators distinct, no underscore in a uid) |
| ProjectionProofs.RebuiltIsUpToDate | internal/library/queue.go:181-190 | a creator that a run rebuilt is up to date afterwards, so a later run may skip it |
| ProjectionProofs.RebuildReadsOwnFiles | internal/library/projector.go:139-168 | a rebuild reads no stored files but those of the creator's own videos |
| ProjectionProofs.UpToDateReadsOwn | internal/library/queue.go:181-190 | whether a creator is up to date depends on its own files and directories alone |
| ProjectionProofs.LastBuiltIsUpToDate | internal/library/queue.go:181-190 | over any history of rebuilds in a changing archive, a creator is up to date once it has been rebuilt and its own videos and files have not changed since |
| ProjectionProofs.FullRebuildIsExact | internal/library/queue.go:109-134 | from any tree a full rebuild leaves a directory for exactly the listed creators with a video to show by its state and file, no other directory, and each one faithful in that sense and stamped with the time of its turn (creators and video ids distinct, no underscore in a uid) |
| Projector.UniqueIdsBuild | internal/library/projector.go:91-102 | a creator with a uid and distinct video ids rebuilds without a link clash |
| Projector.CollectProjected | internal/library/projector.go:139-168 | the loop and the sort give the projected list |
| Projector.Projector.RemoveLegacy | internal/library/projector.go:188-212 | removes the creator's directories under other names and nothing else |
| Projector.Projector.MakeLinks | internal/library/projector.go:91-121 | succeeds exactly when no link name is taken, and then links, counts and bytes are those of the list |
| Projector.Projector.FillDirectory | internal/library/projector.go:62-130 | rewrites one directory as specified and no other |
| Projector.Projector.RebuildCreator | internal/library/projector.go:43-131 | fails exactly without a uid or on a link clash; on success the tree is the specified one, on failure other creators' directories are untouched |
| Projector.Projector.RemoveStale | internal/library/queue.go:237-273 | keeps exactly the directories that were seen |
| Projector.Projector.RebuildEach | internal/library/queue.go:119-132 | succeeds exactly when every creator rebuilds, with the specified tree and the set of their places; even on failure it touches no directory that belongs to none of the creators |
| Projector.Projector.RebuildAll | internal/library/queue.go:109-134 | on success the tree is that of a full rebuild; on failure no stale directory is removed and only directories of listed creators are touched |
| Exporter.ListCreatorsForRebuild | internal/library/export.go:57-77 | lists every qualifying creator once in ascending order for any page size |
| Exporter.ListForLibraryAfter | internal/repo/mysql/creator_repo.go:244-283 | the page of the first qualifying ids above the cursor, fifty if the limit is not positive |
| StorageCache.Cache.ApplyStorageDelta | internal/worker/handler.go:784-830 | the locked update: seeds an unset cache, recounts a marked one, adds the delta and floors at zero; it fails exactly when a scan or count that it needs fails, and then changes nothing |
| StorageCache.Cache.SeedIfUnset | internal/worker/handler.go:870-881 | seeds only an unset cache and keeps its mark |
| StorageCache.Cache.SyncRareOnCheck | internal/worker/handler.go:490-506 | marks the cache exactly when a video becomes rare or stops being rare |
| StorageRuns.RunKeepsBooks | internal/worker/handler.go:508-589 | over every interleaving of seeding, downloads, checks and cleanups, with overwritten files, lost deltas and failed evictions, cached totals plus deltas on their way equal the disk plus the drift that these faults have added |
| StorageRuns.SettledCacheIsOffByDrift | internal/worker/handler.go:784-882 | with no delta on its way the cached totals are right if and only if the drift is zero |
| StorageRuns.FloorsNeverReached | internal/worker/handler.go:820-825 | in an exact state no delta takes the bytes or the file count to the floor at zero |
| StorageRuns.StepKeepsDrift | internal/worker/handler.go:784-830 | from an exact state the drift stays zero if and only if the guard of the step holds, or it evicts an existing file |
| StorageRuns.StepIsExact | internal/worker/handler.go:249-324 | from an exact state the next state is exact if and only if the guard of the step holds: a free path for a download, an existing settled file for an eviction, no lost delta, a target reached or nothing deleted |
| StorageRuns.RunIsExact | internal/worker/handler.go:508-589 | a run from an exact state stays exact throughout if and only if every guard holds when its step is taken |
| StorageRuns.OverwriteCountsTwice | internal/worker/handler.go:555-588 | from any exact settled state a download over an existing file leaves one file and the old size too many |
| StorageRuns.MissedCleanupIsNotReported | internal/worker/handler.go:310-315 | from any exact state a cleanup that misses its target leaves the totals off by all that it deleted |
| StorageRuns.StorageIsConserved | internal/worker/handler.go:249-324 | over every run whose guards hold, whether or not cleanups may evict rare videos, cached totals plus deltas on their way are exactly the disk, and bytes and files stay above their floors |
| StorageRuns.DownloadGoesOn | internal/worker/handler.go:538-588 | whatever others have done to the cache meanwhile, a run leads on from any seeding or ready download to its file on disk, with nothing else on disk changed and its delta reported |
| RareCount.StepIsRareExact | internal/worker/handler.go:355-589 | from a state in which every held count of rare videos is right, pending reports included, or excused by a mark, the next state is one if and only if the guard of the step holds: no recount while a cleanup has rare videos to report, none of them lost or miscounted, no unmarked change of a rare video |
| RareCount.RunIsRareExact | internal/worker/handler.go:249-589 | every count of a run stays right or excused if and only if every guard holds when its step is taken |
| RareCount.RareCountIsRightOrDirty | internal/worker/handler.go:467-589 | over every guarded run, evictions of rare videos included, the cached rare count is right but for what a cleanup has yet to report, or marked, whenever no check is between its write and its mark, although seeding counts outside the lock; so that report never takes it below zero |
| RareCount.SparingRunIsGuarded | internal/worker/handler.go:249-589 | a run in which no eviction and no state write of a download takes a rare video, and that reports none and checks by a current listing, is guarded |
| RareCount.SparedCountIsRightOrDirty | internal/worker/handler.go:467-589 | over every such run the count is right or marked outside the window of a check, and never reaches its floor |
| RareCount.StaleListingBreaksTheCount | internal/worker/handler.go:388-390 | from any state with a right unmarked count, evicting a rare video that was listed as not rare leaves the count one too high and unmarked |
| RareCount.StaleReportBreaksTheCount | internal/worker/handler.go:388-390 | evicting a video that was listed as rare and no longer is leaves it one too low |
| RareCount.StaleCheckBreaksTheCount | internal/worker/handler.go:455-472 | a check that finds unavailable a video it had listed as rare, and that has been evicted since, leaves it one too low |
| RareCount.LateStateBreaksTheCount | internal/worker/handler.go:424-589 | from any state with a set cache, two downloads with their files on disk and nothing rare to report: a check makes the one's video rare and marks the cache, the other's delta has it recounted, and the first ends; the count is then one too high, unmarked and with neither delta outstanding |
| RareCount.LateStateIsReachable | internal/worker/handler.go:424-589 | and a run from the start gets there |
| RareCount.StaleListingIsReachable | internal/worker/handler.go:269-308 | a run in which no candidate was rare when it was listed ends settled with an unmarked wrong count |
| RareCount.StaleCheckIsReachable | internal/worker/handler.go:444-472 | so does a run whose check goes by a listing from before an eviction |
| RareCount.EvictingRareBreaksTheCount | internal/worker/handler.go:805-819 | a run in which a rare video is evicted and recounted before the cleanup reports it ends settled with an unmarked wrong count |
| RareCount.EvictingRareReachesTheFloor | internal/worker/handler.go:826-828 | such a run can leave less in the cache than the cleanup has yet to report, so the floor at zero is reached |
| Handlers.ScanStorage | internal/worker/handler.go:644-689 | the walk finds the sum of the sizes and the number of files |
| Handlers.Handler.EnsureSnapshot | internal/worker/handler.go:832-882 | sets an unset cache to what the disk and the database hold, leaves it unset if the count fails, and leaves a set one alone |
| Handlers.Handler.HandleDownload | internal/worker/handler.go:508-590 | a stored file is left alone; otherwise the video ends FAILED if and only if the platform refused for good, DOWNLOADED if and only if file, record and last write are there, DOWNLOADING if and only if only that write is missing, and else NEW; no other field or video changes; and what the records, the disk and the cache are afterwards |
| Handlers.Handler.Transfer | internal/worker/handler.go:538-589 | the same from the seeding of the cache on |
| Handlers.Handler.PublishStorageChanged | internal/worker/handler.go:754-782 | applies the delta of a finished download to the disk as it is, or loses it when a count that it needs fails |
| Handlers.Handler.DeleteRecords | internal/worker/handler.go:534-536 | removes exactly the records of the video |
| Handlers.RecordsExactly | internal/worker/handler.go:534-578 | a DOWNLOADED video without its file loses all its records, a saved file gets one, and the records of every other video stay as often as they were |
| Handlers.DownloadIsRun | internal/worker/handler.go:508-590 | what a handled download leaves on disk, in the video table and in the cache, whether or not the video was rare, is what a run of the interleaving model leaves, with every state write as a step, unless the seeding of the cache fails |
| Handlers.DownloadKeepsTotals | internal/worker/handler.go:538-588 | a download to a free path leaves a cache that agrees with the disk if and only if the cache was set or could be seeded and, once the file is saved, the final state could be set and a count that was needed worked |
| Handlers.FailedSeedingCountsTwice | internal/worker/handler.go:789-816 | with the cache unset and seeding failed, a finished download is in the scan and in the delta, so one file and its size are too many |
| Handlers.DownloadKeepsRareCount | internal/worker/handler.go:546-588 | a good rare count stays good if and only if the video was not rare, the cache was marked already, or it was unset and could not be seeded |
| Handlers.Handler.HandleCheck | internal/worker/handler.go:444-487 | videos and cache after the loop, which stops at the first refused wait and skips failed probes and saves; it succeeds exactly when none of these happens |
| Handlers.LetThroughExact | internal/worker/handler.go:445-447 | the probes that go ahead are all those before the first that the limiters refuse |
| Handlers.CheckDecides | internal/worker/handler.go:444-471 | a video checked once ends OUT_OF_PRINT if it is gone from the platform, STABLE if it is there and was published before the cutoff, and otherwise, or if the probe or the save failed, as it was |
| Handlers.CheckIsRun | internal/worker/handler.go:444-487 | a check job is a run of the interleaving model |
| Handlers.CheckKeepsRareCount | internal/worker/handler.go:444-506 | a check job leaves a rare count that is right or marked, if it found one |
| Cleanup.Cleaner.DeleteCandidate | internal/worker/handler.go:355-413 | the file goes in every case, then the record; it fails exactly when the record is missing, or none is left and the video is missing; a video without a record left becomes DELETED, a rare one counted; the freed bytes are those of the file that was there |
| Cleanup.Cleaner.HandleCleanup | internal/worker/handler.go:249-353 | skipped exactly when no limit is set or the used bytes are at most the limit, the safe size or else the maximum; otherwise goes through the victims, and succeeds exactly when used bytes less freed bytes are at most the limit |
| Cleanup.LessIsTotal | internal/worker/handler.go:620-642 | the eviction order is a strict total order on candidates with distinct file ids |
| Cleanup.LessDecides | internal/worker/handler.go:620-642 | of two candidates with different file ids exactly one goes first |
| Cleanup.VictimsExact | internal/worker/handler.go:280-339 | the victims are the candidates that have no date or are at least as old as the retention, each once, in the eviction order |
| Cleanup.VictimsSpare | internal/worker/handler.go:620-642 | no video that is not rare goes after a rare one; among equals the smaller creator, the less viewed, the less liked, the larger file, the lesser title and the older record go first |
| Cleanup.VictimsIgnoreListingOrder | internal/worker/handler.go:269-287 | they do not depend on the order of the listing |
| Cleanup.SweepStops | internal/worker/handler.go:295-308 | a sweep that meets no error deletes exactly the shortest beginning whose freed bytes reach the target, or all; a video becomes DELETED exactly when its last record goes |
| Cleanup.CleanupIsShortestPrefix | internal/worker/handler.go:249-353 | over the limit, an error-free cleanup deletes exactly the shortest beginning of the victims that brings the disk down to the limit, or all; it succeeds if and only if deleting all would, and then the rest and the last file together exceed the limit |
| Cleanup.ReachedCleanupKeepsTotals | internal/worker/handler.go:318-322 | the delta it reports keeps totals that agree with the disk, when each candidate has a file of its own |
| JobTable.Repo.Enqueue | internal/repo/mysql/job_repo.go:16-75 | refuses exactly when an active job of the kind, for a download of the video, exists; otherwise adds one fresh row and changes no other |
| JobTable.Repo.FetchQueued | internal/repo/mysql/job_repo.go:77-172 | claims the first queued jobs whose time has come, in id order, ten if the limit is not positive: a due job that is not claimed has a greater id and the limit is used up; a claimed row is running from now on, and no other changes |
| JobTable.Repo.UpdateStatus | internal/repo/mysql/job_repo.go:174-194 | sets status and times of one row; queued clears both times |
| JobTable.RunKeepsInv | internal/repo/mysql/job_repo.go:16-194 | over every run with restarts no two rival jobs are active, times match status, each busy worker has a running job of its own, and no id is given out again |
| JobTable.DownloadIsExclusive | internal/worker/worker.go:94-142 | over every run no two workers are inside the download of one video |
| JobTable.OneActivePerKind | internal/repo/mysql/job_repo.go:59-75 | over every run at most one job of each other kind is active, and queued jobs have no times, running ones a start, ended ones both |
| JobTable.EndedStays | internal/repo/mysql/job_repo.go:174-194 | an ended job never changes again, and no job disappears or changes its kind or video |
| EnqueueRace.ContestedIsLookup | internal/repo/mysql/job_repo.go:59-75 | an active rival is always found by the look-up, and what the look-up finds is an active rival unless the request is a download that names no video |
| EnqueueRace.InsertKeepsNoRivals | internal/repo/mysql/job_repo.go:30-56 | an insert keeps the table free of active rivals if and only if no active rival exists at the insert |
| EnqueueRace.RaceIsExact | internal/repo/mysql/job_repo.go:16-57 | with look-up and insert as two steps, a run of the job system never has rivals if and only if every insert finds none when it is done |
| EnqueueRace.BothLookThenInsert | internal/repo/mysql/job_repo.go:16-57 | for every request there is a run from the empty system in which two callers look, both insert, and two rivals are active |
| EnqueueRace.RaceDoublesDownload | internal/worker/worker.go:94-142 | such a run can continue until two workers are downloading the same video |
| Worker.Worker.ConsumeOnce | internal/worker/worker.go:94-142 | claims the claimable job with the least id, if any: it is started now and ends succeeded or failed at the later time, or stays running if that update is lost |
| Worker.TurnIsRun | internal/worker/worker.go:94-142 | a turn of a worker is a run of the job system |
| Recovery.App.RequeueRunningJobs | internal/app/app.go:354-378 | requeues exactly the running jobs that the scan returned |
| Recovery.App.RecoverMissingDownloaded | internal/app/app.go:437-481 | each scanned DOWNLOADED video without a non-empty file becomes NEW and loses its file records; nothing else changes |
| Recovery.App.ActiveDownloads | internal/app/app.go:396-413 | the videos that a scanned active download job names |
| Recovery.App.RecoverDownloading | internal/app/app.go:380-435 | each of at most 500 scanned DOWNLOADING videos that none of at most 1000 scanned active download jobs names gets the state its file speaks for |
| Recovery.App.RecoverRuntimeState | internal/app/app.go:341-352 | the three passes in order |
| Recovery.RecoveryRepairs | internal/app/app.go:341-481 | from any database and disk, if the scans cover the rows, no job runs afterwards, every DOWNLOADED video has a non-empty file and every DOWNLOADING video a queued download job |
| Recovery.RecoveredVideo | internal/app/app.go:380-481 | exactly what becomes of each video: a scanned DOWNLOADED one without a non-empty file is NEW; a scanned DOWNLOADING one that no scanned queued or running job names is DOWNLOADED if its non-empty file is there and NEW if not; all others keep their state, and all keep their path |
| Recovery.RecoveredVideoOfAll | internal/app/app.go:341-481 | when the scans cover the rows, this holds of every video and every job of the tables |
| Recovery.RecoveredRows | internal/app/app.go:354-481 | exactly the records of the scanned DOWNLOADED videos without their file are deleted, and exactly the scanned running jobs are queued without times |
| Recovery.RecoverySparesTheRest | internal/app/app.go:341-481 | jobs that are not running, videos that need no repair, videos that an active job awaits, and the records of files that are not missing are untouched |
| Recovery.RecoveryOfSoundChangesNothing | internal/app/app.go:341-481 | recovering a sound state changes nothing |
| Recovery.RecoveryIsIdempotent | internal/app/app.go:341-481 | a second recovery changes nothing |
| Broker.Broker.Subscribe | internal/live/broker.go:28-43 | registers one subscriber under a fresh id |
| Broker.Broker.Publish | internal/live/broker.go:45-56 | whatever order the map is visited in: a receiver that waits at an empty channel gets the event, otherwise a channel with fewer events than its capacity buffers it last, and a full one is closed and removed; no closed channel is sent to or closed |
| Broker.Broker.RemoveSubscriber | internal/live/broker.go:58-66 | closes and removes one subscriber, once |
| Broker.PublishKeepsInv | internal/live/broker.go:45-56 | publishing keeps every subscriber's record of events free of gaps |
| Broker.DeliveryIsGapFree | internal/live/broker.go:28-66 | over every run a registered subscriber has received or still holds exactly the events published since it came, in order, and a closed one exactly those up to its closing |
| Broker.RunRemembers | internal/live/broker.go:28-66 | no run forgets a subscriber or moves the points where it came and was closed |
| Broker.GoneExactlyIfDropped | internal/live/broker.go:28-66 | over every run a subscriber is gone if and only if it was removed or an event was published while its channel was full and no receiver took it |
| Broker.BufferedIsReceivable | internal/live/broker.go:28-66 | whatever is buffered can be received to the last event, also after the channel was closed |
| Scorer.UniqueStrings | internal/discovery/scorer.go:197-215 | the loop gives the trimmed values once each in order of first appearance |
| Scorer.UniqueExactly | internal/discovery/scorer.go:197-215 | these are distinct, and they are exactly the non-empty trimmed values |
| Scorer.ScoreKeywordRisk | internal/discovery/scorer.go:63-92 | the positive scores summed and capped, with the trimmed keywords, or nothing if there are none |
| Scorer.ScoreDeletionTrace | internal/discovery/scorer.go:138-158 | the number of distinct markers times the weight, capped, or nothing if that is zero |
| Scorer.TraceCountsMarkers | internal/discovery/scorer.go:138-158 | the trace factor depends only on which markers occur |
| Scorer.Score | internal/discovery/scorer.go:30-61 | the total is the sum of the rows, and the rows are those of the six factors in order |
| Scorer.ScoreRows | internal/discovery/scorer.go:30-61 | each row is a different factor and none is worth nothing |
| Scorer.RowsTell | internal/discovery/scorer.go:63-195 | the rows are exactly those that are due and not zero: capped keyword points, activity from 1, 3 and 6 videos on, similarity by its level, capped trace weights, a bonus for 1 to 500000 followers, a penalty from 5000000 on, and a penalty for each ignore |
| Scorer.PointsAddUp | internal/discovery/scorer.go:67-76 | points add up over the hits, and only positive scores count |
| Scorer.KeywordsExactly | internal/discovery/scorer.go:67-80 | the keywords shown are the non-empty trimmed ones with a positive score |
| ScoreMerge.BuildScoreDetails | internal/discovery/related_discoverer.go:411-433 | the two loops with their index give the merged rows |
| ScoreMerge.MergeReads | internal/discovery/related_discoverer.go:411-433 | factor by factor: similarity, account size and feedback come from the new score, of every other factor the greater row stays, and factors stay distinct |
| ScoreMerge.MergeReplaces | internal/discovery/related_discoverer.go:411-433 | similarity, account size and feedback are what the new score says or absent; of every other factor the greater row stays, of equal ones the stored |
| ScoreMerge.PlaceEach | internal/discovery/related_discoverer.go:511-537 | the map and the key list give each key once, with its last item, in order of first appearance |
| ScoreMerge.PlacedReads | internal/repo/mysql/candidate_repo.go:427-446 | keys of the result are unique and each reads as the last item with it |
| ScoreMerge.MergedSourcesRead | internal/discovery/related_discoverer.go:511-537 | merged sources have unique trimmed keys, new ones win, and every stored key stays |
| ScoreMerge.RelatedSources | internal/discovery/related_discoverer.go:511-537 | after a related run exactly the sources are stored that are the last of their trimmed kind and value, the stored ones counted before the new |
| ScoreMerge.ListedByWeight | internal/repo/mysql/candidate_repo.go:159-183 | stored sources are read back the heaviest first |
| ScoreMerge.SumScoreDetails | internal/discovery/related_discoverer.go:715-721 | the sum of the deltas |
| ScoreMerge.SumReads | internal/discovery/related_discoverer.go:715-721 | lists with distinct factors that read alike have the same sum |
| ScoreMerge.Candidates.WriteKeyword | internal/discovery/keyword_discoverer.go:135-161 | one candidate of a keyword run: its score, sources and rows are replaced |
| ScoreMerge.Candidates.WriteRelated | internal/discovery/related_discoverer.go:146-173 | one candidate of a related run: rows and sources are merged with the stored ones and the score is their sum |
| ScoreMerge.KeywordForgets | internal/discovery/keyword_discoverer.go:135-161 | a keyword run leaves the rows of the new score alone, and of the sources the last of each kind and value |
| ScoreMerge.RelatedKeepsKeywords | internal/discovery/related_discoverer.go:146-173 | a related run leaves the stored keyword row as it is |
| ScoreMerge.RunsKeepScores | internal/discovery/keyword_discoverer.go:135-161 | from empty tables, after any sequence of keyword and related runs, every stored score is the sum of the stored rows, with factors and source keys unique |
| ScoreMerge.RelatedNeverLowers | internal/discovery/related_discoverer.go:411-433 | a related run never lowers a factor it keeps |
| ScoreMerge.RelatedRepeats | internal/discovery/related_discoverer.go:411-433 | repeating a related run on the same inputs changes no row, no total and no source |
| RelatedTopK.CompareIsTotalPreorder | internal/discovery/related_discoverer.go:549-566 | the comparison is a total preorder that never ties on distinct uids |
| RelatedTopK.CompareIsAhead | internal/discovery/related_discoverer.go:549-566 | a hit comes first if its match is strong rather than medium or medium rather than weaker, then if it is newer, then if it is watched more, then if its uid is less |
| RelatedTopK.Collect | internal/discovery/related_discoverer.go:185-257 | fails exactly on a search error that is not a risk error or an unreadable candidate; else keeps what folding the answered hits keeps |
| RelatedTopK.KeptIsFirstBest | internal/discovery/related_discoverer.go:244-248 | a candidate is kept exactly if it has an eligible hit, and then with the first of its best hits |
| RelatedTopK.SkippedExactly | internal/discovery/related_discoverer.go:216-235 | the skipped uids are exactly those of tracked and of blocked hits |
| RelatedTopK.ListedExactly | internal/discovery/related_discoverer.go:200-250 | listed is exactly who was found with a uid and is neither tracked nor blocked; skipped are exactly the tracked and the blocked that were found |
| RelatedTopK.FailsExactly | internal/discovery/related_discoverer.go:185-235 | the collection fails exactly on an error that is no risk error, or when the row of a returned hit with an untracked uid cannot be read |
| RelatedTopK.RankedHits | internal/discovery/related_discoverer.go:252-257 | lists the kept hits in some order, sorts and cuts them |
| RelatedTopK.TopKIsUnique | internal/discovery/related_discoverer.go:539-547 | whatever order the map is iterated in and whatever sort is used, the cut list is the same |
| RelatedTopK.TopKIsBest | internal/discovery/related_discoverer.go:539-547 | it is ordered, has the limit's length or all hits, and every hit kept comes ahead of every hit left out |
| FileSync.Service.FindByPlatformUid | internal/repo/mysql/creator_repo.go:126-149 | the one row with that platform and uid, or none |
| FileSync.Service.UpsertFromFile | internal/creator/service.go:216-242 | what one entry does to the table, keeping ids and the unique key; a removed creator is skipped, a synced one is published |
| FileSync.EntryTells | internal/creator/service.go:94-138 | field by field: an entry fails exactly if it has no uid and none is known for its name, is skipped exactly if its creator was removed, and otherwise leaves the given or found uid, platform "bilibili" and status "active" by default, and the best name known |
| FileSync.Service.PauseMissingActive | internal/creator/service.go:294-329 | for any page size the cursor visits every creator that was active exactly once in order, although pausing shrinks the set; exactly those not to keep and not failing are paused and published |
| FileSync.FileSyncer.SyncOnce | internal/creator/syncer.go:56-108 | a file that is missing, malformed, or, unless forced, no newer and of the same size changes nothing; otherwise the table is that of a full sync and the time and size are remembered |
| FileSync.SyncedRows | internal/creator/service.go:216-242 | a synced row has the status of the last entry that asked for it; rows not synced and rows already removed are unchanged |
| FileSync.SyncIsExact | internal/creator/syncer.go:81-108 | without failing updates the active creators are exactly the synced ids whose status after the upserts is active; removed ones are unchanged, and others change only from active to paused |
| FileSync.ActiveOnlyIfNamed | internal/creator/syncer.go:81-108 | a row that is active afterwards is decided by an entry that says active |
| FileSync.UpsertsSettle | internal/creator/service.go:216-242 | whether a creator is synced, and with which status, follows from the entry that decides it: the last that asks for it, or the first that asks for removal |
| FileSync.ActiveIffDecided | internal/creator/syncer.go:81-108 | a creator is active after a sync if and only if it was not removed before and the entry that decides it exists and says active |
| FileSync.FailedEntryPauses | internal/creator/syncer.go:85-91 | an active creator is paused when every entry of the file fails |
| FileSync.UnknownNamePauses | internal/creator/service.go:114-121 | for example when the only entry has a name that the resolver does not know and no uid |
| Paging.ListAfter | internal/repo/mysql/creator_repo.go:206-242 | the first ids above the cursor in ascending order, as many as the limit allows |
| Paging.PageIsExact | internal/repo/mysql/creator_repo.go:206-242 | a page holds ids above the cursor only, and misses one only if it is full of lesser ones |
| Paging.PageMovesOn | internal/creator/service.go:304-327 | what is listed so far and what lies above the new cursor are together the whole list, and less is left |
| Limiter.Limiter.constructor | internal/worker/limiter.go:15-20 | the interval is a second divided by the rate, rounded down |
| Limiter.Limiter.Reserve | internal/worker/limiter.go:22-34 | the later of the arrival and an interval after the last reservation; without an interval the arrival |
| Limiter.Limiter.ReserveEach | internal/worker/limiter.go:22-34 | a run of calls reserves the schedule |
| Limiter.ScheduleIsSpaced | internal/worker/limiter.go:26-33 | reservations are at least an interval apart and never before their arrivals |
| Limiter.ScheduleIsEarliest | internal/worker/limiter.go:26-33 | no schedule that is so spaced and serves nobody before arrival is earlier at any place |
| Limiter.WindowHoldsAtMost | internal/worker/limiter.go:15-34 | a half-open window of k intervals holds at most k reservations |
| Limiter.RateIsKeptIfItDividesASecond | internal/worker/limiter.go:19-19 | every one-second window of every schedule holds at most the rate if and only if the rate divides a second |
| Limiter.NobodyWaits | internal/worker/limiter.go:15-25 | without a rate, and above 10^9 calls a second, every call goes ahead on arrival |
| SignedQuery.EncodeLoop | internal/platform/bilibili/wbi.go:86-100 | the byte loop gives the percent-encoding |
| SignedQuery.EncodedExactly | internal/platform/bilibili/wbi.go:86-115 | byte by byte an unreserved character (section 2.3 of RFC 3986) stays and any other becomes a percent sign and two hexadecimal digits |
| SignedQuery.ListKeys | internal/platform/bilibili/wbi.go:53-57 | the keys sorted, whatever order the map is iterated in |
| SignedQuery.Sign | internal/platform/bilibili/wbi.go:46-73 | the signed part, then the signature over it and the key |
| SignedQuery.KeysAscend | internal/platform/bilibili/wbi.go:53-57 | keys appear in ascending order, each once |
| SignedQuery.DecodeEncode | internal/platform/bilibili/wbi.go:86-115 | percent-decoding (section 2.1 of RFC 3986) undoes the encoding of every byte string |
| SignedQuery.SplitJoined | internal/platform/bilibili/wbi.go:59-67 | splitting at ampersands gives back the joined parts |
| SignedQuery.SignedPartParses | internal/platform/bilibili/wbi.go:46-69 | reading the signed part back gives exactly the sanitised parameters with wts set |
| SignedQuery.SignedPartTells | internal/platform/bilibili/wbi.go:46-84 | reading the signed part back gives the time under wts as a decimal number and every other parameter without the characters ! ' ( ) *, and nothing else |
| SignedQuery.SignedPartIsInjective | internal/platform/bilibili/wbi.go:46-69 | two signed parts are equal if and only if the sanitised parameters are |
| SignedQuery.SignatureIsLastPart | internal/platform/bilibili/wbi.go:69-72 | the whole query splits into the signed parts and the signature |
| MixinKey.CalcMixinKey | internal/platform/bilibili/wbi.go:26-44 | empty below 64 characters, else the 32 characters at the first 32 places of the table |
| MixinKey.KnownKey | internal/platform/bilibili/wbi_test.go:5-13 | the table gives the known mixin key for the known pair of keys |
| Backoff.Sane | internal/platform/bilibili/client.go:189-200 | every configuration becomes usable: a base that is not positive is 2 seconds, a cap 30 seconds, a negative jitter none; a usable one stays |
| Backoff.Risk.constructor | internal/platform/bilibili/client.go:177-237 | a new client has no backoff |
| Backoff.Risk.Mark | internal/platform/bilibili/client.go:893-923 | the next backoff and its end |
| Backoff.Risk.Reset | internal/platform/bilibili/client.go:925-936 | no backoff |
| Backoff.WithoutJitterItDoubles | internal/platform/bilibili/client.go:899-907 | without jitter the k-th mark since a reset gives the smaller of base * 2^(k-1) and the cap, in every run |
| Backoff.JitterBoundsHold | internal/platform/bilibili/client.go:899-935 | every backoff of every run stays within the jitter's share of the bounds if and only if the jitter is at most one half |
| Backoff.JitterIsLinear | internal/platform/bilibili/client.go:908-915 | the jitter moves the first or doubled backoff, capped, along a line between one share below and one share above it, but never below a tenth |

## Left out

- JobTable.Repo.Enqueue: takes the look-up and the insert as one step, which the program does not enforce; `EnqueueRace` has them as two steps.
- Projector.Projector.RebuildAll: says of the tree after a failure only which directories are untouched.
- Projector.Projector.RebuildCreator: disk errors other than a link clash are not modelled; a link is the file it leads to, not the relative path.
- LibrarySync.StepKeepsInv: the removal of stale directories is a step of its own for each creator, but it takes the writing of one creator's directory as one step, so two rebuilds of one creator inside each other's file operations are not modelled; shutdown is not either.
- StorageRuns.RunKeepsBooks: a failed count while the cache is being seeded is not a step of the interleaving model; `Handlers.DownloadKeepsTotals` has it for one download. Failed counts and queries after a change of the disk are steps.
- Handlers.Handler.HandleDownload: errors before the transfer, of the disk scan and of setting a state back after a failure are not modelled.
- Handlers.DownloadIsRun: leaves out downloads whose seeding of the cache fails; `Handlers.DownloadKeepsTotals` covers them.
- Handlers.Handler.HandleCheck: takes the rows of the listing, or the one video the job names, as found and current when their turn comes.
- Syncer.Syncer.RunQueue: covers a consumer that no enqueue interrupts; interruptions are steps of `LibrarySync`.
- Cleanup.Cleaner.HandleCleanup: takes the candidates the database lists as given, so the listing limit and the rare filter of the query are not modelled; file-system and query errors are not either.
- Worker.Worker.ConsumeOnce: a failing fetch and the published job events are not modelled.
- RelatedTopK.Collect: the cache of candidate look-ups is left out, as the table does not change meanwhile; the similarity of a hit is given.
- ScoreMerge.RunsKeepScores: uids are trimmed; errors between the three writes of a candidate and concurrent runs are not modelled.
- Scorer.Score: labels are left out and details are structured values, not JSON.
- FileSync.Service.UpsertFromFile: errors of the database are not modelled; the resolver is two functions.
- Limiter.Limiter.Reserve: times are unbounded integers, so the saturation of long durations is not modelled; waiting and cancellation come after the reservation and do not change it.
- Backoff.Risk.Mark: durations are exact reals without truncation, and the mirrored status fields and events are left out.
- SignedQuery.Sign: the hash is any function, and replacement of ill-formed UTF-8 in values is not modelled.
- Naming.SanitizedIsClean: which runes are letters, digits or spaces is an alphabet of which little is assumed.
- Search, aggregation of hits and score inputs of the discoverers, apart from what `RelatedTopK`, `Scorer` and `ScoreMerge` hold: network calls and text matching.
- HTTP handlers, server-sent events, JSON shapes and the web frontend: plumbing.
- The Bilibili client apart from signing and backoff: network, downloads, cookies and media tools.
- SQL text, migrations, collation and row locking: tables are maps and each query is one step.
- Timers, contexts, logging and the time stamps of published events: steps happen in any order.
- Integer widths: counters and ids are unbounded.
