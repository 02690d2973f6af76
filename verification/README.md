# A verified model of the file cache and its locks

The repository mounts a cloud drive as a file system. Its core is a read-through and
write-back file cache whose chunks are guarded by a lock table with deadlock detection. This
project models that core in Dafny and proves what it is for. `dafny verify dfyconfig.toml`
checks everything.

**Locks.** `RWLocks` and `LockTables` hold the reader-writer lock, the reference-counted lock
table and the worklist search as classes. `LockSystem` runs the same critical sections as a
step system of any number of threads and keys, each lock call with its own program counter,
nested in both modes, and proves one inductive invariant. `LockTheorems` draws exclusion,
quiescence and wake-up from it, `DeadlockFreedom` the exactness of the search and the absence
of deadlock, and `EmptyKey` exactly when deadlock is possible after all. `SingleDownload` puts
the chunk download tasks on top of the step system, and `DownloadRun` has one that takes place.

**Reads.** `ChunkCaches` is the in-memory cache with its two bounds and its accounting,
`ChunkManagers` the disk layer, the double-checked download and the range reader. Both are
classes; other threads act between the iterations of the range loop. `StaleChunks` says exactly
when a download that overlaps a publication leaves a stale chunk behind.

**Writes.** `UploadQueues` gives the critical sections of the upload queue and its step
system with enqueuers, workers, timers and restarts; `UploadManagers` is the class. `LostEdits`
says exactly when that queue loses an edit. `OpenFiles` says what open files mean, without caches
or queues. `FuseFiles` relates the shared state to it, and `FuseSteps` gives the file operations,
uploads, downloads, evictions and expiries as steps on that state and proves that every run of
them refines `OpenFiles`. Each method of the class `FuseOps.FileOps` is such a step, and so any
sequence of calls is such a run. `LocalFiles` says what these runs leave on the local disk.

**Paths.** `PathTrees` and `PathResolution` model the remote tree and resolution through the
metadata cache, which also remembers absence; `PathResolvers` holds the classes, in which
entries may expire in the middle of an operation. `PathStrings` ties paths as lists of names
to their texts. `JournalNames` covers the names of journal files and what recovery reads from
them, `JournalRecovery` what it queues. `Names`, `FileContents` and `FiniteSets` are small common
vocabulary.

Assumptions: Critical sections under a lock are atomic, and so are whole file operations and
upload attempts in `FuseOps`. Remote contents change only through uploads. File system calls
and saving the queue succeed, except that writing and removing chunks on disk may fail unless
the manager is declared to have a working disk, as `FuseOps` declares it; storage requests may
fail at any time unless the storage object is declared reliable. The size given to a range read
is the length of the remote content. Ids are not reused, are not empty and do not start with a
slash. Names have no slashes. Names in a directory are unique to begin with
(`PathTrees.UniqueNames`); which operations keep them so is proved. Random and clock values
(temporary names, seconds, new ids) are parameters.

Findings that the proofs state exactly:

- The search reads the awaited key as a truth value, so waits for the empty key are invisible
  to it (`EmptyKey.DeadlockIffEmptyKeyMixed`). Keys built by the callers are never empty.
- A mapping that expires while its directory is still marked loaded makes an existing path
  look absent (`PathResolution.ExactAt`, `PathResolution.ExactIffIntact`; reached in
  `PathResolution.LostMappingRun`). mkdir trusts that answer, as the kernel's own lookup does,
  and neither it nor the server looks again, so a second folder of the same name is made
  (`PathResolution.AbsentThenMade`; reached in `PathResolution.TwinRun`).
- rmdir does not check that the directory is empty, and forgets only the one path; below it
  stale ids stay mapped (`PathResolution.RemovalSoundIff`, `PathResolution.StepKeepsIff`;
  reached in `PathResolution.StaleRun`).
- The metadata entry of an untouched write handle may expire before its first use; the lazy
  fetch then silently starts from an empty file, and the release publishes it
  (`OpenFiles.LazyIsEager`; reached in `OpenFiles.ExpiredBaseLost`).
- An attempt removes whatever job its id has by the time it ends, so an enqueue that overtakes it
  may be dropped without being uploaded (`LostEdits.LossIffOvertaking`; reached in
  `LostEdits.LostEditRun`).
- A download task that is under way when its file is published stores what it was asked for after
  the invalidation, and the chunk stays stale after the upload (`StaleChunks.StaleIffOvertaking`;
  reached in `StaleChunks.StaleRun`).
- A crash between moving an edit in and saving the queue loses it
  (`JournalRecovery.CrashKeepsIff`).
- An edit journal whose id has an underscore, as the ids of new local files do, is recovered
  under a truncated id (`JournalNames.EditParses`).

## Model

| member | source | states |
|---|---|---|
| `RWLocks.RWLock.AcquireReadPass` | src/infrastructure/concurrency/lock_manager.py:19-23 | one pass of the reader's wait loop: acquires unless a writer holds the lock or a writer has filed a request, else sleeps |
| `RWLocks.RWLock.AcquireWritePass` | src/infrastructure/concurrency/lock_manager.py:31-37 | one pass of the writer's wait loop: files its request once, acquires unless anybody holds the lock, and only then withdraws the request |
| `RWLocks.RWLock.ReleaseRead` | src/infrastructure/concurrency/lock_manager.py:25-29 | wakes the sleepers only when the last reader leaves |
| `RWLocks.RWLock.ReleaseWrite` | src/infrastructure/concurrency/lock_manager.py:39-42 | always wakes the sleepers |
| `LockTables.LockManager.GetLockFor` | src/infrastructure/concurrency/lock_manager.py:55-61 | the lock object of a key is created fresh on the first reference and shared by all later ones; the count grows by one |
| `LockTables.LockManager.ReleaseRefOf` | src/infrastructure/concurrency/lock_manager.py:63-68 | the last reference takes the lock object and the count away |
| `LockTables.LockManager.DetectCycle` | src/infrastructure/concurrency/lock_manager.py:74-99 | terminates, and raises if and only if the requester is a counted owner of some lock reachable from the target through "awaited by a counted owner other than the requester", the target of a shared request excepted; whatever the order in which owners are visited |
| `LockTables.LockManager.VisitOwners` | src/infrastructure/concurrency/lock_manager.py:85-99 | the inner loop: stops exactly on an ownership that closes a cycle, otherwise marks every counted owner and pushes the lock each newly marked one awaits, so that unvisited waiters plus stack never grow |
| `LockTables.SearchComplete` | src/infrastructure/concurrency/lock_manager.py:79-99 | an exhausted worklist proves that nothing reachable closes a cycle |
| `LockTables.ClosedHoldsPath` | src/infrastructure/concurrency/lock_manager.py:79-99 | a set of locks with the target in it that is closed under the edges contains every lock at the end of a path |
| `LockTables.LockManager.CheckAndRegister` | src/infrastructure/concurrency/lock_manager.py:106-109 | the first critical section: refuses exactly the requests the search refuses and changes nothing then; otherwise records the wait |
| `LockTables.LockManager.RecordOwner` | src/infrastructure/concurrency/lock_manager.py:153-155 | the wait record ends and the ownership count grows in one critical section |
| `LockTables.LockManager.DerecordOwner` | src/infrastructure/concurrency/lock_manager.py:158-161 | the ownership count shrinks and disappears at zero |
| `LockSystem.RunKeeps` | src/infrastructure/concurrency/lock_manager.py:101-167 | every step of a lock call in either mode keeps the whole invariant: nesting, exact reference counts, one lock object per key, exact reader, writer and request counters, justified sleepers, exact ownership records, exact wait records, exact active_locks |
| `LockSystem.BeginKeeps` | src/infrastructure/concurrency/lock_manager.py:55-61 | so does opening a call inside the current body, whether the lock object exists or is created |
| `LockSystem.PopKeeps` | src/infrastructure/concurrency/lock_manager.py:130-133 | so does dropping the reference, at the end of a call or after a refusal, even when it deletes the lock object |
| `LockSystem.AcquireKeeps` | src/infrastructure/concurrency/lock_manager.py:19-37 | so does a pass through either wait loop, first or after a wake-up |
| `LockSystem.ReleaseKeeps` | src/infrastructure/concurrency/lock_manager.py:25-42 | so does releasing the lock object, with what it notifies |
| `LockSystem.RunInv` | src/infrastructure/concurrency/lock_manager.py:101-167 | the invariant holds after every run of any number of threads and keys, with nested calls |
| `LockTheorems.OneLockPerKey` | src/infrastructure/concurrency/lock_manager.py:55-68 | in every reachable state all calls open on one key use one and the same lock object, although lock objects are created and deleted on the fly |
| `LockTheorems.ExclusionOverRuns` | src/infrastructure/concurrency/lock_manager.py:12-68 | in every reachable state a writer of a key is the only holder of that key, in either mode, including the windows in which ownership is not recorded |
| `LockTheorems.RefCount` | src/infrastructure/concurrency/lock_manager.py:55-68 | in every reachable state the count of a key is the number of calls between _get_lock and _release_ref, and the key has a lock object exactly when there is one |
| `LockTheorems.Quiescent` | src/infrastructure/concurrency/lock_manager.py:101-167 | with no call in progress all tables and all inner owner maps are empty and active_locks is zero |
| `LockTheorems.SleepReasons` | src/infrastructure/concurrency/lock_manager.py:19-42 | every sleeping reader faces a writer or a pending request, every sleeping writer a holder, and requests count the threads inside the writer wait |
| `LockTheorems.NoLostWakeUp` | src/infrastructure/concurrency/lock_manager.py:19-42 | when nobody owns a key's lock and some call is blocked on it, some blocked call of that key is awake and not held back by any guard |
| `LockTheorems.ReadyAcquires` | src/infrastructure/concurrency/lock_manager.py:19-37 | the next step of such a call acquires |
| `LockTheorems.ReaderAdmitted` | src/infrastructure/concurrency/lock_manager.py:19-23 | in every reachable state a reader's pass acquires if and only if no call of the key owns it as a writer and none is in the writer wait: readers share, waiting writers come first |
| `LockTheorems.WriterAdmitted` | src/infrastructure/concurrency/lock_manager.py:31-37 | a writer's pass acquires if and only if no call owns the key |
| `DeadlockFreedom.RecordsAreOwnership` | src/infrastructure/concurrency/lock_manager.py:136-167 | in every reachable state a recorded allocation is backed by true ownership of the lock object |
| `DeadlockFreedom.RecordedWaitIsReal` | src/infrastructure/concurrency/lock_manager.py:136-167 | a recorded wait for a key that has a recorded owner is a real wait, not the window between acquiring and recording |
| `DeadlockFreedom.WaiterIsNoOwner` | src/infrastructure/concurrency/lock_manager.py:136-167 | over every run of exclusive calls a waiting thread neither owns nor is recorded as owning the key it awaits |
| `DeadlockFreedom.NoSpuriousRefusal` | src/infrastructure/concurrency/lock_manager.py:74-99 | among exclusive calls, whatever the keys, a DeadlockError means that the requester holds the key itself or that a holder of it waits, possibly through others, for the requester |
| `DeadlockFreedom.RefusedIffCycle` | src/infrastructure/concurrency/lock_manager.py:74-99 | with the empty key unmixed, an exclusive request is refused if and only if letting it block would close a cycle of real waits |
| `DeadlockFreedom.RefusedByCalls` | src/infrastructure/concurrency/lock_manager.py:74-99 | in every reachable state, whatever the modes and keys, a request is refused if and only if the requester is in the body of a call at the end of a path of awaited keys, each awaited by another thread that is in the body of a call on the one before; for a shared request the requested key itself does not count |
| `DeadlockFreedom.RunAcyclic` | src/infrastructure/concurrency/lock_manager.py:136-167 | every step of an exclusive call keeps the graph from waiting threads to true holders free of cycles: registering a wait and becoming an owner add edges, the other steps add none |
| `DeadlockFreedom.NoCycleEver` | src/infrastructure/concurrency/lock_manager.py:136-167 | over every run of any number of threads nesting exclusive calls that graph has no cycle |
| `DeadlockFreedom.DeadlockFree` | src/infrastructure/concurrency/lock_manager.py:136-167 | behind every thread that waits for a held key there is, at the end of its chain of waits, a lock holder whose next step is not a wait |
| `EmptyKey.Contention` | src/infrastructure/concurrency/lock_manager.py:136-167 | with any key a run of exclusive calls reaches a thread that waits for a holder, so the statements above are not for want of contention |
| `EmptyKey.UndetectedDeadlock` | src/infrastructure/concurrency/lock_manager.py:97-99 | a wait for the empty key is falsy and not followed: with "" and any other key in use, a reachable state has two threads waiting for each other |
| `EmptyKey.DeadlockIffEmptyKeyMixed` | src/infrastructure/concurrency/lock_manager.py:74-167 | exclusive calls over a set of keys can reach a cycle of waits if and only if that set mixes the empty key with another |
| `SingleDownload.OneInBody` | src/infrastructure/cache/chunk_manager.py:192-229 | two tasks inside the critical part of one chunk are the same task, by the exclusion of the lock table |
| `SingleDownload.SysRunInv` | src/infrastructure/cache/chunk_manager.py:183-232 | over every interleaving of download tasks, lock calls and memory changes a task that is about to fetch finds its chunk not on disk, and a fetched chunk is on disk or being stored by its task |
| `SingleDownload.AtMostOneDownload` | src/infrastructure/cache/chunk_manager.py:183-232 | over every such interleaving, with any number of duplicate tasks and whatever memory evicts, each chunk has at most one successful storage call |
| `SingleDownload.BodyAchieves` | src/infrastructure/cache/chunk_manager.py:194-229 | a step that ends a task's body leaves its chunk in memory or on disk, unless it is a storage call that failed; a disk hit and a download put it into memory, and a successful storage call is counted |
| `SingleDownload.EndedWithChunk` | src/infrastructure/cache/chunk_manager.py:183-232 | over every run a task that has ended was refused by the lock, was failed by storage, or had its chunk in a layer when its body ended |
| `SingleDownload.StoredNeverFetched` | src/infrastructure/cache/chunk_manager.py:199-207 | a chunk that is on disk to begin with is never fetched in any run |
| `DownloadRun.Fetches` | src/infrastructure/cache/chunk_manager.py:183-232 | the bound is reached: for any chunk that is not on disk a run takes the lock, finds the chunk nowhere, fetches it once and leaves it in memory and on disk |
| `StaleChunks.StepGood` | src/infrastructure/cache/chunk_manager.py:183-232 | a publication that overtakes no download task leaves every cached chunk and every task one of the published content, and so do all other steps of tasks, uploads and evictions |
| `StaleChunks.CarefulCoherent` | src/infrastructure/cache/chunk_manager.py:183-232 | so over every run without overtaking publications cached chunks of files that are not queued equal remote chunks |
| `StaleChunks.BehindGoesStale` | src/infrastructure/cache/chunk_manager.py:371-386 | a task left behind, holding an old chunk, about to fetch one, or asked under an old size, makes a chunk stale: nothing invalidates what it stores after the invalidation |
| `StaleChunks.StaleIffOvertaking` | src/fuse/operations/fuse_ops.py:367-389 | a publication may be followed by a stale chunk if and only if it overtakes such a task |
| `StaleChunks.StaleRun` | src/fuse/operations/fuse_ops.py:367-389 | such a state is reached: with nothing cached or under way, ask for the first chunk of any file and publish a content whose first chunk differs; the task and the upload then leave a stale chunk |
| `ChunkCaches.InMemoryChunkCache.GetChunk` | src/infrastructure/cache/chunk_manager.py:35-42 | a hit returns the stored value, becomes most recent, and turns a prefetch flag into one counted hit; a miss changes nothing |
| `ChunkCaches.InMemoryChunkCache.PutChunk` | src/infrastructure/cache/chunk_manager.py:50-66 | the new state is the replaced and flagged cache evicted to its bounds, with waste, evictions and bytes counted step by step but equal to their closed form |
| `ChunkCaches.InMemoryChunkCache.EvictIfNeeded` | src/infrastructure/cache/chunk_manager.py:82-92 | the loop keeps what Evict keeps, and its incremental byte count stays the sum of the stored lengths |
| `ChunkCaches.InMemoryChunkCache.InvalidateKey` | src/infrastructure/cache/chunk_manager.py:71-77 | the entry, its bytes and its flag go, and nothing else |
| `ChunkCaches.EvictSuffix` | src/infrastructure/cache/chunk_manager.py:82-92 | eviction keeps a suffix of the recency order, and no longer suffix fits both bounds |
| `ChunkCaches.EvictLongest` | src/infrastructure/cache/chunk_manager.py:82-92 | what is kept is within the chunk and the byte bound unless empty, is the most recent part, and with one entry more would exceed a bound |
| `ChunkCaches.OversizedEmpties` | src/infrastructure/cache/chunk_manager.py:50-92 | putting a value larger than the byte bound leaves the cache empty with zero bytes |
| `ChunkCaches.RunSound` | src/infrastructure/cache/chunk_manager.py:35-92 | after every run of gets, puts and invalidations keys are distinct, the byte count is the sum of the stored lengths, and flagged keys are cached keys |
| `ChunkCaches.KeepsMostRecent` | src/infrastructure/cache/chunk_manager.py:35-92 | after every run the entries are a suffix of the recency order that all gets, puts and invalidations define, so whatever was evicted is less recent than everything kept |
| `ChunkCaches.FlagsMove` | src/infrastructure/cache/chunk_manager.py:35-92 | one operation moves each prefetch flag to at most one class |
| `ChunkCaches.PrefetchConserved` | src/infrastructure/cache/chunk_manager.py:35-92 | over every run prefetch puts are hits plus waste plus flags dropped by overwrite or invalidation plus entries still flagged |
| `ChunkCaches.CountersMove` | src/infrastructure/cache/chunk_manager.py:35-92 | which metric moves: a get of a flagged key is one hit, a flagged entry driven out by a put is one waste, and every entry driven out is one eviction; nothing else moves them |
| `ChunkCaches.HoldsLatest` | src/infrastructure/cache/chunk_manager.py:35-92 | after every run a cached value is the one put last and not invalidated since, and a cached key is flagged if and only if the last operation on it was a put by a prefetch |
| `ChunkManagers.ChunkManager.DownloadChunk` | src/infrastructure/cache/chunk_manager.py:183-232 | the result is the chunk of the remote content, short at the end and empty past it; a hit in memory or on disk asks storage for nothing, a disk hit and a download are put into memory, a download also on disk; no other file gains a cached chunk; it fails only if storage does |
| `ChunkManagers.ChunkManager.ReadChunk` | src/infrastructure/cache/chunk_manager.py:337-361 | the same for one iteration of the range loop, with the memory and disk lookups before the download task |
| `ChunkManagers.ServedRequests` | src/infrastructure/cache/chunk_manager.py:199-221 | storage is asked exactly when the chunk is in no layer in use, and then once; a chunk in a layer is served without fail |
| `ChunkManagers.ServedTwice` | src/infrastructure/cache/chunk_manager.py:199-227 | serving a chunk again gives the same without asking storage, if it was cached before, fits into memory, or went to a working disk |
| `ChunkManagers.ChunkManager.ReadContentRange` | src/infrastructure/cache/chunk_manager.py:300-369 | for every chunk size, offset, length and mix of hits, with other threads downloading and evicting between iterations, the assembled bytes are the slice of the remote content, empty past the end; it fails only if storage does, and only after storage was asked |
| `ChunkManagers.ChunkManager.InvalidateFile` | src/infrastructure/cache/chunk_manager.py:371-386 | exactly the chunks of the file leave memory and disk, the others staying in their recency order; a disk that does not work may keep any of them, since the failure is only logged |
| `ChunkManagers.ChunkPart` | src/infrastructure/cache/chunk_manager.py:363-367 | the clamped part of one chunk is exactly the stretch of the content between how far the range reached before and after it |
| `ChunkManagers.ShortChunk` | src/infrastructure/cache/chunk_manager.py:186-190 | asking storage for the bytes up to min(start + size, total) - 1 gives the whole chunk, also the short last one |
| `ChunkManagers.NextPart` | src/infrastructure/cache/chunk_manager.py:334-367 | one iteration extends the assembled prefix of the range by one chunk |
| `ChunkManagers.RangeDone` | src/infrastructure/cache/chunk_manager.py:311-369 | past the last chunk of the loop bounds the assembled prefix is the whole slice, also for length 0 |
| `UploadManagers.UploadManager.constructor` | src/infrastructure/drive/upload_manager.py:42-49 | starts from the saved queue, whatever files it lost, or from an empty one if it cannot be read; queues what the journal holds, and submits a task for every recovered file and one more for every pending job |
| `UploadManagers.UploadManager.RecoverJournal` | src/infrastructure/drive/upload_manager.py:51-94 | queues every recognised file of the listing, in its order, and leaves the others where they are |
| `UploadManagers.UploadManager.EnqueueFile` | src/infrastructure/drive/upload_manager.py:125-167 | moves the file to its own upload path, replaces a queued job of the id and its file but keeps its retries, saves the queue, and submits one task |
| `UploadManagers.UploadManager.RemoveJobOf` | src/infrastructure/drive/upload_manager.py:248-256 | removes the job and, when given, its file |
| `UploadManagers.UploadManager.HandleFailureOf` | src/infrastructure/drive/upload_manager.py:258-292 | counts the failure; past the limit or when fatal the job is failed and no timer armed, otherwise one timer with the doubled delay |
| `UploadManagers.UploadManager.ExecutePendingUploadJob` | src/infrastructure/drive/upload_manager.py:183-246 | only a pending job is attempted; success replaces the remote content (or adds it under the new id) and removes job and file; a missing file removes the job; a failure is handled as such and leaves storage alone |
| `UploadQueues.SafePathInjective` | src/infrastructure/drive/upload_manager.py:134-136 | the names id_seconds.tmp of different ids differ, whatever underscores the ids contain |
| `UploadQueues.EnqueueConsistent` | src/infrastructure/drive/upload_manager.py:125-158 | enqueueing keeps every queued file present under its own name |
| `UploadQueues.RemoveConsistent` | src/infrastructure/drive/upload_manager.py:248-256 | so does removing a job, even one enqueued again while the attempt ran |
| `UploadQueues.StepTriggers` | src/infrastructure/drive/upload_manager.py:125-292 | every step hands a pending job's trigger on (enqueuer, queued task, running attempt, armed timer), or the job is gone or given up |
| `UploadQueues.StepKeeps` | src/infrastructure/drive/upload_manager.py:96-292 | every step of enqueuers, workers, timers and restarts keeps the queue consistent and no pending job without a trigger |
| `UploadQueues.QueueSafe` | src/infrastructure/drive/upload_manager.py:96-292 | over every interleaving of any number of enqueuers, workers, timers and restarts both hold whenever the queue lock is free |
| `UploadQueues.QueueSafeParts` | src/infrastructure/drive/upload_manager.py:96-165 | read out: each queued file exists, different ids never share one, the saved queue is the queue, the metric counts the jobs not failed, and outside construction each pending job has a live trigger |
| `LostEdits.StepLosesNone` | src/infrastructure/drive/upload_manager.py:183-256 | while every attempt under way is one for the queued job of its id, no step takes a job off the queue but by uploading the job's own file |
| `LostEdits.StepCarries` | src/infrastructure/drive/upload_manager.py:125-292 | and only an enqueue that overtakes an attempt ends that: one made while an attempt of its id is about to look for another file, has found it missing, or uploads something else |
| `LostEdits.CarefulLosesNone` | src/infrastructure/drive/upload_manager.py:96-292 | so over every run without such an enqueue, restarts included, every edit is uploaded, replaced by a newer one or still queued |
| `LostEdits.CarefulLeavesNothing` | src/infrastructure/drive/upload_manager.py:125-256 | and nothing is left behind: each file in an upload path is that of a queued job, and each queued job has its file |
| `LostEdits.BehindLoses` | src/infrastructure/drive/upload_manager.py:183-256 | after any such enqueue at most two more steps of the attempt lose the new job |
| `LostEdits.LossIffOvertaking` | src/infrastructure/drive/upload_manager.py:125-256 | an enqueue may be followed by a loss if and only if it overtakes an attempt |
| `LostEdits.LostEditRun` | src/infrastructure/drive/upload_manager.py:125-256 | it does in a run: a file is enqueued a second later while a worker has taken up the first job; nothing is uploaded, and the second edit ends up in a file no job knows of |
| `UploadQueues.ResumesPending` | src/infrastructure/drive/upload_manager.py:169-175 | at start-up each pending job gets one task, and a job that was given up none |
| `UploadQueues.Idle` | src/infrastructure/drive/upload_manager.py:183-187 | a job that is failed or gone is never attempted again and arms no timer |
| `UploadQueues.RetryBudget` | src/infrastructure/drive/upload_manager.py:138-292 | a pending job with r retries is attempted at most max(1, max_retries + 1 - r) times, and its delays total at most 2^(max_retries+1) - 2^(r+1) |
| `UploadQueues.BudgetUsedUp` | src/infrastructure/drive/upload_manager.py:138-292 | both bounds are reached when every attempt fails without being fatal |
| `UploadQueues.DelaysDouble` | src/infrastructure/drive/upload_manager.py:258-292 | the first failure of a fresh job arms a delay of 2 seconds, and each further one twice the delay before |
| `UploadQueues.Course` | src/infrastructure/drive/upload_manager.py:183-292 | the exact course: k failures and then another outcome make k delays of 2^(r+1) to 2^(r+k) seconds and k + 1 attempts, k if the file is missing; then an uploaded job is gone with its file, one without a file is gone, and one that failed fatally is given up and keeps its file |
| `UploadQueues.GivenUp` | src/infrastructure/drive/upload_manager.py:258-276 | a job that only fails is given up exactly when its budget is used up, and keeps its file |
| `UploadQueues.EditBudget` | src/infrastructure/drive/upload_manager.py:138-157 | an edit keeps the count of the job it replaces: after a give-up it gets one attempt and no retry, while a file that was not queued gets the whole budget |
| `FileContents.WriteAt` | src/fuse/operations/fuse_ops.py:336-337 | a write at an offset overwrites, extends and zero-fills a gap, byte by byte; an empty write changes nothing |
| `FileContents.Resize` | src/fuse/operations/fuse_ops.py:480 | cutting, or extending with zeros, byte by byte |
| `FileContents.ReadBack` | src/fuse/operations/fuse_ops.py:288-294 | what was written at an offset is read back there |
| `OpenFiles.LazyIsEager` | src/fuse/operations/fuse_ops.py:214-340 | over every run in which no base changes under an untouched handle and no needed metadata is gone, all returned bytes, all file contents and all touched handles are those of handles copied at open |
| `OpenFiles.ExpiredBaseLost` | src/fuse/operations/fuse_ops.py:245-268 | otherwise they differ: a run of open for writing, expiry of the metadata, one write and release leaves the file without its old content, where a handle copied at open would have kept it |
| `OpenFiles.HandleFolds` | src/fuse/operations/fuse_ops.py:316-340 | while a handle is open its data are its base with its own writes and truncates folded in, and it is modified exactly if there was one |
| `OpenFiles.SessionPublishes` | src/fuse/operations/fuse_ops.py:342-389 | releasing a modified handle leaves the file with the base plus that session's edits |
| `OpenFiles.ContentKept` | src/fuse/operations/fuse_ops.py:342-393 | a file's content changes only when a modified handle of it is released |
| `OpenFiles.CloseToOpen` | src/fuse/operations/fuse_ops.py:295-393 | a read through any read-only handle after any further run that releases no modified handle of the file returns the slice of the base with the session's edits |
| `OpenFiles.OwnRead` | src/fuse/operations/fuse_ops.py:288-294 | a read through a write handle returns the slice, at its offset, of what the handle stood for with its own writes and truncates; for a handle not yet touched while its base does not change or lose its metadata, for a touched one over any run |
| `OpenFiles.OwnWriteReadBack` | src/fuse/operations/fuse_ops.py:288-340 | a write reports all its bytes, and a read of the same range gives them back |
| `OpenFiles.FailsExactly` | src/fuse/operations/fuse_ops.py:276-340 | a call fails, and then changes nothing, only for want of its handle (a write handle for a write), or of metadata or storage |
| `OpenFiles.HandleKept` | src/fuse/operations/fuse_ops.py:342-348 | a handle stays the same kind of handle on the same file until its release, and is gone then |
| `OpenFiles.KnownAfter` | src/infrastructure/cache/memory_cache.py:14-18 | over every run the metadata of a file is lost only by its own expiry |
| `FuseFiles.OpenRefines` | src/fuse/operations/fuse_ops.py:214-243 | opening does to the shared state what it does to the abstract open files |
| `FuseFiles.FetchTouches` | src/fuse/operations/fuse_ops.py:245-268 | the lazy fetch, from the queued copy or the remote one, gives the handle its abstract base |
| `FuseFiles.Publish` | src/fuse/operations/fuse_ops.py:367-389 | releasing a modified handle makes its bytes the content of its file, whatever was queued before, and of no other file |
| `FuseFiles.UploadRefines` | src/infrastructure/drive/upload_manager.py:183-256 | an upload attempt of any outcome changes no file's content: on success the remote copy takes over from the queued one |
| `FuseSteps.SharedData` | src/fuse/operations/fuse_ops.py:295-314 | a read-only read returns the slice of the file's content, from its queued copy or joined from any mix of cached and fetched chunks |
| `FuseSteps.ReleasedLayers` | src/fuse/operations/fuse_ops.py:367-389 | publishing leaves no chunk of the published file cached and every other cached chunk equal to its remote chunk |
| `FuseSteps.UploadedLayers` | src/infrastructure/drive/upload_manager.py:196-256 | an upload changes the remote copy only of a file of which nothing is cached |
| `FuseSteps.ActsRefine` | src/fuse/operations/fuse_ops.py:186-393 | every step on queue, temporary files, chunk layers, metadata and remote copies keeps contents, sizes, handles and cached chunks consistent, and its result and effect are those of the abstract open files |
| `FuseSteps.MountedInv` | src/fuse/operations/fuse_ops.py:20-72 | which is how a fresh mount starts |
| `FuseSteps.RunRefines` | src/fuse/operations/fuse_ops.py:186-393 | over every run of file operations, uploads, failures, expiries, downloads and evictions the results and the final contents are those of the abstract open files |
| `FuseSteps.CloseToOpenOverRuns` | src/fuse/operations/fuse_ops.py:186-393 | over every such run a read-only read that does not fail returns the slice of what the last modified release of the file left, whatever came between |
| `FuseSteps.OwnReadOverRuns` | src/fuse/operations/fuse_ops.py:245-340 | over every run from any state a read through a write handle that does not fail returns the slice, at its offset, of what the handle stood for with its own writes and truncates |
| `FuseSteps.OwnWriteOverRuns` | src/fuse/operations/fuse_ops.py:316-340 | and a write that does not fail reports all its bytes, and a read of the same range returns them |
| `FuseSteps.FailsOnlyForStorage` | src/fuse/operations/fuse_ops.py:245-312 | a call fails only on a reader of a file that is not queued, or on a write handle whose non-empty content is still to be fetched from the remote copy, and then changes no file, handle or queue |
| `FuseSteps.TouchedNeverFails` | src/fuse/operations/fuse_ops.py:245-268 | over every run, once a write handle has been read, written or truncated no later call on it fails |
| `LocalFiles.ReleaseTidy` | src/fuse/operations/fuse_ops.py:342-391 | releasing a write handle takes its temporary file away, whether it was modified or not |
| `LocalFiles.TidyOverRuns` | src/fuse/operations/fuse_ops.py:186-393 | over every run each local file was there before, is the queued copy of a file or the temporary file of an open write handle; with nothing open and nothing queued no new file remains |
| `FuseOps.FileOps.OpenFile` | src/fuse/operations/fuse_ops.py:210-243 | is the open step, hence the abstract open; a writer gets an empty temporary file and fetches nothing |
| `FuseOps.FileOps.EnsureDownloaded` | src/fuse/operations/fuse_ops.py:245-268 | touches the handle with its base, once, at the current position; on a failed download nothing changes |
| `FuseOps.FileOps.ReadFile` | src/fuse/operations/fuse_ops.py:276-314 | is the read step, hence the abstract read, from the handle's file, the queued copy or cached chunks of the remote copy; fails only for an unknown handle, a storage failure, or a file that is neither queued nor in the metadata cache |
| `FuseOps.FileOps.WriteFile` | src/fuse/operations/fuse_ops.py:321-340 | is the write step, hence the abstract write, zero-filled gaps included |
| `FuseOps.FileOps.TruncateFile` | src/fuse/operations/fuse_ops.py:475-484 | is the truncate step, hence the abstract truncate of an open write handle; a no-op on anything else |
| `FuseOps.FileOps.ReleaseFile` | src/fuse/operations/fuse_ops.py:345-393 | is the release step, hence the abstract release, and drops the chunks of what it publishes; submits exactly one upload if the handle was modified and none otherwise |
| `FuseOps.FileOps.UploadOnce` | src/infrastructure/drive/upload_manager.py:183-256 | is the upload step, hence changes no content, size or handle, while queue and remote copy change as the attempt says; with reliable storage a pending job is uploaded |
| `FuseOps.FileOps.ExpireMetadata` | src/infrastructure/cache/memory_cache.py:14-18 | is the expiry step: losing a metadata entry changes no content |
| `FuseOps.FileOps.ServeCalls` | src/fuse/operations/fuse_ops.py:186-393 | any sequence of calls and uploads, with downloads and evictions at work before each, is a run of those steps, so its results are those of the abstract open files |
| `PathTrees.DeletedWalk` | src/fuse/operations/fuse_ops.py:619-621 | deleting an id takes their ids from exactly the paths at and below its own |
| `PathTrees.CreatedWalk` | src/fuse/operations/fuse_ops.py:502-505 | creating a folder under a free name gives exactly one path a new id |
| `PathTrees.CreatedUnique` | src/fuse/operations/fuse_ops.py:502-505 | creating a folder keeps names unique if and only if the name was free; nothing checks that it is |
| `PathTrees.MappedAll` | src/fuse/operations/fuse_ops.py:102-105 | what storing the items of a listing one by one adds up to: exactly the listed children are mapped, each to the id of the last item of its name |
| `PathResolution.ResolveSound` | src/fuse/operations/fuse_ops.py:74-94 | a non-empty answer is the id the tree walk gives, whatever mappings and marks the cache has lost |
| `PathResolution.ResolveExact` | src/fuse/operations/fuse_ops.py:74-94 | while the children of loaded directories are all still mapped every answer is the walk's, absence included |
| `PathResolution.ExactIffIntact` | src/fuse/operations/fuse_ops.py:74-94 | resolution is exact for every path if and only if the children of loaded directories are all still mapped |
| `PathResolution.FalselyAbsent` | src/fuse/operations/fuse_ops.py:87-91 | a child of a loaded directory whose mapping is lost is reported absent although it exists |
| `PathResolution.ExactAt` | src/fuse/operations/fuse_ops.py:74-94 | one path whose parent is found is answered as the tree has it if and only if its own mapping, should the parent be marked loaded, is still there |
| `PathResolution.LostMappingRun` | src/fuse/operations/fuse_ops.py:74-107 | the failing state is reached in every tree with a child of the root: list the root, let the child's mapping expire, and the child that exists is answered as absent |
| `PathResolution.LoadKeeps` | src/fuse/operations/fuse_ops.py:96-107 | loading a directory keeps mapped paths right and filed under their parents, listings real, and loaded directories fully listed |
| `PathResolution.VanishKeeps` | src/infrastructure/cache/memory_cache.py:14-19 | so does losing any mappings and any loaded marks |
| `PathResolution.CreateKeeps` | src/fuse/operations/fuse_ops.py:502-506 | so does creating a folder under a free name and mapping it |
| `PathResolution.RemoveKeeps` | src/fuse/operations/fuse_ops.py:599-621 | so does removing a path below which the cache lists nothing, and the tree loses exactly the paths from it down |
| `PathResolution.EmptyIsBare` | src/fuse/operations/fuse_ops.py:612-621 | below a directory that is empty the cache lists nothing, so removing it is harmless |
| `PathResolution.RemovalSoundIff` | src/fuse/operations/fuse_ops.py:613-621 | removing any path leaves the mapped ids right if and only if nothing below it is mapped: rmdir does not check that the directory is empty |
| `PathResolution.StaleRun` | src/fuse/operations/fuse_ops.py:612-621 | the failing state is reached in every tree with a path of two names: look it up, remove the directory, and the path that is gone is still answered with its old id |
| `PathResolution.ListingExact` | src/fuse/operations/fuse_ops.py:178-180 | once loaded a directory lists exactly its children, even after mappings have vanished |
| `PathResolution.StepRefines` | src/fuse/operations/fuse_ops.py:74-184 | every operation, mkdir of a taken name and rmdir of a full directory included, does what it does on the tree or denies that the path exists and leaves the tree alone; with no mapping lost it is exactly the tree's |
| `PathResolution.MadeFolder` | src/fuse/operations/fuse_ops.py:495-509 | through an intact cache a folder that was made is found, is listed as empty, is listed in its parent besides what was there, and takes folders itself |
| `PathResolution.RemovedPath` | src/fuse/operations/fuse_ops.py:599-621 | a removed path and all below it are absent, every other path is found as before, and its parent lists all but it |
| `PathResolution.HarmlessKeeps` | src/fuse/operations/fuse_ops.py:74-184 | an operation that does not make a taken name, nor remove a path below which something is listed, keeps the cache right, and no mapping is lost but by expiring |
| `PathResolution.StepKeepsIff` | src/fuse/operations/fuse_ops.py:495-621 | and no other operation keeps it |
| `PathResolution.AbsentThenMade` | src/fuse/operations/fuse_ops.py:495-505 | making a path that was just answered as absent keeps names unique if and only if that answer was not for want of a lost mapping |
| `PathResolution.TwinRun` | src/fuse/operations/fuse_ops.py:495-505 | so a second folder of the same name is made in a run: list the root, let a mapping expire, make the path answered as absent |
| `PathResolution.RunRefines` | src/fuse/operations/fuse_ops.py:74-184 | over every run of harmless operations from an empty cache, ended by any operation, the results are the tree's or denials, and up to the first lost mapping they are the tree's |
| `PathResolvers.MetadataCache.MapPathTo` | src/infrastructure/cache/memory_cache.py:27-32 | maps the path and lists it under its parent, the root excepted |
| `PathResolvers.MetadataCache.InvalidatePath` | src/infrastructure/cache/memory_cache.py:56-64 | forgets the path, its listing under the parent and the metadata entry of its id |
| `PathResolvers.MetadataCache.Expire` | src/infrastructure/cache/memory_cache.py:14-19 | any mappings and marks may go, listings stay |
| `PathResolvers.PathOps.LoadChildren` | src/fuse/operations/fuse_ops.py:96-107 | stores a whole listing and marks the directory, or nothing if the request fails |
| `PathResolvers.PathOps.ResolvePath` | src/fuse/operations/fuse_ops.py:74-94 | the recursion ends, keeps the cache consistent, and answers only what the tree says even if entries expire in the middle; with nothing expiring it is Resolve, and exact on an intact cache |
| `PathResolvers.PathOps.ReadDirEntries` | src/fuse/operations/fuse_ops.py:174-184 | a listing names every child exactly once, besides ".", ".." and the virtual "stats" in the root, even if mappings expire in the middle |
| `PathResolvers.PathOps.EveryNameOnce` | src/fuse/operations/fuse_ops.py:174-184 | what such a listing holds, name by name: the dot entries, the children and in the root the virtual one, none of the others twice |
| `PathResolvers.PathOps.MakeDir` | src/fuse/operations/fuse_ops.py:495-509 | creates exactly the folder the tree operation creates, or changes nothing; the cache stays right if and only if the name was free; with reliable storage and nothing expiring it is the step of the run model |
| `PathResolvers.PathOps.RemovePath` | src/fuse/operations/fuse_ops.py:599-621 | removes exactly the path and what is below it, or changes nothing; the cache stays right if and only if nothing below the path was listed; with reliable storage and nothing expiring it is the step of the run model |
| `PathStrings.RenderSplits` | src/fuse/operations/fuse_ops.py:84 | dirname and basename of the joined text of a path with slash-free names give back its parent and its last name |
| `PathStrings.RenderInjective` | src/fuse/operations/fuse_ops.py:103 | different paths of slash-free names have different texts |
| `JournalNames.DecodeEncode` | src/infrastructure/drive/upload_manager.py:77-79 | base64url decoding (section 5 of RFC 4648) undoes encoding for every byte sequence |
| `JournalNames.EncodePlain` | src/fuse/operations/fuse_ops.py:445-448 | an encoded name has only letters, digits, "-", "_" and "=", so no slash |
| `JournalNames.KnownCodes` | src/infrastructure/drive/upload_manager.py:77-79 | the vectors of section 10 of RFC 4648, and one for the two letters that make the alphabet url-safe |
| `JournalNames.RunIff` | src/infrastructure/drive/upload_manager.py:63 | the executable form of "a non-empty underscore-free run and an underscore" matches a text in exactly the ways the pattern does |
| `JournalNames.EditParses` | src/infrastructure/drive/upload_manager.py:63-68 | an edit journal is recovered under the part of its id before the first underscore, or ignored if that is empty, whatever the random suffix |
| `JournalNames.EditRoundTrip` | src/fuse/operations/fuse_ops.py:223-225 | recovery reads the original id back if and only if it is not empty and has no underscore |
| `JournalRecovery.LastListedWins` | src/infrastructure/drive/upload_manager.py:51-94 | after recovery every recognised id is pending with the content of the last listed file for it, even if the saved queue had lost files |
| `JournalRecovery.AllConsistent` | src/infrastructure/drive/upload_manager.py:51-94 | and a consistent queue stays consistent |
| `JournalRecovery.EditSurvives` | src/infrastructure/drive/upload_manager.py:63-68 | so the last journal of an edited file whose id is not empty and has no underscore is queued again after a crash, with its content |
| `JournalRecovery.CreateSurvives` | src/infrastructure/drive/upload_manager.py:69-94 | the last journal of a created file whose parent id and encoded name have no underscore is queued as a new file of that parent, with its name and content, under the id made up for it |
| `JournalRecovery.JournalAfter` | src/infrastructure/drive/upload_manager.py:51-94 | recovery moves exactly the recognised files out of the journal and leaves the others as they are, so another recovery queues nothing twice |
| `JournalRecovery.CrashKeepsIff` | src/infrastructure/drive/upload_manager.py:125-158 | a crash during an enqueue loses the edit if and only if it comes between the move and the saving of the queue, unless the saved queue names the very path moved to; the job that was to be replaced then has lost its file as well |
| `JournalNames.CreateRoundTrip` | src/fuse/operations/fuse_ops.py:445-448 | recovery reads parent id and name back if and only if neither is empty and neither the parent id nor the encoded name has an underscore |

## Left out

- Deadlock freedom and refusals for shared locks: the exemption of the target and readers held back by pending writers are not in the owner graph; shared mode takes part in exclusion, wake-up and reference counts.
- Spurious wake-ups of the condition variable, and exceptions raised inside a lock acquisition.
- `LockTables.LockManager.DetectCycle`: the metric of detected deadlocks and the message of the error are not modelled.
- The scheduling of downloads: sharing of futures, promotion of prefetches and the pools; the model lets any number of download tasks run at any time. The test for sequential reads is a free choice.
- `SingleDownload.AtMostOneDownload`: assumes that the disk layer is on, disk writes succeed and nothing is invalidated; otherwise a chunk may be fetched again.
- `StaleChunks.StaleIffOvertaking`: a reader's check for a queued copy, its reading of the size and its asking for a chunk are one moment, and so are the two layers of an invalidation.
- The test for video files is a fixed set of ids; metric values other than those of the memory cache and the queue size are not modelled.
- `UploadManagers.UploadManager.constructor`: the listed journal files are given, distinct, not yet queued and lead to ids that are file names; the directory listing itself is not modelled.
- `UploadManagers.UploadManager.ExecutePendingUploadJob`: one atomic attempt; that the source releases the queue lock during the storage call is in the step system of `UploadQueues`, where enqueues, timers and restarts come between the phases of an attempt.
- Decoding is defined on well-formed texts only; the leniency of the library decoder towards foreign characters does not arise for names built by create. Names are byte sequences; UTF-8 is not modelled.
- `LostEdits.LossIffOvertaking`: an upload is taken to read its file at one moment, and what storage does with it is not part of the step system.
- `JournalRecovery.CrashKeepsIff`: for edits of existing files; moving a file and saving the queue are each atomic. The journal of a handle that was opened for writing but never touched is an empty file, and recovery queues it like any other.
- `FuseOps.FileOps.ReadFile`: the branch for local-only files is left out, and so is the per-handle lock, since operations are atomic.
- `FuseOps.FileOps.OpenFile`: takes the file's id; the path lookup is that of the path modules, and the branch for local-only files is left out.
- `FuseOps.FileOps.WriteFile`: the branch for local-only files is left out.
- `FuseOps.FileOps.TruncateFile`: the path resolution before the handle check, with its error, and the branch for local-only files are left out; without a handle the call does nothing, so only the form with a handle is modelled.
- `FuseOps.FileOps.ReleaseFile`: the branches for new files and for local-only files are left out.
- `FuseOps.FileOps.UploadOnce`: the attempt is atomic with respect to file operations.
- `FuseOps.FileOps.ServeCalls`: an open of an unknown file, or under a temporary name that is taken, and an upload under an id that is taken are not made.
- Files created locally and not yet uploaded, editor swap files, rename, and the virtual stats files.
- Metadata refreshed from the remote side, with the invalidation it triggers; entries may only expire.
- `PathResolvers.PathOps.MakeDir`: the quota check before the folder is made.
- File attributes, handle limits, the quota circuit breaker, the API client with its retries, logging and the mount itself.
