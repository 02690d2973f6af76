/** The upload manager in place: each method does to the queue, its files and its triggers
    what the functions of UploadQueues say. */
module UploadManagers {
  import opened FileContents
  import opened ChunkManagers
  import opened JournalNames
  import opened JournalRecovery
  import opened UploadQueues

  class LocalDisk {
    var files: map<Path, Bytes>

    constructor ()
      ensures files == map[]
    {
      files := map[];
    }
  }

  class UploadManager {
    const storage: StorageClient
    const local: LocalDisk
    const dir: string
    const maxRetries: int
    var queue: map<FileId, Job>
    var saved: map<FileId, Job>
    var queueSize: int
    /** Tasks handed to the upload pool, and armed timers with their delays. */
    var submitted: multiset<FileId>
    var timers: multiset<(FileId, nat)>

    ghost function View(): Queue
      reads this, local
    {
      Queue(local.files, queue, saved, queueSize)
    }

    /** The saved queue and the size metric are up to date. */
    ghost predicate Persisted()
      reads this
    {
      saved == queue && queueSize == Active(queue)
    }

    /** Starts from the queue saved by an earlier process, empty if there is none or it cannot
        be read, queues what that process left in the journal and resumes every pending
        upload. */
    constructor (
      storage: StorageClient, local: LocalDisk, dir: string, maxRetries: int, stored: Option<map<FileId, Job>>,
      journal: string, leftovers: seq<Leftover>, now: nat)
      requires Listing(Loaded(local.files, stored), dir, journal, leftovers)
      modifies local
      ensures this.storage == storage && this.local == local && this.dir == dir && this.maxRetries == maxRetries
      ensures View() == RecoverAll(Loaded(old(local.files), stored), dir, journal, leftovers, now)
      ensures submitted == Targets(leftovers) + multiset(PendingIds(View())) && timers == multiset{}
    {
      hide Listing, RecoverAll, Targets;
      var saved: map<FileId, Job> := if stored.Some? then stored.value else map[];
      this.storage, this.local, this.dir, this.maxRetries := storage, local, dir, maxRetries;
      this.saved, this.queue := saved, saved;
      this.queueSize := |set id | id in saved && saved[id].status != Failed|;
      submitted := multiset{};
      timers := multiset{};
      new;
      RecoverJournal(journal, leftovers, now);
      ProcessQueue();
    }

    method ProcessQueue()
      modifies this`submitted
      ensures submitted == old(submitted) + multiset(PendingIds(View()))
    {
      submitted := submitted + multiset(set id | id in queue && queue[id].status == Pending);
    }

    /** Queues the recognised files of the journal directory, in the order of its listing. */
    method RecoverJournal(journal: string, leftovers: seq<Leftover>, now: nat)
      requires Listing(View(), dir, journal, leftovers)
      modifies this`queue, this`saved, this`queueSize, this`submitted, local
      ensures View() == RecoverAll(old(View()), dir, journal, leftovers, now)
      ensures submitted == old(submitted) + Targets(leftovers)
    {
      hide RecoverOne, Recover, IsUploadPath, Target;
      var i := 0;
      while i < |leftovers|
        invariant 0 <= i <= |leftovers|
        invariant Listing(View(), dir, journal, leftovers[i..])
        invariant RecoverAll(old(View()), dir, journal, leftovers, now)
               == RecoverAll(View(), dir, journal, leftovers[i..], now)
        invariant submitted == old(submitted) + Targets(leftovers[..i])
      {
        StepListing(View(), dir, journal, leftovers[i..], now);
        assert leftovers[i..][1..] == leftovers[i + 1..] && leftovers[..i + 1][..i] == leftovers[..i];
        RecoverFile(journal, leftovers[i], now);
        i := i + 1;
      }
      assert leftovers[..i] == leftovers && leftovers[i..] == [];
    }

    method RecoverFile(journal: string, f: Leftover, now: nat)
      requires FileOk(View(), dir, journal, f)
      modifies this`queue, this`saved, this`queueSize, this`submitted, local
      ensures View() == RecoverOne(old(View()), dir, journal, f, now)
      ensures submitted == old(submitted) + if Target(f).Some? then multiset{Target(f).value} else multiset{}
    {
      hide Recover, IsUploadPath, Enqueue;
      match Recover(f.name)
      case Edit(id) => EnqueueFile(id, JournalPath(journal, f), false, None, None, now);
      case Create(parent, name) => EnqueueFile(f.made, JournalPath(journal, f), true, Some(parent), Some(name), now);
      case _ =>
    }

    method PersistQueue()
      modifies this`saved, this`queueSize
      ensures View() == Persist(old(View()))
    {
      saved := queue;
      queueSize := |set id | id in queue && queue[id].status != Failed|;
    }

    method EnqueueFile(id: FileId, temp: Path, isNew: bool, parent: Option<FileId>, name: Option<Bytes>, now: nat)
      requires temp in local.files && (id in queue ==> queue[id].path != temp)
      modifies this`queue, this`saved, this`queueSize, this`submitted, local
      ensures View() == Enqueue(old(View()), dir, id, temp, isNew, parent, name, now)
      ensures submitted == old(submitted) + multiset{id}
    {
      hide SafePath, Active;
      var safe := SafePath(dir, id, now);
      var existingRetries := 0;
      if id in queue {
        existingRetries := queue[id].retries;
        if queue[id].path in local.files {
          local.files := local.files - {queue[id].path};
        }
      }
      local.files := (local.files - {temp})[safe := local.files[temp]];
      queue := queue[id := Job(safe, existingRetries, Pending, isNew, parent, name)];
      PersistQueue();
      submitted := submitted + multiset{id};
    }

    method GetPendingPath(id: FileId) returns (path: Option<Path>)
      ensures path == if id in queue then Some(queue[id].path) else None
    {
      path := if id in queue then Some(queue[id].path) else None;
    }

    method RemoveJobOf(id: FileId, path: Option<Path>)
      modifies this`queue, this`saved, this`queueSize, local
      ensures View() == RemoveJob(old(View()), id, path)
    {
      if path.Some? && path.value in local.files {
        local.files := local.files - {path.value};
      }
      assert path.Some? ==> local.files == old(local.files) - {path.value};
      queue := queue - {id};
      PersistQueue();
    }

    method HandleFailureOf(id: FileId, fatal: bool)
      modifies this`queue, this`saved, this`queueSize, this`timers
      ensures View() == HandleFailure(old(View()), id, fatal, maxRetries)
      ensures timers == old(timers)
        + if Retries(old(View()), id, fatal, maxRetries)
          then multiset{(id, Backoff(old(queue)[id].retries + 1))} else multiset{}
    {
      if id !in queue {
        return;
      }
      var job := queue[id];
      job := job.(retries := job.retries + 1);
      if job.retries > maxRetries || fatal {
        queue := queue[id := job.(status := Failed)];
        PersistQueue();
      } else {
        queue := queue[id := job];
        PersistQueue();
        timers := timers + multiset{(id, Backoff(job.retries))};
      }
    }

    /** One upload job, start to end.  The storage call may fail, fatally or not; `newId` is
        the id the storage would give a new file. */
    method ExecutePendingUploadJob(id: FileId, newId: FileId) returns (outcome: Outcome)
      requires newId !in storage.remote
      modifies this`queue, this`saved, this`queueSize, this`timers, local, storage
      ensures View() == AttemptOnce(old(View()), id, outcome, maxRetries)
      ensures outcome == FileMissing <==> IsPending(old(View()), id) && old(queue[id].path !in local.files)
      ensures timers == old(timers)
        + if IsPending(old(View()), id) && (outcome == Error || outcome == Fatal)
             && Retries(old(View()), id, outcome == Fatal, maxRetries)
          then multiset{(id, Backoff(old(queue)[id].retries + 1))} else multiset{}
      ensures outcome == Uploaded ==> IsPending(old(View()), id) && old(queue[id].path in local.files)
      ensures storage.remote ==
        if outcome == Uploaded
        then old(storage.remote)[if old(queue[id].isNew) then newId else id := old(local.files[queue[id].path])]
        else old(storage.remote)
      ensures storage.reliable && IsPending(old(View()), id) ==> outcome == Uploaded || outcome == FileMissing
    {
      hide Active, SafePath, PathOf;
      outcome := Error;
      if id !in queue || queue[id].status != Pending {
        return;
      }
      var job := queue[id];
      if job.path !in local.files {
        RemoveJobOf(id, None);
        return FileMissing;
      }
      var reached, quota: bool := *, *;
      if !reached && !storage.reliable {
        HandleFailureOf(id, quota);
        return if quota then Fatal else Error;
      }
      if job.isNew {
        storage.remote := storage.remote[newId := local.files[job.path]];
      } else {
        storage.remote := storage.remote[id := local.files[job.path]];
      }
      RemoveJobOf(id, Some(job.path));
      return Uploaded;
    }
  }

  /** The queue as loading finds it. */
  ghost function Loaded(files: map<Path, Bytes>, stored: Option<map<FileId, Job>>): Queue {
    var jobs: map<FileId, Job> := if stored.Some? then stored.value else map[];
    Queue(files, jobs, jobs, Active(jobs))
  }
}
