/** The file operations in place, over a chunk manager and an upload manager that share the
    local disk and the remote storage: each call is a step of FuseSteps. */
module FuseOps {
  import opened FileContents
  import opened ChunkManagers
  import opened UploadQueues
  import opened UploadManagers
  import opened FuseFiles
  import opened FuseSteps
  import OF = OpenFiles

  /** A call from the kernel, or an upload job or an expiry at work in between. */
  datatype Call =
    | CallOpen(id: FileId, write: bool, trunc: bool, temp: Path)
    | CallRead(fd: nat, length: nat, offset: nat)
    | CallWrite(fd: nat, buffer: Bytes, offset: nat)
    | CallTruncate(fd: nat, size: nat)
    | CallRelease(fd: nat, now: nat)
    | CallUpload(id: FileId, newId: FileId)
    | CallExpire(id: FileId)

  class FileOps {
    const storage: StorageClient
    const local: LocalDisk
    const chunks: ChunkManager
    const uploads: UploadManager
    /** Cached metadata sizes. */
    var sizes: map<FileId, nat>
    var openFiles: map<nat, Info>
    var nextFd: nat

    ghost function State(): Conc
      reads this, storage`remote, local, uploads, chunks, chunks.cache
    {
      Conc(storage.remote, local.files, uploads.queue, sizes, openFiles, nextFd, chunks.cache.entries, chunks.disk)
    }

    function Config(): Setup {
      Setup(uploads.dir, uploads.maxRetries, chunks.chunkSize)
    }

    ghost predicate Wired() {
      chunks.storage == storage && uploads.storage == storage && uploads.local == local && chunks.diskWorks
    }

    /** Between operations: contents, sizes and handles are consistent, cached chunks equal
        remote chunks, and no chunk of a file with a queued copy is cached. */
    ghost predicate Valid()
      reads this, storage`remote, local, uploads, chunks, chunks.cache
    {
      && Wired() && chunks.Valid() && uploads.Persisted()
      && Ok(State(), uploads.dir) && chunks.Clear(uploads.queue.Keys)
      && forall id :: id in storage.remote ==> ValidId(id)
    }

    constructor (
      storage: StorageClient, local: LocalDisk, chunks: ChunkManager, uploads: UploadManager, sizes: map<FileId, nat>)
      requires chunks.storage == storage && uploads.storage == storage && uploads.local == local && chunks.diskWorks
      requires chunks.Valid() && uploads.Persisted() && chunks.Clear(uploads.queue.Keys)
      requires forall id :: id in storage.remote ==> ValidId(id)
      requires var layers := chunks.cache.entries;
        Ok(Conc(storage.remote, local.files, uploads.queue, sizes, map[], 1000, layers, chunks.disk), uploads.dir)
      ensures Valid()
    {
      this.storage, this.local, this.chunks, this.uploads := storage, local, chunks, uploads;
      this.sizes := sizes;
      this.openFiles := map[];
      this.nextFd := 1000;
    }

    lemma ValidInv()
      requires Valid()
      ensures Inv(State(), Config())
    {
      hide Ok, ValidId, ChunkOf;
      forall key, value | Cached(State(), key, value)
        ensures key.0 !in uploads.queue && ChunkIs(State(), chunks.chunkSize, key, value)
      {
        if key in chunks.disk && chunks.disk[key] == value {
          assert chunks.ChunkOk(key, value);
        }
      }
    }

    /** Downloads and evictions as the chunk manager promises them are what DoCaches allows. */
    lemma Filled(before: Conc)
      requires Wired() && chunks.Valid() && chunks.Clear(uploads.queue.Keys)
      requires State() == before.(mem := State().mem, disk := State().disk)
      ensures OnlyCaches(before, State(), chunks.chunkSize)
    {
      hide ChunkOf;
      forall key, value | Cached(State(), key, value)
        ensures key.0 !in before.queue && ChunkIs(before, chunks.chunkSize, key, value)
      {
        if key in chunks.disk && chunks.disk[key] == value {
          assert chunks.ChunkOk(key, value);
        }
      }
    }

    /** open: writers get an empty temporary file and fetch nothing yet. */
    method OpenFile(id: FileId, write: bool, trunc: bool, temp: Path) returns (fd: nat)
      requires Valid() && id in storage.remote
      requires temp !in local.files && !IsUploadPath(uploads.dir, temp)
      modifies this`openFiles, this`nextFd, local
      ensures Valid()
      ensures Acts(old(State()), DoOpen(id, write, trunc, temp), OF.Fd(fd), State(), Config())
      ensures Refines(old(State()), OF.Open(id, write, trunc), OF.Fd(fd), State(), uploads.dir)
    {
      hide ChunkManager.Valid, ChunkManager.Clear, UploadManager.Persisted, Ok, LayersOk, IsUploadPath, ValidId;
      ValidInv();
      ghost var before := State();
      fd := nextFd;
      nextFd := nextFd + 1;
      if write {
        local.files := local.files[temp := []];
        openFiles := openFiles[fd := WriteInfo(id, temp, trunc, trunc, 0)];
      } else {
        openFiles := openFiles[fd := ReadInfo(id)];
      }
      ActsRefine(before, DoOpen(id, write, trunc, temp), OF.Fd(fd), State(), Config());
    }

    /** The first read, write or truncate copies the base in: the queued copy if there is
        one, else the remote one, unless the cached metadata says there is nothing. */
    method EnsureDownloaded(fd: nat) returns (ok: bool)
      requires Valid() && IsWriter(State(), fd)
      modifies this`openFiles, local
      ensures State() == if ok then Touch(old(State()), fd) else old(State())
      ensures !ok ==> MayFail(old(State()), fd) && !storage.reliable
      ensures Valid() && IsWriter(State(), fd) && openFiles[fd].temp == old(openFiles)[fd].temp
    {
      hide ChunkManager.Valid, ChunkManager.Clear, UploadManager.Persisted, Ok, ValidId, WriteAt, TouchedFrom,
        JobsOk, SizesOk, InfoOk, TempsDistinct, Abs, Content, IsUploadPath, OF.Step, OF.WellFormed;
      ghost var before := State();
      TouchIs(before, uploads.dir, fd);
      TouchedFacts(before, Touch(before, fd), uploads.dir, fd);
      HandleFacts(before, uploads.dir, fd);
      var info := openFiles[fd];
      if info.downloaded {
        return true;
      }
      var data: Bytes := [];
      if info.id in sizes && sizes[info.id] > 0 {
        var pending := uploads.GetPendingPath(info.id);
        if pending.Some? && pending.value in local.files {
          data := local.files[pending.value];
        } else {
          var remote := storage.GetFileContent(info.id);
          if remote.None? {
            return false;
          }
          data := remote.value;
        }
      }
      local.files := local.files[info.temp := WriteAt(local.files[info.temp], info.position, data)];
      openFiles := openFiles[fd := info.(downloaded := true, position := info.position + |data|)];
      return true;
    }

    /** read: a write handle reads its own file; a read-only one the queued copy, else the
        cached chunks of the remote copy.  It fails when storage does, or when the metadata
        of a file that is not queued is gone. */
    method ReadFile(fd: nat, length: nat, offset: nat) returns (out: OF.Out, ghost step: Action)
      requires Valid()
      modifies this`openFiles, local, chunks.cache, chunks`disk, storage`requests
      ensures Valid()
      ensures Acts(old(State()), step, out, State(), Config())
      ensures Refines(old(State()), OpOf(step), out, State(), uploads.dir)
      ensures OpOf(step) == OF.Read(fd, length, offset) || step == DoFail(fd)
      ensures step == DoFail(fd) ==>
        !storage.reliable || (old(openFiles)[fd].ReadInfo? && old(openFiles)[fd].id !in sizes)
    {
      hide ChunkManager.Valid, ChunkManager.Clear, UploadManager.Persisted, Ok, LayersOk, ValidId, Slice, Fills, Joined,
        Opens, Writes, Truncates, Releases, Uploads, Refines, ReadsShared, MayFail, Abs, JobsOk, IsUploadPath, Touch;
      ghost var before := State();
      step := DoRead(fd, length, offset, []);
      ValidInv();
      if fd !in openFiles {
        out := OF.Failed;
      } else {
        var info := openFiles[fd];
        HandleFacts(before, uploads.dir, fd);
        if info.WriteInfo? {
          var ok := EnsureDownloaded(fd);
          if ok {
            var data := if info.temp in local.files then Slice(local.files[info.temp], offset, length) else [];
            EmptySlice(offset, length);
            openFiles := openFiles[fd := openFiles[fd].(position := offset + |data|)];
            out := OF.Data(data);
          } else {
            out, step := OF.Failed, DoFail(fd);
            SameCaches(before, chunks.chunkSize);
          }
        } else {
          out, step := ReadShared(fd, info.id, length, offset);
        }
      }
      ActsRefine(before, step, out, State(), Config());
    }

    lemma EmptySlice(offset: nat, length: nat)
      ensures Slice([], offset, length) == []
    {}

    lemma SameCaches(c: Conc, size: nat)
      ensures OnlyCaches(c, c, size)
    {}

    /** A read on a read-only handle. */
    method ReadShared(fd: nat, id: FileId, length: nat, offset: nat) returns (out: OF.Out, ghost step: Action)
      requires Valid() && fd in openFiles && openFiles[fd] == ReadInfo(id) && id in storage.remote
      modifies chunks.cache, chunks`disk, storage`requests
      ensures chunks.Valid() && chunks.Clear(uploads.queue.Keys)
      ensures Acts(old(State()), step, out, State(), Config())
      ensures OpOf(step) == OF.Read(fd, length, offset) || step == DoFail(fd)
      ensures step == DoFail(fd) ==> !storage.reliable || id !in sizes
    {
      hide Ok, JobsOk, UploadManager.Persisted, ValidId, Slice, Joined, ChunkManager.Valid, ChunkManager.Clear;
      ghost var before := State();
      HandleFacts(before, uploads.dir, fd);
      step := DoRead(fd, length, offset, []);
      var pending := uploads.GetPendingPath(id);
      if pending.Some? && pending.value in local.files {
        return OF.Data(Slice(local.files[pending.value], offset, length)), step;
      }
      if id !in sizes {
        SameCaches(before, chunks.chunkSize);
        return OF.Failed, DoFail(fd);
      }
      KnownSize(before, uploads.dir, id);
      var data := chunks.ReadContentRange(id, offset, length, sizes[id], uploads.queue.Keys);
      Filled(before);
      if data.None? {
        return OF.Failed, DoFail(fd);
      }
      ghost var pieces := AllChunks(before, id, offset, length);
      step := DoRead(fd, length, offset, pieces);
      return OF.Data(data.value), step;
    }

    /** The chunks of a range, as storage would give them. */
    lemma AllChunks(c: Conc, id: FileId, offset: nat, length: nat) returns (pieces: seq<Bytes>)
      requires Wired() && chunks.Valid() && id in c.remote
      ensures chunks.chunkSize > 0 && RangeServed(c, chunks.chunkSize, id, offset, length, pieces)
      ensures offset < |c.remote[id]| ==>
        Joined(pieces, offset, length, chunks.chunkSize) == Slice(c.remote[id], offset, length)
      ensures offset >= |c.remote[id]| ==> Slice(c.remote[id], offset, length) == []
    {
      hide ChunkOf, Joined, ChunkManager.Coherent;
      var size := chunks.chunkSize;
      var first := StartChunk(offset, size);
      var count := Max(0, EndChunk(offset, length, size) + 1 - first);
      pieces := seq(count, i requires 0 <= i < count => ChunkOf(c.remote[id], first + i, size));
      if offset < |c.remote[id]| {
        hide StartChunk, EndChunk, Slice;
        JoinedIsSlice(c.remote[id], offset, length, size, pieces);
      }
    }

    method WriteFile(fd: nat, buffer: Bytes, offset: nat) returns (out: OF.Out, ghost step: Action)
      requires Valid()
      modifies this`openFiles, local
      ensures Valid()
      ensures Acts(old(State()), step, out, State(), Config())
      ensures Refines(old(State()), OpOf(step), out, State(), uploads.dir)
      ensures step == DoWrite(fd, buffer, offset) || (step == DoFail(fd) && !storage.reliable)
    {
      hide ChunkManager.Valid, ChunkManager.Clear, UploadManager.Persisted, Ok, LayersOk, ValidId, WriteAt, Touch,
        Opens, Reads, Truncates, Releases, Uploads, Refines, Fills, MayFail, Abs, JobsOk, IsUploadPath;
      ghost var before := State();
      step := DoWrite(fd, buffer, offset);
      ValidInv();
      if fd !in openFiles || openFiles[fd].ReadInfo? {
        out := OF.Failed;
      } else {
        var ok := EnsureDownloaded(fd);
        if ok {
          var info := openFiles[fd];
          var data := if info.temp in local.files then local.files[info.temp] else [];
          local.files := local.files[info.temp := WriteAt(data, offset, buffer)];
          openFiles := openFiles[fd := info.(modified := true, position := offset + |buffer|)];
          out := OF.Count(|buffer|);
        } else {
          out, step := OF.Failed, DoFail(fd);
          SameCaches(before, chunks.chunkSize);
        }
      }
      ActsRefine(before, step, out, State(), Config());
    }

    /** truncate: only an open write handle is cut or extended; anything else is a no-op. */
    method TruncateFile(fd: nat, size: nat) returns (out: OF.Out, ghost step: Action)
      requires Valid()
      modifies this`openFiles, local
      ensures Valid()
      ensures Acts(old(State()), step, out, State(), Config())
      ensures Refines(old(State()), OpOf(step), out, State(), uploads.dir)
      ensures step == DoTruncate(fd, size) || (step == DoFail(fd) && !storage.reliable)
    {
      hide ChunkManager.Valid, ChunkManager.Clear, UploadManager.Persisted, Ok, LayersOk, ValidId, Resize, Touch,
        Opens, Reads, Writes, Releases, Uploads, Refines, Fills, MayFail, Abs, JobsOk, IsUploadPath;
      ghost var before := State();
      step := DoTruncate(fd, size);
      out := OF.Done;
      ValidInv();
      if fd in openFiles && openFiles[fd].WriteInfo? {
        var ok := EnsureDownloaded(fd);
        if ok {
          var info := openFiles[fd];
          var data := if info.temp in local.files then local.files[info.temp] else [];
          local.files := local.files[info.temp := Resize(data, size)];
          openFiles := openFiles[fd := info.(modified := true)];
        } else {
          out, step := OF.Failed, DoFail(fd);
          SameCaches(before, chunks.chunkSize);
        }
      }
      ActsRefine(before, step, out, State(), Config());
    }

    /** release: a modified file is queued for upload and its chunks are dropped; an
        unmodified one enqueues nothing. */
    method ReleaseFile(fd: nat, now: nat)
      requires Valid()
      modifies this`openFiles, this`sizes, local, chunks.cache, chunks`disk
      modifies uploads`queue, uploads`saved, uploads`queueSize, uploads`submitted
      ensures Valid()
      ensures Acts(old(State()), DoRelease(fd, now), OF.Done, State(), Config())
      ensures Refines(old(State()), OF.Release(fd), OF.Done, State(), uploads.dir)
      ensures uploads.submitted == old(uploads.submitted)
        + if IsModified(old(openFiles), fd) then multiset{old(openFiles)[fd].id} else multiset{}
      ensures !IsModified(old(openFiles), fd) ==> uploads.queue == old(uploads.queue)
    {
      hide ChunkManager.Valid, ChunkManager.Clear, UploadManager.Persisted, Ok, LayersOk, ValidId, Enqueue, WithoutFile,
        Opens, Reads, Writes, Truncates, Uploads, Refines, Fills, MayFail, Abs, JobsOk, IsUploadPath;
      ghost var before := State();
      ValidInv();
      if fd !in openFiles {
        assert openFiles - {fd} == openFiles;
      } else {
        HandleFacts(before, uploads.dir, fd);
        var info := openFiles[fd];
        openFiles := openFiles - {fd};
        if info.WriteInfo? && info.modified {
          PublishFile(before, fd, info, now);
        } else if info.WriteInfo? {
          local.files := local.files - {info.temp};
        }
      }
      ActsRefine(before, DoRelease(fd, now), OF.Done, State(), Config());
    }

    method PublishFile(ghost before: Conc, fd: nat, info: Info, now: nat)
      requires Wired() && chunks.Valid() && uploads.Persisted() && chunks.Clear(uploads.queue.Keys)
      requires Ok(before, uploads.dir) && fd in before.open && info == before.open[fd]
      requires info.WriteInfo? && info.modified && info.temp in local.files
      requires !IsUploadPath(uploads.dir, info.temp) && State() == before.(open := before.open - {fd})
      modifies this`sizes, local, chunks.cache, chunks`disk
      modifies uploads`queue, uploads`saved, uploads`queueSize, uploads`submitted
      ensures chunks.Valid() && uploads.Persisted() && chunks.Clear(uploads.queue.Keys)
      ensures Acts(before, DoRelease(fd, now), OF.Done, State(), Config())
      ensures uploads.submitted == old(uploads.submitted) + multiset{info.id}
    {
      hide ChunkManager.Valid, ChunkManager.Clear, Ok, SafePath, Active, WithoutFile,
        Opens, Reads, Writes, Truncates, Uploads, Refines, Fills, MayFail, Abs, JobsOk, IsUploadPath;
      QueuedApart(before, uploads.dir, info.temp);
      assert uploads.View() == AsQueue(before);
      if info.id in sizes {
        sizes := sizes[info.id := |local.files[info.temp]|];
      }
      uploads.EnqueueFile(info.id, info.temp, false, None, None, now);
      assert uploads.queue.Keys == before.queue.Keys + {info.id};
      chunks.InvalidateFile(info.id);
    }

    /** One upload attempt: no content changes, whatever its outcome. */
    method UploadOnce(id: FileId, newId: FileId) returns (outcome: Outcome)
      requires Valid() && newId !in storage.remote
      modifies local, storage, uploads`queue, uploads`saved, uploads`queueSize, uploads`timers
      ensures Valid()
      ensures Acts(old(State()), DoUpload(id, newId, outcome), OF.Done, State(), Config())
      ensures Refines(old(State()), OF.Background, OF.Done, State(), uploads.dir)
      ensures storage.reliable && IsPending(old(uploads.View()), id) ==> outcome == Uploaded
    {
      hide ChunkManager.Valid, ChunkManager.Clear, Ok, LayersOk, ValidId, Active;
      ghost var before := State();
      ValidInv();
      QueuedFacts(before, uploads.dir, id);
      assert uploads.View() == AsQueue(before);
      outcome := uploads.ExecutePendingUploadJob(id, newId);
      ActsRefine(before, DoUpload(id, newId, outcome), OF.Done, State(), Config());
      chunks.RemoteChanged(before.queue.Keys);
      assert uploads.queue.Keys <= before.queue.Keys;
    }

    /** The entry of a file leaves the metadata cache. */
    method ExpireMetadata(id: FileId)
      requires Valid()
      modifies this`sizes
      ensures Valid()
      ensures Acts(old(State()), DoExpire(id), OF.Done, State(), Config())
      ensures Refines(old(State()), OF.Expire(id), OF.Done, State(), uploads.dir)
    {
      hide ChunkManager.Valid, ChunkManager.Clear, UploadManager.Persisted, Ok, LayersOk, ValidId;
      ghost var before := State();
      ValidInv();
      sizes := sizes - {id};
      ActsRefine(before, DoExpire(id), OF.Done, State(), Config());
    }

    /** Downloads and evictions by other threads between the calls. */
    method CachesAtWork()
      requires Valid()
      modifies chunks.cache, chunks`disk, storage`requests
      ensures Valid()
      ensures Acts(old(State()), DoCaches, OF.Done, State(), Config())
    {
      hide ChunkManager.Valid, ChunkManager.Clear, UploadManager.Persisted, Ok, LayersOk, ValidId;
      ghost var before := State();
      ValidInv();
      chunks.OtherThreads(uploads.queue.Keys);
      Filled(before);
      ActsRefine(before, DoCaches, OF.Done, State(), Config());
    }

    /** One call, with downloads and evictions at work before it.  An open of an unknown file
        or with a taken temporary name, and an upload under a taken id, are not made. */
    method ServeCall(call: Call) returns (out: OF.Out, ghost between: Conc, ghost step: Action)
      requires Valid() && (call.CallOpen? ==> !IsUploadPath(uploads.dir, call.temp))
      modifies this`sizes, this`openFiles, this`nextFd, local, storage, chunks.cache, chunks`disk
      modifies uploads`queue, uploads`saved, uploads`queueSize, uploads`submitted, uploads`timers
      ensures Valid() && Performs(call, between, step)
      ensures Acts(old(State()), DoCaches, OF.Done, between, Config()) && Acts(between, step, out, State(), Config())
    {
      hide Valid, Acts, Refines, Config, OpOf;
      CachesAtWork();
      between, out, step := State(), OF.Done, DoCaches;
      match call
      case CallOpen(id, write, trunc, temp) =>
        if id in storage.remote && temp !in local.files {
          var fd := OpenFile(id, write, trunc, temp);
          out, step := OF.Fd(fd), DoOpen(id, write, trunc, temp);
        } else {
          CachesAtWork();
        }
      case CallRead(fd, length, offset) => out, step := ReadFile(fd, length, offset);
      case CallWrite(fd, buffer, offset) => out, step := WriteFile(fd, buffer, offset);
      case CallTruncate(fd, size) => out, step := TruncateFile(fd, size);
      case CallRelease(fd, now) =>
        ReleaseFile(fd, now);
        step := DoRelease(fd, now);
      case CallUpload(id, newId) =>
        if newId !in storage.remote {
          var outcome := UploadOnce(id, newId);
          step := DoUpload(id, newId, outcome);
        } else {
          CachesAtWork();
        }
      case CallExpire(id) =>
        ExpireMetadata(id);
        step := DoExpire(id);
    }

    /** Any sequence of calls is a run of FuseSteps, and its results are those of the open
        files. */
    method ServeCalls(calls: seq<Call>) returns (outs: seq<OF.Out>, ghost cs: seq<Conc>, ghost steps: seq<Action>)
      requires Valid() && forall call :: call in calls && call.CallOpen? ==> !IsUploadPath(uploads.dir, call.temp)
      modifies this`sizes, this`openFiles, this`nextFd, local, storage, chunks.cache, chunks`disk
      modifies uploads`queue, uploads`saved, uploads`queueSize, uploads`submitted, uploads`timers
      ensures Valid()
      ensures IsServiceRun(cs, steps, outs, Config()) && cs[0] == old(State()) && cs[|steps|] == State()
      ensures |steps| == 2 * |calls|
      ensures forall i :: 0 <= i < |calls| ==>
        steps[2 * i] == DoCaches && Performs(calls[i], cs[2 * i + 1], steps[2 * i + 1])
      ensures AbsOk(cs[0], uploads.dir) && OF.RunsOn(Abs(cs[0], uploads.dir), Ops(steps), false)
      ensures outs == OF.Outs(Abs(cs[0], uploads.dir), Ops(steps))
    {
      hide Valid, Acts, Inv, State, OpOf, Performs, AbsOk, Abs;
      ValidInv();
      outs, cs, steps := [], [State()], [];
      var i := 0;
      while i < |calls|
        invariant 0 <= i <= |calls| && Valid() && |steps| == 2 * i
        invariant IsServiceRun(cs, steps, outs, Config()) && cs[0] == old(State()) && cs[|steps|] == State()
        invariant forall j :: 0 <= j < i ==>
          steps[2 * j] == DoCaches && Performs(calls[j], cs[2 * j + 1], steps[2 * j + 1])
      {
        var out, between, step := ServeCall(calls[i]);
        RunLonger(cs, steps, outs, Config(), DoCaches, OF.Done, between);
        cs, steps, outs := cs + [between], steps + [DoCaches], outs + [OF.Done];
        RunLonger(cs, steps, outs, Config(), step, out, State());
        cs, steps, outs := cs + [State()], steps + [step], outs + [out];
        i := i + 1;
      }
      RunRefines(cs, steps, outs, Config());
    }
  }

  /** What a call made in state `c` comes to; that it may fail is for Acts to say. */
  predicate Performs(call: Call, c: Conc, step: Action) {
    match call
    case CallOpen(id, write, trunc, temp) =>
      step == if id in c.remote && temp !in c.files then DoOpen(id, write, trunc, temp) else DoCaches
    case CallRead(fd, length, offset) => OpOf(step) == OF.Read(fd, length, offset) || step == DoFail(fd)
    case CallWrite(fd, buffer, offset) => step == DoWrite(fd, buffer, offset) || step == DoFail(fd)
    case CallTruncate(fd, size) => step == DoTruncate(fd, size) || step == DoFail(fd)
    case CallRelease(fd, now) => step == DoRelease(fd, now)
    case CallUpload(id, newId) =>
      if newId in c.remote then step == DoCaches else step.DoUpload? && step.id == id && step.newId == newId
    case CallExpire(id) => step == DoExpire(id)
  }

  predicate IsModified(open: map<nat, Info>, fd: nat) {
    fd in open && open[fd].WriteInfo? && open[fd].modified
  }

  lemma HandleFacts(c: Conc, dir: string, fd: nat)
    requires Ok(c, dir) && fd in c.open
    ensures c.open[fd].id in c.remote && (c.open[fd].id in c.queue ==> c.queue[c.open[fd].id].path in c.files)
    ensures c.open[fd].WriteInfo? ==> c.open[fd].temp in c.files && !IsUploadPath(dir, c.open[fd].temp)
  {
    assert InfoOk(c, dir, fd);
  }

  lemma TouchedFacts(c: Conc, c': Conc, dir: string, fd: nat)
    requires TouchedFrom(c, c', dir, fd)
    ensures Ok(c', dir) && IsWriter(c', fd) && c'.open[fd].temp == c.open[fd].temp
  {}

  lemma KnownSize(c: Conc, dir: string, id: FileId)
    requires Ok(c, dir) && id in c.sizes && !HasQueuedFile(c, id)
    ensures id !in c.queue && id in c.remote && c.sizes[id] == |c.remote[id]|
  {}

  lemma QueuedFacts(c: Conc, dir: string, id: FileId)
    requires Ok(c, dir)
    ensures id in c.queue ==> id in c.remote && !c.queue[id].isNew && c.queue[id].path in c.files
  {}

  lemma QueuedApart(c: Conc, dir: string, temp: Path)
    requires Ok(c, dir) && !IsUploadPath(dir, temp)
    ensures forall id :: id in c.queue ==> c.queue[id].path != temp
  {
    TempNotQueued(c, dir, temp);
  }
}
