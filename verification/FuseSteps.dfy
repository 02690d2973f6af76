/** The file operations as steps on the shared state, together with uploads, downloads,
    evictions and expiring metadata: every step keeps the invariant and refines the open
    files of OpenFiles, over every run. */
module FuseSteps {
  import opened FileContents
  import opened ChunkCaches
  import opened ChunkManagers
  import opened UploadQueues
  import opened FuseFiles
  import OF = OpenFiles

  datatype Setup = Setup(dir: string, maxRetries: int, chunkSize: nat)

  /** DoFail is a call that fails for want of metadata or of storage, DoCaches any number of
      chunk downloads and evictions. */
  datatype Action =
    | DoOpen(id: FileId, write: bool, trunc: bool, temp: Path)
    | DoRead(fd: nat, length: nat, offset: nat, pieces: seq<Bytes>)
    | DoWrite(fd: nat, data: Bytes, offset: nat)
    | DoTruncate(fd: nat, size: nat)
    | DoRelease(fd: nat, now: nat)
    | DoUpload(id: FileId, newId: FileId, outcome: Outcome)
    | DoExpire(id: FileId)
    | DoFail(fd: nat)
    | DoCaches

  // ---- chunk layers ----

  /** The value is the chunk of the remote copy, and not one past its end. */
  predicate ChunkIs(c: Conc, size: nat, key: CacheKey, value: Bytes) {
    && key.0 in c.remote && key.1 * size < |c.remote[key.0]|
    && value == ChunkOf(c.remote[key.0], key.1, size)
  }

  predicate Cached(c: Conc, key: CacheKey, value: Bytes) {
    Entry(key, value) in c.mem || (key in c.disk && c.disk[key] == value)
  }

  /** Cached chunks equal remote chunks, and none is cached of a file with a queued copy. */
  ghost predicate LayersOk(c: Conc, size: nat) {
    && size > 0
    && forall key: CacheKey, value: Bytes :: Cached(c, key, value) ==> key.0 !in c.queue && ChunkIs(c, size, key, value)
  }

  /** After downloads and evictions a chunk was cached before, or was downloaded; no chunk of
      a queued file is downloaded, since reads of it are served from its queued copy. */
  ghost predicate Fills(c: Conc, c': Conc, size: nat) {
    forall key: CacheKey, value: Bytes :: Cached(c', key, value) ==>
      Cached(c, key, value) || (key.0 !in c.queue && ChunkIs(c, size, key, value))
  }

  ghost predicate OnlyCaches(c: Conc, c': Conc, size: nat) {
    c' == c.(mem := c'.mem, disk := c'.disk) && Fills(c, c', size)
  }

  /** The pieces of a range, one for each chunk that the loop visits, each from a cache or
      from storage. */
  ghost predicate RangeServed(c: Conc, size: nat, id: FileId, offset: nat, length: nat, pieces: seq<Bytes>)
    requires size > 0
  {
    && |pieces| == Max(0, EndChunk(offset, length, size) + 1 - StartChunk(offset, size))
    && forall i :: 0 <= i < |pieces| ==> ServedFrom(c, size, id, StartChunk(offset, size) + i, pieces[i])
  }

  ghost predicate ServedFrom(c: Conc, size: nat, id: FileId, index: nat, piece: Bytes) {
    Cached(c, (id, index), piece) || (id in c.remote && piece == ChunkOf(c.remote[id], index, size))
  }

  /** What the loop makes of the pieces. */
  function Joined(pieces: seq<Bytes>, offset: nat, length: nat, size: nat): Bytes
    requires size > 0
    requires StartChunk(offset, size) + |pieces| <= Max(StartChunk(offset, size), EndChunk(offset, length, size) + 1)
  {
    if pieces == [] then []
    else
      var n := |pieces| - 1;
      var index := StartChunk(offset, size) + n;
      IndexBefore(index, EndChunk(offset, length, size), size, offset + length - 1);
      Joined(pieces[..n], offset, length, size) + Wanted(pieces[n], offset, length, index, size)
  }

  // ---- steps ----

  function FileAt(c: Conc, p: Path): Bytes {
    if p in c.files then c.files[p] else []
  }

  predicate HasQueuedFile(c: Conc, id: FileId) {
    id in c.queue && c.queue[id].path in c.files
  }

  predicate IsWriter(c: Conc, fd: nat) {
    fd in c.open && c.open[fd].WriteInfo?
  }

  /** What the lazy fetch finds: nothing unless the cached size says there is something,
      then the queued copy, else the remote one. */
  function Fetch(c: Conc, id: FileId): Bytes {
    if id !in c.sizes || c.sizes[id] == 0 then []
    else if HasQueuedFile(c, id) then c.files[c.queue[id].path]
    else if id in c.remote then c.remote[id]
    else []
  }

  /** The lazy fetch writes what it finds at the current position of the temporary file. */
  function Touch(c: Conc, fd: nat): Conc
    requires IsWriter(c, fd)
  {
    var h := c.open[fd];
    if h.downloaded then c
    else
      var data := Fetch(c, h.id);
      c.(files := c.files[h.temp := WriteAt(FileAt(c, h.temp), h.position, data)],
         open := c.open[fd := h.(downloaded := true, position := h.position + |data|)])
  }

  /** A touched handle with new bytes in its temporary file. */
  function Rewritten(c: Conc, fd: nat, data: Bytes, position: nat): Conc
    requires IsWriter(c, fd)
  {
    var c1 := Touch(c, fd);
    c1.(files := c1.files[c.open[fd].temp := data],
        open := c1.open[fd := c1.open[fd].(modified := true, position := position)])
  }

  ghost function AsQueue(c: Conc): Queue {
    Queue(c.files, c.queue, c.queue, Active(c.queue))
  }

  ghost predicate Opens(c: Conc, step: Action, out: OF.Out, c': Conc, cfg: Setup)
    requires step.DoOpen?
  {
    && step.id in c.remote && step.temp !in c.files && !IsUploadPath(cfg.dir, step.temp)
    && out == OF.Fd(c.nextFd)
    && c' == c.(files := if step.write then c.files[step.temp := []] else c.files,
                open := c.open[c.nextFd := OpenInfo(step.id, step.write, step.trunc, step.temp)],
                nextFd := c.nextFd + 1)
  }

  ghost predicate Reads(c: Conc, step: Action, out: OF.Out, c': Conc, cfg: Setup)
    requires step.DoRead?
  {
    if step.fd !in c.open then out == OF.Failed && c' == c
    else if IsWriter(c, step.fd) then
      var c1 := Touch(c, step.fd);
      var data := Slice(FileAt(c1, c.open[step.fd].temp), step.offset, step.length);
      && out == OF.Data(data)
      && c' == c1.(open := c1.open[step.fd := c1.open[step.fd].(position := step.offset + |data|)])
    else ReadsShared(c, step, c.open[step.fd].id, out, c', cfg.chunkSize)
  }

  /** A read-only read: the queued copy if there is one, else the chunks of the remote copy
      up to its cached size. */
  ghost predicate ReadsShared(c: Conc, step: Action, id: FileId, out: OF.Out, c': Conc, size: nat)
    requires step.DoRead?
  {
    if HasQueuedFile(c, id) then
      out == OF.Data(Slice(c.files[c.queue[id].path], step.offset, step.length)) && c' == c
    else
      (OnlyCaches(c, c', size) && size > 0 && id in c.sizes
       && if step.offset >= c.sizes[id] then out == OF.Data([])
          else (RangeServed(c, size, id, step.offset, step.length, step.pieces)
                && out == OF.Data(Joined(step.pieces, step.offset, step.length, size))))
  }

  ghost predicate Writes(c: Conc, step: Action, out: OF.Out, c': Conc)
    requires step.DoWrite?
  {
    if !IsWriter(c, step.fd) then out == OF.Failed && c' == c
    else
      var data := WriteAt(FileAt(Touch(c, step.fd), c.open[step.fd].temp), step.offset, step.data);
      out == OF.Count(|step.data|) && c' == Rewritten(c, step.fd, data, step.offset + |step.data|)
  }

  ghost predicate Truncates(c: Conc, step: Action, out: OF.Out, c': Conc)
    requires step.DoTruncate?
  {
    && out == OF.Done
    && if !IsWriter(c, step.fd) then c' == c
       else
         var c1 := Touch(c, step.fd);
         c' == Rewritten(c, step.fd, Resize(FileAt(c1, c.open[step.fd].temp), step.size), c1.open[step.fd].position)
  }

  ghost predicate Releases(c: Conc, step: Action, out: OF.Out, c': Conc, cfg: Setup)
    requires step.DoRelease?
  {
    var open := c.open - {step.fd};
    && out == OF.Done
    && if !IsWriter(c, step.fd) then c' == c.(open := open)
       else
         var h := c.open[step.fd];
         if !h.modified then c' == c.(files := c.files - {h.temp}, open := open)
         else
           && h.temp in c.files
           && var q := Enqueue(AsQueue(c), cfg.dir, h.id, h.temp, false, None, None, step.now);
           c' == c.(files := q.files, queue := q.jobs, open := open,
                    sizes := if h.id in c.sizes then c.sizes[h.id := |c.files[h.temp]|] else c.sizes,
                    mem := WithoutFile(c.mem, h.id), disk := map k | k in c.disk && k.0 != h.id :: c.disk[k])
  }

  ghost predicate Uploads(c: Conc, step: Action, out: OF.Out, c': Conc, cfg: Setup)
    requires step.DoUpload?
  {
    var id, q := step.id, AttemptOnce(AsQueue(c), step.id, step.outcome, cfg.maxRetries);
    && out == OF.Done && step.newId !in c.remote
    && (step.outcome == Uploaded ==> IsPending(AsQueue(c), id) && c.queue[id].path in c.files)
    && (step.outcome == FileMissing ==> IsPending(AsQueue(c), id) && c.queue[id].path !in c.files)
    && c' == c.(files := q.files, queue := q.jobs,
                remote := if step.outcome == Uploaded
                          then c.remote[if c.queue[id].isNew then step.newId else id := c.files[c.queue[id].path]]
                          else c.remote)
  }

  /** A call on an open handle may fail when it needs storage, or metadata that is gone. */
  predicate MayFail(c: Conc, fd: nat) {
    && fd in c.open && !HasQueuedFile(c, c.open[fd].id)
    && (c.open[fd].WriteInfo? ==> !c.open[fd].downloaded && c.open[fd].id in c.sizes && c.sizes[c.open[fd].id] > 0)
  }

  ghost predicate Acts(c: Conc, step: Action, out: OF.Out, c': Conc, cfg: Setup) {
    match step
    case DoOpen(_, _, _, _) => Opens(c, step, out, c', cfg)
    case DoRead(_, _, _, _) => Reads(c, step, out, c', cfg)
    case DoWrite(_, _, _) => Writes(c, step, out, c')
    case DoTruncate(_, _) => Truncates(c, step, out, c')
    case DoRelease(_, _) => Releases(c, step, out, c', cfg)
    case DoUpload(_, _, _) => Uploads(c, step, out, c', cfg)
    case DoExpire(id) => out == OF.Done && c' == c.(sizes := c.sizes - {id})
    case DoFail(fd) => out == OF.Failed && MayFail(c, fd) && OnlyCaches(c, c', cfg.chunkSize)
    case DoCaches => out == OF.Done && OnlyCaches(c, c', cfg.chunkSize)
  }

  /** What a step is to the open files. */
  function OpOf(step: Action): OF.Op {
    match step
    case DoOpen(id, write, trunc, _) => OF.Open(id, write, trunc)
    case DoRead(fd, length, offset, _) => OF.Read(fd, length, offset)
    case DoWrite(fd, data, offset) => OF.Write(fd, data, offset)
    case DoTruncate(fd, size) => OF.Truncate(fd, size)
    case DoRelease(fd, _) => OF.Release(fd)
    case DoUpload(_, _, _) => OF.Background
    case DoExpire(id) => OF.Expire(id)
    case DoFail(_) => OF.Fault
    case DoCaches => OF.Background
  }

  // ---- the invariant ----

  /** Contents, sizes, handles and the queue are consistent, and so are the chunk layers. */
  ghost predicate Inv(c: Conc, cfg: Setup) {
    Ok(c, cfg.dir) && LayersOk(c, cfg.chunkSize) && forall id :: id in c.remote ==> ValidId(id)
  }

  /** A fresh mount: nothing open, queued or cached, and sizes as the remote side gives them. */
  lemma MountedInv(c: Conc, cfg: Setup)
    requires c.open == map[] && c.queue == map[] && c.mem == [] && c.disk == map[] && cfg.chunkSize > 0
    requires forall id :: id in c.remote ==> ValidId(id)
    requires forall id :: id in c.sizes ==> id in c.remote && c.sizes[id] == |c.remote[id]|
    ensures Inv(c, cfg)
  {}

  /** One step does what it does on open files, with the same result. */
  ghost predicate Refines(c: Conc, op: OF.Op, out: OF.Out, c': Conc, dir: string) {
    && Ok(c, dir) && Ok(c', dir) && OF.WellFormed(Abs(c, dir)) && OF.Applicable(Abs(c, dir), op)
    && (Abs(c', dir), out) == OF.Step(Abs(c, dir), op)
  }

  lemma OpensOk(c: Conc, step: Action, out: OF.Out, c': Conc, cfg: Setup)
    requires Inv(c, cfg) && step.DoOpen? && Opens(c, step, out, c', cfg)
    ensures Inv(c', cfg) && Refines(c, OpOf(step), out, c', cfg.dir)
  {
    hide Ok, LayersOk, IsUploadPath, ValidId;
    SameLayers(c, c', cfg.chunkSize);
    OpenRefines(c, c', cfg.dir, step.id, step.write, step.trunc, step.temp);
    HasContent(c, cfg.dir, step.id);
  }

  lemma HasContent(c: Conc, dir: string, id: FileId)
    requires Ok(c, dir) && id in c.remote
    ensures id in Abs(c, dir).contents
  {}

  lemma SameLayers(c: Conc, c': Conc, size: nat)
    requires LayersOk(c, size) && c'.mem == c.mem && c'.disk == c.disk && c'.remote == c.remote && c'.queue == c.queue
    ensures LayersOk(c', size)
  {
    assert forall key, value :: Cached(c', key, value) ==> Cached(c, key, value);
  }

  lemma FilledLayers(c: Conc, c': Conc, size: nat)
    requires LayersOk(c, size) && OnlyCaches(c, c', size)
    ensures LayersOk(c', size)
  {
    forall key: CacheKey, value: Bytes | Cached(c', key, value)
      ensures key.0 !in c'.queue && ChunkIs(c', size, key, value)
    {
      assert ChunkIs(c, size, key, value);
    }
  }

  lemma TouchIs(c: Conc, dir: string, fd: nat)
    requires Ok(c, dir) && IsWriter(c, fd)
    ensures TouchedFrom(c, Touch(c, fd), dir, fd)
    ensures Touch(c, fd) == c.(files := Touch(c, fd).files, open := Touch(c, fd).open)
  {
    var id := c.open[fd].id;
    assert InfoOk(c, dir, fd);
    assert id in c.queue ==> HasQueuedFile(c, id);
    hide Ok, IsUploadPath, InfoOk, JobsOk, WriteAt, TouchedFrom;
    if c.open[fd].downloaded {
      AlreadyTouched(c, dir, fd);
    } else {
      FetchTouches(c, Touch(c, fd), dir, fd, Fetch(c, id));
    }
  }

  lemma TouchedTemp(c: Conc, c1: Conc, dir: string, fd: nat)
    requires TouchedFrom(c, c1, dir, fd)
    ensures IsWriter(c, fd) && IsWriter(c1, fd) && c1.open[fd].temp == c.open[fd].temp && c1.open[fd].temp in c1.files
    ensures OF.WellFormed(Abs(c, dir)) && OF.IsWriter(Abs(c, dir), fd)
    ensures c1.files[c1.open[fd].temp] == OF.DataOf(Abs(c, dir), fd)
    ensures c1.open[fd].modified == c.open[fd].modified == Abs(c, dir).handles[fd].modified
  {}

  lemma ReadsWriter(c: Conc, step: Action, out: OF.Out, c': Conc, cfg: Setup)
    requires Inv(c, cfg) && step.DoRead? && IsWriter(c, step.fd) && Reads(c, step, out, c', cfg)
    ensures Inv(c', cfg) && Refines(c, OpOf(step), out, c', cfg.dir)
  {
    hide Ok, JobsOk, Abs, Slice, Touch, LayersOk, ValidId, TouchedFrom;
    var fd, c1 := step.fd, Touch(c, step.fd);
    TouchIs(c, cfg.dir, fd);
    TouchedTemp(c, c1, cfg.dir, fd);
    SameLayers(c, c', cfg.chunkSize);
    var info := c1.open[fd];
    var data := c1.files[info.temp];
    assert c1.files[info.temp := data] == c1.files;
    TouchThenSet(c, c1, c', cfg.dir, fd, data, info.modified, step.offset + |Slice(data, step.offset, step.length)|);
  }

  lemma WritesOk(c: Conc, step: Action, out: OF.Out, c': Conc, cfg: Setup)
    requires Inv(c, cfg) && step.DoWrite? && IsWriter(c, step.fd) && Writes(c, step, out, c')
    ensures Inv(c', cfg) && Refines(c, OpOf(step), out, c', cfg.dir)
  {
    hide Ok, JobsOk, Abs, WriteAt, Touch, LayersOk, ValidId, TouchedFrom;
    var fd, c1 := step.fd, Touch(c, step.fd);
    TouchIs(c, cfg.dir, fd);
    TouchedTemp(c, c1, cfg.dir, fd);
    SameLayers(c, c', cfg.chunkSize);
    var data := WriteAt(c1.files[c1.open[fd].temp], step.offset, step.data);
    TouchThenSet(c, c1, c', cfg.dir, fd, data, true, step.offset + |step.data|);
  }

  lemma TruncatesOk(c: Conc, step: Action, out: OF.Out, c': Conc, cfg: Setup)
    requires Inv(c, cfg) && step.DoTruncate? && IsWriter(c, step.fd) && Truncates(c, step, out, c')
    ensures Inv(c', cfg) && Refines(c, OpOf(step), out, c', cfg.dir)
  {
    hide Ok, JobsOk, Abs, Resize, Touch, LayersOk, ValidId, TouchedFrom;
    var fd, c1 := step.fd, Touch(c, step.fd);
    TouchIs(c, cfg.dir, fd);
    TouchedTemp(c, c1, cfg.dir, fd);
    SameLayers(c, c', cfg.chunkSize);
    var data := Resize(c1.files[c1.open[fd].temp], step.size);
    TouchThenSet(c, c1, c', cfg.dir, fd, data, true, c1.open[fd].position);
  }

  /** Reads, writes, truncates and releases of a handle that is not open change nothing, nor
      do writes and truncates of a read-only one. */
  lemma NoEffect(c: Conc, dir: string, fd: nat, op: OF.Op, out: OF.Out)
    requires Ok(c, dir) && (op.Read? || op.Write? || op.Truncate? || op.Release?) && op.fd == fd
    requires fd in c.open ==> (op.Write? || op.Truncate?) && c.open[fd].ReadInfo?
    requires out == if op.Read? || op.Write? then OF.Failed else OF.Done
    ensures Refines(c, op, out, c, dir)
  {
    hide WriteAt, Resize, Slice, JobsOk, IsUploadPath;
    AbsWellFormed(c, dir);
    assert op.Release? ==> Abs(c, dir).handles - {fd} == Abs(c, dir).handles;
  }

  // ---- read-only reads ----

  /** On coherent layers the joined pieces are the slice of the remote copy. */
  lemma JoinedIsSlice(content: Bytes, offset: nat, length: nat, size: nat, pieces: seq<Bytes>)
    requires size > 0 && offset < |content|
    requires |pieces| == Max(0, EndChunk(offset, length, size) + 1 - StartChunk(offset, size))
    requires forall i :: 0 <= i < |pieces| ==> pieces[i] == ChunkOf(content, StartChunk(offset, size) + i, size)
    ensures Joined(pieces, offset, length, size) == Slice(content, offset, length)
  {
    hide Slice, ChunkOf, StartChunk, EndChunk, Assembled, Joined, Wanted;
    JoinedSoFar(content, offset, length, size, pieces, |pieces|);
    assert pieces[..|pieces|] == pieces;
    RangeDone(content, offset, length, size, StartChunk(offset, size) + |pieces|, EndChunk(offset, length, size),
              Joined(pieces, offset, length, size));
  }

  lemma {:induction false} JoinedSoFar(content: Bytes, offset: nat, length: nat, size: nat, pieces: seq<Bytes>, n: nat)
    requires size > 0 && offset < |content| && n <= |pieces|
    requires |pieces| == Max(0, EndChunk(offset, length, size) + 1 - StartChunk(offset, size))
    requires forall i :: 0 <= i < |pieces| ==> pieces[i] == ChunkOf(content, StartChunk(offset, size) + i, size)
    ensures var joined := Joined(pieces[..n], offset, length, size);
      Assembled(content, offset, length, size, StartChunk(offset, size) + n, joined)
  {
    hide Slice, ChunkOf, StartChunk, EndChunk, Assembled, Wanted;
    if n == 0 {
      RangeStarts(content, offset, length, size);
    } else {
      JoinedSoFar(content, offset, length, size, pieces, n - 1);
      var index := StartChunk(offset, size) + (n - 1);
      assert pieces[..n][..n - 1] == pieces[..n - 1] && pieces[..n][n - 1] == pieces[n - 1];
      var joined := Joined(pieces[..n - 1], offset, length, size);
      NextPart(content, offset, length, size, index, EndChunk(offset, length, size), joined);
    }
  }

  lemma PiecesAreChunks(c: Conc, size: nat, id: FileId, offset: nat, length: nat, pieces: seq<Bytes>, i: nat)
    requires LayersOk(c, size) && RangeServed(c, size, id, offset, length, pieces) && i < |pieces| && id in c.remote
    ensures pieces[i] == ChunkOf(c.remote[id], StartChunk(offset, size) + i, size)
  {
    hide ChunkOf, StartChunk, EndChunk;
    assert ServedFrom(c, size, id, StartChunk(offset, size) + i, pieces[i]);
  }

  /** Wherever it is served from, a read-only read gives the slice of the file's content. */
  lemma SharedData(c: Conc, step: Action, id: FileId, out: OF.Out, c': Conc, cfg: Setup)
    requires Inv(c, cfg) && step.DoRead? && id in c.remote && ReadsShared(c, step, id, out, c', cfg.chunkSize)
    ensures id in c.queue ==> c.queue[id].path in c.files
    ensures out == OF.Data(Slice(Content(c, id), step.offset, step.length))
    ensures OnlyCaches(c, c', cfg.chunkSize)
  {
    var size := cfg.chunkSize;
    if id !in c.queue {
      assert c.sizes[id] == |c.remote[id]|;
      if step.offset < c.sizes[id] {
        forall i | 0 <= i < |step.pieces| ensures
          step.pieces[i] == ChunkOf(c.remote[id], StartChunk(step.offset, size) + i, size)
        {
          PiecesAreChunks(c, size, id, step.offset, step.length, step.pieces, i);
        }
        hide Joined, ChunkOf, Slice, StartChunk, EndChunk;
        JoinedIsSlice(c.remote[id], step.offset, step.length, size, step.pieces);
      }
    }
  }

  lemma ReadsReader(c: Conc, step: Action, out: OF.Out, c': Conc, cfg: Setup)
    requires Inv(c, cfg) && step.DoRead? && step.fd in c.open && !IsWriter(c, step.fd) && Reads(c, step, out, c', cfg)
    ensures Inv(c', cfg) && Refines(c, OpOf(step), out, c', cfg.dir)
  {
    hide Slice, JobsOk, IsUploadPath, LayersOk, Fills, ReadsShared, ValidId;
    var id := c.open[step.fd].id;
    assert InfoOk(c, cfg.dir, step.fd);
    SharedData(c, step, id, out, c', cfg);
    FilledLayers(c, c', cfg.chunkSize);
    CachesApart(c, c', cfg.dir);
    AbsWellFormed(c, cfg.dir);
  }

  // ---- releases ----

  lemma ReleasesOk(c: Conc, step: Action, out: OF.Out, c': Conc, cfg: Setup)
    requires Inv(c, cfg) && step.DoRelease? && step.fd in c.open && Releases(c, step, out, c', cfg)
    ensures Inv(c', cfg) && Refines(c, OpOf(step), out, c', cfg.dir)
  {
    var fd, dir := step.fd, cfg.dir;
    assert InfoOk(c, dir, fd);
    AbsWellFormed(c, dir);
    if IsWriter(c, fd) && c.open[fd].modified {
      ReleasedLayers(c, step, out, c', cfg);
      hide Ok, LayersOk, JobsOk, IsUploadPath, ValidId, Abs, Enqueue, AsQueue, OF.Step;
      var c1 := c'.(mem := c.mem, disk := c.disk);
      Published(c, step, c1, cfg);
      CachesApart(c1, c', dir);
    } else {
      SameLayers(c, c', cfg.chunkSize);
      hide LayersOk, JobsOk, IsUploadPath, ValidId;
      if IsWriter(c, fd) {
        DropTemp(c, c', dir, fd);
      } else {
        DropReader(c, c', dir, fd);
      }
    }
  }

  lemma Published(c: Conc, step: Action, c1: Conc, cfg: Setup)
    requires Ok(c, cfg.dir) && step.DoRelease? && IsWriter(c, step.fd) && c.open[step.fd].modified
    requires ValidId(c.open[step.fd].id) && c.open[step.fd].temp in c.files
    requires var h := c.open[step.fd];
      var q := Enqueue(AsQueue(c), cfg.dir, h.id, h.temp, false, None, None, step.now);
      c1 == c.(files := q.files, queue := q.jobs, open := c.open - {step.fd},
               sizes := if h.id in c.sizes then c.sizes[h.id := |c.files[h.temp]|] else c.sizes)
    ensures Refines(c, OF.Release(step.fd), OF.Done, c1, cfg.dir)
  {
    hide Abs, Ok, JobsOk, Enqueue, ValidId, IsUploadPath;
    AbsWellFormed(c, cfg.dir);
    Publish(c, c1, AsQueue(c), cfg.dir, step.fd, step.now);
  }

  /** Publishing drops the chunks of exactly the file that becomes queued. */
  lemma ReleasedLayers(c: Conc, step: Action, out: OF.Out, c': Conc, cfg: Setup)
    requires Inv(c, cfg) && step.DoRelease? && IsWriter(c, step.fd) && c.open[step.fd].modified
    requires Releases(c, step, out, c', cfg)
    ensures LayersOk(c', cfg.chunkSize) && forall id :: id in c'.remote ==> ValidId(id)
  {
    hide SafePath, Ok, ValidId, Active, WithoutFile, ChunkOf;
    var id := c.open[step.fd].id;
    FromWithoutFile(c.mem, id);
    forall key: CacheKey, value: Bytes | Cached(c', key, value)
      ensures key.0 !in c'.queue && ChunkIs(c', cfg.chunkSize, key, value)
    {
      assert Cached(c, key, value) && key.0 != id;
    }
  }

  // ---- uploads ----

  lemma UploadsOk(c: Conc, step: Action, out: OF.Out, c': Conc, cfg: Setup)
    requires Inv(c, cfg) && step.DoUpload? && Uploads(c, step, out, c', cfg)
    ensures Inv(c', cfg) && Refines(c, OpOf(step), out, c', cfg.dir)
  {
    AbsWellFormed(c, cfg.dir);
    UploadedLayers(c, step, out, c', cfg);
    QueuedFiles(c, cfg.dir, step.id);
    hide AttemptOnce, IsUploadPath, SizesOk, Content, LayersOk, JobsOk, Ok, ValidId;
    UploadRefines(c, c', AsQueue(c), cfg.dir, step.id, step.outcome, cfg.maxRetries);
  }

  lemma QueuedFiles(c: Conc, dir: string, id: FileId)
    requires JobsOk(c, dir)
    ensures id in c.queue ==> id in c.remote && !c.queue[id].isNew && c.queue[id].path in c.files
  {}

  /** An upload changes the remote copy only of a queued file, of which nothing is cached. */
  lemma UploadedLayers(c: Conc, step: Action, out: OF.Out, c': Conc, cfg: Setup)
    requires Inv(c, cfg) && step.DoUpload? && Uploads(c, step, out, c', cfg)
    ensures LayersOk(c', cfg.chunkSize) && forall id :: id in c'.remote ==> ValidId(id)
  {
    QueuedFiles(c, cfg.dir, step.id);
    hide Ok, Active, ChunkOf, ValidId;
    assert c'.queue.Keys <= c.queue.Keys;
    forall key: CacheKey, value: Bytes | Cached(c', key, value)
      ensures key.0 !in c'.queue && ChunkIs(c', cfg.chunkSize, key, value)
    {
      assert Cached(c, key, value);
    }
  }

  // ---- the rest ----

  lemma ExpiresOk(c: Conc, step: Action, out: OF.Out, c': Conc, cfg: Setup)
    requires Inv(c, cfg) && step.DoExpire? && Acts(c, step, out, c', cfg)
    ensures Inv(c', cfg) && Refines(c, OpOf(step), out, c', cfg.dir)
  {
    hide LayersOk, ValidId;
    SameLayers(c, c', cfg.chunkSize);
    Expired(c, c', cfg.dir, step.id);
  }

  lemma Expired(c: Conc, c': Conc, dir: string, id: FileId)
    requires Ok(c, dir) && c' == c.(sizes := c.sizes - {id})
    ensures Refines(c, OF.Expire(id), OF.Done, c', dir)
  {
    AbsWellFormed(c, dir);
    ExpiredOk(c, c', dir, id);
    ContentsOfExpired(c, c', dir);
    hide Ok, JobsOk, Content;
    assert c'.sizes.Keys == c.sizes.Keys - {id};
    assert Abs(c', dir).handles == Abs(c, dir).handles;
    assert Abs(c', dir) == OF.Step(Abs(c, dir), OF.Expire(id)).0;
  }

  lemma ExpiredOk(c: Conc, c': Conc, dir: string, id: FileId)
    requires Ok(c, dir) && c' == c.(sizes := c.sizes - {id})
    ensures Ok(c', dir)
  {
    hide IsUploadPath, PathOf;
    forall g | g in c'.open ensures InfoOk(c', dir, g) {
      assert InfoOk(c, dir, g);
    }
  }

  lemma ContentsOfExpired(c: Conc, c': Conc, dir: string)
    requires JobsOk(c, dir) && JobsOk(c', dir) && c' == c.(sizes := c'.sizes)
    ensures Abs(c', dir).contents == Abs(c, dir).contents
  {
    hide PathOf;
    assert forall i :: i in c.remote ==> Content(c', i) == Content(c, i);
    SameContents(c, c', dir);
  }

  lemma CachesOk(c: Conc, step: Action, out: OF.Out, c': Conc, cfg: Setup)
    requires Inv(c, cfg) && (step.DoCaches? || step.DoFail?) && Acts(c, step, out, c', cfg)
    ensures Inv(c', cfg) && Refines(c, OpOf(step), out, c', cfg.dir)
  {
    hide Ok, LayersOk, ValidId, Fills;
    AbsWellFormed(c, cfg.dir);
    FilledLayers(c, c', cfg.chunkSize);
    CachesApart(c, c', cfg.dir);
  }

  /** Every step keeps the invariant and does what its operation does on open files. */
  lemma ActsRefine(c: Conc, step: Action, out: OF.Out, c': Conc, cfg: Setup)
    requires Inv(c, cfg) && Acts(c, step, out, c', cfg)
    ensures Inv(c', cfg) && Refines(c, OpOf(step), out, c', cfg.dir)
  {
    hide Ok, LayersOk, ValidId, Refines, Opens, Uploads, Touch, Rewritten, Enqueue, ReadsShared;
    match step
    case DoOpen(_, _, _, _) => OpensOk(c, step, out, c', cfg);
    case DoRead(fd, _, _, _) =>
      if fd !in c.open {
        NoEffect(c, cfg.dir, fd, OpOf(step), out);
      } else if IsWriter(c, fd) {
        ReadsWriter(c, step, out, c', cfg);
      } else {
        ReadsReader(c, step, out, c', cfg);
      }
    case DoWrite(fd, _, _) =>
      if IsWriter(c, fd) {
        WritesOk(c, step, out, c', cfg);
      } else {
        NoEffect(c, cfg.dir, fd, OpOf(step), out);
      }
    case DoTruncate(fd, _) =>
      if IsWriter(c, fd) {
        TruncatesOk(c, step, out, c', cfg);
      } else {
        NoEffect(c, cfg.dir, fd, OpOf(step), out);
      }
    case DoRelease(fd, _) =>
      if fd in c.open {
        ReleasesOk(c, step, out, c', cfg);
      } else {
        assert c.open - {fd} == c.open;
        NoEffect(c, cfg.dir, fd, OpOf(step), out);
      }
    case DoUpload(_, _, _) => UploadsOk(c, step, out, c', cfg);
    case DoExpire(_) => ExpiresOk(c, step, out, c', cfg);
    case DoFail(_) => CachesOk(c, step, out, c', cfg);
    case DoCaches => CachesOk(c, step, out, c', cfg);
  }

  // ---- runs ----

  function Ops(steps: seq<Action>): (ops: seq<OF.Op>)
    ensures |ops| == |steps| && forall i :: 0 <= i < |steps| ==> ops[i] == OpOf(steps[i])
  {
    seq(|steps|, i requires 0 <= i < |steps| => OpOf(steps[i]))
  }

  /** A run from any state with the invariant, a fresh mount for one. */
  ghost predicate IsServiceRun(cs: seq<Conc>, steps: seq<Action>, outs: seq<OF.Out>, cfg: Setup) {
    && |cs| == |steps| + 1 && |outs| == |steps| && Inv(cs[0], cfg)
    && forall i {:trigger steps[i]} :: 0 <= i < |steps| ==> Acts(cs[i], steps[i], outs[i], cs[i + 1], cfg)
  }

  lemma RunLonger(cs: seq<Conc>, steps: seq<Action>, outs: seq<OF.Out>, cfg: Setup, step: Action, out: OF.Out, c': Conc)
    requires IsServiceRun(cs, steps, outs, cfg) && Acts(cs[|steps|], step, out, c', cfg)
    ensures IsServiceRun(cs + [c'], steps + [step], outs + [out], cfg)
  {
    hide Inv, Acts;
    var cs1, steps1, outs1 := cs + [c'], steps + [step], outs + [out];
    forall i {:trigger steps1[i]} | 0 <= i < |steps1| ensures Acts(cs1[i], steps1[i], outs1[i], cs1[i + 1], cfg) {
      if i < |steps| {
        assert Acts(cs[i], steps[i], outs[i], cs[i + 1], cfg);
      }
    }
  }

  lemma RunTail(cs: seq<Conc>, steps: seq<Action>, outs: seq<OF.Out>, cfg: Setup)
    requires IsServiceRun(cs, steps, outs, cfg) && steps != []
    ensures Acts(cs[0], steps[0], outs[0], cs[1], cfg) && Inv(cs[1], cfg)
    ensures Refines(cs[0], OpOf(steps[0]), outs[0], cs[1], cfg.dir)
    ensures IsServiceRun(cs[1..], steps[1..], outs[1..], cfg) && Ops(steps) == [OpOf(steps[0])] + Ops(steps[1..])
  {
    hide Inv, Acts, Refines;
    assert Acts(cs[0], steps[0], outs[0], cs[0 + 1], cfg);
    ActsRefine(cs[0], steps[0], outs[0], cs[1], cfg);
    var cs1, steps1, outs1 := cs[1..], steps[1..], outs[1..];
    forall i {:trigger steps1[i]} | 0 <= i < |steps1| ensures Acts(cs1[i], steps1[i], outs1[i], cs1[i + 1], cfg) {
      assert Acts(cs[i + 1], steps[i + 1], outs[i + 1], cs[i + 1 + 1], cfg);
    }
  }

  /** Over every run the invariant holds, and results and contents are those of the open
      files. */
  lemma {:induction false} RunRefines(cs: seq<Conc>, steps: seq<Action>, outs: seq<OF.Out>, cfg: Setup)
    requires IsServiceRun(cs, steps, outs, cfg)
    ensures Inv(cs[|steps|], cfg) && AbsOk(cs[0], cfg.dir) && AbsOk(cs[|steps|], cfg.dir)
    ensures OF.RunsOn(Abs(cs[0], cfg.dir), Ops(steps), false)
    ensures outs == OF.Outs(Abs(cs[0], cfg.dir), Ops(steps))
    ensures Abs(cs[|steps|], cfg.dir) == OF.Final(Abs(cs[0], cfg.dir), Ops(steps))
    decreases |steps|
  {
    hide Ok, JobsOk, LayersOk, Abs, Acts, OF.WellFormed, OF.Step, OF.Applicable;
    InvAbs(cs[0], cfg);
    if steps != [] {
      RunTail(cs, steps, outs, cfg);
      hide IsServiceRun, Inv;
      assert ([OpOf(steps[0])] + Ops(steps[1..]))[1..] == Ops(steps[1..]);
      RunRefines(cs[1..], steps[1..], outs[1..], cfg);
    }
  }

  ghost predicate AbsOk(c: Conc, dir: string) {
    JobsOk(c, dir) && OF.WellFormed(Abs(c, dir))
  }

  lemma InvAbs(c: Conc, cfg: Setup)
    requires Inv(c, cfg)
    ensures AbsOk(c, cfg.dir)
  {
    AbsWellFormed(c, cfg.dir);
  }

  lemma RunPrefix(cs: seq<Conc>, steps: seq<Action>, outs: seq<OF.Out>, cfg: Setup, n: nat)
    requires IsServiceRun(cs, steps, outs, cfg) && n <= |steps|
    ensures AbsOk(cs[0], cfg.dir) && OF.RunsOn(Abs(cs[0], cfg.dir), Ops(steps)[..n], false)
    ensures Inv(cs[n], cfg) && AbsOk(cs[n], cfg.dir)
    ensures Abs(cs[n], cfg.dir) == OF.Final(Abs(cs[0], cfg.dir), Ops(steps)[..n])
  {
    hide Inv, Acts, Abs, AbsOk, OF.RunsOn, OF.Final;
    var cs1, steps1, outs1 := cs[..n + 1], steps[..n], outs[..n];
    forall i {:trigger steps1[i]} | 0 <= i < |steps1| ensures Acts(cs1[i], steps1[i], outs1[i], cs1[i + 1], cfg) {
      assert Acts(cs[i], steps[i], outs[i], cs[i + 1], cfg);
    }
    assert Ops(steps1) == Ops(steps)[..n];
    RunRefines(cs1, steps1, outs1, cfg);
  }

  /** Close to open, over every run: whatever uploads, failures, give-ups, downloads,
      evictions and other handles come between, a read-only read that does not fail returns
      the slice of what the last modified release left. */
  lemma CloseToOpenOverRuns(
    cs: seq<Conc>, steps: seq<Action>, outs: seq<OF.Out>, cfg: Setup, id: FileId, trunc: bool, mid: seq<OF.Op>,
    post: seq<OF.Op>, reader: nat, length: nat, offset: nat, m: nat, n: nat)
    requires IsServiceRun(cs, steps, outs, cfg) && m == |mid| + 2 && n == m + |post|
    requires Ops(steps) == OF.Session(id, trunc, mid, cs[0].nextFd) + post + [OF.Read(reader, length, offset)]
    requires JobsOk(cs[0], cfg.dir) && OF.IsSession(Abs(cs[0], cfg.dir), id, trunc, mid)
    requires JobsOk(cs[m], cfg.dir) && OF.IsQuiet(Abs(cs[m], cfg.dir), post, id)
    requires reader in cs[n].open && cs[n].open[reader] == ReadInfo(id)
    ensures id in cs[0].remote && (id in cs[0].queue ==> cs[0].queue[id].path in cs[0].files)
    ensures outs[n] ==
      OF.Data(Slice(OF.Edited(if trunc then [] else Content(cs[0], id), mid, cs[0].nextFd), offset, length))
  {
    hide Ok, JobsOk, Inv, Content, Slice, Abs, Acts;
    SessionStart(cs[0], cfg.dir, id);
    hide OF.Session, OF.Edited, OF.WellFormed, OF.IsSession, OF.IsQuiet, OF.RunsOn, OF.Final, OF.Outs;
    var session := OF.Session(id, trunc, mid, cs[0].nextFd);
    var last := OF.Read(reader, length, offset);
    assert |session| == m && |session + post| == n && |steps| == n + 1;
    Prefixes(session, post, last, m, n);
    RunPrefix(cs, steps, outs, cfg, m);
    RunPrefix(cs, steps, outs, cfg, n);
    RunRefines(cs, steps, outs, cfg);
    ReaderMeaning(cs[n], cfg.dir, reader, id);
    OF.LastReadOfRun(Abs(cs[0], cfg.dir), id, trunc, mid, post, reader, length, offset, n);
  }

  lemma Prefixes(x: seq<OF.Op>, y: seq<OF.Op>, op: OF.Op, m: nat, n: nat)
    requires m == |x| && n == m + |y|
    ensures (x + y + [op])[..m] == x && (x + y + [op])[..n] == x + y
  {}

  lemma SessionStart(c: Conc, dir: string, id: FileId)
    requires JobsOk(c, dir) && id in Abs(c, dir).contents
    ensures id in c.remote && (id in c.queue ==> c.queue[id].path in c.files)
    ensures Abs(c, dir).contents[id] == Content(c, id) && Abs(c, dir).nextFd == c.nextFd
  {}

  lemma ReaderMeaning(c: Conc, dir: string, fd: nat, id: FileId)
    requires JobsOk(c, dir) && fd in c.open && c.open[fd] == ReadInfo(id)
    ensures fd in Abs(c, dir).handles && Abs(c, dir).handles[fd] == OF.Reader(id)
  {}

  // ---- a write handle and its own edits ----

  /** What an open write handle stands for. */
  function HeldBy(c: Conc, fd: nat): Bytes
    requires IsWriter(c, fd)
    requires !c.open[fd].downloaded ==>
      c.open[fd].id in c.remote && (c.open[fd].id in c.queue ==> c.queue[c.open[fd].id].path in c.files)
  {
    if c.open[fd].downloaded then FileAt(c, c.open[fd].temp) else Content(c, c.open[fd].id)
  }

  lemma HeldMeaning(c: Conc, dir: string, fd: nat)
    requires Ok(c, dir) && OF.WellFormed(Abs(c, dir)) && IsWriter(c, fd)
    ensures c.open[fd].id in c.remote && (c.open[fd].id in c.queue ==> c.queue[c.open[fd].id].path in c.files)
    ensures OF.IsWriter(Abs(c, dir), fd) && OF.Held(Abs(c, dir), fd) == HeldBy(c, fd)
  {
    hide IsUploadPath, PathOf;
    assert InfoOk(c, dir, fd);
    assert Abs(c, dir).handles[fd] == Meaning(c, c.open[fd]);
  }

  ghost predicate KeepsHandle(c: Conc, dir: string, ops: seq<OF.Op>, fd: nat) {
    && JobsOk(c, dir) && OF.WellFormed(Abs(c, dir)) && OF.IsWriter(Abs(c, dir), fd)
    && OF.KeepsBase(Abs(c, dir), ops, fd)
  }

  /** Over every run from any state a read through a write handle that does not fail returns
      the slice, at its offset, of what the handle stood for with its own writes and truncates. */
  lemma OwnReadOverRuns(
    cs: seq<Conc>, steps: seq<Action>, outs: seq<OF.Out>, cfg: Setup, mid: seq<OF.Op>, fd: nat, length: nat,
    offset: nat, n: nat)
    requires IsServiceRun(cs, steps, outs, cfg) && n == |mid| && Ops(steps) == mid + [OF.Read(fd, length, offset)]
    requires IsWriter(cs[0], fd) && KeepsHandle(cs[0], cfg.dir, mid, fd)
    ensures !cs[0].open[fd].downloaded ==> var id := cs[0].open[fd].id;
      id in cs[0].remote && (id in cs[0].queue ==> cs[0].queue[id].path in cs[0].files)
    ensures n < |outs| && outs[n] == OF.Data(Slice(OF.Edited(HeldBy(cs[0], fd), mid, fd), offset, length))
  {
    hide JobsOk, Content, Slice, Abs, Acts, LayersOk, HeldBy, OF.KeepsBase, OF.Edited, OF.WellFormed, OF.RunsOn,
      OF.Outs;
    InvAbs(cs[0], cfg);
    RunRefines(cs, steps, outs, cfg);
    HeldMeaning(cs[0], cfg.dir, fd);
    OF.OwnRead(Abs(cs[0], cfg.dir), mid, fd, length, offset, n);
  }

  /** And a write that does not fail reports all its bytes, and a read of the same range
      returns them. */
  lemma OwnWriteOverRuns(
    cs: seq<Conc>, steps: seq<Action>, outs: seq<OF.Out>, cfg: Setup, mid: seq<OF.Op>, fd: nat, data: Bytes,
    offset: nat, n: nat)
    requires IsServiceRun(cs, steps, outs, cfg) && n == |mid| && data != []
    requires Ops(steps) == mid + [OF.Write(fd, data, offset)] + [OF.Read(fd, |data|, offset)]
    requires KeepsHandle(cs[0], cfg.dir, mid + [OF.Write(fd, data, offset)], fd)
    ensures n + 1 < |outs| && outs[n] == OF.Count(|data|) && outs[n + 1] == OF.Data(data)
  {
    hide JobsOk, Inv, Abs, Acts, OF.KeepsBase, OF.WellFormed, OF.RunsOn, OF.Outs;
    RunRefines(cs, steps, outs, cfg);
    OF.OwnWriteReadBack(Abs(cs[0], cfg.dir), mid, fd, data, offset, n);
  }

  // ---- calls that cannot fail ----

  /** The handle needs neither storage nor metadata any more. */
  predicate IsTouched(c: Conc, fd: nat) {
    IsWriter(c, fd) && c.open[fd].downloaded
  }

  /** A call that fails leaves everything but the chunk layers alone, and is one on a reader of a
      file that is not queued, or on a write handle whose content is still to be fetched from
      the remote copy. */
  lemma FailsOnlyForStorage(c: Conc, fd: nat, out: OF.Out, c': Conc, cfg: Setup)
    requires Acts(c, DoFail(fd), out, c', cfg)
    ensures fd in c.open && !HasQueuedFile(c, c.open[fd].id) && !IsTouched(c, fd)
    ensures IsWriter(c, fd) ==> c.open[fd].id in c.sizes && c.sizes[c.open[fd].id] > 0
    ensures c'.remote == c.remote && c'.files == c.files && c'.queue == c.queue && c'.open == c.open
  {
    hide Fills;
  }

  lemma TouchedStays(c: Conc, step: Action, out: OF.Out, c': Conc, cfg: Setup, fd: nat)
    requires Inv(c, cfg) && Acts(c, step, out, c', cfg) && IsTouched(c, fd)
    requires step.DoRelease? ==> step.fd != fd
    ensures IsTouched(c', fd)
  {
    hide Ok, LayersOk, ValidId, WriteAt, Resize, Slice, Fills, Fetch, Enqueue, AttemptOnce, ReadsShared, MayFail,
      IsUploadPath, Touch, Rewritten;
    match step
    case DoOpen(_, _, _, _) => FreshFd(c, cfg.dir, fd);
    case DoRead(g, _, _, _) =>
      if IsWriter(c, g) {
        TouchKeeps(c, g, fd, [], 0);
      } else if g in c.open {
        SharedKeeps(c, step, c.open[g].id, out, c', cfg.chunkSize);
      }
    case DoWrite(g, data, offset) =>
      if IsWriter(c, g) {
        TouchKeeps(c, g, fd, WriteAt(FileAt(Touch(c, g), c.open[g].temp), offset, data), offset + |data|);
      }
    case DoTruncate(g, size) =>
      if IsWriter(c, g) {
        var c1 := Touch(c, g);
        TouchKeeps(c, g, fd, [], 0);
        TouchKeeps(c, g, fd, Resize(FileAt(c1, c.open[g].temp), size), c1.open[g].position);
      }
    case _ =>
  }

  lemma FreshFd(c: Conc, dir: string, fd: nat)
    requires Ok(c, dir) && fd in c.open
    ensures fd < c.nextFd
  {
    assert InfoOk(c, dir, fd);
  }

  lemma TouchKeeps(c: Conc, g: nat, fd: nat, data: Bytes, position: nat)
    requires IsWriter(c, g) && IsTouched(c, fd)
    ensures IsWriter(Touch(c, g), g) && IsTouched(Touch(c, g), fd) && IsTouched(Rewritten(c, g, data, position), fd)
  {
    hide Fetch, WriteAt;
  }

  lemma SharedKeeps(c: Conc, step: Action, id: FileId, out: OF.Out, c': Conc, size: nat)
    requires step.DoRead? && ReadsShared(c, step, id, out, c', size)
    ensures c'.open == c.open
  {
    hide Slice, Fills, RangeServed, Joined, HasQueuedFile;
  }

  /** Once a write handle has been read, written or truncated, no later call on it fails. */
  lemma {:induction false} TouchedNeverFails(
    cs: seq<Conc>, steps: seq<Action>, outs: seq<OF.Out>, cfg: Setup, fd: nat, i: nat, j: nat)
    requires IsServiceRun(cs, steps, outs, cfg) && i <= j < |steps| && IsTouched(cs[i], fd)
    requires forall k :: i <= k < j ==> !(steps[k].DoRelease? && steps[k].fd == fd)
    ensures IsTouched(cs[j], fd) && steps[j] != DoFail(fd)
    decreases j - i
  {
    hide Inv, Acts;
    RunPrefix(cs, steps, outs, cfg, i);
    assert Acts(cs[i], steps[i], outs[i], cs[i + 1], cfg);
    if steps[i] == DoFail(fd) {
      FailsOnlyForStorage(cs[i], fd, outs[i], cs[i + 1], cfg);
    } else if i < j {
      TouchedStays(cs[i], steps[i], outs[i], cs[i + 1], cfg, fd);
      TouchedNeverFails(cs, steps, outs, cfg, fd, i + 1, j);
    }
  }
}
