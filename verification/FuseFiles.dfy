/** The state that the file operations share, and what each change of it means for the open
    files of OpenFiles. */
module FuseFiles {
  import opened FileContents
  import opened ChunkCaches
  import opened UploadQueues
  import OF = OpenFiles

  /** A handle's record: readers know their file, writers also a temporary file. */
  datatype Info =
    | ReadInfo(id: FileId)
    | WriteInfo(id: FileId, temp: Path, modified: bool, downloaded: bool, position: nat)

  /** All the state the file operations share, as values; `mem` and `disk` are the chunks
      cached in memory and on disk. */
  datatype Conc = Conc(
    remote: map<FileId, Bytes>, files: map<Path, Bytes>, queue: map<FileId, Job>,
    sizes: map<FileId, nat>, open: map<nat, Info>, nextFd: nat,
    mem: seq<Entry>, disk: map<CacheKey, Bytes>)

  /** A file is its queued copy while an upload is pending or failed, else its remote copy. */
  function Content(c: Conc, id: FileId): Bytes
    requires id in c.remote && (id in c.queue ==> c.queue[id].path in c.files)
  {
    if id in c.queue then c.files[c.queue[id].path] else c.remote[id]
  }

  ghost predicate JobsOk(c: Conc, dir: string) {
    forall id :: id in c.queue ==>
      id in c.remote && !c.queue[id].isNew && c.queue[id].path in c.files && PathOf(dir, id, c.queue[id].path)
  }

  /** Cached sizes are the lengths of the contents. */
  ghost predicate SizesOk(c: Conc, dir: string)
    requires JobsOk(c, dir)
  {
    forall id :: id in c.sizes ==> id in c.remote && c.sizes[id] == |Content(c, id)|
  }

  ghost predicate InfoOk(c: Conc, dir: string, fd: nat)
    requires fd in c.open
  {
    var h := c.open[fd];
    && fd < c.nextFd && h.id in c.remote
    && (h.WriteInfo? ==>
         && h.temp in c.files && !IsUploadPath(dir, h.temp)
         && (!h.downloaded ==> c.files[h.temp] == [] && h.position == 0 && !h.modified))
  }

  ghost predicate TempsDistinct(c: Conc) {
    forall f, g :: f in c.open && g in c.open && f != g && c.open[f].WriteInfo? && c.open[g].WriteInfo?
      ==> c.open[f].temp != c.open[g].temp
  }

  ghost predicate Ok(c: Conc, dir: string) {
    && JobsOk(c, dir) && SizesOk(c, dir) && TempsDistinct(c)
    && forall fd :: fd in c.open ==> InfoOk(c, dir, fd)
  }

  function Meaning(c: Conc, h: Info): OF.Handle {
    match h
    case ReadInfo(id) => OF.Reader(id)
    case WriteInfo(id, temp, modified, downloaded, _) =>
      OF.Writer(id, if downloaded && temp in c.files then Some(c.files[temp]) else None, modified)
  }

  ghost function Abs(c: Conc, dir: string): OF.Files
    requires JobsOk(c, dir)
  {
    OF.Files(map id | id in c.remote :: Content(c, id), c.sizes.Keys, Meanings(c), c.nextFd)
  }

  function Meanings(c: Conc): map<nat, OF.Handle> {
    map fd | fd in c.open :: Meaning(c, c.open[fd])
  }

  // ---- frames ----

  /** Handles other than `fd` keep their records and their temporary files. */
  ghost predicate HandlesSame(c: Conc, c': Conc, fd: nat) {
    && c'.open.Keys - {fd} == c.open.Keys - {fd}
    && forall g :: g in c.open && g != fd ==> HandleSame(c, c', g)
  }

  ghost predicate HandleSame(c: Conc, c': Conc, g: nat) {
    && g in c.open && g in c'.open && c'.open[g] == c.open[g]
    && (c.open[g].WriteInfo? && c.open[g].temp in c.files ==>
          c.open[g].temp in c'.files && c'.files[c.open[g].temp] == c.files[c.open[g].temp])
  }

  /** A file's content is untouched. */
  ghost predicate ContentSame(c: Conc, c': Conc, id: FileId) {
    && (id in c'.queue <==> id in c.queue)
    && (id in c.queue ==>
         && c'.queue[id] == c.queue[id] && c.queue[id].path in c.files && c.queue[id].path in c'.files
         && c'.files[c.queue[id].path] == c.files[c.queue[id].path])
    && (id in c.remote ==> id in c'.remote && c'.remote[id] == c.remote[id])
  }

  lemma KeptHandles(c: Conc, c': Conc, dir: string, fd: nat)
    requires (forall g :: g in c.open ==> InfoOk(c, dir, g)) && TempsDistinct(c) && HandlesSame(c, c', fd)
    requires c'.remote.Keys == c.remote.Keys && c'.nextFd >= c.nextFd
    requires fd in c'.open ==> InfoOk(c', dir, fd)
    requires fd in c'.open && c'.open[fd].WriteInfo? ==>
      forall g :: g in c.open && g != fd && c.open[g].WriteInfo? ==> c.open[g].temp != c'.open[fd].temp
    ensures (forall g :: g in c'.open ==> InfoOk(c', dir, g)) && TempsDistinct(c')
  {
    hide IsUploadPath;
    assert forall g :: g in c'.open && g != fd ==> g in c'.open.Keys - {fd};
    forall g | g in c'.open ensures InfoOk(c', dir, g) {
      if g != fd {
        assert g in c.open.Keys - {fd};
        assert HandleSame(c, c', g) && InfoOk(c, dir, g);
      }
    }
    assert forall g :: g in c'.open && g != fd ==> HandleSame(c, c', g) by {
      assert forall g :: g in c'.open && g != fd ==> g in c.open.Keys - {fd};
    }
  }

  lemma KeptMeanings(c: Conc, c': Conc, dir: string, fd: nat)
    requires (forall g :: g in c.open ==> InfoOk(c, dir, g)) && HandlesSame(c, c', fd)
    requires JobsOk(c, dir) && JobsOk(c', dir)
    ensures Abs(c', dir).handles == if fd in c'.open then Abs(c, dir).handles[fd := Meaning(c', c'.open[fd])]
                                    else Abs(c, dir).handles - {fd}
  {
    hide Meanings, Content;
    KeptMap(c, c', dir, fd);
  }

  lemma KeptMap(c: Conc, c': Conc, dir: string, fd: nat)
    requires (forall g :: g in c.open ==> InfoOk(c, dir, g)) && HandlesSame(c, c', fd)
    ensures Meanings(c') == if fd in c'.open then Meanings(c)[fd := Meaning(c', c'.open[fd])] else Meanings(c) - {fd}
  {
    hide IsUploadPath, Meaning, InfoOk, HandleSame;
    forall g | g in c.open && g != fd ensures g in c'.open && Meaning(c', c'.open[g]) == Meaning(c, c.open[g]) {
      KeptMeaning(c, c', dir, g);
    }
    assert forall g :: g in c'.open && g != fd ==> g in c'.open.Keys - {fd};
    assert forall g :: g in c'.open && g != fd ==> g in c.open.Keys - {fd};
  }

  lemma KeptMeaning(c: Conc, c': Conc, dir: string, g: nat)
    requires g in c.open && InfoOk(c, dir, g) && HandleSame(c, c', g)
    ensures g in c'.open && Meaning(c', c'.open[g]) == Meaning(c, c.open[g])
  {}

  lemma KeptContents(c: Conc, c': Conc, dir: string)
    requires JobsOk(c, dir) && SizesOk(c, dir) && c'.remote.Keys == c.remote.Keys && c'.sizes == c.sizes
    requires forall id :: id in c.remote || id in c.queue || id in c'.queue ==> ContentSame(c, c', id)
    ensures JobsOk(c', dir) && SizesOk(c', dir) && Abs(c', dir).contents == Abs(c, dir).contents
  {
    hide PathOf;
    forall id | id in c'.queue ensures id in c.queue && c'.queue[id] == c.queue[id] && c'.queue[id].path in c'.files {
      assert ContentSame(c, c', id);
    }
    forall id | id in c.remote ensures Content(c', id) == Content(c, id) {
      assert ContentSame(c, c', id);
    }
  }

  /** A temporary file is no queued file. */
  lemma TempNotQueued(c: Conc, dir: string, temp: Path)
    requires JobsOk(c, dir) && !IsUploadPath(dir, temp)
    ensures forall id :: id in c.queue ==> c.queue[id].path != temp
  {
    forall id | id in c.queue ensures c.queue[id].path != temp {
      assert PathOf(dir, id, c.queue[id].path);
    }
  }

  lemma AbsWellFormed(c: Conc, dir: string)
    requires Ok(c, dir)
    ensures OF.WellFormed(Abs(c, dir))
  {
    hide IsUploadPath, PathOf;
    forall fd | fd in c.open ensures InfoOk(c, dir, fd) {}
  }

  // ---- what each operation does to the shared state ----

  function OpenInfo(id: FileId, write: bool, trunc: bool, temp: Path): Info {
    if write then WriteInfo(id, temp, trunc, trunc, 0) else ReadInfo(id)
  }

  lemma OpenRefines(c: Conc, c': Conc, dir: string, id: FileId, write: bool, trunc: bool, temp: Path)
    requires Ok(c, dir) && id in c.remote && temp !in c.files && !IsUploadPath(dir, temp)
    requires c' == c.(files := if write then c.files[temp := []] else c.files,
                      open := c.open[c.nextFd := OpenInfo(id, write, trunc, temp)], nextFd := c.nextFd + 1)
    ensures Ok(c', dir) && OF.WellFormed(Abs(c, dir))
    ensures (Abs(c', dir), OF.Fd(c.nextFd)) == OF.Step(Abs(c, dir), OF.Open(id, write, trunc))
  {
    hide IsUploadPath, PathOf, SizesOk, Abs;
    AbsWellFormed(c, dir);
    TempNotQueued(c, dir, temp);
    assert c.nextFd !in c.open by {
      assert c.nextFd in c.open ==> InfoOk(c, dir, c.nextFd);
    }
    forall g | g in c.open ensures HandleSame(c, c', g) && (c.open[g].WriteInfo? ==> c.open[g].temp != temp) {
      assert InfoOk(c, dir, g);
    }
    KeptContents(c, c', dir);
    KeptMeanings(c, c', dir, c.nextFd);
    KeptHandles(c, c', dir, c.nextFd);
    OpenStep(c, c', dir, id, write, trunc, temp);
  }

  lemma OpenStep(c: Conc, c': Conc, dir: string, id: FileId, write: bool, trunc: bool, temp: Path)
    requires JobsOk(c, dir) && JobsOk(c', dir) && OF.WellFormed(Abs(c, dir)) && id in c.remote
    requires c'.sizes == c.sizes && c'.nextFd == c.nextFd + 1 && Abs(c', dir).contents == Abs(c, dir).contents
    requires c.nextFd in c'.open && c'.open[c.nextFd] == OpenInfo(id, write, trunc, temp)
    requires write ==> temp in c'.files && c'.files[temp] == []
    requires Abs(c', dir).handles == Abs(c, dir).handles[c.nextFd := Meaning(c', c'.open[c.nextFd])]
    ensures (Abs(c', dir), OF.Fd(c.nextFd)) == OF.Step(Abs(c, dir), OF.Open(id, write, trunc))
  {
    hide JobsOk;
  }

  /** Giving a write handle new temporary content. */
  lemma SetTemp(c: Conc, c': Conc, dir: string, fd: nat, data: Bytes, modified: bool, position: nat)
    requires Ok(c, dir) && fd in c.open && c.open[fd].WriteInfo?
    requires c' == c.(files := c.files[c.open[fd].temp := data],
                      open := c.open[fd := c.open[fd].(downloaded := true, modified := modified, position := position)])
    ensures Ok(c', dir) && OF.WellFormed(Abs(c, dir))
    ensures Abs(c', dir) == OF.WithData(Abs(c, dir), fd, data, modified)
  {
    hide IsUploadPath, PathOf, SizesOk;
    AbsWellFormed(c, dir);
    assert InfoOk(c, dir, fd);
    TempNotQueued(c, dir, c.open[fd].temp);
    assert forall g :: g in c.open && g != fd ==> HandleSame(c, c', g);
    KeptContents(c, c', dir);
    KeptMeanings(c, c', dir, fd);
    KeptHandles(c, c', dir, fd);
  }

  lemma DropReader(c: Conc, c': Conc, dir: string, fd: nat)
    requires Ok(c, dir) && fd in c.open
    requires c' == c.(open := c.open - {fd})
    ensures Ok(c', dir) && Abs(c', dir) == Abs(c, dir).(handles := Abs(c, dir).handles - {fd})
  {
    hide IsUploadPath, PathOf, SizesOk;
    assert forall g :: g in c.open && g != fd ==> HandleSame(c, c', g);
    KeptContents(c, c', dir);
    KeptMeanings(c, c', dir, fd);
    KeptHandles(c, c', dir, fd);
  }

  /** Releasing an unmodified write handle removes its temporary file. */
  lemma DropTemp(c: Conc, c': Conc, dir: string, fd: nat)
    requires Ok(c, dir) && fd in c.open && c.open[fd].WriteInfo?
    requires c' == c.(files := c.files - {c.open[fd].temp}, open := c.open - {fd})
    ensures Ok(c', dir) && Abs(c', dir) == Abs(c, dir).(handles := Abs(c, dir).handles - {fd})
  {
    hide IsUploadPath, PathOf, SizesOk;
    assert InfoOk(c, dir, fd);
    TempNotQueued(c, dir, c.open[fd].temp);
    assert forall g :: g in c.open && g != fd ==> HandleSame(c, c', g);
    KeptContents(c, c', dir);
    KeptMeanings(c, c', dir, fd);
    KeptHandles(c, c', dir, fd);
  }

  /** The other files after a content is queued under `safe`, the name of `id`. */
  lemma OthersContentSame(c: Conc, c': Conc, dir: string, id: FileId, temp: Path, safe: Path)
    requires JobsOk(c, dir) && PathOf(dir, id, safe) && !IsUploadPath(dir, temp) && temp in c.files
    requires c'.remote == c.remote && (forall i :: i != id ==> (i in c'.queue <==> i in c.queue))
    requires forall i :: i in c.queue && i != id ==> c'.queue[i] == c.queue[i]
    requires var kept := if id in c.queue then c.files - {c.queue[id].path} else c.files;
      c'.files == (kept - {temp})[safe := c.files[temp]]
    ensures forall i :: i != id ==> ContentSame(c, c', i)
  {
    TempNotQueued(c, dir, temp);
    forall i | i != id ensures ContentSame(c, c', i) {
      if i in c.queue {
        if c.queue[i].path == safe {
          OnePathOneId(dir, i, id, safe);
        }
        if id in c.queue {
          OtherQueuedPath(c, dir, i, id);
        }
      }
    }
  }

  lemma PublishedContents(c: Conc, c': Conc, dir: string, id: FileId, data: Bytes)
    requires JobsOk(c, dir) && SizesOk(c, dir) && c'.remote == c.remote && id in c.remote
    requires forall i :: i != id ==> ContentSame(c, c', i)
    requires id in c'.queue && !c'.queue[id].isNew && PathOf(dir, id, c'.queue[id].path)
    requires c'.queue[id].path in c'.files && c'.files[c'.queue[id].path] == data
    requires c'.sizes == if id in c.sizes then c.sizes[id := |data|] else c.sizes
    ensures JobsOk(c', dir) && SizesOk(c', dir)
    ensures Abs(c', dir).contents == Abs(c, dir).contents[id := data] && c'.sizes.Keys == c.sizes.Keys
  {
    hide PathOf;
    forall i | i in c'.queue ensures i in c.remote && !c'.queue[i].isNew && c'.queue[i].path in c'.files
      && PathOf(dir, i, c'.queue[i].path)
    {
      assert i != id ==> ContentSame(c, c', i);
    }
    hide Abs;
    assert JobsOk(c', dir);
    forall i | i in c.remote && i != id ensures Content(c', i) == Content(c, i) {
      assert ContentSame(c, c', i);
    }
    hide ContentSame;
    OneContentChanged(c, c', dir, id, data);
  }

  lemma OneContentChanged(c: Conc, c': Conc, dir: string, id: FileId, data: Bytes)
    requires JobsOk(c, dir) && JobsOk(c', dir) && c'.remote.Keys == c.remote.Keys && id in c.remote
    requires forall i :: i in c.remote && i != id ==> Content(c', i) == Content(c, i)
    requires Content(c', id) == data
    ensures Abs(c', dir).contents == Abs(c, dir).contents[id := data]
  {
    hide PathOf, Content;
  }

  /** Releasing a modified write handle: its content becomes the queued copy of its file. */
  lemma Publish(c: Conc, c': Conc, q: Queue, dir: string, fd: nat, now: nat)
    requires Ok(c, dir) && fd in c.open && c.open[fd].WriteInfo? && c.open[fd].modified && ValidId(c.open[fd].id)
    requires q.files == c.files && q.jobs == c.queue && c.open[fd].temp in q.files
    requires var q' := Enqueue(q, dir, c.open[fd].id, c.open[fd].temp, false, None, None, now);
      c' == c.(files := q'.files, queue := q'.jobs, open := c.open - {fd},
               sizes := if c.open[fd].id in c.sizes
                        then c.sizes[c.open[fd].id := |c.files[c.open[fd].temp]|] else c.sizes)
    ensures Ok(c', dir) && OF.WellFormed(Abs(c, dir))
    ensures Abs(c', dir) == OF.Step(Abs(c, dir), OF.Release(fd)).0
  {
    hide SafePath, ValidId, Active, SizesOk, Content;
    AbsWellFormed(c, dir);
    assert InfoOk(c, dir, fd);
    var id, temp := c.open[fd].id, c.open[fd].temp;
    var safe := SafePath(dir, id, now);
    OwnPath(dir, id, now);
    OthersContentSame(c, c', dir, id, temp, safe);
    assert c'.files[safe] == c.files[temp];
    PublishedContents(c, c', dir, id, c.files[temp]);
    PublishHandles(c, c', dir, fd, safe);
    KeptMeanings(c, c', dir, fd);
    KeptHandles(c, c', dir, fd);
    PublishStep(c, c', dir, fd);
  }

  lemma PublishHandles(c: Conc, c': Conc, dir: string, fd: nat, safe: Path)
    requires Ok(c, dir) && fd in c.open && c.open[fd].WriteInfo? && PathOf(dir, c.open[fd].id, safe)
    requires c'.open == c.open - {fd}
    requires c.open[fd].temp in c.files
    requires var id, temp := c.open[fd].id, c.open[fd].temp;
      c'.files == ((if id in c.queue then c.files - {c.queue[id].path} else c.files) - {temp})[safe := c.files[temp]]
    ensures HandlesSame(c, c', fd)
  {
    var id := c.open[fd].id;
    assert IsUploadPath(dir, safe);
    assert id in c.queue ==> IsUploadPath(dir, c.queue[id].path);
    hide IsUploadPath, PathOf, SizesOk;
    forall g | g in c.open && g != fd ensures HandleSame(c, c', g) {
      assert InfoOk(c, dir, g);
    }
  }

  lemma PublishStep(c: Conc, c': Conc, dir: string, fd: nat)
    requires JobsOk(c, dir) && JobsOk(c', dir) && OF.WellFormed(Abs(c, dir))
    requires fd in c.open && c.open[fd].WriteInfo? && c.open[fd].modified && c.open[fd].downloaded
    requires c.open[fd].temp in c.files && c'.nextFd == c.nextFd && c'.sizes.Keys == c.sizes.Keys
    requires Abs(c', dir).contents == Abs(c, dir).contents[c.open[fd].id := c.files[c.open[fd].temp]]
    requires Abs(c', dir).handles == Abs(c, dir).handles - {fd}
    ensures Abs(c', dir) == OF.Step(Abs(c, dir), OF.Release(fd)).0
  {
    hide JobsOk;
  }

  /** An upload attempt, whatever its outcome, changes no content: on success the remote
      copy becomes what the queued copy was. */
  lemma UploadRefines(c: Conc, c': Conc, q: Queue, dir: string, id: FileId, outcome: Outcome, maxRetries: int)
    requires Ok(c, dir) && q.files == c.files && q.jobs == c.queue && outcome != FileMissing
    requires var q' := AttemptOnce(q, id, outcome, maxRetries);
      c' == c.(files := q'.files, queue := q'.jobs, remote := c'.remote)
    requires if outcome == Uploaded then IsPending(q, id) && c'.remote == c.remote[id := c.files[c.queue[id].path]]
             else c'.remote == c.remote
    ensures Ok(c', dir) && Abs(c', dir) == Abs(c, dir)
  {
    hide Active;
    if outcome == Uploaded {
      UploadedContents(c, c', dir, id);
      UploadedHandles(c, c', dir, id);
      hide IsUploadPath, PathOf, SizesOk, JobsOk;
      KeptMeanings(c, c', dir, c.nextFd);
      KeptHandles(c, c', dir, c.nextFd);
    } else {
      RetriedContents(c, c', dir, id);
    }
    assert c.nextFd in c.open ==> InfoOk(c, dir, c.nextFd);
    assert c.nextFd !in Abs(c, dir).handles;
  }

  lemma UploadedContents(c: Conc, c': Conc, dir: string, id: FileId)
    requires JobsOk(c, dir) && SizesOk(c, dir) && id in c.queue && c'.sizes == c.sizes
    requires c'.files == c.files - {c.queue[id].path} && c'.queue == c.queue - {id}
    requires c'.remote == c.remote[id := c.files[c.queue[id].path]]
    ensures JobsOk(c', dir) && SizesOk(c', dir) && Abs(c', dir).contents == Abs(c, dir).contents
  {
    hide PathOf, Abs;
    forall i | i in c.queue && i != id ensures c.queue[i].path != c.queue[id].path {
      OtherQueuedPath(c, dir, i, id);
    }
    assert JobsOk(c', dir);
    assert forall i :: i in c.remote ==> Content(c', i) == Content(c, i);
    SameContents(c, c', dir);
  }

  lemma SameContents(c: Conc, c': Conc, dir: string)
    requires JobsOk(c, dir) && JobsOk(c', dir) && c'.remote.Keys == c.remote.Keys
    requires forall i :: i in c.remote ==> Content(c', i) == Content(c, i)
    ensures Abs(c', dir).contents == Abs(c, dir).contents
  {
    hide PathOf, Content;
  }

  lemma OtherQueuedPath(c: Conc, dir: string, i: FileId, id: FileId)
    requires JobsOk(c, dir) && i in c.queue && id in c.queue && i != id
    ensures c.queue[i].path != c.queue[id].path
  {
    assert PathOf(dir, i, c.queue[i].path) && PathOf(dir, id, c.queue[id].path);
    if c.queue[i].path == c.queue[id].path {
      OnePathOneId(dir, i, id, c.queue[i].path);
    }
  }

  lemma UploadedHandles(c: Conc, c': Conc, dir: string, id: FileId)
    requires Ok(c, dir) && id in c.queue && c'.open == c.open
    requires c'.files == c.files - {c.queue[id].path}
    ensures HandlesSame(c, c', c.nextFd) && c.nextFd !in c.open
  {
    assert IsUploadPath(dir, c.queue[id].path) by {
      assert PathOf(dir, id, c.queue[id].path);
    }
    hide IsUploadPath, PathOf, SizesOk;
    forall g | g in c.open ensures HandleSame(c, c', g) && g != c.nextFd {
      assert InfoOk(c, dir, g);
    }
  }

  /** The queue differs at most in how often, and whether still, a job is to be tried. */
  ghost predicate Retried(c: Conc, c': Conc, id: FileId) {
    && c' == c.(queue := c'.queue)
    && (c'.queue == c.queue || (id in c.queue && id in c'.queue
         && c'.queue == c.queue[id := c.queue[id].(retries := c.queue[id].retries + 1, status := c'.queue[id].status)]))
  }

  lemma RetriedContents(c: Conc, c': Conc, dir: string, id: FileId)
    requires Ok(c, dir) && Retried(c, c', id)
    ensures Ok(c', dir) && Abs(c', dir) == Abs(c, dir)
  {
    hide JobsOk, SizesOk, Meaning, InfoOk, TempsDistinct, Content;
    RetriedJobs(c, c', dir, id);
    forall g | g in c.open ensures InfoOk(c', dir, g) && Meaning(c', c.open[g]) == Meaning(c, c.open[g]) {
      assert InfoOk(c, dir, g);
      RetriedHandle(c, c', dir, g);
    }
    SameContents(c, c', dir);
    assert Meanings(c') == Meanings(c);
  }

  lemma RetriedHandle(c: Conc, c': Conc, dir: string, g: nat)
    requires c' == c.(queue := c'.queue) && g in c.open && InfoOk(c, dir, g)
    ensures InfoOk(c', dir, g) && Meaning(c', c.open[g]) == Meaning(c, c.open[g])
  {
    hide IsUploadPath;
  }

  lemma RetriedJobs(c: Conc, c': Conc, dir: string, id: FileId)
    requires Ok(c, dir) && Retried(c, c', id)
    ensures JobsOk(c', dir) && SizesOk(c', dir) && TempsDistinct(c')
    ensures forall i :: i in c.remote ==> Content(c', i) == Content(c, i)
  {
    hide IsUploadPath, PathOf;
  }

  // ---- first touch ----

  /** The state after a handle's first touch: its data are its base. */
  ghost predicate TouchedFrom(c: Conc, c': Conc, dir: string, fd: nat) {
    && Ok(c, dir) && Ok(c', dir) && fd in c.open && c.open[fd].WriteInfo?
    && c' == c.(files := c'.files, open := c'.open)
    && fd in c'.open && c'.open[fd].WriteInfo? && c'.open[fd].downloaded
    && c'.open[fd] == c.open[fd].(downloaded := true, position := c'.open[fd].position)
    && OF.WellFormed(Abs(c, dir)) && OF.IsWriter(Abs(c, dir), fd)
    && c'.open[fd].temp in c'.files && c'.files[c'.open[fd].temp] == OF.DataOf(Abs(c, dir), fd)
    && Abs(c', dir) == OF.WithData(Abs(c, dir), fd, OF.DataOf(Abs(c, dir), fd), c.open[fd].modified)
  }

  lemma AlreadyTouched(c: Conc, dir: string, fd: nat)
    requires Ok(c, dir) && fd in c.open && c.open[fd].WriteInfo? && c.open[fd].downloaded
    ensures TouchedFrom(c, c, dir, fd)
  {
    hide IsUploadPath, PathOf, JobsOk, SizesOk;
    assert InfoOk(c, dir, fd);
    var info := c.open[fd];
    assert c.(files := c.files[info.temp := c.files[info.temp]], open := c.open[fd := info]) == c;
    SetTemp(c, c, dir, fd, c.files[info.temp], info.modified, info.position);
  }

  /** What the lazy fetch finds to copy. */
  function Fetched(c: Conc, id: FileId): Bytes
    requires id in c.remote && (id in c.queue ==> c.queue[id].path in c.files)
  {
    if id in c.sizes && c.sizes[id] > 0 then Content(c, id) else []
  }

  lemma FetchTouches(c: Conc, c': Conc, dir: string, fd: nat, data: Bytes)
    requires Ok(c, dir) && fd in c.open && c.open[fd].WriteInfo? && !c.open[fd].downloaded
    requires c.open[fd].id in c.remote && (c.open[fd].id in c.queue ==> c.queue[c.open[fd].id].path in c.files)
    requires data == Fetched(c, c.open[fd].id) && c.open[fd].temp in c.files
    requires c' == c.(
      files := c.files[c.open[fd].temp := WriteAt(c.files[c.open[fd].temp], c.open[fd].position, data)],
      open := c.open[fd := c.open[fd].(downloaded := true, position := c.open[fd].position + |data|)])
    ensures TouchedFrom(c, c', dir, fd)
  {
    hide IsUploadPath, PathOf, WriteAt;
    assert InfoOk(c, dir, fd);
    WriteWhole(data);
    AbsWellFormed(c, dir);
    assert data == OF.DataOf(Abs(c, dir), fd);
    SetTemp(c, c', dir, fd, data, c.open[fd].modified, |data|);
  }

  lemma WriteWhole(data: Bytes)
    ensures WriteAt([], 0, data) == data
  {}

  /** Reading, writing or truncating a touched handle. */
  lemma TouchThenSet(c: Conc, c1: Conc, c': Conc, dir: string, fd: nat, data: Bytes, modified: bool, position: nat)
    requires TouchedFrom(c, c1, dir, fd)
    requires c' == c1.(files := c1.files[c1.open[fd].temp := data],
                       open := c1.open[fd := c1.open[fd].(modified := modified, position := position)])
    ensures Ok(c', dir) && OF.WellFormed(Abs(c, dir)) && OF.IsWriter(Abs(c, dir), fd)
    ensures Abs(c', dir) == OF.WithData(Abs(c, dir), fd, data, modified)
  {
    hide IsUploadPath, PathOf, JobsOk, SizesOk, InfoOk, TempsDistinct;
    SetTemp(c1, c', dir, fd, data, modified, position);
  }

  /** The cached chunks have no part in what the open files are. */
  lemma CachesApart(c: Conc, c': Conc, dir: string)
    requires Ok(c, dir) && c' == c.(mem := c'.mem, disk := c'.disk)
    ensures Ok(c', dir) && Abs(c', dir) == Abs(c, dir)
  {
    hide PathOf, IsUploadPath;
    assert forall i :: i in c.remote ==> Content(c', i) == Content(c, i);
    forall g | g in c'.open ensures InfoOk(c', dir, g) && Meaning(c', c'.open[g]) == Meaning(c, c.open[g]) {
      assert InfoOk(c, dir, g);
    }
  }
}
