/** The read path: byte ranges assembled from chunks found in memory, on disk or in remote
    storage, while other threads download and evict. */
module ChunkManagers {
  import opened FileContents
  import opened ChunkCaches

  /** Remote storage, as a map from file ids to contents. */
  class StorageClient {
    var remote: map<FileId, Bytes>
    /** Chunk downloads asked for. */
    var requests: nat
    /** Whether requests that make sense never fail. */
    const reliable: bool

    constructor (remote: map<FileId, Bytes>, reliable: bool)
      ensures this.remote == remote && this.requests == 0 && this.reliable == reliable
    {
      this.remote, this.requests, this.reliable := remote, 0, reliable;
    }

    /** The bytes from `first` to `last`, both included, or nothing on any failure. */
    method DownloadRange(fileId: FileId, first: nat, last: nat) returns (data: Option<Bytes>)
      requires first <= last
      modifies this`requests
      ensures requests == old(requests) + 1
      ensures data.Some? ==> fileId in remote && data.value == Slice(remote[fileId], first, last + 1 - first)
      ensures reliable && fileId in remote ==> data.Some?
    {
      requests := requests + 1;
      var reached: bool := *;
      if (reached || reliable) && fileId in remote {
        data := Some(Slice(remote[fileId], first, last + 1 - first));
      } else {
        data := None;
      }
    }

    method GetFileContent(fileId: FileId) returns (data: Option<Bytes>)
      ensures data.Some? ==> fileId in remote && data.value == remote[fileId]
      ensures reliable && fileId in remote ==> data.Some?
    {
      var reached: bool := *;
      data := if (reached || reliable) && fileId in remote then Some(remote[fileId]) else None;
    }
  }

  /** A slice with the bounds clamped to the data. */
  function Clamped(data: Bytes, lo: nat, hi: nat): Bytes {
    var a := Min(lo, |data|);
    data[a..Max(a, Min(hi, |data|))]
  }

  /** The `index`-th chunk of a content. */
  function ChunkOf(content: Bytes, index: nat, chunkSize: nat): Bytes {
    Slice(content, index * chunkSize, chunkSize)
  }

  function StartChunk(offset: nat, size: nat): nat
    requires size > 0
  {
    offset / size
  }

  /** Floor division: one before the first chunk for an empty range at the start. */
  function EndChunk(offset: nat, length: nat, size: nat): int
    requires size > 0
  {
    (offset + length - 1) / size
  }

  /** The part of the `index`-th chunk that a range asks for. */
  function Wanted(chunk: Bytes, offset: nat, length: nat, index: nat, size: nat): Bytes
    requires index * size <= offset + length
  {
    var chunkStart := index * size;
    var relStart := Max(0, offset - chunkStart);
    var relEnd := Min(size, offset + length - chunkStart);
    Clamped(chunk, relStart, relEnd)
  }

  /** How far a range is assembled once the chunks before position `start` are in. */
  function Reach(content: Bytes, offset: nat, length: nat, start: int): int {
    Max(offset, Min(start, Min(offset + length, |content|)))
  }

  /** The part of one chunk that the loop appends is the next part of the range. */
  lemma ChunkPart(content: Bytes, offset: nat, length: nat, start: nat, size: nat)
    requires offset < |content| && start <= offset + length
    ensures Clamped(Slice(content, start, size), Max(0, offset - start), Min(size, offset + length - start))
         == content[Reach(content, offset, length, start)..Reach(content, offset, length, start + size)]
  {
    var data := Slice(content, start, size);
    var part := Clamped(data, Max(0, offset - start), Min(size, offset + length - start));
    var lo, hi := Reach(content, offset, length, start), Reach(content, offset, length, start + size);
    assert |part| == hi - lo;
    forall i | 0 <= i < |part| ensures part[i] == content[lo..hi][i] {
      var skip := Max(0, offset - start);
      assert lo == start + skip && part[i] == data[skip + i];
      SliceBytes(content, start, size, skip + i);
      assert content[lo..hi][i] == content[lo + i];
    }
  }

  lemma PastEnd(content: Bytes, start: nat, size: nat)
    requires start >= |content|
    ensures Slice(content, start, size) == []
  {}

  /** The last chunk is asked for up to the end of the file, which is the same slice. */
  lemma ShortChunk(content: Bytes, start: nat, size: nat)
    requires start < |content| && size > 0
    ensures Slice(content, start, Min(start + size - 1, |content| - 1) + 1 - start) == Slice(content, start, size)
  {}

  lemma NextChunk(index: nat, size: nat)
    ensures (index + 1) * size == index * size + size
  {}

  /** The two cache layers and the number of downloads asked for. */
  datatype Layers = Layers(mem: Cache, disk: map<CacheKey, Bytes>, requests: nat)

  /** How a chunk within its file is served.  A hit in memory becomes most recent; a hit on
      disk is put into memory; only a miss asks storage, and what it gives is put into
      memory and, if that layer is on and works, on disk. */
  ghost predicate Served(l: Layers, l': Layers, lim: Limits, key: CacheKey, data: Option<Bytes>,
                         usesDisk: bool, diskWorks: bool, isPrefetch: bool)
  {
    if Find(l.mem.entries, key).Some? then
      data == Find(l.mem.entries, key) && l' == l.(mem := Get(l.mem, key))
    else if usesDisk && key in l.disk then
      data == Some(l.disk[key]) && l' == l.(mem := Put(l.mem, lim, key, l.disk[key], isPrefetch))
    else if data.None? then l' == l.(requests := l.requests + 1)
    else
      && l'.requests == l.requests + 1 && l'.mem == Put(l.mem, lim, key, data.value, isPrefetch)
      && (l'.disk == l.disk || (usesDisk && l'.disk == l.disk[key := data.value]))
      && (usesDisk && diskWorks ==> key in l'.disk)
  }

  predicate IsCached(l: Layers, key: CacheKey, usesDisk: bool) {
    Find(l.mem.entries, key).Some? || (usesDisk && key in l.disk)
  }

  /** Storage is asked exactly when the chunk is in no layer, and then once. */
  lemma ServedRequests(l: Layers, l': Layers, lim: Limits, key: CacheKey, data: Option<Bytes>,
                       usesDisk: bool, diskWorks: bool, isPrefetch: bool)
    requires Served(l, l', lim, key, data, usesDisk, diskWorks, isPrefetch)
    ensures l'.requests == l.requests + if IsCached(l, key, usesDisk) then 0 else 1
    ensures IsCached(l, key, usesDisk) ==> data.Some?
  {}

  /** What was served is in memory afterwards if it fits there at all, and on a working disk in
      use if it came from storage; so serving it again gives the same without asking storage. */
  lemma ServedTwice(l: Layers, l': Layers, l'': Layers, lim: Limits, key: CacheKey, data: Option<Bytes>,
                    again: Option<Bytes>, usesDisk: bool, diskWorks: bool, isPrefetch: bool)
    requires Sound(l.mem) && data.Some? && Served(l, l', lim, key, data, usesDisk, diskWorks, isPrefetch)
    requires Served(l', l'', lim, key, again, usesDisk, diskWorks, isPrefetch)
    ensures IsCached(l, key, usesDisk) || (usesDisk && diskWorks) || (|data.value| <= lim.bytes && lim.chunks > 0)
      ==> l''.requests == l'.requests && again == data
    ensures |data.value| <= lim.bytes && lim.chunks > 0 && !IsCached(l, key, false) ==>
      Find(l'.mem.entries, key) == data
  {
    hide Sound, Total, Evict, Without, Distinct, Find, Keys;
    if Find(l.mem.entries, key).Some? {
      HitStays(l.mem, key, data.value);
    } else {
      PutStays(l.mem, lim, key, data.value, isPrefetch);
    }
  }

  class ChunkManager {
    const chunkSize: nat
    const cache: InMemoryChunkCache
    const storage: StorageClient
    const diskDisabled: bool
    /** Files whose extension keeps them on disk even when the disk layer is off. */
    const videos: set<FileId>
    /** Whether disk writes never fail. */
    const diskWorks: bool
    var disk: map<CacheKey, Bytes>

    ghost function View(): Layers
      reads this, cache, storage`requests
    {
      Layers(cache.View(), disk, storage.requests)
    }

    predicate UsesDisk(fileId: FileId) {
      !diskDisabled || fileId in videos
    }

    /** A cached chunk is the chunk of the remote content, and not one past its end. */
    ghost predicate ChunkOk(key: CacheKey, value: Bytes)
      reads storage`remote
    {
      && key.0 in storage.remote && key.1 * chunkSize < |storage.remote[key.0]|
      && value == ChunkOf(storage.remote[key.0], key.1, chunkSize)
    }

    ghost predicate Coherent()
      reads this, cache, storage`remote
    {
      && (forall e :: e in cache.entries ==> ChunkOk(e.key, e.value))
      && (forall k :: k in disk ==> ChunkOk(k, disk[k]))
    }

    ghost predicate Valid()
      reads this, cache, storage`remote
    {
      chunkSize > 0 && cache.Valid() && Coherent()
    }

    /** None of these files has a cached chunk. */
    ghost predicate Clear(files: set<FileId>)
      reads this, cache
    {
      && (forall e :: e in cache.entries ==> e.key.0 !in files)
      && (forall k :: k in disk ==> k.0 !in files)
    }

    /** No file but `fileId` gained a cached chunk. */
    twostate predicate OnlyGains(fileId: FileId)
      reads this, cache
    {
      && (forall e :: e in cache.entries && e.key.0 != fileId ==> e in old(cache.entries))
      && (forall k :: k in disk && k.0 != fileId ==> k in old(disk))
    }

    /** The caches stay coherent when only files without cached chunks change remotely. */
    twostate lemma RemoteChanged(files: set<FileId>)
      requires unchanged(this) && unchanged(cache) && old(Valid()) && old(Clear(files))
      requires forall f :: f in old(storage.remote) && f !in files ==>
        f in storage.remote && storage.remote[f] == old(storage.remote)[f]
      ensures Valid()
      ensures forall fewer :: fewer <= files ==> Clear(fewer)
    {
      forall e | e in cache.entries ensures ChunkOk(e.key, e.value) {
        assert old(ChunkOk(e.key, e.value));
      }
      forall k | k in disk ensures ChunkOk(k, disk[k]) {
        assert old(ChunkOk(k, disk[k]));
      }
    }

    constructor (
      chunkSize: nat, limits: Limits, storage: StorageClient, diskDisabled: bool, videos: set<FileId>, diskWorks: bool)
      requires chunkSize > 0
      ensures Valid() && fresh(cache) && disk == map[] && cache.entries == []
      ensures this.chunkSize == chunkSize && this.storage == storage
    {
      this.chunkSize := chunkSize;
      this.cache := new InMemoryChunkCache(limits);
      this.storage := storage;
      this.diskDisabled := diskDisabled;
      this.videos := videos;
      this.diskWorks := diskWorks;
      this.disk := map[];
    }

    method ReadDisk(key: CacheKey) returns (data: Option<Bytes>)
      requires Valid()
      ensures data.Some? ==> ChunkOk(key, data.value)
      ensures data == if UsesDisk(key.0) && key in disk then Some(disk[key]) else None
    {
      if diskDisabled && key.0 !in videos {
        return None;
      }
      data := if key in disk then Some(disk[key]) else None;
    }

    /** A failed disk write is logged and leaves no file. */
    method WriteDisk(key: CacheKey, data: Bytes)
      requires Valid() && ChunkOk(key, data)
      modifies this`disk
      ensures Valid() && OnlyGains(key.0)
      ensures disk == old(disk) || (UsesDisk(key.0) && disk == old(disk)[key := data])
      ensures UsesDisk(key.0) && diskWorks ==> key in disk
    {
      if diskDisabled && key.0 !in videos {
        return;
      }
      var written: bool := *;
      if written || diskWorks {
        disk := disk[key := data];
      }
    }

    method Cached(key: CacheKey) returns (data: Option<Bytes>)
      requires Valid()
      modifies cache
      ensures Valid() && OnlyGains(key.0)
      ensures data.Some? ==> ChunkOk(key, data.value)
      ensures cache.View() == Get(old(cache.View()), key) && data == Find(old(cache.entries), key)
    {
      hide Touch, Find, Sound, ChunkOk;
      ghost var before := cache.entries;
      data := cache.GetChunk(key);
      FindEntry(before, key);
      forall e | e in cache.entries ensures e in before || (data.Some? && e == Entry(key, data.value)) {
        if data.Some? {
          FromTouch(before, key, data.value, e);
        }
      }
    }

    method Store(key: CacheKey, data: Bytes, isPrefetch: bool)
      requires Valid() && ChunkOk(key, data)
      modifies cache
      ensures Valid() && OnlyGains(key.0)
      ensures cache.View() == Put(old(cache.View()), cache.limits, key, data, isPrefetch)
    {
      hide Touch, Evict, Sound, ChunkOk, Keys, Total, Find, Clear;
      ghost var before := cache.entries;
      cache.PutChunk(key, data, isPrefetch);
      forall e | e in cache.entries ensures e in before || e == Entry(key, data) {
        FromEvict(Touch(before, key, data), cache.limits, e);
        FromTouch(before, key, data, e);
      }
    }

    /** The download task: recheck memory and disk, then storage.  Nothing on failure. */
    method DownloadChunk(fileId: FileId, index: nat, totalSize: nat, isPrefetch: bool) returns (data: Option<Bytes>)
      requires Valid() && fileId in storage.remote && totalSize == |storage.remote[fileId]|
      modifies cache, this`disk, storage`requests
      ensures Valid() && OnlyGains(fileId)
      ensures data.Some? ==> data.value == ChunkOf(storage.remote[fileId], index, chunkSize)
      ensures storage.reliable ==> data.Some?
      ensures storage.requests >= old(storage.requests) + if data.None? then 1 else 0
      ensures index * chunkSize >= totalSize ==> data.Some? && View() == old(View())
      ensures index * chunkSize < totalSize ==>
        Served(old(View()), View(), cache.limits, (fileId, index), data, UsesDisk(fileId), diskWorks, isPrefetch)
    {
      hide Valid, Slice, Put, Touch, Clear;
      var start := index * chunkSize;
      var end := Min(start + chunkSize - 1, totalSize - 1);
      PositiveChunk();
      if start >= totalSize {
        PastEnd(storage.remote[fileId], start, chunkSize);
        return Some([]);
      }
      ShortChunk(storage.remote[fileId], start, chunkSize);
      data := Cached((fileId, index));
      if data.Some? {
        return;
      }
      data := ReadDisk((fileId, index));
      if data.Some? {
        Store((fileId, index), data.value, isPrefetch);
        return;
      }
      data := storage.DownloadRange(fileId, start, end);
      if data.Some? {
        Store((fileId, index), data.value, isPrefetch);
        WriteDisk((fileId, index), data.value);
      }
    }

    lemma PositiveChunk()
      requires Valid()
      ensures chunkSize > 0
    {}

    /** Schedules a prefetch unless the chunk is being worked on or is known already; the
        task may run now, later or never. */
    method Prefetch(fileId: FileId, index: nat, totalSize: nat, ghost quiet: set<FileId>)
      requires fileId !in quiet && Valid() && fileId in storage.remote && totalSize == |storage.remote[fileId]|
      modifies cache, this`disk, storage`requests
      ensures Valid() && (old(Clear(quiet)) ==> Clear(quiet)) && storage.requests >= old(storage.requests)
      ensures View() == old(View())
        || exists data ::
             Served(old(View()), View(), cache.limits, (fileId, index), data, UsesDisk(fileId), diskWorks, true)
      ensures old(Find(cache.entries, (fileId, index))).Some? || (fileId, index) in old(disk) ==> View() == old(View())
    {
      var locked, runs: bool := *, *;
      if locked || Find(cache.entries, (fileId, index)).Some? || (fileId, index) in disk {
        return;
      }
      if runs {
        var data := DownloadChunk(fileId, index, totalSize, true);
      }
    }

    /** After what looks like sequential reads, the next two chunks. */
    method PrefetchAhead(fileId: FileId, next: nat, totalSize: nat, ghost quiet: set<FileId>)
      requires fileId !in quiet && Valid() && fileId in storage.remote && totalSize == |storage.remote[fileId]|
      modifies cache, this`disk, storage`requests
      ensures Valid() && (old(Clear(quiet)) ==> Clear(quiet)) && storage.requests >= old(storage.requests)
    {
      hide Valid, Clear;
      var sequential: bool := *;
      if sequential {
        Prefetch(fileId, next, totalSize, quiet);
        Prefetch(fileId, next + 1, totalSize, quiet);
      }
    }

    /** Any number of downloads by other threads, with the evictions they cause; none of a
        file in `quiet`. */
    method OtherThreads(quiet: set<FileId>)
      requires Valid()
      modifies cache, this`disk, storage`requests
      ensures Valid() && (old(Clear(quiet)) ==> Clear(quiet)) && storage.requests >= old(storage.requests)
    {
      var n: nat := *;
      while n > 0
        invariant Valid() && (old(Clear(quiet)) ==> Clear(quiet)) && storage.requests >= old(storage.requests)
      {
        var fileId: FileId, index: nat, isPrefetch: bool := *, *, *;
        if fileId in storage.remote && fileId !in quiet {
          var data := DownloadChunk(fileId, index, |storage.remote[fileId]|, isPrefetch);
        }
        n := n - 1;
      }
    }

    /** One chunk, from memory, from disk (and then kept in memory) or by a download. */
    method ReadChunk(fileId: FileId, index: nat, totalSize: nat, ghost quiet: set<FileId>)
      returns (chunk: Option<Bytes>)
      requires fileId !in quiet && Valid() && fileId in storage.remote && totalSize == |storage.remote[fileId]|
      modifies cache, this`disk, storage`requests
      ensures Valid() && (old(Clear(quiet)) ==> Clear(quiet))
      ensures chunk.Some? ==> chunk.value == ChunkOf(storage.remote[fileId], index, chunkSize)
      ensures storage.reliable ==> chunk.Some?
      ensures storage.requests >= old(storage.requests) + if chunk.None? then 1 else 0
      ensures index * chunkSize < totalSize ==>
        Served(old(View()), View(), cache.limits, (fileId, index), chunk, UsesDisk(fileId), diskWorks, false)
    {
      chunk := Cached((fileId, index));
      if chunk.Some? {
        return;
      }
      chunk := ReadDisk((fileId, index));
      if chunk.Some? {
        Store((fileId, index), chunk.value, false);
        return;
      }
      chunk := DownloadChunk(fileId, index, totalSize, false);
    }

    /** One iteration's chunk, after whatever other threads did since the last one. */
    method ReadNext(fileId: FileId, index: nat, totalSize: nat, quiet: set<FileId>) returns (chunk: Option<Bytes>)
      requires fileId !in quiet && Valid() && fileId in storage.remote && totalSize == |storage.remote[fileId]|
      modifies cache, this`disk, storage`requests
      ensures Valid() && (old(Clear(quiet)) ==> Clear(quiet))
      ensures chunk.Some? ==> chunk.value == ChunkOf(storage.remote[fileId], index, chunkSize)
      ensures storage.reliable ==> chunk.Some?
      ensures storage.requests >= old(storage.requests) + if chunk.None? then 1 else 0
    {
      hide Valid, View, Clear, Served, ChunkOf;
      OtherThreads(quiet);
      chunk := ReadChunk(fileId, index, totalSize, quiet);
    }

    /** Range read: exactly the slice of the content, for every offset, length and chunk
        size, whatever hits memory, disk or storage; nothing only if a download fails. */
    method ReadContentRange(fileId: FileId, offset: nat, length: nat, totalSize: nat, quiet: set<FileId>)
      returns (data: Option<Bytes>)
      requires Valid() && fileId in storage.remote && totalSize == |storage.remote[fileId]| && fileId !in quiet
      modifies cache, this`disk, storage`requests
      ensures Valid() && (old(Clear(quiet)) ==> Clear(quiet))
      ensures data.Some? ==> data.value == Slice(storage.remote[fileId], offset, length)
      ensures offset >= totalSize || storage.reliable ==> data.Some?
      ensures data.None? ==> storage.requests > old(storage.requests)
    {
      hide Valid, View, Served, UsesDisk, ChunkOf, Wanted, Slice, Assembled, Clear, StartChunk, EndChunk;
      PositiveChunk();
      if offset >= totalSize {
        PastEnd(storage.remote[fileId], offset, length);
        return Some([]);
      }
      var startChunk := StartChunk(offset, chunkSize);
      var endChunk := EndChunk(offset, length, chunkSize);
      RangeStarts(storage.remote[fileId], offset, length, chunkSize);
      PrefetchAhead(fileId, endChunk + 1, totalSize, quiet);
      ghost var content := storage.remote[fileId];
      var result: Bytes := [];
      var index := startChunk;
      while index <= endChunk
        invariant Valid() && startChunk <= index && (index <= endChunk + 1 || index == startChunk)
        invariant Assembled(content, offset, length, chunkSize, index, result)
        invariant (old(Clear(quiet)) ==> Clear(quiet)) && storage.requests >= old(storage.requests)
      {
        var chunk := ReadNext(fileId, index, totalSize, quiet);
        if chunk.None? {
          return None;
        }
        NextPart(content, offset, length, chunkSize, index, endChunk, result);
        result := result + Wanted(chunk.value, offset, length, index, chunkSize);
        index := index + 1;
      }
      RangeDone(content, offset, length, chunkSize, index, endChunk, result);
      return Some(result);
    }

    /** Drops every chunk of a file from memory and disk, and no other.  A disk that does not
        work may keep any of them: the failure is only logged. */
    method InvalidateFile(fileId: FileId)
      requires Valid()
      modifies cache, this`disk
      ensures Valid()
      ensures cache.entries == WithoutFile(old(cache.entries), fileId)
      ensures forall k :: k in disk ==> k in old(disk) && disk[k] == old(disk)[k]
      ensures forall k :: k in old(disk) && k.0 != fileId ==> k in disk
      ensures diskWorks ==> disk == map k | k in old(disk) && k.0 != fileId :: old(disk)[k]
      ensures forall files :: old(Clear(files)) ==> Clear(files) && (diskWorks ==> Clear(files + {fileId}))
    {
      hide Sound, ChunkOk, WithoutFile;
      DropFromMemory(fileId);
      FromWithoutFile(old(cache.entries), fileId);
      var left: set<CacheKey> := *;
      if diskWorks {
        left := {};
      }
      disk := map k | k in disk && (k.0 != fileId || k in left) :: disk[k];
    }

    method DropFromMemory(fileId: FileId)
      requires cache.Valid()
      modifies cache
      ensures cache.Valid() && cache.entries == WithoutFile(old(cache.entries), fileId)
    {
      hide Sound, Distinct, Keys, Total, Without, WithoutFile, Find;
      var keys := cache.entries;
      SoundDistinct(cache.View());
      var i := 0;
      NothingDropped(keys, fileId);
      while i < |keys|
        invariant 0 <= i <= |keys| && cache.Valid()
        invariant cache.entries == WithoutFile(keys[..i], fileId) + keys[i..]
      {
        DropNext(keys, i, fileId);
        if keys[i].key.0 == fileId {
          cache.InvalidateKey(keys[i].key);
        }
        i := i + 1;
      }
      assert keys[..i] == keys && keys[i..] == [];
    }
  }

  lemma SoundDistinct(c: Cache)
    requires Sound(c)
    ensures Distinct(c.entries)
  {}

  function WithoutFile(es: seq<Entry>, fileId: FileId): seq<Entry> {
    if es == [] then []
    else WithoutFile(es[..|es| - 1], fileId) + if es[|es| - 1].key.0 == fileId then [] else [es[|es| - 1]]
  }

  lemma NothingDropped(es: seq<Entry>, fileId: FileId)
    ensures es == WithoutFile(es[..0], fileId) + es[0..]
  {}

  /** Exactly the entries of other files are kept. */
  lemma {:induction false} FromWithoutFile(es: seq<Entry>, fileId: FileId)
    ensures forall e :: e in WithoutFile(es, fileId) <==> e in es && e.key.0 != fileId
  {
    if es != [] {
      FromWithoutFile(es[..|es| - 1], fileId);
      assert es == es[..|es| - 1] + [es[|es| - 1]];
    }
  }

  lemma DropNext(es: seq<Entry>, i: nat, fileId: FileId)
    requires i < |es| && Distinct(es)
    ensures var before, after := WithoutFile(es[..i], fileId) + es[i..], WithoutFile(es[..i + 1], fileId) + es[i + 1..];
      after == if es[i].key.0 == fileId then Without(before, es[i].key) else before
  {
    hide WithoutFile, Distinct, Without;
    var key, done, rest := es[i].key, WithoutFile(es[..i], fileId), es[i + 1..];
    OneMoreKept(es, i, fileId);
    assert es[i..] == [es[i]] + rest;
    if key.0 == fileId {
      FromWithoutFile(es[..i], fileId);
      OtherKeys(es, i);
      DropMiddle(done, es[i], rest);
    } else {
      assert done + ([es[i]] + rest) == done + [es[i]] + rest;
    }
  }

  lemma OneMoreKept(es: seq<Entry>, i: nat, fileId: FileId)
    requires i < |es|
    ensures WithoutFile(es[..i + 1], fileId)
         == WithoutFile(es[..i], fileId) + if es[i].key.0 == fileId then [] else [es[i]]
  {
    assert es[..i + 1][..i] == es[..i];
  }

  lemma OtherKeys(es: seq<Entry>, i: nat)
    requires i < |es| && Distinct(es)
    ensures forall e :: e in es[i + 1..] ==> e.key != es[i].key
  {}

  lemma DropMiddle(done: seq<Entry>, e: Entry, rest: seq<Entry>)
    requires forall d :: d in done || d in rest ==> d.key != e.key
    ensures Without(done + ([e] + rest), e.key) == done + rest
  {
    NoSuchKey(done, e.key);
    NoSuchKey(rest, e.key);
    WithoutConcat(done, [e] + rest, e.key);
    assert ([e] + rest)[1..] == rest;
  }

  lemma {:induction false} NoSuchKey(es: seq<Entry>, key: CacheKey)
    requires forall e :: e in es ==> e.key != key
    ensures Without(es, key) == es
  {
    if es != [] {
      NoSuchKey(es[1..], key);
    }
  }

  // ---- arithmetic of the loop ----

  /** The range up to the start of the `index`-th chunk. */
  ghost predicate Assembled(content: Bytes, offset: nat, length: nat, size: nat, index: nat, result: Bytes)
    requires offset < |content|
  {
    result == content[offset..Reach(content, offset, length, index * size)]
  }

  lemma RangeStarts(content: Bytes, offset: nat, length: nat, size: nat)
    requires size > 0 && offset < |content|
    ensures Assembled(content, offset, length, size, StartChunk(offset, size), [])
    ensures EndChunk(offset, length, size) + 1 >= 0
  {
    DivLow(offset, size);
    DivFloor(offset + length - 1, size);
  }

  lemma DivLow(n: nat, size: nat)
    requires size > 0
    ensures (n / size) * size <= n
  {}

  lemma DivFloor(x: int, size: nat)
    requires size > 0 && x >= -1
    ensures x / size >= -1
  {}

  lemma DivBounds(x: int, size: nat)
    requires size > 0
    ensures (x / size) * size <= x < (x / size) * size + size
  {}

  lemma MulMono(a: int, b: int, size: nat)
    requires a <= b
    ensures a * size <= b * size
  {
    assert (b - a) * size >= 0;
    assert b * size == a * size + (b - a) * size;
  }

  lemma IndexBefore(index: nat, last: int, size: nat, end: int)
    requires size > 0 && index <= last && last == end / size
    ensures index * size <= end
  {
    DivBounds(end, size);
    MulMono(index, last, size);
  }

  lemma IndexPast(index: nat, last: int, size: nat, end: int)
    requires size > 0 && index > last && last == end / size
    ensures index * size > end
  {
    DivBounds(end, size);
    MulMono(last + 1, index, size);
    assert (last + 1) * size == last * size + size;
  }

  lemma NextPart(content: Bytes, offset: nat, length: nat, size: nat, index: nat, endChunk: int, result: Bytes)
    requires size > 0 && offset < |content| && Assembled(content, offset, length, size, index, result)
    requires index <= endChunk && endChunk == EndChunk(offset, length, size)
    ensures index * size <= offset + length
    ensures Assembled(content, offset, length, size, index + 1,
      result + Wanted(ChunkOf(content, index, size), offset, length, index, size))
  {
    IndexBefore(index, endChunk, size, offset + length - 1);
    hide EndChunk, Slice, Reach, Clamped;
    ChunkPart(content, offset, length, index * size, size);
    NextChunk(index, size);
    ReachGrows(content, offset, length, index * size, size);
  }

  lemma ReachGrows(content: Bytes, offset: nat, length: nat, start: nat, size: nat)
    requires offset < |content|
    ensures offset <= Reach(content, offset, length, start) <= Reach(content, offset, length, start + size) <= |content|
    ensures content[offset..Reach(content, offset, length, start)]
          + content[Reach(content, offset, length, start)..Reach(content, offset, length, start + size)]
         == content[offset..Reach(content, offset, length, start + size)]
  {}

  lemma RangeDone(content: Bytes, offset: nat, length: nat, size: nat, index: nat, endChunk: int, result: Bytes)
    requires size > 0 && offset < |content| && index > endChunk && endChunk == EndChunk(offset, length, size)
    requires Assembled(content, offset, length, size, index, result)
    ensures result == Slice(content, offset, length)
  {
    IndexPast(index, endChunk, size, offset + length - 1);
    hide EndChunk, Reach, Slice;
    ReachDone(content, offset, length, index * size);
  }

  lemma ReachDone(content: Bytes, offset: nat, length: nat, start: nat)
    requires offset < |content| && start >= offset + length
    ensures offset <= Reach(content, offset, length, start) <= |content|
    ensures content[offset..Reach(content, offset, length, start)] == Slice(content, offset, length)
  {}

  // ---- where entries come from ----

  lemma {:induction false} FindEntry(es: seq<Entry>, key: CacheKey)
    ensures Find(es, key).Some? ==> Entry(key, Find(es, key).value) in es
  {
    if es != [] {
      FindEntry(es[1..], key);
    }
  }

  lemma {:induction false} FromWithout(es: seq<Entry>, key: CacheKey, e: Entry)
    requires e in Without(es, key)
    ensures e in es && e.key != key
  {
    if es != [] && !(es[0].key != key && e == es[0]) {
      FromWithout(es[1..], key, e);
    }
  }

  lemma {:induction false} FromEvict(es: seq<Entry>, lim: Limits, e: Entry)
    requires e in Evict(es, lim)
    ensures e in es
  {
    if es != [] && !Fits(es, lim) {
      FromEvict(es[1..], lim, e);
    }
  }

  lemma FromTouch(es: seq<Entry>, key: CacheKey, value: Bytes, e: Entry)
    requires e in Touch(es, key, value) || e in es
    ensures e == Entry(key, value) || e in es
  {
    if e in Without(es, key) {
      FromWithout(es, key, e);
    }
  }

  lemma HitStays(c: Cache, key: CacheKey, value: Bytes)
    requires Sound(c) && Find(c.entries, key) == Some(value)
    ensures Find(Get(c, key).entries, key) == Some(value)
  {
    TouchFind(c.entries, key, value, key);
  }

  /** A value within the byte bound is in memory right after it was put there. */
  lemma PutStays(c: Cache, lim: Limits, key: CacheKey, value: Bytes, isPrefetch: bool)
    requires Sound(c)
    ensures var found := Find(Put(c, lim, key, value, isPrefetch).entries, key);
      && (found.Some? ==> found.value == value)
      && (|value| <= lim.bytes && lim.chunks > 0 ==> found.Some?)
  {
    hide Find, Keys, Evict, Without, Total, Distinct;
    var es := Touch(c.entries, key, value);
    TouchFind(c.entries, key, value, key);
    EvictFind(es, lim, key);
    FindIn(Evict(es, lim), key);
    if |value| <= lim.bytes && lim.chunks > 0 {
      NewestStays(Without(c.entries, key), Entry(key, value), lim);
    }
  }

  /** Eviction keeps the newest entry if that fits alone. */
  lemma NewestStays(rest: seq<Entry>, e: Entry, lim: Limits)
    requires |e.value| <= lim.bytes && lim.chunks > 0
    ensures e.key in Keys(Evict(rest + [e], lim))
  {
    hide Keys, Evict;
    var es := rest + [e];
    assert es[|rest|..] == [e];
    assert Total([e]) == |e.value| + Total([]);
    var i := EvictSuffix(es, lim);
    assert Fits(es[|rest|..], lim);
    assert es[i..] == es[i..|rest|] + [e];
    KeysConcat(es[i..|rest|], [e]);
    KeysOne(e);
  }
}
