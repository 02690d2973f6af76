/** Recovery after a crash: every file left in the journal directory whose name is
    recognised is queued for upload, in the order of the directory listing. */
module JournalRecovery {
  import opened FileContents
  import opened JournalNames
  import opened Names
  import opened UploadQueues

  /** A file of the journal directory.  `made` is the id made up for it should it be a
      created file. */
  datatype Leftover = Leftover(name: string, made: FileId)

  function JournalPath(journal: string, f: Leftover): Path {
    Join(journal, f.name)
  }

  /** The id a file is queued under, if it is recognised. */
  function Target(f: Leftover): Option<FileId> {
    match Recover(f.name)
    case Edit(id) => Some(id)
    case Create(_, _) => Some(f.made)
    case _ => None
  }

  ghost function RecoverOne(q: Queue, dir: string, journal: string, f: Leftover, now: nat): Queue
    requires JournalPath(journal, f) in q.files
  {
    match Recover(f.name)
    case Edit(id) => Enqueue(q, dir, id, JournalPath(journal, f), false, None, None, now)
    case Create(parent, name) => Enqueue(q, dir, f.made, JournalPath(journal, f), true, Some(parent), Some(name), now)
    case _ => q
  }

  /** The listed files are distinct, exist, are neither upload paths nor queued, and lead to
      ids that are file names. */
  ghost predicate Listing(q: Queue, dir: string, journal: string, fs: seq<Leftover>) {
    && (forall i :: 0 <= i < |fs| ==> FileOk(q, dir, journal, fs[i]))
    && (forall i, j :: 0 <= i < j < |fs| ==> JournalPath(journal, fs[i]) != JournalPath(journal, fs[j]))
  }

  ghost predicate FileOk(q: Queue, dir: string, journal: string, f: Leftover) {
    && JournalPath(journal, f) in q.files && !IsUploadPath(dir, JournalPath(journal, f))
    && (forall id :: id in q.jobs ==> q.jobs[id].path != JournalPath(journal, f))
    && (Target(f).Some? ==> ValidId(Target(f).value))
  }

  lemma EnqueueElsewhere(q: Queue, dir: string, id: FileId, temp: Path, isNew: bool,
                         parent: Option<FileId>, name: Option<Bytes>, now: nat, p: Path)
    requires temp in q.files && p in q.files && p != temp && p != SafePath(dir, id, now)
    requires forall other :: other in q.jobs ==> q.jobs[other].path != p
    ensures var q' := Enqueue(q, dir, id, temp, isNew, parent, name, now);
      && p in q'.files && q'.files[p] == q.files[p]
      && forall other :: other in q'.jobs ==> q'.jobs[other].path != p
  {
    hide SafePath, Active;
  }

  /** Recovering one file leaves files that are neither queued nor upload paths alone. */
  lemma StepFiles(q: Queue, dir: string, journal: string, f: Leftover, now: nat, p: Path)
    requires FileOk(q, dir, journal, f) && p != JournalPath(journal, f) && !IsUploadPath(dir, p) && p in q.files
    requires forall id :: id in q.jobs ==> q.jobs[id].path != p
    ensures var q' := RecoverOne(q, dir, journal, f, now);
      && p in q'.files && q'.files[p] == q.files[p]
      && forall id :: id in q'.jobs ==> q'.jobs[id].path != p
  {
    hide Enqueue, SafePath, IsUploadPath;
    if Target(f).Some? {
      UploadName(dir, f, now);
    }
    match Recover(f.name)
    case Edit(id) => EnqueueElsewhere(q, dir, id, JournalPath(journal, f), false, None, None, now, p);
    case Create(parent, name) =>
      EnqueueElsewhere(q, dir, f.made, JournalPath(journal, f), true, Some(parent), Some(name), now, p);
    case _ =>
  }

  lemma UploadName(dir: string, f: Leftover, now: nat)
    requires Target(f).Some? && ValidId(Target(f).value)
    ensures IsUploadPath(dir, SafePath(dir, Target(f).value, now))
  {
    OwnPath(dir, Target(f).value, now);
  }

  lemma StepListing(q: Queue, dir: string, journal: string, fs: seq<Leftover>, now: nat)
    requires Listing(q, dir, journal, fs) && fs != []
    ensures FileOk(q, dir, journal, fs[0])
    ensures Listing(RecoverOne(q, dir, journal, fs[0], now), dir, journal, fs[1..])
  {
    hide RecoverOne, IsUploadPath, Target;
    var rest := fs[1..];
    forall i | 0 <= i < |rest| ensures FileOk(RecoverOne(q, dir, journal, fs[0], now), dir, journal, rest[i]) {
      assert rest[i] == fs[i + 1] && FileOk(q, dir, journal, fs[i + 1]);
      StepFiles(q, dir, journal, fs[0], now, JournalPath(journal, fs[i + 1]));
    }
  }

  ghost function RecoverAll(q: Queue, dir: string, journal: string, fs: seq<Leftover>, now: nat): Queue
    requires Listing(q, dir, journal, fs)
    decreases |fs|
  {
    if fs == [] then q
    else
      StepListing(q, dir, journal, fs, now);
      RecoverAll(RecoverOne(q, dir, journal, fs[0], now), dir, journal, fs[1..], now)
  }

  function Targets(fs: seq<Leftover>): multiset<FileId> {
    if fs == [] then multiset{}
    else
      var last := Target(fs[|fs| - 1]);
      Targets(fs[..|fs| - 1]) + if last.Some? then multiset{last.value} else multiset{}
  }

  /** The content is queued under the id's own name and pending: as an update of the file, or
      as a new file under a parent. */
  ghost predicate Queued(q: Queue, dir: string, id: FileId, now: nat, content: Bytes, what: Recovered) {
    && id in q.jobs && q.jobs[id].status == Pending && q.jobs[id].path == SafePath(dir, id, now)
    && q.jobs[id].path in q.files && q.files[q.jobs[id].path] == content
    && q.jobs[id].isNew == what.Create?
    && (what.Create? ==> q.jobs[id].parent == Some(what.parent) && q.jobs[id].name == Some(what.name))
  }

  lemma QueuedNow(q: Queue, dir: string, journal: string, f: Leftover, now: nat, id: FileId)
    requires FileOk(q, dir, journal, f) && Target(f) == Some(id)
    ensures Queued(RecoverOne(q, dir, journal, f, now), dir, id, now, q.files[JournalPath(journal, f)], Recover(f.name))
  {
    hide Recover, SafePath, Active, IsUploadPath;
  }

  lemma QueuedStill(
    q: Queue, dir: string, journal: string, f: Leftover, now: nat, id: FileId, content: Bytes, what: Recovered)
    requires FileOk(q, dir, journal, f) && Target(f) != Some(id) && ValidId(id)
    requires Owned(q, dir) && Queued(q, dir, id, now, content, what)
    ensures Queued(RecoverOne(q, dir, journal, f, now), dir, id, now, content, what)
  {
    hide Recover, SafePath, Active, IsUploadPath, PathOf, Owned, ValidId;
    UploadIs(dir, id, now);
    if Target(f).Some? {
      Apart(q, dir, id, Target(f).value, now);
    }
  }

  lemma UploadIs(dir: string, id: FileId, now: nat)
    requires ValidId(id)
    ensures IsUploadPath(dir, SafePath(dir, id, now))
  {
    OwnPath(dir, id, now);
  }

  lemma Apart(q: Queue, dir: string, id: FileId, other: FileId, now: nat)
    requires Owned(q, dir) && ValidId(id) && ValidId(other) && id in q.jobs && other != id
    ensures SafePath(dir, other, now) != SafePath(dir, id, now)
    ensures other in q.jobs ==> q.jobs[other].path != q.jobs[id].path
  {
    hide SafePath, Active;
    OwnPath(dir, id, now);
    OwnPath(dir, other, now);
    if SafePath(dir, other, now) == SafePath(dir, id, now) {
      OnePathOneId(dir, id, other, SafePath(dir, id, now));
    }
    if other in q.jobs && q.jobs[other].path == q.jobs[id].path {
      DistinctPaths(q, dir, id, other);
    }
  }

  lemma StepConsistently(q: Queue, dir: string, journal: string, f: Leftover, now: nat)
    requires FileOk(q, dir, journal, f)
    ensures Owned(q, dir) ==> Owned(RecoverOne(q, dir, journal, f, now), dir)
    ensures Consistent(q, dir) ==> Consistent(RecoverOne(q, dir, journal, f, now), dir)
  {
    hide SafePath, Active, IsUploadPath, PathOf, Consistent, ValidId;
    if Target(f).Some? {
      OwnPath(dir, Target(f).value, now);
    }
    if Consistent(q, dir) {
      match Recover(f.name)
      case Edit(id) => EnqueueConsistent(q, dir, id, JournalPath(journal, f), false, None, None, now);
      case Create(parent, name) =>
        EnqueueConsistent(q, dir, f.made, JournalPath(journal, f), true, Some(parent), Some(name), now);
      case _ =>
    }
  }

  lemma {:induction false} QueuedToTheEnd(
    q: Queue, dir: string, journal: string, fs: seq<Leftover>, now: nat, id: FileId, content: Bytes, what: Recovered)
    requires Listing(q, dir, journal, fs) && Owned(q, dir) && ValidId(id) && Queued(q, dir, id, now, content, what)
    requires forall i :: 0 <= i < |fs| ==> Target(fs[i]) != Some(id)
    ensures Queued(RecoverAll(q, dir, journal, fs, now), dir, id, now, content, what)
    decreases |fs|
  {
    hide Target, RecoverOne, Queued, Owned, Consistent, Listing;
    if fs != [] {
      StepListing(q, dir, journal, fs, now);
      StepConsistently(q, dir, journal, fs[0], now);
      QueuedStill(q, dir, journal, fs[0], now, id, content, what);
      QueuedToTheEnd(RecoverOne(q, dir, journal, fs[0], now), dir, journal, fs[1..], now, id, content, what);
    }
  }

  /** Each recognised id ends up pending with the content of the last listed file for it,
      even if queued files are missing. */
  lemma {:induction false} LastListedWins(
    q: Queue, dir: string, journal: string, fs: seq<Leftover>, now: nat, i: nat, id: FileId)
    requires Listing(q, dir, journal, fs) && Owned(q, dir) && i < |fs| && Target(fs[i]) == Some(id)
    requires forall j :: i < j < |fs| ==> Target(fs[j]) != Some(id)
    ensures FileOk(q, dir, journal, fs[i])
    ensures var content := q.files[JournalPath(journal, fs[i])];
      Queued(RecoverAll(q, dir, journal, fs, now), dir, id, now, content, Recover(fs[i].name))
    decreases |fs|
  {
    hide RecoverOne, Queued, Owned, Consistent, Target, SafePath, IsUploadPath;
    var q1, rest := RecoverOne(q, dir, journal, fs[0], now), fs[1..];
    StepListing(q, dir, journal, fs, now);
    StepConsistently(q, dir, journal, fs[0], now);
    if i == 0 {
      QueuedNow(q, dir, journal, fs[0], now, id);
      QueuedToTheEnd(
        q1, dir, journal, rest, now, id, q.files[JournalPath(journal, fs[0])], Recover(fs[0].name));
    } else {
      LaterStays(q, dir, journal, fs, now, i);
      assert rest[i - 1] == fs[i];
      LastListedWins(q1, dir, journal, rest, now, i - 1, id);
    }
  }

  lemma LaterStays(q: Queue, dir: string, journal: string, fs: seq<Leftover>, now: nat, i: nat)
    requires Listing(q, dir, journal, fs) && 0 < i < |fs|
    ensures FileOk(q, dir, journal, fs[0]) && FileOk(q, dir, journal, fs[i])
    ensures var q1 := RecoverOne(q, dir, journal, fs[0], now);
      JournalPath(journal, fs[i]) in q1.files
      && q1.files[JournalPath(journal, fs[i])] == q.files[JournalPath(journal, fs[i])]
  {
    hide RecoverOne, Target, IsUploadPath;
    StepFiles(q, dir, journal, fs[0], now, JournalPath(journal, fs[i]));
  }

  /** Recovery keeps a consistent queue consistent. */
  lemma {:induction false} AllConsistent(q: Queue, dir: string, journal: string, fs: seq<Leftover>, now: nat)
    requires Listing(q, dir, journal, fs) && Consistent(q, dir)
    ensures Consistent(RecoverAll(q, dir, journal, fs, now), dir)
    decreases |fs|
  {
    hide Target, RecoverOne, Consistent, Owned, Listing;
    if fs != [] {
      StepListing(q, dir, journal, fs, now);
      StepConsistently(q, dir, journal, fs[0], now);
      AllConsistent(RecoverOne(q, dir, journal, fs[0], now), dir, journal, fs[1..], now);
    }
  }

  /** A crash loses no edit of a file whose id is not empty and has no underscore: the last
      listed journal of the id is queued again. */
  lemma EditSurvives(
    q: Queue, dir: string, journal: string, fs: seq<Leftover>, now: nat, i: nat, id: FileId, suffix: string)
    requires Listing(q, dir, journal, fs) && Owned(q, dir) && i < |fs| && fs[i].name == EditName(id, suffix)
    requires id != "" && NoUnderscore(id) && forall j :: i < j < |fs| ==> Target(fs[j]) != Some(id)
    ensures JournalPath(journal, fs[i]) in q.files
    ensures var content := q.files[JournalPath(journal, fs[i])];
      Queued(RecoverAll(q, dir, journal, fs, now), dir, id, now, content, Edit(id))
  {
    hide RecoverOne, Queued, Owned, Recover;
    EditRoundTrip(id, suffix);
    LastListedWins(q, dir, journal, fs, now, i, id);
  }

  /** Nor a file created and not yet uploaded: it is queued as a new file of its parent, with
      its name and content, under the id made up for it. */
  lemma CreateSurvives(
    q: Queue, dir: string, journal: string, fs: seq<Leftover>, now: nat, i: nat, parent: FileId, name: Bytes,
    suffix: string)
    requires Listing(q, dir, journal, fs) && Owned(q, dir) && i < |fs| && fs[i].name == CreateName(parent, name, suffix)
    requires parent != "" && NoUnderscore(parent) && name != [] && NoUnderscore(Encode(name))
    requires forall j :: i < j < |fs| ==> Target(fs[j]) != Some(fs[i].made)
    ensures JournalPath(journal, fs[i]) in q.files
    ensures var content, q' := q.files[JournalPath(journal, fs[i])], RecoverAll(q, dir, journal, fs, now);
      && fs[i].made in q'.jobs
      && var job := q'.jobs[fs[i].made];
      && job.status == Pending && job.isNew && job.parent == Some(parent) && job.name == Some(name)
      && job.path in q'.files && q'.files[job.path] == content
  {
    hide RecoverOne, Owned, Recover, Encode, CreateName;
    CreateRoundTrip(parent, name, suffix);
    LastListedWins(q, dir, journal, fs, now, i, fs[i].made);
  }

  lemma LeftoverFate(q: Queue, dir: string, journal: string, f: Leftover, now: nat)
    requires FileOk(q, dir, journal, f)
    ensures var path, q' := JournalPath(journal, f), RecoverOne(q, dir, journal, f, now);
      if Target(f).Some? then path !in q'.files else q' == q
  {
    hide Recover, SafePath, IsUploadPath, ValidId;
    if Target(f).Some? {
      UploadName(dir, f, now);
    }
  }

  lemma {:induction false} GoneStaysGone(q: Queue, dir: string, journal: string, fs: seq<Leftover>, now: nat, p: Path)
    requires Listing(q, dir, journal, fs) && p !in q.files && !IsUploadPath(dir, p)
    ensures p !in RecoverAll(q, dir, journal, fs, now).files
    decreases |fs|
  {
    hide Target, RecoverOne, IsUploadPath, Listing;
    if fs != [] {
      StepListing(q, dir, journal, fs, now);
      NoNewFile(q, dir, journal, fs[0], now, p);
      GoneStaysGone(RecoverOne(q, dir, journal, fs[0], now), dir, journal, fs[1..], now, p);
    }
  }

  lemma NoNewFile(q: Queue, dir: string, journal: string, f: Leftover, now: nat, p: Path)
    requires FileOk(q, dir, journal, f) && p !in q.files && !IsUploadPath(dir, p)
    ensures p !in RecoverOne(q, dir, journal, f, now).files
  {
    hide Recover, SafePath, IsUploadPath, ValidId;
    if Target(f).Some? {
      UploadName(dir, f, now);
    }
  }

  lemma {:induction false} UntouchedStays(q: Queue, dir: string, journal: string, fs: seq<Leftover>, now: nat, p: Path)
    requires Listing(q, dir, journal, fs) && p in q.files && !IsUploadPath(dir, p)
    requires forall id :: id in q.jobs ==> q.jobs[id].path != p
    requires forall i :: 0 <= i < |fs| ==> JournalPath(journal, fs[i]) != p
    ensures var q' := RecoverAll(q, dir, journal, fs, now); p in q'.files && q'.files[p] == q.files[p]
    decreases |fs|
  {
    hide Target, RecoverOne, IsUploadPath, Listing;
    if fs != [] {
      StepListing(q, dir, journal, fs, now);
      StepFiles(q, dir, journal, fs[0], now, p);
      UntouchedStays(RecoverOne(q, dir, journal, fs[0], now), dir, journal, fs[1..], now, p);
    }
  }

  /** Recovery moves exactly the recognised files out of the journal, so that another recovery
      finds only what no recovery recognises, and loses nothing of that. */
  lemma {:induction false} JournalAfter(q: Queue, dir: string, journal: string, fs: seq<Leftover>, now: nat, i: nat)
    requires Listing(q, dir, journal, fs) && i < |fs|
    ensures FileOk(q, dir, journal, fs[i])
    ensures var path, q' := JournalPath(journal, fs[i]), RecoverAll(q, dir, journal, fs, now);
      if Target(fs[i]).Some? then path !in q'.files else path in q'.files && q'.files[path] == q.files[path]
    decreases |fs|
  {
    hide Target, RecoverOne, IsUploadPath;
    var q1, rest, path := RecoverOne(q, dir, journal, fs[0], now), fs[1..], JournalPath(journal, fs[i]);
    StepListing(q, dir, journal, fs, now);
    LeftoverFate(q, dir, journal, fs[0], now);
    if i > 0 {
      LaterStays(q, dir, journal, fs, now, i);
      assert rest[i - 1] == fs[i];
      JournalAfter(q1, dir, journal, rest, now, i - 1);
    } else if Target(fs[0]).Some? {
      GoneStaysGone(q1, dir, journal, rest, now, path);
    } else {
      forall k | 0 <= k < |rest| ensures JournalPath(journal, rest[k]) != path {
        assert rest[k] == fs[k + 1];
      }
      UntouchedStays(q1, dir, journal, rest, now, path);
    }
  }

  // ---- a crash in the middle of an enqueue ----

  /** How far an enqueue has come: nothing done, the replaced file removed, the new file
      moved in, the queue saved. */
  datatype Moment = Untouched | OldRemoved | MovedIn | Saved

  /** What the next process finds when the last one died at that moment: the files as they
      are, and the queue as it was saved last. */
  ghost function DiedAt(q: Queue, dir: string, id: FileId, temp: Path, now: nat, m: Moment): Queue
    requires temp in q.files
  {
    var full := Enqueue(q, dir, id, temp, false, None, None, now);
    var jobs := if m == Saved then full.jobs else q.saved;
    var files := match m
      case Untouched => q.files
      case OldRemoved => if id in q.jobs then q.files - {q.jobs[id].path} else q.files
      case _ => full.files;
    Queue(files, jobs, jobs, Active(jobs))
  }

  /** The edit is still in its journal file, or in the file of a saved job. */
  ghost predicate Recoverable(q: Queue, id: FileId, temp: Path, content: Bytes) {
    || (temp in q.files && q.files[temp] == content)
    || (id in q.jobs && q.jobs[id].path in q.files && q.files[q.jobs[id].path] == content)
  }

  /** A crash loses the edit if and only if it comes between the move and the saving of the
      queue, unless the saved queue names the very path moved to.  The job that the edit was to
      replace is then left without its file, and the first attempt drops it. */
  lemma CrashKeepsIff(q: Queue, dir: string, id: FileId, temp: Path, now: nat, m: Moment)
    requires Consistent(q, dir) && temp in q.files && !IsUploadPath(dir, temp) && ValidId(id)
    ensures Recoverable(DiedAt(q, dir, id, temp, now, m), id, temp, q.files[temp])
      <==> m != MovedIn || (id in q.jobs && q.jobs[id].path == SafePath(dir, id, now))
    ensures var q' := DiedAt(q, dir, id, temp, now, m);
      (m == MovedIn && id in q.jobs && q.jobs[id].path != SafePath(dir, id, now) ==>
        id in q'.jobs && q'.jobs[id].path !in q'.files)
  {
    UploadIs(dir, id, now);
    if id in q.jobs {
      Uploaded(q, dir, id);
    }
    hide SafePath, Active, IsUploadPath, PathOf, ValidId;
  }

  lemma Uploaded(q: Queue, dir: string, id: FileId)
    requires Consistent(q, dir) && id in q.jobs
    ensures IsUploadPath(dir, q.jobs[id].path)
  {
    assert PathOf(dir, id, q.jobs[id].path);
  }
}
