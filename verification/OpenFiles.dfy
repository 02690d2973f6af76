/** What open files mean: one content per file, handles that fetch their base on first
    touch, and modified contents that take effect when their handle is released. */
module OpenFiles {
  import opened FileContents

  /** A write handle's `data` is absent until the handle is first read, written or truncated. */
  datatype Handle = Reader(id: FileId) | Writer(id: FileId, data: Option<Bytes>, modified: bool)

  /** `known` are the files whose metadata is still cached. */
  datatype Files = Files(
    contents: map<FileId, Bytes>, known: set<FileId>, handles: map<nat, Handle>, nextFd: nat)

  /** Background stands for what no caller sees: upload attempts of any outcome, chunk
      downloads and evictions; Expire for metadata leaving the cache; Fault for a call that
      fails for want of metadata or of storage. */
  datatype Op =
    | Open(id: FileId, write: bool, trunc: bool)
    | Read(fd: nat, length: nat, offset: nat)
    | Write(fd: nat, data: Bytes, offset: nat)
    | Truncate(fd: nat, size: nat)
    | Release(fd: nat)
    | Background
    | Expire(id: FileId)
    | Fault

  datatype Out = Fd(fd: nat) | Data(data: Bytes) | Count(n: nat) | Done | Failed

  ghost predicate WellFormed(a: Files) {
    && (forall fd :: fd in a.handles ==> a.handles[fd].id in a.contents && fd < a.nextFd)
    && (forall fd :: fd in a.handles && a.handles[fd].Writer? && a.handles[fd].data.None? ==> !a.handles[fd].modified)
  }

  predicate IsWriter(a: Files, fd: nat) {
    fd in a.handles && a.handles[fd].Writer?
  }

  /** The base a handle gets on first touch: the current content, if its metadata is known. */
  function Base(a: Files, id: FileId): Bytes
    requires id in a.contents
  {
    if id in a.known then a.contents[id] else []
  }

  function DataOf(a: Files, fd: nat): Bytes
    requires IsWriter(a, fd) && a.handles[fd].id in a.contents
  {
    if a.handles[fd].data.Some? then a.handles[fd].data.value else Base(a, a.handles[fd].id)
  }

  function WithData(a: Files, fd: nat, data: Bytes, modified: bool): Files
    requires IsWriter(a, fd)
  {
    a.(handles := a.handles[fd := Writer(a.handles[fd].id, Some(data), modified)])
  }

  predicate Applicable(a: Files, op: Op) {
    op.Open? ==> op.id in a.contents
  }

  function Step(a: Files, op: Op): (r: (Files, Out))
    requires WellFormed(a) && Applicable(a, op)
    ensures WellFormed(r.0) && r.0.contents.Keys == a.contents.Keys
  {
    match op
    case Open(id, write, trunc) =>
      var h := if !write then Reader(id) else if trunc then Writer(id, Some([]), true) else Writer(id, None, false);
      (a.(handles := a.handles[a.nextFd := h], nextFd := a.nextFd + 1), Fd(a.nextFd))
    case Read(fd, length, offset) =>
      if fd !in a.handles then (a, Failed)
      else if a.handles[fd].Reader? then (a, Data(Slice(a.contents[a.handles[fd].id], offset, length)))
      else (WithData(a, fd, DataOf(a, fd), a.handles[fd].modified), Data(Slice(DataOf(a, fd), offset, length)))
    case Write(fd, data, offset) =>
      if !IsWriter(a, fd) then (a, Failed)
      else (WithData(a, fd, WriteAt(DataOf(a, fd), offset, data), true), Count(|data|))
    case Truncate(fd, size) =>
      if !IsWriter(a, fd) then (a, Done)
      else (WithData(a, fd, Resize(DataOf(a, fd), size), true), Done)
    case Release(fd) =>
      var b := a.(handles := a.handles - {fd});
      if IsWriter(a, fd) && a.handles[fd].modified
      then (b.(contents := a.contents[a.handles[fd].id := a.handles[fd].data.value]), Done)
      else (b, Done)
    case Background => (a, Done)
    case Expire(id) => (a.(known := a.known - {id}), Done)
    case Fault => (a, Failed)
  }

  // ---- handles that copy their base when they are opened ----

  function EagerStep(a: Files, op: Op): (r: (Files, Out))
    requires WellFormed(a) && Applicable(a, op)
    ensures WellFormed(r.0)
  {
    if op.Open? && op.write && !op.trunc
    then (a.(handles := a.handles[a.nextFd := Writer(op.id, Some(a.contents[op.id]), false)], nextFd := a.nextFd + 1),
          Fd(a.nextFd))
    else Step(a, op)
  }

  /** The step does not change the base of an untouched handle, nor touch one whose
      non-empty base has lost its metadata. */
  ghost predicate Stable(a: Files, op: Op)
    requires WellFormed(a)
  {
    match op
    case Release(fd) =>
      IsWriter(a, fd) && a.handles[fd].modified ==>
        forall other :: IsWriter(a, other) && a.handles[other].id == a.handles[fd].id ==> a.handles[other].data.Some?
    case Read(fd, _, _) => Fetchable(a, fd)
    case Write(fd, _, _) => Fetchable(a, fd)
    case Truncate(fd, _) => Fetchable(a, fd)
    case _ => true
  }

  ghost predicate Fetchable(a: Files, fd: nat)
    requires WellFormed(a)
  {
    IsWriter(a, fd) && a.handles[fd].data.None? ==> a.handles[fd].id in a.known || a.contents[a.handles[fd].id] == []
  }

  /** The lazy fetch gives a handle its file's content exactly when the metadata is still
      known or there is nothing to fetch. */
  lemma FetchExact(a: Files, fd: nat)
    requires WellFormed(a) && IsWriter(a, fd) && a.handles[fd].data.None?
    ensures DataOf(a, fd) == a.contents[a.handles[fd].id] <==> Fetchable(a, fd)
  {}

  ghost predicate Matches(a: Files, e: Files) {
    && e.contents == a.contents && e.known == a.known && e.nextFd == a.nextFd && e.handles.Keys == a.handles.Keys
    && forall fd :: fd in a.handles ==> HandleMatches(a, e, fd)
  }

  ghost predicate HandleMatches(a: Files, e: Files, fd: nat)
    requires fd in a.handles && fd in e.handles
  {
    var h, g := a.handles[fd], e.handles[fd];
    if h.Writer? && h.data.None?
    then h.id in a.contents && g == Writer(h.id, Some(a.contents[h.id]), false)
    else g == h
  }

  lemma LazyStep(a: Files, e: Files, op: Op)
    requires WellFormed(a) && WellFormed(e) && Matches(a, e) && Applicable(a, op) && Stable(a, op)
    ensures Step(a, op).1 == EagerStep(e, op).1
    ensures Matches(Step(a, op).0, EagerStep(e, op).0)
  {
    hide WriteAt, Resize, Slice, Step, EagerStep;
    match op
    case Open(_, _, _) => LazyOpen(a, e, op);
    case Release(_) => LazyRelease(a, e, op);
    case Background => LazyTouch(a, e, op);
    case Expire(_) => LazyTouch(a, e, op);
    case Fault => LazyTouch(a, e, op);
    case _ =>
      assert op.fd in a.handles ==> HandleMatches(a, e, op.fd);
      LazyTouch(a, e, op);
  }

  lemma LazyOpen(a: Files, e: Files, op: Op)
    requires WellFormed(a) && WellFormed(e) && Matches(a, e) && op.Open? && op.id in a.contents
    ensures Step(a, op).1 == EagerStep(e, op).1 && Matches(Step(a, op).0, EagerStep(e, op).0)
  {
    var a', e' := Step(a, op).0, EagerStep(e, op).0;
    forall fd | fd in a'.handles ensures HandleMatches(a', e', fd) {
      assert fd in a.handles ==> HandleMatches(a, e, fd);
    }
  }

  lemma LazyRelease(a: Files, e: Files, op: Op)
    requires WellFormed(a) && WellFormed(e) && Matches(a, e) && op.Release? && Stable(a, op)
    ensures Step(a, op).1 == EagerStep(e, op).1 && Matches(Step(a, op).0, EagerStep(e, op).0)
  {
    var a', e' := Step(a, op).0, EagerStep(e, op).0;
    assert op.fd in a.handles ==> HandleMatches(a, e, op.fd);
    forall fd | fd in a'.handles ensures HandleMatches(a', e', fd) {
      assert HandleMatches(a, e, fd);
    }
  }

  lemma LazyTouch(a: Files, e: Files, op: Op)
    requires WellFormed(a) && WellFormed(e) && Matches(a, e) && !op.Open? && !op.Release? && Stable(a, op)
    requires op.Read? || op.Write? || op.Truncate? ==> op.fd in a.handles ==> HandleMatches(a, e, op.fd)
    ensures Step(a, op).1 == EagerStep(e, op).1 && Matches(Step(a, op).0, EagerStep(e, op).0)
  {
    hide WriteAt, Resize, Slice;
    var a', e' := Step(a, op).0, Step(e, op).0;
    if op.Read? || op.Write? || op.Truncate? {
      assert IsWriter(a, op.fd) ==> DataOf(a, op.fd) == DataOf(e, op.fd);
    }
    forall fd | fd in a'.handles ensures HandleMatches(a', e', fd) {
      assert HandleMatches(a, e, fd);
    }
  }

  ghost predicate RunsOn(a: Files, ops: seq<Op>, stable: bool)
    requires WellFormed(a)
    decreases |ops|
  {
    ops == [] ||
      (Applicable(a, ops[0]) && (stable ==> Stable(a, ops[0])) && RunsOn(Step(a, ops[0]).0, ops[1..], stable))
  }

  function Final(a: Files, ops: seq<Op>): (b: Files)
    requires WellFormed(a) && RunsOn(a, ops, false)
    ensures WellFormed(b)
    decreases |ops|
  {
    if ops == [] then a else Final(Step(a, ops[0]).0, ops[1..])
  }

  function Outs(a: Files, ops: seq<Op>): (outs: seq<Out>)
    requires WellFormed(a) && RunsOn(a, ops, false)
    ensures |outs| == |ops|
    decreases |ops|
  {
    if ops == [] then [] else [Step(a, ops[0]).1] + Outs(Step(a, ops[0]).0, ops[1..])
  }

  ghost predicate EagerRuns(a: Files, ops: seq<Op>)
    requires WellFormed(a)
    decreases |ops|
  {
    ops == [] ||
      (Applicable(a, ops[0]) && EagerRuns(EagerStep(a, ops[0]).0, ops[1..]))
  }

  function EagerFinal(a: Files, ops: seq<Op>): (b: Files)
    requires WellFormed(a) && EagerRuns(a, ops)
    ensures WellFormed(b)
    decreases |ops|
  {
    if ops == [] then a else EagerFinal(EagerStep(a, ops[0]).0, ops[1..])
  }

  function EagerOuts(a: Files, ops: seq<Op>): seq<Out>
    requires WellFormed(a) && EagerRuns(a, ops)
    decreases |ops|
  {
    if ops == [] then [] else [EagerStep(a, ops[0]).1] + EagerOuts(EagerStep(a, ops[0]).0, ops[1..])
  }

  lemma {:induction false} StableRuns(a: Files, ops: seq<Op>)
    requires WellFormed(a) && RunsOn(a, ops, true)
    ensures RunsOn(a, ops, false)
    decreases |ops|
  {
    if ops != [] {
      StableRuns(Step(a, ops[0]).0, ops[1..]);
    }
  }

  /** Lazy fetch refines eager fetch: over every stable run all results are the same, and
      so are all final file contents and touched handles. */
  lemma {:induction false} LazyIsEager(a: Files, e: Files, ops: seq<Op>)
    requires WellFormed(a) && WellFormed(e) && Matches(a, e) && RunsOn(a, ops, true)
    ensures RunsOn(a, ops, false) && EagerRuns(e, ops)
    ensures Outs(a, ops) == EagerOuts(e, ops)
    ensures Matches(Final(a, ops), EagerFinal(e, ops))
    decreases |ops|
  {
    hide Step, EagerStep, Stable, Matches, WellFormed, Applicable;
    StableRuns(a, ops);
    if ops != [] {
      LazyStepApplies(a, e, ops[0]);
      LazyStep(a, e, ops[0]);
      LazyIsEager(Step(a, ops[0]).0, EagerStep(e, ops[0]).0, ops[1..]);
    }
  }

  lemma LazyStepApplies(a: Files, e: Files, op: Op)
    requires Matches(a, e) && Applicable(a, op)
    ensures Applicable(e, op)
  {}

  lemma OneMore(a: Files, op: Op, ops: seq<Op>)
    requires WellFormed(a) && Applicable(a, op)
    ensures RunsOn(Step(a, op).0, ops, false) ==>
      RunsOn(a, [op] + ops, false) && Final(a, [op] + ops) == Final(Step(a, op).0, ops)
    ensures EagerRuns(EagerStep(a, op).0, ops) ==>
      EagerRuns(a, [op] + ops) && EagerFinal(a, [op] + ops) == EagerFinal(EagerStep(a, op).0, ops)
  {
    hide Step, EagerStep, Applicable, WellFormed;
    assert ([op] + ops)[1..] == ops;
  }

  /** Opening a file for writing, losing its metadata, one write and the release. */
  function Careless(id: FileId, fd: nat, data: Bytes, offset: nat): seq<Op> {
    [Open(id, true, false)] + ([Expire(id)] + ([Write(fd, data, offset)] + ([Release(fd)] + [])))
  }

  /** The condition of FetchExact fails in a run: when the metadata expires before the first
      write, the release leaves the file without its old content, which a handle copied at
      open would have kept. */
  lemma ExpiredBaseLost(a: Files, id: FileId, data: Bytes, offset: nat)
    requires WellFormed(a) && id in a.contents
    ensures var ops := Careless(id, a.nextFd, data, offset);
      && RunsOn(a, ops, false) && Final(a, ops).contents == a.contents[id := WriteAt([], offset, data)]
      && EagerRuns(a, ops) && EagerFinal(a, ops).contents == a.contents[id := WriteAt(a.contents[id], offset, data)]
  {
    LazyLoses(a, id, data, offset);
    EagerKeeps(a, id, data, offset);
  }

  lemma LazyLoses(a: Files, id: FileId, data: Bytes, offset: nat)
    requires WellFormed(a) && id in a.contents
    ensures var ops := Careless(id, a.nextFd, data, offset);
      RunsOn(a, ops, false) && Final(a, ops).contents == a.contents[id := WriteAt([], offset, data)]
  {
    hide WriteAt, RunsOn, Final, Step, WellFormed;
    var a1 := Step(a, Open(id, true, false)).0;
    var a2 := Step(a1, Expire(id)).0;
    var a3 := Step(a2, Write(a.nextFd, data, offset)).0;
    var a4 := Step(a3, Release(a.nextFd)).0;
    LazyStates(a, id, data, offset);
    NothingMore(a4);
    OneMore(a3, Release(a.nextFd), []);
    OneMore(a2, Write(a.nextFd, data, offset), [Release(a.nextFd)] + []);
    OneMore(a1, Expire(id), [Write(a.nextFd, data, offset)] + ([Release(a.nextFd)] + []));
    OneMore(a, Open(id, true, false), [Expire(id)] + ([Write(a.nextFd, data, offset)] + ([Release(a.nextFd)] + [])));
  }

  lemma LazyStates(a: Files, id: FileId, data: Bytes, offset: nat)
    requires WellFormed(a) && id in a.contents
    ensures Applicable(a, Open(id, true, false))
    ensures var a2 := Step(Step(a, Open(id, true, false)).0, Expire(id)).0;
      Step(Step(a2, Write(a.nextFd, data, offset)).0, Release(a.nextFd)).0.contents
        == a.contents[id := WriteAt([], offset, data)]
  {
    hide WriteAt, Resize, Slice;
    var a1 := Step(a, Open(id, true, false)).0;
    assert a1.handles == a.handles[a.nextFd := Writer(id, None, false)];
    var a2 := Step(a1, Expire(id)).0;
    var a3 := Step(a2, Write(a.nextFd, data, offset)).0;
    assert a3.handles == a2.handles[a.nextFd := Writer(id, Some(WriteAt([], offset, data)), true)];
  }

  lemma EagerStates(a: Files, id: FileId, data: Bytes, offset: nat)
    requires WellFormed(a) && id in a.contents
    ensures Applicable(a, Open(id, true, false))
    ensures var e2 := EagerStep(EagerStep(a, Open(id, true, false)).0, Expire(id)).0;
      EagerStep(EagerStep(e2, Write(a.nextFd, data, offset)).0, Release(a.nextFd)).0.contents
        == a.contents[id := WriteAt(a.contents[id], offset, data)]
  {
    hide WriteAt, Resize, Slice;
    var e1 := EagerStep(a, Open(id, true, false)).0;
    assert e1.handles == a.handles[a.nextFd := Writer(id, Some(a.contents[id]), false)];
    var e2 := EagerStep(e1, Expire(id)).0;
    var data' := WriteAt(a.contents[id], offset, data);
    var e3 := EagerStep(e2, Write(a.nextFd, data, offset)).0;
    assert e3.handles == e2.handles[a.nextFd := Writer(id, Some(data'), true)];
  }

  lemma EagerKeeps(a: Files, id: FileId, data: Bytes, offset: nat)
    requires WellFormed(a) && id in a.contents
    ensures var ops := Careless(id, a.nextFd, data, offset);
      EagerRuns(a, ops) && EagerFinal(a, ops).contents == a.contents[id := WriteAt(a.contents[id], offset, data)]
  {
    hide WriteAt, Resize, Slice, EagerRuns, EagerFinal;
    var e1 := EagerStep(a, Open(id, true, false)).0;
    var e2 := EagerStep(e1, Expire(id)).0;
    var e3 := EagerStep(e2, Write(a.nextFd, data, offset)).0;
    var e4 := EagerStep(e3, Release(a.nextFd)).0;
    EagerStates(a, id, data, offset);
    hide Step, EagerStep, WellFormed;
    NothingMore(e4);
    OneMore(e3, Release(a.nextFd), []);
    OneMore(e2, Write(a.nextFd, data, offset), [Release(a.nextFd)] + []);
    OneMore(e1, Expire(id), [Write(a.nextFd, data, offset)] + ([Release(a.nextFd)] + []));
    OneMore(a, Open(id, true, false), [Expire(id)] + ([Write(a.nextFd, data, offset)] + ([Release(a.nextFd)] + [])));
  }

  lemma NothingMore(a: Files)
    requires WellFormed(a)
    ensures RunsOn(a, [], false) && EagerRuns(a, []) && Final(a, []) == a == EagerFinal(a, [])
  {}

  // ---- close to open ----

  /** What the writes and truncates on one handle make of a content. */
  function Edited(content: Bytes, ops: seq<Op>, fd: nat): Bytes
    decreases |ops|
  {
    if ops == [] then content else Edited(EditedOnce(content, ops[0], fd), ops[1..], fd)
  }

  predicate Edits(op: Op, fd: nat) {
    (op.Write? || op.Truncate?) && op.fd == fd
  }

  /** An operation after which the content of `id` may be another. */
  predicate Publishes(a: Files, op: Op, id: FileId) {
    op.Release? && IsWriter(a, op.fd) && a.handles[op.fd].id == id && a.handles[op.fd].modified
  }

  predicate Changes(ops: seq<Op>, fd: nat) {
    exists i :: 0 <= i < |ops| && Edits(ops[i], fd)
  }

  lemma ChangesFirst(ops: seq<Op>, fd: nat)
    requires ops != []
    ensures Changes(ops, fd) <==> Edits(ops[0], fd) || Changes(ops[1..], fd)
  {
    if Changes(ops[1..], fd) {
      var i :| 0 <= i < |ops[1..]| && Edits(ops[1..][i], fd);
      assert Edits(ops[i + 1], fd);
    }
    if i :| 0 <= i < |ops| && Edits(ops[i], fd) {
      assert i > 0 ==> Edits(ops[1..][i - 1], fd);
    }
  }

  /** One operation on the data of a handle. */
  function EditedOnce(content: Bytes, op: Op, fd: nat): Bytes {
    match op
    case Write(f, data, offset) => if f == fd then WriteAt(content, offset, data) else content
    case Truncate(f, size) => if f == fd then Resize(content, size) else content
    case _ => content
  }

  lemma HandleStep(e: Files, op: Op, fd: nat)
    requires WellFormed(e) && Applicable(e, op) && IsWriter(e, fd) && e.handles[fd].data.Some? && op != Release(fd)
    ensures var h := e.handles[fd];
      && fd in EagerStep(e, op).0.handles
      && EagerStep(e, op).0.handles[fd] ==
           Writer(h.id, Some(EditedOnce(h.data.value, op, fd)), h.modified || Edits(op, fd))
  {
    hide WriteAt, Resize, Slice;
  }

  /** While its handle is open, an eager handle's data are its base with its own edits. */
  lemma {:induction false} HandleFolds(e: Files, ops: seq<Op>, fd: nat)
    requires WellFormed(e) && EagerRuns(e, ops) && IsWriter(e, fd) && e.handles[fd].data.Some?
    requires forall i :: 0 <= i < |ops| ==> ops[i] != Release(fd)
    ensures var h := e.handles[fd];
      && fd in EagerFinal(e, ops).handles
      && EagerFinal(e, ops).handles[fd] ==
           Writer(h.id, Some(Edited(h.data.value, ops, fd)), h.modified || Changes(ops, fd))
    decreases |ops|
  {
    hide EagerStep, EditedOnce, Changes, WellFormed, Applicable;
    if ops == [] {
      NoChange(fd);
    } else {
      assert ops[0] != Release(fd);
      HandleStep(e, ops[0], fd);
      ChangesFirst(ops, fd);
      HandleFolds(EagerStep(e, ops[0]).0, ops[1..], fd);
    }
  }

  lemma NoChange(fd: nat)
    ensures !Changes([], fd)
  {}

  lemma {:induction false} EagerConcat(e: Files, x: seq<Op>, y: seq<Op>)
    requires WellFormed(e) && EagerRuns(e, x + y)
    ensures EagerRuns(e, x) && WellFormed(EagerFinal(e, x)) && EagerRuns(EagerFinal(e, x), y)
    ensures EagerFinal(e, x + y) == EagerFinal(EagerFinal(e, x), y)
    decreases |x|
  {
    hide EagerStep, WellFormed, Applicable;
    if x == [] {
      assert x + y == y;
    } else {
      assert (x + y)[1..] == x[1..] + y;
      EagerConcat(EagerStep(e, x[0]).0, x[1..], y);
    }
  }

  // ---- a write handle and its own edits ----

  /** What a write handle stands for: its data, or the content it was opened on. */
  function Held(a: Files, fd: nat): Bytes
    requires WellFormed(a) && IsWriter(a, fd)
  {
    if a.handles[fd].data.Some? then a.handles[fd].data.value else a.contents[a.handles[fd].id]
  }

  /** The handle stays open over the run, and its base, unless fetched already, is not lost. */
  ghost predicate KeepsBase(a: Files, ops: seq<Op>, fd: nat)
    requires WellFormed(a) && IsWriter(a, fd)
  {
    && (forall i :: 0 <= i < |ops| ==> ops[i] != Release(fd))
    && RunsOn(a, ops, false)
    && (a.handles[fd].data.Some? || (RunsOn(a, ops, true) && Fetchable(Final(a, ops), fd)))
  }

  lemma TouchedStep(a: Files, op: Op, fd: nat)
    requires WellFormed(a) && Applicable(a, op) && IsWriter(a, fd) && a.handles[fd].data.Some? && op != Release(fd)
    ensures var b := Step(a, op).0;
      IsWriter(b, fd) && b.handles[fd].data == Some(EditedOnce(a.handles[fd].data.value, op, fd))
  {
    hide WriteAt, Resize, Slice;
  }

  /** A touched handle's data are its data before with its own edits, whatever else runs. */
  lemma {:induction false} TouchedFolds(a: Files, ops: seq<Op>, fd: nat)
    requires WellFormed(a) && RunsOn(a, ops, false) && IsWriter(a, fd) && a.handles[fd].data.Some?
    requires forall i :: 0 <= i < |ops| ==> ops[i] != Release(fd)
    ensures var b := Final(a, ops);
      IsWriter(b, fd) && b.handles[fd].data == Some(Edited(a.handles[fd].data.value, ops, fd))
    decreases |ops|
  {
    hide Step, EditedOnce, WellFormed, Applicable;
    if ops != [] {
      assert ops[0] != Release(fd);
      TouchedStep(a, ops[0], fd);
      TouchedFolds(Step(a, ops[0]).0, ops[1..], fd);
    }
  }

  lemma UntouchedFolds(a: Files, ops: seq<Op>, fd: nat)
    requires WellFormed(a) && RunsOn(a, ops, true) && RunsOn(a, ops, false) && IsWriter(a, fd)
    requires forall i :: 0 <= i < |ops| ==> ops[i] != Release(fd)
    ensures var b := Final(a, ops); IsWriter(b, fd) && Held(b, fd) == Edited(Held(a, fd), ops, fd)
  {
    hide Edited, RunsOn, EagerRuns, Final, EagerFinal, Changes;
    var e := Fetched(a);
    FetchedMatches(a);
    LazyIsEager(a, e, ops);
    HandleFolds(e, ops, fd);
    assert fd in Final(a, ops).handles && HandleMatches(Final(a, ops), EagerFinal(e, ops), fd);
  }

  /** Whatever a handle is asked next works on what it stood for with its own edits. */
  lemma DataFolds(a: Files, ops: seq<Op>, fd: nat)
    requires WellFormed(a) && IsWriter(a, fd) && KeepsBase(a, ops, fd)
    ensures var b := Final(a, ops); IsWriter(b, fd) && DataOf(b, fd) == Edited(Held(a, fd), ops, fd)
  {
    hide Edited, RunsOn, Final;
    if a.handles[fd].data.Some? {
      TouchedFolds(a, ops, fd);
    } else {
      UntouchedFolds(a, ops, fd);
      if Final(a, ops).handles[fd].data.None? {
        FetchExact(Final(a, ops), fd);
      }
    }
  }

  /** A read through a write handle returns the slice, at its offset, of what the handle stood
      for with its own edits. */
  lemma OwnRead(a: Files, ops: seq<Op>, fd: nat, length: nat, offset: nat, n: nat)
    requires WellFormed(a) && IsWriter(a, fd) && KeepsBase(a, ops, fd) && n == |ops|
    requires RunsOn(a, ops + [Read(fd, length, offset)], false)
    ensures |Outs(a, ops + [Read(fd, length, offset)])| == n + 1
    ensures Outs(a, ops + [Read(fd, length, offset)])[n] == Data(Slice(Edited(Held(a, fd), ops, fd), offset, length))
  {
    hide Edited, Slice, RunsOn, Final, Outs, KeepsBase, Held;
    DataFolds(a, ops, fd);
    LastOut(a, ops, Read(fd, length, offset), n);
  }

  lemma {:induction false} EditedConcat(content: Bytes, ops: seq<Op>, op: Op, fd: nat)
    ensures Edited(content, ops + [op], fd) == EditedOnce(Edited(content, ops, fd), op, fd)
    decreases |ops|
  {
    hide EditedOnce;
    if ops == [] {
      assert [] + [op] == [op] && [op][1..] == [];
    } else {
      assert (ops + [op])[1..] == ops[1..] + [op];
      EditedConcat(EditedOnce(content, ops[0], fd), ops[1..], op, fd);
    }
  }

  /** A write reports all its bytes written, and a read of the same range gives them back. */
  lemma OwnWriteReadBack(a: Files, ops: seq<Op>, fd: nat, data: Bytes, offset: nat, n: nat)
    requires WellFormed(a) && IsWriter(a, fd) && n == |ops| && data != []
    requires KeepsBase(a, ops + [Write(fd, data, offset)], fd)
    requires RunsOn(a, ops + [Write(fd, data, offset)] + [Read(fd, |data|, offset)], false)
    ensures var outs := Outs(a, ops + [Write(fd, data, offset)] + [Read(fd, |data|, offset)]);
      |outs| == n + 2 && outs[n] == Count(|data|) && outs[n + 1] == Data(data)
  {
    hide Edited, Slice, WriteAt, RunsOn, Final, Outs, Held, Fetchable, WellFormed, Step, KeepsBase;
    var write, read := Write(fd, data, offset), Read(fd, |data|, offset);
    EditedThenRead(Held(a, fd), ops, data, offset, fd);
    OwnRead(a, ops + [write], fd, |data|, offset, n + 1);
    Concat(a, ops + [write], [read]);
    LastOut(a, ops, write, n);
    WriteCounts(a, ops, fd, data, offset);
  }

  lemma EditedThenRead(content: Bytes, ops: seq<Op>, data: Bytes, offset: nat, fd: nat)
    requires data != []
    ensures Slice(Edited(content, ops + [Write(fd, data, offset)], fd), offset, |data|) == data
  {
    hide Slice, WriteAt, Edited;
    EditedConcat(content, ops, Write(fd, data, offset), fd);
    ReadBack(Edited(content, ops, fd), offset, data);
  }

  lemma WriteCounts(a: Files, ops: seq<Op>, fd: nat, data: Bytes, offset: nat)
    requires WellFormed(a) && IsWriter(a, fd) && RunsOn(a, ops, false)
    requires KeepsBase(a, ops + [Write(fd, data, offset)], fd)
    ensures Step(Final(a, ops), Write(fd, data, offset)).1 == Count(|data|)
  {
    hide WriteAt, RunsOn, Final, Fetchable;
    var more := ops + [Write(fd, data, offset)];
    forall i | 0 <= i < |ops| ensures ops[i] != Release(fd) {
      assert more[i] == ops[i];
    }
    StillWriter(a, ops, fd);
  }

  lemma {:induction false} StillWriter(a: Files, ops: seq<Op>, fd: nat)
    requires WellFormed(a) && RunsOn(a, ops, false)
    requires IsWriter(a, fd) && forall i :: 0 <= i < |ops| ==> ops[i] != Release(fd)
    ensures IsWriter(Final(a, ops), fd)
    decreases |ops|
  {
    if ops != [] {
      HandleKept(a, ops[0], fd);
      assert ops[0] != Release(fd);
      hide Step, WellFormed, Applicable;
      StillWriter(Step(a, ops[0]).0, ops[1..], fd);
    }
  }

  /** A handle stays the same kind of handle on the same file until it is released, and is
      gone then. */
  lemma HandleKept(a: Files, op: Op, fd: nat)
    requires WellFormed(a) && Applicable(a, op) && fd in a.handles
    ensures var b := Step(a, op).0;
      if op == Release(fd) then fd !in b.handles
      else fd in b.handles && b.handles[fd].id == a.handles[fd].id && b.handles[fd].Reader? == a.handles[fd].Reader?
  {
    hide WriteAt, Resize, Slice;
  }

  /** A call fails only for want of its handle, or, as Fault, of metadata or storage. */
  lemma FailsExactly(a: Files, op: Op)
    requires WellFormed(a) && Applicable(a, op)
    ensures Step(a, op).1 == Failed <==>
      op.Fault? || (op.Read? && op.fd !in a.handles) || (op.Write? && !IsWriter(a, op.fd))
    ensures Step(a, op).1 == Failed ==> Step(a, op).0 == a
  {
    hide WriteAt, Resize, Slice;
  }

  /** Over every run metadata is lost only by its own expiry. */
  lemma {:induction false} KnownAfter(a: Files, ops: seq<Op>, id: FileId)
    requires WellFormed(a) && RunsOn(a, ops, false)
    ensures id in Final(a, ops).known <==> id in a.known && Expire(id) !in ops
    decreases |ops|
  {
    if ops != [] {
      KnownStep(a, ops[0], id);
      hide Step, WellFormed, Applicable;
      assert ops == [ops[0]] + ops[1..];
      KnownAfter(Step(a, ops[0]).0, ops[1..], id);
    }
  }

  lemma KnownStep(a: Files, op: Op, id: FileId)
    requires WellFormed(a) && Applicable(a, op)
    ensures id in Step(a, op).0.known <==> id in a.known && op != Expire(id)
  {
    hide WriteAt, Resize, Slice;
  }

  /** The same files with every untouched handle given its base. */
  function Fetched(a: Files): Files
    requires WellFormed(a)
  {
    a.(handles := map fd | fd in a.handles ::
      if a.handles[fd].Writer? && a.handles[fd].data.None?
      then Writer(a.handles[fd].id, Some(a.contents[a.handles[fd].id]), false) else a.handles[fd])
  }

  lemma FetchedMatches(a: Files)
    requires WellFormed(a)
    ensures Matches(a, Fetched(a)) && WellFormed(Fetched(a))
  {}

  /** No operation of the run releases a modified handle of the file. */
  ghost predicate NothingPublished(a: Files, ops: seq<Op>, id: FileId)
    requires WellFormed(a) && RunsOn(a, ops, false)
    decreases |ops|
  {
    ops == [] || (!Publishes(a, ops[0], id) && NothingPublished(Step(a, ops[0]).0, ops[1..], id))
  }

  lemma {:induction false} ContentKept(a: Files, ops: seq<Op>, id: FileId)
    requires WellFormed(a) && RunsOn(a, ops, false) && NothingPublished(a, ops, id) && id in a.contents
    ensures id in Final(a, ops).contents && Final(a, ops).contents[id] == a.contents[id]
    decreases |ops|
  {
    if ops != [] {
      var a1 := Step(a, ops[0]).0;
      assert id in a1.contents && a1.contents[id] == a.contents[id];
      ContentKept(a1, ops[1..], id);
    }
  }

  /** An eager edit session publishes its base with its own edits, whatever else ran. */
  lemma SessionPublishes(e: Files, id: FileId, trunc: bool, mid: seq<Op>)
    requires WellFormed(e) && EagerRuns(e, [Open(id, true, trunc)] + (mid + [Release(e.nextFd)]))
    requires (forall i :: 0 <= i < |mid| ==> mid[i] != Release(e.nextFd)) && (trunc || Changes(mid, e.nextFd))
    ensures var f := EagerFinal(e, [Open(id, true, trunc)] + (mid + [Release(e.nextFd)]));
      id in f.contents && f.contents[id] == Edited(if trunc then [] else e.contents[id], mid, e.nextFd)
  {
    hide Edited, EagerStep, EagerFinal, EagerRuns, WellFormed;
    var fd := e.nextFd;
    var open := Open(id, true, trunc);
    EagerConcat(e, [open], mid + [Release(fd)]);
    OneOp(e, open);
    var e1 := EagerStep(e, open).0;
    OpenGives(e, id, trunc);
    EagerConcat(e1, mid, [Release(fd)]);
    HandleFolds(e1, mid, fd);
    var e2 := EagerFinal(e1, mid);
    OneOp(e2, Release(fd));
    ReleaseGives(e2, fd);
  }

  lemma OneOp(e: Files, op: Op)
    requires WellFormed(e) && EagerRuns(e, [op])
    ensures Applicable(e, op) && EagerFinal(e, [op]) == EagerStep(e, op).0 && WellFormed(EagerStep(e, op).0)
  {
    assert [op][1..] == [];
  }

  lemma OpenGives(e: Files, id: FileId, trunc: bool)
    requires WellFormed(e) && id in e.contents
    ensures var e1 := EagerStep(e, Open(id, true, trunc)).0;
      && e.nextFd in e1.handles
      && e1.handles[e.nextFd] == Writer(id, Some(if trunc then [] else e.contents[id]), trunc)
  {}

  lemma ReleaseGives(e: Files, fd: nat)
    requires WellFormed(e) && IsWriter(e, fd) && e.handles[fd].modified
    ensures EagerStep(e, Release(fd)).0.contents == e.contents[e.handles[fd].id := e.handles[fd].data.value]
  {}

  /** Opening `id` for writing as `fd`, what runs meanwhile, and releasing it. */
  function Session(id: FileId, trunc: bool, mid: seq<Op>, fd: nat): (ops: seq<Op>)
    ensures |ops| == |mid| + 2
  {
    [Open(id, true, trunc)] + (mid + [Release(fd)])
  }

  /** A stable run from `a` that edits `id` through one handle. */
  ghost predicate IsSession(a: Files, id: FileId, trunc: bool, mid: seq<Op>) {
    && WellFormed(a) && id in a.contents
    && RunsOn(a, Session(id, trunc, mid, a.nextFd), true) && RunsOn(a, Session(id, trunc, mid, a.nextFd), false)
    && (forall i :: 0 <= i < |mid| ==> mid[i] != Release(a.nextFd)) && (trunc || Changes(mid, a.nextFd))
  }

  /** A run after which the content of `id` is the same. */
  ghost predicate IsQuiet(a: Files, ops: seq<Op>, id: FileId) {
    WellFormed(a) && RunsOn(a, ops, false) && NothingPublished(a, ops, id)
  }

  /** Close to open: a read through any read-only handle returns the slice of the content
      that the last modified release left: the base with that session's writes and
      truncates.  Uploads, their failures and other handles in between do not show. */
  lemma CloseToOpen(
    a: Files, id: FileId, trunc: bool, mid: seq<Op>, post: seq<Op>, reader: nat, length: nat, offset: nat)
    requires IsSession(a, id, trunc, mid)
    requires var b := Final(a, Session(id, trunc, mid, a.nextFd));
      && IsQuiet(b, post, id)
      && var c := Final(b, post);
      && reader in c.handles && c.handles[reader] == Reader(id)
    ensures var b := Final(a, Session(id, trunc, mid, a.nextFd));
      Step(Final(b, post), Read(reader, length, offset)).1
        == Data(Slice(Edited(if trunc then [] else a.contents[id], mid, a.nextFd), offset, length))
  {
    hide Edited, RunsOn, EagerRuns, NothingPublished, Stable;
    var ops := Session(id, trunc, mid, a.nextFd);
    FetchedMatches(a);
    LazyIsEager(a, Fetched(a), ops);
    SessionPublishes(Fetched(a), id, trunc, mid);
    ContentKept(Final(a, ops), post, id);
  }

  lemma {:induction false} Concat(a: Files, x: seq<Op>, y: seq<Op>)
    requires WellFormed(a) && RunsOn(a, x + y, false)
    ensures RunsOn(a, x, false) && WellFormed(Final(a, x)) && RunsOn(Final(a, x), y, false)
    ensures Final(a, x + y) == Final(Final(a, x), y)
    ensures Outs(a, x + y) == Outs(a, x) + Outs(Final(a, x), y)
    decreases |x|
  {
    hide Step, WellFormed, Applicable;
    if x == [] {
      assert x + y == y;
    } else {
      assert (x + y)[1..] == x[1..] + y;
      Concat(Step(a, x[0]).0, x[1..], y);
    }
  }

  lemma LastOut(a: Files, x: seq<Op>, op: Op, n: nat)
    requires WellFormed(a) && RunsOn(a, x + [op], false) && n == |x|
    ensures RunsOn(a, x, false) && WellFormed(Final(a, x)) && Applicable(Final(a, x), op)
    ensures |Outs(a, x + [op])| == n + 1 && Outs(a, x + [op])[n] == Step(Final(a, x), op).1
  {
    hide Step, WellFormed;
    Concat(a, x, [op]);
    assert [op][1..] == [];
  }

  /** Close to open, as the result of the last operation of one run. */
  lemma LastReadOfRun(
    a: Files, id: FileId, trunc: bool, mid: seq<Op>, post: seq<Op>, reader: nat, length: nat, offset: nat, n: nat)
    requires IsSession(a, id, trunc, mid) && IsQuiet(Final(a, Session(id, trunc, mid, a.nextFd)), post, id)
    requires RunsOn(a, Session(id, trunc, mid, a.nextFd) + post, false) && n == |mid| + 2 + |post|
    requires var c := Final(a, Session(id, trunc, mid, a.nextFd) + post);
      reader in c.handles && c.handles[reader] == Reader(id)
    requires RunsOn(a, Session(id, trunc, mid, a.nextFd) + post + [Read(reader, length, offset)], false)
    ensures |Outs(a, Session(id, trunc, mid, a.nextFd) + post + [Read(reader, length, offset)])| == n + 1
    ensures Outs(a, Session(id, trunc, mid, a.nextFd) + post + [Read(reader, length, offset)])[n]
      == Data(Slice(Edited(if trunc then [] else a.contents[id], mid, a.nextFd), offset, length))
  {
    hide Session, Edited, Slice, WellFormed, Changes, Final, Outs, Step, RunsOn, NothingPublished;
    assert |Session(id, trunc, mid, a.nextFd) + post| == n;
    Concat(a, Session(id, trunc, mid, a.nextFd), post);
    CloseToOpen(a, id, trunc, mid, post, reader, length, offset);
    LastOut(a, Session(id, trunc, mid, a.nextFd) + post, Read(reader, length, offset), n);
  }
}
