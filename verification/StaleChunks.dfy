/** Which chunks go stale: a download task that is under way when its file is published may
    store what it was asked for, after the file's chunks have been invalidated. */
module StaleChunks {
  import opened FileContents
  import opened ChunkCaches
  import opened ChunkManagers

  /** A task asked for under a total size, and one that holds what it fetched or found. */
  datatype Task = Asked(key: CacheKey, total: nat) | Holding(key: CacheKey, value: Bytes)

  /** `queued` is what waits to be uploaded, `cached` what either layer holds. */
  datatype Sys = Sys(
    remote: map<FileId, Bytes>, queued: map<FileId, Bytes>, cached: set<(CacheKey, Bytes)>, tasks: multiset<Task>)

  datatype Step =
    | Ask(key: CacheKey)
    | Fetch(t: Task)
    | Hit(t: Task, value: Bytes)
    | Store(t: Task)
    | Quit(t: Task)
    | Evict(gone: set<(CacheKey, Bytes)>)
    | Publish(id: FileId, data: Bytes)
    | Upload(id: FileId)

  /** What storage replies for a chunk, clamped to the total size the task was asked under. */
  function Reply(content: Bytes, index: nat, total: nat, size: nat): Bytes {
    if index * size < total then Slice(content, index * size, Min(size, total - index * size)) else []
  }

  predicate InRange(t: Task, size: nat) {
    t.Asked? && t.key.1 * size < t.total
  }

  /** Only files that are not queued are read through chunks; tasks past the end do nothing. */
  ghost predicate Enabled(s: Sys, size: nat, step: Step) {
    match step
    case Ask(key) => key.0 in s.remote && key.0 !in s.queued
    case Fetch(t) => t in s.tasks && InRange(t, size) && t.key.0 in s.remote
    case Hit(t, value) => t in s.tasks && InRange(t, size) && (t.key, value) in s.cached
    case Store(t) => t in s.tasks && t.Holding?
    case Quit(t) => t in s.tasks
    case Evict(_) => true
    case Publish(id, _) => id in s.remote
    case Upload(id) => id in s.queued
  }

  ghost function Do(s: Sys, size: nat, step: Step): Sys
    requires Enabled(s, size, step)
  {
    match step
    case Ask(key) => s.(tasks := s.tasks + multiset{Asked(key, |s.remote[key.0]|)})
    case Fetch(t) =>
      var data := Reply(s.remote[t.key.0], t.key.1, t.total, size);
      s.(tasks := s.tasks - multiset{t} + multiset{Holding(t.key, data)})
    case Hit(t, value) => s.(tasks := s.tasks - multiset{t} + multiset{Holding(t.key, value)})
    case Store(t) => s.(tasks := s.tasks - multiset{t}, cached := s.cached + {(t.key, t.value)})
    case Quit(t) => s.(tasks := s.tasks - multiset{t})
    case Evict(gone) => s.(cached := s.cached - gone)
    case Publish(id, data) =>
      s.(queued := s.queued[id := data], cached := set c | c in s.cached && c.0.0 != id)
    case Upload(id) => s.(remote := s.remote[id := s.queued[id]], queued := s.queued - {id})
  }

  /** Every cached chunk of a file that is not queued is its remote chunk. */
  ghost predicate Coherent(s: Sys, size: nat) {
    forall c :: c in s.cached && c.0.0 !in s.queued ==>
      c.0.0 in s.remote && c.1 == ChunkOf(s.remote[c.0.0], c.0.1, size)
  }

  // ---- tasks that do no harm ----

  /** Whatever the task still fetches, before or after the upload, is the chunk of the content. */
  ghost predicate Fits(t: Task, remote: Bytes, content: Bytes, size: nat) {
    match t
    case Asked(key, total) =>
      InRange(t, size) ==>
        Reply(remote, key.1, total, size) == ChunkOf(content, key.1, size) == Reply(content, key.1, total, size)
    case Holding(key, value) => value == ChunkOf(content, key.1, size)
  }

  function Content(s: Sys, id: FileId): Bytes
    requires id in s.remote
  {
    if id in s.queued then s.queued[id] else s.remote[id]
  }

  ghost predicate Good(s: Sys, size: nat) {
    && s.queued.Keys <= s.remote.Keys
    && (forall c :: c in s.cached ==> GoodChunk(s, size, c))
    && (forall t :: t in s.tasks ==> GoodTask(s, size, t))
  }

  ghost predicate GoodChunk(s: Sys, size: nat, c: (CacheKey, Bytes)) {
    c.0.0 in s.remote && c.1 == ChunkOf(Content(s, c.0.0), c.0.1, size)
  }

  ghost predicate GoodTask(s: Sys, size: nat, t: Task) {
    t.key.0 in s.remote && Fits(t, s.remote[t.key.0], Content(s, t.key.0), size)
  }

  /** The published content leaves the task behind. */
  ghost predicate LeavesBehind(s: Sys, size: nat, step: Step, t: Task)
    requires step.Publish? && Enabled(s, size, step)
  {
    t in s.tasks && t.key.0 == step.id && !Fits(t, s.remote[step.id], step.data, size)
  }

  ghost predicate Overtakes(s: Sys, size: nat, step: Step)
    requires Enabled(s, size, step)
  {
    step.Publish? && exists t :: LeavesBehind(s, size, step, t)
  }

  lemma GoodIsCoherent(s: Sys, size: nat)
    requires Good(s, size)
    ensures Coherent(s, size)
  {
    hide ChunkOf;
  }

  lemma WholeChunk(content: Bytes, index: nat, size: nat)
    requires index * size < |content|
    ensures Reply(content, index, |content|, size) == ChunkOf(content, index, size)
  {}

  lemma OldTask(s: Sys, size: nat, step: Step, t: Task)
    requires Enabled(s, size, step) && GoodTask(s, size, t) && (step.Publish? ==> !LeavesBehind(s, size, step, t))
    requires t in s.tasks
    ensures GoodTask(Do(s, size, step), size, t)
  {
    hide ChunkOf, Reply;
  }

  lemma NewTask(s: Sys, size: nat, step: Step, t: Task)
    requires Good(s, size) && Enabled(s, size, step) && t in Do(s, size, step).tasks && t !in s.tasks
    ensures GoodTask(Do(s, size, step), size, t)
  {
    hide ChunkOf, Reply;
    if step.Ask? && step.key.1 * size < |s.remote[step.key.0]| {
      WholeChunk(s.remote[step.key.0], step.key.1, size);
    }
    if step.Fetch? || step.Hit? {
      assert GoodTask(s, size, step.t);
    }
  }

  lemma AnyChunk(s: Sys, size: nat, step: Step, c: (CacheKey, Bytes))
    requires Good(s, size) && Enabled(s, size, step) && c in Do(s, size, step).cached
    ensures GoodChunk(Do(s, size, step), size, c)
  {
    hide ChunkOf, Reply;
    if c in s.cached {
      assert GoodChunk(s, size, c);
    } else {
      assert GoodTask(s, size, step.t);
    }
  }

  lemma StepGood(s: Sys, size: nat, step: Step)
    requires Good(s, size) && Enabled(s, size, step) && !Overtakes(s, size, step)
    ensures Good(Do(s, size, step), size)
  {
    hide GoodTask, GoodChunk, LeavesBehind;
    var s' := Do(s, size, step);
    forall c | c in s'.cached ensures GoodChunk(s', size, c) {
      AnyChunk(s, size, step, c);
    }
    forall t | t in s'.tasks ensures GoodTask(s', size, t) {
      if t in s.tasks {
        OldTask(s, size, step, t);
      } else {
        NewTask(s, size, step, t);
      }
    }
  }

  // ---- runs ----

  /** The steps can be taken one after the other, and no publication overtakes a task. */
  ghost predicate Careful(s: Sys, size: nat, steps: seq<Step>)
    decreases |steps|
  {
    steps == [] ||
    (Enabled(s, size, steps[0]) && !Overtakes(s, size, steps[0]) && Careful(Do(s, size, steps[0]), size, steps[1..]))
  }

  ghost function End(s: Sys, size: nat, steps: seq<Step>): Sys
    requires Careful(s, size, steps)
    decreases |steps|
  {
    if steps == [] then s else End(Do(s, size, steps[0]), size, steps[1..])
  }

  lemma {:induction false} CarefulGood(s: Sys, size: nat, steps: seq<Step>)
    requires Good(s, size) && Careful(s, size, steps)
    ensures Good(End(s, size, steps), size)
    decreases |steps|
  {
    hide Good, Do, Enabled, Overtakes;
    if steps != [] {
      StepGood(s, size, steps[0]);
      CarefulGood(Do(s, size, steps[0]), size, steps[1..]);
    }
  }

  /** Cached chunks stay equal to remote chunks over every run in which no publication
      overtakes a task. */
  lemma CarefulCoherent(s: Sys, size: nat, steps: seq<Step>)
    requires Good(s, size) && Careful(s, size, steps)
    ensures Coherent(End(s, size, steps), size)
  {
    CarefulGood(s, size, steps);
    GoodIsCoherent(End(s, size, steps), size);
  }

  lemma Then(s: Sys, size: nat, step: Step, rest: seq<Step>)
    requires Enabled(s, size, step) && !step.Publish? && Careful(Do(s, size, step), size, rest)
    ensures Careful(s, size, [step] + rest) && End(s, size, [step] + rest) == End(Do(s, size, step), size, rest)
  {
    assert ([step] + rest)[1..] == rest;
  }

  /** A task left behind makes a chunk stale: it stores before the upload, or fetches after. */
  lemma BehindGoesStale(s: Sys, size: nat, step: Step, t: Task) returns (rest: seq<Step>)
    requires Good(s, size) && Enabled(s, size, step) && step.Publish? && LeavesBehind(s, size, step, t)
    ensures Careful(Do(s, size, step), size, rest) && !Coherent(End(Do(s, size, step), size, rest), size)
  {
    hide ChunkOf, Reply, Careful, End;
    var s1, id := Do(s, size, step), step.id;
    if t.Holding? {
      rest := StoreThenUpload(s1, size, t);
    } else if Reply(s.remote[id], t.key.1, t.total, size) != ChunkOf(step.data, t.key.1, size) {
      var held := Holding(t.key, Reply(s.remote[id], t.key.1, t.total, size));
      var more := StoreThenUpload(Do(s1, size, Fetch(t)), size, held);
      Then(s1, size, Fetch(t), more);
      rest := [Fetch(t)] + more;
    } else {
      var held := Holding(t.key, Reply(step.data, t.key.1, t.total, size));
      var s2 := Do(s1, size, Upload(id));
      var s3 := Do(s2, size, Fetch(t));
      Last(s3, size, Store(held));
      Then(s2, size, Fetch(t), [Store(held)]);
      Then(s1, size, Upload(id), [Fetch(t)] + [Store(held)]);
      assert (held.key, held.value) in Do(s3, size, Store(held)).cached;
      rest := [Upload(id)] + ([Fetch(t)] + [Store(held)]);
    }
  }

  lemma Last(s: Sys, size: nat, step: Step)
    requires Enabled(s, size, step) && !step.Publish?
    ensures Careful(s, size, [step]) && End(s, size, [step]) == Do(s, size, step)
  {
    assert [step][1..] == [];
  }

  lemma StoreThenUpload(s: Sys, size: nat, t: Task) returns (rest: seq<Step>)
    requires t in s.tasks && t.Holding? && t.key.0 in s.queued
    requires t.value != ChunkOf(s.queued[t.key.0], t.key.1, size)
    ensures rest == [Store(t)] + [Upload(t.key.0)]
    ensures Careful(s, size, rest) && !Coherent(End(s, size, rest), size)
  {
    hide ChunkOf, Careful, End;
    var s1 := Do(s, size, Store(t));
    var s2 := Do(s1, size, Upload(t.key.0));
    Last(s1, size, Upload(t.key.0));
    Then(s, size, Store(t), [Upload(t.key.0)]);
    assert (t.key, t.value) in s2.cached;
    rest := [Store(t)] + [Upload(t.key.0)];
  }

  /** A publication may be followed by a stale chunk, with no later publication overtaking a
      task, if and only if it overtakes one itself. */
  lemma StaleIffOvertaking(s: Sys, size: nat, step: Step)
    requires Good(s, size) && Enabled(s, size, step) && step.Publish?
    ensures Overtakes(s, size, step) <==>
      exists rest :: Careful(Do(s, size, step), size, rest) && !Coherent(End(Do(s, size, step), size, rest), size)
  {
    hide Good, Do, Enabled, Careful, Coherent, End, LeavesBehind;
    if Overtakes(s, size, step) {
      var t :| LeavesBehind(s, size, step, t);
      var rest := BehindGoesStale(s, size, step, t);
    } else {
      StepGood(s, size, step);
      forall rest | Careful(Do(s, size, step), size, rest)
        ensures Coherent(End(Do(s, size, step), size, rest), size)
      {
        CarefulCoherent(Do(s, size, step), size, rest);
      }
    }
  }

  /** With nothing cached, queued or under way, one download and one publication suffice
      whenever the first chunk of the new content differs from that of the old one. */
  lemma StaleRun(s: Sys, size: nat, id: FileId, data: Bytes) returns (rest: seq<Step>)
    requires s.queued == map[] && s.cached == {} && s.tasks == multiset{} && id in s.remote && s.remote[id] != []
    requires ChunkOf(data, 0, size) != ChunkOf(s.remote[id], 0, size)
    ensures Enabled(s, size, Ask((id, 0))) && Enabled(Do(s, size, Ask((id, 0))), size, Publish(id, data))
    ensures var s2 := Do(Do(s, size, Ask((id, 0))), size, Publish(id, data));
      Careful(s2, size, rest) && !Coherent(End(s2, size, rest), size)
  {
    hide ChunkOf, Reply, Careful, End, Coherent;
    var t := Asked((id, 0), |s.remote[id]|);
    var s1 := Do(s, size, Ask((id, 0)));
    WholeChunk(s.remote[id], 0, size);
    assert t in s1.tasks && InRange(t, size) && LeavesBehind(s1, size, Publish(id, data), t);
    rest := BehindGoesStale(s1, size, Publish(id, data), t);
  }
}
