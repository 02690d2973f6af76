/** Chunk downloads on top of the lock table: each task rechecks memory and disk inside the
    chunk's exclusive lock and writes the disk before it leaves, so every chunk is fetched
    from storage at most once, whatever else runs and whatever memory evicts. */
module SingleDownload {
  import opened RWLocks
  import opened LockTables
  import opened LockSystem
  import opened LockTheorems
  import opened DeadlockFreedom
  import opened Names

  type Chunk = (string, nat)

  /** Locking and Leaving cover the steps of the lock call around the body. */
  datatype Stage = Locking | CheckMem | CheckDisk | PutRead | Fetch | PutFetched | WriteDisk | Leaving

  datatype Task = Task(chunk: Chunk, stage: Stage)

  /** `fetched` counts the successful storage calls of each chunk. */
  datatype Sys = Sys(lt: State, tasks: map<Tid, Task>, mem: set<Chunk>, disk: set<Chunk>, fetched: multiset<Chunk>)

  function ChunkKey(c: Chunk): Key {
    "chunk:" + c.0 + ":" + Digits(c.1)
  }

  // ---- steps ----

  ghost predicate Start(s: Sys, t: Tid, c: Chunk, id: LockId, s': Sys) {
    && t !in s.tasks && Idle(s.lt, t) && id !in s.lt.heap
    && s' == s.(lt := Begin(s.lt, t, ChunkKey(c), Exclusive, id), tasks := s.tasks[t := Task(c, Locking)])
  }

  /** A step of the lock call itself; a refused or finished call ends its download. */
  ghost predicate LockStep(s: Sys, t: Tid, s': Sys) {
    && t in s.tasks && CanRun(s.lt, t)
    && var pc := Was(s.lt, t).pc;
    && (s.tasks[t].stage == Locking || s.tasks[t].stage == Leaving)
    && s' == s.(lt := Run(s.lt, t),
                tasks := if pc == Raised || pc == Unwaited then s.tasks - {t}
                         else if pc == Counted then s.tasks[t := s.tasks[t].(stage := CheckMem)]
                         else s.tasks)
  }

  /** A step of the body: double check, download, fill both caches. */
  ghost predicate BodyStep(s: Sys, t: Tid, s': Sys) {
    && t in s.tasks
    && var c := s.tasks[t].chunk;
    match s.tasks[t].stage
    case CheckMem => s' == To(s, t, if c in s.mem then Leaving else CheckDisk)
    case CheckDisk => s' == To(s, t, if c in s.disk then PutRead else Fetch)
    case PutRead => s' == To(s, t, Leaving).(mem := s.mem + {c})
    case Fetch => s' == To(s, t, Leaving)
               || s' == To(s, t, PutFetched).(fetched := s.fetched + multiset{c})
    case PutFetched => s' == To(s, t, WriteDisk).(mem := s.mem + {c})
    case WriteDisk => s' == To(s, t, Leaving).(disk := s.disk + {c})
    case _ => false
  }

  function To(s: Sys, t: Tid, stage: Stage): Sys
    requires t in s.tasks
  {
    s.(tasks := s.tasks[t := s.tasks[t].(stage := stage)])
  }

  /** Anything else: lock calls of other threads, in any mode on any key, and memory
      entries that come and go (readers, prefetches, evictions). */
  ghost predicate Others(s: Sys, s': Sys) {
    && s' == s.(lt := s'.lt, mem := s'.mem)
    && (s'.lt == s.lt || exists t: Tid :: t !in s.tasks && StepOf(s.lt, t, s'.lt))
  }

  ghost predicate StepOf(lt: State, t: Tid, lt': State) {
    RunStep(lt, t, lt') || exists key: Key, mode: Mode, id: LockId :: BeginStep(lt, t, key, mode, id, lt')
  }

  ghost predicate SysNext(s: Sys, s': Sys) {
    || (exists t: Tid, c: Chunk, id: LockId :: Start(s, t, c, id, s'))
    || (exists t: Tid :: LockStep(s, t, s'))
    || (exists t: Tid :: BodyStep(s, t, s'))
    || Others(s, s')
  }

  /** Any disk content to begin with. */
  ghost predicate SysInit(s: Sys) {
    s.lt == INIT && s.tasks == map[] && s.fetched == multiset{}
  }

  ghost predicate IsSysRun(ss: seq<Sys>) {
    && |ss| > 0 && SysInit(ss[0])
    && forall i {:trigger ss[i]} :: 0 <= i < |ss| - 1 ==> SysNext(ss[i], ss[i + 1])
  }

  // ---- invariant ----

  predicate InBodyStage(stage: Stage) {
    stage != Locking && stage != Leaving
  }

  /** A task's lock call is the innermost call of its thread and stands where its stage says. */
  ghost predicate TaskOk(lt: State, t: Tid, task: Task) {
    && Depth(lt, t) > 0 && Top(lt, t) in lt.calls
    && var c := lt.calls[Top(lt, t)];
    && c.key == ChunkKey(task.chunk) && c.mode == Exclusive
    && match task.stage
       case Locking => c.pc in {GotRef, Raised, Registered, Blocked, Acquired, Counted}
       case Leaving => c.pc in {InBody, Derecorded, Uncounted, Released, Unwaited}
       case _ => c.pc == InBody
  }

  ghost predicate Storing(s: Sys, t: Tid, c: Chunk) {
    t in s.tasks && s.tasks[t].chunk == c && (s.tasks[t].stage == PutFetched || s.tasks[t].stage == WriteDisk)
  }

  ghost predicate FetchOk(s: Sys, c: Chunk) {
    && s.fetched[c] <= 1
    && (s.fetched[c] == 1 ==> c in s.disk || exists t: Tid :: Storing(s, t, c))
  }

  ghost predicate SysInv(s: Sys) {
    && Inv(s.lt)
    && (forall t :: t in s.tasks ==> TaskOk(s.lt, t, s.tasks[t]))
    && (forall t :: t in s.tasks && s.tasks[t].stage == Fetch ==> s.tasks[t].chunk !in s.disk)
    && (forall c :: FetchOk(s, c))
  }

  /** The mutual exclusion of the lock table: one task at a time in a chunk's body. */
  lemma OneInBody(s: Sys, t: Tid, u: Tid)
    requires SysInv(s) && t in s.tasks && u in s.tasks && s.tasks[t].chunk == s.tasks[u].chunk
    requires InBodyStage(s.tasks[t].stage) && InBodyStage(s.tasks[u].stage)
    ensures t == u
  {
    hide Inv, ChunkKey;
    assert TaskOk(s.lt, t, s.tasks[t]) && TaskOk(s.lt, u, s.tasks[u]);
    Exclusion(s.lt, Top(s.lt, t), Top(s.lt, u));
  }

  lemma OthersTaskOk(lt: State, t: Tid, lt': State, u: Tid, task: Task)
    requires u != t && TaskOk(lt, u, task) && ThreadSame(lt, lt', u)
    ensures TaskOk(lt', u, task)
  {}

  lemma TasksKept(s: Sys, t: Tid, s': Sys)
    requires (forall u :: u in s.tasks ==> TaskOk(s.lt, u, s.tasks[u])) && OthersSame(s.lt, t, s'.lt)
    requires forall u :: u != t && u in s'.tasks ==> u in s.tasks && s'.tasks[u] == s.tasks[u]
    requires t in s'.tasks ==> TaskOk(s'.lt, t, s'.tasks[t])
    ensures forall u :: u in s'.tasks ==> TaskOk(s'.lt, u, s'.tasks[u])
  {
    hide TaskOk, ThreadSame;
    forall u | u in s'.tasks ensures TaskOk(s'.lt, u, s'.tasks[u]) {
      if u != t {
        OthersTaskOk(s.lt, t, s'.lt, u, s.tasks[u]);
      }
    }
  }

  lemma StartKeeps(s: Sys, t: Tid, c: Chunk, id: LockId, s': Sys)
    requires SysInv(s) && Start(s, t, c, id, s')
    ensures SysInv(s')
  {
    hide Inv, ChunkKey;
    BeginKeeps(s.lt, t, ChunkKey(c), Exclusive, id);
    BeginOthersSame(s.lt, t, ChunkKey(c), Exclusive, id);
    TasksKept(s, t, s');
    SameFetches(s, s');
  }

  lemma BeginOthersSame(lt: State, t: Tid, key: Key, mode: Mode, id: LockId)
    ensures OthersSame(lt, t, Begin(lt, t, key, mode, id))
  {}

  /** Steps that neither fetch nor finish a fetch. */
  lemma SameFetches(s: Sys, s': Sys)
    requires (forall c :: FetchOk(s, c)) && s'.fetched == s.fetched && s.disk <= s'.disk
    requires forall t: Tid, c: Chunk :: Storing(s, t, c) ==> Storing(s', t, c) || c in s'.disk
    ensures forall c :: FetchOk(s', c)
  {
    forall c ensures FetchOk(s', c) {
      assert FetchOk(s, c);
    }
  }

  lemma LockStepTask(s: Sys, t: Tid, s': Sys)
    requires Nested(s.lt) && LockStep(s, t, s') && TaskOk(s.lt, t, s.tasks[t])
    ensures t in s'.tasks ==> TaskOk(s'.lt, t, s'.tasks[t])
    ensures t in s'.tasks && s'.tasks[t].stage != s.tasks[t].stage ==> s'.tasks[t].stage == CheckMem
  {
    hide ChunkKey, Raises;
  }

  lemma LockStepKeeps(s: Sys, t: Tid, s': Sys)
    requires SysInv(s) && LockStep(s, t, s')
    ensures SysInv(s')
  {
    hide ChunkKey, TaskOk, FetchOk, RefsExact, LocksExact, AllocExact, WaitExact, HeapOk, Num;
    RunKeeps(s.lt, t);
    RunOthersSame(s.lt, t);
    LockStepTask(s, t, s');
    TasksKept(s, t, s');
    SameFetches(s, s');
  }

  lemma BodyStepTasks(s: Sys, t: Tid, s': Sys)
    requires (forall u :: u in s.tasks ==> TaskOk(s.lt, u, s.tasks[u])) && BodyStep(s, t, s')
    ensures forall u :: u in s'.tasks ==> TaskOk(s'.lt, u, s'.tasks[u])
  {
    hide ChunkKey;
    assert OthersSame(s.lt, t, s'.lt);
    TasksKept(s, t, s');
  }

  lemma BodyStepKeeps(s: Sys, t: Tid, s': Sys)
    requires SysInv(s) && BodyStep(s, t, s')
    ensures SysInv(s')
  {
    hide ChunkKey, Inv, FetchOk, TaskOk;
    BodyStepTasks(s, t, s');
    var c := s.tasks[t].chunk;
    forall u | u in s'.tasks && s'.tasks[u].stage == Fetch ensures s'.tasks[u].chunk !in s'.disk {
      if u != t && s.tasks[u].chunk == c {
        OneInBody(s, t, u);
      }
    }
    if s.tasks[t].stage == Fetch && s'.fetched != s.fetched {
      FetchOnce(s, t, s');
    } else {
      SameFetches(s, s');
    }
  }

  lemma FetchOnce(s: Sys, t: Tid, s': Sys)
    requires SysInv(s) && t in s.tasks && s.tasks[t].stage == Fetch
    requires s' == To(s, t, PutFetched).(fetched := s.fetched + multiset{s.tasks[t].chunk})
    ensures forall c :: FetchOk(s', c)
  {
    hide ChunkKey, Inv, TaskOk;
    forall c ensures FetchOk(s', c) {
      assert FetchOk(s, c);
      if c == s.tasks[t].chunk {
        forall u: Tid ensures !Storing(s, u, c) {
          if Storing(s, u, c) {
            OneInBody(s, t, u);
          }
        }
        assert Storing(s', t, c);
      } else if u: Tid :| Storing(s, u, c) {
        assert Storing(s', u, c);
      }
    }
  }

  lemma OthersKeep(s: Sys, s': Sys)
    requires SysInv(s) && Others(s, s')
    ensures SysInv(s')
  {
    hide ChunkKey, Inv, TaskOk, FetchOk;
    if s'.lt != s.lt {
      var t: Tid :| t !in s.tasks && StepOf(s.lt, t, s'.lt);
      if RunStep(s.lt, t, s'.lt) {
        RunKeeps(s.lt, t);
        RunOthersSame(s.lt, t);
      } else {
        var key: Key, mode, id :| BeginStep(s.lt, t, key, mode, id, s'.lt);
        BeginKeeps(s.lt, t, key, mode, id);
        BeginOthersSame(s.lt, t, key, mode, id);
      }
      TasksKept(s, t, s');
    }
    SameFetches(s, s');
  }

  lemma SysNextKeeps(s: Sys, s': Sys)
    requires SysInv(s) && SysNext(s, s')
    ensures SysInv(s')
  {
    hide SysInv, Start, LockStep, BodyStep, Others;
    if t: Tid, c: Chunk, id: LockId :| Start(s, t, c, id, s') {
      StartKeeps(s, t, c, id, s');
    } else if t: Tid :| LockStep(s, t, s') {
      LockStepKeeps(s, t, s');
    } else if t: Tid :| BodyStep(s, t, s') {
      BodyStepKeeps(s, t, s');
    } else {
      OthersKeep(s, s');
    }
  }

  lemma SysInitInv(s: Sys)
    requires SysInit(s)
    ensures SysInv(s)
  {
    hide Inv;
    InitInv();
  }

  lemma {:induction false} SysRunInv(ss: seq<Sys>)
    requires IsSysRun(ss)
    ensures SysInv(ss[|ss| - 1])
  {
    hide SysInv, SysInit, SysNext;
    if |ss| == 1 {
      SysInitInv(ss[0]);
    } else {
      var prefix := ss[..|ss| - 1];
      assert IsSysRun(prefix);
      SysRunInv(prefix);
      assert SysNext(ss[|ss| - 2], ss[|ss| - 2 + 1]);
      SysNextKeeps(ss[|ss| - 2], ss[|ss| - 1]);
    }
  }

  /** Single download: in every interleaving each chunk has at most one successful storage
      call, and a fetched chunk is on disk unless its task is about to write it. */
  lemma AtMostOneDownload(ss: seq<Sys>, s: Sys, c: Chunk)
    requires IsSysRun(ss) && s == ss[|ss| - 1]
    ensures s.fetched[c] <= 1
    ensures s.fetched[c] == 1 ==> c in s.disk || exists t: Tid :: Storing(s, t, c)
  {
    hide Inv, TaskOk, IsSysRun;
    SysRunInv(ss);
    assert FetchOk(s, c);
  }

  // ---- what a task achieves ----

  /** A task enters its body only from the lock, and leaves it with its chunk in a layer
      unless storage failed it: found there, or put there by itself. */
  lemma BodyAchieves(s: Sys, t: Tid, s': Sys)
    requires BodyStep(s, t, s')
    ensures var c := s.tasks[t].chunk;
      && t in s'.tasks && s'.tasks[t].chunk == c && InBodyStage(s.tasks[t].stage)
      && (s'.tasks[t].stage == Leaving ==>
            c in s'.mem + s'.disk || (s.tasks[t].stage == Fetch && s'.fetched == s.fetched))
      && (s.tasks[t].stage == PutRead || s.tasks[t].stage == PutFetched ==> c in s'.mem)
      && (s'.tasks[t].stage == PutRead ==> c in s.disk) && (s'.tasks[t].stage == Fetch ==> c !in s.disk)
      && (s.tasks[t].stage == Fetch && s'.tasks[t].stage != Leaving ==> s'.fetched == s.fetched + multiset{c})
  {}

  /** What one step of the whole system may do to one task. */
  lemma TaskMoves(s: Sys, s': Sys, t: Tid)
    requires SysNext(s, s') && t in s'.tasks
    ensures t !in s.tasks ==> s'.tasks[t].stage == Locking
    ensures t in s.tasks ==> s'.tasks[t].chunk == s.tasks[t].chunk
    ensures t in s.tasks && s.tasks[t].stage != Leaving && s'.tasks[t].stage == Leaving ==> BodyStep(s, t, s')
  {
    hide Start, LockStep, BodyStep, Others;
    if u: Tid, c: Chunk, id: LockId :| Start(s, u, c, id, s') {
      StartMoves(s, u, c, id, s');
    } else if u: Tid :| LockStep(s, u, s') {
      LockMoves(s, u, s', t);
    } else if u: Tid :| BodyStep(s, u, s') {
      BodyMoves(s, u, s', t);
    } else {
      OthersMove(s, s');
    }
  }

  lemma StartMoves(s: Sys, u: Tid, c: Chunk, id: LockId, s': Sys)
    requires Start(s, u, c, id, s')
    ensures u !in s.tasks && s'.tasks == s.tasks[u := Task(c, Locking)]
  {
    hide Begin, Idle, ChunkKey;
  }

  lemma LockMoves(s: Sys, u: Tid, s': Sys, t: Tid)
    requires LockStep(s, u, s') && t in s'.tasks
    ensures t in s.tasks && s'.tasks[t].chunk == s.tasks[t].chunk
    ensures s.tasks[t].stage != Leaving ==> s'.tasks[t].stage != Leaving
  {
    hide Run, CanRun;
  }

  lemma BodyMoves(s: Sys, u: Tid, s': Sys, t: Tid)
    requires BodyStep(s, u, s') && t in s'.tasks
    ensures t in s.tasks && s'.tasks[t].chunk == s.tasks[t].chunk && (u != t ==> s'.tasks[t] == s.tasks[t])
  {}

  lemma OthersMove(s: Sys, s': Sys)
    requires Others(s, s')
    ensures s'.tasks == s.tasks
  {}

  /** How a task that is leaving got there: at some step of the run its body ended with its
      chunk in a layer, or with a storage call that failed. */
  lemma {:induction false} LeavesWithChunk(ss: seq<Sys>, i: nat, t: Tid) returns (j: nat)
    requires IsSysRun(ss) && i < |ss| && t in ss[i].tasks && ss[i].tasks[t].stage == Leaving
    ensures j < i && t in ss[j].tasks && InBodyStage(ss[j].tasks[t].stage)
    ensures t in ss[j + 1].tasks && ss[j + 1].tasks[t] == ss[i].tasks[t]
    ensures ss[i].tasks[t].chunk in ss[j + 1].mem + ss[j + 1].disk
      || (ss[j].tasks[t].stage == Fetch && ss[j + 1].fetched == ss[j].fetched)
    decreases i
  {
    hide SysNext, BodyStep;
    assert i > 0;
    assert SysNext(ss[i - 1], ss[i - 1 + 1]);
    TaskMoves(ss[i - 1], ss[i], t);
    if ss[i - 1].tasks[t].stage == Leaving {
      j := LeavesWithChunk(ss, i - 1, t);
    } else {
      BodyAchieves(ss[i - 1], t, ss[i]);
      j := i - 1;
    }
  }

  /** A task ends only when the lock refused it or after its body. */
  lemma TaskEnds(s: Sys, s': Sys, t: Tid)
    requires SysNext(s, s') && SysInv(s) && t in s.tasks && t !in s'.tasks
    ensures CanRun(s.lt, t)
    ensures s.tasks[t].stage == Leaving || (s.tasks[t].stage == Locking && Was(s.lt, t).pc == Raised)
  {
    hide Begin, Run, Idle, Inv, FetchOk, ChunkKey;
    assert TaskOk(s.lt, t, s.tasks[t]);
  }

  /** So a task that has ended was refused by the lock, was failed by storage, or had its chunk
      in a layer when its body ended. */
  lemma EndedWithChunk(ss: seq<Sys>, i: nat, t: Tid) returns (j: nat)
    requires IsSysRun(ss) && i + 1 < |ss| && t in ss[i].tasks && t !in ss[i + 1].tasks
    ensures j <= i && CanRun(ss[i].lt, t)
    ensures Was(ss[i].lt, t).pc == Raised
      || (t in ss[j].tasks && ss[j].tasks[t].chunk == ss[i].tasks[t].chunk && InBodyStage(ss[j].tasks[t].stage)
          && (ss[i].tasks[t].chunk in ss[j + 1].mem + ss[j + 1].disk
              || (ss[j].tasks[t].stage == Fetch && ss[j + 1].fetched == ss[j].fetched)))
  {
    hide SysNext, SysInv, BodyStep;
    PrefixRun(ss, i);
    SysRunInv(ss[..i + 1]);
    assert SysNext(ss[i], ss[i + 1]);
    TaskEnds(ss[i], ss[i + 1], t);
    j := 0;
    if ss[i].tasks[t].stage == Leaving {
      j := LeavesWithChunk(ss, i, t);
      assert SysNext(ss[j], ss[j + 1]);
      TaskMoves(ss[j], ss[j + 1], t);
    }
  }

  lemma PrefixRun(ss: seq<Sys>, i: nat)
    requires IsSysRun(ss) && i < |ss|
    ensures IsSysRun(ss[..i + 1])
  {
    hide SysNext, SysInit;
    var prefix := ss[..i + 1];
    forall k {:trigger prefix[k]} | 0 <= k < |prefix| - 1 ensures SysNext(prefix[k], prefix[k + 1]) {
      assert SysNext(ss[k], ss[k + 1]);
    }
  }

  lemma StoredStep(s: Sys, s': Sys, c: Chunk)
    requires SysInv(s) && SysNext(s, s') && c in s.disk
    ensures c in s'.disk && s'.fetched[c] == s.fetched[c]
  {
    hide Begin, Run, CanRun, Idle, Inv, TaskOk, ChunkKey;
  }

  /** A chunk that was on disk to begin with is never fetched. */
  lemma {:induction false} StoredNeverFetched(ss: seq<Sys>, c: Chunk)
    requires IsSysRun(ss) && c in ss[0].disk
    ensures c in ss[|ss| - 1].disk && ss[|ss| - 1].fetched[c] == 0
    decreases |ss|
  {
    if |ss| > 1 {
      hide SysNext, SysInv, SysInit;
      var n := |ss| - 2;
      PrefixRun(ss, n);
      SysRunInv(ss[..n + 1]);
      StoredNeverFetched(ss[..n + 1], c);
      assert SysNext(ss[n], ss[n + 1]);
      StoredStep(ss[n], ss[n + 1], c);
    }
  }
}
