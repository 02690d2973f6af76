/** The upload queue: what its critical sections do, and, over every interleaving of
    enqueues, workers, retry timers and restarts, that its files and its saved copy stay
    consistent and no pending upload is left without a trigger. */
module UploadQueues {
  import opened FileContents
  import opened Names

  type Path = string

  datatype Status = Pending | Failed

  datatype Job = Job(
    path: Path, retries: nat, status: Status, isNew: bool, parent: Option<FileId>, name: Option<Bytes>)

  /** `files` is the local disk, `saved` the queue as persisted, `size` the queue metric. */
  datatype Queue = Queue(files: map<Path, Bytes>, jobs: map<FileId, Job>, saved: map<FileId, Job>, size: int)

  ghost function Active(jobs: map<FileId, Job>): int {
    |set id | id in jobs && jobs[id].status != Failed|
  }

  /** Where the content of an upload waits: uploads/id_seconds.tmp. */
  function SafePath(dir: string, id: FileId, seconds: nat): Path {
    Join(dir, id + "_" + Digits(seconds) + ".tmp")
  }

  /** Drive ids and the ids made locally do not start with a slash. */
  predicate ValidId(id: FileId) {
    id == "" || id[0] != '/'
  }

  ghost predicate PathOf(dir: string, id: FileId, path: Path) {
    ValidId(id) && exists n: nat :: path == SafePath(dir, id, n)
  }

  /** The naming is injective, underscores in ids or not. */
  lemma SafePathInjective(dir: string, a: FileId, m: nat, b: FileId, n: nat)
    requires ValidId(a) && ValidId(b) && SafePath(dir, a, m) == SafePath(dir, b, n)
    ensures a == b && m == n
  {
    var x, y := a + "_" + Digits(m), b + "_" + Digits(n);
    JoinInjective(dir, x + ".tmp", y + ".tmp");
    assert x == (x + ".tmp")[..|x + ".tmp"| - 4] && y == (y + ".tmp")[..|y + ".tmp"| - 4];
    DigitsPlain(m);
    DigitsPlain(n);
    LastUnderscore(a, Digits(m), b, Digits(n));
    DigitsInjective(m, n);
  }

  lemma JoinInjective(dir: string, x: string, y: string)
    requires x != "" && y != "" && x[0] != '/' && y[0] != '/' && Join(dir, x) == Join(dir, y)
    ensures x == y
  {
    var pre := if dir == "" || dir[|dir| - 1] == '/' then dir else dir + "/";
    assert Join(dir, x) == pre + x && Join(dir, y) == pre + y;
    assert x == (pre + x)[|pre|..] && y == (pre + y)[|pre|..];
  }

  lemma OnePathOneId(dir: string, a: FileId, b: FileId, path: Path)
    requires PathOf(dir, a, path) && PathOf(dir, b, path)
    ensures a == b
  {
    var m: nat :| path == SafePath(dir, a, m);
    var n: nat :| path == SafePath(dir, b, n);
    SafePathInjective(dir, a, m, b, n);
  }

  // ---- critical sections ----

  ghost function Persist(q: Queue): Queue {
    q.(saved := q.jobs, size := Active(q.jobs))
  }

  /** Moves the file in, replacing a queued job of the same id but keeping its retries. */
  ghost function Enqueue(q: Queue, dir: string, id: FileId, temp: Path, isNew: bool,
                         parent: Option<FileId>, name: Option<Bytes>, now: nat): Queue
    requires temp in q.files
  {
    var safe := SafePath(dir, id, now);
    var kept := if id in q.jobs then q.files - {q.jobs[id].path} else q.files;
    var job := Job(safe, if id in q.jobs then q.jobs[id].retries else 0, Pending, isNew, parent, name);
    Persist(q.(files := (kept - {temp})[safe := q.files[temp]], jobs := q.jobs[id := job]))
  }

  ghost function RemoveJob(q: Queue, id: FileId, local: Option<Path>): Queue {
    Persist(q.(files := if local.Some? then q.files - {local.value} else q.files, jobs := q.jobs - {id}))
  }

  /** The job after one more failure. */
  function Worse(job: Job, fatal: bool, maxRetries: int): Job {
    var retries := job.retries + 1;
    job.(retries := retries, status := if retries > maxRetries || fatal then Failed else job.status)
  }

  ghost function HandleFailure(q: Queue, id: FileId, fatal: bool, maxRetries: int): Queue {
    if id in q.jobs then Persist(q.(jobs := q.jobs[id := Worse(q.jobs[id], fatal, maxRetries)])) else q
  }

  /** A timer is armed unless the job is gone or given up. */
  predicate Retries(q: Queue, id: FileId, fatal: bool, maxRetries: int) {
    id in q.jobs && !(q.jobs[id].retries + 1 > maxRetries || fatal)
  }

  function Backoff(retries: nat): nat {
    if retries == 0 then 1 else 2 * Backoff(retries - 1)
  }

  // ---- consistency of the queue ----

  /** Each queued job's file exists under the job's own name, and the saved queue and the
      size metric are up to date. */
  ghost predicate Consistent(q: Queue, dir: string) {
    && (forall id :: id in q.jobs ==> q.jobs[id].path in q.files && PathOf(dir, id, q.jobs[id].path))
    && q.saved == q.jobs && q.size == Active(q.jobs)
  }

  /** Each queued path is the name of its own job; the file may be missing. */
  ghost predicate Owned(q: Queue, dir: string) {
    forall id :: id in q.jobs ==> PathOf(dir, id, q.jobs[id].path)
  }

  ghost predicate IsUploadPath(dir: string, path: Path) {
    exists id: FileId :: PathOf(dir, id, path)
  }

  lemma DistinctPaths(q: Queue, dir: string, a: FileId, b: FileId)
    requires Owned(q, dir) && a in q.jobs && b in q.jobs && q.jobs[a].path == q.jobs[b].path
    ensures a == b
  {
    OnePathOneId(dir, a, b, q.jobs[a].path);
  }

  lemma EnqueueConsistent(q: Queue, dir: string, id: FileId, temp: Path, isNew: bool,
                          parent: Option<FileId>, name: Option<Bytes>, now: nat)
    requires Consistent(q, dir) && temp in q.files && !IsUploadPath(dir, temp) && ValidId(id)
    ensures Consistent(Enqueue(q, dir, id, temp, isNew, parent, name, now), dir)
  {
    hide SafePath, ValidId;
    var q' := Enqueue(q, dir, id, temp, isNew, parent, name, now);
    assert PathOf(dir, id, SafePath(dir, id, now)) by {
      OwnPath(dir, id, now);
    }
    forall other | other in q'.jobs ensures q'.jobs[other].path in q'.files && PathOf(dir, other, q'.jobs[other].path) {
      if other != id {
        var path := q.jobs[other].path;
        assert PathOf(dir, other, path);
        if id in q.jobs && q.jobs[id].path == path {
          OnePathOneId(dir, id, other, path);
        }
      }
    }
  }

  lemma OwnPath(dir: string, id: FileId, now: nat)
    requires ValidId(id)
    ensures PathOf(dir, id, SafePath(dir, id, now))
  {}

  lemma RemoveConsistent(q: Queue, dir: string, id: FileId, local: Option<Path>)
    requires Consistent(q, dir) && (local.Some? ==> PathOf(dir, id, local.value))
    ensures Consistent(RemoveJob(q, id, local), dir)
  {
    hide PathOf;
    var q' := RemoveJob(q, id, local);
    forall other | other in q'.jobs ensures q'.jobs[other].path in q'.files {
      if local.Some? && q.jobs[other].path == local.value {
        OnePathOneId(dir, id, other, local.value);
      }
    }
  }

  lemma FailureConsistent(q: Queue, dir: string, id: FileId, fatal: bool, maxRetries: int)
    requires Consistent(q, dir)
    ensures Consistent(HandleFailure(q, id, fatal, maxRetries), dir)
  {
    hide PathOf;
  }

  // ---- everybody at work ----

  /** Started: the job was read under the lock.  Found, Absent: its file was found there, or
      missing.  Uploading: the storage call is under way with what was read. */
  datatype Phase = Started | Found | Absent | Uploading(data: Bytes)

  datatype Attempt = Attempt(id: FileId, path: Path, phase: Phase)

  /** The triggers of an upload: enqueuers about to submit, queued tasks, attempts under
      way and armed timers.  `starting` holds from a restart until the constructor ends. */
  datatype Sys = Sys(
    q: Queue, enqueuers: multiset<FileId>, tasks: multiset<FileId>,
    attempts: multiset<Attempt>, timers: multiset<FileId>, starting: bool)

  datatype Config = Config(dir: string, maxRetries: int)

  datatype Step =
    | DoEnqueue(id: FileId, temp: Path, isNew: bool, parent: Option<FileId>, name: Option<Bytes>, now: nat)
    | DoSubmit(id: FileId)
    | TakeTask(id: FileId)
    | FindFile(a: Attempt)
    | ReadIn(a: Attempt)
    | DropAbsent(a: Attempt)
    | Succeed(a: Attempt)
    | Fail(a: Attempt, fatal: bool)
    | FireTimer(id: FileId)
    | OtherFiles(files: map<Path, Bytes>)
    | Restart
    | ProcessQueue

  ghost predicate Enabled(s: Sys, cfg: Config, step: Step) {
    match step
    case DoEnqueue(id, temp, _, _, _, _) => temp in s.q.files && !IsUploadPath(cfg.dir, temp) && ValidId(id)
    case DoSubmit(id) => id in s.enqueuers
    case TakeTask(id) => id in s.tasks
    case FindFile(a) => a in s.attempts && a.phase == Started
    case ReadIn(a) => a in s.attempts && a.phase == Found && a.path in s.q.files
    case DropAbsent(a) => a in s.attempts && a.phase == Absent
    case Succeed(a) => a in s.attempts && a.phase.Uploading?
    case Fail(a, _) => a in s.attempts && (a.phase == Found || a.phase.Uploading?)
    case FireTimer(id) => id in s.timers
    case OtherFiles(files) =>
      forall p :: IsUploadPath(cfg.dir, p) ==>
        (p in files <==> p in s.q.files) && (p in files ==> files[p] == s.q.files[p])
    case Restart => true
    case ProcessQueue => s.starting
  }

  ghost function PendingIds(q: Queue): set<FileId> {
    set id | id in q.jobs && q.jobs[id].status == Pending
  }

  ghost function Do(s: Sys, cfg: Config, step: Step): Sys
    requires Enabled(s, cfg, step)
  {
    match step
    case DoEnqueue(id, temp, isNew, parent, name, now) =>
      s.(q := Enqueue(s.q, cfg.dir, id, temp, isNew, parent, name, now), enqueuers := s.enqueuers + multiset{id})
    case DoSubmit(id) => s.(enqueuers := s.enqueuers - multiset{id}, tasks := s.tasks + multiset{id})
    case TakeTask(id) =>
      s.(tasks := s.tasks - multiset{id},
         attempts := if id in s.q.jobs && s.q.jobs[id].status == Pending
                     then s.attempts + multiset{Attempt(id, s.q.jobs[id].path, Started)} else s.attempts)
    case FindFile(a) =>
      s.(attempts := s.attempts - multiset{a}
                   + multiset{a.(phase := if a.path in s.q.files then Found else Absent)})
    case ReadIn(a) =>
      s.(attempts := s.attempts - multiset{a} + multiset{a.(phase := Uploading(s.q.files[a.path]))})
    case DropAbsent(a) => s.(q := RemoveJob(s.q, a.id, None), attempts := s.attempts - multiset{a})
    case Succeed(a) => s.(q := RemoveJob(s.q, a.id, Some(a.path)), attempts := s.attempts - multiset{a})
    case Fail(a, fatal) =>
      s.(q := HandleFailure(s.q, a.id, fatal, cfg.maxRetries), attempts := s.attempts - multiset{a},
         timers := if Retries(s.q, a.id, fatal, cfg.maxRetries) then s.timers + multiset{a.id} else s.timers)
    case FireTimer(id) => s.(timers := s.timers - multiset{id}, tasks := s.tasks + multiset{id})
    case OtherFiles(files) => s.(q := s.q.(files := files))
    case Restart =>
      Sys(s.q.(jobs := s.q.saved, size := Active(s.q.saved)), multiset{}, multiset{}, multiset{}, multiset{}, true)
    case ProcessQueue => s.(tasks := s.tasks + multiset(PendingIds(s.q)), starting := false)
  }

  ghost predicate Triggered(s: Sys, id: FileId) {
    || id in s.enqueuers || id in s.tasks || id in s.timers
    || exists path: Path, phase: Phase :: Attempt(id, path, phase) in s.attempts
  }

  ghost predicate NoneStranded(s: Sys) {
    forall id :: id in s.q.jobs && s.q.jobs[id].status == Pending ==> Triggered(s, id)
  }

  ghost predicate SysInv(s: Sys, cfg: Config) {
    && Consistent(s.q, cfg.dir)
    && (forall a :: a in s.attempts ==> PathOf(cfg.dir, a.id, a.path))
    && (!s.starting ==> NoneStranded(s))
  }

  lemma StepConsistent(s: Sys, cfg: Config, step: Step)
    requires SysInv(s, cfg) && Enabled(s, cfg, step)
    ensures Consistent(Do(s, cfg, step).q, cfg.dir)
  {
    hide PathOf, NoneStranded, Enqueue, RemoveJob, HandleFailure;
    match step
    case DoEnqueue(id, temp, isNew, parent, name, now) =>
      EnqueueConsistent(s.q, cfg.dir, id, temp, isNew, parent, name, now);
    case DropAbsent(a) => RemoveConsistent(s.q, cfg.dir, a.id, None);
    case Succeed(a) => RemoveConsistent(s.q, cfg.dir, a.id, Some(a.path));
    case Fail(a, fatal) => FailureConsistent(s.q, cfg.dir, a.id, fatal, cfg.maxRetries);
    case _ =>
  }

  lemma StepAttempts(s: Sys, cfg: Config, step: Step)
    requires SysInv(s, cfg) && Enabled(s, cfg, step)
    ensures forall a :: a in Do(s, cfg, step).attempts ==> PathOf(cfg.dir, a.id, a.path)
  {
    hide PathOf, NoneStranded, Enqueue, RemoveJob, HandleFailure;
    if step.FindFile? || step.ReadIn? {
      assert PathOf(cfg.dir, step.a.id, step.a.path);
    }
  }

  /** Each step hands every pending job's trigger on, or the job is gone or given up. */
  lemma StepTriggers(s: Sys, cfg: Config, step: Step, id: FileId)
    requires NoneStranded(s) && Enabled(s, cfg, step) && step != Restart
    requires var q := Do(s, cfg, step).q; id in q.jobs && q.jobs[id].status == Pending
    ensures Triggered(Do(s, cfg, step), id)
  {
    hide Do, Enabled;
    if step.DoEnqueue? && step.id == id {
      EnqueueTriggers(s, cfg, step);
    } else {
      PendingBefore(s, cfg, step, id);
      if path: Path, phase: Phase :| Attempt(id, path, phase) in s.attempts {
        AttemptHandsOn(s, cfg, step, Attempt(id, path, phase));
      } else {
        IdHandsOn(s, cfg, step, id);
      }
    }
  }

  lemma EnqueueTriggers(s: Sys, cfg: Config, step: Step)
    requires step.DoEnqueue? && Enabled(s, cfg, step)
    ensures Triggered(Do(s, cfg, step), step.id)
  {}

  lemma IdHandsOn(s: Sys, cfg: Config, step: Step, id: FileId)
    requires Enabled(s, cfg, step) && step != Restart && IsPending(s.q, id)
    requires id in s.enqueuers || id in s.tasks || id in s.timers
    ensures Triggered(Do(s, cfg, step), id)
  {
    hide Do, Enabled;
    if step == TakeTask(id) {
      TakenHandsOn(s, cfg, id);
    } else {
      IdStays(s, cfg, step, id);
    }
  }

  lemma TakenHandsOn(s: Sys, cfg: Config, id: FileId)
    requires Enabled(s, cfg, TakeTask(id)) && IsPending(s.q, id)
    ensures Triggered(Do(s, cfg, TakeTask(id)), id)
  {
    assert Attempt(id, s.q.jobs[id].path, Started) in Do(s, cfg, TakeTask(id)).attempts;
  }

  lemma IdStays(s: Sys, cfg: Config, step: Step, id: FileId)
    requires Enabled(s, cfg, step) && step != Restart && step != TakeTask(id)
    requires id in s.enqueuers || id in s.tasks || id in s.timers
    ensures var s' := Do(s, cfg, step); id in s'.enqueuers || id in s'.tasks || id in s'.timers
  {
    hide PathOf, Active, IsUploadPath, Enqueue, RemoveJob, HandleFailure, PendingIds, Retries, ValidId;
    match step
    case DoSubmit(_) => Moved(s.enqueuers, s.tasks, step.id, id);
    case FireTimer(_) => Moved(s.timers, s.tasks, step.id, id);
    case _ =>
  }

  /** Whatever moves from one multiset to another stays in one of them. */
  lemma Moved(a: multiset<FileId>, b: multiset<FileId>, moved: FileId, id: FileId)
    requires moved in a
    ensures id in a || id in b ==> id in a - multiset{moved} || id in b + multiset{moved}
    ensures id in b ==> id in b + multiset{moved}
  {}

  lemma PendingBefore(s: Sys, cfg: Config, step: Step, id: FileId)
    requires Enabled(s, cfg, step) && step != Restart && !(step.DoEnqueue? && step.id == id)
    requires var q := Do(s, cfg, step).q; id in q.jobs && q.jobs[id].status == Pending
    ensures id in s.q.jobs && s.q.jobs[id].status == Pending
  {}

  lemma AttemptHandsOn(s: Sys, cfg: Config, step: Step, a: Attempt)
    requires Enabled(s, cfg, step) && step != Restart && a in s.attempts
    requires var q := Do(s, cfg, step).q; a.id in q.jobs && q.jobs[a.id].status == Pending
    ensures Triggered(Do(s, cfg, step), a.id)
  {
    hide Do, Enabled;
    if step == FindFile(a) || step == ReadIn(a) {
      NextPhase(s, cfg, step, a);
    } else if step.Fail? && step.a == a {
      FailureHandsOn(s, cfg, a, step.fatal);
    } else {
      AttemptStays(s, cfg, step, a);
    }
  }

  lemma NextPhase(s: Sys, cfg: Config, step: Step, a: Attempt)
    requires Enabled(s, cfg, step) && (step == FindFile(a) || step == ReadIn(a))
    ensures Triggered(Do(s, cfg, step), a.id)
  {
    var b := if step == ReadIn(a) then a.(phase := Uploading(s.q.files[a.path]))
             else a.(phase := if a.path in s.q.files then Found else Absent);
    assert Attempt(b.id, b.path, b.phase) in Do(s, cfg, step).attempts;
  }

  lemma FailureHandsOn(s: Sys, cfg: Config, a: Attempt, fatal: bool)
    requires Enabled(s, cfg, Fail(a, fatal)) && IsPending(Do(s, cfg, Fail(a, fatal)).q, a.id)
    ensures Triggered(Do(s, cfg, Fail(a, fatal)), a.id)
  {
    assert Retries(s.q, a.id, fatal, cfg.maxRetries);
    assert a.id in Do(s, cfg, Fail(a, fatal)).timers;
  }

  /** An attempt whose job is still pending goes on through the other steps. */
  lemma AttemptStays(s: Sys, cfg: Config, step: Step, a: Attempt)
    requires Enabled(s, cfg, step) && step != Restart && a in s.attempts && step != FindFile(a) && step != ReadIn(a)
    requires !(step.Fail? && step.a == a) && IsPending(Do(s, cfg, step).q, a.id)
    ensures Triggered(Do(s, cfg, step), a.id)
  {
    hide PathOf, Active, IsUploadPath, Enqueue, ValidId, PendingIds, HandleFailure, Retries;
    assert Attempt(a.id, a.path, a.phase) in Do(s, cfg, step).attempts;
  }

  lemma StepKeeps(s: Sys, cfg: Config, step: Step)
    requires SysInv(s, cfg) && Enabled(s, cfg, step)
    ensures SysInv(Do(s, cfg, step), cfg)
  {
    hide Consistent, Triggered, PathOf;
    var s' := Do(s, cfg, step);
    StepConsistent(s, cfg, step);
    StepAttempts(s, cfg, step);
    if !s'.starting {
      forall id | id in s'.q.jobs && s'.q.jobs[id].status == Pending ensures Triggered(s', id) {
        if step == ProcessQueue {
          SubmittedTriggered(s, cfg, id);
        } else {
          StepTriggers(s, cfg, step, id);
        }
      }
    }
  }

  lemma SubmittedTriggered(s: Sys, cfg: Config, id: FileId)
    requires s.starting && id in s.q.jobs && s.q.jobs[id].status == Pending
    ensures Triggered(Do(s, cfg, ProcessQueue), id)
  {
    assert id in PendingIds(s.q);
  }

  /** At start-up each pending job gets one task, and a job that was given up none. */
  lemma ResumesPending(s: Sys, cfg: Config, id: FileId)
    requires s.starting
    ensures Do(s, cfg, ProcessQueue).tasks[id]
         == s.tasks[id] + if id in s.q.jobs && s.q.jobs[id].status == Pending then 1 else 0
  {
    assert multiset(PendingIds(s.q))[id] == if id in PendingIds(s.q) then 1 else 0;
  }

  ghost predicate IsRun(ss: seq<Sys>, cfg: Config) {
    && |ss| > 0 && ss[0].starting && ss[0].attempts == multiset{} && Consistent(ss[0].q, cfg.dir)
    && forall i {:trigger ss[i]} :: 0 <= i < |ss| - 1 ==> Moves(ss[i], cfg, ss[i + 1])
  }

  ghost predicate Moves(s: Sys, cfg: Config, s': Sys) {
    exists step: Step :: Enabled(s, cfg, step) && s' == Do(s, cfg, step)
  }

  /** Over every interleaving of enqueues, any number of workers, timers and restarts: the
      queue is consistent whenever its lock is free, no two ids share a file, and outside
      construction every pending job has a trigger. */
  lemma {:induction false} QueueSafe(ss: seq<Sys>, cfg: Config)
    requires IsRun(ss, cfg)
    ensures SysInv(ss[|ss| - 1], cfg)
  {
    hide SysInv;
    if |ss| == 1 {
      StartInv(ss[0], cfg);
    } else {
      var prefix := ss[..|ss| - 1];
      assert IsRun(prefix, cfg);
      QueueSafe(prefix, cfg);
      assert Moves(ss[|ss| - 2], cfg, ss[|ss| - 2 + 1]);
      var step: Step :| Enabled(ss[|ss| - 2], cfg, step) && ss[|ss| - 1] == Do(ss[|ss| - 2], cfg, step);
      StepKeeps(ss[|ss| - 2], cfg, step);
    }
  }

  lemma StartInv(s: Sys, cfg: Config)
    requires s.starting && s.attempts == multiset{} && Consistent(s.q, cfg.dir)
    ensures SysInv(s, cfg)
  {}

  lemma QueueSafeParts(ss: seq<Sys>, s: Sys, cfg: Config, a: FileId, b: FileId)
    requires IsRun(ss, cfg) && s == ss[|ss| - 1] && a in s.q.jobs && b in s.q.jobs
    ensures s.q.jobs[a].path in s.q.files && (s.q.jobs[a].path == s.q.jobs[b].path ==> a == b)
    ensures s.q.saved == s.q.jobs && s.q.size == Active(s.q.jobs)
    ensures !s.starting && s.q.jobs[a].status == Pending ==> Triggered(s, a)
  {
    hide IsRun, PathOf, Triggered;
    QueueSafe(ss, cfg);
    if s.q.jobs[a].path == s.q.jobs[b].path {
      DistinctPaths(s.q, cfg.dir, a, b);
    }
  }

  // ---- the retry budget of one job ----

  datatype Outcome = Uploaded | FileMissing | Error | Fatal

  /** One call of the upload job with no other attempt under way. */
  ghost function AttemptOnce(q: Queue, id: FileId, outcome: Outcome, maxRetries: int): Queue {
    if id !in q.jobs || q.jobs[id].status != Pending then q
    else match outcome
      case Uploaded => RemoveJob(q, id, Some(q.jobs[id].path))
      case FileMissing => RemoveJob(q, id, None)
      case Error => HandleFailure(q, id, false, maxRetries)
      case Fatal => HandleFailure(q, id, true, maxRetries)
  }

  ghost predicate IsPending(q: Queue, id: FileId) {
    id in q.jobs && q.jobs[id].status == Pending
  }

  /** Storage attempts made over a sequence of calls. */
  ghost function Attempts(q: Queue, id: FileId, outcomes: seq<Outcome>, maxRetries: int): nat
    decreases |outcomes|
  {
    if outcomes == [] then 0
    else
      var first := if IsPending(q, id) && outcomes[0] != FileMissing then 1 else 0;
      first + Attempts(AttemptOnce(q, id, outcomes[0], maxRetries), id, outcomes[1..], maxRetries)
  }

  /** Seconds of delay scheduled over a sequence of calls. */
  ghost function Delays(q: Queue, id: FileId, outcomes: seq<Outcome>, maxRetries: int): nat
    decreases |outcomes|
  {
    if outcomes == [] then 0
    else
      var fatal := outcomes[0] == Fatal;
      var failed := outcomes[0] == Error || fatal;
      var first := if IsPending(q, id) && failed && Retries(q, id, fatal, maxRetries)
                   then Backoff(q.jobs[id].retries + 1) else 0;
      first + Delays(AttemptOnce(q, id, outcomes[0], maxRetries), id, outcomes[1..], maxRetries)
  }

  lemma {:induction false} Idle(q: Queue, id: FileId, outcomes: seq<Outcome>, maxRetries: int)
    requires !IsPending(q, id)
    ensures Attempts(q, id, outcomes, maxRetries) == 0 == Delays(q, id, outcomes, maxRetries)
    decreases |outcomes|
  {
    if outcomes != [] {
      Idle(q, id, outcomes[1..], maxRetries);
    }
  }

  lemma {:induction false} BackoffIsPower(n: nat)
    ensures Backoff(n) == Power(2, n)
  {
    if n > 0 {
      BackoffIsPower(n - 1);
    }
  }

  lemma {:induction false} PowerGrows(m: nat, n: nat)
    requires m <= n
    ensures 1 <= Power(2, m) <= Power(2, n)
    decreases n
  {
    if m < n {
      PowerGrows(m, n - 1);
    } else if m > 0 {
      PowerGrows(m - 1, m - 1);
    }
  }

  /** A pending job that starts with r retries is attempted at most max(1, maxRetries+1-r)
      times, never once given up, and its delays add up to less than a fixed total. */
  lemma {:induction false} RetryBudget(q: Queue, id: FileId, outcomes: seq<Outcome>, maxRetries: nat)
    requires IsPending(q, id)
    ensures Attempts(q, id, outcomes, maxRetries) <= Max(1, maxRetries + 1 - q.jobs[id].retries)
    ensures q.jobs[id].retries <= maxRetries ==>
      Delays(q, id, outcomes, maxRetries) <= Power(2, maxRetries + 1) - Power(2, q.jobs[id].retries + 1)
    ensures q.jobs[id].retries > maxRetries ==> Delays(q, id, outcomes, maxRetries) == 0
    decreases |outcomes|
  {
    BackoffIsPower(q.jobs[id].retries + 1);
    if q.jobs[id].retries <= maxRetries {
      PowerGrows(q.jobs[id].retries + 1, maxRetries + 1);
    }
    if outcomes != [] {
      var q' := AttemptOnce(q, id, outcomes[0], maxRetries);
      if IsPending(q', id) {
        RetryBudget(q', id, outcomes[1..], maxRetries);
      } else {
        Idle(q', id, outcomes[1..], maxRetries);
      }
    }
  }

  /** The budget is used up when every attempt fails without being fatal. */
  lemma {:induction false} BudgetUsedUp(q: Queue, id: FileId, outcomes: seq<Outcome>, maxRetries: nat)
    requires IsPending(q, id) && (forall i :: 0 <= i < |outcomes| ==> outcomes[i] == Error)
    requires |outcomes| >= Max(1, maxRetries + 1 - q.jobs[id].retries)
    ensures Attempts(q, id, outcomes, maxRetries) == Max(1, maxRetries + 1 - q.jobs[id].retries)
    ensures q.jobs[id].retries <= maxRetries ==>
      Delays(q, id, outcomes, maxRetries) == Power(2, maxRetries + 1) - Power(2, q.jobs[id].retries + 1)
    decreases |outcomes|
  {
    BackoffIsPower(q.jobs[id].retries + 1);
    var q' := AttemptOnce(q, id, outcomes[0], maxRetries);
    if IsPending(q', id) {
      BudgetUsedUp(q', id, outcomes[1..], maxRetries);
    } else {
      Idle(q', id, outcomes[1..], maxRetries);
    }
  }

  /** The first failure of a fresh job is retried after two seconds, and each further one after
      twice as long as the one before. */
  lemma DelaysDouble(q: Queue, id: FileId, maxRetries: nat)
    requires IsPending(q, id) && q.jobs[id].retries < maxRetries
    ensures q.jobs[id].retries == 0 ==> Delays(q, id, [Error], maxRetries) == 2
    ensures var q' := AttemptOnce(q, id, Error, maxRetries);
      && IsPending(q', id) && q'.jobs[id].retries == q.jobs[id].retries + 1
      && (q.jobs[id].retries + 1 < maxRetries ==>
            Delays(q', id, [Error], maxRetries) == 2 * Delays(q, id, [Error], maxRetries))
  {
    hide Active;
    var q' := AttemptOnce(q, id, Error, maxRetries);
    OneDelay(q, id, maxRetries);
    if q.jobs[id].retries + 1 < maxRetries {
      OneDelay(q', id, maxRetries);
    }
  }

  lemma OneDelay(q: Queue, id: FileId, maxRetries: nat)
    requires IsPending(q, id) && q.jobs[id].retries < maxRetries
    ensures Delays(q, id, [Error], maxRetries) == Backoff(q.jobs[id].retries + 1)
    ensures q.jobs[id].retries == 0 ==> Delays(q, id, [Error], maxRetries) == 2
  {
    hide AttemptOnce;
    assert [Error][1..] == [];
    assert Backoff(1) == 2 * Backoff(0);
  }

  /** The queue after a sequence of calls. */
  ghost function After(q: Queue, id: FileId, outcomes: seq<Outcome>, maxRetries: int): Queue
    decreases |outcomes|
  {
    if outcomes == [] then q else After(AttemptOnce(q, id, outcomes[0], maxRetries), id, outcomes[1..], maxRetries)
  }

  lemma {:induction false} IdleAfter(q: Queue, id: FileId, outcomes: seq<Outcome>, maxRetries: int)
    requires !IsPending(q, id)
    ensures After(q, id, outcomes, maxRetries) == q
    decreases |outcomes|
  {
    if outcomes != [] {
      IdleAfter(q, id, outcomes[1..], maxRetries);
    }
  }

  /** The exact course of a pending job that fails k times and then comes to something else
      while it may still be tried: k attempts and delays, then one more attempt unless its file
      is missing, and none after that.  Then an uploaded job or one without its file is gone,
      its file with it, and one that failed fatally is given up but keeps its file. */
  lemma {:induction false} Course(q: Queue, id: FileId, outcomes: seq<Outcome>, maxRetries: nat, k: nat)
    requires IsPending(q, id) && k < |outcomes| && q.jobs[id].retries + k <= maxRetries
    requires (forall i :: 0 <= i < k ==> outcomes[i] == Error) && outcomes[k] != Error
    ensures Attempts(q, id, outcomes, maxRetries) == k + if outcomes[k] == FileMissing then 0 else 1
    ensures Delays(q, id, outcomes, maxRetries)
         == Power(2, q.jobs[id].retries + k + 1) - Power(2, q.jobs[id].retries + 1)
    ensures var last := After(q, id, outcomes, maxRetries);
      && (id in last.jobs <==> outcomes[k] == Fatal)
      && (outcomes[k] == Fatal ==> last.jobs[id].status == Failed && last.files == q.files)
      && (outcomes[k] == Uploaded ==> last.files == q.files - {q.jobs[id].path})
      && forall other :: other != id ==> (other in last.jobs <==> other in q.jobs)
    decreases |outcomes|
  {
    var q' := AttemptOnce(q, id, outcomes[0], maxRetries);
    if k == 0 {
      Idle(q', id, outcomes[1..], maxRetries);
      IdleAfter(q', id, outcomes[1..], maxRetries);
    } else {
      BackoffIsPower(q.jobs[id].retries + 1);
      Course(q', id, outcomes[1..], maxRetries, k - 1);
    }
  }

  /** A job that fails until its budget is used up is given up; its file stays. */
  lemma {:induction false} GivenUp(q: Queue, id: FileId, outcomes: seq<Outcome>, maxRetries: nat)
    requires IsPending(q, id) && (forall i :: 0 <= i < |outcomes| ==> outcomes[i] == Error)
    ensures var last := After(q, id, outcomes, maxRetries);
      && last.files == q.files && id in last.jobs
      && (last.jobs[id].status == Failed <==> |outcomes| >= Max(1, maxRetries + 1 - q.jobs[id].retries))
    decreases |outcomes|
  {
    if outcomes != [] {
      var q' := AttemptOnce(q, id, outcomes[0], maxRetries);
      if IsPending(q', id) {
        GivenUp(q', id, outcomes[1..], maxRetries);
      } else {
        IdleAfter(q', id, outcomes[1..], maxRetries);
      }
    }
  }

  /** An edit of a file whose upload was given up gets one more attempt, with no retry: the
      new job keeps the count of the old one.  A file that was not queued gets the whole budget. */
  lemma EditBudget(q: Queue, dir: string, id: FileId, temp: Path, now: nat, outcomes: seq<Outcome>, maxRetries: nat)
    requires temp in q.files
    ensures var q' := Enqueue(q, dir, id, temp, false, None, None, now);
      && IsPending(q', id)
      && (id in q.jobs && q.jobs[id].retries > maxRetries ==>
            Attempts(q', id, outcomes, maxRetries) <= 1 && Delays(q', id, outcomes, maxRetries) == 0)
      && (id !in q.jobs && |outcomes| > maxRetries && (forall i :: 0 <= i < |outcomes| ==> outcomes[i] == Error) ==>
            Attempts(q', id, outcomes, maxRetries) == maxRetries + 1)
  {
    hide SafePath, Active, Attempts, Delays;
    var q' := Enqueue(q, dir, id, temp, false, None, None, now);
    RetryBudget(q', id, outcomes, maxRetries);
    if |outcomes| > maxRetries && id !in q.jobs && forall i :: 0 <= i < |outcomes| ==> outcomes[i] == Error {
      BudgetUsedUp(q', id, outcomes, maxRetries);
    }
  }
}
