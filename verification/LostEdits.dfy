/** Which edits the upload queue loses: an attempt removes whatever job its id has by then,
    so an enqueue that overtakes it may leave the queue without being uploaded. */
module LostEdits {
  import opened FileContents
  import opened UploadQueues

  /** A job leaves the queue although its own file is not what was uploaded. */
  ghost predicate Loses(s: Sys, cfg: Config, step: Step, id: FileId)
    requires Enabled(s, cfg, step)
  {
    && id in s.q.jobs && id !in Do(s, cfg, step).q.jobs
    && !(step.Succeed? && step.a.id == id && Uploads(s.q, step.a))
  }

  /** What the attempt uploads is the file of the queued job. */
  ghost predicate Uploads(q: Queue, a: Attempt) {
    && a.id in q.jobs && a.path == q.jobs[a.id].path && a.path in q.files
    && a.phase == Uploading(q.files[a.path])
  }

  /** The attempt, if it gets there, is one for the queued job of its id. */
  ghost predicate Carries(q: Queue, a: Attempt) {
    match a.phase
    case Started => if a.id in q.jobs then a.path == q.jobs[a.id].path else a.path !in q.files
    case Found => a.path in q.files ==> a.id in q.jobs && a.path == q.jobs[a.id].path
    case Absent => a.id !in q.jobs
    case Uploading(_) => a.id in q.jobs ==> Uploads(q, a)
  }

  ghost predicate AllCarry(s: Sys) {
    forall a :: a in s.attempts ==> Carries(s.q, a)
  }

  /** A new file leaves an attempt of its id behind, unless it replaces the very file, or the
      attempt has found a file but not read it and so is going to fail. */
  predicate Behind(a: Attempt, path: Path, content: Bytes) {
    match a.phase
    case Started => a.path != path
    case Found => false
    case Absent => true
    case Uploading(data) => a.path != path || data != content
  }

  ghost predicate Overtakes(s: Sys, cfg: Config, step: Step)
    requires Enabled(s, cfg, step)
  {
    step.DoEnqueue? && exists a :: LeavesBehind(s, cfg, step, a)
  }

  ghost predicate LeavesBehind(s: Sys, cfg: Config, step: Step, a: Attempt)
    requires step.DoEnqueue? && Enabled(s, cfg, step)
  {
    a in s.attempts && a.id == step.id && Behind(a, SafePath(cfg.dir, a.id, step.now), s.q.files[step.temp])
  }

  // ---- what an enqueue does to files and jobs ----

  lemma Enqueued(s: Sys, cfg: Config, step: Step, path: Path)
    requires SysInv(s, cfg) && Enabled(s, cfg, step) && step.DoEnqueue? && IsUploadPath(cfg.dir, path)
    ensures var q, q', safe := s.q, Do(s, cfg, step).q, SafePath(cfg.dir, step.id, step.now);
      && step.id in q'.jobs && q'.jobs[step.id].path == safe && q'.jobs.Keys == q.jobs.Keys + {step.id}
      && (forall id :: id in q.jobs && id != step.id ==> q'.jobs[id] == q.jobs[id])
      && safe in q'.files && q'.files[safe] == q.files[step.temp]
      && (path != safe && step.id in q.jobs && q.jobs[step.id].path == path ==> path !in q'.files)
      && (path != safe && !(step.id in q.jobs && q.jobs[step.id].path == path) ==>
            (path in q'.files <==> path in q.files) && (path in q'.files ==> q'.files[path] == q.files[path]))
  {
    hide SafePath, Active, IsUploadPath, PathOf;
  }

  lemma Apart(cfg: Config, path: Path, a: FileId, b: FileId)
    requires PathOf(cfg.dir, a, path) && PathOf(cfg.dir, b, path)
    ensures a == b
  {
    OnePathOneId(cfg.dir, a, b, path);
  }

  lemma EnqueueCarries(s: Sys, cfg: Config, step: Step, a: Attempt)
    requires SysInv(s, cfg) && Enabled(s, cfg, step) && step.DoEnqueue? && a in s.attempts && Carries(s.q, a)
    requires !LeavesBehind(s, cfg, step, a)
    ensures Carries(Do(s, cfg, step).q, a)
  {
    assert PathOf(cfg.dir, a.id, a.path);
    Enqueued(s, cfg, step, a.path);
    var safe := SafePath(cfg.dir, step.id, step.now);
    OwnPath(cfg.dir, step.id, step.now);
    hide Do, PathOf, SafePath;
    if a.id != step.id {
      if safe == a.path {
        Apart(cfg, safe, a.id, step.id);
      }
      if step.id in s.q.jobs && s.q.jobs[step.id].path == a.path {
        Apart(cfg, a.path, a.id, step.id);
      }
    }
  }

  /** Removing the job and the file of one attempt. */
  lemma SuccessCarries(s: Sys, cfg: Config, done: Attempt, a: Attempt)
    requires SysInv(s, cfg) && done in s.attempts && a in s.attempts && Carries(s.q, done) && Carries(s.q, a)
    requires done.phase.Uploading?
    ensures Carries(RemoveJob(s.q, done.id, Some(done.path)), a)
  {
    hide Active, NoneStranded;
    assert PathOf(cfg.dir, a.id, a.path) && PathOf(cfg.dir, done.id, done.path);
    hide PathOf;
    if a.path == done.path {
      Apart(cfg, a.path, a.id, done.id);
    }
  }

  lemma OtherCarries(s: Sys, cfg: Config, step: Step, a: Attempt)
    requires SysInv(s, cfg) && Enabled(s, cfg, step) && a in s.attempts && Carries(s.q, a)
    requires step.DropAbsent? ==> Carries(s.q, step.a)
    requires !step.DoEnqueue? && !step.Succeed? && step != Restart
    ensures Carries(Do(s, cfg, step).q, a)
  {
    hide Active, NoneStranded, PathOf, IsUploadPath, HandleFailure, RemoveJob, PendingIds;
    match step
    case OtherFiles(files) =>
      UploadPath(cfg.dir, a.id, a.path);
    case DropAbsent(b) => AbsentSame(s.q, b, a);
    case Fail(b, fatal) => FailureSame(s.q, b.id, fatal, cfg.maxRetries, a);
    case _ =>
  }

  lemma AbsentSame(q: Queue, absent: Attempt, a: Attempt)
    requires absent.id !in q.jobs && Carries(q, a)
    ensures Carries(RemoveJob(q, absent.id, None), a)
  {
    assert q.jobs - {absent.id} == q.jobs;
  }

  lemma FailureSame(q: Queue, id: FileId, fatal: bool, maxRetries: int, a: Attempt)
    requires Carries(q, a)
    ensures Carries(HandleFailure(q, id, fatal, maxRetries), a)
  {
    hide Active;
  }

  lemma UploadPath(dir: string, id: FileId, path: Path)
    requires PathOf(dir, id, path)
    ensures IsUploadPath(dir, path)
  {}

  /** An attempt that a step begins, or takes to its next phase. */
  lemma NewCarries(s: Sys, cfg: Config, step: Step, a: Attempt)
    requires SysInv(s, cfg) && Enabled(s, cfg, step) && AllCarry(s)
    requires a in Do(s, cfg, step).attempts && a !in s.attempts
    ensures Carries(Do(s, cfg, step).q, a)
  {
    hide SysInv, AllCarry, Carries, Enqueue, RemoveJob, HandleFailure, IsUploadPath;
    if step.FindFile? || step.ReadIn? {
      PhaseCarries(s, cfg, step.a);
    } else if step.TakeTask? {
      TakenCarries(s.q, step.id);
    }
  }

  lemma PhaseCarries(s: Sys, cfg: Config, a: Attempt)
    requires SysInv(s, cfg) && AllCarry(s) && a in s.attempts
    ensures a.phase == Started ==> Carries(s.q, a.(phase := if a.path in s.q.files then Found else Absent))
    ensures a.phase == Found && a.path in s.q.files ==> Carries(s.q, a.(phase := Uploading(s.q.files[a.path])))
  {
    hide PathOf, NoneStranded, Active;
    assert Carries(s.q, a);
  }

  lemma TakenCarries(q: Queue, id: FileId)
    requires id in q.jobs
    ensures Carries(q, Attempt(id, q.jobs[id].path, Started))
  {}

  /** A step that overtakes no attempt leaves every attempt one for the queued job. */
  lemma StepCarries(s: Sys, cfg: Config, step: Step)
    requires SysInv(s, cfg) && Enabled(s, cfg, step) && AllCarry(s) && !Overtakes(s, cfg, step)
    ensures AllCarry(Do(s, cfg, step))
  {
    hide SysInv, Carries, LeavesBehind;
    var s' := Do(s, cfg, step);
    forall a | a in s'.attempts ensures Carries(s'.q, a) {
      if a !in s.attempts {
        NewCarries(s, cfg, step, a);
      } else if step.DoEnqueue? {
        EnqueueCarries(s, cfg, step, a);
      } else if step.Succeed? {
        SuccessCarries(s, cfg, step.a, a);
      } else {
        OtherCarries(s, cfg, step, a);
      }
    }
  }

  /** While attempts are for the queued jobs no step loses any. */
  lemma StepLosesNone(s: Sys, cfg: Config, step: Step, id: FileId)
    requires SysInv(s, cfg) && Enabled(s, cfg, step) && AllCarry(s)
    ensures !Loses(s, cfg, step, id)
  {
    hide PathOf, NoneStranded, IsUploadPath, Active;
    if step.Succeed? || step.DropAbsent? {
      assert Carries(s.q, step.a);
    }
  }

  // ---- runs ----

  /** The steps can be taken one after the other, and no enqueue overtakes an attempt. */
  ghost predicate Careful(s: Sys, cfg: Config, steps: seq<Step>)
    decreases |steps|
  {
    steps == [] ||
    (Enabled(s, cfg, steps[0]) && !Overtakes(s, cfg, steps[0]) && Careful(Do(s, cfg, steps[0]), cfg, steps[1..]))
  }

  ghost predicate LosesIn(s: Sys, cfg: Config, steps: seq<Step>)
    decreases |steps|
  {
    && steps != [] && Enabled(s, cfg, steps[0])
    && ((exists id :: Loses(s, cfg, steps[0], id)) || LosesIn(Do(s, cfg, steps[0]), cfg, steps[1..]))
  }

  /** Every edit is uploaded, replaced by a newer one or still queued, over every run in which
      no enqueue overtakes an attempt. */
  lemma {:induction false} CarefulLosesNone(s: Sys, cfg: Config, steps: seq<Step>)
    requires SysInv(s, cfg) && AllCarry(s) && Careful(s, cfg, steps)
    ensures !LosesIn(s, cfg, steps)
    decreases |steps|
  {
    hide SysInv, AllCarry, Loses, Do, Enabled, Overtakes;
    if steps != [] {
      forall id ensures !Loses(s, cfg, steps[0], id) {
        StepLosesNone(s, cfg, steps[0], id);
      }
      StepCarries(s, cfg, steps[0]);
      StepKeeps(s, cfg, steps[0]);
      CarefulLosesNone(Do(s, cfg, steps[0]), cfg, steps[1..]);
    }
  }

  /** Every file in an upload path is the file of a queued job. */
  ghost predicate NoOrphans(s: Sys, cfg: Config) {
    forall p :: p in s.q.files && IsUploadPath(cfg.dir, p) ==> HasJob(s.q, p)
  }

  ghost predicate HasJob(q: Queue, p: Path) {
    exists id :: id in q.jobs && q.jobs[id].path == p
  }

  lemma StepNoOrphans(s: Sys, cfg: Config, step: Step)
    requires SysInv(s, cfg) && Enabled(s, cfg, step) && AllCarry(s) && NoOrphans(s, cfg)
    ensures NoOrphans(Do(s, cfg, step), cfg)
  {
    hide SafePath, Active, NoneStranded, IsUploadPath, PathOf, SysInv, Carries, HasJob, Do, Enabled;
    var s' := Do(s, cfg, step);
    forall p | p in s'.q.files && IsUploadPath(cfg.dir, p) ensures HasJob(s'.q, p) {
      FileHasJob(s, cfg, step, p);
    }
  }

  lemma FileHasJob(s: Sys, cfg: Config, step: Step, p: Path)
    requires SysInv(s, cfg) && Enabled(s, cfg, step) && AllCarry(s)
    requires p in Do(s, cfg, step).q.files && IsUploadPath(cfg.dir, p)
    requires p in s.q.files ==> HasJob(s.q, p)
    ensures HasJob(Do(s, cfg, step).q, p)
  {
    hide SafePath, Active, NoneStranded, IsUploadPath, PathOf, PendingIds, Carries, HandleFailure, Enqueue, RemoveJob,
      HasJob;
    match step
    case DoEnqueue(_, _, _, _, _, _) => EnqueuedHasJob(s, cfg, step, p);
    case Succeed(a) => FinishedHasJob(s, cfg, step, p);
    case DropAbsent(a) => FinishedHasJob(s, cfg, step, p);
    case Fail(a, fatal) => FailedHasJob(s.q, a.id, fatal, cfg.maxRetries, p);
    case OtherFiles(_) => SameHasJob(s, cfg, step, p);
    case Restart => SameHasJob(s, cfg, step, p);
    case _ =>
  }

  lemma EnqueuedHasJob(s: Sys, cfg: Config, step: Step, p: Path)
    requires SysInv(s, cfg) && Enabled(s, cfg, step) && step.DoEnqueue?
    requires p in Do(s, cfg, step).q.files && IsUploadPath(cfg.dir, p) && (p in s.q.files ==> HasJob(s.q, p))
    ensures HasJob(Do(s, cfg, step).q, p)
  {
    Enqueued(s, cfg, step, p);
    hide SafePath, SysInv, IsUploadPath, Do, Enabled;
    var q' := Do(s, cfg, step).q;
    if p == SafePath(cfg.dir, step.id, step.now) {
      assert q'.jobs[step.id].path == p;
    } else {
      assert step.id in s.q.jobs ==> s.q.jobs[step.id].path != p;
      JobKept(s.q, q', p, step.id);
    }
  }

  lemma FinishedHasJob(s: Sys, cfg: Config, step: Step, p: Path)
    requires Enabled(s, cfg, step) && AllCarry(s) && (step.Succeed? || step.DropAbsent?)
    requires p in Do(s, cfg, step).q.files && (p in s.q.files ==> HasJob(s.q, p))
    ensures HasJob(Do(s, cfg, step).q, p)
  {
    hide HasJob, Active;
    assert Carries(s.q, step.a);
    JobKept(s.q, Do(s, cfg, step).q, p, step.a.id);
  }

  lemma FailedHasJob(q: Queue, id: FileId, fatal: bool, maxRetries: int, p: Path)
    requires p in HandleFailure(q, id, fatal, maxRetries).files && (p in q.files ==> HasJob(q, p))
    ensures HasJob(HandleFailure(q, id, fatal, maxRetries), p)
  {
    hide HasJob, Active;
    JobKept(q, HandleFailure(q, id, fatal, maxRetries), p, id);
  }

  lemma SameHasJob(s: Sys, cfg: Config, step: Step, p: Path)
    requires SysInv(s, cfg) && Enabled(s, cfg, step) && (step.OtherFiles? || step == Restart)
    requires p in Do(s, cfg, step).q.files && IsUploadPath(cfg.dir, p) && (p in s.q.files ==> HasJob(s.q, p))
    ensures HasJob(Do(s, cfg, step).q, p)
  {
    hide IsUploadPath, PathOf, Active, NoneStranded;
  }

  lemma JobKept(q: Queue, q': Queue, p: Path, except: FileId)
    requires HasJob(q, p)
    requires except in q.jobs && q.jobs[except].path == p ==> except in q'.jobs && q'.jobs[except].path == p
    requires forall id :: id in q.jobs && id != except ==> id in q'.jobs && q'.jobs[id].path == q.jobs[id].path
    ensures HasJob(q', p)
  {
    var id :| id in q.jobs && q.jobs[id].path == p;
    assert id in q'.jobs && q'.jobs[id].path == p;
  }

  /** Where a sequence of steps leads. */
  ghost function End(s: Sys, cfg: Config, steps: seq<Step>): Sys
    requires Careful(s, cfg, steps)
    decreases |steps|
  {
    if steps == [] then s else End(Do(s, cfg, steps[0]), cfg, steps[1..])
  }

  /** Over every such run nothing is left behind in the upload directory either: each file in
      it is that of a queued job, and each queued job has its file. */
  lemma {:induction false} CarefulLeavesNothing(s: Sys, cfg: Config, steps: seq<Step>)
    requires SysInv(s, cfg) && AllCarry(s) && NoOrphans(s, cfg) && Careful(s, cfg, steps)
    ensures var last := End(s, cfg, steps); SysInv(last, cfg) && NoOrphans(last, cfg)
    decreases |steps|
  {
    hide SysInv, AllCarry, NoOrphans, Do, Enabled, Overtakes;
    if steps != [] {
      StepNoOrphans(s, cfg, steps[0]);
      StepCarries(s, cfg, steps[0]);
      StepKeeps(s, cfg, steps[0]);
      CarefulLeavesNothing(Do(s, cfg, steps[0]), cfg, steps[1..]);
    }
  }

  lemma OneStep(s: Sys, cfg: Config, step: Step, id: FileId)
    requires Enabled(s, cfg, step) && !step.DoEnqueue? && Loses(s, cfg, step, id)
    ensures Careful(s, cfg, [step]) && LosesIn(s, cfg, [step])
  {}

  lemma TwoSteps(s: Sys, cfg: Config, first: Step, second: Step)
    requires Enabled(s, cfg, first) && !first.DoEnqueue?
    requires Careful(Do(s, cfg, first), cfg, [second]) && LosesIn(Do(s, cfg, first), cfg, [second])
    ensures Careful(s, cfg, [first, second]) && LosesIn(s, cfg, [first, second])
  {
    hide Do, Enabled, Loses;
    assert [first, second][1..] == [second];
  }

  /** An attempt left behind loses the new job, without any more enqueues. */
  lemma BehindLoses(s: Sys, cfg: Config, step: Step, a: Attempt) returns (rest: seq<Step>)
    requires SysInv(s, cfg) && AllCarry(s) && Enabled(s, cfg, step) && step.DoEnqueue?
    requires LeavesBehind(s, cfg, step, a)
    ensures Careful(Do(s, cfg, step), cfg, rest) && LosesIn(Do(s, cfg, step), cfg, rest)
    ensures |rest| <= 2
  {
    hide SafePath, NoneStranded, Careful, LosesIn;
    var s1 := Do(s, cfg, step);
    assert PathOf(cfg.dir, a.id, a.path) && Carries(s.q, a) && a in s1.attempts;
    Enqueued(s, cfg, step, a.path);
    match a.phase
    case Started =>
      rest := [FindFile(a), DropAbsent(a.(phase := Absent))];
      var s2 := Do(s1, cfg, FindFile(a));
      assert a.path !in s1.q.files && a.(phase := Absent) in s2.attempts;
      OneStep(s2, cfg, rest[1], a.id);
      TwoSteps(s1, cfg, rest[0], rest[1]);
    case Absent =>
      rest := [DropAbsent(a)];
      OneStep(s1, cfg, rest[0], a.id);
    case Uploading(_) =>
      rest := [Succeed(a)];
      OneStep(s1, cfg, rest[0], a.id);
  }

  /** An enqueue may be followed by the loss of an edit, with no later enqueue overtaking an
      attempt, if and only if it overtakes one itself. */
  lemma LossIffOvertaking(s: Sys, cfg: Config, step: Step)
    requires SysInv(s, cfg) && AllCarry(s) && Enabled(s, cfg, step) && step.DoEnqueue?
    ensures Overtakes(s, cfg, step) <==>
      exists rest :: Careful(Do(s, cfg, step), cfg, rest) && LosesIn(Do(s, cfg, step), cfg, rest)
  {
    hide SysInv, AllCarry, Do, Enabled, Careful, LosesIn, LeavesBehind;
    var s1 := Do(s, cfg, step);
    if Overtakes(s, cfg, step) {
      var a :| LeavesBehind(s, cfg, step, a);
      var rest := BehindLoses(s, cfg, step, a);
    } else {
      StepKeeps(s, cfg, step);
      StepCarries(s, cfg, step);
      forall rest | Careful(s1, cfg, rest) ensures !LosesIn(s1, cfg, rest) {
        CarefulLosesNone(s1, cfg, rest);
      }
    }
  }

  // ---- an edit that is lost ----

  /** The states a sequence of steps goes through. */
  ghost predicate Follows(ss: seq<Sys>, cfg: Config, steps: seq<Step>) {
    && |ss| == |steps| + 1
    && forall i {:trigger steps[i]} :: 0 <= i < |steps| ==>
         Enabled(ss[i], cfg, steps[i]) && ss[i + 1] == Do(ss[i], cfg, steps[i])
  }

  lemma FollowsIsRun(ss: seq<Sys>, cfg: Config, steps: seq<Step>)
    requires Follows(ss, cfg, steps) && ss[0].starting && ss[0].attempts == multiset{} && Consistent(ss[0].q, cfg.dir)
    ensures IsRun(ss, cfg)
  {
    hide Enabled, Do, Consistent;
    forall i {:trigger ss[i]} | 0 <= i < |ss| - 1 ensures Moves(ss[i], cfg, ss[i + 1]) {
      assert Enabled(ss[i], cfg, steps[i]) && ss[i + 1] == Do(ss[i], cfg, steps[i]);
    }
  }

  /** A second enqueue of a file, a second after the first, while a worker has taken up the
      first: the worker finds the first file gone and drops the job, which by then is the
      second one. */
  function Careless(cfg: Config, id: FileId, first: Path, second: Path, now: nat): (steps: seq<Step>)
    ensures |steps| == 6
  {
    var a := Attempt(id, SafePath(cfg.dir, id, now), Started);
    [DoEnqueue(id, first, false, None, None, now), DoSubmit(id), TakeTask(id),
     DoEnqueue(id, second, false, None, None, now + 1), FindFile(a), DropAbsent(a.(phase := Absent))]
  }

  /** In such a run nothing is ever uploaded, and the second edit ends up in a file that no
      job knows of. */
  lemma LostEditRun(s: Sys, cfg: Config, id: FileId, first: Path, second: Path, now: nat) returns (ss: seq<Sys>)
    requires s.starting && s.attempts == multiset{} && Consistent(s.q, cfg.dir) && ValidId(id) && id !in s.q.jobs
    requires first in s.q.files && second in s.q.files && first != second
    requires !IsUploadPath(cfg.dir, first) && !IsUploadPath(cfg.dir, second)
    ensures ss != [] && ss[0] == s && IsRun(ss, cfg) && Follows(ss, cfg, Careless(cfg, id, first, second, now))
    ensures var last, safe := ss[6].q, SafePath(cfg.dir, id, now + 1);
      id !in last.jobs && last.saved == last.jobs && safe in last.files && last.files[safe] == s.q.files[second]
  {
    hide SafePath, PathOf, IsUploadPath, Do, Enabled, Consistent, ValidId;
    var steps := Careless(cfg, id, first, second, now);
    var s1, s2, s3 := FirstTaken(s, cfg, id, first, second, now);
    var s4, s5, s6 := SecondDropped(s3, cfg, id, first, second, now);
    ss := [s, s1, s2, s3, s4, s5, s6];
    FollowsIsRun(ss, cfg, steps);
  }

  /** The first edit is queued, and a worker takes it up. */
  lemma FirstTaken(s: Sys, cfg: Config, id: FileId, first: Path, second: Path, now: nat)
    returns (s1: Sys, s2: Sys, s3: Sys)
    requires first in s.q.files && second in s.q.files && first != second && ValidId(id) && id !in s.q.jobs
    requires !IsUploadPath(cfg.dir, first) && !IsUploadPath(cfg.dir, second)
    ensures var steps := Careless(cfg, id, first, second, now);
      && Enabled(s, cfg, steps[0]) && s1 == Do(s, cfg, steps[0])
      && Enabled(s1, cfg, steps[1]) && s2 == Do(s1, cfg, steps[1])
      && Enabled(s2, cfg, steps[2]) && s3 == Do(s2, cfg, steps[2])
    ensures id in s3.q.jobs && s3.q.jobs[id].path == SafePath(cfg.dir, id, now)
    ensures second in s3.q.files && s3.q.files[second] == s.q.files[second]
    ensures Attempt(id, SafePath(cfg.dir, id, now), Started) in s3.attempts
  {
    Upload(cfg.dir, id, now);
    hide SafePath, PathOf, Active, IsUploadPath;
    var steps := Careless(cfg, id, first, second, now);
    s1 := Do(s, cfg, steps[0]);
    s2 := Do(s1, cfg, steps[1]);
    s3 := Do(s2, cfg, steps[2]);
  }

  /** The second edit is queued, and the worker drops it. */
  lemma SecondDropped(s: Sys, cfg: Config, id: FileId, first: Path, second: Path, now: nat)
    returns (s1: Sys, s2: Sys, s3: Sys)
    requires second in s.q.files && ValidId(id) && !IsUploadPath(cfg.dir, second)
    requires id in s.q.jobs && s.q.jobs[id].path == SafePath(cfg.dir, id, now)
    requires Attempt(id, SafePath(cfg.dir, id, now), Started) in s.attempts
    ensures var steps := Careless(cfg, id, first, second, now);
      && Enabled(s, cfg, steps[3]) && s1 == Do(s, cfg, steps[3])
      && Enabled(s1, cfg, steps[4]) && s2 == Do(s1, cfg, steps[4])
      && Enabled(s2, cfg, steps[5]) && s3 == Do(s2, cfg, steps[5])
    ensures var safe := SafePath(cfg.dir, id, now + 1);
      id !in s3.q.jobs && s3.q.saved == s3.q.jobs && safe in s3.q.files && s3.q.files[safe] == s.q.files[second]
  {
    if SafePath(cfg.dir, id, now) == SafePath(cfg.dir, id, now + 1) {
      SafePathInjective(cfg.dir, id, now, id, now + 1);
    }
    hide SafePath, PathOf, Active, IsUploadPath;
    var steps := Careless(cfg, id, first, second, now);
    s1 := Do(s, cfg, steps[3]);
    s2 := Do(s1, cfg, steps[4]);
    s3 := Do(s2, cfg, steps[5]);
  }

  lemma Upload(dir: string, id: FileId, now: nat)
    requires ValidId(id)
    ensures IsUploadPath(dir, SafePath(dir, id, now))
  {
    OwnPath(dir, id, now);
  }
}
