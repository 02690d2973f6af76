/** What the file operations leave on the local disk: over every run each file is one that was
    there before, the queued copy of a file, or the temporary file of an open write handle. */
module LocalFiles {
  import opened FileContents
  import opened UploadQueues
  import opened FuseFiles
  import opened FuseSteps
  import OF = OpenFiles

  ghost predicate Tidy(c: Conc, base: set<Path>) {
    forall p :: p in c.files ==> p in base || IsQueued(c, p) || IsTemp(c, p)
  }

  ghost predicate IsQueued(c: Conc, p: Path) {
    exists id :: id in c.queue && c.queue[id].path == p
  }

  ghost predicate IsTemp(c: Conc, p: Path) {
    exists fd :: IsWriter(c, fd) && c.open[fd].temp == p
  }

  /** The queue and the temporary names are the same, and no file is new. */
  lemma SameOwners(c: Conc, c': Conc, base: set<Path>)
    requires Tidy(c, base) && c'.queue == c.queue && c'.files.Keys <= c.files.Keys
    requires forall fd :: IsWriter(c, fd) ==> IsWriter(c', fd) && c'.open[fd].temp == c.open[fd].temp
    ensures Tidy(c', base)
  {
    forall p | p in c'.files ensures p in base || IsQueued(c', p) || IsTemp(c', p) {
      if fd :| IsWriter(c, fd) && c.open[fd].temp == p {
        assert IsWriter(c', fd) && c'.open[fd].temp == p;
      }
    }
  }

  lemma TouchTidy(c: Conc, dir: string, fd: nat, data: Bytes, position: nat)
    requires Ok(c, dir) && IsWriter(c, fd)
    ensures Touch(c, fd).files.Keys == c.files.Keys && Rewritten(c, fd, data, position).files.Keys == c.files.Keys
  {
    hide JobsOk, SizesOk, IsUploadPath, WriteAt;
    assert InfoOk(c, dir, fd);
  }

  lemma OpenTidy(c: Conc, step: Action, out: OF.Out, c': Conc, cfg: Setup, base: set<Path>)
    requires Inv(c, cfg) && step.DoOpen? && Acts(c, step, out, c', cfg) && Tidy(c, base)
    ensures Tidy(c', base)
  {
    hide JobsOk, SizesOk, IsUploadPath, LayersOk, ValidId;
    forall fd | fd in c.open ensures fd < c.nextFd {
      assert InfoOk(c, cfg.dir, fd);
    }
    forall p | p in c'.files ensures p in base || IsQueued(c', p) || IsTemp(c', p) {
      if p !in c.files {
        assert IsWriter(c', c.nextFd) && c'.open[c.nextFd].temp == p;
      } else if fd :| IsWriter(c, fd) && c.open[fd].temp == p {
        assert IsWriter(c', fd) && c'.open[fd].temp == p;
      } else if id :| id in c.queue && c.queue[id].path == p {
        assert id in c'.queue && c'.queue[id].path == p;
      }
    }
  }

  lemma ReleaseTidy(c: Conc, step: Action, out: OF.Out, c': Conc, cfg: Setup, base: set<Path>)
    requires Inv(c, cfg) && step.DoRelease? && Acts(c, step, out, c', cfg) && Tidy(c, base)
    ensures Tidy(c', base) && (IsWriter(c, step.fd) ==> c.open[step.fd].temp !in c'.files)
  {
    hide JobsOk, SizesOk, LayersOk, SafePath, Active, PathOf;
    if IsWriter(c, step.fd) {
      assert InfoOk(c, cfg.dir, step.fd);
      var h := c.open[step.fd];
      OwnUploadPath(c, cfg, h.id, step.now);
      hide IsUploadPath, Inv;
      forall p | p in c'.files ensures p in base || IsQueued(c', p) || IsTemp(c', p) {
        if h.modified && p == SafePath(cfg.dir, h.id, step.now) {
          assert h.id in c'.queue && c'.queue[h.id].path == p;
        } else if id :| id in c.queue && c.queue[id].path == p {
          assert id in c'.queue && c'.queue[id].path == p;
        } else if fd :| IsWriter(c, fd) && c.open[fd].temp == p {
          assert IsWriter(c', fd) && c'.open[fd].temp == p;
        }
      }
    } else {
      SameOwners(c, c', base);
    }
  }

  lemma OwnUploadPath(c: Conc, cfg: Setup, id: FileId, now: nat)
    requires Inv(c, cfg) && id in c.remote
    ensures IsUploadPath(cfg.dir, SafePath(cfg.dir, id, now))
  {
    OwnPath(cfg.dir, id, now);
    assert PathOf(cfg.dir, id, SafePath(cfg.dir, id, now));
  }

  lemma UploadTidy(c: Conc, step: Action, out: OF.Out, c': Conc, cfg: Setup, base: set<Path>)
    requires Inv(c, cfg) && step.DoUpload? && Acts(c, step, out, c', cfg) && Tidy(c, base)
    ensures Tidy(c', base)
    ensures step.outcome == Uploaded ==> step.id in c.queue && c.queue[step.id].path !in c'.files
  {
    QueuedFiles(c, cfg.dir, step.id);
    hide JobsOk, SizesOk, LayersOk, Active, PathOf, IsUploadPath, Inv;
    forall p | p in c'.files ensures p in base || IsQueued(c', p) || IsTemp(c', p) {
      if id :| id in c.queue && c.queue[id].path == p {
        assert id in c'.queue && c'.queue[id].path == p;
      } else if fd :| IsWriter(c, fd) && c.open[fd].temp == p {
        assert IsWriter(c', fd) && c'.open[fd].temp == p;
      }
    }
  }

  lemma ActsTidy(c: Conc, step: Action, out: OF.Out, c': Conc, cfg: Setup, base: set<Path>)
    requires Inv(c, cfg) && Acts(c, step, out, c', cfg) && Tidy(c, base)
    ensures Tidy(c', base)
  {
    hide Ok, LayersOk, ValidId, Tidy, Opens, Uploads, Releases, Touch, Rewritten, ReadsShared, Fills, MayFail;
    match step
    case DoOpen(_, _, _, _) => OpenTidy(c, step, out, c', cfg, base);
    case DoRelease(_, _) => ReleaseTidy(c, step, out, c', cfg, base);
    case DoUpload(_, _, _) => UploadTidy(c, step, out, c', cfg, base);
    case DoRead(fd, _, _, _) => HandleTidy(c, step, out, c', cfg, fd, base);
    case DoWrite(fd, _, _) => HandleTidy(c, step, out, c', cfg, fd, base);
    case DoTruncate(fd, _) => HandleTidy(c, step, out, c', cfg, fd, base);
    case _ => SameOwners(c, c', base);
  }

  lemma HandleTidy(c: Conc, step: Action, out: OF.Out, c': Conc, cfg: Setup, fd: nat, base: set<Path>)
    requires Inv(c, cfg) && Acts(c, step, out, c', cfg) && Tidy(c, base)
    requires (step.DoRead? || step.DoWrite? || step.DoTruncate?) && step.fd == fd
    ensures Tidy(c', base)
  {
    hide Inv, Acts, Tidy;
    if step.DoRead? {
      ReadFrame(c, step, out, c', cfg);
    } else if step.DoWrite? {
      WriteFrame(c, step, out, c', cfg);
    } else {
      TruncateFrame(c, step, out, c', cfg);
    }
    SameOwners(c, c', base);
  }

  ghost predicate SameFrame(c: Conc, c': Conc) {
    && c'.queue == c.queue && c'.files.Keys == c.files.Keys
    && forall fd :: IsWriter(c, fd) ==> IsWriter(c', fd) && c'.open[fd].temp == c.open[fd].temp
  }

  lemma ReadFrame(c: Conc, step: Action, out: OF.Out, c': Conc, cfg: Setup)
    requires Inv(c, cfg) && step.DoRead? && Acts(c, step, out, c', cfg)
    ensures SameFrame(c, c')
  {
    hide Ok, LayersOk, ValidId, Slice, Touch, ReadsShared;
    if IsWriter(c, step.fd) {
      TouchFrame(c, cfg.dir, step.fd);
    } else if step.fd in c.open {
      SharedFrame(c, step, c.open[step.fd].id, out, c', cfg.chunkSize);
    }
  }

  lemma TouchFrame(c: Conc, dir: string, fd: nat)
    requires Ok(c, dir) && IsWriter(c, fd)
    ensures SameFrame(c, Touch(c, fd))
  {
    TouchTidy(c, dir, fd, [], 0);
    hide Ok, Fetch, WriteAt;
  }

  lemma SharedFrame(c: Conc, step: Action, id: FileId, out: OF.Out, c': Conc, size: nat)
    requires step.DoRead? && ReadsShared(c, step, id, out, c', size)
    ensures SameFrame(c, c')
  {
    hide Slice, Fills, RangeServed, Joined, HasQueuedFile;
  }

  lemma WriteFrame(c: Conc, step: Action, out: OF.Out, c': Conc, cfg: Setup)
    requires Inv(c, cfg) && step.DoWrite? && Acts(c, step, out, c', cfg)
    ensures SameFrame(c, c')
  {
    hide Ok, LayersOk, ValidId, WriteAt, Fetch;
    if IsWriter(c, step.fd) {
      var data := WriteAt(FileAt(Touch(c, step.fd), c.open[step.fd].temp), step.offset, step.data);
      TouchTidy(c, cfg.dir, step.fd, data, step.offset + |step.data|);
    }
  }

  lemma TruncateFrame(c: Conc, step: Action, out: OF.Out, c': Conc, cfg: Setup)
    requires Inv(c, cfg) && step.DoTruncate? && Acts(c, step, out, c', cfg)
    ensures SameFrame(c, c')
  {
    hide Ok, LayersOk, ValidId, WriteAt, Resize, Fetch;
    if IsWriter(c, step.fd) {
      var c1 := Touch(c, step.fd);
      var data := Resize(FileAt(c1, c.open[step.fd].temp), step.size);
      TouchTidy(c, cfg.dir, step.fd, data, c1.open[step.fd].position);
    }
  }

  /** Over every run from any state nothing else is ever left behind: with no handle open and
      nothing queued only files that were there before remain. */
  lemma {:induction false} TidyOverRuns(
    cs: seq<Conc>, steps: seq<Action>, outs: seq<OF.Out>, cfg: Setup, base: set<Path>)
    requires IsServiceRun(cs, steps, outs, cfg) && Tidy(cs[0], base)
    ensures var last := cs[|steps|];
      Tidy(last, base) && (last.open == map[] && last.queue == map[] ==> last.files.Keys <= base)
    decreases |steps|
  {
    hide Acts, Inv, IsServiceRun;
    if steps != [] {
      RunTail(cs, steps, outs, cfg);
      RunHead(cs, steps, outs, cfg);
      ActsTidy(cs[0], steps[0], outs[0], cs[1], cfg, base);
      TidyOverRuns(cs[1..], steps[1..], outs[1..], cfg, base);
    }
    RunHead(cs, steps, outs, cfg);
  }

  lemma RunHead(cs: seq<Conc>, steps: seq<Action>, outs: seq<OF.Out>, cfg: Setup)
    requires IsServiceRun(cs, steps, outs, cfg)
    ensures |cs| == |steps| + 1 && |outs| == |steps| && Inv(cs[0], cfg)
  {}
}
