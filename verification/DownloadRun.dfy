/** A download that takes place: the bound of SingleDownload is reached, for any chunk. */
module DownloadRun {
  import opened RWLocks
  import opened LockTables
  import opened LockSystem
  import opened SingleDownload
  import EmptyKey

  lemma Extend(ss: seq<Sys>, s: Sys)
    requires IsSysRun(ss) && ss != [] && SysNext(ss[|ss| - 1], s)
    ensures IsSysRun(ss + [s])
  {
    hide SysNext, SysInit;
    var longer := ss + [s];
    forall i {:trigger longer[i]} | 0 <= i < |longer| - 1 ensures SysNext(longer[i], longer[i + 1]) {
      if i < |ss| - 1 {
        assert SysNext(ss[i], ss[i + 1]);
      }
    }
  }

  /** The lock call of the first thread, alone, up to its body. */
  lemma Locked(key: Key) returns (a: State, b: State, c: State, d: State, e: State)
    ensures a == Begin(INIT, 1, key, Exclusive, 0)
    ensures CanRun(a, 1) && b == Run(a, 1) && Was(a, 1).pc == GotRef
    ensures CanRun(b, 1) && c == Run(b, 1) && Was(b, 1).pc == Registered
    ensures CanRun(c, 1) && d == Run(c, 1) && Was(c, 1).pc == Acquired
    ensures CanRun(d, 1) && e == Run(d, 1) && Was(d, 1).pc == Counted
    ensures CanRun(e, 1) && Was(e, 1).pc == InBody
  {
    hide Raises;
    a := Begin(INIT, 1, key, Exclusive, 0);
    EmptyKey.NothingToFollow(a.tab, 1, key);
    b := Run(a, 1);
    c := Run(b, 1);
    d := Run(c, 1);
    e := Run(d, 1);
  }

  /** With nothing in memory and the chunk not on disk, one task takes the lock, finds the
      chunk in no layer and fetches it. */
  lemma Fetches(c: Chunk, disk: set<Chunk>) returns (ss: seq<Sys>)
    requires c !in disk
    ensures IsSysRun(ss) && ss != [] && ss[0] == Sys(INIT, map[], {}, disk, multiset{})
    ensures var s := ss[|ss| - 1];
      s.fetched == multiset{c} && s.mem == {c} && s.disk == disk + {c} && s.tasks == map[1 := Task(c, Leaving)]
  {
    hide Run, Begin, BodyStep, LockStep, IsSysRun;
    ss := Enters(c, disk);
    ss := Works(ss, c);
  }

  lemma Enters(c: Chunk, disk: set<Chunk>) returns (ss: seq<Sys>)
    ensures IsSysRun(ss) && ss != [] && ss[0] == Sys(INIT, map[], {}, disk, multiset{})
    ensures ss[|ss| - 1] == Sys(ss[|ss| - 1].lt, map[1 := Task(c, CheckMem)], {}, disk, multiset{})
  {
    hide Run, Begin, BodyStep;
    var start := Sys(INIT, map[], {}, disk, multiset{});
    var l1, l2, l3, l4, l5 := Locked(ChunkKey(c));
    var s1 := Sys(l1, map[1 := Task(c, Locking)], {}, disk, multiset{});
    Begins(start, c, s1);
    ss := Longer([start], s1);
    ss := Locks(ss, s1.(lt := l2));
    ss := Locks(ss, s1.(lt := l3));
    ss := Locks(ss, s1.(lt := l4));
    ss := Locks(ss, s1.(lt := l5, tasks := map[1 := Task(c, CheckMem)]));
  }

  /** A task that has just entered its body, alone, with its chunk in no layer. */
  lemma Works(before: seq<Sys>, c: Chunk) returns (ss: seq<Sys>)
    requires IsSysRun(before) && before != []
    requires var s := before[|before| - 1];
      s.tasks == map[1 := Task(c, CheckMem)] && s.mem == {} && c !in s.disk && s.fetched == multiset{}
    ensures IsSysRun(ss) && ss != [] && ss[0] == before[0]
    ensures var s := ss[|ss| - 1];
      && s.fetched == multiset{c} && s.mem == {c} && s.disk == before[|before| - 1].disk + {c}
      && s.tasks == map[1 := Task(c, Leaving)]
  {
    hide IsSysRun;
    ss := before;
    var s := before[|before| - 1];
    ss := Body(ss, s.(tasks := map[1 := Task(c, CheckDisk)]));
    ss := Body(ss, s.(tasks := map[1 := Task(c, Fetch)]));
    ss := Body(ss, s.(tasks := map[1 := Task(c, PutFetched)], fetched := multiset{c}));
    ss := Body(ss, s.(tasks := map[1 := Task(c, WriteDisk)], fetched := multiset{c}, mem := {c}));
    ss := Body(ss, s.(tasks := map[1 := Task(c, Leaving)], fetched := multiset{c}, mem := {c}, disk := s.disk + {c}));
  }

  lemma Begins(s: Sys, c: Chunk, s': Sys)
    requires s.lt == INIT && s.tasks == map[]
    requires s' == s.(lt := Begin(INIT, 1, ChunkKey(c), Exclusive, 0), tasks := map[1 := Task(c, Locking)])
    ensures SysNext(s, s')
  {
    hide Begin, ChunkKey;
    assert Start(s, 1, c, 0, s');
  }

  lemma Longer(ss: seq<Sys>, s: Sys) returns (longer: seq<Sys>)
    requires IsSysRun(ss) && ss != [] && SysNext(ss[|ss| - 1], s)
    ensures IsSysRun(longer) && longer != [] && longer[|longer| - 1] == s && longer[0] == ss[0]
  {
    hide SysNext;
    Extend(ss, s);
    longer := ss + [s];
  }

  lemma Locks(ss: seq<Sys>, s: Sys) returns (longer: seq<Sys>)
    requires IsSysRun(ss) && ss != [] && LockStep(ss[|ss| - 1], 1, s)
    ensures IsSysRun(longer) && longer != [] && longer[|longer| - 1] == s && longer[0] == ss[0]
  {
    hide LockStep;
    longer := Longer(ss, s);
  }

  lemma Body(ss: seq<Sys>, s: Sys) returns (longer: seq<Sys>)
    requires IsSysRun(ss) && ss != [] && BodyStep(ss[|ss| - 1], 1, s)
    ensures IsSysRun(longer) && longer != [] && longer[|longer| - 1] == s && longer[0] == ss[0]
  {
    hide BodyStep;
    longer := Longer(ss, s);
  }
}
