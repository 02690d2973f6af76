/** The lock manager as a concurrent step system: any number of threads and keys, both
    modes, each thread nesting its lock calls.  Ownership of the lock object, its record
    in the allocations, and the awaited key change in separate steps. */
module LockSystem {
  import opened FiniteSets
  import opened RWLocks
  import opened LockTables

  /** Where a lock call stands.
      GotRef: reference counted, cycle check still to run.   Raised: the check refused it.
      Registered: wait recorded, acquire not entered.        Blocked: inside the wait loop.
      Acquired: owns the lock object, unrecorded.            Counted: `active_locks` raised.
      InBody: ownership recorded, the body runs.             Derecorded: record removed.
      Uncounted: `active_locks` lowered, still the owner.    Released: lock object released.
      Unwaited: awaited key popped again, reference not yet dropped. */
  datatype Pc = GotRef | Raised | Registered | Blocked | Acquired | Counted | InBody
              | Derecorded | Uncounted | Released | Unwaited

  type LockId = nat

  /** A call is named by its thread and its nesting depth. */
  type CallId = (Tid, nat)

  datatype Call = Call(key: Key, mode: Mode, lock: LockId, pc: Pc)

  datatype State = State(
    tab: Table<LockId>, heap: map<LockId, RW>, depth: map<Tid, nat>, calls: map<CallId, Call>, active: int)

  const INIT: State := State(Table(map[], map[], map[], map[]), map[], map[], map[], 0)

  function Depth(s: State, t: Tid): nat {
    if t in s.depth then s.depth[t] else 0
  }

  /** The innermost call of a thread: the only one that is not in its body. */
  function Top(s: State, t: Tid): CallId
    requires Depth(s, t) > 0
  {
    (t, Depth(s, t) - 1)
  }

  predicate Owning(pc: Pc) {
    pc == Acquired || pc == Counted || pc == InBody || pc == Derecorded || pc == Uncounted
  }

  predicate Waiting(pc: Pc) {
    pc == Registered || pc == Blocked
  }

  predicate WaitRecorded(pc: Pc) {
    pc == Registered || pc == Blocked || pc == Acquired || pc == Counted
  }

  predicate CountedActive(pc: Pc) {
    pc == Counted || pc == InBody || pc == Derecorded
  }

  // ---- steps ----

  predicate Idle(s: State, t: Tid) {
    Depth(s, t) == 0 || (Top(s, t) in s.calls && s.calls[Top(s, t)].pc == InBody)
  }

  /** `_get_lock`, opening a call inside the current body, if any.  `id` names the lock
      object that is created when the key has none. */
  function Begin(s: State, t: Tid, key: Key, mode: Mode, id: LockId): State {
    var tab := GetLock(s.tab, key, id);
    s.(tab := tab,
       heap := if key in s.tab.locks then s.heap else s.heap[id := FRESH_LOCK],
       depth := s.depth[t := Depth(s, t) + 1],
       calls := s.calls[(t, Depth(s, t)) := Call(key, mode, tab.locks[key], GotRef)])
  }

  predicate CanRun(s: State, t: Tid) {
    && Depth(s, t) > 0 && Top(s, t) in s.calls
    && var c := s.calls[Top(s, t)];
    && c.lock in s.heap
    && (c.pc == Blocked ==> t !in s.heap[c.lock].sleepers)
  }

  function Goto(s: State, t: Tid, pc: Pc): State
    requires CanRun(s, t)
  {
    s.(calls := s.calls[Top(s, t) := s.calls[Top(s, t)].(pc := pc)])
  }

  function Pop(s: State, t: Tid): State
    requires CanRun(s, t)
  {
    s.(tab := ReleaseRef(s.tab, s.calls[Top(s, t)].key),
       depth := s.depth[t := Depth(s, t) - 1],
       calls := s.calls - {Top(s, t)})
  }

  /** The next step of a thread's innermost call; from its body, that is the exit. */
  ghost function Run(s: State, t: Tid): State
    requires CanRun(s, t)
  {
    var c := s.calls[Top(s, t)];
    match c.pc
    case GotRef =>
      if Raises(s.tab, t, c.key, c.mode == Exclusive) then Goto(s, t, Raised)
      else Goto(s, t, Registered).(tab := Register(s.tab, t, c.key))
    case Raised => Pop(s, t)
    case Registered => Acquire(s, t, true)
    case Blocked => Acquire(s, t, false)
    case Acquired => Goto(s, t, Counted).(active := s.active + 1)
    case Counted => Goto(s, t, InBody).(tab := Record(s.tab, t, c.key))
    case InBody => Goto(s, t, Derecorded).(tab := Derecord(s.tab, t, c.key))
    case Derecorded => Goto(s, t, Uncounted).(active := s.active - 1)
    case Uncounted => Goto(s, t, Released).(heap := s.heap[c.lock := Release(s.heap[c.lock], c.mode)])
    case Released => Goto(s, t, Unwaited).(tab := Unwait(s.tab, t))
    case Unwaited => Pop(s, t)
  }

  function Acquire(s: State, t: Tid, first: bool): State
    requires CanRun(s, t)
  {
    var c := s.calls[Top(s, t)];
    var (l, got) := Attempt(s.heap[c.lock], t, c.mode, first);
    Goto(s, t, if got then Acquired else Blocked).(heap := s.heap[c.lock := l])
  }

  ghost predicate Next(s: State, s': State) {
    || (exists t: Tid, key: Key, mode: Mode, id: LockId :: BeginStep(s, t, key, mode, id, s'))
    || (exists t: Tid :: RunStep(s, t, s'))
  }

  ghost predicate BeginStep(s: State, t: Tid, key: Key, mode: Mode, id: LockId, s': State) {
    Idle(s, t) && id !in s.heap && s' == Begin(s, t, key, mode, id)
  }

  ghost predicate RunStep(s: State, t: Tid, s': State) {
    CanRun(s, t) && s' == Run(s, t)
  }

  ghost predicate IsRun(ss: seq<State>) {
    && |ss| > 0 && ss[0] == INIT
    && forall i {:trigger ss[i]} :: 0 <= i < |ss| - 1 ==> Next(ss[i], ss[i + 1])
  }

  // ---- counting calls ----

  datatype Kind = OfKey(key: Key) | Holds(key: Key, mode: Mode) | WriteWait(key: Key)
                | Recorded(key: Key, t: Tid) | Live

  predicate In(kind: Kind, id: CallId, c: Call) {
    match kind
    case OfKey(k) => c.key == k
    case Holds(k, m) => c.key == k && c.mode == m && Owning(c.pc)
    case WriteWait(k) => c.key == k && c.mode == Exclusive && c.pc == Blocked
    case Recorded(k, t) => c.key == k && id.0 == t && c.pc == InBody
    case Live => CountedActive(c.pc)
  }

  ghost function Members(calls: map<CallId, Call>, kind: Kind): set<CallId> {
    set id | id in calls && In(kind, id, calls[id])
  }

  ghost function Num(calls: map<CallId, Call>, kind: Kind): nat {
    |Members(calls, kind)|
  }

  function Bit(b: bool): int { if b then 1 else 0 }

  lemma NumPut(calls: map<CallId, Call>, id: CallId, c: Call, kind: Kind)
    ensures Num(calls[id := c], kind)
         == Num(calls, kind) - Bit(id in calls && In(kind, id, calls[id])) + Bit(In(kind, id, c))
  {
    hide In;
    var before, after := Members(calls, kind), Members(calls[id := c], kind);
    assert after - {id} == before - {id} by {
      forall x ensures x in after - {id} <==> x in before - {id} {
        if x != id {
          assert x in calls[id := c] <==> x in calls;
        }
      }
    }
    CardWithout(before, id);
    CardWithout(after, id);
  }

  lemma NumDrop(calls: map<CallId, Call>, id: CallId, kind: Kind)
    ensures Num(calls - {id}, kind) == Num(calls, kind) - Bit(id in calls && In(kind, id, calls[id]))
  {
    hide In;
    assert Members(calls - {id}, kind) == Members(calls, kind) - {id};
    CardWithout(Members(calls, kind), id);
  }

  // ---- the invariant ----

  /** Calls nest: below the innermost call of a thread all are in their bodies. */
  ghost predicate Nested(s: State) {
    && (forall id: CallId :: id in s.calls <==> id.1 < Depth(s, id.0))
    && (forall id: CallId :: id in s.calls && id.1 + 1 < Depth(s, id.0) ==> s.calls[id].pc == InBody)
  }

  /** References count the open calls of a key, which all use the key's one lock object. */
  ghost predicate RefsExact(s: State) {
    && (forall k: Key :: k in s.tab.locks <==> k in s.tab.refs)
    && (forall k: Key :: Refs(s.tab, k) == Num(s.calls, OfKey(k)))
    && (forall k: Key :: k in s.tab.refs ==> s.tab.refs[k] > 0)
    && (forall id :: id in s.calls ==>
          s.calls[id].key in s.tab.locks && s.calls[id].lock == s.tab.locks[s.calls[id].key])
  }

  ghost predicate HeapOk(s: State) {
    && (forall k :: k in s.tab.locks ==> s.tab.locks[k] in s.heap)
    && (forall j, k :: j in s.tab.locks && k in s.tab.locks && s.tab.locks[j] == s.tab.locks[k] ==> j == k)
  }

  /** The counters of a key's lock object are the holders and the waiting writers. */
  ghost predicate CountersExact(s: State, k: Key)
    requires k in s.tab.locks && s.tab.locks[k] in s.heap
  {
    var l := s.heap[s.tab.locks[k]];
    && l.readers == Num(s.calls, Holds(k, Shared))
    && l.writers == Num(s.calls, Holds(k, Exclusive))
    && l.requests == Num(s.calls, WriteWait(k))
    && (l.writers > 0 ==> l.writers == 1 && l.readers == 0)
  }

  /** No lost wake-up: whoever sleeps on a key's lock object still has a reason to. */
  ghost predicate SleepersJustified(s: State, k: Key)
    requires k in s.tab.locks && s.tab.locks[k] in s.heap
  {
    var l := s.heap[s.tab.locks[k]];
    forall t :: t in l.sleepers ==>
      && Depth(s, t) > 0 && Top(s, t) in s.calls
      && var c := s.calls[Top(s, t)];
      && c.key == k && c.pc == Blocked && l.Blocks(c.mode)
  }

  ghost predicate LocksExact(s: State)
    requires HeapOk(s)
  {
    forall k :: k in s.tab.locks ==> CountersExact(s, k) && SleepersJustified(s, k)
  }

  /** The recorded allocations count exactly the calls in their bodies. */
  ghost predicate AllocExact(s: State) {
    && (forall k: Key, t: Tid :: OwnCount(s.tab, k, t) == Num(s.calls, Recorded(k, t)))
    && (forall k: Key, t: Tid :: t in Owners(s.tab, k) ==> Owners(s.tab, k)[t] > 0)
  }

  /** A thread is recorded as waiting from its check to the record of its ownership. */
  ghost predicate WaitExact(s: State) {
    forall t: Tid :: WaitAt(s, t)
  }

  ghost predicate WaitAt(s: State, t: Tid) {
    if Depth(s, t) > 0 && Top(s, t) in s.calls && WaitRecorded(s.calls[Top(s, t)].pc)
    then t in s.tab.waiting && s.tab.waiting[t] == s.calls[Top(s, t)].key
    else t !in s.tab.waiting
  }

  ghost predicate Inv(s: State) {
    && Nested(s) && RefsExact(s) && HeapOk(s) && LocksExact(s) && AllocExact(s) && WaitExact(s)
    && s.active == Num(s.calls, Live)
  }

  // ---- every step keeps it ----

  /** `s'` differs from `s` in the place of one call, tables and lock objects apart. */
  ghost predicate Moves(s: State, t: Tid, pc: Pc, s': State) {
    CanRun(s, t) && s'.depth == s.depth && s'.calls == Goto(s, t, pc).calls
  }

  function Was(s: State, t: Tid): Call
    requires CanRun(s, t)
  {
    s.calls[Top(s, t)]
  }

  function Is(s: State, t: Tid, pc: Pc): Call
    requires CanRun(s, t)
  {
    s.calls[Top(s, t)].(pc := pc)
  }

  lemma MoveCounts(s: State, t: Tid, pc: Pc, s': State, kind: Kind)
    requires Moves(s, t, pc, s')
    ensures Num(s'.calls, kind) ==
      Num(s.calls, kind) - Bit(In(kind, Top(s, t), Was(s, t))) + Bit(In(kind, Top(s, t), Is(s, t, pc)))
  {
    NumPut(s.calls, Top(s, t), Is(s, t, pc), kind);
  }

  lemma MoveNested(s: State, t: Tid, pc: Pc, s': State)
    requires Moves(s, t, pc, s') && Nested(s)
    ensures Nested(s')
  {}

  lemma MoveRefs(s: State, t: Tid, pc: Pc, s': State)
    requires Moves(s, t, pc, s') && RefsExact(s) && HeapOk(s)
    requires s'.tab.locks == s.tab.locks && s'.tab.refs == s.tab.refs && s'.heap.Keys == s.heap.Keys
    ensures RefsExact(s') && HeapOk(s')
  {
    forall k: Key ensures Refs(s'.tab, k) == Num(s'.calls, OfKey(k)) {
      MoveCounts(s, t, pc, s', OfKey(k));
    }
  }

  /** A key whose lock object is untouched by the step and none of whose calls takes it,
      gives it up or enters or leaves the wait loop. */
  lemma FrameKey(s: State, t: Tid, pc: Pc, s': State, k: Key)
    requires Moves(s, t, pc, s') && Nested(s) && HeapOk(s) && HeapOk(s') && k in s.tab.locks
    requires s'.tab.locks == s.tab.locks && s'.heap[s.tab.locks[k]] == s.heap[s.tab.locks[k]]
    requires Was(s, t).key == k ==>
      Owning(pc) == Owning(Was(s, t).pc) && pc != Blocked && Was(s, t).pc != Blocked
    requires CountersExact(s, k) && SleepersJustified(s, k)
    ensures CountersExact(s', k) && SleepersJustified(s', k)
  {
    hide Num;
    MoveCounts(s, t, pc, s', Holds(k, Shared));
    MoveCounts(s, t, pc, s', Holds(k, Exclusive));
    MoveCounts(s, t, pc, s', WriteWait(k));
  }

  /** Steps that neither take nor give up a lock object. */
  lemma MoveLocks(s: State, t: Tid, pc: Pc, s': State)
    requires Moves(s, t, pc, s') && Nested(s) && HeapOk(s) && LocksExact(s)
    requires s'.tab.locks == s.tab.locks && s'.heap == s.heap
    requires Owning(pc) == Owning(Was(s, t).pc) && pc != Blocked && Was(s, t).pc != Blocked
    ensures HeapOk(s') && LocksExact(s')
  {
    hide CountersExact, SleepersJustified, Nested;
    forall k | k in s'.tab.locks ensures CountersExact(s', k) && SleepersJustified(s', k) {
      FrameKey(s, t, pc, s', k);
    }
  }

  /** Steps that take or give up the lock object of one call. */
  lemma SwitchLocks(s: State, t: Tid, pc: Pc, s': State)
    requires Moves(s, t, pc, s') && Nested(s) && RefsExact(s) && HeapOk(s) && LocksExact(s)
    requires Was(s, t).lock in s'.heap
    requires s'.tab == s.tab && s'.heap == s.heap[Was(s, t).lock := s'.heap[Was(s, t).lock]]
    requires HeapOk(s')
    requires CountersExact(s', Was(s, t).key) && SleepersJustified(s', Was(s, t).key)
    ensures LocksExact(s')
  {
    hide CountersExact, SleepersJustified, Nested, Num;
    forall k | k in s'.tab.locks ensures CountersExact(s', k) && SleepersJustified(s', k) {
      if k != Was(s, t).key {
        FrameKey(s, t, pc, s', k);
      }
    }
  }

  /** One pass through a wait loop, from the entry (Registered) or a wake-up (Blocked). */
  lemma AcquireOwnKey(s: State, t: Tid, pc: Pc, s': State, k: Key)
    requires Moves(s, t, pc, s') && Nested(s) && HeapOk(s) && HeapOk(s') && k in s.tab.locks
    requires Waiting(Was(s, t).pc) && Was(s, t).key == k && Was(s, t).lock == s.tab.locks[k]
    requires s'.tab == s.tab
    requires (s'.heap[s.tab.locks[k]], pc == Acquired)
          == Attempt(s.heap[s.tab.locks[k]], t, Was(s, t).mode, Was(s, t).pc == Registered)
    requires pc == Acquired || pc == Blocked
    requires CountersExact(s, k) && SleepersJustified(s, k)
    ensures CountersExact(s', k) && SleepersJustified(s', k)
  {
    hide Num;
    MoveCounts(s, t, pc, s', Holds(k, Shared));
    MoveCounts(s, t, pc, s', Holds(k, Exclusive));
    MoveCounts(s, t, pc, s', WriteWait(k));
    assert CountersExact(s', k);
    AcquireSleepers(s, t, pc, s', k);
  }

  lemma AcquireSleepers(s: State, t: Tid, pc: Pc, s': State, k: Key)
    requires Moves(s, t, pc, s') && Nested(s) && HeapOk(s) && HeapOk(s') && k in s.tab.locks
    requires Waiting(Was(s, t).pc) && Was(s, t).key == k && Was(s, t).lock == s.tab.locks[k]
    requires s'.tab == s.tab
    requires (s'.heap[s.tab.locks[k]], pc == Acquired)
          == Attempt(s.heap[s.tab.locks[k]], t, Was(s, t).mode, Was(s, t).pc == Registered)
    requires pc == Acquired || pc == Blocked
    requires s.heap[s.tab.locks[k]].readers >= 0 && s.heap[s.tab.locks[k]].writers >= 0
    requires s.heap[s.tab.locks[k]].requests >= 0
    requires SleepersJustified(s, k)
    ensures SleepersJustified(s', k)
  {
    var l := s'.heap[s.tab.locks[k]];
    forall u | u in l.sleepers
      ensures Depth(s', u) > 0 && Top(s', u) in s'.calls && s'.calls[Top(s', u)].key == k
        && s'.calls[Top(s', u)].pc == Blocked && l.Blocks(s'.calls[Top(s', u)].mode)
    {
      assert u == t || u in s.heap[s.tab.locks[k]].sleepers;
    }
  }

  lemma ReleaseOwnKey(s: State, t: Tid, s': State, k: Key)
    requires Moves(s, t, Released, s') && Nested(s) && HeapOk(s) && HeapOk(s') && k in s.tab.locks
    requires Was(s, t).pc == Uncounted && Was(s, t).key == k && Was(s, t).lock == s.tab.locks[k]
    requires s'.tab == s.tab
    requires s'.heap[s.tab.locks[k]] == Release(s.heap[s.tab.locks[k]], Was(s, t).mode)
    requires CountersExact(s, k) && SleepersJustified(s, k)
    ensures CountersExact(s', k) && SleepersJustified(s', k)
  {
    hide Num;
    MoveCounts(s, t, Released, s', Holds(k, Shared));
    MoveCounts(s, t, Released, s', Holds(k, Exclusive));
    MoveCounts(s, t, Released, s', WriteWait(k));
    assert CountersExact(s', k);
  }

  lemma MoveAlloc(s: State, t: Tid, pc: Pc, s': State)
    requires Moves(s, t, pc, s') && AllocExact(s)
    requires if pc == InBody && Was(s, t).pc != InBody then s'.tab == Record(s.tab, t, Was(s, t).key)
             else if pc != InBody && Was(s, t).pc == InBody then s'.tab == Derecord(s.tab, t, Was(s, t).key)
             else s'.tab.alloc == s.tab.alloc
    ensures AllocExact(s')
  {
    hide Num;
    forall k: Key, u: Tid ensures OwnCount(s'.tab, k, u) == Num(s'.calls, Recorded(k, u)) {
      MoveCounts(s, t, pc, s', Recorded(k, u));
    }
    forall k: Key, u: Tid | u in Owners(s'.tab, k) ensures Owners(s'.tab, k)[u] > 0 {
      assert u in Owners(s.tab, k) ==> Owners(s.tab, k)[u] > 0;
    }
  }

  lemma MoveWait(s: State, t: Tid, pc: Pc, s': State)
    requires Moves(s, t, pc, s') && Nested(s) && WaitExact(s)
    requires s'.tab.waiting == (
      if !WaitRecorded(pc) then s.tab.waiting - {t}
      else if WaitRecorded(Was(s, t).pc) then s.tab.waiting
      else s.tab.waiting[t := Was(s, t).key])
    ensures WaitExact(s')
  {
    forall u: Tid ensures WaitAt(s', u) {
      assert WaitAt(s, u) && Depth(s', u) == Depth(s, u);
    }
  }

  lemma MoveLive(s: State, t: Tid, pc: Pc, s': State)
    requires Moves(s, t, pc, s') && s.active == Num(s.calls, Live)
    requires s'.active == s.active - Bit(CountedActive(Was(s, t).pc)) + Bit(CountedActive(pc))
    ensures s'.active == Num(s'.calls, Live)
  {
    MoveCounts(s, t, pc, s', Live);
  }

  /** What every step but the first and last of a call has in common. */
  lemma MoveTables(s: State, t: Tid, pc: Pc, s': State)
    requires Inv(s) && Moves(s, t, pc, s')
    requires s'.tab.locks == s.tab.locks && s'.tab.refs == s.tab.refs && s'.heap.Keys == s.heap.Keys
    requires if pc == InBody && Was(s, t).pc != InBody then s'.tab == Record(s.tab, t, Was(s, t).key)
             else if pc != InBody && Was(s, t).pc == InBody then s'.tab == Derecord(s.tab, t, Was(s, t).key)
             else s'.tab.alloc == s.tab.alloc
    requires s'.tab.waiting == (
      if !WaitRecorded(pc) then s.tab.waiting - {t}
      else if WaitRecorded(Was(s, t).pc) then s.tab.waiting
      else s.tab.waiting[t := Was(s, t).key])
    requires s'.active == s.active - Bit(CountedActive(Was(s, t).pc)) + Bit(CountedActive(pc))
    ensures HeapOk(s') && (LocksExact(s') ==> Inv(s'))
  {
    hide Num, Nested, RefsExact, LocksExact, AllocExact, WaitExact, Moves;
    MoveNested(s, t, pc, s');
    MoveRefs(s, t, pc, s');
    MoveAlloc(s, t, pc, s');
    MoveWait(s, t, pc, s');
    MoveLive(s, t, pc, s');
  }

  lemma NotWaiting(s: State, t: Tid)
    requires WaitExact(s) && CanRun(s, t) && !WaitRecorded(Was(s, t).pc)
    ensures t !in s.tab.waiting && s.tab.waiting - {t} == s.tab.waiting
  {
    assert WaitAt(s, t);
  }

  lemma AcquireKeeps(s: State, t: Tid)
    requires Inv(s) && CanRun(s, t) && Waiting(Was(s, t).pc)
    ensures Inv(Run(s, t))
  {
    hide Num, Nested, LocksExact, AllocExact, WaitExact, CountersExact, SleepersJustified, Attempt;
    var s', c := Run(s, t), Was(s, t);
    var pc := s'.calls[Top(s, t)].pc;
    assert Moves(s, t, pc, s');
    assert s'.heap.Keys == s.heap.Keys;
    MoveTables(s, t, pc, s');
    LocksAt(s, c.key);
    AcquireOwnKey(s, t, pc, s', c.key);
    SwitchLocks(s, t, pc, s');
  }

  lemma LocksAt(s: State, k: Key)
    requires HeapOk(s) && LocksExact(s) && k in s.tab.locks
    ensures CountersExact(s, k) && SleepersJustified(s, k)
  {}

  lemma ReleaseKeeps(s: State, t: Tid)
    requires Inv(s) && CanRun(s, t) && Was(s, t).pc == Uncounted
    ensures Inv(Run(s, t))
  {
    hide Num, Nested, LocksExact, AllocExact, WaitExact, CountersExact, SleepersJustified, Release;
    var s', c := Run(s, t), Was(s, t);
    assert Moves(s, t, Released, s');
    assert s'.heap.Keys == s.heap.Keys;
    NotWaiting(s, t);
    MoveTables(s, t, Released, s');
    LocksAt(s, c.key);
    ReleaseOwnKey(s, t, s', c.key);
    SwitchLocks(s, t, Released, s');
  }

  lemma RunKeeps(s: State, t: Tid)
    requires Inv(s) && CanRun(s, t)
    ensures Inv(Run(s, t))
  {
    hide Num, Nested, RefsExact, LocksExact, AllocExact, WaitExact;
    var s', pc := Run(s, t), Was(s, t).pc;
    if pc == Raised || pc == Unwaited {
      PopKeeps(s, t);
    } else if Waiting(pc) {
      AcquireKeeps(s, t);
    } else if pc == Uncounted {
      ReleaseKeeps(s, t);
    } else {
      var pc' := s'.calls[Top(s, t)].pc;
      assert Moves(s, t, pc', s');
      if !WaitRecorded(pc) {
        NotWaiting(s, t);
      }
      MoveTables(s, t, pc', s');
      MoveLocks(s, t, pc', s');
    }
  }

  lemma PopNested(s: State, t: Tid)
    requires Nested(s) && CanRun(s, t)
    ensures Nested(Pop(s, t))
  {
    assert forall u: Tid :: u != t ==> Depth(Pop(s, t), u) == Depth(s, u);
  }

  lemma PopRefs(s: State, t: Tid)
    requires Nested(s) && RefsExact(s) && HeapOk(s) && CanRun(s, t)
    ensures RefsExact(Pop(s, t)) && HeapOk(Pop(s, t))
  {
    hide Num;
    var s' := Pop(s, t);
    forall k: Key ensures Refs(s'.tab, k) == Num(s'.calls, OfKey(k)) {
      NumDrop(s.calls, Top(s, t), OfKey(k));
    }
    forall id | id in s'.calls ensures s'.calls[id].key in s'.tab.locks {
      MemberCounted(s'.calls, id, OfKey(s'.calls[id].key));
    }
  }

  lemma MemberCounted(calls: map<CallId, Call>, id: CallId, kind: Kind)
    requires id in calls && In(kind, id, calls[id])
    ensures Num(calls, kind) > 0
  {
    assert id in Members(calls, kind);
  }

  lemma PopKey(s: State, t: Tid, k: Key)
    requires Nested(s) && HeapOk(s) && CanRun(s, t) && k in s.tab.locks && HeapOk(Pop(s, t))
    requires Was(s, t).pc == Raised || Was(s, t).pc == Unwaited
    requires k in Pop(s, t).tab.locks
    requires CountersExact(s, k) && SleepersJustified(s, k)
    ensures CountersExact(Pop(s, t), k) && SleepersJustified(Pop(s, t), k)
  {
    hide Num;
    NumDrop(s.calls, Top(s, t), Holds(k, Shared));
    NumDrop(s.calls, Top(s, t), Holds(k, Exclusive));
    NumDrop(s.calls, Top(s, t), WriteWait(k));
  }

  lemma PopAlloc(s: State, t: Tid)
    requires AllocExact(s) && CanRun(s, t) && Was(s, t).pc != InBody
    ensures AllocExact(Pop(s, t))
  {
    hide Num;
    var s' := Pop(s, t);
    assert forall k: Key :: Owners(s'.tab, k) == Owners(s.tab, k);
    forall k: Key, u: Tid ensures OwnCount(s'.tab, k, u) == Num(s'.calls, Recorded(k, u)) {
      NumDrop(s.calls, Top(s, t), Recorded(k, u));
    }
  }

  lemma PopWait(s: State, t: Tid)
    requires Nested(s) && WaitExact(s) && CanRun(s, t) && !WaitRecorded(Was(s, t).pc)
    ensures WaitExact(Pop(s, t))
  {
    var s' := Pop(s, t);
    forall u: Tid ensures WaitAt(s', u) {
      assert WaitAt(s, u) && (u != t ==> Depth(s', u) == Depth(s, u));
    }
  }

  lemma PopKeeps(s: State, t: Tid)
    requires Inv(s) && CanRun(s, t) && (Was(s, t).pc == Raised || Was(s, t).pc == Unwaited)
    ensures Inv(Pop(s, t))
  {
    hide Num, Nested, RefsExact, AllocExact, WaitExact, CountersExact, SleepersJustified;
    var s' := Pop(s, t);
    PopNested(s, t);
    PopRefs(s, t);
    forall k | k in s'.tab.locks ensures CountersExact(s', k) && SleepersJustified(s', k) {
      PopKey(s, t, k);
    }
    PopAlloc(s, t);
    PopWait(s, t);
    NumDrop(s.calls, Top(s, t), Live);
  }

  lemma BeginNested(s: State, t: Tid, key: Key, mode: Mode, id: LockId)
    requires Nested(s) && Idle(s, t)
    ensures Nested(Begin(s, t, key, mode, id))
  {
    hide GetLock;
    assert forall u: Tid :: u != t ==> Depth(Begin(s, t, key, mode, id), u) == Depth(s, u);
  }

  lemma BeginHeap(s: State, t: Tid, key: Key, mode: Mode, id: LockId)
    requires HeapOk(s) && id !in s.heap
    ensures HeapOk(Begin(s, t, key, mode, id))
  {}

  lemma BeginRefs(s: State, t: Tid, key: Key, mode: Mode, id: LockId)
    requires Nested(s) && RefsExact(s)
    ensures RefsExact(Begin(s, t, key, mode, id))
  {
    hide Num;
    var s', top := Begin(s, t, key, mode, id), (t, Depth(s, t));
    forall k: Key ensures Refs(s'.tab, k) == Num(s'.calls, OfKey(k)) {
      NumPut(s.calls, top, s'.calls[top], OfKey(k));
    }
  }

  lemma BeginKey(s: State, t: Tid, key: Key, mode: Mode, id: LockId, k: Key)
    requires Nested(s) && RefsExact(s) && HeapOk(s) && Idle(s, t) && id !in s.heap
    requires HeapOk(Begin(s, t, key, mode, id)) && k in Begin(s, t, key, mode, id).tab.locks
    requires k in s.tab.locks ==> CountersExact(s, k) && SleepersJustified(s, k)
    ensures CountersExact(Begin(s, t, key, mode, id), k) && SleepersJustified(Begin(s, t, key, mode, id), k)
  {
    hide Num, RefsExact;
    var s', top := Begin(s, t, key, mode, id), (t, Depth(s, t));
    NumPut(s.calls, top, s'.calls[top], Holds(k, Shared));
    NumPut(s.calls, top, s'.calls[top], Holds(k, Exclusive));
    NumPut(s.calls, top, s'.calls[top], WriteWait(k));
    TopUnused(s, t);
    if k !in s.tab.locks {
      UnusedKey(s, k);
    } else {
      assert s'.tab.locks[k] == s.tab.locks[k] && s'.heap[s.tab.locks[k]] == s.heap[s.tab.locks[k]];
    }
  }

  lemma UnusedKey(s: State, k: Key)
    requires RefsExact(s) && k !in s.tab.locks
    ensures Num(s.calls, Holds(k, Shared)) == Num(s.calls, Holds(k, Exclusive)) == Num(s.calls, WriteWait(k)) == 0
  {
    assert Members(s.calls, Holds(k, Shared)) == Members(s.calls, Holds(k, Exclusive))
        == Members(s.calls, WriteWait(k)) == {};
  }

  lemma BeginAlloc(s: State, t: Tid, key: Key, mode: Mode, id: LockId)
    requires Nested(s) && AllocExact(s)
    ensures AllocExact(Begin(s, t, key, mode, id))
  {
    hide Num;
    var s', top := Begin(s, t, key, mode, id), (t, Depth(s, t));
    assert forall k: Key :: Owners(s'.tab, k) == Owners(s.tab, k);
    forall k: Key, u: Tid ensures OwnCount(s'.tab, k, u) == Num(s'.calls, Recorded(k, u)) {
      NumPut(s.calls, top, s'.calls[top], Recorded(k, u));
    }
  }

  lemma BeginWait(s: State, t: Tid, key: Key, mode: Mode, id: LockId)
    requires Nested(s) && WaitExact(s) && Idle(s, t)
    ensures WaitExact(Begin(s, t, key, mode, id))
  {
    var s' := Begin(s, t, key, mode, id);
    forall u: Tid ensures WaitAt(s', u) {
      assert WaitAt(s, u) && (u != t ==> Depth(s', u) == Depth(s, u));
    }
  }

  lemma BeginKeeps(s: State, t: Tid, key: Key, mode: Mode, id: LockId)
    requires Inv(s) && Idle(s, t) && id !in s.heap
    ensures Inv(Begin(s, t, key, mode, id))
  {
    hide Num, Nested, RefsExact, AllocExact, WaitExact, CountersExact, SleepersJustified;
    var s', top := Begin(s, t, key, mode, id), (t, Depth(s, t));
    BeginNested(s, t, key, mode, id);
    BeginRefs(s, t, key, mode, id);
    BeginHeap(s, t, key, mode, id);
    forall k | k in s'.tab.locks ensures CountersExact(s', k) && SleepersJustified(s', k) {
      BeginKey(s, t, key, mode, id, k);
    }
    BeginAlloc(s, t, key, mode, id);
    BeginWait(s, t, key, mode, id);
    TopUnused(s, t);
    NumPut(s.calls, top, s'.calls[top], Live);
  }

  lemma TopUnused(s: State, t: Tid)
    requires Nested(s)
    ensures (t, Depth(s, t)) !in s.calls
  {}

  // ---- over every run ----

  lemma InitInv()
    ensures Inv(INIT)
  {
    assert forall kind :: Members(INIT.calls, kind) == {};
  }

  lemma NextKeeps(s: State, s': State)
    requires Inv(s) && Next(s, s')
    ensures Inv(s')
  {
    hide Inv;
    if t, key: Key, mode, id :| BeginStep(s, t, key, mode, id, s') {
      BeginKeeps(s, t, key, mode, id);
    } else {
      var t: Tid :| RunStep(s, t, s');
      RunKeeps(s, t);
    }
  }

  lemma {:induction false} RunInv(ss: seq<State>)
    requires IsRun(ss)
    ensures Inv(ss[|ss| - 1])
  {
    hide Inv, Next;
    if |ss| == 1 {
      InitInv();
    } else {
      var prefix := ss[..|ss| - 1];
      RunInv(prefix);
      assert Next(ss[|ss| - 2], ss[|ss| - 2 + 1]);
      NextKeeps(ss[|ss| - 2], ss[|ss| - 1]);
    }
  }
}
