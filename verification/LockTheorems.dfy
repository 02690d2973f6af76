/** What the lock table promises in every reachable state: exclusion in both modes although
    lock objects come and go, empty tables when nobody is inside, and no lost wake-up. */
module LockTheorems {
  import opened FiniteSets
  import opened RWLocks
  import opened LockTables
  import opened LockSystem

  ghost predicate Reached(s: State) {
    exists ss: seq<State> :: IsRun(ss) && ss[|ss| - 1] == s
  }

  lemma ReachedInv(s: State)
    requires Reached(s)
    ensures Inv(s)
  {
    var ss: seq<State> :| IsRun(ss) && ss[|ss| - 1] == s;
    RunInv(ss);
  }

  /** All calls open on one key use one lock object. */
  lemma OneLockPerKey(s: State, a: CallId, b: CallId)
    requires Reached(s) && a in s.calls && b in s.calls && s.calls[a].key == s.calls[b].key
    ensures s.calls[a].lock == s.calls[b].lock
  {
    ReachedInv(s);
  }

  lemma HolderCounted(s: State, id: CallId)
    requires Inv(s) && id in s.calls && Owning(s.calls[id].pc)
    ensures s.calls[id].lock in s.heap
    ensures s.calls[id].mode == Shared ==> s.heap[s.calls[id].lock].readers > 0
    ensures s.calls[id].mode == Exclusive ==>
      s.heap[s.calls[id].lock].writers == 1 == |Members(s.calls, Holds(s.calls[id].key, Exclusive))|
    ensures s.heap[s.calls[id].lock].writers > 0 ==> s.heap[s.calls[id].lock].readers == 0
  {
    var c := s.calls[id];
    LocksAt(s, c.key);
    assert id in Members(s.calls, Holds(c.key, c.mode));
  }

  /** A writer is alone with its key: any other holder of the key is the same call. */
  lemma Exclusion(s: State, a: CallId, b: CallId)
    requires Inv(s) && a in s.calls && b in s.calls && s.calls[a].key == s.calls[b].key
    requires Owning(s.calls[a].pc) && Owning(s.calls[b].pc) && s.calls[a].mode == Exclusive
    ensures a == b
  {
    HolderCounted(s, a);
    HolderCounted(s, b);
    var holders := Members(s.calls, Holds(s.calls[a].key, Exclusive));
    assert a in holders && b in holders;
    AtMostOne(holders, a, b);
  }

  lemma ExclusionOverRuns(s: State, a: CallId, b: CallId)
    requires Reached(s) && a in s.calls && b in s.calls && s.calls[a].key == s.calls[b].key
    requires Owning(s.calls[a].pc) && Owning(s.calls[b].pc) && s.calls[a].mode == Exclusive
    ensures a == b
  {
    ReachedInv(s);
    Exclusion(s, a, b);
  }

  /** The reference count of a key is the number of calls between `_get_lock` and
      `_release_ref`, and the key has a lock object exactly while there is one. */
  lemma RefCount(s: State, k: Key)
    requires Reached(s)
    ensures Refs(s.tab, k) == |set id | id in s.calls && s.calls[id].key == k|
    ensures k in s.tab.locks <==> exists id :: id in s.calls && s.calls[id].key == k
  {
    ReachedInv(s);
    assert Members(s.calls, OfKey(k)) == set id | id in s.calls && s.calls[id].key == k;
    if k in s.tab.locks {
      var id :| id in Members(s.calls, OfKey(k));
      assert id in s.calls && s.calls[id].key == k;
    }
  }

  /** With no call open every table is back to empty and `active_locks` to zero. */
  lemma Quiescent(s: State)
    requires Reached(s) && s.calls == map[]
    ensures s.tab.locks == map[] && s.tab.refs == map[] && s.tab.waiting == map[] && s.active == 0
    ensures forall k :: k in s.tab.alloc ==> s.tab.alloc[k] == map[]
  {
    ReachedInv(s);
    assert forall kind :: Members(s.calls, kind) == {};
    forall k ensures k !in s.tab.refs {
      assert Refs(s.tab, k) == Num(s.calls, OfKey(k));
    }
    forall t ensures t !in s.tab.waiting {
      assert WaitAt(s, t);
      assert Depth(s, t) > 0 ==> Top(s, t) in s.calls;
    }
    forall k | k in s.tab.alloc ensures s.tab.alloc[k] == map[] {
      forall t: Tid ensures t !in s.tab.alloc[k] {
        assert t in s.tab.alloc[k] ==> t in Owners(s.tab, k);
        assert OwnCount(s.tab, k, t) == Num(s.calls, Recorded(k, t));
      }
    }
  }

  /** A sleeping reader faces a writer or a pending write request, a sleeping writer a
      reader or a writer; requests count the threads inside the writer wait. */
  lemma SleepReasons(s: State, k: Key, t: Tid)
    requires Reached(s) && k in s.tab.locks && s.tab.locks[k] in s.heap
    requires t in s.heap[s.tab.locks[k]].sleepers
    ensures Depth(s, t) > 0 && Top(s, t) in s.calls && s.calls[Top(s, t)].key == k
    ensures s.heap[s.tab.locks[k]].Blocks(s.calls[Top(s, t)].mode)
    ensures s.heap[s.tab.locks[k]].requests == Num(s.calls, WriteWait(k))
  {
    hide Num, IsRun;
    ReachedInv(s);
    LocksAt(s, k);
  }

  /** A blocked call that no sleep and no guard keeps from acquiring. */
  ghost predicate Ready(s: State, id: CallId) {
    && id in s.calls && s.calls[id].pc == Blocked
    && CanRun(s, id.0) && id == Top(s, id.0)
    && !s.heap[s.calls[id].lock].Blocks(s.calls[id].mode)
  }

  lemma ReadyAcquires(s: State, id: CallId)
    requires Ready(s, id)
    ensures id in Run(s, id.0).calls && Run(s, id.0).calls[id].pc == Acquired
  {}

  /** No lost wake-up: when nobody owns a key's lock and some call is blocked on it, some
      blocked call of that key is awake and its next step takes the lock. */
  lemma NoLostWakeUp(s: State, blocked: CallId)
    requires Inv(s) && blocked in s.calls && s.calls[blocked].pc == Blocked
    requires forall id :: id in s.calls && s.calls[id].key == s.calls[blocked].key ==> !Owning(s.calls[id].pc)
    ensures exists awake :: Ready(s, awake) && s.calls[awake].key == s.calls[blocked].key
  {
    var k := s.calls[blocked].key;
    FreeLock(s, k);
    LocksAt(s, k);
    var l := s.heap[s.tab.locks[k]];
    if s.calls[blocked].mode == Shared && l.requests > 0 {
      var awake :| awake in Members(s.calls, WriteWait(k));
      AwakeWhenFree(s, awake);
    } else {
      AwakeWhenFree(s, blocked);
    }
  }

  lemma FreeLock(s: State, k: Key)
    requires Inv(s) && k in s.tab.locks
    requires forall id :: id in s.calls && s.calls[id].key == k ==> !Owning(s.calls[id].pc)
    ensures s.heap[s.tab.locks[k]].readers == 0 == s.heap[s.tab.locks[k]].writers
  {
    LocksAt(s, k);
    assert Members(s.calls, Holds(k, Shared)) == Members(s.calls, Holds(k, Exclusive)) == {};
  }

  lemma AwakeWhenFree(s: State, id: CallId)
    requires Inv(s) && id in s.calls && s.calls[id].pc == Blocked && s.calls[id].key in s.tab.locks
    requires s.tab.locks[s.calls[id].key] in s.heap
    requires !s.heap[s.tab.locks[s.calls[id].key]].Blocks(s.calls[id].mode)
    ensures Ready(s, id)
  {
    hide Num;
    LocksAt(s, s.calls[id].key);
    assert id == Top(s, id.0);
  }

  // ---- who is admitted ----

  lemma NoneOf(s: State, kind: Kind)
    ensures Num(s.calls, kind) == 0 <==> forall id :: id in s.calls ==> !In(kind, id, s.calls[id])
  {
    if id :| id in s.calls && In(kind, id, s.calls[id]) {
      assert id in Members(s.calls, kind);
    } else {
      assert Members(s.calls, kind) == {};
    }
  }

  /** A reader is admitted, first or after a wake-up, exactly if no call of the key owns it as
      a writer or sits in the writer wait: readers share, and waiting writers come first. */
  lemma ReaderAdmitted(s: State, t: Tid)
    requires Reached(s) && CanRun(s, t) && Waiting(Was(s, t).pc) && Was(s, t).mode == Shared
    ensures Run(s, t).calls[Top(s, t)].pc == Acquired <==>
      forall id :: id in s.calls && s.calls[id].key == Was(s, t).key && s.calls[id].mode == Exclusive
        ==> !Owning(s.calls[id].pc) && s.calls[id].pc != Blocked
  {
    hide Num, Members, IsRun, Nested, AllocExact, WaitExact, SleepersJustified;
    ReachedInv(s);
    var k := Was(s, t).key;
    LocksAt(s, k);
    NoneOf(s, Holds(k, Exclusive));
    NoneOf(s, WriteWait(k));
  }

  /** A writer is admitted exactly if no call owns the key. */
  lemma WriterAdmitted(s: State, t: Tid)
    requires Reached(s) && CanRun(s, t) && Waiting(Was(s, t).pc) && Was(s, t).mode == Exclusive
    ensures Run(s, t).calls[Top(s, t)].pc == Acquired <==>
      forall id :: id in s.calls && s.calls[id].key == Was(s, t).key ==> !Owning(s.calls[id].pc)
  {
    hide Num, Members, IsRun, Nested, AllocExact, WaitExact, SleepersJustified;
    ReachedInv(s);
    var k := Was(s, t).key;
    LocksAt(s, k);
    NoneOf(s, Holds(k, Exclusive));
    NoneOf(s, Holds(k, Shared));
  }
}
