/** The lock manager's tables and its deadlock detector.  Every critical section under the
    global lock is a function on `Table`; the class below runs them in place. */
module LockTables {
  import opened RWLocks

  type Key = string

  /** `L` is the type of references to lock objects. */
  datatype Table<L> = Table(
    locks: map<Key, L>,
    refs: map<Key, int>,
    alloc: map<Key, map<Tid, int>>,
    waiting: map<Tid, Key>)

  function Refs<L>(tab: Table<L>, key: Key): int {
    if key in tab.refs then tab.refs[key] else 0
  }

  function Owners<L>(tab: Table<L>, key: Key): map<Tid, int> {
    if key in tab.alloc then tab.alloc[key] else map[]
  }

  function OwnCount<L>(tab: Table<L>, key: Key, t: Tid): int {
    if t in Owners(tab, key) then Owners(tab, key)[t] else 0
  }

  // ---- critical sections ----

  function GetLock<L>(tab: Table<L>, key: Key, created: L): Table<L> {
    if key in tab.locks then tab.(refs := tab.refs[key := Refs(tab, key) + 1])
    else tab.(locks := tab.locks[key := created], refs := tab.refs[key := 1])
  }

  function ReleaseRef<L>(tab: Table<L>, key: Key): Table<L> {
    var n := Refs(tab, key) - 1;
    if n <= 0 then tab.(locks := tab.locks - {key}, refs := tab.refs - {key})
    else tab.(refs := tab.refs[key := n])
  }

  function Register<L>(tab: Table<L>, t: Tid, key: Key): Table<L> {
    tab.(waiting := tab.waiting[t := key])
  }

  function Unwait<L>(tab: Table<L>, t: Tid): Table<L> {
    tab.(waiting := tab.waiting - {t})
  }

  function Record<L>(tab: Table<L>, t: Tid, key: Key): Table<L> {
    tab.(waiting := tab.waiting - {t},
         alloc := tab.alloc[key := Owners(tab, key)[t := OwnCount(tab, key, t) + 1]])
  }

  function Derecord<L>(tab: Table<L>, t: Tid, key: Key): Table<L> {
    var n := OwnCount(tab, key, t) - 1;
    tab.(alloc := tab.alloc[key :=
      if n <= 0 then Owners(tab, key) - {t} else Owners(tab, key)[t := n]])
  }

  // ---- what the detector decides ----

  /** Lock `b` is awaited by a recorded owner of `a` other than the requester.  A wait for
      the empty key is falsy in the source and is never followed. */
  ghost predicate Edge<L>(tab: Table<L>, requester: Tid, a: Key, b: Key) {
    exists o: Tid :: EdgeVia(tab, requester, a, b, o)
  }

  predicate EdgeVia<L>(tab: Table<L>, requester: Tid, a: Key, b: Key, o: Tid) {
    o != requester && OwnCount(tab, a, o) > 0 && o in tab.waiting && tab.waiting[o] == b && b != ""
  }

  ghost predicate IsLockPath<L>(tab: Table<L>, requester: Tid, p: seq<Key>) {
    |p| > 0 && forall i {:trigger p[i]} :: 0 <= i < |p| - 1 ==> Edge(tab, requester, p[i], p[i + 1])
  }

  /** The requester owns `key`, and `key` is not the target of a shared request. */
  predicate Closes<L>(tab: Table<L>, requester: Tid, target: Key, isWrite: bool, key: Key) {
    OwnCount(tab, key, requester) > 0 && (key != target || isWrite)
  }

  /** Some lock reachable from the target is owned by the requester, the target of a
      shared request excepted. */
  ghost predicate Raises<L>(tab: Table<L>, requester: Tid, target: Key, isWrite: bool) {
    exists p: seq<Key> :: IsLockPath(tab, requester, p) && p[0] == target
      && Closes(tab, requester, target, isWrite, p[|p| - 1])
  }

  ghost predicate Reachable<L>(tab: Table<L>, requester: Tid, target: Key, key: Key) {
    exists p: seq<Key> :: IsLockPath(tab, requester, p) && p[0] == target && p[|p| - 1] == key
  }

  lemma ReachableExtend<L>(tab: Table<L>, requester: Tid, target: Key, a: Key, b: Key)
    requires Reachable(tab, requester, target, a) && Edge(tab, requester, a, b)
    ensures Reachable(tab, requester, target, b)
  {
    var p :| IsLockPath(tab, requester, p) && p[0] == target && p[|p| - 1] == a;
    var q := p + [b];
    assert IsLockPath(tab, requester, q);
  }

  /** A set of locks that holds the target and is closed under `Edge` holds every
      reachable lock. */
  lemma {:induction false} ClosedHoldsPath<L>(
    tab: Table<L>, requester: Tid, p: seq<Key>, closed: set<Key>)
    requires IsLockPath(tab, requester, p) && p[0] in closed
    requires forall a, b :: a in closed && Edge(tab, requester, a, b) ==> b in closed
    ensures p[|p| - 1] in closed
    decreases |p|
  {
    if |p| > 1 {
      assert Edge(tab, requester, p[0], p[1]);
      var q := p[1..];
      assert forall i :: 0 <= i < |q| ==> q[i] == p[i + 1];
      ClosedHoldsPath(tab, requester, q, closed);
    }
  }

  // ---- the manager itself ----

  class LockManager {
    var locks: map<Key, RWLock>
    var refs: map<Key, int>
    var allocations: map<Key, map<Tid, int>>
    var waiting: map<Tid, Key>

    function View(): Table<RWLock>
      reads this
    {
      Table(locks, refs, allocations, waiting)
    }

    constructor ()
      ensures View() == Table(map[], map[], map[], map[])
    {
      locks, refs, allocations, waiting := map[], map[], map[], map[];
    }

    /** Creates the lock object on first reference and counts the reference. */
    method GetLockFor(key: Key) returns (lock: RWLock)
      requires key in locks ==> key in refs
      modifies this
      ensures old(key !in locks) ==> fresh(lock) && lock.View() == FRESH_LOCK
      ensures View() == GetLock(old(View()), key, lock) && lock == locks[key]
    {
      if key !in locks {
        var created := new RWLock();
        locks := locks[key := created];
        refs := refs[key := 0];
      }
      refs := refs[key := refs[key] + 1];
      lock := locks[key];
    }

    method ReleaseRefOf(key: Key)
      requires key in locks && key in refs
      modifies this
      ensures View() == ReleaseRef(old(View()), key)
    {
      refs := refs[key := refs[key] - 1];
      if refs[key] <= 0 {
        locks := locks - {key};
        refs := refs - {key};
      }
      assert refs[key := 0] - {key} == refs - {key};
    }

    method HasLock(key: Key) returns (found: bool)
      ensures found <==> key in View().locks
    {
      found := key in locks;
    }

    /** The first critical section of a lock call: refuse the request or record the wait. */
    method CheckAndRegister(t: Tid, key: Key, isWrite: bool) returns (deadlock: bool)
      modifies this
      ensures deadlock <==> Raises(old(View()), t, key, isWrite)
      ensures View() == if deadlock then old(View()) else Register(old(View()), t, key)
    {
      deadlock := DetectCycle(t, key, isWrite);
      if !deadlock {
        waiting := waiting[t := key];
      }
    }

    method RecordOwner(t: Tid, key: Key)
      modifies this
      ensures View() == Record(old(View()), t, key)
    {
      waiting := waiting - {t};
      var owners: map<Tid, int> := if key in allocations then allocations[key] else map[];
      owners := owners[t := (if t in owners then owners[t] else 0) + 1];
      allocations := allocations[key := owners];
    }

    method DerecordOwner(t: Tid, key: Key)
      requires key in allocations && t in allocations[key]
      modifies this
      ensures View() == Derecord(old(View()), t, key)
    {
      var owners := allocations[key];
      owners := owners[t := owners[t] - 1];
      if owners[t] <= 0 {
        owners := owners - {t};
      }
      assert owners == if OwnCount(old(View()), key, t) - 1 <= 0
                       then allocations[key] - {t}
                       else allocations[key][t := OwnCount(old(View()), key, t) - 1];
      allocations := allocations[key := owners];
    }

    method PopWaiting(t: Tid)
      modifies this
      ensures View() == Unwait(old(View()), t)
    {
      waiting := waiting - {t};
    }

    /** The worklist search: exact whatever the order in which the owners of a lock are
        visited (they are drawn from a set). */
    method DetectCycle(startThread: Tid, target: Key, isWrite: bool) returns (deadlock: bool)
      ensures deadlock <==> Raises(View(), startThread, target, isWrite)
    {
      hide Reachable, Raises, Closes, AllFollowed, AllScanned, Scanned, Unseen;
      ghost var tab := View();
      var visitedThreads: set<Tid> := {};
      var visitedLocks: set<Key> := {};
      var stack := [target];
      SearchStarts(tab, startThread, target, isWrite);
      while stack != []
        invariant forall k :: k in stack ==> Reachable(tab, startThread, target, k)
        invariant target in stack || target in visitedLocks
        invariant AllScanned(tab, startThread, target, isWrite, visitedLocks, visitedThreads)
        invariant AllFollowed(tab, visitedThreads, visitedLocks, stack)
        decreases Unseen(tab, visitedThreads) + |stack|
      {
        var current := stack[|stack| - 1];
        FollowedPop(tab, visitedThreads, visitedLocks, stack);
        stack := stack[..|stack| - 1];
        if current in visitedLocks {
          assert visitedLocks + {current} == visitedLocks;
          continue;
        }
        ghost var seenLocks, seenThreads := visitedLocks, visitedThreads;
        visitedLocks := visitedLocks + {current};
        deadlock, visitedThreads, stack :=
          VisitOwners(startThread, target, isWrite, current, visitedLocks, visitedThreads, stack);
        if deadlock {
          ReachableRaises(tab, startThread, target, isWrite, current);
          return;
        }
        ScannedMore(tab, startThread, target, isWrite, seenLocks, seenThreads, current, visitedThreads);
      }
      SearchComplete(tab, startThread, target, isWrite, visitedLocks, visitedThreads);
      return false;
    }

    /** The inner loop: one pass over the owners of `current`. */
    method VisitOwners(
      startThread: Tid, target: Key, isWrite: bool, current: Key, ghost visitedLocks: set<Key>,
      visitedThreads: set<Tid>, stack: seq<Key>)
      returns (deadlock: bool, threads: set<Tid>, pending: seq<Key>)
      requires Reachable(View(), startThread, target, current)
      requires AllFollowed(View(), visitedThreads, visitedLocks, stack)
      ensures deadlock ==> Closes(View(), startThread, target, isWrite, current)
      ensures !deadlock ==> Scanned(View(), startThread, target, isWrite, current, threads)
      ensures visitedThreads <= threads
      ensures AllFollowed(View(), threads, visitedLocks, pending)
      ensures forall k :: k in stack ==> k in pending
      ensures forall k :: k in pending ==> k in stack || Reachable(View(), startThread, target, k)
      ensures Unseen(View(), threads) + |pending| <= Unseen(View(), visitedThreads) + |stack|
    {
      hide Reachable, AllFollowed, Unseen, Edge;
      ghost var tab := View();
      threads, pending := visitedThreads, stack;
      var owners: map<Tid, int> := if current in allocations then allocations[current] else map[];
      var todo := owners.Keys;
      while todo != {}
        invariant todo <= owners.Keys
        invariant visitedThreads <= threads
        invariant forall o :: o in owners.Keys - todo && owners[o] > 0 ==>
                    if o == startThread then current == target && !isWrite else o in threads
        invariant AllFollowed(tab, threads, visitedLocks, pending)
        invariant forall k :: k in stack ==> k in pending
        invariant forall k :: k in pending ==> k in stack || Reachable(tab, startThread, target, k)
        invariant Unseen(tab, threads) + |pending| <= Unseen(tab, visitedThreads) + |stack|
        decreases todo
      {
        var owner :| owner in todo;
        todo := todo - {owner};
        var count := owners[owner];
        if count > 0 && owner == startThread {
          if current == target && !isWrite {
            continue;
          }
          return true, threads, pending;
        }
        if count > 0 && owner !in threads {
          VisitOne(tab, startThread, target, current, owner, visitedLocks, threads, pending);
          threads := threads + {owner};
          if owner in waiting && waiting[owner] != "" {
            pending := pending + [waiting[owner]];
          }
        }
      }
      return false, threads, pending;
    }
  }

  /** `key` has been looked at: the requester's ownership of it does not close a cycle and
      its other counted owners are visited. */
  ghost predicate Scanned<L>(
    tab: Table<L>, requester: Tid, target: Key, isWrite: bool, key: Key, threads: set<Tid>)
  {
    && !Closes(tab, requester, target, isWrite, key)
    && forall o :: o != requester && OwnCount(tab, key, o) > 0 ==> o in threads
  }

  ghost predicate AllScanned<L>(
    tab: Table<L>, requester: Tid, target: Key, isWrite: bool, locks: set<Key>, threads: set<Tid>)
  {
    forall k :: k in locks ==> Scanned(tab, requester, target, isWrite, k, threads)
  }

  /** The lock awaited by each visited thread is visited too or still on the worklist. */
  ghost predicate AllFollowed<L>(tab: Table<L>, threads: set<Tid>, locks: set<Key>, stack: seq<Key>) {
    forall o :: o in threads && o in tab.waiting && tab.waiting[o] != "" ==>
      tab.waiting[o] in locks || tab.waiting[o] in stack
  }

  ghost function Unseen<L>(tab: Table<L>, threads: set<Tid>): nat {
    |tab.waiting.Keys - threads|
  }

  lemma UnseenAfter<L>(tab: Table<L>, threads: set<Tid>, owner: Tid)
    requires owner !in threads
    ensures Unseen(tab, threads + {owner}) == Unseen(tab, threads) - if owner in tab.waiting then 1 else 0
  {
    var rest := tab.waiting.Keys - (threads + {owner});
    if owner in tab.waiting {
      assert tab.waiting.Keys - threads == rest + {owner};
    } else {
      assert tab.waiting.Keys - threads == rest;
    }
  }

  /** Visiting one counted owner: its awaited lock, if any, goes on the worklist. */
  lemma VisitOne<L>(
    tab: Table<L>, requester: Tid, target: Key, current: Key, owner: Tid,
    locks: set<Key>, threads: set<Tid>, pending: seq<Key>)
    requires Reachable(tab, requester, target, current)
    requires OwnCount(tab, current, owner) > 0 && owner != requester && owner !in threads
    requires AllFollowed(tab, threads, locks, pending)
    ensures owner in tab.waiting && tab.waiting[owner] != "" ==>
      Reachable(tab, requester, target, tab.waiting[owner])
    ensures AllFollowed(tab, threads + {owner}, locks,
      if owner in tab.waiting && tab.waiting[owner] != "" then pending + [tab.waiting[owner]] else pending)
    ensures Unseen(tab, threads + {owner}) == Unseen(tab, threads) - if owner in tab.waiting then 1 else 0
  {
    UnseenAfter(tab, threads, owner);
    if owner in tab.waiting && tab.waiting[owner] != "" {
      assert EdgeVia(tab, requester, current, tab.waiting[owner], owner);
      ReachableExtend(tab, requester, target, current, tab.waiting[owner]);
      assert pending + [tab.waiting[owner]] != [];
    }
  }

  lemma FollowedPop<L>(tab: Table<L>, threads: set<Tid>, locks: set<Key>, stack: seq<Key>)
    requires stack != [] && AllFollowed(tab, threads, locks, stack)
    ensures AllFollowed(tab, threads, locks + {stack[|stack| - 1]}, stack[..|stack| - 1])
    ensures forall k :: k in stack ==> k == stack[|stack| - 1] || k in stack[..|stack| - 1]
  {
    assert stack == stack[..|stack| - 1] + [stack[|stack| - 1]];
  }

  lemma ScannedMore<L>(
    tab: Table<L>, requester: Tid, target: Key, isWrite: bool,
    locks: set<Key>, threads: set<Tid>, current: Key, threads': set<Tid>)
    requires AllScanned(tab, requester, target, isWrite, locks, threads) && threads <= threads'
    requires Scanned(tab, requester, target, isWrite, current, threads')
    ensures AllScanned(tab, requester, target, isWrite, locks + {current}, threads')
  {}

  lemma SearchStarts<L>(tab: Table<L>, requester: Tid, target: Key, isWrite: bool)
    ensures Reachable(tab, requester, target, target)
    ensures AllScanned(tab, requester, target, isWrite, {}, {}) && AllFollowed(tab, {}, {}, [target])
  {
    assert IsLockPath(tab, requester, [target]);
  }

  lemma ReachableRaises<L>(tab: Table<L>, requester: Tid, target: Key, isWrite: bool, key: Key)
    requires Reachable(tab, requester, target, key) && Closes(tab, requester, target, isWrite, key)
    ensures Raises(tab, requester, target, isWrite)
  {}

  lemma SearchComplete<L>(
    tab: Table<L>, requester: Tid, target: Key, isWrite: bool, locks: set<Key>, threads: set<Tid>)
    requires target in locks
    requires AllScanned(tab, requester, target, isWrite, locks, threads)
    requires AllFollowed(tab, threads, locks, [])
    ensures !Raises(tab, requester, target, isWrite)
  {
    forall p | IsLockPath(tab, requester, p) && p[0] == target
      ensures !Closes(tab, requester, target, isWrite, p[|p| - 1])
    {
      forall a, b | a in locks && Edge(tab, requester, a, b) ensures b in locks {
        var o :| EdgeVia(tab, requester, a, b, o);
      }
      ClosedHoldsPath(tab, requester, p, locks);
    }
  }
}
