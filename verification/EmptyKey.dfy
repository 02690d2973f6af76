/** The detector reads the awaited key as a truth value, so a wait for the empty key is
    invisible to it.  A reachable state then holds a cycle of two waiting threads: the
    condition of `DeadlockFreedom.Plain` that keys are not empty cannot be dropped. */
module EmptyKey {
  import opened RWLocks
  import opened LockTables
  import opened LockSystem
  import opened DeadlockFreedom

  ghost predicate ReachedOver(s: State, keys: iset<Key>) {
    exists ss: seq<State> :: IsRunOver(ss, keys) && ss[|ss| - 1] == s
  }

  lemma OverInv(s: State, keys: iset<Key>)
    requires ReachedOver(s, keys)
    ensures Inv(s) && Uses(s, keys)
  {
    var ss: seq<State> :| IsRunOver(ss, keys) && ss[|ss| - 1] == s;
    RunInv(ss);
    assert Uses(ss[|ss| - 1], keys);
  }

  lemma NextOver(s: State, s': State, keys: iset<Key>)
    requires ReachedOver(s, keys) && Next(s, s') && Uses(s', keys)
    ensures ReachedOver(s', keys)
  {
    hide Next, Uses;
    var ss: seq<State> :| IsRunOver(ss, keys) && ss[|ss| - 1] == s;
    var longer := ss + [s'];
    forall i {:trigger longer[i]} | 0 <= i < |longer| - 1 ensures Next(longer[i], longer[i + 1]) {
      if i < |ss| - 1 {
        assert Next(ss[i], ss[i + 1]);
      }
    }
    forall i {:trigger longer[i]} | 0 <= i < |longer| ensures Uses(longer[i], keys) {
      if i < |ss| {
        assert Uses(ss[i], keys);
      }
    }
    assert IsRunOver(longer, keys);
  }

  lemma RunUses(s: State, t: Tid, keys: iset<Key>)
    requires Uses(s, keys) && CanRun(s, t)
    ensures Uses(Run(s, t), keys)
  {}

  lemma StepOver(s: State, t: Tid, keys: iset<Key>)
    requires ReachedOver(s, keys) && CanRun(s, t)
    ensures ReachedOver(Run(s, t), keys)
  {
    hide Inv, ReachedOver, Run, Uses;
    OverInv(s, keys);
    RunUses(s, t, keys);
    assert RunStep(s, t, Run(s, t));
    NextOver(s, Run(s, t), keys);
  }

  lemma BeginOver(s: State, t: Tid, key: Key, id: LockId, keys: iset<Key>)
    requires ReachedOver(s, keys) && Idle(s, t) && id !in s.heap && key in keys
    ensures ReachedOver(Begin(s, t, key, Exclusive, id), keys)
  {
    hide Inv, ReachedOver, Begin, Uses;
    OverInv(s, keys);
    BeginUses(s, t, key, id, keys);
    assert BeginStep(s, t, key, Exclusive, id, Begin(s, t, key, Exclusive, id));
    NextOver(s, Begin(s, t, key, Exclusive, id), keys);
  }

  lemma BeginUses(s: State, t: Tid, key: Key, id: LockId, keys: iset<Key>)
    requires Uses(s, keys) && key in keys
    ensures Uses(Begin(s, t, key, Exclusive, id), keys)
  {}

  /** The search stops at the target when no counted owner of it waits for a named key. */
  lemma NothingToFollow(tab: Table<LockId>, t: Tid, key: Key)
    requires OwnCount(tab, key, t) <= 0
    requires forall o :: o != t && OwnCount(tab, key, o) > 0 ==> o !in tab.waiting || tab.waiting[o] == ""
    ensures !Raises(tab, t, key, true)
  {
    assert forall b :: !Edge(tab, t, key, b);
    forall p | IsLockPath(tab, t, p) && p[0] == key ensures p == [key] {
      if |p| > 1 {
        SecondLock(tab, t, p);
      }
    }
  }

  lemma SecondLock(tab: Table<LockId>, t: Tid, p: seq<Key>)
    requires IsLockPath(tab, t, p) && |p| > 1
    ensures Edge(tab, t, p[0], p[1])
  {
    assert Edge(tab, t, p[0], p[0 + 1]);
  }

  /** A request the search lets through is registered. */
  lemma Requests(s: State, t: Tid, key: Key, id: LockId, keys: iset<Key>) returns (s': State)
    requires ReachedOver(s, keys) && Idle(s, t) && id !in s.heap && key in keys
    requires OwnCount(s.tab, key, t) <= 0
    requires forall o :: o != t && OwnCount(s.tab, key, o) > 0 ==> o !in s.tab.waiting || s.tab.waiting[o] == ""
    ensures ReachedOver(s', keys) && CanRun(s', t)
    ensures s'.tab == Register(GetLock(s.tab, key, id), t, key)
    ensures s'.heap == if key in s.tab.locks then s.heap else s.heap[id := FRESH_LOCK]
    ensures s'.depth == s.depth[t := Depth(s, t) + 1]
    ensures s'.calls == s.calls[(t, Depth(s, t)) := Call(key, Exclusive, s'.tab.locks[key], Registered)]
  {
    hide ReachedOver, Raises, Uses;
    var s1 := Begin(s, t, key, Exclusive, id);
    BeginOver(s, t, key, id, keys);
    assert forall o :: OwnCount(s1.tab, key, o) == OwnCount(s.tab, key, o);
    NothingToFollow(s1.tab, t, key);
    OverCanRun(s1, t, keys);
    Registers(s, t, key, id);
    hide Begin, Run, Idle, CanRun, GetLock, Register, Next, Inv;
    StepOver(s1, t, keys);
    s' := Run(s1, t);
    OverCanRun(s', t, keys);
  }

  lemma Registers(s: State, t: Tid, key: Key, id: LockId)
    requires Idle(s, t)
    requires var s1 := Begin(s, t, key, Exclusive, id); CanRun(s1, t) && !Raises(s1.tab, t, key, true)
    ensures var s' := Run(Begin(s, t, key, Exclusive, id), t);
      && s'.tab == Register(GetLock(s.tab, key, id), t, key)
      && s'.heap == (if key in s.tab.locks then s.heap else s.heap[id := FRESH_LOCK])
      && s'.depth == s.depth[t := Depth(s, t) + 1] && key in s'.tab.locks
      && s'.calls == s.calls[(t, Depth(s, t)) := Call(key, Exclusive, s'.tab.locks[key], Registered)]
  {
    hide Raises;
  }

  lemma OverCanRun(s: State, t: Tid, keys: iset<Key>)
    requires ReachedOver(s, keys) && Depth(s, t) > 0 && (Top(s, t) in s.calls ==> s.calls[Top(s, t)].pc != Blocked)
    ensures CanRun(s, t)
  {
    hide LocksExact, AllocExact, WaitExact, Num, ReachedOver;
    OverInv(s, keys);
  }

  /** A registered request for a free lock runs through to its body. */
  lemma Enters(s: State, t: Tid, keys: iset<Key>) returns (s': State)
    requires ReachedOver(s, keys) && CanRun(s, t) && Was(s, t).pc == Registered && Was(s, t).mode == Exclusive
    requires s.heap[Was(s, t).lock] == FRESH_LOCK
    ensures ReachedOver(s', keys)
    ensures s'.tab == Record(s.tab, t, Was(s, t).key) && s'.depth == s.depth && s'.heap.Keys == s.heap.Keys
    ensures s'.calls == s.calls[Top(s, t) := Is(s, t, InBody)]
  {
    hide ReachedOver, Uses;
    StepOver(s, t, keys);
    var s1 := Run(s, t);
    StepOver(s1, t, keys);
    var s2 := Run(s1, t);
    StepOver(s2, t, keys);
    s' := Run(s2, t);
  }

  /** Two threads, each in a body on its own key. */
  lemma BothInside(other: Key, keys: iset<Key>) returns (s: State)
    requires other != "" && "" in keys && other in keys
    ensures ReachedOver(s, keys) && s.depth == map[1 := 1, 2 := 1] && s.tab.waiting == map[] && s.heap.Keys == {0, 1}
    ensures s.calls == map[(1, 0) := Call("", Exclusive, 0, InBody), (2, 0) := Call(other, Exclusive, 1, InBody)]
    ensures s.tab.locks == map["" := 0, other := 1]
    ensures OwnCount(s.tab, "", 2) == 0 == OwnCount(s.tab, other, 1)
  {
    hide ReachedOver, Uses;
    InitOver(keys);
    var s1 := Requests(INIT, 1, "", 0, keys);
    var s2 := Enters(s1, 1, keys);
    var s3 := Requests(s2, 2, other, 1, keys);
    s := Enters(s3, 2, keys);
  }

  lemma InitOver(keys: iset<Key>)
    ensures ReachedOver(INIT, keys)
  {
    assert IsRunOver([INIT], keys);
  }

  /** A thread waiting for a holder is reachable with any key, so the absence of deadlock is
      not for want of contention. */
  lemma Contention(key: Key, keys: iset<Key>) returns (s: State)
    requires key in keys
    ensures ReachedOver(s, keys) && WaitsFor(s, 2, 1)
  {
    hide ReachedOver, Uses;
    InitOver(keys);
    var s1 := Requests(INIT, 1, key, 0, keys);
    var s2 := Enters(s1, 1, keys);
    s := Requests(s2, 2, key, 1, keys);
    assert HoldsAt(s, 1, key, 0) && WaitingOn(s, 2, key);
  }

  /** With the empty key and any other, two threads can each hold one and wait for the
      other, unrefused. */
  lemma UndetectedDeadlock(other: Key, keys: iset<Key>) returns (s: State)
    requires other != "" && "" in keys && other in keys
    ensures ReachedOver(s, keys) && WaitsFor(s, 1, 2) && WaitsFor(s, 2, 1)
  {
    hide ReachedOver, Uses;
    var s1 := BothInside(other, keys);
    var s2 := Requests(s1, 2, "", 2, keys);
    s := Requests(s2, 1, other, 2, keys);
    assert HoldsAt(s, 1, "", 0) && HoldsAt(s, 2, other, 0);
    assert WaitingOn(s, 1, other) && WaitingOn(s, 2, "");
  }

  lemma CycleOfTwo(s: State, t: Tid, u: Tid)
    requires WaitsFor(s, t, u) && WaitsFor(s, u, t)
    ensures !Acyclic(s)
  {
    var p := [t, u, t];
    assert IsChain(s, p);
    assert p[0] == p[|p| - 1];
  }

  /** Exactly when exclusive calls can deadlock: the keys in use mix the empty key with
      another. */
  lemma DeadlockIffEmptyKeyMixed(keys: iset<Key>)
    ensures (exists s: State :: ReachedOver(s, keys) && !Acyclic(s))
       <==> "" in keys && exists k :: k in keys && k != ""
  {
    if "" in keys && exists k :: k in keys && k != "" {
      var other: Key :| other in keys && other != "";
      var s := UndetectedDeadlock(other, keys);
      CycleOfTwo(s, 1, 2);
    } else {
      forall s: State | ReachedOver(s, keys) ensures Acyclic(s) {
        var ss: seq<State> :| IsRunOver(ss, keys) && ss[|ss| - 1] == s;
        NoCycleEver(ss, keys);
      }
    }
  }
}
