/** Deadlock freedom of nested exclusive calls: the detector refuses a request exactly when
    blocking it would close a cycle of waiting threads, so no cycle ever forms and behind
    every blocked thread some lock holder can still step. */
module DeadlockFreedom {
  import opened FiniteSets
  import opened RWLocks
  import opened LockTables
  import opened LockSystem
  import opened LockTheorems

  /** Only exclusive calls, and the empty key, whose waits the detector ignores, not mixed
      with others. */
  ghost predicate Plain(s: State) {
    && ExclusiveOnly(s)
    && ((forall id :: id in s.calls ==> s.calls[id].key != "")
       || (forall id :: id in s.calls ==> s.calls[id].key == ""))
  }

  ghost predicate ExclusiveOnly(s: State) {
    forall id :: id in s.calls ==> s.calls[id].mode == Exclusive
  }

  ghost predicate WaitingOn(s: State, t: Tid, k: Key) {
    && Depth(s, t) > 0 && Top(s, t) in s.calls
    && Waiting(s.calls[Top(s, t)].pc) && s.calls[Top(s, t)].key == k
  }

  ghost predicate HoldsKey(s: State, t: Tid, k: Key) {
    exists i: nat :: HoldsAt(s, t, k, i)
  }

  predicate HoldsAt(s: State, t: Tid, k: Key, i: nat) {
    (t, i) in s.calls && s.calls[(t, i)].key == k && Owning(s.calls[(t, i)].pc)
  }

  ghost predicate WaitsFor(s: State, t: Tid, u: Tid) {
    exists k: Key :: WaitingOn(s, t, k) && HoldsKey(s, u, k)
  }

  ghost predicate IsChain(s: State, p: seq<Tid>) {
    |p| > 0 && forall i {:trigger p[i]} :: 0 <= i < |p| - 1 ==> WaitsFor(s, p[i], p[i + 1])
  }

  ghost predicate Acyclic(s: State) {
    forall p: seq<Tid> :: IsChain(s, p) && |p| >= 2 ==> p[0] != p[|p| - 1]
  }

  /** Some holder of `k` is, or waits through others for, thread `t`. */
  ghost predicate LeadsTo(s: State, k: Key, t: Tid) {
    exists p: seq<Tid> :: IsChain(s, p) && HoldsKey(s, p[0], k) && p[|p| - 1] == t
  }

  lemma ChainCons(s: State, t: Tid, p: seq<Tid>)
    requires IsChain(s, p) && WaitsFor(s, t, p[0])
    ensures IsChain(s, [t] + p)
  {
    var q := [t] + p;
    forall i {:trigger q[i]} | 0 <= i < |q| - 1 ensures WaitsFor(s, q[i], q[i + 1]) {
      if i > 0 {
        assert WaitsFor(s, p[i - 1], p[i - 1 + 1]);
      }
    }
  }

  lemma ChainPart(s: State, p: seq<Tid>, i: nat, j: nat)
    requires IsChain(s, p) && i < j <= |p|
    ensures IsChain(s, p[i..j])
  {
    var q := p[i..j];
    forall n {:trigger q[n]} | 0 <= n < |q| - 1 ensures WaitsFor(s, q[n], q[n + 1]) {
      assert WaitsFor(s, p[i + n], p[i + n + 1]);
    }
  }

  lemma ChainJoin(s: State, p: seq<Tid>, q: seq<Tid>)
    requires IsChain(s, p) && IsChain(s, q) && p[|p| - 1] == q[0]
    ensures IsChain(s, p + q[1..])
  {
    var r := p + q[1..];
    forall n {:trigger r[n]} | 0 <= n < |r| - 1 ensures WaitsFor(s, r[n], r[n + 1]) {
      if n < |p| - 1 {
        assert WaitsFor(s, p[n], p[n + 1]);
      } else {
        var m := n - (|p| - 1);
        assert WaitsFor(s, q[m], q[m + 1]);
      }
    }
  }

  lemma NoSelfWait(s: State, t: Tid)
    requires Acyclic(s)
    ensures !WaitsFor(s, t, t)
  {
    var p := [t, t];
    assert |p| >= 2 && p[0] == p[|p| - 1];
    assert WaitsFor(s, t, t) ==> IsChain(s, p);
  }

  // ---- records against ownership ----

  lemma RecordedHolds(s: State, k: Key, t: Tid) returns (i: nat)
    requires Inv(s) && OwnCount(s.tab, k, t) > 0
    ensures (t, i) in s.calls && s.calls[(t, i)].key == k && s.calls[(t, i)].pc == InBody
    ensures HoldsKey(s, t, k)
  {
    var id :| id in Members(s.calls, Recorded(k, t));
    i := id.1;
    assert id == (t, i);
    assert HoldsAt(s, t, k, i);
  }

  lemma BodyRecorded(s: State, k: Key, t: Tid, i: nat)
    requires Inv(s) && (t, i) in s.calls && s.calls[(t, i)].key == k && s.calls[(t, i)].pc == InBody
    ensures OwnCount(s.tab, k, t) > 0
  {
    assert (t, i) in Members(s.calls, Recorded(k, t));
  }

  /** The records never claim more than the lock objects grant. */
  lemma RecordsAreOwnership(s: State, k: Key, t: Tid)
    requires Reached(s) && OwnCount(s.tab, k, t) > 0
    ensures exists i: nat :: HoldsAt(s, t, k, i)
  {
    ReachedInv(s);
    var i := RecordedHolds(s, k, t);
  }

  /** A thread recorded as waiting for a key with another recorded owner really waits: it is
      not in the window between acquiring and recording. */
  lemma RecordedWaitIsReal(s: State, k: Key, t: Tid, owner: Tid)
    requires Inv(s) && ExclusiveOnly(s)
    requires t in s.tab.waiting && s.tab.waiting[t] == k && OwnCount(s.tab, k, owner) > 0
    ensures WaitingOn(s, t, k)
  {
    hide LocksExact, RefsExact, HeapOk, AllocExact;
    assert WaitAt(s, t);
    var i := RecordedHolds(s, k, owner);
    if Owning(s.calls[Top(s, t)].pc) {
      Exclusion(s, Top(s, t), (owner, i));
    }
  }

  // ---- the detector against the true waits ----

  /** A refusal is genuine: the requester already holds the key, or a holder of the key
      waits, possibly through others, for the requester. */
  lemma {:induction false} RefusalIsGenuine(s: State, t: Tid, p: seq<Key>)
    requires Inv(s) && ExclusiveOnly(s)
    requires IsLockPath(s.tab, t, p) && OwnCount(s.tab, p[|p| - 1], t) > 0
    ensures LeadsTo(s, p[0], t)
    decreases |p|
  {
    hide Inv, Num, HoldsKey;
    if |p| == 1 {
      var i := RecordedHolds(s, p[0], t);
      assert IsChain(s, [t]);
    } else {
      assert Edge(s.tab, t, p[0], p[1]);
      var o :| EdgeVia(s.tab, t, p[0], p[1], o);
      var rest := p[1..];
      assert forall n :: 0 <= n < |rest| ==> rest[n] == p[n + 1];
      RefusalIsGenuine(s, t, rest);
      var chain :| IsChain(s, chain) && HoldsKey(s, chain[0], p[1]) && chain[|chain| - 1] == t;
      var i := RecordedHolds(s, p[0], o);
      var v := RecordedOwner(s, t, rest);
      RecordedWaitIsReal(s, p[1], o, v);
      ChainCons(s, o, chain);
    }
  }

  lemma RecordedOwner(s: State, t: Tid, p: seq<Key>) returns (v: Tid)
    requires IsLockPath(s.tab, t, p) && OwnCount(s.tab, p[|p| - 1], t) > 0
    ensures OwnCount(s.tab, p[0], v) > 0
  {
    if |p| == 1 {
      v := t;
    } else {
      assert Edge(s.tab, t, p[0], p[0 + 1]);
      v :| EdgeVia(s.tab, t, p[0], p[1], v);
    }
  }

  /** The thread's innermost call is about to run its cycle check. */
  ghost predicate JustStarted(s: State, t: Tid) {
    Depth(s, t) > 0 && Top(s, t) in s.calls && s.calls[Top(s, t)].pc == GotRef
  }

  /** A genuine cycle is refused: each thread on the chain waits, so what it holds is
      recorded and the search follows it. */
  lemma {:induction false} GenuineIsRefused(s: State, t: Tid, k: Key, p: seq<Tid>)
    requires Inv(s) && Plain(s) && Acyclic(s) && JustStarted(s, t)
    requires IsChain(s, p) && HoldsKey(s, p[0], k) && p[|p| - 1] == t
    ensures Raises(s.tab, t, k, true)
    decreases |p|
  {
    hide Inv, Plain, Num, WaitsFor, Raises, Acyclic;
    var i: nat :| HoldsAt(s, p[0], k, i);
    if p[0] == t {
      OwnPath(s, t, k, i);
    } else {
      assert WaitsFor(s, p[0], p[0 + 1]);
      var k1 := AwaitedKey(s, p[0], p[1], k);
      ChainPart(s, p, 1, |p|);
      GenuineIsRefused(s, t, k1, p[1..]);
      HolderEdge(s, t, p[0], k, k1, i);
      RaisesThrough(s.tab, t, k, k1);
    }
  }

  lemma OwnPath(s: State, t: Tid, k: Key, i: nat)
    requires Inv(s) && JustStarted(s, t) && HoldsAt(s, t, k, i)
    ensures Raises(s.tab, t, k, true)
  {
    hide LocksExact, RefsExact, HeapOk, AllocExact, WaitExact, Num;
    BodyRecorded(s, k, t, i);
    assert IsLockPath(s.tab, t, [k]);
  }

  /** A thread that holds a key and waits, without waiting for itself, waits for a key
      that the detector sees. */
  lemma AwaitedKey(s: State, t: Tid, u: Tid, held: Key) returns (k: Key)
    requires WaitsFor(s, t, u) && HoldsKey(s, t, held) && Plain(s) && Acyclic(s)
    ensures WaitingOn(s, t, k) && HoldsKey(s, u, k) && k != ""
  {
    k :| WaitingOn(s, t, k) && HoldsKey(s, u, k);
    NoSelfWait(s, t);
    assert k == held ==> WaitsFor(s, t, t);
    var i: nat :| HoldsAt(s, t, held, i);
  }

  /** What a waiting thread holds is recorded, and so is its wait. */
  lemma HolderEdge(s: State, t: Tid, u: Tid, k: Key, k1: Key, i: nat)
    requires Inv(s) && u != t && k1 != ""
    requires HoldsAt(s, u, k, i) && WaitingOn(s, u, k1)
    ensures Edge(s.tab, t, k, k1)
  {
    hide LocksExact, RefsExact, HeapOk, AllocExact, Num;
    BodyRecorded(s, k, u, i);
    assert WaitAt(s, u);
    assert EdgeVia(s.tab, t, k, k1, u);
  }

  lemma RaisesThrough<L>(tab: Table<L>, t: Tid, k: Key, k1: Key)
    requires Raises(tab, t, k1, true) && Edge(tab, t, k, k1)
    ensures Raises(tab, t, k, true)
  {
    var q: seq<Key> :| IsLockPath(tab, t, q) && q[0] == k1 && Closes(tab, t, k1, true, q[|q| - 1]);
    var r := [k] + q;
    forall i {:trigger r[i]} | 0 <= i < |r| - 1 ensures Edge(tab, t, r[i], r[i + 1]) {
      if i > 0 {
        assert Edge(tab, t, q[i - 1], q[i - 1 + 1]);
      }
    }
    assert IsLockPath(tab, t, r);
  }

  // ---- refusals in either mode ----

  /** The thread is inside the body of a call on the key. */
  ghost predicate InsideOf(s: State, t: Tid, k: Key) {
    exists i: nat :: (t, i) in s.calls && s.calls[(t, i)].key == k && s.calls[(t, i)].pc == InBody
  }

  /** From its registration to the record of its ownership. */
  ghost predicate Awaits(s: State, t: Tid, k: Key) {
    && Depth(s, t) > 0 && Top(s, t) in s.calls
    && WaitRecorded(s.calls[Top(s, t)].pc) && s.calls[Top(s, t)].key == k
  }

  /** Each key but the first is awaited by another thread that is inside the key before it. */
  ghost predicate IsAwaitPath(s: State, t: Tid, p: seq<Key>) {
    |p| > 0 && forall i {:trigger p[i]} :: 0 <= i < |p| - 1 ==> Handover(s, t, p[i], p[i + 1])
  }

  ghost predicate Handover(s: State, t: Tid, a: Key, b: Key) {
    b != "" && exists u: Tid :: u != t && InsideOf(s, u, a) && Awaits(s, u, b)
  }

  lemma RecordedInside(s: State, t: Tid, k: Key)
    requires Inv(s)
    ensures OwnCount(s.tab, k, t) > 0 <==> InsideOf(s, t, k)
  {
    hide LocksExact, RefsExact, HeapOk, WaitExact, Num, HoldsKey;
    if OwnCount(s.tab, k, t) > 0 {
      var i := RecordedHolds(s, k, t);
    }
    if i: nat :| (t, i) in s.calls && s.calls[(t, i)].key == k && s.calls[(t, i)].pc == InBody {
      BodyRecorded(s, k, t, i);
    }
  }

  lemma RecordedAwaits(s: State, t: Tid, k: Key)
    requires Inv(s)
    ensures t in s.tab.waiting && s.tab.waiting[t] == k <==> Awaits(s, t, k)
  {
    hide LocksExact, RefsExact, HeapOk, AllocExact, Num;
    assert WaitAt(s, t);
  }

  lemma EdgeIsHandover(s: State, t: Tid, a: Key, b: Key)
    requires Inv(s)
    ensures Edge(s.tab, t, a, b) <==> Handover(s, t, a, b)
  {
    hide Inv, InsideOf, Awaits;
    forall u: Tid ensures EdgeVia(s.tab, t, a, b, u) <==> b != "" && u != t && InsideOf(s, u, a) && Awaits(s, u, b) {
      RecordedInside(s, u, a);
      RecordedAwaits(s, u, b);
    }
  }

  /** In every reachable state, whatever the modes and keys: a request is refused exactly if
      the requester is inside some key at the end of such a path from the requested one, which
      for a shared request does not count if it is the requested key itself. */
  lemma RefusedByCalls(s: State, t: Tid, k: Key, isWrite: bool)
    requires Reached(s)
    ensures Raises(s.tab, t, k, isWrite) <==>
      exists p: seq<Key> :: IsAwaitPath(s, t, p) && p[0] == k && InsideOf(s, t, p[|p| - 1])
        && (isWrite || p[|p| - 1] != k)
  {
    hide Inv, Handover, InsideOf, Edge, IsRun;
    ReachedInv(s);
    forall a, b ensures Edge(s.tab, t, a, b) <==> Handover(s, t, a, b) {
      EdgeIsHandover(s, t, a, b);
    }
    forall p: seq<Key> ensures IsLockPath(s.tab, t, p) <==> IsAwaitPath(s, t, p) {
      PathIsPath(s, t, p);
    }
    forall last ensures OwnCount(s.tab, last, t) > 0 <==> InsideOf(s, t, last) {
      RecordedInside(s, t, last);
    }
  }

  lemma PathIsPath(s: State, t: Tid, p: seq<Key>)
    requires forall a, b :: Edge(s.tab, t, a, b) <==> Handover(s, t, a, b)
    ensures IsLockPath(s.tab, t, p) <==> IsAwaitPath(s, t, p)
  {
    hide Edge, Handover;
  }

  /** No spurious DeadlockError among exclusive calls, whatever the keys. */
  lemma NoSpuriousRefusal(s: State, t: Tid, k: Key)
    requires Inv(s) && ExclusiveOnly(s) && Raises(s.tab, t, k, true)
    ensures LeadsTo(s, k, t)
  {
    hide Inv, ExclusiveOnly, Num;
    var q: seq<Key> :| IsLockPath(s.tab, t, q) && q[0] == k && Closes(s.tab, t, k, true, q[|q| - 1]);
    RefusalIsGenuine(s, t, q);
  }

  /** Exactness: an exclusive request is refused if and only if letting it block would close
      a cycle of real waits. */
  lemma RefusedIffCycle(s: State, t: Tid, k: Key)
    requires Inv(s) && Plain(s) && Acyclic(s) && JustStarted(s, t)
    ensures Raises(s.tab, t, k, true) <==> LeadsTo(s, k, t)
  {
    hide Inv, Plain, ExclusiveOnly, Num, Acyclic;
    assert ExclusiveOnly(s) by { PlainExclusive(s); }
    if Raises(s.tab, t, k, true) {
      NoSpuriousRefusal(s, t, k);
    }
    if LeadsTo(s, k, t) {
      var p: seq<Tid> :| IsChain(s, p) && HoldsKey(s, p[0], k) && p[|p| - 1] == t;
      GenuineIsRefused(s, t, k, p);
    }
  }

  lemma PlainExclusive(s: State)
    requires Plain(s)
    ensures ExclusiveOnly(s)
  {}

  // ---- no cycle ever forms ----

  /** Steps that add no wait. */
  lemma FewerWaits(s: State, s': State)
    requires Acyclic(s)
    requires forall x: Tid, y: Tid :: WaitsFor(s', x, y) ==> WaitsFor(s, x, y)
    ensures Acyclic(s')
  {
    forall p: seq<Tid> | IsChain(s', p) && |p| >= 2 ensures p[0] != p[|p| - 1] {
      assert IsChain(s, p);
    }
  }

  /** Steps after which `t` does not wait and the other threads' waits for each other are
      no more than before: `t` may have become an owner that others wait for. */
  lemma SinkThread(s: State, s': State, t: Tid)
    requires Acyclic(s)
    requires forall y: Tid :: !WaitsFor(s', t, y)
    requires forall x: Tid, y: Tid :: x != t && y != t && WaitsFor(s', x, y) ==> WaitsFor(s, x, y)
    ensures Acyclic(s')
  {
    forall p: seq<Tid> | IsChain(s', p) && |p| >= 2 ensures p[0] != p[|p| - 1] {
      SinkOffCycle(s, s', t, p);
    }
  }

  lemma SinkOffCycle(s: State, s': State, t: Tid, p: seq<Tid>)
    requires IsChain(s', p) && |p| >= 2
    requires forall y: Tid :: !WaitsFor(s', t, y)
    requires forall x: Tid, y: Tid :: x != t && y != t && WaitsFor(s', x, y) ==> WaitsFor(s, x, y)
    ensures p[0] == p[|p| - 1] ==> IsChain(s, p)
  {
    hide WaitsFor;
    forall i {:trigger p[i]} | 0 <= i < |p| - 1 ensures p[i] != t && WaitsFor(s', p[i], p[i + 1]) {
      assert WaitsFor(s', p[i], p[i + 1]);
    }
  }

  lemma FirstReturn(q: seq<Tid>, t: Tid) returns (j: nat)
    requires t in q
    ensures j < |q| && q[j] == t && forall i :: 0 <= i < j ==> q[i] != t
  {
    if q[0] == t {
      j := 0;
    } else {
      j := FirstReturn(q[1..], t);
      j := j + 1;
    }
  }

  /** The step that registers a wait: a cycle would pass through `t`, so a holder of the
      key would lead back to `t` without it. */
  lemma NewWait(s: State, s': State, t: Tid, k: Key)
    requires Acyclic(s) && !LeadsTo(s, k, t)
    requires forall x: Tid, y: Tid :: x != t && WaitsFor(s', x, y) ==> WaitsFor(s, x, y)
    requires forall y: Tid :: WaitsFor(s', t, y) ==> HoldsKey(s, y, k)
    ensures Acyclic(s')
  {
    hide WaitsFor, LeadsTo;
    forall p: seq<Tid> | IsChain(s', p) && |p| >= 2 ensures p[0] != p[|p| - 1] {
      if t in p {
        if p[0] == p[|p| - 1] {
          CycleLeadsBack(s, s', t, k, p);
        }
      } else {
        assert IsChain(s, p);
      }
    }
  }

  lemma CycleLeadsBack(s: State, s': State, t: Tid, k: Key, p: seq<Tid>)
    requires IsChain(s', p) && |p| >= 2 && p[0] == p[|p| - 1] && t in p
    requires forall x: Tid, y: Tid :: x != t && WaitsFor(s', x, y) ==> WaitsFor(s, x, y)
    requires forall y: Tid :: WaitsFor(s', t, y) ==> HoldsKey(s, y, k)
    ensures LeadsTo(s, k, t)
  {
    hide WaitsFor, HoldsKey, IsChain, LeadsTo;
    var i := FirstReturn(p, t);
    RotatedChain(s', p, i);
    RoundLeadsBack(s, s', t, k, p[i..] + p[1..i + 1]);
  }

  lemma RoundLeadsBack(s: State, s': State, t: Tid, k: Key, round: seq<Tid>)
    requires IsChain(s', round) && |round| >= 2 && round[0] == t == round[|round| - 1]
    requires forall x: Tid, y: Tid :: x != t && WaitsFor(s', x, y) ==> WaitsFor(s, x, y)
    requires forall y: Tid :: WaitsFor(s', t, y) ==> HoldsKey(s, y, k)
    ensures LeadsTo(s, k, t)
  {
    hide WaitsFor, HoldsKey;
    assert WaitsFor(s', round[0], round[0 + 1]);
    var tail := round[1..];
    assert tail[|tail| - 1] == t;
    var j := FirstReturn(tail, t);
    ChainPart(s', round, 1, j + 2);
    var back := round[1..j + 2];
    assert forall n :: 0 <= n <= j ==> back[n] == tail[n];
    forall n {:trigger back[n]} | 0 <= n < |back| - 1 ensures WaitsFor(s, back[n], back[n + 1]) {
      assert WaitsFor(s', back[n], back[n + 1]);
    }
    assert IsChain(s, back);
  }

  lemma RotatedChain(s: State, p: seq<Tid>, i: nat)
    requires IsChain(s, p) && |p| >= 2 && p[0] == p[|p| - 1] && i < |p|
    ensures var round := p[i..] + p[1..i + 1];
      |round| == |p| && IsChain(s, round) && round[0] == p[i] && round[|p| - 1] == p[i]
  {
    hide WaitsFor;
    ChainPart(s, p, i, |p|);
    ChainPart(s, p, 0, i + 1);
    ChainJoin(s, p[i..], p[..i + 1]);
    assert p[i..] + p[..i + 1][1..] == p[i..] + p[1..i + 1];
  }

  // ---- steps and waits ----

  /** The calls of every thread but `t` are untouched. */
  ghost predicate OthersSame(s: State, t: Tid, s': State) {
    forall x: Tid :: x != t ==> ThreadSame(s, s', x)
  }

  ghost predicate ThreadSame(s: State, s': State, x: Tid) {
    && Depth(s', x) == Depth(s, x)
    && (forall i: nat :: (x, i) in s'.calls <==> (x, i) in s.calls)
    && (forall i: nat :: (x, i) in s.calls ==> s'.calls[(x, i)] == s.calls[(x, i)])
  }

  lemma RunOthersSame(s: State, t: Tid)
    requires CanRun(s, t)
    ensures OthersSame(s, t, Run(s, t))
  {}

  lemma ThreadSameWaits(s: State, s': State, x: Tid, k: Key)
    requires ThreadSame(s, s', x)
    ensures WaitingOn(s', x, k) == WaitingOn(s, x, k) && HoldsKey(s', x, k) == HoldsKey(s, x, k)
  {
    if HoldsKey(s', x, k) {
      var i: nat :| HoldsAt(s', x, k, i);
      assert HoldsAt(s, x, k, i);
    }
    if HoldsKey(s, x, k) {
      var i: nat :| HoldsAt(s, x, k, i);
      assert HoldsAt(s', x, k, i);
    }
  }

  /** Waits after a step of `t` whose holdings do not grow, between any threads but from `t`. */
  lemma WaitsBack(s: State, t: Tid, s': State, x: Tid, y: Tid)
    requires OthersSame(s, t, s') && WaitsFor(s', x, y)
    requires x == t ==> forall k :: WaitingOn(s', t, k) ==> WaitingOn(s, t, k)
    requires y == t ==> forall k :: HoldsKey(s', t, k) ==> HoldsKey(s, t, k)
    ensures WaitsFor(s, x, y)
  {
    hide WaitingOn, HoldsKey, ThreadSame;
    var k: Key :| WaitingOn(s', x, k) && HoldsKey(s', y, k);
    if x != t {
      ThreadSameWaits(s, s', x, k);
    }
    if y != t {
      ThreadSameWaits(s, s', y, k);
    }
  }

  lemma NoNewOwner(s: State, t: Tid, s': State, k: Key)
    requires forall i: nat :: (t, i) in s'.calls && Owning(s'.calls[(t, i)].pc) ==>
      (t, i) in s.calls && s.calls[(t, i)].key == s'.calls[(t, i)].key && Owning(s.calls[(t, i)].pc)
    ensures HoldsKey(s', t, k) ==> HoldsKey(s, t, k)
  {
    if HoldsKey(s', t, k) {
      var i: nat :| HoldsAt(s', t, k, i);
      assert HoldsAt(s, t, k, i);
    }
  }

  lemma BeginAcyclic(s: State, t: Tid, key: Key, mode: Mode, id: LockId)
    requires Inv(s) && Acyclic(s) && Idle(s, t) && id !in s.heap
    ensures Acyclic(Begin(s, t, key, mode, id))
  {
    hide Inv, Acyclic, WaitsFor;
    var s' := Begin(s, t, key, mode, id);
    assert OthersSame(s, t, s');
    forall k ensures HoldsKey(s', t, k) ==> HoldsKey(s, t, k) {
      NoNewOwner(s, t, s', k);
    }
    forall x: Tid, y: Tid | WaitsFor(s', x, y) ensures WaitsFor(s, x, y) {
      WaitsBack(s, t, s', x, y);
    }
    FewerWaits(s, s');
  }

  lemma RunAcyclic(s: State, t: Tid)
    requires Inv(s) && Plain(s) && Acyclic(s) && CanRun(s, t)
    ensures Acyclic(Run(s, t))
  {
    var s' := Run(s, t);
    RunOthersSame(s, t);
    if Was(s, t).pc == GotRef && s'.calls[Top(s, t)].pc == Registered {
      RegisterAcyclic(s, t);
    } else if Waiting(Was(s, t).pc) && s'.calls[Top(s, t)].pc == Acquired {
      TakeAcyclic(s, t);
    } else {
      OtherAcyclic(s, t);
    }
  }

  lemma RegisterAcyclic(s: State, t: Tid)
    requires Inv(s) && Plain(s) && Acyclic(s) && CanRun(s, t) && OthersSame(s, t, Run(s, t))
    requires Was(s, t).pc == GotRef && Run(s, t).calls[Top(s, t)].pc == Registered
    ensures Acyclic(Run(s, t))
  {
    hide Acyclic, LocksExact, RefsExact, HeapOk, AllocExact, WaitExact, Num, WaitsFor, LeadsTo, Raises;
    var s', key := Run(s, t), Was(s, t).key;
    RefusedIffCycle(s, t, key);
    forall k, y: Tid ensures HoldsKey(s', y, k) ==> HoldsKey(s, y, k) {
      if y == t {
        NoNewOwner(s, t, s', k);
      } else {
        ThreadSameWaits(s, s', y, k);
      }
    }
    forall x: Tid, y: Tid | x != t && WaitsFor(s', x, y) ensures WaitsFor(s, x, y) {
      WaitsBack(s, t, s', x, y);
    }
    forall y: Tid | WaitsFor(s', t, y) ensures HoldsKey(s, y, key) {
      WaitedKey(s', t, y, key);
    }
    NewWait(s, s', t, key);
  }

  lemma WaitedKey(s: State, t: Tid, y: Tid, key: Key)
    requires WaitsFor(s, t, y) && WaitingOn(s, t, key)
    ensures HoldsKey(s, y, key)
  {}

  lemma TakeAcyclic(s: State, t: Tid)
    requires Inv(s) && Acyclic(s) && CanRun(s, t) && OthersSame(s, t, Run(s, t))
    requires Waiting(Was(s, t).pc) && Run(s, t).calls[Top(s, t)].pc == Acquired
    ensures Acyclic(Run(s, t))
  {
    hide Acyclic, LocksExact, RefsExact, HeapOk, AllocExact, WaitExact, Num, HoldsKey;
    var s' := Run(s, t);
    forall x: Tid, y: Tid | x != t && y != t && WaitsFor(s', x, y) ensures WaitsFor(s, x, y) {
      WaitsBack(s, t, s', x, y);
    }
    SinkThread(s, s', t);
  }

  lemma OtherAcyclic(s: State, t: Tid)
    requires Inv(s) && Acyclic(s) && CanRun(s, t) && OthersSame(s, t, Run(s, t))
    requires !(Was(s, t).pc == GotRef && Run(s, t).calls[Top(s, t)].pc == Registered)
    requires !(Waiting(Was(s, t).pc) && Run(s, t).calls[Top(s, t)].pc == Acquired)
    ensures Acyclic(Run(s, t))
  {
    hide Acyclic, LocksExact, RefsExact, HeapOk, AllocExact, WaitExact, Num, WaitsFor;
    var s' := Run(s, t);
    forall k ensures HoldsKey(s', t, k) ==> HoldsKey(s, t, k) {
      NoNewOwner(s, t, s', k);
    }
    forall x: Tid, y: Tid | WaitsFor(s', x, y) ensures WaitsFor(s, x, y) {
      WaitsBack(s, t, s', x, y);
    }
    FewerWaits(s, s');
  }

  // ---- over every run of exclusive calls ----

  ghost predicate Uses(s: State, keys: iset<Key>) {
    forall id :: id in s.calls ==> s.calls[id].mode == Exclusive && s.calls[id].key in keys
  }

  /** A run whose calls are all exclusive, on keys drawn from `keys`. */
  ghost predicate IsRunOver(ss: seq<State>, keys: iset<Key>) {
    IsRun(ss) && forall i {:trigger ss[i]} :: 0 <= i < |ss| ==> Uses(ss[i], keys)
  }

  /** The empty key is not mixed with others. */
  ghost predicate SafeKeys(keys: iset<Key>) {
    "" !in keys || forall k :: k in keys ==> k == ""
  }

  lemma SafePlain(s: State, keys: iset<Key>)
    requires Uses(s, keys) && SafeKeys(keys)
    ensures Plain(s)
  {}

  /** In every reachable state of any number of threads nesting exclusive calls, the graph
      from each waiting thread to the holders of its key has no cycle. */
  lemma {:induction false} NoCycleEver(ss: seq<State>, keys: iset<Key>)
    requires IsRunOver(ss, keys) && SafeKeys(keys)
    ensures Inv(ss[|ss| - 1]) && Acyclic(ss[|ss| - 1])
  {
    hide Inv, Acyclic, Plain, Next, Uses, SafeKeys;
    RunInv(ss);
    if |ss| == 1 {
      InitAcyclic();
    } else {
      var prefix := ss[..|ss| - 1];
      assert IsRunOver(prefix, keys);
      NoCycleEver(prefix, keys);
      assert Next(ss[|ss| - 2], ss[|ss| - 2 + 1]);
      SafePlain(ss[|ss| - 2], keys);
      NextAcyclic(ss[|ss| - 2], ss[|ss| - 1]);
    }
  }

  lemma InitAcyclic()
    ensures Acyclic(INIT)
  {
    forall p: seq<Tid> | |p| >= 2 ensures !IsChain(INIT, p) {
      assert !WaitsFor(INIT, p[0], p[0 + 1]);
    }
  }

  lemma NextAcyclic(s: State, s': State)
    requires Inv(s) && Plain(s) && Acyclic(s) && Next(s, s')
    ensures Acyclic(s')
  {
    hide Inv, Acyclic, Plain;
    if t, key: Key, mode, id :| BeginStep(s, t, key, mode, id, s') {
      BeginAcyclic(s, t, key, mode, id);
    } else {
      var t: Tid :| RunStep(s, t, s');
      RunAcyclic(s, t);
    }
  }

  // ---- progress ----

  /** The thread's next step is not a wait. */
  ghost predicate CanProgress(s: State, t: Tid) {
    && CanRun(s, t)
    && var c := s.calls[Top(s, t)];
    && (Waiting(c.pc) ==> !s.heap[c.lock].Blocks(c.mode))
  }

  ghost predicate HoldsSome(s: State, t: Tid) {
    exists k: Key :: HoldsKey(s, t, k)
  }

  ghost predicate EndsInProgress(s: State, t: Tid) {
    exists p: seq<Tid> :: IsChain(s, p) && |p| >= 2 && p[0] == t
      && HoldsSome(s, p[|p| - 1]) && CanProgress(s, p[|p| - 1])
  }

  lemma UnheldProgress(s: State, u: Tid)
    requires Inv(s) && ExclusiveOnly(s) && Depth(s, u) > 0
    requires forall v: Tid :: !WaitsFor(s, u, v)
    ensures CanProgress(s, u)
  {
    hide Num, AllocExact, WaitExact;
    var id := Top(s, u);
    assert id in s.calls;
    LocksAt(s, s.calls[id].key);
    if Waiting(s.calls[id].pc) {
      var k := s.calls[id].key;
      forall o | o in s.calls && s.calls[o].key == k ensures !Owning(s.calls[o].pc) {
        assert WaitingOn(s, u, k) && !WaitsFor(s, u, o.0);
        assert o == (o.0, o.1) && !HoldsAt(s, o.0, k, o.1);
      }
      FreeLock(s, k);
      if s.calls[id].pc == Blocked {
        AwakeWhenFree(s, id);
      }
    }
  }

  lemma ChainFits(s: State, p: seq<Tid>)
    requires Acyclic(s) && IsChain(s, p) && HoldsSome(s, p[|p| - 1]) && Inv(s)
    ensures |p| <= |s.depth.Keys|
  {
    hide Inv, Acyclic, IsChain, WaitsFor, HoldsSome;
    forall i | 0 <= i < |p| ensures p[i] in s.depth.Keys {
      ChainMember(s, p, i);
    }
    forall i, j | 0 <= i < j < |p| ensures p[i] != p[j] {
      ChainDistinct(s, p, i, j);
    }
    DistinctFits(p, s.depth.Keys);
  }

  lemma ChainMember(s: State, p: seq<Tid>, i: nat)
    requires Inv(s) && IsChain(s, p) && HoldsSome(s, p[|p| - 1]) && i < |p|
    ensures p[i] in s.depth.Keys
  {
    hide Num, LocksExact, RefsExact, HeapOk, AllocExact, WaitExact;
    if i < |p| - 1 {
      assert WaitsFor(s, p[i], p[i + 1]);
    } else {
      var k: Key :| HoldsKey(s, p[i], k);
      var n: nat :| HoldsAt(s, p[i], k, n);
    }
  }

  lemma ChainDistinct(s: State, p: seq<Tid>, i: nat, j: nat)
    requires Acyclic(s) && IsChain(s, p) && i < j < |p|
    ensures p[i] != p[j]
  {
    hide WaitsFor;
    ChainPart(s, p, i, j + 1);
    assert p[i..j + 1][0] == p[i] && p[i..j + 1][j - i] == p[j];
  }

  lemma {:induction false} FollowChain(s: State, p: seq<Tid>)
    requires Inv(s) && ExclusiveOnly(s) && Acyclic(s)
    requires IsChain(s, p) && |p| >= 2 && HoldsSome(s, p[|p| - 1])
    ensures EndsInProgress(s, p[0])
    decreases |s.depth.Keys| + 1 - |p|
  {
    hide Num, LocksExact, RefsExact, HeapOk, AllocExact, WaitExact, Acyclic, CanProgress;
    ChainFits(s, p);
    var u := p[|p| - 1];
    if v: Tid :| WaitsFor(s, u, v) {
      ChainJoin(s, p, [u, v]);
      assert p + [u, v][1..] == p + [v];
      ChainFits(s, p + [v]);
      FollowChain(s, p + [v]);
    } else {
      var k: Key :| HoldsKey(s, u, k);
      UnheldProgress(s, u);
    }
  }

  /** Deadlock freedom: behind every thread that waits for a held key there is, at the end
      of its chain of waits, a lock holder whose next step is not a wait. */
  lemma DeadlockFree(ss: seq<State>, keys: iset<Key>, t: Tid, u: Tid)
    requires IsRunOver(ss, keys) && SafeKeys(keys) && WaitsFor(ss[|ss| - 1], t, u)
    ensures EndsInProgress(ss[|ss| - 1], t)
  {
    hide Inv, Acyclic;
    var s := ss[|ss| - 1];
    NoCycleEver(ss, keys);
    assert IsChain(s, [t, u]);
    FollowChain(s, [t, u]);
  }

  /** A registered waiter never owns the key it waits for. */
  lemma WaiterIsNoOwner(ss: seq<State>, keys: iset<Key>, t: Tid, k: Key)
    requires IsRunOver(ss, keys) && SafeKeys(keys) && WaitingOn(ss[|ss| - 1], t, k)
    ensures !HoldsKey(ss[|ss| - 1], t, k) && OwnCount(ss[|ss| - 1].tab, k, t) == 0
  {
    var s := ss[|ss| - 1];
    NoCycleEver(ss, keys);
    NoSelfWait(s, t);
    if OwnCount(s.tab, k, t) > 0 {
      var i := RecordedHolds(s, k, t);
    }
    assert OwnCount(s.tab, k, t) == Num(s.calls, Recorded(k, t));
  }
}
