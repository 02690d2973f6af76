/** The reader-writer lock of the lock table: three counters guarded by one condition
    variable.  A blocking acquire is split at `wait`: every attempt runs under the
    condition and either acquires or goes to sleep in the condition's wait set. */
module RWLocks {
  type Tid = nat

  datatype Mode = Shared | Exclusive

  /** `sleepers` is the condition's wait set: threads inside `wait` that no
      notification has reached yet. */
  datatype RW = RW(readers: int, writers: int, requests: int, sleepers: set<Tid>) {
    predicate Blocks(mode: Mode) {
      match mode
      case Shared => writers > 0 || requests > 0
      case Exclusive => readers > 0 || writers > 0
    }
  }

  const FRESH_LOCK: RW := RW(0, 0, 0, {})

  /** One pass through the wait loop of acquire_read or acquire_write.  `first` tells the
      entry of the call (where a writer files its request) from a pass after a wake-up. */
  function Attempt(l: RW, t: Tid, mode: Mode, first: bool): (RW, bool) {
    var l1 := if mode == Exclusive && first then l.(requests := l.requests + 1) else l;
    if l1.Blocks(mode) then (l1.(sleepers := l1.sleepers + {t}), false)
    else match mode
      case Shared => (l1.(readers := l1.readers + 1), true)
      case Exclusive => (l1.(requests := l1.requests - 1, writers := l1.writers + 1), true)
  }

  /** release_read notifies only when the last reader leaves; release_write always. */
  function Release(l: RW, mode: Mode): RW {
    match mode
    case Shared =>
      var l1 := l.(readers := l.readers - 1);
      if l1.readers == 0 then l1.(sleepers := {}) else l1
    case Exclusive => l.(writers := l.writers - 1, sleepers := {})
  }

  class RWLock {
    var readers: int
    var writers: int
    var writeRequests: int
    var sleepers: set<Tid>

    function View(): RW
      reads this
    {
      RW(readers, writers, writeRequests, sleepers)
    }

    constructor ()
      ensures View() == FRESH_LOCK
    {
      readers, writers, writeRequests, sleepers := 0, 0, 0, {};
    }

    /** acquire_read up to its acquisition or its next `wait`. */
    method AcquireReadPass(t: Tid, first: bool) returns (acquired: bool)
      modifies this
      ensures (View(), acquired) == Attempt(old(View()), t, Shared, first)
    {
      if writers > 0 || writeRequests > 0 {
        sleepers := sleepers + {t};
        return false;
      }
      readers := readers + 1;
      return true;
    }

    /** acquire_write up to its acquisition or its next `wait`. */
    method AcquireWritePass(t: Tid, first: bool) returns (acquired: bool)
      modifies this
      ensures (View(), acquired) == Attempt(old(View()), t, Exclusive, first)
    {
      if first {
        writeRequests := writeRequests + 1;
      }
      if readers > 0 || writers > 0 {
        sleepers := sleepers + {t};
        return false;
      }
      writeRequests := writeRequests - 1;
      writers := writers + 1;
      return true;
    }

    method ReleaseRead()
      modifies this
      ensures View() == Release(old(View()), Shared)
    {
      readers := readers - 1;
      if readers == 0 {
        sleepers := {};
      }
    }

    method ReleaseWrite()
      modifies this
      ensures View() == Release(old(View()), Exclusive)
    {
      writers := writers - 1;
      sleepers := {};
    }
  }
}
