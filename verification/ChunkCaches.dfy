/** The in-memory chunk cache: least recently used first out, bounded by a number of chunks
    and a number of bytes, with incremental byte and prefetch accounting. */
module ChunkCaches {
  import opened FileContents
  import opened FiniteSets

  type CacheKey = (FileId, nat)

  datatype Entry = Entry(key: CacheKey, value: Bytes)

  datatype Limits = Limits(chunks: int, bytes: int)

  /** `entries` is the ordered dictionary, least recently used first; `flagged` the keys
      put by a prefetch and not yet used. */
  datatype Cache = Cache(
    entries: seq<Entry>, flagged: set<CacheKey>, bytes: int, hits: int, waste: int, evictions: int)

  ghost function Keys(es: seq<Entry>): set<CacheKey> {
    set i | 0 <= i < |es| :: es[i].key
  }

  function Total(es: seq<Entry>): int {
    if es == [] then 0 else |es[0].value| + Total(es[1..])
  }

  function Without(es: seq<Entry>, key: CacheKey): seq<Entry> {
    if es == [] then []
    else if es[0].key == key then Without(es[1..], key)
    else [es[0]] + Without(es[1..], key)
  }

  function Find(es: seq<Entry>, key: CacheKey): Option<Bytes> {
    if es == [] then None
    else if es[0].key == key then Some(es[0].value)
    else Find(es[1..], key)
  }

  ghost predicate Distinct(es: seq<Entry>) {
    forall i, j :: 0 <= i < j < |es| ==> es[i].key != es[j].key
  }

  predicate Fits(es: seq<Entry>, lim: Limits) {
    |es| <= lim.chunks && Total(es) <= lim.bytes
  }

  // ---- what the operations mean ----

  /** Drops the oldest entries until both bounds hold or nothing is left. */
  function Evict(es: seq<Entry>, lim: Limits): seq<Entry> {
    if es == [] || Fits(es, lim) then es else Evict(es[1..], lim)
  }

  function Touch(es: seq<Entry>, key: CacheKey, value: Bytes): seq<Entry> {
    Without(es, key) + [Entry(key, value)]
  }

  function Get(c: Cache, key: CacheKey): Cache {
    match Find(c.entries, key)
    case None => c
    case Some(value) => c.(entries := Touch(c.entries, key, value), flagged := c.flagged - {key},
                           hits := c.hits + if key in c.flagged then 1 else 0)
  }

  /** The entry replaced or added, its flag set or cleared, nothing evicted yet. */
  function Replace(c: Cache, key: CacheKey, value: Bytes, isPrefetch: bool): Cache {
    var es := Touch(c.entries, key, value);
    c.(entries := es, bytes := Total(es),
       flagged := if isPrefetch then c.flagged + {key} else c.flagged - {key})
  }

  ghost function EvictCache(c: Cache, lim: Limits): Cache {
    var kept := Evict(c.entries, lim);
    Cache(kept, c.flagged * Keys(kept), Total(kept), c.hits,
          c.waste + |c.flagged - Keys(kept)|, c.evictions + |c.entries| - |kept|)
  }

  ghost function Put(c: Cache, lim: Limits, key: CacheKey, value: Bytes, isPrefetch: bool): Cache {
    EvictCache(Replace(c, key, value, isPrefetch), lim)
  }

  function Invalidate(c: Cache, key: CacheKey): Cache {
    c.(entries := Without(c.entries, key), flagged := c.flagged - {key}, bytes := Total(Without(c.entries, key)))
  }

  ghost predicate Sound(c: Cache) {
    && Distinct(c.entries)
    && c.bytes == Total(c.entries)
    && c.flagged <= Keys(c.entries)
  }

  // ---- sequence facts ----

  lemma {:induction false} FindIn(es: seq<Entry>, key: CacheKey)
    ensures Find(es, key).Some? <==> key in Keys(es)
    ensures forall i :: 0 <= i < |es| && es[i].key == key && Distinct(es) ==> Find(es, key) == Some(es[i].value)
  {
    if es != [] {
      FindIn(es[1..], key);
      assert Keys(es) == {es[0].key} + Keys(es[1..]);
    }
  }

  lemma KeysConcat(a: seq<Entry>, b: seq<Entry>)
    ensures Keys(a + b) == Keys(a) + Keys(b)
  {
    forall k | k in Keys(a) + Keys(b) ensures k in Keys(a + b) {
      if i: nat :| i < |a| && a[i].key == k {
        assert (a + b)[i].key == k;
      } else {
        var i: nat :| i < |b| && b[i].key == k;
        assert (a + b)[|a| + i].key == k;
      }
    }
  }

  lemma KeysOne(e: Entry)
    ensures Keys([e]) == {e.key}
  {
    assert [e][0].key == e.key;
  }

  lemma KeysCons(es: seq<Entry>)
    requires es != []
    ensures Keys(es) == {es[0].key} + Keys(es[1..])
  {
    KeysOne(es[0]);
    KeysConcat([es[0]], es[1..]);
    assert es == [es[0]] + es[1..];
  }

  lemma {:induction false} WithoutKeys(es: seq<Entry>, key: CacheKey)
    ensures Keys(Without(es, key)) == Keys(es) - {key}
    ensures key !in Keys(es) ==> Without(es, key) == es
  {
    if es != [] {
      WithoutKeys(es[1..], key);
      KeysCons(es);
      KeysOne(es[0]);
      KeysConcat([es[0]], Without(es[1..], key));
    }
  }

  lemma {:induction false} WithoutDistinct(es: seq<Entry>, key: CacheKey)
    requires Distinct(es)
    ensures Distinct(Without(es, key))
  {
    if es != [] {
      WithoutDistinct(es[1..], key);
      var rest := Without(es[1..], key);
      WithoutKeys(es[1..], key);
      forall i | 0 <= i < |rest| ensures rest[i].key != es[0].key {
        assert rest[i].key in Keys(rest);
      }
    }
  }

  lemma {:induction false} TotalConcat(a: seq<Entry>, b: seq<Entry>)
    ensures Total(a + b) == Total(a) + Total(b)
  {
    if a == [] {
      assert a + b == b;
    } else {
      TotalConcat(a[1..], b);
      assert (a + b)[1..] == a[1..] + b;
    }
  }

  lemma {:induction false} WithoutTotal(es: seq<Entry>, key: CacheKey)
    requires Distinct(es)
    ensures Total(Without(es, key)) == Total(es) - match Find(es, key) case None => 0 case Some(v) => |v|
  {
    if es != [] {
      WithoutTotal(es[1..], key);
      if es[0].key == key {
        WithoutKeys(es[1..], key);
        FindIn(es[1..], key);
        assert key !in Keys(es[1..]);
      } else {
        assert ([es[0]] + Without(es[1..], key))[1..] == Without(es[1..], key);
      }
    }
  }

  lemma {:induction false} WithoutConcat(a: seq<Entry>, b: seq<Entry>, key: CacheKey)
    ensures Without(a + b, key) == Without(a, key) + Without(b, key)
  {
    if a == [] {
      assert a + b == b;
    } else {
      WithoutConcat(a[1..], b, key);
      assert (a + b)[1..] == a[1..] + b;
    }
  }

  lemma TouchSound(es: seq<Entry>, key: CacheKey, value: Bytes)
    requires Distinct(es)
    ensures Distinct(Touch(es, key, value)) && Keys(Touch(es, key, value)) == Keys(es) + {key}
    ensures Total(Touch(es, key, value)) == Total(Without(es, key)) + |value|
  {
    WithoutKeys(es, key);
    WithoutDistinct(es, key);
    var rest := Without(es, key);
    assert forall i :: 0 <= i < |rest| ==> rest[i].key in Keys(rest);
    KeysConcat(rest, [Entry(key, value)]);
    KeysOne(Entry(key, value));
    TotalConcat(rest, [Entry(key, value)]);
  }

  // ---- eviction is minimal and exact ----

  lemma {:induction false} EvictSuffix(es: seq<Entry>, lim: Limits) returns (i: nat)
    ensures i <= |es| && Evict(es, lim) == es[i..]
    ensures i < |es| ==> Fits(es[i..], lim)
    ensures forall j :: 0 <= j < i ==> !Fits(es[j..], lim)
  {
    if es == [] || Fits(es, lim) {
      i := 0;
      assert es[0..] == es;
    } else {
      var n := EvictSuffix(es[1..], lim);
      i := n + 1;
      assert es[1..][n..] == es[i..];
      forall j | 0 <= j < i ensures !Fits(es[j..], lim) {
        if j == 0 {
          assert es[0..] == es;
        } else {
          assert es[1..][j - 1..] == es[j..];
        }
      }
    }
  }

  /** What eviction keeps is the longest most recent run of entries within both bounds: it is
      within them unless empty, and with one entry more it would not be. */
  lemma EvictLongest(es: seq<Entry>, lim: Limits)
    ensures var kept := Evict(es, lim); var n := |es| - |kept|;
      && n >= 0 && kept == es[n..]
      && (kept != [] ==> |kept| <= lim.chunks && Total(kept) <= lim.bytes)
      && (n > 0 ==> |kept| + 1 > lim.chunks || Total(kept) + |es[n - 1].value| > lim.bytes)
  {
    var i := EvictSuffix(es, lim);
    if i > 0 {
      assert es[i - 1..] == [es[i - 1]] + es[i..];
    }
  }

  /** A value over the byte bound leaves the cache empty, with zero bytes. */
  lemma OversizedEmpties(c: Cache, lim: Limits, key: CacheKey, value: Bytes, isPrefetch: bool)
    requires |value| > lim.bytes
    ensures Put(c, lim, key, value, isPrefetch).entries == [] && Put(c, lim, key, value, isPrefetch).bytes == 0
  {
    var es := Touch(c.entries, key, value);
    var i := EvictSuffix(es, lim);
    if i < |es| {
      assert es[i..] == es[i..|es| - 1] + [es[|es| - 1]];
      TotalConcat(es[i..|es| - 1], [es[|es| - 1]]);
      TotalNat(es[i..|es| - 1]);
    }
  }

  lemma {:induction false} TotalNat(es: seq<Entry>)
    ensures Total(es) >= 0
  {
    if es != [] {
      TotalNat(es[1..]);
    }
  }

  lemma {:induction false} SuffixKeys(es: seq<Entry>, i: nat)
    requires i <= |es| && Distinct(es)
    ensures Distinct(es[i..]) && Keys(es) == Keys(es[..i]) + Keys(es[i..]) && Keys(es[..i]) !! Keys(es[i..])
  {
    assert forall n :: 0 <= n < |es| ==> es[n] == if n < i then es[..i][n] else es[i..][n - i];
  }

  lemma PutSound(c: Cache, lim: Limits, key: CacheKey, value: Bytes, isPrefetch: bool)
    requires Sound(c)
    ensures Sound(Put(c, lim, key, value, isPrefetch))
  {
    var es := Touch(c.entries, key, value);
    TouchSound(c.entries, key, value);
    var i := EvictSuffix(es, lim);
    SuffixKeys(es, i);
  }

  lemma GetSound(c: Cache, key: CacheKey)
    requires Sound(c)
    ensures Sound(Get(c, key))
  {
    FindIn(c.entries, key);
    if value: Bytes :| Find(c.entries, key) == Some(value) {
      TouchSound(c.entries, key, value);
      WithoutTotal(c.entries, key);
    }
  }

  lemma InvalidateSound(c: Cache, key: CacheKey)
    requires Sound(c)
    ensures Sound(Invalidate(c, key))
  {
    WithoutKeys(c.entries, key);
    WithoutDistinct(c.entries, key);
  }

  // ---- over every run ----

  datatype Op =
    | DoGet(key: CacheKey)
    | DoPut(key: CacheKey, value: Bytes, isPrefetch: bool)
    | DoInvalidate(key: CacheKey)

  ghost function Apply(c: Cache, lim: Limits, op: Op): Cache {
    match op
    case DoGet(k) => Get(c, k)
    case DoPut(k, v, p) => Put(c, lim, k, v, p)
    case DoInvalidate(k) => Invalidate(c, k)
  }

  ghost function RunOps(c: Cache, lim: Limits, ops: seq<Op>): Cache {
    if ops == [] then c else Apply(RunOps(c, lim, ops[..|ops| - 1]), lim, ops[|ops| - 1])
  }

  const EMPTY: Cache := Cache([], {}, 0, 0, 0, 0)

  lemma {:induction false} RunSound(lim: Limits, ops: seq<Op>)
    ensures Sound(RunOps(EMPTY, lim, ops))
  {
    if ops != [] {
      RunSound(lim, ops[..|ops| - 1]);
      var c, op := RunOps(EMPTY, lim, ops[..|ops| - 1]), ops[|ops| - 1];
      match op
      case DoGet(k) => GetSound(c, k);
      case DoPut(k, v, p) => PutSound(c, lim, k, v, p);
      case DoInvalidate(k) => InvalidateSound(c, k);
    }
  }

  /** Puts made by prefetches. */
  function PrefetchPuts(ops: seq<Op>): nat {
    if ops == [] then 0
    else PrefetchPuts(ops[..|ops| - 1]) + if ops[|ops| - 1].DoPut? && ops[|ops| - 1].isPrefetch then 1 else 0
  }

  /** Flags that an overwrite or an invalidation took away. */
  ghost function FlagsDropped(lim: Limits, ops: seq<Op>): nat {
    if ops == [] then 0
    else
      var op := ops[|ops| - 1];
      FlagsDropped(lim, ops[..|ops| - 1])
        + if !op.DoGet? && op.key in RunOps(EMPTY, lim, ops[..|ops| - 1]).flagged then 1 else 0
  }

  /** Every prefetched entry is a hit, waste, a dropped flag or still flagged: exactly one. */
  lemma {:induction false} PrefetchConserved(lim: Limits, ops: seq<Op>)
    ensures var c := RunOps(EMPTY, lim, ops);
      PrefetchPuts(ops) == c.hits + c.waste + FlagsDropped(lim, ops) + |c.flagged|
      && c.flagged <= Keys(c.entries)
  {
    RunSound(lim, ops);
    if ops != [] {
      var before := ops[..|ops| - 1];
      PrefetchConserved(lim, before);
      var c, op := RunOps(EMPTY, lim, before), ops[|ops| - 1];
      FlagsMove(c, lim, op);
    }
  }

  /** One operation moves each flag to at most one class. */
  lemma FlagsMove(c: Cache, lim: Limits, op: Op)
    requires c.flagged <= Keys(c.entries)
    ensures var c' := Apply(c, lim, op);
      |c.flagged| + (if op.DoPut? && op.isPrefetch then 1 else 0)
        == |c'.flagged| + (c'.hits - c.hits) + (c'.waste - c.waste)
         + (if !op.DoGet? && op.key in c.flagged then 1 else 0)
  {
    hide Keys, Find;
    CardWithout(c.flagged, op.key);
    FindIn(c.entries, op.key);
    if op.DoPut? {
      var c1 := Replace(c, op.key, op.value, op.isPrefetch);
      CardSplit(c1.flagged, Keys(Evict(c1.entries, lim)));
      CardWithout(c1.flagged, op.key);
      assert c1.flagged - {op.key} == c.flagged - {op.key};
    }
  }

  /** What one operation does to the three metrics: a get of a flagged key is a hit, a flagged
      entry that is evicted is waste, and every entry that is evicted is an eviction. */
  lemma CountersMove(c: Cache, lim: Limits, op: Op)
    requires c.flagged <= Keys(c.entries) && Distinct(c.entries)
    ensures var c' := Apply(c, lim, op);
      && c'.hits == c.hits + (if op.DoGet? && op.key in c.flagged then 1 else 0)
      && c'.waste == c.waste + |FlagsEvicted(c, c', op)|
      && c'.evictions == c.evictions + |KeysEvicted(c, c', op)|
  {
    hide Find, Touch, Keys, Distinct, Evict, Total;
    FindIn(c.entries, op.key);
    if op.DoPut? {
      var es := Touch(c.entries, op.key, op.value);
      TouchSound(c.entries, op.key, op.value);
      EvictedKeys(es, lim);
      var c1 := Replace(c, op.key, op.value, op.isPrefetch);
      var c' := Apply(c, lim, op);
      assert KeysEvicted(c, c', op) == Keys(es) - Keys(Evict(es, lim));
      assert FlagsEvicted(c, c', op) == c1.flagged - Keys(Evict(es, lim));
    }
  }

  lemma EvictedKeys(es: seq<Entry>, lim: Limits)
    requires Distinct(es)
    ensures |Keys(es) - Keys(Evict(es, lim))| == |es| - |Evict(es, lim)|
  {
    var i := EvictSuffix(es, lim);
    SuffixKeys(es, i);
    KeysSize(es[..i]);
    assert Keys(es) - Keys(es[i..]) == Keys(es[..i]);
  }

  /** The keys that a put has driven out, and those of them that were still flagged. */
  ghost function KeysEvicted(c: Cache, c': Cache, op: Op): set<CacheKey> {
    if op.DoPut? then Keys(c.entries) + {op.key} - Keys(c'.entries) else {}
  }

  ghost function FlagsEvicted(c: Cache, c': Cache, op: Op): set<CacheKey> {
    set k | k in KeysEvicted(c, c', op) && (if k == op.key then op.isPrefetch else k in c.flagged)
  }

  lemma {:induction false} KeysSize(es: seq<Entry>)
    requires Distinct(es)
    ensures |Keys(es)| == |es|
  {
    if es != [] {
      SuffixKeys(es, 1);
      assert es[..1] == [es[0]];
      KeysOne(es[0]);
      KeysSize(es[1..]);
    }
  }

  /** What the operations of a run, and nothing else, make of a key: the value last put, unless
      invalidated since. */
  function Latest(ops: seq<Op>, key: CacheKey): Option<Bytes> {
    if ops == [] then None
    else
      var op := ops[|ops| - 1];
      if op.key != key || op.DoGet? then Latest(ops[..|ops| - 1], key)
      else if op.DoPut? then Some(op.value) else None
  }

  /** The last operation on the key is a put by a prefetch. */
  predicate PrefetchedLast(ops: seq<Op>, key: CacheKey) {
    ops != [] &&
      var op := ops[|ops| - 1];
      if op.key == key then op.DoPut? && op.isPrefetch else PrefetchedLast(ops[..|ops| - 1], key)
  }

  lemma FindKept(c: Cache, lim: Limits, op: Op, key: CacheKey)
    requires Sound(c)
    ensures var c' := Apply(c, lim, op);
      && Sound(c')
      && (op.key != key && key in Keys(c'.entries) ==>
            key in Keys(c.entries) && Find(c'.entries, key) == Find(c.entries, key)
            && (key in c'.flagged <==> key in c.flagged))
      && (op.key == key && key in Keys(c'.entries) ==>
            !op.DoInvalidate? && (key in c'.flagged <==> op.DoPut? && op.isPrefetch)
            && Find(c'.entries, key) == if op.DoPut? then Some(op.value) else Find(c.entries, key))
  {
    hide Find, Without, Keys, Distinct, Total, Evict;
    match op
    case DoGet(k) =>
      GetSound(c, k);
      FindIn(c.entries, k);
      if value: Bytes :| Find(c.entries, k) == Some(value) {
        TouchFind(c.entries, k, value, key);
      }
    case DoPut(k, v, p) =>
      PutSound(c, lim, k, v, p);
      TouchFind(c.entries, k, v, key);
      EvictFind(Touch(c.entries, k, v), lim, key);
    case DoInvalidate(k) =>
      InvalidateSound(c, k);
      WithoutKeys(c.entries, k);
      if key != k {
        WithoutFind(c.entries, k, key);
      }
  }

  lemma {:induction false} WithoutFind(es: seq<Entry>, gone: CacheKey, key: CacheKey)
    requires key != gone
    ensures Find(Without(es, gone), key) == Find(es, key)
  {
    if es != [] {
      WithoutFind(es[1..], gone, key);
    }
  }

  lemma {:induction false} FindConcat(a: seq<Entry>, b: seq<Entry>, key: CacheKey)
    ensures Find(a + b, key) == if Find(a, key).Some? then Find(a, key) else Find(b, key)
  {
    if a == [] {
      assert a + b == b;
    } else {
      FindConcat(a[1..], b, key);
      assert (a + b)[1..] == a[1..] + b;
    }
  }

  lemma TouchFind(es: seq<Entry>, touched: CacheKey, value: Bytes, key: CacheKey)
    requires Distinct(es)
    ensures Distinct(Touch(es, touched, value)) && Keys(Touch(es, touched, value)) == Keys(es) + {touched}
    ensures Find(Touch(es, touched, value), key) == if key == touched then Some(value) else Find(es, key)
  {
    hide Distinct, Keys;
    TouchSound(es, touched, value);
    FindConcat(Without(es, touched), [Entry(touched, value)], key);
    if key == touched {
      WithoutKeys(es, touched);
      FindIn(Without(es, touched), key);
    } else {
      WithoutFind(es, touched, key);
    }
  }

  lemma EvictFind(es: seq<Entry>, lim: Limits, key: CacheKey)
    requires Distinct(es)
    ensures Keys(Evict(es, lim)) <= Keys(es)
    ensures key in Keys(Evict(es, lim)) ==> Find(Evict(es, lim), key) == Find(es, key)
  {
    hide Find;
    var i := EvictSuffix(es, lim);
    SuffixKeys(es, i);
    assert es[..i] + es[i..] == es;
    FindConcat(es[..i], es[i..], key);
    FindIn(es[..i], key);
  }

  /** After every run a cached value is the one put last and not invalidated since, and a
      cached key is flagged exactly if the last operation on it was a put by a prefetch. */
  lemma {:induction false} HoldsLatest(lim: Limits, ops: seq<Op>, key: CacheKey)
    requires key in Keys(RunOps(EMPTY, lim, ops).entries)
    ensures var c := RunOps(EMPTY, lim, ops);
      Find(c.entries, key).Some? && Find(c.entries, key) == Latest(ops, key)
      && (key in c.flagged <==> PrefetchedLast(ops, key))
  {
    hide Find, Keys, Sound, Apply;
    NothingCached(key);
    if ops != [] {
      var before, op := ops[..|ops| - 1], ops[|ops| - 1];
      var c := RunOps(EMPTY, lim, before);
      RunSound(lim, before);
      FindKept(c, lim, op, key);
      FindIn(RunOps(EMPTY, lim, ops).entries, key);
      FindIn(c.entries, key);
      if key in Keys(c.entries) {
        HoldsLatest(lim, before, key);
      }
    }
  }

  lemma NothingCached(key: CacheKey)
    ensures key !in Keys([])
  {}

  /** The recency order that the hits, puts and invalidations of a run define, nothing
      ever evicted from it. */
  ghost function Recency(lim: Limits, ops: seq<Op>): seq<Entry> {
    if ops == [] then []
    else
      var order := Recency(lim, ops[..|ops| - 1]);
      var c := RunOps(EMPTY, lim, ops[..|ops| - 1]);
      match ops[|ops| - 1]
      case DoPut(k, v, _) => Touch(order, k, v)
      case DoGet(k) => (match Find(c.entries, k) case Some(v) => Touch(order, k, v) case None => order)
      case DoInvalidate(k) => if k in Keys(c.entries) then Without(order, k) else order
  }

  ghost predicate IsSuffix(es: seq<Entry>, order: seq<Entry>) {
    |es| <= |order| && es == order[|order| - |es|..]
  }

  lemma SuffixWithout(es: seq<Entry>, order: seq<Entry>, key: CacheKey)
    requires IsSuffix(es, order)
    ensures IsSuffix(Without(es, key), Without(order, key))
  {
    var a := order[..|order| - |es|];
    assert order == a + es;
    WithoutConcat(a, es, key);
  }

  lemma SuffixTouch(es: seq<Entry>, order: seq<Entry>, key: CacheKey, value: Bytes)
    requires IsSuffix(es, order)
    ensures IsSuffix(Touch(es, key, value), Touch(order, key, value))
  {
    SuffixWithout(es, order, key);
    var a, b := Without(es, key), Without(order, key);
    assert Touch(order, key, value)[|b| - |a|..] == b[|b| - |a|..] + [Entry(key, value)];
  }

  /** The cache always holds the most recent part of the recency order: whatever was evicted
      is less recent than everything kept. */
  lemma {:induction false} KeepsMostRecent(lim: Limits, ops: seq<Op>)
    ensures IsSuffix(RunOps(EMPTY, lim, ops).entries, Recency(lim, ops))
  {
    if ops != [] {
      var before := ops[..|ops| - 1];
      KeepsMostRecent(lim, before);
      var c, order, op := RunOps(EMPTY, lim, before), Recency(lim, before), ops[|ops| - 1];
      match op
      case DoPut(k, v, p) =>
        SuffixTouch(c.entries, order, k, v);
        var i := EvictSuffix(Touch(c.entries, k, v), lim);
      case DoGet(k) =>
        if v: Bytes :| Find(c.entries, k) == Some(v) {
          SuffixTouch(c.entries, order, k, v);
        }
      case DoInvalidate(k) =>
        SuffixWithout(c.entries, order, k);
        WithoutKeys(c.entries, k);
    }
  }

  // ---- the cache itself ----

  lemma PopOldest(es: seq<Entry>, flags: set<CacheKey>)
    requires es != [] && Distinct(es)
    ensures Distinct(es[1..]) && Keys(es[1..]) == Keys(es) - {es[0].key}
    ensures |flags - Keys(es[1..])| == |flags - Keys(es)| + if es[0].key in flags then 1 else 0
    ensures Total(es) == |es[0].value| + Total(es[1..]) && es[0].key in Keys(es)
  {
    SuffixKeys(es, 1);
    KeysCons(es);
    assert es[..1] == [es[0]];
    KeysOne(es[0]);
    CardWithout(flags - Keys(es[1..]), es[0].key);
    assert flags - Keys(es[1..]) - {es[0].key} == flags - Keys(es);
  }

  lemma EvictStep(es: seq<Entry>, lim: Limits)
    requires es != [] && !Fits(es, lim)
    ensures Evict(es, lim) == Evict(es[1..], lim)
  {}

  lemma EvictDone(es: seq<Entry>, lim: Limits)
    requires es == [] || Fits(es, lim)
    ensures Evict(es, lim) == es
  {}

  lemma ReplaceSound(c: Cache, key: CacheKey, value: Bytes, p: bool)
    requires Sound(c)
    ensures Sound(Replace(c, key, value, p))
    ensures Replace(c, key, value, p).bytes
         == c.bytes + |value| - match Find(c.entries, key) case None => 0 case Some(v) => |v|
    ensures Find(c.entries, key).None? ==> Without(c.entries, key) == c.entries && key !in c.flagged
  {
    hide Distinct;
    FindIn(c.entries, key);
    WithoutKeys(c.entries, key);
    WithoutTotal(c.entries, key);
    TouchSound(c.entries, key, value);
  }

  class InMemoryChunkCache {
    const limits: Limits
    var entries: seq<Entry>
    var prefetchStatus: set<CacheKey>
    var currentBytes: int
    var prefetchHits: int
    var prefetchWaste: int
    var cacheEvictions: int
    var sizeChunks: int
    var sizeBytes: int

    function View(): Cache
      reads this
    {
      Cache(entries, prefetchStatus, currentBytes, prefetchHits, prefetchWaste, cacheEvictions)
    }

    ghost predicate Valid()
      reads this
    {
      Sound(View()) && sizeChunks == |entries| && sizeBytes == currentBytes
    }

    constructor (limits: Limits)
      ensures Valid() && View() == EMPTY && this.limits == limits
    {
      this.limits := limits;
      entries, prefetchStatus, currentBytes := [], {}, 0;
      prefetchHits, prefetchWaste, cacheEvictions := 0, 0, 0;
      sizeChunks, sizeBytes := 0, 0;
    }

    /** A hit becomes the most recent entry and uses up its prefetch flag. */
    method GetChunk(key: CacheKey) returns (value: Option<Bytes>)
      requires Valid()
      modifies this
      ensures Valid()
      ensures View() == Get(old(View()), key) && value == Find(old(entries), key)
    {
      GetSound(View(), key);
      FindIn(entries, key);
      value := Find(entries, key);
      if value.Some? {
        TouchSound(entries, key, value.value);
        WithoutTotal(entries, key);
        WithoutSize(entries, key);
        entries := Without(entries, key) + [Entry(key, value.value)];
        if key in prefetchStatus {
          prefetchHits := prefetchHits + 1;
          prefetchStatus := prefetchStatus - {key};
        }
      }
    }

    method PutChunk(key: CacheKey, value: Bytes, isPrefetch: bool)
      requires Valid()
      modifies this
      ensures Valid()
      ensures View() == Put(old(View()), limits, key, value, isPrefetch)
    {
      hide Keys, Total, Evict, EvictCache, Find, Without, Sound;
      ghost var c := View();
      ReplaceSound(c, key, value, isPrefetch);
      var known := Find(entries, key);
      if known.Some? {
        if key in prefetchStatus {
          prefetchStatus := prefetchStatus - {key};
        }
        currentBytes := currentBytes - |known.value|;
        entries := Without(entries, key);
      }
      entries := entries + [Entry(key, value)];
      if isPrefetch {
        prefetchStatus := prefetchStatus + {key};
      }
      currentBytes := currentBytes + |value|;
      assert View() == Replace(c, key, value, isPrefetch);
      EvictIfNeeded();
      UpdateMetrics();
    }

    method InvalidateKey(key: CacheKey)
      requires Valid()
      modifies this
      ensures Valid()
      ensures View() == Invalidate(old(View()), key)
    {
      InvalidateSound(View(), key);
      FindIn(entries, key);
      WithoutKeys(entries, key);
      WithoutTotal(entries, key);
      var known := Find(entries, key);
      if known.Some? {
        prefetchStatus := prefetchStatus - {key};
        currentBytes := currentBytes - |known.value|;
        entries := Without(entries, key);
        UpdateMetrics();
      }
    }

    /** Pops the oldest entry while a bound is exceeded. */
    method EvictIfNeeded()
      requires Sound(View())
      modifies this`entries, this`currentBytes, this`prefetchStatus, this`prefetchWaste, this`cacheEvictions
      ensures Sound(View()) && View() == EvictCache(old(View()), limits)
    {
      hide Keys, Total, Distinct, Evict;
      assert prefetchStatus - Keys(entries) == {};
      while entries != [] && (|entries| > limits.chunks || currentBytes > limits.bytes)
        invariant Sound(View()) && Evict(entries, limits) == Evict(old(entries), limits)
        invariant prefetchStatus == old(prefetchStatus) * Keys(entries)
        invariant prefetchWaste == old(prefetchWaste) + |old(prefetchStatus) - Keys(entries)|
        invariant cacheEvictions == old(cacheEvictions) + |old(entries)| - |entries|
        decreases |entries|
      {
        PopOldest(entries, old(prefetchStatus));
        EvictStep(entries, limits);
        var oldest := entries[0];
        entries := entries[1..];
        currentBytes := currentBytes - |oldest.value|;
        if oldest.key in prefetchStatus {
          prefetchWaste := prefetchWaste + 1;
          prefetchStatus := prefetchStatus - {oldest.key};
        }
        cacheEvictions := cacheEvictions + 1;
      }
      EvictDone(entries, limits);
    }

    method UpdateMetrics()
      modifies this`sizeChunks, this`sizeBytes
      ensures sizeChunks == |entries| && sizeBytes == currentBytes
    {
      sizeChunks, sizeBytes := |entries|, currentBytes;
    }
  }

  lemma {:induction false} WithoutSize(es: seq<Entry>, key: CacheKey)
    requires Distinct(es)
    ensures |Without(es, key)| == |es| - if key in Keys(es) then 1 else 0
  {
    if es != [] {
      KeysCons(es);
      WithoutSize(es[1..], key);
      if es[0].key == key {
        WithoutKeys(es[1..], key);
        SuffixKeys(es, 1);
        assert es[..1] == [es[0]];
        KeysOne(es[0]);
      }
    }
  }
}
