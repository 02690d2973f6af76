/** Path resolution refines the walk of the remote tree, over every run of lookups,
    listings, folder creations and removals, with cache entries vanishing at any time. */
module PathResolution {
  import opened FileContents
  import opened PathTrees

  // ---- what each change of the cache keeps ----

  /** The listing of a directory names exactly the children of its path. */
  lemma ListingIs(t: Tree, p: Steps, id: FileId, q: Steps)
    requires IsTree(t) && Walk(t, p) == Some(id)
    ensures InListing(p, Kids(t, id), q) ==> Walk(t, q) == Named(Kids(t, id), Last(q))
    ensures q != [] && Walk(t, q).Some? && Walk(t, Parent(q)) == Some(id) ==> InListing(p, Kids(t, id), q)
  {
    hide IsTree, Named, Kids;
    if q != [] && Walk(t, Parent(q)) == Some(id) {
      OnePath(t, p, Parent(q));
    }
  }

  lemma LoadKeeps(c: Cache, t: Tree, id: FileId, p: Steps)
    requires Inv(c, t) && Walk(t, p) == Some(id)
    ensures Inv(Load(c, t, id, p), t) && (Intact(c, t) ==> Intact(Load(c, t, id, p), t))
  {
    hide Walk, IsTree, UniqueNames, Load, InLoaded, SoundAt, FiledAt, RealAt, FullAt, IntactAt;
    WalkUsed(t, p);
    LoadGrows(c, t, id, p);
    var c' := Load(c, t, id, p);
    forall q ensures SoundAt(c', t, q) && FiledAt(c', q) && FullAt(c', t, q)
      && (IntactAt(c, t, q) ==> IntactAt(c', t, q))
    {
      LoadedMapping(c, t, id, p, q);
      LoadedListing(c, t, id, p, q);
    }
    forall q, r ensures RealAt(c', t, q, r) {
      LoadedReal(c, t, id, p, q, r);
    }
  }

  lemma LoadedMapping(c: Cache, t: Tree, id: FileId, p: Steps, q: Steps)
    requires Inv(c, t) && Walk(t, p) == Some(id)
    ensures SoundAt(Load(c, t, id, p), t, q) && (IntactAt(c, t, q) ==> IntactAt(Load(c, t, id, p), t, q))
  {
    hide Walk, IsTree, UniqueNames, MapAll, Kids, Named, FiledAt, FullAt, RealAt;
    ListingIs(t, p, id, q);
    MappedAll(c, p, Kids(t, id), q);
    assert SoundAt(c, t, q);
  }

  lemma LoadedListing(c: Cache, t: Tree, id: FileId, p: Steps, q: Steps)
    requires Inv(c, t) && Walk(t, p) == Some(id)
    ensures FiledAt(Load(c, t, id, p), q) && FullAt(Load(c, t, id, p), t, q)
  {
    hide Walk, IsTree, UniqueNames, MapAll, Kids, Named, Listed, SoundAt, RealAt;
    ListingIs(t, p, id, q);
    MappedAll(c, p, Kids(t, id), q);
    assert FiledAt(c, q) && FullAt(c, t, q);
    ListedAfter(c, t, id, p);
  }

  lemma ListedAfter(c: Cache, t: Tree, id: FileId, p: Steps)
    ensures id !in c.loaded ==> forall r :: Listed(Load(c, t, id, p), r) == Listed(MapAll(c, p, Kids(t, id)), r)
  {}

  lemma LoadedReal(c: Cache, t: Tree, id: FileId, p: Steps, q: Steps, r: Steps)
    requires Inv(c, t) && Walk(t, p) == Some(id)
    ensures RealAt(Load(c, t, id, p), t, q, r)
  {
    hide Walk, IsTree, UniqueNames, MapAll, Kids, Named, SoundAt, FiledAt, FullAt;
    ListingIs(t, p, id, r);
    MappedAll(c, p, Kids(t, id), r);
    assert RealAt(c, t, q, r);
  }

  function Vanished(c: Cache, paths: set<Steps>, ids: set<FileId>): Cache {
    c.(ids := c.ids - paths, loaded := c.loaded - ids)
  }

  lemma VanishKeeps(c: Cache, t: Tree, paths: set<Steps>, ids: set<FileId>)
    requires Inv(c, t)
    ensures Inv(Vanished(c, paths, ids), t)
    ensures Intact(c, t) && paths == {} ==> Intact(Vanished(c, paths, ids), t)
  {
    hide Walk, IsTree;
    var c' := Vanished(c, paths, ids);
    forall q ensures SoundAt(c', t, q) && FiledAt(c', q) && FullAt(c', t, q) {
      assert SoundAt(c, t, q) && FiledAt(c, q) && FullAt(c, t, q);
    }
    forall q, r ensures RealAt(c', t, q, r) {
      assert RealAt(c, t, q, r);
    }
    forall q | Intact(c, t) && paths == {} ensures IntactAt(c', t, q) {
      assert IntactAt(c, t, q);
    }
  }

  // ---- resolution ----

  lemma FoundIsRight(c: Cache, t: Tree, p: Steps)
    requires Inv(c, t)
    ensures Lookup(c, p).Some? ==> Walk(t, p) == Lookup(c, p)
    ensures p in c.ids ==> Lookup(c, p).Some?
  {
    assert SoundAt(c, t, p);
    if p in c.ids {
      WalkUsed(t, p);
    }
  }

  /** A non-empty answer is the tree's, whatever the cache has lost. */
  lemma {:induction false} ResolveSound(c: Cache, t: Tree, p: Steps)
    requires Inv(c, t)
    ensures var (c', r) := Resolve(c, t, p);
      Inv(c', t) && (r.Some? ==> r == Walk(t, p)) && c.loaded <= c'.loaded
    decreases |p|
  {
    hide Inv, Load, Lookup, Child;
    FoundIsRight(c, t, p);
    if p != [] && Lookup(c, p).None? {
      ResolveSound(c, t, Parent(p));
      var (c1, parent) := Resolve(c, t, Parent(p));
      if parent.Some? && parent.value !in c1.loaded {
        LoadKeeps(c1, t, parent.value, Parent(p));
        LoadGrows(c1, t, parent.value, Parent(p));
        FoundIsRight(Load(c1, t, parent.value, Parent(p)), t, p);
      }
    }
  }

  lemma LoadGrows(c: Cache, t: Tree, id: FileId, p: Steps)
    ensures Load(c, t, id, p).loaded == c.loaded + {id}
  {
    MappedAll(c, p, Kids(t, id), p);
  }

  /** Resolving a path maps and lists no longer path. */
  lemma {:induction false} OnlyShort(c: Cache, t: Tree, p: Steps, q: Steps)
    requires |q| > |p|
    ensures var c' := Resolve(c, t, p).0;
      (q in c'.ids <==> q in c.ids) && (forall r :: q in Listed(c', r) <==> q in Listed(c, r))
    decreases |p|
  {
    hide Lookup, MapAll, Named, Kids;
    if p != [] && Lookup(c, p).None? {
      var (c1, parent) := Resolve(c, t, Parent(p));
      OnlyShort(c, t, Parent(p), q);
      if parent.Some? && parent.value !in c1.loaded {
        MappedAll(c1, Parent(p), Kids(t, parent.value), q);
      }
    }
  }

  /** Resolving takes no mapping away. */
  lemma {:induction false} IntactThrough(c: Cache, t: Tree, p: Steps, q: Steps)
    requires Inv(c, t) && IntactAt(c, t, q)
    ensures IntactAt(Resolve(c, t, p).0, t, q)
    decreases |p|
  {
    hide Inv, IntactAt, Load, Lookup, Walk;
    if p != [] && Lookup(c, p).None? {
      ResolveSound(c, t, Parent(p));
      IntactThrough(c, t, Parent(p), q);
      var (c1, parent) := Resolve(c, t, Parent(p));
      if parent.Some? && parent.value !in c1.loaded {
        LoadedMapping(c1, t, parent.value, Parent(p), q);
      }
    }
  }

  /** Once its parent is found, a path is answered as the tree has it if and only if its
      mapping, should the parent be marked loaded, is still there. */
  lemma ExactAt(c: Cache, t: Tree, p: Steps)
    requires Inv(c, t) && p != [] && Resolve(c, t, Parent(p)).1.Some?
    ensures Resolve(c, t, p).1 == Walk(t, p) <==> IntactAt(c, t, p)
  {
    hide Inv, Load, IntactAt, Walk;
    if IntactAt(c, t, p) {
      FoundIsRight(c, t, p);
      ResolveSound(c, t, Parent(p));
      ResolveSound(c, t, p);
      IntactThrough(c, t, p, p);
      FoundIsRight(Resolve(c, t, p).0, t, p);
      OnlyShort(c, t, Parent(p), p);
      LoadGrows(Resolve(c, t, Parent(p)).0, t, Resolve(c, t, Parent(p)).1.value, Parent(p));
      if Lookup(c, p).None? {
        AbsentIsRight(Resolve(c, t, p).0, t, p);
      }
    } else {
      FalselyAbsent(c, t, p);
    }
  }

  lemma AbsentIsRight(c: Cache, t: Tree, p: Steps)
    requires IntactAt(c, t, p) && p != [] && Walk(t, Parent(p)).Some? && Walk(t, Parent(p)).value in c.loaded
    ensures Walk(t, p).Some? ==> p in c.ids
  {}

  /** A lost mapping under a loaded directory makes its path look absent. */
  lemma FalselyAbsent(c: Cache, t: Tree, q: Steps)
    requires Inv(c, t) && !IntactAt(c, t, q)
    ensures Resolve(c, t, q).1 == None && Walk(t, q).Some?
  {
    hide Inv;
    ResolveSound(c, t, Parent(q));
    assert Lookup(c, q).None?;
  }

  /** When no mapping of a loaded directory has vanished, every answer is the tree's,
      "absent" included. */
  lemma {:induction false} ResolveExact(c: Cache, t: Tree, p: Steps)
    requires Inv(c, t) && Intact(c, t)
    ensures var (c', r) := Resolve(c, t, p); Inv(c', t) && Intact(c', t) && r == Walk(t, p)
    decreases |p|
  {
    hide Inv, IntactAt, Load, Child;
    ResolveSound(c, t, p);
    forall q ensures IntactAt(Resolve(c, t, p).0, t, q) {
      IntactThrough(c, t, p, q);
    }
    if p != [] {
      ResolveExact(c, t, Parent(p));
      if Resolve(c, t, Parent(p)).1.Some? {
        ExactAt(c, t, p);
      } else {
        NoChild(t, Last(p));
        FoundIsRight(c, t, p);
      }
    }
  }

  /** Resolution is exact for every path if and only if every child of a loaded directory
      is still mapped: otherwise a path that exists is reported absent. */
  lemma ExactIffIntact(c: Cache, t: Tree)
    requires Inv(c, t)
    ensures (forall p :: Resolve(c, t, p).1 == Walk(t, p)) <==> Intact(c, t)
  {
    hide Inv, Resolve;
    if Intact(c, t) {
      forall p ensures Resolve(c, t, p).1 == Walk(t, p) {
        ResolveExact(c, t, p);
      }
    } else {
      var q :| !IntactAt(c, t, q);
      FalselyAbsent(c, t, q);
    }
  }

  // ---- changes of the tree ----

  lemma CreateKeeps(c: Cache, t: Tree, p: Steps, d: FileId, id: FileId)
    requires Inv(c, t) && p != [] && Walk(t, Parent(p)) == Some(d) && d in t.dirs && Walk(t, p).None?
    requires id !in t.used && id != ""
    ensures var c', t' := MapPath(c, p, id), Created(t, d, Last(p), id);
      && Inv(c', t') && (Intact(c, t) ==> Intact(c', t'))
      && forall q :: Walk(t', q) == if q == p then Some(id) else Walk(t, q)
  {
    hide IsTree, UniqueNames, SoundAt, FiledAt, RealAt, FullAt, IntactAt;
    var t' := Created(t, d, Last(p), id);
    assert p == Parent(p) + [Last(p)];
    CreatedTree(t, d, Last(p), id);
    CreatedUnique(t, d, Last(p), id);
    forall q ensures Walk(t', q) == if q == p then Some(id) else Walk(t, q) {
      CreatedWalk(t, Parent(p), d, Last(p), id, q);
    }
    StillInv(c, t, t', p, id);
  }

  /** One new path in the tree, mapped at once. */
  lemma StillInv(c: Cache, t: Tree, t': Tree, p: Steps, id: FileId)
    requires Inv(c, t) && IsTree(t') && UniqueNames(t') && t.used <= t'.used && id !in t.used && p != []
    requires forall q :: Walk(t', q) == if q == p then Some(id) else Walk(t, q)
    requires Walk(t, p).None?
    ensures Inv(MapPath(c, p, id), t') && (Intact(c, t) ==> Intact(MapPath(c, p, id), t'))
  {
    hide Walk, IsTree, UniqueNames;
    var c' := MapPath(c, p, id);
    forall q ensures SoundAt(c', t', q) && FiledAt(c', q) && FullAt(c', t', q) {
      assert SoundAt(c, t, q) && FiledAt(c, q) && FullAt(c, t, q);
    }
    forall q, r ensures RealAt(c', t', q, r) {
      assert RealAt(c, t, q, r);
    }
    forall q | Intact(c, t) ensures IntactAt(c', t', q) {
      assert IntactAt(c, t, q);
    }
  }

  /** Removing a path below which nothing is listed. */
  lemma RemoveKeeps(c: Cache, t: Tree, p: Steps, id: FileId)
    requires Inv(c, t) && p != [] && Walk(t, p) == Some(id) && NothingBelow(c, p)
    ensures var c', t' := Invalidate(c, p), Deleted(t, id);
      && Inv(c', t') && (Intact(c, t) ==> Intact(c', t'))
      && forall q :: Walk(t', q) == if p <= q then None else Walk(t, q)
  {
    hide IsTree, UniqueNames, Deleted, SoundAt, FiledAt, RealAt, FullAt, IntactAt, NothingBelow;
    var t' := Deleted(t, id);
    DeletedTree(t, id);
    forall q ensures Walk(t', q) == if p <= q then None else Walk(t, q) {
      DeletedWalk(t, p, id, q);
    }
    StillInvWithout(c, t, t', p);
  }

  /** A subtree less in the tree, of which only the top was known, forgotten at once. */
  lemma StillInvWithout(c: Cache, t: Tree, t': Tree, p: Steps)
    requires Inv(c, t) && IsTree(t') && UniqueNames(t') && t'.used == t.used && p != [] && NothingBelow(c, p)
    requires forall q :: Walk(t', q) == if p <= q then None else Walk(t, q)
    ensures Inv(Invalidate(c, p), t') && (Intact(c, t) ==> Intact(Invalidate(c, p), t'))
  {
    hide Walk, IsTree, UniqueNames;
    var c' := Invalidate(c, p);
    forall q ensures SoundAt(c', t', q) && FiledAt(c', q) && FullAt(c', t', q) {
      assert SoundAt(c, t, q) && FiledAt(c, q) && FullAt(c, t, q);
      SameOrBelow(p, q);
    }
    forall q, r ensures RealAt(c', t', q, r) {
      assert RealAt(c, t, q, r) && RealAt(c, t, Parent(p), r);
      SameOrBelow(p, r);
    }
    forall q | Intact(c, t) ensures IntactAt(c', t', q) {
      assert IntactAt(c, t, q);
      SameOrBelow(p, q);
    }
  }

  lemma SameOrBelow(p: Steps, q: Steps)
    ensures p <= q <==> p == q || p < q
  {
    assert p <= q && |p| == |q| ==> p == q;
  }

  /** Nothing is listed below a directory without children. */
  lemma EmptyIsBare(c: Cache, t: Tree, p: Steps, id: FileId)
    requires Inv(c, t) && Walk(t, p) == Some(id) && Kids(t, id) == []
    ensures NothingBelow(c, p)
  {
    hide Walk, Kids, IsTree, UniqueNames;
    forall r, q | q in Listed(c, r) ensures !(p < q) {
      assert RealAt(c, t, r, q);
      if p < q {
        Below(t, p, q);
      }
    }
  }

  /** Removing any path leaves the mapped ids right if and only if nothing below it is
      mapped: rmdir drops only the one path, and does not check that it is empty. */
  lemma RemovalSoundIff(c: Cache, t: Tree, p: Steps, id: FileId)
    requires Inv(c, t) && p != [] && Walk(t, p) == Some(id)
    ensures (forall q :: SoundAt(Invalidate(c, p), Deleted(t, id), q)) <==> (forall q :: q in c.ids ==> !(p < q))
  {
    hide IsTree, UniqueNames, Deleted, Walk;
    var c', t' := Invalidate(c, p), Deleted(t, id);
    forall q ensures SoundAt(c', t', q) <==> q in c'.ids ==> !(p < q) {
      DeletedWalk(t, p, id, q);
      assert SoundAt(c, t, q);
      SameOrBelow(p, q);
    }
    assert forall q :: q in c.ids && p < q ==> q in c'.ids && !SoundAt(c', t', q);
  }

  // ---- listings ----

  /** The names listed under a path. */
  function Entries(c: Cache, p: Steps): set<Name> {
    set q | q in Listed(c, p) && q != [] :: Last(q)
  }

  function NamesOf(items: seq<Item>): set<Name> {
    set x | x in items :: x.name
  }

  function ReadDir(c: Cache, t: Tree, p: Steps): (Cache, Option<set<Name>>) {
    var (c1, id) := Resolve(c, t, p);
    if id.None? then (c1, None)
    else (Load(c1, t, id.value, p), Some(Entries(Load(c1, t, id.value, p), p)))
  }

  /** A listing gives exactly the children, even after mappings have vanished. */
  lemma ListingExact(c: Cache, t: Tree, p: Steps, id: FileId)
    requires Inv(c, t) && Walk(t, p) == Some(id)
    ensures Entries(Load(c, t, id, p), p) == NamesOf(Kids(t, id))
  {
    hide Load, IsTree, UniqueNames, Named;
    var c' := Load(c, t, id, p);
    LoadKeeps(c, t, id, p);
    LoadGrows(c, t, id, p);
    forall n | n in Entries(c', p) ensures n in NamesOf(Kids(t, id)) {
      var q :| q in Listed(c', p) && q != [] && Last(q) == n;
      assert RealAt(c', t, p, q);
      NamedItem(Kids(t, id), n);
    }
    forall x | x in Kids(t, id) ensures x.name in Entries(c', p) {
      var q := p + [x.name];
      assert Parent(q) == p && Last(q) == x.name;
      NamedItem(Kids(t, id), x.name);
      assert FullAt(c', t, q);
    }
  }

  // ---- runs ----

  datatype Sys = Sys(cache: Cache, tree: Tree)

  /** Vanish stands for cache entries expiring or being evicted. */
  datatype Op =
    | Find(p: Steps)
    | List(p: Steps)
    | Mkdir(p: Steps, id: FileId)
    | Remove(p: Steps)
    | Vanish(paths: set<Steps>, ids: set<FileId>)

  datatype Out = Id(id: Option<FileId>) | Names(names: Option<set<Name>>) | Done | Failed

  /** The root is neither made nor removed, and the server gives new ids. */
  predicate Sensible(t: Tree, op: Op) {
    match op
    case Mkdir(p, id) => p != [] && id !in t.used && id != ""
    case Remove(p) => p != []
    case _ => true
  }

  function Step(s: Sys, op: Op): (Sys, Out)
    requires Sensible(s.tree, op)
  {
    match op
    case Find(p) => (Sys(Resolve(s.cache, s.tree, p).0, s.tree), Id(Resolve(s.cache, s.tree, p).1))
    case List(p) => (Sys(ReadDir(s.cache, s.tree, p).0, s.tree), Names(ReadDir(s.cache, s.tree, p).1))
    case Mkdir(p, id) =>
      var (c, d) := Resolve(s.cache, s.tree, Parent(p));
      if d.None? || d.value !in s.tree.dirs then (Sys(c, s.tree), Failed)
      else (Sys(MapPath(c, p, id), Created(s.tree, d.value, Last(p), id)), Done)
    case Remove(p) =>
      var (c, id) := Resolve(s.cache, s.tree, p);
      if id.None? then (Sys(c, s.tree), Failed)
      else (Sys(Invalidate(c, p), Deleted(s.tree, id.value)), Done)
    case Vanish(paths, ids) => (Sys(Vanished(s.cache, paths, ids), s.tree), Done)
  }

  /** The same on the tree alone. */
  function TreeStep(t: Tree, op: Op): (Tree, Out)
    requires Sensible(t, op)
  {
    match op
    case Find(p) => (t, Id(Walk(t, p)))
    case List(p) => (t, Names(if Walk(t, p).Some? then Some(NamesOf(Kids(t, Walk(t, p).value))) else None))
    case Mkdir(p, id) =>
      var d := Walk(t, Parent(p));
      if d.None? || d.value !in t.dirs then (t, Failed) else (Created(t, d.value, Last(p), id), Done)
    case Remove(p) => if Walk(t, p).None? then (t, Failed) else (Deleted(t, Walk(t, p).value), Done)
    case Vanish(_, _) => (t, Done)
  }

  predicate Denies(out: Out) {
    out == Id(None) || out == Names(None) || out == Failed
  }

  predicate LosesPaths(op: Op) {
    op.Vanish? && op.paths != {}
  }

  /** What the invariant asks of an operation: a folder that is made has a free name, and
      below a path that is removed nothing is listed in the cache. */
  ghost predicate Harmless(s: Sys, op: Op)
    requires Sensible(s.tree, op)
  {
    match op
    case Mkdir(p, id) =>
      var d := Resolve(s.cache, s.tree, Parent(p)).1;
      d.Some? && d.value in s.tree.dirs ==> Walk(s.tree, p).None?
    case Remove(p) => Resolve(s.cache, s.tree, p).1.Some? ==> NothingBelow(s.cache, p)
    case _ => true
  }

  /** One operation does what it does on the tree, or denies that the path exists and leaves
      the tree alone; with no mapping lost it never denies wrongly. */
  lemma StepRefines(s: Sys, op: Op)
    requires Inv(s.cache, s.tree) && Sensible(s.tree, op)
    ensures var (s', out) := Step(s, op);
      && ((s'.tree, out) == TreeStep(s.tree, op) || (Denies(out) && s'.tree == s.tree))
      && (Intact(s.cache, s.tree) ==> (s'.tree, out) == TreeStep(s.tree, op))
  {
    hide Inv, Intact, Resolve, Walk, Kids, MapPath, Invalidate, Load, Entries, NamesOf, Vanished, Created, Deleted;
    match op
    case Find(p) => AnswerRight(s.cache, s.tree, p);
    case List(p) =>
      AnswerRight(s.cache, s.tree, p);
      var (c1, id) := Resolve(s.cache, s.tree, p);
      if id.Some? {
        ListingExact(c1, s.tree, p, id.value);
      }
    case Mkdir(p, id) =>
      AnswerRight(s.cache, s.tree, Parent(p));
      var d := Resolve(s.cache, s.tree, Parent(p)).1;
      if d.Some? && d.value in s.tree.dirs {
        assert Step(s, op).0.tree == Created(s.tree, d.value, Last(p), id) == TreeStep(s.tree, op).0;
      } else {
        assert Step(s, op).0.tree == s.tree;
      }
    case Remove(p) =>
      AnswerRight(s.cache, s.tree, p);
      var id := Resolve(s.cache, s.tree, p).1;
      if id.Some? {
        assert Step(s, op).0.tree == Deleted(s.tree, id.value) == TreeStep(s.tree, op).0;
      } else {
        assert Step(s, op).0.tree == s.tree;
      }
    case Vanish(paths, ids) =>
  }

  lemma AnswerRight(c: Cache, t: Tree, p: Steps)
    requires Inv(c, t)
    ensures var (c', r) := Resolve(c, t, p);
      && Inv(c', t) && (r.Some? ==> r == Walk(t, p))
      && (Intact(c, t) ==> Intact(c', t) && r == Walk(t, p))
  {
    hide Inv, Intact, Resolve, Walk;
    ResolveSound(c, t, p);
    if Intact(c, t) {
      ResolveExact(c, t, p);
    }
  }

  lemma BareThrough(c: Cache, t: Tree, p: Steps)
    ensures NothingBelow(Resolve(c, t, p).0, p) <==> NothingBelow(c, p)
  {
    hide Resolve, Listed;
    var c' := Resolve(c, t, p).0;
    forall r, q | p < q ensures q in Listed(c', r) <==> q in Listed(c, r) {
      OnlyShort(c, t, p, q);
    }
  }

  /** A harmless operation keeps the invariant, and no mapping is lost but by Vanish. */
  lemma HarmlessKeeps(s: Sys, op: Op)
    requires Inv(s.cache, s.tree) && Sensible(s.tree, op) && Harmless(s, op)
    ensures var s' := Step(s, op).0;
      && Inv(s'.cache, s'.tree)
      && (Intact(s.cache, s.tree) && !LosesPaths(op) ==> Intact(s'.cache, s'.tree))
  {
    hide Inv, Intact, Resolve, Walk, Kids, MapPath, Invalidate, Load, Vanished, Created, Deleted, NothingBelow;
    match op
    case Find(p) => AnswerRight(s.cache, s.tree, p);
    case List(p) =>
      AnswerRight(s.cache, s.tree, p);
      var (c1, id) := Resolve(s.cache, s.tree, p);
      if id.Some? {
        LoadKeeps(c1, s.tree, id.value, p);
      }
    case Mkdir(p, id) =>
      AnswerRight(s.cache, s.tree, Parent(p));
      var (c1, d) := Resolve(s.cache, s.tree, Parent(p));
      if d.Some? && d.value in s.tree.dirs {
        CreateKeeps(c1, s.tree, p, d.value, id);
      }
    case Remove(p) =>
      AnswerRight(s.cache, s.tree, p);
      BareThrough(s.cache, s.tree, p);
      var (c1, id) := Resolve(s.cache, s.tree, p);
      if id.Some? {
        RemoveKeeps(c1, s.tree, p, id.value);
      }
    case Vanish(paths, ids) => VanishKeeps(s.cache, s.tree, paths, ids);
  }

  /** And no other operation does: the invariant survives exactly the harmless ones. */
  lemma StepKeepsIff(s: Sys, op: Op)
    requires Inv(s.cache, s.tree) && Sensible(s.tree, op)
    ensures Inv(Step(s, op).0.cache, Step(s, op).0.tree) <==> Harmless(s, op)
  {
    hide Inv, Resolve, Walk, Created, Deleted, NothingBelow, MapPath, Invalidate;
    if Harmless(s, op) {
      HarmlessKeeps(s, op);
    } else {
      match op
      case Mkdir(p, id) =>
        AnswerRight(s.cache, s.tree, Parent(p));
        TwinBreaks(Resolve(s.cache, s.tree, Parent(p)).0, s.tree, p, Resolve(s.cache, s.tree, Parent(p)).1.value, id);
      case Remove(p) =>
        AnswerRight(s.cache, s.tree, p);
        BareThrough(s.cache, s.tree, p);
        LeftBreaks(Resolve(s.cache, s.tree, p).0, s.tree, p, Resolve(s.cache, s.tree, p).1.value);
    }
  }

  /** On the tree: a folder that was made is found, is listed as empty, is listed in its
      parent besides what was there, and takes folders itself. */
  lemma MadeOnTree(t: Tree, p: Steps, id: FileId, n: Name, id2: FileId)
    requires IsTree(t) && Sensible(t, Mkdir(p, id)) && TreeStep(t, Mkdir(p, id)).1 == Done && Walk(t, p).None?
    requires id2 !in t.used && id2 != id && id2 != ""
    ensures Walk(t, Parent(p)).Some?
    ensures var t' := TreeStep(t, Mkdir(p, id)).0;
      && Sensible(t', Mkdir(p + [n], id2)) && TreeStep(t', Mkdir(p + [n], id2)).1 == Done
      && TreeStep(t', Find(p)).1 == Id(Some(id)) && TreeStep(t', List(p)).1 == Names(Some({}))
      && TreeStep(t', List(Parent(p))).1
           == Names(Some(NamesOf(Kids(t, Walk(t, Parent(p)).value)) + {Last(p)}))
      && Walk(t', p + [n]) == None
  {
    hide IsTree, Walk, Created, Kids, NamesOf;
    MadeWalks(t, p, id, n);
    MadeKids(t, p, id);
    assert Parent(p + [n]) == p;
  }

  /** Where paths lead after a folder was made. */
  lemma MadeWalks(t: Tree, p: Steps, id: FileId, n: Name)
    requires IsTree(t) && p != [] && id !in t.used && Walk(t, p).None?
    requires Walk(t, Parent(p)).Some? && Walk(t, Parent(p)).value in t.dirs
    ensures var d := Walk(t, Parent(p)).value; var t' := Created(t, d, Last(p), id);
      Walk(t', p) == Some(id) && Walk(t', Parent(p)) == Some(d) && Walk(t', p + [n]) == None
  {
    hide IsTree, Walk, Created, Named;
    var d := Walk(t, Parent(p)).value;
    assert p == Parent(p) + [Last(p)];
    CreatedWalk(t, Parent(p), d, Last(p), id, p);
    CreatedWalk(t, Parent(p), d, Last(p), id, Parent(p));
    CreatedWalk(t, Parent(p), d, Last(p), id, p + [n]);
    NothingUnder(t, p, n);
  }

  lemma NothingUnder(t: Tree, p: Steps, n: Name)
    requires Walk(t, p).None?
    ensures Walk(t, p + [n]).None?
  {
    assert Parent(p + [n]) == p;
  }

  /** Its listing, and that of its parent. */
  lemma MadeKids(t: Tree, p: Steps, id: FileId)
    requires IsTree(t) && p != [] && id !in t.used
    requires Walk(t, Parent(p)).Some? && Walk(t, Parent(p)).value in t.dirs
    ensures var d := Walk(t, Parent(p)).value; var t' := Created(t, d, Last(p), id);
      && id in t'.dirs && t'.used == t.used + {id} && NamesOf(Kids(t', id)) == {}
      && NamesOf(Kids(t', d)) == NamesOf(Kids(t, d)) + {Last(p)}
  {
    hide IsTree, Walk, NamesOf;
    var d := Walk(t, Parent(p)).value;
    WalkUsed(t, Parent(p));
    NamesOfMore(Kids(t, d), Item(Last(p), id));
  }

  lemma NamesOfMore(items: seq<Item>, x: Item)
    ensures NamesOf(items + [x]) == NamesOf(items) + {x.name} && NamesOf([]) == {}
  {
    assert forall y :: y in items + [x] <==> y in items || y == x;
  }

  /** And so it is through an intact cache. */
  lemma MadeFolder(s: Sys, p: Steps, id: FileId, n: Name, id2: FileId)
    requires Inv(s.cache, s.tree) && Intact(s.cache, s.tree) && Sensible(s.tree, Mkdir(p, id))
    requires Walk(s.tree, p).None? && Step(s, Mkdir(p, id)).1 == Done
    requires id2 !in s.tree.used && id2 != id && id2 != ""
    ensures Walk(s.tree, Parent(p)).Some?
    ensures var s' := Step(s, Mkdir(p, id)).0;
      && Sensible(s'.tree, Mkdir(p + [n], id2)) && Step(s', Mkdir(p + [n], id2)).1 == Done
      && Step(s', Find(p)).1 == Id(Some(id)) && Step(s', List(p)).1 == Names(Some({}))
      && Step(s', List(Parent(p))).1
           == Names(Some(NamesOf(Kids(s.tree, Walk(s.tree, Parent(p)).value)) + {Last(p)}))
  {
    hide Inv, Intact, Step, TreeStep, Walk, NamesOf, Kids;
    InvParts(s);
    StepRefines(s, Mkdir(p, id));
    MadeOnTree(s.tree, p, id, n, id2);
    HarmlessKeeps(s, Mkdir(p, id));
    var s' := Step(s, Mkdir(p, id)).0;
    StepRefines(s', Mkdir(p + [n], id2));
    StepRefines(s', Find(p));
    StepRefines(s', List(p));
    StepRefines(s', List(Parent(p)));
  }

  /** On the tree: a path that was removed is absent, and so is what was below; its parent
      lists it no longer, but all else. */
  lemma RemovedOnTree(t: Tree, p: Steps, q: Steps)
    requires IsTree(t) && UniqueNames(t) && p != [] && TreeStep(t, Remove(p)).1 == Done
    ensures Walk(t, p).Some? && Walk(t, Parent(p)).Some?
    ensures var t' := TreeStep(t, Remove(p)).0;
      && TreeStep(t', Find(q)).1 == (if p <= q then Id(None) else Id(Walk(t, q)))
      && TreeStep(t', List(Parent(p))).1
           == Names(Some(NamesOf(Kids(t, Walk(t, Parent(p)).value)) - {Last(p)}))
  {
    hide IsTree, Walk;
    var id := Walk(t, p).value;
    DeletedWalk(t, p, id, q);
    DeletedWalk(t, p, id, Parent(p));
    assert p == Parent(p) + [Last(p)] && !(p <= Parent(p));
    NamesLeft(t, p);
  }

  lemma NamesLeft(t: Tree, p: Steps)
    requires IsTree(t) && UniqueNames(t) && p != [] && Walk(t, p).Some?
    ensures Walk(t, Parent(p)).Some?
    ensures var d := Walk(t, Parent(p)).value;
      NamesOf(Kids(Deleted(t, Walk(t, p).value), d)) == NamesOf(Kids(t, d)) - {Last(p)}
  {
    hide IsTree, Named, Without;
    var id := Walk(t, p).value;
    var d := Walk(t, Parent(p)).value;
    ChildItem(t, d, Last(p));
    ParentDiffers(t, p);
    var items := t.dirs[d];
    assert Kids(Deleted(t, id), d) == Without(items, id);
    OnlyOthers(items, id);
    SameItem(t, d, Item(Last(p), id));
  }

  lemma ParentDiffers(t: Tree, p: Steps)
    requires IsTree(t) && p != [] && Walk(t, p).Some?
    ensures Walk(t, Parent(p)).Some? && Walk(t, Parent(p)) != Walk(t, p)
  {
    hide IsTree;
    if Walk(t, Parent(p)) == Walk(t, p) {
      OnePath(t, Parent(p), p);
    }
  }

  /** In a listing with distinct names and ids, an item is known by either. */
  lemma SameItem(t: Tree, d: FileId, x: Item)
    requires IsTree(t) && UniqueNames(t) && d in t.dirs && x in t.dirs[d]
    ensures forall y :: y in t.dirs[d] ==> (y.name == x.name <==> y.id == x.id)
  {
    var items := t.dirs[d];
    assert DistinctNames(items) && DistinctIds(items);
    forall y | y in items ensures y.name == x.name <==> y.id == x.id {
      var i :| 0 <= i < |items| && items[i] == x;
      var j :| 0 <= j < |items| && items[j] == y;
    }
  }

  /** And so it is through an intact cache that lists nothing below the path. */
  lemma RemovedPath(s: Sys, p: Steps, q: Steps)
    requires Inv(s.cache, s.tree) && Intact(s.cache, s.tree) && Sensible(s.tree, Remove(p))
    requires NothingBelow(s.cache, p) && Step(s, Remove(p)).1 == Done
    ensures Walk(s.tree, p).Some? && Walk(s.tree, Parent(p)).Some?
    ensures var s' := Step(s, Remove(p)).0;
      && Step(s', Find(q)).1 == (if p <= q then Id(None) else Id(Walk(s.tree, q)))
      && Step(s', List(Parent(p))).1
           == Names(Some(NamesOf(Kids(s.tree, Walk(s.tree, Parent(p)).value)) - {Last(p)}))
  {
    hide Inv, Intact, Step, TreeStep, Walk, NamesOf, Kids, NothingBelow;
    InvParts(s);
    StepRefines(s, Remove(p));
    RemovedOnTree(s.tree, p, q);
    HarmlessKeeps(s, Remove(p));
    var s' := Step(s, Remove(p)).0;
    StepRefines(s', Find(q));
    StepRefines(s', List(Parent(p)));
  }

  lemma TwinBreaks(c: Cache, t: Tree, p: Steps, d: FileId, id: FileId)
    requires Inv(c, t) && p != [] && Walk(t, Parent(p)) == Some(d) && d in t.dirs && Walk(t, p).Some? && id !in t.used
    ensures !Inv(MapPath(c, p, id), Created(t, d, Last(p), id))
  {
    hide IsTree, Created;
    CreatedUnique(t, d, Last(p), id);
  }

  lemma LeftBreaks(c: Cache, t: Tree, p: Steps, id: FileId)
    requires Inv(c, t) && p != [] && Walk(t, p) == Some(id) && !NothingBelow(c, p)
    ensures !Inv(Invalidate(c, p), Deleted(t, id))
  {
    hide IsTree, UniqueNames, Deleted, Walk;
    var r, q :| q in Listed(c, r) && p < q;
    DeletedWalk(t, p, id, q);
    assert q in Listed(Invalidate(c, p), r);
    assert !RealAt(Invalidate(c, p), Deleted(t, id), r, q);
  }

  /** After "absent" for a path whose parent is found, making it keeps names unique if and
      only if the answer was not for want of a lost mapping: neither mkdir nor the server
      looks again. */
  lemma AbsentThenMade(c: Cache, t: Tree, p: Steps, d: FileId, id: FileId)
    requires Inv(c, t) && p != [] && Resolve(c, t, p).1 == None && Resolve(c, t, Parent(p)).1 == Some(d)
    requires d in t.dirs && id !in t.used
    ensures UniqueNames(Created(t, d, Last(p), id)) <==> IntactAt(c, t, p)
  {
    hide Resolve, IntactAt, UniqueNames, IsTree, Created, Named;
    ExactAt(c, t, p);
    ResolveSound(c, t, Parent(p));
    CreatedUnique(t, d, Last(p), id);
  }

  ghost predicate IsRun(ss: seq<Sys>, ops: seq<Op>) {
    && |ss| == |ops| + 1 && IsTree(ss[0].tree) && UniqueNames(ss[0].tree) && ss[0].cache == Start(ss[0].tree.root)
    && forall i {:trigger ops[i]} :: 0 <= i < |ops| ==>
         Sensible(ss[i].tree, ops[i]) && ss[i + 1] == Step(ss[i], ops[i]).0
  }

  /** Over every run from an empty cache of which all operations but the last are harmless:
      its results are the tree's or denials, and up to the first lost mapping they are the
      tree's. */
  lemma {:induction false} RunRefines(ss: seq<Sys>, ops: seq<Op>, n: nat)
    requires IsRun(ss, ops) && n <= |ops|
    requires forall i {:trigger ops[i]} :: 0 <= i < n ==> Sensible(ss[i].tree, ops[i]) && Harmless(ss[i], ops[i])
    ensures Inv(ss[n].cache, ss[n].tree)
    ensures (forall i :: 0 <= i < n ==> !LosesPaths(ops[i])) ==> Intact(ss[n].cache, ss[n].tree)
    ensures n < |ops| ==> Sensible(ss[n].tree, ops[n])
    ensures n < |ops| ==>
      var (s', out) := Step(ss[n], ops[n]);
      && ((s'.tree, out) == TreeStep(ss[n].tree, ops[n]) || (Denies(out) && s'.tree == ss[n].tree))
      && ((forall i :: 0 <= i < n ==> !LosesPaths(ops[i])) ==> (s'.tree, out) == TreeStep(ss[n].tree, ops[n]))
    decreases n
  {
    hide Step, TreeStep, Inv, Intact, IsTree, UniqueNames, Start, Sensible, Harmless;
    if n == 0 {
      StartInv(ss[0].tree);
    } else {
      RunRefines(ss, ops, n - 1);
      assert Sensible(ss[n - 1].tree, ops[n - 1]) && ss[n - 1 + 1] == Step(ss[n - 1], ops[n - 1]).0;
      assert Harmless(ss[n - 1], ops[n - 1]);
      HarmlessKeeps(ss[n - 1], ops[n - 1]);
    }
    if n < |ops| {
      assert Sensible(ss[n].tree, ops[n]);
      StepRefines(ss[n], ops[n]);
    }
  }

  // ---- where the conditions fail ----

  lemma Extend(ss: seq<Sys>, ops: seq<Op>, op: Op)
    requires IsRun(ss, ops) && Sensible(ss[|ops|].tree, op)
    ensures IsRun(ss + [Step(ss[|ops|], op).0], ops + [op])
  {
    hide Step, Sensible, IsTree, UniqueNames;
    var ss1, ops1 := ss + [Step(ss[|ops|], op).0], ops + [op];
    forall i {:trigger ops1[i]} | 0 <= i < |ops1|
      ensures Sensible(ss1[i].tree, ops1[i]) && ss1[i + 1] == Step(ss1[i], ops1[i]).0
    {
      if i < |ops| {
        assert Sensible(ss[i].tree, ops[i]) && ss[i + 1] == Step(ss[i], ops[i]).0;
      }
    }
  }

  /** After the root is listed its children are mapped and it is marked loaded. */
  lemma RootListed(t: Tree) returns (s: Sys)
    requires IsTree(t) && UniqueNames(t)
    ensures s == Step(Sys(Start(t.root), t), List([])).0 && s.tree == t && Inv(s.cache, t) && t.root in s.cache.loaded
    ensures IsRun([Sys(Start(t.root), t), s], [List([])])
  {
    hide IsTree, UniqueNames, Inv, Load, Entries;
    var s0 := Sys(Start(t.root), t);
    s := Step(s0, List([])).0;
    StartInv(t);
    LoadKeeps(s0.cache, t, t.root, []);
    LoadGrows(s0.cache, t, t.root, []);
  }

  /** The root is listed, and the mapping of one child expires. */
  lemma ChildForgotten(t: Tree, n: Name) returns (ss: seq<Sys>, ops: seq<Op>)
    requires IsTree(t) && UniqueNames(t)
    ensures ops == [List([]), Vanish({[n]}, {})] && IsRun(ss, ops) && ss[2].tree == t && Inv(ss[2].cache, t)
    ensures t.root in ss[2].cache.loaded && [n] !in ss[2].cache.ids
  {
    hide IsTree, UniqueNames, Inv, Start, ReadDir;
    var s1 := RootListed(t);
    var s2 := Step(s1, Vanish({[n]}, {})).0;
    VanishKeeps(s1.cache, t, {[n]}, {});
    Extend([Sys(Start(t.root), t), s1], [List([])], Vanish({[n]}, {}));
    ss, ops := [Sys(Start(t.root), t), s1] + [s2], [List([])] + [Vanish({[n]}, {})];
  }

  lemma TopPath(t: Tree, n: Name)
    ensures Parent([n]) == [] && Last([n]) == n && Walk(t, []) == Some(t.root)
    ensures Walk(t, [n]).Some? ==> t.root in t.dirs && Named(t.dirs[t.root], n).Some?
  {
    assert Parent([n]) == [];
  }

  /** A run in which a path that exists is answered as absent. */
  lemma LostMappingRun(t: Tree, n: Name) returns (ss: seq<Sys>, ops: seq<Op>)
    requires IsTree(t) && UniqueNames(t) && Walk(t, [n]).Some?
    ensures ops == [List([]), Vanish({[n]}, {})] && IsRun(ss, ops) && ss[2].tree == t
    ensures Step(ss[2], Find([n])).1 == Id(None) && Walk(ss[2].tree, [n]).Some?
  {
    hide IsTree, UniqueNames, Inv, Resolve;
    ss, ops := ChildForgotten(t, n);
    TopPath(t, n);
    assert !IntactAt(ss[2].cache, t, [n]);
    FalselyAbsent(ss[2].cache, t, [n]);
  }

  /** A run in which a second folder of the same name is made after that answer. */
  lemma TwinRun(t: Tree, n: Name, id: FileId) returns (ss: seq<Sys>, ops: seq<Op>)
    requires IsTree(t) && UniqueNames(t) && Walk(t, [n]).Some? && id !in t.used && id != ""
    ensures ops == [List([]), Vanish({[n]}, {}), Mkdir([n], id)] && IsRun(ss, ops)
    ensures Step(ss[2], Find([n])).1 == Id(None) && !UniqueNames(ss[3].tree)
  {
    hide IsTree, UniqueNames, Inv, Created, Named;
    var before, first := LostMappingRun(t, n);
    TopPath(t, n);
    Extend(before, first, Mkdir([n], id));
    ss, ops := before + [Step(before[2], Mkdir([n], id)).0], first + [Mkdir([n], id)];
    CreatedUnique(t, t.root, n, id);
  }

  /** A run in which a directory is removed and a path below it still answered. */
  lemma StaleRun(t: Tree, d: Name, n: Name) returns (ss: seq<Sys>, ops: seq<Op>)
    requires IsTree(t) && UniqueNames(t) && Walk(t, [d, n]).Some?
    ensures ops == [Find([d, n]), Remove([d])] && IsRun(ss, ops)
    ensures Walk(ss[2].tree, [d, n]).None? && Step(ss[2], Find([d, n])).1 == Id(Walk(t, [d, n]))
  {
    hide IsTree, UniqueNames, Inv, Load, Deleted, Walk;
    var s0 := Sys(Start(t.root), t);
    var s1 := Step(s0, Find([d, n])).0;
    StartInv(t);
    AnswerRight(s0.cache, t, [d, n]);
    FoundIsMapped(s0.cache, t, [d, n]);
    assert IsRun([s0], []);
    Extend([s0], [], Find([d, n]));
    assert [s0] + [s1] == [s0, s1] && [] + [Find([d, n])] == [Find([d, n])];
    var s2 := Step(s1, Remove([d])).0;
    assert [d] <= [d, n];
    StaleBelow(s1, [d], [d, n]);
    Extend([s0, s1], [Find([d, n])], Remove([d]));
    ss, ops := [s0, s1] + [s2], [Find([d, n])] + [Remove([d])];
  }

  /** A path other than the root that is found is mapped then. */
  lemma FoundIsMapped(c: Cache, t: Tree, p: Steps)
    requires p != [] && Resolve(c, t, p).1.Some?
    ensures Lookup(Resolve(c, t, p).0, p) == Resolve(c, t, p).1
  {}

  lemma StaleBelow(s: Sys, p: Steps, q: Steps)
    requires Inv(s.cache, s.tree) && Intact(s.cache, s.tree) && p != [] && p < q && Lookup(s.cache, q).Some?
    ensures var s' := Step(s, Remove(p)).0;
      Walk(s'.tree, q).None? && Step(s', Find(q)).1 == Id(Walk(s.tree, q))
  {
    hide Inv, Deleted, Walk, Child;
    AnswerRight(s.cache, s.tree, p);
    FoundIsRight(s.cache, s.tree, q);
    MoreBelow(s.tree, p, q);
    var (c, id) := Resolve(s.cache, s.tree, p);
    OnlyShortValue(s.cache, s.tree, p, q);
    InvParts(s);
    DeletedWalk(s.tree, p, id.value, q);
  }

  lemma InvParts(s: Sys)
    requires Inv(s.cache, s.tree)
    ensures IsTree(s.tree) && UniqueNames(s.tree)
  {}

  lemma MoreBelow(t: Tree, p: Steps, q: Steps)
    requires p < q && Walk(t, q).Some?
    ensures Walk(t, p).Some?
  {
    Below(t, p, q);
  }

  /** Resolving a path changes no mapping of a longer one. */
  lemma OnlyShortValue(c: Cache, t: Tree, p: Steps, q: Steps)
    requires Inv(c, t) && |q| > |p| && q in c.ids
    ensures q in Resolve(c, t, p).0.ids && Resolve(c, t, p).0.ids[q] == c.ids[q]
  {
    hide IsTree, UniqueNames;
    OnlyShort(c, t, p, q);
    ResolveSound(c, t, p);
    assert SoundAt(c, t, q) && SoundAt(Resolve(c, t, p).0, t, q);
  }
}
