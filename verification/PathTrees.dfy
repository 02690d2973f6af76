/** The remote tree, and path resolution through a cache that maps paths to ids and also
    remembers which directories are fully loaded, so that it answers "absent" on its own. */
module PathTrees {
  import opened FileContents

  type Name = string

  /** A path from the root, as the names on the way. */
  type Steps = seq<Name>

  function Parent(p: Steps): Steps
    requires p != []
  {
    p[..|p| - 1]
  }

  function Last(p: Steps): Name
    requires p != []
  {
    p[|p| - 1]
  }

  // ---- listings ----

  datatype Item = Item(name: Name, id: FileId)

  /** The id a listing gives a name: the last item wins. */
  function Named(items: seq<Item>, n: Name): Option<FileId> {
    if items == [] then None
    else if items[|items| - 1].name == n then Some(items[|items| - 1].id)
    else Named(items[..|items| - 1], n)
  }

  function Without(items: seq<Item>, id: FileId): seq<Item> {
    if items == [] then []
    else Without(items[..|items| - 1], id) + if items[|items| - 1].id == id then [] else [items[|items| - 1]]
  }

  predicate DistinctNames(items: seq<Item>) {
    forall i, j :: 0 <= i < j < |items| ==> items[i].name != items[j].name
  }

  predicate DistinctIds(items: seq<Item>) {
    forall i, j :: 0 <= i < j < |items| ==> items[i].id != items[j].id
  }

  lemma {:induction false} NamedItem(items: seq<Item>, n: Name)
    ensures Named(items, n).Some? ==> Item(n, Named(items, n).value) in items
    ensures Named(items, n).None? ==> forall x :: x in items ==> x.name != n
  {
    if items != [] {
      NamedItem(items[..|items| - 1], n);
      assert items == items[..|items| - 1] + [items[|items| - 1]];
    }
  }

  lemma {:induction false} OnlyOthers(items: seq<Item>, id: FileId)
    ensures forall x :: x in Without(items, id) <==> x in items && x.id != id
  {
    if items != [] {
      OnlyOthers(items[..|items| - 1], id);
      assert items == items[..|items| - 1] + [items[|items| - 1]];
    }
  }

  lemma {:induction false} StillDistinct(items: seq<Item>, id: FileId)
    ensures DistinctNames(items) ==> DistinctNames(Without(items, id))
    ensures DistinctIds(items) ==> DistinctIds(Without(items, id))
  {
    if items != [] {
      var rest, last := items[..|items| - 1], items[|items| - 1];
      StillDistinct(rest, id);
      OnlyOthers(rest, id);
      var kept := Without(rest, id);
      LastDistinct(items);
      assert forall i :: 0 <= i < |kept| ==> kept[i] in kept;
    }
  }

  lemma LastDistinct(items: seq<Item>)
    requires items != []
    ensures DistinctNames(items) ==> forall x :: x in items[..|items| - 1] ==> x.name != items[|items| - 1].name
    ensures DistinctIds(items) ==> forall x :: x in items[..|items| - 1] ==> x.id != items[|items| - 1].id
  {}

  lemma NamedLast(items: seq<Item>, x: Item, n: Name)
    ensures Named(items + [x], n) == if x.name == n then Some(x.id) else Named(items, n)
  {
    assert (items + [x])[..|items|] == items;
  }

  lemma {:induction false} NamedWithout(items: seq<Item>, id: FileId, n: Name)
    requires DistinctNames(items)
    ensures Named(Without(items, id), n) == if Named(items, n) == Some(id) then None else Named(items, n)
  {
    hide Named;
    NamedItem(items, n);
    if items != [] {
      var rest, last := items[..|items| - 1], items[|items| - 1];
      assert items == rest + [last];
      NamedWithout(rest, id, n);
      NamedItem(rest, n);
      LastDistinct(items);
      NamedLast(rest, last, n);
      if last.id != id {
        NamedLast(Without(rest, id), last, n);
      } else {
        assert Without(items, id) == Without(rest, id);
      }
    }
  }

  // ---- the tree ----

  /** `dirs` holds the listing of each directory, `used` every id ever given out. */
  datatype Tree = Tree(root: FileId, dirs: map<FileId, seq<Item>>, used: set<FileId>)

  function Kids(t: Tree, id: FileId): seq<Item> {
    if id in t.dirs then t.dirs[id] else []
  }

  function Child(t: Tree, d: Option<FileId>, n: Name): Option<FileId> {
    if d.Some? then Named(Kids(t, d.value), n) else None
  }

  /** The id at a path. */
  function Walk(t: Tree, p: Steps): Option<FileId>
    decreases |p|
  {
    if p == [] then Some(t.root) else Child(t, Walk(t, Parent(p)), Last(p))
  }

  /** An id is at one place, and ids are not empty. */
  ghost predicate IsTree(t: Tree) {
    && t.root != "" && t.root in t.used
    && (forall d :: d in t.dirs ==> d in t.used && DistinctIds(t.dirs[d]))
    && (forall d, x :: d in t.dirs && x in t.dirs[d] ==> x.id != "" && x.id != t.root && x.id in t.used)
    && (forall d, e, x, y :: d in t.dirs && e in t.dirs && x in t.dirs[d] && y in t.dirs[e] && x.id == y.id ==> d == e)
  }

  /** Names are unique in every directory. */
  ghost predicate UniqueNames(t: Tree) {
    forall d :: d in t.dirs ==> DistinctNames(t.dirs[d])
  }

  lemma ChildItem(t: Tree, d: FileId, n: Name)
    requires Child(t, Some(d), n).Some?
    ensures d in t.dirs && Item(n, Child(t, Some(d), n).value) in t.dirs[d]
  {
    NamedItem(Kids(t, d), n);
  }

  lemma {:induction false} WalkUsed(t: Tree, p: Steps)
    requires IsTree(t) && Walk(t, p).Some?
    ensures Walk(t, p).value in t.used && Walk(t, p).value != "" && (Walk(t, p).value == t.root ==> p == [])
  {
    if p != [] {
      ChildItem(t, Walk(t, Parent(p)).value, Last(p));
    }
  }

  lemma OnePlace(t: Tree, d: FileId, n: Name, e: FileId, m: Name)
    requires IsTree(t) && Child(t, Some(d), n).Some? && Child(t, Some(d), n) == Child(t, Some(e), m)
    ensures d == e && n == m
  {
    ChildItem(t, d, n);
    ChildItem(t, e, m);
  }

  lemma {:induction false} OnePath(t: Tree, p: Steps, q: Steps)
    requires IsTree(t) && Walk(t, p).Some? && Walk(t, p) == Walk(t, q)
    ensures p == q
    decreases |p|
  {
    hide IsTree;
    WalkUsed(t, p);
    WalkUsed(t, q);
    if p != [] && q != [] {
      OnePlace(t, Walk(t, Parent(p)).value, Last(p), Walk(t, Parent(q)).value, Last(q));
      OnePath(t, Parent(p), Parent(q));
      assert p == Parent(p) + [Last(p)] && q == Parent(q) + [Last(q)];
    }
  }

  /** A path below another has an id only if the other's has children. */
  lemma {:induction false} Below(t: Tree, p: Steps, q: Steps)
    requires p < q && Walk(t, q).Some?
    ensures Walk(t, p).Some? && Kids(t, Walk(t, p).value) != []
    decreases |q|
  {
    if p != Parent(q) {
      Below(t, p, Parent(q));
    }
  }

  /** What creating a folder does; the server does not look for one of the same name. */
  function Created(t: Tree, d: FileId, n: Name, id: FileId): Tree
    requires d in t.dirs
  {
    t.(dirs := t.dirs[d := t.dirs[d] + [Item(n, id)]][id := []], used := t.used + {id})
  }

  lemma CreatedTree(t: Tree, d: FileId, n: Name, id: FileId)
    requires IsTree(t) && d in t.dirs && id !in t.used && id != ""
    ensures IsTree(Created(t, d, n, id))
  {
    hide DistinctIds;
    var t' := Created(t, d, n, id);
    CreatedItems(t, d, n, id);
    forall e | e in t'.dirs ensures e in t'.used && DistinctIds(t'.dirs[e]) {
      OneMoreId(t.dirs[d], Item(n, id));
    }
    forall e, x | e in t'.dirs && x in t'.dirs[e] ensures x.id != "" && x.id != t'.root && x.id in t'.used {
      assert IsItem(t', e, x);
    }
    forall e, f, x, y | e in t'.dirs && f in t'.dirs && x in t'.dirs[e] && y in t'.dirs[f] && x.id == y.id
      ensures e == f
    {
      assert IsItem(t', e, x) && IsItem(t', f, y);
    }
  }

  predicate IsItem(t: Tree, d: FileId, x: Item) {
    d in t.dirs && x in t.dirs[d]
  }

  lemma CreatedItems(t: Tree, d: FileId, n: Name, id: FileId)
    requires IsTree(t) && d in t.dirs && id !in t.used
    ensures forall e, x :: IsItem(Created(t, d, n, id), e, x) <==> IsItem(t, e, x) || (e == d && x == Item(n, id))
    ensures forall e, x :: IsItem(t, e, x) ==> x.id != id && e != id
  {
    hide DistinctIds;
    forall e, x ensures IsItem(Created(t, d, n, id), e, x) <==> IsItem(t, e, x) || (e == d && x == Item(n, id)) {
      assert x in t.dirs[d] + [Item(n, id)] <==> x in t.dirs[d] || x == Item(n, id);
    }
  }

  lemma OneMoreId(items: seq<Item>, x: Item)
    ensures DistinctIds(items) && (forall y :: y in items ==> y.id != x.id) ==> DistinctIds(items + [x])
    ensures DistinctIds([])
  {
    assert forall i :: 0 <= i < |items| ==> items[i] in items;
  }

  /** Names stay unique exactly when the name was free. */
  lemma CreatedUnique(t: Tree, d: FileId, n: Name, id: FileId)
    requires IsTree(t) && UniqueNames(t) && d in t.dirs && id !in t.used
    ensures UniqueNames(Created(t, d, n, id)) <==> Named(t.dirs[d], n).None?
  {
    hide Named, DistinctNames;
    var items := t.dirs[d];
    OneMoreName(items, Item(n, id));
    OneMoreName([], Item(n, id));
    var t' := Created(t, d, n, id);
    assert t'.dirs[d] == items + [Item(n, id)];
    forall e | e in t'.dirs && e != d ensures DistinctNames(t'.dirs[e]) {
      assert e == id || t'.dirs[e] == t.dirs[e];
    }
  }

  lemma OneMoreName(items: seq<Item>, x: Item)
    requires DistinctNames(items)
    ensures DistinctNames(items + [x]) <==> Named(items, x.name).None?
    ensures DistinctNames([])
  {
    NamedItem(items, x.name);
    var more := items + [x];
    if Named(items, x.name).Some? {
      var i :| 0 <= i < |items| && items[i] == Item(x.name, Named(items, x.name).value);
      assert more[i].name == more[|items|].name;
    } else {
      assert forall i :: 0 <= i < |items| ==> items[i] in items;
    }
  }

  lemma CreatedChild(t: Tree, d: FileId, n: Name, id: FileId, e: FileId, m: Name)
    requires IsTree(t) && d in t.dirs && id !in t.used && e in t.used
    ensures Child(Created(t, d, n, id), Some(e), m) == if e == d && m == n then Some(id) else Child(t, Some(e), m)
    ensures Child(Created(t, d, n, id), Some(id), m) == None
  {
    var more := t.dirs[d] + [Item(n, id)];
    assert more[..|more| - 1] == t.dirs[d];
  }

  /** With a free name exactly one path gains an id. */
  lemma {:induction false} CreatedWalk(t: Tree, p: Steps, d: FileId, n: Name, id: FileId, q: Steps)
    requires IsTree(t) && Walk(t, p) == Some(d) && d in t.dirs && Walk(t, p + [n]).None? && id !in t.used
    ensures Walk(Created(t, d, n, id), q) == if q == p + [n] then Some(id) else Walk(t, q)
    decreases |q|
  {
    hide IsTree, Created, Child;
    if q != [] {
      var up := Parent(q);
      assert q == up + [Last(q)];
      CreatedWalk(t, p, d, n, id, up);
      if Walk(t, up).Some? {
        var e := Walk(t, up).value;
        WalkUsed(t, up);
        CreatedChild(t, d, n, id, e, Last(q));
        if e == d {
          OnePath(t, p, up);
        }
      } else if up == p + [n] {
        RootOf(t, d, n, id);
        WalkUsed(t, p);
        CreatedChild(t, d, n, id, d, Last(q));
        NoChild(t, Last(q));
      } else {
        NoChild(t, Last(q));
        NoChild(Created(t, d, n, id), Last(q));
      }
    } else {
      RootOf(t, d, n, id);
    }
  }

  lemma RootOf(t: Tree, d: FileId, n: Name, id: FileId)
    requires d in t.dirs
    ensures Created(t, d, n, id).root == t.root
  {}

  lemma NoChild(t: Tree, n: Name)
    ensures Child(t, None, n) == None
  {}

  /** What deleting an id does: it leaves its directory, and its own children are gone. */
  function Deleted(t: Tree, id: FileId): Tree {
    t.(dirs := map d | d in t.dirs && d != id :: Without(t.dirs[d], id))
  }

  lemma DeletedTree(t: Tree, id: FileId)
    requires IsTree(t)
    ensures IsTree(Deleted(t, id)) && (UniqueNames(t) ==> UniqueNames(Deleted(t, id)))
    ensures Deleted(t, id).root == t.root && Deleted(t, id).used == t.used
  {
    hide DistinctIds, DistinctNames, Without;
    forall d | d in t.dirs ensures
      && (forall x :: x in Without(t.dirs[d], id) ==> x in t.dirs[d])
      && (DistinctIds(t.dirs[d]) ==> DistinctIds(Without(t.dirs[d], id)))
      && (DistinctNames(t.dirs[d]) ==> DistinctNames(Without(t.dirs[d], id)))
    {
      OnlyOthers(t.dirs[d], id);
      StillDistinct(t.dirs[d], id);
    }
  }

  lemma DeletedChild(t: Tree, id: FileId, e: FileId, m: Name)
    requires e != id && UniqueNames(t)
    ensures Child(Deleted(t, id), Some(e), m) == if Child(t, Some(e), m) == Some(id) then None else Child(t, Some(e), m)
  {
    NamedWithout(Kids(t, e), id, m);
  }

  /** Exactly the paths from the deleted one down lose their ids. */
  lemma {:induction false} DeletedWalk(t: Tree, p: Steps, id: FileId, q: Steps)
    requires IsTree(t) && UniqueNames(t) && p != [] && Walk(t, p) == Some(id)
    ensures Walk(Deleted(t, id), q) == if p <= q then None else Walk(t, q)
    decreases |q|
  {
    hide IsTree, UniqueNames, Deleted, Child;
    DeletedTree(t, id);
    if q != [] {
      var up := Parent(q);
      assert q == up + [Last(q)];
      assert p <= q <==> p == q || p <= up;
      DeletedWalk(t, p, id, up);
      NoChild(t, Last(q));
      NoChild(Deleted(t, id), Last(q));
      if Walk(t, up).Some? {
        if Walk(t, up).value == id {
          OnePath(t, p, up);
        } else {
          DeletedChild(t, id, Walk(t, up).value, Last(q));
        }
      }
      if Walk(t, q) == Some(id) {
        OnePath(t, p, q);
      }
    }
  }

  // ---- the cache ----

  /** `ids` may lose entries at any time and so may `loaded`; `listed` does not. */
  datatype Cache = Cache(ids: map<Steps, FileId>, loaded: set<FileId>, listed: map<Steps, set<Steps>>)

  function Listed(c: Cache, p: Steps): set<Steps> {
    if p in c.listed then c.listed[p] else {}
  }

  function Lookup(c: Cache, p: Steps): Option<FileId> {
    if p in c.ids && c.ids[p] != "" then Some(c.ids[p]) else None
  }

  function MapPath(c: Cache, p: Steps, id: FileId): Cache {
    c.(ids := c.ids[p := id],
       listed := if p == [] then c.listed else c.listed[Parent(p) := Listed(c, Parent(p)) + {p}])
  }

  function Invalidate(c: Cache, p: Steps): Cache {
    c.(ids := c.ids - {p},
       listed := if p != [] && Parent(p) in c.listed
                 then c.listed[Parent(p) := c.listed[Parent(p)] - {p}] else c.listed)
  }

  /** The items of a listing stored one by one. */
  function MapAll(c: Cache, p: Steps, items: seq<Item>): Cache {
    if items == [] then c
    else
      var last := items[|items| - 1];
      MapPath(MapAll(c, p, items[..|items| - 1]), p + [last.name], last.id)
  }

  /** A child of `p` that the listing names. */
  predicate InListing(p: Steps, items: seq<Item>, q: Steps) {
    q != [] && Parent(q) == p && Named(items, Last(q)).Some?
  }

  /** What all the items of a listing make of the cache. */
  lemma {:induction false} MappedAll(c: Cache, p: Steps, items: seq<Item>, q: Steps)
    ensures var c' := MapAll(c, p, items);
      && c'.loaded == c.loaded
      && (q in c'.ids <==> q in c.ids || InListing(p, items, q))
      && (q in c'.ids ==> c'.ids[q] == if InListing(p, items, q) then Named(items, Last(q)).value else c.ids[q])
      && (forall r :: q in Listed(c', r) <==> q in Listed(c, r) || (r == p && InListing(p, items, q)))
  {
    if items != [] {
      MappedAll(c, p, items[..|items| - 1], q);
      var added := p + [items[|items| - 1].name];
      assert Parent(added) == p && Last(added) == items[|items| - 1].name;
      if q != [] && Parent(q) == p {
        assert q == p + [Last(q)];
      }
    }
  }

  function Load(c: Cache, t: Tree, id: FileId, p: Steps): Cache {
    if id in c.loaded then c else MapAll(c, p, Kids(t, id)).(loaded := c.loaded + {id})
  }

  /** The recursion of path resolution; it ends because the path gets shorter. */
  function Resolve(c: Cache, t: Tree, p: Steps): (Cache, Option<FileId>)
    decreases |p|
  {
    if p == [] then (c, Some(t.root))
    else if Lookup(c, p).Some? then (c, Lookup(c, p))
    else
      var (c1, parent) := Resolve(c, t, Parent(p));
      if parent.None? || parent.value in c1.loaded then (c1, None)
      else
        var c2 := Load(c1, t, parent.value, Parent(p));
        (c2, Lookup(c2, p))
  }

  // ---- what the cache is worth ----

  /** A mapped path has the id the tree gives it. */
  ghost predicate SoundAt(c: Cache, t: Tree, p: Steps) {
    p in c.ids ==> Walk(t, p) == Some(c.ids[p])
  }

  /** A mapped path other than the root is listed under its parent. */
  ghost predicate FiledAt(c: Cache, p: Steps) {
    p in c.ids && p != [] ==> p in Listed(c, Parent(p))
  }

  /** Whatever is listed under a path is a child of that path in the tree. */
  ghost predicate RealAt(c: Cache, t: Tree, p: Steps, q: Steps) {
    q in Listed(c, p) ==> q != [] && Parent(q) == p && Walk(t, q).Some?
  }

  /** The tree has `q`, in a directory that is marked loaded. */
  ghost predicate InLoaded(c: Cache, t: Tree, q: Steps) {
    q != [] && Walk(t, q).Some? && Walk(t, Parent(q)).Some? && Walk(t, Parent(q)).value in c.loaded
  }

  /** The children of a loaded directory are all listed. */
  ghost predicate FullAt(c: Cache, t: Tree, q: Steps) {
    InLoaded(c, t, q) ==> q in Listed(c, Parent(q))
  }

  ghost predicate Inv(c: Cache, t: Tree) {
    && IsTree(t) && UniqueNames(t) && c.loaded <= t.used
    && (forall p :: SoundAt(c, t, p)) && (forall p :: FiledAt(c, p))
    && (forall p, q :: RealAt(c, t, p, q)) && (forall q :: FullAt(c, t, q))
  }

  /** The children of a loaded directory are all still mapped. */
  ghost predicate IntactAt(c: Cache, t: Tree, q: Steps) {
    InLoaded(c, t, q) ==> q in c.ids
  }

  ghost predicate Intact(c: Cache, t: Tree) {
    forall q :: IntactAt(c, t, q)
  }

  /** Nothing strictly below a path is listed in the cache. */
  ghost predicate NothingBelow(c: Cache, p: Steps) {
    forall r, q :: q in Listed(c, r) ==> !(p < q)
  }

  function Start(root: FileId): Cache {
    Cache(map[[] := root], {}, map[])
  }

  lemma StartInv(t: Tree)
    requires IsTree(t) && UniqueNames(t)
    ensures Inv(Start(t.root), t) && Intact(Start(t.root), t)
  {}
}
