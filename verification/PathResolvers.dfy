/** The metadata cache and the path operations in place: each does to the cache and the
    remote tree what the steps of PathResolution say, and stays right when entries expire
    in the middle of an operation. */
module PathResolvers {
  import opened FileContents
  import opened PathTrees
  import opened PathResolution

  class MetadataCache {
    var ids: map<Steps, FileId>
    var loaded: set<FileId>
    var listed: map<Steps, set<Steps>>
    /** The ids whose metadata entry is cached. */
    var known: set<FileId>

    ghost function View(): Cache
      reads this
    {
      Cache(ids, loaded, listed)
    }

    constructor (root: FileId)
      ensures View() == Start(root)
    {
      ids, loaded, listed, known := map[[] := root], {}, map[], {root};
    }

    method ResolvePath(p: Steps) returns (id: Option<FileId>)
      ensures id == Lookup(View(), p)
    {
      id := if p in ids && ids[p] != "" then Some(ids[p]) else None;
    }

    method MapPathTo(p: Steps, id: FileId)
      modifies this
      ensures View() == MapPath(old(View()), p, id) && known == old(known)
    {
      ids := ids[p := id];
      if p != [] {
        var parent := Parent(p);
        if parent !in listed {
          listed := listed[parent := {}];
        }
        listed := listed[parent := listed[parent] + {p}];
      }
      assert p != [] ==> listed == old(listed)[Parent(p) := Listed(old(View()), Parent(p)) + {p}];
    }

    method SetMetadata(id: FileId)
      modifies this
      ensures View() == old(View()) && known == old(known) + {id}
    {
      known := known + {id};
    }

    method ChildrenPaths(p: Steps) returns (paths: set<Steps>)
      ensures paths == Listed(View(), p)
    {
      paths := if p in listed then listed[p] else {};
    }

    method InvalidatePath(p: Steps)
      modifies this
      ensures View() == Invalidate(old(View()), p)
      ensures known == if old(Lookup(View(), p)).Some? then old(known) - {old(ids[p])} else old(known)
    {
      if p in ids && ids[p] != "" {
        known := known - {ids[p]};
      }
      ids := ids - {p};
      if p != [] && Parent(p) in listed {
        listed := listed[Parent(p) := listed[Parent(p)] - {p}];
      }
    }

    method IsLoaded(id: FileId) returns (r: bool)
      ensures r <==> id in View().loaded
    {
      r := id in loaded;
    }

    method MarkLoaded(id: FileId)
      modifies this
      ensures View() == old(View()).(loaded := old(loaded) + {id}) && known == old(known)
    {
      loaded := loaded + {id};
    }

    /** Any entries of the bounded maps may go at any time. */
    method Expire()
      modifies this
      ensures exists paths, dirs :: View() == Vanished(old(View()), paths, dirs)
    {
      var paths: set<Steps>, dirs: set<FileId>, gone: set<FileId> := *, *, *;
      ids, loaded, known := ids - paths, loaded - dirs, known - gone;
      assert View() == Vanished(old(View()), paths, dirs);
    }
  }

  class TreeStorage {
    var tree: Tree
    /** Whether requests that make sense never fail. */
    const reliable: bool

    constructor (tree: Tree, reliable: bool)
      ensures this.tree == tree && this.reliable == reliable
    {
      this.tree, this.reliable := tree, reliable;
    }

    /** The children of an id, or nothing when the request fails. */
    method ListChildren(id: FileId) returns (items: Option<seq<Item>>)
      ensures items.Some? ==> items.value == Kids(tree, id)
      ensures reliable ==> items.Some?
    {
      var reached: bool := *;
      items := if reached || reliable then Some(if id in tree.dirs then tree.dirs[id] else []) else None;
    }

    /** The server gives a new folder a new id; it refuses a parent that is no folder, but
        not a name that exists. */
    method CreateFolder(parent: FileId, name: Name, id: FileId) returns (ok: bool)
      requires id !in tree.used && id != ""
      modifies this
      ensures ok ==> parent in old(tree).dirs && tree == Created(old(tree), parent, name, id)
      ensures !ok ==> tree == old(tree)
      ensures reliable && parent in old(tree).dirs ==> ok
    {
      var reached: bool := *;
      ok := parent in tree.dirs && (reached || reliable);
      if ok {
        var items := tree.dirs[parent] + [Item(name, id)];
        tree := tree.(dirs := tree.dirs[parent := items][id := []], used := tree.used + {id});
      }
    }

    method DeleteFile(id: FileId) returns (ok: bool)
      modifies this
      ensures tree == if ok then Deleted(old(tree), id) else old(tree)
      ensures reliable ==> ok
    {
      var reached: bool := *;
      ok := reached || reliable;
      if ok {
        tree := tree.(dirs := map d | d in tree.dirs && d != id :: Without(tree.dirs[d], id));
      }
    }
  }

  class PathOps {
    const cache: MetadataCache
    const storage: TreeStorage

    ghost predicate Valid()
      reads this, cache, storage
    {
      Inv(cache.View(), storage.tree)
    }

    /** Starts with only the root mapped. */
    constructor (storage: TreeStorage)
      requires IsTree(storage.tree) && UniqueNames(storage.tree)
      ensures Valid() && fresh(cache) && this.storage == storage && Intact(cache.View(), storage.tree)
    {
      this.storage := storage;
      this.cache := new MetadataCache(storage.tree.root);
      new;
      StartInv(storage.tree);
    }

    /** Entries may expire here, unless the cache is steady.  What expires while a listing
        is being stored is as good as expired right after. */
    method MayExpire(steady: bool)
      requires Valid()
      modifies cache
      ensures Valid() && cache.listed == old(cache.listed) && (steady ==> cache.View() == old(cache.View()))
    {
      if !steady {
        ghost var before := cache.View();
        cache.Expire();
        ghost var paths, dirs :| cache.View() == Vanished(before, paths, dirs);
        VanishKeeps(before, storage.tree, paths, dirs);
      }
    }

    method LoadChildren(id: FileId, p: Steps, steady: bool) returns (ok: bool)
      requires Valid() && Walk(storage.tree, p) == Some(id)
      modifies cache
      ensures Valid()
      ensures cache.listed == if ok then Load(old(cache.View()), storage.tree, id, p).listed else old(cache.listed)
      ensures storage.reliable ==> ok
      ensures ok && steady ==> cache.View() == Load(old(cache.View()), storage.tree, id, p)
      ensures steady && old(Intact(cache.View(), storage.tree)) ==> Intact(cache.View(), storage.tree)
    {
      hide Inv, Walk, Load, Kids;
      ghost var before := cache.View();
      LoadKeeps(before, storage.tree, id, p);
      LoadedView(before, storage.tree, id, p);
      var known := cache.IsLoaded(id);
      if !known {
        var items := storage.ListChildren(id);
        if items.None? {
          return false;
        }
        StoreAll(p, items.value);
        cache.MarkLoaded(id);
      }
      MayExpire(steady);
      return true;
    }

    lemma LoadedView(c: Cache, t: Tree, id: FileId, p: Steps)
      ensures var all := MapAll(c, p, Kids(t, id));
        Load(c, t, id, p) == if id in c.loaded then c else all.(loaded := all.loaded + {id})
    {
      MappedAll(c, p, Kids(t, id), p);
    }

    lemma LoadListsShort(c: Cache, t: Tree, id: FileId, p: Steps)
      ensures forall r, q :: |q| > |p| + 1 ==> (q in Listed(Load(c, t, id, p), r) <==> q in Listed(c, r))
    {
      hide MapAll, Named, Kids;
      forall r, q | |q| > |p| + 1 ensures q in Listed(Load(c, t, id, p), r) <==> q in Listed(c, r) {
        MappedAll(c, p, Kids(t, id), q);
      }
    }

    method StoreAll(p: Steps, items: seq<Item>)
      modifies cache
      ensures cache.View() == MapAll(old(cache.View()), p, items)
    {
      hide MapPath;
      var i := 0;
      while i < |items|
        invariant 0 <= i <= |items| && cache.View() == MapAll(old(cache.View()), p, items[..i])
      {
        assert items[..i + 1][..i] == items[..i];
        cache.MapPathTo(p + [items[i].name], items[i].id);
        cache.SetMetadata(items[i].id);
        i := i + 1;
      }
      assert items[..i] == items;
    }

    /** A non-empty answer is the tree's, even if entries expire meanwhile; of a steady cache
        it is the answer of Resolve. */
    method ResolvePath(p: Steps, steady: bool) returns (ok: bool, id: Option<FileId>)
      requires Valid()
      modifies cache
      ensures Valid()
      ensures id.Some? ==> ok && id == Walk(storage.tree, p)
      ensures storage.reliable ==> ok
      ensures ok && steady ==> (cache.View(), id) == Resolve(old(cache.View()), storage.tree, p)
      ensures forall r, q :: |q| > |p| ==> (q in Listed(cache.View(), r) <==> q in Listed(old(cache.View()), r))
      ensures steady && old(Intact(cache.View(), storage.tree)) ==> Intact(cache.View(), storage.tree)
      ensures ok && steady && old(Intact(cache.View(), storage.tree)) ==> id == Walk(storage.tree, p)
      decreases |p|
    {
      hide Inv, Intact, Walk, Load, Lookup;
      ghost var before := cache.View();
      AnswerRight(before, storage.tree, p);
      if p == [] {
        RootId(storage.tree);
        return true, Some(storage.tree.root);
      }
      id := cache.ResolvePath(p);
      FoundIsRight(before, storage.tree, p);
      if id.Some? {
        return true, id;
      }
      var found, parent := ResolvePath(Parent(p), steady);
      if !found || parent.None? {
        return found, None;
      }
      var known := cache.IsLoaded(parent.value);
      if known {
        return true, None;
      }
      LoadListsShort(cache.View(), storage.tree, parent.value, Parent(p));
      var loaded := LoadChildren(parent.value, Parent(p), steady);
      if !loaded {
        return false, None;
      }
      id := cache.ResolvePath(p);
      FoundIsRight(cache.View(), storage.tree, p);
      return true, id;
    }

    lemma RootId(t: Tree)
      ensures Walk(t, []) == Some(t.root)
    {}

    /** A listing names each child once, and nothing else but the entries every directory
        has and the virtual one in the root. */
    method ReadDirEntries(p: Steps, steady: bool) returns (entries: Option<seq<Name>>)
      requires Valid()
      modifies cache
      ensures Valid()
      ensures entries.Some? ==> Walk(storage.tree, p).Some?
      ensures entries.Some? ==> var kids := Kids(storage.tree, Walk(storage.tree, p).value);
        multiset(entries.value) == Everything(NamesOf(kids), p)
      ensures steady && old(Intact(cache.View(), storage.tree)) ==> Intact(cache.View(), storage.tree)
      ensures storage.reliable && steady ==> cache.View() == ReadDir(old(cache.View()), storage.tree, p).0
      ensures storage.reliable && steady ==> (entries.Some? <==> ReadDir(old(cache.View()), storage.tree, p).1.Some?)
    {
      hide Inv, Intact, Walk, Load, Resolve, Kids, NamesOf, Everything;
      var ok, id := ResolvePath(p, steady);
      if id.None? {
        return None;
      }
      LoadKeeps(cache.View(), storage.tree, id.value, p);
      ListingExact(cache.View(), storage.tree, p, id.value);
      ghost var now := Load(cache.View(), storage.tree, id.value, p);
      AllChildren(now, storage.tree, p);
      var loaded := LoadChildren(id.value, p, steady);
      if !loaded {
        return None;
      }
      var children := cache.ChildrenPaths(p);
      assert children == Listed(now, p);
      var names := BaseNames(children, p);
      var all := [".", ".."] + names;
      if p == [] && "stats" !in all {
        all := all + ["stats"];
      }
      Counted(names, Entries(now, p), all, p);
      return Some(all);
    }

    function Everything(names: set<Name>, p: Steps): multiset<Name> {
      multiset{".", ".."} + multiset(names) + if p == [] && "stats" !in names then multiset{"stats"} else multiset{}
    }

    /** Each name in the directory once, the dot entries, and in the root the virtual one. */
    lemma EveryNameOnce(names: set<Name>, p: Steps, n: Name)
      ensures n in Everything(names, p) <==> n in {".", ".."} || n in names || (p == [] && n == "stats")
      ensures n !in {".", ".."} ==> Everything(names, p)[n] <= 1
    {}

    lemma Counted(names: seq<Name>, kids: set<Name>, all: seq<Name>, p: Steps)
      requires multiset(names) == multiset(kids)
      requires var most := [".", ".."] + names;
        all == if p == [] && "stats" !in most then most + ["stats"] else most
      ensures multiset(all) == Everything(kids, p)
    {
      assert forall n :: n in names <==> n in multiset(names);
      assert multiset([".", ".."] + names) == multiset{".", ".."} + multiset(kids);
    }

    lemma AllChildren(c: Cache, t: Tree, p: Steps)
      requires Inv(c, t)
      ensures forall q :: q in Listed(c, p) ==> q != [] && Parent(q) == p
    {
      forall q | q in Listed(c, p) ensures q != [] && Parent(q) == p {
        assert RealAt(c, t, p, q);
      }
    }

    /** The last names of the children of one path, each once, in some order. */
    method BaseNames(children: set<Steps>, p: Steps) returns (names: seq<Name>)
      requires forall q :: q in children ==> q != [] && Parent(q) == p
      ensures multiset(names) == multiset(set q | q in children && q != [] :: Last(q))
    {
      names := [];
      var todo := children;
      ghost var done: set<Name> := {};
      while todo != {}
        invariant todo <= children && multiset(names) == multiset(done)
        invariant done == set q | q in children - todo && q != [] :: Last(q)
        decreases |todo|
      {
        var q :| q in todo;
        Unseen(children, todo, q, p);
        names := names + [Last(q)];
        todo := todo - {q};
        done := done + {Last(q)};
      }
      assert children - todo == children;
    }

    lemma Unseen(children: set<Steps>, todo: set<Steps>, q: Steps, p: Steps)
      requires (forall r :: r in children ==> r != [] && Parent(r) == p) && q in todo && todo <= children
      ensures Last(q) !in set r | r in children - todo && r != [] :: Last(r)
      ensures (set r | r in children - (todo - {q}) && r != [] :: Last(r))
           == (set r | r in children - todo && r != [] :: Last(r)) + {Last(q)}
    {
      forall r | r in children && Last(r) == Last(q) ensures r == q {
        assert r == p + [Last(r)] && q == p + [Last(q)];
      }
      assert children - (todo - {q}) == (children - todo) + {q};
    }

    /** mkdir; `id` is what the server will call the folder.  Neither side looks whether the
        name is free: if it was not, names are no longer unique. */
    method MakeDir(p: Steps, id: FileId, steady: bool) returns (ok: bool)
      requires Valid() && Sensible(storage.tree, Mkdir(p, id))
      modifies cache, storage
      ensures ok ==> (storage.tree, Done) == TreeStep(old(storage.tree), Mkdir(p, id))
      ensures !ok ==> storage.tree == old(storage.tree)
      ensures if ok then Valid() <==> Walk(old(storage.tree), p).None? else Valid()
      ensures storage.reliable && steady ==>
        (Sys(cache.View(), storage.tree), if ok then Done else Failed)
          == Step(old(Sys(cache.View(), storage.tree)), Mkdir(p, id))
      ensures steady && old(Intact(cache.View(), storage.tree)) && Valid() ==> Intact(cache.View(), storage.tree)
    {
      hide Inv, Intact, Walk, Resolve, MapPath, Created;
      var found, parent := ResolvePath(Parent(p), steady);
      if parent.None? {
        return false;
      }
      ghost var t, c := storage.tree, cache.View();
      ok := storage.CreateFolder(parent.value, Last(p), id);
      if ok {
        cache.MapPathTo(p, id);
        cache.SetMetadata(id);
        if Walk(t, p).None? {
          CreateKeeps(c, t, p, parent.value, id);
        } else {
          TwinBreaks(c, t, p, parent.value, id);
        }
      }
    }

    /** unlink, and rmdir, which does not look whether the directory is empty. */
    method RemovePath(p: Steps, steady: bool) returns (ok: bool)
      requires Valid() && p != []
      modifies cache, storage
      ensures ok ==> (storage.tree, Done) == TreeStep(old(storage.tree), Remove(p))
      ensures !ok ==> storage.tree == old(storage.tree)
      ensures if ok then Valid() <==> NothingBelow(old(cache.View()), p) else Valid()
      ensures storage.reliable && steady ==>
        (Sys(cache.View(), storage.tree), if ok then Done else Failed)
          == Step(old(Sys(cache.View(), storage.tree)), Remove(p))
      ensures steady && old(Intact(cache.View(), storage.tree)) && Valid() ==> Intact(cache.View(), storage.tree)
    {
      hide Inv, Intact, Walk, Resolve, Kids, Invalidate, Deleted, NothingBelow;
      ghost var before := cache.View();
      var found, id := ResolvePath(p, steady);
      if id.None? {
        return false;
      }
      ghost var t, c := storage.tree, cache.View();
      SameBelow(before, c, p);
      ok := storage.DeleteFile(id.value);
      if ok {
        cache.InvalidatePath(p);
        if NothingBelow(c, p) {
          RemoveKeeps(c, t, p, id.value);
        } else {
          LeftBreaks(c, t, p, id.value);
        }
      }
    }

    lemma SameBelow(before: Cache, c: Cache, p: Steps)
      requires forall r, q :: p < q ==> (q in Listed(c, r) <==> q in Listed(before, r))
      ensures NothingBelow(c, p) <==> NothingBelow(before, p)
    {}
  }
}
