/** The inventory of a product: its listing, for a local one checked against a walk of the directory
    tree, with the size and the digest of each object. */
module Inventory {
  import opened Ordering
  import opened Wrappers
  import opened SegmentNames
  import opened Sequences
  import opened InventoryKeys

  datatype Kind = File | Dir | Other

  /** An entry of one directory; `Other` is a symbolic link or a special file. */
  datatype DirEntry = DirEntry(name: string, kind: Kind)

  /** The directories of the product by their prefix: `""`, `"a/"`, `"a/b/"`. */
  type Tree = map<string, seq<DirEntry>>

  datatype InventoryObject = InventoryObject(key: string, size: nat, digest: string)

  const DIGEST_PREFIX := "sha256:"

  /** Entry names are not empty, hold no slash, and differ within a directory. */
  ghost predicate WellFormed(tree: Tree) {
    forall p :: p in tree ==> IsPrefix(p) && GoodNames(tree[p])
  }

  ghost predicate GoodNames(entries: seq<DirEntry>) {
    && (forall i :: 0 <= i < |entries| ==> entries[i].name != "" && '/' !in entries[i].name)
    && (forall i, j :: 0 <= i < j < |entries| ==> entries[i].name != entries[j].name)
  }

  // ---------------------------------------------------------------- what is in the tree

  function Parent(p: string): (q: string)
    requires p != ""
    ensures |q| < |p| && IsPrefix(q)
  {
    UpToSlash(p[..|p| - 1])
  }

  /** The walk goes into this directory: it is the root, or a directory other than the claims in one
      that the walk goes into. */
  ghost predicate Reached(tree: Tree, p: string)
    decreases |p|
  {
    p == "" || (p != ".firecube/claims/" && Reached(tree, Parent(p)) && IsChild(tree, Parent(p), p))
  }

  ghost predicate IsChild(tree: Tree, q: string, p: string) {
    q in tree && HoldsDir(tree[q], q, p)
  }

  /** `key` is a regular file of a directory that the walk goes into. */
  ghost predicate OnDisk(tree: Tree, key: string) {
    exists p :: p in tree && Reached(tree, p) && HoldsFile(tree[p], p, key)
  }

  lemma ParentOf(p: string, name: string)
    requires IsPrefix(p) && '/' !in name
    ensures Parent(p + name + "/") == p
  {
    assert (p + name + "/")[..|p + name + "/"| - 1] == p + name;
    UpToSlashOf(p, name);
  }

  // ---------------------------------------------------------------- the walk

  /** An unlisted file that no unfinished write left. */
  ghost predicate Wanted(listed: set<string>, key: string) {
    key !in listed && !IsLeftover(key)
  }

  /** `key` is an unlisted file of directory `p`. */
  ghost predicate FoundIn(tree: Tree, listed: set<string>, p: string, key: string) {
    Wanted(listed, key) && p in tree && HoldsFile(tree[p], p, key)
  }

  ghost predicate HoldsFile(entries: seq<DirEntry>, p: string, key: string) {
    exists i :: 0 <= i < |entries| && entries[i].kind == File && key == p + entries[i].name
  }

  ghost predicate HoldsDir(entries: seq<DirEntry>, p: string, q: string) {
    exists i :: 0 <= i < |entries| && entries[i].kind == Dir && q == p + entries[i].name + "/"
  }

  /** Directories are pending or visited once each, after the directory they are in. */
  ghost predicate WalkOrder(pending: seq<string>, visited: set<string>) {
    && Distinct(pending)
    && (forall p :: p in pending ==> p !in visited)
    && (forall p :: (p in pending || p in visited) && p != "" ==> Parent(p) in visited)
  }

  /** What is visited and pending is reached, and what is reached from there is too. */
  ghost predicate WalkReach(tree: Tree, pending: seq<string>, visited: set<string>) {
    && ("" in tree ==> "" in pending || "" in visited)
    && (forall p :: p in visited ==> p in tree)
    && (forall p :: p in pending || p in visited ==> Reached(tree, p))
    && (forall q, p :: q in visited && IsChild(tree, q, p) && p != ".firecube/claims/" && p in tree ==>
          p in visited || p in pending)
  }

  lemma ChildOf(tree: Tree, q: string, p: string)
    requires WellFormed(tree) && IsChild(tree, q, p)
    ensures p != "" && Parent(p) == q
  {
    var i :| 0 <= i < |tree[q]| && tree[q][i].kind == Dir && p == q + tree[q][i].name + "/";
    ParentOf(q, tree[q][i].name);
  }

  lemma PopOrder(pending: seq<string>, visited: set<string>)
    requires pending != [] && WalkOrder(pending, visited)
    ensures var p := pending[|pending| - 1];
            && WalkOrder(pending[..|pending| - 1], visited)
            && p !in pending[..|pending| - 1] && p !in visited
            && (p != "" ==> Parent(p) in visited)
  {
    var p := pending[|pending| - 1];
    assert p in pending;
    assert forall x :: x in pending[..|pending| - 1] ==> x in pending;
  }

  /** Visiting a directory and pushing the directories in it. */
  lemma VisitOrder(tree: Tree, rest: seq<string>, visited: set<string>, p: string, dirs: seq<string>)
    requires WellFormed(tree) && p in tree && WalkOrder(rest, visited) && p !in rest && p !in visited
    requires p != "" ==> Parent(p) in visited
    requires Distinct(dirs) && forall q :: q in dirs ==> IsChild(tree, p, q)
    ensures WalkOrder(rest + dirs, visited + {p})
  {
    forall q | q in dirs ensures q != "" && Parent(q) == p && q !in rest && q !in visited && q != p {
      ChildOf(tree, p, q);
    }
    DistinctConcat(rest, dirs);
  }

  lemma VisitReach(tree: Tree, rest: seq<string>, visited: set<string>, p: string, dirs: seq<string>)
    requires WellFormed(tree) && p in tree && WalkReach(tree, rest + [p], visited)
    requires forall q :: q in dirs <==> q != ".firecube/claims/" && IsChild(tree, p, q)
    ensures WalkReach(tree, rest + dirs, visited + {p})
  {
    assert p in rest + [p];
    forall q | q in dirs ensures Reached(tree, q) {
      ChildOf(tree, p, q);
    }
    assert forall x :: x in rest + [p] <==> x in rest || x == p;
  }

  lemma PopReach(tree: Tree, rest: seq<string>, visited: set<string>, p: string)
    requires p !in tree && WalkReach(tree, rest + [p], visited)
    ensures WalkReach(tree, rest, visited)
  {
    assert forall x :: x in rest + [p] <==> x in rest || x == p;
  }

  /** With nothing pending, every directory that is reached was visited. */
  lemma {:induction false} AllVisited(tree: Tree, visited: set<string>, p: string)
    requires WalkReach(tree, [], visited) && Reached(tree, p) && p in tree
    ensures p in visited
    decreases |p|
  {
    if p != "" {
      assert Parent(p) in tree;
      AllVisited(tree, visited, Parent(p));
    }
  }

  /** The directories to go into and the unlisted files among the entries of one directory. */
  method ScanDirectory(listed: set<string>, prefix: string, entries: seq<DirEntry>)
    returns (dirs: seq<string>, files: seq<string>)
    requires GoodNames(entries)
    ensures Distinct(dirs) && forall q :: q in dirs <==> q != ".firecube/claims/" && HoldsDir(entries, prefix, q)
    ensures forall k :: k in files <==> Wanted(listed, k) && HoldsFile(entries, prefix, k)
  {
    hide IsLeftover, IsWriterTemporary, ExcludedFromInventory, IsRefused, Included;
    dirs, files := [], [];
    for n := 0 to |entries|
      invariant Distinct(dirs)
      invariant forall q :: q in dirs <==> q != ".firecube/claims/" && HoldsDir(entries[..n], prefix, q)
      invariant forall k :: k in files <==> Wanted(listed, k) && HoldsFile(entries[..n], prefix, k)
    {
      var key := prefix + entries[n].name;
      OneMoreEntry(entries, n, prefix);
      ExcludedMeaning(Place.Local, key);
      if entries[n].kind == Dir {
        if key + "/" != CLAIMS_PREFIX {
          NewDirectory(entries, n, prefix, dirs);
          DistinctConcat(dirs, [key + "/"]);
          dirs := dirs + [key + "/"];
        }
      } else if entries[n].kind == File && key !in listed && !IsWriterTemporary(key) {
        files := files + [key];
      }
    }
    assert entries[..|entries|] == entries;
  }

  lemma OneMoreEntry(entries: seq<DirEntry>, n: nat, prefix: string)
    requires n < |entries|
    ensures forall q :: HoldsDir(entries[..n + 1], prefix, q) <==>
              HoldsDir(entries[..n], prefix, q) || (entries[n].kind == Dir && q == prefix + entries[n].name + "/")
    ensures forall k :: HoldsFile(entries[..n + 1], prefix, k) <==>
              HoldsFile(entries[..n], prefix, k) || (entries[n].kind == File && k == prefix + entries[n].name)
  {
    var more, less := entries[..n + 1], entries[..n];
    assert more == less + [entries[n]];
    forall q
      ensures HoldsDir(more, prefix, q) <==>
              HoldsDir(less, prefix, q) || (entries[n].kind == Dir && q == prefix + entries[n].name + "/")
    {
      if HoldsDir(less, prefix, q) {
        var i :| 0 <= i < |less| && less[i].kind == Dir && q == prefix + less[i].name + "/";
        assert more[i] == less[i];
      }
      if entries[n].kind == Dir && q == prefix + entries[n].name + "/" {
        assert more[n] == entries[n];
      }
    }
    forall k
      ensures HoldsFile(more, prefix, k) <==>
              HoldsFile(less, prefix, k) || (entries[n].kind == File && k == prefix + entries[n].name)
    {
      if HoldsFile(less, prefix, k) {
        var i :| 0 <= i < |less| && less[i].kind == File && k == prefix + less[i].name;
        assert more[i] == less[i];
      }
      if entries[n].kind == File && k == prefix + entries[n].name {
        assert more[n] == entries[n];
      }
    }
  }

  lemma NewDirectory(entries: seq<DirEntry>, n: nat, prefix: string, dirs: seq<string>)
    requires GoodNames(entries) && n < |entries|
    requires forall q :: q in dirs ==> HoldsDir(entries[..n], prefix, q)
    ensures prefix + entries[n].name + "/" !in dirs
  {
    if prefix + entries[n].name + "/" in dirs {
      var i :| 0 <= i < n && entries[..n][i].kind == Dir
        && prefix + entries[n].name + "/" == prefix + entries[..n][i].name + "/";
      SameName(prefix, entries[n].name, entries[i].name);
    }
  }

  lemma SameName(prefix: string, a: string, b: string)
    requires prefix + a + "/" == prefix + b + "/"
    ensures a == b
  {
    assert a == (prefix + a + "/")[|prefix|..|prefix + a + "/"| - 1];
    assert b == (prefix + b + "/")[|prefix|..|prefix + b + "/"| - 1];
  }

  function NameOrder(key: string): SortKey {
    SortKey(0.0, key)
  }

  lemma WalkStart(tree: Tree, listed: set<string>)
    ensures WalkOrder([""], {}) && WalkReach(tree, [""], {}) && FoundSoFar(tree, listed, {}, [])
  {
  }

  /** The sorted keys of the regular files on disk that the listing lacks. */
  method UnlistedLocalFiles(tree: Tree, listed: set<string>) returns (unlisted: seq<string>)
    requires WellFormed(tree)
    ensures forall k :: k in unlisted <==> OnDisk(tree, k) && Wanted(listed, k)
    ensures InTextOrder(unlisted)
  {
    hide FoundIn, Reached, IsLeftover, Wanted, OnDisk, WalkOrder, WalkReach, FoundSoFar, HoldsDir, HoldsFile,
      GoodNames, Distinct, Parent, Sort;
    unlisted := [];
    var pending := [""];
    WalkStart(tree, listed);
    ghost var visited: set<string> := {};
    while pending != []
      invariant WalkOrder(pending, visited) && WalkReach(tree, pending, visited)
      invariant FoundSoFar(tree, listed, visited, unlisted)
      decreases |tree.Keys - visited|, |pending|
    {
      var prefix := pending[|pending| - 1];
      var rest := pending[..|pending| - 1];
      PopOrder(pending, visited);
      assert pending == rest + [prefix];
      pending := rest;
      if prefix !in tree {
        PopReach(tree, rest, visited, prefix);
        continue;
      }
      var dirs, files := ScanDirectory(listed, prefix, tree[prefix]);
      VisitOrder(tree, rest, visited, prefix, dirs);
      VisitReach(tree, rest, visited, prefix, dirs);
      FewerLeft(tree.Keys, visited, prefix);
      MoreFound(tree, listed, visited, prefix, unlisted, files);
      pending := rest + dirs;
      unlisted := unlisted + files;
      visited := visited + {prefix};
    }
    AllFound(tree, listed, visited, unlisted);
    SortedKeys(unlisted);
    unlisted := Sort(unlisted, NameOrder);
  }

  ghost predicate InTextOrder(keys: seq<string>) {
    forall i, j :: 0 <= i < j < |keys| ==> keys[i] == keys[j] || TextBefore(keys[i], keys[j])
  }

  lemma SortedKeys(keys: seq<string>)
    ensures InTextOrder(Sort(keys, NameOrder))
    ensures forall k :: k in Sort(keys, NameOrder) <==> k in keys
  {
    hide TextBefore, StringLe;
    var sorted := Sort(keys, NameOrder);
    SortSorts(keys, NameOrder);
    forall i, j | 0 <= i < j < |sorted| ensures sorted[i] == sorted[j] || TextBefore(sorted[i], sorted[j]) {
      assert KeyLe(NameOrder(sorted[i]), NameOrder(sorted[j]));
      StringLeMeaning(sorted[i], sorted[j]);
    }
    forall k ensures k in Sort(keys, NameOrder) <==> k in keys {
      InSort(keys, k, NameOrder);
    }
  }

  /** The unlisted files of the visited directories. */
  ghost predicate FoundSoFar(tree: Tree, listed: set<string>, visited: set<string>, unlisted: seq<string>) {
    forall k :: k in unlisted <==> exists p :: p in visited && FoundIn(tree, listed, p, k)
  }

  lemma FewerLeft(keys: set<string>, visited: set<string>, p: string)
    requires p in keys && p !in visited
    ensures |keys - (visited + {p})| < |keys - visited|
  {
    assert keys - visited == (keys - (visited + {p})) + {p};
  }

  lemma MoreFound(tree: Tree, listed: set<string>, visited: set<string>, p: string, unlisted: seq<string>,
                  files: seq<string>)
    requires p in tree
    requires FoundSoFar(tree, listed, visited, unlisted)
    requires forall k :: k in files <==> Wanted(listed, k) && HoldsFile(tree[p], p, k)
    ensures FoundSoFar(tree, listed, visited + {p}, unlisted + files)
  {
    forall k ensures k in unlisted + files <==> exists q :: q in visited + {p} && FoundIn(tree, listed, q, k) {
      if k in files {
        assert p in visited + {p} && FoundIn(tree, listed, p, k);
      } else if k in unlisted {
        var q :| q in visited && FoundIn(tree, listed, q, k);
        assert q in visited + {p};
      }
    }
  }

  lemma AllFound(tree: Tree, listed: set<string>, visited: set<string>, unlisted: seq<string>)
    requires WalkReach(tree, [], visited)
    requires FoundSoFar(tree, listed, visited, unlisted)
    ensures forall k :: k in unlisted <==> OnDisk(tree, k) && Wanted(listed, k)
  {
    forall k ensures k in unlisted <==> OnDisk(tree, k) && Wanted(listed, k) {
      if k in unlisted {
        var p :| p in visited && FoundIn(tree, listed, p, k);
        assert Reached(tree, p);
      }
      if OnDisk(tree, k) && Wanted(listed, k) {
        var p :| p in tree && Reached(tree, p) && HoldsFile(tree[p], p, k);
        AllVisited(tree, visited, p);
        assert FoundIn(tree, listed, p, k);
      }
    }
  }

  // ---------------------------------------------------------------- the inventory

  function KeyOrder(): InventoryObject -> SortKey {
    (o: InventoryObject) => NameOrder(o.key)
  }

  /** `objects` are those of the included keys, each with the size and the digest of what the store
      holds under it, in strict order of the keys. */
  ghost predicate Records(place: Place, keys: seq<string>, store: map<string, seq<bv8>>,
                          sha256Hex: seq<bv8> -> string, objects: seq<InventoryObject>) {
    && (forall o :: o in objects ==>
          && o.key in keys && Included(place, o.key) && o.key in store
          && o.size == |store[o.key]| && o.digest == "sha256:" + sha256Hex(store[o.key]))
    && (forall k :: k in keys && Included(place, k) ==> HasKey(objects, k))
  }

  ghost predicate InKeyOrder(objects: seq<InventoryObject>) {
    forall i, j :: 0 <= i < j < |objects| ==> TextBefore(objects[i].key, objects[j].key)
  }

  ghost predicate HasKey(objects: seq<InventoryObject>, key: string) {
    exists o :: o in objects && o.key == key
  }

  /** The files on disk are recorded, all but claims and leftovers. */
  ghost predicate RecordsDisk(tree: Tree, objects: seq<InventoryObject>) {
    forall k :: OnDisk(tree, k) ==> (HasKey(objects, k) <==> !IsClaim(k) && !IsLeftover(k))
  }

  /** List every object of the product and record its size and digest; `None` where the source
      refuses. `store` holds the objects that can be read, `tree` what is on disk below a local product. */
  method BuildDigestInventory(place: Place, tree: Tree, listing: seq<string>, store: map<string, seq<bv8>>,
                              sha256Hex: seq<bv8> -> string) returns (objects: Option<seq<InventoryObject>>)
    requires place.Local? ==> WellFormed(tree)
    ensures objects.Some? <==>
              && (place.Local? ==> forall k :: OnDisk(tree, k) ==> k in listing || IsLeftover(k))
              && Distinct(listing)
              && (forall k :: k in listing ==> !IsRefused(place, k))
              && (forall k :: k in listing && (place.Remote? || Included(place, k)) ==> k in store)
    ensures objects.Some? ==> Records(place, listing, store, sha256Hex, objects.value) && InKeyOrder(objects.value)
    ensures objects.Some? && place.Local? ==> RecordsDisk(tree, objects.value)
  {
    hide OnDisk, WellFormed, IsLeftover, IsRefused, Included, ExcludedFromInventory, Sort;
    if place.Local? {
      var unlisted := UnlistedLocalFiles(tree, set k | k in listing);
      if unlisted != [] {
        assert unlisted[0] in unlisted;
        return None;
      }
    }
    var entries: seq<InventoryObject> := [];
    var seen: set<string> := {};
    for i := 0 to |listing|
      invariant Distinct(listing[..i]) && KeysDiffer(entries)
      invariant forall k :: k in seen <==> k in listing[..i]
      invariant forall k :: k in listing[..i] ==> !IsRefused(place, k)
      invariant forall k :: k in listing[..i] && place.Remote? ==> k in store
      invariant Records(place, listing[..i], store, sha256Hex, entries)
    {
      var key := listing[i];
      assert listing[..i + 1] == listing[..i] + [key] && key in listing;
      ExcludedMeaning(place, key);
      if key in seen {
        Repeated(listing, i);
        return None;
      }
      DistinctConcat(listing[..i], [key]);
      seen := seen + {key};
      var excluded := ExcludedFromInventory(place, key);
      if excluded.None? {
        return None;
      }
      if excluded.value {
        if place.Remote? && key !in store {
          return None;
        }
        SkipsKey(place, listing[..i], key, store, sha256Hex, entries);
        continue;
      }
      if key !in store {
        return None;
      }
      var digest := DIGEST_PREFIX + sha256Hex(store[key]);
      RecordsKey(place, listing[..i], key, store, sha256Hex, entries, InventoryObject(key, |store[key]|, digest));
      entries := entries + [InventoryObject(key, |store[key]|, digest)];
    }
    assert listing[..|listing|] == listing;
    SortedObjects(place, listing, store, sha256Hex, entries);
    objects := Some(Sort(entries, KeyOrder()));
    if place.Local? {
      KeysOnDisk(tree, listing, store, sha256Hex, objects.value);
    }
  }

  ghost predicate KeysDiffer(objects: seq<InventoryObject>) {
    forall i, j :: 0 <= i < j < |objects| ==> objects[i].key != objects[j].key
  }

  lemma SkipsKey(place: Place, keys: seq<string>, key: string, store: map<string, seq<bv8>>,
                 sha256Hex: seq<bv8> -> string, objects: seq<InventoryObject>)
    requires Records(place, keys, store, sha256Hex, objects) && !Included(place, key)
    ensures Records(place, keys + [key], store, sha256Hex, objects)
  {
    hide Included;
  }

  lemma RecordsKey(place: Place, keys: seq<string>, key: string, store: map<string, seq<bv8>>,
                   sha256Hex: seq<bv8> -> string, objects: seq<InventoryObject>, o: InventoryObject)
    requires Records(place, keys, store, sha256Hex, objects) && KeysDiffer(objects)
    requires key !in keys && Included(place, key) && key in store
    requires o == InventoryObject(key, |store[key]|, "sha256:" + sha256Hex(store[key]))
    ensures Records(place, keys + [key], store, sha256Hex, objects + [o]) && KeysDiffer(objects + [o])
  {
    hide Included;
    forall k | k in keys + [key] && Included(place, k) ensures HasKey(objects + [o], k) {
      if k in keys {
        var x :| x in objects && x.key == k;
        assert x in objects + [o];
      } else {
        assert o in objects + [o] && o.key == k;
      }
    }
    forall i | 0 <= i < |objects| ensures objects[i].key != key {
      assert objects[i] in objects;
    }
  }

  lemma SortedObjects(place: Place, keys: seq<string>, store: map<string, seq<bv8>>,
                      sha256Hex: seq<bv8> -> string, objects: seq<InventoryObject>)
    requires Records(place, keys, store, sha256Hex, objects) && KeysDiffer(objects)
    ensures var sorted := Sort(objects, KeyOrder());
            Records(place, keys, store, sha256Hex, sorted) && InKeyOrder(sorted)
  {
    hide Sort, Included, TextBefore, StringLe;
    var sorted := Sort(objects, KeyOrder());
    SortSorts(objects, KeyOrder());
    assert Distinct(objects);
    DistinctListing(objects, sorted);
    forall o ensures o in sorted <==> o in objects {
      InSort(objects, o, KeyOrder());
    }
    forall k | HasKey(objects, k) ensures HasKey(sorted, k) {
      var o :| o in objects && o.key == k;
      assert o in sorted;
    }
    forall i, j | 0 <= i < j < |sorted| ensures TextBefore(sorted[i].key, sorted[j].key) {
      assert sorted[i] in objects && sorted[j] in objects;
      StringLeMeaning(sorted[i].key, sorted[j].key);
    }
  }

  lemma KeysOnDisk(tree: Tree, listing: seq<string>, store: map<string, seq<bv8>>,
                   sha256Hex: seq<bv8> -> string, objects: seq<InventoryObject>)
    requires Records(Place.Local, listing, store, sha256Hex, objects)
    requires forall k :: k in listing ==> !IsRefused(Place.Local, k)
    requires forall k :: OnDisk(tree, k) ==> k in listing || IsLeftover(k)
    ensures RecordsDisk(tree, objects)
  {
    hide OnDisk, IsLeftover, IsRefused;
  }

  /** A file that is no claim is recorded when its name begins with neither prefix of a temporary. */
  lemma OrdinaryFilesAreRecorded(tree: Tree, objects: seq<InventoryObject>, dir: string, name: string)
    requires RecordsDisk(tree, objects) && OnDisk(tree, dir + name) && IsPath(dir + name, dir, name) && name != ""
    requires !(".firecube-publish-" <= name) && !(".firecube-atomic-" <= name) && !(".firecube/claims/" <= dir + name)
    ensures HasKey(objects, dir + name)
  {
    hide OnDisk;
    OrdinaryName(dir + name, dir, name);
  }

  /** A publication temporary is never recorded; an atomic writer's one is left out exactly below
      `.firecube/`. */
  lemma TemporariesAreLeftOut(tree: Tree, objects: seq<InventoryObject>, dir: string, x: string)
    requires RecordsDisk(tree, objects) && '/' !in x
    ensures var key := dir + (".firecube-publish-" + x + ".tmp");
            OnDisk(tree, key) && IsPath(key, dir, ".firecube-publish-" + x + ".tmp") ==> !HasKey(objects, key)
    ensures var key := dir + (".firecube-atomic-" + x + ".tmp");
            OnDisk(tree, key) && IsPath(key, dir, ".firecube-atomic-" + x + ".tmp") && IsToken(x)
            && !(".firecube/claims/" <= key) ==>
              (HasKey(objects, key) <==> !(".firecube/" <= key))
  {
    hide OnDisk;
    var published := dir + (".firecube-publish-" + x + ".tmp");
    assert SlashesAfter(published, published);
    var key, name := dir + (".firecube-atomic-" + x + ".tmp"), ".firecube-atomic-" + x + ".tmp";
    if IsPath(key, dir, name) {
      AtomicIsNoPublication(key, dir, name);
    }
  }

  lemma AtomicIsNoPublication(key: string, dir: string, name: string)
    requires IsPath(key, dir, name) && ".firecube-atomic-" <= name
    ensures !IsPublication(key)
  {
    hide UpToSlash, LastSegment;
    LastSegmentOf(key, dir, name);
    assert name[10] == ".firecube-atomic-"[10] == 'a' && ".firecube-publish-"[10] == 'p';
    if IsPublication(key) {
      var k, d, x :| SlashesAfter(key, k) && IsPath(k, d, ".firecube-publish-" + x + ".tmp");
      NoSlashesAfter(key, k, name);
      LastSegmentOf(k, d, ".firecube-publish-" + x + ".tmp");
    }
  }

  /** In an inventory of a local product no segment of a run's log is missing. */
  lemma LogSegmentsAreRecorded(tree: Tree, objects: seq<InventoryObject>, runId: string, part: nat)
    requires RecordsDisk(tree, objects) && '/' !in runId
    requires OnDisk(tree, ".firecube/runs/" + runId + "/" + SegmentName(part))
    ensures HasKey(objects, ".firecube/runs/" + runId + "/" + SegmentName(part))
  {
    hide OnDisk, Padded;
    var dir, name := ".firecube/runs/" + runId + "/", SegmentName(part);
    PaddedMeaning(part, 5);
    var key := dir + name;
    assert forall i :: 0 <= i < |"events-"| ==> "events-"[i] != '/';
    assert name[0] == 'e';
    assert IsPath(key, dir, name);
    assert key[10] == 'r' && ".firecube/claims/"[10] == 'c';
    OrdinaryName(key, dir, name);
  }

  /** A file with neither prefix in its name is no leftover. */
  lemma OrdinaryName(key: string, dir: string, name: string)
    requires IsPath(key, dir, name) && name != "" && !(".firecube-publish-" <= name) && !(".firecube-atomic-" <= name)
    ensures !IsLeftover(key)
  {
    hide UpToSlash, LastSegment;
    LastSegmentOf(key, dir, name);
    if IsPublication(key) {
      var k, d, x :| SlashesAfter(key, k) && IsPath(k, d, ".firecube-publish-" + x + ".tmp");
      NoSlashesAfter(key, k, name);
      LastSegmentOf(k, d, ".firecube-publish-" + x + ".tmp");
    }
    if IsUnfinished(key) {
      var d, x :| IsPath(key, d, ".firecube-atomic-" + x + ".tmp") && IsToken(x);
      LastSegmentOf(key, d, ".firecube-atomic-" + x + ".tmp");
    }
  }

  lemma NoSlashesAfter(key: string, k: string, name: string)
    requires SlashesAfter(key, k) && name != "" && '/' !in name && EndsWith(key, name)
    ensures k == key
  {
    assert key[|key| - 1] == key[|key| - |name|..][|name| - 1];
    if k != key {
      LastSlash(key, k);
    }
  }

  lemma LastSlash(key: string, k: string)
    requires SlashesAfter(key, k) && k != key
    ensures key[|key| - 1] == '/'
  {
    assert key[|k|..][|key| - |k| - 1] == key[|key| - 1];
  }

  lemma Repeated(listing: seq<string>, i: nat)
    requires i < |listing| && listing[i] in listing[..i]
    ensures !Distinct(listing)
  {
    var j :| 0 <= j < i && listing[..i][j] == listing[i];
    assert listing[j] == listing[i];
  }
}
