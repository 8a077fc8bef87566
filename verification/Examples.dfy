/** Inputs with which operations of the directory handler do what they should not. Each starts from a
    new drive with one or two entries, in a state in which cache, storage and tree agree. */
module Examples {
  import opened Wrappers
  import opened Paths
  import opened MetaData
  import opened Listing
  import opened DirectoryState
  import opened VersionStore
  import opened DirectoryTree
  import opened Coherence
  import opened Renaming

  function FileEntry(name: Name): Meta {
    Meta(name, RegularFile, None, Some(DataMap([], [])), 0)
  }

  function DirectoryEntry(name: Name, id: DirectoryId): Meta {
    Meta(name, DirectoryFile, Some(id), None, DIRECTORY_SIZE)
  }

  /** What CreateRoot caches. */
  function NewCache(user: DirectoryId, root: DirectoryId, rootId: DirectoryId): Cache {
    map[[] := Change(Created(user, root, 1), [RootEntry(rootId)]), [ROOT] := Schedule(Created(root, rootId, 1))]
  }

  lemma NewDriveIs(user: DirectoryId, root: DirectoryId, rootId: DirectoryId)
    requires root != rootId
    ensures var t := NewDrive(user, root, rootId);
      && TreeOk(t, root) && t.Keys == {root, rootId} && t[rootId].children == []
      && LookupIn(t, root, ROOT) == Some(RootEntry(rootId)) && forall n :: LookupIn(t, rootId, n) == None
    ensures Coherent(NewCache(user, root, rootId), map[], {}, NewDrive(user, root, rootId), root)
  {
    NewDriveTreeOk(user, root, rootId);
    NewDriveIsCoherent(NewCache(user, root, rootId), map[], {}, user, root, rootId);
  }

  /** The drive with an entry in its root. */
  ghost function WithEntry(user: DirectoryId, root: DirectoryId, rootId: DirectoryId, m: Meta): Tree
    requires root != rootId
  {
    PlainAdd(NewDrive(user, root, rootId), rootId, m)
  }

  lemma WithEntryIs(user: DirectoryId, root: DirectoryId, rootId: DirectoryId, m: Meta)
    requires root != rootId && WellFormed(m) && Nameable(m.name)
    requires m.directoryId.Some? ==> m.directoryId.value != root && m.directoryId.value != rootId
    ensures var t := WithEntry(user, root, rootId, m);
      && TreeOk(t, root) && rootId in t && Walk(t, root, [ROOT]) == At(rootId)
      && (forall n :: LookupIn(t, rootId, n) == if n == m.name then Some(m) else None)
      && (forall i :: i in t <==> i == root || i == rootId || m.directoryId == Some(i))
  {
    var t0 := NewDrive(user, root, rootId);
    NewDriveIs(user, root, rootId);
    assert Sorted([]) && t0[rootId].children == [];
    AddedKeys(t0, rootId, m);
    assert WithEntry(user, root, rootId, m) == PlainAdd(t0, rootId, m);
    hide *;
    PlainAddOk(t0, root, rootId, m);
    PlainAddLooksUp(t0, rootId, m);
    RootLeads(WithEntry(user, root, rootId, m), root, rootId);
  }

  lemma AddedKeys(t: Tree, id: DirectoryId, m: Meta)
    requires id in t
    ensures PlainAdd(t, id, m).Keys == t.Keys + if m.directoryId.Some? then {m.directoryId.value} else {}
  {
    hide Added;
  }

  lemma RootLeads(t: Tree, root: DirectoryId, rootId: DirectoryId)
    requires LookupIn(t, root, ROOT) == Some(RootEntry(rootId))
    ensures Walk(t, root, [ROOT]) == At(rootId)
  {
    assert Parent([ROOT]) == [] && FileName([ROOT]) == ROOT;
  }

  lemma InRoot(name: Name)
    ensures Parent([ROOT, name]) == [ROOT] && FileName([ROOT, name]) == name
  {
  }

  /** Renaming a file that is not there to a file that is: the rename fails, and the target has gone. */
  lemma MissingSourceRemovesTarget(user: DirectoryId, root: DirectoryId, rootId: DirectoryId, name: Name, missing: Name,
                                   windows: bool, cached: bool)
    requires root != rootId && Nameable(name) && missing != name
    ensures var t := WithEntry(user, root, rootId, FileEntry(name));
      && TreeOk(t, root) && rootId in t && LookupIn(t, rootId, name).Some?
      && FateOfRename(windows, t, root, [ROOT, missing], [ROOT, name], cached)
        == SourceIsMissing(PlainRemove(t, rootId, name))
      && Resolve(t, root, [ROOT, name]).Some? && Resolve(PlainRemove(t, rootId, name), root, [ROOT, name]).None?
  {
    var t := WithEntry(user, root, rootId, FileEntry(name));
    WithEntryIs(user, root, rootId, FileEntry(name));
    InRoot(name);
    InRoot(missing);
    var u := PlainRemove(t, rootId, name);
    PlainRemoveOk(t, root, rootId, name);
    RemovedTree(t, root, rootId, name);
    assert |[ROOT]| < |[ROOT] + [name]|;
    WalkOnlyAt(t, u, root, [ROOT], name, [ROOT]);
    hide TreeOk, PlainRemove, Walk, LookupIn, OnlyAt, WithEntry;
    assert !Blocks(windows, t, rootId, name);
    assert LookupIn(u, rootId, missing) == None && LookupIn(u, rootId, name) == None;
  }

  /** The cache after a directory has been added to the root of a new drive. */
  function CacheWith(user: DirectoryId, root: DirectoryId, rootId: DirectoryId, m: Meta): Cache {
    AddedCache(NewCache(user, root, rootId), [ROOT], Added([], m), m)
  }

  lemma NewCacheIs(user: DirectoryId, root: DirectoryId, rootId: DirectoryId)
    ensures var c := NewCache(user, root, rootId);
      && c.Keys == {[], [ROOT]} && c[[ROOT]].directoryId == rootId && c[[ROOT]].children == [] && Parent([ROOT]) == []
  {
  }

  lemma CacheWithIs(user: DirectoryId, root: DirectoryId, rootId: DirectoryId, m: Meta)
    requires root != rootId && WellFormed(m) && IsName(m.name) && Nameable(m.name)
    requires m.directoryId.Some? && m.directoryId.value != root && m.directoryId.value != rootId
    ensures var c := CacheWith(user, root, rootId, m);
      && Coherent(c, map[], {}, WithEntry(user, root, rootId, m), root) && c.Keys == {[], [ROOT], [ROOT, m.name]}
      && c[[ROOT]].directoryId == rootId && c[[ROOT]].children == Added([], m)
      && c[[ROOT, m.name]].directoryId == m.directoryId.value && c[[ROOT, m.name]].children == []
  {
    NewDriveIs(user, root, rootId);
    NewCacheIs(user, root, rootId);
    assert IsNewEntry(m, map[], NewDrive(user, root, rootId));
    AddedIsMore([], m);
    hide *;
    WholeAddKeepsCoherent(NewCache(user, root, rootId), map[], {}, NewDrive(user, root, rootId), root, [ROOT], m);
    AddedToNewCache(NewCache(user, root, rootId), rootId, m);
    CacheWithDef(user, root, rootId, m);
  }

  lemma CacheWithDef(user: DirectoryId, root: DirectoryId, rootId: DirectoryId, m: Meta)
    requires root != rootId
    ensures CacheWith(user, root, rootId, m) == AddedCache(NewCache(user, root, rootId), [ROOT], Added([], m), m)
    ensures WithEntry(user, root, rootId, m) == PlainAdd(NewDrive(user, root, rootId), rootId, m)
  {
  }

  lemma AddedToNewCache(c: Cache, rootId: DirectoryId, m: Meta)
    requires c.Keys == {[], [ROOT]} && c[[ROOT]].directoryId == rootId && c[[ROOT]].children == []
    requires Parent([ROOT]) == []
    requires m.directoryId.Some? && Added([], m) != []
    ensures var e := AddedCache(c, [ROOT], Added([], m), m);
      && e.Keys == {[], [ROOT], [ROOT, m.name]}
      && e[[ROOT]].directoryId == rootId && e[[ROOT]].children == Added([], m)
      && e[[ROOT, m.name]].directoryId == m.directoryId.value && e[[ROOT, m.name]].children == []
  {
    assert [ROOT] + [m.name] == [ROOT, m.name];
    hide Added;
  }

  /** Adding a directory where there is one already: the cache does not agree with the tree any more. */
  lemma AddOverTakenName(user: DirectoryId, root: DirectoryId, rootId: DirectoryId, name: Name, id: DirectoryId,
                         other: DirectoryId)
    requires IsName(name) && Nameable(name) && |{root, rootId, id, other}| == 4
    ensures var t := WithEntry(user, root, rootId, DirectoryEntry(name, id));
      var c := CacheWith(user, root, rootId, DirectoryEntry(name, id)); var m := DirectoryEntry(name, other);
      && Coherent(c, map[], {}, t, root) && IsNewEntry(m, map[], t) && LookupIn(t, rootId, name).Some?
      && !Coherent(AddedCache(c, [ROOT], c[[ROOT]].children, m), map[], {}, t, root)
  {
    FourDiffer(root, rootId, id, other);
    WithEntryIs(user, root, rootId, DirectoryEntry(name, id));
    CacheWithIs(user, root, rootId, DirectoryEntry(name, id));
    assert Parent([ROOT]) == [];
    hide Coherent, WithEntry, CacheWith;
    AddOverExisting(CacheWith(user, root, rootId, DirectoryEntry(name, id)), map[], {},
                    WithEntry(user, root, rootId, DirectoryEntry(name, id)), root, [ROOT], DirectoryEntry(name, other));
  }

  lemma FourDiffer<T>(a: T, b: T, c: T, d: T)
    requires |{a, b, c, d}| == 4
    ensures a != b && a != c && a != d && b != c && b != d && c != d
  {
    SmallSet(b, c, d);
    SmallSet(a, c, d);
    SmallSet(a, b, d);
    SmallSet(a, b, c);
    assert a == b ==> {a, b, c, d} == {b, c, d};
    assert a == c ==> {a, b, c, d} == {b, c, d};
    assert a == d ==> {a, b, c, d} == {b, c, d};
    assert b == c ==> {a, b, c, d} == {a, c, d};
    assert b == d ==> {a, b, c, d} == {a, b, c};
    assert c == d ==> {a, b, c, d} == {a, b, c};
  }

  lemma SmallSet<T>(a: T, b: T, c: T)
    ensures |{a, b, c}| <= 3
  {
    assert {a, b, c} == {a} + ({b} + {c});
  }

  /** The drive with a directory in the root and one in that. */
  ghost function Nested(user: DirectoryId, root: DirectoryId, rootId: DirectoryId, m: Meta, inner: Meta): Tree
    requires root != rootId && m.directoryId.Some? && m.directoryId.value in WithEntry(user, root, rootId, m)
  {
    PlainAdd(WithEntry(user, root, rootId, m), m.directoryId.value, inner)
  }

  /** The cache after that. */
  function NestedCache(user: DirectoryId, root: DirectoryId, rootId: DirectoryId, m: Meta, inner: Meta): Cache
    requires [ROOT, m.name] in CacheWith(user, root, rootId, m) && [ROOT] in CacheWith(user, root, rootId, m)
  {
    InRoot(m.name);
    AddedCache(CacheWith(user, root, rootId, m), [ROOT, m.name], Added([], inner), inner)
  }

  lemma NestedIs(user: DirectoryId, root: DirectoryId, rootId: DirectoryId, m: Meta, n: Meta)
    requires root != rootId && WellFormed(m) && IsName(m.name) && Nameable(m.name)
    requires m.directoryId.Some? && m.directoryId.value != root && m.directoryId.value != rootId
    requires WellFormed(n) && IsName(n.name) && Nameable(n.name)
    requires n.directoryId.Some? && n.directoryId.value !in {root, rootId, m.directoryId.value}
    ensures m.directoryId.value in WithEntry(user, root, rootId, m)
    ensures [ROOT, m.name] in CacheWith(user, root, rootId, m) && [ROOT] in CacheWith(user, root, rootId, m)
    ensures Coherent(NestedCache(user, root, rootId, m, n), map[], {}, Nested(user, root, rootId, m, n), root)
    ensures rootId in Nested(user, root, rootId, m, n)
    ensures LookupIn(Nested(user, root, rootId, m, n), rootId, m.name) == Some(m)
  {
    var id, path := m.directoryId.value, [ROOT, m.name];
    WithEntryIs(user, root, rootId, m);
    CacheWithIs(user, root, rootId, m);
    var t, c := WithEntry(user, root, rootId, m), CacheWith(user, root, rootId, m);
    InRoot(m.name);
    CachedMatches(c, map[], {}, t, root, path);
    assert LookupIn(t, id, n.name) == Lookup([], n.name) == None;
    assert IsNewEntry(n, map[], t);
    hide Coherent, WithEntry, CacheWith, TreeOk, PlainAdd, Walk, Matches, AddedCache, Added;
    NestedLooksUp(t, root, rootId, id, m, n);
    WholeAddKeepsCoherent(c, map[], {}, t, root, path, n);
  }

  lemma NestedKeys(user: DirectoryId, root: DirectoryId, rootId: DirectoryId, m: Meta, n: Meta)
    requires var c := CacheWith(user, root, rootId, m);
      [ROOT, m.name] in c && [ROOT] in c && c[[ROOT]].children == Added([], m)
    requires n.directoryId.Some?
    ensures var c := NestedCache(user, root, rootId, m, n);
      [ROOT] in c && [ROOT, m.name, n.name] in c && Find(c[[ROOT]].children, m.name) < |c[[ROOT]].children|
  {
    InRoot(m.name);
    assert Lookup([], m.name) == None;
    hide CacheWith, Added, Change, Find, Lookup;
    assert [ROOT, m.name] + [n.name] == [ROOT, m.name, n.name];
    AddedLooksUp([], m);
    LookupFinds(Added([], m), m.name);
    assert NestedCache(user, root, rootId, m, n)[[ROOT]].children == Added([], m) by { hide Created; }
  }

  /** Deleting a directory that has another one in it, both of which are cached: the inner one stays. */
  lemma DeleteOrphans(user: DirectoryId, root: DirectoryId, rootId: DirectoryId, name: Name, id: DirectoryId,
                      inner: Name,
                      other: DirectoryId)
    requires IsName(name) && Nameable(name) && IsName(inner) && Nameable(inner) && |{root, rootId, id, other}| == 4
    ensures var m := DirectoryEntry(name, id); var n := DirectoryEntry(inner, other);
      && id in WithEntry(user, root, rootId, m)
      && [ROOT, name] in CacheWith(user, root, rootId, m) && [ROOT] in CacheWith(user, root, rootId, m)
      && var t := Nested(user, root, rootId, m, n);
      var c := NestedCache(user, root, rootId, m, n);
      && Coherent(c, map[], {}, t, root) && LookupIn(t, rootId, name).Some?
      && [ROOT] in c && Find(c[[ROOT]].children, name) < |c[[ROOT]].children|
      && !Coherent(RemovedCache(c, [ROOT], name), map[], {}, PlainRemove(t, rootId, name), root)
  {
    var m, n := DirectoryEntry(name, id), DirectoryEntry(inner, other);
    FourDiffer(root, rootId, id, other);
    CacheWithIs(user, root, rootId, m);
    NestedIs(user, root, rootId, m, n);
    NestedKeys(user, root, rootId, m, n);
    hide *;
    Orphaned(NestedCache(user, root, rootId, m, n), Nested(user, root, rootId, m, n), root, rootId, name, inner);
  }

  lemma Orphaned(c: Cache, t: Tree, root: DirectoryId, rootId: DirectoryId, name: Name, inner: Name)
    requires [ROOT] in c && [ROOT, name, inner] in c && Find(c[[ROOT]].children, name) < |c[[ROOT]].children|
    requires rootId in t && LookupIn(t, rootId, name).Some?
    ensures !Coherent(RemovedCache(c, [ROOT], name), map[], {}, PlainRemove(t, rootId, name), root)
  {
    hide Coherent, LookupIn, PlainRemove, Find, Removed, Change;
    assert [ROOT] + [name] == [ROOT, name] && IsWithin([ROOT, name], [ROOT, name, inner]);
    var removed := RemovedCache(c, [ROOT], name);
    assert [ROOT, name] !in removed && [ROOT, name, inner] in removed;
    OrphanIsIncoherent(removed, map[], {}, PlainRemove(t, rootId, name), root, [ROOT, name], [ROOT, name, inner]);
  }

  lemma NestedLooksUp(t: Tree, root: DirectoryId, rootId: DirectoryId, id: DirectoryId, m: Meta, n: Meta)
    requires TreeOk(t, root) && rootId in t && id in t && id != rootId && LookupIn(t, rootId, m.name) == Some(m)
    requires LookupIn(t, id, n.name).None? && n.directoryId.Some? && n.directoryId.value !in t
    ensures LookupIn(PlainAdd(t, id, n), rootId, m.name) == Some(m)
  {
    PlainAddLooksUp(t, id, n);
  }

  // ----- a directory that is not cached -----

  /** The storage with one version of every directory. */
  function StoredTrees(t: Tree): Trees {
    map id | id in t :: NewTree(VersionName(0, BlobOf(id, t[id], 1)))
  }

  function StoredBlobs(t: Tree): set<Blob> {
    set id | id in t :: BlobOf(id, t[id], 1)
  }

  /** So every tree can be stored, and read back. */
  lemma StoredIsReadable(t: Tree, root: DirectoryId)
    requires TreeOk(t, root)
    ensures AllStored(StoredTrees(t), StoredBlobs(t), t, root)
    ensures Newest(StoredTrees(t), StoredBlobs(t), root, t[root], VersionName(0, BlobOf(root, t[root], 1)))
  {
    forall id | id in t ensures Newest(StoredTrees(t), StoredBlobs(t), id, t[id],
                                       VersionName(0, BlobOf(id, t[id], 1))) {
      assert BlobOf(id, t[id], 1) in StoredBlobs(t);
    }
    hide TreeOk, Newest, StoredTrees, StoredBlobs;
    forall q | Walk(t, root, q).At? ensures StoredAt(q, StoredTrees(t), StoredBlobs(t), t, root) {
      WalkInTree(t, root, q);
      assert Newest(StoredTrees(t), StoredBlobs(t), Walk(t, root, q).id, t[Walk(t, root, q).id],
                    VersionName(0, BlobOf(Walk(t, root, q).id, t[Walk(t, root, q).id], 1)));
    }
    assert root in t by { WalkInTree(t, root, []); }
  }

  /** Two empty directories in the root. */
  ghost function TwoEntries(user: DirectoryId, root: DirectoryId, rootId: DirectoryId, m: Meta, n: Meta): Tree
    requires root != rootId && rootId in WithEntry(user, root, rootId, m)
  {
    PlainAdd(WithEntry(user, root, rootId, m), rootId, n)
  }

  lemma TwoEntriesAre(user: DirectoryId, root: DirectoryId, rootId: DirectoryId, m: Meta, n: Meta)
    requires root != rootId && WellFormed(m) && Nameable(m.name) && WellFormed(n) && Nameable(n.name)
    requires m.name != n.name
    requires m.directoryId.Some? && m.directoryId.value !in {root, rootId}
    requires n.directoryId.Some? && n.directoryId.value !in {root, rootId, m.directoryId.value}
    ensures rootId in WithEntry(user, root, rootId, m)
    ensures var t := TwoEntries(user, root, rootId, m, n);
      && TreeOk(t, root) && rootId in t && n.directoryId.value in t
      && Walk(t, root, [ROOT]) == At(rootId) && Walk(t, root, [ROOT, n.name]) == At(n.directoryId.value)
      && LookupIn(t, rootId, m.name) == Some(m) && forall x :: LookupIn(t, n.directoryId.value, x) == None
  {
    WithEntryIs(user, root, rootId, m);
    NewDriveIs(user, root, rootId);
    var t1 := WithEntry(user, root, rootId, m);
    assert LookupIn(t1, root, ROOT) == Some(RootEntry(rootId)) by {
      PlainAddLooksUp(NewDrive(user, root, rootId), rootId, m);
    }
    PlainAddOk(t1, root, rootId, n);
    PlainAddLooksUp(t1, rootId, n);
    var t := TwoEntries(user, root, rootId, m, n);
    RootLeads(t, root, rootId);
    InRoot(n.name);
    assert t[n.directoryId.value].children == [];
    assert Lookup([], "") == None && forall x :: Lookup([], x) == None;
  }

  /** The cache of a handler that has just been made on that storage. */
  ghost function JustLoaded(t: Tree, root: DirectoryId): (c: Cache)
    requires TreeOk(t, root)
    ensures c.Keys == {[]} && Coherent(c, StoredTrees(t), StoredBlobs(t), t, root)
  {
    StoredIsReadable(t, root);
    var v := VersionName(0, BlobOf(root, t[root], 1));
    ReloadIsCoherent(StoredTrees(t), StoredBlobs(t), t, root, v);
    map[[] := LoadedFrom(StoredTrees(t), StoredBlobs(t), root, t[root], v)]
  }

  /** Moving a directory that is not cached into another one, on a drive that has just been loaded: the
      rename fails, and the directory is nowhere any more. */
  lemma UncachedDirectoryIsLost(user: DirectoryId, root: DirectoryId, rootId: DirectoryId, name: Name, id: DirectoryId,
                                other: Name, otherId: DirectoryId, windows: bool)
    requires IsName(name) && Nameable(name) && IsName(other) && Nameable(other) && !(name <= other)
    requires |{root, rootId, id, otherId}| == 4
    ensures var m := DirectoryEntry(name, id); var n := DirectoryEntry(other, otherId);
      rootId in WithEntry(user, root, rootId, m) && TreeOk(TwoEntries(user, root, rootId, m, n), root)
    ensures var m := DirectoryEntry(name, id); var n := DirectoryEntry(other, otherId);
      var t := TwoEntries(user, root, rootId, m, n); var c := JustLoaded(t, root);
      && Coherent(c, StoredTrees(t), StoredBlobs(t), t, root)
      && [ROOT, name] !in c && RekeyEnds(c.Keys, [ROOT, name], [ROOT, other, name])
      && IsLostMoving(t, root, rootId, m, other, windows)
  {
    var m, n := DirectoryEntry(name, id), DirectoryEntry(other, otherId);
    FourDiffer(root, rootId, id, otherId);
    TwoEntriesAre(user, root, rootId, m, n);
    var t := TwoEntries(user, root, rootId, m, n);
    hide *;
    LostFate(t, root, rootId, m, otherId, other, windows);
    LostAfterwards(t, root, rootId, m, otherId, other);
    IsLostMovingIs(t, root, rootId, m, other, windows);
    NotChased(name, other, JustLoaded(t, root));
  }

  /** The uncached directory m of the root, moved into other, is lost. */
  ghost predicate IsLostMoving(t: Tree, root: DirectoryId, rootId: DirectoryId, m: Meta, other: Name, windows: bool) {
    var src, dst := [ROOT, m.name], [ROOT, other, m.name];
    && FateOfRename(windows, t, root, src, dst, false) == SourceIsLost(rootId, t)
    && rootId in t && LookupIn(t, rootId, m.name).Some? && Resolve(t, root, src) == Some(m)
    && Resolve(PlainRemove(t, rootId, m.name), root, src).None?
    && Resolve(PlainRemove(t, rootId, m.name), root, dst).None?
  }

  lemma IsLostMovingIs(t: Tree, root: DirectoryId, rootId: DirectoryId, m: Meta, other: Name, windows: bool)
    requires FateOfRename(windows, t, root, [ROOT, m.name], [ROOT, other, m.name], false) == SourceIsLost(rootId, t)
    requires rootId in t && LookupIn(t, rootId, m.name) == Some(m) && Resolve(t, root, [ROOT, m.name]) == Some(m)
    requires Resolve(PlainRemove(t, rootId, m.name), root, [ROOT, m.name]).None?
    requires Resolve(PlainRemove(t, rootId, m.name), root, [ROOT, other, m.name]).None?
    ensures IsLostMoving(t, root, rootId, m, other, windows)
  {
  }

  lemma NotChased<V>(name: Name, other: Name, c: map<Path, V>)
    requires !(name <= other) && c.Keys == {[]}
    ensures RekeyEnds(c.Keys, [ROOT, name], [ROOT, other, name]) && [ROOT, name] !in c
  {
  }

  lemma LostFate(t: Tree, root: DirectoryId, rootId: DirectoryId, m: Meta, otherId: DirectoryId, other: Name,
                 windows: bool)
    requires rootId in t && otherId in t && IsDirectory(m) && other != m.name
    requires Walk(t, root, [ROOT]) == At(rootId) && Walk(t, root, [ROOT, other]) == At(otherId)
    requires LookupIn(t, rootId, m.name) == Some(m) && LookupIn(t, otherId, m.name) == None
    ensures FateOfRename(windows, t, root, [ROOT, m.name], [ROOT, other, m.name], false) == SourceIsLost(rootId, t)
    ensures Resolve(t, root, [ROOT, m.name]) == Some(m)
  {
    InRoot(m.name);
    assert Parent([ROOT, other, m.name]) == [ROOT, other] && FileName([ROOT, other, m.name]) == m.name;
    hide Walk, LookupIn, PlainRemove;
  }

  lemma RemovedOutside(t: Tree, root: DirectoryId, rootId: DirectoryId, p: Path, name: Name, q: Path)
    requires TreeOk(t, root) && Walk(t, root, p) == At(rootId) && LookupIn(t, rootId, name).Some?
    requires rootId in t && !IsWithin(p + [name], q)
    ensures Walk(PlainRemove(t, rootId, name), root, q) == Walk(t, root, q)
  {
    hide *;
    RemovedTree(t, root, rootId, name);
    WalkOnlyAt(t, PlainRemove(t, rootId, name), root, p, name, q);
  }

  lemma LostAfterwards(t: Tree, root: DirectoryId, rootId: DirectoryId, m: Meta, otherId: DirectoryId, other: Name)
    requires TreeOk(t, root) && rootId in t && otherId in t && other != m.name
    requires Walk(t, root, [ROOT]) == At(rootId) && Walk(t, root, [ROOT, other]) == At(otherId)
    requires LookupIn(t, rootId, m.name) == Some(m) && LookupIn(t, otherId, m.name) == None
    ensures var u := PlainRemove(t, rootId, m.name);
      Resolve(u, root, [ROOT, m.name]).None? && Resolve(u, root, [ROOT, other, m.name]).None?
  {
    OtherPath(m.name, other);
    hide *;
    RemovedOutside(t, root, rootId, [ROOT], m.name, [ROOT]);
    RemovedOutside(t, root, rootId, [ROOT], m.name, [ROOT, other]);
    PlainRemoveOk(t, root, rootId, m.name);
    NotResolved(PlainRemove(t, rootId, m.name), root, rootId, otherId, m.name, other);
  }

  lemma OtherPath(name: Name, other: Name)
    requires other != name
    ensures !IsWithin([ROOT] + [name], [ROOT]) && !IsWithin([ROOT] + [name], [ROOT, other])
  {
    assert ([ROOT] + [name])[1] != [ROOT, other][1] && |[ROOT]| < |[ROOT] + [name]|;
  }

  lemma NotResolved(u: Tree, root: DirectoryId, rootId: DirectoryId, otherId: DirectoryId, name: Name, other: Name)
    requires Walk(u, root, [ROOT]) == At(rootId) && Walk(u, root, [ROOT, other]) == At(otherId)
    requires LookupIn(u, rootId, name) == None && LookupIn(u, otherId, name) == None
    ensures Resolve(u, root, [ROOT, name]).None? && Resolve(u, root, [ROOT, other, name]).None?
  {
    InRoot(name);
    assert Parent([ROOT, other, name]) == [ROOT, other] && FileName([ROOT, other, name]) == name;
    hide Walk, LookupIn;
  }
}
