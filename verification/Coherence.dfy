/** When the path cache, the storage and the plain tree agree. */
module Coherence {
  import opened Wrappers
  import opened Paths
  import opened MetaData
  import opened Listing
  import opened DirectoryState
  import opened VersionStore
  import opened DirectoryTree
  import R = Rekey

  type Cache = map<Path, Dir>
  type Trees = map<DirectoryId, VersionTree>

  // ----- one directory -----

  /** The store's newest version of a directory. */
  ghost predicate HasTip(trees: Trees, id: DirectoryId, v: VersionName) {
    id in trees && OneChain(trees[id], [v])
  }

  function BlobOf(id: DirectoryId, node: Node, maxVersions: nat): Blob {
    Blob(node.parent, id, ProtoDirectory(id, maxVersions, ProtoChildren(node.children)))
  }

  /** The newest version in the store is the directory as the tree has it, under its parent's id. */
  ghost predicate StoredAs(trees: Trees, blobs: set<Blob>, id: DirectoryId, node: Node) {
    exists v :: Newest(trees, blobs, id, node, v)
  }

  ghost predicate Newest(trees: Trees, blobs: set<Blob>, id: DirectoryId, node: Node, v: VersionName) {
    HasTip(trees, id, v) && v.id in blobs && v.id == BlobOf(id, node, v.id.listing.maxVersions)
  }

  /** No handler is inside ProcessTimer, and none has been ended by an exception. */
  ghost predicate BetweenHandlers(d: Dir) {
    && d.starting == 0 && d.snapped == [] && d.serialised == [] && d.encrypted == []
    && d.initial == [] && d.adding == [] && d.putting == [] && d.finishing == 0 && d.failed == 0
  }

  /** The store's side of a live directory: what is not saved will be ... */
  ghost predicate Storing(d: Dir, trees: Trees) {
    && Counted(d) && NotLost(d) && BetweenHandlers(d)
    && Chained(trees, d.directoryId, d.versions)
  }

  /** ... and what is saved is in the store, under the parent's id. */
  ghost predicate StoreOk(d: Dir, trees: Trees, blobs: set<Blob>) {
    Storing(d, trees) && (!d.unsaved ==> Saved(d, blobs))
  }

  ghost predicate Saved(d: Dir, blobs: set<Blob>) {
    && d.versions != [] && d.versions[0].id in blobs
    && d.versions[0].id == Blob(d.parentId, d.directoryId, Snapshot(d))
  }

  /** The tree's side: the same listing and the same parent. */
  ghost predicate Matches(d: Dir, t: Tree) {
    && d.directoryId in t && d.children == t[d.directoryId].children
    && d.parentId == t[d.directoryId].parent && d.newParent.None?
  }

  ghost predicate EntryOk(p: Path, d: Dir, trees: Trees, blobs: set<Blob>, t: Tree, root: DirectoryId) {
    && IsPath(p) && Walk(t, root, p) == At(d.directoryId)
    && Matches(d, t) && StoreOk(d, trees, blobs)
  }

  // ----- the whole -----

  /** Every cached directory is the one its path leads to; the cached paths are closed under
      parents; and every directory that is not cached is in the store as the tree has it. */
  ghost predicate Coherent(c: Cache, trees: Trees, blobs: set<Blob>, t: Tree, root: DirectoryId) {
    && TreeOk(t, root)
    && [] in c
    && (forall p | p in c :: EntryOk(p, c[p], trees, blobs, t, root))
    && (forall p {:trigger Parent(p)} | p in c :: Parent(p) in c)
    && UncachedStored(c, trees, blobs, t, root)
  }

  ghost predicate UncachedStored(c: Cache, trees: Trees, blobs: set<Blob>, t: Tree, root: DirectoryId) {
    forall q | q !in c && Walk(t, root, q).At? :: StoredAt(q, trees, blobs, t, root)
  }

  ghost predicate StoredAt(q: Path, trees: Trees, blobs: set<Blob>, t: Tree, root: DirectoryId)
    requires Walk(t, root, q).At?
  {
    Walk(t, root, q).id in t && StoredAs(trees, blobs, Walk(t, root, q).id, t[Walk(t, root, q).id])
  }

  lemma DifferentIds(c: Cache, trees: Trees, blobs: set<Blob>, t: Tree, root: DirectoryId, p: Path, q: Path)
    requires Coherent(c, trees, blobs, t, root) && p in c && Walk(t, root, q) == At(c[p].directoryId)
    ensures p == q
  {
    assert EntryOk(p, c[p], trees, blobs, t, root);
    WalkInjective(t, root, p, q);
  }

  ghost predicate ClosedUnderParents(keys: set<Path>) {
    forall x {:trigger Parent(x)} | x in keys :: Parent(x) in keys
  }

  lemma {:induction false} PrefixCached(keys: set<Path>, p: Path, q: Path)
    requires ClosedUnderParents(keys) && q in keys && p <= q
    ensures p in keys
    decreases |q|
  {
    if p != q {
      assert p <= Parent(q);
      PrefixCached(keys, p, Parent(q));
    }
  }

  lemma CachedMatches(c: Cache, trees: Trees, blobs: set<Blob>, t: Tree, root: DirectoryId, p: Path)
    requires Coherent(c, trees, blobs, t, root) && p in c
    ensures Walk(t, root, p) == At(c[p].directoryId) && Matches(c[p], t)
  {
    assert EntryOk(p, c[p], trees, blobs, t, root);
  }

  lemma CachedEntry(c: Cache, trees: Trees, blobs: set<Blob>, t: Tree, root: DirectoryId, p: Path)
    requires Coherent(c, trees, blobs, t, root) && p in c
    ensures TreeOk(t, root) && EntryOk(p, c[p], trees, blobs, t, root)
  {
  }

  lemma TreeIsOk(c: Cache, trees: Trees, blobs: set<Blob>, t: Tree, root: DirectoryId)
    requires Coherent(c, trees, blobs, t, root)
    ensures TreeOk(t, root) && root in t
  {
  }

  /** One step of the walk below a cached directory. */
  lemma NextStep(c: Cache, trees: Trees, blobs: set<Blob>, t: Tree, root: DirectoryId, p: Path, name: Name)
    requires Coherent(c, trees, blobs, t, root) && p in c
    ensures Walk(t, root, p + [name]) == Child(t, c[p].directoryId, name)
    ensures LookupIn(t, c[p].directoryId, name) == Lookup(c[p].children, name)
    ensures Walk(t, root, p + [name]).At? ==>
      var id := Walk(t, root, p + [name]).id;
      id in t && Storable(t[id].children) && t[id].parent == c[p].directoryId
  {
    CachedMatches(c, trees, blobs, t, root, p);
    hide EntryOk, UncachedStored;
    assert Parent(p + [name]) == p && FileName(p + [name]) == name;
    WalkInTree(t, root, p + [name]);
  }

  lemma UncachedIsStored(c: Cache, trees: Trees, blobs: set<Blob>, t: Tree, root: DirectoryId, q: Path)
    requires Coherent(c, trees, blobs, t, root) && q !in c && Walk(t, root, q).At?
    ensures StoredAt(q, trees, blobs, t, root)
  {
    hide EntryOk, TreeOk;
  }

  /** Without a tree in order there is no agreement. */
  lemma NotCoherent(c: Cache, trees: Trees, blobs: set<Blob>, t: Tree, root: DirectoryId)
    requires !TreeOk(t, root)
    ensures !Coherent(c, trees, blobs, t, root)
  {
  }

  // ----- steps of storing -----

  lemma StoreOkFrame(d: Dir, trees: Trees, blobs: set<Blob>, trees2: Trees, blobs2: set<Blob>)
    requires StoreOk(d, trees, blobs) && blobs <= blobs2
    requires (d.directoryId in trees <==> d.directoryId in trees2)
    requires d.directoryId in trees ==> trees[d.directoryId] == trees2[d.directoryId]
    ensures StoreOk(d, trees2, blobs2)
  {
  }

  lemma StoredAsFrame(trees: Trees, blobs: set<Blob>, trees2: Trees, blobs2: set<Blob>, id: DirectoryId, node: Node)
    requires StoredAs(trees, blobs, id, node) && blobs <= blobs2 && id in trees2 && trees2[id] == trees[id]
    ensures StoredAs(trees2, blobs2, id, node)
  {
    var v :| Newest(trees, blobs, id, node, v);
    assert Newest(trees2, blobs2, id, node, v);
  }

  lemma SavedIsStored(d: Dir, trees: Trees, blobs: set<Blob>, t: Tree)
    requires StoreOk(d, trees, blobs) && Matches(d, t) && !d.unsaved
    ensures StoredAs(trees, blobs, d.directoryId, t[d.directoryId])
  {
    var v := d.versions[0];
    assert [v] <= trees[d.directoryId][v];
    assert Newest(trees, blobs, d.directoryId, t[d.directoryId], v);
  }

  lemma ChangeIsStoreOk(d: Dir, children: Children, trees: Trees, blobs: set<Blob>)
    requires StoreOk(d, trees, blobs)
    ensures StoreOk(Change(d, children), trees, blobs)
  {
  }

  /** What a step of one directory's own storing may do. */
  ghost predicate OnlyStores(d: Dir, e: Dir, trees: Trees, blobs: set<Blob>, trees2: Trees, blobs2: set<Blob>) {
    && e.directoryId == d.directoryId && e.parentId == d.parentId && e.children == d.children
    && e.newParent == d.newParent
    && blobs <= blobs2 && StoreOk(e, trees2, blobs2)
    && (forall id | id != d.directoryId :: id in trees <==> id in trees2)
    && (forall id | id != d.directoryId && id in trees :: trees[id] == trees2[id])
  }

  lemma StoringKeepsCoherent(c: Cache, trees: Trees, blobs: set<Blob>, t: Tree, root: DirectoryId, p: Path, e: Dir,
                             trees2: Trees, blobs2: set<Blob>)
    requires Coherent(c, trees, blobs, t, root) && p in c && OnlyStores(c[p], e, trees, blobs, trees2, blobs2)
    ensures Coherent(c[p := e], trees2, blobs2, t, root)
  {
    hide StoreOk, TreeOk, Walk;
    var c2 := c[p := e];
    forall q | q in c2 ensures EntryOk(q, c2[q], trees2, blobs2, t, root) && Parent(q) in c2 {
      assert EntryOk(q, c[q], trees, blobs, t, root);
      if q != p {
        if c[q].directoryId == c[p].directoryId { DifferentIds(c, trees, blobs, t, root, p, q); }
        StoreOkFrame(c[q], trees, blobs, trees2, blobs2);
      }
    }
    forall q | q !in c2 && Walk(t, root, q).At? ensures StoredAt(q, trees2, blobs2, t, root) {
      assert StoredAt(q, trees, blobs, t, root);
      if Walk(t, root, q).id == c[p].directoryId { DifferentIds(c, trees, blobs, t, root, p, q); }
      StoredAsFrame(trees, blobs, trees2, blobs2, Walk(t, root, q).id, t[Walk(t, root, q).id]);
    }
  }

  /** The steps that leave the store alone. */
  lemma QuietSteps(d: Dir, trees: Trees, blobs: set<Blob>)
    requires StoreOk(d, trees, blobs)
    ensures OnlyStores(d, d, trees, blobs, trees, blobs)
    ensures OnlyStores(d, Schedule(d), trees, blobs, trees, blobs)
    ensures OnlyStores(d, Expire(d), trees, blobs, trees, blobs)
    ensures d.newParent.None? && d.aborted > 0 ==> OnlyStores(d, Finish(StartAborted(d)), trees, blobs, trees, blobs)
  {
  }

  /** What a whole Put of a directory that stays where it is comes to. */
  lemma PutFields(s: Dir)
    requires s.starting > 0 && s.newParent.None?
    ensures Finish(Put(s)) == s.(starting := s.starting - 1, storeState := Complete, unsaved := false,
                                 pendingCount := s.pendingCount - 1, versions := Put(s).versions)
  {
    PutIs(s);
    hide Put, WithVersion, Snapshot;
  }

  lemma PutFinishes(s: Dir)
    requires s.starting > 0
    ensures Put(s).finishing > 0
  {
    PutIs(s);
    hide Put, WithVersion, Snapshot;
  }

  lemma StoredFields(d: Dir, e: Dir)
    requires Counted(d) && NotLost(d) && BetweenHandlers(d) && d.newParent.None? && IsStored(d, e)
    ensures Counted(e) && NotLost(e) && BetweenHandlers(e) && e.storeState == Complete && !e.unsaved
    ensures e.fired <= d.fired
    ensures e.directoryId == d.directoryId && e.parentId == d.parentId && e.children == d.children && e.newParent.None?
  {
    if d.fired > 0 { PutFinishes(StartFired(d)); }
    hide Put, Finish;
    if d.fired > 0 && e == Finish(Put(StartFired(d))) {
      PutFields(StartFired(d));
    } else {
      PutFields(StoreNow(d));
    }
  }

  /** A whole Put, from a fired handler or inline. */
  lemma PutSteps(d: Dir, trees: Trees, blobs: set<Blob>, e: Dir, trees2: Trees, blobs2: set<Blob>)
    requires StoreOk(d, trees, blobs) && d.newParent.None? && IsStored(d, e)
    requires e.versions != [] && e.versions[0].id == Blob(d.parentId, d.directoryId, Snapshot(e))
    requires blobs2 == blobs + {e.versions[0].id} && Chained(trees2, d.directoryId, e.versions)
    requires d.directoryId in trees2 && trees2 == trees[d.directoryId := trees2[d.directoryId]]
    ensures OnlyStores(d, e, trees, blobs, trees2, blobs2) && !e.unsaved && e.fired <= d.fired
  {
    StoredFields(d, e);
    hide IsStored, Counted, NotLost, BetweenHandlers, Chained, Snapshot;
  }

  // ----- loading and reloading -----

  /** No newest version in the store is encrypted under that parent's id. */
  ghost predicate Unreadable(trees: Trees, parentId: DirectoryId, id: DirectoryId) {
    id in trees ==> forall tip | tip in trees[id] :: trees[id][tip] == [] || trees[id][tip][0].id.parentKey != parentId
  }

  /** A directory that was moved while idle, and then stored with nothing left due, cannot be read
      back as a child of its new parent. */
  lemma IdleMoveIsUnreadable(d: Dir, parentId: DirectoryId, trees: Trees)
    requires Counted(d) && d.pendingCount == 0 && parentId != d.parentId
    requires var run := [ChangeEvent(d.children), ExpireEvent, StartFiredEvent, PutEvent, FinishEvent];
      IsRun(SetNewParent(d, parentId), run)
      && Chained(trees, d.directoryId, After(SetNewParent(d, parentId), run).versions)
    ensures var run := [ChangeEvent(d.children), ExpireEvent, StartFiredEvent, PutEvent, FinishEvent];
      var e := After(SetNewParent(d, parentId), run);
      && e.parentId == parentId && e.pendingCount == 0 && !e.unsaved
      && d.directoryId in trees && Unreadable(trees, parentId, d.directoryId)
  {
    IdleMoveKeepsOldKey(d, parentId);
    hide After, Counted, UntilQuiet;
  }

  /** The directory Get parses from the store. */
  ghost function LoadedFrom(trees: Trees, blobs: set<Blob>, id: DirectoryId, node: Node, v: VersionName): Dir
    requires Newest(trees, blobs, id, node, v)
  {
    Loaded(node.parent, id, node.children, trees[id][v], v.id.listing.maxVersions)
  }

  lemma LoadedEntryOk(trees: Trees, blobs: set<Blob>, t: Tree, root: DirectoryId, p: Path, v: VersionName)
    requires IsPath(p) && Walk(t, root, p).At?
    requires var id := Walk(t, root, p).id; id in t && Newest(trees, blobs, id, t[id], v)
    ensures var id := Walk(t, root, p).id; EntryOk(p, LoadedFrom(trees, blobs, id, t[id], v), trees, blobs, t, root)
  {
    assert trees[Walk(t, root, p).id][v][0] == v;
    hide Walk, ProtoChildren, Descending;
  }

  lemma InsertingKeepsCoherent(c: Cache, trees: Trees, blobs: set<Blob>, t: Tree, root: DirectoryId, p: Path, d: Dir)
    requires Coherent(c, trees, blobs, t, root) && Parent(p) in c && EntryOk(p, d, trees, blobs, t, root)
    ensures Coherent(c[p := d], trees, blobs, t, root)
  {
    hide EntryOk, TreeOk, StoredAt, Walk;
  }

  lemma LoadingKeepsCoherent(c: Cache, trees: Trees, blobs: set<Blob>, t: Tree, root: DirectoryId, p: Path,
                             v: VersionName)
    requires Coherent(c, trees, blobs, t, root) && p !in c && Parent(p) in c && IsPath(p) && Walk(t, root, p).At?
    requires var id := Walk(t, root, p).id;
      id in t && Newest(trees, blobs, id, t[id], v)
    ensures var id := Walk(t, root, p).id;
      Coherent(c[p := LoadedFrom(trees, blobs, id, t[id], v)], trees, blobs, t, root)
  {
    hide *;
    LoadedEntryOk(trees, blobs, t, root, p, v);
    InsertingKeepsCoherent(c, trees, blobs, t, root, p,
                           LoadedFrom(trees, blobs, Walk(t, root, p).id, t[Walk(t, root, p).id], v));
  }

  /** Everything in the tree is in the store. */
  ghost predicate AllStored(trees: Trees, blobs: set<Blob>, t: Tree, root: DirectoryId) {
    forall q | Walk(t, root, q).At? :: StoredAt(q, trees, blobs, t, root)
  }

  lemma SavedIsAllStored(c: Cache, trees: Trees, blobs: set<Blob>, t: Tree, root: DirectoryId)
    requires Coherent(c, trees, blobs, t, root) && forall p | p in c :: !c[p].unsaved
    ensures AllStored(trees, blobs, t, root)
  {
    forall q | Walk(t, root, q).At? ensures StoredAt(q, trees, blobs, t, root) {
      if q in c {
        assert EntryOk(q, c[q], trees, blobs, t, root);
        SavedIsStored(c[q], trees, blobs, t);
      }
    }
  }

  /** A fresh handler over a store that has everything starts coherent with the same tree. */
  lemma ReloadIsCoherent(trees: Trees, blobs: set<Blob>, t: Tree, root: DirectoryId, v: VersionName)
    requires TreeOk(t, root) && AllStored(trees, blobs, t, root)
    requires Newest(trees, blobs, root, t[root], v)
    ensures Coherent(map[[] := LoadedFrom(trees, blobs, root, t[root], v)], trees, blobs, t, root)
  {
    var d := LoadedFrom(trees, blobs, root, t[root], v);
    assert trees[root][v][0] == v;
    assert EntryOk([], d, trees, blobs, t, root);
    forall q | q != [] && Walk(t, root, q).At? ensures StoredAt(q, trees, blobs, t, root) {
    }
  }

  /** A drive with nothing on it: the root's parent holds the root, which is empty. */
  function RootEntry(rootId: DirectoryId): Meta {
    Meta(ROOT, DirectoryFile, Some(rootId), None, DIRECTORY_SIZE)
  }

  function NewDrive(uniqueUserId: DirectoryId, rootParentId: DirectoryId, rootId: DirectoryId): Tree {
    map[rootParentId := Node(uniqueUserId, [RootEntry(rootId)]), rootId := Node(rootParentId, [])]
  }

  lemma NewDriveIsCoherent(c: Cache, trees: Trees, blobs: set<Blob>, user: DirectoryId, root: DirectoryId,
                           rootId: DirectoryId)
    requires root != rootId && root !in trees && rootId !in trees
    requires c == map[[] := Change(Created(user, root, 1), [RootEntry(rootId)]),
                      [ROOT] := Schedule(Created(root, rootId, 1))]
    ensures Coherent(c, trees, blobs, NewDrive(user, root, rootId), root)
    ensures root in NewDrive(user, root, rootId) && NewDrive(user, root, rootId)[root].parent == user
  {
    var t := NewDrive(user, root, rootId);
    NewDriveEntries(c, trees, blobs, user, root, rootId);
    NewDriveTreeOk(user, root, rootId);
    hide EntryOk, TreeOk, NewDrive, Walk;
    forall q | q !in c ensures !Walk(t, root, q).At? {
      NewDriveHasOne(user, root, rootId, q);
    }
  }

  lemma NewDriveIsCoherentIff(c: Cache, trees: Trees, blobs: set<Blob>, user: DirectoryId, root: DirectoryId,
                              rootId: DirectoryId)
    requires c == map[[] := Change(Created(user, root, 1), [RootEntry(rootId)]),
                      [ROOT] := Schedule(Created(root, rootId, 1))]
    ensures var t := NewDrive(user, root, rootId);
      (Coherent(c, trees, blobs, t, root) && root in t && t[root].parent == user)
        <==> (root != rootId && root !in trees && rootId !in trees)
  {
    var t := NewDrive(user, root, rootId);
    if root != rootId && root !in trees && rootId !in trees {
      NewDriveIsCoherent(c, trees, blobs, user, root, rootId);
    } else if root == rootId {
      assert t[root].children == [] && c[[]].children != [];
      assert !EntryOk([], c[[]], trees, blobs, t, root);
    } else {
      var p: Path := if root in trees then [] else [ROOT];
      assert !StoreOk(c[p], trees, blobs);
      assert !EntryOk(p, c[p], trees, blobs, t, root);
    }
  }

  lemma NewDriveTreeOk(user: DirectoryId, root: DirectoryId, rootId: DirectoryId)
    requires root != rootId
    ensures TreeOk(NewDrive(user, root, rootId), root)
  {
    var t := NewDrive(user, root, rootId);
    RootEntryIs(rootId);
    hide RootEntry, WellFormed, Nameable;
    assert Storable([RootEntry(rootId)]) && Storable([]);
    assert t[root].children == [RootEntry(rootId)] && t[rootId].children == [];
    hide Storable;
  }

  lemma RootEntryIs(rootId: DirectoryId)
    ensures WellFormed(RootEntry(rootId)) && Nameable(RootEntry(rootId).name)
    ensures RootEntry(rootId).directoryId == Some(rootId)
  {
    assert ROOT[0] == '/' && "\\"[0] == '\\';
  }

  lemma NewDriveEntries(c: Cache, trees: Trees, blobs: set<Blob>, user: DirectoryId, root: DirectoryId,
                        rootId: DirectoryId)
    requires root != rootId && root !in trees && rootId !in trees
    requires c == map[[] := Change(Created(user, root, 1), [RootEntry(rootId)]),
                      [ROOT] := Schedule(Created(root, rootId, 1))]
    ensures EntryOk([], c[[]], trees, blobs, NewDrive(user, root, rootId), root)
    ensures EntryOk([ROOT], c[[ROOT]], trees, blobs, NewDrive(user, root, rootId), root)
  {
    assert Parent([ROOT]) == [] && FileName([ROOT]) == ROOT;
    assert Walk(NewDrive(user, root, rootId), root, [ROOT]) == At(rootId);
  }

  lemma NewDriveHasOne(user: DirectoryId, root: DirectoryId, rootId: DirectoryId, q: Path)
    requires root != rootId && q != [] && q != [ROOT]
    ensures !Walk(NewDrive(user, root, rootId), root, q).At?
  {
    var t := NewDrive(user, root, rootId);
    assert Parent([ROOT]) == [] && FileName([ROOT]) == ROOT;
    if IsWithin([ROOT], q) {
      assert q == [ROOT] + q[1..];
      assert [ROOT] + [] == [ROOT];
      EmptyBelow(t, root, [ROOT], q[1..]);
    } else {
      assert q == [] + [q[0]] + q[1..];
      assert q[0] == ROOT ==> [ROOT] <= q;
      assert Lookup([RootEntry(rootId)], q[0]) == None;
      NothingBelow(t, root, [], q[0], q[1..]);
    }
  }

  // ----- changing one listing -----

  ghost predicate SameAt(t: Tree, u: Tree, i: DirectoryId, n: Name) {
    LookupIn(u, i, n) == LookupIn(t, i, n)
  }

  /** u is t with the listing of id changed at one name, and perhaps new directories. */
  ghost predicate OnlyAt(t: Tree, u: Tree, id: DirectoryId, name: Name) {
    && id in t && id in u && u[id].parent == t[id].parent
    && (forall i | i in t && i != id :: i in u && u[i] == t[i])
    && (forall n | n != name :: SameAt(t, u, id, n))
  }

  lemma ChildOnlyAt(t: Tree, u: Tree, root: DirectoryId, p: Path, name: Name, q: Path, n: Name)
    requires TreeOk(t, root) && Walk(t, root, p).At? && OnlyAt(t, u, Walk(t, root, p).id, name)
    requires Walk(t, root, q).At? && q + [n] != p + [name]
    ensures Child(u, Walk(t, root, q).id, n) == Child(t, Walk(t, root, q).id, n)
  {
    WalkInTree(t, root, q);
    if Walk(t, root, q) == Walk(t, root, p) {
      WalkInjective(t, root, q, p);
      assert SameAt(t, u, Walk(t, root, p).id, n);
    }
  }

  lemma {:induction false} WalkOnlyAt(t: Tree, u: Tree, root: DirectoryId, p: Path, name: Name, q: Path)
    requires TreeOk(t, root) && Walk(t, root, p).At? && OnlyAt(t, u, Walk(t, root, p).id, name)
    requires !IsWithin(p + [name], q)
    ensures Walk(u, root, q) == Walk(t, root, q)
    decreases |q|
  {
    if q != [] {
      LastOf(q);
      WalkOnlyAt(t, u, root, p, name, Parent(q));
      if Walk(t, root, Parent(q)).At? {
        ChildOnlyAt(t, u, root, p, name, Parent(q), FileName(q));
      }
    }
  }

  /** A cached directory changes one entry of its listing. In the new cache c2 whatever was at or
      below that entry is gone, and a new directory may be there. */
  ghost predicate ListingChanged(c: Cache, c2: Cache, p: Path, path: Path, children: Children) {
    && p in c && p in c2 && c2[p] == Change(c[p], children)
    && (forall q | q in c && q != p && !IsWithin(path, q) :: q in c2 && c2[q] == c[q])
    && (forall q | q in c2 && q != path :: q in c && !IsWithin(path, q))
  }

  /** The tree is changed at one entry of a cached directory. */
  ghost predicate ListingStep(c: Cache, trees: Trees, blobs: set<Blob>, t: Tree, root: DirectoryId,
                              p: Path, name: Name, children: Children, u: Tree) {
    && Coherent(c, trees, blobs, t, root) && p in c
    && Walk(t, root, p) == At(c[p].directoryId)
    && TreeOk(u, root) && OnlyAt(t, u, c[p].directoryId, name) && u[c[p].directoryId].children == children
  }

  lemma ListingStepEntry(c: Cache, trees: Trees, blobs: set<Blob>, t: Tree, root: DirectoryId,
                         p: Path, name: Name, children: Children, u: Tree, q: Path)
    requires ListingStep(c, trees, blobs, t, root, p, name, children, u) && q in c && !IsWithin(p + [name], q)
    ensures EntryOk(q, if q == p then Change(c[p], children) else c[q], trees, blobs, u, root)
  {
    assert EntryOk(q, c[q], trees, blobs, t, root);
    assert TreeOk(t, root);
    ChangeIsStoreOk(c[q], children, trees, blobs);
    hide Coherent, StoreOk, TreeOk, Walk;
    WalkOnlyAt(t, u, root, p, name, q);
    if q != p && c[q].directoryId == c[p].directoryId { DifferentIds(c, trees, blobs, t, root, p, q); }
  }

  lemma ListingStepUncached(c: Cache, trees: Trees, blobs: set<Blob>, t: Tree, root: DirectoryId,
                            p: Path, name: Name, children: Children, u: Tree, q: Path)
    requires ListingStep(c, trees, blobs, t, root, p, name, children, u)
    requires q !in c && !IsWithin(p + [name], q) && Walk(u, root, q).At?
    ensures StoredAt(q, trees, blobs, u, root)
  {
    WalkOnlyAt(t, u, root, p, name, q);
    assert StoredAt(q, trees, blobs, t, root);
    if Walk(t, root, q).id == c[p].directoryId { DifferentIds(c, trees, blobs, t, root, p, q); }
  }

  lemma ListingChangeKeepsEntry(c: Cache, trees: Trees, blobs: set<Blob>, t: Tree, root: DirectoryId,
                                p: Path, name: Name, children: Children, u: Tree, c2: Cache, q: Path)
    requires ListingStep(c, trees, blobs, t, root, p, name, children, u)
    requires ListingChanged(c, c2, p, p + [name], children) && q in c2 && q != p + [name]
    ensures EntryOk(q, c2[q], trees, blobs, u, root) && Parent(q) in c2
  {
    hide ListingStep, EntryOk, Change;
    ParentsAreCached(c, trees, blobs, t, root, p, name, children, u);
    ListingStepEntry(c, trees, blobs, t, root, p, name, children, u, q);
    assert IsWithin(Parent(q), q);
  }

  lemma ParentsAreCached(c: Cache, trees: Trees, blobs: set<Blob>, t: Tree, root: DirectoryId,
                         p: Path, name: Name, children: Children, u: Tree)
    requires ListingStep(c, trees, blobs, t, root, p, name, children, u)
    ensures forall q {:trigger Parent(q)} | q in c :: Parent(q) in c
  {
    hide TreeOk, EntryOk;
  }

  lemma ListingChangeKeepsCoherent(c: Cache, trees: Trees, blobs: set<Blob>, t: Tree, root: DirectoryId,
                                   p: Path, name: Name, children: Children, u: Tree, c2: Cache)
    requires ListingStep(c, trees, blobs, t, root, p, name, children, u)
    requires ListingChanged(c, c2, p, p + [name], children)
    requires p + [name] in c2 ==> EntryOk(p + [name], c2[p + [name]], trees, blobs, u, root)
    requires forall r :: Walk(u, root, p + [name] + r).At? ==> p + [name] + r in c2
    ensures Coherent(c2, trees, blobs, u, root)
  {
    assert Parent(p + [name]) == p;
    assert |p + [name]| > 0;
    forall q | q in c2 ensures EntryOk(q, c2[q], trees, blobs, u, root) && Parent(q) in c2 {
      if q != p + [name] { ListingChangeKeepsEntry(c, trees, blobs, t, root, p, name, children, u, c2, q); }
    }
    forall q | q !in c2 && Walk(u, root, q).At? ensures StoredAt(q, trees, blobs, u, root) {
      Split(p + [name], q);
      ListingStepUncached(c, trees, blobs, t, root, p, name, children, u, q);
    }
  }

  lemma Split(top: Path, q: Path)
    ensures IsWithin(top, q) ==> q == top + q[|top|..]
  {
  }

  /** Nothing is found below an entry that is no directory. */
  lemma NothingBelow(u: Tree, root: DirectoryId, p: Path, name: Name, r: seq<Name>)
    requires Walk(u, root, p).At? && !Child(u, Walk(u, root, p).id, name).At?
    ensures !Walk(u, root, p + [name] + r).At?
  {
    assert Parent(p + [name]) == p;
    WalkFails(u, root, p + [name], r);
  }

  lemma NothingCachedBelow(c: Cache, trees: Trees, blobs: set<Blob>, t: Tree, root: DirectoryId, top: Path, q: Path)
    requires Coherent(c, trees, blobs, t, root) && q in c && IsWithin(top, q)
    ensures Walk(t, root, top).At? && top in c
  {
    assert EntryOk(q, c[q], trees, blobs, t, root);
    WalkPrefix(t, root, top, q);
    PrefixCached(c.Keys, top, q);
  }

  lemma NothingCachedAt(c: Cache, trees: Trees, blobs: set<Blob>, t: Tree, root: DirectoryId, p: Path, name: Name)
    requires Coherent(c, trees, blobs, t, root) && p in c && !Child(t, c[p].directoryId, name).At?
    ensures forall q | q in c :: !IsWithin(p + [name], q)
  {
    assert EntryOk(p, c[p], trees, blobs, t, root);
    assert Parent(p + [name]) == p && FileName(p + [name]) == name;
    forall q | q in c ensures !IsWithin(p + [name], q) {
      if IsWithin(p + [name], q) { NothingCachedBelow(c, trees, blobs, t, root, p + [name], q); }
    }
  }

  // ----- adding, removing and updating a child -----

  lemma AddIsListingStep(c: Cache, trees: Trees, blobs: set<Blob>, t: Tree, root: DirectoryId, p: Path, m: Meta)
    requires Coherent(c, trees, blobs, t, root) && p in c && LookupIn(t, c[p].directoryId, m.name).None?
    requires WellFormed(m) && Nameable(m.name) && (m.directoryId.Some? ==> m.directoryId.value !in t)
    ensures ListingStep(c, trees, blobs, t, root, p, m.name, Added(c[p].children, m), PlainAdd(t, c[p].directoryId, m))
    ensures forall q | q in c :: !IsWithin(p + [m.name], q)
  {
    var id := c[p].directoryId;
    var u := PlainAdd(t, id, m);
    assert EntryOk(p, c[p], trees, blobs, t, root);
    PlainAddOk(t, root, id, m);
    PlainAddLooksUp(t, id, m);
    forall n | n != m.name ensures SameAt(t, u, id, n) {
      assert LookupIn(u, id, n) == LookupIn(t, id, n);
    }
    NothingCachedAt(c, trees, blobs, t, root, p, m.name);
  }

  lemma AddKeepsCoherent(c: Cache, trees: Trees, blobs: set<Blob>, t: Tree, root: DirectoryId, p: Path, m: Meta,
                         c2: Cache)
    requires Coherent(c, trees, blobs, t, root) && p in c && LookupIn(t, c[p].directoryId, m.name).None?
    requires WellFormed(m) && Nameable(m.name) && IsName(m.name) && p != []
    requires m.directoryId.Some? ==> m.directoryId.value !in t && m.directoryId.value !in trees
    requires ListingChanged(c, c2, p, p + [m.name], Added(c[p].children, m))
    requires m.directoryId.Some? <==> p + [m.name] in c2
    requires m.directoryId.Some? ==> c2[p + [m.name]] == Created(c[p].directoryId, m.directoryId.value, 1)
    ensures Coherent(c2, trees, blobs, PlainAdd(t, c[p].directoryId, m), root)
  {
    var id := c[p].directoryId;
    var u := PlainAdd(t, id, m);
    AddIsListingStep(c, trees, blobs, t, root, p, m);
    assert EntryOk(p, c[p], trees, blobs, t, root);
    AddedLeads(t, u, root, p, id, m);
    if m.directoryId.Some? {
      NewEntryOk(p, m, id, trees, blobs, u, root);
    }
    ListingChangeKeepsCoherent(c, trees, blobs, t, root, p, m.name, Added(c[p].children, m), u, c2);
  }

  lemma NewEntryOk(p: Path, m: Meta, id: DirectoryId, trees: Trees, blobs: set<Blob>, u: Tree, root: DirectoryId)
    requires IsPath(p) && p != [] && IsName(m.name) && m.directoryId.Some? && m.directoryId.value !in trees
    requires Walk(u, root, p + [m.name]) == At(m.directoryId.value)
    requires m.directoryId.value in u && u[m.directoryId.value] == Node(id, [])
    ensures EntryOk(p + [m.name], Created(id, m.directoryId.value, 1), trees, blobs, u, root)
  {
  }

  ghost predicate IsNewEntry(m: Meta, trees: Trees, t: Tree) {
    && WellFormed(m) && IsName(m.name)
    && (m.directoryId.Some? ==> m.directoryId.value !in t && m.directoryId.value !in trees)
  }

  /** The cache after Add: the grandparent is scheduled for the parent's entry, and the parent's
      listing may have changed; a new directory is there before that. */
  function AddedCache(c: Cache, p: Path, children: Children, m: Meta): Cache
    requires p in c && Parent(p) in c
  {
    var d := c[Parent(p) := Schedule(c[Parent(p)])];
    var e := if children == c[p].children then d else d[p := Change(c[p], children)];
    if m.directoryId.Some? then e[p + [m.name] := Created(c[p].directoryId, m.directoryId.value, 1)] else e
  }

  lemma SchedulingKeepsCoherent(c: Cache, trees: Trees, blobs: set<Blob>, t: Tree, root: DirectoryId, p: Path)
    requires Coherent(c, trees, blobs, t, root) && p in c
    ensures Coherent(c[p := Schedule(c[p])], trees, blobs, t, root)
  {
    assert EntryOk(p, c[p], trees, blobs, t, root);
    QuietSteps(c[p], trees, blobs);
    StoringKeepsCoherent(c, trees, blobs, t, root, p, Schedule(c[p]), trees, blobs);
  }

  /** Adding a child of a new name keeps the agreement unless the name is one that is read back as
      another. */
  lemma WholeAddKeepsCoherent(c: Cache, trees: Trees, blobs: set<Blob>, t: Tree, root: DirectoryId, p: Path, m: Meta)
    requires Coherent(c, trees, blobs, t, root) && p in c && p != [] && LookupIn(t, c[p].directoryId, m.name).None?
    requires IsNewEntry(m, trees, t) && Parent(p) in c
    ensures c[p].directoryId in t
    ensures Coherent(AddedCache(c, p, Added(c[p].children, m), m), trees, blobs, PlainAdd(t, c[p].directoryId, m), root)
        <==> Nameable(m.name)
    ensures root in PlainAdd(t, c[p].directoryId, m) && PlainAdd(t, c[p].directoryId, m)[root].parent == t[root].parent
  {
    AddKeepsRoot(t, root, c[p].directoryId, m);
    hide Coherent, ListingChanged, ListingStep, AddedCache, EntryOk, Added, PlainAdd, WellFormed, TreeOk, LookupIn,
      IsWithin;
    if Nameable(m.name) {
      var d := c[Parent(p) := Schedule(c[Parent(p)])];
      SchedulingKeepsCoherent(c, trees, blobs, t, root, Parent(p));
      AddIsListingStep(d, trees, blobs, t, root, p, m);
      AddedCacheIs(c, p, m);
      AddKeepsCoherent(d, trees, blobs, t, root, p, m, AddedCache(c, p, Added(c[p].children, m), m));
    } else {
      CachedMatches(c, trees, blobs, t, root, p);
      TreeIsOk(c, trees, blobs, t, root);
      ListingIsSorted(t, root, c[p].directoryId);
      PlainAddLooksUp(t, c[p].directoryId, m);
      UnnameableIsNotOk(PlainAdd(t, c[p].directoryId, m), root, c[p].directoryId, m.name);
      NotCoherent(AddedCache(c, p, Added(c[p].children, m), m), trees, blobs, PlainAdd(t, c[p].directoryId, m), root);
    }
  }

  lemma ListingIsSorted(t: Tree, root: DirectoryId, id: DirectoryId)
    requires TreeOk(t, root) && id in t
    ensures Sorted(t[id].children)
  {
  }

  lemma AddKeepsRoot(t: Tree, root: DirectoryId, id: DirectoryId, m: Meta)
    requires id in t && root in t && (m.directoryId.Some? ==> m.directoryId.value !in t)
    ensures root in PlainAdd(t, id, m) && PlainAdd(t, id, m)[root].parent == t[root].parent
  {
  }

  lemma AddedCacheIs(c: Cache, p: Path, m: Meta)
    requires p in c && Parent(p) in c && p != []
    requires forall q | q in c :: !IsWithin(p + [m.name], q)
    ensures var d := c[Parent(p) := Schedule(c[Parent(p)])]; var e := AddedCache(c, p, Added(c[p].children, m), m);
      && ListingChanged(d, e, p, p + [m.name], Added(c[p].children, m))
      && (m.directoryId.Some? <==> p + [m.name] in e)
      && (m.directoryId.Some? ==> e[p + [m.name]] == Created(c[p].directoryId, m.directoryId.value, 1))
  {
    AddedIsMore(c[p].children, m);
    assert |p| < |p + [m.name]|;
    assert Parent(p) != p;
  }

  lemma AddedIsMore(s: Children, m: Meta)
    ensures Added(s, m) != s
  {
    assert |multiset(Added(s, m))| == |s + [m]|;
    assert |multiset(s)| == |s|;
  }

  /** It does not matter that Add puts the new directory into the cache first. */
  lemma AddedCacheOrder(c: Cache, c1: Cache, p: Path, children: Children, m: Meta)
    requires p in c && Parent(p) in c && p != []
    requires c1 == (if m.directoryId.Some?
                    then c[p + [m.name] := Created(c[p].directoryId, m.directoryId.value, 1)] else c)
    ensures AddedCache(c, p, children, m)
      == c1[Parent(p) := Schedule(c[Parent(p)])]
           [p := if children == c[p].children then c[p] else Change(c[p], children)]
  {
    hide Schedule, Change, Created;
    assert |Parent(p)| < |p| < |p + [m.name]|;
  }

  /** When the name is taken, a new file leaves nothing behind but a schedule, and a new directory is
      left in the cache in the place of what is in the tree. */
  lemma AddOverExisting(c: Cache, trees: Trees, blobs: set<Blob>, t: Tree, root: DirectoryId, p: Path, m: Meta)
    requires Coherent(c, trees, blobs, t, root) && p in c && Parent(p) in c && IsNewEntry(m, trees, t)
    ensures Coherent(AddedCache(c, p, c[p].children, m), trees, blobs, t, root) <==> m.directoryId.None?
  {
    SchedulingKeepsCoherent(c, trees, blobs, t, root, Parent(p));
    if m.directoryId.Some? {
      var e := AddedCache(c, p, c[p].children, m);
      assert p + [m.name] in e;
      assert !Matches(e[p + [m.name]], t);
      assert !EntryOk(p + [m.name], e[p + [m.name]], trees, blobs, t, root);
    }
  }

  /** Where the paths at and below an added entry lead. */
  lemma AddedLeads(t: Tree, u: Tree, root: DirectoryId, p: Path, id: DirectoryId, m: Meta)
    requires TreeOk(t, root) && Walk(t, root, p) == At(id) && id in t && u == PlainAdd(t, id, m)
    requires LookupIn(t, id, m.name).None? && (m.directoryId.Some? ==> m.directoryId.value !in t)
    requires OnlyAt(t, u, id, m.name)
    ensures m.directoryId.Some? ==> Walk(u, root, p + [m.name]) == At(m.directoryId.value)
    ensures forall r :: Walk(u, root, p + [m.name] + r).At? ==> m.directoryId.Some? && r == []
    ensures forall r :: Walk(u, root, p + [m.name] + r).At? ==> p + [m.name] + r == p + [m.name]
  {
    PlainAddLooksUp(t, id, m);
    assert |p| < |p + [m.name]|;
    WalkOnlyAt(t, u, root, p, m.name, p);
    assert Parent(p + [m.name]) == p && FileName(p + [m.name]) == m.name;
    assert LookupIn(u, id, m.name) == Some(m);
    forall r | Walk(u, root, p + [m.name] + r).At?
      ensures m.directoryId.Some? && r == [] && p + [m.name] + r == p + [m.name]
    {
      if m.directoryId.None? {
        NothingBelow(u, root, p, m.name, r);
      } else if r != [] {
        EmptyBelow(u, root, p + [m.name], r);
      }
    }
  }

  lemma EmptyBelow(u: Tree, root: DirectoryId, q: Path, r: seq<Name>)
    requires Walk(u, root, q).At? && Walk(u, root, q).id in u && u[Walk(u, root, q).id].children == [] && r != []
    ensures !Walk(u, root, q + r).At?
  {
    assert Lookup([], r[0]) == None;
    assert q + r == q + [r[0]] + r[1..];
    NothingBelow(u, root, q, r[0], r[1..]);
  }

  lemma UpdatedTree(t: Tree, root: DirectoryId, id: DirectoryId, name: Name, dataMap: DataMap, size: nat)
    requires TreeOk(t, root) && LookupIn(t, id, name).Some? && !IsDirectory(LookupIn(t, id, name).value)
    ensures var u := PlainUpdate(t, id, name, dataMap, size);
      && TreeOk(u, root) && OnlyAt(t, u, id, name) && u[id].children == Updated(t[id].children, name, dataMap, size)
      && !Child(t, id, name).At? && !Child(u, id, name).At?
  {
    var u := PlainUpdate(t, id, name, dataMap, size);
    LookupMember(t, root, id, name);
    PlainUpdateOk(t, root, id, name, dataMap, size);
    forall n | n != name ensures SameAt(t, u, id, n) {
      assert LookupIn(u, id, n) == LookupIn(t, id, n);
    }
  }

  lemma RemovedTree(t: Tree, root: DirectoryId, id: DirectoryId, name: Name)
    requires TreeOk(t, root) && LookupIn(t, id, name).Some?
    ensures var u := PlainRemove(t, id, name);
      && TreeOk(u, root) && OnlyAt(t, u, id, name) && !Child(u, id, name).At?
      && u[id].children == Removed(t[id].children, Find(t[id].children, name))
  {
    var u := PlainRemove(t, id, name);
    assert id in t;
    PlainRemoveOk(t, root, id, name);
    RemovedNodes(t, id, name);
    hide TreeOk, Removed, Find, Lookup, PlainRemove;
    forall n | n != name ensures SameAt(t, u, id, n) {
      assert LookupIn(u, id, n) == LookupIn(t, id, n);
    }
    assert LookupIn(u, id, name) == None;
  }

  /** A file's own change, which its parent stores. */
  lemma UpdateKeepsCoherent(c: Cache, trees: Trees, blobs: set<Blob>, t: Tree, root: DirectoryId, p: Path, name: Name,
                            dataMap: DataMap, size: nat)
    requires Coherent(c, trees, blobs, t, root) && p in c
    requires LookupIn(t, c[p].directoryId, name).Some? && !IsDirectory(LookupIn(t, c[p].directoryId, name).value)
    ensures Coherent(c[p := Change(c[p], Updated(c[p].children, name, dataMap, size))], trees, blobs,
                     PlainUpdate(t, c[p].directoryId, name, dataMap, size), root)
    ensures var u := PlainUpdate(t, c[p].directoryId, name, dataMap, size);
      root in u && root in t && u[root].parent == t[root].parent
  {
    hide Coherent, EntryOk, TreeOk, Updated, Change, Walk;
    TreeIsOk(c, trees, blobs, t, root);
    var children := Updated(c[p].children, name, dataMap, size);
    var u := PlainUpdate(t, c[p].directoryId, name, dataMap, size);
    CachedMatches(c, trees, blobs, t, root, p);
    UpdatedTree(t, root, c[p].directoryId, name, dataMap, size);
    NothingCachedAt(c, trees, blobs, t, root, p, name);
    LeadsNowhere(c, trees, blobs, t, root, p, name, children, u);
    ListingChangeKeepsCoherent(c, trees, blobs, t, root, p, name, children, u, c[p := Change(c[p], children)]);
  }

  /** When the changed entry is no directory, nothing is found at or below it. */
  lemma LeadsNowhere(c: Cache, trees: Trees, blobs: set<Blob>, t: Tree, root: DirectoryId,
                     p: Path, name: Name, children: Children, u: Tree)
    requires ListingStep(c, trees, blobs, t, root, p, name, children, u) && !Child(u, c[p].directoryId, name).At?
    ensures forall r :: !Walk(u, root, p + [name] + r).At?
  {
    assert |p| < |p + [name]|;
    WalkOnlyAt(t, u, root, p, name, p);
    forall r ensures !Walk(u, root, p + [name] + r).At? {
      NothingBelow(u, root, p, name, r);
    }
  }

  /** The cache without the removed child's entry, and with its directory's listing changed. */
  function RemovedCache(c: Cache, p: Path, name: Name): Cache
    requires p in c && Find(c[p].children, name) < |c[p].children|
  {
    (c - {p + [name]})[p := Change(c[p], Removed(c[p].children, Find(c[p].children, name)))]
  }

  /** Removing a child whose directory is at most a leaf of the cache, and is dropped from it. */
  lemma RemoveKeepsCoherent(c: Cache, trees: Trees, blobs: set<Blob>, t: Tree, root: DirectoryId, p: Path, name: Name)
    requires Coherent(c, trees, blobs, t, root) && p in c && LookupIn(t, c[p].directoryId, name).Some?
    requires forall q | q in c && IsWithin(p + [name], q) :: q == p + [name]
    requires Find(c[p].children, name) < |c[p].children|
    ensures Coherent(RemovedCache(c, p, name), trees, blobs, PlainRemove(t, c[p].directoryId, name), root)
    ensures var u := PlainRemove(t, c[p].directoryId, name); root in u && root in t && u[root].parent == t[root].parent
  {
    hide Coherent, EntryOk, TreeOk, Removed, Change, Walk;
    var path := p + [name];
    var children := Removed(c[p].children, Find(c[p].children, name));
    var u := PlainRemove(t, c[p].directoryId, name);
    assert |p| < |path|;
    CachedMatches(c, trees, blobs, t, root, p);
    TreeIsOk(c, trees, blobs, t, root);
    RemovedTree(t, root, c[p].directoryId, name);
    LeadsNowhere(c, trees, blobs, t, root, p, name, children, u);
    ListingChangeKeepsCoherent(c, trees, blobs, t, root, p, name, children, u, RemovedCache(c, p, name));
  }

  /** Once a directory with another cached directory below it is dropped, the cache is not closed
      under parents any more. */
  lemma OrphanIsIncoherent(c: Cache, trees: Trees, blobs: set<Blob>, t: Tree, root: DirectoryId, path: Path, q: Path)
    requires q in c && IsWithin(path, q) && path !in c
    ensures !Coherent(c, trees, blobs, t, root)
  {
    if Coherent(c, trees, blobs, t, root) {
      PrefixCached(c.Keys, path, q);
    }
  }

  // ----- entries that drop out -----

  ghost predicate AreStored(paths: set<Path>, trees: Trees, blobs: set<Blob>, t: Tree, root: DirectoryId) {
    forall p | p in paths :: Walk(t, root, p).At? && StoredAt(p, trees, blobs, t, root)
  }

  /** With some directories dropped from the cache, and all that is below them, it agrees exactly if
      the store has them. */
  lemma DroppingKeepsCoherent(c: Cache, trees: Trees, blobs: set<Blob>, t: Tree, root: DirectoryId, paths: set<Path>)
    requires Coherent(c, trees, blobs, t, root) && paths <= c.Keys && [] !in paths
    requires forall p, q | p in paths && q in c && IsWithin(p, q) :: q in paths
    ensures Coherent(c - paths, trees, blobs, t, root) <==> AreStored(paths, trees, blobs, t, root)
  {
    hide StoredAt, TreeOk, Walk, StoreOk, Matches;
    forall p | p in paths ensures Walk(t, root, p).At? { assert EntryOk(p, c[p], trees, blobs, t, root); }
    forall p | p in c && p !in paths ensures Parent(p) !in paths { assert IsWithin(Parent(p), p); }
    hide EntryOk;
  }

  // ----- moving a child -----

  ghost function Before(src: Path, dst: Path, k: Path): Path {
    if IsWithin(dst, k) then R.Origin(src, dst, k) else k
  }

  /** c2 is the cache after a move: the keys below src are below dst, and every directory is as the
      new tree has it. */
  ghost predicate CacheMoved(c: Cache, c2: Cache, src: Path, dst: Path, u: Tree, trees2: Trees, blobs2: set<Blob>) {
    && (forall k :: k in c2 <==> !IsWithin(src, k) && Before(src, dst, k) in c && (IsWithin(dst, k) || k in c))
    && (forall k | k in c2 :: Before(src, dst, k) in c && c2[k].directoryId == c[Before(src, dst, k)].directoryId
                              && Matches(c2[k], u) && StoreOk(c2[k], trees2, blobs2))
  }

  lemma SameNodeAfterMove(c: Cache, trees: Trees, blobs: set<Blob>, t: Tree, u: Tree, root: DirectoryId, src: Path,
                          dst: Path, q: Path)
    requires Coherent(c, trees, blobs, t, root) && MovePaths(t, u, root, src, dst)
    requires Parent(src) in c && Parent(dst) in c && q !in c && Walk(t, root, q).At?
    requires q == src ==> Parent(src) == Parent(dst)
    ensures Walk(t, root, q).id in t && Walk(t, root, q).id in u && u[Walk(t, root, q).id] == t[Walk(t, root, q).id]
  {
    var id := Walk(t, root, q).id;
    var from, into := Walk(t, root, Parent(src)).id, Walk(t, root, Parent(dst)).id;
    WalkInTree(t, root, q);
    if id == from { WalkInjective(t, root, q, Parent(src)); }
    if id == into { WalkInjective(t, root, q, Parent(dst)); }
    assert u[id].children == t[id].children;
    if LookupIn(t, from, FileName(src)).value.directoryId == Some(id) {
      WalkInjective(t, root, q, src);
    }
  }

  lemma MovedEntryOk(c: Cache, trees: Trees, blobs: set<Blob>, t: Tree, u: Tree, root: DirectoryId, src: Path,
                     dst: Path,
                     k: Path, d: Dir, trees2: Trees, blobs2: set<Blob>)
    requires Coherent(c, trees, blobs, t, root) && MovePaths(t, u, root, src, dst) && IsPath(dst)
    requires !IsWithin(src, k) && Before(src, dst, k) in c
    requires d.directoryId == c[Before(src, dst, k)].directoryId && Matches(d, u) && StoreOk(d, trees2, blobs2)
    ensures EntryOk(k, d, trees2, blobs2, u, root)
  {
    hide Coherent, TreeOk, Walk, IsMove, Matches, StoreOk;
    var k0 := Before(src, dst, k);
    CachedEntry(c, trees, blobs, t, root, k0);
    if IsWithin(dst, k) {
      var r := k[|dst|..];
      WalkMoved(t, u, root, src, dst, r);
      assert k == dst + r && k0 == src + r;
      MovedPathIsPath(src, dst, r);
    } else {
      WalkOutside(t, u, root, src, dst, k);
    }
  }

  lemma MovedPathIsPath(src: Path, dst: Path, r: seq<Name>)
    requires IsPath(src + r) && IsPath(dst) && dst != [] && src != []
    ensures IsPath(dst + r)
  {
    forall i | 1 <= i < |dst + r| ensures IsName((dst + r)[i]) {
      if i >= |dst| { assert (dst + r)[i] == (src + r)[|src| + (i - |dst|)]; }
    }
  }

  lemma MovedParentCached(c: Cache, c2: Cache, src: Path, dst: Path, u: Tree, trees2: Trees, blobs2: set<Blob>, k: Path)
    requires CacheMoved(c, c2, src, dst, u, trees2, blobs2) && k in c2
    requires (forall p {:trigger Parent(p)} | p in c :: Parent(p) in c) && Parent(dst) in c
    requires src != [] && dst != [] && !IsWithin(src, dst) && !IsWithin(dst, src)
    ensures Parent(k) in c2
  {
    ParentsOutside(src, dst);
    var k0 := Before(src, dst, k);
    if k == dst {
      assert Before(src, dst, Parent(k)) == Parent(dst);
    } else if IsWithin(dst, k) {
      var r := k[|dst|..];
      assert k == dst + r && k0 == src + r && r != [];
      assert Parent(k) == dst + Parent(r) && Parent(k0) == src + Parent(r);
      assert Before(src, dst, Parent(k)) == Parent(k0);
      assert Parent(k) <= k;
    } else {
      assert Parent(k) <= k;
      assert !IsWithin(src, Parent(k)) && !IsWithin(dst, Parent(k));
    }
  }

  lemma MovedStored(c: Cache, trees: Trees, blobs: set<Blob>, t: Tree, root: DirectoryId, src: Path, dst: Path,
                    u: Tree, q: Path, trees2: Trees, blobs2: set<Blob>)
    requires Coherent(c, trees, blobs, t, root) && MovePaths(t, u, root, src, dst)
    requires Parent(src) in c && Parent(dst) in c
    requires src !in c && Walk(t, root, src).At? ==> Parent(src) == Parent(dst)
    requires Walk(u, root, q).At? && Before(src, dst, q) !in c && blobs <= blobs2
    requires Walk(t, root, Before(src, dst, q)) == Walk(u, root, q)
    requires Walk(u, root, q).id in trees ==>
      Walk(u, root, q).id in trees2 && trees2[Walk(u, root, q).id] == trees[Walk(u, root, q).id]
    ensures StoredAt(q, trees2, blobs2, u, root)
  {
    var q0 := Before(src, dst, q);
    assert StoredAt(q0, trees, blobs, t, root);
    SameNodeAfterMove(c, trees, blobs, t, u, root, src, dst, q0);
    StoredAsFrame(trees, blobs, trees2, blobs2, Walk(t, root, q0).id, t[Walk(t, root, q0).id]);
  }

  /** No store has touched a directory that is not cached. */
  ghost predicate UncachedUntouched(c: Cache, trees: Trees, trees2: Trees, t: Tree, root: DirectoryId) {
    forall q | q !in c && Walk(t, root, q).At? :: Walk(t, root, q).id in trees ==>
      Walk(t, root, q).id in trees2 && trees2[Walk(t, root, q).id] == trees[Walk(t, root, q).id]
  }

  lemma MoveKeepsEntries(c: Cache, trees: Trees, blobs: set<Blob>, t: Tree, root: DirectoryId, src: Path, dst: Path,
                         u: Tree, c2: Cache, trees2: Trees, blobs2: set<Blob>, k: Path)
    requires Coherent(c, trees, blobs, t, root) && MovePaths(t, u, root, src, dst)
    requires Parent(dst) in c && IsPath(dst) && CacheMoved(c, c2, src, dst, u, trees2, blobs2) && k in c2
    ensures EntryOk(k, c2[k], trees2, blobs2, u, root) && Parent(k) in c2
  {
    MovedEntryOk(c, trees, blobs, t, u, root, src, dst, k, c2[k], trees2, blobs2);
    MovedParentCached(c, c2, src, dst, u, trees2, blobs2, k);
  }

  lemma MoveKeepsStored(c: Cache, trees: Trees, blobs: set<Blob>, t: Tree, root: DirectoryId, src: Path, dst: Path,
                        u: Tree, c2: Cache, trees2: Trees, blobs2: set<Blob>, q: Path)
    requires Coherent(c, trees, blobs, t, root) && MovePaths(t, u, root, src, dst)
    requires Parent(src) in c && Parent(dst) in c
    requires src !in c && Walk(t, root, src).At? ==> Parent(src) == Parent(dst)
    requires CacheMoved(c, c2, src, dst, u, trees2, blobs2) && blobs <= blobs2
    requires UncachedUntouched(c, trees, trees2, t, root)
    requires q !in c2 && Walk(u, root, q).At?
    ensures StoredAt(q, trees2, blobs2, u, root)
  {
    MovedUncached(c, trees, blobs, t, u, root, src, dst, q);
    MovedStored(c, trees, blobs, t, root, src, dst, u, q, trees2, blobs2);
  }

  lemma MoveKeepsCoherent(c: Cache, trees: Trees, blobs: set<Blob>, t: Tree, root: DirectoryId, src: Path, dst: Path,
                          u: Tree, c2: Cache, trees2: Trees, blobs2: set<Blob>)
    requires Coherent(c, trees, blobs, t, root) && MovePaths(t, u, root, src, dst) && TreeOk(u, root)
    requires Parent(src) in c && Parent(dst) in c && IsPath(dst)
    requires src !in c && Walk(t, root, src).At? ==> Parent(src) == Parent(dst)
    requires CacheMoved(c, c2, src, dst, u, trees2, blobs2) && blobs <= blobs2
    requires UncachedUntouched(c, trees, trees2, t, root)
    ensures Coherent(c2, trees2, blobs2, u, root)
  {
    assert Before(src, dst, []) == [];
    forall k | k in c2 ensures EntryOk(k, c2[k], trees2, blobs2, u, root) && Parent(k) in c2 {
      MoveKeepsEntries(c, trees, blobs, t, root, src, dst, u, c2, trees2, blobs2, k);
    }
    forall q | q !in c2 && Walk(u, root, q).At? ensures StoredAt(q, trees2, blobs2, u, root) {
      MoveKeepsStored(c, trees, blobs, t, root, src, dst, u, c2, trees2, blobs2, q);
    }
  }

  lemma MovedUncached(c: Cache, trees: Trees, blobs: set<Blob>, t: Tree, u: Tree, root: DirectoryId, src: Path,
                      dst: Path, q: Path)
    requires Coherent(c, trees, blobs, t, root) && MovePaths(t, u, root, src, dst)
    requires Walk(u, root, q).At?
    ensures !IsWithin(src, q) && Walk(t, root, Before(src, dst, q)) == Walk(u, root, q)
  {
    Split(src, q);
    Split(dst, q);
    if IsWithin(src, q) {
      WalkLeft(t, u, root, src, dst, q[|src|..]);
    } else if IsWithin(dst, q) {
      WalkMoved(t, u, root, src, dst, q[|dst|..]);
    } else {
      WalkOutside(t, u, root, src, dst, q);
    }
  }
}
