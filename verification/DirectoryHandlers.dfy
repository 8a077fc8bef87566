/** DirectoryHandler: the cache of live directories over the store. */
module DirectoryHandlers {
  import opened Wrappers
  import opened Paths
  import opened MetaData
  import opened Listing
  import DS = DirectoryState
  import opened VersionStore
  import opened DirectoryTree
  import opened Coherence
  import opened Directories
  import opened Renaming
  import R = Rekey

  function ToOutcome(w: Walked): Outcome {
    match w
    case At(_) => Done
    case NoSuchFile => Outcome.NoSuchFile
    case InvalidParameter => Outcome.InvalidParameter
  }

  /** The storage has everything of the drive whose tree is stored. */
  ghost predicate IsStoredDrive(storage: Storage, uniqueUserId: DirectoryId, rootParentId: DirectoryId, stored: Tree)
    reads storage
  {
    && TreeOk(stored, rootParentId) && stored[rootParentId].parent == uniqueUserId && rootParentId in storage.trees
    && AllStored(storage.trees, storage.blobs, stored, rootParentId)
  }

  /** An immediate store leaves the change alone. */
  predicate StaysUnsaved(d: DS.Dir) {
    d.unsaved && (d.waits == 0 || d.storeState != DS.Pending)
  }

  ghost function StatesOf(c: map<Path, Directory>): Cache
    reads c.Values
  {
    map p | p in c :: c[p].State()
  }

  ghost predicate AreDistinct(c: map<Path, Directory>) {
    forall p, q | p in c && q in c && c[p] == c[q] :: p == q
  }

  lemma StatesMoved(c: map<Path, Directory>, src: Path, dst: Path)
    requires Apart(src, dst) && forall k | k in c :: !IsWithin(dst, k)
    ensures StatesOf(R.Moved(src, dst, c)) == R.Moved(src, dst, StatesOf(c))
  {
    MovedIs(src, dst, c);
    MovedIs(src, dst, StatesOf(c));
    hide R.Moved, R.Origin;
    forall k
      ensures k in R.Moved(src, dst, StatesOf(c)) <==> k in R.Moved(src, dst, c)
      ensures k in R.Moved(src, dst, c) ==> R.Moved(src, dst, StatesOf(c))[k] == R.Moved(src, dst, c)[k].State()
    {
    }
  }

  /** What the re-keying loop has left of the cache c, if d is c or has the directory moved by hand. */
  lemma AfterRekey(src: Path, dst: Path, c: map<Path, Directory>, d: map<Path, Directory>, e: map<Path, Directory>)
    requires AreDistinct(c) && Apart(src, dst) && |src| >= 2 && |dst| >= 2 && IsPath(src) && IsPath(dst)
    requires (forall k | k in c :: IsPath(k) && !IsWithin(dst, k)) && RekeyEnds(c.Keys, src, dst)
    requires d == c || (Parent(src) != Parent(dst) && d == ByHand(c, src, dst))
    requires R.Rekeyed(src, dst, d, e)
    ensures OutsidersLost(src, dst, c, e)
    ensures R.AllDropOut(src, dst, c.Keys) <==> e == R.Moved(src, dst, c) - R.Outsiders(src, c.Keys)
    ensures R.AllDropOut(src, dst, c.Keys) <==> R.OutsidersDropped(src, c, e)
    ensures forall k | k in R.Outsiders(src, c.Keys) :: !IsWithin(k, dst) && !IsWithin(dst, k)
  {
    hide R.Moved, R.Prepared, R.Rekeyed, OutsidersLost, RekeyEnds, R.AllDropOut, R.OutsidersDropped;
    PreparedForRekey(c, src, dst);
    assert IsWithin(dst, dst);
    ByHandLosesOutsiders(src, dst, c, d, e);
    OutsidersAreApart(c.Keys, src, dst);
    DroppedByKeys(src, dst, c, d, e);
  }

  /** An outsider's directory that is left under another key does not agree with the tree. */
  lemma StrayDisagrees(t: Tree, u: Tree, root: DirectoryId, src: Path, dst: Path, k: Path, j: Path, id: DirectoryId)
    requires TreeOk(t, root) && MovePaths(t, u, root, src, dst) && TreeOk(u, root)
    requires !IsWithin(src, k) && !IsWithin(dst, k) && Walk(t, root, k) == At(id) && j != k
    ensures Walk(u, root, j) != At(id)
  {
    hide TreeOk, MovePaths;
    WalkOutside(t, u, root, src, dst, k);
    if Walk(u, root, j) == At(id) { WalkInjective(u, root, j, k); }
  }

  lemma StatesWithout(c: map<Path, Directory>, paths: set<Path>)
    ensures StatesOf(c - paths) == StatesOf(c) - paths
    ensures AreDistinct(c) ==> AreDistinct(c - paths)
  {
  }

  lemma MovedDistinct(c: map<Path, Directory>, src: Path, dst: Path)
    requires Apart(src, dst) && AreDistinct(c) && forall k | k in c :: !IsWithin(dst, k)
    ensures AreDistinct(R.Moved(src, dst, c))
  {
    MovedIs(src, dst, c);
    var d := R.Moved(src, dst, c);
    forall p, q | p in d && q in d && d[p] == d[q] ensures p == q {
      var p0 := if IsWithin(dst, p) then R.Origin(src, dst, p) else p;
      var q0 := if IsWithin(dst, q) then R.Origin(src, dst, q) else q;
      assert p0 == q0;
      assert IsWithin(dst, p) ==> p == dst + p0[|src|..];
      assert IsWithin(dst, q) ==> q == dst + q0[|src|..];
    }
  }

  /** The directory is parsed from the newest of these versions, which the two ids decrypt. */
  ghost predicate IsReadBack(versions: seq<DS.VersionName>, blobs: set<DS.Blob>, parentId: DirectoryId, id: DirectoryId,
                             d: DS.Dir) {
    && versions != [] && versions[0].id in blobs
    && versions[0].id.parentKey == parentId && versions[0].id.directoryKey == id
    && var listing := versions[0].id.listing;
    && DS.ParseChildren(listing.children).Some?
    && d == DS.Loaded(parentId, listing.directoryId, Sort(DS.ParseChildren(listing.children).value), versions,
                      listing.maxVersions)
  }

  lemma ToOutcomeIs(w: Walked)
    ensures w == Walked.NoSuchFile ==> ToOutcome(w) == Outcome.NoSuchFile
  {
  }

  /** How a walk fails is how the operations on its path do. */
  lemma FailsAs(t: Tree, root: DirectoryId, p: Path)
    ensures ToOutcome(Walk(t, root, p)) == Done <==> Walk(t, root, p).At?
    ensures ToOutcome(Walk(t, root, p)) == Outcome.InvalidParameter <==> MeetsFile(t, root, p)
    ensures ToOutcome(Walk(t, root, p)) == Outcome.NoSuchFile <==> MeetsNothing(t, root, p)
    ensures !(MeetsFile(t, root, p) && MeetsNothing(t, root, p))
    ensures Walk(t, root, p).At? || MeetsFile(t, root, p) || MeetsNothing(t, root, p)
  {
    WalkFailsAs(t, root, p);
    hide MeetsFile, MeetsNothing, Walk;
  }

  /** So is a path's last step. */
  lemma EndsAs(t: Tree, root: DirectoryId, p: Path)
    requires p != []
    ensures Walk(t, root, Parent(p)).At? ==>
      Resolve(t, root, p) == LookupIn(t, Walk(t, root, Parent(p)).id, FileName(p))
    ensures !Walk(t, root, Parent(p)).At? ==> Resolve(t, root, p).None?
    ensures MeetsNothing(t, root, p) <==>
      MeetsNothing(t, root, Parent(p)) || (Resolve(t, root, p).None? && Walk(t, root, Parent(p)).At?)
  {
    MeetsNothingStep(t, root, p);
  }

  class DirectoryHandler {
    const storage: Storage
    const windows: bool
    const uniqueUserId: DirectoryId
    const rootParentId: DirectoryId
    var cache: map<Path, Directory>

    /** The tree the handler stands for, without cache or store. */
    ghost var tree: Tree

    ghost function Snapshot(): Cache
      reads this`cache, cache.Values
    {
      StatesOf(cache)
    }

    ghost predicate Distinct()
      reads this`cache
    {
      AreDistinct(cache)
    }

    ghost predicate Valid()
      reads this, cache.Values, storage
    {
      && Distinct() && Coherent(Snapshot(), storage.trees, storage.blobs, tree, rootParentId)
      && rootParentId in tree && tree[rootParentId].parent == uniqueUserId
    }

    /** One cached directory has changed since the old state, and the cache has not. */
    twostate lemma OneChanged(p: Path)
      requires old(p in cache) && cache == old(cache) && Distinct()
      requires forall q | q in cache && q != p :: unchanged(cache[q])
      ensures Snapshot() == old(Snapshot())[p := cache[p].State()]
    {
    }

    /** One new directory is in the cache, and nothing else has changed. */
    twostate lemma OneInserted(p: Path, new directory: Directory)
      requires old(Distinct()) && fresh(directory) && cache == old(cache)[p := directory]
      requires forall q | q in old(cache) :: unchanged(old(cache[q]))
      ensures Distinct() && Snapshot() == old(Snapshot())[p := directory.State()]
    {
    }

    /** DirectoryHandler::Initialise, on a storage that has the drive if it has the drive's id. A new
        drive agrees with the storage exactly if both its ids are new there. */
    constructor (storage: Storage, windows: bool, uniqueUserId: DirectoryId, rootParentId: DirectoryId, create: bool,
                 rootId: DirectoryId,
                 ghost stored: Tree)
      requires rootParentId in storage.trees && !create ==> IsStoredDrive(storage, uniqueUserId, rootParentId, stored)
      ensures fresh(cache.Values) && this.storage == storage && this.windows == windows
      ensures this.rootParentId == rootParentId
      ensures rootParentId in storage.trees && !create ==> Valid() && tree == stored
      ensures rootParentId !in storage.trees || create ==>
        && tree == NewDrive(uniqueUserId, rootParentId, rootId)
        && tree == map[rootParentId := Node(uniqueUserId, [Meta("/", DirectoryFile, Some(rootId), None, 4096)]),
                       rootId := Node(rootParentId, [])]
        && (Valid() <==> rootParentId !in storage.trees && rootId !in storage.trees && rootId != rootParentId)
    {
      this.storage, this.windows, this.uniqueUserId, this.rootParentId := storage, windows, uniqueUserId, rootParentId;
      cache, tree := map[], map[];
      new;
      hide Coherent, IsStoredDrive;
      var creating := create;
      if !creating {
        var r := LoadRootParent(stored);
        creating := r != Done;
      }
      if creating {
        CreateRoot(rootId);
      }
    }

    method LoadRootParent(ghost stored: Tree) returns (r: Outcome)
      requires rootParentId in storage.trees ==> IsStoredDrive(storage, uniqueUserId, rootParentId, stored)
      modifies this`cache, this`tree
      ensures r == Done <==> rootParentId in storage.trees
      ensures r == Done ==> Valid() && fresh(cache.Values) && tree == stored
    {
      hide *;
      ghost var trees, blobs := storage.trees, storage.blobs;
      if rootParentId in trees {
        RootIsStored(stored);
      }
      ghost var node := if rootParentId in stored then stored[rootParentId] else Node("", []);
      var directory;
      ghost var tip;
      r, directory, tip := GetFromStorage(uniqueUserId, rootParentId, node);
      if r == Done {
        cache, tree := map[[] := directory], stored;
        ReloadIsCoherent(trees, blobs, stored, rootParentId, tip);
        OnlyRootParent(directory);
        IsValid(Snapshot());
      }
    }

    lemma RootIsStored(stored: Tree)
      requires IsStoredDrive(storage, uniqueUserId, rootParentId, stored)
      ensures TreeOk(stored, rootParentId) && AllStored(storage.trees, storage.blobs, stored, rootParentId)
      ensures rootParentId in stored && stored[rootParentId].parent == uniqueUserId
      ensures DS.Storable(stored[rootParentId].children)
      ensures StoredAs(storage.trees, storage.blobs, rootParentId, stored[rootParentId])
    {
      assert Walk(stored, rootParentId, []) == At(rootParentId);
      assert StoredAt([], storage.trees, storage.blobs, stored, rootParentId);
      hide StoredAs, Walk;
    }

    lemma OnlyRootParent(directory: Directory)
      requires cache == map[[] := directory]
      ensures Distinct() && Snapshot() == map[[] := directory.State()]
    {
    }

    lemma OnlyRoot(rootParent: Directory, root: Directory)
      requires cache == map[[] := rootParent, [ROOT] := root] && rootParent != root
      ensures Distinct() && Snapshot() == map[[] := rootParent.State(), [ROOT] := root.State()]
    {
    }

    method CreateRoot(rootId: DirectoryId)
      modifies this`cache, this`tree
      ensures fresh(cache.Values) && tree == NewDrive(uniqueUserId, rootParentId, rootId)
      ensures Valid() <==> rootParentId !in storage.trees && rootId !in storage.trees && rootId != rootParentId
    {
      hide *;
      var rootParent := new Directory.Create(uniqueUserId, rootParentId);
      var root := new Directory.Create(rootParentId, rootId);
      CreatedIsEmpty(rootParent, uniqueUserId, rootParentId);
      CreatedIsEmpty(root, rootParentId, rootId);
      var r := rootParent.AddChild(RootEntry(rootId));
      root.ScheduleForStoring();
      cache := map[[] := rootParent, [ROOT] := root];
      tree := NewDrive(uniqueUserId, rootParentId, rootId);
      AddedToNone(RootEntry(rootId));
      OnlyRoot(rootParent, root);
      NewDriveIsCoherentIff(Snapshot(), storage.trees, storage.blobs, uniqueUserId, rootParentId, rootId);
      NewDriveRoot(Snapshot());
    }

    lemma CreatedIsEmpty(directory: Directory, parentId: DirectoryId, id: DirectoryId)
      requires directory.State() == DS.Created(parentId, id, MAX_VERSIONS)
      ensures directory.State() == DS.Created(parentId, id, 1)
      ensures directory.children == [] && forall n :: Lookup(directory.children, n) == None
    {
    }

    lemma NewDriveRoot(c: Cache)
      requires Distinct() && Snapshot() == c
      ensures Valid() <==>
        (Coherent(c, storage.trees, storage.blobs, tree, rootParentId) && rootParentId in tree
         && tree[rootParentId].parent == uniqueUserId)
    {
    }

    // ----- storing -----

    lemma CachedOk(p: Path)
      requires Valid() && p in cache
      ensures StoreOk(cache[p].State(), storage.trees, storage.blobs) && Matches(cache[p].State(), tree)
      ensures cache[p].newParent.None?
      ensures forall q | q in cache && q != p :: cache[q] != cache[p]
    {
      assert EntryOk(p, Snapshot()[p], storage.trees, storage.blobs, tree, rootParentId);
    }

    /** A cached directory has done a step of its own storing. */
    twostate lemma Stepped(p: Path)
      requires old(Valid()) && p in cache && cache == old(cache) && tree == old(tree)
      requires forall q | q in cache && q != p :: unchanged(cache[q])
      requires OnlyStores(old(cache[p].State()), cache[p].State(), old(storage.trees), old(storage.blobs),
                          storage.trees, storage.blobs)
      ensures Valid()
    {
      hide Coherent, OnlyStores;
      OneChanged(p);
      StoringKeepsCoherent(old(Snapshot()), old(storage.trees), old(storage.blobs), tree, rootParentId, p,
                           cache[p].State(),
                           storage.trees, storage.blobs);
    }

    /** The timer of a cached directory expires. */
    method TimerExpires(p: Path)
      requires Valid() && p in cache
      modifies cache[p]
      ensures Valid() && cache[p].State() == DS.Expire(old(cache[p].State()))
    {
      hide *;
      CachedOk(p);
      QuietSteps(cache[p].State(), storage.trees, storage.blobs);
      cache[p].TimerExpires();
      Stepped(p);
    }

    method RunAborted(p: Path)
      requires Valid() && p in cache && cache[p].State().aborted > 0
      modifies cache[p]
      ensures Valid() && cache[p].State() == DS.Finish(DS.StartAborted(old(cache[p].State())))
    {
      hide *;
      CachedOk(p);
      QuietSteps(cache[p].State(), storage.trees, storage.blobs);
      cache[p].RunAborted();
      Stepped(p);
    }

    method RunFired(p: Path)
      requires Valid() && p in cache && cache[p].State().fired > 0
      modifies cache[p], storage
      ensures Valid() && !cache[p].State().unsaved
    {
      hide *;
      CachedOk(p);
      CachedChained(p);
      cache[p].RunFired(storage);
      PutStepped(p);
    }

    lemma CachedChained(p: Path)
      requires p in cache && StoreOk(cache[p].State(), storage.trees, storage.blobs)
      ensures Chained(storage.trees, cache[p].directoryId, cache[p].versions)
    {
    }

    /** A cached directory has been put by a handler, or inline. */
    twostate lemma PutStepped(p: Path)
      requires old(Valid()) && p in cache && cache == old(cache) && tree == old(tree)
      requires forall q | q in cache && q != p :: unchanged(cache[q])
      requires StoreOk(old(cache[p].State()), old(storage.trees), old(storage.blobs)) && old(cache[p].newParent).None?
      requires DS.IsStored(old(cache[p].State()), cache[p].State())
      requires cache[p].Stored(storage, old(cache[p].parentId))
      requires storage.blobs == old(storage.blobs) + {cache[p].versions[0].id}
      requires storage.trees == old(storage.trees)[cache[p].directoryId := storage.trees[cache[p].directoryId]]
      ensures Valid() && !cache[p].State().unsaved
    {
      hide Valid, Coherent, Distinct, StoreOk, Chained, DS.IsStored, OnlyStores, Directory.Stored;
      StoredFacts(cache[p], old(cache[p].parentId));
      PutSteps(old(cache[p].State()), old(storage.trees), old(storage.blobs), cache[p].State(), storage.trees,
               storage.blobs);
      Stepped(p);
    }

    lemma StoredFacts(directory: Directory, key: DirectoryId)
      requires directory.Stored(storage, key)
      ensures directory.State().versions == directory.versions != []
      ensures directory.State().directoryId == directory.directoryId && directory.directoryId in storage.trees
      ensures directory.versions[0].id == DS.Blob(key, directory.directoryId, DS.Snapshot(directory.State()))
      ensures Chained(storage.trees, directory.directoryId, directory.versions)
    {
    }

    /** FlushAll: every cached directory is scheduled. */
    method FlushAll()
      requires Valid()
      modifies cache.Values
      ensures Valid()
      ensures forall p | p in cache :: cache[p].State() == DS.Schedule(old(cache[p].State()))
    {
      hide *;
      var rest := cache.Keys;
      while rest != {}
        invariant rest <= cache.Keys && Valid()
        invariant forall p | p in rest :: unchanged(cache[p])
        invariant forall p | p in cache && p !in rest :: cache[p].State() == DS.Schedule(old(cache[p].State()))
      {
        var p :| p in rest;
        CachedOk(p);
        QuietSteps(cache[p].State(), storage.trees, storage.blobs);
        label before:
        cache[p].ScheduleForStoring();
        Stepped@before(p);
        rest := rest - {p};
      }
    }

    /** StoreAll on one directory. An unsaved change stays so exactly when no wait is armed, so that
        a handler that is queued already is to save it, or when the change does not show as pending. */
    method StoreOne(p: Path)
      requires Valid() && p in cache
      modifies cache[p], storage
      ensures Valid()
      ensures cache[p].unsaved <==> old(StaysUnsaved(cache[p].State()))
      ensures cache[p].unsaved <==> old(cache[p].unsaved && (cache[p].waits == 0 || cache[p].storeState != DS.Pending))
    {
      hide Coherent, Distinct, Chained, DS.IsStored, OnlyStores, Directory.Stored, OneChain;
      CachedOk(p);
      CachedChained(p);
      cache[p].StoreImmediatelyIfPending(storage);
      if old(cache[p].storeState) == DS.Pending && old(cache[p].waits) > 0 {
        PutStepped(p);
      } else {
        QuietSteps(old(cache[p].State()), old(storage.trees), old(storage.blobs));
        Stepped(p);
      }
    }

    /** StoreAll. Afterwards the storage has everything, unless there is a change that does not show
        as pending, or that waits for a handler which has been queued already. */
    method StoreAll()
      requires Valid()
      modifies cache.Values, storage
      ensures Valid()
      ensures forall p | p in cache :: cache[p].unsaved <==> old(StaysUnsaved(cache[p].State()))
      ensures (forall p | p in cache :: !old(StaysUnsaved(cache[p].State()))) ==>
                IsStoredDrive(storage, uniqueUserId, rootParentId, tree)
    {
      hide *;
      var rest := cache.Keys;
      while rest != {}
        invariant rest <= cache.Keys && Valid()
        invariant forall p | p in rest :: unchanged(cache[p])
        invariant forall p | p in cache && p !in rest :: cache[p].unsaved <==> old(StaysUnsaved(cache[p].State()))
      {
        var p :| p in rest;
        CachedOk(p);
        StoreOne(p);
        rest := rest - {p};
      }
      SavedIsStoredDrive();
    }

    lemma SavedIsStoredDrive()
      requires Valid()
      ensures (forall p | p in cache :: !cache[p].unsaved) ==> IsStoredDrive(storage, uniqueUserId, rootParentId, tree)
    {
      if forall p | p in cache :: !cache[p].unsaved {
        SavedIsAllStored(Snapshot(), storage.trees, storage.blobs, tree, rootParentId);
        assert StoredAt([], storage.trees, storage.blobs, tree, rootParentId);
      }
    }

    // ----- reading from the store -----

    /** GetFromStorage with ParseDirectory. */
    method GetFromStorage(parentId: DirectoryId, id: DirectoryId, ghost node: Node)
      returns (r: Outcome, directory: Directory?, ghost tip: DS.VersionName)
      ensures r == Done || r == ParsingError
      ensures r == Done ==> directory != null && fresh(directory) && id in storage.trees && tip in storage.trees[id]
      ensures r == Done ==> IsReadBack(storage.trees[id][tip], storage.blobs, parentId, id, directory.State())
      ensures Unreadable(storage.trees, parentId, id) ==> r == ParsingError
      ensures
        StoredAs(storage.trees, storage.blobs, id, node) && node.parent == parentId && DS.Storable(node.children) ==>
        && r == Done && Newest(storage.trees, storage.blobs, id, node, tip)
        && directory.State() == LoadedFrom(storage.trees, storage.blobs, id, node, tip)
    {
      directory, tip := null, DS.VersionName(0, DS.Blob("", "", DS.ProtoDirectory("", 0, [])));
      if id !in storage.trees || storage.trees[id] == map[] {
        return ParsingError, null, tip;
      }
      var versionTip :| versionTip in storage.trees[id];
      tip := versionTip;
      var versions := storage.trees[id][versionTip];
      if versions == [] || versions[0].id !in storage.blobs {
        return ParsingError, null, tip;
      }
      var encryptedDataMap := versions[0].id;
      if encryptedDataMap.parentKey != parentId || encryptedDataMap.directoryKey != id {
        return ParsingError, null, tip;
      }
      var parsed := DS.ParseChildren(encryptedDataMap.listing.children);
      if parsed.None? {
        return ParsingError, null, tip;
      }
      directory := new Directory.Load(parentId, encryptedDataMap.listing, parsed.value, versions);
      r := Done;
      if StoredAs(storage.trees, storage.blobs, id, node) && node.parent == parentId && DS.Storable(node.children) {
        DS.ListingRoundTrip(node.children);
      }
    }

    /** One turn of Get's second loop: the directory for a child of a cached directory. */
    method Descend(antecedent: Path, name: Name) returns (r: Outcome, directory: Directory?)
      requires Valid() && antecedent in cache && antecedent + [name] !in cache && IsPath(antecedent + [name])
      modifies this`cache
      ensures Valid()
      ensures r == ToOutcome(Walk(tree, rootParentId, antecedent + [name]))
      ensures match Lookup(old(cache[antecedent].children), name)
        case None => r == Outcome.NoSuchFile
        case Some(m) => r == if m.directoryId.None? then Outcome.InvalidParameter else Done
      ensures r == Done ==>
        directory != null && fresh(directory) && cache == old(cache)[antecedent + [name] := directory]
      ensures r != Done ==> cache == old(cache)
    {
      hide Coherent, Distinct;
      var next := antecedent + [name];
      var parent := cache[antecedent];
      ghost var c, trees, blobs := Snapshot(), storage.trees, storage.blobs;
      NextStep(c, trees, blobs, tree, rootParentId, antecedent, name);
      var file := parent.GetChild(name);
      if file.None? {
        return Outcome.NoSuchFile, null;
      }
      if file.value.directoryId.None? {
        return Outcome.InvalidParameter, null;
      }
      UncachedIsStored(c, trees, blobs, tree, rootParentId, next);
      ghost var node := tree[file.value.directoryId.value];
      ghost var tip;
      r, directory, tip := GetFromStorage(parent.directoryId, file.value.directoryId.value, node);
      LoadingKeepsCoherent(c, trees, blobs, tree, rootParentId, next, tip);
      cache := cache[next := directory];
      OneInserted(next, directory);
    }

    /** Get's first loop: the nearest antecedent in the cache. */
    method CachedAntecedent(relativePath: Path) returns (antecedent: Path)
      requires [] in cache
      ensures antecedent in cache && IsWithin(antecedent, relativePath)
      ensures forall i | |antecedent| < i <= |relativePath| :: relativePath[..i] !in cache
    {
      antecedent := relativePath;
      while antecedent !in cache
        invariant antecedent <= relativePath
        invariant forall i | |antecedent| < i <= |relativePath| :: relativePath[..i] !in cache
        decreases |antecedent|
      {
        assert antecedent == relativePath[..|antecedent|];
        antecedent := Parent(antecedent);
      }
    }

    /** Get: the cached directory, or the nearest cached antecedent and then the store. */
    method Get(relativePath: Path) returns (r: Outcome, directory: Directory?)
      requires Valid() && IsPath(relativePath)
      modifies this`cache
      ensures Valid()
      ensures r == ToOutcome(Walk(tree, rootParentId, relativePath))
      ensures r == Outcome.InvalidParameter <==> MeetsFile(tree, rootParentId, relativePath)
      ensures r == Outcome.NoSuchFile <==> MeetsNothing(tree, rootParentId, relativePath)
      ensures r == Done || r == Outcome.InvalidParameter || r == Outcome.NoSuchFile
      ensures r == Done ==> relativePath in cache && directory == cache[relativePath]
      ensures Gained(old(cache), cache, relativePath) && fresh(cache.Values - old(cache.Values))
      ensures forall q | IsWithin(q, relativePath) && Walk(tree, rootParentId, q).At? :: q in cache
    {
      hide *;
      FailsAs(tree, rootParentId, relativePath);
      RootIsCached();
      GainedNothing(cache, relativePath);
      if relativePath in cache {
        PrefixesCached(relativePath);
        return Done, cache[relativePath];
      }
      var antecedent := CachedAntecedent(relativePath);
      var pathItr := |antecedent|;
      while pathItr != |relativePath|
        invariant Valid() && pathItr <= |relativePath| && antecedent == relativePath[..pathItr] && antecedent in cache
        invariant forall i | pathItr < i <= |relativePath| :: relativePath[..i] !in cache
        invariant Gained(old(cache), cache, relativePath) && fresh(cache.Values - old(cache.Values))
      {
        var name := if pathItr == 0 then ROOT else relativePath[pathItr];
        var next := antecedent + [name];
        NextPath(relativePath, pathItr);
        ghost var before := cache;
        r, directory := Descend(antecedent, name);
        if r != Done {
          FailedPrefixes(relativePath, next);
          return r, null;
        }
        GainedOne(old(cache), before, relativePath, next, directory);
        pathItr, antecedent := pathItr + 1, next;
      }
      assert antecedent == relativePath;
      PrefixesCached(relativePath);
      r, directory := Done, cache[relativePath];
    }

    /** Drive::GetContext: what a path leads to. */
    method GetContext(relativePath: Path) returns (r: Outcome, file: Option<Meta>)
      requires Valid() && IsPath(relativePath) && relativePath != []
      modifies this`cache
      ensures Valid()
      ensures file == Resolve(tree, rootParentId, relativePath)
      ensures r == Done <==> file.Some?
      ensures r == Outcome.InvalidParameter <==> MeetsFile(tree, rootParentId, Parent(relativePath))
      ensures r == Outcome.NoSuchFile <==> MeetsNothing(tree, rootParentId, relativePath)
      ensures Gained(old(cache), cache, Parent(relativePath)) && fresh(cache.Values - old(cache.Values))
    {
      hide Valid, Walk, Gained, MeetsFile, MeetsNothing;
      FailsAs(tree, rootParentId, Parent(relativePath));
      EndsAs(tree, rootParentId, relativePath);
      var directory;
      file := None;
      r, directory := Get(Parent(relativePath));
      if r == Done {
        ListingOf(Parent(relativePath));
        file := directory.GetChild(FileName(relativePath));
        r := if file.Some? then Done else Outcome.NoSuchFile;
      }
    }

    lemma ListingOf(p: Path)
      requires Valid() && p in cache
      ensures Walk(tree, rootParentId, p) == At(cache[p].directoryId) && cache[p].directoryId in tree
      ensures tree[cache[p].directoryId].children == cache[p].children
    {
      CachedMatches(Snapshot(), storage.trees, storage.blobs, tree, rootParentId, p);
    }

    /** GetParent: the directory a path is in, and the directory that one's entry is in. The root's
        parent is nobody's entry, so it has no grandparent. */
    method GetParent(relativePath: Path) returns (r: Outcome, parent: Directory?, grandparent: Directory?)
      requires Valid() && IsPath(relativePath)
      modifies this`cache
      ensures Valid()
      ensures r == if |relativePath| < 2 then Outcome.NoSuchFile
        else ToOutcome(Walk(tree, rootParentId, Parent(relativePath)))
      ensures r == Outcome.InvalidParameter <==>
        |relativePath| >= 2 && MeetsFile(tree, rootParentId, Parent(relativePath))
      ensures r == Outcome.NoSuchFile <==> |relativePath| < 2 || MeetsNothing(tree, rootParentId, Parent(relativePath))
      ensures r == Done ==>
        && Parent(relativePath) in cache && parent == cache[Parent(relativePath)]
        && Parent(Parent(relativePath)) in cache && grandparent == cache[Parent(Parent(relativePath))]
      ensures Gained(old(cache), cache, Parent(relativePath)) && fresh(cache.Values - old(cache.Values))
    {
      hide Valid, Gained, Coherent, MeetsFile, MeetsNothing;
      var parentPath := Parent(relativePath);
      FailsAs(tree, rootParentId, parentPath);
      parent := null;
      r, grandparent := Get(Parent(parentPath));
      GainedTwice(old(cache), cache, cache, Parent(parentPath), parentPath) by { GainedNothing(cache, parentPath); }
      if r != Done {
        return;
      }
      ListingOf(Parent(parentPath));
      NoEmptyName(Parent(parentPath));
      var parentContext := grandparent.GetChild(FileName(parentPath));
      if parentContext.None? {
        return Outcome.NoSuchFile, null, null;
      }
      if parentContext.value.directoryId.None? {
        return Outcome.InvalidParameter, null, null;
      }
      ghost var before := cache;
      r, parent := Get(parentPath);
      GainedTwice(old(cache), before, cache, Parent(parentPath), parentPath);
      GainedKeeps(before, cache, parentPath, Parent(parentPath));
    }

    lemma NoEmptyName(p: Path)
      requires Valid() && p in cache
      ensures Lookup(cache[p].children, "").None?
    {
      ListingOf(p);
      TreeIsOk(Snapshot(), storage.trees, storage.blobs, tree, rootParentId);
      hide Coherent, Distinct;
      LookupMeans(cache[p].children, "");
    }

    // ----- adding and deleting -----

    /** Add's new directory goes into the cache first. */
    method CacheNewDirectory(p: Path, child: Meta)
      requires Distinct() && p in cache && WellFormed(child)
      modifies this`cache
      ensures Distinct() && fresh(cache.Values - old(cache.Values))
      ensures forall q | q in old(cache) && q != p + [child.name] :: q in cache && cache[q] == old(cache[q])
      ensures Snapshot() == var c := old(Snapshot());
        if child.directoryId.None? then c
        else c[p + [child.name] := DS.Created(c[p].directoryId, child.directoryId.value, 1)]
    {
      if IsDirectory(child) {
        var directory := new Directory.Create(cache[p].directoryId, child.directoryId.value);
        cache := cache[p + [child.name] := directory];
        OneInserted(p + [child.name], directory);
      }
    }

    method ScheduleAndAdd(p: Path, child: Meta) returns (r: Outcome)
      requires Distinct() && p in cache && Parent(p) in cache && p != Parent(p)
      modifies cache[p], cache[Parent(p)]
      ensures Distinct()
      ensures cache[Parent(p)].storeState == DS.Pending && cache[Parent(p)].waits == 1
      ensures r == Done ==> cache[p].storeState == DS.Pending && cache[p].waits == 1
      ensures var s := old(cache[p].children); var c := old(Snapshot());
        && r == (if Lookup(s, child.name).Some? then FileExists else Done)
        && Snapshot() == c[Parent(p) := DS.Schedule(c[Parent(p)])]
                          [p := if r == Done then DS.Change(c[p], Added(s, child)) else c[p]]
    {
      hide Distinct, Added, Lookup, DS.Schedule, DS.Change;
      DifferentDirectories(p);
      DifferentDirectories(Parent(p));
      cache[Parent(p)].ScheduleForStoring();
      OneChanged(Parent(p));
      label scheduled:
      r := cache[p].AddChild(child);
      OneChanged@scheduled(p);
    }

    /** Add, once the parent is there. */
    method AddToParent(p: Path, child: Meta) returns (r: Outcome)
      requires Distinct() && p in cache && Parent(p) in cache && p != []
      requires WellFormed(child)
      modifies this`cache, cache[p], cache[Parent(p)]
      ensures Distinct()
      ensures p in cache && Parent(p) in cache
      ensures cache[Parent(p)].storeState == DS.Pending && cache[Parent(p)].waits == 1
      ensures r == Done ==> cache[p].storeState == DS.Pending && cache[p].waits == 1
      ensures var s := old(cache[p].children);
        && r == (if Lookup(s, child.name).Some? then FileExists else Done)
        && Snapshot() == AddedCache(old(Snapshot()), p, if r == Done then Added(s, child) else s, child)
    {
      hide Distinct, Added, Lookup, DS.Schedule, DS.Change, DS.Created, AddedCache;
      ghost var c, s := Snapshot(), cache[p].children;
      PathsDiffer(p, child.name);
      CacheNewDirectory(p, child);
      ghost var c1 := Snapshot();
      r := ScheduleAndAdd(p, child);
      AddedIsMore(s, child);
      AddedCacheOrder(c, c1, p, if r == Done then Added(s, child) else s, child);
    }

    lemma DifferentDirectories(p: Path)
      requires Distinct() && p in cache
      ensures forall q | q in cache && q != p :: cache[q] != cache[p]
    {
    }

    method AddAt(p: Path, child: Meta) returns (r: Outcome)
      requires Valid() && p in cache && Parent(p) in cache && p != [] && IsNewEntry(child, storage.trees, tree)
      modifies this`cache, this`tree, cache[p], cache[Parent(p)]
      ensures p in cache && Parent(p) in cache
      ensures cache[Parent(p)].storeState == DS.Pending && cache[Parent(p)].waits == 1
      ensures r == Done ==> cache[p].storeState == DS.Pending && cache[p].waits == 1
      ensures old(cache[p].directoryId) in old(tree)
      ensures r == if LookupIn(old(tree), old(cache[p].directoryId), child.name).Some? then FileExists else Done
      ensures tree == if r == Done then PlainAdd(old(tree), old(cache[p].directoryId), child) else old(tree)
      ensures Valid() <==> if r == Done then Nameable(child.name) else !IsDirectory(child)
    {
      hide *;
      SnapshotIs();
      ListingOf(p);
      LookupInListing(tree, cache[p].directoryId, child.name);
      IsNewEntryIs(child, storage.trees, tree);
      ghost var c, t, id := Snapshot(), tree, cache[p].directoryId;
      r := AddToParent(p, child);
      if r == Done {
        WholeAddKeepsCoherent(c, storage.trees, storage.blobs, t, rootParentId, p, child);
        tree := PlainAdd(t, id, child);
        IsValid(AddedCache(c, p, Added(c[p].children, child), child));
      } else {
        AddOverExisting(c, storage.trees, storage.blobs, t, rootParentId, p, child);
        IsValid(AddedCache(c, p, c[p].children, child));
      }
    }

    lemma IsNewEntryIs(child: Meta, trees: Trees, t: Tree)
      requires IsNewEntry(child, trees, t)
      ensures WellFormed(child) && (IsDirectory(child) <==> child.directoryId.Some?)
    {
    }

    lemma IsValid(c: Cache)
      requires Distinct() && Snapshot() == c && rootParentId in tree && tree[rootParentId].parent == uniqueUserId
      ensures Valid() <==> Coherent(c, storage.trees, storage.blobs, tree, rootParentId)
    {
    }

    /** Add. A new directory of a name that is taken is left in the cache, and from then on the cache
        does not agree with the tree. */
    method Add(relativePath: Path, child: Meta) returns (r: Outcome)
      requires Valid() && IsPath(relativePath) && IsNewEntry(child, storage.trees, tree)
      requires |relativePath| >= 2 ==> child.name == FileName(relativePath)
      modifies this`cache, this`tree, cache.Values
      ensures var at := Walk(old(tree), rootParentId, Parent(relativePath));
        if |relativePath| < 2 then r == Outcome.NoSuchFile && tree == old(tree) && Valid()
        else if !at.At? then r == ToOutcome(at) && tree == old(tree) && Valid()
        else if LookupIn(old(tree), at.id, child.name).Some? then
          r == FileExists && tree == old(tree) && (Valid() <==> !IsDirectory(child))
        else
          && r == Done && at.id in old(tree) && tree == PlainAdd(old(tree), at.id, child)
          && (Valid() <==> Nameable(child.name))
      ensures r == Outcome.InvalidParameter <==>
        |relativePath| >= 2 && MeetsFile(old(tree), rootParentId, Parent(relativePath))
      ensures r == Outcome.NoSuchFile <==>
        |relativePath| < 2 || MeetsNothing(old(tree), rootParentId, Parent(relativePath))
      ensures r == FileExists <==> |relativePath| >= 2 && Resolve(old(tree), rootParentId, relativePath).Some?
      ensures r == Done || r == FileExists ==>
        var p := Parent(relativePath);
        && p in cache && Parent(p) in cache
        && cache[Parent(p)].storeState == DS.Pending && cache[Parent(p)].waits == 1
        && (r == Done ==> cache[p].storeState == DS.Pending && cache[p].waits == 1)
      ensures r == Done ==>
        && Resolve(tree, rootParentId, relativePath) == Some(child)
        && AlikeOutside(old(tree), tree, rootParentId, relativePath)
        && (child.directoryId.Some? ==>
              child.directoryId.value in tree && tree[child.directoryId.value].children == [])
    {
      hide Valid, Coherent, Distinct, Walk, PlainAdd, LookupIn, IsNewEntry, Gained, MeetsFile, MeetsNothing, Resolve;
      FailsAs(tree, rootParentId, Parent(relativePath));
      if relativePath != [] { EndsAs(tree, rootParentId, relativePath); }
      var parent, grandparent;
      r, parent, grandparent := GetParent(relativePath);
      if r == Done {
        ListingOf(Parent(relativePath));
        AddIsSeen(relativePath, child);
        r := AddAt(Parent(relativePath), child);
      }
    }

    lemma AddIsSeen(p: Path, child: Meta)
      requires Valid() && |p| >= 2 && Parent(p) in cache && child.name == FileName(p)
      requires IsNewEntry(child, storage.trees, tree)
      ensures cache[Parent(p)].directoryId in tree
      ensures Resolve(tree, rootParentId, p).None? ==>
        var u := PlainAdd(tree, cache[Parent(p)].directoryId, child);
        && Resolve(u, rootParentId, p) == Some(child) && AlikeOutside(tree, u, rootParentId, p)
        && (child.directoryId.Some? ==>
              child.directoryId.value in u && u[child.directoryId.value].children == [])
    {
      hide Resolve, PlainAdd, AlikeOutside, Coherent, Distinct, Walk;
      ListingOf(Parent(p));
      SnapshotIs();
      TreeIsOk(Snapshot(), storage.trees, storage.blobs, tree, rootParentId);
      if Resolve(tree, rootParentId, p).None? { AddedIsSeen(tree, rootParentId, p, child); }
    }

    lemma DeleteIsSeen(p: Path)
      requires Valid() && |p| >= 2 && Parent(p) in cache && Resolve(tree, rootParentId, p).Some?
      requires LookupIn(tree, cache[Parent(p)].directoryId, FileName(p)).Some?
      ensures var u := PlainRemove(tree, cache[Parent(p)].directoryId, FileName(p));
        && Resolve(u, rootParentId, p) == None && AlikeOutside(tree, u, rootParentId, p)
        && forall below: Path :: Walk(u, rootParentId, p + below) == Walked.NoSuchFile
    {
      hide Resolve, PlainRemove, AlikeOutside, Coherent, Distinct, Walk;
      ListingOf(Parent(p));
      SnapshotIs();
      TreeIsOk(Snapshot(), storage.trees, storage.blobs, tree, rootParentId);
      RemovedIsSeen(tree, rootParentId, p);
    }

    lemma UpdateIsSeen(p: Path, dataMap: DataMap, size: nat)
      requires Valid() && p != [] && Parent(p) in cache
      ensures cache[Parent(p)].directoryId in tree
      ensures Resolve(tree, rootParentId, p).Some? && !IsDirectory(Resolve(tree, rootParentId, p).value) ==>
        var u := PlainUpdate(tree, cache[Parent(p)].directoryId, FileName(p), dataMap, size);
        && Resolve(u, rootParentId, p)
             == Some(Resolve(tree, rootParentId, p).value.(dataMap := Some(dataMap), size := size))
        && AlikeOutside(tree, u, rootParentId, p)
    {
      hide Resolve, PlainUpdate, AlikeOutside, Coherent, Distinct, Walk;
      ListingOf(Parent(p));
      SnapshotIs();
      TreeIsOk(Snapshot(), storage.trees, storage.blobs, tree, rootParentId);
      if Resolve(tree, rootParentId, p).Some? && !IsDirectory(Resolve(tree, rootParentId, p).value) {
        UpdatedIsSeen(tree, rootParentId, p, dataMap, size);
      }
    }

    /** One entry is no longer in the cache, and nothing else has changed. */
    twostate lemma OneErased(p: Path)
      requires old(Distinct()) && cache == old(cache) - {p}
      requires forall q | q in cache :: unchanged(cache[q])
      ensures Distinct() && Snapshot() == old(Snapshot()) - {p}
    {
    }

    /** The child of a cached directory goes, and its own entry in the cache with it. Delete erases
        the entry first and PrepareNewPath last; a file has none. */
    method RemoveAt(p: Path, name: Name)
      requires Valid() && p in cache && Lookup(cache[p].children, name).Some?
      modifies this`cache, this`tree, cache[p]
      ensures cache == old(cache) - {p + [name]}
      ensures LookupIn(old(tree), old(cache[p].directoryId), name).Some?
      ensures tree == PlainRemove(old(tree), old(cache[p].directoryId), name)
      ensures Valid() <==> forall q | q in old(cache) && IsWithin(p + [name], q) :: q == p + [name]
    {
      hide *;
      SnapshotIs();
      ListingOf(p);
      LookupInListing(tree, cache[p].directoryId, name);
      LookupFinds(cache[p].children, name);
      DifferentDirectories(p);
      ghost var c, t, id := Snapshot(), tree, cache[p].directoryId;
      var path := p + [name];
      assert path != p;
      cache := cache - {path};
      OneErased(path);
      label erased:
      var r, file := cache[p].RemoveChild(name);
      OneChanged@erased(p);
      RemovedCacheIs(c, p, name);
      tree := PlainRemove(t, id, name);
      RemovedIsValid(c, t, p, name);
    }

    lemma RemovedCacheIs(c: Cache, p: Path, name: Name)
      requires p in c && Find(c[p].children, name) < |c[p].children|
      ensures RemovedCache(c, p, name)
        == (c - {p + [name]})[p := DS.Change(c[p], Removed(c[p].children, Find(c[p].children, name)))]
    {
    }

    lemma RemovedKeys(c: Cache, p: Path, name: Name)
      requires p in c && Find(c[p].children, name) < |c[p].children|
      ensures RemovedCache(c, p, name).Keys == c.Keys - {p + [name]} && p != p + [name]
    {
      hide Find, Removed, DS.Change;
      assert |p| < |p + [name]|;
    }

    lemma SnapshotKeys()
      ensures Snapshot().Keys == cache.Keys
    {
    }

    lemma RemovedIsValid(c: Cache, t: Tree, p: Path, name: Name)
      requires Coherent(c, storage.trees, storage.blobs, t, rootParentId) && p in c
      requires LookupIn(t, c[p].directoryId, name).Some?
      requires Find(c[p].children, name) < |c[p].children| && c[p].directoryId in t
      requires rootParentId in t && t[rootParentId].parent == uniqueUserId
      requires Distinct() && Snapshot() == RemovedCache(c, p, name) && tree == PlainRemove(t, c[p].directoryId, name)
      ensures Valid() <==> forall q | q in c && IsWithin(p + [name], q) :: q == p + [name]
    {
      var path := p + [name];
      hide *;
      if forall q | q in c && IsWithin(path, q) :: q == path {
        RemoveKeepsCoherent(c, storage.trees, storage.blobs, t, rootParentId, p, name);
        IsValid(RemovedCache(c, p, name));
      } else {
        var q :| q in c && IsWithin(path, q) && q != path;
        RemovedKeys(c, p, name);
        SnapshotKeys();
        assert path !in RemovedCache(c, p, name).Keys && q in RemovedCache(c, p, name).Keys;
        NotValid(path, q);
      }
    }

    lemma NotValid(p: Path, q: Path)
      requires p !in cache && q in cache && IsWithin(p, q)
      ensures !Valid()
    {
      OrphanIsIncoherent(Snapshot(), storage.trees, storage.blobs, tree, rootParentId, p, q);
    }

    /** Delete. If other directories below it are cached, they stay, and the cache does not agree with
        the tree any more. */
    method Delete(relativePath: Path) returns (r: Outcome)
      requires Valid() && IsPath(relativePath)
      modifies this`cache, this`tree, cache.Values
      ensures var at := Walk(old(tree), rootParentId, Parent(relativePath));
        if |relativePath| < 2 then r == Outcome.NoSuchFile && tree == old(tree) && Valid()
        else if !at.At? then r == ToOutcome(at) && tree == old(tree) && Valid()
        else if LookupIn(old(tree), at.id, FileName(relativePath)).None? then
          r == Outcome.NoSuchFile && tree == old(tree) && Valid()
        else
          && r == Done && at.id in old(tree) && tree == PlainRemove(old(tree), at.id, FileName(relativePath))
          && (Valid() <==> forall q | q in old(cache) && IsWithin(relativePath, q) :: q == relativePath)
      ensures r == Outcome.InvalidParameter <==>
        |relativePath| >= 2 && MeetsFile(old(tree), rootParentId, Parent(relativePath))
      ensures r == Outcome.NoSuchFile <==> |relativePath| < 2 || MeetsNothing(old(tree), rootParentId, relativePath)
      ensures r == Done <==> |relativePath| >= 2 && Resolve(old(tree), rootParentId, relativePath).Some?
      ensures r == Done ==>
        && Resolve(tree, rootParentId, relativePath) == None
        && AlikeOutside(old(tree), tree, rootParentId, relativePath)
        && forall below: Path :: Walk(tree, rootParentId, relativePath + below) == Walked.NoSuchFile
    {
      hide Valid, Coherent, Distinct, Walk, PlainRemove, LookupIn, Gained, Lookup, MeetsFile, MeetsNothing, Resolve;
      FailsAs(tree, rootParentId, Parent(relativePath));
      if relativePath != [] { EndsAs(tree, rootParentId, relativePath); }
      var parent, grandparent;
      r, parent, grandparent := GetParent(relativePath);
      if r != Done {
        return;
      }
      var p, name := Parent(relativePath), FileName(relativePath);
      assert relativePath == p + [name];
      ListingOf(p);
      LookupInListing(tree, cache[p].directoryId, name);
      var file := parent.GetChild(name);
      if file.None? {
        return Outcome.NoSuchFile;
      }
      ghost var before := cache;
      GainedTwice(old(cache), before, before, p, relativePath) by { GainedNothing(before, relativePath); }
      if IsDirectory(file.value) {
        DirectoryIsFound(p, name);
        var directory;
        r, directory := Get(relativePath);
        assert r == Done;
        GainedKeeps(before, cache, relativePath, p);
        GainedTwice(old(cache), before, cache, p, relativePath);
      }
      GainedBelow(old(cache), cache, relativePath);
      ListingOf(p);
      DeleteIsSeen(relativePath);
      RemoveAt(p, name);
      r := Done;
    }

    method UpdateAt(p: Path, name: Name, dataMap: DataMap, size: nat) returns (r: Outcome)
      requires Valid() && p in cache
      modifies this`tree, cache[p]
      ensures Valid() && cache[p].directoryId in old(tree)
      ensures match LookupIn(old(tree), cache[p].directoryId, name)
        case None => r == Outcome.NoSuchFile && tree == old(tree)
        case Some(m) =>
          if IsDirectory(m) then r == Outcome.InvalidParameter && tree == old(tree)
          else r == Done && tree == PlainUpdate(old(tree), cache[p].directoryId, name, dataMap, size)
    {
      hide *;
      SnapshotIs();
      ListingOf(p);
      LookupInListing(tree, cache[p].directoryId, name);
      DifferentDirectories(p);
      ghost var c, t, id := Snapshot(), tree, cache[p].directoryId;
      r := cache[p].UpdateChild(name, dataMap, size);
      OneChanged(p);
      if r == Done {
        UpdateKeepsCoherent(c, storage.trees, storage.blobs, t, rootParentId, p, name, dataMap, size);
        tree := PlainUpdate(t, id, name, dataMap, size);
        IsValid(c[p := DS.Change(c[p], Updated(c[p].children, name, dataMap, size))]);
      } else {
        assert Snapshot() == c;
        IsValid(c);
      }
    }

    /** A child file is written to or truncated, and schedules its parent. */
    method UpdateFile(relativePath: Path, dataMap: DataMap, size: nat) returns (r: Outcome)
      requires Valid() && IsPath(relativePath) && relativePath != []
      modifies this`cache, this`tree, cache.Values
      ensures Valid()
      ensures var at := Walk(old(tree), rootParentId, Parent(relativePath));
        if !at.At? then r == ToOutcome(at) && tree == old(tree)
        else match LookupIn(old(tree), at.id, FileName(relativePath))
          case None => r == Outcome.NoSuchFile && tree == old(tree)
          case Some(m) =>
            if IsDirectory(m) then r == Outcome.InvalidParameter && tree == old(tree)
            else
              && r == Done && at.id in old(tree)
              && tree == PlainUpdate(old(tree), at.id, FileName(relativePath), dataMap, size)
      ensures var file := Resolve(old(tree), rootParentId, relativePath);
        && (r == Outcome.InvalidParameter <==>
              MeetsFile(old(tree), rootParentId, Parent(relativePath)) || (file.Some? && IsDirectory(file.value)))
        && (r == Outcome.NoSuchFile <==> MeetsNothing(old(tree), rootParentId, relativePath))
        && (r == Done <==> file.Some? && !IsDirectory(file.value))
        && (r == Done ==>
              Resolve(tree, rootParentId, relativePath) == Some(file.value.(dataMap := Some(dataMap), size := size))
              && AlikeOutside(old(tree), tree, rootParentId, relativePath))
    {
      hide Valid, Walk, LookupIn, Gained, PlainUpdate, MeetsFile, MeetsNothing, Resolve;
      FailsAs(tree, rootParentId, Parent(relativePath));
      EndsAs(tree, rootParentId, relativePath);
      var directory;
      r, directory := Get(Parent(relativePath));
      if r == Done {
        ListingOf(Parent(relativePath));
        UpdateIsSeen(relativePath, dataMap, size);
        r := UpdateAt(Parent(relativePath), FileName(relativePath), dataMap, size);
      }
    }

    // ----- renaming -----

    /** The loop at the end of Rename. */
    method RekeyCache(src: Path, dst: Path)
      requires |src| >= 2 && |dst| >= 2 && IsPath(src) && IsPath(dst) && R.AllPaths(cache)
      requires !R.Chasing(src, dst, cache)
      modifies this`cache
      ensures R.Rekeyed(src, dst, old(cache), cache)
    {
      hide R.Chaseless, R.Ahead, R.Size;
      ghost var c, n := cache, 0;
      R.StartsChaseless(src, dst, c);
      var itr := R.LowerBound(cache.Keys, src);
      while itr.At? && Covers(src, itr.key)
        invariant R.Cursor(cache, itr) == R.Run(src, dst, c, n) && R.Chaseless(src, dst, R.Cursor(cache, itr))
        decreases R.Size(R.Ahead(src, R.Cursor(cache, itr)))
      {
        R.StepChaseless(src, dst, R.Cursor(cache, itr));
        var key := itr.key;
        var newPath := Retarget(src, dst, key);
        if newPath !in cache {
          cache := cache[newPath := cache[key]];
        }
        cache := cache - {key};
        itr := R.Next(cache.Keys, key);
        n := n + 1;
      }
    }

    /** The wait for a directory's handlers, while they run on other threads. */
    method WaitForHandlers(directory: Directory)
      requires Storing(directory.State(), storage.trees)
      modifies directory, storage
      ensures directory.State().pendingCount == 0
      ensures Waited(old(directory.State()), directory.State()) && Storing(directory.State(), storage.trees)
      ensures old(storage.blobs) <= storage.blobs
      ensures forall id | id != directory.directoryId :: id in storage.trees <==> id in old(storage.trees)
      ensures forall id | id != directory.directoryId && id in storage.trees ::
        storage.trees[id] == old(storage.trees[id])
    {
      var pending := directory.HasPending();
      while pending
        invariant pending <==> directory.State().pendingCount != 0
        invariant Waited(old(directory.State()), directory.State()) && Storing(directory.State(), storage.trees)
        invariant old(storage.blobs) <= storage.blobs
        invariant forall id | id != directory.directoryId :: id in storage.trees <==> id in old(storage.trees)
        invariant forall id | id != directory.directoryId && id in storage.trees ::
          storage.trees[id] == old(storage.trees[id])
        decreases DS.Measure(directory.State())
      {
        RunOneHandler(directory);
        pending := directory.HasPending();
      }
    }

    method RunOneHandler(directory: Directory)
      requires Storing(directory.State(), storage.trees) && directory.State().pendingCount != 0
      modifies directory, storage
      ensures Waited(old(directory.State()), directory.State()) && Storing(directory.State(), storage.trees)
      ensures DS.Measure(directory.State()) < DS.Measure(old(directory.State()))
      ensures old(storage.blobs) <= storage.blobs
      ensures forall id | id != directory.directoryId :: id in storage.trees <==> id in old(storage.trees)
      ensures forall id | id != directory.directoryId && id in storage.trees ::
        storage.trees[id] == old(storage.trees[id])
    {
      hide Waited, OneChain;
      ghost var d := directory.State();
      if
      case directory.waits > 0 =>
        directory.TimerExpires();
        QuietWaits(d, directory.State(), storage.trees);
      case directory.aborted > 0 =>
        directory.RunAborted();
        QuietWaits(d, directory.State(), storage.trees);
      case directory.fired > 0 =>
        directory.RunFired(storage);
        PutWaits(d, directory.State(), storage.trees);
    }

    /** The block of RenameDifferentParent for a directory, once that has been found in the cache. */
    method MoveDirectory(src: Path, dst: Path, parentId: DirectoryId)
      requires src in cache && dst !in cache && StoreOk(cache[src].State(), storage.trees, storage.blobs)
      modifies this`cache, cache[src], storage
      ensures cache == (old(cache) - {src})[dst := old(cache[src])]
      ensures IsMoved(old(cache[src].State()), old(cache[src]).State(), parentId, storage.trees, storage.blobs)
      ensures old(storage.blobs) <= storage.blobs
      ensures var moved := old(cache[src]).directoryId;
        && (forall id | id != moved :: id in storage.trees <==> id in old(storage.trees))
        && (forall id | id != moved && id in storage.trees :: storage.trees[id] == old(storage.trees[id]))
    {
      var directory := cache[src];
      ghost var d := directory.State();
      directory.SetNewParent(parentId);
      NewParentStores(d, parentId, storage.trees, storage.blobs);
      WaitForHandlers(directory);
      WaitedIsMoved(d, parentId, directory.State(), storage.trees, storage.blobs);
      hide IsMoved, Waited, Storing, StoreOk;
      cache := cache - {src};
      cache := cache[dst := directory];
      directory.ScheduleForStoring();
    }

    /** PrepareNewPath, for a path whose parent is cached. */
    method PrepareNewPath(newPath: Path) returns (r: Outcome)
      requires Valid() && IsPath(newPath) && |newPath| >= 2 && Parent(newPath) in cache
      modifies this`cache, this`tree, cache[Parent(newPath)]
      ensures Valid() && old(cache[Parent(newPath)].directoryId) in old(tree)
      ensures r == if Blocks(windows, old(tree), old(cache[Parent(newPath)].directoryId), FileName(newPath))
        then FileExists else Done
      ensures r == FileExists <==>
        match Lookup(old(cache[Parent(newPath)].children), FileName(newPath))
        case None => false
        case Some(m) =>
          m.directoryId.Some?
          && (windows || (m.directoryId.value in old(tree) && old(tree)[m.directoryId.value].children != []))
      ensures r == FileExists ==> tree == old(tree)
      ensures r == Done ==> cache == old(cache) - {newPath}
      ensures r == Done ==> tree == Cleared(old(tree), old(cache[Parent(newPath)].directoryId), FileName(newPath))
    {
      hide Valid, Coherent, Distinct, Walk, PlainRemove, LookupIn, Lookup;
      var p, name := Parent(newPath), FileName(newPath);
      assert newPath == p + [name];
      ListingOf(p);
      LookupInListing(tree, cache[p].directoryId, name);
      TreeIsOk(Snapshot(), storage.trees, storage.blobs, tree, rootParentId) by { SnapshotIs(); }
      BlocksIs(windows, tree, rootParentId, cache[p].directoryId, name);
      var child := cache[p].GetChild(name);
      if child.Some? && IsDirectory(child.value) {
        if windows {
          return FileExists;
        }
        r := ReplaceDirectory(p, name);
      } else {
        NothingAt(p, name);
        assert cache == cache - {newPath};
        if child.Some? {
          RemoveAt(p, name);
        }
        r := Done;
      }
    }

    method ReplaceDirectory(p: Path, name: Name) returns (r: Outcome)
      requires Valid() && p in cache && IsPath(p + [name])
      requires Lookup(cache[p].children, name).Some? && IsDirectory(Lookup(cache[p].children, name).value)
      modifies this`cache, this`tree, cache[p]
      ensures Valid() && old(cache[p].directoryId) in old(tree)
      ensures r == if IsFullDirectory(old(tree), old(cache[p].directoryId), name) then FileExists else Done
      ensures r == FileExists ==> tree == old(tree)
      ensures r == Done ==> cache == old(cache) - {p + [name]}
      ensures r == Done ==> LookupIn(old(tree), old(cache[p].directoryId), name).Some?
      ensures r == Done ==> tree == PlainRemove(old(tree), old(cache[p].directoryId), name)
    {
      hide *;
      var newPath := p + [name];
      ghost var before := cache;
      PrefixesCached(p);
      DirectoryIsFound(p, name);
      var directory;
      r, directory := Get(newPath);
      ParentOfNext(p, name);
      GainedKeeps(before, cache, newPath, p);
      OnlyGained(before, cache, newPath);
      ListingOf(p);
      CachedIsFull(p, name);
      var isEmpty := directory.Empty();
      if !isEmpty {
        return FileExists;
      }
      EmptyIsLeaf(newPath);
      RemoveAt(p, name);
      r := Done;
    }

    /** RenameDifferentParent's removal of the child from its old parent. */
    method RemoveSource(src: Path) returns (r: Outcome, file: Option<Meta>)
      requires Valid() && src != [] && Parent(src) in cache
      modifies cache[Parent(src)]
      ensures file == Lookup(old(cache[Parent(src)].children), FileName(src)) && Distinct()
      ensures file.None? ==> r == Outcome.NoSuchFile && Valid()
      ensures file.Some? ==> r == Done && Snapshot() == WithoutSource(old(Snapshot()), src)
    {
      hide Coherent, Distinct, Lookup, Removed, DS.Change;
      var p := Parent(src);
      ghost var c := Snapshot();
      ListingOf(p);
      assert rootParentId in tree && tree[rootParentId].parent == uniqueUserId;
      DifferentDirectories(p);
      hide Valid;
      r, file := cache[p].RemoveChild(FileName(src));
      OneChanged(p);
      if r != Done {
        assert Snapshot() == c;
        IsValid(c);
      }
    }

    /** A directory that is not in the cache is not found any more once its entry has gone, and so the
        rename loses it. */
    method LoseDirectory(src: Path, ghost c: Cache) returns (r: Outcome)
      requires Distinct() && Coherent(c, storage.trees, storage.blobs, tree, rootParentId)
      requires rootParentId in tree && tree[rootParentId].parent == uniqueUserId
      requires IsPath(src) && src != [] && Parent(src) in cache && src !in cache
      requires Parent(src) in c && src !in c && Find(c[Parent(src)].children, FileName(src)) < |c[Parent(src)].children|
      requires Snapshot() == WithoutSource(c, src)
      modifies this`cache, this`tree
      ensures Valid() && r == Outcome.NoSuchFile
      ensures c[Parent(src)].directoryId in old(tree)
      ensures LookupIn(old(tree), c[Parent(src)].directoryId, FileName(src)).Some?
      ensures tree == PlainRemove(old(tree), c[Parent(src)].directoryId, FileName(src))
    {
      hide *;
      ghost var p, name := Parent(src), FileName(src);
      SourceIsRemoved(c, storage.trees, storage.blobs, tree, rootParentId, src);
      tree := PlainRemove(tree, c[p].directoryId, name);
      IsValid(RemovedCache(c, p, name));
      var directory;
      r, directory := Get(src);
      ToOutcomeIs(Walk(tree, rootParentId, src));
    }

    /** RenameDifferentParent on the child's own directory, if it is one. */
    method MoveIfDirectory(src: Path, dst: Path, file: Meta, parentId: DirectoryId)
      requires Distinct() && dst !in cache && (IsDirectory(file) <==> src in cache)
      requires src in cache ==> StoreOk(cache[src].State(), storage.trees, storage.blobs)
      modifies this`cache, (if src in cache then {cache[src]} else {}), storage
      ensures cache == ByHand(old(cache), src, dst)
      ensures OnlyStored(old(Snapshot()), src, old(storage.trees), old(storage.blobs), storage.trees, storage.blobs)
      ensures src in old(cache) ==>
        IsMoved(old(cache[src].State()), old(cache[src]).State(), parentId, storage.trees, storage.blobs)
      ensures StatesOf(old(cache)) == if src in old(cache) then old(Snapshot())[src := old(cache[src]).State()]
        else old(Snapshot())
    {
      hide StoreOk, IsMoved;
      if IsDirectory(file) {
        MoveDirectory(src, dst, parentId);
      }
    }

    /** The child joins a directory, which one of these is. */
    method AddChildTo(ghost c: map<Path, Directory>, p: Path, directory: Directory, child: Meta)
      requires AreDistinct(c) && p in c && c[p] == directory && Lookup(directory.children, child.name).None?
      modifies directory
      ensures StatesOf(c) == old(StatesOf(c))[p := DS.Change(old(directory.State()),
                                                             Added(old(directory.children), child))]
    {
      hide Lookup, Added, Sort, DS.Change;
      assert forall q | q in c && q != p :: c[q] != directory;
      var r := directory.AddChild(child);
      assert StatesOf(c) == old(StatesOf(c))[p := c[p].State()];
    }

    /** The rest of RenameDifferentParent, for a child that is found. */
    method JoinNewParent(src: Path, dst: Path, file: Meta)
      requires Distinct() && Apart(src, dst) && Parent(dst) in cache && dst !in cache
      requires IsDirectory(file) <==> src in cache
      requires src in cache ==> StoreOk(cache[src].State(), storage.trees, storage.blobs)
      requires Lookup(cache[Parent(dst)].children, FileName(dst)).None?
      modifies this`cache, cache.Values, storage
      ensures cache == ByHand(old(cache), src, dst)
      ensures OnlyStored(old(Snapshot()), src, old(storage.trees), old(storage.blobs), storage.trees, storage.blobs)
      ensures src in old(cache) ==>
        IsMoved(old(cache[src].State()), old(cache[src]).State(), old(cache[Parent(dst)].directoryId), storage.trees,
                storage.blobs)
      ensures StatesOf(old(cache)) == Joined(old(Snapshot()), StatesOf(old(cache)), src, dst, file)
    {
      hide Lookup, Added, DS.Change, StoreOk, IsMoved, OnlyStored, ByHand;
      ParentsOutside(src, dst);
      ghost var c := cache;
      var newParent := cache[Parent(dst)];
      MoveIfDirectory(src, dst, file, newParent.directoryId);
      AddChildTo(c, Parent(dst), newParent, file.(name := FileName(dst)));
    }

    /** RenameDifferentParent, once both parents are cached. */
    method MoveAcross(src: Path, dst: Path) returns (r: Outcome)
      requires Valid() && Apart(src, dst) && IsPath(src) && Parent(src) != Parent(dst)
      requires Parent(src) in cache && Parent(dst) in cache && dst !in cache
      requires Lookup(cache[Parent(dst)].children, FileName(dst)).None?
      modifies this`cache, this`tree, cache.Values, storage
      ensures var id := old(cache[Parent(src)].directoryId);
        match FateOf(LookupIn(old(tree), id, FileName(src)), src in old(cache))
        case Missing =>
          r == Outcome.NoSuchFile && Valid() && tree == old(tree)
        case Lost =>
          r == Outcome.NoSuchFile && Valid() && id in old(tree) && tree == PlainRemove(old(tree), id, FileName(src))
        case Movable =>
          && r == Done && tree == old(tree) && cache == ByHand(old(cache), src, dst)
          && HasSource(old(Snapshot()), src, dst)
          && Crossed(old(Snapshot()), StatesOf(old(cache)), src, dst, old(storage.trees), old(storage.blobs),
                     storage.trees, storage.blobs)
    {
      hide *;
      ghost var c, d := cache, Snapshot();
      ghost var trees, blobs := storage.trees, storage.blobs;
      SnapshotIs();
      BeforeCrossing(src, dst);
      ApartIs(src, dst);
      var file;
      r, file := RemoveSource(src);
      FateIs(file, src in c);
      if r == Done && IsDirectory(file.value) && src !in cache {
        r := LoseDirectory(src, d);
      } else if r == Done {
        AfterRemoval(src, dst, d);
        JoinNewParent(src, dst, file.value);
        StatesKeys(c);
        CrossedIs(d, StatesOf(c), src, dst, file.value, trees, blobs, storage.trees, storage.blobs);
      }
    }

    lemma StatesKeys(c: map<Path, Directory>)
      ensures StatesOf(c).Keys == c.Keys
      ensures forall p | p in c :: StatesOf(c)[p] == c[p].State()
    {
    }

    lemma SnapshotIs()
      requires Valid()
      ensures Distinct()
      ensures Coherent(Snapshot(), storage.trees, storage.blobs, tree, rootParentId)
      ensures rootParentId in tree && tree[rootParentId].parent == uniqueUserId
      ensures Snapshot().Keys == cache.Keys
      ensures forall p | p in cache :: Snapshot()[p] == cache[p].State()
      ensures forall p | p in cache ::
        Snapshot()[p].children == cache[p].children && Snapshot()[p].directoryId == cache[p].directoryId
      ensures forall p | p in cache :: Snapshot()[p].pendingCount == cache[p].pendingCount
    {
      hide Coherent, Distinct;
    }

    lemma BeforeCrossing(src: Path, dst: Path)
      requires Valid() && Apart(src, dst) && Parent(src) in cache && Parent(dst) in cache
      ensures var s := cache[Parent(src)].children; var name := FileName(src);
        && cache[Parent(src)].directoryId in tree
        && LookupIn(tree, cache[Parent(src)].directoryId, name) == Lookup(s, name)
        && (src in cache ==> Lookup(s, name).Some? && IsDirectory(Lookup(s, name).value))
        && (Lookup(s, name).Some? ==> Find(s, name) < |s| && HasSource(Snapshot(), src, dst))
      ensures src in cache ==> StoreOk(cache[src].State(), storage.trees, storage.blobs)
    {
      hide Valid, Coherent, StoreOk, Find;
      ListingOf(Parent(src));
      if src in cache {
        CachedOk(src);
        CachedIsDirectory(src);
      }
      SnapshotIs();
    }

    lemma CachedIsDirectory(src: Path)
      requires Valid() && src in cache && Parent(src) in cache && src != []
      ensures var file := Lookup(cache[Parent(src)].children, FileName(src)); file.Some? && IsDirectory(file.value)
    {
      hide Valid, Coherent, Lookup;
      assert src == Parent(src) + [FileName(src)];
      var file := Lookup(cache[Parent(src)].children, FileName(src));
      if file.None? || !IsDirectory(file.value) {
        NothingAt(Parent(src), FileName(src));
      }
    }

    lemma AfterRemoval(src: Path, dst: Path, d: Cache)
      requires Apart(src, dst) && Parent(src) != Parent(dst) && Parent(dst) in cache
      requires HasSource(d, src, dst) && Snapshot() == WithoutSource(d, src)
      ensures Parent(dst) in d && Parent(dst) in WithoutSource(d, src)
      ensures cache[Parent(dst)].children == d[Parent(dst)].children
      ensures cache[Parent(dst)].directoryId == d[Parent(dst)].directoryId
      ensures src in cache ==> src in d && cache[src].State() == d[src]
    {
      hide DS.Change, Removed;
      ParentsOutside(src, dst);
      assert Parent(dst) in Snapshot() && Snapshot()[Parent(dst)] == cache[Parent(dst)].State();
      assert src in cache ==> src in Snapshot() && Snapshot()[src] == cache[src].State();
    }

    /** RenameChild, once the parent is cached. */
    method RenameWithin(src: Path, dst: Path) returns (r: Outcome)
      requires Valid() && Parent(src) == Parent(dst) && Parent(dst) in cache
      requires Lookup(cache[Parent(dst)].children, FileName(dst)).None?
      modifies cache[Parent(dst)]
      ensures Lookup(old(cache[Parent(dst)].children), FileName(src)).None? ==> r == Outcome.NoSuchFile && Valid()
      ensures Lookup(old(cache[Parent(dst)].children), FileName(src)).Some? ==>
        && r == Done && Distinct()
        && Snapshot() == WithinStates(old(Snapshot()), Parent(dst), FileName(src), FileName(dst))
    {
      hide Coherent, Distinct, Lookup, Renamed, DS.Change;
      var p := Parent(dst);
      ghost var c := Snapshot();
      SnapshotIs();
      DifferentDirectories(p);
      hide Valid;
      r := cache[p].RenameChild(FileName(src), FileName(dst));
      OneChanged(p);
      if r != Done {
        assert Snapshot() == c;
        IsValid(c);
      }
    }

    /** The end of Rename; c is the cache from before the directory has been moved by hand. */
    method FinishRename(src: Path, dst: Path, ghost c: map<Path, Directory>, ghost t: Tree, ghost u: Tree)
      requires AreDistinct(c) && Apart(src, dst) && |src| >= 2 && |dst| >= 2 && IsPath(src) && IsPath(dst)
      requires forall k | k in c :: IsPath(k) && !IsWithin(dst, k)
      requires RekeyEnds(c.Keys, src, dst)
      requires cache == c || (Parent(src) != Parent(dst) && cache == ByHand(c, src, dst))
      requires TreeOk(t, rootParentId) && MovePaths(t, u, rootParentId, src, dst)
      requires forall k | k in c :: Walk(t, rootParentId, k) == At(c[k].directoryId)
      requires rootParentId in u && u[rootParentId].parent == uniqueUserId
      modifies this`cache, this`tree
      ensures tree == u && OutsidersLost(src, dst, c, cache)
      ensures Valid() <==>
        R.AllDropOut(src, dst, c.Keys)
        && Coherent(MovedWithout(StatesOf(c), src, dst, c.Keys), storage.trees, storage.blobs, u, rootParentId)
    {
      hide *;
      ghost var d := cache;
      BeforeRekey(src, dst, c);
      RekeyCache(src, dst);
      tree := u;
      AfterRekey(src, dst, c, d, cache);
      if R.AllDropOut(src, dst, c.Keys) {
        RekeyedStates(src, dst, c);
        IsValid(MovedWithout(StatesOf(c), src, dst, c.Keys));
      } else {
        NotDroppedIsInvalid(src, dst, c, t);
      }
    }

    lemma RekeyedStates(src: Path, dst: Path, c: map<Path, Directory>)
      requires AreDistinct(c) && Apart(src, dst) && |src| >= 2 && forall k | k in c :: !IsWithin(dst, k)
      requires cache == R.Moved(src, dst, c) - R.Outsiders(src, c.Keys)
      ensures Distinct() && Snapshot() == MovedWithout(StatesOf(c), src, dst, c.Keys)
    {
      hide R.Moved, AreDistinct;
      StatesMoved(c, src, dst);
      MovedDistinct(c, src, dst);
      StatesWithout(R.Moved(src, dst, c), R.Outsiders(src, c.Keys));
    }

    lemma NotDroppedIsInvalid(src: Path, dst: Path, c: map<Path, Directory>, t: Tree)
      requires |src| >= 2 && |dst| >= 2 && !R.OutsidersDropped(src, c, cache) && OutsidersLost(src, dst, c, cache)
      requires forall k | k in R.Outsiders(src, c.Keys) :: !IsWithin(k, dst) && !IsWithin(dst, k)
      requires TreeOk(t, rootParentId) && MovePaths(t, tree, rootParentId, src, dst)
      requires forall k | k in c :: Walk(t, rootParentId, k) == At(c[k].directoryId)
      ensures !Valid()
    {
      var k, j :| k in R.Outsiders(src, c.Keys) && j in cache && cache[j] == c[k];
      hide TreeOk, MovePaths, Walk, Coherent;
      if Valid() {
        TreeIsOk(Snapshot(), storage.trees, storage.blobs, tree, rootParentId);
        CachedMatches(Snapshot(), storage.trees, storage.blobs, tree, rootParentId, j);
        assert IsWithin(k, k) && k != dst;
        StrayDisagrees(t, tree, rootParentId, src, dst, k, j, c[k].directoryId);
      }
    }

    /** The outsiders that a rename's loop would carry away are all dropped from the cache and in the
        store. */
    ghost predicate OutsidersSettled(src: Path, dst: Path, keys: set<Path>)
      requires |src| >= 2 && |dst| >= 2 && IsPath(src) && IsPath(dst)
      reads this`tree, storage
    {
      && R.AllDropOut(src, dst, keys)
      && AreStored(R.Outsiders(src, keys), storage.trees, storage.blobs, tree, rootParentId)
    }

    lemma BeforeRekey(src: Path, dst: Path, c: map<Path, Directory>)
      requires |src| >= 2 && |dst| >= 2 && IsPath(dst) && RekeyEnds(c.Keys, src, dst)
      requires forall k | k in c :: IsPath(k)
      requires cache == c || (Parent(src) != Parent(dst) && cache == ByHand(c, src, dst))
      ensures R.AllPaths(cache) && !R.Chasing(src, dst, cache)
    {
      hide IsPath;
      EndsForRekey(c, src, dst);
    }

    lemma SnapshotOf(c: map<Path, Directory>)
      requires cache == c
      ensures Snapshot() == StatesOf(c) && (Distinct() <==> AreDistinct(c))
    {
    }

    lemma OutsidersSettledIs(src: Path, dst: Path, keys: set<Path>)
      requires |src| >= 2 && |dst| >= 2 && IsPath(src) && IsPath(dst)
      ensures OutsidersSettled(src, dst, keys) <==>
        (R.AllDropOut(src, dst, keys)
         && AreStored(R.Outsiders(src, keys), storage.trees, storage.blobs, tree, rootParentId))
    {
    }

    lemma SettledAlike(src: Path, dst: Path, keys: set<Path>, more: set<Path>)
      requires |src| >= 2 && |dst| >= 2 && IsPath(src) && IsPath(dst)
      requires R.Outsiders(src, more) == R.Outsiders(src, keys)
      requires (R.AllDropOut(src, dst, more) <==> R.AllDropOut(src, dst, keys))
      ensures OutsidersSettled(src, dst, more) <==> OutsidersSettled(src, dst, keys)
    {
    }

    lemma KeysArePaths()
      requires Valid()
      ensures AreDistinct(cache) && (forall k | k in cache :: IsPath(k)) && ClosedUnderParents(cache.Keys)
      ensures TreeOk(tree, rootParentId)
      ensures forall k | k in cache :: Walk(tree, rootParentId, k) == At(cache[k].directoryId)
    {
      forall k | k in cache ensures IsPath(k) && Walk(tree, rootParentId, k) == At(cache[k].directoryId) {
        assert EntryOk(k, Snapshot()[k], storage.trees, storage.blobs, tree, rootParentId);
      }
    }

    /** Rename within one directory, once that is cached and the target is clear. */
    method RenameInPlace(src: Path, dst: Path) returns (r: Outcome)
      requires Valid() && |src| >= 2 && |dst| >= 2 && IsPath(src) && IsPath(dst) && src != dst
      requires Parent(src) == Parent(dst) && Parent(dst) in cache && RekeyEnds(cache.Keys, src, dst)
      requires Lookup(cache[Parent(dst)].children, FileName(dst)).None?
      modifies this`cache, this`tree, cache[Parent(dst)]
      ensures match FateOfSource(old(tree), rootParentId, src, dst, src in old(cache))
        case SourceIsMissing(t) => r == Outcome.NoSuchFile && tree == t && Valid()
        case Moves(t) =>
          && r == Done && IsRenamed(t, tree, rootParentId, src, dst) && OutsidersLost(src, dst, old(cache), cache)
          && (Valid() <==> Nameable(FileName(dst)) && OutsidersSettled(src, dst, old(cache.Keys)))
        case _ => false
    {
      hide *;
      ghost var c, d, t, id := cache, Snapshot(), tree, cache[Parent(dst)].directoryId;
      SiblingsAreApart(src, dst);
      SnapshotIs();
      ListingOf(Parent(dst));
      KeysArePaths();
      LookupInListing(t, id, FileName(src));
      LookupInListing(t, id, FileName(dst));
      FreeNameIsUncached(dst);
      FateWithin(t, rootParentId, src, dst, id, src in c);
      r := RenameWithin(src, dst);
      if r == Done {
        OutsidersAreApart(c.Keys, src, dst);
        WithinKeepsCoherent(d, storage.trees, storage.blobs, t, rootParentId, src, dst);
        SnapshotOf(cache);
        FinishRename(src, dst, c, t, PlainMove(t, id, FileName(src), id, FileName(dst)));
        OutsidersSettledIs(src, dst, c.Keys);
      }
    }

    lemma CachedIsApart(src: Path, dst: Path)
      requires src != [] && dst != [] && !IsWithin(src, dst) && Parent(src) in cache
      requires forall k | k in cache :: !IsWithin(dst, k)
      ensures Apart(src, dst)
    {
      assert IsWithin(dst, src) && dst != src ==> IsWithin(dst, Parent(src));
    }

    lemma FileIsNoDirectory(src: Path)
      requires Valid() && src != [] && Parent(src) in cache
      ensures var file := Lookup(cache[Parent(src)].children, FileName(src));
        file.None? || !IsDirectory(file.value) ==> !Walk(tree, rootParentId, src).At?
    {
      hide Valid, Lookup, Walk;
      assert src == Parent(src) + [FileName(src)];
      var file := Lookup(cache[Parent(src)].children, FileName(src));
      if file.None? || !IsDirectory(file.value) {
        NothingAt(Parent(src), FileName(src));
      }
    }

    lemma DifferentFromParent(src: Path, dst: Path)
      requires Valid() && dst != [] && !IsWithin(src, dst) && Parent(dst) in cache
      ensures src in cache ==> cache[src] != cache[Parent(dst)]
    {
      hide Coherent;
      assert Parent(dst) <= dst;
    }

    lemma FreeNameIsUncached(dst: Path)
      requires Valid() && dst != [] && Parent(dst) in cache && Lookup(cache[Parent(dst)].children, FileName(dst)).None?
      ensures dst !in cache && forall k | k in cache :: !IsWithin(dst, k)
    {
      hide Valid, Lookup;
      assert dst == Parent(dst) + [FileName(dst)] && IsWithin(dst, dst);
      NothingAt(Parent(dst), FileName(dst));
    }

    /** Rename between two directories, once the new one is cached and the target is clear. */
    method RenameDifferentParent(src: Path, dst: Path) returns (r: Outcome)
      requires Valid() && |src| >= 2 && |dst| >= 2 && IsPath(src) && IsPath(dst) && !IsWithin(src, dst)
      requires Parent(src) != Parent(dst) && Parent(dst) in cache && RekeyEnds(cache.Keys, src, dst)
      requires Lookup(cache[Parent(dst)].children, FileName(dst)).None?
      modifies this`cache, this`tree, cache.Values, storage
      ensures match FateOfSource(old(tree), rootParentId, src, dst, src in old(cache))
        case SourceFails(at, t) => r == ToOutcome(at) && tree == t && Valid()
        case SourceIsMissing(t) => r == Outcome.NoSuchFile && tree == t && Valid()
        case SourceIsLost(id, t) =>
          && r == Outcome.NoSuchFile && Valid() && id in t && LookupIn(t, id, FileName(src)).Some?
          && tree == PlainRemove(t, id, FileName(src))
        case Moves(t) =>
          && r == Done && IsRenamed(t, tree, rootParentId, src, dst) && OutsidersLost(src, dst, old(cache), cache)
          && (Valid() <==> Nameable(FileName(dst)) && old(NotIdle(src)) && OutsidersSettled(src, dst, old(cache.Keys)))
        case _ => false
    {
      hide *;
      ghost var before, t := cache, tree;
      ghost var notIdle := NotIdle(src);
      NotIdleIs(src);
      var oldParent, grandparent;
      KeysArePaths();
      DifferentPaths(src, dst);
      r, oldParent, grandparent := GetParent(src);
      AfterGetParent(before, cache, src, dst);
      SameForRenameIs(before, cache, src, dst);
      if r != Done {
        FateFails(t, rootParentId, src, dst, src in before);
        return;
      }
      NotIdleIs(src);
      assert notIdle == NotIdle(src);
      ListingOf(Parent(src));
      FateFound(t, rootParentId, src, dst, cache[Parent(src)].directoryId, src in before);
      ghost var got := cache;
      r := MoveTo(src, dst);
      LostSince(src, dst, before, got, cache);
      SettledAlike(src, dst, before.Keys, got.Keys);
    }

    /** No directory is cached at the path, or it has a handler outstanding. */
    ghost predicate NotIdle(p: Path)
      reads this`cache, cache.Values
    {
      p in cache ==> cache[p].pendingCount != 0
    }

    lemma NotIdleIs(p: Path)
      ensures NotIdle(p) <==> (p in cache ==> cache[p].pendingCount != 0)
    {
    }

    /** RenameDifferentParent and the loop after it, once both parents are cached. */
    method MoveTo(src: Path, dst: Path) returns (r: Outcome)
      requires Valid() && |src| >= 2 && |dst| >= 2 && IsPath(src) && IsPath(dst) && !IsWithin(src, dst)
      requires Parent(src) != Parent(dst) && Parent(src) in cache && Parent(dst) in cache
      requires RekeyEnds(cache.Keys, src, dst)
      requires Lookup(cache[Parent(dst)].children, FileName(dst)).None?
      modifies this`cache, this`tree, cache.Values, storage
      ensures var id := old(cache[Parent(src)].directoryId); var into := old(cache[Parent(dst)].directoryId);
        Walk(old(tree), rootParentId, Parent(src)) == At(id) &&
        match FateOf(LookupIn(old(tree), id, FileName(src)), src in old(cache))
        case Missing => r == Outcome.NoSuchFile && Valid() && tree == old(tree)
        case Lost =>
          && r == Outcome.NoSuchFile && Valid() && id in old(tree) && LookupIn(old(tree), id, FileName(src)).Some?
          && tree == PlainRemove(old(tree), id, FileName(src))
        case Movable =>
          && r == Done && IsRenamed(old(tree), tree, rootParentId, src, dst)
          && OutsidersLost(src, dst, old(cache), cache)
          && (Valid() <==> Nameable(FileName(dst)) && old(NotIdle(src)) && OutsidersSettled(src, dst, old(cache.Keys)))
    {
      hide *;
      ghost var c, d, t := cache, Snapshot(), tree;
      ghost var trees, blobs := storage.trees, storage.blobs;
      FreeNameIsUncached(dst);
      CachedIsApart(src, dst);
      SnapshotIs();
      NotIdleIs(src);
      KeysArePaths();
      BeforeCrossing(src, dst);
      ListingOf(Parent(src));
      ListingOf(Parent(dst));
      LookupInListing(t, cache[Parent(dst)].directoryId, FileName(dst));
      FileIsNoDirectory(src);
      FateIs(Lookup(cache[Parent(src)].children, FileName(src)), src in c);
      r := MoveAcross(src, dst);
      if r == Done {
        OutsidersAreApart(c.Keys, src, dst);
        CrossedIsCoherent(d, StatesOf(c), trees, blobs, t, rootParentId, src, dst, storage.trees, storage.blobs);
        ghost var u := PlainMove(t, d[Parent(src)].directoryId, FileName(src), d[Parent(dst)].directoryId,
                                 FileName(dst));
        RenamedIsMove(t, u, rootParentId, src, dst);
        FinishRename(src, dst, c, t, u);
        OutsidersSettledIs(src, dst, c.Keys);
      }
    }

    /** Rename, wherever its loop ends. */
    method Rename(src: Path, dst: Path) returns (r: Outcome)
      requires Valid() && |src| >= 2 && |dst| >= 2 && IsPath(src) && IsPath(dst) && src != dst
      requires RekeyEnds(cache.Keys, src, dst)
      modifies this`cache, this`tree, cache.Values, storage
      ensures match FateOfRename(windows, old(tree), rootParentId, src, dst, src in old(cache))
        case TargetFails(at) => r == ToOutcome(at) && tree == old(tree) && Valid()
        case TargetIsFull => r == FileExists && tree == old(tree) && Valid()
        case SourceFails(at, t) => r == ToOutcome(at) && tree == t && Valid()
        case SourceIsMissing(t) => r == Outcome.NoSuchFile && tree == t && Valid()
        case SourceIsLost(id, t) =>
          && r == Outcome.NoSuchFile && Valid() && id in t && LookupIn(t, id, FileName(src)).Some?
          && tree == PlainRemove(t, id, FileName(src))
        case Moves(t) =>
          && r == Done && IsRenamed(t, tree, rootParentId, src, dst)
          && SubtreeMoved(old(tree), tree, rootParentId, src, dst)
          && OutsidersLost(src, dst, old(cache), cache)
          && (Valid() <==> (Nameable(FileName(dst)) && (Parent(src) == Parent(dst) || old(NotIdle(src)))
                            && OutsidersSettled(src, dst, old(cache.Keys))))
      ensures r != Done ==>
        (tree == old(tree) <==> LeavesTree(windows, old(tree), rootParentId, src, dst, src in old(cache)))
      ensures r == FileExists <==>
        match Resolve(old(tree), rootParentId, dst)
        case None => false
        case Some(m) =>
          m.directoryId.Some?
          && (windows || (m.directoryId.value in old(tree) && old(tree)[m.directoryId.value].children != []))
      ensures r == Done <==>
        && r != FileExists && Walk(old(tree), rootParentId, Parent(dst)).At?
        && var source := Resolve(old(tree), rootParentId, src);
           source.Some? && (IsDirectory(source.value) ==> src in old(cache) || Parent(src) == Parent(dst))
      ensures r == Outcome.InvalidParameter <==>
        || MeetsFile(old(tree), rootParentId, Parent(dst))
        || (r != FileExists && Walk(old(tree), rootParentId, Parent(dst)).At?
            && !IsWithin(dst, Parent(src)) && MeetsFile(old(tree), rootParentId, Parent(src)))
      ensures r == Outcome.InvalidParameter || r == Outcome.NoSuchFile || r == FileExists || r == Done
      ensures r == FileExists ==> tree == old(tree) && Valid()
      ensures r == Done ==> SubtreeMoved(old(tree), tree, rootParentId, src, dst)
    {
      hide *;
      ghost var before, t := cache, tree;
      ghost var notIdle := NotIdle(src);
      NotIdleIs(src);
      SnapshotIs();
      TreeIsOk(Snapshot(), storage.trees, storage.blobs, tree, rootParentId);
      var newParent;
      EndsIsOutside(cache.Keys, src, dst);
      ParentIsPath(dst);
      KeysArePaths();
      r, newParent := Get(Parent(dst));
      AfterGetNewParent(before, cache, src, dst);
      SameForRenameIs(before, cache, src, dst);
      if r != Done {
        TargetFate(windows, t, rootParentId, src, dst, src in before);
        LeftAsFated(windows, t, rootParentId, src, dst, src in before, tree);
        RenameComesTo(windows, t, rootParentId, src, dst, src in before, r);
        return;
      }
      NotIdleIs(src);
      assert notIdle == NotIdle(src);
      ghost var got := cache;
      r := ClearAndRename(src, dst);
      RenameComesTo(windows, t, rootParentId, src, dst, src in before, r);
      LostSince(src, dst, before, got, cache);
      SettledAlike(src, dst, before.Keys, got.Keys);
      if r != Done {
        LeftAsFated(windows, t, rootParentId, src, dst, src in before, tree);
      }
    }

    /** Rename, once the new parent is cached. */
    method ClearAndRename(src: Path, dst: Path) returns (r: Outcome)
      requires Valid() && |src| >= 2 && |dst| >= 2 && IsPath(src) && IsPath(dst) && !IsWithin(src, dst)
      requires Parent(dst) in cache && RekeyEnds(cache.Keys, src, dst)
      modifies this`cache, this`tree, cache.Values, storage
      ensures match FateOfRename(windows, old(tree), rootParentId, src, dst, src in old(cache))
        case TargetFails(at) => r == ToOutcome(at) && tree == old(tree) && Valid()
        case TargetIsFull => r == FileExists && tree == old(tree) && Valid()
        case SourceFails(at, t) => r == ToOutcome(at) && tree == t && Valid()
        case SourceIsMissing(t) => r == Outcome.NoSuchFile && tree == t && Valid()
        case SourceIsLost(id, t) =>
          && r == Outcome.NoSuchFile && Valid() && id in t && LookupIn(t, id, FileName(src)).Some?
          && tree == PlainRemove(t, id, FileName(src))
        case Moves(t) =>
          && r == Done && IsRenamed(t, tree, rootParentId, src, dst)
          && SubtreeMoved(old(tree), tree, rootParentId, src, dst)
          && OutsidersLost(src, dst, old(cache), cache)
          && (Valid() <==> (Nameable(FileName(dst)) && (Parent(src) == Parent(dst) || old(NotIdle(src)))
                            && OutsidersSettled(src, dst, old(cache.Keys))))
    {
      hide *;
      ghost var before, t := cache, tree;
      ghost var notIdle := NotIdle(src);
      NotIdleIs(src);
      SnapshotIs();
      TreeIsOk(Snapshot(), storage.trees, storage.blobs, tree, rootParentId);
      ListingOf(Parent(dst));
      DifferentFromParent(src, dst);
      ghost var into := cache[Parent(dst)].directoryId;
      FateIsOfSource(windows, t, rootParentId, src, dst, into, src in before);
      KeysArePaths();
      r := PrepareNewPath(dst);
      if r == Done {
        AfterClearing(before, cache, src, dst);
        SameForRenameIs(before, cache, src, dst);
        NotIdleIs(src);
        assert notIdle == NotIdle(src);
        ghost var cleared := cache;
        r := RenameCleared(src, dst, into, t);
        LostSince(src, dst, before, cleared, cache);
        SettledAlike(src, dst, before.Keys, cleared.Keys);
      }
    }

    /** Rename, once the target is clear. */
    method RenameCleared(src: Path, dst: Path, ghost into: DirectoryId, ghost t: Tree) returns (r: Outcome)
      requires Valid() && |src| >= 2 && |dst| >= 2 && IsPath(src) && IsPath(dst) && !IsWithin(src, dst)
      requires Parent(dst) in cache && RekeyEnds(cache.Keys, src, dst)
      requires TreeOk(t, rootParentId) && into in t && Walk(t, rootParentId, Parent(dst)) == At(into)
      requires tree == Cleared(t, into, FileName(dst)) && cache[Parent(dst)].directoryId == into
      modifies this`cache, this`tree, cache.Values, storage
      ensures match FateOfSource(old(tree), rootParentId, src, dst, src in old(cache))
        case SourceFails(at, v) => r == ToOutcome(at) && tree == v && Valid()
        case SourceIsMissing(v) => r == Outcome.NoSuchFile && tree == v && Valid()
        case SourceIsLost(id, v) =>
          && r == Outcome.NoSuchFile && Valid() && id in v && LookupIn(v, id, FileName(src)).Some?
          && tree == PlainRemove(v, id, FileName(src))
        case Moves(v) =>
          && r == Done && IsRenamed(v, tree, rootParentId, src, dst) && SubtreeMoved(t, tree, rootParentId, src, dst)
          && OutsidersLost(src, dst, old(cache), cache)
          && (Valid() <==> (Nameable(FileName(dst)) && (Parent(src) == Parent(dst) || old(NotIdle(src)))
                            && OutsidersSettled(src, dst, old(cache.Keys))))
        case _ => false
    {
      hide *;
      ghost var v := tree;
      SnapshotIs();
      TreeIsOk(Snapshot(), storage.trees, storage.blobs, tree, rootParentId);
      ClearedIsClear(t, rootParentId, dst, into);
      ListingOf(Parent(dst));
      LookupInListing(tree, into, FileName(dst));
      DifferentPaths(src, dst);
      if Parent(src) == Parent(dst) {
        r := RenameInPlace(src, dst);
      } else {
        r := RenameDifferentParent(src, dst);
      }
      FateTree(v, rootParentId, src, dst, src in old(cache));
      if r == Done && IsRenamed(v, tree, rootParentId, src, dst) {
        RenamedIsMove(v, tree, rootParentId, src, dst);
        RenameMovesSubtree(t, tree, rootParentId, src, dst);
      }
    }

    /** Where there is no directory, nothing is cached. */
    lemma NothingAt(p: Path, name: Name)
      requires Valid() && p in cache
      requires Lookup(cache[p].children, name).None? || !IsDirectory(Lookup(cache[p].children, name).value)
      ensures forall q | q in cache :: !IsWithin(p + [name], q)
      ensures !IsFullDirectory(tree, cache[p].directoryId, name) && !Walk(tree, rootParentId, p + [name]).At?
    {
      ListingOf(p);
      TreeIsOk(Snapshot(), storage.trees, storage.blobs, tree, rootParentId);
      LookupMember(tree, rootParentId, cache[p].directoryId, name);
      NextStep(Snapshot(), storage.trees, storage.blobs, tree, rootParentId, p, name);
      hide Coherent, TreeOk;
      NothingCachedAt(Snapshot(), storage.trees, storage.blobs, tree, rootParentId, p, name);
    }

    lemma DirectoryIsFound(p: Path, name: Name)
      requires Valid() && p in cache
      requires Lookup(cache[p].children, name).Some? && IsDirectory(Lookup(cache[p].children, name).value)
      ensures ToOutcome(Walk(tree, rootParentId, p + [name])) == Done
    {
      ListingOf(p);
      TreeIsOk(Snapshot(), storage.trees, storage.blobs, tree, rootParentId);
      hide Coherent, Distinct;
      LookupMember(tree, rootParentId, cache[p].directoryId, name);
      NextStep(Snapshot(), storage.trees, storage.blobs, tree, rootParentId, p, name);
    }

    lemma CachedIsFull(p: Path, name: Name)
      requires Valid() && p in cache && p + [name] in cache
      ensures IsFullDirectory(tree, cache[p].directoryId, name) <==> cache[p + [name]].children != []
    {
      ListingOf(p);
      ListingOf(p + [name]);
      NextStep(Snapshot(), storage.trees, storage.blobs, tree, rootParentId, p, name);
    }

    lemma EmptyIsLeaf(p: Path)
      requires Valid() && p in cache && cache[p].children == []
      ensures forall q | q in cache && IsWithin(p, q) :: q == p
    {
      hide Valid, Coherent, Distinct, Walk;
      ListingOf(p);
      forall q | q in cache && IsWithin(p, q) ensures q == p {
        ListingOf(q);
        if q != p {
          assert q == p + q[|p|..];
          EmptyBelow(tree, rootParentId, p, q[|p|..]);
        }
      }
    }

    lemma RootIsCached()
      requires Valid()
      ensures [] in cache
    {
    }

    lemma PrefixesCached(p: Path)
      requires Valid() && p in cache
      ensures forall q | IsWithin(q, p) :: q in cache
      ensures Walk(tree, rootParentId, p) == At(cache[p].directoryId) && ToOutcome(Walk(tree, rootParentId, p)) == Done
    {
      assert EntryOk(p, Snapshot()[p], storage.trees, storage.blobs, tree, rootParentId);
      forall q | IsWithin(q, p) ensures q in cache {
        PrefixCached(Snapshot().Keys, q, p);
      }
    }

    lemma FailedPrefixes(p: Path, next: Path)
      requires Valid() && IsWithin(next, p) && next != [] && Parent(next) in cache
      requires ToOutcome(Walk(tree, rootParentId, next)) != Done
      ensures forall q | IsWithin(q, p) && Walk(tree, rootParentId, q).At? :: q in cache
      ensures Walk(tree, rootParentId, p) == Walk(tree, rootParentId, next)
    {
      hide Valid, Coherent, Distinct, Walk;
      WalkFails(tree, rootParentId, next, p[|next|..]);
      assert next + p[|next|..] == p;
      forall q | IsWithin(q, p) && Walk(tree, rootParentId, q).At? ensures q in cache {
        if |q| >= |next| {
          R.PrefixesNest(next, q, p);
          WalkPrefix(tree, rootParentId, next, q);
        }
        R.PrefixesNest(q, Parent(next), p);
        PrefixesCached(Parent(next));
      }
    }
  }

  /** Get adds entries on the way to a path and changes none. */
  ghost predicate Gained(c: map<Path, Directory>, d: map<Path, Directory>, p: Path) {
    && (forall q | q in c :: q in d && d[q] == c[q])
    && (forall q | q in d && q !in c :: IsWithin(q, p))
  }

  /** What does not change for a rename until its loop: where the source is, and the outsiders. */
  ghost predicate SameForRename(c: map<Path, Directory>, d: map<Path, Directory>, src: Path, dst: Path)
    requires |src| >= 2 && |dst| >= 2 && IsPath(src) && IsPath(dst)
  {
    && RekeyEnds(d.Keys, src, dst) && (src in d <==> src in c)
    && R.Outsiders(src, d.Keys) == R.Outsiders(src, c.Keys)
    && (R.AllDropOut(src, dst, d.Keys) <==> R.AllDropOut(src, dst, c.Keys))
  }

  lemma AfterGetParent(c: map<Path, Directory>, d: map<Path, Directory>, src: Path, dst: Path)
    requires |src| >= 2 && Gained(c, d, Parent(src)) && |dst| >= 2 && RekeyEnds(c.Keys, src, dst)
    requires IsPath(src) && IsPath(dst) && src != dst && ClosedUnderParents(c.Keys) && forall k | k in c :: IsPath(k)
    ensures SameForRename(c, d, src, dst) && forall p | p in c :: p in d && d[p] == c[p]
  {
    EndsGrows(c.Keys, d.Keys, src, dst);
    SameToOutsiders(c.Keys, d.Keys, src, dst);
    assert |Parent(src)| < |src|;
    hide R.AllDropOut, RekeyEnds;
  }

  lemma AfterGetNewParent(c: map<Path, Directory>, d: map<Path, Directory>, src: Path, dst: Path)
    requires |src| >= 2 && |dst| >= 2 && Gained(c, d, Parent(dst)) && RekeyEnds(c.Keys, src, dst) && !IsWithin(src, dst)
    requires IsPath(src) && IsPath(dst) && ClosedUnderParents(c.Keys) && forall k | k in c :: IsPath(k)
    ensures SameForRename(c, d, src, dst) && forall p | p in c :: p in d && d[p] == c[p]
  {
    EndsGrows(c.Keys, d.Keys, src, dst);
    SameToOutsiders(c.Keys, d.Keys, src, dst);
    assert Parent(dst) <= dst;
    hide R.AllDropOut, RekeyEnds;
  }

  lemma AfterClearing(c: map<Path, Directory>, d: map<Path, Directory>, src: Path, dst: Path)
    requires |src| >= 2 && |dst| >= 2 && d == c - {dst} && RekeyEnds(c.Keys, src, dst) && !IsWithin(src, dst)
    requires IsPath(src) && IsPath(dst) && ClosedUnderParents(c.Keys) && forall k | k in c :: IsPath(k)
    ensures SameForRename(c, d, src, dst) && (forall p | p in d :: d[p] == c[p])
    ensures Parent(dst) in c ==> Parent(dst) in d
  {
    EndsGrows(c.Keys, d.Keys, src, dst);
    SameToOutsiders(c.Keys, d.Keys, src, dst);
    assert src != dst && Parent(dst) != dst;
    hide R.AllDropOut, RekeyEnds;
  }

  lemma SameForRenameIs(c: map<Path, Directory>, d: map<Path, Directory>, src: Path, dst: Path)
    requires |src| >= 2 && |dst| >= 2 && IsPath(src) && IsPath(dst) && SameForRename(c, d, src, dst)
    ensures RekeyEnds(d.Keys, src, dst) && (src in d <==> src in c)
    ensures R.Outsiders(src, d.Keys) == R.Outsiders(src, c.Keys)
    ensures R.AllDropOut(src, dst, d.Keys) <==> R.AllDropOut(src, dst, c.Keys)
  {
  }

  lemma LostSince(src: Path, dst: Path, c: map<Path, Directory>, d: map<Path, Directory>, e: map<Path, Directory>)
    requires |src| >= 2 && forall k | k in c && k != dst :: k in d && d[k] == c[k]
    ensures OutsidersLost(src, dst, d, e) ==> OutsidersLost(src, dst, c, e)
  {
  }

  lemma ParentIsPath(p: Path)
    requires IsPath(p)
    ensures IsPath(Parent(p))
  {
  }

  lemma DifferentPaths(src: Path, dst: Path)
    requires !IsWithin(src, dst)
    ensures src != dst
  {
  }

  lemma TargetFate(windows: bool, t: Tree, root: DirectoryId, src: Path, dst: Path, cached: bool)
    requires ToOutcome(Walk(t, root, Parent(dst))) != Done
    ensures FateOfRename(windows, t, root, src, dst, cached) == TargetFails(Walk(t, root, Parent(dst)))
  {
  }

  lemma LeftAsFated(windows: bool, t: Tree, root: DirectoryId, src: Path, dst: Path, cached: bool, u: Tree)
    requires TreeOk(t, root) && src != [] && dst != []
    requires match FateOfRename(windows, t, root, src, dst, cached)
      case TargetFails(_) => u == t
      case TargetIsFull => u == t
      case SourceFails(_, v) => u == v
      case SourceIsMissing(v) => u == v
      case SourceIsLost(id, v) => id in v && LookupIn(v, id, FileName(src)).Some?
        && u == PlainRemove(v, id, FileName(src))
      case Moves(_) => false
    ensures u == t <==> LeavesTree(windows, t, root, src, dst, cached)
  {
    hide FateOfRename, LeavesTree;
    FailedRenameLeavesTreeIff(windows, t, root, src, dst, cached, u);
  }

  /** The outcome of a rename, by what its two paths resolve to before it. */
  lemma RenameComesTo(windows: bool, t: Tree, root: DirectoryId, src: Path, dst: Path, cached: bool, r: Outcome)
    requires TreeOk(t, root) && src != [] && dst != [] && src != dst
    requires match FateOfRename(windows, t, root, src, dst, cached)
      case TargetFails(at) => r == ToOutcome(at)
      case TargetIsFull => r == FileExists
      case SourceFails(at, _) => r == ToOutcome(at)
      case SourceIsMissing(_) => r == Outcome.NoSuchFile
      case SourceIsLost(_, _) => r == Outcome.NoSuchFile
      case Moves(_) => r == Done
    ensures r == FileExists <==>
      match Resolve(t, root, dst)
      case None => false
      case Some(m) =>
        m.directoryId.Some? && (windows || (m.directoryId.value in t && t[m.directoryId.value].children != []))
    ensures r == Done <==>
      && r != FileExists && Walk(t, root, Parent(dst)).At?
      && var source := Resolve(t, root, src);
         source.Some? && (IsDirectory(source.value) ==> cached || Parent(src) == Parent(dst))
    ensures r == Outcome.InvalidParameter <==>
      || MeetsFile(t, root, Parent(dst))
      || (r != FileExists && Walk(t, root, Parent(dst)).At?
          && !IsWithin(dst, Parent(src)) && MeetsFile(t, root, Parent(src)))
    ensures r == Outcome.InvalidParameter || r == Outcome.NoSuchFile || r == FileExists || r == Done
    ensures FateOfRename(windows, t, root, src, dst, cached).Moves? <==> r == Done
    ensures FateOfRename(windows, t, root, src, dst, cached).TargetIsFull? <==> r == FileExists
  {
    FateMeans(windows, t, root, src, dst, cached);
    FailsAs(t, root, Parent(dst));
    FailsAs(t, root, Parent(src));
    ToOutcomeIs(Walked.NoSuchFile);
    hide *;
  }

  lemma FateFails(t: Tree, root: DirectoryId, src: Path, dst: Path, cached: bool)
    requires ToOutcome(Walk(t, root, Parent(src))) != Done
    ensures FateOfSource(t, root, src, dst, cached) == SourceFails(Walk(t, root, Parent(src)), t)
  {
  }

  lemma ParentOfNext(p: Path, name: Name)
    ensures Parent(p + [name]) == p && p + [name] != [] && IsWithin(p, p)
  {
  }

  lemma OnlyGained(c: map<Path, Directory>, d: map<Path, Directory>, p: Path)
    requires Gained(c, d, p) && p != [] && forall q | IsWithin(q, Parent(p)) :: q in c
    ensures d - {p} == c - {p}
  {
    forall q | IsWithin(q, p) && q != p ensures IsWithin(q, Parent(p)) {
      assert |q| < |p|;
    }
  }

  lemma GainedKeeps(c: map<Path, Directory>, d: map<Path, Directory>, p: Path, q: Path)
    requires Gained(c, d, p) && q in c
    ensures q in d && d[q] == c[q]
  {
  }

  lemma GainedBelow(c: map<Path, Directory>, d: map<Path, Directory>, p: Path)
    requires Gained(c, d, p)
    ensures forall q | IsWithin(p, q) && q != p :: q in d <==> q in c
  {
    forall q | IsWithin(p, q) && q != p ensures !IsWithin(q, p) {
      assert |p| < |q|;
    }
  }

  lemma GainedNothing(c: map<Path, Directory>, p: Path)
    ensures Gained(c, c, p)
  {
  }

  lemma GainedOne(c: map<Path, Directory>, d: map<Path, Directory>, p: Path, q: Path, directory: Directory)
    requires Gained(c, d, p) && q !in d && IsWithin(q, p)
    ensures Gained(c, d[q := directory], p)
  {
  }

  lemma GainedTwice(c: map<Path, Directory>, d: map<Path, Directory>, e: map<Path, Directory>, p: Path, q: Path)
    requires Gained(c, d, p) && Gained(d, e, q) && IsWithin(p, q)
    ensures Gained(c, e, q)
  {
  }

  lemma LookupInListing(t: Tree, id: DirectoryId, name: Name)
    requires id in t
    ensures LookupIn(t, id, name) == Lookup(t[id].children, name)
  {
  }

  lemma PathsDiffer(p: Path, name: Name)
    requires p != []
    ensures Parent(p) != p && p + [name] != p && p + [name] != Parent(p)
  {
    assert |Parent(p)| < |p| < |p + [name]|;
  }

  lemma NextPath(p: Path, n: nat)
    requires IsPath(p) && n < |p|
    ensures p[..n] + [if n == 0 then ROOT else p[n]] == p[..n + 1]
    ensures IsPath(p[..n + 1]) && IsWithin(p[..n + 1], p) && Parent(p[..n + 1]) == p[..n] && p[..n + 1] != []
  {
  }

  /** Store then reload: a fresh handler on the storage stands for the same tree. */
  method StoreAndReload(handler: DirectoryHandler, rootId: DirectoryId) returns (reloaded: DirectoryHandler)
    requires handler.Valid()
    requires forall p | p in handler.cache :: !StaysUnsaved(handler.cache[p].State())
    modifies handler.cache.Values, handler.storage
    ensures handler.Valid() && reloaded.Valid()
    ensures fresh(reloaded) && reloaded.storage == handler.storage && reloaded.rootParentId == handler.rootParentId
    ensures reloaded.tree == handler.tree
  {
    hide Coherent, AllStored, TreeOk, DirectoryHandler.Distinct;
    handler.StoreAll();
    reloaded := new DirectoryHandler(handler.storage, handler.windows, handler.uniqueUserId, handler.rootParentId,
                                     false, rootId, handler.tree);
  }
}
