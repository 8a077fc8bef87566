/** What DirectoryHandler::Rename does to the states of the cached directories, and why the cache
    agrees with the tree afterwards. */
module Renaming {
  import opened Wrappers
  import opened Lexicographic
  import opened Paths
  import opened MetaData
  import opened Listing
  import opened DirectoryState
  import opened VersionStore
  import opened DirectoryTree
  import opened Coherence
  import R = Rekey

  ghost predicate Apart(src: Path, dst: Path) {
    src != [] && dst != [] && !IsWithin(src, dst) && !IsWithin(dst, src)
  }

  lemma ApartIs(src: Path, dst: Path)
    requires Apart(src, dst)
    ensures src != [] && dst != [] && !IsWithin(src, dst) && !IsWithin(dst, src)
  {
  }

  // ----- keys -----

  /** The re-keyed cache, key by key. */
  lemma MovedIs<V>(src: Path, dst: Path, c: map<Path, V>)
    requires Apart(src, dst) && forall k | k in c :: IsWithin(dst, k) ==> k == dst && src !in c
    ensures forall k :: k in R.Moved(src, dst, c) <==>
      (if IsWithin(dst, k) then R.Origin(src, dst, k) in c || k in c else k in c && !IsWithin(src, k))
    ensures forall k | k in R.Moved(src, dst, c) ::
      R.Moved(src, dst, c)[k]
        == (if IsWithin(dst, k) && R.Origin(src, dst, k) in c then c[R.Origin(src, dst, k)] else c[k])
  {
    var subtree := set k | k in c && IsWithin(src, k);
    forall k ensures IsWithin(dst, k) ==> IsWithin(src, R.Origin(src, dst, k)) {
    }
    forall k ensures !(IsWithin(src, k) && IsWithin(dst, k)) {
      R.WithinExclusive(src, dst, k);
    }
  }

  /** RenameDifferentParent moves the directory's own entry by hand; the loop then does the rest. */
  lemma MovedByHand<V>(src: Path, dst: Path, c: map<Path, V>)
    requires Apart(src, dst) && src in c && forall k | k in c :: !IsWithin(dst, k)
    ensures R.Moved(src, dst, (c - {src})[dst := c[src]]) == R.Moved(src, dst, c)
  {
    var d := (c - {src})[dst := c[src]];
    MovedIs(src, dst, c);
    MovedIs(src, dst, d);
    assert R.Origin(src, dst, dst) == src;
    forall k | IsWithin(dst, k) && R.Origin(src, dst, k) == src ensures k == dst {
      assert k == dst + k[|dst|..];
    }
    hide R.Moved, R.Origin;
    forall k
      ensures k in R.Moved(src, dst, d) <==> k in R.Moved(src, dst, c)
      ensures k in R.Moved(src, dst, c) ==> R.Moved(src, dst, d)[k] == R.Moved(src, dst, c)[k]
    {
    }
  }

  // ----- states -----

  /** e is every cached directory's state after the move, by its key from before. */
  ghost predicate NewStates(c: Cache, e: Cache, u: Tree, trees2: Trees, blobs2: set<Blob>) {
    e.Keys == c.Keys && forall k | k in c :: NewState(c[k], e[k], u, trees2, blobs2)
  }

  ghost predicate NewState(d: Dir, e: Dir, u: Tree, trees2: Trees, blobs2: set<Blob>) {
    e.directoryId == d.directoryId && Matches(e, u) && StoreOk(e, trees2, blobs2)
  }

  lemma StatesAreCacheMoved(c: Cache, src: Path, dst: Path, u: Tree, e: Cache, trees2: Trees, blobs2: set<Blob>)
    requires Apart(src, dst) && NewStates(c, e, u, trees2, blobs2) && forall k | k in c :: !IsWithin(dst, k)
    ensures CacheMoved(c, R.Moved(src, dst, e), src, dst, u, trees2, blobs2)
  {
    hide Matches, StoreOk;
    MovedIs(src, dst, e);
    forall k ensures !(IsWithin(src, k) && IsWithin(dst, k)) {
      R.WithinExclusive(src, dst, k);
    }
  }

  lemma StatesKeepCoherent(c: Cache, trees: Trees, blobs: set<Blob>, t: Tree, root: DirectoryId, src: Path, dst: Path,
                           u: Tree, e: Cache, trees2: Trees, blobs2: set<Blob>)
    requires Coherent(c, trees, blobs, t, root) && MovePaths(t, u, root, src, dst) && TreeOk(u, root)
    requires Parent(src) in c && Parent(dst) in c && IsPath(dst) && forall k | k in c :: !IsWithin(dst, k)
    requires src !in c && Walk(t, root, src).At? ==> Parent(src) == Parent(dst)
    requires NewStates(c, e, u, trees2, blobs2)
    requires blobs <= blobs2 && UncachedUntouched(c, trees, trees2, t, root)
    ensures Coherent(R.Moved(src, dst, e), trees2, blobs2, u, root)
  {
    hide Coherent, NewStates, CacheMoved, TreeOk, IsMove, UncachedUntouched, Walk;
    StatesAreCacheMoved(c, src, dst, u, e, trees2, blobs2);
    MoveKeepsCoherent(c, trees, blobs, t, root, src, dst, u, R.Moved(src, dst, e), trees2, blobs2);
  }

  // ----- within one directory -----

  function WithinStates(c: Cache, p: Path, oldName: Name, newName: Name): Cache
    requires p in c
  {
    c[p := Change(c[p], Renamed(c[p].children, oldName, newName))]
  }

  lemma CachedIsOk(c: Cache, trees: Trees, blobs: set<Blob>, t: Tree, root: DirectoryId, p: Path)
    requires Coherent(c, trees, blobs, t, root) && p in c
    ensures Walk(t, root, p) == At(c[p].directoryId) && Matches(c[p], t) && StoreOk(c[p], trees, blobs)
  {
    assert EntryOk(p, c[p], trees, blobs, t, root);
  }

  lemma WithinNode(t: Tree, id: DirectoryId, oldName: Name, newName: Name, j: DirectoryId)
    requires id in t && LookupIn(t, id, oldName).Some? && j in t
    ensures var u := PlainMove(t, id, oldName, id, newName);
      j in u && u[j] == if j == id then Node(t[id].parent, Renamed(t[id].children, oldName, newName)) else t[j]
  {
  }

  lemma WithinState(c: Cache, trees: Trees, blobs: set<Blob>, t: Tree, root: DirectoryId, p: Path, oldName: Name,
                    newName: Name, k: Path)
    requires Coherent(c, trees, blobs, t, root) && p in c && k in c
    requires c[p].directoryId in t && LookupIn(t, c[p].directoryId, oldName).Some?
    ensures NewState(c[k], WithinStates(c, p, oldName, newName)[k],
                     PlainMove(t, c[p].directoryId, oldName, c[p].directoryId, newName), trees, blobs)
  {
    hide Coherent, Walk, Renamed, StoreOk, PlainMove, LookupIn;
    CachedIsOk(c, trees, blobs, t, root, p);
    CachedIsOk(c, trees, blobs, t, root, k);
    WithinNode(t, c[p].directoryId, oldName, newName, c[k].directoryId);
    if k == p {
      ChangeIsStoreOk(c[p], Renamed(c[p].children, oldName, newName), trees, blobs);
    } else if c[k].directoryId == c[p].directoryId {
      DifferentIds(c, trees, blobs, t, root, p, k);
    }
  }

  /** What the loop is to leave, without the outsiders' entries. */
  ghost function MovedWithout(c: Cache, src: Path, dst: Path, keys: set<Path>): Cache
    requires |src| >= 2
  {
    R.Moved(src, dst, c) - R.Outsiders(src, keys)
  }

  lemma OutsidersClosed(c: Cache, src: Path, dst: Path)
    requires Apart(src, dst) && |src| >= 2 && (forall k | k in c :: !IsWithin(dst, k))
    requires forall k | k in R.Outsiders(src, c.Keys) :: !IsWithin(k, dst)
    ensures R.Outsiders(src, c.Keys) <= R.Moved(src, dst, c).Keys && [] !in R.Outsiders(src, c.Keys)
    ensures forall p, q | p in R.Outsiders(src, c.Keys) && q in R.Moved(src, dst, c) && IsWithin(p, q) ::
      q in R.Outsiders(src, c.Keys)
  {
    MovedIs(src, dst, c);
    hide R.Moved;
    forall p, q | p in R.Outsiders(src, c.Keys) && q in R.Moved(src, dst, c) && IsWithin(p, q)
      ensures q in R.Outsiders(src, c.Keys)
    {
      if IsWithin(dst, q) {
        if |p| <= |dst| { R.PrefixesNest(p, dst, q); } else { R.PrefixesNest(dst, p, q); }
      }
      assert p <= q && |p| >= |src|;
      assert q[..|src| - 1] == p[..|src| - 1] && q[|src| - 1] == p[|src| - 1];
      if IsWithin(src, q) { R.PrefixesNest(src, p, q); }
    }
  }

  lemma StatesKeepCoherentIff(c: Cache, trees: Trees, blobs: set<Blob>, t: Tree, root: DirectoryId, src: Path,
                              dst: Path,
                              u: Tree, e: Cache, trees2: Trees, blobs2: set<Blob>)
    requires Coherent(R.Moved(src, dst, e), trees2, blobs2, u, root) && e.Keys == c.Keys
    requires Apart(src, dst) && |src| >= 2 && (forall k | k in c :: !IsWithin(dst, k))
    requires forall k | k in R.Outsiders(src, c.Keys) :: !IsWithin(k, dst)
    ensures Coherent(MovedWithout(e, src, dst, c.Keys), trees2, blobs2, u, root)
        <==> AreStored(R.Outsiders(src, c.Keys), trees2, blobs2, u, root)
  {
    OutsidersClosed(e, src, dst);
    hide Coherent, R.Moved, AreStored;
    DroppingKeepsCoherent(R.Moved(src, dst, e), trees2, blobs2, u, root, R.Outsiders(src, c.Keys));
  }

  lemma WithinKeepsCoherent(c: Cache, trees: Trees, blobs: set<Blob>, t: Tree, root: DirectoryId, src: Path, dst: Path)
    requires Coherent(c, trees, blobs, t, root) && Apart(src, dst) && IsPath(dst) && |src| >= 2
    requires forall k | k in R.Outsiders(src, c.Keys) :: !IsWithin(k, dst)
    requires Parent(src) == Parent(dst) && Parent(dst) in c && c[Parent(dst)].directoryId in t
    requires LookupIn(t, c[Parent(dst)].directoryId, FileName(src)).Some?
    requires LookupIn(t, c[Parent(dst)].directoryId, FileName(dst)).None?
    ensures var p := Parent(dst);
      var u := PlainMove(t, c[p].directoryId, FileName(src), c[p].directoryId, FileName(dst));
      && MovePaths(t, u, root, src, dst) && root in t && root in u && u[root].parent == t[root].parent
      && (Coherent(MovedWithout(WithinStates(c, p, FileName(src), FileName(dst)), src, dst, c.Keys), trees, blobs, u,
                   root)
          <==> Nameable(FileName(dst)) && AreStored(R.Outsiders(src, c.Keys), trees, blobs, u, root))
  {
    var p := Parent(dst);
    var id := c[p].directoryId;
    var u := PlainMove(t, id, FileName(src), id, FileName(dst));
    var e := WithinStates(c, p, FileName(src), FileName(dst));
    MoveIsPossible(c, trees, blobs, t, root, src, dst, id, id);
    hide *;
    forall k | k in c ensures NewState(c[k], e[k], u, trees, blobs) {
      WithinState(c, trees, blobs, t, root, p, FileName(src), FileName(dst), k);
    }
    WithinKeys(c, p, FileName(src), FileName(dst));
    AreNewStates(c, e, u, trees, blobs);
    if Nameable(FileName(dst)) {
      StatesKeepCoherent(c, trees, blobs, t, root, src, dst, u, e, trees, blobs);
      StatesKeepCoherentIff(c, trees, blobs, t, root, src, dst, u, e, trees, blobs);
    } else {
      NotCoherent(MovedWithout(e, src, dst, c.Keys), trees, blobs, u, root);
    }
  }

  lemma AreNewStates(c: Cache, e: Cache, u: Tree, trees2: Trees, blobs2: set<Blob>)
    requires e.Keys == c.Keys && forall k | k in c :: NewState(c[k], e[k], u, trees2, blobs2)
    ensures NewStates(c, e, u, trees2, blobs2)
  {
  }

  /** Between two cached directories, a child can move to a name that is free. */
  lemma MoveIsPossible(c: Cache, trees: Trees, blobs: set<Blob>, t: Tree, root: DirectoryId, src: Path, dst: Path,
                       from: DirectoryId, into: DirectoryId)
    requires Coherent(c, trees, blobs, t, root) && Apart(src, dst)
    requires Parent(src) in c && Parent(dst) in c && from == c[Parent(src)].directoryId
    requires into == c[Parent(dst)].directoryId
    requires from in t && into in t && LookupIn(t, from, FileName(src)).Some? && LookupIn(t, into, FileName(dst)).None?
    ensures var u := PlainMove(t, from, FileName(src), into, FileName(dst));
      && MovePaths(t, u, root, src, dst) && (TreeOk(u, root) <==> Nameable(FileName(dst)))
      && root in t && root in u && u[root].parent == t[root].parent
    ensures TreeOk(t, root) && Walk(t, root, Parent(src)) == At(from) && Walk(t, root, Parent(dst)) == At(into)
    ensures forall k | k in c :: !IsWithin(dst, k)
    ensures UncachedUntouched(c, trees, trees, t, root)
  {
    hide Coherent, TreeOk, PlainMove, IsMove, LookupIn, Walk;
    TreeIsOk(c, trees, blobs, t, root);
    CachedMatches(c, trees, blobs, t, root, Parent(src));
    CachedMatches(c, trees, blobs, t, root, Parent(dst));
    NothingCachedAt(c, trees, blobs, t, root, Parent(dst), FileName(dst));
    assert dst == Parent(dst) + [FileName(dst)];
    RootStays(t, root, from, FileName(src), into, FileName(dst));
    PlainMoveIsMove(t, root, from, FileName(src), into, FileName(dst));
  }

  lemma WithinKeys(c: Cache, p: Path, oldName: Name, newName: Name)
    requires p in c
    ensures WithinStates(c, p, oldName, newName).Keys == c.Keys
  {
  }

  /** The root's parent is no directory's child, so no move changes its parent. */
  lemma RootStays(t: Tree, root: DirectoryId, src: DirectoryId, oldName: Name, dst: DirectoryId, newName: Name)
    requires TreeOk(t, root) && src in t && dst in t && LookupIn(t, src, oldName).Some?
    ensures var u := PlainMove(t, src, oldName, dst, newName); root in u && u[root].parent == t[root].parent
  {
    LookupMember(t, root, src, oldName);
    hide TreeOk, Lookup, Added, Removed, Renamed, WellFormed, LookupIn;
    if src == dst {
      WithinNode(t, src, oldName, newName, root);
    } else {
      AcrossChildren(t, src, oldName, dst, newName, root);
    }
    hide PlainMove;
  }

  // ----- between two directories -----

  /** The states once the child has left one parent and joined the other. If its directory is cached,
      that one's state is moved by then. */
  function AcrossStates(c: Cache, src: Path, dst: Path, moved: Dir): Cache
    requires Parent(src) in c && Parent(dst) in c
    requires Find(c[Parent(src)].children, FileName(src)) < |c[Parent(src)].children|
  {
    var from, into := c[Parent(src)], c[Parent(dst)];
    var i := Find(from.children, FileName(src));
    var d := c[Parent(src) := Change(from, Removed(from.children, i))]
              [Parent(dst) := Change(into, Added(into.children, from.children[i].(name := FileName(dst))))];
    if src in c then d[src := moved] else d
  }

  function WithoutSource(c: Cache, src: Path): Cache
    requires Parent(src) in c && Find(c[Parent(src)].children, FileName(src)) < |c[Parent(src)].children|
  {
    var from := c[Parent(src)];
    c[Parent(src) := Change(from, Removed(from.children, Find(from.children, FileName(src))))]
  }

  /** With the child gone, and its directory not cached, the cache agrees with the tree without it. */
  lemma SourceIsRemoved(c: Cache, trees: Trees, blobs: set<Blob>, t: Tree, root: DirectoryId, src: Path)
    requires Coherent(c, trees, blobs, t, root) && src != [] && Parent(src) in c && src !in c
    requires Find(c[Parent(src)].children, FileName(src)) < |c[Parent(src)].children|
    ensures c[Parent(src)].directoryId in t && LookupIn(t, c[Parent(src)].directoryId, FileName(src)).Some?
    ensures RemovedCache(c, Parent(src), FileName(src)) == WithoutSource(c, src)
    ensures var u := PlainRemove(t, c[Parent(src)].directoryId, FileName(src));
      && Coherent(WithoutSource(c, src), trees, blobs, u, root)
      && root in t && root in u && u[root].parent == t[root].parent
      && Walk(u, root, src) == NoSuchFile
  {
    hide Coherent, TreeOk, PlainRemove, Removed, Change, Walk;
    var p, name := Parent(src), FileName(src);
    assert src == p + [name] && src != p;
    TreeIsOk(c, trees, blobs, t, root);
    CachedMatches(c, trees, blobs, t, root, p);
    NotCachedBelow(c, trees, blobs, t, root, src);
    RemovedLeads(t, root, p, name);
    RemoveKeepsCoherent(c, trees, blobs, t, root, p, name);
  }

  lemma RemovedLeads(t: Tree, root: DirectoryId, p: Path, name: Name)
    requires TreeOk(t, root) && Walk(t, root, p).At? && LookupIn(t, Walk(t, root, p).id, name).Some?
    ensures Walk(PlainRemove(t, Walk(t, root, p).id, name), root, p + [name]) == NoSuchFile
  {
    var id := Walk(t, root, p).id;
    RemovedTree(t, root, id, name);
    PlainRemoveOk(t, root, id, name);
    assert LookupIn(PlainRemove(t, id, name), id, name) == None;
    hide TreeOk, PlainRemove, LookupIn, OnlyAt;
    assert |p| < |p + [name]|;
    WalkOnlyAt(t, PlainRemove(t, id, name), root, p, name, p);
    assert Parent(p + [name]) == p && FileName(p + [name]) == name;
  }

  lemma NotCachedBelow(c: Cache, trees: Trees, blobs: set<Blob>, t: Tree, root: DirectoryId, p: Path)
    requires Coherent(c, trees, blobs, t, root) && p !in c
    ensures forall q | q in c :: !IsWithin(p, q)
  {
    forall q | q in c ensures !IsWithin(p, q) {
      if IsWithin(p, q) { PrefixCached(c.Keys, p, q); }
    }
  }

  /** What must have become of the moved directory: it has its new parent, and it is to be stored. */
  ghost predicate HasMoved(c: Cache, src: Path, dst: Path, moved: Dir, trees2: Trees, blobs2: set<Blob>)
    requires src in c ==> Parent(dst) in c
  {
    src in c ==>
      && moved.directoryId == c[src].directoryId && moved.children == c[src].children
      && moved.parentId == c[Parent(dst)].directoryId && moved.newParent.None?
      && StoreOk(moved, trees2, blobs2)
  }

  /** Only the moved directory has been stored. */
  ghost predicate OnlyStored(c: Cache, src: Path, trees: Trees, blobs: set<Blob>, trees2: Trees, blobs2: set<Blob>) {
    && blobs <= blobs2
    && (forall id | !(src in c && id == c[src].directoryId) :: id in trees <==> id in trees2)
    && (forall id | !(src in c && id == c[src].directoryId) && id in trees :: trees2[id] == trees[id])
  }

  /** The move is possible, and the states are as AcrossStates has them. */
  ghost predicate Across(c: Cache, trees: Trees, blobs: set<Blob>, t: Tree, root: DirectoryId, src: Path, dst: Path,
                         moved: Dir, trees2: Trees, blobs2: set<Blob>) {
    && Coherent(c, trees, blobs, t, root) && Apart(src, dst) && Parent(src) != Parent(dst)
    && Parent(src) in c && Parent(dst) in c && c[Parent(src)].directoryId in t && c[Parent(dst)].directoryId in t
    && LookupIn(t, c[Parent(src)].directoryId, FileName(src)).Some?
    && LookupIn(t, c[Parent(dst)].directoryId, FileName(dst)).None?
    && Find(c[Parent(src)].children, FileName(src)) < |c[Parent(src)].children|
    && HasMoved(c, src, dst, moved, trees2, blobs2) && OnlyStored(c, src, trees, blobs, trees2, blobs2)
  }

  /** The moved directory is the one of that name, and no other cached directory has its id. */
  lemma MovedId(c: Cache, trees: Trees, blobs: set<Blob>, t: Tree, root: DirectoryId, src: Path, k: Path)
    requires Coherent(c, trees, blobs, t, root) && src != [] && Parent(src) in c && k in c
    requires LookupIn(t, c[Parent(src)].directoryId, FileName(src)).Some?
    ensures (LookupIn(t, c[Parent(src)].directoryId, FileName(src)).value.directoryId == Some(c[k].directoryId))
        <==> k == src
  {
    hide Coherent, LookupIn;
    CachedMatches(c, trees, blobs, t, root, Parent(src));
    CachedMatches(c, trees, blobs, t, root, k);
    if LookupIn(t, c[Parent(src)].directoryId, FileName(src)).value.directoryId == Some(c[k].directoryId) {
      DifferentIds(c, trees, blobs, t, root, k, src);
    }
  }

  lemma ParentIds(c: Cache, trees: Trees, blobs: set<Blob>, t: Tree, root: DirectoryId, p: Path, q: Path)
    requires Coherent(c, trees, blobs, t, root) && p in c && q in c && p != q
    ensures c[p].directoryId != c[q].directoryId
  {
    hide Coherent;
    CachedMatches(c, trees, blobs, t, root, q);
    if c[p].directoryId == c[q].directoryId { DifferentIds(c, trees, blobs, t, root, p, q); }
  }

  /** The moved tree's node for a cached directory, by the directory's path. */
  lemma AcrossNode(c: Cache, trees: Trees, blobs: set<Blob>, t: Tree, root: DirectoryId, src: Path, dst: Path,
                   moved: Dir, trees2: Trees, blobs2: set<Blob>, k: Path)
    requires Across(c, trees, blobs, t, root, src, dst, moved, trees2, blobs2) && k in c
    ensures Matches(c[k], t) && StoreOk(c[k], trees, blobs)
    ensures var from, into := c[Parent(src)], c[Parent(dst)]; var i := Find(from.children, FileName(src));
      var u := PlainMove(t, from.directoryId, FileName(src), into.directoryId, FileName(dst));
      && c[k].directoryId in u
      && u[c[k].directoryId] == Node(
          if k == src then into.directoryId else c[k].parentId,
          if k == Parent(src) then Removed(from.children, i)
          else if k == Parent(dst) then Added(into.children, from.children[i].(name := FileName(dst)))
          else c[k].children)
  {
    var from, into := c[Parent(src)].directoryId, c[Parent(dst)].directoryId;
    hide Coherent, PlainMove, StoreOk, Added, Removed, Find, LookupIn, HasMoved, OnlyStored, Walk;
    CachedIsOk(c, trees, blobs, t, root, k);
    CachedIsOk(c, trees, blobs, t, root, Parent(src));
    CachedIsOk(c, trees, blobs, t, root, Parent(dst));
    ParentIds(c, trees, blobs, t, root, Parent(src), Parent(dst));
    if k != Parent(src) { ParentIds(c, trees, blobs, t, root, Parent(src), k); }
    if k != Parent(dst) { ParentIds(c, trees, blobs, t, root, Parent(dst), k); }
    MovedId(c, trees, blobs, t, root, src, k);
    AcrossChildren(t, from, FileName(src), into, FileName(dst), c[k].directoryId);
    assert c[k].directoryId == from <==> k == Parent(src);
    assert c[k].directoryId == into <==> k == Parent(dst);
    assert LookupIn(t, from, FileName(src)).value.directoryId == Some(c[k].directoryId) <==> k == src;
    assert c[k].parentId == t[c[k].directoryId].parent;
  }

  lemma AcrossState(c: Cache, trees: Trees, blobs: set<Blob>, t: Tree, root: DirectoryId, src: Path, dst: Path,
                    moved: Dir, trees2: Trees, blobs2: set<Blob>, k: Path)
    requires Across(c, trees, blobs, t, root, src, dst, moved, trees2, blobs2) && k in c
    ensures k in AcrossStates(c, src, dst, moved)
    ensures NewState(c[k], AcrossStates(c, src, dst, moved)[k],
                     PlainMove(t, c[Parent(src)].directoryId, FileName(src), c[Parent(dst)].directoryId,
                               FileName(dst)), trees2, blobs2)
  {
    hide Coherent, PlainMove, StoreOk, Change, Added, Removed, Find, LookupIn, AcrossStates, Walk;
    AcrossNode(c, trees, blobs, t, root, src, dst, moved, trees2, blobs2, k);
    AcrossStateIs(c, src, dst, moved, k);
    ParentsOutside(src, dst);
    if k != src {
      if src in c { ParentIds(c, trees, blobs, t, root, src, k); }
      StoreOkFrame(c[k], trees, blobs, trees2, blobs2);
      var from, into := c[Parent(src)], c[Parent(dst)];
      var i := Find(from.children, FileName(src));
      if k == Parent(src) {
        ChangedMatches(from, Removed(from.children, i), trees2, blobs2);
      } else if k == Parent(dst) {
        ChangedMatches(into, Added(into.children, from.children[i].(name := FileName(dst))), trees2, blobs2);
      }
    }
  }

  lemma ChangedMatches(d: Dir, children: Children, trees: Trees, blobs: set<Blob>)
    requires StoreOk(d, trees, blobs)
    ensures var e := Change(d, children);
      StoreOk(e, trees, blobs) && e.directoryId == d.directoryId && e.parentId == d.parentId
        && e.newParent == d.newParent && e.children == children
  {
  }

  lemma AcrossStateIs(c: Cache, src: Path, dst: Path, moved: Dir, k: Path)
    requires Apart(src, dst) && Parent(src) != Parent(dst) && Parent(src) in c && Parent(dst) in c && k in c
    requires Find(c[Parent(src)].children, FileName(src)) < |c[Parent(src)].children|
    ensures var from, into := c[Parent(src)], c[Parent(dst)];
      var i := Find(from.children, FileName(src));
      && AcrossStates(c, src, dst, moved).Keys == c.Keys
      && AcrossStates(c, src, dst, moved)[k] ==
          if k == src then moved
          else if k == Parent(src) then Change(from, Removed(from.children, i))
          else if k == Parent(dst) then Change(into, Added(into.children, from.children[i].(name := FileName(dst))))
          else c[k]
  {
    hide Change, Added, Removed;
    ParentsOutside(src, dst);
  }

  lemma AcrossUntouched(c: Cache, trees: Trees, blobs: set<Blob>, t: Tree, root: DirectoryId, src: Path, trees2: Trees,
                        blobs2: set<Blob>)
    requires Coherent(c, trees, blobs, t, root) && OnlyStored(c, src, trees, blobs, trees2, blobs2)
    ensures UncachedUntouched(c, trees, trees2, t, root)
  {
    hide Coherent, Walk;
    forall q | q !in c && Walk(t, root, q).At? && Walk(t, root, q).id in trees
      ensures Walk(t, root, q).id in trees2 && trees2[Walk(t, root, q).id] == trees[Walk(t, root, q).id]
    {
      if src in c && Walk(t, root, q).id == c[src].directoryId { DifferentIds(c, trees, blobs, t, root, src, q); }
    }
  }

  lemma AcrossKeepsCoherent(c: Cache, trees: Trees, blobs: set<Blob>, t: Tree, root: DirectoryId, src: Path, dst: Path,
                            moved: Dir, trees2: Trees, blobs2: set<Blob>)
    requires Across(c, trees, blobs, t, root, src, dst, moved, trees2, blobs2) && IsPath(dst) && Nameable(FileName(dst))
    requires src !in c ==> !Walk(t, root, src).At?
    ensures var u := PlainMove(t, c[Parent(src)].directoryId, FileName(src), c[Parent(dst)].directoryId, FileName(dst));
      && MovePaths(t, u, root, src, dst) && root in t && root in u && u[root].parent == t[root].parent
      && Coherent(R.Moved(src, dst, AcrossStates(c, src, dst, moved)), trees2, blobs2, u, root)
  {
    var from, into := c[Parent(src)].directoryId, c[Parent(dst)].directoryId;
    var u := PlainMove(t, from, FileName(src), into, FileName(dst));
    var e := AcrossStates(c, src, dst, moved);
    MoveIsPossible(c, trees, blobs, t, root, src, dst, from, into);
    AcrossUntouched(c, trees, blobs, t, root, src, trees2, blobs2);
    AcrossStateIs(c, src, dst, moved, Parent(src));
    hide *;
    forall k | k in c ensures NewState(c[k], e[k], u, trees2, blobs2) {
      AcrossState(c, trees, blobs, t, root, src, dst, moved, trees2, blobs2, k);
    }
    AreNewStates(c, e, u, trees2, blobs2);
    StatesKeepCoherent(c, trees, blobs, t, root, src, dst, u, e, trees2, blobs2);
  }

  // ----- waiting for a directory's handlers -----

  /** e is d after handlers have run, and the first that has finished has set the new parent. */
  ghost predicate Waited(d: Dir, e: Dir) {
    && e.directoryId == d.directoryId && e.children == d.children
    && if d.newParent.None? then e.newParent.None? && e.parentId == d.parentId
       else
         || (e.parentId == d.parentId && e.newParent == d.newParent && e.pendingCount == d.pendingCount)
         || (e.newParent.None? && e.parentId == d.newParent.value && d.pendingCount != 0)
  }

  /** A handler step other than a store. */
  lemma QuietWaits(d: Dir, e: Dir, trees: Trees)
    requires Storing(d, trees) && d.pendingCount != 0
    requires (d.waits > 0 && e == Expire(d)) || (d.aborted > 0 && e == Finish(StartAborted(d)))
    ensures Storing(e, trees) && Waited(d, e) && Measure(e) < Measure(d)
  {
  }

  /** A handler that stores, from start to finish. */
  lemma PutDone(d: Dir)
    requires d.fired > 0
    ensures var e := Finish(Put(StartFired(d)));
      e == d.(fired := d.fired - 1, storeState := Complete, unsaved := false, versions := e.versions,
              pendingCount := d.pendingCount - 1,
              parentId := if d.newParent.Some? then d.newParent.value else d.parentId, newParent := None)
  {
    PutIs(StartFired(d));
    hide Put, WithVersion, ProtoChildren;
  }

  lemma PutWaits(d: Dir, e: Dir, trees2: Trees)
    requires Counted(d) && NotLost(d) && BetweenHandlers(d) && d.fired > 0 && e == Finish(Put(StartFired(d)))
    requires Chained(trees2, d.directoryId, e.versions)
    ensures Storing(e, trees2) && Waited(d, e) && Measure(e) < Measure(d)
  {
    PutDone(d);
    hide Put, StartFired, Finish, Chained;
  }

  /** What moving does to a directory: with a handler outstanding it has its new parent before it is
      scheduled; without one the new parent is still to come. */
  ghost predicate IsMoved(d: Dir, e: Dir, parentId: DirectoryId, trees2: Trees, blobs2: set<Blob>) {
    && e.directoryId == d.directoryId && e.children == d.children
    && if d.pendingCount != 0
       then e.parentId == parentId && e.newParent.None? && StoreOk(e, trees2, blobs2)
       else e.newParent == Some(parentId)
  }

  lemma NewParentStores(d: Dir, parentId: DirectoryId, trees: Trees, blobs: set<Blob>)
    requires StoreOk(d, trees, blobs)
    ensures Storing(SetNewParent(d, parentId), trees)
  {
  }

  lemma WaitedIsMoved(d: Dir, parentId: DirectoryId, e: Dir, trees2: Trees, blobs2: set<Blob>)
    requires Waited(SetNewParent(d, parentId), e) && e.pendingCount == 0 && Storing(e, trees2)
    ensures IsMoved(d, Schedule(e), parentId, trees2, blobs2)
  {
  }

  // ----- RenameDifferentParent -----

  function ByHand<V>(c: map<Path, V>, src: Path, dst: Path): map<Path, V> {
    if src in c then (c - {src})[dst := c[src]] else c
  }

  predicate HasSource(c: Cache, src: Path, dst: Path) {
    Parent(src) in c && Parent(dst) in c && Find(c[Parent(src)].children, FileName(src)) < |c[Parent(src)].children|
  }

  /** What the removal and the addition of the child make of the states, e by their keys from before. */
  ghost predicate Crossed(c: Cache, e: Cache, src: Path, dst: Path, trees: Trees, blobs: set<Blob>, trees2: Trees,
                          blobs2: set<Blob>)
    requires HasSource(c, src, dst)
  {
    && OnlyStored(c, src, trees, blobs, trees2, blobs2)
    && (src !in c ==> e == AcrossStates(c, src, dst, c[Parent(src)]))
    && (src in c ==> src in e && e == AcrossStates(c, src, dst, e[src])
                     && IsMoved(c[src], e[src], c[Parent(dst)].directoryId, trees2, blobs2))
  }

  /** The states once a child has joined its new parent; e has that of its own directory. */
  function Joined(c: Cache, e: Cache, src: Path, dst: Path, file: Meta): Cache
    requires Parent(dst) in c && (src in c ==> src in e)
  {
    var d := if src in c then c[src := e[src]] else c;
    d[Parent(dst) := Change(c[Parent(dst)], Added(c[Parent(dst)].children, file.(name := FileName(dst))))]
  }

  /** What becomes of a child that is to move to another directory. */
  datatype Fate = Missing | Lost | Movable

  function FateOf(file: Option<Meta>, cached: bool): Fate {
    match file
    case None => Missing
    case Some(m) => if IsDirectory(m) && !cached then Lost else Movable
  }

  lemma FateIs(file: Option<Meta>, cached: bool)
    ensures FateOf(file, cached) == match file
      case None => Missing
      case Some(m) => if IsDirectory(m) && !cached then Lost else Movable
  {
  }

  lemma CrossedIs(c: Cache, e: Cache, src: Path, dst: Path, file: Meta, trees: Trees, blobs: set<Blob>, trees2: Trees,
                  blobs2: set<Blob>)
    requires Apart(src, dst) && Parent(src) != Parent(dst) && Parent(src) in c && Parent(dst) in c
    requires Lookup(c[Parent(src)].children, FileName(src)) == Some(file)
    requires Parent(dst) in WithoutSource(c, src) && e.Keys == c.Keys
    requires e == Joined(WithoutSource(c, src), e, src, dst, file)
    requires OnlyStored(WithoutSource(c, src), src, trees, blobs, trees2, blobs2)
    requires src in c ==> IsMoved(c[src], e[src], c[Parent(dst)].directoryId, trees2, blobs2)
    ensures Crossed(c, e, src, dst, trees, blobs, trees2, blobs2)
  {
    hide Change, Added, Removed, IsMoved;
    ParentsOutside(src, dst);
    CrossingOrder(c, src, dst, if src in c then e[src] else c[Parent(src)]);
  }

  lemma CrossingOrder(c: Cache, src: Path, dst: Path, moved: Dir)
    requires Apart(src, dst) && Parent(src) != Parent(dst) && Parent(src) in c && Parent(dst) in c
    requires Find(c[Parent(src)].children, FileName(src)) < |c[Parent(src)].children|
    ensures var d := WithoutSource(c, src); var e := if src in c then d[src := moved] else d;
      var m := c[Parent(src)].children[Find(c[Parent(src)].children, FileName(src))].(name := FileName(dst));
      && Parent(dst) in e && e[Parent(dst)] == c[Parent(dst)]
      && e[Parent(dst) := Change(c[Parent(dst)], Added(c[Parent(dst)].children, m))] == AcrossStates(c, src, dst, moved)
  {
    hide Change, Added, Removed;
    ParentsOutside(src, dst);
  }

  // ----- what a rename does to paths -----

  /** The target that a rename does not replace. */
  predicate IsFullDirectory(t: Tree, into: DirectoryId, name: Name) {
    match LookupIn(t, into, name)
    case None => false
    case Some(m) => m.directoryId.Some? && m.directoryId.value in t && t[m.directoryId.value].children != []
  }

  /** What stands in a rename's way: on Windows any directory, elsewhere one that is not empty. */
  predicate Blocks(windows: bool, t: Tree, into: DirectoryId, name: Name) {
    IsFullDirectory(t, into, name) || (windows && LookupIn(t, into, name).Some?
                                       && IsDirectory(LookupIn(t, into, name).value))
  }

  /** The tree once the target is out of the way. */
  function Cleared(t: Tree, into: DirectoryId, name: Name): Tree {
    if LookupIn(t, into, name).Some? then PlainRemove(t, into, name) else t
  }

  /** Everything at and below src is now at and below dst, nothing is left at src, and every path
      outside the two leads where it led. */
  ghost predicate SubtreeMoved(t: Tree, u: Tree, root: DirectoryId, src: Path, dst: Path)
    requires src != [] && dst != []
  {
    && Resolve(t, root, src).Some?
    && Resolve(u, root, dst) == Some(Resolve(t, root, src).value.(name := FileName(dst)))
    && Resolve(u, root, src) == None
    && (forall r: Path :: MovedBelow(t, u, root, src, dst, r))
    && (forall p | !IsWithin(src, p) && !IsWithin(dst, p) :: LeadsAlike(t, u, root, p))
  }

  /** What was found r below src is found r below dst, and not below src any more. */
  ghost predicate MovedBelow(t: Tree, u: Tree, root: DirectoryId, src: Path, dst: Path, r: seq<Name>) {
    && Walk(u, root, dst + r) == Walk(t, root, src + r) && Walk(u, root, src + r) == NoSuchFile
    && (r != [] ==> Resolve(u, root, dst + r) == Resolve(t, root, src + r))
  }

  ghost predicate LeadsAlike(t: Tree, u: Tree, root: DirectoryId, p: Path) {
    Walk(u, root, p) == Walk(t, root, p) && (p != [] ==> Resolve(u, root, p) == Resolve(t, root, p))
  }

  lemma ClearedOutside(t: Tree, root: DirectoryId, dst: Path, q: Path)
    requires TreeOk(t, root) && dst != [] && Walk(t, root, Parent(dst)).At? && Walk(t, root, Parent(dst)).id in t
    requires !IsWithin(dst, q)
    ensures var u := Cleared(t, Walk(t, root, Parent(dst)).id, FileName(dst));
      Walk(u, root, q) == Walk(t, root, q) && (q != [] ==> Resolve(u, root, q) == Resolve(t, root, q))
  {
    var into := Walk(t, root, Parent(dst)).id;
    if LookupIn(t, into, FileName(dst)).Some? {
      RemovedTree(t, root, into, FileName(dst));
      hide PlainRemove, TreeOk, LookupIn, Walk, OnlyAt;
      OutsideOnlyAt(t, Cleared(t, into, FileName(dst)), root, dst, q);
    }
  }

  lemma OutsideOnlyAt(t: Tree, u: Tree, root: DirectoryId, dst: Path, q: Path)
    requires TreeOk(t, root) && dst != [] && Walk(t, root, Parent(dst)).At? && !IsWithin(dst, q)
    requires OnlyAt(t, u, Walk(t, root, Parent(dst)).id, FileName(dst))
    ensures Walk(u, root, q) == Walk(t, root, q) && (q != [] ==> Resolve(u, root, q) == Resolve(t, root, q))
  {
    hide TreeOk, LookupIn, Walk, OnlyAt;
    assert dst == Parent(dst) + [FileName(dst)];
    WalkOnlyAt(t, u, root, Parent(dst), FileName(dst), q);
    if q != [] {
      assert q == Parent(q) + [FileName(q)] && Parent(q) <= q;
      WalkOnlyAt(t, u, root, Parent(dst), FileName(dst), Parent(q));
      if Walk(t, root, Parent(q)).At? {
        WalkInTree(t, root, Parent(q));
        DifferentEntry(t, root, Parent(q), FileName(q), dst);
        EntryOnlyAt(t, u, Walk(t, root, Parent(dst)).id, FileName(dst), Walk(t, root, Parent(q)).id, FileName(q));
      }
    }
  }

  lemma EntryOnlyAt(t: Tree, u: Tree, id: DirectoryId, name: Name, i: DirectoryId, n: Name)
    requires OnlyAt(t, u, id, name) && i in t && !(i == id && n == name)
    ensures LookupIn(u, i, n) == LookupIn(t, i, n)
  {
    assert i == id ==> SameAt(t, u, id, n);
  }

  lemma SourceOutside(src: Path, dst: Path, r: seq<Name>)
    requires Apart(src, dst)
    ensures !IsWithin(dst, src + r)
  {
    assert IsWithin(src, src + r);
    R.WithinExclusive(src, dst, src + r);
  }

  lemma BelowHasMoved(t: Tree, v: Tree, u: Tree, root: DirectoryId, src: Path, dst: Path, r: seq<Name>)
    requires TreeOk(t, root) && Apart(src, dst) && Walk(t, root, Parent(dst)).At? && Walk(t, root, Parent(dst)).id in t
    requires v == Cleared(t, Walk(t, root, Parent(dst)).id, FileName(dst)) && TreeOk(v, root)
    requires MovePaths(v, u, root, src, dst)
    ensures MovedBelow(t, u, root, src, dst, r)
  {
    hide TreeOk, MovePaths, Walk, Resolve, Cleared;
    SourceOutside(src, dst, r);
    WalkMoved(v, u, root, src, dst, r);
    WalkLeft(v, u, root, src, dst, r);
    ClearedOutside(t, root, dst, src + r);
    if r != [] {
      ResolveMoved(v, u, root, src, dst, r);
    }
  }

  /** The move of a child, and the clearing of its target before it, seen from the root. */
  lemma RenameMovesSubtree(t: Tree, u: Tree, root: DirectoryId, src: Path, dst: Path)
    requires TreeOk(t, root) && Apart(src, dst) && Walk(t, root, Parent(dst)).At? && Walk(t, root, Parent(dst)).id in t
    requires var v := Cleared(t, Walk(t, root, Parent(dst)).id, FileName(dst));
      TreeOk(v, root) && MovePaths(v, u, root, src, dst)
    ensures SubtreeMoved(t, u, root, src, dst)
  {
    var v := Cleared(t, Walk(t, root, Parent(dst)).id, FileName(dst));
    hide TreeOk, MovePaths, Walk, Resolve, Cleared, IsWithin;
    WalkAtTarget(v, u, root, src, dst);
    SourceIs(v, u, root, src, dst);
    SourceOutside(src, dst, []);
    assert src + [] == src;
    ClearedOutside(t, root, dst, src);
    hide MovedBelow;
    forall r: Path ensures MovedBelow(t, u, root, src, dst, r) {
      BelowHasMoved(t, v, u, root, src, dst, r);
    }
    forall p | !IsWithin(src, p) && !IsWithin(dst, p) ensures LeadsAlike(t, u, root, p) {
      WalkOutside(v, u, root, src, dst, p);
      ClearedOutside(t, root, dst, p);
    }
  }

  lemma SourceIs(v: Tree, u: Tree, root: DirectoryId, src: Path, dst: Path)
    requires MovePaths(v, u, root, src, dst)
    ensures src != [] && Resolve(v, root, src).Some?
  {
  }

  // ----- what adding and deleting do to paths -----

  /** Every path but those at and below p leads where it led. */
  ghost predicate AlikeOutside(t: Tree, u: Tree, root: DirectoryId, p: Path) {
    forall q | !IsWithin(p, q) :: LeadsAlike(t, u, root, q)
  }

  lemma OnlyAtIsAlike(t: Tree, u: Tree, root: DirectoryId, p: Path)
    requires TreeOk(t, root) && p != [] && Walk(t, root, Parent(p)).At?
    requires OnlyAt(t, u, Walk(t, root, Parent(p)).id, FileName(p))
    ensures AlikeOutside(t, u, root, p)
    ensures Walk(u, root, Parent(p)) == Walk(t, root, Parent(p))
    ensures Resolve(u, root, p) == LookupIn(u, Walk(t, root, Parent(p)).id, FileName(p))
  {
    hide TreeOk, LookupIn, OnlyAt, IsWithin;
    forall q | !IsWithin(p, q) ensures LeadsAlike(t, u, root, q) {
      OutsideOnlyAt(t, u, root, p, q);
    }
    assert !IsWithin(p, Parent(p)) by { ParentIsShorter(p); }
    OutsideOnlyAt(t, u, root, p, Parent(p));
  }

  lemma ParentIsShorter(p: Path)
    requires p != []
    ensures !IsWithin(p, Parent(p))
  {
    assert |Parent(p)| < |p|;
  }

  /** Seen from the root, an addition makes the child's path lead to it; a new directory is empty. */
  lemma AddedIsSeen(t: Tree, root: DirectoryId, p: Path, m: Meta)
    requires TreeOk(t, root) && p != [] && m.name == FileName(p) && Walk(t, root, Parent(p)).At?
    requires Resolve(t, root, p).None? && (m.directoryId.Some? ==> m.directoryId.value !in t)
    requires Walk(t, root, Parent(p)).id in t
    ensures var u := PlainAdd(t, Walk(t, root, Parent(p)).id, m);
      && Resolve(u, root, p) == Some(m) && AlikeOutside(t, u, root, p)
      && (m.directoryId.Some? ==> m.directoryId.value in u && u[m.directoryId.value].children == [])
  {
    var id := Walk(t, root, Parent(p)).id;
    var u := PlainAdd(t, id, m);
    PlainAddLooksUp(t, id, m);
    assert m.directoryId.Some? ==> m.directoryId.value in u && u[m.directoryId.value].children == [];
    assert LookupIn(u, id, m.name) == Some(m);
    forall n | n != m.name ensures SameAt(t, u, id, n) {
    }
    hide PlainAdd, LookupIn, TreeOk, AlikeOutside, SameAt, Walk, Resolve;
    assert OnlyAt(t, u, id, m.name);
    hide OnlyAt;
    OnlyAtIsAlike(t, u, root, p);
  }

  lemma UpdatedIsSeen(t: Tree, root: DirectoryId, p: Path, dataMap: DataMap, size: nat)
    requires TreeOk(t, root) && p != [] && Walk(t, root, Parent(p)).At? && Resolve(t, root, p).Some?
    requires Walk(t, root, Parent(p)).id in t && !IsDirectory(Resolve(t, root, p).value)
    ensures var u := PlainUpdate(t, Walk(t, root, Parent(p)).id, FileName(p), dataMap, size);
      && Resolve(u, root, p) == Some(Resolve(t, root, p).value.(dataMap := Some(dataMap), size := size))
      && AlikeOutside(t, u, root, p)
  {
    var id := Walk(t, root, Parent(p)).id;
    var u := PlainUpdate(t, id, FileName(p), dataMap, size);
    PlainUpdateOk(t, root, id, FileName(p), dataMap, size);
    UpdatedTree(t, root, id, FileName(p), dataMap, size);
    hide PlainUpdate, TreeOk, OnlyAt, AlikeOutside;
    OnlyAtIsAlike(t, u, root, p);
  }

  /** And a removal leaves nothing at the child's path and below it. */
  lemma RemovedIsSeen(t: Tree, root: DirectoryId, p: Path)
    requires TreeOk(t, root) && p != [] && Walk(t, root, Parent(p)).At? && Resolve(t, root, p).Some?
    requires Walk(t, root, Parent(p)).id in t
    ensures var u := PlainRemove(t, Walk(t, root, Parent(p)).id, FileName(p));
      && Resolve(u, root, p) == None && AlikeOutside(t, u, root, p)
      && forall r: Path :: Walk(u, root, p + r) == NoSuchFile
  {
    var id := Walk(t, root, Parent(p)).id;
    var u := PlainRemove(t, id, FileName(p));
    PlainRemoveOk(t, root, id, FileName(p));
    RemovedTree(t, root, id, FileName(p));
    assert LookupIn(u, id, FileName(p)) == None;
    hide PlainRemove, TreeOk, OnlyAt, AlikeOutside;
    OnlyAtIsAlike(t, u, root, p);
    forall r: Path ensures Walk(u, root, p + r) == NoSuchFile {
      WalkFails(u, root, p, r);
    }
  }

  // ----- the whole rename -----

  /** The tree has the child moved, where the paths say. */
  ghost predicate IsRenamed(t: Tree, u: Tree, root: DirectoryId, src: Path, dst: Path) {
    && MovePaths(t, u, root, src, dst)
    && u == PlainMove(t, Walk(t, root, Parent(src)).id, FileName(src), Walk(t, root, Parent(dst)).id, FileName(dst))
  }

  datatype RenameFate =
    | TargetFails(at: Walked)
    | TargetIsFull
    | SourceFails(at: Walked, t: Tree)
    | SourceIsMissing(t: Tree)
    | SourceIsLost(from: DirectoryId, t: Tree)
    | Moves(t: Tree)

  /** What a rename comes to. The target is cleared before the source is looked for; and a directory
      that goes to another parent is lost unless it is cached. */
  ghost function FateOfRename(windows: bool, t: Tree, root: DirectoryId, src: Path, dst: Path,
                              cached: bool): RenameFate {
    match Walk(t, root, Parent(dst))
    case At(into) =>
      if Blocks(windows, t, into, FileName(dst)) then TargetIsFull
      else FateOfSource(Cleared(t, into, FileName(dst)), root, src, dst, cached)
    case failed => TargetFails(failed)
  }

  ghost function FateOfSource(t: Tree, root: DirectoryId, src: Path, dst: Path, cached: bool): RenameFate {
    match Walk(t, root, Parent(src))
    case At(from) =>
      (match FateOf(LookupIn(t, from, FileName(src)), cached || Parent(src) == Parent(dst))
       case Missing => SourceIsMissing(t)
       case Lost => SourceIsLost(from, t)
       case Movable => Moves(t))
    case failed => SourceFails(failed, t)
  }

  lemma FateFound(t: Tree, root: DirectoryId, src: Path, dst: Path, id: DirectoryId, cached: bool)
    requires Walk(t, root, Parent(src)) == At(id) && Parent(src) != Parent(dst)
    ensures var fate := FateOfSource(t, root, src, dst, cached);
      fate.SourceIsMissing? || fate.SourceIsLost? || fate.Moves?
    ensures FateOfSource(t, root, src, dst, cached) == match FateOf(LookupIn(t, id, FileName(src)), cached)
      case Missing => SourceIsMissing(t)
      case Lost => SourceIsLost(id, t)
      case Movable => Moves(t)
  {
  }

  lemma FateIsOfSource(windows: bool, t: Tree, root: DirectoryId, src: Path, dst: Path, into: DirectoryId, cached: bool)
    requires Walk(t, root, Parent(dst)) == At(into) && into in t
    ensures FateOfRename(windows, t, root, src, dst, cached) ==
      if Blocks(windows, t, into, FileName(dst)) then TargetIsFull
      else FateOfSource(Cleared(t, into, FileName(dst)), root, src, dst, cached)
  {
  }

  lemma FateTree(t: Tree, root: DirectoryId, src: Path, dst: Path, cached: bool)
    ensures var fate := FateOfSource(t, root, src, dst, cached);
      !fate.TargetFails? && !fate.TargetIsFull? && fate.t == t
  {
  }

  lemma ClearedIsClear(t: Tree, root: DirectoryId, dst: Path, into: DirectoryId)
    requires TreeOk(t, root) && into in t
    ensures into in Cleared(t, into, FileName(dst))
    ensures LookupIn(Cleared(t, into, FileName(dst)), into, FileName(dst)).None?
  {
    if LookupIn(t, into, FileName(dst)).Some? {
      PlainRemoveOk(t, root, into, FileName(dst));
      assert LookupIn(PlainRemove(t, into, FileName(dst)), into, FileName(dst)) == None;
    }
  }

  /** A rename that does not succeed leaves the tree alone: one that finds the source missing does
      exactly if there is nothing at the target, and one that loses a directory does not. */
  ghost predicate LeavesTree(windows: bool, t: Tree, root: DirectoryId, src: Path, dst: Path, cached: bool)
    requires dst != []
  {
    match FateOfRename(windows, t, root, src, dst, cached)
    case SourceFails(_, _) => Resolve(t, root, dst).None?
    case SourceIsMissing(_) => Resolve(t, root, dst).None?
    case SourceIsLost(_, _) => false
    case _ => true
  }

  lemma ClearingLeavesTree(t: Tree, root: DirectoryId, into: DirectoryId, name: Name)
    requires TreeOk(t, root) && into in t
    ensures Cleared(t, into, name) == t <==> LookupIn(t, into, name).None?
  {
    if LookupIn(t, into, name).Some? { PlainRemoveOk(t, root, into, name); }
    hide TreeOk, PlainRemove;
  }

  lemma ClearedIsOk(t: Tree, root: DirectoryId, into: DirectoryId, name: Name)
    requires TreeOk(t, root) && into in t
    ensures TreeOk(Cleared(t, into, name), root) && Cleared(t, into, name).Keys == t.Keys
    ensures forall i, n :: LookupIn(Cleared(t, into, name), i, n).Some? ==> LookupIn(t, i, n).Some?
  {
    if LookupIn(t, into, name).Some? {
      PlainRemoveOk(t, root, into, name);
      RemovedNodes(t, into, name);
    }
    hide TreeOk, PlainRemove, LookupIn;
  }

  lemma RemovingChangesTree(t: Tree, root: DirectoryId, into: DirectoryId, name: Name, id: DirectoryId, gone: Name)
    requires TreeOk(t, root) && into in t
    requires var v := Cleared(t, into, name); id in v && LookupIn(v, id, gone).Some?
    ensures PlainRemove(Cleared(t, into, name), id, gone) != t
  {
    ClearedIsOk(t, root, into, name);
    PlainRemoveOk(Cleared(t, into, name), root, id, gone);
    hide TreeOk, PlainRemove, Cleared, LookupIn;
    assert LookupIn(PlainRemove(Cleared(t, into, name), id, gone), id, gone) == None;
  }

  /** The tree after a rename that did not succeed. */
  ghost predicate IsLeft(fate: RenameFate, src: Path, t: Tree, u: Tree)
    requires src != []
  {
    match fate
    case SourceFails(_, v) => u == v
    case SourceIsMissing(v) => u == v
    case SourceIsLost(id, v) => id in v && LookupIn(v, id, FileName(src)).Some?
      && u == PlainRemove(v, id, FileName(src))
    case _ => u == t
  }

  lemma FailedRenameLeavesTreeIff(windows: bool, t: Tree, root: DirectoryId, src: Path, dst: Path, cached: bool,
                                  u: Tree)
    requires TreeOk(t, root) && src != [] && dst != []
    requires IsLeft(FateOfRename(windows, t, root, src, dst, cached), src, t, u)
    requires !FateOfRename(windows, t, root, src, dst, cached).Moves?
    ensures u == t <==> LeavesTree(windows, t, root, src, dst, cached)
  {
    hide TreeOk, PlainRemove, Cleared, LookupIn, Walk, Blocks;
    var fate := FateOfRename(windows, t, root, src, dst, cached);
    if !fate.TargetFails? && !fate.TargetIsFull? {
      WalkInTree(t, root, Parent(dst));
      var into := Walk(t, root, Parent(dst)).id;
      FateIsOfSource(windows, t, root, src, dst, into, cached);
      FateTree(Cleared(t, into, FileName(dst)), root, src, dst, cached);
      if fate.SourceIsLost? {
        RemovingChangesTree(t, root, into, FileName(dst), fate.from, FileName(src));
      } else {
        ClearingLeavesTree(t, root, into, FileName(dst));
      }
    }
  }

  /** What stands in the way, by the entry and the listing. */
  lemma BlocksIs(windows: bool, t: Tree, root: DirectoryId, into: DirectoryId, name: Name)
    requires TreeOk(t, root)
    ensures Blocks(windows, t, into, name) <==>
      match LookupIn(t, into, name)
      case None => false
      case Some(m) =>
        m.directoryId.Some? && (windows || (m.directoryId.value in t && t[m.directoryId.value].children != []))
  {
    LookupMember(t, root, into, name);
  }

  /** In the cleared tree nothing is left at the target, and every other entry is as it was. */
  lemma ClearedResolves(t: Tree, root: DirectoryId, dst: Path, q: Path)
    requires TreeOk(t, root) && dst != [] && q != [] && Walk(t, root, Parent(dst)).At?
    requires Walk(t, root, Parent(dst)).id in t && q != dst
    ensures var v := Cleared(t, Walk(t, root, Parent(dst)).id, FileName(dst));
      && Walk(v, root, Parent(q)) == (if IsWithin(dst, Parent(q)) then NoSuchFile else Walk(t, root, Parent(q)))
      && (!IsWithin(dst, Parent(q)) ==> Resolve(v, root, q) == Resolve(t, root, q))
  {
    hide *;
    var v := Cleared(t, Walk(t, root, Parent(dst)).id, FileName(dst));
    if IsWithin(dst, Parent(q)) {
      NothingAtCleared(t, root, dst);
      BelowOf(dst, Parent(q));
      WalkFails(v, root, dst, Parent(q)[|dst|..]);
    } else {
      WithinParent(dst, q);
      ClearedOutside(t, root, dst, Parent(q));
      ClearedOutside(t, root, dst, q);
    }
  }

  lemma WithinParent(dst: Path, q: Path)
    requires q != [] && q != dst
    ensures IsWithin(dst, q) ==> IsWithin(dst, Parent(q))
  {
    assert q == Parent(q) + [FileName(q)];
  }

  lemma NothingAtCleared(t: Tree, root: DirectoryId, dst: Path)
    requires TreeOk(t, root) && dst != [] && Walk(t, root, Parent(dst)).At? && Walk(t, root, Parent(dst)).id in t
    ensures Walk(Cleared(t, Walk(t, root, Parent(dst)).id, FileName(dst)), root, dst) == NoSuchFile
  {
    var into := Walk(t, root, Parent(dst)).id;
    ParentIsShorter(dst);
    ClearedOutside(t, root, dst, Parent(dst));
    ClearedIsClear(t, root, dst, into);
    hide Cleared, TreeOk, LookupIn;
  }

  lemma AtIsDirectory(t: Tree, root: DirectoryId, p: Path)
    requires p != [] && Walk(t, root, p).At?
    ensures Resolve(t, root, p).Some? && Resolve(t, root, p).value.directoryId == Some(Walk(t, root, p).id)
  {
    hide LookupIn;
  }

  lemma HasEntry(t: Tree, root: DirectoryId, p: Path)
    requires p != [] && Resolve(t, root, p).Some?
    ensures Walk(t, root, Parent(p)).At? && Walk(t, root, Parent(p)).id in t
    ensures t[Walk(t, root, Parent(p)).id].children != []
  {
    hide Walk;
  }

  /** A target with the source below it is a directory that is not empty. */
  lemma HoldsSource(t: Tree, root: DirectoryId, src: Path, dst: Path)
    requires TreeOk(t, root) && src != [] && dst != [] && IsWithin(dst, Parent(src)) && Resolve(t, root, src).Some?
    ensures var target := Resolve(t, root, dst);
      && target.Some? && target.value.directoryId.Some? && target.value.directoryId.value in t
      && t[target.value.directoryId.value].children != []
  {
    hide *;
    HasEntry(t, root, src);
    WalkPrefix(t, root, dst, Parent(src)) by { BelowOf(dst, Parent(src)); }
    WalkInTree(t, root, dst);
    AtIsDirectory(t, root, dst);
    NotEmptyAbove(t, root, dst, Parent(src));
  }

  lemma BelowOf(top: Path, p: Path)
    requires IsWithin(top, p)
    ensures top <= p && top + p[|top|..] == p && (p[|top|..] == [] ==> p == top)
  {
  }

  lemma NotEmptyAbove(t: Tree, root: DirectoryId, top: Path, p: Path)
    requires IsWithin(top, p) && Walk(t, root, p).At? && Walk(t, root, p).id in t
    requires t[Walk(t, root, p).id].children != []
    requires Walk(t, root, top).At? && Walk(t, root, top).id in t
    ensures t[Walk(t, root, top).id].children != []
  {
    hide *;
    BelowOf(top, p);
    if t[Walk(t, root, top).id].children == [] && p[|top|..] != [] {
      EmptyBelow(t, root, top, p[|top|..]);
    }
  }

  lemma SourceFateMeans(t: Tree, root: DirectoryId, src: Path, dst: Path, cached: bool)
    requires src != []
    ensures var fate := FateOfSource(t, root, src, dst, cached); var source := Resolve(t, root, src);
      && !fate.TargetFails? && !fate.TargetIsFull?
      && (fate.SourceFails? <==> !Walk(t, root, Parent(src)).At?)
      && (fate.SourceFails? ==> fate.at == Walk(t, root, Parent(src)) && source.None?)
      && (fate.Moves? <==> source.Some? && (IsDirectory(source.value) ==> cached || Parent(src) == Parent(dst)))
  {
    hide Walk, LookupIn;
  }

  lemma TargetFateMeans(windows: bool, t: Tree, root: DirectoryId, src: Path, dst: Path, cached: bool)
    requires TreeOk(t, root) && dst != []
    ensures var fate := FateOfRename(windows, t, root, src, dst, cached); var target := Resolve(t, root, dst);
      && (fate.TargetFails? <==> !Walk(t, root, Parent(dst)).At?)
      && (fate.TargetFails? ==> fate.at == Walk(t, root, Parent(dst)))
      && (fate.TargetIsFull? <==>
            match target
            case None => false
            case Some(m) =>
              m.directoryId.Some? && (windows || (m.directoryId.value in t && t[m.directoryId.value].children != [])))
  {
    if Walk(t, root, Parent(dst)).At? {
      BlocksIs(windows, t, root, Walk(t, root, Parent(dst)).id, FileName(dst));
      FateTree(Cleared(t, Walk(t, root, Parent(dst)).id, FileName(dst)), root, src, dst, cached);
    }
    hide Walk, LookupIn, Blocks, Cleared, TreeOk, FateOfSource;
  }

  /** The fate of a rename, by what its two paths resolve to before it. */
  lemma FateMeans(windows: bool, t: Tree, root: DirectoryId, src: Path, dst: Path, cached: bool)
    requires TreeOk(t, root) && src != [] && dst != [] && src != dst
    ensures var fate := FateOfRename(windows, t, root, src, dst, cached);
      var target := Resolve(t, root, dst);
      var source := Resolve(t, root, src);
      && (fate.TargetFails? <==> !Walk(t, root, Parent(dst)).At?)
      && (fate.TargetFails? ==> fate.at == Walk(t, root, Parent(dst)))
      && (fate.TargetIsFull? <==>
            match target
            case None => false
            case Some(m) =>
              m.directoryId.Some? && (windows || (m.directoryId.value in t && t[m.directoryId.value].children != [])))
      && (fate.SourceFails? ==>
            fate.at == if IsWithin(dst, Parent(src)) then NoSuchFile else Walk(t, root, Parent(src)))
      && (!fate.TargetFails? && !fate.TargetIsFull? && !IsWithin(dst, Parent(src)) ==>
            Walk(t, root, Parent(src)).At? || fate.SourceFails?)
      && (fate.Moves? <==>
            && !fate.TargetFails? && !fate.TargetIsFull? && source.Some?
            && (IsDirectory(source.value) ==> cached || Parent(src) == Parent(dst)))
  {
    TargetFateMeans(windows, t, root, src, dst, cached);
    if Walk(t, root, Parent(dst)).At? {
      WalkInTree(t, root, Parent(dst));
      var into := Walk(t, root, Parent(dst)).id;
      FateIsOfSource(windows, t, root, src, dst, into, cached);
      SourceFateMeans(Cleared(t, into, FileName(dst)), root, src, dst, cached);
      ClearedResolves(t, root, dst, src);
      if IsWithin(dst, Parent(src)) && Resolve(t, root, src).Some? { HoldsSource(t, root, src, dst); }
    }
    hide *;
  }

  lemma RenamedIsMove(t: Tree, u: Tree, root: DirectoryId, src: Path, dst: Path)
    requires IsRenamed(t, u, root, src, dst)
    ensures MovePaths(t, u, root, src, dst) && Apart(src, dst)
  {
  }

  /** The keys the cache has or may get on the way, as the re-keying loop needs them. */
  ghost predicate RekeyIsSafe(keys: set<Path>, src: Path, dst: Path)
    requires |src| >= 2
  {
    forall k | (k in keys || IsWithin(k, Parent(dst))) && Covers(src, k) :: IsWithin(src, k) && !Covers(src, dst)
  }

  /** On such a cache there are no outsiders. */
  lemma SafeHasNoOutsiders(keys: set<Path>, src: Path, dst: Path)
    requires |src| >= 2 && |dst| >= 2 && IsPath(src) && IsPath(dst) && RekeyIsSafe(keys, src, dst)
    ensures R.Outsiders(src, keys) == {} && R.AllDropOut(src, dst, keys)
  {
  }

  /** No key the cache has or may get on the way would be chased by the re-keying loop, so that the
      loop ends. */
  ghost predicate RekeyEnds(keys: set<Path>, src: Path, dst: Path)
    requires |src| >= 2 && |dst| >= 2
  {
    forall k | k in keys || IsWithin(k, Parent(dst)) :: !R.Chases(src, dst, k)
  }

  lemma EndsGrows(keys: set<Path>, more: set<Path>, src: Path, dst: Path)
    requires |src| >= 2 && |dst| >= 2 && RekeyEnds(keys, src, dst)
    requires forall k | k in more && k !in keys :: IsWithin(k, Parent(dst)) || IsWithin(k, Parent(src))
    ensures RekeyEnds(more, src, dst)
  {
    forall k | IsWithin(k, Parent(src)) ensures !Covers(src, k) {
      assert |k| < |src|;
    }
  }

  lemma CoveredParent(src: Path, dst: Path)
    requires |src| >= 2 && |dst| >= 2 && Covers(src, dst) && Parent(src) != Parent(dst)
    ensures Covers(src, Parent(dst))
  {
    var n, p := |src| - 1, Parent(dst);
    assert |src| == |dst| ==> Parent(src) == p;
    assert p[..n] == dst[..n] && p[n] == dst[n];
  }

  /** A rename to another parent whose text the source's starts chases the parent itself. */
  lemma ParentIsChased(src: Path, dst: Path)
    requires |src| >= 2 && |dst| >= 2 && Covers(src, dst) && Parent(src) != Parent(dst)
    ensures R.Chases(src, dst, Parent(dst))
  {
    CoveredParent(src, dst);
    var p := Parent(dst);
    ProperPrefixIsLess(NameLess, p, Retarget(src, dst, p));
  }

  /** So the loop does not end when a directory is renamed to a path inside itself. */
  lemma EndsIsOutside(keys: set<Path>, src: Path, dst: Path)
    requires |src| >= 2 && |dst| >= 2 && RekeyEnds(keys, src, dst) && src != dst
    ensures !IsWithin(src, dst)
  {
    if IsWithin(src, dst) {
      R.WithinIsCovered(src, dst);
      assert |Parent(src)| != |Parent(dst)|;
      ParentIsChased(src, dst);
      assert IsWithin(Parent(dst), Parent(dst));
    }
  }

  /** No outsider is on the way to the target, where the loop ends. */
  lemma OutsidersAreApart(keys: set<Path>, src: Path, dst: Path)
    requires |src| >= 2 && |dst| >= 2 && RekeyEnds(keys, src, dst) && dst !in keys
    ensures forall k | k in R.Outsiders(src, keys) :: !IsWithin(k, dst)
    ensures Parent(src) != Parent(dst) ==> !Covers(src, dst)
  {
    if Covers(src, dst) && Parent(src) != Parent(dst) {
      ParentIsChased(src, dst);
      assert IsWithin(Parent(dst), Parent(dst));
    }
    assert |src| < |dst| ==> Parent(src) != Parent(dst);
    CoveredFront(src, dst);
  }

  lemma CoveredFront(src: Path, dst: Path)
    requires |src| >= 2
    ensures forall k | Covers(src, k) && IsWithin(k, dst) && k != dst :: Covers(src, dst) && |src| < |dst|
  {
    forall k | Covers(src, k) && IsWithin(k, dst) && k != dst ensures Covers(src, dst) && |src| < |dst| {
      assert dst[..|src| - 1] == k[..|src| - 1] && dst[|src| - 1] == k[|src| - 1];
    }
  }

  /** Moving the directory's own entry by hand makes no difference to the outsiders. */
  lemma SameOutsiders<V>(c: map<Path, V>, src: Path, dst: Path)
    requires |src| >= 2 && |dst| >= 2 && IsPath(src) && IsPath(dst) && RekeyEnds(c.Keys, src, dst) && dst !in c
    requires Parent(src) != Parent(dst) && forall k | k in c :: IsPath(k)
    ensures R.Outsiders(src, ByHand(c, src, dst).Keys) == R.Outsiders(src, c.Keys)
    ensures R.AllDropOut(src, dst, ByHand(c, src, dst).Keys) <==> R.AllDropOut(src, dst, c.Keys)
  {
    OutsidersAreApart(c.Keys, src, dst);
    var keys := ByHand(c, src, dst).Keys;
    assert R.Outsiders(src, keys) == R.Outsiders(src, c.Keys);
    forall k | k in R.Outsiders(src, c.Keys)
      ensures !R.Chases(src, dst, k) && (R.DropsOut(src, dst, keys, k) <==> R.DropsOut(src, dst, c.Keys, k))
    {
      R.SameDropsOut(src, dst, keys, c.Keys, k);
    }
  }

  /** What the loop has left is the moved cache without the outsiders exactly if these drop out. */
  lemma DroppedByKeys<V>(src: Path, dst: Path, c: map<Path, V>, d: map<Path, V>, e: map<Path, V>)
    requires |src| >= 2 && |dst| >= 2 && R.Injective(c) && dst !in c && RekeyEnds(c.Keys, src, dst)
    requires R.Prepared(src, dst, c) && R.Prepared(src, dst, d) && (forall k | k in c :: !IsWithin(dst, k))
    requires Apart(src, dst)
    requires d == c || (Parent(src) != Parent(dst) && d == ByHand(c, src, dst))
    requires R.Rekeyed(src, dst, d, e)
    ensures R.AllDropOut(src, dst, c.Keys) <==> e == R.Moved(src, dst, c) - R.Outsiders(src, c.Keys)
    ensures R.AllDropOut(src, dst, c.Keys) <==> R.OutsidersDropped(src, c, e)
  {
    assert R.Injective(d);
    if d != c {
      SameOutsiders(c, src, dst);
      if src in c { MovedByHand(src, dst, c); }
    }
    R.DroppedIff(src, dst, d, e);
    R.OutsidersDroppedIff(src, dst, d, e);
    hide R.Moved, R.AllDropOut, R.Prepared, R.Rekeyed;
  }

  /** Loading the directories on the way and clearing the target makes no difference to them either. */
  lemma SameToOutsiders(keys: set<Path>, more: set<Path>, src: Path, dst: Path)
    requires |src| >= 2 && |dst| >= 2 && IsPath(src) && IsPath(dst) && src != dst && RekeyEnds(keys, src, dst)
    requires ClosedUnderParents(keys) && forall k | k in keys :: IsPath(k)
    requires forall x | x in keys && x !in more :: x == dst
    requires forall x | x in more && x !in keys :: IsWithin(x, Parent(dst)) || IsWithin(x, Parent(src))
    ensures R.Outsiders(src, more) == R.Outsiders(src, keys)
    ensures R.AllDropOut(src, dst, more) <==> R.AllDropOut(src, dst, keys)
  {
    NotOnTheWay(keys, src, dst);
    assert R.Outsiders(src, more) == R.Outsiders(src, keys);
    forall k | k in R.Outsiders(src, keys)
      ensures !R.Chases(src, dst, k) && (R.DropsOut(src, dst, more, k) <==> R.DropsOut(src, dst, keys, k))
    {
      forall x | IsWithin(x, Parent(src)) ensures x in keys {
        assert x <= src[..|src| - 1] == k[..|src| - 1] <= k;
        PrefixCached(keys, x, k);
      }
      assert forall x | IsWithin(x, Parent(dst)) :: |x| < |dst|;
      R.SameDropsOut(src, dst, more, keys, k);
    }
  }

  lemma NotOnTheWay(keys: set<Path>, src: Path, dst: Path)
    requires |src| >= 2 && |dst| >= 2 && src != dst && RekeyEnds(keys, src, dst)
    ensures dst in keys ==> !Covers(src, dst)
    ensures forall x | IsWithin(x, Parent(dst)) || IsWithin(x, Parent(src)) :: !Covers(src, x)
  {
    assert |src| < |dst| ==> Parent(src) != Parent(dst);
    CoveredFront(src, dst);
    assert Parent(dst) <= dst;
    if Covers(src, dst) {
      if Parent(src) != Parent(dst) {
        ParentIsChased(src, dst);
        assert IsWithin(Parent(dst), Parent(dst));
      }
      SourceIsChased(src, dst);
    }
  }

  /** The target itself would be chased. */
  lemma SourceIsChased(src: Path, dst: Path)
    requires |src| >= 2 && |dst| >= 2 && Covers(src, dst) && src != dst
    ensures R.Chases(src, dst, dst)
  {
    PathOrder();
    R.WithinRetargets(src, dst, src);
    assert R.Target(src, dst, src) == dst;
    R.CoveredNotBefore(src, dst);
    R.ChaseGoesOn(src, dst, src);
  }

  lemma EndsForRekey<V>(c: map<Path, V>, src: Path, dst: Path)
    requires |src| >= 2 && |dst| >= 2 && RekeyEnds(c.Keys, src, dst)
    ensures !R.Chasing(src, dst, c)
    ensures Parent(src) != Parent(dst) ==> !R.Chasing(src, dst, ByHand(c, src, dst))
  {
    if Parent(src) != Parent(dst) && Covers(src, dst) {
      ParentIsChased(src, dst);
      assert IsWithin(Parent(dst), Parent(dst));
    }
  }

  /** Every rename to another parent whose text starts with the source's runs forever, since its
      parent is in the cache by then. */
  lemma RunsForeverAcross<V>(src: Path, dst: Path, c: map<Path, V>)
    requires |src| >= 2 && |dst| >= 2 && IsPath(src) && IsPath(dst) && R.AllPaths(c)
    requires Covers(src, dst) && Parent(src) != Parent(dst) && Parent(dst) in c
    ensures !R.Ends(src, dst, c)
  {
    ParentIsChased(src, dst);
    R.EndsIffNotChasing(src, dst, c);
  }

  lemma SafeForRekey<V>(c: map<Path, V>, src: Path, dst: Path)
    requires |src| >= 2 && |dst| >= 2 && RekeyIsSafe(c.Keys, src, dst)
    ensures R.Safe(src, dst, c) && RekeyEnds(c.Keys, src, dst)
    ensures Parent(src) != Parent(dst) ==> R.Safe(src, dst, ByHand(c, src, dst))
  {
    if Parent(src) != Parent(dst) && Covers(src, dst) {
      CoveredParent(src, dst);
      assert IsWithin(Parent(dst), Parent(dst));
    }
  }

  /** A cached key whose text starts with the source's, outside its subtree, has lost its entry. */
  ghost predicate OutsidersLost<V>(src: Path, dst: Path, c: map<Path, V>, e: map<Path, V>)
    requires |src| >= 2
  {
    forall k | k in c && k in e && k != dst && Covers(src, k) && !IsWithin(src, k) :: c[k] != e[k]
  }

  lemma ByHandLosesOutsiders<V>(src: Path, dst: Path, c: map<Path, V>, d: map<Path, V>, e: map<Path, V>)
    requires |src| >= 2 && |dst| >= 2 && R.Injective(c) && dst !in c && (d == c || d == ByHand(c, src, dst))
    requires R.Prepared(src, dst, d) && R.Rekeyed(src, dst, d, e)
    ensures OutsidersLost(src, dst, c, e)
  {
    assert R.Injective(d);
    var n: nat :| R.Done(src, R.Run(src, dst, d, n)) && e == R.Run(src, dst, d, n).cache;
    forall k | k in c && k in e && k != dst && Covers(src, k) && !IsWithin(src, k) ensures c[k] != e[k] {
      R.OutsiderIsLost(src, dst, d, k, n);
    }
  }

  lemma PreparedForRekey<V>(c: map<Path, V>, src: Path, dst: Path)
    requires |src| >= 2 && |dst| >= 2 && IsPath(src) && IsPath(dst) && Apart(src, dst)
    requires forall k | k in c :: IsPath(k) && !IsWithin(dst, k)
    ensures R.Prepared(src, dst, c) && R.Prepared(src, dst, ByHand(c, src, dst))
  {
    forall k | k in c && IsWithin(src, k)
      ensures R.Target(src, dst, k) !in c && (k != src ==> R.Target(src, dst, k) != dst)
    {
      assert IsWithin(dst, R.Target(src, dst, k));
      assert k == src + k[|src|..];
    }
  }

  /** A directory whose new parent is still to come does not agree with the tree. */
  lemma NewParentIsIncoherent(c: Cache, trees: Trees, blobs: set<Blob>, t: Tree, root: DirectoryId, k: Path)
    requires k in c && c[k].newParent.Some?
    ensures !Coherent(c, trees, blobs, t, root)
  {
    assert !EntryOk(k, c[k], trees, blobs, t, root);
  }

  /** Both ways: the move between two parents keeps the cache in agreement exactly when the moved
      directory had a handler outstanding, or there is no directory. */
  lemma CrossedIsCoherent(c: Cache, e: Cache, trees: Trees, blobs: set<Blob>, t: Tree, root: DirectoryId, src: Path,
                          dst: Path,
                          trees2: Trees, blobs2: set<Blob>)
    requires Coherent(c, trees, blobs, t, root) && Apart(src, dst) && Parent(src) != Parent(dst)
    requires IsPath(dst) && HasSource(c, src, dst) && |src| >= 2
    requires forall k | k in R.Outsiders(src, c.Keys) :: !IsWithin(k, dst)
    requires c[Parent(src)].directoryId in t && c[Parent(dst)].directoryId in t
    requires LookupIn(t, c[Parent(src)].directoryId, FileName(src)).Some?
    requires LookupIn(t, c[Parent(dst)].directoryId, FileName(dst)).None?
    requires src !in c ==> !Walk(t, root, src).At?
    requires Crossed(c, e, src, dst, trees, blobs, trees2, blobs2)
    ensures var u := PlainMove(t, c[Parent(src)].directoryId, FileName(src), c[Parent(dst)].directoryId, FileName(dst));
      && IsRenamed(t, u, root, src, dst) && root in t && root in u && u[root].parent == t[root].parent
      && (Coherent(MovedWithout(e, src, dst, c.Keys), trees2, blobs2, u, root)
          <==> Nameable(FileName(dst)) && (src in c ==> c[src].pendingCount != 0)
               && AreStored(R.Outsiders(src, c.Keys), trees2, blobs2, u, root))
  {
    hide Coherent, AcrossStates, Walk, PlainMove, LookupIn, StoreOk, Find, OnlyStored, IsMove;
    MoveIsPossible(c, trees, blobs, t, root, src, dst, c[Parent(src)].directoryId, c[Parent(dst)].directoryId);
    var u := PlainMove(t, c[Parent(src)].directoryId, FileName(src), c[Parent(dst)].directoryId, FileName(dst));
    if !Nameable(FileName(dst)) {
      NotCoherent(MovedWithout(e, src, dst, c.Keys), trees2, blobs2, u, root);
    } else if src in c && c[src].pendingCount == 0 {
      R.MovedHas(src, dst, e, src);
      assert R.Target(src, dst, src) == dst && dst !in c by { assert IsWithin(dst, dst); }
      NewParentIsIncoherent(MovedWithout(e, src, dst, c.Keys), trees2, blobs2, u, root, dst);
    } else {
      var moved := if src in c then e[src] else c[Parent(src)];
      AcrossKeepsCoherent(c, trees, blobs, t, root, src, dst, moved, trees2, blobs2);
      AcrossStateIs(c, src, dst, moved, Parent(src));
      StatesKeepCoherentIff(c, trees, blobs, t, root, src, dst, u, e, trees2, blobs2);
    }
  }

  lemma SiblingsAreApart(src: Path, dst: Path)
    requires src != [] && dst != [] && Parent(src) == Parent(dst) && src != dst
    ensures Apart(src, dst)
  {
    assert |src| == |dst|;
  }

  lemma FateWithin(t: Tree, root: DirectoryId, src: Path, dst: Path, id: DirectoryId, cached: bool)
    requires Parent(src) == Parent(dst) && Walk(t, root, Parent(src)) == At(id)
    ensures FateOfSource(t, root, src, dst, cached)
      == if LookupIn(t, id, FileName(src)).None? then SourceIsMissing(t) else Moves(t)
    ensures LookupIn(t, id, FileName(src)).Some? && id in t ==> forall u ::
      IsRenamed(t, u, root, src, dst) <==>
        (MovePaths(t, u, root, src, dst) && u == PlainMove(t, id, FileName(src), id, FileName(dst)))
  {
  }
}
