/** The drive's directory tree without any cache: every directory by its id, and the plain walk
    that follows child directory ids from the root's parent. */
module DirectoryTree {
  import opened Wrappers
  import opened Paths
  import opened MetaData
  import opened Listing
  import opened DirectoryState

  datatype Node = Node(parent: DirectoryId, children: Children)

  type Tree = map<DirectoryId, Node>

  datatype Walked = At(id: DirectoryId) | NoSuchFile | InvalidParameter

  function LookupIn(t: Tree, id: DirectoryId, name: Name): Option<Meta> {
    if id in t then Lookup(t[id].children, name) else None
  }

  /** One step down. */
  function Child(t: Tree, id: DirectoryId, name: Name): Walked {
    match LookupIn(t, id, name)
    case None => NoSuchFile
    case Some(m) => if m.directoryId.Some? then At(m.directoryId.value) else InvalidParameter
  }

  function Walk(t: Tree, root: DirectoryId, p: Path): Walked
    decreases |p|
  {
    if p == [] then At(root)
    else
      match Walk(t, root, Parent(p))
      case At(id) => Child(t, id, FileName(p))
      case failed => failed
  }

  /** The entry at a path: a child of the directory its parent path leads to. */
  function Resolve(t: Tree, root: DirectoryId, p: Path): Option<Meta>
    requires p != []
  {
    match Walk(t, root, Parent(p))
    case At(id) => LookupIn(t, id, FileName(p))
    case _ => None
  }

  ghost predicate IsDirectoryAt(t: Tree, root: DirectoryId, p: Path) {
    p != [] && Resolve(t, root, p).Some? && Resolve(t, root, p).value.directoryId.Some?
  }

  ghost predicate IsFileAt(t: Tree, root: DirectoryId, p: Path) {
    p != [] && Resolve(t, root, p).Some? && !IsDirectoryAt(t, root, p)
  }

  ghost predicate IsNothingAt(t: Tree, root: DirectoryId, p: Path) {
    p != [] && Resolve(t, root, p).None? && Walk(t, root, Parent(p)).At?
  }

  /** Some step of the path is there and is no directory ... */
  ghost predicate MeetsFile(t: Tree, root: DirectoryId, p: Path) {
    exists n | 0 < n <= |p| :: IsFileAt(t, root, p[..n])
  }

  /** ... or there is nothing at a step below a directory. */
  ghost predicate MeetsNothing(t: Tree, root: DirectoryId, p: Path) {
    exists n | 0 < n <= |p| :: IsNothingAt(t, root, p[..n])
  }

  /** A path leads to a directory exactly if every step of it does. */
  lemma {:induction false} WalkNeedsSteps(t: Tree, root: DirectoryId, p: Path)
    ensures Walk(t, root, p).At? <==> forall k | 0 < k <= |p| :: IsDirectoryAt(t, root, p[..k])
    decreases |p|
  {
    if p != [] {
      WalkNeedsSteps(t, root, Parent(p));
      assert p[..|p|] == p;
      assert forall k | 0 < k < |p| :: Parent(p)[..k] == p[..k];
    }
  }

  lemma FrontOf(p: Path)
    requires p != []
    ensures |Parent(p)| == |p| - 1 && p[..|p|] == p && forall n | 0 < n < |p| :: Parent(p)[..n] == p[..n]
  {
  }

  lemma MeetsFileStep(t: Tree, root: DirectoryId, p: Path)
    requires p != []
    ensures MeetsFile(t, root, p) <==> MeetsFile(t, root, Parent(p)) || IsFileAt(t, root, p)
  {
    FrontOf(p);
    hide IsFileAt, Parent;
    if MeetsFile(t, root, p) {
      var n :| 0 < n <= |p| && IsFileAt(t, root, p[..n]);
      if n < |p| { assert IsFileAt(t, root, Parent(p)[..n]); }
    }
    if MeetsFile(t, root, Parent(p)) {
      var n :| 0 < n <= |Parent(p)| && IsFileAt(t, root, Parent(p)[..n]);
      assert IsFileAt(t, root, p[..n]);
    }
    if IsFileAt(t, root, p) { assert IsFileAt(t, root, p[..|p|]); }
  }

  lemma MeetsNothingStep(t: Tree, root: DirectoryId, p: Path)
    requires p != []
    ensures MeetsNothing(t, root, p) <==> MeetsNothing(t, root, Parent(p)) || IsNothingAt(t, root, p)
  {
    FrontOf(p);
    hide IsNothingAt, Parent;
    if MeetsNothing(t, root, p) {
      var n :| 0 < n <= |p| && IsNothingAt(t, root, p[..n]);
      if n < |p| { assert IsNothingAt(t, root, Parent(p)[..n]); }
    }
    if MeetsNothing(t, root, Parent(p)) {
      var n :| 0 < n <= |Parent(p)| && IsNothingAt(t, root, Parent(p)[..n]);
      assert IsNothingAt(t, root, p[..n]);
    }
    if IsNothingAt(t, root, p) { assert IsNothingAt(t, root, p[..|p|]); }
  }

  /** How a walk fails, by what the steps of its path resolve to. */
  lemma {:induction false} WalkFailsAs(t: Tree, root: DirectoryId, p: Path)
    ensures Walk(t, root, p) == InvalidParameter <==> MeetsFile(t, root, p)
    ensures Walk(t, root, p) == NoSuchFile <==> MeetsNothing(t, root, p)
    decreases |p|
  {
    if p != [] {
      WalkFailsAs(t, root, Parent(p));
      MeetsFileStep(t, root, p);
      MeetsNothingStep(t, root, p);
      hide MeetsFile, MeetsNothing, LookupIn;
    }
  }

  /** Listings are as the directories keep them, and every directory is a child in exactly one
      place, which it knows by its parent id. */
  ghost predicate TreeOk(t: Tree, root: DirectoryId) {
    && root in t
    && (forall id | id in t :: Storable(t[id].children))
    && (forall id, m | id in t && m in t[id].children && m.directoryId.Some? ::
          ChildOk(t, root, id, m.directoryId.value))
    && (forall id, m, n | id in t && m in t[id].children && n in t[id].children
          && m.directoryId.Some? && m.directoryId == n.directoryId :: m == n)
  }

  ghost predicate ChildOk(t: Tree, root: DirectoryId, id: DirectoryId, child: DirectoryId) {
    child in t && child != root && t[child].parent == id
  }

  lemma LookupMember(t: Tree, root: DirectoryId, id: DirectoryId, name: Name)
    requires TreeOk(t, root)
    ensures LookupIn(t, id, name).Some? ==>
      && id in t && LookupIn(t, id, name).value in t[id].children
      && LookupIn(t, id, name).value.name == name && WellFormed(LookupIn(t, id, name).value)
      && (LookupIn(t, id, name).value.directoryId.Some? ==>
          ChildOk(t, root, id, LookupIn(t, id, name).value.directoryId.value))
    ensures Child(t, id, name).At? ==> ChildOk(t, root, id, Child(t, id, name).id)
  {
  }

  lemma {:induction false} WalkInTree(t: Tree, root: DirectoryId, p: Path)
    requires TreeOk(t, root)
    ensures Walk(t, root, p).At? ==> Walk(t, root, p).id in t
    ensures Walk(t, root, p) == At(root) ==> p == []
    ensures p != [] && Walk(t, root, p).At? ==>
      Walk(t, root, Parent(p)).At? && t[Walk(t, root, p).id].parent == Walk(t, root, Parent(p)).id
    decreases |p|
  {
    if p != [] {
      WalkInTree(t, root, Parent(p));
      if Walk(t, root, Parent(p)).At? {
        LookupMember(t, root, Walk(t, root, Parent(p)).id, FileName(p));
      }
    }
  }

  /** Within one directory, a child directory has one name. */
  lemma ChildInjective(t: Tree, root: DirectoryId, id: DirectoryId, a: Name, b: Name)
    requires TreeOk(t, root) && Child(t, id, a).At? && Child(t, id, a) == Child(t, id, b)
    ensures a == b
  {
    LookupMember(t, root, id, a);
    LookupMember(t, root, id, b);
  }

  lemma WalkStep(t: Tree, root: DirectoryId, p: Path)
    requires p != [] && Walk(t, root, Parent(p)).At?
    ensures Walk(t, root, p) == Child(t, Walk(t, root, Parent(p)).id, FileName(p))
  {
  }

  /** A directory has one parent ... */
  lemma SameParents(t: Tree, root: DirectoryId, p: Path, q: Path)
    requires TreeOk(t, root) && Walk(t, root, p).At? && Walk(t, root, p) == Walk(t, root, q) && p != []
    ensures q != []
    ensures Walk(t, root, Parent(p)).At? && Walk(t, root, Parent(p)) == Walk(t, root, Parent(q))
  {
    WalkInTree(t, root, p);
    WalkInTree(t, root, q);
    hide TreeOk;
  }

  /** ... and one name there. */
  lemma SameNames(t: Tree, root: DirectoryId, p: Path, q: Path)
    requires TreeOk(t, root) && Walk(t, root, p).At? && Walk(t, root, p) == Walk(t, root, q)
    requires p != [] && q != [] && Walk(t, root, Parent(p)).At? && Parent(p) == Parent(q)
    ensures p == q
  {
    hide TreeOk, Walk, Child;
    WalkStep(t, root, p);
    WalkStep(t, root, q);
    ChildInjective(t, root, Walk(t, root, Parent(p)).id, FileName(p), FileName(q));
    assert p == Parent(p) + [FileName(p)] && q == Parent(q) + [FileName(q)];
  }

  /** Different paths lead to different directories. */
  lemma {:induction false} WalkInjective(t: Tree, root: DirectoryId, p: Path, q: Path)
    requires TreeOk(t, root) && Walk(t, root, p).At? && Walk(t, root, p) == Walk(t, root, q)
    ensures p == q
    decreases |p|
  {
    hide TreeOk, Walk;
    if p == [] {
      if q != [] { SameParents(t, root, q, p); }
    } else {
      SameParents(t, root, p, q);
      WalkInjective(t, root, Parent(p), Parent(q));
      SameNames(t, root, p, q);
    }
  }

  lemma {:induction false} WalkPrefix(t: Tree, root: DirectoryId, p: Path, q: Path)
    requires p <= q && Walk(t, root, q).At?
    ensures Walk(t, root, p).At?
    decreases |q|
  {
    if p != q {
      assert p <= Parent(q);
      WalkPrefix(t, root, p, Parent(q));
    }
  }

  lemma {:induction false} WalkFails(t: Tree, root: DirectoryId, p: Path, r: seq<Name>)
    requires !Walk(t, root, p).At?
    ensures Walk(t, root, p + r) == Walk(t, root, p)
    decreases |r|
  {
    if r == [] {
      assert p + r == p;
    } else {
      assert Parent(p + r) == p + Parent(r);
      WalkFails(t, root, p, Parent(r));
    }
  }

  // ----- changing one listing -----

  function WithChildren(t: Tree, id: DirectoryId, children: Children): Tree
    requires id in t
  {
    t[id := Node(t[id].parent, children)]
  }

  /** The tree with a child added; a new directory is empty. */
  function PlainAdd(t: Tree, id: DirectoryId, m: Meta): Tree
    requires id in t
  {
    var u := WithChildren(t, id, Added(t[id].children, m));
    if m.directoryId.Some? then u[m.directoryId.value := Node(id, [])] else u
  }

  function PlainRemove(t: Tree, id: DirectoryId, name: Name): Tree
    requires id in t && LookupIn(t, id, name).Some?
  {
    WithChildren(t, id, Removed(t[id].children, Find(t[id].children, name)))
  }

  function PlainUpdate(t: Tree, id: DirectoryId, name: Name, dataMap: DataMap, size: nat): Tree
    requires id in t
  {
    WithChildren(t, id, Updated(t[id].children, name, dataMap, size))
  }

  /** The tree with a child moved and renamed. */
  function PlainMove(t: Tree, src: DirectoryId, oldName: Name, dst: DirectoryId, newName: Name): Tree
    requires src in t && dst in t && LookupIn(t, src, oldName).Some?
  {
    var m := LookupIn(t, src, oldName).value;
    if src == dst then WithChildren(t, src, Renamed(t[src].children, oldName, newName))
    else
      var removed := PlainRemove(t, src, oldName);
      var added := WithChildren(removed, dst, Added(removed[dst].children, m.(name := newName)));
      if m.directoryId.Some? && m.directoryId.value in added
      then added[m.directoryId.value := Node(dst, added[m.directoryId.value].children)]
      else added
  }

  lemma PlainAddLooksUp(t: Tree, id: DirectoryId, m: Meta)
    requires id in t && Sorted(t[id].children) && LookupIn(t, id, m.name).None?
    requires m.directoryId.Some? ==> m.directoryId.value !in t
    ensures forall i, n ::
      LookupIn(PlainAdd(t, id, m), i, n) == if i == id && n == m.name then Some(m) else LookupIn(t, i, n)
    ensures forall i | i in t && i != id :: i in PlainAdd(t, id, m) && PlainAdd(t, id, m)[i] == t[i]
    ensures id in PlainAdd(t, id, m) && PlainAdd(t, id, m)[id] == Node(t[id].parent, Added(t[id].children, m))
  {
    AddedLooksUp(t[id].children, m);
    forall i, n
      ensures LookupIn(PlainAdd(t, id, m), i, n) == if i == id && n == m.name then Some(m) else LookupIn(t, i, n)
    {
      if m.directoryId == Some(i) { assert Lookup([], n) == None; }
    }
  }

  /** An entry after the addition: the new one, or one from before. */
  ghost predicate IsAddedEntry(t: Tree, id: DirectoryId, m: Meta, i: DirectoryId, x: Meta) {
    (i == id && x == m) || (i in t && x in t[i].children)
  }

  lemma AddedEntries(t: Tree, root: DirectoryId, id: DirectoryId, m: Meta, i: DirectoryId)
    requires TreeOk(t, root) && id in t && LookupIn(t, id, m.name).None?
    requires WellFormed(m) && Nameable(m.name) && (m.directoryId.Some? ==> m.directoryId.value !in t)
    requires i in PlainAdd(t, id, m)
    ensures Storable(PlainAdd(t, id, m)[i].children)
    ensures forall x | x in PlainAdd(t, id, m)[i].children :: IsAddedEntry(t, id, m, i, x)
  {
    AddedLooksUp(t[id].children, m);
    PlainAddLooksUp(t, id, m);
    hide Added, Lookup, LookupIn, WellFormed, ChildOk;
    assert i == id ==> PlainAdd(t, id, m)[i].children == Added(t[id].children, m);
  }

  lemma AddedChildOk(t: Tree, root: DirectoryId, id: DirectoryId, m: Meta, i: DirectoryId, x: Meta)
    requires TreeOk(t, root) && id in t && (m.directoryId.Some? ==> m.directoryId.value !in t)
    requires IsAddedEntry(t, id, m, i, x) && x.directoryId.Some?
    ensures ChildOk(PlainAdd(t, id, m), root, i, x.directoryId.value)
    ensures x != m ==> i in t && x in t[i].children && x.directoryId.value in t
  {
    if i in t && x in t[i].children {
      assert ChildOk(t, root, i, x.directoryId.value);
    }
    hide Added, Storable;
  }

  lemma PlainAddOk(t: Tree, root: DirectoryId, id: DirectoryId, m: Meta)
    requires TreeOk(t, root) && id in t && LookupIn(t, id, m.name).None?
    requires WellFormed(m) && Nameable(m.name) && (m.directoryId.Some? ==> m.directoryId.value !in t)
    ensures TreeOk(PlainAdd(t, id, m), root)
  {
    var u := PlainAdd(t, id, m);
    hide PlainAdd, LookupIn, WellFormed, ChildOk, Storable, IsAddedEntry;
    forall i | i in u
      ensures Storable(u[i].children) && forall x | x in u[i].children :: IsAddedEntry(t, id, m, i, x)
    {
      AddedEntries(t, root, id, m, i);
    }
    forall i, x | i in u && x in u[i].children && x.directoryId.Some?
      ensures ChildOk(u, root, i, x.directoryId.value)
      ensures x != m ==> i in t && x in t[i].children && x.directoryId.value in t
    {
      AddedChildOk(t, root, id, m, i, x);
    }
    AddedRoot(t, root, id, m);
    forall i, x, y | i in u && x in u[i].children && y in u[i].children && x.directoryId.Some?
      && x.directoryId == y.directoryId
      ensures x == y
    {
      if x != m && y != m {
        assert x in t[i].children && y in t[i].children;
      }
    }
  }

  lemma AddedRoot(t: Tree, root: DirectoryId, id: DirectoryId, m: Meta)
    requires root in t && id in t
    ensures root in PlainAdd(t, id, m)
  {
  }

  lemma RemovedNodes(t: Tree, id: DirectoryId, name: Name)
    requires id in t && LookupIn(t, id, name).Some?
    ensures var u := PlainRemove(t, id, name);
      && u.Keys == t.Keys && u[id] == Node(t[id].parent, Removed(t[id].children, Find(t[id].children, name)))
      && forall i | i in t && i != id :: u[i] == t[i]
  {
    LookupFinds(t[id].children, name);
    hide Removed, Find, Lookup;
  }

  lemma RemovedLookups(t: Tree, root: DirectoryId, id: DirectoryId, name: Name)
    requires TreeOk(t, root) && id in t && LookupIn(t, id, name).Some?
    ensures var u := PlainRemove(t, id, name);
      && (forall i, n :: LookupIn(u, i, n) == if i == id && n == name then None else LookupIn(t, i, n))
      && (forall i | i in t :: Storable(u[i].children) && forall x | x in u[i].children :: x in t[i].children)
  {
    var s := t[id].children;
    var i := Find(s, name);
    var r := Removed(s, i);
    RemovedNodes(t, id, name);
    LookupFinds(s, name);
    RemovedLooksUp(s, i);
    assert forall j | j in t :: Storable(t[j].children);
    assert Storable(r) by { hide Removed, Find, Lookup, PlainRemove, TreeOk; }
    WithChildrenIs(t, id, r);
    hide Removed, Find, Lookup, PlainRemove, ChildOk, TreeOk, Storable;
    assert PlainRemove(t, id, name) == WithChildren(t, id, r);
    hide WithChildren;
  }

  lemma PlainRemoveOk(t: Tree, root: DirectoryId, id: DirectoryId, name: Name)
    requires TreeOk(t, root) && id in t && LookupIn(t, id, name).Some?
    ensures TreeOk(PlainRemove(t, id, name), root)
    ensures forall i, n ::
      LookupIn(PlainRemove(t, id, name), i, n) == if i == id && n == name then None else LookupIn(t, i, n)
  {
    hide *;
    RemovedNodes(t, id, name);
    RemovedLookups(t, root, id, name);
    SameDirectoriesOk(t, root, PlainRemove(t, id, name));
  }

  /** Listings may change as long as no directory is new in any. */
  lemma SameDirectoriesOk(t: Tree, root: DirectoryId, u: Tree)
    requires TreeOk(t, root) && u.Keys == t.Keys
    requires forall i | i in t :: u[i].parent == t[i].parent && Storable(u[i].children)
    requires forall i, x | i in t && x in u[i].children && x.directoryId.Some? :: x in t[i].children
    ensures TreeOk(u, root)
  {
    hide Storable;
    forall i, x | i in u && x in u[i].children && x.directoryId.Some? ensures ChildOk(u, root, i, x.directoryId.value) {
      assert x in t[i].children;
      assert ChildOk(t, root, i, x.directoryId.value);
    }
  }

  lemma PlainUpdateOk(t: Tree, root: DirectoryId, id: DirectoryId, name: Name, dataMap: DataMap, size: nat)
    requires TreeOk(t, root) && LookupIn(t, id, name).Some? && !IsDirectory(LookupIn(t, id, name).value)
    ensures var u := PlainUpdate(t, id, name, dataMap, size);
      && TreeOk(u, root)
      && LookupIn(u, id, name) == Some(LookupIn(t, id, name).value.(dataMap := Some(dataMap), size := size))
      && (forall i, n | !(i == id && n == name) :: LookupIn(u, i, n) == LookupIn(t, i, n))
  {
    var u := PlainUpdate(t, id, name, dataMap, size);
    LookupMember(t, root, id, name);
    hide Updated, Find;
    UpdatedLooksUp(t[id].children, name, dataMap, size);
    forall i, n | !(i == id && n == name) ensures LookupIn(u, i, n) == LookupIn(t, i, n) {
    }
    hide Lookup;
    SameDirectoriesOk(t, root, u);
  }

  // ----- moving a child -----

  /** u is t with the child (src, oldName) now at (dst, newName), and nothing else changed. */
  ghost predicate IsMove(t: Tree, u: Tree, src: DirectoryId, oldName: Name, dst: DirectoryId, newName: Name) {
    && src in t && dst in t && u.Keys == t.Keys
    && LookupIn(t, src, oldName).Some? && LookupIn(t, dst, newName).None?
    && var m := LookupIn(t, src, oldName).value;
    && (forall i, n {:trigger MovedLookup(t, src, oldName, dst, newName, i, n)} ::
          LookupIn(u, i, n) == MovedLookup(t, src, oldName, dst, newName, i, n))
    && (forall i | i in t :: u[i].parent == if m.directoryId == Some(i) then dst else t[i].parent)
    && (forall i | i in t && i != src && i != dst :: u[i].children == t[i].children)
  }

  ghost function MovedLookup(t: Tree, src: DirectoryId, oldName: Name, dst: DirectoryId, newName: Name, i: DirectoryId,
                             n: Name): Option<Meta>
    requires LookupIn(t, src, oldName).Some?
  {
    if i == dst && n == newName then Some(LookupIn(t, src, oldName).value.(name := newName))
    else if i == src && n == oldName then None
    else LookupIn(t, i, n)
  }

  /** Members of a listing are its lookups. */
  lemma MemberLooksUp(t: Tree, id: DirectoryId, m: Meta)
    requires id in t && Storable(t[id].children)
    ensures m in t[id].children <==> LookupIn(t, id, m.name) == Some(m)
  {
    SortedIsUnique(t[id].children);
    LookupIsMember(t[id].children, m.name, m);
  }

  lemma MoveWithinNodes(t: Tree, root: DirectoryId, id: DirectoryId, oldName: Name, newName: Name)
    requires TreeOk(t, root) && id in t && LookupIn(t, id, oldName).Some?
    ensures var s := t[id].children; var i := Find(s, oldName); var m := LookupIn(t, id, oldName).value;
      && i < |s| && s[i] == m && m.name == oldName && m in s && WellFormed(m)
      && (m.directoryId.Some? ==> ChildOk(t, root, id, m.directoryId.value))
      && PlainMove(t, id, oldName, id, newName) == WithChildren(t, id, Replaced(s, i, m.(name := newName)))
  {
    LookupMember(t, root, id, oldName);
    LookupFinds(t[id].children, oldName);
    hide Replaced, Lookup, Find;
  }

  lemma WithChildrenIs(t: Tree, id: DirectoryId, s: Children)
    requires id in t
    ensures var u := WithChildren(t, id, s);
      && u.Keys == t.Keys && u[id] == Node(t[id].parent, s) && (forall i | i in t && i != id :: u[i] == t[i])
      && (forall i, n :: LookupIn(u, i, n) == if i == id then Lookup(s, n) else LookupIn(t, i, n))
  {
    hide Lookup;
  }

  lemma ReplacedIsStorable(s: Children, i: nat, m: Meta)
    requires Storable(s) && i < |s| && WellFormed(m) && Nameable(m.name) && Lookup(s, m.name).None?
    ensures Storable(Replaced(s, i, m))
  {
    ReplacedLooksUp(s, i, m);
    hide Replaced, Lookup, Sorted, WellFormed;
  }

  lemma WithinLookup(t: Tree, id: DirectoryId, oldName: Name, newName: Name, i: nat, m: Meta, j: DirectoryId, n: Name)
    requires id in t && LookupIn(t, id, oldName) == Some(m) && i < |t[id].children| && t[id].children[i].name == oldName
    requires Lookup(Replaced(t[id].children, i, m.(name := newName)), n)
      == LookupReplaced(t[id].children, i, m.(name := newName), n)
    ensures LookupIn(WithChildren(t, id, Replaced(t[id].children, i, m.(name := newName))), j, n)
      == MovedLookup(t, id, oldName, id, newName, j, n)
  {
    WithChildrenIs(t, id, Replaced(t[id].children, i, m.(name := newName)));
    hide Replaced, Lookup, WithChildren;
  }

  lemma WithinLookups(t: Tree, root: DirectoryId, id: DirectoryId, oldName: Name, newName: Name)
    requires TreeOk(t, root) && id in t
    requires LookupIn(t, id, oldName).Some? && LookupIn(t, id, newName).None?
    ensures var u := PlainMove(t, id, oldName, id, newName);
      && u.Keys == t.Keys
      && (forall i | i in t :: u[i].parent == t[i].parent && (i != id ==> u[i] == t[i]))
      && (forall j, n :: LookupIn(u, j, n) == MovedLookup(t, id, oldName, id, newName, j, n))
      && (Nameable(newName) ==> Storable(u[id].children))
  {
    var s := t[id].children;
    var i, m := Find(s, oldName), LookupIn(t, id, oldName).value;
    MoveWithinNodes(t, root, id, oldName, newName);
    assert Storable(s) && Sorted(s) && Lookup(s, newName).None? && WellFormed(m.(name := newName));
    ReplacedLooksUp(s, i, m.(name := newName));
    WithChildrenIs(t, id, Replaced(s, i, m.(name := newName)));
    hide *;
    if Nameable(newName) { ReplacedIsStorable(s, i, m.(name := newName)); }
    forall j, n
      ensures LookupIn(PlainMove(t, id, oldName, id, newName), j, n) == MovedLookup(t, id, oldName, id, newName, j, n)
    {
      WithinLookup(t, id, oldName, newName, i, m, j, n);
    }
  }

  lemma PlainMoveWithin(t: Tree, root: DirectoryId, id: DirectoryId, oldName: Name, newName: Name)
    requires TreeOk(t, root) && id in t
    requires LookupIn(t, id, oldName).Some? && LookupIn(t, id, newName).None?
    ensures IsMove(t, PlainMove(t, id, oldName, id, newName), id, oldName, id, newName)
    ensures Nameable(newName) ==> forall i | i in t :: Storable(PlainMove(t, id, oldName, id, newName)[i].children)
  {
    MoveWithinNodes(t, root, id, oldName, newName);
    WithinLookups(t, root, id, oldName, newName);
    var m := LookupIn(t, id, oldName).value;
    assert forall j | m.directoryId == Some(j) :: j in t && t[j].parent == id;
    assert forall j | j in t :: Storable(t[j].children);
    hide Replaced, Renamed, Lookup, LookupIn, Find, PlainMove, ChildOk, TreeOk, WellFormed, Storable, WithChildren,
      MovedLookup;
  }

  /** A move between two directories, listing by listing. */
  lemma AcrossChildren(t: Tree, src: DirectoryId, oldName: Name, dst: DirectoryId, newName: Name, j: DirectoryId)
    requires src in t && dst in t && src != dst && LookupIn(t, src, oldName).Some?
    ensures var u := PlainMove(t, src, oldName, dst, newName); var i := Find(t[src].children, oldName);
      && (j in u <==> j in t)
      && (j in t ==> u[j] == Node(
            if LookupIn(t, src, oldName).value.directoryId == Some(j) then dst else t[j].parent,
            if j == src then Removed(t[src].children, i)
            else if j == dst then Added(t[dst].children, t[src].children[i].(name := newName))
            else t[j].children))
  {
    hide Added, Removed, Find;
    LookupFinds(t[src].children, oldName);
  }

  lemma AcrossLooksUp(t: Tree, src: DirectoryId, oldName: Name, dst: DirectoryId, newName: Name, j: DirectoryId,
                      n: Name)
    requires src in t && dst in t && src != dst && Sorted(t[src].children) && Sorted(t[dst].children)
    requires LookupIn(t, src, oldName).Some? && LookupIn(t, dst, newName).None?
    ensures LookupIn(PlainMove(t, src, oldName, dst, newName), j, n) == MovedLookup(t, src, oldName, dst, newName, j, n)
  {
    var i := Find(t[src].children, oldName);
    var m := t[src].children[i].(name := newName);
    AcrossChildren(t, src, oldName, dst, newName, j);
    if j == src {
      RemovedLooksUp(t[src].children, i);
      assert Lookup(Removed(t[src].children, i), n) == if n == oldName then None else Lookup(t[src].children, n);
    } else if j == dst {
      AddedLooksUp(t[dst].children, m);
      assert Lookup(Added(t[dst].children, m), n) == if n == newName then Some(m) else Lookup(t[dst].children, n);
    }
  }

  lemma AcrossIsOk(t: Tree, root: DirectoryId, src: DirectoryId, oldName: Name, dst: DirectoryId, newName: Name,
                   j: DirectoryId)
    requires TreeOk(t, root) && src in t && dst in t && src != dst && j in t
    requires LookupIn(t, src, oldName).Some? && LookupIn(t, dst, newName).None?
    ensures AcrossOk(t, PlainMove(t, src, oldName, dst, newName), src, oldName, dst, newName, j)
  {
    var i := Find(t[src].children, oldName);
    LookupMember(t, root, src, oldName);
    RemovedLooksUp(t[src].children, i);
    AddedLooksUp(t[dst].children, t[src].children[i].(name := newName));
    AcrossChildren(t, src, oldName, dst, newName, j);
  }

  lemma PlainMoveAcross(t: Tree, root: DirectoryId, src: DirectoryId, oldName: Name, dst: DirectoryId, newName: Name)
    requires TreeOk(t, root) && src in t && dst in t && src != dst
    requires LookupIn(t, src, oldName).Some? && LookupIn(t, dst, newName).None?
    ensures IsMove(t, PlainMove(t, src, oldName, dst, newName), src, oldName, dst, newName)
    ensures Nameable(newName) ==> forall j | j in t :: Storable(PlainMove(t, src, oldName, dst, newName)[j].children)
  {
    var u := PlainMove(t, src, oldName, dst, newName);
    forall j ensures j in u <==> j in t { AcrossChildren(t, src, oldName, dst, newName, j); }
    forall j | j in t ensures AcrossOk(t, u, src, oldName, dst, newName, j) {
      AcrossIsOk(t, root, src, oldName, dst, newName, j);
    }
    forall j, n ensures LookupIn(u, j, n) == MovedLookup(t, src, oldName, dst, newName, j, n) {
      AcrossLooksUp(t, src, oldName, dst, newName, j, n);
    }
  }

  ghost predicate AcrossOk(t: Tree, u: Tree, src: DirectoryId, oldName: Name, dst: DirectoryId, newName: Name,
                           j: DirectoryId)
    requires LookupIn(t, src, oldName).Some? && j in t
  {
    && j in u && (Nameable(newName) ==> Storable(u[j].children))
    && u[j].parent == (if LookupIn(t, src, oldName).value.directoryId == Some(j) then dst else t[j].parent)
    && (j != src && j != dst ==> u[j].children == t[j].children)
  }

  lemma PlainMoveIsMove(t: Tree, root: DirectoryId, src: DirectoryId, oldName: Name, dst: DirectoryId, newName: Name)
    requires TreeOk(t, root) && src in t && dst in t
    requires LookupIn(t, src, oldName).Some? && LookupIn(t, dst, newName).None?
    ensures IsMove(t, PlainMove(t, src, oldName, dst, newName), src, oldName, dst, newName)
    ensures TreeOk(PlainMove(t, src, oldName, dst, newName), root) <==> Nameable(newName)
  {
    if src == dst {
      PlainMoveWithin(t, root, src, oldName, newName);
    } else {
      PlainMoveAcross(t, root, src, oldName, dst, newName);
    }
    var u := PlainMove(t, src, oldName, dst, newName);
    if Nameable(newName) {
      MoveKeepsTreeOk(t, u, root, src, oldName, dst, newName);
    } else {
      assert LookupIn(u, dst, newName) == MovedLookup(t, src, oldName, dst, newName, dst, newName);
      UnnameableIsNotOk(u, root, dst, newName);
    }
  }

  lemma UnnameableIsNotOk(t: Tree, root: DirectoryId, id: DirectoryId, name: Name)
    requires LookupIn(t, id, name).Some? && !Nameable(name)
    ensures !TreeOk(t, root)
  {
    LookupMeans(t[id].children, name);
    assert !Storable(t[id].children);
  }

  lemma MoveKeepsTreeOk(t: Tree, u: Tree, root: DirectoryId, src: DirectoryId, oldName: Name, dst: DirectoryId,
                        newName: Name)
    requires TreeOk(t, root) && IsMove(t, u, src, oldName, dst, newName)
    requires forall i | i in t :: Storable(u[i].children)
    ensures TreeOk(u, root)
  {
    var m := LookupIn(t, src, oldName).value;
    LookupMember(t, root, src, oldName);
    forall i, x | i in u && x in u[i].children ensures WasEntry(t, src, oldName, dst, newName, i, x) {
      MemberLooksUp(u, i, x);
      LookupMember(t, root, i, x.name);
      assert LookupIn(u, i, x.name) == MovedLookup(t, src, oldName, dst, newName, i, x.name);
    }
    forall i, x | i in u && x in u[i].children && x.directoryId.Some?
      ensures ChildOk(u, root, i, x.directoryId.value)
    {
      assert WasEntry(t, src, oldName, dst, newName, i, x);
      if !(i == dst && x == m.(name := newName)) {
        assert ChildOk(t, root, i, x.directoryId.value);
        assert m.directoryId == x.directoryId ==> i == src;
      }
    }
    forall i, x, y | i in u && x in u[i].children && y in u[i].children && x.directoryId.Some?
      && x.directoryId == y.directoryId
      ensures x == y
    {
      assert WasEntry(t, src, oldName, dst, newName, i, x) && WasEntry(t, src, oldName, dst, newName, i, y);
      SameChild(t, root, src, oldName, dst, newName, i, x, y);
    }
  }

  /** An entry after the move: the moved child, or an entry from before that is not it. */
  ghost predicate WasEntry(t: Tree, src: DirectoryId, oldName: Name, dst: DirectoryId, newName: Name, i: DirectoryId,
                           x: Meta)
    requires LookupIn(t, src, oldName).Some?
  {
    || (i == dst && x == LookupIn(t, src, oldName).value.(name := newName))
    || (i in t && x in t[i].children && !(i == src && x.name == oldName))
  }

  lemma SameChild(t: Tree, root: DirectoryId, src: DirectoryId, oldName: Name, dst: DirectoryId, newName: Name,
                  i: DirectoryId, x: Meta, y: Meta)
    requires TreeOk(t, root) && LookupIn(t, src, oldName).Some?
    requires WasEntry(t, src, oldName, dst, newName, i, x) && WasEntry(t, src, oldName, dst, newName, i, y)
    requires x.directoryId.Some? && x.directoryId == y.directoryId
    ensures x == y
  {
    var m := LookupIn(t, src, oldName).value;
    LookupMember(t, root, src, oldName);
    assert i in t && x in t[i].children ==> ChildOk(t, root, i, x.directoryId.value);
    assert i in t && y in t[i].children ==> ChildOk(t, root, i, y.directoryId.value);
    assert m.directoryId.Some? ==> ChildOk(t, root, src, m.directoryId.value);
  }

  /** The paths of a move: a child at src goes to dst, and neither path is inside the other. */
  ghost predicate MovePaths(t: Tree, u: Tree, root: DirectoryId, src: Path, dst: Path) {
    && src != [] && dst != [] && !IsWithin(src, dst) && !IsWithin(dst, src)
    && Walk(t, root, Parent(src)).At? && Walk(t, root, Parent(dst)).At?
    && IsMove(t, u, Walk(t, root, Parent(src)).id, FileName(src), Walk(t, root, Parent(dst)).id, FileName(dst))
  }

  lemma DifferentEntry(t: Tree, root: DirectoryId, p: Path, name: Name, q: Path)
    requires TreeOk(t, root) && Walk(t, root, p).At? && q != [] && p + [name] != q
    ensures !(Walk(t, root, p) == Walk(t, root, Parent(q)) && name == FileName(q))
  {
    hide TreeOk, Walk;
    assert q == Parent(q) + [FileName(q)];
    if Walk(t, root, p) == Walk(t, root, Parent(q)) {
      WalkInjective(t, root, p, Parent(q));
    }
  }

  lemma UnmovedLookup(t: Tree, u: Tree, src: DirectoryId, oldName: Name, dst: DirectoryId, newName: Name,
                      i: DirectoryId, n: Name)
    requires IsMove(t, u, src, oldName, dst, newName)
    requires !(i == src && n == oldName) && !(i == dst && n == newName)
    ensures LookupIn(u, i, n) == LookupIn(t, i, n)
  {
    assert LookupIn(u, i, n) == MovedLookup(t, src, oldName, dst, newName, i, n);
  }

  /** One lookup below an unmoved place is as before, unless it is one of the two entries. */
  lemma ChildUnmoved(t: Tree, u: Tree, root: DirectoryId, src: Path, dst: Path, p: Path, name: Name)
    requires TreeOk(t, root) && MovePaths(t, u, root, src, dst) && Walk(t, root, p).At?
    requires p + [name] != src && p + [name] != dst
    ensures LookupIn(u, Walk(t, root, p).id, name) == LookupIn(t, Walk(t, root, p).id, name)
    ensures Child(u, Walk(t, root, p).id, name) == Child(t, Walk(t, root, p).id, name)
  {
    hide TreeOk, Walk, IsMove, Lookup;
    DifferentEntry(t, root, p, name, src);
    DifferentEntry(t, root, p, name, dst);
    UnmovedLookup(t, u, Walk(t, root, Parent(src)).id, FileName(src), Walk(t, root, Parent(dst)).id, FileName(dst),
                  Walk(t, root, p).id, name);
  }

  /** So if q now leads where p led, every step below q leads where the same step below p led. */
  lemma StepUnmoved(t: Tree, u: Tree, root: DirectoryId, src: Path, dst: Path, p: Path, q: Path, name: Name)
    requires TreeOk(t, root) && MovePaths(t, u, root, src, dst)
    requires Walk(u, root, q) == Walk(t, root, p) && p + [name] != src && p + [name] != dst
    ensures Walk(u, root, q + [name]) == Walk(t, root, p + [name])
    ensures Resolve(u, root, q + [name]) == Resolve(t, root, p + [name])
  {
    if Walk(t, root, p).At? {
      ChildUnmoved(t, u, root, src, dst, p, name);
    }
    assert Parent(q + [name]) == q && Parent(p + [name]) == p;
  }

  lemma StepOutside(src: Path, dst: Path, p: Path)
    requires p != [] && !IsWithin(src, p) && !IsWithin(dst, p)
    ensures !IsWithin(src, Parent(p)) && !IsWithin(dst, Parent(p))
    ensures Parent(p) + [FileName(p)] == p && p != src && p != dst
  {
  }

  lemma {:induction false} WalkOutside(t: Tree, u: Tree, root: DirectoryId, src: Path, dst: Path, p: Path)
    requires TreeOk(t, root) && MovePaths(t, u, root, src, dst)
    requires !IsWithin(src, p) && !IsWithin(dst, p)
    ensures Walk(u, root, p) == Walk(t, root, p)
    ensures p != [] ==> Resolve(u, root, p) == Resolve(t, root, p)
    decreases |p|
  {
    if p == [] {
    } else {
      hide TreeOk, Walk, Resolve, MovePaths, IsWithin;
      StepOutside(src, dst, p);
      WalkOutside(t, u, root, src, dst, Parent(p));
      StepUnmoved(t, u, root, src, dst, Parent(p), Parent(p), FileName(p));
    }
  }

  lemma MovedLookups(t: Tree, u: Tree, src: DirectoryId, oldName: Name, dst: DirectoryId, newName: Name)
    requires IsMove(t, u, src, oldName, dst, newName)
    ensures LookupIn(u, dst, newName) == Some(LookupIn(t, src, oldName).value.(name := newName))
    ensures !(src == dst && oldName == newName) && LookupIn(u, src, oldName) == None
    ensures Child(u, dst, newName) == Child(t, src, oldName) && Child(u, src, oldName) == NoSuchFile
  {
    assert LookupIn(u, dst, newName) == MovedLookup(t, src, oldName, dst, newName, dst, newName);
    assert LookupIn(u, src, oldName) == MovedLookup(t, src, oldName, dst, newName, src, oldName);
  }

  lemma ParentsOutside(src: Path, dst: Path)
    requires src != [] && dst != [] && !IsWithin(src, dst) && !IsWithin(dst, src)
    ensures !IsWithin(src, Parent(dst)) && !IsWithin(dst, Parent(dst))
    ensures !IsWithin(src, Parent(src)) && !IsWithin(dst, Parent(src))
  {
    assert Parent(src) <= src && Parent(dst) <= dst;
  }

  lemma WalkAtTarget(t: Tree, u: Tree, root: DirectoryId, src: Path, dst: Path)
    requires TreeOk(t, root) && MovePaths(t, u, root, src, dst)
    ensures Walk(u, root, Parent(dst)) == Walk(t, root, Parent(dst))
    ensures Walk(u, root, Parent(src)) == Walk(t, root, Parent(src))
    ensures Walk(u, root, dst) == Walk(t, root, src)
    ensures Resolve(u, root, dst) == Some(Resolve(t, root, src).value.(name := FileName(dst)))
    ensures Walk(u, root, src) == NoSuchFile && Resolve(u, root, src) == None
  {
    ParentsOutside(src, dst);
    WalkOutside(t, u, root, src, dst, Parent(dst));
    WalkOutside(t, u, root, src, dst, Parent(src));
    MovedLookups(t, u, Walk(t, root, Parent(src)).id, FileName(src), Walk(t, root, Parent(dst)).id, FileName(dst));
  }

  lemma BelowIsNeither(src: Path, dst: Path, r: seq<Name>)
    requires !IsWithin(src, dst) && r != []
    ensures src + r != src && src + r != dst
  {
    assert |src + r| > |src|;
    assert src <= src + r;
  }

  lemma LastOf(r: seq<Name>)
    requires r != []
    ensures r == Parent(r) + [FileName(r)]
    ensures forall top: Path :: top + r == (top + Parent(r)) + [FileName(r)]
  {
    forall top: Path ensures top + r == (top + Parent(r)) + [FileName(r)] {
      assert top + (Parent(r) + [FileName(r)]) == (top + Parent(r)) + [FileName(r)];
    }
  }

  /** Every directory that was below src is below dst. */
  lemma {:induction false} WalkMoved(t: Tree, u: Tree, root: DirectoryId, src: Path, dst: Path, r: seq<Name>)
    requires TreeOk(t, root) && MovePaths(t, u, root, src, dst)
    ensures Walk(u, root, dst + r) == Walk(t, root, src + r)
    decreases |r|
  {
    if r == [] {
      assert dst + r == dst && src + r == src;
      WalkAtTarget(t, u, root, src, dst);
    } else {
      LastOf(r);
      BelowIsNeither(src, dst, r);
      WalkMoved(t, u, root, src, dst, Parent(r));
      StepUnmoved(t, u, root, src, dst, src + Parent(r), dst + Parent(r), FileName(r));
    }
  }

  /** And so is every entry. */
  lemma ResolveMoved(t: Tree, u: Tree, root: DirectoryId, src: Path, dst: Path, r: seq<Name>)
    requires TreeOk(t, root) && MovePaths(t, u, root, src, dst) && r != []
    ensures Resolve(u, root, dst + r) == Resolve(t, root, src + r)
  {
    LastOf(r);
    BelowIsNeither(src, dst, r);
    WalkMoved(t, u, root, src, dst, Parent(r));
    StepUnmoved(t, u, root, src, dst, src + Parent(r), dst + Parent(r), FileName(r));
  }

  /** Below src nothing is left. */
  lemma WalkLeft(t: Tree, u: Tree, root: DirectoryId, src: Path, dst: Path, r: seq<Name>)
    requires TreeOk(t, root) && MovePaths(t, u, root, src, dst)
    ensures Walk(u, root, src + r) == NoSuchFile
  {
    WalkAtTarget(t, u, root, src, dst);
    WalkFails(u, root, src, r);
  }
}
