/** All the directories of a drive with the files in them, on one chunk store: files are added, written,
    closed, removed, renamed and moved from directory to directory while directories are stored. */
module DriveFiles {
  import opened Wrappers
  import opened Paths
  import opened MetaData
  import opened Listing
  import DS = DirectoryState
  import FS = FileState
  import DF = DirectoryFiles

  /** A directory's part of the drive: all of DirectoryFiles.Folder but the files' world. */
  datatype Part = Part(d: DS.Dir, files: map<Name, nat>, late: nat, taking: Option<seq<ProtoPath>>)

  datatype Drive = Drive(parts: map<DirectoryId, Part>, world: FS.World)

  function FolderOf(s: Drive, id: DirectoryId): DF.Folder
    requires id in s.parts
  {
    var p := s.parts[id];
    DF.Folder(p.d, s.world, p.files, p.late, p.taking)
  }

  function PartOf(f: DF.Folder): Part {
    Part(f.d, f.files, f.late, f.taking)
  }

  /** A step in one directory, which includes taking a file out of it; a new directory; and a file that
      is in none, put into one. */
  datatype Event =
    | InFolder(id: DirectoryId, event: DF.Event)
    | MakeFolder(id: DirectoryId, parentId: DirectoryId, maxVersions: nat)
    | PutIn(id: DirectoryId, i: nat, name: Name)

  predicate IsIn(s: Drive, id: DirectoryId, i: nat) {
    id in s.parts && exists n | n in s.parts[id].files :: s.parts[id].files[n] == i
  }

  /** A file's own steps are steps of the directory it is in, if it is in one. */
  predicate Enabled(s: Drive, e: Event) {
    match e
    case InFolder(id, event) =>
      && id in s.parts && DF.Enabled(FolderOf(s, id), event)
      && (event.FileEvent? ==> forall other | other in s.parts && other != id :: !IsIn(s, other, event.i))
    case MakeFolder(id, _, _) => id !in s.parts
    case PutIn(id, i, name) =>
      && id in s.parts && s.parts[id].taking.None? && Lookup(s.parts[id].d.children, name).None? && Nameable(name)
      && i < |s.world.files| && forall other | other in s.parts :: !IsIn(s, other, i)
  }

  function FileEntry(name: Name, f: FS.File): Meta {
    Meta(name, RegularFile, None, Some(f.dataMap), f.size)
  }

  function Joined(s: Drive, id: DirectoryId, i: nat, name: Name): Part
    requires id in s.parts && i < |s.world.files|
  {
    var p := s.parts[id];
    p.(d := DS.Change(p.d, Added(p.d.children, FileEntry(name, s.world.files[i]))), files := p.files[name := i])
  }

  function Apply(k: FS.Codec, s: Drive, e: Event): Drive
    requires Enabled(s, e)
  {
    match e
    case InFolder(id, event) =>
      var f := DF.Apply(k, FolderOf(s, id), event);
      Drive(s.parts[id := PartOf(f)], f.world)
    case MakeFolder(id, parentId, maxVersions) =>
      s.(parts := s.parts[id := Part(DS.Created(parentId, id, maxVersions), map[], 0, None)])
    case PutIn(id, i, name) => s.(parts := s.parts[id := Joined(s, id, i, name)])
  }

  predicate IsRun(k: FS.Codec, s: Drive, run: seq<Event>)
    decreases |run|
  {
    run == [] || (Enabled(s, run[0]) && IsRun(k, Apply(k, s, run[0]), run[1..]))
  }

  function After(k: FS.Codec, s: Drive, run: seq<Event>): Drive
    requires IsRun(k, s, run)
    decreases |run|
  {
    if run == [] then s else After(k, Apply(k, s, run[0]), run[1..])
  }

  /** Every directory is as DirectoryFiles has it, and no file is in two. */
  ghost predicate Good(k: FS.Codec, s: Drive, others: multiset<ChunkName>) {
    && FS.GoodWorld(k, s.world, others)
    && (forall id | id in s.parts :: DF.Good(k, FolderOf(s, id), others))
    && (forall a, b, i: nat | IsIn(s, a, i) && IsIn(s, b, i) :: a == b)
  }

  /** No directory's handlers overlap. */
  ghost predicate Single(s: Drive) {
    forall id | id in s.parts :: DF.Single(FolderOf(s, id))
  }

  predicate Disturbs(s: Drive, e: Event) {
    e.InFolder? && e.id in s.parts && DF.Disturbs(FolderOf(s, e.id), e.event)
  }

  ghost predicate NeverDisturbed(k: FS.Codec, s: Drive, run: seq<Event>)
    requires IsRun(k, s, run)
    decreases |run|
  {
    run == [] || (!Disturbs(s, run[0]) && NeverDisturbed(k, Apply(k, s, run[0]), run[1..]))
  }

  // ----- what a step in one directory does to the others -----

  /** The files of f are in u as they were. */
  ghost predicate SameFiles(f: DF.Folder, u: FS.World) {
    && |f.world.files| <= |u.files|
    && forall n | n in f.files && f.files[n] < |f.world.files| :: u.files[f.files[n]] == f.world.files[f.files[n]]
  }

  lemma SameEntry(f: DF.Folder, u: FS.World, m: Meta)
    requires SameFiles(f, u) && DF.EntryInStep(m, f.files, f.world)
    ensures DF.EntryInStep(m, f.files, u)
    ensures DF.IsModified(m, f.files, u) <==> DF.IsModified(m, f.files, f.world)
  {
  }

  lemma OtherIsGood(k: FS.Codec, f: DF.Folder, u: FS.World, others: multiset<ChunkName>)
    requires DF.Good(k, f, others) && FS.GoodWorld(k, u, others) && SameFiles(f, u)
    ensures DF.Good(k, f.(world := u), others)
    ensures DF.Single(f) ==> DF.Single(f.(world := u))
  {
    forall m | m in f.d.children
      ensures DF.EntryInStep(m, f.files, u) && (DF.IsModified(m, f.files, u) <==> DF.IsModified(m, f.files, f.world))
    {
      SameEntry(f, u, m);
    }
    hide FS.GoodWorld, SameFiles, DF.EntryInStep, DF.IsModified, DS.Storable, Lookup, DS.Counted, DS.NotLost;
  }

  /** A step changes the directory's own files, the one it is a step of, and adds new ones. */
  lemma OwnFiles(k: FS.Codec, f: DF.Folder, e: DF.Event, j: nat)
    requires DF.Enabled(f, e) && j < |f.world.files|
    requires forall n | n in f.files :: f.files[n] != j
    requires e.FileEvent? ==> e.i != j
    ensures var u := DF.Apply(k, f, e).world; j < |u.files| && u.files[j] == f.world.files[j]
    ensures |f.world.files| <= |DF.Apply(k, f, e).world.files|
  {
    hide FS.Apply, DS.Apply, DF.Refreshed, DS.Enabled, Lookup, Added, Removed, Renamed;
  }

  /** And its names are for files that it had, or a new one. */
  lemma FilesAfter(k: FS.Codec, f: DF.Folder, e: DF.Event, n: Name)
    requires DF.Enabled(f, e) && n in DF.Apply(k, f, e).files
    ensures var i := DF.Apply(k, f, e).files[n];
      (exists m | m in f.files :: f.files[m] == i) || i == |f.world.files|
  {
    hide FS.ApplyAt, DS.Apply, DF.Refreshed, DS.Enabled, Lookup, Added, Removed, Renamed, Find;
  }

  // ----- what every run keeps -----

  lemma KnownFiles(k: FS.Codec, f: DF.Folder, others: multiset<ChunkName>)
    requires DF.Good(k, f, others)
    ensures forall n | n in f.files :: f.files[n] < |f.world.files|
  {
    forall n | n in f.files ensures f.files[n] < |f.world.files| {
      LookupMeans(f.d.children, n);
      var m := Lookup(f.d.children, n).value;
      assert DF.EntryInStep(m, f.files, f.world);
    }
  }

  lemma OthersKeepFiles(k: FS.Codec, s: Drive, others: multiset<ChunkName>, id: DirectoryId, e: DF.Event,
                        other: DirectoryId)
    requires Good(k, s, others) && Enabled(s, InFolder(id, e)) && other in s.parts && other != id
    ensures SameFiles(FolderOf(s, other), DF.Apply(k, FolderOf(s, id), e).world)
  {
    var f, g := FolderOf(s, id), FolderOf(s, other);
    KnownFiles(k, g, others);
    hide DF.Apply, DF.Enabled, DF.Good;
    OwnFilesGrow(k, f, e);
    forall n | n in g.files && g.files[n] < |g.world.files|
      ensures DF.Apply(k, f, e).world.files[g.files[n]] == g.world.files[g.files[n]]
    {
      assert IsIn(s, other, g.files[n]);
      NotInFolder(s, id, g.files[n]);
      OwnFiles(k, f, e, g.files[n]);
    }
  }

  lemma NotInFolder(s: Drive, id: DirectoryId, i: nat)
    requires id in s.parts && !IsIn(s, id, i)
    ensures forall n | n in s.parts[id].files :: s.parts[id].files[n] != i
  {
  }

  lemma OwnFilesGrow(k: FS.Codec, f: DF.Folder, e: DF.Event)
    requires DF.Enabled(f, e)
    ensures |f.world.files| <= |DF.Apply(k, f, e).world.files|
  {
    hide FS.Apply, DS.Apply, DF.Refreshed, DS.Enabled, Lookup, Added, Removed, Renamed;
  }

  lemma GoodParts(k: FS.Codec, s: Drive, others: multiset<ChunkName>)
    ensures Good(k, s, others) <==>
      (FS.GoodWorld(k, s.world, others)
       && (forall id | id in s.parts :: DF.Good(k, FolderOf(s, id), others))
       && (forall a, b, i: nat | IsIn(s, a, i) && IsIn(s, b, i) :: a == b))
  {
  }

  lemma InFolderIs(k: FS.Codec, s: Drive, id: DirectoryId, e: DF.Event)
    requires Enabled(s, InFolder(id, e))
    ensures var f := FolderOf(s, id); var t := Apply(k, s, InFolder(id, e));
      && DF.Enabled(f, e) && t.world == DF.Apply(k, f, e).world && t.parts.Keys == s.parts.Keys
      && FolderOf(t, id) == DF.Apply(k, f, e)
      && forall other | other in s.parts && other != id ::
           FolderOf(t, other) == FolderOf(s, other).(world := t.world) && t.parts[other] == s.parts[other]
  {
    hide DF.Apply, DF.Enabled;
  }

  /** A file in a directory after a step there was in it before, or is new. */
  lemma WasIn(k: FS.Codec, s: Drive, id: DirectoryId, e: DF.Event, a: DirectoryId, i: nat)
    requires Enabled(s, InFolder(id, e)) && IsIn(Apply(k, s, InFolder(id, e)), a, i)
    ensures IsIn(s, a, i) || (a == id && i == |s.world.files|)
  {
    InFolderIs(k, s, id, e);
    var t := Apply(k, s, InFolder(id, e));
    var n :| n in t.parts[a].files && t.parts[a].files[n] == i;
    hide Apply, DF.Apply, DF.Enabled;
    if a == id { FilesAfter(k, FolderOf(s, id), e, n); }
  }

  lemma NoneInTwo(k: FS.Codec, s: Drive, others: multiset<ChunkName>, id: DirectoryId, e: DF.Event, a: DirectoryId,
                  b: DirectoryId,
                  i: nat)
    requires Good(k, s, others) && Enabled(s, InFolder(id, e))
    requires var t := Apply(k, s, InFolder(id, e)); IsIn(t, a, i) && IsIn(t, b, i)
    ensures a == b
  {
    WasIn(k, s, id, e, a, i);
    WasIn(k, s, id, e, b, i);
    if IsIn(s, a, i) { KnownFiles(k, FolderOf(s, a), others); }
    if IsIn(s, b, i) { KnownFiles(k, FolderOf(s, b), others); }
    hide Apply, DF.Good, Enabled, FS.GoodWorld;
  }

  lemma InFolderIsGood(k: FS.Codec, s: Drive, others: multiset<ChunkName>, id: DirectoryId, e: DF.Event)
    requires FS.Lawful(k) && Good(k, s, others) && Enabled(s, InFolder(id, e))
    ensures Good(k, Apply(k, s, InFolder(id, e)), others)
    ensures Single(s) && !Disturbs(s, InFolder(id, e)) ==> Single(Apply(k, s, InFolder(id, e)))
  {
    var t := Apply(k, s, InFolder(id, e));
    InFolderIs(k, s, id, e);
    hide Apply, DF.Apply, DF.Good, DF.Enabled, DF.Single, FS.GoodWorld, FS.Lawful, DF.Disturbs, IsIn;
    DF.StepIsGood(k, FolderOf(s, id), others, e);
    DF.GoodParts(k, FolderOf(t, id), others);
    forall other | other in s.parts && other != id
      ensures DF.Good(k, FolderOf(t, other), others)
      ensures DF.Single(FolderOf(s, other)) ==> DF.Single(FolderOf(t, other))
    {
      OthersKeepFiles(k, s, others, id, e, other);
      OtherIsGood(k, FolderOf(s, other), t.world, others);
    }
    forall a, b, i: nat | IsIn(t, a, i) && IsIn(t, b, i) ensures a == b {
      NoneInTwo(k, s, others, id, e, a, b, i);
    }
    hide Enabled, FolderOf;
  }

  /** The directory that a file has been put into. */
  lemma JoinedIs(k: FS.Codec, s: Drive, id: DirectoryId, i: nat, name: Name)
    requires Enabled(s, PutIn(id, i, name))
    ensures var f := FolderOf(s, id); var g := FolderOf(Apply(k, s, PutIn(id, i, name)), id);
      var m := FileEntry(name, s.world.files[i]);
      && g.world == f.world && g.files == f.files[name := i] && g.late == f.late && g.taking.None?
      && g.d.children == Added(f.d.children, m) && g.d == DS.Change(f.d, g.d.children)
      && Lookup(f.d.children, name).None? && Nameable(name) && m.name == name && WellFormed(m)
      && DF.EntryInStep(m, g.files, g.world) && DF.Extends(f.files, f.world, name, g.files, g.world)
  {
    hide Added, Lookup;
  }

  lemma JoinedIsGood(k: FS.Codec, s: Drive, others: multiset<ChunkName>, id: DirectoryId, i: nat, name: Name)
    requires Good(k, s, others) && Enabled(s, PutIn(id, i, name))
    ensures var t := Apply(k, s, PutIn(id, i, name));
      DF.Good(k, FolderOf(t, id), others) && (DF.Single(FolderOf(s, id)) ==> DF.Single(FolderOf(t, id)))
  {
    var f, g := FolderOf(s, id), FolderOf(Apply(k, s, PutIn(id, i, name)), id);
    JoinedIs(k, s, id, i, name);
    assert DF.Good(k, f, others);
    hide *;
    DF.GoodParts(k, f, others);
    InStepIs(f);
    InStepIs(g);
    DF.AddedDescribes(f.d.children, f.files, f.world, FileEntry(name, s.world.files[i]), g.files, g.world);
    DF.ChangedKeeps(f, g);
    DF.GoodParts(k, g, others);
  }

  lemma InStepIs(f: DF.Folder)
    ensures DF.InStep(f) <==> DF.Describes(f.d.children, f.files, f.world)
  {
  }

  lemma PutInKeepsApart(k: FS.Codec, s: Drive, id: DirectoryId, i: nat, name: Name, a: DirectoryId, j: nat)
    requires Enabled(s, PutIn(id, i, name)) && IsIn(Apply(k, s, PutIn(id, i, name)), a, j)
    ensures if j == i then a == id else IsIn(s, a, j)
  {
    var t := Apply(k, s, PutIn(id, i, name));
    var n :| n in t.parts[a].files && t.parts[a].files[n] == j;
    hide Lookup, Added, DS.Change;
    assert a != id || n != name ==> IsIn(s, a, j);
  }

  lemma PutInIsGood(k: FS.Codec, s: Drive, others: multiset<ChunkName>, id: DirectoryId, i: nat, name: Name)
    requires Good(k, s, others) && Enabled(s, PutIn(id, i, name))
    ensures Good(k, Apply(k, s, PutIn(id, i, name)), others)
    ensures Single(s) ==> Single(Apply(k, s, PutIn(id, i, name)))
  {
    var t := Apply(k, s, PutIn(id, i, name));
    JoinedIsGood(k, s, others, id, i, name);
    assert t.parts.Keys == s.parts.Keys && t.world == s.world by { hide Joined; }
    forall other | other in s.parts && other != id ensures FolderOf(t, other) == FolderOf(s, other) { hide Joined; }
    assert id in s.parts;
    GoodParts(k, s, others);
    hide *;
    forall a, b, j: nat | IsIn(t, a, j) && IsIn(t, b, j) ensures a == b {
      PutInKeepsApart(k, s, id, i, name, a, j);
      PutInKeepsApart(k, s, id, i, name, b, j);
    }
    AreGood(k, s, t, others, id);
  }

  /** Directories that stay as they are, and one that may not. */
  lemma AreGood(k: FS.Codec, s: Drive, t: Drive, others: multiset<ChunkName>, id: DirectoryId)
    requires Good(k, s, others) && id in t.parts && t.world == s.world
    requires forall other | other in t.parts && other != id ::
      other in s.parts && FolderOf(t, other) == FolderOf(s, other)
    requires DF.Good(k, FolderOf(t, id), others) && forall a, b, i: nat | IsIn(t, a, i) && IsIn(t, b, i) :: a == b
    ensures Good(k, t, others)
    ensures Single(s) && DF.Single(FolderOf(t, id)) ==> Single(t)
  {
    hide DF.Good, DF.Single, FS.GoodWorld, FolderOf, IsIn;
  }

  lemma MakeFolderIsGood(k: FS.Codec, s: Drive, others: multiset<ChunkName>, e: Event)
    requires Good(k, s, others) && e.MakeFolder? && Enabled(s, e)
    ensures Good(k, Apply(k, s, e), others) && (Single(s) ==> Single(Apply(k, s, e)))
  {
    var t := Apply(k, s, e);
    DF.NewFolderIsGood(k, e.parentId, e.id, e.maxVersions);
    assert DF.Good(k, FolderOf(t, e.id), others) && DF.Single(FolderOf(t, e.id)) by { hide FS.GoodWorld; }
    forall other | other in s.parts ensures FolderOf(t, other) == FolderOf(s, other) { }
    forall a, i: nat | IsIn(t, a, i) ensures IsIn(s, a, i) {
      var n :| n in t.parts[a].files && t.parts[a].files[n] == i;
    }
    assert t.parts.Keys == s.parts.Keys + {e.id} && t.world == s.world;
    GoodParts(k, s, others);
    hide *;
    AreGood(k, s, t, others, e.id);
  }

  lemma StepIsGood(k: FS.Codec, s: Drive, others: multiset<ChunkName>, e: Event)
    requires FS.Lawful(k) && Good(k, s, others) && Enabled(s, e)
    ensures Good(k, Apply(k, s, e), others)
    ensures Single(s) && !Disturbs(s, e) ==> Single(Apply(k, s, e))
  {
    hide Good, Single, Apply, Enabled, Disturbs;
    match e
    case InFolder(id, event) => InFolderIsGood(k, s, others, id, event);
    case PutIn(id, i, name) => PutInIsGood(k, s, others, id, i, name);
    case MakeFolder(_, _, _) => MakeFolderIsGood(k, s, others, e);
  }

  /** Over every interleaving of what happens in all the directories, each of them is as DirectoryFiles
      has it, and no file is in two. */
  lemma {:induction false} EveryRun(k: FS.Codec, s: Drive, others: multiset<ChunkName>, run: seq<Event>)
    requires FS.Lawful(k) && Good(k, s, others) && IsRun(k, s, run)
    ensures Good(k, After(k, s, run), others)
    ensures Single(s) && NeverDisturbed(k, s, run) ==> Single(After(k, s, run))
    decreases |run|
  {
    if run != [] {
      hide Good, Apply, Enabled, Disturbs, FS.Lawful, Single;
      StepIsGood(k, s, others, run[0]);
      EveryRun(k, Apply(k, s, run[0]), others, run[1..]);
    }
  }

  // ----- what has been written is what is stored -----

  /** What the writes and truncations of a run make of file i's content, x at first, in whatever
      directories it is. */
  ghost function Text(k: FS.Codec, s: Drive, run: seq<Event>, i: nat, x: Bytes): Bytes
    requires IsRun(k, s, run)
    decreases |run|
  {
    if run == [] then x
    else
      var e := run[0];
      var y := if e.InFolder? && e.event.FileEvent? && i < |s.world.files|
               then FS.PlainStep(s.world.files[i], e.event.i == i, e.event.step, x) else x;
      Text(k, Apply(k, s, e), run[1..], i, y)
  }

  lemma ContentStep(k: FS.Codec, s: Drive, e: Event, i: nat)
    requires Enabled(s, e)
    ensures DF.ContentAt(Apply(k, s, e).world, i) ==
      if e.InFolder? && e.event.FileEvent? && i < |s.world.files|
      then FS.PlainStep(s.world.files[i], e.event.i == i, e.event.step, DF.ContentAt(s.world, i))
      else DF.ContentAt(s.world, i)
  {
    if e.InFolder? {
      InFolderIs(k, s, e.id, e.event);
      DF.ContentStep(k, FolderOf(s, e.id), e.event, i);
      hide Apply, DF.Apply, DF.Enabled, DF.ContentAt, FS.PlainStep;
    }
  }

  lemma {:induction false} ContentIsText(k: FS.Codec, s: Drive, run: seq<Event>, i: nat)
    requires IsRun(k, s, run)
    ensures DF.ContentAt(After(k, s, run).world, i) == Text(k, s, run, i, DF.ContentAt(s.world, i))
    decreases |run|
  {
    if run != [] {
      ContentStep(k, s, run[0], i);
      hide Apply, Enabled, DF.ContentAt, FS.PlainStep;
      ContentIsText(k, Apply(k, s, run[0]), run[1..], i);
    }
  }

  predicate AllSaved(s: Drive) {
    forall id | id in s.parts :: DF.Saved(FolderOf(s, id))
  }

  /** The directory's newest version is its listing as it is, and every file opened from it holds what
      the writes have made of it. */
  ghost predicate IsOnStore(k: FS.Codec, f: DF.Folder, name: Name, x: Bytes) {
    && f.d.versions != []
    && var parsed := DS.ParseChildren(f.d.versions[0].id.listing.children);
    && parsed.Some? && Sort(parsed.value) == f.d.children && Lookup(f.d.children, name).Some?
    && DF.ReadsBack(k, Lookup(f.d.children, name).value, f.world.contents, x)
  }

  /** In every run in which no directory's handlers overlap, whenever all is saved, every directory's
      newest version is the directory as it is, and every file in it, wherever it has been before, is
      read back from there with the bytes its writes have made. */
  lemma DriveIsReadBack(k: FS.Codec, s: Drive, others: multiset<ChunkName>, run: seq<Event>, id: DirectoryId,
                        name: Name)
    requires FS.Lawful(k) && Good(k, s, others) && Single(s) && IsRun(k, s, run) && NeverDisturbed(k, s, run)
    requires var r := After(k, s, run); AllSaved(r) && id in r.parts && name in r.parts[id].files
    ensures var r := After(k, s, run); var i := r.parts[id].files[name];
      IsOnStore(k, FolderOf(r, id), name, Text(k, s, run, i, DF.ContentAt(s.world, i)))
  {
    var r := After(k, s, run);
    EveryRun(k, s, others, run);
    ContentIsText(k, s, run, r.parts[id].files[name]);
    SavedIsOnStore(k, FolderOf(r, id), others, name);
  }

  lemma SavedIsOnStore(k: FS.Codec, f: DF.Folder, others: multiset<ChunkName>, name: Name)
    requires FS.Lawful(k) && DF.Good(k, f, others) && DF.Single(f) && DF.Saved(f) && name in f.files
    ensures IsOnStore(k, f, name, DF.ContentAt(f.world, f.files[name]))
  {
    DF.SavedFileReadsBack(k, f, others, name);
    DF.SavedIsNewest(k, f, others);
  }

  /** Once every directory has heard of its files' writes and has no handler outstanding, that is so. */
  lemma QuietIsSaved(k: FS.Codec, s: Drive, others: multiset<ChunkName>)
    requires Good(k, s, others)
    requires forall id | id in s.parts :: s.parts[id].late == 0 && s.parts[id].d.pendingCount == 0
    ensures AllSaved(s)
  {
    forall id | id in s.parts ensures DF.Saved(FolderOf(s, id)) {
      DF.QuietIsSaved(k, FolderOf(s, id), others);
    }
  }

  // ----- everything can be saved -----

  function InFolderRun(id: DirectoryId, run: seq<DF.Event>): seq<Event> {
    if run == [] then [] else [InFolder(id, run[0])] + InFolderRun(id, run[1..])
  }

  /** A run of one directory's handlers is a run of the drive that leaves the other directories alone. */
  lemma {:induction false} FolderRun(k: FS.Codec, s: Drive, id: DirectoryId, run: seq<DF.Event>)
    requires id in s.parts && DF.IsRun(k, FolderOf(s, id), run) && forall e | e in run :: !e.FileEvent?
    ensures IsRun(k, s, InFolderRun(id, run))
    ensures var r := After(k, s, InFolderRun(id, run));
      && r.parts.Keys == s.parts.Keys && FolderOf(r, id) == DF.After(k, FolderOf(s, id), run)
      && forall other | other in s.parts && other != id :: r.parts[other] == s.parts[other]
    ensures DF.NeverDisturbed(k, FolderOf(s, id), run) ==> NeverDisturbed(k, s, InFolderRun(id, run))
    decreases |run|
  {
    if run != [] {
      var t := Apply(k, s, InFolder(id, run[0]));
      assert InFolderRun(id, run)[1..] == InFolderRun(id, run[1..]);
      assert FolderOf(t, id) == DF.Apply(k, FolderOf(s, id), run[0]);
      hide DF.Apply, DF.Enabled;
      FolderRun(k, t, id, run[1..]);
    }
  }

  lemma RunUnfolds(k: FS.Codec, s: Drive, run: seq<Event>)
    requires run != []
    ensures IsRun(k, s, run) <==> Enabled(s, run[0]) && IsRun(k, Apply(k, s, run[0]), run[1..])
    ensures IsRun(k, s, run) ==>
      && After(k, s, run) == After(k, Apply(k, s, run[0]), run[1..])
      && (NeverDisturbed(k, s, run)
          <==> !Disturbs(s, run[0]) && NeverDisturbed(k, Apply(k, s, run[0]), run[1..]))
  {
    hide Apply, Enabled, Disturbs;
  }

  lemma {:induction false} RunsInTurn(k: FS.Codec, s: Drive, run: seq<Event>, more: seq<Event>)
    requires IsRun(k, s, run) && IsRun(k, After(k, s, run), more)
    ensures IsRun(k, s, run + more) && After(k, s, run + more) == After(k, After(k, s, run), more)
    ensures NeverDisturbed(k, s, run) && NeverDisturbed(k, After(k, s, run), more) ==> NeverDisturbed(k, s, run + more)
    decreases |run|
  {
    hide *;
    if run == [] {
      NothingRuns(k, s);
      assert run + more == more;
    } else {
      assert (run + more)[1..] == run[1..] + more && (run + more)[0] == run[0];
      RunUnfolds(k, s, run);
      RunUnfolds(k, s, run + more);
      RunsInTurn(k, Apply(k, s, run[0]), run[1..], more);
    }
  }

  /** Another run has the same directories, with the same files and what they hold. */
  ghost predicate HasSameFiles(s: Drive, r: Drive) {
    && r.parts.Keys == s.parts.Keys && (forall id | id in s.parts :: r.parts[id].files == s.parts[id].files)
    && (forall i :: DF.ContentAt(r.world, i) == DF.ContentAt(s.world, i))
  }

  ghost predicate SavedBut(s: Drive, ids: set<DirectoryId>) {
    forall id | id in s.parts && id !in ids :: DF.Saved(FolderOf(s, id))
  }

  lemma OthersStaySaved(s: Drive, r: Drive, ids: set<DirectoryId>, id: DirectoryId)
    requires r.parts.Keys == s.parts.Keys && id in r.parts && SavedBut(s, ids) && DF.Saved(FolderOf(r, id))
    requires forall other | other in s.parts && other != id :: r.parts[other] == s.parts[other]
    ensures SavedBut(r, ids - {id})
  {
    hide DS.InFlight;
    forall other | other in r.parts && other !in ids - {id} ensures DF.Saved(FolderOf(r, other)) {
      if other != id { assert DF.Saved(FolderOf(s, other)); }
    }
  }

  lemma IsSameFiles(s: Drive, r: Drive, id: DirectoryId)
    requires r.parts.Keys == s.parts.Keys && id in r.parts && r.parts[id].files == s.parts[id].files
    requires forall other | other in s.parts && other != id :: r.parts[other] == s.parts[other]
    requires forall i :: DF.ContentAt(r.world, i) == DF.ContentAt(s.world, i)
    ensures HasSameFiles(s, r)
  {
    hide DF.ContentAt;
  }

  lemma GoodFolder(k: FS.Codec, s: Drive, others: multiset<ChunkName>, id: DirectoryId)
    requires Good(k, s, others) && id in s.parts
    ensures DF.Good(k, FolderOf(s, id), others) && FolderOf(s, id).world == s.world
    ensures FolderOf(s, id).files == s.parts[id].files
  {
  }

  lemma SaveOne(k: FS.Codec, s: Drive, others: multiset<ChunkName>, ids: set<DirectoryId>, id: DirectoryId)
    returns (run: seq<Event>)
    requires FS.Lawful(k) && Good(k, s, others) && id in s.parts && SavedBut(s, ids)
    ensures IsRun(k, s, run) && NeverDisturbed(k, s, run)
    ensures Good(k, After(k, s, run), others) && HasSameFiles(s, After(k, s, run))
    ensures SavedBut(After(k, s, run), ids - {id})
  {
    hide *;
    GoodFolder(k, s, others, id);
    var first := DF.SomeRunSaves(k, FolderOf(s, id), others);
    run := InFolderRun(id, first);
    FolderRun(k, s, id, first);
    EveryRun(k, s, others, run);
    var r := After(k, s, run);
    GoodFolder(k, r, others, id);
    OthersStaySaved(s, r, ids, id);
    IsSameFiles(s, r, id);
  }

  /** From every state of the drive there is a run, of handlers alone, after which all is saved. */
  lemma {:induction false} SomeRunSaves(k: FS.Codec, s: Drive, others: multiset<ChunkName>, ids: set<DirectoryId>)
    returns (run: seq<Event>)
    requires FS.Lawful(k) && Good(k, s, others) && ids <= s.parts.Keys && SavedBut(s, ids)
    ensures IsRun(k, s, run) && NeverDisturbed(k, s, run)
    ensures AllSaved(After(k, s, run)) && HasSameFiles(s, After(k, s, run))
    decreases ids
  {
    hide *;
    run := [];
    NothingRuns(k, s);
    if ids != {} {
      var id :| id in ids;
      var first := SaveOne(k, s, others, ids, id);
      SameDirectories(s, After(k, s, first));
      var rest := SomeRunSaves(k, After(k, s, first), others, ids - {id});
      RunsInTurn(k, s, first, rest);
      SameFilesStill(s, After(k, s, first), After(k, After(k, s, first), rest));
      run := first + rest;
    }
  }

  lemma NothingRuns(k: FS.Codec, s: Drive)
    ensures IsRun(k, s, []) && NeverDisturbed(k, s, []) && After(k, s, []) == s && HasSameFiles(s, s)
    ensures SavedBut(s, {}) ==> AllSaved(s)
  {
  }

  lemma SameDirectories(s: Drive, r: Drive)
    requires HasSameFiles(s, r)
    ensures r.parts.Keys == s.parts.Keys
  {
  }

  lemma SameFilesStill(s: Drive, t: Drive, r: Drive)
    requires HasSameFiles(s, t) && HasSameFiles(t, r)
    ensures HasSameFiles(s, r)
  {
  }

  /** So everything the files of the drive hold now can get to where it is read back. */
  lemma WhatIsWrittenGetsStored(k: FS.Codec, s: Drive, others: multiset<ChunkName>) returns (run: seq<Event>)
    requires FS.Lawful(k) && Good(k, s, others) && Single(s)
    ensures IsRun(k, s, run) && NeverDisturbed(k, s, run)
    ensures var r := After(k, s, run);
      && r.parts.Keys == s.parts.Keys
      && forall id, name | id in s.parts && name in s.parts[id].files ::
           IsOnStore(k, FolderOf(r, id), name, DF.ContentAt(s.world, s.parts[id].files[name]))
  {
    run := SomeRunSaves(k, s, others, s.parts.Keys);
    var r := After(k, s, run);
    EveryRun(k, s, others, run);
    forall id, name | id in s.parts && name in s.parts[id].files
      ensures IsOnStore(k, FolderOf(r, id), name, DF.ContentAt(s.world, s.parts[id].files[name]))
    {
      SavedIsOnStore(k, FolderOf(r, id), others, name);
    }
  }

  /** A drive with nothing on it starts such runs. */
  lemma NewDriveIsGood(k: FS.Codec)
    ensures var s := Drive(map[], FS.World([], map[], multiset{})); Good(k, s, multiset{}) && Single(s)
  {
  }
}
