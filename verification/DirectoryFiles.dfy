/** A directory together with the files in it. The directory's delayed store serialises the files
    one after the other, and other threads open, write, truncate and close them meanwhile. */
module DirectoryFiles {
  import opened Wrappers
  import opened Paths
  import opened MetaData
  import opened Listing
  import DS = DirectoryState
  import FS = FileState

  /** A directory, the file objects on its chunk store, and the one each regular child is. late counts
      the writes that have changed a file and have not scheduled the directory yet; taking has the
      entries that the handler in the children loop has serialised, under the directory's mutex. */
  datatype Folder = Folder(
    d: DS.Dir,
    world: FS.World,
    files: map<Name, nat>,
    late: nat,
    taking: Option<seq<ProtoPath>>)

  // ----- the children's metadata -----

  /** A regular child's metadata is a part of its file object. */
  function Refresh(m: Meta, files: map<Name, nat>, w: FS.World): Meta {
    if m.name in files && files[m.name] < |w.files|
    then m.(dataMap := Some(w.files[files[m.name]].dataMap), size := w.files[files[m.name]].size)
    else m
  }

  function Refreshed(s: Children, files: map<Name, nat>, w: FS.World): Children {
    seq(|s|, j requires 0 <= j < |s| => Refresh(s[j], files, w))
  }

  predicate Modified(f: FS.File) {
    f.data.Some? && f.data.value.modified
  }

  predicate IsModified(m: Meta, files: map<Name, nat>, w: FS.World) {
    m.name in files && files[m.name] < |w.files| && Modified(w.files[files[m.name]])
  }

  ghost predicate EntryInStep(m: Meta, files: map<Name, nat>, w: FS.World) {
    && (m.fileType == RegularFile <==> m.name in files)
    && (m.name in files ==> files[m.name] < |w.files|)
    && m == Refresh(m, files, w)
  }

  /** The listing has the metadata of the file objects, and every one of them is listed. */
  ghost predicate Describes(c: Children, files: map<Name, nat>, w: FS.World) {
    && DS.Storable(c)
    && (forall m | m in c :: EntryInStep(m, files, w))
    && (forall n | n in files :: Lookup(c, n).Some?)
  }

  ghost predicate InStep(s: Folder) {
    Describes(s.d.children, s.files, s.world)
  }

  // ----- steps -----

  datatype Event =
    | FileEvent(i: nat, step: FS.Event)
    | ScheduleEvent
    | AddEvent(name: Name, directoryId: Option<DirectoryId>)
    | RemoveEvent(name: Name)
    | RenameEvent(name: Name, newName: Name)
    | BeginEvent
    | ChildEvent
    | EndEvent
    | StoreEvent(store: DS.Event)

  /** A write or truncation that finds a buffer, and so schedules the parent after it. */
  predicate Edits(f: FS.File, e: FS.Event) {
    f.data.Some? && (e.WriteEvent? || e.TruncateEvent?)
  }

  /** The steps of handlers and timer outside the children loop. */
  predicate IsStoreStep(d: DS.Dir, e: DS.Event) {
    DS.Enabled(d, e) && !e.ChangeEvent? && !e.SnapshotEvent? && !e.PutEvent?
  }

  /** Whatever needs the directory's mutex waits while a handler is in the children loop. */
  predicate Enabled(s: Folder, e: Event) {
    match e
    case FileEvent(i, step) => i < |s.world.files| && !step.SerialiseEvent?
    case ScheduleEvent => s.taking.None? && s.late > 0
    case AddEvent(name, _) => s.taking.None? && Lookup(s.d.children, name).None? && Nameable(name)
    case RemoveEvent(name) => s.taking.None? && Lookup(s.d.children, name).Some?
    case RenameEvent(name, newName) =>
      s.taking.None? && Lookup(s.d.children, name).Some? && Lookup(s.d.children, newName).None? && Nameable(newName)
    case BeginEvent => s.taking.None? && s.d.starting > 0
    case ChildEvent => s.taking.Some? && |s.taking.value| < |s.d.children|
    case EndEvent => s.taking.Some? && |s.taking.value| == |s.d.children| && s.d.starting > 0
    case StoreEvent(store) => IsStoreStep(s.d, store)
  }

  function WithWorld(s: Folder, w: FS.World): Folder {
    s.(world := w, d := s.d.(children := Refreshed(s.d.children, s.files, w)))
  }

  function NewEntry(name: Name, directoryId: Option<DirectoryId>): Meta {
    if directoryId.Some? then Meta(name, DirectoryFile, directoryId, None, DIRECTORY_SIZE)
    else Meta(name, RegularFile, None, Some(FS.EMPTY_MAP), 0)
  }

  /** The next child of the loop: a file is flushed first, and its entry written after that. The
      increments the loop collects for its end are made here; no other part depends on when. */
  function SerialiseNext(k: FS.Codec, s: Folder): Folder
    requires s.taking.Some? && |s.taking.value| < |s.d.children|
  {
    var j := |s.taking.value|;
    var m := s.d.children[j];
    var t := if m.name in s.files && s.files[m.name] < |s.world.files|
             then WithWorld(s, FS.ApplyAt(k, s.world, s.files[m.name], FS.SerialiseEvent)) else s;
    t.(taking := Some(s.taking.value + [ToProto(t.d.children[j])]))
  }

  /** The snapshot has the entries as they were when the loop came to each. */
  function EndLoop(d: DS.Dir, entries: seq<ProtoPath>): DS.Dir
    requires d.starting > 0
  {
    DS.TakeSnapshot(d).(snapped := d.snapped + [DS.ProtoDirectory(d.directoryId, d.maxVersions, entries)])
  }

  function Apply(k: FS.Codec, s: Folder, e: Event): Folder
    requires Enabled(s, e)
  {
    match e
    case FileEvent(i, step) =>
      WithWorld(s, FS.ApplyAt(k, s.world, i, step))
        .(late := if Edits(s.world.files[i], step) then s.late + 1 else s.late)
    case ScheduleEvent => s.(d := DS.Schedule(s.d), late := s.late - 1)
    case AddEvent(name, directoryId) =>
      var d := DS.Change(s.d, Added(s.d.children, NewEntry(name, directoryId)));
      if directoryId.Some? then s.(d := d)
      else s.(d := d, world := s.world.(files := s.world.files + [FS.NEW_FILE]),
              files := s.files[name := |s.world.files|])
    case RemoveEvent(name) =>
      s.(d := DS.Change(s.d, Removed(s.d.children, Find(s.d.children, name))), files := s.files - {name})
    case RenameEvent(name, newName) =>
      s.(d := DS.Change(s.d, Renamed(s.d.children, name, newName)),
         files := RenamedFiles(s.files, name, newName))
    case BeginEvent => s.(taking := Some([]))
    case ChildEvent => SerialiseNext(k, s)
    case EndEvent => s.(d := EndLoop(s.d, s.taking.value), taking := None)
    case StoreEvent(store) => s.(d := DS.Apply(s.d, store))
  }

  predicate IsRun(k: FS.Codec, s: Folder, run: seq<Event>)
    decreases |run|
  {
    run == [] || (Enabled(s, run[0]) && IsRun(k, Apply(k, s, run[0]), run[1..]))
  }

  function After(k: FS.Codec, s: Folder, run: seq<Event>): Folder
    requires IsRun(k, s, run)
    decreases |run|
  {
    if run == [] then s else After(k, Apply(k, s, run[0]), run[1..])
  }

  /** A handler enters the children loop while the snapshot of another one is not committed yet, or
      the storage does not take a snapshot. */
  predicate Disturbs(s: Folder, e: Event) {
    (e.BeginEvent? && DS.InFlight(s.d) != []) || (e.StoreEvent? && e.store.FailBlobEvent?)
  }

  ghost predicate NeverDisturbed(k: FS.Codec, s: Folder, run: seq<Event>)
    requires IsRun(k, s, run)
    decreases |run|
  {
    run == [] || (!Disturbs(s, run[0]) && NeverDisturbed(k, Apply(k, s, run[0]), run[1..]))
  }

  // ----- what every run keeps -----

  /** The entries the loop has written stand, unless a write has yet to schedule the directory. */
  ghost predicate Taken(s: Folder) {
    s.taking.Some? ==>
      && |s.taking.value| <= |s.d.children| && s.d.starting > 0
      && (s.late == 0 ==> forall j | 0 <= j < |s.taking.value| ::
            s.taking.value[j] == ToProto(s.d.children[j]) && !IsModified(s.d.children[j], s.files, s.world))
  }

  /** A modified buffer is an unsaved change of the directory, or one it has not heard of yet. */
  ghost predicate Synced(s: Folder) {
    s.late == 0 && !s.d.unsaved ==> forall m | m in s.d.children :: !IsModified(m, s.files, s.world)
  }

  /** One snapshot at most is being taken or in flight, and it is the newest one. */
  ghost predicate Single(s: Folder) {
    && (s.taking.Some? ==> DS.InFlight(s.d) == [])
    && DS.OneInFlight(s.d)
    && (s.late == 0 ==> DS.Alone(s.d))
  }

  ghost predicate Good(k: FS.Codec, s: Folder, others: multiset<ChunkName>) {
    && DS.Counted(s.d) && DS.NotLost(s.d) && FS.GoodWorld(k, s.world, others)
    && InStep(s) && Taken(s) && Synced(s)
  }

  // ----- a step of a file -----

  lemma QuietStep(k: FS.Codec, f: FS.File, contents: map<ChunkName, Bytes>, e: FS.Event)
    requires !Modified(f) && !Edits(f, e)
    ensures var g := FS.Apply(k, f, contents, e); g.dataMap == f.dataMap && g.size == f.size && !Modified(g)
  {
  }

  lemma SerialisedIsUnmodified(k: FS.Codec, f: FS.File, contents: map<ChunkName, Bytes>)
    ensures !Modified(FS.Apply(k, f, contents, FS.SerialiseEvent))
  {
  }

  lemma OthersStay(k: FS.Codec, w: FS.World, i: nat, e: FS.Event)
    requires i < |w.files|
    ensures var u := FS.ApplyAt(k, w, i, e);
      && |u.files| == |w.files| && u.files[i] == FS.Apply(k, w.files[i], w.contents, e)
      && forall j | 0 <= j < |w.files| && j != i :: u.files[j] == w.files[j]
  {
  }

  /** A child of which no write is outstanding and that the step does not write to. */
  lemma EntryStays(k: FS.Codec, w: FS.World, files: map<Name, nat>, i: nat, e: FS.Event, m: Meta)
    requires i < |w.files| && EntryInStep(m, files, w)
    requires !IsModified(m, files, w) && !Edits(w.files[i], e)
    ensures Refresh(m, files, FS.ApplyAt(k, w, i, e)) == m && !IsModified(m, files, FS.ApplyAt(k, w, i, e))
  {
    OthersStay(k, w, i, e);
    hide FS.ApplyAt, FS.Apply;
    if m.name in files && files[m.name] == i {
      QuietStep(k, w.files[i], w.contents, e);
    }
  }

  lemma RefreshedNames(s: Children, files: map<Name, nat>, w: FS.World, name: Name)
    ensures Find(Refreshed(s, files, w), name) == Find(s, name)
  {
    var t := Refreshed(s, files, w);
    assert forall j | 0 <= j < |s| :: t[j].name == s[j].name;
  }

  lemma RefreshedEntry(m: Meta, files: map<Name, nat>, w: FS.World, u: FS.World)
    requires EntryInStep(m, files, w) && |u.files| == |w.files|
    ensures var r := Refresh(m, files, u);
      EntryInStep(r, files, u) && r.name == m.name && (WellFormed(m) ==> WellFormed(r))
  {
  }

  lemma RefreshedIsStorable(s: Children, files: map<Name, nat>, w: FS.World)
    requires DS.Storable(s) && forall m | m in s :: WellFormed(Refresh(m, files, w))
    ensures DS.Storable(Refreshed(s, files, w))
  {
    var t := Refreshed(s, files, w);
    assert forall j | 0 <= j < |s| :: t[j].name == s[j].name && t[j] == Refresh(s[j], files, w) && s[j] in s;
    hide Refresh, WellFormed, NameLess;
  }

  lemma RefreshedInStep(s: Folder, w: FS.World)
    requires InStep(s) && |w.files| == |s.world.files|
    ensures InStep(WithWorld(s, w))
  {
    var t := WithWorld(s, w);
    forall m | m in s.d.children
      ensures EntryInStep(Refresh(m, s.files, w), s.files, w) && WellFormed(Refresh(m, s.files, w))
    {
      RefreshedEntry(m, s.files, s.world, w);
    }
    RefreshedIsStorable(s.d.children, s.files, w);
    hide DS.Storable, EntryInStep, Refresh, WellFormed, Find;
    forall m | m in t.d.children ensures EntryInStep(m, s.files, w) {
      var j :| 0 <= j < |t.d.children| && t.d.children[j] == m;
      assert s.d.children[j] in s.d.children;
    }
    forall n | n in s.files ensures Lookup(t.d.children, n).Some? {
      RefreshedNames(s.d.children, s.files, w, n);
    }
  }

  /** A step of the files that leaves the entries of unmodified files as they are. */
  ghost predicate StepsAside(s: Folder, t: Folder) {
    && t.d == s.d.(children := t.d.children) && |t.d.children| == |s.d.children|
    && t.files == s.files && t.late == s.late && t.taking == s.taking
    && forall j | 0 <= j < |s.d.children| && !IsModified(s.d.children[j], s.files, s.world) ::
         t.d.children[j] == s.d.children[j] && !IsModified(t.d.children[j], t.files, t.world)
  }

  lemma ListingStays(k: FS.Codec, s: Folder, i: nat, e: FS.Event)
    requires InStep(s) && i < |s.world.files| && !Edits(s.world.files[i], e)
    ensures StepsAside(s, WithWorld(s, FS.ApplyAt(k, s.world, i, e)))
  {
    var t := WithWorld(s, FS.ApplyAt(k, s.world, i, e));
    forall j | 0 <= j < |s.d.children| && !IsModified(s.d.children[j], s.files, s.world)
      ensures t.d.children[j] == s.d.children[j] && !IsModified(t.d.children[j], t.files, t.world)
    {
      assert s.d.children[j] in s.d.children;
      hide FS.ApplyAt, Refresh, IsModified;
      EntryStays(k, s.world, s.files, i, e, s.d.children[j]);
    }
  }

  /** The listing's part in the machine of handlers: its counts do not depend on it, and an unsaved
      change makes whatever is in flight current enough. */
  lemma WithChildren(d: DS.Dir, children: Children)
    ensures var e := d.(children := children);
      && (DS.Counted(e) <==> DS.Counted(d)) && (DS.NotLost(e) <==> DS.NotLost(d)) && DS.InFlight(e) == DS.InFlight(d)
      && (DS.OneInFlight(e) <==> DS.OneInFlight(d)) && (d.unsaved && DS.OneInFlight(d) ==> DS.Alone(e))
  {
  }

  lemma AsideKeeps(s: Folder, t: Folder)
    requires StepsAside(s, t) && Taken(s) && Synced(s)
    ensures Taken(t) && Synced(t)
  {
    hide IsModified, ToProto;
    if s.late == 0 && !s.d.unsaved {
      assert forall j | 0 <= j < |s.d.children| :: s.d.children[j] in s.d.children;
      assert t.d.children == s.d.children;
    }
  }

  lemma AsideIsSingle(s: Folder, t: Folder)
    requires StepsAside(s, t) && Synced(s) && Single(s)
    ensures Single(t)
  {
    WithChildren(s.d, t.d.children);
    hide DS.Alone, DS.OneInFlight, DS.InFlight, IsModified;
    if s.late == 0 && !s.d.unsaved {
      assert forall j | 0 <= j < |s.d.children| :: s.d.children[j] in s.d.children;
      assert t.d.children == s.d.children;
    }
  }

  lemma LateKeeps(s: Folder, t: Folder)
    requires Taken(s) && t.late > 0
    requires t.d == s.d.(children := t.d.children) && |t.d.children| == |s.d.children| && t.taking == s.taking
    ensures Taken(t) && Synced(t) && (Single(s) ==> Single(t))
  {
    WithChildren(s.d, t.d.children);
    hide DS.Alone, DS.OneInFlight, DS.InFlight, IsModified, ToProto;
  }

  lemma GoodParts(k: FS.Codec, s: Folder, others: multiset<ChunkName>)
    ensures Good(k, s, others) <==>
      DS.Counted(s.d) && DS.NotLost(s.d) && FS.GoodWorld(k, s.world, others) && InStep(s) && Taken(s) && Synced(s)
  {
  }

  lemma WithWorldParts(s: Folder, w: FS.World)
    ensures var t := WithWorld(s, w);
      && t.world == w && t.d == s.d.(children := t.d.children) && |t.d.children| == |s.d.children|
      && t.files == s.files && t.late == s.late && t.taking == s.taking
  {
  }

  lemma WithLate(s: Folder, late: nat)
    ensures InStep(s.(late := late)) <==> InStep(s)
  {
  }

  /** A step of a file that is no write. */
  lemma FileStepIsGood(k: FS.Codec, s: Folder, others: multiset<ChunkName>, i: nat, e: FS.Event)
    requires FS.Lawful(k) && Good(k, s, others) && i < |s.world.files| && !Edits(s.world.files[i], e)
    ensures var t := WithWorld(s, FS.ApplyAt(k, s.world, i, e)); Good(k, t, others) && (Single(s) ==> Single(t))
  {
    hide *;
    GoodParts(k, s, others);
    var u := FS.ApplyAt(k, s.world, i, e);
    var t := WithWorld(s, u);
    FS.StepIsGoodWorld(k, s.world, others, i, e);
    RefreshedInStep(s, u);
    ListingStays(k, s, i, e);
    AsideKeeps(s, t);
    if Single(s) { AsideIsSingle(s, t); }
    WithWorldParts(s, u);
    WithChildren(s.d, t.d.children);
    GoodParts(k, t, others);
  }

  /** A write: from now on the directory has yet to hear of it. */
  lemma EditIsGood(k: FS.Codec, s: Folder, others: multiset<ChunkName>, i: nat, e: FS.Event)
    requires FS.Lawful(k) && Good(k, s, others) && i < |s.world.files|
    ensures var t := WithWorld(s, FS.ApplyAt(k, s.world, i, e)).(late := s.late + 1);
      Good(k, t, others) && (Single(s) ==> Single(t))
  {
    hide *;
    GoodParts(k, s, others);
    var u := FS.ApplyAt(k, s.world, i, e);
    var t := WithWorld(s, u).(late := s.late + 1);
    FS.StepIsGoodWorld(k, s.world, others, i, e);
    RefreshedInStep(s, u);
    WithLate(WithWorld(s, u), s.late + 1);
    WithWorldParts(s, u);
    LateKeeps(s, t);
    WithChildren(s.d, t.d.children);
    GoodParts(k, t, others);
  }

  /** The loop flushes the next child, if that is a file. */
  lemma NextIsFlushed(k: FS.Codec, s: Folder, others: multiset<ChunkName>) returns (t: Folder)
    requires FS.Lawful(k) && Good(k, s, others) && Enabled(s, ChildEvent)
    ensures Good(k, t, others) && |t.d.children| == |s.d.children| && t.taking == s.taking && (Single(s) ==> Single(t))
    ensures var j := |s.taking.value|;
      && !IsModified(t.d.children[j], t.files, t.world)
      && SerialiseNext(k, s) == t.(taking := Some(s.taking.value + [ToProto(t.d.children[j])]))
  {
    hide Good, Single, FS.ApplyAt, FS.Apply, Refresh, DS.Enabled, IsStoreStep, FS.Lawful;
    var m := s.d.children[|s.taking.value|];
    NamedFile(k, s, others, m);
    t := s;
    if m.name in s.files {
      var i := s.files[m.name];
      t := WithWorld(s, FS.ApplyAt(k, s.world, i, FS.SerialiseEvent));
      FileStepIsGood(k, s, others, i, FS.SerialiseEvent);
      OthersStay(k, s.world, i, FS.SerialiseEvent);
      SerialisedIsUnmodified(k, s.world.files[i], s.world.contents);
      RefreshKeepsName(m, s.files, t.world);
    }
  }

  lemma RefreshKeepsName(m: Meta, files: map<Name, nat>, w: FS.World)
    ensures Refresh(m, files, w).name == m.name
  {
  }

  lemma NamedFile(k: FS.Codec, s: Folder, others: multiset<ChunkName>, m: Meta)
    requires Good(k, s, others) && m in s.d.children
    ensures m.name in s.files ==> s.files[m.name] < |s.world.files|
  {
    assert EntryInStep(m, s.files, s.world);
  }

  lemma ChildIsGood(k: FS.Codec, s: Folder, others: multiset<ChunkName>)
    requires FS.Lawful(k) && Good(k, s, others) && Enabled(s, ChildEvent)
    ensures Good(k, SerialiseNext(k, s), others) && (Single(s) ==> Single(SerialiseNext(k, s)))
  {
    hide *;
    ChildIsNext(s);
    var t := NextIsFlushed(k, s, others);
    GoodParts(k, t, others);
    TakesOneMore(t);
    GoodParts(k, SerialiseNext(k, s), others);
  }

  lemma ChildIsNext(s: Folder)
    requires Enabled(s, ChildEvent)
    ensures s.taking.Some? && |s.taking.value| < |s.d.children|
  {
  }

  lemma TakesOneMore(s: Folder)
    requires s.taking.Some? && |s.taking.value| < |s.d.children| && InStep(s) && Taken(s) && Synced(s)
    requires !IsModified(s.d.children[|s.taking.value|], s.files, s.world)
    ensures var t := s.(taking := Some(s.taking.value + [ToProto(s.d.children[|s.taking.value|])]));
      InStep(t) && Taken(t) && Synced(t) && (Single(s) ==> Single(t))
  {
    hide DS.Alone, DS.OneInFlight, DS.InFlight, IsModified, ToProto, EntryInStep, DS.Storable, Lookup;
    var t := s.(taking := Some(s.taking.value + [ToProto(s.d.children[|s.taking.value|])]));
    assert InStep(t);
    hide InStep;
  }

  /** The loop is over: the snapshot is the listing, or a write has yet to schedule the directory. */
  lemma EndIsGood(k: FS.Codec, s: Folder, others: multiset<ChunkName>)
    requires Good(k, s, others) && Enabled(s, EndEvent)
    ensures Good(k, Apply(k, s, EndEvent), others)
  {
    var t := Apply(k, s, EndEvent);
    assert InStep(t);
    if s.late == 0 {
      forall m | m in t.d.children ensures !IsModified(m, t.files, t.world) {
        var j :| 0 <= j < |t.d.children| && t.d.children[j] == m;
      }
    }
    hide FS.GoodWorld, InStep, IsModified, DS.ProtoChildren;
  }

  lemma EndIsSingle(s: Folder)
    requires s.taking.Some? && |s.taking.value| == |s.d.children| && s.d.starting > 0 && Taken(s) && Single(s)
    ensures Single(s.(d := EndLoop(s.d, s.taking.value), taking := None))
  {
    var entries := s.taking.value;
    var d := EndLoop(s.d, entries);
    assert DS.InFlight(d) == [DS.ProtoDirectory(s.d.directoryId, s.d.maxVersions, entries)] by {
      assert |DS.InFlight(s.d)| ==
        |s.d.snapped| + |s.d.serialised| + |s.d.encrypted| + |s.d.initial| + |s.d.adding|;
    }
    if s.late == 0 {
      assert entries == DS.ProtoChildren(s.d.children);
    }
    hide IsModified, DS.ProtoChildren;
  }

  // ----- steps of the listing and of its store -----

  /** A step of the directory's own that schedules a store. */
  lemma ScheduledIsGood(d: DS.Dir, children: Children)
    requires DS.Counted(d) && DS.NotLost(d)
    ensures var e := DS.Change(d, children);
      DS.Counted(e) && DS.NotLost(e) && e.unsaved && DS.InFlight(e) == DS.InFlight(d)
    ensures DS.OneInFlight(d) ==> DS.Alone(DS.Change(d, children))
  {
    assert DS.InFlight(DS.Change(d, children)) == DS.InFlight(d);
  }

  lemma StoreStepKeeps(d: DS.Dir, e: DS.Event)
    requires IsStoreStep(d, e)
    ensures var f := DS.Apply(d, e);
      f.children == d.children && f.starting >= d.starting && f.unsaved == d.unsaved
  {
  }

  lemma StoreStepIsGood(k: FS.Codec, s: Folder, others: multiset<ChunkName>, e: DS.Event)
    requires Good(k, s, others) && IsStoreStep(s.d, e) && DS.Enabled(s.d, e)
    ensures var t := s.(d := DS.Apply(s.d, e)); Good(k, t, others) && (Single(s) && !e.FailBlobEvent? ==> Single(t))
  {
    hide *;
    GoodParts(k, s, others);
    DS.StepCounts(s.d, e);
    StoreStepKeepsFolder(s, e);
    if Single(s) && !e.FailBlobEvent? { StoreStepIsSingle(s, e); }
    GoodParts(k, s.(d := DS.Apply(s.d, e)), others);
  }

  lemma StoreStepIsSingle(s: Folder, e: DS.Event)
    requires IsStoreStep(s.d, e) && DS.Enabled(s.d, e) && Single(s) && !e.FailBlobEvent?
    ensures Single(s.(d := DS.Apply(s.d, e)))
  {
    DS.InFlightSize(s.d, e);
    assert !DS.Disturbs(s.d, e);
    assert DS.OneInFlight(s.d) && |DS.InFlight(s.d)| >= 0;
    hide DS.Apply, DS.Alone, DS.OneInFlight, DS.InFlight, DS.Disturbs;
    DS.OneInFlightStep(s.d, e);
    if DS.Alone(s.d) { DS.AloneStep(s.d, e); }
  }

  lemma StoreStepKeepsFolder(s: Folder, e: DS.Event)
    requires IsStoreStep(s.d, e) && DS.Enabled(s.d, e)
    requires InStep(s) && Taken(s) && Synced(s)
    ensures var t := s.(d := DS.Apply(s.d, e)); InStep(t) && Taken(t) && Synced(t)
  {
    StoreStepKeeps(s.d, e);
    hide DS.Apply, DS.Enabled, IsModified, IsStoreStep, Describes, ToProto;
  }

  lemma {:induction false} NewFileIsGood(k: FS.Codec, files: seq<FS.File>)
    ensures FS.Total(files + [FS.NEW_FILE]) == FS.Total(files)
  {
    if files == [] {
      assert [] + [FS.NEW_FILE] == [FS.NEW_FILE] && [FS.NEW_FILE][1..] == [];
    } else {
      NewFileIsGood(k, files[1..]);
      assert (files + [FS.NEW_FILE])[1..] == files[1..] + [FS.NEW_FILE];
    }
  }

  lemma NewFileInWorld(k: FS.Codec, w: FS.World, others: multiset<ChunkName>)
    requires FS.GoodWorld(k, w, others)
    ensures FS.GoodWorld(k, w.(files := w.files + [FS.NEW_FILE]), others)
  {
    NewFileIsGood(k, w.files);
    assert FS.Good(k, FS.NEW_FILE, w.contents);
    var u := w.(files := w.files + [FS.NEW_FILE]);
    forall i | 0 <= i < |u.files| ensures FS.Good(k, u.files[i], u.contents) {
      assert i < |w.files| ==> u.files[i] == w.files[i];
    }
  }

  /** more and u are files and w but for one more name and more files. */
  ghost predicate Extends(files: map<Name, nat>, w: FS.World, name: Name, more: map<Name, nat>, u: FS.World) {
    && (forall n | n != name :: (n in more <==> n in files) && (n in files ==> more[n] == files[n]))
    && w.files <= u.files
  }

  lemma AddedEntry(m: Meta, files: map<Name, nat>, w: FS.World, name: Name, more: map<Name, nat>, u: FS.World)
    requires EntryInStep(m, files, w) && m.name != name && Extends(files, w, name, more, u)
    ensures EntryInStep(m, more, u)
  {
  }

  lemma NewEntryInStep(files: map<Name, nat>, w: FS.World, name: Name, directoryId: Option<DirectoryId>)
    requires name !in files
    ensures WellFormed(NewEntry(name, directoryId))
    ensures directoryId.Some? ==> EntryInStep(NewEntry(name, directoryId), files, w)
    ensures directoryId.None? ==>
      EntryInStep(NewEntry(name, directoryId), files[name := |w.files|], w.(files := w.files + [FS.NEW_FILE]))
  {
  }

  lemma AddedDescribes(c: Children, files: map<Name, nat>, w: FS.World, m: Meta, more: map<Name, nat>, u: FS.World)
    requires Describes(c, files, w) && Lookup(c, m.name).None? && Nameable(m.name) && WellFormed(m)
    requires EntryInStep(m, more, u)
    requires Extends(files, w, m.name, more, u)
    ensures Describes(Added(c, m), more, u)
  {
    AddedLooksUp(c, m);
    LookupMeans(c, m.name);
    AddedIsStorable(c, m);
    hide Added, Lookup, Sorted, EntryInStep, WellFormed, DS.Storable;
    forall x | x in Added(c, m) ensures EntryInStep(x, more, u) {
      if x != m {
        assert EntryInStep(x, files, w);
        AddedEntry(x, files, w, m.name, more, u);
      }
    }
  }

  lemma AddedIsStorable(c: Children, m: Meta)
    requires DS.Storable(c) && Lookup(c, m.name).None? && WellFormed(m) && Nameable(m.name)
    ensures DS.Storable(Added(c, m))
  {
    AddedLooksUp(c, m);
    hide Added, Sorted, WellFormed, Lookup;
  }

  /** Entries that keep their file are in step whatever names come and go. */
  lemma EntryKeeps(m: Meta, files: map<Name, nat>, more: map<Name, nat>, w: FS.World)
    requires EntryInStep(m, files, w) && (m.name in files <==> m.name in more)
    requires m.name in files ==> more[m.name] == files[m.name]
    ensures EntryInStep(m, more, w)
  {
  }

  lemma RemovedListing(c: Children, name: Name)
    requires DS.Storable(c) && Lookup(c, name).Some?
    ensures var t := Removed(c, Find(c, name));
      && DS.Storable(t)
      && (forall n :: Lookup(t, n) == if n == name then None else Lookup(c, n))
      && (forall x :: x in t <==> x in c && x.name != name)
  {
    var i := Find(c, name);
    LookupFinds(c, name);
    RemovedLooksUp(c, i);
    SortedIsUnique(c);
    assert forall x | x in c && x.name == name :: x == c[i];
    hide Removed, Lookup, Sorted, Find, Unique, WellFormed;
  }

  lemma EntriesKeep(c: Children, t: Children, files: map<Name, nat>, more: map<Name, nat>, w: FS.World)
    requires forall x | x in c :: EntryInStep(x, files, w)
    requires forall x | x in t :: x in c && (x.name in files <==> x.name in more)
    requires forall n | n in files && n in more :: more[n] == files[n]
    ensures forall x | x in t :: EntryInStep(x, more, w)
  {
    forall x | x in t ensures EntryInStep(x, more, w) {
      EntryKeeps(x, files, more, w);
    }
  }

  lemma FewerDescribes(c: Children, t: Children, files: map<Name, nat>, w: FS.World, name: Name)
    requires Describes(c, files, w) && DS.Storable(t)
    requires forall n | n != name :: Lookup(t, n) == Lookup(c, n)
    requires forall x | x in t :: x in c && x.name != name
    ensures Describes(t, files - {name}, w)
  {
    hide Lookup, EntryInStep, DS.Storable;
    EntriesKeep(c, t, files, files - {name}, w);
  }

  lemma RemovedDescribes(c: Children, files: map<Name, nat>, w: FS.World, name: Name)
    requires Describes(c, files, w) && Lookup(c, name).Some?
    ensures Find(c, name) < |c| && Describes(Removed(c, Find(c, name)), files - {name}, w)
  {
    LookupFinds(c, name);
    assert DS.Storable(c);
    hide *;
    RemovedListing(c, name);
    FewerDescribes(c, Removed(c, Find(c, name)), files, w, name);
  }

  lemma RenamedListing(c: Children, name: Name, newName: Name)
    requires Sorted(c) && Lookup(c, name).Some? && Lookup(c, newName).None?
    ensures var t := Renamed(c, name, newName); var was := Lookup(c, name).value; var m := was.(name := newName);
      && Sorted(t) && was in c && was.name == name
      && (forall n :: Lookup(t, n) == if n == newName then Some(m) else if n == name then None else Lookup(c, n))
      && (forall x :: x in t <==> x == m || (x in c && x.name != name))
      && (forall x | x in c :: x.name != newName)
  {
    var i := Find(c, name);
    LookupFinds(c, name);
    LookupMeans(c, newName);
    ReplacedLooksUp(c, i, c[i].(name := newName));
    SortedIsUnique(c);
    assert forall x | x in c && x.name == name :: x == c[i];
    hide Replaced, Lookup, Sorted, Find, Unique;
  }

  function RenamedFiles(files: map<Name, nat>, name: Name, newName: Name): map<Name, nat> {
    if name in files then (files - {name})[newName := files[name]] else files
  }

  lemma RenamedEntry(files: map<Name, nat>, w: FS.World, name: Name, newName: Name, was: Meta, x: Meta)
    requires EntryInStep(was, files, w) && was.name == name && newName !in files
    requires x == was.(name := newName) || (EntryInStep(x, files, w) && x.name != name && x.name != newName)
    ensures EntryInStep(x, RenamedFiles(files, name, newName), w)
  {
  }

  lemma RenamedNames(files: map<Name, nat>, name: Name, newName: Name)
    ensures forall n | n in RenamedFiles(files, name, newName) :: n == newName || (n in files && n != name)
  {
  }

  lemma OneRenamedDescribes(c: Children, t: Children, files: map<Name, nat>, w: FS.World, was: Meta, newName: Name)
    requires Describes(c, files, w) && was in c && newName !in files && Nameable(newName) && Sorted(t)
    requires Lookup(t, newName).Some? && forall n | n != was.name && n != newName :: Lookup(t, n) == Lookup(c, n)
    requires forall x | x in t :: x == was.(name := newName) || (x in c && x.name != was.name && x.name != newName)
    ensures Describes(t, RenamedFiles(files, was.name, newName), w)
  {
    var more := RenamedFiles(files, was.name, newName);
    RenamedNames(files, was.name, newName);
    RenamedIsStorable(c, t, was, newName);
    hide RenamedFiles, Lookup, EntryInStep, DS.Storable, Sorted;
    forall x | x in t ensures EntryInStep(x, more, w) {
      RenamedEntry(files, w, was.name, newName, was, x);
    }
  }

  lemma RenamedDescribes(c: Children, files: map<Name, nat>, w: FS.World, name: Name, newName: Name)
    requires Describes(c, files, w) && Lookup(c, name).Some? && Lookup(c, newName).None? && Nameable(newName)
    ensures Describes(Renamed(c, name, newName), RenamedFiles(files, name, newName), w)
  {
    assert Sorted(c) && newName !in files;
    hide *;
    RenamedListing(c, name, newName);
    OneRenamedDescribes(c, Renamed(c, name, newName), files, w, Lookup(c, name).value, newName);
  }

  lemma RenamedIsStorable(c: Children, t: Children, was: Meta, newName: Name)
    requires DS.Storable(c) && Sorted(t) && was in c && Nameable(newName)
    requires forall x | x in t :: x == was.(name := newName) || x in c
    ensures DS.Storable(t)
  {
  }

  /** What adding, removing and renaming come to. */
  predicate ListingEvent(e: Event) {
    e.AddEvent? || e.RemoveEvent? || e.RenameEvent?
  }

  /** What the three of them leave: a changed listing that describes the files there are then. */
  ghost predicate IsRelisted(k: FS.Codec, s: Folder, others: multiset<ChunkName>, t: Folder) {
    && t.d == DS.Change(s.d, t.d.children) && t.taking.None? && s.taking.None?
    && Describes(t.d.children, t.files, t.world) && FS.GoodWorld(k, t.world, others)
  }

  lemma AddParts(k: FS.Codec, s: Folder, others: multiset<ChunkName>, name: Name, directoryId: Option<DirectoryId>)
    requires InStep(s) && FS.GoodWorld(k, s.world, others) && Enabled(s, AddEvent(name, directoryId))
    ensures IsRelisted(k, s, others, Apply(k, s, AddEvent(name, directoryId)))
  {
    var m := NewEntry(name, directoryId);
    LookupMeans(s.d.children, name);
    NewEntryInStep(s.files, s.world, name, directoryId);
    NewFileInWorld(k, s.world, others);
    assert name !in s.files;
    var files, w := s.files[name := |s.world.files|], s.world.(files := s.world.files + [FS.NEW_FILE]);
    assert Extends(s.files, s.world, m.name, s.files, s.world) && Extends(s.files, s.world, m.name, files, w);
    hide FS.GoodWorld, Added, EntryInStep, Extends, WellFormed, Nameable, Lookup, DS.Storable;
    if directoryId.Some? {
      AddedDescribes(s.d.children, s.files, s.world, m, s.files, s.world);
    } else {
      AddedDescribes(s.d.children, s.files, s.world, m, files, w);
    }
    hide Describes, NewEntry;
  }

  lemma ListingStepParts(k: FS.Codec, s: Folder, others: multiset<ChunkName>, e: Event)
    requires InStep(s) && FS.GoodWorld(k, s.world, others) && Enabled(s, e) && ListingEvent(e)
    ensures var t := Apply(k, s, e);
      && t.d == DS.Change(s.d, t.d.children) && t.taking.None? && s.taking.None?
      && InStep(t) && FS.GoodWorld(k, t.world, others)
  {
    match e
    case AddEvent(name, directoryId) =>
      AddParts(k, s, others, name, directoryId);
      hide Apply, Describes, FS.GoodWorld;
    case RemoveEvent(name) =>
      hide Describes, FS.GoodWorld, Removed, Find;
      RemovedDescribes(s.d.children, s.files, s.world, name);
    case RenameEvent(name, newName) =>
      hide Describes, FS.GoodWorld, Renamed;
      RenamedDescribes(s.d.children, s.files, s.world, name, newName);
  }

  lemma ChangedKeeps(s: Folder, t: Folder)
    requires t.d == DS.Change(s.d, t.d.children) && t.taking.None?
    requires DS.Counted(s.d) && DS.NotLost(s.d)
    ensures DS.Counted(t.d) && DS.NotLost(t.d) && Taken(t) && Synced(t) && (Single(s) ==> Single(t))
  {
    ScheduledIsGood(s.d, t.d.children);
    hide DS.Counted, DS.NotLost, DS.Alone, DS.OneInFlight, DS.InFlight, DS.Change;
  }

  lemma ListingStepIsGood(k: FS.Codec, s: Folder, others: multiset<ChunkName>, e: Event)
    requires Good(k, s, others) && Enabled(s, e) && ListingEvent(e)
    ensures var t := Apply(k, s, e); Good(k, t, others) && (Single(s) ==> Single(t))
  {
    hide *;
    GoodParts(k, s, others);
    ListingStepParts(k, s, others, e);
    ChangedKeeps(s, Apply(k, s, e));
    GoodParts(k, Apply(k, s, e), others);
  }

  lemma StepIsGood(k: FS.Codec, s: Folder, others: multiset<ChunkName>, e: Event)
    requires FS.Lawful(k) && Good(k, s, others) && Enabled(s, e)
    ensures Good(k, Apply(k, s, e), others)
    ensures Single(s) && !Disturbs(s, e) ==> Single(Apply(k, s, e))
  {
    match e
    case FileEvent(i, step) =>
      hide Single;
      if Edits(s.world.files[i], step) {
        EditIsGood(k, s, others, i, step);
      } else {
        FileStepIsGood(k, s, others, i, step);
      }
    case ScheduleEvent =>
      assert s.d.(children := s.d.children) == s.d;
      ScheduledIsGood(s.d, s.d.children);
      assert InStep(Apply(k, s, e));
    case BeginEvent =>
      assert InStep(Apply(k, s, e));
    case ChildEvent => ChildIsGood(k, s, others);
    case EndEvent =>
      EndIsGood(k, s, others);
      if Single(s) { EndIsSingle(s); }
    case StoreEvent(store) => StoreStepIsGood(k, s, others, store);
    case _ => ListingStepIsGood(k, s, others, e);
  }

  /** Over every interleaving: the counts are right, the files keep their ledgers and contents, the
      listing is in step with them, and a modified buffer is an unsaved change. */
  lemma {:induction false} EveryRun(k: FS.Codec, s: Folder, others: multiset<ChunkName>, run: seq<Event>)
    requires FS.Lawful(k) && Good(k, s, others) && IsRun(k, s, run)
    ensures Good(k, After(k, s, run), others)
    decreases |run|
  {
    if run != [] {
      hide Good, Apply, Enabled, Disturbs, FS.Lawful, Single;
      StepIsGood(k, s, others, run[0]);
      EveryRun(k, Apply(k, s, run[0]), others, run[1..]);
    }
  }

  lemma {:induction false} SingleEveryRun(k: FS.Codec, s: Folder, others: multiset<ChunkName>, run: seq<Event>)
    requires FS.Lawful(k) && Good(k, s, others) && Single(s) && IsRun(k, s, run) && NeverDisturbed(k, s, run)
    ensures Single(After(k, s, run))
    decreases |run|
  {
    if run != [] {
      hide Good, Apply, Enabled, Disturbs, FS.Lawful, Single;
      StepIsGood(k, s, others, run[0]);
      SingleEveryRun(k, Apply(k, s, run[0]), others, run[1..]);
    }
  }

  /** Over every interleaving: while a child's buffer is modified, the directory's timer is armed, or
      a successful handler has yet to end its loop, or a write has yet to schedule the directory. */
  lemma ModifiedIsWaitedFor(k: FS.Codec, s: Folder, others: multiset<ChunkName>, run: seq<Event>, m: Meta)
    requires FS.Lawful(k) && Good(k, s, others) && IsRun(k, s, run)
    requires var r := After(k, s, run); m in r.d.children && IsModified(m, r.files, r.world)
    ensures var r := After(k, s, run);
      r.late > 0 || (r.d.unsaved && (r.d.waits > 0 || r.d.fired > 0 || r.d.starting > 0))
  {
    EveryRun(k, s, others, run);
    hide FS.GoodWorld, InStep, Taken, IsModified, After;
  }

  // ----- what has been written is what is stored -----

  /** What the writes and truncations of a run make of file i's content, x at first. */
  ghost function Text(k: FS.Codec, s: Folder, run: seq<Event>, i: nat, x: Bytes): Bytes
    requires IsRun(k, s, run)
    decreases |run|
  {
    if run == [] then x
    else
      var y := if run[0].FileEvent? && i < |s.world.files|
               then FS.PlainStep(s.world.files[i], run[0].i == i, run[0].step, x) else x;
      Text(k, Apply(k, s, run[0]), run[1..], i, y)
  }

  /** What file i holds, and nothing if there is no such file yet. */
  ghost function ContentAt(w: FS.World, i: nat): Bytes {
    if i < |w.files| then w.files[i].content else []
  }

  lemma ContentStep(k: FS.Codec, s: Folder, e: Event, i: nat)
    requires Enabled(s, e)
    ensures |s.world.files| <= |Apply(k, s, e).world.files|
    ensures ContentAt(Apply(k, s, e).world, i) ==
      if e.FileEvent? && i < |s.world.files|
      then FS.PlainStep(s.world.files[i], e.i == i, e.step, ContentAt(s.world, i)) else ContentAt(s.world, i)
  {
    hide FS.ApplyAt, FS.Apply, DS.Apply, Refreshed, DS.Enabled, FS.PlainStep;
    if e.FileEvent? && i < |s.world.files| {
      FS.StepIsPlain(k, s.world, FS.Act(e.i, e.step), i);
    } else if e.ChildEvent? {
      var m := s.d.children[|s.taking.value|];
      if m.name in s.files && s.files[m.name] < |s.world.files| && i < |s.world.files| {
        FS.StepIsPlain(k, s.world, FS.Act(s.files[m.name], FS.SerialiseEvent), i);
        SerialisingIsPlain(s.world.files[i], s.files[m.name] == i, s.world.files[i].content);
      }
    }
  }

  lemma SerialisingIsPlain(f: FS.File, mine: bool, x: Bytes)
    ensures FS.PlainStep(f, mine, FS.SerialiseEvent, x) == x
  {
  }

  lemma {:induction false} ContentIsText(k: FS.Codec, s: Folder, run: seq<Event>, i: nat)
    requires IsRun(k, s, run)
    ensures ContentAt(After(k, s, run).world, i) == Text(k, s, run, i, ContentAt(s.world, i))
    decreases |run|
  {
    if run != [] {
      ContentStep(k, s, run[0], i);
      hide Apply, Enabled, ContentAt, FS.PlainStep;
      ContentIsText(k, Apply(k, s, run[0]), run[1..], i);
    }
  }

  /** No write is between its two steps, nothing is unsaved, and no handler has a snapshot in hand. */
  predicate Saved(s: Folder) {
    s.late == 0 && s.taking.None? && !s.d.unsaved && DS.InFlight(s.d) == []
  }

  /** Once the writes have scheduled the directory and every handler has finished, that is so. */
  lemma QuietIsSaved(k: FS.Codec, s: Folder, others: multiset<ChunkName>)
    requires Good(k, s, others) && s.late == 0 && s.d.pendingCount == 0
    ensures Saved(s)
  {
    hide FS.GoodWorld, InStep, Synced;
  }

  /** A file object made from a stored entry, as ParseDirectory makes one, and opened. */
  ghost predicate ReadsBack(k: FS.Codec, m: Meta, contents: map<ChunkName, Bytes>, x: Bytes) {
    && m.dataMap.Some? && m.size == |x|
    && var f := FS.File(m.dataMap.value, m.size, None, false, 0, 0, x, multiset{}, multiset{}, multiset{}, multiset{});
       FS.Apply(k, f, contents, FS.OpenEvent).data == Some(FS.Data(1, m.dataMap.value, x, false))
  }

  lemma SavedFileReadsBack(k: FS.Codec, s: Folder, others: multiset<ChunkName>, name: Name)
    requires FS.Lawful(k) && Good(k, s, others) && Saved(s) && name in s.files
    ensures Lookup(s.d.children, name).Some? && s.files[name] < |s.world.files|
    ensures ReadsBack(k, Lookup(s.d.children, name).value, s.world.contents, ContentAt(s.world, s.files[name]))
  {
    hide DS.Alone, DS.OneInFlight, DS.InFlight, DS.Storable, FS.Lawful;
    var m := Lookup(s.d.children, name).value;
    LookupMeans(s.d.children, name);
    assert m in s.d.children && EntryInStep(m, s.files, s.world) && !IsModified(m, s.files, s.world);
    var f := s.world.files[s.files[name]];
    assert FS.Good(k, f, s.world.contents) && FS.IsMapOf(k, f.dataMap, f.content);
    FS.MapOpens(k, f.dataMap, f.content, s.world.contents);
  }

  lemma SavedIsNewest(k: FS.Codec, s: Folder, others: multiset<ChunkName>)
    requires Good(k, s, others) && Single(s) && Saved(s)
    ensures s.d.versions != []
    ensures var parsed := DS.ParseChildren(s.d.versions[0].id.listing.children);
      parsed.Some? && Sort(parsed.value) == s.d.children
  {
    assert DS.NewestIs(s.d, DS.Snapshot(s.d));
    DS.ListingRoundTrip(s.d.children);
  }

  /** In every run in which no two handlers overlap, whenever all is saved: the newest version is the
      listing as it is, and every file opened from it holds the bytes its writes have made, however
      writes, flushes, timed closes and changes of the listing have come between the steps. */
  lemma WrittenIsReadBack(k: FS.Codec, s: Folder, others: multiset<ChunkName>, run: seq<Event>, name: Name)
    requires FS.Lawful(k) && Good(k, s, others) && Single(s) && IsRun(k, s, run) && NeverDisturbed(k, s, run)
    requires Saved(After(k, s, run)) && name in After(k, s, run).files
    ensures var r := After(k, s, run); var i := r.files[name];
      && r.d.versions != []
      && var parsed := DS.ParseChildren(r.d.versions[0].id.listing.children);
      && parsed.Some? && Sort(parsed.value) == r.d.children && Lookup(Sort(parsed.value), name).Some?
      && ReadsBack(k, Lookup(Sort(parsed.value), name).value, r.world.contents,
                   Text(k, s, run, i, ContentAt(s.world, i)))
  {
    var r := After(k, s, run);
    EveryRun(k, s, others, run);
    SingleEveryRun(k, s, others, run);
    ContentIsText(k, s, run, r.files[name]);
    SavedFileReadsBack(k, r, others, name);
    SavedIsNewest(k, r, others);
  }

  // ----- everything can be saved -----

  /** What a handler, or the write that has yet to schedule, can do next: a snapshot is only begun
      when no other one is in flight. */
  function NextStep(s: Folder): Event {
    var d := s.d;
    if s.taking.Some? then (if |s.taking.value| < |d.children| then ChildEvent else EndEvent)
    else if s.late > 0 then ScheduleEvent
    else if d.putting != [] then StoreEvent(DS.LandEvent(0))
    else if d.adding != [] then StoreEvent(DS.AddEvent(0))
    else if d.initial != [] then StoreEvent(DS.InitialiseEvent(0))
    else if d.encrypted != [] then StoreEvent(DS.CountEvent(0))
    else if d.serialised != [] then StoreEvent(DS.EncryptEvent(0))
    else if d.snapped != [] then StoreEvent(DS.MarkEvent(0))
    else if d.starting > 0 then BeginEvent
    else if d.fired > 0 then StoreEvent(DS.StartFiredEvent)
    else if d.aborted > 0 then StoreEvent(DS.StartAbortedEvent)
    else if d.waits > 0 then StoreEvent(DS.ExpireEvent)
    else StoreEvent(DS.FinishEvent)
  }

  function ChildrenLeft(s: Folder): nat {
    if s.taking.None? then |s.d.children| + 1
    else if |s.taking.value| <= |s.d.children| then |s.d.children| - |s.taking.value| else 0
  }

  predicate IsBusy(s: Folder) {
    s.taking.Some? || s.late > 0 || DS.Handlers(s.d) != 0
  }

  /** t is nearer to its end than s. */
  predicate IsNearer(t: Folder, s: Folder) {
    || t.late < s.late
    || (t.late == s.late && DS.Measure(t.d) < DS.Measure(s.d))
    || (t.late == s.late && DS.Measure(t.d) == DS.Measure(s.d) && ChildrenLeft(t) < ChildrenLeft(s))
  }

  lemma NextStoreGoesOn(k: FS.Codec, s: Folder)
    requires IsBusy(s) && NextStep(s).StoreEvent?
    ensures Enabled(s, NextStep(s)) && !Disturbs(s, NextStep(s))
    ensures IsNearer(Apply(k, s, NextStep(s)), s) && Apply(k, s, NextStep(s)).files == s.files
  {
    DS.HandlerStepDecreases(s.d, NextStep(s).store);
    hide DS.Apply, DS.Measure;
  }

  lemma NextStepGoesOn(k: FS.Codec, s: Folder)
    requires Taken(s) && IsBusy(s)
    ensures Enabled(s, NextStep(s)) && !Disturbs(s, NextStep(s)) && !NextStep(s).FileEvent?
    ensures IsNearer(Apply(k, s, NextStep(s)), s) && Apply(k, s, NextStep(s)).files == s.files
  {
    var e := NextStep(s);
    if e.StoreEvent? {
      NextStoreGoesOn(k, s);
      hide *;
    } else if e.ChildEvent? {
      hide FS.ApplyAt, Refresh, DS.Measure, DS.InFlight, DS.Handlers, IsModified;
    } else if e.ScheduleEvent? {
      hide FS.ApplyAt, DS.Measure, DS.InFlight, DS.Handlers, IsModified;
    } else {
      hide FS.ApplyAt, DS.ProtoChildren, DS.Handlers, DS.Listings, IsModified, WithWorld;
    }
  }

  lemma IdleIsSaved(s: Folder)
    requires DS.NotLost(s.d) && !IsBusy(s)
    ensures Saved(s)
  {
  }

  /** From every state there is a run, of handlers alone, after which all is saved. */
  lemma {:induction false} SomeRunSaves(k: FS.Codec, s: Folder, others: multiset<ChunkName>) returns (run: seq<Event>)
    requires FS.Lawful(k) && Good(k, s, others)
    ensures IsRun(k, s, run) && NeverDisturbed(k, s, run) && Saved(After(k, s, run))
    ensures After(k, s, run).files == s.files && forall e | e in run :: !e.FileEvent?
    ensures forall i :: ContentAt(After(k, s, run).world, i) == ContentAt(s.world, i)
    decreases s.late, DS.Measure(s.d), ChildrenLeft(s)
  {
    run := [];
    GoodParts(k, s, others);
    if IsBusy(s) {
      var e := NextStep(s);
      NextStepGoesOn(k, s);
      StepIsGood(k, s, others, e);
      forall i: nat ensures ContentAt(Apply(k, s, e).world, i) == ContentAt(s.world, i) {
        ContentStep(k, s, e, i);
      }
      hide Good, Apply, Enabled, Disturbs, FS.Lawful, ContentAt, NextStep, IsBusy, Taken, DS.Measure, ChildrenLeft;
      var rest := SomeRunSaves(k, Apply(k, s, e), others);
      run := [e] + rest;
      assert run[1..] == rest;
    } else {
      IdleIsSaved(s);
    }
  }

  /** So everything the files hold now can get to where it is read back. */
  lemma WhatIsWrittenGetsStored(k: FS.Codec, s: Folder, others: multiset<ChunkName>) returns (run: seq<Event>)
    requires FS.Lawful(k) && Good(k, s, others) && Single(s)
    ensures IsRun(k, s, run) && NeverDisturbed(k, s, run)
    ensures var r := After(k, s, run);
      && r.d.versions != []
      && var parsed := DS.ParseChildren(r.d.versions[0].id.listing.children);
      && parsed.Some? && Sort(parsed.value) == r.d.children
      && forall name | name in s.files ::
           && Lookup(Sort(parsed.value), name).Some?
           && ReadsBack(k, Lookup(Sort(parsed.value), name).value, r.world.contents, ContentAt(s.world, s.files[name]))
  {
    run := SomeRunSaves(k, s, others);
    var r := After(k, s, run);
    EveryRun(k, s, others, run);
    SingleEveryRun(k, s, others, run);
    SavedIsNewest(k, r, others);
    forall name | name in s.files
      ensures Lookup(r.d.children, name).Some?
      ensures ReadsBack(k, Lookup(r.d.children, name).value, r.world.contents, ContentAt(s.world, s.files[name]))
    {
      SavedFileReadsBack(k, r, others, name);
    }
    hide Good, Single, Saved, ReadsBack, ContentAt, IsRun, NeverDisturbed, After;
  }

  /** A new directory, and the files of nobody. */
  lemma NewFolderIsGood(k: FS.Codec, parentId: DirectoryId, directoryId: DirectoryId, maxVersions: nat)
    ensures var s := Folder(DS.Created(parentId, directoryId, maxVersions), FS.World([], map[], multiset{}), map[],
                            0, None);
      Good(k, s, multiset{}) && Single(s)
  {
  }
}
