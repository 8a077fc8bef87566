/** A live directory: its children and cursor, its versions, and its delayed store. */
module Directories {
  import opened Wrappers
  import opened Paths
  import opened MetaData
  import opened Listing
  import DS = DirectoryState
  import opened VersionStore
  import opened MaskMatch
  import opened Enumeration

  datatype Outcome = Done | FileExists | NoSuchFile | InvalidParameter | ParsingError

  const MAX_VERSIONS: nat := 1

  class Directory {
    var parentId: DirectoryId
    const directoryId: DirectoryId
    var children: Children
    var childrenCountPosition: nat
    var versions: seq<DS.VersionName>
    const maxVersions: nat
    var storeState: DS.StoreState
    var newParent: Option<DirectoryId>
    var pendingCount: int

    // The steady_timer: waits armed on it, and its handlers queued as aborted or as expired.
    var waits: nat
    var aborted: nat
    var fired: nat

    // Handlers inside ProcessTimer, and the changes no snapshot holds.
    ghost var starting: nat
    ghost var snapped: seq<DS.ProtoDirectory>
    ghost var serialised: seq<DS.ProtoDirectory>
    ghost var encrypted: seq<DS.Blob>
    ghost var initial: seq<DS.Blob>
    ghost var adding: seq<DS.Blob>
    ghost var putting: seq<DS.Outgoing>
    ghost var finishing: nat
    ghost var failed: nat
    ghost var unsaved: bool

    ghost function State(): DS.Dir
      reads this
    {
      DS.Dir(parentId, directoryId, children, versions, maxVersions, storeState, newParent, pendingCount,
             waits, aborted, fired, starting, snapped, serialised, encrypted, initial, adding, putting, finishing,
             failed, unsaved)
    }

    constructor Create(parent: DirectoryId, id: DirectoryId)
      ensures State() == DS.Created(parent, id, MAX_VERSIONS)
      ensures parentId == parent && directoryId == id && maxVersions == 1 && children == [] && versions == []
      ensures storeState == DS.Pending && pendingCount == 1 && waits == 1 && newParent.None?
      ensures childrenCountPosition == 0
    {
      parentId, directoryId, maxVersions := parent, id, MAX_VERSIONS;
      children, childrenCountPosition := [], 0;
      versions, storeState, newParent, pendingCount := [], DS.Complete, None, 0;
      waits, aborted, fired := 0, 0, 0;
      starting, snapped, serialised, encrypted, initial, adding, putting := 0, [], [], [], [], [], [];
      finishing, failed, unsaved := 0, 0, false;
      new;
      DoScheduleForStoring();
    }

    /** The constructor for a parsed listing; the caller has parsed the children. */
    constructor Load(parent: DirectoryId, listing: DS.ProtoDirectory, parsed: Children, stored: seq<DS.VersionName>)
      ensures State() == DS.Loaded(parent, listing.directoryId, Sort(parsed), stored, listing.maxVersions)
      ensures parentId == parent && directoryId == listing.directoryId && maxVersions == listing.maxVersions
      ensures children == Sort(parsed) && versions == stored
      ensures storeState == DS.Complete && pendingCount == 0 && waits == 0 && newParent.None?
      ensures childrenCountPosition == 0
    {
      parentId, directoryId, maxVersions := parent, listing.directoryId, listing.maxVersions;
      children, childrenCountPosition := Sort(parsed), 0;
      versions, storeState, newParent, pendingCount := stored, DS.Complete, None, 0;
      waits, aborted, fired := 0, 0, 0;
      starting, snapped, serialised, encrypted, initial, adding, putting := 0, [], [], [], [], [], [];
      finishing, failed, unsaved := 0, 0, false;
    }

    // ----- scheduling -----

    /** The timer is set anew, which cancels what waits on it. */
    method ExpiresFromNow()
      modifies this
      ensures State() == old(State()).(aborted := old(aborted) + old(waits), waits := 0)
      ensures childrenCountPosition == old(childrenCountPosition)
    {
      aborted, waits := aborted + waits, 0;
    }

    method DoScheduleForStoring()
      modifies this
      ensures State() == DS.Schedule(old(State())) && childrenCountPosition == old(childrenCountPosition)
      ensures storeState == DS.Pending && pendingCount == old(pendingCount) + 1 && waits == 1
      ensures aborted == old(aborted) + old(waits) && fired == old(fired) && unsaved
      ensures children == old(children) && versions == old(versions) && parentId == old(parentId)
      ensures newParent == old(newParent)
    {
      ExpiresFromNow();
      waits := waits + 1;
      pendingCount := pendingCount + 1;
      storeState := DS.Pending;
      unsaved := true;
    }

    method ScheduleForStoring()
      modifies this
      ensures State() == DS.Schedule(old(State())) && childrenCountPosition == old(childrenCountPosition)
      ensures storeState == DS.Pending && pendingCount == old(pendingCount) + 1 && waits == 1 && unsaved
    {
      DoScheduleForStoring();
    }

    method SetNewParent(parent: DirectoryId)
      modifies this
      ensures State() == DS.SetNewParent(old(State()), parent) && childrenCountPosition == old(childrenCountPosition)
      ensures newParent == Some(parent) && parentId == old(parentId)
    {
      newParent := Some(parent);
    }

    method HasPending() returns (r: bool)
      ensures r <==> State().pendingCount != 0
    {
      r := pendingCount != 0;
    }

    // ----- children -----

    /** SortAndResetChildrenCounter, and the schedule that follows every use of it. */
    method SortAndSchedule(unsorted: Children)
      modifies this
      ensures State() == DS.Change(old(State()), Sort(unsorted)) && childrenCountPosition == 0
      ensures children == Sort(unsorted) && storeState == DS.Pending && unsaved
      ensures waits == 1 && pendingCount == old(pendingCount) + 1
    {
      hide Sort, DS.Schedule;
      children := Sort(unsorted);
      childrenCountPosition := 0;
      DoScheduleForStoring();
    }

    method AddChild(child: Meta) returns (r: Outcome)
      modifies this
      ensures Lookup(old(children), child.name).Some? ==> r == FileExists && State() == old(State())
      ensures Lookup(old(children), child.name).None? ==>
        && r == Done && childrenCountPosition == 0
        && State() == DS.Change(old(State()), Added(old(children), child))
        && children == Sort(old(children) + [child]) && storeState == DS.Pending && waits == 1
    {
      LookupFinds(children, child.name);
      hide Sort, DS.Change, Find, Lookup;
      if Find(children, child.name) < |children| {
        return FileExists;
      }
      SortAndSchedule(children + [child]);
      r := Done;
    }

    method RemoveChild(name: Name) returns (r: Outcome, file: Option<Meta>)
      modifies this
      ensures file == Lookup(old(children), name)
      ensures file.None? ==> r == NoSuchFile && State() == old(State())
      ensures file.Some? ==>
        && r == Done && childrenCountPosition == 0
        && State() == DS.Change(old(State()), Removed(old(children), Find(old(children), name)))
        && storeState == DS.Pending && waits == 1
        && var i := Find(old(children), name); children == Sort(old(children)[..i] + old(children)[i + 1..])
    {
      LookupFinds(children, name);
      hide Sort, DS.Change, Find, Lookup;
      var i := Find(children, name);
      if i == |children| {
        return NoSuchFile, None;
      }
      file := Some(children[i]);
      SortAndSchedule(children[..i] + children[i + 1..]);
      r := Done;
    }

    method RenameChild(oldName: Name, newName: Name) returns (r: Outcome)
      requires Lookup(children, newName).None?
      modifies this
      ensures Lookup(old(children), oldName).None? ==> r == NoSuchFile && State() == old(State())
      ensures Lookup(old(children), oldName).Some? ==>
        && r == Done && childrenCountPosition == 0
        && State() == DS.Change(old(State()), Renamed(old(children), oldName, newName))
        && storeState == DS.Pending && waits == 1
        && var i := Find(old(children), oldName);
           children == Sort(old(children)[i := old(children)[i].(name := newName)])
    {
      var i := Find(children, oldName);
      if i == |children| {
        return NoSuchFile;
      }
      SortAndSchedule(children[i := children[i].(name := newName)]);
      r := Done;
    }

    /** A child file's own size and data map change, and the file schedules its parent. */
    method UpdateChild(name: Name, dataMap: DataMap, size: nat) returns (r: Outcome)
      modifies this
      ensures r == (match Lookup(old(children), name)
                    case None => NoSuchFile
                    case Some(m) => if IsDirectory(m) then InvalidParameter else Done)
      ensures r != Done ==> State() == old(State())
      ensures r == Done ==>
        && State() == DS.Change(old(State()), Updated(old(children), name, dataMap, size))
        && storeState == DS.Pending && waits == 1
        && var i := Find(old(children), name);
           children == old(children)[i := old(children)[i].(dataMap := Some(dataMap), size := size)]
    {
      var i := Find(children, name);
      if i == |children| {
        return NoSuchFile;
      }
      if IsDirectory(children[i]) {
        return InvalidParameter;
      }
      children := children[i := children[i].(dataMap := Some(dataMap), size := size)];
      ScheduleForStoring();
      r := Done;
    }

    method GetChild(name: Name) returns (child: Option<Meta>)
      ensures child == Lookup(children, name)
    {
      var i := Find(children, name);
      child := if i < |children| then Some(children[i]) else None;
    }

    method Empty() returns (r: bool)
      ensures r <==> children == []
    {
      r := children == [];
    }

    // ----- the cursor -----

    method ResetChildrenCounter()
      modifies this`childrenCountPosition
      ensures childrenCountPosition == 0
    {
      childrenCountPosition := 0;
    }

    method GetChildAndIncrementCounter() returns (child: Option<Meta>)
      modifies this`childrenCountPosition
      ensures old(childrenCountPosition) < |children| ==>
        child == Some(children[old(childrenCountPosition)]) && childrenCountPosition == old(childrenCountPosition) + 1
      ensures old(childrenCountPosition) >= |children| ==>
        child == None && childrenCountPosition == old(childrenCountPosition)
    {
      if childrenCountPosition < |children| {
        child := Some(children[childrenCountPosition]);
        childrenCountPosition := childrenCountPosition + 1;
      } else {
        child := None;
      }
    }

    // ----- storing -----

    /** None is uninitialised: there are versions already. */
    method InitialiseVersions(id: DS.Blob) returns (first: Option<DS.VersionName>)
      modifies this`versions, this`storeState
      ensures storeState == DS.Complete
      ensures old(versions) == [] ==> first == Some(DS.VersionName(0, id)) && versions == [DS.VersionName(0, id)]
      ensures old(versions) != [] ==> first == None && versions == old(versions)
    {
      storeState := DS.Complete;
      if versions == [] {
        versions := [DS.VersionName(0, id)];
        first := Some(versions[0]);
      } else {
        first := None;
      }
    }

    /** For the first version, the previous one is a name that stands for none. */
    method AddNewVersion(id: DS.Blob) returns (previous: Option<DS.VersionName>, newest: DS.VersionName)
      modifies this`versions, this`storeState
      ensures storeState == DS.Complete && versions == DS.WithVersion(old(versions), maxVersions, id)
      ensures versions != [] && newest == versions[0] && newest.id == id
      ensures versions[1..] == if old(versions) == [] || |old(versions)| < maxVersions then old(versions)
        else old(versions)[..|old(versions)| - 1]
      ensures old(versions) == [] ==> previous == None && newest.index == 0
      ensures old(versions) != [] ==> previous == Some(old(versions)[0]) && newest.index == old(versions)[0].index + 1
    {
      storeState := DS.Complete;
      if versions == [] {
        newest := DS.VersionName(0, id);
        versions, previous := [newest], None;
      } else {
        newest := DS.VersionName(versions[0].index + 1, id);
        versions := [newest] + versions;
        previous := Some(versions[1]);
        if |versions| > maxVersions {
          versions := versions[..|versions| - 1];
        }
      }
    }

    /** The part of Directory::Serialise under the mutex. */
    method TakeSnapshot() returns (listing: DS.ProtoDirectory)
      requires State().starting > 0
      modifies this
      ensures State() == DS.TakeSnapshot(old(State())) && childrenCountPosition == old(childrenCountPosition)
      ensures listing == DS.Snapshot(old(State()))
      ensures listing == DS.ProtoDirectory(directoryId, maxVersions, DS.ProtoChildren(children))
      ensures children == old(children) && !unsaved && storeState == old(storeState)
    {
      listing := DS.ProtoDirectory(directoryId, maxVersions, DS.ProtoChildren(children));
      starting, snapped, unsaved := starting - 1, snapped + [listing], false;
    }

    /** The part after it; between the two the handler holds no lock. */
    method MarkOngoing(ghost listing: DS.ProtoDirectory)
      requires snapped != [] && snapped[|snapped| - 1] == listing
      modifies this
      ensures State() == DS.MarkOngoing(old(State()), |old(snapped)| - 1)
      ensures storeState == DS.Ongoing && unsaved == old(unsaved) && children == old(children)
      ensures childrenCountPosition == old(childrenCountPosition)
    {
      storeState := DS.Ongoing;
      snapped, serialised := DS.Without(snapped, |snapped| - 1), serialised + [listing];
    }

    /** Directory::Serialise, with nothing in between. */
    method Serialise() returns (listing: DS.ProtoDirectory)
      requires State().starting > 0
      modifies this
      ensures State() == DS.Serialise(old(State())) && childrenCountPosition == old(childrenCountPosition)
      ensures listing == DS.Snapshot(State())
    {
      listing := TakeSnapshot();
      MarkOngoing(listing);
    }

    /** DirectoryHandler::SerialiseDirectory. */
    method SerialiseDirectory() returns (encryptedDataMap: DS.Blob)
      requires State().starting > 0
      modifies this
      ensures State() == DS.Encrypt(DS.Serialise(old(State())), |old(serialised)|)
      ensures childrenCountPosition == old(childrenCountPosition)
      ensures encryptedDataMap == DS.Blob(parentId, directoryId, DS.Snapshot(State()))
    {
      var listing := Serialise();
      encryptedDataMap := DS.Blob(parentId, directoryId, listing);
      serialised, encrypted := DS.Without(serialised, |serialised| - 1), encrypted + [encryptedDataMap];
    }

    /** The second half of DirectoryHandler::Put. */
    method PutVersion(storage: Storage, id: DS.Blob)
      requires Chained(storage.trees, directoryId, versions)
      modifies this`versions, this`storeState, storage`trees
      ensures storeState == DS.Complete && versions == DS.WithVersion(old(versions), maxVersions, id)
      ensures Chained(storage.trees, directoryId, versions)
      ensures directoryId in storage.trees
      ensures storage.trees == old(storage.trees)[directoryId := storage.trees[directoryId]]
    {
      if versions == [] {
        var first := InitialiseVersions(id);
        storage.CreateVersionTree(directoryId, first.value);
      } else {
        ExtendedIsOneChain(storage.trees[directoryId], versions, maxVersions, id);
        var previous, newest := AddNewVersion(id);
        var ok := storage.PutVersion(directoryId, previous.value, newest);
        assert ok;
      }
    }

    /** DirectoryHandler::Put. */
    method Put(storage: Storage)
      requires State().starting > 0 && Chained(storage.trees, directoryId, versions)
      modifies this, storage
      ensures State() == DS.Put(old(State())) && childrenCountPosition == old(childrenCountPosition)
      ensures Stored(storage, old(parentId))
      ensures storage.blobs == old(storage.blobs) + {versions[0].id}
      ensures storage.trees == old(storage.trees)[directoryId := storage.trees[directoryId]]
    {
      ghost var before := State();
      DS.PutIs(before);
      DS.EncryptedIs(before);
      hide DS.Put, DS.Serialise, DS.Encrypt, DS.ProtoChildren, DS.WithVersion, OneChain;
      var encryptedDataMap := SerialiseDirectory();
      storage.PutBlob(encryptedDataMap);
      PutVersion(storage, encryptedDataMap);
      encrypted, finishing := encrypted[..|encrypted| - 1], finishing + 1;
    }

    /** The newest version is the directory as it is, encrypted under key, and the store has it. */
    ghost predicate Stored(storage: Storage, key: DirectoryId)
      reads this, storage
    {
      && versions != [] && versions[0].id == DS.Blob(key, directoryId, DS.Snapshot(State()))
      && versions[0].id in storage.blobs
      && directoryId in storage.trees && OneChain(storage.trees[directoryId], versions)
    }

    /** The part of ProcessTimer after the listener's Put. */
    method FinishTimer()
      requires State().finishing > 0
      modifies this
      ensures State() == DS.Finish(old(State())) && childrenCountPosition == old(childrenCountPosition)
      ensures parentId == (match old(newParent) case Some(p) => p case None => old(parentId)) && newParent.None?
      ensures pendingCount == old(pendingCount) - 1
    {
      if newParent.Some? {
        parentId := newParent.value;
        newParent := None;
      }
      finishing := finishing - 1;
      pendingCount := pendingCount - 1;
    }

    /** A handler for an expired timer, with a live listener. */
    method ProcessTimer(storage: Storage)
      requires State().starting > 0 && Chained(storage.trees, directoryId, versions)
      modifies this, storage
      ensures State() == DS.Finish(DS.Put(old(State()))) && childrenCountPosition == old(childrenCountPosition)
      ensures Stored(storage, old(parentId))
      ensures storage.blobs == old(storage.blobs) + {versions[0].id}
      ensures storage.trees == old(storage.trees)[directoryId := storage.trees[directoryId]]
    {
      DS.PutIs(State());
      hide DS.Put, DS.WithVersion, DS.ProtoChildren, OneChain, Chained;
      Put(storage);
      FinishTimer();
    }

    /** asio runs a handler queued with operation_aborted. */
    method RunAborted()
      requires State().aborted > 0
      modifies this
      ensures State() == DS.Finish(DS.StartAborted(old(State())))
      ensures aborted == old(aborted) - 1 && pendingCount == old(pendingCount) - 1
    {
      aborted, finishing := aborted - 1, finishing + 1;
      FinishTimer();
    }

    /** asio runs a handler queued by the timer's expiry. */
    method RunFired(storage: Storage)
      requires State().fired > 0 && Chained(storage.trees, directoryId, versions)
      modifies this, storage
      ensures State() == DS.Finish(DS.Put(DS.StartFired(old(State())))) && DS.IsStored(old(State()), State())
      ensures Stored(storage, old(parentId))
      ensures storage.blobs == old(storage.blobs) + {versions[0].id}
      ensures storage.trees == old(storage.trees)[directoryId := storage.trees[directoryId]]
    {
      hide DS.Put, DS.Finish, DS.StoreNow, DS.ProtoChildren, OneChain, Chained, Stored;
      fired, starting := fired - 1, starting + 1;
      ProcessTimer(storage);
    }

    /** The timer expires. */
    method TimerExpires()
      modifies this
      ensures State() == DS.Expire(old(State()))
      ensures fired == old(fired) + old(waits) && waits == 0
    {
      fired, waits := fired + waits, 0;
    }

    method StoreImmediatelyIfPending(storage: Storage)
      requires Chained(storage.trees, directoryId, versions)
      modifies this, storage
      ensures old(storeState) == DS.Pending && old(waits) > 0 ==>
        && State() == DS.Finish(DS.Put(DS.StoreNow(old(State())))) && DS.IsStored(old(State()), State())
        && Stored(storage, old(parentId))
        && storage.blobs == old(storage.blobs) + {versions[0].id}
        && storage.trees == old(storage.trees)[directoryId := storage.trees[directoryId]]
      ensures !(old(storeState) == DS.Pending && old(waits) > 0) ==>
        State() == old(State()) && storage.blobs == old(storage.blobs) && storage.trees == old(storage.trees)
    {
      if storeState != DS.Pending {
        return;
      }
      var cancelledCount := waits;
      aborted, waits := aborted + cancelledCount, 0;
      if cancelledCount <= 0 {
        return;
      }
      pendingCount := pendingCount + 1;
      starting := starting + 1;
      assert State() == DS.StoreNow(old(State()));
      ProcessTimer(storage);
    }
  }

  // ----- enumeration -----

  /** CbFsEnumerateDirectory, from the directory it has found on. */
  method EnumerateDirectory(directory: Directory, mask: string, restart: bool) returns (file: Option<Meta>)
    requires directory.childrenCountPosition <= |directory.children|
    modifies directory`childrenCountPosition
    ensures (file, directory.childrenCountPosition)
      == Call(directory.children, mask, if restart then 0 else old(directory.childrenCountPosition))
  {
    hide Accepts;
    var exactMatch := mask != "*";
    if restart {
      directory.ResetChildrenCounter();
    }
    ghost var cursor := directory.childrenCountPosition;
    var fileFound := false;
    file := None;
    if exactMatch {
      while !fileFound
        invariant cursor <= directory.childrenCountPosition <= |directory.children|
        invariant !fileFound ==>
          Call(directory.children, mask, directory.childrenCountPosition) == Call(directory.children, mask, cursor)
        invariant fileFound ==> (file, directory.childrenCountPosition) == Call(directory.children, mask, cursor)
        decreases !fileFound, |directory.children| - directory.childrenCountPosition
      {
        file := directory.GetChildAndIncrementCounter();
        if file.None? {
          break;
        }
        fileFound := MatchesMask(mask, file.value.name);
      }
    } else {
      file := directory.GetChildAndIncrementCounter();
      if file.Some? {
        StarWantsAll(file.value);
      }
    }
  }

  /** How the file system lists a directory: one restarting call, then calls until one finds
      nothing. */
  method ListDirectory(directory: Directory, mask: string) returns (found: Children)
    modifies directory`childrenCountPosition
    ensures found == Matching(directory.children, mask)
    ensures forall m :: m in found <==> m in directory.children && Wanted(mask, m)
    ensures Sorted(directory.children) ==>
      forall i, j | 0 <= i < j < |found| :: IsBefore(found[i].name, found[j].name)
    ensures directory.childrenCountPosition == |directory.children|
  {
    hide Accepts, Wanted, Sorted;
    found := [];
    directory.ResetChildrenCounter();
    var file := EnumerateDirectory(directory, mask, true);
    ghost var all := Answers(directory.children, mask, 0);
    while file.Some?
      invariant directory.childrenCountPosition <= |directory.children|
      invariant all == found +
        (if file.Some? then [file.value] + Answers(directory.children, mask, directory.childrenCountPosition) else [])
      invariant file.None? ==> directory.childrenCountPosition == |directory.children|
      decreases file.Some?, |directory.children| - directory.childrenCountPosition
    {
      found := found + [file.value];
      file := EnumerateDirectory(directory, mask, false);
    }
    AnswersAreMatching(directory.children, mask, 0);
    assert directory.children[0..] == directory.children;
    MatchingMembers(directory.children, mask);
    SortedIs(found);
  }
}
