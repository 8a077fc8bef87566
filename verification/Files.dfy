/** File: the class that DirectoryHandler's listings hold for every regular file. */
module Files {
  import opened Wrappers
  import opened MetaData
  import opened Directories
  import DS = DirectoryState
  import FS = FileState

  class ChunkStore {
    var contents: map<ChunkName, Bytes>
    var refs: multiset<ChunkName>

    constructor ()
      ensures contents == map[] && refs == multiset{}
    {
      contents, refs := map[], multiset{};
    }

    /** Putting a chunk that is already there counts another reference. */
    method PutChunk(name: ChunkName, content: Bytes)
      modifies this
      ensures contents == old(contents)[name := content] && refs == old(refs) + multiset{name}
    {
      contents := contents[name := content];
      refs := refs + multiset{name};
    }

    method IncrementReferenceCount(names: seq<ChunkName>)
      requires forall n | n in names :: n in contents
      modifies this`refs
      ensures refs == old(refs) + multiset(names)
    {
      refs := refs + multiset(names);
    }
  }

  /** The loop of CloseEncryptor for a file that had no chunks before. */
  method PutAll(k: FS.Codec, store: ChunkStore, names: seq<ChunkName>)
    modifies store
    ensures store.contents == FS.WithChunks(k, old(store.contents), names)
    ensures store.refs == old(store.refs) + multiset(names)
  {
    var i := 0;
    while i < |names|
      invariant i <= |names|
      invariant store.contents == FS.WithChunks(k, old(store.contents), names[..i])
      invariant store.refs == old(store.refs) + multiset(names[..i])
    {
      assert names[..i + 1] == names[..i] + [names[i]];
      store.PutChunk(names[i], k.chunk(names[i]));
      i := i + 1;
    }
    assert names[..i] == names;
  }

  lemma NoNames(original: seq<ChunkName>)
    ensures FS.Kept([], original) == [] && FS.Fresh([], original) == []
  {
  }

  lemma OneMoreName(names: seq<ChunkName>, original: seq<ChunkName>, i: nat)
    requires i < |names|
    ensures FS.Kept(names[i..], original) == (if names[i] in original then [names[i]] else [])
      + FS.Kept(names[i + 1..], original)
    ensures FS.Fresh(names[i..], original) == (if names[i] in original then [] else [names[i]])
      + FS.Fresh(names[i + 1..], original)
  {
    assert names[i..][1..] == names[i + 1..];
  }

  lemma NoChunks(k: FS.Codec, contents: map<ChunkName, Bytes>)
    ensures FS.WithChunks(k, contents, []) == contents
  {
  }

  lemma OneMoreChunk(k: FS.Codec, contents: map<ChunkName, Bytes>, names: seq<ChunkName>, n: ChunkName)
    ensures FS.WithChunks(k, contents, names + [n]) == FS.WithChunks(k, contents, names)[n := k.chunk(n)]
  {
    assert (names + [n])[..|names|] == names;
  }

  /** The loop of CloseEncryptor that checks each new chunk against the original ones. */
  method PutFresh(k: FS.Codec, store: ChunkStore, names: seq<ChunkName>, original: seq<ChunkName>,
                  chunks: seq<ChunkName>)
    returns (toBeIncremented: seq<ChunkName>)
    modifies store
    ensures toBeIncremented == chunks + FS.Kept(names, original)
    ensures store.contents == FS.WithChunks(k, old(store.contents), FS.Fresh(names, original))
    ensures store.refs == old(store.refs) + multiset(FS.Fresh(names, original))
  {
    toBeIncremented := chunks;
    ghost var puts: seq<ChunkName> := [];
    hide FS.WithChunks, FS.Kept, FS.Fresh;
    NoChunks(k, store.contents);
    assert names[0..] == names;
    var i := 0;
    while i < |names|
      invariant i <= |names|
      invariant toBeIncremented + FS.Kept(names[i..], original) == chunks + FS.Kept(names, original)
      invariant puts + FS.Fresh(names[i..], original) == FS.Fresh(names, original)
      invariant store.contents == FS.WithChunks(k, old(store.contents), puts)
      invariant store.refs == old(store.refs) + multiset(puts)
    {
      OneMoreName(names, original, i);
      if names[i] in original {
        toBeIncremented := toBeIncremented + [names[i]];
      } else {
        store.PutChunk(names[i], k.chunk(names[i]));
        OneMoreChunk(k, old(store.contents), puts, names[i]);
        puts := puts + [names[i]];
      }
      i := i + 1;
    }
    assert names[i..] == [];
    NoNames(original);
    assert toBeIncremented + [] == toBeIncremented && puts + [] == puts;
  }

  /** The part of CloseEncryptor after the encryptor has closed. */
  method PutChunks(k: FS.Codec, store: ChunkStore, names: seq<ChunkName>, original: seq<ChunkName>,
                   chunks: seq<ChunkName>)
    returns (toBeIncremented: seq<ChunkName>)
    modifies store
    ensures toBeIncremented == chunks + FS.Kept(names, original)
    ensures store.contents == FS.WithChunks(k, old(store.contents), FS.Fresh(names, original))
    ensures store.refs == old(store.refs) + multiset(FS.Fresh(names, original))
  {
    if original == [] {
      FS.NoneKept(names, original);
      toBeIncremented := chunks;
      PutAll(k, store, names);
    } else {
      toBeIncremented := PutFresh(k, store, names, original, chunks);
    }
  }

  class File {
    const codec: FS.Codec

    /** The directory the file is in, unless that has gone. */
    var parent: Directory?

    var dataMap: DataMap
    var size: nat
    var fileData: Option<FS.Data>
    var skipChunkIncrementing: bool

    // The close timer: its wait, and handlers queued by its expiry.
    var waits: nat
    var fired: nat

    ghost var content: Bytes
    ghost var paid: multiset<ChunkName>
    ghost var due: multiset<ChunkName>
    ghost var stored: multiset<ChunkName>
    ghost var superseded: multiset<ChunkName>

    ghost function State(): FS.File
      reads this
    {
      FS.File(dataMap, size, fileData, skipChunkIncrementing, waits, fired, content, paid, due, stored, superseded)
    }

    /** A file as its parent's listing describes it. */
    constructor (k: FS.Codec, parent: Directory?, map_: DataMap, length: nat, ghost holds: Bytes)
      ensures codec == k && this.parent == parent
      ensures State() == FS.File(map_, length, None, false, 0, 0, holds, multiset{}, multiset{}, multiset{}, multiset{})
    {
      codec, this.parent, dataMap, size := k, parent, map_, length;
      fileData, skipChunkIncrementing, waits, fired := None, false, 0, 0;
      content, paid, due, stored, superseded := holds, multiset{}, multiset{}, multiset{}, multiset{};
    }

    method Open(store: ChunkStore)
      modifies this
      ensures State() == FS.Apply(codec, old(State()), store.contents, FS.OpenEvent)
      ensures fileData.Some? && waits == 0 && fired == old(fired)
      ensures match old(fileData)
        case Some(d) => fileData.value == d.(openCount := d.openCount + 1)
        case None => fileData.value == FS.Data(1, dataMap, codec.open(dataMap, store.contents), false)
      ensures dataMap == old(dataMap) && size == old(size) && skipChunkIncrementing == old(skipChunkIncrementing)
    {
      if fileData.None? {
        fileData := Some(FS.Built(codec, dataMap, store.contents, 0));
      }
      waits := 0;
      fileData := Some(fileData.value.(openCount := fileData.value.openCount + 1));
    }

    /** None is null_pointer: the file has no buffer. */
    method Read(length: nat, offset: nat) returns (r: Option<Bytes>)
      ensures fileData.None? ==> r == None
      ensures fileData.Some? ==>
        var text := fileData.value.text;
        && r.Some? && |r.value| == (if offset > |text| then 0
                                    else if length < |text| - offset then length else |text| - offset)
        && forall i | 0 <= i < |r.value| :: r.value[i] == text[offset + i]
    {
      if fileData.None? {
        return None;
      }
      var text := fileData.value.text;
      if offset > |text| {
        return Some([]);
      }
      var count := if length <= |text| - offset then length else |text| - offset;
      r := Some(text[offset..offset + count]);
    }

    /** False is null_pointer. A change is followed by the parent's ScheduleForStoring. */
    method Write(data: Bytes, offset: nat, ghost store: ChunkStore) returns (ok: bool)
      modifies this, if parent != null then {parent} else {}
      ensures (ok <==> old(fileData).Some?) && (ok <==> fileData.Some?)
      ensures State() == FS.Apply(codec, old(State()), store.contents, FS.WriteEvent(data, offset))
      ensures ok ==>
        var x, y := old(fileData).value.text, fileData.value.text;
        && size == |y| == (if data != [] && offset + |data| > |x| then offset + |data| else |x|)
        && forall i | 0 <= i < |y| ::
             y[i] == if offset <= i < offset + |data| then data[i - offset] else if i < |x| then x[i] else 0
      ensures parent == old(parent)
      ensures parent != null ==> parent.State() == if ok then DS.Schedule(old(parent.State())) else old(parent.State())
    {
      hide FS.Apply, FS.Written, DS.Schedule;
      FS.WriteIs(codec, State(), store.contents, data, offset);
      ok := fileData.Some?;
      if ok {
        FS.WrittenBytes(fileData.value.text, data, offset);
        var text := FS.Written(fileData.value.text, data, offset);
        fileData := Some(fileData.value.(text := text, modified := true));
        size := |text|;
        content := FS.Written(content, data, offset);
        if parent != null {
          parent.ScheduleForStoring();
        }
      }
    }

    method Truncate(length: nat, ghost store: ChunkStore) returns (ok: bool)
      modifies this, if parent != null then {parent} else {}
      ensures (ok <==> old(fileData).Some?) && (ok <==> fileData.Some?)
      ensures State() == FS.Apply(codec, old(State()), store.contents, FS.TruncateEvent(length))
      ensures ok ==>
        var x, y := old(fileData).value.text, fileData.value.text;
        size == |y| == length && forall i | 0 <= i < |y| :: y[i] == if i < |x| then x[i] else 0
      ensures parent == old(parent)
      ensures parent != null ==> parent.State() == if ok then DS.Schedule(old(parent.State())) else old(parent.State())
    {
      hide FS.Apply, FS.Truncated, DS.Schedule;
      FS.TruncateIs(codec, State(), store.contents, length);
      ok := fileData.Some?;
      if ok {
        FS.TruncatedBytes(fileData.value.text, length);
        var text := FS.Truncated(fileData.value.text, length);
        fileData := Some(fileData.value.(text := text, modified := true));
        size := |text|;
        content := FS.Truncated(content, length);
        if parent != null {
          parent.ScheduleForStoring();
        }
      }
    }

    method Close(ghost store: ChunkStore) returns (ok: bool)
      modifies this
      ensures ok <==> old(fileData).Some?
      ensures State() == FS.Apply(codec, old(State()), store.contents, FS.CloseEvent)
      ensures ok ==>
        var d := old(fileData).value;
        && fileData == Some(d.(openCount := if d.openCount > 0 then d.openCount - 1 else 0))
        && waits == (if d.openCount <= 1 then 1 else old(waits)) && fired == old(fired)
    {
      ok := fileData.Some?;
      hide FS.Apply;
      FS.CloseIs(codec, State(), store.contents);
      if ok {
        if fileData.value.openCount > 0 {
          fileData := Some(fileData.value.(openCount := fileData.value.openCount - 1));
        }
        if fileData.value.openCount == 0 {
          waits := 0;
          waits := waits + 1;
        }
      }
    }

    /** The encryptor's own Close, and what CloseEncryptor leaves in the file. */
    method SealBuffer()
      requires fileData.Some?
      modifies this
      ensures State() == FS.Flushed(codec, old(State())) && parent == old(parent)
      ensures dataMap == (if old(fileData).value.modified then codec.seal(old(fileData).value.text) else old(dataMap))
      ensures fileData == old(fileData) && skipChunkIncrementing
      ensures waits == old(waits) && fired == old(fired) && size == old(size)
    {
      hide FS.Names, FS.Flushed, FS.Sealed, FS.FlushPuts, FS.Fresh;
      FS.FlushedIs(codec, State());
      ghost var puts := FS.FlushPuts(codec, State());
      superseded := if skipChunkIncrementing then superseded + FS.Names(dataMap) else superseded;
      dataMap := FS.Closed(codec, fileData.value, dataMap);
      paid := paid + multiset(puts);
      skipChunkIncrementing := true;
    }

    /** Seals the buffer's text, puts the new chunks and collects the ones to be incremented. */
    method CloseEncryptor(store: ChunkStore, chunks: seq<ChunkName>) returns (toBeIncremented: seq<ChunkName>)
      requires fileData.Some? && fileData.value.original == dataMap
      modifies this, store
      ensures State() == FS.Flushed(codec, old(State()))
      ensures toBeIncremented == chunks + FS.Kept(dataMap.chunks, old(dataMap).chunks)
      ensures store.contents == FS.WithChunks(codec, old(store.contents), FS.Fresh(dataMap.chunks, old(dataMap).chunks))
      ensures store.refs == old(store.refs) + multiset(FS.Fresh(dataMap.chunks, old(dataMap).chunks))
      ensures fileData == old(fileData) && skipChunkIncrementing
      ensures waits == old(waits) && fired == old(fired) && size == old(size)
      ensures dataMap == if old(fileData).value.modified then codec.seal(old(fileData).value.text) else old(dataMap)
      ensures forall n :: n in toBeIncremented <==> n in chunks || (n in dataMap.chunks && n in old(dataMap).chunks)
      ensures store.refs + multiset(toBeIncremented)
           == old(store.refs) + multiset(chunks) + multiset(dataMap.chunks)
      ensures forall n ::
        n in store.contents <==> n in old(store.contents) || (n in dataMap.chunks && n !in old(dataMap).chunks)
      ensures forall n | n in store.contents ::
        store.contents[n] == if n in dataMap.chunks && n !in old(dataMap).chunks then codec.chunk(n)
          else old(store.contents)[n]
    {
      hide *;
      var original := fileData.value.original;
      SealBuffer();
      FS.FlushMeans(codec, store.contents, dataMap.chunks, original.chunks, chunks);
      toBeIncremented := PutChunks(codec, store, dataMap.chunks, original.chunks, chunks);
      assert store.refs + multiset(toBeIncremented) == old(store.refs)
        + (multiset(FS.Fresh(dataMap.chunks, original.chunks)) + multiset(toBeIncremented));
    }

    method TimerExpires(ghost store: ChunkStore)
      modifies this
      ensures State() == FS.Apply(codec, old(State()), store.contents, FS.ExpireEvent)
      ensures fired == old(fired) + old(waits) && waits == 0
    {
      fired, waits := fired + waits, 0;
    }

    /** What the timed close does under the lock, when no handle is open. */
    method DropBuffer(store: ChunkStore) returns (chunksToBeIncremented: seq<ChunkName>)
      requires FS.Flushes(State(), FS.TimedCloseEvent) && fileData.value.original == dataMap
      modifies this, store
      ensures fired == old(fired) > 0
      ensures State().(fired := fired - 1) == FS.Apply(codec, old(State()), old(store.contents), FS.TimedCloseEvent)
      ensures chunksToBeIncremented == FS.FlushIncrements(codec, old(State()))
      ensures store.contents == FS.ContentsAfter(codec, old(State()), old(store.contents), FS.TimedCloseEvent)
      ensures store.refs == old(store.refs) + multiset(FS.Puts(codec, old(State()), FS.TimedCloseEvent))
      ensures fileData.None? && skipChunkIncrementing && waits == old(waits) && size == old(size)
      ensures dataMap == if old(fileData).value.modified then codec.seal(old(fileData).value.text) else old(dataMap)
      ensures forall n :: n in chunksToBeIncremented <==> n in dataMap.chunks && n in old(dataMap).chunks
    {
      FS.FlushParts(codec, State(), store.contents, FS.TimedCloseEvent);
      hide FS.Apply, FS.Puts, FS.ContentsAfter, FS.FlushIncrements, FS.WithChunks, FS.Kept, FS.Fresh, FS.Flushed;
      chunksToBeIncremented := CloseEncryptor(store, []);
      fileData := None;
      due := due + multiset(chunksToBeIncremented);
    }

    /** asio runs a close handler that the timer's expiry has queued, with the listener alive: the part
        under the lock ... */
    method TimedClose(store: ChunkStore) returns (chunksToBeIncremented: seq<ChunkName>)
      requires fired > 0 && (fileData.Some? ==> fileData.value.original == dataMap)
      modifies this, store
      ensures State() == FS.Apply(codec, old(State()), old(store.contents), FS.TimedCloseEvent)
      ensures chunksToBeIncremented == FS.Collected(codec, old(State()))
      ensures fired == old(fired) - 1 && waits == old(waits) && size == old(size)
      ensures old(fileData).Some? && old(fileData).value.openCount == 0 ==>
        && fileData.None? && skipChunkIncrementing
        && dataMap == (if old(fileData).value.modified then codec.seal(old(fileData).value.text) else old(dataMap))
        && (forall n ::
              n in chunksToBeIncremented <==> n in dataMap.chunks && n in old(dataMap).chunks)
      ensures !(old(fileData).Some? && old(fileData).value.openCount == 0) ==>
        && fileData == old(fileData) && skipChunkIncrementing == old(skipChunkIncrementing) && dataMap == old(dataMap)
        && chunksToBeIncremented == []
      ensures due == old(due) + multiset(chunksToBeIncremented)
      ensures store.contents == FS.ContentsAfter(codec, old(State()), old(store.contents), FS.TimedCloseEvent)
      ensures store.refs == old(store.refs) + multiset(FS.Puts(codec, old(State()), FS.TimedCloseEvent))
    {
      hide FS.WithChunks, FS.Flushed, FS.FlushPuts, FS.FlushIncrements, FS.Built;
      chunksToBeIncremented := [];
      if fileData.Some? && fileData.value.openCount == 0 {
        FS.FlushParts(codec, State(), store.contents, FS.TimedCloseEvent);
        chunksToBeIncremented := DropBuffer(store);
      }
      fired := fired - 1;
    }

    /** ... and the part after it, when anything else can have come between. */
    method IncrementCollected(store: ChunkStore, chunksToBeIncremented: seq<ChunkName>)
      requires multiset(chunksToBeIncremented) <= due && forall n | n in chunksToBeIncremented :: n in store.contents
      modifies this`paid, this`due, store`refs
      ensures State() == FS.Apply(codec, old(State()), store.contents, FS.IncrementEvent(chunksToBeIncremented))
      ensures store.refs == old(store.refs) + multiset(chunksToBeIncremented)
    {
      FS.IncrementIs(codec, State(), store.contents, chunksToBeIncremented);
      hide FS.Apply;
      if chunksToBeIncremented != [] {
        store.IncrementReferenceCount(chunksToBeIncremented);
      }
      paid, due := paid + multiset(chunksToBeIncremented), due - multiset(chunksToBeIncremented);
    }

    /** The whole of it, with nothing in between. That the names to be incremented are stored holds
        after every run: FileState.IncrementsAreStored. */
    method RunTimedClose(store: ChunkStore)
      requires fired > 0 && (fileData.Some? ==> fileData.value.original == dataMap)
      requires forall n | n in FS.Collected(codec, State()) :: n in store.contents
      modifies this, store
      ensures var closed := FS.Apply(codec, old(State()), old(store.contents), FS.TimedCloseEvent);
        State() == FS.Apply(codec, closed, store.contents, FS.IncrementEvent(FS.Collected(codec, old(State()))))
      ensures store.contents == FS.ContentsAfter(codec, old(State()), old(store.contents), FS.TimedCloseEvent)
      ensures store.refs == old(store.refs) + multiset(FS.Puts(codec, old(State()), FS.TimedCloseEvent))
                            + multiset(FS.Collected(codec, old(State())))
    {
      FS.ContentsGrow(codec, State(), store.contents, FS.TimedCloseEvent);
      hide FS.Apply, FS.ContentsAfter, FS.Puts, FS.Collected;
      var chunksToBeIncremented := TimedClose(store);
      IncrementCollected(store, chunksToBeIncremented);
    }

    /** Flushing an open file: close the encryptor, build it anew, keep the open count. */
    method Rebuild(store: ChunkStore, chunks: seq<ChunkName>) returns (toBeIncremented: seq<ChunkName>)
      requires fileData.Some? && fileData.value.original == dataMap
      modifies this, store
      ensures waits == old(waits) && fired == old(fired) && size == old(size)
      ensures dataMap == if old(fileData).value.modified then codec.seal(old(fileData).value.text) else old(dataMap)
      ensures fileData
        == Some(FS.Data(old(fileData).value.openCount, dataMap, codec.open(dataMap, store.contents), false))
      ensures forall n :: n in toBeIncremented <==> n in chunks || (n in dataMap.chunks && n in old(dataMap).chunks)
      ensures State().(skip := false, stored := stored + FS.Names(dataMap))
        == FS.Apply(codec, old(State()), old(store.contents), FS.SerialiseEvent)
      ensures toBeIncremented == chunks + FS.Increments(codec, old(State()), FS.SerialiseEvent)
      ensures store.contents == FS.ContentsAfter(codec, old(State()), old(store.contents), FS.SerialiseEvent)
      ensures store.refs == old(store.refs) + multiset(FS.Puts(codec, old(State()), FS.SerialiseEvent))
    {
      FS.FlushParts(codec, State(), store.contents, FS.SerialiseEvent);
      hide FS.Apply, FS.Puts, FS.Increments, FS.ContentsAfter, FS.FlushIncrements, FS.WithChunks, FS.Kept, FS.Fresh,
        FS.Flushed;
      ghost var kept := FS.FlushIncrements(codec, State());
      var currentOpenCount := fileData.value.openCount;
      toBeIncremented := CloseEncryptor(store, chunks);
      fileData := Some(FS.Built(codec, dataMap, store.contents, currentOpenCount));
      paid := paid + multiset(kept);
    }

    /** Without a buffer: the chunks are to be incremented, unless a timed close has seen to it. */
    method CollectChunks(ghost store: ChunkStore, chunks: seq<ChunkName>) returns (toBeIncremented: seq<ChunkName>)
      requires fileData.None?
      modifies this`paid
      ensures toBeIncremented == chunks + if skipChunkIncrementing then [] else dataMap.chunks
      ensures State().(skip := false, stored := stored + FS.Names(dataMap))
        == FS.Apply(codec, old(State()), store.contents, FS.SerialiseEvent)
      ensures toBeIncremented == chunks + FS.Increments(codec, old(State()), FS.SerialiseEvent)
      ensures store.contents == FS.ContentsAfter(codec, old(State()), store.contents, FS.SerialiseEvent)
      ensures FS.Puts(codec, old(State()), FS.SerialiseEvent) == []
    {
      FS.UnbufferedParts(codec, State(), store.contents);
      hide FS.Apply, FS.Puts, FS.Increments, FS.ContentsAfter;
      toBeIncremented := chunks;
      if !skipChunkIncrementing {
        toBeIncremented := toBeIncremented + dataMap.chunks;
        paid := paid + FS.Names(dataMap);
      }
    }

    /** File::Serialise: flushes an open file, and collects the chunks to be incremented. */
    method Serialise(store: ChunkStore, chunks: seq<ChunkName>) returns (toBeIncremented: seq<ChunkName>)
      requires fileData.Some? ==> fileData.value.original == dataMap
      modifies this, store
      ensures !skipChunkIncrementing && waits == old(waits) && fired == old(fired) && size == old(size)
      ensures old(fileData).None? ==>
        && fileData.None? && dataMap == old(dataMap)
        && toBeIncremented == chunks + if old(skipChunkIncrementing) then [] else dataMap.chunks
      ensures old(fileData).Some? ==>
        && dataMap == (if old(fileData).value.modified then codec.seal(old(fileData).value.text) else old(dataMap))
        && fileData == Some(FS.Data(old(fileData).value.openCount, dataMap, codec.open(dataMap, store.contents), false))
        && (forall n ::
              n in toBeIncremented <==> n in chunks || (n in dataMap.chunks && n in old(dataMap).chunks))
      ensures State() == FS.Apply(codec, old(State()), old(store.contents), FS.SerialiseEvent)
      ensures toBeIncremented == chunks + FS.Increments(codec, old(State()), FS.SerialiseEvent)
      ensures store.contents == FS.ContentsAfter(codec, old(State()), old(store.contents), FS.SerialiseEvent)
      ensures store.refs == old(store.refs) + multiset(FS.Puts(codec, old(State()), FS.SerialiseEvent))
    {
      hide FS.Apply, FS.Puts, FS.Increments, FS.ContentsAfter, FS.Names;
      if fileData.Some? {
        toBeIncremented := Rebuild(store, chunks);
      } else {
        toBeIncremented := CollectChunks(store, chunks);
      }
      skipChunkIncrementing := false;
      stored := stored + FS.Names(dataMap);
    }
  }

  // ----- serialising a directory's files -----

  ghost function States(files: seq<File>): seq<FS.File>
    reads files
  {
    seq(|files|, i requires 0 <= i < |files| reads files => files[i].State())
  }

  ghost function SerialiseRun(n: nat): seq<FS.Act> {
    seq(n, i requires 0 <= i => FS.Act(i, FS.SerialiseEvent))
  }

  /** One turn of the children loop is one step of the files' world. */
  method SerialiseChild(files: seq<File>, i: nat, store: ChunkStore, k: FS.Codec, chunks: seq<ChunkName>)
    returns (more: seq<ChunkName>)
    requires i < |files| && forall j, l | 0 <= j < l < |files| :: files[j] != files[l]
    requires (forall f | f in files :: f.codec == k)
    requires (files[i].fileData.Some? ==> files[i].fileData.value.original == files[i].dataMap)
    modifies files[i], store
    ensures FS.World(States(files), store.contents, store.refs + multiset(more))
      == FS.ApplyAt(k, FS.World(old(States(files)), old(store.contents), old(store.refs) + multiset(chunks)), i,
                    FS.SerialiseEvent)
    ensures more == chunks + FS.Increments(k, old(States(files))[i], FS.SerialiseEvent)
  {
    ghost var before := States(files);
    more := files[i].Serialise(store, chunks);
    assert States(files) == before[i := files[i].State()];
    assert multiset(more) == multiset(chunks) + multiset(FS.Increments(k, before[i], FS.SerialiseEvent));
  }

  /** What the children loop keeps: the increments it still owes count as made. */
  ghost predicate Looping(k: FS.Codec, w: FS.World, n: nat, files: seq<FS.File>, contents: map<ChunkName, Bytes>,
                          refs: multiset<ChunkName>, chunks: seq<ChunkName>, others: multiset<ChunkName>) {
    && FS.IsRun(w, SerialiseRun(n))
    && FS.World(files, contents, refs + multiset(chunks)) == FS.After(k, w, SerialiseRun(n))
    && (forall c | c in chunks :: c in contents)
    && FS.GoodWorld(k, FS.World(files, contents, refs + multiset(chunks)), others)
  }

  lemma LoopsOnce(k: FS.Codec, w: FS.World, n: nat, x: FS.World, y: FS.World, chunks: seq<ChunkName>,
                  more: seq<ChunkName>,
                  others: multiset<ChunkName>)
    requires FS.Lawful(k) && n < |w.files|
    requires FS.IsRun(w, SerialiseRun(n)) && x == FS.After(k, w, SerialiseRun(n)) && FS.GoodWorld(k, x, others)
    requires y == FS.ApplyAt(k, x, n, FS.SerialiseEvent)
    requires more == chunks + FS.Increments(k, x.files[n], FS.SerialiseEvent)
    requires forall c | c in chunks :: c in x.contents
    ensures FS.IsRun(w, SerialiseRun(n + 1)) && y == FS.After(k, w, SerialiseRun(n + 1)) && FS.GoodWorld(k, y, others)
    ensures forall c | c in more :: c in y.contents
  {
    FS.StepInWorld(k, x, others, n, FS.SerialiseEvent);
    SerialiseRunGrows(k, w, n);
  }

  lemma SerialiseRunGrows(k: FS.Codec, w: FS.World, n: nat)
    requires n < |w.files| && FS.IsRun(w, SerialiseRun(n))
    ensures FS.IsRun(w, SerialiseRun(n + 1))
    ensures FS.After(k, w, SerialiseRun(n + 1)) == FS.ApplyAt(k, FS.After(k, w, SerialiseRun(n)), n, FS.SerialiseEvent)
  {
    hide FS.ApplyAt, FS.After;
    FS.AfterOneMore(k, w, SerialiseRun(n), FS.Act(n, FS.SerialiseEvent));
    assert SerialiseRun(n + 1) == SerialiseRun(n) + [FS.Act(n, FS.SerialiseEvent)];
  }

  /** The children loop of Directory::Serialise. */
  method SerialiseEach(files: seq<File>, store: ChunkStore, k: FS.Codec, ghost w: FS.World,
                       ghost others: multiset<ChunkName>)
    returns (chunks: seq<ChunkName>)
    requires forall i, j | 0 <= i < j < |files| :: files[i] != files[j]
    requires (forall f | f in files :: f.codec == k) && FS.Lawful(k)
    requires |w.files| == |files| && Looping(k, w, 0, States(files), store.contents, store.refs, [], others)
    modifies files, store
    ensures Looping(k, w, |files|, States(files), store.contents, store.refs, chunks, others)
  {
    hide FS.ApplyAt, FS.Increments, FS.Lawful, SerialiseRun, FS.After, FS.IsRun, FS.GoodWorld;
    chunks := [];
    var i := 0;
    while i < |files|
      invariant i <= |files|
      invariant Looping(k, w, i, States(files), store.contents, store.refs, chunks, others)
    {
      ghost var x := FS.World(States(files), store.contents, store.refs + multiset(chunks));
      LoopState(k, w, i, x.files, x.contents, store.refs, chunks, others);
      var more := SerialiseChild(files, i, store, k, chunks);
      ghost var y := FS.World(States(files), store.contents, store.refs + multiset(more));
      LoopsOnce(k, w, i, x, y, chunks, more, others);
      chunks := more;
      i := i + 1;
    }
  }

  /** The children loop and the increments after it: as if each file had been serialised on its
      own. */
  method SerialiseChildren(files: seq<File>, store: ChunkStore, k: FS.Codec, ghost others: multiset<ChunkName>)
    requires forall i, j | 0 <= i < j < |files| :: files[i] != files[j]
    requires (forall f | f in files :: f.codec == k) && FS.Lawful(k)
    requires FS.GoodWorld(k, FS.World(States(files), store.contents, store.refs), others)
    modifies files, store
    ensures var w := FS.World(old(States(files)), old(store.contents), old(store.refs));
      && FS.IsRun(w, SerialiseRun(|files|))
      && FS.World(States(files), store.contents, store.refs) == FS.After(k, w, SerialiseRun(|files|))
    ensures FS.GoodWorld(k, FS.World(States(files), store.contents, store.refs), others)
  {
    ghost var w := FS.World(States(files), store.contents, store.refs);
    assert store.refs + multiset([]) == store.refs;
    var chunks := SerialiseEach(files, store, k, w, others);
    store.IncrementReferenceCount(chunks);
  }

  lemma LoopState(k: FS.Codec, w: FS.World, n: nat, files: seq<FS.File>, contents: map<ChunkName, Bytes>,
                  refs: multiset<ChunkName>, chunks: seq<ChunkName>, others: multiset<ChunkName>)
    requires Looping(k, w, n, files, contents, refs, chunks, others) && n < |files|
    ensures n < |w.files| && (files[n].data.Some? ==> files[n].data.value.original == files[n].dataMap)
  {
    var x := FS.World(files, contents, refs + multiset(chunks));
    assert FS.Good(k, x.files[n], x.contents);
  }
}
