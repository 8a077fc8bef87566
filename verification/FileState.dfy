/** An open file: its buffer, its delayed close, and the chunk references it takes out in storage.
    The state of a file and of the chunk store, and every step of theirs, as values. */
module FileState {
  import opened Wrappers
  import opened MetaData

  // ----- self-encryption -----

  /** What the self-encryptor does: seal turns a content into a data map and open turns it back,
      given the chunks. A chunk's name is a hash of the chunk, so chunk tells what a name stands
      for. */
  datatype Codec = Codec(
    seal: Bytes -> DataMap,
    chunk: ChunkName -> Bytes,
    open: (DataMap, map<ChunkName, Bytes>) -> Bytes)

  const EMPTY_MAP := DataMap([], [])

  ghost predicate Reachable(k: Codec, dataMap: DataMap, contents: map<ChunkName, Bytes>) {
    forall n | n in dataMap.chunks :: n in contents && contents[n] == k.chunk(n)
  }

  ghost predicate Lawful(k: Codec) {
    && (forall x: Bytes, contents: map<ChunkName, Bytes> ::
          Reachable(k, k.seal(x), contents) ==> k.open(k.seal(x), contents) == x)
    && (forall contents: map<ChunkName, Bytes> :: k.open(EMPTY_MAP, contents) == [])
  }

  /** dataMap is a recipe for x: what sealing x gives, or the map of a new file. */
  ghost predicate IsMapOf(k: Codec, dataMap: DataMap, x: Bytes) {
    dataMap == k.seal(x) || (dataMap == EMPTY_MAP && x == [])
  }

  // ----- plain files -----

  function Zeros(n: nat): Bytes {
    seq(n, _ => 0)
  }

  function Written(x: Bytes, data: Bytes, offset: nat): Bytes {
    if data == [] then x
    else
      var base := if |x| < offset then x + Zeros(offset - |x|) else x;
      base[..offset] + data + (if offset + |data| < |base| then base[offset + |data|..] else [])
  }

  function Truncated(x: Bytes, size: nat): Bytes {
    if size <= |x| then x[..size] else x + Zeros(size - |x|)
  }

  /** A write, byte by byte: the data where it goes, the old bytes elsewhere, and zeros in a gap. */
  function ByteWritten(x: Bytes, data: Bytes, offset: nat, i: nat): Byte {
    if offset <= i < offset + |data| then data[i - offset] else if i < |x| then x[i] else 0
  }

  function LengthWritten(x: Bytes, data: Bytes, offset: nat): nat {
    if data != [] && offset + |data| > |x| then offset + |data| else |x|
  }

  lemma WrittenBytes(x: Bytes, data: Bytes, offset: nat)
    ensures |Written(x, data, offset)| == LengthWritten(x, data, offset)
    ensures forall i | 0 <= i < |Written(x, data, offset)| ::
      Written(x, data, offset)[i] == ByteWritten(x, data, offset, i)
  {
  }

  /** And so a truncation: the old bytes as far as they go, and zeros. */
  lemma TruncatedBytes(x: Bytes, size: nat)
    ensures |Truncated(x, size)| == size
    ensures forall i | 0 <= i < size :: Truncated(x, size)[i] == if i < |x| then x[i] else 0
  {
  }

  // ----- states -----

  /** File::Data: the open count, and the encryptor with the map it was built from. */
  datatype Data = Data(openCount: nat, original: DataMap, text: Bytes, modified: bool)

  /** A regular file. waits and fired are its close timer's. paid is every reference it has taken
      out, due what timed closes have collected and not incremented yet, stored every occurrence in a
      data map it has serialised, superseded every reference that a timed close has seen to and that
      a later flush left without a serialisation. */
  datatype File = File(
    dataMap: DataMap,
    size: nat,
    data: Option<Data>,
    skip: bool,
    waits: nat,
    fired: nat,
    content: Bytes,
    paid: multiset<ChunkName>,
    due: multiset<ChunkName>,
    stored: multiset<ChunkName>,
    superseded: multiset<ChunkName>)

  datatype World = World(files: seq<File>, contents: map<ChunkName, Bytes>, refs: multiset<ChunkName>)

  function Names(dataMap: DataMap): multiset<ChunkName> {
    multiset(dataMap.chunks)
  }

  // ----- which chunks a flush puts and which it increments -----

  function Kept(chunks: seq<ChunkName>, original: seq<ChunkName>): seq<ChunkName> {
    if chunks == [] then []
    else (if chunks[0] in original then [chunks[0]] else []) + Kept(chunks[1..], original)
  }

  function Fresh(chunks: seq<ChunkName>, original: seq<ChunkName>): seq<ChunkName> {
    if chunks == [] then []
    else (if chunks[0] in original then [] else [chunks[0]]) + Fresh(chunks[1..], original)
  }

  /** Every occurrence of a chunk in the new map is paid for once. */
  lemma {:induction false} PaidOnce(chunks: seq<ChunkName>, original: seq<ChunkName>)
    ensures multiset(Kept(chunks, original)) + multiset(Fresh(chunks, original)) == multiset(chunks)
  {
    if chunks != [] {
      PaidOnce(chunks[1..], original);
      assert chunks == [chunks[0]] + chunks[1..];
    }
  }

  /** What is only incremented was in the old map; what is put was not. */
  lemma {:induction false} KeptOrFresh(chunks: seq<ChunkName>, original: seq<ChunkName>, n: ChunkName)
    ensures n in Kept(chunks, original) <==> n in chunks && n in original
    ensures n in Fresh(chunks, original) <==> n in chunks && n !in original
  {
    if chunks != [] {
      KeptOrFresh(chunks[1..], original, n);
      assert n in chunks <==> n == chunks[0] || n in chunks[1..];
    }
  }

  /** What a flush does with the chunks of the new map, chunk by chunk. */
  lemma FlushMeans(k: Codec, contents: map<ChunkName, Bytes>, names: seq<ChunkName>, original: seq<ChunkName>,
                   chunks: seq<ChunkName>)
    ensures var more := WithChunks(k, contents, Fresh(names, original));
      && (forall n :: n in more <==> n in contents || (n in names && n !in original))
      && (forall n | n in more ::
            more[n] == if n in names && n !in original then k.chunk(n) else contents[n])
    ensures forall n :: n in chunks + Kept(names, original) <==> n in chunks || (n in names && n in original)
    ensures multiset(Fresh(names, original)) + multiset(chunks + Kept(names, original))
         == multiset(chunks) + multiset(names)
  {
    PaidOnce(names, original);
    WithChunksHas(k, contents, Fresh(names, original));
    forall n
      ensures n in Kept(names, original) <==> n in names && n in original
      ensures n in Fresh(names, original) <==> n in names && n !in original
    {
      KeptOrFresh(names, original, n);
    }
    hide Kept, Fresh, WithChunks;
  }

  // ----- steps -----

  datatype Event =
    | OpenEvent
    | CloseEvent
    | WriteEvent(data: Bytes, offset: nat)
    | TruncateEvent(size: nat)
    | ExpireEvent
    | TimedCloseEvent
    | IncrementEvent(names: seq<ChunkName>)
    | SerialiseEvent

  /** SelfEncryptor::Close: only then the data map changes. */
  function Closed(k: Codec, d: Data, dataMap: DataMap): DataMap {
    if d.modified then k.seal(d.text) else dataMap
  }

  function Sealed(k: Codec, f: File): DataMap
    requires f.data.Some?
  {
    Closed(k, f.data.value, f.dataMap)
  }

  /** The chunks a flush puts, and those it collects to be incremented. */
  function FlushPuts(k: Codec, f: File): seq<ChunkName>
    requires f.data.Some?
  {
    Fresh(Sealed(k, f).chunks, f.dataMap.chunks)
  }

  function FlushIncrements(k: Codec, f: File): seq<ChunkName>
    requires f.data.Some?
  {
    Kept(Sealed(k, f).chunks, f.dataMap.chunks)
  }

  function Flushed(k: Codec, f: File): File
    requires f.data.Some?
  {
    f.(dataMap := Sealed(k, f), skip := true, paid := f.paid + multiset(FlushPuts(k, f)),
       superseded := if f.skip then f.superseded + Names(f.dataMap) else f.superseded)
  }

  lemma FlushedIs(k: Codec, f: File)
    requires f.data.Some?
    ensures Flushed(k, f) == f.(dataMap := Sealed(k, f), skip := true, paid := f.paid + multiset(FlushPuts(k, f)),
      superseded := if f.skip then f.superseded + Names(f.dataMap) else f.superseded)
    ensures Sealed(k, f) == Closed(k, f.data.value, f.dataMap)
         == if f.data.value.modified then k.seal(f.data.value.text) else f.dataMap
    ensures FlushPuts(k, f) == Fresh(Sealed(k, f).chunks, f.dataMap.chunks)
  {
  }

  function Built(k: Codec, dataMap: DataMap, contents: map<ChunkName, Bytes>, openCount: nat): Data {
    Data(openCount, dataMap, k.open(dataMap, contents), false)
  }

  function WithChunks(k: Codec, contents: map<ChunkName, Bytes>, names: seq<ChunkName>): map<ChunkName, Bytes> {
    if names == [] then contents
    else WithChunks(k, contents, names[..|names| - 1])[names[|names| - 1] := k.chunk(names[|names| - 1])]
  }

  lemma {:induction false} WithChunksHas(k: Codec, contents: map<ChunkName, Bytes>, names: seq<ChunkName>)
    ensures forall n | n in names ::
      n in WithChunks(k, contents, names) && WithChunks(k, contents, names)[n] == k.chunk(n)
    ensures forall n | n in contents && n !in names ::
              n in WithChunks(k, contents, names) && WithChunks(k, contents, names)[n] == contents[n]
    ensures forall n | n in WithChunks(k, contents, names) :: n in contents || n in names
  {
    if names != [] {
      var front := names[..|names| - 1];
      WithChunksHas(k, contents, front);
      assert names == front + [names[|names| - 1]];
    }
  }

  function ContentsAfter(k: Codec, f: File, contents: map<ChunkName, Bytes>, e: Event): map<ChunkName, Bytes> {
    if Flushes(f, e) then WithChunks(k, contents, FlushPuts(k, f)) else contents
  }

  predicate Flushes(f: File, e: Event) {
    f.data.Some? && (e.SerialiseEvent? || (e.TimedCloseEvent? && f.fired > 0 && f.data.value.openCount == 0))
  }

  function Apply(k: Codec, f: File, contents: map<ChunkName, Bytes>, e: Event): File {
    match e
    case OpenEvent =>
      var data := if f.data.Some? then f.data.value else Built(k, f.dataMap, contents, 0);
      f.(data := Some(data.(openCount := data.openCount + 1)), waits := 0)
    case CloseEvent =>
      if f.data.None? then f
      else
        var count := if f.data.value.openCount > 0 then f.data.value.openCount - 1 else 0;
        f.(data := Some(f.data.value.(openCount := count)), waits := if count == 0 then 1 else f.waits)
    case WriteEvent(data, offset) =>
      if f.data.None? then f
      else
        var text := Written(f.data.value.text, data, offset);
        f.(data := Some(f.data.value.(text := text, modified := true)), size := |text|,
           content := Written(f.content, data, offset))
    case TruncateEvent(size) =>
      if f.data.None? then f
      else
        var text := Truncated(f.data.value.text, size);
        f.(data := Some(f.data.value.(text := text, modified := true)), size := |text|,
           content := Truncated(f.content, size))
    case ExpireEvent => f.(fired := f.fired + f.waits, waits := 0)
    case TimedCloseEvent =>
      if f.fired == 0 then f
      else if Flushes(f, e)
      then Flushed(k, f).(fired := f.fired - 1, data := None, due := f.due + multiset(FlushIncrements(k, f)))
      else f.(fired := f.fired - 1)
    case IncrementEvent(names) =>
      if multiset(names) <= f.due then f.(paid := f.paid + multiset(names), due := f.due - multiset(names)) else f
    case SerialiseEvent =>
      var g := if f.data.Some?
        then
          var flushed := Flushed(k, f);
          flushed.(data := Some(Built(k, flushed.dataMap, ContentsAfter(k, f, contents, e), f.data.value.openCount)),
                   paid := flushed.paid + multiset(FlushIncrements(k, f)))
        else if f.skip then f else f.(paid := f.paid + Names(f.dataMap));
      g.(skip := false, stored := g.stored + Names(g.dataMap))
  }

  lemma WriteIs(k: Codec, f: File, contents: map<ChunkName, Bytes>, data: Bytes, offset: nat)
    ensures Apply(k, f, contents, WriteEvent(data, offset)) ==
      if f.data.None? then f
      else f.(data := Some(f.data.value.(text := Written(f.data.value.text, data, offset), modified := true)),
              size := |Written(f.data.value.text, data, offset)|, content := Written(f.content, data, offset))
  {
  }

  lemma TruncateIs(k: Codec, f: File, contents: map<ChunkName, Bytes>, size: nat)
    ensures Apply(k, f, contents, TruncateEvent(size)) ==
      if f.data.None? then f
      else f.(data := Some(f.data.value.(text := Truncated(f.data.value.text, size), modified := true)),
              size := |Truncated(f.data.value.text, size)|, content := Truncated(f.content, size))
  {
  }

  lemma CloseIs(k: Codec, f: File, contents: map<ChunkName, Bytes>)
    ensures Apply(k, f, contents, CloseEvent) ==
      if f.data.None? then f
      else if f.data.value.openCount > 1 then f.(data := Some(f.data.value.(openCount := f.data.value.openCount - 1)))
      else f.(data := Some(f.data.value.(openCount := 0)), waits := 1)
  {
  }

  /** The names a step hands to IncrementChunks. A timed close only collects them under the file's
      lock; it increments after that, as a step of its own. */
  function Increments(k: Codec, f: File, e: Event): seq<ChunkName> {
    match e
    case SerialiseEvent =>
      if f.data.Some? then FlushIncrements(k, f) else if f.skip then [] else f.dataMap.chunks
    case IncrementEvent(names) => if multiset(names) <= f.due then names else []
    case _ => []
  }

  lemma IncrementIs(k: Codec, f: File, contents: map<ChunkName, Bytes>, names: seq<ChunkName>)
    requires multiset(names) <= f.due
    ensures Apply(k, f, contents, IncrementEvent(names))
         == f.(paid := f.paid + multiset(names), due := f.due - multiset(names))
  {
  }

  /** The names a timed close collects under the lock. */
  function Collected(k: Codec, f: File): seq<ChunkName> {
    if Flushes(f, TimedCloseEvent) then FlushIncrements(k, f) else []
  }

  /** The names a step puts. */
  function Puts(k: Codec, f: File, e: Event): seq<ChunkName> {
    if Flushes(f, e) then FlushPuts(k, f) else []
  }

  /** What a step that flushes comes to, part by part. */
  lemma FlushParts(k: Codec, f: File, contents: map<ChunkName, Bytes>, e: Event)
    requires Flushes(f, e)
    ensures var dataMap := Flushed(k, f).dataMap; var puts := Fresh(dataMap.chunks, f.dataMap.chunks);
      && Puts(k, f, e) == puts
      && FlushIncrements(k, f) == Kept(dataMap.chunks, f.dataMap.chunks)
      && Increments(k, f, e) == (if e.TimedCloseEvent? then [] else FlushIncrements(k, f))
      && ContentsAfter(k, f, contents, e) == WithChunks(k, contents, puts)
      && Apply(k, f, contents, e) ==
           if e.TimedCloseEvent?
           then Flushed(k, f).(fired := f.fired - 1, data := None, due := f.due + multiset(FlushIncrements(k, f)))
           else Flushed(k, f).(skip := false, stored := f.stored + Names(dataMap),
                               paid := Flushed(k, f).paid + multiset(FlushIncrements(k, f)),
                               data := Some(Built(k, dataMap, WithChunks(k, contents, puts), f.data.value.openCount)))
  {
  }

  /** What serialising a file that has no buffer comes to. */
  lemma UnbufferedParts(k: Codec, f: File, contents: map<ChunkName, Bytes>)
    requires f.data.None?
    ensures var e := SerialiseEvent;
      && Puts(k, f, e) == [] && ContentsAfter(k, f, contents, e) == contents
      && Increments(k, f, e) == (if f.skip then [] else f.dataMap.chunks)
      && Apply(k, f, contents, e) == f.(skip := false, stored := f.stored + Names(f.dataMap),
                                        paid := if f.skip then f.paid else f.paid + Names(f.dataMap))
  {
  }

  function ApplyAt(k: Codec, w: World, i: nat, e: Event): (r: World)
    requires i < |w.files|
    ensures |r.files| == |w.files|
  {
    var f := w.files[i];
    World(w.files[i := Apply(k, f, w.contents, e)], ContentsAfter(k, f, w.contents, e),
          w.refs + multiset(Puts(k, f, e)) + multiset(Increments(k, f, e)))
  }

  datatype Act = Act(i: nat, event: Event)

  predicate IsRun(w: World, run: seq<Act>) {
    forall a | a in run :: a.i < |w.files|
  }

  function After(k: Codec, w: World, run: seq<Act>): (r: World)
    requires IsRun(w, run)
    ensures |r.files| == |w.files|
    decreases |run|
  {
    if run == [] then w else After(k, ApplyAt(k, w, run[0].i, run[0].event), run[1..])
  }

  lemma {:induction false} AfterOneMore(k: Codec, w: World, run: seq<Act>, a: Act)
    requires IsRun(w, run) && a.i < |w.files|
    ensures IsRun(w, run + [a])
    ensures After(k, w, run + [a]) == ApplyAt(k, After(k, w, run), a.i, a.event)
    decreases |run|
  {
    if run == [] {
      assert [] + [a] == [a] && [a][1..] == [];
    } else {
      assert (run + [a])[1..] == run[1..] + [a];
      AfterOneMore(k, ApplyAt(k, w, run[0].i, run[0].event), run[1..], a);
    }
  }

  // ----- every run -----

  /** The chunks the file has paid for or is about to. */
  ghost function Ledger(f: File): multiset<ChunkName> {
    f.stored + (if f.skip then Names(f.dataMap) else multiset{}) + f.superseded
  }

  ghost predicate Good(k: Codec, f: File, contents: map<ChunkName, Bytes>) {
    && f.paid + f.due == Ledger(f)
    && (forall n | n in f.due :: n in contents)
    && Reachable(k, f.dataMap, contents)
    && f.size == |f.content|
    && match f.data
       case None => IsMapOf(k, f.dataMap, f.content)
       case Some(d) =>
         d.original == f.dataMap && d.text == f.content && (!d.modified ==> IsMapOf(k, f.dataMap, f.content))
  }

  ghost function Total(files: seq<File>): multiset<ChunkName> {
    if files == [] then multiset{} else files[0].paid + Total(files[1..])
  }

  ghost predicate GoodWorld(k: Codec, w: World, others: multiset<ChunkName>) {
    && (forall i | 0 <= i < |w.files| :: Good(k, w.files[i], w.contents))
    && w.refs == others + Total(w.files)
  }

  lemma ReachableGrows(k: Codec, dataMap: DataMap, contents: map<ChunkName, Bytes>, names: seq<ChunkName>)
    requires Reachable(k, dataMap, contents)
    ensures Reachable(k, dataMap, WithChunks(k, contents, names))
  {
    WithChunksHas(k, contents, names);
  }

  lemma SealedIsReachable(k: Codec, f: File, contents: map<ChunkName, Bytes>)
    requires f.data.Some? && Reachable(k, f.dataMap, contents)
    ensures Reachable(k, Sealed(k, f), WithChunks(k, contents, FlushPuts(k, f)))
    ensures forall n | n in FlushIncrements(k, f) :: n in contents
  {
    WithChunksHas(k, contents, FlushPuts(k, f));
    var chunks, original := Sealed(k, f).chunks, f.dataMap.chunks;
    forall n
      ensures n in Kept(chunks, original) <==> n in chunks && n in original
      ensures n in Fresh(chunks, original) <==> n in chunks && n !in original
    {
      KeptOrFresh(chunks, original, n);
    }
  }

  lemma LedgerSum<T>(paid: multiset<T>, due: multiset<T>, stored: multiset<T>, prepaid: multiset<T>,
                     superseded: multiset<T>,
                     puts: multiset<T>, kept: multiset<T>, names: multiset<T>)
    requires paid + due == stored + prepaid + superseded && puts + kept == names
    ensures (paid + puts) + (due + kept) == stored + names + (superseded + prepaid)
    ensures (paid + puts + kept) + due == stored + names + (superseded + prepaid)
  {
    assert (paid + puts) + (due + kept) == (paid + due) + (puts + kept);
    assert (paid + puts + kept) + due == (paid + puts) + (due + kept);
  }

  /** A flush pays for the new map ... */
  lemma FlushPays(k: Codec, f: File, e: Event)
    requires f.paid + f.due == Ledger(f) && Flushes(f, e)
    ensures Flushed(k, f).paid == f.paid + multiset(Puts(k, f, e))
    ensures Flushed(k, f).paid + (f.due + multiset(FlushIncrements(k, f))) == Ledger(Flushed(k, f))
    ensures (Flushed(k, f).paid + multiset(FlushIncrements(k, f))) + f.due == Ledger(Flushed(k, f))
  {
    var prepaid := if f.skip then Names(f.dataMap) else multiset{};
    var puts, kept, names := FlushPuts(k, f), FlushIncrements(k, f), Names(Sealed(k, f));
    PaidOnce(Sealed(k, f).chunks, f.dataMap.chunks);
    assert Puts(k, f, e) == puts && Flushed(k, f).paid == f.paid + multiset(puts);
    assert f.superseded + prepaid == Flushed(k, f).superseded;
    assert Ledger(Flushed(k, f)) == f.stored + names + (f.superseded + prepaid);
    hide Sealed, Kept, Fresh, Flushed, FlushPuts, FlushIncrements, Puts, Names;
    LedgerSum(f.paid, f.due, f.stored, prepaid, f.superseded, multiset(puts), multiset(kept), names);
  }

  lemma SealedIsMap(k: Codec, f: File, contents: map<ChunkName, Bytes>)
    requires Good(k, f, contents) && f.data.Some?
    ensures Reachable(k, f.dataMap, contents) && IsMapOf(k, Sealed(k, f), f.content)
  {
    hide Reachable, Ledger;
  }

  /** ... reaches its chunks and keeps the content. */
  lemma FlushIsGood(k: Codec, f: File, contents: map<ChunkName, Bytes>, e: Event)
    requires Lawful(k) && Good(k, f, contents) && Flushes(f, e)
    ensures Flushed(k, f).paid == f.paid + multiset(Puts(k, f, e))
    ensures Flushed(k, f).paid + (f.due + multiset(FlushIncrements(k, f))) == Ledger(Flushed(k, f))
    ensures (Flushed(k, f).paid + multiset(FlushIncrements(k, f))) + f.due == Ledger(Flushed(k, f))
    ensures Reachable(k, Sealed(k, f), ContentsAfter(k, f, contents, e))
    ensures IsMapOf(k, Sealed(k, f), f.content)
    ensures k.open(Sealed(k, f), ContentsAfter(k, f, contents, e)) == f.content
    ensures forall n | n in FlushIncrements(k, f) :: n in contents
    ensures forall n | n in contents :: n in ContentsAfter(k, f, contents, e)
  {
    FlushPays(k, f, e);
    ContentsGrow(k, f, contents, e);
    SealedIsMap(k, f, contents);
    SealedIsReachable(k, f, contents);
    hide Lawful, Sealed, Good, Reachable, IsMapOf, WithChunks, Ledger;
    MapOpens(k, Sealed(k, f), f.content, ContentsAfter(k, f, contents, e));
  }

  lemma MapOpens(k: Codec, dataMap: DataMap, x: Bytes, contents: map<ChunkName, Bytes>)
    requires Lawful(k) && IsMapOf(k, dataMap, x) && Reachable(k, dataMap, contents)
    ensures k.open(dataMap, contents) == x
  {
  }

  /** What a step keeps, and what it pays for. */
  ghost predicate GoodStep(k: Codec, f: File, contents: map<ChunkName, Bytes>, e: Event) {
    && Good(k, Apply(k, f, contents, e), ContentsAfter(k, f, contents, e))
    && Apply(k, f, contents, e).paid == f.paid + multiset(Puts(k, f, e)) + multiset(Increments(k, f, e))
    && (forall n | n in Increments(k, f, e) :: n in contents)
  }

  lemma StepIsGood(k: Codec, f: File, contents: map<ChunkName, Bytes>, e: Event)
    requires Lawful(k) && Good(k, f, contents)
    ensures GoodStep(k, f, contents, e)
  {
    hide Good, GoodStep, Lawful;
    if Flushes(f, e) {
      if e.TimedCloseEvent? { TimedCloseIsGood(k, f, contents); } else { FlushedSerialiseIsGood(k, f, contents); }
    } else if e.IncrementEvent? {
      IncrementIsGood(k, f, contents, e.names);
    } else if f.data.Some? {
      BufferedStepIsGood(k, f, contents, e);
    } else {
      UnbufferedStepIsGood(k, f, contents, e);
    }
  }

  lemma NothingMore<T>(a: multiset<T>)
    ensures a + multiset([]) == a
  {
  }

  /** The parts of a file that a flush or an increment leaves with no change. */
  lemma MakesGood(k: Codec, f: File, contents: map<ChunkName, Bytes>, g: File, more: map<ChunkName, Bytes>)
    requires Good(k, f, contents) && (forall n | n in contents :: n in more)
    requires g.paid + g.due == Ledger(g) && (forall n | n in g.due :: n in contents)
    requires Reachable(k, g.dataMap, more) && IsMapOf(k, g.dataMap, g.content)
    requires g.size == f.size && g.content == f.content
    requires g.data.Some? ==> g.data.value.original == g.dataMap && g.data.value.text == g.content
    ensures Good(k, g, more)
  {
    hide Reachable, IsMapOf, Ledger;
  }

  lemma TimedCloseIsGood(k: Codec, f: File, contents: map<ChunkName, Bytes>)
    requires Lawful(k) && Good(k, f, contents) && Flushes(f, TimedCloseEvent)
    ensures GoodStep(k, f, contents, TimedCloseEvent)
  {
    var g := Apply(k, f, contents, TimedCloseEvent);
    var more := ContentsAfter(k, f, contents, TimedCloseEvent);
    FlushIsGood(k, f, contents, TimedCloseEvent);
    FlushParts(k, f, contents, TimedCloseEvent);
    FlushedIs(k, f);
    assert forall n | n in f.due :: n in contents;
    hide Good, Lawful, Apply, ContentsAfter, Puts, Increments, Reachable, IsMapOf, WithChunks, Kept, Fresh, Sealed,
      Flushed, Names, FlushIncrements, Flushes;
    assert forall n | n in g.due :: n in f.due || n in FlushIncrements(k, f);
    NothingMore(Flushed(k, f).paid);
    MakesGood(k, f, contents, g, more);
  }

  lemma FlushedSerialiseIsGood(k: Codec, f: File, contents: map<ChunkName, Bytes>)
    requires Lawful(k) && Good(k, f, contents) && Flushes(f, SerialiseEvent)
    ensures GoodStep(k, f, contents, SerialiseEvent)
  {
    var g := Apply(k, f, contents, SerialiseEvent);
    var more := ContentsAfter(k, f, contents, SerialiseEvent);
    FlushIsGood(k, f, contents, SerialiseEvent);
    FlushParts(k, f, contents, SerialiseEvent);
    FlushedIs(k, f);
    assert forall n | n in f.due :: n in contents;
    hide Good, Lawful, Apply, ContentsAfter, Puts, Increments, Reachable, IsMapOf, WithChunks, Kept, Fresh, Sealed,
      Flushed, Names, FlushIncrements, Flushes;
    assert g.paid + g.due == Ledger(g);
    MakesGood(k, f, contents, g, more);
  }

  lemma TakenOver<T>(paid: multiset<T>, due: multiset<T>, more: multiset<T>)
    requires more <= due
    ensures (paid + more) + (due - more) == paid + due
  {
  }

  /** References that have been due and are paid now. */
  lemma PaidUpIsGood(k: Codec, f: File, contents: map<ChunkName, Bytes>, g: File)
    requires Good(k, f, contents) && g == f.(paid := g.paid, due := g.due) && g.paid + g.due == f.paid + f.due
    requires forall n | n in g.due :: n in contents
    ensures Good(k, g, contents)
  {
    assert Ledger(g) == Ledger(f);
    hide Ledger, Reachable, IsMapOf, Names;
  }

  lemma MakesGoodStep(k: Codec, f: File, contents: map<ChunkName, Bytes>, e: Event)
    requires Good(k, Apply(k, f, contents, e), ContentsAfter(k, f, contents, e))
    requires Apply(k, f, contents, e).paid == f.paid + multiset(Puts(k, f, e)) + multiset(Increments(k, f, e))
    requires forall n | n in Increments(k, f, e) :: n in contents
    ensures GoodStep(k, f, contents, e)
  {
    hide Good, Apply, ContentsAfter, Puts, Increments;
  }

  lemma IncrementIsGood(k: Codec, f: File, contents: map<ChunkName, Bytes>, names: seq<ChunkName>)
    requires Good(k, f, contents)
    ensures GoodStep(k, f, contents, IncrementEvent(names))
  {
    var e := IncrementEvent(names);
    IncrementParts(k, f, contents, names);
    if multiset(names) <= f.due { DueIsStored(k, f, contents, names); }
    hide *;
    NothingMore(f.paid);
    if multiset(names) <= f.due {
      IncrementIs(k, f, contents, names);
      TakenOver(f.paid, f.due, multiset(names));
      PaidUpIsGood(k, f, contents, Apply(k, f, contents, e));
    }
    MakesGoodStep(k, f, contents, e);
  }

  lemma IncrementParts(k: Codec, f: File, contents: map<ChunkName, Bytes>, names: seq<ChunkName>)
    ensures var e := IncrementEvent(names);
      && Puts(k, f, e) == [] && ContentsAfter(k, f, contents, e) == contents
      && Increments(k, f, e) == (if multiset(names) <= f.due then names else [])
      && (!(multiset(names) <= f.due) ==> Apply(k, f, contents, e) == f)
  {
  }

  lemma DueIsStored(k: Codec, f: File, contents: map<ChunkName, Bytes>, names: seq<ChunkName>)
    requires Good(k, f, contents) && multiset(names) <= f.due
    ensures forall n | n in names :: n in contents
    ensures forall n | n in f.due - multiset(names) :: n in contents
  {
    hide Reachable, IsMapOf, Names;
    forall n | n in names ensures n in contents { assert n in multiset(names) && n in f.due; }
  }

  /** What the steps on a buffer that do not flush it come to. */
  lemma BufferedIs(k: Codec, f: File, contents: map<ChunkName, Bytes>, e: Event)
    requires f.data.Some? && !Flushes(f, e) && !e.IncrementEvent?
    ensures Puts(k, f, e) == [] && Increments(k, f, e) == [] && ContentsAfter(k, f, contents, e) == contents
    ensures var g := Apply(k, f, contents, e);
      && g == f.(data := g.data, size := g.size, content := g.content, waits := g.waits, fired := g.fired)
      && g.data.Some?
      && g.data.value == f.data.value.(openCount := g.data.value.openCount, text := g.data.value.text,
                                       modified := g.data.value.modified)
      && (if e.WriteEvent? then
            && g.data.value.modified && g.data.value.text == Written(f.data.value.text, e.data, e.offset)
            && g.size == |g.data.value.text| && g.content == Written(f.content, e.data, e.offset)
          else if e.TruncateEvent? then
            && g.data.value.modified && g.data.value.text == Truncated(f.data.value.text, e.size)
            && g.size == |g.data.value.text| && g.content == Truncated(f.content, e.size)
          else
            && g.data.value.text == f.data.value.text && g.data.value.modified == f.data.value.modified
            && g.size == f.size && g.content == f.content)
  {
    hide Written, Truncated, Flushed, Built, FlushPuts, FlushIncrements;
  }

  lemma BufferedStepIsGood(k: Codec, f: File, contents: map<ChunkName, Bytes>, e: Event)
    requires Good(k, f, contents) && f.data.Some? && !Flushes(f, e) && !e.IncrementEvent?
    ensures GoodStep(k, f, contents, e)
  {
    BufferedIs(k, f, contents, e);
    NothingMore(f.paid);
    hide Apply, Written, Truncated, Reachable, IsMapOf, Names, Puts, Increments, ContentsAfter;
    MakesGoodStep(k, f, contents, e);
  }

  lemma UnbufferedSerialiseIsGood(k: Codec, f: File, contents: map<ChunkName, Bytes>)
    requires Good(k, f, contents) && f.data.None?
    ensures GoodStep(k, f, contents, SerialiseEvent)
  {
    UnbufferedParts(k, f, contents);
    hide Apply, Increments, Puts, ContentsAfter, IsMapOf, Reachable, Names;
    NothingMore(f.paid);
    var none: multiset<ChunkName> := multiset{};
    if f.skip {
      assert (f.stored + Names(f.dataMap)) + none == f.stored + Names(f.dataMap);
    } else {
      LedgerSum(f.paid, f.due, f.stored, none, f.superseded, Names(f.dataMap), none, Names(f.dataMap));
      NothingMore(f.paid + Names(f.dataMap));
    }
  }

  /** Without a buffer, opening builds one, and every other step but a flush moves the timer only. */
  lemma UnbufferedIs(k: Codec, f: File, contents: map<ChunkName, Bytes>, e: Event)
    requires f.data.None? && !e.SerialiseEvent? && !e.IncrementEvent?
    ensures ContentsAfter(k, f, contents, e) == contents && Puts(k, f, e) == [] && Increments(k, f, e) == []
    ensures var g := Apply(k, f, contents, e);
      && g == f.(data := g.data, waits := g.waits, fired := g.fired)
      && (g.data == f.data || g.data == Some(Data(1, f.dataMap, k.open(f.dataMap, contents), false)))
  {
    hide Written, Truncated, Flushed;
  }

  lemma UnbufferedStepIsGood(k: Codec, f: File, contents: map<ChunkName, Bytes>, e: Event)
    requires Lawful(k) && Good(k, f, contents) && f.data.None? && !e.IncrementEvent?
    ensures GoodStep(k, f, contents, e)
  {
    if e.SerialiseEvent? {
      UnbufferedSerialiseIsGood(k, f, contents);
    } else {
      MapOpens(k, f.dataMap, f.content, contents);
      UnbufferedIs(k, f, contents, e);
      hide Lawful, IsMapOf, Reachable, Apply, Names, ContentsAfter, Puts, Increments;
    }
  }

  lemma {:induction false} TotalUpdated(files: seq<File>, i: nat, f: File, more: multiset<ChunkName>)
    requires i < |files| && f.paid == files[i].paid + more
    ensures Total(files[i := f]) == Total(files) + more
  {
    if i == 0 {
      assert files[i := f][1..] == files[1..];
    } else {
      TotalUpdated(files[1..], i - 1, f, more);
      assert files[i := f][1..] == files[1..][i - 1 := f];
    }
  }

  lemma ContentsGrow(k: Codec, f: File, contents: map<ChunkName, Bytes>, e: Event)
    ensures forall n | n in contents :: n in ContentsAfter(k, f, contents, e)
  {
    if Flushes(f, e) {
      WithChunksHas(k, contents, FlushPuts(k, f));
    }
  }

  lemma GoodGrows(k: Codec, f: File, contents: map<ChunkName, Bytes>, flushed: File, e: Event)
    requires Good(k, f, contents)
    ensures Good(k, f, ContentsAfter(k, flushed, contents, e))
  {
    ContentsGrow(k, flushed, contents, e);
    if Flushes(flushed, e) {
      ReachableGrows(k, f.dataMap, contents, FlushPuts(k, flushed));
    }
  }

  lemma StepIsGoodWorld(k: Codec, w: World, others: multiset<ChunkName>, i: nat, e: Event)
    requires Lawful(k) && GoodWorld(k, w, others) && i < |w.files|
    ensures GoodWorld(k, ApplyAt(k, w, i, e), others)
  {
    hide Good, Apply, Increments, Puts, Lawful, ContentsAfter;
    var f := w.files[i];
    var next := ApplyAt(k, w, i, e);
    StepIsGood(k, f, w.contents, e);
    TotalUpdated(w.files, i, next.files[i], multiset(Puts(k, f, e)) + multiset(Increments(k, f, e)));
    forall j | 0 <= j < |w.files| ensures Good(k, next.files[j], next.contents) {
      if j != i {
        GoodGrows(k, w.files[j], w.contents, f, e);
        assert next.files[j] == w.files[j];
      }
    }
  }

  /** What one step of one file comes to for the world. */
  lemma StepInWorld(k: Codec, w: World, others: multiset<ChunkName>, i: nat, e: Event)
    requires Lawful(k) && GoodWorld(k, w, others) && i < |w.files|
    ensures GoodWorld(k, ApplyAt(k, w, i, e), others)
    ensures forall n | n in w.contents || n in Increments(k, w.files[i], e) :: n in ApplyAt(k, w, i, e).contents
  {
    assert Good(k, w.files[i], w.contents);
    StepIsGood(k, w.files[i], w.contents, e);
    ContentsGrow(k, w.files[i], w.contents, e);
    StepIsGoodWorld(k, w, others, i, e);
  }

  ghost function LedgerTotal(files: seq<File>): multiset<ChunkName> {
    if files == [] then multiset{} else Ledger(files[0]) + LedgerTotal(files[1..])
  }

  ghost function DueTotal(files: seq<File>): multiset<ChunkName> {
    if files == [] then multiset{} else files[0].due + DueTotal(files[1..])
  }

  lemma Rearranged<T>(a: multiset<T>, b: multiset<T>, c: multiset<T>, d: multiset<T>)
    ensures (a + b) + (c + d) == (a + c) + (b + d)
  {
  }

  lemma {:induction false} TotalIsLedger(k: Codec, files: seq<File>, contents: map<ChunkName, Bytes>)
    requires forall i | 0 <= i < |files| :: Good(k, files[i], contents)
    ensures Total(files) + DueTotal(files) == LedgerTotal(files)
  {
    if files != [] {
      TotalIsLedger(k, files[1..], contents);
      Rearranged(files[0].paid, files[0].due, Total(files[1..]), DueTotal(files[1..]));
    }
  }

  /** Over every run of any number of files that share a store, the references in the store, with
      those timed closes have still to take out, are exactly the occurrences in serialised data maps,
      the maps timed closes have seen to in advance, and what was superseded. */
  lemma {:induction false} LedgerEveryRun(k: Codec, w: World, others: multiset<ChunkName>, run: seq<Act>)
    requires Lawful(k) && GoodWorld(k, w, others) && IsRun(w, run)
    ensures GoodWorld(k, After(k, w, run), others)
    ensures var r := After(k, w, run); r.refs + DueTotal(r.files) == others + LedgerTotal(r.files)
    decreases |run|
  {
    if run == [] {
      TotalIsLedger(k, w.files, w.contents);
    } else {
      StepIsGoodWorld(k, w, others, run[0].i, run[0].event);
      LedgerEveryRun(k, ApplyAt(k, w, run[0].i, run[0].event), others, run[1..]);
    }
  }

  // ----- whether what is serialised is counted -----

  /** Every serialised occurrence has its reference. */
  ghost predicate Covered(f: File) {
    f.stored <= f.paid
  }

  /** The step serialises a file with no buffer, going by a timed close that has not incremented yet
      what it has collected; and no superseded reference makes up for that. */
  ghost predicate Borrows(f: File, e: Event) {
    e.SerialiseEvent? && f.data.None? && f.skip && !(f.due <= f.superseded)
  }

  lemma MoreOnBothSides<T>(a: multiset<T>, b: multiset<T>, c: multiset<T>)
    ensures a + c <= b + c <==> a <= b
  {
    assert forall x :: (a + c)[x] == a[x] + c[x] && (b + c)[x] == b[x] + c[x];
  }

  lemma SumsCompare<T>(a: multiset<T>, b: multiset<T>, c: multiset<T>, d: multiset<T>)
    requires a + b == c + d
    ensures c <= a <==> b <= d
  {
    assert forall x :: (a + b)[x] == a[x] + b[x] && (c + d)[x] == c[x] + d[x];
  }

  lemma CoveredStep(k: Codec, f: File, contents: map<ChunkName, Bytes>, e: Event)
    requires Good(k, f, contents) && Covered(f)
    ensures Covered(Apply(k, f, contents, e)) <==> !Borrows(f, e)
  {
    if Flushes(f, e) {
      FlushParts(k, f, contents, e);
      FlushedIs(k, f);
      PaidOnce(Sealed(k, f).chunks, f.dataMap.chunks);
      hide Apply, Reachable, IsMapOf, WithChunks, Kept, Fresh, Sealed, Flushed, FlushPuts, FlushIncrements;
    } else if e.SerialiseEvent? {
      UnbufferedParts(k, f, contents);
      var g := Apply(k, f, contents, e);
      hide Apply, Reachable, IsMapOf, Names;
      if f.skip {
        SumsCompare(f.paid, f.due, f.stored + Names(f.dataMap), f.superseded);
      } else {
        MoreOnBothSides(f.stored, f.paid, Names(f.dataMap));
      }
    } else {
      OtherStepPays(k, f, contents, e);
    }
  }

  /** No other step serialises or takes a reference back. */
  lemma OtherStepPays(k: Codec, f: File, contents: map<ChunkName, Bytes>, e: Event)
    requires !Flushes(f, e) && !e.SerialiseEvent?
    ensures var g := Apply(k, f, contents, e); g.stored == f.stored && f.paid <= g.paid
  {
    hide Written, Truncated, Flushed, Built;
  }

  ghost predicate AlwaysCovered(k: Codec, w: World, run: seq<Act>, i: nat)
    requires IsRun(w, run) && i < |w.files|
    decreases |run|
  {
    Covered(w.files[i]) && (run == [] || AlwaysCovered(k, ApplyAt(k, w, run[0].i, run[0].event), run[1..], i))
  }

  ghost predicate NeverBorrows(k: Codec, w: World, run: seq<Act>, i: nat)
    requires IsRun(w, run) && i < |w.files|
    decreases |run|
  {
    run == [] ||
    ((run[0].i == i ==> !Borrows(w.files[i], run[0].event))
     && NeverBorrows(k, ApplyAt(k, w, run[0].i, run[0].event), run[1..], i))
  }

  /** Over every run: a file's serialised occurrences always have their references exactly if no
      serialisation of it goes by a timed close that has not incremented yet. */
  lemma {:induction false} CoveredIffNeverBorrows(k: Codec, w: World, others: multiset<ChunkName>, run: seq<Act>,
                                                  i: nat)
    requires Lawful(k) && GoodWorld(k, w, others) && IsRun(w, run) && i < |w.files| && Covered(w.files[i])
    ensures AlwaysCovered(k, w, run, i) <==> NeverBorrows(k, w, run, i)
    decreases |run|
  {
    if run != [] {
      var a := run[0];
      var next := ApplyAt(k, w, a.i, a.event);
      StepIsGoodWorld(k, w, others, a.i, a.event);
      assert Good(k, w.files[i], w.contents);
      if a.i == i { CoveredStep(k, w.files[i], w.contents, a.event); }
      assert Covered(next.files[i]) <==> (a.i == i ==> !Borrows(w.files[i], a.event));
      hide ApplyAt, Borrows, Covered, Good, GoodWorld, Lawful;
      if Covered(next.files[i]) {
        CoveredIffNeverBorrows(k, next, others, run[1..], i);
      }
    }
  }

  ghost function StoredTotal(files: seq<File>): multiset<ChunkName> {
    if files == [] then multiset{} else files[0].stored + StoredTotal(files[1..])
  }

  lemma {:induction false} CoveredTotal(files: seq<File>)
    requires forall f | f in files :: Covered(f)
    ensures StoredTotal(files) <= Total(files)
  {
    if files != [] {
      CoveredTotal(files[1..]);
      assert files[0] in files;
    }
  }

  lemma {:induction false} CoveredAtEnd(k: Codec, w: World, run: seq<Act>, i: nat)
    requires IsRun(w, run) && i < |w.files| && AlwaysCovered(k, w, run, i)
    ensures Covered(After(k, w, run).files[i])
    decreases |run|
  {
    if run != [] {
      CoveredAtEnd(k, ApplyAt(k, w, run[0].i, run[0].event), run[1..], i);
    }
  }

  /** Every file's serialised occurrences have their references, and no run step borrows. */
  ghost predicate AllCovered(k: Codec, w: World, run: seq<Act>)
    requires IsRun(w, run)
  {
    forall j: nat | j < |w.files| :: Covered(w.files[j]) && NeverBorrows(k, w, run, j)
  }

  lemma AllCoveredAtEnd(k: Codec, w: World, others: multiset<ChunkName>, run: seq<Act>)
    requires Lawful(k) && GoodWorld(k, w, others) && IsRun(w, run) && AllCovered(k, w, run)
    ensures forall f | f in After(k, w, run).files :: Covered(f)
  {
    var r := After(k, w, run);
    hide Covered, GoodWorld, Lawful, After;
    forall f | f in r.files ensures Covered(f) {
      var j: nat :| j < |r.files| && r.files[j] == f;
      CoveredIffNeverBorrows(k, w, others, run, j);
      CoveredAtEnd(k, w, run, j);
    }
  }

  /** If none does, the store has a reference for every occurrence in a serialised data map. */
  lemma NeverUnderCounted(k: Codec, w: World, others: multiset<ChunkName>, run: seq<Act>)
    requires Lawful(k) && GoodWorld(k, w, others) && IsRun(w, run) && AllCovered(k, w, run)
    ensures others + StoredTotal(After(k, w, run).files) <= After(k, w, run).refs
  {
    var r := After(k, w, run);
    LedgerEveryRun(k, w, others, run);
    AllCoveredAtEnd(k, w, others, run);
    assert r.refs == others + Total(r.files);
    hide *;
    CoveredTotal(r.files);
  }

  /** Whatever has come before, what a step hands to IncrementChunks is in the store. */
  lemma IncrementsAreStored(k: Codec, w: World, others: multiset<ChunkName>, run: seq<Act>, i: nat, e: Event)
    requires Lawful(k) && GoodWorld(k, w, others) && IsRun(w, run) && i < |w.files|
    ensures var r := After(k, w, run); forall n | n in Increments(k, r.files[i], e) :: n in r.contents
  {
    var r := After(k, w, run);
    LedgerEveryRun(k, w, others, run);
    assert Good(k, r.files[i], r.contents);
    StepIsGood(k, r.files[i], r.contents, e);
    hide Good, Increments, Apply, Puts, ContentsAfter;
  }

  /** What has been paid for, or is about to be, and is in no serialised data map. */
  ghost function Ahead(f: File): multiset<ChunkName> {
    (if f.skip then Names(f.dataMap) else multiset{}) + f.superseded
  }

  ghost function AheadTotal(files: seq<File>): multiset<ChunkName> {
    if files == [] then multiset{} else Ahead(files[0]) + AheadTotal(files[1..])
  }

  lemma {:induction false} LedgerIsAhead(files: seq<File>)
    ensures LedgerTotal(files) == StoredTotal(files) + AheadTotal(files)
  {
    if files != [] {
      LedgerIsAhead(files[1..]);
      assert Ledger(files[0]) == files[0].stored + Ahead(files[0]);
      hide Ledger, Ahead;
      Rearranged(files[0].stored, Ahead(files[0]), StoredTotal(files[1..]), AheadTotal(files[1..]));
    }
  }

  /** Whatever has come before, the store has a reference for every serialised occurrence exactly if
      what timed closes have still to increment is paid for ahead. */
  lemma CountedIffPaidAhead(k: Codec, w: World, others: multiset<ChunkName>, run: seq<Act>)
    requires Lawful(k) && GoodWorld(k, w, others) && IsRun(w, run)
    ensures var r := After(k, w, run);
      others + StoredTotal(r.files) <= r.refs <==> DueTotal(r.files) <= AheadTotal(r.files)
  {
    var r := After(k, w, run);
    LedgerEveryRun(k, w, others, run);
    LedgerIsAhead(r.files);
    hide *;
    assert others + LedgerTotal(r.files) == (others + StoredTotal(r.files)) + AheadTotal(r.files);
    SumsCompare(r.refs, DueTotal(r.files), others + StoredTotal(r.files), AheadTotal(r.files));
  }

  /** The step flushes a file that a flush has paid for and no serialisation has used up: the
      references of a timed close, and the file opened again before its parent is serialised. */
  predicate Supersedes(f: File, e: Event) {
    f.skip && Flushes(f, e) && f.dataMap.chunks != []
  }

  lemma SupersededIff(k: Codec, f: File, contents: map<ChunkName, Bytes>, e: Event)
    ensures f.superseded <= Apply(k, f, contents, e).superseded
    ensures Apply(k, f, contents, e).superseded == f.superseded <==> !Supersedes(f, e)
  {
    assert f.dataMap.chunks != [] ==> f.dataMap.chunks[0] in Names(f.dataMap);
    if Supersedes(f, e) {
      var n := f.dataMap.chunks[0];
      assert Apply(k, f, contents, e).superseded[n] == f.superseded[n] + Names(f.dataMap)[n];
    }
  }

  /** No file is flushed between a timed close of it and its next serialisation. */
  ghost predicate NeverSupersedes(k: Codec, w: World, run: seq<Act>)
    requires IsRun(w, run)
    decreases |run|
  {
    run == [] ||
    (!Supersedes(w.files[run[0].i], run[0].event)
     && NeverSupersedes(k, ApplyAt(k, w, run[0].i, run[0].event), run[1..]))
  }

  lemma {:induction false} SupersededStays(k: Codec, w: World, run: seq<Act>, i: nat)
    requires IsRun(w, run) && i < |w.files|
    ensures w.files[i].superseded <= After(k, w, run).files[i].superseded
    decreases |run|
  {
    if run != [] {
      SupersededIff(k, w.files[run[0].i], w.contents, run[0].event);
      SupersededStays(k, ApplyAt(k, w, run[0].i, run[0].event), run[1..], i);
    }
  }

  ghost predicate NoneSuperseded(w: World) {
    forall f | f in w.files :: f.superseded == multiset{}
  }

  /** Exactly then nothing is ever superseded: the references are the serialised occurrences and the
      maps paid for in advance. */
  lemma {:induction false} NothingSupersededIff(k: Codec, w: World, run: seq<Act>)
    requires IsRun(w, run) && NoneSuperseded(w)
    ensures NoneSuperseded(After(k, w, run)) <==> NeverSupersedes(k, w, run)
    decreases |run|
  {
    if run != [] {
      var i := run[0].i;
      var next := ApplyAt(k, w, i, run[0].event);
      SupersededIff(k, w.files[i], w.contents, run[0].event);
      hide Apply, Supersedes, ContentsAfter;
      if Supersedes(w.files[i], run[0].event) {
        SupersededStays(k, next, run[1..], i);
        assert After(k, next, run[1..]).files[i] in After(k, next, run[1..]).files;
      } else {
        NothingSupersededIff(k, next, run[1..]);
      }
    }
  }

  /** The references a file is owed: one for each serialised occurrence, and its map's if a timed
      close has paid for that in advance. */
  ghost function Owed(f: File): multiset<ChunkName> {
    f.stored + if f.skip then Names(f.dataMap) else multiset{}
  }

  ghost function OwedTotal(files: seq<File>): multiset<ChunkName> {
    if files == [] then multiset{} else Owed(files[0]) + OwedTotal(files[1..])
  }

  ghost function SupersededTotal(files: seq<File>): multiset<ChunkName> {
    if files == [] then multiset{} else files[0].superseded + SupersededTotal(files[1..])
  }

  lemma {:induction false} LedgerParts(files: seq<File>)
    ensures LedgerTotal(files) == OwedTotal(files) + SupersededTotal(files)
  {
    if files != [] {
      LedgerParts(files[1..]);
      assert Ledger(files[0]) == Owed(files[0]) + files[0].superseded;
      hide Ledger, Owed;
      Rearranged(Owed(files[0]), files[0].superseded, OwedTotal(files[1..]), SupersededTotal(files[1..]));
    }
  }

  lemma NoneInSum<T>(a: multiset<T>, b: multiset<T>)
    ensures a + b == multiset{} <==> a == multiset{} && b == multiset{}
    ensures a + b == a <==> b == multiset{}
  {
    assert forall n :: (a + b)[n] == a[n] + b[n];
  }

  lemma {:induction false} SupersededTotalIsNone(files: seq<File>)
    ensures SupersededTotal(files) == multiset{} <==> forall f | f in files :: f.superseded == multiset{}
  {
    if files != [] {
      SupersededTotalIsNone(files[1..]);
      NoneInSum(files[0].superseded, SupersededTotal(files[1..]));
      assert forall f :: f in files <==> f == files[0] || f in files[1..];
    }
  }

  lemma NoneSupersededIs(w: World)
    ensures NoneSuperseded(w) <==> forall f | f in w.files :: f.superseded == multiset{}
  {
  }

  /** The references in the store, with those timed closes have still to take out, are exactly those
      owed, exactly if no run of flushes has left a payment unused; otherwise there are more. */
  lemma ReferencesExactIff(k: Codec, w: World, others: multiset<ChunkName>, run: seq<Act>)
    requires Lawful(k) && GoodWorld(k, w, others) && IsRun(w, run) && NoneSuperseded(w)
    ensures var r := After(k, w, run); others + OwedTotal(r.files) <= r.refs + DueTotal(r.files)
    ensures var r := After(k, w, run);
      r.refs + DueTotal(r.files) == others + OwedTotal(r.files) <==> NeverSupersedes(k, w, run)
  {
    hide *;
    var r := After(k, w, run);
    LedgerEveryRun(k, w, others, run);
    LedgerParts(r.files);
    SupersededTotalIsNone(r.files);
    NothingSupersededIff(k, w, run);
    NoneInSum(others + OwedTotal(r.files), SupersededTotal(r.files));
    NoneSupersededIs(r);
    assert r.refs + DueTotal(r.files) == (others + OwedTotal(r.files)) + SupersededTotal(r.files);
  }

  const NEW_FILE := File(EMPTY_MAP, 0, None, false, 0, 0, [], multiset{}, multiset{}, multiset{}, multiset{})
  const NEW_WORLD := World([NEW_FILE], map[], multiset{})

  // ----- runs of a single file -----

  function ActsOf(events: seq<Event>): (run: seq<Act>)
    ensures |run| == |events| && forall a | a in run :: a.i == 0
  {
    seq(|events|, i requires 0 <= i < |events| => Act(0, events[i]))
  }

  /** A file, and the chunks in the store, after some steps of it alone. */
  datatype Alone = Alone(file: File, contents: map<ChunkName, Bytes>)

  function Next(k: Codec, s: Alone, e: Event): Alone {
    Alone(Apply(k, s.file, s.contents, e), ContentsAfter(k, s.file, s.contents, e))
  }

  function AloneAfter(k: Codec, s: Alone, events: seq<Event>): Alone
    decreases |events|
  {
    if events == [] then s else AloneAfter(k, Next(k, s, events[0]), events[1..])
  }

  lemma {:induction false} AloneInWorld(k: Codec, w: World, events: seq<Event>)
    requires |w.files| == 1
    ensures IsRun(w, ActsOf(events))
    ensures var r := After(k, w, ActsOf(events)); var s := AloneAfter(k, Alone(w.files[0], w.contents), events);
      r.files == [s.file] && r.contents == s.contents
    decreases |events|
  {
    if events != [] {
      hide Apply, ContentsAfter;
      assert ActsOf(events)[1..] == ActsOf(events[1..]);
      AloneInWorld(k, ApplyAt(k, w, 0, events[0]), events[1..]);
    }
  }

  lemma {:induction false} AloneJoin(k: Codec, s: Alone, events: seq<Event>, more: seq<Event>)
    ensures AloneAfter(k, s, events + more) == AloneAfter(k, AloneAfter(k, s, events), more)
    decreases |events|
  {
    hide Next;
    if events == [] {
      assert [] + more == more;
    } else {
      assert (events + more)[1..] == events[1..] + more;
      AloneJoin(k, Next(k, s, events[0]), events[1..], more);
    }
  }

  const NEW := Alone(NEW_FILE, map[])

  lemma NewWorldIsGood(k: Codec)
    requires Lawful(k)
    ensures GoodWorld(k, NEW_WORLD, multiset{}) && NoneSuperseded(NEW_WORLD)
  {
    assert NEW_WORLD.files[1..] == [];
    assert Good(k, NEW_FILE, map[]);
  }

  lemma OneFileTotals(f: File)
    ensures DueTotal([f]) == f.due && LedgerTotal([f]) == Ledger(f) && StoredTotal([f]) == f.stored
    ensures OwedTotal([f]) == Owed(f)
  {
    assert [f][1..] == [];
  }

  /** Then the store has the references that the file's ledger says. */
  lemma AloneRefs(k: Codec, events: seq<Event>)
    requires Lawful(k)
    ensures IsRun(NEW_WORLD, ActsOf(events))
    ensures var r := After(k, NEW_WORLD, ActsOf(events)); var f := AloneAfter(k, NEW, events).file;
      r.files == [f] && r.refs + f.due == Ledger(f) && StoredTotal(r.files) == f.stored && OwedTotal(r.files) == Owed(f)
  {
    NewWorldIsGood(k);
    AloneInWorld(k, NEW_WORLD, events);
    LedgerEveryRun(k, NEW_WORLD, multiset{}, ActsOf(events));
    OneFileTotals(AloneAfter(k, NEW, events).file);
    hide *;
    var none: multiset<ChunkName> := multiset{};
    assert none + Ledger(AloneAfter(k, NEW, events).file) == Ledger(AloneAfter(k, NEW, events).file);
  }

  lemma {:induction false} NoneKept(names: seq<ChunkName>, original: seq<ChunkName>)
    requires original == []
    ensures Kept(names, original) == [] && Fresh(names, original) == names
  {
    if names != [] {
      NoneKept(names[1..], original);
    }
  }

  lemma {:induction false} AllKept(names: seq<ChunkName>, original: seq<ChunkName>)
    requires forall n | n in names :: n in original
    ensures Kept(names, original) == names && Fresh(names, original) == []
  {
    if names != [] {
      AllKept(names[1..], original);
    }
  }

  /** A new file is opened, written and closed, and the close is timed out. */
  function Writing(x: Bytes): seq<Event> {
    [OpenEvent, WriteEvent(x, 0), CloseEvent, ExpireEvent, TimedCloseEvent]
  }

  /** A file is opened and closed, and the close is timed out. */
  const LOOKING := [OpenEvent, CloseEvent, ExpireEvent, TimedCloseEvent]

  lemma FourSteps(k: Codec, s: Alone, e1: Event, e2: Event, e3: Event, e4: Event)
    ensures AloneAfter(k, s, [e1, e2, e3, e4]) == Next(k, Next(k, Next(k, Next(k, s, e1), e2), e3), e4)
  {
    hide Next;
    var s1 := Next(k, s, e1);
    assert [e1, e2, e3, e4][1..] == [e2, e3, e4] && [e2, e3, e4][1..] == [e3, e4] && [e3, e4][1..] == [e4]
      && [e4][1..] == [];
    assert AloneAfter(k, s, [e1, e2, e3, e4]) == AloneAfter(k, s1, [e2, e3, e4]);
    var s2 := Next(k, s1, e2);
    assert AloneAfter(k, s1, [e2, e3, e4]) == AloneAfter(k, s2, [e3, e4]);
    assert AloneAfter(k, s2, [e3, e4]) == AloneAfter(k, Next(k, s2, e3), [e4]);
    OneStep(k, Next(k, s2, e3), e4);
  }

  lemma OneStep(k: Codec, s: Alone, e: Event)
    ensures AloneAfter(k, s, [e]) == Next(k, s, e)
  {
    assert [e][1..] == [];
  }

  /** The timed close of a file that no handle is open on. */
  lemma TimesOut(k: Codec, s: Alone)
    requires s.file.data.Some? && s.file.data.value.openCount == 0 && s.file.fired == 1
    ensures var f := s.file; var dataMap := Sealed(k, f);
      Next(k, s, TimedCloseEvent).file == f.(dataMap := dataMap, skip := true, data := None, fired := 0,
        paid := f.paid + multiset(Fresh(dataMap.chunks, f.dataMap.chunks)),
        due := f.due + multiset(Kept(dataMap.chunks, f.dataMap.chunks)),
        superseded := if f.skip then f.superseded + Names(f.dataMap) else f.superseded)
  {
    hide Sealed, Kept, Fresh, WithChunks;
  }

  lemma WritingIs(k: Codec, x: Bytes)
    requires Lawful(k)
    ensures AloneAfter(k, NEW, Writing(x)).file ==
      File(k.seal(x), |x|, None, true, 0, 0, x, Names(k.seal(x)), multiset{}, multiset{}, multiset{})
  {
    assert Written([], x, 0) == x;
    var s1 := NEW.(file := NEW_FILE.(data := Some(Data(1, EMPTY_MAP, [], false))));
    var s2 := NEW.(file := s1.file.(data := Some(Data(1, EMPTY_MAP, x, true)), size := |x|, content := x));
    var s3 := NEW.(file := s2.file.(data := Some(Data(0, EMPTY_MAP, x, true)), waits := 1));
    var s4 := NEW.(file := s3.file.(waits := 0, fired := 1));
    assert Next(k, NEW, OpenEvent) == s1 && Next(k, s1, WriteEvent(x, 0)) == s2;
    assert Next(k, s2, CloseEvent) == s3 && Next(k, s3, ExpireEvent) == s4;
    TimesOut(k, s4);
    NoneKept(k.seal(x).chunks, []);
    hide Next, Lawful;
    FourSteps(k, NEW, OpenEvent, WriteEvent(x, 0), CloseEvent, ExpireEvent);
    OneStep(k, s4, TimedCloseEvent);
    assert Writing(x) == [OpenEvent, WriteEvent(x, 0), CloseEvent, ExpireEvent] + [TimedCloseEvent];
    AloneJoin(k, NEW, [OpenEvent, WriteEvent(x, 0), CloseEvent, ExpireEvent], [TimedCloseEvent]);
  }

  lemma LookingIs(k: Codec, s: Alone)
    requires s.file.data.None? && s.file.fired == 0
    ensures var f := s.file;
      AloneAfter(k, s, LOOKING).file == f.(skip := true, waits := 0, due := f.due + Names(f.dataMap),
        superseded := if f.skip then f.superseded + Names(f.dataMap) else f.superseded)
  {
    var f, d := s.file, Data(1, s.file.dataMap, k.open(s.file.dataMap, s.contents), false);
    var s1 := s.(file := f.(data := Some(d), waits := 0));
    var s2 := s.(file := f.(data := Some(d.(openCount := 0)), waits := 1));
    var s3 := s.(file := f.(data := Some(d.(openCount := 0)), waits := 0, fired := 1));
    assert Next(k, s, OpenEvent) == s1 && Next(k, s1, CloseEvent) == s2 && Next(k, s2, ExpireEvent) == s3;
    TimesOut(k, s3);
    AllKept(f.dataMap.chunks, f.dataMap.chunks);
    hide Next;
    FourSteps(k, s, OpenEvent, CloseEvent, ExpireEvent, TimedCloseEvent);
  }

  lemma SerialisedIs(k: Codec, s: Alone)
    requires s.file.data.None? && s.file.skip
    ensures Next(k, s, SerialiseEvent).file == s.file.(skip := false, stored := s.file.stored + Names(s.file.dataMap))
  {
    UnbufferedParts(k, s.file, s.contents);
  }

  lemma ReopenedIs(k: Codec, s: Alone)
    requires s.file.data.None? && s.file.skip
    ensures var f := Next(k, Next(k, s, OpenEvent), SerialiseEvent).file;
      && !f.skip && f.stored == s.file.stored + Names(s.file.dataMap) && f.due == s.file.due
      && f.superseded == s.file.superseded + Names(s.file.dataMap)
  {
    var t := Next(k, s, OpenEvent);
    FlushParts(k, t.file, t.contents, SerialiseEvent);
    FlushedIs(k, t.file);
    hide Kept, Fresh, WithChunks, FlushPuts, FlushIncrements, Flushed;
  }

  /** What the ledger of a file comes to that no timed close has paid for in advance. */
  lemma LedgerIs(f: File)
    requires !f.skip
    ensures Ledger(f) == f.stored + f.superseded && Owed(f) == f.stored
  {
    assert f.stored + multiset{} == f.stored;
  }

  lemma ReopeningIs(k: Codec, x: Bytes)
    requires Lawful(k)
    ensures var f := AloneAfter(k, NEW, Writing(x) + [OpenEvent, SerialiseEvent]).file; var names := Names(k.seal(x));
      !f.skip && f.due == multiset{} && f.stored == names && f.superseded == names
  {
    var s := AloneAfter(k, NEW, Writing(x));
    WritingIs(k, x);
    AloneJoin(k, NEW, Writing(x), [OpenEvent, SerialiseEvent]);
    ReopenedIs(k, s);
    hide Next, Lawful, Writing, Names;
    assert [OpenEvent, SerialiseEvent][1..] == [SerialiseEvent] && [SerialiseEvent][1..] == [];
    assert AloneAfter(k, s, [OpenEvent, SerialiseEvent]) == Next(k, Next(k, s, OpenEvent), SerialiseEvent);
    hide AloneAfter;
    NothingLess(Names(k.seal(x)));
  }

  lemma NothingLess<T>(a: multiset<T>)
    ensures multiset{} + a == a && a + multiset{} == a
  {
  }

  /** A new file is written and closed, its timed close runs, and it is opened again before its
      parent is stored: each of its chunks is then counted twice and stored once. */
  lemma ReopeningOvercounts(k: Codec, x: Bytes)
    requires Lawful(k)
    ensures var run := ActsOf(Writing(x) + [OpenEvent, SerialiseEvent]);
      && IsRun(NEW_WORLD, run)
      && After(k, NEW_WORLD, run).refs == Names(k.seal(x)) + Names(k.seal(x))
      && OwedTotal(After(k, NEW_WORLD, run).files) == Names(k.seal(x))
  {
    var events := Writing(x) + [OpenEvent, SerialiseEvent];
    ReopeningIs(k, x);
    AloneRefs(k, events);
    LedgerIs(AloneAfter(k, NEW, events).file);
    hide *;
    NothingLess(After(k, NEW_WORLD, ActsOf(events)).refs);
  }

  /** Written, stored, opened and closed again, and stored again before the increments. */
  function TooSoon(x: Bytes): seq<Event> {
    Writing(x) + [SerialiseEvent] + LOOKING + [SerialiseEvent]
  }

  lemma TooSoonJoins(k: Codec, x: Bytes)
    ensures AloneAfter(k, NEW, TooSoon(x)) ==
      Next(k, AloneAfter(k, Next(k, AloneAfter(k, NEW, Writing(x)), SerialiseEvent), LOOKING), SerialiseEvent)
  {
    var s1 := AloneAfter(k, NEW, Writing(x));
    var s2 := Next(k, s1, SerialiseEvent);
    OneStep(k, s1, SerialiseEvent);
    OneStep(k, AloneAfter(k, s2, LOOKING), SerialiseEvent);
    AloneJoin(k, NEW, Writing(x), [SerialiseEvent]);
    AloneJoin(k, NEW, Writing(x) + [SerialiseEvent], LOOKING);
    AloneJoin(k, NEW, Writing(x) + [SerialiseEvent] + LOOKING, [SerialiseEvent]);
    hide Next, AloneAfter, Writing;
  }

  lemma TooSoonIs(k: Codec, x: Bytes)
    requires Lawful(k)
    ensures var f := AloneAfter(k, NEW, TooSoon(x)).file; var names := Names(k.seal(x));
      !f.skip && f.due == names && f.stored == names + names && f.superseded == multiset{}
  {
    var s1 := AloneAfter(k, NEW, Writing(x));
    var s2 := Next(k, s1, SerialiseEvent);
    var s3 := AloneAfter(k, s2, LOOKING);
    WritingIs(k, x);
    SerialisedIs(k, s1);
    LookingIs(k, s2);
    SerialisedIs(k, s3);
    TooSoonJoins(k, x);
    hide *;
    NothingLess(Names(k.seal(x)));
  }

  /** A new file is written and stored; it is opened and closed again, and the timed close has
      collected its chunks and not incremented them yet when its parent is stored once more: each of
      its chunks is then stored twice and counted once. */
  lemma SerialisedTooSoon(k: Codec, x: Bytes)
    requires Lawful(k)
    ensures var run := ActsOf(TooSoon(x));
      && IsRun(NEW_WORLD, run)
      && After(k, NEW_WORLD, run).refs == Names(k.seal(x))
      && StoredTotal(After(k, NEW_WORLD, run).files) == Names(k.seal(x)) + Names(k.seal(x))
  {
    TooSoonIs(k, x);
    AloneRefs(k, TooSoon(x));
    LedgerIs(AloneAfter(k, NEW, TooSoon(x)).file);
    hide *;
    var names := Names(k.seal(x));
    NothingLess(names + names);
    SameRest(After(k, NEW_WORLD, ActsOf(TooSoon(x))).refs, names, names);
  }

  lemma SameRest<T>(a: multiset<T>, b: multiset<T>, c: multiset<T>)
    requires a + b == c + b
    ensures a == c
  {
    assert a == (a + b) - b && c == (c + b) - b;
  }

  // ----- an open file is a plain sequence of bytes -----

  /** What a step of file a does to the plain content of file i: a write or truncation counts
      while the file has a buffer, and nothing else counts. */
  function PlainStep(f: File, mine: bool, e: Event, x: Bytes): Bytes {
    if !mine || f.data.None? then x
    else match e
      case WriteEvent(data, offset) =>
        seq(LengthWritten(x, data, offset), i requires 0 <= i => ByteWritten(x, data, offset, i))
      case TruncateEvent(size) => seq(size, i requires 0 <= i => if i < |x| then x[i] else 0)
      case _ => x
  }

  ghost function Plain(k: Codec, w: World, run: seq<Act>, i: nat, x: Bytes): Bytes
    requires IsRun(w, run) && i < |w.files|
    decreases |run|
  {
    if run == [] then x
    else Plain(k, ApplyAt(k, w, run[0].i, run[0].event), run[1..], i,
               PlainStep(w.files[i], run[0].i == i, run[0].event, x))
  }

  /** What the file holds: the buffer's text, or what its data map opens to. */
  ghost function Holds(k: Codec, f: File, contents: map<ChunkName, Bytes>): Bytes {
    match f.data
    case Some(d) => d.text
    case None => k.open(f.dataMap, contents)
  }

  lemma HoldsContent(k: Codec, f: File, contents: map<ChunkName, Bytes>)
    requires Lawful(k) && Good(k, f, contents)
    ensures Holds(k, f, contents) == f.content
  {
    if f.data.None? {
      MapOpens(k, f.dataMap, f.content, contents);
    }
  }

  lemma OwnStepIsPlain(k: Codec, f: File, contents: map<ChunkName, Bytes>, e: Event)
    ensures Apply(k, f, contents, e).content == PlainStep(f, true, e, f.content)
  {
    match e
    case WriteEvent(data, offset) =>
      WriteIs(k, f, contents, data, offset);
      WrittenIsPlain(f, f.content, data, offset);
      hide Apply, Written, PlainStep;
    case TruncateEvent(size) =>
      TruncateIs(k, f, contents, size);
      TruncatedIsPlain(f, f.content, size);
      hide Apply, Truncated, PlainStep;
    case _ =>
  }

  lemma WrittenIsPlain(f: File, x: Bytes, data: Bytes, offset: nat)
    ensures PlainStep(f, true, WriteEvent(data, offset), x) == if f.data.None? then x else Written(x, data, offset)
  {
    WrittenBytes(x, data, offset);
    hide Written;
  }

  lemma TruncatedIsPlain(f: File, x: Bytes, size: nat)
    ensures PlainStep(f, true, TruncateEvent(size), x) == if f.data.None? then x else Truncated(x, size)
  {
    TruncatedBytes(x, size);
    hide Truncated;
  }

  lemma StepIsPlain(k: Codec, w: World, a: Act, i: nat)
    requires a.i < |w.files| && i < |w.files|
    ensures ApplyAt(k, w, a.i, a.event).files[i].content == PlainStep(w.files[i], a.i == i, a.event, w.files[i].content)
  {
    if a.i == i {
      OwnStepIsPlain(k, w.files[i], w.contents, a.event);
    } else {
      assert ApplyAt(k, w, a.i, a.event).files[i] == w.files[i];
    }
  }

  /** Flushes, timed closes, reopenings and whatever other files do leave the content as the plain
      writes and truncations make it; the size is its length, and its chunks are in the store. */
  lemma {:induction false} RefinesPlainFile(k: Codec, w: World, others: multiset<ChunkName>, run: seq<Act>, i: nat)
    requires Lawful(k) && GoodWorld(k, w, others) && IsRun(w, run) && i < |w.files|
    ensures var r := After(k, w, run);
      && Holds(k, r.files[i], r.contents) == Plain(k, w, run, i, Holds(k, w.files[i], w.contents))
      && r.files[i].size == |Holds(k, r.files[i], r.contents)|
      && Reachable(k, r.files[i].dataMap, r.contents)
    decreases |run|
  {
    assert Good(k, w.files[i], w.contents);
    HoldsContent(k, w.files[i], w.contents);
    if run != [] {
      var next := ApplyAt(k, w, run[0].i, run[0].event);
      StepIsGoodWorld(k, w, others, run[0].i, run[0].event);
      StepIsPlain(k, w, run[0], i);
      assert Good(k, next.files[i], next.contents);
      HoldsContent(k, next.files[i], next.contents);
      RefinesPlainFile(k, next, others, run[1..], i);
    }
  }

  // ----- buffer lifetime -----

  function OpenCount(f: File): nat {
    if f.data.Some? then f.data.value.openCount else 0
  }

  function Counted(count: nat, mine: bool, e: Event): nat {
    if !mine then count
    else if e.OpenEvent? then count + 1
    else if e.CloseEvent? && count > 0 then count - 1
    else count
  }

  /** Opens minus closes, where closing a closed file does not count. */
  function Balance(count: nat, run: seq<Act>, i: nat): nat
    decreases |run|
  {
    if run == [] then count else Balance(Counted(count, run[0].i == i, run[0].event), run[1..], i)
  }

  lemma StepIsCounted(k: Codec, w: World, a: Act, i: nat)
    requires a.i < |w.files| && i < |w.files|
    ensures OpenCount(ApplyAt(k, w, a.i, a.event).files[i]) == Counted(OpenCount(w.files[i]), a.i == i, a.event)
  {
    if a.i == i {
      OwnStepIsCounted(k, w.files[i], w.contents, a.event);
    } else {
      assert ApplyAt(k, w, a.i, a.event).files[i] == w.files[i];
    }
  }

  lemma OwnStepIsCounted(k: Codec, f: File, contents: map<ChunkName, Bytes>, e: Event)
    ensures OpenCount(Apply(k, f, contents, e)) == Counted(OpenCount(f), true, e)
  {
  }

  /** Flushes keep the open count, and no timer callback, however stale, destroys the buffer of a
      file that is open. */
  lemma {:induction false} OpenCountIsBalance(k: Codec, w: World, run: seq<Act>, i: nat)
    requires IsRun(w, run) && i < |w.files|
    ensures OpenCount(After(k, w, run).files[i]) == Balance(OpenCount(w.files[i]), run, i)
    ensures Balance(OpenCount(w.files[i]), run, i) > 0 ==> After(k, w, run).files[i].data.Some?
    decreases |run|
  {
    if run != [] {
      StepIsCounted(k, w, run[0], i);
      OpenCountIsBalance(k, ApplyAt(k, w, run[0].i, run[0].event), run[1..], i);
    }
  }

  // ----- lawful encryptors exist -----

  function NameOf(x: Bytes): ChunkName {
    seq(|x|, i requires 0 <= i < |x| => x[i] as int as char)
  }

  function ChunkOf(n: ChunkName): Bytes {
    seq(|n|, i requires 0 <= i < |n| => if n[i] as int < 256 then n[i] as int as Byte else 0)
  }

  /** One chunk for each content that is not empty, named by its bytes. */
  const ONE_CHUNK := Codec(
    (x: Bytes) => if x == [] then EMPTY_MAP else DataMap([NameOf(x)], []),
    (n: ChunkName) => ChunkOf(n),
    (dataMap: DataMap, contents: map<ChunkName, Bytes>) =>
      if dataMap.chunks == [] || dataMap.chunks[0] !in contents then [] else contents[dataMap.chunks[0]])

  /** The law asks for nothing impossible. */
  lemma LawfulCodecExists()
    ensures Lawful(ONE_CHUNK)
  {
    forall x: Bytes, contents: map<ChunkName, Bytes> | Reachable(ONE_CHUNK, ONE_CHUNK.seal(x), contents)
      ensures ONE_CHUNK.open(ONE_CHUNK.seal(x), contents) == x
    {
      if x != [] {
        assert ONE_CHUNK.seal(x).chunks[0] == NameOf(x);
        assert NameOf(x) in ONE_CHUNK.seal(x).chunks;
        assert ChunkOf(NameOf(x)) == x;
      }
    }
  }
}
