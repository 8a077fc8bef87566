/** The delayed store of a directory, as a state machine. A change arms a timer; the timer's
    handler stores the directory. Handlers of one directory may run on several threads at once, so
    the parts of ProcessTimer and of the listener's Put are steps of their own. */
module DirectoryState {
  import opened Wrappers
  import opened MetaData
  import opened Listing

  // ----- stored listings -----

  datatype ProtoDirectory = ProtoDirectory(directoryId: DirectoryId, maxVersions: nat, children: seq<ProtoPath>)

  /** An encrypted data map. Its name is a hash of its content, so the content stands for both. */
  datatype Blob = Blob(parentKey: DirectoryId, directoryKey: DirectoryId, listing: ProtoDirectory)

  datatype VersionName = VersionName(index: nat, id: Blob)

  function ProtoChildren(s: Children): seq<ProtoPath> {
    seq(|s|, i requires 0 <= i < |s| => ToProto(s[i]))
  }

  /** The children loop of Directory::Initialise; None is parsing_error. */
  function ParseChildren(entries: seq<ProtoPath>): (r: Option<Children>)
    ensures r.Some? ==> |r.value| == |entries|
    ensures r.Some? <==> forall i | 0 <= i < |entries| :: FromProto(entries[i]).Some?
    ensures r.Some? ==> forall i | 0 <= i < |entries| :: FromProto(entries[i]) == Some(r.value[i])
  {
    if entries == [] then Some([])
    else
      assert forall i | 0 <= i < |entries| :: entries[i] == if i == 0 then entries[0] else entries[1..][i - 1];
      var rest := ParseChildren(entries[1..]);
      assert rest.None? ==>
        (exists i :: 0 <= i < |entries| - 1 && FromProto(entries[1..][i]).None? && entries[i + 1] == entries[1..][i]);
      if FromProto(entries[0]).None? || rest.None? then None
      else Some([FromProto(entries[0]).value] + rest.value)
  }

  ghost predicate Storable(s: Children) {
    Sorted(s) && forall m | m in s :: WellFormed(m) && Nameable(m.name)
  }

  /** Reading back a stored listing and sorting it gives the listing that was stored. */
  lemma ListingRoundTrip(s: Children)
    requires Storable(s)
    ensures ParseChildren(ProtoChildren(s)).Some?
    ensures Sort(ParseChildren(ProtoChildren(s)).value) == s
  {
    forall i | 0 <= i < |s| ensures FromProto(ProtoChildren(s)[i]) == Some(s[i]) {
      RoundTrip(s[i]);
    }
    assert ParseChildren(ProtoChildren(s)).value == s;
    SortOfSorted(s);
  }

  // ----- the state -----

  datatype StoreState = Pending | Ongoing | Complete

  /** A version as it is given out under the mutex, with the one the storage is to put it below. */
  datatype Outgoing = Outgoing(parent: Option<VersionName>, version: VersionName)

  /** The fields of a Directory that storing involves, its timer's waits and its handlers:
      queued with the timer cancelled (aborted) or expired (fired), and running, by how far they
      have got: before the snapshot, with it, with storeState set as well, with the encrypted data
      map, having counted no versions (initial) or some (adding), with a version given out and not
      put yet, and past the listener's Put. failed counts the handlers that an exception has ended.
      unsaved records that a change is in no serialised snapshot yet. */
  datatype Dir = Dir(
    parentId: DirectoryId,
    directoryId: DirectoryId,
    children: Children,
    versions: seq<VersionName>,
    maxVersions: nat,
    storeState: StoreState,
    newParent: Option<DirectoryId>,
    pendingCount: int,
    waits: nat,
    aborted: nat,
    fired: nat,
    starting: nat,
    snapped: seq<ProtoDirectory>,
    serialised: seq<ProtoDirectory>,
    encrypted: seq<Blob>,
    initial: seq<Blob>,
    adding: seq<Blob>,
    putting: seq<Outgoing>,
    finishing: nat,
    failed: nat,
    unsaved: bool)

  function Snapshot(d: Dir): ProtoDirectory {
    ProtoDirectory(d.directoryId, d.maxVersions, ProtoChildren(d.children))
  }

  /** A directory as its first constructor leaves it, before anything is scheduled. */
  function Blank(parentId: DirectoryId, directoryId: DirectoryId, maxVersions: nat): Dir {
    Dir(parentId, directoryId, [], [], maxVersions, Complete, None, 0, 0, 0, 0, 0, [], [], [], [], [], [], 0, 0, false)
  }

  function Created(parentId: DirectoryId, directoryId: DirectoryId, maxVersions: nat): Dir {
    Schedule(Blank(parentId, directoryId, maxVersions))
  }

  /** A directory as it is after parsing a stored listing. */
  function Loaded(parentId: DirectoryId, directoryId: DirectoryId, children: Children, versions: seq<VersionName>,
                  maxVersions: nat): Dir {
    Blank(parentId, directoryId, maxVersions).(children := children, versions := versions)
  }

  // ----- steps -----

  /** DoScheduleForStoring: expires_from_now cancels what waits, async_wait arms one wait. */
  function Schedule(d: Dir): Dir {
    d.(aborted := d.aborted + d.waits, waits := 1, pendingCount := d.pendingCount + 1, storeState := Pending,
       unsaved := true)
  }

  function Change(d: Dir, children: Children): Dir {
    Schedule(d.(children := children))
  }

  function Expire(d: Dir): Dir {
    d.(fired := d.fired + d.waits, waits := 0)
  }

  function StartAborted(d: Dir): Dir
    requires d.aborted > 0
  {
    d.(aborted := d.aborted - 1, finishing := d.finishing + 1)
  }

  function StartFired(d: Dir): Dir
    requires d.fired > 0
  {
    d.(fired := d.fired - 1, starting := d.starting + 1)
  }

  /** The children loop of Directory::Serialise, under the mutex: a snapshot. */
  function TakeSnapshot(d: Dir): Dir
    requires d.starting > 0
  {
    d.(starting := d.starting - 1, snapped := d.snapped + [Snapshot(d)], unsaved := false)
  }

  /** The end of Directory::Serialise, after the mutex has been released. */
  function MarkOngoing(d: Dir, i: nat): Dir
    requires i < |d.snapped|
  {
    d.(snapped := Without(d.snapped, i), serialised := d.serialised + [d.snapped[i]], storeState := Ongoing)
  }

  /** The whole of Directory::Serialise. */
  function Serialise(d: Dir): Dir
    requires d.starting > 0
  {
    MarkOngoing(TakeSnapshot(d), |d.snapped|)
  }

  function Without<T>(s: seq<T>, i: nat): seq<T>
    requires i < |s|
  {
    s[..i] + s[i + 1..]
  }

  /** Put reads the parent id only now. */
  function Encrypt(d: Dir, i: nat): Dir
    requires i < |d.serialised|
  {
    d.(serialised := Without(d.serialised, i),
       encrypted := d.encrypted + [Blob(d.parentId, d.directoryId, d.serialised[i])])
  }

  /** InitialiseVersions on an empty deque, AddNewVersion otherwise. */
  function WithVersion(versions: seq<VersionName>, maxVersions: nat, id: Blob): seq<VersionName> {
    if versions == [] then [VersionName(0, id)]
    else
      var longer := [VersionName(versions[0].index + 1, id)] + versions;
      if |longer| > maxVersions then longer[..|longer| - 1] else longer
  }

  /** VersionsCount, read without the mutex; the encrypted data map is in the storage by now. */
  function CountVersions(d: Dir, i: nat): Dir
    requires i < |d.encrypted|
  {
    var e := d.(encrypted := Without(d.encrypted, i));
    if d.versions == [] then e.(initial := d.initial + [d.encrypted[i]]) else e.(adding := d.adding + [d.encrypted[i]])
  }

  function FrontOf(versions: seq<VersionName>): Option<VersionName> {
    if versions == [] then None else Some(versions[0])
  }

  /** The version is the deque's new front, and is to be put below the one that was. */
  function GiveOut(d: Dir, id: Blob): Dir {
    var versions := WithVersion(d.versions, d.maxVersions, id);
    d.(versions := versions, storeState := Complete,
       putting := d.putting + [Outgoing(FrontOf(d.versions), versions[0])])
  }

  /** InitialiseVersions, which throws if another handler has been first; nothing catches that. */
  function Initialise(d: Dir, i: nat): Dir
    requires i < |d.initial|
  {
    var e := d.(initial := Without(d.initial, i));
    if d.versions == [] then GiveOut(e, d.initial[i]) else e.(storeState := Complete, failed := d.failed + 1)
  }

  /** AddNewVersion. */
  function AddVersion(d: Dir, i: nat): Dir
    requires i < |d.adding|
  {
    GiveOut(d.(adding := Without(d.adding, i)), d.adding[i])
  }

  /** CreateVersionTree or PutVersion has returned. */
  function Land(d: Dir, i: nat): Dir
    requires i < |d.putting|
  {
    d.(putting := Without(d.putting, i), finishing := d.finishing + 1)
  }

  /** The storage has thrown, for the encrypted data map ... */
  function FailBlob(d: Dir, i: nat): Dir
    requires i < |d.encrypted|
  {
    d.(encrypted := Without(d.encrypted, i), failed := d.failed + 1)
  }

  /** ... or for the version. */
  function FailVersion(d: Dir, i: nat): Dir
    requires i < |d.putting|
  {
    d.(putting := Without(d.putting, i), failed := d.failed + 1)
  }

  /** The end of ProcessTimer. */
  function Finish(d: Dir): Dir
    requires d.finishing > 0
  {
    (match d.newParent case Some(p) => d.(parentId := p, newParent := None) case None => d)
      .(finishing := d.finishing - 1, pendingCount := d.pendingCount - 1)
  }

  /** The whole of the listener's Put, with nothing in between and nothing thrown. */
  function Put(d: Dir): Dir
    requires d.starting > 0
  {
    d.(starting := d.starting - 1, storeState := Complete, unsaved := false, finishing := d.finishing + 1,
       versions := WithVersion(d.versions, d.maxVersions, Blob(d.parentId, d.directoryId, Snapshot(d))))
  }

  lemma WithoutLast<T>(s: seq<T>, x: T)
    ensures Without(s + [x], |s|) == s
  {
  }

  /** The steps of a handler that nothing comes between: what it counts is still so when it commits. */
  function PutInParts(d: Dir): Dir
    requires d.starting > 0
  {
    var s := Serialise(d);
    var e := Encrypt(s, |s.serialised| - 1);
    var c := CountVersions(e, |e.encrypted| - 1);
    var g := if d.versions == [] then Initialise(c, |c.initial| - 1) else AddVersion(c, |c.adding| - 1);
    Land(g, |g.putting| - 1)
  }

  lemma PutIsItsParts(d: Dir)
    requires d.starting > 0
    ensures Put(d) == PutInParts(d)
  {
    var blob := Blob(d.parentId, d.directoryId, Snapshot(d));
    EncryptedIs(d);
    WithoutLast(d.encrypted, blob);
    WithoutLast(d.initial, blob);
    WithoutLast(d.adding, blob);
    WithoutLast(d.putting, Outgoing(FrontOf(d.versions), WithVersion(d.versions, d.maxVersions, blob)[0]));
    hide Snapshot, Without, Serialise, Encrypt, FrontOf;
  }

  lemma PutIs(d: Dir)
    requires d.starting > 0
    ensures Put(d) == d.(starting := d.starting - 1, storeState := Complete, unsaved := false,
                         finishing := d.finishing + 1,
      versions := WithVersion(d.versions, d.maxVersions, Blob(d.parentId, d.directoryId, Snapshot(d))))
    ensures Put(d).versions != [] && Put(d).versions[0].id == Blob(d.parentId, d.directoryId, Snapshot(d))
  {
  }

  /** The first half of Put. */
  lemma EncryptedIs(d: Dir)
    requires d.starting > 0
    ensures |Serialise(d).serialised| == |d.serialised| + 1
    ensures Encrypt(Serialise(d), |d.serialised|) == d.(starting := d.starting - 1, storeState := Ongoing,
                                                        unsaved := false,
      encrypted := d.encrypted + [Blob(d.parentId, d.directoryId, Snapshot(d))])
  {
    WithoutLast(d.snapped, Snapshot(d));
    WithoutLast(d.serialised, Snapshot(d));
    hide Snapshot, Without;
  }

  /** StoreImmediatelyIfPending, up to the inline call of ProcessTimer. */
  function StoreNow(d: Dir): Dir {
    if d.storeState != Pending || d.waits == 0 then d
    else d.(aborted := d.aborted + d.waits, waits := 0, pendingCount := d.pendingCount + 1, starting := d.starting + 1)
  }

  function SetNewParent(d: Dir, parentId: DirectoryId): Dir {
    d.(newParent := Some(parentId))
  }

  /** e is d after a store, run by a handler that the expired timer queued or run inline. */
  ghost predicate IsStored(d: Dir, e: Dir) {
    || (d.fired > 0 && e == Finish(Put(StartFired(d))))
    || (d.storeState == Pending && d.waits > 0 && e == Finish(Put(StoreNow(d))))
  }

  datatype Event =
    | ChangeEvent(children: Children)
    | ExpireEvent
    | StartAbortedEvent
    | StartFiredEvent
    | SnapshotEvent
    | MarkEvent(i: nat)
    | EncryptEvent(i: nat)
    | CountEvent(i: nat)
    | InitialiseEvent(i: nat)
    | AddEvent(i: nat)
    | LandEvent(i: nat)
    | FailBlobEvent(i: nat)
    | FailVersionEvent(i: nat)
    | PutEvent
    | FinishEvent
    | StoreNowEvent
    | SetNewParentEvent(parentId: DirectoryId)

  predicate Enabled(d: Dir, e: Event) {
    match e
    case StartAbortedEvent => d.aborted > 0
    case StartFiredEvent => d.fired > 0
    case SnapshotEvent => d.starting > 0
    case MarkEvent(i) => i < |d.snapped|
    case EncryptEvent(i) => i < |d.serialised|
    case CountEvent(i) => i < |d.encrypted|
    case InitialiseEvent(i) => i < |d.initial|
    case AddEvent(i) => i < |d.adding|
    case LandEvent(i) => i < |d.putting|
    case FailBlobEvent(i) => i < |d.encrypted|
    case FailVersionEvent(i) => i < |d.putting|
    case PutEvent => d.starting > 0
    case FinishEvent => d.finishing > 0
    case _ => true
  }

  function Apply(d: Dir, e: Event): Dir
    requires Enabled(d, e)
  {
    match e
    case ChangeEvent(children) => Change(d, children)
    case ExpireEvent => Expire(d)
    case StartAbortedEvent => StartAborted(d)
    case StartFiredEvent => StartFired(d)
    case SnapshotEvent => TakeSnapshot(d)
    case MarkEvent(i) => MarkOngoing(d, i)
    case EncryptEvent(i) => Encrypt(d, i)
    case CountEvent(i) => CountVersions(d, i)
    case InitialiseEvent(i) => Initialise(d, i)
    case AddEvent(i) => AddVersion(d, i)
    case LandEvent(i) => Land(d, i)
    case FailBlobEvent(i) => FailBlob(d, i)
    case FailVersionEvent(i) => FailVersion(d, i)
    case PutEvent => Put(d)
    case FinishEvent => Finish(d)
    case StoreNowEvent => StoreNow(d)
    case SetNewParentEvent(p) => SetNewParent(d, p)
  }

  // ----- runs -----

  predicate IsRun(d: Dir, run: seq<Event>)
    decreases |run|
  {
    run == [] || (Enabled(d, run[0]) && IsRun(Apply(d, run[0]), run[1..]))
  }

  function After(d: Dir, run: seq<Event>): Dir
    requires IsRun(d, run)
    decreases |run|
  {
    if run == [] then d else After(Apply(d, run[0]), run[1..])
  }

  // ----- every run -----

  /** The armed wait, and every handler that is queued or running. */
  function Handlers(d: Dir): nat {
    d.waits + d.aborted + d.fired + d.starting + |d.snapped| + |d.serialised| + |d.encrypted| + |d.initial| + |d.adding|
      + |d.putting| + d.finishing
  }

  /** pendingCount counts these, and every handler that an exception has ended; at most one wait is
      armed, so cancelling never cancels more than one. */
  ghost predicate Counted(d: Dir) {
    d.waits <= 1 && d.pendingCount == Handlers(d) + d.failed
  }

  /** A change in no snapshot has an armed wait or a successful handler yet to serialise. */
  ghost predicate NotLost(d: Dir) {
    d.unsaved ==> d.waits > 0 || d.fired > 0 || d.starting > 0
  }

  predicate IsPartOfPut(e: Event) {
    || e.SnapshotEvent? || e.MarkEvent? || e.EncryptEvent? || e.CountEvent? || e.InitialiseEvent? || e.AddEvent?
    || e.LandEvent? || e.FailBlobEvent? || e.FailVersionEvent?
  }

  /** How far the handlers have to go. */
  function Measure(d: Dir): nat {
    9 * d.waits + 8 * d.fired + 7 * d.starting + 6 * |d.snapped| + 5 * |d.serialised| + 4 * |d.encrypted|
      + 3 * |d.initial| + 3 * |d.adding| + 2 * |d.putting| + 2 * d.aborted + d.finishing
  }

  /** What a step inside Put may change of what is counted. */
  ghost predicate StepsOn(d: Dir, f: Dir) {
    && f.waits == d.waits && f.aborted == d.aborted && f.fired == d.fired && f.pendingCount == d.pendingCount
    && Measure(f) < Measure(d) && Handlers(f) + f.failed == Handlers(d) + d.failed
  }

  lemma WithoutSize<T>(s: seq<T>, i: nat)
    requires i < |s|
    ensures |Without(s, i)| == |s| - 1
  {
  }

  lemma SerialisingSteps(d: Dir, e: Event)
    requires Enabled(d, e) && (e.SnapshotEvent? || e.MarkEvent? || e.EncryptEvent?)
    ensures StepsOn(d, Apply(d, e))
  {
    if e.MarkEvent? { WithoutSize(d.snapped, e.i); }
    if e.EncryptEvent? { WithoutSize(d.serialised, e.i); }
    hide Snapshot, Without;
  }

  lemma CountingSteps(d: Dir, e: Event)
    requires Enabled(d, e) && (e.CountEvent? || e.FailBlobEvent?)
    ensures StepsOn(d, Apply(d, e))
  {
    WithoutSize(d.encrypted, e.i);
    hide Without, Put, Schedule, Initialise, AddVersion, StoreNow, Encrypt, MarkOngoing, TakeSnapshot;
  }

  lemma CommittingSteps(d: Dir, e: Event)
    requires Enabled(d, e) && (e.InitialiseEvent? || e.AddEvent?)
    ensures StepsOn(d, Apply(d, e))
  {
    WithoutSize(if e.InitialiseEvent? then d.initial else d.adding, e.i);
    hide WithVersion, Without, Put, Schedule, StoreNow, Encrypt, MarkOngoing, TakeSnapshot, CountVersions;
  }

  lemma LandingSteps(d: Dir, e: Event)
    requires Enabled(d, e) && (e.LandEvent? || e.FailVersionEvent? || e.PutEvent?)
    ensures StepsOn(d, Apply(d, e))
  {
    hide Snapshot, WithVersion;
    if e.PutEvent? {
      PutIs(d);
      hide Put;
    }
  }

  lemma PutStepSizes(d: Dir, e: Event)
    requires Enabled(d, e) && (IsPartOfPut(e) || e.PutEvent?)
    ensures StepsOn(d, Apply(d, e))
  {
    hide Apply, StepsOn;
    if e.SnapshotEvent? || e.MarkEvent? || e.EncryptEvent? {
      SerialisingSteps(d, e);
    } else if e.CountEvent? || e.FailBlobEvent? {
      CountingSteps(d, e);
    } else if e.InitialiseEvent? || e.AddEvent? {
      CommittingSteps(d, e);
    } else {
      LandingSteps(d, e);
    }
  }

  /** Inside Put nothing becomes unsaved, and the snapshot alone takes a handler from before it. */
  lemma PutStepKeeps(d: Dir, e: Event)
    requires Enabled(d, e) && (IsPartOfPut(e) || e.PutEvent?)
    ensures var f := Apply(d, e); f.unsaved ==> d.unsaved && f.starting == d.starting
  {
    hide Snapshot, WithVersion, Without;
    if e.PutEvent? {
      PutIs(d);
      hide Put;
    }
  }

  lemma StepCounts(d: Dir, e: Event)
    requires Counted(d) && NotLost(d) && Enabled(d, e)
    ensures Counted(Apply(d, e)) && NotLost(Apply(d, e))
  {
    if IsPartOfPut(e) || e.PutEvent? {
      PutStepSizes(d, e);
      PutStepKeeps(d, e);
      hide Apply, Measure, Handlers;
    } else {
      hide Put, Without, Snapshot;
    }
  }

  lemma {:induction false} EveryRun(d: Dir, run: seq<Event>)
    requires Counted(d) && NotLost(d) && IsRun(d, run)
    ensures Counted(After(d, run)) && NotLost(After(d, run))
    decreases |run|
  {
    if run != [] {
      StepCounts(d, run[0]);
      hide Apply, Counted, NotLost, Enabled;
      EveryRun(Apply(d, run[0]), run[1..]);
    }
  }

  /** The deque's indexes fall by one from the front. */
  ghost predicate Descending(versions: seq<VersionName>) {
    forall i | 0 <= i < |versions| :: versions[i].index == versions[0].index - i
  }

  function Max(a: int, b: int): int {
    if a < b then b else a
  }

  lemma StepVersions(d: Dir, e: Event)
    requires Descending(d.versions) && Enabled(d, e)
    ensures Descending(Apply(d, e).versions) && Apply(d, e).maxVersions == d.maxVersions
    ensures |Apply(d, e).versions| <= Max(|d.versions|, Max(d.maxVersions, 1))
  {
    hide Snapshot, Without;
  }

  lemma {:induction false} VersionsEveryRun(d: Dir, run: seq<Event>)
    requires Descending(d.versions) && IsRun(d, run)
    ensures Descending(After(d, run).versions)
    ensures |After(d, run).versions| <= Max(|d.versions|, Max(d.maxVersions, 1))
    ensures After(d, run).maxVersions == d.maxVersions
    decreases |run|
  {
    if run != [] {
      StepVersions(d, run[0]);
      hide Apply, Descending, Enabled;
      VersionsEveryRun(Apply(d, run[0]), run[1..]);
    }
  }

  // ----- runs in which Put is one step -----

  predicate IsAtomic(run: seq<Event>) {
    forall e | e in run :: !IsPartOfPut(e)
  }

  /** What holds between whole Puts: an unsaved change is also visible in storeState, and without
      one the newest version is the directory as it is. */
  ghost predicate Settled(d: Dir) {
    && d.snapped == [] && d.serialised == [] && d.encrypted == [] && d.initial == [] && d.adding == []
    && d.storeState != Ongoing
    && (d.unsaved ==> d.storeState == Pending)
    && (!d.unsaved ==> d.versions != [] && d.versions[0].id.listing == Snapshot(d))
  }

  lemma StepSettles(d: Dir, e: Event)
    requires Counted(d) && NotLost(d) && Settled(d) && Enabled(d, e)
    requires !IsPartOfPut(e)
    ensures Settled(Apply(d, e))
  {
    hide ProtoChildren;
  }

  lemma {:induction false} AtomicRun(d: Dir, run: seq<Event>)
    requires Counted(d) && NotLost(d) && Settled(d) && IsRun(d, run) && IsAtomic(run)
    ensures Settled(After(d, run))
    decreases |run|
  {
    if run != [] {
      StepCounts(d, run[0]);
      StepSettles(d, run[0]);
      hide Apply, Counted, NotLost, Settled, Enabled;
      AtomicRun(Apply(d, run[0]), run[1..]);
    }
  }

  /** Once every handler has finished, the newest version is the directory as it is. */
  lemma QuietIsStored(d: Dir, run: seq<Event>)
    requires Counted(d) && NotLost(d) && Settled(d) && IsRun(d, run) && IsAtomic(run)
    requires After(d, run).pendingCount == 0
    ensures After(d, run).versions != [] && After(d, run).versions[0].id.listing == Snapshot(After(d, run))
  {
    EveryRun(d, run);
    AtomicRun(d, run);
  }

  /** With no fired handler outstanding, StoreImmediatelyIfPending starts a store exactly when
      there is an unsaved change and a wait, or a wait for a scheduled store; then Put saves it. */
  lemma StoreNowSaves(d: Dir)
    requires Counted(d) && NotLost(d) && Settled(d) && d.fired == 0 && d.starting == 0
    ensures d.unsaved ==> StoreNow(d).starting == 1 && Settled(Put(StoreNow(d))) && !Put(StoreNow(d)).unsaved
    ensures StoreNow(d).starting == 0 ==> StoreNow(d) == d && !d.unsaved
  {
  }

  // ----- when Put is not one step -----

  lemma RunOfOne(d: Dir, e: Event, rest: seq<Event>)
    requires Enabled(d, e) && IsRun(Apply(d, e), rest)
    ensures IsRun(d, [e] + rest) && After(d, [e] + rest) == After(Apply(d, e), rest)
  {
    assert ([e] + rest)[1..] == rest;
  }

  lemma {:induction false} OneMoreStep(d: Dir, run: seq<Event>, e: Event)
    requires IsRun(d, run) && Enabled(After(d, run), e)
    ensures IsRun(d, run + [e]) && After(d, run + [e]) == Apply(After(d, run), e)
    decreases |run|
  {
    if run == [] {
      assert [] + [e] == [e] && [e][1..] == [];
    } else {
      assert (run + [e])[1..] == run[1..] + [e];
      OneMoreStep(Apply(d, run[0]), run[1..], e);
    }
  }

  /** A change, and the store it leads to up to its last step. */
  function ChangedAndPut(d: Dir, c: Children): Dir {
    Put(StartFired(Expire(Change(d, c))))
  }

  lemma ChangedAndPutIs(d: Dir, c: Children)
    ensures var e := ChangedAndPut(d, c); var listing := Snapshot(d.(children := c));
      && e == d.(children := c, versions := WithVersion(d.versions, d.maxVersions,
                                                        Blob(d.parentId, d.directoryId, listing)),
                 storeState := Complete, pendingCount := d.pendingCount + 1, waits := 0, aborted := d.aborted + d.waits,
                 finishing := d.finishing + 1, unsaved := false)
      && e.versions != [] && e.versions[0].id == Blob(d.parentId, d.directoryId, listing)
  {
    PutIs(StartFired(Expire(Change(d, c))));
    hide Put, WithVersion, ProtoChildren;
  }

  lemma ChangedAndPutRun(d: Dir, c: Children, rest: seq<Event>)
    requires IsRun(ChangedAndPut(d, c), rest)
    ensures var run := [ChangeEvent(c), ExpireEvent, StartFiredEvent, PutEvent] + rest;
      IsRun(d, run) && After(d, run) == After(ChangedAndPut(d, c), rest)
  {
    hide Put, After, IsRun, Snapshot, Serialise;
    var d1 := Change(d, c);
    var d2 := Expire(d1);
    var d3 := StartFired(d2);
    RunOfOne(d3, PutEvent, rest);
    RunOfOne(d2, StartFiredEvent, [PutEvent] + rest);
    assert [StartFiredEvent] + ([PutEvent] + rest) == [StartFiredEvent, PutEvent] + rest;
    RunOfOne(d1, ExpireEvent, [StartFiredEvent, PutEvent] + rest);
    assert [ExpireEvent] + ([StartFiredEvent, PutEvent] + rest) == [ExpireEvent, StartFiredEvent, PutEvent] + rest;
    RunOfOne(d, ChangeEvent(c), [ExpireEvent, StartFiredEvent, PutEvent] + rest);
    assert [ChangeEvent(c)] + ([ExpireEvent, StartFiredEvent, PutEvent] + rest)
        == [ChangeEvent(c), ExpireEvent, StartFiredEvent, PutEvent] + rest;
  }

  // A change in no snapshot is still waited for (EveryRun), but StoreImmediatelyIfPending goes by
  // storeState. Two steps of Put overwrite that: the end of Serialise and the commit.

  predicate Visible(d: Dir) {
    d.unsaved ==> d.storeState == Pending
  }

  predicate Hides(d: Dir, e: Event) {
    (e.MarkEvent? || e.InitialiseEvent? || e.AddEvent?) && d.unsaved
  }

  lemma VisibleStep(d: Dir, e: Event)
    requires Enabled(d, e) && Visible(d)
    ensures Visible(Apply(d, e)) <==> !Hides(d, e)
  {
    hide Snapshot, WithVersion, Without;
  }

  ghost predicate AlwaysVisible(d: Dir, run: seq<Event>)
    requires IsRun(d, run)
    decreases |run|
  {
    Visible(d) && (run == [] || AlwaysVisible(Apply(d, run[0]), run[1..]))
  }

  ghost predicate NeverHides(d: Dir, run: seq<Event>)
    requires IsRun(d, run)
    decreases |run|
  {
    run == [] || (!Hides(d, run[0]) && NeverHides(Apply(d, run[0]), run[1..]))
  }

  /** Over every interleaving: a change always shows as a pending store exactly when no handler ends
      its Serialise or commits over a change it has not seen. */
  lemma {:induction false} VisibleIffNeverHides(d: Dir, run: seq<Event>)
    requires IsRun(d, run) && Visible(d)
    ensures AlwaysVisible(d, run) <==> NeverHides(d, run)
    decreases |run|
  {
    if run != [] {
      VisibleStep(d, run[0]);
      hide Apply, Enabled, Hides;
      if Visible(Apply(d, run[0])) {
        VisibleIffNeverHides(Apply(d, run[0]), run[1..]);
      }
    }
  }

  /** With no successful handler before its snapshot, an immediate store takes up an unsaved change
      exactly when the change shows. */
  lemma StoreNowTakesUpIffVisible(d: Dir)
    requires Counted(d) && NotLost(d) && d.unsaved && d.fired == 0 && d.starting == 0
    ensures StoreNow(d).starting == 1 <==> Visible(d)
    ensures !Visible(d) ==> StoreNow(d) == d
  {
  }

  /** A new directory whose first handler has taken its snapshot, with the rest of a run. */
  lemma FirstSnapshotRun(d: Dir, rest: seq<Event>)
    requires d.waits > 0 && IsRun(TakeSnapshot(StartFired(Expire(d))), rest)
    ensures var run := [ExpireEvent, StartFiredEvent, SnapshotEvent] + rest;
      IsRun(d, run) && After(d, run) == After(TakeSnapshot(StartFired(Expire(d))), rest)
  {
    hide Snapshot, IsRun, After;
    var d1 := Expire(d);
    var d2 := StartFired(d1);
    RunOfOne(d2, SnapshotEvent, rest);
    RunOfOne(d1, StartFiredEvent, [SnapshotEvent] + rest);
    assert [StartFiredEvent] + ([SnapshotEvent] + rest) == [StartFiredEvent, SnapshotEvent] + rest;
    RunOfOne(d, ExpireEvent, [StartFiredEvent, SnapshotEvent] + rest);
    assert [ExpireEvent] + ([StartFiredEvent, SnapshotEvent] + rest)
      == [ExpireEvent, StartFiredEvent, SnapshotEvent] + rest;
  }

  /** A change behind the snapshot is hidden first when Serialise ends and again by the commit. */
  lemma PutCanHideAChange(parentId: DirectoryId, directoryId: DirectoryId, maxVersions: nat, c: Children)
    ensures var start := [ExpireEvent, StartFiredEvent, SnapshotEvent] + [ChangeEvent(c), MarkEvent(0)];
      var d := Created(parentId, directoryId, maxVersions);
      && IsRun(d, start) && After(d, start).unsaved && After(d, start).storeState == Ongoing
      && StoreNow(After(d, start)) == After(d, start)
    ensures var run := [ExpireEvent, StartFiredEvent, SnapshotEvent] + HidingCommit(c);
      var d := Created(parentId, directoryId, maxVersions);
      && IsRun(d, run) && After(d, run).unsaved && After(d, run).storeState == Complete
      && StoreNow(After(d, run)) == After(d, run)
  {
    var d0 := Created(parentId, directoryId, maxVersions);
    var d3 := TakeSnapshot(StartFired(Expire(d0)));
    var e4 := Change(d3, c);
    RunOfOne(e4, MarkEvent(0), []);
    RunOfOne(d3, ChangeEvent(c), [MarkEvent(0)]);
    FirstSnapshotRun(d0, [ChangeEvent(c), MarkEvent(0)]);
    HiddenByCommit(d3, c);
    FirstSnapshotRun(d0, HidingCommit(c));
  }

  function HidingCommit(c: Children): seq<Event> {
    [MarkEvent(0), ChangeEvent(c), EncryptEvent(0), CountEvent(0), InitialiseEvent(0)]
  }

  lemma HiddenByCommit(d: Dir, c: Children)
    requires |d.snapped| == 1 && d.serialised == [] && d.encrypted == [] && d.initial == [] && d.versions == []
    ensures var run := HidingCommit(c);
      && IsRun(d, run) && After(d, run).unsaved && After(d, run).storeState == Complete
      && StoreNow(After(d, run)) == After(d, run)
  {
    hide ProtoChildren, WithVersion;
    var d4 := MarkOngoing(d, 0);
    var d5 := Change(d4, c);
    var d6 := Encrypt(d5, 0);
    var d7 := CountVersions(d6, 0);
    RunOfOne(d7, InitialiseEvent(0), []);
    RunOfOne(d6, CountEvent(0), [InitialiseEvent(0)]);
    RunOfOne(d5, EncryptEvent(0), [CountEvent(0), InitialiseEvent(0)]);
    RunOfOne(d4, ChangeEvent(c), [EncryptEvent(0), CountEvent(0), InitialiseEvent(0)]);
    RunOfOne(d, MarkEvent(0), [ChangeEvent(c), EncryptEvent(0), CountEvent(0), InitialiseEvent(0)]);
  }

  // ----- handlers that throw -----

  /** A handler that has counted no versions initialises after another one has. */
  predicate InitialisesLate(d: Dir, e: Event) {
    e.InitialiseEvent? && d.versions != []
  }

  predicate Throws(d: Dir, e: Event) {
    InitialisesLate(d, e) || e.FailBlobEvent? || e.FailVersionEvent?
  }

  ghost predicate NeverThrows(d: Dir, run: seq<Event>)
    requires IsRun(d, run)
    decreases |run|
  {
    run == [] || (!Throws(d, run[0]) && NeverThrows(Apply(d, run[0]), run[1..]))
  }

  lemma ThrowStep(d: Dir, e: Event)
    requires Enabled(d, e)
    ensures Apply(d, e).failed == d.failed + if Throws(d, e) then 1 else 0
  {
    hide Snapshot, WithVersion, Without;
    if e.PutEvent? {
      PutIs(d);
      hide Put;
    }
  }

  lemma {:induction false} FailedIffThrows(d: Dir, run: seq<Event>)
    requires IsRun(d, run)
    ensures After(d, run).failed >= d.failed
    ensures After(d, run).failed == d.failed <==> NeverThrows(d, run)
    decreases |run|
  {
    if run != [] {
      ThrowStep(d, run[0]);
      hide Apply, Enabled, Throws;
      FailedIffThrows(Apply(d, run[0]), run[1..]);
    }
  }

  /** Over every interleaving: pendingCount is the number of waits and handlers there are, exactly
      when no handler throws; and no handler throws but for the storage or by initialising late. */
  lemma CountIsExactIff(d: Dir, run: seq<Event>)
    requires Counted(d) && NotLost(d) && d.failed == 0 && IsRun(d, run)
    ensures After(d, run).pendingCount == Handlers(After(d, run)) <==> NeverThrows(d, run)
  {
    EveryRun(d, run);
    FailedIffThrows(d, run);
    hide After, Handlers;
  }

  // ----- handlers that overlap -----

  function Listings(s: seq<Blob>): seq<ProtoDirectory> {
    seq(|s|, i requires 0 <= i < |s| => s[i].listing)
  }

  /** The snapshots that handlers have taken and not committed. */
  function InFlight(d: Dir): seq<ProtoDirectory> {
    d.snapped + d.serialised + Listings(d.encrypted) + Listings(d.initial) + Listings(d.adding)
  }

  predicate NewestIs(d: Dir, listing: ProtoDirectory) {
    d.versions != [] && d.versions[0].id.listing == listing
  }

  /** The directory as it is has been or will be committed, or is still to be serialised. */
  predicate Current(d: Dir) {
    d.unsaved || Snapshot(d) in InFlight(d) || NewestIs(d, Snapshot(d))
  }

  /** The steps that take a handler's snapshot out of flight: a commit, a late one, or a failed put. */
  predicate TakesOut(e: Event) {
    e.InitialiseEvent? || e.AddEvent? || e.FailBlobEvent?
  }

  function TakenOut(d: Dir, e: Event): Blob
    requires Enabled(d, e) && TakesOut(e)
  {
    match e
    case InitialiseEvent(i) => d.initial[i]
    case AddEvent(i) => d.adding[i]
    case FailBlobEvent(i) => d.encrypted[i]
  }

  /** A commit of an older snapshot, when the newest one has been committed already. */
  predicate Overtakes(d: Dir, e: Event)
    requires Enabled(d, e)
  {
    && TakesOut(e) && !Throws(d, e) && !d.unsaved
    && TakenOut(d, e).listing != Snapshot(d) && Snapshot(d) !in InFlight(d)
  }

  /** A handler throws that alone has the newest snapshot. */
  predicate Drops(d: Dir, e: Event)
    requires Enabled(d, e)
  {
    && TakesOut(e) && Throws(d, e) && !d.unsaved
    && Snapshot(d) !in InFlight(Apply(d, e)) && !NewestIs(d, Snapshot(d))
  }

  predicate HasListing(s: seq<Blob>, listing: ProtoDirectory) {
    exists b | b in s :: b.listing == listing
  }

  lemma ListingsHas(s: seq<Blob>, listing: ProtoDirectory)
    ensures listing in Listings(s) <==> HasListing(s, listing)
  {
    if HasListing(s, listing) {
      var i :| 0 <= i < |s| && s[i].listing == listing;
      assert Listings(s)[i] == listing;
    }
  }

  lemma InFlightHas(d: Dir, listing: ProtoDirectory)
    ensures listing in InFlight(d) <==>
      || listing in d.snapped || listing in d.serialised
      || HasListing(d.encrypted, listing) || HasListing(d.initial, listing) || HasListing(d.adding, listing)
  {
    ListingsHas(d.encrypted, listing);
    ListingsHas(d.initial, listing);
    ListingsHas(d.adding, listing);
    hide Listings, HasListing;
  }

  lemma WithoutHas<T>(s: seq<T>, i: nat, x: T)
    requires i < |s|
    ensures x in s <==> x == s[i] || x in Without(s, i)
  {
    assert s == s[..i] + [s[i]] + s[i + 1..];
  }

  lemma WithoutHasListing(s: seq<Blob>, i: nat, listing: ProtoDirectory)
    requires i < |s|
    ensures HasListing(s, listing) <==> s[i].listing == listing || HasListing(Without(s, i), listing)
  {
    forall b ensures b in s <==> b == s[i] || b in Without(s, i) { WithoutHas(s, i, b); }
    hide Without;
  }

  lemma AppendedHasListing(s: seq<Blob>, b: Blob, listing: ProtoDirectory)
    ensures HasListing(s + [b], listing) <==> b.listing == listing || HasListing(s, listing)
  {
    assert forall x :: x in s + [b] <==> x == b || x in s;
  }

  lemma SerialisingInFlight(d: Dir, e: Event, listing: ProtoDirectory)
    requires Enabled(d, e) && (e.SnapshotEvent? || e.MarkEvent? || e.EncryptEvent?)
    ensures listing in InFlight(Apply(d, e)) <==> listing in InFlight(d) || (e.SnapshotEvent? && listing == Snapshot(d))
  {
    InFlightHas(d, listing);
    InFlightHas(Apply(d, e), listing);
    hide InFlight, HasListing, Without, Snapshot;
    match e
    case MarkEvent(i) => WithoutHas(d.snapped, i, listing);
    case EncryptEvent(i) =>
      WithoutHas(d.serialised, i, listing);
      AppendedHasListing(d.encrypted, Blob(d.parentId, d.directoryId, d.serialised[i]), listing);
    case _ =>
  }

  lemma CountingInFlight(d: Dir, i: nat, listing: ProtoDirectory)
    requires i < |d.encrypted|
    ensures listing in InFlight(CountVersions(d, i)) <==> listing in InFlight(d)
  {
    InFlightHas(d, listing);
    InFlightHas(CountVersions(d, i), listing);
    hide InFlight, HasListing, Without;
    WithoutHasListing(d.encrypted, i, listing);
    AppendedHasListing(d.initial, d.encrypted[i], listing);
    AppendedHasListing(d.adding, d.encrypted[i], listing);
  }

  lemma TakingOutInFlight(d: Dir, e: Event, listing: ProtoDirectory)
    requires Enabled(d, e) && TakesOut(e)
    ensures listing in InFlight(d) <==> listing == TakenOut(d, e).listing || listing in InFlight(Apply(d, e))
  {
    InFlightHas(d, listing);
    InFlightHas(Apply(d, e), listing);
    hide InFlight, HasListing, Without, WithVersion;
    match e
    case InitialiseEvent(i) => WithoutHasListing(d.initial, i, listing);
    case AddEvent(i) => WithoutHasListing(d.adding, i, listing);
    case FailBlobEvent(i) => WithoutHasListing(d.encrypted, i, listing);
  }

  lemma OtherInFlight(d: Dir, e: Event)
    requires Enabled(d, e) && !TakesOut(e) && !e.SnapshotEvent? && !e.MarkEvent? && !e.EncryptEvent? && !e.CountEvent?
    ensures InFlight(Apply(d, e)) == InFlight(d)
  {
    hide Listings, WithVersion, Snapshot, Without;
  }

  /** What a step does to the set of snapshots in flight. */
  lemma InFlightAfter(d: Dir, e: Event, listing: ProtoDirectory)
    requires Enabled(d, e)
    ensures e.SnapshotEvent? ==>
      (listing in InFlight(Apply(d, e)) <==> (listing in InFlight(d) || listing == Snapshot(d)))
    ensures TakesOut(e) ==>
      (listing in InFlight(d) <==> listing == TakenOut(d, e).listing || listing in InFlight(Apply(d, e)))
    ensures !e.SnapshotEvent? && !TakesOut(e) ==> (listing in InFlight(Apply(d, e)) <==> listing in InFlight(d))
  {
    if TakesOut(e) {
      TakingOutInFlight(d, e, listing);
    } else if e.SnapshotEvent? || e.MarkEvent? || e.EncryptEvent? {
      SerialisingInFlight(d, e, listing);
    } else if e.CountEvent? {
      CountingInFlight(d, e.i, listing);
    } else {
      OtherInFlight(d, e);
    }
    hide InFlight, Snapshot, TakenOut, CountVersions;
  }

  /** A change of the listing is unsaved; nothing else changes it, and only a snapshot saves it. */
  lemma StepListing(d: Dir, e: Event)
    requires Enabled(d, e)
    ensures var f := Apply(d, e);
      if e.ChangeEvent? then f.unsaved
      else Snapshot(f) == Snapshot(d) && (e.SnapshotEvent? || e.PutEvent? || (f.unsaved <==> d.unsaved))
  {
    hide ProtoChildren, WithVersion, Without;
    if e.PutEvent? { PutIs(d); hide Put; }
  }

  /** What a step does to the front version. */
  lemma StepNewest(d: Dir, e: Event)
    requires Enabled(d, e)
    ensures var f := Apply(d, e);
      if e.PutEvent? then NewestIs(f, Snapshot(f)) && !f.unsaved
      else if TakesOut(e) && !Throws(d, e) then NewestIs(f, TakenOut(d, e).listing)
      else f.versions == d.versions
  {
    if e.PutEvent? { PutIs(d); hide Put; }
    hide ProtoChildren, Without;
  }

  lemma CurrentStep(d: Dir, e: Event)
    requires Enabled(d, e) && Current(d)
    ensures Current(Apply(d, e)) <==> !Overtakes(d, e) && !Drops(d, e)
  {
    InFlightAfter(d, e, Snapshot(Apply(d, e)));
    StepListing(d, e);
    StepNewest(d, e);
    hide Apply, Enabled, InFlight, Snapshot, TakenOut, Throws;
  }

  predicate Loses(d: Dir, e: Event)
    requires Enabled(d, e)
  {
    Overtakes(d, e) || Drops(d, e)
  }

  ghost predicate AlwaysCurrent(d: Dir, run: seq<Event>)
    requires IsRun(d, run)
    decreases |run|
  {
    Current(d) && (run == [] || AlwaysCurrent(Apply(d, run[0]), run[1..]))
  }

  ghost predicate NeverLoses(d: Dir, run: seq<Event>)
    requires IsRun(d, run)
    decreases |run|
  {
    run == [] || (!Loses(d, run[0]) && NeverLoses(Apply(d, run[0]), run[1..]))
  }

  /** Over every interleaving: no change ever drops out of what is stored or still to be stored,
      exactly when no handler commits an older snapshot after the newest one, and none throws that
      alone has the newest one. */
  lemma {:induction false} CurrentIffNeverLoses(d: Dir, run: seq<Event>)
    requires IsRun(d, run) && Current(d)
    ensures AlwaysCurrent(d, run) <==> NeverLoses(d, run)
    decreases |run|
  {
    if run != [] {
      CurrentStep(d, run[0]);
      hide Apply, Enabled, Overtakes, Drops, Current;
      if Current(Apply(d, run[0])) {
        CurrentIffNeverLoses(Apply(d, run[0]), run[1..]);
      }
    }
  }

  /** Once every handler has finished, that is to say that the newest version is the directory as
      it is. */
  lemma QuietIsCurrentIff(d: Dir)
    requires Counted(d) && NotLost(d) && Handlers(d) == 0
    ensures Current(d) <==> NewestIs(d, Snapshot(d))
  {
  }

  predicate Overlaps(d: Dir, e: Event) {
    (e.SnapshotEvent? || e.PutEvent?) && InFlight(d) != []
  }

  /** Two snapshots in flight at once, or one that the storage does not take. */
  predicate Disturbs(d: Dir, e: Event) {
    Overlaps(d, e) || e.FailBlobEvent?
  }

  ghost predicate NeverDisturbed(d: Dir, run: seq<Event>)
    requires IsRun(d, run)
    decreases |run|
  {
    run == [] || (!Disturbs(d, run[0]) && NeverDisturbed(Apply(d, run[0]), run[1..]))
  }

  /** At most one snapshot is in flight, and if its handler has counted no versions there are still
      none ... */
  predicate OneInFlight(d: Dir) {
    |InFlight(d)| <= 1 && (d.initial != [] ==> d.versions == [])
  }

  /** ... and it is the newest one. */
  predicate Alone(d: Dir) {
    OneInFlight(d) && Current(d) && (!d.unsaved ==> forall l | l in InFlight(d) :: l == Snapshot(d))
  }

  lemma SerialisingSize(d: Dir, e: Event)
    requires Enabled(d, e) && (e.SnapshotEvent? || e.MarkEvent? || e.EncryptEvent? || e.CountEvent?)
    ensures |InFlight(Apply(d, e))| == |InFlight(d)| + if e.SnapshotEvent? then 1 else 0
  {
    InFlightSum(d);
    InFlightSum(Apply(d, e));
    if e.MarkEvent? { WithoutSize(d.snapped, e.i); }
    if e.EncryptEvent? { WithoutSize(d.serialised, e.i); }
    if e.CountEvent? { WithoutSize(d.encrypted, e.i); }
    hide InFlight, Snapshot, WithVersion, Without, Put, Schedule, StoreNow, Initialise, AddVersion, Finish;
  }

  lemma TakingOutSize(d: Dir, e: Event)
    requires Enabled(d, e) && TakesOut(e)
    ensures |InFlight(Apply(d, e))| == |InFlight(d)| - 1
  {
    InFlightSum(d);
    InFlightSum(Apply(d, e));
    WithoutSize(if e.InitialiseEvent? then d.initial else if e.AddEvent? then d.adding else d.encrypted, e.i);
    hide InFlight, Snapshot, WithVersion, Without, Put, Schedule, StoreNow, CountVersions, Encrypt, MarkOngoing, Finish;
  }

  lemma InFlightSize(d: Dir, e: Event)
    requires Enabled(d, e)
    ensures |InFlight(Apply(d, e))| == |InFlight(d)| + if e.SnapshotEvent? then 1 else if TakesOut(e) then -1 else 0
  {
    if TakesOut(e) {
      TakingOutSize(d, e);
    } else if e.SnapshotEvent? || e.MarkEvent? || e.EncryptEvent? || e.CountEvent? {
      SerialisingSize(d, e);
    } else {
      OtherInFlight(d, e);
    }
    hide InFlight, Apply;
  }

  lemma InFlightSum(d: Dir)
    ensures |InFlight(d)| == |d.snapped| + |d.serialised| + |d.encrypted| + |d.initial| + |d.adding|
  {
  }

  lemma AloneTakesOut(d: Dir, e: Event)
    requires Enabled(d, e) && Alone(d) && TakesOut(e)
    ensures InFlight(Apply(d, e)) == [] && (!d.unsaved ==> TakenOut(d, e).listing == Snapshot(d))
  {
    InFlightAfter(d, e, TakenOut(d, e).listing);
    InFlightSize(d, e);
    hide InFlight, Snapshot, Apply, Enabled, TakenOut;
  }

  lemma OneInFlightStep(d: Dir, e: Event)
    requires Enabled(d, e) && OneInFlight(d) && !Disturbs(d, e)
    ensures OneInFlight(Apply(d, e)) && (Throws(d, e) ==> e.FailVersionEvent?)
  {
    InFlightSize(d, e);
    InFlightSum(d);
    if e.InitialiseEvent? { WithoutSize(d.initial, e.i); }
    assert Throws(d, e) ==> e.FailVersionEvent? || e.InitialiseEvent?;
    hide Snapshot, InFlight, WithVersion, Without, Schedule, StoreNow, Finish, TakeSnapshot, MarkOngoing, Encrypt;
  }

  lemma AloneStep(d: Dir, e: Event)
    requires Enabled(d, e) && Alone(d) && !Disturbs(d, e)
    ensures Alone(Apply(d, e)) && !Loses(d, e) && (Throws(d, e) ==> e.FailVersionEvent?)
  {
    var f := Apply(d, e);
    OneInFlightStep(d, e);
    CurrentStep(d, e);
    InFlightSize(d, e);
    StepListing(d, e);
    if TakesOut(e) {
      AloneTakesOut(d, e);
    } else {
      forall l ensures l in InFlight(f) <==> l in InFlight(d) || (e.SnapshotEvent? && l == Snapshot(d)) {
        InFlightAfter(d, e, l);
      }
    }
    hide Apply, Enabled, Snapshot, Current, InFlight, TakenOut, Throws;
  }

  lemma {:induction false} NeverDisturbedNeverLoses(d: Dir, run: seq<Event>)
    requires IsRun(d, run) && Alone(d) && NeverDisturbed(d, run)
    ensures NeverLoses(d, run) && Alone(After(d, run))
    decreases |run|
  {
    if run != [] {
      AloneStep(d, run[0]);
      hide Apply, Enabled, Loses, Disturbs, Alone;
      NeverDisturbedNeverLoses(Apply(d, run[0]), run[1..]);
    }
  }

  /** If no handler takes its snapshot while another has one in flight, and the storage takes each,
      then whatever else comes between, once every handler is gone the newest version is the directory
      as it is. */
  lemma AloneIsNewest(d: Dir, run: seq<Event>)
    requires Counted(d) && NotLost(d) && Alone(d) && IsRun(d, run) && NeverDisturbed(d, run)
    requires Handlers(After(d, run)) == 0
    ensures NewestIs(After(d, run), Snapshot(After(d, run)))
  {
    EveryRun(d, run);
    NeverDisturbedNeverLoses(d, run);
    QuietIsCurrentIff(After(d, run));
  }

  // ----- one handler overtakes another -----

  /** The other way: unless all that is in flight is bound to throw, a second handler can overtake it
      or be dropped for it. */
  lemma OverlapCanLose(d: Dir, c: Children) returns (run: seq<Event>)
    requires |d.snapped| + |d.serialised| + |d.encrypted| + |d.adding| > 0 || (d.initial != [] && d.versions == [])
    requires forall l | l in InFlight(d) :: l != Snapshot(d.(children := c))
    ensures IsRun(d, run) && !Current(After(d, run))
    decreases |d.snapped|, |d.serialised|, |d.encrypted|
  {
    if d.adding != [] {
      run := AddingCanBeOvertaken(d, c);
    } else if d.initial != [] && d.versions == [] {
      run := InitialCanBeDropped(d, c);
    } else {
      var e := if d.snapped != [] then MarkEvent(0) else if d.serialised != [] then EncryptEvent(0) else CountEvent(0);
      var f := Apply(d, e);
      forall l | l in InFlight(f) ensures l in InFlight(d) { InFlightAfter(d, e, l); }
      run := OverlapCanLose(f, c);
      RunOfOne(d, e, run);
      run := [e] + run;
    }
  }

  lemma AddingCanBeOvertaken(d: Dir, c: Children) returns (run: seq<Event>)
    requires d.adding != [] && forall l | l in InFlight(d) :: l != Snapshot(d.(children := c))
    ensures IsRun(d, run) && !Current(After(d, run))
  {
    var e := ChangedAndPut(d, c);
    ChangedAndPutIs(d, c);
    AddEventTakesOut(d);
    assert InFlight(e) == InFlight(d);
    hide ChangedAndPut, InFlight, ProtoChildren;
    CurrentStep(e, AddEvent(0));
    RunOfOne(e, AddEvent(0), []);
    ChangedAndPutRun(d, c, [AddEvent(0)]);
    run := [ChangeEvent(c), ExpireEvent, StartFiredEvent, PutEvent] + [AddEvent(0)];
  }

  lemma AddEventTakesOut(d: Dir)
    requires d.adding != []
    ensures d.adding[0].listing in InFlight(d)
  {
    InFlightAfter(d, AddEvent(0), d.adding[0].listing);
    hide InFlight;
  }

  /** The steps that put a version. */
  predicate PutsVersion(e: Event) {
    e.LandEvent? || e.FailVersionEvent? || e.PutEvent?
  }

  /** A change, and the store it leads to up to the count of the versions. */
  function ChangedAndCounted(d: Dir, c: Children): Dir {
    var blob := Blob(d.parentId, d.directoryId, Snapshot(d.(children := c)));
    var e := d.(children := c, storeState := Ongoing, pendingCount := d.pendingCount + 1, waits := 0,
                aborted := d.aborted + d.waits, unsaved := false);
    if d.versions == [] then e.(initial := d.initial + [blob]) else e.(adding := d.adding + [blob])
  }

  lemma ChangedAndCountedRun(d: Dir, c: Children) returns (run: seq<Event>)
    ensures IsRun(d, run) && After(d, run) == ChangedAndCounted(d, c)
    ensures forall e | e in run :: !PutsVersion(e)
  {
    var listing := Snapshot(d.(children := c));
    var blob := Blob(d.parentId, d.directoryId, listing);
    var d3 := StartFired(Expire(Change(d, c)));
    var d4 := d3.(starting := d.starting, snapped := d.snapped + [listing], unsaved := false);
    var d5 := d4.(snapped := d.snapped, serialised := d.serialised + [listing], storeState := Ongoing);
    var d6 := d5.(serialised := d.serialised, encrypted := d.encrypted + [blob]);
    WithoutLast(d.snapped, listing);
    WithoutLast(d.serialised, listing);
    WithoutLast(d.encrypted, blob);
    hide Snapshot, Without, IsRun, After, Put, Initialise, AddVersion;
    assert Leads(d6, CountEvent(|d.encrypted|), ChangedAndCounted(d, c));
    assert Leads(d5, EncryptEvent(|d.serialised|), d6) && Leads(d4, MarkEvent(|d.snapped|), d5)
      && Leads(d3, SnapshotEvent, d4);
    assert Leads(d, ChangeEvent(c), Change(d, c)) && Leads(Change(d, c), ExpireEvent, Expire(Change(d, c)));
    assert Leads(Expire(Change(d, c)), StartFiredEvent, d3);
    run := CountedRun(d, c, Change(d, c), Expire(Change(d, c)), d3, d4, d5, d6, ChangedAndCounted(d, c));
  }

  lemma CountedRun(d: Dir, c: Children, d1: Dir, d2: Dir, d3: Dir, d4: Dir, d5: Dir, d6: Dir, d7: Dir)
    returns (run: seq<Event>)
    requires Leads(d, ChangeEvent(c), d1) && Leads(d1, ExpireEvent, d2) && Leads(d2, StartFiredEvent, d3)
    requires Leads(d3, SnapshotEvent, d4) && Leads(d4, MarkEvent(|d.snapped|), d5)
    requires Leads(d5, EncryptEvent(|d.serialised|), d6) && Leads(d6, CountEvent(|d.encrypted|), d7)
    ensures IsRun(d, run) && After(d, run) == d7
    ensures forall e | e in run :: !PutsVersion(e)
  {
    run := CountedTail(d, d3, d4, d5, d6, d7);
    hide Leads;
    var e1, e2, e3 := ChangeEvent(c), ExpireEvent, StartFiredEvent;
    FirstStep(d2, e3, d3, run);  NonePuts(e3, run);  run := [e3] + run;
    FirstStep(d1, e2, d2, run);  NonePuts(e2, run);  run := [e2] + run;
    FirstStep(d, e1, d1, run);   NonePuts(e1, run);  run := [e1] + run;
  }

  lemma CountedTail(d: Dir, d3: Dir, d4: Dir, d5: Dir, d6: Dir, d7: Dir) returns (run: seq<Event>)
    requires Leads(d3, SnapshotEvent, d4) && Leads(d4, MarkEvent(|d.snapped|), d5)
    requires Leads(d5, EncryptEvent(|d.serialised|), d6) && Leads(d6, CountEvent(|d.encrypted|), d7)
    ensures IsRun(d3, run) && After(d3, run) == d7
    ensures forall e | e in run :: !PutsVersion(e)
  {
    hide Leads;
    run := [];
    var e4, e5 := SnapshotEvent, MarkEvent(|d.snapped|);
    var e6, e7 := EncryptEvent(|d.serialised|), CountEvent(|d.encrypted|);
    FirstStep(d6, e7, d7, run);  NonePuts(e7, run);  run := [e7] + run;
    FirstStep(d5, e6, d6, run);  NonePuts(e6, run);  run := [e6] + run;
    FirstStep(d4, e5, d5, run);  NonePuts(e5, run);  run := [e5] + run;
    FirstStep(d3, e4, d4, run);  NonePuts(e4, run);  run := [e4] + run;
  }

  lemma NonePuts(e: Event, run: seq<Event>)
    requires !PutsVersion(e) && forall x | x in run :: !PutsVersion(x)
    ensures forall x | x in [e] + run :: !PutsVersion(x)
  {
  }

  predicate Leads(d: Dir, e: Event, f: Dir) {
    Enabled(d, e) && Apply(d, e) == f
  }

  lemma FirstStep(d: Dir, e: Event, f: Dir, rest: seq<Event>)
    requires Leads(d, e, f) && IsRun(f, rest)
    ensures IsRun(d, [e] + rest) && After(d, [e] + rest) == After(f, rest)
  {
    RunOfOne(d, e, rest);
  }

  /** A second handler also counts no versions; the first one initialises and the second one throws. */
  lemma InitialCanBeDropped(d: Dir, c: Children) returns (run: seq<Event>)
    requires d.initial != [] && d.versions == []
    requires forall l | l in InFlight(d) :: l != Snapshot(d.(children := c))
    ensures IsRun(d, run) && !Current(After(d, run))
  {
    var e := ChangedAndCounted(d, c);
    run := ChangedAndCountedRun(d, c);
    var f := Initialise(e, 0);
    var g := Initialise(f, |d.initial| - 1);
    OneMoreStep(d, run, InitialiseEvent(0));
    OneMoreStep(d, run + [InitialiseEvent(0)], InitialiseEvent(|d.initial| - 1));
    run := run + [InitialiseEvent(0)] + [InitialiseEvent(|d.initial| - 1)];
    var blob := Blob(d.parentId, d.directoryId, Snapshot(d.(children := c)));
    DroppedInitial(d.initial, blob);
    assert g.initial == d.initial[1..] && g.children == c && !g.unsaved && NewestIs(g, d.initial[0].listing);
    assert forall l | l in InFlight(g) :: l in InFlight(d) by { InFlightSmaller(d, g); }
    assert d.initial[0].listing in InFlight(d) by { InFlightAfter(d, InitialiseEvent(0), d.initial[0].listing); }
  }

  lemma DroppedInitial(s: seq<Blob>, b: Blob)
    requires s != []
    ensures Without(Without(s + [b], 0), |s| - 1) == s[1..]
  {
  }

  lemma InFlightSmaller(d: Dir, g: Dir)
    requires g.snapped == d.snapped && g.serialised == d.serialised && g.encrypted == d.encrypted
    requires g.adding == d.adding
    requires d.initial != [] && g.initial == d.initial[1..]
    ensures forall l | l in InFlight(g) :: l in InFlight(d)
  {
    forall l | l in InFlight(g) ensures l in InFlight(d) {
      InFlightHas(d, l);
      InFlightHas(g, l);
    }
  }

  /** Both have counted no versions, and nothing else is outstanding: then everything has finished,
      nothing is unsaved, no commit has overtaken another, the newest version is the older snapshot,
      and pendingCount stays up. */
  lemma SecondFirstVersionThrows(d: Dir, c: Children) returns (run: seq<Event>)
    requires Counted(d) && d.pendingCount == 1 && |d.initial| == 1 && d.versions == [] && d.newParent.None?
    ensures IsRun(d, run)
    ensures var e := After(d, run);
      && Handlers(e) == 0 && e.pendingCount == e.failed == 1 && !e.unsaved && e.storeState == Complete
      && e.children == c
      && e.versions == [VersionName(0, d.initial[0])]
  {
    var e := ChangedAndCounted(d, c);
    run := ChangedAndCountedRun(d, c);
    var f := Initialise(e, 0);
    var g := Land(f, 0);
    var h := Finish(g);
    OneMoreStep(d, run, InitialiseEvent(0));
    run := run + [InitialiseEvent(0)];
    OneMoreStep(d, run, LandEvent(0));
    run := run + [LandEvent(0)];
    OneMoreStep(d, run, FinishEvent);
    run := run + [FinishEvent];
    OneMoreStep(d, run, InitialiseEvent(0));
    run := run + [InitialiseEvent(0)];
  }

  /** So a new directory's first two stores can go. */
  lemma FirstVersionsCollide(parentId: DirectoryId, directoryId: DirectoryId, maxVersions: nat, c: Children)
    returns (run: seq<Event>)
    requires c != []
    ensures var d := Created(parentId, directoryId, maxVersions);
      && IsRun(d, run)
      && var e := After(d, run);
      && Handlers(e) == 0 && e.pendingCount == 1 && !e.unsaved && e.storeState == Complete
      && e.versions != [] && e.versions[0].id.listing != Snapshot(e) && !Current(e)
  {
    var d := Created(parentId, directoryId, maxVersions);
    var d3 := TakeSnapshot(StartFired(Expire(d)));
    var d4 := MarkOngoing(d3, 0);
    var d5 := Encrypt(d4, 0);
    var e := CountVersions(d5, 0);
    RunOfOne(d5, CountEvent(0), []);
    RunOfOne(d4, EncryptEvent(0), [CountEvent(0)]);
    RunOfOne(d3, MarkEvent(0), [EncryptEvent(0), CountEvent(0)]);
    run := [MarkEvent(0), EncryptEvent(0), CountEvent(0)];
    assert [MarkEvent(0)] + [EncryptEvent(0), CountEvent(0)] == run;
    assert [EncryptEvent(0)] + [CountEvent(0)] == [EncryptEvent(0), CountEvent(0)];
    assert [CountEvent(0)] + [] == [CountEvent(0)];
    FirstSnapshotRun(d, run);
    run := [ExpireEvent, StartFiredEvent, SnapshotEvent] + run;
    assert |e.initial[0].listing.children| == 0;
    var more := SecondFirstVersionThrows(e, c);
    RunsJoin(d, run, more);
    run := run + more;
    assert |Snapshot(After(e, more)).children| == |c|;
  }

  lemma {:induction false} RunsJoin(d: Dir, run: seq<Event>, more: seq<Event>)
    requires IsRun(d, run) && IsRun(After(d, run), more)
    ensures IsRun(d, run + more) && After(d, run + more) == After(After(d, run), more)
    decreases |run|
  {
    if run == [] {
      assert [] + more == more;
    } else {
      assert (run + more)[1..] == run[1..] + more;
      RunsJoin(Apply(d, run[0]), run[1..], more);
    }
  }

  /** While one handler has its data map in the storage, a change is made and stored by a second
      handler, which commits first; then everything has finished and nothing is unsaved. */
  lemma SecondPutOvertakes(d: Dir, c: Children) returns (run: seq<Event>)
    requires Counted(d) && d.pendingCount == 1 && |d.encrypted| == 1 && d.newParent.None?
    ensures IsRun(d, run)
    ensures After(d, run).pendingCount == 0 && !After(d, run).unsaved && After(d, run).children == c
    ensures After(d, run).versions != [] && After(d, run).versions[0].id == d.encrypted[0]
  {
    var e := ChangedAndPut(d, c);
    ChangedAndPutIs(d, c);
    hide ChangedAndPut, ProtoChildren, Snapshot;
    var f := CountVersions(e, 0);
    var g := AddVersion(f, 0);
    var h := Land(g, 0);
    var more := [CountEvent(0), AddEvent(0), LandEvent(0), FinishEvent, FinishEvent];
    RunOfOne(Finish(h), FinishEvent, []);
    RunOfOne(h, FinishEvent, [FinishEvent]);
    RunOfOne(g, LandEvent(0), [FinishEvent, FinishEvent]);
    RunOfOne(f, AddEvent(0), [LandEvent(0), FinishEvent, FinishEvent]);
    RunOfOne(e, CountEvent(0), [AddEvent(0), LandEvent(0), FinishEvent, FinishEvent]);
    ChangedAndPutRun(d, c, more);
    run := [ChangeEvent(c), ExpireEvent, StartFiredEvent, PutEvent] + more;
  }

  /** So two handlers that overlap can leave the older snapshot as the newest version. */
  lemma PutsCanOvertake(parentId: DirectoryId, directoryId: DirectoryId, maxVersions: nat, c: Children)
    returns (run: seq<Event>)
    requires c != []
    ensures var d := Created(parentId, directoryId, maxVersions);
      && IsRun(d, run) && After(d, run).pendingCount == 0 && !After(d, run).unsaved
      && After(d, run).versions != [] && After(d, run).versions[0].id.listing != Snapshot(After(d, run))
  {
    var d0 := Created(parentId, directoryId, maxVersions);
    var d1 := Expire(d0);
    var d2 := StartFired(d1);
    var d3 := TakeSnapshot(d2);
    var d4 := MarkOngoing(d3, 0);
    var d5 := Encrypt(d4, 0);
    run := SecondPutOvertakes(d5, c);
    assert |d5.encrypted[0].listing.children| == 0 && |Snapshot(After(d5, run)).children| == |c|;
    RunOfOne(d4, EncryptEvent(0), run);      run := [EncryptEvent(0)] + run;
    RunOfOne(d3, MarkEvent(0), run);         run := [MarkEvent(0)] + run;
    RunOfOne(d2, SnapshotEvent, run);        run := [SnapshotEvent] + run;
    RunOfOne(d1, StartFiredEvent, run);      run := [StartFiredEvent] + run;
    RunOfOne(d0, ExpireEvent, run);          run := [ExpireEvent] + run;
  }

  // ----- moving a directory to a new parent -----

  predicate NoMove(run: seq<Event>) {
    forall e | e in run :: !e.SetNewParentEvent?
  }

  /** The handler steps that RenameDifferentParent's wait loop sits out. */
  ghost predicate UntilQuiet(d: Dir, run: seq<Event>)
    ensures UntilQuiet(d, run) ==> IsRun(d, run)
    decreases |run|
  {
    if run == [] then d.pendingCount == 0
    else d.pendingCount != 0 && Enabled(d, run[0]) && UntilQuiet(Apply(d, run[0]), run[1..])
  }

  lemma {:induction false} UntilQuietIsRun(d: Dir, run: seq<Event>)
    requires UntilQuiet(d, run)
    ensures IsRun(d, run) && After(d, run).pendingCount == 0
    decreases |run|
  {
    if run != [] {
      UntilQuietIsRun(Apply(d, run[0]), run[1..]);
    }
  }

  lemma ParentAfterStep(d: Dir, e: Event)
    requires Enabled(d, e) && !e.SetNewParentEvent?
    ensures var f := Apply(d, e);
      if e.FinishEvent? && d.newParent.Some? then f.parentId == d.newParent.value && f.newParent.None?
      else f.parentId == d.parentId && f.newParent == d.newParent
    ensures !e.FinishEvent? ==> Apply(d, e).pendingCount >= d.pendingCount
  {
    hide Snapshot, WithVersion, Without;
  }

  lemma {:induction false} ParentAfterRun(d: Dir, run: seq<Event>)
    requires IsRun(d, run) && NoMove(run)
    ensures d.newParent.None? ==> After(d, run).parentId == d.parentId && After(d, run).newParent.None?
    ensures d.newParent.Some? && FinishEvent in run ==>
              After(d, run).parentId == d.newParent.value && After(d, run).newParent.None?
    ensures FinishEvent !in run ==>
              && After(d, run).parentId == d.parentId && After(d, run).newParent == d.newParent
              && After(d, run).pendingCount >= d.pendingCount
    decreases |run|
  {
    if run != [] {
      assert run == [run[0]] + run[1..];
      ParentAfterStep(d, run[0]);
      hide Apply, Enabled;
      ParentAfterRun(Apply(d, run[0]), run[1..]);
    }
  }

  /** The wait loop ends with the new parent in place exactly when a handler was outstanding at
      SetNewParent. */
  lemma MovedIffOutstanding(d: Dir, parentId: DirectoryId, run: seq<Event>)
    requires Counted(d) && parentId != d.parentId && NoMove(run) && UntilQuiet(SetNewParent(d, parentId), run)
    ensures After(SetNewParent(d, parentId), run).parentId == parentId <==> d.pendingCount != 0
  {
    var moved := SetNewParent(d, parentId);
    UntilQuietIsRun(moved, run);
    ParentAfterRun(moved, run);
  }

  ghost predicate KeyedBy(d: Dir, parentId: DirectoryId, before: set<VersionName>) {
    && d.parentId == parentId && d.newParent.None?
    && (forall b | b in d.encrypted || b in d.initial || b in d.adding :: b.parentKey == parentId)
    && (forall v | v in d.versions :: v in before || v.id.parentKey == parentId)
  }

  lemma KeyedStep(d: Dir, parentId: DirectoryId, before: set<VersionName>, e: Event)
    requires KeyedBy(d, parentId, before) && Enabled(d, e) && !e.SetNewParentEvent?
    ensures KeyedBy(Apply(d, e), parentId, before)
  {
    hide Snapshot;
    if e.PutEvent? { PutIs(d); hide Put; }
  }

  lemma {:induction false} KeyedEveryRun(d: Dir, parentId: DirectoryId, before: set<VersionName>, run: seq<Event>)
    requires KeyedBy(d, parentId, before) && IsRun(d, run) && NoMove(run)
    ensures KeyedBy(After(d, run), parentId, before)
    decreases |run|
  {
    if run != [] {
      KeyedStep(d, parentId, before, run[0]);
      hide Apply, Enabled, KeyedBy;
      KeyedEveryRun(Apply(d, run[0]), parentId, before, run[1..]);
    }
  }

  /** After a move with a handler outstanding, every later version is encrypted under the new
      parent's id. */
  lemma VersionsAfterMove(d: Dir, parentId: DirectoryId, wait: seq<Event>, run: seq<Event>)
    requires Counted(d) && NotLost(d) && d.pendingCount != 0
    requires NoMove(wait) && UntilQuiet(SetNewParent(d, parentId), wait)
    requires NoMove(run) && IsRun(After(SetNewParent(d, parentId), wait), run)
    ensures var quiet := After(SetNewParent(d, parentId), wait);
      forall v | v in After(quiet, run).versions :: v in quiet.versions || v.id.parentKey == parentId
  {
    var moved := SetNewParent(d, parentId);
    UntilQuietIsRun(moved, wait);
    ParentAfterRun(moved, wait);
    EveryRun(moved, wait);
    var quiet := After(moved, wait);
    KeyedEveryRun(quiet, parentId, (set v | v in quiet.versions), run);
  }

  /** A directory moved with no handler outstanding is next stored under its old parent's id, and
      then nothing more is due. */
  lemma IdleMoveKeepsOldKey(d: Dir, parentId: DirectoryId)
    requires Counted(d) && d.pendingCount == 0
    ensures var moved := SetNewParent(d, parentId);
      var run := [ChangeEvent(d.children), ExpireEvent, StartFiredEvent, PutEvent, FinishEvent];
      && UntilQuiet(moved, []) && IsRun(moved, run)
      && After(moved, run).parentId == parentId && After(moved, run).pendingCount == 0 && !After(moved, run).unsaved
      && After(moved, run).versions != [] && After(moved, run).versions[0].id.parentKey == d.parentId
  {
    var moved := SetNewParent(d, parentId);
    var e := ChangedAndPut(moved, d.children);
    ChangedAndPutIs(moved, d.children);
    hide ChangedAndPut, ProtoChildren;
    RunOfOne(e, FinishEvent, []);
    ChangedAndPutRun(moved, d.children, [FinishEvent]);
    assert [ChangeEvent(d.children), ExpireEvent, StartFiredEvent, PutEvent] + [FinishEvent]
        == [ChangeEvent(d.children), ExpireEvent, StartFiredEvent, PutEvent, FinishEvent];
  }

  // ----- the wait loop ends -----

  predicate IsHandlerStep(d: Dir, e: Event) {
    match e
    case ChangeEvent(_) => false
    case StoreNowEvent => false
    case SetNewParentEvent(_) => false
    case ExpireEvent => d.waits > 0
    case _ => Enabled(d, e)
  }

  lemma HandlerStepDecreases(d: Dir, e: Event)
    requires IsHandlerStep(d, e)
    ensures Enabled(d, e) && Measure(Apply(d, e)) < Measure(d)
    ensures Counted(d) ==> Counted(Apply(d, e))
  {
    if IsPartOfPut(e) || e.PutEvent? {
      PutStepSizes(d, e);
      hide Apply, Measure, Handlers;
    } else {
      OtherHandlerStep(d, e);
      hide Apply, Measure, Counted;
    }
  }

  lemma OtherHandlerStep(d: Dir, e: Event)
    requires IsHandlerStep(d, e) && (e.ExpireEvent? || e.StartAbortedEvent? || e.StartFiredEvent? || e.FinishEvent?)
    ensures Measure(Apply(d, e)) < Measure(d) && (Counted(d) ==> Counted(Apply(d, e)))
  {
    if e.FinishEvent? {
      FinishingStep(d);
    } else if e.ExpireEvent? {
      assert Apply(d, e) == Expire(d) && d.waits > 0;
      hide Apply;
    } else if e.StartAbortedEvent? {
      assert Apply(d, e) == StartAborted(d);
      hide Apply;
    } else {
      assert Apply(d, e) == StartFired(d);
      hide Apply;
    }
  }

  lemma FinishingStep(d: Dir)
    requires d.finishing > 0
    ensures Measure(Finish(d)) < Measure(d) && (Counted(d) ==> Counted(Finish(d)))
  {
    FinishIs(d);
    hide Finish;
  }

  lemma FinishIs(d: Dir)
    requires d.finishing > 0
    ensures var f := Finish(d);
      f == d.(finishing := d.finishing - 1, pendingCount := d.pendingCount - 1, parentId := f.parentId,
              newParent := None)
  {
  }

  /** The next step of some handler. */
  function SomeStep(d: Dir): Event {
    if d.initial != [] then InitialiseEvent(0)
    else if d.waits > 0 then ExpireEvent
    else if d.aborted > 0 then StartAbortedEvent
    else if d.fired > 0 then StartFiredEvent
    else if d.starting > 0 then SnapshotEvent
    else if d.snapped != [] then MarkEvent(0)
    else if d.serialised != [] then EncryptEvent(0)
    else if d.encrypted != [] then CountEvent(0)
    else if d.adding != [] then AddEvent(0)
    else if d.putting != [] then LandEvent(0)
    else FinishEvent
  }

  lemma SomeHandlerStep(d: Dir)
    requires Handlers(d) != 0
    ensures IsHandlerStep(d, SomeStep(d))
  {
  }

  predicate IsHandlerRun(d: Dir, run: seq<Event>)
    decreases |run|
  {
    run == [] || (IsHandlerStep(d, run[0]) && Enabled(d, run[0]) && IsHandlerRun(Apply(d, run[0]), run[1..]))
  }

  /** If nothing schedules, the handlers can always go on until none is left, and they have no more
      than Measure(d) steps to go; pendingCount is then the number of those that have thrown. */
  lemma {:induction false} HandlersDrain(d: Dir, run: seq<Event>)
    requires Counted(d) && IsHandlerRun(d, run)
    ensures IsRun(d, run) && |run| <= Measure(d)
    ensures var e := After(d, run); Handlers(e) != 0 ==> exists s :: IsHandlerStep(e, s)
    ensures var e := After(d, run); Handlers(e) == 0 ==> e.pendingCount == e.failed
    decreases |run|
  {
    if run != [] {
      HandlerStepDecreases(d, run[0]);
      hide Apply, Counted, Measure, IsHandlerStep, Handlers;
      HandlersDrain(Apply(d, run[0]), run[1..]);
    } else if Handlers(d) != 0 {
      SomeHandlerStep(d);
    }
  }

  /** A handler has thrown, or more of them have counted no versions than can still initialise. */
  predicate Doomed(d: Dir) {
    d.failed > 0 || |d.initial| > if d.versions == [] then 1 else 0
  }

  lemma DoomedStays(d: Dir, e: Event)
    requires Enabled(d, e) && Doomed(d)
    ensures Doomed(Apply(d, e))
  {
    hide Snapshot;
    if e.PutEvent? {
      PutIs(d);
      hide Put;
    }
  }

  lemma {:induction false} DoomedNeverQuiet(d: Dir, run: seq<Event>)
    requires Counted(d) && NotLost(d) && Doomed(d)
    ensures !UntilQuiet(d, run)
    decreases |run|
  {
    if run != [] && Enabled(d, run[0]) {
      DoomedStays(d, run[0]);
      StepCounts(d, run[0]);
      hide Apply, Enabled, Doomed, Counted, NotLost;
      DoomedNeverQuiet(Apply(d, run[0]), run[1..]);
    }
  }

  lemma SomeStepStaysWell(d: Dir)
    requires Handlers(d) != 0 && !Doomed(d)
    ensures Enabled(d, SomeStep(d)) && !Doomed(Apply(d, SomeStep(d)))
  {
    hide Snapshot;
  }

  lemma {:induction false} WellGetsQuiet(d: Dir) returns (run: seq<Event>)
    requires Counted(d) && NotLost(d) && !Doomed(d)
    ensures UntilQuiet(d, run)
    decreases Measure(d)
  {
    run := [];
    if Handlers(d) != 0 {
      var e := SomeStep(d);
      SomeHandlerStep(d);
      HandlerStepDecreases(d, e);
      SomeStepStaysWell(d);
      StepCounts(d, e);
      assert d.pendingCount != 0;
      hide Apply, Enabled, Doomed, Counted, NotLost, Measure, SomeStep;
      var rest := WellGetsQuiet(Apply(d, e));
      run := [e] + rest;
      assert run[1..] == rest;
    }
  }

  /** The wait for pendingCount to be zero, which RenameDifferentParent makes, can end exactly if no
      handler has thrown or is bound to throw. */
  lemma WaitCanEndIff(d: Dir)
    requires Counted(d) && NotLost(d)
    ensures (exists run :: UntilQuiet(d, run)) <==> !Doomed(d)
  {
    if Doomed(d) {
      forall run ensures !UntilQuiet(d, run) { DoomedNeverQuiet(d, run); }
    } else {
      var run := WellGetsQuiet(d);
    }
  }
}
