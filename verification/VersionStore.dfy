/** The storage a drive works on: immutable data, which its content names, and one tree of versions
    for each directory. */
module VersionStore {
  import opened Wrappers
  import opened MetaData
  import opened Listing
  import opened DirectoryState

  /** A version tree as its tips, each with the versions from it back to the root. */
  type VersionTree = map<VersionName, seq<VersionName>>

  function NewTree(first: VersionName): VersionTree {
    map[first := [first]]
  }

  /** PutVersion on a tip: the tip's branch grows. */
  function Extended(t: VersionTree, tip: VersionName, version: VersionName): VersionTree
    requires tip in t
  {
    (t - {tip})[version := [version] + t[tip]]
  }

  /** The tree is a single chain, the directory's deque is its newest part, and indexes fall by one
      along it. */
  ghost predicate OneChain(t: VersionTree, versions: seq<VersionName>) {
    && versions != [] && t.Keys == {versions[0]}
    && versions <= t[versions[0]] && Descending(t[versions[0]])
  }

  /** Adding a version below the deque's front keeps the tree one chain, and the new version is the
      deque's new front. */
  lemma ExtendedIsOneChain(t: VersionTree, versions: seq<VersionName>, maxVersions: nat, id: Blob)
    requires OneChain(t, versions)
    ensures var version := VersionName(versions[0].index + 1, id);
      && version !in t[versions[0]]
      && WithVersion(versions, maxVersions, id)[0] == version
      && OneChain(Extended(t, versions[0], version), WithVersion(versions, maxVersions, id))
  {
    var version := VersionName(versions[0].index + 1, id);
    var branch := [version] + t[versions[0]];
    assert Descending(branch);
    assert Extended(t, versions[0], version) == map[version := branch];
    assert [version] + versions <= branch;
  }

  // ----- putting a version -----

  predicate Holds(t: VersionTree, parent: VersionName) {
    exists tip | tip in t :: parent in t[tip]
  }

  /** u is t with a branch that leads from version through parent to the root. */
  ghost predicate IsForked(t: VersionTree, parent: VersionName, version: VersionName, u: VersionTree) {
    && u.Keys == t.Keys + {version} && (forall tip | tip in t && tip != version :: u[tip] == t[tip])
    && exists tip, i | tip in t && 0 <= i < |t[tip]| :: t[tip][i] == parent && u[version] == [version] + t[tip][i..]
  }

  /** The storage's put: below a tip that branch grows; below another version another branch starts;
      and below a version that the tree does not hold there is nothing to put it on. */
  ghost predicate IsPut(t: VersionTree, parent: VersionName, version: VersionName, u: VersionTree, ok: bool) {
    if parent in t then ok && u == Extended(t, parent, version)
    else if Holds(t, parent) then ok && IsForked(t, parent, version, u)
    else !ok && u == t
  }

  class Storage {
    var blobs: set<Blob>
    var trees: map<DirectoryId, VersionTree>

    constructor ()
      ensures blobs == {} && trees == map[]
    {
      blobs, trees := {}, map[];
    }

    method PutBlob(blob: Blob)
      modifies this`blobs
      ensures blobs == old(blobs) + {blob}
    {
      blobs := blobs + {blob};
    }

    method CreateVersionTree(id: DirectoryId, first: VersionName)
      modifies this`trees
      ensures trees == old(trees)[id := NewTree(first)] && trees[id] == map[first := [first]]
    {
      trees := trees[id := NewTree(first)];
    }

    method PutVersion(id: DirectoryId, parent: VersionName, version: VersionName) returns (ok: bool)
      modifies this`trees
      ensures id !in old(trees) ==> !ok && trees == old(trees)
      ensures id in old(trees) ==>
        && id in trees && trees == old(trees)[id := trees[id]]
        && IsPut(old(trees)[id], parent, version, trees[id], ok)
      ensures id in old(trees) && parent in old(trees)[id] ==>
        ok && trees[id] == (old(trees)[id] - {parent})[version := [version] + old(trees)[id][parent]]
      ensures id in old(trees) && parent !in old(trees)[id] ==>
        && (ok <==> exists tip | tip in old(trees)[id] :: parent in old(trees)[id][tip])
        && (ok ==> trees[id].Keys == old(trees)[id].Keys + {version}
                   && exists tip, i | tip in old(trees)[id] && 0 <= i < |old(trees)[id][tip]| ::
                        old(trees)[id][tip][i] == parent && trees[id][version] == [version] + old(trees)[id][tip][i..])
        && (ok ==> forall tip | tip in old(trees)[id] && tip != version :: trees[id][tip] == old(trees)[id][tip])
        && (!ok ==> trees == old(trees))
    {
      ok := true;
      if id !in trees {
        ok := false;
      } else if parent in trees[id] {
        trees := trees[id := Extended(trees[id], parent, version)];
      } else if tip :| tip in trees[id] && parent in trees[id][tip] {
        var i :| 0 <= i < |trees[id][tip]| && trees[id][tip][i] == parent;
        trees := trees[id := trees[id][version := [version] + trees[id][tip][i..]]];
      } else {
        ok := false;
      }
    }
  }

  // ----- directories in storage -----

  /** The directory's versions and the store's tree for it belong together. */
  ghost predicate Chained(trees: map<DirectoryId, VersionTree>, id: DirectoryId, versions: seq<VersionName>) {
    if versions == [] then id !in trees else id in trees && OneChain(trees[id], versions)
  }

  // ----- handlers whose puts overlap -----

  /** A directory with its handlers and its version tree. The mutex orders the giving out of versions;
      nothing orders the puts. A storage may keep a version that comes before its parent, and adopt it
      when it has the parent (early); or refuse it, which ends the handler with an exception. */
  datatype Line = Line(dir: Dir, tree: Option<VersionTree>, early: seq<Outgoing>)

  datatype LineEvent = Handler(event: Event) | Adopt(i: nat)

  ghost predicate Takes(tree: Option<VersionTree>, o: Outgoing) {
    match o.parent
    case None => true
    case Some(parent) => tree.Some? && (parent in tree.value || Holds(tree.value, parent))
  }

  ghost predicate IsLanded(tree: Option<VersionTree>, o: Outgoing, u: Option<VersionTree>) {
    && Takes(tree, o) && u.Some?
    && match o.parent
       case None => u.value == NewTree(o.version)
       case Some(parent) => IsPut(tree.value, parent, o.version, u.value, true)
  }

  /** A handler's step or an adoption; a put is here the run of its parts. */
  ghost predicate LineStep(keeps: bool, l: Line, e: LineEvent, m: Line) {
    match e
    case Handler(event) =>
      && !event.PutEvent? && Enabled(l.dir, event) && m.dir == Apply(l.dir, event)
      && (match event
          case LandEvent(i) =>
            var o := l.dir.putting[i];
            if Takes(l.tree, o) then IsLanded(l.tree, o, m.tree) && m.early == l.early
            else keeps && m.tree == l.tree && m.early == l.early + [o]
          case FailVersionEvent(i) => !keeps && !Takes(l.tree, l.dir.putting[i]) && m.tree == l.tree
            && m.early == l.early
          case _ => m.tree == l.tree && m.early == l.early)
    case Adopt(i) =>
      && i < |l.early| && m.dir == l.dir && IsLanded(l.tree, l.early[i], m.tree) && m.early == Without(l.early, i)
  }

  predicate Refuses(e: LineEvent) {
    e.Handler? && e.event.FailVersionEvent?
  }

  /** What the order of the puts depends on: the deque's front, the tree, and the versions that have
      been given out and are neither in the tree nor refused. */
  datatype Outbox = Outbox(front: Option<VersionName>, tree: Option<VersionTree>, waiting: multiset<Outgoing>)

  function OutboxOf(l: Line): Outbox {
    Outbox(FrontOf(l.dir.versions), l.tree, multiset(l.dir.putting) + multiset(l.early))
  }

  ghost predicate GivesOut(b: Outbox, c: Outbox) {
    && c.front.Some? && c.front.value.index == (if b.front.None? then 0 else b.front.value.index + 1)
    && c.tree == b.tree && c.waiting == b.waiting + multiset{Outgoing(b.front, c.front.value)}
  }

  ghost predicate TakesIn(b: Outbox, o: Outgoing, c: Outbox) {
    c.front == b.front && IsLanded(b.tree, o, c.tree) && c.waiting == b.waiting - multiset{o}
  }

  ghost predicate Declines(b: Outbox, o: Outgoing, c: Outbox) {
    c.front == b.front && !Takes(b.tree, o) && c.tree == b.tree && c.waiting == b.waiting - multiset{o}
  }

  ghost predicate OutboxStep(b: Outbox, refuses: bool, c: Outbox) {
    if refuses then exists o | o in b.waiting :: Declines(b, o, c)
    else c == b || GivesOut(b, c) || exists o | o in b.waiting :: TakesIn(b, o, c)
  }

  lemma WithoutMultiset<T>(s: seq<T>, i: nat)
    requires i < |s|
    ensures multiset(Without(s, i)) == multiset(s) - multiset{s[i]}
  {
    assert s == s[..i] + [s[i]] + s[i + 1..];
  }

  lemma GiveOutStep(d: Dir, id: Blob)
    ensures var e := GiveOut(d, id);
      && e.versions != []
      && FrontOf(e.versions) == Some(VersionName(if d.versions == [] then 0 else d.versions[0].index + 1, id))
      && multiset(e.putting) == multiset(d.putting) + multiset{Outgoing(FrontOf(d.versions), e.versions[0])}
  {
  }

  lemma OtherSteps(d: Dir, e: Event)
    requires Enabled(d, e) && !e.PutEvent? && !e.LandEvent? && !e.FailVersionEvent? && !e.AddEvent?
    requires e.InitialiseEvent? ==> d.versions != []
    ensures Apply(d, e).versions == d.versions && Apply(d, e).putting == d.putting
  {
    hide Snapshot, Without;
  }

  lemma AdoptStep(keeps: bool, l: Line, i: nat, m: Line)
    requires LineStep(keeps, l, Adopt(i), m)
    ensures OutboxStep(OutboxOf(l), false, OutboxOf(m))
  {
    WithoutMultiset(l.early, i);
    hide IsLanded, Without;
    assert TakesIn(OutboxOf(l), l.early[i], OutboxOf(m));
  }

  /** A step that puts or fails to put a version. */
  lemma PutsStepIs(keeps: bool, l: Line, event: Event, m: Line)
    requires LineStep(keeps, l, Handler(event), m) && (event.LandEvent? || event.FailVersionEvent?)
    ensures event.i < |l.dir.putting|
    ensures m.dir.versions == l.dir.versions && m.dir.putting == Without(l.dir.putting, event.i)
    ensures var o := l.dir.putting[event.i];
      if event.FailVersionEvent? then !keeps && !Takes(l.tree, o) && m.tree == l.tree && m.early == l.early
      else if Takes(l.tree, o) then IsLanded(l.tree, o, m.tree) && m.early == l.early
      else m.tree == l.tree && m.early == l.early + [o]
  {
    hide IsLanded, Without, Takes;
  }

  lemma MovedOver<T>(p: multiset<T>, e: multiset<T>, o: T)
    requires o in p
    ensures (p - multiset{o}) + (e + multiset{o}) == p + e && (p - multiset{o}) + e == (p + e) - multiset{o}
    ensures o in p + e
  {
  }

  lemma LandStep(keeps: bool, l: Line, i: nat, m: Line)
    requires LineStep(keeps, l, Handler(LandEvent(i)), m)
    ensures OutboxStep(OutboxOf(l), false, OutboxOf(m))
  {
    PutsStepIs(keeps, l, LandEvent(i), m);
    var o := l.dir.putting[i];
    WithoutMultiset(l.dir.putting, i);
    MovedOver(multiset(l.dir.putting), multiset(l.early), o);
    hide IsLanded, Without, LineStep, Takes;
    if Takes(l.tree, o) {
      assert TakesIn(OutboxOf(l), o, OutboxOf(m));
    } else {
      assert multiset(m.early) == multiset(l.early) + multiset{o};
      assert OutboxOf(m) == OutboxOf(l);
    }
  }

  lemma RefuseStep(keeps: bool, l: Line, i: nat, m: Line)
    requires LineStep(keeps, l, Handler(FailVersionEvent(i)), m)
    ensures OutboxStep(OutboxOf(l), true, OutboxOf(m))
  {
    PutsStepIs(keeps, l, FailVersionEvent(i), m);
    var o := l.dir.putting[i];
    WithoutMultiset(l.dir.putting, i);
    MovedOver(multiset(l.dir.putting), multiset(l.early), o);
    hide IsLanded, Without, LineStep, Takes;
    assert Declines(OutboxOf(l), o, OutboxOf(m));
  }

  lemma GivesStep(keeps: bool, l: Line, e: LineEvent, m: Line)
    requires LineStep(keeps, l, e, m) && e.Handler?
    requires e.event.AddEvent? || (e.event.InitialiseEvent? && l.dir.versions == [])
    ensures GivesOut(OutboxOf(l), OutboxOf(m))
  {
    var d, i := l.dir, e.event.i;
    var id := if e.event.AddEvent? then d.adding[i] else d.initial[i];
    GiveOutStep(if e.event.AddEvent? then d.(adding := Without(d.adding, i))
                else d.(initial := Without(d.initial, i)), id);
    hide WithVersion, Without;
  }

  lemma LineStepIsOutboxStep(keeps: bool, l: Line, e: LineEvent, m: Line)
    requires LineStep(keeps, l, e, m)
    ensures OutboxStep(OutboxOf(l), Refuses(e), OutboxOf(m))
  {
    if e.Adopt? {
      AdoptStep(keeps, l, e.i, m);
    } else if e.event.LandEvent? {
      LandStep(keeps, l, e.event.i, m);
    } else if e.event.FailVersionEvent? {
      RefuseStep(keeps, l, e.event.i, m);
    } else if e.event.AddEvent? || (e.event.InitialiseEvent? && l.dir.versions == []) {
      GivesStep(keeps, l, e, m);
    } else {
      OtherSteps(l.dir, e.event);
      hide Apply, Enabled;
    }
  }

  // ----- the order of the puts -----

  /** All versions given out so far, in order, of which the tree holds the first n as one chain. */
  datatype History = History(names: seq<VersionName>, n: nat)

  function Place(h: History, v: VersionName): int {
    if h.names == [] then -1 else v.index - h.names[0].index
  }

  ghost predicate Numbered(h: History) {
    h.n <= |h.names| && forall k | 0 <= k < |h.names| :: h.names[k].index == h.names[0].index + k
  }

  ghost predicate TreeIs(tree: Option<VersionTree>, h: History)
    requires h.n <= |h.names|
  {
    if h.n == 0 then tree == None
    else tree.Some? && OneChain(tree.value, [h.names[h.n - 1]])
  }

  function OutgoingAt(h: History, p: nat): Outgoing
    requires p < |h.names|
  {
    Outgoing(if p == 0 then None else Some(h.names[p - 1]), h.names[p])
  }

  ghost predicate IsOutgoing(o: Outgoing, h: History) {
    h.n <= Place(h, o.version) < |h.names| && o == OutgoingAt(h, Place(h, o.version))
  }

  ghost predicate Follows(b: Outbox, h: History) {
    && Numbered(h) && TreeIs(b.tree, h)
    && b.front == (if h.names == [] then None else Some(h.names[|h.names| - 1]))
    && forall o | o in b.waiting :: b.waiting[o] == 1 && IsOutgoing(o, h)
  }

  /** The version at this place is neither in the tree nor still to be put. */
  ghost predicate IsRefused(b: Outbox, h: History, place: nat) {
    h.n <= place < |h.names| && OutgoingAt(h, place) !in b.waiting
  }

  ghost predicate NoneRefused(b: Outbox, h: History) {
    forall place: nat :: !IsRefused(b, h, place)
  }

  /** A version goes into the tree exactly if all that were given out before it are there; any other
      one names a parent that the tree does not hold. */
  lemma LandsIffNext(b: Outbox, h: History, o: Outgoing)
    requires Follows(b, h) && o in b.waiting
    ensures Takes(b.tree, o) <==> Place(h, o.version) == h.n
    ensures forall u | IsLanded(b.tree, o, u) :: TreeIs(u, h.(n := h.n + 1))
  {
    var p := Place(h, o.version);
    assert IsOutgoing(o, h);
    if h.n > 0 {
      var t, tip := b.tree.value, h.names[h.n - 1];
      assert p > 0 && t.Keys == {tip} && [tip] <= t[tip] && t[tip][0] == tip;
      assert Holds(t, tip) by { assert tip in t[tip]; }
      assert forall x | x in t[tip] :: x.index <= tip.index;
      assert o.parent.value.index == h.names[0].index + p - 1 && tip.index == h.names[0].index + h.n - 1;
      forall u | IsLanded(b.tree, o, u) ensures TreeIs(u, h.(n := h.n + 1)) {
        assert p == h.n && o.parent.value == tip;
        assert Descending([o.version] + t[tip]);
        assert u.value == map[o.version := [o.version] + t[tip]];
      }
    }
  }

  /** What a step does to a history: a new name at its end, or one more name in the tree. */
  ghost predicate Continues(b: Outbox, h: History, refuses: bool, c: Outbox, g: History) {
    && Follows(c, g) && h.names <= g.names && h.n <= g.n
    && (forall place: nat | IsRefused(b, h, place) :: IsRefused(c, g, place))
    && (if refuses then exists place: nat :: IsRefused(c, g, place)
        else forall place: nat | IsRefused(c, g, place) :: IsRefused(b, h, place))
  }

  /** Enough for that: the two agree on what is at each of the earlier places. */
  lemma RefusedAlike(b: Outbox, h: History, c: Outbox, g: History)
    requires Follows(c, g) && h.names <= g.names && h.n <= g.n
    requires forall p: nat | g.n <= p < |h.names| :: OutgoingAt(h, p) in b.waiting <==> OutgoingAt(h, p) in c.waiting
    requires forall p: nat | h.n <= p < g.n :: OutgoingAt(g, p) in b.waiting && p < |h.names|
    requires forall p: nat | |h.names| <= p < |g.names| :: OutgoingAt(g, p) in c.waiting
    ensures Continues(b, h, false, c, g)
  {
    hide Follows;
    assert forall p: nat | p < |h.names| :: OutgoingAt(g, p) == OutgoingAt(h, p);
  }

  lemma GivenOutFollows(b: Outbox, h: History, c: Outbox) returns (g: History)
    requires Follows(b, h) && GivesOut(b, c)
    ensures Continues(b, h, false, c, g)
  {
    var v := c.front.value;
    g := h.(names := h.names + [v]);
    var o := Outgoing(b.front, v);
    assert o == OutgoingAt(g, |h.names|) && Place(g, v) == |h.names|;
    assert Numbered(g) && TreeIs(c.tree, g) by { hide OneChain; }
    forall x | x in c.waiting ensures c.waiting[x] == 1 && IsOutgoing(x, g) { GivenOutIs(b, h, c, g, x); }
    assert c.front == Some(g.names[|g.names| - 1]);
    assert Follows(c, g) by { hide TreeIs, Numbered, IsOutgoing; }
    forall p: nat | p < |h.names| ensures OutgoingAt(h, p) in b.waiting <==> OutgoingAt(h, p) in c.waiting {
      assert OutgoingAt(h, p) != o by { assert h.names[p].index != v.index; }
    }
    hide TreeIs, Numbered, IsOutgoing, Follows, GivesOut;
    RefusedAlike(b, h, c, g);
  }

  lemma GivenOutIs(b: Outbox, h: History, c: Outbox, g: History, x: Outgoing)
    requires Follows(b, h) && GivesOut(b, c) && g == h.(names := h.names + [c.front.value]) && x in c.waiting
    ensures c.waiting[x] == 1 && IsOutgoing(x, g)
  {
    hide TreeIs, OneChain;
    var o := Outgoing(b.front, c.front.value);
    if x == o {
      assert x !in b.waiting by { assert !IsOutgoing(x, h); }
    } else {
      assert x in b.waiting && IsOutgoing(x, h);
    }
  }

  lemma TakenInFollows(b: Outbox, h: History, o: Outgoing, c: Outbox) returns (g: History)
    requires Follows(b, h) && o in b.waiting && TakesIn(b, o, c)
    ensures Continues(b, h, false, c, g)
  {
    g := h.(n := h.n + 1);
    TakenInIsNext(b, h, o, c);
    TakenInWaits(b, h, o, c);
    hide *;
    RefusedAlike(b, h, c, g);
  }

  lemma TakenInIsNext(b: Outbox, h: History, o: Outgoing, c: Outbox)
    requires Follows(b, h) && o in b.waiting && TakesIn(b, o, c)
    ensures h.n < |h.names| && o == OutgoingAt(h, h.n) && Follows(c, h.(n := h.n + 1))
  {
    LandsIffNext(b, h, o);
    var g := h.(n := h.n + 1);
    assert IsOutgoing(o, h) && o == OutgoingAt(h, h.n) && TreeIs(c.tree, g) && g.n <= |g.names|;
    forall x | x in c.waiting ensures c.waiting[x] == 1 && IsOutgoing(x, g) { TakenInIs(b, h, o, c, x); }
    hide TreeIs, IsOutgoing, Takes, IsLanded;
  }

  lemma TakenInWaits(b: Outbox, h: History, o: Outgoing, c: Outbox)
    requires Follows(b, h) && h.n < |h.names| && o == OutgoingAt(h, h.n) && o in b.waiting
    requires c.waiting == b.waiting - multiset{o}
    ensures forall p: nat | h.n < p < |h.names| :: OutgoingAt(h, p) in b.waiting <==> OutgoingAt(h, p) in c.waiting
  {
    hide TreeIs, IsOutgoing;
    forall p: nat | h.n < p < |h.names| ensures OutgoingAt(h, p) in b.waiting <==> OutgoingAt(h, p) in c.waiting {
      assert OutgoingAt(h, p) != o by { assert h.names[p].index != h.names[h.n].index; }
    }
  }

  lemma TakenInIs(b: Outbox, h: History, o: Outgoing, c: Outbox, x: Outgoing)
    requires Follows(b, h) && o in b.waiting && o == OutgoingAt(h, h.n)
    requires c.waiting == b.waiting - multiset{o} && x in c.waiting
    ensures c.waiting[x] == 1 && IsOutgoing(x, h.(n := h.n + 1))
  {
    hide TreeIs;
    assert x in b.waiting && x != o && IsOutgoing(x, h);
  }

  lemma DroppedFollows(b: Outbox, h: History, o: Outgoing, c: Outbox)
    requires Follows(b, h) && o in b.waiting && Declines(b, o, c)
    ensures Continues(b, h, true, c, h) && IsRefused(c, h, Place(h, o.version)) && Place(h, o.version) > h.n
  {
    LandsIffNext(b, h, o);
    assert IsOutgoing(o, h);
    hide OneChain, TreeIs, Takes;
    assert IsRefused(c, h, Place(h, o.version));
  }

  lemma StepContinues(keeps: bool, l: Line, h: History, e: LineEvent, m: Line) returns (g: History)
    requires Follows(OutboxOf(l), h) && LineStep(keeps, l, e, m)
    ensures Continues(OutboxOf(l), h, Refuses(e), OutboxOf(m), g)
  {
    LineStepIsOutboxStep(keeps, l, e, m);
    var b, c := OutboxOf(l), OutboxOf(m);
    hide LineStep, OutboxOf, Follows, TakesIn, Declines, GivesOut, IsRefused;
    g := h;
    if Refuses(e) {
      var o :| o in b.waiting && Declines(b, o, c);
      DroppedFollows(b, h, o, c);
    } else if GivesOut(b, c) {
      g := GivenOutFollows(b, h, c);
    } else if c != b {
      var o :| o in b.waiting && TakesIn(b, o, c);
      g := TakenInFollows(b, h, o, c);
    }
  }

  /** A run, with the state after each event. */
  ghost predicate IsTrace(keeps: bool, l: Line, run: seq<LineEvent>, states: seq<Line>)
    decreases |run|
  {
    && |states| == |run|
    && (run == [] || (LineStep(keeps, l, run[0], states[0]) && IsTrace(keeps, states[0], run[1..], states[1..])))
  }

  function EndOf(l: Line, states: seq<Line>): Line {
    if states == [] then l else states[|states| - 1]
  }

  predicate NeverRefuses(run: seq<LineEvent>) {
    forall e | e in run :: !Refuses(e)
  }

  /** Whatever the order of the puts, and whether or not the storage keeps what comes early, the tree
      never forks: it is one chain of versions in the order they were given out. What is once refused
      stays so, and nothing is refused exactly if no handler is. */
  lemma {:induction false} NeverForks(keeps: bool, l: Line, h: History, run: seq<LineEvent>, states: seq<Line>)
    returns (g: History)
    requires Follows(OutboxOf(l), h) && IsTrace(keeps, l, run, states)
    ensures Follows(OutboxOf(EndOf(l, states)), g) && h.names <= g.names && h.n <= g.n
    ensures forall place: nat | IsRefused(OutboxOf(l), h, place) :: IsRefused(OutboxOf(EndOf(l, states)), g, place)
    ensures NoneRefused(OutboxOf(EndOf(l, states)), g) <==> (NoneRefused(OutboxOf(l), h) && NeverRefuses(run))
    decreases |run|
  {
    g := h;
    if run != [] {
      var g0 := StepContinues(keeps, l, h, run[0], states[0]);
      ContinuesIs(OutboxOf(l), h, Refuses(run[0]), OutboxOf(states[0]), g0);
      FirstRefuses(run);
      assert EndOf(states[0], states[1..]) == EndOf(l, states);
      hide Follows, OutboxOf, LineStep, IsRefused, NoneRefused, Refuses, EndOf, Continues, NeverRefuses;
      g := NeverForks(keeps, states[0], g0, run[1..], states[1..]);
    }
  }

  lemma FirstRefuses(run: seq<LineEvent>)
    requires run != []
    ensures NeverRefuses(run) <==> !Refuses(run[0]) && NeverRefuses(run[1..])
  {
    assert run == [run[0]] + run[1..];
    hide Refuses;
  }

  lemma ContinuesIs(b: Outbox, h: History, refuses: bool, c: Outbox, g: History)
    requires Continues(b, h, refuses, c, g)
    ensures Follows(c, g) && h.names <= g.names && h.n <= g.n
    ensures forall place: nat | IsRefused(b, h, place) :: IsRefused(c, g, place)
    ensures NoneRefused(c, g) <==> NoneRefused(b, h) && !refuses
  {
    hide Follows, IsRefused;
  }

  /** The deque's front is the tree's only tip. */
  ghost predicate IsComplete(l: Line) {
    if l.dir.versions == [] then l.tree.None? else l.tree.Some? && l.tree.value.Keys == {l.dir.versions[0]}
  }

  lemma CompleteIff(l: Line, h: History)
    requires Follows(OutboxOf(l), h)
    ensures IsComplete(l) <==> h.n == |h.names|
  {
  }

  lemma NoneWaits(b: Outbox, h: History)
    requires Follows(b, h) && h.n == |h.names|
    ensures b.waiting == multiset{}
  {
    assert forall o :: o !in b.waiting;
  }

  /** A put that comes before its turn is refused for good by a storage that refuses it, and with it
      every version given out after it: once no version is under way, the tree has got as far as the
      deque exactly if none was refused. */
  lemma CompleteIffNeverRefuses(l: Line, h: History, run: seq<LineEvent>, states: seq<Line>)
    requires Follows(OutboxOf(l), h) && NoneRefused(OutboxOf(l), h) && IsTrace(false, l, run, states)
    requires EndOf(l, states).dir.putting == [] && EndOf(l, states).early == []
    ensures IsComplete(EndOf(l, states)) <==> NeverRefuses(run)
  {
    var last := EndOf(l, states);
    var g := NeverForks(false, l, h, run, states);
    CompleteIff(last, g);
    var b := OutboxOf(last);
    assert b.waiting == multiset{};
    hide Follows, IsTrace, IsComplete, OutboxOf, NeverRefuses, EndOf;
    if g.n < |g.names| { assert IsRefused(b, g, g.n); }
  }

  /** A storage that keeps it loses nothing: once no version is under way and none can be adopted,
      the tree has got as far as the deque. */
  lemma KeepingCompletes(l: Line, h: History, run: seq<LineEvent>, states: seq<Line>)
    requires Follows(OutboxOf(l), h) && NoneRefused(OutboxOf(l), h) && IsTrace(true, l, run, states)
    requires EndOf(l, states).dir.putting == []
    requires forall o | o in EndOf(l, states).early :: !Takes(EndOf(l, states).tree, o)
    ensures IsComplete(EndOf(l, states)) && EndOf(l, states).early == []
  {
    var last := EndOf(l, states);
    var g := NeverForks(true, l, h, run, states);
    KeepingNeverRefuses(l, run, states);
    CompleteIff(last, g);
    var b := OutboxOf(last);
    if g.n < |g.names| {
      var o := OutgoingAt(g, g.n);
      assert !IsRefused(b, g, g.n) && o in b.waiting && o in last.early;
      LandsIffNext(b, g, o);
    } else {
      NoneWaits(b, g);
      assert |b.waiting| == |last.early|;
    }
  }

  lemma {:induction false} KeepingNeverRefuses(l: Line, run: seq<LineEvent>, states: seq<Line>)
    requires IsTrace(true, l, run, states)
    ensures NeverRefuses(run)
    decreases |run|
  {
    if run != [] {
      KeepingNeverRefuses(states[0], run[1..], states[1..]);
      assert run == [run[0]] + run[1..];
    }
  }

  // ----- what a refusal does to the directory -----

  /** The directory's own run. */
  function HandlerRun(run: seq<LineEvent>): seq<Event> {
    if run == [] then [] else (match run[0] case Handler(e) => [e] case Adopt(_) => []) + HandlerRun(run[1..])
  }

  lemma {:induction false} LineIsRun(keeps: bool, l: Line, run: seq<LineEvent>, states: seq<Line>)
    requires IsTrace(keeps, l, run, states)
    ensures IsRun(l.dir, HandlerRun(run)) && After(l.dir, HandlerRun(run)) == EndOf(l, states).dir
    decreases |run|
  {
    if run != [] {
      hide Apply, Enabled;
      LineIsRun(keeps, states[0], run[1..], states[1..]);
      assert EndOf(states[0], states[1..]) == EndOf(l, states);
      if run[0].Handler? {
        assert HandlerRun(run) == [run[0].event] + HandlerRun(run[1..]);
        RunOfOne(l.dir, run[0].event, HandlerRun(run[1..]));
      } else {
        assert HandlerRun(run) == HandlerRun(run[1..]);
      }
    }
  }

  lemma {:induction false} RefusalIsAThrow(l: Line, run: seq<LineEvent>, states: seq<Line>)
    requires IsTrace(false, l, run, states) && IsRun(l.dir, HandlerRun(run)) && NeverThrows(l.dir, HandlerRun(run))
    ensures NeverRefuses(run)
    decreases |run|
  {
    if run != [] {
      hide Apply;
      assert run == [run[0]] + run[1..];
      if run[0].Handler? {
        assert HandlerRun(run) == [run[0].event] + HandlerRun(run[1..]);
        assert HandlerRun(run)[1..] == HandlerRun(run[1..]);
      } else {
        assert HandlerRun(run) == HandlerRun(run[1..]);
      }
      RefusalIsAThrow(states[0], run[1..], states[1..]);
    }
  }

  /** A directory of which one put was refused never again has no handler counted, so that the wait of
      a rename never ends. */
  lemma RefusedNeverQuiet(l: Line, run: seq<LineEvent>, states: seq<Line>)
    requires Counted(l.dir) && NotLost(l.dir) && l.dir.failed == 0 && IsTrace(false, l, run, states)
    requires !NeverRefuses(run)
    ensures EndOf(l, states).dir.failed > 0
    ensures forall more :: !UntilQuiet(EndOf(l, states).dir, more)
  {
    LineIsRun(false, l, run, states);
    if NeverThrows(l.dir, HandlerRun(run)) { RefusalIsAThrow(l, run, states); }
    FailedIffThrows(l.dir, HandlerRun(run));
    EveryRun(l.dir, HandlerRun(run));
    WaitCanEndIff(EndOf(l, states).dir);
  }

  // ----- where such runs start -----

  /** A directory with its tree and no version under way. */
  lemma ChainedFollows(d: Dir, tree: Option<VersionTree>)
    requires d.putting == []
    requires if d.versions == [] then tree.None? else tree.Some? && OneChain(tree.value, d.versions)
    ensures var h := if d.versions == [] then History([], 0) else History([d.versions[0]], 1);
      Follows(OutboxOf(Line(d, tree, [])), h) && NoneRefused(OutboxOf(Line(d, tree, [])), h)
  {
  }

  // ----- a put that comes early -----

  function HandlersOf(run: seq<Event>): seq<LineEvent> {
    if run == [] then [] else [Handler(run[0])] + HandlersOf(run[1..])
  }

  /** Steps that put nothing leave the tree alone. */
  lemma {:induction false} LineOfRun(keeps: bool, l: Line, run: seq<Event>) returns (states: seq<Line>)
    requires IsRun(l.dir, run) && forall e | e in run :: !PutsVersion(e)
    ensures IsTrace(keeps, l, HandlersOf(run), states) && EndOf(l, states) == l.(dir := After(l.dir, run))
    decreases |run|
  {
    states := [];
    if run != [] {
      var m := l.(dir := Apply(l.dir, run[0]));
      assert LineStep(keeps, l, Handler(run[0]), m) by { assert run[0] in run; }
      hide Apply, Enabled, LineStep;
      assert run == [run[0]] + run[1..];
      var rest := LineOfRun(keeps, m, run[1..]);
      states := [m] + rest;
      assert states[1..] == rest && HandlersOf(run)[1..] == HandlersOf(run[1..]);
    }
  }

  lemma {:induction false} OneMoreLineStep(keeps: bool, l: Line, run: seq<LineEvent>, states: seq<Line>, e: LineEvent,
                                           m: Line)
    requires IsTrace(keeps, l, run, states) && LineStep(keeps, EndOf(l, states), e, m)
    ensures IsTrace(keeps, l, run + [e], states + [m]) && EndOf(l, states + [m]) == m
    decreases |run|
  {
    hide LineStep;
    if run == [] {
      assert ([] + [e])[1..] == [] && ([] + [m])[1..] == [];
    } else {
      assert (run + [e])[1..] == run[1..] + [e] && (states + [m])[1..] == states[1..] + [m];
      OneMoreLineStep(keeps, states[0], run[1..], states[1..], e, m);
    }
  }

  /** A new directory has been stored, changed and stored again, up to the puts of the two versions. */
  function TwoUnderWay(parentId: DirectoryId, directoryId: DirectoryId, maxVersions: nat, c: Children): Dir {
    var d := Blank(parentId, directoryId, maxVersions);
    var first := VersionName(0, Blob(parentId, directoryId, Snapshot(d)));
    var second := VersionName(1, Blob(parentId, directoryId, Snapshot(d.(children := c))));
    d.(children := c, versions := if maxVersions < 2 then [second] else [second, first], pendingCount := 2,
       putting := [Outgoing(None, first), Outgoing(Some(first), second)])
  }

  lemma TwoUnderWayRun(parentId: DirectoryId, directoryId: DirectoryId, maxVersions: nat, c: Children)
    returns (run: seq<Event>)
    ensures var d := Created(parentId, directoryId, maxVersions);
      IsRun(d, run) && After(d, run) == TwoUnderWay(parentId, directoryId, maxVersions, c)
    ensures forall e | e in run :: !PutsVersion(e)
  {
    var d := Blank(parentId, directoryId, maxVersions);
    var start := Created(parentId, directoryId, maxVersions);
    FirstUnderWayRun(parentId, directoryId, maxVersions);
    run := [ExpireEvent, StartFiredEvent, SnapshotEvent, MarkEvent(0), EncryptEvent(0), CountEvent(0),
            InitialiseEvent(0)];
    var d1 := OneUnderWay(parentId, directoryId, maxVersions);
    var more := ChangedAndCountedRun(d1, c);
    SecondUnderWay(parentId, directoryId, maxVersions, c);
    assert forall e | e in run :: !PutsVersion(e);
    hide *;
    RunsJoin(start, run, more);
    LeadsOn(start, run + more, AddEvent(0), TwoUnderWay(parentId, directoryId, maxVersions, c));
    run := run + more + [AddEvent(0)];
    assert !PutsVersion(AddEvent(0)) by { NoPut(); }
  }

  lemma NoPut()
    ensures !PutsVersion(AddEvent(0))
  {
  }

  lemma LeadsOn(d: Dir, run: seq<Event>, e: Event, f: Dir)
    requires IsRun(d, run) && Leads(After(d, run), e, f)
    ensures IsRun(d, run + [e]) && After(d, run + [e]) == f
  {
    OneMoreStep(d, run, e);
  }

  /** The directory with its first version under way. */
  function OneUnderWay(parentId: DirectoryId, directoryId: DirectoryId, maxVersions: nat): Dir {
    var d := Blank(parentId, directoryId, maxVersions);
    var first := VersionName(0, Blob(parentId, directoryId, Snapshot(d)));
    d.(versions := [first], storeState := Complete, pendingCount := 1, putting := [Outgoing(None, first)])
  }

  lemma SecondUnderWay(parentId: DirectoryId, directoryId: DirectoryId, maxVersions: nat, c: Children)
    ensures var d := ChangedAndCounted(OneUnderWay(parentId, directoryId, maxVersions), c);
      Leads(d, AddEvent(0), TwoUnderWay(parentId, directoryId, maxVersions, c))
  {
    var d := Blank(parentId, directoryId, maxVersions);
    assert Without([Blob(parentId, directoryId, Snapshot(d.(children := c)))], 0) == [];
    hide ProtoChildren;
  }

  lemma FirstUnderWayRun(parentId: DirectoryId, directoryId: DirectoryId, maxVersions: nat)
    ensures var run := [ExpireEvent, StartFiredEvent, SnapshotEvent, MarkEvent(0), EncryptEvent(0), CountEvent(0),
                        InitialiseEvent(0)];
      && IsRun(Created(parentId, directoryId, maxVersions), run)
      && After(Created(parentId, directoryId, maxVersions), run) == OneUnderWay(parentId, directoryId, maxVersions)
  {
    var d := Created(parentId, directoryId, maxVersions);
    var d3 := TakeSnapshot(StartFired(Expire(d)));
    var d4 := MarkOngoing(d3, 0);
    var d5 := Encrypt(d4, 0);
    var d6 := CountVersions(d5, 0);
    RunOfOne(d6, InitialiseEvent(0), []);
    RunOfOne(d5, CountEvent(0), [InitialiseEvent(0)]);
    RunOfOne(d4, EncryptEvent(0), [CountEvent(0), InitialiseEvent(0)]);
    RunOfOne(d3, MarkEvent(0), [EncryptEvent(0), CountEvent(0), InitialiseEvent(0)]);
    FirstSnapshotRun(d, [MarkEvent(0), EncryptEvent(0), CountEvent(0), InitialiseEvent(0)]);
    assert [ExpireEvent, StartFiredEvent, SnapshotEvent]
      + [MarkEvent(0), EncryptEvent(0), CountEvent(0), InitialiseEvent(0)]
        == [ExpireEvent, StartFiredEvent, SnapshotEvent, MarkEvent(0), EncryptEvent(0), CountEvent(0),
            InitialiseEvent(0)];
  }

  lemma SecondIsEarly(d: Dir, first: Outgoing, second: Outgoing)
    requires d.putting == [first, second] && second.parent.Some?
    ensures var f := d.(putting := [first], failed := d.failed + 1);
      LineStep(false, Line(d, None, []), Handler(FailVersionEvent(1)), Line(f, None, []))
    ensures var f := d.(putting := [first], finishing := d.finishing + 1);
      LineStep(true, Line(d, None, []), Handler(LandEvent(1)), Line(f, None, [second]))
  {
    assert Without(d.putting, 1) == [first];
    hide Snapshot, WithVersion, Without;
  }

  lemma FirstLands(keeps: bool, d: Dir, first: Outgoing, early: seq<Outgoing>)
    requires d.putting == [first] && first.parent.None?
    ensures var f := d.(putting := [], finishing := d.finishing + 1);
      LineStep(keeps, Line(d, None, early), Handler(LandEvent(0)), Line(f, Some(NewTree(first.version)), early))
  {
    assert Without(d.putting, 0) == [];
    hide Snapshot, WithVersion, Without;
  }

  lemma SecondIsAdopted(d: Dir, first: VersionName, second: Outgoing)
    requires second.parent == Some(first)
    ensures var tree := NewTree(first);
      LineStep(true, Line(d, Some(tree), [second]), Adopt(0), Line(d, Some(Extended(tree, first, second.version)), []))
  {
    assert Without([second], 0) == [];
  }

  lemma Finishes(keeps: bool, l: Line)
    requires l.dir.finishing > 0 && l.dir.newParent.None?
    ensures LineStep(keeps, l, Handler(FinishEvent),
                     l.(dir := l.dir.(finishing := l.dir.finishing - 1, pendingCount := l.dir.pendingCount - 1)))
  {
    hide Snapshot, WithVersion, Without;
  }

  /** The second version's put comes first. A storage that refuses it has the first version alone as its
      tree, under a newer front, and a handler is counted for ever ... */
  lemma EarlyPutIsRefused(parentId: DirectoryId, directoryId: DirectoryId, maxVersions: nat, c: Children)
    returns (run: seq<LineEvent>, states: seq<Line>)
    ensures var l := Line(Created(parentId, directoryId, maxVersions), None, []);
      && IsTrace(false, l, run, states)
      && var last := EndOf(l, states);
      && Handlers(last.dir) == 0 && last.dir.pendingCount == 1 && !last.dir.unsaved && !IsComplete(last)
  {
    var l := Line(Created(parentId, directoryId, maxVersions), None, []);
    var d := TwoUnderWay(parentId, directoryId, maxVersions, c);
    var start := TwoUnderWayRun(parentId, directoryId, maxVersions, c);
    states := LineOfRun(false, l, start);
    run := HandlersOf(start);
    hide LineStep, After, IsRun, IsTrace;
    var first, second := d.putting[0], d.putting[1];
    var f := d.(putting := [first], failed := 1);
    var m1 := Line(f, None, []);
    var m2 := Line(f.(putting := [], finishing := 1), Some(NewTree(first.version)), []);
    var m3 := m2.(dir := f.(putting := [], pendingCount := 1));
    SecondIsEarly(d, first, second);
    FirstLands(false, f, first, []);
    Finishes(false, m2);
    assert Handlers(m3.dir) == 0 && !IsComplete(m3);
    hide *;
    OneMoreLineStep(false, l, run, states, Handler(FailVersionEvent(1)), m1);
    run, states := run + [Handler(FailVersionEvent(1))], states + [m1];
    OneMoreLineStep(false, l, run, states, Handler(LandEvent(0)), m2);
    run, states := run + [Handler(LandEvent(0))], states + [m2];
    OneMoreLineStep(false, l, run, states, Handler(FinishEvent), m3);
    run, states := run + [Handler(FinishEvent)], states + [m3];
  }

  /** ... and one that keeps it adopts it. */
  lemma EarlyPutIsAdopted(parentId: DirectoryId, directoryId: DirectoryId, maxVersions: nat, c: Children)
    returns (run: seq<LineEvent>, states: seq<Line>)
    ensures var l := Line(Created(parentId, directoryId, maxVersions), None, []);
      && IsTrace(true, l, run, states)
      && var last := EndOf(l, states);
      && last.dir.pendingCount == 0 && !last.dir.unsaved && IsComplete(last)
  {
    var l := Line(Created(parentId, directoryId, maxVersions), None, []);
    var d := TwoUnderWay(parentId, directoryId, maxVersions, c);
    var start := TwoUnderWayRun(parentId, directoryId, maxVersions, c);
    states := LineOfRun(true, l, start);
    run := HandlersOf(start);
    hide LineStep, After, IsRun, IsTrace;
    var first, second := d.putting[0], d.putting[1];
    var tree := NewTree(first.version);
    var m1 := Line(d.(putting := [first], finishing := 1), None, [second]);
    var m2 := Line(d.(putting := [], finishing := 2), Some(tree), [second]);
    var m3 := m2.(tree := Some(Extended(tree, first.version, second.version)), early := []);
    var m4 := m3.(dir := d.(putting := [], finishing := 1, pendingCount := 1));
    var m5 := m3.(dir := d.(putting := [], pendingCount := 0));
    SecondIsEarly(d, first, second);
    FirstLands(true, m1.dir, first, [second]);
    SecondIsAdopted(m2.dir, first.version, second);
    Finishes(true, m3);
    Finishes(true, m4);
    assert IsComplete(m5);
    hide *;
    OneMoreLineStep(true, l, run, states, Handler(LandEvent(1)), m1);
    run, states := run + [Handler(LandEvent(1))], states + [m1];
    OneMoreLineStep(true, l, run, states, Handler(LandEvent(0)), m2);
    run, states := run + [Handler(LandEvent(0))], states + [m2];
    OneMoreLineStep(true, l, run, states, Adopt(0), m3);
    run, states := run + [Adopt(0)], states + [m3];
    OneMoreLineStep(true, l, run, states, Handler(FinishEvent), m4);
    run, states := run + [Handler(FinishEvent)], states + [m4];
    OneMoreLineStep(true, l, run, states, Handler(FinishEvent), m5);
    run, states := run + [Handler(FinishEvent)], states + [m5];
  }
}
