/** The loop at the end of DirectoryHandler::Rename: it walks the path cache from the source on and
    gives every entry whose key's text starts with the source's text a new key. */
module Rekey {
  import opened Lexicographic
  import opened Paths

  datatype Iterator = At(key: Path) | End

  /** The cache while the loop runs, and the loop's iterator into it. */
  datatype Cursor<V> = Cursor(cache: map<Path, V>, at: Iterator)

  // ----- std::map in key order -----

  predicate NotAfter(p: Path, q: Path) {
    p == q || PathLess(p, q)
  }

  predicate IsLeast(k: Path, keys: set<Path>) {
    k in keys && forall x | x in keys :: NotAfter(k, x)
  }

  lemma NotAfterOrder(p: Path, q: Path)
    ensures NotAfter(p, q) <==> !PathLess(q, p)
  {
    PathOrder();
  }

  lemma {:induction false} LeastExists(keys: set<Path>)
    requires keys != {}
    ensures exists k :: IsLeast(k, keys)
  {
    PathOrder();
    var x :| x in keys;
    var rest := keys - {x};
    if rest == {} {
      assert keys == {x};
      assert IsLeast(x, keys);
    } else {
      LeastExists(rest);
      var y :| IsLeast(y, rest);
      var least := if PathLess(x, y) then x else y;
      forall k | k in keys ensures NotAfter(least, k) {
        if k != x { assert k in rest; assert NotAfter(y, k); }
      }
      assert IsLeast(least, keys);
    }
  }

  lemma LeastUnique(k: Path, j: Path, keys: set<Path>)
    requires IsLeast(k, keys) && IsLeast(j, keys)
    ensures k == j
  {
    PathOrder();
  }

  function Least(keys: set<Path>): (r: Iterator)
    ensures r.End? <==> keys == {}
    ensures r.At? ==> IsLeast(r.key, keys)
  {
    if keys == {} then End
    else
      LeastExists(keys);
      assert forall k, j | IsLeast(k, keys) && IsLeast(j, keys) :: k == j by {
        forall k, j | IsLeast(k, keys) && IsLeast(j, keys) ensures k == j { LeastUnique(k, j, keys); }
      }
      var k :| IsLeast(k, keys);
      At(k)
  }

  lemma LeastIsBefore(keys: set<Path>)
    ensures forall k | k in keys :: Least(keys).At? && !PathLess(k, Least(keys).key)
  {
    forall k | k in keys ensures Least(keys).At? && !PathLess(k, Least(keys).key) {
      NotAfterOrder(Least(keys).key, k);
    }
  }

  function LowerBound(keys: set<Path>, p: Path): (r: Iterator)
    ensures r.At? ==> r.key in keys && !PathLess(r.key, p)
    ensures forall k | k in keys && !PathLess(k, p) :: r.At? && !PathLess(k, r.key)
  {
    var from := set k | k in keys && !PathLess(k, p);
    LeastIsBefore(from);
    assert forall k | k in keys && !PathLess(k, p) :: k in from;
    Least(from)
  }

  function Next(keys: set<Path>, p: Path): (r: Iterator)
    ensures r.At? ==> r.key in keys && PathLess(p, r.key)
    ensures forall k | k in keys && PathLess(p, k) :: r.At? && !PathLess(k, r.key)
  {
    var from := set k | k in keys && PathLess(p, k);
    LeastIsBefore(from);
    assert forall k | k in keys && PathLess(p, k) :: k in from;
    Least(from)
  }

  // ----- one run of the loop -----

  predicate Done<V>(src: Path, w: Cursor<V>)
    requires |src| >= 2
  {
    w.at.End? || !Covers(src, w.at.key)
  }

  predicate WellFormed<V>(w: Cursor<V>) {
    w.at.At? ==> w.at.key in w.cache
  }

  /** insert keeps an entry that is already there; erase returns the entry after the erased one. */
  function Step<V>(src: Path, dst: Path, w: Cursor<V>): (r: Cursor<V>)
    requires |src| >= 2 && |dst| >= 2 && WellFormed(w) && !Done(src, w)
    ensures WellFormed(r)
  {
    var k := w.at.key;
    var to := Retarget(src, dst, k);
    var inserted := if to in w.cache then w.cache else w.cache[to := w.cache[k]];
    var erased := inserted - {k};
    Cursor(erased, Next(erased.Keys, k))
  }

  function Start<V>(src: Path, c: map<Path, V>): (r: Cursor<V>)
    ensures WellFormed(r)
  {
    Cursor(c, LowerBound(c.Keys, src))
  }

  /** The loop's state after at most n iterations. */
  ghost function Run<V>(src: Path, dst: Path, c: map<Path, V>, n: nat): (r: Cursor<V>)
    requires |src| >= 2 && |dst| >= 2
    ensures WellFormed(r)
  {
    if n == 0 then Start(src, c)
    else
      var w := Run(src, dst, c, n - 1);
      if Done(src, w) then w else Step(src, dst, w)
  }

  // ----- what the loop is for -----

  /** The entries at or below src, moved below dst; every other entry as it was. */
  ghost function Moved<V>(src: Path, dst: Path, c: map<Path, V>): map<Path, V> {
    MovedPart(src, dst, c, set k | k in c && IsWithin(src, k))
  }

  function Target(src: Path, dst: Path, k: Path): Path
    requires IsWithin(src, k)
  {
    dst + k[|src|..]
  }

  function Origin(src: Path, dst: Path, k: Path): Path
    requires IsWithin(dst, k)
  {
    src + k[|dst|..]
  }

  ghost function Targets(src: Path, dst: Path, done: set<Path>): (r: set<Path>)
    requires forall d | d in done :: IsWithin(src, d)
    ensures forall k :: k in r <==> IsWithin(dst, k) && Origin(src, dst, k) in done
  {
    var r := set d | d in done :: Target(src, dst, d);
    assert forall k :: k in r <==> IsWithin(dst, k) && Origin(src, dst, k) in done by {
      forall k ensures k in r <==> IsWithin(dst, k) && Origin(src, dst, k) in done {
        if k in r {
          var d :| d in done && k == Target(src, dst, d);
          assert IsWithin(src, d) && d == src + d[|src|..];
          assert k[|dst|..] == d[|src|..];
          assert Origin(src, dst, k) == d;
        }
        if IsWithin(dst, k) && Origin(src, dst, k) in done {
          assert Target(src, dst, Origin(src, dst, k)) == k;
        }
      }
    }
    r
  }

  ghost function MovedPart<V>(src: Path, dst: Path, c: map<Path, V>, done: set<Path>): map<Path, V>
    requires forall d | d in done :: d in c && IsWithin(src, d)
  {
    map k | k in (c.Keys - done) + Targets(src, dst, done) ::
      if k in Targets(src, dst, done) then c[Origin(src, dst, k)] else c[k]
  }

  /** What Rename has established before the loop runs: two proper paths, neither inside the other,
      and no cached entry where the loop is about to put one. */
  ghost predicate Prepared<V>(src: Path, dst: Path, c: map<Path, V>) {
    && |src| >= 2 && |dst| >= 2 && IsPath(src) && IsPath(dst)
    && !IsWithin(src, dst) && !IsWithin(dst, src)
    && (forall k | k in c :: IsPath(k))
    && (forall k {:trigger IsWithin(src, k)} | k in c && IsWithin(src, k) :: Target(src, dst, k) !in c)
  }

  /** No cached key outside src's subtree has a text that starts with src's, and src's text does
      not start dst's (unless there is nothing for the loop to visit). */
  predicate Safe<V>(src: Path, dst: Path, c: map<Path, V>)
    requires |src| >= 2
  {
    forall k | k in c && Covers(src, k) :: IsWithin(src, k) && !Covers(src, dst)
  }

  lemma {:induction false} SharedFrontInterval(n: nat, src: Path, m: Path, c: Path)
    requires n < |src| && n < |c| && src[..n] == c[..n] && src[n] <= c[n]
    requires !PathLess(m, src) && NotAfter(m, c)
    ensures n < |m| && m[..n] == src[..n] && src[n] <= m[n]
  {
    NameOrder();
    if m != c {
      if n == 0 {
        LessIsStrictTotalOrder(CharLess);
        PrefixedFormInterval(CharLess, src[0], m[0], c[0]);
      } else {
        assert src[0] == src[..n][0] == c[..n][0] == c[0];
        assert m[0] == src[0];
        assert src[1..][..n - 1] == src[..n][1..] == c[..n][1..] == c[1..][..n - 1];
        SharedFrontInterval(n - 1, src[1..], m[1..], c[1..]);
        assert m[..n] == [m[0]] + m[1..][..n - 1];
        assert src[..n] == [src[0]] + src[1..][..n - 1];
      }
    }
  }

  /** The keys the loop's test accepts are an interval that starts at the source. */
  lemma CoveredFormInterval(src: Path, m: Path, c: Path)
    requires |src| >= 2 && Covers(src, c)
    requires !PathLess(m, src) && NotAfter(m, c)
    ensures Covers(src, m)
  {
    SharedFrontInterval(|src| - 1, src, m, c);
  }

  lemma {:induction false} SharedFrontLess(n: nat, a: Path, b: Path)
    requires n < |a| && n < |b| && a[..n] == b[..n] && NameLess(a[n], b[n])
    ensures PathLess(a, b)
  {
    if n > 0 {
      assert a[0] == a[..n][0] == b[..n][0] == b[0];
      assert a[1..][..n - 1] == a[..n][1..] == b[..n][1..] == b[1..][..n - 1];
      SharedFrontLess(n - 1, a[1..], b[1..]);
    }
  }

  lemma CoveredNotBefore(src: Path, k: Path)
    requires |src| >= 2 && Covers(src, k)
    ensures !PathLess(k, src)
  {
    PathOrder();
    NameOrder();
    var n := |src| - 1;
    if src[n] < k[n] {
      ProperPrefixIsLess(CharLess, src[n], k[n]);
      SharedFrontLess(n, src, k);
      assert PathLess(src, k);
    } else {
      assert src[n] == k[n];
      assert src == src[..n] + [src[n]] == k[..n] + [k[n]] == k[..n + 1];
      if src != k {
        ProperPrefixIsLess(NameLess, src, k);
        assert PathLess(src, k);
      }
    }
  }

  lemma WithinIsCovered(src: Path, k: Path)
    requires |src| >= 2 && IsWithin(src, k)
    ensures Covers(src, k)
  {
    assert k[|src| - 1] == FileName(src);
    assert k[..|src| - 1] == src[..|src| - 1];
  }

  lemma WithinRetargets(src: Path, dst: Path, k: Path)
    requires |src| >= 2 && |dst| >= 2 && IsWithin(src, k)
    ensures Covers(src, k) && Retarget(src, dst, k) == Target(src, dst, k)
  {
    WithinIsCovered(src, k);
    assert k[|src| - 1] == FileName(src);
    assert k[|src| - 1][|FileName(src)|..] == "";
    assert FileName(dst) + "" == FileName(dst);
    assert dst == Parent(dst) + [FileName(dst)];
  }

  lemma PrefixesNest(a: Path, b: Path, c: Path)
    ensures |a| <= |b| && a <= c && b <= c ==> a <= b
  {
  }

  lemma CoveredTarget(src: Path, dst: Path, r: seq<Name>)
    requires |src| >= 2 && |dst| >= 2 && Covers(src, dst + r)
    ensures Covers(src, dst) || IsWithin(dst, src)
  {
    var n := |src| - 1;
    var k := dst + r;
    if |dst| <= n {
      PrefixesNest(dst, k[..n], k);
      assert dst <= src[..n];
    } else {
      assert k[..n] == dst[..n] && k[n] == dst[n];
    }
  }

  // ----- a safe loop moves exactly the subtree -----

  ghost function Passed<V>(src: Path, c: map<Path, V>, at: Iterator): set<Path> {
    set k | k in c && IsWithin(src, k) && (at.End? || PathLess(k, at.key))
  }

  /** The loop has moved the subtree's keys before its iterator and touched nothing else. */
  ghost predicate InProgress<V>(src: Path, dst: Path, c: map<Path, V>, w: Cursor<V>) {
    && WellFormed(w)
    && w.cache == MovedPart(src, dst, c, Passed(src, c, w.at))
    && (w.at.At? ==> !PathLess(w.at.key, src))
  }

  lemma StartInProgress<V>(src: Path, dst: Path, c: map<Path, V>)
    requires Prepared(src, dst, c)
    ensures InProgress(src, dst, c, Start(src, c))
  {
    var w := Start(src, c);
    forall k | k in c && IsWithin(src, k)
      ensures w.at.At? && !PathLess(k, w.at.key)
    {
      WithinIsCovered(src, k);
      CoveredNotBefore(src, k);
    }
    assert Passed(src, c, w.at) == {};
    MovedNothing(src, dst, c);
  }

  lemma MovedNothing<V>(src: Path, dst: Path, c: map<Path, V>)
    ensures MovedPart(src, dst, c, {}) == c
  {
    assert Targets(src, dst, {}) == {};
  }

  lemma VisitedKey<V>(src: Path, dst: Path, c: map<Path, V>, w: Cursor<V>)
    requires Prepared(src, dst, c) && Safe(src, dst, c)
    requires InProgress(src, dst, c, w) && !Done(src, w)
    ensures w.at.key in c && IsWithin(src, w.at.key) && w.at.key !in Passed(src, c, w.at)
    ensures w.cache[w.at.key] == c[w.at.key]
  {
    PathOrder();
    var k := w.at.key;
    var passed := Passed(src, c, w.at);
    if k !in c {
      var d :| d in passed && k == Target(src, dst, d);
      CoveredTarget(src, dst, d[|src|..]);
      WithinIsCovered(src, d);
    }
    assert k !in passed;
    if IsWithin(dst, k) {
      WithinExclusive(src, dst, k);
    }
  }

  lemma WithinExclusive(src: Path, dst: Path, k: Path)
    requires !IsWithin(src, dst) && !IsWithin(dst, src)
    ensures !(IsWithin(src, k) && IsWithin(dst, k))
  {
    if |src| <= |dst| {
      PrefixesNest(src, dst, k);
    } else {
      PrefixesNest(dst, src, k);
    }
  }

  lemma StepInProgress<V>(src: Path, dst: Path, c: map<Path, V>, w: Cursor<V>)
    requires Prepared(src, dst, c) && Safe(src, dst, c)
    requires InProgress(src, dst, c, w) && !Done(src, w)
    ensures InProgress(src, dst, c, Step(src, dst, w))
    ensures w.at.key in c && IsWithin(src, w.at.key) && w.at.key !in Passed(src, c, w.at)
    ensures Passed(src, c, Step(src, dst, w).at) == Passed(src, c, w.at) + {w.at.key}
  {
    VisitedKey(src, dst, c, w);
    var k := w.at.key;
    var to := Target(src, dst, k);
    WithinRetargets(src, dst, k);
    AfterPassed(src, dst, c, w);
    MovedOneMore(src, dst, c, Passed(src, c, w.at), k);
  }

  lemma AfterPassed<V>(src: Path, dst: Path, c: map<Path, V>, w: Cursor<V>)
    requires Prepared(src, dst, c)
    requires InProgress(src, dst, c, w) && !Done(src, w)
    requires w.at.key in c && IsWithin(src, w.at.key)
    ensures Passed(src, c, Step(src, dst, w).at) == Passed(src, c, w.at) + {w.at.key}
    ensures Step(src, dst, w).at.At? ==> !PathLess(Step(src, dst, w).at.key, src)
  {
    var k := w.at.key;
    var at := Step(src, dst, w).at;
    PathOrder();
    forall x | x in c && IsWithin(src, x) && PathLess(k, x)
      ensures at.At? && !PathLess(x, at.key)
    {
      assert x !in Passed(src, c, w.at);
      assert x in w.cache;
      assert x in Step(src, dst, w).cache.Keys;
    }
  }

  lemma MovedOneMore<V>(src: Path, dst: Path, c: map<Path, V>, done: set<Path>, k: Path)
    requires Prepared(src, dst, c)
    requires forall d | d in done + {k} :: d in c && IsWithin(src, d)
    requires k !in done
    ensures Target(src, dst, k) !in MovedPart(src, dst, c, done)
    ensures MovedPart(src, dst, c, done + {k}) == MovedPart(src, dst, c, done)[Target(src, dst, k) := c[k]] - {k}
  {
    var to := Target(src, dst, k);
    assert IsWithin(dst, to) && Origin(src, dst, to) == k by {
      assert k == src + k[|src|..];
    }
    var more, less := Targets(src, dst, done + {k}), Targets(src, dst, done);
    forall x ensures x in more <==> x in less || x == to {
      if IsWithin(dst, x) && Origin(src, dst, x) == k {
        assert x == dst + x[|dst|..];
        assert x[|dst|..] == Origin(src, dst, x)[|src|..];
      }
    }
    WithinExclusive(src, dst, k);
  }

  lemma DoneIsMoved<V>(src: Path, dst: Path, c: map<Path, V>, w: Cursor<V>)
    requires Prepared(src, dst, c)
    requires InProgress(src, dst, c, w) && Done(src, w)
    ensures w.cache == Moved(src, dst, c)
  {
    PathOrder();
    forall s | s in c && IsWithin(src, s)
      ensures s in Passed(src, c, w.at)
    {
      WithinIsCovered(src, s);
      if w.at.At? && !PathLess(s, w.at.key) {
        CoveredFormInterval(src, w.at.key, s);
      }
    }
    assert Passed(src, c, w.at) == set k | k in c && IsWithin(src, k);
  }

  /** The loop stops, and leaves exactly the moved subtree and the untouched rest. */
  ghost predicate Correct<V>(src: Path, dst: Path, c: map<Path, V>)
    requires |src| >= 2 && |dst| >= 2
  {
    exists n: nat :: Done(src, Run(src, dst, c, n)) && Run(src, dst, c, n).cache == Moved(src, dst, c)
  }

  lemma OneMore<T>(a: set<T>, b: set<T>, x: T)
    requires x !in a && b == a + {x}
    ensures |b| == |a| + 1
  {
  }

  lemma {:induction false} RunProgresses<V>(src: Path, dst: Path, c: map<Path, V>, n: nat)
    requires Prepared(src, dst, c) && Safe(src, dst, c)
    ensures InProgress(src, dst, c, Run(src, dst, c, n))
    ensures Done(src, Run(src, dst, c, n)) || |Passed(src, c, Run(src, dst, c, n).at)| >= n
  {
    if n == 0 {
      StartInProgress(src, dst, c);
    } else {
      hide InProgress, Step, Prepared, Safe, Done, Passed;
      RunProgresses(src, dst, c, n - 1);
      var w := Run(src, dst, c, n - 1);
      if !Done(src, w) {
        StepInProgress(src, dst, c, w);
        OneMore(Passed(src, c, w.at), Passed(src, c, Step(src, dst, w).at), w.at.key);
      }
    }
  }

  lemma SubsetSize<T>(a: set<T>, b: set<T>)
    requires a <= b
    ensures |a| <= |b|
  {
    assert b == a + (b - a);
  }

  lemma SafeIsCorrect<V>(src: Path, dst: Path, c: map<Path, V>)
    requires Prepared(src, dst, c) && Safe(src, dst, c)
    ensures Correct(src, dst, c)
  {
    var n := |c.Keys| + 1;
    RunProgresses(src, dst, c, n);
    var w := Run(src, dst, c, n);
    SubsetSize(Passed(src, c, w.at), c.Keys);
    DoneIsMoved(src, dst, c, w);
  }

  // ----- an unsafe loop never ends with the moved subtree -----

  ghost predicate AllPaths<V>(c: map<Path, V>) {
    forall k | k in c :: IsPath(k)
  }

  lemma RetargetIsPath(src: Path, dst: Path, k: Path)
    requires |src| >= 2 && |dst| >= 2 && IsPath(dst) && IsPath(k) && Covers(src, k)
    ensures IsPath(Retarget(src, dst, k))
    ensures IsPath(src) ==> |Text(Retarget(src, dst, k))| + |Text(src)| == |Text(dst)| + |Text(k)|
  {
    var more := k[|src| - 1][|FileName(src)|..];
    assert forall i :: 0 <= i < |more| ==> more[i] == k[|src| - 1][|FileName(src)| + i];
    assert IsName(k[|src| - 1]);
    assert IsName(FileName(dst) + more);
    var to := Retarget(src, dst, k);
    forall i | 1 <= i < |to| ensures IsName(to[i]) {
      if i < |dst| - 1 {
        assert to[i] == dst[i];
      } else if i == |dst| - 1 {
        assert to[i] == FileName(dst) + more;
      } else {
        assert to[i] == k[|src| + (i - |dst|)];
      }
    }
    assert to[0] == dst[0];
    if IsPath(src) {
      RetargetText(src, dst, k);
    }
  }

  /** v sits at key only, and the iterator has not passed it. */
  ghost predicate Waiting<V>(src: Path, w: Cursor<V>, key: Path, v: V)
    requires |src| >= 2
  {
    && w.at.At? && NotAfter(w.at.key, key) && !PathLess(w.at.key, src)
    && AllPaths(w.cache) && Covers(src, key) && key in w.cache
    && forall x | x in w.cache :: w.cache[x] == v <==> x == key
  }

  /** Wherever v is now, it has moved for good away from keys whose text has length len. */
  ghost predicate Gone<V>(src: Path, dst: Path, w: Cursor<V>, len: nat, v: V)
    requires |src| >= 2
  {
    && AllPaths(w.cache)
    && forall x | x in w.cache && w.cache[x] == v :: MovedOff(src, dst, x, len)
  }

  ghost predicate MovedOff(src: Path, dst: Path, x: Path, len: nat)
    requires |src| >= 2
  {
    && (|Text(dst)| < |Text(src)| ==> |Text(x)| < len)
    && (|Text(dst)| > |Text(src)| ==> |Text(x)| > len)
    && (|Text(dst)| == |Text(src)| ==> !Covers(src, x))
  }

  lemma NotDoneIsAt<V>(src: Path, w: Cursor<V>)
    requires |src| >= 2 && !Done(src, w)
    ensures w.at.At?
  {
  }

  lemma WaitingIsNotDone<V>(src: Path, w: Cursor<V>, key: Path, v: V)
    requires |src| >= 2 && Waiting(src, w, key, v)
    ensures !Done(src, w)
  {
    CoveredFormInterval(src, w.at.key, key);
  }

  lemma StepWaiting<V>(src: Path, dst: Path, w: Cursor<V>, key: Path, v: V)
    requires |src| >= 2 && |dst| >= 2 && IsPath(src) && IsPath(dst) && WellFormed(w)
    requires Waiting(src, w, key, v) && !Done(src, w)
    ensures w.at.key != key ==> Waiting(src, Step(src, dst, w), key, v)
    ensures w.at.key == key ==>
      && AllPaths(Step(src, dst, w).cache)
      && forall x | x in Step(src, dst, w).cache && Step(src, dst, w).cache[x] == v ::
           x == Retarget(src, dst, key) && x !in w.cache
  {
    var k := w.at.key;
    RetargetIsPath(src, dst, k);
    PathOrder();
    StepIs(src, dst, w);
    hide Step, Retarget, IsPath, Covers, PathLess;
  }

  /** A turn, key by key. */
  lemma StepIs<V>(src: Path, dst: Path, w: Cursor<V>)
    requires |src| >= 2 && |dst| >= 2 && WellFormed(w) && !Done(src, w)
    ensures var k, next := w.at.key, Step(src, dst, w); var to := Retarget(src, dst, k);
      && (forall x | x in w.cache && x != k :: x in next.cache && next.cache[x] == w.cache[x])
      && (forall x | x in next.cache :: x != k && (x in w.cache || (x == to && next.cache[x] == w.cache[k])))
      && (next.at.At? ==> next.at.key in next.cache && PathLess(k, next.at.key))
      && (forall x | x in w.cache && PathLess(k, x) :: next.at.At? && !PathLess(x, next.at.key))
  {
    var next := Step(src, dst, w);
    PathOrder();
    hide Retarget, PathLess;
    assert forall x | x in w.cache && x != w.at.key :: x in next.cache.Keys;
  }

  lemma StepGone<V>(src: Path, dst: Path, w: Cursor<V>, len: nat, v: V)
    requires |src| >= 2 && |dst| >= 2 && IsPath(src) && IsPath(dst) && WellFormed(w)
    requires Gone(src, dst, w, len, v) && !Done(src, w)
    ensures Gone(src, dst, Step(src, dst, w), len, v)
  {
    RetargetIsPath(src, dst, w.at.key);
  }

  /** No key is put back in the loop's way unless src's text starts dst's or is the longer one. */
  lemma CoveredTextTarget(src: Path, dst: Path, k: Path)
    requires |src| >= 2 && |dst| >= 2 && IsPath(src) && IsPath(dst) && IsPath(k)
    requires Covers(src, k) && |Text(src)| <= |Text(dst)| && Covers(src, Retarget(src, dst, k))
    ensures Covers(src, dst)
  {
    RetargetIsPath(src, dst, k);
    RetargetText(src, dst, k);
    TextPrefixIsCovers(src, Retarget(src, dst, k));
    hide *;
    PrefixOfFront(Text(src), Text(dst), Text(k)[|Text(src)|..]);
    TextPrefixIsCovers(src, dst);
  }

  lemma PrefixOfFront(a: string, b: string, c: string)
    requires a <= b + c && |a| <= |b|
    ensures a <= b
  {
    assert a == (b + c)[..|a|] == b[..|a|];
  }

  lemma CoverEachOther(p: Path, q: Path)
    requires |p| >= 2 && |q| >= 2 && Covers(p, q) && Covers(q, p)
    ensures p == q
  {
    var n := |p| - 1;
    assert p[n] == q[n];
    assert p == p[..n] + [p[n]] && q == q[..n] + [q[n]];
  }

  lemma TextIsInjective(p: Path, q: Path)
    requires |p| >= 2 && |q| >= 2 && IsPath(p) && IsPath(q)
    ensures Text(p) == Text(q) ==> p == q
  {
    hide *;
    TextPrefixIsCovers(p, q);
    TextPrefixIsCovers(q, p);
    if Text(p) == Text(q) {
      CoverEachOther(p, q);
    }
  }

  lemma GoneIsNotHome<V>(src: Path, dst: Path, w: Cursor<V>, home: Path, v: V)
    requires |src| >= 2 && Gone(src, dst, w, |Text(home)|, v) && Covers(src, home)
    ensures home in w.cache ==> w.cache[home] != v
  {
  }

  /** Once v has left its home for good, it is never found there again. */
  lemma {:induction false} GoneStaysGone<V>(src: Path, dst: Path, c: map<Path, V>, m: nat, n: nat, home: Path, v: V)
    requires |src| >= 2 && |dst| >= 2 && IsPath(src) && IsPath(dst) && m <= n
    requires Gone(src, dst, Run(src, dst, c, m), |Text(home)|, v)
    requires IsPath(home) && Covers(src, home)
    ensures home in Run(src, dst, c, n).cache ==> Run(src, dst, c, n).cache[home] != v
    ensures Gone(src, dst, Run(src, dst, c, n), |Text(home)|, v)
  {
    hide Gone, Step, Covers, IsPath, Done, Text;
    if m < n {
      GoneStaysGone(src, dst, c, m, n - 1, home, v);
      var w := Run(src, dst, c, n - 1);
      if !Done(src, w) {
        StepGone(src, dst, w, |Text(home)|, v);
      }
    }
    GoneIsNotHome(src, dst, Run(src, dst, c, n), home, v);
  }

  /** From the moment v waits at key, it waits there until a step i takes it to key's target. */
  lemma {:induction false} WaitingLeaves<V>(src: Path, dst: Path, c: map<Path, V>, m: nat, n: nat, key: Path, v: V)
    returns (i: nat)
    requires |src| >= 2 && |dst| >= 2 && IsPath(src) && IsPath(dst) && m <= n && src != dst
    requires Waiting(src, Run(src, dst, c, m), key, v) && Done(src, Run(src, dst, c, n))
    ensures m <= i < n && Left(src, dst, Run(src, dst, c, i), Run(src, dst, c, i + 1), key, v)
    decreases n - m
  {
    hide Waiting, Step, IsPath;
    var w := Run(src, dst, c, m);
    WaitingIsNotDone(src, w, key, v);
    NotDoneIsAt(src, w);
    StepWaiting(src, dst, w, key, v);
    hide Done;
    assert m < n && Run(src, dst, c, m + 1) == Step(src, dst, w);
    i := m;
    if w.at.key != key {
      i := WaitingLeaves(src, dst, c, m + 1, n, key, v);
    }
  }

  ghost predicate Left<V>(src: Path, dst: Path, w: Cursor<V>, next: Cursor<V>, key: Path, v: V)
    requires |src| >= 2 && |dst| >= 2
  {
    && WellFormed(w) && Waiting(src, w, key, v) && w.at.key == key && !Done(src, w)
    && next == Step(src, dst, w)
  }

  lemma LeftIsGone<V>(src: Path, dst: Path, w: Cursor<V>, next: Cursor<V>, key: Path, v: V)
    requires |src| >= 2 && |dst| >= 2 && IsPath(src) && IsPath(dst) && src != dst
    requires Left(src, dst, w, next, key, v)
    ensures Gone(src, dst, next, |Text(key)|, v)
  {
    StepWaiting(src, dst, w, key, v);
    RetargetIsPath(src, dst, key);
    if |Text(src)| == |Text(dst)| && Covers(src, Retarget(src, dst, key)) {
      CoveredTextTarget(src, dst, key);
      TextPrefixIsCovers(src, dst);
      TextIsInjective(src, dst);
    }
  }

  ghost predicate Injective<V>(c: map<Path, V>) {
    forall x, y | x in c && y in c && c[x] == c[y] :: x == y
  }

  lemma StartWaits<V>(src: Path, dst: Path, c: map<Path, V>, key: Path)
    requires Prepared(src, dst, c) && Injective(c) && key in c && Covers(src, key)
    ensures Waiting(src, Run(src, dst, c, 0), key, c[key])
  {
    CoveredNotBefore(src, key);
    NotAfterOrder(Start(src, c).at.key, key);
  }

  lemma WaitingIsGone<V>(src: Path, dst: Path, c: map<Path, V>, m: nat, n: nat, key: Path, v: V) returns (i: nat)
    requires |src| >= 2 && |dst| >= 2 && IsPath(src) && IsPath(dst) && m <= n && src != dst
    requires Waiting(src, Run(src, dst, c, m), key, v) && Done(src, Run(src, dst, c, n))
    ensures i <= n && Gone(src, dst, Run(src, dst, c, i), |Text(key)|, v)
  {
    hide *;
    i := WaitingLeaves(src, dst, c, m, n, key, v);
    LeftIsGone(src, dst, Run(src, dst, c, i), Run(src, dst, c, i + 1), key, v);
    i := i + 1;
  }

  lemma WaitingIsLost<V>(src: Path, dst: Path, c: map<Path, V>, m: nat, n: nat, key: Path, v: V)
    requires |src| >= 2 && |dst| >= 2 && IsPath(src) && IsPath(dst) && m <= n && src != dst && IsPath(key)
    requires Waiting(src, Run(src, dst, c, m), key, v) && Done(src, Run(src, dst, c, n))
    ensures key in Run(src, dst, c, n).cache ==> Run(src, dst, c, n).cache[key] != v
  {
    assert Covers(src, key);
    hide *;
    var i := WaitingIsGone(src, dst, c, m, n, key, v);
    GoneStaysGone(src, dst, c, i, n, key, v);
  }

  /** A cached key outside the subtree is carried away with it. */
  lemma OutsiderIsLost<V>(src: Path, dst: Path, c: map<Path, V>, key: Path, n: nat)
    requires Prepared(src, dst, c) && Injective(c)
    requires key in c && Covers(src, key) && !IsWithin(src, key)
    requires Done(src, Run(src, dst, c, n))
    ensures key in Run(src, dst, c, n).cache ==> Run(src, dst, c, n).cache[key] != c[key]
  {
    StartWaits(src, dst, c, key);
    WaitingIsLost(src, dst, c, 0, n, key, c[key]);
  }

  lemma TargetIsLater(src: Path, dst: Path, key: Path)
    requires |src| >= 2 && |dst| >= 2 && Covers(src, dst) && !IsWithin(src, dst) && IsWithin(src, key)
    ensures PathLess(key, Target(src, dst, key))
    ensures Covers(src, Target(src, dst, key))
  {
    var n := |src| - 1;
    assert src == src[..n] + [src[n]];
    assert dst[..|src|] == dst[..n] + [dst[n]];
    assert src[n] != dst[n];
    ProperPrefixIsLess(CharLess, src[n], dst[n]);
    var to := Target(src, dst, key);
    assert to[..n] == dst[..n] && to[n] == dst[n];
    assert key[..n] == src[..n] && key[n] == src[n];
    SharedFrontLess(n, key, to);
  }

  lemma PassesTarget<V>(src: Path, dst: Path, c: map<Path, V>, i: nat, n: nat, key: Path, home: Path, v: V)
    requires |src| >= 2 && |dst| >= 2 && IsPath(src) && IsPath(dst) && i < n && src != dst && IsPath(home)
    requires Left(src, dst, Run(src, dst, c, i), Run(src, dst, c, i + 1), key, v)
    requires home == Retarget(src, dst, key) && Covers(src, home) && PathLess(key, home)
    requires Done(src, Run(src, dst, c, n))
    ensures home in Run(src, dst, c, n).cache ==> Run(src, dst, c, n).cache[home] != v
  {
    var w := Run(src, dst, c, i);
    StepWaiting(src, dst, w, key, v);
    if home in w.cache {
      assert Gone(src, dst, Run(src, dst, c, i + 1), |Text(home)|, v);
      GoneStaysGone(src, dst, c, i + 1, n, home, v);
    } else {
      AtTarget(src, dst, w, key, v);
      WaitingIsLost(src, dst, c, i + 1, n, home, v);
    }
  }

  lemma AtTarget<V>(src: Path, dst: Path, w: Cursor<V>, key: Path, v: V)
    requires |src| >= 2 && |dst| >= 2 && IsPath(src) && IsPath(dst) && WellFormed(w)
    requires Waiting(src, w, key, v) && w.at.key == key && !Done(src, w)
    requires Covers(src, Retarget(src, dst, key)) && PathLess(key, Retarget(src, dst, key))
    requires Retarget(src, dst, key) !in w.cache
    ensures Waiting(src, Step(src, dst, w), Retarget(src, dst, key), v)
  {
    StepWaiting(src, dst, w, key, v);
    PathOrder();
    var to := Retarget(src, dst, key);
    assert to != key;
    assert to in Step(src, dst, w).cache.Keys;
    CoveredNotBefore(src, key);
    NotAfterOrder(Step(src, dst, w).at.key, to);
  }

  /** When src's text starts dst's, an entry put at its target is picked up and moved again. */
  lemma OvershootsTarget<V>(src: Path, dst: Path, c: map<Path, V>, key: Path, n: nat)
    requires Prepared(src, dst, c) && Injective(c)
    requires key in c && IsWithin(src, key) && Covers(src, dst)
    requires Done(src, Run(src, dst, c, n))
    ensures Target(src, dst, key) in Run(src, dst, c, n).cache ==>
              Run(src, dst, c, n).cache[Target(src, dst, key)] != c[key]
  {
    WithinRetargets(src, dst, key);
    TargetIsLater(src, dst, key);
    RetargetIsPath(src, dst, key);
    StartWaits(src, dst, c, key);
    var i := WaitingLeaves(src, dst, c, 0, n, key, c[key]);
    PassesTarget(src, dst, c, i, n, key, Target(src, dst, key), c[key]);
  }

  lemma UnsafeIsIncorrect<V>(src: Path, dst: Path, c: map<Path, V>)
    requires Prepared(src, dst, c) && Injective(c) && !Safe(src, dst, c)
    ensures !Correct(src, dst, c)
  {
    var key :| key in c && Covers(src, key) && !(IsWithin(src, key) && !Covers(src, dst));
    forall n: nat | Done(src, Run(src, dst, c, n))
      ensures Run(src, dst, c, n).cache != Moved(src, dst, c)
    {
      if IsWithin(src, key) {
        OvershootsTarget(src, dst, c, key, n);
        MovedHas(src, dst, c, key);
      } else {
        OutsiderIsLost(src, dst, c, key, n);
        MovedKeeps(src, dst, c, key);
      }
    }
  }

  lemma MovedHas<V>(src: Path, dst: Path, c: map<Path, V>, key: Path)
    requires key in c && IsWithin(src, key)
    ensures Target(src, dst, key) in Moved(src, dst, c) && Moved(src, dst, c)[Target(src, dst, key)] == c[key]
  {
    assert Origin(src, dst, Target(src, dst, key)) == key by {
      assert key == src + key[|src|..];
    }
  }

  lemma MovedKeeps<V>(src: Path, dst: Path, c: map<Path, V>, key: Path)
    requires Prepared(src, dst, c) && key in c && !IsWithin(src, key)
    ensures key in Moved(src, dst, c) && Moved(src, dst, c)[key] == c[key]
  {
    var subtree := set k | k in c && IsWithin(src, k);
    if IsWithin(dst, key) {
      assert Target(src, dst, Origin(src, dst, key)) == key;
    }
  }

  /** The loop does its job on exactly the safe caches. */
  lemma CorrectIffSafe<V>(src: Path, dst: Path, c: map<Path, V>)
    requires Prepared(src, dst, c) && Injective(c)
    ensures Correct(src, dst, c) <==> Safe(src, dst, c)
  {
    if Safe(src, dst, c) {
      SafeIsCorrect(src, dst, c);
    } else {
      UnsafeIsIncorrect(src, dst, c);
    }
  }

  // ----- what goes wrong -----

  /** Renaming "/a" to "/c" while the directory "/ab" is cached gives "/ab" the key "/cb". */
  lemma SiblingExample<V>(a: V, ab: V)
    requires a != ab
    ensures var src, dst, sibling := [ROOT, "a"], [ROOT, "c"], [ROOT, "ab"];
            Covers(src, sibling) && Retarget(src, dst, sibling) == [ROOT, "cb"]
            && Prepared(src, dst, map[src := a, sibling := ab])
            && !Correct(src, dst, map[src := a, sibling := ab])
  {
    var src, dst, sibling := [ROOT, "a"], [ROOT, "c"], [ROOT, "ab"];
    var c := map[src := a, sibling := ab];
    assert src[1] == "a" && dst[1] == "c" && sibling[1] == "ab";
    assert "a" <= "ab";
    assert src[..1] == [ROOT] == sibling[..1] == dst[..1];
    assert "ab"[1..] == "b" && "c" + "b" == "cb";
    assert sibling[2..] == [];
    assert IsPath(src) && IsPath(dst) && IsPath(sibling) by {
      assert IsName("a") && IsName("c") && IsName("ab");
    }
    assert !IsWithin(src, dst) && !IsWithin(dst, src) && !IsWithin(src, sibling) by {
      assert src[1] != dst[1] && src[1] != sibling[1];
    }
    assert Target(src, dst, src) == dst;
    assert !Safe(src, dst, c);
    UnsafeIsIncorrect(src, dst, c);
  }

  // ----- when the loop ends -----

  /** The keys the loop may still come to. */
  ghost function Ahead<V>(src: Path, w: Cursor<V>): set<Path>
    requires |src| >= 2
  {
    if w.at.End? then {} else set k | k in w.cache && Covers(src, k) && NotAfter(w.at.key, k)
  }

  /** The loop would put k's entry at a later key that it comes to again. */
  predicate Chases(src: Path, dst: Path, k: Path)
    requires |src| >= 2 && |dst| >= 2
  {
    Covers(src, dst) && Covers(src, k) && PathLess(k, Retarget(src, dst, k))
  }

  predicate Chasing<V>(src: Path, dst: Path, c: map<Path, V>)
    requires |src| >= 2 && |dst| >= 2
  {
    exists k | k in c :: Chases(src, dst, k)
  }

  ghost predicate Ends<V>(src: Path, dst: Path, c: map<Path, V>)
    requires |src| >= 2 && |dst| >= 2
  {
    exists n: nat :: Done(src, Run(src, dst, c, n))
  }

  lemma {:induction false} SharedPrefixLess<T>(lt: (T, T) -> bool, p: seq<T>, a: seq<T>, b: seq<T>)
    requires forall x | x in p :: !lt(x, x)
    ensures Less(lt, p + a, p + b) <==> Less(lt, a, b)
  {
    if p == [] {
      assert [] + a == a && [] + b == b;
    } else {
      SharedPrefixLess(lt, p[1..], a, b);
      assert (p + a)[1..] == p[1..] + a && (p + b)[1..] == p[1..] + b;
    }
  }

  /** What a covered key has beyond src's text, as elements. */
  function Beyond(src: Path, k: Path): seq<Name>
    requires |src| >= 2 && Covers(src, k)
  {
    [k[|src| - 1][|FileName(src)|..]] + k[|src|..]
  }

  lemma BeyondOrder(src: Path, k: Path, j: Path)
    requires |src| >= 2 && Covers(src, k) && Covers(src, j)
    ensures PathLess(k, j) <==> PathLess(Beyond(src, k), Beyond(src, j))
  {
    NameOrder();
    var front, name := Parent(src), FileName(src);
    var a, b := Beyond(src, k), Beyond(src, j);
    CoveredParts(src, k);
    CoveredParts(src, j);
    assert k == front + ([name + a[0]] + a[1..]) && j == front + ([name + b[0]] + b[1..]);
    SharedPrefixLess(NameLess, front, [name + a[0]] + a[1..], [name + b[0]] + b[1..]);
    SharedPrefixLess(CharLess, name, a[0], b[0]);
    assert name + a[0] == name + b[0] ==> a[0] == b[0] by {
      assert (name + a[0])[|name|..] == a[0] && (name + b[0])[|name|..] == b[0];
    }
  }

  lemma RetargetBeyond(src: Path, dst: Path, k: Path)
    requires |src| >= 2 && |dst| >= 2 && Covers(src, k)
    ensures Covers(dst, Retarget(src, dst, k)) && Beyond(dst, Retarget(src, dst, k)) == Beyond(src, k)
  {
    var to := Retarget(src, dst, k);
    assert to[..|dst| - 1] == dst[..|dst| - 1];
    assert to[|dst| - 1] == FileName(dst) + k[|src| - 1][|FileName(src)|..];
    assert to[|dst|..] == k[|src|..];
  }

  /** Re-keying keeps the order of the keys it moves. */
  lemma RetargetKeepsOrder(src: Path, dst: Path, k: Path, j: Path)
    requires |src| >= 2 && |dst| >= 2 && Covers(src, k) && Covers(src, j)
    ensures PathLess(k, j) <==> PathLess(Retarget(src, dst, k), Retarget(src, dst, j))
  {
    RetargetBeyond(src, dst, k);
    RetargetBeyond(src, dst, j);
    hide Covers, Retarget, Beyond;
    BeyondOrder(src, k, j);
    BeyondOrder(dst, Retarget(src, dst, k), Retarget(src, dst, j));
  }

  lemma RetargetIsCovered(src: Path, dst: Path, k: Path)
    requires |src| >= 2 && |dst| >= 2 && Covers(src, k) && Covers(src, dst)
    ensures Covers(src, Retarget(src, dst, k))
  {
    var n, to := |src| - 1, Retarget(src, dst, k);
    assert to[..n] == dst[..n];
    if |dst| > |src| {
      assert to[n] == dst[n];
    }
  }

  /** A chase goes on from the key it puts. */
  lemma ChaseGoesOn(src: Path, dst: Path, k: Path)
    requires |src| >= 2 && |dst| >= 2 && Chases(src, dst, k)
    ensures Chases(src, dst, Retarget(src, dst, k))
  {
    RetargetIsCovered(src, dst, k);
    RetargetKeepsOrder(src, dst, k, Retarget(src, dst, k));
  }

  /** The iterator has not passed the cached key of a chase. */
  ghost predicate Behind<V>(src: Path, dst: Path, w: Cursor<V>, k: Path)
    requires |src| >= 2 && |dst| >= 2
  {
    k in Ahead(src, w) && !PathLess(w.at.key, src) && Chases(src, dst, k)
  }

  lemma StaysBehind<V>(src: Path, dst: Path, w: Cursor<V>, k: Path) returns (j: Path)
    requires |src| >= 2 && |dst| >= 2 && WellFormed(w) && Behind(src, dst, w, k) && !Done(src, w)
    ensures Behind(src, dst, Step(src, dst, w), j)
  {
    ChaseGoesOn(src, dst, k);
    PathOrder();
    j := if w.at.key == k then Retarget(src, dst, k) else k;
    var next := Step(src, dst, w);
    assert j in next.cache.Keys;
    NotAfterOrder(next.at.key, j);
  }

  lemma StartsBehind<V>(src: Path, dst: Path, c: map<Path, V>, k: Path)
    requires |src| >= 2 && |dst| >= 2 && k in c && Chases(src, dst, k)
    ensures Behind(src, dst, Start(src, c), k)
  {
    CoveredNotBefore(src, k);
    hide Covers, PathLess, Retarget;
    NotAfterOrder(Start(src, c).at.key, k);
  }

  lemma BehindIsNotDone<V>(src: Path, dst: Path, w: Cursor<V>, k: Path)
    requires |src| >= 2 && |dst| >= 2 && Behind(src, dst, w, k)
    ensures !Done(src, w)
  {
    CoveredFormInterval(src, w.at.key, k);
  }

  lemma {:induction false} ChaseRuns<V>(src: Path, dst: Path, c: map<Path, V>, n: nat) returns (k: Path)
    requires |src| >= 2 && |dst| >= 2 && Chasing(src, dst, c)
    ensures !Done(src, Run(src, dst, c, n)) && Behind(src, dst, Run(src, dst, c, n), k)
  {
    hide Behind, Done, Step, Chases;
    if n == 0 {
      k :| k in c && Chases(src, dst, k);
      StartsBehind(src, dst, c, k);
    } else {
      k := ChaseRuns(src, dst, c, n - 1);
      k := StaysBehind(src, dst, Run(src, dst, c, n - 1), k);
    }
    BehindIsNotDone(src, dst, Run(src, dst, c, n), k);
  }

  ghost function AnyOf(keys: set<Path>): (k: Path)
    requires keys != {}
    ensures k in keys
  {
    var k :| k in keys; k
  }

  /** The texts of some keys, taken together. */
  ghost function Size(keys: set<Path>): nat {
    if keys == {} then 0 else |Text(AnyOf(keys))| + Size(keys - {AnyOf(keys)})
  }

  lemma {:induction false} SizeWithout(keys: set<Path>, k: Path)
    requires k in keys
    ensures Size(keys) == |Text(k)| + Size(keys - {k})
  {
    var x := AnyOf(keys);
    if x != k {
      SizeWithout(keys - {x}, k);
      SizeWithout(keys - {k}, x);
      assert keys - {x} - {k} == keys - {k} - {x};
    }
  }

  lemma {:induction false} SizeOfSubset(less: set<Path>, more: set<Path>)
    requires less <= more
    ensures Size(less) <= Size(more)
  {
    if less != more {
      var k :| k in more && k !in less;
      SizeWithout(more, k);
      SizeOfSubset(less, more - {k});
    }
  }

  /** A turn either moves a key out of the loop's way or gives it a shorter text. */
  lemma StepAhead<V>(src: Path, dst: Path, w: Cursor<V>)
    requires |src| >= 2 && |dst| >= 2 && IsPath(src) && IsPath(dst) && WellFormed(w) && AllPaths(w.cache)
    requires !Done(src, w) && (forall k | k in Ahead(src, w) :: !Chases(src, dst, k))
    ensures w.at.key in Ahead(src, w) && |Text(w.at.key)| > 0 && AllPaths(Step(src, dst, w).cache)
    ensures w.at.key !in Ahead(src, Step(src, dst, w))
    ensures var to, after := Retarget(src, dst, w.at.key), Ahead(src, Step(src, dst, w));
      && after <= Ahead(src, w) + {to}
      && (to in after && to !in Ahead(src, w) ==> |Text(to)| < |Text(w.at.key)|)
      && (forall k | k in after :: !Chases(src, dst, k))
  {
    var k := w.at.key;
    var to := Retarget(src, dst, k);
    PathOrder();
    RetargetIsPath(src, dst, k);
    if to in Ahead(src, Step(src, dst, w)) && |Text(src)| <= |Text(dst)| {
      CoveredTextTarget(src, dst, k);
    }
    if Covers(src, dst) {
      TextPrefixIsCovers(src, dst);
    }
  }

  lemma Shrinks(ahead: set<Path>, k: Path, to: Path, after: set<Path>)
    requires k in ahead && |Text(k)| > 0 && k !in after && after <= ahead + {to}
    requires to in after && to !in ahead ==> |Text(to)| < |Text(k)|
    ensures Size(after) < Size(ahead)
  {
    SizeWithout(ahead, k);
    var rest := ahead - {k};
    if to in after && to !in ahead {
      SizeWithout(rest + {to}, to);
      assert rest + {to} - {to} == rest;
      SizeOfSubset(after, rest + {to});
    } else {
      SizeOfSubset(after, rest);
    }
  }

  /** The loop's state after n turns, with no chase ahead of it. */
  ghost predicate Chaseless<V>(src: Path, dst: Path, w: Cursor<V>)
    requires |src| >= 2 && |dst| >= 2
  {
    AllPaths(w.cache) && forall k | k in Ahead(src, w) :: !Chases(src, dst, k)
  }

  lemma StepChaseless<V>(src: Path, dst: Path, w: Cursor<V>)
    requires |src| >= 2 && |dst| >= 2 && IsPath(src) && IsPath(dst) && WellFormed(w)
    requires Chaseless(src, dst, w) && !Done(src, w)
    ensures Chaseless(src, dst, Step(src, dst, w))
    ensures Size(Ahead(src, Step(src, dst, w))) < Size(Ahead(src, w))
  {
    hide Step, Ahead, Chases, Retarget, Size, IsPath, Text, WellFormed;
    StepAhead(src, dst, w);
    Shrinks(Ahead(src, w), w.at.key, Retarget(src, dst, w.at.key), Ahead(src, Step(src, dst, w)));
  }

  lemma {:induction false} ChaselessEnds<V>(src: Path, dst: Path, c: map<Path, V>, m: nat)
    requires |src| >= 2 && |dst| >= 2 && IsPath(src) && IsPath(dst) && Chaseless(src, dst, Run(src, dst, c, m))
    ensures Ends(src, dst, c)
    decreases Size(Ahead(src, Run(src, dst, c, m)))
  {
    hide Chaseless, Step, Ahead, Size, IsPath;
    if !Done(src, Run(src, dst, c, m)) {
      StepChaseless(src, dst, Run(src, dst, c, m));
      ChaselessEnds(src, dst, c, m + 1);
    }
  }

  lemma StartsChaseless<V>(src: Path, dst: Path, c: map<Path, V>)
    requires |src| >= 2 && |dst| >= 2 && AllPaths(c) && !Chasing(src, dst, c)
    ensures Run(src, dst, c, 0) == Start(src, c) && Chaseless(src, dst, Start(src, c))
  {
  }

  /** e is the cache the loop leaves. */
  ghost predicate Rekeyed<V>(src: Path, dst: Path, c: map<Path, V>, e: map<Path, V>)
    requires |src| >= 2 && |dst| >= 2
  {
    exists n: nat :: Done(src, Run(src, dst, c, n)) && e == Run(src, dst, c, n).cache
  }

  lemma SafelyRekeyed<V>(src: Path, dst: Path, c: map<Path, V>, e: map<Path, V>)
    requires Prepared(src, dst, c) && Safe(src, dst, c) && Rekeyed(src, dst, c, e)
    ensures e == Moved(src, dst, c)
  {
    var n: nat :| Done(src, Run(src, dst, c, n)) && e == Run(src, dst, c, n).cache;
    RunProgresses(src, dst, c, n);
    DoneIsMoved(src, dst, c, Run(src, dst, c, n));
  }

  /** The loop ends on exactly the caches without a chase. */
  lemma EndsIffNotChasing<V>(src: Path, dst: Path, c: map<Path, V>)
    requires |src| >= 2 && |dst| >= 2 && IsPath(src) && IsPath(dst) && AllPaths(c)
    ensures Ends(src, dst, c) <==> !Chasing(src, dst, c)
  {
    if Chasing(src, dst, c) {
      forall n: nat ensures !Done(src, Run(src, dst, c, n)) {
        var _ := ChaseRuns(src, dst, c, n);
      }
    } else {
      ChaselessEnds(src, dst, c, 0);
    }
  }

  /** Renaming "/x" to a path whose text "/x" starts never ends while either path is cached, in
      the same directory ("/xy") or not ("/xy/z", "/x/y"). */
  lemma RunsForever<V>(src: Path, dst: Path, c: map<Path, V>)
    requires |src| >= 2 && |dst| >= 2 && IsPath(src) && IsPath(dst) && AllPaths(c)
    requires Covers(src, dst) && src != dst && (src in c || dst in c)
    ensures !Ends(src, dst, c)
  {
    PathOrder();
    WithinRetargets(src, dst, src);
    assert Target(src, dst, src) == dst;
    CoveredNotBefore(src, dst);
    ChaseGoesOn(src, dst, src);
    EndsIffNotChasing(src, dst, c);
  }

  // ----- what the loop leaves of any cache on which it ends -----

  /** The cached keys that the loop carries away although they are not at or below the source. */
  ghost function Outsiders(src: Path, keys: set<Path>): (r: set<Path>)
    requires |src| >= 2
    ensures forall k :: k in r <==> k in keys && Covers(src, k) && !IsWithin(src, k)
  {
    set k | k in keys && Covers(src, k) && !IsWithin(src, k)
  }

  ghost predicate IsStray<V>(src: Path, c: map<Path, V>, v: V)
    requires |src| >= 2
  {
    exists k | k in Outsiders(src, c.Keys) :: c[k] == v
  }

  /** e is the moved cache but for the outsiders' entries, which may be anywhere or nowhere. */
  ghost predicate RestIsMoved<V>(src: Path, dst: Path, c: map<Path, V>, e: map<Path, V>)
    requires |src| >= 2
  {
    && (forall j | j in Moved(src, dst, c) && j !in Outsiders(src, c.Keys) :: j in e && e[j] == Moved(src, dst, c)[j])
    && (forall j | j in e ::
          || IsStray(src, c, e[j])
          || (j in Moved(src, dst, c) && j !in Outsiders(src, c.Keys) && e[j] == Moved(src, dst, c)[j]))
  }

  predicate IsPassed(at: Iterator, k: Path) {
    at.End? || PathLess(k, at.key)
  }

  /** The iterator is beyond the source's subtree. */
  predicate IsBeyond(src: Path, at: Iterator) {
    at.End? || !IsWithin(src, at.key)
  }

  /** What is at a key of the loop's cache: an entry it leaves alone, an entry of the subtree, moved or
      still to come, or an outsider's, which has not moved before the whole subtree has. */
  ghost predicate IsAccounted<V>(src: Path, dst: Path, c: map<Path, V>, at: Iterator, x: Path, v: V)
    requires |src| >= 2
  {
    || (x in c && !Covers(src, x) && v == c[x])
    || (IsWithin(dst, x) && Origin(src, dst, x) in c && IsPassed(at, Origin(src, dst, x))
        && v == c[Origin(src, dst, x)])
    || (x in c && IsWithin(src, x) && !IsPassed(at, x) && v == c[x])
    || (IsStray(src, c, v) && (x in c || IsBeyond(src, at)))
  }

  ghost predicate KeepsRest<V>(src: Path, dst: Path, c: map<Path, V>, w: Cursor<V>)
    requires |src| >= 2
  {
    && WellFormed(w) && (w.at.At? ==> !PathLess(w.at.key, src))
    && (forall k | k in c && !Covers(src, k) :: k in w.cache && w.cache[k] == c[k])
    && (forall k | k in c && IsWithin(src, k) :: IsKept(src, dst, c, w, k))
    && (forall x | x in w.cache :: IsAccounted(src, dst, c, w.at, x, w.cache[x]))
  }

  ghost predicate IsKept<V>(src: Path, dst: Path, c: map<Path, V>, w: Cursor<V>, k: Path)
    requires k in c && IsWithin(src, k)
  {
    var x := if IsPassed(w.at, k) then Target(src, dst, k) else k;
    x in w.cache && w.cache[x] == c[k]
  }

  lemma StartKeepsRest<V>(src: Path, dst: Path, c: map<Path, V>)
    requires Prepared(src, dst, c)
    ensures KeepsRest(src, dst, c, Start(src, c))
  {
    var w := Start(src, c);
    forall k | k in c && IsWithin(src, k) ensures !IsPassed(w.at, k) {
      WithinIsCovered(src, k);
      CoveredNotBefore(src, k);
    }
    forall x | x in c ensures IsAccounted(src, dst, c, w.at, x, c[x]) {
      if Covers(src, x) && !IsWithin(src, x) { assert x in Outsiders(src, c.Keys); }
    }
    hide Covers, IsPassed;
  }

  /** A covered key that is not in the subtree is after all of it. */
  lemma SubtreeIsBefore(src: Path, k: Path, j: Path)
    requires |src| >= 2 && Covers(src, k) && !IsWithin(src, k) && IsWithin(src, j)
    ensures PathLess(j, k)
  {
    var n := |src| - 1;
    assert src == src[..n] + [src[n]] && k[..|src|] == k[..n] + [k[n]];
    assert src[n] != k[n];
    ProperPrefixIsLess(CharLess, src[n], k[n]);
    assert j[..n] == src[..n] && j[n] == src[n];
    SharedFrontLess(n, j, k);
  }

  /** The loop never comes to an entry it has moved below the target. */
  lemma NotBelowTarget<V>(src: Path, dst: Path, c: map<Path, V>, x: Path)
    requires Prepared(src, dst, c) && !Chasing(src, dst, c) && IsWithin(dst, x) && Origin(src, dst, x) in c
    ensures !Covers(src, x)
  {
    if Covers(src, x) {
      CoveredTarget(src, dst, x[|dst|..]);
      assert x == dst + x[|dst|..];
      var k := Origin(src, dst, x);
      TargetIsLater(src, dst, k);
      WithinRetargets(src, dst, k);
      assert Chases(src, dst, k);
    }
  }

  /** A turn at a key of the subtree. */
  lemma InsiderStep<V>(src: Path, dst: Path, c: map<Path, V>, w: Cursor<V>)
    requires Prepared(src, dst, c) && Injective(c) && !Chasing(src, dst, c)
    requires KeepsRest(src, dst, c, w) && !Done(src, w) && IsWithin(src, w.at.key)
    ensures w.at.key in c && w.cache[w.at.key] == c[w.at.key]
    ensures Target(src, dst, w.at.key) !in w.cache
  {
    var k, to := w.at.key, Target(src, dst, w.at.key);
    PathOrder();
    WithinIsCovered(src, k);
    WithinExclusive(src, dst, k);
    assert IsAccounted(src, dst, c, w.at, k, w.cache[k]);
    hide Covers, PathLess;
    assert k in c;
    assert IsKept(src, dst, c, w, k);
    assert k == src + k[|src|..] && Origin(src, dst, to) == k && to !in c && !IsPassed(w.at, k);
    WithinExclusive(src, dst, to);
  }

  /** The iterator has gone past k's key and no other of the subtree's. */
  ghost predicate PassesOnly<V>(src: Path, c: map<Path, V>, at: Iterator, next: Iterator, k: Path) {
    forall x | x in c && IsWithin(src, x) :: IsPassed(next, x) <==> IsPassed(at, x) || x == k
  }

  lemma PassesOne<V>(src: Path, c: map<Path, V>, w: Cursor<V>, next: Cursor<V>)
    requires w.at.At? && (next.at.At? ==> PathLess(w.at.key, next.at.key))
    requires forall x | x in w.cache && PathLess(w.at.key, x) :: next.at.At? && !PathLess(x, next.at.key)
    requires forall x | x in c && IsWithin(src, x) && !IsPassed(w.at, x) :: x in w.cache
    ensures PassesOnly(src, c, w.at, next.at, w.at.key)
  {
    PathOrder();
  }

  lemma InsiderKept<V>(src: Path, dst: Path, c: map<Path, V>, w: Cursor<V>, next: Cursor<V>, k: Path, x: Path)
    requires !IsWithin(src, dst) && !IsWithin(dst, src) && k in c && IsWithin(src, k)
    requires Target(src, dst, k) !in w.cache && next.cache == w.cache[Target(src, dst, k) := c[k]] - {k}
    requires PassesOnly(src, c, w.at, next.at, k)
    requires x in c && IsWithin(src, x) && IsKept(src, dst, c, w, x)
    ensures IsKept(src, dst, c, next, x)
  {
    WithinExclusive(src, dst, k);
    WithinExclusive(src, dst, Target(src, dst, k));
    WithinExclusive(src, dst, Target(src, dst, x));
    hide IsPassed;
  }

  lemma InsiderAccounts<V>(src: Path, dst: Path, c: map<Path, V>, w: Cursor<V>, next: Cursor<V>, k: Path, x: Path)
    requires |src| >= 2 && k in c && IsWithin(src, k) && w.at == At(k)
    requires Target(src, dst, k) !in w.cache && next.cache == w.cache[Target(src, dst, k) := c[k]] - {k}
    requires PassesOnly(src, c, w.at, next.at, k)
    requires x in next.cache && (x in w.cache ==> IsAccounted(src, dst, c, w.at, x, w.cache[x]))
    requires IsWithin(dst, x) && Origin(src, dst, x) in c ==> IsWithin(src, Origin(src, dst, x))
    ensures IsAccounted(src, dst, c, next.at, x, next.cache[x])
  {
    hide IsPassed, Covers, IsStray;
    if x == Target(src, dst, k) {
      assert k == src + k[|src|..] && Origin(src, dst, x) == k;
    }
  }

  /** What that turn does to the cache. */
  lemma InsiderStepIs<V>(src: Path, dst: Path, c: map<Path, V>, w: Cursor<V>)
    requires Prepared(src, dst, c) && Injective(c) && !Chasing(src, dst, c)
    requires KeepsRest(src, dst, c, w) && !Done(src, w) && IsWithin(src, w.at.key)
    ensures var k := w.at.key; var next := Step(src, dst, w);
      && k in c && Target(src, dst, k) !in w.cache && next.cache == w.cache[Target(src, dst, k) := c[k]] - {k}
      && PassesOnly(src, c, w.at, next.at, k) && WellFormed(next) && (next.at.At? ==> !PathLess(next.at.key, src))
  {
    PathOrder();
    InsiderStep(src, dst, c, w);
    WithinRetargets(src, dst, w.at.key);
    StepIs(src, dst, w);
    forall x | x in c && IsWithin(src, x) ensures !IsPassed(w.at, x) ==> x in w.cache {
      assert IsKept(src, dst, c, w, x);
    }
    hide Covers, PathLess, IsAccounted, IsKept, IsPassed, Retarget, Target;
    PassesOne(src, c, w, Step(src, dst, w));
  }

  lemma InsiderKeepsRest<V>(src: Path, dst: Path, c: map<Path, V>, w: Cursor<V>)
    requires Prepared(src, dst, c) && Injective(c) && !Chasing(src, dst, c)
    requires KeepsRest(src, dst, c, w) && !Done(src, w) && IsWithin(src, w.at.key)
    ensures KeepsRest(src, dst, c, Step(src, dst, w))
  {
    var k, next := w.at.key, Step(src, dst, w);
    InsiderStepIs(src, dst, c, w);
    forall x | x in c && !Covers(src, x) ensures x in next.cache && next.cache[x] == c[x] { WithinIsCovered(src, k); }
    hide Step, Covers, PathLess, IsAccounted, IsKept, IsPassed, Injective, Chasing, PassesOnly;
    forall x | x in c && IsWithin(src, x) ensures IsKept(src, dst, c, next, x) {
      InsiderKept(src, dst, c, w, next, k, x);
    }
    forall x | x in next.cache ensures IsAccounted(src, dst, c, next.at, x, next.cache[x]) {
      InsiderAccounts(src, dst, c, w, next, k, x);
    }
  }

  /** A turn at any other key: the whole subtree has moved by then, and the entry is an outsider's. */
  lemma OutsiderStep<V>(src: Path, dst: Path, c: map<Path, V>, w: Cursor<V>)
    requires Prepared(src, dst, c) && !Chasing(src, dst, c)
    requires KeepsRest(src, dst, c, w) && !Done(src, w) && !IsWithin(src, w.at.key)
    ensures IsStray(src, c, w.cache[w.at.key])
    ensures forall x | x in c && IsWithin(src, x) :: IsPassed(w.at, x) && Target(src, dst, x) != w.at.key
  {
    var k := w.at.key;
    assert IsAccounted(src, dst, c, w.at, k, w.cache[k]);
    if IsWithin(dst, k) && Origin(src, dst, k) in c { NotBelowTarget(src, dst, c, k); }
    forall x | x in c && IsWithin(src, x) ensures IsPassed(w.at, x) && Target(src, dst, x) != k {
      SubtreeIsBefore(src, k, x);
      assert x == src + x[|src|..] && Origin(src, dst, Target(src, dst, x)) == x;
      NotBelowTarget(src, dst, c, Target(src, dst, x));
    }
  }

  /** Beyond the subtree, the iterator stays beyond it. */
  lemma StaysBeyond<V>(src: Path, w: Cursor<V>, next: Cursor<V>)
    requires |src| >= 2 && w.at.At? && Covers(src, w.at.key) && !IsWithin(src, w.at.key)
    requires next.at.At? ==> PathLess(w.at.key, next.at.key)
    ensures IsBeyond(src, next.at) && forall x | IsPassed(w.at, x) :: IsPassed(next.at, x)
  {
    PathOrder();
    if next.at.At? && IsWithin(src, next.at.key) { SubtreeIsBefore(src, w.at.key, next.at.key); }
  }

  lemma OutsiderAccounts<V>(src: Path, dst: Path, c: map<Path, V>, w: Cursor<V>, next: Cursor<V>, x: Path)
    requires |src| >= 2 && x in next.cache && IsBeyond(src, next.at)
    requires x in w.cache ==> next.cache[x] == w.cache[x] && IsAccounted(src, dst, c, w.at, x, w.cache[x])
    requires x !in w.cache ==> IsStray(src, c, next.cache[x])
    requires forall y | IsPassed(w.at, y) :: IsPassed(next.at, y)
    requires forall y | y in c && IsWithin(src, y) :: IsPassed(w.at, y)
    ensures IsAccounted(src, dst, c, next.at, x, next.cache[x])
  {
    hide IsPassed, IsStray, Covers;
  }

  lemma OutsiderKeepsRest<V>(src: Path, dst: Path, c: map<Path, V>, w: Cursor<V>)
    requires Prepared(src, dst, c) && !Chasing(src, dst, c)
    requires KeepsRest(src, dst, c, w) && !Done(src, w) && !IsWithin(src, w.at.key)
    ensures KeepsRest(src, dst, c, Step(src, dst, w))
  {
    var k, next := w.at.key, Step(src, dst, w);
    PathOrder();
    OutsiderStep(src, dst, c, w);
    StepIs(src, dst, w);
    StaysBeyond(src, w, next);
    assert next.at.At? ==> !PathLess(next.at.key, src);
    hide Step, Covers, PathLess, IsPassed, IsStray, IsAccounted, IsBeyond;
    forall x | x in c && IsWithin(src, x) ensures IsKept(src, dst, c, next, x) {
      assert IsKept(src, dst, c, w, x);
    }
    forall x | x in next.cache ensures IsAccounted(src, dst, c, next.at, x, next.cache[x]) {
      OutsiderAccounts(src, dst, c, w, next, x);
    }
  }

  lemma {:induction false} RunKeepsRest<V>(src: Path, dst: Path, c: map<Path, V>, n: nat)
    requires Prepared(src, dst, c) && Injective(c) && !Chasing(src, dst, c)
    ensures KeepsRest(src, dst, c, Run(src, dst, c, n))
  {
    assert |src| >= 2 && |dst| >= 2;
    hide KeepsRest, Step, Prepared, Chasing;
    if n == 0 {
      StartKeepsRest(src, dst, c);
    } else {
      RunKeepsRest(src, dst, c, n - 1);
      var w := Run(src, dst, c, n - 1);
      if !Done(src, w) {
        if IsWithin(src, w.at.key) { InsiderKeepsRest(src, dst, c, w); } else { OutsiderKeepsRest(src, dst, c, w); }
      }
    }
  }

  /** What Moved has at each key but the outsiders'. */
  lemma MovedRest<V>(src: Path, dst: Path, c: map<Path, V>, j: Path)
    requires Prepared(src, dst, c)
    ensures j in Moved(src, dst, c) && j !in Outsiders(src, c.Keys) <==>
      (if IsWithin(dst, j) && Origin(src, dst, j) in c then true else j in c && !Covers(src, j))
    ensures j in Moved(src, dst, c) ==>
      Moved(src, dst, c)[j] == if IsWithin(dst, j) && Origin(src, dst, j) in c then c[Origin(src, dst, j)] else c[j]
  {
    WithinExclusive(src, dst, j);
    if IsWithin(src, j) { WithinIsCovered(src, j); }
    if IsWithin(dst, j) {
      assert IsWithin(src, Origin(src, dst, j)) && Target(src, dst, Origin(src, dst, j)) == j;
    }
  }

  /** Wherever the loop ends, every entry but the outsiders' is as the loop is for. */
  lemma RestMoves<V>(src: Path, dst: Path, c: map<Path, V>, e: map<Path, V>)
    requires Prepared(src, dst, c) && Injective(c) && Rekeyed(src, dst, c, e)
    ensures RestIsMoved(src, dst, c, e)
  {
    var n: nat :| Done(src, Run(src, dst, c, n)) && e == Run(src, dst, c, n).cache;
    EndsIffNotChasing(src, dst, c);
    RunKeepsRest(src, dst, c, n);
    DoneKeepsRest(src, dst, c, Run(src, dst, c, n));
  }

  lemma DoneKeepsRest<V>(src: Path, dst: Path, c: map<Path, V>, w: Cursor<V>)
    requires Prepared(src, dst, c) && KeepsRest(src, dst, c, w) && Done(src, w)
    ensures RestIsMoved(src, dst, c, w.cache)
  {
    PathOrder();
    forall k | k in c && IsWithin(src, k) ensures IsPassed(w.at, k) {
      WithinIsCovered(src, k);
      if w.at.At? && !PathLess(k, w.at.key) { CoveredFormInterval(src, w.at.key, k); }
    }
    hide PathLess, IsStray, Covers, IsPassed;
    forall j | j in Moved(src, dst, c) && j !in Outsiders(src, c.Keys)
      ensures j in w.cache && w.cache[j] == Moved(src, dst, c)[j]
    {
      MovedRest(src, dst, c, j);
      if IsWithin(dst, j) && Origin(src, dst, j) in c {
        assert IsKept(src, dst, c, w, Origin(src, dst, j));
      }
    }
    forall j | j in w.cache
      ensures IsStray(src, c, w.cache[j])
        || (j in Moved(src, dst, c) && j !in Outsiders(src, c.Keys) && w.cache[j] == Moved(src, dst, c)[j])
    {
      assert IsAccounted(src, dst, c, w.at, j, w.cache[j]);
      MovedRest(src, dst, c, j);
    }
  }

  /** No outsider's entry is left at any key. */
  ghost predicate OutsidersDropped<V>(src: Path, c: map<Path, V>, e: map<Path, V>)
    requires |src| >= 2
  {
    forall k, j | k in Outsiders(src, c.Keys) && j in e :: e[j] != c[k]
  }

  /** Exactly then the loop leaves the moved cache without them. */
  lemma DroppedIff<V>(src: Path, dst: Path, c: map<Path, V>, e: map<Path, V>)
    requires Prepared(src, dst, c) && Injective(c) && Rekeyed(src, dst, c, e)
    ensures OutsidersDropped(src, c, e) <==> e == Moved(src, dst, c) - Outsiders(src, c.Keys)
  {
    RestMoves(src, dst, c, e);
    if e == Moved(src, dst, c) - Outsiders(src, c.Keys) {
      forall k, j | k in Outsiders(src, c.Keys) && j in e ensures e[j] != c[k] {
        MovedRest(src, dst, c, j);
      }
    }
    hide Moved;
  }

  // ----- which outsiders drop out -----

  /** The loop comes, after k, to the key that it would put k's entry at. */
  predicate GoesOn(src: Path, dst: Path, k: Path)
    requires |src| >= 2 && |dst| >= 2 && Covers(src, k)
  {
    Covers(src, Retarget(src, dst, k)) && PathLess(k, Retarget(src, dst, k))
  }

  /** The entry at k is dropped, there or further on, as the key it is to go to is taken. */
  predicate DropsOut(src: Path, dst: Path, keys: set<Path>, k: Path)
    requires |src| >= 2 && |dst| >= 2 && IsPath(src) && IsPath(dst) && IsPath(k) && Covers(src, k)
    requires !Chases(src, dst, k)
    decreases |Text(k)|
  {
    RetargetIsPath(src, dst, k);
    var to := Retarget(src, dst, k);
    if to in keys && (!Covers(src, to) || PathLess(k, to)) then true
    else if GoesOn(src, dst, k) then
      GoingOnIsShorter(src, dst, k);
      DropsOut(src, dst, keys, to)
    else false
  }

  lemma GoingOnIsShorter(src: Path, dst: Path, k: Path)
    requires |src| >= 2 && |dst| >= 2 && IsPath(src) && IsPath(dst) && IsPath(k) && Covers(src, k)
    requires !Chases(src, dst, k)
    requires GoesOn(src, dst, k)
    ensures |Text(Retarget(src, dst, k))| < |Text(k)| && !Chases(src, dst, Retarget(src, dst, k))
  {
    RetargetIsPath(src, dst, k);
    if |Text(src)| <= |Text(dst)| { CoveredTextTarget(src, dst, k); }
  }

  ghost predicate IsLandedKey(src: Path, dst: Path, at: Iterator, x: Path)
    requires |src| >= 2 && |dst| >= 2
  {
    exists j :: Covers(src, j) && IsPassed(at, j) && x == Retarget(src, dst, j)
  }

  predicate StillThere(src: Path, keys: set<Path>, at: Iterator, x: Path)
    requires |src| >= 2
  {
    x in keys && (!Covers(src, x) || !IsPassed(at, x))
  }

  /** The keys the loop has are those it has not come to, and those it has put. */
  ghost predicate KeysAre<V>(src: Path, dst: Path, keys: set<Path>, w: Cursor<V>)
    requires |src| >= 2 && |dst| >= 2
  {
    && (forall x | StillThere(src, keys, w.at, x) :: x in w.cache)
    && (forall x | x in w.cache :: StillThere(src, keys, w.at, x) || IsLandedKey(src, dst, w.at, x))
  }

  lemma StartKeys<V>(src: Path, dst: Path, c: map<Path, V>)
    requires |src| >= 2 && |dst| >= 2
    ensures KeysAre(src, dst, c.Keys, Start(src, c))
  {
    forall x | x in c && Covers(src, x) ensures !IsPassed(Start(src, c).at, x) { CoveredNotBefore(src, x); }
    hide Covers;
  }

  lemma StepKeys<V>(src: Path, dst: Path, keys: set<Path>, w: Cursor<V>)
    requires |src| >= 2 && |dst| >= 2 && WellFormed(w) && KeysAre(src, dst, keys, w) && !Done(src, w)
    ensures KeysAre(src, dst, keys, Step(src, dst, w))
  {
    var k, next := w.at.key, Step(src, dst, w);
    PathOrder();
    StepIs(src, dst, w);
    assert Covers(src, k) && IsPassed(next.at, k) && forall x | IsPassed(w.at, x) :: IsPassed(next.at, x);
    assert forall x | x in w.cache && x != k && !IsPassed(w.at, x) :: !IsPassed(next.at, x);
    hide Step, Covers, PathLess, Retarget, IsPassed;
    forall x | x in next.cache ensures StillThere(src, keys, next.at, x) || IsLandedKey(src, dst, next.at, x) {
      if x in w.cache && !StillThere(src, keys, w.at, x) {
        var j :| Covers(src, j) && IsPassed(w.at, j) && x == Retarget(src, dst, j);
        assert IsPassed(next.at, j);
      }
    }
  }

  lemma {:induction false} RunKeys<V>(src: Path, dst: Path, c: map<Path, V>, n: nat)
    requires |src| >= 2 && |dst| >= 2
    ensures KeysAre(src, dst, c.Keys, Run(src, dst, c, n))
  {
    hide KeysAre, Step, Done;
    if n == 0 {
      StartKeys(src, dst, c);
    } else {
      RunKeys(src, dst, c, n - 1);
      if !Done(src, Run(src, dst, c, n - 1)) { StepKeys(src, dst, c.Keys, Run(src, dst, c, n - 1)); }
    }
  }

  lemma RetargetMoves(src: Path, dst: Path, k: Path)
    requires |src| >= 2 && |dst| >= 2 && IsPath(src) && IsPath(dst) && IsPath(k) && Covers(src, k) && src != dst
    ensures Retarget(src, dst, k) != k
  {
    RetargetText(src, dst, k);
    TextPrefixIsCovers(src, k);
    TextIsInjective(src, dst);
    hide *;
    if Retarget(src, dst, k) == k {
      SameFront(Text(src), Text(dst), Text(k));
    }
  }

  lemma SameFront(a: string, b: string, c: string)
    requires a <= c && c == b + c[|a|..]
    ensures a == b
  {
    assert |a| == |b|;
    assert c[..|a|] == a && c[..|b|] == b;
  }

  /** Whether the key that the visited entry is to go to is taken. */
  lemma TakenIff<V>(src: Path, dst: Path, keys: set<Path>, w: Cursor<V>)
    requires |src| >= 2 && |dst| >= 2 && IsPath(src) && IsPath(dst) && src != dst
    requires WellFormed(w) && KeysAre(src, dst, keys, w) && !Done(src, w) && IsPath(w.at.key)
    ensures var to := Retarget(src, dst, w.at.key);
      to in w.cache <==> to in keys && (!Covers(src, to) || PathLess(w.at.key, to))
  {
    var k, to := w.at.key, Retarget(src, dst, w.at.key);
    PathOrder();
    RetargetMoves(src, dst, k);
    assert Covers(src, k);
    forall j | Covers(src, j) && PathLess(j, k) ensures Retarget(src, dst, j) != to {
      RetargetKeepsOrder(src, dst, j, k);
    }
    hide Retarget, Covers, PathLess;
    assert !IsLandedKey(src, dst, w.at, to);
  }

  /** v is where the loop does not come any more. */
  ghost predicate Settled<V>(src: Path, w: Cursor<V>, x: Path, v: V)
    requires |src| >= 2
  {
    x in w.cache && w.cache[x] == v && (!Covers(src, x) || IsPassed(w.at, x))
  }

  ghost predicate Absent<V>(w: Cursor<V>, v: V) {
    forall x | x in w.cache :: w.cache[x] != v
  }

  lemma {:induction false} StaysSettled<V>(src: Path, dst: Path, c: map<Path, V>, m: nat, n: nat, x: Path, v: V)
    requires |src| >= 2 && |dst| >= 2 && m <= n && Settled(src, Run(src, dst, c, m), x, v)
    ensures Settled(src, Run(src, dst, c, n), x, v)
  {
    if m < n {
      StaysSettled(src, dst, c, m, n - 1, x, v);
      var w := Run(src, dst, c, n - 1);
      hide Settled, Step, Covers;
      if !Done(src, w) { SettledStep(src, dst, w, x, v); }
    }
  }

  lemma SettledStep<V>(src: Path, dst: Path, w: Cursor<V>, x: Path, v: V)
    requires |src| >= 2 && |dst| >= 2 && WellFormed(w) && !Done(src, w) && Settled(src, w, x, v)
    ensures Settled(src, Step(src, dst, w), x, v)
  {
    PathOrder();
    StepIs(src, dst, w);
    hide Step, Covers, PathLess, Retarget;
  }

  lemma {:induction false} StaysAbsent<V>(src: Path, dst: Path, c: map<Path, V>, m: nat, n: nat, v: V)
    requires |src| >= 2 && |dst| >= 2 && m <= n && Absent(Run(src, dst, c, m), v)
    ensures Absent(Run(src, dst, c, n), v)
  {
    if m < n {
      StaysAbsent(src, dst, c, m, n - 1, v);
      var w := Run(src, dst, c, n - 1);
      if !Done(src, w) {
        StepIs(src, dst, w);
        hide Step, Covers, PathLess;
      }
    }
  }

  lemma LandsForGood<V>(src: Path, dst: Path, w: Cursor<V>)
    requires |src| >= 2 && |dst| >= 2 && IsPath(src) && IsPath(dst) && src != dst && WellFormed(w) && !Done(src, w)
    requires IsPath(w.at.key) && Retarget(src, dst, w.at.key) !in w.cache && !GoesOn(src, dst, w.at.key)
    ensures Settled(src, Step(src, dst, w), Retarget(src, dst, w.at.key), w.cache[w.at.key])
  {
    var k, to := w.at.key, Retarget(src, dst, w.at.key);
    PathOrder();
    RetargetMoves(src, dst, k);
    StepIs(src, dst, w);
    assert to in Step(src, dst, w).cache.Keys;
  }

  /** What becomes of the visited entry. */
  lemma LeavesTo<V>(src: Path, dst: Path, c: map<Path, V>, i: nat, key: Path, v: V)
    requires |src| >= 2 && |dst| >= 2 && IsPath(src) && IsPath(dst) && src != dst && IsPath(key)
    requires Left(src, dst, Run(src, dst, c, i), Run(src, dst, c, i + 1), key, v)
    ensures Covers(src, key)
    ensures var to, next := Retarget(src, dst, key), Run(src, dst, c, i + 1);
      if to in c && (!Covers(src, to) || PathLess(key, to)) then Absent(next, v)
      else if GoesOn(src, dst, key) then Waiting(src, next, to, v)
      else Settled(src, next, to, v)
  {
    var w, to := Run(src, dst, c, i), Retarget(src, dst, key);
    RunKeys(src, dst, c, i);
    TakenIff(src, dst, c.Keys, w);
    StepWaiting(src, dst, w, key, v);
    if to !in w.cache {
      if GoesOn(src, dst, key) { AtTarget(src, dst, w, key, v); } else { LandsForGood(src, dst, w); }
    }
    hide Step, PathLess, Retarget;
  }

  lemma DropsOutIs(src: Path, dst: Path, keys: set<Path>, k: Path)
    requires |src| >= 2 && |dst| >= 2 && IsPath(src) && IsPath(dst) && IsPath(k) && Covers(src, k)
    requires !Chases(src, dst, k)
    ensures var to := Retarget(src, dst, k);
      IsPath(to) && (GoesOn(src, dst, k) ==> Covers(src, to) && !Chases(src, dst, to))
    ensures var to := Retarget(src, dst, k);
      DropsOut(src, dst, keys, k) <==>
        ((to in keys && (!Covers(src, to) || PathLess(k, to))) || (GoesOn(src, dst, k) && DropsOut(src, dst, keys, to)))
  {
    RetargetIsPath(src, dst, k);
    if GoesOn(src, dst, k) { GoingOnIsShorter(src, dst, k); }
  }

  /** An entry that the loop is to come to is dropped in the end exactly if DropsOut says so. */
  lemma {:induction false} DropsOutIff<V>(src: Path, dst: Path, c: map<Path, V>, m: nat, n: nat, key: Path, v: V)
    requires |src| >= 2 && |dst| >= 2 && IsPath(src) && IsPath(dst) && m <= n && src != dst
    requires Waiting(src, Run(src, dst, c, m), key, v) && Done(src, Run(src, dst, c, n))
    requires IsPath(key) && Covers(src, key) && !Chases(src, dst, key)
    ensures Absent(Run(src, dst, c, n), v) <==> DropsOut(src, dst, c.Keys, key)
    decreases n - m
  {
    hide *;
    var i := WaitingLeaves(src, dst, c, m, n, key, v);
    var to := Retarget(src, dst, key);
    LeavesTo(src, dst, c, i, key, v);
    DropsOutIs(src, dst, c.Keys, key);
    if to in c && (!Covers(src, to) || PathLess(key, to)) {
      StaysAbsent(src, dst, c, i + 1, n, v);
    } else if GoesOn(src, dst, key) {
      DropsOutIff(src, dst, c, i + 1, n, to, v);
    } else {
      StaysSettled(src, dst, c, i + 1, n, to, v);
      SettledIsThere(src, Run(src, dst, c, n), to, v);
    }
  }

  lemma SettledIsThere<V>(src: Path, w: Cursor<V>, x: Path, v: V)
    requires |src| >= 2 && Settled(src, w, x, v)
    ensures !Absent(w, v)
  {
  }

  ghost predicate AllDropOut(src: Path, dst: Path, keys: set<Path>)
    requires |src| >= 2 && |dst| >= 2 && IsPath(src) && IsPath(dst)
  {
    forall k | k in Outsiders(src, keys) :: IsPath(k) && !Chases(src, dst, k) && DropsOut(src, dst, keys, k)
  }

  /** It depends on those keys alone that an entry may be put at. */
  lemma {:induction false} SameDropsOut(src: Path, dst: Path, keys: set<Path>, more: set<Path>, k: Path)
    requires |src| >= 2 && |dst| >= 2 && IsPath(src) && IsPath(dst) && IsPath(k) && Covers(src, k)
    requires !Chases(src, dst, k)
    requires k != src && forall x | Covers(dst, x) && x != src && x != dst :: x in keys <==> x in more
    ensures DropsOut(src, dst, keys, k) <==> DropsOut(src, dst, more, k)
    decreases |Text(k)|
  {
    var to := Retarget(src, dst, k);
    PathOrder();
    RetargetBeyond(src, dst, k);
    CoveredNotBefore(src, k);
    DropsOutIs(src, dst, keys, k);
    DropsOutIs(src, dst, more, k);
    assert Covers(src, src) && Retarget(src, dst, src) == dst by { WithinRetargets(src, dst, src); }
    RetargetKeepsOrder(src, dst, src, k);
    hide *;
    if GoesOn(src, dst, k) {
      GoingOnIsShorter(src, dst, k);
      GoesOnLater(src, dst, k);
      SameDropsOut(src, dst, keys, more, to);
    }
  }

  lemma GoesOnLater(src: Path, dst: Path, k: Path)
    requires |src| >= 2 && |dst| >= 2 && Covers(src, k) && k != src && GoesOn(src, dst, k)
    ensures Retarget(src, dst, k) != src
  {
    PathOrder();
    CoveredNotBefore(src, k);
  }

  /** Which is before the loop: every outsider's entry drops out exactly if the keys say so. */
  lemma OutsidersDroppedIff<V>(src: Path, dst: Path, c: map<Path, V>, e: map<Path, V>)
    requires Prepared(src, dst, c) && Injective(c) && Rekeyed(src, dst, c, e)
    ensures OutsidersDropped(src, c, e) <==> AllDropOut(src, dst, c.Keys)
  {
    var n: nat :| Done(src, Run(src, dst, c, n)) && e == Run(src, dst, c, n).cache;
    EndsIffNotChasing(src, dst, c);
    forall k | k in Outsiders(src, c.Keys)
      ensures Absent(Run(src, dst, c, n), c[k]) <==> DropsOut(src, dst, c.Keys, k)
    {
      StartWaits(src, dst, c, k);
      DropsOutIff(src, dst, c, 0, n, k, c[k]);
    }
  }
}
