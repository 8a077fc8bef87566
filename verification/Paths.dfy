/** Relative paths of the drive, as boost::filesystem renders, orders and splits them. */
module Paths {
  import opened Lexicographic

  type Name = string
  type Path = seq<Name>

  const ROOT: Name := "/"

  /** A file name: not empty, and without a separator. */
  predicate IsName(e: Name) {
    e != "" && '/' !in e
  }

  /** The empty path (the root's parent), or an absolute path. */
  predicate IsPath(p: Path) {
    p == [] || (p[0] == ROOT && forall i :: 1 <= i < |p| ==> IsName(p[i]))
  }

  function Parent(p: Path): Path {
    if p == [] then [] else p[..|p| - 1]
  }

  function FileName(p: Path): Name {
    if p == [] then "" else p[|p| - 1]
  }

  /** p is top or lies below it. */
  predicate IsWithin(top: Path, p: Path) {
    top <= p
  }

  // ----- order -----

  predicate CharLess(x: char, y: char) {
    x < y
  }

  predicate NameLess(a: Name, b: Name) {
    Less(CharLess, a, b)
  }

  predicate PathLess(p: Path, q: Path) {
    Less(NameLess, p, q)
  }

  lemma NameOrder()
    ensures StrictTotalOrder(NameLess)
  {
    LessIsStrictTotalOrder(CharLess);
  }

  lemma PathOrder()
    ensures forall p :: !PathLess(p, p)
    ensures forall p, q, r :: PathLess(p, q) && PathLess(q, r) ==> PathLess(p, r)
    ensures forall p, q :: p != q ==> PathLess(p, q) || PathLess(q, p)
  {
    NameOrder();
    LessIsStrictTotalOrder(NameLess);
  }

  /** At the first character in which they differ, a has the lesser one or ends. */
  ghost predicate IsBefore(a: Name, b: Name) {
    exists n | 0 <= n <= |a| && n <= |b| :: a[..n] == b[..n] && (n == |a| < |b| || (n < |a| && n < |b| && a[n] < b[n]))
  }

  /** Which order that is: at the first character in which two names differ, the lesser name has the
      lesser character or ends. */
  lemma NameOrderIs(a: Name, b: Name)
    ensures NameLess(a, b) <==>
      exists n | 0 <= n <= |a| && n <= |b| ::
        a[..n] == b[..n] && (n == |a| < |b| || (n < |a| && n < |b| && a[n] < b[n]))
    ensures NameLess(a, b) <==> IsBefore(a, b)
  {
    if NameLess(a, b) {
      var n := LessHasPlace(CharLess, a, b);
      assert a[..n] == b[..n];
    }
    if n: nat :| n <= |a| && n < |b| && a[..n] == b[..n] && (n == |a| || a[n] < b[n]) {
      assert LessAt(CharLess, a, b, n);
      PlaceMakesLess(CharLess, a, b, n);
    }
  }

  /** And at the first element in which two paths differ, the lesser path has the lesser name or ends. */
  lemma PathOrderIs(p: Path, q: Path)
    ensures PathLess(p, q) <==>
      exists n | 0 <= n <= |p| && n <= |q| ::
        && p[..n] == q[..n]
        && (n == |p| < |q|
            || (n < |p| && n < |q| &&
                exists k | 0 <= k <= |p[n]| && k <= |q[n]| ::
                  && p[n][..k] == q[n][..k]
                  && (k == |p[n]| < |q[n]| || (k < |p[n]| && k < |q[n]| && p[n][k] < q[n][k]))))
  {
    forall a, b
      ensures NameLess(a, b) <==> exists k | 0 <= k <= |a| && k <= |b| ::
        a[..k] == b[..k] && (k == |a| < |b| || (k < |a| && k < |b| && a[k] < b[k]))
    {
      NameOrderIs(a, b);
    }
    if PathLess(p, q) {
      var n := LessHasPlace(NameLess, p, q);
      assert p[..n] == q[..n];
    }
    if n: nat :| n <= |p| && n < |q| && p[..n] == q[..n] && (n == |p| || NameLess(p[n], q[n])) {
      assert LessAt(NameLess, p, q, n);
      PlaceMakesLess(NameLess, p, q, n);
    }
  }

  // ----- text -----

  function Join(names: seq<Name>): string {
    if names == [] then ""
    else if |names| == 1 then names[0]
    else names[0] + "/" + Join(names[1..])
  }

  /** path::string(). */
  function Text(p: Path): string {
    if p == [] then "" else p[0] + Join(p[1..])
  }

  predicate AreNames(names: seq<Name>) {
    forall e | e in names :: IsName(e)
  }

  /** The text of a begins the text of b exactly when a's leading names are b's and a's last name
      begins the name b has in its place. */
  ghost predicate NamesCover(a: seq<Name>, b: seq<Name>)
    requires a != []
  {
    |a| <= |b| && a[..|a| - 1] == b[..|a| - 1] && a[|a| - 1] <= b[|a| - 1]
  }

  lemma NoSeparatorAt(e: Name, i: nat)
    requires IsName(e) && i < |e|
    ensures e[i] != '/'
  {
  }

  lemma {:induction false} JoinPrefix(a: seq<Name>, b: seq<Name>)
    requires AreNames(a) && AreNames(b) && a != []
    ensures Join(a) <= Join(b) <==> NamesCover(a, b)
  {
    var e := a[0];
    assert IsName(e);
    if b == [] {
      assert |Join(a)| > 0;
    } else {
      var f := b[0];
      assert IsName(f);
      if |e| < |f| { NoSeparatorAt(f, |e|); }
      if |f| < |e| { NoSeparatorAt(e, |f|); }
      if |a| == 1 {
        if |b| > 1 { SharedHead(e, [], f, Join(b[1..])); }
        assert a[..0] == b[..0];
      } else if |b| == 1 {
        assert Join(a)[|e|] == '/';
      } else {
        JoinPrefix(a[1..], b[1..]);
        if Join(a) <= Join(b) {
          assert Join(a)[..|e|] == e && Join(a)[|e|] == '/';
          assert Join(b)[..|f|] == f && Join(b)[|f|] == '/';
          assert |e| == |f|;
          assert e == f;
          assert Join(a)[|e| + 1..] == Join(a[1..]) && Join(b)[|e| + 1..] == Join(b[1..]);
          assert Join(a[1..]) <= Join(b[1..]);
          CoverStep(a, b);
        }
        if NamesCover(a, b) {
          assert a[..|a| - 1][0] == b[..|a| - 1][0];
          CoverStep(a, b);
        }
      }
    }
  }

  lemma SharedHead(e: Name, x: string, f: Name, y: string)
    requires IsName(e) && IsName(f)
    ensures e <= f + "/" + y <==> e <= f
  {
    if |f| < |e| {
      NoSeparatorAt(e, |f|);
      assert (f + "/" + y)[|f|] == '/';
    } else {
      assert (f + "/" + y)[..|e|] == f[..|e|];
    }
  }

  lemma CoverStep(a: seq<Name>, b: seq<Name>)
    requires |a| > 1 && |b| > 1 && a[0] == b[0]
    ensures NamesCover(a, b) <==> NamesCover(a[1..], b[1..])
  {
    var n := |a| - 1;
    if |a| <= |b| {
      assert a[..n] == [a[0]] + a[1..][..n - 1];
      assert b[..n] == [b[0]] + b[1..][..n - 1];
    }
  }

  // ----- the text-prefix test of DirectoryHandler::Rename -----

  /** The test the re-keying loop makes on texts, said about path elements. */
  predicate Covers(src: Path, k: Path)
    requires |src| >= 2
  {
    |src| <= |k| && src[..|src| - 1] == k[..|src| - 1] && src[|src| - 1] <= k[|src| - 1]
  }

  lemma TextPrefixIsCovers(src: Path, k: Path)
    requires IsPath(src) && IsPath(k) && |src| >= 2
    ensures Text(src) <= Text(k) <==> Covers(src, k)
  {
    if k == [] {
      assert |Text(src)| > 0;
    } else {
      JoinPrefix(src[1..], k[1..]);
      assert Text(src) <= Text(k) <==> Join(src[1..]) <= Join(k[1..]) by {
        assert Text(src)[1..] == Join(src[1..]) && Text(k)[1..] == Join(k[1..]);
        if Join(src[1..]) <= Join(k[1..]) {
          assert Text(src) == ROOT + Join(src[1..]) && Text(k) == ROOT + Join(k[1..]);
        }
      }
      assert src[0] == k[0];
      if |k| > 1 {
        CoverStep(src, k);
      }
    }
  }

  /** Where the loop moves a key: new's text followed by what follows src's text in k's. */
  function Retarget(src: Path, dst: Path, k: Path): Path
    requires |src| >= 2 && |dst| >= 2 && Covers(src, k)
  {
    Parent(dst) + [FileName(dst) + k[|src| - 1][|FileName(src)|..]] + k[|src|..]
  }

  lemma JoinOfMore(names: seq<Name>)
    requires |names| >= 2
    ensures Join(names) == names[0] + "/" + Join(names[1..])
  {
  }

  lemma {:induction false} JoinSplit(front: seq<Name>, last: Name, rest: seq<Name>)
    ensures Join(front + [last] + rest) == Join(front + [last]) + Tail(rest)
  {
    if front == [] {
      assert [] + [last] + rest == [last] + rest && [] + [last] == [last];
      if rest != [] { assert ([last] + rest)[1..] == rest; }
    } else {
      assert (front + [last] + rest)[1..] == front[1..] + [last] + rest;
      assert (front + [last])[1..] == front[1..] + [last];
      JoinOfMore(front + [last] + rest);
      JoinOfMore(front + [last]);
      hide Join, Tail;
      JoinSplit(front[1..], last, rest);
      Appended(front[0] + "/", Join(front[1..] + [last]), Tail(rest));
    }
  }

  function Tail(rest: seq<Name>): string {
    if rest == [] then "" else "/" + Join(rest)
  }

  lemma {:induction false} JoinLast(front: seq<Name>, last: Name, more: string)
    ensures Join(front + [last + more]) == Join(front + [last]) + more
  {
    if front == [] {
    } else {
      JoinLast(front[1..], last, more);
      assert (front + [last + more])[1..] == front[1..] + [last + more];
      assert (front + [last])[1..] == front[1..] + [last];
    }
  }

  /** A covered path: src's front, src's last name and more, and the rest. */
  lemma CoveredParts(src: Path, k: Path)
    requires |src| >= 2 && Covers(src, k)
    ensures k == Parent(src) + [FileName(src) + k[|src| - 1][|FileName(src)|..]] + k[|src|..]
  {
    var n := |src| - 1;
    assert k[n] == FileName(src) + k[n][|FileName(src)|..];
    assert k == k[..n] + [k[n]] + k[|src|..];
  }

  lemma LastParts(p: Path)
    requires |p| >= 2
    ensures p == Parent(p) + [FileName(p)] && Parent(p) != []
  {
  }

  lemma Appended(s: string, a: string, b: string)
    ensures (s + a + b)[|s|..] == a + b && s <= s + a + b
    ensures s + (a + b) == (s + a) + b
  {
  }

  lemma RetargetText(src: Path, dst: Path, k: Path)
    requires IsPath(src) && IsPath(dst) && IsPath(k) && |src| >= 2 && |dst| >= 2
    requires Covers(src, k)
    ensures Text(src) <= Text(k)
    ensures Text(Retarget(src, dst, k)) == Text(dst) + Text(k)[|Text(src)|..]
  {
    var more := k[|src| - 1][|FileName(src)|..];
    var rest := k[|src|..];
    CoveredParts(src, k);
    LastParts(src);
    LastParts(dst);
    hide Text, IsPath, Join, Covers, Tail, Parent, FileName;
    TextSplit(k, Parent(src), FileName(src), more, rest);
    TextSplit(Retarget(src, dst, k), Parent(dst), FileName(dst), more, rest);
    Appended(Text(src), more, Tail(rest));
    Appended(Text(dst), more, Tail(rest));
  }

  lemma TextSplit(p: Path, front: Path, last: Name, more: string, rest: seq<Name>)
    requires front != []
    requires p == front + [last + more] + rest
    ensures Text(p) == Text(front + [last]) + more + Tail(rest)
  {
    assert p[1..] == front[1..] + [last + more] + rest && p[0] == front[0];
    assert (front + [last])[1..] == front[1..] + [last] && (front + [last])[0] == front[0];
    hide Join, Tail;
    JoinSplit(front[1..], last + more, rest);
    JoinLast(front[1..], last, more);
    Appended(front[0], Join(front[1..] + [last]) + more, Tail(rest));
    Appended(front[0], Join(front[1..] + [last]), more);
  }
}
