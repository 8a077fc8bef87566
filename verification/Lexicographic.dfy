/** The lexicographic order that std::string and boost::filesystem::path use: strings compare
    character by character, paths compare element by element. */
module Lexicographic {
  ghost predicate StrictTotalOrder<T(!new)>(lt: (T, T) -> bool) {
    && (forall x :: !lt(x, x))
    && (forall x, y, z :: lt(x, y) && lt(y, z) ==> lt(x, z))
    && (forall x, y :: x != y ==> lt(x, y) || lt(y, x))
  }

  predicate Less<T(==)>(lt: (T, T) -> bool, a: seq<T>, b: seq<T>) {
    b != [] && (a == [] || lt(a[0], b[0]) || (a[0] == b[0] && Less(lt, a[1..], b[1..])))
  }

  lemma {:induction false} Irreflexive<T(!new)>(lt: (T, T) -> bool, a: seq<T>)
    requires StrictTotalOrder(lt)
    ensures !Less(lt, a, a)
  {
    if a != [] {
      Irreflexive(lt, a[1..]);
    }
  }

  lemma {:induction false} Transitive<T(!new)>(lt: (T, T) -> bool, a: seq<T>, b: seq<T>, c: seq<T>)
    requires StrictTotalOrder(lt)
    requires Less(lt, a, b) && Less(lt, b, c)
    ensures Less(lt, a, c)
  {
    if a != [] && a[0] == b[0] == c[0] {
      Transitive(lt, a[1..], b[1..], c[1..]);
    }
  }

  lemma {:induction false} Connected<T(!new)>(lt: (T, T) -> bool, a: seq<T>, b: seq<T>)
    requires StrictTotalOrder(lt)
    requires a != b
    ensures Less(lt, a, b) || Less(lt, b, a)
  {
    if a != [] && b != [] && a[0] == b[0] {
      assert a == [a[0]] + a[1..] && b == [b[0]] + b[1..];
      Connected(lt, a[1..], b[1..]);
    }
  }

  /** Sequences under a strict total order are themselves under one. */
  lemma LessIsStrictTotalOrder<T(!new)>(lt: (T, T) -> bool)
    requires StrictTotalOrder(lt)
    ensures forall a: seq<T> :: !Less(lt, a, a)
    ensures forall a: seq<T>, b: seq<T>, c: seq<T> :: Less(lt, a, b) && Less(lt, b, c) ==> Less(lt, a, c)
    ensures forall a: seq<T>, b: seq<T> :: a != b ==> Less(lt, a, b) || Less(lt, b, a)
  {
    forall a: seq<T> ensures !Less(lt, a, a) { Irreflexive(lt, a); }
    forall a: seq<T>, b: seq<T>, c: seq<T> | Less(lt, a, b) && Less(lt, b, c) ensures Less(lt, a, c) {
      Transitive(lt, a, b, c);
    }
    forall a: seq<T>, b: seq<T> | a != b ensures Less(lt, a, b) || Less(lt, b, a) {
      Connected(lt, a, b);
    }
  }

  /** At the first place n in which the sequences differ, a has the lesser element or ends. */
  ghost predicate LessAt<T(!new)>(lt: (T, T) -> bool, a: seq<T>, b: seq<T>, n: nat)
    requires n <= |a| && n <= |b|
  {
    a[..n] == b[..n] && n < |b| && (n == |a| || lt(a[n], b[n]))
  }

  lemma {:induction false} LessHasPlace<T(!new)>(lt: (T, T) -> bool, a: seq<T>, b: seq<T>) returns (n: nat)
    requires Less(lt, a, b)
    ensures n <= |a| && n <= |b| && LessAt(lt, a, b, n)
  {
    if a == [] || lt(a[0], b[0]) {
      n := 0;
    } else {
      var k := LessHasPlace(lt, a[1..], b[1..]);
      n := k + 1;
      assert a[..n] == [a[0]] + a[1..][..k] && b[..n] == [b[0]] + b[1..][..k];
    }
  }

  lemma {:induction false} PlaceMakesLess<T(!new)>(lt: (T, T) -> bool, a: seq<T>, b: seq<T>, n: nat)
    requires n <= |a| && n <= |b| && LessAt(lt, a, b, n)
    ensures Less(lt, a, b)
  {
    if n > 0 {
      assert a[0] == a[..n][0] && b[0] == b[..n][0];
      assert a[1..][..n - 1] == a[..n][1..] && b[1..][..n - 1] == b[..n][1..];
      PlaceMakesLess(lt, a[1..], b[1..], n - 1);
    }
  }

  lemma {:induction false} ProperPrefixIsLess<T>(lt: (T, T) -> bool, a: seq<T>, b: seq<T>)
    requires a < b
    ensures Less(lt, a, b)
  {
    if a != [] {
      assert a[0] == b[0];
      assert a[1..] < b[1..];
      ProperPrefixIsLess(lt, a[1..], b[1..]);
    }
  }

  /** The sequences that extend a fixed prefix form an interval that starts at the prefix. */
  lemma {:induction false} PrefixedFormInterval<T(!new)>(lt: (T, T) -> bool, p: seq<T>, m: seq<T>, c: seq<T>)
    requires StrictTotalOrder(lt)
    requires p <= c
    requires !Less(lt, m, p)
    requires m == c || Less(lt, m, c)
    ensures p <= m
  {
    if p != [] {
      if m == c {
      } else {
        assert c[0] == p[0];
        assert m[0] == p[0];
        PrefixedFormInterval(lt, p[1..], m[1..], c[1..]);
      }
    }
  }
}
