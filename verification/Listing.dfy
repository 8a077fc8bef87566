/** The children of a directory: a vector that is sorted by name after every change. */
module Listing {
  import opened Wrappers
  import opened Paths
  import opened MetaData

  type Children = seq<Meta>

  ghost predicate Sorted(s: Children) {
    forall i, j | 0 <= i < j < |s| :: NameLess(s[i].name, s[j].name)
  }

  /** Sorted is sorted by the characters of the names. */
  lemma SortedIs(s: Children)
    ensures Sorted(s) <==> forall i, j | 0 <= i < j < |s| :: IsBefore(s[i].name, s[j].name)
  {
    hide NameLess, IsBefore;
    forall i, j | 0 <= i < j < |s| ensures NameLess(s[i].name, s[j].name) <==> IsBefore(s[i].name, s[j].name) {
      NameOrderIs(s[i].name, s[j].name);
    }
  }

  ghost predicate Unique(s: Children) {
    forall i, j | 0 <= i < |s| && 0 <= j < |s| && s[i].name == s[j].name :: i == j
  }

  /** std::find_if by name; |s| when there is none. */
  function Find(s: Children, name: Name): (i: nat)
    ensures i <= |s| && (i < |s| ==> s[i].name == name)
    ensures forall j | 0 <= j < i :: s[j].name != name
  {
    if s == [] || s[0].name == name then 0
    else
      assert forall j | 1 <= j < |s| :: s[j] == s[1..][j - 1];
      1 + Find(s[1..], name)
  }

  function Lookup(s: Children, name: Name): Option<Meta> {
    var i := Find(s, name);
    if i < |s| then Some(s[i]) else None
  }

  lemma LookupFinds(s: Children, name: Name)
    ensures Lookup(s, name).Some? <==> Find(s, name) < |s|
    ensures Lookup(s, name).Some? ==> Lookup(s, name).value == s[Find(s, name)] && s[Find(s, name)].name == name
  {
  }

  lemma SortedIsUnique(s: Children)
    requires Sorted(s)
    ensures Unique(s)
  {
    NameOrder();
    forall i, j | 0 <= i < |s| && 0 <= j < |s| && i != j ensures s[i].name != s[j].name {
      assert NameLess(s[i].name, s[j].name) || NameLess(s[j].name, s[i].name);
    }
  }

  lemma LookupIsMember(s: Children, name: Name, m: Meta)
    requires Unique(s)
    ensures Lookup(s, name) == Some(m) <==> m in s && m.name == name
  {
  }

  // ----- sorting -----

  function Insert(m: Meta, s: Children): (r: Children)
    ensures multiset(r) == multiset(s) + multiset{m}
  {
    if s == [] || !NameLess(s[0].name, m.name) then [m] + s
    else
      assert s == [s[0]] + s[1..];
      [s[0]] + Insert(m, s[1..])
  }

  /** std::sort by name. */
  function Sort(s: Children): (r: Children)
    ensures multiset(r) == multiset(s)
  {
    if s == [] then []
    else
      assert s == [s[0]] + s[1..];
      Insert(s[0], Sort(s[1..]))
  }

  lemma {:induction false} InsertKeepsSorted(m: Meta, s: Children)
    requires Sorted(s) && forall x | x in s :: x.name != m.name
    ensures Sorted(Insert(m, s))
  {
    NameOrder();
    var r := Insert(m, s);
    if s == [] {
    } else if NameLess(s[0].name, m.name) {
      assert Sorted(s[1..]);
      InsertKeepsSorted(m, s[1..]);
      forall x | x in r[1..] ensures NameLess(r[0].name, x.name) {
        assert r[1..] == Insert(m, s[1..]);
        assert x in multiset(Insert(m, s[1..]));
        if x != m {
          assert x in s[1..];
        }
      }
      SortedCons(r);
    } else {
      assert NameLess(m.name, s[0].name);
      forall x | x in r[1..] ensures NameLess(r[0].name, x.name) {
        assert r[1..] == s;
        var i :| 0 <= i < |s| && s[i] == x;
        if i > 0 { assert NameLess(s[0].name, s[i].name); }
      }
      SortedCons(r);
    }
  }

  lemma SortedCons(r: Children)
    requires r != [] && Sorted(r[1..]) && forall x | x in r[1..] :: NameLess(r[0].name, x.name)
    ensures Sorted(r)
  {
    forall i, j | 0 <= i < j < |r| ensures NameLess(r[i].name, r[j].name) {
      assert r[j] == r[1..][j - 1];
      if i > 0 { assert r[i] == r[1..][i - 1]; }
    }
  }

  lemma {:induction false} SortSorts(s: Children)
    requires Unique(s)
    ensures Sorted(Sort(s))
  {
    if s != [] {
      var rest := s[1..];
      assert Unique(rest) by {
        forall i, j | 0 <= i < |rest| && 0 <= j < |rest| && rest[i].name == rest[j].name ensures i == j {
          assert s[i + 1].name == s[j + 1].name;
        }
      }
      SortSorts(rest);
      forall x | x in Sort(rest) ensures x.name != s[0].name {
        assert x in multiset(Sort(rest));
        assert x in rest;
        var i :| 0 <= i < |rest| && rest[i] == x;
        assert s[i + 1] == x;
      }
      InsertKeepsSorted(s[0], Sort(rest));
    }
  }

  lemma SortMembers(s: Children)
    ensures forall x :: x in Sort(s) <==> x in s
  {
    forall x ensures x in Sort(s) <==> x in s {
      assert x in Sort(s) <==> x in multiset(Sort(s));
      assert x in s <==> x in multiset(s);
    }
  }

  // ----- the directory's operations on its children -----

  function Added(s: Children, m: Meta): Children {
    Sort(s + [m])
  }

  function Removed(s: Children, i: nat): Children
    requires i < |s|
  {
    Sort(s[..i] + s[i + 1..])
  }

  function Replaced(s: Children, i: nat, m: Meta): Children
    requires i < |s|
  {
    Sort(s[i := m])
  }

  /** The listing with a child renamed; as it was if there is none of that name. */
  function Renamed(s: Children, name: Name, newName: Name): Children {
    var i := Find(s, name);
    if i < |s| then Replaced(s, i, s[i].(name := newName)) else s
  }

  /** The listing with a file's data map and size updated where it stands. */
  function Updated(s: Children, name: Name, dataMap: DataMap, size: nat): Children {
    var i := Find(s, name);
    if i < |s| then s[i := s[i].(dataMap := Some(dataMap), size := size)] else s
  }

  lemma AddedLooksUp(s: Children, m: Meta)
    requires Sorted(s) && Lookup(s, m.name).None?
    ensures Sorted(Added(s, m))
    ensures forall n :: Lookup(Added(s, m), n) == if n == m.name then Some(m) else Lookup(s, n)
    ensures forall x :: x in Added(s, m) <==> x in s || x == m
  {
    SortedIsUnique(s);
    var t := s + [m];
    assert Unique(t);
    SortSorts(t);
    SortedIsUnique(Added(s, m));
    SortMembers(t);
    forall n ensures Lookup(Added(s, m), n) == if n == m.name then Some(m) else Lookup(s, n) {
      SameLookup(Added(s, m), n, if n == m.name then Some(m) else Lookup(s, n));
    }
  }

  lemma AddedToNone(m: Meta)
    ensures Added([], m) == [m]
  {
    assert [] + [m] == [m] && [m][1..] == [];
  }

  /** A unique list is looked up by membership. */
  lemma SameLookup(s: Children, n: Name, expected: Option<Meta>)
    requires Unique(s)
    requires expected.Some? ==> expected.value in s && expected.value.name == n
    requires expected.None? ==> forall x | x in s :: x.name != n
    ensures Lookup(s, n) == expected
  {
  }

  lemma WithoutMembers(s: Children, i: nat)
    requires Unique(s) && i < |s|
    ensures Unique(s[..i] + s[i + 1..])
    ensures forall x :: x in s[..i] + s[i + 1..] <==> x in s && x != s[i]
  {
    var t := s[..i] + s[i + 1..];
    forall a, b | 0 <= a < |t| && 0 <= b < |t| && t[a].name == t[b].name ensures a == b {
      assert t[a] == s[if a < i then a else a + 1] && t[b] == s[if b < i then b else b + 1];
    }
    forall x ensures x in t <==> x in s && x != s[i] {
      if x in s && x != s[i] {
        var a :| 0 <= a < |s| && s[a] == x;
        assert t[if a < i then a else a - 1] == x;
      }
    }
  }

  lemma LookupMeans(s: Children, name: Name)
    ensures Lookup(s, name).None? ==> forall x | x in s :: x.name != name
    ensures Lookup(s, name).Some? ==> Lookup(s, name).value in s && Lookup(s, name).value.name == name
  {
  }

  lemma NoOtherHas(s: Children, i: nat, name: Name)
    requires Unique(s) && i < |s| && (name == s[i].name || Lookup(s, name).None?)
    ensures forall j | 0 <= j < |s| && j != i :: s[j].name != name
  {
  }

  lemma WithMembers(s: Children, i: nat, m: Meta)
    requires Unique(s) && i < |s| && forall j | 0 <= j < |s| && j != i :: s[j].name != m.name
    ensures Unique(s[i := m])
    ensures forall x :: x in s[i := m] <==> x == m || (x in s && x != s[i])
    ensures forall x | x in s :: (x == s[i] <==> x.name == s[i].name) && (x.name == m.name ==> x == s[i])
  {
    var t := s[i := m];
    forall x ensures x in t <==> x == m || (x in s && x != s[i]) {
      if x == m { assert t[i] == m; }
      if x in s && x != s[i] {
        var a :| 0 <= a < |s| && s[a] == x;
        assert t[a] == x;
      }
    }
  }

  lemma RemovedLooksUp(s: Children, i: nat)
    requires Sorted(s) && i < |s|
    ensures Sorted(Removed(s, i))
    ensures forall n :: Lookup(Removed(s, i), n) == if n == s[i].name then None else Lookup(s, n)
    ensures forall x :: x in Removed(s, i) <==> x in s && x != s[i]
  {
    SortedIsUnique(s);
    WithoutMembers(s, i);
    hide Sorted, Sort;
    SortSorts(s[..i] + s[i + 1..]);
    SortedIsUnique(Removed(s, i));
    SortMembers(s[..i] + s[i + 1..]);
    forall n ensures Lookup(Removed(s, i), n) == if n == s[i].name then None else Lookup(s, n) {
      SameLookup(Removed(s, i), n, if n == s[i].name then None else Lookup(s, n));
    }
  }

  ghost function LookupReplaced(s: Children, i: nat, m: Meta, n: Name): Option<Meta>
    requires i < |s|
  {
    if n == m.name then Some(m) else if n == s[i].name then None else Lookup(s, n)
  }

  lemma ReplacedLooksUp(s: Children, i: nat, m: Meta)
    requires Sorted(s) && i < |s| && (m.name == s[i].name || Lookup(s, m.name).None?)
    ensures Sorted(Replaced(s, i, m))
    ensures forall n :: Lookup(Replaced(s, i, m), n) == LookupReplaced(s, i, m, n)
    ensures forall x :: x in Replaced(s, i, m) <==> x == m || (x in s && x != s[i])
  {
    SortedIsUnique(s);
    NoOtherHas(s, i, m.name);
    WithMembers(s, i, m);
    hide Sorted, Sort, Lookup, Unique, Find;
    SortSorts(s[i := m]);
    SortedIsUnique(Replaced(s, i, m));
    SortMembers(s[i := m]);
    forall n ensures Lookup(Replaced(s, i, m), n) == LookupReplaced(s, i, m, n) {
      ReplacedLookup(s, i, m, Replaced(s, i, m), n);
    }
  }

  lemma ReplacedLookup(s: Children, i: nat, m: Meta, t: Children, n: Name)
    requires i < |s| && Unique(t) && (forall x :: x in t <==> x == m || (x in s && x != s[i]))
    requires forall x | x in s :: (x == s[i] <==> x.name == s[i].name) && (x.name == m.name ==> x == s[i])
    ensures Lookup(t, n) == LookupReplaced(s, i, m, n)
  {
    LookupMeans(s, n);
    hide Lookup, Unique;
    SameLookup(t, n, LookupReplaced(s, i, m, n));
  }

  lemma UpdatedLooksUp(s: Children, name: Name, dataMap: DataMap, size: nat)
    requires Sorted(s) && Lookup(s, name).Some?
    ensures var m := Lookup(s, name).value.(dataMap := Some(dataMap), size := size);
      var t := Updated(s, name, dataMap, size);
      && Sorted(t)
      && (forall n :: Lookup(t, n) == if n == name then Some(m) else Lookup(s, n))
      && (forall x :: x in t <==> x == m || (x in s && x.name != name))
  {
    var i := Find(s, name);
    var m := s[i].(dataMap := Some(dataMap), size := size);
    var t := Updated(s, name, dataMap, size);
    assert t == s[i := m];
    SortedIsUnique(s);
    SortedIsUnique(t);
    NoOtherHas(s, i, name);
    WithMembers(s, i, m);
    hide Lookup, Unique, Sorted, Find;
    forall n ensures Lookup(t, n) == if n == name then Some(m) else Lookup(s, n) {
      LookupMeans(s, n);
      SameLookup(t, n, if n == name then Some(m) else Lookup(s, n));
    }
  }

  /** Sorting again changes nothing, as when a stored listing is read back. */
  lemma {:induction false} SortOfSorted(s: Children)
    requires Sorted(s)
    ensures Sort(s) == s
  {
    if s != [] {
      NameOrder();
      assert Sorted(s[1..]);
      SortOfSorted(s[1..]);
      if |s| > 1 {
        assert NameLess(s[0].name, s[1].name);
        assert s[1..][0] == s[1];
      }
    }
  }
}
