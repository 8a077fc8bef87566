/** Listing a directory through a mask: each call goes on from the directory's cursor. */
module Enumeration {
  import opened Paths
  import opened MetaData
  import opened Listing
  import opened Wrappers
  import opened MaskMatch
  import opened MaskMatchProofs

  predicate Wanted(mask: string, m: Meta) {
    Accepts(mask, m.name)
  }

  /** The children a mask is to list, in the directory's order. */
  function Matching(s: Children, mask: string): Children {
    if s == [] then []
    else (if Wanted(mask, s[0]) then [s[0]] else []) + Matching(s[1..], mask)
  }

  /** Where the call that starts at a cursor finds its child; |s| for none. */
  function NextWanted(s: Children, mask: string, cursor: nat): (i: nat)
    requires cursor <= |s|
    ensures cursor <= i <= |s| && (i < |s| ==> Wanted(mask, s[i]))
    ensures forall j | cursor <= j < i :: !Wanted(mask, s[j])
    decreases |s| - cursor
  {
    if cursor == |s| || Wanted(mask, s[cursor]) then cursor else NextWanted(s, mask, cursor + 1)
  }

  /** What one call answers and where it leaves the cursor. */
  function Call(s: Children, mask: string, cursor: nat): (Option<Meta>, nat)
    requires cursor <= |s|
  {
    var i := NextWanted(s, mask, cursor);
    if i < |s| then (Some(s[i]), i + 1) else (None, |s|)
  }

  /** The answers of repeated calls, until one answers nothing. */
  function Answers(s: Children, mask: string, cursor: nat): Children
    requires cursor <= |s|
    decreases |s| - cursor
  {
    var (found, next) := Call(s, mask, cursor);
    if found.None? then [] else [found.value] + Answers(s, mask, next)
  }

  lemma {:induction false} SkipUnwanted(s: Children, mask: string, cursor: nat, i: nat)
    requires cursor <= i <= |s| && forall j | cursor <= j < i :: !Wanted(mask, s[j])
    ensures Matching(s[cursor..], mask) == Matching(s[i..], mask)
    decreases i - cursor
  {
    if cursor < i {
      assert s[cursor..][1..] == s[cursor + 1..];
      SkipUnwanted(s, mask, cursor + 1, i);
    }
  }

  /** Repeated calls list exactly the matching children, once each, in order. */
  lemma {:induction false} AnswersAreMatching(s: Children, mask: string, cursor: nat)
    requires cursor <= |s|
    ensures Answers(s, mask, cursor) == Matching(s[cursor..], mask)
    decreases |s| - cursor
  {
    var i := NextWanted(s, mask, cursor);
    SkipUnwanted(s, mask, cursor, i);
    if i < |s| {
      assert s[i..][1..] == s[i + 1..];
      AnswersAreMatching(s, mask, i + 1);
    }
  }

  lemma {:induction false} MatchingMembers(s: Children, mask: string)
    ensures forall m :: m in Matching(s, mask) <==> m in s && Wanted(mask, m)
    ensures Sorted(s) ==> Sorted(Matching(s, mask))
  {
    if s != [] {
      MatchingMembers(s[1..], mask);
      var rest := Matching(s[1..], mask);
      assert forall m :: m in s <==> m == s[0] || m in s[1..];
      if Sorted(s) {
        assert Sorted(s[1..]);
        if Wanted(mask, s[0]) {
          forall x | x in rest ensures NameLess(s[0].name, x.name) {
            var i :| 0 <= i < |s[1..]| && s[1..][i] == x;
            assert NameLess(s[0].name, s[i + 1].name);
          }
          assert Matching(s, mask)[1..] == rest;
          SortedCons(Matching(s, mask));
        }
      }
    }
  }

  /** The mask "*" is for every child, so taking the child at the cursor without asking the matcher
      answers the same. */
  lemma StarWantsAll(m: Meta)
    ensures Wanted("*", m)
  {
    var mask, name := "*", CText(m.name);
    assert CText(mask) == mask;
    forall st, j, k | 0 <= st < |mask| && mask[st] == '*' && 0 <= j <= |mask| && 0 <= k <= |mask|
      ensures !Clash(mask, BlockStart(mask, st), j, k)
    {
    }
    assert Glob(mask, 1, name, |name|);
    StarAbsorbs(mask, 0, name, 0, |name|);
    ExactIsComplete(mask, m.name);
  }
}
