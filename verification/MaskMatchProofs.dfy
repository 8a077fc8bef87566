/** MatchesMask against the meaning of masks: it never accepts a name the mask does not match, and
    the masks on which it accepts every name they match are exactly characterised. */
module MaskMatchProofs {
  import opened Wrappers
  import opened MaskMatch

  // ----- stars and runs -----

  lemma {:induction false} StarAbsorbs(mask: string, m: nat, name: string, n: nat, t: nat)
    requires m < |mask| && mask[m] == '*' && n <= t <= |name| && Glob(mask, m, name, t)
    ensures Glob(mask, m, name, n)
    decreases t - n
  {
    if n < t {
      StarAbsorbs(mask, m, name, n + 1, t);
    }
  }

  lemma {:induction false} RunTakes(mask: string, m: nat, name: string, n: nat)
    requires m <= |mask| && n + Wild(mask, m) <= |name| && Glob(mask, RunEnd(mask, m), name, n + Wild(mask, m))
    ensures Glob(mask, m, name, n)
    decreases |mask| - m
  {
    if m < |mask| && !IsLiteral(mask[m]) {
      RunTakes(mask, m + 1, name, if mask[m] == '?' then n + 1 else n);
    }
  }

  /** A star with its run reaches any later match of what follows the run. */
  lemma RunAbsorbs(mask: string, m: nat, name: string, n: nat, t: nat)
    requires m < |mask| && mask[m] == '*'
    requires n + Wild(mask, m + 1) <= t <= |name| && Glob(mask, RunEnd(mask, m + 1), name, t)
    ensures Glob(mask, m, name, n)
  {
    RunTakes(mask, m + 1, name, t - Wild(mask, m + 1));
    StarAbsorbs(mask, m, name, n, t - Wild(mask, m + 1));
  }

  lemma {:induction false} StarReleases(mask: string, m: nat, name: string, n: nat) returns (t: nat)
    requires m < |mask| && mask[m] == '*' && n <= |name| && Glob(mask, m, name, n)
    ensures n <= t <= |name| && Glob(mask, m + 1, name, t)
    decreases |name| - n
  {
    if Glob(mask, m + 1, name, n) {
      t := n;
    } else {
      t := StarReleases(mask, m, name, n + 1);
    }
  }

  /** The matcher past one character of a run. */
  function RunStep(mask: string, x: Matcher): (r: Matcher)
    requires x.m < |mask| && !IsLiteral(mask[x.m])
    ensures r.m == x.m + 1 && x.n <= r.n <= x.n + 1 && r.dec - x.dec == r.n - x.n && r.star == x.star
  {
    if mask[x.m] == '?' then x.(m := x.m + 1, n := x.n + 1, dec := x.dec + 1) else x.(m := x.m + 1)
  }

  lemma TakeRunOfOne(mask: string, name: string, x: Matcher)
    requires x.m <= |mask| && x.n < |name| && NoNul(mask) && NoNul(name)
    ensures x.m == |mask| || IsLiteral(mask[x.m]) ==> TakeRun(mask, name, x) == x
    ensures x.m < |mask| && !IsLiteral(mask[x.m]) ==>
      var y := RunStep(mask, x); TakeRun(mask, name, x) == if y.n == |name| then y else TakeRun(mask, name, y)
  {
    assert x.n + 1 < |name| ==> name[x.n + 1] != '\0';
    assert x.m < |mask| ==> mask[x.m] != '\0';
  }

  lemma GlobBeforeStep(mask: string, name: string, x: Matcher, d: nat)
    requires x.m < |mask| && !IsLiteral(mask[x.m])
    requires RunStep(mask, x).n + d <= |name| && Glob(mask, x.m + 1, name, RunStep(mask, x).n + d)
    ensures Glob(mask, x.m, name, x.n + d)
  {
  }

  lemma GlobAfterStep(mask: string, name: string, x: Matcher, t: nat) returns (t': nat)
    requires x.m < |mask| && !IsLiteral(mask[x.m]) && x.n <= t <= |name| && Glob(mask, x.m, name, t)
    ensures RunStep(mask, x).n <= t' <= |name| && Glob(mask, x.m + 1, name, t')
  {
    if mask[x.m] == '*' {
      t' := StarReleases(mask, x.m, name, t);
    } else {
      t' := t + 1;
    }
  }

  lemma {:induction false} TakeRunSound(mask: string, name: string, x: Matcher, d: nat, r: Matcher)
    requires x.m <= |mask| && x.n < |name| && NoNul(mask) && NoNul(name)
    requires r == TakeRun(mask, name, x) && r.n + d <= |name| && Glob(mask, r.m, name, r.n + d)
    ensures Glob(mask, x.m, name, x.n + d)
    decreases |mask| - x.m
  {
    hide *;
    TakeRunOfOne(mask, name, x);
    if x.m < |mask| && !IsLiteral(mask[x.m]) {
      var y := RunStep(mask, x);
      if y.n < |name| {
        TakeRunSound(mask, name, y, d, r);
      }
      GlobBeforeStep(mask, name, x, d);
    }
  }

  lemma {:induction false} TakeRunComplete(mask: string, name: string, x: Matcher, t: nat) returns (t': nat)
    requires x.m <= |mask| && x.n < |name| && NoNul(mask) && NoNul(name)
    requires x.n <= t <= |name| && Glob(mask, x.m, name, t)
    ensures TakeRun(mask, name, x).n <= t' <= |name| && Glob(mask, TakeRun(mask, name, x).m, name, t')
    decreases |mask| - x.m
  {
    hide *;
    TakeRunOfOne(mask, name, x);
    t' := t;
    if x.m < |mask| && !IsLiteral(mask[x.m]) {
      t' := GlobAfterStep(mask, name, x, t);
      var y := RunStep(mask, x);
      if y.n < |name| {
        t' := TakeRunComplete(mask, name, y, t');
      }
    }
  }

  lemma {:induction false} OnlyStarsIsGlob(mask: string, m: nat, name: string)
    requires m <= |mask|
    ensures OnlyStars(mask, m) <==> Glob(mask, m, name, |name|)
    decreases |mask| - m
  {
    if m < |mask| {
      OnlyStarsIsGlob(mask, m + 1, name);
    }
  }

  // ----- soundness -----

  lemma TakeStarSound(mask: string, name: string, x: Matcher)
    requires x.m < |mask| && mask[x.m] == '*' && x.n < |name| && NoNul(mask) && NoNul(name)
    requires Glob(mask, TakeStar(mask, name, x).m, name, TakeStar(mask, name, x).n)
    ensures Glob(mask, x.m, name, x.n)
  {
    hide Glob, TakeRun, Scan;
    var entered := Matcher(x.m + 1, x.n, Some(x.m), 0);
    var taken := TakeRun(mask, name, entered);
    var d := TakeStar(mask, name, x).n - taken.n;
    TakeRunSound(mask, name, entered, d, taken);
    StarAbsorbs(mask, x.m, name, x.n, x.n + d);
  }

  /** From any state: if the matcher accepts, the rest of the mask matches the rest of the name, or
      the mask from the last star matches the name from where that star was met. */
  lemma {:induction false} AcceptsFromSound(mask: string, name: string, x: Matcher, floor: nat)
    requires Ok(mask, name, x) && AcceptsFrom(mask, name, x) && floor <= x.n
    requires x.star.Some? && x.star != Some(x.m) ==> floor + x.dec <= x.n
    ensures Glob(mask, x.m, name, x.n) || (x.star.Some? && Glob(mask, x.star.value, name, floor))
    decreases StarsLeft(mask, x), |name| - Reach(x), x.n < |name|, Rank(mask, name, x)
  {
    if x.n == |name| {
      OnlyStarsIsGlob(mask, x.m, name);
    } else {
      StepDecreases(mask, name, x);
      var y := Step(mask, name, x).value;
      if CharAt(mask, x.m) == '*' {
        AcceptsFromSound(mask, name, y, x.n);
        if Glob(mask, y.m, name, y.n) {
          TakeStarSound(mask, name, x);
        }
      } else {
        AcceptsFromSound(mask, name, y, floor);
        if y.star == Some(y.m) && Glob(mask, y.m, name, y.n) {
          StarAbsorbs(mask, y.m, name, floor, y.n);
        }
      }
    }
  }

  /** MatchesMask is sound for every mask and every name. */
  lemma Sound(mask: string, name: string)
    requires Accepts(mask, name)
    ensures Glob(CText(mask), 0, CText(name), 0)
  {
    AcceptsFromSound(CText(mask), CText(name), START, 0);
  }

  // ----- literal blocks -----

  /** The block that starts at b runs to the next star, or to the mask's end. */
  function BlockEnd(mask: string, b: nat): (e: nat)
    requires b <= |mask|
    ensures b <= e <= |mask| && (e < |mask| ==> mask[e] == '*')
    ensures forall i | b <= i < e :: mask[i] != '*'
    decreases |mask| - b
  {
    if b == |mask| || mask[b] == '*' then b else BlockEnd(mask, b + 1)
  }

  predicate FitsAt(mask: string, b: nat, name: string, t: nat, i: nat) {
    b + i < |mask| && t + i < |name| && (mask[b + i] == '?' || mask[b + i] == name[t + i])
  }

  predicate Fits(mask: string, b: nat, name: string, t: nat, len: nat) {
    t + len <= |name| && forall i: nat | i < len :: FitsAt(mask, b, name, t, i)
  }

  lemma FitsStep(mask: string, b: nat, name: string, t: nat, len: nat)
    ensures Fits(mask, b, name, t, len + 1) <==> FitsAt(mask, b, name, t, 0) && Fits(mask, b + 1, name, t + 1, len)
  {
    var b1, t1 := b + 1, t + 1;
    if Fits(mask, b, name, t, len + 1) {
      forall i: nat | i < len ensures FitsAt(mask, b1, name, t1, i) {
        assert FitsAt(mask, b, name, t, i + 1);
      }
    }
    if FitsAt(mask, b, name, t, 0) && Fits(mask, b + 1, name, t + 1, len) {
      forall i: nat | i < len + 1 ensures FitsAt(mask, b, name, t, i) {
        if i > 0 { assert FitsAt(mask, b + 1, name, t + 1, i - 1); }
      }
    }
  }

  lemma {:induction false} GlobOfBlock(mask: string, b: nat, name: string, t: nat)
    requires b <= |mask| && t <= |name|
    ensures var e := BlockEnd(mask, b);
            Glob(mask, b, name, t) <==> Fits(mask, b, name, t, e - b) && Glob(mask, e, name, t + (e - b))
    decreases |mask| - b
  {
    var e := BlockEnd(mask, b);
    if b < e {
      FitsStep(mask, b, name, t, e - b - 1);
      if t < |name| {
        GlobOfBlock(mask, b + 1, name, t + 1);
      }
    }
  }

  // ----- which masks are matched completely -----

  predicate Compatible(c: char, d: char) {
    c == '?' || d == '?' || c == d
  }

  predicate LiesOver(mask: string, b: nat, k: nat, i: nat) {
    b + k + i < |mask| && Compatible(mask[b + i], mask[b + k + i])
  }

  /** After matching j characters of the block at b, the matcher can meet a mismatch that hides an
      occurrence which started k characters into them: the block's first characters can lie over
      themselves at distance k, and the character that fails the attempt can suit the occurrence.
      A complete last block "fails" when the name goes on. */
  predicate Clash(mask: string, b: nat, j: nat, k: nat)
    requires b <= |mask|
  {
    var e := BlockEnd(mask, b);
    && 0 < k < j <= e - b
    && (forall i | 0 <= i < j - k :: LiesOver(mask, b, k, i))
    && (if j < e - b then mask[b + j] != '?' && mask[b + j - k] != mask[b + j] else e == |mask|)
  }

  /** Where the block after a star's run begins. */
  function BlockStart(mask: string, st: nat): (b: nat)
    requires st < |mask|
    ensures st < b <= |mask|
  {
    RunEnd(mask, st + 1)
  }

  /** No block that follows a star can hide an occurrence of itself. */
  predicate Exact(mask: string) {
    forall st, j, k | 0 <= st < |mask| && mask[st] == '*' && 0 <= j <= |mask| && 0 <= k <= |mask| ::
      !Clash(mask, BlockStart(mask, st), j, k)
  }

  /** The matcher is matching the block after its last star at name position s, and an occurrence
      of the rest of the mask lies at t, not before s. */
  ghost predicate InBlock(mask: string, name: string, x: Matcher, s: nat, t: nat)
    requires Ok(mask, name, x)
  {
    && x.star.Some?
    && var b := BlockStart(mask, x.star.value);
    && b <= x.m <= BlockEnd(mask, b) && b < |mask| && x.n == s + (x.m - b)
    && x.dec == Wild(mask, x.star.value + 1)
    && Fits(mask, b, name, s, x.m - b)
    && s <= t <= |name| && Glob(mask, b, name, t)
  }

  ghost predicate Free(name: string, x: Matcher) {
    x.star.None? || x.star == Some(x.m) || x.n == |name|
  }

  lemma ScanStopsBefore(mask: string, name: string, x: Matcher, t: nat)
    requires x.m < |mask| && IsLiteral(mask[x.m]) && x.n <= t <= |name| && NoNul(mask) && NoNul(name)
    requires Glob(mask, x.m, name, t)
    ensures Scan(mask, name, x).n <= t < |name|
  {
    assert name[t] == mask[x.m];
  }

  lemma TakeStarComplete(mask: string, name: string, x: Matcher) returns (t: nat)
    requires Ok(mask, name, x) && x.m < |mask| && mask[x.m] == '*' && x.n < |name|
    requires Glob(mask, x.m, name, x.n)
    ensures Ok(mask, name, TakeStar(mask, name, x))
    ensures var y := TakeStar(mask, name, x);
            (Free(name, y) && Glob(mask, y.m, name, y.n)) || InBlock(mask, name, y, y.n, t)
  {
    hide TakeRun, Wild;
    assert Step(mask, name, x) == Some(TakeStar(mask, name, x));
    var entered := Matcher(x.m + 1, x.n, Some(x.m), 0);
    var taken := TakeRun(mask, name, entered);
    t := StarReleases(mask, x.m, name, x.n);
    t := TakeRunComplete(mask, name, entered, t);
    if taken.n < |name| && taken.m < |mask| {
      ScanStopsBefore(mask, name, taken, t);
    }
  }

  lemma MismatchSkipsNothing(mask: string, name: string, x: Matcher, s: nat, t: nat)
    requires Ok(mask, name, x) && Exact(mask) && x.n < |name| && InBlock(mask, name, x, s, t)
    requires x.m < |mask| ==> mask[x.m] != '*' && mask[x.m] != '?' && mask[x.m] != name[x.n]
    ensures x.n <= t
  {
    var b := BlockStart(mask, x.star.value);
    var e, j, k := BlockEnd(mask, b), x.m - b, t - s;
    GlobOfBlock(mask, b, name, t);
    assert j < e - b ==> !FitsAt(mask, b, name, s, j);
    if 0 < k < j {
      forall i | 0 <= i < j - k ensures LiesOver(mask, b, k, i) {
        assert FitsAt(mask, b, name, t, i) && FitsAt(mask, b, name, s, k + i);
      }
      assert j < e - b ==> FitsAt(mask, b, name, t, j - k);
      assert Clash(mask, b, j, k);
    }
  }

  /** What is left of the mask and of the name still match, taking back no more than the matcher
      can. */
  ghost predicate Promise(mask: string, name: string, x: Matcher, s: nat, t: nat)
    requires Ok(mask, name, x)
  {
    (Free(name, x) && Glob(mask, x.m, name, x.n)) || InBlock(mask, name, x, s, t)
  }

  lemma PromiseAtStar(mask: string, name: string, x: Matcher, s: nat, t: nat)
    requires Ok(mask, name, x) && Promise(mask, name, x, s, t)
    requires x.n < |name| && x.m < |mask| && mask[x.m] == '*'
    ensures Glob(mask, x.m, name, x.n)
  {
    if InBlock(mask, name, x, s, t) {
      var b := BlockStart(mask, x.star.value);
      GlobOfBlock(mask, b, name, t);
      StarAbsorbs(mask, x.m, name, x.n, t + (x.m - b));
    }
  }

  lemma PromiseInBlock(mask: string, name: string, x: Matcher, s: nat, t: nat)
    requires Ok(mask, name, x) && Exact(mask) && InBlock(mask, name, x, s, t)
    requires x.n < |name| && (x.m < |mask| ==> mask[x.m] != '*')
    ensures Step(mask, name, x).Some? && Promise(mask, name, Step(mask, name, x).value, s, t)
  {
    var b := BlockStart(mask, x.star.value);
    if x.m < |mask| && (mask[x.m] == '?' || mask[x.m] == name[x.n]) {
      assert FitsAt(mask, b, name, s, x.m - b);
    } else {
      MismatchSkipsNothing(mask, name, x, s, t);
      RunAbsorbs(mask, x.star.value, name, x.n - x.dec, t);
    }
  }

  lemma StepKeepsPromise(mask: string, name: string, x: Matcher, s: nat, t: nat) returns (s': nat, t': nat)
    requires Ok(mask, name, x) && Exact(mask) && Promise(mask, name, x, s, t) && x.n < |name|
    ensures Step(mask, name, x).Some? && Promise(mask, name, Step(mask, name, x).value, s', t')
  {
    s', t' := s, t;
    if x.m < |mask| && mask[x.m] == '*' {
      PromiseAtStar(mask, name, x, s, t);
      t' := TakeStarComplete(mask, name, x);
      s' := TakeStar(mask, name, x).n;
    } else if InBlock(mask, name, x, s, t) {
      PromiseInBlock(mask, name, x, s, t);
    }
  }

  /** On an exact mask the matcher finds whatever is left to find. */
  lemma {:induction false} FindsFrom(mask: string, name: string, x: Matcher, s: nat, t: nat)
    requires Ok(mask, name, x) && Exact(mask) && Promise(mask, name, x, s, t)
    ensures AcceptsFrom(mask, name, x)
    decreases StarsLeft(mask, x), |name| - Reach(x), x.n < |name|, Rank(mask, name, x)
  {
    if x.n == |name| {
      if InBlock(mask, name, x, s, t) {
        GlobOfBlock(mask, BlockStart(mask, x.star.value), name, t);
      }
      OnlyStarsIsGlob(mask, x.m, name);
    } else {
      StepDecreases(mask, name, x);
      var s', t' := StepKeepsPromise(mask, name, x, s, t);
      FindsFrom(mask, name, Step(mask, name, x).value, s', t');
    }
  }

  lemma ExactIsComplete(mask: string, name: string)
    requires Exact(CText(mask)) && Glob(CText(mask), 0, CText(name), 0)
    ensures Accepts(mask, name)
  {
    FindsFrom(CText(mask), CText(name), START, 0, 0);
  }

  // ----- a name that a mask with a clash misses -----

  function Instance(c: char): char {
    if IsLiteral(c) then c else 'a'
  }

  /** The shortest name the mask between m and to matches, with 'a' for every '?'. */
  function Spell(mask: string, m: nat, end: nat): (r: string)
    requires m <= end <= |mask|
    ensures NoNul(mask) ==> NoNul(r)
    decreases end - m
  {
    if m == end then ""
    else (if mask[m] == '*' then "" else [Instance(mask[m])]) + Spell(mask, m + 1, end)
  }

  /** The name has that spelling from n on, and then something that begins with what. */
  ghost predicate Spelled(mask: string, m: nat, end: nat, name: string, n: nat, what: char)
    requires m <= end <= |mask|
    decreases end - m
  {
    if m == end then n < |name| && name[n] == what
    else if mask[m] == '*' then Spelled(mask, m + 1, end, name, n, what)
    else n < |name| && name[n] == Instance(mask[m]) && Spelled(mask, m + 1, end, name, n + 1, what)
  }

  lemma {:induction false} SpellIsSpelled(mask: string, m: nat, end: nat, pre: string, post: string)
    requires m <= end <= |mask| && post != ""
    ensures Spelled(mask, m, end, pre + Spell(mask, m, end) + post, |pre|, post[0])
    decreases end - m
  {
    if m < end {
      var c := if mask[m] == '*' then "" else [Instance(mask[m])];
      SpellIsSpelled(mask, m + 1, end, pre + c, post);
      assert pre + c + Spell(mask, m + 1, end) + post == pre + Spell(mask, m, end) + post;
    }
  }

  lemma {:induction false} SpellSplits(mask: string, m: nat, k: nat, end: nat)
    requires m <= k <= end <= |mask|
    ensures Spell(mask, m, end) == Spell(mask, m, k) + Spell(mask, k, end)
    decreases k - m
  {
    SpellOfOne(mask, m, k);
    SpellOfOne(mask, m, end);
    hide Spell;
    if m < k {
      SpellSplits(mask, m + 1, k, end);
      Joined(if mask[m] == '*' then "" else [Instance(mask[m])], Spell(mask, m + 1, k), Spell(mask, k, end));
    } else {
      assert "" + Spell(mask, k, end) == Spell(mask, k, end);
    }
  }

  lemma Joined(a: string, b: string, c: string)
    ensures a + (b + c) == (a + b) + c
  {
  }

  lemma SpellOfOne(mask: string, m: nat, end: nat)
    requires m <= end <= |mask|
    ensures Spell(mask, m, end) ==
      if m == end then "" else (if mask[m] == '*' then "" else [Instance(mask[m])]) + Spell(mask, m + 1, end)
  {
  }

  lemma {:induction false} SpellOfRun(mask: string, m: nat)
    requires m <= |mask|
    ensures |Spell(mask, m, RunEnd(mask, m))| == Wild(mask, m)
    decreases |mask| - m
  {
    if m < |mask| && !IsLiteral(mask[m]) {
      SpellOfRun(mask, m + 1);
    }
  }

  lemma {:induction false} SpellOfBlock(mask: string, b: nat)
    requires b <= |mask|
    ensures |Spell(mask, b, BlockEnd(mask, b))| == BlockEnd(mask, b) - b
    decreases |mask| - b
  {
    if b < BlockEnd(mask, b) {
      SpellOfBlock(mask, b + 1);
    }
  }

  /** No name shorter than the spelling of the rest of the mask matches it. */
  lemma {:induction false} GlobNeedsLength(mask: string, m: nat, name: string, n: nat)
    requires m <= |mask| && n <= |name| && Glob(mask, m, name, n)
    ensures |Spell(mask, m, |mask|)| <= |name| - n
    decreases |mask| - m, |name| - n
  {
    if m < |mask| {
      if mask[m] == '*' {
        if Glob(mask, m + 1, name, n) {
          GlobNeedsLength(mask, m + 1, name, n);
        } else {
          GlobNeedsLength(mask, m, name, n + 1);
        }
      } else {
        GlobNeedsLength(mask, m + 1, name, n + 1);
      }
    }
  }

  lemma {:induction false} SpellMatches(mask: string, m: nat, name: string, n: nat)
    requires m <= |mask| && n <= |name| && name[n..] == Spell(mask, m, |mask|)
    ensures Glob(mask, m, name, n)
    decreases |mask| - m
  {
    if m < |mask| {
      if mask[m] == '*' {
        SpellMatches(mask, m + 1, name, n);
      } else {
        assert name[n..][0] == Instance(mask[m]) && name[n..][1..] == name[n + 1..];
        SpellMatches(mask, m + 1, name, n + 1);
      }
    }
  }

  /** A spelled front of the mask passes the match on to what follows it. */
  lemma {:induction false} SpelledPassesOn(mask: string, m: nat, end: nat, name: string, n: nat, what: char)
    requires m <= end <= |mask| && Spelled(mask, m, end, name, n, what) && n <= |name|
    requires n + |Spell(mask, m, end)| <= |name| && Glob(mask, end, name, n + |Spell(mask, m, end)|)
    ensures Glob(mask, m, name, n)
    decreases end - m
  {
    if m < end {
      SpelledPassesOn(mask, m + 1, end, name, if mask[m] == '*' then n else n + 1, what);
    }
  }

  // ----- the matcher goes straight through a spelled front -----

  lemma SpelledOfOne(mask: string, m: nat, end: nat, name: string, n: nat, what: char)
    requires m <= end <= |mask| && Spelled(mask, m, end, name, n, what)
    ensures n < |name| && if m == end then name[n] == what
      else if mask[m] == '*' then Spelled(mask, m + 1, end, name, n, what)
      else name[n] == Instance(mask[m]) && Spelled(mask, m + 1, end, name, n + 1, what)
    decreases end - m
  {
    if m < end && mask[m] == '*' { SpelledOfOne(mask, m + 1, end, name, n, what); }
  }

  lemma {:induction false} SpelledReaches(mask: string, m: nat, end: nat, name: string, n: nat, what: char)
    requires m <= end <= |mask| && Spelled(mask, m, end, name, n, what)
    ensures n + |Spell(mask, m, end)| < |name| && name[n + |Spell(mask, m, end)|] == what
    decreases end - m
  {
    SpellOfOne(mask, m, end);
    SpelledOfOne(mask, m, end, name, n, what);
    hide Spell, Spelled;
    if m < end {
      SpelledReaches(mask, m + 1, end, name, if mask[m] == '*' then n else n + 1, what);
    }
  }

  lemma {:induction false} SpelledSkips(mask: string, m: nat, k: nat, end: nat, name: string, n: nat, what: char)
    requires m <= k <= end <= |mask| && Spelled(mask, m, end, name, n, what)
    ensures Spelled(mask, k, end, name, n + |Spell(mask, m, k)|, what)
    decreases k - m
  {
    if m < k {
      SpelledSkips(mask, m + 1, k, end, name, if mask[m] == '*' then n else n + 1, what);
    }
  }

  lemma {:induction false} TakeRunStraight(mask: string, name: string, x: Matcher, end: nat, what: char)
    requires x.m <= |mask| && x.n < |name| && NoNul(mask) && NoNul(name)
    requires RunEnd(mask, x.m) <= end <= |mask| && Spelled(mask, x.m, end, name, x.n, what)
    ensures TakeRun(mask, name, x) ==
      x.(m := RunEnd(mask, x.m), n := x.n + Wild(mask, x.m), dec := x.dec + Wild(mask, x.m))
    decreases |mask| - x.m
  {
    hide TakeRun, NoNul;
    TakeRunOfOne(mask, name, x);
    if x.m < |mask| && !IsLiteral(mask[x.m]) {
      var y := RunStep(mask, x);
      SpelledReaches(mask, y.m, end, name, y.n, what);
      hide Spelled;
      TakeRunStraight(mask, name, y, end, what);
    }
  }

  lemma {:induction false} RunEndInside(mask: string, m: nat, k: nat)
    requires m <= |mask| && m <= k <= RunEnd(mask, m)
    ensures RunEnd(mask, k) == RunEnd(mask, m)
    decreases k - m
  {
    if m < k {
      RunEndInside(mask, m + 1, k);
    }
  }

  lemma StarIsSpelled(mask: string, st: nat, end: nat, name: string, n: nat, what: char)
    requires st < |mask| && mask[st] == '*' && BlockStart(mask, st) <= end <= |mask|
    requires Spelled(mask, st, end, name, n, what)
    ensures BlockStart(mask, st) == RunEnd(mask, st + 1) && Spelled(mask, st + 1, end, name, n, what)
    ensures BlockStart(mask, st) < |mask| ==> IsLiteral(mask[BlockStart(mask, st)])
    ensures |Spell(mask, st, BlockStart(mask, st))| == |Spell(mask, st + 1, BlockStart(mask, st))| == Wild(mask, st + 1)
  {
    SpellOfRun(mask, st + 1);
  }

  lemma TakeStarRuns(mask: string, name: string, x: Matcher, end: nat, b: nat, w: nat)
    requires x.m < |mask| && x.n < |name| && NoNul(mask) && NoNul(name)
    requires b == RunEnd(mask, x.m + 1) <= end < |mask| && w == Wild(mask, x.m + 1)
    requires Spelled(mask, x.m + 1, end, name, x.n, mask[end])
    ensures TakeRun(mask, name, Matcher(x.m + 1, x.n, Some(x.m), 0)) == Matcher(b, x.n + w, Some(x.m), w)
  {
    hide *;
    TakeRunStraight(mask, name, Matcher(x.m + 1, x.n, Some(x.m), 0), end, mask[end]);
  }

  lemma TakeStarStraight(mask: string, name: string, x: Matcher, end: nat)
    requires x.m < |mask| && mask[x.m] == '*' && x.n < |name| && NoNul(mask) && NoNul(name)
    requires BlockStart(mask, x.m) <= end < |mask| && IsLiteral(mask[end])
    requires Spelled(mask, x.m, end, name, x.n, mask[end])
    ensures TakeStar(mask, name, x) ==
      Matcher(BlockStart(mask, x.m), x.n + Wild(mask, x.m + 1), Some(x.m), Wild(mask, x.m + 1))
    ensures Spelled(mask, BlockStart(mask, x.m), end, name, x.n + Wild(mask, x.m + 1), mask[end])
    ensures Wild(mask, x.m + 1) == |Spell(mask, x.m, BlockStart(mask, x.m))|
  {
    hide *;
    var b, w := BlockStart(mask, x.m), Wild(mask, x.m + 1);
    StarIsSpelled(mask, x.m, end, name, x.n, mask[end]);
    TakeStarRuns(mask, name, x, end, b, w);
    SpelledSkips(mask, x.m + 1, b, end, name, x.n, mask[end]);
    SpelledHere(mask, b, end, name, x.n + w);
    TakeStarStays(mask, name, x, Matcher(b, x.n + w, Some(x.m), w));
  }

  lemma SpelledHere(mask: string, b: nat, end: nat, name: string, n: nat)
    requires b <= end < |mask| && IsLiteral(mask[b]) && Spelled(mask, b, end, name, n, mask[end])
    ensures n < |name| && name[n] == mask[b]
  {
  }

  /** After the run the scan stays where the name goes on as the mask does. */
  lemma TakeStarStays(mask: string, name: string, x: Matcher, r: Matcher)
    requires x.m < |mask| && x.n < |name| && NoNul(mask) && NoNul(name)
    requires r == TakeRun(mask, name, Matcher(x.m + 1, x.n, Some(x.m), 0))
    requires r.m < |mask| && r.n < |name| && name[r.n] == mask[r.m]
    ensures TakeStar(mask, name, x) == r
  {
    hide TakeRun;
  }

  lemma OkIs(mask: string, name: string, x: Matcher)
    requires Ok(mask, name, x)
    ensures NoNul(mask) && NoNul(name)
  {
  }

  lemma StepOfStar(mask: string, name: string, x: Matcher)
    requires Ok(mask, name, x) && x.m < |mask| && mask[x.m] == '*' && x.n < |name|
    ensures NoNul(mask) && NoNul(name) && Step(mask, name, x) == Some(TakeStar(mask, name, x))
  {
    hide TakeStar;
  }

  /** And past any other character it goes one by one. */
  lemma GoesOverOne(mask: string, name: string, x: Matcher)
    requires Ok(mask, name, x) && x.m < |mask| && mask[x.m] != '*' && x.n < |name| && name[x.n] == Instance(mask[x.m])
    ensures var y := x.(m := x.m + 1, n := x.n + 1);
      Ok(mask, name, y) && AcceptsFrom(mask, name, x) == AcceptsFrom(mask, name, y)
  {
    hide TakeStar, AcceptsFrom, Wild;
    assert Step(mask, name, x) == Some(x.(m := x.m + 1, n := x.n + 1));
    AcceptsStep(mask, name, x, x.(m := x.m + 1, n := x.n + 1));
  }

  /** The matcher takes a star and its run where the name is spelled like the mask. */
  lemma GoesOverStar(mask: string, name: string, x: Matcher, end: nat)
    requires Ok(mask, name, x) && x.m < |mask| && mask[x.m] == '*' && x.n < |name|
    requires BlockStart(mask, x.m) <= end < |mask| && IsLiteral(mask[end])
    requires Spelled(mask, x.m, end, name, x.n, mask[end])
    ensures var b := BlockStart(mask, x.m);
      var y := Matcher(b, x.n + |Spell(mask, x.m, b)|, Some(x.m), Wild(mask, x.m + 1));
      && Ok(mask, name, y) && AcceptsFrom(mask, name, x) == AcceptsFrom(mask, name, y)
      && Spelled(mask, b, end, name, y.n, mask[end])
  {
    hide *;
    OkIs(mask, name, x);
    TakeStarStraight(mask, name, x, end);
    StepOfStar(mask, name, x);
    AcceptsStep(mask, name, x, TakeStar(mask, name, x));
  }

  lemma StarsShareBlock(mask: string, m: nat, st: nat)
    requires m <= st < |mask| && mask[m] == '*' && mask[st] == '*'
    ensures BlockStart(mask, m) <= BlockStart(mask, st)
    ensures st < BlockStart(mask, m) ==> BlockStart(mask, m) == BlockStart(mask, st)
    ensures BlockStart(mask, st) < |mask| ==> IsLiteral(mask[BlockStart(mask, st)])
  {
    if st < BlockStart(mask, m) { RunEndInside(mask, m + 1, st + 1); }
  }

  lemma {:induction false} GoesStraight(mask: string, name: string, x: Matcher, st: nat) returns (y: Matcher)
    requires Ok(mask, name, x) && x.m <= st < |mask| && mask[st] == '*' && BlockStart(mask, st) < |mask|
    requires Spelled(mask, x.m, BlockStart(mask, st), name, x.n, mask[BlockStart(mask, st)])
    ensures Ok(mask, name, y) && AcceptsFrom(mask, name, x) == AcceptsFrom(mask, name, y)
    ensures y.m == BlockStart(mask, st) && y.n == x.n + |Spell(mask, x.m, y.m)| < |name|
    ensures y.star.Some? && BlockStart(mask, y.star.value) == y.m
    decreases |mask| - x.m
  {
    hide *;
    var b := BlockStart(mask, st);
    SpelledReaches(mask, x.m, b, name, x.n, mask[b]);
    SpelledOfOne(mask, x.m, b, name, x.n, mask[b]);
    if mask[x.m] == '*' {
      var b' := BlockStart(mask, x.m);
      StarsShareBlock(mask, x.m, st);
      GoesOverStar(mask, name, x, b);
      y := Matcher(b', x.n + |Spell(mask, x.m, b')|, Some(x.m), Wild(mask, x.m + 1));
      SpellSplits(mask, x.m, b', b);
      if b' <= st {
        y := GoesStraight(mask, name, y, st);
      }
    } else {
      GoesOverOne(mask, name, x);
      SpellOfOne(mask, x.m, b);
      y := GoesStraight(mask, name, x.(m := x.m + 1, n := x.n + 1), st);
    }
  }

  lemma AcceptsStep(mask: string, name: string, x: Matcher, y: Matcher)
    requires Ok(mask, name, x) && x.n < |name| && Step(mask, name, x) == Some(y)
    ensures Ok(mask, name, y) && AcceptsFrom(mask, name, x) == AcceptsFrom(mask, name, y)
  {
    StepDecreases(mask, name, x);
    hide Step, OnlyStars, StarsLeft, Reach, Rank;
  }

  lemma {:induction false} MatchesBlock(mask: string, name: string, x: Matcher, j: nat)
    requires Ok(mask, name, x) && x.star.Some? && x.star.value < x.m && x.m + j <= BlockEnd(mask, x.m)
    requires Fits(mask, x.m, name, x.n, j) && x.n < |name|
    ensures Ok(mask, name, x.(m := x.m + j, n := x.n + j))
    ensures AcceptsFrom(mask, name, x) == AcceptsFrom(mask, name, x.(m := x.m + j, n := x.n + j))
    decreases j
  {
    hide TakeStar, OnlyStars, Wild, RunEnd, StarsLeft, Reach, Rank, AcceptsFrom, BlockEnd;
    if j > 0 {
      assert FitsAt(mask, x.m, name, x.n, j - 1);
      MatchesBlock(mask, name, x, j - 1);
      var y := x.(m := x.m + (j - 1), n := x.n + (j - 1));
      assert Step(mask, name, y) == Some(x.(m := x.m + j, n := x.n + j));
      AcceptsStep(mask, name, y, x.(m := x.m + j, n := x.n + j));
    }
  }

  // ----- the name itself -----

  /** Characters that suit the block j characters far at distance 0, then fail it, and suit all of
      it at distance k. */
  function DecoyChar(mask: string, b: nat, j: nat, k: nat, i: nat): char
    requires b <= |mask| && Clash(mask, b, j, k) && i < k + (BlockEnd(mask, b) - b)
  {
    if i < j && mask[b + i] != '?' then mask[b + i]
    else if i < k then 'a'
    else if i == j && j < BlockEnd(mask, b) - b && mask[b + j - k] == '?' then (if mask[b + j] == 'a' then 'b' else 'a')
    else Instance(mask[b + i - k])
  }

  function Decoy(mask: string, b: nat, j: nat, k: nat): string
    requires b <= |mask| && Clash(mask, b, j, k)
  {
    seq(k + (BlockEnd(mask, b) - b), i requires 0 <= i < k + (BlockEnd(mask, b) - b) => DecoyChar(mask, b, j, k, i))
  }

  function MissedName(mask: string, b: nat, j: nat, k: nat): (name: string)
    requires b <= |mask| && Clash(mask, b, j, k)
  {
    Spell(mask, 0, b) + Decoy(mask, b, j, k) + Spell(mask, BlockEnd(mask, b), |mask|)
  }

  lemma DecoyFits(mask: string, b: nat, j: nat, k: nat)
    requires b <= |mask| && Clash(mask, b, j, k)
    ensures var name, s, e := MissedName(mask, b, j, k), |Spell(mask, 0, b)|, BlockEnd(mask, b);
      && Fits(mask, b, name, s, j)
      && Fits(mask, b, name, s + k, e - b)
      && (j < e - b ==> name[s + j] != mask[b + j])
  {
    var name, s, e := MissedName(mask, b, j, k), |Spell(mask, 0, b)|, BlockEnd(mask, b);
    var t := s + k;
    hide Spell, BlockEnd, MissedName;
    DecoyInside(mask, b, j, k);
    forall i: nat | i < j ensures FitsAt(mask, b, name, s, i) {
      assert name[s + i] == DecoyChar(mask, b, j, k, i);
    }
    forall i: nat | i < e - b ensures FitsAt(mask, b, name, t, i) {
      assert name[t + i] == DecoyChar(mask, b, j, k, k + i);
      assert k + i < j ==> LiesOver(mask, b, k, i);
    }
    assert j < e - b ==> name[s + j] == DecoyChar(mask, b, j, k, j);
  }

  lemma DecoyInside(mask: string, b: nat, j: nat, k: nat)
    requires b <= |mask| && Clash(mask, b, j, k)
    ensures var name, s, len := MissedName(mask, b, j, k), |Spell(mask, 0, b)|, k + (BlockEnd(mask, b) - b);
      s + len <= |name| && forall p | s <= p < s + len :: name[p] == DecoyChar(mask, b, j, k, p - s)
  {
    hide Spell, BlockEnd, DecoyChar, Clash;
    var name, s, len := MissedName(mask, b, j, k), |Spell(mask, 0, b)|, k + (BlockEnd(mask, b) - b);
    forall p | s <= p < s + len ensures name[p] == DecoyChar(mask, b, j, k, p - s) {
      assert name[p] == Decoy(mask, b, j, k)[p - s];
    }
  }

  lemma DecoyMatches(mask: string, b: nat, j: nat, k: nat)
    requires b <= |mask| && Clash(mask, b, j, k)
    ensures var name, s := MissedName(mask, b, j, k), |Spell(mask, 0, b)|;
      s + k <= |name| && Glob(mask, b, name, s + k)
  {
    var name, s, e := MissedName(mask, b, j, k), |Spell(mask, 0, b)|, BlockEnd(mask, b);
    DecoyFits(mask, b, j, k);
    assert name[s + k + (e - b)..] == Spell(mask, e, |mask|);
    SpellMatches(mask, e, name, s + k + (e - b));
    GlobOfBlock(mask, b, name, s + k);
  }

  lemma MissedNameSpelled(mask: string, b: nat, m: nat, j: nat, k: nat)
    requires m <= b <= |mask| && Clash(mask, b, j, k)
    ensures var post := Spell(mask, m, b) + Decoy(mask, b, j, k) + Spell(mask, BlockEnd(mask, b), |mask|);
      post != "" && Spelled(mask, 0, m, MissedName(mask, b, j, k), 0, post[0])
  {
    var decoy, end := Decoy(mask, b, j, k), Spell(mask, BlockEnd(mask, b), |mask|);
    var post := Spell(mask, m, b) + decoy + end;
    assert decoy != "" && MissedName(mask, b, j, k) == Spell(mask, 0, b) + decoy + end;
    hide *;
    SpellSplits(mask, 0, m, b);
    SpellIsSpelled(mask, 0, m, "", post);
    Regrouped(Spell(mask, 0, m), Spell(mask, m, b), decoy, end);
  }

  lemma Regrouped(a: string, b: string, c: string, d: string)
    ensures "" + a + (b + c + d) == (a + b) + c + d
  {
  }

  /** How long the spelling is up to a star, and from there to its block. */
  lemma StarSpell(mask: string, st: nat)
    requires st < |mask| && mask[st] == '*'
    ensures BlockStart(mask, st) == RunEnd(mask, st + 1)
    ensures |Spell(mask, 0, BlockStart(mask, st))| == |Spell(mask, 0, st)| + Wild(mask, st + 1)
  {
    SpellSplits(mask, 0, st, BlockStart(mask, st));
    SpellOfRun(mask, st + 1);
  }

  lemma MissedNameMatches(mask: string, st: nat, j: nat, k: nat)
    requires st < |mask| && mask[st] == '*' && BlockStart(mask, st) < |mask| && Clash(mask, BlockStart(mask, st), j, k)
    ensures Glob(mask, 0, MissedName(mask, BlockStart(mask, st), j, k), 0)
  {
    hide *;
    var b := BlockStart(mask, st);
    var name, s := MissedName(mask, b, j, k), |Spell(mask, 0, b)|;
    var post := Spell(mask, st, b) + Decoy(mask, b, j, k) + Spell(mask, BlockEnd(mask, b), |mask|);
    DecoyMatches(mask, b, j, k);
    MissedNameSpelled(mask, b, st, j, k);
    StarSpell(mask, st);
    RunAbsorbs(mask, st, name, |Spell(mask, 0, st)|, s + k);
    SpelledPassesOn(mask, 0, st, name, 0, post[0]);
  }

  /** A name that fails the block j characters far, and that is too short for a later attempt. */
  ghost predicate FailsBlock(mask: string, b: nat, name: string, s: nat, j: nat, k: nat)
    requires b <= |mask|
  {
    var e := BlockEnd(mask, b);
    && 0 < k < j <= e - b && Fits(mask, b, name, s, j)
    && |name| == s + k + (e - b) + |Spell(mask, e, |mask|)|
    && (if j < e - b then mask[b + j] != '?' && mask[b + j] != name[s + j] else e == |mask|)
  }

  lemma FailsInBlock(mask: string, name: string, x: Matcher, j: nat, k: nat)
    requires Ok(mask, name, x) && x.star.Some? && x.m == BlockStart(mask, x.star.value) && x.n < |name|
    requires FailsBlock(mask, x.m, name, x.n, j, k)
    ensures !AcceptsFrom(mask, name, x)
  {
    hide AcceptsFrom, Step, Spell, Wild, RunEnd, FitsAt;
    MatchesBlock(mask, name, x, j);
    FailsAfter(mask, name, x.(m := x.m + j, n := x.n + j), x.m, k);
  }

  lemma DecoyHasNoNul(mask: string, b: nat, j: nat, k: nat)
    requires b <= |mask| && Clash(mask, b, j, k) && NoNul(mask)
    ensures NoNul(MissedName(mask, b, j, k))
  {
    assert NoNul(Decoy(mask, b, j, k));
  }

  lemma MissedNameFails(mask: string, b: nat, j: nat, k: nat)
    requires b < |mask| && IsLiteral(mask[b]) && Clash(mask, b, j, k)
    ensures FailsBlock(mask, b, MissedName(mask, b, j, k), |Spell(mask, 0, b)|, j, k)
    ensures Spelled(mask, 0, b, MissedName(mask, b, j, k), 0, mask[b])
  {
    DecoyFits(mask, b, j, k);
    MissedNameSpelled(mask, b, b, j, k);
    assert Spell(mask, b, b) + Decoy(mask, b, j, k) == Decoy(mask, b, j, k);
    assert Decoy(mask, b, j, k)[0] == DecoyChar(mask, b, j, k, 0) == mask[b];
  }

  lemma MissedNameIsMissed(mask: string, st: nat, j: nat, k: nat)
    requires st < |mask| && mask[st] == '*' && BlockStart(mask, st) < |mask| && Clash(mask, BlockStart(mask, st), j, k)
    requires NoNul(mask)
    ensures NoNul(MissedName(mask, BlockStart(mask, st), j, k))
    ensures !AcceptsFrom(mask, MissedName(mask, BlockStart(mask, st), j, k), START)
  {
    hide MissedName, Clash, Spell, Spelled, AcceptsFrom, FailsBlock, BlockEnd, RunEnd;
    DecoyHasNoNul(mask, BlockStart(mask, st), j, k);
    MissedNameFails(mask, BlockStart(mask, st), j, k);
    var y := GoesStraight(mask, MissedName(mask, BlockStart(mask, st), j, k), START, st);
    FailsInBlock(mask, MissedName(mask, BlockStart(mask, st), j, k), y, j, k);
  }

  /** At a mismatch j characters into the block, too little of the name is left. */
  lemma FailsAfter(mask: string, name: string, x: Matcher, b: nat, k: nat)
    requires Ok(mask, name, x) && x.star.Some? && b == BlockStart(mask, x.star.value) < x.m <= BlockEnd(mask, b)
    requires k < x.m - b
    requires |name| == x.n - (x.m - b) + k + (BlockEnd(mask, b) - b) + |Spell(mask, BlockEnd(mask, b), |mask|)|
    requires x.n < |name|
    requires (if x.m < BlockEnd(mask, b) then mask[x.m] != '?' && mask[x.m] != name[x.n] else x.m == |mask|)
    ensures !AcceptsFrom(mask, name, x)
  {
    StepsBack(mask, name, x);
    hide *;
    BackIsTooFar(mask, name, x, b, k);
  }

  lemma BackIsTooFar(mask: string, name: string, x: Matcher, b: nat, k: nat)
    requires x.star.Some? && x.star.value < |mask| && mask[x.star.value] == '*' && x.dec <= x.n <= |name|
    requires b == BlockStart(mask, x.star.value) < x.m <= BlockEnd(mask, b) && x.dec == Wild(mask, x.star.value + 1)
    requires k < x.m - b
    requires |name| == x.n - (x.m - b) + k + (BlockEnd(mask, b) - b) + |Spell(mask, BlockEnd(mask, b), |mask|)|
    requires Ok(mask, name, x.(m := x.star.value, n := x.n - x.dec))
    ensures !AcceptsFrom(mask, name, x.(m := x.star.value, n := x.n - x.dec))
  {
    hide *;
    var st := x.star.value;
    var y := x.(m := st, n := x.n - x.dec);
    SpellFromStar(mask, st);
    if AcceptsFrom(mask, name, y) {
      AcceptsFromSound(mask, name, y, y.n);
      GlobNeedsLength(mask, st, name, y.n);
    }
  }

  lemma StepsBack(mask: string, name: string, x: Matcher)
    requires Ok(mask, name, x) && x.star.Some? && x.n < |name| && x.star.value < x.m
    requires x.m < |mask| ==> IsLiteral(mask[x.m]) && mask[x.m] != name[x.n]
    ensures var y := x.(m := x.star.value, n := x.n - x.dec);
      Ok(mask, name, y) && AcceptsFrom(mask, name, x) == AcceptsFrom(mask, name, y)
        && x.dec == Wild(mask, x.star.value + 1)
  {
    hide TakeStar, OnlyStars, AcceptsFrom, Wild;
    assert Step(mask, name, x) == Some(x.(m := x.star.value, n := x.n - x.dec));
    AcceptsStep(mask, name, x, x.(m := x.star.value, n := x.n - x.dec));
  }

  lemma SpellFromStar(mask: string, st: nat)
    requires st < |mask| && mask[st] == '*'
    ensures var b := BlockStart(mask, st); var e := BlockEnd(mask, b);
      |Spell(mask, st, |mask|)| == Wild(mask, st + 1) + (e - b) + |Spell(mask, e, |mask|)|
  {
    var b := BlockStart(mask, st);
    var e := BlockEnd(mask, b);
    SpellSplits(mask, st, b, |mask|);
    SpellSplits(mask, b, e, |mask|);
    SpellOfRun(mask, st + 1);
    SpellOfBlock(mask, b);
  }

  /** MatchesMask decides a mask exactly when no block of the mask can hide an occurrence of
      itself. */
  lemma CompleteIffExact(mask: string)
    ensures Exact(CText(mask)) <==>
      forall name :: Accepts(mask, name) <==> Glob(CText(mask), 0, CText(name), 0)
  {
    var text := CText(mask);
    if Exact(text) {
      forall name ensures Accepts(mask, name) <==> Glob(text, 0, CText(name), 0) {
        if Accepts(mask, name) { Sound(mask, name); }
        if Glob(text, 0, CText(name), 0) { ExactIsComplete(mask, name); }
      }
    } else {
      var st, j, k :| 0 <= st < |text| && text[st] == '*' && 0 <= j <= |text| && 0 <= k <= |text| &&
        Clash(text, BlockStart(text, st), j, k);
      var name := MissedName(text, BlockStart(text, st), j, k);
      MissedNameMatches(text, st, j, k);
      MissedNameIsMissed(text, st, j, k);
      assert CText(name) == name;
      assert !Accepts(mask, name);
    }
  }

  /** The mask "*aab" misses "aaab": the second occurrence begins inside the failed first one. */
  lemma MissedExample()
    ensures !Exact("*aab") && Glob(CText("*aab"), 0, CText("aaab"), 0) && !Accepts("*aab", "aaab")
  {
    var mask := "*aab";
    assert BlockEnd(mask, 4) == 4 && BlockEnd(mask, 3) == 4 && BlockEnd(mask, 2) == 4 && BlockEnd(mask, 1) == 4;
    assert BlockStart(mask, 0) == 1;
    assert LiesOver(mask, 1, 1, 0);
    assert Clash(mask, BlockStart(mask, 0), 2, 1);
    assert CText(mask) == mask && CText("aaab") == "aaab";
    assert !Exact(mask);
    MissedNameMatches(mask, 0, 2, 1);
    MissedNameIsMissed(mask, 0, 2, 1);
    MissedIs();
  }

  lemma MissedIs()
    requires Clash("*aab", 1, 2, 1) && BlockEnd("*aab", 1) == 4
    ensures MissedName("*aab", 1, 2, 1) == "aaab"
  {
    assert Spell("*aab", 0, 1) == "" && Spell("*aab", 4, 4) == "";
    assert Decoy("*aab", 1, 2, 1) == "aaab";
  }
}
