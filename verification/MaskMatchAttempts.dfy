/** Which names MatchesMask accepts, for every mask: it tries each block after a star at the first
    place its first character is found, and after a mismatch goes on from there. */
module MaskMatchAttempts {
  import opened Wrappers
  import opened MaskMatch
  import opened MaskMatchProofs

  /** The first place of a character, from p on; |name| if there is none. */
  function FirstAt(name: string, c: char, p: nat): (s: nat)
    requires p <= |name|
    ensures p <= s <= |name| && (s < |name| ==> name[s] == c)
    ensures forall i | p <= i < s :: name[i] != c
    decreases |name| - p
  {
    if p == |name| || name[p] == c then p else FirstAt(name, c, p + 1)
  }

  /** How far the block at b suits the name at s. */
  function FitLength(mask: string, b: nat, name: string, s: nat): (j: nat)
    requires b <= |mask| && s <= |name|
    ensures b + j <= BlockEnd(mask, b) && s + j <= |name| && Fits(mask, b, name, s, j)
    ensures b + j < BlockEnd(mask, b) ==> !FitsAt(mask, b, name, s, j)
    decreases |mask| - b
  {
    if b < BlockEnd(mask, b) && FitsAt(mask, b, name, s, 0) then
      var j := FitLength(mask, b + 1, name, s + 1);
      FitsStep(mask, b, name, s, j);
      j + 1
    else 0
  }

  /** The attempts on the block at b, from p on. The block is tried where its first character is next
      found. If it does not suit the name there, or is the last one and the name goes on, the next
      attempt starts at the character that did not suit: an occurrence that overlaps the attempt is
      not tried. The first attempt that succeeds is kept. */
  predicate Finds(mask: string, b: nat, name: string, p: nat)
    requires b <= |mask| && p <= |name| && (b < |mask| ==> IsLiteral(mask[b]))
    decreases |mask| - b, |name| - p
  {
    b == |mask| ||
    var s := FirstAt(name, mask[b], p);
    s < |name| &&
    var j := FitLength(mask, b, name, s);
    var e := BlockEnd(mask, b);
    if b + j < e || (e == |mask| && s + j < |name|) then s + j < |name| && Finds(mask, b, name, s + j)
    else e == |mask| || FindsAfter(mask, e, name, s + j)
  }

  /** A star, and every '?' of the run after it takes a character before the attempts begin. */
  predicate FindsAfter(mask: string, st: nat, name: string, n: nat)
    requires st < |mask| && mask[st] == '*' && n <= |name|
    decreases |mask| - st, |name| - n + 1
  {
    n + Wild(mask, st + 1) <= |name| && Finds(mask, BlockStart(mask, st), name, n + Wild(mask, st + 1))
  }

  /** What is before the first star stands at the name's start. */
  predicate FindsAll(mask: string, name: string) {
    var e := BlockEnd(mask, 0);
    && Fits(mask, 0, name, 0, e)
    && if e == |mask| then |name| == e else FindsAfter(mask, e, name, e)
  }

  lemma {:induction false} OnlyStarsMeans(mask: string, m: nat)
    requires m <= |mask|
    ensures OnlyStars(mask, m) <==> Wild(mask, m) == 0 && RunEnd(mask, m) == |mask|
    decreases |mask| - m
  {
    if m < |mask| {
      OnlyStarsMeans(mask, m + 1);
    }
  }

  /** The run is taken whole, unless the name ends in it. */
  lemma {:induction false} TakeRunIs(mask: string, name: string, x: Matcher)
    requires x.m <= |mask| && x.n < |name| && NoNul(mask) && NoNul(name)
    ensures var w := Wild(mask, x.m); var r := TakeRun(mask, name, x);
      if x.n + w < |name| then r == x.(m := RunEnd(mask, x.m), n := x.n + w, dec := x.dec + w)
      else r.n == |name| && (OnlyStars(mask, r.m) <==> x.n + w == |name| && RunEnd(mask, x.m) == |mask|)
    decreases |mask| - x.m
  {
    TakeRunOfOne(mask, name, x);
    if x.m < |mask| && !IsLiteral(mask[x.m]) {
      var y := RunStep(mask, x);
      if y.n < |name| {
        TakeRunIs(mask, name, y);
      } else {
        OnlyStarsMeans(mask, y.m);
      }
    }
  }

  lemma {:induction false} ScanIs(mask: string, name: string, x: Matcher)
    requires x.m <= |mask| && x.n <= |name| && NoNul(mask) && NoNul(name)
    ensures x.m == |mask| ==> Scan(mask, name, x) == x.(n := |name|)
    ensures x.m < |mask| ==> Scan(mask, name, x) == x.(n := FirstAt(name, mask[x.m], x.n))
    decreases |name| - x.n
  {
    if x.n < |name| {
      assert name[x.n] != '\0' && (x.m < |mask| ==> mask[x.m] != '\0');
      ScanIs(mask, name, x.(n := x.n + 1));
    }
  }

  /** Where taking a star leads. */
  lemma TakeStarIs(mask: string, name: string, x: Matcher)
    requires x.m < |mask| && mask[x.m] == '*' && x.n < |name| && NoNul(mask) && NoNul(name)
    ensures var w := Wild(mask, x.m + 1); var b := BlockStart(mask, x.m); var y := TakeStar(mask, name, x);
      && (x.n + w < |name| && b < |mask| ==> y == Matcher(b, FirstAt(name, mask[b], x.n + w), Some(x.m), w))
      && (x.n + w < |name| && b == |mask| ==> y.n == |name| && y.m == |mask|)
      && (x.n + w >= |name| ==> y.n == |name| && (OnlyStars(mask, y.m) <==> x.n + w == |name| && b == |mask|))
  {
    var entered := Matcher(x.m + 1, x.n, Some(x.m), 0);
    var taken := TakeRun(mask, name, entered);
    assert TakeStar(mask, name, x) == Scan(mask, name, taken) && BlockStart(mask, x.m) == RunEnd(mask, x.m + 1);
    hide *;
    TakeRunIs(mask, name, entered);
    ScanIs(mask, name, taken);
    if taken.n == |name| { NothingToScan(mask, name, taken); }
  }

  lemma NothingToScan(mask: string, name: string, x: Matcher)
    requires x.m <= |mask| && x.n == |name| && NoNul(mask) && NoNul(name)
    ensures Scan(mask, name, x) == x
  {
  }

  lemma EndOfName(mask: string, name: string, x: Matcher)
    requires Ok(mask, name, x) && x.n == |name|
    ensures AcceptsFrom(mask, name, x) <==> OnlyStars(mask, x.m)
  {
  }

  lemma NothingFound(mask: string, st: nat, name: string)
    requires st < |mask| && mask[st] == '*'
    ensures FindsAfter(mask, st, name, |name|) <==> OnlyStars(mask, st)
    ensures Finds(mask, BlockStart(mask, st), name, |name|) <==> BlockStart(mask, st) == |mask|
  {
    OnlyStarsMeans(mask, st + 1);
  }

  /** From a star, the matcher makes just these attempts. */
  lemma {:induction false} StarFinds(mask: string, name: string, x: Matcher)
    requires Ok(mask, name, x) && x.m < |mask| && mask[x.m] == '*'
    ensures AcceptsFrom(mask, name, x) <==> FindsAfter(mask, x.m, name, x.n)
    decreases |mask| - x.m, |name| - x.n, 1
  {
    OkIs(mask, name, x);
    NothingFound(mask, x.m, name);
    if x.n == |name| {
      EndOfName(mask, name, x);
    } else {
      var w, b := Wild(mask, x.m + 1), BlockStart(mask, x.m);
      var y := TakeStar(mask, name, x);
      StepOfStar(mask, name, x);
      AcceptsStep(mask, name, x, y);
      TakeStarIs(mask, name, x);
      if y.n == |name| {
        EndOfName(mask, name, y);
      } else {
        AttemptFinds(mask, name, x, y);
      }
    }
  }

  lemma AttemptComesTo(mask: string, b: nat, name: string, p: nat)
    requires b < |mask| && p <= |name| && IsLiteral(mask[b]) && FirstAt(name, mask[b], p) < |name|
    ensures var s := FirstAt(name, mask[b], p); var j, e := FitLength(mask, b, name, s), BlockEnd(mask, b);
      Finds(mask, b, name, p) <==>
        if b + j < e || (e == |mask| && s + j < |name|) then s + j < |name| && Finds(mask, b, name, s + j)
        else e == |mask| || FindsAfter(mask, e, name, s + j)
  {
  }

  /** The state after as many characters as suit the name. */
  lemma NothingFits(mask: string, name: string, y: Matcher, z: Matcher)
    requires y.m < |mask| && y.n < |name|
    requires var j := FitLength(mask, y.m, name, y.n); z == y.(m := y.m + j, n := y.n + j)
    ensures z.m <= BlockEnd(mask, y.m) <= |mask| && z.n <= |name|
    ensures z.m < BlockEnd(mask, y.m) ==> mask[z.m] != '*'
    ensures z.m < BlockEnd(mask, y.m) && z.n < |name| ==> IsLiteral(mask[z.m]) && mask[z.m] != name[z.n]
    ensures z.m < BlockEnd(mask, y.m) ==> !OnlyStars(mask, z.m)
    ensures z.m == |mask| ==> OnlyStars(mask, z.m)
    ensures z.m == BlockEnd(mask, y.m) < |mask| ==> mask[z.m] == '*'
  {
  }

  lemma FindsAfterIs(mask: string, st: nat, name: string, n: nat, p: nat)
    requires st < |mask| && mask[st] == '*' && n + Wild(mask, st + 1) == p <= |name|
    ensures FindsAfter(mask, st, name, n) <==> Finds(mask, BlockStart(mask, st), name, p)
    ensures BlockStart(mask, st) < |mask| ==> IsLiteral(mask[BlockStart(mask, st)])
    ensures st < BlockStart(mask, st)
  {
  }

  lemma FitsSome(mask: string, b: nat, name: string, s: nat)
    requires b < |mask| && s < |name| && IsLiteral(mask[b]) && name[s] == mask[b]
    ensures FitLength(mask, b, name, s) > 0
  {
    assert FitsAt(mask, b, name, s, 0);
  }

  /** One attempt, and what comes of it. */
  lemma {:induction false} AttemptFinds(mask: string, name: string, x: Matcher, y: Matcher)
    requires Ok(mask, name, x) && x.m < |mask| && mask[x.m] == '*' && x.n < |name|
    requires Ok(mask, name, y) && y.n < |name| && BlockStart(mask, x.m) < |mask|
    requires x.n + Wild(mask, x.m + 1) < |name|
    requires var b := BlockStart(mask, x.m); var w := Wild(mask, x.m + 1);
      y == Matcher(b, FirstAt(name, mask[b], x.n + w), Some(x.m), w)
    ensures AcceptsFrom(mask, name, y) <==> FindsAfter(mask, x.m, name, x.n)
    decreases |mask| - x.m, |name| - x.n, 0
  {
    hide *;
    var b, s, w := y.m, y.n, y.dec;
    FindsAfterIs(mask, x.m, name, x.n, x.n + w);
    FitsSome(mask, b, name, s);
    var j, e := FitLength(mask, b, name, s), BlockEnd(mask, b);
    MatchesBlock(mask, name, y, j);
    var z := y.(m := b + j, n := s + j);
    AttemptComesTo(mask, b, name, x.n + w);
    NothingFits(mask, name, y, z);
    if z.n == |name| {
      EndOfName(mask, name, z);
      if e < |mask| && b + j == e { NothingFound(mask, e, name); }
    } else if b + j == e < |mask| {
      StarFinds(mask, name, z);
    } else {
      StepsBack(mask, name, z);
      StarFinds(mask, name, z.(m := x.m, n := z.n - w));
      FindsAfterIs(mask, x.m, name, z.n - w, z.n);
    }
  }

  lemma {:induction false} StartFinds(mask: string, name: string, k: nat)
    requires NoNul(mask) && NoNul(name) && k <= BlockEnd(mask, 0) && Fits(mask, 0, name, 0, k)
    ensures AcceptsFrom(mask, name, Matcher(k, k, None, 0)) <==> FindsAll(mask, name)
    decreases |mask| - k
  {
    var e, x := BlockEnd(mask, 0), Matcher(k, k, None, 0);
    if k == e < |mask| {
      StarFinds(mask, name, x);
    } else if k == |name| {
      EndOfName(mask, name, x);
    } else if k < e && FitsAt(mask, 0, name, 0, k) {
      var y := Matcher(k + 1, k + 1, None, 0);
      AcceptsStep(mask, name, x, y);
      StartFinds(mask, name, k + 1);
    }
  }

  /** What MatchesMask accepts, for every mask and every name. */
  lemma AcceptsIffFinds(mask: string, name: string)
    ensures Accepts(mask, name) <==> FindsAll(CText(mask), CText(name))
  {
    StartFinds(CText(mask), CText(name), 0);
  }
}
