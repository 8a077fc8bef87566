/** The wildcard matcher of directory enumeration: '*' stands for any run of characters, '?' for
    any one. The matcher is a loop over two indexes that remembers the last star it passed. */
module MaskMatch {
  import opened Wrappers

  // ----- what a mask means -----

  /** The mask from m on matches the name from n on. */
  predicate Glob(mask: string, m: nat, name: string, n: nat)
    requires m <= |mask| && n <= |name|
    decreases |mask| - m, |name| - n
  {
    if m == |mask| then n == |name|
    else if mask[m] == '*' then
      Glob(mask, m + 1, name, n) || (n < |name| && Glob(mask, m, name, n + 1))
    else
      n < |name| && (mask[m] == '?' || mask[m] == name[n]) && Glob(mask, m + 1, name, n + 1)
  }

  predicate NoNul(s: string) {
    '\0' !in s
  }

  /** The characters a C string holds: those before its first NUL. */
  function CText(s: string): (r: string)
    ensures NoNul(r) && r <= s
    ensures NoNul(s) ==> r == s
    ensures |r| < |s| ==> s[|r|] == '\0'
  {
    if s == "" || s[0] == '\0' then "" else [s[0]] + CText(s[1..])
  }

  /** *(s + i) for a C string s. */
  function CharAt(s: string, i: nat): char
    requires i <= |s|
  {
    if i < |s| then s[i] else '\0'
  }

  predicate IsLiteral(c: char) {
    c != '*' && c != '?'
  }

  // ----- the run of '*' and '?' after a star -----

  function RunEnd(mask: string, m: nat): (r: nat)
    requires m <= |mask|
    ensures m <= r <= |mask|
    ensures forall i | m <= i < r :: !IsLiteral(mask[i])
    ensures r < |mask| ==> IsLiteral(mask[r])
    decreases |mask| - m
  {
    if m == |mask| || IsLiteral(mask[m]) then m else RunEnd(mask, m + 1)
  }

  /** How many '?' the run holds. */
  function Wild(mask: string, m: nat): nat
    requires m <= |mask|
    decreases |mask| - m
  {
    if m == |mask| || IsLiteral(mask[m]) then 0
    else (if mask[m] == '?' then 1 else 0) + Wild(mask, m + 1)
  }

  // ----- the matcher, one iteration of its outer loop at a time -----

  /** The two indexes, the last star and how many '?' were taken right after it. */
  datatype Matcher = Matcher(m: nat, n: nat, star: Option<nat>, dec: nat)

  ghost predicate Ok(mask: string, name: string, x: Matcher) {
    && NoNul(mask) && NoNul(name)
    && x.m <= |mask| && x.n <= |name|
    && (x.star.Some? ==>
          && x.star.value < |mask| && x.star.value <= x.m && mask[x.star.value] == '*'
          && (x.n < |name| ==> x.dec == Wild(mask, x.star.value + 1))
          && (x.m == x.star.value ==> x.n + x.dec <= |name|)
          && (x.m != x.star.value ==> x.dec <= x.n))
  }

  /** The inner for loop: takes the run after a star. */
  function TakeRun(mask: string, name: string, x: Matcher): (r: Matcher)
    requires x.m <= |mask| && x.n < |name| && NoNul(mask) && NoNul(name)
    ensures x.m <= r.m <= |mask| && x.n <= r.n <= |name|
    ensures r.star == x.star && r.dec - x.dec == r.n - x.n
    ensures r.n < |name| ==> r.m == RunEnd(mask, x.m) && r.dec == x.dec + Wild(mask, x.m)
    decreases |mask| - x.m
  {
    if CharAt(mask, x.m) == '?' then
      var y := x.(m := x.m + 1, n := x.n + 1, dec := x.dec + 1);
      if CharAt(name, y.n) == '\0' then y else TakeRun(mask, name, y)
    else if CharAt(mask, x.m) != '*' then x
    else TakeRun(mask, name, x.(m := x.m + 1))
  }

  /** The inner while loop: scans the name for the mask's next character. */
  function Scan(mask: string, name: string, x: Matcher): (r: Matcher)
    requires x.m <= |mask| && x.n <= |name| && NoNul(mask) && NoNul(name)
    ensures r == x.(n := r.n) && x.n <= r.n <= |name|
    ensures r.n < |name| ==> x.m < |mask| && mask[x.m] == name[r.n]
    ensures forall i | x.n <= i < r.n :: x.m < |mask| ==> name[i] != mask[x.m]
    decreases |name| - x.n
  {
    if CharAt(name, x.n) != '\0' && (CharAt(mask, x.m) == '\0' || CharAt(mask, x.m) != CharAt(name, x.n))
    then Scan(mask, name, x.(n := x.n + 1))
    else x
  }

  function TakeStar(mask: string, name: string, x: Matcher): (r: Matcher)
    requires x.m < |mask| && x.n < |name| && NoNul(mask) && NoNul(name)
    ensures x.m < r.m <= |mask| && x.n <= r.n <= |name|
  {
    Scan(mask, name, TakeRun(mask, name, Matcher(x.m + 1, x.n, Some(x.m), 0)))
  }

  /** The outer loop's body; None when the mismatch is final. */
  function Step(mask: string, name: string, x: Matcher): (r: Option<Matcher>)
    requires Ok(mask, name, x) && x.n < |name|
    ensures r.Some? ==> Ok(mask, name, r.value)
  {
    if CharAt(mask, x.m) == '?' then Some(x.(m := x.m + 1, n := x.n + 1))
    else if CharAt(mask, x.m) == '*' then Some(TakeStar(mask, name, x))
    else if CharAt(mask, x.m) == CharAt(name, x.n) then Some(x.(m := x.m + 1, n := x.n + 1))
    else if x.star.None? then None
    else Some(x.(m := x.star.value, n := x.n - x.dec))
  }

  // Both indexes move backwards, so the measure is not either of them: it is the position of the
  // last star, then the furthest name index that is settled, then what the next iteration does.

  ghost function StarsLeft(mask: string, x: Matcher): int {
    if x.star.None? then |mask| + 1 else |mask| - x.star.value
  }

  ghost function Reach(x: Matcher): nat {
    if x.star == Some(x.m) then x.n + x.dec else x.n
  }

  ghost function Rank(mask: string, name: string, x: Matcher): nat
    requires x.m <= |mask| && x.n <= |name|
  {
    if x.star == Some(x.m) then 1
    else if x.n < |name| && x.m < |mask| && (mask[x.m] == '?' || mask[x.m] == '*' || mask[x.m] == name[x.n]) then 0
    else 2
  }

  lemma StepDecreases(mask: string, name: string, x: Matcher)
    requires Ok(mask, name, x) && x.n < |name|
    ensures Step(mask, name, x).Some? ==>
      var y := Step(mask, name, x).value;
      && 0 <= StarsLeft(mask, y) && Reach(y) <= |name|
      && (|| StarsLeft(mask, y) < StarsLeft(mask, x)
          || (StarsLeft(mask, y) == StarsLeft(mask, x) && Reach(y) > Reach(x))
          || (StarsLeft(mask, y) == StarsLeft(mask, x) && Reach(y) == Reach(x)
              && (y.n == |name| || Rank(mask, name, y) < Rank(mask, name, x))))
  {
  }

  predicate OnlyStars(mask: string, m: nat)
    requires m <= |mask|
    decreases |mask| - m
  {
    m == |mask| || (mask[m] == '*' && OnlyStars(mask, m + 1))
  }

  /** What the matcher answers from x on. */
  predicate AcceptsFrom(mask: string, name: string, x: Matcher)
    requires Ok(mask, name, x)
    decreases StarsLeft(mask, x), |name| - Reach(x), x.n < |name|, Rank(mask, name, x)
  {
    if x.n == |name| then OnlyStars(mask, x.m)
    else
      StepDecreases(mask, name, x);
      match Step(mask, name, x)
      case None => false
      case Some(y) => AcceptsFrom(mask, name, y)
  }

  const START := Matcher(0, 0, None, 0)

  predicate Accepts(mask: string, name: string) {
    AcceptsFrom(CText(mask), CText(name), START)
  }

  /** The inner for loop of MatchesMask, entered just after a star. */
  method TakeRunLoop(mask: string, name: string, star: nat, m0: nat, n0: nat) returns (m: nat, n: nat, dec: nat)
    requires m0 <= |mask| && n0 < |name| && NoNul(mask) && NoNul(name)
    ensures Matcher(m, n, Some(star), dec) == TakeRun(mask, name, Matcher(m0, n0, Some(star), 0))
  {
    m, n, dec := m0, n0, 0;
    while true
      invariant m <= |mask| && n < |name|
      invariant TakeRun(mask, name, Matcher(m, n, Some(star), dec))
        == TakeRun(mask, name, Matcher(m0, n0, Some(star), 0))
      decreases |mask| - m
    {
      if CharAt(mask, m) == '?' {
        m, n, dec := m + 1, n + 1, dec + 1;
        if CharAt(name, n) == '\0' {
          break;
        }
      } else if CharAt(mask, m) != '*' {
        break;
      } else {
        m := m + 1;
      }
    }
  }

  /** The inner while loop of MatchesMask. */
  method ScanLoop(mask: string, name: string, m: nat, n0: nat, ghost star: Option<nat>, ghost dec: nat) returns (n: nat)
    requires m <= |mask| && n0 <= |name| && NoNul(mask) && NoNul(name)
    ensures Matcher(m, n, star, dec) == Scan(mask, name, Matcher(m, n0, star, dec))
  {
    n := n0;
    while CharAt(name, n) != '\0' && (CharAt(mask, m) == '\0' || CharAt(mask, m) != CharAt(name, n))
      invariant n <= |name|
      invariant Scan(mask, name, Matcher(m, n, star, dec)) == Scan(mask, name, Matcher(m, n0, star, dec))
      decreases |name| - n
    {
      n := n + 1;
    }
  }

  /** The body of the outer loop. floor is the name index at which the last star was first met:
      the name index never moves back before it. */
  method Iterate(mask: string, name: string, m0: nat, n0: nat, star0: Option<nat>, dec0: nat, ghost floor0: nat)
    returns (result: bool, m: nat, n: nat, star: Option<nat>, dec: nat, ghost floor: nat)
    requires Ok(mask, name, Matcher(m0, n0, star0, dec0)) && n0 < |name| && floor0 <= n0
    requires star0.Some? && star0 != Some(m0) ==> floor0 + dec0 <= n0
    ensures Step(mask, name, Matcher(m0, n0, star0, dec0)) == if result then Some(Matcher(m, n, star, dec)) else None
    ensures result ==> floor <= n && (star.Some? && star != Some(m) ==> floor + dec <= n)
    ensures star == star0 ==> floor == floor0
  {
    result, m, n, star, dec, floor := true, m0, n0, star0, dec0, floor0;
    if CharAt(mask, m) == '?' {
      m, n := m + 1, n + 1;
    } else if CharAt(mask, m) == '*' {
      if star != Some(m) { floor := n; }
      star := Some(m);
      m, n, dec := TakeRunLoop(mask, name, m, m + 1, n);
      n := ScanLoop(mask, name, m, n, star, dec);
    } else {
      result := CharAt(mask, m) == CharAt(name, n);
      if result {
        m, n := m + 1, n + 1;
      } else {
        result := star.Some?;
        if result {
          m := star.value;
          n := n - dec;
        }
      }
    }
  }

  method MatchesMask(mask: string, name: string) returns (result: bool)
    ensures result == Accepts(mask, name)
  {
    var maskText, nameText := CText(mask), CText(name);
    result := true;
    var m: nat, n: nat := 0, 0;
    var star: Option<nat> := None;
    var dec: nat := 0;
    ghost var floor: nat := 0;
    while result && CharAt(nameText, n) != '\0'
      invariant Ok(maskText, nameText, Matcher(m, n, star, dec)) && floor <= n
      invariant star.Some? && star != Some(m) ==> floor + dec <= n
      invariant Accepts(mask, name) == (result && AcceptsFrom(maskText, nameText, Matcher(m, n, star, dec)))
      decreases result, StarsLeft(maskText, Matcher(m, n, star, dec)), |nameText| - Reach(Matcher(m, n, star, dec)),
                n < |nameText|, Rank(maskText, nameText, Matcher(m, n, star, dec))
    {
      StepDecreases(maskText, nameText, Matcher(m, n, star, dec));
      var go, m', n', star', dec', floor' := Iterate(maskText, nameText, m, n, star, dec, floor);
      result := go;
      if go {
        m, n, star, dec, floor := m', n', star', dec', floor';
      }
    }
    if result {
      m := SkipStars(maskText, m);
      result := CharAt(maskText, m) == '\0';
    }
  }

  /** The loop after the name has ended. */
  method SkipStars(mask: string, m0: nat) returns (m: nat)
    requires m0 <= |mask| && NoNul(mask)
    ensures m <= |mask| && (m == |mask| <==> OnlyStars(mask, m0))
  {
    m := m0;
    while CharAt(mask, m) == '*'
      invariant m <= |mask|
      invariant OnlyStars(mask, m) == OnlyStars(mask, m0)
      decreases |mask| - m
    {
      m := m + 1;
    }
  }
}
