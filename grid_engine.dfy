/**
 * The grid engine helpers (grid_engine.py): a capped geometric ladder and
 * the window of buy levels just below the last price.
 */
module GridEngine {
  import opened Numeric
  import opened Sorting

  /** The ladder stops growing once it holds more than this many levels. */
  const LevelCap: nat := 5000

  /** A positive price grows under a ratio above one. */
  lemma Grows(p: real, f: real)
    requires p > 0.0 && f > 1.0
    ensures p * f > p
  {
    MulLt(1.0, f, p);
  }

  /** Each element is the previous one times `f`. */
  ghost predicate Geometric(s: seq<real>, f: real)
  {
    forall i, j :: 0 <= i < |s| && j == i + 1 && j < |s| ==> s[j] == s[i] * f
  }

  /**
   * `geom_levels` from the level `p` on, when `n` levels are already taken:
   * take `p` while it is within `bound` and at most 5000 levels are
   * taken, then go on from `p * f`.
   */
  function LadderFrom(p: real, f: real, bound: real, n: nat): seq<real>
    decreases LevelCap + 1 - n
  {
    if p <= bound && n <= LevelCap then [p] + LadderFrom(p * f, f, bound, n + 1) else []
  }

  /** The ladder is empty exactly when `p` is out of range or the cap is reached; otherwise it starts at `p` and stops at the cap. */
  lemma {:induction false} LadderHead(p: real, f: real, bound: real, n: nat)
    ensures var r := LadderFrom(p, f, bound, n);
      (|r| > 0 <==> p <= bound && n <= LevelCap)
      && (|r| > 0 ==> r[0] == p && n + |r| <= LevelCap + 1)
    decreases LevelCap + 1 - n
  {
    if p <= bound && n <= LevelCap {
      LadderHead(p * f, f, bound, n + 1);
      assert LadderFrom(p, f, bound, n) == [p] + LadderFrom(p * f, f, bound, n + 1);
    }
  }

  /** The ratio between consecutive levels, `1 + spacing/100`. */
  function GeomFactor(spacingPct: real): real
  {
    1.0 + spacingPct / 100.0
  }

  /** The highest level taken, `upper * (1 + 1e-9)`. */
  function GeomBound(upper: real): real
  {
    upper * (1.0 + Eps9)
  }

  /** The ladder `geom_levels(lower, upper, spacing_pct)` returns. */
  function GeomLadder(lower: real, upper: real, spacingPct: real): seq<real>
  {
    LadderFrom(lower, GeomFactor(spacingPct), GeomBound(upper), 0)
  }

  /** `geom_levels` as the source runs it: the loop builds exactly `GeomLadder`. */
  method GeomLevels(lower: real, upper: real, spacingPct: real) returns (lvls: seq<real>)
    ensures lvls == GeomLadder(lower, upper, spacingPct)
  {
    var f := GeomFactor(spacingPct);
    var bound := GeomBound(upper);
    ghost var whole := LadderFrom(lower, f, bound, 0);
    lvls := [];
    var p := lower;
    while p <= bound
      invariant |lvls| <= LevelCap
      invariant lvls + LadderFrom(p, f, bound, |lvls|) == whole
      decreases LevelCap - |lvls|
    {
      LadderStep(lvls, p, f, bound, whole);
      lvls := lvls + [p];
      p := p * f;
      if |lvls| > LevelCap {
        break;
      }
    }
    LadderEnd(lvls, p, f, bound, whole);
  }

  lemma LadderStep(lvls: seq<real>, p: real, f: real, bound: real, whole: seq<real>)
    requires |lvls| <= LevelCap && p <= bound
    requires lvls + LadderFrom(p, f, bound, |lvls|) == whole
    ensures (lvls + [p]) + LadderFrom(p * f, f, bound, |lvls| + 1) == whole
  {
    ConcatAssoc(lvls, [p], LadderFrom(p * f, f, bound, |lvls| + 1));
  }

  lemma LadderEnd(lvls: seq<real>, p: real, f: real, bound: real, whole: seq<real>)
    requires p > bound || |lvls| > LevelCap
    requires lvls + LadderFrom(p, f, bound, |lvls|) == whole
    ensures lvls == whole
  {
    assert lvls + [] == lvls;
  }

  /** Every level of the ladder is within the bound. */
  lemma {:induction false} LadderWithin(p: real, f: real, bound: real, n: nat)
    ensures forall x :: x in LadderFrom(p, f, bound, n) ==> x <= bound
    decreases LevelCap + 1 - n
  {
    if p <= bound && n <= LevelCap {
      LadderWithin(p * f, f, bound, n + 1);
      assert LadderFrom(p, f, bound, n) == [p] + LadderFrom(p * f, f, bound, n + 1);
    }
  }

  /** Each level of the ladder is the one before it times `f`. */
  lemma {:induction false} LadderGeometric(p: real, f: real, bound: real, n: nat)
    ensures Geometric(LadderFrom(p, f, bound, n), f)
    decreases LevelCap + 1 - n
  {
    if p <= bound && n <= LevelCap {
      LadderGeometric(p * f, f, bound, n + 1);
      LadderHead(p * f, f, bound, n + 1);
      var t := LadderFrom(p * f, f, bound, n + 1);
      ConsGeometric(p, t, f);
    }
  }

  /** Below the cap the ladder stops only where the next level would leave the range. */
  lemma {:induction false} LadderComplete(p: real, f: real, bound: real, n: nat)
    ensures var r := LadderFrom(p, f, bound, n);
      0 < |r| && n + |r| <= LevelCap ==> r[|r| - 1] * f > bound
    decreases LevelCap + 1 - n
  {
    if p <= bound && n <= LevelCap {
      LadderComplete(p * f, f, bound, n + 1);
      LadderHead(p * f, f, bound, n + 1);
      var t := LadderFrom(p * f, f, bound, n + 1);
      var r := [p] + t;
      assert LadderFrom(p, f, bound, n) == r;
      if t != [] {
        assert r[|r| - 1] == t[|t| - 1];
      }
    }
  }

  /** With a ratio above one and a positive start the ladder is strictly increasing. */
  lemma {:induction false} LadderIncreasing(p: real, f: real, bound: real, n: nat)
    requires f > 1.0 && p > 0.0
    ensures StrictlyIncreasing(LadderFrom(p, f, bound, n))
    decreases LevelCap + 1 - n
  {
    if p <= bound && n <= LevelCap {
      Grows(p, f);
      var t := LadderFrom(p * f, f, bound, n + 1);
      assert StrictlyIncreasing([p] + t) by {
        LadderIncreasing(p * f, f, bound, n + 1);
        LadderClimbs(p, f, bound, n + 1);
        HeadBelowAll(p, t);
        ConsIncreasing(p, t);
      }
    }
  }

  /** With a ratio above one, the ladder after a positive `p` starts above `p`. */
  lemma LadderClimbs(p: real, f: real, bound: real, n: nat)
    requires f > 1.0 && p > 0.0
    ensures var t := LadderFrom(p * f, f, bound, n); t != [] ==> p < t[0]
  {
    Grows(p, f);
    LadderHead(p * f, f, bound, n);
  }

  lemma ConsGeometric(p: real, t: seq<real>, m: real)
    requires Geometric(t, m)
    requires |t| > 0 ==> t[0] == p * m
    ensures Geometric([p] + t, m)
  {
    forall i, j | 0 <= i < |[p] + t| && j == i + 1 && j < |[p] + t|
      ensures ([p] + t)[j] == ([p] + t)[i] * m
    {
      assert ([p] + t)[j] == t[i];
      if i > 0 {
        assert ([p] + t)[i] == t[i - 1];
      }
    }
  }

  /** A value below the head of a strictly increasing list is below all of it. */
  lemma HeadBelowAll(h: real, t: seq<real>)
    requires StrictlyIncreasing(t)
    requires |t| > 0 ==> h < t[0]
    ensures forall v :: v in t ==> h < v
  {
    forall v | v in t
      ensures h < v
    {
      var k :| 0 <= k < |t| && t[k] == v;
      assert t[0] <= t[k];
    }
  }
  /** Appending a value above the last keeps a list strictly increasing. */
  lemma AppendIncreasing(s: seq<real>, p: real)
    requires StrictlyIncreasing(s)
    requires |s| > 0 ==> s[|s| - 1] < p
    ensures StrictlyIncreasing(s + [p])
  {
    forall i, j | 0 <= i < j < |s + [p]|
      ensures (s + [p])[i] < (s + [p])[j]
    {
      if j < |s| {
        assert (s + [p])[i] == s[i] && (s + [p])[j] == s[j];
      } else {
        assert (s + [p])[i] == s[i] && s[i] <= s[|s| - 1];
      }
    }
  }

  /** `>=` on prices, the order of `sort(reverse=True)`. */
  predicate AtLeast(a: real, b: real)
  {
    a >= b
  }

  lemma AtLeastIsTotalPreorder()
    ensures TotalPreorder(AtLeast)
  {
  }

  /** The levels strictly below the last price, in their original order. */
  function Below(levels: seq<real>, lastPrice: real): (r: seq<real>)
    ensures forall x :: x in r ==> x in levels && x < lastPrice
    ensures forall x :: x in levels && x < lastPrice ==> x in r
  {
    if levels == [] then []
    else if levels[0] < lastPrice then [levels[0]] + Below(levels[1..], lastPrice)
    else Below(levels[1..], lastPrice)
  }

  /** The length of Python's `s[:n]` for a list of length `len`, negative `n` counting from the end. */
  function SliceHeadLen(len: nat, n: int): (k: nat)
    ensures k <= len
    ensures n >= 0 ==> k == if n <= len then n else len
    ensures n < 0 ==> k == if len + n > 0 then len + n else 0
  {
    if n >= 0 then (if n <= len then n else len)
    else if len + n > 0 then len + n else 0
  }

  function Reverse(s: seq<real>): (r: seq<real>)
    ensures |r| == |s|
    ensures forall i :: 0 <= i < |s| ==> r[i] == s[|s| - 1 - i]
  {
    if s == [] then [] else Reverse(s[1..]) + [s[0]]
  }

  /** The below-price levels, largest first. */
  function BelowDescending(levels: seq<real>, lastPrice: real): seq<real>
  {
    SortBy(Below(levels, lastPrice), AtLeast)
  }

  lemma BelowDescendingSorted(levels: seq<real>, lastPrice: real)
    ensures var d := BelowDescending(levels, lastPrice);
      forall i, j :: 0 <= i < j < |d| ==> d[i] >= d[j]
  {
    AtLeastIsTotalPreorder();
    SortBySorted(Below(levels, lastPrice), AtLeast);
  }

  /**
   * `active_buy_window`: the first `windowN` of the below-price levels taken
   * largest first (Python slice semantics), listed in ascending order.
   */
  function ActiveBuyWindow(levels: seq<real>, lastPrice: real, windowN: int): (w: seq<real>)
    ensures |w| == SliceHeadLen(|Below(levels, lastPrice)|, windowN)
    ensures windowN >= 0 ==> |w| <= windowN
    ensures forall x :: x in w ==> x in levels && x < lastPrice
    ensures forall i, j :: 0 <= i < j < |w| ==> w[i] <= w[j]
  {
    var d := BelowDescending(levels, lastPrice);
    var k := SliceHeadLen(|d|, windowN);
    BelowDescendingSorted(levels, lastPrice);
    SortByMembers(Below(levels, lastPrice), AtLeast);
    PrefixMembers(d, k);
    Reverse(d[..k])
  }

  lemma PrefixMembers(d: seq<real>, k: nat)
    requires k <= |d|
    ensures forall x :: x in Reverse(d[..k]) ==> x in d
  {
    forall x | x in Reverse(d[..k])
      ensures x in d
    {
      var w := Reverse(d[..k]);
      var i :| 0 <= i < |w| && w[i] == x;
      assert d[..k][k - 1 - i] == x;
    }
  }

  /** The below-price levels that did not make it into the window. */
  function Passed(levels: seq<real>, lastPrice: real, windowN: int): seq<real>
  {
    var d := BelowDescending(levels, lastPrice);
    d[SliceHeadLen(|d|, windowN)..]
  }

  /**
   * The window holds exactly the largest below-price levels: together with
   * the passed-over ones it is all of them, and none passed over is larger
   * than any in the window.
   */
  lemma ActiveBuyWindowIsLargest(levels: seq<real>, lastPrice: real, windowN: int)
    ensures multiset(ActiveBuyWindow(levels, lastPrice, windowN)) + multiset(Passed(levels, lastPrice, windowN))
         == multiset(Below(levels, lastPrice))
    ensures forall a, b ::
      a in ActiveBuyWindow(levels, lastPrice, windowN) && b in Passed(levels, lastPrice, windowN) ==> b <= a
  {
    var d := BelowDescending(levels, lastPrice);
    var k := SliceHeadLen(|d|, windowN);
    BelowDescendingSorted(levels, lastPrice);
    SplitMultiset(d, k);
    PrefixDominates(d, k);
  }

  lemma SplitMultiset(d: seq<real>, k: nat)
    requires k <= |d|
    ensures multiset(Reverse(d[..k])) + multiset(d[k..]) == multiset(d)
  {
    ReverseMultiset(d[..k]);
    assert d == d[..k] + d[k..];
  }

  lemma PrefixDominates(d: seq<real>, k: nat)
    requires k <= |d|
    requires forall i, j :: 0 <= i < j < |d| ==> d[i] >= d[j]
    ensures forall a, b :: a in Reverse(d[..k]) && b in d[k..] ==> b <= a
  {
    forall a, b | a in Reverse(d[..k]) && b in d[k..]
      ensures b <= a
    {
      var w := Reverse(d[..k]);
      var i :| 0 <= i < |w| && w[i] == a;
      var j :| 0 <= j < |d[k..]| && d[k..][j] == b;
      assert a == d[k - 1 - i] && b == d[k + j];
    }
  }

  lemma {:induction false} ReverseMultiset(s: seq<real>)
    ensures multiset(Reverse(s)) == multiset(s)
  {
    if s != [] {
      ReverseMultiset(s[1..]);
      assert s == [s[0]] + s[1..];
    }
  }
}
