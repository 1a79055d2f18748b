/** The statistical median over exact reals, and how it reacts to changes of its sample. */
module Statistics {
  import opened Prelude
  import opened Sorting

  predicate RealAtMost(x: real, y: real) {
    x <= y
  }

  lemma RealOrdering()
    ensures Ordering(RealAtMost) && forall s :: TieFree(RealAtMost, s)
  {
  }

  /** Middle element, or the mean of the two middle elements. */
  function Middle(t: seq<real>): real
    requires |t| > 0
  {
    if |t| % 2 == 1 then t[|t| / 2] else (t[|t| / 2 - 1] + t[|t| / 2]) / 2.0
  }

  function Median(s: seq<real>): real
    requires |s| > 0
  {
    SortContents(RealAtMost, s);
    Middle(Sort(RealAtMost, s))
  }

  function Abs(x: real): (r: real) {
    if x < 0.0 then -x else x
  }

  function Max(x: real, y: real): (r: real) {
    if x < y then y else x
  }

  function Negated(s: seq<real>): (r: seq<real>)
    ensures |r| == |s| && forall i :: 0 <= i < |s| ==> r[i] == -s[i]
  {
    if s == [] then [] else [-s[0]] + Negated(s[1..])
  }

  function Times(k: real, x: real): real {
    k * x
  }

  function Scaled(k: real, s: seq<real>): (r: seq<real>)
    ensures |r| == |s|
  {
    if s == [] then [] else [Times(k, s[0])] + Scaled(k, s[1..])
  }

  lemma {:induction false} ScaledAt(k: real, s: seq<real>, i: nat)
    requires i < |s|
    ensures Scaled(k, s)[i] == Times(k, s[i])
  {
    if i > 0 {
      ScaledAt(k, s[1..], i - 1);
    }
  }

  function Reversed(s: seq<real>): (r: seq<real>)
    ensures |r| == |s| && forall i :: 0 <= i < |s| ==> r[i] == s[|s| - 1 - i]
  {
    if s == [] then [] else Reversed(s[1..]) + [s[0]]
  }

  lemma {:induction false} ReversedContents(s: seq<real>)
    ensures multiset(Reversed(s)) == multiset(s)
  {
    if s != [] {
      ReversedContents(s[1..]);
      SplitFirst(s);
    }
  }

  lemma SortOfNegated(s: seq<real>)
    ensures Sort(RealAtMost, Negated(s)) == Reversed(Negated(Sort(RealAtMost, s)))
  {
    hide Sort, Reversed, Negated;
    RealOrdering();
    var t := Sort(RealAtMost, s);
    SortContents(RealAtMost, s);
    SortSorts(RealAtMost, s);
    PermutedImages(t, s, Negated(t), Negated(s));
    ReversedContents(Negated(t));
    var r := Reversed(Negated(t));
    forall i, j | 0 <= i < j < |r|
      ensures RealAtMost(r[i], r[j])
    {
      assert RealAtMost(t[|t| - 1 - j], t[|t| - 1 - i]);
    }
    SortContents(RealAtMost, Negated(s));
    SortSorts(RealAtMost, Negated(s));
    SortedArrangementIsUnique(RealAtMost, Sort(RealAtMost, Negated(s)), r);
  }

  lemma MiddleOfMirrored(t: seq<real>, r: seq<real>)
    requires |r| == |t| > 0 && forall i :: 0 <= i < |r| ==> r[i] == -t[|t| - 1 - i]
    ensures Middle(r) == -Middle(t)
  {
    var m := |t| / 2;
    if |t| % 2 == 1 {
      assert |t| - 1 - m == m;
    } else {
      assert |t| - 1 - m == m - 1 && |t| - 1 - (m - 1) == m;
    }
  }

  /** Mirroring a sample mirrors its median. */
  lemma MedianOfNegated(s: seq<real>)
    requires |s| > 0
    ensures Median(Negated(s)) == -Median(s)
  {
    hide Sort, Middle, Reversed, Negated;
    SortOfNegated(s);
    SortContents(RealAtMost, s);
    var t := Sort(RealAtMost, s);
    MiddleOfMirrored(t, Reversed(Negated(t)));
  }

  lemma ScalingPreservesOrder(k: real, x: real, y: real)
    requires k > 0.0
    ensures Times(k, x) <= Times(k, y) <==> x <= y
  {
    if x < y {
      assert k * (y - x) > 0.0;
    } else if y < x {
      assert k * (x - y) > 0.0;
    }
  }

  lemma {:induction false} InsertOfScaled(k: real, x: real, s: seq<real>)
    requires k > 0.0
    ensures Insert(RealAtMost, Times(k, x), Scaled(k, s)) == Scaled(k, Insert(RealAtMost, x, s))
  {
    if s != [] {
      ScalingPreservesOrder(k, x, s[0]);
      var t := Insert(RealAtMost, x, s);
      assert Scaled(k, s)[1..] == Scaled(k, s[1..]);
      if RealAtMost(x, s[0]) {
        assert t[0] == x && t[1..] == s;
      } else {
        InsertOfScaled(k, x, s[1..]);
        assert t[0] == s[0] && t[1..] == Insert(RealAtMost, x, s[1..]);
      }
    }
  }

  lemma {:induction false} SortOfScaled(k: real, s: seq<real>)
    requires k > 0.0
    ensures Sort(RealAtMost, Scaled(k, s)) == Scaled(k, Sort(RealAtMost, s))
  {
    if s != [] {
      assert Scaled(k, s)[1..] == Scaled(k, s[1..]);
      SortOfScaled(k, s[1..]);
      InsertOfScaled(k, s[0], Sort(RealAtMost, s[1..]));
    }
  }

  lemma TimesOfMean(k: real, x: real, y: real)
    ensures (Times(k, x) + Times(k, y)) / 2.0 == Times(k, (x + y) / 2.0)
  {
  }

  /** Changing the unit of a sample changes the unit of its median. */
  lemma MedianOfScaled(k: real, s: seq<real>)
    requires k > 0.0 && |s| > 0
    ensures Median(Scaled(k, s)) == Times(k, Median(s))
  {
    hide Sort, Scaled, Times;
    SortOfScaled(k, s);
    SortContents(RealAtMost, s);
    var t := Sort(RealAtMost, s);
    var n := |t|;
    ScaledAt(k, t, n / 2);
    if n % 2 == 0 {
      ScaledAt(k, t, n / 2 - 1);
      TimesOfMean(k, t[n / 2 - 1], t[n / 2]);
    }
  }

  /** How many values lie strictly below a bound. */
  function CountBelow(s: seq<real>, bound: real): nat {
    if s == [] then 0 else (if s[0] < bound then 1 else 0) + CountBelow(s[1..], bound)
  }

  lemma {:induction false} CountBelowInsert(x: real, s: seq<real>, bound: real)
    ensures CountBelow(Insert(RealAtMost, x, s), bound) == (if x < bound then 1 else 0) + CountBelow(s, bound)
  {
    if s != [] && !RealAtMost(x, s[0]) {
      CountBelowInsert(x, s[1..], bound);
    }
  }

  lemma {:induction false} CountBelowSort(s: seq<real>, bound: real)
    ensures CountBelow(Sort(RealAtMost, s), bound) == CountBelow(s, bound)
  {
    if s != [] {
      CountBelowSort(s[1..], bound);
      CountBelowInsert(s[0], Sort(RealAtMost, s[1..]), bound);
    }
  }

  lemma {:induction false} CountBelowPrefix(s: seq<real>, n: nat, bound: real)
    requires n <= |s| && forall i :: 0 <= i < n ==> s[i] < bound
    ensures CountBelow(s, bound) >= n
  {
    if n > 0 {
      CountBelowPrefix(s[1..], n - 1, bound);
    }
  }

  /** Only positions in `altered` can lie below the bound, so at most that many values do. */
  lemma {:induction false} CountBelowOutliers(s: seq<real>, altered: set<nat>, bound: real, shift: nat)
    requires forall i :: 0 <= i < |s| && i + shift !in altered ==> bound <= s[i]
    ensures CountBelow(s, bound) <= |altered|
    decreases |s|
  {
    if s != [] {
      assert forall i :: 0 <= i < |s[1..]| ==> s[1..][i] == s[i + 1];
      if s[0] < bound {
        assert 0 + shift in altered;
        forall i | 0 <= i < |s[1..]| && i + (shift + 1) !in altered - {shift}
          ensures bound <= s[1..][i]
        {
          assert (i + 1) + shift !in altered;
        }
        CountBelowOutliers(s[1..], altered - {shift}, bound, shift + 1);
      } else {
        forall i | 0 <= i < |s[1..]| && i + (shift + 1) !in altered
          ensures bound <= s[1..][i]
        {
          assert (i + 1) + shift !in altered;
        }
        CountBelowOutliers(s[1..], altered, bound, shift + 1);
      }
    }
  }

  lemma LowerMiddleIsNotBelow(t: seq<real>, low: real)
    requires |t| > 0 && Sorted(RealAtMost, t) && CountBelow(t, low) <= (|t| - 1) / 2
    ensures low <= t[(|t| - 1) / 2]
  {
    var lower := (|t| - 1) / 2;
    if t[lower] < low {
      forall i | 0 <= i < lower + 1
        ensures t[i] < low
      {
        assert i < lower ==> RealAtMost(t[i], t[lower]);
      }
      CountBelowPrefix(t, lower + 1, low);
    }
  }

  lemma MiddleIsAtLeastLowerMiddle(t: seq<real>)
    requires |t| > 0 && Sorted(RealAtMost, t)
    ensures t[(|t| - 1) / 2] <= Middle(t)
  {
    var n := |t|;
    if n % 2 == 0 {
      assert (n - 1) / 2 == n / 2 - 1;
      assert RealAtMost(t[n / 2 - 1], t[n / 2]);
    } else {
      assert (n - 1) / 2 == n / 2;
    }
  }

  lemma MedianIsNotDraggedBelow(s: seq<real>, altered: set<nat>, low: real)
    requires |s| > 0 && |altered| <= (|s| - 1) / 2
    requires forall i :: 0 <= i < |s| && i !in altered ==> low <= s[i]
    ensures low <= Median(s)
  {
    SortContents(RealAtMost, s);
    RealOrdering();
    SortSorts(RealAtMost, s);
    CountBelowOutliers(s, altered, low, 0);
    CountBelowSort(s, low);
    LowerMiddleIsNotBelow(Sort(RealAtMost, s), low);
    MiddleIsAtLeastLowerMiddle(Sort(RealAtMost, s));
  }

  /**
   * Breakdown point: replacing fewer than half of the values by anything at all
   * leaves the median between the bounds of the values that were not replaced.
   */
  lemma MedianIsRobust(original: seq<real>, s: seq<real>, altered: set<nat>, low: real, high: real)
    requires |original| == |s| > 0 && |altered| <= (|s| - 1) / 2
    requires forall i :: 0 <= i < |s| && i !in altered ==> s[i] == original[i]
    requires forall i :: 0 <= i < |s| && i !in altered ==> low <= original[i] <= high
    ensures low <= Median(s) <= high
  {
    MedianIsNotDraggedBelow(s, altered, low);
    forall i | 0 <= i < |s| && i !in altered
      ensures -high <= Negated(s)[i]
    {
      assert s[i] <= high;
    }
    MedianIsNotDraggedBelow(Negated(s), altered, -high);
    MedianOfNegated(s);
  }
}
