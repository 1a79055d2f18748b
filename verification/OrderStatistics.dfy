/** What a median is, by counting: nothing here looks at how it is computed. */
module OrderStatistics {
  import opened Prelude
  import opened Sorting
  import opened Statistics

  // ----- counting -----

  function CountIf<T>(s: seq<T>, p: T -> bool): nat {
    if s == [] then 0 else CountIf(s[..|s| - 1], p) + if p(s[|s| - 1]) then 1 else 0
  }

  /** The positions of the values that satisfy a condition. */
  function Where<T>(s: seq<T>, p: T -> bool): set<nat> {
    set i | 0 <= i < |s| && p(s[i])
  }

  lemma {:induction false} CountIsCardinality<T>(s: seq<T>, p: T -> bool)
    ensures CountIf(s, p) == |Where(s, p)|
  {
    if s == [] {
      assert Where(s, p) == {};
    } else {
      var n := |s| - 1;
      CountIsCardinality(s[..n], p);
      assert Where(s, p) == Where(s[..n], p) + if p(s[n]) then {n} else {};
    }
  }

  lemma {:induction false} CountWithout<T>(s: seq<T>, k: nat, p: T -> bool)
    requires k < |s|
    ensures CountIf(s, p) == CountIf(s[..k] + s[k + 1..], p) + if p(s[k]) then 1 else 0
    decreases |s|
  {
    var n := |s| - 1;
    if k < n {
      CountWithout(s[..n], k, p);
      var rest := s[..k] + s[k + 1..];
      assert rest[|rest| - 1] == s[n] && rest[..|rest| - 1] == s[..n][..k] + s[..n][k + 1..];
    } else {
      assert s[..k] + s[k + 1..] == s[..n];
    }
  }

  /** Counting does not depend on the order. */
  lemma {:induction false} CountIsOrderFree<T>(a: seq<T>, b: seq<T>, p: T -> bool)
    requires multiset(a) == multiset(b)
    ensures CountIf(a, p) == CountIf(b, p)
    decreases |a|
  {
    assert |a| == |multiset(a)| == |multiset(b)| == |b|;
    if a != [] {
      var k := MatchFirst(a, b);
      CountWithout(a, 0, p);
      assert a[..0] + a[1..] == a[1..];
      CountWithout(b, k, p);
      CountIsOrderFree(a[1..], b[..k] + b[k + 1..], p);
    }
  }

  /** The first `n` positions. */
  function Range(n: nat): (r: set<nat>)
    ensures |r| == n && forall i: nat :: i in r <==> i < n
  {
    if n == 0 then {} else Range(n - 1) + {n - 1}
  }

  lemma {:induction false} SubsetSize(a: set<nat>, b: set<nat>)
    requires a <= b
    ensures |a| <= |b|
  {
    if a != {} {
      var x :| x in a;
      SubsetSize(a - {x}, b - {x});
    }
  }

  lemma AtMostPrefix<T>(t: seq<T>, p: T -> bool, m: nat)
    requires forall i :: m <= i < |t| ==> !p(t[i])
    ensures |Where(t, p)| <= m
  {
    SubsetSize(Where(t, p), Range(m));
  }

  lemma AtLeastPrefix<T>(t: seq<T>, p: T -> bool, m: nat)
    requires m <= |t| && forall i :: 0 <= i < m ==> p(t[i])
    ensures |Where(t, p)| >= m
  {
    SubsetSize(Range(m), Where(t, p));
  }

  lemma SameCounts<T>(a: seq<T>, b: seq<T>, p: T -> bool)
    requires multiset(a) == multiset(b)
    ensures |Where(a, p)| == |Where(b, p)|
  {
    CountIsOrderFree(a, b, p);
    CountIsCardinality(a, p);
    CountIsCardinality(b, p);
  }

  // ----- the middle by counting -----

  /** `x` is a value of the sample with at most `m` values below it and more than `m` not above it. */
  ghost predicate HasRank(s: seq<real>, x: real, m: nat) {
    && x in s
    && |Where(s, (v: real) => v < x)| <= m
    && |Where(s, (v: real) => v <= x)| > m
  }

  lemma SortedHasRank(s: seq<real>, m: nat)
    requires m < |s|
    ensures |Sort(RealAtMost, s)| == |s| && HasRank(s, Sort(RealAtMost, s)[m], m)
  {
    hide Sort, Where;
    var t := Sort(RealAtMost, s);
    SortContents(RealAtMost, s);
    RealOrdering();
    SortSorts(RealAtMost, s);
    assert t[m] in multiset(s);
    forall i | m <= i < |t|
      ensures !(t[i] < t[m])
    {
      assert m < i ==> RealAtMost(t[m], t[i]);
    }
    forall i | 0 <= i < m + 1
      ensures t[i] <= t[m]
    {
      assert i < m ==> RealAtMost(t[i], t[m]);
    }
    AtMostPrefix(t, (v: real) => v < t[m], m);
    AtLeastPrefix(t, (v: real) => v <= t[m], m + 1);
    SameCounts(t, s, (v: real) => v < t[m]);
    SameCounts(t, s, (v: real) => v <= t[m]);
  }

  /** Only one value has a rank. */
  lemma RankIsUnique(s: seq<real>, x: real, y: real, m: nat)
    requires HasRank(s, x, m) && HasRank(s, y, m)
    ensures x == y
  {
    if x < y {
      SubsetSize(Where(s, (v: real) => v <= x), Where(s, (v: real) => v < y));
    }
    if y < x {
      SubsetSize(Where(s, (v: real) => v <= y), Where(s, (v: real) => v < x));
    }
  }

  /**
   * The median, said by counting: the mean of the value of rank (n - 1) / 2 and the value of rank
   * n / 2, which for an odd sample are the same value.
   */
  lemma MedianIsMiddle(s: seq<real>) returns (lower: real, upper: real)
    requires |s| > 0
    ensures HasRank(s, lower, (|s| - 1) / 2) && HasRank(s, upper, |s| / 2)
    ensures Median(s) == (lower + upper) / 2.0 && lower <= upper
  {
    var t, n := Sort(RealAtMost, s), |s|;
    SortedHasRank(s, (n - 1) / 2);
    SortedHasRank(s, n / 2);
    RealOrdering();
    SortSorts(RealAtMost, s);
    lower, upper := t[(n - 1) / 2], t[n / 2];
    if n % 2 == 0 {
      assert (n - 1) / 2 == n / 2 - 1;
      assert RealAtMost(lower, upper);
    } else {
      assert (n - 1) / 2 == n / 2;
    }
  }

  /** Some value is at most the median and some value at least. */
  lemma MedianIsBetween(s: seq<real>) returns (i: nat, j: nat)
    requires |s| > 0
    ensures i < |s| && j < |s| && s[i] <= Median(s) <= s[j]
  {
    var lower, upper := MedianIsMiddle(s);
    i :| 0 <= i < |s| && s[i] == lower;
    j :| 0 <= j < |s| && s[j] == upper;
  }

  // ----- translation -----

  function Shifted(c: real, s: seq<real>): (r: seq<real>)
    ensures |r| == |s| && forall i :: 0 <= i < |r| ==> r[i] == s[i] + c
  {
    if s == [] then [] else [s[0] + c] + Shifted(c, s[1..])
  }

  lemma ShiftedRank(c: real, s: seq<real>, x: real, m: nat)
    requires HasRank(s, x, m)
    ensures HasRank(Shifted(c, s), x + c, m)
  {
    var t := Shifted(c, s);
    var i :| 0 <= i < |s| && s[i] == x;
    assert t[i] == x + c;
    assert Where(t, (v: real) => v < x + c) == Where(s, (v: real) => v < x);
    assert Where(t, (v: real) => v <= x + c) == Where(s, (v: real) => v <= x);
  }

  /** Moving a sample moves its median. */
  lemma MedianOfShifted(c: real, s: seq<real>)
    requires |s| > 0
    ensures Median(Shifted(c, s)) == Median(s) + c
  {
    hide Median, HasRank;
    var lower, upper := MedianIsMiddle(s);
    var lower', upper' := MedianIsMiddle(Shifted(c, s));
    ShiftedRank(c, s, lower, (|s| - 1) / 2);
    ShiftedRank(c, s, upper, |s| / 2);
    RankIsUnique(Shifted(c, s), lower + c, lower', (|s| - 1) / 2);
    RankIsUnique(Shifted(c, s), upper + c, upper', |s| / 2);
  }
}
