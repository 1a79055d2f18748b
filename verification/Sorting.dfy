/** Stable insertion sort by an ordering, and the facts that make its result canonical. */
module Sorting {
  import opened Prelude

  ghost predicate Total<T(!new)>(leq: (T, T) -> bool) {
    forall a, b :: leq(a, b) || leq(b, a)
  }

  ghost predicate Transitive<T(!new)>(leq: (T, T) -> bool) {
    forall a, b, c :: leq(a, b) && leq(b, c) ==> leq(a, c)
  }

  /** Sorting by `leq` makes sense: any two values compare, and comparisons chain. */
  ghost predicate Ordering<T(!new)>(leq: (T, T) -> bool) {
    Total(leq) && Transitive(leq)
  }

  ghost predicate Sorted<T>(leq: (T, T) -> bool, s: seq<T>) {
    forall i, j :: 0 <= i < j < |s| ==> leq(s[i], s[j])
  }

  /** Values of `s` that tie are the same value. */
  ghost predicate TieFree<T>(leq: (T, T) -> bool, s: seq<T>) {
    forall i, j :: 0 <= i < |s| && 0 <= j < |s| && leq(s[i], s[j]) && leq(s[j], s[i]) ==> s[i] == s[j]
  }

  function Insert<T>(leq: (T, T) -> bool, x: T, s: seq<T>): seq<T> {
    if s == [] then [x]
    else if leq(x, s[0]) then [x] + s
    else [s[0]] + Insert(leq, x, s[1..])
  }

  function Sort<T>(leq: (T, T) -> bool, s: seq<T>): seq<T> {
    if s == [] then [] else Insert(leq, s[0], Sort(leq, s[1..]))
  }

  lemma {:induction false} InsertContents<T>(leq: (T, T) -> bool, x: T, s: seq<T>)
    ensures multiset(Insert(leq, x, s)) == multiset{x} + multiset(s)
    ensures |Insert(leq, x, s)| == |s| + 1
  {
    if s != [] {
      SplitFirst(s);
      if !leq(x, s[0]) {
        InsertContents(leq, x, s[1..]);
      }
    }
  }

  lemma {:induction false} SortContents<T>(leq: (T, T) -> bool, s: seq<T>)
    ensures multiset(Sort(leq, s)) == multiset(s) && |Sort(leq, s)| == |s|
  {
    if s != [] {
      SortContents(leq, s[1..]);
      InsertContents(leq, s[0], Sort(leq, s[1..]));
      SplitFirst(s);
    }
  }

  lemma {:induction false} InsertSorted<T(!new)>(leq: (T, T) -> bool, x: T, s: seq<T>)
    requires Ordering(leq) && Sorted(leq, s)
    ensures Sorted(leq, Insert(leq, x, s))
  {
    if s != [] {
      if leq(x, s[0]) {
        assert forall i :: 0 <= i < |s| ==> leq(s[0], s[i]);
      } else {
        InsertSorted(leq, x, s[1..]);
        InsertContents(leq, x, s[1..]);
        var t := Insert(leq, x, s[1..]);
        forall j | 0 <= j < |t|
          ensures leq(s[0], t[j])
        {
          assert t[j] in multiset(t);
          assert t[j] == x || t[j] in s[1..];
        }
      }
    }
  }

  lemma {:induction false} SortSorts<T(!new)>(leq: (T, T) -> bool, s: seq<T>)
    requires Ordering(leq)
    ensures Sorted(leq, Sort(leq, s))
  {
    if s != [] {
      SortSorts(leq, s[1..]);
      InsertSorted(leq, s[0], Sort(leq, s[1..]));
    }
  }

  lemma FirstsAgree<T(!new)>(leq: (T, T) -> bool, a: seq<T>, b: seq<T>)
    requires Total(leq) && multiset(a) == multiset(b) && a != [] && b != []
    requires Sorted(leq, a) && Sorted(leq, b) && TieFree(leq, a)
    ensures a[0] == b[0]
  {
    assert a[0] in multiset(b) && b[0] in multiset(a);
    var i := IndexOf(b, a[0]);
    var j := IndexOf(a, b[0]);
    assert leq(a[0], a[j]) && leq(b[0], b[i]);
  }

  lemma EqualFirstsEqualRests<T>(a: seq<T>, b: seq<T>)
    requires multiset(a) == multiset(b) && a != [] && b != [] && a[0] == b[0]
    ensures multiset(a[1..]) == multiset(b[1..])
  {
    SplitFirst(a);
    SplitFirst(b);
    assert multiset(a[1..]) == multiset(a) - multiset{a[0]};
    assert multiset(b[1..]) == multiset(b) - multiset{b[0]};
  }

  lemma RestsStaySorted<T>(leq: (T, T) -> bool, a: seq<T>)
    requires Sorted(leq, a) && a != []
    ensures Sorted(leq, a[1..]) && (TieFree(leq, a) ==> TieFree(leq, a[1..]))
  {
  }

  /** A tie-free collection has exactly one sorted arrangement. */
  lemma {:induction false} SortedArrangementIsUnique<T(!new)>(leq: (T, T) -> bool, a: seq<T>, b: seq<T>)
    requires Total(leq) && multiset(a) == multiset(b)
    requires Sorted(leq, a) && Sorted(leq, b) && TieFree(leq, a)
    ensures a == b
    decreases |a|
  {
    hide Sorted, TieFree, Total;
    assert |a| == |multiset(a)| == |multiset(b)| == |b|;
    if a != [] {
      FirstsAgree(leq, a, b);
      EqualFirstsEqualRests(a, b);
      RestsStaySorted(leq, a);
      RestsStaySorted(leq, b);
      SortedArrangementIsUnique(leq, a[1..], b[1..]);
      assert a == [a[0]] + a[1..] && b == [b[0]] + b[1..];
    }
  }

  lemma {:induction false} TieFreeIsOrderFree<T(!new)>(leq: (T, T) -> bool, a: seq<T>, b: seq<T>)
    requires multiset(a) == multiset(b) && TieFree(leq, a)
    ensures TieFree(leq, b)
  {
    forall i, j | 0 <= i < |b| && 0 <= j < |b| && leq(b[i], b[j]) && leq(b[j], b[i])
      ensures b[i] == b[j]
    {
      assert b[i] in multiset(a) && b[j] in multiset(a);
      var i' := IndexOf(a, b[i]);
      var j' := IndexOf(a, b[j]);
    }
  }

  /** Sorting forgets the order its input came in. */
  lemma SortIsOrderFree<T(!new)>(leq: (T, T) -> bool, a: seq<T>, b: seq<T>)
    requires Ordering(leq) && multiset(a) == multiset(b) && TieFree(leq, a)
    ensures Sort(leq, a) == Sort(leq, b)
  {
    SortContents(leq, a);
    SortContents(leq, b);
    SortSorts(leq, a);
    SortSorts(leq, b);
    TieFreeIsOrderFree(leq, a, Sort(leq, a));
    SortedArrangementIsUnique(leq, Sort(leq, a), Sort(leq, b));
  }

  lemma SortOfSorted<T(!new)>(leq: (T, T) -> bool, s: seq<T>)
    requires Ordering(leq) && Sorted(leq, s) && TieFree(leq, s)
    ensures Sort(leq, s) == s
  {
    SortContents(leq, s);
    SortSorts(leq, s);
    SortedArrangementIsUnique(leq, s, Sort(leq, s));
  }
}
