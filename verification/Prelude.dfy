/** Failure-compatible results and small sequence vocabulary shared by every component. */
module Prelude {

  datatype Option<+T> = None | Some(value: T) {
    predicate IsFailure() {
      None?
    }

    function PropagateFailure<U>(): Option<U>
      requires None?
    {
      None
    }

    function Extract(): T
      requires Some?
    {
      value
    }
  }

  datatype Result<+T, +E> = Success(value: T) | Failure(error: E) {
    predicate IsFailure() {
      Failure?
    }

    function PropagateFailure<U>(): Result<U, E>
      requires Failure?
    {
      Failure(error)
    }

    function Extract(): T
      requires Success?
    {
      value
    }
  }

  /** No value occurs twice. */
  predicate Distinct<T(==)>(s: seq<T>) {
    forall i, j :: 0 <= i < j < |s| ==> s[i] != s[j]
  }

  lemma DistinctAppend<T>(s: seq<T>, x: T)
    requires Distinct(s) && x !in s
    ensures Distinct(s + [x])
  {
  }

  /** Instants are whole microseconds, the resolution of the source's timestamps. */
  type Instant = int

  /** Removing one occurrence from a sequence removes exactly it from the multiset. */
  lemma RemoveAt<T>(s: seq<T>, i: nat)
    requires i < |s|
    ensures multiset(s) == multiset(s[..i] + s[i + 1..]) + multiset{s[i]}
  {
    assert s == s[..i] + [s[i]] + s[i + 1..];
  }

  lemma SplitFirst<T>(s: seq<T>)
    requires |s| > 0
    ensures multiset(s) == multiset{s[0]} + multiset(s[1..])
  {
    assert s == [s[0]] + s[1..];
  }

  lemma IndexOf<T>(s: seq<T>, x: T) returns (i: nat)
    requires x in multiset(s)
    ensures i < |s| && s[i] == x
  {
    i :| 0 <= i < |s| && s[i] == x;
  }

  /** A rearrangement holds the first value somewhere, and its rest rearranges the rest. */
  lemma MatchFirst<T>(a: seq<T>, b: seq<T>) returns (k: nat)
    requires multiset(a) == multiset(b) && a != []
    ensures k < |b| && b[k] == a[0] && multiset(a[1..]) == multiset(b[..k] + b[k + 1..])
  {
    assert a[0] in multiset(b);
    k := IndexOf(b, a[0]);
    RemoveAt(b, k);
    SplitFirst(a);
    assert multiset(a[1..]) == multiset(a) - multiset{a[0]};
  }

  /** Rearranging a sequence rearranges the element-wise images of it. */
  lemma {:induction false} PermutedImages<T, R>(a: seq<T>, b: seq<T>, fa: seq<R>, fb: seq<R>)
    requires multiset(a) == multiset(b) && |fa| == |a| && |fb| == |b|
    requires forall i, j :: 0 <= i < |a| && 0 <= j < |b| && a[i] == b[j] ==> fa[i] == fb[j]
    ensures multiset(fa) == multiset(fb)
    decreases |a|
  {
    assert |a| == |multiset(a)| == |multiset(b)| == |b|;
    if |a| == 0 {
      assert fa == [] && fb == [];
    } else {
      var k := MatchFirst(a, b);
      var b', fb' := b[..k] + b[k + 1..], fb[..k] + fb[k + 1..];
      RemoveAt(fb, k);
      SplitFirst(fa);
      PermutedImages(a[1..], b', fa[1..], fb');
    }
  }

  /** Distinctness is a property of the contents, not of their order. */
  lemma {:induction false} DistinctIsOrderFree<T>(a: seq<T>, b: seq<T>)
    requires multiset(a) == multiset(b) && Distinct(a)
    ensures Distinct(b)
  {
    forall i, j | 0 <= i < j < |b|
      ensures b[i] != b[j]
    {
      if b[i] == b[j] {
        RemoveAt(b, j);
        assert b[i] in b[..j] + b[j + 1..] by { assert (b[..j] + b[j + 1..])[i] == b[i]; }
        assert multiset(a)[b[i]] >= 2;
        TwiceIsNotDistinct(a, b[i]);
      }
    }
  }

  lemma TwiceIsNotDistinct<T>(a: seq<T>, x: T)
    requires multiset(a)[x] >= 2
    ensures !Distinct(a)
  {
    var i := IndexOf(a, x);
    RemoveAt(a, i);
    var rest := a[..i] + a[i + 1..];
    var k := IndexOf(rest, x);
    var k' := if k < i then k else k + 1;
    assert a[k'] == x && k' != i;
  }

  /** Comparing the number of values with the length finds repetitions. */
  lemma {:induction false} DistinctIffCounted<T>(s: seq<T>)
    ensures |set x | x in s| <= |s|
    ensures |set x | x in s| == |s| <==> Distinct(s)
  {
    if s != [] {
      var n := |s| - 1;
      var front, all := set x | x in s[..n], set x | x in s;
      DistinctIffCounted(s[..n]);
      assert s == s[..n] + [s[n]];
      assert all == front + {s[n]};
      if s[n] in front {
        assert all == front;
      } else {
        assert Distinct(s[..n]) ==> Distinct(s);
      }
    }
  }
}
