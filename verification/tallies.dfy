/** Sums of an integer-valued measure over a sequence.  Both the boat count
    (sums of +1/-1 event deltas) and the per-instant occupancy counts of the
    model are such sums, so their algebra is stated once here. */
module Tallies {

  /** The sum of `f` over the elements of `s`, in order. */
  function SumOf<T>(s: seq<T>, f: T -> int): int
  {
    if |s| == 0 then 0 else f(s[0]) + SumOf(s[1..], f)
  }

  /** The sum over one element is its term. */
  lemma SumOfSingleton<T>(x: T, f: T -> int)
    ensures SumOf([x], f) == f(x)
  {
    assert [x][1..] == [];
  }

  /** Sums split over concatenation. */
  lemma {:induction false} SumOfConcat<T>(a: seq<T>, b: seq<T>, f: T -> int)
    ensures SumOf(a + b, f) == SumOf(a, f) + SumOf(b, f)
    decreases |a|
  {
    if |a| == 0 {
      assert a + b == b;
    } else {
      assert (a + b)[1..] == a[1..] + b;
      SumOfConcat(a[1..], b, f);
    }
  }

  /** Removing one element from a sum subtracts its term. */
  lemma SumOfRemove<T>(b: seq<T>, j: int, f: T -> int)
    requires 0 <= j < |b|
    ensures SumOf(b, f) == f(b[j]) + SumOf(b[..j] + b[j + 1..], f)
  {
    assert b == b[..j] + ([b[j]] + b[j + 1..]);
    SumOfConcat(b[..j], [b[j]] + b[j + 1..], f);
    SumOfConcat(b[..j], b[j + 1..], f);
  }

  /** Dropping the element at `j` removes one copy of it from the multiset. */
  lemma MultisetRemove<T>(b: seq<T>, j: int)
    requires 0 <= j < |b|
    ensures multiset(b[..j] + b[j + 1..]) == multiset(b) - multiset{b[j]}
  {
    assert b == b[..j] + [b[j]] + b[j + 1..];
  }

  /** A sum depends only on the multiset of the elements summed. */
  lemma {:induction false} SumOfPermutation<T>(a: seq<T>, b: seq<T>, f: T -> int)
    requires multiset(a) == multiset(b)
    ensures SumOf(a, f) == SumOf(b, f)
    decreases |a|
  {
    if |a| == 0 {
      assert |b| == |multiset(b)| == 0;
    } else {
      var x := a[0];
      assert x in multiset(b);
      var j :| 0 <= j < |b| && b[j] == x;
      var rest := b[..j] + b[j + 1..];
      MultisetRemove(b, j);
      MultisetRemove(a, 0);
      assert a[..0] + a[1..] == a[1..];
      SumOfPermutation(a[1..], rest, f);
      SumOfRemove(b, j, f);
    }
  }

  /** Two measures that agree on every element have equal sums. */
  lemma {:induction false} SumOfPointwise<T>(s: seq<T>, f: T -> int, g: T -> int)
    requires forall i :: 0 <= i < |s| ==> f(s[i]) == g(s[i])
    ensures SumOf(s, f) == SumOf(s, g)
    decreases |s|
  {
    if |s| > 0 {
      SumOfPointwise(s[1..], f, g);
    }
  }

  /** A measure that is never negative has a sum that is at least each of its terms. */
  lemma {:induction false} SumOfAtLeastTerm<T>(s: seq<T>, f: T -> int, i: int)
    requires forall j :: 0 <= j < |s| ==> f(s[j]) >= 0
    requires 0 <= i < |s|
    ensures SumOf(s, f) >= f(s[i]) >= 0
    decreases |s|
  {
    SumOfNonnegative(s[1..], f);
    if i > 0 {
      SumOfAtLeastTerm(s[1..], f, i - 1);
    }
  }

  /** A measure that is never negative has a sum that is not negative. */
  lemma {:induction false} SumOfNonnegative<T>(s: seq<T>, f: T -> int)
    requires forall j :: 0 <= j < |s| ==> f(s[j]) >= 0
    ensures SumOf(s, f) >= 0
    decreases |s|
  {
    if |s| > 0 {
      SumOfNonnegative(s[1..], f);
    }
  }

  /** A measure that is never positive has a sum that is not positive. */
  lemma {:induction false} SumOfNonpositive<T>(s: seq<T>, f: T -> int)
    requires forall j :: 0 <= j < |s| ==> f(s[j]) <= 0
    ensures SumOf(s, f) <= 0
    decreases |s|
  {
    if |s| > 0 {
      SumOfNonpositive(s[1..], f);
    }
  }

  /** A measure that is at most one per element sums to at most the length. */
  lemma {:induction false} SumOfAtMostLength<T>(s: seq<T>, f: T -> int)
    requires forall j :: 0 <= j < |s| ==> f(s[j]) <= 1
    ensures SumOf(s, f) <= |s|
    decreases |s|
  {
    if |s| > 0 {
      SumOfAtMostLength(s[1..], f);
    }
  }
}
