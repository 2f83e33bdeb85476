/** A stable sort by a key comparison, as Python's `sorted` and `list.sort`
    are.  The comparison `le` plays the role of "key(a) <= key(b)". */
module Sorting {

  /** `le` is total and transitive, as comparing sort keys is. */
  ghost predicate TotalPreorder<T(!new)>(le: (T, T) -> bool)
  {
    && (forall a, b :: le(a, b) || le(b, a))
    && (forall a, b, c :: le(a, b) && le(b, c) ==> le(a, c))
  }

  /** Every element is `le` every later element. */
  predicate SortedBy<T>(s: seq<T>, le: (T, T) -> bool)
  {
    forall i, j :: 0 <= i < j < |s| ==> le(s[i], s[j])
  }

  /** `a` and `b` have equal keys. */
  predicate Equivalent<T>(le: (T, T) -> bool, a: T, b: T)
  {
    le(a, b) && le(b, a)
  }

  /** The elements of `s` whose key equals that of `c`, in their order in `s`. */
  function KeyClass<T>(s: seq<T>, c: T, le: (T, T) -> bool): seq<T>
  {
    if |s| == 0 then []
    else (if Equivalent(le, s[0], c) then [s[0]] else []) + KeyClass(s[1..], c, le)
  }

  /** Inserts `x` before the first element whose key is not below the key of `x`,
      so that `x` precedes the elements with an equal key. */
  function Insert<T(!new)>(x: T, s: seq<T>, le: (T, T) -> bool): (r: seq<T>)
    ensures multiset(r) == multiset(s) + multiset{x}
    decreases |s|
  {
    if |s| == 0 || le(x, s[0]) then [x] + s
    else
      assert s == [s[0]] + s[1..];
      [s[0]] + Insert(x, s[1..], le)
  }

  /** Inserting into a sorted sequence keeps it sorted. */
  lemma {:induction false} InsertSorted<T(!new)>(x: T, s: seq<T>, le: (T, T) -> bool)
    requires TotalPreorder(le)
    requires SortedBy(s, le)
    ensures SortedBy(Insert(x, s, le), le)
    decreases |s|
  {
    if |s| == 0 || le(x, s[0]) {
      var r := [x] + s;
      forall i, j | 0 <= i < j < |r| ensures le(r[i], r[j]) {
        if i == 0 && j > 1 {
          assert le(x, s[0]) && le(s[0], s[j - 1]);
        }
      }
    } else {
      var tail := Insert(x, s[1..], le);
      InsertSorted(x, s[1..], le);
      assert le(s[0], x);
      forall y | y in tail ensures le(s[0], y) {
        assert y in multiset(tail);
        assert y == x || y in multiset(s[1..]);
        if y != x {
          var k :| 0 <= k < |s[1..]| && s[1..][k] == y;
          assert s[k + 1] == y;
        }
      }
      var r := [s[0]] + tail;
      forall i, j | 0 <= i < j < |r| ensures le(r[i], r[j]) {
        if i == 0 {
          assert r[j] == tail[j - 1] && tail[j - 1] in tail;
        } else {
          assert r[i] == tail[i - 1] && r[j] == tail[j - 1];
        }
      }
    }
  }

  /** Insertion sort: sorted, a permutation of its input, and stable. */
  function InsertionSort<T(!new)>(s: seq<T>, le: (T, T) -> bool): (r: seq<T>)
    ensures multiset(r) == multiset(s)
    ensures |r| == |s|
    decreases |s|
  {
    if |s| == 0 then []
    else
      assert s == [s[0]] + s[1..];
      var r := Insert(s[0], InsertionSort(s[1..], le), le);
      assert |r| == |multiset(r)| == |s|;
      r
  }

  /** The insertion sort orders its output by any total preorder. */
  lemma {:induction false} InsertionSortSorted<T(!new)>(s: seq<T>, le: (T, T) -> bool)
    requires TotalPreorder(le)
    ensures SortedBy(InsertionSort(s, le), le)
    decreases |s|
  {
    if |s| > 0 {
      InsertionSortSorted(s[1..], le);
      InsertSorted(s[0], InsertionSort(s[1..], le), le);
    }
  }

  /** Sorting an already sorted sequence leaves it unchanged. */
  lemma {:induction false} SortedIsFixpoint<T(!new)>(s: seq<T>, le: (T, T) -> bool)
    requires SortedBy(s, le)
    ensures InsertionSort(s, le) == s
    decreases |s|
  {
    if |s| > 0 {
      SortedIsFixpoint(s[1..], le);
      assert s == [s[0]] + s[1..];
    }
  }

  lemma {:induction false} KeyClassConcat<T>(a: seq<T>, b: seq<T>, c: T, le: (T, T) -> bool)
    ensures KeyClass(a + b, c, le) == KeyClass(a, c, le) + KeyClass(b, c, le)
    decreases |a|
  {
    if |a| == 0 {
      assert a + b == b;
    } else {
      var head := if Equivalent(le, a[0], c) then [a[0]] else [];
      assert (a + b)[0] == a[0] && (a + b)[1..] == a[1..] + b;
      assert KeyClass(a + b, c, le) == head + KeyClass(a[1..] + b, c, le);
      assert KeyClass(a, c, le) == head + KeyClass(a[1..], c, le);
      KeyClassConcat(a[1..], b, c, le);
      assert head + (KeyClass(a[1..], c, le) + KeyClass(b, c, le))
          == (head + KeyClass(a[1..], c, le)) + KeyClass(b, c, le);
    }
  }

  /** Inserting keeps the relative order of elements with equal keys, `x` first. */
  lemma {:induction false} InsertKeepsKeyClass<T(!new)>(x: T, s: seq<T>, c: T, le: (T, T) -> bool)
    requires TotalPreorder(le)
    ensures KeyClass(Insert(x, s, le), c, le) == KeyClass([x] + s, c, le)
    decreases |s|
  {
    if |s| > 0 && !le(x, s[0]) {
      InsertKeepsKeyClass(x, s[1..], c, le);
      var tail := Insert(x, s[1..], le);
      KeyClassConcat([s[0]], tail, c, le);
      KeyClassConcat([x], s[1..], c, le);
      KeyClassConcat([x], s, c, le);
      assert s == [s[0]] + s[1..];
      KeyClassConcat([s[0]], s[1..], c, le);
      // x and s[0] cannot both have the key of c, since the key of s[0] is below that of x
      assert !(Equivalent(le, x, c) && Equivalent(le, s[0], c));
    }
  }

  /** The sort is stable: for every key, the elements carrying it appear in
      the output in the order they had in the input. */
  lemma {:induction false} InsertionSortIsStable<T(!new)>(s: seq<T>, c: T, le: (T, T) -> bool)
    requires TotalPreorder(le)
    ensures KeyClass(InsertionSort(s, le), c, le) == KeyClass(s, c, le)
    decreases |s|
  {
    if |s| > 0 {
      InsertionSortIsStable(s[1..], c, le);
      InsertKeepsKeyClass(s[0], InsertionSort(s[1..], le), c, le);
      KeyClassConcat([s[0]], InsertionSort(s[1..], le), c, le);
      KeyClassConcat([s[0]], s[1..], c, le);
      assert s == [s[0]] + s[1..];
    }
  }
}
