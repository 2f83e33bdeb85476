/** Part 1 of `solve_sailing_club`: the bookings are sorted by start time and
    folded, in one pass, into merged slots.  A booking is absorbed into the
    slot being grown when it starts no later than that slot ends, so closed
    intervals that merely touch, such as [1, 8] and [8, 10], are merged. */
module Merging {
  import opened Bookings
  import Sorting

  /** Sorting by the start time alone is a total preorder. */
  lemma StartLeIsTotalPreorder()
    ensures Sorting.TotalPreorder(StartLe)
  {
  }

  /** The stable sort of the bookings by start time. */
  function SortByStart(bookings: seq<Slot>): (r: seq<Slot>)
    ensures multiset(r) == multiset(bookings)
    ensures Sorting.SortedBy(r, StartLe)
  {
    StartLeIsTotalPreorder();
    Sorting.InsertionSortSorted(bookings, StartLe);
    Sorting.InsertionSort(bookings, StartLe)
  }

  /** The slot `cur` extended by a booking `next` that starts no later than it ends. */
  function Absorb(cur: Slot, next: Slot): (r: Slot)
    ensures r.start == cur.start
    ensures cur.end <= r.end && next.end <= r.end
    ensures r.end == cur.end || r.end == next.end
  {
    Slot(cur.start, if cur.end >= next.end then cur.end else next.end)
  }

  /** The fold over the sorted bookings: `cur` is the slot being grown and
      `rest` the bookings not yet visited.  Each finished slot ends strictly
      before the next one starts, whatever the input. */
  function MergeRun(cur: Slot, rest: seq<Slot>): (r: seq<Slot>)
    ensures 1 <= |r| <= |rest| + 1
    ensures r[0].start == cur.start && cur.end <= r[0].end
    ensures Separated(r)
    ensures StartSet(r) <= StartSet([cur] + rest)
    ensures EndSet(r) <= EndSet([cur] + rest)
    decreases |rest|
  {
    if |rest| == 0 then [cur]
    else if rest[0].start <= cur.end then
      var grown := Absorb(cur, rest[0]);
      assert forall b :: b in [grown] + rest[1..] ==> b == grown || b in rest;
      MergeRun(grown, rest[1..])
    else
      var tail := MergeRun(rest[0], rest[1..]);
      assert rest == [rest[0]] + rest[1..];
      SlotSetsConcat([cur], tail);
      SlotSetsConcat([cur], rest);
      [cur] + tail
  }

  /** The merged slots of `bookings`, sorted by start; empty for no bookings. */
  function MergeSlots(bookings: seq<Slot>): (r: seq<Slot>)
    ensures |r| == 0 <==> |bookings| == 0
    ensures |r| <= |bookings|
    ensures Separated(r)
    ensures StartSet(r) <= StartSet(bookings)
    ensures EndSet(r) <= EndSet(bookings)
  {
    var sorted := SortByStart(bookings);
    if |sorted| == 0 then []
    else
      assert sorted == [sorted[0]] + sorted[1..];
      assert forall b :: b in sorted <==> b in bookings by {
        forall b ensures b in sorted <==> b in multiset(bookings) {
          assert b in sorted <==> b in multiset(sorted);
        }
      }
      MergeRun(sorted[0], sorted[1..])
  }

  lemma SortedSplit(c: Slot, r: seq<Slot>)
    requires Sorting.SortedBy([c] + r, StartLe)
    ensures Sorting.SortedBy(r, StartLe)
    ensures forall j :: 0 <= j < |r| ==> c.start <= r[j].start
  {
    var s := [c] + r;
    forall j | 0 <= j < |r| ensures c.start <= r[j].start {
      assert r[j] == s[j + 1] && StartLe(s[0], s[j + 1]);
    }
    forall i, j | 0 <= i < j < |r| ensures StartLe(r[i], r[j]) {
      assert r[i] == s[i + 1] && r[j] == s[j + 1];
    }
  }

  lemma SortedJoin(c: Slot, r: seq<Slot>)
    requires Sorting.SortedBy(r, StartLe)
    requires forall j :: 0 <= j < |r| ==> c.start <= r[j].start
    ensures Sorting.SortedBy([c] + r, StartLe)
  {
    var s := [c] + r;
    forall i, j | 0 <= i < j < |s| ensures StartLe(s[i], s[j]) {
      assert s[j] == r[j - 1];
      if i > 0 {
        assert s[i] == r[i - 1];
      }
    }
  }

  lemma CoversSingle(x: Slot, t: real)
    ensures Covers([x], t) <==> x.start as real <= t <= x.end as real
  {
    if x.start as real <= t <= x.end as real {
      assert [x][0] == x;
    }
  }

  /** Absorbing a booking that starts inside the slot covers the union of both. */
  lemma AbsorbCovers(cur: Slot, next: Slot, t: real)
    requires cur.start <= next.start <= cur.end
    ensures Covers([Absorb(cur, next)], t) <==> Covers([cur], t) || Covers([next], t)
  {
    CoversSingle(Absorb(cur, next), t);
    CoversSingle(cur, t);
    CoversSingle(next, t);
  }

  /** On bookings sorted by start, the merged slots come out sorted by start. */
  lemma {:induction false} MergeRunSorted(cur: Slot, rest: seq<Slot>)
    requires Sorting.SortedBy([cur] + rest, StartLe)
    ensures Sorting.SortedBy(MergeRun(cur, rest), StartLe)
    decreases |rest|
  {
    if |rest| > 0 {
      SortedSplit(cur, rest);
      assert rest == [rest[0]] + rest[1..];
      SortedSplit(rest[0], rest[1..]);
      if rest[0].start <= cur.end {
        SortedJoin(Absorb(cur, rest[0]), rest[1..]);
        MergeRunSorted(Absorb(cur, rest[0]), rest[1..]);
      } else {
        MergeRunSorted(rest[0], rest[1..]);
        var tail := MergeRun(rest[0], rest[1..]);
        forall j | 0 <= j < |tail| ensures cur.start <= tail[j].start {
          if j > 0 {
            assert StartLe(tail[0], tail[j]);
          }
        }
        SortedJoin(cur, tail);
      }
    }
  }

  /** Well-formed bookings merge into well-formed slots. */
  lemma {:induction false} MergeRunWellFormed(cur: Slot, rest: seq<Slot>)
    requires WellFormed(cur) && AllWellFormed(rest)
    ensures AllWellFormed(MergeRun(cur, rest))
    decreases |rest|
  {
    if |rest| > 0 {
      assert WellFormed(rest[0]);
      if rest[0].start <= cur.end {
        MergeRunWellFormed(Absorb(cur, rest[0]), rest[1..]);
      } else {
        MergeRunWellFormed(rest[0], rest[1..]);
      }
    }
  }

  /** The fold covers exactly the instants its input covers.  No well-formedness
      is needed: a booking that ends before it starts covers nothing, and it is
      never the one that extends the slot being grown. */
  lemma {:induction false} MergeRunCovers(cur: Slot, rest: seq<Slot>, t: real)
    requires Sorting.SortedBy([cur] + rest, StartLe)
    ensures Covers([cur] + rest, t) <==> Covers(MergeRun(cur, rest), t)
    decreases |rest|
  {
    if |rest| == 0 {
      assert [cur] + rest == [cur];
    } else {
      SortedSplit(cur, rest);
      assert rest == [rest[0]] + rest[1..];
      SortedSplit(rest[0], rest[1..]);
      CoversConcat([cur], rest, t);
      CoversConcat([rest[0]], rest[1..], t);
      if rest[0].start <= cur.end {
        var grown := Absorb(cur, rest[0]);
        SortedJoin(grown, rest[1..]);
        MergeRunCovers(grown, rest[1..], t);
        CoversConcat([grown], rest[1..], t);
        AbsorbCovers(cur, rest[0], t);
      } else {
        MergeRunCovers(rest[0], rest[1..], t);
        CoversConcat([cur], MergeRun(rest[0], rest[1..]), t);
      }
    }
  }

  /** Slots that already have gaps between them are left as they are. */
  lemma {:induction false} MergeRunOfSeparated(cur: Slot, rest: seq<Slot>)
    requires Separated([cur] + rest)
    ensures MergeRun(cur, rest) == [cur] + rest
    decreases |rest|
  {
    if |rest| > 0 {
      var s := [cur] + rest;
      assert s[0].end < s[1].start;
      forall j | 0 <= j < |rest| - 1 ensures rest[j].end < rest[j + 1].start {
        assert rest[j] == s[j + 1] && rest[j + 1] == s[j + 2];
      }
      assert rest == [rest[0]] + rest[1..];
      MergeRunOfSeparated(rest[0], rest[1..]);
    }
  }

  /** In a canonical timetable every slot ends before every later slot starts. */
  lemma {:induction false} CanonicalChain(xs: seq<Slot>, i: int, j: int)
    requires Canonical(xs)
    requires 0 <= i < j < |xs|
    ensures xs[i].end < xs[j].start
    decreases j - i
  {
    if j > i + 1 {
      CanonicalChain(xs, i, j - 1);
      assert WellFormed(xs[j - 1]);
    }
  }

  /** Dropping the first slot of a canonical timetable leaves a canonical one. */
  lemma CanonicalTail(xs: seq<Slot>)
    requires Canonical(xs) && |xs| > 0
    ensures Canonical(xs[1..])
  {
    assert forall k :: 0 <= k < |xs| - 1 ==> xs[1..][k] == xs[k + 1];
  }

  /** How a canonical timetable covers an instant: by its first slot, or by the
      later slots, which all lie beyond the end of the first one. */
  lemma CanonicalCovers(xs: seq<Slot>, t: real)
    requires Canonical(xs) && |xs| > 0
    ensures Canonical(xs[1..])
    ensures Covers(xs, t) <==> (xs[0].start as real <= t <= xs[0].end as real) || Covers(xs[1..], t)
    ensures Covers(xs[1..], t) ==> (xs[0].end + 1) as real <= t
    ensures Covers(xs, t) ==> xs[0].start as real <= t
  {
    CanonicalTail(xs);
    assert xs == [xs[0]] + xs[1..];
    CoversConcat([xs[0]], xs[1..], t);
    CoversSingle(xs[0], t);
    assert WellFormed(xs[0]);
    if Covers(xs[1..], t) {
      var k :| 0 <= k < |xs[1..]| && xs[1..][k].start as real <= t <= xs[1..][k].end as real;
      CanonicalChain(xs, 0, k + 1);
    }
  }

  /** A canonical timetable is determined by the instants it covers: two of
      them that cover the same real instants are equal. */
  lemma {:induction false} CanonicalUnique(xs: seq<Slot>, ys: seq<Slot>)
    requires Canonical(xs) && Canonical(ys)
    requires forall t :: Covers(xs, t) <==> Covers(ys, t)
    ensures xs == ys
    decreases |xs|
  {
    // a non-empty timetable covers the start of its first slot
    if |xs| > 0 {
      assert WellFormed(xs[0]);
      assert Covers(xs, xs[0].start as real);
    }
    if |ys| > 0 {
      assert WellFormed(ys[0]);
      assert Covers(ys, ys[0].start as real);
    }
    if |xs| > 0 && |ys| > 0 {
      var a, b := xs[0], ys[0];
      assert WellFormed(a) && WellFormed(b);
      CanonicalCovers(xs, a.start as real);
      CanonicalCovers(ys, a.start as real);
      CanonicalCovers(xs, b.start as real);
      CanonicalCovers(ys, b.start as real);
      assert a.start == b.start;
      // the instant just after the shorter first slot ends separates the two ends
      CanonicalCovers(xs, a.end as real + 0.5);
      CanonicalCovers(ys, a.end as real + 0.5);
      CanonicalCovers(xs, b.end as real + 0.5);
      CanonicalCovers(ys, b.end as real + 0.5);
      assert a.end == b.end;
      forall t ensures Covers(xs[1..], t) <==> Covers(ys[1..], t) {
        CanonicalCovers(xs, t);
        CanonicalCovers(ys, t);
      }
      CanonicalCovers(xs, 0.0);
      CanonicalCovers(ys, 0.0);
      CanonicalUnique(xs[1..], ys[1..]);
      assert xs == [a] + xs[1..] && ys == [b] + ys[1..];
    }
  }

  /** The merged slots come out sorted by start time, whatever the input. */
  lemma MergeSlotsSorted(bookings: seq<Slot>)
    ensures Sorting.SortedBy(MergeSlots(bookings), StartLe)
  {
    var sorted := SortByStart(bookings);
    if |sorted| > 0 {
      assert sorted == [sorted[0]] + sorted[1..];
      MergeRunSorted(sorted[0], sorted[1..]);
    }
  }

  /** Well-formed bookings merge into a canonical timetable: well-formed slots,
      each ending strictly before the next starts, so starts strictly increase. */
  lemma MergeSlotsCanonical(bookings: seq<Slot>)
    requires AllWellFormed(bookings)
    ensures Canonical(MergeSlots(bookings))
    ensures forall i :: 0 <= i < |MergeSlots(bookings)| - 1 ==>
              MergeSlots(bookings)[i].start < MergeSlots(bookings)[i + 1].start
  {
    var sorted := SortByStart(bookings);
    if |sorted| > 0 {
      forall i | 0 <= i < |sorted| ensures WellFormed(sorted[i]) {
        assert sorted[i] in multiset(bookings);
      }
      MergeRunWellFormed(sorted[0], sorted[1..]);
      var r := MergeSlots(bookings);
      forall i | 0 <= i < |r| - 1 ensures r[i].start < r[i + 1].start {
        assert WellFormed(r[i]);
      }
    }
  }

  /** Merging loses and gains no instant: a real instant lies in some booking,
      read as a closed interval, exactly when it lies in some merged slot. */
  lemma MergeSlotsCovers(bookings: seq<Slot>)
    ensures forall t :: Covers(bookings, t) <==> Covers(MergeSlots(bookings), t)
  {
    var sorted := SortByStart(bookings);
    CoversPermutation(bookings, sorted);
    if |sorted| > 0 {
      assert sorted == [sorted[0]] + sorted[1..];
      forall t ensures Covers(sorted, t) <==> Covers(MergeSlots(bookings), t) {
        MergeRunCovers(sorted[0], sorted[1..], t);
      }
    }
  }

  /** The same for integer times, as the bookings of `solve_sailing_club` have integer times. */
  lemma MergeSlotsOccupies(bookings: seq<Slot>)
    ensures forall t :: Occupies(bookings, t) <==> Occupies(MergeSlots(bookings), t)
  {
    MergeSlotsCovers(bookings);
    forall t ensures Occupies(bookings, t) <==> Occupies(MergeSlots(bookings), t) {
      OccupiesIsCovers(bookings, t);
      OccupiesIsCovers(MergeSlots(bookings), t);
    }
  }

  /** Merging merged slots changes nothing.  This holds for every input, even
      bookings that end before they start, because the sort is stable. */
  lemma MergeSlotsIdempotent(bookings: seq<Slot>)
    ensures MergeSlots(MergeSlots(bookings)) == MergeSlots(bookings)
  {
    var m := MergeSlots(bookings);
    MergeSlotsSorted(bookings);
    Sorting.SortedIsFixpoint(m, StartLe);
    if |m| > 0 {
      assert m == [m[0]] + m[1..];
      MergeRunOfSeparated(m[0], m[1..]);
    }
  }

  /** For well-formed bookings the merged slots depend only on which bookings
      there are, not on the order in which they are given. */
  lemma MergeSlotsOrderIndependent(a: seq<Slot>, b: seq<Slot>)
    requires AllWellFormed(a)
    requires multiset(a) == multiset(b)
    ensures MergeSlots(a) == MergeSlots(b)
  {
    forall j | 0 <= j < |b| ensures WellFormed(b[j]) {
      assert b[j] in multiset(a);
    }
    MergeSlotsCanonical(a);
    MergeSlotsCanonical(b);
    MergeSlotsCovers(a);
    MergeSlotsCovers(b);
    CoversPermutation(a, b);
    CanonicalUnique(MergeSlots(a), MergeSlots(b));
  }

  /** Without well-formedness the order does matter: two bookings with the same
      start that both end before it are never absorbed, so the stable sort
      keeps them in input order. */
  lemma IllFormedOrderMatters()
    ensures MergeSlots([Slot(5, 1), Slot(5, 2)]) == [Slot(5, 1), Slot(5, 2)]
    ensures MergeSlots([Slot(5, 2), Slot(5, 1)]) == [Slot(5, 2), Slot(5, 1)]
  {
    var p, q := Slot(5, 1), Slot(5, 2);
    assert Sorting.SortedBy([p, q], StartLe);
    assert Sorting.SortedBy([q, p], StartLe);
    Sorting.SortedIsFixpoint([p, q], StartLe);
    Sorting.SortedIsFixpoint([q, p], StartLe);
    assert [p, q][1..] == [q] && [q, p][1..] == [p];
    assert MergeRun(p, [q]) == [p] + MergeRun(q, []);
    assert MergeRun(q, [p]) == [q] + MergeRun(p, []);
  }
}
