/** `solve_sailing_club` in `sailing_club.py`: for one list of bookings, the
    merged slots and the minimum number of boats.  `SolveSailingClub` is the
    functional model; `Solve` follows that function's three loops step by step. */
module SailingClub {
  import opened Tallies
  import opened Bookings
  import opened Merging
  import opened Sweeping

  /** The pair returned for one list of bookings. */
  datatype Solution = Solution(sortedMergedSlots: seq<Slot>, minBoatsNeeded: int)

  /** No bookings give no slots and no boats.  Otherwise the merged slots are
      at least one and at most one per booking, are sorted by start, have gaps
      between them, take their endpoints from the bookings, cover
      exactly the instants the bookings cover, and the boat count is the
      largest counter value over time (or 0), between 0 and the number of bookings. */
  function SolveSailingClub(bookings: seq<Slot>): (r: Solution)
    ensures |bookings| == 0 ==> r == Solution([], 0)
    ensures |bookings| > 0 ==> 1 <= |r.sortedMergedSlots| <= |bookings|
    ensures Sorting.SortedBy(r.sortedMergedSlots, StartLe)
    ensures Separated(r.sortedMergedSlots)
    ensures StartSet(r.sortedMergedSlots) <= StartSet(bookings)
    ensures EndSet(r.sortedMergedSlots) <= EndSet(bookings)
    ensures forall t :: Covers(bookings, t) <==> Covers(r.sortedMergedSlots, t)
    ensures 0 <= r.minBoatsNeeded <= |bookings|
    ensures forall t :: Net(bookings, t) <= r.minBoatsNeeded
    ensures r.minBoatsNeeded == 0 || exists t :: Net(bookings, t) == r.minBoatsNeeded
  {
    if |bookings| == 0 then Solution([], 0)
    else
      MergeSlotsSorted(bookings);
      MergeSlotsCovers(bookings);
      MinBoatsIsMaxNet(bookings);
      MinBoatsBounds(bookings);
      Solution(MergeSlots(bookings), MinBoats(bookings))
  }

  /** The merge loop: the fold over the bookings sorted by start, one slot
      `[currentStart, currentEnd]` grown at a time. */
  method MergeLoop(sorted: seq<Slot>) returns (mergedSlots: seq<Slot>)
    requires |sorted| > 0
    ensures mergedSlots == MergeRun(sorted[0], sorted[1..])
  {
    mergedSlots := [];
    var currentStart, currentEnd := sorted[0].start, sorted[0].end;
    var i := 1;
    while i < |sorted|
      invariant 1 <= i <= |sorted|
      invariant mergedSlots + MergeRun(Slot(currentStart, currentEnd), sorted[i..]) == MergeRun(sorted[0], sorted[1..])
    {
      var next := sorted[i];
      assert sorted[i..] == [next] + sorted[i + 1..];
      if next.start <= currentEnd {
        currentEnd := if currentEnd >= next.end then currentEnd else next.end;
      } else {
        mergedSlots := mergedSlots + [Slot(currentStart, currentEnd)];
        currentStart, currentEnd := next.start, next.end;
      }
      i := i + 1;
    }
    mergedSlots := mergedSlots + [Slot(currentStart, currentEnd)];
  }

  /** The event loop: a (start, +1) and an (end, -1) event per booking, in booking order. */
  method EventLoop(bookings: seq<Slot>) returns (events: seq<Event>)
    ensures events == EventsOf(bookings)
  {
    events := [];
    var j := 0;
    while j < |bookings|
      invariant 0 <= j <= |bookings|
      invariant events == EventsOf(bookings[..j])
    {
      assert bookings[..j + 1][..j] == bookings[..j];
      events := events + [Event(bookings[j].start, 1), Event(bookings[j].end, -1)];
      j := j + 1;
    }
    assert bookings[..j] == bookings;
  }

  /** The sweep loop: the running counter and its maximum, both starting at 0. */
  method SweepLoop(events: seq<Event>) returns (minBoatsNeeded: int, currentBoats: int)
    ensures Tally(currentBoats, minBoatsNeeded) == SweepFrom(events, Tally(0, 0))
  {
    minBoatsNeeded := 0;
    currentBoats := 0;
    var k := 0;
    while k < |events|
      invariant 0 <= k <= |events|
      invariant SweepFrom(events[k..], Tally(currentBoats, minBoatsNeeded)) == SweepFrom(events, Tally(0, 0))
    {
      assert events[k..][1..] == events[k + 1..];
      currentBoats := currentBoats + events[k].delta;
      minBoatsNeeded := if minBoatsNeeded >= currentBoats then minBoatsNeeded else currentBoats;
      k := k + 1;
    }
  }

  /** The whole of `solve_sailing_club`, loop by loop.  It returns what
      `SolveSailingClub` specifies. */
  method Solve(bookings: seq<Slot>) returns (mergedSlots: seq<Slot>, minBoatsNeeded: int)
    ensures Solution(mergedSlots, minBoatsNeeded) == SolveSailingClub(bookings)
  {
    if |bookings| == 0 {
      return [], 0;
    }
    var sorted := SortByStart(bookings);
    mergedSlots := MergeLoop(sorted);
    var events := EventLoop(bookings);
    var currentBoats;
    minBoatsNeeded, currentBoats := SweepLoop(SortEvents(events));
  }

  // ----- worked cases: touching, chained, disjoint and zero-length bookings -----

  /** `[[1, 8], [8, 10]]`: the touching bookings merge into `[1, 10]`, and one
      boat suffices, although both closed intervals contain time 8.  The
      events at time 8 are sorted with the -1 first, so the boat freed at 8
      is taken again at 8; the comment beside that sort says the opposite. */
  lemma TouchingBookings()
    ensures SolveSailingClub([Slot(1, 8), Slot(8, 10)]) == Solution([Slot(1, 10)], 1)
    ensures Present([Slot(1, 8), Slot(8, 10)], 8) == 2
  {
    var bs := [Slot(1, 8), Slot(8, 10)];
    TouchingMerge();
    TouchingBoats();
    TwoTerms(bs, PresentAt(8));
  }

  lemma TouchingMerge()
    ensures MergeSlots([Slot(1, 8), Slot(8, 10)]) == [Slot(1, 10)]
  {
    var bs := [Slot(1, 8), Slot(8, 10)];
    assert Sorting.SortedBy(bs, StartLe);
    Sorting.SortedIsFixpoint(bs, StartLe);
    assert bs[1..] == [Slot(8, 10)];
    assert MergeRun(Slot(1, 8), [Slot(8, 10)]) == MergeRun(Slot(1, 10), []);
  }

  lemma TouchingBoats()
    ensures MinBoats([Slot(1, 8), Slot(8, 10)]) == 1
  {
    var bs := [Slot(1, 8), Slot(8, 10)];
    forall t ensures Active(bs, t) <= 1 {
      TwoTerms(bs, ActiveAt(t));
    }
    TwoTerms(bs, ActiveAt(1));
    MinBoatsAttained(bs, 1, 1);
  }

  /** A count reached at some time and never exceeded is the number of boats. */
  lemma MinBoatsAttained(bs: seq<Slot>, p: int, at: int)
    requires AllWellFormed(bs)
    requires forall t :: Active(bs, t) <= p
    requires Active(bs, at) == p
    ensures MinBoats(bs) == p
  {
    MinBoatsIsMaxActive(bs);
    MinBoatsBounds(bs);
    NetIsActive(bs, at);
    SumOfNonnegative(bs, ActiveAt(at));
  }

  /** `[[1, 5], [4, 8], [7, 10]]`: one merged slot `[1, 10]` but only two
      boats, since the first booking is over before the third begins: no time
      lies in all three. */
  lemma OverlappingChain()
    ensures SolveSailingClub([Slot(1, 5), Slot(4, 8), Slot(7, 10)]) == Solution([Slot(1, 10)], 2)
    ensures forall t :: Present([Slot(1, 5), Slot(4, 8), Slot(7, 10)], t) <= 2
  {
    ChainMerge();
    ChainBoats();
    ChainPresent();
  }

  lemma ChainMerge()
    ensures MergeSlots([Slot(1, 5), Slot(4, 8), Slot(7, 10)]) == [Slot(1, 10)]
  {
    var bs := [Slot(1, 5), Slot(4, 8), Slot(7, 10)];
    assert Sorting.SortedBy(bs, StartLe);
    Sorting.SortedIsFixpoint(bs, StartLe);
    assert bs[1..] == [Slot(4, 8), Slot(7, 10)];
    assert [Slot(4, 8), Slot(7, 10)][1..] == [Slot(7, 10)];
    assert MergeRun(Slot(1, 8), [Slot(7, 10)]) == MergeRun(Slot(1, 10), []);
    assert MergeRun(Slot(1, 5), [Slot(4, 8), Slot(7, 10)]) == MergeRun(Slot(1, 8), [Slot(7, 10)]);
  }

  lemma ChainPresent()
    ensures forall t :: Present([Slot(1, 5), Slot(4, 8), Slot(7, 10)], t) <= 2
  {
    var bs := [Slot(1, 5), Slot(4, 8), Slot(7, 10)];
    forall t ensures Present(bs, t) <= 2 {
      ThreeTerms(bs, PresentAt(t));
    }
  }

  lemma ChainBoats()
    ensures MinBoats([Slot(1, 5), Slot(4, 8), Slot(7, 10)]) == 2
  {
    var bs := [Slot(1, 5), Slot(4, 8), Slot(7, 10)];
    forall t ensures Active(bs, t) <= 2 {
      ThreeTerms(bs, ActiveAt(t));
    }
    ThreeTerms(bs, ActiveAt(4));
    MinBoatsAttained(bs, 2, 4);
  }

  /** `[[1, 3], [5, 7]]`: two separate slots and one boat. */
  lemma DisjointBookings()
    ensures SolveSailingClub([Slot(1, 3), Slot(5, 7)]) == Solution([Slot(1, 3), Slot(5, 7)], 1)
  {
    DisjointMerge();
    DisjointBoats();
  }

  lemma DisjointMerge()
    ensures MergeSlots([Slot(1, 3), Slot(5, 7)]) == [Slot(1, 3), Slot(5, 7)]
  {
    var bs := [Slot(1, 3), Slot(5, 7)];
    assert Sorting.SortedBy(bs, StartLe);
    Sorting.SortedIsFixpoint(bs, StartLe);
    assert bs[1..] == [Slot(5, 7)];
    assert MergeRun(Slot(1, 3), [Slot(5, 7)]) == [Slot(1, 3)] + MergeRun(Slot(5, 7), []);
  }

  lemma DisjointBoats()
    ensures MinBoats([Slot(1, 3), Slot(5, 7)]) == 1
  {
    var bs := [Slot(1, 3), Slot(5, 7)];
    forall t ensures Active(bs, t) <= 1 {
      TwoTerms(bs, ActiveAt(t));
    }
    TwoTerms(bs, ActiveAt(1));
    MinBoatsAttained(bs, 1, 1);
  }

  /** A single zero-length booking `[[4, 4]]` is kept as a slot but needs no boat. */
  lemma ZeroLengthBooking()
    ensures SolveSailingClub([Slot(4, 4)]) == Solution([Slot(4, 4)], 0)
  {
    var bs := [Slot(4, 4)];
    assert Sorting.SortedBy(bs, StartLe);
    Sorting.SortedIsFixpoint(bs, StartLe);
    MinBoatsWithoutLength(bs);
  }

  lemma TwoTerms(bs: seq<Slot>, f: Slot -> int)
    requires |bs| == 2
    ensures SumOf(bs, f) == f(bs[0]) + f(bs[1])
  {
    assert bs == [bs[0]] + [bs[1]];
    SumOfConcat([bs[0]], [bs[1]], f);
    SumOfSingleton(bs[0], f);
    SumOfSingleton(bs[1], f);
  }

  lemma ThreeTerms(bs: seq<Slot>, f: Slot -> int)
    requires |bs| == 3
    ensures SumOf(bs, f) == f(bs[0]) + f(bs[1]) + f(bs[2])
  {
    assert bs == [bs[0]] + bs[1..];
    SumOfConcat([bs[0]], bs[1..], f);
    SumOfSingleton(bs[0], f);
    TwoTerms(bs[1..], f);
  }
}
