/** Part 2 of `solve_sailing_club`: every booking becomes a +1 event at its
    start and a -1 event at its end, the events are sorted by the key
    (time, delta), and a running counter is swept over them while its
    maximum is kept.  With that key a -1 precedes a +1 at the same time, so
    a boat freed at time t can be taken again at t: the count treats each
    booking as the half-open interval [start, end). */
module Sweeping {
  import opened Tallies
  import opened Bookings
  import Sorting

  /** A timeline event: at `time` the number of busy boats changes by `delta`. */
  datatype Event = Event(time: int, delta: int)

  /** The sort key of the events: time first, then delta. */
  predicate EventLe(a: Event, b: Event)
  {
    a.time < b.time || (a.time == b.time && a.delta <= b.delta)
  }

  lemma EventLeIsTotalPreorder()
    ensures Sorting.TotalPreorder(EventLe)
  {
  }

  /** The events of the bookings, in booking order: (start, +1) then (end, -1). */
  function EventsOf(bookings: seq<Slot>): (r: seq<Event>)
    ensures |r| == 2 * |bookings|
    ensures forall i :: 0 <= i < |bookings| ==>
      r[2 * i] == Event(bookings[i].start, 1) && r[2 * i + 1] == Event(bookings[i].end, -1)
    decreases |bookings|
  {
    if |bookings| == 0 then []
    else
      var last := bookings[|bookings| - 1];
      EventsOf(bookings[..|bookings| - 1]) + [Event(last.start, 1), Event(last.end, -1)]
  }

  /** The events sorted by (time, delta). */
  function SortEvents(events: seq<Event>): (r: seq<Event>)
    ensures multiset(r) == multiset(events)
    ensures Sorting.SortedBy(r, EventLe)
  {
    EventLeIsTotalPreorder();
    Sorting.InsertionSortSorted(events, EventLe);
    Sorting.InsertionSort(events, EventLe)
  }

  function DeltaOf(e: Event): int
  {
    e.delta
  }

  /** The sum of the deltas of the events. */
  function DeltaSum(events: seq<Event>): int
  {
    SumOf(events, DeltaOf)
  }

  /** The delta of an event if it happens at or before time `t`, else 0. */
  function DeltaUpTo(t: int): Event -> int
  {
    (e: Event) => if e.time <= t then e.delta else 0
  }

  /** The counter once every event at or before time `t` has been applied. */
  function Timeline(events: seq<Event>, t: int): int
  {
    SumOf(events, DeltaUpTo(t))
  }

  /** The two variables of the sweep: the running counter `current` and the
      largest value it has reached, `peak`. */
  datatype Tally = Tally(current: int, peak: int)

  /** The sweep over `events` from state `st`.  The counter ends at its start
      value plus the sum of the deltas, and the peak never decreases. */
  function SweepFrom(events: seq<Event>, st: Tally): (r: Tally)
    ensures r.current == st.current + DeltaSum(events)
    ensures st.peak <= r.peak
    decreases |events|
  {
    if |events| == 0 then st
    else
      var current := st.current + events[0].delta;
      SweepFrom(events[1..], Tally(current, if st.peak >= current then st.peak else current))
  }

  /** The state after sweeping the sorted events of `bookings` from (0, 0).
      Every booking frees the boat it took, so the counter ends back at 0. */
  function SweepBookings(bookings: seq<Slot>): (r: Tally)
    ensures r.current == 0
    ensures 0 <= r.peak
  {
    var events := EventsOf(bookings);
    EventsBalanced(bookings);
    SumOfPermutation(SortEvents(events), events, DeltaOf);
    SweepFrom(SortEvents(events), Tally(0, 0))
  }

  /** The minimum number of boats needed: the peak of the sweep.  Its meaning
      is given by `MinBoatsIsMaxNet` and `MinBoatsIsMaxActive` below. */
  function MinBoats(bookings: seq<Slot>): (r: int)
    ensures 0 <= r
  {
    SweepBookings(bookings).peak
  }

  // ----- the sweep computes the largest prefix sum -----

  lemma PrefixStep(events: seq<Event>, k: int)
    requires 0 < k <= |events|
    ensures DeltaSum(events[..k]) == events[0].delta + DeltaSum(events[1..][..k - 1])
  {
    assert events[..k][1..] == events[1..][..k - 1];
  }

  /** The peak is at least the counter after every non-empty prefix of the
      events, and it is either the starting peak or one of those values. */
  lemma {:induction false} SweepFromIsMaxPrefix(events: seq<Event>, st: Tally)
    ensures forall k :: 0 < k <= |events| ==>
              st.current + DeltaSum(events[..k]) <= SweepFrom(events, st).peak
    ensures SweepFrom(events, st).peak == st.peak
            || exists k :: 0 < k <= |events| && SweepFrom(events, st).peak == st.current + DeltaSum(events[..k])
    decreases |events|
  {
    if |events| > 0 {
      var current := st.current + events[0].delta;
      var next := Tally(current, if st.peak >= current then st.peak else current);
      var r := SweepFrom(events, st);
      assert r == SweepFrom(events[1..], next);
      SweepFromIsMaxPrefix(events[1..], next);
      forall k | 0 < k <= |events| ensures st.current + DeltaSum(events[..k]) <= r.peak {
        PrefixStep(events, k);
        assert DeltaSum(events[..1][1..]) == 0;
      }
      if r.peak != st.peak {
        if r.peak == next.peak {
          PrefixStep(events, 1);
          assert r.peak == st.current + DeltaSum(events[..1]);
        } else {
          var k :| 0 < k <= |events| - 1 && r.peak == current + DeltaSum(events[1..][..k]);
          PrefixStep(events, k + 1);
          assert r.peak == st.current + DeltaSum(events[..k + 1]);
        }
      }
    }
  }

  // ----- on sorted events, the prefixes that matter end where a time ends -----

  lemma {:induction false} TimelineBeyond(events: seq<Event>, t: int)
    requires forall i :: 0 <= i < |events| ==> events[i].time > t
    ensures Timeline(events, t) == 0
    decreases |events|
  {
    if |events| > 0 {
      TimelineBeyond(events[1..], t);
    }
  }

  /** On sorted events, the events at or before time `t` form a prefix, and
      the counter after that prefix is `Timeline(events, t)`. */
  lemma {:induction false} PrefixUpTo(events: seq<Event>, t: int) returns (k: nat)
    requires Sorting.SortedBy(events, EventLe)
    ensures k <= |events|
    ensures forall i :: 0 <= i < k ==> events[i].time <= t
    ensures forall i :: k <= i < |events| ==> events[i].time > t
    ensures Timeline(events, t) == DeltaSum(events[..k])
    decreases |events|
  {
    if |events| == 0 || events[0].time > t {
      forall i | 0 <= i < |events| ensures events[i].time > t {
        if i > 0 {
          assert EventLe(events[0], events[i]);
        }
      }
      TimelineBeyond(events, t);
      k := 0;
    } else {
      var k' := PrefixUpTo(events[1..], t);
      k := k' + 1;
      PrefixStep(events, k);
    }
  }

  lemma DeltaSumSplit(events: seq<Event>, k: int, c: int)
    requires 0 <= k <= c <= |events|
    ensures DeltaSum(events[..c]) == DeltaSum(events[..k]) + DeltaSum(events[k..c])
  {
    assert events[..c] == events[..k] + events[k..c];
    SumOfConcat(events[..k], events[k..c], DeltaOf);
  }

  /** The sweep over sorted events from (0, 0) ends with, as its peak, the
      largest counter value at any time, or 0 if that value is never positive. */
  lemma SweepPeakIsMaxTimeline(events: seq<Event>)
    requires Sorting.SortedBy(events, EventLe)
    ensures SweepFrom(events, Tally(0, 0)).peak >= 0
    ensures forall t :: Timeline(events, t) <= SweepFrom(events, Tally(0, 0)).peak
    ensures SweepFrom(events, Tally(0, 0)).peak == 0
            || exists t :: Timeline(events, t) == SweepFrom(events, Tally(0, 0)).peak
  {
    var p := SweepFrom(events, Tally(0, 0)).peak;
    SweepFromIsMaxPrefix(events, Tally(0, 0));
    forall t ensures Timeline(events, t) <= p {
      var k := PrefixUpTo(events, t);
    }
    if p != 0 {
      var k :| 0 < k <= |events| && p == DeltaSum(events[..k]);
      // the last event of the best prefix cannot lower the counter, else the
      // shorter prefix (or the start, 0) would be higher still
      DeltaSumSplit(events, k - 1, k);
      assert events[k - 1..k] == [events[k - 1]];
      SumOfSingleton(events[k - 1], DeltaOf);
      assert DeltaSum(events[..0]) == 0;
      assert events[k - 1].delta >= 0;
      var t := events[k - 1].time;
      var c := PrefixUpTo(events, t);
      DeltaSumSplit(events, k, c);
      forall j | 0 <= j < |events[k..c]| ensures DeltaOf(events[k..c][j]) >= 0 {
        assert events[k..c][j] == events[k + j];
        assert EventLe(events[k - 1], events[k + j]);
      }
      SumOfNonnegative(events[k..c], DeltaOf);
      assert Timeline(events, t) == p;
    }
  }

  // ----- from events back to bookings -----

  /** The counter at time `t`, read off the events of the bookings, is the
      number of bookings started by `t` minus the number ended by `t`. */
  lemma {:induction false} EventsTimeline(bookings: seq<Slot>, t: int)
    ensures Timeline(EventsOf(bookings), t) == Net(bookings, t)
    decreases |bookings|
  {
    if |bookings| > 0 {
      var n := |bookings| - 1;
      var last := bookings[n];
      var pair := [Event(last.start, 1), Event(last.end, -1)];
      EventsTimeline(bookings[..n], t);
      SumOfConcat(EventsOf(bookings[..n]), pair, DeltaUpTo(t));
      assert pair == [pair[0]] + [pair[1]];
      SumOfConcat([pair[0]], [pair[1]], DeltaUpTo(t));
      SumOfSingleton(pair[0], DeltaUpTo(t));
      SumOfSingleton(pair[1], DeltaUpTo(t));
      assert bookings == bookings[..n] + [last];
      SumOfConcat(bookings[..n], [last], NetAt(t));
      SumOfSingleton(last, NetAt(t));
    }
  }

  /** Every booking frees exactly the boat it took: the deltas cancel. */
  lemma {:induction false} EventsBalanced(bookings: seq<Slot>)
    ensures DeltaSum(EventsOf(bookings)) == 0
    decreases |bookings|
  {
    if |bookings| > 0 {
      var n := |bookings| - 1;
      var last := bookings[n];
      var pair := [Event(last.start, 1), Event(last.end, -1)];
      EventsBalanced(bookings[..n]);
      SumOfConcat(EventsOf(bookings[..n]), pair, DeltaOf);
      assert pair == [pair[0]] + [pair[1]];
      SumOfConcat([pair[0]], [pair[1]], DeltaOf);
      SumOfSingleton(pair[0], DeltaOf);
      SumOfSingleton(pair[1], DeltaOf);
    }
  }

  /** For every input, even bookings that end before they start, the number of
      boats is the largest value of `Net` over all integer times, or 0 when
      that is never positive. */
  lemma MinBoatsIsMaxNet(bookings: seq<Slot>)
    ensures MinBoats(bookings) >= 0
    ensures forall t :: Net(bookings, t) <= MinBoats(bookings)
    ensures MinBoats(bookings) == 0 || exists t :: Net(bookings, t) == MinBoats(bookings)
  {
    var events := SortEvents(EventsOf(bookings));
    SweepPeakIsMaxTimeline(events);
    forall t ensures Timeline(events, t) == Net(bookings, t) {
      SumOfPermutation(events, EventsOf(bookings), DeltaUpTo(t));
      EventsTimeline(bookings, t);
    }
  }

  /** For well-formed bookings, the number of boats is the largest number of
      bookings holding a boat at one integer time, each booking holding it
      over the half-open interval [start, end); 0 when there is no such time. */
  lemma MinBoatsIsMaxActive(bookings: seq<Slot>)
    requires AllWellFormed(bookings)
    ensures forall t :: Active(bookings, t) <= MinBoats(bookings)
    ensures MinBoats(bookings) == 0 || exists t :: Active(bookings, t) == MinBoats(bookings)
  {
    MinBoatsIsMaxNet(bookings);
    forall t ensures Net(bookings, t) == Active(bookings, t) {
      NetIsActive(bookings, t);
    }
  }

  /** The number of boats is never negative and never more than the bookings. */
  lemma MinBoatsBounds(bookings: seq<Slot>)
    ensures 0 <= MinBoats(bookings) <= |bookings|
  {
    MinBoatsIsMaxNet(bookings);
    if MinBoats(bookings) != 0 {
      var t :| Net(bookings, t) == MinBoats(bookings);
      NetAtMostLength(bookings, t);
    }
  }

  /** Bookings of no positive length, such as a single [t, t], need no boat. */
  lemma MinBoatsWithoutLength(bookings: seq<Slot>)
    requires forall i :: 0 <= i < |bookings| ==> bookings[i].end <= bookings[i].start
    ensures MinBoats(bookings) == 0
  {
    MinBoatsIsMaxNet(bookings);
    if MinBoats(bookings) != 0 {
      var t :| Net(bookings, t) == MinBoats(bookings);
      NetNotPositive(bookings, t);
    }
  }

  /** Well-formed bookings need a boat exactly when one of them has positive length. */
  lemma MinBoatsPositive(bookings: seq<Slot>)
    requires AllWellFormed(bookings)
    ensures MinBoats(bookings) >= 1 <==> exists i :: 0 <= i < |bookings| && bookings[i].start < bookings[i].end
  {
    MinBoatsIsMaxActive(bookings);
    MinBoatsBounds(bookings);
    if i :| 0 <= i < |bookings| && bookings[i].start < bookings[i].end {
      ActiveAtStart(bookings, i);
    } else {
      MinBoatsWithoutLength(bookings);
    }
  }

  /** The number of boats does not depend on the order of the bookings. */
  lemma MinBoatsOrderIndependent(a: seq<Slot>, b: seq<Slot>)
    requires multiset(a) == multiset(b)
    ensures MinBoats(a) == MinBoats(b)
  {
    MinBoatsIsMaxNet(a);
    MinBoatsIsMaxNet(b);
    forall t ensures Net(a, t) == Net(b, t) {
      NetPermutation(a, b, t);
    }
    if MinBoats(a) != 0 {
      var t :| Net(a, t) == MinBoats(a);
    }
    if MinBoats(b) != 0 {
      var t :| Net(b, t) == MinBoats(b);
    }
  }
}
