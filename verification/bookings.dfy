/** Bookings of the sailing club: each is a pair `[start, end]` of integer
    times.  The merge reads a booking as the closed interval [start, end];
    the boat count reads it as the half-open interval [start, end).  Both
    readings are defined here so that the difference is visible. */
module Bookings {
  import opened Tallies

  /** One booking (an input pair) or one merged slot (an output pair). */
  datatype Slot = Slot(start: int, end: int)

  /** The booking does not end before it starts.  Nothing in `solve_sailing_club`
      enforces this; only some of the properties depend on it. */
  predicate WellFormed(b: Slot)
  {
    b.start <= b.end
  }

  predicate AllWellFormed(bs: seq<Slot>)
  {
    forall i :: 0 <= i < |bs| ==> WellFormed(bs[i])
  }

  /** The sort key of the merge: the start time alone. */
  predicate StartLe(a: Slot, b: Slot)
  {
    a.start <= b.start
  }

  /** Some slot of `bs`, read as a closed interval, contains the real instant `t`. */
  ghost predicate Covers(bs: seq<Slot>, t: real)
  {
    exists i :: 0 <= i < |bs| && bs[i].start as real <= t <= bs[i].end as real
  }

  /** Some slot of `bs`, read as a closed interval, contains the integer time `t`. */
  ghost predicate Occupies(bs: seq<Slot>, t: int)
  {
    exists i :: 0 <= i < |bs| && bs[i].start <= t <= bs[i].end
  }

  /** Each slot ends strictly before the next one starts, so touching or
      overlapping slots never stand side by side. */
  predicate Separated(bs: seq<Slot>)
  {
    forall i :: 0 <= i < |bs| - 1 ==> bs[i].end < bs[i + 1].start
  }

  /** The shape of a merged timetable: well-formed slots with gaps between them. */
  predicate Canonical(bs: seq<Slot>)
  {
    AllWellFormed(bs) && Separated(bs)
  }

  /** The start times of the slots. */
  function StartSet(bs: seq<Slot>): set<int>
  {
    set b | b in bs :: b.start
  }

  /** The end times of the slots. */
  function EndSet(bs: seq<Slot>): set<int>
  {
    set b | b in bs :: b.end
  }

  /** Start and end sets distribute over concatenation. */
  lemma SlotSetsConcat(a: seq<Slot>, b: seq<Slot>)
    ensures StartSet(a + b) == StartSet(a) + StartSet(b)
    ensures EndSet(a + b) == EndSet(a) + EndSet(b)
  {
    assert forall x :: x in a + b <==> x in a || x in b;
  }

  /** 1 when booking `b`, read as half-open [start, end), holds a boat at time `t`. */
  function ActiveAt(t: int): Slot -> int
  {
    (b: Slot) => if b.start <= t < b.end then 1 else 0
  }

  /** The number of bookings holding a boat at time `t`, as half-open intervals. */
  function Active(bs: seq<Slot>, t: int): int
  {
    SumOf(bs, ActiveAt(t))
  }

  /** 1 when booking `b`, read as closed [start, end], contains time `t`. */
  function PresentAt(t: int): Slot -> int
  {
    (b: Slot) => if b.start <= t <= b.end then 1 else 0
  }

  /** The number of bookings whose closed interval contains time `t`. */
  function Present(bs: seq<Slot>, t: int): int
  {
    SumOf(bs, PresentAt(t))
  }

  /** The contribution of booking `b` to the boat counter once every event up to
      and including time `t` has been swept: +1 if it started, -1 if it ended. */
  function NetAt(t: int): Slot -> int
  {
    (b: Slot) => (if b.start <= t then 1 else 0) - (if b.end <= t then 1 else 0)
  }

  /** Bookings started by time `t` minus bookings ended by time `t`. */
  function Net(bs: seq<Slot>, t: int): int
  {
    SumOf(bs, NetAt(t))
  }

  /** For well-formed bookings the counter value at `t` is the half-open occupancy at `t`. */
  lemma NetIsActive(bs: seq<Slot>, t: int)
    requires AllWellFormed(bs)
    ensures Net(bs, t) == Active(bs, t)
  {
    forall i | 0 <= i < |bs| ensures NetAt(t)(bs[i]) == ActiveAt(t)(bs[i]) {
      assert WellFormed(bs[i]);
    }
    SumOfPointwise(bs, NetAt(t), ActiveAt(t));
  }

  /** The counter value at any time is at most the number of bookings. */
  lemma NetAtMostLength(bs: seq<Slot>, t: int)
    ensures Net(bs, t) <= |bs|
  {
    SumOfAtMostLength(bs, NetAt(t));
  }

  /** The counter value is never positive when no booking has positive length. */
  lemma NetNotPositive(bs: seq<Slot>, t: int)
    requires forall i :: 0 <= i < |bs| ==> bs[i].end <= bs[i].start
    ensures Net(bs, t) <= 0
  {
    forall i | 0 <= i < |bs| ensures NetAt(t)(bs[i]) <= 0 {
    }
    SumOfNonpositive(bs, NetAt(t));
  }

  /** A booking of positive length holds a boat at its own start time. */
  lemma ActiveAtStart(bs: seq<Slot>, i: int)
    requires 0 <= i < |bs| && bs[i].start < bs[i].end
    ensures Active(bs, bs[i].start) >= 1
  {
    SumOfAtLeastTerm(bs, ActiveAt(bs[i].start), i);
  }

  /** Reordering the bookings changes no counter value. */
  lemma NetPermutation(a: seq<Slot>, b: seq<Slot>, t: int)
    requires multiset(a) == multiset(b)
    ensures Net(a, t) == Net(b, t)
  {
    SumOfPermutation(a, b, NetAt(t));
  }

  /** Reordering the bookings changes no covered instant. */
  lemma CoversPermutation(a: seq<Slot>, b: seq<Slot>)
    requires multiset(a) == multiset(b)
    ensures forall t :: Covers(a, t) <==> Covers(b, t)
  {
    forall t | Covers(a, t) ensures Covers(b, t) {
      var i :| 0 <= i < |a| && a[i].start as real <= t <= a[i].end as real;
      assert a[i] in multiset(b);
      var j :| 0 <= j < |b| && b[j] == a[i];
    }
    forall t | Covers(b, t) ensures Covers(a, t) {
      var i :| 0 <= i < |b| && b[i].start as real <= t <= b[i].end as real;
      assert b[i] in multiset(a);
      var j :| 0 <= j < |a| && a[j] == b[i];
    }
  }

  /** Coverage distributes over concatenation. */
  lemma CoversConcat(a: seq<Slot>, b: seq<Slot>, t: real)
    ensures Covers(a + b, t) <==> Covers(a, t) || Covers(b, t)
  {
    if Covers(a + b, t) {
      var i :| 0 <= i < |a + b| && (a + b)[i].start as real <= t <= (a + b)[i].end as real;
      if i >= |a| {
        assert b[i - |a|] == (a + b)[i];
      }
    }
    if Covers(a, t) {
      var i :| 0 <= i < |a| && a[i].start as real <= t <= a[i].end as real;
      assert (a + b)[i] == a[i];
    }
    if Covers(b, t) {
      var i :| 0 <= i < |b| && b[i].start as real <= t <= b[i].end as real;
      assert (a + b)[i + |a|] == b[i];
    }
  }

  /** Integer times are covered exactly when they are covered as real instants. */
  lemma OccupiesIsCovers(bs: seq<Slot>, t: int)
    ensures Occupies(bs, t) <==> Covers(bs, t as real)
  {
    if Covers(bs, t as real) {
      var i :| 0 <= i < |bs| && bs[i].start as real <= t as real <= bs[i].end as real;
    }
  }
}
