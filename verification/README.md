# Sailing club bookings: merged slots and minimum boats

This project is a Dafny model of `solve_sailing_club`, the core of the sailing
club service. It takes one list of bookings. Each booking is an integer pair
`[start, end]`. The function returns two things:

1. **Merged slots.** The bookings are stably sorted by start time. One pass then
   folds them into disjoint slots. A booking is absorbed into the slot being grown
   when `next_start <= current_end`, so the merge reads a booking as the
   **closed** interval `[start, end]`. Touching bookings such as `[1, 8]` and
   `[8, 10]` merge into `[1, 10]`.
2. **Minimum boats.** Each booking becomes a `(start, +1)` event and an
   `(end, -1)` event. The events are sorted by the key `(time, delta)`. A running
   counter is swept over them, and its maximum is kept, starting from 0. With this
   key a `-1` comes before a `+1` at the same time. The count therefore reads a
   booking as the **half-open** interval `[start, end)`: a boat freed at time `t`
   can be taken again at `t`.

The two halves read the same pair differently. The model defines both readings
in `Bookings`: `Covers`/`Occupies`/`Present` are closed, and `Active` is
half-open. The touching case is stated as a lemma.

Modules, one file each:

- `Tallies` (`tallies.dfy`): sums of an integer measure over a sequence. Covers
  concatenation, permutation and bounds.
- `Sorting` (`sorting.dfy`): a stable insertion sort by a key comparison. This is
  what Python's `sorted` and `list.sort` compute. It is proved sorted, a
  permutation and stable.
- `Bookings` (`bookings.dfy`): the `Slot` pair, well-formedness (`start <= end`),
  coverage of an instant, and per-time counts.
- `Merging` (`merging.dfy`): the merge (`sailing_club.py:36-52`) and its properties.
- `Sweeping` (`sweeping.dfy`): the events, their sort and the sweep (`sailing_club.py:56-70`),
  and their properties.
- `SailingClub` (`sailing_club.dfy`): contains
  - `SolveSailingClub`, the whole function (`sailing_club.py:24-72`);
  - the method `Solve`, which follows the three loops of `solve_sailing_club` one by one and is
    proved equal to `SolveSailingClub`;
  - the worked cases.

Two cases deserve a note:

- **Tie-break.** The comment at `sailing_club.py:61-62` says start events are
  processed before end events at equal times. The key at line 63 sorts `-1`
  before `+1`, so end events come first, and the model follows the key.
  `[[1, 8], [8, 10]]` therefore needs **1** boat, not 2. `SailingClub.TouchingBookings`
  proves this, together with the fact that both closed intervals contain time 8.
- **Chain of overlaps.** `[[1, 5], [4, 8], [7, 10]]` merges into one slot but
  needs only **2** boats: `[1, 5]` is over before `[7, 10]` starts, so no time
  lies in all three bookings. `SailingClub.OverlappingChain` proves both facts.

## Model

| member | source | states |
|---|---|---|
| `Sorting.InsertionSort` | sailing_club.py:36 | the sorted list is a permutation of the input: same multiset, same length |
| `Sorting.InsertionSortSorted` | sailing_club.py:36 | for any total, transitive key comparison, every element is `<=` every later one |
| `Sorting.InsertionSortIsStable` | sailing_club.py:36 | for every key, the elements with that key keep their input order |
| `Sorting.SortedIsFixpoint` | sailing_club.py:36 | sorting an already sorted list returns it unchanged |
| `Merging.SortByStart` | sailing_club.py:36 | `sorted(bookings, key=start)` is ordered by start and is a permutation of the bookings |
| `Merging.StartLeIsTotalPreorder` | sailing_club.py:36 | the key `start` orders every pair of bookings and is transitive, so the sort by it is well defined |
| `Merging.Absorb` | sailing_club.py:43-45 | an absorbed booking keeps the slot's start and sets its end to the larger of the two ends |
| `Merging.MergeRun` | sailing_club.py:40-52 | the fold emits at least one and at most one slot per booking visited; the first slot keeps the current start and does not shrink its end; each slot ends strictly before the next starts; every start and end is one of the input's |
| `Merging.MergeRunCovers` | sailing_club.py:42-52 | on bookings sorted by start, the fold covers exactly the real instants its input covers, with no well-formedness needed |
| `Merging.MergeRunOfSeparated` | sailing_club.py:43-49 | slots that already have gaps between them pass through the fold unchanged |
| `Merging.MergeSlots` | sailing_club.py:31-52 | empty exactly for empty input; no more slots than bookings; touching or overlapping slots never stand side by side; every merged start and end is some booking's start and end |
| `Merging.MergeSlotsSorted` | sailing_club.py:36-52 | the merged slots are ordered by start, for any input |
| `Merging.MergeSlotsCanonical` | sailing_club.py:40-52 | for well-formed bookings the slots are well-formed, separated by gaps, and their starts strictly increase |
| `Merging.MergeSlotsCovers` | sailing_club.py:36-52 | a real instant lies in some booking `[start, end]` exactly when it lies in some merged slot |
| `Merging.MergeSlotsOccupies` | sailing_club.py:36-52 | the same for integer times |
| `Merging.CanonicalUnique` | sailing_club.py:40-52 | two gap-separated timetables of well-formed slots that cover the same instants are equal |
| `Merging.MergeSlotsIdempotent` | sailing_club.py:36-52 | merging the merged slots returns them unchanged, for every input, because the sort is stable |
| `Merging.MergeSlotsOrderIndependent` | sailing_club.py:36-49 | for well-formed bookings the result depends only on the multiset of bookings, not their order |
| `Merging.IllFormedOrderMatters` | sailing_club.py:36-49 | with `start > end` the order can matter: `[[5,1],[5,2]]` and its reverse merge to different lists |
| `Sweeping.EventLeIsTotalPreorder` | sailing_club.py:63 | the key `(time, delta)` orders every pair of events and is transitive |
| `Sweeping.EventsOf` | sailing_club.py:56-59 | two events per booking, in booking order: `(start, +1)` at position `2i` and `(end, -1)` at `2i+1` |
| `Sweeping.SortEvents` | sailing_club.py:63 | the events are ordered by `(time, delta)` and are a permutation of the unsorted events |
| `Sweeping.EventsTimeline` | sailing_club.py:56-59 | summing the deltas of the events at or before `t` gives the number of bookings started by `t` minus the number ended by `t` |
| `Sweeping.EventsBalanced` | sailing_club.py:56-59 | the deltas of all events cancel |
| `Sweeping.SweepFrom` | sailing_club.py:65-70 | the counter ends at its start value plus the sum of the deltas; the running maximum never decreases |
| `Sweeping.SweepFromIsMaxPrefix` | sailing_club.py:65-70 | the kept maximum is at least the counter after every prefix of events, and it equals the start value or one of those counters |
| `Sweeping.PrefixUpTo` | sailing_club.py:63 | on sorted events, the events at or before any time `t` form a prefix, and the counter after it is the timeline value at `t` |
| `Sweeping.SweepPeakIsMaxTimeline` | sailing_club.py:63-70 | on `(time, delta)`-sorted events the result is the largest timeline value over all times, or 0 when none is positive; this is where `-1` before `+1` matters |
| `Sweeping.SweepBookings` | sailing_club.py:57-70 | sorting the events and sweeping them from `(0, 0)` leaves `current_boats` back at 0, because each booking's `+1` and `-1` cancel, and a peak that is never negative |
| `Sweeping.MinBoats` | sailing_club.py:63-70 | `min_boats_needed` itself: the peak of that sweep; its own contract says only that it is not negative, and `MinBoatsIsMaxNet` and `MinBoatsIsMaxActive` give its meaning |
| `Sweeping.MinBoatsIsMaxNet` | sailing_club.py:56-70 | for any input, the boat count is `>= 0`, bounds the started-minus-ended count at every time, and equals it at some time unless it is 0 |
| `Sweeping.MinBoatsIsMaxActive` | sailing_club.py:56-70 | for well-formed bookings, the boat count is the largest number of bookings `[start, end)` holding a boat at one integer time, or 0 |
| `Sweeping.MinBoatsBounds` | sailing_club.py:65-70 | `0 <= boats <= number of bookings`, for any integers, including `start > end` |
| `Sweeping.MinBoatsWithoutLength` | sailing_club.py:57-70 | bookings with no positive length, such as one `[t, t]`, need 0 boats |
| `Sweeping.MinBoatsPositive` | sailing_club.py:57-70 | well-formed bookings need at least one boat exactly when some booking has `start < end` |
| `Sweeping.MinBoatsOrderIndependent` | sailing_club.py:56-70 | the boat count does not change when the bookings are permuted |
| `SailingClub.SolveSailingClub` | sailing_club.py:24-72 | empty input gives `([], 0)`; otherwise it gives between 1 and `n` slots, sorted by start, gap-separated, with every endpoint taken from a booking, that cover what the bookings cover, and a boat count in `[0, n]` that is the largest started-minus-ended count (or 0) |
| `SailingClub.MergeLoop` | sailing_club.py:38-52 | the loop over `sorted_bookings[1:]` with `current_start`/`current_end` computes the merge fold |
| `SailingClub.EventLoop` | sailing_club.py:56-59 | the loop appends `(start, 1)` and `(end, -1)` per booking, in booking order |
| `SailingClub.SweepLoop` | sailing_club.py:65-70 | the loop with `current_boats` and `min_boats_needed` computes the sweep from `(0, 0)` |
| `SailingClub.Solve` | sailing_club.py:24-72 | the loops together return the pair `SolveSailingClub` specifies |
| `SailingClub.TouchingBookings` | sailing_club.py:61-63 | `[[1,8],[8,10]]` gives `([[1,10]], 1)` although both closed intervals contain time 8, which the comment beside the sort contradicts |
| `SailingClub.OverlappingChain` | sailing_club.py:36-70 | `[[1,5],[4,8],[7,10]]` gives `([[1,10]], 2)`; no time lies in three bookings |
| `SailingClub.DisjointBookings` | sailing_club.py:36-70 | `[[1,3],[5,7]]` gives `([[1,3],[5,7]], 1)` |
| `SailingClub.ZeroLengthBooking` | sailing_club.py:36-70 | `[[4,4]]` gives `([[4,4]], 0)` |

## Left out

- The FastAPI application, the pydantic request and response models, and the
  uvicorn start-up (`sailing_club.py:1-22`, `97-98`) are transport code.
- The HTTP handler (`sailing_club.py:74-95`) is left out: it loops over the test
  cases, calls the core once per case, and maps any exception to HTTP 500. Batch
  order is preserved trivially once the per-case function exists.
- Inner lists that are not pairs make the tuple unpacking at lines 40, 42 and 57
  fail at run time. This is not modelled: bookings are pairs by type.
- The sort is modelled as an insertion sort. It gives the same output as
  Timsort, since a stable sort by a key has exactly one possible result. Its cost
  is not modelled.
- Python integers are unbounded, like Dafny's `int`, so there is no overflow to
  model.
- `Sweeping.MinBoatsIsMaxActive`: the count is stated over integer times, not
  over every real instant. With integer endpoints and half-open bookings the two
  maxima agree.
