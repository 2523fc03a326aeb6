# Plane-sweep segment intersection (bitalg lab 4), modelled in Dafny

The lab's `find_intersections` takes a list of line sections, each a pair of
points, and returns every crossing it finds as `(point, i, j)` with 1-based
section ids. It is a Bentley–Ottmann style sweep:

- an event queue ordered by `cmp_xs` (x ascending, ties by y descending)
  holds every section's Begin and End events and the crossings found so far;
- a status ordered by `cmp_ys` (the sections' heights at the current sweep
  position) holds the sections the sweep line is crossing;
- each event updates the status and tests the sections that have just become
  neighbours with Cramer's rule (`get_intersect`); a crossing not yet queued
  is queued.

The repository has three variants, all modelled here:

- `list_state.py`: the status and the queue are Python lists; `insert`
  re-sorts the whole list (stably), `remove`, `get_neighbours` and
  `swap_events` find entries by a linear `==` scan, and a crossing swaps the
  two sections' entries in place.
- `set_state.py`: the status and the queue are `SortedSet`s; `cmp_ys`
  returns -1/0/1 with a tolerance of `1e-10`; at a crossing the two
  sections are removed under the previous sweep position and re-inserted
  under the current one.
- `state2.py`: the list backend again (the same `State` and `EventsState`
  code as `list_state.py`, plus `get_neighbours_positions`), with a
  `__hash__`, and no driver.

Modules:

- `Geometry` (`geometry.dfy`): points, `det`, Cramer's rule for two
  parametrised lines.
- `Events` (`events.dfy`): the event datatype, `__eq__`, `cmp_xs`,
  `get_sweep_intersect`, the exact `cmp_ys`, `get_intersect`, and the
  `state2.py` hash. `det`, `cmp_xs` and `get_intersect` are textually the same
  in all three files and are modelled once.
- `Ordering` (`ordering.dfy`): Python's stable `sorted` with a comparator, as
  insertion sort.
- `ListBackend` (`list_backend.dfy`): the list-backed `State` and
  `EventsState` classes, plus `get_intersects`.
- `SetEvents` and `SetBackend` (`set_events.dfy`, `set_backend.dfy`): the
  tolerant `cmp_ys`, the set hash, and the `SortedSet`-backed classes.
- `SweepCommon` (`sweep_common.dfy`): sections, their canonical orientation,
  the queue and status invariants, and the output contract.
- `ListSweep` and `SetSweep` (`list_sweep.dfy`, `set_sweep.dfy`): the two
  drivers.

Coordinates are exact `real`s. Python exceptions (`UnboundLocalError` when a
scan finds no match, `KeyError`/`ValueError` from the `SortedSet`,
`IndexError`) are `Err` values of a `Result`; a driver that meets one
returns it. The module-level `sweep_x`, `previous_sweep_x` and `use_previous`
become parameters: each status call that compares receives the sweep
position it would read, so `use_previous` is the choice of position passed
to the two removals at a crossing.

Both drivers are proved to terminate. Every loop turn either queues a pair of
section ids not queued before, or leaves the queue alone and moves the cursor
on. Both drivers are also proved to return only well-formed reports when they
return at all:

- both ids are 1-based ids of input sections;
- the point lies on both input sections;
- no unordered pair of ids is reported twice.

Both drivers also hand back, as a ghost value, the event queue they end
with. The returned list is exactly that queue's Intersect entries with
1-based ids, and the queue still holds every section's Begin and End events.
The list driver returns `Ok([])` on an empty input; the set driver returns
`ValueError`.

## Model

| member | source | states |
|---|---|---|
| Geometry.DetIsCross | bitalg/lab4/list_state.py:5-6 | `det(a, b, c, d)` is the cross product of the rows `(a, b)` and `(c, d)`, and equally of the columns; it is zero for two equal rows |
| Geometry.CramerMeets | bitalg/lab4/list_state.py:79-90 | when `W != 0`, the point `C + t·CD` built from Cramer's `t` equals `A + m·AB` built from Cramer's `m` |
| Geometry.CramerUnique | bitalg/lab4/list_state.py:79-88 | when `W != 0`, any `(t, m)` at which the two lines meet are exactly Cramer's `Wt/W` and `Wm/W` |
| Geometry.OnSegmentReversed | bitalg/lab4/list_state.py:172-176 | a point on a section lies on it whichever endpoint comes first, so swapping the endpoints keeps it |
| Events.Vector | bitalg/lab4/list_state.py:23-24 | `self.vector` leads from the position to the end position (`position + 1·vector == end_position`), and is zero exactly when the two coincide |
| Events.Same | bitalg/lab4/list_state.py:26-33 | equal events have the same type; Intersects are equal iff their id pairs agree unordered; Begin/End events iff their ids agree |
| Events.SameIsEquivalence | bitalg/lab4/list_state.py:26-33 | `__eq__` is reflexive, symmetric and transitive |
| Events.CmpXs | bitalg/lab4/list_state.py:35-43 | negative iff `a` has the smaller x, or the same x and the larger y; zero iff the positions coincide |
| Events.CmpXsAntisymmetric | bitalg/lab4/list_state.py:35-43 | swapping the arguments negates `cmp_xs` |
| Events.SweepY | bitalg/lab4/list_state.py:45-56 | without an end position, the literal y; otherwise a point on the segment's line at the sweep x, equal to the start y at the start x and the end y at the end x |
| Events.CmpYs | bitalg/lab4/list_state.py:58-63 | negative iff `a` is higher at the sweep position, zero iff level |
| Events.GetIntersect | bitalg/lab4/list_state.py:65-94 | None for a missing or Intersect argument and for parallel directions; a result is an Intersect carrying `[e1.id, e2.id]` in that order |
| Events.GetIntersectOnBoth | bitalg/lab4/list_state.py:84-94 | a returned point lies on both segments |
| Events.GetIntersectFindsCrossing | bitalg/lab4/list_state.py:79-94 | conversely, two non-parallel segments that meet at parameters in [0, 1] are reported at that point |
| Events.State2HashConsistent | bitalg/lab4/state2.py:24-34 | two events hash to the same tuple iff they are `==` |
| Ordering.CmpTotalPreorder | bitalg/lab4/list_state.py:35-63 | both comparators are antisymmetric and their `<=` is transitive |
| Ordering.InsertSorted | bitalg/lab4/list_state.py:109 | one stable insertion: a permutation of the list plus `e`, sorted when the list was |
| Ordering.InsertSortedAt | bitalg/lab4/list_state.py:109 | the insertion puts `e` after every entry it does not strictly precede and before the first one it does |
| Ordering.StableSort | bitalg/lab4/list_state.py:109 | `sorted` returns a sorted permutation of its input |
| Ordering.StableSortStable | bitalg/lab4/list_state.py:109 | `sorted` is stable on any input, sorted or not: for every `e`, the entries that tie with `e` come out in their input order |
| Ordering.InsertSortedTies | bitalg/lab4/list_state.py:109 | a stable insertion into a sorted list puts the new entry after every entry it ties with |
| Ordering.StableSortSorted | bitalg/lab4/list_state.py:109 | sorting a sorted list changes nothing |
| Ordering.StableSortAppend | bitalg/lab4/list_state.py:109 | re-sorting a sorted list plus one entry is a single stable insertion of that entry |
| ListBackend.Contains | bitalg/lab4/list_state.py:106 | `e in self.state` holds iff some entry is `==` to `e` |
| ListBackend.FirstMatch | bitalg/lab4/list_state.py:115-118 | the index of the first `==` entry, or none when no entry matches |
| ListBackend.IndexOf | bitalg/lab4/list_state.py:115-118 | the scan loop returns the first `==` match |
| ListBackend.FirstHolding | bitalg/lab4/state2.py:130-139 | the index of the first non-Intersect entry with the given id, or none |
| ListBackend.IndexOfSegment | bitalg/lab4/state2.py:130-139 | the scan loop returns that index |
| ListBackend.SwapAt | bitalg/lab4/list_state.py:147 | the entries at the two positions exchanged, every other position unchanged, the same multiset |
| ListBackend.Inserted | bitalg/lab4/list_state.py:103-109 | unchanged for None or an Intersect already `in` the list; otherwise a sorted permutation of the list plus `e`; `e` is found afterwards and no entry is lost |
| ListBackend.State.constructor | bitalg/lab4/list_state.py:98-101 | the state keeps the comparator it was given and starts empty |
| ListBackend.State.Insert | bitalg/lab4/list_state.py:103-109 | no change for None or an Intersect already present; otherwise the stable sort of the old list plus `e`, one longer, sorted, a permutation of old + [e] |
| ListBackend.State.Remove | bitalg/lab4/list_state.py:111-120 | drops exactly the first `==` match, keeping the rest in order; `UnboundLocalError` and no change without a match |
| ListBackend.State.GetNeighbours | bitalg/lab4/list_state.py:122-131 | the entries at the first match's index ±1, None past either end; `UnboundLocalError` without a match |
| ListBackend.State.GetNeighboursPositions | bitalg/lab4/state2.py:129-141 | the first non-Intersect entries holding each of the two ids, in that order; `UnboundLocalError` iff either is missing |
| ListBackend.State.SwapEvents | bitalg/lab4/list_state.py:133-147 | exchanges the two first matches, every other position unchanged, same multiset; `UnboundLocalError` and no change when either is missing |
| ListBackend.EventsState.constructor | bitalg/lab4/list_state.py:156-158 | an empty queue with the cursor at 0 |
| ListBackend.EventsState.Insert | bitalg/lab4/list_state.py:103-109 | as `State.Insert` with `cmp_xs`; the cursor does not move |
| ListBackend.EventsState.HasNext | bitalg/lab4/list_state.py:164-165 | true exactly when an entry remains at the cursor, which is when `Next` returns an entry rather than `IndexError` |
| ListBackend.EventsState.Next | bitalg/lab4/list_state.py:160-162 | returns the entry at the cursor and advances the cursor by one; `IndexError` past the end |
| ListBackend.IntersectsOf | bitalg/lab4/list_state.py:167-168 | exactly the Intersect entries' reports: each comes from one, each one is there |
| ListBackend.IntersectsOfAppend | bitalg/lab4/list_state.py:167-168 | the reports keep queue order: those of a concatenation are the concatenation of the reports |
| ListBackend.ContainsIffPairKey | bitalg/lab4/list_state.py:106 | an Intersect is `in` the queue iff its unordered id pair is already queued |
| ListBackend.IntersectsOfDistinct | bitalg/lab4/list_state.py:106 | on a queue with one Intersect per unordered pair, no two reports share an unordered pair |
| SweepCommon.Canonical | bitalg/lab4/list_state.py:172-180 | the same two endpoints with the smaller x first (strictly, for a non-vertical section); `CanonicalAll` applies it to every section |
| SweepCommon.SectionEvents | bitalg/lab4/list_state.py:182-183 | a section's Begin event starts at its left endpoint and its direction reaches the right one, where its End event sits; the Begin event has a sweep height exactly when the section is not vertical |
| SweepCommon.QueueGrows | bitalg/lab4/list_state.py:188-191 | adding one valid event keeps the queue invariant and grows the queue by one |
| SweepCommon.HoldsSectionsGrows | bitalg/lab4/list_state.py:193-228 | a queue that only gains entries keeps every section's Begin and End event |
| SweepCommon.OutputReported | bitalg/lab4/list_state.py:230 | under the queue invariant the returned list (every report's ids shifted by one, `Shift`) meets the output contract: ids in 1..n, point on both input sections, no pair twice |
| SweepCommon.CrossingIsValid | bitalg/lab4/list_state.py:225-228 | a crossing found between two sections' Begin events lies on both of them |
| ListSweep.Enqueue | bitalg/lab4/list_state.py:188-191 | a section event joins the queue, which stays valid and sorted, grows by one and gains no id pair |
| ListSweep.InitialQueue | bitalg/lab4/list_state.py:180-191 | the queue holds exactly 2n events, each section's Begin and End, sorted by `cmp_xs`, with no crossing yet |
| ListSweep.QueueAfter | bitalg/lab4/list_state.py:225-228 | the queue after `insert` of each crossing in turn: every crossing handed in is then `in` it, and no entry is lost |
| ListSweep.QueueAfterStep | bitalg/lab4/list_state.py:225-228 | one more crossing handed in is one more `insert` |
| ListSweep.TestPair | bitalg/lab4/list_state.py:226-228 | the queue becomes `insert(get_intersect(e1, e2))` of the old one; it stays valid and sorted and either stays or gains a new id pair |
| ListSweep.InsertCandidates | bitalg/lab4/list_state.py:225-228 | the queue becomes `QueueAfter` of the old queue and the candidates' crossings, so every crossing found is queued; it stays valid and sorted and either stays or gains a new id pair |
| ListSweep.BeginStep | bitalg/lab4/list_state.py:199-203 | the status gains `e` and is sorted at the event's x; both candidates pair `e` with sections |
| ListSweep.BeginStepParts | bitalg/lab4/list_state.py:199-203 | the new status is `sorted(state + [e])` at `x`, and the candidates are `(e, prev)` and `(e, next)` with the entries beside `e`'s first match, None past either end |
| ListSweep.EndStep | bitalg/lab4/list_state.py:205-211 | `UnboundLocalError` iff no entry is `==` to the placeholder; otherwise the entry at the first match `i` is dropped (`old[..i] + old[i+1..]`) and the one candidate pairs the entries beside `i` |
| ListSweep.CrossingStep | bitalg/lab4/list_state.py:213-223 | `UnboundLocalError` iff either section is missing; otherwise the two first matches are exchanged, the multiset kept, and the four candidates pair each section with the entries beside it after the exchange |
| ListSweep.Step | bitalg/lab4/list_state.py:199-223 | the event's kind picks the step; a successful step keeps only sections' Begin events in the status and yields only candidate pairs |
| ListSweep.EnterStatus | bitalg/lab4/list_state.py:200 | the status becomes `sorted(state + [e])` at `x` (`BeginStep`), and `e` is then found in it |
| ListSweep.HandleBegin | bitalg/lab4/list_state.py:199-203 | the new status and the candidates are `BeginStep`'s |
| ListSweep.HandleEnd | bitalg/lab4/list_state.py:205-211 | `EndStep`'s error with the status unchanged, or its new status and candidate |
| ListSweep.HandleCrossing | bitalg/lab4/list_state.py:213-223 | `CrossingStep`'s error with the status unchanged, or its new status and candidates |
| ListSweep.Handle | bitalg/lab4/list_state.py:199-223 | `Step`'s result for the event at its own x |
| ListSweep.Advance | bitalg/lab4/list_state.py:193-228 | dequeues the entry at the cursor; on an error the status and the queue are unchanged and the error is returned; otherwise the status is `Step`'s and the queue is `QueueAfter` of the crossings among its candidates; the invariants hold and the queue either stays or gains a new id pair |
| ListSweep.FindIntersections | bitalg/lab4/list_state.py:171-230 | terminates; an `Ok` result is the shifted `get_intersects` of a final queue that is valid, sorted and still holds every section's events, and meets the output contract; an empty input gives `Ok([])` |
| SetEvents.CmpYsEps | bitalg/lab4/set_state.py:78-89 | only -1, 0 or 1: 1 iff `b` is more than `EPS` higher, -1 iff more than `EPS` lower, 0 iff within `EPS` |
| SetEvents.CmpYsEpsAntisymmetric | bitalg/lab4/set_state.py:78-89 | swapping the arguments negates the result |
| SetEvents.CmpYsEpsRefinesCmpYs | bitalg/lab4/set_state.py:78-89 | a strict answer agrees in sign with the exact `cmp_ys` beyond `EPS`, and an exact tie is a tie |
| SetEvents.CmpYsEpsTieNotTransitive | bitalg/lab4/set_state.py:80-89 | heights 0, 0.6e-10 and 1.2e-10 tie pairwise with their neighbour but not end to end |
| SetEvents.SetHashConsistent | bitalg/lab4/set_state.py:27-39 | two events hash to the same tuple iff they are `==`, including Intersects with reversed ids |
| SetBackend.KeyCmp | bitalg/lab4/set_state.py:126 | the key order `cmp_to_key` derives: the sign of `cmp_xs`, or the tolerant `cmp_ys` at the given position |
| SetBackend.BisectLeft | bitalg/lab4/set_state.py:140 | a position in range; under a below-first partition, everything before it is below `e` and nothing from it on is |
| SetBackend.BisectRight | bitalg/lab4/set_state.py:134 | under an above-last partition, nothing before it is above `e` and everything from it on is |
| SetBackend.AddIndex | bitalg/lab4/set_state.py:134 | the position `add` inserts at: on a list partitioned around `e`, after every entry `e` is not below and before every entry it is below |
| SetBackend.SortedAdd | bitalg/lab4/set_state.py:134 | the list one longer, a permutation of old plus `e` |
| SetBackend.AddIsInsertSorted | bitalg/lab4/set_state.py:134 | on a `cmp_xs`-sorted queue `add` inserts exactly where a stable insertion does |
| SetBackend.QueueInsertAgrees | bitalg/lab4/set_state.py:134 | on a sorted queue the set-backed insert equals the list-backed re-sort of old + [e] |
| SetBackend.ScanRun | bitalg/lab4/set_state.py:140 | the first `==` entry in the run of equal keys, every earlier one tying and unequal; `ValueError` otherwise |
| SetBackend.Locate | bitalg/lab4/set_state.py:146 | a found index holds an entry `==` to `e` with an equal key; any failure is `ValueError` |
| SetBackend.LocateFinds | bitalg/lab4/set_state.py:146 | conversely, on a list partitioned around `e` the lookup finds the first equal entry in the run of equal keys |
| SetBackend.InsertAtKeys | bitalg/lab4/set_state.py:134 | adding an event with a new hash key keeps the keys distinct and adds that key |
| SetBackend.AddKeepsKeys | bitalg/lab4/set_state.py:134 | `add` of an event with a new key keeps the hash set and the list in step: distinct keys, the same key set, the same size |
| SetBackend.RemoveAtKeys | bitalg/lab4/set_state.py:140 | removing one entry drops exactly its key and keeps the rest distinct |
| SetBackend.AbsentKeyNotContained | bitalg/lab4/set_state.py:131 | an event whose hash key is absent is `==` to no entry |
| SetBackend.Added | bitalg/lab4/set_state.py:128-134 | the list `insert` leaves: unchanged for None or an event whose key is present; otherwise one longer with `e` added to the multiset; the key set gains `e`'s key and keys stay distinct |
| SetBackend.Removed | bitalg/lab4/set_state.py:136-140 | `KeyError` when no entry has `e`'s key; `ValueError` iff the lookup fails; otherwise the entry at the located index `i` is dropped (`s[..i] + s[i+1..]`) and its key leaves the key set |
| SetBackend.NeighboursOf | bitalg/lab4/set_state.py:142-148 | `ValueError` iff the lookup fails; otherwise the entries at the located index ±1, None past either end |
| SetBackend.State.constructor | bitalg/lab4/set_state.py:124-126 | the comparator is kept; the hash set and the key list start empty and consistent |
| SetBackend.State.Insert | bitalg/lab4/set_state.py:128-134 | the list becomes `Added` of the old one at the given position; the key joins the hash set; the hash set and the list stay consistent |
| SetBackend.State.Remove | bitalg/lab4/set_state.py:136-140 | `KeyError` and no change for a non-member; the key leaves the hash set; the list becomes `Removed`'s result, or `ValueError` with the list kept |
| SetBackend.State.GetNeighbours | bitalg/lab4/set_state.py:142-148 | `[None, None]` for None; otherwise `NeighboursOf` the list at the given position |
| SetBackend.EventsState.constructor | bitalg/lab4/set_state.py:157-159 | an empty, consistent queue with the cursor at 0 |
| SetBackend.EventsState.Insert | bitalg/lab4/set_state.py:128-134 | the queue becomes `Added` of the old one under `cmp_xs`; on a sorted queue, the same result as the list-backed re-sort; the cursor does not move |
| SetBackend.EventsState.Add | bitalg/lab4/set_state.py:134 | a non-member's key joins the hash set and the event joins the list where `add` puts it; the two stay consistent; the cursor does not move |
| SetBackend.EventsState.HasNext | bitalg/lab4/set_state.py:165-166 | on a consistent queue, true exactly when an entry remains at the cursor |
| SetBackend.EventsState.Next | bitalg/lab4/set_state.py:161-163 | returns the entry at the cursor and advances it by one; `IndexError` past the end |
| SetSweep.Enqueue | bitalg/lab4/set_state.py:199-202 | a section event with a new key joins the queue, which stays valid and sorted |
| SetSweep.InitialQueue | bitalg/lab4/set_state.py:191-202 | the queue holds exactly 2n events, each section's Begin and End, sorted, no crossing yet |
| SetSweep.SetQueueAfter | bitalg/lab4/set_state.py:245-248 | the queue after `insert` of each crossing in turn: every crossing handed in has its key in the queue, no entry is lost and keys stay distinct |
| SetSweep.AddedAgrees | bitalg/lab4/set_state.py:128-134 | on a sorted queue one crossing's set-backed `insert` leaves the same queue as the list-backed one, sorted |
| SetSweep.SetQueueAgrees | bitalg/lab4/set_state.py:245-248 | on a sorted queue the set-backed insertions of the same crossings leave the same queue as the list-backed ones, sorted |
| SetSweep.TestPair | bitalg/lab4/set_state.py:246-248 | the queue becomes `Added` of `get_intersect(e1, e2)`; it stays valid and sorted and either stays or gains a new id pair |
| SetSweep.InsertCandidates | bitalg/lab4/set_state.py:245-248 | the queue becomes `SetQueueAfter` of the old queue and the candidates' crossings, so every crossing found is queued; it stays valid and sorted and either stays or gains a new id pair |
| SetSweep.PairsAround | bitalg/lab4/set_state.py:214-216 | `ValueError` iff the lookup of `e` fails; otherwise `(prev, e)` and `(e, next)` with the entries beside the located index, None past either end |
| SetSweep.BeginStep | bitalg/lab4/set_state.py:212-216 | `ValueError` iff the lookup in the grown status fails; otherwise the key set gains `e`'s key, no entry is lost, and the candidates are `(_, e)` and `(e, _)` |
| SetSweep.BeginStepParts | bitalg/lab4/set_state.py:212-216 | the new status is `add` of `e` at `x` (`Added`), and the candidates are `PairsAround` `e` in it |
| SetSweep.EndStep | bitalg/lab4/set_state.py:218-225 | `ValueError` iff the placeholder's lookup fails; otherwise the entry at the located index `i` leaves with its key, and the one candidate pairs the entries beside `i` |
| SetSweep.Departed | bitalg/lab4/set_state.py:232-235 | `KeyError` when `prev` is not a member; `ValueError` when it is but its lookup at `previousX` fails; two sections with one key fail; success needs two distinct members, `prev` found at `previousX`, and removes exactly their two keys and two entries |
| SetSweep.DepartedParts | bitalg/lab4/set_state.py:232-235 | the removals are `remove(prev)` then `remove(nxt)`, each dropping the entry the lookup at `previousX` finds (`Removed`) |
| SetSweep.Rejoined | bitalg/lab4/set_state.py:237-238 | `nxt` and `prev` rejoin: two more entries and both keys back |
| SetSweep.RejoinedOrder | bitalg/lab4/set_state.py:237-238 | the new list is `add` of `nxt`, then of `prev`, both at the current sweep position `x` |
| SetSweep.Reentered | bitalg/lab4/set_state.py:232-238 | the removals' errors pass through; otherwise the status has the same keys and length as before |
| SetSweep.ReenteredOrder | bitalg/lab4/set_state.py:232-238 | the new order: the list after the removals at `previousX`, with `nxt` and then `prev` placed by `add` at `x` |
| SetSweep.CrossingStep | bitalg/lab4/set_state.py:227-243 | `KeyError` when the first section is not a member; a section crossing itself fails; otherwise the same keys and length, and four candidates with the two sections in the positions of line 243 |
| SetSweep.CrossingStepParts | bitalg/lab4/set_state.py:227-243 | the new status is `Reentered`'s, and the candidates are `PairsAround` `prev` followed by `PairsAround` `nxt` in it |
| SetSweep.Step | bitalg/lab4/set_state.py:212-243 | the event's kind picks the step; a successful step keeps only sections' Begin events, distinct keys, and yields only candidate pairs |
| SetSweep.EnterStatus | bitalg/lab4/set_state.py:213 | the list becomes `Added` of `e` at `x` (`add`, for a new key) and the key joins the hash set |
| SetSweep.LeaveStatus | bitalg/lab4/set_state.py:223 | `Removed` at `x`: `KeyError`, `ValueError`, or the located entry and its key leave |
| SetSweep.PairWithNeighbours | bitalg/lab4/set_state.py:214-216 | `PairsAround` `e` in the current status at `x` |
| SetSweep.HandleBegin | bitalg/lab4/set_state.py:212-216 | the list becomes `Added` of `e` at `x`; the result is `BeginStep`'s error or its candidates |
| SetSweep.HandleEnd | bitalg/lab4/set_state.py:218-225 | `EndStep`'s error with the status unchanged, or its new status and candidate |
| SetSweep.LeaveBoth | bitalg/lab4/set_state.py:232-235 | `Departed`'s error, or its status |
| SetSweep.Reinsert | bitalg/lab4/set_state.py:232-238 | `Reentered`'s error, or its status |
| SetSweep.HandleCrossing | bitalg/lab4/set_state.py:227-243 | `CrossingStep`'s error, or its new status and candidates |
| SetSweep.Handle | bitalg/lab4/set_state.py:212-243 | `Step`'s result for the event, with `previous_sweep_x` for a crossing |
| SetSweep.Advance | bitalg/lab4/set_state.py:204-248 | dequeues the entry at the cursor; a crossing always has a previous sweep position; on an error the queue is unchanged and the error returned; otherwise the result is the event's x (the new `sweep_x`), the status is `Step`'s and the queue is `SetQueueAfter` of the crossings among its candidates |
| SetSweep.FindIntersections | bitalg/lab4/set_state.py:172-250 | `ValueError` on an empty input; terminates; an `Ok` result is the shifted `get_intersects` of a final queue that is valid, sorted, has distinct keys and still holds every section's events, and meets the output contract |

## Left out

- The UI, file and benchmark code (`segment_builder.py`, `polygon_builder.py`, `benchmark.py`): input supply and timing, not logic.
- IEEE floating point: coordinates and `EPS` are exact reals, so `W == 0` and the `[0, 1]` tests are exact.
- Vertical sections: `NonVerticalInput` excludes them, where the source divides by zero in `get_sweep_intersect`.
- `SortedSet` internals beyond one sublist (the library splits lists longer than its load factor); the model is one key-ordered list beside a hash set, searched with Python's `bisect` as written.
- `__str__`, `__repr__`, and the value of `sweep_bounds` in `set_state.py`; only the `ValueError` its `min` raises on an empty input is modelled.
- The inherited `remove`, `get_neighbours` and `swap_events` of the list `EventsState`, which no code calls on the queue.
- The claim that the status holds exactly the begun-but-not-ended sections. `insert` re-sorts the whole queue, so a crossing that sorts before the cursor pushes visited entries past it, and an event can be visited twice. The drivers prove only that the status holds sections' Begin events, and that the set status's hash set and list agree.
- The equivalence of the list and set drivers: their status orders differ (exact versus tolerant `cmp_ys`, swap versus re-insertion), so only their queue insertions are proved to agree (`SetBackend.QueueInsertAgrees`, `SetSweep.SetQueueAgrees`).
- SweepCommon.OutputReported: states soundness of the reports, not that every crossing is found.
- ListSweep.FindIntersections: completeness (every interior crossing reported once) is not proved; revisited events, sections meeting at an endpoint and several sections through one point break the textbook argument, and an `UnboundLocalError` from a status lookup is propagated, not proved unreachable.
- SetSweep.FindIntersections: completeness is not proved, for the reasons above and because `EPS` ties are not transitive (`SetEvents.CmpYsEpsTieNotTransitive`), so the status list need not stay in key order and a lookup may raise `ValueError`.
- SetSweep.HandleBegin: does not prove that the lookup after the insertion succeeds; once the sweep position has moved, the list need not be in key order for the bisection.
- SetSweep.Reentered: no order property of the status is proved after the re-insertion beyond where `add` puts each entry; with non-transitive `EPS` ties the list need not be sorted at `x`.
- SetSweep.Handle: the status after an exception is not stated (here and in `HandleBegin`, `LeaveStatus`, `LeaveBoth`, `Reinsert`, `HandleCrossing`); `remove` may already have dropped the key, and the driver returns the exception at once.
- The `TypeError` that `set_state.py` would raise comparing against an unset `previous_sweep_x` is proved unreachable (an Intersect is never the first event) and so is not modelled as a result.
