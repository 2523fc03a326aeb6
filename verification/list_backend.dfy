/**
 * The list-backed `State`, `Sweep` and `EventsState` classes. `list_state.py`
 * and `state2.py` carry the same code for them; `get_neighbours_positions`
 * exists only in `state2.py`.
 */
module ListBackend {
  import opened Wrappers
  import opened Geometry
  import opened Events
  import opened Ordering

  /** The index of the first entry `==` to `e`, as the `for ... if val == e: ix = i; break` scans find it. */
  function FirstMatch(s: seq<Event>, e: Event): (r: Option<nat>)
    ensures r.Some? ==> r.value < |s| && Same(s[r.value], e)
    ensures r.Some? ==> forall j :: 0 <= j < r.value ==> !Same(s[j], e)
    ensures r.None? ==> forall j :: 0 <= j < |s| ==> !Same(s[j], e)
  {
    if s == [] then None
    else if Same(s[0], e) then Some(0)
    else
      match FirstMatch(s[1..], e)
      case None => None
      case Some(i) => Some(i + 1)
  }

  /** `e in self.state`: some entry is `==` to `e`. */
  predicate Contains(s: seq<Event>, e: Event)
    ensures Contains(s, e) <==> exists i :: 0 <= i < |s| && Same(s[i], e)
  {
    FirstMatch(s, e).Some?
  }

  /** An entry is found by the `in` test. */
  lemma InContains(s: seq<Event>, e: Event)
    requires e in s
    ensures Contains(s, e)
  {
    var i :| 0 <= i < |s| && s[i] == e;
    assert Same(s[i], e);
  }

  /** Entries only added keep an `in` test true. */
  lemma ContainsGrows(s: seq<Event>, t: seq<Event>, e: Event)
    requires Contains(s, e) && multiset(s) <= multiset(t)
    ensures Contains(t, e)
  {
    var i :| 0 <= i < |s| && Same(s[i], e);
    assert s[i] in multiset(t);
    var j :| 0 <= j < |t| && t[j] == s[i];
    assert Same(t[j], e);
  }

  /** The linear `==` scan shared by `remove`, `get_neighbours` and `swap_events`. */
  method IndexOf(s: seq<Event>, e: Event) returns (ix: Option<nat>)
    ensures ix == FirstMatch(s, e)
  {
    var i := 0;
    while i < |s|
      invariant 0 <= i <= |s|
      invariant forall j :: 0 <= j < i ==> !Same(s[j], e)
    {
      if Same(s[i], e) {
        return Some(i);
      }
      i := i + 1;
    }
    return None;
  }

  /** An entry that stands for segment `id`: not an Intersect, and carrying that id. */
  predicate HoldsSegment(v: Event, id: int)
  {
    !v.Intersect? && v.segmentId == id
  }

  /** The index of the first entry holding segment `id`. */
  function FirstHolding(s: seq<Event>, id: int): (r: Option<nat>)
    ensures r.Some? ==> r.value < |s| && HoldsSegment(s[r.value], id)
    ensures r.Some? ==> forall j :: 0 <= j < r.value ==> !HoldsSegment(s[j], id)
    ensures r.None? ==> forall j :: 0 <= j < |s| ==> !HoldsSegment(s[j], id)
  {
    if s == [] then None
    else if HoldsSegment(s[0], id) then Some(0)
    else
      match FirstHolding(s[1..], id)
      case None => None
      case Some(i) => Some(i + 1)
  }

  /** The scan of `get_neighbours_positions` for one id. */
  method IndexOfSegment(s: seq<Event>, id: int) returns (ix: Option<nat>)
    ensures ix == FirstHolding(s, id)
  {
    var i := 0;
    while i < |s|
      invariant 0 <= i <= |s|
      invariant forall j :: 0 <= j < i ==> !HoldsSegment(s[j], id)
    {
      if HoldsSegment(s[i], id) {
        return Some(i);
      }
      i := i + 1;
    }
    return None;
  }

  /** The list with the entries at `i` and `j` exchanged, the others in place. */
  function SwapAt(s: seq<Event>, i: nat, j: nat): (t: seq<Event>)
    requires i < |s| && j < |s|
    ensures |t| == |s| && t[i] == s[j] && t[j] == s[i]
    ensures forall k :: 0 <= k < |t| && k != i && k != j ==> t[k] == s[k]
    ensures multiset(t) == multiset(s)
  {
    s[i := s[j]][j := s[i]]
  }

  /** The pair `[prev, next]` that `get_neighbours` returns. */
  datatype Neighbours = Neighbours(prev: Option<Event>, next: Option<Event>)

  /** The entries either side of index `i`, None past either end. */
  function NeighboursAt(s: seq<Event>, i: nat): Neighbours
    requires i < |s|
  {
    Neighbours(if i > 0 then Some(s[i - 1]) else None, if i + 1 < |s| then Some(s[i + 1]) else None)
  }

  /** What `get_neighbours(e)` returns once its scan has found `e`. */
  function Around(s: seq<Event>, e: Event): (r: Neighbours)
    requires Contains(s, e)
    ensures r.prev.Some? ==> r.prev.value in s
    ensures r.next.Some? ==> r.next.value in s
  {
    NeighboursAt(s, FirstMatch(s, e).value)
  }

  /** The comparator a `State` was constructed with. */
  datatype CmpFun = CmpXsFun | CmpYsFun

  /** The comparator at the current value of the module-level `sweep_x`. */
  function OrderAt(f: CmpFun, sweepX: real): Order
  {
    match f
    case CmpXsFun => ByPosition
    case CmpYsFun => BySweepY(sweepX)
  }

  /**
   * The list `insert(e)` leaves behind: unchanged for None or for an
   * Intersect already present, else the stable re-sort of the list plus `e`.
   * Afterwards `e` is always found, and nothing was lost.
   */
  function Inserted(o: Order, s: seq<Event>, e: Option<Event>): (r: seq<Event>)
    requires AllComparable(o, s) && (e.Some? ==> Comparable(o, e.value))
    ensures AllComparable(o, r)
    ensures e.None? || (e.value.Intersect? && Contains(s, e.value)) ==> r == s
    ensures e.Some? && !(e.value.Intersect? && Contains(s, e.value)) ==>
      multiset(r) == multiset(s) + multiset{e.value} && Sorted(o, r)
    ensures e.Some? ==> Contains(r, e.value)
    ensures multiset(s) <= multiset(r) && |s| <= |r| <= |s| + 1
  {
    if e.None? || (e.value.Intersect? && Contains(s, e.value)) then s
    else
      var r := StableSort(o, s + [e.value]);
      assert e.value in multiset(s + [e.value]);
      InContains(r, e.value);
      r
  }

  /** The list-backed `State` (and its subclass `Sweep`, which adds nothing). */
  class State {
    const cmpFun: CmpFun
    var state: seq<Event>

    constructor (cmpFun: CmpFun)
      ensures this.cmpFun == cmpFun && state == []
    {
      this.cmpFun := cmpFun;
      state := [];
    }

    /**
     * `insert`: nothing for None or for an Intersect already present;
     * otherwise the whole list plus `e` is re-sorted, stably.
     */
    method Insert(e: Option<Event>, sweepX: real)
      requires AllComparable(OrderAt(cmpFun, sweepX), state)
      requires e.Some? ==> Comparable(OrderAt(cmpFun, sweepX), e.value)
      modifies this
      ensures state == Inserted(OrderAt(cmpFun, sweepX), old(state), e)
    {
      if e.None? {
        return;
      }
      if e.value.Intersect? {
        var ix := IndexOf(state, e.value);
        if ix.Some? {
          return;
        }
      }
      state := StableSort(OrderAt(cmpFun, sweepX), state + [e.value]);
    }

    /**
     * `remove`: deletes the first entry `==` to `e`, keeping the rest in
     * order; without a match the scan leaves `ix` unbound and `pop` raises.
     */
    method Remove(e: Option<Event>) returns (r: Result<()>)
      modifies this
      ensures e.None? ==> r.Ok? && state == old(state)
      ensures e.Some? && !Contains(old(state), e.value) ==> r == Err(UnboundLocalError) && state == old(state)
      ensures e.Some? && Contains(old(state), e.value) ==>
        var i := FirstMatch(old(state), e.value).value;
        r.Ok? && state == old(state)[..i] + old(state)[i + 1..]
        && multiset(state) + multiset{old(state)[i]} == multiset(old(state))
    {
      if e.None? {
        return Ok(());
      }
      var ix := IndexOf(state, e.value);
      if ix.None? {
        return Err(UnboundLocalError);
      }
      var i := ix.value;
      assert state == state[..i] + [state[i]] + state[i + 1..];
      state := state[..i] + state[i + 1..];
      r := Ok(());
    }

    /** `get_neighbours`: the entries just before and after the first `==` match, or None at an end. */
    method GetNeighbours(e: Option<Event>) returns (r: Result<Neighbours>)
      ensures e.None? ==> r == Ok(Neighbours(None, None))
      ensures e.Some? && !Contains(state, e.value) ==> r == Err(UnboundLocalError)
      ensures e.Some? && Contains(state, e.value) ==>
        var i := FirstMatch(state, e.value).value;
        r.Ok?
        && (r.value.prev.Some? <==> i > 0) && (i > 0 ==> r.value.prev.value == state[i - 1])
        && (r.value.next.Some? <==> i + 1 < |state|) && (i + 1 < |state| ==> r.value.next.value == state[i + 1])
      ensures e.Some? && Contains(state, e.value) ==> r == Ok(Around(state, e.value))
      ensures r.Ok? && r.value.prev.Some? ==> r.value.prev.value in state
      ensures r.Ok? && r.value.next.Some? ==> r.value.next.value in state
    {
      if e.None? {
        return Ok(Neighbours(None, None));
      }
      var ix := IndexOf(state, e.value);
      if ix.None? {
        return Err(UnboundLocalError);
      }
      var i := ix.value;
      var prev := if i - 1 >= 0 then Some(state[i - 1]) else None;
      var next := if i + 1 < |state| then Some(state[i + 1]) else None;
      r := Ok(Neighbours(prev, next));
    }

    /**
     * `get_neighbours_positions` (state2.py only): the first non-Intersect
     * entries holding each of `e`'s two ids, in that order.
     */
    method GetNeighboursPositions(e: Event) returns (r: Result<(Event, Event)>)
      requires e.Intersect?
      ensures FirstHolding(state, e.idA).None? || FirstHolding(state, e.idB).None? <==> r == Err(UnboundLocalError)
      ensures r.Ok? ==>
        r.value.0 == state[FirstHolding(state, e.idA).value] && r.value.1 == state[FirstHolding(state, e.idB).value]
      ensures r.Ok? ==> HoldsSegment(r.value.0, e.idA) && HoldsSegment(r.value.1, e.idB)
    {
      var ix1 := IndexOfSegment(state, e.idA);
      var ix2 := IndexOfSegment(state, e.idB);
      if ix1.None? || ix2.None? {
        return Err(UnboundLocalError);
      }
      r := Ok((state[ix1.value], state[ix2.value]));
    }

    /**
     * `swap_events`: exchanges the first matches of `e1` and `e2` in place,
     * bypassing the comparator.
     */
    method SwapEvents(e1: Option<Event>, e2: Option<Event>) returns (r: Result<()>)
      modifies this
      ensures e1.None? || e2.None? ==> r.Ok? && state == old(state)
      ensures e1.Some? && e2.Some? && !(Contains(old(state), e1.value) && Contains(old(state), e2.value)) ==>
        r == Err(UnboundLocalError) && state == old(state)
      ensures e1.Some? && e2.Some? && Contains(old(state), e1.value) && Contains(old(state), e2.value) ==>
        r.Ok? && state == SwapAt(old(state), FirstMatch(old(state), e1.value).value, FirstMatch(old(state), e2.value).value)
    {
      if e1.None? || e2.None? {
        return Ok(());
      }
      var ix1 := IndexOf(state, e1.value);
      var ix2 := IndexOf(state, e2.value);
      if ix1.None? || ix2.None? {
        return Err(UnboundLocalError);
      }
      state := SwapAt(state, ix1.value, ix2.value);
      r := Ok(());
    }
  }

  /** The event queue: the list-backed state ordered by `cmp_xs`, plus a forward cursor. */
  class EventsState {
    var state: seq<Event>
    var currentIx: nat

    constructor ()
      ensures state == [] && currentIx == 0
    {
      state := [];
      currentIx := 0;
    }

    /** `insert` with `cmp_xs`: as `State.insert`; the cursor index is left as it is. */
    method Insert(e: Option<Event>)
      modifies this
      ensures currentIx == old(currentIx)
      ensures state == Inserted(ByPosition, old(state), e)
    {
      if e.None? {
        return;
      }
      if e.value.Intersect? {
        var ix := IndexOf(state, e.value);
        if ix.Some? {
          return;
        }
      }
      state := StableSort(ByPosition, state + [e.value]);
    }

    /** `has_next`: the cursor has not passed the last entry. */
    predicate HasNext()
      reads this
      ensures HasNext() <==> currentIx < |state|
    {
      |state| > currentIx
    }

    /** `next`: advances the cursor by one, then returns the entry it passed over. */
    method Next() returns (r: Result<Event>)
      modifies this
      ensures state == old(state) && currentIx == old(currentIx) + 1
      ensures r.Ok? <==> old(HasNext())
      ensures old(currentIx) < |state| ==> r == Ok(state[old(currentIx)])
      ensures old(currentIx) >= |state| ==> r == Err(IndexError)
    {
      currentIx := currentIx + 1;
      if currentIx - 1 < |state| {
        r := Ok(state[currentIx - 1]);
      } else {
        r := Err(IndexError);
      }
    }
  }

  /** One entry of `get_intersects`: the crossing point and the two ids as stored. */
  type Found = (Point, int, int)

  function Report(e: Event): Found
    requires e.Intersect?
  {
    (e.position, e.idA, e.idB)
  }

  /** `f` is the report of one of the Intersect entries of `s`. */
  ghost predicate ReportedFrom(s: seq<Event>, f: Found)
  {
    exists i :: 0 <= i < |s| && s[i].Intersect? && f == Report(s[i])
  }

  /** `get_intersects`: the Intersect entries of the queue, in queue order. */
  function IntersectsOf(s: seq<Event>): (r: seq<Found>)
    ensures |r| <= |s|
    ensures forall k :: 0 <= k < |r| ==> ReportedFrom(s, r[k])
    ensures forall i :: 0 <= i < |s| && s[i].Intersect? ==> Report(s[i]) in r
  {
    if s == [] then []
    else
      var rest := IntersectsOf(s[1..]);
      var r := if s[0].Intersect? then [Report(s[0])] + rest else rest;
      assert forall k :: 0 <= k < |r| ==> ReportedFrom(s, r[k]) by {
        forall k | 0 <= k < |r| ensures ReportedFrom(s, r[k]) {
          if s[0].Intersect? && k == 0 {
            assert r[k] == Report(s[0]);
          } else {
            var k' := if s[0].Intersect? then k - 1 else k;
            assert r[k] == rest[k'];
            assert ReportedFrom(s[1..], rest[k']);
            var i :| 0 <= i < |s[1..]| && s[1..][i].Intersect? && rest[k'] == Report(s[1..][i]);
            assert s[i + 1] == s[1..][i];
          }
        }
      }
      assert forall i :: 0 <= i < |s| && s[i].Intersect? ==> Report(s[i]) in r by {
        forall i | 0 <= i < |s| && s[i].Intersect? ensures Report(s[i]) in r {
          if i == 0 {
            assert r[0] == Report(s[0]);
          } else {
            assert s[1..][i - 1] == s[i];
            assert Report(s[i]) in rest;
          }
        }
      }
      assert |r| <= |s|;
      r
  }

  /** `get_intersects` distributes over concatenation, so it keeps queue order. */
  lemma {:induction false} IntersectsOfAppend(s: seq<Event>, t: seq<Event>)
    ensures IntersectsOf(s + t) == IntersectsOf(s) + IntersectsOf(t)
  {
    if s == [] {
      assert s + t == t;
    } else {
      assert (s + t)[1..] == s[1..] + t;
      assert (s + t)[0] == s[0];
      IntersectsOfAppend(s[1..], t);
    }
  }

  /** The unordered pair of ids of an Intersect event, as its `__eq__` compares it. */
  function PairKey(e: Event): (int, int)
    requires e.Intersect?
  {
    (Min(e.idA, e.idB), Max(e.idA, e.idB))
  }

  ghost function PairKeys(s: seq<Event>): set<(int, int)>
  {
    set e | e in s && e.Intersect? :: PairKey(e)
  }

  /** At most one Intersect entry per unordered pair of ids, and that one entry once. */
  ghost predicate IntersectsUnique(s: seq<Event>)
  {
    forall x, y | x in s && y in s && x.Intersect? && y.Intersect? && Same(x, y) ::
      x == y && multiset(s)[x] == 1
  }

  /** For an Intersect `e`, the `in` test agrees with its pair key. */
  lemma ContainsIffPairKey(s: seq<Event>, e: Event)
    requires e.Intersect?
    ensures Contains(s, e) <==> PairKey(e) in PairKeys(s)
  {
    if Contains(s, e) {
      var i := FirstMatch(s, e).value;
      assert s[i] in s;
      assert PairKey(s[i]) == PairKey(e);
    }
    if PairKey(e) in PairKeys(s) {
      var x :| x in s && x.Intersect? && PairKey(x) == PairKey(e);
      var i :| 0 <= i < |s| && s[i] == x;
      assert Same(s[i], e);
    }
  }

  /**
   * Adding an Intersect that no entry equals keeps the entries unique and adds
   * exactly its pair; adding a Begin or End adds no pair.
   */
  lemma {:induction false} AddKeepsUnique(s: seq<Event>, t: seq<Event>, e: Event)
    requires IntersectsUnique(s)
    requires multiset(t) == multiset(s) + multiset{e}
    requires e.Intersect? ==> !Contains(s, e)
    ensures IntersectsUnique(t)
    ensures PairKeys(t) == if e.Intersect? then PairKeys(s) + {PairKey(e)} else PairKeys(s)
  {
    forall x ensures x in t <==> x in s || x == e {
      assert x in t <==> x in multiset(t);
      assert x in s <==> x in multiset(s);
    }
    if e.Intersect? {
      forall i | 0 <= i < |s| ensures s[i] != e {
        assert !Same(s[i], e) && Same(e, e);
      }
      assert e !in s;
      forall x | x in s && x.Intersect? ensures !Same(x, e) && !Same(e, x) {
        var i :| 0 <= i < |s| && s[i] == x;
        SameIsEquivalence(e, x, x);
      }
    }
  }

  /** A permutation of the queue has the same unique pairs. */
  lemma PermutationKeepsUnique(s: seq<Event>, t: seq<Event>)
    requires IntersectsUnique(s) && multiset(t) == multiset(s)
    ensures IntersectsUnique(t) && PairKeys(t) == PairKeys(s)
  {
    forall x ensures x in t <==> x in s {
      assert x in t <==> x in multiset(t);
      assert x in s <==> x in multiset(s);
    }
  }

  /** Two reports name the same unordered pair of ids. */
  predicate SamePair(f: Found, g: Found)
  {
    (f.1 == g.1 && f.2 == g.2) || (f.1 == g.2 && f.2 == g.1)
  }

  /** Dropping the head keeps the Intersect entries unique. */
  lemma UniqueTail(s: seq<Event>)
    requires s != [] && IntersectsUnique(s)
    ensures IntersectsUnique(s[1..])
    ensures s[0].Intersect? ==> s[0] !in s[1..]
  {
    var tail := s[1..];
    assert s == [s[0]] + tail;
    forall x, y | x in tail && y in tail && x.Intersect? && y.Intersect? && Same(x, y)
      ensures x == y && multiset(tail)[x] == 1
    {
      assert x in s && y in s;
      assert multiset(s)[x] == multiset([s[0]])[x] + multiset(tail)[x];
    }
    if s[0].Intersect? {
      assert s[0] in s && Same(s[0], s[0]);
      assert multiset(s)[s[0]] == 1 + multiset(tail)[s[0]];
    }
  }

  /** With unique Intersect entries, no two reports of `get_intersects` share an unordered pair. */
  lemma {:induction false} IntersectsOfDistinct(s: seq<Event>)
    requires IntersectsUnique(s)
    ensures forall k1, k2 :: 0 <= k1 < k2 < |IntersectsOf(s)| ==> !SamePair(IntersectsOf(s)[k1], IntersectsOf(s)[k2])
  {
    if s != [] {
      var tail := s[1..];
      UniqueTail(s);
      IntersectsOfDistinct(tail);
      var rest := IntersectsOf(tail);
      if s[0].Intersect? {
        forall k | 0 <= k < |rest| ensures !SamePair(Report(s[0]), rest[k]) {
          assert ReportedFrom(tail, rest[k]);
          var i :| 0 <= i < |tail| && tail[i].Intersect? && rest[k] == Report(tail[i]);
          assert tail[i] in s && tail[i] != s[0];
          assert !Same(s[0], tail[i]);
        }
        assert IntersectsOf(s) == [Report(s[0])] + rest;
      } else {
        assert IntersectsOf(s) == rest;
      }
    }
  }
}
