/**
 * `find_intersections` of `set_state.py`: the sweep over the
 * `SortedSet`-backed status. At a crossing the two sections leave the status
 * under the previous sweep position and re-enter under the current one,
 * instead of being swapped in place. The module-level `sweep_x` and
 * `previous_sweep_x` are the driver's `sweepX` and the argument handed to
 * the removals; `use_previous` is which of the two a status call receives.
 */
module SetSweep {
  import opened Wrappers
  import opened Events
  import opened Ordering
  import opened SetEvents
  import opened SetBackend
  import opened SweepCommon
  import ListBackend
  import ListSweep

  /** The queue holds no Intersect event. */
  ghost predicate NoCrossings(s: seq<Event>)
  {
    forall e | e in s :: !e.Intersect?
  }

  /** Every entry of the status can be compared at any sweep position. */
  lemma StatusKeyable(canon: seq<Segment>, s: seq<Event>, x: real)
    requires NonVerticalInput(canon) && SweepInv(canon, s)
    ensures AllKeyable(YsKey(x), s)
  {
    forall e | e in s ensures NonVertical(e) {
      assert IsBeginOf(canon, e);
    }
  }

  /** A key that no entry carries is not among the entries' keys. */
  lemma KeyAbsent(s: seq<Event>, e: Event)
    requires forall x | x in s :: SetHashKey(x) != SetHashKey(e)
    ensures SetHashKey(e) !in KeysOf(s)
  {
  }

  /** Adds a section's Begin or End event, whose key the queue does not hold yet. */
  method Enqueue(canon: seq<Segment>, events: EventsState, e: Event)
    requires ValidEntry(canon, e) && !e.Intersect?
    requires events.Valid() && QueueInv(canon, events.items) && Sorted(ByPosition, events.items)
    requires forall x | x in events.items :: SetHashKey(x) != SetHashKey(e)
    modifies events
    ensures events.Valid() && QueueInv(canon, events.items) && Sorted(ByPosition, events.items)
    ensures events.currentIx == old(events.currentIx) && |events.items| == |old(events.items)| + 1
    ensures forall x :: x in events.items <==> x in old(events.items) || x == e
  {
    ghost var before := events.items;
    KeyAbsent(before, e);
    events.Insert(Some(e));
    QueueGrows(canon, before, events.items, e);
  }

  /**
   * Builds the queue: every section's End event, then every Begin event.
   * Each has a key of its own, so each is added.
   */
  method InitialQueue(canon: seq<Segment>) returns (events: EventsState)
    ensures fresh(events) && events.currentIx == 0 && events.Valid()
    ensures |events.items| == 2 * |canon|
    ensures forall i :: 0 <= i < |canon| ==> EndOf(canon, i) in events.items && BeginOf(canon, i) in events.items
    ensures QueueInv(canon, events.items) && Sorted(ByPosition, events.items)
    ensures NoCrossings(events.items)
  {
    events := new EventsState();
    for i := 0 to |canon|
      invariant fresh(events) && events.currentIx == 0 && events.Valid()
      invariant |events.items| == i
      invariant forall j :: 0 <= j < i ==> EndOf(canon, j) in events.items
      invariant forall x | x in events.items :: x.End? && x.segmentId < i
      invariant QueueInv(canon, events.items) && Sorted(ByPosition, events.items)
    {
      ghost var before := events.items;
      Enqueue(canon, events, EndOf(canon, i));
      forall j | 0 <= j <= i ensures EndOf(canon, j) in events.items {
        if j < i {
          assert EndOf(canon, j) in before;
        }
      }
    }
    for i := 0 to |canon|
      invariant fresh(events) && events.currentIx == 0 && events.Valid()
      invariant |events.items| == |canon| + i
      invariant forall j :: 0 <= j < |canon| ==> EndOf(canon, j) in events.items
      invariant forall j :: 0 <= j < i ==> BeginOf(canon, j) in events.items
      invariant forall x | x in events.items :: x.End? || (x.Begin? && x.segmentId < i)
      invariant QueueInv(canon, events.items) && Sorted(ByPosition, events.items)
    {
      ghost var before := events.items;
      Enqueue(canon, events, BeginOf(canon, i));
      forall j | 0 <= j < |canon| ensures EndOf(canon, j) in events.items {
        assert EndOf(canon, j) in before;
      }
      forall j | 0 <= j <= i ensures BeginOf(canon, j) in events.items {
        if j < i {
          assert BeginOf(canon, j) in before;
        }
      }
    }
  }

  /**
   * The queue after `events.insert(p)` for each crossing `p` in turn: every
   * crossing handed in has its key in the queue, and no entry was lost.
   */
  ghost function SetQueueAfter(s: seq<Event>, ps: seq<Option<Event>>): (r: seq<Event>)
    ensures multiset(s) <= multiset(r) && |s| <= |r|
    ensures DistinctKeys(s) ==> DistinctKeys(r)
    ensures forall k :: 0 <= k < |ps| && ps[k].Some? ==> SetHashKey(ps[k].value) in KeysOf(r)
    decreases |ps|
  {
    if ps == [] then s
    else
      var init := SetQueueAfter(s, ps[..|ps| - 1]);
      var r := Added(XsKey, init, ps[|ps| - 1]);
      assert forall k :: 0 <= k < |ps| - 1 && ps[k].Some? ==> SetHashKey(ps[k].value) in KeysOf(r) by {
        forall k | 0 <= k < |ps| - 1 && ps[k].Some? ensures SetHashKey(ps[k].value) in KeysOf(r) {
          assert ps[..|ps| - 1][k] == ps[k];
        }
      }
      r
  }

  /** One more crossing handed in is one more insertion. */
  lemma SetQueueAfterStep(s: seq<Event>, ps: seq<Option<Event>>, i: nat)
    requires i < |ps|
    ensures SetQueueAfter(s, ps[..i + 1]) == Added(XsKey, SetQueueAfter(s, ps[..i]), ps[i])
  {
    assert ps[..i + 1][..i] == ps[..i];
  }

  /** An event's key is among the entries' keys exactly when an entry is equal to it. */
  lemma KeyIffContains(s: seq<Event>, e: Event)
    ensures SetHashKey(e) in KeysOf(s) <==> ListBackend.Contains(s, e)
  {
    if SetHashKey(e) in KeysOf(s) {
      var x :| x in s && SetHashKey(x) == SetHashKey(e);
      var i :| 0 <= i < |s| && s[i] == x;
      SetHashConsistent(x, e);
    }
    if ListBackend.Contains(s, e) {
      var i :| 0 <= i < |s| && Same(s[i], e);
      SetHashConsistent(s[i], e);
      assert s[i] in s;
    }
  }

  /**
   * One crossing handed to a sorted queue: the set-backed `insert` and the
   * list-backed one leave the same queue, sorted.
   */
  lemma AddedAgrees(q: seq<Event>, p: Option<Event>)
    requires Sorted(ByPosition, q)
    requires p.None? || p.value.Intersect?
    ensures Added(XsKey, q, p) == ListBackend.Inserted(ByPosition, q, p)
    ensures Sorted(ByPosition, Added(XsKey, q, p))
  {
    if p.Some? {
      KeyIffContains(q, p.value);
      if SetHashKey(p.value) !in KeysOf(q) {
        QueueInsertAgrees(q, p.value);
      }
    }
  }

  /**
   * The set-backed queue evolves as the list-backed one does: a sorted
   * queue handed the same crossings ends up the same, and sorted.
   */
  lemma {:induction false} SetQueueAgrees(s: seq<Event>, ps: seq<Option<Event>>)
    requires Sorted(ByPosition, s)
    requires forall k :: 0 <= k < |ps| ==> ps[k].None? || ps[k].value.Intersect?
    ensures SetQueueAfter(s, ps) == ListSweep.QueueAfter(s, ps)
    ensures Sorted(ByPosition, SetQueueAfter(s, ps))
    decreases |ps|
  {
    if ps != [] {
      var n := |ps| - 1;
      SetQueueAgrees(s, ps[..n]);
      SetQueueAfterStep(s, ps, n);
      ListSweep.QueueAfterStep(s, ps, n);
      assert ps[..n + 1] == ps;
      AddedAgrees(SetQueueAfter(s, ps[..n]), ps[n]);
    }
  }

  /** The crossings `get_intersect` finds are Intersect events or none. */
  lemma CrossingsAreIntersects(canon: seq<Segment>, cs: Candidates)
    requires AllCandidates(canon, cs)
    ensures forall k :: 0 <= k < |cs| ==> Crossings(canon, cs)[k].None? || Crossings(canon, cs)[k].value.Intersect?
  {
  }

  /** One turn of the `for e1, e2 in events_to_check` loop: `events.insert(Event.get_intersect(e1, e2))`. */
  method TestPair(canon: seq<Segment>, events: EventsState, e1: Option<Event>, e2: Option<Event>)
    requires Candidate(canon, e1) && Candidate(canon, e2)
    requires events.Valid() && QueueInv(canon, events.items) && Sorted(ByPosition, events.items)
    modifies events
    ensures events.currentIx == old(events.currentIx)
    ensures events.items == Added(XsKey, old(events.items), GetIntersect(e1, e2))
    ensures events.Valid() && QueueInv(canon, events.items) && Sorted(ByPosition, events.items)
    ensures events.items == old(events.items) || ListBackend.PairKeys(old(events.items)) < ListBackend.PairKeys(events.items)
  {
    CrossingIsValid(canon, e1, e2);
    var p := GetIntersect(e1, e2);
    ghost var before := events.items;
    events.Insert(p);
    if p.Some? && events.items != before {
      AbsentKeyNotContained(before, p.value);
      ListBackend.ContainsIffPairKey(before, p.value);
      QueueGrows(canon, before, events.items, p.value);
    }
  }

  /**
   * The `for e1, e2 in events_to_check` loop: tests each candidate pair and
   * adds every crossing found. The queue either stays as it is or gains a
   * pair of ids it did not have.
   */
  method InsertCandidates(canon: seq<Segment>, events: EventsState, candidates: Candidates)
    requires AllCandidates(canon, candidates)
    requires events.Valid() && QueueInv(canon, events.items) && Sorted(ByPosition, events.items)
    modifies events
    ensures events.currentIx == old(events.currentIx)
    ensures events.items == SetQueueAfter(old(events.items), Crossings(canon, candidates))
    ensures events.Valid() && QueueInv(canon, events.items) && Sorted(ByPosition, events.items)
    ensures events.items == old(events.items) || ListBackend.PairKeys(old(events.items)) < ListBackend.PairKeys(events.items)
  {
    ghost var ps := Crossings(canon, candidates);
    for i := 0 to |candidates|
      invariant events.currentIx == old(events.currentIx)
      invariant events.items == SetQueueAfter(old(events.items), ps[..i])
      invariant events.Valid() && QueueInv(canon, events.items) && Sorted(ByPosition, events.items)
      invariant events.items == old(events.items) || ListBackend.PairKeys(old(events.items)) < ListBackend.PairKeys(events.items)
    {
      TestPair(canon, events, candidates[i].0, candidates[i].1);
      SetQueueAfterStep(old(events.items), ps, i);
    }
    assert ps[..|candidates|] == ps;
  }

  /**
   * What `get_neighbours(e)` at sweep position `x` yields as candidate
   * pairs: `(prev, e)` and `(e, next)` around the entry `index` finds, or
   * its `ValueError`.
   */
  function PairsAround(canon: seq<Segment>, s: seq<Event>, e: Event, x: real): (r: Result<Candidates>)
    requires NonVerticalInput(canon) && SweepInv(canon, s) && IsBeginOf(canon, e)
    ensures r.Err? <==> Locate(YsKey(x), s, e).Err?
    ensures r.Err? ==> r.raised == ValueError
    ensures r.Ok? ==>
      AllCandidates(canon, r.value) && |r.value| == 2 && r.value[0].1 == Some(e) && r.value[1].0 == Some(e)
    ensures r.Ok? ==>
      var i := Locate(YsKey(x), s, e).value;
      r.value[0].0 == (if i > 0 then Some(s[i - 1]) else None)
      && r.value[1].1 == (if i + 1 < |s| then Some(s[i + 1]) else None)
  {
    StatusKeyable(canon, s, x);
    match NeighboursOf(YsKey(x), s, e)
    case Err(raised) => Err(raised)
    case Ok(around) =>
      NeighboursAreCandidates(canon, s, around);
      TwoCandidates(canon, around.prev, Some(e), Some(e), around.next);
      Ok([(around.prev, Some(e)), (Some(e), around.next)])
  }

  /**
   * A BEGIN event at sweep position `x`: `e` joins the status, then is
   * paired with its neighbours there; the only error is the lookup's.
   */
  ghost function BeginStep(canon: seq<Segment>, s: seq<Event>, e: Event, x: real): (r: Result<(seq<Event>, Candidates)>)
    requires NonVerticalInput(canon) && SweepInv(canon, s) && DistinctKeys(s) && IsBeginOf(canon, e)
    ensures r.Err? <==> Locate(YsKey(x), Added(YsKey(x), s, Some(e)), e).Err?
    ensures r.Err? ==> r.raised == ValueError
    ensures r.Ok? ==> SweepInv(canon, r.value.0) && DistinctKeys(r.value.0) && AllCandidates(canon, r.value.1)
    ensures r.Ok? ==> KeysOf(r.value.0) == KeysOf(s) + {SetHashKey(e)} && multiset(s) <= multiset(r.value.0)
    ensures r.Ok? ==> |r.value.1| == 2 && r.value.1[0].1 == Some(e) && r.value.1[1].0 == Some(e)
  {
    StatusKeyable(canon, s, x);
    var t := Added(YsKey(x), s, Some(e));
    SweepInvFrom(canon, s, t, [e]);
    match PairsAround(canon, t, e, x)
    case Err(raised) => Err(raised)
    case Ok(cs) => Ok((t, cs))
  }

  /**
   * An END event at sweep position `x`: the neighbours of the entry equal
   * to the Begin placeholder are paired with each other, and that entry
   * leaves the status. Once the lookup has found it, the removal finds it
   * too, so the only error is the lookup's.
   */
  ghost function EndStep(canon: seq<Segment>, s: seq<Event>, e: Event, x: real): (r: Result<(seq<Event>, Candidates)>)
    requires NonVerticalInput(canon) && SweepInv(canon, s) && DistinctKeys(s) && e.End?
    ensures r.Err? <==> Locate(YsKey(x), s, Placeholder(e)).Err?
    ensures r.Err? ==> r.raised == ValueError
    ensures r.Ok? ==> SweepInv(canon, r.value.0) && DistinctKeys(r.value.0) && AllCandidates(canon, r.value.1)
    ensures r.Ok? ==>
      var i := Locate(YsKey(x), s, Placeholder(e)).value;
      KeysOf(r.value.0) == KeysOf(s) - {SetHashKey(Placeholder(e))}
      && multiset(r.value.0) + multiset{s[i]} == multiset(s)
      && r.value.1 == [(if i > 0 then Some(s[i - 1]) else None, if i + 1 < |s| then Some(s[i + 1]) else None)]
  {
    var b := Placeholder(e);
    StatusKeyable(canon, s, x);
    match Locate(YsKey(x), s, b)
    case Err(_) => Err(ValueError)
    case Ok(i) =>
      var around := ListBackend.NeighboursAt(s, i);
      NeighboursAreCandidates(canon, s, around);
      OneCandidate(canon, around.prev, around.next);
      SetHashConsistent(s[i], b);
      assert s[i] in s;
      var t := Removed(YsKey(x), s, b).value;
      SweepInvFrom(canon, s, t, []);
      Ok((t, [(around.prev, around.next)]))
  }

  /** A removal from the status leaves only sections' Begin events in it. */
  lemma RemovedKeepsSweepInv(canon: seq<Segment>, s: seq<Event>, e: Event, x: real)
    requires NonVerticalInput(canon) && SweepInv(canon, s) && NonVertical(e)
    ensures Removed(YsKey(x), s, e).Ok? ==> SweepInv(canon, Removed(YsKey(x), s, e).value)
  {
    if Removed(YsKey(x), s, e).Ok? {
      SweepInvFrom(canon, s, Removed(YsKey(x), s, e).value, []);
    }
  }

  /**
   * The removals at a crossing: `prev` and then `nxt` leave the status at
   * the previous sweep position `previousX`, each raising as `remove` does.
   */
  ghost function Departed(canon: seq<Segment>, s: seq<Event>, prev: Event, nxt: Event, previousX: real): (r: Result<seq<Event>>)
    requires NonVerticalInput(canon) && SweepInv(canon, s) && DistinctKeys(s)
    requires IsBeginOf(canon, prev) && IsBeginOf(canon, nxt)
    ensures SetHashKey(prev) !in KeysOf(s) ==> r == Err(KeyError)
    ensures SetHashKey(prev) in KeysOf(s) && Locate(YsKey(previousX), s, prev).Err? ==> r == Err(ValueError)
    ensures SetHashKey(prev) == SetHashKey(nxt) ==> r.Err?
    ensures r.Err? ==> r.raised == KeyError || r.raised == ValueError
    ensures r.Ok? ==>
      SetHashKey(prev) in KeysOf(s) && SetHashKey(nxt) in KeysOf(s) && SetHashKey(prev) != SetHashKey(nxt)
      && Locate(YsKey(previousX), s, prev).Ok?
    ensures r.Ok? ==>
      SweepInv(canon, r.value) && DistinctKeys(r.value) && multiset(r.value) <= multiset(s)
      && KeysOf(r.value) == KeysOf(s) - {SetHashKey(prev), SetHashKey(nxt)} && |r.value| + 2 == |s|
  {
    StatusKeyable(canon, s, previousX);
    match Removed(YsKey(previousX), s, prev)
    case Err(raised) => Err(raised)
    case Ok(t) =>
      RemovedKeepsSweepInv(canon, s, prev, previousX);
      RemovedKeepsSweepInv(canon, t, nxt, previousX);
      Removed(YsKey(previousX), t, nxt)
  }

  /**
   * The additions at a crossing: `nxt` and then `prev`, whose keys the
   * status no longer holds, are added back at sweep position `x`.
   */
  ghost function Rejoined(canon: seq<Segment>, u: seq<Event>, prev: Event, nxt: Event, x: real): (r: seq<Event>)
    requires NonVerticalInput(canon) && SweepInv(canon, u) && DistinctKeys(u)
    requires IsBeginOf(canon, prev) && IsBeginOf(canon, nxt)
    requires SetHashKey(prev) !in KeysOf(u) && SetHashKey(nxt) !in KeysOf(u) && SetHashKey(prev) != SetHashKey(nxt)
    ensures SweepInv(canon, r) && DistinctKeys(r)
    ensures multiset(r) == multiset(u) + multiset{nxt, prev} && |r| == |u| + 2
    ensures KeysOf(r) == KeysOf(u) + {SetHashKey(prev), SetHashKey(nxt)}
  {
    StatusKeyable(canon, u, x);
    var v := Added(YsKey(x), u, Some(nxt));
    SweepInvFrom(canon, u, v, [nxt]);
    StatusKeyable(canon, v, x);
    var w := Added(YsKey(x), v, Some(prev));
    SweepInvFrom(canon, v, w, [prev]);
    w
  }

  /**
   * The re-insertion at a crossing: after the removals at `previousX`,
   * `nxt` and `prev` rejoin at the current sweep position `x`. The status
   * ends with the same keys and the same length.
   */
  ghost function Reentered(canon: seq<Segment>, s: seq<Event>, prev: Event, nxt: Event, previousX: real, x: real)
    : (r: Result<seq<Event>>)
    requires NonVerticalInput(canon) && SweepInv(canon, s) && DistinctKeys(s)
    requires IsBeginOf(canon, prev) && IsBeginOf(canon, nxt)
    ensures Departed(canon, s, prev, nxt, previousX).Err? ==> r == Departed(canon, s, prev, nxt, previousX)
    ensures r.Ok? ==>
      Departed(canon, s, prev, nxt, previousX).Ok?
      && multiset(r.value) == multiset(Departed(canon, s, prev, nxt, previousX).value) + multiset{nxt, prev}
    ensures r.Ok? ==>
      SweepInv(canon, r.value) && DistinctKeys(r.value) && KeysOf(r.value) == KeysOf(s) && |r.value| == |s|
  {
    match Departed(canon, s, prev, nxt, previousX)
    case Err(raised) => Err(raised)
    case Ok(u) => Ok(Rejoined(canon, u, prev, nxt, x))
  }

  /**
   * An INTERSECT event of sections `a` and `b`: both re-enter the status in
   * their new order, then each is paired with its new neighbours, `prev`'s
   * pairs first.
   */
  ghost function CrossingStep(canon: seq<Segment>, s: seq<Event>, a: nat, b: nat, previousX: real, x: real)
    : (r: Result<(seq<Event>, Candidates)>)
    requires NonVerticalInput(canon) && SweepInv(canon, s) && DistinctKeys(s) && a < |canon| && b < |canon|
    ensures SetHashKey(BeginOf(canon, a)) !in KeysOf(s) ==> r == Err(KeyError)
    ensures a == b ==> r.Err?
    ensures r.Ok? ==>
      SweepInv(canon, r.value.0) && DistinctKeys(r.value.0) && KeysOf(r.value.0) == KeysOf(s) && |r.value.0| == |s|
    ensures r.Ok? ==> AllCandidates(canon, r.value.1) && |r.value.1| == 4
    ensures r.Ok? ==>
      r.value.1[0].1 == Some(BeginOf(canon, a)) && r.value.1[1].0 == Some(BeginOf(canon, a))
      && r.value.1[2].1 == Some(BeginOf(canon, b)) && r.value.1[3].0 == Some(BeginOf(canon, b))
  {
    var prev, nxt := BeginOf(canon, a), BeginOf(canon, b);
    match Reentered(canon, s, prev, nxt, previousX, x)
    case Err(raised) => Err(raised)
    case Ok(t) =>
      match PairsAround(canon, t, prev, x)
      case Err(raised) => Err(raised)
      case Ok(pp) =>
        match PairsAround(canon, t, nxt, x)
        case Err(raised) => Err(raised)
        case Ok(np) =>
          CandidatesAppend(canon, pp, np);
          Ok((t, pp + np))
  }

  /** BEGIN: the status is `add` of `e` at `x`, and the candidates are the pairs around `e` there. */
  lemma BeginStepParts(canon: seq<Segment>, s: seq<Event>, e: Event, x: real)
    requires NonVerticalInput(canon) && SweepInv(canon, s) && DistinctKeys(s) && IsBeginOf(canon, e)
    ensures var r := BeginStep(canon, s, e, x);
      r.Ok? ==> r.value.0 == Added(YsKey(x), s, Some(e)) && PairsAround(canon, r.value.0, e, x) == Ok(r.value.1)
  {
  }

  /** The removals at a crossing are `prev`'s and then `nxt`'s, both looked up at `previousX`. */
  lemma DepartedParts(canon: seq<Segment>, s: seq<Event>, prev: Event, nxt: Event, previousX: real)
    requires NonVerticalInput(canon) && SweepInv(canon, s) && DistinctKeys(s)
    requires IsBeginOf(canon, prev) && IsBeginOf(canon, nxt)
    ensures var r := Departed(canon, s, prev, nxt, previousX);
      r.Ok? ==>
        var u := Removed(YsKey(previousX), s, prev);
        u.Ok? && r == Removed(YsKey(previousX), u.value, nxt)
  {
  }

  /** The additions at a crossing place `nxt` and then `prev` where `SortedKeyList.add` puts them at `x`. */
  lemma RejoinedOrder(canon: seq<Segment>, u: seq<Event>, prev: Event, nxt: Event, x: real)
    requires NonVerticalInput(canon) && SweepInv(canon, u) && DistinctKeys(u)
    requires IsBeginOf(canon, prev) && IsBeginOf(canon, nxt)
    requires SetHashKey(prev) !in KeysOf(u) && SetHashKey(nxt) !in KeysOf(u) && SetHashKey(prev) != SetHashKey(nxt)
    ensures Rejoined(canon, u, prev, nxt, x) == SortedAdd(YsKey(x), SortedAdd(YsKey(x), u, nxt), prev)
  {
    StatusKeyable(canon, u, x);
    var v := Added(YsKey(x), u, Some(nxt));
    assert v == SortedAdd(YsKey(x), u, nxt);
    assert SetHashKey(prev) !in KeysOf(v);
  }

  /**
   * The new order at a crossing: after the removals, `nxt` and then `prev`
   * are placed where `SortedKeyList.add` puts them at the sweep position `x`.
   */
  lemma ReenteredOrder(canon: seq<Segment>, s: seq<Event>, prev: Event, nxt: Event, previousX: real, x: real)
    requires NonVerticalInput(canon) && SweepInv(canon, s) && DistinctKeys(s)
    requires IsBeginOf(canon, prev) && IsBeginOf(canon, nxt)
    ensures var r := Reentered(canon, s, prev, nxt, previousX, x);
      r.Ok? ==>
        var u := Departed(canon, s, prev, nxt, previousX).value;
        r.value == SortedAdd(YsKey(x), SortedAdd(YsKey(x), u, nxt), prev)
  {
    match Departed(canon, s, prev, nxt, previousX)
    case Err(_) =>
    case Ok(u) =>
      RejoinedOrder(canon, u, prev, nxt, x);
  }

  /**
   * INTERSECT: the status is the re-entered one, and the candidates are the
   * pairs around `prev` followed by the pairs around `nxt` in it.
   */
  lemma CrossingStepParts(canon: seq<Segment>, s: seq<Event>, a: nat, b: nat, previousX: real, x: real)
    requires NonVerticalInput(canon) && SweepInv(canon, s) && DistinctKeys(s) && a < |canon| && b < |canon|
    ensures var r := CrossingStep(canon, s, a, b, previousX, x);
      var pa, pb := BeginOf(canon, a), BeginOf(canon, b);
      r.Ok? ==>
        Reentered(canon, s, pa, pb, previousX, x) == Ok(r.value.0)
        && PairsAround(canon, r.value.0, pa, x).Ok? && PairsAround(canon, r.value.0, pb, x).Ok?
        && r.value.1 == PairsAround(canon, r.value.0, pa, x).value + PairsAround(canon, r.value.0, pb, x).value
  {
    var pa, pb := BeginOf(canon, a), BeginOf(canon, b);
    match Reentered(canon, s, pa, pb, previousX, x)
    case Err(_) =>
    case Ok(t) =>
      match PairsAround(canon, t, pa, x)
      case Err(_) =>
      case Ok(pp) =>
        match PairsAround(canon, t, pb, x)
        case Err(_) =>
        case Ok(np) =>
          assert CrossingStep(canon, s, a, b, previousX, x) == Ok((t, pp + np));
  }

  /**
   * The status update one dequeued event makes and the candidate pairs it
   * hands to the crossing test; `previousX` is the previous event's x.
   */
  ghost function Step(canon: seq<Segment>, s: seq<Event>, e: Event, previousX: Option<real>)
    : (r: Result<(seq<Event>, Candidates)>)
    requires NonVerticalInput(canon) && SweepInv(canon, s) && DistinctKeys(s) && ValidEntry(canon, e)
    requires e.Intersect? ==> previousX.Some?
    ensures r.Ok? ==> SweepInv(canon, r.value.0) && DistinctKeys(r.value.0) && AllCandidates(canon, r.value.1)
  {
    match e
    case Begin(_, p, _) => BeginStep(canon, s, e, p.x)
    case End(_, p) => EndStep(canon, s, e, p.x)
    case Intersect(p, a, b) => CrossingStep(canon, s, a, b, previousX.value, p.x)
  }

  /** `sweep.insert(e)` for a section's Begin event at sweep position `x`. */
  method EnterStatus(canon: seq<Segment>, sweep: State, e: Event, x: real)
    requires NonVerticalInput(canon) && IsBeginOf(canon, e)
    requires sweep.cmpFun == ListBackend.CmpYsFun && sweep.Valid() && SweepInv(canon, sweep.items)
    modifies sweep
    ensures sweep.items == Added(YsKey(x), old(sweep.items), Some(e))
    ensures sweep.Valid() && SweepInv(canon, sweep.items)
    ensures sweep.members == old(sweep.members) + {SetHashKey(e)}
  {
    StatusKeyable(canon, sweep.items, x);
    ghost var before := sweep.items;
    sweep.Insert(Some(e), x);
    SweepInvFrom(canon, before, sweep.items, [e]);
  }

  /** `sweep.remove(e)` for a section's Begin event at sweep position `x`. */
  method LeaveStatus(canon: seq<Segment>, sweep: State, e: Event, x: real) returns (r: Result<()>)
    requires NonVerticalInput(canon) && IsBeginOf(canon, e)
    requires sweep.cmpFun == ListBackend.CmpYsFun && sweep.Valid() && SweepInv(canon, sweep.items)
    modifies sweep
    ensures SweepInv(canon, sweep.items)
    ensures match Removed(YsKey(x), old(sweep.items), e)
      case Err(raised) => r == Err(raised)
      case Ok(t) => r == Ok(()) && sweep.items == t && sweep.Valid()
  {
    StatusKeyable(canon, sweep.items, x);
    ghost var before := sweep.items;
    r := sweep.Remove(Some(e), x);
    SweepInvFrom(canon, before, sweep.items, []);
  }

  /**
   * `get_neighbours(e)` at sweep position `x`, turned into the two candidate
   * pairs `(prev, e)` and `(e, next)`.
   */
  method PairWithNeighbours(canon: seq<Segment>, sweep: State, e: Event, x: real) returns (r: Result<Candidates>)
    requires NonVerticalInput(canon) && IsBeginOf(canon, e)
    requires sweep.cmpFun == ListBackend.CmpYsFun && sweep.Valid() && SweepInv(canon, sweep.items)
    ensures r == PairsAround(canon, sweep.items, e, x)
  {
    StatusKeyable(canon, sweep.items, x);
    var around := sweep.GetNeighbours(Some(e), x);
    if around.Err? {
      return Err(around.raised);
    }
    r := Ok([(around.value.prev, Some(e)), (Some(e), around.value.next)]);
  }

  /** A BEGIN event: the segment enters the status; it is checked for a crossing with both new neighbours. */
  method HandleBegin(canon: seq<Segment>, sweep: State, e: Event, x: real) returns (r: Result<Candidates>)
    requires NonVerticalInput(canon) && IsBeginOf(canon, e)
    requires sweep.cmpFun == ListBackend.CmpYsFun && sweep.Valid() && SweepInv(canon, sweep.items)
    modifies sweep
    ensures sweep.Valid() && SweepInv(canon, sweep.items)
    ensures sweep.items == Added(YsKey(x), old(sweep.items), Some(e))
    ensures match BeginStep(canon, old(sweep.items), e, x)
      case Err(raised) => r == Err(raised)
      case Ok(step) => r == Ok(step.1) && sweep.items == step.0
  {
    EnterStatus(canon, sweep, e, x);
    r := PairWithNeighbours(canon, sweep, e, x);
  }

  /**
   * An END event: the segment's neighbours are taken, then it leaves the
   * status (found through a Begin placeholder equal to its entry); the two
   * neighbours are checked for a crossing with each other.
   */
  method HandleEnd(canon: seq<Segment>, sweep: State, e: Event, x: real) returns (r: Result<Candidates>)
    requires e.End? && NonVerticalInput(canon)
    requires sweep.cmpFun == ListBackend.CmpYsFun && sweep.Valid() && SweepInv(canon, sweep.items)
    modifies sweep
    ensures SweepInv(canon, sweep.items)
    ensures match EndStep(canon, old(sweep.items), e, x)
      case Err(raised) => r == Err(raised) && sweep.items == old(sweep.items)
      case Ok(step) => r == Ok(step.1) && sweep.items == step.0 && sweep.Valid()
  {
    var beginEvent := Begin(e.segmentId, e.position, None);
    StatusKeyable(canon, sweep.items, x);
    var around := sweep.GetNeighbours(Some(beginEvent), x);
    if around.Err? {
      return Err(around.raised);
    }
    ghost var i := Locate(YsKey(x), sweep.items, beginEvent).value;
    SetHashConsistent(sweep.items[i], beginEvent);
    assert sweep.items[i] in sweep.items;
    ghost var before := sweep.items;
    var _ := sweep.Remove(Some(beginEvent), x);
    SweepInvFrom(canon, before, sweep.items, []);
    r := Ok([(around.value.prev, around.value.next)]);
  }

  /**
   * The removals at a crossing: with `use_previous` set, `prev` and then
   * `nxt` leave the status under the previous sweep position.
   */
  method LeaveBoth(canon: seq<Segment>, sweep: State, prev: Event, nxt: Event, previousX: real)
    returns (r: Result<()>)
    requires NonVerticalInput(canon) && IsBeginOf(canon, prev) && IsBeginOf(canon, nxt)
    requires sweep.cmpFun == ListBackend.CmpYsFun && sweep.Valid() && SweepInv(canon, sweep.items)
    modifies sweep
    ensures SweepInv(canon, sweep.items)
    ensures match Departed(canon, old(sweep.items), prev, nxt, previousX)
      case Err(raised) => r == Err(raised)
      case Ok(u) => r == Ok(()) && sweep.items == u && sweep.Valid()
  {
    r := LeaveStatus(canon, sweep, prev, previousX);
    if r.Err? {
      return;
    }
    r := LeaveStatus(canon, sweep, nxt, previousX);
  }

  /**
   * The re-insertion at a crossing: `prev` and `nxt` leave the status under
   * the previous sweep position, then `nxt` and `prev` re-enter under the
   * current one.
   */
  method Reinsert(canon: seq<Segment>, sweep: State, prev: Event, nxt: Event, previousX: real, x: real)
    returns (r: Result<()>)
    requires NonVerticalInput(canon) && IsBeginOf(canon, prev) && IsBeginOf(canon, nxt)
    requires sweep.cmpFun == ListBackend.CmpYsFun && sweep.Valid() && SweepInv(canon, sweep.items)
    modifies sweep
    ensures SweepInv(canon, sweep.items)
    ensures match Reentered(canon, old(sweep.items), prev, nxt, previousX, x)
      case Err(raised) => r == Err(raised)
      case Ok(w) => r == Ok(()) && sweep.items == w && sweep.Valid()
  {
    r := LeaveBoth(canon, sweep, prev, nxt, previousX);
    if r.Err? {
      return;
    }
    ghost var u := sweep.items;
    EnterStatus(canon, sweep, nxt, x);
    EnterStatus(canon, sweep, prev, x);
    assert sweep.items == Rejoined(canon, u, prev, nxt, x);
  }

  /**
   * An INTERSECT event: the two sections re-enter the status in their new
   * order; each is checked for a crossing with its new neighbours.
   */
  method HandleCrossing(canon: seq<Segment>, sweep: State, a: nat, b: nat, previousX: real, x: real)
    returns (r: Result<Candidates>)
    requires NonVerticalInput(canon) && a < |canon| && b < |canon|
    requires sweep.cmpFun == ListBackend.CmpYsFun && sweep.Valid() && SweepInv(canon, sweep.items)
    modifies sweep
    ensures SweepInv(canon, sweep.items)
    ensures match CrossingStep(canon, old(sweep.items), a, b, previousX, x)
      case Err(raised) => r == Err(raised)
      case Ok(step) => r == Ok(step.1) && sweep.items == step.0 && sweep.Valid()
  {
    var prev, nxt := BeginOf(canon, a), BeginOf(canon, b);
    var moved := Reinsert(canon, sweep, prev, nxt, previousX, x);
    if moved.Err? {
      return Err(moved.raised);
    }
    var prevPairs := PairWithNeighbours(canon, sweep, prev, x);
    if prevPairs.Err? {
      return Err(prevPairs.raised);
    }
    var nxtPairs := PairWithNeighbours(canon, sweep, nxt, x);
    if nxtPairs.Err? {
      return Err(nxtPairs.raised);
    }
    r := Ok(prevPairs.value + nxtPairs.value);
  }

  /** The status update for one dequeued event, by its kind. */
  method Handle(canon: seq<Segment>, sweep: State, e: Event, previousX: Option<real>) returns (r: Result<Candidates>)
    requires NonVerticalInput(canon) && ValidEntry(canon, e) && (e.Intersect? ==> previousX.Some?)
    requires sweep.cmpFun == ListBackend.CmpYsFun && sweep.Valid() && SweepInv(canon, sweep.items)
    modifies sweep
    ensures SweepInv(canon, sweep.items)
    ensures match Step(canon, old(sweep.items), e, previousX)
      case Err(raised) => r == Err(raised)
      case Ok(step) => r == Ok(step.1) && sweep.items == step.0 && sweep.Valid()
  {
    match e {
      case Begin(_, p, _) =>
        r := HandleBegin(canon, sweep, e, p.x);
      case End(_, p) =>
        r := HandleEnd(canon, sweep, e, p.x);
      case Intersect(p, a, b) =>
        r := HandleCrossing(canon, sweep, a, b, previousX.value, p.x);
    }
  }

  /**
   * One turn of the `while events.has_next()` loop: dequeue, move
   * `previous_sweep_x` and `sweep_x` on, update the status, and queue the
   * crossings found among the candidates. The new `sweep_x`, the dequeued
   * event's x, is returned. An Intersect is never the first event, so the
   * previous sweep position is always set when a crossing needs it.
   */
  method Advance(canon: seq<Segment>, events: EventsState, sweep: State, sweepX: Option<real>) returns (r: Result<real>)
    requires NonVerticalInput(canon) && events.HasNext()
    requires events.Valid() && QueueInv(canon, events.items) && Sorted(ByPosition, events.items)
    requires sweep.cmpFun == ListBackend.CmpYsFun && sweep.Valid() && SweepInv(canon, sweep.items)
    requires sweepX.None? ==> NoCrossings(events.items)
    modifies events, sweep
    ensures events.currentIx == old(events.currentIx) + 1 && events.currentIx <= |events.items|
    ensures
      var e := old(events.items)[old(events.currentIx)];
      ValidEntry(canon, e) && (e.Intersect? ==> sweepX.Some?)
      && match Step(canon, old(sweep.items), e, sweepX)
         case Err(raised) => r == Err(raised) && events.items == old(events.items)
         case Ok(step) =>
           r == Ok(e.position.x) && sweep.items == step.0
           && events.items == SetQueueAfter(old(events.items), Crossings(canon, step.1))
    ensures events.Valid() && QueueInv(canon, events.items) && Sorted(ByPosition, events.items)
    ensures SweepInv(canon, sweep.items) && multiset(old(events.items)) <= multiset(events.items)
    ensures r.Ok? ==> sweep.Valid()
    ensures events.items == old(events.items) || ListBackend.PairKeys(old(events.items)) < ListBackend.PairKeys(events.items)
  {
    var next := events.Next();
    var e := next.value;
    assert e in events.items;
    var previousSweepX := sweepX;
    var x := e.position.x;
    ghost var step := Step(canon, sweep.items, e, previousSweepX);
    var handled := Handle(canon, sweep, e, previousSweepX);
    if handled.Err? {
      return Err(handled.raised);
    }
    assert step.Ok? && handled.value == step.value.1;
    InsertCandidates(canon, events, handled.value);
    r := Ok(x);
  }

  /**
   * `Advance` with what the `while` loop keeps: the invariants, the
   * sections' events still queued, and progress on the termination measure.
   */
  method Turn(canon: seq<Segment>, events: EventsState, sweep: State, sweepX: Option<real>) returns (r: Result<real>)
    requires NonVerticalInput(canon) && events.HasNext()
    requires events.Valid() && QueueInv(canon, events.items) && Sorted(ByPosition, events.items)
    requires sweep.cmpFun == ListBackend.CmpYsFun && sweep.Valid() && SweepInv(canon, sweep.items)
    requires sweepX.None? ==> NoCrossings(events.items)
    requires HoldsSections(canon, events.items)
    modifies events, sweep
    ensures events.currentIx <= |events.items|
    ensures events.Valid() && QueueInv(canon, events.items) && Sorted(ByPosition, events.items)
    ensures SweepInv(canon, sweep.items) && HoldsSections(canon, events.items)
    ensures r.Ok? ==> sweep.Valid()
    ensures
      var all := AllPairs(|canon|);
      |all - ListBackend.PairKeys(events.items)| < |all - ListBackend.PairKeys(old(events.items))|
      || (ListBackend.PairKeys(events.items) == ListBackend.PairKeys(old(events.items))
          && |events.items| - events.currentIx < |old(events.items)| - old(events.currentIx))
  {
    ghost var keysBefore := ListBackend.PairKeys(events.items);
    ghost var queueBefore := events.items;
    r := Advance(canon, events, sweep, sweepX);
    HoldsSectionsGrows(canon, queueBefore, events.items);
    PairsInRange(canon, events.items);
    if ListBackend.PairKeys(events.items) != keysBefore {
      UnseenShrinks(AllPairs(|canon|), keysBefore, ListBackend.PairKeys(events.items));
    }
  }

  /**
   * `find_intersections`: the reported crossings, each as (point, id, id)
   * with 1-based ids, or the exception raised on the way. An empty input
   * raises at once, when the unused `sweep_bounds` takes the minimum of an
   * empty list. `queue` is the event queue the sweep ends with: the reports
   * are its Intersect entries, and it still holds every section's Begin and
   * End events.
   */
  method FindIntersections(sections: seq<Segment>) returns (r: Result<seq<ListBackend.Found>>, ghost queue: seq<Event>)
    requires NonVerticalInput(sections)
    ensures sections == [] ==> r == Err(ValueError)
    ensures r.Ok? ==> Reported(sections, r.value)
    ensures r.Ok? ==> r.value == Shift(ListBackend.IntersectsOf(queue))
    ensures r.Ok? ==>
      var canon := CanonicalAll(sections);
      QueueInv(canon, queue) && Sorted(ByPosition, queue) && DistinctKeys(queue) && HoldsSections(canon, queue)
  {
    if |sections| == 0 {
      return Err(ValueError), [];
    }
    var canon := CanonicalAll(sections);
    assert NonVerticalInput(canon);
    var events := InitialQueue(canon);
    var sweep := new State(ListBackend.CmpYsFun);
    var sweepX: Option<real> := None;
    while events.HasNext()
      invariant fresh(events) && fresh(sweep)
      invariant sweep.cmpFun == ListBackend.CmpYsFun && NonVerticalInput(canon)
      invariant events.currentIx <= |events.items|
      invariant events.Valid() && QueueInv(canon, events.items) && Sorted(ByPosition, events.items)
      invariant sweep.Valid() && SweepInv(canon, sweep.items)
      invariant sweepX.None? ==> NoCrossings(events.items)
      invariant HoldsSections(canon, events.items)
      decreases |AllPairs(|canon|) - ListBackend.PairKeys(events.items)|, |events.items| - events.currentIx
    {
      var step := Turn(canon, events, sweep, sweepX);
      if step.Err? {
        return Err(step.raised), events.items;
      }
      sweepX := Some(step.value);
    }
    OutputReported(sections, canon, events.items);
    r := Ok(Shift(ListBackend.IntersectsOf(events.items)));
    queue := events.items;
  }
}
