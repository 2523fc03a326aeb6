/**
 * `find_intersections` of `list_state.py`: the sweep over the list-backed
 * status, with an explicit positional swap at each crossing. The module-level
 * `sweep_x` is the local `sweepX`, handed to every status call that compares.
 */
module ListSweep {
  import opened Wrappers
  import opened Geometry
  import opened Events
  import opened Ordering
  import opened ListBackend
  import opened SweepCommon

  /** Inserts a section's Begin or End event into the queue. */
  method Enqueue(canon: seq<Segment>, events: EventsState, e: Event)
    requires ValidEntry(canon, e) && !e.Intersect?
    requires QueueInv(canon, events.state) && Sorted(ByPosition, events.state)
    modifies events
    ensures QueueInv(canon, events.state) && Sorted(ByPosition, events.state)
    ensures events.currentIx == old(events.currentIx) && |events.state| == |old(events.state)| + 1
    ensures forall x :: x in events.state <==> x in old(events.state) || x == e
    ensures PairKeys(events.state) == PairKeys(old(events.state))
  {
    ghost var before := events.state;
    events.Insert(Some(e));
    QueueGrows(canon, before, events.state, e);
  }

  /**
   * Builds the queue: every section's End event, then every Begin event,
   * each inserted (and re-sorted) one at a time.
   */
  method InitialQueue(canon: seq<Segment>) returns (events: EventsState)
    ensures fresh(events) && events.currentIx == 0
    ensures |events.state| == 2 * |canon|
    ensures forall i :: 0 <= i < |canon| ==> EndOf(canon, i) in events.state && BeginOf(canon, i) in events.state
    ensures QueueInv(canon, events.state) && Sorted(ByPosition, events.state)
    ensures PairKeys(events.state) == {}
  {
    events := new EventsState();
    for i := 0 to |canon|
      invariant fresh(events) && events.currentIx == 0
      invariant |events.state| == i
      invariant forall j :: 0 <= j < i ==> EndOf(canon, j) in events.state
      invariant QueueInv(canon, events.state) && Sorted(ByPosition, events.state)
      invariant PairKeys(events.state) == {}
    {
      ghost var before := events.state;
      Enqueue(canon, events, EndOf(canon, i));
      forall j | 0 <= j <= i ensures EndOf(canon, j) in events.state {
        if j < i {
          assert EndOf(canon, j) in before;
        }
      }
    }
    for i := 0 to |canon|
      invariant fresh(events) && events.currentIx == 0
      invariant |events.state| == |canon| + i
      invariant forall j :: 0 <= j < |canon| ==> EndOf(canon, j) in events.state
      invariant forall j :: 0 <= j < i ==> BeginOf(canon, j) in events.state
      invariant QueueInv(canon, events.state) && Sorted(ByPosition, events.state)
      invariant PairKeys(events.state) == {}
    {
      ghost var before := events.state;
      Enqueue(canon, events, BeginOf(canon, i));
      forall j | 0 <= j < |canon| ensures EndOf(canon, j) in events.state {
        assert EndOf(canon, j) in before;
      }
      forall j | 0 <= j <= i ensures BeginOf(canon, j) in events.state {
        if j < i {
          assert BeginOf(canon, j) in before;
        }
      }
    }
  }

  /**
   * The queue after `events.insert(p)` for each `p` in turn: every crossing
   * handed in is in it afterwards, and no entry was lost.
   */
  function QueueAfter(s: seq<Event>, ps: seq<Option<Event>>): (r: seq<Event>)
    ensures multiset(s) <= multiset(r) && |s| <= |r|
    ensures forall k :: 0 <= k < |ps| && ps[k].Some? ==> Contains(r, ps[k].value)
    decreases |ps|
  {
    if ps == [] then s
    else
      var init := QueueAfter(s, ps[..|ps| - 1]);
      var r := Inserted(ByPosition, init, ps[|ps| - 1]);
      assert forall k :: 0 <= k < |ps| - 1 && ps[k].Some? ==> Contains(r, ps[k].value) by {
        forall k | 0 <= k < |ps| - 1 && ps[k].Some? ensures Contains(r, ps[k].value) {
          assert ps[..|ps| - 1][k] == ps[k];
          ContainsGrows(init, r, ps[k].value);
        }
      }
      r
  }

  /** One more crossing handed in is one more insertion. */
  lemma QueueAfterStep(s: seq<Event>, ps: seq<Option<Event>>, i: nat)
    requires i < |ps|
    ensures QueueAfter(s, ps[..i + 1]) == Inserted(ByPosition, QueueAfter(s, ps[..i]), ps[i])
  {
    assert ps[..i + 1][..i] == ps[..i];
  }

  /** One turn of the `for e1, e2 in events_to_check` loop: `events.insert(Event.get_intersect(e1, e2))`. */
  method TestPair(canon: seq<Segment>, events: EventsState, e1: Option<Event>, e2: Option<Event>)
    requires Candidate(canon, e1) && Candidate(canon, e2)
    requires QueueInv(canon, events.state) && Sorted(ByPosition, events.state)
    modifies events
    ensures events.currentIx == old(events.currentIx)
    ensures events.state == Inserted(ByPosition, old(events.state), GetIntersect(e1, e2))
    ensures QueueInv(canon, events.state) && Sorted(ByPosition, events.state)
    ensures events.state == old(events.state) || PairKeys(old(events.state)) < PairKeys(events.state)
  {
    CrossingIsValid(canon, e1, e2);
    var p := GetIntersect(e1, e2);
    ghost var before := events.state;
    events.Insert(p);
    if p.Some? && events.state != before {
      ContainsIffPairKey(before, p.value);
      QueueGrows(canon, before, events.state, p.value);
    }
  }

  /**
   * The `for e1, e2 in events_to_check` loop: tests each candidate pair and
   * inserts every crossing found. The queue either stays as it is or gains a
   * pair of ids it did not have.
   */
  method InsertCandidates(canon: seq<Segment>, events: EventsState, candidates: Candidates)
    requires AllCandidates(canon, candidates)
    requires QueueInv(canon, events.state) && Sorted(ByPosition, events.state)
    modifies events
    ensures events.currentIx == old(events.currentIx)
    ensures events.state == QueueAfter(old(events.state), Crossings(canon, candidates))
    ensures QueueInv(canon, events.state) && Sorted(ByPosition, events.state)
    ensures events.state == old(events.state) || PairKeys(old(events.state)) < PairKeys(events.state)
  {
    ghost var ps := Crossings(canon, candidates);
    for i := 0 to |candidates|
      invariant events.currentIx == old(events.currentIx)
      invariant events.state == QueueAfter(old(events.state), ps[..i])
      invariant QueueInv(canon, events.state) && Sorted(ByPosition, events.state)
      invariant events.state == old(events.state) || PairKeys(old(events.state)) < PairKeys(events.state)
    {
      var (e1, e2) := candidates[i];
      TestPair(canon, events, e1, e2);
      QueueAfterStep(old(events.state), ps, i);
    }
    assert ps[..|candidates|] == ps;
  }

  /** Every entry of the status has a sweep height at any sweep position. */
  lemma StatusComparable(canon: seq<Segment>, s: seq<Event>, sweepX: real)
    requires NonVerticalInput(canon) && SweepInv(canon, s)
    ensures AllComparable(BySweepY(sweepX), s)
  {
    forall e | e in s ensures NonVertical(e) {
      assert IsBeginOf(canon, e);
    }
  }

  /**
   * BEGIN at sweep position `x`: the status re-sorted with `e` added, and `e`
   * paired with the entries just before and after it there.
   */
  function BeginStep(canon: seq<Segment>, s: seq<Event>, e: Event, x: real): (r: (seq<Event>, Candidates))
    requires NonVerticalInput(canon) && SweepInv(canon, s) && IsBeginOf(canon, e)
    ensures SweepInv(canon, r.0) && AllCandidates(canon, r.1)
    ensures multiset(r.0) == multiset(s) + multiset{e}
    ensures AllComparable(BySweepY(x), r.0) && Sorted(BySweepY(x), r.0)
  {
    StatusComparable(canon, s, x);
    var t := Inserted(BySweepY(x), s, Some(e));
    SweepInvFrom(canon, s, t, [e]);
    var around := Around(t, e);
    NeighboursAreCandidates(canon, t, around);
    TwoCandidates(canon, Some(e), around.prev, Some(e), around.next);
    (t, [(Some(e), around.prev), (Some(e), around.next)])
  }

  /**
   * BEGIN: the status is `sorted` of the old one plus `e` at `x`, and `e` is
   * paired with the entries just before and after its first match there.
   */
  lemma BeginStepParts(canon: seq<Segment>, s: seq<Event>, e: Event, x: real)
    requires NonVerticalInput(canon) && SweepInv(canon, s) && IsBeginOf(canon, e)
    ensures AllComparable(BySweepY(x), s + [e])
    ensures BeginStep(canon, s, e, x).0 == StableSort(BySweepY(x), s + [e])
    ensures var r := BeginStep(canon, s, e, x);
      Contains(r.0, e) && var i := FirstMatch(r.0, e).value;
      r.1 == [(Some(e), if i > 0 then Some(r.0[i - 1]) else None),
              (Some(e), if i + 1 < |r.0| then Some(r.0[i + 1]) else None)]
  {
    StatusComparable(canon, s + [e], x);
  }

  /**
   * END: the first entry `==` to the section's placeholder leaves the status,
   * and the two entries that were beside it are paired; without such an
   * entry, the scan's `UnboundLocalError`.
   */
  function EndStep(canon: seq<Segment>, s: seq<Event>, e: Event): (r: Result<(seq<Event>, Candidates)>)
    requires SweepInv(canon, s) && e.End?
    ensures r.Err? <==> !Contains(s, Placeholder(e))
    ensures r.Err? ==> r.raised == UnboundLocalError
    ensures r.Ok? ==> SweepInv(canon, r.value.0) && AllCandidates(canon, r.value.1)
    ensures r.Ok? ==> |r.value.0| + 1 == |s|
    ensures r.Ok? ==> forall x | x in s && !(x.Begin? && x.segmentId == e.segmentId) :: x in r.value.0
    ensures r.Ok? ==> var i := FirstMatch(s, Placeholder(e)).value;
      r.value.0 == s[..i] + s[i + 1..] &&
      r.value.1 == [(if i > 0 then Some(s[i - 1]) else None, if i + 1 < |s| then Some(s[i + 1]) else None)]
  {
    var b := Placeholder(e);
    if !Contains(s, b) then Err(UnboundLocalError)
    else
      var i := FirstMatch(s, b).value;
      var t := s[..i] + s[i + 1..];
      var around := NeighboursAt(s, i);
      assert s == s[..i] + [s[i]] + s[i + 1..];
      SweepInvFrom(canon, s, t, []);
      NeighboursAreCandidates(canon, s, around);
      OneCandidate(canon, around.prev, around.next);
      Ok((t, [(around.prev, around.next)]))
  }

  /** After the exchange both entries are still found, and the status still holds only Begin events. */
  lemma SwapKeeps(canon: seq<Segment>, s: seq<Event>, prev: Event, nxt: Event)
    requires SweepInv(canon, s) && Contains(s, prev) && Contains(s, nxt)
    ensures var t := SwapAt(s, FirstMatch(s, prev).value, FirstMatch(s, nxt).value);
      SweepInv(canon, t) && Contains(t, prev) && Contains(t, nxt)
  {
    var i, j := FirstMatch(s, prev).value, FirstMatch(s, nxt).value;
    var t := SwapAt(s, i, j);
    assert Same(t[j], prev) && Same(t[i], nxt);
    SweepInvFrom(canon, s, t, []);
  }

  /**
   * INTERSECT of sections `a` and `b`: their first entries trade places, and
   * each is paired with the entries beside it afterwards; when either is
   * missing, the scan's `UnboundLocalError`.
   */
  function CrossingStep(canon: seq<Segment>, s: seq<Event>, a: nat, b: nat): (r: Result<(seq<Event>, Candidates)>)
    requires SweepInv(canon, s) && a < |canon| && b < |canon|
    ensures r.Err? <==> !Contains(s, BeginOf(canon, a)) || !Contains(s, BeginOf(canon, b))
    ensures r.Err? ==> r.raised == UnboundLocalError
    ensures r.Ok? ==> SweepInv(canon, r.value.0) && AllCandidates(canon, r.value.1)
    ensures r.Ok? ==> multiset(r.value.0) == multiset(s)
    ensures r.Ok? ==>
      var pa, pb := BeginOf(canon, a), BeginOf(canon, b);
      var t := r.value.0;
      t == SwapAt(s, FirstMatch(s, pa).value, FirstMatch(s, pb).value) &&
      Contains(t, pa) && Contains(t, pb) &&
      r.value.1 == [(Some(pa), Around(t, pa).prev), (Some(pa), Around(t, pa).next),
                    (Some(pb), Around(t, pb).prev), (Some(pb), Around(t, pb).next)]
  {
    var prev, nxt := BeginOf(canon, a), BeginOf(canon, b);
    if !Contains(s, prev) || !Contains(s, nxt) then Err(UnboundLocalError)
    else
      var t := SwapAt(s, FirstMatch(s, prev).value, FirstMatch(s, nxt).value);
      SwapKeeps(canon, s, prev, nxt);
      var p, n := Around(t, prev), Around(t, nxt);
      NeighboursAreCandidates(canon, t, p);
      NeighboursAreCandidates(canon, t, n);
      FourCandidates(canon, Some(prev), p.prev, Some(prev), p.next, Some(nxt), n.prev, Some(nxt), n.next);
      Ok((t, [(Some(prev), p.prev), (Some(prev), p.next), (Some(nxt), n.prev), (Some(nxt), n.next)]))
  }

  /** What handling the queue entry `e` does to the status, at `e`'s x. */
  function Step(canon: seq<Segment>, s: seq<Event>, e: Event): (r: Result<(seq<Event>, Candidates)>)
    requires NonVerticalInput(canon) && SweepInv(canon, s) && ValidEntry(canon, e)
    ensures r.Ok? ==> SweepInv(canon, r.value.0) && AllCandidates(canon, r.value.1)
  {
    match e
    case Begin(_, p, _) => Ok(BeginStep(canon, s, e, p.x))
    case End(_, _) => EndStep(canon, s, e)
    case Intersect(_, a, b) => CrossingStep(canon, s, a, b)
  }

  /** `sweep.insert(e)` for a section's Begin event: the status is re-sorted with `e` at the sweep x. */
  method EnterStatus(canon: seq<Segment>, sweep: State, e: Event, sweepX: real)
    requires NonVerticalInput(canon) && IsBeginOf(canon, e)
    requires sweep.cmpFun == CmpYsFun && SweepInv(canon, sweep.state)
    modifies sweep
    ensures sweep.state == BeginStep(canon, old(sweep.state), e, sweepX).0
    ensures SweepInv(canon, sweep.state) && Contains(sweep.state, e)
  {
    StatusComparable(canon, sweep.state, sweepX);
    sweep.Insert(Some(e), sweepX);
  }

  /** A BEGIN event: the segment enters the status; it is checked for a crossing with both new neighbours. */
  method HandleBegin(canon: seq<Segment>, sweep: State, e: Event, sweepX: real) returns (cs: Candidates)
    requires NonVerticalInput(canon) && IsBeginOf(canon, e)
    requires sweep.cmpFun == CmpYsFun && SweepInv(canon, sweep.state)
    modifies sweep
    ensures (sweep.state, cs) == BeginStep(canon, old(sweep.state), e, sweepX)
  {
    EnterStatus(canon, sweep, e, sweepX);
    var around := sweep.GetNeighbours(Some(e));
    cs := [(Some(e), around.value.prev), (Some(e), around.value.next)];
  }

  /**
   * An END event: the segment's neighbours are taken, then it leaves the
   * status (found through a Begin placeholder equal to its entry); the two
   * neighbours are checked for a crossing with each other.
   */
  method HandleEnd(canon: seq<Segment>, sweep: State, e: Event) returns (r: Result<Candidates>)
    requires e.End? && SweepInv(canon, sweep.state)
    modifies sweep
    ensures match EndStep(canon, old(sweep.state), e)
      case Err(raised) => r == Err(raised) && sweep.state == old(sweep.state)
      case Ok(step) => r == Ok(step.1) && sweep.state == step.0
  {
    var beginEvent := Placeholder(e);
    var around := sweep.GetNeighbours(Some(beginEvent));
    if around.Err? {
      return Err(around.raised);
    }
    var removed := sweep.Remove(Some(beginEvent));
    r := Ok([(around.value.prev, around.value.next)]);
  }

  /**
   * An INTERSECT event: the two sections' entries trade places in the
   * status; each is checked for a crossing with its new neighbours.
   */
  method HandleCrossing(canon: seq<Segment>, sweep: State, a: nat, b: nat) returns (r: Result<Candidates>)
    requires a < |canon| && b < |canon| && SweepInv(canon, sweep.state)
    modifies sweep
    ensures match CrossingStep(canon, old(sweep.state), a, b)
      case Err(raised) => r == Err(raised) && sweep.state == old(sweep.state)
      case Ok(step) => r == Ok(step.1) && sweep.state == step.0
  {
    var prev, nxt := BeginOf(canon, a), BeginOf(canon, b);
    var swapped := sweep.SwapEvents(Some(prev), Some(nxt));
    if swapped.Err? {
      return Err(swapped.raised);
    }
    // Both entries survive the swap, so neither lookup can fail.
    var prevAround := sweep.GetNeighbours(Some(prev));
    var nxtAround := sweep.GetNeighbours(Some(nxt));
    var (p1, p2) := (prevAround.value.prev, prevAround.value.next);
    var (n1, n2) := (nxtAround.value.prev, nxtAround.value.next);
    r := Ok([(Some(prev), p1), (Some(prev), p2), (Some(nxt), n1), (Some(nxt), n2)]);
  }

  /** The `if e.type == ...` branches: the status update for `e` at `e`'s x, and its candidate pairs. */
  method Handle(canon: seq<Segment>, sweep: State, e: Event) returns (r: Result<Candidates>)
    requires NonVerticalInput(canon) && ValidEntry(canon, e)
    requires sweep.cmpFun == CmpYsFun && SweepInv(canon, sweep.state)
    modifies sweep
    ensures match Step(canon, old(sweep.state), e)
      case Err(raised) => r == Err(raised) && sweep.state == old(sweep.state)
      case Ok(step) => r == Ok(step.1) && sweep.state == step.0
  {
    match e {
      case Begin(_, _, _) =>
        var cs := HandleBegin(canon, sweep, e, e.position.x);
        r := Ok(cs);
      case End(_, _) =>
        r := HandleEnd(canon, sweep, e);
      case Intersect(_, a, b) =>
        r := HandleCrossing(canon, sweep, a, b);
    }
  }

  /**
   * One turn of the `while events.has_next()` loop: dequeue, move the
   * module-level sweep position to the event, update the status, and queue
   * the crossings found among the candidates.
   */
  method Advance(canon: seq<Segment>, events: EventsState, sweep: State) returns (r: Result<()>)
    requires events != sweep as object
    requires NonVerticalInput(canon) && events.HasNext()
    requires QueueInv(canon, events.state) && Sorted(ByPosition, events.state)
    requires sweep.cmpFun == CmpYsFun && SweepInv(canon, sweep.state)
    modifies events, sweep
    ensures events.currentIx == old(events.currentIx) + 1 && events.currentIx <= |events.state|
    ensures var e := old(events.state)[old(events.currentIx)];
      ValidEntry(canon, e) &&
      match Step(canon, old(sweep.state), e)
      case Err(raised) => r == Err(raised) && sweep.state == old(sweep.state) && events.state == old(events.state)
      case Ok(step) =>
        r.Ok? && sweep.state == step.0 && events.state == QueueAfter(old(events.state), Crossings(canon, step.1))
    ensures QueueInv(canon, events.state) && Sorted(ByPosition, events.state)
    ensures SweepInv(canon, sweep.state) && multiset(old(events.state)) <= multiset(events.state)
    ensures events.state == old(events.state) || PairKeys(old(events.state)) < PairKeys(events.state)
  {
    ghost var queue := events.state;
    var next := events.Next();
    var e := next.value;
    assert ValidEntry(canon, e);
    ghost var step := Step(canon, sweep.state, e);
    var handled := Handle(canon, sweep, e);
    if handled.Err? {
      return Err(handled.raised);
    }
    assert step.Ok? && handled.value == step.value.1;
    InsertCandidates(canon, events, handled.value);
    assert events.state == QueueAfter(queue, Crossings(canon, step.value.1));
    r := Ok(());
  }

  /**
   * `find_intersections`: the reported crossings, each as (point, id, id)
   * with 1-based ids, or the exception a status lookup raised. `queue` is
   * the event queue the sweep ends with: the reports are its Intersect
   * entries, and it still holds every section's Begin and End events.
   */
  method FindIntersections(sections: seq<Segment>) returns (r: Result<seq<Found>>, ghost queue: seq<Event>)
    requires NonVerticalInput(sections)
    ensures r.Ok? ==> Reported(sections, r.value)
    ensures r.Ok? ==> r.value == Shift(IntersectsOf(queue))
    ensures r.Ok? ==>
      var canon := CanonicalAll(sections);
      QueueInv(canon, queue) && Sorted(ByPosition, queue)
      && HoldsSections(canon, queue)
    ensures sections == [] ==> r == Ok([])
  {
    var canon := CanonicalAll(sections);
    assert NonVerticalInput(canon);
    var events := InitialQueue(canon);
    var sweep := new State(CmpYsFun);
    while events.HasNext()
      invariant fresh(events) && fresh(sweep)
      invariant sweep.cmpFun == CmpYsFun && NonVerticalInput(canon)
      invariant events.currentIx <= |events.state|
      invariant QueueInv(canon, events.state) && Sorted(ByPosition, events.state)
      invariant SweepInv(canon, sweep.state)
      invariant HoldsSections(canon, events.state)
      invariant |canon| == 0 ==> events.state == []
      decreases |AllPairs(|canon|) - PairKeys(events.state)|, |events.state| - events.currentIx
    {
      ghost var keysBefore := PairKeys(events.state);
      ghost var queueBefore := events.state;
      var step := Advance(canon, events, sweep);
      if step.Err? {
        return Err(step.raised), events.state;
      }
      HoldsSectionsGrows(canon, queueBefore, events.state);
      PairsInRange(canon, events.state);
      if PairKeys(events.state) != keysBefore {
        UnseenShrinks(AllPairs(|canon|), keysBefore, PairKeys(events.state));
      }
    }
    OutputReported(sections, canon, events.state);
    r := Ok(Shift(IntersectsOf(events.state)));
    queue := events.state;
  }
}
