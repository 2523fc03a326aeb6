/**
 * What the two `find_intersections` drivers share: the input segments and
 * their canonical orientation, the Begin/End events built from them, the
 * invariants the event queue and the status keep, and the output contract.
 */
module SweepCommon {
  import opened Wrappers
  import opened Geometry
  import opened Events
  import opened Ordering
  import opened ListBackend

  /** One input section: a pair of points, in the order the caller gave them. */
  datatype Segment = Segment(first: Point, second: Point)

  /** No section is vertical: the sweep-line height divides by its dx. */
  predicate NonVerticalInput(sections: seq<Segment>)
  {
    forall i :: 0 <= i < |sections| ==> sections[i].first.x != sections[i].second.x
  }

  /** The nested `swap(coord)`: the endpoint with the smaller x first. */
  function Canonical(s: Segment): (r: Segment)
    ensures r.first.x <= r.second.x
    ensures s.first.x != s.second.x ==> r.first.x < r.second.x
    ensures (r.first, r.second) == (s.first, s.second) || (r.first, r.second) == (s.second, s.first)
  {
    if s.first.x < s.second.x then s else Segment(s.second, s.first)
  }

  /** `sections = [swap(val) for val in sections]`. */
  function CanonicalAll(sections: seq<Segment>): (r: seq<Segment>)
    ensures |r| == |sections|
    ensures forall i :: 0 <= i < |r| ==> r[i] == Canonical(sections[i])
  {
    seq(|sections|, i requires 0 <= i < |sections| => Canonical(sections[i]))
  }

  /** The Begin event of section `i`: its left endpoint, carrying the right one. */
  function BeginOf(canon: seq<Segment>, i: nat): (r: Event)
    requires i < |canon|
  {
    Begin(i, canon[i].first, Some(canon[i].second))
  }

  /** The End event of section `i`: its right endpoint. */
  function EndOf(canon: seq<Segment>, i: nat): (r: Event)
    requires i < |canon|
  {
    End(i, canon[i].second)
  }

  /**
   * A section's two events: the Begin event starts at the left endpoint and
   * its direction reaches the right one, where the End event sits; the
   * Begin event has a sweep height everywhere exactly when the section is
   * not vertical.
   */
  lemma SectionEvents(canon: seq<Segment>, i: nat)
    requires i < |canon|
    ensures var b := BeginOf(canon, i);
      b.Begin? && b.segmentId == i && HasVector(b)
      && b.position == canon[i].first && Along(b.position, Vector(b), 1.0) == canon[i].second
      && (NonVertical(b) <==> canon[i].first.x != canon[i].second.x)
    ensures var e := EndOf(canon, i);
      e.End? && e.segmentId == i && !HasVector(e) && e.position == BeginOf(canon, i).endPosition.value
  {
  }

  /** `e` is the Begin event of one of the sections. */
  predicate IsBeginOf(canon: seq<Segment>, e: Event)
  {
    e.Begin? && 0 <= e.segmentId < |canon| && e == BeginOf(canon, e.segmentId)
  }

  /** A queue entry: a section's Begin or End, or a crossing lying on both of its sections. */
  ghost predicate ValidEntry(canon: seq<Segment>, e: Event)
  {
    match e
    case Begin(i, _, _) => IsBeginOf(canon, e)
    case End(i, _) => 0 <= i < |canon| && e == EndOf(canon, i)
    case Intersect(p, a, b) =>
      0 <= a < |canon| && 0 <= b < |canon|
      && OnSegment(p, canon[a].first, canon[a].second)
      && OnSegment(p, canon[b].first, canon[b].second)
  }

  /** The queue invariant: valid entries, at most one Intersect per unordered pair of ids. */
  ghost predicate QueueInv(canon: seq<Segment>, s: seq<Event>)
  {
    (forall e | e in s :: ValidEntry(canon, e)) && IntersectsUnique(s)
  }

  /** The queue holds every section's Begin and End event. */
  predicate HoldsSections(canon: seq<Segment>, s: seq<Event>)
  {
    forall i :: 0 <= i < |canon| ==> BeginOf(canon, i) in s && EndOf(canon, i) in s
  }

  /** A queue that only gains entries keeps every section's events. */
  lemma HoldsSectionsGrows(canon: seq<Segment>, s: seq<Event>, t: seq<Event>)
    requires HoldsSections(canon, s) && multiset(s) <= multiset(t)
    ensures HoldsSections(canon, t)
  {
    forall i | 0 <= i < |canon| ensures BeginOf(canon, i) in t && EndOf(canon, i) in t {
      assert BeginOf(canon, i) in multiset(s) && EndOf(canon, i) in multiset(s);
    }
  }

  /** The status holds only sections' Begin events. */
  ghost predicate SweepInv(canon: seq<Segment>, s: seq<Event>)
  {
    forall e | e in s :: IsBeginOf(canon, e)
  }

  /** A candidate partner of a crossing test: absent, or a section's Begin event. */
  predicate Candidate(canon: seq<Segment>, o: Option<Event>)
  {
    o.None? || IsBeginOf(canon, o.value)
  }

  /** One event added to the queue keeps the queue invariant and adds at most its own pair of ids. */
  lemma {:induction false} QueueGrows(canon: seq<Segment>, before: seq<Event>, after: seq<Event>, e: Event)
    requires QueueInv(canon, before) && ValidEntry(canon, e)
    requires multiset(after) == multiset(before) + multiset{e}
    requires e.Intersect? ==> !Contains(before, e)
    ensures QueueInv(canon, after)
    ensures |after| == |before| + 1
    ensures forall x :: x in after <==> x in before || x == e
    ensures PairKeys(after) == if e.Intersect? then PairKeys(before) + {PairKey(e)} else PairKeys(before)
  {
    AddKeepsUnique(before, after, e);
    assert |multiset(after)| == |multiset(before)| + 1;
    forall x ensures x in after <==> x in before || x == e {
      assert x in after <==> x in multiset(after);
      assert x in before <==> x in multiset(before);
    }
  }

  /** The candidate pairs one event hands to the crossing test. */
  type Candidates = seq<(Option<Event>, Option<Event>)>

  /** Every candidate is absent or a section's Begin event. */
  predicate AllCandidates(canon: seq<Segment>, cs: Candidates)
  {
    forall k :: 0 <= k < |cs| ==> Candidate(canon, cs[k].0) && Candidate(canon, cs[k].1)
  }

  /** What `get_intersect` returns for each candidate pair, in order. */
  function Crossings(canon: seq<Segment>, cs: Candidates): (r: seq<Option<Event>>)
    requires AllCandidates(canon, cs)
    ensures |r| == |cs|
    ensures forall k :: 0 <= k < |cs| ==> r[k] == GetIntersect(cs[k].0, cs[k].1)
  {
    seq(|cs|, k requires 0 <= k < |cs| => GetIntersect(cs[k].0, cs[k].1))
  }

  /** The Begin event the END branch builds to find the section's status entry. */
  function Placeholder(e: Event): Event
    requires e.End?
  {
    Begin(e.segmentId, e.position, None)
  }

  /** A status rebuilt from entries of the old status and of `extra` still holds only Begin events. */
  lemma SweepInvFrom(canon: seq<Segment>, before: seq<Event>, after: seq<Event>, extra: seq<Event>)
    requires SweepInv(canon, before) && SweepInv(canon, extra)
    requires multiset(after) <= multiset(before) + multiset(extra)
    ensures SweepInv(canon, after)
  {
    forall x | x in after ensures IsBeginOf(canon, x) {
      assert x in multiset(after);
      assert x in multiset(before) || x in multiset(extra);
    }
  }


  /** The neighbours a status lookup returns are absent or sections' Begin events. */
  lemma NeighboursAreCandidates(canon: seq<Segment>, s: seq<Event>, around: Neighbours)
    requires SweepInv(canon, s)
    requires around.prev.Some? ==> around.prev.value in s
    requires around.next.Some? ==> around.next.value in s
    ensures Candidate(canon, around.prev) && Candidate(canon, around.next)
  {
  }

  lemma OneCandidate(canon: seq<Segment>, a: Option<Event>, b: Option<Event>)
    requires Candidate(canon, a) && Candidate(canon, b)
    ensures AllCandidates(canon, [(a, b)])
  {
  }

  lemma TwoCandidates(canon: seq<Segment>, a: Option<Event>, b: Option<Event>, c: Option<Event>, d: Option<Event>)
    requires Candidate(canon, a) && Candidate(canon, b) && Candidate(canon, c) && Candidate(canon, d)
    ensures AllCandidates(canon, [(a, b), (c, d)])
  {
  }

  lemma FourCandidates(canon: seq<Segment>, a: Option<Event>, b: Option<Event>, c: Option<Event>, d: Option<Event>,
                       f: Option<Event>, g: Option<Event>, h: Option<Event>, k: Option<Event>)
    requires Candidate(canon, a) && Candidate(canon, b) && Candidate(canon, c) && Candidate(canon, d)
    requires Candidate(canon, f) && Candidate(canon, g) && Candidate(canon, h) && Candidate(canon, k)
    ensures AllCandidates(canon, [(a, b), (c, d), (f, g), (h, k)])
  {
  }

  /** The candidates of two lookups, one list after the other. */
  lemma CandidatesAppend(canon: seq<Segment>, a: Candidates, b: Candidates)
    requires AllCandidates(canon, a) && AllCandidates(canon, b)
    ensures AllCandidates(canon, a + b)
  {
    forall k | 0 <= k < |a + b| ensures Candidate(canon, (a + b)[k].0) && Candidate(canon, (a + b)[k].1) {
      if k < |a| {
        assert (a + b)[k] == a[k];
      } else {
        assert (a + b)[k] == b[k - |a|];
      }
    }
  }

  /** Every ordered pair of section ids. */
  ghost function AllPairs(n: nat): set<(int, int)>
  {
    set i: int, j: int | 0 <= i < n && 0 <= j < n :: (i, j)
  }

  /** The final `[(a, b+1, c+1) for a, b, c in events.get_intersects()]`. */
  function Shift(found: seq<Found>): (r: seq<Found>)
    ensures |r| == |found|
    ensures forall k :: 0 <= k < |r| ==> r[k] == (found[k].0, found[k].1 + 1, found[k].2 + 1)
  {
    seq(|found|, k requires 0 <= k < |found| => (found[k].0, found[k].1 + 1, found[k].2 + 1))
  }

  /**
   * The output contract: 1-based ids of input sections, a point on both of
   * them, and no unordered pair of ids reported twice.
   */
  ghost predicate Reported(sections: seq<Segment>, out: seq<Found>)
  {
    (forall k :: 0 <= k < |out| ==>
      1 <= out[k].1 <= |sections| && 1 <= out[k].2 <= |sections|
      && OnSegment(out[k].0, sections[out[k].1 - 1].first, sections[out[k].1 - 1].second)
      && OnSegment(out[k].0, sections[out[k].2 - 1].first, sections[out[k].2 - 1].second))
    && (forall k1, k2 :: 0 <= k1 < k2 < |out| ==> !SamePair(out[k1], out[k2]))
  }

  /** A point on a canonical section lies on the section as given. */
  lemma OnInputSegment(sections: seq<Segment>, canon: seq<Segment>, i: int, p: Point)
    requires canon == CanonicalAll(sections) && 0 <= i < |canon|
    requires OnSegment(p, canon[i].first, canon[i].second)
    ensures OnSegment(p, sections[i].first, sections[i].second)
  {
    if canon[i] != sections[i] {
      OnSegmentReversed(p, canon[i].first, canon[i].second);
    }
  }

  /** The queue invariant makes the driver's output meet the output contract. */
  lemma {:induction false} OutputReported(sections: seq<Segment>, canon: seq<Segment>, s: seq<Event>)
    requires canon == CanonicalAll(sections)
    requires QueueInv(canon, s)
    ensures Reported(sections, Shift(IntersectsOf(s)))
  {
    var found := IntersectsOf(s);
    var out := Shift(found);
    forall k | 0 <= k < |out|
      ensures 1 <= out[k].1 <= |sections| && 1 <= out[k].2 <= |sections|
      ensures OnSegment(out[k].0, sections[out[k].1 - 1].first, sections[out[k].1 - 1].second)
      ensures OnSegment(out[k].0, sections[out[k].2 - 1].first, sections[out[k].2 - 1].second)
    {
      assert ReportedFrom(s, found[k]);
      var i :| 0 <= i < |s| && s[i].Intersect? && found[k] == Report(s[i]);
      assert s[i] in s;
      OnInputSegment(sections, canon, s[i].idA, s[i].position);
      OnInputSegment(sections, canon, s[i].idB, s[i].position);
    }
    IntersectsOfDistinct(s);
    forall k1, k2 | 0 <= k1 < k2 < |out| ensures !SamePair(out[k1], out[k2]) {
      assert !SamePair(found[k1], found[k2]);
    }
  }

  /** A crossing found between two sections' Begin events is a valid queue entry. */
  lemma CrossingIsValid(canon: seq<Segment>, e1: Option<Event>, e2: Option<Event>)
    requires Candidate(canon, e1) && Candidate(canon, e2)
    ensures IntersectDefined(e1, e2)
    ensures GetIntersect(e1, e2).Some? ==> ValidEntry(canon, GetIntersect(e1, e2).value)
  {
    if GetIntersect(e1, e2).Some? {
      GetIntersectOnBoth(e1, e2);
    }
  }

  /** The queue only ever gains pairs of section ids. */
  lemma PairsInRange(canon: seq<Segment>, s: seq<Event>)
    requires QueueInv(canon, s)
    ensures PairKeys(s) <= AllPairs(|canon|)
  {
    forall k | k in PairKeys(s) ensures k in AllPairs(|canon|) {
      var e :| e in s && e.Intersect? && PairKey(e) == k;
      assert ValidEntry(canon, e);
    }
  }

  lemma {:induction false} SubsetSize(a: set<(int, int)>, b: set<(int, int)>)
    requires a <= b
    ensures |a| <= |b|
    decreases a
  {
    if a != {} {
      var x :| x in a;
      SubsetSize(a - {x}, b - {x});
    }
  }

  /** Gaining a new pair shrinks the set of pairs still unseen. */
  lemma UnseenShrinks(all: set<(int, int)>, before: set<(int, int)>, after: set<(int, int)>)
    requires before < after && after <= all
    ensures |all - after| < |all - before|
  {
    var k :| k in after && k !in before;
    assert all - after <= (all - before) - {k};
    assert |(all - before) - {k}| == |all - before| - 1;
    SubsetSize(all - after, (all - before) - {k});
  }
}
