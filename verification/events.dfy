/**
 * The event layer shared by the three sweep variants: the tagged event, its
 * equality, the queue order `cmp_xs`, the sweep-line height
 * `get_sweep_intersect` with the list variants' `cmp_ys`, and the
 * Cramer's-rule crossing test `get_intersect`.
 */
module Events {
  import opened Wrappers
  import opened Geometry

  /** `EventType`. */
  datatype Kind = BEGIN | END | INTERSECT

  /**
   * An event. A Begin carries the segment's other endpoint when it stands for
   * a live segment, and none when it is the placeholder the driver builds
   * from an End. An Intersect carries the two segment ids in the order
   * `get_intersect` produced them.
   */
  datatype Event =
    | Begin(segmentId: int, position: Point, endPosition: Option<Point>)
    | End(segmentId: int, position: Point)
    | Intersect(position: Point, idA: int, idB: int)

  function KindOf(e: Event): Kind
  {
    match e
    case Begin(_, _, _) => BEGIN
    case End(_, _) => END
    case Intersect(_, _, _) => INTERSECT
  }

  function Min(a: int, b: int): int { if a <= b then a else b }
  function Max(a: int, b: int): int { if a <= b then b else a }

  /** `__eq__`: same kind, and the same segment id or the same unordered pair of ids. */
  function Same(a: Event, b: Event): (r: bool)
    ensures r ==> KindOf(a) == KindOf(b)
    ensures a.Intersect? && b.Intersect? ==>
      (r <==> (a.idA == b.idA && a.idB == b.idB) || (a.idA == b.idB && a.idB == b.idA))
    ensures !a.Intersect? && KindOf(a) == KindOf(b) ==> (r <==> a.segmentId == b.segmentId)
  {
    if KindOf(a) != KindOf(b) then false
    else if a.Intersect? then
      Min(a.idA, a.idB) == Min(b.idA, b.idB) && Max(a.idA, a.idB) == Max(b.idA, b.idB)
    else
      a.segmentId == b.segmentId
  }

  /** Event equality is an equivalence relation. */
  lemma SameIsEquivalence(a: Event, b: Event, c: Event)
    ensures Same(a, a)
    ensures Same(a, b) == Same(b, a)
    ensures Same(a, b) && Same(b, c) ==> Same(a, c)
  {
  }

  /** `cmp_xs`: negative when `a` is dequeued before `b`. */
  function CmpXs(a: Event, b: Event): (r: real)
    ensures r < 0.0 <==> a.position.x < b.position.x || (a.position.x == b.position.x && a.position.y > b.position.y)
    ensures r == 0.0 <==> a.position == b.position
  {
    if a.position.x != b.position.x then a.position.x - b.position.x
    else b.position.y - a.position.y
  }

  /** `cmp_xs` is antisymmetric. */
  lemma CmpXsAntisymmetric(a: Event, b: Event)
    ensures CmpXs(b, a) == -CmpXs(a, b)
  {
  }

  /** The event has a direction vector (`self.vector` is only set when `end_position` is). */
  predicate HasVector(e: Event)
  {
    e.Begin? && e.endPosition.Some?
  }

  /** `self.vector`: from the position to the end position. */
  function Vector(e: Event): (r: Point)
    requires HasVector(e)
    ensures Along(e.position, r, 1.0) == e.endPosition.value
    ensures r == Point(0.0, 0.0) <==> e.position == e.endPosition.value
  {
    Minus(e.endPosition.value, e.position)
  }

  /** The sweep height of `e` is defined: no direction vector, or a non-vertical one. */
  predicate NonVertical(e: Event)
  {
    HasVector(e) ==> Vector(e).x != 0.0
  }

  /**
   * `get_sweep_intersect` at the sweep position `sweepX`: the height of the
   * segment's line there, or the literal y of an event without a direction.
   */
  function SweepY(e: Event, sweepX: real): (r: real)
    requires NonVertical(e)
    ensures !HasVector(e) ==> r == e.position.y
    ensures HasVector(e) ==> Cross(Vector(e), Minus(Point(sweepX, r), e.position)) == 0.0
    ensures HasVector(e) && sweepX == e.position.x ==> r == e.position.y
    ensures HasVector(e) && sweepX == e.endPosition.value.x ==> r == e.endPosition.value.y
  {
    if !HasVector(e) then e.position.y
    else
      var v := Vector(e);
      var t := (sweepX - e.position.x) / v.x;
      assert t * v.x == sweepX - e.position.x;
      assert v.x * (t * v.y) - v.y * (sweepX - e.position.x) == 0.0;
      e.position.y + t * v.y
  }

  /** `cmp_ys` of the list variants: negative when `a` is higher on the sweep line than `b`. */
  function CmpYs(a: Event, b: Event, sweepX: real): (r: real)
    requires NonVertical(a) && NonVertical(b)
    ensures r < 0.0 <==> SweepY(a, sweepX) > SweepY(b, sweepX)
    ensures r == 0.0 <==> SweepY(a, sweepX) == SweepY(b, sweepX)
  {
    SweepY(b, sweepX) - SweepY(a, sweepX)
  }

  /** Both arguments are present Begin/End events, so `get_intersect` solves the system. */
  predicate Solvable(e1: Option<Event>, e2: Option<Event>)
  {
    e1.Some? && e2.Some? && !e1.value.Intersect? && !e2.value.Intersect?
  }

  /** What `get_intersect` needs of its arguments: when it reaches `.vector`, both have one. */
  predicate IntersectDefined(e1: Option<Event>, e2: Option<Event>)
  {
    Solvable(e1, e2) ==> HasVector(e1.value) && HasVector(e2.value)
  }

  /**
   * `get_intersect`: the crossing of segment AB (`e1`) and segment CD (`e2`)
   * by Cramer's rule, as an Intersect event with ids `[e1.id, e2.id]`.
   */
  function GetIntersect(e1: Option<Event>, e2: Option<Event>): (r: Option<Event>)
    requires IntersectDefined(e1, e2)
    ensures !Solvable(e1, e2) ==> r.None?
    ensures r.Some? ==>
      r.value.Intersect? && r.value.idA == e1.value.segmentId && r.value.idB == e2.value.segmentId
    ensures Solvable(e1, e2) && Cross(Vector(e1.value), Vector(e2.value)) == 0.0 ==> r.None?
  {
    if e1.None? || e2.None? then None
    else if e1.value.Intersect? || e2.value.Intersect? then None
    else
      var a, c := e1.value.position, e2.value.position;
      var ab, cd := Vector(e1.value), Vector(e2.value);
      var w := SystemDet(ab, cd);
      if w == 0.0 then None
      else
        var t := NumeratorT(a, ab, c) / w;
        var m := NumeratorM(a, c, cd) / w;
        var p := Along(c, cd, t);
        if 0.0 <= t && t <= 1.0 && 0.0 <= m && m <= 1.0 then
          Some(Intersect(p, e1.value.segmentId, e2.value.segmentId))
        else None
  }

  /** A reported crossing lies on both segments. */
  lemma {:induction false} GetIntersectOnBoth(e1: Option<Event>, e2: Option<Event>)
    requires IntersectDefined(e1, e2)
    requires GetIntersect(e1, e2).Some?
    ensures OnSegment(GetIntersect(e1, e2).value.position, e1.value.position, e1.value.endPosition.value)
    ensures OnSegment(GetIntersect(e1, e2).value.position, e2.value.position, e2.value.endPosition.value)
  {
    var a, c := e1.value.position, e2.value.position;
    var ab, cd := Vector(e1.value), Vector(e2.value);
    var w := SystemDet(ab, cd);
    var t := NumeratorT(a, ab, c) / w;
    var m := NumeratorM(a, c, cd) / w;
    var p := GetIntersect(e1, e2).value.position;
    assert p == Along(c, cd, t);
    CramerMeets(a, ab, c, cd);
    assert p == Along(a, ab, m);
  }

  /**
   * Conversely, two non-parallel segments that share a point are reported,
   * at that point.
   */
  lemma {:induction false} GetIntersectFindsCrossing(e1: Option<Event>, e2: Option<Event>, t: real, m: real)
    requires IntersectDefined(e1, e2) && Solvable(e1, e2)
    requires Cross(Vector(e1.value), Vector(e2.value)) != 0.0
    requires 0.0 <= t <= 1.0 && 0.0 <= m <= 1.0
    requires Along(e2.value.position, Vector(e2.value), t) == Along(e1.value.position, Vector(e1.value), m)
    ensures GetIntersect(e1, e2)
         == Some(Intersect(Along(e2.value.position, Vector(e2.value), t), e1.value.segmentId, e2.value.segmentId))
  {
    CramerUnique(e1.value.position, Vector(e1.value), e2.value.position, Vector(e2.value), t, m);
  }

  /** The tuple `state2.py` hashes: (segment_id, (min id, max id) or None, type). */
  datatype HashKey2 = HashKey2(segmentId: Option<int>, pair: Option<(int, int)>, kind: Kind)

  /** `__hash__` of `state2.py`, as the tuple whose hash it returns. */
  function State2HashKey(e: Event): HashKey2
  {
    match e
    case Begin(id, _, _) => HashKey2(Some(id), None, BEGIN)
    case End(id, _) => HashKey2(Some(id), None, END)
    case Intersect(_, a, b) => HashKey2(None, Some((Min(a, b), Max(a, b))), INTERSECT)
  }

  /** The `state2.py` hash agrees with equality, and separates unequal events. */
  lemma State2HashConsistent(a: Event, b: Event)
    ensures Same(a, b) <==> State2HashKey(a) == State2HashKey(b)
  {
  }
}
