/**
 * What `set_state.py`'s `Event` does differently from the list variants: a
 * `cmp_ys` that returns only -1, 0 or 1 and treats heights within `EPS` of
 * each other as equal, the choice between the current and the previous
 * sweep position, and a `__hash__` over (min id, max id, type).
 */
module SetEvents {
  import opened Wrappers
  import opened Events
  import opened Geometry

  /** The tolerance of `cmp_ys`: `1e-10`. */
  const EPS: real := 0.0000000001

  /**
   * `cmp_ys` of `set_state.py` at sweep position `x`: 1 when `b` is more than
   * `EPS` higher, -1 when more than `EPS` lower, 0 otherwise.
   */
  function CmpYsEps(a: Event, b: Event, x: real): (r: int)
    requires NonVertical(a) && NonVertical(b)
    ensures -1 <= r <= 1
    ensures r == 1 <==> SweepY(b, x) - SweepY(a, x) > EPS
    ensures r == -1 <==> SweepY(b, x) - SweepY(a, x) < -EPS
    ensures r == 0 <==> -EPS <= SweepY(b, x) - SweepY(a, x) <= EPS
  {
    var d := SweepY(b, x) - SweepY(a, x);
    if d > EPS then 1
    else if d < -EPS then -1
    else 0
  }

  /** The tolerant comparator is antisymmetric. */
  lemma CmpYsEpsAntisymmetric(a: Event, b: Event, x: real)
    requires NonVertical(a) && NonVertical(b)
    ensures CmpYsEps(b, a, x) == -CmpYsEps(a, b, x)
  {
  }

  /**
   * Where it does not call a tie, the tolerant comparator orders two events
   * as the exact `cmp_ys` of the list variants does; it calls a tie exactly
   * when the exact difference is within `EPS`.
   */
  lemma {:induction false} CmpYsEpsRefinesCmpYs(a: Event, b: Event, x: real)
    requires NonVertical(a) && NonVertical(b)
    ensures CmpYsEps(a, b, x) < 0 <==> CmpYs(a, b, x) < -EPS
    ensures CmpYsEps(a, b, x) > 0 <==> CmpYs(a, b, x) > EPS
    ensures CmpYs(a, b, x) == 0.0 ==> CmpYsEps(a, b, x) == 0
  {
    assert CmpYs(a, b, x) == SweepY(b, x) - SweepY(a, x);
  }

  /**
   * The tolerant tie is not transitive: three literal heights 0, 0.6e-10 and
   * 1.2e-10 tie pairwise with their neighbour but not end to end.
   */
  lemma CmpYsEpsTieNotTransitive()
    ensures var (a, b, c) := (Begin(0, Point(0.0, 0.0), None),
                              Begin(1, Point(0.0, 0.00000000006), None),
                              Begin(2, Point(0.0, 0.00000000012), None));
      CmpYsEps(a, b, 0.0) == 0 && CmpYsEps(b, c, 0.0) == 0 && CmpYsEps(a, c, 0.0) == 1
  {
  }

  /** The tuple `__hash__` of `set_state.py` hashes: (min id, max id, type) or (id, id, type). */
  datatype SetKey = SetKey(lo: int, hi: int, kind: Kind)

  function SetHashKey(e: Event): SetKey
  {
    match e
    case Begin(id, _, _) => SetKey(id, id, BEGIN)
    case End(id, _) => SetKey(id, id, END)
    case Intersect(_, a, b) => SetKey(Min(a, b), Max(a, b), INTERSECT)
  }

  /**
   * The hash agrees with `__eq__` in both directions, so the `SortedSet`'s
   * hash set holds exactly one event per key.
   */
  lemma SetHashConsistent(a: Event, b: Event)
    ensures Same(a, b) <==> SetHashKey(a) == SetHashKey(b)
  {
  }
}
