/**
 * Plane geometry on exact reals: points, the determinant `det`, parametric
 * points along a direction, and Cramer's rule for two parametrised lines.
 */
module Geometry {

  datatype Point = Point(x: real, y: real)

  /** `det(a, b, c, d)`: determinant of the 2x2 matrix with rows (a, b) and (c, d). */
  function Det(a: real, b: real, c: real, d: real): real
  {
    a * d - b * c
  }

  /** The vector from `q` to `p`. */
  function Minus(p: Point, q: Point): Point
  {
    Point(p.x - q.x, p.y - q.y)
  }

  /** The point `p + s * v`. */
  function Along(p: Point, v: Point, s: real): Point
  {
    Point(p.x + s * v.x, p.y + s * v.y)
  }

  /** The z-component of the cross product; zero iff `u` and `v` are parallel. */
  function Cross(u: Point, v: Point): real
  {
    u.x * v.y - u.y * v.x
  }

  /**
   * `det` is the cross product of its rows, and equally of its columns; it
   * vanishes when the two rows are the same vector.
   */
  lemma DetIsCross(a: real, b: real, c: real, d: real)
    ensures Det(a, b, c, d) == Cross(Point(a, b), Point(c, d))
    ensures Det(a, b, c, d) == Cross(Point(a, c), Point(b, d))
    ensures a == c && b == d ==> Det(a, b, c, d) == 0.0
  {
  }

  /** `q` lies on the closed segment from `p0` to `p1`. */
  ghost predicate OnSegment(q: Point, p0: Point, p1: Point)
  {
    exists s: real {:trigger Along(p0, Minus(p1, p0), s)} ::
      0.0 <= s <= 1.0 && q == Along(p0, Minus(p1, p0), s)
  }

  /** A segment does not depend on the order in which its endpoints are given. */
  lemma OnSegmentReversed(q: Point, p0: Point, p1: Point)
    requires OnSegment(q, p0, p1)
    ensures OnSegment(q, p1, p0)
  {
    var s: real :| 0.0 <= s <= 1.0 && q == Along(p0, Minus(p1, p0), s);
    var u := 1.0 - s;
    calc {
      Along(p1, Minus(p0, p1), u).x;
    ==
      p1.x + (1.0 - s) * (p0.x - p1.x);
    ==
      p0.x + s * (p1.x - p0.x);
    }
    calc {
      Along(p1, Minus(p0, p1), u).y;
    ==
      p1.y + (1.0 - s) * (p0.y - p1.y);
    ==
      p0.y + s * (p1.y - p0.y);
    }
    assert q == Along(p1, Minus(p0, p1), u);
  }

  /** The determinant of the system `a + m * ab == c + t * cd` in the unknowns (t, m). */
  function SystemDet(ab: Point, cd: Point): (w: real)
    ensures w == Cross(ab, cd)
  {
    Det(cd.x, -ab.x, cd.y, -ab.y)
  }

  /** Cramer's numerator for `t`, the parameter along `cd`. */
  function NumeratorT(a: Point, ab: Point, c: Point): real
  {
    Det(a.x - c.x, -ab.x, a.y - c.y, -ab.y)
  }

  /** Cramer's numerator for `m`, the parameter along `ab`. */
  function NumeratorM(a: Point, c: Point, cd: Point): real
  {
    Det(cd.x, a.x - c.x, cd.y, a.y - c.y)
  }

  /** The polynomial identity behind Cramer's rule, one coordinate at a time. */
  lemma CramerIdentity(a: Point, ab: Point, c: Point, cd: Point)
    ensures NumeratorT(a, ab, c) * cd.x - NumeratorM(a, c, cd) * ab.x == (a.x - c.x) * SystemDet(ab, cd)
    ensures NumeratorT(a, ab, c) * cd.y - NumeratorM(a, c, cd) * ab.y == (a.y - c.y) * SystemDet(ab, cd)
  {
    var u, v := a.x - c.x, a.y - c.y;
    assert NumeratorT(a, ab, c) == -u * ab.y + ab.x * v;
    assert NumeratorM(a, c, cd) == cd.x * v - u * cd.y;
    assert SystemDet(ab, cd) == ab.x * cd.y - ab.y * cd.x;
  }

  /**
   * When the system is not singular, Cramer's parameters give one point that
   * lies on both parametrised lines.
   */
  lemma {:induction false} CramerMeets(a: Point, ab: Point, c: Point, cd: Point)
    requires SystemDet(ab, cd) != 0.0
    ensures Along(c, cd, NumeratorT(a, ab, c) / SystemDet(ab, cd))
         == Along(a, ab, NumeratorM(a, c, cd) / SystemDet(ab, cd))
  {
    var w := SystemDet(ab, cd);
    var wt, wm := NumeratorT(a, ab, c), NumeratorM(a, c, cd);
    var t, m := wt / w, wm / w;
    assert t * w == wt && m * w == wm;
    CramerIdentity(a, ab, c, cd);
    var dx := c.x + t * cd.x - (a.x + m * ab.x);
    var dy := c.y + t * cd.y - (a.y + m * ab.y);
    assert dx * w == 0.0 by {
      calc {
        dx * w;
      ==
        (c.x - a.x) * w + (t * w) * cd.x - (m * w) * ab.x;
      ==
        (c.x - a.x) * w + wt * cd.x - wm * ab.x;
      ==
        0.0;
      }
    }
    assert dy * w == 0.0 by {
      calc {
        dy * w;
      ==
        (c.y - a.y) * w + (t * w) * cd.y - (m * w) * ab.y;
      ==
        (c.y - a.y) * w + wt * cd.y - wm * ab.y;
      ==
        0.0;
      }
    }
  }

  /**
   * When the system is not singular, every common point of the two lines has
   * exactly Cramer's parameters.
   */
  lemma {:induction false} CramerUnique(a: Point, ab: Point, c: Point, cd: Point, t: real, m: real)
    requires SystemDet(ab, cd) != 0.0
    requires Along(c, cd, t) == Along(a, ab, m)
    ensures t == NumeratorT(a, ab, c) / SystemDet(ab, cd)
    ensures m == NumeratorM(a, c, cd) / SystemDet(ab, cd)
  {
    var w := SystemDet(ab, cd);
    // From the two coordinate equations: a - c == t * cd - m * ab.
    assert a.x - c.x == t * cd.x - m * ab.x;
    assert a.y - c.y == t * cd.y - m * ab.y;
    calc {
      NumeratorT(a, ab, c);
    ==
      (a.x - c.x) * (-ab.y) - (-ab.x) * (a.y - c.y);
    ==
      (t * cd.x - m * ab.x) * (-ab.y) + ab.x * (t * cd.y - m * ab.y);
    ==
      t * (ab.x * cd.y - ab.y * cd.x);
    ==
      t * w;
    }
    calc {
      NumeratorM(a, c, cd);
    ==
      cd.x * (a.y - c.y) - (a.x - c.x) * cd.y;
    ==
      cd.x * (t * cd.y - m * ab.y) - (t * cd.x - m * ab.x) * cd.y;
    ==
      m * (ab.x * cd.y - ab.y * cd.x);
    ==
      m * w;
    }
  }
}
