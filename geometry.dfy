/** Geometry primitives shared by every generator: points, segments, vectors
    and the polyline shape that subdivision preserves. Coordinates are exact
    reals; the floating-point rounding of the original scripts is not modelled. */
module Geometry {

  datatype Point = Point(x: real, y: real)

  /** A line segment as emitted between one glVertex2f pair. */
  datatype Segment = Segment(start: Point, end: Point)

  function Add(p: Point, q: Point): Point { Point(p.x + q.x, p.y + q.y) }

  function Sub(p: Point, q: Point): Point { Point(p.x - q.x, p.y - q.y) }

  function Scale(k: real, p: Point): Point { Point(k * p.x, k * p.y) }

  /** Squared Euclidean norm of a vector (no square root needed). */
  function SqNorm(v: Point): real { v.x * v.x + v.y * v.y }

  /** Squared length of a segment. */
  function SqLen(s: Segment): real { SqNorm(Sub(s.end, s.start)) }

  /** Reflection through the vertical line x = 0. */
  function MirrorPoint(p: Point): Point { Point(-p.x, p.y) }

  function MirrorSegment(s: Segment): Segment {
    Segment(MirrorPoint(s.start), MirrorPoint(s.end))
  }

  /** b raised to the n-th power. */
  function Pow(b: nat, n: nat): nat
  {
    if n == 0 then 1 else b * Pow(b, n - 1)
  }

  lemma {:induction false} PowPositive(b: nat, n: nat)
    requires b > 0
    ensures Pow(b, n) > 0
  {
    if n > 0 {
      PowPositive(b, n - 1);
    }
  }

  lemma PowsOfTwo()
    ensures Pow(2, 8) == 256 && Pow(2, 9) == 512 && Pow(2, 10) == 1024
  {
  }

  /** Each segment ends where the next one starts. The successor index is
      bound as a second variable j == i + 1, so that the quantifier can be
      triggered on segs[i] and segs[j] without a matching loop through i + 1. */
  ghost predicate Chained(segs: seq<Segment>)
  {
    forall i, j :: 0 <= i < j < |segs| && j == i + 1 ==> segs[i].end == segs[j].start
  }

  /** A non-empty chained sequence of segments leading from a to b. */
  ghost predicate Polyline(segs: seq<Segment>, a: Point, b: Point)
  {
    |segs| > 0 && segs[0].start == a && segs[|segs| - 1].end == b && Chained(segs)
  }

  /** Joining a polyline from a to b with one from b to c gives one from a to c. */
  lemma PolylineJoin(s: seq<Segment>, t: seq<Segment>, a: Point, b: Point, c: Point)
    requires Polyline(s, a, b) && Polyline(t, b, c)
    ensures Polyline(s + t, a, c)
  {
    var u := s + t;
    forall i, j | 0 <= i < j < |u| && j == i + 1
      ensures u[i].end == u[j].start
    {
      if j < |s| {
        assert u[i] == s[i] && u[j] == s[j];
      } else if i == |s| - 1 {
        assert u[i] == s[|s| - 1] && u[j] == t[0];
      } else {
        assert u[i] == t[i - |s|] && u[j] == t[j - |s|];
      }
    }
  }
}
