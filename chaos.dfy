/** The chaos game of d.py: starting from a point of the square
    [-0.8, 0.8]^2, move halfway towards one of the three triangle vertices,
    plot the new point, and repeat num_points times. The random start and the
    random vertex choices are inputs here. */
module Chaos {
  import opened Geometry

  /** The triangle of d.py:13-17: bottom-left, bottom-right, top. */
  const Vertices: seq<Point> := [Point(-0.8, -0.8), Point(0.8, -0.8), Point(0.0, 0.8)]

  /** num_points of d.py:20. */
  const NumPoints: nat := 5000

  /** An index into Vertices: what random.choice(vertices) picks (d.py:35). */
  type Choice = i: int | 0 <= i < 3

  /** The square [-0.8, 0.8]^2 from which random.uniform draws the start (d.py:29). */
  ghost predicate InBox(p: Point)
  {
    -0.8 <= p.x <= 0.8 && -0.8 <= p.y <= 0.8
  }

  /** The point halfway from p to vertex v (d.py:38-39). Its offset from v is
      half the offset of p, so its squared distance to v is a quarter of p's. */
  function Midpoint(p: Point, v: Point): (m: Point)
    ensures Sub(m, v) == Scale(0.5, Sub(p, v))
    ensures SqNorm(Sub(m, v)) == 0.25 * SqNorm(Sub(p, v))
  {
    Point((p.x + v.x) / 2.0, (p.y + v.y) / 2.0)
  }

  /** The points plotted from start p for the vertex choices cs, in order: one
      point per choice, the start itself not among them. */
  function Walk(p: Point, cs: seq<Choice>): (r: seq<Point>)
    ensures |r| == |cs|
    decreases |cs|
  {
    if cs == [] then []
    else
      var q := Midpoint(p, Vertices[cs[0]]);
      [q] + Walk(q, cs[1..])
  }

  /** The walk from p over the choices from index i on starts with the move
      for choice i and goes on from the point it reaches. */
  lemma WalkFrom(p: Point, cs: seq<Choice>, i: nat)
    requires i < |cs|
    ensures var q := Midpoint(p, Vertices[cs[i]]);
            Walk(p, cs[i..]) == [q] + Walk(q, cs[i + 1..])
  {
    assert cs[i..][1..] == cs[i + 1..];
  }

  /** The first plotted point is already one halving step away from the start. */
  lemma WalkFirst(p: Point, cs: seq<Choice>)
    requires |cs| > 0
    ensures Walk(p, cs)[0] == Midpoint(p, Vertices[cs[0]])
  {
  }

  /** Every plotted point after the first is the midpoint of the previous
      plotted point and the vertex chosen for that step. */
  lemma {:induction false} WalkStep(p: Point, cs: seq<Choice>)
    ensures forall i, j :: 0 <= i < j < |cs| && j == i + 1 ==>
              Walk(p, cs)[j] == Midpoint(Walk(p, cs)[i], Vertices[cs[j]])
    decreases |cs|
  {
    if cs != [] {
      var q := Midpoint(p, Vertices[cs[0]]);
      WalkStep(q, cs[1..]);
      forall i, j | 0 <= i < j < |cs| && j == i + 1
        ensures Walk(p, cs)[j] == Midpoint(Walk(p, cs)[i], Vertices[cs[j]])
      {
        if i > 0 {
          assert Walk(p, cs)[i] == Walk(q, cs[1..])[i - 1];
          assert Walk(p, cs)[j] == Walk(q, cs[1..])[j - 1];
          assert cs[j] == cs[1..][j - 1];
        }
      }
    }
  }

  /** The three vertices lie in the square. */
  lemma VerticesInBox()
    ensures forall k :: 0 <= k < |Vertices| ==> InBox(Vertices[k])
  {
  }

  /** The square is convex: the midpoint of two of its points lies in it. */
  lemma MidpointInBox(p: Point, v: Point)
    requires InBox(p) && InBox(v)
    ensures InBox(Midpoint(p, v))
  {
  }

  /** From a start in the square, every plotted point stays in the square. */
  lemma {:induction false} WalkInBox(p: Point, cs: seq<Choice>)
    requires InBox(p)
    ensures forall k :: 0 <= k < |Walk(p, cs)| ==> InBox(Walk(p, cs)[k])
    decreases |cs|
  {
    if cs != [] {
      var q := Midpoint(p, Vertices[cs[0]]);
      VerticesInBox();
      MidpointInBox(p, Vertices[cs[0]]);
      WalkInBox(q, cs[1..]);
      forall k | 0 <= k < |Walk(p, cs)|
        ensures InBox(Walk(p, cs)[k])
      {
        if k > 0 {
          assert Walk(p, cs)[k] == Walk(q, cs[1..])[k - 1];
        }
      }
    }
  }

  /** draw_sierpinski (d.py:22-45): from the start (x0, y0), num_points times
      move halfway to the chosen vertex and plot the new point. Exactly 5000
      points are plotted, they are the walk of the choices, and each stays in
      the square. */
  method DrawSierpinski(x0: real, y0: real, choices: seq<Choice>) returns (points: seq<Point>)
    requires InBox(Point(x0, y0))
    requires |choices| == NumPoints
    ensures points == Walk(Point(x0, y0), choices)
    ensures |points| == NumPoints
    ensures forall k :: 0 <= k < |points| ==> InBox(points[k])
  {
    var x, y := x0, y0;
    points := [];
    for i := 0 to |choices|
      invariant points + Walk(Point(x, y), choices[i..]) == Walk(Point(x0, y0), choices)
    {
      WalkFrom(Point(x, y), choices, i);
      var v := Vertices[choices[i]];
      x := (x + v.x) / 2.0;
      y := (y + v.y) / 2.0;
      points := points + [Point(x, y)];
    }
    WalkInBox(Point(x0, y0), choices);
  }
}
