/** The fractal tree of c.py: one recursive branch rule (shrink 0.67, turn
    pi/6) started from a vertical trunk at the bottom of the window. */
module Tree {
  import opened Geometry
  import opened Branching

  /** branch_length and recursion_depth of c.py:14-15. The module-level
      `angle = pi/4` of c.py:13 is shadowed by draw_branch's parameter and is
      never read, so it has no counterpart here. */
  const BranchLength: real := 0.5
  const RecursionDepth: nat := 10

  /** The per-level length factor of c.py:40. */
  const Shrink: real := 0.67

  /** The trunk base of c.py:51. */
  const Start := Point(0.0, -0.8)

  /** The turn between a branch and its sub-branches, pi/6 (c.py:41-42). */
  const Turn: real := Pi / 6.0

  /** draw_branch (c.py:17-42): the segments drawn, in drawing order. Depth 0
      draws nothing; otherwise 2^depth - 1 segments, the first of them from
      (x, y) to (x + length * cos(angle), y + length * sin(angle)). */
  function DrawBranch(x: real, y: real, length: real, angle: real, depth: nat, t: Trig): (r: seq<Segment>)
    ensures |r| == Pow(2, depth) - 1
    ensures depth == 0 <==> r == []
    ensures depth > 0 ==> r[0] == Segment(Point(x, y), Point(x + length * t.cos(angle), y + length * t.sin(angle)))
  {
    GrowCount(Point(x, y), length, angle, depth, Shrink, Turn, Extend(t));
    PowPositive(2, depth);
    Grow(Point(x, y), length, angle, depth, Shrink, Turn, Extend(t))
  }

  /** draw_tree (c.py:44-52): a trunk of length 0.5 at angle pi/2 from
      (0, -0.8), ten levels deep. */
  function DrawTree(t: Trig): seq<Segment>
  {
    DrawBranch(Start.x, Start.y, BranchLength, Pi / 2.0, RecursionDepth, t)
  }

  /** The tree has 2^10 - 1 = 1023 branches. */
  lemma TreeCount(t: Trig)
    ensures |DrawTree(t)| == 1023
  {
    PowsOfTwo();
  }

  /** The trunk is vertical: from (0, -0.8) straight up to (0, -0.3) when
      cos(pi/2) = 0 and sin(pi/2) = 1. */
  lemma TreeTrunk(t: Trig)
    requires t.cos(Pi / 2.0) == 0.0 && t.sin(Pi / 2.0) == 1.0
    ensures DrawTree(t)[0] == Segment(Start, Point(0.0, -0.3))
  {
    PowsOfTwo();
  }
}
