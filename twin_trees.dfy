/** The twin Christmas trees of e.py: the branch rule of the fractal tree with
    a direction sign, whose branches are queued in `drawing_steps` and then
    drawn one per display callback. */
module TwinTrees {
  import opened Geometry
  import opened Branching

  datatype Option<T> = None | Some(value: T)

  /** initial_length, recursion_depth and scale_factor of e.py:14-19. */
  const InitialLength: real := 0.4
  const RecursionDepth: nat := 8
  const ScaleFactor: real := 0.5

  /** The per-level length factor of e.py:45. */
  const Shrink: real := 0.7

  /** The start points of the two trunks (e.py:56, 59). */
  const LeftStart := Point(-0.5 * ScaleFactor, -0.8 * ScaleFactor)
  const RightStart := Point(0.5 * ScaleFactor, -0.8 * ScaleFactor)

  /** branch_angle of e.py:16. */
  const BranchAngle: real := Pi / 6.0

  /** The signed turn branch_angle * direction of e.py:46-47. */
  function Turn(direction: int): real
  {
    BranchAngle * (direction as real)
  }

  /** The steps queued for the left tree (direction -1, e.py:56). */
  function LeftTree(t: Trig): seq<Segment>
  {
    Grow(LeftStart, InitialLength * ScaleFactor, Pi / 2.0, RecursionDepth, Shrink, Turn(-1), Extend(t))
  }

  /** The steps queued for the right tree (direction +1, e.py:59). */
  function RightTree(t: Trig): seq<Segment>
  {
    Grow(RightStart, InitialLength * ScaleFactor, Pi / 2.0, RecursionDepth, Shrink, Turn(1), Extend(t))
  }

  /** Each tree queues 2^8 - 1 = 255 steps, 510 in all. */
  lemma TwinCount(t: Trig)
    ensures |LeftTree(t)| == 255 && |RightTree(t)| == 255
  {
    PowsOfTwo();
    GrowCount(LeftStart, InitialLength * ScaleFactor, Pi / 2.0, RecursionDepth, Shrink, Turn(-1), Extend(t));
    GrowCount(RightStart, InitialLength * ScaleFactor, Pi / 2.0, RecursionDepth, Shrink, Turn(1), Extend(t));
  }

  /** The twin trees are mirror images through x = 0: the k-th step of the
      right tree is the reflection of the k-th step of the left tree, given
      cos(pi - a) = -cos a and sin(pi - a) = sin a. */
  lemma TwinMirror(t: Trig)
    requires Supplementary(t)
    ensures |RightTree(t)| == |LeftTree(t)|
    ensures forall k :: 0 <= k < |LeftTree(t)| ==> RightTree(t)[k] == MirrorSegment(LeftTree(t)[k])
  {
    ExtendMirrors(t);
    assert MirrorPoint(LeftStart) == RightStart;
    assert Turn(-1) + Turn(1) == 0.0;
    GrowMirror(LeftStart, InitialLength * ScaleFactor, Pi / 2.0, Pi / 2.0, RecursionDepth, Shrink,
               Turn(-1), Turn(1), Extend(t), Pi);
  }

  /** draw_branch (e.py:24-47): appends the branch from (x, y) to its end,
      then the steps of its +turn and -turn sub-branches, to the queue
      `steps`; the steps already queued are left as they were. The end point
      comes from `extend`, which DrawTwinTrees instantiates with the polar
      step (x + length * cos(angle), y + length * sin(angle)) of e.py:38-39. */
  method DrawBranch(steps: seq<Segment>, x: real, y: real, length: real, angle: real, depth: nat,
                    direction: int, extend: (Point, real, real) -> Point) returns (queued: seq<Segment>)
    ensures queued == steps + Grow(Point(x, y), length, angle, depth, Shrink, Turn(direction), extend)
    decreases depth
  {
    queued := steps;
    if depth == 0 {
      return;
    }
    var tip := extend(Point(x, y), length, angle);
    var xEnd, yEnd := tip.x, tip.y;
    queued := queued + [Segment(Point(x, y), Point(xEnd, yEnd))];
    var newLength := length * Shrink;
    queued := DrawBranch(queued, xEnd, yEnd, newLength, angle + Turn(direction), depth - 1, direction, extend);
    queued := DrawBranch(queued, xEnd, yEnd, newLength, angle - Turn(direction), depth - 1, direction, extend);
  }

  /** The module-level state of e.py: the queue `drawing_steps`. */
  class StepPlayer {
    var drawingSteps: seq<Segment>

    constructor ()
      ensures drawingSteps == []
    {
      drawingSteps := [];
    }

    /** draw_twin_trees (e.py:49-61): queues the left tree, then the right. */
    method DrawTwinTrees(t: Trig)
      modifies this
      ensures drawingSteps == old(drawingSteps) + LeftTree(t) + RightTree(t)
    {
      drawingSteps := DrawBranch(drawingSteps, -0.5 * ScaleFactor, -0.8 * ScaleFactor, InitialLength * ScaleFactor,
                                 Pi / 2.0, RecursionDepth, -1, Extend(t));
      drawingSteps := DrawBranch(drawingSteps, 0.5 * ScaleFactor, -0.8 * ScaleFactor, InitialLength * ScaleFactor,
                                 Pi / 2.0, RecursionDepth, 1, Extend(t));
    }

    /** display (e.py:63-82): draws and removes the head of a non-empty
        queue, keeping the rest in order, and asks for another callback
        while steps remain. An empty queue stays empty. */
    method Display() returns (drawn: Option<Segment>, redisplay: bool)
      modifies this
      ensures old(drawingSteps) == [] ==> drawn == None && drawingSteps == []
      ensures old(drawingSteps) != [] ==> drawn == Some(old(drawingSteps)[0]) && drawingSteps == old(drawingSteps)[1..]
      ensures redisplay <==> drawingSteps != []
    {
      drawn := None;
      if |drawingSteps| > 0 {
        drawn := Some(drawingSteps[0]);
        drawingSteps := drawingSteps[1..];
      }
      redisplay := |drawingSteps| > 0;
    }

    /** The event loop: display is called once, then again for as long as it
        asks for a redisplay. Every queued step is drawn exactly once, in
        queue order, and the queue ends empty. */
    method Run() returns (drawn: seq<Segment>)
      modifies this
      ensures drawn == old(drawingSteps)
      ensures drawingSteps == []
    {
      drawn := [];
      var more := true;
      while more
        invariant old(drawingSteps) == drawn + drawingSteps
        invariant !more ==> drawingSteps == []
        decreases |drawingSteps| + (if more then 1 else 0)
      {
        var step;
        step, more := Display();
        if step.Some? {
          drawn := drawn + [step.value];
        }
      }
    }

    /** `ticks` display callbacks: the first `ticks` queued steps are drawn in
        order; once ticks reaches the queue length the queue is empty, and
        further callbacks leave it empty and draw nothing. */
    method Play(ticks: nat) returns (drawn: seq<Segment>)
      modifies this
      ensures ticks <= |old(drawingSteps)| ==> drawn == old(drawingSteps)[..ticks] && drawingSteps == old(drawingSteps)[ticks..]
      ensures ticks >= |old(drawingSteps)| ==> drawn == old(drawingSteps) && drawingSteps == []
    {
      drawn := [];
      var i := 0;
      while i < ticks
        invariant 0 <= i <= ticks
        invariant old(drawingSteps) == drawn + drawingSteps
        invariant i <= |old(drawingSteps)| ==> |drawn| == i
        invariant i >= |old(drawingSteps)| ==> drawingSteps == []
      {
        var step, _ := Display();
        if step.Some? {
          drawn := drawn + [step.value];
        }
        i := i + 1;
      }
      if ticks <= |old(drawingSteps)| {
        SplitAt(old(drawingSteps), drawn, drawingSteps);
      }
    }
  }

  /** A sequence cut after the length of its first part gives back both parts. */
  lemma SplitAt(s: seq<Segment>, front: seq<Segment>, back: seq<Segment>)
    requires s == front + back
    ensures front == s[..|front|] && back == s[|front|..]
  {
  }
}
