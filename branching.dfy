/** The branching rule shared by the fractal tree (c.py) and the twin trees
    (e.py): draw one branch by polar extension from its start, then grow two
    shorter sub-branches from its end, turned by +delta and by -delta.

    cos and sin are not computed: a `Trig` value supplies them, and the
    identities a property needs are preconditions of the lemma that needs
    them: cos(pi - a) = -cos a and sin(pi - a) = sin a for the mirror lemmas,
    and cos(pi/2) = 0, sin(pi/2) = 1 for Tree.TreeTrunk. pi is math.pi as
    printed, 3.141592653589793. The rule itself is stated for
    any extension function, so that its structural proofs never multiply two
    unknown reals. */
module Branching {
  import opened Geometry

  /** math.pi as printed, 3.141592653589793. */
  const Pi: real := 3.141592653589793

  /** The cosine and sine the scripts take from the math module. */
  datatype Trig = Trig(cos: real -> real, sin: real -> real)

  /** cos and sin of supplementary angles: cos(pi - a) = -cos a and
      sin(pi - a) = sin a, stated for every pair a, b with a + b = pi. */
  ghost predicate Supplementary(t: Trig)
  {
    forall a, b {:trigger t.cos(a), t.cos(b)} :: a + b == Pi ==> t.cos(a) == -t.cos(b) && t.sin(a) == t.sin(b)
  }

  /** The end point of a branch of the given length and angle:
      (x + length * cos(angle), y + length * sin(angle)), as in c.py:30-31
      and e.py:38-39. */
  function Extend(t: Trig): (Point, real, real) -> Point
  {
    (p: Point, length: real, angle: real) => Point(p.x + length * t.cos(angle), p.y + length * t.sin(angle))
  }

  /** An extension that commutes with the mirror x -> -x when the angles are
      supplementary. */
  ghost predicate MirrorCompatible(extend: (Point, real, real) -> Point, pi: real)
  {
    forall p, length, a, b {:trigger extend(MirrorPoint(p), length, b), MirrorPoint(extend(p, length, a))} ::
      a + b == pi ==> extend(MirrorPoint(p), length, b) == MirrorPoint(extend(p, length, a))
  }

  /** The polar extension mirrors correctly when cos and sin obey the
      supplementary-angle identities. */
  lemma ExtendMirrors(t: Trig)
    requires Supplementary(t)
    ensures MirrorCompatible(Extend(t), Pi)
  {
    forall p: Point, length: real, a: real, b: real | a + b == Pi
      ensures Extend(t)(MirrorPoint(p), length, b) == MirrorPoint(Extend(t)(p, length, a))
    {
      assert t.cos(b) == -t.cos(a) && t.sin(b) == t.sin(a);
      assert length * t.cos(b) == -(length * t.cos(a));
    }
  }

  /** The branches drawn by draw_branch (c.py:17-42, e.py:24-47), in the
      order they are emitted: the branch itself, then the whole +delta
      subtree, then the whole -delta subtree. The start point is listed in
      the decreases clause only so that a literal depth does not make the
      verifier unfold a whole concrete tree at once. */
  function Grow(o: Point, length: real, angle: real, depth: nat, ratio: real, delta: real,
                extend: (Point, real, real) -> Point): seq<Segment>
    decreases depth, o
  {
    if depth == 0 then []
    else
      var e := extend(o, length, angle);
      [Segment(o, e)]
        + Grow(e, length * ratio, angle + delta, depth - 1, ratio, delta, extend)
        + Grow(e, length * ratio, angle - delta, depth - 1, ratio, delta, extend)
  }

  /** Depth d emits exactly 2^d - 1 branches. */
  lemma {:induction false} GrowCount(o: Point, length: real, angle: real, depth: nat, ratio: real, delta: real,
                                     extend: (Point, real, real) -> Point)
    ensures |Grow(o, length, angle, depth, ratio, delta, extend)| == Pow(2, depth) - 1
    decreases depth
  {
    if depth > 0 {
      var e := extend(o, length, angle);
      GrowCount(e, length * ratio, angle + delta, depth - 1, ratio, delta, extend);
      GrowCount(e, length * ratio, angle - delta, depth - 1, ratio, delta, extend);
      PowPositive(2, depth - 1);
    }
  }

  /** Pre-order emission: for depth d > 0 the first branch runs from o to the
      extended end e; then come exactly the 2^(d-1) - 1 branches of the +delta
      subtree, and after them the -delta subtree, both rooted at e with the
      length scaled by ratio. */
  lemma GrowPreOrder(o: Point, length: real, angle: real, depth: nat, ratio: real, delta: real,
                     extend: (Point, real, real) -> Point)
    requires depth > 0
    ensures var g := Grow(o, length, angle, depth, ratio, delta, extend);
      var e := extend(o, length, angle);
      var h := Pow(2, depth - 1);
      && |g| == 2 * h - 1
      && g[0] == Segment(o, e)
      && g[1..h] == Grow(e, length * ratio, angle + delta, depth - 1, ratio, delta, extend)
      && g[h..] == Grow(e, length * ratio, angle - delta, depth - 1, ratio, delta, extend)
  {
    var e := extend(o, length, angle);
    var left := Grow(e, length * ratio, angle + delta, depth - 1, ratio, delta, extend);
    var right := Grow(e, length * ratio, angle - delta, depth - 1, ratio, delta, extend);
    GrowCount(e, length * ratio, angle + delta, depth - 1, ratio, delta, extend);
    GrowCount(e, length * ratio, angle - delta, depth - 1, ratio, delta, extend);
    PowPositive(2, depth - 1);
    var g := [Segment(o, e)] + left + right;
    assert g[1..1 + |left|] == left;
    assert g[1 + |left|..] == right;
  }

  /** For depth d >= 2, both children of the first branch start at its end,
      with the length scaled by ratio and the angle turned by +delta (the
      first) and -delta (the one right after the first subtree). */
  lemma GrowChildren(o: Point, length: real, angle: real, depth: nat, ratio: real, delta: real,
                     extend: (Point, real, real) -> Point)
    requires depth >= 2
    ensures var g := Grow(o, length, angle, depth, ratio, delta, extend);
      var e := extend(o, length, angle);
      var h := Pow(2, depth - 1);
      && |g| == 2 * h - 1 && h >= 2
      && g[1] == Segment(e, extend(e, length * ratio, angle + delta))
      && g[h] == Segment(e, extend(e, length * ratio, angle - delta))
  {
    var e := extend(o, length, angle);
    GrowPreOrder(o, length, angle, depth, ratio, delta, extend);
    GrowPreOrder(e, length * ratio, angle + delta, depth - 1, ratio, delta, extend);
    GrowPreOrder(e, length * ratio, angle - delta, depth - 1, ratio, delta, extend);
    assert Pow(2, depth - 1) == 2 * Pow(2, depth - 2);
    PowPositive(2, depth - 2);
  }

  /** The emitted branches form one connected tree rooted at o: every branch
      after the first starts where an earlier branch ends. */
  lemma {:induction false} GrowConnected(o: Point, length: real, angle: real, depth: nat, ratio: real, delta: real,
                                         extend: (Point, real, real) -> Point)
    ensures var g := Grow(o, length, angle, depth, ratio, delta, extend);
      && (|g| > 0 ==> g[0].start == o)
      && forall k :: 0 < k < |g| ==> exists j :: 0 <= j < k && g[j].end == g[k].start
    decreases depth
  {
    if depth > 0 {
      var e := extend(o, length, angle);
      var left := Grow(e, length * ratio, angle + delta, depth - 1, ratio, delta, extend);
      var right := Grow(e, length * ratio, angle - delta, depth - 1, ratio, delta, extend);
      GrowConnected(e, length * ratio, angle + delta, depth - 1, ratio, delta, extend);
      GrowConnected(e, length * ratio, angle - delta, depth - 1, ratio, delta, extend);
      var g := [Segment(o, e)] + left + right;
      forall k | 0 < k < |g|
        ensures exists j :: 0 <= j < k && g[j].end == g[k].start
      {
        if k <= |left| {
          var i := k - 1;
          assert g[k] == left[i];
          if i == 0 {
            assert g[0].end == g[k].start;
          } else {
            var j :| 0 <= j < i && left[j].end == left[i].start;
            assert g[j + 1] == left[j];
          }
        } else {
          var i := k - 1 - |left|;
          assert g[k] == right[i];
          if i == 0 {
            assert g[0].end == g[k].start;
          } else {
            var j :| 0 <= j < i && right[j].end == right[i].start;
            assert g[j + 1 + |left|] == right[j];
          }
        }
      }
    }
  }

  /** Every branch reflected through x = 0. */
  function MirrorAll(segs: seq<Segment>): seq<Segment>
  {
    seq(|segs|, k requires 0 <= k < |segs| => MirrorSegment(segs[k]))
  }

  lemma MirrorAllJoin(s: seq<Segment>, t: seq<Segment>)
    ensures MirrorAll(s + t) == MirrorAll(s) + MirrorAll(t)
  {
    assert forall k :: 0 <= k < |s| + |t| ==> MirrorAll(s + t)[k] == (MirrorAll(s) + MirrorAll(t))[k];
  }

  lemma MirrorExtend(extend: (Point, real, real) -> Point, pi: real, p: Point, length: real, a: real, b: real)
    requires MirrorCompatible(extend, pi) && a + b == pi
    ensures extend(MirrorPoint(p), length, b) == MirrorPoint(extend(p, length, a))
  {
  }

  /** Reflecting a branch followed by its two subtrees reflects each part. */
  lemma MirrorNode(s: Segment, left: seq<Segment>, right: seq<Segment>)
    ensures MirrorAll([s] + left + right) == [MirrorSegment(s)] + MirrorAll(left) + MirrorAll(right)
  {
    MirrorAllJoin([s], left);
    MirrorAllJoin([s] + left, right);
  }

  /** The tree grown from the reflection of o at angle b with turn db is the
      reflection, branch by branch, of the tree grown from o at angle a with
      turn da. */
  ghost predicate Mirrored(o: Point, length: real, a: real, b: real, depth: nat, ratio: real,
                           da: real, db: real, extend: (Point, real, real) -> Point)
  {
    Grow(MirrorPoint(o), length, b, depth, ratio, db, extend) == MirrorAll(Grow(o, length, a, depth, ratio, da, extend))
  }

  /** The inductive step of GrowMirror: when the first branch and both
      subtrees mirror, so does the whole tree. */
  lemma MirrorStep(o: Point, length: real, a: real, b: real, depth: nat, ratio: real,
                   da: real, db: real, extend: (Point, real, real) -> Point, e: Point)
    requires depth > 0 && e == extend(o, length, a)
    requires extend(MirrorPoint(o), length, b) == MirrorPoint(e)
    requires Mirrored(e, length * ratio, a + da, b + db, depth - 1, ratio, da, db, extend)
    requires Mirrored(e, length * ratio, a - da, b - db, depth - 1, ratio, da, db, extend)
    ensures Mirrored(o, length, a, b, depth, ratio, da, db, extend)
  {
    var me := MirrorPoint(e);
    var l := length * ratio;
    var left := Grow(e, l, a + da, depth - 1, ratio, da, extend);
    var right := Grow(e, l, a - da, depth - 1, ratio, da, extend);
    assert Grow(MirrorPoint(o), length, b, depth, ratio, db, extend)
        == [Segment(MirrorPoint(o), me)] + Grow(me, l, b + db, depth - 1, ratio, db, extend)
           + Grow(me, l, b - db, depth - 1, ratio, db, extend);
    assert Segment(MirrorPoint(o), me) == MirrorSegment(Segment(o, e));
    MirrorNode(Segment(o, e), left, right);
    assert Grow(o, length, a, depth, ratio, da, extend) == [Segment(o, e)] + left + right;
  }

  /** Mirror symmetry: growing from the reflected start at the supplementary
      angle with the opposite turn gives the reflection of the original
      tree, branch by branch. */
  lemma {:induction false} GrowMirror(o: Point, length: real, a: real, b: real, depth: nat, ratio: real,
                                      da: real, db: real, extend: (Point, real, real) -> Point, pi: real)
    requires MirrorCompatible(extend, pi)
    requires a + b == pi && da + db == 0.0
    ensures Mirrored(o, length, a, b, depth, ratio, da, db, extend)
    decreases depth
  {
    if depth > 0 {
      var e := extend(o, length, a);
      MirrorExtend(extend, pi, o, length, a, b);
      GrowMirror(e, length * ratio, a + da, b + db, depth - 1, ratio, da, db, extend, pi);
      GrowMirror(e, length * ratio, a - da, b - db, depth - 1, ratio, da, db, extend, pi);
      MirrorStep(o, length, a, b, depth, ratio, da, db, extend, e);
    }
  }
}
