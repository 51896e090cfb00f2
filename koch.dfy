/** Koch snowflake subdivision and its animation counter (test.py). The
    rotation by 60 degrees uses cos(pi/3) = 1/2 exactly and takes sin(pi/3) as
    a parameter `sin60`; the length lemmas assume sin60^2 = 3/4. The
    subdivision itself is stated for any turn of the direction vector, so that
    its counting and connectivity proofs stay free of products of unknowns. */
module Koch {
  import opened Geometry

  /** max_order of test.py:12. */
  const MaxOrder: nat := 4

  const Cos60: real := 0.5

  /** The starting triangle of draw_snowflake (test.py:63-65). */
  const A := Point(-0.5, -0.3)
  const B := Point(0.5, -0.3)
  const C := Point(0.0, 0.6)

  /** The trisection points p3 and p4 of p1-p2, computed as at test.py:39-40. */
  function Trisect(p1: Point, p2: Point): (r: (Point, Point))
    ensures Sub(r.0, p1) == Scale(1.0 / 3.0, Sub(p2, p1))
    ensures Sub(r.1, p1) == Scale(2.0 / 3.0, Sub(p2, p1))
    ensures Sub(r.1, r.0) == Sub(p2, r.1)
  {
    (Point((2.0 * p1.x + p2.x) / 3.0, (2.0 * p1.y + p2.y) / 3.0),
     Point((p1.x + 2.0 * p2.x) / 3.0, (p1.y + 2.0 * p2.y) / 3.0))
  }

  /** Rotation of a vector by 60 degrees, with cos = 1/2 and the given sine
      (test.py:44-46). */
  function Turn60(sin60: real): Point -> Point
  {
    (v: Point) => Point(Cos60 * v.x - sin60 * v.y, sin60 * v.x + Cos60 * v.y)
  }

  /** A turn that keeps lengths and makes an equilateral triangle with every
      vector it turns: what the construction of the peak needs of a rotation
      by 60 degrees. */
  ghost predicate EquilateralTurn(turn: Point -> Point)
  {
    forall v :: SqNorm(turn(v)) == SqNorm(v) && SqNorm(Sub(v, turn(v))) == SqNorm(v)
  }

  /** With sin60^2 = 3/4 the rotation of test.py:45-46 is such a turn. */
  lemma Turn60IsEquilateral(sin60: real)
    requires sin60 * sin60 == 0.75
    ensures EquilateralTurn(Turn60(sin60))
  {
    forall v: Point
      ensures SqNorm(Turn60(sin60)(v)) == SqNorm(v)
      ensures SqNorm(Sub(v, Turn60(sin60)(v))) == SqNorm(v)
    {
      var w := Turn60(sin60)(v);
      assert w == Point(0.5 * v.x - sin60 * v.y, sin60 * v.x + 0.5 * v.y);
      var s2 := sin60 * sin60;
      calc {
        SqNorm(w);
        (0.5 * v.x - sin60 * v.y) * (0.5 * v.x - sin60 * v.y)
          + (sin60 * v.x + 0.5 * v.y) * (sin60 * v.x + 0.5 * v.y);
        (0.25 + s2) * (v.x * v.x + v.y * v.y);
        SqNorm(v);
      }
      calc {
        SqNorm(Sub(v, w));
        (0.5 * v.x + sin60 * v.y) * (0.5 * v.x + sin60 * v.y)
          + (0.5 * v.y - sin60 * v.x) * (0.5 * v.y - sin60 * v.x);
        (0.25 + s2) * (v.x * v.x + v.y * v.y);
        SqNorm(v);
      }
    }
  }

  /** The peak p5: the first trisection point plus a third of p2 - p1, turned. */
  function Apex(p1: Point, p2: Point, turn: Point -> Point): Point
  {
    var p3 := Trisect(p1, p2).0;
    Add(p3, turn(Point((p2.x - p1.x) / 3.0, (p2.y - p1.y) / 3.0)))
  }

  /** The four sub-segments of one subdivision step, in drawing order. */
  function Motif(p1: Point, p2: Point, turn: Point -> Point): seq<Segment>
  {
    var (p3, p4) := Trisect(p1, p2);
    var p5 := Apex(p1, p2, turn);
    [Segment(p1, p3), Segment(p3, p5), Segment(p5, p4), Segment(p4, p2)]
  }

  /** koch_snowflake (test.py:23-53): the segments drawn for one side at the
      given order, the peak turned by `turn`. */
  function KochCurve(order: nat, p1: Point, p2: Point, turn: Point -> Point): seq<Segment>
    decreases order
  {
    if order == 0 then [Segment(p1, p2)]
    else
      var m := Motif(p1, p2, turn);
      KochCurve(order - 1, m[0].start, m[0].end, turn)
        + KochCurve(order - 1, m[1].start, m[1].end, turn)
        + KochCurve(order - 1, m[2].start, m[2].end, turn)
        + KochCurve(order - 1, m[3].start, m[3].end, turn)
  }

  /** draw_snowflake (test.py:55-73): the three sides of the triangle, each
      subdivided; test.py's turn is Turn60(sin(pi/3)). */
  function DrawSnowflake(order: nat, turn: Point -> Point): seq<Segment>
  {
    KochCurve(order, A, B, turn) + KochCurve(order, B, C, turn) + KochCurve(order, C, A, turn)
  }

  /** The motif is a polyline from p1 to p2 through the two trisection points,
      with the peak at the first trisection point plus the turned third. */
  lemma MotifShape(p1: Point, p2: Point, turn: Point -> Point)
    ensures var m := Motif(p1, p2, turn);
      && Polyline(m, p1, p2)
      && m[1].start == Add(p1, Scale(1.0 / 3.0, Sub(p2, p1)))
      && m[2].end == Add(p1, Scale(2.0 / 3.0, Sub(p2, p1)))
      && Sub(m[1].end, m[1].start) == turn(Scale(1.0 / 3.0, Sub(p2, p1)))
  {
    var m := Motif(p1, p2, turn);
    assert Point((p2.x - p1.x) / 3.0, (p2.y - p1.y) / 3.0) == Scale(1.0 / 3.0, Sub(p2, p1));
  }

  lemma SqNormThird(v: Point)
    ensures 9.0 * SqNorm(Scale(1.0 / 3.0, v)) == SqNorm(v)
  {
  }

  /** Each of the four motif segments is a third of the parent in length (one
      ninth in squared length) when the turn is a rotation by 60 degrees. */
  lemma MotifLengths(p1: Point, p2: Point, turn: Point -> Point)
    requires EquilateralTurn(turn)
    ensures var m := Motif(p1, p2, turn);
      forall k :: 0 <= k < 4 ==> 9.0 * SqLen(m[k]) == SqLen(Segment(p1, p2))
  {
    var m := Motif(p1, p2, turn);
    var d := Sub(p2, p1);
    var third := Point((p2.x - p1.x) / 3.0, (p2.y - p1.y) / 3.0);
    assert third == Scale(1.0 / 3.0, d);
    SqNormThird(d);
    assert Sub(m[0].end, m[0].start) == third;
    assert Sub(m[1].end, m[1].start) == turn(third);
    assert Sub(m[2].end, m[2].start) == Sub(third, turn(third));
    assert Sub(m[3].end, m[3].start) == third;
  }

  /** Order n emits exactly 4^n segments. */
  lemma {:induction false} KochCount(order: nat, p1: Point, p2: Point, turn: Point -> Point)
    ensures |KochCurve(order, p1, p2, turn)| == Pow(4, order)
  {
    if order > 0 {
      var n := order - 1;
      forall a, b
        ensures |KochCurve(n, a, b, turn)| == Pow(4, n)
      {
        KochCount(n, a, b, turn);
      }
    }
  }

  /** The inductive step of KochPolyline: four sub-curves along the motif's
      segments join into one polyline from p1 to p2. */
  lemma KochPolylineStep(order: nat, p1: Point, p2: Point, turn: Point -> Point)
    requires order > 0
    requires var m := Motif(p1, p2, turn);
      forall i :: 0 <= i < 4 ==> Polyline(KochCurve(order - 1, m[i].start, m[i].end, turn), m[i].start, m[i].end)
    ensures Polyline(KochCurve(order, p1, p2, turn), p1, p2)
  {
    var m := Motif(p1, p2, turn);
    MotifShape(p1, p2, turn);
    assert m[0].end == m[1].start && m[1].end == m[2].start && m[2].end == m[3].start;
    var k0 := KochCurve(order - 1, m[0].start, m[0].end, turn);
    var k1 := KochCurve(order - 1, m[1].start, m[1].end, turn);
    var k2 := KochCurve(order - 1, m[2].start, m[2].end, turn);
    var k3 := KochCurve(order - 1, m[3].start, m[3].end, turn);
    PolylineJoin(k0, k1, p1, m[1].start, m[1].end);
    PolylineJoin(k0 + k1, k2, p1, m[2].start, m[2].end);
    PolylineJoin(k0 + k1 + k2, k3, p1, m[3].start, p2);
  }

  /** The emitted segments form one connected polyline from p1 to p2. */
  lemma {:induction false} KochPolyline(order: nat, p1: Point, p2: Point, turn: Point -> Point)
    ensures Polyline(KochCurve(order, p1, p2, turn), p1, p2)
  {
    if order > 0 {
      var m := Motif(p1, p2, turn);
      forall i | 0 <= i < 4
        ensures Polyline(KochCurve(order - 1, m[i].start, m[i].end, turn), m[i].start, m[i].end)
      {
        KochPolyline(order - 1, m[i].start, m[i].end, turn);
      }
      KochPolylineStep(order, p1, p2, turn);
    }
  }

  /** Every segment of segs has squared length `whole` divided by `k`. */
  ghost predicate ScaledDown(segs: seq<Segment>, k: real, whole: real)
  {
    forall i :: 0 <= i < |segs| ==> k * SqLen(segs[i]) == whole
  }

  lemma ScaledDownJoin(s: seq<Segment>, t: seq<Segment>, k: real, whole: real)
    requires ScaledDown(s, k, whole) && ScaledDown(t, k, whole)
    ensures ScaledDown(s + t, k, whole)
  {
  }

  /** A piece a ninth of the whole, cut into parts 1/k of the piece, is cut
      into parts 1/(9k) of the whole. */
  lemma ScaledDownNinth(segs: seq<Segment>, k: real, piece: real, whole: real)
    requires ScaledDown(segs, k, piece) && 9.0 * piece == whole
    ensures ScaledDown(segs, 9.0 * k, whole)
  {
    forall i | 0 <= i < |segs|
      ensures 9.0 * k * SqLen(segs[i]) == whole
    {
      assert k * SqLen(segs[i]) == piece;
    }
  }

  /** Four parts, each cut at 1/k of its motif segment, with each motif
      segment a ninth of the whole, are together cut at 1/(9k) of the whole. */
  lemma MotifPartsScaledDown(m: seq<Segment>, parts: seq<seq<Segment>>, k: real, whole: real)
    requires |m| == 4 && |parts| == 4
    requires forall i :: 0 <= i < 4 ==> 9.0 * SqLen(m[i]) == whole
    requires forall i :: 0 <= i < 4 ==> ScaledDown(parts[i], k, SqLen(m[i]))
    ensures ScaledDown(parts[0] + parts[1] + parts[2] + parts[3], 9.0 * k, whole)
  {
    ScaledDownNinth(parts[0], k, SqLen(m[0]), whole);
    ScaledDownNinth(parts[1], k, SqLen(m[1]), whole);
    ScaledDownNinth(parts[2], k, SqLen(m[2]), whole);
    ScaledDownNinth(parts[3], k, SqLen(m[3]), whole);
    ScaledDownJoin(parts[0], parts[1], 9.0 * k, whole);
    ScaledDownJoin(parts[0] + parts[1], parts[2], 9.0 * k, whole);
    ScaledDownJoin(parts[0] + parts[1] + parts[2], parts[3], 9.0 * k, whole);
  }

  lemma PowNineStep(n: nat)
    requires n > 0
    ensures Pow(9, n) as real == 9.0 * (Pow(9, n - 1) as real)
  {
    assert Pow(9, n) == 9 * Pow(9, n - 1);
  }

  /** The inductive step of KochSegmentLength: if the four sub-curves are
      cut at 9^-(n-1) of their motif segments, the curve is cut at 9^-n of
      the side. */
  lemma KochScaledStep(order: nat, p1: Point, p2: Point, turn: Point -> Point)
    requires order > 0 && EquilateralTurn(turn)
    requires var m := Motif(p1, p2, turn);
      forall i :: 0 <= i < 4 ==>
        ScaledDown(KochCurve(order - 1, m[i].start, m[i].end, turn), Pow(9, order - 1) as real, SqLen(m[i]))
    ensures ScaledDown(KochCurve(order, p1, p2, turn), Pow(9, order) as real, SqLen(Segment(p1, p2)))
  {
    var n := order - 1;
    var m := Motif(p1, p2, turn);
    MotifLengths(p1, p2, turn);
    var parts := [KochCurve(n, m[0].start, m[0].end, turn), KochCurve(n, m[1].start, m[1].end, turn),
                  KochCurve(n, m[2].start, m[2].end, turn), KochCurve(n, m[3].start, m[3].end, turn)];
    MotifPartsScaledDown(m, parts, Pow(9, n) as real, SqLen(Segment(p1, p2)));
    PowNineStep(order);
  }

  /** Every segment of order n is 3^-n times the side in length (9^-n in
      squared length). */
  lemma {:induction false} KochSegmentLength(order: nat, p1: Point, p2: Point, turn: Point -> Point)
    requires EquilateralTurn(turn)
    ensures ScaledDown(KochCurve(order, p1, p2, turn), Pow(9, order) as real, SqLen(Segment(p1, p2)))
  {
    if order > 0 {
      var m := Motif(p1, p2, turn);
      forall i | 0 <= i < 4
        ensures ScaledDown(KochCurve(order - 1, m[i].start, m[i].end, turn), Pow(9, order - 1) as real, SqLen(m[i]))
      {
        KochSegmentLength(order - 1, m[i].start, m[i].end, turn);
      }
      KochScaledStep(order, p1, p2, turn);
    }
  }

  /** Three sides a -> b -> c -> a, each subdivided, give 3 * 4^n segments
      forming a closed loop, with the second and third sides starting at b and c. */
  lemma {:induction false} TriangleClosed(order: nat, a: Point, b: Point, c: Point, turn: Point -> Point)
    ensures var r := KochCurve(order, a, b, turn) + KochCurve(order, b, c, turn) + KochCurve(order, c, a, turn);
      && |r| == 3 * Pow(4, order)
      && Polyline(r, a, a)
      && r[Pow(4, order)].start == b
      && r[2 * Pow(4, order)].start == c
  {
    var ab, bc, ca := KochCurve(order, a, b, turn), KochCurve(order, b, c, turn), KochCurve(order, c, a, turn);
    KochCount(order, a, b, turn);
    KochCount(order, b, c, turn);
    KochCount(order, c, a, turn);
    KochPolyline(order, a, b, turn);
    KochPolyline(order, b, c, turn);
    KochPolyline(order, c, a, turn);
    PolylineJoin(ab, bc, a, b, c);
    PolylineJoin(ab + bc, ca, a, c, a);
    assert (ab + bc + ca)[|ab|] == bc[0];
    assert (ab + bc + ca)[|ab| + |bc|] == ca[0];
  }

  /** The snowflake has 3 * 4^n segments forming a closed loop A -> B -> C -> A. */
  lemma SnowflakeClosed(order: nat, turn: Point -> Point)
    ensures var r := DrawSnowflake(order, turn);
      && |r| == 3 * Pow(4, order)
      && Polyline(r, A, A)
      && r[Pow(4, order)].start == B
      && r[2 * Pow(4, order)].start == C
  {
    TriangleClosed(order, A, B, C, turn);
  }

  /** The animation state of test.py:10-12: the order currently drawn. */
  class Animation {
    var currentOrder: nat

    ghost predicate Valid()
      reads this
    {
      currentOrder <= MaxOrder
    }

    constructor ()
      ensures Valid() && currentOrder == 0
    {
      currentOrder := 0;
    }

    /** The segments the display callback draws for the current order. */
    function Frame(turn: Point -> Point): (r: seq<Segment>)
      reads this
      ensures |r| == 3 * Pow(4, currentOrder)
      ensures Polyline(r, A, A)
    {
      SnowflakeClosed(currentOrder, turn);
      DrawSnowflake(currentOrder, turn)
    }

    /** animate (test.py:75-85): one timer tick. Below MaxOrder it raises the
        order by one and asks for a redraw and another tick; at MaxOrder it
        does nothing. */
    method Animate() returns (redraw: bool)
      requires Valid()
      modifies this
      ensures Valid()
      ensures redraw == (old(currentOrder) < MaxOrder)
      ensures currentOrder == if redraw then old(currentOrder) + 1 else old(currentOrder)
    {
      redraw := currentOrder < MaxOrder;
      if redraw {
        currentOrder := currentOrder + 1;
      }
    }
  }
}
