/** The geometric helpers of the Python feature-based morpher (Beier and Neely,
    "Feature-Based Image Metamorphosis", SIGGRAPH 1992): line interpolation, the
    perpendicular of a vector, the line coordinates u and v of a pixel, and the
    choice of the pixel-to-line distance. Points double as 2-D vectors; all
    arithmetic is over the reals and no square root is taken: v appears through
    its numerator and distances through their squares. */
module BeierNeely {
  import opened LineFiles
  import MorphPlayer

  /** A feature line from p to q. */
  datatype Line = Line(p: Point, q: Point)

  /** Real multiplication. Products are written through this function so that a sign
      argument can treat each product as one quantity. */
  function Mul(a: real, b: real): real { a * b }

  function Add(a: Point, b: Point): Point { Point(a.x + b.x, a.y + b.y) }
  function Sub(a: Point, b: Point): Point { Point(a.x - b.x, a.y - b.y) }
  function Scale(k: real, a: Point): Point { Point(Mul(k, a.x), Mul(k, a.y)) }
  function Dot(a: Point, b: Point): real { Mul(a.x, b.x) + Mul(a.y, b.y) }
  function SqLen(a: Point): real { Dot(a, a) }

  lemma MulPos(a: real, b: real)
    requires 0.0 < a && 0.0 < b
    ensures 0.0 < Mul(a, b)
  {
  }

  lemma MulNonneg(a: real, b: real)
    requires 0.0 <= a && 0.0 <= b
    ensures 0.0 <= Mul(a, b)
  {
    if a != 0.0 && b != 0.0 {
      MulPos(a, b);
    }
  }

  lemma SquarePos(r: real)
    requires r != 0.0
    ensures 0.0 < Mul(r, r)
  {
    if r < 0.0 {
      MulPos(-r, -r);
    } else {
      MulPos(r, r);
    }
  }

  lemma SquareNonneg(r: real)
    ensures 0.0 <= Mul(r, r)
  {
    if r != 0.0 {
      SquarePos(r);
    }
  }

  /** Only the zero vector has squared length 0. */
  lemma SqLenZero(a: Point)
    ensures 0.0 <= SqLen(a)
    ensures SqLen(a) == 0.0 <==> a == Point(0.0, 0.0)
  {
    SquareNonneg(a.x);
    SquareNonneg(a.y);
    if a.x != 0.0 {
      SquarePos(a.x);
    } else if a.y != 0.0 {
      SquarePos(a.y);
    }
  }

  /** Two distinct points are a positive squared distance apart, in either order. */
  lemma DistinctSqLen(p: Point, q: Point)
    requires p != q
    ensures 0.0 < SqLen(Sub(p, q))
    ensures SqLen(Sub(q, p)) == SqLen(Sub(p, q))
  {
    var d := Sub(p, q);
    assert d != Point(0.0, 0.0);
    SqLenZero(d);
  }

  lemma DivMul(a: real, l: real)
    requires l != 0.0
    ensures Mul(a / l, l) == a
    ensures Mul(a, l) / l == a
  {
  }

  /** perpendicular: the vector turned a quarter turn counter-clockwise. */
  function Perpendicular(v: Point): (r: Point)
    ensures Dot(r, v) == 0.0
    ensures SqLen(r) == SqLen(v)
  {
    Point(-v.y, v.x)
  }

  lemma PerpendicularTwice(v: Point)
    ensures Perpendicular(Perpendicular(v)) == Point(-v.x, -v.y)
  {
  }

  lemma PerpendicularLinear(k: real, v: Point)
    ensures Perpendicular(Scale(k, v)) == Scale(k, Perpendicular(v))
  {
  }

  /** One line of interpolateLines: the source line weighted by t, the destination line by 1 - t. */
  function BlendLine(source: Line, destination: Line, t: real): Line {
    Line(Add(Scale(t, source.p), Scale(1.0 - t, destination.p)),
         Add(Scale(t, source.q), Scale(1.0 - t, destination.q)))
  }

  /** interpolateLines: one blended line per source line, in the same order. */
  function InterpolateLines(sourceLines: seq<Line>, destinationLines: seq<Line>, t: real): (r: seq<Line>)
    requires |sourceLines| <= |destinationLines|
    ensures |r| == |sourceLines|
    ensures forall i :: 0 <= i < |r| ==> r[i] == BlendLine(sourceLines[i], destinationLines[i], t)
  {
    seq(|sourceLines|, i requires 0 <= i < |sourceLines| => BlendLine(sourceLines[i], destinationLines[i], t))
  }

  /** At t = 1 the result is the source lines, at t = 0 the destination lines. */
  lemma InterpolateLinesEnds(sourceLines: seq<Line>, destinationLines: seq<Line>)
    requires |sourceLines| <= |destinationLines|
    ensures InterpolateLines(sourceLines, destinationLines, 1.0) == sourceLines
    ensures InterpolateLines(sourceLines, destinationLines, 0.0) == destinationLines[..|sourceLines|]
  {
    var one := InterpolateLines(sourceLines, destinationLines, 1.0);
    var zero := InterpolateLines(sourceLines, destinationLines, 0.0);
    assert forall i :: 0 <= i < |sourceLines| ==> one[i] == sourceLines[i];
    assert forall i :: 0 <= i < |sourceLines| ==> zero[i] == destinationLines[i];
  }

  /** The four coordinates of a line, the layout of one line in the player's buffers. */
  function FlatLine(l: Line): (r: seq<real>)
    ensures |r| == 4
  {
    [l.p.x, l.p.y, l.q.x, l.q.y]
  }

  function FlatLines(lines: seq<Line>): (r: seq<real>)
    ensures |r| == 4 * |lines|
  {
    if |lines| == 0 then [] else FlatLines(lines[..|lines| - 1]) + FlatLine(lines[|lines| - 1])
  }

  lemma BlendScalar(a: real, b: real, t: real)
    ensures Mul(t, a) + Mul(1.0 - t, b) == b * (1.0 - t) + a * t
  {
  }

  lemma BlendLineIsReversedLerp(source: Line, destination: Line, t: real)
    ensures FlatLine(BlendLine(source, destination, t)) ==
      MorphPlayer.Lerp(FlatLine(destination), FlatLine(source), t)
  {
    BlendScalar(source.p.x, destination.p.x, t);
    BlendScalar(source.p.y, destination.p.y, t);
    BlendScalar(source.q.x, destination.q.x, t);
    BlendScalar(source.q.y, destination.q.y, t);
    var a := FlatLine(BlendLine(source, destination, t));
    var b := MorphPlayer.Lerp(FlatLine(destination), FlatLine(source), t);
    assert a[0] == b[0] && a[1] == b[1] && a[2] == b[2] && a[3] == b[3];
    assert forall k :: 0 <= k < 4 ==> a[k] == b[k];
  }

  lemma LerpAppend(a: seq<real>, a2: seq<real>, b: seq<real>, b2: seq<real>, t: real)
    requires |a| == |b| && |a2| == |b2|
    ensures MorphPlayer.Lerp(a + a2, b + b2, t) == MorphPlayer.Lerp(a, b, t) + MorphPlayer.Lerp(a2, b2, t)
  {
    var l := MorphPlayer.Lerp(a + a2, b + b2, t);
    var r := MorphPlayer.Lerp(a, b, t) + MorphPlayer.Lerp(a2, b2, t);
    forall k | 0 <= k < |l|
      ensures l[k] == r[k]
    {
      if k < |a| {
        assert r[k] == MorphPlayer.Lerp(a, b, t)[k];
      } else {
        assert r[k] == MorphPlayer.Lerp(a2, b2, t)[k - |a|];
      }
    }
  }

  /** The Python interpolation is the player's interpolateLines with the roles of the two line
      sets exchanged: here t = 1 means the source lines, there t = 1 means the lines of B. */
  lemma {:induction false} InterpolateLinesIsReversedLerp(sourceLines: seq<Line>, destinationLines: seq<Line>, t: real)
    requires |sourceLines| == |destinationLines|
    ensures FlatLines(InterpolateLines(sourceLines, destinationLines, t)) ==
      MorphPlayer.Lerp(FlatLines(destinationLines), FlatLines(sourceLines), t)
  {
    var n := |sourceLines|;
    if n > 0 {
      var s := sourceLines[..n - 1];
      var d := destinationLines[..n - 1];
      var m := InterpolateLines(sourceLines, destinationLines, t);
      assert m[..n - 1] == InterpolateLines(s, d, t);
      InterpolateLinesIsReversedLerp(s, d, t);
      BlendLineIsReversedLerp(sourceLines[n - 1], destinationLines[n - 1], t);
      LerpAppend(FlatLines(d), FlatLine(destinationLines[n - 1]), FlatLines(s), FlatLine(sourceLines[n - 1]), t);
    }
  }

  /** calcU: how far along P -> Q the projection of X falls, in units of the line's length.
      numpy divides 0 by 0 when P == Q; the model has no value there. */
  function CalcU(x: Point, p: Point, q: Point): (r: Option<real>)
    ensures r.None? <==> p == q
  {
    if p == q then None
    else
      DistinctSqLen(p, q);
      Some(Dot(Sub(p, x), Sub(p, q)) / SqLen(Sub(p, q)))
  }

  /** calcU in terms of X - P and Q - P, the vectors calcV uses. */
  lemma CalcUValue(x: Point, p: Point, q: Point)
    requires p != q
    ensures 0.0 < SqLen(Sub(q, p))
    ensures CalcU(x, p, q) == Some(Dot(Sub(x, p), Sub(q, p)) / SqLen(Sub(q, p)))
  {
    DistinctSqLen(p, q);
    assert Dot(Sub(p, x), Sub(p, q)) == Dot(Sub(x, p), Sub(q, p));
  }

  /** u is the coordinate of the foot of the perpendicular from X: what remains of X - P after
      u (Q - P) is removed is orthogonal to the line. */
  lemma CalcUProjects(x: Point, p: Point, q: Point)
    requires p != q
    ensures Dot(Sub(Sub(x, p), Scale(CalcU(x, p, q).value, Sub(q, p))), Sub(q, p)) == 0.0
  {
    CalcUValue(x, p, q);
    var d := Sub(q, p);
    var u := CalcU(x, p, q).value;
    DivMul(Dot(Sub(x, p), d), SqLen(d));
    assert Dot(Sub(Sub(x, p), Scale(u, d)), d) == Dot(Sub(x, p), d) - Mul(u, SqLen(d));
  }

  /** A point P + s (Q - P) of the line has u = s. */
  lemma CalcUOnLine(p: Point, q: Point, s: real)
    requires p != q
    ensures CalcU(Add(p, Scale(s, Sub(q, p))), p, q) == Some(s)
  {
    var d := Sub(q, p);
    var x := Add(p, Scale(s, d));
    CalcUValue(x, p, q);
    assert Sub(x, p) == Scale(s, d);
    assert Dot(Scale(s, d), d) == Mul(s, SqLen(d));
    DivMul(s, SqLen(d));
  }

  /** u is 0 at P and 1 at Q. */
  lemma CalcUAtEnds(p: Point, q: Point)
    requires p != q
    ensures CalcU(p, p, q) == Some(0.0)
    ensures CalcU(q, p, q) == Some(1.0)
  {
    CalcUOnLine(p, q, 0.0);
    CalcUOnLine(p, q, 1.0);
    assert Add(p, Scale(0.0, Sub(q, p))) == p;
    assert Add(p, Scale(1.0, Sub(q, p))) == q;
  }

  /** The numerator of calcV: (X - P) . perpendicular(Q - P). calcV divides it by |Q - P|. */
  function CalcVNumerator(x: Point, p: Point, q: Point): real {
    Dot(Sub(x, p), Perpendicular(Sub(q, p)))
  }

  lemma CalcVNumeratorAtEnds(p: Point, q: Point)
    ensures CalcVNumerator(p, p, q) == 0.0
    ensures CalcVNumerator(q, p, q) == 0.0
  {
    assert Sub(q, p) == Point(q.x - p.x, q.y - p.y);
  }

  lemma DivCombine(a: real, b: real, l: real, c: real, e: real)
    requires l != 0.0
    ensures Mul(a / l, c) + Mul(b / l, e) == (Mul(a, c) + Mul(b, e)) / l
  {
  }

  lemma DecompositionScalar(wx: real, wy: real, dx: real, dy: real)
    ensures var dd := Mul(wx, dx) + Mul(wy, dy);
      var n := Mul(wx, -dy) + Mul(wy, dx);
      var l := Mul(dx, dx) + Mul(dy, dy);
      Mul(dd, dx) + Mul(n, -dy) == Mul(wx, l) && Mul(dd, dy) + Mul(n, dx) == Mul(wy, l)
  {
  }

  /** (X - P) in the frame of the line: u along Q - P and v / |Q - P| along its perpendicular,
      so the pair (u, v) determines X. */
  lemma Decomposition(x: Point, p: Point, q: Point)
    requires p != q
    ensures 0.0 < SqLen(Sub(q, p))
    ensures var d := Sub(q, p);
      Sub(x, p) == Add(Scale(CalcU(x, p, q).value, d), Scale(CalcVNumerator(x, p, q) / SqLen(d), Perpendicular(d)))
  {
    CalcUValue(x, p, q);
    var d := Sub(q, p);
    var w := Sub(x, p);
    var l := SqLen(d);
    var dd := Dot(w, d);
    var n := CalcVNumerator(x, p, q);
    DecompositionScalar(w.x, w.y, d.x, d.y);
    DivCombine(dd, n, l, d.x, -d.y);
    DivCombine(dd, n, l, d.y, d.x);
    DivMul(w.x, l);
    DivMul(w.y, l);
  }

  /** Which distance imageMorph uses for a pixel: to Q past the end, to P before the start,
      otherwise the perpendicular distance |v|. */
  datatype DistanceCase = ToEndQ | ToStartP | Across

  function ChooseDistance(u: real): (r: DistanceCase)
    ensures r == ToEndQ <==> 1.0 <= u
    ensures r == ToStartP <==> u <= 0.0
    ensures r == Across <==> 0.0 < u < 1.0
  {
    if u >= 1.0 then ToEndQ else if u <= 0.0 then ToStartP else Across
  }

  /** The square of the distance imageMorph computes for pixel X and line P -> Q. */
  function SqDistance(x: Point, p: Point, q: Point): (r: Option<real>)
    ensures r.None? <==> p == q
  {
    if p == q then None
    else
      var u := CalcU(x, p, q).value;
      match ChooseDistance(u)
      case ToEndQ => Some(SqLen(Sub(q, x)))
      case ToStartP => Some(SqLen(Sub(p, x)))
      case Across =>
        DistinctSqLen(p, q);
        var n := CalcVNumerator(x, p, q);
        Some(Mul(n, n) / SqLen(Sub(q, p)))
  }

  /** The point with parameter s on the line through P and Q; s in [0, 1] covers the segment. */
  function PointAt(p: Point, q: Point, s: real): Point {
    Add(p, Scale(s, Sub(q, p)))
  }

  /** The segment parameter of the point whose distance the case split measures. */
  function SegmentParameter(u: real): (b: real)
    ensures 0.0 <= b <= 1.0
    ensures 0.0 <= u <= 1.0 ==> b == u
  {
    match ChooseDistance(u)
    case ToEndQ => 1.0
    case ToStartP => 0.0
    case Across => u
  }

  /** |w - s d|^2 expanded: |w|^2 - 2 s (w . d) + s^2 |d|^2. */
  lemma SqLenOffset(w: Point, d: Point, s: real)
    ensures SqLen(Sub(w, Scale(s, d))) == SqLen(w) - 2.0 * Mul(s, Dot(w, d)) + Mul(Mul(s, s), SqLen(d))
  {
  }

  /** Lagrange's identity in the plane: |d|^2 |w|^2 splits into the squares of the along-line
      and across-line components of w. */
  lemma Lagrange(w: Point, d: Point)
    ensures Mul(SqLen(d), SqLen(w)) == Mul(Dot(w, d), Dot(w, d)) + Mul(Dot(w, Perpendicular(d)), Dot(w, Perpendicular(d)))
  {
  }

  lemma MulDistributes(l: real, x: real, p: real, q: real, r: real)
    requires x == p - 2.0 * q + r
    ensures Mul(l, x) == Mul(l, p) - 2.0 * Mul(l, q) + Mul(l, r)
  {
  }

  lemma SquareExpand(x: real, p: real, q: real)
    requires x == p - q
    ensures Mul(x, x) == Mul(p, p) - 2.0 * Mul(p, q) + Mul(q, q)
  {
  }

  lemma ProductsRearrange(l: real, s: real, dd: real)
    ensures Mul(l, Mul(s, dd)) == Mul(dd, Mul(s, l))
    ensures Mul(l, Mul(Mul(s, s), l)) == Mul(Mul(s, l), Mul(s, l))
  {
  }

  /** L |w - s d|^2 split into its across-line and along-line parts. */
  lemma OffsetIdentity(w: Point, d: Point, s: real)
    ensures var dd := Dot(w, d); var n := Dot(w, Perpendicular(d)); var l := SqLen(d);
      Mul(l, SqLen(Sub(w, Scale(s, d)))) == Mul(n, n) + Mul(dd - Mul(s, l), dd - Mul(s, l))
  {
    var dd, n, l := Dot(w, d), Dot(w, Perpendicular(d)), SqLen(d);
    SqLenOffset(w, d, s);
    Lagrange(w, d);
    MulDistributes(l, SqLen(Sub(w, Scale(s, d))), SqLen(w), Mul(s, dd), Mul(Mul(s, s), l));
    SquareExpand(dd - Mul(s, l), dd, Mul(s, l));
    ProductsRearrange(l, s, dd);
  }

  lemma MulSub(a: real, b: real, c: real)
    ensures Mul(a, b - c) == Mul(a, b) - Mul(a, c)
    ensures Mul(b - c, a) == Mul(b, a) - Mul(c, a)
    ensures Mul(a, b) == Mul(b, a)
  {
  }

  lemma SquareMonotone(a: real, b: real)
    requires 0.0 <= a <= b
    ensures Mul(a, a) <= Mul(b, b)
  {
    MulNonneg(a, b - a);
    MulNonneg(b - a, b);
    MulSub(a, b, a);
    MulSub(b, b, a);
  }

  lemma CancelPositive(l: real, a: real, b: real)
    requires 0.0 < l && Mul(l, a) <= Mul(l, b)
    ensures a <= b
  {
    if b < a {
      MulPos(l, a - b);
      MulSub(l, a, b);
    }
  }

  lemma NegSquare(a: real)
    ensures Mul(-a, -a) == Mul(a, a)
  {
  }

  /** Over s in [0, 1], (D - s L)^2 is smallest at the clamped parameter of u = D / L. */
  lemma ClosestParameter(dd: real, l: real, s: real)
    requires 0.0 < l && 0.0 <= s <= 1.0
    ensures var b := SegmentParameter(dd / l);
      Mul(dd - Mul(b, l), dd - Mul(b, l)) <= Mul(dd - Mul(s, l), dd - Mul(s, l))
  {
    var u := dd / l;
    DivMul(dd, l);
    MulNonneg(s, l);
    MulNonneg(1.0 - s, l);
    MulSub(l, 1.0, s);
    if u >= 1.0 {
      MulNonneg(u - 1.0, l);
      MulSub(l, u, 1.0);
      SquareMonotone(dd - l, dd - Mul(s, l));
    } else if u <= 0.0 {
      MulNonneg(-u, l);
      SquareMonotone(-dd, Mul(s, l) - dd);
      NegSquare(dd - Mul(s, l));
    } else {
      SquareNonneg(dd - Mul(s, l));
    }
  }

  /** The squared distance of the case split is the squared distance to the point of the
      segment with the clamped parameter. */
  lemma SqDistanceAttained(x: Point, p: Point, q: Point)
    requires p != q
    ensures SqDistance(x, p, q).value == SqLen(Sub(x, PointAt(p, q, SegmentParameter(CalcU(x, p, q).value))))
  {
    var u := CalcU(x, p, q).value;
    match ChooseDistance(u)
    case ToEndQ =>
      assert PointAt(p, q, 1.0) == q;
      assert SqLen(Sub(x, q)) == SqLen(Sub(q, x));
    case ToStartP =>
      assert PointAt(p, q, 0.0) == p;
      assert SqLen(Sub(x, p)) == SqLen(Sub(p, x));
    case Across =>
      CalcUValue(x, p, q);
      var d := Sub(q, p);
      var w := Sub(x, p);
      var l := SqLen(d);
      var n := CalcVNumerator(x, p, q);
      var e := SqLen(Sub(w, Scale(u, d)));
      DivMul(Dot(w, d), l);
      OffsetIdentity(w, d, u);
      assert Sub(x, PointAt(p, q, u)) == Sub(w, Scale(u, d));
      assert Mul(l, e) == Mul(n, n);
      MulSub(l, e, 0.0);
      DivMul(e, l);
  }

  /** The distance chosen by the case split is the distance from X to the nearest point of the
      segment P Q: no point of the segment is closer, and one point of it is that close. */
  lemma SqDistanceIsNearest(x: Point, p: Point, q: Point, s: real)
    requires p != q && 0.0 <= s <= 1.0
    ensures SqDistance(x, p, q).value <= SqLen(Sub(x, PointAt(p, q, s)))
    ensures exists b :: 0.0 <= b <= 1.0 && SqDistance(x, p, q).value == SqLen(Sub(x, PointAt(p, q, b)))
  {
    CalcUValue(x, p, q);
    var d := Sub(q, p);
    var w := Sub(x, p);
    var l := SqLen(d);
    var dd := Dot(w, d);
    var b := SegmentParameter(CalcU(x, p, q).value);
    SqDistanceAttained(x, p, q);
    assert Sub(x, PointAt(p, q, s)) == Sub(w, Scale(s, d));
    assert Sub(x, PointAt(p, q, b)) == Sub(w, Scale(b, d));
    OffsetIdentity(w, d, s);
    OffsetIdentity(w, d, b);
    ClosestParameter(dd, l, s);
    CancelPositive(l, SqLen(Sub(w, Scale(b, d))), SqLen(Sub(w, Scale(s, d))));
  }

  /** readLineData over the parsed rows `x y u v`: the line from (x, y) to (u, v), row by row. */
  function ReadLineData(rows: seq<Row>): (r: seq<Line>)
    ensures |r| == |rows|
  {
    seq(|rows|, i requires 0 <= i < |rows| =>
      Line(Point(rows[i].startX, rows[i].startY), Point(rows[i].endX, rows[i].endY)))
  }

  /** The row a line came from. */
  function LineRow(l: Line): Row {
    Row(l.p.x, l.p.y, l.q.x, l.q.y)
  }

  lemma ReadLineDataRoundTrip(rows: seq<Row>)
    ensures forall i :: 0 <= i < |rows| ==> LineRow(ReadLineData(rows)[i]) == rows[i]
  {
  }
}
