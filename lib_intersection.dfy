/** Where a line segment crosses the edges of a rectangle (`intersection_of_rect_and_line`). */
module LibIntersection {
  import opened LibCommon
  import opened LibRect
  import opened LibLine

  /** The rounded value of `along / extent * span + base`: the source's `f32` slope
      equation evaluated exactly, then rounded. */
  function Lerp(along: int, extent: int, span: int, base: int): int
    requires extent != 0
  {
    Round((along as real / extent as real) * span as real + base as real)
  }

  /** A fraction of `extent` between 0 and 1. */
  lemma FractionInUnit(along: int, extent: int)
    requires extent != 0 && BetweenInclusive(0, extent, along)
    ensures 0.0 <= along as real / extent as real <= 1.0
  {
    var f := along as real / extent as real;
    assert f * extent as real == along as real;
    if extent > 0 {
      assert 0 <= along <= extent;
    } else {
      assert extent <= along <= 0;
    }
  }

  /** Moving a fraction between 0 and 1 of `span` from `base` stays between `base` and
      `base + span`. */
  lemma ScaledWithinSpan(f: real, span: int, base: int)
    requires 0.0 <= f <= 1.0
    ensures span >= 0 ==> base as real <= f * span as real + base as real <= (base + span) as real
    ensures span < 0 ==> (base + span) as real <= f * span as real + base as real <= base as real
  {
    var g := span as real;
    if span >= 0 {
      assert 0.0 <= f * g <= 1.0 * g;
    } else {
      assert 1.0 * g <= f * g <= 0.0;
    }
  }

  /** Rounding keeps a value between two integers between them. */
  lemma RoundBetween(v: real, lo: int, hi: int)
    requires lo as real <= v <= hi as real
    ensures lo <= Round(v) <= hi
  {
  }

  /** Moving the fraction `f` of `span` from `base`, then rounding, stays between `base`
      and `base + span`. */
  lemma RoundedScaleWithinSpan(f: real, span: int, base: int)
    requires 0.0 <= f <= 1.0
    ensures BetweenInclusive(base, base + span, Round(f * span as real + base as real))
  {
    ScaledWithinSpan(f, span, base);
    if span >= 0 {
      RoundBetween(f * span as real + base as real, base, base + span);
    } else {
      RoundBetween(f * span as real + base as real, base + span, base);
    }
  }

  /** Moving a fraction of `span` from `base` stays between `base` and `base + span`,
      and rounding keeps an integer bound. */
  lemma LerpWithinSpan(along: int, extent: int, span: int, base: int)
    requires extent != 0 && BetweenInclusive(0, extent, along)
    ensures BetweenInclusive(base, base + span, Lerp(along, extent, span, base))
  {
    FractionInUnit(along, extent);
    RoundedScaleWithinSpan(along as real / extent as real, span, base);
  }

  /** The iterator's minor coordinate is the same interpolation, so it stays between the
      endpoints' minor coordinates, and the `u16` cast leaves it alone. */
  lemma MinorCoordinateWithinSpan(dMinor: int, dMajor: int, along: int, base: int)
    requires dMajor != 0 && BetweenInclusive(0, dMajor, along)
    requires 0 <= base < 0x1_0000 && 0 <= base + dMinor < 0x1_0000
    ensures BetweenInclusive(base, base + dMinor, MinorCoordinate(dMinor, dMajor, along, base))
  {
    MinorCoordinateIsLerp(dMinor, dMajor, along, base);
    LerpWithinSpan(along, dMajor, dMinor, base);
  }

  /** Before the cast, the minor coordinate is `Lerp` of the same numbers. */
  lemma MinorCoordinateIsLerp(dMinor: int, dMajor: int, along: int, base: int)
    requires dMajor != 0
    ensures MinorCoordinate(dMinor, dMajor, along, base) == SatU16(Lerp(along, dMajor, dMinor, base))
  {
    SlopeTimesAlong(along as real, dMajor as real, dMinor as real);
  }

  /** `dMinor / dMajor * along` and `along / dMajor * dMinor` are the same number. */
  lemma SlopeTimesAlong(along: real, dMajor: real, dMinor: real)
    requires dMajor != 0.0
    ensures (dMinor / dMajor) * along == (along / dMajor) * dMinor
  {
  }

  /** Every point a `u16` segment yields lies in the segment's bounding box, on both axes. */
  lemma PointsWithinLineBox(line: Line, p: Point)
    requires InU16(line.start) && InU16(line.end)
    requires p in line.Points()
    ensures line.XRange().Contains(p.0) && line.YRange().Contains(p.1)
  {
    var lhs, rhs := line.start, line.end;
    var m := MajorOfPoint(lhs, rhs, p);
    if MajorIsX(lhs, rhs) {
      MinorCoordinateWithinSpan(rhs.1 - lhs.1, rhs.0 - lhs.0, m - lhs.0, lhs.1);
    } else {
      MinorCoordinateWithinSpan(rhs.0 - lhs.0, rhs.1 - lhs.1, m - lhs.1, lhs.0);
    }
  }

  /** The x coordinate where the line meets the horizontal line at height `edgeY`. For a
      horizontal line the `f32` division is `0 / 0`, which casts to 0. */
  function CrossingX(line: Line, edgeY: int): int {
    var dx, dy := line.end.0 - line.start.0, line.end.1 - line.start.1;
    if dy == 0 then 0 else Lerp(edgeY - line.start.1, dy, dx, line.start.0)
  }

  /** The y coordinate where the line meets the vertical line at `edgeX`. For a vertical
      line the `f32` product is `inf * 0`, which casts to 0. */
  function CrossingY(line: Line, edgeX: int): int {
    var dx, dy := line.end.0 - line.start.0, line.end.1 - line.start.1;
    if dx == 0 then 0 else Lerp(edgeX - line.start.0, dx, dy, line.start.1)
  }

  /** The crossing with the horizontal edge at `edgeY`, when the line spans that height
      and the crossing lies within the edge. */
  function HorizontalEdgeHit(rect: Rect, line: Line, edgeY: int): (hit: seq<Point>)
    ensures |hit| <= 1
    ensures forall p :: p in hit ==> p.1 == edgeY && rect.start.0 <= p.0 <= rect.start.0 + rect.size.0
    ensures |hit| == 1 <==> line.YRange().Contains(edgeY)
                            && rect.start.0 <= CrossingX(line, edgeY) <= rect.start.0 + rect.size.0
  {
    if line.YRange().Contains(edgeY) then
      var x := CrossingX(line, edgeY);
      if x >= rect.start.0 && x <= rect.start.0 + rect.size.0 then [(x, edgeY)] else []
    else []
  }

  /** The crossing with the vertical edge at `edgeX`, when the line spans that column
      and the crossing lies within the edge. */
  function VerticalEdgeHit(rect: Rect, line: Line, edgeX: int): (hit: seq<Point>)
    ensures |hit| <= 1
    ensures forall p :: p in hit ==> p.0 == edgeX && rect.start.1 <= p.1 <= rect.start.1 + rect.size.1
    ensures |hit| == 1 <==> line.XRange().Contains(edgeX)
                            && rect.start.1 <= CrossingY(line, edgeX) <= rect.start.1 + rect.size.1
  {
    if line.XRange().Contains(edgeX) then
      var y := CrossingY(line, edgeX);
      if y >= rect.start.1 && y <= rect.start.1 + rect.size.1 then [(edgeX, y)] else []
    else []
  }

  /** `intersection_of_rect_and_line`: the crossings with the top, bottom, left and right
      edges, in that order. At most four points, each on an edge of the rectangle. */
  function IntersectionOfRectAndLine(rect: Rect, line: Line): (r: seq<Point>)
    ensures |r| <= 4
    ensures rect.Normalised() ==> forall p :: p in r ==> rect.IsPointOnBorder(p)
  {
    HorizontalEdgeHit(rect, line, rect.start.1)
    + HorizontalEdgeHit(rect, line, rect.start.1 + rect.size.1)
    + VerticalEdgeHit(rect, line, rect.start.0)
    + VerticalEdgeHit(rect, line, rect.start.0 + rect.size.0)
  }

  /** A crossing of a horizontal edge by a line that is not horizontal lies in the line's box. */
  lemma HorizontalHitInLineBox(rect: Rect, line: Line, edgeY: int, p: Point)
    requires line.end.1 != line.start.1
    requires p in HorizontalEdgeHit(rect, line, edgeY)
    ensures line.XRange().Contains(p.0) && line.YRange().Contains(p.1)
  {
    LerpWithinSpan(edgeY - line.start.1, line.end.1 - line.start.1, line.end.0 - line.start.0, line.start.0);
  }

  /** A crossing of a vertical edge by a line that is not vertical lies in the line's box. */
  lemma VerticalHitInLineBox(rect: Rect, line: Line, edgeX: int, p: Point)
    requires line.end.0 != line.start.0
    requires p in VerticalEdgeHit(rect, line, edgeX)
    ensures line.XRange().Contains(p.0) && line.YRange().Contains(p.1)
  {
    LerpWithinSpan(edgeX - line.start.0, line.end.0 - line.start.0, line.end.1 - line.start.1, line.start.1);
  }

  /** For a line that is neither horizontal nor vertical, every crossing lies in the line's
      bounding box. */
  lemma SlopedCrossingsInLineBox(rect: Rect, line: Line, p: Point)
    requires line.end.0 != line.start.0 && line.end.1 != line.start.1
    requires p in IntersectionOfRectAndLine(rect, line)
    ensures line.XRange().Contains(p.0) && line.YRange().Contains(p.1)
  {
    var top := HorizontalEdgeHit(rect, line, rect.start.1);
    var bottom := HorizontalEdgeHit(rect, line, rect.start.1 + rect.size.1);
    var left := VerticalEdgeHit(rect, line, rect.start.0);
    var right := VerticalEdgeHit(rect, line, rect.start.0 + rect.size.0);
    if p in top + bottom {
      if p in top {
        HorizontalHitInLineBox(rect, line, rect.start.1, p);
      } else {
        HorizontalHitInLineBox(rect, line, rect.start.1 + rect.size.1, p);
      }
    } else {
      assert p in left + right;
      if p in left {
        VerticalHitInLineBox(rect, line, rect.start.0, p);
      } else {
        VerticalHitInLineBox(rect, line, rect.start.0 + rect.size.0, p);
      }
    }
  }

  /** A vertical line meets a horizontal edge it spans at its own column. */
  lemma VerticalLineCrossesAtItsColumn(line: Line, edgeY: int)
    requires line.end.0 == line.start.0 && line.end.1 != line.start.1
    requires line.YRange().Contains(edgeY)
    ensures CrossingX(line, edgeY) == line.start.0
  {
    LerpWithinSpan(edgeY - line.start.1, line.end.1 - line.start.1, 0, line.start.0);
  }

  /** A horizontal line lying along the top edge produces the point `(0, top)` when the
      top edge spans column 0, whatever the line's own columns are: the `f32` quotient
      is NaN there. */
  lemma HorizontalLineOnTopEdge(rect: Rect, line: Line)
    requires line.start.1 == line.end.1 == rect.start.1
    requires rect.start.0 <= 0 <= rect.start.0 + rect.size.0
    ensures IntersectionOfRectAndLine(rect, line)[0] == (0, rect.start.1)
  {
    assert HorizontalEdgeHit(rect, line, rect.start.1) == [(0, rect.start.1)];
  }
}
