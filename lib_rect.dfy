/** The library's axis-aligned rectangle: a top-left corner and a size. */
module LibRect {
  import opened LibCommon

  datatype Rect = Rect(start: Point, size: Point) {

    /** The library's invariant: `start` is the min corner and the size is non-negative. */
    predicate Normalised() {
      size.0 >= 0 && size.1 >= 0
    }

    /** `Rect::end`: the bottom-right corner. */
    function End(): Point {
      Add(start, size)
    }

    /** The top edge, used as the drag handle. */
    predicate IsPointOnHeader(p: Point) {
      p.1 == start.1 && p.0 >= start.0 && p.0 <= start.0 + size.0
    }

    /** The closed rectangle, edges included. */
    predicate IsPointOn(p: Point) {
      p.0 >= start.0 && p.0 <= start.0 + size.0 && p.1 >= start.1 && p.1 <= start.1 + size.1
    }

    /** The rectangle one unit in from every edge. */
    predicate IsPointInside(p: Point) {
      p.0 >= start.0 + 1 && p.0 <= (start.0 + size.0) - 1
      && p.1 >= start.1 + 1 && p.1 <= (start.1 + size.1) - 1
    }

    /** A point on one of the four edges of the closed rectangle. */
    predicate IsPointOnBorder(p: Point) {
      IsPointOn(p) && (p.0 == start.0 || p.0 == End().0 || p.1 == start.1 || p.1 == End().1)
    }

    /** `start + size / 2`, halving with `i32` truncation. A normalised
        rectangle contains its midpoint. */
    function Midpoint(): (m: Point)
      ensures Normalised() ==> IsPointOn(m)
    {
      var half := Div(size, 2);
      assert Normalised() ==> 0 <= half.0 <= size.0 && 0 <= half.1 <= size.1;
      Add(start, half)
    }
  }

  /** `Rect::new_from_unordered_points`: the bounding box of two corners, in either order. */
  function NewFromUnorderedPoints(lhs: Point, rhs: Point): (r: Rect)
    ensures r.Normalised()
    ensures r.start == (Min(lhs.0, rhs.0), Min(lhs.1, rhs.1))
    ensures r.End() == (Max(lhs.0, rhs.0), Max(lhs.1, rhs.1))
    ensures r.IsPointOn(lhs) && r.IsPointOn(rhs)
  {
    var (minX, minY, maxX, maxY) := PointPairMinMax(lhs, rhs);
    Rect((minX, minY), (maxX - minX, maxY - minY))
  }

  /** Swapping the two corners gives the same rectangle. */
  lemma NewFromUnorderedPointsSymmetric(lhs: Point, rhs: Point)
    ensures NewFromUnorderedPoints(lhs, rhs) == NewFromUnorderedPoints(rhs, lhs)
  {
    PointPairMinMaxSymmetric(lhs, rhs);
  }

  /** The header of a normalised rectangle is part of it. */
  lemma HeaderIsOnRect(r: Rect, p: Point)
    requires r.Normalised() && r.IsPointOnHeader(p)
    ensures r.IsPointOn(p)
  {
  }

  /** An inside point is on the rectangle, and a rectangle with a side shorter
      than 2 has no inside point. */
  lemma InsideIsOnRect(r: Rect, p: Point)
    ensures r.IsPointInside(p) ==> r.IsPointOn(p)
    ensures r.size.0 < 2 || r.size.1 < 2 ==> !r.IsPointInside(p)
  {
  }

  /** The resize corner of a normalised rectangle is part of it. */
  lemma EndIsOnRect(r: Rect)
    requires r.Normalised()
    ensures r.IsPointOn(r.End()) && r.IsPointOn(r.start)
  {
  }
}
