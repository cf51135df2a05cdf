/** A rectangle placed on the diagram. */
module RectObjects {
  import opened LibCommon
  import opened LibRect
  import opened DiagramCommon

  datatype RectObject = RectObject(id: Id, color: nat, rect: Rect) {

    /** `resize`: the rectangle spanned by the corner that stays put and the dragged corner,
        in either order. Id and color are kept. */
    function Resize(previousStart: Point, end: Point): (r: RectObject)
      ensures r.id == id && r.color == color
      ensures r.rect == NewFromUnorderedPoints(previousStart, end)
      ensures r.rect.IsPointOn(previousStart) && r.rect.IsPointOn(end)
    {
      var (minX, minY, maxX, maxY) := PointPairMinMax(previousStart, end);
      RectObject(id, color, LibRect.Rect((minX, minY), (maxX - minX, maxY - minY)))
    }

    /** `is_resize_point`: the bottom-right corner is the resize handle. */
    predicate IsResizePoint(p: Point) {
      rect.End() == p
    }

    /** `is_drag_point`: the top edge is the drag handle. */
    predicate IsDragPoint(p: Point) {
      rect.IsPointOnHeader(p)
    }
  }

  /** Swapping the two corners of a resize gives the same rectangle. */
  lemma ResizeSymmetric(o: RectObject, a: Point, b: Point)
    ensures o.Resize(a, b) == o.Resize(b, a)
  {
    NewFromUnorderedPointsSymmetric(a, b);
  }

  /** Resizing a normalised rectangle to its own corners changes nothing. */
  lemma ResizeToOwnCornersIsIdentity(o: RectObject)
    requires o.rect.Normalised()
    ensures o.Resize(o.rect.start, o.rect.End()) == o
  {
  }

  /** When the dragged corner is below and right of the fixed corner, it becomes the
      resize handle of the result, so the drag keeps hold of it. */
  lemma ResizeKeepsHandle(o: RectObject, fixed: Point, end: Point)
    requires fixed.0 <= end.0 && fixed.1 <= end.1
    ensures o.Resize(fixed, end).IsResizePoint(end)
    ensures o.Resize(fixed, end).rect.start == fixed
  {
  }

  /** Both handles of a normalised rectangle lie on it. */
  lemma HandlesAreOnRect(o: RectObject, p: Point)
    requires o.rect.Normalised()
    ensures o.IsResizePoint(p) ==> o.rect.IsPointOn(p)
    ensures o.IsDragPoint(p) ==> o.rect.IsPointOn(p)
  {
    EndIsOnRect(o.rect);
    if o.IsDragPoint(p) {
      HeaderIsOnRect(o.rect, p);
    }
  }
}
