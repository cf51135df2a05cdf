/** Shared types of the diagram editor: what the user intends to draw, the action in
    progress, and the anchoring of a line end to a rectangle's border. */
module DiagramCommon {
  import opened LibCommon
  import LibRect
  import LibLine
  import opened LibIntersection
  import opened Events
  import opened TextEditing

  /** Object ids (`u64` in the source; the counter never comes near its limit). */
  type Id = nat

  /** The number of entries in the `COLORS` palette; a color is an index into it. */
  const ColorCount := 10

  /** What a left-button press on empty canvas starts. */
  datatype Intent = Line | Rect | Text

  /** The action in progress between a press and its release (or, for text, its commit). */
  datatype Action =
    | Line(start: Point)
    | Rect(start: Point)
    | Text(start: Point, editor: TextEditor)
    | DragRectangle(rectangleId: Id, offset: Point)
    | DragLineStart(lineId: Id)
    | DragLineEnd(lineId: Id)
    | ResizeRectangle(rectangleId: Id, origStart: Point)
  {
    /** `is_text`. */
    predicate IsText() {
      Text?
    }

    /** `to_string_short`: the label shown in the status bar. */
    function ToStringShort(): (s: string)
      ensures s == "text" <==> IsText()
    {
      match this
      case Line(_) => "line"
      case Rect(_) => "rect"
      case Text(_, _) => "text"
      case DragRectangle(_, _) => "drag rectangle"
      case ResizeRectangle(_, _) => "resize rectangle"
      case DragLineStart(_) => "drag line start"
      case DragLineEnd(_) => "drag line end"
    }
  }

  /** Which variant an action is. */
  function KindIndex(a: Action): nat {
    match a
    case Line(_) => 0
    case Rect(_) => 1
    case Text(_, _) => 2
    case DragRectangle(_, _) => 3
    case ResizeRectangle(_, _) => 4
    case DragLineStart(_) => 5
    case DragLineEnd(_) => 6
  }

  /** The short label tells the variants apart: two actions share a label exactly when
      they are the same variant. */
  lemma LabelsIdentifyKind(a: Action, b: Action)
    ensures a.ToStringShort() == b.ToStringShort() <==> KindIndex(a) == KindIndex(b)
  {
  }

  /** A point in the line's bounding box. */
  predicate InLineBox(line: LibLine.Line, p: Point) {
    line.XRange().Contains(p.0) && line.YRange().Contains(p.1)
  }

  /** The first of `ps` in the line's bounding box. */
  function FirstInLineBox(ps: seq<Point>, line: LibLine.Line): (r: Option<Point>)
    ensures r.None? <==> forall i :: 0 <= i < |ps| ==> !InLineBox(line, ps[i])
    ensures r.Some? ==> exists i :: 0 <= i < |ps| && ps[i] == r.value && InLineBox(line, ps[i])
                          && forall j :: 0 <= j < i ==> !InLineBox(line, ps[j])
  {
    if |ps| == 0 then None
    else if InLineBox(line, ps[0]) then Some(ps[0])
    else
      var r := FirstInLineBox(ps[1..], line);
      assert forall i :: 1 <= i < |ps| ==> ps[i] == ps[1..][i - 1];
      r
  }

  /** Where a line anchored to `rect` attaches: the first crossing of the rectangle's edges
      (top, bottom, left, right) that lies within the line's own bounding box. */
  function AnchorPoint(rect: LibRect.Rect, line: LibLine.Line): Option<Point> {
    FirstInLineBox(IntersectionOfRectAndLine(rect, line), line)
  }

  /** `intersection_of_rect_and_anchored_line`: scans the crossings in order. */
  method IntersectionOfRectAndAnchoredLine(rect: LibRect.Rect, line: LibLine.Line) returns (r: Option<Point>)
    ensures r == AnchorPoint(rect, line)
  {
    var intersections := IntersectionOfRectAndLine(rect, line);
    var k := 0;
    while k < |intersections|
      invariant 0 <= k <= |intersections|
      invariant FirstInLineBox(intersections, line) == FirstInLineBox(intersections[k..], line)
    {
      var p := intersections[k];
      if line.XRange().Contains(p.0) && line.YRange().Contains(p.1) {
        return Some(p);
      }
      assert intersections[k..][1..] == intersections[k + 1..];
      k := k + 1;
    }
    return None;
  }

  /** An anchor point lies on the rectangle's border and within the line's bounding box. */
  lemma AnchorPointOnBorder(rect: LibRect.Rect, line: LibLine.Line)
    requires rect.Normalised()
    requires AnchorPoint(rect, line).Some?
    ensures rect.IsPointOnBorder(AnchorPoint(rect, line).value)
    ensures InLineBox(line, AnchorPoint(rect, line).value)
  {
  }

  /** For a sloped line every crossing is in its box, so the anchor is simply the first
      crossing, whenever there is one. */
  lemma SlopedAnchorIsFirstCrossing(rect: LibRect.Rect, line: LibLine.Line)
    requires line.end.0 != line.start.0 && line.end.1 != line.start.1
    ensures var ps := IntersectionOfRectAndLine(rect, line);
      AnchorPoint(rect, line) == if |ps| == 0 then None else Some(ps[0])
  {
    var ps := IntersectionOfRectAndLine(rect, line);
    if |ps| > 0 {
      SlopedCrossingsInLineBox(rect, line, ps[0]);
    }
  }

  /** `is_enter_without_alt`: the key that commits a text. */
  predicate IsEnterWithoutAlt(e: KeyEvent) {
    e.code == Enter && Alt !in e.modifiers
  }

  /** The commit key is exactly the `Enter` the editor ignores: any other `Enter` opens
      a new line. */
  lemma EnterCommitsOrOpensLine(s: EditorState, e: KeyEvent)
    requires s.Valid() && e.code == Enter
    ensures IsEnterWithoutAlt(e) ==> Edited(s, e) == s
    ensures !IsEnterWithoutAlt(e) ==> |Edited(s, e).lines| == |s.lines| + 1
  {
  }
}
