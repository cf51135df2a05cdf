/** A block of text placed on the diagram, optionally anchored to a rectangle. */
module TextObjects {
  import opened LibCommon
  import opened DiagramCommon

  datatype TextObject = TextObject(
    id: Id,
    start: Point,
    lines: seq<string>,
    anchorRectId: Option<Id>,
    color: nat)
  {
    /** Anchored text is centred in both directions; free text is left- and top-aligned. */
    function Alignment(): (TextHorizontalAlign, TextVerticalAlign) {
      if anchorRectId.Some? then (TextHorizontalAlign.Center, TextVerticalAlign.Center)
      else (TextHorizontalAlign.Left, TextVerticalAlign.Top)
    }

    /** `line_start`: where line `index` is drawn, as laid out by the library. */
    function LineStart(layout: LineStartLayout, index: nat): Point
      requires index < |lines|
    {
      layout(|lines|, |lines[index]|, index, start, Alignment().0, Alignment().1)
    }

    /** `p` is on line `i`'s row, from its first cell to one past its last character. */
    predicate HitsLine(layout: LineStartLayout, i: nat, p: Point)
      requires i < |lines|
    {
      var pos := LineStart(layout, i);
      pos.1 == p.1 && pos.0 <= p.0 <= pos.0 + |lines[i]|
    }

    /** The points that start editing the text: on some line, but never the start of the
        first line. */
    predicate EditPoint(layout: LineStartLayout, p: Point) {
      && |lines| > 0
      && p != LineStart(layout, 0)
      && exists i :: 0 <= i < |lines| && HitsLine(layout, i, p)
    }

    /** `is_edit_point`: scans the lines in order; the first line's start rejects at once. */
    method IsEditPoint(layout: LineStartLayout, p: Point) returns (b: bool)
      ensures b == EditPoint(layout, p)
    {
      var firstChecked := false;
      var i := 0;
      while i < |lines|
        invariant 0 <= i <= |lines|
        invariant firstChecked <==> i > 0
        invariant i > 0 ==> p != LineStart(layout, 0)
        invariant forall j :: 0 <= j < i ==> !HitsLine(layout, j, p)
      {
        var pos := LineStart(layout, i);
        if !firstChecked {
          firstChecked := true;
          if pos == p {
            return false;
          }
        }
        assert p != LineStart(layout, 0);
        if pos.1 == p.1 && p.0 >= pos.0 && p.0 <= pos.0 + |lines[i]| {
          assert HitsLine(layout, i, p);
          return true;
        }
        i := i + 1;
      }
      return false;
    }
  }

  /** An empty text has no edit point, and the start of the first line is never one. */
  lemma FirstLineStartIsNotEditPoint(t: TextObject, layout: LineStartLayout)
    ensures |t.lines| > 0 ==> !t.EditPoint(layout, t.LineStart(layout, 0))
    ensures |t.lines| == 0 ==> forall p :: !t.EditPoint(layout, p)
  {
  }

  /** Every other cell of a line, up to one past its end, is an edit point. */
  lemma LineCellsAreEditPoints(t: TextObject, layout: LineStartLayout, i: nat, p: Point)
    requires i < |t.lines| && t.HitsLine(layout, i, p) && p != t.LineStart(layout, 0)
    ensures t.EditPoint(layout, p)
  {
  }

  /** Moving the text does not change which lines it has or how they are aligned. */
  lemma AlignmentFollowsAnchor(t: TextObject, start: Point)
    ensures t.(start := start).Alignment() == t.Alignment()
    ensures t.Alignment().0 == TextHorizontalAlign.Center <==> t.anchorRectId.Some?
  {
  }
}
