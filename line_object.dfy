/** A line placed on the diagram, whose ends may be anchored to rectangles. */
module LineObjects {
  import opened LibCommon
  import LibLine
  import opened DiagramCommon

  datatype LineObject = LineObject(
    id: Id,
    line: LibLine.Line,
    startAnchorRectId: Option<Id>,
    endAnchorRectId: Option<Id>,
    color: nat)

  /** `LineObject::new`: a line with neither end anchored. */
  function NewLineObject(id: Id, line: LibLine.Line, color: nat): (o: LineObject)
    ensures o.id == id && o.line == line && o.color == color
    ensures o.startAnchorRectId.None? && o.endAnchorRectId.None?
  {
    LineObject(id, line, None, None, color)
  }
}
