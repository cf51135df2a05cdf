/** The diagram editor's state machine: the objects on the canvas, the action in progress,
    and how one frame of input events changes them. */
module DiagramApp {
  import opened LibCommon
  import LibRect
  import LibLine
  import opened Events
  import opened TextEditing
  import opened DiagramCommon
  import opened RectObjects
  import opened LineObjects
  import opened TextObjects

  /** The lookup loops over a `HashMap`: visits the keys in an unspecified order and
      returns the first whose value satisfies `P`. */
  method FindKey<T>(m: map<Id, T>, P: T -> bool) returns (r: Option<Id>)
    ensures r.Some? ==> r.value in m && P(m[r.value])
    ensures r.None? ==> forall id :: id in m ==> !P(m[id])
  {
    var todo := m.Keys;
    while todo != {}
      invariant todo <= m.Keys
      invariant forall id :: id in m && id !in todo ==> !P(m[id])
      decreases todo
    {
      var id :| id in todo;
      if P(m[id]) {
        return Some(id);
      }
      todo := todo - {id};
    }
    return None;
  }

  /** `a` is what the rectangle lookup may answer for `p`: a rectangle containing `p`,
      or nothing when no rectangle contains it. */
  predicate IsAnchorFor(rects: map<Id, RectObject>, p: Point, a: Option<Id>) {
    match a
    case Some(id) => id in rects && rects[id].rect.IsPointOn(p)
    case None => forall id :: id in rects ==> !rects[id].rect.IsPointOn(p)
  }

  /** `is_text_editable_at`: a text anchored to an existing rectangle is edited from the
      rectangle's interior; any other text from its own edit points. */
  predicate TextEditableAt(rects: map<Id, RectObject>, layout: LineStartLayout, t: TextObject, p: Point) {
    if t.anchorRectId.Some? && t.anchorRectId.value in rects then
      rects[t.anchorRectId.value].rect.IsPointInside(p)
    else
      t.EditPoint(layout, p)
  }

  predicate NoResizeHandleAt(rects: map<Id, RectObject>, p: Point) {
    forall id :: id in rects ==> !rects[id].IsResizePoint(p)
  }

  predicate NoHeaderAt(rects: map<Id, RectObject>, p: Point) {
    forall id :: id in rects ==> !rects[id].IsDragPoint(p)
  }

  predicate NoLineStartAt(lines: map<Id, LineObject>, p: Point) {
    forall id :: id in lines ==> lines[id].line.start != p
  }

  predicate NoLineEndAt(lines: map<Id, LineObject>, p: Point) {
    forall id :: id in lines ==> lines[id].line.end != p
  }

  predicate NoTextAt(rects: map<Id, RectObject>, layout: LineStartLayout, texts: map<Id, TextObject>, p: Point) {
    forall id :: id in texts ==> !TextEditableAt(rects, layout, texts[id], p)
  }

  /** The `retain` over the rectangles in `delete_under_point`: drops the first rectangle
      (in map order) that contains `p` and keeps the others. */
  method RemoveFirstRectOn(rects: map<Id, RectObject>, p: Point) returns (kept: map<Id, RectObject>, done: bool)
    ensures done <==> exists id :: id in rects && rects[id].rect.IsPointOn(p)
    ensures done ==> exists id :: id in rects && rects[id].rect.IsPointOn(p) && kept == rects - {id}
    ensures !done ==> kept == rects
  {
    var todo := rects.Keys;
    kept := map[];
    done := false;
    ghost var removed: Option<Id> := None;
    while todo != {}
      invariant todo <= rects.Keys
      invariant done <==> removed.Some?
      invariant removed.Some? ==> removed.value in rects && removed.value !in todo && rects[removed.value].rect.IsPointOn(p)
      invariant !done ==> forall id :: id in rects && id !in todo ==> !rects[id].rect.IsPointOn(p)
      invariant kept == map id | id in rects && id !in todo && Some(id) != removed :: rects[id]
      decreases todo
    {
      var id :| id in todo;
      if !done && rects[id].rect.IsPointOn(p) {
        done := true;
        removed := Some(id);
      } else {
        kept := kept[id := rects[id]];
      }
      todo := todo - {id};
    }
    if done {
      assert kept == rects - {removed.value};
    } else {
      assert kept == rects;
    }
  }

  /** The `retain` over the lines in `delete_under_point`: drops the first line (in map
      order) that passes through `p` and keeps the others. */
  method RemoveFirstLineOn(lines: map<Id, LineObject>, p: Point) returns (kept: map<Id, LineObject>, done: bool)
    ensures done <==> exists id :: id in lines && p in lines[id].line.Points()
    ensures done ==> exists id :: id in lines && p in lines[id].line.Points() && kept == lines - {id}
    ensures !done ==> kept == lines
  {
    var todo := lines.Keys;
    kept := map[];
    done := false;
    ghost var removed: Option<Id> := None;
    while todo != {}
      invariant todo <= lines.Keys
      invariant done <==> removed.Some?
      invariant removed.Some? ==> removed.value in lines && removed.value !in todo && p in lines[removed.value].line.Points()
      invariant !done ==> forall id :: id in lines && id !in todo ==> p !in lines[id].line.Points()
      invariant kept == map id | id in lines && id !in todo && Some(id) != removed :: lines[id]
      decreases todo
    {
      var id :| id in todo;
      var on := false;
      if !done {
        on := lines[id].line.IsPointOn(p);
      }
      if !done && on {
        done := true;
        removed := Some(id);
      } else {
        kept := kept[id := lines[id]];
      }
      todo := todo - {id};
    }
    if done {
      assert kept == lines - {removed.value};
    } else {
      assert kept == lines;
    }
  }

  /** `delete_under_point` on the maps: a rectangle containing `p` goes if there is one,
      and otherwise a line through `p`; every object that stays is unchanged. */
  method RemoveUnder(rects: map<Id, RectObject>, lines: map<Id, LineObject>, p: Point)
    returns (keptRects: map<Id, RectObject>, keptLines: map<Id, LineObject>)
    ensures DeletedUnder(rects, lines, p, keptRects, keptLines)
    ensures forall id :: id in keptRects ==> id in rects && keptRects[id] == rects[id]
    ensures forall id :: id in keptLines ==> id in lines && keptLines[id] == lines[id]
  {
    var done;
    keptRects, done := RemoveFirstRectOn(rects, p);
    keptLines := lines;
    if done {
      return;
    }
    keptLines, done := RemoveFirstLineOn(lines, p);
  }

  /** The start of a line anchored to an existing rectangle moves to the rectangle's
      midpoint and then to where that line first crosses the rectangle's border. */
  function SnapStart(rects: map<Id, RectObject>, lo: LineObject): (r: LineObject)
    ensures r.id == lo.id && r.color == lo.color && r.line.end == lo.line.end
    ensures r.startAnchorRectId == lo.startAnchorRectId && r.endAnchorRectId == lo.endAnchorRectId
  {
    match lo.startAnchorRectId
    case Some(rid) =>
      if rid in rects then
        var rect := rects[rid].rect;
        var centred := lo.line.(start := rect.Midpoint());
        match AnchorPoint(rect, centred)
        case Some(q) => lo.(line := centred.(start := q))
        case None => lo.(line := centred)
      else lo
    case None => lo
  }

  /** The same for the end of a line. */
  function SnapEnd(rects: map<Id, RectObject>, lo: LineObject): (r: LineObject)
    ensures r.id == lo.id && r.color == lo.color && r.line.start == lo.line.start
    ensures r.startAnchorRectId == lo.startAnchorRectId && r.endAnchorRectId == lo.endAnchorRectId
  {
    match lo.endAnchorRectId
    case Some(rid) =>
      if rid in rects then
        var rect := rects[rid].rect;
        var centred := lo.line.(end := rect.Midpoint());
        match AnchorPoint(rect, centred)
        case Some(q) => lo.(line := centred.(end := q))
        case None => lo.(line := centred)
      else lo
    case None => lo
  }

  /** A line after its anchored ends have followed their rectangles: the start first,
      then the end (which sees the new start). */
  function FollowedLine(rects: map<Id, RectObject>, lo: LineObject): (r: LineObject)
    ensures r.id == lo.id && r.color == lo.color
  {
    SnapEnd(rects, SnapStart(rects, lo))
  }

  /** A start anchored to an existing normalised rectangle lies on it after snapping. */
  lemma SnapStartOnAnchor(rects: map<Id, RectObject>, lo: LineObject)
    requires forall id :: id in rects ==> rects[id].rect.Normalised()
    ensures lo.startAnchorRectId.Some? && lo.startAnchorRectId.value in rects ==>
              rects[lo.startAnchorRectId.value].rect.IsPointOn(SnapStart(rects, lo).line.start)
    ensures lo.startAnchorRectId.None? ==> SnapStart(rects, lo) == lo
  {
    if lo.startAnchorRectId.Some? && lo.startAnchorRectId.value in rects {
      var rect := rects[lo.startAnchorRectId.value].rect;
      var centred := lo.line.(start := rect.Midpoint());
      if AnchorPoint(rect, centred).Some? {
        AnchorPointOnBorder(rect, centred);
      }
    }
  }

  /** An end anchored to an existing normalised rectangle lies on it after snapping. */
  lemma SnapEndOnAnchor(rects: map<Id, RectObject>, lo: LineObject)
    requires forall id :: id in rects ==> rects[id].rect.Normalised()
    ensures lo.endAnchorRectId.Some? && lo.endAnchorRectId.value in rects ==>
              rects[lo.endAnchorRectId.value].rect.IsPointOn(SnapEnd(rects, lo).line.end)
    ensures lo.endAnchorRectId.None? ==> SnapEnd(rects, lo) == lo
  {
    if lo.endAnchorRectId.Some? && lo.endAnchorRectId.value in rects {
      var rect := rects[lo.endAnchorRectId.value].rect;
      var centred := lo.line.(end := rect.Midpoint());
      if AnchorPoint(rect, centred).Some? {
        AnchorPointOnBorder(rect, centred);
      }
    }
  }

  /** Every end anchored to an existing normalised rectangle lies on that rectangle after
      following it; the rest of the line object is unchanged. */
  lemma FollowedLineStaysOnAnchors(rects: map<Id, RectObject>, lo: LineObject)
    requires forall id :: id in rects ==> rects[id].rect.Normalised()
    ensures var r := FollowedLine(rects, lo);
      && r.id == lo.id && r.color == lo.color
      && r.startAnchorRectId == lo.startAnchorRectId && r.endAnchorRectId == lo.endAnchorRectId
      && (lo.startAnchorRectId.Some? && lo.startAnchorRectId.value in rects ==>
            rects[lo.startAnchorRectId.value].rect.IsPointOn(r.line.start))
      && (lo.endAnchorRectId.Some? && lo.endAnchorRectId.value in rects ==>
            rects[lo.endAnchorRectId.value].rect.IsPointOn(r.line.end))
      && (lo.startAnchorRectId.None? ==> r.line.start == lo.line.start)
      && (lo.endAnchorRectId.None? ==> r.line.end == lo.line.end)
  {
    SnapStartOnAnchor(rects, lo);
    SnapEndOnAnchor(rects, SnapStart(rects, lo));
  }

  /** The start of a line follows its anchor rectangle, if any. */
  method FollowLineStart(rects: map<Id, RectObject>, lo: LineObject) returns (r: LineObject)
    ensures r == SnapStart(rects, lo)
  {
    r := lo;
    if r.startAnchorRectId.Some? && r.startAnchorRectId.value in rects {
      var rect := rects[r.startAnchorRectId.value].rect;
      r := r.(line := r.line.(start := rect.Midpoint()));
      var intersection := IntersectionOfRectAndAnchoredLine(rect, r.line);
      if intersection.Some? {
        r := r.(line := r.line.(start := intersection.value));
      }
    }
  }

  /** The end of a line follows its anchor rectangle, if any. */
  method FollowLineEnd(rects: map<Id, RectObject>, lo: LineObject) returns (r: LineObject)
    ensures r == SnapEnd(rects, lo)
  {
    r := lo;
    if r.endAnchorRectId.Some? && r.endAnchorRectId.value in rects {
      var rect := rects[r.endAnchorRectId.value].rect;
      r := r.(line := r.line.(end := rect.Midpoint()));
      var intersection := IntersectionOfRectAndAnchoredLine(rect, r.line);
      if intersection.Some? {
        r := r.(line := r.line.(end := intersection.value));
      }
    }
  }

  /** The anchored-line step of `update` for one line. */
  method FollowLine(rects: map<Id, RectObject>, lo: LineObject) returns (r: LineObject)
    ensures r == FollowedLine(rects, lo)
  {
    r := FollowLineStart(rects, lo);
    r := FollowLineEnd(rects, r);
  }

  /** A text anchored to an existing rectangle is placed at the rectangle's midpoint. */
  function FollowedText(rects: map<Id, RectObject>, t: TextObject): (r: TextObject)
    ensures r.id == t.id && r.lines == t.lines && r.anchorRectId == t.anchorRectId && r.color == t.color
    ensures t.anchorRectId.Some? && t.anchorRectId.value in rects ==>
              r.start == rects[t.anchorRectId.value].rect.Midpoint()
    ensures !(t.anchorRectId.Some? && t.anchorRectId.value in rects) ==> r == t
  {
    if t.anchorRectId.Some? && t.anchorRectId.value in rects then
      t.(start := rects[t.anchorRectId.value].rect.Midpoint())
    else t
  }

  /** Every line after following its anchors, and every text after following its rectangle. */
  function FollowedLines(rects: map<Id, RectObject>, lines: map<Id, LineObject>): map<Id, LineObject> {
    map id | id in lines :: FollowedLine(rects, lines[id])
  }

  function FollowedTexts(rects: map<Id, RectObject>, texts: map<Id, TextObject>): map<Id, TextObject> {
    map id | id in texts :: FollowedText(rects, texts[id])
  }

  /** A text that follows a normalised rectangle lies on it. */
  lemma FollowedTextOnRect(rects: map<Id, RectObject>, t: TextObject)
    requires t.anchorRectId.Some? && t.anchorRectId.value in rects
    requires rects[t.anchorRectId.value].rect.Normalised()
    ensures rects[t.anchorRectId.value].rect.IsPointOn(FollowedText(rects, t).start)
  {
  }

  /** The digit keys select the color with that index. */
  function DigitColor(c: char): (color: nat)
    requires '0' <= c <= '9'
    ensures color < ColorCount
    ensures color == 0 <==> c == '0'
  {
    (c as int) - ('0' as int)
  }

  /** The action in progress as a value: a text action is seen through the state of its
      editor, every other action as it is. */
  datatype ActionView = Drawing(action: Action) | Typing(start: Point, editor: EditorState)

  /** What `update` reads and changes, as one value: the fields of `App`, with the editor
      of a text action replaced by its state. */
  datatype AppState = AppState(
    idProvider: nat, action: Option<ActionView>, intent: Intent, mouse: Point, color: nat,
    rectangles: map<Id, RectObject>, lines: map<Id, LineObject>, texts: map<Id, TextObject>)

  /** `start_action` on states: an action in progress stays; otherwise the intent's
      drawing starts at `start`, a text with one empty line. */
  function StartedAction(s: AppState, start: Point): Option<ActionView> {
    if s.action.Some? then s.action
    else if s.intent == Intent.Line then Some(Drawing(Action.Line(start)))
    else if s.intent == Intent.Rect then Some(Drawing(Action.Rect(start)))
    else Some(Typing(start, EditorState([""], 0)))
  }

  /** The editor of a reopened text: its lines, with the cursor on the last one. */
  function Reopened(lines: seq<string>): EditorState {
    EditorState(lines, if |lines| == 0 then 0 else |lines| - 1)
  }

  /** The last steps of a left press, once no resize corner, line end or text is under the
      mouse: a rectangle's header is grabbed with the mouse's offset from its corner, or
      drawing starts at the event's own position. */
  ghost predicate PressedOnCanvas(s: AppState, eventPos: Point, t: AppState) {
    if !NoHeaderAt(s.rectangles, s.mouse) then
      exists r :: r in s.rectangles && s.rectangles[r].IsDragPoint(s.mouse)
        && t == s.(action := Some(Drawing(DragRectangle(r, Sub(s.mouse, s.rectangles[r].rect.start)))))
    else
      t == s.(action := StartedAction(s, eventPos))
  }

  /** A left press once no resize corner and no line end is under the mouse: a text under
      it leaves the canvas and is reopened in an editor; otherwise the last steps. */
  ghost predicate PressedAwayFromLineEnds(layout: LineStartLayout, s: AppState, eventPos: Point, t: AppState) {
    if !NoTextAt(s.rectangles, layout, s.texts, s.mouse) then
      exists id :: id in s.texts && TextEditableAt(s.rectangles, layout, s.texts[id], s.mouse)
        && t == s.(texts := s.texts - {id},
                   action := Some(Typing(s.texts[id].start, Reopened(s.texts[id].lines))))
    else
      PressedOnCanvas(s, eventPos, t)
  }

  /** A left press once no resize corner is under the mouse: a line's start, else a
      line's end, is grabbed and unanchored; otherwise the later steps. */
  ghost predicate PressedAwayFromResizeHandles(layout: LineStartLayout, s: AppState, eventPos: Point, t: AppState) {
    if !NoLineStartAt(s.lines, s.mouse) then
      exists l :: l in s.lines && s.lines[l].line.start == s.mouse
        && t == s.(lines := s.lines[l := s.lines[l].(startAnchorRectId := None)],
                   action := Some(Drawing(DragLineStart(l))))
    else if !NoLineEndAt(s.lines, s.mouse) then
      exists l :: l in s.lines && s.lines[l].line.end == s.mouse
        && t == s.(lines := s.lines[l := s.lines[l].(endAnchorRectId := None)],
                   action := Some(Drawing(DragLineEnd(l))))
    else
      PressedAwayFromLineEnds(layout, s, eventPos, t)
  }

  /** `on_left_mouse_button_down` on states: a resize corner under the mouse wins, and
      the rectangle's corner at the press is kept; otherwise the later steps. */
  ghost predicate Pressed(layout: LineStartLayout, s: AppState, eventPos: Point, t: AppState) {
    if !NoResizeHandleAt(s.rectangles, s.mouse) then
      exists r :: r in s.rectangles && s.rectangles[r].IsResizePoint(s.mouse)
        && t == s.(action := Some(Drawing(ResizeRectangle(r, s.rectangles[r].rect.start))))
    else
      PressedAwayFromResizeHandles(layout, s, eventPos, t)
  }

  /** `on_mouse_left_up` on states: a line or rectangle being drawn becomes an object with
      the next id, a new line's ends anchored to rectangles containing them; a dragged line
      end is re-anchored; every other drawing action just ends; a text action, or none,
      is left alone. */
  ghost predicate Released(s: AppState, t: AppState) {
    var id := s.idProvider + 1;
    match s.action
    case Some(Drawing(Line(start))) =>
      && id in t.lines
      && t == s.(idProvider := id, action := None,
                 lines := s.lines[id := NewLineObject(id, LibLine.Line(start, s.mouse), s.color)
                                          .(startAnchorRectId := t.lines[id].startAnchorRectId,
                                            endAnchorRectId := t.lines[id].endAnchorRectId)])
      && IsAnchorFor(s.rectangles, start, t.lines[id].startAnchorRectId)
      && IsAnchorFor(s.rectangles, s.mouse, t.lines[id].endAnchorRectId)
    case Some(Drawing(Rect(start))) =>
      t == s.(idProvider := id, action := None,
              rectangles := s.rectangles[id := RectObject(id, s.color, LibRect.NewFromUnorderedPoints(start, s.mouse))])
    case Some(Drawing(DragLineStart(l))) =>
      if l in s.lines then
        && l in t.lines
        && t == s.(action := None, lines := s.lines[l := s.lines[l].(startAnchorRectId := t.lines[l].startAnchorRectId)])
        && IsAnchorFor(s.rectangles, s.lines[l].line.start, t.lines[l].startAnchorRectId)
      else
        t == s.(action := None)
    case Some(Drawing(DragLineEnd(l))) =>
      if l in s.lines then
        && l in t.lines
        && t == s.(action := None, lines := s.lines[l := s.lines[l].(endAnchorRectId := t.lines[l].endAnchorRectId)])
        && IsAnchorFor(s.rectangles, s.lines[l].line.end, t.lines[l].endAnchorRectId)
      else
        t == s.(action := None)
    case Some(Drawing(_)) => t == s.(action := None)
    case _ => t == s
  }

  /** `end_text_mode` on states: the typed lines become a text with the next id, at the
      action's start, anchored to a rectangle containing that start, if any. */
  ghost predicate Committed(s: AppState, t: AppState) {
    && s.action.Some? && s.action.value.Typing?
    && var a, id := s.action.value, s.idProvider + 1;
    && id in t.texts
    && t == s.(idProvider := id, action := None,
               texts := s.texts[id := TextObject(id, a.start, a.editor.lines, t.texts[id].anchorRectId, s.color)])
    && IsAnchorFor(s.rectangles, a.start, t.texts[id].anchorRectId)
  }

  /** `text_edit_mode_update` on states: only the editor changes, as `edit` says. */
  ghost predicate Typed(s: AppState, key: KeyEvent, t: AppState) {
    && s.action.Some? && s.action.value.Typing? && s.action.value.editor.Valid()
    && t == s.(action := Some(Typing(s.action.value.start, Edited(s.action.value.editor, key))))
  }

  /** `delete_under_point` on the stores: one rectangle containing `p` goes if there is
      one; otherwise one line passing through `p` goes, if there is one. */
  ghost predicate DeletedUnder(rects: map<Id, RectObject>, lines: map<Id, LineObject>, p: Point,
                               keptRects: map<Id, RectObject>, keptLines: map<Id, LineObject>) {
    if exists id :: id in rects && rects[id].rect.IsPointOn(p) then
      && keptLines == lines
      && exists id :: id in rects && rects[id].rect.IsPointOn(p) && keptRects == rects - {id}
    else
      && keptRects == rects
      && if exists id :: id in lines && p in lines[id].line.Points() then
           exists id :: id in lines && p in lines[id].line.Points() && keptLines == lines - {id}
         else
           keptLines == lines
  }

  /** `on_key_press_not_edit_mode` on states: `r`, `l` and `t` set the intent, a digit
      the color, `Delete` deletes under the mouse, and every other key does nothing. */
  ghost predicate KeyPressed(s: AppState, code: KeyCode, t: AppState) {
    match code
    case Char(c) =>
      if c == 'r' then t == s.(intent := Intent.Rect)
      else if c == 'l' then t == s.(intent := Intent.Line)
      else if c == 't' then t == s.(intent := Intent.Text)
      else if '0' <= c <= '9' then t == s.(color := DigitColor(c))
      else t == s
    case Delete =>
      && t == s.(rectangles := t.rectangles, lines := t.lines)
      && DeletedUnder(s.rectangles, s.lines, s.mouse, t.rectangles, t.lines)
    case _ => t == s
  }

  /** One turn of `update`'s event loop on states: a left press or release, a key press
      while typing (Enter without Alt commits, anything else edits) or not typing; every
      other event, and every key release or repeat, changes nothing. */
  ghost predicate Handled(layout: LineStartLayout, s: AppState, e: Event, t: AppState) {
    match e
    case Mouse(m) =>
      if m.kind == Down(MouseButton.Left) then Pressed(layout, s, (m.column, m.row), t)
      else if m.kind == Up(MouseButton.Left) then Released(s, t)
      else t == s
    case Key(k) =>
      if !k.IsPress() then t == s
      else if s.action.Some? && s.action.value.Typing? then
        if IsEnterWithoutAlt(k) then Committed(s, t) else Typed(s, k, t)
      else KeyPressed(s, k.code, t)
    case OtherEvent => t == s
  }

  /** `states` is a run of the event loop over `events`: each state comes from the one
      before it by handling the next event, in order. */
  ghost predicate HandledAlong(layout: LineStartLayout, states: seq<AppState>, events: seq<Event>) {
    && |states| == |events| + 1
    && forall i :: 0 <= i < |events| ==> Handled(layout, states[i], events[i], states[i + 1])
  }

  /** A run over the first `k` events extends by handling the next one. */
  lemma HandledAlongExtend(layout: LineStartLayout, run: seq<AppState>, events: seq<Event>, k: nat, t: AppState)
    requires k < |events| && HandledAlong(layout, run, events[..k]) && Handled(layout, run[k], events[k], t)
    ensures HandledAlong(layout, run + [t], events[..k + 1])
  {
    assert events[..k + 1] == events[..k] + [events[k]];
  }

  /** Every id on the canvas has been handed out already: none is above the counter. */
  ghost predicate IdsIssued(s: AppState) {
    && (forall id :: id in s.rectangles ==> id <= s.idProvider)
    && (forall id :: id in s.lines ==> id <= s.idProvider)
    && (forall id :: id in s.texts ==> id <= s.idProvider)
  }

  /** Handling an event never moves the mouse (only `update` does, before its loop), hands
      out at most one new id, and keeps every id on the canvas issued. */
  lemma HandledKeepsMouseAndIds(layout: LineStartLayout, s: AppState, e: Event, t: AppState)
    requires Handled(layout, s, e, t)
    ensures t.mouse == s.mouse && s.idProvider <= t.idProvider <= s.idProvider + 1
    ensures IdsIssued(s) ==> IdsIssued(t)
  {
    match e
    case Mouse(m) =>
      if m.kind == Down(MouseButton.Left) {
        PressedKeepsMouseAndIds(layout, s, (m.column, m.row), t);
      } else if m.kind == Up(MouseButton.Left) {
        ReleasedKeepsMouseAndIds(s, t);
      }
    case Key(k) =>
      if k.IsPress() && !(s.action.Some? && s.action.value.Typing?) {
        KeyPressedKeepsMouseAndIds(s, k.code, t);
      }
    case OtherEvent =>
  }

  /** A key press outside text mode changes no id and only ever removes objects. */
  lemma KeyPressedKeepsMouseAndIds(s: AppState, code: KeyCode, t: AppState)
    requires KeyPressed(s, code, t)
    ensures t.mouse == s.mouse && t.idProvider == s.idProvider
    ensures t.rectangles.Keys <= s.rectangles.Keys && t.lines.Keys <= s.lines.Keys && t.texts == s.texts
  {
    if code == Delete {
      DeletedUnderRemovesAtMostOne(s.rectangles, s.lines, s.mouse, t.rectangles, t.lines);
    }
  }

  /** A left press only grabs or starts something: ids and the mouse are untouched, and
      objects only leave the canvas or lose an anchor. */
  lemma PressedKeepsMouseAndIds(layout: LineStartLayout, s: AppState, eventPos: Point, t: AppState)
    requires Pressed(layout, s, eventPos, t)
    ensures t.mouse == s.mouse && t.idProvider == s.idProvider
    ensures t.rectangles == s.rectangles && t.lines.Keys == s.lines.Keys && t.texts.Keys <= s.texts.Keys
  {
    if NoResizeHandleAt(s.rectangles, s.mouse) && NoLineStartAt(s.lines, s.mouse) && NoLineEndAt(s.lines, s.mouse) {
      assert PressedAwayFromLineEnds(layout, s, eventPos, t);
    }
  }

  /** A left release hands out at most one id, to the object it adds. */
  lemma ReleasedKeepsMouseAndIds(s: AppState, t: AppState)
    requires Released(s, t)
    ensures t.mouse == s.mouse && s.idProvider <= t.idProvider <= s.idProvider + 1
    ensures IdsIssued(s) ==> IdsIssued(t)
  {
  }

  /** Over a whole run of the event loop the mouse stays put, the counter never goes
      back, and ids on the canvas stay issued. */
  lemma {:induction false} HandledAlongKeepsMouseAndIds(layout: LineStartLayout, run: seq<AppState>, events: seq<Event>)
    requires HandledAlong(layout, run, events)
    ensures forall i :: 0 <= i < |run| ==> run[i].mouse == run[0].mouse && run[0].idProvider <= run[i].idProvider
    ensures IdsIssued(run[0]) ==> IdsIssued(run[|run| - 1])
  {
    if |events| > 0 {
      var n := |events| - 1;
      assert HandledAlong(layout, run[..n + 1], events[..n]);
      HandledAlongKeepsMouseAndIds(layout, run[..n + 1], events[..n]);
      HandledKeepsMouseAndIds(layout, run[n], events[n], run[n + 1]);
    }
  }

  /** Enter while typing adds exactly one text, under an id not yet on the canvas. */
  lemma CommittedAddsOneText(s: AppState, t: AppState)
    requires Committed(s, t) && IdsIssued(s)
    ensures s.idProvider + 1 !in s.texts && t.texts.Keys == s.texts.Keys + {s.idProvider + 1}
    ensures |t.texts| == |s.texts| + 1
  {
  }

  /** `Delete` removes at most one object, and removes one exactly when a rectangle or a
      line lies under the point. */
  lemma DeletedUnderRemovesAtMostOne(rects: map<Id, RectObject>, lines: map<Id, LineObject>, p: Point,
                                     keptRects: map<Id, RectObject>, keptLines: map<Id, LineObject>)
    requires DeletedUnder(rects, lines, p, keptRects, keptLines)
    ensures keptRects.Keys <= rects.Keys && keptLines.Keys <= lines.Keys
    ensures |rects| + |lines| <= |keptRects| + |keptLines| + 1
    ensures (keptRects == rects && keptLines == lines) <==>
      && (forall id :: id in rects ==> !rects[id].rect.IsPointOn(p))
      && (forall id :: id in lines ==> p !in lines[id].line.Points())
  {
  }

  /** The rectangles after the live action: a dragged rectangle's corner is the mouse
      minus the grab offset, a resized one spans its fixed corner and the mouse. */
  function LiveRectangles(s: AppState): map<Id, RectObject> {
    match s.action
    case Some(Drawing(DragRectangle(r, offset))) =>
      if r in s.rectangles then
        s.rectangles[r := s.rectangles[r].(rect := s.rectangles[r].rect.(start := Sub(s.mouse, offset)))]
      else s.rectangles
    case Some(Drawing(ResizeRectangle(r, origStart))) =>
      if r in s.rectangles then s.rectangles[r := s.rectangles[r].Resize(origStart, s.mouse)] else s.rectangles
    case _ => s.rectangles
  }

  /** The lines after the live action: a dragged line end sits at the mouse. */
  function LiveLines(s: AppState): map<Id, LineObject> {
    match s.action
    case Some(Drawing(DragLineStart(l))) =>
      if l in s.lines then s.lines[l := s.lines[l].(line := s.lines[l].line.(start := s.mouse))] else s.lines
    case Some(Drawing(DragLineEnd(l))) =>
      if l in s.lines then s.lines[l := s.lines[l].(line := s.lines[l].line.(end := s.mouse))] else s.lines
    case _ => s.lines
  }

  /** The live action keeps every id, and changes only the rectangle being dragged or
      resized and the line whose end is being dragged. */
  lemma LiveActionTouchesOnlyItsObject(s: AppState)
    ensures LiveRectangles(s).Keys == s.rectangles.Keys && LiveLines(s).Keys == s.lines.Keys
    ensures forall id :: id in s.rectangles && LiveRectangles(s)[id] != s.rectangles[id] ==>
              && s.action.Some? && s.action.value.Drawing?
              && (s.action.value.action.DragRectangle? || s.action.value.action.ResizeRectangle?)
              && s.action.value.action.rectangleId == id
    ensures forall id :: id in s.lines && LiveLines(s)[id] != s.lines[id] ==>
              && s.action.Some? && s.action.value.Drawing?
              && (s.action.value.action.DragLineStart? || s.action.value.action.DragLineEnd?)
              && s.action.value.action.lineId == id
  {
  }

  /** The end of `update` on states: the live action, then every line follows its
      anchors and every text its rectangle, all against the moved rectangles. */
  function Settled(s: AppState): AppState {
    var rects, lines := LiveRectangles(s), LiveLines(s);
    s.(rectangles := rects, lines := FollowedLines(rects, lines), texts := FollowedTexts(rects, s.texts))
  }

  /** Settling keeps the rectangles normalised, puts every end anchored to an existing
      rectangle on that rectangle, and every anchored text at its rectangle's midpoint. */
  lemma SettledStaysOnAnchors(s: AppState)
    requires forall id :: id in s.rectangles ==> s.rectangles[id].rect.Normalised()
    ensures var t := Settled(s);
      && (forall id :: id in t.rectangles ==> t.rectangles[id].rect.Normalised())
      && (forall id :: id in t.lines ==>
            var lo := t.lines[id];
            && (lo.startAnchorRectId.Some? && lo.startAnchorRectId.value in t.rectangles ==>
                  t.rectangles[lo.startAnchorRectId.value].rect.IsPointOn(lo.line.start))
            && (lo.endAnchorRectId.Some? && lo.endAnchorRectId.value in t.rectangles ==>
                  t.rectangles[lo.endAnchorRectId.value].rect.IsPointOn(lo.line.end)))
      && (forall id :: id in t.texts ==>
            var x := t.texts[id];
            x.anchorRectId.Some? && x.anchorRectId.value in t.rectangles ==>
              x.start == t.rectangles[x.anchorRectId.value].rect.Midpoint())
  {
    var rects, lines := LiveRectangles(s), LiveLines(s);
    assert forall id :: id in rects ==> rects[id].rect.Normalised();
    forall id | id in lines
      ensures var lo := FollowedLine(rects, lines[id]);
        && (lo.startAnchorRectId.Some? && lo.startAnchorRectId.value in rects ==>
              rects[lo.startAnchorRectId.value].rect.IsPointOn(lo.line.start))
        && (lo.endAnchorRectId.Some? && lo.endAnchorRectId.value in rects ==>
              rects[lo.endAnchorRectId.value].rect.IsPointOn(lo.line.end))
    {
      FollowedLineStaysOnAnchors(rects, lines[id]);
    }
  }


  /** Rectangle ids come from the counter and name their rectangles, which are
      normalised and colored from the palette. */
  ghost predicate RectanglesValid(idProvider: nat, rects: map<Id, RectObject>) {
    forall id :: id in rects ==>
      1 <= id <= idProvider && rects[id].id == id && rects[id].rect.Normalised() && rects[id].color < ColorCount
  }

  /** Line ids come from the counter and name their lines, colored from the palette. */
  ghost predicate LinesValid(idProvider: nat, lines: map<Id, LineObject>) {
    forall id :: id in lines ==> 1 <= id <= idProvider && lines[id].id == id && lines[id].color < ColorCount
  }

  /** Text ids come from the counter and name their texts, which have a line and are
      colored from the palette. */
  ghost predicate TextsValid(idProvider: nat, texts: map<Id, TextObject>) {
    forall id :: id in texts ==>
      1 <= id <= idProvider && texts[id].id == id && |texts[id].lines| > 0 && texts[id].color < ColorCount
  }

  /** No id names two objects. */
  ghost predicate IdsDistinct(rects: map<Id, RectObject>, lines: map<Id, LineObject>, texts: map<Id, TextObject>) {
    && (forall id :: id in rects ==> id !in lines && id !in texts)
    && (forall id :: id in lines ==> id !in texts)
  }

  /** `App`: the diagram editor. */
  class App {
    var idProvider: nat
    var action: Option<Action>
    var intent: Intent
    var currentMousePos: Point
    var currentColor: nat
    var rectangles: map<Id, RectObject>
    var lines: map<Id, LineObject>
    var texts: map<Id, TextObject>
    /** The library's `multiline_text_line_start`. */
    const layout: LineStartLayout

    /** The text editor of a text action in progress. */
    ghost function Editor(): set<object>
      reads this`action
    {
      if action.Some? && action.value.Text? then {action.value.editor} else {}
    }

    /** The action in progress as a value. */
    ghost function ActionState(): Option<ActionView>
      reads this`action, Editor()
    {
      match action
      case Some(Text(start, editor)) => Some(Typing(start, editor.State()))
      case Some(a) => Some(Drawing(a))
      case None => None
    }

    /** The whole state as a value. */
    ghost function State(): AppState
      reads this, Editor()
    {
      AppState(idProvider, ActionState(), intent, currentMousePos, currentColor, rectangles, lines, texts)
    }

    /** Ids come from the counter and name their objects, no id names two objects,
        rectangles are normalised, colors index the palette, and a text has a line. */
    ghost predicate Valid()
      reads this, Editor()
    {
      && RectanglesValid(idProvider, rectangles)
      && LinesValid(idProvider, lines)
      && TextsValid(idProvider, texts)
      && IdsDistinct(rectangles, lines, texts)
      && currentColor < ColorCount
      && EditorValid()
    }

    /** A text action in progress holds a well-formed editor. */
    ghost predicate EditorValid()
      reads this`action, Editor()
    {
      action.Some? && action.value.Text? ==> action.value.editor.Valid()
    }

    /** `App::new`: an empty canvas, rectangle intent, default color, no mouse position yet. */
    constructor (layout: LineStartLayout)
      ensures Valid()
      ensures idProvider == 0 && action.None? && intent == Intent.Rect
      ensures currentMousePos == (-1, -1) && currentColor == 0
      ensures rectangles == map[] && lines == map[] && texts == map[]
      ensures this.layout == layout
    {
      idProvider := 0;
      action := None;
      intent := Intent.Rect;
      currentMousePos := (-1, -1);
      currentColor := 0;
      rectangles := map[];
      lines := map[];
      texts := map[];
      this.layout := layout;
    }

    /** `get_id`: the next id, never used before. */
    method GetId() returns (id: Id)
      requires Valid()
      modifies this`idProvider
      ensures Valid()
      ensures idProvider == old(idProvider) + 1 && id == idProvider
      ensures id !in rectangles && id !in lines && id !in texts
    {
      idProvider := idProvider + 1;
      id := idProvider;
    }

    /** `start_action`: begins drawing what the intent says, unless an action is already
        in progress. */
    method StartAction(start: Point)
      requires Valid()
      modifies this`action
      ensures Valid()
      ensures old(action).Some? ==> action == old(action)
      ensures old(action).None? && intent == Intent.Line ==> action == Some(Action.Line(start))
      ensures old(action).None? && intent == Intent.Rect ==> action == Some(Action.Rect(start))
      ensures old(action).None? && intent == Intent.Text ==>
        && action.Some? && action.value.Text? && action.value.start == start
        && fresh(action.value.editor) && action.value.editor.lines == [""]
      ensures fresh(Editor() - old(Editor()))
      ensures State() == old(State()).(action := StartedAction(old(State()), start))
    {
      if action.Some? {
        return;
      }
      if intent == Intent.Line {
        action := Some(Action.Line(start));
      } else if intent == Intent.Rect {
        action := Some(Action.Rect(start));
      } else {
        var editor := new TextEditor.New();
        action := Some(Action.Text(start, editor));
      }
    }

    /** `update_line_start_anchor`: anchors the line's start to a rectangle containing it,
        or to none. */
    method UpdateLineStartAnchor(lineId: Id)
      requires Valid()
      modifies this`lines
      ensures Valid()
      ensures lineId !in old(lines) ==> lines == old(lines)
      ensures lineId in old(lines) ==>
        && lineId in lines
        && lines == old(lines)[lineId := old(lines)[lineId].(startAnchorRectId := lines[lineId].startAnchorRectId)]
        && IsAnchorFor(rectangles, old(lines)[lineId].line.start, lines[lineId].startAnchorRectId)
    {
      if lineId in lines {
        var p := lines[lineId].line.start;
        var anchor := FindKey(rectangles, (o: RectObject) => o.rect.IsPointOn(p));
        lines := lines[lineId := lines[lineId].(startAnchorRectId := anchor)];
      }
    }

    /** `update_line_end_anchor`: the same for the line's end. */
    method UpdateLineEndAnchor(lineId: Id)
      requires Valid()
      modifies this`lines
      ensures Valid()
      ensures lineId !in old(lines) ==> lines == old(lines)
      ensures lineId in old(lines) ==>
        && lineId in lines
        && lines == old(lines)[lineId := old(lines)[lineId].(endAnchorRectId := lines[lineId].endAnchorRectId)]
        && IsAnchorFor(rectangles, old(lines)[lineId].line.end, lines[lineId].endAnchorRectId)
    {
      if lineId in lines {
        var p := lines[lineId].line.end;
        var anchor := FindKey(rectangles, (o: RectObject) => o.rect.IsPointOn(p));
        lines := lines[lineId := lines[lineId].(endAnchorRectId := anchor)];
      }
    }

    /** `rectangle_header_under_point`. */
    method RectangleHeaderUnderPoint(p: Point) returns (r: Option<Id>)
      ensures r.Some? ==> r.value in rectangles && rectangles[r.value].IsDragPoint(p)
      ensures r.None? <==> NoHeaderAt(rectangles, p)
    {
      r := FindKey(rectangles, (o: RectObject) => o.IsDragPoint(p));
    }

    /** `rectangle_resize_point_under_point`. */
    method RectangleResizePointUnderPoint(p: Point) returns (r: Option<Id>)
      ensures r.Some? ==> r.value in rectangles && rectangles[r.value].IsResizePoint(p)
      ensures r.None? <==> NoResizeHandleAt(rectangles, p)
    {
      r := FindKey(rectangles, (o: RectObject) => o.IsResizePoint(p));
    }

    /** `rectangle_under_point`. */
    method RectangleUnderPoint(p: Point) returns (r: Option<Id>)
      ensures IsAnchorFor(rectangles, p, r)
    {
      r := FindKey(rectangles, (o: RectObject) => o.rect.IsPointOn(p));
    }

    /** `is_text_editable_at`. */
    method IsTextEditableAt(t: TextObject, p: Point) returns (b: bool)
      ensures b == TextEditableAt(rectangles, layout, t, p)
    {
      if t.anchorRectId.Some? && t.anchorRectId.value in rectangles {
        b := rectangles[t.anchorRectId.value].rect.IsPointInside(p);
      } else {
        b := t.IsEditPoint(layout, p);
      }
    }

    /** `text_under_point`. */
    method TextUnderPoint(p: Point) returns (r: Option<Id>)
      ensures r.Some? ==> r.value in texts && TextEditableAt(rectangles, layout, texts[r.value], p)
      ensures r.None? <==> NoTextAt(rectangles, layout, texts, p)
    {
      var todo := texts.Keys;
      while todo != {}
        invariant todo <= texts.Keys
        invariant forall id :: id in texts && id !in todo ==> !TextEditableAt(rectangles, layout, texts[id], p)
        decreases todo
      {
        var id :| id in todo;
        var editable := IsTextEditableAt(texts[id], p);
        if editable {
          return Some(id);
        }
        todo := todo - {id};
      }
      return None;
    }

    /** `line_with_start_under_point`. */
    method LineWithStartUnderPoint(p: Point) returns (r: Option<Id>)
      ensures r.Some? ==> r.value in lines && lines[r.value].line.start == p
      ensures r.None? <==> NoLineStartAt(lines, p)
    {
      r := FindKey(lines, (o: LineObject) => o.line.start == p);
    }

    /** `line_with_end_under_point`. */
    method LineWithEndUnderPoint(p: Point) returns (r: Option<Id>)
      ensures r.Some? ==> r.value in lines && lines[r.value].line.end == p
      ensures r.None? <==> NoLineEndAt(lines, p)
    {
      r := FindKey(lines, (o: LineObject) => o.line.end == p);
    }

    /** `is_active_action_text`. */
    predicate IsActiveActionText()
      reads this
    {
      action.Some? && action.value.IsText()
    }

    /** Both ends of a line anchored afresh, start then end. */
    method AnchorBothEnds(lineId: Id)
      requires Valid() && lineId in lines
      modifies this`lines
      ensures Valid()
      ensures lineId in lines
      ensures lines == old(lines)[lineId := old(lines)[lineId].(startAnchorRectId := lines[lineId].startAnchorRectId,
                                                                endAnchorRectId := lines[lineId].endAnchorRectId)]
      ensures IsAnchorFor(rectangles, old(lines)[lineId].line.start, lines[lineId].startAnchorRectId)
      ensures IsAnchorFor(rectangles, old(lines)[lineId].line.end, lines[lineId].endAnchorRectId)
    {
      UpdateLineStartAnchor(lineId);
      UpdateLineEndAnchor(lineId);
    }

    /** The line branch of `on_mouse_left_up`: a new line from `start` to the mouse, with
        a fresh id, its ends anchored to rectangles containing them. */
    method AddLine(start: Point)
      requires Valid()
      modifies this`idProvider, this`lines
      ensures Valid()
      ensures var id := old(idProvider) + 1;
        && idProvider == id && id !in old(lines) && id in lines
        && lines == old(lines)[id := NewLineObject(id, LibLine.Line(start, currentMousePos), currentColor)
                                      .(startAnchorRectId := lines[id].startAnchorRectId,
                                        endAnchorRectId := lines[id].endAnchorRectId)]
        && IsAnchorFor(rectangles, start, lines[id].startAnchorRectId)
        && IsAnchorFor(rectangles, currentMousePos, lines[id].endAnchorRectId)
    {
      var newId := GetId();
      lines := lines[newId := NewLineObject(newId, LibLine.Line(start, currentMousePos), currentColor)];
      AnchorBothEnds(newId);
    }

    /** The rectangle branch of `on_mouse_left_up`: a new rectangle spanned by `start` and
        the mouse, with a fresh id. */
    method AddRectangle(start: Point)
      requires Valid()
      modifies this`idProvider, this`rectangles
      ensures Valid()
      ensures var id := old(idProvider) + 1;
        && idProvider == id && id !in old(rectangles)
        && rectangles == old(rectangles)[id := RectObject(id, currentColor,
                                                           LibRect.NewFromUnorderedPoints(start, currentMousePos))]
    {
      var newId := GetId();
      rectangles := rectangles[newId := RectObject(newId, currentColor,
                                                    LibRect.NewFromUnorderedPoints(start, currentMousePos))];
    }

    /** The drawing branches of `on_mouse_left_up`: a line or a rectangle being drawn
        becomes an object with a fresh id. */
    method FinishDrawing()
      requires Valid() && action.Some? && (action.value.Line? || action.value.Rect?)
      modifies this`idProvider, this`lines, this`rectangles, this`action
      ensures Valid()
      ensures texts == old(texts) && intent == old(intent)
      ensures currentMousePos == old(currentMousePos) && currentColor == old(currentColor)
      ensures Editor() == old(Editor())
      ensures var a := old(action); a.Some? && a.value.Line? ==>
        var id := old(idProvider) + 1;
        && idProvider == id && action.None? && rectangles == old(rectangles)
        && id !in old(lines) && id in lines
        && lines == old(lines)[id := NewLineObject(id, LibLine.Line(a.value.start, currentMousePos), currentColor)
                                      .(startAnchorRectId := lines[id].startAnchorRectId,
                                        endAnchorRectId := lines[id].endAnchorRectId)]
        && IsAnchorFor(rectangles, a.value.start, lines[id].startAnchorRectId)
        && IsAnchorFor(rectangles, currentMousePos, lines[id].endAnchorRectId)
      ensures var a := old(action); a.Some? && a.value.Rect? ==>
        var id := old(idProvider) + 1;
        && idProvider == id && action.None? && lines == old(lines) && id !in old(rectangles)
        && rectangles == old(rectangles)[id := RectObject(id, currentColor,
                                                           LibRect.NewFromUnorderedPoints(a.value.start, currentMousePos))]
      ensures Released(old(State()), State())
    {
      if action.value.Line? {
        AddLine(action.value.start);
      } else {
        AddRectangle(action.value.start);
      }
      action := None;
    }

    /** The dragging branches of `on_mouse_left_up`: a dragged line end is re-anchored,
        and every drag or resize ends. */
    method FinishDrag()
      requires Valid() && action.Some? && !action.value.Line? && !action.value.Rect? && !action.value.Text?
      modifies this`lines, this`action
      ensures Valid()
      ensures texts == old(texts) && intent == old(intent)
      ensures currentMousePos == old(currentMousePos) && currentColor == old(currentColor)
      ensures Editor() == old(Editor())
      ensures var a := old(action); a.Some? && a.value.DragLineStart? ==>
        var l := a.value.lineId;
        && action.None? && idProvider == old(idProvider) && rectangles == old(rectangles)
        && (l !in old(lines) ==> lines == old(lines))
        && (l in old(lines) ==>
              && l in lines
              && lines == old(lines)[l := old(lines)[l].(startAnchorRectId := lines[l].startAnchorRectId)]
              && IsAnchorFor(rectangles, old(lines)[l].line.start, lines[l].startAnchorRectId))
      ensures var a := old(action); a.Some? && a.value.DragLineEnd? ==>
        var l := a.value.lineId;
        && action.None? && idProvider == old(idProvider) && rectangles == old(rectangles)
        && (l !in old(lines) ==> lines == old(lines))
        && (l in old(lines) ==>
              && l in lines
              && lines == old(lines)[l := old(lines)[l].(endAnchorRectId := lines[l].endAnchorRectId)]
              && IsAnchorFor(rectangles, old(lines)[l].line.end, lines[l].endAnchorRectId))
      ensures var a := old(action); a.Some? && (a.value.DragRectangle? || a.value.ResizeRectangle?) ==>
        action.None? && idProvider == old(idProvider) && rectangles == old(rectangles) && lines == old(lines)
      ensures Released(old(State()), State())
    {
      if action.value.DragLineStart? {
        UpdateLineStartAnchor(action.value.lineId);
      } else if action.value.DragLineEnd? {
        UpdateLineEndAnchor(action.value.lineId);
      }
      action := None;
    }

    /** `on_mouse_left_up`: finishes the action in progress. A line or rectangle being
        drawn becomes an object with a fresh id (a new line's ends are anchored to
        rectangles containing them); a dragged line end is re-anchored; a drag or resize
        just ends. A text action goes on, and with no action nothing happens. */
    method OnMouseLeftUp()
      requires Valid()
      modifies this`idProvider, this`lines, this`rectangles, this`action
      ensures Valid()
      ensures texts == old(texts) && intent == old(intent)
      ensures currentMousePos == old(currentMousePos) && currentColor == old(currentColor)
      ensures Editor() == old(Editor())
      ensures var a := old(action); a.Some? && a.value.Line? ==>
        var id := old(idProvider) + 1;
        && idProvider == id && action.None? && rectangles == old(rectangles)
        && id !in old(lines) && id in lines
        && lines == old(lines)[id := NewLineObject(id, LibLine.Line(a.value.start, currentMousePos), currentColor)
                                      .(startAnchorRectId := lines[id].startAnchorRectId,
                                        endAnchorRectId := lines[id].endAnchorRectId)]
        && IsAnchorFor(rectangles, a.value.start, lines[id].startAnchorRectId)
        && IsAnchorFor(rectangles, currentMousePos, lines[id].endAnchorRectId)
      ensures var a := old(action); a.Some? && a.value.Rect? ==>
        var id := old(idProvider) + 1;
        && idProvider == id && action.None? && lines == old(lines) && id !in old(rectangles)
        && rectangles == old(rectangles)[id := RectObject(id, currentColor,
                                                           LibRect.NewFromUnorderedPoints(a.value.start, currentMousePos))]
      ensures var a := old(action); a.Some? && a.value.DragLineStart? ==>
        var l := a.value.lineId;
        && action.None? && idProvider == old(idProvider) && rectangles == old(rectangles)
        && (l !in old(lines) ==> lines == old(lines))
        && (l in old(lines) ==>
              && l in lines
              && lines == old(lines)[l := old(lines)[l].(startAnchorRectId := lines[l].startAnchorRectId)]
              && IsAnchorFor(rectangles, old(lines)[l].line.start, lines[l].startAnchorRectId))
      ensures var a := old(action); a.Some? && a.value.DragLineEnd? ==>
        var l := a.value.lineId;
        && action.None? && idProvider == old(idProvider) && rectangles == old(rectangles)
        && (l !in old(lines) ==> lines == old(lines))
        && (l in old(lines) ==>
              && l in lines
              && lines == old(lines)[l := old(lines)[l].(endAnchorRectId := lines[l].endAnchorRectId)]
              && IsAnchorFor(rectangles, old(lines)[l].line.end, lines[l].endAnchorRectId))
      ensures var a := old(action); a.Some? && (a.value.DragRectangle? || a.value.ResizeRectangle?) ==>
        action.None? && idProvider == old(idProvider) && rectangles == old(rectangles) && lines == old(lines)
      ensures var a := old(action); a.None? || a.value.Text? ==>
        action == a && idProvider == old(idProvider) && rectangles == old(rectangles) && lines == old(lines)
      ensures Released(old(State()), State())
    {
      if action.Some? && (action.value.Line? || action.value.Rect?) {
        FinishDrawing();
      } else if action.Some? && !action.value.Text? {
        FinishDrag();
      }
    }

    /** `end_text_mode`: commits the text being typed as a text object with a fresh id,
        anchored to a rectangle containing its start, if any. Only called with a text
        action in progress. */
    method EndTextMode()
      requires Valid() && action.Some? && action.value.Text?
      modifies this`idProvider, this`texts, this`action
      ensures Valid()
      ensures var a := old(action.value); var id := old(idProvider) + 1;
        && idProvider == id && action.None? && id !in old(texts) && id in texts
        && texts == old(texts)[id := TextObject(id, a.start, a.editor.lines, texts[id].anchorRectId, currentColor)]
        && IsAnchorFor(rectangles, a.start, texts[id].anchorRectId)
      ensures rectangles == old(rectangles) && lines == old(lines) && intent == old(intent)
      ensures currentMousePos == old(currentMousePos) && currentColor == old(currentColor)
      ensures Committed(old(State()), State())
    {
      var start, editor := action.value.start, action.value.editor;
      action := None;
      var anchor := RectangleUnderPoint(start);
      var id := GetId();
      texts := texts[id := TextObject(id, start, editor.lines, anchor, currentColor)];
      action := None;
    }

    /** Grabbing a line's start: that end is unanchored and follows the mouse. */
    method GrabLineStart(l: Id)
      requires Valid() && l in lines
      modifies this`lines, this`action
      ensures Valid()
      ensures lines == old(lines)[l := old(lines)[l].(startAnchorRectId := None)]
      ensures action == Some(DragLineStart(l))
    {
      lines := lines[l := lines[l].(startAnchorRectId := None)];
      action := Some(DragLineStart(l));
    }

    /** Grabbing a line's end: that end is unanchored and follows the mouse. */
    method GrabLineEnd(l: Id)
      requires Valid() && l in lines
      modifies this`lines, this`action
      ensures Valid()
      ensures lines == old(lines)[l := old(lines)[l].(endAnchorRectId := None)]
      ensures action == Some(DragLineEnd(l))
    {
      lines := lines[l := lines[l].(endAnchorRectId := None)];
      action := Some(DragLineEnd(l));
    }

    /** Pressing on a text: the text leaves the canvas and its lines go into a new editor,
        the cursor on the last line. */
    method ReopenText(t: Id)
      requires Valid() && t in texts
      modifies this`texts, this`action
      ensures Valid()
      ensures texts == old(texts) - {t}
      ensures action.Some? && action.value.Text? && fresh(action.value.editor)
      ensures action.value.start == old(texts)[t].start && action.value.editor.lines == old(texts)[t].lines
      ensures State() == old(State()).(texts := old(texts) - {t},
                                       action := Some(Typing(old(texts)[t].start, Reopened(old(texts)[t].lines))))
    {
      var text := texts[t];
      var editor := new TextEditor.NewWithLines(text.lines);
      action := Some(Action.Text(text.start, editor));
      texts := texts - {t};
    }

    /** The last steps of `on_left_mouse_button_down`, once nothing else is under the
        mouse: a rectangle's header is grabbed, else drawing starts at the event's own
        position. */
    method PressOnCanvas(eventPos: Point)
      requires Valid()
      modifies this`action
      ensures Valid()
      ensures !NoHeaderAt(rectangles, currentMousePos) ==>
        && action.Some? && action.value.DragRectangle?
        && action.value.rectangleId in rectangles
        && rectangles[action.value.rectangleId].IsDragPoint(currentMousePos)
        && action.value.offset == Sub(currentMousePos, rectangles[action.value.rectangleId].rect.start)
      ensures NoHeaderAt(rectangles, currentMousePos) ==>
        && (old(action).Some? ==> action == old(action))
        && (old(action).None? && intent == Intent.Line ==> action == Some(Action.Line(eventPos)))
        && (old(action).None? && intent == Intent.Rect ==> action == Some(Action.Rect(eventPos)))
        && (old(action).None? && intent == Intent.Text ==>
              action.Some? && action.value.Text? && action.value.start == eventPos && action.value.editor.lines == [""])
      ensures fresh(Editor() - old(Editor()))
      ensures PressedOnCanvas(old(State()), eventPos, State())
    {
      var m := currentMousePos;
      var header := RectangleHeaderUnderPoint(m);
      if header.Some? {
        action := Some(DragRectangle(header.value, Sub(m, rectangles[header.value].rect.start)));
        return;
      }
      StartAction(eventPos);
    }

    /** The steps of `on_left_mouse_button_down` once no resize corner and no line end is
        under the mouse: a text is reopened; otherwise the last steps run. */
    method PressAwayFromLineEnds(eventPos: Point)
      requires Valid()
      modifies this`texts, this`action
      ensures Valid()
      ensures rectangles == old(rectangles) && idProvider == old(idProvider) && intent == old(intent)
      ensures currentMousePos == old(currentMousePos) && currentColor == old(currentColor)
      ensures lines == old(lines)
      ensures fresh(Editor() - old(Editor()))
      ensures !NoTextAt(rectangles, layout, old(texts), currentMousePos) ==>
        && action.Some? && action.value.Text? && fresh(action.value.editor)
        && exists t :: t in old(texts) && TextEditableAt(rectangles, layout, old(texts)[t], currentMousePos)
                       && texts == old(texts) - {t}
                       && action.value.start == old(texts)[t].start
                       && action.value.editor.lines == old(texts)[t].lines
      ensures NoTextAt(rectangles, layout, old(texts), currentMousePos) && !NoHeaderAt(rectangles, currentMousePos) ==>
        && texts == old(texts)
        && action.Some? && action.value.DragRectangle?
        && action.value.rectangleId in rectangles
        && rectangles[action.value.rectangleId].IsDragPoint(currentMousePos)
        && action.value.offset == Sub(currentMousePos, rectangles[action.value.rectangleId].rect.start)
      ensures NoTextAt(rectangles, layout, old(texts), currentMousePos) && NoHeaderAt(rectangles, currentMousePos) ==>
        && texts == old(texts)
        && (old(action).Some? ==> action == old(action))
        && (old(action).None? && intent == Intent.Line ==> action == Some(Action.Line(eventPos)))
        && (old(action).None? && intent == Intent.Rect ==> action == Some(Action.Rect(eventPos)))
        && (old(action).None? && intent == Intent.Text ==>
              action.Some? && action.value.Text? && action.value.start == eventPos && action.value.editor.lines == [""])
      ensures PressedAwayFromLineEnds(layout, old(State()), eventPos, State())
    {
      var m := currentMousePos;
      var text := TextUnderPoint(m);
      if text.Some? {
        ReopenText(text.value);
        return;
      }
      PressOnCanvas(eventPos);
    }

    /** The steps of `on_left_mouse_button_down` after the resize corners: a line's start,
        else a line's end, is grabbed and unanchored; otherwise the later steps run. */
    method PressAwayFromResizeHandles(eventPos: Point)
      requires Valid()
      modifies this`lines, this`texts, this`action
      ensures Valid()
      ensures rectangles == old(rectangles) && idProvider == old(idProvider) && intent == old(intent)
      ensures currentMousePos == old(currentMousePos) && currentColor == old(currentColor)
      ensures fresh(Editor() - old(Editor()))
      ensures !NoLineStartAt(old(lines), currentMousePos) ==>
        && texts == old(texts)
        && action.Some? && action.value.DragLineStart?
        && var l := action.value.lineId;
        && l in old(lines) && old(lines)[l].line.start == currentMousePos
        && lines == old(lines)[l := old(lines)[l].(startAnchorRectId := None)]
      ensures NoLineStartAt(old(lines), currentMousePos) && !NoLineEndAt(old(lines), currentMousePos) ==>
        && texts == old(texts)
        && action.Some? && action.value.DragLineEnd?
        && var l := action.value.lineId;
        && l in old(lines) && old(lines)[l].line.end == currentMousePos
        && lines == old(lines)[l := old(lines)[l].(endAnchorRectId := None)]
      ensures NoLineStartAt(old(lines), currentMousePos) && NoLineEndAt(old(lines), currentMousePos) ==>
        lines == old(lines)
      ensures NoLineStartAt(old(lines), currentMousePos) && NoLineEndAt(old(lines), currentMousePos)
              && !NoTextAt(rectangles, layout, old(texts), currentMousePos) ==>
        && action.Some? && action.value.Text? && fresh(action.value.editor)
        && exists t :: t in old(texts) && TextEditableAt(rectangles, layout, old(texts)[t], currentMousePos)
                       && texts == old(texts) - {t}
                       && action.value.start == old(texts)[t].start
                       && action.value.editor.lines == old(texts)[t].lines
      ensures NoLineStartAt(old(lines), currentMousePos) && NoLineEndAt(old(lines), currentMousePos)
              && NoTextAt(rectangles, layout, old(texts), currentMousePos) && !NoHeaderAt(rectangles, currentMousePos) ==>
        && texts == old(texts)
        && action.Some? && action.value.DragRectangle?
        && action.value.rectangleId in rectangles
        && rectangles[action.value.rectangleId].IsDragPoint(currentMousePos)
        && action.value.offset == Sub(currentMousePos, rectangles[action.value.rectangleId].rect.start)
      ensures NoLineStartAt(old(lines), currentMousePos) && NoLineEndAt(old(lines), currentMousePos)
              && NoTextAt(rectangles, layout, old(texts), currentMousePos) && NoHeaderAt(rectangles, currentMousePos) ==>
        && texts == old(texts)
        && (old(action).Some? ==> action == old(action))
        && (old(action).None? && intent == Intent.Line ==> action == Some(Action.Line(eventPos)))
        && (old(action).None? && intent == Intent.Rect ==> action == Some(Action.Rect(eventPos)))
        && (old(action).None? && intent == Intent.Text ==>
              action.Some? && action.value.Text? && action.value.start == eventPos && action.value.editor.lines == [""])
      ensures PressedAwayFromResizeHandles(layout, old(State()), eventPos, State())
    {
      var m := currentMousePos;
      var started := LineWithStartUnderPoint(m);
      if started.Some? {
        GrabLineStart(started.value);
        return;
      }
      var ended := LineWithEndUnderPoint(m);
      if ended.Some? {
        GrabLineEnd(ended.value);
        return;
      }
      PressAwayFromLineEnds(eventPos);
    }

    /** `on_left_mouse_button_down`: the press at the current mouse position grabs, in this
        order of precedence, a rectangle's resize corner, a line's start, a line's end
        (unanchoring that end), a text (which is taken off the canvas and reopened in an
        editor), or a rectangle's header; otherwise it starts drawing at the event's own
        position. A grab replaces any action in progress. */
    method OnLeftMouseButtonDown(eventPos: Point)
      requires Valid()
      modifies this`lines, this`texts, this`action
      ensures Valid()
      ensures rectangles == old(rectangles) && idProvider == old(idProvider) && intent == old(intent)
      ensures currentMousePos == old(currentMousePos) && currentColor == old(currentColor)
      ensures fresh(Editor() - old(Editor()))
      ensures !NoResizeHandleAt(rectangles, currentMousePos) ==>
        && lines == old(lines) && texts == old(texts)
        && action.Some? && action.value.ResizeRectangle?
        && action.value.rectangleId in rectangles
        && rectangles[action.value.rectangleId].IsResizePoint(currentMousePos)
        && action.value.origStart == rectangles[action.value.rectangleId].rect.start
      ensures NoResizeHandleAt(rectangles, currentMousePos) && !NoLineStartAt(old(lines), currentMousePos) ==>
        && texts == old(texts)
        && action.Some? && action.value.DragLineStart?
        && var l := action.value.lineId;
        && l in old(lines) && old(lines)[l].line.start == currentMousePos
        && lines == old(lines)[l := old(lines)[l].(startAnchorRectId := None)]
      ensures NoResizeHandleAt(rectangles, currentMousePos) && NoLineStartAt(old(lines), currentMousePos)
              && !NoLineEndAt(old(lines), currentMousePos) ==>
        && texts == old(texts)
        && action.Some? && action.value.DragLineEnd?
        && var l := action.value.lineId;
        && l in old(lines) && old(lines)[l].line.end == currentMousePos
        && lines == old(lines)[l := old(lines)[l].(endAnchorRectId := None)]
      ensures NoResizeHandleAt(rectangles, currentMousePos) && NoLineStartAt(old(lines), currentMousePos)
              && NoLineEndAt(old(lines), currentMousePos)
              && !NoTextAt(rectangles, layout, old(texts), currentMousePos) ==>
        && lines == old(lines)
        && action.Some? && action.value.Text? && fresh(action.value.editor)
        && exists t :: t in old(texts) && TextEditableAt(rectangles, layout, old(texts)[t], currentMousePos)
                       && texts == old(texts) - {t}
                       && action.value.start == old(texts)[t].start
                       && action.value.editor.lines == old(texts)[t].lines
      ensures NoResizeHandleAt(rectangles, currentMousePos) && NoLineStartAt(old(lines), currentMousePos)
              && NoLineEndAt(old(lines), currentMousePos) && NoTextAt(rectangles, layout, old(texts), currentMousePos)
              && !NoHeaderAt(rectangles, currentMousePos) ==>
        && lines == old(lines) && texts == old(texts)
        && action.Some? && action.value.DragRectangle?
        && action.value.rectangleId in rectangles
        && rectangles[action.value.rectangleId].IsDragPoint(currentMousePos)
        && action.value.offset == Sub(currentMousePos, rectangles[action.value.rectangleId].rect.start)
      ensures NoResizeHandleAt(rectangles, currentMousePos) && NoLineStartAt(old(lines), currentMousePos)
              && NoLineEndAt(old(lines), currentMousePos) && NoTextAt(rectangles, layout, old(texts), currentMousePos)
              && NoHeaderAt(rectangles, currentMousePos) ==>
        && lines == old(lines) && texts == old(texts)
        && (old(action).Some? ==> action == old(action))
        && (old(action).None? && intent == Intent.Line ==> action == Some(Action.Line(eventPos)))
        && (old(action).None? && intent == Intent.Rect ==> action == Some(Action.Rect(eventPos)))
        && (old(action).None? && intent == Intent.Text ==>
              action.Some? && action.value.Text? && action.value.start == eventPos && action.value.editor.lines == [""])
      ensures Pressed(layout, old(State()), eventPos, State())
    {
      var m := currentMousePos;
      var resized := RectangleResizePointUnderPoint(m);
      if resized.Some? {
        action := Some(ResizeRectangle(resized.value, rectangles[resized.value].rect.start));
        return;
      }
      PressAwayFromResizeHandles(eventPos);
    }

    /** `delete_under_point`: deletes one rectangle containing `p` if there is one, and
        otherwise one line passing through `p`. Texts are never deleted. */
    method DeleteUnderPoint(p: Point)
      requires Valid()
      modifies this`rectangles, this`lines
      ensures Valid()
      ensures DeletedUnder(old(rectangles), old(lines), p, rectangles, lines)
      ensures State() == old(State()).(rectangles := rectangles, lines := lines)
    {
      var keptRects, keptLines := RemoveUnder(rectangles, lines, p);
      KeepShapes(keptRects, keptLines);
    }

    /** Keeps only some of the rectangles and lines, each as it was. */
    method KeepShapes(keptRects: map<Id, RectObject>, keptLines: map<Id, LineObject>)
      requires Valid()
      requires forall id :: id in keptRects ==> id in rectangles && keptRects[id] == rectangles[id]
      requires forall id :: id in keptLines ==> id in lines && keptLines[id] == lines[id]
      modifies this`rectangles, this`lines
      ensures Valid()
      ensures rectangles == keptRects && lines == keptLines
      ensures State() == old(State()).(rectangles := rectangles, lines := lines)
    {
      rectangles, lines := keptRects, keptLines;
    }

    /** `text_edit_mode_update`: passes the key to the editor of the text action. */
    method TextEditModeUpdate(e: KeyEvent)
      requires Valid() && action.Some? && action.value.Text?
      modifies action.value.editor
      ensures Valid()
      ensures action.value.editor.State() == Edited(old(action.value.editor.State()), e)
      ensures Typed(old(State()), e, State())
    {
      action.value.editor.Edit(e);
    }

    /** The character keys of `on_key_press_not_edit_mode`: `r`, `l` and `t` set the
        intent, a digit picks the color with that index, and any other character does
        nothing. */
    method OnCharKey(c: char)
      requires Valid()
      modifies this`intent, this`currentColor
      ensures Valid()
      ensures KeyPressed(old(State()), Char(c), State())
    {
      if c == 'r' {
        intent := Intent.Rect;
      } else if c == 'l' {
        intent := Intent.Line;
      } else if c == 't' {
        intent := Intent.Text;
      } else if '0' <= c <= '9' {
        currentColor := DigitColor(c);
      }
    }

    /** `on_key_press_not_edit_mode`: `r`, `l` and `t` set the intent, a digit picks the
        color with that index, and `Delete` deletes under the mouse. */
    method OnKeyPressNotEditMode(code: KeyCode)
      requires Valid()
      modifies this`intent, this`currentColor, this`rectangles, this`lines
      ensures Valid()
      ensures KeyPressed(old(State()), code, State())
    {
      match code {
        case Char(c) =>
          OnCharKey(c);
        case Delete =>
          DeleteUnderPoint(currentMousePos);
        case _ =>
      }
    }

    /** The body of `update`'s event loop for one event. */
    method HandleEvent(e: Event)
      requires Valid()
      modifies this, Editor()
      ensures Valid()
      ensures idProvider >= old(idProvider) && currentMousePos == old(currentMousePos)
      ensures fresh(Editor() - old(Editor()))
      ensures Handled(layout, old(State()), e, State())
    {
      match e {
        case Mouse(mouseEvent) =>
          if mouseEvent.kind == Down(MouseButton.Left) {
            OnLeftMouseButtonDown((mouseEvent.column, mouseEvent.row));
          }
          if mouseEvent.kind == Up(MouseButton.Left) {
            OnMouseLeftUp();
          }
        case Key(keyEvent) =>
          if keyEvent.IsPress() {
            if IsActiveActionText() {
              if IsEnterWithoutAlt(keyEvent) {
                EndTextMode();
              } else {
                TextEditModeUpdate(keyEvent);
              }
            } else {
              OnKeyPressNotEditMode(keyEvent.code);
            }
          }
        case OtherEvent =>
      }
    }

    /** The rectangle half of the live action: a dragged rectangle's top-left corner is
        the mouse minus the grab offset, and a resized one spans its fixed corner and the
        mouse. */
    method MoveLiveRectangle()
      requires Valid()
      modifies this`rectangles
      ensures Valid()
      ensures rectangles == LiveRectangles(old(State()))
    {
      match action {
        case Some(DragRectangle(r, offset)) =>
          if r in rectangles {
            rectangles := rectangles[r := rectangles[r].(rect := rectangles[r].rect.(start := Sub(currentMousePos, offset)))];
          }
        case Some(ResizeRectangle(r, origStart)) =>
          if r in rectangles {
            rectangles := rectangles[r := rectangles[r].Resize(origStart, currentMousePos)];
          }
        case _ =>
      }
    }

    /** The line half of the live action: a dragged line end sits at the mouse. */
    method MoveLiveLineEnd()
      requires Valid()
      modifies this`lines
      ensures Valid()
      ensures lines == LiveLines(old(State()))
    {
      match action {
        case Some(DragLineStart(l)) =>
          if l in lines {
            lines := lines[l := lines[l].(line := lines[l].line.(start := currentMousePos))];
          }
        case Some(DragLineEnd(l)) =>
          if l in lines {
            lines := lines[l := lines[l].(line := lines[l].line.(end := currentMousePos))];
          }
        case _ =>
      }
    }

    /** The live-action step of `update`: a dragged rectangle keeps the grab offset to the
        mouse, a resized one spans its fixed corner and the mouse, and a dragged line end
        sits at the mouse. */
    method ApplyLiveAction()
      requires Valid()
      modifies this`rectangles, this`lines
      ensures Valid()
      ensures rectangles == LiveRectangles(old(State())) && lines == LiveLines(old(State()))
      ensures State() == old(State()).(rectangles := rectangles, lines := lines)
    {
      MoveLiveRectangle();
      MoveLiveLineEnd();
    }

    /** The anchored-line step of `update`, line by line in map order. */
    method FollowAnchors()
      requires Valid()
      modifies this`lines
      ensures Valid()
      ensures lines == FollowedLines(rectangles, old(lines))
      ensures State() == old(State()).(lines := lines)
    {
      var rects, orig := rectangles, lines;
      var followed := orig;
      var todo := orig.Keys;
      while todo != {}
        invariant todo <= followed.Keys == orig.Keys
        invariant forall id :: id in followed ==>
          followed[id] == if id in todo then orig[id] else FollowedLine(rects, orig[id])
        decreases todo
      {
        var id :| id in todo;
        var line := FollowLine(rects, followed[id]);
        followed := followed[id := line];
        todo := todo - {id};
      }
      lines := followed;
    }

    /** The anchored-text step of `update`. */
    method FollowTexts()
      requires Valid()
      modifies this`texts
      ensures Valid()
      ensures texts == FollowedTexts(rectangles, old(texts))
      ensures State() == old(State()).(texts := texts)
    {
      var orig := texts;
      var followed := orig;
      var todo := orig.Keys;
      while todo != {}
        invariant todo <= followed.Keys == orig.Keys
        invariant forall id :: id in followed ==>
          followed[id] == if id in todo then orig[id] else FollowedText(rectangles, orig[id])
        decreases todo
      {
        var id :| id in todo;
        followed := followed[id := FollowedText(rectangles, followed[id])];
        todo := todo - {id};
      }
      texts := followed;
    }

    /** The end of `update`, after the events: the live action is applied, then anchored
        lines and texts follow their rectangles. */
    method SettleFrame()
      requires Valid()
      modifies this`rectangles, this`lines, this`texts
      ensures Valid()
      ensures forall id :: id in lines ==>
        var lo := lines[id];
        && (lo.startAnchorRectId.Some? && lo.startAnchorRectId.value in rectangles ==>
              rectangles[lo.startAnchorRectId.value].rect.IsPointOn(lo.line.start))
        && (lo.endAnchorRectId.Some? && lo.endAnchorRectId.value in rectangles ==>
              rectangles[lo.endAnchorRectId.value].rect.IsPointOn(lo.line.end))
      ensures forall id :: id in texts ==>
        var t := texts[id];
        t.anchorRectId.Some? && t.anchorRectId.value in rectangles ==>
          t.start == rectangles[t.anchorRectId.value].rect.Midpoint()
      ensures State() == Settled(old(State()))
    {
      ghost var before := State();
      ApplyLiveAction();
      FollowAnchors();
      FollowTexts();
      assert State() == Settled(before);
      SettledStaysOnAnchors(before);
    }

    /** The event loop of `update`: each event is handled in turn. `run` is the states the
        loop passes through, for the contract only. */
    method HandleEvents(events: seq<Event>) returns (ghost run: seq<AppState>)
      requires Valid()
      modifies this, Editor()
      ensures Valid()
      ensures HandledAlong(layout, run, events)
      ensures run[0] == old(State()) && run[|run| - 1] == State()
      ensures idProvider >= old(idProvider) && currentMousePos == old(currentMousePos)
      ensures fresh(Editor() - old(Editor()))
    {
      ghost var mouse := currentMousePos;
      run := [State()];
      var k := 0;
      while k < |events|
        invariant 0 <= k <= |events|
        invariant Valid()
        invariant HandledAlong(layout, run, events[..k])
        invariant run[0] == old(State()) && run[k] == State()
        invariant currentMousePos == mouse
        invariant idProvider >= old(idProvider)
        invariant fresh(Editor() - old(Editor()))
      {
        HandleEvent(events[k]);
        HandledAlongExtend(layout, run, events, k, State());
        run := run + [State()];
        k := k + 1;
      }
      assert events[..k] == events;
    }

    /** `update` without drawing: takes the last mouse position of the frame, handles the
        events in order, applies the live action, and makes anchored lines and texts
        follow their rectangles. The editor keeps running. `run` is the states the event
        loop passes through, for the contract only. */
    method Update(events: EventGroup) returns (running: bool, ghost run: seq<AppState>)
      requires Valid()
      modifies this, Editor()
      ensures Valid()
      ensures running
      ensures LastMousePosOf(events.events).Some? ==> currentMousePos == LastMousePosOf(events.events).value
      ensures LastMousePosOf(events.events).None? ==> currentMousePos == old(currentMousePos)
      ensures HandledAlong(layout, run, events.events)
      ensures run[0] == old(State()).(mouse := currentMousePos)
      ensures State() == Settled(run[|run| - 1])
      ensures idProvider >= old(idProvider)
      ensures forall id :: id in lines ==>
        var lo := lines[id];
        && (lo.startAnchorRectId.Some? && lo.startAnchorRectId.value in rectangles ==>
              rectangles[lo.startAnchorRectId.value].rect.IsPointOn(lo.line.start))
        && (lo.endAnchorRectId.Some? && lo.endAnchorRectId.value in rectangles ==>
              rectangles[lo.endAnchorRectId.value].rect.IsPointOn(lo.line.end))
      ensures forall id :: id in texts ==>
        var t := texts[id];
        t.anchorRectId.Some? && t.anchorRectId.value in rectangles ==>
          t.start == rectangles[t.anchorRectId.value].rect.Midpoint()
    {
      var pos := events.LastMousePos();
      if pos.Some? {
        currentMousePos := pos.value;
      }
      run := HandleEvents(events.events);
      SettleFrame();
      return true, run;
    }
  }
}
