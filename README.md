# terge diagram editor — a verified model

terge is a small terminal game/graphics engine written in Rust. Its main application is
`terge_diagrams`, a mouse-driven diagram editor. The user draws rectangles, lines and
multi-line texts; anchors line ends and texts to rectangles; and drags, resizes, re-edits
and deletes them. This project models the editor's state machine (`App`) and the library
code it relies on:
- rectangle and point arithmetic;
- the rectangle/line crossing scan;
- the line-point iterator;
- the text buffer used while typing;
- the per-frame event queries.

It also models three small state machines from the engine's examples: the draw-mode
prototype of the editor and the two pong games.

Every module is one Dafny file:

| file | module | models |
|---|---|---|
| `lib_common.dfy` | `LibCommon` | points, `Arithmetics`, `point_pair_minmax`, `i32` division, `f32` rounding, `as u16` casts |
| `lib_rect.dfy` | `LibRect` | `Rect` and its point predicates |
| `lib_line.dfy` | `LibLine` | `Line`, its ranges and `LinePointsIterator` |
| `lib_intersection.dfy` | `LibIntersection` | `intersection_of_rect_and_line` |
| `event_group.dfy` | `Events` | input events and `EventGroup` |
| `text_editor.dfy` | `TextEditing` | `TextEditor` |
| `diagram_common.dfy` | `DiagramCommon` | `Intent`, `Action`, the anchored intersection, `is_enter_without_alt` |
| `rect_object.dfy`, `line_object.dfy`, `text_object.dfy` | `RectObjects`, `LineObjects`, `TextObjects` | the diagram's objects |
| `diagram_app.dfy` | `DiagramApp` | the editor's `App` |
| `draw_prototype.dfy` | `DrawPrototype` | the draw-mode prototype |
| `pong_rule.dfy`, `pong_u16.dfy`, `pong_i32.dfy` | `PongRule`, `PongU16`, `PongI32` | the pong ball rule and both pong apps |

How the source's state is represented:
- **Things the source changes in place are classes.** Each has fields and `modifies`
  frames:
  - `App` of the editor, of the prototype and of each pong game;
  - `TextEditor`;
  - `LinePointsIterator`.
- **Each method is proved against a function of the old state.** For example,
  `TextEditor.Edit` ensures `State() == Edited(old(State()), event)`. The properties the
  source promises are then proved about that function.
- **Objects stored in the editor's `HashMap`s are values.** `RectObject`, `LineObject` and
  `TextObject` are datatypes, and the maps are `map<Id, _>` fields that the methods
  reassign.
- **Lookups over a `HashMap` have no fixed order.** A lookup that "takes the first match"
  is a loop over the key set that picks the next key with `:|`. Its contract only says
  that the answer is *some* matching key, or that none matches.

The main invariant is `DiagramApp.App.Valid`:
- every stored object's id is between 1 and the id counter and names that object;
- no id is used by two objects;
- rectangles are normalised, meaning a non-negative size with `start` as the min corner;
- every color indexes the 10-entry palette;
- every text has a line;
- the text editor of a text action keeps its cursor on a line.

Every state-changing method keeps this invariant. Its object half is stated on the maps
themselves (`RectanglesValid`, `LinesValid`, `TextsValid`, `IdsDistinct`), so a method that
changes one map re-establishes only that map's part.

The code is followed wherever the code and the design notes differ:
- **A rectangle lookup takes the first match in map order.** It does not take the
  smallest rectangle.
- **Deletion removes a rectangle first, otherwise a line.** It never removes a text.
- **A dragged rectangle is not clamped** to the screen.
- **There is no "drag text" action.**

## Model

| member | source | states |
|---|---|---|
| LibCommon.TruncDiv | terge_lib/src/common.rs:24-26 | Rust `i32` division: the remainder is smaller than the divisor and has the dividend's sign (truncation toward zero) |
| LibCommon.TruncDivUnique | terge_lib/src/common.rs:24-26 | those two remainder conditions determine the truncated quotient uniquely |
| LibCommon.TruncDivOdd | terge_lib/src/common.rs:24-26 | truncated division is odd, `(-a)/d == -(a/d)`, unlike Euclidean division |
| LibCommon.Div | terge_lib/src/common.rs:24-26 | `div` divides each component with truncation toward zero |
| LibCommon.SubAddRoundTrip | terge_lib/src/common.rs:15-22 | `a.sub(b).add(b) == a` and `a.add(b).sub(b) == a` |
| LibCommon.PointPairMinMax | terge_lib/src/common.rs:29-36 | the result is `(min x, min y, max x, max y)`: each is a bound of both points and equals one of them |
| LibCommon.PointPairMinMaxSymmetric | terge_lib/src/common.rs:29-36 | the bounding corners do not depend on the order of the points |
| LibCommon.Round | terge_lib/src/line.rs:55-58 | the rounded integer is within one half of the exact value |
| LibCommon.SatU16 | terge_lib/src/line.rs:55-58 | definition of the float-to-`u16` cast: in-range values are kept, values below 0 give 0 and values above 65535 give 65535 |
| LibRect.Rect.Midpoint | terge_lib/src/rect.rs:37-39 | the midpoint of a normalised rectangle is on the rectangle |
| LibRect.NewFromUnorderedPoints | terge_lib/src/rect.rs:11-17 | the result is normalised, starts at the componentwise minimum, ends at the componentwise maximum and contains both points |
| LibRect.NewFromUnorderedPointsSymmetric | terge_lib/src/rect.rs:11-17 | swapping the two points gives the same rectangle |
| LibRect.HeaderIsOnRect | terge_lib/src/rect.rs:19-28 | on a normalised rectangle, a header point is on the rectangle |
| LibRect.InsideIsOnRect | terge_lib/src/rect.rs:23-35 | an inside point is on the rectangle, and no point is inside a rectangle with a side shorter than 2 |
| LibRect.EndIsOnRect | terge_lib/src/rect.rs:23-28 | both corners of a normalised rectangle are on it |
| LibLine.DegenerateIffSamePoint | terge_lib/src/line.rs:18-22 | the major coordinates of the endpoints agree exactly when the endpoints are the same point |
| LibLine.PointAt | terge_lib/src/line.rs:53-58 | the point yielded for major coordinate `m` has major coordinate `m` |
| LibLine.PointsFromShape | terge_lib/src/line.rs:37-85 | from counter `i` the iterator yields `CountFrom(i)` points, the k-th at major coordinate `i + step * k` |
| LibLine.LinePointsShape | terge_lib/src/line.rs:14-85 | a `u16` segment yields nothing if degenerate, `b - a + 1` points upward, `a - max(b, 1) + 1` downward, each at its expected major coordinate |
| LibLine.DegenerateLineHasNoPoints | terge_lib/src/line.rs:109-116 | a single-point segment yields nothing, so its own point is not on it |
| LibLine.FirstPointStartsAtLhs | terge_lib/src/line.rs:14-38 | any other segment yields a point, and the first has `lhs`'s major coordinate |
| LibLine.ConsecutivePointsStepByOne | terge_lib/src/line.rs:46-75 | consecutive points differ by exactly one on the major axis, in the direction of `rhs` |
| LibLine.MajorCoordinatesInRange | terge_lib/src/line.rs:40-75 | every major coordinate lies between the endpoints' ones, and a downward walk never yields 0 |
| LibLine.LastPointReachesRhs | terge_lib/src/line.rs:40-75 | the sequence has one point more than the major distance and ends at `rhs`'s major coordinate, except that a downward walk to 0 stops at 1 |
| LibLine.Line.XRange | terge_lib/src/line.rs:101-103 | the x range is the endpoints' x coordinates, smaller first |
| LibLine.Line.YRange | terge_lib/src/line.rs:105-107 | the y range is the endpoints' y coordinates, smaller first |
| LibLine.RangesIgnoreDirection | terge_lib/src/line.rs:101-107 | swapping the endpoints does not change either range |
| LibLine.Line.Iter | terge_lib/src/line.rs:118-120 | `iter` returns a fresh iterator whose remaining points are the line's points |
| LibLine.Line.IsPointOn | terge_lib/src/line.rs:109-116 | `is_point_on(p)` holds exactly when `p` is among the iterator's points |
| LibLine.PointsWithinMajorRange | terge_lib/src/line.rs:40-75 | each point of a `u16` line lies in the line's range along the major axis |
| LibLine.MajorOfPoint | terge_lib/src/line.rs:37-85 | every point a `u16` line yields is the point at some major coordinate between the endpoints' ones |
| LibLine.NextWithU16Counter | terge_lib/src/line.rs:37-59 | one `next` with the counter kept as a `u16`, `i += 1` wrapping: a yielded point has the old counter as its major coordinate |
| LibLine.FullWidthWalkNeverEnds | terge_lib/src/line.rs:44-47 | on the line from (0, 0) to (65535, 0), every `u16` counter yields a point and leaves a `u16` counter, and the counter after 65535 is 0, the walk's start again |
| LibLine.HorizontalLineStaysOnItsRow | terge_lib/src/line.rs:55-59 | every point of a horizontal line is on its row, so a point on another row is never found |
| LibLine.FlatMinorCoordinate | terge_lib/src/line.rs:55-57 | with no difference on the minor axis, the computed minor coordinate is the start's |
| LibLine.LinePointsIterator.constructor | terge_lib/src/line.rs:14-31 | a new iterator will yield exactly `LinePoints(lhs, rhs)` |
| LibLine.LinePointsIterator.Next | terge_lib/src/line.rs:37-85 | `next` yields the first remaining point and drops it, or `None` once nothing remains |
| LibIntersection.FractionInUnit | terge_lib/src/common.rs:43-72 | a coordinate within the line's span is a fraction between 0 and 1 of it |
| LibIntersection.ScaledWithinSpan | terge_lib/src/common.rs:43-72 | a fraction in [0, 1] of a span, added to a base, stays between the base and base + span |
| LibIntersection.RoundBetween | terge_lib/src/common.rs:45 | rounding keeps a value between two integers between them |
| LibIntersection.RoundedScaleWithinSpan | terge_lib/src/common.rs:43-72 | the same after rounding |
| LibIntersection.LerpWithinSpan | terge_lib/src/common.rs:43-72 | the rounded slope equation lands between the two endpoints' coordinates, whatever the rounding |
| LibIntersection.MinorCoordinateIsLerp | terge_lib/src/line.rs:55-57 | the iterator's `slope * (x - lhs.x) + lhs.y` is the rounded interpolation the crossing formulas use, saturated to `u16` |
| LibIntersection.MinorCoordinateWithinSpan | terge_lib/src/line.rs:55-57 | for a major coordinate within the line's span, the minor coordinate lies between the endpoints' ones |
| LibIntersection.PointsWithinLineBox | terge_lib/src/line.rs:37-85 | every point of a `u16` line lies in both its x range and its y range |
| LibIntersection.HorizontalEdgeHit | terge_lib/src/common.rs:42-57 | a top or bottom point is emitted exactly when the line's y range contains the edge and the crossing lies within the edge; it lies on the edge |
| LibIntersection.VerticalEdgeHit | terge_lib/src/common.rs:59-74 | a left or right point is emitted exactly when the line's x range contains the edge and the crossing lies within the edge; it lies on the edge |
| LibIntersection.IntersectionOfRectAndLine | terge_lib/src/common.rs:38-77 | at most four points, top, bottom, left, right in order, each on the border of a normalised rectangle |
| LibIntersection.HorizontalHitInLineBox | terge_lib/src/common.rs:42-57 | a top or bottom crossing of a line that is not horizontal lies in the line's bounding box |
| LibIntersection.VerticalHitInLineBox | terge_lib/src/common.rs:59-74 | a left or right crossing of a line that is not vertical lies in the line's bounding box |
| LibIntersection.SlopedCrossingsInLineBox | terge_lib/src/common.rs:38-77 | for a line neither horizontal nor vertical, every crossing lies in the line's bounding box |
| LibIntersection.VerticalLineCrossesAtItsColumn | terge_lib/src/common.rs:42-48 | a vertical line meets a horizontal edge at its own column |
| LibIntersection.HorizontalLineOnTopEdge | terge_lib/src/common.rs:42-48 | a horizontal line along the top edge yields `(0, top)`, whatever its own columns (the quotient is NaN, cast to 0) |
| Events.FirstCharOf | terge_lib/src/event_group.rs:13-24 | the character of the earliest `Char` key event, of any kind, or `None` exactly when there is none |
| Events.LastMousePosOf | terge_lib/src/event_group.rs:40-48 | `(column, row)` of the last mouse event, or `None` exactly when there is no mouse event; always within `u16` |
| Events.EventGroup.FirstPressedChar | terge_lib/src/event_group.rs:13-24 | the forward scan returns `FirstCharOf(events)` |
| Events.EventGroup.DidPressKey | terge_lib/src/event_group.rs:26-38 | true exactly when some key event has the code |
| Events.EventGroup.LastMousePos | terge_lib/src/event_group.rs:40-48 | the backward scan returns `LastMousePosOf(events)` |
| Events.LastMousePosAppend | terge_lib/src/event_group.rs:40-48 | events without a mouse event keep the last position; a final mouse event decides it |
| Events.LastMousePosStep | terge_lib/src/event_group.rs:40-48 | one step of the backward scan: a final mouse event decides the position, any other final event is skipped |
| Events.FirstCharAppend | terge_lib/src/event_group.rs:13-24 | the first character of a concatenation comes from its first part when that has one |
| TextEditing.Edited | terge_diagrams/src/text_editor.rs:24-45 | an edit keeps the cursor on a line, changes the line count by at most one and keeps the lines above the cursor |
| TextEditing.JoinedAppend | terge_diagrams/src/text_editor.rs:24-45 | the text of two runs of lines is the text of the first followed by that of the second |
| TextEditing.JoinedAround | terge_diagrams/src/text_editor.rs:24-45 | the text is what comes before line `i`, line `i`, and what comes after |
| TextEditing.CharThenBackspace | terge_diagrams/src/text_editor.rs:26-30 | typing a character and then `Backspace` restores the editor |
| TextEditing.AltEnterThenBackspace | terge_diagrams/src/text_editor.rs:29-41 | `Alt+Enter` followed by `Backspace` restores the editor |
| TextEditing.CharAddsOneCharacter | terge_diagrams/src/text_editor.rs:26-28 | a `Char` keeps the line count and adds exactly one character to the text |
| TextEditing.BackspaceRemovesAtMostOne | terge_diagrams/src/text_editor.rs:29-36 | `Backspace` never adds a line and removes at most one character |
| TextEditing.BackspaceStopsAtFirstLine | terge_diagrams/src/text_editor.rs:29-36 | `Backspace` on an empty first line changes nothing |
| TextEditing.TextEditor.New | terge_diagrams/src/text_editor.rs:10-15 | one empty line, the cursor at the origin |
| TextEditing.TextEditor.NewWithLines | terge_diagrams/src/text_editor.rs:17-22 | the given lines, the cursor on the last one; the caller must pass at least one line |
| TextEditing.TextEditor.Edit | terge_diagrams/src/text_editor.rs:24-45 | the new state is `Edited` of the old one, the cursor stays on a line and its column does not change |
| DiagramCommon.Action.ToStringShort | terge_diagrams/src/common.rs:70-80 | the label is `"text"` exactly for the text action (`is_text`, 63-68) |
| DiagramCommon.LabelsIdentifyKind | terge_diagrams/src/common.rs:70-80 | two actions have the same label exactly when they are the same variant, so the seven labels are distinct |
| DiagramCommon.FirstInLineBox | terge_diagrams/src/common.rs:84-92 | the first candidate in the line's bounding box, or `None` exactly when no candidate is in it |
| DiagramCommon.IntersectionOfRectAndAnchoredLine | terge_diagrams/src/common.rs:83-93 | the loop returns the first crossing, in the order top, bottom, left, right, that lies in the line's ranges |
| DiagramCommon.AnchorPointOnBorder | terge_diagrams/src/common.rs:83-93 | an anchor point lies on the rectangle's border and within the line's ranges |
| DiagramCommon.SlopedAnchorIsFirstCrossing | terge_diagrams/src/common.rs:83-93 | for a sloped line the filter never rejects, so the anchor is the first crossing |
| DiagramCommon.EnterCommitsOrOpensLine | terge_diagrams/src/common.rs:100-102 | `Enter` without `Alt` is exactly the `Enter` the editor ignores; any other `Enter` adds a line |
| RectObjects.RectObject.Resize | terge_diagrams/src/rect.rs:19-24 | the new rectangle is the normalised box of the two corners and contains both; id and color are kept |
| RectObjects.ResizeSymmetric | terge_diagrams/src/rect.rs:19-24 | `resize(a, b)` and `resize(b, a)` give the same object |
| RectObjects.ResizeToOwnCornersIsIdentity | terge_diagrams/src/rect.rs:19-24 | resizing a normalised rectangle to its own corners changes nothing |
| RectObjects.ResizeKeepsHandle | terge_diagrams/src/rect.rs:19-28 | a corner dragged down and right becomes the resize handle, and the fixed corner the start |
| RectObjects.HandlesAreOnRect | terge_diagrams/src/rect.rs:26-32 | the resize corner and the header of a normalised rectangle lie on it |
| LineObjects.NewLineObject | terge_diagrams/src/line.rs:14-22 | definition of `LineObject::new`: the id, line and color as given, and neither end anchored |
| TextObjects.TextObject.IsEditPoint | terge_diagrams/src/text.rs:33-52 | the loop answers `EditPoint`: some line's cells, up to one past its end, but never the first line's start |
| TextObjects.FirstLineStartIsNotEditPoint | terge_diagrams/src/text.rs:33-52 | the first line's start is never an edit point, and a text without lines has none |
| TextObjects.LineCellsAreEditPoints | terge_diagrams/src/text.rs:39-48 | every other cell of a line, one past its end included, is an edit point |
| TextObjects.AlignmentFollowsAnchor | terge_diagrams/src/text.rs:61-76 | the alignment is centred exactly when the text is anchored, and moving the text does not change it |
| DiagramApp.FindKey | terge_diagrams/src/app.rs:151-178 | a lookup returns some key whose object matches, or `None` exactly when none matches |
| DiagramApp.RemoveFirstRectOn | terge_diagrams/src/app.rs:268-275 | exactly one rectangle containing the point is removed when there is one; otherwise nothing is |
| DiagramApp.RemoveFirstLineOn | terge_diagrams/src/app.rs:282-289 | exactly one line through the point is removed when there is one; otherwise nothing is |
| DiagramApp.RemoveUnder | terge_diagrams/src/app.rs:265-294 | a rectangle containing the point goes if there is one, else a line through it (`DeletedUnder`); every object that stays is unchanged |
| DiagramApp.DeletedUnderRemovesAtMostOne | terge_diagrams/src/app.rs:265-294 | deletion removes at most one object, never adds one, and removes nothing exactly when no rectangle contains the point and no line passes through it |
| DiagramApp.SnapStart | terge_diagrams/src/app.rs:461-471 | following the start anchor moves only the start, never the end, id, color or anchors |
| DiagramApp.SnapEnd | terge_diagrams/src/app.rs:473-483 | following the end anchor moves only the end |
| DiagramApp.SnapStartOnAnchor | terge_diagrams/src/app.rs:461-471 | a start anchored to an existing rectangle ends on that rectangle; an unanchored start is left alone |
| DiagramApp.SnapEndOnAnchor | terge_diagrams/src/app.rs:473-483 | the same for the end |
| DiagramApp.FollowedLineStaysOnAnchors | terge_diagrams/src/app.rs:460-484 | after following, each anchored end lies on its rectangle, unanchored ends stay put and id, color and anchors are unchanged |
| DiagramApp.FollowLineStart | terge_diagrams/src/app.rs:461-471 | the start goes to the rectangle's midpoint, then to the first crossing if there is one (`SnapStart`) |
| DiagramApp.FollowLineEnd | terge_diagrams/src/app.rs:473-483 | the same for the end (`SnapEnd`) |
| DiagramApp.FollowLine | terge_diagrams/src/app.rs:460-484 | the start follows first, then the end, which sees the new start |
| DiagramApp.FollowedText | terge_diagrams/src/app.rs:486-494 | definition of one text's step: an anchored text moves to its rectangle's midpoint; everything else about it, and any text whose anchor is missing, is unchanged (what this guarantees is `FollowedTextOnRect`) |
| DiagramApp.FollowedTextOnRect | terge_diagrams/src/app.rs:486-494 | a text that followed a normalised rectangle lies on it |
| DiagramApp.DigitColor | terge_diagrams/src/app.rs:310 | a digit key selects a color inside the 10-entry palette, and `0` selects the first |
| DiagramApp.HandledKeepsMouseAndIds | terge_diagrams/src/app.rs:406-431 | handling one event leaves the mouse where it is, hands out at most one id, and keeps every id on the canvas at or below the counter |
| DiagramApp.PressedKeepsMouseAndIds | terge_diagrams/src/app.rs:226-259 | a left press hands out no id, leaves the rectangles and the set of lines as they are, and only ever removes a text |
| DiagramApp.ReleasedKeepsMouseAndIds | terge_diagrams/src/app.rs:62-110 | a left release hands out at most one id and keeps every id issued |
| DiagramApp.KeyPressedKeepsMouseAndIds | terge_diagrams/src/app.rs:304-316 | a key press outside text mode hands out no id, keeps the texts and only ever removes rectangles or lines |
| DiagramApp.HandledAlongExtend | terge_diagrams/src/app.rs:406-431 | handling the next event extends a run of the loop over a prefix of the events to a run over one event more |
| DiagramApp.HandledAlongKeepsMouseAndIds | terge_diagrams/src/app.rs:406-431 | along a whole run of the loop the mouse stays where it was, the counter never goes back and ids stay issued |
| DiagramApp.CommittedAddsOneText | terge_diagrams/src/app.rs:112-127 | Enter while typing adds exactly one text, under an id not yet on the canvas |
| DiagramApp.SettledStaysOnAnchors | terge_diagrams/src/app.rs:433-494 | after the per-frame steps the rectangles are still normalised, every anchored line end lies on its rectangle and every anchored text sits at its rectangle's midpoint |
| DiagramApp.LiveActionTouchesOnlyItsObject | terge_diagrams/src/app.rs:433-458 | the live action keeps every id and changes only the rectangle being dragged or resized, or the line whose end is dragged |
| DiagramApp.App.constructor | terge_diagrams/src/app.rs:26-37 | an empty canvas, no action, the rectangle intent, color 0, mouse at (-1, -1); the invariant holds |
| DiagramApp.App.GetId | terge_diagrams/src/app.rs:39-42 | the counter is pre-incremented, and the id returned names no stored object |
| DiagramApp.App.StartAction | terge_diagrams/src/app.rs:44-60 | nothing changes while an action is active; otherwise a line, rectangle or text action, with a fresh empty editor, starts from the point as the intent says |
| DiagramApp.App.UpdateLineStartAnchor | terge_diagrams/src/app.rs:129-138 | only the line's start anchor changes, to some rectangle containing the start or to `None` when none does |
| DiagramApp.App.UpdateLineEndAnchor | terge_diagrams/src/app.rs:140-149 | the same for the end anchor |
| DiagramApp.App.RectangleHeaderUnderPoint | terge_diagrams/src/app.rs:151-159 | some rectangle whose header is under the point, or `None` exactly when there is none |
| DiagramApp.App.RectangleResizePointUnderPoint | terge_diagrams/src/app.rs:161-169 | some rectangle whose resize corner is the point, or `None` exactly when there is none |
| DiagramApp.App.RectangleUnderPoint | terge_diagrams/src/app.rs:171-179 | some rectangle containing the point, or `None` exactly when there is none |
| DiagramApp.App.IsTextEditableAt | terge_diagrams/src/app.rs:181-190 | an anchored text is edited from its rectangle's interior, any other from its own edit points |
| DiagramApp.App.TextUnderPoint | terge_diagrams/src/app.rs:192-199 | some text editable at the point, or `None` exactly when there is none |
| DiagramApp.App.LineWithStartUnderPoint | terge_diagrams/src/app.rs:201-208 | some line starting at the point, or `None` exactly when there is none |
| DiagramApp.App.LineWithEndUnderPoint | terge_diagrams/src/app.rs:210-217 | some line ending at the point, or `None` exactly when there is none |
| DiagramApp.App.AnchorBothEnds | terge_diagrams/src/app.rs:79-80 | only the line's two anchors change, each to some rectangle containing that end or to `None` |
| DiagramApp.App.AddLine | terge_diagrams/src/app.rs:64-83 | exactly one new line from the start to the mouse, under a fresh id with the current color, each end anchored to a rectangle containing it or to none |
| DiagramApp.App.AddRectangle | terge_diagrams/src/app.rs:84-96 | exactly one new rectangle, the normalised box of the start and the mouse, under a fresh id with the current color |
| DiagramApp.App.FinishDrawing | terge_diagrams/src/app.rs:64-96 | a line or rectangle being drawn becomes that object and the action ends |
| DiagramApp.App.FinishDrag | terge_diagrams/src/app.rs:97-107 | a dragged line end is re-anchored, and every drag or resize ends |
| DiagramApp.App.OnMouseLeftUp | terge_diagrams/src/app.rs:62-110 | a line or rectangle is committed, a dragged line end re-anchored, drags and resizes end; a text action or no action is left as it was |
| DiagramApp.App.EndTextMode | terge_diagrams/src/app.rs:112-127 | the typed lines become one new text under a fresh id, anchored to a rectangle under its start or to none; no action remains |
| DiagramApp.App.GrabLineStart | terge_diagrams/src/app.rs:232-236 | only the grabbed line's start anchor is cleared, and its start is dragged |
| DiagramApp.App.GrabLineEnd | terge_diagrams/src/app.rs:237-241 | only the grabbed line's end anchor is cleared, and its end is dragged |
| DiagramApp.App.ReopenText | terge_diagrams/src/app.rs:242-250 | the text leaves the canvas and its start and lines go into a fresh editor |
| DiagramApp.App.PressOnCanvas | terge_diagrams/src/app.rs:251-258 | a header starts a drag that keeps the grab offset; otherwise a new action starts at the event's cell |
| DiagramApp.App.PressAwayFromLineEnds | terge_diagrams/src/app.rs:242-258 | a text editable under the mouse is reopened; otherwise the header and canvas steps run |
| DiagramApp.App.PressAwayFromResizeHandles | terge_diagrams/src/app.rs:232-258 | a line start, then a line end, is grabbed; otherwise the later steps run |
| DiagramApp.App.OnLeftMouseButtonDown | terge_diagrams/src/app.rs:226-259 | strict precedence: resize corner, line start, line end, editable text, header, new action; only the first applies |
| DiagramApp.App.DeleteUnderPoint | terge_diagrams/src/app.rs:265-294 | `DeletedUnder` of the old rectangles and lines: one rectangle containing the point is removed if there is one, else one line through it; nothing else in the state changes, so texts are never removed and anchors are left dangling |
| DiagramApp.App.TextEditModeUpdate | terge_diagrams/src/app.rs:296-302 | the key goes to the text action's editor, as `Edited` says |
| DiagramApp.App.OnCharKey | terge_diagrams/src/app.rs:306-312 | `KeyPressed` for a character: `r`, `l` and `t` set the intent, a digit sets the color, any other character changes nothing |
| DiagramApp.App.OnKeyPressNotEditMode | terge_diagrams/src/app.rs:304-316 | `KeyPressed` of the old state: `r`, `l` and `t` set the intent, a digit sets the color, `Delete` is `DeletedUnder` at the mouse position, and every other key changes nothing |
| DiagramApp.App.HandleEvent | terge_diagrams/src/app.rs:406-431 | `Handled` of the old state and the event: a left press is `Pressed`, a left release `Released`; a key press while typing is `Committed` (Enter without Alt) or `Typed`, otherwise `KeyPressed`; every other event and every key release or repeat leaves the state as it was |
| DiagramApp.App.HandleEvents | terge_diagrams/src/app.rs:406-431 | the loop over the frame's events: the states it passes through form a run of `Handled` from the old state to the new one |
| DiagramApp.App.MoveLiveRectangle | terge_diagrams/src/app.rs:434-450 | the rectangles become `LiveRectangles` of the old state: a dragged rectangle starts at the mouse minus the offset, unclamped, and a resized one is the box of its fixed corner and the mouse |
| DiagramApp.App.MoveLiveLineEnd | terge_diagrams/src/app.rs:451-458 | the lines become `LiveLines` of the old state: a dragged line end sits at the mouse |
| DiagramApp.App.ApplyLiveAction | terge_diagrams/src/app.rs:434-458 | both halves of the live action, and no other part of the state changes |
| DiagramApp.App.FollowAnchors | terge_diagrams/src/app.rs:460-484 | every line is replaced by `FollowedLine` of it, and no other part of the state changes |
| DiagramApp.App.FollowTexts | terge_diagrams/src/app.rs:486-494 | every text is replaced by `FollowedText` of it, and no other part of the state changes |
| DiagramApp.App.SettleFrame | terge_diagrams/src/app.rs:433-494 | the new state is `Settled` of the old one (live action, then lines, then texts), so every anchored line end and every anchored text lies on its rectangle |
| DiagramApp.App.Update | terge_diagrams/src/app.rs:400-497 | the mouse position becomes the frame's last mouse event (or stays); from there the events are handled in order as a run of `Handled`, and the new state is `Settled` of the run's last state; ids only grow and anchored ends and texts lie on their rectangles |
| DrawPrototype.Started | examples/diagrams.rs:35-50 | definition of a start request: refused while an action is recorded or when the intent is `Nothing`; otherwise records the intent and start |
| DrawPrototype.StepKeepsValid | examples/diagrams.rs:99-120 | an event never makes the intent `Nothing`, so no recorded mode is `Nothing` |
| DrawPrototype.RunKeepsValid | examples/diagrams.rs:99-120 | a frame keeps that invariant, so the arm at line 91 is never reached |
| DrawPrototype.RunIntent | examples/diagrams.rs:110-115 | only key events change the intent, and only to `Rect` or `Line` |
| DrawPrototype.ReleaseEndsDrawing | examples/diagrams.rs:99-120 | a frame ending in a left release leaves nothing recorded |
| DrawPrototype.RunAppend | examples/diagrams.rs:99-120 | running two frames equals running their events together |
| DrawPrototype.App.constructor | examples/diagrams.rs:27-33 | nothing recorded, rectangle intent, mouse at (-1, -1) |
| DrawPrototype.App.StartDrawMode | examples/diagrams.rs:35-50 | the new state is `Started` of the old one |
| DrawPrototype.App.EndDrawMode | examples/diagrams.rs:52-54 | the recorded action is cleared unconditionally; nothing else changes |
| DrawPrototype.App.Update | examples/diagrams.rs:98-128 | the events are handled in order (`Run`), the invariant is kept and the mouse position becomes the last mouse event's, after the loop |
| PongRule.NextVelocity | terge_lib/examples/pong.rs:37-42 | definition of the bounce: a component flips exactly when the next coordinate is at or beyond a wall (what this guarantees is `NextVelocityIsUnit`) |
| PongRule.NextVelocityIsUnit | terge_lib/examples/pong.rs:37-42 | flipping keeps a component in {-1, 1} |
| PongRule.NextPositionInPlay | terge_lib/examples/pong.rs:37-44 | with at least three cells, a ball strictly between the walls stays there |
| PongRule.NextPositionMovesOneCell | terge_lib/examples/pong.rs:43-44 | the ball moves exactly one cell per axis each step |
| PongRule.CentreInPlay | terge_lib/examples/pong.rs:49-56 | the centre is strictly between the walls |
| PongU16.WrapU16 | terge_lib/examples/pong.rs:43-44 | `as u16` keeps in-range values and is congruent modulo 65536 |
| PongU16.App.constructor | terge_lib/examples/pong.rs:16-18 | every field zero |
| PongU16.App.Reset | terge_lib/examples/pong.rs:49-56 | pad and ball at the centre, velocity (1, 1), the ball strictly between the side walls |
| PongU16.App.MoveBall | terge_lib/examples/pong.rs:34-44 | x flips at 0 or the width, y at 0 or height - 1; the ball moves by the new velocity, which stays a unit velocity, and stays in play |
| PongU16.App.Update | terge_lib/examples/pong.rs:29-47 | the pad follows the last mouse column, if any, then the ball moves as `MoveBall` says |
| PongI32.App.constructor | examples/pong.rs:17-19 | every field zero |
| PongI32.App.Reset | examples/pong.rs:50-57 | pad and ball at the centre, velocity (1, 1), the ball strictly between the side walls |
| PongI32.App.MoveBall | examples/pong.rs:35-45 | the same rule on `i32` coordinates, without narrowing |
| PongI32.App.Update | examples/pong.rs:30-48 | the pad follows the last mouse column, if any, then the ball moves |

## Left out

- Drawing is left out: `App::draw`, `current_color_code`, the `draw` of texts and of the examples, the `COLORS` ANSI codes, and `gfx.rs`. These only write to the terminal.
- The run loop is left out: `lib.rs` and `src/lib.rs`, the input thread, frame pacing and terminal setup are I/O and concurrency.
  - `update` is modelled without its `Gfx` argument.
  - The screen width and height that the pong games read from `Gfx` are parameters. They are `u16` in the library, and plain natural numbers for the earlier example, whose `Gfx` has no such fields.
- Logging calls are left out.
- Key codes other than a character, Backspace, Enter, Delete and Esc are `OtherKey(n)`, with one number per key. Their names are left out, because the modelled code only compares them (`did_press_key`) and otherwise ignores them.
- `terge_jump`, the counter examples, `main.rs` and `freehand.rs` are not part of this model.
- Integer widths are left out. The model's integers are unbounded, and `u64` ids, `usize` indices and `i32` coordinates are not wrapped.
  - The exception is pong's `as u16` cast on the ball position, which is modelled with `WrapU16`.
  - LibLine.LinePointsIterator.Next: the counter is unbounded, so an upward walk stops after yielding 65535. The source's `u16` counter overflows there instead; see "## Findings". `LinePointsShape`, `LastPointReachesRhs` and the iterator follow the walk that stops.
- `f32` arithmetic is modelled exactly. A slope-based coordinate is computed on exact rationals and rounded half away from zero, and the cast to `u16` saturates. The zero-denominator cases (`0/0` and `inf * 0` are NaN, and NaN casts to 0) are written out as coordinate 0.
  - Every proved property holds whatever the rounding does, as long as the rounded value stays within one half of the exact value.
  - `Line::slope` is folded into the crossing formulas.
- `multiline_text_line_start` is not part of this model. It is the abstract function value `layout` held by `App`.
  - TextObjects.TextObject.LineStart states only the alignment choice.
- Text lengths are counted in characters. The source's `len()` counts UTF-8 bytes, so the two differ for non-ASCII text.
- `HashMap` order is left out. Every "first match" returns some match, never a particular one.
- Updates in place are not modelled as such. `iter_mut`, `get_mut` and `retain` over the stores become the reassignment of a `map` field, so aliasing of the stored objects is not modelled.
- `TextObject::new` and `RectObject::new` store their arguments unchanged and are the datatype constructors. `is_active_action_text` is the predicate `App.IsActiveActionText`, and `is_text` is `Action.IsText`; neither has a contract of its own.
- The editor's state is also seen as a value, `DiagramApp.AppState`, and each event's effect is a relation between two such values (`Handled`, built from `Pressed`, `Released`, `Committed`, `Typed` and `KeyPressed`). A text action appears in it as its start and the editor's lines and cursor row. The cursor column is not part of it, because the source never reads it.
- A "first match" over a `HashMap` appears in these relations as "some match", so a relation allows every choice the map order could make.
- DiagramApp.App.EndTextMode takes the action and then clears it again, as the source does. The two steps are one in the model.

## Findings

| source | as written | input that shows it | evidently intended | confidence | as-written member | corrected member |
|---|---|---|---|---|---|---|
| terge_lib/src/line.rs:44-47 | an upward walk takes `x = i` and then does `i += 1` on the `u16` counter, so the call that yields major coordinate 65535 overflows: a debug build panics, a release build wraps the counter to 0, and when the walk started at 0 the range test passes again and the walk repeats | `Line { start: (0, 0), end: (65535, 0) }.is_point_on((5, 3))`: (5, 3) is never yielded and the walk never ends | the walk yields 65535 as its last point and then stops | not executed; follows from the declared `u16` type | LibLine.FullWidthWalkNeverEnds (with LibLine.NextWithU16Counter and LibLine.HorizontalLineStaysOnItsRow) | LibLine.LastPointReachesRhs (the walk of LibLine.PointsFrom that LibLine.LinePointsIterator.Next follows) |

