/** The early draw-mode prototype of the diagram editor: a left press starts drawing a
    line or a rectangle, chosen earlier with the `l` and `r` keys; a left release ends it. */
module DrawPrototype {
  import opened LibCommon
  import opened Events

  datatype DrawMode = Nothing | Line | Rect

  /** `DrawAction`: what is being drawn and from where. */
  datatype DrawAction = DrawAction(mode: DrawMode, start: Point)

  /** The part of the prototype's state its events change. */
  datatype DrawState = DrawState(details: Option<DrawAction>, intent: DrawMode) {
    /** The intent is never `Nothing`, so neither is the mode of a recorded action: the arm
        of `draw` that rejects a `Nothing` action is unreachable. */
    predicate Valid() {
      intent != Nothing && (details.Some? ==> details.value.mode != Nothing)
    }
  }

  /** `start_draw_mode` on values: refused while an action is recorded or when there is
      no intent; otherwise records the intent and the start. */
  function Started(s: DrawState, start: Point): (r: DrawState)
    ensures r.intent == s.intent
    ensures s.details.Some? || s.intent == Nothing ==> r == s
    ensures s.details.None? && s.intent != Nothing ==> r.details == Some(DrawAction(s.intent, start))
  {
    if s.details.Some? then s
    else if s.intent == Nothing then s
    else s.(details := Some(DrawAction(s.intent, start)))
  }

  /** One event of `update`'s loop: a left press starts drawing at the event's cell, a
      left release ends drawing, and a pressed `r` or `l` sets the intent. */
  function Step(s: DrawState, e: Event): (r: DrawState) {
    match e
    case Mouse(m) =>
      var afterDown := if m.kind == Down(MouseButton.Left) then Started(s, (m.column, m.row)) else s;
      if m.kind == Up(MouseButton.Left) then afterDown.(details := None) else afterDown
    case Key(k) =>
      if !k.IsPress() then s
      else if k.code == Char('r') then s.(intent := Rect)
      else if k.code == Char('l') then s.(intent := Line)
      else s
    case OtherEvent => s
  }

  /** The state after the events of one frame, in order. */
  function Run(s: DrawState, events: seq<Event>): DrawState {
    if |events| == 0 then s else Step(Run(s, events[..|events| - 1]), events[|events| - 1])
  }

  /** A step keeps the state valid. */
  lemma StepKeepsValid(s: DrawState, e: Event)
    requires s.Valid()
    ensures Step(s, e).Valid()
  {
  }

  /** A frame keeps the state valid. */
  lemma {:induction false} RunKeepsValid(s: DrawState, events: seq<Event>)
    requires s.Valid()
    ensures Run(s, events).Valid()
    decreases |events|
  {
    if |events| > 0 {
      RunKeepsValid(s, events[..|events| - 1]);
      StepKeepsValid(Run(s, events[..|events| - 1]), events[|events| - 1]);
    }
  }

  /** Only key presses change the intent, and only to `Rect` or `Line`. */
  lemma {:induction false} RunIntent(s: DrawState, events: seq<Event>)
    ensures Run(s, events).intent == s.intent || Run(s, events).intent in {Rect, Line}
    ensures (forall i :: 0 <= i < |events| ==> !events[i].Key?) ==> Run(s, events).intent == s.intent
    decreases |events|
  {
    if |events| > 0 {
      RunIntent(s, events[..|events| - 1]);
    }
  }

  /** A frame ending in a left release leaves nothing being drawn. */
  lemma ReleaseEndsDrawing(s: DrawState, events: seq<Event>)
    requires |events| > 0 && events[|events| - 1].Mouse? && events[|events| - 1].mouse.kind == Up(MouseButton.Left)
    ensures Run(s, events).details.None?
  {
  }

  /** Running two frames is running their events in one. */
  lemma {:induction false} RunAppend(s: DrawState, a: seq<Event>, b: seq<Event>)
    ensures Run(s, a + b) == Run(Run(s, a), b)
    decreases |b|
  {
    if |b| == 0 {
      assert a + b == a;
    } else {
      assert (a + b)[..|a + b| - 1] == a + b[..|b| - 1];
      RunAppend(s, a, b[..|b| - 1]);
    }
  }

  class App {
    var drawModeDetails: Option<DrawAction>
    var drawModeIntent: DrawMode
    var currentMousePos: Point

    ghost function State(): DrawState
      reads this
    {
      DrawState(drawModeDetails, drawModeIntent)
    }

    /** `App::new`: nothing drawn, rectangles intended, the mouse off screen. */
    constructor()
      ensures drawModeDetails == None && drawModeIntent == Rect && currentMousePos == (-1, -1)
      ensures State().Valid()
    {
      drawModeDetails := None;
      drawModeIntent := Rect;
      currentMousePos := (-1, -1);
    }

    /** `start_draw_mode`. */
    method StartDrawMode(start: Point)
      modifies this
      ensures State() == Started(old(State()), start)
      ensures currentMousePos == old(currentMousePos)
    {
      if drawModeDetails.Some? {
        return;
      }
      if drawModeIntent == Nothing {
        return;
      }
      drawModeDetails := Some(DrawAction(drawModeIntent, start));
    }

    /** `end_draw_mode`: clears the recorded action, whatever it was. */
    method EndDrawMode()
      modifies this
      ensures drawModeDetails == None
      ensures drawModeIntent == old(drawModeIntent) && currentMousePos == old(currentMousePos)
    {
      drawModeDetails := None;
    }

    /** `update`: handles the frame's events in order, then moves the mouse position to
        the last mouse event's cell, if there was one. */
    method Update(events: EventGroup) returns (running: bool)
      modifies this
      ensures running
      ensures State() == Run(old(State()), events.events)
      ensures old(State()).Valid() ==> State().Valid()
      ensures currentMousePos == (if LastMousePosOf(events.events).Some? then LastMousePosOf(events.events).value
                                  else old(currentMousePos))
    {
      var k := 0;
      while k < |events.events|
        invariant 0 <= k <= |events.events|
        invariant State() == Run(old(State()), events.events[..k])
        invariant currentMousePos == old(currentMousePos)
      {
        var e := events.events[k];
        assert events.events[..k + 1][..k] == events.events[..k];
        if e.Mouse? {
          if e.mouse.kind == Down(MouseButton.Left) {
            StartDrawMode((e.mouse.column, e.mouse.row));
          }
          if e.mouse.kind == Up(MouseButton.Left) {
            EndDrawMode();
          }
        } else if e.Key? {
          if e.key.IsPress() {
            if e.key.code == Char('r') {
              drawModeIntent := Rect;
            } else if e.key.code == Char('l') {
              drawModeIntent := Line;
            }
          }
        }
        k := k + 1;
      }
      assert events.events[..k] == events.events;
      if old(State()).Valid() {
        RunKeepsValid(old(State()), events.events);
      }
      var last := events.LastMousePos();
      if last.Some? {
        currentMousePos := last.value;
      }
      return true;
    }
  }
}
