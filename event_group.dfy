/** Terminal input events (the parts of `crossterm`'s events the engine reads) and the
    queries of an `EventGroup`, the events collected during one frame. */
module Events {
  import opened LibCommon

  datatype MouseButton = Left | Right | Middle

  datatype MouseEventKind =
    | Down(button: MouseButton)
    | Up(button: MouseButton)
    | Drag(button: MouseButton)
    | Moved
    | ScrollDown
    | ScrollUp

  datatype MouseEvent = MouseEvent(kind: MouseEventKind, column: U16, row: U16)

  /** Keys without a name here are told apart by `OtherKey`'s number, so two different
      unnamed keys (an arrow and a function key, say) are different codes. */
  datatype KeyCode = Char(c: char) | Backspace | Enter | Delete | Esc | OtherKey(number: nat)

  datatype KeyModifier = Shift | Control | Alt

  datatype KeyEventKind = Press | Repeat | Release

  datatype KeyEvent = KeyEvent(code: KeyCode, modifiers: set<KeyModifier>, kind: KeyEventKind) {
    predicate IsPress() {
      kind == Press
    }
  }

  /** Resize, focus and paste events are all `OtherEvent`: nothing in the model reads them. */
  datatype Event = Mouse(mouse: MouseEvent) | Key(key: KeyEvent) | OtherEvent

  /** The character of a key event with a `Char` code, whatever its kind. */
  function CharOf(e: Event): Option<char> {
    if e.Key? && e.key.code.Char? then Some(e.key.code.c) else None
  }

  /** The character of the first `Char` key event. */
  function FirstCharOf(events: seq<Event>): (r: Option<char>)
    ensures r.None? <==> forall i :: 0 <= i < |events| ==> CharOf(events[i]).None?
    ensures r.Some? ==> exists i :: 0 <= i < |events| && CharOf(events[i]) == r
                          && forall j :: 0 <= j < i ==> CharOf(events[j]).None?
  {
    if |events| == 0 then None
    else if CharOf(events[0]).Some? then
      CharOf(events[0])
    else
      var r := FirstCharOf(events[1..]);
      assert forall i :: 1 <= i < |events| ==> events[i] == events[1..][i - 1];
      r
  }

  /** The position of the last mouse event. */
  function LastMousePosOf(events: seq<Event>): (r: Option<Point>)
    ensures r.None? <==> forall i :: 0 <= i < |events| ==> !events[i].Mouse?
    ensures r.Some? ==> exists i :: 0 <= i < |events| && events[i].Mouse?
                          && r.value == (events[i].mouse.column, events[i].mouse.row)
                          && forall j :: i < j < |events| ==> !events[j].Mouse?
    ensures r.Some? ==> InU16(r.value)
  {
    if |events| == 0 then None
    else
      var last := events[|events| - 1];
      if last.Mouse? then Some((last.mouse.column, last.mouse.row))
      else LastMousePosOf(events[..|events| - 1])
  }

  /** `EventGroup`: the events of one frame, in arrival order. */
  datatype EventGroup = EventGroup(events: seq<Event>) {

    /** `first_pressed_char`: scans forward for the first `Char` key event. */
    method FirstPressedChar() returns (r: Option<char>)
      ensures r == FirstCharOf(events)
    {
      var k := 0;
      while k < |events|
        invariant 0 <= k <= |events|
        invariant forall j :: 0 <= j < k ==> CharOf(events[j]).None?
        invariant FirstCharOf(events) == FirstCharOf(events[k..])
      {
        if events[k].Key? && events[k].key.code.Char? {
          return Some(events[k].key.code.c);
        }
        assert events[k..][1..] == events[k + 1..];
        k := k + 1;
      }
      return None;
    }

    /** `did_press_key`: some key event, of any kind, has the given code. */
    method DidPressKey(code: KeyCode) returns (pressed: bool)
      ensures pressed <==> exists i :: 0 <= i < |events| && events[i].Key? && events[i].key.code == code
    {
      var k := 0;
      while k < |events|
        invariant 0 <= k <= |events|
        invariant forall j :: 0 <= j < k ==> !(events[j].Key? && events[j].key.code == code)
      {
        if events[k].Key? && events[k].key.code == code {
          return true;
        }
        k := k + 1;
      }
      return false;
    }

    /** `last_mouse_pos`: scans backward for the last mouse event. */
    method LastMousePos() returns (r: Option<Point>)
      ensures r == LastMousePosOf(events)
    {
      var k := |events|;
      while k > 0
        invariant 0 <= k <= |events|
        invariant LastMousePosOf(events) == LastMousePosOf(events[..k])
      {
        LastMousePosStep(events, k);
        if events[k - 1].Mouse? {
          return Some((events[k - 1].mouse.column, events[k - 1].mouse.row));
        }
        k := k - 1;
      }
      return None;
    }
  }

  /** One step of the backward scan: the last event of a prefix decides when it is a mouse
      event, and is skipped otherwise. */
  lemma LastMousePosStep(events: seq<Event>, k: nat)
    requires 0 < k <= |events|
    ensures events[k - 1].Mouse? ==>
              LastMousePosOf(events[..k]) == Some((events[k - 1].mouse.column, events[k - 1].mouse.row))
    ensures !events[k - 1].Mouse? ==> LastMousePosOf(events[..k]) == LastMousePosOf(events[..k - 1])
  {
    assert events[..k][..k - 1] == events[..k - 1];
  }

  /** Appending events without a mouse event keeps the last mouse position; a mouse event
      at the end decides it. */
  lemma {:induction false} LastMousePosAppend(events: seq<Event>, more: seq<Event>)
    ensures (forall i :: 0 <= i < |more| ==> !more[i].Mouse?) ==>
              LastMousePosOf(events + more) == LastMousePosOf(events)
    ensures |more| > 0 && more[|more| - 1].Mouse? ==>
              LastMousePosOf(events + more) == LastMousePosOf(more)
    decreases |more|
  {
    if |more| > 0 {
      var all := events + more;
      assert all[..|all| - 1] == events + more[..|more| - 1];
      LastMousePosAppend(events, more[..|more| - 1]);
    } else {
      assert events + more == events;
    }
  }

  /** The first character of a concatenation comes from the first part when it has one. */
  lemma {:induction false} FirstCharAppend(events: seq<Event>, more: seq<Event>)
    ensures FirstCharOf(events).Some? ==> FirstCharOf(events + more) == FirstCharOf(events)
    ensures FirstCharOf(events).None? ==> FirstCharOf(events + more) == FirstCharOf(more)
    decreases |events|
  {
    if |events| == 0 {
      assert events + more == more;
    } else {
      assert (events + more)[1..] == events[1..] + more;
      FirstCharAppend(events[1..], more);
    }
  }
}
