/** The line editor used while a text object is being typed. */
module TextEditing {
  import opened Events

  /** What the editor holds: its lines and the row of the cursor (the column is unused). */
  datatype EditorState = EditorState(lines: seq<string>, row: nat) {
    /** There is always a line under the cursor. */
    predicate Valid() {
      row < |lines|
    }
  }

  /** The state after `edit` handles one key event. A `Char` is appended to the cursor's
      line; `Backspace` removes that line's last character or, when the line is empty and
      not the first, removes the line and moves up; `Alt+Enter` opens an empty line below
      the cursor and moves to it; every other key leaves the state as it was. */
  function Edited(s: EditorState, event: KeyEvent): (r: EditorState)
    requires s.Valid()
    ensures r.Valid()
    ensures |r.lines| - |s.lines| in {-1, 0, 1}
    ensures forall i :: 0 <= i < s.row && i < r.row ==> r.lines[i] == s.lines[i]
  {
    var line := s.lines[s.row];
    match event.code
    case Char(c) =>
      EditorState(s.lines[s.row := line + [c]], s.row)
    case Backspace =>
      if |line| > 0 then
        EditorState(s.lines[s.row := line[..|line| - 1]], s.row)
      else if s.row > 0 then
        EditorState(s.lines[..s.row] + s.lines[s.row + 1..], s.row - 1)
      else
        s
    case Enter =>
      if Alt in event.modifiers then
        EditorState(s.lines[..s.row + 1] + [""] + s.lines[s.row + 1..], s.row + 1)
      else
        s
    case _ =>
      s
  }

  /** All the text of a state, lines run together. */
  function Joined(lines: seq<string>): string {
    if |lines| == 0 then "" else Joined(lines[..|lines| - 1]) + lines[|lines| - 1]
  }

  lemma {:induction false} JoinedAppend(a: seq<string>, b: seq<string>)
    ensures Joined(a + b) == Joined(a) + Joined(b)
    decreases |b|
  {
    if |b| == 0 {
      assert a + b == a;
    } else {
      assert (a + b)[..|a + b| - 1] == a + b[..|b| - 1];
      JoinedAppend(a, b[..|b| - 1]);
    }
  }

  /** Typing a character and then `Backspace` restores the editor. */
  lemma CharThenBackspace(s: EditorState, c: char, mods: set<KeyModifier>, kind: KeyEventKind,
                          mods2: set<KeyModifier>, kind2: KeyEventKind)
    requires s.Valid()
    ensures Edited(Edited(s, KeyEvent(Char(c), mods, kind)), KeyEvent(Backspace, mods2, kind2)) == s
  {
    var t := Edited(s, KeyEvent(Char(c), mods, kind));
    assert (s.lines[s.row] + [c])[..|s.lines[s.row]|] == s.lines[s.row];
    assert t.lines[s.row := s.lines[s.row]] == s.lines;
  }

  /** Opening a line with `Alt+Enter` and then `Backspace` restores the editor. */
  lemma AltEnterThenBackspace(s: EditorState, mods: set<KeyModifier>, kind: KeyEventKind,
                              mods2: set<KeyModifier>, kind2: KeyEventKind)
    requires s.Valid() && Alt in mods
    ensures Edited(Edited(s, KeyEvent(Enter, mods, kind)), KeyEvent(Backspace, mods2, kind2)) == s
  {
    var t := Edited(s, KeyEvent(Enter, mods, kind));
    assert t.lines[t.row] == "";
    assert t.lines[..t.row] + t.lines[t.row + 1..] == s.lines;
  }

  /** The text of the lines is the text before line `i`, line `i`, and the text after it. */
  lemma JoinedAround(lines: seq<string>, i: nat)
    requires i < |lines|
    ensures Joined(lines) == Joined(lines[..i]) + lines[i] + Joined(lines[i + 1..])
  {
    var before, line, after := lines[..i], lines[i], lines[i + 1..];
    assert Joined([line]) == line by {
      assert [line][..0] == [];
    }
    calc {
      Joined(lines);
      { assert lines == (before + [line]) + after; }
      Joined((before + [line]) + after);
      { JoinedAppend(before + [line], after); }
      Joined(before + [line]) + Joined(after);
      { JoinedAppend(before, [line]); }
      Joined(before) + line + Joined(after);
    }
  }

  /** A `Char` adds exactly that character to the text and keeps the number of lines. */
  lemma CharAddsOneCharacter(s: EditorState, event: KeyEvent)
    requires s.Valid() && event.code.Char?
    ensures |Edited(s, event).lines| == |s.lines|
    ensures |Joined(Edited(s, event).lines)| == |Joined(s.lines)| + 1
  {
    var r := Edited(s, event);
    JoinedAround(s.lines, s.row);
    JoinedAround(r.lines, s.row);
    assert r.lines[..s.row] == s.lines[..s.row];
    assert r.lines[s.row + 1..] == s.lines[s.row + 1..];
  }

  /** `Backspace` removes at most one character from the text and never adds a line. */
  lemma BackspaceRemovesAtMostOne(s: EditorState, event: KeyEvent)
    requires s.Valid() && event.code.Backspace?
    ensures |Edited(s, event).lines| <= |s.lines|
    ensures |Joined(s.lines)| - |Joined(Edited(s, event).lines)| in {0, 1}
  {
    var r := Edited(s, event);
    JoinedAround(s.lines, s.row);
    if |s.lines[s.row]| > 0 {
      JoinedAround(r.lines, s.row);
      assert r.lines[..s.row] == s.lines[..s.row];
      assert r.lines[s.row + 1..] == s.lines[s.row + 1..];
    } else if s.row > 0 {
      JoinedAppend(s.lines[..s.row], s.lines[s.row + 1..]);
    }
  }

  /** `Backspace` in an empty first line does nothing. */
  lemma BackspaceStopsAtFirstLine(s: EditorState, event: KeyEvent)
    requires s.Valid() && s.row == 0 && s.lines[0] == "" && event.code.Backspace?
    ensures Edited(s, event) == s
  {
  }

  /** `TextEditor`: the lines being typed and the cursor. */
  class TextEditor {
    var cursor: (nat, nat)
    var lines: seq<string>

    ghost predicate Valid()
      reads this
    {
      State().Valid()
    }

    ghost function State(): EditorState
      reads this
    {
      EditorState(lines, cursor.1)
    }

    /** `TextEditor::new`: a single empty line, cursor at the origin. */
    constructor New()
      ensures Valid() && lines == [""] && cursor == (0, 0)
    {
      cursor := (0, 0);
      lines := [""];
    }

    /** `TextEditor::new_with_lines`: the given lines, cursor on the last one. The source
        computes `lines.len() - 1`, so it needs at least one line. */
    constructor NewWithLines(lines: seq<string>)
      requires |lines| > 0
      ensures Valid() && this.lines == lines && cursor == (0, |lines| - 1)
    {
      cursor := (0, |lines| - 1);
      this.lines := lines;
    }

    /** `edit`: handles one key event. */
    method Edit(event: KeyEvent)
      requires Valid()
      modifies this
      ensures Valid()
      ensures State() == Edited(old(State()), event)
      ensures cursor.0 == old(cursor.0)
    {
      match event.code {
        case Char(c) =>
          lines := lines[cursor.1 := lines[cursor.1] + [c]];
        case Backspace =>
          var line := lines[cursor.1];
          if |line| > 0 {
            lines := lines[cursor.1 := line[..|line| - 1]];
          } else if cursor.1 > 0 {
            lines := lines[..cursor.1] + lines[cursor.1 + 1..];
            cursor := (cursor.0, cursor.1 - 1);
          }
        case Enter =>
          if Alt in event.modifiers {
            cursor := (cursor.0, cursor.1 + 1);
            lines := lines[..cursor.1] + [""] + lines[cursor.1..];
          }
        case _ =>
      }
    }
  }
}
