/**
 * `ectt-oauth/src/tui/compose.rs`: the compose form of the OAuth client. Its
 * To, Cc and Bcc fields are plain strings that keys append to and pop from;
 * the body is a string the handler splits into lines with `lines()`, edits
 * at a (line, column) cursor and joins back with "\n".
 */
module EcttCompose {
  import opened Text
  import opened Ui
  import opened EcttEditor

  /** The number of fields focus cycles through: To, Cc, Bcc and the body. */
  const FieldCount: nat := 4
  const ToField: nat := 0
  const CcField: nat := 1
  const BccField: nat := 2
  const BodyField: nat := 3

  /** The `ComposeFields` struct as a value. */
  datatype Form = Form(to: string, cc: string, bcc: string, body: string, cursor: Cursor, focused: nat)

  /** `ComposeFields::default`: every field empty, cursor at (0, 0), focus on To. */
  const Blank: Form := Form("", "", "", "", Cursor(0, 0), ToField)

  /** Ctrl+S: the code `Char('s')` with exactly the Control modifier. */
  predicate IsSave(key: KeyEvent)
  {
    key.code == Char('s') && key.modifiers == {Control}
  }

  /** `String::pop`, its result dropped: the last character goes, and an empty string stays empty. */
  function Popped(s: string): (r: string)
    ensures s == [] ==> r == []
    ensures s != [] ==> r + [s[|s| - 1]] == s
  {
    if s == [] then s else s[..|s| - 1]
  }

  function Min(a: nat, b: nat): nat
  {
    if a <= b then a else b
  }

  // ---------------------------------------------------------------------------
  // When the handler does not panic

  /** A character key edits these lines: the body's, padded down to the cursor line. */
  function CharLines(f: Form): seq<string>
  {
    Padded(EditLines(f.body), f.cursor.line)
  }

  /** `String::insert` panics past the end of the line. */
  predicate CharFits(f: Form)
  {
    f.cursor.col <= |CharLines(f)[f.cursor.line]|
  }

  /** Enter edits these lines: the body's, plus one empty line when the cursor is below them. */
  function EnterLines(f: Form): (r: seq<string>)
    ensures |r| >= 1
  {
    var ls := EditLines(f.body);
    if f.cursor.line >= |ls| then ls + [""] else ls
  }

  /** Slicing at the cursor panics past the end of the line. */
  predicate EnterFits(f: Form)
  {
    var ls := EnterLines(f);
    f.cursor.line < |ls| ==> f.cursor.col <= |ls[f.cursor.line]|
  }

  /** The events on which `handle_compose` does not panic: a character or Enter in the body must fit its line. */
  predicate Handles(f: Form, event: Event)
  {
    event.Key? && f.focused == BodyField && !IsSave(event.key) ==>
      && (event.key.code.Char? ==> CharFits(f))
      && (event.key.code.Enter? ==> EnterFits(f))
  }

  // ---------------------------------------------------------------------------
  // One key

  /**
   * A character: appended to To, Cc or Bcc, or inserted in the body at the
   * cursor, which moves one column right. In the body the text is the old
   * one with that character inserted at the cursor's offset.
   */
  function TypeChar(f: Form, c: char): (r: Form)
    requires f.focused == BodyField ==> CharFits(f)
    ensures f.focused == ToField ==> r == f.(to := f.to + [c])
    ensures f.focused == CcField ==> r == f.(cc := f.cc + [c])
    ensures f.focused == BccField ==> r == f.(bcc := f.bcc + [c])
    ensures f.focused == BodyField ==>
      && r == f.(body := r.body, cursor := Cursor(f.cursor.line, f.cursor.col + 1))
      && Spliced(r.body, Join(CharLines(f), "\n"), LineStart(CharLines(f), f.cursor.line) + f.cursor.col, 0, [c])
    ensures f.focused > BodyField ==> r == f
  {
    if f.focused == ToField then f.(to := f.to + [c])
    else if f.focused == CcField then f.(cc := f.cc + [c])
    else if f.focused == BccField then f.(bcc := f.bcc + [c])
    else if f.focused == BodyField then
      var lines := CharLines(f);
      f.(body := Join(InsertInLine(lines, f.cursor.line, f.cursor.col, c), "\n"),
         cursor := f.cursor.(col := f.cursor.col + 1))
    else f
  }

  /**
   * Enter, only in the body: the cursor line breaks at the cursor, which
   * moves to the start of the new line; the text gets a '\n' at the
   * cursor's offset. A cursor more than one line below the text instead
   * gets two empty lines appended and lands on the last.
   */
  function PressEnter(f: Form): (r: Form)
    requires f.focused == BodyField ==> EnterFits(f)
    ensures f.focused != BodyField ==> r == f
    ensures f.focused == BodyField && f.cursor.line < |EnterLines(f)| ==>
      && r == f.(body := r.body, cursor := Cursor(f.cursor.line + 1, 0))
      && Spliced(r.body, Join(EnterLines(f), "\n"), LineStart(EnterLines(f), f.cursor.line) + f.cursor.col, 0, "\n")
    ensures f.focused == BodyField && f.cursor.line >= |EnterLines(f)| ==>
      r == f.(body := Join(EnterLines(f) + [""], "\n"), cursor := Cursor(|EnterLines(f)|, 0))
  {
    if f.focused != BodyField then f
    else
      var lines := EnterLines(f);
      if f.cursor.line < |lines| then
        f.(body := Join(BreakLine(lines, f.cursor.line, f.cursor.col), "\n"),
           cursor := Cursor(f.cursor.line + 1, 0))
      else
        var lines' := lines + [""];
        f.(body := Join(lines', "\n"), cursor := Cursor(|lines'| - 1, 0))
  }

  /** The clamp after Backspace: onto the last line at most, and onto that line's end at most. */
  function Clamp(lines: seq<string>, c: Cursor): (r: Cursor)
    requires lines != []
    ensures r.line < |lines| && r.col <= |lines[r.line]|
    ensures c.line < |lines| && c.col <= |lines[c.line]| ==> r == c
    ensures c.line < |lines| ==> r.line == c.line
  {
    var line := if c.line >= |lines| then |lines| - 1 else c.line;
    Cursor(line, Min(c.col, |lines[line]|))
  }

  /** The lines and cursor Backspace leaves in the body, before the clamp. */
  function BackspaceLines(lines: seq<string>, c: Cursor): (r: (seq<string>, Cursor))
    requires lines != []
    ensures r.0 != []
  {
    if c.line < |lines| && 0 < c.col <= |lines[c.line]| then
      (DeleteInLine(lines, c.line, c.col), Cursor(c.line, c.col - 1))
    else if c.line < |lines| && c.col == 0 && c.line > 0 then
      (MergeLine(lines, c.line), Cursor(c.line - 1, |lines[c.line - 1]|))
    else (lines, c)
  }

  /**
   * Backspace: pops To, Cc or Bcc; in the body it deletes the character
   * before the cursor, or at the start of a line joins the line to the one
   * above, and then clamps the cursor into the text. Either way the text
   * loses exactly the character before the cursor's offset.
   */
  function PressBackspace(f: Form): (r: Form)
    ensures f.focused == ToField ==> r == f.(to := Popped(f.to))
    ensures f.focused == CcField ==> r == f.(cc := Popped(f.cc))
    ensures f.focused == BccField ==> r == f.(bcc := Popped(f.bcc))
    ensures f.focused > BodyField ==> r == f
    ensures f.focused == BodyField ==> r == f.(body := r.body, cursor := r.cursor)
    ensures f.focused == BodyField ==> var ls := EditLines(f.body); var c := f.cursor;
      && (c.line < |ls| && 0 < c.col <= |ls[c.line]| ==>
            && Spliced(r.body, Join(ls, "\n"), LineStart(ls, c.line) + c.col - 1, 1, "")
            && r.cursor == Cursor(c.line, c.col - 1))
      && (c.line < |ls| && c.col == 0 && c.line > 0 ==>
            && Spliced(r.body, Join(ls, "\n"), LineStart(ls, c.line) - 1, 1, "")
            && r.cursor == Cursor(c.line - 1, |ls[c.line - 1]|))
  {
    if f.focused == ToField then f.(to := Popped(f.to))
    else if f.focused == CcField then f.(cc := Popped(f.cc))
    else if f.focused == BccField then f.(bcc := Popped(f.bcc))
    else if f.focused == BodyField then
      var ls := EditLines(f.body);
      var (ls', c') := BackspaceLines(ls, f.cursor);
      f.(body := Join(ls', "\n"), cursor := Clamp(ls', c'))
    else f
  }

  /** `lines().nth(i).map(|l| l.len()).unwrap_or(0)`. */
  function LineLength(body: string, i: nat): nat
  {
    var ls := Lines(body);
    if i < |ls| then |ls[i]| else 0
  }

  /** Left: one column back, or from a line start to the end of the line above. */
  function MoveLeft(f: Form): (r: Form)
    ensures r == f.(cursor := r.cursor)
    ensures f.focused == BodyField && f.cursor.col > 0 ==> r.cursor == Cursor(f.cursor.line, f.cursor.col - 1)
    ensures f.focused == BodyField && f.cursor.col == 0 && f.cursor.line > 0 ==>
      r.cursor == Cursor(f.cursor.line - 1, LineLength(f.body, f.cursor.line - 1))
    ensures f.focused != BodyField || f.cursor == Cursor(0, 0) ==> r == f
  {
    if f.focused != BodyField then f
    else if f.cursor.col > 0 then f.(cursor := f.cursor.(col := f.cursor.col - 1))
    else if f.cursor.line > 0 then f.(cursor := Cursor(f.cursor.line - 1, LineLength(f.body, f.cursor.line - 1)))
    else f
  }

  /** Right: one column on within the line, or from a line end to the start of the next line of the text. */
  function MoveRight(f: Form): (r: Form)
    ensures r == f.(cursor := r.cursor)
    ensures f.focused == BodyField && f.cursor.col < LineLength(f.body, f.cursor.line) ==>
      r.cursor == Cursor(f.cursor.line, f.cursor.col + 1)
    ensures f.focused == BodyField && f.cursor.col >= LineLength(f.body, f.cursor.line) ==>
      r.cursor == if f.cursor.line + 1 < |Lines(f.body)| then Cursor(f.cursor.line + 1, 0) else f.cursor
    ensures f.focused != BodyField ==> r == f
  {
    if f.focused != BodyField then f
    else if f.cursor.col < LineLength(f.body, f.cursor.line) then f.(cursor := f.cursor.(col := f.cursor.col + 1))
    else if f.cursor.line + 1 < |Lines(f.body)| then f.(cursor := Cursor(f.cursor.line + 1, 0))
    else f
  }

  /** Up: the line above, the column clamped to its length; nothing on the first line. */
  function MoveUp(f: Form): (r: Form)
    ensures r == f.(cursor := r.cursor)
    ensures f.focused == BodyField && f.cursor.line > 0 ==>
      && r.cursor.line == f.cursor.line - 1
      && r.cursor.col <= f.cursor.col && r.cursor.col <= LineLength(f.body, r.cursor.line)
      && (f.cursor.col <= LineLength(f.body, r.cursor.line) ==> r.cursor.col == f.cursor.col)
    ensures f.focused != BodyField || f.cursor.line == 0 ==> r == f
  {
    if f.focused == BodyField && f.cursor.line > 0 then
      var line := f.cursor.line - 1;
      f.(cursor := Cursor(line, Min(f.cursor.col, LineLength(f.body, line))))
    else f
  }

  /** Down: the line below, the column clamped to its length; nothing on the last line of the text. */
  function MoveDown(f: Form): (r: Form)
    ensures r == f.(cursor := r.cursor)
    ensures f.focused == BodyField && f.cursor.line + 1 < |Lines(f.body)| ==>
      && r.cursor.line == f.cursor.line + 1
      && r.cursor.col <= f.cursor.col && r.cursor.col <= |Lines(f.body)[r.cursor.line]|
      && (f.cursor.col <= |Lines(f.body)[r.cursor.line]| ==> r.cursor.col == f.cursor.col)
    ensures f.focused != BodyField || f.cursor.line + 1 >= |Lines(f.body)| ==> r == f
  {
    if f.focused == BodyField && f.cursor.line + 1 < |Lines(f.body)| then
      var line := f.cursor.line + 1;
      f.(cursor := Cursor(line, Min(f.cursor.col, |Lines(f.body)[line]|)))
    else f
  }

  /**
   * `handle_compose` on the form: the new form, and whether the screen goes
   * back to Main (Ctrl+S and Esc, which change no field). Tab and BackTab
   * cycle the focus; the arrows move only the cursor; other events do
   * nothing.
   */
  function ComposeStep(f: Form, event: Event): (r: (Form, bool))
    requires Handles(f, event)
    ensures r.1 <==> event.Key? && (IsSave(event.key) || event.key.code.Esc?)
    ensures r.1 ==> r.0 == f
    ensures f.focused < FieldCount ==> r.0.focused < FieldCount
    ensures r.0.focused != f.focused ==> event.Key? && (event.key.code.Tab? || event.key.code.BackTab?)
    ensures event.Key? && event.key.code.Tab? ==> r.0 == f.(focused := NextFocus(f.focused, FieldCount))
    ensures event.Key? && event.key.code.BackTab? ==> r.0 == f.(focused := PrevFocus(f.focused, FieldCount))
    ensures event.NonKey? ==> r == (f, false)
    ensures event.Key? && (event.key.code.Left? || event.key.code.Right? || event.key.code.Up? || event.key.code.Down?) ==>
      r.0 == f.(cursor := r.0.cursor)
  {
    if event.NonKey? then (f, false)
    else
      var key := event.key;
      if IsSave(key) then (f, true)
      else
        match key.code
        case Tab => (f.(focused := NextFocus(f.focused, FieldCount)), false)
        case BackTab => (f.(focused := PrevFocus(f.focused, FieldCount)), false)
        case Esc => (f, true)
        case Char(c) => (TypeChar(f, c), false)
        case Enter => (PressEnter(f), false)
        case Backspace => (PressBackspace(f), false)
        case Left => (MoveLeft(f), false)
        case Right => (MoveRight(f), false)
        case Up => (MoveUp(f), false)
        case Down => (MoveDown(f), false)
        case _ => (f, false)
  }

  // ---------------------------------------------------------------------------
  // What a pair of keys does

  /** The text's lines survive `join` and `lines()`: none holds a line break and the last is not empty. */
  predicate Settled(lines: seq<string>)
  {
    lines != [] && CleanLines(lines) && lines[|lines| - 1] != []
  }

  lemma SettledRoundTrip(lines: seq<string>)
    requires Settled(lines)
    ensures EditLines(Join(lines, "\n")) == lines
  {
    LinesOfJoin(lines);
  }

  /** Backspace right after typing a character in the body gives the text and the cursor back. */
  lemma TypeThenBackspace(f: Form, c: char)
    requires f.focused == BodyField
    requires Settled(EditLines(f.body)) && CleanLine([c])
    requires f.cursor.line < |EditLines(f.body)| && f.cursor.col <= |EditLines(f.body)[f.cursor.line]|
    ensures PressBackspace(TypeChar(f, c)) == f.(body := Join(EditLines(f.body), "\n"))
  {
    var ls := EditLines(f.body);
    var line, col := f.cursor.line, f.cursor.col;
    assert CharLines(f) == ls;
    var ls' := InsertInLine(ls, line, col, c);
    var l' := ls[line][..col] + [c] + ls[line][col..];
    assert ls' == ls[line := l'];
    assert CleanLine(l') by {
      assert l' == ls[line][..col] + [c] + ls[line][col..];
    }
    assert Settled(ls');
    var g := TypeChar(f, c);
    assert g == f.(body := Join(ls', "\n"), cursor := Cursor(line, col + 1));
    SettledRoundTrip(ls');
    BackspaceInBody(g);
    assert BackspaceLines(ls', g.cursor) == (DeleteInLine(ls', line, col + 1), Cursor(line, col));
    DeleteUndoesInsert(ls, line, col, c);
    assert Clamp(ls, Cursor(line, col)) == Cursor(line, col);
  }

  /** Backspace in the body: the edited lines joined back, and the clamped cursor. */
  lemma BackspaceInBody(f: Form)
    requires f.focused == BodyField
    ensures var s := BackspaceLines(EditLines(f.body), f.cursor);
      PressBackspace(f) == f.(body := Join(s.0, "\n"), cursor := Clamp(s.0, s.1))
  {
  }

  /** Breaking a settled text anywhere but at its very end leaves it settled. */
  lemma BrokenSettled(ls: seq<string>, line: nat, col: nat)
    requires Settled(ls) && line < |ls| && col <= |ls[line]|
    requires line + 1 < |ls| || col < |ls[line]|
    ensures Settled(BreakLine(ls, line, col))
  {
    var broken := BreakLine(ls, line, col);
    assert broken[|broken| - 1] != [] by {
      if line + 1 < |ls| {
        assert broken[|broken| - 1] == broken[line + 2..][|ls| - line - 2];
      }
    }
    forall i | 0 <= i < |broken|
      ensures CleanLine(broken[i])
    {
      if i < line {
        assert broken[i] == broken[..line][i];
      } else if i > line + 1 {
        assert broken[i] == broken[line + 2..][i - line - 2];
      } else {
        assert CleanLine(ls[line]);
      }
    }
  }

  /** Backspace right after Enter in the body joins the line back, unless Enter was at the very end of the text. */
  lemma EnterThenBackspace(f: Form)
    requires f.focused == BodyField
    requires Settled(EditLines(f.body))
    requires f.cursor.line < |EditLines(f.body)| && f.cursor.col <= |EditLines(f.body)[f.cursor.line]|
    requires f.cursor.line + 1 < |EditLines(f.body)| || f.cursor.col < |EditLines(f.body)[f.cursor.line]|
    ensures PressBackspace(PressEnter(f)) == f.(body := Join(EditLines(f.body), "\n"))
  {
    var ls := EditLines(f.body);
    var line, col := f.cursor.line, f.cursor.col;
    assert EnterLines(f) == ls;
    var broken := BreakLine(ls, line, col);
    var g := PressEnter(f);
    assert g == f.(body := Join(broken, "\n"), cursor := Cursor(line + 1, 0));
    BrokenSettled(ls, line, col);
    SettledRoundTrip(broken);
    BackspaceInBody(g);
    assert BackspaceLines(broken, g.cursor) == (MergeLine(broken, line + 1), Cursor(line, col));
    MergeUndoesBreak(ls, line, col);
    assert Clamp(ls, Cursor(line, col)) == Cursor(line, col);
  }

  /**
   * Enter at the very end of the text, then Backspace: the text comes back,
   * but the cursor lands at the start of the last line, not where it was,
   * because `lines()` does not see the empty line Enter made.
   */
  lemma EnterAtEndThenBackspace(f: Form)
    requires f.focused == BodyField
    requires Settled(EditLines(f.body))
    requires f.cursor == Cursor(|EditLines(f.body)| - 1, |EditLines(f.body)[|EditLines(f.body)| - 1]|)
    ensures PressBackspace(PressEnter(f)).body == Join(EditLines(f.body), "\n")
    ensures PressBackspace(PressEnter(f)).cursor == Cursor(|EditLines(f.body)| - 1, 0)
  {
    var ls := EditLines(f.body);
    var line, col := f.cursor.line, f.cursor.col;
    assert EnterLines(f) == ls;
    var broken := BreakLine(ls, line, col);
    BreakAtEnd(ls);
    var g := PressEnter(f);
    assert g == f.(body := Join(broken, "\n"), cursor := Cursor(|ls|, 0));
    assert CleanLines(broken) by {
      forall i | 0 <= i < |broken| ensures CleanLine(broken[i]) {
        if i < |ls| {
          assert broken[i] == ls[i];
        }
      }
    }
    LinesOfJoin(broken);
    assert broken[..|broken| - 1] == ls;
    assert EditLines(g.body) == ls;
    BackspaceInBody(g);
    assert BackspaceLines(ls, g.cursor) == (ls, g.cursor);
    assert Clamp(ls, g.cursor) == Cursor(|ls| - 1, 0);
  }

  /** Down then Up returns to the same place when the column fits both lines. */
  lemma DownThenUp(f: Form)
    requires f.focused == BodyField && f.cursor.line + 1 < |Lines(f.body)|
    requires f.cursor.col <= |Lines(f.body)[f.cursor.line]| && f.cursor.col <= |Lines(f.body)[f.cursor.line + 1]|
    ensures MoveUp(MoveDown(f)) == f
  {
  }

  /** Left then Right returns to the same place inside a line. */
  lemma LeftThenRight(f: Form)
    requires f.focused == BodyField && 0 < f.cursor.col <= LineLength(f.body, f.cursor.line)
    ensures MoveRight(MoveLeft(f)) == f
  {
  }

  /** Tab then BackTab, and BackTab then Tab, restore the focus. */
  lemma TabThenBackTab(f: Form, shift: set<Modifier>)
    requires f.focused < FieldCount
    ensures ComposeStep(ComposeStep(f, Key(KeyEvent(Tab, shift))).0, Key(KeyEvent(BackTab, shift))).0 == f
    ensures ComposeStep(ComposeStep(f, Key(KeyEvent(BackTab, shift))).0, Key(KeyEvent(Tab, shift))).0 == f
  {
    FocusInverse(f.focused, FieldCount);
  }

  // ---------------------------------------------------------------------------
  // The struct in place

  /**
   * Backspace in the body, on the vector of lines: `remove` inside the line
   * or a merge with the line above, then the clamp. The result is exactly
   * `BackspaceLines` followed by `Clamp`.
   */
  method BackspaceBody(original: seq<string>, cursor: Cursor) returns (lines: seq<string>, c: Cursor)
    requires original != []
    ensures lines == BackspaceLines(original, cursor).0
    ensures c == Clamp(lines, BackspaceLines(original, cursor).1)
  {
    var line, col := cursor.line, cursor.col;
    lines, c := original, cursor;
    if line < |lines| {
      if col > 0 && col <= |lines[line]| {
        DeleteInPlace(lines, line, col);
        lines := lines[line := lines[line][..col - 1] + lines[line][col..]];
        c := c.(col := col - 1);
      } else if col == 0 && line > 0 {
        var prevLen := |lines[line - 1]|;
        var cur := lines[line];
        MergeInPlace(lines, line);
        lines := lines[..line] + lines[line + 1..];
        lines := lines[line - 1 := lines[line - 1] + cur];
        c := Cursor(line - 1, prevLen);
      }
    }
    assert (lines, c) == BackspaceLines(original, cursor);
    var newLine, newCol := c.line, c.col;
    if newLine >= |lines| {
      newLine := |lines| - 1;
    }
    var lineLen := |lines[newLine]|;
    if newCol > lineLen {
      newCol := lineLen;
    }
    c := Cursor(newLine, newCol);
  }

  class ComposeFields {
    var to: string
    var cc: string
    var bcc: string
    var body: string
    var bodyCursor: Cursor
    /** 0: To, 1: Cc, 2: Bcc, 3: body. */
    var focused: nat

    function Current(): Form
      reads this
    {
      Form(to, cc, bcc, body, bodyCursor, focused)
    }

    constructor ()
      ensures Current() == Blank
    {
      to, cc, bcc, body := "", "", "", "";
      bodyCursor := Cursor(0, 0);
      focused := ToField;
    }

    method OnChar(c: char)
      requires focused == BodyField ==> CharFits(Current())
      modifies this
      ensures Current() == TypeChar(old(Current()), c)
    {
      if focused == ToField {
        to := to + [c];
      } else if focused == CcField {
        cc := cc + [c];
      } else if focused == BccField {
        bcc := bcc + [c];
      } else if focused == BodyField {
        var line, col := bodyCursor.line, bodyCursor.col;
        var lines := Lines(body);
        if lines == [] {
          lines := [""];
        }
        if line >= |lines| {
          lines := lines + seq(line + 1 - |lines|, _ => "");
        }
        lines := lines[line := lines[line][..col] + [c] + lines[line][col..]];
        body := Join(lines, "\n");
        bodyCursor := bodyCursor.(col := col + 1);
      }
    }

    method OnEnter()
      requires focused == BodyField ==> EnterFits(Current())
      modifies this
      ensures Current() == PressEnter(old(Current()))
    {
      if focused == BodyField {
        ghost var f := Current();
        var line, col := bodyCursor.line, bodyCursor.col;
        var lines := Lines(body);
        if lines == [] {
          lines := [""];
        }
        if line >= |lines| {
          lines := lines + [""];
        }
        assert lines == EnterLines(f);
        if line < |lines| {
          var rest := lines[line][col..];
          var broken := lines[line := lines[line][..col]];
          broken := broken[..line + 1] + [rest] + broken[line + 1..];
          BreakLineInPlace(lines, line, col);
          body := Join(broken, "\n");
          bodyCursor := Cursor(line + 1, 0);
        } else {
          lines := lines + [""];
          body := Join(lines, "\n");
          bodyCursor := Cursor(|lines| - 1, 0);
        }
      }
    }

    method OnBackspace()
      modifies this
      ensures Current() == PressBackspace(old(Current()))
    {
      if focused == ToField {
        to := Popped(to);
      } else if focused == CcField {
        cc := Popped(cc);
      } else if focused == BccField {
        bcc := Popped(bcc);
      } else if focused == BodyField {
        var lines := Lines(body);
        if lines == [] {
          lines := [""];
        }
        lines, bodyCursor := BackspaceBody(lines, bodyCursor);
        body := Join(lines, "\n");
      }
    }

    method MoveCursor(code: KeyCode)
      requires code.Left? || code.Right? || code.Up? || code.Down?
      modifies this
      ensures code.Left? ==> Current() == MoveLeft(old(Current()))
      ensures code.Right? ==> Current() == MoveRight(old(Current()))
      ensures code.Up? ==> Current() == MoveUp(old(Current()))
      ensures code.Down? ==> Current() == MoveDown(old(Current()))
    {
      if focused != BodyField {
        return;
      }
      var line, col := bodyCursor.line, bodyCursor.col;
      match code
      case Left =>
        if col > 0 {
          bodyCursor := bodyCursor.(col := col - 1);
        } else if line > 0 {
          bodyCursor := Cursor(line - 1, LineLength(body, line - 1));
        }
      case Right =>
        var lines := Lines(body);
        var lineLen := if line < |lines| then |lines[line]| else 0;
        if col < lineLen {
          bodyCursor := bodyCursor.(col := col + 1);
        } else if line + 1 < |lines| {
          bodyCursor := Cursor(line + 1, 0);
        }
      case Up =>
        if line > 0 {
          bodyCursor := Cursor(line - 1, Min(col, LineLength(body, line - 1)));
        }
      case Down =>
        var lines := Lines(body);
        if line + 1 < |lines| {
          bodyCursor := Cursor(line + 1, Min(col, |lines[line + 1]|));
        }
    }

    /**
     * `handle_compose` on the form's fields: returns whether the screen goes
     * back to Main.
     */
    method Handle(event: Event) returns (toMain: bool)
      requires Handles(Current(), event)
      modifies this
      ensures (Current(), toMain) == ComposeStep(old(Current()), event)
    {
      toMain := false;
      if event.NonKey? {
        return;
      }
      var key := event.key;
      if key.code == Char('s') && key.modifiers == {Control} {
        return true;
      }
      match key.code
      case Tab =>
        focused := (focused + 1) % FieldCount;
      case BackTab =>
        focused := (focused + 3) % FieldCount;
      case Esc =>
        toMain := true;
      case Char(c) =>
        OnChar(c);
      case Enter =>
        OnEnter();
      case Backspace =>
        OnBackspace();
      case Left =>
        MoveCursor(key.code);
      case Right =>
        MoveCursor(key.code);
      case Up =>
        MoveCursor(key.code);
      case Down =>
        MoveCursor(key.code);
      case _ =>
    }
  }
}
