/**
 * The line edits `handle_compose` (`ectt-oauth/src/tui/compose.rs`) makes to
 * the body once it has split it into lines, and what each does to the text
 * the lines join back into: inserting a character, breaking a line, deleting
 * a character and merging a line into the previous one are each a one
 * character insertion or deletion at the cursor's offset in that text.
 */
module EcttEditor {
  import opened Text

  /** A position in the body: a line index and a character index within it. */
  datatype Cursor = Cursor(line: nat, col: nat)

  /** The lines `handle_compose` edits: `body.lines()`, or one empty line for an empty body. */
  function EditLines(body: string): (r: seq<string>)
    ensures |r| >= 1
    ensures Lines(body) != [] ==> r == Lines(body)
    ensures Lines(body) == [] ==> r == [""]
  {
    var ls := Lines(body);
    if ls == [] then [""] else ls
  }

  /** `resize(line + 1, String::new())` when the cursor is below the last line. */
  function Padded(lines: seq<string>, line: nat): (r: seq<string>)
    ensures |r| == if line < |lines| then |lines| else line + 1
    ensures r[..|lines|] == lines
    ensures forall i :: |lines| <= i < |r| ==> r[i] == ""
  {
    if line < |lines| then lines else lines + seq(line + 1 - |lines|, _ => "")
  }

  /** Where line `i` starts in the lines joined with '\n'. */
  function LineStart(lines: seq<string>, i: nat): nat
    requires i <= |lines|
  {
    TotalLength(lines[..i]) + i
  }

  /** The text before line `i`, its '\n' included. */
  function Before(lines: seq<string>, i: nat): string
    requires i < |lines|
  {
    if i == 0 then "" else Join(lines[..i], "\n") + "\n"
  }

  /** The text after line `i`, its '\n' included. */
  function After(lines: seq<string>, i: nat): string
    requires i < |lines|
  {
    if i + 1 == |lines| then "" else "\n" + Join(lines[i + 1..], "\n")
  }

  lemma JoinCons(x: string, rest: seq<string>, sep: string)
    ensures Join([x] + rest, sep) == x + (if rest == [] then "" else sep + Join(rest, sep))
  {
    assert ([x] + rest)[1..] == rest;
  }

  lemma {:induction false} TotalLengthSnoc(lines: seq<string>, x: string)
    ensures TotalLength(lines + [x]) == TotalLength(lines) + |x|
    decreases |lines|
  {
    if lines != [] {
      assert (lines + [x])[1..] == lines[1..] + [x];
      TotalLengthSnoc(lines[1..], x);
    }
  }

  /** The joined text is the text before line `i`, line `i`, and the text after it. */
  lemma JoinAt(lines: seq<string>, i: nat)
    requires i < |lines|
    ensures Join(lines, "\n") == Before(lines, i) + lines[i] + After(lines, i)
    ensures |Before(lines, i)| == LineStart(lines, i)
  {
    JoinTail(lines, i);
    var b, l, a := Before(lines, i), lines[i], After(lines, i);
    if i > 0 {
      JoinSplitAt(lines, i);
      BeforeLength(lines, i);
    } else {
      assert lines[i..] == lines;
      assert b == [];
    }
    assert b + (l + a) == b + l + a;
  }

  /** Splitting the lines before line `i` splits the joined text at `Before`'s end. */
  lemma JoinSplitAt(lines: seq<string>, i: nat)
    requires 0 < i < |lines|
    ensures Join(lines, "\n") == Before(lines, i) + Join(lines[i..], "\n")
  {
    var head, tail := lines[..i], lines[i..];
    assert lines == head + tail;
    JoinAppend(head, tail, "\n");
    var h, t := Join(head, "\n"), Join(tail, "\n");
    assert Before(lines, i) == h + "\n";
    assert h + "\n" + t == (h + "\n") + t;
  }

  lemma JoinTail(lines: seq<string>, i: nat)
    requires i < |lines|
    ensures Join(lines[i..], "\n") == lines[i] + After(lines, i)
  {
    assert lines[i..] == [lines[i]] + lines[i + 1..];
    JoinCons(lines[i], lines[i + 1..], "\n");
  }

  lemma BeforeLength(lines: seq<string>, i: nat)
    requires 0 < i < |lines|
    ensures |Before(lines, i)| == LineStart(lines, i)
  {
    JoinLength(lines[..i], "\n");
  }

  /** Replacing line `i` changes the joined text only between `Before` and `After`. */
  lemma JoinReplace(lines: seq<string>, i: nat, x: string)
    requires i < |lines|
    ensures Join(lines[i := x], "\n") == Before(lines, i) + x + After(lines, i)
  {
    var lines' := lines[i := x];
    JoinAt(lines', i);
    assert lines'[..i] == lines[..i];
    assert lines'[i + 1..] == lines[i + 1..];
  }

  /** The line start of `i + 1` is past line `i` and its '\n'. */
  lemma LineStartNext(lines: seq<string>, i: nat)
    requires i < |lines|
    ensures LineStart(lines, i + 1) == LineStart(lines, i) + |lines[i]| + 1
  {
    assert lines[..i + 1] == lines[..i] + [lines[i]];
    TotalLengthSnoc(lines[..i], lines[i]);
  }

  /** `after` is `before` with `removed` characters at offset `at` replaced by `inserted`. */
  predicate Spliced(after: string, before: string, at: nat, removed: nat, inserted: string)
  {
    at + removed <= |before| && after == before[..at] + inserted + before[at + removed..]
  }

  /** Editing a line inside a text is a splice of the text at the line's offset plus the column. */
  lemma SpliceInside(b: string, l: string, a: string, col: nat, removed: nat, inserted: string)
    requires col + removed <= |l|
    ensures Spliced(b + (l[..col] + inserted + l[col + removed..]) + a, b + l + a, |b| + col, removed, inserted)
  {
    var t := b + l + a;
    var k := |b| + col;
    assert t[..k] == b + l[..col];
    assert t[k + removed..] == l[col + removed..] + a;
  }

  // ---------------------------------------------------------------------------
  // The four edits

  /** `lines[line].insert(col, c)`. */
  function InsertInLine(lines: seq<string>, line: nat, col: nat, c: char): (r: seq<string>)
    requires line < |lines| && col <= |lines[line]|
    ensures |r| == |lines|
    ensures Spliced(Join(r, "\n"), Join(lines, "\n"), LineStart(lines, line) + col, 0, [c])
  {
    var l := lines[line];
    var r := lines[line := l[..col] + [c] + l[col..]];
    JoinAt(lines, line);
    JoinReplace(lines, line, l[..col] + [c] + l[col..]);
    SpliceInside(Before(lines, line), l, After(lines, line), col, 0, [c]);
    assert l[col + 0..] == l[col..];
    r
  }

  lemma JoinBroken(lines: seq<string>, line: nat, col: nat)
    requires line < |lines| && col <= |lines[line]|
    ensures var l := lines[line];
      Join(lines[..line] + [l[..col], l[col..]] + lines[line + 1..], "\n")
        == Before(lines, line) + (l[..col] + "\n" + l[col..]) + After(lines, line)
  {
    var l := lines[line];
    var pre, post := lines[..line], lines[line + 1..];
    var r := pre + [l[..col], l[col..]] + post;
    assert r[..line] == pre;
    assert r[line] == l[..col];
    assert r[line + 1..] == [l[col..]] + post;
    JoinAt(r, line);
    var x := Join(r[line + 1..], "\n");
    assert After(r, line) == "\n" + x;
    JoinCons(l[col..], post, "\n");
    assert x == l[col..] + After(lines, line);
    assert Before(r, line) == Before(lines, line);
    Regroup(Before(lines, line), l[..col], l[col..], After(lines, line));
  }

  lemma Regroup(b: string, p: string, q: string, a: string)
    ensures b + p + ("\n" + (q + a)) == b + (p + "\n" + q) + a
  {
  }

  /**
   * Enter in range: `lines[line]` keeps what is before `col` and the rest
   * becomes a new line right after it.
   */
  function BreakLine(lines: seq<string>, line: nat, col: nat): (r: seq<string>)
    requires line < |lines| && col <= |lines[line]|
    ensures |r| == |lines| + 1
    ensures r[line] == lines[line][..col] && r[line + 1] == lines[line][col..]
    ensures r[..line] == lines[..line] && r[line + 2..] == lines[line + 1..]
    ensures Spliced(Join(r, "\n"), Join(lines, "\n"), LineStart(lines, line) + col, 0, "\n")
  {
    var l := lines[line];
    var r := lines[..line] + [l[..col], l[col..]] + lines[line + 1..];
    assert r[..line] == lines[..line];
    assert r[line + 2..] == lines[line + 1..];
    JoinBroken(lines, line, col);
    JoinAt(lines, line);
    SpliceInside(Before(lines, line), l, After(lines, line), col, 0, "\n");
    assert l[col + 0..] == l[col..];
    r
  }

  /** `truncate` then `insert` on the vector builds exactly `BreakLine`. */
  lemma BreakLineInPlace(lines: seq<string>, line: nat, col: nat)
    requires line < |lines| && col <= |lines[line]|
    ensures var cut := lines[line := lines[line][..col]];
      cut[..line + 1] + [lines[line][col..]] + cut[line + 1..] == BreakLine(lines, line, col)
  {
    var cut := lines[line := lines[line][..col]];
    var built := cut[..line + 1] + [lines[line][col..]] + cut[line + 1..];
    var r := BreakLine(lines, line, col);
    assert |built| == |r|;
    forall i | 0 <= i < |r|
      ensures built[i] == r[i]
    {
      if i < line {
        assert r[i] == r[..line][i];
      } else if i > line + 1 {
        assert r[i] == r[line + 2..][i - line - 2];
      }
    }
  }

  /** Breaking the last line at its end appends an empty line. */
  lemma BreakAtEnd(lines: seq<string>)
    requires lines != []
    ensures BreakLine(lines, |lines| - 1, |lines[|lines| - 1]|) == lines + [""]
  {
    var line := |lines| - 1;
    var r := BreakLine(lines, line, |lines[line]|);
    assert lines[line][..|lines[line]|] == lines[line];
    assert r == r[..line] + [r[line], r[line + 1]];
    assert lines == lines[..line] + [lines[line]];
  }

  /** Backspace inside a line: `lines[line].remove(col - 1)`. */
  function DeleteInLine(lines: seq<string>, line: nat, col: nat): (r: seq<string>)
    requires line < |lines| && 0 < col <= |lines[line]|
    ensures |r| == |lines|
    ensures Spliced(Join(r, "\n"), Join(lines, "\n"), LineStart(lines, line) + col - 1, 1, "")
  {
    var l := lines[line];
    var r := lines[line := l[..col - 1] + l[col..]];
    JoinAt(lines, line);
    JoinReplace(lines, line, l[..col - 1] + l[col..]);
    SpliceInside(Before(lines, line), l, After(lines, line), col - 1, 1, "");
    assert l[..col - 1] + "" + l[col - 1 + 1..] == l[..col - 1] + l[col..];
    r
  }

  /** Backspace at the start of a line: it is appended to the previous line. */
  function MergeLine(lines: seq<string>, line: nat): (r: seq<string>)
    requires 0 < line < |lines|
    ensures |r| == |lines| - 1
    ensures r[line - 1] == lines[line - 1] + lines[line]
    ensures BreakLine(r, line - 1, |lines[line - 1]|) == lines
    ensures Spliced(Join(r, "\n"), Join(lines, "\n"), LineStart(lines, line) - 1, 1, "")
  {
    var r := lines[..line - 1] + [lines[line - 1] + lines[line]] + lines[line + 1..];
    MergedBreaksBack(lines, line);
    MergedSpliced(lines, line);
    r
  }

  /** Breaking the merged line where the earlier line ended gives the lines back. */
  lemma MergedBreaksBack(lines: seq<string>, line: nat)
    requires 0 < line < |lines|
    ensures var r := lines[..line - 1] + [lines[line - 1] + lines[line]] + lines[line + 1..];
      BreakLine(r, line - 1, |lines[line - 1]|) == lines
  {
    var r := lines[..line - 1] + [lines[line - 1] + lines[line]] + lines[line + 1..];
    var back := BreakLine(r, line - 1, |lines[line - 1]|);
    assert r[..line - 1] == lines[..line - 1];
    assert r[line..] == lines[line + 1..];
    assert r[line - 1][..|lines[line - 1]|] == lines[line - 1];
    assert r[line - 1][|lines[line - 1]|..] == lines[line];
    assert |back| == |lines|;
    forall i | 0 <= i < |lines|
      ensures back[i] == lines[i]
    {
      if i < line - 1 {
        assert back[i] == back[..line - 1][i];
      } else if i > line {
        assert back[i] == back[line + 1..][i - line - 1];
      }
    }
  }

  /** Merging removes exactly the '\n' before the merged line from the joined text. */
  lemma MergedSpliced(lines: seq<string>, line: nat)
    requires 0 < line < |lines|
    ensures var r := lines[..line - 1] + [lines[line - 1] + lines[line]] + lines[line + 1..];
      Spliced(Join(r, "\n"), Join(lines, "\n"), LineStart(lines, line) - 1, 1, "")
  {
    var r := lines[..line - 1] + [lines[line - 1] + lines[line]] + lines[line + 1..];
    MergedBreaksBack(lines, line);
    assert r[..line - 1] == lines[..line - 1];
    LineStartNext(lines, line - 1);
    assert LineStart(r, line - 1) == LineStart(lines, line - 1);
    var k := LineStart(lines, line) - 1;
    var t := Join(r, "\n");
    var broken := BreakLine(r, line - 1, |lines[line - 1]|);
    assert Spliced(Join(broken, "\n"), t, k, 0, "\n");
    assert Join(lines, "\n") == t[..k] + "\n" + t[k..];
    assert Join(lines, "\n")[..k] == t[..k];
    assert Join(lines, "\n")[k + 1..] == t[k..];
  }

  /** `lines[line].remove(col - 1)` on the vector builds exactly `DeleteInLine`. */
  lemma DeleteInPlace(lines: seq<string>, line: nat, col: nat)
    requires line < |lines| && 0 < col <= |lines[line]|
    ensures lines[line := lines[line][..col - 1] + lines[line][col..]] == DeleteInLine(lines, line, col)
  {
  }

  /** `lines.remove(line)` then `lines[line - 1].push_str(&cur)` builds exactly `MergeLine`. */
  lemma MergeInPlace(lines: seq<string>, line: nat)
    requires 0 < line < |lines|
    ensures (lines[..line] + lines[line + 1..])[line - 1 := lines[line - 1] + lines[line]] == MergeLine(lines, line)
  {
    var removed := lines[..line] + lines[line + 1..];
    var built := removed[line - 1 := lines[line - 1] + lines[line]];
    var r := MergeLine(lines, line);
    assert |built| == |r|;
    forall i | 0 <= i < |r|
      ensures built[i] == r[i]
    {
      if i < line - 1 {
        assert built[i] == lines[i];
        assert r[i] == lines[i];
      } else if i >= line {
        assert built[i] == lines[i + 1];
        assert r[i] == lines[i + 1];
      }
    }
  }


  // ---------------------------------------------------------------------------
  // The edits undo each other

  /** Backspace right after an inserted character removes it. */
  lemma DeleteUndoesInsert(lines: seq<string>, line: nat, col: nat, c: char)
    requires line < |lines| && col <= |lines[line]|
    ensures DeleteInLine(InsertInLine(lines, line, col, c), line, col + 1) == lines
  {
    var l := lines[line];
    var l' := l[..col] + [c] + l[col..];
    assert InsertInLine(lines, line, col, c) == lines[line := l'];
    assert l'[..col] + l'[col + 1..] == l;
  }

  /** Backspace at the start of a freshly broken line joins it back. */
  lemma MergeUndoesBreak(lines: seq<string>, line: nat, col: nat)
    requires line < |lines| && col <= |lines[line]|
    ensures MergeLine(BreakLine(lines, line, col), line + 1) == lines
  {
    var r := BreakLine(lines, line, col);
    var m := MergeLine(r, line + 1);
    assert lines[line][..col] + lines[line][col..] == lines[line];
    assert m == r[..line] + [r[line] + r[line + 1]] + r[line + 2..];
    assert lines == lines[..line] + [lines[line]] + lines[line + 1..];
  }
}
