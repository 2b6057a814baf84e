/**
 * The handful of Rust string operations the modelled code leans on:
 * `join`, `str::split`, `str::lines`, `str::trim` and ASCII case-insensitive
 * comparison. Strings are sequences of characters; Rust's byte offsets are
 * read as character offsets (ASCII text).
 */
module Text {

  /** `[String]::join(sep)`: the parts with `sep` between consecutive ones. */
  function Join(parts: seq<string>, sep: string): string
    decreases |parts|
  {
    if |parts| == 0 then ""
    else if |parts| == 1 then parts[0]
    else parts[0] + sep + Join(parts[1..], sep)
  }

  /** Sum of the lengths of the parts. */
  function TotalLength(parts: seq<string>): nat
    decreases |parts|
  {
    if parts == [] then 0 else |parts[0]| + TotalLength(parts[1..])
  }

  lemma {:induction false} JoinAppend(a: seq<string>, b: seq<string>, sep: string)
    requires a != [] && b != []
    ensures Join(a + b, sep) == Join(a, sep) + sep + Join(b, sep)
    decreases |a|
  {
    if |a| == 1 {
      assert (a + b)[1..] == b;
    } else {
      assert (a + b)[1..] == a[1..] + b;
      JoinAppend(a[1..], b, sep);
    }
  }

  /** Joining n parts inserts exactly n - 1 separators. */
  lemma {:induction false} JoinLength(parts: seq<string>, sep: string)
    requires parts != []
    ensures |Join(parts, sep)| == TotalLength(parts) + (|parts| - 1) * |sep|
    decreases |parts|
  {
    if |parts| > 1 {
      JoinLength(parts[1..], sep);
    }
  }

  // ---------------------------------------------------------------------------
  // str::split on one character

  /** `str::split(c)`: the pieces between occurrences of `c`; there is always one more piece than separators. */
  function Split(s: string, c: char): (r: seq<string>)
    ensures |r| >= 1
    decreases |s|
  {
    if s == [] then [[]]
    else
      var rest := Split(s[1..], c);
      if s[0] == c then [[]] + rest else [[s[0]] + rest[0]] + rest[1..]
  }

  lemma {:induction false} SplitWithoutSeparator(s: string, c: char)
    requires c !in s
    ensures Split(s, c) == [s]
    decreases |s|
  {
    if s != [] {
      SplitWithoutSeparator(s[1..], c);
      assert [s[0]] + s[1..] == s;
    }
  }

  /** A piece free of the separator, followed by the separator, splits off as one piece. */
  lemma {:induction false} SplitCons(a: string, b: string, c: char)
    requires c !in a
    ensures Split(a + [c] + b, c) == [a] + Split(b, c)
    decreases |a|
  {
    if a == [] {
      assert a + [c] + b == [c] + b;
      assert ([c] + b)[1..] == b;
    } else {
      assert (a + [c] + b)[1..] == a[1..] + [c] + b;
      SplitCons(a[1..], b, c);
      assert [a[0]] + a[1..] == a;
    }
  }

  /** A trailing separator leaves an empty last piece. */
  lemma {:induction false} SplitSnocSeparator(a: string, c: char)
    ensures Split(a + [c], c) == Split(a, c) + [[]]
    decreases |a|
  {
    if a == [] {
      assert [c][1..] == [];
    } else {
      assert (a + [c])[1..] == a[1..] + [c];
      SplitSnocSeparator(a[1..], c);
    }
  }

  /** Splitting a joined list gives the list back when no part holds the separator. */
  lemma {:induction false} SplitJoin(parts: seq<string>, c: char)
    requires parts != []
    requires forall i :: 0 <= i < |parts| ==> c !in parts[i]
    ensures Split(Join(parts, [c]), c) == parts
    decreases |parts|
  {
    if |parts| == 1 {
      SplitWithoutSeparator(parts[0], c);
    } else {
      SplitJoin(parts[1..], c);
      SplitCons(parts[0], Join(parts[1..], [c]), c);
      assert [parts[0]] + parts[1..] == parts;
    }
  }

  /** Joining the pieces of a split with the separator gives the string back. */
  lemma {:induction false} JoinSplit(s: string, c: char)
    ensures Join(Split(s, c), [c]) == s
    decreases |s|
  {
    if s != [] {
      var rest := Split(s[1..], c);
      JoinSplit(s[1..], c);
      if s[0] == c {
        assert Split(s, c) == [[]] + rest;
        assert ([[]] + rest)[1..] == rest;
      } else {
        var r := Split(s, c);
        assert r == [[s[0]] + rest[0]] + rest[1..];
        if |rest| > 1 {
          assert r[1..] == rest[1..];
          assert Join(rest, [c]) == rest[0] + [c] + Join(rest[1..], [c]);
        }
      }
    }
  }

  // ---------------------------------------------------------------------------
  // str::lines

  /** A line terminated by "\r\n" loses its '\r' as well. */
  function StripCr(l: string): string
  {
    if |l| > 0 && l[|l| - 1] == '\r' then l[..|l| - 1] else l
  }

  /** The lines of a split on '\n': every piece but the last was terminated; an empty last piece is no line. */
  function Terminated(pieces: seq<string>): seq<string>
    requires |pieces| >= 1
    decreases |pieces|
  {
    if |pieces| == 1 then (if pieces[0] == [] then [] else pieces)
    else [StripCr(pieces[0])] + Terminated(pieces[1..])
  }

  /**
   * `str::lines`: the text split at '\n', a "\r\n" ending counting as one
   * terminator; the final line ending is optional, so a text ending in '\n'
   * has no empty last line.
   */
  function Lines(s: string): (r: seq<string>)
    ensures s == [] ==> r == []
    ensures s != [] && '\n' !in s ==> r == [s]
  {
    if s != [] && '\n' !in s then
      SplitWithoutSeparator(s, '\n');
      Terminated(Split(s, '\n'))
    else Terminated(Split(s, '\n'))
  }

  /** A line the editor can hold without `lines()` changing it: no line break characters. */
  predicate CleanLine(l: string)
  {
    '\n' !in l && '\r' !in l
  }

  predicate CleanLines(ls: seq<string>)
  {
    forall i :: 0 <= i < |ls| ==> CleanLine(ls[i])
  }

  /** The list without its last element when that element is the empty line. */
  function DropEmptyLast(ls: seq<string>): seq<string>
  {
    if ls != [] && ls[|ls| - 1] == [] then ls[..|ls| - 1] else ls
  }

  lemma {:induction false} TerminatedClean(ls: seq<string>)
    requires ls != [] && CleanLines(ls)
    ensures Terminated(ls) == DropEmptyLast(ls)
    decreases |ls|
  {
    if |ls| > 1 {
      var head, tail := ls[0], ls[1..];
      assert CleanLine(head);
      assert StripCr(head) == head by {
        if |head| > 0 {
          assert head[|head| - 1] in head;
        }
      }
      assert CleanLines(tail) by {
        forall i | 0 <= i < |tail| ensures CleanLine(tail[i]) {
          assert tail[i] == ls[i + 1];
        }
      }
      TerminatedClean(tail);
      assert Terminated(ls) == [head] + DropEmptyLast(tail);
      assert tail[|tail| - 1] == ls[|ls| - 1];
      if ls[|ls| - 1] == [] {
        assert [head] + tail[..|tail| - 1] == ls[..|ls| - 1];
      } else {
        assert [head] + tail == ls;
      }
    }
  }

  /**
   * Re-splitting joined lines with `lines()` gives the lines back, except that
   * an empty last line is lost.
   */
  lemma LinesOfJoin(ls: seq<string>)
    requires CleanLines(ls)
    ensures Lines(Join(ls, "\n")) == DropEmptyLast(ls)
  {
    if ls != [] {
      forall i | 0 <= i < |ls| ensures '\n' !in ls[i] { assert CleanLine(ls[i]); }
      SplitJoin(ls, '\n');
      TerminatedClean(ls);
    }
  }

  // ---------------------------------------------------------------------------
  // str::trim

  /** Rust's `char::is_whitespace`: the Unicode White_Space property. */
  predicate IsWhitespace(c: char)
  {
    c == ' ' || ('\t' <= c <= '\r') || c == '\U{85}' || c == '\U{A0}' || c == '\U{1680}'
    || ('\U{2000}' <= c <= '\U{200A}') || c == '\U{2028}' || c == '\U{2029}'
    || c == '\U{202F}' || c == '\U{205F}' || c == '\U{3000}'
  }

  /** `str::trim_start`: the longest suffix that does not start with whitespace. */
  function TrimStart(s: string): (r: string)
    ensures |r| <= |s| && r == s[|s| - |r|..]
    ensures r == [] || !IsWhitespace(r[0])
    ensures forall i :: 0 <= i < |s| - |r| ==> IsWhitespace(s[i])
    decreases |s|
  {
    if s != [] && IsWhitespace(s[0]) then TrimStart(s[1..]) else s
  }

  /** `str::trim_end`: the longest prefix that does not end with whitespace. */
  function TrimEnd(s: string): (r: string)
    ensures |r| <= |s| && r == s[..|r|]
    ensures r == [] || !IsWhitespace(r[|r| - 1])
    ensures forall i :: |r| <= i < |s| ==> IsWhitespace(s[i])
    decreases |s|
  {
    if s != [] && IsWhitespace(s[|s| - 1]) then TrimEnd(s[..|s| - 1]) else s
  }

  /** `str::trim`: both ends. */
  function Trim(s: string): string
  {
    TrimEnd(TrimStart(s))
  }

  // ---------------------------------------------------------------------------
  // ASCII case-insensitive comparison

  function AsciiLower(c: char): char
  {
    if 'A' <= c <= 'Z' then (c as int + 32) as char else c
  }

  /** `str::eq_ignore_ascii_case`. */
  predicate EqIgnoreAsciiCase(a: string, b: string)
  {
    |a| == |b| && forall i :: 0 <= i < |a| ==> AsciiLower(a[i]) == AsciiLower(b[i])
  }
}
