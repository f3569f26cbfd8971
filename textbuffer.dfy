/** The editor's text model as CodeEditor.js drives it: a buffer of lines that
    remote `(range, text)` changes are pushed into one at a time, the full-range
    change a local edit is broadcast as, and the cursor placement after an
    inserted completion. Positions in the source are 1-based (line, column) as
    in Monaco; `Pos` is the 0-based position they are clamped to. */
module TextBuffer {

  type Lines = seq<string>

  /** Monaco's `Range(startLineNumber, startColumn, endLineNumber, endColumn)`. */
  datatype Range = Range(startLineNumber: int, startColumn: int, endLineNumber: int, endColumn: int)

  /** One element of the `changes` list of `code_change` / `code_updated`. */
  datatype Change = Change(range: Range, text: string)

  /** A 0-based position: the line index and the number of characters before it on that line. */
  datatype Pos = Pos(line: nat, column: nat)

  /** A text model always has at least one line, and no line holds a line feed. */
  predicate WellFormed(lines: Lines)
  {
    |lines| >= 1 && forall i :: 0 <= i < |lines| ==> '\n' !in lines[i]
  }

  predicate InBuffer(lines: Lines, p: Pos)
  {
    p.line < |lines| && p.column <= |lines[p.line]|
  }

  /** The text of the buffer: its lines separated by line feeds. */
  function Join(lines: Lines): string
  {
    if |lines| == 0 then ""
    else if |lines| == 1 then lines[0]
    else lines[0] + "\n" + Join(lines[1..])
  }

  /** `text.split('\n')`: the lines of a text. */
  function Split(text: string): (r: Lines)
    ensures |r| >= 1
  {
    if |text| == 0 then [""]
    else
      var rest := Split(text[1..]);
      if text[0] == '\n' then [""] + rest
      else [[text[0]] + rest[0]] + rest[1..]
  }

  /** The lines of a text hold no line feed and join back to the text. */
  lemma {:induction false} JoinSplit(text: string)
    ensures WellFormed(Split(text)) && Join(Split(text)) == text
  {
    if |text| > 0 {
      var rest := Split(text[1..]);
      JoinSplit(text[1..]);
      assert text == [text[0]] + text[1..];
      if text[0] == '\n' {
        assert ([""] + rest)[1..] == rest;
      } else {
        var r := [[text[0]] + rest[0]] + rest[1..];
        assert r == Split(text);
        assert |rest| > 1 ==> r[1..] == rest[1..] && Join(rest) == rest[0] + "\n" + Join(rest[1..]);
        forall i | 0 <= i < |r| ensures '\n' !in r[i] {
          if i > 0 { assert r[i] == rest[i]; }
        }
      }
    }
  }

  /** A text without a line feed is a single line. */
  lemma {:induction false} SplitSingleLine(text: string)
    requires '\n' !in text
    ensures Split(text) == [text]
  {
    if |text| > 0 {
      assert '\n' !in text[1..];
      SplitSingleLine(text[1..]);
      assert text == [text[0]] + text[1..];
      SplitCons(text[0], text[1..]);
    }
  }

  /** Joining glues the two halves of a line split in two. */
  lemma {:induction false} JoinGlue(a: Lines, x: string, y: string, b: Lines)
    ensures Join(a + [x + y] + b) == Join(a + [x]) + Join([y] + b)
  {
    if |a| == 0 {
      assert a + [x + y] + b == [x + y] + b;
      assert a + [x] == [x];
      if |b| > 0 {
        assert ([x + y] + b)[1..] == b;
        assert ([y] + b)[1..] == b;
      }
    } else {
      assert (a + [x + y] + b)[1..] == a[1..] + [x + y] + b;
      assert (a + [x])[1..] == a[1..] + [x];
      JoinGlue(a[1..], x, y, b);
    }
  }

  /** Splitting the text of a well-formed buffer gives the buffer back. */
  lemma {:induction false} SplitJoin(lines: Lines)
    requires WellFormed(lines)
    ensures Split(Join(lines)) == lines
  {
    if |lines| > 1 {
      var rest := lines[1..];
      assert WellFormed(rest) by {
        forall i | 0 <= i < |rest| ensures '\n' !in rest[i] { assert rest[i] == lines[i + 1]; }
      }
      SplitJoin(rest);
      var j := Join(rest);
      assert Join(lines) == lines[0] + ("\n" + j);
      SplitNewline(j);
      SplitLinePrefix(lines[0], "\n" + j);
      assert lines[0] + "" == lines[0];
      assert [lines[0]] + rest == lines;
    } else {
      SplitSingleLine(lines[0]);
    }
  }

  lemma SplitNewline(t: string)
    ensures Split("\n" + t) == [""] + Split(t)
  {
    var s := "\n" + t;
    assert s[0] == '\n';
    assert s[1..] == t;
  }

  /** Text without a line feed in front of `t` joins the first line of `t`. */
  lemma {:induction false} SplitLinePrefix(x: string, t: string)
    requires '\n' !in x
    ensures Split(x + t) == [x + Split(t)[0]] + Split(t)[1..]
  {
    var T := Split(t);
    if |x| > 0 {
      assert '\n' !in x[1..];
      SplitLinePrefix(x[1..], t);
      assert x + t == [x[0]] + (x[1..] + t);
      SplitCons(x[0], x[1..] + t);
      assert [x[0]] + (x[1..] + T[0]) == x + T[0];
    } else {
      assert x + t == t;
      assert x + T[0] == T[0];
      assert [T[0]] + T[1..] == T;
    }
  }

  lemma SplitCons(c: char, u: string)
    requires c != '\n'
    ensures Split([c] + u) == [[c] + Split(u)[0]] + Split(u)[1..]
  {
    var s := [c] + u;
    assert s[0] == c && s[1..] == u;
  }

  /** The text before a position. */
  function TextBefore(lines: Lines, p: Pos): string
    requires InBuffer(lines, p)
  {
    Join(lines[..p.line] + [lines[p.line][..p.column]])
  }

  /** The text from a position to the end. */
  function TextAfter(lines: Lines, p: Pos): string
    requires InBuffer(lines, p)
  {
    Join([lines[p.line][p.column..]] + lines[p.line + 1..])
  }

  /** Any position cuts the text of the buffer in two. */
  lemma TextAround(lines: Lines, p: Pos)
    requires InBuffer(lines, p)
    ensures Join(lines) == TextBefore(lines, p) + TextAfter(lines, p)
  {
    var l := lines[p.line];
    assert l == l[..p.column] + l[p.column..];
    assert lines == lines[..p.line] + [l[..p.column] + l[p.column..]] + lines[p.line + 1..];
    JoinGlue(lines[..p.line], l[..p.column], l[p.column..], lines[p.line + 1..]);
  }

  /** Monaco's position validation: a line before the first goes to the start of
      the buffer, a line after the last to its end, and the column is clamped to
      the line (column `|line| + 1` is the end of the line). */
  function Clamp(lines: Lines, line: int, column: int): (p: Pos)
    requires |lines| >= 1
    ensures InBuffer(lines, p)
    ensures 1 <= line <= |lines| && 1 <= column <= |lines[line - 1]| + 1 ==> p == Pos(line - 1, column - 1)
  {
    if line < 1 then Pos(0, 0)
    else if line > |lines| then Pos(|lines| - 1, |lines[|lines| - 1]|)
    else if column < 1 then Pos(line - 1, 0)
    else if column > |lines[line - 1]| + 1 then Pos(line - 1, |lines[line - 1]|)
    else Pos(line - 1, column - 1)
  }

  predicate PosLe(a: Pos, b: Pos)
  {
    a.line < b.line || (a.line == b.line && a.column <= b.column)
  }

  /** The part of the buffer a range covers, start before end (Monaco's `Range`
      swaps reversed ends). */
  function Span(lines: Lines, r: Range): (s: (Pos, Pos))
    requires |lines| >= 1
    ensures InBuffer(lines, s.0) && InBuffer(lines, s.1) && PosLe(s.0, s.1)
  {
    var a := Clamp(lines, r.startLineNumber, r.startColumn);
    var b := Clamp(lines, r.endLineNumber, r.endColumn);
    if PosLe(a, b) then (a, b) else (b, a)
  }

  /** The lines `ins` with `head` in front of the first and `tail` after the last. */
  function Framed(head: string, ins: Lines, tail: string): (r: Lines)
    requires |ins| >= 1
    ensures |r| == |ins|
  {
    if |ins| == 1 then [head + ins[0] + tail]
    else [head + ins[0]] + ins[1..|ins| - 1] + [ins[|ins| - 1] + tail]
  }

  lemma JoinFramed(pre: Lines, head: string, ins: Lines, tail: string, post: Lines)
    requires |ins| >= 1
    ensures Join(pre + Framed(head, ins, tail) + post) == Join(pre + [head]) + Join(ins) + Join([tail] + post)
  {
    var f := Framed(head, ins, tail);
    if |ins| == 1 {
      assert f == [head + ins[0] + tail];
      assert Join(ins) == ins[0];
      JoinFramedOne(pre, head, ins[0], tail, post);
    } else {
      var mid := ins[1..|ins| - 1];
      var last := ins[|ins| - 1];
      assert f == [head + ins[0]] + mid + [last + tail];
      assert pre + f + post == pre + [head + ins[0]] + mid + [last + tail] + post;
      assert [ins[0]] + mid + [last] == ins;
      JoinFramedMany(pre, head, ins[0], mid, last, tail, post);
    }
  }

  lemma JoinFramedOne(pre: Lines, head: string, x: string, tail: string, post: Lines)
    ensures Join(pre + [head + x + tail] + post) == Join(pre + [head]) + x + Join([tail] + post)
  {
    assert head + x + tail == head + (x + tail);
    JoinGlue(pre, head, x + tail, post);
    JoinGlue([], x, tail, post);
    assert [] + [x + tail] + post == [x + tail] + post;
    assert [] + [x] == [x];
  }

  lemma JoinFramedMany(pre: Lines, head: string, first: string, mid: Lines, last: string, tail: string, post: Lines)
    ensures Join(pre + [head + first] + mid + [last + tail] + post)
         == Join(pre + [head]) + Join([first] + mid + [last]) + Join([tail] + post)
  {
    var rest := mid + [last + tail] + post;
    assert pre + [head + first] + mid + [last + tail] + post == pre + [head + first] + rest;
    JoinGlue(pre, head, first, rest);
    assert [first] + rest == ([first] + mid) + [last + tail] + post;
    JoinGlue([first] + mid, last, tail, post);
  }

  /** The buffer with the text between `s` and `e` replaced by the lines `ins`. */
  function Splice(lines: Lines, s: Pos, e: Pos, ins: Lines): (r: Lines)
    requires InBuffer(lines, s) && InBuffer(lines, e) && PosLe(s, e) && |ins| >= 1
    ensures |r| == s.line + |ins| + (|lines| - e.line - 1)
  {
    lines[..s.line] + Framed(lines[s.line][..s.column], ins, lines[e.line][e.column..]) + lines[e.line + 1..]
  }

  lemma SpliceText(lines: Lines, s: Pos, e: Pos, ins: Lines)
    requires InBuffer(lines, s) && InBuffer(lines, e) && PosLe(s, e) && |ins| >= 1
    ensures Join(Splice(lines, s, e, ins)) == TextBefore(lines, s) + Join(ins) + TextAfter(lines, e)
  {
    JoinSpliceUnfolded(lines, s, e, ins);
    TextBeforeUnfolded(lines, s);
    TextAfterUnfolded(lines, e);
    JoinFramed(lines[..s.line], lines[s.line][..s.column], ins, lines[e.line][e.column..], lines[e.line + 1..]);
  }

  // The unfoldings below are kept apart from `SpliceText`, where doing them
  // next to the recursive `Join` facts is too costly for the solver.
  lemma JoinSpliceUnfolded(lines: Lines, s: Pos, e: Pos, ins: Lines)
    requires InBuffer(lines, s) && InBuffer(lines, e) && PosLe(s, e) && |ins| >= 1
    ensures Join(Splice(lines, s, e, ins)) == Join(lines[..s.line] + Framed(lines[s.line][..s.column], ins, lines[e.line][e.column..]) + lines[e.line + 1..])
  {}

  lemma TextBeforeUnfolded(lines: Lines, p: Pos)
    requires InBuffer(lines, p)
    ensures TextBefore(lines, p) == Join(lines[..p.line] + [lines[p.line][..p.column]])
  {}

  lemma TextAfterUnfolded(lines: Lines, p: Pos)
    requires InBuffer(lines, p)
    ensures TextAfter(lines, p) == Join([lines[p.line][p.column..]] + lines[p.line + 1..])
  {}

  lemma SpliceWellFormed(lines: Lines, s: Pos, e: Pos, ins: Lines)
    requires InBuffer(lines, s) && InBuffer(lines, e) && PosLe(s, e)
    requires WellFormed(lines) && WellFormed(ins)
    ensures WellFormed(Splice(lines, s, e, ins))
  {
    var head := lines[s.line][..s.column];
    var tail := lines[e.line][e.column..];
    var r := Splice(lines, s, e, ins);
    assert '\n' !in head && '\n' !in tail by {
      assert lines[s.line] == head + lines[s.line][s.column..];
      assert lines[e.line] == lines[e.line][..e.column] + tail;
    }
    var f := Framed(head, ins, tail);
    assert forall k :: 0 <= k < |f| ==> '\n' !in f[k] by {
      forall k | 0 <= k < |f| ensures '\n' !in f[k] {
        assert '\n' !in ins[0] && '\n' !in ins[|ins| - 1];
        if |ins| > 1 && 0 < k < |ins| - 1 { assert f[k] == ins[k]; }
      }
    }
    forall i | 0 <= i < |r| ensures '\n' !in r[i] {
      if i < s.line {
        assert r[i] == lines[i];
      } else if i >= s.line + |ins| {
        assert r[i] == lines[e.line + 1 + (i - s.line - |ins|)];
      } else {
        assert r[i] == f[i - s.line];
      }
    }
  }

  /** Push one change into the buffer: the clamped range is replaced by the
      change's text, and the text around it is kept. */
  function ApplyEdit(lines: Lines, c: Change): (r: Lines)
    requires |lines| >= 1
    ensures |r| >= 1 && Span(lines, c.range).0.line < |r|
    ensures Join(r) == TextBefore(lines, Span(lines, c.range).0) + c.text + TextAfter(lines, Span(lines, c.range).1)
    ensures r[..Span(lines, c.range).0.line] == lines[..Span(lines, c.range).0.line]
    ensures WellFormed(lines) ==> WellFormed(r)
  {
    var (s, e) := Span(lines, c.range);
    var ins := Split(c.text);
    JoinSplit(c.text);
    SpliceText(lines, s, e, ins);
    if WellFormed(lines) then
      SpliceWellFormed(lines, s, e, ins);
      Splice(lines, s, e, ins)
    else
      Splice(lines, s, e, ins)
  }

  /** `changes.forEach(change => model.pushEditOperations(...))`: each change is
      applied to the buffer the previous one produced. */
  function ApplyChanges(lines: Lines, changes: seq<Change>): (r: Lines)
    requires |lines| >= 1
    ensures |r| >= 1
    ensures WellFormed(lines) ==> WellFormed(r)
    decreases |changes|
  {
    if |changes| == 0 then lines else ApplyChanges(ApplyEdit(lines, changes[0]), changes[1..])
  }

  /** Applying two batches one after the other is applying their concatenation. */
  lemma {:induction false} ApplyChangesConcat(lines: Lines, a: seq<Change>, b: seq<Change>)
    requires |lines| >= 1
    ensures ApplyChanges(lines, a + b) == ApplyChanges(ApplyChanges(lines, a), b)
    decreases |a|
  {
    if |a| == 0 {
      assert a + b == b;
    } else {
      assert (a + b)[1..] == a[1..] + b;
      ApplyChangesConcat(ApplyEdit(lines, a[0]), a[1..], b);
    }
  }

  /** `model.getFullModelRange()`: from the first column of the first line to
      the end of the last line. */
  function FullRange(lines: Lines): (r: Range)
    requires |lines| >= 1
    ensures Span(lines, r) == (Pos(0, 0), Pos(|lines| - 1, |lines[|lines| - 1]|))
  {
    Range(1, 1, |lines|, |lines[|lines| - 1]| + 1)
  }

  /** Replacing the full range of a buffer by a text leaves exactly that text. */
  lemma ReplaceFullRange(lines: Lines, text: string)
    requires |lines| >= 1
    ensures ApplyEdit(lines, Change(FullRange(lines), text)) == Split(text)
  {
    var ins := Split(text);
    var last := lines[|lines| - 1];
    assert last[|last|..] == "";
    assert lines[0][..0] == "";
    assert Framed("", ins, "") == ins by {
      if |ins| == 1 { assert "" + ins[0] + "" == ins[0]; }
      else {
        assert "" + ins[0] == ins[0];
        assert ins[|ins| - 1] + "" == ins[|ins| - 1];
        assert [ins[0]] + ins[1..|ins| - 1] + [ins[|ins| - 1]] == ins;
      }
    }
    assert lines[..0] == [] && lines[|lines|..] == [];
  }

  /** The number of line feeds in a text. */
  function LineFeeds(t: string): nat
  {
    if |t| == 0 then 0 else (if t[0] == '\n' then 1 else 0) + LineFeeds(t[1..])
  }

  /** A text has one line more than it has line feeds. */
  lemma {:induction false} SplitCount(t: string)
    ensures |Split(t)| == LineFeeds(t) + 1
  {
    if |t| > 0 {
      SplitCount(t[1..]);
    }
  }

  /** The last line of a text is the part after its last line feed, and the
      whole text when it has none. */
  lemma {:induction false} SplitLast(t: string)
    ensures var last := Split(t)[|Split(t)| - 1];
            '\n' !in last && |last| <= |t| && t[|t| - |last|..] == last &&
            (|Split(t)| == 1 ==> last == t) &&
            (|Split(t)| > 1 ==> |last| < |t| && t[|t| - |last| - 1] == '\n')
  {
    if |t| > 0 {
      var u := t[1..];
      var rest := Split(u);
      var last := rest[|rest| - 1];
      SplitLast(u);
      assert t[|t| - |last|..] == u[|u| - |last|..];
      if t[0] == '\n' {
        assert Split(t) == [""] + rest;
        assert Split(t)[|Split(t)| - 1] == last;
        if |rest| > 1 {
          assert t[|t| - |last| - 1] == u[|u| - |last| - 1];
        }
      } else if |rest| > 1 {
        assert Split(t) == [[t[0]] + rest[0]] + rest[1..];
        assert Split(t)[|Split(t)| - 1] == last;
        assert t[|t| - |last| - 1] == u[|u| - |last| - 1];
      } else {
        assert Split(t) == [[t[0]] + u];
        assert [t[0]] + u == t;
      }
    }
  }

  /** Where the cursor goes after `suggestion` is inserted at (line, column):
      on the last inserted line, after its last character. */
  function CursorAfterInsert(line: int, column: int, suggestion: string): (p: (int, int))
    ensures '\n' !in suggestion ==> p.1 == column + |suggestion|
    ensures '\n' in suggestion ==>
              1 <= p.1 <= |suggestion| && suggestion[|suggestion| - p.1] == '\n' &&
              '\n' !in suggestion[|suggestion| - p.1 + 1..]
  {
    var ls := Split(suggestion);
    var last := ls[|ls| - 1];
    SplitLast(suggestion);
    (line + |ls| - 1, if |ls| == 1 then column + |last| else |last| + 1)
  }

  /** The cursor moves down by the number of line feeds inserted. */
  lemma CursorLine(line: int, column: int, suggestion: string)
    ensures CursorAfterInsert(line, column, suggestion).0 == line + LineFeeds(suggestion)
  {
    SplitCount(suggestion);
  }

  /** Inserting a text at a position of the buffer and moving the cursor as the
      editor does puts the cursor right after the inserted text. */
  lemma CursorLandsAfterInsertion(lines: Lines, line: int, column: int, suggestion: string)
    requires |lines| >= 1 && 1 <= line <= |lines| && 1 <= column <= |lines[line - 1]| + 1
    ensures var r := ApplyEdit(lines, Change(Range(line, column, line, column), suggestion));
            var p := CursorAfterInsert(line, column, suggestion);
            1 <= p.0 <= |r| && 1 <= p.1 <= |r[p.0 - 1]| + 1 &&
            TextBefore(r, Pos(p.0 - 1, p.1 - 1)) == TextBefore(lines, Pos(line - 1, column - 1)) + suggestion
  {
    var c := Change(Range(line, column, line, column), suggestion);
    var r := ApplyEdit(lines, c);
    var p := CursorAfterInsert(line, column, suggestion);
    var at := Pos(line - 1, column - 1);
    assert Span(lines, c.range) == (at, at);
    var ins := Split(suggestion);
    var n := |ins|;
    var pre, head := lines[..at.line], lines[at.line][..at.column];
    var tail, post := lines[at.line][at.column..], lines[at.line + 1..];
    var f, g := Framed(head, ins, tail), Framed(head, ins, "");
    assert r == pre + f + post;
    FramedPrefix(head, ins, tail);
    var q := Pos(p.0 - 1, p.1 - 1);
    assert q.line == at.line + n - 1 && q.column == |g[n - 1]|;
    assert r[..q.line] + [r[q.line][..q.column]] == pre + g + [] by {
      assert r[..q.line] == pre + f[..n - 1];
      assert r[q.line] == f[n - 1];
      assert r[q.line][..q.column] == g[n - 1];
      assert g == g[..n - 1] + [g[n - 1]];
    }
    assert Join(pre + g + []) == TextBefore(lines, at) + suggestion by {
      JoinFramed(pre, head, ins, "", []);
      JoinSplit(suggestion);
      assert Join([""] + []) == "";
    }
  }

  /** Framing with a tail only changes the last framed line. */
  lemma FramedPrefix(head: string, ins: Lines, tail: string)
    requires |ins| >= 1
    ensures var f, g := Framed(head, ins, tail), Framed(head, ins, "");
            f[..|ins| - 1] == g[..|ins| - 1] && f[|ins| - 1] == g[|ins| - 1] + tail &&
            |g[|ins| - 1]| == (if |ins| == 1 then |head| else 0) + |ins[|ins| - 1]|
  {
    if |ins| == 1 {
      assert head + ins[0] + "" == head + ins[0];
    } else {
      assert ins[|ins| - 1] + "" == ins[|ins| - 1];
    }
  }
}
