/** Diagnostic arithmetic and rendering: offsets to line numbers, line
    bounds, the gutter, the caret row, and the two fatal reports. The
    reports are returned as the lines the original prints before it exits. */
module Errors {
  import opened Wrappers
  import opened Strings
  import opened Tokens

  /** A suggested fix shown under a report: a message, a line of code and
      the line number it is labelled with. */
  datatype Help = Help(message: string, source: string, line: nat)

  function Min(a: nat, b: nat): nat {
    if a <= b then a else b
  }

  predicate NoNewline(s: string) {
    forall k :: 0 <= k < |s| ==> s[k] != '\n'
  }

  lemma {:induction false} NoNewlineCount(s: string)
    ensures NoNewline(s) <==> NewlineCount(s) == 0
  {
    if s != [] {
      NoNewlineCount(s[1..]);
      assert NoNewline(s) <==> s[0] != '\n' && NoNewline(s[1..]) by {
        if s[0] != '\n' && NoNewline(s[1..]) {
          forall k | 0 <= k < |s| ensures s[k] != '\n' {
            if k > 0 { assert s[k] == s[1..][k - 1]; }
          }
        }
      }
    }
  }

  /** Counting line breaks splits over a cut of the text. */
  lemma NewlineCountSplit(s: string, a: nat, b: nat)
    requires a <= b <= |s|
    ensures NewlineCount(s[..b]) == NewlineCount(s[..a]) + NewlineCount(s[a..b])
  {
    assert s[..b] == s[..a] + s[a..b];
    NewlineCountConcat(s[..a], s[a..b]);
  }

  /** One more character adds one to the count exactly when it is a line break. */
  lemma NewlineCountStep(s: string, i: nat)
    requires i < |s|
    ensures NewlineCount(s[..i + 1]) == NewlineCount(s[..i]) + (if s[i] == '\n' then 1 else 0)
  {
    NewlineCountSplit(s, i, i + 1);
    assert s[i..i + 1] == [s[i]];
  }

  // ---------------------------------------------------------------------
  // get_line

  /** The line number `get_line` computes: one plus the line breaks at
      indices up to and including `pos`. */
  function LineOf(src: string, pos: nat): nat {
    1 + NewlineCount(src[..Min(pos + 1, |src|)])
  }

  /** The line containing offset `pos`: one plus the line breaks strictly
      before it, so that a line break belongs to the line it ends. */
  function LineAt(src: string, pos: nat): nat {
    1 + NewlineCount(src[..Min(pos, |src|)])
  }

  /** `get_line`: a scan that counts the line breaks up to `pos` and stops
      at the first one past it. */
  method GetLine(src: string, pos: nat) returns (line: nat)
    ensures line == LineOf(src, pos)
  {
    line := 1;
    var i := 0;
    while i < |src|
      invariant i <= |src|
      invariant line == 1 + NewlineCount(src[..Min(i, pos + 1)])
    {
      if i <= pos {
        NewlineCountStep(src, i);
      }
      if src[i] == '\n' {
        if i > pos {
          break;
        }
        line := line + 1;
      }
      i := i + 1;
    }
  }

  /** Further offsets never have smaller line numbers. */
  lemma LineOfMonotone(src: string, p: nat, q: nat)
    requires p <= q
    ensures LineOf(src, p) <= LineOf(src, q)
    ensures LineAt(src, p) <= LineAt(src, q)
  {
    NewlineCountSplit(src, Min(p + 1, |src|), Min(q + 1, |src|));
    NewlineCountSplit(src, Min(p, |src|), Min(q, |src|));
  }

  /** An offset with no line break up to it is on line 1. */
  lemma LineOfFirstLine(src: string, pos: nat)
    requires NoNewline(src[..Min(pos + 1, |src|)])
    ensures LineOf(src, pos) == 1
  {
    NoNewlineCount(src[..Min(pos + 1, |src|)]);
  }

  // ---------------------------------------------------------------------
  // get_line_src

  /** The first line break at or after `from`, or the end of the text. */
  function NextNewline(src: string, from: nat): (e: nat)
    requires from <= |src|
    ensures from <= e <= |src|
    ensures NoNewline(src[from..e])
    ensures e < |src| ==> src[e] == '\n'
    decreases |src| - from
  {
    if from == |src| || src[from] == '\n' then from
    else
      NextNewline(src, from + 1)
  }

  /** Where line `n` starts: after the line break that ends line n-1; past
      the last line break, every further line starts where the last does. */
  function StartOfLine(src: string, n: nat): (s: nat)
    ensures s <= |src|
    ensures s == 0 || src[s - 1] == '\n'
    decreases n
  {
    if n <= 1 then 0
    else
      var p := StartOfLine(src, n - 1);
      var e := NextNewline(src, p);
      if e < |src| then e + 1 else p
  }

  /** The offsets `get_line_src` returns for line `n`: where the line
      starts and where its terminating line break (or the text) ends. Line
      0 never matches, and is given the last line. */
  function LineBounds(src: string, n: nat): (nat, nat) {
    var s := StartOfLine(src, if n == 0 then NewlineCount(src) + 1 else n);
    (s, NextNewline(src, s))
  }

  /** Line `n` is preceded by n-1 line breaks (fewer when the text has fewer). */
  lemma {:induction false} StartOfLineCount(src: string, n: nat)
    requires n >= 1
    ensures NewlineCount(src[..StartOfLine(src, n)]) == Min(n - 1, NewlineCount(src))
  {
    if n > 1 {
      StartOfLineCount(src, n - 1);
      var p := StartOfLine(src, n - 1);
      var e := NextNewline(src, p);
      NoNewlineCount(src[p..e]);
      NewlineCountSplit(src, p, e);
      if e < |src| {
        NewlineCountStep(src, e);
        NewlineCountSplit(src, e + 1, |src|);
        assert src[..|src|] == src;
      } else {
        assert src[..e] == src;
      }
    }
  }

  /** The range `get_line_src` returns is one physical line: ordered, free
      of line breaks, starting at the text's start or after a line break
      and ending at a line break or at the text's end. */
  lemma LineBoundsAreALine(src: string, n: nat)
    ensures LineBounds(src, n).0 <= LineBounds(src, n).1 <= |src|
    ensures NoNewline(src[LineBounds(src, n).0..LineBounds(src, n).1])
    ensures LineBounds(src, n).0 == 0 || src[LineBounds(src, n).0 - 1] == '\n'
    ensures LineBounds(src, n).1 == |src| || src[LineBounds(src, n).1] == '\n'
  {
  }

  /** For an existing line number `n`, the range is preceded by exactly
      n-1 line breaks: it is the n-th line. */
  lemma LineBoundsIsNthLine(src: string, n: nat)
    requires 1 <= n <= NewlineCount(src) + 1
    ensures NewlineCount(src[..LineBounds(src, n).0]) == n - 1
  {
    StartOfLineCount(src, n);
  }

  /** Beyond the last line, and for line 0, the range is the last line. */
  lemma LineBoundsPastEnd(src: string, n: nat)
    requires n == 0 || n > NewlineCount(src)
    ensures LineBounds(src, n).1 == |src|
  {
    var s := LineBounds(src, n).0;
    StartOfLineCount(src, if n == 0 then NewlineCount(src) + 1 else n);
    NewlineCountSplit(src, s, |src|);
    assert src[..|src|] == src;
    NoNewlineCount(src[s..]);
    NextNewlineNone(src, s);
  }

  /** A stretch with no line break runs to the end of the text. */
  lemma NextNewlineNone(src: string, from: nat)
    requires from <= |src| && NoNewline(src[from..])
    ensures NextNewline(src, from) == |src|
  {
  }

  /** Past the last line break every line number starts at the same place. */
  lemma {:induction false} StartOfLineSaturates(src: string, n: nat, m: nat)
    requires n >= NewlineCount(src) + 1 && m >= n
    ensures StartOfLine(src, m) == StartOfLine(src, n)
    decreases m
  {
    if m > n {
      StartOfLineSaturates(src, n, m - 1);
      var p := StartOfLine(src, n);
      StartOfLineCount(src, n);
      NewlineCountSplit(src, p, |src|);
      assert src[..|src|] == src;
      NoNewlineCount(src[p..]);
      NextNewlineNone(src, p);
    }
  }

  /** `get_line_src`: a scan that moves the line start past each line break
      until it meets the break that ends line `line`. */
  method GetLineSrc(src: string, line: nat) returns (lineStart: nat, lineEnd: nat)
    ensures (lineStart, lineEnd) == LineBounds(src, line)
  {
    lineStart := 0;
    var cline: nat := 1;
    var i := 0;
    while i < |src|
      invariant i <= |src|
      invariant cline == 1 + NewlineCount(src[..i])
      invariant line >= 1 ==> cline <= line
      invariant lineStart == StartOfLine(src, cline) && lineStart <= i
      invariant NoNewline(src[lineStart..i])
    {
      NewlineCountStep(src, i);
      if src[i] == '\n' {
        NextNewlineAt(src, lineStart, i);
        if cline == line {
          // the original breaks out of the scan with `line_end = Some(i)`
          lineEnd := i;
          return;
        }
        StartOfLineNext(src, cline, i);
        cline := cline + 1;
        lineStart := i + 1;
      } else {
        assert src[lineStart..i + 1] == src[lineStart..i] + [src[i]];
      }
      i := i + 1;
    }
    // no break ended line `line`: `line_end.unwrap_or(src.len())`
    lineEnd := |src|;
    assert src[..i] == src && src[lineStart..i] == src[lineStart..];
    LastLine(src, line, cline, lineStart);
  }

  lemma StartOfLineNext(src: string, n: nat, i: nat)
    requires n >= 1 && StartOfLine(src, n) <= i < |src| && src[i] == '\n'
    requires NoNewline(src[StartOfLine(src, n)..i])
    ensures StartOfLine(src, n + 1) == i + 1
  {
    NextNewlineAt(src, StartOfLine(src, n), i);
  }

  lemma LastLine(src: string, line: nat, cline: nat, lineStart: nat)
    requires cline == 1 + NewlineCount(src) && (line >= 1 ==> cline <= line)
    requires lineStart == StartOfLine(src, cline) && NoNewline(src[lineStart..])
    ensures LineBounds(src, line) == (lineStart, |src|)
  {
    if line != 0 {
      StartOfLineSaturates(src, cline, line);
    }
    NextNewlineNone(src, lineStart);
  }

  /** The first line break after a break-free stretch is the one that ends it. */
  lemma {:induction false} NextNewlineAt(src: string, from: nat, i: nat)
    requires from <= i < |src| && src[i] == '\n' && NoNewline(src[from..i])
    ensures NextNewline(src, from) == i
    decreases i - from
  {
    if from < i {
      assert src[from] == src[from..i][0];
      assert src[from + 1..i] == src[from..i][1..];
      NextNewlineAt(src, from + 1, i);
    }
  }

  // ---------------------------------------------------------------------
  // Where an offset sits on its line.

  lemma NewlineInside(s: string, k: nat)
    requires k < |s| && s[k] == '\n'
    ensures NewlineCount(s) >= 1
  {
    NoNewlineCount(s);
  }

  /** With line breaks counted strictly before `pos`, the line found for
      `pos` starts at or before it and, inside the text, ends at or after it. */
  lemma LineAtInsideLine(src: string, pos: nat)
    ensures LineBounds(src, LineAt(src, pos)).0 <= pos
    ensures pos <= |src| ==> pos <= LineBounds(src, LineAt(src, pos)).1
  {
    var q := Min(pos, |src|);
    var n := LineAt(src, pos);
    NewlineCountSplit(src, q, |src|);
    assert src[..|src|] == src;
    StartOfLineCount(src, n);
    var (ls, le) := LineBounds(src, n);
    if ls > q {
      NewlineCountSplit(src, q, ls);
      NewlineInside(src[q..ls], ls - 1 - q);
    }
    if pos <= |src| && le < pos {
      NewlineCountSplit(src, ls, pos);
      NewlineInside(src[ls..pos], le - ls);
    }
  }

  /** Away from a line break the two line counts agree. */
  lemma LineOfAgrees(src: string, pos: nat)
    requires pos >= |src| || src[pos] != '\n'
    ensures LineOf(src, pos) == LineAt(src, pos)
  {
    if pos < |src| {
      NewlineCountStep(src, pos);
    }
  }

  lemma NoNewlinePrefix(s: string, a: nat, b: nat, c: nat)
    requires a <= b <= c <= |s| && NoNewline(s[a..c])
    ensures NoNewline(s[a..b])
  {
    assert forall k :: 0 <= k < b - a ==> s[a..b][k] == s[a..c][k];
  }

  /** `get_line` at a line break gives the NEXT line, whose start lies past
      `pos`: `scope.start - line_start` is then -1. */
  lemma LineOfAtNewlineOverruns(src: string, pos: nat)
    requires pos < |src| && src[pos] == '\n'
    ensures LineOf(src, pos) == LineAt(src, pos) + 1
    ensures LineBounds(src, LineOf(src, pos)).0 == pos + 1
  {
    NewlineCountStep(src, pos);
    NextLineStart(src, pos);
  }

  /** The line after the one a line break ends starts right after it. */
  lemma NextLineStart(src: string, pos: nat)
    requires pos < |src| && src[pos] == '\n'
    ensures StartOfLine(src, LineAt(src, pos) + 1) == pos + 1
  {
    var n := LineAt(src, pos);
    LineAtInsideLine(src, pos);
    var ls := StartOfLine(src, n);
    var le := NextNewline(src, ls);
    NoNewlinePrefix(src, ls, pos, le);
    StartOfLineNext(src, n, pos);
  }

  /** The report the parser gives for "datapack d\nfn main\n", whose `fn`
      is followed by a line break instead of a block, is anchored at that
      line break (offset 18): the column comes out as -1. */
  lemma ColumnUnderflowExample()
    ensures var src := "datapack d\nfn main\n";
      18 - LineBounds(src, LineOf(src, 18)).0 == -1
  {
    var src := "datapack d\nfn main\n";
    LineOfAtNewlineOverruns(src, 18);
  }

  /** Line number, line range and column of offset `pos`, as
      `underline_word` computes them (line breaks before `pos` counted). */
  datatype Location = Location(line: nat, lineStart: nat, lineEnd: nat, column: nat)

  function Locate(src: string, pos: nat): (loc: Location)
    ensures (loc.lineStart, loc.lineEnd) == LineBounds(src, loc.line)
    ensures loc.line >= 1 && NewlineCount(src[..loc.lineStart]) == loc.line - 1
    ensures loc.lineStart + loc.column == pos
    ensures loc.lineStart <= loc.lineEnd <= |src| && NoNewline(src[loc.lineStart..loc.lineEnd])
    ensures pos <= |src| ==> pos <= loc.lineEnd
  {
    var line := LineAt(src, pos);
    LineAtInsideLine(src, pos);
    NewlineCountSplit(src, Min(pos, |src|), |src|);
    assert src[..|src|] == src;
    LineBoundsIsNthLine(src, line);
    var (s, e) := LineBounds(src, line);
    Location(line, s, e, pos - s)
  }

  // ---------------------------------------------------------------------
  // Rendering.

  /** The line-number column: a number right-aligned in five places, or
      blanks, followed by a bar. */
  function Gutter(line: Option<nat>): (g: string)
    ensures (line.None? || line.value < 100000) ==> |g| == 8
    ensures line.Some? ==>
              var d := NatToString(line.value);
              |g| == (if |d| < 5 then 5 else |d|) + 3
    ensures |g| >= 3 && g[|g| - 3..] == " | "
    ensures line.None? ==> forall k :: 0 <= k < |g| - 2 ==> g[k] == ' '
    ensures line.Some? ==>
              var d := NatToString(line.value);
              |g| >= |d| + 3 && g[|g| - 3 - |d|..|g| - 3] == d
              && forall k :: 0 <= k < |g| - 3 - |d| ==> g[k] == ' '
  {
    match line
    case Some(n) =>
      var d := NatToString(n);
      var p := PadLeft(d, 5);
      var g := p + " | ";
      DropPrefix(p, " | ");
      assert g[|p| - |d|..|p|] == p[|p| - |d|..];
      if n < 100000 then NatToStringWidth(n, 5); g else g
    case None => "      | "
  }

  /** The underline row after its gutter: `indent` blanks, `width` carets,
      a blank and the note. */
  function CaretRow(indent: nat, width: nat, note: string): (r: string)
    ensures |r| == indent + width + 1 + |note|
    ensures forall k :: 0 <= k < indent ==> r[k] == ' '
    ensures forall k :: indent <= k < indent + width ==> r[k] == '^'
    ensures r[indent + width] == ' ' && r[indent + width + 1..] == note
  {
    Repeat(' ', indent) + Repeat('^', width) + " " + note
  }

  function SourceRow(line: nat, text: string): string {
    Gutter(Some(line)) + text
  }

  function MarkRow(indent: nat, width: nat, note: string): string {
    Gutter(None) + CaretRow(indent, width, note)
  }

  function GetOr(o: Option<string>, default: string): string {
    if o.Some? then o.value else default
  }

  /** `underline_word`: an optional "--> path:line:column" header, then the
      physical line holding `scope.start` between blank gutter rows, then
      carets under the scope followed by the note. */
  /** The `-->` line naming the path, line and column of an excerpt. */
  function FileLocation(path: string, loc: Location): string {
    "    --> " + path + ":" + NatToString(loc.line) + ":" + NatToString(loc.column) + "\n"
  }

  function UnderlineWord(scope: Scope, more: Option<string>, showFileLoc: bool): string
    requires scope.start <= scope.end
  {
    var src := scope.file.source;
    var loc := Locate(src, scope.start);
    var excerpt := Excerpt(src, loc, scope.end - scope.start, GetOr(more, ""));
    if showFileLoc then FileLocation(scope.file.path, loc) + excerpt else excerpt
  }

  /** A blank gutter row, the numbered source line and the mark row. */
  function Excerpt(src: string, loc: Location, width: nat, note: string): string
    requires loc.lineStart <= loc.lineEnd <= |src|
  {
    Gutter(None) + "\n" + SourceRow(loc.line, src[loc.lineStart..loc.lineEnd]) + "\n"
      + MarkRow(loc.column, width, note)
  }

  /** Past the 8-column gutter, the source row holds the line's text. */
  lemma SourceRowText(line: nat, text: string, c: nat)
    requires line < 100000 && c < |text|
    ensures 8 + c < |SourceRow(line, text)| && SourceRow(line, text)[8 + c] == text[c]
  {
  }

  /** Past the 8-column gutter, the mark row holds blanks up to `indent`
      and then `width` carets. */
  lemma MarkRowCarets(indent: nat, width: nat, note: string)
    ensures var marks := MarkRow(indent, width, note);
      |marks| == 8 + indent + width + 1 + |note|
      && (forall k :: 8 <= k < 8 + indent ==> marks[k] == ' ')
      && (forall k :: 8 + indent <= k < 8 + indent + width ==> marks[k] == '^')
  {
    var caret := CaretRow(indent, width, note);
    var marks := MarkRow(indent, width, note);
    assert marks == Gutter(None) + caret;
    assert forall k :: 8 <= k < |marks| ==> marks[k] == caret[k - 8];
  }

  /** The carets of `underline_word` sit exactly under the scope: with the
      line start and column that `Locate` gives (`lineStart + column` is the
      scope's start), the character at `lineStart + column` is at offset
      `8 + column` of the source row, the mark row has only blanks from the
      gutter up to there and then one caret per character of the scope. */
  lemma {:induction false} RowAlignment(src: string, line: nat, lineStart: nat, lineEnd: nat, column: nat, width: nat, note: string)
    requires line < 100000 && lineStart <= lineEnd <= |src|
    ensures var row := SourceRow(line, src[lineStart..lineEnd]);
      var marks := MarkRow(column, width, note);
      var at := 8 + column;
      (lineStart + column < lineEnd ==> at < |row| && row[at] == src[lineStart + column])
      && (forall k :: at <= k < at + width ==> marks[k] == '^')
      && (forall k :: 8 <= k < at ==> marks[k] == ' ')
  {
    MarkRowCarets(column, width, note);
    if lineStart + column < lineEnd {
      var text := src[lineStart..lineEnd];
      assert text[column] == src[lineStart + column];
      SourceRowText(line, text, column);
    }
  }

  /** `underline_word` is the optional header naming the line and column
      that `Locate` gives at the scope's start, then a blank gutter row, the
      source row of that line and the mark row. */
  lemma UnderlineLayout(scope: Scope, more: Option<string>, showFileLoc: bool)
    requires scope.start <= scope.end
    ensures var src := scope.file.source;
      var loc := Locate(src, scope.start);
      var excerpt := Gutter(None) + "\n" + SourceRow(loc.line, src[loc.lineStart..loc.lineEnd]) + "\n"
        + MarkRow(loc.column, scope.end - scope.start, GetOr(more, ""));
      UnderlineWord(scope, more, showFileLoc)
        == (if showFileLoc then FileLocation(scope.file.path, loc) + excerpt else excerpt)
  {
    var loc := Locate(scope.file.source, scope.start);
    if showFileLoc {
      UnderlineWithHeader(scope, more);
    } else {
      UnderlineWithoutHeader(scope, more);
    }
    ExcerptShape(scope.file.source, loc, scope.end - scope.start, GetOr(more, ""));
  }

  /** The source row of `underline_word`: the column is the scope's offset
      on its line and, below line 100000, a scope starting on the line's
      text has its first character at offset `8 + column` of the row. */
  lemma UnderlineSourceRow(scope: Scope, loc: Location)
    requires loc == Locate(scope.file.source, scope.start)
    ensures var src := scope.file.source;
      var row := SourceRow(loc.line, src[loc.lineStart..loc.lineEnd]);
      loc.lineStart + loc.column == scope.start
      && (loc.line < 100000 ==> |row| == 8 + (loc.lineEnd - loc.lineStart))
      && (loc.line < 100000 && scope.start < loc.lineEnd ==> row[8 + loc.column] == src[scope.start])
  {
    var src := scope.file.source;
    assert loc.lineStart + loc.column == scope.start && loc.lineStart <= loc.lineEnd <= |src|;
    if loc.line < 100000 {
      RowAlignment(src, loc.line, loc.lineStart, loc.lineEnd, loc.column, 0, "");
      RowLength(loc.line, src[loc.lineStart..loc.lineEnd]);
    }
  }

  /** The mark row of `underline_word`: blank from the gutter up to offset
      `8 + column`, then one caret per character of the scope, then a
      blank and the note. */
  lemma UnderlineMarkRow(scope: Scope, more: Option<string>, loc: Location)
    requires scope.start <= scope.end && loc == Locate(scope.file.source, scope.start)
    ensures var width := scope.end - scope.start;
      var marks := MarkRow(loc.column, width, GetOr(more, ""));
      |marks| == 8 + loc.column + width + 1 + |GetOr(more, "")|
      && (forall k :: 8 <= k < 8 + loc.column ==> marks[k] == ' ')
      && (forall k :: 8 + loc.column <= k < 8 + loc.column + width ==> marks[k] == '^')
  {
    MarkRowCarets(loc.column, scope.end - scope.start, GetOr(more, ""));
  }

  /** With the file location shown, `underline_word` is the `-->` line
      followed by the excerpt. */
  lemma UnderlineWithHeader(scope: Scope, more: Option<string>)
    requires scope.start <= scope.end
    ensures var loc := Locate(scope.file.source, scope.start);
      UnderlineWord(scope, more, true)
        == FileLocation(scope.file.path, loc) + Excerpt(scope.file.source, loc, scope.end - scope.start, GetOr(more, ""))
  {
  }

  /** Without it, `underline_word` is the excerpt alone. */
  lemma UnderlineWithoutHeader(scope: Scope, more: Option<string>)
    requires scope.start <= scope.end
    ensures var loc := Locate(scope.file.source, scope.start);
      UnderlineWord(scope, more, false)
        == Excerpt(scope.file.source, loc, scope.end - scope.start, GetOr(more, ""))
  {
  }

  /** The excerpt is a blank gutter row, the source row and the mark row. */
  lemma ExcerptShape(src: string, loc: Location, width: nat, note: string)
    requires loc.lineStart <= loc.lineEnd <= |src|
    ensures Excerpt(src, loc, width, note)
      == Gutter(None) + "\n" + SourceRow(loc.line, src[loc.lineStart..loc.lineEnd]) + "\n" + MarkRow(loc.column, width, note)
  {
  }

  /** Below line 100000 the source row is the 8-column gutter and the text. */
  lemma RowLength(line: nat, text: string)
    requires line < 100000
    ensures |SourceRow(line, text)| == 8 + |text|
  {
  }

  /** `show_code`: a line of suggested code between blank gutter rows. */
  function ShowCode(line: nat, code: string): (r: string)
    ensures var w := |Gutter(Some(line))|;
              |r| == 18 + w + |code|
              && r[..8] == Gutter(None) && r[8] == '\n' && r[9..9 + w] == Gutter(Some(line))
              && r[9 + w..9 + w + |code|] == code
              && r[9 + w + |code|] == '\n' && r[10 + w + |code|..] == Gutter(None)
    ensures line < 100000 ==> |r| == 26 + |code| && r[17..17 + |code|] == code
    ensures line < 100000 ==>
              r[..8] == Gutter(None) && r[8] == '\n' && r[9..17] == Gutter(Some(line))
              && r[17 + |code|] == '\n' && r[18 + |code|..] == Gutter(None)
  {
    var blank := Gutter(None);
    var numbered := Gutter(Some(line));
    FrameParts(blank, numbered, code);
    blank + "\n" + numbered + code + "\n" + blank
  }

  /** Where each piece of a framed excerpt lands, for an eight-character
      blank gutter. */
  lemma FrameParts(blank: string, numbered: string, code: string)
    requires |blank| == 8
    ensures var w := |numbered|; var r := blank + "\n" + numbered + code + "\n" + blank;
              |r| == 18 + w + |code|
              && r[..8] == blank && r[8] == '\n' && r[9..9 + w] == numbered
              && r[9 + w..9 + w + |code|] == code
              && r[9 + w + |code|] == '\n' && r[10 + w + |code|..] == blank
  {
    var w := |numbered|;
    var head := blank + "\n";
    var mid := head + numbered;
    var body := mid + code;
    var r := body + "\n" + blank;
    DropPrefix(head, numbered);
    DropPrefix(mid, code);
    DropPrefix(body + "\n", blank);
    assert r[..|mid|] == mid;
    assert r[..8] == mid[..8] == blank;
    assert r[9..9 + w] == mid[9..];
    assert r[9 + w..9 + w + |code|] == body[|mid|..];
  }

  const MissingBraceHint := "help: missing paired closing brace"
  const MissingBraceTitle := "MCCS ERROR: missing closing brace on line "

  /** `missing_closing_brace`: the title names the line where input ran
      out, the excerpt underlines the unmatched opening symbol. */
  function MissingClosingBrace(opening: Scope, at: nat): (lines: seq<string>)
    requires opening.start <= opening.end
    ensures |lines| == 2 && |lines[0]| > |MissingBraceTitle|
    ensures lines[0][..|MissingBraceTitle|] == MissingBraceTitle
    ensures ParseNat(lines[0][|MissingBraceTitle|..]) == LineOf(opening.file.source, at)
    ensures lines[0] == MissingBraceTitle + NatToString(LineOf(opening.file.source, at))
    ensures lines[1] == UnderlineWord(opening, Some(MissingBraceHint), true)
  {
    var n := LineOf(opening.file.source, at);
    ParseNatToString(n);
    var title := MissingBraceTitle + NatToString(n);
    DropPrefix(MissingBraceTitle, NatToString(n));
    [title, UnderlineWord(opening, Some(MissingBraceHint), true)]
  }

  /** `illegal_token`: a title showing the token, an excerpt underlining
      its scope with the optional note, and the help excerpt only when
      `help` is given. */
  function IllegalToken(token: Token, more: Option<string>, help: Option<Help>): (lines: seq<string>)
    requires GetScope(token).start <= GetScope(token).end
    ensures |lines| == if help.Some? then 4 else 2
    ensures lines[0] == "MCCS ERROR: illegal Token: " + Display(token)
    ensures lines[1] == UnderlineWord(GetScope(token), more, true)
    ensures help.Some? ==>
              lines[2] == "help: " + help.value.message && lines[3] == ShowCode(help.value.line, help.value.source)
  {
    var report := ["MCCS ERROR: illegal Token: " + Display(token), UnderlineWord(GetScope(token), more, true)];
    match help
    case Some(h) => report + ["help: " + h.message, ShowCode(h.line, h.source)]
    case None => report
  }
}
