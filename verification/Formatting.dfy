/** The formatter: line endings, indentation, trailing white space and blank lines, nothing else. */
module Formatting {
  import opened Options
  import opened Lexing
  import opened LineLexing

  const MAX_SOURCE_BYTES: nat := 16 * 1024 * 1024

  // ----- line endings -----

  function ReplacePairs(s: string): string
  {
    if s == [] then []
    else if At(s, 0, '\r') && At(s, 1, '\n') then ['\n'] + ReplacePairs(s[2..])
    else [s[0]] + ReplacePairs(s[1..])
  }

  function ReplaceReturns(s: string): string
  {
    if s == [] then [] else [if s[0] == '\r' then '\n' else s[0]] + ReplaceReturns(s[1..])
  }

  function Unified(s: string): string
  {
    ReplaceReturns(ReplacePairs(s))
  }

  /** Every carriage return is followed by a line feed. */
  predicate Paired(s: string)
  {
    forall i :: 0 <= i < |s| && s[i] == '\r' ==> At(s, i + 1, '\n')
  }

  // ----- braces -----

  /** Braces of a line outside literals and comments, and the comment depth behind it. */
  datatype Count = Count(opens: nat, closes: nat, comment: nat)

  function Counted(opens: nat, closes: nat, c: Count): Count
  {
    Count(opens + c.opens, closes + c.closes, c.comment)
  }

  function Braces(s: string, comment: nat, text: bool, character: bool, escaped: bool): Count
    decreases |s|
  {
    if s == [] then Count(0, 0, comment)
    else if comment != 0 then
      if At(s, 0, '/') && At(s, 1, '*') then Braces(s[2..], comment + 1, text, character, escaped)
      else if At(s, 0, '*') && At(s, 1, '/') then Braces(s[2..], comment - 1, text, character, escaped)
      else Braces(s[1..], comment, text, character, escaped)
    else if text || character then
      var ends := !escaped && s[0] != '\\';
      Braces(s[1..], 0, text && !(ends && s[0] == '"'), character && !(ends && s[0] == '\''), !escaped && s[0] == '\\')
    else if At(s, 0, '/') && At(s, 1, '/') then Count(0, 0, 0)
    else if At(s, 0, '/') && At(s, 1, '*') then Braces(s[2..], 1, false, false, escaped)
    else Counted(if s[0] == '{' then 1 else 0, if s[0] == '}' then 1 else 0,
                 Braces(s[1..], 0, s[0] == '"', s[0] == '\'', escaped))
  }

  function LeadingCloses(s: string, comment: nat): nat
  {
    if comment != 0 || s == [] || s[0] != '}' then 0 else 1 + LeadingCloses(s[1..], comment)
  }

  function Spaces(n: nat): (s: string)
    ensures |s| == n && forall i :: 0 <= i < n ==> s[i] == ' '
  {
    seq(n, _ => ' ')
  }

  function Less(a: nat, b: nat): nat
  {
    if a < b then 0 else a - b
  }

  /** The depth behind a line. */
  function Deeper(depth: nat, c: Count): nat
  {
    Less(depth + c.opens, c.closes)
  }

  function LineCount(content: string, comment: nat): Count
  {
    Braces(content, comment, false, false, false)
  }

  function Indented(content: string, depth: nat, comment: nat): string
  {
    Spaces(4 * Less(depth, LeadingCloses(content, comment))) + content
  }

  // ----- the output -----

  /** What the loop appends for the remaining lines. `started` is whether anything has been output. */
  function Appended(lines: seq<string>, depth: nat, comment: nat, started: bool, blank: bool): string
    decreases |lines|
  {
    if lines == [] then []
    else
      var content := Trim(lines[0]);
      if content == [] then (if started && !blank then "\n" else [])
          + Appended(lines[1..], depth, comment, started, true)
      else
        var c := LineCount(content, comment);
        Indented(content, depth, comment) + "\n" + Appended(lines[1..], Deeper(depth, c), c.comment, true, false)
  }

  function Popped(s: string): (r: string)
    decreases |s|
  {
    if |s| >= 2 && s[|s| - 1] == '\n' && s[|s| - 2] == '\n' then Popped(s[..|s| - 1]) else s
  }

  function Ended(s: string): string
  {
    if s != [] && s[|s| - 1] != '\n' then s + "\n" else s
  }

  function Layout(s: string): string
  {
    Ended(Popped(Appended(Lines(Unified(s)), 0, 0, false, false)))
  }

  /** The syntax check: the text must lex, and the parser must accept it. */
  predicate Parses(a: Alphabet, accepts: string -> bool, s: string)
  {
    Tokens(a, s).Some? && accepts(s)
  }

  function Format(a: Alphabet, accepts: string -> bool, s: string): Option<string>
  {
    if Utf8Length(s) > MAX_SOURCE_BYTES || !Parses(a, accepts, s) || !Parses(a, accepts, Layout(s)) then None
    else Some(Layout(s))
  }

  // ----- the shape of the output -----

  /** The lines of the output: trimmed, with one empty line where the source has any between two others. */
  function Shape(lines: seq<string>, started: bool, blank: bool): seq<string>
    decreases |lines|
  {
    if lines == [] then []
    else
      var content := Trim(lines[0]);
      if content == [] then Shape(lines[1..], started, true)
      else (if started && blank then ["", content] else [content]) + Shape(lines[1..], true, false)
  }

  function Render(items: seq<string>, depth: nat, comment: nat): string
    decreases |items|
  {
    if items == [] then []
    else if items[0] == [] then "\n" + Render(items[1..], depth, comment)
    else
      var c := LineCount(items[0], comment);
      Indented(items[0], depth, comment) + "\n" + Render(items[1..], Deeper(depth, c), c.comment)
  }

  /** A trimmed line. */
  predicate Line(s: string)
  {
    s != [] && '\n' !in s && Trim(s) == s
  }

  /** Trimmed lines, with single empty lines only between them. */
  predicate Neat(items: seq<string>, started: bool)
    decreases |items|
  {
    items == [] ||
    if items[0] == [] then started && |items| > 1 && items[1] != [] && Neat(items[1..], false)
    else Line(items[0]) && Neat(items[1..], true)
  }

  /** Whether the last lines are blank after output has started. */
  predicate Trailing(lines: seq<string>, started: bool, blank: bool)
    decreases |lines|
  {
    if lines == [] then started && blank
    else if Trim(lines[0]) == [] then Trailing(lines[1..], started, true)
    else Trailing(lines[1..], true, false)
  }

  function Gap(b: bool): string
  {
    if b then "\n" else []
  }

  /** The loop renders the shape, with one empty line too many when blank lines end the source. */
  lemma {:induction false} AppendedShape(lines: seq<string>, depth: nat, comment: nat, started: bool, blank: bool)
    ensures Gap(started && blank) + Appended(lines, depth, comment, started, blank) ==
            Render(Shape(lines, started, blank), depth, comment) + Gap(Trailing(lines, started, blank))
    ensures Trailing(lines, started, blank) && !started ==> Shape(lines, started, blank) != []
    decreases |lines|
  {
    hide Trim, LineCount, Indented, Deeper;
    if lines != [] {
      var content := Trim(lines[0]);
      if content == [] {
        AppendedShape(lines[1..], depth, comment, started, true);
        GapOnce(started, blank, Appended(lines[1..], depth, comment, started, true));
      } else {
        var c := LineCount(content, comment);
        AppendedShape(lines[1..], Deeper(depth, c), c.comment, true, false);
        RenderContent(content, Shape(lines[1..], true, false), depth, comment, started && blank);
        Regrouped(Gap(started && blank), Indented(content, depth, comment) + "\n",
                  Appended(lines[1..], Deeper(depth, c), c.comment, true, false),
                  Render(Shape(lines[1..], true, false), Deeper(depth, c), c.comment),
                  Gap(Trailing(lines[1..], true, false)));
      }
    }
  }

  lemma Regrouped(gap: string, line: string, rest: string, rendered: string, end: string)
    requires [] + rest == rendered + end
    ensures gap + (line + rest) == gap + (line + rendered) + end
  {
    assert rest == rendered + end;
  }

  lemma GapOnce(started: bool, blank: bool, rest: string)
    ensures Gap(started && blank) + ((if started && !blank then "\n" else []) + rest) == Gap(started) + rest
  {
    assert [] + rest == rest;
    assert Gap(started && blank) + ("\n" + rest) == Gap(started && blank) + "\n" + rest;
  }

  lemma RenderContent(content: string, items: seq<string>, depth: nat, comment: nat, gap: bool)
    requires content != []
    ensures var c := LineCount(content, comment);
            Render((if gap then ["", content] else [content]) + items, depth, comment) ==
            Gap(gap) + (Indented(content, depth, comment) + "\n" + Render(items, Deeper(depth, c), c.comment))
  {
    hide LineCount, Indented, Deeper;
    assert ([content] + items)[1..] == items;
    assert (["", content] + items)[1..] == [content] + items;
  }

  // ----- neatness -----

  predicate Unbroken(lines: seq<string>)
  {
    forall i :: 0 <= i < |lines| ==> '\n' !in lines[i]
  }

  lemma {:induction false} LinesUnbroken(s: string)
    ensures Unbroken(Lines(s))
    decreases |s|
  {
    if s != [] {
      LinesUnbroken(AfterLine(s));
    }
  }

  lemma TrimIdempotent(s: string)
    ensures Trim(Trim(s)) == Trim(s)
  {
    if Trim(s) != [] {
      assert Trim(s)[0] == TrimStart(s)[0];
    }
  }

  lemma TrimmedLine(s: string)
    requires '\n' !in s && Trim(s) != []
    ensures Line(Trim(s))
  {
    hide Trim, IsSpace, Blank;
    var lead, trail := TrimSplit(s);
    ContentInLine(lead, Trim(s), trail);
    TrimIdempotent(s);
  }

  lemma {:induction false} ShapeNeat(lines: seq<string>, started: bool, blank: bool)
    requires Unbroken(lines)
    ensures Neat(Shape(lines, started, blank), started)
    decreases |lines|
  {
    hide Trim, Line;
    if lines != [] {
      var (content, rest) := (Trim(lines[0]), lines[1..]);
      if content == [] {
        ShapeNeat(rest, started, true);
      } else {
        ShapeNeat(rest, true, false);
        TrimmedLine(lines[0]);
        var items := Shape(rest, true, false);
        assert ([content] + items)[1..] == items;
        assert (["", content] + items)[1..] == [content] + items;
      }
    }
  }

  lemma {:induction false} RenderEnds(items: seq<string>, started: bool, depth: nat, comment: nat)
    requires Neat(items, started) && items != []
    ensures var r := Render(items, depth, comment); |r| >= 2 && r[|r| - 1] == '\n' && r[|r| - 2] != '\n'
    decreases |items|
  {
    hide LineCount, Deeper, Trim;
    if items[0] == [] {
      RenderEnds(items[1..], false, depth, comment);
    } else {
      var c := LineCount(items[0], comment);
      if |items| > 1 {
        RenderEnds(items[1..], true, Deeper(depth, c), c.comment);
      }
    }
  }

  /** The output is the rendered shape of the unified lines. */
  lemma LayoutRenders(s: string)
    ensures Layout(s) == Render(Shape(Lines(Unified(s)), false, false), 0, 0)
    ensures Neat(Shape(Lines(Unified(s)), false, false), false)
  {
    hide Appended, Render, Shape, Neat, Lines, Unified;
    var lines := Lines(Unified(s));
    LinesUnbroken(Unified(s));
    ShapeNeat(lines, false, false);
    AppendedShape(lines, 0, 0, false, false);
    var items := Shape(lines, false, false);
    if items == [] {
      assert Render([], 0, 0) == [] by { RenderNothing(); }
    } else {
      RenderEnds(items, false, 0, 0);
      PoppedGap(Render(items, 0, 0), Trailing(lines, false, false));
    }
    assert Gap(false) + Appended(lines, 0, 0, false, false) == Appended(lines, 0, 0, false, false);
  }

  lemma RenderNothing()
    ensures Render([], 0, 0) == []
  {
  }

  lemma PoppedGap(r: string, gap: bool)
    requires |r| >= 2 && r[|r| - 1] == '\n' && r[|r| - 2] != '\n'
    ensures Ended(Popped(r + Gap(gap))) == r
  {
    assert r + [] == r && (r + "\n")[..|r|] == r;
  }

  // ----- formatting the output again -----

  function RenderedLines(items: seq<string>, depth: nat, comment: nat): seq<string>
    decreases |items|
  {
    if items == [] then []
    else if items[0] == [] then [""] + RenderedLines(items[1..], depth, comment)
    else
      var c := LineCount(items[0], comment);
      [Indented(items[0], depth, comment)] + RenderedLines(items[1..], Deeper(depth, c), c.comment)
  }

  lemma LinesCons(line: string, rest: string)
    requires '\n' !in line
    ensures Lines(line + "\n" + rest) == [line] + Lines(rest)
  {
    var s := line + "\n" + rest;
    assert s[..|line|] == line && s[|line| + 1..] == rest;
    LineEndIs(s, |line|);
  }

  lemma {:induction false} LineEndIs(s: string, n: nat)
    requires n < |s| && s[n] == '\n' && '\n' !in s[..n]
    ensures LineEnd(s) == n
    decreases n
  {
    if n > 0 {
      assert s[..n][0] == s[0] && s[1..][..n - 1] == s[..n][1..];
      LineEndIs(s[1..], n - 1);
    }
  }

  lemma {:induction false} LinesOfRender(items: seq<string>, started: bool, depth: nat, comment: nat)
    requires Neat(items, started)
    ensures Lines(Render(items, depth, comment)) == RenderedLines(items, depth, comment)
    decreases |items|
  {
    hide LineCount, Deeper, Trim, Lines;
    if items == [] {
      assert Lines([]) == [] by { NoLines(); }
    } else if items[0] == [] {
      LinesOfRender(items[1..], false, depth, comment);
      LinesCons([], Render(items[1..], depth, comment));
      assert [] + "\n" + Render(items[1..], depth, comment) == Render(items, depth, comment);
    } else {
      var c := LineCount(items[0], comment);
      LinesOfRender(items[1..], true, Deeper(depth, c), c.comment);
      LinesCons(Indented(items[0], depth, comment), Render(items[1..], Deeper(depth, c), c.comment));
    }
  }

  lemma NoLines()
    ensures Lines([]) == []
  {
  }

  lemma {:induction false} TrimSpaces(n: nat, s: string)
    ensures TrimStart(Spaces(n) + s) == TrimStart(s)
    decreases n
  {
    if n == 0 {
      assert Spaces(n) + s == s;
    } else {
      assert (Spaces(n) + s)[1..] == Spaces(n - 1) + s;
      TrimSpaces(n - 1, s);
    }
  }

  lemma TrimIndented(content: string, depth: nat, comment: nat)
    ensures Trim(Indented(content, depth, comment)) == Trim(content)
  {
    TrimSpaces(4 * Less(depth, LeadingCloses(content, comment)), content);
  }

  lemma {:induction false} ShapeOfRendered(items: seq<string>, started: bool, depth: nat, comment: nat)
    requires Neat(items, started)
    ensures Shape(RenderedLines(items, depth, comment), started, false) == items
    decreases |items|
  {
    hide LineCount, Deeper, Trim, Indented;
    if items != [] {
      var k := if items[0] == [] then 1 else 0;
      var content := items[k];
      var c := LineCount(content, comment);
      var more := RenderedLines(items[k + 1..], Deeper(depth, c), c.comment);
      TrimIndented(content, depth, comment);
      assert Trim([]) == [] by { TrimNothing(); }
      if k == 1 {
        assert items[1..][1..] == items[2..];
        assert RenderedLines(items[1..], depth, comment) == [Indented(content, depth, comment)] + more;
        assert RenderedLines(items, depth, comment)[1..] == [Indented(content, depth, comment)] + more;
        assert RenderedLines(items, depth, comment)[1..][1..] == more;
        assert items == ["", content] + items[2..];
      } else {
        assert RenderedLines(items, depth, comment)[1..] == more;
        assert items == [content] + items[1..];
      }
      ShapeOfRendered(items[k + 1..], true, Deeper(depth, c), c.comment);
    }
  }

  lemma TrimNothing()
    ensures Trim([]) == []
  {
  }
}
