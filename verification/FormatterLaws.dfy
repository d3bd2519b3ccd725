/** What formatting promises: the same tokens on the same lines, and nothing left to do the second time. */
module FormatterLaws {
  import opened Options
  import opened Lexing
  import opened LineLexing
  import opened Formatting

  // ----- no carriage return survives -----

  predicate Clean(s: string)
  {
    '\r' !in s
  }

  predicate AllClean(items: seq<string>)
  {
    forall i :: 0 <= i < |items| ==> Clean(items[i])
  }

  lemma {:induction false} ReplaceReturnsClean(s: string)
    ensures Clean(ReplaceReturns(s))
    decreases s
  {
    if s != [] {
      ReplaceReturnsClean(s[1..]);
    }
  }

  lemma {:induction false} CleanUnified(s: string)
    requires Clean(s)
    ensures ReplacePairs(s) == s && ReplaceReturns(s) == s
    decreases s
  {
    if s != [] {
      CleanUnified(s[1..]);
    }
  }

  lemma {:induction false} LinesClean(s: string)
    requires Clean(s)
    ensures AllClean(Lines(s))
    decreases |s|
  {
    if s != [] {
      LinesClean(AfterLine(s));
    }
  }

  lemma TrimClean(s: string)
    requires Clean(s)
    ensures Clean(Trim(s))
  {
    hide Trim, IsSpace, Blank;
    var lead, trail := TrimSplit(s);
    assert forall c :: c in Trim(s) ==> c in lead + (Trim(s) + trail);
  }

  lemma {:induction false} ShapeClean(lines: seq<string>, started: bool, blank: bool)
    requires AllClean(lines)
    ensures AllClean(Shape(lines, started, blank))
    decreases |lines|
  {
    hide Trim;
    if lines != [] {
      TrimClean(lines[0]);
      ShapeClean(lines[1..], started, true);
      ShapeClean(lines[1..], true, false);
    }
  }

  lemma {:induction false} RenderClean(items: seq<string>, depth: nat, comment: nat)
    requires AllClean(items)
    ensures Clean(Render(items, depth, comment))
    decreases |items|
  {
    hide LineCount, Deeper;
    if items != [] {
      var c := LineCount(items[0], comment);
      RenderClean(items[1..], depth, comment);
      RenderClean(items[1..], Deeper(depth, c), c.comment);
    }
  }

  lemma LayoutClean(s: string)
    ensures Clean(Layout(s))
  {
    hide Clean, AllClean, Render, Shape, Lines, Layout, Neat;
    ReplaceReturnsClean(ReplacePairs(s));
    LinesClean(Unified(s));
    ShapeClean(Lines(Unified(s)), false, false);
    RenderClean(Shape(Lines(Unified(s)), false, false), 0, 0);
    LayoutRenders(s);
  }

  /** Laying out a laid-out text changes nothing. */
  lemma LayoutTwice(s: string)
    ensures Layout(Layout(s)) == Layout(s)
  {
    hide Clean, Render, Shape, Lines, Layout, Neat, RenderedLines;
    var (items, r) := (Shape(Lines(Unified(s)), false, false), Layout(s));
    LayoutRenders(s);
    LayoutClean(s);
    CleanUnified(r);
    LayoutRenders(r);
    LinesOfRender(items, false, 0, 0);
    ShapeOfRendered(items, false, 0, 0);
  }

  /** Formatting again returns the identical text. */
  lemma FormatTwice(a: Alphabet, accepts: string -> bool, s: string, r: string)
    requires Format(a, accepts, s) == Some(r)
    ensures Format(a, accepts, r) == if Utf8Length(r) <= MAX_SOURCE_BYTES then Some(r) else None
  {
    LayoutTwice(s);
  }

  // ----- the lines stay -----

  function NonEmpty(items: seq<string>): seq<string>
  {
    if items == [] then [] else (if items[0] == [] then [] else [items[0]]) + NonEmpty(items[1..])
  }

  lemma {:induction false} KeptOfShape(lines: seq<string>, started: bool, blank: bool)
    ensures NonEmpty(Shape(lines, started, blank)) == Kept(lines)
    decreases |lines|
  {
    hide Trim;
    if lines != [] {
      var content := Trim(lines[0]);
      if content == [] {
        KeptOfShape(lines[1..], started, true);
      } else {
        KeptOfShape(lines[1..], true, false);
        var items := Shape(lines[1..], true, false);
        assert ([content] + items)[1..] == items;
        assert (["", content] + items)[1..] == [content] + items;
      }
    }
  }

  /** The output has the trimmed lines of the source, in order. */
  lemma LayoutContents(s: string)
    ensures Contents(Layout(s)) == Contents(Unified(s))
  {
    hide Render, Shape, Lines, Layout, Neat, RenderedLines, Kept, NonEmpty, Unified;
    var (lines, items) := (Lines(Unified(s)), Shape(Lines(Unified(s)), false, false));
    LayoutRenders(s);
    LinesOfRender(items, false, 0, 0);
    ShapeOfRendered(items, false, 0, 0);
    KeptOfShape(RenderedLines(items, 0, 0), false, false);
    KeptOfShape(lines, false, false);
  }

  // ----- line endings -----

  function WithoutReturns(s: string): string
  {
    if s == [] then [] else (if s[0] == '\r' then [] else [s[0]]) + WithoutReturns(s[1..])
  }

  lemma {:induction false} PairedUnified(s: string)
    requires Paired(s)
    ensures Unified(s) == WithoutReturns(s)
    decreases |s|
  {
    if s != [] {
      if s[0] == '\r' {
        assert At(s, 1, '\n');
        PairedTail(s, 2);
        PairedUnified(s[2..]);
        assert WithoutReturns(s) == WithoutReturns(s[1..]) by { assert [] + WithoutReturns(s[1..])
            == WithoutReturns(s[1..]); }
        assert s[1..][1..] == s[2..];
        assert (['\n'] + ReplacePairs(s[2..]))[1..] == ReplacePairs(s[2..]);
      } else {
        PairedTail(s, 1);
        PairedUnified(s[1..]);
        assert ([s[0]] + ReplacePairs(s[1..]))[1..] == ReplacePairs(s[1..]);
      }
    }
  }

  lemma PairedTail(s: string, n: nat)
    requires Paired(s) && n <= |s|
    ensures Paired(s[n..])
  {
    forall i | 0 <= i < |s[n..]| && s[n..][i] == '\r' ensures At(s[n..], i + 1, '\n') {
      assert s[n + i] == '\r';
    }
  }

  lemma {:induction false} WithoutReturnsAppend(x: string, y: string)
    ensures WithoutReturns(x + y) == WithoutReturns(x) + WithoutReturns(y)
    decreases x
  {
    if x == [] {
      assert x + y == y;
    } else {
      assert (x + y)[1..] == x[1..] + y;
      WithoutReturnsAppend(x[1..], y);
    }
  }

  lemma {:induction false} WithoutReturnsClean(s: string)
    requires Clean(s)
    ensures WithoutReturns(s) == s
    decreases s
  {
    if s != [] {
      WithoutReturnsClean(s[1..]);
    }
  }

  lemma {:induction false} TrimStartAppend(s: string, c: char)
    requires IsSpace(c)
    ensures TrimStart(s + [c]) == if TrimStart(s) == [] then [] else TrimStart(s) + [c]
    decreases s
  {
    if s == [] {
      assert s + [c] == [c] && [c][1..] == [];
    } else {
      assert (s + [c])[1..] == s[1..] + [c];
      TrimStartAppend(s[1..], c);
    }
  }

  lemma TrimAppend(s: string, c: char)
    requires IsSpace(c)
    ensures Trim(s + [c]) == Trim(s)
  {
    TrimStartAppend(s, c);
    var t := TrimStart(s);
    assert (t + [c])[..|t|] == t;
  }

  /** The first line without a carriage return before its break. */
  lemma FirstLineClean(s: string) returns (line: string)
    requires Paired(s) && s != []
    ensures Clean(line) && '\n' !in line && Trim(line) == Trim(s[..LineEnd(s)])
    ensures WithoutReturns(s) == if LineEnd(s) < |s| then line + "\n" + WithoutReturns(AfterLine(s)) else line
  {
    hide Trim, TrimStart, TrimEnd, WithoutReturns;
    var n := LineEnd(s);
    var raw := s[..n];
    line := raw;
    if raw != [] && raw[n - 1] == '\r' {
      line := raw[..n - 1];
      assert raw == line + ['\r'];
      TrimAppend(line, '\r');
    }
    forall i | 0 <= i < |line| ensures line[i] != '\r' {
      assert line[i] == s[i] && (i + 1 < n ==> raw[i + 1] == s[i + 1]);
    }
    WithoutReturnsClean(line);
    WithoutReturnsAppend(line, raw[|line|..]);
    assert raw == line + raw[|line|..];
    ReturnOnly(raw[|line|..]);
    WithoutReturnsAppend(raw, s[n..]);
    assert s == raw + s[n..];
    if n < |s| {
      assert s[n..] == "\n" + s[n + 1..];
      WithoutReturnsAppend("\n", s[n + 1..]);
      ReturnOnly("\n");
    } else {
      ReturnOnly(s[n..]);
    }
  }

  lemma ReturnOnly(s: string)
    ensures (s == [] || s == "\r") ==> WithoutReturns(s) == []
    ensures s == "\n" ==> WithoutReturns(s) == s
  {
    if |s| == 1 {
      assert s[1..] == [];
    }
  }

  lemma {:induction false} PairedContents(s: string)
    requires Paired(s)
    ensures Contents(WithoutReturns(s)) == Contents(s)
    decreases |s|
  {
    hide Trim;
    if s != [] {
      var line := FirstLineClean(s);
      hide WithoutReturns, Clean;
      var n := LineEnd(s);
      if n < |s| {
        PairedTail(s, n + 1);
        PairedContents(AfterLine(s));
        LinesCons(line, WithoutReturns(AfterLine(s)));
      } else {
        LastLine(line);
      }
      SameKept(line, s[..n], if n < |s| then Lines(WithoutReturns(AfterLine(s))) else [], Lines(AfterLine(s)));
    }
  }

  lemma LastLine(line: string)
    requires '\n' !in line
    ensures Kept(Lines(line)) == Kept([line])
  {
    if line == [] {
      assert [line][1..] == [];
    } else {
      assert line[..|line|] == line;
      assert LineEnd(line) == |line|;
    }
  }

  lemma SameKept(x: string, y: string, xs: seq<string>, ys: seq<string>)
    requires Trim(x) == Trim(y) && Kept(xs) == Kept(ys)
    ensures Kept([x] + xs) == Kept([y] + ys)
  {
    hide Trim;
    assert ([x] + xs)[1..] == xs && ([y] + ys)[1..] == ys;
  }

  // ----- the tokens stay -----

  /** The output always lexes like the source with its line endings unified. */
  lemma LayoutTokens(a: Alphabet, s: string)
    requires Sound(a)
    ensures Tokens(a, Layout(s)) == Tokens(a, Unified(s))
  {
    hide Scan, Contents, Layout, Unified, ScanLines;
    LayoutContents(s);
    LineByLine(a, Layout(s), 0);
    LineByLine(a, Unified(s), 0);
  }

  /** When carriage returns only stand before line feeds, the output has the same lines up to white
      space, and the same tokens. */
  lemma FormatKeepsTokens(a: Alphabet, accepts: string -> bool, s: string, r: string)
    requires Sound(a) && Paired(s) && Format(a, accepts, s) == Some(r)
    ensures Tokens(a, r) == Tokens(a, s) && Contents(r) == Contents(s)
  {
    hide Scan, Contents, Layout, Unified, ScanLines, Paired, WithoutReturns;
    LayoutContents(s);
    PairedUnified(s);
    PairedContents(s);
    LineByLine(a, r, 0);
    LineByLine(a, s, 0);
  }
}
