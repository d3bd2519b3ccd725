/**
 * Carriage returns that stand alone. The lexer takes them for white space and reads a line comment past
 * them; the formatter turns them into line breaks. This is exactly when that changes the tokens.
 */
module LoneReturns {
  import opened Options
  import opened Lexing
  import opened LineLexing
  import opened Formatting
  import opened FormatterLaws

  // ----- unified text, character by character -----

  function ReturnLength(s: string): nat
  {
    if At(s, 1, '\n') then 2 else 1
  }

  lemma UnifiedStep(s: string)
    requires s != []
    ensures Unified(s) == if s[0] == '\r' then ['\n'] + Unified(s[ReturnLength(s)..]) else [s[0]] + Unified(s[1..])
  {
    var rest := ReplacePairs(s[if s[0] == '\r' then ReturnLength(s) else 1..]);
    assert ReplacePairs(s)[1..] == rest;
  }

  lemma UnifiedNothing()
    ensures Unified([]) == []
  {
  }

  /** Text without returns stays, and what follows it is unified by itself. */
  lemma {:induction false} UnifiedSplit(x: string, y: string)
    requires '\r' !in x
    ensures Unified(x + y) == x + Unified(y)
    decreases x
  {
    hide Unified;
    if x == [] {
      assert x + y == y && [] + Unified(y) == Unified(y);
    } else {
      UnifiedStep(x + y);
      assert (x + y)[1..] == x[1..] + y;
      UnifiedSplit(x[1..], y);
      assert [x[0]] + (x[1..] + Unified(y)) == x + Unified(y);
    }
  }

  // ----- what a lone return sets free -----

  /** What follows the first return in the text of a line comment. */
  function Freed(c: string): string
  {
    if c == [] then [] else if c[0] == '\r' then c[1..] else Freed(c[1..])
  }

  /** The line a comment ends. */
  function LineOf(s: string): string
  {
    s[..LineEnd(s)]
  }

  /** Nothing but white space and further line comments. */
  predicate Silent(h: string)
    decreases |h|
  {
    if h == [] then true
    else if IsSpace(h[0]) then Silent(h[1..])
    else if At(h, 0, '/') && At(h, 1, '/') then FreedShorter(h); Silent(Freed(h))
    else false
  }

  lemma {:induction false} FreedShorter(c: string)
    ensures |Freed(c)| <= |c| && (c != [] ==> |Freed(c)| < |c|)
    decreases c
  {
    if c != [] && c[0] != '\r' {
      FreedShorter(c[1..]);
    }
  }

  /** No line comment holds a return with anything but white space and line comments after it. */
  predicate Quiet(a: Alphabet, s: string, depth: nat)
    decreases |s|
  {
    if s == [] then true
    else if depth > 0 then
      if At(s, 0, '/') && At(s, 1, '*') then Quiet(a, s[2..], depth + 1)
      else if At(s, 0, '*') && At(s, 1, '/') then Quiet(a, s[2..], depth - 1)
      else Quiet(a, s[1..], depth)
    else if IsSpace(s[0]) then Quiet(a, s[1..], 0)
    else if At(s, 0, '/') && At(s, 1, '/') then Silent(Freed(LineOf(s))) && Quiet(a, DropLine(s[1..]), 0)
    else if At(s, 0, '/') && At(s, 1, '*') then Quiet(a, s[2..], 1)
    else match Read(a, s)
         case None => true
         case Some(lexeme) => Quiet(a, s[lexeme.length..], 0)
  }

  // ----- tokens read alike -----

  lemma {:induction false} StringKept(x: string, y: string)
    requires StringBody(x).Some?
    ensures StringBody(x + y) == StringBody(x)
    decreases |x|
  {
    if x[0] == '\\' {
      assert (x + y)[2..] == x[2..] + y;
      StringKept(x[2..], y);
    } else if x[0] != '"' {
      assert (x + y)[1..] == x[1..] + y;
      StringKept(x[1..], y);
    }
  }

  lemma CharacterKept(x: string, y: string)
    requires CharacterBody(x).Some?
    ensures CharacterBody(x + y) == CharacterBody(x)
  {
  }

  /** A token that is complete is not changed by what comes behind white space. */
  lemma ReadKept(a: Alphabet, x: string, y: string)
    requires Lexing.Sound(a) && x != [] && Breaks(y) && Read(a, x).Some?
    ensures Read(a, x + y) == Read(a, x)
  {
    hide SymbolLength, StringBody, CharacterBody, Number, IdentifierRun, Named;
    SymbolCut(x, y);
    assert (x + y)[1..] == x[1..] + y;
    NumberCut(x, y);
    IdentifierCut(a, x[1..], y);
    assert (x + y)[..SymbolLength(x)] == x[..SymbolLength(x)];
    var n := 1 + IdentifierRun(a, x[1..]);
    assert (x + y)[..n] == x[..n];
    if StringBody(x[1..]).Some? {
      StringKept(x[1..], y);
    }
    if CharacterBody(x[1..]).Some? {
      CharacterKept(x[1..], y);
    }
  }

  /** Where the text is first broken by a return or a line feed. */
  function PieceEnd(s: string): (n: nat)
    ensures n <= |s| && '\r' !in s[..n] && '\n' !in s[..n] && (n < |s| ==> s[n] == '\r' || s[n] == '\n')
  {
    if s == [] || s[0] == '\r' || s[0] == '\n' then 0
    else
      var n := PieceEnd(s[1..]);
      assert s[..1 + n] == [s[0]] + s[1..][..n];
      1 + n
  }

  lemma BrokenTail(t: string)
    requires t == [] || t[0] == '\r' || t[0] == '\n'
    ensures Breaks(t) && Ending(Unified(t))
  {
    if t == [] {
      UnifiedNothing();
    } else {
      UnifiedStep(t);
    }
  }

  /** A token of the unified text is the same token of the source, and ends before any break. */
  lemma ReadAlike(a: Alphabet, s: string)
    requires Lexing.Sound(a) && s != [] && !IsSpace(s[0]) && Unified(s) != [] && Read(a, Unified(s)).Some?
    ensures Read(a, s) == Read(a, Unified(s)) && Read(a, s).value.length <= PieceEnd(s)
    ensures Unified(s)[Read(a, s).value.length..] == Unified(s[Read(a, s).value.length..])
  {
    hide Read, Unified, IsSpace, Lexing.Sound, Ending, Breaks;
    var k := PieceEnd(s);
    assert k > 0 by { SpacesBreak(); }
    var (w, tail) := (s[..k], s[k..]);
    assert s == w + tail;
    UnifiedSplit(w, tail);
    BrokenTail(tail);
    ReadCut(a, w, Unified(tail));
    ReadKept(a, w, tail);
    var n := Read(a, w).value.length;
    assert s[n..] == w[n..] + tail && Unified(s)[n..] == w[n..] + Unified(tail);
    UnifiedSplit(w[n..], tail);
  }

  lemma SpacesBreak()
    ensures IsSpace('\r') && IsSpace('\n')
  {
  }

  // ----- steps of the lexer on unified text -----

  lemma SkipOne(a: Alphabet, c: char, z: string, depth: nat)
    requires IsSpace(c)
    ensures Scan(a, [c] + z, depth) == Scan(a, z, depth)
  {
    SkipBlank(a, [c], z, depth);
  }

  /** White space, returns included, is skipped one character at a time. */
  lemma SpaceStep(a: Alphabet, s: string, depth: nat)
    requires s != [] && IsSpace(s[0])
    ensures Scan(a, Unified(s), depth) == Scan(a, Unified(s[1..]), depth)
  {
    hide Scan, Unified, IsSpace;
    SpacesBreak();
    UnifiedStep(s);
    if s[0] == '\r' && At(s, 1, '\n') {
      UnifiedStep(s[1..]);
      assert s[1..][1..] == s[2..];
    } else {
      SkipOne(a, if s[0] == '\r' then '\n' else s[0], Unified(s[1..]), depth);
    }
  }

  lemma SourceSpace(a: Alphabet, s: string, depth: nat)
    requires s != [] && IsSpace(s[0])
    ensures Scan(a, s, depth) == Scan(a, s[1..], depth) && Quiet(a, s, depth) == Quiet(a, s[1..], depth)
  {
    hide Read;
  }

  /** The first two characters of text that starts with neither a return nor white space. */
  lemma StartAlike(s: string)
    requires s != [] && s[0] != '\r'
    ensures Unified(s) != [] && Unified(s)[0] == s[0] && Unified(s)[1..] == Unified(s[1..])
    ensures forall c | c != '\r' && c != '\n' :: At(Unified(s), 1, c) == At(s, 1, c)
    ensures |s| >= 2 && s[1] != '\r' ==> |Unified(s)| >= 2 && Unified(s)[2..] == Unified(s[2..])
  {
    hide Unified;
    UnifiedStep(s);
    if |s| >= 2 {
      UnifiedStep(s[1..]);
      assert s[1..][1..] == s[2..];
    } else {
      UnifiedNothing();
    }
  }

  lemma {:induction false} FreedSplit(c: string) returns (p: string)
    requires '\r' in c
    ensures c == p + ['\r'] + Freed(c) && '\r' !in p
    decreases c
  {
    if c[0] == '\r' {
      p := [];
    } else {
      var q := FreedSplit(c[1..]);
      p := [c[0]] + q;
    }
  }

  lemma {:induction false} FreedNone(c: string)
    requires '\r' !in c
    ensures Freed(c) == []
    decreases c
  {
    if c != [] {
      FreedNone(c[1..]);
    }
  }

  lemma DropBroken(t: string)
    requires t == [] || t[0] == '\n'
    ensures DropLine(t) == t
  {
  }

  lemma UnifiedBroken(t: string)
    requires t == [] || t[0] == '\r' || t[0] == '\n'
    ensures Unified(t) == [] || Unified(t)[0] == '\n'
  {
    if t == [] { UnifiedNothing(); } else { UnifiedStep(t); }
  }

  /** Behind a line comment of the unified text comes what its first return set free, and then what
      follows the line. */
  lemma CommentFrees(a: Alphabet, c: string, rest: string)
    requires |c| >= 1 && c[0] == '/' && '\n' !in c && (rest == [] || rest[0] == '\n')
    ensures Unified(c + rest) != [] && Scan(a, DropLine(Unified(c + rest)[1..]), 0)
            == Scan(a, Unified(Freed(c) + rest), 0)
  {
    hide Scan, Unified, DropLine, Freed;
    if '\r' !in c {
      UnifiedSplit(c, rest);
      FreedNone(c);
      assert (c + Unified(rest))[1..] == c[1..] + Unified(rest) && [] + rest == rest;
      DropLineCut(c[1..], Unified(rest));
      UnifiedBroken(rest);
      DropBroken(Unified(rest));
    } else {
      var p := FreedSplit(c);
      var t := ['\r'] + (Freed(c) + rest);
      assert c + rest == p + t && p != [] && p[0] == '/';
      UnifiedSplit(p, t);
      assert (p + Unified(t))[1..] == p[1..] + Unified(t);
      assert '\n' !in p[1..] by { assert forall x :: x in p[1..] ==> x in c; }
      DropLineCut(p[1..], Unified(t));
      UnifiedBroken(t);
      DropBroken(Unified(t));
      SpacesBreak();
      SpaceStep(a, t, 0);
      assert t[1..] == Freed(c) + rest;
    }
  }

  /** A line comment of the source ends where its line does. */
  lemma CommentSource(s: string)
    requires At(s, 0, '/')
    ensures LineOf(s) != [] && LineOf(s)[0] == '/' && s == LineOf(s) + s[LineEnd(s)..]
            && DropLine(s[1..]) == s[LineEnd(s)..]
    ensures '\n' !in LineOf(s) && (s[LineEnd(s)..] == [] || s[LineEnd(s)..][0] == '\n')
  {
    var n := LineEnd(s);
    assert n > 0;
    hide LineEnd, DropLine;
    var (h, rest) := (s[..n], s[n..]);
    assert h[0] == s[0] && s == h + rest && s[1..] == h[1..] + rest;
    DropLineCut(h[1..], rest);
    DropBroken(rest);
  }

  lemma CommentSteps(a: Alphabet, s: string)
    requires At(s, 0, '/') && At(s, 1, '/')
    ensures Scan(a, s, 0) == Scan(a, DropLine(s[1..]), 0)
    ensures Scan(a, Unified(s), 0) == Scan(a, Unified(Freed(LineOf(s)) + s[LineEnd(s)..]), 0)
    ensures Quiet(a, s, 0) == (Silent(Freed(LineOf(s))) && Quiet(a, DropLine(s[1..]), 0))
  {
    CommentSource(s);
    StartAlike(s);
    CommentFrees(a, LineOf(s), s[LineEnd(s)..]);
    hide Unified, DropLine, Freed, LineEnd, Silent, Read;
    assert !IsSpace('/') by { NotSpaces(); }
    assert Scan(a, Unified(s), 0) == Scan(a, DropLine(Unified(s)[1..]), 0);
  }

  // ----- quiet sources keep their tokens -----

  lemma {:induction false} SilentSkipped(a: Alphabet, h: string, rest: string)
    requires Silent(h) && '\n' !in h && (rest == [] || rest[0] == '\n')
    ensures Scan(a, Unified(h + rest), 0) == Scan(a, Unified(rest), 0)
    decreases |h|
  {
    hide Scan, Unified, IsSpace;
    if h == [] {
      assert h + rest == rest;
    } else if IsSpace(h[0]) {
      SpaceStep(a, h + rest, 0);
      assert (h + rest)[1..] == h[1..] + rest;
      SilentSkipped(a, h[1..], rest);
    } else {
      FreedShorter(h);
      FreedUnbroken(h);
      CommentOfLine(a, h, rest);
      SilentSkipped(a, Freed(h), rest);
    }
  }

  lemma {:induction false} FreedUnbroken(c: string)
    requires '\n' !in c
    ensures '\n' !in Freed(c)
    decreases c
  {
    if c != [] && c[0] != '\r' {
      FreedUnbroken(c[1..]);
    }
  }

  lemma CommentOfLine(a: Alphabet, h: string, rest: string)
    requires At(h, 0, '/') && At(h, 1, '/') && '\n' !in h && (rest == [] || rest[0] == '\n')
    ensures Scan(a, Unified(h + rest), 0) == Scan(a, Unified(Freed(h) + rest), 0)
  {
    hide Scan, Unified, Freed, Quiet;
    var s := h + rest;
    assert LineEnd(s) == |h| && LineOf(s) == h && s[LineEnd(s)..] == rest by { LineEndOf(h, rest); }
    CommentSteps(a, s);
  }

  lemma LineEndOf(h: string, rest: string)
    requires '\n' !in h && (rest == [] || rest[0] == '\n')
    ensures LineEnd(h + rest) == |h| && (h + rest)[..|h|] == h && (h + rest)[|h|..] == rest
  {
    var s := h + rest;
    assert s[..|h|] == h && s[|h|..] == rest;
    var n := LineEnd(s);
    if rest != [] {
      LineEndIs(s, |h|);
    } else {
      assert s == h;
    }
  }

  /** A quiet source lexes like its unified text. */
  lemma {:induction false} QuietScans(a: Alphabet, s: string, depth: nat)
    requires Lexing.Sound(a) && Quiet(a, s, depth) && Scan(a, Unified(s), depth).Some?
    ensures Scan(a, s, depth) == Scan(a, Unified(s), depth)
    decreases |s|
  {
    hide Unified, Read, IsSpace, Lexing.Sound, Silent, Freed, LineOf, LineEnd, DropLine;
    SpacesBreak();
    if s == [] {
      UnifiedNothing();
    } else if IsSpace(s[0]) {
      SpaceStep(a, s, depth);
      SourceSpace(a, s, depth);
      QuietScans(a, s[1..], depth);
    } else {
      StartAlike(s);
      if depth > 0 {
        QuietComment(a, s, depth);
      } else if At(s, 0, '/') && At(s, 1, '/') {
        CommentSteps(a, s);
        CommentSource(s);
        var rest := s[LineEnd(s)..];
        FreedUnbroken(LineOf(s));
        SilentSkipped(a, Freed(LineOf(s)), rest);
        QuietScans(a, rest, 0);
      } else if At(s, 0, '/') && At(s, 1, '*') {
        QuietScans(a, s[2..], 1);
      } else {
        ReadAlike(a, s);
        QuietScans(a, s[Read(a, s).value.length..], 0);
      }
    }
  }

  lemma {:induction false} QuietComment(a: Alphabet, s: string, depth: nat)
    requires Lexing.Sound(a) && Quiet(a, s, depth) && Scan(a, Unified(s), depth).Some? && depth > 0 && s != []
             && !IsSpace(s[0])
    ensures Scan(a, s, depth) == Scan(a, Unified(s), depth)
    decreases |s|, 0
  {
    hide Unified, Read, IsSpace, Lexing.Sound, Silent, Freed, LineOf, LineEnd, DropLine;
    SpacesBreak();
    StartAlike(s);
    if At(s, 0, '/') && At(s, 1, '*') {
      QuietScans(a, s[2..], depth + 1);
    } else if At(s, 0, '*') && At(s, 1, '/') {
      QuietScans(a, s[2..], depth - 1);
    } else {
      QuietScans(a, s[1..], depth);
    }
  }

  // ----- other sources do not, if they have no block comments -----

  /** No block comment is opened. */
  ghost predicate NoBlock(s: string)
  {
    forall i: nat :: !(At(s, i, '/') && At(s, i + 1, '*'))
  }

  lemma NoBlockTail(s: string, n: nat)
    requires NoBlock(s) && n <= |s|
    ensures NoBlock(s[n..])
  {
    forall i: nat ensures !(At(s[n..], i, '/') && At(s[n..], i + 1, '*')) {
      assert !(At(s, n + i, '/') && At(s, n + i + 1, '*'));
    }
  }

  predicate Opens(s: string)
  {
    At(s, 0, '/') && At(s, 1, '*')
  }

  lemma NotOpen(s: string)
    requires NoBlock(s)
    ensures !Opens(s)
  {
    assert !(At(s, 0, '/') && At(s, 0 + 1, '*'));
  }

  /** One token more. */
  lemma TokenCounts(a: Alphabet, s: string)
    requires Lexing.Sound(a) && s != [] && !IsSpace(s[0]) && !(At(s, 0, '/') && At(s, 1, '/')) && !Opens(s)
             && Scan(a, Unified(s), 0).Some?
    ensures Read(a, s).Some? && 1 <= Read(a, s).value.length <= PieceEnd(s)
    ensures var rest := s[Read(a, s).value.length..];
            && Scan(a, Unified(rest), 0).Some?
            && |Scan(a, Unified(s), 0).value| == 1 + |Scan(a, Unified(rest), 0).value|
            && (Scan(a, s, 0).Some? ==> Scan(a, rest, 0).Some? && |Scan(a, s, 0).value| == 1 + |Scan(a, rest, 0).value|)
            && Quiet(a, s, 0) == Quiet(a, rest, 0)
  {
    StartAlike(s);
    SpacesBreak();
    hide Unified, Read, IsSpace, Lexing.Sound, DropLine, Silent, Freed, PieceEnd;
    assert Read(a, Unified(s)).Some?;
    ReadAlike(a, s);
  }

  /** Text set free by a return adds its tokens, and none exactly when it is silent. */
  lemma {:induction false} FreedCounts(a: Alphabet, h: string, rest: string)
    requires Lexing.Sound(a) && '\n' !in h && (rest == [] || rest[0] == '\n') && NoBlock(h + rest)
             && Scan(a, Unified(h + rest), 0).Some?
    ensures Scan(a, Unified(rest), 0).Some?
            && |Scan(a, Unified(rest), 0).value| <= |Scan(a, Unified(h + rest), 0).value|
    ensures |Scan(a, Unified(rest), 0).value| == |Scan(a, Unified(h + rest), 0).value| <==> Silent(h)
    decreases |h|
  {
    hide Scan, Unified, IsSpace, Lexing.Sound, NoBlock, Read, Quiet, Freed;
    var s := h + rest;
    if h == [] {
      assert s == rest;
    } else if IsSpace(h[0]) {
      SpaceStep(a, s, 0);
      assert s[1..] == h[1..] + rest;
      NoBlockTail(s, 1);
      FreedCounts(a, h[1..], rest);
    } else if At(h, 0, '/') && At(h, 1, '/') {
      FreedShorter(h);
      FreedUnbroken(h);
      CommentOfLine(a, h, rest);
      FreedNoBlock(h, rest);
      FreedCounts(a, Freed(h), rest);
    } else {
      NotOpen(s);
      assert !(At(s, 0, '/') && At(s, 1, '/'));
      TokenCounts(a, s);
      var n := Read(a, s).value.length;
      PieceInside(h, rest);
      assert s[n..] == h[n..] + rest;
      NoBlockTail(s, n);
      FreedCounts(a, h[n..], rest);
    }
  }

  lemma {:induction false} PieceInside(h: string, rest: string)
    requires '\n' !in h && (rest == [] || rest[0] == '\n')
    ensures PieceEnd(h + rest) <= |h|
    decreases h
  {
    if h == [] {
      assert h + rest == rest;
    } else {
      assert (h + rest)[1..] == h[1..] + rest;
      PieceInside(h[1..], rest);
    }
  }

  lemma FreedNoBlock(c: string, rest: string)
    requires NoBlock(c + rest)
    ensures '\r' in c ==> NoBlock(Freed(c) + rest)
    ensures '\r' !in c ==> Freed(c) == [] && NoBlock(rest) && Freed(c) + rest == rest
  {
    hide NoBlock;
    if '\r' in c {
      var p := FreedSplit(c);
      NoBlockTail(c + rest, |p| + 1);
      assert (c + rest)[|p| + 1..] == Freed(c) + rest;
    } else {
      FreedNone(c);
      NoBlockTail(c + rest, |c|);
      assert (c + rest)[|c|..] == rest;
    }
  }

  /** Unifying line endings never loses a token, and adds none exactly when the source is quiet. */
  lemma {:induction false} UnifiedCounts(a: Alphabet, s: string)
    requires Lexing.Sound(a) && NoBlock(s) && Scan(a, s, 0).Some? && Scan(a, Unified(s), 0).Some?
    ensures |Scan(a, s, 0).value| <= |Scan(a, Unified(s), 0).value|
    ensures |Scan(a, s, 0).value| == |Scan(a, Unified(s), 0).value| <==> Quiet(a, s, 0)
    decreases |s|
  {
    if s == [] {
      UnifiedNothing();
    } else {
      hide Scan, Unified, IsSpace, Lexing.Sound, NoBlock, Read, Quiet, Freed, Silent, LineEnd, LineOf, DropLine;
      if IsSpace(s[0]) {
        SpaceStep(a, s, 0);
        SourceSpace(a, s, 0);
        NoBlockTail(s, 1);
        UnifiedCounts(a, s[1..]);
      } else if At(s, 0, '/') && At(s, 1, '/') {
        CommentSteps(a, s);
        CommentSource(s);
        var (c, rest) := (LineOf(s), s[LineEnd(s)..]);
        FreedUnbroken(c);
        FreedNoBlock(c, rest);
        FreedCounts(a, Freed(c), rest);
        NoBlockTail(s, LineEnd(s));
        UnifiedCounts(a, rest);
      } else {
        NotOpen(s);
        TokenCounts(a, s);
        NoBlockTail(s, Read(a, s).value.length);
        UnifiedCounts(a, s[Read(a, s).value.length..]);
      }
    }
  }

  // ----- the formatter -----

  /** Formatting a quiet source keeps its tokens. */
  lemma QuietFormats(a: Alphabet, accepts: string -> bool, s: string, r: string)
    requires Lexing.Sound(a) && Format(a, accepts, s) == Some(r) && Quiet(a, s, 0)
    ensures Tokens(a, r) == Tokens(a, s)
  {
    hide Scan, Layout, Unified, Quiet;
    LayoutTokens(a, s);
    QuietScans(a, s, 0);
  }

  /** For a source without block comments, formatting keeps the tokens exactly when the source is quiet. */
  lemma FormatKeepsTokensExactly(a: Alphabet, accepts: string -> bool, s: string, r: string)
    requires Lexing.Sound(a) && Format(a, accepts, s) == Some(r) && NoBlock(s)
    ensures Tokens(a, r) == Tokens(a, s) <==> Quiet(a, s, 0)
  {
    if Quiet(a, s, 0) {
      QuietFormats(a, accepts, s, r);
    } else {
      hide Scan, Layout, Unified, Quiet, NoBlock;
      LayoutTokens(a, s);
      UnifiedCounts(a, s);
    }
  }

  /** Any text of one line with tokens in it, put behind a comment sign and a lone return, is comment to the
      lexer and text to the formatter. */
  lemma LoneReturnChangesTokens(a: Alphabet, accepts: string -> bool, t: string, s: string)
    requires Lexing.Sound(a) && '\r' !in t && '\n' !in t && Scan(a, t, 0).Some? && Scan(a, t, 0).value != []
    requires s == "//\r" + t && Utf8Length(s) <= MAX_SOURCE_BYTES && accepts(s) && accepts(Layout(s))
    ensures Format(a, accepts, s) == Some(Layout(s))
    ensures Tokens(a, s) == Some([EndOfFile]) && Tokens(a, Layout(s)) == Tokens(a, t) != Tokens(a, s)
  {
    hide Layout, Unified, Utf8Length, Read, Quiet;
    LayoutTokens(a, s);
    assert s == "//\r" + t + "" && t + "" == t;
    SetFree(a, t, "", s);
    NothingScans(a);
    assert |Tokens(a, t).value| == |Scan(a, t, 0).value| + 1;
  }

  lemma {:induction false} FreedHere(c: string, t: string)
    requires '\r' !in c
    ensures Freed(c + "\r" + t) == t
    decreases c
  {
    var s := c + "\r" + t;
    if c == [] {
      assert s[1..] == t;
    } else {
      assert s[1..] == c[1..] + "\r" + t;
      FreedHere(c[1..], t);
    }
  }

  /** A commented-out function comes back to life. */
  lemma CommentedFunction(a: Alphabet, accepts: string -> bool, s: string)
    requires Lexing.Sound(a) && a.starts('f') && a.continues('n') && !a.continues('(') && a.normal("fn")
             && a.normal("f")
    requires s == "//\rfn f() {}" && accepts(s) && accepts(Layout(s))
    ensures Format(a, accepts, s).Some? && Tokens(a, Format(a, accepts, s).value) != Tokens(a, s)
  {
    hide Layout, Utf8Length, Scan;
    FunctionScans(a, "");
    NothingScans(a);
    assert "fn f() {}" + "" == "fn f() {}";
    ShortFits(s);
    LoneReturnChangesTokens(a, accepts, "fn f() {}", s);
  }

  lemma {:induction false} ShortFits(s: string)
    ensures Utf8Length(s) <= 4 * |s|
    decreases s
  {
    if s != [] {
      ShortFits(s[1..]);
    }
  }

  lemma NothingScans(a: Alphabet)
    ensures Scan(a, "", 0) == Some([]) && Tokens(a, "") == Some([EndOfFile])
  {
    assert [] + [EndOfFile] == [EndOfFile];
  }

  lemma Follows(a: Alphabet, s: string, rest: string, lexeme: Lexeme)
    requires s != [] && !IsSpace(s[0]) && s[0] != '/' && Read(a, s) == Some(lexeme) && s[lexeme.length..] == rest
    ensures Scan(a, s, 0) == Ahead(lexeme.token, Scan(a, rest, 0))
  {
    hide Read, IsSpace;
  }

  function Word(word: string): Token
  {
    if word in KEYWORDS then Keyword(word) else Identifier(word)
  }

  /** The tokens of `fn f() {}` in front of others. */
  function FunctionAhead(r: Option<seq<Token>>): Option<seq<Token>>
  {
    var body := Ahead(Symbol("("), Ahead(Symbol(")"), Ahead(Symbol("{"), Ahead(Symbol("}"), r))));
    Ahead(Word("fn"), Ahead(Word("f"), body))
  }

  lemma FunctionScans(a: Alphabet, rest: string)
    requires Lexing.Sound(a) && a.starts('f') && a.continues('n') && !a.continues('(') && a.normal("fn")
             && a.normal("f")
    ensures Scan(a, "fn f() {}" + rest, 0) == FunctionAhead(Scan(a, rest, 0))
  {
    hide Scan, Word, Ahead;
    var (b, c, d) := ("{" + ("}" + rest), " {}" + rest, ")" + (" {}" + rest));
    assert c[1..] == b && "(" + d == "() {}" + rest;
    var (e, g) := ("f" + ("(" + d), " f() {}" + rest);
    assert g[1..] == e && "fn" + g == "fn f() {}" + rest;
    SymbolFollows(a, "}", rest);
    SymbolFollows(a, "{", "}" + rest);
    SourceSpace(a, c, 0);
    SymbolFollows(a, ")", c);
    SymbolFollows(a, "(", d);
    NameFollows(a, "f", "(" + d);
    SourceSpace(a, g, 0);
    NameFollows(a, "fn", g);
  }

  lemma NameFollows(a: Alphabet, word: string, rest: string)
    requires 1 <= |word| <= 2 && word[0] == 'f' && a.starts('f') && (|word| == 2 ==> Continues(a, word[1]))
             && a.normal(word)
    requires rest != [] && !Continues(a, rest[0])
    ensures Scan(a, word + rest, 0) == Ahead(Word(word), Scan(a, rest, 0))
  {
    hide Scan, KEYWORDS;
    var s := word + rest;
    assert s[..|word|] == word && s[|word|..] == rest;
    assert s[1..] == word[1..] + rest;
    assert IdentifierRun(a, rest) == 0;
    assert IdentifierRun(a, s[1..]) == |word| - 1 by { assert |word| == 2 ==> s[1..][1..] == rest; }
    Follows(a, s, rest, Lexeme(Word(word), |word|));
  }

  lemma SymbolFollows(a: Alphabet, symbol: string, rest: string)
    requires |symbol| == 1 && symbol[0] in {'(', ')', '{', '}'}
    ensures Scan(a, symbol + rest, 0) == Ahead(Symbol(symbol), Scan(a, rest, 0))
  {
    hide Scan;
    assert (symbol + rest)[..1] == symbol && (symbol + rest)[1..] == rest;
    Follows(a, symbol + rest, rest, Lexeme(Symbol(symbol), 1));
  }

  // ----- block comments behind a return -----

  lemma {:induction false} BlockSkips(a: Alphabet, x: string, rest: string)
    requires '*' !in x && (x == [] || x[|x| - 1] != '/')
    ensures Scan(a, x + "*/" + rest, 1) == Scan(a, rest, 0)
    decreases x
  {
    var s := x + "*/" + rest;
    if x == [] {
      assert s[2..] == rest;
    } else {
      assert s[1..] == x[1..] + "*/" + rest;
      assert |x| > 1 ==> x[1] in x && s[1] == x[1];
      BlockSkips(a, x[1..], rest);
    }
  }

  /** A lone return behind a comment sign sets free what follows it on its line. */
  lemma SetFree(a: Alphabet, freed: string, rest: string, s: string)
    requires s == "//\r" + freed + rest && '\r' !in freed + rest && '\n' !in freed && (rest == [] || rest[0] == '\n')
    ensures Scan(a, s, 0) == Scan(a, rest, 0) && Scan(a, Unified(s), 0) == Scan(a, freed + rest, 0)
    ensures Quiet(a, s, 0) ==> Silent(freed)
  {
    hide Unified, LineEnd, Freed, Quiet, Scan, Silent;
    var line := "//\r" + freed;
    assert s == line + rest && "//" + "\r" + freed == line;
    LineEndOf(line, rest);
    CommentSource(s);
    CommentSteps(a, s);
    FreedHere("//", freed);
    UnifiedSplit(freed + rest, "");
    UnifiedNothing();
    assert freed + rest + "" == freed + rest;
  }

  /** With block comments no condition on single lines decides: here a function comes back to life and the
      comment behind it takes in the one that was alive, so that the tokens stay although the source is not
      quiet. */
  lemma BlockCompensates(a: Alphabet, accepts: string -> bool, t: string, s: string)
    requires Lexing.Sound(a) && a.starts('f') && a.continues('n') && !a.continues('(') && a.normal("fn")
             && a.normal("f")
    requires t == "fn f() {}" && s == "//\r" + (t + "/*") + ("\n" + t + "\n// */") && accepts(s) && accepts(Layout(s))
    ensures !Quiet(a, s, 0)
    ensures Format(a, accepts, s).Some? && Tokens(a, Format(a, accepts, s).value) == Tokens(a, s)
  {
    hide Layout, Unified, Utf8Length, Quiet, Scan, FunctionAhead, Silent;
    FunctionText(t);
    ShortFits(s);
    BeforeReturn(a, t, "\n" + t + "\n// */");
    AfterReturn(a, t, t + "/*" + ("\n" + t + "\n// */"));
    Compensates(a, accepts, t, s);
  }

  lemma Compensates(a: Alphabet, accepts: string -> bool, t: string, s: string)
    requires Lexing.Sound(a) && '\r' !in t && '\n' !in t && !Silent(t + "/*")
    requires s == "//\r" + (t + "/*") + ("\n" + t + "\n// */") && accepts(s) && accepts(Layout(s))
             && Utf8Length(s) <= MAX_SOURCE_BYTES
    requires Scan(a, "\n" + t + "\n// */", 0) == Scan(a, t + "/*" + ("\n" + t + "\n// */"), 0) != None
    ensures !Quiet(a, s, 0)
    ensures Format(a, accepts, s).Some? && Tokens(a, Format(a, accepts, s).value) == Tokens(a, s)
  {
    hide Layout, Unified, Utf8Length, Quiet, Scan, FunctionAhead, Silent;
    SetFree(a, t + "/*", "\n" + t + "\n// */", s);
    LayoutTokens(a, s);
  }

  lemma FunctionText(t: string)
    requires t == "fn f() {}"
    ensures '\r' !in t && '\n' !in t && '*' !in t && |t| == 9 && !Silent(t + "/*") && FunctionAhead(Some([])).Some?
  {
    hide Word;
  }

  lemma BeforeReturn(a: Alphabet, t: string, s: string)
    requires Lexing.Sound(a) && a.starts('f') && a.continues('n') && !a.continues('(') && a.normal("fn")
             && a.normal("f") && t == "fn f() {}" && s == "\n" + t + "\n// */"
    ensures Scan(a, s, 0) == FunctionAhead(Some([]))
  {
    hide Scan, FunctionAhead, IsSpace;
    assert s[1..] == t + "\n// */" && "\n// */"[1..] == "// */";
    SpacesBreak();
    SourceSpace(a, s, 0);
    FunctionScans(a, "\n// */");
    SourceSpace(a, "\n// */", 0);
    LastComment(a, "// */");
    NothingScans(a);
  }

  lemma LastComment(a: Alphabet, s: string)
    requires At(s, 0, '/') && At(s, 1, '/') && '\n' !in s
    ensures Scan(a, s, 0) == Scan(a, "", 0)
  {
    hide Scan;
    assert s + "" == s;
    LineEndOf(s, "");
    CommentSource(s);
    CommentSteps(a, s);
  }

  lemma AfterReturn(a: Alphabet, t: string, s: string)
    requires Lexing.Sound(a) && a.starts('f') && a.continues('n') && !a.continues('(') && a.normal("fn")
             && a.normal("f") && t == "fn f() {}" && s == t + "/*" + ("\n" + t + "\n// */")
    ensures Scan(a, s, 0) == FunctionAhead(Some([]))
  {
    hide Scan, FunctionAhead;
    FunctionText(t);
    var (x, block) := ("\n" + t + "\n// ", "/*" + ("\n" + t + "\n// */"));
    assert s == t + block;
    assert block[2..] == x + "*/" + "" by { assert "\n// */" == "\n// " + "*/"; }
    FunctionScans(a, block);
    BlockOpens(a, block);
    BlockSkips(a, x, "");
    NothingScans(a);
  }

  lemma BlockOpens(a: Alphabet, s: string)
    requires At(s, 0, '/') && At(s, 1, '*')
    ensures Scan(a, s, 0) == Scan(a, s[2..], 1)
  {
    hide Read;
    NotSpaces();
  }
}
