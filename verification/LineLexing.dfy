/**
 * Lexing goes line by line: no token crosses a line break and white space around a line means
 * nothing, so only the depth of block comments is carried from one line to the next.
 */
module LineLexing {
  import opened Options
  import opened Lexing

  /** White space up to the next line break or the end of the text. */
  predicate Ending(y: string)
  {
    y == [] || (IsSpace(y[0]) && (y[0] == '\n' || Ending(y[1..])))
  }

  predicate Breaks(y: string)
  {
    y == [] || IsSpace(y[0])
  }

  predicate Blank(s: string)
  {
    forall i :: 0 <= i < |s| ==> IsSpace(s[i])
  }

  // ----- a token does not depend on the white space behind its line -----

  lemma {:induction false} DigitRunCut(x: string, y: string, separated: bool)
    requires Breaks(y)
    ensures DigitRun(x + y, separated) == DigitRun(x, separated)
    decreases x
  {
    if x == [] {
      assert x + y == y;
    } else {
      assert (x + y)[1..] == x[1..] + y;
      DigitRunCut(x[1..], y, !IsDigit(x[0]));
    }
  }

  lemma FractionCut(x: string, y: string)
    requires Breaks(y)
    ensures Fraction(x + y) == Fraction(x)
  {
    if |x| >= 2 {
      assert (x + y)[2..] == x[2..] + y;
      DigitRunCut(x[2..], y, false);
    }
  }

  lemma ExponentCut(x: string, y: string)
    requires Breaks(y)
    ensures Exponent(x + y) == Exponent(x)
  {
    hide DigitRun;
    var i := if At(x, 1, '+') || At(x, 1, '-') then 2 else 1;
    if i < |x| {
      assert (x + y)[i + 1..] == x[i + 1..] + y;
      DigitRunCut(x[i + 1..], y, false);
    }
  }

  lemma NumberCut(x: string, y: string)
    requires x != [] && Breaks(y)
    ensures Number(x + y) == Number(x)
  {
    hide DigitRun, Fraction, Exponent, Numeral;
    assert (x + y)[1..] == x[1..] + y;
    DigitRunCut(x[1..], y, false);
    if DigitRun(x[1..], false).Some? {
      var i := 1 + DigitRun(x[1..], false).value;
      assert (x + y)[i..] == x[i..] + y;
      FractionCut(x[i..], y);
      if Fraction(x[i..]).Some? {
        var j := i + Fraction(x[i..]).value;
        assert (x + y)[j..] == x[j..] + y;
        ExponentCut(x[j..], y);
        if Exponent(x[j..]).Some? {
          var k := j + Exponent(x[j..]).value;
          assert (x + y)[..k] == x[..k];
        }
      }
    }
  }

  lemma {:induction false} IdentifierCut(a: Alphabet, x: string, y: string)
    requires Sound(a) && Breaks(y)
    ensures IdentifierRun(a, x + y) == IdentifierRun(a, x)
    decreases x
  {
    if x == [] {
      assert x + y == y;
    } else {
      assert (x + y)[1..] == x[1..] + y;
      IdentifierCut(a, x[1..], y);
    }
  }

  /** Nothing after the end of a line closes a string. */
  lemma {:induction false} EndingOpen(y: string)
    requires Ending(y)
    ensures StringBody(y).None? && CharacterBody(y).None?
    decreases y
  {
    if y != [] && y[0] != '\n' {
      EndingOpen(y[1..]);
    }
  }

  lemma {:induction false} StringCut(x: string, y: string)
    requires Ending(y)
    ensures StringBody(x + y) == StringBody(x)
    decreases x
  {
    if x == [] {
      assert x + y == y;
      EndingOpen(y);
    } else if x[0] == '\\' && |x| >= 2 {
      assert (x + y)[2..] == x[2..] + y;
      StringCut(x[2..], y);
    } else {
      assert (x + y)[1..] == x[1..] + y;
      StringCut(x[1..], y);
    }
  }

  lemma CharacterCut(x: string, y: string)
    requires Ending(y)
    ensures CharacterBody(x + y) == CharacterBody(x)
  {
    if x == [] {
      assert x + y == y;
      EndingOpen(y);
    }
  }

  lemma SymbolCut(x: string, y: string)
    requires x != [] && Breaks(y)
    ensures SymbolLength(x + y) == SymbolLength(x)
  {
    assert forall i: nat, c: char :: !IsSpace(c) ==> At(x + y, i, c) == At(x, i, c) || i > |x|;
  }

  lemma ReadCut(a: Alphabet, x: string, y: string)
    requires Sound(a) && x != [] && Ending(y)
    ensures Read(a, x + y) == Read(a, x)
  {
    hide SymbolLength, StringBody, CharacterBody, Number, IdentifierRun, Named, Ending;
    assert Breaks(y) by { EndingBreaks(y); }
    SymbolCut(x, y);
    assert (x + y)[1..] == x[1..] + y;
    StringCut(x[1..], y);
    CharacterCut(x[1..], y);
    NumberCut(x, y);
    IdentifierCut(a, x[1..], y);
    assert (x + y)[..SymbolLength(x)] == x[..SymbolLength(x)];
    var n := 1 + IdentifierRun(a, x[1..]);
    assert (x + y)[..n] == x[..n];
  }

  lemma EndingBreaks(y: string)
    requires Ending(y)
    ensures Breaks(y)
  {
  }

  // ----- one line -----

  /** The tokens of a line entered inside `depth` comments, and the depth left behind it. */
  function ScanLine(a: Alphabet, s: string, depth: nat): Option<(seq<Token>, nat)>
    decreases |s|
  {
    if s == [] then Some(([], depth))
    else if depth > 0 then
      if At(s, 0, '/') && At(s, 1, '*') then ScanLine(a, s[2..], depth + 1)
      else if At(s, 0, '*') && At(s, 1, '/') then ScanLine(a, s[2..], depth - 1)
      else ScanLine(a, s[1..], depth)
    else if IsSpace(s[0]) then ScanLine(a, s[1..], 0)
    else if At(s, 0, '/') && At(s, 1, '/') then Some(([], 0))
    else if At(s, 0, '/') && At(s, 1, '*') then ScanLine(a, s[2..], 1)
    else match Read(a, s)
         case None => None
         case Some(lexeme) =>
           match ScanLine(a, s[lexeme.length..], 0)
           case None => None
           case Some((ts, d)) => Some(([lexeme.token] + ts, d))
  }

  lemma {:induction false} SkipBlank(a: Alphabet, w: string, z: string, depth: nat)
    requires Blank(w)
    ensures Scan(a, w + z, depth) == Scan(a, z, depth)
    decreases w
  {
    hide Read;
    if w == [] {
      assert w + z == z;
    } else {
      assert (w + z)[1..] == w[1..] + z;
      SkipBlank(a, w[1..], z, depth);
    }
  }

  lemma {:induction false} DropLineCut(x: string, y: string)
    requires '\n' !in x
    ensures DropLine(x + y) == DropLine(y)
    decreases x
  {
    if x == [] {
      assert x + y == y;
    } else {
      assert (x + y)[1..] == x[1..] + y;
      DropLineCut(x[1..], y);
    }
  }

  lemma {:induction false} DropEnding(a: Alphabet, y: string)
    requires Ending(y)
    ensures Scan(a, DropLine(y), 0) == Scan(a, y, 0)
    decreases y
  {
    hide Read;
    if y != [] && y[0] != '\n' {
      DropEnding(a, y[1..]);
    }
  }

  lemma BothAt(x: string, y: string, c: char, d: char)
    requires x != [] && Breaks(y) && !IsSpace(d)
    ensures (At(x + y, 0, c) && At(x + y, 1, d)) == (At(x, 0, c) && At(x, 1, d))
  {
  }

  /** Scanning a line and what follows it is scanning the line, then what follows it. */
  lemma {:induction false} LineCut(a: Alphabet, x: string, y: string, depth: nat)
    requires Sound(a) && Ending(y) && '\n' !in x
    ensures Scan(a, x + y, depth) ==
            match ScanLine(a, x, depth) case None => None case Some((ts, d)) => Before(ts, Scan(a, y, d))
    decreases |x|
  {
    hide Read, Sound, Ending, IsSpace;
    if x == [] {
      assert x + y == y;
      BeforeNothing(Scan(a, y, depth));
    } else {
      EndingBreaks(y);
      assert !IsSpace('/') && !IsSpace('*') by { NotSpaces(); }
      BothAt(x, y, '/', '*');
      BothAt(x, y, '*', '/');
      BothAt(x, y, '/', '/');
      assert (x + y)[1..] == x[1..] + y;
      assert |x| >= 2 ==> (x + y)[2..] == x[2..] + y;
      LineCutStep(a, x, y, depth);
    }
  }

  lemma NotSpaces()
    ensures !IsSpace('/') && !IsSpace('*')
  {
  }

  lemma BeforeAhead(t: Token, ts: seq<Token>, r: Option<seq<Token>>)
    ensures Ahead(t, Before(ts, r)) == Before([t] + ts, r)
  {
    if r.Some? {
      assert [t] + (ts + r.value) == [t] + ts + r.value;
    }
  }

  lemma {:induction false} LineCutStep(a: Alphabet, x: string, y: string, depth: nat)
    requires Sound(a) && Ending(y) && '\n' !in x && x != []
    requires (x + y)[1..] == x[1..] + y && (|x| >= 2 ==> (x + y)[2..] == x[2..] + y)
    requires (At(x + y, 0, '/') && At(x + y, 1, '*')) == (At(x, 0, '/') && At(x, 1, '*'))
    requires (At(x + y, 0, '*') && At(x + y, 1, '/')) == (At(x, 0, '*') && At(x, 1, '/'))
    requires (At(x + y, 0, '/') && At(x + y, 1, '/')) == (At(x, 0, '/') && At(x, 1, '/'))
    ensures Scan(a, x + y, depth) ==
            match ScanLine(a, x, depth) case None => None case Some((ts, d)) => Before(ts, Scan(a, y, d))
    decreases |x|, 0
  {
    hide Read, Sound, Ending, IsSpace, Before;
    if depth > 0 {
      if At(x, 0, '/') && At(x, 1, '*') {
        LineCut(a, x[2..], y, depth + 1);
      } else if At(x, 0, '*') && At(x, 1, '/') {
        LineCut(a, x[2..], y, depth - 1);
      } else {
        LineCut(a, x[1..], y, depth);
      }
    } else if IsSpace(x[0]) {
      LineCut(a, x[1..], y, 0);
    } else if At(x, 0, '/') && At(x, 1, '/') {
      DropLineCut(x[1..], y);
      DropEnding(a, y);
      BeforeNothing(Scan(a, y, 0));
    } else if At(x, 0, '/') && At(x, 1, '*') {
      LineCut(a, x[2..], y, 1);
    } else {
      ReadCut(a, x, y);
      if Read(a, x).Some? {
        var Lexeme(t, n) := Read(a, x).value;
        assert (x + y)[n..] == x[n..] + y;
        LineCut(a, x[n..], y, 0);
        var r := ScanLine(a, x[n..], 0);
        if r.Some? {
          BeforeAhead(t, r.value.0, Scan(a, y, r.value.1));
        }
      }
    }
  }

  // ----- lines -----

  /** Where the first line ends. */
  function LineEnd(s: string): (n: nat)
    ensures n <= |s| && '\n' !in s[..n] && (n < |s| ==> s[n] == '\n')
  {
    if s == [] || s[0] == '\n' then 0
    else
      var n := LineEnd(s[1..]);
      assert s[..1 + n] == [s[0]] + s[1..][..n];
      1 + n
  }

  function AfterLine(s: string): (r: string)
    requires s != []
    ensures |r| < |s|
  {
    var n := LineEnd(s);
    if n < |s| then s[n + 1..] else []
  }

  /** The lines of a text without their breaks; nothing follows a final break. */
  function Lines(s: string): seq<string>
    decreases |s|
  {
    if s == [] then [] else [s[..LineEnd(s)]] + Lines(AfterLine(s))
  }

  function TrimStart(s: string): (r: string)
    ensures |r| <= |s| && (r != [] ==> !IsSpace(r[0]))
  {
    if s != [] && IsSpace(s[0]) then TrimStart(s[1..]) else s
  }

  function TrimEnd(s: string): (r: string)
    ensures |r| <= |s| && r == s[..|r|] && (r != [] ==> !IsSpace(r[|r| - 1]))
  {
    if s != [] && IsSpace(s[|s| - 1]) then TrimEnd(s[..|s| - 1]) else s
  }

  function Trim(s: string): string
  {
    TrimEnd(TrimStart(s))
  }

  lemma {:induction false} TrimStartSplit(s: string) returns (lead: string)
    ensures s == lead + TrimStart(s) && Blank(lead)
    decreases s
  {
    lead := [];
    if s != [] && IsSpace(s[0]) {
      var more := TrimStartSplit(s[1..]);
      lead := [s[0]] + more;
    }
  }

  lemma {:induction false} TrimEndSplit(s: string) returns (trail: string)
    ensures s == TrimEnd(s) + trail && Blank(trail)
    decreases s
  {
    trail := [];
    if s != [] && IsSpace(s[|s| - 1]) {
      var more := TrimEndSplit(s[..|s| - 1]);
      trail := more + [s[|s| - 1]];
    }
  }

  /** A line is its trimmed content between white space. */
  lemma TrimSplit(s: string) returns (lead: string, trail: string)
    ensures s == lead + (Trim(s) + trail) && Blank(lead) && Blank(trail)
  {
    hide IsSpace, Blank;
    lead := TrimStartSplit(s);
    trail := TrimEndSplit(TrimStart(s));
  }

  /** The trimmed lines that are not empty. */
  function Kept(lines: seq<string>): seq<string>
  {
    if lines == [] then []
    else (if Trim(lines[0]) == [] then [] else [Trim(lines[0])]) + Kept(lines[1..])
  }

  function Contents(s: string): seq<string>
  {
    Kept(Lines(s))
  }

  /** The tokens of lines taken one after the other, only the comment depth being carried along. */
  function ScanLines(a: Alphabet, lines: seq<string>, depth: nat): Option<seq<Token>>
    decreases |lines|
  {
    if lines == [] then if depth == 0 then Some([]) else None
    else match ScanLine(a, lines[0], depth)
         case None => None
         case Some((ts, d)) => Before(ts, ScanLines(a, lines[1..], d))
  }

  lemma {:induction false} EndingOfBlank(trail: string, rest: string)
    requires Blank(trail) && (rest == [] || rest[0] == '\n')
    ensures Ending(trail + rest)
    decreases trail
  {
    if trail == [] {
      assert trail + rest == rest;
    } else {
      assert (trail + rest)[1..] == trail[1..] + rest;
      EndingOfBlank(trail[1..], rest);
    }
  }

  /** What follows the content of the first line scans like the lines after it. */
  lemma RestOfLine(a: Alphabet, s: string, trail: string, depth: nat)
    requires s != [] && Blank(trail)
    ensures Scan(a, trail + s[LineEnd(s)..], depth) == Scan(a, AfterLine(s), depth)
  {
    hide Scan;
    var n := LineEnd(s);
    if n < |s| {
      assert trail + s[n..] == (trail + ['\n']) + s[n + 1..];
      SkipBlank(a, trail + ['\n'], s[n + 1..], depth);
    } else {
      assert s[n..] == AfterLine(s) == [];
      SkipBlank(a, trail, [], depth);
    }
  }

  lemma ContentInLine(lead: string, content: string, trail: string)
    requires '\n' !in lead + (content + trail)
    ensures '\n' !in content
  {
  }

  /** The first line's content and what follows it, taken apart. */
  lemma FirstLine(a: Alphabet, s: string, depth: nat) returns (content: string, trail: string)
    requires s != []
    ensures content == Trim(s[..LineEnd(s)]) && '\n' !in content && Blank(trail) && Ending(trail + s[LineEnd(s)..])
    ensures Scan(a, s, depth) == Scan(a, content + (trail + s[LineEnd(s)..]), depth)
  {
    hide Scan, Blank, Ending, Trim, IsSpace;
    var lead;
    lead, trail := TrimSplit(s[..LineEnd(s)]);
    content := Trim(s[..LineEnd(s)]);
    ContentInLine(lead, content, trail);
    EndingOfBlank(trail, s[LineEnd(s)..]);
    assert s == lead + (content + (trail + s[LineEnd(s)..]));
    SkipBlank(a, lead, content + (trail + s[LineEnd(s)..]), depth);
  }

  lemma FirstKept(a: Alphabet, s: string, depth: nat)
    requires s != []
    ensures ScanLines(a, Contents(s), depth) ==
            match ScanLine(a, Trim(s[..LineEnd(s)]), depth)
            case None => None
            case Some((ts, d)) => Before(ts, ScanLines(a, Contents(AfterLine(s)), d))
  {
    hide Trim, Read;
    var (line, more) := (s[..LineEnd(s)], Lines(AfterLine(s)));
    assert Lines(s) == [line] + more && ([line] + more)[1..] == more;
    if Trim(line) == [] {
      assert [] + Kept(more) == Kept(more);
      BeforeNothing(ScanLines(a, Kept(more), depth));
    } else {
      assert ([Trim(line)] + Kept(more))[1..] == Kept(more);
    }
  }

  /** The whole text: the tokens depend only on the trimmed lines that are not empty. */
  lemma {:induction false} LineByLine(a: Alphabet, s: string, depth: nat)
    requires Sound(a)
    ensures Scan(a, s, depth) == ScanLines(a, Contents(s), depth)
    decreases |s|
  {
    if s == [] {
      assert Contents(s) == [];
    } else {
      hide Sound, Blank, Ending, Trim, IsSpace, Scan, ScanLine, ScanLines, Contents, Before, LineEnd, AfterLine;
      var content, trail := FirstLine(a, s, depth);
      LineCut(a, content, trail + s[LineEnd(s)..], depth);
      FirstKept(a, s, depth);
      var r := ScanLine(a, content, depth);
      if r.Some? {
        RestOfLine(a, s, trail, r.value.1);
        LineByLine(a, AfterLine(s), r.value.1);
      }
    }
  }
}
