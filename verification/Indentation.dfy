/** The formatter counts braces by itself; this is when its count is the lexer's. */
module Indentation {
  import opened Options
  import opened Lexing
  import opened LineLexing
  import opened Formatting

  /** Characters that mean nothing to the brace count. */
  predicate Plain(c: char)
  {
    c != '/' && c != '"' && c != '\'' && c != '{' && c != '}'
  }

  predicate AllPlain(s: string)
  {
    forall i :: 0 <= i < |s| ==> Plain(s[i])
  }

  ghost predicate Separate(a: Alphabet)
  {
    forall c: char :: a.continues(c) ==> Plain(c)
  }

  function Code(s: string): Count
  {
    Braces(s, 0, false, false, false)
  }

  function Occurrences(ts: seq<Token>, t: Token): nat
  {
    if ts == [] then 0 else (if ts[0] == t then 1 else 0) + Occurrences(ts[1..], t)
  }

  /** The braces among the tokens of a line. */
  function TokenCount(ts: seq<Token>, comment: nat): Count
  {
    Count(Occurrences(ts, Symbol("{")), Occurrences(ts, Symbol("}")), comment)
  }

  /** What follows the first character literal that is a bare quote between quotes. */
  function Behind(a: Alphabet, s: string, depth: nat): Option<string>
    decreases |s|
  {
    if s == [] then None
    else if depth > 0 then
      if At(s, 0, '/') && At(s, 1, '*') then Behind(a, s[2..], depth + 1)
      else if At(s, 0, '*') && At(s, 1, '/') then Behind(a, s[2..], depth - 1)
      else Behind(a, s[1..], depth)
    else if IsSpace(s[0]) then Behind(a, s[1..], 0)
    else if At(s, 0, '/') && At(s, 1, '/') then None
    else if At(s, 0, '/') && At(s, 1, '*') then Behind(a, s[2..], 1)
    else if At(s, 0, '\'') && At(s, 1, '\'') then Some(if |s| < 3 then [] else s[3..])
    else if Read(a, s).Some? then Behind(a, s[Read(a, s).value.length..], 0)
    else None
  }

  /** The line has no such literal. */
  predicate Steady(a: Alphabet, s: string, depth: nat)
  {
    Behind(a, s, depth).None?
  }

  // ----- single tokens -----

  lemma {:induction false} PlainRun(s: string, n: nat)
    requires n <= |s| && AllPlain(s[..n])
    ensures Code(s) == Code(s[n..])
    decreases n
  {
    if n == 0 {
      assert s[0..] == s;
    } else {
      assert Plain(s[..n][0]);
      assert s[1..][..n - 1] == s[..n][1..] && s[1..][n - 1..] == s[n..];
      PlainRun(s[1..], n - 1);
    }
  }

  lemma {:induction false} TextBraces(s: string)
    requires StringBody(s).Some?
    ensures Braces(s, 0, true, false, false) == Code(s[StringBody(s).value.1..])
    decreases |s|
  {
    if s[0] == '"' {
      assert s[1..] == s[StringBody(s).value.1..];
    } else if s[0] == '\\' {
      TextBraces(s[2..]);
      assert s[1..][1..] == s[2..];
      assert s[2..][StringBody(s[2..]).value.1..] == s[StringBody(s).value.1..];
      assert Braces(s[1..], 0, true, false, true) == Braces(s[2..], 0, true, false, false);
    } else {
      TextBraces(s[1..]);
      assert s[1..][StringBody(s[1..]).value.1..] == s[StringBody(s).value.1..];
    }
  }

  lemma CharacterBraces(s: string)
    requires CharacterBody(s).Some? && !At(s, 0, '\'')
    ensures Braces(s, 0, false, true, false) == Code(s[CharacterBody(s).value.1..])
  {
    assert s[1..][1..] == s[2..];
    if s[0] == '\\' {
      assert s[2..][1..] == s[3..];
      assert Braces(s[1..], 0, false, true, true) == Braces(s[2..], 0, false, true, false);
    }
  }

  lemma {:induction false} DigitRunPlain(s: string, separated: bool)
    requires DigitRun(s, separated).Some?
    ensures AllPlain(s[..DigitRun(s, separated).value])
    decreases s
  {
    if s != [] && (IsDigit(s[0]) || s[0] == '_') {
      DigitRunPlain(s[1..], !IsDigit(s[0]));
      var n := DigitRun(s, separated).value;
      assert s[..n] == [s[0]] + s[1..][..n - 1];
    }
  }

  lemma FractionPlain(s: string)
    requires Fraction(s).Some?
    ensures AllPlain(s[..Fraction(s).value])
  {
    hide DigitRun;
    if At(s, 0, '.') && DigitAt(s, 1) {
      DigitRunPlain(s[2..], false);
      assert s[..Fraction(s).value] == [s[0], s[1]] + s[2..][..DigitRun(s[2..], false).value];
    }
  }

  lemma ExponentPlain(s: string)
    requires Exponent(s).Some?
    ensures AllPlain(s[..Exponent(s).value])
  {
    hide DigitRun;
    if At(s, 0, 'e') || At(s, 0, 'E') {
      var i := if At(s, 1, '+') || At(s, 1, '-') then 2 else 1;
      DigitRunPlain(s[i + 1..], false);
      assert s[..Exponent(s).value] == s[..i + 1] + s[i + 1..][..DigitRun(s[i + 1..], false).value];
    }
  }

  lemma PlainAppend(x: string, y: string)
    requires AllPlain(x) && AllPlain(y)
    ensures AllPlain(x + y)
  {
  }

  lemma NumberPlain(s: string)
    requires s != [] && IsDigit(s[0]) && Number(s).Some?
    ensures AllPlain(s[..Number(s).value.length]) && !Number(s).value.token.Symbol?
  {
    hide DigitRun, Fraction, Exponent, AllPlain;
    var i := 1 + DigitRun(s[1..], false).value;
    var j := i + Fraction(s[i..]).value;
    var k := j + Exponent(s[j..]).value;
    DigitRunPlain(s[1..], false);
    FractionPlain(s[i..]);
    ExponentPlain(s[j..]);
    DigitPlain(s[0]);
    assert s[..1] == [s[0]];
    PlainLonger(s, 1, i);
    PlainLonger(s, i, j);
    PlainLonger(s, j, k);
  }

  lemma PlainLonger(s: string, i: nat, j: nat)
    requires i <= j <= |s| && AllPlain(s[..i]) && AllPlain(s[i..][..j - i])
    ensures AllPlain(s[..j])
  {
    assert s[..j] == s[..i] + s[i..][..j - i];
    PlainAppend(s[..i], s[i..][..j - i]);
  }

  lemma DigitPlain(c: char)
    requires IsDigit(c)
    ensures AllPlain([c])
  {
  }

  lemma {:induction false} IdentifierPlain(a: Alphabet, s: string)
    requires Separate(a)
    ensures AllPlain(s[..IdentifierRun(a, s)])
    decreases s
  {
    if s != [] && Continues(a, s[0]) {
      IdentifierPlain(a, s[1..]);
      assert s[..IdentifierRun(a, s)] == [s[0]] + s[1..][..IdentifierRun(a, s[1..])];
    }
  }

  /** Behind a symbol the count goes on; only the braces themselves count. */
  lemma SymbolBraces(s: string)
    requires s != [] && SymbolLength(s) > 0 && !(At(s, 0, '/') && (At(s, 1, '/') || At(s, 1, '*')))
    ensures Code(s) == Counted(if s[0] == '{' then 1 else 0, if s[0] == '}' then 1 else 0, Code(s[SymbolLength(s)..]))
    ensures s[..SymbolLength(s)] == "{" <==> s[0] == '{'
    ensures s[..SymbolLength(s)] == "}" <==> s[0] == '}'
  {
    var n := SymbolLength(s);
    assert Code(s) == Counted(if s[0] == '{' then 1 else 0, if s[0] == '}' then 1 else 0, Code(s[1..]));
    assert AllPlain(s[1..][..n - 1]);
    PlainRun(s[1..], n - 1);
    assert s[1..][n - 1..] == s[n..];
  }

  /** Behind any token the count goes on as in code. */
  lemma TokenBraces(a: Alphabet, s: string)
    requires Separate(a) && s != [] && !IsSpace(s[0]) && !(At(s, 0, '/') && (At(s, 1, '/') || At(s, 1, '*')))
    requires Read(a, s).Some? && !(At(s, 0, '\'') && At(s, 1, '\''))
    ensures var Lexeme(t, n) := Read(a, s).value;
            Code(s) == Counted(if t == Symbol("{") then 1 else 0, if t == Symbol("}") then 1 else 0, Code(s[n..]))
  {
    hide SymbolLength, Code, StringBody, CharacterBody, Number, IdentifierRun;
    var n := Read(a, s).value.length;
    if SymbolLength(s) > 0 {
      SymbolBraces(s);
    } else if s[0] == '"' {
      QuoteBraces(s);
      TextBraces(s[1..]);
      assert s[1..][n - 1..] == s[n..];
    } else if s[0] == '\'' {
      QuoteBraces(s);
      CharacterBraces(s[1..]);
      assert s[1..][n - 1..] == s[n..];
    } else if IsDigit(s[0]) {
      NumberPlain(s);
      PlainRun(s, n);
    } else {
      IdentifierPlain(a, s[1..]);
      StartPlain(s);
      PlainAppend([s[0]], s[1..][..n - 1]);
      assert s[..n] == [s[0]] + s[1..][..n - 1];
      PlainRun(s, n);
    }
  }

  lemma QuoteBraces(s: string)
    requires s != [] && (s[0] == '"' || s[0] == '\'')
    ensures Code(s) == Braces(s[1..], 0, s[0] == '"', s[0] == '\'', false)
  {
  }

  lemma StartPlain(s: string)
    requires s != [] && SymbolLength(s) == 0 && s[0] != '"' && s[0] != '\''
    ensures AllPlain([s[0]])
  {
  }

  // ----- lines -----

  lemma OccurrencesFirst(t: Token, ts: seq<Token>, b: Token)
    ensures Occurrences([t] + ts, b) == (if t == b then 1 else 0) + Occurrences(ts, b)
  {
    assert ([t] + ts)[1..] == ts;
  }

  lemma SpaceBraces(s: string)
    requires s != [] && IsSpace(s[0])
    ensures Code(s) == Code(s[1..])
  {
  }

  /** Inside and at the edges of comments the count moves like the lexer. */
  lemma CommentBraces(s: string, depth: nat)
    requires s != []
    ensures depth > 0 ==> Braces(s, depth, false, false, false) ==
                          if At(s, 0, '/') && At(s, 1, '*') then Braces(s[2..], depth + 1, false, false, false)
                          else if At(s, 0, '*') && At(s, 1, '/') then Braces(s[2..], depth - 1, false, false, false)
                          else Braces(s[1..], depth, false, false, false)
    ensures At(s, 0, '/') && At(s, 1, '/') ==> Code(s) == Count(0, 0, 0)
    ensures At(s, 0, '/') && At(s, 1, '*') ==> Code(s) == Braces(s[2..], 1, false, false, false)
  {
  }

  /** On a line that lexes, the formatter counts exactly the brace tokens and ends at the lexer's
      comment depth. */
  lemma {:induction false} BracesAreTokens(a: Alphabet, s: string, depth: nat)
    requires Separate(a) && Steady(a, s, depth) && ScanLine(a, s, depth).Some?
    ensures var (ts, d) := ScanLine(a, s, depth).value; LineCount(s, depth) == TokenCount(ts, d)
    decreases |s|
  {
    hide Read, Separate, IsSpace, Braces;
    if s == [] {
      assert Braces(s, depth, false, false, false) == Count(0, 0, depth) by { NoBraces(depth); }
    } else {
      CommentBraces(s, depth);
      if depth > 0 {
        if At(s, 0, '/') && At(s, 1, '*') {
          BracesAreTokens(a, s[2..], depth + 1);
        } else if At(s, 0, '*') && At(s, 1, '/') {
          BracesAreTokens(a, s[2..], depth - 1);
        } else {
          BracesAreTokens(a, s[1..], depth);
        }
      } else if IsSpace(s[0]) {
        SpaceBraces(s);
        BracesAreTokens(a, s[1..], 0);
      } else if At(s, 0, '/') && At(s, 1, '*') {
        BracesAreTokens(a, s[2..], 1);
      } else if !(At(s, 0, '/') && At(s, 1, '/')) {
        var Lexeme(t, n) := Read(a, s).value;
        TokenBraces(a, s);
        BracesAreTokens(a, s[n..], 0);
        var ts := ScanLine(a, s[n..], 0).value.0;
        OccurrencesFirst(t, ts, Symbol("{"));
        OccurrencesFirst(t, ts, Symbol("}"));
      }
    }
  }

  lemma NoBraces(depth: nat)
    ensures Braces([], depth, false, false, false) == Count(0, 0, depth)
  {
  }

  /** The output with indentation taken from the tokens: depth is the balance of brace tokens so far. */
  function RenderByTokens(a: Alphabet, items: seq<string>, depth: nat, comment: nat): string
    decreases |items|
  {
    if items == [] then []
    else if items[0] == [] then "\n" + RenderByTokens(a, items[1..], depth, comment)
    else
      var r := ScanLine(a, items[0], comment);
      var c := if r.Some? then TokenCount(r.value.0, r.value.1) else Count(0, 0, comment);
      Indented(items[0], depth, comment) + "\n" + RenderByTokens(a, items[1..], Deeper(depth, c), c.comment)
  }

  /** Every line lexes where it stands and is steady. */
  predicate SteadyLines(a: Alphabet, items: seq<string>, comment: nat)
    decreases |items|
  {
    if items == [] then true
    else if items[0] == [] then SteadyLines(a, items[1..], comment)
    else var r := ScanLine(a, items[0], comment);
         r.Some? && Steady(a, items[0], comment) && SteadyLines(a, items[1..], r.value.1)
  }

  lemma {:induction false} IndentationFollowsTokens(a: Alphabet, items: seq<string>, depth: nat, comment: nat)
    requires Separate(a) && SteadyLines(a, items, comment)
    ensures Render(items, depth, comment) == RenderByTokens(a, items, depth, comment)
    decreases |items|
  {
    hide Separate, ScanLine, Steady, LineCount, Indented, Deeper;
    if items != [] {
      if items[0] == [] {
        IndentationFollowsTokens(a, items[1..], depth, comment);
      } else {
        BracesAreTokens(a, items[0], comment);
        var c := LineCount(items[0], comment);
        IndentationFollowsTokens(a, items[1..], Deeper(depth, c), c.comment);
      }
    }
  }

  // ----- a quote between quotes -----

  /** Behind such a literal the count takes everything up to the next quote for another literal. */
  lemma {:induction false} QuoteSwallows(y: string, escaped: bool)
    requires '\'' !in y
    ensures Braces(y, 0, false, true, escaped) == Count(0, 0, 0)
    decreases y
  {
    if y != [] {
      QuoteSwallows(y[1..], !escaped && y[0] == '\\');
    }
  }

  lemma QuotedQuote(a: Alphabet, s: string)
    requires At(s, 0, '\'') && At(s, 1, '\'') && Read(a, s).Some? && '\'' !in (if |s| < 3 then [] else s[3..])
    ensures |s| >= 3 && Read(a, s).value == Lexeme(Character('\''), 3) && Code(s) == Count(0, 0, 0)
  {
    assert |s| >= 3 && s[2] == '\'';
    var y := s[3..];
    assert s[1..][1..] == s[2..] && s[2..][1..] == y;
    QuoteSwallows(y, false);
    assert Code(s[2..]) == Braces(y, 0, false, true, false);
    assert Braces(s[1..], 0, false, true, false) == Code(s[2..]);
  }

  predicate NoBraceTokens(ts: seq<Token>)
  {
    Occurrences(ts, Symbol("{")) == 0 && Occurrences(ts, Symbol("}")) == 0
  }

  /** On a line with one such literal and no quote behind it the count is right exactly when no brace and no
      open comment follows the literal. */
  lemma {:induction false} QuotedQuoteMisleads(a: Alphabet, s: string, depth: nat)
    requires Separate(a) && ScanLine(a, s, depth).Some? && Behind(a, s, depth).Some?
             && '\'' !in Behind(a, s, depth).value
    ensures ScanLine(a, Behind(a, s, depth).value, 0).Some?
    ensures var ((ts, d), (us, e)) := (ScanLine(a, s, depth).value, ScanLine(a, Behind(a, s, depth).value, 0).value);
            LineCount(s, depth) == TokenCount(ts, d) <==> NoBraceTokens(us) && e == 0
    decreases |s|
  {
    hide Read, Separate, IsSpace, Braces, Occurrences;
    CommentBraces(s, depth);
    if depth > 0 {
      if At(s, 0, '/') && At(s, 1, '*') {
        QuotedQuoteMisleads(a, s[2..], depth + 1);
      } else if At(s, 0, '*') && At(s, 1, '/') {
        QuotedQuoteMisleads(a, s[2..], depth - 1);
      } else {
        QuotedQuoteMisleads(a, s[1..], depth);
      }
    } else if IsSpace(s[0]) {
      SpaceBraces(s);
      QuotedQuoteMisleads(a, s[1..], 0);
    } else if At(s, 0, '/') && At(s, 1, '*') {
      QuotedQuoteMisleads(a, s[2..], 1);
    } else {
      var Lexeme(t, n) := Read(a, s).value;
      if At(s, 0, '\'') && At(s, 1, '\'') {
        QuotedQuote(a, s);
      } else {
        TokenBraces(a, s);
        QuotedQuoteMisleads(a, s[n..], 0);
      }
      var ts := ScanLine(a, s[n..], 0).value.0;
      OccurrencesFirst(t, ts, Symbol("{"));
      OccurrencesFirst(t, ts, Symbol("}"));
    }
  }

  /** One token of a line. */
  lemma TokenStep(a: Alphabet, s: string, t: Token, n: nat, rest: string)
    requires s != [] && !IsSpace(s[0]) && s[0] != '/' && Read(a, s) == Some(Lexeme(t, n)) && s[n..] == rest
    requires ScanLine(a, rest, 0).Some?
    ensures ScanLine(a, s, 0) == Some(([t] + ScanLine(a, rest, 0).value.0, ScanLine(a, rest, 0).value.1))
  {
    hide Read, IsSpace;
  }

  lemma QuoteStep(a: Alphabet, rest: string)
    ensures Read(a, "'''" + rest) == Some(Lexeme(Character('\''), 3))
    ensures Behind(a, "'''" + rest, 0) == Some(rest) && ("'''" + rest)[3..] == rest && !IsSpace('\'')
  {
    var s := "'''" + rest;
    assert s[1..] == "''" + rest && s[3..] == rest;
  }

  lemma BraceStep(a: Alphabet, rest: string)
    requires ScanLine(a, rest, 0).Some?
    ensures ScanLine(a, " " + ("{" + rest), 0)
            == Some(([Symbol("{")] + ScanLine(a, rest, 0).value.0, ScanLine(a, rest, 0).value.1))
  {
    var s := "{" + rest;
    assert (" " + s)[1..] == s && s[1..] == rest && s[..1] == "{";
    assert Read(a, s) == Some(Lexeme(Symbol("{"), 1));
    assert IsSpace(' ') && !IsSpace('{');
    hide Read, IsSpace;
    TokenStep(a, s, Symbol("{"), 1, rest);
  }

  /** Such a line: the brace behind the literal is a token and is not counted. */
  lemma QuotedQuoteLine(a: Alphabet, s: string)
    requires Separate(a) && s == "''' {"
    ensures Behind(a, s, 0) == Some(" {") && ScanLine(a, s, 0) == Some(([Character('\''), Symbol("{")], 0))
    ensures LineCount(s, 0) != TokenCount([Character('\''), Symbol("{")], 0)
  {
    hide Read, IsSpace, Separate, Braces, Occurrences;
    assert s == "'''" + " {" && " {" == " " + ("{" + "");
    BraceStep(a, "");
    QuoteStep(a, " {");
    TokenStep(a, s, Character('\''), 3, " {");
    assert [Symbol("{")] + [] == [Symbol("{")];
    assert [Character('\'')] + [Symbol("{")] == [Character('\''), Symbol("{")];
    hide ScanLine, Behind;
    assert Behind(a, s, 0) == Some(" {");
    assert '\'' !in " {";
    QuotedQuoteMisleads(a, s, 0);
    OneBrace();
  }

  lemma OneBrace()
    ensures !NoBraceTokens([Symbol("{")])
  {
    assert [Symbol("{")][1..] == [];
  }

  /** With another quote behind it no condition on what follows decides: here the count takes the literal of a
      brace for the brace that it has missed, and is right. */
  lemma QuotesCompensate(a: Alphabet, s: string)
    requires Separate(a) && s == "''' {'{'"
    ensures Behind(a, s, 0) == Some(" {'{'")
    ensures ScanLine(a, s, 0) == Some(([Character('\''), Symbol("{"), Character('{')], 0))
    ensures LineCount(s, 0) == TokenCount([Character('\''), Symbol("{"), Character('{')], 0)
  {
    hide Read, IsSpace, Separate, Braces, Occurrences;
    var (x, z) := (" {'{'", "'{'");
    assert s == "'''" + x && x == " " + ("{" + z);
    LiteralStep(a, z);
    BraceStep(a, z);
    QuoteStep(a, x);
    TokenStep(a, s, Character('\''), 3, x);
    assert [Symbol("{")] + [Character('{')] == [Symbol("{"), Character('{')];
    assert [Character('\'')] + [Symbol("{"), Character('{')] == [Character('\''), Symbol("{"), Character('{')];
    hide ScanLine, Behind;
    CompensatedCount(s);
    CompensatedTokens();
  }

  lemma LiteralStep(a: Alphabet, z: string)
    requires z == "'{'"
    ensures ScanLine(a, z, 0) == Some(([Character('{')], 0))
  {
    assert z[1..] == "{'" && z[3..] == [];
    assert Read(a, z) == Some(Lexeme(Character('{'), 3)) && !IsSpace('\'');
    hide Read, IsSpace;
    TokenStep(a, z, Character('{'), 3, []);
    assert [Character('{')] + [] == [Character('{')];
  }

  lemma CompensatedTokens()
    ensures TokenCount([Character('\''), Symbol("{"), Character('{')], 0) == Count(1, 0, 0)
  {
    var ts := [Character('\''), Symbol("{"), Character('{')];
    assert ts[1..] == [Symbol("{"), Character('{')] && ts[1..][1..] == [Character('{')] && ts[1..][1..][1..] == [];
  }

  lemma CompensatedCount(s: string)
    requires s == "''' {'{'"
    ensures Code(s) == Count(1, 0, 0)
  {
    assert s[1..] == "'' {'{'" && s[2..] == "' {'{'" && s[3..] == " {'{'" && s[4..] == "{'{'" && s[5..] == "'{'";
    assert s[6..] == "{'" && s[7..] == "'" && s[8..] == [];
    assert Braces(s[7..], 0, false, false, false) == Count(0, 0, 0);
    assert Braces(s[6..], 0, false, false, false) == Count(1, 0, 0);
    assert Braces(s[5..], 0, false, true, false) == Count(1, 0, 0);
    assert Braces(s[4..], 0, false, true, false) == Count(1, 0, 0);
    assert Braces(s[3..], 0, false, true, false) == Count(1, 0, 0);
    assert Braces(s[2..], 0, false, false, false) == Count(1, 0, 0);
    assert Braces(s[1..], 0, false, true, false) == Count(1, 0, 0);
  }
}
