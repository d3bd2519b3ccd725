/** The formatter as it runs. */
module FormatterLoop {
  import opened Options
  import opened Lexing
  import opened LineLexing
  import opened Formatting
  import opened Tokenizer

  lemma BracesStep(s: string, i: nat, comment: nat, text: bool, character: bool, escaped: bool)
    requires i < |s|
    ensures Braces(s[i..], comment, text, character, escaped) ==
            if comment != 0 then
              if At(s, i, '/') && At(s, i + 1, '*') then Braces(s[i + 2..], comment + 1, text, character, escaped)
              else if At(s, i, '*') && At(s, i + 1, '/') then Braces(s[i + 2..], comment - 1, text, character, escaped)
              else Braces(s[i + 1..], comment, text, character, escaped)
            else if text || character then
              var ends := !escaped && s[i] != '\\';
              Braces(s[i + 1..], 0, text && !(ends && s[i] == '"'), character && !(ends && s[i] == '\''), !escaped
                     && s[i] == '\\')
            else if At(s, i, '/') && At(s, i + 1, '/') then Count(0, 0, 0)
            else if At(s, i, '/') && At(s, i + 1, '*') then Braces(s[i + 2..], 1, false, false, escaped)
            else Counted(if s[i] == '{' then 1 else 0, if s[i] == '}' then 1 else 0,
                         Braces(s[i + 1..], 0, s[i] == '"', s[i] == '\'', escaped))
  {
    Tail(s, i, 1);
    if i + 1 < |s| {
      Tail(s, i, 2);
    }
  }

  lemma BracesEnd(s: string, comment: nat, text: bool, character: bool, escaped: bool)
    ensures Braces(s[|s|..], comment, text, character, escaped) == Count(0, 0, comment)
  {
  }

  method LeadingClosingBraces(line: string, comment: nat) returns (n: nat)
    ensures n == LeadingCloses(line, comment)
  {
    if comment != 0 {
      return 0;
    }
    n := 0;
    assert line[0..] == line;
    while n < |line| && line[n] == '}'
      invariant n <= |line| && LeadingCloses(line, 0) == n + LeadingCloses(line[n..], 0)
    {
      Tail(line, n, 1);
      n := n + 1;
    }
  }

  method ScanBraces(line: string, before: nat) returns (opens: nat, closes: nat, comment: nat)
    ensures Count(opens, closes, comment) == LineCount(line, before)
  {
    hide Braces;
    var index := 0;
    opens, closes, comment := 0, 0, before;
    var text, character, escaped := false, false, false;
    assert line[0..] == line;
    while index < |line|
      invariant index <= |line| && LineCount(line, before)
                == Counted(opens, closes, Braces(line[index..], comment, text, character, escaped))
    {
      BracesStep(line, index, comment, text, character, escaped);
      var current := line[index];
      if comment != 0 {
        if current == '/' && At(line, index + 1, '*') {
          comment := comment + 1;
          index := index + 2;
        } else if current == '*' && At(line, index + 1, '/') {
          comment := comment - 1;
          index := index + 2;
        } else {
          index := index + 1;
        }
        continue;
      }
      if text || character {
        if escaped {
          escaped := false;
        } else if current == '\\' {
          escaped := true;
        } else if text && current == '"' {
          text := false;
        } else if character && current == '\'' {
          character := false;
        }
        index := index + 1;
        continue;
      }
      if current == '/' && At(line, index + 1, '/') {
        return;
      }
      if current == '/' && At(line, index + 1, '*') {
        comment := 1;
        index := index + 2;
        continue;
      }
      if current == '"' {
        text := true;
      } else if current == '\'' {
        character := true;
      } else if current == '{' {
        opens := opens + 1;
      } else if current == '}' {
        closes := closes + 1;
      }
      index := index + 1;
    }
    BracesEnd(line, comment, text, character, escaped);
  }

  // ----- the loop over lines -----

  lemma BlankStep(output: string, lines: seq<string>, i: nat, depth: nat, comment: nat, blank: bool)
    requires i < |lines| && Trim(lines[i]) == []
    ensures var more := if output != [] && !blank then output + "\n" else output;
            output + Appended(lines[i..], depth, comment, output != [], blank) ==
            more + Appended(lines[i + 1..], depth, comment, more != [], true)
  {
    hide Trim;
    assert lines[i..][0] == lines[i] && lines[i..][1..] == lines[i + 1..];
    var rest := Appended(lines[i + 1..], depth, comment, output != [], true);
    hide Appended;
    assert [] + rest == rest && output + ("\n" + rest) == output + "\n" + rest;
  }

  lemma ContentStep(output: string, lines: seq<string>, i: nat, depth: nat, comment: nat, blank: bool)
    requires i < |lines| && Trim(lines[i]) != []
    ensures var c := LineCount(Trim(lines[i]), comment);
            var more := output + Indented(Trim(lines[i]), depth, comment) + "\n";
            output + Appended(lines[i..], depth, comment, output != [], blank) ==
            more + Appended(lines[i + 1..], Deeper(depth, c), c.comment, more != [], false)
  {
    hide Trim, LineCount, Indented, Deeper;
    assert lines[i..][0] == lines[i] && lines[i..][1..] == lines[i + 1..];
    var c := LineCount(Trim(lines[i]), comment);
    var (line, rest) := (Indented(Trim(lines[i]), depth, comment),
                         Appended(lines[i + 1..], Deeper(depth, c), c.comment, true, false));
    hide Appended;
    assert output + (line + "\n" + rest) == output + line + "\n" + rest;
  }

  lemma NothingLeft(lines: seq<string>, depth: nat, comment: nat, started: bool, blank: bool)
    ensures Appended(lines[|lines|..], depth, comment, started, blank) == []
  {
  }

  method AppendLines(lines: seq<string>) returns (output: string)
    ensures output == Appended(lines, 0, 0, false, false)
  {
    hide Appended, Trim, LineCount, LeadingCloses, Spaces;
    output := [];
    var depth, comment, blank := 0, 0, false;
    assert lines[0..] == lines;
    for i := 0 to |lines|
      invariant depth >= 0 && comment >= 0
      invariant output + Appended(lines[i..], depth, comment, output != [], blank)
                == Appended(lines, 0, 0, false, false)
    {
      var content := Trim(lines[i]);
      if content == [] {
        BlankStep(output, lines, i, depth, comment, blank);
        if output != [] && !blank {
          output := output + "\n";
        }
        blank := true;
        continue;
      }
      ContentStep(output, lines, i, depth, comment, blank);
      var leading := LeadingClosingBraces(content, comment);
      var indent := if depth < leading then 0 else depth - leading;
      output := output + (Spaces(4 * indent) + content) + "\n";
      blank := false;
      var opens, closes, after := ScanBraces(content, comment);
      depth := if depth + opens < closes then 0 else depth + opens - closes;
      comment := after;
    }
    NothingLeft(lines, depth, comment, output != [], blank);
  }

  method PopBreaks(text: string) returns (output: string)
    ensures output == Ended(Popped(text))
  {
    output := text;
    while |output| >= 2 && output[|output| - 1] == '\n' && output[|output| - 2] == '\n'
      invariant Popped(output) == Popped(text)
      decreases |output|
    {
      output := output[..|output| - 1];
    }
    if output != [] && output[|output| - 1] != '\n' {
      output := output + "\n";
    }
  }

  method Parse(a: Alphabet, accepts: string -> bool, s: string) returns (ok: bool)
    ensures ok == Parses(a, accepts, s)
  {
    var lexer := new Lexer(a, s);
    var tokens := lexer.Tokenize();
    ok := tokens.Some? && accepts(s);
  }

  method FormatSource(a: Alphabet, accepts: string -> bool, s: string) returns (r: Option<string>)
    ensures r == Format(a, accepts, s)
  {
    hide Parses, Appended, Popped, Ended, Lines, Unified;
    if Utf8Length(s) > MAX_SOURCE_BYTES {
      return None;
    }
    var ok := Parse(a, accepts, s);
    if !ok {
      return None;
    }
    var output := AppendLines(Lines(Unified(s)));
    output := PopBreaks(output);
    ok := Parse(a, accepts, output);
    if !ok {
      return None;
    }
    r := Some(output);
  }
}
