/** The lexer as it runs: a cursor over the characters of the source. */
module Tokenizer {
  import opened Options
  import opened Lexing

  lemma Tail(s: string, i: nat, n: nat)
    requires i + n <= |s|
    ensures s[i..][n..] == s[i + n..] && |s[i..]| == |s| - i
    ensures forall k :: 0 <= k < |s| - i ==> s[i..][k] == s[i + k]
  {
  }

  // ----- one step of each reader -----

  lemma StringStep(s: string, i: nat)
    requires i < |s|
    ensures StringBody(s[i..]) ==
            if s[i] == '"' then Some(([], 1))
            else if s[i] == '\\' then
              if i + 1 == |s| || Escape(s[i + 1]).None? then None
              else Behind(Escape(s[i + 1]).value, 2, StringBody(s[i + 2..]))
            else if s[i] == '\n' then None
            else Behind(s[i], 1, StringBody(s[i + 1..]))
  {
    hide Escape;
    assert s[i..][0] == s[i] && s[i..][1..] == s[i + 1..];
    if i + 1 < |s| {
      assert s[i..][1] == s[i + 1] && s[i..][2..] == s[i + 2..];
    }
  }

  lemma NoString(s: string)
    ensures StringBody(s[|s|..]).None?
  {
  }

  /** A literal of which `n` characters, giving `value`, are read. */
  function Resumed(value: string, n: nat, r: Option<(string, nat)>): Option<(string, nat)>
  {
    match r
    case None => None
    case Some((text, length)) => Some((value + text, n + length))
  }

  lemma ResumedNothing(r: Option<(string, nat)>)
    ensures Resumed([], 0, r) == r
  {
    if r.Some? {
      assert [] + r.value.0 == r.value.0;
    }
  }

  lemma ResumedEnds(value: string, n: nat)
    ensures Resumed(value, n, None).None? && Resumed(value, n, Some(([], 1))) == Some((value, n + 1))
  {
    assert value + [] == value;
  }

  lemma ResumedBehind(value: string, n: nat, c: char, k: nat, r: Option<(string, nat)>)
    ensures Resumed(value, n, Behind(c, k, r)) == Resumed(value + [c], n + k, r)
  {
    if r.Some? {
      assert value + ([c] + r.value.0) == value + [c] + r.value.0;
    }
  }

  lemma DigitStep(s: string, i: nat, separated: bool)
    requires i <= |s|
    ensures DigitRun(s[i..], separated) ==
            if i == |s| then Some(0)
            else if IsDigit(s[i]) then Longer(1, DigitRun(s[i + 1..], false))
            else if s[i] == '_' then if separated || !DigitAt(s, i + 1) then None
                 else Longer(1, DigitRun(s[i + 1..], true))
            else Some(0)
  {
    if i < |s| {
      Tail(s, i, 1);
    }
  }

  lemma IdentifierStep(a: Alphabet, s: string, i: nat)
    requires i <= |s|
    ensures IdentifierRun(a, s[i..]) == if i == |s| || !Continues(a, s[i]) then 0 else 1 + IdentifierRun(a, s[i + 1..])
  {
    if i < |s| {
      assert s[i..][0] == s[i] && s[i..][1..] == s[i + 1..];
    }
  }

  lemma DropStep(s: string, i: nat)
    requires i <= |s|
    ensures DropLine(s[i..]) == if i == |s| || s[i] == '\n' then s[i..] else DropLine(s[i + 1..])
  {
    if i < |s| {
      assert s[i..][0] == s[i] && s[i..][1..] == s[i + 1..];
    }
  }

  lemma CommentStep(a: Alphabet, s: string, i: nat, depth: nat)
    requires i < |s| && depth > 0
    ensures Scan(a, s[i..], depth) ==
            if At(s, i, '/') && At(s, i + 1, '*') then Scan(a, s[i + 2..], depth + 1)
            else if At(s, i, '*') && At(s, i + 1, '/') then Scan(a, s[i + 2..], depth - 1)
            else Scan(a, s[i + 1..], depth)
  {
    hide Read, IsSpace;
    Tail(s, i, 1);
    if i + 1 < |s| {
      Tail(s, i, 2);
    }
  }

  lemma SkipStep(a: Alphabet, s: string, i: nat)
    requires i < |s|
    ensures IsSpace(s[i]) ==> Scan(a, s[i..], 0) == Scan(a, s[i + 1..], 0)
    ensures At(s, i, '/') && At(s, i + 1, '/') ==> Scan(a, s[i..], 0) == Scan(a, DropLine(s[i + 1..]), 0)
    ensures At(s, i, '/') && At(s, i + 1, '*') ==> Scan(a, s[i..], 0) == Scan(a, s[i + 2..], 1)
    ensures Solid(s[i..]) <==> !IsSpace(s[i]) && !(At(s, i, '/') && (At(s, i + 1, '/') || At(s, i + 1, '*')))
  {
    hide Read, DropLine;
    Tail(s, i, 1);
    if i + 1 < |s| {
      Tail(s, i, 2);
    }
  }

  /** Nothing is skipped at the start of the text. */
  predicate Solid(s: string)
  {
    s == [] || (!IsSpace(s[0]) && !(At(s, 0, '/') && (At(s, 1, '/') || At(s, 1, '*'))))
  }

  lemma TokenStep(a: Alphabet, s: string, i: nat)
    requires i < |s| && Solid(s[i..])
    ensures Scan(a, s[i..], 0) ==
            match Read(a, s[i..]) case None => None case Some(l) => Ahead(l.token, Scan(a, s[i + l.length..], 0))
  {
    hide Read;
    if Read(a, s[i..]).Some? {
      Tail(s, i, Read(a, s[i..]).value.length);
    }
  }

  lemma ScanEnd(a: Alphabet, s: string, depth: nat)
    ensures Scan(a, s[|s|..], depth) == if depth == 0 then Some([]) else None
  {
    hide Read;
  }

  class Lexer {
    const alphabet: Alphabet
    const source: string
    var current: nat

    constructor (alphabet: Alphabet, source: string)
      ensures this.alphabet == alphabet && this.source == source && current == 0
    {
      this.alphabet := alphabet;
      this.source := source;
      current := 0;
    }

    predicate Valid()
      reads this
    {
      current <= |source|
    }

    function Rest(): string
      requires Valid()
      reads this
    {
      source[current..]
    }

    predicate AtEnd()
      reads this
    {
      current >= |source|
    }

    /** The next character is the given one. */
    predicate Peeks(c: char)
      reads this
    {
      At(source, current, c)
    }

    predicate PeeksNext(c: char)
      reads this
    {
      At(source, current + 1, c)
    }

    method Advance() returns (c: char)
      requires Valid() && !AtEnd()
      modifies this
      ensures Valid() && current == old(current) + 1 && c == source[old(current)]
    {
      c := source[current];
      current := current + 1;
    }

    method MatchChar(expected: char) returns (matched: bool)
      requires Valid()
      modifies this
      ensures Valid() && matched == At(source, old(current), expected)
      ensures current == old(current) + if matched then 1 else 0
    {
      if !Peeks(expected) {
        return false;
      }
      var _ := Advance();
      matched := true;
    }

    // ----- literals -----

    method ReadEscape() returns (r: Option<char>)
      requires Valid()
      modifies this
      ensures Valid() && old(current) <= current && r == if old(current) < |source| then Escape(source[old(current)])
                                                         else None
      ensures r.Some? ==> current == old(current) + 1
    {
      if AtEnd() {
        return None;
      }
      var c := Advance();
      r := Escape(c);
    }

    method ReadString() returns (r: Option<string>)
      requires Valid()
      modifies this
      ensures Valid() && old(current) <= current && (r.Some? <==> StringBody(old(Rest())).Some?)
      ensures r.Some? ==>
                r.value == StringBody(old(Rest())).value.0 && current == old(current) + StringBody(old(Rest())).value.1
    {
      hide StringBody, Escape, Resumed;
      var start := current;
      var value := [];
      assert Resumed([], 0, StringBody(Rest())) == StringBody(Rest()) by { ResumedNothing(StringBody(Rest())); }
      while !AtEnd()
        invariant Valid() && start <= current
        invariant StringBody(old(Rest())) == Resumed(value, current - start, StringBody(Rest()))
        decreases |source| - current
      {
        StringStep(source, current);
        ResumedEnds(value, current - start);
        ghost var (at, before) := (current, value);
        var c := Advance();
        if c == '"' {
          return Some(value);
        }
        if c == '\\' {
          var e := ReadEscape();
          if e.None? {
            return None;
          }
          value := value + [e.value];
          ResumedBehind(before, at - start, e.value, 2, StringBody(Rest()));
        } else if c == '\n' {
          return None;
        } else {
          value := value + [c];
          ResumedBehind(before, at - start, c, 1, StringBody(Rest()));
        }
      }
      NoString(source);
      ResumedEnds(value, current - start);
      r := None;
    }

    method ReadCharacter() returns (r: Option<char>)
      requires Valid()
      modifies this
      ensures Valid() && old(current) <= current && (r.Some? <==> CharacterBody(old(Rest())).Some?)
      ensures r.Some? ==>
                r.value == CharacterBody(old(Rest())).value.0
                && current == old(current) + CharacterBody(old(Rest())).value.1
    {
      if AtEnd() || Peeks('\n') {
        return None;
      }
      var value;
      if Peeks('\\') {
        var _ := Advance();
        var e := ReadEscape();
        if e.None? {
          return None;
        }
        value := e.value;
      } else {
        value := Advance();
      }
      var closed := MatchChar('\'');
      r := if closed then Some(value) else None;
    }

    // ----- numbers -----

    method ReadDigitRun() returns (ok: bool)
      requires Valid()
      modifies this
      ensures Valid() && old(current) <= current && (ok <==> DigitRun(old(Rest()), false).Some?)
      ensures ok ==> current == old(current) + DigitRun(old(Rest()), false).value
    {
      hide DigitRun;
      var start := current;
      var separated := false;
      assert Longer(0, DigitRun(Rest(), false)) == DigitRun(Rest(), false);
      while !AtEnd()
        invariant Valid() && start <= current
        invariant DigitRun(old(Rest()), false) == Longer(current - start, DigitRun(Rest(), separated))
        decreases |source| - current
      {
        DigitStep(source, current, separated);
        if IsDigit(source[current]) {
          separated := false;
          var _ := Advance();
        } else if Peeks('_') {
          if separated || !DigitAt(source, current + 1) {
            var _ := Advance();
            return false;
          }
          separated := true;
          var _ := Advance();
        } else {
          break;
        }
      }
      DigitStep(source, current, separated);
      ok := true;
    }

    method ReadFraction() returns (ok: bool)
      requires Valid()
      modifies this
      ensures Valid() && old(current) <= current && (ok <==> Fraction(old(Rest())).Some?)
      ensures ok ==> current == old(current) + Fraction(old(Rest())).value
    {
      hide DigitRun;
      if Peeks('.') && DigitAt(source, current + 1) {
        Tail(source, current, 2);
        var _ := Advance();
        var _ := Advance();
        ok := ReadDigitRun();
        return;
      }
      ok := true;
    }

    method ReadExponent() returns (ok: bool)
      requires Valid()
      modifies this
      ensures Valid() && old(current) <= current && (ok <==> Exponent(old(Rest())).Some?)
      ensures ok ==> current == old(current) + Exponent(old(Rest())).value
    {
      hide DigitRun;
      if Peeks('e') || Peeks('E') {
        var _ := Advance();
        if Peeks('+') || Peeks('-') {
          var _ := Advance();
        }
        if AtEnd() || !IsDigit(source[current]) {
          return false;
        }
        var _ := Advance();
        Tail(source, old(current), current - old(current));
        ok := ReadDigitRun();
        return;
      }
      ok := true;
    }

    /** Reads the rest of a number whose first digit is already read. */
    method ReadNumber() returns (r: Option<Token>)
      requires Valid() && current > 0
      modifies this
      ensures Valid() && old(current) <= current && (r.Some? <==> Number(source[old(current) - 1..]).Some?)
      ensures r.Some? ==> Number(source[old(current) - 1..]) == Some(Lexeme(r.value, current - old(current) + 1))
    {
      hide DigitRun, Fraction, Exponent, WithoutSeparators, Decimal;
      var start := current - 1;
      ghost var s := source[start..];
      Tail(source, start, 1);
      var ok := ReadDigitRun();
      if !ok {
        return None;
      }
      var whole := current;
      Tail(source, start, current - start);
      ok := ReadFraction();
      if !ok {
        return None;
      }
      Tail(source, start, current - start);
      ok := ReadExponent();
      if !ok {
        return None;
      }
      var text := source[start..current];
      assert text == s[..current - start];
      var digits := WithoutSeparators(text);
      if current > whole {
        r := Some(Float(digits));
      } else if Decimal(digits) < INTEGER_LIMIT {
        r := Some(Integer(Decimal(digits)));
      } else {
        r := None;
      }
    }

    method ReadIdentifier() returns (r: Option<Token>)
      requires Valid() && current > 0
      modifies this
      ensures Valid() && old(current) <= current
      ensures var s := source[old(current) - 1..];
              Named(alphabet, s[..1 + IdentifierRun(alphabet, s[1..])]) ==
              if r.None? then None else Some(Lexeme(r.value, current - old(current) + 1))
    {
      hide IdentifierRun, Continues, KEYWORDS;
      var start := current - 1;
      ghost var s := source[start..];
      Tail(source, start, 1);
      while !AtEnd() && Continues(alphabet, source[current])
        invariant Valid() && old(current) <= current
        invariant old(current) + IdentifierRun(alphabet, s[1..]) == current + IdentifierRun(alphabet, Rest())
        decreases |source| - current
      {
        IdentifierStep(alphabet, source, current);
        var _ := Advance();
      }
      IdentifierStep(alphabet, source, current);
      var word := source[start..current];
      assert word == s[..1 + IdentifierRun(alphabet, s[1..])];
      if !alphabet.normal(word) {
        return None;
      }
      r := Some(if word in KEYWORDS then Keyword(word) else Identifier(word));
    }

    // ----- white space and comments -----

    method SkipLine()
      requires Valid()
      modifies this
      ensures Valid() && old(current) <= current && Rest() == DropLine(old(Rest()))
    {
      hide DropLine;
      while !AtEnd() && !Peeks('\n')
        invariant Valid() && old(current) <= current && DropLine(Rest()) == DropLine(old(Rest()))
        decreases |source| - current
      {
        DropStep(source, current);
        var _ := Advance();
      }
      DropStep(source, current);
    }

    /** Leaves a block comment whose opening is already read, with all comments nested in it. */
    method SkipComment() returns (ok: bool)
      requires Valid()
      modifies this
      ensures Valid() && old(current) <= current
      ensures Scan(alphabet, old(Rest()), 1) == if ok then Scan(alphabet, Rest(), 0) else None
    {
      hide Scan;
      var depth := 1;
      while depth > 0 && !AtEnd()
        invariant Valid() && old(current) <= current && depth >= 0
        invariant Scan(alphabet, old(Rest()), 1) == Scan(alphabet, Rest(), depth)
        decreases |source| - current
      {
        CommentStep(alphabet, source, current, depth);
        if Peeks('/') && PeeksNext('*') {
          current := current + 2;
          depth := depth + 1;
        } else if Peeks('*') && PeeksNext('/') {
          current := current + 2;
          depth := depth - 1;
        } else {
          var _ := Advance();
        }
      }
      if depth > 0 {
        ScanEnd(alphabet, source, depth);
      }
      ok := depth == 0;
    }

    method SkipWhitespaceAndComments() returns (ok: bool)
      requires Valid()
      modifies this
      ensures Valid() && old(current) <= current
      ensures Scan(alphabet, old(Rest()), 0) == if ok then Scan(alphabet, Rest(), 0) else None
      ensures ok ==> Solid(Rest())
    {
      while true
        invariant Valid() && old(current) <= current
        invariant Scan(alphabet, old(Rest()), 0) == Scan(alphabet, Rest(), 0)
        decreases |source| - current
      {
        hide Scan, DropLine, IsSpace;
        if AtEnd() {
          break;
        }
        SkipStep(alphabet, source, current);
        if IsSpace(source[current]) {
          var _ := Advance();
        } else if Peeks('/') && PeeksNext('/') {
          var _ := Advance();
          SkipLine();
        } else if Peeks('/') && PeeksNext('*') {
          current := current + 2;
          var closed := SkipComment();
          if !closed {
            return false;
          }
        } else {
          break;
        }
      }
      ok := true;
    }

    // ----- tokens -----

    /** The operator or bracket that starts with the character just read. */
    method ReadSymbol(c: char) returns (length: nat)
      requires Valid() && current > 0 && source[current - 1] == c
      modifies this
      ensures Valid() && length == SymbolLength(source[old(current) - 1..])
      ensures current == old(current) + if length == 0 then 0 else length - 1
    {
      Tail(source, current - 1, 1);
      length := 1;
      if c in "(){}[],:;%^~?" {
        return;
      }
      var second := false;
      if c in "+*/!" {
        second := MatchChar('=');
      } else if c == '-' || c == '=' {
        second := MatchChar('>');
        if !second {
          second := MatchChar('=');
        }
      } else if c == '<' || c == '>' {
        second := MatchChar('=');
        if !second {
          second := MatchChar(c);
        }
      } else if c == '&' || c == '|' {
        second := MatchChar(c);
      } else if c == '.' {
        second := MatchChar('.');
        if second {
          var third := MatchChar('=');
          if third {
            length := 3;
            return;
          }
        }
      } else {
        length := 0;
        return;
      }
      if second {
        length := 2;
      }
    }

    method ReadToken() returns (r: Option<Token>)
      requires Valid() && !AtEnd()
      modifies this
      ensures Valid() && old(current) < current
      ensures Read(alphabet, old(Rest())) == if r.None? then None else Some(Lexeme(r.value, current - old(current)))
    {
      hide SymbolLength, StringBody, CharacterBody, Number, Named, IdentifierRun, IsDigit;
      var start := current;
      Tail(source, current, 1);
      var c := Advance();
      var length := ReadSymbol(c);
      if length > 0 {
        assert source[start..current] == old(Rest())[..length];
        return Some(Symbol(source[start..current]));
      }
      if c == '"' {
        var text := ReadString();
        r := if text.None? then None else Some(Text(text.value));
      } else if c == '\'' {
        var value := ReadCharacter();
        r := if value.None? then None else Some(Character(value.value));
      } else if IsDigit(c) {
        r := ReadNumber();
      } else if c == '_' || alphabet.starts(c) {
        r := ReadIdentifier();
      } else {
        r := None;
      }
    }

    method Tokenize() returns (r: Option<seq<Token>>)
      requires current == 0
      modifies this
      ensures r == Tokens(alphabet, source)
    {
      hide Read, Scan, Solid;
      var tokens := [];
      assert source[0..] == source;
      BeforeNothing(Scan(alphabet, source, 0));
      while !AtEnd()
        invariant Valid() && Scan(alphabet, source, 0) == Before(tokens, Scan(alphabet, Rest(), 0))
        decreases |source| - current
      {
        var ok := SkipWhitespaceAndComments();
        if !ok {
          return None;
        }
        if AtEnd() {
          break;
        }
        TokenStep(alphabet, source, current);
        var token := ReadToken();
        if token.None? {
          return None;
        }
        BeforeOne(tokens, token.value, Scan(alphabet, Rest(), 0));
        tokens := tokens + [token.value];
      }
      ScanEnd(alphabet, source, 0);
      assert tokens + [] == tokens;
      r := Some(tokens + [EndOfFile]);
    }
  }

  lemma BeforeOne(ts: seq<Token>, t: Token, r: Option<seq<Token>>)
    ensures Before(ts, Ahead(t, r)) == Before(ts + [t], r)
  {
    if r.Some? {
      assert ts + ([t] + r.value) == ts + [t] + r.value;
    }
  }
}
