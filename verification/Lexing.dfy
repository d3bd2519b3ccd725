/** The lexer: source text to token kinds, with nested block comments and line comments skipped. */
module Lexing {
  import opened Options

  datatype Token =
    | Keyword(word: string)
    | Identifier(name: string)
    | Integer(value: nat)
    | Float(digits: string)
    | Text(text: string)
    | Character(character: char)
    | Symbol(symbol: string)
    | EndOfFile

  /** A token and how many characters it took. */
  datatype Lexeme = Lexeme(token: Token, length: nat)

  /** The Unicode tables behind identifiers: which characters start and continue one, and which
      spellings are in normalization form C. */
  datatype Alphabet = Alphabet(starts: char -> bool, continues: char -> bool, normal: string -> bool)

  const INTEGER_LIMIT: nat := 0x1_0000_0000_0000_0000_0000_0000_0000_0000

  const KEYWORDS: set<string> := {
    "let", "var", "const", "fn", "return", "if", "else", "match", "for", "in", "while", "loop", "break", "continue",
    "struct", "enum", "trait", "impl", "type", "module", "use", "as", "pub", "async", "await", "spawn", "parallel",
    "move", "mut", "unsafe", "extern", "export", "data", "transaction", "page", "component", "style", "state", "route",
    "comptime", "true", "false"}

  /** Characters with the Unicode property White_Space. */
  predicate IsSpace(c: char)
  {
    var n := c as int;
    || 0x09 <= n <= 0x0D || n == 0x20 || n == 0x85 || n == 0xA0 || n == 0x1680 || 0x2000 <= n <= 0x200A
    || n == 0x2028 || n == 0x2029 || n == 0x202F || n == 0x205F || n == 0x3000
  }

  predicate IsDigit(c: char)
  {
    '0' <= c <= '9'
  }

  /** Bytes of the text in UTF-8. */
  function Utf8Length(s: string): nat
  {
    if s == [] then 0
    else (if s[0] as int < 0x80 then 1 else if s[0] as int < 0x800 then 2 else if s[0] as int < 0x10000 then 3 else 4)
         + Utf8Length(s[1..])
  }

  /** No white space belongs to an identifier. */
  ghost predicate Sound(a: Alphabet)
  {
    forall c: char :: IsSpace(c) ==> !a.continues(c)
  }

  predicate At(s: string, i: nat, c: char)
  {
    i < |s| && s[i] == c
  }

  predicate DigitAt(s: string, i: nat)
  {
    i < |s| && IsDigit(s[i])
  }

  // ----- single tokens -----

  /** The length of the operator or bracket at the start, zero if there is none. */
  function SymbolLength(s: string): (n: nat)
    requires s != []
    ensures n <= |s|
  {
    match s[0]
    case '(' => 1
    case ')' => 1
    case '{' => 1
    case '}' => 1
    case '[' => 1
    case ']' => 1
    case ',' => 1
    case ':' => 1
    case ';' => 1
    case '%' => 1
    case '^' => 1
    case '~' => 1
    case '?' => 1
    case '+' => if At(s, 1, '=') then 2 else 1
    case '*' => if At(s, 1, '=') then 2 else 1
    case '/' => if At(s, 1, '=') then 2 else 1
    case '!' => if At(s, 1, '=') then 2 else 1
    case '-' => if At(s, 1, '>') || At(s, 1, '=') then 2 else 1
    case '=' => if At(s, 1, '>') || At(s, 1, '=') then 2 else 1
    case '<' => if At(s, 1, '=') || At(s, 1, '<') then 2 else 1
    case '>' => if At(s, 1, '=') || At(s, 1, '>') then 2 else 1
    case '&' => if At(s, 1, '&') then 2 else 1
    case '|' => if At(s, 1, '|') then 2 else 1
    case '.' => if At(s, 1, '.') then if At(s, 2, '=') then 3 else 2 else 1
    case _ => 0
  }

  function Escape(c: char): Option<char>
  {
    match c
    case 'n' => Some('\n')
    case 'r' => Some('\r')
    case 't' => Some('\t')
    case '0' => Some('\0')
    case '\\' => Some('\\')
    case '"' => Some('"')
    case '\'' => Some('\'')
    case _ => None
  }

  /** The value of a string literal whose opening quote is already read, and the length with the
      closing quote. */
  function StringBody(s: string): (r: Option<(string, nat)>)
    ensures r.Some? ==> 1 <= r.value.1 <= |s|
  {
    if s == [] then None
    else if s[0] == '"' then Some(([], 1))
    else if s[0] == '\\' then
      if |s| < 2 || Escape(s[1]).None? then None else Behind(Escape(s[1]).value, 2, StringBody(s[2..]))
    else if s[0] == '\n' then None
    else Behind(s[0], 1, StringBody(s[1..]))
  }

  function Behind(c: char, n: nat, r: Option<(string, nat)>): Option<(string, nat)>
  {
    match r
    case None => None
    case Some((text, length)) => Some(([c] + text, n + length))
  }

  function CharacterBody(s: string): (r: Option<(char, nat)>)
    ensures r.Some? ==> 1 <= r.value.1 <= |s|
  {
    if s == [] || s[0] == '\n' then None
    else if s[0] == '\\' then
      if |s| < 2 || Escape(s[1]).None? || !At(s, 2, '\'') then None else Some((Escape(s[1]).value, 3))
    else if At(s, 1, '\'') then Some((s[0], 2)) else None
  }

  /** The length of a run of digits with single separators between digits. */
  function DigitRun(s: string, separated: bool): (r: Option<nat>)
    ensures r.Some? ==> r.value <= |s|
  {
    if s == [] then Some(0)
    else if IsDigit(s[0]) then Longer(1, DigitRun(s[1..], false))
    else if s[0] == '_' then if separated || !DigitAt(s, 1) then None else Longer(1, DigitRun(s[1..], true))
    else Some(0)
  }

  function Longer(n: nat, r: Option<nat>): Option<nat>
  {
    if r.None? then None else Some(n + r.value)
  }

  /** The length of a fraction, zero if none starts here. */
  function Fraction(s: string): (r: Option<nat>)
    ensures r.Some? ==> r.value <= |s|
  {
    if At(s, 0, '.') && DigitAt(s, 1) then Longer(2, DigitRun(s[2..], false)) else Some(0)
  }

  function Exponent(s: string): (r: Option<nat>)
    ensures r.Some? ==> r.value <= |s|
  {
    if At(s, 0, 'e') || At(s, 0, 'E') then
      var i := if At(s, 1, '+') || At(s, 1, '-') then 2 else 1;
      if DigitAt(s, i) then Longer(i + 1, DigitRun(s[i + 1..], false)) else None
    else Some(0)
  }

  function WithoutSeparators(s: string): string
  {
    if s == [] then [] else (if s[0] == '_' then [] else [s[0]]) + WithoutSeparators(s[1..])
  }

  function Decimal(s: string): nat
  {
    if s == [] then 0
    else 10 * Decimal(s[..|s| - 1]) + if IsDigit(s[|s| - 1]) then s[|s| - 1] as nat - '0' as nat else 0
  }

  function Number(s: string): (r: Option<Lexeme>)
    requires s != []
    ensures r.Some? ==> 1 <= r.value.length <= |s|
  {
    match DigitRun(s[1..], false)
    case None => None
    case Some(i) =>
      match Fraction(s[1 + i..])
      case None => None
      case Some(f) =>
        match Exponent(s[1 + i + f..])
        case None => None
        case Some(e) => Numeral(s[..1 + i + f + e], f + e > 0)
  }

  function Numeral(s: string, float: bool): (r: Option<Lexeme>)
    ensures r.Some? ==> r.value.length == |s|
  {
    var digits := WithoutSeparators(s);
    if float then Some(Lexeme(Float(digits), |s|))
    else if Decimal(digits) < INTEGER_LIMIT then Some(Lexeme(Integer(Decimal(digits)), |s|))
    else None
  }

  predicate Continues(a: Alphabet, c: char)
  {
    c == '_' || a.continues(c)
  }

  function IdentifierRun(a: Alphabet, s: string): (n: nat)
    ensures n <= |s|
  {
    if s == [] || !Continues(a, s[0]) then 0 else 1 + IdentifierRun(a, s[1..])
  }

  function Named(a: Alphabet, word: string): Option<Lexeme>
  {
    if !a.normal(word) then None
    else Some(Lexeme(if word in KEYWORDS then Keyword(word) else Identifier(word), |word|))
  }

  /** The token at the start of text that begins with neither white space nor a comment. */
  function Read(a: Alphabet, s: string): (r: Option<Lexeme>)
    requires s != []
    ensures r.Some? ==> 1 <= r.value.length <= |s|
  {
    var n := SymbolLength(s);
    if n > 0 then Some(Lexeme(Symbol(s[..n]), n))
    else if s[0] == '"' then
      match StringBody(s[1..])
      case None => None
      case Some((text, length)) => Some(Lexeme(Text(text), 1 + length))
    else if s[0] == '\'' then
      match CharacterBody(s[1..])
      case None => None
      case Some((c, length)) => Some(Lexeme(Character(c), 1 + length))
    else if IsDigit(s[0]) then Number(s)
    else if s[0] == '_' || a.starts(s[0]) then Named(a, s[..1 + IdentifierRun(a, s[1..])])
    else None
  }

  // ----- whole texts -----

  /** What remains from the next line break on. */
  function DropLine(s: string): (r: string)
    ensures |r| <= |s|
  {
    if s == [] || s[0] == '\n' then s else DropLine(s[1..])
  }

  function Ahead(t: Token, r: Option<seq<Token>>): Option<seq<Token>>
  {
    if r.None? then None else Some([t] + r.value)
  }

  function Before(ts: seq<Token>, r: Option<seq<Token>>): Option<seq<Token>>
  {
    if r.None? then None else Some(ts + r.value)
  }

  lemma BeforeNothing(r: Option<seq<Token>>)
    ensures Before([], r) == r
  {
    if r.Some? {
      assert [] + r.value == r.value;
    }
  }

  /** The tokens of a text that begins inside `depth` nested block comments. */
  function Scan(a: Alphabet, s: string, depth: nat): Option<seq<Token>>
    decreases |s|
  {
    if s == [] then if depth == 0 then Some([]) else None
    else if depth > 0 then
      if At(s, 0, '/') && At(s, 1, '*') then Scan(a, s[2..], depth + 1)
      else if At(s, 0, '*') && At(s, 1, '/') then Scan(a, s[2..], depth - 1)
      else Scan(a, s[1..], depth)
    else if IsSpace(s[0]) then Scan(a, s[1..], 0)
    else if At(s, 0, '/') && At(s, 1, '/') then Scan(a, DropLine(s[1..]), 0)
    else if At(s, 0, '/') && At(s, 1, '*') then Scan(a, s[2..], 1)
    else match Read(a, s)
         case None => None
         case Some(lexeme) => Ahead(lexeme.token, Scan(a, s[lexeme.length..], 0))
  }

  function Tokens(a: Alphabet, s: string): Option<seq<Token>>
  {
    match Scan(a, s, 0)
    case None => None
    case Some(ts) => Some(ts + [EndOfFile])
  }
}
