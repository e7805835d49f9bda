/**
 * The tokenizer of the tweak language: one pass over the input text that turns
 * punctuation, the append operator, numbers, identifiers, keywords and
 * double-quoted strings into tokens, skips white space, and ends every
 * successful run with one EOF token.
 */
module Lexer {
  import opened Wrappers

  /** A lexical token: its type tag and its text. */
  datatype Token = Token(typ: string, val: string)

  const EndOfFile := Token("EOF", "")

  /** Words that lex as `keyword-<word>` tokens with an empty text. */
  const Keywords: seq<string> := ["true", "false", "package", "using", "fk", "bool", "string", "int",
    "float", "CName", "Vector2", "Vector3", "LocKey", "ResRef", "EulerAngles", "Quaternion"]

  /** Characters that may start a number ("-0123456789."), and characters that may continue one ("0123456789.f"). */
  predicate IsNumberStart(c: char) { c == '-' || IsDigit(c) || c == '.' }

  predicate IsNumberChar(c: char) { IsDigit(c) || c == '.' || c == 'f' }

  // Character classes. Letters and digits are the ASCII ones; white space is
  // the full list of characters .NET classifies as white space.
  predicate IsLetter(c: char) { 'a' <= c <= 'z' || 'A' <= c <= 'Z' }

  predicate IsDigit(c: char) { '0' <= c <= '9' }

  predicate IsWhiteSpace(c: char) {
    var n := c as int;
    (9 <= n <= 13) || n == 32 || n == 0x85 || n == 0xA0 || n == 0x1680 || (0x2000 <= n <= 0x200A)
    || n == 0x2028 || n == 0x2029 || n == 0x202F || n == 0x205F || n == 0x3000
  }

  predicate IsIdentifierStart(c: char) { IsLetter(c) || c == '_' }

  predicate IsIdentifierChar(c: char) { IsLetter(c) || IsDigit(c) || c == '_' || c == '.' }

  /** The token type of a one-character punctuation token. */
  function Punctuation(c: char): Option<string> {
    match c
    case '{' => Some("leftcurly")
    case '}' => Some("rightcurly")
    case ':' => Some("colon")
    case ',' => Some("comma")
    case ';' => Some("semicolon")
    case '=' => Some("equals")
    case '[' => Some("leftsquare")
    case ']' => Some("rightsquare")
    case '<' => Some("leftangle")
    case '>' => Some("rightangle")
    case '(' => Some("leftbracket")
    case ')' => Some("rightbracket")
    case _ => None
  }

  /**
   * Where a number whose remaining characters start at `j` ends, or a failure when
   * a second decimal point or a second type specifier `f` shows up.
   */
  function NumberEnd(s: string, j: nat, decimalFound: bool, specifierFound: bool): (r: Result<nat>)
    requires j <= |s|
    ensures r.Ok? ==> j <= r.value <= |s| && (r.value == |s| || !IsNumberChar(s[r.value]))
    decreases |s| - j
  {
    if j == |s| || !IsNumberChar(s[j]) then Ok(j)
    else if s[j] == '.' then
      if decimalFound then Err(Fatal) else NumberEnd(s, j + 1, true, specifierFound)
    else if s[j] == 'f' then
      if specifierFound then Err(Fatal) else NumberEnd(s, j + 1, decimalFound, true)
    else NumberEnd(s, j + 1, decimalFound, specifierFound)
  }

  /** Where an identifier whose remaining characters start at `j` ends. */
  function IdentifierEnd(s: string, j: nat): (r: nat)
    requires j <= |s|
    ensures j <= r <= |s| && (r == |s| || !IsIdentifierChar(s[r]))
    decreases |s| - j
  {
    if j == |s| || !IsIdentifierChar(s[j]) then j else IdentifierEnd(s, j + 1)
  }

  /** The position of the closing quote of a string whose text starts at `j`. */
  function StringEnd(s: string, j: nat): (r: Result<nat>)
    requires j <= |s|
    ensures r.Ok? ==> j <= r.value < |s| && s[r.value] == '"'
    decreases |s| - j
  {
    if j == |s| then Err(Fatal)
    else if s[j] == '"' then Ok(j)
    else StringEnd(s, j + 1)
  }

  function NumberToken(text: string): Token {
    if '.' in text || 'f' in text then Token("number-float", text) else Token("number-integer", text)
  }

  function IdentifierToken(text: string): Token {
    if text in Keywords then Token("keyword-" + text, "") else Token("identifier", text)
  }

  function Prefixed(ts: seq<Token>, r: Result<seq<Token>>): Result<seq<Token>> {
    match r
    case Ok(us) => Ok(ts + us)
    case Err(e) => Err(e)
  }

  lemma PrefixedTwice(ts: seq<Token>, us: seq<Token>, r: Result<seq<Token>>)
    ensures Prefixed(ts, Prefixed(us, r)) == Prefixed(ts + us, r)
  {
    if r.Ok? {
      assert ts + (us + r.value) == (ts + us) + r.value;
    }
  }

  lemma PrefixedNothing(r: Result<seq<Token>>)
    ensures Prefixed([], r) == r
  {
    if r.Ok? {
      assert [] + r.value == r.value;
    }
  }

  /**
   * One step of the lexer at position `i`: the token read there (none for white
   * space) and the position where the next step starts, or a failure.
   */
  function Step(s: string, i: nat): (r: Result<(Option<Token>, nat)>)
    requires i < |s|
    ensures r.Ok? ==> i < r.value.1 <= |s|
  {
    var c := s[i];
    if Punctuation(c).Some? then Ok((Some(Token(Punctuation(c).value, [c])), i + 1))
    else if c == '+' then
      if i < |s| - 1 && s[i + 1] == '=' then Ok((Some(Token("plusequals", "+=")), i + 2))
      else Err(Fatal)
    else if IsNumberStart(c) then
      match NumberEnd(s, i + 1, c == '.', false)
      case Err(e) => Err(e)
      case Ok(j) => Ok((Some(NumberToken(s[i..j])), j))
    else if IsIdentifierStart(c) then
      var j := IdentifierEnd(s, i + 1);
      Ok((Some(IdentifierToken(s[i..j])), j))
    else if c == '"' then
      match StringEnd(s, i + 1)
      case Err(e) => Err(e)
      case Ok(j) => Ok((Some(Token("string", s[i + 1..j])), j + 1))
    else if IsWhiteSpace(c) then Ok((None, i + 1))
    else Err(Fatal)
  }

  function Emitted(t: Option<Token>): seq<Token> {
    if t.Some? then [t.value] else []
  }

  /** The tokens the input yields from position `i` on, without the final EOF. */
  function LexFrom(s: string, i: nat): Result<seq<Token>>
    requires i <= |s|
    decreases |s| - i
  {
    if i == |s| then Ok([])
    else
      match Step(s, i)
      case Err(e) => Err(e)
      case Ok((t, j)) => Prefixed(Emitted(t), LexFrom(s, j))
  }

  /** What the lexer returns for the whole input. */
  function LexSpec(s: string): Result<seq<Token>> {
    match LexFrom(s, 0)
    case Ok(ts) => Ok(ts + [EndOfFile])
    case Err(e) => Err(e)
  }

  /** The number loop of the lexer: reads the rest of a number that starts at `i`. */
  method ScanNumber(s: string, i: nat) returns (r: Result<nat>, text: string)
    requires i < |s| && IsNumberStart(s[i])
    ensures r == NumberEnd(s, i + 1, s[i] == '.', false) && (r.Err? ==> r.error == Fatal)
    ensures r.Ok? ==> text == s[i..r.value]
  {
    text := [s[i]];
    var decimalFound := s[i] == '.';
    var specifierFound := false;
    var j := i + 1;
    while j < |s| && IsNumberChar(s[j])
      invariant i + 1 <= j <= |s|
      invariant text == s[i..j]
      invariant NumberEnd(s, i + 1, s[i] == '.', false) == NumberEnd(s, j, decimalFound, specifierFound)
      decreases |s| - j
    {
      if s[j] == '.' {
        if decimalFound {
          return Err(Fatal), text;
        }
        decimalFound := true;
      } else if s[j] == 'f' {
        if specifierFound {
          return Err(Fatal), text;
        }
        specifierFound := true;
      }
      text := text + [s[j]];
      j := j + 1;
    }
    r := Ok(j);
  }

  /** The identifier loop of the lexer: reads the rest of an identifier that starts at `i`. */
  method ScanIdentifier(s: string, i: nat) returns (j: nat, text: string)
    requires i < |s|
    ensures j == IdentifierEnd(s, i + 1) && text == s[i..j]
  {
    text := [s[i]];
    j := i + 1;
    while j < |s| && IsIdentifierChar(s[j])
      invariant i + 1 <= j <= |s|
      invariant text == s[i..j]
      invariant IdentifierEnd(s, i + 1) == IdentifierEnd(s, j)
      decreases |s| - j
    {
      text := text + [s[j]];
      j := j + 1;
    }
  }

  /**
   * The string loop of the lexer: reads up to the closing quote of a string whose
   * opening quote is at `i`. The source reads s[j] before it tests j against the
   * length, so an unterminated string fails with an index out of range.
   */
  method ScanString(s: string, i: nat) returns (r: Result<nat>, text: string)
    requires i < |s|
    ensures r == StringEnd(s, i + 1) && (r.Err? ==> r.error == Fatal)
    ensures r.Ok? ==> text == s[i + 1..r.value]
  {
    text := "";
    var j := i + 1;
    while j < |s| && s[j] != '"'
      invariant i + 1 <= j <= |s|
      invariant text == s[i + 1..j]
      invariant StringEnd(s, i + 1) == StringEnd(s, j)
      decreases |s| - j
    {
      text := text + [s[j]];
      j := j + 1;
    }
    if j == |s| {
      return Err(Fatal), text;
    }
    r := Ok(j);
  }

  /**
   * The lexer: a single left-to-right pass in which `i` jumps over each token it
   * has read. Proved to compute `LexSpec`.
   */
  method Lex(s: string) returns (r: Result<seq<Token>>)
    ensures r == LexSpec(s)
  {
    var tokens: seq<Token> := [];
    var i := 0;
    PrefixedNothing(LexFrom(s, 0));
    while i < |s|
      invariant 0 <= i <= |s|
      invariant LexFrom(s, 0) == Prefixed(tokens, LexFrom(s, i))
      decreases |s| - i
    {
      var c := s[i];
      var next: nat;
      var token: Token;
      if Punctuation(c).Some? {
        token, next := Token(Punctuation(c).value, [c]), i + 1;
      } else if c == '+' {
        if i < |s| - 1 && s[i + 1] == '=' {
          token, next := Token("plusequals", "+="), i + 2;
        } else {
          assert Step(s, i) == Err(Fatal);
          return Err(Fatal);
        }
      } else if IsNumberStart(c) {
        var end, text := ScanNumber(s, i);
        if end.Err? {
          assert Step(s, i) == Err(Fatal);
          return Err(Fatal);
        }
        token, next := NumberToken(text), end.value;
      } else if IsIdentifierStart(c) {
        var end, text := ScanIdentifier(s, i);
        token, next := IdentifierToken(text), end;
      } else if c == '"' {
        var end, text := ScanString(s, i);
        if end.Err? {
          assert Step(s, i) == Err(Fatal);
          return Err(Fatal);
        }
        token, next := Token("string", text), end.value + 1;
      } else if !IsWhiteSpace(c) {
        assert Step(s, i) == Err(Fatal);
        return Err(Fatal);
      } else {
        next := i + 1;
        assert Step(s, i) == Ok((None, next));
        PrefixedTwice(tokens, [], LexFrom(s, i + 1));
        assert tokens + [] == tokens;
        i := i + 1;
        continue;
      }
      assert Step(s, i) == Ok((Some(token), next));
      PrefixedTwice(tokens, [token], LexFrom(s, next));
      tokens := tokens + [token];
      i := next;
    }
    assert tokens + [] == tokens;
    r := Ok(tokens + [EndOfFile]);
  }
}
