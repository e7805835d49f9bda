/**
 * What the lexer promises about its output: every token is well formed for its
 * type, the last token is the only EOF, and tokens do not depend on the text
 * around them once white space separates them.
 */
module LexerProperties {
  import opened Wrappers
  import opened Lexer

  /** The text of a number token: a start character, then number characters, at most one '.' and one 'f'. */
  predicate IsNumberText(v: string) {
    && |v| >= 1
    && IsNumberStart(v[0])
    && (forall k :: 1 <= k < |v| ==> IsNumberChar(v[k]))
    && (forall a, b :: 0 <= a < b < |v| && v[a] == '.' ==> v[b] != '.')
    && (forall a, b :: 0 <= a < b < |v| && v[a] == 'f' ==> v[b] != 'f')
  }

  predicate IsIdentifierText(v: string) {
    |v| >= 1 && IsIdentifierStart(v[0]) && forall k :: 1 <= k < |v| ==> IsIdentifierChar(v[k])
  }

  predicate IsKeywordType(typ: string) {
    |typ| >= 8 && typ[..8] == "keyword-" && typ[8..] in Keywords
  }

  /** What each token type says about its text. */
  predicate WellFormedToken(t: Token) {
    || (|t.val| == 1 && Punctuation(t.val[0]) == Some(t.typ))
    || t == Token("plusequals", "+=")
    || (t.typ == "number-float" && IsNumberText(t.val) && ('.' in t.val || 'f' in t.val))
    || (t.typ == "number-integer" && IsNumberText(t.val) && '.' !in t.val && 'f' !in t.val)
    || (IsKeywordType(t.typ) && t.val == "")
    || (t.typ == "identifier" && IsIdentifierText(t.val) && t.val !in Keywords)
    || (t.typ == "string" && '"' !in t.val)
  }

  lemma WellFormedIsNotEndOfFile(t: Token)
    requires WellFormedToken(t)
    ensures t.typ != "EOF"
  {
    if IsKeywordType(t.typ) {
      assert t.typ[0] == 'k';
    }
  }

  /**
   * What NumberEnd reads: number characters only, and no second '.' or 'f'
   * (none at all of the ones already found).
   */
  lemma {:induction false} NumberEndReads(s: string, j: nat, d: bool, f: bool)
    requires j <= |s| && NumberEnd(s, j, d, f).Ok?
    ensures var e := NumberEnd(s, j, d, f).value;
      && (forall k :: j <= k < e ==> IsNumberChar(s[k]))
      && (d ==> forall k :: j <= k < e ==> s[k] != '.')
      && (f ==> forall k :: j <= k < e ==> s[k] != 'f')
      && (forall a, b :: j <= a < b < e && s[a] == '.' ==> s[b] != '.')
      && (forall a, b :: j <= a < b < e && s[a] == 'f' ==> s[b] != 'f')
    decreases |s| - j
  {
    if j == |s| || !IsNumberChar(s[j]) {
    } else if s[j] == '.' {
      NumberEndReads(s, j + 1, true, f);
    } else if s[j] == 'f' {
      NumberEndReads(s, j + 1, d, true);
    } else {
      NumberEndReads(s, j + 1, d, f);
    }
  }

  /** IdentifierEnd reads identifier characters only. */
  lemma {:induction false} IdentifierEndReads(s: string, j: nat)
    requires j <= |s|
    ensures forall k :: j <= k < IdentifierEnd(s, j) ==> IsIdentifierChar(s[k])
    decreases |s| - j
  {
    if j < |s| && IsIdentifierChar(s[j]) {
      IdentifierEndReads(s, j + 1);
    }
  }

  /** StringEnd finds the first quote, and fails exactly when there is none. */
  lemma {:induction false} StringEndFindsFirstQuote(s: string, j: nat)
    requires j <= |s|
    ensures StringEnd(s, j).Ok? ==> forall k :: j <= k < StringEnd(s, j).value ==> s[k] != '"'
    ensures StringEnd(s, j).Err? <==> forall k :: j <= k < |s| ==> s[k] != '"'
    decreases |s| - j
  {
    if j < |s| && s[j] != '"' {
      StringEndFindsFirstQuote(s, j + 1);
    }
  }

  lemma NumberTokenWellFormed(s: string, i: nat)
    requires i < |s| && IsNumberStart(s[i]) && NumberEnd(s, i + 1, s[i] == '.', false).Ok?
    ensures WellFormedToken(NumberToken(s[i..NumberEnd(s, i + 1, s[i] == '.', false).value]))
  {
    var e := NumberEnd(s, i + 1, s[i] == '.', false).value;
    var v := s[i..e];
    NumberEndReads(s, i + 1, s[i] == '.', false);
    assert forall k :: 0 <= k < |v| ==> v[k] == s[i + k];
    assert IsNumberText(v);
  }

  lemma IdentifierTokenWellFormed(s: string, i: nat)
    requires i < |s| && IsIdentifierStart(s[i])
    ensures WellFormedToken(IdentifierToken(s[i..IdentifierEnd(s, i + 1)]))
  {
    var v := s[i..IdentifierEnd(s, i + 1)];
    IdentifierEndReads(s, i + 1);
    assert forall k :: 1 <= k < |v| ==> v[k] == s[i + k];
    if v in Keywords {
      var t := IdentifierToken(v);
      assert t.typ[..8] == "keyword-" && t.typ[8..] == v;
    }
  }

  /** The token a successful step reads is well formed. */
  lemma StepWellFormed(s: string, i: nat)
    requires i < |s| && Step(s, i).Ok? && Step(s, i).value.0.Some?
    ensures WellFormedToken(Step(s, i).value.0.value)
  {
    var c := s[i];
    if Punctuation(c).Some? || c == '+' {
    } else if IsNumberStart(c) {
      NumberTokenWellFormed(s, i);
    } else if IsIdentifierStart(c) {
      IdentifierTokenWellFormed(s, i);
    } else if c == '"' {
      var j := StringEnd(s, i + 1).value;
      StringEndFindsFirstQuote(s, i + 1);
      var text := s[i + 1..j];
      assert forall k :: 0 <= k < |text| ==> text[k] == s[i + 1 + k];
    }
  }

  /** Every token the lexer yields from position `i` on is well formed. */
  lemma {:induction false} LexFromWellFormed(s: string, i: nat)
    requires i <= |s| && LexFrom(s, i).Ok?
    ensures forall t :: t in LexFrom(s, i).value ==> WellFormedToken(t)
    decreases |s| - i
  {
    if i < |s| {
      var (t, j) := Step(s, i).value;
      if t.Some? {
        StepWellFormed(s, i);
      }
      LexFromWellFormed(s, j);
    }
  }

  /**
   * A successful run ends with exactly one EOF token, and every token before it is
   * a well-formed token of another type.
   */
  lemma LexEndsWithOneEndOfFile(s: string)
    requires LexSpec(s).Ok?
    ensures var ts := LexSpec(s).value;
      && |ts| >= 1 && ts[|ts| - 1] == EndOfFile
      && forall k :: 0 <= k < |ts| - 1 ==> WellFormedToken(ts[k]) && ts[k].typ != "EOF"
  {
    LexFromWellFormed(s, 0);
    var ts := LexSpec(s).value;
    forall k | 0 <= k < |ts| - 1
      ensures WellFormedToken(ts[k]) && ts[k].typ != "EOF"
    {
      assert ts[k] in LexFrom(s, 0).value;
      WellFormedIsNotEndOfFile(ts[k]);
    }
  }

  // ---- Tokens do not depend on their surroundings ----

  function Shifted(r: Result<nat>, n: nat): Result<nat> {
    if r.Ok? then Ok(r.value + n) else r
  }

  lemma {:induction false} NumberEndShift(p: string, b: string, k: nat, d: bool, f: bool)
    requires k <= |b|
    ensures NumberEnd(p + b, |p| + k, d, f) == Shifted(NumberEnd(b, k, d, f), |p|)
    decreases |b| - k
  {
    var w := p + b;
    if k < |b| {
      assert w[|p| + k] == b[k];
      if IsNumberChar(b[k]) {
        if b[k] == '.' {
          if !d { NumberEndShift(p, b, k + 1, true, f); }
        } else if b[k] == 'f' {
          if !f { NumberEndShift(p, b, k + 1, d, true); }
        } else {
          NumberEndShift(p, b, k + 1, d, f);
        }
      }
    }
  }

  lemma {:induction false} IdentifierEndShift(p: string, b: string, k: nat)
    requires k <= |b|
    ensures IdentifierEnd(p + b, |p| + k) == |p| + IdentifierEnd(b, k)
    decreases |b| - k
  {
    if k < |b| {
      assert (p + b)[|p| + k] == b[k];
      if IsIdentifierChar(b[k]) {
        IdentifierEndShift(p, b, k + 1);
      }
    }
  }

  lemma {:induction false} StringEndShift(p: string, b: string, k: nat)
    requires k <= |b|
    ensures StringEnd(p + b, |p| + k) == Shifted(StringEnd(b, k), |p|)
    decreases |b| - k
  {
    if k < |b| {
      assert (p + b)[|p| + k] == b[k];
      if b[k] != '"' {
        StringEndShift(p, b, k + 1);
      }
    }
  }

  function ShiftedStep(r: Result<(Option<Token>, nat)>, n: nat): Result<(Option<Token>, nat)> {
    if r.Ok? then Ok((r.value.0, r.value.1 + n)) else r
  }

  lemma StepShiftNumber(p: string, b: string, k: nat)
    requires k < |b| && Punctuation(b[k]).None? && b[k] != '+' && IsNumberStart(b[k])
    ensures Step(p + b, |p| + k) == ShiftedStep(Step(b, k), |p|)
  {
    var w := p + b;
    var c := b[k];
    assert w[|p| + k] == c;
    NumberEndShift(p, b, k + 1, c == '.', false);
    var r := NumberEnd(b, k + 1, c == '.', false);
    if r.Ok? {
      assert w[|p|..] == b;
      assert w[|p| + k..|p| + r.value] == w[|p|..][k..r.value];
    }
  }

  lemma StepShiftIdentifier(p: string, b: string, k: nat)
    requires k < |b| && Punctuation(b[k]).None? && b[k] != '+' && !IsNumberStart(b[k]) && IsIdentifierStart(b[k])
    ensures Step(p + b, |p| + k) == ShiftedStep(Step(b, k), |p|)
  {
    var w := p + b;
    assert w[|p| + k] == b[k];
    IdentifierEndShift(p, b, k + 1);
    var j := IdentifierEnd(b, k + 1);
    assert w[|p| + k..|p| + j] == b[k..j];
  }

  lemma StepShiftString(p: string, b: string, k: nat)
    requires k < |b| && b[k] == '"'
    ensures Step(p + b, |p| + k) == ShiftedStep(Step(b, k), |p|)
  {
    var w := p + b;
    assert w[|p| + k] == b[k];
    StringEndShift(p, b, k + 1);
    var r := StringEnd(b, k + 1);
    if r.Ok? {
      assert w[|p| + k + 1..|p| + r.value] == b[k + 1..r.value];
    }
  }

  lemma StepShift(p: string, b: string, k: nat)
    requires k < |b|
    ensures Step(p + b, |p| + k) == ShiftedStep(Step(b, k), |p|)
  {
    var w := p + b;
    var c := b[k];
    assert w[|p| + k] == c;
    if Punctuation(c).Some? {
    } else if c == '+' {
      if |p| + k < |w| - 1 {
        assert w[|p| + k + 1] == b[k + 1];
      }
    } else if IsNumberStart(c) {
      StepShiftNumber(p, b, k);
    } else if IsIdentifierStart(c) {
      StepShiftIdentifier(p, b, k);
    } else if c == '"' {
      StepShiftString(p, b, k);
    }
  }

  /** Lexing the tail of `p + b` that lies in `b` is lexing `b`. */
  lemma {:induction false} LexFromShift(p: string, b: string, k: nat)
    requires k <= |b|
    ensures LexFrom(p + b, |p| + k) == LexFrom(b, k)
    decreases |b| - k
  {
    if k < |b| {
      StepShift(p, b, k);
      if Step(b, k).Ok? {
        LexFromShift(p, b, Step(b, k).value.1);
      }
    }
  }

  lemma {:induction false} NumberEndExtend(a: string, w: string, j: nat, d: bool, f: bool)
    requires j <= |a| < |w| && w[..|a|] == a && !IsNumberChar(w[|a|])
    requires NumberEnd(a, j, d, f).Ok?
    ensures NumberEnd(w, j, d, f) == NumberEnd(a, j, d, f)
    decreases |a| - j
  {
    if j < |a| {
      assert w[j] == a[j];
      if IsNumberChar(a[j]) {
        if a[j] == '.' {
          NumberEndExtend(a, w, j + 1, true, f);
        } else if a[j] == 'f' {
          NumberEndExtend(a, w, j + 1, d, true);
        } else {
          NumberEndExtend(a, w, j + 1, d, f);
        }
      }
    }
  }

  lemma {:induction false} IdentifierEndExtend(a: string, w: string, j: nat)
    requires j <= |a| < |w| && w[..|a|] == a && !IsIdentifierChar(w[|a|])
    ensures IdentifierEnd(w, j) == IdentifierEnd(a, j)
    decreases |a| - j
  {
    if j < |a| {
      assert w[j] == a[j];
      if IsIdentifierChar(a[j]) {
        IdentifierEndExtend(a, w, j + 1);
      }
    }
  }

  lemma {:induction false} StringEndExtend(a: string, w: string, j: nat)
    requires j <= |a| <= |w| && w[..|a|] == a && StringEnd(a, j).Ok?
    ensures StringEnd(w, j) == StringEnd(a, j)
    decreases |a| - j
  {
    assert w[j] == a[j];
    if a[j] != '"' {
      StringEndExtend(a, w, j + 1);
    }
  }

  lemma StepExtend(a: string, w: string, i: nat)
    requires i < |a| < |w| && w[..|a|] == a && IsWhiteSpace(w[|a|])
    requires Step(a, i).Ok?
    ensures Step(w, i) == Step(a, i)
  {
    var c := a[i];
    assert w[i] == c;
    if Punctuation(c).Some? {
    } else if c == '+' {
      assert w[i + 1] == a[i + 1];
    } else if IsNumberStart(c) {
      NumberEndExtend(a, w, i + 1, c == '.', false);
      var j := NumberEnd(a, i + 1, c == '.', false).value;
      assert w[i..j] == a[i..j];
    } else if IsIdentifierStart(c) {
      IdentifierEndExtend(a, w, i + 1);
      var j := IdentifierEnd(a, i + 1);
      assert w[i..j] == a[i..j];
    } else if c == '"' {
      StringEndExtend(a, w, i + 1);
      var j := StringEnd(a, i + 1).value;
      assert w[i + 1..j] == a[i + 1..j];
    }
  }

  /**
   * When `a` lexes from `i` on, lexing a longer text `w` that continues `a` with
   * white space yields the same tokens up to the end of `a`.
   */
  lemma {:induction false} LexFromExtend(a: string, w: string, i: nat)
    requires i <= |a| < |w| && w[..|a|] == a && IsWhiteSpace(w[|a|])
    requires LexFrom(a, i).Ok?
    ensures LexFrom(w, i) == Prefixed(LexFrom(a, i).value, LexFrom(w, |a|))
    decreases |a| - i
  {
    if i == |a| {
      PrefixedNothing(LexFrom(w, |a|));
    } else {
      StepExtend(a, w, i);
      var (t, j) := Step(a, i).value;
      LexFromExtend(a, w, j);
      PrefixedTwice(Emitted(t), LexFrom(a, j).value, LexFrom(w, |a|));
    }
  }

  lemma LexFromSkipsSpace(w: string, n: nat)
    requires n < |w| && w[n] == ' '
    ensures LexFrom(w, n) == LexFrom(w, n + 1)
  {
    var m: nat := n + 1;
    assert Step(w, n) == Ok((None, m));
    PrefixedNothing(LexFrom(w, m));
  }

  /**
   * Two texts that lex on their own lex the same way when joined by a space: the
   * tokens of the joined text are the tokens of `a` followed by the tokens of `b`.
   */
  lemma LexJoinedBySpace(a: string, b: string)
    requires LexSpec(a).Ok? && LexSpec(b).Ok?
    ensures LexSpec(a + " " + b).Ok?
    ensures var ta := LexSpec(a).value;
      LexSpec(a + " " + b).value == ta[..|ta| - 1] + LexSpec(b).value
  {
    var w := a + " " + b;
    assert w[..|a|] == a && w[|a|] == ' ';
    LexFromExtend(a, w, 0);
    assert w == (a + " ") + b;
    LexFromShift(a + " ", b, 0);
    LexFromSkipsSpace(w, |a|);
    var ta := LexFrom(a, 0).value;
    var tb := LexFrom(b, 0).value;
    assert LexSpec(a).value[..|ta|] == ta;
    assert (ta + tb) + [EndOfFile] == ta + (tb + [EndOfFile]);
  }

  /** A character no rule of the lexer starts a token or skips. */
  predicate Unrecognised(c: char) {
    Punctuation(c).None? && c != '+' && !IsNumberStart(c) && !IsIdentifierStart(c) && c != '"' && !IsWhiteSpace(c)
  }

  /**
   * A punctuation character is one token of its own, `+` is a token only as
   * the first half of `+=`, and lexing stops with an error at an unrecognised
   * character.
   */
  lemma OneCharacterTokens(s: string, i: nat)
    requires i < |s|
    ensures Punctuation(s[i]).Some? ==>
      LexFrom(s, i) == Prefixed([Token(Punctuation(s[i]).value, [s[i]])], LexFrom(s, i + 1))
    ensures s[i] == '+' && (i + 1 == |s| || s[i + 1] != '=') ==> LexFrom(s, i) == Err(Fatal)
    ensures s[i] == '+' && i + 1 < |s| && s[i + 1] == '=' ==>
      LexFrom(s, i) == Prefixed([Token("plusequals", "+=")], LexFrom(s, i + 2))
    ensures Unrecognised(s[i]) ==> LexFrom(s, i) == Err(Fatal)
  {
  }

  /** Text that starts with an unrecognised character does not lex. */
  lemma UnrecognisedFirstFails(c: char, rest: string)
    requires Unrecognised(c)
    ensures LexSpec([c] + rest) == Err(Fatal)
  {
    OneCharacterTokens([c] + rest, 0);
  }

  /** Each punctuation character alone lexes to its token and the end of input. */
  lemma PunctuationAlone(c: char)
    requires Punctuation(c).Some?
    ensures LexSpec([c]) == Ok([Token(Punctuation(c).value, [c]), EndOfFile])
  {
    var t := Token(Punctuation(c).value, [c]);
    OneCharacterTokens([c], 0);
    assert [c][0] == c;
    assert LexFrom([c], 1) == Ok([]);
    assert [t] + [] == [t];
    assert LexFrom([c], 0) == Ok([t]);
    assert [t] + [EndOfFile] == [t, EndOfFile];
  }

  /** `+=` alone lexes to the append operator, and `+` alone does not lex. */
  lemma AppendOperatorAlone()
    ensures LexSpec("+=") == Ok([Token("plusequals", "+="), EndOfFile])
    ensures LexSpec("+") == Err(Fatal)
  {
    var t := Token("plusequals", "+=");
    OneCharacterTokens("+=", 0);
    assert "+="[0] == '+' && "+="[1] == '=';
    assert LexFrom("+=", 2) == Ok([]);
    assert [t] + [] == [t];
    assert LexFrom("+=", 0) == Ok([t]);
    assert [t] + [EndOfFile] == [t, EndOfFile];
    OneCharacterTokens("+", 0);
  }
}
