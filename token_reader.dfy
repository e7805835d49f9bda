/**
 * The cursor the parser reads tokens through. The cursor never moves past the
 * last token: once it sits there (normally on EOF) every further consume
 * returns that token again.
 */
module TokenReading {
  import opened Wrappers
  import opened Lexer

  /** The token handed out when the list is empty. */
  const ListEmpty := Token("ListEmpty", "")

  /** The token `Previous` hands out while the cursor is still on the first token. */
  const AtFirst := Token("AtFirst", "")

  /** The furthest position the cursor reaches: the last token, or 0 for an empty list. */
  function LastIndex(ts: seq<Token>): nat {
    if |ts| == 0 then 0 else |ts| - 1
  }

  /** Where the cursor goes when a token is consumed at position `i`. */
  function Advance(ts: seq<Token>, i: nat): nat {
    if i < |ts| - 1 then i + 1 else i
  }

  /** Where the cursor is after `n` consumes from position `i`. */
  function AdvanceTimes(ts: seq<Token>, i: nat, n: nat): nat
    decreases n
  {
    if n == 0 then i else AdvanceTimes(ts, Advance(ts, i), n - 1)
  }

  /** A consume keeps the cursor in range and moves it by at most one. */
  lemma AdvanceInRange(ts: seq<Token>, i: nat)
    requires i <= LastIndex(ts)
    ensures i <= Advance(ts, i) <= LastIndex(ts)
    ensures Advance(ts, i) == i || Advance(ts, i) == i + 1
  {
  }

  /** The cursor stays put exactly when it is on the last position: EOF is sticky. */
  lemma AdvanceStaysIffLast(ts: seq<Token>, i: nat)
    requires i <= LastIndex(ts)
    ensures Advance(ts, i) == i <==> i == LastIndex(ts)
  {
  }

  /** `n` consumes from `i` take the cursor `n` tokens on, but never past the last one. */
  lemma {:induction false} AdvanceTimesSaturates(ts: seq<Token>, i: nat, n: nat)
    requires i <= LastIndex(ts)
    ensures AdvanceTimes(ts, i, n) == if i + n <= LastIndex(ts) then i + n else LastIndex(ts)
    decreases n
  {
    if n > 0 {
      AdvanceInRange(ts, i);
      AdvanceStaysIffLast(ts, i);
      AdvanceTimesSaturates(ts, Advance(ts, i), n - 1);
    }
  }

  class TokenReader {
    const tokens: seq<Token>
    var index: nat

    ghost predicate Valid()
      reads this
    {
      index <= LastIndex(tokens)
    }

    constructor (ts: seq<Token>)
      ensures tokens == ts && index == 0 && Valid()
    {
      tokens := ts;
      index := 0;
    }

    method Reset()
      modifies this
      ensures index == 0 && Valid()
    {
      index := 0;
    }

    /** The token under the cursor; indexing an empty list fails. */
    function Peek(): (r: Result<Token>)
      reads this
      requires Valid()
      ensures r.Ok? <==> |tokens| > 0
      ensures r.Ok? ==> r.value == tokens[index]
    {
      if index < |tokens| then Ok(tokens[index]) else Err(Fatal)
    }

    /** Whether a consume would move the cursor. */
    function HasNext(): (b: bool)
      reads this
      requires Valid()
      ensures b <==> Advance(tokens, index) != index
      ensures b ==> Peek().Ok? && index < LastIndex(tokens)
    {
      index < |tokens| - 1
    }

    /** The token before the cursor, or a marker token when there is none. */
    function Previous(): (t: Token)
      reads this
      requires Valid()
      ensures index > 0 ==> t == tokens[index - 1]
      ensures index == 0 ==> t == (if |tokens| == 0 then ListEmpty else AtFirst)
    {
      if index > 0 then tokens[index - 1]
      else if |tokens| == 0 then ListEmpty
      else AtFirst
    }

    /**
     * Hands out the token under the cursor and moves on, except at the last
     * token, which is handed out again and again.
     */
    method Consume() returns (t: Token)
      requires Valid()
      modifies this
      ensures Valid() && index == Advance(tokens, old(index))
      ensures t == if |tokens| == 0 then ListEmpty else tokens[old(index)]
      ensures index != old(index) ==> Previous() == t
    {
      if index < |tokens| - 1 {
        t := tokens[index];
        index := index + 1;
      } else if |tokens| > 0 {
        t := tokens[|tokens| - 1];
      } else {
        t := ListEmpty;
      }
    }

    /** Consumes the token under the cursor if it has type `typ`, and fails otherwise. */
    method ConsumeExpected(typ: string) returns (r: Result<Token>)
      requires Valid()
      modifies this
      ensures Valid()
      ensures r.Ok? <==> |tokens| > 0 && tokens[old(index)].typ == typ
      ensures r.Ok? ==> r.value == tokens[old(index)] && index == Advance(tokens, old(index))
      ensures r.Err? ==> r == Err(Fatal) && index == old(index)
    {
      var next :- Peek();
      if next.typ != typ {
        return Err(Fatal);
      }
      var t := Consume();
      return Ok(t);
    }

    /**
     * Meant to consume a token of one of the listed types. The membership test
     * compares each type name with the token object itself, and a string never
     * equals a token, so no token is rejected (the test is also inverted, and
     * would reject exactly the listed types were it ever true): this consumes
     * whatever is under the cursor, and fails only when there is no token to
     * peek at.
     */
    method ConsumeExpectedChoice(types: seq<string>) returns (r: Result<Token>)
      requires Valid()
      modifies this
      ensures Valid()
      ensures r.Ok? <==> |tokens| > 0
      ensures r.Ok? ==> r.value == tokens[old(index)] && index == Advance(tokens, old(index))
      ensures r.Err? ==> r == Err(Fatal) && index == old(index)
    {
      var next :- Peek();
      // The membership test of `types` against `next` is never true.
      var t := Consume();
      return Ok(t);
    }
  }
}
