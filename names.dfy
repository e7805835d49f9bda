/**
 * Dotted names. Record and flat names are either plain (`Name`) or carry one
 * package qualifier (`Package.Name`); names are taken apart by splitting on
 * every dot.
 */
module Names {

  /** The pieces of `s` between occurrences of `sep`; an empty piece stands between adjacent separators. */
  function Split(s: string, sep: char): (parts: seq<string>)
    ensures |parts| >= 1
  {
    if |s| == 0 then [""]
    else
      var rest := Split(s[1..], sep);
      if s[0] == sep then [""] + rest
      else [[s[0]] + rest[0]] + rest[1..]
  }

  /** The pieces put back together with `sep` between neighbours. */
  function Join(parts: seq<string>, sep: char): string
    requires |parts| >= 1
  {
    if |parts| == 1 then parts[0] else parts[0] + [sep] + Join(parts[1..], sep)
  }

  /** How often `c` occurs in `s`. */
  function Count(s: string, c: char): nat {
    if |s| == 0 then 0 else (if s[0] == c then 1 else 0) + Count(s[1..], c)
  }

  /** A name has one piece more than it has separators. */
  lemma {:induction false} SplitCount(s: string, sep: char)
    ensures |Split(s, sep)| == Count(s, sep) + 1
  {
    if |s| > 0 {
      SplitCount(s[1..], sep);
    }
  }

  /** No piece contains the separator. */
  lemma {:induction false} SplitPiecesHaveNoSeparator(s: string, sep: char)
    ensures forall k :: 0 <= k < |Split(s, sep)| ==> sep !in Split(s, sep)[k]
  {
    if |s| > 0 {
      SplitPiecesHaveNoSeparator(s[1..], sep);
      var rest := Split(s[1..], sep);
      if s[0] != sep {
        assert sep !in rest[0];
        assert forall k :: 1 <= k < |Split(s, sep)| ==> Split(s, sep)[k] == rest[k];
      }
    }
  }

  /** Splitting and joining again gives back the name. */
  lemma {:induction false} JoinSplit(s: string, sep: char)
    ensures Join(Split(s, sep), sep) == s
  {
    if |s| > 0 {
      JoinSplit(s[1..], sep);
      var rest := Split(s[1..], sep);
      if s[0] == sep {
        assert ([""] + rest)[1..] == rest;
      } else {
        var parts := [[s[0]] + rest[0]] + rest[1..];
        if |rest| == 1 {
          assert parts == [[s[0]] + rest[0]];
        } else {
          assert parts[1..] == rest[1..];
          assert Join(rest, sep) == rest[0] + [sep] + Join(rest[1..], sep);
        }
      }
    }
  }

  /** A name without a separator is a single piece. */
  lemma SplitWithoutSeparator(s: string, sep: char)
    requires sep !in s
    ensures Split(s, sep) == [s]
  {
    SplitCount(s, sep);
    JoinSplit(s, sep);
  }

  /** `P.N` splits into `P` and `N`. */
  lemma SplitQualified(p: string, n: string, sep: char)
    requires sep !in p && sep !in n
    ensures Split(p + [sep] + n, sep) == [p, n]
  {
    var s := p + [sep] + n;
    assert s == p + ([sep] + n);
    assert Count(s, sep) == Count(p, sep) + Count([sep] + n, sep) by {
      CountAppend(p, [sep] + n, sep);
    }
    assert Count([sep] + n, sep) == 1 + Count(n, sep) by {
      assert ([sep] + n)[1..] == n;
    }
    CountZero(p, sep);
    CountZero(n, sep);
    SplitCount(s, sep);
    JoinSplit(s, sep);
    SplitPiecesHaveNoSeparator(s, sep);
    var parts := Split(s, sep);
    assert |parts| == 2;
    assert Join(parts, sep) == parts[0] + [sep] + parts[1];
    PieceBoundary(p, n, parts[0], parts[1], sep);
  }

  lemma {:induction false} CountAppend(a: string, b: string, c: char)
    ensures Count(a + b, c) == Count(a, c) + Count(b, c)
  {
    if |a| > 0 {
      assert (a + b)[1..] == a[1..] + b;
      CountAppend(a[1..], b, c);
    } else {
      assert a + b == b;
    }
  }

  lemma {:induction false} CountZero(s: string, c: char)
    ensures Count(s, c) == 0 <==> c !in s
  {
    if |s| > 0 {
      CountZero(s[1..], c);
      assert s == [s[0]] + s[1..];
    }
  }

  /** Two ways of writing a text as `x sep y` with no separator in the pieces are the same. */
  lemma PieceBoundary(p: string, n: string, q: string, m: string, sep: char)
    requires sep !in p && sep !in n && sep !in q && sep !in m
    requires p + [sep] + n == q + [sep] + m
    ensures p == q && n == m
  {
    var s := p + [sep] + n;
    if |p| == |q| {
      assert p == s[..|p|] == q;
      assert n == s[|p| + 1..] == m;
    } else if |p| < |q| {
      SeparatorAt(p, n, q, m, sep);
      assert false;
    } else {
      SeparatorAt(q, m, p, n, sep);
      assert false;
    }
  }

  /** Where the shorter prefix ends, the separator stands inside the longer one. */
  lemma SeparatorAt(p: string, n: string, q: string, m: string, sep: char)
    ensures |p| < |q| && p + [sep] + n == q + [sep] + m ==> q[|p|] == sep
  {
    if |p| < |q| && p + [sep] + n == q + [sep] + m {
      assert (p + [sep] + n)[|p|] == sep;
      assert (q + [sep] + m)[|p|] == q[|p|];
    }
  }
}
