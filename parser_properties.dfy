/**
 * What the reference productions of the parser read from the token list:
 * which token gives which leaf and text, where an input is rejected, and in
 * what order trees are collected. The parser's methods agree with these
 * productions, so each fact holds of the methods too.
 */
module ParserProperties {
  import opened Wrappers
  import opened Lexer
  import opened TokenReading
  import opened SyntaxTree
  import opened Parsing

  /** The token types that can start a flat value. */
  const ValueStartTypes: seq<string> := ["string", "number-integer", "number-float", "keyword-true", "keyword-false",
                                         "identifier", "leftcurly", "leftbracket", "leftsquare"]

  /** The token types that can start a top-level item, besides the primitive type keywords. */
  const TopLevelStartTypes: seq<string> := ["keyword-package", "keyword-using", "identifier", "leftsquare", "keyword-fk"]

  /*
   * Top level
   */

  /** A token that starts no package, using, record or flat definition makes the rest of the input fail. */
  lemma StrayTopLevelTokenFails(ts: seq<Token>, i: nat)
    requires 0 < |ts| && i <= LastIndex(ts)
    requires ts[i].typ != "EOF" && ts[i].typ !in TopLevelStartTypes && ts[i].typ !in PrimitiveTypeKeywords
    ensures ItemsFrom(ts, i).Err?
  {
    assert SingleTypeFrom(ts, i).Declines() && FlatTypeFrom(ts, i).Declines();
    assert FlatDefinitionFrom(ts, i).Declines();
    assert TopLevelFrom(ts, i).Declines();
  }

  /** So a file whose first token starts no item does not parse. */
  lemma StrayFirstTokenFails(ts: seq<Token>)
    requires 0 < |ts| && ts[0].typ != "EOF" && ts[0].typ !in TopLevelStartTypes && ts[0].typ !in PrimitiveTypeKeywords
    ensures RootFrom(ts).Err?
  {
    StrayTopLevelTokenFails(ts, 0);
  }

  /**
   * An identifier at top level starts a record, so an untyped flat
   * definition there (`name = value;`) fails: no flat list follows the name.
   */
  lemma UntypedTopLevelDefinitionFails(ts: seq<Token>, i: nat)
    requires i + 1 < |ts| - 1 && ts[i].typ == "identifier" && ts[i + 1].typ in OperatorTypes
    ensures TopLevelFrom(ts, i).result == Err(Fatal)
  {
    assert RecordFrom(ts, i) == Failed(i);
  }

  /** The root's children are the items in source order: the first item read, then those after it. */
  lemma RootChildrenInOrder(ts: seq<Token>)
    requires 0 < |ts| && ts[0].typ != "EOF" && RootFrom(ts).Ok?
    ensures TopLevelFrom(ts, 0).Yields()
    ensures ItemsFrom(ts, TopLevelFrom(ts, 0).next).Ok?
    ensures RootFrom(ts).value.children == [TopLevelFrom(ts, 0).Tree()] + ItemsFrom(ts, TopLevelFrom(ts, 0).next).value
  {
  }

  /** `package Base using Lib` followed by EOF: the package leaf, then the using declaration. */
  lemma PackageThenUsing()
    ensures RootFrom([Token("keyword-package", "package"), Token("identifier", "Base"),
                      Token("keyword-using", "using"), Token("identifier", "Lib"), Token("EOF", "")])
         == Ok(Node("root", None, [Leaf("package", "Base"), Node("using-declaration", Some(""), [Leaf("package-name", "Lib")])]))
  {
    var ts := [Token("keyword-package", "package"), Token("identifier", "Base"),
               Token("keyword-using", "using"), Token("identifier", "Lib"), Token("EOF", "")];
    assert TopLevelFrom(ts, 0) == Produced(Leaf("package", "Base"), 2);
    assert PackageListFrom(ts, 3) == Produced([Leaf("package-name", "Lib")], 4);
    assert TopLevelFrom(ts, 2) == Produced(Node("using-declaration", Some(""), [Leaf("package-name", "Lib")]), 4);
    assert ItemsFrom(ts, 4) == Ok([]);
    var using := Node("using-declaration", Some(""), [Leaf("package-name", "Lib")]);
    assert ItemsFrom(ts, 2) == Ok([using] + []);
    assert [using] + [] == [using];
    assert ItemsFrom(ts, 0) == Ok([Leaf("package", "Base")] + [using]);
    assert [Leaf("package", "Base")] + [using] == [Leaf("package", "Base"), using];
  }

  /*
   * Flat definitions
   */

  /**
   * A definition that is not a special tag reads its name from the
   * identifier after the optional type, its operation from the token after
   * that (`=` assigns, `+=` appends) and its value from the tokens after.
   */
  lemma FlatDefinitionReadsTokens(ts: seq<Token>, i: nat)
    requires i <= LastIndex(ts) && !TokenAt(ts, i, "leftsquare") && FlatDefinitionFrom(ts, i).Yields()
    ensures FlatTypeFrom(ts, i).result.Ok?
    ensures var p := FlatTypeFrom(ts, i).next;
            var d := FlatDefinitionFrom(ts, i).Tree();
            TokenAt(ts, p, "identifier") && TokenIn(ts, p + 1, OperatorTypes)
            && d.typ == "flat-definition" && d.children[0] == Leaf("name", ts[p].val)
            && (FlatTypeFrom(ts, i).Yields() ==> d.children[1] == FlatTypeFrom(ts, i).Tree())
            && d.children[|d.children| - 2] == Leaf("operation", if ts[p + 1].typ == "equals" then "assign" else "append")
            && FlatValueFrom(ts, p + 2).Yields() && d.children[|d.children| - 1] == FlatValueFrom(ts, p + 2).Tree()
  {
    var flatType := FlatTypeFrom(ts, i);
    assert FlatDefinitionFrom(ts, i) == NamedDefinitionFrom(ts, flatType.next, flatType.result.value);
  }

  /** A name followed by anything but `=` or `+=` is an error, not a definition that declines. */
  lemma FlatDefinitionMissingOperatorFails(ts: seq<Token>, p: nat, flatType: Option<Syntax>)
    requires p <= LastIndex(ts) && (flatType.Some? ==> IsFlatType(flatType.value))
    requires TokenAt(ts, p, "identifier") && !TokenIn(ts, p + 1, OperatorTypes)
    ensures NamedDefinitionFrom(ts, p, flatType).result == Err(Fatal)
  {
  }

  /** A definition whose value is not followed by `;` fails. */
  lemma FlatDefinitionMissingSemicolonFails(ts: seq<Token>, p: nat, flatType: Option<Syntax>)
    requires p <= LastIndex(ts) && (flatType.Some? ==> IsFlatType(flatType.value))
    requires TokenAt(ts, p, "identifier") && TokenIn(ts, p + 1, OperatorTypes)
    requires !ExpectAt(ts, FlatValueFrom(ts, p + 2).next, "semicolon")
    ensures NamedDefinitionFrom(ts, p, flatType).result == Err(Fatal)
  {
  }

  /** `int Count = 5;`: a typed assignment of an integer. */
  lemma TypedAssignment()
    ensures FlatDefinitionFrom([Token("keyword-int", "int"), Token("identifier", "Count"), Token("equals", "="),
                                Token("number-integer", "5"), Token("semicolon", ";"), Token("EOF", "")], 0)
         == Produced(Node("flat-definition", Some(""), [Leaf("name", "Count"), Leaf("flat-type", "int"),
                                                        Leaf("operation", "assign"), Leaf("value-number-integer", "5")]), 5)
  {
    var ts := [Token("keyword-int", "int"), Token("identifier", "Count"), Token("equals", "="),
               Token("number-integer", "5"), Token("semicolon", ";"), Token("EOF", "")];
    KeywordWordOf("int");
    assert ts[0].typ == "keyword-" + "int";
    assert FlatTypeFrom(ts, 0) == Produced(Leaf("flat-type", "int"), 1);
    assert FlatValueFrom(ts, 3) == Produced(Leaf("value-number-integer", "5"), 4);
    assert FlatDefinitionFrom(ts, 0) == NamedDefinitionFrom(ts, 1, Some(Leaf("flat-type", "int")));
    assert FlatDefinitionNode("Count", Some(Leaf("flat-type", "int")), "equals", Leaf("value-number-integer", "5"))
        == Node("flat-definition", Some(""), [Leaf("name", "Count"), Leaf("flat-type", "int"),
                                             Leaf("operation", "assign"), Leaf("value-number-integer", "5")]);
  }

  /*
   * Flat types
   */

  /** `fk<Name>` is a foreign-key type whose target is the identifier between the angle brackets. */
  lemma ForeignKeyTypeTarget(ts: seq<Token>, i: nat)
    requires i + 4 < |ts|
    requires ts[i].typ == "keyword-fk" && ts[i + 1].typ == "leftangle" && ts[i + 2].typ == "identifier" && ts[i + 3].typ == "rightangle"
    ensures SingleTypeFrom(ts, i) == Produced(Node("flat-type", Some("foreignkey"), [Leaf("foreignkey-type", ts[i + 2].val)]), i + 4)
  {
  }

  /** A primitive type keyword gives the leaf holding the type's name. */
  lemma PrimitiveSingleType(ts: seq<Token>, i: nat, k: nat)
    requires i < |ts| - 1 && k < |PrimitiveTypeNames| && ts[i].typ == "keyword-" + PrimitiveTypeNames[k]
    ensures SingleTypeFrom(ts, i) == Produced(Leaf("flat-type", PrimitiveTypeNames[k]), i + 1)
  {
    PrimitiveTypeKeywordsSpelled();
    KeywordWordOf(PrimitiveTypeNames[k]);
    assert ts[i].typ == PrimitiveTypeKeywords[k];
  }

  /** A single type followed by `[]` is wrapped in an `array` flat type. */
  lemma ArrayTypeWraps(ts: seq<Token>, i: nat)
    requires i <= LastIndex(ts) && SingleTypeFrom(ts, i).Yields()
    requires TokenAt(ts, SingleTypeFrom(ts, i).next, "leftsquare") && ExpectAt(ts, SingleTypeFrom(ts, i).next + 1, "rightsquare")
    ensures FlatTypeFrom(ts, i).Yields()
    ensures FlatTypeFrom(ts, i).Tree() == Node("flat-type", Some("array"), [SingleTypeFrom(ts, i).Tree()])
  {
  }

  /** Without a `[` after it, a single type is the flat type; `[` without `]` fails. */
  lemma ArrayTypeNeedsBrackets(ts: seq<Token>, i: nat)
    requires i <= LastIndex(ts) && SingleTypeFrom(ts, i).Yields()
    ensures !TokenAt(ts, SingleTypeFrom(ts, i).next, "leftsquare") ==> FlatTypeFrom(ts, i) == SingleTypeFrom(ts, i)
    ensures TokenAt(ts, SingleTypeFrom(ts, i).next, "leftsquare") && !ExpectAt(ts, SingleTypeFrom(ts, i).next + 1, "rightsquare")
            ==> FlatTypeFrom(ts, i).result == Err(Fatal)
  {
  }

  /*
   * Flat values
   */

  /** The leaf each single-token value gives, with the token's text (a boolean keeps its word). */
  lemma FlatValueLeaves(ts: seq<Token>, i: nat)
    requires i < |ts| - 1
    ensures ts[i].typ == "string" ==> FlatValueFrom(ts, i) == Produced(Leaf("value-string", ts[i].val), i + 1)
    ensures ts[i].typ == "number-integer" ==> FlatValueFrom(ts, i) == Produced(Leaf("value-number-integer", ts[i].val), i + 1)
    ensures ts[i].typ == "number-float" ==> FlatValueFrom(ts, i) == Produced(Leaf("value-number-float", ts[i].val), i + 1)
    ensures ts[i].typ == "keyword-true" ==> FlatValueFrom(ts, i) == Produced(Leaf("value-boolean", "true"), i + 1)
    ensures ts[i].typ == "keyword-false" ==> FlatValueFrom(ts, i) == Produced(Leaf("value-boolean", "false"), i + 1)
    ensures ts[i].typ == "identifier" ==> FlatValueFrom(ts, i) == Produced(Leaf("value-identifier", ts[i].val), i + 1)
  {
    if ts[i].typ == "keyword-true" {
      assert KeywordWord(ts[i].typ) == "true";
    } else if ts[i].typ == "keyword-false" {
      assert KeywordWord(ts[i].typ) == "false";
    }
  }

  /** A flat value declines exactly when its first token can start none. */
  lemma FlatValueDeclines(ts: seq<Token>, i: nat)
    requires i <= LastIndex(ts)
    ensures FlatValueFrom(ts, i).Declines() <==> !TokenIn(ts, i, ValueStartTypes)
  {
    if TokenAt(ts, i, "leftcurly") {
      assert !FlatListFrom(ts, i).Declines();
    } else if TokenAt(ts, i, "leftbracket") {
      assert !VectorFrom(ts, i).Declines();
    } else if TokenAt(ts, i, "leftsquare") {
      assert !ValueListFrom(ts, i).Declines();
    }
  }

  /** `{ ... } : Name` is a foreign-key value naming `Name`; `{ ... }` alone is an inline value. */
  lemma InlineAndForeignKeyValues(ts: seq<Token>, i: nat)
    requires i <= LastIndex(ts) && FlatListFrom(ts, i).Yields()
    ensures var l := FlatListFrom(ts, i);
            var q := l.next;
            (TokenAt(ts, q, "colon") && ExpectAt(ts, q + 1, "identifier") ==>
               FlatValueFrom(ts, i) == Produced(Node("value-foreignkey", Some(ts[q + 1].val),
                                                     [l.Tree(), Leaf("record-inheritance", ts[q + 1].val)]), Advance(ts, q + 1)))
            && (!TokenAt(ts, q, "colon") ==> FlatValueFrom(ts, i) == Produced(Node("value-inline", Some(""), [l.Tree()]), q))
  {
    assert TokenAt(ts, i, "leftcurly");
  }

  /**
   * `( c1, c2 )`, `( c1, c2, c3 )` and `( c1, c2, c3, c4 )`: the vector's
   * components are the tokens at odd offsets, whatever their types.
   */
  lemma VectorReadsComponents(ts: seq<Token>, i: nat, n: nat)
    requires 2 <= n <= 4 && i + 2 * n < |ts|
    requires ts[i].typ == "leftbracket" && ts[i + 2 * n].typ == "rightbracket"
    requires ts[i + 2].typ == "comma" && (n >= 3 ==> ts[i + 4].typ == "comma") && (n == 4 ==> ts[i + 6].typ == "comma")
    ensures VectorFrom(ts, i) == Produced(VectorNode(ts[i + 1].val, ts[i + 3].val,
                                                     if n >= 3 then Some(ts[i + 5].val) else None,
                                                     if n == 4 then Some(ts[i + 7].val) else None), Advance(ts, i + 2 * n))
  {
    assert Advance(ts, i + 1) == i + 2 && Advance(ts, i + 2) == i + 3 && Advance(ts, i + 3) == i + 4;
    if n >= 3 {
      assert MoreComponentFrom(ts, i + 4) == (Some(ts[i + 5].val), i + 6);
    }
    if n == 4 {
      assert MoreComponentFrom(ts, i + 6) == (Some(ts[i + 7].val), i + 8);
    }
  }

  /** A value list holds the values read between its brackets, in order; `[ ]` is the empty list. */
  lemma ValueListElements(ts: seq<Token>, i: nat)
    requires i <= LastIndex(ts) && ValueListFrom(ts, i).Yields()
    ensures TokenAt(ts, i, "leftsquare")
    ensures ValuesFrom(ts, i + 1).Yields() ==> ValueListFrom(ts, i).Tree().children == ValuesFrom(ts, i + 1).Tree()
    ensures !ValuesFrom(ts, i + 1).Yields() ==> ValuesFrom(ts, i + 1).Declines() && ValueListFrom(ts, i).Tree().children == []
  {
  }

  /** The values of a list: the first value read, then those after the comma. */
  lemma ValuesInOrder(ts: seq<Token>, i: nat)
    requires i <= LastIndex(ts) && ValuesFrom(ts, i).Yields()
    ensures FlatValueFrom(ts, i).Yields() && ValuesFrom(ts, i).Tree()[0] == FlatValueFrom(ts, i).Tree()
    ensures var q := FlatValueFrom(ts, i).next;
            TokenAt(ts, q, "comma") ==> ValuesFrom(ts, q + 1).Yields() && ValuesFrom(ts, i).Tree()[1..] == ValuesFrom(ts, q + 1).Tree()
  {
  }

  /** A list whose first token starts no value declines. */
  lemma ValuesDecline(ts: seq<Token>, j: nat)
    requires j <= LastIndex(ts) && !TokenIn(ts, j, ValueStartTypes)
    ensures ValuesFrom(ts, j) == Declined(j)
  {
    FlatValueDeclines(ts, j);
  }

  /** A value and a comma with no list after it fail. */
  lemma ValuesAfterCommaFail(ts: seq<Token>, i: nat)
    requires i <= LastIndex(ts) && FlatValueFrom(ts, i).Yields()
    requires TokenAt(ts, FlatValueFrom(ts, i).next, "comma")
    requires !ValuesFrom(ts, FlatValueFrom(ts, i).next + 1).Yields()
    ensures ValuesFrom(ts, i) == Failed(i)
  {
  }

  /** A comma with no value after it, as in `[1, ]`, fails. */
  lemma ValuesTrailingCommaFails(ts: seq<Token>, i: nat)
    requires i <= LastIndex(ts) && FlatValueFrom(ts, i).Yields()
    requires TokenAt(ts, FlatValueFrom(ts, i).next, "comma")
    requires !TokenIn(ts, FlatValueFrom(ts, i).next + 1, ValueStartTypes)
    ensures ValuesFrom(ts, i).result == Err(Fatal)
  {
    var q := FlatValueFrom(ts, i).next;
    ValuesDecline(ts, q + 1);
    ValuesAfterCommaFail(ts, i);
  }

  /*
   * Records and flat lists
   */

  /**
   * A record is named by its identifier; its parent written before the flat
   * list comes first among its children and one written after comes last,
   * each holding the identifier after its colon.
   */
  lemma RecordReadsTokens(ts: seq<Token>, i: nat)
    requires i <= LastIndex(ts) && RecordFrom(ts, i).Yields()
    ensures TokenAt(ts, i, "identifier") && RecordFrom(ts, i).Tree().value == Some(ts[i].val)
    ensures var r := RecordFrom(ts, i).Tree();
            var before := InheritanceFrom(ts, i + 1);
            var flats := FlatListFrom(ts, before.next);
            flats.Yields() && |r.children| >= 1
            && (TokenAt(ts, i + 1, "colon") ==> r.children[0] == Leaf("record-inheritance", ts[i + 2].val)
                                                && r.children[1] == flats.Tree())
            && (!TokenAt(ts, i + 1, "colon") ==> r.children[0] == flats.Tree())
            && (TokenAt(ts, flats.next, "colon") ==> r.children[|r.children| - 1] == Leaf("record-inheritance", ts[flats.next + 1].val))
            && (!TokenAt(ts, flats.next, "colon") ==> r.children[|r.children| - 1] == flats.Tree())
  {
  }

  /** A record name followed by no `{` (after an optional parent) fails. */
  lemma RecordWithoutFlatListFails(ts: seq<Token>, i: nat)
    requires TokenAt(ts, i, "identifier") && InheritanceFrom(ts, i + 1).result.Ok?
    requires !TokenAt(ts, InheritanceFrom(ts, i + 1).next, "leftcurly")
    ensures RecordFrom(ts, i) == Failed(i)
  {
  }

  /** A flat list whose `{` is never closed fails: the definitions run into EOF. */
  lemma UnclosedFlatListFails(ts: seq<Token>, i: nat)
    requires TokenAt(ts, i, "leftcurly")
    requires forall k :: i < k < |ts| ==> ts[k].typ != "rightcurly"
    ensures FlatListFrom(ts, i).result == Err(Fatal)
  {
  }

  /** At an EOF token the definitions of a flat list fail. */
  lemma DefinitionsAtEofFail(ts: seq<Token>, i: nat)
    requires i < |ts| && ts[i].typ == "EOF"
    ensures DefinitionsFrom(ts, i).result == Err(Fatal)
  {
  }
}
