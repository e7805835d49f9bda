/**
 * The recursive-descent parser of the tweak language. Each production reads
 * tokens through the shared cursor and either declines (the first token does
 * not start it), produces a syntax tree, or fails.
 *
 * The grammar the trees follow is stated as predicates on `Syntax` values;
 * every production is proved to return trees of its shape.
 */
module Parsing {
  import opened Wrappers
  import opened Lexer
  import opened TokenReading
  import opened SyntaxTree

  /** The primitive flat type names, as a `flat-type` node carries them. */
  const PrimitiveTypeNames: seq<string> := ["string", "int", "bool", "float",
    "CName", "Vector2", "Vector3", "LocKey", "ResRef", "EulerAngles", "Quaternion"]

  /**
   * The keyword token types that name a primitive flat type: `keyword-string`,
   * `keyword-int` and so on, one per primitive type name.
   */
  const PrimitiveTypeKeywords: seq<string> := ["keyword-string", "keyword-int", "keyword-bool", "keyword-float",
    "keyword-CName", "keyword-Vector2", "keyword-Vector3", "keyword-LocKey", "keyword-ResRef", "keyword-EulerAngles",
    "keyword-Quaternion"]

  /** Each primitive type keyword is `keyword-` followed by the type name at the same position. */
  lemma PrimitiveTypeKeywordsSpelled()
    ensures |PrimitiveTypeKeywords| == |PrimitiveTypeNames|
    ensures forall k :: 0 <= k < |PrimitiveTypeKeywords| ==> PrimitiveTypeKeywords[k] == "keyword-" + PrimitiveTypeNames[k]
  {
  }

  const BooleanKeywords: seq<string> := ["keyword-true", "keyword-false"]

  const OperatorTypes: seq<string> := ["equals", "plusequals"]

  const NumberTypes: seq<string> := ["number-float", "number-integer"]

  /** The names of the components of a vector node, in order. */
  const ComponentNames: seq<string> := ["x", "y", "z", "a"]

  /** Strips the `keyword-` prefix from a keyword token type. */
  function KeywordWord(typ: string): string {
    if |typ| >= 8 then typ[8..] else ""
  }

  lemma PrimitiveTypeKeywordWord(typ: string)
    requires typ in PrimitiveTypeKeywords
    ensures KeywordWord(typ) in PrimitiveTypeNames
  {
    PrimitiveTypeKeywordsSpelled();
    var k :| 0 <= k < |PrimitiveTypeKeywords| && PrimitiveTypeKeywords[k] == typ;
    KeywordWordOf(PrimitiveTypeNames[k]);
  }

  lemma KeywordWordOf(w: string)
    ensures KeywordWord("keyword-" + w) == w
  {
    assert ("keyword-" + w)[8..] == w;
  }

  lemma BooleanKeywordWord(typ: string)
    requires typ in BooleanKeywords
    ensures KeywordWord(typ) == "true" || KeywordWord(typ) == "false"
  {
    if typ == "keyword-true" {
      assert KeywordWord(typ) == "true";
    } else {
      assert KeywordWord(typ) == "false";
    }
  }

  /** The texts joined by single spaces. */
  function JoinWithSpaces(vs: seq<string>): string {
    if |vs| == 0 then ""
    else if |vs| == 1 then vs[0]
    else JoinWithSpaces(vs[..|vs| - 1]) + " " + vs[|vs| - 1]
  }

  lemma JoinAppend(vs: seq<string>, v: string)
    requires |vs| >= 1
    ensures JoinWithSpaces(vs + [v]) == JoinWithSpaces(vs) + " " + v
  {
    assert (vs + [v])[..|vs|] == vs;
  }

  /** The texts of a list of nodes. */
  function Values(cs: seq<Syntax>): (vs: seq<string>)
    ensures |vs| == |cs|
    ensures forall k :: 0 <= k < |cs| ==> vs[k] == cs[k].ValueOrEmpty()
  {
    if |cs| == 0 then [] else Values(cs[..|cs| - 1]) + [cs[|cs| - 1].ValueOrEmpty()]
  }

  predicate IsLeaf(n: Syntax, typ: string) {
    n.typ == typ && n.value.Some? && n.children == []
  }

  /** `( x, y )`, `( x, y, z )` or `( x, y, z, a )`: the type names the component count, the text joins the components. */
  predicate IsVectorNode(v: Syntax) {
    var cs := v.children;
    ((v.typ == "value-vector" && |cs| == 2) || (v.typ == "value-vector3" && |cs| == 3) || (v.typ == "value-vector4" && |cs| == 4))
    && (forall k :: 0 <= k < |cs| ==> IsLeaf(cs[k], ComponentNames[k]))
    && v.value == Some(JoinWithSpaces(Values(cs)))
  }

  /**
   * The vector node for components `x`, `y` and the optional `z` and `a`: a
   * two-component node, upgraded to three and then four components as the
   * optional ones are present.
   */
  function VectorNode(x: string, y: string, z: Option<string>, a: Option<string>): Syntax {
    var two := Node("value-vector", Some(x + " " + y), [Leaf("x", x), Leaf("y", y)]);
    var three := if z.Some? then Node("value-vector3", Some(two.value.value + " " + z.value), two.children + [Leaf("z", z.value)]) else two;
    if a.Some? then Node("value-vector4", Some(three.value.value + " " + a.value), three.children + [Leaf("a", a.value)]) else three
  }

  lemma VectorNodeShape(x: string, y: string, z: Option<string>, a: Option<string>)
    requires a.Some? ==> z.Some?
    ensures IsVectorNode(VectorNode(x, y, z, a))
  {
    var vals := [x, y];
    assert JoinWithSpaces(vals) == x + " " + y by {
      assert vals[..1] == [x];
    }
    if z.Some? {
      var three := [x, y, z.value];
      assert vals + [z.value] == three;
      JoinAppend(vals, z.value);
      if a.Some? {
        var four := [x, y, z.value, a.value];
        assert three + [a.value] == four;
        JoinAppend(three, a.value);
        assert VectorNode(x, y, z, a).children == [Leaf("x", x), Leaf("y", y), Leaf("z", z.value), Leaf("a", a.value)];
        VectorNodeFrom(VectorNode(x, y, z, a), four);
      } else {
        assert VectorNode(x, y, z, a).children == [Leaf("x", x), Leaf("y", y), Leaf("z", z.value)];
        VectorNodeFrom(VectorNode(x, y, z, a), three);
      }
    } else {
      VectorNodeFrom(VectorNode(x, y, z, a), vals);
    }
  }

  /** A vector node whose components are the leaves for `vals`, in order. */
  lemma VectorNodeFrom(v: Syntax, vals: seq<string>)
    requires 2 <= |vals| <= 4 && v.typ == ["value-vector", "value-vector3", "value-vector4"][|vals| - 2]
    requires |v.children| == |vals| && forall k :: 0 <= k < |vals| ==> v.children[k] == Leaf(ComponentNames[k], vals[k])
    requires v.value == Some(JoinWithSpaces(vals))
    ensures IsVectorNode(v)
  {
    if |vals| == 2 {
      assert v.typ == "value-vector";
    } else if |vals| == 3 {
      assert v.typ == "value-vector3";
    } else {
      assert v.typ == "value-vector4";
    }
    LeavesValues(v.children, vals);
  }

  /** Component leaves for `vals` are leaves whose texts are `vals`. */
  lemma LeavesValues(cs: seq<Syntax>, vals: seq<string>)
    requires |cs| == |vals| <= |ComponentNames| && forall k :: 0 <= k < |vals| ==> cs[k] == Leaf(ComponentNames[k], vals[k])
    ensures (forall k :: 0 <= k < |cs| ==> IsLeaf(cs[k], ComponentNames[k])) && Values(cs) == vals
  {
    forall k | 0 <= k < |cs| ensures IsLeaf(cs[k], ComponentNames[k]) && Values(cs)[k] == vals[k] {
      assert cs[k] == Leaf(ComponentNames[k], vals[k]);
    }
  }

  predicate IsSingleFlatType(t: Syntax) {
    (t.typ == "flat-type" && t.value == Some("foreignkey") && |t.children| == 1 && IsLeaf(t.children[0], "foreignkey-type"))
    || (IsLeaf(t, "flat-type") && t.value.value in PrimitiveTypeNames)
  }

  /** A single type, or an array of one: `flat-type` with text `array` around the element type. */
  predicate IsFlatType(t: Syntax) {
    IsSingleFlatType(t)
    || (t.typ == "flat-type" && t.value == Some("array") && |t.children| == 1 && IsSingleFlatType(t.children[0]))
  }

  predicate IsOperation(n: Syntax) {
    n == Leaf("operation", "assign") || n == Leaf("operation", "append")
  }

  /** The shapes of a flat value. */
  predicate IsValue(v: Syntax)
    decreases v, 2
  {
    IsLeaf(v, "value-string") || IsLeaf(v, "value-number-integer") || IsLeaf(v, "value-number-float")
    || v == Leaf("value-boolean", "true") || v == Leaf("value-boolean", "false")
    || IsLeaf(v, "value-identifier")
    || (v.typ == "value-inline" && v.value == Some("") && |v.children| == 1 && IsFlatList(v.children[0]))
    || (v.typ == "value-foreignkey" && |v.children| == 2 && IsFlatList(v.children[0])
        && IsLeaf(v.children[1], "record-inheritance") && v.value == v.children[1].value)
    || IsVectorNode(v)
    || (v.typ == "value-list" && v.value == Some("") && forall k :: 0 <= k < |v.children| ==> IsValue(v.children[k]))
  }

  /** A special tag, or `name`, an optional `flat-type`, `operation` and the value, in that order. */
  predicate IsFlatDefinition(d: Syntax)
    decreases d, 1
  {
    var cs := d.children;
    IsLeaf(d, "special-tag")
    || (d.typ == "flat-definition" && d.value == Some("") &&
        ((|cs| == 3 && IsLeaf(cs[0], "name") && IsOperation(cs[1]) && IsValue(cs[2]))
         || (|cs| == 4 && IsLeaf(cs[0], "name") && IsFlatType(cs[1]) && IsOperation(cs[2]) && IsValue(cs[3]))))
  }

  /**
   * The `flat-definition` node for flat `name` of optional type `flatType`,
   * assigned (`equals`) or appended (any other operator) `value`.
   */
  function FlatDefinitionNode(name: string, flatType: Option<Syntax>, operator: string, value: Syntax): (d: Syntax)
    requires flatType.Some? ==> IsFlatType(flatType.value)
    requires IsValue(value)
    ensures IsFlatDefinition(d) && d.typ == "flat-definition"
    ensures |d.children| == (if flatType.Some? then 4 else 3)
    ensures d.children[0] == Leaf("name", name) && d.children[|d.children| - 1] == value
    ensures flatType.Some? ==> d.children[1] == flatType.value
    ensures d.children[|d.children| - 2].value == Some("assign") <==> operator == "equals"
  {
    var operation := Leaf("operation", if operator == "equals" then "assign" else "append");
    var typeNodes := if flatType.Some? then [flatType.value] else [];
    Node("flat-definition", Some(""), [Leaf("name", name)] + typeNodes + [operation, value])
  }

  predicate IsFlatList(l: Syntax)
    decreases l, 0
  {
    l.typ == "flat-list" && l.value == Some("") && forall k :: 0 <= k < |l.children| ==> IsFlatDefinition(l.children[k])
  }

  /** A named record: its flat list, with an optional parent before it, after it, or both. */
  predicate IsRecord(r: Syntax) {
    var cs := r.children;
    r.typ == "record" && r.value.Some? &&
    ((|cs| == 1 && IsFlatList(cs[0]))
     || (|cs| == 2 && IsLeaf(cs[0], "record-inheritance") && IsFlatList(cs[1]))
     || (|cs| == 2 && IsFlatList(cs[0]) && IsLeaf(cs[1], "record-inheritance"))
     || (|cs| == 3 && IsLeaf(cs[0], "record-inheritance") && IsFlatList(cs[1]) && IsLeaf(cs[2], "record-inheritance")))
  }

  predicate IsUsingDeclaration(u: Syntax) {
    u.typ == "using-declaration" && u.value == Some("") && |u.children| >= 1
    && forall k :: 0 <= k < |u.children| ==> IsLeaf(u.children[k], "package-name")
  }

  predicate IsTopLevel(n: Syntax) {
    IsLeaf(n, "package") || IsUsingDeclaration(n) || IsRecord(n) || IsFlatDefinition(n)
  }

  predicate IsRoot(n: Syntax) {
    n.typ == "root" && n.value == None && forall k :: 0 <= k < |n.children| ==> IsTopLevel(n.children[k])
  }

  /** Whether the token at `i` has type `typ` and is not the last token: what `Match` tests. */
  predicate TokenAt(ts: seq<Token>, i: nat, typ: string) {
    i < |ts| - 1 && ts[i].typ == typ
  }

  /** Whether the token at `i` has one of `types` and is not the last token: what `MatchAny` tests. */
  predicate TokenIn(ts: seq<Token>, i: nat, types: seq<string>) {
    i < |ts| - 1 && ts[i].typ in types
  }

  /** Whether `ConsumeExpected(typ)` succeeds at `i`: the token there, the last one included, has type `typ`. */
  predicate ExpectAt(ts: seq<Token>, i: nat, typ: string) {
    i < |ts| && ts[i].typ == typ
  }

  /**
   * What a production does from a cursor position: it fails, declines (`Ok(None)`),
   * or yields a tree; `next` is where it leaves the cursor when it does not fail.
   */
  datatype Parsed<T> = Parsed(result: Result<Option<T>>, next: nat)
  {
    predicate Yields() {
      result.Ok? && result.value.Some?
    }

    predicate Declines() {
      result.Ok? && result.value.None?
    }

    function Tree(): T
      requires Yields()
    {
      result.value.value
    }
  }

  function Declined<T>(i: nat): Parsed<T> {
    Parsed(Ok(None), i)
  }

  function Failed<T>(i: nat): Parsed<T> {
    Parsed(Err(Fatal), i)
  }

  function Produced<T>(t: T, next: nat): Parsed<T> {
    Parsed(Ok(Some(t)), next)
  }

  /**
   * The cursor stays in range and never goes back, a production that yields a
   * tree has read a token, and every failure is a parse error.
   */
  predicate Moves<T>(ts: seq<Token>, i: nat, o: Parsed<T>) {
    i <= o.next <= LastIndex(ts) && (o.Yields() ==> o.next > i) && (o.result.Err? ==> o.result.error == Fatal)
  }

  /** A method's result and final cursor are those of the reference production `o`. */
  predicate Agrees<T(==)>(r: Result<Option<T>>, index: nat, o: Parsed<T>) {
    r == o.result && (r.Ok? ==> index == o.next)
  }

  /*
   * The reference parser: one function per production, reading the token list
   * from a cursor position exactly as the parser's methods do, including the
   * cursor sticking on the last token.
   */

  /** `package Name`. */
  function PackageFrom(ts: seq<Token>, i: nat): (o: Parsed<Syntax>)
    requires i <= LastIndex(ts)
    ensures Moves(ts, i, o) && (o.Declines() ==> o.next == i)
    ensures o.Yields() ==> IsLeaf(o.Tree(), "package")
  {
    if !TokenAt(ts, i, "keyword-package") then Declined(i)
    else if !ExpectAt(ts, i + 1, "identifier") then Failed(i)
    else Produced(Leaf("package", ts[i + 1].val), Advance(ts, i + 1))
  }

  /** `: Parent`. */
  function InheritanceFrom(ts: seq<Token>, i: nat): (o: Parsed<Syntax>)
    requires i <= LastIndex(ts)
    ensures Moves(ts, i, o) && (o.Declines() ==> o.next == i)
  {
    if !TokenAt(ts, i, "colon") then Declined(i)
    else if !ExpectAt(ts, i + 1, "identifier") then Failed(i)
    else Produced(Leaf("record-inheritance", ts[i + 1].val), Advance(ts, i + 1))
  }

  /** `[ Tag ]`. */
  function SpecialTagFrom(ts: seq<Token>, i: nat): (o: Parsed<Syntax>)
    requires i <= LastIndex(ts)
    ensures Moves(ts, i, o) && (o.Declines() ==> o.next == i)
    ensures o.Yields() ==> IsLeaf(o.Tree(), "special-tag")
  {
    if !TokenAt(ts, i, "leftsquare") then Declined(i)
    else if !ExpectAt(ts, i + 1, "identifier") then Failed(i)
    else
      var j := Advance(ts, i + 1);
      if !ExpectAt(ts, j, "rightsquare") then Failed(i)
      else Produced(Leaf("special-tag", ts[i + 1].val), Advance(ts, j))
  }

  /** One or more identifiers separated by commas. */
  function PackageListFrom(ts: seq<Token>, i: nat): (o: Parsed<seq<Syntax>>)
    requires i <= LastIndex(ts)
    ensures Moves(ts, i, o) && (o.Declines() ==> o.next == i)
    ensures o.Yields() ==> |o.Tree()| >= 1 && forall k :: 0 <= k < |o.Tree()| ==> IsLeaf(o.Tree()[k], "package-name")
    decreases |ts| - i
  {
    if !TokenAt(ts, i, "identifier") then Declined(i)
    else
      var name := Leaf("package-name", ts[i].val);
      if !TokenAt(ts, i + 1, "comma") then Produced([name], i + 1)
      else
        var others := PackageListFrom(ts, i + 2);
        if !others.Yields() then Failed(i) else Produced([name] + others.Tree(), others.next)
  }

  /** `using A, B, ...`. */
  function UsingFrom(ts: seq<Token>, i: nat): (o: Parsed<Syntax>)
    requires i <= LastIndex(ts)
    ensures Moves(ts, i, o) && (o.Declines() ==> o.next == i)
    ensures o.Yields() ==> IsUsingDeclaration(o.Tree())
  {
    if !TokenAt(ts, i, "keyword-using") then Declined(i)
    else
      var packages := PackageListFrom(ts, i + 1);
      if !packages.Yields() then Failed(i)
      else Produced(Node("using-declaration", Some(""), packages.Tree()), packages.next)
  }

  /** `fk<Record>` or a primitive type keyword. */
  function SingleTypeFrom(ts: seq<Token>, i: nat): (o: Parsed<Syntax>)
    requires i <= LastIndex(ts)
    ensures Moves(ts, i, o) && (o.Declines() ==> o.next == i)
    ensures o.Yields() ==> IsSingleFlatType(o.Tree())
  {
    if TokenAt(ts, i, "keyword-fk") then
      if !ExpectAt(ts, i + 1, "leftangle") then Failed(i)
      else
        var j := Advance(ts, i + 1);
        if !ExpectAt(ts, j, "identifier") then Failed(i)
        else
          var k := Advance(ts, j);
          if !ExpectAt(ts, k, "rightangle") then Failed(i)
          else Produced(Node("flat-type", Some("foreignkey"), [Leaf("foreignkey-type", ts[j].val)]), Advance(ts, k))
    else if TokenIn(ts, i, PrimitiveTypeKeywords) then
      PrimitiveTypeKeywordWord(ts[i].typ);
      Produced(Leaf("flat-type", KeywordWord(ts[i].typ)), i + 1)
    else Declined(i)
  }

  /** A single type, then `[]` for an array of it. */
  function FlatTypeFrom(ts: seq<Token>, i: nat): (o: Parsed<Syntax>)
    requires i <= LastIndex(ts)
    ensures Moves(ts, i, o) && (o.Declines() ==> o.next == i)
    ensures o.Yields() ==> IsFlatType(o.Tree())
  {
    var single := SingleTypeFrom(ts, i);
    if !single.Yields() || !TokenAt(ts, single.next, "leftsquare") then single
    else if !ExpectAt(ts, single.next + 1, "rightsquare") then Failed(i)
    else Produced(Node("flat-type", Some("array"), [single.Tree()]), Advance(ts, single.next + 1))
  }

  /** An optional further vector component `, n` at `j`: its text, and where the cursor is left. */
  function MoreComponentFrom(ts: seq<Token>, j: nat): (c: (Option<string>, nat))
    requires j <= LastIndex(ts)
    ensures j <= c.1 <= LastIndex(ts) && (c.0.None? ==> c.1 == j)
  {
    if TokenAt(ts, j, "comma") then (Some(ts[j + 1].val), Advance(ts, j + 1)) else (None, j)
  }

  /** `( x, y )`, with optionally a third and a fourth component; any token is taken as a component. */
  function VectorFrom(ts: seq<Token>, i: nat): (o: Parsed<Syntax>)
    requires i <= LastIndex(ts)
    ensures Moves(ts, i, o) && (o.Declines() ==> o.next == i)
    ensures o.Yields() ==> IsVectorNode(o.Tree())
  {
    if !TokenAt(ts, i, "leftbracket") then Declined(i)
    else
      var j := Advance(ts, i + 1);
      if !ExpectAt(ts, j, "comma") then Failed(i)
      else
        var k := Advance(ts, j);
        var z := MoreComponentFrom(ts, Advance(ts, k));
        var a := MoreComponentFrom(ts, z.1);
        if !ExpectAt(ts, a.1, "rightbracket") then Failed(i)
        else
          VectorNodeShape(ts[i + 1].val, ts[k].val, z.0, a.0);
          Produced(VectorNode(ts[i + 1].val, ts[k].val, z.0, a.0), Advance(ts, a.1))
  }

  /** `{ definitions }`. */
  function FlatListFrom(ts: seq<Token>, i: nat): (o: Parsed<Syntax>)
    requires i <= LastIndex(ts)
    ensures Moves(ts, i, o) && (o.Declines() ==> o.next == i)
    ensures o.Yields() ==> IsFlatList(o.Tree())
    decreases |ts| - i, 1
  {
    if !TokenAt(ts, i, "leftcurly") then Declined(i)
    else
      var definitions := DefinitionsFrom(ts, i + 1);
      if !definitions.Yields() then Failed(i)
      else Produced(Node("flat-list", Some(""), definitions.Tree()), definitions.next + 1)
  }

  /** The definitions of a flat list up to its `}`: an EOF or a token that starts no definition fails. */
  function DefinitionsFrom(ts: seq<Token>, i: nat): (o: Parsed<seq<Syntax>>)
    requires i <= LastIndex(ts)
    ensures i <= o.next <= LastIndex(ts) && (o.result.Err? ==> o.result.error == Fatal)
    ensures o.result.Ok? ==> o.Yields() && TokenAt(ts, o.next, "rightcurly")
    ensures o.Yields() ==> forall k :: 0 <= k < |o.Tree()| ==> IsFlatDefinition(o.Tree()[k])
    decreases |ts| - i, 4
  {
    if TokenAt(ts, i, "rightcurly") then Produced([], i)
    else if TokenAt(ts, i, "EOF") then Failed(i)
    else
      var definition := FlatDefinitionFrom(ts, i);
      if !definition.Yields() then Failed(i)
      else
        var rest := DefinitionsFrom(ts, definition.next);
        if !rest.Yields() then Failed(i) else Produced([definition.Tree()] + rest.Tree(), rest.next)
  }

  /** A special tag, or `[type] name = value;` / `[type] name += value;`. */
  function FlatDefinitionFrom(ts: seq<Token>, i: nat): (o: Parsed<Syntax>)
    requires i <= LastIndex(ts)
    ensures Moves(ts, i, o)
    ensures o.Yields() ==> IsFlatDefinition(o.Tree())
    decreases |ts| - i, 3
  {
    var tag := SpecialTagFrom(ts, i);
    if !tag.Declines() then tag
    else
      var flatType := FlatTypeFrom(ts, i);
      if flatType.result.Err? then Failed(i)
      else
        NamedDefinitionFrom(ts, flatType.next, flatType.result.value)
  }

  /** The rest of a flat definition once its optional type is read: name, operator, value and `;`. */
  function NamedDefinitionFrom(ts: seq<Token>, p: nat, flatType: Option<Syntax>): (o: Parsed<Syntax>)
    requires p <= LastIndex(ts)
    requires flatType.Some? ==> IsFlatType(flatType.value)
    ensures Moves(ts, p, o)
    ensures o.Yields() ==> IsFlatDefinition(o.Tree())
    decreases |ts| - p, 2
  {
    if !TokenAt(ts, p, "identifier") then Declined(p)
    else if !TokenIn(ts, p + 1, OperatorTypes) then Failed(p)
    else
      var value := FlatValueFrom(ts, p + 2);
      if value.result.Err? || !ExpectAt(ts, value.next, "semicolon") || !value.Yields() then Failed(p)
      else Produced(FlatDefinitionNode(ts[p].val, flatType, ts[p + 1].typ, value.Tree()), Advance(ts, value.next))
  }

  /** A string, number, boolean, identifier, inline record, foreign key, vector or value list. */
  function FlatValueFrom(ts: seq<Token>, i: nat): (o: Parsed<Syntax>)
    requires i <= LastIndex(ts)
    ensures Moves(ts, i, o) && (o.Declines() ==> o.next == i)
    ensures o.Yields() ==> IsValue(o.Tree())
    decreases |ts| - i, 2
  {
    if TokenAt(ts, i, "string") then Produced(Leaf("value-string", ts[i].val), i + 1)
    else if TokenAt(ts, i, "number-integer") then Produced(Leaf("value-number-integer", ts[i].val), i + 1)
    else if TokenAt(ts, i, "number-float") then Produced(Leaf("value-number-float", ts[i].val), i + 1)
    else if TokenIn(ts, i, BooleanKeywords) then
      BooleanKeywordWord(ts[i].typ);
      Produced(Leaf("value-boolean", KeywordWord(ts[i].typ)), i + 1)
    else if TokenAt(ts, i, "identifier") then Produced(Leaf("value-identifier", ts[i].val), i + 1)
    else
      var inline := FlatListFrom(ts, i);
      if inline.result.Err? then Failed(i)
      else if inline.Yields() then
        var inheritance := InheritanceFrom(ts, inline.next);
        if inheritance.result.Err? then Failed(i)
        else if inheritance.Yields() then
          Produced(Node("value-foreignkey", inheritance.Tree().value, [inline.Tree(), inheritance.Tree()]), inheritance.next)
        else Produced(Node("value-inline", Some(""), [inline.Tree()]), inline.next)
      else
        var vector := VectorFrom(ts, i);
        if !vector.Declines() then vector else ValueListFrom(ts, i)
  }

  /** `[ values ]`; the list may be empty. */
  function ValueListFrom(ts: seq<Token>, i: nat): (o: Parsed<Syntax>)
    requires i <= LastIndex(ts)
    ensures Moves(ts, i, o) && (o.Declines() ==> o.next == i)
    ensures o.Yields() ==> IsValue(o.Tree()) && o.Tree().typ == "value-list"
    decreases |ts| - i, 1
  {
    if !TokenAt(ts, i, "leftsquare") then Declined(i)
    else
      var values := ValuesFrom(ts, i + 1);
      if values.result.Err? || !ExpectAt(ts, values.next, "rightsquare") then Failed(i)
      else Produced(Node("value-list", Some(""), if values.Yields() then values.Tree() else []), Advance(ts, values.next))
  }

  /** One or more values separated by commas; a comma with no value after it fails. */
  function ValuesFrom(ts: seq<Token>, i: nat): (o: Parsed<seq<Syntax>>)
    requires i <= LastIndex(ts)
    ensures Moves(ts, i, o) && (o.Declines() ==> o.next == i)
    ensures o.Yields() ==> |o.Tree()| >= 1 && forall k :: 0 <= k < |o.Tree()| ==> IsValue(o.Tree()[k])
    decreases |ts| - i, 3
  {
    var value := FlatValueFrom(ts, i);
    if value.result.Err? then Failed(i)
    else if !value.Yields() then Declined(i)
    else if !TokenAt(ts, value.next, "comma") then Produced([value.Tree()], value.next)
    else
      var others := ValuesFrom(ts, value.next + 1);
      if !others.Yields() then Failed(i) else Produced([value.Tree()] + others.Tree(), others.next)
  }

  /** `Name [: Parent] { ... } [: Parent]`. */
  function RecordFrom(ts: seq<Token>, i: nat): (o: Parsed<Syntax>)
    requires i <= LastIndex(ts)
    ensures Moves(ts, i, o) && (o.Declines() ==> o.next == i)
    ensures o.Yields() ==> IsRecord(o.Tree()) && o.Tree().value == Some(ts[i].val)
  {
    if !TokenAt(ts, i, "identifier") then Declined(i)
    else
      var inheritance := InheritanceFrom(ts, i + 1);
      if inheritance.result.Err? then Failed(i)
      else
        var flats := FlatListFrom(ts, inheritance.next);
        if !flats.Yields() then Failed(i)
        else
          var second := InheritanceFrom(ts, flats.next);
          if second.result.Err? then Failed(i)
          else
            var before := if inheritance.Yields() then [inheritance.Tree()] else [];
            var after := if second.Yields() then [second.Tree()] else [];
            Produced(Node("record", Some(ts[i].val), before + [flats.Tree()] + after), second.next)
  }

  /** A package declaration, a using declaration, a record or a flat definition, tried in that order. */
  function TopLevelFrom(ts: seq<Token>, i: nat): (o: Parsed<Syntax>)
    requires i <= LastIndex(ts)
    ensures Moves(ts, i, o)
    ensures o.Yields() ==> IsTopLevel(o.Tree())
  {
    var package := PackageFrom(ts, i);
    if !package.Declines() then package
    else
      var using := UsingFrom(ts, i);
      if !using.Declines() then using
      else
        var record := RecordFrom(ts, i);
        if !record.Declines() then record
        else FlatDefinitionFrom(ts, i)
  }

  /** The top-level items from `i` to EOF, in source order; a token that starts no item fails. */
  function ItemsFrom(ts: seq<Token>, i: nat): (r: Result<seq<Syntax>>)
    requires 0 < |ts| && i <= LastIndex(ts)
    ensures r.Ok? ==> forall k :: 0 <= k < |r.value| ==> IsTopLevel(r.value[k])
    decreases |ts| - i
  {
    if ts[i].typ == "EOF" then Ok([])
    else
      var item := TopLevelFrom(ts, i);
      if !item.Yields() then Err(Fatal)
      else
        var rest := ItemsFrom(ts, item.next);
        if rest.Err? then Err(Fatal) else Ok([item.Tree()] + rest.value)
  }

  /** The whole token list as a `root` node. */
  function RootFrom(ts: seq<Token>): (r: Result<Syntax>)
    ensures r.Ok? ==> IsRoot(r.value)
  {
    if |ts| == 0 then Err(Fatal)
    else
      var items := ItemsFrom(ts, 0);
      if items.Err? then Err(Fatal) else Ok(Node("root", None, items.value))
  }

  /** Where a top-level item cannot be read, the whole input fails. */
  lemma ItemsFromFails(ts: seq<Token>, i: nat)
    requires 0 < |ts| && i <= LastIndex(ts) && ts[i].typ != "EOF" && !TopLevelFrom(ts, i).Yields()
    ensures ItemsFrom(ts, i).Err?
  {
  }

  class Parser {
    const reader: TokenReader

    constructor (reader: TokenReader)
      ensures this.reader == reader
    {
      this.reader := reader;
    }

    /** Whether the token at position `i` has type `typ` and is not the last token. */
    predicate At(i: nat, typ: string) {
      TokenAt(reader.tokens, i, typ)
    }

    /** The identifiers of a using list from position `i`: `ns` are their nodes, separated by commas, and no comma follows the last. */
    ghost predicate PackageListAt(i: nat, ns: seq<Syntax>)
      decreases |ns|
    {
      |ns| >= 1 && At(i, "identifier") && ns[0] == Leaf("package-name", reader.tokens[i].val)
      && if |ns| == 1 then !At(i + 1, "comma") else At(i + 1, "comma") && PackageListAt(i + 2, ns[1..])
    }

    /** Whether the token under the cursor has type `typ`; never at the last token. */
    function Match(typ: string): (b: bool)
      reads reader
      requires reader.Valid()
      ensures b <==> At(reader.index, typ)
      ensures b ==> Advance(reader.tokens, reader.index) == reader.index + 1
    {
      if !reader.HasNext() then false else reader.Peek().value.typ == typ
    }

    /** Whether the token under the cursor has one of the types; never at the last token. */
    function MatchAny(types: seq<string>): (b: bool)
      reads reader
      requires reader.Valid()
      ensures b <==> TokenIn(reader.tokens, reader.index, types)
      ensures b <==> exists typ :: typ in types && At(reader.index, typ)
      ensures b ==> Advance(reader.tokens, reader.index) == reader.index + 1
    {
      if !reader.HasNext() then false else reader.Peek().value.typ in types
    }

    /** The whole input as a `root` node. */
    method Parse() returns (r: Result<Syntax>)
      requires reader.Valid()
      modifies reader
      ensures reader.Valid()
      ensures r.Ok? ==> IsRoot(r.value) && |reader.tokens| > 0 && reader.tokens[reader.index].typ == "EOF"
      ensures r == RootFrom(reader.tokens)
    {
      r := ParseRoot();
    }

    /**
     * Rewinds the cursor and reads top-level items until the token under the
     * cursor is EOF. The flag that should reject a second package declaration
     * is never set, so the parser accepts any number of them, and the flag is
     * left out here.
     */
    method ParseRoot() returns (r: Result<Syntax>)
      requires reader.Valid()
      modifies reader
      ensures reader.Valid()
      ensures r.Ok? ==> IsRoot(r.value) && |reader.tokens| > 0 && reader.tokens[reader.index].typ == "EOF"
      ensures r == RootFrom(reader.tokens)
    {
      reader.Reset();
      var next :- reader.Peek();
      var items: seq<Syntax> := [];
      assert ItemsFrom(reader.tokens, 0).Ok? ==> items + ItemsFrom(reader.tokens, 0).value == ItemsFrom(reader.tokens, 0).value;
      while next.typ != "EOF"
        invariant reader.Valid() && |reader.tokens| > 0
        invariant next == reader.tokens[reader.index]
        invariant ItemsFrom(reader.tokens, 0).Err? <==> ItemsFrom(reader.tokens, reader.index).Err?
        invariant ItemsFrom(reader.tokens, reader.index).Ok? ==>
          ItemsFrom(reader.tokens, 0) == Ok(items + ItemsFrom(reader.tokens, reader.index).value)
        decreases |reader.tokens| - reader.index
      {
        ghost var start := reader.index;
        var parsed := ParseTopLevel();
        if parsed.Err? || parsed.value.None? {
          ItemsFromFails(reader.tokens, start);
          return Err(Fatal);
        }
        var item := parsed.value;
        assert ItemsFrom(reader.tokens, reader.index).Ok? ==>
          ItemsFrom(reader.tokens, start) == Ok([item.value] + ItemsFrom(reader.tokens, reader.index).value);
        assert ItemsFrom(reader.tokens, reader.index).Ok? ==>
          items + ([item.value] + ItemsFrom(reader.tokens, reader.index).value) == items + [item.value] + ItemsFrom(reader.tokens, reader.index).value;
        items := items + [item.value];
        next := reader.Peek().value;
      }
      assert items + ItemsFrom(reader.tokens, reader.index).value == items;
      return Ok(Node("root", None, items));
    }

    /** One top-level item: a package declaration, a using declaration, a record or a flat definition, tried in that order. */
    method ParseTopLevel() returns (r: Result<Option<Syntax>>)
      requires reader.Valid()
      modifies reader
      ensures reader.Valid() && old(reader.index) <= reader.index
      ensures Agrees(r, reader.index, TopLevelFrom(reader.tokens, old(reader.index)))
    {
      r := ParsePackage();
      if r != Ok(None) {
        return;
      }
      r := ParseUsingDeclaration();
      if r != Ok(None) {
        return;
      }
      r := ParseRecord();
      if r != Ok(None) {
        return;
      }
      r := ParseFlatDefinition();
    }

    /** `package Name`. */
    method ParsePackage() returns (r: Result<Option<Syntax>>)
      requires reader.Valid()
      modifies reader
      ensures reader.Valid() && old(reader.index) <= reader.index
      ensures Agrees(r, reader.index, PackageFrom(reader.tokens, old(reader.index)))
      ensures r == Ok(None) <==> !At(old(reader.index), "keyword-package")
      ensures r == Ok(None) ==> reader.index == old(reader.index)
      ensures r.Ok? && r.value.Some? ==> (reader.index > old(reader.index)
        && reader.tokens[old(reader.index) + 1].typ == "identifier"
        && r.value.value == Leaf("package", reader.tokens[old(reader.index) + 1].val))
    {
      if !Match("keyword-package") {
        return Ok(None);
      }
      var keyword := reader.Consume();
      var name :- reader.ConsumeExpected("identifier");
      return Ok(Some(Leaf("package", name.val)));
    }

    /** `using A, B, ...`: a using declaration with one `package-name` child per package. */
    method ParseUsingDeclaration() returns (r: Result<Option<Syntax>>)
      requires reader.Valid()
      modifies reader
      ensures reader.Valid() && old(reader.index) <= reader.index
      ensures Agrees(r, reader.index, UsingFrom(reader.tokens, old(reader.index)))
      ensures r == Ok(None) <==> !At(old(reader.index), "keyword-using")
      ensures r == Ok(None) ==> reader.index == old(reader.index)
      ensures r.Ok? && r.value.Some? ==> (reader.index > old(reader.index)
        && IsUsingDeclaration(r.value.value)
        && PackageListAt(old(reader.index) + 1, r.value.value.children))
    {
      if !Match("keyword-using") {
        return Ok(None);
      }
      var keyword := reader.Consume();
      var packages :- ParsePackageList();
      if packages.None? {
        return Err(Fatal);
      }
      PackageListNames(old(reader.index) + 1, packages.value);
      return Ok(Some(Node("using-declaration", Some(""), packages.value)));
    }

    lemma {:induction false} PackageListNames(i: nat, ns: seq<Syntax>)
      requires PackageListAt(i, ns)
      ensures forall k :: 0 <= k < |ns| ==> IsLeaf(ns[k], "package-name")
      decreases |ns|
    {
      if |ns| > 1 {
        PackageListNames(i + 2, ns[1..]);
        assert forall k :: 1 <= k < |ns| ==> ns[k] == ns[1..][k - 1];
      }
    }

    /** One or more identifiers separated by commas; a comma with no identifier after it fails. */
    method ParsePackageList() returns (r: Result<Option<seq<Syntax>>>)
      requires reader.Valid()
      modifies reader
      ensures reader.Valid() && old(reader.index) <= reader.index
      ensures Agrees(r, reader.index, PackageListFrom(reader.tokens, old(reader.index)))
      ensures r == Ok(None) <==> !At(old(reader.index), "identifier")
      ensures r == Ok(None) ==> reader.index == old(reader.index)
      ensures r.Ok? && r.value.Some? ==> (PackageListAt(old(reader.index), r.value.value)
        && reader.index == old(reader.index) + 2 * |r.value.value| - 1)
      decreases |reader.tokens| - reader.index
    {
      if !Match("identifier") {
        return Ok(None);
      }
      var name := reader.Consume();
      var packages := [Leaf("package-name", name.val)];
      if Match("comma") {
        var comma := reader.Consume();
        var others :- ParsePackageList();
        if others.None? {
          return Err(Fatal);
        }
        packages := packages + others.value;
        assert packages[1..] == others.value;
      }
      return Ok(Some(packages));
    }

    /** `Name [: Parent] { ... } [: Parent]`. */
    method ParseRecord() returns (r: Result<Option<Syntax>>)
      requires reader.Valid()
      modifies reader
      ensures reader.Valid() && old(reader.index) <= reader.index
      ensures Agrees(r, reader.index, RecordFrom(reader.tokens, old(reader.index)))
      ensures r == Ok(None) <==> !At(old(reader.index), "identifier")
      ensures r == Ok(None) ==> reader.index == old(reader.index)
      ensures r.Ok? && r.value.Some? ==> (reader.index > old(reader.index)
        && IsRecord(r.value.value) && r.value.value.value == Some(reader.tokens[old(reader.index)].val))
    {
      if !Match("identifier") {
        return Ok(None);
      }
      var name := reader.Consume();
      var children: seq<Syntax> := [];
      var inheritance :- ParseRecordInheritance();
      if inheritance.Some? {
        children := children + [inheritance.value];
      }
      var flats :- ParseFlatList();
      if flats.None? {
        return Err(Fatal);
      }
      children := children + [flats.value];
      var secondInheritance :- ParseRecordInheritance();
      if secondInheritance.Some? {
        children := children + [secondInheritance.value];
      }
      assert children == (if inheritance.Some? then [inheritance.value] else []) + [flats.value]
        + (if secondInheritance.Some? then [secondInheritance.value] else []);
      return Ok(Some(Node("record", Some(name.val), children)));
    }

    /** `: Parent`. */
    method ParseRecordInheritance() returns (r: Result<Option<Syntax>>)
      requires reader.Valid()
      modifies reader
      ensures reader.Valid() && old(reader.index) <= reader.index
      ensures Agrees(r, reader.index, InheritanceFrom(reader.tokens, old(reader.index)))
      ensures r == Ok(None) <==> !At(old(reader.index), "colon")
      ensures r == Ok(None) ==> reader.index == old(reader.index)
      ensures r.Ok? && r.value.Some? ==> (reader.index > old(reader.index)
        && reader.tokens[old(reader.index) + 1].typ == "identifier"
        && r.value.value == Leaf("record-inheritance", reader.tokens[old(reader.index) + 1].val))
    {
      if !Match("colon") {
        return Ok(None);
      }
      var colon := reader.Consume();
      var parent :- reader.ConsumeExpected("identifier");
      return Ok(Some(Leaf("record-inheritance", parent.val)));
    }

    /** `{ definitions }`. */
    method ParseFlatList() returns (r: Result<Option<Syntax>>)
      requires reader.Valid()
      modifies reader
      ensures reader.Valid() && old(reader.index) <= reader.index
      ensures Agrees(r, reader.index, FlatListFrom(reader.tokens, old(reader.index)))
      ensures r == Ok(None) <==> !At(old(reader.index), "leftcurly")
      ensures r == Ok(None) ==> reader.index == old(reader.index)
      ensures r.Ok? && r.value.Some? ==> (reader.index > old(reader.index) && IsFlatList(r.value.value))
      decreases |reader.tokens| - reader.index, 1
    {
      if !Match("leftcurly") {
        return Ok(None);
      }
      var leftcurly := reader.Consume();
      ghost var all := DefinitionsFrom(reader.tokens, reader.index);
      assert FlatListFrom(reader.tokens, old(reader.index))
        == if all.Yields() then Produced(Node("flat-list", Some(""), all.Tree()), all.next + 1) else Failed(old(reader.index));
      var definitions :- ParseDefinitions();
      // The definitions end on a right curly brace, so this consume succeeds.
      var rightcurly := reader.ConsumeExpected("rightcurly");
      return Ok(Some(Node("flat-list", Some(""), definitions)));
    }

    /**
     * The definitions of a flat list, up to (not including) its `}`: the result
     * and the final cursor are those of `DefinitionsFrom`.
     */
    method ParseDefinitions() returns (r: Result<seq<Syntax>>)
      requires reader.Valid()
      modifies reader
      ensures reader.Valid() && old(reader.index) <= reader.index
      ensures r.Err? ==> r == Err(Fatal) && DefinitionsFrom(reader.tokens, old(reader.index)).result.Err?
      ensures r.Ok? ==> DefinitionsFrom(reader.tokens, old(reader.index)) == Produced(r.value, reader.index)
      decreases |reader.tokens| - reader.index, 5
    {
      var definitions: seq<Syntax> := [];
      ghost var all := DefinitionsFrom(reader.tokens, reader.index);
      assert all.Yields() ==> [] + all.Tree() == all.Tree();
      while !Match("rightcurly")
        invariant reader.Valid() && old(reader.index) <= reader.index
        invariant all.result.Err? <==> DefinitionsFrom(reader.tokens, reader.index).result.Err?
        invariant DefinitionsFrom(reader.tokens, reader.index).Yields() ==>
          all == Produced(definitions + DefinitionsFrom(reader.tokens, reader.index).Tree(), DefinitionsFrom(reader.tokens, reader.index).next)
        decreases |reader.tokens| - reader.index
      {
        var definition :- ParseNextDefinition();
        ghost var rest := DefinitionsFrom(reader.tokens, reader.index);
        assert rest.Yields() ==> definitions + ([definition] + rest.Tree()) == definitions + [definition] + rest.Tree();
        definitions := definitions + [definition];
      }
      assert DefinitionsFrom(reader.tokens, reader.index) == Produced([], reader.index);
      assert definitions + [] == definitions;
      return Ok(definitions);
    }

    /**
     * One definition inside a flat list, where no `}` is current: an EOF, or a
     * token that starts no definition, fails. On success the definitions from the
     * old cursor are this one followed by those from the new cursor.
     */
    method ParseNextDefinition() returns (r: Result<Syntax>)
      requires reader.Valid() && !At(reader.index, "rightcurly")
      modifies reader
      ensures reader.Valid() && old(reader.index) <= reader.index
      ensures r.Err? ==> r == Err(Fatal) && DefinitionsFrom(reader.tokens, old(reader.index)).result.Err?
      ensures r.Ok? ==> reader.index > old(reader.index) && IsFlatDefinition(r.value)
      ensures r.Ok? ==> (DefinitionsFrom(reader.tokens, old(reader.index)).result.Err? <==> DefinitionsFrom(reader.tokens, reader.index).result.Err?)
      ensures r.Ok? && DefinitionsFrom(reader.tokens, reader.index).Yields() ==>
        DefinitionsFrom(reader.tokens, old(reader.index))
          == Produced([r.value] + DefinitionsFrom(reader.tokens, reader.index).Tree(), DefinitionsFrom(reader.tokens, reader.index).next)
      decreases |reader.tokens| - reader.index, 4
    {
      if Match("EOF") {
        return Err(Fatal);
      }
      var definition :- ParseFlatDefinition();
      if definition.None? {
        return Err(Fatal);
      }
      return Ok(definition.value);
    }

    /**
     * A special tag, or `[type] name = value;` / `[type] name += value;`. The
     * type tokens are consumed even when no name follows them.
     */
    method ParseFlatDefinition() returns (r: Result<Option<Syntax>>)
      requires reader.Valid()
      modifies reader
      ensures reader.Valid() && old(reader.index) <= reader.index
      ensures Agrees(r, reader.index, FlatDefinitionFrom(reader.tokens, old(reader.index)))
      decreases |reader.tokens| - reader.index, 3
    {
      var tag :- ParseSpecialTag();
      if tag.Some? {
        return Ok(tag);
      }
      var flatType :- ParseFlatType();
      r := ParseNamedDefinition(flatType);
    }

    /** The name, operator, value and `;` of a flat definition whose optional type is already read. */
    method ParseNamedDefinition(flatType: Option<Syntax>) returns (r: Result<Option<Syntax>>)
      requires reader.Valid()
      requires flatType.Some? ==> IsFlatType(flatType.value)
      modifies reader
      ensures reader.Valid() && old(reader.index) <= reader.index
      ensures Agrees(r, reader.index, NamedDefinitionFrom(reader.tokens, old(reader.index), flatType))
      decreases |reader.tokens| - reader.index, 2
    {
      if !Match("identifier") {
        return Ok(None);
      }
      var name := reader.Consume();
      if !MatchAny(OperatorTypes) {
        return Err(Fatal);
      }
      var operator := reader.Consume();
      var value :- ParseFlatValue();
      var semicolon :- reader.ConsumeExpected("semicolon");
      if value.None? {
        return Err(Fatal);
      }
      return Ok(Some(FlatDefinitionNode(name.val, flatType, operator.typ, value.value)));
    }

    /** A string, number, boolean, identifier, inline record, vector or value list. */
    method ParseFlatValue() returns (r: Result<Option<Syntax>>)
      requires reader.Valid()
      modifies reader
      ensures reader.Valid() && old(reader.index) <= reader.index
      ensures Agrees(r, reader.index, FlatValueFrom(reader.tokens, old(reader.index)))
      ensures r == Ok(None) ==> reader.index == old(reader.index)
      ensures r.Ok? && r.value.Some? ==> (reader.index > old(reader.index) && IsValue(r.value.value))
      decreases |reader.tokens| - reader.index, 2
    {
      if Match("string") {
        var t := reader.Consume();
        return Ok(Some(Leaf("value-string", t.val)));
      } else if Match("number-integer") {
        var t := reader.Consume();
        return Ok(Some(Leaf("value-number-integer", t.val)));
      } else if Match("number-float") {
        var t := reader.Consume();
        return Ok(Some(Leaf("value-number-float", t.val)));
      } else if MatchAny(BooleanKeywords) {
        var t := reader.Consume();
        BooleanKeywordWord(t.typ);
        return Ok(Some(Leaf("value-boolean", KeywordWord(t.typ))));
      } else if Match("identifier") {
        var t := reader.Consume();
        return Ok(Some(Leaf("value-identifier", t.val)));
      }
      var inline :- ParseFlatList();
      if inline.Some? {
        var inheritance :- ParseRecordInheritance();
        if inheritance.Some? {
          return Ok(Some(Node("value-foreignkey", inheritance.value.value, [inline.value, inheritance.value])));
        }
        return Ok(Some(Node("value-inline", Some(""), [inline.value])));
      }
      var vector :- ParseVector();
      if vector.Some? {
        return Ok(vector);
      }
      var list :- ParseFlatValueList();
      if list.Some? {
        return Ok(list);
      }
      return Ok(None);
    }

    /** A single type, followed by `[]` for an array type. */
    method ParseFlatType() returns (r: Result<Option<Syntax>>)
      requires reader.Valid()
      modifies reader
      ensures reader.Valid() && old(reader.index) <= reader.index
      ensures Agrees(r, reader.index, FlatTypeFrom(reader.tokens, old(reader.index)))
      ensures r == Ok(None) ==> reader.index == old(reader.index)
      ensures r.Ok? && r.value.Some? ==> (reader.index > old(reader.index) && IsFlatType(r.value.value))
    {
      var single :- ParseFlatSingleType();
      if single.None? {
        return Ok(None);
      }
      if Match("leftsquare") {
        var leftsquare := reader.Consume();
        var rightsquare :- reader.ConsumeExpected("rightsquare");
        return Ok(Some(Node("flat-type", Some("array"), [single.value])));
      }
      return Ok(single);
    }

    /** `fk<Record>`, or one of the primitive type keywords. */
    method ParseFlatSingleType() returns (r: Result<Option<Syntax>>)
      requires reader.Valid()
      modifies reader
      ensures reader.Valid() && old(reader.index) <= reader.index
      ensures Agrees(r, reader.index, SingleTypeFrom(reader.tokens, old(reader.index)))
      ensures r == Ok(None) <==> !At(old(reader.index), "keyword-fk") && !exists typ :: typ in PrimitiveTypeKeywords && At(old(reader.index), typ)
      ensures r == Ok(None) ==> reader.index == old(reader.index)
      ensures r.Ok? && r.value.Some? ==> (reader.index > old(reader.index) && IsSingleFlatType(r.value.value))
    {
      if Match("keyword-fk") {
        var fk := reader.Consume();
        var leftangle :- reader.ConsumeExpected("leftangle");
        var target :- reader.ConsumeExpected("identifier");
        var rightangle :- reader.ConsumeExpected("rightangle");
        return Ok(Some(Node("flat-type", Some("foreignkey"), [Leaf("foreignkey-type", target.val)])));
      }
      if MatchAny(PrimitiveTypeKeywords) {
        var t := reader.Consume();
        PrimitiveTypeKeywordWord(t.typ);
        return Ok(Some(Leaf("flat-type", KeywordWord(t.typ))));
      }
      return Ok(None);
    }

    /**
     * `( x, y )` with optionally a third and a fourth component. The component
     * tokens are read with `ConsumeExpectedChoice`, which takes any token.
     */
    method ParseVector() returns (r: Result<Option<Syntax>>)
      requires reader.Valid()
      modifies reader
      ensures reader.Valid() && old(reader.index) <= reader.index
      ensures Agrees(r, reader.index, VectorFrom(reader.tokens, old(reader.index)))
      ensures r == Ok(None) <==> !At(old(reader.index), "leftbracket")
      ensures r == Ok(None) ==> reader.index == old(reader.index)
    {
      if !Match("leftbracket") {
        return Ok(None);
      }
      var leftbracket := reader.Consume();
      // The list is not empty, so `ConsumeExpectedChoice` hands out a token.
      var x := reader.ConsumeExpectedChoice(NumberTypes);
      var comma :- reader.ConsumeExpected("comma");
      var y := reader.ConsumeExpectedChoice(NumberTypes);
      var z := ParseMoreComponent();
      var a := ParseMoreComponent();
      var rightbracket :- reader.ConsumeExpected("rightbracket");
      return Ok(Some(VectorNode(x.value.val, y.value.val, z, a)));
    }

    /** An optional further vector component `, n`: its text, or nothing when no comma is current. */
    method ParseMoreComponent() returns (c: Option<string>)
      requires reader.Valid()
      modifies reader
      ensures reader.Valid()
      ensures (c, reader.index) == MoreComponentFrom(reader.tokens, old(reader.index))
    {
      if !Match("comma") {
        return None;
      }
      var comma := reader.ConsumeExpected("comma");
      // The list is not empty, so `ConsumeExpectedChoice` hands out a token.
      var t := reader.ConsumeExpectedChoice(NumberTypes);
      return Some(t.value.val);
    }

    /** `[ values ]`; the list may be empty. */
    method ParseFlatValueList() returns (r: Result<Option<Syntax>>)
      requires reader.Valid()
      modifies reader
      ensures reader.Valid() && old(reader.index) <= reader.index
      ensures Agrees(r, reader.index, ValueListFrom(reader.tokens, old(reader.index)))
      ensures r == Ok(None) <==> !At(old(reader.index), "leftsquare")
      ensures r == Ok(None) ==> reader.index == old(reader.index)
      ensures r.Ok? && r.value.Some? ==> (reader.index > old(reader.index) && IsValue(r.value.value)
        && r.value.value.typ == "value-list")
      decreases |reader.tokens| - reader.index, 1
    {
      if !Match("leftsquare") {
        return Ok(None);
      }
      var leftsquare := reader.Consume();
      var values :- ParseFlatValueListValue();
      var rightsquare :- reader.ConsumeExpected("rightsquare");
      var elements := if values.Some? then values.value else [];
      return Ok(Some(Node("value-list", Some(""), elements)));
    }

    /** One or more values separated by commas; a comma with no value after it fails. */
    method ParseFlatValueListValue() returns (r: Result<Option<seq<Syntax>>>)
      requires reader.Valid()
      modifies reader
      ensures reader.Valid() && old(reader.index) <= reader.index
      ensures Agrees(r, reader.index, ValuesFrom(reader.tokens, old(reader.index)))
      ensures r == Ok(None) ==> reader.index == old(reader.index)
      ensures r.Ok? && r.value.Some? ==> (reader.index > old(reader.index) && |r.value.value| >= 1
        && forall k :: 0 <= k < |r.value.value| ==> IsValue(r.value.value[k]))
      decreases |reader.tokens| - reader.index, 3
    {
      var value :- ParseFlatValue();
      if value.None? {
        return Ok(None);
      }
      var values := [value.value];
      if Match("comma") {
        var comma := reader.Consume();
        var others :- ParseFlatValueListValue();
        if others.None? {
          return Err(Fatal);
        }
        values := values + others.value;
      }
      return Ok(Some(values));
    }

    /** `[ Tag ]` among the definitions of a flat list. */
    method ParseSpecialTag() returns (r: Result<Option<Syntax>>)
      requires reader.Valid()
      modifies reader
      ensures reader.Valid() && old(reader.index) <= reader.index
      ensures Agrees(r, reader.index, SpecialTagFrom(reader.tokens, old(reader.index)))
      ensures r == Ok(None) <==> !At(old(reader.index), "leftsquare")
      ensures r == Ok(None) ==> reader.index == old(reader.index)
      ensures r.Ok? && r.value.Some? ==> (reader.index > old(reader.index)
        && reader.tokens[old(reader.index) + 1].typ == "identifier"
        && r.value.value == Leaf("special-tag", reader.tokens[old(reader.index) + 1].val))
    {
      if !Match("leftsquare") {
        return Ok(None);
      }
      var leftsquare := reader.Consume();
      var tag :- reader.ConsumeExpected("identifier");
      var rightsquare :- reader.ConsumeExpected("rightsquare");
      return Ok(Some(Leaf("special-tag", tag.val)));
    }
  }
}
