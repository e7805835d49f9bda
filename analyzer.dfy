/**
 * The semantic tree builder. A parsed file becomes semantic nodes: records
 * with their flats, flats with their values, values with their inline flats
 * or array elements. The decisions are pure functions from syntax to a node
 * tree (`Tree`); `Materialize` allocates such a tree in the arena, and
 * `Analyze` builds a whole file, attaches it to a new root and registers its
 * records and top-level flats in the global registry.
 */
module Analysis {
  import opened Wrappers
  import opened SyntaxTree
  import opened Names
  import opened SemanticNodes
  import opened Registry
  import SetSizes

  // ---------------------------------------------------------------------------
  // Type names

  /**
   * The type a declaration keyword or a value node type stands for; an absent
   * name is unresolved and an unknown one is an error.
   */
  function StringToFlatType(s: Option<string>): (r: Result<FlatType>)
    ensures s.None? ==> r == Ok(Unresolved)
    ensures r.Ok? && s.Some? ==> r.value != Unresolved
  {
    if s.None? then Ok(Unresolved)
    else
      var n := s.value;
      if n == "foreignkey" || n == "value-foreignkey" then Ok(ForeignKey)
      else if n == "string" || n == "value-string" then Ok(String)
      else if n == "int" || n == "value-number-integer" then Ok(Integer)
      else if n == "float" || n == "value-number-float" then Ok(Float)
      else if n == "bool" || n == "value-boolean" then Ok(Boolean)
      else if n == "CName" then Ok(CName)
      else if n == "Vector2" || n == "value-vector" then Ok(Vector2)
      else if n == "Vector3" || n == "value-vector3" then Ok(Vector3)
      else if n == "Vector4" || n == "value-vector4" then Ok(Vector4)
      else if n == "LocKey" then Ok(LocKey)
      else if n == "ResRef" then Ok(ResRef)
      else if n == "EulerAngles" then Ok(EulerAngles)
      else if n == "Quaternion" then Ok(Quaternion)
      else if n == "value-identifier" then Ok(Identifier)
      else if n == "value-inline" then Ok(InlineRecord)
      else Err(Fatal)
  }

  /** The keyword that declares a flat of type `t`, for the types a declaration can name. */
  function DeclarationKeyword(t: FlatType): Option<string> {
    match t
    case ForeignKey => Some("foreignkey")
    case String => Some("string")
    case Integer => Some("int")
    case Float => Some("float")
    case Boolean => Some("bool")
    case CName => Some("CName")
    case Vector2 => Some("Vector2")
    case Vector3 => Some("Vector3")
    case Vector4 => Some("Vector4")
    case LocKey => Some("LocKey")
    case ResRef => Some("ResRef")
    case EulerAngles => Some("EulerAngles")
    case Quaternion => Some("Quaternion")
    case _ => None
  }

  /** The syntax node type the parser gives a literal value of type `t`, for the types a literal can have. */
  function ValueNodeType(t: FlatType): Option<string> {
    match t
    case ForeignKey => Some("value-foreignkey")
    case String => Some("value-string")
    case Integer => Some("value-number-integer")
    case Float => Some("value-number-float")
    case Boolean => Some("value-boolean")
    case Vector2 => Some("value-vector")
    case Vector3 => Some("value-vector3")
    case Vector4 => Some("value-vector4")
    case Identifier => Some("value-identifier")
    case InlineRecord => Some("value-inline")
    case _ => None
  }

  /** Declaration keywords read back as the type they were written for. */
  lemma KeywordRoundTrip(t: FlatType)
    ensures DeclarationKeyword(t).Some? ==> StringToFlatType(DeclarationKeyword(t)) == Ok(t)
  {
    match t
    case _ =>
  }

  /** Value node types read back as the type of the literal. */
  lemma ValueNodeTypeRoundTrip(t: FlatType)
    ensures ValueNodeType(t).Some? ==> StringToFlatType(ValueNodeType(t)) == Ok(t)
  {
    match t
    case _ =>
  }

  /** Every name that is recognised is the keyword or the value node type of the type it gives. */
  lemma TypeNamesRecognised(s: string, t: FlatType)
    requires StringToFlatType(Some(s)) == Ok(t)
    ensures DeclarationKeyword(t) == Some(s) || ValueNodeType(t) == Some(s)
  {
    match t
    case _ =>
  }

  // ---------------------------------------------------------------------------
  // Names

  /** The package a dotted name starts with; empty for an absent, undotted or over-dotted name. */
  function StaticPackageName(name: Option<string>): (r: string)
    ensures name.None? ==> r == ""
    ensures name.Some? && '.' !in name.value ==> r == ""
    ensures name.Some? && Count(name.value, '.') >= 2 ==> r == ""
    ensures forall p, n :: name == Some(p + "." + n) && '.' !in p && '.' !in n ==> r == p
  {
    if name.None? || '.' !in name.value then ""
    else
      var ids := Split(name.value, '.');
      SplitCount(name.value, '.');
      CountZero(name.value, '.');
      QualifiedPieces(name.value);
      if |ids| > 2 then "" else ids[0]
  }

  /** A record name qualified by the file's package unless it is dotted already or the file has no package. */
  function FullySpecifiedName(name: Option<string>, ctx: PackageContext): (r: Option<string>)
    ensures name.None? ==> r.None?
    ensures name.Some? && '.' in name.value ==> r == name
    ensures name.Some? && '.' !in name.value && ctx.name.Some? ==> r == Some(ctx.name.value + "." + name.value)
    ensures name.Some? && '.' !in name.value && ctx.name.None? ==> r == name
  {
    if name.None? then None
    else if '.' in name.value then name
    else if ctx.name.Some? then Some(ctx.name.value + "." + name.value)
    else name
  }

  /**
   * An undotted record name, specified in a file with an undotted package
   * name, is declared into that package, and its base name as written is the
   * package name.
   */
  lemma FullySpecifiedNameDeclaresIntoFilePackage(n: string, ctx: PackageContext)
    requires '.' !in n && ctx.name.Some? && '.' !in ctx.name.value
    ensures DeclarationPackageName(FullySpecifiedName(Some(n), ctx), ctx) == Ok(ctx.name)
    ensures BaseName(FullySpecifiedName(Some(n), ctx)) == Ok(ctx.name)
  {
    DeclarationPackageQualified(ctx.name.value, n, ctx);
  }

  // ---------------------------------------------------------------------------
  // Element types of value lists

  /** The types of the elements of a value list, by their syntax node types. */
  function ElementTypes(cs: seq<Syntax>): (r: Result<seq<FlatType>>)
    ensures r.Ok? ==> |r.value| == |cs|
    ensures r.Ok? ==> forall k :: 0 <= k < |cs| ==> StringToFlatType(Some(cs[k].typ)) == Ok(r.value[k])
    ensures r.Err? <==> exists k :: 0 <= k < |cs| && StringToFlatType(Some(cs[k].typ)).Err?
  {
    if |cs| == 0 then Ok([])
    else
      var t :- StringToFlatType(Some(cs[0].typ));
      var rest := ElementTypes(cs[1..]);
      if rest.Err? then
        var k :| 0 <= k < |cs[1..]| && StringToFlatType(Some(cs[1..][k].typ)).Err?;
        assert cs[1..][k] == cs[k + 1];
        Err(Fatal)
      else
        Ok([t] + rest.value)
  }

  /** The types a list may mix when it holds references: strings, foreign keys and inline records. */
  const ReferenceTypes: set<FlatType> := {String, ForeignKey, InlineRecord}

  /** The types a list may mix when it holds numbers. */
  const NumericTypes: set<FlatType> := {Integer, Float}

  /**
   * The type and foreign-key name of a list whose elements have types `ts`.
   * An empty list is unresolved and a uniform list has its elements' type.
   * Mixed lists are allowed only within the reference types or within the
   * numeric types: a mix with a foreign key is a foreign key named after the
   * first `value-foreignkey` element, a numeric mix is a float, and strings
   * mixed with inline records are a foreign key without a name.
   */
  function ListType(ts: seq<FlatType>, cs: seq<Syntax>): (r: Result<(FlatType, Option<string>)>)
    requires |ts| == |cs|
  {
    var types := set t | t in ts;
    if |types| > 1 then
      if !(types <= ReferenceTypes || types <= NumericTypes) then Err(Fatal)
      else if ForeignKey in types then
        var fk := FirstOfType(cs, "value-foreignkey");
        if fk.None? then Err(Fatal) else Ok((ForeignKey, fk.value.value))
      else if Float in types then Ok((Float, None))
      else Ok((ForeignKey, None))
    else if |types| == 0 then Ok((Unresolved, None))
    else Ok((ts[0], None))
  }

  /** An empty list is unresolved; a list of one type has that type. */
  lemma ListTypeUniform(ts: seq<FlatType>, cs: seq<Syntax>, t: FlatType)
    requires |ts| == |cs|
    requires forall k :: 0 <= k < |ts| ==> ts[k] == t
    ensures |ts| == 0 ==> ListType(ts, cs) == Ok((Unresolved, None))
    ensures |ts| > 0 ==> ListType(ts, cs) == Ok((t, None))
  {
    var types := set u | u in ts;
    if |ts| > 0 {
      assert ts[0] in types;
      assert types == {t};
    } else {
      assert types == {};
    }
  }

  /**
   * A list mixing two or more types is accepted exactly when they are all
   * reference types or all numeric types, and then it has the foreign-key or
   * float type.
   */
  lemma ListTypeMixed(ts: seq<FlatType>, cs: seq<Syntax>, j: nat, k: nat)
    requires |ts| == |cs| && j < |ts| && k < |ts| && ts[j] != ts[k]
    ensures var types := set t | t in ts;
      ListType(ts, cs).Ok? ==> types <= ReferenceTypes || types <= NumericTypes
    ensures var types := set t | t in ts;
      types <= NumericTypes ==> ListType(ts, cs) == Ok((Float, None))
    ensures var types := set t | t in ts;
      types <= ReferenceTypes && ForeignKey !in types ==> ListType(ts, cs) == Ok((ForeignKey, None))
    ensures var types := set t | t in ts;
      var fk := FirstOfType(cs, "value-foreignkey");
      types <= ReferenceTypes && ForeignKey in types ==>
        ListType(ts, cs) == (if fk.Some? then Ok((ForeignKey, fk.value.value)) else Err(Fatal))
    ensures ListType(ts, cs).Ok? ==> ListType(ts, cs).value.0 in {ForeignKey, Float}
  {
    var types := set t | t in ts;
    assert ts[j] in types && ts[k] in types;
    assert {ts[j], ts[k]} <= types;
    assert |{ts[j], ts[k]}| == 2;
    SubsetSizeOf(types, ts[j], ts[k]);
  }

  lemma SubsetSizeOf(types: set<FlatType>, a: FlatType, b: FlatType)
    requires a in types && b in types && a != b
    ensures |types| > 1
  {
    SetSizes.SubsetSize({a, b}, types);
  }

  // ---------------------------------------------------------------------------
  // The node trees the builder produces

  /** A semantic subtree as the builder leaves it: no resolved references yet, no parent links. */
  datatype Tree =
    | TRecord(recordName: Option<string>, isGroup: bool, inheritedFrom: Option<string>, ctx: PackageContext, flats: seq<Tree>)
    | TFlat(name: string, flatType: FlatType, isArray: bool, op: OperatorType, fkName: Option<string>,
            ctx: PackageContext, value: Tree)
    | TValue(valueType: FlatType, isArray: bool, syntaxNodes: seq<Syntax>, fkName: Option<string>, children: seq<Tree>)

  /** Records hold flats, flats hold values, all the way down. */
  predicate KindsFit(t: Tree) {
    match t
    case TRecord(_, _, _, _, flats) => forall k :: 0 <= k < |flats| ==> flats[k].TFlat? && KindsFit(flats[k])
    case TFlat(_, _, _, _, _, _, v) => v.TValue? && KindsFit(v)
    case TValue(_, _, _, _, cs) => forall k :: 0 <= k < |cs| ==> KindsFit(cs[k])
  }

  /** The children of the syntax nodes `cs` whose type is `typ`, in order. */
  function OfType(cs: seq<Syntax>, typ: string): (r: seq<Syntax>)
    ensures forall s :: s in r ==> s in cs && s.typ == typ
    ensures forall s :: s in cs && s.typ == typ ==> s in r
  {
    if |cs| == 0 then []
    else (if cs[0].typ == typ then [cs[0]] else []) + OfType(cs[1..], typ)
  }

  /** The value a value syntax node denotes, with its inline flats or its array elements. */
  function AnalyzeValue(s: Syntax, ctx: PackageContext): (r: Result<Tree>)
    ensures r.Ok? ==> r.value.TValue? && KindsFit(r.value) && r.value.syntaxNodes == [s]
    ensures r.Ok? ==> r.value.isArray == (s.typ == "value-list")
    ensures s.typ != "value-list" ==> (r.Ok? ==> StringToFlatType(Some(s.typ)) == Ok(r.value.valueType))
    ensures s.typ != "value-list" && r.Ok? && r.value.valueType in {InlineRecord, ForeignKey} ==>
      FirstOfType(s.children, "flat-list").Some? &&
      AnalyzeFlatList(FirstOfType(s.children, "flat-list").value, 0, ctx) == Ok(r.value.children)
    ensures s.typ != "value-list" && r.Ok? ==>
      r.value.fkName == (if r.value.valueType == ForeignKey then s.value else None)
    ensures s.typ != "value-list" && r.Ok? && r.value.valueType !in {InlineRecord, ForeignKey} ==> r.value.children == []
    ensures s.typ in {"value-inline", "value-foreignkey"} && FirstOfType(s.children, "flat-list").None? ==> r.Err?
    decreases s, |s.children| + 1
  {
    if s.typ == "value-list" then
      var ts :- ElementTypes(s.children);
      var lt :- ListType(ts, s.children);
      var elems :- AnalyzeElements(s, 0, ctx);
      Ok(TValue(lt.0, true, [s], lt.1, elems))
    else
      var t :- StringToFlatType(Some(s.typ));
      if t == InlineRecord || t == ForeignKey then
        var fl := FirstOfType(s.children, "flat-list");
        if fl.None? then Err(Fatal)
        else
          var flats :- AnalyzeFlatList(fl.value, 0, ctx);
          Ok(TValue(t, false, [s], if t == ForeignKey then s.value else None, flats))
      else
        Ok(TValue(t, false, [s], None, []))
  }

  /** The elements of a value list from position `k` on. */
  function AnalyzeElements(s: Syntax, k: nat, ctx: PackageContext): (r: Result<seq<Tree>>)
    requires k <= |s.children|
    ensures r.Ok? ==> |r.value| == |s.children| - k
    ensures r.Ok? ==> forall j :: 0 <= j < |r.value| ==> r.value[j].TValue? && KindsFit(r.value[j])
    decreases s, |s.children| - k
  {
    if k >= |s.children| then Ok([])
    else
      var v := AnalyzeValue(s.children[k], ctx);
      if v.Err? then Err(v.error)
      else
        var rest := AnalyzeElements(s, k + 1, ctx);
        if rest.Err? then Err(rest.error) else Ok([v.value] + rest.value)
  }

  /** A successful analysis of the elements from `k` on is that of element `k`, then those after it. */
  lemma ElementsCons(s: Syntax, k: nat, ctx: PackageContext)
    requires k < |s.children| && AnalyzeElements(s, k, ctx).Ok?
    ensures AnalyzeValue(s.children[k], ctx).Ok? && AnalyzeElements(s, k + 1, ctx).Ok?
    ensures AnalyzeValue(s.children[k], ctx) == Ok(AnalyzeElements(s, k, ctx).value[0])
    ensures AnalyzeElements(s, k, ctx).value[1..] == AnalyzeElements(s, k + 1, ctx).value
  {
  }

  /** The elements from position `m` on are the tail, from `m - k`, of those from `k` on. */
  lemma {:induction false} ElementsSuffix(s: Syntax, k: nat, ctx: PackageContext, m: nat)
    requires k <= m <= |s.children| && AnalyzeElements(s, k, ctx).Ok?
    ensures AnalyzeElements(s, m, ctx).Ok? && AnalyzeElements(s, k, ctx).value[m - k..] == AnalyzeElements(s, m, ctx).value
    decreases m - k
  {
    if k < m {
      ElementsCons(s, k, ctx);
      ElementsSuffix(s, k + 1, ctx, m);
      var all := AnalyzeElements(s, k, ctx).value;
      assert all[m - k..] == all[1..][m - (k + 1)..];
    }
  }

  /** Element `j` of a value list, from position `k` on, is the analysis of the list's `j`th value. */
  lemma ElementAnalyzed(s: Syntax, k: nat, ctx: PackageContext, j: nat)
    requires k <= j < |s.children| && AnalyzeElements(s, k, ctx).Ok?
    ensures AnalyzeValue(s.children[j], ctx) == Ok(AnalyzeElements(s, k, ctx).value[j - k])
  {
    ElementsSuffix(s, k, ctx, j);
    ElementsCons(s, j, ctx);
    var all := AnalyzeElements(s, k, ctx).value;
    assert all[j - k] == all[j - k..][0];
  }

  /** So every element of a value list, from position `k` on, is the analysis of its value. */
  lemma ElementsAnalyzed(s: Syntax, k: nat, ctx: PackageContext)
    requires k <= |s.children| && AnalyzeElements(s, k, ctx).Ok?
    ensures forall j :: k <= j < |s.children| ==> AnalyzeValue(s.children[j], ctx) == Ok(AnalyzeElements(s, k, ctx).value[j - k])
  {
    forall j | k <= j < |s.children|
      ensures AnalyzeValue(s.children[j], ctx) == Ok(AnalyzeElements(s, k, ctx).value[j - k])
    {
      ElementAnalyzed(s, k, ctx, j);
    }
  }

  /**
   * An analysed value list has the type and foreign-key name `ListType`
   * gives its elements' types, and its elements are its values analysed one
   * by one, in order.
   */
  lemma ListValueAnalyzed(s: Syntax, ctx: PackageContext)
    requires s.typ == "value-list" && AnalyzeValue(s, ctx).Ok?
    ensures ElementTypes(s.children).Ok?
    ensures ListType(ElementTypes(s.children).value, s.children)
         == Ok((AnalyzeValue(s, ctx).value.valueType, AnalyzeValue(s, ctx).value.fkName))
    ensures |AnalyzeValue(s, ctx).value.children| == |s.children|
    ensures forall j :: 0 <= j < |s.children| ==> AnalyzeValue(s.children[j], ctx) == Ok(AnalyzeValue(s, ctx).value.children[j])
  {
    ElementsAnalyzed(s, 0, ctx);
  }

  /** The flats of a flat list from position `k` on; special tags give none. */
  function AnalyzeFlatList(fl: Syntax, k: nat, ctx: PackageContext): (r: Result<seq<Tree>>)
    requires k <= |fl.children|
    ensures r.Ok? ==> forall j :: 0 <= j < |r.value| ==> r.value[j].TFlat? && KindsFit(r.value[j])
    ensures r.Ok? ==> |r.value| <= |fl.children| - k
    decreases fl, |fl.children| - k
  {
    if k >= |fl.children| then Ok([])
    else
      var f :- AnalyzeFlatDefinition(fl.children[k], ctx);
      var rest :- AnalyzeFlatList(fl, k + 1, ctx);
      Ok((if f.Some? then [f.value] else []) + rest)
  }

  /**
   * The declared type of a flat, whether it is an array, and its foreign-key
   * target name, from its optional `flat-type` node.
   */
  function DeclaredType(typeNode: Option<Syntax>): (r: Result<(FlatType, bool, Option<string>)>)
    ensures typeNode.None? ==> r == Ok((Unresolved, false, None))
    ensures r.Ok? && r.value.0 != ForeignKey ==> r.value.2.None?
    ensures r.Ok? && typeNode.Some? ==> r.value.1 == (typeNode.value.ValueOrEmpty() == "array")
  {
    if typeNode.None? then Ok((Unresolved, false, None))
    else
      var n := typeNode.value;
      if n.ValueOrEmpty() == "array" then
        var sub := FirstOfType(n.children, "flat-type");
        if sub.None? then Err(Fatal)
        else
          var t :- StringToFlatType(sub.value.value);
          if t != ForeignKey then Ok((t, true, None))
          else
            var target := FirstOfType(sub.value.children, "foreignkey-type");
            if target.None? then Err(Fatal) else Ok((t, true, target.value.value))
      else
        var t :- StringToFlatType(n.value);
        if t != ForeignKey then Ok((t, false, None))
        else
          var target := FirstOfType(n.children, "foreignkey-type");
          if target.None? then Err(Fatal) else Ok((t, false, target.value.value))
  }

  /** The operator a flat definition's `operation` node names. */
  function OperatorOf(opNode: Option<Syntax>): (r: Result<OperatorType>)
    ensures r.Ok? <==> opNode.Some? && (opNode.value.value == Some("append") || opNode.value.value == Some("assign"))
    ensures r == Ok(Append) <==> opNode.Some? && opNode.value.value == Some("append")
  {
    if opNode.None? || opNode.value.value.None? then Err(Fatal)
    else if opNode.value.value.value == "append" then Ok(Append)
    else if opNode.value.value.value == "assign" then Ok(Assign)
    else Err(Fatal)
  }

  /**
   * The flat a flat definition denotes: its declared type, its name, its
   * operator and its value, in the file's context. Special tags denote none.
   */
  function AnalyzeFlatDefinition(s: Syntax, ctx: PackageContext): (r: Result<Option<Tree>>)
    ensures s.typ == "special-tag" ==> r == Ok(None)
    ensures s.typ != "special-tag" && r.Ok? ==> r.value.Some?
    ensures r.Ok? && r.value.Some? ==> r.value.value.TFlat? && KindsFit(r.value.value) && r.value.value.ctx == ctx
    ensures r.Ok? && r.value.Some? ==> (
      DeclaredType(FirstOfType(s.children, "flat-type")).Ok? &&
      DeclaredType(FirstOfType(s.children, "flat-type")).value ==
        (r.value.value.flatType, r.value.value.isArray, r.value.value.fkName))
    ensures r.Ok? && r.value.Some? ==> (
      FirstOfType(s.children, "name").Some? &&
      FirstOfType(s.children, "name").value.value == Some(r.value.value.name))
    ensures r.Ok? && r.value.Some? ==> OperatorOf(FirstOfType(s.children, "operation")) == Ok(r.value.value.op)
    ensures r.Ok? && r.value.Some? ==>
      FirstWithTypePrefix(s.children, "value-").Some? &&
      AnalyzeValue(FirstWithTypePrefix(s.children, "value-").value, ctx) == Ok(r.value.value.value)
    ensures s.typ != "special-tag" && (FirstOfType(s.children, "name").None? || FirstOfType(s.children, "name").value.value.None?) ==> r.Err?
    ensures s.typ != "special-tag" && OperatorOf(FirstOfType(s.children, "operation")).Err? ==> r.Err?
    ensures s.typ != "special-tag" && FirstWithTypePrefix(s.children, "value-").None? ==> r.Err?
    decreases s, 0
  {
    if s.typ == "special-tag" then Ok(None)
    else
      var declared :- DeclaredType(FirstOfType(s.children, "flat-type"));
      var nameNode := FirstOfType(s.children, "name");
      if nameNode.None? || nameNode.value.value.None? then Err(Fatal)
      else
        var op :- OperatorOf(FirstOfType(s.children, "operation"));
        var valueNode := FirstWithTypePrefix(s.children, "value-");
        if valueNode.None? then Err(Fatal)
        else
          var v :- AnalyzeValue(valueNode.value, ctx);
          Ok(Some(TFlat(nameNode.value.value.value, declared.0, declared.1, op, declared.2, ctx, v)))
  }

  /**
   * The record a record syntax node denotes. Without an inheritance clause
   * the record must be named unless it is top-level, its name is qualified by
   * the file's package, and it is a group unless it is a top-level record of
   * package RTDB whose own name does not say RTDB. With one inheritance clause
   * it keeps its name as written; two clauses are an error.
   */
  function AnalyzeRecord(s: Syntax, ctx: PackageContext, isTopLevel: bool): (r: Result<Tree>)
    ensures r.Ok? ==> r.value.TRecord? && KindsFit(r.value) && r.value.ctx == ctx
    ensures |OfType(s.children, "record-inheritance")| > 1 ==> r.Err?
    ensures |OfType(s.children, "record-inheritance")| == 0 && s.value.None? && !isTopLevel ==> r.Err?
    ensures r.Ok? && |OfType(s.children, "record-inheritance")| == 0 ==> (
      r.value.recordName == FullySpecifiedName(s.value, ctx) && r.value.inheritedFrom.None?)
    ensures r.Ok? && |OfType(s.children, "record-inheritance")| == 1 ==> (
      r.value.recordName == s.value && !r.value.isGroup &&
      r.value.inheritedFrom == OfType(s.children, "record-inheritance")[0].value)
  {
    var inheritance := OfType(s.children, "record-inheritance");
    if |inheritance| > 1 then Err(Fatal)
    else if |inheritance| == 0 && s.value.None? && !isTopLevel then Err(Fatal)
    else
      var name := if |inheritance| == 0 then FullySpecifiedName(s.value, ctx) else s.value;
      var parent := if |inheritance| == 0 then None else inheritance[0].value;
      var isGroup := |inheritance| == 0 &&
        (!(isTopLevel && ctx.name == Some("RTDB")) || StaticPackageName(s.value) == "RTDB");
      var fl := FirstOfType(s.children, "flat-list");
      var flats :- if fl.None? then Ok([]) else AnalyzeFlatList(fl.value, 0, ctx);
      Ok(TRecord(name, isGroup, parent, ctx, flats))
  }

  /** As the builder calls it (never as top-level), every record without an inheritance clause is a group. */
  lemma ParentlessRecordsAreGroups(s: Syntax, ctx: PackageContext)
    requires AnalyzeRecord(s, ctx, false).Ok?
    ensures |OfType(s.children, "record-inheritance")| == 0 ==> AnalyzeRecord(s, ctx, false).value.isGroup
  {
  }

  // ---------------------------------------------------------------------------
  // Trees in the arena

  /** Every node's children sit below it. */
  predicate Ordered(nodes: seq<Node>) {
    forall i :: 0 <= i < |nodes| ==> forall c :: c in Children(nodes[i]) ==> c < i
  }

  lemma WellFormedOrdered(nodes: seq<Node>, roots: seq<Root>)
    requires WellFormed(nodes, roots)
    ensures Ordered(nodes)
  {
    forall i | 0 <= i < |nodes|
      ensures forall c :: c in Children(nodes[i]) ==> c < i
    {
      ChildrenBelow(nodes, |roots|, i);
    }
  }

  /** The subtree below node `i`, read back without references and parent links. */
  function TreeAt(nodes: seq<Node>, i: nat): (t: Tree)
    requires Ordered(nodes) && i < |nodes|
    ensures t.TRecord? <==> nodes[i].Record?
    ensures t.TFlat? <==> nodes[i].Flat?
    decreases i, 1
  {
    match nodes[i]
    case Record(name, isGroup, inheritedFrom, _, _, ctx, cs, _) =>
      assert forall k :: 0 <= k < |cs| ==> cs[k] in Children(nodes[i]);
      TRecord(name, isGroup, inheritedFrom, ctx, TreesAt(nodes, i, cs))
    case Flat(name, t, isArray, v, op, fkName, _, ctx, _) =>
      assert v in Children(nodes[i]);
      TFlat(name, t, isArray, op, fkName, ctx, TreeAt(nodes, v))
    case Value(t, isArray, syntaxNodes, fkName, _, cs, _) =>
      assert forall k :: 0 <= k < |cs| ==> cs[k] in Children(nodes[i]);
      TValue(t, isArray, syntaxNodes, fkName, TreesAt(nodes, i, cs))
  }

  /** The subtrees below the nodes `cs`, all of which sit below `i`. */
  function TreesAt(nodes: seq<Node>, i: nat, cs: seq<nat>): (ts: seq<Tree>)
    requires Ordered(nodes) && i < |nodes| && forall k :: 0 <= k < |cs| ==> cs[k] < i
    ensures |ts| == |cs|
    decreases i, 0, |cs|
  {
    if |cs| == 0 then [] else [TreeAt(nodes, cs[0])] + TreesAt(nodes, i, cs[1..])
  }

  /** A node with its parent link forgotten. */
  function Unlinked(n: Node): Node {
    WithParent(n, None)
  }

  /** Changing parent links, or anything above node `i`, does not change the subtree below `i`. */
  lemma {:induction false} TreeAtUnlinked(a: seq<Node>, b: seq<Node>, i: nat)
    requires Ordered(a) && Ordered(b) && i < |a| && i < |b|
    requires forall j :: 0 <= j <= i ==> Unlinked(a[j]) == Unlinked(b[j])
    ensures TreeAt(a, i) == TreeAt(b, i)
    decreases i, 1
  {
    assert Unlinked(a[i]) == Unlinked(b[i]);
    match a[i]
    case Record(_, _, _, _, _, _, cs, _) =>
      assert forall k :: 0 <= k < |cs| ==> cs[k] in Children(a[i]);
      TreesAtUnlinked(a, b, i, cs);
    case Flat(_, _, _, v, _, _, _, _, _) =>
      assert v in Children(a[i]);
      TreeAtUnlinked(a, b, v);
    case Value(_, _, _, _, _, cs, _) =>
      assert forall k :: 0 <= k < |cs| ==> cs[k] in Children(a[i]);
      TreesAtUnlinked(a, b, i, cs);
  }

  lemma {:induction false} TreesAtUnlinked(a: seq<Node>, b: seq<Node>, i: nat, cs: seq<nat>)
    requires Ordered(a) && Ordered(b) && i < |a| && i < |b|
    requires forall k :: 0 <= k < |cs| ==> cs[k] < i
    requires forall j :: 0 <= j < i ==> Unlinked(a[j]) == Unlinked(b[j])
    ensures TreesAt(a, i, cs) == TreesAt(b, i, cs)
    decreases i, 0, |cs|
  {
    if |cs| > 0 {
      TreeAtUnlinked(a, b, cs[0]);
      TreesAtUnlinked(a, b, i, cs[1..]);
    }
  }

  /** The nodes from `n0` on were made by the builder: no references resolved yet. */
  predicate Unbound(nodes: seq<Node>, n0: nat) {
    forall j :: n0 <= j < |nodes| ==> RefOf(nodes[j]).None? && !(nodes[j].Record? && nodes[j].isFullyResolved)
  }

  /** Node `j`'s parent link names a node that holds `j` as a child. */
  predicate HeldByParent(nodes: seq<Node>, j: nat)
    requires j < |nodes|
  {
    match nodes[j].parent
    case Some(ParentNode(q)) => q < |nodes| && j in Children(nodes[q])
    case _ => false
  }

  /**
   * Allocates tree `t` in the arena, children before their owners, and
   * returns the index of its top node. Nothing allocated before is changed;
   * the new nodes are unresolved, every one of them except the top is held by
   * its parent, and the arena reads back as `t` at the top.
   */
  method Materialize(g: Graph, t: Tree) returns (i: nat)
    requires g.Valid() && KindsFit(t)
    modifies g
    ensures g.Valid() && g.roots == old(g.roots)
    ensures |old(g.nodes)| <= i && i == |g.nodes| - 1 && g.nodes[..|old(g.nodes)|] == old(g.nodes)
    ensures Ordered(g.nodes) && TreeAt(g.nodes, i) == t
    ensures Unbound(g.nodes, |old(g.nodes)|) && g.nodes[i].parent.None?
    ensures forall j :: |old(g.nodes)| <= j < i ==> HeldByParent(g.nodes, j)
    decreases t, 1
  {
    if t.TFlat? {
      i := MaterializeFlat(g, t);
    } else {
      i := MaterializeOwner(g, t);
    }
  }

  /** Allocates a flat after its value, and makes the flat the value's parent. */
  method MaterializeFlat(g: Graph, t: Tree) returns (i: nat)
    requires g.Valid() && KindsFit(t) && t.TFlat?
    modifies g
    ensures g.Valid() && g.roots == old(g.roots)
    ensures |old(g.nodes)| <= i && i == |g.nodes| - 1 && g.nodes[..|old(g.nodes)|] == old(g.nodes)
    ensures Ordered(g.nodes) && TreeAt(g.nodes, i) == t
    ensures Unbound(g.nodes, |old(g.nodes)|) && g.nodes[i].parent.None?
    ensures forall j :: |old(g.nodes)| <= j < i ==> HeldByParent(g.nodes, j)
    decreases t, 0
  {
    var n0 := |g.nodes|;
    var v := Materialize(g, t.value);
    WellFormedOrdered(g.nodes, g.roots);
    var before := g.nodes;
    i := g.AddNode(Flat(t.name, t.flatType, t.isArray, v, t.op, t.fkName, None, t.ctx, None));
    g.SetParent(v, Some(ParentNode(i)));
    WellFormedOrdered(g.nodes, g.roots);
    TreeAtUnlinked(before, g.nodes, v);
    assert g.nodes[..n0] == before[..n0];
    forall j | n0 <= j < i
      ensures HeldByParent(g.nodes, j)
    {
      if j != v {
        assert HeldByParent(before, j);
        var q := before[j].parent.value.node;
        assert Children(g.nodes[q]) == Children(before[q]);
      }
    }
    assert TreeAt(g.nodes, i) == TFlat(t.name, t.flatType, t.isArray, t.op, t.fkName, t.ctx, TreeAt(g.nodes, v));
  }

  /** Allocates a record or a value after its children, and makes it their parent. */
  method MaterializeOwner(g: Graph, t: Tree) returns (i: nat)
    requires g.Valid() && KindsFit(t) && !t.TFlat?
    modifies g
    ensures g.Valid() && g.roots == old(g.roots)
    ensures |old(g.nodes)| <= i && i == |g.nodes| - 1 && g.nodes[..|old(g.nodes)|] == old(g.nodes)
    ensures Ordered(g.nodes) && TreeAt(g.nodes, i) == t
    ensures Unbound(g.nodes, |old(g.nodes)|) && g.nodes[i].parent.None?
    ensures forall j :: |old(g.nodes)| <= j < i ==> HeldByParent(g.nodes, j)
    decreases t, 0
  {
    var n0 := |g.nodes|;
    var ts := if t.TRecord? then t.flats else t.children;
    var ids := MaterializeAll(g, ts);
    var n := if t.TRecord? then Record(t.recordName, t.isGroup, t.inheritedFrom, None, false, t.ctx, [], None)
             else Value(t.valueType, t.isArray, t.syntaxNodes, t.fkName, None, [], None);
    i := Adopt(g, n, ids, ts, n0);
    assert n.children + ids == ids;
  }

  /**
   * Allocates the childless record or value `n` above the parentless tops
   * `ids` (trees `ts`) and makes it their parent.
   */
  method Adopt(g: Graph, n: Node, ids: seq<nat>, ghost ts: seq<Tree>, ghost n0: nat) returns (i: nat)
    requires g.Valid() && Ordered(g.nodes) && n0 <= |g.nodes|
    requires !n.Flat? && n.children == [] && n.parent.None? && RefOf(n).None? && !(n.Record? && n.isFullyResolved)
    requires |ids| == |ts|
    requires forall k :: 0 <= k < |ids| ==> (
      n0 <= ids[k] < |g.nodes| && TreeAt(g.nodes, ids[k]) == ts[k] && g.nodes[ids[k]].parent.None?)
    requires n.Record? ==> forall k :: 0 <= k < |ts| ==> ts[k].TFlat?
    requires Unbound(g.nodes, n0)
    requires forall j :: n0 <= j < |g.nodes| && j !in ids ==> HeldByParent(g.nodes, j)
    modifies g
    ensures g.Valid() && g.roots == old(g.roots) && Ordered(g.nodes)
    ensures i == |old(g.nodes)| == |g.nodes| - 1 && g.nodes[..n0] == old(g.nodes)[..n0]
    ensures g.nodes[i] == WithChildren(n, n.children + ids) && TreesAt(g.nodes, i, ids) == ts
    ensures Unbound(g.nodes, n0) && g.nodes[i].parent.None?
    ensures forall j :: n0 <= j < i ==> HeldByParent(g.nodes, j)
  {
    var mid := g.nodes;
    i := g.AddNode(n);
    assert forall c :: c in ids ==> n0 <= c < i;
    g.AddChildRange(i, ids);
    WellFormedOrdered(g.nodes, g.roots);
    AdoptionFacts(mid, g.nodes, n, ids, ts, n0);
  }

  lemma AdoptionFacts(mid: seq<Node>, b: seq<Node>, n: Node, ids: seq<nat>, ts: seq<Tree>, n0: nat)
    requires Ordered(mid) && Ordered(b) && n0 <= |mid| && |b| == |mid| + 1 && !n.Flat?
    requires |ids| == |ts|
    requires forall k :: 0 <= k < |ids| ==> n0 <= ids[k] < |mid| && TreeAt(mid, ids[k]) == ts[k]
    requires Unbound(mid, n0) && RefOf(n).None? && !(n.Record? && n.isFullyResolved)
    requires forall j :: n0 <= j < |mid| && j !in ids ==> HeldByParent(mid, j)
    requires b[|mid|] == WithChildren(n, n.children + ids)
    requires forall c :: c in ids ==> b[c] == WithParent(mid[c], Some(ParentNode(|mid|)))
    requires forall j :: 0 <= j < |mid| && j !in ids ==> b[j] == mid[j]
    ensures b[..n0] == mid[..n0] && TreesAt(b, |mid|, ids) == ts
    ensures Unbound(b, n0)
    ensures forall j :: n0 <= j < |mid| ==> HeldByParent(b, j)
  {
    UnlinkedAfterAdoption(mid, b, ids);
    Adopted(mid, b, |mid|, ids, ts);
    assert forall j :: 0 <= j < n0 ==> j !in ids;
    assert b[..n0] == mid[..n0];
    UnboundAfterAdoption(mid, b, n, ids, n0);
    forall j | n0 <= j < |mid|
      ensures HeldByParent(b, j)
    {
      HeldAfterAdoption(mid, b, n, ids, j);
    }
  }

  lemma UnlinkedAfterAdoption(mid: seq<Node>, b: seq<Node>, ids: seq<nat>)
    requires |b| == |mid| + 1
    requires forall c :: c in ids ==> c < |mid| && b[c] == WithParent(mid[c], Some(ParentNode(|mid|)))
    requires forall j :: 0 <= j < |mid| && j !in ids ==> b[j] == mid[j]
    ensures forall j :: 0 <= j < |mid| ==> Unlinked(mid[j]) == Unlinked(b[j])
  {
  }

  lemma UnboundAfterAdoption(mid: seq<Node>, b: seq<Node>, n: Node, ids: seq<nat>, n0: nat)
    requires |b| == |mid| + 1 && !n.Flat? && n0 <= |mid|
    requires Unbound(mid, n0) && RefOf(n).None? && !(n.Record? && n.isFullyResolved)
    requires b[|mid|] == WithChildren(n, n.children + ids)
    requires forall c :: c in ids ==> c < |mid| && b[c] == WithParent(mid[c], Some(ParentNode(|mid|)))
    requires forall j :: 0 <= j < |mid| && j !in ids ==> b[j] == mid[j]
    ensures Unbound(b, n0)
  {
    forall j | n0 <= j < |b|
      ensures RefOf(b[j]).None? && !(b[j].Record? && b[j].isFullyResolved)
    {
      if j < |mid| && j in ids {
        assert b[j] == WithParent(mid[j], Some(ParentNode(|mid|)));
      }
    }
  }

  lemma HeldAfterAdoption(mid: seq<Node>, b: seq<Node>, n: Node, ids: seq<nat>, j: nat)
    requires |b| == |mid| + 1 && !n.Flat? && j < |mid|
    requires j !in ids ==> HeldByParent(mid, j)
    requires b[|mid|] == WithChildren(n, n.children + ids)
    requires forall c :: c in ids ==> c < |mid| && b[c] == WithParent(mid[c], Some(ParentNode(|mid|)))
    requires forall k :: 0 <= k < |mid| && k !in ids ==> b[k] == mid[k]
    ensures HeldByParent(b, j)
  {
    if j !in ids {
      var q := mid[j].parent.value.node;
      assert Children(b[q]) == Children(mid[q]) by {
        if q in ids {
          assert b[q] == WithParent(mid[q], Some(ParentNode(|mid|)));
        }
      }
    } else {
      assert b[j].parent == Some(ParentNode(|mid|));
      assert j in Children(b[|mid|]);
    }
  }

  /** Allocates the trees `ts` one after another and returns their top nodes, which have no parent yet. */
  method MaterializeAll(g: Graph, ts: seq<Tree>) returns (ids: seq<nat>)
    requires g.Valid() && forall k :: 0 <= k < |ts| ==> KindsFit(ts[k])
    modifies g
    ensures g.Valid() && g.roots == old(g.roots)
    ensures |old(g.nodes)| <= |g.nodes| && g.nodes[..|old(g.nodes)|] == old(g.nodes)
    ensures Ordered(g.nodes) && |ids| == |ts|
    ensures forall k :: 0 <= k < |ids| ==> (
      |old(g.nodes)| <= ids[k] < |g.nodes| && TreeAt(g.nodes, ids[k]) == ts[k] && g.nodes[ids[k]].parent.None?)
    ensures Unbound(g.nodes, |old(g.nodes)|)
    ensures forall j :: |old(g.nodes)| <= j < |g.nodes| && j !in ids ==> HeldByParent(g.nodes, j)
    decreases ts
  {
    ids := [];
    WellFormedOrdered(g.nodes, g.roots);
    var n0 := |g.nodes|;
    for k := 0 to |ts|
      invariant g.Valid() && g.roots == old(g.roots) && Ordered(g.nodes)
      invariant n0 <= |g.nodes| && g.nodes[..n0] == old(g.nodes)
      invariant |ids| == k
      invariant forall j :: 0 <= j < k ==> (
        n0 <= ids[j] < |g.nodes| && TreeAt(g.nodes, ids[j]) == ts[j] && g.nodes[ids[j]].parent.None?)
      invariant Unbound(g.nodes, n0)
      invariant forall j :: n0 <= j < |g.nodes| && j !in ids ==> HeldByParent(g.nodes, j)
    {
      var before := g.nodes;
      var c := Materialize(g, ts[k]);
      assert forall m :: 0 <= m < |before| ==> g.nodes[m] == before[m];
      forall j | 0 <= j < k
        ensures TreeAt(g.nodes, ids[j]) == ts[j]
      {
        TreeAtUnlinked(before, g.nodes, ids[j]);
      }
      ids := ids + [c];
    }
  }

  /**
   * After node `i` adopted the tops `ids`, whose trees in `a` were `ts`, the
   * children of `i` in `b` read back as `ts`.
   */
  lemma {:induction false} Adopted(a: seq<Node>, b: seq<Node>, i: nat, ids: seq<nat>, ts: seq<Tree>)
    requires Ordered(a) && Ordered(b) && i <= |a| && i < |b|
    requires forall k :: 0 <= k < |ids| ==> ids[k] < i
    requires |ids| == |ts| && forall k :: 0 <= k < |ids| ==> TreeAt(a, ids[k]) == ts[k]
    requires forall j :: 0 <= j < i ==> Unlinked(a[j]) == Unlinked(b[j])
    ensures TreesAt(b, i, ids) == ts
    decreases |ids|
  {
    if |ids| > 0 {
      TreeAtUnlinked(a, b, ids[0]);
      Adopted(a, b, i, ids[1..], ts[1..]);
    }
  }
}
