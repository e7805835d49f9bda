/**
 * Semantic nodes. Every record, flat and value node lives in one arena (the
 * `nodes` sequence of a `Graph`) and refers to other nodes by index: children,
 * the parent link, the resolved parent record (`inheritedFromRef`) and the
 * resolved foreign-key target (`fkRef`). Reference identity is index equality.
 *
 * The arena keeps every child at a smaller index than its owner, and a parent
 * link at a larger one. Nodes are therefore built children-first. The source
 * allocates the owner first and attaches children afterwards, but nothing
 * observes the order of allocation.
 */
module SemanticNodes {
  import opened Wrappers
  import opened SyntaxTree
  import opened Names
  import Parsing

  datatype FlatType =
    | Unresolved | String | Integer | Float | Vector2 | Vector3 | Vector4
    | EulerAngles | Quaternion | Boolean | CName | LocKey | ResRef
    | ForeignKey | InlineRecord | Identifier

  datatype OperatorType = Assign | Append

  /** The package a file declares (None when it declares none) and the packages it uses. */
  datatype PackageContext = PackageContext(name: Option<string>, usings: seq<string>)

  /** The context of a node not attached to any file: no package and no usings. */
  const NoContext := PackageContext(None, [])

  /** A parent link: either a file's root or another node of the arena. */
  datatype Parent = ParentRoot(root: nat) | ParentNode(node: nat)

  datatype Node =
    | Record(recordName: Option<string>, isGroup: bool, inheritedFrom: Option<string>,
             inheritedFromRef: Option<nat>, isFullyResolved: bool, ctx: PackageContext,
             children: seq<nat>, parent: Option<Parent>)
    | Flat(name: string, flatType: FlatType, isArray: bool, value: nat, op: OperatorType,
           fkName: Option<string>, fkRef: Option<nat>, ctx: PackageContext, parent: Option<Parent>)
    | Value(valueType: FlatType, isArray: bool, syntaxNodes: seq<Syntax>, fkName: Option<string>,
            fkRef: Option<nat>, children: seq<nat>, parent: Option<Parent>)

  /** The root of one file: its package context and its top-level records and flats. */
  datatype Root = Root(ctx: PackageContext, children: seq<nat>)

  /** A record as its constructor leaves it: unresolved, not a group, no context, no children. */
  function NewRecord(name: Option<string>, inheritedFrom: Option<string>): (n: Node)
    ensures n.Record? && n.recordName == name && n.inheritedFrom == inheritedFrom
    ensures n.inheritedFromRef.None? && !n.isGroup && !n.isFullyResolved
    ensures n.ctx == NoContext && n.children == [] && n.parent.None?
  {
    Record(name, false, inheritedFrom, None, false, NoContext, [], None)
  }

  /** A value as its constructor leaves it: no foreign key, no children, no parent. */
  function NewValue(t: FlatType, isArray: bool, syntaxNodes: seq<Syntax>): (n: Node)
    ensures n.Value? && n.valueType == t && n.isArray == isArray && n.syntaxNodes == syntaxNodes
    ensures n.fkName.None? && n.fkRef.None? && n.children == [] && n.parent.None?
  {
    Value(t, isArray, syntaxNodes, None, None, [], None)
  }

  /** The children of a node; a flat's only child is its value. */
  function Children(n: Node): seq<nat> {
    if n.Flat? then [n.value] else n.children
  }

  /** The record a node refers to: a record's resolved parent, otherwise the foreign-key target. */
  function RefOf(n: Node): Option<nat> {
    if n.Record? then n.inheritedFromRef else n.fkRef
  }

  datatype Kind = RecordKind | FlatKind | ValueKind

  function KindOf(n: Node): Kind {
    match n
    case Record(_, _, _, _, _, _, _, _) => RecordKind
    case Flat(_, _, _, _, _, _, _, _, _) => FlatKind
    case Value(_, _, _, _, _, _, _) => ValueKind
  }

  /** `r`, when present, is the index of a record. */
  predicate IsRecordRef(nodes: seq<Node>, r: Option<nat>) {
    r.Some? ==> r.value < |nodes| && nodes[r.value].Record?
  }

  predicate ParentOk(p: Option<Parent>, rootCount: nat, i: nat, size: nat) {
    match p
    case None => true
    case Some(ParentRoot(k)) => k < rootCount
    case Some(ParentNode(q)) => i < q < size
  }

  /** The links of node `i` stay inside the arena and point at nodes of the right kind. */
  predicate LinksOk(nodes: seq<Node>, rootCount: nat, i: nat)
    requires i < |nodes|
  {
    var n := nodes[i];
    ParentOk(n.parent, rootCount, i, |nodes|)
    && IsRecordRef(nodes, RefOf(n))
    && match n
       case Record(_, _, _, _, _, _, cs, _) => forall c :: c in cs ==> c < i && nodes[c].Flat?
       case Flat(_, _, _, v, _, _, _, _, _) => v < i && nodes[v].Value?
       case Value(_, _, _, _, _, cs, _) => forall c :: c in cs ==> c < i
  }

  predicate RootsOk(nodes: seq<Node>, roots: seq<Root>) {
    forall k :: 0 <= k < |roots| ==>
      forall c :: c in roots[k].children ==> c < |nodes| && (nodes[c].Record? || nodes[c].Flat?)
  }

  predicate WellFormed(nodes: seq<Node>, roots: seq<Root>) {
    (forall i :: 0 <= i < |nodes| ==> LinksOk(nodes, |roots|, i)) && RootsOk(nodes, roots)
  }

  /** Every child of a well-linked node sits below it. */
  lemma ChildrenBelow(nodes: seq<Node>, rootCount: nat, i: nat)
    requires i < |nodes| && LinksOk(nodes, rootCount, i)
    ensures forall c :: c in Children(nodes[i]) ==> c < i
  {
  }

  /** `n` with its parent link replaced. */
  function WithParent(n: Node, p: Option<Parent>): (m: Node)
    ensures m == n.(parent := p)
    ensures KindOf(m) == KindOf(n) && Children(m) == Children(n) && RefOf(m) == RefOf(n)
  {
    n.(parent := p)
  }

  /** `n`, a record or a value, with its children replaced. */
  function WithChildren(n: Node, cs: seq<nat>): (m: Node)
    requires !n.Flat?
    ensures m == n.(children := cs)
    ensures KindOf(m) == KindOf(n) && Children(m) == cs && RefOf(m) == RefOf(n) && m.parent == n.parent
  {
    n.(children := cs)
  }

  /** The elements of a flat's value: the children of the node its `value` names. */
  function ElementsOf(nodes: seq<Node>, f: nat): seq<nat>
    requires f < |nodes| && nodes[f].Flat?
  {
    var v := nodes[f].value;
    if v < |nodes| && nodes[v].Value? then nodes[v].children else []
  }

  /** The arena with `elems` appended to the elements of flat `f`'s value. */
  function AppendElements(nodes: seq<Node>, f: nat, elems: seq<nat>): (r: seq<Node>)
    requires f < |nodes| && nodes[f].Flat?
    ensures |r| == |nodes|
  {
    var v := nodes[f].value;
    if v < |nodes| && nodes[v].Value? then nodes[v := WithChildren(nodes[v], nodes[v].children + elems)] else nodes
  }

  /** `b` extends `a` without changing the kind of any node of `a`. */
  predicate KindsKept(a: seq<Node>, b: seq<Node>) {
    |a| <= |b| && forall i :: 0 <= i < |a| ==> KindOf(b[i]) == KindOf(a[i])
  }

  /** Links that were fine stay fine when nodes keep their kinds and node `i` keeps its links. */
  lemma LinksTransfer(a: seq<Node>, b: seq<Node>, ra: nat, rb: nat, i: nat)
    requires i < |a| && LinksOk(a, ra, i) && KindsKept(a, b) && ra <= rb
    requires Children(b[i]) == Children(a[i]) && RefOf(b[i]) == RefOf(a[i]) && KindOf(b[i]) == KindOf(a[i])
    requires b[i].parent == a[i].parent || ParentOk(b[i].parent, rb, i, |b|)
    ensures LinksOk(b, rb, i)
  {
    var n := b[i];
    if RefOf(n).Some? {
      assert KindOf(b[RefOf(n).value]) == KindOf(a[RefOf(n).value]);
    }
    match n
    case Record(_, _, _, _, _, _, cs, _) =>
      forall c | c in cs
        ensures c < i && b[c].Flat?
      {
        assert c in Children(a[i]);
        assert KindOf(b[c]) == KindOf(a[c]);
      }
    case Flat(_, _, _, v, _, _, _, _, _) =>
      assert Children(a[i]) == [v];
      assert KindOf(b[v]) == KindOf(a[v]);
    case Value(_, _, _, _, _, cs, _) =>
      assert Children(a[i]) == cs;
  }

  /** A node given more children below it, of the kind its own kind demands, stays well-linked. */
  lemma LinksWithChildren(nodes: seq<Node>, r: nat, i: nat, cs: seq<nat>)
    requires i < |nodes| && LinksOk(nodes, r, i) && !nodes[i].Flat?
    requires forall c :: c in cs ==> c < i && (nodes[i].Record? ==> nodes[c].Flat?)
    ensures LinksOk(nodes[i := WithChildren(nodes[i], nodes[i].children + cs)], r, i)
  {
    var b := nodes[i := WithChildren(nodes[i], nodes[i].children + cs)];
    assert KindsKept(nodes, b);
    if RefOf(b[i]).Some? {
      assert KindOf(b[RefOf(b[i]).value]) == KindOf(nodes[RefOf(b[i]).value]);
    }
    if nodes[i].Record? {
      forall c | c in b[i].children
        ensures c < i && b[c].Flat?
      {
        if c !in cs {
          assert c in nodes[i].children;
        }
      }
    }
  }

  lemma RootsTransfer(a: seq<Node>, b: seq<Node>, roots: seq<Root>)
    requires RootsOk(a, roots) && KindsKept(a, b)
    ensures RootsOk(b, roots)
  {
    forall k | 0 <= k < |roots|
      ensures forall c :: c in roots[k].children ==> c < |b| && (b[c].Record? || b[c].Flat?)
    {
      forall c | c in roots[k].children
        ensures c < |b| && (b[c].Record? || b[c].Flat?)
      {
        assert KindOf(b[c]) == KindOf(a[c]);
      }
    }
  }

  // ---------------------------------------------------------------------------
  // Queries on records

  /** The flat children among `cs`, in their order. */
  function FlatsOf(nodes: seq<Node>, cs: seq<nat>): (r: seq<nat>)
    ensures forall k :: 0 <= k < |r| ==> r[k] in cs && r[k] < |nodes| && nodes[r[k]].Flat?
    ensures forall c :: c in cs && c < |nodes| && nodes[c].Flat? ==> c in r
  {
    if |cs| == 0 then []
    else (if cs[0] < |nodes| && nodes[cs[0]].Flat? then [cs[0]] else []) + FlatsOf(nodes, cs[1..])
  }

  /** Extending a prefix of `cs` by one index extends its flats by that index when it is a flat. */
  lemma {:induction false} FlatsOfSnoc(nodes: seq<Node>, cs: seq<nat>, k: nat)
    requires k < |cs|
    ensures FlatsOf(nodes, cs[..k + 1])
      == FlatsOf(nodes, cs[..k]) + (if cs[k] < |nodes| && nodes[cs[k]].Flat? then [cs[k]] else [])
  {
    assert cs[..k + 1] == cs[..k] + [cs[k]];
    FlatsOfAppend(nodes, cs[..k], [cs[k]]);
    var x := cs[k];
    assert [x][1..] == [];
    assert FlatsOf(nodes, [x]) == (if x < |nodes| && nodes[x].Flat? then [x] else []) + FlatsOf(nodes, []);
  }

  lemma {:induction false} FlatsOfAppend(nodes: seq<Node>, a: seq<nat>, b: seq<nat>)
    ensures FlatsOf(nodes, a + b) == FlatsOf(nodes, a) + FlatsOf(nodes, b)
  {
    if |a| > 0 {
      assert (a + b)[1..] == a[1..] + b;
      FlatsOfAppend(nodes, a[1..], b);
    } else {
      assert a + b == b;
    }
  }

  /** When every child is a flat, the flats are the children themselves. */
  lemma {:induction false} FlatsOfAllFlats(nodes: seq<Node>, cs: seq<nat>)
    requires forall c :: c in cs ==> c < |nodes| && nodes[c].Flat?
    ensures FlatsOf(nodes, cs) == cs
  {
    if |cs| > 0 {
      assert cs[0] in cs;
      assert forall c :: c in cs[1..] ==> c in cs;
      FlatsOfAllFlats(nodes, cs[1..]);
      assert cs == [cs[0]] + cs[1..];
    }
  }

  /** The first flat among `cs` called `name`. */
  function FirstFlatNamed(nodes: seq<Node>, cs: seq<nat>, name: string): (r: Option<nat>)
    ensures r.Some? ==> r.value < |nodes| && nodes[r.value].Flat? && nodes[r.value].name == name
    ensures r.Some? ==> exists k :: 0 <= k < |cs| && cs[k] == r.value && NoFlatNamed(nodes, cs[..k], name)
    ensures r.None? <==> NoFlatNamed(nodes, cs, name)
  {
    if |cs| == 0 then None
    else if cs[0] < |nodes| && nodes[cs[0]].Flat? && nodes[cs[0]].name == name then
      assert cs[..0] == [];
      Some(cs[0])
    else
      var r := FirstFlatNamed(nodes, cs[1..], name);
      if r.Some? then
        var k :| 0 <= k < |cs[1..]| && cs[1..][k] == r.value && NoFlatNamed(nodes, cs[1..][..k], name);
        assert cs[..k + 1] == [cs[0]] + cs[1..][..k];
        Some(r.value)
      else
        r
  }

  /** No flat among `cs` is called `name`. */
  predicate NoFlatNamed(nodes: seq<Node>, cs: seq<nat>, name: string) {
    forall c :: c in cs && c < |nodes| && nodes[c].Flat? ==> nodes[c].name != name
  }

  lemma FirstFlatNamedAppend(nodes: seq<Node>, a: seq<nat>, c: nat, name: string)
    requires NoFlatNamed(nodes, a, name)
    ensures FirstFlatNamed(nodes, a + [c], name) ==
      if c < |nodes| && nodes[c].Flat? && nodes[c].name == name then Some(c) else None
  {
    var r := FirstFlatNamed(nodes, a + [c], name);
    if r.Some? {
      var k :| 0 <= k < |a + [c]| && (a + [c])[k] == r.value && NoFlatNamed(nodes, (a + [c])[..k], name);
    }
  }

  /**
   * The package part of a record's name. As written this is the piece BEFORE the
   * dot: `P.N` gives `P`. A name with two or more dots is rejected; a name
   * without a dot is its own base name.
   */
  function BaseName(name: Option<string>): (r: Result<Option<string>>)
    ensures name.None? ==> r == Ok(None)
    ensures name.Some? && '.' !in name.value ==> r == Ok(name)
    ensures r.Err? <==> name.Some? && Count(name.value, '.') >= 2
    ensures name.Some? && r.Ok? ==> r.value.Some?
    ensures forall p, n :: name == Some(p + "." + n) && '.' !in p && '.' !in n ==> r == Ok(Some(p))
  {
    if name.None? then Ok(None)
    else if '.' in name.value then
      var identifiers := Split(name.value, '.');
      SplitCount(name.value, '.');
      CountZero(name.value, '.');
      QualifiedPieces(name.value);
      if |identifiers| > 2 then Err(Fatal) else Ok(Some(identifiers[0]))
    else
      CountZero(name.value, '.');
      Ok(name)
  }

  lemma QualifiedPieces(s: string)
    ensures forall p, n :: s == p + "." + n && '.' !in p && '.' !in n ==> Split(s, '.') == [p, n]
  {
    forall p, n | s == p + "." + n && '.' !in p && '.' !in n
      ensures Split(s, '.') == [p, n]
    {
      SplitQualified(p, n, '.');
    }
  }

  // ---------------------------------------------------------------------------
  // Queries on values

  predicate IsScalar(t: FlatType) {
    t == String || t == Integer || t == Float || t == Boolean || t == CName || t == LocKey || t == ResRef
  }

  predicate IsVector(t: FlatType) {
    t == Vector2 || t == EulerAngles || t == Vector3 || t == Quaternion || t == Vector4
  }

  /** Scalars and vectors are disjoint; together they are every type except the four non-data ones. */
  lemma ScalarVectorPartition(t: FlatType)
    ensures !(IsScalar(t) && IsVector(t))
    ensures IsScalar(t) || IsVector(t) <==> t !in {Unresolved, ForeignKey, InlineRecord, Identifier}
  {
  }

  /** The number of elements of an array value; 0 for a value that is not an array. */
  function ArrayLength(v: Node): (n: nat)
    requires v.Value?
    ensures !v.isArray ==> n == 0
    ensures v.isArray ==> n == |v.children|
  {
    if !v.isArray then 0 else |v.children|
  }

  /** The text of a scalar: its first syntax node's text, or "" when there is none. */
  function ReadScalarData(v: Node): (r: Result<string>)
    requires v.Value?
    ensures r.Ok? <==> IsScalar(v.valueType)
    ensures r.Ok? && |v.syntaxNodes| > 0 && v.syntaxNodes[0].value.Some? ==> r.value == v.syntaxNodes[0].value.value
    ensures r.Ok? && (|v.syntaxNodes| == 0 || v.syntaxNodes[0].value.None?) ==> r.value == ""
  {
    if !IsScalar(v.valueType) then Err(Fatal)
    else if |v.syntaxNodes| == 0 || v.syntaxNodes[0].value.None? then Ok("")
    else Ok(v.syntaxNodes[0].value.value)
  }

  /** How many components a vector type has: 2, 3 or 4. */
  function VectorWidth(t: FlatType): (w: nat)
    ensures 2 <= w <= 4
  {
    if t == Vector3 || t == EulerAngles then 3
    else if t == Vector4 || t == Quaternion then 4
    else 2
  }

  predicate StartsWith(s: string, prefix: string) {
    |prefix| <= |s| && s[..|prefix|] == prefix
  }

  /** The first syntax node whose type starts with `prefix`. */
  function FirstWithTypePrefix(ss: seq<Syntax>, prefix: string): (r: Option<Syntax>)
    ensures r.Some? ==> r.value in ss && StartsWith(r.value.typ, prefix)
    ensures r.None? ==> forall s :: s in ss ==> !StartsWith(s.typ, prefix)
  {
    if |ss| == 0 then None
    else if StartsWith(ss[0].typ, prefix) then Some(ss[0])
    else FirstWithTypePrefix(ss[1..], prefix)
  }

  /** The first syntax node of type `typ`. */
  function FirstOfType(ss: seq<Syntax>, typ: string): (r: Option<Syntax>)
    ensures r.Some? ==> r.value in ss && r.value.typ == typ
    ensures r.None? ==> forall s :: s in ss ==> s.typ != typ
  {
    if |ss| == 0 then None
    else if ss[0].typ == typ then Some(ss[0])
    else FirstOfType(ss[1..], typ)
  }

  /** The texts of the first `count` components of a vector node, looked up by type x, y, z, a. */
  function Components(vector: Syntax, count: nat): (r: Result<seq<string>>)
    requires count <= 4
    ensures r.Ok? ==> |r.value| == count
    ensures r.Err? ==> r == Err(Fatal)
  {
    if count == 0 then Ok([])
    else
      var front :- Components(vector, count - 1);
      var c := FirstOfType(vector.children, Parsing.ComponentNames[count - 1]);
      if c.None? || c.value.value.None? then Err(Fatal) else Ok(front + [c.value.value.value])
  }

  /** The component texts of a vector value, as many as its type demands. */
  function VectorData(v: Node): (r: Result<seq<string>>)
    requires v.Value?
    ensures r.Ok? ==> IsVector(v.valueType) && |r.value| == VectorWidth(v.valueType)
  {
    if !IsVector(v.valueType) then Err(Fatal)
    else
      var vector := FirstWithTypePrefix(v.syntaxNodes, "value-vector");
      if vector.None? then Err(Fatal) else Components(vector.value, VectorWidth(v.valueType))
  }

  function JoinWithCommas(vs: seq<string>): string {
    if |vs| == 0 then "" else if |vs| == 1 then vs[0] else vs[0] + ", " + JoinWithCommas(vs[1..])
  }

  function VectorToString(vs: seq<string>): string {
    "( " + JoinWithCommas(vs) + " )"
  }

  /** Two components render as `( x, y )`. */
  lemma TwoComponentText(x: string, y: string)
    ensures VectorToString([x, y]) == "( " + x + ", " + y + " )"
  {
    assert [x, y][1..] == [y];
    assert JoinWithCommas([x, y]) == x + ", " + y;
  }

  /** Three components render as `( x, y, z )`. */
  lemma ThreeComponentText(x: string, y: string, z: string)
    ensures VectorToString([x, y, z]) == "( " + x + ", " + y + ", " + z + " )"
  {
    assert [x, y, z][1..] == [y, z] && [y, z][1..] == [z];
    assert JoinWithCommas([y, z]) == y + ", " + z;
  }

  /** Four components render as `( x, y, z, a )`. */
  lemma FourComponentText(x: string, y: string, z: string, a: string)
    ensures VectorToString([x, y, z, a]) == "( " + x + ", " + y + ", " + z + ", " + a + " )"
  {
    assert [x, y, z, a][1..] == [y, z, a] && [y, z, a][1..] == [z, a] && [z, a][1..] == [a];
    assert JoinWithCommas([z, a]) == z + ", " + a;
    assert JoinWithCommas([y, z, a]) == y + ", " + z + ", " + a;
  }

  /** How a value is rendered as text. */
  function StringValue(v: Node): (r: Result<string>)
    requires v.Value?
    ensures v.isArray ==> r == Ok("{Array}")
    ensures !v.isArray && IsScalar(v.valueType) ==> r == ReadScalarData(v)
    ensures !v.isArray && IsVector(v.valueType) ==> r.Ok? == VectorData(v).Ok?
    ensures !v.isArray && IsVector(v.valueType) && r.Ok? ==> r.value == "( " + JoinWithCommas(VectorData(v).value) + " )"
    ensures !v.isArray && v.valueType == ForeignKey ==> r == Ok("FK:" + (if v.fkName.Some? then v.fkName.value else ""))
    ensures !v.isArray && v.valueType == InlineRecord ==> r == Ok("FK:{Unresolved)}")
    ensures !v.isArray && v.valueType in {Unresolved, Identifier} ==> r == Ok("{Unresolved}")
  {
    if v.isArray then Ok("{Array}")
    else if IsScalar(v.valueType) then ReadScalarData(v)
    else if IsVector(v.valueType) then
      var vs :- VectorData(v);
      Ok(VectorToString(vs))
    else if v.valueType == ForeignKey then Ok("FK:" + (if v.fkName.Some? then v.fkName.value else ""))
    else if v.valueType == InlineRecord then Ok("FK:{Unresolved)}")
    else Ok("{Unresolved}")
  }

  /** The rendering used in output files: strings are quoted. */
  function TweakFormatValue(v: Node): (r: Result<string>)
    requires v.Value?
    ensures r.Ok? <==> StringValue(v).Ok?
    ensures r.Ok? && v.valueType == String ==> r.value == "\"" + StringValue(v).value + "\""
    ensures r.Ok? && v.valueType != String ==> r.value == StringValue(v).value
  {
    var s :- StringValue(v);
    if v.valueType == String then Ok("\"" + s + "\"") else Ok(s)
  }

  /** A vector written by the parser reads back as exactly its components. */
  lemma VectorRoundTrip(t: FlatType, x: string, y: string, z: Option<string>, a: Option<string>)
    requires IsVector(t)
    requires VectorWidth(t) == 2 ==> z.None? && a.None?
    requires VectorWidth(t) == 3 ==> z.Some? && a.None?
    requires VectorWidth(t) == 4 ==> z.Some? && a.Some?
    ensures VectorData(NewValue(t, false, [Parsing.VectorNode(x, y, z, a)])) ==
      Ok([x, y] + (if z.Some? then [z.value] else []) + (if a.Some? then [a.value] else []))
  {
    var node := Parsing.VectorNode(x, y, z, a);
    assert StartsWith(node.typ, "value-vector");
    var vals := [x, y] + (if z.Some? then [z.value] else []) + (if a.Some? then [a.value] else []);
    var cs := node.children;
    assert |cs| == |vals|;
    forall j | 0 <= j < |vals|
      ensures cs[j] == Leaf(Parsing.ComponentNames[j], vals[j])
    {
    }
    ComponentsOfLeaves(node, |vals|, vals);
  }

  /** Children that start with one leaf per component name, in order, read back as those leaves' texts. */
  lemma {:induction false} ComponentsOfLeaves(vector: Syntax, count: nat, vals: seq<string>)
    requires count <= 4 && |vals| == count && count <= |vector.children|
    requires forall j :: 0 <= j < count ==> vector.children[j] == Leaf(Parsing.ComponentNames[j], vals[j])
    ensures Components(vector, count) == Ok(vals)
  {
    if count > 0 {
      ComponentsOfLeaves(vector, count - 1, vals[..count - 1]);
      ComponentNamesDistinct();
      forall j | 0 <= j < count - 1 ensures vector.children[j].typ != Parsing.ComponentNames[count - 1] {
        assert vector.children[j].typ == Parsing.ComponentNames[j];
      }
      FirstOfTypeAt(vector.children, count - 1, Parsing.ComponentNames[count - 1]);
      assert vals == vals[..count - 1] + [vals[count - 1]];
    }
  }

  /** The component names are pairwise different. */
  lemma ComponentNamesDistinct()
    ensures forall i, j :: 0 <= i < j < |Parsing.ComponentNames| ==> Parsing.ComponentNames[i] != Parsing.ComponentNames[j]
  {
  }

  /** With distinct component names, the leaf at position `k` is the first of its type. */
  lemma {:induction false} FirstOfTypeAt(ss: seq<Syntax>, k: nat, typ: string)
    requires k < |ss| && ss[k].typ == typ
    requires forall j :: 0 <= j < k ==> ss[j].typ != typ
    ensures FirstOfType(ss, typ) == Some(ss[k])
  {
    if k > 0 {
      FirstOfTypeAt(ss[1..], k - 1, typ);
    }
  }

  // ---------------------------------------------------------------------------
  // Declared type against value type

  /** The value types a flat of declared type `t` accepts. */
  function AcceptedValueTypes(t: FlatType): set<FlatType> {
    match t
    case Float => {Float, Integer}
    case EulerAngles => {Vector3}
    case Quaternion => {Vector4}
    case CName => {String}
    case ResRef => {String}
    case LocKey => {String}
    case _ => {t}
  }

  /**
   * Whether a flat's value fits its declared type: an unresolved flat always
   * fits; otherwise both or neither must be arrays and the value's type must be
   * one the declared type accepts.
   */
  function CheckTypeConsistency(f: Node, v: Node): (r: Result<()>)
    requires f.Flat? && v.Value?
    ensures r.Ok? <==> f.flatType == Unresolved || (f.isArray == v.isArray && v.valueType in AcceptedValueTypes(f.flatType))
  {
    if f.flatType == Unresolved then Ok(())
    else if f.isArray != v.isArray then Err(Fatal)
    else if f.flatType == Float then
      if v.valueType != Float && v.valueType != Integer then Err(Fatal) else Ok(())
    else if f.flatType == EulerAngles then
      if v.valueType != Vector3 then Err(Fatal) else Ok(())
    else if f.flatType == Quaternion then
      if v.valueType != Vector4 then Err(Fatal) else Ok(())
    else if f.flatType == CName || f.flatType == ResRef || f.flatType == LocKey then
      if v.valueType != String then Err(Fatal) else Ok(())
    else if f.flatType != v.valueType then Err(Fatal)
    else Ok(())
  }

  // ---------------------------------------------------------------------------
  // Queries along parent links

  /** The root a node hangs from, following parent links; a node without a parent has none. */
  function GetRootNode(nodes: seq<Node>, roots: seq<Root>, i: nat): (r: Result<nat>)
    requires WellFormed(nodes, roots) && i < |nodes|
    ensures r.Ok? ==> r.value < |roots|
    ensures forall k: nat :: nodes[i].parent == Some(ParentRoot(k)) ==> r == Ok(k)
    decreases |nodes| - i
  {
    assert LinksOk(nodes, |roots|, i);
    match nodes[i].parent
    case None => Err(Fatal)
    case Some(ParentRoot(k)) => Ok(k)
    case Some(ParentNode(p)) => GetRootNode(nodes, roots, p)
  }

  /** The package context of the file a node belongs to. */
  function GetRootPackageContext(nodes: seq<Node>, roots: seq<Root>, i: nat): (r: Result<PackageContext>)
    requires WellFormed(nodes, roots) && i < |nodes|
    ensures r.Ok? <==> GetRootNode(nodes, roots, i).Ok?
    ensures r.Ok? ==> r.value == roots[GetRootNode(nodes, roots, i).value].ctx
  {
    var k :- GetRootNode(nodes, roots, i);
    Ok(roots[k].ctx)
  }

  /** Every node on a parent chain that ends at root `k` finds that root. */
  lemma {:induction false} ParentChainFindsRoot(nodes: seq<Node>, roots: seq<Root>, chain: seq<nat>, k: nat)
    requires WellFormed(nodes, roots) && |chain| > 0
    requires forall j :: 0 <= j < |chain| ==> chain[j] < |nodes|
    requires forall j :: 0 <= j < |chain| - 1 ==> nodes[chain[j]].parent == Some(ParentNode(chain[j + 1]))
    requires nodes[chain[|chain| - 1]].parent == Some(ParentRoot(k))
    ensures GetRootNode(nodes, roots, chain[0]) == Ok(k)
    decreases |chain|
  {
    if |chain| > 1 {
      ParentChainFindsRoot(nodes, roots, chain[1..], k);
    }
  }

  // ---------------------------------------------------------------------------
  // The arena

  class Graph {
    var nodes: seq<Node>
    var roots: seq<Root>

    ghost predicate Valid()
      reads this
    {
      WellFormed(nodes, roots)
    }

    constructor ()
      ensures nodes == [] && roots == [] && Valid()
    {
      nodes := [];
      roots := [];
    }

    /** Allocates node `n`; its links must already point at existing nodes. */
    method AddNode(n: Node) returns (i: nat)
      requires Valid() && LinksOk(nodes + [n], |roots|, |nodes|)
      modifies this
      ensures KindsKept(old(nodes), nodes) && |roots| >= |old(roots)|
      ensures Valid() && i == |old(nodes)| && nodes == old(nodes) + [n] && roots == old(roots)
    {
      var before := nodes;
      nodes := nodes + [n];
      i := |before|;
      assert KindsKept(before, nodes);
      forall j | 0 <= j < |before|
        ensures LinksOk(nodes, |roots|, j)
      {
        LinksTransfer(before, nodes, |roots|, |roots|, j);
      }
      RootsTransfer(before, nodes, roots);
    }

    /** Rewrites node `i` in place; it keeps its kind and its new links are fine. */
    method Put(i: nat, n: Node)
      requires Valid() && i < |nodes| && KindOf(n) == KindOf(nodes[i])
      requires LinksOk(nodes[i := n], |roots|, i)
      modifies this
      ensures KindsKept(old(nodes), nodes) && |roots| >= |old(roots)|
      ensures Valid() && nodes == old(nodes)[i := n] && roots == old(roots)
    {
      var before := nodes;
      nodes := nodes[i := n];
      assert KindsKept(before, nodes);
      forall j | 0 <= j < |nodes| && j != i
        ensures LinksOk(nodes, |roots|, j)
      {
        LinksTransfer(before, nodes, |roots|, |roots|, j);
      }
      RootsTransfer(before, nodes, roots);
    }

    /** Replaces the parent link of node `c`. */
    method SetParent(c: nat, p: Option<Parent>)
      requires Valid() && c < |nodes| && ParentOk(p, |roots|, c, |nodes|)
      modifies this
      ensures KindsKept(old(nodes), nodes) && |roots| >= |old(roots)|
      ensures Valid() && nodes == old(nodes)[c := WithParent(old(nodes[c]), p)] && roots == old(roots)
    {
      var n := WithParent(nodes[c], p);
      assert KindsKept(nodes, nodes[c := n]);
      LinksTransfer(nodes, nodes[c := n], |roots|, |roots|, c);
      Put(c, n);
    }

    /** Starts a new file root holding only its package context. */
    method AddRoot(ctx: PackageContext) returns (k: nat)
      requires Valid()
      modifies this
      ensures KindsKept(old(nodes), nodes) && |roots| >= |old(roots)|
      ensures Valid() && k == |old(roots)| && roots == old(roots) + [Root(ctx, [])] && nodes == old(nodes)
    {
      k := |roots|;
      roots := roots + [Root(ctx, [])];
      assert KindsKept(nodes, nodes);
      forall j | 0 <= j < |nodes|
        ensures LinksOk(nodes, |roots|, j)
      {
        LinksTransfer(nodes, nodes, k, |roots|, j);
      }
    }

    /** Appends `c` to root `k`'s children and makes the root its parent. */
    method AddRootChild(k: nat, c: nat)
      requires Valid() && k < |roots| && c < |nodes| && (nodes[c].Record? || nodes[c].Flat?)
      modifies this
      ensures KindsKept(old(nodes), nodes) && |roots| >= |old(roots)|
      ensures Valid()
      ensures roots == old(roots)[k := Root(old(roots[k]).ctx, old(roots[k]).children + [c])]
      ensures nodes == old(nodes)[c := WithParent(old(nodes[c]), Some(ParentRoot(k)))]
    {
      SetParent(c, Some(ParentRoot(k)));
      var before := roots;
      roots := roots[k := Root(roots[k].ctx, roots[k].children + [c])];
      forall k' | 0 <= k' < |roots|
        ensures forall c' :: c' in roots[k'].children ==> c' < |nodes| && (nodes[c'].Record? || nodes[c'].Flat?)
      {
        forall c' | c' in roots[k'].children
          ensures c' < |nodes| && (nodes[c'].Record? || nodes[c'].Flat?)
        {
          if k' != k || c' != c {
            assert c' in before[k'].children;
          }
        }
      }
    }

    /** Appends `c` to the children of record or value `p` and makes `p` its parent. */
    method AddChild(p: nat, c: nat)
      requires Valid() && c < p < |nodes| && !nodes[p].Flat?
      requires nodes[p].Record? ==> nodes[c].Flat?
      modifies this
      ensures KindsKept(old(nodes), nodes) && |roots| >= |old(roots)|
      ensures Valid() && roots == old(roots)
      ensures nodes == old(nodes)[p := WithChildren(old(nodes[p]), old(nodes[p].children) + [c])]
                                 [c := WithParent(old(nodes[c]), Some(ParentNode(p)))]
    {
      LinksWithChildren(nodes, |roots|, p, [c]);
      Put(p, WithChildren(nodes[p], nodes[p].children + [c]));
      SetParent(c, Some(ParentNode(p)));
    }

    /** Appends all of `cs`, in order, to the children of `p` and makes `p` the parent of each. */
    method AddChildRange(p: nat, cs: seq<nat>)
      requires Valid() && p < |nodes| && !nodes[p].Flat?
      requires forall c :: c in cs ==> c < p
      requires nodes[p].Record? ==> forall c :: c in cs ==> nodes[c].Flat?
      modifies this
      ensures KindsKept(old(nodes), nodes) && |roots| >= |old(roots)|
      ensures Valid() && roots == old(roots) && |nodes| == |old(nodes)|
      ensures nodes[p] == WithChildren(old(nodes[p]), old(nodes[p].children) + cs)
      ensures forall c :: c in cs ==> nodes[c] == WithParent(old(nodes[c]), Some(ParentNode(p)))
      ensures forall j :: 0 <= j < |nodes| && j != p && j !in cs ==> nodes[j] == old(nodes[j])
    {
      LinksWithChildren(nodes, |roots|, p, cs);
      Put(p, WithChildren(nodes[p], nodes[p].children + cs));
      for k := 0 to |cs|
        invariant Valid() && roots == old(roots) && |nodes| == |old(nodes)|
        invariant nodes[p] == WithChildren(old(nodes[p]), old(nodes[p].children) + cs)
        invariant forall c :: c in cs[..k] ==> c < p && nodes[c] == WithParent(old(nodes[c]), Some(ParentNode(p)))
        invariant forall j :: 0 <= j < |nodes| && j != p && j !in cs[..k] ==> nodes[j] == old(nodes[j])
      {
        assert cs[..k + 1] == cs[..k] + [cs[k]];
        assert cs[k] in cs;
        SetParent(cs[k], Some(ParentNode(p)));
      }
      assert cs[..|cs|] == cs;
    }

    /**
     * Allocates a flat whose only child is `value` and makes the flat the value's
     * parent. The flat starts without a foreign key and without a context.
     */
    method NewFlat(name: string, t: FlatType, isArray: bool, value: nat, op: OperatorType) returns (f: nat)
      requires Valid() && value < |nodes| && nodes[value].Value?
      modifies this
      ensures KindsKept(old(nodes), nodes) && |roots| >= |old(roots)|
      ensures Valid() && roots == old(roots) && f == |old(nodes)|
      ensures nodes == (old(nodes) + [Flat(name, t, isArray, value, op, None, None, NoContext, None)])
                         [value := WithParent(old(nodes[value]), Some(ParentNode(f)))]
      ensures Children(nodes[f]) == [value]
    {
      var n := Flat(name, t, isArray, value, op, None, None, NoContext, None);
      f := AddNode(n);
      SetParent(value, Some(ParentNode(f)));
    }

    /** The flat children of record `r`, in child order. */
    method GetFlats(r: nat) returns (flats: seq<nat>)
      requires Valid() && r < |nodes| && nodes[r].Record?
      ensures flats == FlatsOf(nodes, nodes[r].children)
    {
      var cs := nodes[r].children;
      assert LinksOk(nodes, |roots|, r);
      flats := [];
      for k := 0 to |cs|
        invariant flats == FlatsOf(nodes, cs[..k])
      {
        assert cs[k] in cs;
        FlatsOfSnoc(nodes, cs, k);
        if nodes[cs[k]].Flat? {
          flats := flats + [cs[k]];
        }
      }
      assert cs[..|cs|] == cs;
    }

    /** The first flat child of record `r` called `name`, if any. */
    method HasFlatWithName(r: nat, name: string) returns (found: Option<nat>)
      requires Valid() && r < |nodes| && nodes[r].Record?
      ensures found == FirstFlatNamed(nodes, nodes[r].children, name)
    {
      var cs := nodes[r].children;
      assert LinksOk(nodes, |roots|, r);
      for k := 0 to |cs|
        invariant NoFlatNamed(nodes, cs[..k], name)
      {
        assert cs[..k + 1] == cs[..k] + [cs[k]];
        FirstFlatNamedAppend(nodes, cs[..k], cs[k], name);
        assert cs[k] in cs;
        if nodes[cs[k]].Flat? && nodes[cs[k]].name == name {
          FirstFlatNamedPrefix(nodes, cs, k, name);
          return Some(cs[k]);
        }
      }
      assert cs[..|cs|] == cs;
      return None;
    }

    /** The component texts of value `v`, read in order x, y, z, a. */
    method ReadVectorData(v: nat) returns (r: Result<seq<string>>)
      requires Valid() && v < |nodes| && nodes[v].Value?
      ensures r == VectorData(nodes[v])
    {
      var value := nodes[v];
      if !IsVector(value.valueType) {
        return Err(Fatal);
      }
      var expected := VectorWidth(value.valueType);
      var vector := FirstWithTypePrefix(value.syntaxNodes, "value-vector");
      if vector.None? {
        return Err(Fatal);
      }
      var values: seq<string> := [];
      for i := 0 to expected
        invariant Components(vector.value, i) == Ok(values)
      {
        var c := FirstOfType(vector.value.children, Parsing.ComponentNames[i]);
        if c.None? || c.value.value.None? {
          ComponentsMissing(vector.value, i + 1, expected);
          return Err(Fatal);
        }
        values := values + [c.value.value.value];
      }
      return Ok(values);
    }

    /**
     * Merges an inherited flat into flat `f`. Flats with different names cannot
     * be merged; an assignment keeps `f` as it is; an append onto a non-array
     * fails; an append onto an array puts the inherited value's elements after
     * `f`'s own, changing `f`'s value in place. The inherited elements must be
     * older than `f`'s value, which holds for the fresh copies the flattener
     * merges into.
     */
    method MergeFrom(f: nat, parentFlat: nat) returns (r: Result<nat>)
      requires Valid() && f < |nodes| && parentFlat < |nodes| && nodes[f].Flat? && nodes[parentFlat].Flat?
      requires forall c :: c in ElementsOf(nodes, parentFlat) ==> c < nodes[f].value
      modifies this
      ensures KindsKept(old(nodes), nodes) && |roots| >= |old(roots)|
      ensures Valid() && roots == old(roots)
      ensures old(nodes[parentFlat].name != nodes[f].name) ==> r.Err? && nodes == old(nodes)
      ensures old(nodes[parentFlat].name == nodes[f].name) && old(nodes[f].op) == Assign ==>
        r == Ok(f) && nodes == old(nodes)
      ensures old(nodes[parentFlat].name == nodes[f].name) && old(nodes[f].op) == Append && !old(nodes[f].isArray) ==>
        r.Err? && nodes == old(nodes)
      ensures old(nodes[parentFlat].name == nodes[f].name) && old(nodes[f].op) == Append && old(nodes[f].isArray) ==>
        r == Ok(f) && nodes == old(AppendElements(nodes, f, ElementsOf(nodes, parentFlat)))
    {
      if nodes[parentFlat].name != nodes[f].name {
        return Err(Fatal);
      }
      if nodes[f].op == Assign {
        return Ok(f);
      }
      if !nodes[f].isArray && nodes[f].op == Append {
        return Err(Fatal);
      }
      assert LinksOk(nodes, |roots|, f);
      var v := nodes[f].value;
      LinksWithChildren(nodes, |roots|, v, ElementsOf(nodes, parentFlat));
      Put(v, WithChildren(nodes[v], nodes[v].children + ElementsOf(nodes, parentFlat)));
      return Ok(f);
    }
  }

  lemma FirstFlatNamedPrefix(nodes: seq<Node>, cs: seq<nat>, k: nat, name: string)
    requires k < |cs| && cs[k] < |nodes| && nodes[cs[k]].Flat? && nodes[cs[k]].name == name
    requires NoFlatNamed(nodes, cs[..k], name)
    ensures FirstFlatNamed(nodes, cs, name) == Some(cs[k])
  {
    var r := FirstFlatNamed(nodes, cs, name);
    assert cs[k] in cs;
    var j :| 0 <= j < |cs| && cs[j] == r.value && NoFlatNamed(nodes, cs[..j], name);
    InPrefix(cs, j, k);
    InPrefix(cs, k, j);
  }

  lemma InPrefix(cs: seq<nat>, j: nat, k: nat)
    ensures j < k <= |cs| ==> cs[j] in cs[..k]
  {
    if j < k <= |cs| {
      assert cs[..k][j] == cs[j];
    }
  }

  /** Once a component is missing, asking for more components fails too. */
  lemma {:induction false} ComponentsMissing(vector: Syntax, i: nat, count: nat)
    requires 1 <= i <= count <= 4
    requires var c := FirstOfType(vector.children, Parsing.ComponentNames[i - 1]); c.None? || c.value.value.None?
    ensures Components(vector, count) == Err(Fatal)
    decreases count
  {
    if count > i {
      ComponentsMissing(vector, i, count - 1);
    }
  }
}
