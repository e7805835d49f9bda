/**
 * Reference resolution: a pass over every analysed file that rewrites, in
 * place, the declared types of flats from the flats they override, resolves
 * foreign-key names to records, reconciles value types with flat types, marks
 * records as groups and as fully resolved, and fails on what it cannot
 * reconcile.
 *
 * The resolution stack of the source holds the records and flats being
 * resolved; a node on it is skipped. It is a set here, passed by value: on
 * success every push is matched by a pop, and any failure ends the whole pass.
 */
module Resolution {
  import opened Wrappers
  import opened Names
  import opened SemanticNodes
  import opened Registry
  import opened SetSizes
  import opened Analysis
  import opened Sanity

  // ---------------------------------------------------------------------------
  // Type reconciliation

  /** What reconciling a value with its flat does to the value. */
  datatype Cast = Keep | Retag(to: FlatType) | KeyFromString

  /**
   * How a value of type `vt` (an array when `va`) fits a non-array flat of
   * type `ft` (an array when `fa`).
   */
  function ScalarCast(ft: FlatType, fa: bool, vt: FlatType, va: bool): (r: Result<Cast>)
    ensures r == Ok(KeyFromString) <==> !(va == fa && vt == ft) && vt == String && ft == ForeignKey
  {
    if va == fa && vt == ft then Ok(Keep)
    else if vt == String && ft == ForeignKey then Ok(KeyFromString)
    else if vt == Integer && ft == Float then Ok(Retag(Float))
    else if vt == String && (ft == CName || ft == LocKey || ft == ResRef) then Ok(Keep)
    else if vt == Float && ft == Integer then Ok(Retag(Integer))
    else if vt == Vector3 && ft == EulerAngles then Ok(Keep)
    else if vt == Vector4 && ft == Quaternion then Ok(Keep)
    else Err(Fatal)
  }

  /** The value type after a cast. */
  function CastType(c: Cast, vt: FlatType): FlatType {
    if c.Retag? then c.to else vt
  }

  /**
   * When value and flat agree on being arrays, reconciliation succeeds exactly
   * when the types are equal, or the type consistency check accepts the value,
   * or the value is a string naming a foreign key, or it is a float under an
   * integer flat; a value of another type, reconciled other than from a
   * string, is left with a type the check accepts.
   */
  lemma ScalarCastAgreesWithConsistency(f: Node, v: Node)
    requires f.Flat? && v.Value? && f.flatType != Unresolved && f.isArray == v.isArray
    ensures var r := ScalarCast(f.flatType, f.isArray, v.valueType, v.isArray);
      (r.Ok? <==> v.valueType == f.flatType || CheckTypeConsistency(f, v).Ok?
                  || (v.valueType == String && f.flatType == ForeignKey)
                  || (v.valueType == Float && f.flatType == Integer))
      && (r.Ok? && r.value != KeyFromString && v.valueType != f.flatType ==>
            CheckTypeConsistency(f, v.(valueType := CastType(r.value, v.valueType))).Ok?)
  {
    match f.flatType
    case _ =>
      match v.valueType
      case _ =>
  }

  /**
   * How an array element of type `et` fits an array flat of type `ft` whose
   * own value has type `at`. The two vector branches look at the array's type,
   * not the element's.
   */
  function ElementCast(ft: FlatType, at: FlatType, et: FlatType): (r: Result<Cast>)
    ensures r.Ok? ==> r.value != KeyFromString
  {
    if et == ft then Ok(Keep)
    else if et == Integer && ft == Float then Ok(Retag(Float))
    else if et == Float && ft == Integer then Ok(Retag(Integer))
    else if et == String && (ft == CName || ft == ResRef || ft == LocKey) then Ok(Keep)
    else if at == Vector3 && ft == EulerAngles then Ok(Keep)
    else if at == Vector4 && ft == Quaternion then Ok(Keep)
    else Err(Fatal)
  }

  /**
   * Once the array's own type is the flat's, an element fits exactly when it
   * has the flat's type, is a number under a number flat, or is a string under
   * a name flat; vector elements of angle and quaternion arrays never fit.
   */
  lemma ElementCastOfRetypedArray(ft: FlatType, et: FlatType)
    ensures ElementCast(ft, ft, et).Ok? <==>
      et == ft || (et in {Integer, Float} && ft in {Integer, Float}) || (et == String && ft in {CName, ResRef, LocKey})
    ensures et != EulerAngles ==> ElementCast(EulerAngles, EulerAngles, et).Err?
    ensures et != Quaternion ==> ElementCast(Quaternion, Quaternion, et).Err?
  {
  }

  // ---------------------------------------------------------------------------
  // Flats that override an inherited flat

  /** A flat whose declared type is neither unresolved nor an inline record. */
  predicate Declared(n: Node)
    requires n.Flat?
  {
    n.flatType != Unresolved && n.flatType != InlineRecord
  }

  /** A flat with an array value, or appending to one, takes array overrides only. */
  predicate ArrayLike(p: Node)
    requires p.Flat?
  {
    p.isArray || p.op == Append
  }

  /**
   * Flat `f`, whose value is an array when `valueIsArray`, reconciled with the
   * root flat `p` it overrides, if any. With one, array-ness must fit (an
   * assignment of a non-array to an array-like flat, or an array to one that
   * is not, fails), a declared type must be `p`'s, and `f` takes `p`'s type,
   * array-ness and foreign key. Without one, `f` must have declared its type.
   */
  function InheritFlat(f: Node, valueIsArray: bool, p: Option<Node>): (r: Result<Node>)
    requires f.Flat? && (p.Some? ==> p.value.Flat?)
    ensures p.None? ==> (r.Ok? <==> Declared(f)) && (r.Ok? ==> r.value == f)
    ensures p.Some? ==>
      (r.Ok? <==> (!(ArrayLike(p.value) && !valueIsArray && f.op == Assign) && (ArrayLike(p.value) || !valueIsArray)
                   && (Declared(f) ==> f.flatType == p.value.flatType)))
    ensures r.Ok? ==>
      r.value.Flat? && r.value.name == f.name && r.value.value == f.value && r.value.op == f.op
      && r.value.ctx == f.ctx && r.value.parent == f.parent
    ensures r.Ok? && p.Some? ==>
      r.value.flatType == p.value.flatType && r.value.isArray == p.value.isArray
      && r.value.fkName == p.value.fkName && r.value.fkRef == p.value.fkRef
  {
    if p.Some? then
      var q := p.value;
      if (ArrayLike(q) && !valueIsArray && f.op == Assign) || (!ArrayLike(q) && valueIsArray) then Err(Fatal)
      else if Declared(f) && f.flatType != q.flatType then Err(Fatal)
      else Ok(f.(flatType := q.flatType, isArray := q.isArray, fkName := q.fkName, fkRef := q.fkRef))
    else if !Declared(f) then Err(Fatal)
    else Ok(f)
  }

  /** Overriding a declared flat keeps it declared; overriding is idempotent. */
  lemma InheritFlatDeclared(f: Node, valueIsArray: bool, p: Option<Node>)
    requires f.Flat? && (p.Some? ==> p.value.Flat? && Declared(p.value))
    requires InheritFlat(f, valueIsArray, p).Ok?
    ensures Declared(InheritFlat(f, valueIsArray, p).value)
    ensures InheritFlat(InheritFlat(f, valueIsArray, p).value, valueIsArray, p) == InheritFlat(f, valueIsArray, p)
  {
  }

  // ---------------------------------------------------------------------------
  // Subclasses

  /** The parentless record pairs that count as subclass and superclass although neither inherits. */
  const SpecialSubclasses: seq<(string, string)> := [
    ("AIActionChangeNPCState", "AISubAction"),
    ("Effector", "GameplayLogicPackage"),
    ("AISubAction", "AIActionLookAtData"),
    ("AISubAction", "ObjectActionEffect"),
    ("AIActionSubCondition", "AIActionCondition"),
    ("SearchFilterMaskTypeCondition", "SearchFilterMaskType"),
    ("StatModifier", "StatusEffectAttackData"),
    ("StatModifier", "StatModifierGroup"),
    ("IPrereq", "ObjectActionPrereq")
  ]

  /** Every reference in the arena names a record. */
  predicate RefsOk(nodes: seq<Node>) {
    forall i :: 0 <= i < |nodes| ==> IsRecordRef(nodes, RefOf(nodes[i]))
  }

  /**
   * The record an inheriting record `rec` inherits from: its resolved parent
   * when it has one, otherwise its parent's name looked up in its own
   * context; a name that denotes nothing is an error.
   */
  function NextAncestor(nodes: seq<Node>, packages: seq<PackageInfo>, rec: nat): (r: Result<nat>)
    requires RefsOk(nodes) && rec < |nodes| && nodes[rec].Record? && nodes[rec].inheritedFrom.Some?
    ensures r.Ok? ==> r.value < |nodes| && nodes[r.value].Record?
    ensures nodes[rec].inheritedFromRef.Some? ==> r == Ok(nodes[rec].inheritedFromRef.value)
  {
    assert IsRecordRef(nodes, RefOf(nodes[rec]));
    if nodes[rec].inheritedFromRef.Some? then Ok(nodes[rec].inheritedFromRef.value)
    else
      var p :- ParentRecord(nodes, packages, rec);
      if p.None? then Err(Fatal) else Ok(p.value)
  }

  /**
   * Whether record `sub` is `sup` or inherits from it, walking up from `sub`.
   * At a record that inherits from nothing the answer is yes only for the
   * special pairs, no when either record is unnamed, and an error when there
   * is no `sup` to compare names with. Meeting a record already walked past
   * (in `visited`) is an error: the chain is cyclic and the walk would not end.
   */
  function IsSubclassOf(nodes: seq<Node>, packages: seq<PackageInfo>, sub: nat, sup: Option<nat>, visited: set<nat>): (r: Result<bool>)
    requires RefsOk(nodes) && sub < |nodes| && nodes[sub].Record? && sub !in visited
    requires IsRecordRef(nodes, sup) && forall x :: x in visited ==> x < |nodes|
    decreases |nodes| - |visited|
  {
    if sup == Some(sub) then Ok(true)
    else if nodes[sub].inheritedFrom.None? then
      if nodes[sub].recordName.None? then Ok(false)
      else if sup.None? then Err(Fatal)
      else if nodes[sup.value].recordName.None? then Ok(false)
      else Ok((nodes[sub].recordName.value, nodes[sup.value].recordName.value) in SpecialSubclasses)
    else
      var next :- NextAncestor(nodes, packages, sub);
      if next in visited + {sub} then Err(Fatal)
      else
        IndicesSize(visited + {sub}, |nodes|);
        IsSubclassOf(nodes, packages, next, sup, visited + {sub})
  }

  /**
   * An ancestry chain: each record inherits, its next ancestor is the next
   * record, and the records are pairwise different.
   */
  predicate AncestryChain(nodes: seq<Node>, packages: seq<PackageInfo>, chain: seq<nat>)
    requires RefsOk(nodes)
  {
    |chain| >= 1
    && (forall j :: 0 <= j < |chain| ==> chain[j] < |nodes| && nodes[chain[j]].Record?)
    && (forall j, k :: 0 <= j < k < |chain| ==> chain[j] != chain[k])
    && (forall j :: 0 <= j < |chain| - 1 ==>
          nodes[chain[j]].inheritedFrom.Some? && NextAncestor(nodes, packages, chain[j]) == Ok(chain[j + 1]))
  }

  /** A record is a subclass of every record on an ancestry chain from it. */
  lemma {:induction false} AncestorsAreSuperclasses(nodes: seq<Node>, packages: seq<PackageInfo>, chain: seq<nat>, visited: set<nat>)
    requires RefsOk(nodes) && AncestryChain(nodes, packages, chain)
    requires forall x :: x in visited ==> x < |nodes|
    requires forall j :: 0 <= j < |chain| ==> chain[j] !in visited
    ensures IsSubclassOf(nodes, packages, chain[0], Some(chain[|chain| - 1]), visited) == Ok(true)
    decreases |chain|
  {
    if |chain| > 1 {
      var tail := chain[1..];
      assert AncestryChain(nodes, packages, tail) by {
        forall j, k | 0 <= j < k < |tail| ensures tail[j] != tail[k] {
          assert tail[j] == chain[j + 1] && tail[k] == chain[k + 1];
        }
        forall j | 0 <= j < |tail| - 1
          ensures nodes[tail[j]].inheritedFrom.Some? && NextAncestor(nodes, packages, tail[j]) == Ok(tail[j + 1])
        {
          assert tail[j] == chain[j + 1] && tail[j + 1] == chain[j + 2];
        }
      }
      forall j | 0 <= j < |tail| ensures tail[j] !in visited + {chain[0]} {
        assert tail[j] == chain[j + 1];
      }
      assert chain[|chain| - 1] != chain[0];
      AncestorsAreSuperclasses(nodes, packages, tail, visited + {chain[0]});
    }
  }

  /** A parentless record other than `sup` is its subclass exactly for the special pairs of names. */
  lemma ParentlessSubclass(nodes: seq<Node>, packages: seq<PackageInfo>, sub: nat, sup: nat)
    requires RefsOk(nodes) && sub < |nodes| && nodes[sub].Record? && sup < |nodes| && nodes[sup].Record?
    requires sub != sup && nodes[sub].inheritedFrom.None?
    ensures IsSubclassOf(nodes, packages, sub, Some(sup), {}) ==
      Ok(nodes[sub].recordName.Some? && nodes[sup].recordName.Some?
         && (nodes[sub].recordName.value, nodes[sup].recordName.value) in SpecialSubclasses)
  {
  }

  // ---------------------------------------------------------------------------
  // What a resolution step may change

  /**
   * `n` is `m` with at most the fields resolution fills in changed: a
   * record's group flag, resolved parent and resolved flag; a flat's type,
   * array-ness and foreign key; a value's type and foreign key. A declared
   * flat type is never changed.
   */
  predicate SameShape(m: Node, n: Node) {
    match m
    case Record(name, _, inh, _, _, ctx, cs, p) =>
      n.Record? && n.recordName == name && n.inheritedFrom == inh && n.ctx == ctx && n.children == cs && n.parent == p
    case Flat(name, t, _, v, op, _, _, ctx, p) =>
      n.Flat? && n.name == name && n.value == v && n.op == op && n.ctx == ctx && n.parent == p
      && (t != Unresolved && t != InlineRecord ==> n.flatType == t)
    case Value(_, a, ss, _, _, cs, p) =>
      n.Value? && n.isArray == a && n.syntaxNodes == ss && n.children == cs && n.parent == p
  }

  lemma ShapeFacts(m: Node, n: Node)
    requires SameShape(m, n)
    ensures KindOf(n) == KindOf(m) && Children(n) == Children(m) && n.parent == m.parent
    ensures m.Flat? && Declared(m) ==> n.flatType == m.flatType
  {
  }

  /** Every node of `b` has the shape of the node of `a` at the same index. */
  predicate Reshaped(a: seq<Node>, b: seq<Node>) {
    |a| == |b| && forall i :: 0 <= i < |a| ==> SameShape(a[i], b[i])
  }

  /** The index of the node a node hangs under, if it hangs under a node. */
  function ParentIndex(n: Node): Option<nat> {
    match n.parent
    case Some(ParentNode(p)) => Some(p)
    case _ => None
  }

  /** Every child names its owner as its parent. */
  predicate Owned(nodes: seq<Node>) {
    (forall i, c :: 0 <= i < |nodes| && c in Children(nodes[i]) ==> c < |nodes|)
    && (forall i, c :: 0 <= i < |nodes| && c in Children(nodes[i]) && c < |nodes| ==> nodes[c].parent == Some(ParentNode(i)))
  }

  /** Every top-level node names its file's root as its parent. */
  predicate RootOwned(nodes: seq<Node>, roots: seq<Root>) {
    (forall k, c :: 0 <= k < |roots| && c in roots[k].children ==> c < |nodes|)
    && (forall k, c :: 0 <= k < |roots| && c in roots[k].children && c < |nodes| ==> nodes[c].parent == Some(ParentRoot(k)))
  }

  /** No node lists the same child twice. */
  predicate DistinctChildren(nodes: seq<Node>) {
    forall i, j, k :: 0 <= i < |nodes| && 0 <= j < k < |Children(nodes[i])| ==> Children(nodes[i])[j] != Children(nodes[i])[k]
  }

  /** The arena and its registry are well-formed, parent links agree with ownership, and no child is listed twice. */
  ghost predicate Ready(gc: GlobalContext)
    reads gc, gc.graph
  {
    gc.Valid() && Owned(gc.graph.nodes) && RootOwned(gc.graph.nodes, gc.graph.roots) && DistinctChildren(gc.graph.nodes)
  }

  /** Flat `f`, when it belongs to a record, belongs to one on stack `S`. */
  predicate UnderStack(a: seq<Node>, S: set<nat>, f: nat)
    requires f < |a|
  {
    var p := ParentIndex(a[f]);
    p.Some? && p.value < |a| && a[p.value].Record? ==> p.value in S
  }

  /** Flat `f` belongs to a record already resolved. */
  predicate InResolvedRecord(a: seq<Node>, f: nat)
    requires f < |a|
  {
    var p := ParentIndex(a[f]);
    p.Some? && p.value < |a| && a[p.value].Record? && a[p.value].isFullyResolved
  }

  /**
   * The resolution stack: indices of records and flats, each flat on it
   * belonging to a record on it, if to any.
   */
  predicate StackOk(a: seq<Node>, S: set<nat>) {
    forall x :: x in S ==> x < |a| && !a[x].Value? && (a[x].Flat? ==> UnderStack(a, S, x))
  }

  /**
   * Flat `i` is pinned under stack `S`: it is on the stack, or top-level, or
   * belongs to a record on the stack or already resolved, or to a value of a
   * flat on the stack. Only the flats a step is about may rewrite a pinned
   * flat; others may only resolve its key.
   */
  predicate Pinned(a: seq<Node>, S: set<nat>, i: nat)
    requires i < |a|
  {
    i in S || match a[i].parent
      case Some(ParentRoot(_)) => true
      case Some(ParentNode(p)) =>
        p < |a| && ((a[p].Record? && (p in S || a[p].isFullyResolved)) || (a[p].Value? && OwnedIn(a, S, p)))
      case None => false
  }

  /** Value `i` is the value of a flat on stack `S`, or an element of one. */
  predicate OwnedIn(a: seq<Node>, S: set<nat>, i: nat)
    requires i < |a|
  {
    var p := ParentIndex(a[i]);
    p.Some? && p.value < |a|
    && ((a[p.value].Flat? && p.value in S)
        || (a[p.value].Value? && var q := ParentIndex(a[p.value]); q.Some? && q.value < |a| && a[q.value].Flat? && q.value in S))
  }

  /** Flat `n` is flat `m`, except that a foreign key `m` names but has not resolved may now be resolved. */
  predicate KeyFilled(m: Node, n: Node) {
    m.Flat? && n.Flat? && n == Flat(m.name, m.flatType, m.isArray, m.value, m.op, m.fkName, n.fkRef, m.ctx, m.parent)
    && (m.fkRef.Some? || m.fkName.None? ==> n.fkRef == m.fkRef)
  }

  /** A flat whose named foreign key is resolved, and which names one when it is a foreign key. */
  predicate KeyResolved(n: Node)
    requires n.Flat?
  {
    (n.fkName.Some? ==> n.fkRef.Some?) && (n.flatType == ForeignKey ==> n.fkName.Some?)
  }

  /** Every flat of record `r` is sane. */
  predicate RecordFlatsSane(b: seq<Node>, r: nat)
    requires r < |b| && b[r].Record?
  {
    forall c :: c in b[r].children && c < |b| && b[c].Flat? ==> FlatSane(b[c])
  }

  /** Every record marked fully resolved is sane, and so are its flats. */
  predicate ResolvedSane(b: seq<Node>) {
    forall r :: 0 <= r < |b| && b[r].Record? && b[r].isFullyResolved ==> RecordSane(b[r]) && RecordFlatsSane(b, r)
  }

  /** Records on the stack or already resolved are left as they are. */
  predicate RecordsKept(a: seq<Node>, b: seq<Node>, S: set<nat>)
    requires |a| == |b|
  {
    forall i :: 0 <= i < |a| && a[i].Record? && (i in S || a[i].isFullyResolved) ==> b[i] == a[i]
  }

  /** Pinned flats other than those in `w` at most get their named foreign key resolved. */
  predicate FlatsKept(a: seq<Node>, b: seq<Node>, S: set<nat>, w: set<nat>)
    requires |a| == |b|
  {
    forall i :: 0 <= i < |a| && a[i].Flat? && i !in w && Pinned(a, S, i) ==> KeyFilled(a[i], b[i])
  }

  /** A record marked resolved by the step is sane, and so are its flats. */
  predicate NewlyResolvedSane(a: seq<Node>, b: seq<Node>)
    requires |a| == |b|
  {
    forall i :: 0 <= i < |a| && a[i].Record? && !a[i].isFullyResolved && b[i].Record? && b[i].isFullyResolved ==>
      RecordSane(b[i]) && RecordFlatsSane(b, i)
  }

  /** The values of the flats on the stack, and their elements, are left as they are. */
  predicate ValuesKept(a: seq<Node>, b: seq<Node>, S: set<nat>)
    requires |a| == |b|
  {
    forall i :: 0 <= i < |a| && a[i].Value? && OwnedIn(a, S, i) ==> b[i] == a[i]
  }

  /**
   * What a successful resolution step under stack `S`, rewriting the flats in
   * `w`, does to the arena: it keeps every node's shape, leaves alone the
   * records on the stack or already resolved, the pinned flats other than `w`
   * (save for resolving a named key) and the values of flats on the stack, and
   * marks a record resolved only once it and its flats are sane.
   */
  predicate Step(a: seq<Node>, b: seq<Node>, S: set<nat>, w: set<nat>) {
    Reshaped(a, b) && RecordsKept(a, b, S) && FlatsKept(a, b, S, w) && NewlyResolvedSane(a, b) && ValuesKept(a, b, S)
  }

  lemma StepRefl(a: seq<Node>, S: set<nat>, w: set<nat>)
    ensures Step(a, a, S, w)
  {
    forall i | 0 <= i < |a| ensures SameShape(a[i], a[i]) {
      match a[i]
      case _ =>
    }
  }

  /** Reshaping keeps each node's kind, children, parent and declared flat type. */
  lemma ReshapedNodes(a: seq<Node>, b: seq<Node>)
    requires Reshaped(a, b)
    ensures KindsKept(a, b)
    ensures forall i :: 0 <= i < |a| ==> Children(b[i]) == Children(a[i]) && b[i].parent == a[i].parent
    ensures forall i :: 0 <= i < |a| && Concrete(a, i) ==> Concrete(b, i)
  {
    forall i | 0 <= i < |a|
      ensures KindOf(b[i]) == KindOf(a[i]) && Children(b[i]) == Children(a[i]) && b[i].parent == a[i].parent
      ensures Concrete(a, i) ==> Concrete(b, i)
    {
      ShapeFacts(a[i], b[i]);
    }
  }

  lemma ReshapedOwned(a: seq<Node>, b: seq<Node>, roots: seq<Root>)
    requires Reshaped(a, b)
    ensures Owned(a) ==> Owned(b)
    ensures RootOwned(a, roots) ==> RootOwned(b, roots)
    ensures DistinctChildren(a) ==> DistinctChildren(b)
  {
    ReshapedNodes(a, b);
    if Owned(a) {
      forall i, c | 0 <= i < |b| && c in Children(b[i]) && c < |b| ensures b[c].parent == Some(ParentNode(i)) {
        assert c in Children(a[i]);
      }
    }
  }

  /** Reshaping keeps kinds, ownership, the stack's well-formedness and where values and flats hang. */
  lemma ReshapedKeeps(a: seq<Node>, b: seq<Node>, roots: seq<Root>, S: set<nat>)
    requires Reshaped(a, b)
    ensures KindsKept(a, b)
    ensures Owned(a) ==> Owned(b)
    ensures RootOwned(a, roots) ==> RootOwned(b, roots)
    ensures DistinctChildren(a) ==> DistinctChildren(b)
    ensures StackOk(a, S) ==> StackOk(b, S)
    ensures forall i :: 0 <= i < |a| && Concrete(a, i) ==> Concrete(b, i)
    ensures forall i :: 0 <= i < |a| && a[i].Value? ==> (OwnedIn(b, S, i) <==> OwnedIn(a, S, i))
    ensures forall i :: 0 <= i < |a| && a[i].Flat? ==> (UnderStack(b, S, i) <==> UnderStack(a, S, i))
  {
    ReshapedNodes(a, b);
    ReshapedOwned(a, b, roots);
    ReshapedStack(a, b, S);
  }

  lemma ReshapedStack(a: seq<Node>, b: seq<Node>, S: set<nat>)
    requires Reshaped(a, b)
    ensures StackOk(a, S) ==> StackOk(b, S)
    ensures forall i :: 0 <= i < |a| && a[i].Value? ==> (OwnedIn(b, S, i) <==> OwnedIn(a, S, i))
    ensures forall i :: 0 <= i < |a| && a[i].Flat? ==> (UnderStack(b, S, i) <==> UnderStack(a, S, i))
  {
    ReshapedNodes(a, b);
  }

  /** Under the same stack, a pinned flat stays pinned: records only become resolved. */
  lemma PinnedKept(a: seq<Node>, b: seq<Node>, S: set<nat>, w: set<nat>, i: nat)
    requires Step(a, b, S, w) && i < |a| && Pinned(a, S, i)
    ensures Pinned(b, S, i)
  {
    ReshapedKeeps(a, b, [], S);
    ShapeFacts(a[i], b[i]);
    match a[i].parent
    case Some(ParentNode(p)) =>
      if p < |a| {
        ShapeFacts(a[p], b[p]);
      }
    case _ =>
  }

  lemma KeyFilledTrans(m: Node, n: Node, o: Node)
    requires KeyFilled(m, n) && KeyFilled(n, o)
    ensures KeyFilled(m, o)
  {
  }

  /** Resolving a named key keeps a sane flat sane, and a flat whose key is resolved as it is. */
  lemma KeyFilledSane(m: Node, n: Node)
    requires KeyFilled(m, n)
    ensures FlatSane(m) ==> FlatSane(n)
    ensures KeyResolved(m) ==> n == m
  {
  }

  lemma ReshapedTrans(a: seq<Node>, b: seq<Node>, c: seq<Node>)
    requires Reshaped(a, b) && Reshaped(b, c)
    ensures Reshaped(a, c)
  {
    forall i | 0 <= i < |a| ensures SameShape(a[i], c[i]) {
      ShapeFacts(a[i], b[i]);
      ShapeFacts(b[i], c[i]);
    }
  }

  lemma FlatsKeptTrans(a: seq<Node>, b: seq<Node>, c: seq<Node>, S: set<nat>, w1: set<nat>, w2: set<nat>)
    requires Step(a, b, S, w1) && Step(b, c, S, w2)
    ensures FlatsKept(a, c, S, w1 + w2)
  {
    forall i | 0 <= i < |a| && a[i].Flat? && i !in w1 + w2 && Pinned(a, S, i) ensures KeyFilled(a[i], c[i]) {
      PinnedKept(a, b, S, w1, i);
      KeyFilledTrans(a[i], b[i], c[i]);
    }
  }

  lemma NewlyResolvedTrans(a: seq<Node>, b: seq<Node>, c: seq<Node>, S: set<nat>, w1: set<nat>, w2: set<nat>)
    requires Step(a, b, S, w1) && Step(b, c, S, w2) && Owned(b)
    requires forall x :: x in w2 && x < |b| ==> !InResolvedRecord(b, x)
    ensures NewlyResolvedSane(a, c)
  {
    forall i | 0 <= i < |a| && a[i].Record? && !a[i].isFullyResolved && c[i].Record? && c[i].isFullyResolved
      ensures RecordSane(c[i]) && RecordFlatsSane(c, i)
    {
      if b[i].isFullyResolved {
        assert c[i] == b[i];
        forall x | x in c[i].children && x < |c| && c[x].Flat? ensures FlatSane(c[x]) {
          assert x in Children(b[i]);
          ShapeFacts(b[x], c[x]);
          assert Pinned(b, S, x) && ParentIndex(b[x]) == Some(i);
          KeyFilledSane(b[x], c[x]);
        }
      }
    }
  }

  /**
   * Two steps compose, provided the flats the second rewrites belong to no
   * record resolved before it.
   */
  lemma StepTrans(a: seq<Node>, b: seq<Node>, c: seq<Node>, S: set<nat>, w1: set<nat>, w2: set<nat>)
    requires Step(a, b, S, w1) && Step(b, c, S, w2) && Owned(b)
    requires forall x :: x in w2 && x < |b| ==> !InResolvedRecord(b, x)
    ensures Step(a, c, S, w1 + w2)
  {
    ReshapedTrans(a, b, c);
    ReshapedKeeps(a, b, [], S);
    FlatsKeptTrans(a, b, c, S, w1, w2);
    NewlyResolvedTrans(a, b, c, S, w1, w2);
  }

  /** A step under a larger stack, rewriting flats not pinned under the smaller one, is a step under the smaller one. */
  lemma StepWeaken(a: seq<Node>, b: seq<Node>, S: set<nat>, w: set<nat>, S0: set<nat>, w0: set<nat>)
    requires Step(a, b, S, w) && S0 <= S
    requires forall x :: x in w && x < |a| && a[x].Flat? && Pinned(a, S0, x) ==> x in w0
    ensures Step(a, b, S0, w0)
  {
    assert FlatsKept(a, b, S0, w0) by {
      forall i | 0 <= i < |a| && a[i].Flat? && i !in w0 && Pinned(a, S0, i) ensures KeyFilled(a[i], b[i]) {
        assert Pinned(a, S, i);
      }
    }
    assert ValuesKept(a, b, S0) by {
      forall i | 0 <= i < |a| && a[i].Value? && OwnedIn(a, S0, i) ensures b[i] == a[i] {
        assert OwnedIn(a, S, i);
      }
    }
  }

  /** Rewriting one node within what a step allows is a step. */
  lemma StepWrite(a: seq<Node>, i: nat, n: Node, S: set<nat>, w: set<nat>)
    requires i < |a| && SameShape(a[i], n)
    requires a[i].Record? ==>
      i !in S && !a[i].isFullyResolved && (n.isFullyResolved ==> RecordSane(n) && RecordFlatsSane(a[i := n], i))
    requires a[i].Flat? ==> i in w || !Pinned(a, S, i) || KeyFilled(a[i], n)
    requires a[i].Value? ==> !OwnedIn(a, S, i)
    ensures Step(a, a[i := n], S, w)
  {
    var b := a[i := n];
    forall j | 0 <= j < |a| ensures SameShape(a[j], b[j]) {
      if j != i {
        match a[j]
        case _ =>
      }
    }
  }

  /** A step keeps resolved records sane, provided the flats it rewrites belong to no resolved record. */
  lemma StepResolvedSane(a: seq<Node>, b: seq<Node>, S: set<nat>, w: set<nat>)
    requires Step(a, b, S, w) && Owned(a) && ResolvedSane(a)
    requires forall x :: x in w && x < |a| ==> !InResolvedRecord(a, x)
    ensures ResolvedSane(b)
  {
    forall r | 0 <= r < |b| && b[r].Record? && b[r].isFullyResolved ensures RecordSane(b[r]) && RecordFlatsSane(b, r) {
      ShapeFacts(a[r], b[r]);
      if a[r].isFullyResolved {
        assert b[r] == a[r];
        forall x | x in b[r].children && x < |b| && b[x].Flat? ensures FlatSane(b[x]) {
          assert x in Children(a[r]);
          ShapeFacts(a[x], b[x]);
          assert Pinned(a, S, x) && ParentIndex(a[x]) == Some(r);
          KeyFilledSane(a[x], b[x]);
        }
      }
    }
  }

  /** Rewriting a node within its shape keeps the links of the arena fine when its new reference names a record. */
  lemma LinksRewrite(a: seq<Node>, roots: seq<Root>, i: nat, n: Node)
    requires WellFormed(a, roots) && i < |a| && SameShape(a[i], n) && IsRecordRef(a, RefOf(n))
    ensures LinksOk(a[i := n], |roots|, i) && KindOf(n) == KindOf(a[i])
  {
    var b := a[i := n];
    ShapeFacts(a[i], n);
    assert LinksOk(a, |roots|, i);
    assert KindsKept(a, b) by {
      forall j | 0 <= j < |a| ensures KindOf(b[j]) == KindOf(a[j]) {
      }
    }
    assert IsRecordRef(b, RefOf(n)) by {
      if RefOf(n).Some? {
        assert KindOf(b[RefOf(n).value]) == KindOf(a[RefOf(n).value]);
      }
    }
    match n
    case Record(_, _, _, _, _, _, cs, _) =>
      forall c | c in cs ensures c < i && b[c].Flat? {
        assert c in Children(a[i]);
        assert KindOf(b[c]) == KindOf(a[c]);
      }
    case Flat(_, _, _, v, _, _, _, _, _) =>
      assert v in Children(a[i]);
      assert KindOf(b[v]) == KindOf(a[v]);
    case Value(_, _, _, _, _, cs, _) =>
      forall c | c in cs ensures c < i {
        assert c in Children(a[i]);
      }
  }

  /** Rewrites node `i` of the arena within its shape; the new reference, if any, names a record. */
  method Rewrite(gc: GlobalContext, i: nat, n: Node)
    requires Ready(gc) && i < |gc.graph.nodes| && SameShape(gc.graph.nodes[i], n)
    requires IsRecordRef(gc.graph.nodes, RefOf(n))
    modifies gc.graph
    ensures Ready(gc) && gc.graph.nodes == old(gc.graph.nodes)[i := n] && gc.graph.roots == old(gc.graph.roots)
  {
    var a := gc.graph.nodes;
    LinksRewrite(a, gc.graph.roots, i, n);
    gc.graph.Put(i, n);
    assert Reshaped(a, gc.graph.nodes) by {
      forall j | 0 <= j < |a| ensures SameShape(a[j], gc.graph.nodes[j]) {
        if j != i {
          match a[j]
          case _ =>
        }
      }
    }
    ReshapedKeeps(a, gc.graph.nodes, gc.graph.roots, {});
    RegistryTransfer(a, gc.graph.nodes, |gc.graph.roots|, |gc.graph.roots|, gc.packages, gc.rootNodes, gc.freeRecords, gc.freeFlats);
  }

  // ---------------------------------------------------------------------------
  // Lookups do not depend on what resolution changes

  lemma MatchesReshaped(a: seq<Node>, b: seq<Node>, r: nat, t: string)
    requires Reshaped(a, b)
    ensures NameMatch(b, r, t) == NameMatch(a, r, t) && BaseMatch(b, r, t) == BaseMatch(a, r, t)
  {
    if r < |a| {
      ShapeFacts(a[r], b[r]);
    }
  }

  lemma {:induction false} FirstRecordNamedReshaped(a: seq<Node>, b: seq<Node>, rs: seq<nat>, n: string)
    requires Reshaped(a, b)
    ensures FirstRecordNamed(b, rs, n) == FirstRecordNamed(a, rs, n)
    decreases |rs|
  {
    if |rs| > 0 {
      FirstRecordNamedReshaped(a, b, rs[..|rs| - 1], n);
      MatchesReshaped(a, b, rs[|rs| - 1], n);
    }
  }

  lemma SearchReshaped(a: seq<Node>, b: seq<Node>, packages: seq<PackageInfo>, cands: seq<string>, t: string)
    requires Reshaped(a, b)
    ensures SearchByBaseName(b, packages, cands, t) == SearchByBaseName(a, packages, cands, t)
  {
    forall k | 0 <= k < |cands| ensures PackageMatch(b, packages, cands[k], t) == PackageMatch(a, packages, cands[k], t) {
      match FindPackage(packages, cands[k])
      case None =>
      case Some(i) =>
        var rs := packages[i].records;
        forall j | 0 <= j < |rs| ensures BaseMatch(b, rs[j], t) == BaseMatch(a, rs[j], t) {
          MatchesReshaped(a, b, rs[j], t);
        }
        assert RecordAnswers(b, rs, t) == RecordAnswers(a, rs, t);
    }
    assert PackageAnswers(b, packages, cands, t) == PackageAnswers(a, packages, cands, t);
  }

  /** A lookup reads only record names: reshaping the arena and appending empty packages do not change it. */
  lemma LookupReshaped(a: seq<Node>, b: seq<Node>, ps: seq<PackageInfo>, qs: seq<PackageInfo>, t: Option<string>, ctx: Option<PackageContext>)
    requires Reshaped(a, b) && EmptyExtension(ps, qs)
    ensures LookupRecordType(b, qs, t, ctx) == LookupRecordType(a, ps, t, ctx)
  {
    LookupStable(b, ps, qs, t, ctx);
    if t.Some? && '.' in t.value {
      var ids := Split(t.value, '.');
      if |ids| == 2 && FindPackage(ps, ids[0]).Some? {
        FirstRecordNamedReshaped(a, b, ps[FindPackage(ps, ids[0]).value].records, ids[1]);
      }
    } else if t.Some? && ctx.Some? {
      SearchReshaped(a, b, ps, LookupCandidates(ctx.value), t.value);
    }
  }

  /** Lookups agree across two states reached from the same packages `p0` by appending empty ones. */
  lemma LookupMoved(a: seq<Node>, ps: seq<PackageInfo>, b: seq<Node>, qs: seq<PackageInfo>, p0: seq<PackageInfo>,
                    t: Option<string>, ctx: Option<PackageContext>)
    requires Reshaped(a, b) && EmptyExtension(p0, ps) && EmptyExtension(p0, qs)
    ensures LookupRecordType(b, qs, t, ctx) == LookupRecordType(a, ps, t, ctx)
  {
    LookupReshaped(a, b, p0, qs, t, ctx);
    LookupStable(a, p0, ps, t, ctx);
  }

  /** Appending empty packages does not change a record's next ancestor. */
  lemma NextAncestorStable(nodes: seq<Node>, ps: seq<PackageInfo>, qs: seq<PackageInfo>, rec: nat)
    requires EmptyExtension(ps, qs)
    requires RefsOk(nodes) && rec < |nodes| && nodes[rec].Record? && nodes[rec].inheritedFrom.Some?
    ensures NextAncestor(nodes, qs, rec) == NextAncestor(nodes, ps, rec)
  {
    LookupStable(nodes, ps, qs, nodes[rec].inheritedFrom, Some(nodes[rec].ctx));
  }

  /** Appending empty packages does not change the subclass walk. */
  lemma {:induction false} IsSubclassOfStable(nodes: seq<Node>, ps: seq<PackageInfo>, qs: seq<PackageInfo>,
                                              sub: nat, sup: Option<nat>, visited: set<nat>)
    requires EmptyExtension(ps, qs)
    requires RefsOk(nodes) && sub < |nodes| && nodes[sub].Record? && sub !in visited
    requires IsRecordRef(nodes, sup) && forall x :: x in visited ==> x < |nodes|
    ensures IsSubclassOf(nodes, qs, sub, sup, visited) == IsSubclassOf(nodes, ps, sub, sup, visited)
    decreases |nodes| - |visited|
  {
    if sup != Some(sub) && nodes[sub].inheritedFrom.Some? {
      NextAncestorStable(nodes, ps, qs, sub);
      var next := NextAncestor(nodes, ps, sub);
      if next.Ok? && next.value !in visited + {sub} {
        IndicesSize(visited + {sub}, |nodes|);
        AddSize(visited, sub);
        IsSubclassOfStable(nodes, ps, qs, next.value, sup, visited + {sub});
      }
    }
  }

  /** Every flat's value is a value node. */
  predicate FlatValues(a: seq<Node>) {
    forall i :: 0 <= i < |a| && a[i].Flat? ==> a[i].value < |a| && a[a[i].value].Value?
  }

  /** The links of a well-formed arena: references name records, a flat's value is a value node, a record's children are flats. */
  lemma LinkFacts(a: seq<Node>, roots: seq<Root>)
    requires WellFormed(a, roots)
    ensures RefsOk(a)
    ensures FlatValues(a) && Ordered(a)
    ensures forall i, c :: 0 <= i < |a| && a[i].Record? && c in a[i].children ==> c < |a| && a[c].Flat?
  {
    WellFormedOrdered(a, roots);
    forall i | 0 <= i < |a|
      ensures IsRecordRef(a, RefOf(a[i]))
      ensures a[i].Flat? ==> a[i].value < |a| && a[a[i].value].Value?
      ensures a[i].Record? ==> forall c :: c in a[i].children ==> c < |a| && a[c].Flat?
    {
      assert LinksOk(a, |roots|, i);
    }
  }

  // ---------------------------------------------------------------------------
  // What resolution makes of a record, a flat and a value

  /** Flat `F` with its foreign-key reference set to `ref`. */
  function FlatWithKey(F: Node, ref: Option<nat>): Node
    requires F.Flat?
  {
    Flat(F.name, F.flatType, F.isArray, F.value, F.op, F.fkName, ref, F.ctx, F.parent)
  }

  lemma FlatWithKeyShape(F: Node, ref: Option<nat>)
    requires F.Flat?
    ensures SameShape(F, FlatWithKey(F, ref)) && RefOf(FlatWithKey(F, ref)) == ref
    ensures F.fkName.Some? && F.fkRef.None? ==> KeyFilled(F, FlatWithKey(F, ref))
  {
  }

  /** Value `V` with type `t` and foreign key `name`, `ref`. */
  function ValueWith(V: Node, t: FlatType, name: Option<string>, ref: Option<nat>): Node
    requires V.Value?
  {
    Value(t, V.isArray, V.syntaxNodes, name, ref, V.children, V.parent)
  }

  /** A value typed as a foreign key or an inline record is resolved as a foreign key. */
  function KeyType(t: FlatType): FlatType {
    if t == ForeignKey || t == InlineRecord then ForeignKey else t
  }

  /** Type name `t` denotes a record in context `ctx`. */
  predicate Finds(a: seq<Node>, ps: seq<PackageInfo>, t: Option<string>, ctx: PackageContext) {
    LookupRecordType(a, ps, t, Some(ctx)).Ok? && LookupRecordType(a, ps, t, Some(ctx)).value.Some?
  }

  /**
   * Record `r` as resolving it leaves it, from the arena and packages when its
   * resolution starts: a parentless record is only marked resolved in the
   * RTDB package, also becomes a group directly under a file's root, and
   * fails anywhere else; an inheriting record whose parent's name denotes no
   * record fails, otherwise it refers to that parent, becomes a group when
   * the parent is one (as the parent stands before it is resolved itself)
   * and is marked resolved.
   */
  function ResolvedRecord(a: seq<Node>, ps: seq<PackageInfo>, r: nat): (res: Result<Node>)
    requires r < |a| && a[r].Record? && RefsOk(a)
    ensures res.Ok? ==> SameShape(a[r], res.value) && RecordSane(res.value) && IsRecordRef(a, res.value.inheritedFromRef)
    ensures res.Ok? ==> (a[r].isGroup ==> res.value.isGroup)
    ensures res.Ok? && a[r].inheritedFrom.Some? ==>
      LookupRecordType(a, ps, a[r].inheritedFrom, Some(a[r].ctx)) == Ok(res.value.inheritedFromRef)
    ensures res.Err? <==>
      (a[r].inheritedFrom.None? && a[r].ctx.name != Some("RTDB") && !(a[r].parent.Some? && a[r].parent.value.ParentRoot?))
      || (a[r].inheritedFrom.Some? && !Finds(a, ps, a[r].inheritedFrom, a[r].ctx))
  {
    var n := a[r];
    if n.inheritedFrom.None? then
      if n.ctx.name == Some("RTDB") then Ok(n.(isFullyResolved := true))
      else if n.parent.Some? && n.parent.value.ParentRoot? then Ok(n.(isGroup := true, isFullyResolved := true))
      else Err(Fatal)
    else
      match LookupRecordType(a, ps, n.inheritedFrom, Some(n.ctx))
      case Err(e) => Err(e)
      case Ok(p) =>
        if p.None? then Err(Fatal)
        else Ok(n.(isGroup := n.isGroup || a[p.value].isGroup, inheritedFromRef := p, isFullyResolved := true))
  }

  /**
   * Value `V0` of non-array flat `F` as resolution leaves it (`V1`). A foreign
   * key or inline value becomes a foreign key: it takes the flat's key when
   * it names none or the flat's, else refers to the record its own name
   * denotes. The type is then reconciled with the flat's; a non-empty string
   * on a foreign-key flat is named after its text and refers to the record
   * that text denotes, an empty one is left as it is.
   */
  predicate ScalarReconciled(a: seq<Node>, ps: seq<PackageInfo>, V0: Node, V1: Node, F: Node) {
    V0.Value? && V1.Value? && F.Flat?
    && var vt := KeyType(V0.valueType);
    var c := ScalarCast(F.flatType, F.isArray, vt, V0.isArray);
    c.Ok? && V1 == ValueWith(V0, CastType(c.value, vt), V1.fkName, V1.fkRef)
    && (if vt == ForeignKey then
          if V0.fkName.None? || V0.fkName == F.fkName then V1.fkName == F.fkName && V1.fkRef == F.fkRef
          else V1.fkName == V0.fkName && V1.fkRef.Some? && LookupRecordType(a, ps, V0.fkName, Some(F.ctx)) == Ok(V1.fkRef)
        else if c.value == KeyFromString then
          StringValue(V0).Ok?
          && if StringValue(V0).value == "" then V1.fkName == V0.fkName && V1.fkRef == V0.fkRef
             else V1.fkName == Some(StringValue(V0).value) && V1.fkRef.Some?
                  && LookupRecordType(a, ps, V1.fkName, Some(F.ctx)) == Ok(V1.fkRef)
        else V1.fkName == V0.fkName && V1.fkRef == V0.fkRef)
  }

  /** Value `V0` of non-array flat `F` reconciled to `V1`, which refers to a record if it is a foreign key. */
  predicate ScalarResolved(a: seq<Node>, ps: seq<PackageInfo>, V0: Node, V1: Node, F: Node) {
    ScalarReconciled(a, ps, V0, V1, F) && (V1.valueType == ForeignKey ==> V1.fkRef.Some?)
  }

  /** The value of non-array flat `F` names a key of its own: one other than the flat's, or a non-empty string on a foreign-key flat. */
  predicate OwnKey(V0: Node, F: Node)
    requires V0.Value? && F.Flat?
  {
    var vt := KeyType(V0.valueType);
    if vt == ForeignKey then V0.fkName.Some? && V0.fkName != F.fkName
    else ScalarCast(F.flatType, F.isArray, vt, V0.isArray) == Ok(KeyFromString)
         && StringValue(V0).Ok? && StringValue(V0).value != ""
  }

  /** The name of the key the value of a non-array flat names of its own. */
  function OwnKeyName(V0: Node): Option<string>
    requires V0.Value?
  {
    if KeyType(V0.valueType) == ForeignKey then V0.fkName
    else if StringValue(V0).Ok? then Some(StringValue(V0).value)
    else None
  }

  /** Type name `t` denotes a record in context `ctx`, and that record is not known to be a subclass of `sup`. */
  predicate NotSubclass(a: seq<Node>, ps: seq<PackageInfo>, t: Option<string>, ctx: PackageContext, sup: Option<nat>) {
    Finds(a, ps, t, ctx) && RefsOk(a) && IsRecordRef(a, sup)
    && IsSubclassOf(a, ps, LookupRecordType(a, ps, t, Some(ctx)).value.value, sup, {}) != Ok(true)
  }

  /** Record `sub` is a subclass of `sup`. */
  predicate SubclassOk(a: seq<Node>, ps: seq<PackageInfo>, sub: Option<nat>, sup: Option<nat>) {
    RefsOk(a) && IsRecordRef(a, sup) && sub.Some? && sub.value < |a| && a[sub.value].Record?
    && IsSubclassOf(a, ps, sub.value, sup, {}) == Ok(true)
  }

  /**
   * What makes reconciling value `V0` of non-array flat `F` fail whatever
   * record the flat's key refers to: the value's type does not fit the
   * flat's, a string that would become a key is not a well-formed string, or
   * the key the value names of its own denotes no record.
   */
  predicate ScalarUnfit(a: seq<Node>, ps: seq<PackageInfo>, V0: Node, F: Node)
    requires V0.Value? && F.Flat?
  {
    var vt := KeyType(V0.valueType);
    var c := ScalarCast(F.flatType, F.isArray, vt, V0.isArray);
    c.Err?
    || (vt != ForeignKey && c == Ok(KeyFromString) && StringValue(V0).Err?)
    || (OwnKey(V0, F) && !Finds(a, ps, OwnKeyName(V0), F.ctx))
  }

  /** What makes reconciling value `V0` of non-array flat `F` fail: it is unfit, or its own key is not a subclass of the flat's. */
  predicate ScalarFails(a: seq<Node>, ps: seq<PackageInfo>, V0: Node, F: Node)
    requires V0.Value? && F.Flat?
  {
    ScalarUnfit(a, ps, V0, F) || (OwnKey(V0, F) && NotSubclass(a, ps, OwnKeyName(V0), F.ctx, F.fkRef))
  }

  /** A reconciled scalar, whose own key is a subclass of the flat's, was not one that fails. */
  lemma ScalarReconciledExcludesFails(a: seq<Node>, ps: seq<PackageInfo>, V0: Node, V1: Node, F: Node)
    requires V0.Value? && F.Flat? && ScalarReconciled(a, ps, V0, V1, F)
    requires OwnKey(V0, F) ==> SubclassOk(a, ps, V1.fkRef, F.fkRef)
    ensures !ScalarFails(a, ps, V0, F)
  {
  }

  /**
   * Element `E0` of the array value of flat `F` as resolution leaves it
   * (`E1`). A foreign key or inline element needs a foreign-key flat,
   * becomes a foreign key, and takes the array's key when it names none,
   * else refers to the record its name denotes. A string element on a
   * foreign-key flat is named after its text and refers to the record that
   * text denotes, unless it is empty. Any other element is reconciled with
   * the flat's type, the array itself now having that type.
   */
  predicate ElementResolved(a: seq<Node>, ps: seq<PackageInfo>, E0: Node, E1: Node, F: Node) {
    E0.Value? && E1.Value? && F.Flat?
    && if E0.valueType == ForeignKey || E0.valueType == InlineRecord then
         F.flatType == ForeignKey && E1 == ValueWith(E0, ForeignKey, E1.fkName, E1.fkRef)
         && if E0.fkName.None? then E1.fkName == F.fkName && E1.fkRef == F.fkRef
            else E1.fkName == E0.fkName && E1.fkRef.Some? && LookupRecordType(a, ps, E0.fkName, Some(F.ctx)) == Ok(E1.fkRef)
       else if E0.valueType == String && F.flatType == ForeignKey then
         StringValue(E0).Ok?
         && if StringValue(E0).value == "" then E1 == E0
            else E1 == ValueWith(E0, String, Some(StringValue(E0).value), E1.fkRef) && E1.fkRef.Some?
                 && LookupRecordType(a, ps, E1.fkName, Some(F.ctx)) == Ok(E1.fkRef)
       else
         var c := ElementCast(F.flatType, F.flatType, E0.valueType);
         c.Ok? && E1 == ValueWith(E0, CastType(c.value, E0.valueType), E0.fkName, E0.fkRef)
  }

  /** What makes resolving element `E0` of the array value of flat `F` fail. */
  predicate ElementFails(a: seq<Node>, ps: seq<PackageInfo>, E0: Node, F: Node)
    requires E0.Value? && F.Flat?
  {
    if E0.valueType == ForeignKey || E0.valueType == InlineRecord then
      F.flatType != ForeignKey || (E0.fkName.Some? && !Finds(a, ps, E0.fkName, F.ctx))
    else if E0.valueType == String && F.flatType == ForeignKey then
      StringValue(E0).Err? || (StringValue(E0).value != "" && !Finds(a, ps, Some(StringValue(E0).value), F.ctx))
    else ElementCast(F.flatType, F.flatType, E0.valueType).Err?
  }

  /** An element resolution leaves behind was not one that fails. */
  lemma ElementResolvedExcludesFails(a: seq<Node>, ps: seq<PackageInfo>, E0: Node, E1: Node, F: Node)
    requires E0.Value? && F.Flat? && ElementResolved(a, ps, E0, E1, F)
    ensures !ElementFails(a, ps, E0, F)
  {
  }

  /**
   * The array value `v` of flat `F` as resolution leaves it in `b`: it takes
   * the flat's type and key, and each of its elements is resolved.
   */
  predicate ArrayResolved(a: seq<Node>, ps: seq<PackageInfo>, b: seq<Node>, v: nat, F: Node) {
    v < |a| && |b| == |a| && a[v].Value? && F.Flat?
    && b[v] == ValueWith(a[v], F.flatType, F.fkName, F.fkRef)
    && forall e :: e in a[v].children && e < |a| && a[e].Value? ==> ElementResolved(a, ps, a[e], b[e], F)
  }

  /**
   * Flat `f` as resolution leaves it in `b`, `pf` being the root flat it
   * overrides: it is reconciled with `pf` as `InheritFlat` says; a foreign
   * key without `pf` refers to the record its key name denotes, in the
   * flat's context; its key is resolved; and its value is resolved as a
   * scalar or an array.
   */
  predicate FlatResolved(a: seq<Node>, ps: seq<PackageInfo>, b: seq<Node>, f: nat, pf: Option<nat>) {
    f < |a| && |b| == |a| && a[f].Flat? && a[f].value < |a| && a[a[f].value].Value?
    && (pf.Some? ==> pf.value < |a| && a[pf.value].Flat?)
    && var v := a[f].value;
    var m := InheritFlat(a[f], a[v].isArray, if pf.Some? then Some(a[pf.value]) else None);
    m.Ok? && b[f].Flat? && b[f] == FlatWithKey(m.value, b[f].fkRef) && KeyResolved(b[f])
    && (if m.value.flatType == ForeignKey && pf.None? then LookupRecordType(a, ps, m.value.fkName, Some(m.value.ctx)) == Ok(b[f].fkRef)
        else b[f].fkRef == m.value.fkRef)
    && (!b[f].isArray ==> ScalarResolved(a, ps, a[v], b[v], b[f]))
    && (b[f].isArray ==> a[v].isArray && ArrayResolved(a, ps, b, v, b[f]))
  }

  /**
   * What makes resolving flat `f`, overriding root flat `pf`, fail: the
   * override does not fit; a foreign key has no key name, or, without `pf`,
   * one that denotes no record; an inherited key name is unresolved; an
   * array flat has a non-array value or an element that fails; a non-array
   * flat's value is unfit for it.
   */
  predicate FlatFails(a: seq<Node>, ps: seq<PackageInfo>, f: nat, pf: Option<nat>) {
    f < |a| && a[f].Flat? && a[f].value < |a| && a[a[f].value].Value?
    && (pf.Some? ==> pf.value < |a| && a[pf.value].Flat?)
    && var v := a[f].value;
    var m := InheritFlat(a[f], a[v].isArray, if pf.Some? then Some(a[pf.value]) else None);
    m.Err?
    || (m.value.flatType == ForeignKey && m.value.fkName.None?)
    || (m.value.flatType == ForeignKey && pf.None? && !Finds(a, ps, m.value.fkName, m.value.ctx))
    || (!(m.value.flatType == ForeignKey && pf.None?) && m.value.fkName.Some? && m.value.fkRef.None?)
    || (m.value.isArray && !a[v].isArray)
    || (m.value.isArray && exists e :: e in a[v].children && e < |a| && a[e].Value? && ElementFails(a, ps, a[e], m.value))
    || (!m.value.isArray && ScalarUnfit(a, ps, a[v], m.value))
  }

  /** A flat resolution leaves behind was not one that fails. */
  lemma FlatResolvedExcludesFails(a: seq<Node>, ps: seq<PackageInfo>, b: seq<Node>, f: nat, pf: Option<nat>)
    requires FlatResolved(a, ps, b, f, pf)
    ensures !FlatFails(a, ps, f, pf)
  {
    var v := a[f].value;
    var m := InheritFlat(a[f], a[v].isArray, if pf.Some? then Some(a[pf.value]) else None).value;
    assert m.flatType == b[f].flatType && m.ctx == b[f].ctx && m.isArray == b[f].isArray;
    if m.isArray {
      ArrayResolvedExcludesFails(a, ps, b, v, b[f], m);
    }
  }

  /** No element of an array value resolution leaves behind fails, for any flat of the same type and context. */
  lemma ArrayResolvedExcludesFails(a: seq<Node>, ps: seq<PackageInfo>, b: seq<Node>, v: nat, F: Node, M: Node)
    requires ArrayResolved(a, ps, b, v, F) && M.Flat? && M.flatType == F.flatType && M.ctx == F.ctx
    ensures forall e :: e in a[v].children && e < |a| && a[e].Value? ==> !ElementFails(a, ps, a[e], M)
  {
    forall e | e in a[v].children && e < |a| && a[e].Value? ensures !ElementFails(a, ps, a[e], M) {
      ElementResolvedExcludesFails(a, ps, a[e], b[e], F);
    }
  }

  /** The root flat that a flat called `name` overrides in record `base`'s inheritance chain, if any. */
  function RootFlatOf(a: seq<Node>, ps: seq<PackageInfo>, base: Option<nat>, name: string): (r: Result<Option<nat>>)
    requires IsRecordRef(a, base)
    ensures r.Ok? && r.value.Some? ==> Concrete(a, r.value.value) && a[r.value.value].name == name
    ensures base.None? ==> r == Ok(None)
  {
    if base.None? then Ok(None) else FindRootInheritedFlat(a, ps, base.value, name, {})
  }

  /** Lookups, scalar resolutions and element resolutions carry over between states reached from the same packages. */
  lemma ScalarResolvedMoved(a: seq<Node>, ps: seq<PackageInfo>, b: seq<Node>, qs: seq<PackageInfo>, p0: seq<PackageInfo>,
                            V0: Node, V1: Node, F: Node)
    requires Reshaped(a, b) && EmptyExtension(p0, ps) && EmptyExtension(p0, qs)
    requires ScalarResolved(b, qs, V0, V1, F)
    ensures ScalarResolved(a, ps, V0, V1, F)
  {
    LookupMoved(a, ps, b, qs, p0, V0.fkName, Some(F.ctx));
    LookupMoved(a, ps, b, qs, p0, V1.fkName, Some(F.ctx));
  }

  lemma ElementResolvedMoved(a: seq<Node>, ps: seq<PackageInfo>, b: seq<Node>, qs: seq<PackageInfo>, p0: seq<PackageInfo>,
                             E0: Node, E1: Node, F: Node)
    requires Reshaped(a, b) && EmptyExtension(p0, ps) && EmptyExtension(p0, qs)
    requires ElementResolved(b, qs, E0, E1, F)
    ensures ElementResolved(a, ps, E0, E1, F)
  {
    LookupMoved(a, ps, b, qs, p0, E0.fkName, Some(F.ctx));
    LookupMoved(a, ps, b, qs, p0, E1.fkName, Some(F.ctx));
  }

  lemma ArrayResolvedMoved(a: seq<Node>, ps: seq<PackageInfo>, b: seq<Node>, qs: seq<PackageInfo>, p0: seq<PackageInfo>,
                           c: seq<Node>, v: nat, F: Node)
    requires Reshaped(a, b) && EmptyExtension(p0, ps) && EmptyExtension(p0, qs)
    requires v < |a| && b[v] == a[v] && a[v].Value?
    requires forall e :: e in a[v].children && e < |a| && a[e].Value? ==> b[e] == a[e]
    requires ArrayResolved(b, qs, c, v, F)
    ensures ArrayResolved(a, ps, c, v, F)
  {
    forall e | e in a[v].children && e < |a| && a[e].Value? ensures ElementResolved(a, ps, a[e], c[e], F) {
      ElementResolvedMoved(a, ps, b, qs, p0, a[e], c[e], F);
    }
  }

  // ---------------------------------------------------------------------------
  // Facts the resolver's frames rest on

  /** The children of node `n`, as a set. */
  function ChildSet(n: Node): set<nat> {
    set c | c in Children(n)
  }

  /** The elements of `s`, as a set. */
  function Elems(s: seq<nat>): set<nat> {
    set x | x in s
  }

  /**
   * The first `k` children of record or value `o` are done in `a`: a step
   * from `a0` under `S` has resolved them, `o` is as it was, and the flats
   * among them that are off the stack are sane.
   */
  ghost predicate ChildrenDone(a0: seq<Node>, a: seq<Node>, S: set<nat>, o: nat, k: nat)
    requires o < |a0| && !a0[o].Flat? && k <= |a0[o].children|
  {
    Step(a0, a, S, Elems(a0[o].children[..k]) - S) && o < |a| && a[o] == a0[o]
    && forall j :: 0 <= j < k && a0[o].children[j] < |a| && a[a0[o].children[j]].Flat? && a0[o].children[j] !in S ==>
      FlatSane(a[a0[o].children[j]])
  }

  /** Pushing a record, or a flat under the stack, keeps the stack well-formed and grows it by one. */
  lemma Push(a: seq<Node>, S: set<nat>, x: nat)
    requires StackOk(a, S) && x < |a| && x !in S && !a[x].Value? && (a[x].Flat? ==> UnderStack(a, S, x))
    ensures StackOk(a, S + {x}) && |S + {x}| == |S| + 1 <= |a|
  {
    AddSize(S, x);
    IndicesSize(S + {x}, |a|);
  }

  /** The flats of a record off the stack are off it too. */
  lemma OffStack(a: seq<Node>, S: set<nat>, r: nat)
    requires StackOk(a, S) && Owned(a) && r < |a| && a[r].Record? && r !in S
    requires forall c :: c in a[r].children ==> c < |a| && a[c].Flat?
    ensures forall c :: c in a[r].children ==> c !in S
  {
    forall c | c in a[r].children ensures c !in S {
      assert c in Children(a[r]);
      assert ParentIndex(a[c]) == Some(r);
    }
  }

  /** A flat under the stack and in no resolved record stays so across a step. */
  lemma StayUnresolved(a: seq<Node>, b: seq<Node>, S: set<nat>, w: set<nat>, f: nat)
    requires Step(a, b, S, w) && f < |a| && a[f].Flat? && UnderStack(a, S, f) && !InResolvedRecord(a, f)
    ensures b[f].Flat? && UnderStack(b, S, f) && !InResolvedRecord(b, f)
  {
    ShapeFacts(a[f], b[f]);
    var p := ParentIndex(a[f]);
    if p.Some? && p.value < |a| {
      ShapeFacts(a[p.value], b[p.value]);
    }
  }

  /**
   * Resolving the named key of flat `pf`, unresolved when a step began,
   * extends that step, whatever the step did to `pf` meanwhile, and keeps
   * resolved records sane.
   */
  lemma StepFillKey(a0: seq<Node>, a1: seq<Node>, S: set<nat>, w: set<nat>, pf: nat, t: nat)
    requires Step(a0, a1, S, w) && pf < |a0| && a0[pf].Flat? && a0[pf].fkName.Some? && a0[pf].fkRef.None?
    ensures a1[pf].Flat?
    ensures Step(a0, a1[pf := FlatWithKey(a1[pf], Some(t))], S, w)
    ensures ResolvedSane(a1) ==> ResolvedSane(a1[pf := FlatWithKey(a1[pf], Some(t))])
  {
    ShapeFacts(a0[pf], a1[pf]);
    var n := FlatWithKey(a1[pf], Some(t));
    var b := a1[pf := n];
    assert FlatSane(a1[pf]) ==> FlatSane(n);
    assert Reshaped(a0, b) by {
      forall j | 0 <= j < |a0| ensures SameShape(a0[j], b[j]) {
        if j == pf {
          assert SameShape(a0[pf], a1[pf]);
        }
      }
    }
  }

  /** A step under a stack holding flat `f` leaves `f`'s value, and the value's elements, alone. */
  lemma ValueKept(a: seq<Node>, b: seq<Node>, T: set<nat>, w: set<nat>, f: nat)
    requires Step(a, b, T, w) && Owned(a) && f in T && f < |a| && a[f].Flat? && a[f].value < |a| && a[a[f].value].Value?
    ensures b[a[f].value] == a[a[f].value]
    ensures forall e :: e in a[a[f].value].children && e < |a| && a[e].Value? ==> b[e] == a[e]
  {
    var v := a[f].value;
    assert v in Children(a[f]);
    assert OwnedIn(a, T, v);
    forall e | e in a[v].children && e < |a| && a[e].Value? ensures b[e] == a[e] {
      assert e in Children(a[v]);
      assert OwnedIn(a, T, e);
    }
  }

  /** Node `x` hangs under the value of flat `f`, or under an element of it. */
  predicate Beneath(a: seq<Node>, f: nat, x: nat)
    requires x < |a|
  {
    var p := ParentIndex(a[x]);
    p.Some? && p.value < |a| && a[p.value].Value?
    && var q := ParentIndex(a[p.value]);
    (q == Some(f) || (q.Some? && q.value < |a| && a[q.value].Value? && ParentIndex(a[q.value]) == Some(f)))
  }

  /** A step that rewrites only flats hanging under a flat off the smaller stack is a step under that stack. */
  lemma StepBeneath(a: seq<Node>, b: seq<Node>, T: set<nat>, w: set<nat>, S: set<nat>, f: nat)
    requires Step(a, b, T, w) && S <= T && f < |a| && a[f].Flat? && f !in S
    requires forall x :: x in w ==> x !in S && x < |a| && Beneath(a, f, x)
    ensures Step(a, b, S, {})
  {
    forall x | x in w && x < |a| && a[x].Flat? ensures !Pinned(a, S, x) {
    }
    StepWeaken(a, b, T, w, S, {});
  }

  /** The children of the value of flat `f`, and of that value's elements, hang under `f`. */
  lemma BeneathChildren(a: seq<Node>, f: nat, v: nat)
    requires Owned(a) && f < |a| && a[f].Flat? && v < |a| && a[v].Value?
    requires v == a[f].value || (ParentIndex(a[v]).Some? && ParentIndex(a[v]).value < |a|
                                 && a[ParentIndex(a[v]).value].Value? && ParentIndex(a[ParentIndex(a[v]).value]) == Some(f))
    ensures forall x :: x in a[v].children ==> x < |a| && Beneath(a, f, x)
  {
    if v == a[f].value {
      assert v in Children(a[f]);
    }
    forall x | x in a[v].children ensures x < |a| && Beneath(a, f, x) {
      assert x in Children(a[v]);
    }
  }

  /** The values of flats on stack `T`, and their elements, other than `e`, are as in `a`. */
  predicate OthersKept(a: seq<Node>, b: seq<Node>, T: set<nat>, e: nat) {
    |a| == |b| && forall x :: 0 <= x < |a| && x != e && a[x].Value? && OwnedIn(a, T, x) ==> b[x] == a[x]
  }

  lemma OthersKeptStep(a0: seq<Node>, a: seq<Node>, b: seq<Node>, T: set<nat>, w: set<nat>, e: nat)
    requires OthersKept(a0, a, T, e) && Reshaped(a0, a) && Step(a, b, T, w)
    ensures OthersKept(a0, b, T, e)
  {
    ReshapedKeeps(a0, a, [], T);
  }
}
