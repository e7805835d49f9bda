/**
 * The reference-resolution pass over the arena, in place: the mutually
 * recursive resolution of records, flats, their values and array elements,
 * each proved against the specifications of the `Resolution` module.
 *
 * Every method runs under a resolution stack `S` and ghost packages `p0`,
 * those at the start of the pass, which resolution only extends by empty
 * packages. Each promises a `Step` under `S`: what it may have rewritten.
 */
module ResolvePass {
  import opened Wrappers
  import opened SemanticNodes
  import opened Registry
  import opened Analysis
  import opened Sanity
  import opened Resolution

  /**
   * The state every resolution method runs in: a ready arena whose
   * references name records, whose flats have value nodes and whose resolved
   * records are sane, a well-formed stack, and packages that extend `p0` by
   * empty ones.
   */
  ghost predicate Resolving(gc: GlobalContext, S: set<nat>, p0: seq<PackageInfo>)
    reads gc, gc.graph
  {
    Ready(gc) && RefsOk(gc.graph.nodes) && FlatValues(gc.graph.nodes) && Ordered(gc.graph.nodes) && ResolvedSane(gc.graph.nodes)
    && StackOk(gc.graph.nodes, S) && EmptyExtension(p0, gc.packages)
  }

  /** The registered files, free declarations and roots, and the number of nodes, are as they were. */
  twostate predicate Kept(gc: GlobalContext)
    reads gc, gc.graph
  {
    gc.rootNodes == old(gc.rootNodes) && gc.freeRecords == old(gc.freeRecords) && gc.freeFlats == old(gc.freeFlats)
    && gc.graph.roots == old(gc.graph.roots) && |gc.graph.nodes| == |old(gc.graph.nodes)|
  }

  /**
   * Rewrites node `i` as a resolution step from `a0` under stack `S` may:
   * within its shape, to a node whose reference names a record.
   */
  method PutNode(gc: GlobalContext, i: nat, n: Node, S: set<nat>, ghost w: set<nat>, ghost a0: seq<Node>, ghost p0: seq<PackageInfo>)
    requires Resolving(gc, S, p0) && Step(a0, gc.graph.nodes, S, w)
    requires i < |gc.graph.nodes| && SameShape(gc.graph.nodes[i], n) && IsRecordRef(gc.graph.nodes, RefOf(n))
    requires gc.graph.nodes[i].Record? ==>
      i !in S && !gc.graph.nodes[i].isFullyResolved && (n.isFullyResolved ==> RecordSane(n) && RecordFlatsSane(gc.graph.nodes, i))
    requires gc.graph.nodes[i].Flat? ==> i in w && !InResolvedRecord(gc.graph.nodes, i)
    requires gc.graph.nodes[i].Value? ==> !OwnedIn(gc.graph.nodes, S, i)
    modifies gc.graph
    ensures Resolving(gc, S, p0) && Kept(gc) && Step(a0, gc.graph.nodes, S, w)
    ensures gc.graph.nodes == old(gc.graph.nodes)[i := n]
  {
    ghost var a := gc.graph.nodes;
    ghost var wi: set<nat> := if a[i].Flat? then {i} else {};
    Rewrite(gc, i, n);
    ghost var b := gc.graph.nodes;
    ShapeFacts(a[i], n);
    StepWrite(a, i, n, S, wi);
    StepResolvedSane(a, b, S, wi);
    StepTrans(a0, a, b, S, w, wi);
    assert w + wi == w;
    ReshapedKeeps(a, b, [], S);
    LinkFacts(b, gc.graph.roots);
  }

  /** Looks up type name `t` in context `ctx`; a name that denotes no record is an error. */
  method FindRecord(gc: GlobalContext, t: Option<string>, ctx: PackageContext, ghost p0: seq<PackageInfo>) returns (res: Result<nat>)
    requires Ready(gc) && EmptyExtension(p0, gc.packages)
    modifies gc
    ensures Ready(gc) && Kept(gc) && EmptyExtension(p0, gc.packages) && EmptyExtension(old(gc.packages), gc.packages)
    ensures res.Ok? <==> Finds(gc.graph.nodes, old(gc.packages), t, ctx)
    ensures res.Ok? ==> LookupRecordType(gc.graph.nodes, old(gc.packages), t, Some(ctx)) == Ok(Some(res.value))
  {
    var r := gc.ResolveRecordType(t, Some(ctx));
    EmptyExtensionTrans(p0, old(gc.packages), gc.packages);
    if r.Err? {
      return Err(r.error);
    }
    if r.value.None? {
      return Err(Fatal);
    }
    res := Ok(r.value.value);
  }

  /**
   * Resolves record `r`, unless it is on the stack or already resolved: it
   * becomes what `ResolvedRecord` says, its parent being resolved before it
   * refers to it, then each of its flats against the root flats the parent
   * inherits, and last it is marked resolved, its flats being sane.
   */
  method ResolveRecord(gc: GlobalContext, r: nat, S: set<nat>, ghost p0: seq<PackageInfo>) returns (res: Result<()>)
    requires Resolving(gc, S, p0) && r < |gc.graph.nodes| && gc.graph.nodes[r].Record?
    modifies gc, gc.graph
    ensures Resolving(gc, S, p0) && Kept(gc) && Step(old(gc.graph.nodes), gc.graph.nodes, S, {})
    ensures r in S || old(gc.graph.nodes[r].isFullyResolved) ==> res.Ok? && gc.graph.nodes == old(gc.graph.nodes)
    ensures res.Ok? ==> gc.graph.nodes[r].Record? && (r in S || gc.graph.nodes[r].isFullyResolved)
    ensures res.Ok? && r !in S && !old(gc.graph.nodes[r].isFullyResolved) ==>
      ResolvedRecord(old(gc.graph.nodes), old(gc.packages), r) == Ok(gc.graph.nodes[r]) && RecordFlatsSane(gc.graph.nodes, r)
    ensures r !in S && !old(gc.graph.nodes[r].isFullyResolved) && ResolvedRecord(old(gc.graph.nodes), old(gc.packages), r).Err? ==>
      res.Err?
    decreases |gc.graph.nodes| - |S|, 1
  {
    ghost var a0 := gc.graph.nodes;
    var n := gc.graph.nodes[r];
    StepRefl(a0, S, {});
    if r in S || n.isFullyResolved {
      return Ok(());
    }
    var parent := ResolveParent(gc, r, S, p0);
    if parent.Err? {
      return Err(parent.error);
    }
    var T := S + {r};
    ghost var a3 := gc.graph.nodes;
    ReshapedKeeps(a0, a3, [], T);
    Push(a3, S, r);
    res := ResolveFlatsOf(gc, r, parent.value, n.ctx, T, p0);
    ghost var a4 := gc.graph.nodes;
    ReshapedKeeps(a3, a4, [], S);
    RecordFlatsStep(a3, a4, S, r);
    StepTrans(a0, a3, a4, S, {}, {});
    if res.Err? {
      return;
    }
    assert gc.graph.nodes[r] == a3[r];
    LinkFacts(a4, gc.graph.roots);
    OffStack(a4, S, r);
    PutNode(gc, r, gc.graph.nodes[r].(isFullyResolved := true), S, {}, a0, p0);
  }

  /** Resolving the flats of record `r`, off stack `S`, under `S` with `r` pushed, is a step under `S`. */
  lemma RecordFlatsStep(a: seq<Node>, b: seq<Node>, S: set<nat>, r: nat)
    requires Owned(a) && r < |a| && a[r].Record? && r !in S && !a[r].isFullyResolved
    requires Step(a, b, S + {r}, ChildSet(a[r]) - (S + {r}))
    ensures Step(a, b, S, {})
  {
    forall x | x in ChildSet(a[r]) - (S + {r}) && x < |a| && a[x].Flat? ensures !Pinned(a, S, x) {
      assert x in Children(a[r]);
      assert ParentIndex(a[x]) == Some(r);
    }
    StepWeaken(a, b, S + {r}, ChildSet(a[r]) - (S + {r}), S, {});
  }

  /**
   * The first half of resolving record `r`: a parentless record becomes a
   * group directly under a file's root and fails outside the RTDB package;
   * an inheriting one becomes a group when its parent is one, then resolves
   * that parent and refers to it. Returns the parent.
   */
  method ResolveParent(gc: GlobalContext, r: nat, S: set<nat>, ghost p0: seq<PackageInfo>) returns (res: Result<Option<nat>>)
    requires Resolving(gc, S, p0) && r < |gc.graph.nodes| && gc.graph.nodes[r].Record?
    requires r !in S && !gc.graph.nodes[r].isFullyResolved
    modifies gc, gc.graph
    ensures Resolving(gc, S, p0) && Kept(gc) && Step(old(gc.graph.nodes), gc.graph.nodes, S, {})
    ensures res.Ok? ==> gc.graph.nodes[r].Record? && !gc.graph.nodes[r].isFullyResolved && IsRecordRef(gc.graph.nodes, res.value)
    ensures res.Ok? ==> (res.value.Some? <==> old(gc.graph.nodes[r].inheritedFrom.Some?))
    ensures res.Ok? ==>
      ResolvedRecord(old(gc.graph.nodes), old(gc.packages), r) == Ok(gc.graph.nodes[r].(isFullyResolved := true))
    ensures ResolvedRecord(old(gc.graph.nodes), old(gc.packages), r).Err? ==> res.Err?
    decreases |gc.graph.nodes| - |S|, 0
  {
    ghost var a0 := gc.graph.nodes;
    ghost var ps0 := gc.packages;
    var n := gc.graph.nodes[r];
    StepRefl(a0, S, {});
    if n.inheritedFrom.None? {
      if n.ctx.name == Some("RTDB") {
      } else if n.parent.Some? && n.parent.value.ParentRoot? {
        PutNode(gc, r, n.(isGroup := true), S, {}, a0, p0);
      } else {
        return Err(Fatal);
      }
      return Ok(None);
    }
    var p := FindRecord(gc, n.inheritedFrom, n.ctx, p0);
    if p.Err? {
      return Err(p.error);
    }
    var group := gc.graph.nodes[p.value].isGroup;
    if group {
      PutNode(gc, r, n.(isGroup := true), S, {}, a0, p0);
    }
    ghost var a1 := gc.graph.nodes;
    var T := S + {r};
    ReshapedKeeps(a0, a1, [], T);
    Push(a1, S, r);
    var q := ResolveRecord(gc, p.value, T, p0);
    ghost var a2 := gc.graph.nodes;
    ReshapedKeeps(a1, a2, [], S);
    StepWeaken(a1, a2, T, {}, S, {});
    StepTrans(a0, a1, a2, S, {}, {});
    if q.Err? {
      return Err(q.error);
    }
    assert gc.graph.nodes[r] == a1[r];
    PutNode(gc, r, gc.graph.nodes[r].(inheritedFromRef := Some(p.value)), S, {}, a0, p0);
    res := Ok(Some(p.value));
  }

  /** Resolves the record type name `name` denotes in context `ctx`, then that record. */
  method ResolveKeyTarget(gc: GlobalContext, name: Option<string>, ctx: PackageContext, S: set<nat>, ghost p0: seq<PackageInfo>)
    returns (res: Result<nat>)
    requires Resolving(gc, S, p0)
    modifies gc, gc.graph
    ensures Resolving(gc, S, p0) && Kept(gc) && Step(old(gc.graph.nodes), gc.graph.nodes, S, {})
    ensures res.Ok? ==> LookupRecordType(old(gc.graph.nodes), old(gc.packages), name, Some(ctx)) == Ok(Some(res.value))
    ensures res.Ok? ==> gc.graph.nodes[res.value].Record? && (res.value in S || gc.graph.nodes[res.value].isFullyResolved)
    ensures !Finds(old(gc.graph.nodes), old(gc.packages), name, ctx) ==> res.Err?
    decreases |gc.graph.nodes| - |S|, 2
  {
    ghost var a0 := gc.graph.nodes;
    StepRefl(a0, S, {});
    var t := FindRecord(gc, name, ctx, p0);
    if t.Err? {
      return Err(t.error);
    }
    var r := ResolveRecord(gc, t.value, S, p0);
    if r.Err? {
      return Err(r.error);
    }
    res := Ok(t.value);
  }

  /**
   * Resolves the record type name `name` denotes in context `ctx`, which
   * must be a subclass of `sup`, then that record.
   */
  method ResolveSubclassKey(gc: GlobalContext, name: Option<string>, ctx: PackageContext, sup: Option<nat>, S: set<nat>,
                            ghost p0: seq<PackageInfo>) returns (res: Result<nat>)
    requires Resolving(gc, S, p0) && IsRecordRef(gc.graph.nodes, sup)
    modifies gc, gc.graph
    ensures Resolving(gc, S, p0) && Kept(gc) && Step(old(gc.graph.nodes), gc.graph.nodes, S, {})
    ensures res.Ok? ==> LookupRecordType(old(gc.graph.nodes), old(gc.packages), name, Some(ctx)) == Ok(Some(res.value))
    ensures res.Ok? ==> SubclassOk(old(gc.graph.nodes), old(gc.packages), Some(res.value), sup)
    ensures !Finds(old(gc.graph.nodes), old(gc.packages), name, ctx) ==> res.Err?
    ensures NotSubclass(old(gc.graph.nodes), old(gc.packages), name, ctx, sup) ==> res.Err?
    decreases |gc.graph.nodes| - |S|, 2
  {
    ghost var a0 := gc.graph.nodes;
    ghost var ps0 := gc.packages;
    StepRefl(a0, S, {});
    var t := FindRecord(gc, name, ctx, p0);
    if t.Err? {
      return Err(t.error);
    }
    var sub := IsSubclassOf(gc.graph.nodes, gc.packages, t.value, sup, {});
    IsSubclassOfStable(a0, ps0, gc.packages, t.value, sup, {});
    if sub.Err? {
      return Err(sub.error);
    }
    if !sub.value {
      return Err(Fatal);
    }
    var r := ResolveRecord(gc, t.value, S, p0);
    if r.Err? {
      return Err(r.error);
    }
    res := Ok(t.value);
  }

  /**
   * Resolves the key of root flat `pf` when it names one it has not
   * resolved, looking the name up in context `ctx`.
   */
  method ResolveInheritedKey(gc: GlobalContext, pf: nat, ctx: PackageContext, S: set<nat>, ghost p0: seq<PackageInfo>)
    returns (res: Result<()>)
    requires Resolving(gc, S, p0) && Concrete(gc.graph.nodes, pf)
    modifies gc, gc.graph
    ensures Resolving(gc, S, p0) && Kept(gc) && Step(old(gc.graph.nodes), gc.graph.nodes, S, {})
    ensures Concrete(gc.graph.nodes, pf)
    ensures old(gc.graph.nodes[pf].fkName.None? || gc.graph.nodes[pf].fkRef.Some?) ==>
      res.Ok? && gc.graph.nodes == old(gc.graph.nodes)
    ensures res.Ok? && old(gc.graph.nodes[pf].fkName.Some? && gc.graph.nodes[pf].fkRef.None?) ==>
      LookupRecordType(old(gc.graph.nodes), old(gc.packages), old(gc.graph.nodes[pf].fkName), Some(ctx)) == Ok(gc.graph.nodes[pf].fkRef)
      && gc.graph.nodes[pf].fkRef.Some?
    ensures (old(gc.graph.nodes[pf].fkName.Some? && gc.graph.nodes[pf].fkRef.None?)
             && !Finds(old(gc.graph.nodes), old(gc.packages), old(gc.graph.nodes[pf].fkName), ctx)) ==> res.Err?
    decreases |gc.graph.nodes| - |S|, 3
  {
    ghost var a0 := gc.graph.nodes;
    var P := gc.graph.nodes[pf];
    StepRefl(a0, S, {});
    if P.fkName.None? || P.fkRef.Some? {
      return Ok(());
    }
    var t := ResolveKeyTarget(gc, P.fkName, ctx, S, p0);
    if t.Err? {
      return Err(t.error);
    }
    ghost var a1 := gc.graph.nodes;
    StepFillKey(a0, a1, S, {}, pf, t.value);
    var m := FlatWithKey(gc.graph.nodes[pf], Some(t.value));
    Rewrite(gc, pf, m);
    LinkFacts(gc.graph.nodes, gc.graph.roots);
    ReshapedKeeps(a0, gc.graph.nodes, [], S);
    res := Ok(());
  }

  /**
   * Resolves flat `c`, a child of a record or of a value, against the root
   * flat of its name that record `base` inherits, if any, resolving that root
   * flat's unresolved key first, in context `ctx`.
   */
  method ResolveChild(gc: GlobalContext, c: nat, base: Option<nat>, ctx: PackageContext, S: set<nat>, ghost p0: seq<PackageInfo>)
    returns (res: Result<()>)
    requires Resolving(gc, S, p0) && c < |gc.graph.nodes| && gc.graph.nodes[c].Flat?
    requires UnderStack(gc.graph.nodes, S, c) && !InResolvedRecord(gc.graph.nodes, c) && IsRecordRef(gc.graph.nodes, base)
    modifies gc, gc.graph
    ensures Resolving(gc, S, p0) && Kept(gc) && Step(old(gc.graph.nodes), gc.graph.nodes, S, {c} - S)
    ensures c !in S && RootFlatOf(old(gc.graph.nodes), old(gc.packages), base, old(gc.graph.nodes[c].name)).Err? ==> res.Err?
    ensures res.Ok? && c !in S ==> FlatSane(gc.graph.nodes[c])
    ensures res.Ok? && c !in S ==>
      var pf := RootFlatOf(old(gc.graph.nodes), old(gc.packages), base, old(gc.graph.nodes[c].name));
      pf.Ok? && (pf.value.Some? ==> gc.graph.nodes[c].flatType == old(gc.graph.nodes)[pf.value.value].flatType)
    decreases |gc.graph.nodes| - |S|, 5
  {
    ghost var a0 := gc.graph.nodes;
    StepRefl(a0, S, {});
    var found := RootFlatOf(gc.graph.nodes, gc.packages, base, gc.graph.nodes[c].name);
    if found.Err? {
      StepWeaken(a0, a0, S, {}, S, {c} - S);
      return Err(found.error);
    }
    var pf := found.value;
    if pf.Some? {
      res := ResolveInheritedKey(gc, pf.value, ctx, S, p0);
      ghost var a1 := gc.graph.nodes;
      if res.Err? {
        StepWeaken(a0, a1, S, {}, S, {c} - S);
        return;
      }
      StayUnresolved(a0, a1, S, {}, c);
    }
    ghost var a2 := gc.graph.nodes;
    res := ResolveFlat(gc, c, S, pf, p0);
    ghost var a3 := gc.graph.nodes;
    StepThenFlat(a0, a2, a3, S, c);
    if pf.Some? && res.Ok? && c !in S {
      ShapeFacts(a0[pf.value], a2[pf.value]);
    }
  }

  /** A step, then one resolving flat `c`, in no resolved record, make a step resolving `c`. */
  lemma StepThenFlat(a0: seq<Node>, a2: seq<Node>, a3: seq<Node>, S: set<nat>, c: nat)
    requires Step(a0, a2, S, {}) && Step(a2, a3, S, {c} - S) && Owned(a2) && c < |a2| && !InResolvedRecord(a2, c)
    ensures Step(a0, a3, S, {c} - S)
  {
    StepTrans(a0, a2, a3, S, {}, {c} - S);
    assert {} + ({c} - S) == {c} - S;
  }

  /**
   * Resolves, in order, the flats among the children of record or value `o`,
   * each against the root flat of its name that record `base` inherits, in
   * context `ctx`.
   */
  method ResolveFlatsOf(gc: GlobalContext, o: nat, base: Option<nat>, ctx: PackageContext, S: set<nat>, ghost p0: seq<PackageInfo>)
    returns (res: Result<()>)
    requires Resolving(gc, S, p0) && o < |gc.graph.nodes| && !gc.graph.nodes[o].Flat?
    requires gc.graph.nodes[o].Record? ==> o in S && !gc.graph.nodes[o].isFullyResolved
    requires gc.graph.nodes[o].Value? ==> OwnedIn(gc.graph.nodes, S, o)
    requires IsRecordRef(gc.graph.nodes, base)
    modifies gc, gc.graph
    ensures Resolving(gc, S, p0) && Kept(gc)
    ensures Step(old(gc.graph.nodes), gc.graph.nodes, S, ChildSet(old(gc.graph.nodes)[o]) - S)
    ensures res.Ok? ==> forall c :: c in old(gc.graph.nodes)[o].children && c < |gc.graph.nodes| && gc.graph.nodes[c].Flat? && c !in S ==>
      FlatSane(gc.graph.nodes[c])
    decreases |gc.graph.nodes| - |S|, 7
  {
    ghost var a0 := gc.graph.nodes;
    var cs := gc.graph.nodes[o].children;
    assert Children(a0[o]) == cs;
    StepRefl(a0, S, {});
    assert Elems(cs[..0]) - S == {};
    for k := 0 to |cs|
      invariant Resolving(gc, S, p0) && Kept(gc)
      invariant ChildrenDone(a0, gc.graph.nodes, S, o, k) && IsRecordRef(gc.graph.nodes, base)
    {
      res := ResolveChildAt(gc, o, k, base, ctx, S, p0, a0);
      if res.Err? {
        return;
      }
    }
    assert cs[..|cs|] == cs;
    PrefixStep(a0, gc.graph.nodes, S, o, |cs|);
    res := Ok(());
  }

  /**
   * One turn of the loop of `ResolveFlatsOf`: resolves the `k`-th child of
   * `o` if it is a flat, extending the loop's step from `a0` by that child.
   */
  method ResolveChildAt(gc: GlobalContext, o: nat, k: nat, base: Option<nat>, ctx: PackageContext, S: set<nat>,
                        ghost p0: seq<PackageInfo>, ghost a0: seq<Node>)
    returns (res: Result<()>)
    requires Resolving(gc, S, p0) && Owned(a0) && DistinctChildren(a0) && o < |a0| && !a0[o].Flat? && k < |a0[o].children|
    requires a0[o].Record? ==> o in S && !a0[o].isFullyResolved
    requires a0[o].Value? ==> OwnedIn(a0, S, o)
    requires ChildrenDone(a0, gc.graph.nodes, S, o, k) && IsRecordRef(gc.graph.nodes, base)
    modifies gc, gc.graph
    ensures Resolving(gc, S, p0) && Kept(gc)
    ensures res.Ok? ==> ChildrenDone(a0, gc.graph.nodes, S, o, k + 1) && IsRecordRef(gc.graph.nodes, base)
    ensures res.Err? ==> Step(a0, gc.graph.nodes, S, ChildSet(a0[o]) - S)
    decreases |gc.graph.nodes| - |S|, 6
  {
    ghost var a1 := gc.graph.nodes;
    var c := gc.graph.nodes[o].children[k];
    ChildReady(a0, a1, S, o, k);
    if gc.graph.nodes[c].Flat? {
      res := ResolveChild(gc, c, base, ctx, S, p0);
      ChildDone(a0, a1, gc.graph.nodes, S, o, k, base, res.Ok?);
    } else {
      ChildSkipped(a0, a1, S, o, k);
      res := Ok(());
    }
  }

  /** The `k`-th child of record or value `o`, in a state a step has reached, may be resolved as a flat. */
  lemma ChildReady(a0: seq<Node>, a1: seq<Node>, S: set<nat>, o: nat, k: nat)
    requires o < |a0| && !a0[o].Flat? && k < |a0[o].children| && ChildrenDone(a0, a1, S, o, k) && Owned(a0)
    requires a0[o].Record? ==> o in S && !a0[o].isFullyResolved
    requires a0[o].Value? ==> OwnedIn(a0, S, o)
    ensures a0[o].children[k] < |a1| && a1[o] == a0[o]
    ensures a1[a0[o].children[k]].Flat? ==>
      UnderStack(a1, S, a0[o].children[k]) && !InResolvedRecord(a1, a0[o].children[k])
    ensures a0[o].Value? ==> OwnedIn(a1, S, o)
    ensures forall x :: x in Elems(a0[o].children[..k]) - S && x < |a1| ==> !InResolvedRecord(a1, x)
  {
    ReshapedKeeps(a0, a1, [], S);
    var cs := a0[o].children;
    assert cs[k] in Children(a1[o]);
    assert a1[cs[k]].parent == Some(ParentNode(o));
    ChildrenOpen(a1, S, o, k);
  }

  /** The children of a record that is not yet resolved, or of a value, are in no resolved record. */
  lemma ChildrenOpen(a: seq<Node>, S: set<nat>, o: nat, k: nat)
    requires Owned(a) && o < |a| && !a[o].Flat? && k <= |a[o].children| && !(a[o].Record? && a[o].isFullyResolved)
    ensures forall x :: x in Elems(a[o].children[..k]) - S && x < |a| ==> !InResolvedRecord(a, x)
  {
    forall x | x in Elems(a[o].children[..k]) - S && x < |a| ensures !InResolvedRecord(a, x) {
      assert x in Children(a[o]);
      assert a[x].parent == Some(ParentNode(o));
    }
  }

  /** Resolving the `k`-th child of `o` extends the loop's step by that child and keeps the children before it sane. */
  lemma ChildDone(a0: seq<Node>, a1: seq<Node>, a2: seq<Node>, S: set<nat>, o: nat, k: nat, base: Option<nat>, ok: bool)
    requires Owned(a0) && DistinctChildren(a0) && o < |a0| && !a0[o].Flat? && k < |a0[o].children|
    requires a0[o].Record? ==> o in S && !a0[o].isFullyResolved
    requires a0[o].Value? ==> OwnedIn(a0, S, o)
    requires ChildrenDone(a0, a1, S, o, k)
    requires Step(a1, a2, S, {a0[o].children[k]} - S)
    requires var c := a0[o].children[k]; ok && c !in S && c < |a2| && a2[c].Flat? ==> FlatSane(a2[c])
    ensures ok ==> ChildrenDone(a0, a2, S, o, k + 1)
    ensures Step(a0, a2, S, ChildSet(a0[o]) - S)
    ensures IsRecordRef(a1, base) ==> IsRecordRef(a2, base)
  {
    ReshapedKeeps(a0, a1, [], S);
    ChildStep(a0, a1, a2, S, o, k);
    if ok {
      ChildrenStaySane(a1, a2, S, o, a0[o].children, k);
    }
    PrefixStep(a0, a2, S, o, k + 1);
    ReshapedKeeps(a1, a2, [], S);
  }

  /** Resolving the `k`-th child of `o` extends the loop's step by that child. */
  lemma ChildStep(a0: seq<Node>, a1: seq<Node>, a2: seq<Node>, S: set<nat>, o: nat, k: nat)
    requires Owned(a1) && o < |a0| && |a1| == |a0| && !a0[o].Flat? && k < |a0[o].children| && a1[o] == a0[o]
    requires a0[o].Record? ==> o in S && !a0[o].isFullyResolved
    requires a0[o].Value? ==> OwnedIn(a1, S, o)
    requires Step(a0, a1, S, Elems(a0[o].children[..k]) - S) && Step(a1, a2, S, {a0[o].children[k]} - S)
    ensures Step(a0, a2, S, Elems(a0[o].children[..k + 1]) - S) && a2[o] == a0[o]
  {
    var cs := a0[o].children;
    assert cs[k] in Children(a1[o]);
    assert Elems(cs[..k + 1]) - S == (Elems(cs[..k]) - S) + ({cs[k]} - S) by {
      assert cs[..k + 1] == cs[..k] + [cs[k]];
    }
    StepTrans(a0, a1, a2, S, Elems(cs[..k]) - S, {cs[k]} - S);
  }

  /** A step over the first `k` children of `o` is a step over its children. */
  lemma PrefixStep(a0: seq<Node>, a2: seq<Node>, S: set<nat>, o: nat, k: nat)
    requires o < |a0| && !a0[o].Flat? && k <= |a0[o].children| && Step(a0, a2, S, Elems(a0[o].children[..k]) - S)
    ensures Step(a0, a2, S, ChildSet(a0[o]) - S)
  {
    var cs := a0[o].children;
    forall x | x in Elems(cs[..k]) - S ensures x in ChildSet(a0[o]) - S {
      assert x in Children(a0[o]);
    }
    StepWeaken(a0, a2, S, Elems(cs[..k]) - S, S, ChildSet(a0[o]) - S);
  }

  /** Passing over a child of `o` that is not a flat extends the loop's step trivially. */
  lemma ChildSkipped(a0: seq<Node>, a1: seq<Node>, S: set<nat>, o: nat, k: nat)
    requires o < |a0| && !a0[o].Flat? && k < |a0[o].children| && ChildrenDone(a0, a1, S, o, k)
    requires a0[o].children[k] < |a1| && !a1[a0[o].children[k]].Flat?
    ensures ChildrenDone(a0, a1, S, o, k + 1)
  {
    var cs := a0[o].children;
    assert cs[..k + 1] == cs[..k] + [cs[k]];
    StepWeaken(a0, a1, S, Elems(cs[..k]) - S, S, Elems(cs[..k + 1]) - S);
  }

  /**
   * Resolving the `k`-th child of record or value `o`, pinned under stack
   * `S`, keeps the earlier flat children sane.
   */
  lemma ChildrenStaySane(a: seq<Node>, b: seq<Node>, S: set<nat>, o: nat, cs: seq<nat>, k: nat)
    requires k < |cs| && Step(a, b, S, {cs[k]} - S) && Owned(a) && DistinctChildren(a)
    requires o < |a| && !a[o].Flat? && a[o].children == cs
    requires a[o].Record? ==> o in S
    requires a[o].Value? ==> OwnedIn(a, S, o)
    requires forall j :: 0 <= j < k && cs[j] < |a| && a[cs[j]].Flat? && cs[j] !in S ==> FlatSane(a[cs[j]])
    requires cs[k] !in S && cs[k] < |b| && b[cs[k]].Flat? ==> FlatSane(b[cs[k]])
    ensures forall j :: 0 <= j < k + 1 && cs[j] < |b| && b[cs[j]].Flat? && cs[j] !in S ==> FlatSane(b[cs[j]])
  {
    forall j | 0 <= j < k && cs[j] < |b| && b[cs[j]].Flat? && cs[j] !in S ensures FlatSane(b[cs[j]]) {
      var x := cs[j];
      assert x in Children(a[o]) && Children(a[o])[j] != Children(a[o])[k];
      assert ParentIndex(a[x]) == Some(o);
      ShapeFacts(a[x], b[x]);
      assert Pinned(a, S, x);
      KeyFilledSane(a[x], b[x]);
    }
  }

  /**
   * Resolves flat `f`, unless it is on the stack, against the root flat `pf`
   * it overrides, if any: as `FlatResolved` says on success, and failing
   * whenever `FlatFails` says.
   */
  method ResolveFlat(gc: GlobalContext, f: nat, S: set<nat>, pf: Option<nat>, ghost p0: seq<PackageInfo>) returns (res: Result<()>)
    requires Resolving(gc, S, p0) && f < |gc.graph.nodes| && gc.graph.nodes[f].Flat?
    requires UnderStack(gc.graph.nodes, S, f) && !InResolvedRecord(gc.graph.nodes, f)
    requires pf.Some? ==> Concrete(gc.graph.nodes, pf.value)
    modifies gc, gc.graph
    ensures Resolving(gc, S, p0) && Kept(gc) && Step(old(gc.graph.nodes), gc.graph.nodes, S, {f} - S)
    ensures f in S ==> res.Ok? && gc.graph.nodes == old(gc.graph.nodes)
    ensures f !in S && res.Ok? ==> FlatSane(gc.graph.nodes[f]) && FlatResolved(old(gc.graph.nodes), old(gc.packages), gc.graph.nodes, f, pf)
    ensures f !in S && FlatFails(old(gc.graph.nodes), old(gc.packages), f, pf) ==> res.Err?
    decreases |gc.graph.nodes| - |S|, 4
  {
    ghost var a0 := gc.graph.nodes;
    ghost var ps0 := gc.packages;
    StepRefl(a0, S, {f} - S);
    if f in S {
      return Ok(());
    }
    assert {f} - S == {f};
    res := ResolveFlatKey(gc, f, S, pf, p0);
    if res.Err? {
      return;
    }
    ghost var a3 := gc.graph.nodes;
    ghost var ps3 := gc.packages;
    if !gc.graph.nodes[f].isArray {
      res := ResolveScalar(gc, f, S, p0);
    } else {
      res := ResolveArray(gc, f, S, p0);
    }
    FlatDone(a0, ps0, a3, ps3, gc.graph.nodes, S, f, pf, p0, res.Ok?);
  }

  /**
   * Flat `G` is flat `f` of `a` reconciled with root flat `pf`, if any, as
   * `InheritFlat` says, with its key resolved: a foreign key without `pf` to
   * the record its key name denotes.
   */
  predicate FlatKeyed(a: seq<Node>, ps: seq<PackageInfo>, f: nat, pf: Option<nat>, G: Node) {
    f < |a| && a[f].Flat? && a[f].value < |a| && a[a[f].value].Value?
    && (pf.Some? ==> pf.value < |a| && a[pf.value].Flat?)
    && var m := InheritFlat(a[f], a[a[f].value].isArray, if pf.Some? then Some(a[pf.value]) else None);
    m.Ok? && G.Flat? && G == FlatWithKey(m.value, G.fkRef) && KeyResolved(G)
    && (if m.value.flatType == ForeignKey && pf.None? then LookupRecordType(a, ps, m.value.fkName, Some(m.value.ctx)) == Ok(G.fkRef)
        else G.fkRef == m.value.fkRef)
  }

  /** The value of flat `f`, and the values among its children, are the same in `a` and `b`. */
  predicate ValueUntouched(a: seq<Node>, b: seq<Node>, f: nat) {
    f < |a| && |b| == |a| && a[f].Flat? && a[f].value < |a| && a[a[f].value].Value?
    && b[a[f].value] == a[a[f].value]
    && forall e :: e in a[a[f].value].children && e < |a| && a[e].Value? ==> b[e] == a[e]
  }

  /**
   * The first half of resolving flat `f`, off the stack: it is reconciled
   * with the root flat `pf` it overrides, a foreign key without `pf` is
   * resolved, and a foreign key must name a resolved record.
   */
  method ResolveFlatKey(gc: GlobalContext, f: nat, S: set<nat>, pf: Option<nat>, ghost p0: seq<PackageInfo>) returns (res: Result<()>)
    requires Resolving(gc, S, p0) && f < |gc.graph.nodes| && f !in S && gc.graph.nodes[f].Flat?
    requires UnderStack(gc.graph.nodes, S, f) && !InResolvedRecord(gc.graph.nodes, f)
    requires pf.Some? ==> Concrete(gc.graph.nodes, pf.value)
    modifies gc, gc.graph
    ensures Resolving(gc, S, p0) && Kept(gc) && Step(old(gc.graph.nodes), gc.graph.nodes, S, {f})
    ensures ValueUntouched(old(gc.graph.nodes), gc.graph.nodes, f)
    ensures res.Ok? ==> FlatKeyed(old(gc.graph.nodes), old(gc.packages), f, pf, gc.graph.nodes[f]) && FlatSane(gc.graph.nodes[f])
    ensures res.Ok? ==> UnderStack(gc.graph.nodes, S, f) && !InResolvedRecord(gc.graph.nodes, f)
    decreases |gc.graph.nodes| - |S|, 3
  {
    ghost var a0 := gc.graph.nodes;
    ghost var ps0 := gc.packages;
    StepRefl(a0, S, {f});
    var F := gc.graph.nodes[f];
    var P: Option<Node> := if pf.Some? then Some(gc.graph.nodes[pf.value]) else None;
    var m := InheritFlat(F, gc.graph.nodes[F.value].isArray, P);
    if m.Err? {
      return Err(m.error);
    }
    var M := m.value;
    PutNode(gc, f, M, S, {f}, a0, p0);
    InheritWritten(a0, S, f, M);
    var G := M;
    if M.flatType == ForeignKey && pf.None? {
      if M.fkName.None? {
        return Err(Fatal);
      }
      ghost var a1 := gc.graph.nodes;
      ghost var ps1 := gc.packages;
      var t := ResolveOwnKey(gc, f, S, p0);
      OwnKeyDone(a0, ps0, a1, ps1, gc.graph.nodes, gc.packages, S, f, p0);
      if t.Err? {
        return Err(t.error);
      }
      G := FlatWithKey(M, Some(t.value));
    }
    if G.flatType == ForeignKey && G.fkName.None? {
      return Err(Fatal);
    }
    if G.fkName.Some? && G.fkRef.None? {
      return Err(Fatal);
    }
    KeyedFlat(a0, ps0, f, pf, G);
    res := Ok(());
  }

  /** Writing flat `f` within its shape leaves it where it was and its value alone. */
  lemma InheritWritten(a0: seq<Node>, S: set<nat>, f: nat, M: Node)
    requires FlatValues(a0) && f < |a0| && a0[f].Flat? && SameShape(a0[f], M)
    requires UnderStack(a0, S, f) && !InResolvedRecord(a0, f)
    ensures var a1 := a0[f := M];
      ValueUntouched(a0, a1, f) && a1[f].Flat? && UnderStack(a1, S, f) && !InResolvedRecord(a1, f)
  {
  }

  /** What resolving a flat's own key adds to the step that reconciled it. */
  lemma OwnKeyDone(a0: seq<Node>, ps0: seq<PackageInfo>, a1: seq<Node>, ps1: seq<PackageInfo>, a2: seq<Node>, ps2: seq<PackageInfo>,
                   S: set<nat>, f: nat, p0: seq<PackageInfo>)
    requires Owned(a1) && f < |a1| && a1[f].Flat? && !InResolvedRecord(a1, f)
    requires EmptyExtension(p0, ps0) && EmptyExtension(p0, ps1)
    requires Step(a0, a1, S, {f}) && Step(a1, a2, S, {f}) && ValueUntouched(a0, a1, f) && ValueUntouched(a1, a2, f)
    ensures Step(a0, a2, S, {f}) && ValueUntouched(a0, a2, f)
    ensures LookupRecordType(a1, ps1, a1[f].fkName, Some(a1[f].ctx)) == LookupRecordType(a0, ps0, a1[f].fkName, Some(a1[f].ctx))
  {
    StepTrans(a0, a1, a2, S, {f}, {f});
    assert {f} + {f} == {f};
    ReshapedNodes(a0, a1);
    LookupMoved(a0, ps0, a1, ps1, p0, a1[f].fkName, Some(a1[f].ctx));
  }

  /** A reconciled flat whose key checks out is keyed and sane. */
  lemma KeyedFlat(a0: seq<Node>, ps0: seq<PackageInfo>, f: nat, pf: Option<nat>, G: Node)
    requires f < |a0| && a0[f].Flat? && a0[f].value < |a0| && a0[a0[f].value].Value?
    requires pf.Some? ==> Concrete(a0, pf.value)
    requires var m := InheritFlat(a0[f], a0[a0[f].value].isArray, if pf.Some? then Some(a0[pf.value]) else None);
      m.Ok? && G.Flat? && G == FlatWithKey(m.value, G.fkRef)
      && (if m.value.flatType == ForeignKey && pf.None? then LookupRecordType(a0, ps0, m.value.fkName, Some(m.value.ctx)) == Ok(G.fkRef)
          else G.fkRef == m.value.fkRef)
    requires !(G.flatType == ForeignKey && G.fkName.None?) && !(G.fkName.Some? && G.fkRef.None?)
    ensures FlatKeyed(a0, ps0, f, pf, G) && FlatSane(G)
  {
  }

  /**
   * Resolves the key of foreign-key flat `f`, off the stack, which names one
   * and has no root flat: it refers to the record its key name denotes.
   */
  method ResolveOwnKey(gc: GlobalContext, f: nat, S: set<nat>, ghost p0: seq<PackageInfo>) returns (res: Result<nat>)
    requires Resolving(gc, S, p0) && f < |gc.graph.nodes| && f !in S && gc.graph.nodes[f].Flat?
    requires UnderStack(gc.graph.nodes, S, f) && !InResolvedRecord(gc.graph.nodes, f)
    modifies gc, gc.graph
    ensures Resolving(gc, S, p0) && Kept(gc) && Step(old(gc.graph.nodes), gc.graph.nodes, S, {f})
    ensures ValueUntouched(old(gc.graph.nodes), gc.graph.nodes, f)
    ensures gc.graph.nodes[f].Flat? && UnderStack(gc.graph.nodes, S, f) && !InResolvedRecord(gc.graph.nodes, f)
    ensures res.Ok? ==> gc.graph.nodes[f] == FlatWithKey(old(gc.graph.nodes[f]), Some(res.value))
    ensures res.Ok? ==>
      LookupRecordType(old(gc.graph.nodes), old(gc.packages), old(gc.graph.nodes[f].fkName), Some(old(gc.graph.nodes[f].ctx)))
      == Ok(Some(res.value))
    decreases |gc.graph.nodes| - |S|, 2
  {
    ghost var a1 := gc.graph.nodes;
    var M := gc.graph.nodes[f];
    Push(a1, S, f);
    var t := ResolveKeyTarget(gc, M.fkName, M.ctx, S + {f}, p0);
    ghost var a2 := gc.graph.nodes;
    BelowFlat(a1, a2, S, f);
    if t.Err? {
      return Err(t.error);
    }
    PutNode(gc, f, FlatWithKey(gc.graph.nodes[f], Some(t.value)), S, {f}, a1, p0);
    KeyWritten(a1, a2, S, f, t.value);
    res := Ok(t.value);
  }

  /** A step under the stack with flat `f` pushed is a step rewriting `f`, and leaves `f` where it was and its value alone. */
  lemma BelowFlat(a1: seq<Node>, a2: seq<Node>, S: set<nat>, f: nat)
    requires Owned(a1) && FlatValues(a1) && f < |a1| && f !in S && a1[f].Flat?
    requires UnderStack(a1, S, f) && !InResolvedRecord(a1, f)
    requires Step(a1, a2, S + {f}, {})
    ensures Step(a1, a2, S, {f}) && ValueUntouched(a1, a2, f) && KeyFilled(a1[f], a2[f])
    ensures a2[f].Flat? && UnderStack(a2, S, f) && !InResolvedRecord(a2, f)
  {
    StepWeaken(a1, a2, S + {f}, {}, S, {f});
    ValueKept(a1, a2, S + {f}, {}, f);
    StayUnresolved(a1, a2, S, {}, f);
    assert Pinned(a1, S + {f}, f);
  }

  /** Resolving the key of flat `f` after such a step rewrites `f` as its key resolved. */
  lemma KeyWritten(a1: seq<Node>, a2: seq<Node>, S: set<nat>, f: nat, t: nat)
    requires FlatValues(a1) && f < |a1| && a1[f].Flat? && Step(a1, a2, S, {f}) && ValueUntouched(a1, a2, f) && KeyFilled(a1[f], a2[f])
    requires a2[f].Flat? && UnderStack(a2, S, f) && !InResolvedRecord(a2, f)
    ensures var a3 := a2[f := FlatWithKey(a2[f], Some(t))];
      ValueUntouched(a1, a3, f) && a3[f].Flat? && UnderStack(a3, S, f) && !InResolvedRecord(a3, f)
      && a3[f] == FlatWithKey(a1[f], Some(t))
  {
    ReshapedNodes(a1, a2);
  }

  /** The second half of resolving a flat, carried back to where the first began, completes `FlatResolved`. */
  lemma FlatDone(a0: seq<Node>, ps0: seq<PackageInfo>, a3: seq<Node>, ps3: seq<PackageInfo>, a4: seq<Node>,
                 S: set<nat>, f: nat, pf: Option<nat>, p0: seq<PackageInfo>, ok: bool)
    requires f < |a0| && f !in S && Step(a0, a3, S, {f}) && Step(a3, a4, S, {}) && Owned(a3)
    requires EmptyExtension(p0, ps0) && EmptyExtension(p0, ps3)
    requires ok ==> FlatKeyed(a0, ps0, f, pf, a3[f]) && FlatSane(a3[f]) && ValueUntouched(a0, a3, f) && a4[f] == a3[f]
    requires ok && !a3[f].isArray ==> ScalarResolved(a3, ps3, a3[a3[f].value], a4[a3[f].value], a3[f])
    requires ok && a3[f].isArray ==> a3[a3[f].value].isArray && ArrayResolved(a3, ps3, a4, a3[f].value, a3[f])
    ensures Step(a0, a4, S, {f} - S)
    ensures ok ==> FlatSane(a4[f]) && FlatResolved(a0, ps0, a4, f, pf) && !FlatFails(a0, ps0, f, pf)
  {
    StepTrans(a0, a3, a4, S, {f}, {});
    assert {f} + {} == {f} - S;
    if !ok {
      return;
    }
    var v := a0[f].value;
    var G := a3[f];
    if !G.isArray {
      ScalarResolvedMoved(a0, ps0, a3, ps3, p0, a3[v], a4[v], G);
    } else {
      ArrayResolvedMoved(a0, ps0, a3, ps3, p0, a4, v, G);
    }
    FlatResolvedExcludesFails(a0, ps0, a4, f, pf);
  }

  /**
   * The value of non-array flat `f`, whose key is resolved, reconciled with
   * the flat as `ScalarReconciled` says; a key the value names of its own
   * must denote a subclass of the flat's key. Nothing is written yet.
   */
  method ReconcileScalar(gc: GlobalContext, f: nat, S: set<nat>, ghost p0: seq<PackageInfo>) returns (res: Result<Node>)
    requires Resolving(gc, S, p0) && f < |gc.graph.nodes| && f !in S && gc.graph.nodes[f].Flat? && !gc.graph.nodes[f].isArray
    requires KeyResolved(gc.graph.nodes[f]) && UnderStack(gc.graph.nodes, S, f)
    modifies gc, gc.graph
    ensures Resolving(gc, S, p0) && Kept(gc) && Step(old(gc.graph.nodes), gc.graph.nodes, S, {})
    ensures gc.graph.nodes[f] == old(gc.graph.nodes[f]) && ValueUntouched(old(gc.graph.nodes), gc.graph.nodes, f)
    ensures res.Ok? ==> res.value.Value? && IsRecordRef(gc.graph.nodes, res.value.fkRef)
    ensures res.Ok? ==>
      ScalarReconciled(old(gc.graph.nodes), old(gc.packages), old(gc.graph.nodes)[old(gc.graph.nodes)[f].value], res.value, old(gc.graph.nodes)[f])
    ensures res.Ok? && OwnKey(old(gc.graph.nodes)[old(gc.graph.nodes)[f].value], old(gc.graph.nodes)[f]) ==>
      SubclassOk(old(gc.graph.nodes), old(gc.packages), res.value.fkRef, old(gc.graph.nodes)[f].fkRef)
    ensures ScalarFails(old(gc.graph.nodes), old(gc.packages), old(gc.graph.nodes)[old(gc.graph.nodes)[f].value], old(gc.graph.nodes)[f]) ==>
      res.Err?
    decreases |gc.graph.nodes| - |S|, 2
  {
    ghost var a0 := gc.graph.nodes;
    var F := gc.graph.nodes[f];
    var V := gc.graph.nodes[F.value];
    Push(a0, S, f);
    StepRefl(a0, S, {});
    var vt := KeyType(V.valueType);
    var c := ScalarCast(F.flatType, F.isArray, vt, V.isArray);
    var name, ref := V.fkName, V.fkRef;
    if vt == ForeignKey && (V.fkName.None? || V.fkName == F.fkName) {
      name, ref := F.fkName, F.fkRef;
    }
    if OwnKey(V, F) {
      var t := ResolveSubclassKey(gc, OwnKeyName(V), F.ctx, F.fkRef, S + {f}, p0);
      BelowValue(a0, gc.graph.nodes, S, f);
      if t.Err? {
        return Err(t.error);
      }
      name, ref := OwnKeyName(V), Some(t.value);
    } else if c == Ok(KeyFromString) && StringValue(V).Err? {
      return Err(Fatal);
    }
    if c.Err? {
      return Err(c.error);
    }
    res := Ok(ValueWith(V, CastType(c.value, vt), name, ref));
  }

  /**
   * Resolves the value of non-array flat `f`, whose key is resolved, as
   * `ScalarResolved` says, then, when it ends up a foreign key, the flats of
   * the inline record it holds against the root flats of the record it
   * refers to.
   */
  method ResolveScalar(gc: GlobalContext, f: nat, S: set<nat>, ghost p0: seq<PackageInfo>) returns (res: Result<()>)
    requires Resolving(gc, S, p0) && f < |gc.graph.nodes| && f !in S && gc.graph.nodes[f].Flat? && !gc.graph.nodes[f].isArray
    requires KeyResolved(gc.graph.nodes[f]) && UnderStack(gc.graph.nodes, S, f) && !InResolvedRecord(gc.graph.nodes, f)
    modifies gc, gc.graph
    ensures Resolving(gc, S, p0) && Kept(gc) && Step(old(gc.graph.nodes), gc.graph.nodes, S, {})
    ensures gc.graph.nodes[f] == old(gc.graph.nodes[f])
    ensures res.Ok? ==>
      ScalarResolved(old(gc.graph.nodes), old(gc.packages), old(gc.graph.nodes)[gc.graph.nodes[f].value],
                     gc.graph.nodes[gc.graph.nodes[f].value], gc.graph.nodes[f])
    ensures res.Ok? && OwnKey(old(gc.graph.nodes)[gc.graph.nodes[f].value], gc.graph.nodes[f]) ==>
      SubclassOk(old(gc.graph.nodes), old(gc.packages), gc.graph.nodes[gc.graph.nodes[f].value].fkRef, gc.graph.nodes[f].fkRef)
    ensures ScalarFails(old(gc.graph.nodes), old(gc.packages), old(gc.graph.nodes)[gc.graph.nodes[f].value], gc.graph.nodes[f]) ==>
      res.Err?
    ensures res.Ok? && gc.graph.nodes[gc.graph.nodes[f].value].valueType == ForeignKey ==>
      forall c :: c in gc.graph.nodes[gc.graph.nodes[f].value].children && c < |gc.graph.nodes| && gc.graph.nodes[c].Flat? && c !in S + {f} ==>
        FlatSane(gc.graph.nodes[c])
    decreases |gc.graph.nodes| - |S|, 3
  {
    ghost var a0 := gc.graph.nodes;
    var F := gc.graph.nodes[f];
    var v := F.value;
    var r := ReconcileScalar(gc, f, S, p0);
    if r.Err? {
      return Err(r.error);
    }
    var V1 := r.value;
    ValueWritable(a0, gc.graph.nodes, S, f, V1);
    PutNode(gc, v, V1, S, {}, a0, p0);
    if V1.valueType == ForeignKey {
      if V1.fkRef.None? {
        return Err(Fatal);
      }
      ghost var a3 := gc.graph.nodes;
      ValueWritten(a0, a3, S, f, V1.fkRef);
      res := ResolveFlatsOf(gc, v, V1.fkRef, F.ctx, S + {f}, p0);
      InlineDone(a0, a3, gc.graph.nodes, S, f);
      if res.Err? {
        return;
      }
    }
    res := Ok(());
  }

  /** Once the value of flat `f` is rewritten, the flats below it may be resolved with `f` pushed on the stack. */
  lemma ValueWritten(a0: seq<Node>, a3: seq<Node>, S: set<nat>, f: nat, ref: Option<nat>)
    requires Owned(a0) && FlatValues(a0) && StackOk(a0, S) && f < |a0| && f !in S && a0[f].Flat? && UnderStack(a0, S, f)
    requires Reshaped(a0, a3) && a3[f] == a0[f] && RefsOk(a3) && a0[f].value < |a3| && a3[a0[f].value].fkRef == ref
    ensures StackOk(a3, S + {f}) && a3[a0[f].value].Value? && OwnedIn(a3, S + {f}, a0[f].value)
    ensures IsRecordRef(a3, ref) && |S + {f}| == |S| + 1 <= |a3|
  {
    var v := a0[f].value;
    Push(a0, S, f);
    ReshapedKeeps(a0, a3, [], S + {f});
    assert v in Children(a0[f]);
    assert a0[v].parent == Some(ParentNode(f));
    assert IsRecordRef(a3, RefOf(a3[v]));
  }

  /** A step under the stack with flat `f` pushed, `f`'s key being resolved, leaves `f` and its value alone. */
  lemma BelowValue(a0: seq<Node>, a1: seq<Node>, S: set<nat>, f: nat)
    requires Owned(a0) && FlatValues(a0) && f < |a0| && f !in S && a0[f].Flat? && KeyResolved(a0[f])
    requires Step(a0, a1, S + {f}, {})
    ensures Step(a0, a1, S, {}) && a1[f] == a0[f] && ValueUntouched(a0, a1, f)
    ensures StackOk(a0, S) ==> StackOk(a1, S)
  {
    StepWeaken(a0, a1, S + {f}, {}, S, {});
    ReshapedKeeps(a0, a1, [], S);
    ValueKept(a0, a1, S + {f}, {}, f);
    assert Pinned(a0, S + {f}, f);
    KeyFilledSane(a0[f], a1[f]);
  }

  /** The value of flat `f`, off the stack, may be rewritten within its shape by a step under the stack. */
  lemma ValueWritable(a0: seq<Node>, a1: seq<Node>, S: set<nat>, f: nat, V1: Node)
    requires Owned(a0) && FlatValues(a0) && f < |a0| && f !in S && a0[f].Flat? && Reshaped(a0, a1) && a1[f] == a0[f]
    requires V1.Value? && V1 == ValueWith(a0[a0[f].value], V1.valueType, V1.fkName, V1.fkRef) && a1[a0[f].value] == a0[a0[f].value]
    ensures a0[f].value < |a1| && a1[a0[f].value].Value? && !OwnedIn(a1, S, a0[f].value) && SameShape(a1[a0[f].value], V1)
    ensures RefOf(V1) == V1.fkRef && a0[f].value != f
  {
    var v := a0[f].value;
    assert v in Children(a0[f]);
    ReshapedKeeps(a0, a1, [], S);
  }

  /** Resolving the inline record of the value of flat `f`, off the stack, is a step under the stack leaving `f` and its value alone. */
  lemma InlineDone(a0: seq<Node>, a3: seq<Node>, a4: seq<Node>, S: set<nat>, f: nat)
    requires Owned(a3) && FlatValues(a3) && Ordered(a3) && f < |a3| && f !in S && a3[f].Flat? && KeyResolved(a3[f])
    requires Step(a0, a3, S, {})
    requires Step(a3, a4, S + {f}, ChildSet(a3[a3[f].value]) - (S + {f}))
    ensures Step(a0, a4, S, {}) && a4[f] == a3[f] && a4[a3[f].value] == a3[a3[f].value]
    ensures StackOk(a0, S) ==> StackOk(a4, S)
  {
    var T := S + {f};
    var v := a3[f].value;
    BeneathChildren(a3, f, v);
    StepBeneath(a3, a4, T, ChildSet(a3[v]) - T, S, f);
    StepTrans(a0, a3, a4, S, {}, {});
    ReshapedKeeps(a0, a4, [], S);
    ValueKept(a3, a4, T, ChildSet(a3[v]) - T, f);
    assert Pinned(a3, T, f);
    assert v in Children(a3[f]) && f !in ChildSet(a3[v]);
    KeyFilledSane(a3[f], a4[f]);
  }

  /**
   * Resolves the array value of flat `f`, whose key is resolved: the array
   * must be one, takes the flat's type and key, and each of its elements is
   * resolved in order.
   */
  method ResolveArray(gc: GlobalContext, f: nat, S: set<nat>, ghost p0: seq<PackageInfo>) returns (res: Result<()>)
    requires Resolving(gc, S, p0) && f < |gc.graph.nodes| && f !in S && gc.graph.nodes[f].Flat? && gc.graph.nodes[f].isArray
    requires KeyResolved(gc.graph.nodes[f]) && UnderStack(gc.graph.nodes, S, f) && !InResolvedRecord(gc.graph.nodes, f)
    modifies gc, gc.graph
    ensures Resolving(gc, S, p0) && Kept(gc) && Step(old(gc.graph.nodes), gc.graph.nodes, S, {})
    ensures gc.graph.nodes[f] == old(gc.graph.nodes[f])
    ensures !old(gc.graph.nodes)[gc.graph.nodes[f].value].isArray ==> res.Err?
    ensures res.Ok? ==> ArrayResolved(old(gc.graph.nodes), old(gc.packages), gc.graph.nodes, gc.graph.nodes[f].value, gc.graph.nodes[f])
    decreases |gc.graph.nodes| - |S|, 3
  {
    ghost var a0 := gc.graph.nodes;
    ghost var ps0 := gc.packages;
    var F := gc.graph.nodes[f];
    var v := F.value;
    var V := gc.graph.nodes[v];
    StepRefl(a0, S, {});
    if !V.isArray {
      return Err(Fatal);
    }
    var W := ValueWith(V, F.flatType, F.fkName, F.fkRef);
    ValueWritable(a0, a0, S, f, W);
    assert IsRecordRef(a0, RefOf(a0[f]));
    PutNode(gc, v, W, S, {}, a0, p0);
    var cs := V.children;
    ArrayStart(a0, ps0, gc.graph.nodes, f, W);
    for k := 0 to |cs|
      invariant Resolving(gc, S, p0) && Kept(gc) && Step(a0, gc.graph.nodes, S, {})
      invariant gc.graph.nodes[f] == F && gc.graph.nodes[v] == W
      invariant ElementsDone(a0, ps0, gc.graph.nodes, F, cs, k) && ElementsLeft(a0, gc.graph.nodes, cs, k)
    {
      ghost var a1 := gc.graph.nodes;
      ghost var ps1 := gc.packages;
      ElementReady(a0, a1, S, f, k);
      var e := cs[k];
      if gc.graph.nodes[e].Value? {
        res := ResolveElement(gc, f, e, S, p0);
        ElementDone(a0, ps0, a1, ps1, gc.graph.nodes, p0, S, f, k, res.Ok?);
        if res.Err? {
          return;
        }
      } else {
        ElementSkipped(a0, ps0, a1, F, cs, k);
      }
    }
    ArrayDone(a0, ps0, gc.graph.nodes, f);
    res := Ok(());
  }

  /** The first `k` elements `cs` of an array value of flat `F` are resolved in `b`, from arena `a0` and packages `ps0`. */
  predicate ElementsDone(a0: seq<Node>, ps0: seq<PackageInfo>, b: seq<Node>, F: Node, cs: seq<nat>, k: nat) {
    k <= |cs| && forall j :: 0 <= j < k && cs[j] < |a0| && cs[j] < |b| && a0[cs[j]].Value? ==> ElementResolved(a0, ps0, a0[cs[j]], b[cs[j]], F)
  }

  /** The elements `cs` of an array value from the `k`-th on that are values are in `b` as they were in `a0`. */
  predicate ElementsLeft(a0: seq<Node>, b: seq<Node>, cs: seq<nat>, k: nat) {
    forall j :: k <= j < |cs| && cs[j] < |a0| && cs[j] < |b| && a0[cs[j]].Value? ==> b[cs[j]] == a0[cs[j]]
  }

  /** Rewriting the array value of flat `f` leaves its elements as they were. */
  lemma ArrayStart(a0: seq<Node>, ps0: seq<PackageInfo>, a: seq<Node>, f: nat, W: Node)
    requires FlatValues(a0) && Ordered(a0) && f < |a0| && a0[f].Flat? && a == a0[a0[f].value := W]
    ensures ElementsDone(a0, ps0, a, a0[f], a0[a0[f].value].children, 0) && ElementsLeft(a0, a, a0[a0[f].value].children, 0)
  {
    var v := a0[f].value;
    forall j | 0 <= j < |a0[v].children| ensures a0[v].children[j] != v {
      assert a0[v].children[j] in Children(a0[v]);
    }
  }

  /** The `k`-th element of the array value of flat `f`, in a state a step has reached, exists, and `f` is still under the stack. */
  lemma ElementReady(a0: seq<Node>, a1: seq<Node>, S: set<nat>, f: nat, k: nat)
    requires Owned(a0) && FlatValues(a0) && f < |a0| && a0[f].Flat? && UnderStack(a0, S, f) && k < |a0[a0[f].value].children|
    requires Reshaped(a0, a1) && a1[f] == a0[f]
    ensures a0[a0[f].value].children[k] < |a1| && UnderStack(a1, S, f)
  {
    var v := a0[f].value;
    assert a0[v].children[k] in Children(a0[v]);
    assert a0[f].parent == a1[f].parent;
  }

  /**
   * Resolving the `k`-th element of the array value of flat `f` in a state a
   * step has reached resolves it as `ElementResolved` says and leaves the
   * others, and the array, alone.
   */
  lemma ElementDone(a0: seq<Node>, ps0: seq<PackageInfo>, a1: seq<Node>, ps1: seq<PackageInfo>, a2: seq<Node>, p0: seq<PackageInfo>,
                    S: set<nat>, f: nat, k: nat, ok: bool)
    requires Owned(a0) && DistinctChildren(a0) && FlatValues(a0) && f < |a0| && a0[f].Flat? && k < |a0[a0[f].value].children|
    requires Step(a0, a1, S, {}) && Owned(a1) && a1[f] == a0[f] && EmptyExtension(p0, ps0) && EmptyExtension(p0, ps1)
    requires ElementsDone(a0, ps0, a1, a0[f], a0[a0[f].value].children, k) && ElementsLeft(a0, a1, a0[a0[f].value].children, k)
    requires a0[a0[f].value].children[k] < |a1| && a1[a0[a0[f].value].children[k]].Value?
    requires Step(a1, a2, S, {}) && a2[f] == a1[f] && OthersKept(a1, a2, S + {f}, a0[a0[f].value].children[k])
    requires ok ==> ElementResolved(a1, ps1, a1[a0[a0[f].value].children[k]], a2[a0[a0[f].value].children[k]], a2[f])
    ensures Step(a0, a2, S, {}) && a2[f] == a0[f] && a2[a0[f].value] == a1[a0[f].value]
    ensures ok ==> ElementsDone(a0, ps0, a2, a0[f], a0[a0[f].value].children, k + 1)
    ensures ok ==> ElementsLeft(a0, a2, a0[a0[f].value].children, k + 1)
  {
    var cs := a0[a0[f].value].children;
    StepTrans(a0, a1, a2, S, {}, {});
    OtherElementsKept(a0, a1, a2, S, f, k);
    if ok {
      ElementResolvedMoved(a0, ps0, a1, ps1, p0, a1[cs[k]], a2[cs[k]], a0[f]);
      ElementCounted(a0, ps0, a1, a2, a0[f], cs, k);
    }
  }

  /** Moving the loop's account past the `k`-th element, resolved, when the others stay. */
  lemma ElementCounted(a0: seq<Node>, ps0: seq<PackageInfo>, a1: seq<Node>, a2: seq<Node>, F: Node, cs: seq<nat>, k: nat)
    requires k < |cs| && cs[k] < |a0| && |a1| == |a0| && |a2| == |a0|
    requires ElementsDone(a0, ps0, a1, F, cs, k) && ElementsLeft(a0, a1, cs, k)
    requires ElementResolved(a0, ps0, a1[cs[k]], a2[cs[k]], F) && a1[cs[k]] == a0[cs[k]]
    requires forall j :: 0 <= j < |cs| && j != k && cs[j] < |a0| && a0[cs[j]].Value? ==> a2[cs[j]] == a1[cs[j]]
    ensures ElementsDone(a0, ps0, a2, F, cs, k + 1) && ElementsLeft(a0, a2, cs, k + 1)
  {
  }

  /** Resolving the `k`-th element of the array value of flat `f` leaves the array and the other elements alone. */
  lemma OtherElementsKept(a0: seq<Node>, a1: seq<Node>, a2: seq<Node>, S: set<nat>, f: nat, k: nat)
    requires Owned(a0) && DistinctChildren(a0) && FlatValues(a0) && f < |a0| && a0[f].Flat? && k < |a0[a0[f].value].children|
    requires Reshaped(a0, a1) && a1[f] == a0[f] && OthersKept(a1, a2, S + {f}, a0[a0[f].value].children[k])
    ensures a2[a0[f].value] == a1[a0[f].value]
    ensures var cs := a0[a0[f].value].children;
      forall j :: 0 <= j < |cs| && j != k && cs[j] < |a0| && a0[cs[j]].Value? ==> a2[cs[j]] == a1[cs[j]]
  {
    var v := a0[f].value;
    var cs := a0[v].children;
    ElementsOwned(a0, a1, S, f);
    assert v in Children(a0[f]);
    assert OwnedIn(a1, S + {f}, v) && a1[v].Value? && v != cs[k] by {
      assert SameShape(a0[v], a1[v]) && SameShape(a0[f], a1[f]);
      assert cs[k] in Children(a0[v]);
    }
    forall j | 0 <= j < |cs| && j != k && cs[j] < |a0| && a0[cs[j]].Value? ensures a2[cs[j]] == a1[cs[j]] {
      assert Children(a0[v])[j] != Children(a0[v])[k];
      assert cs[j] in cs;
    }
  }

  /** The elements of the array value of flat `f` are, when values, owned under the stack with `f` pushed. */
  lemma ElementsOwned(a0: seq<Node>, a1: seq<Node>, S: set<nat>, f: nat)
    requires Owned(a0) && FlatValues(a0) && f < |a0| && a0[f].Flat? && Reshaped(a0, a1)
    ensures forall x :: x in a0[a0[f].value].children ==> x < |a1| && (a0[x].Value? ==> a1[x].Value? && OwnedIn(a1, S + {f}, x))
  {
    var v := a0[f].value;
    assert v in Children(a0[f]);
    assert SameShape(a0[v], a1[v]) && SameShape(a0[f], a1[f]);
    forall x | x in a0[v].children ensures x < |a1| && (a0[x].Value? ==> a1[x].Value? && OwnedIn(a1, S + {f}, x)) {
      assert x in Children(a0[v]);
      assert SameShape(a0[x], a1[x]);
    }
  }

  /** Skipping the `k`-th element, which is no value, keeps the loop's account. */
  lemma ElementSkipped(a0: seq<Node>, ps0: seq<PackageInfo>, a1: seq<Node>, F: Node, cs: seq<nat>, k: nat)
    requires Reshaped(a0, a1) && k < |cs| && cs[k] < |a1| && !a1[cs[k]].Value?
    requires ElementsDone(a0, ps0, a1, F, cs, k) && ElementsLeft(a0, a1, cs, k)
    ensures ElementsDone(a0, ps0, a1, F, cs, k + 1) && ElementsLeft(a0, a1, cs, k + 1)
  {
    assert SameShape(a0[cs[k]], a1[cs[k]]);
  }

  /** Once every element is resolved, the array value of flat `f` is resolved. */
  lemma ArrayDone(a0: seq<Node>, ps0: seq<PackageInfo>, a: seq<Node>, f: nat)
    requires FlatValues(a0) && f < |a0| && a0[f].Flat? && |a| == |a0| && a[f] == a0[f]
    requires a[a0[f].value] == ValueWith(a0[a0[f].value], a0[f].flatType, a0[f].fkName, a0[f].fkRef)
    requires ElementsDone(a0, ps0, a, a0[f], a0[a0[f].value].children, |a0[a0[f].value].children|)
    ensures ArrayResolved(a0, ps0, a, a[f].value, a[f])
  {
    var cs := a0[a0[f].value].children;
    forall e | e in cs && e < |a0| && a0[e].Value? ensures ElementResolved(a0, ps0, a0[e], a[e], a0[f]) {
      var j :| 0 <= j < |cs| && cs[j] == e;
    }
  }

  /**
   * Element `e` of the array value of flat `f`, whose key is resolved,
   * reconciled with the flat as `ElementResolved` says. Nothing is written yet.
   */
  method ReconcileElement(gc: GlobalContext, f: nat, e: nat, S: set<nat>, ghost p0: seq<PackageInfo>) returns (res: Result<Node>)
    requires Resolving(gc, S, p0) && f < |gc.graph.nodes| && f !in S && gc.graph.nodes[f].Flat?
    requires KeyResolved(gc.graph.nodes[f]) && UnderStack(gc.graph.nodes, S, f)
    requires e < |gc.graph.nodes| && gc.graph.nodes[e].Value? && e in gc.graph.nodes[gc.graph.nodes[f].value].children
    modifies gc, gc.graph
    ensures Resolving(gc, S, p0) && Kept(gc) && Step(old(gc.graph.nodes), gc.graph.nodes, S, {})
    ensures gc.graph.nodes[f] == old(gc.graph.nodes[f]) && gc.graph.nodes[e] == old(gc.graph.nodes[e])
    ensures OthersKept(old(gc.graph.nodes), gc.graph.nodes, S + {f}, e)
    ensures res.Ok? ==> res.value.Value? && IsRecordRef(gc.graph.nodes, res.value.fkRef)
    ensures res.Ok? ==> ElementResolved(old(gc.graph.nodes), old(gc.packages), old(gc.graph.nodes[e]), res.value, old(gc.graph.nodes[f]))
    ensures ElementFails(old(gc.graph.nodes), old(gc.packages), old(gc.graph.nodes[e]), old(gc.graph.nodes[f])) ==> res.Err?
    decreases |gc.graph.nodes| - |S|, 1
  {
    ghost var a0 := gc.graph.nodes;
    var F := gc.graph.nodes[f];
    var E := gc.graph.nodes[e];
    var T := S + {f};
    Push(a0, S, f);
    StepRefl(a0, S, {});
    ElementOwned(a0, S, f, e);
    if E.valueType == ForeignKey || E.valueType == InlineRecord {
      if F.flatType != ForeignKey {
        return Err(Fatal);
      }
      if E.fkName.None? {
        // An element naming no key takes the array's, which is the flat's.
        return Ok(ValueWith(E, ForeignKey, F.fkName, F.fkRef));
      }
      var t := ResolveKeyTarget(gc, E.fkName, F.ctx, T, p0);
      BelowElement(a0, gc.graph.nodes, S, f, e);
      if t.Err? {
        return Err(t.error);
      }
      var sub := IsSubclassOf(gc.graph.nodes, gc.packages, t.value, F.fkRef, {});
      if sub != Ok(true) {
        return Err(Fatal);
      }
      res := Ok(ValueWith(E, ForeignKey, E.fkName, Some(t.value)));
    } else if E.valueType == String && F.flatType == ForeignKey {
      var s := StringValue(E);
      if s.Err? {
        return Err(s.error);
      }
      if s.value == "" {
        return Ok(E);
      }
      var t := ResolveKeyTarget(gc, Some(s.value), F.ctx, T, p0);
      BelowElement(a0, gc.graph.nodes, S, f, e);
      if t.Err? {
        return Err(t.error);
      }
      res := Ok(ValueWith(E, String, Some(s.value), Some(t.value)));
    } else {
      var c := ElementCast(F.flatType, F.flatType, E.valueType);
      if c.Err? {
        return Err(c.error);
      }
      res := Ok(ValueWith(E, CastType(c.value, E.valueType), E.fkName, E.fkRef));
    }
  }

  /**
   * Resolves element `e` of the array value of flat `f`, whose key is
   * resolved, as `ElementResolved` says, then, for an inline record element,
   * its flats against the root flats of the record it refers to.
   */
  method ResolveElement(gc: GlobalContext, f: nat, e: nat, S: set<nat>, ghost p0: seq<PackageInfo>) returns (res: Result<()>)
    requires Resolving(gc, S, p0) && f < |gc.graph.nodes| && f !in S && gc.graph.nodes[f].Flat?
    requires KeyResolved(gc.graph.nodes[f]) && UnderStack(gc.graph.nodes, S, f)
    requires e < |gc.graph.nodes| && gc.graph.nodes[e].Value? && e in gc.graph.nodes[gc.graph.nodes[f].value].children
    modifies gc, gc.graph
    ensures Resolving(gc, S, p0) && Kept(gc) && Step(old(gc.graph.nodes), gc.graph.nodes, S, {})
    ensures gc.graph.nodes[f] == old(gc.graph.nodes[f])
    ensures OthersKept(old(gc.graph.nodes), gc.graph.nodes, S + {f}, e)
    ensures res.Ok? ==> ElementResolved(old(gc.graph.nodes), old(gc.packages), old(gc.graph.nodes[e]), gc.graph.nodes[e], gc.graph.nodes[f])
    ensures ElementFails(old(gc.graph.nodes), old(gc.packages), old(gc.graph.nodes[e]), old(gc.graph.nodes[f])) ==> res.Err?
    decreases |gc.graph.nodes| - |S|, 2
  {
    ghost var a0 := gc.graph.nodes;
    var F := gc.graph.nodes[f];
    var r := ReconcileElement(gc, f, e, S, p0);
    if r.Err? {
      return Err(r.error);
    }
    var E1 := r.value;
    ghost var a1 := gc.graph.nodes;
    ElementWritable(a0, a1, S, f, e, E1);
    PutNode(gc, e, E1, S, {}, a0, p0);
    ghost var a3 := gc.graph.nodes;
    ElementWritten(a0, a1, a3, S, f, e, E1);
    if E1.valueType == ForeignKey {
      res := ResolveFlatsOf(gc, e, E1.fkRef, F.ctx, S + {f}, p0);
      ElementInlineDone(a0, a3, gc.graph.nodes, S, f, e);
      if res.Err? {
        return;
      }
    }
    res := Ok(());
  }

  /** Element `e` of the array value of flat `f` belongs to that value, which `f` holds. */
  lemma ElementOwned(a: seq<Node>, S: set<nat>, f: nat, e: nat)
    requires Owned(a) && FlatValues(a) && f < |a| && a[f].Flat? && e < |a| && a[e].Value? && e in a[a[f].value].children
    ensures OwnedIn(a, S + {f}, e) && OthersKept(a, a, S + {f}, e)
    ensures ParentIndex(a[e]) == Some(a[f].value) && ParentIndex(a[a[f].value]) == Some(f)
  {
    var v := a[f].value;
    assert v in Children(a[f]);
    assert e in Children(a[v]);
  }

  /** A step under the stack with flat `f` pushed, `f`'s key being resolved, leaves `f` and its element `e` alone. */
  lemma BelowElement(a0: seq<Node>, a1: seq<Node>, S: set<nat>, f: nat, e: nat)
    requires Owned(a0) && f < |a0| && f !in S && a0[f].Flat? && KeyResolved(a0[f])
    requires e < |a0| && a0[e].Value? && OwnedIn(a0, S + {f}, e) && Step(a0, a1, S + {f}, {})
    ensures Step(a0, a1, S, {}) && a1[f] == a0[f] && a1[e] == a0[e] && OthersKept(a0, a1, S + {f}, e)
    ensures StackOk(a0, S) ==> StackOk(a1, S)
  {
    StepWeaken(a0, a1, S + {f}, {}, S, {});
    ReshapedKeeps(a0, a1, [], S);
    assert Pinned(a0, S + {f}, f);
    KeyFilledSane(a0[f], a1[f]);
  }

  /** Element `e` of the value of flat `f`, off the stack, may be rewritten within its shape by a step under the stack. */
  lemma ElementWritable(a0: seq<Node>, a1: seq<Node>, S: set<nat>, f: nat, e: nat, E1: Node)
    requires Owned(a0) && FlatValues(a0) && f < |a0| && f !in S && a0[f].Flat? && e < |a0| && a0[e].Value? && e in a0[a0[f].value].children
    requires Reshaped(a0, a1) && a1[e] == a0[e]
    requires E1.Value? && E1 == ValueWith(a0[e], E1.valueType, E1.fkName, E1.fkRef)
    ensures !OwnedIn(a1, S, e) && SameShape(a1[e], E1) && RefOf(E1) == E1.fkRef
  {
    var v := a0[f].value;
    ElementOwned(a0, S, f, e);
    assert SameShape(a0[v], a1[v]) && SameShape(a0[f], a1[f]);
  }

  /** Once element `e` of the value of flat `f` is rewritten, the flats below it may be resolved with `f` pushed on the stack. */
  lemma ElementWritten(a0: seq<Node>, a1: seq<Node>, a3: seq<Node>, S: set<nat>, f: nat, e: nat, E1: Node)
    requires Owned(a0) && FlatValues(a0) && StackOk(a0, S) && f < |a0| && f !in S && a0[f].Flat? && UnderStack(a0, S, f)
    requires e < |a0| && a0[e].Value? && e in a0[a0[f].value].children
    requires Reshaped(a0, a3) && e < |a1| && a3 == a1[e := E1] && OthersKept(a0, a1, S + {f}, e) && RefsOk(a3)
    ensures StackOk(a3, S + {f}) && a3[e].Value? && OwnedIn(a3, S + {f}, e) && OthersKept(a0, a3, S + {f}, e)
    ensures IsRecordRef(a3, E1.fkRef) && |S + {f}| == |S| + 1 <= |a3|
  {
    var T := S + {f};
    var v := a0[f].value;
    ElementOwned(a0, S, f, e);
    Push(a0, S, f);
    assert SameShape(a0[v], a3[v]) && SameShape(a0[f], a3[f]) && SameShape(a0[e], a3[e]);
    StackReshaped(a0, a3, T);
    assert IsRecordRef(a3, RefOf(a3[e]));
  }

  /** Reshaping keeps the stack well-formed. */
  lemma StackReshaped(a: seq<Node>, b: seq<Node>, S: set<nat>)
    requires Reshaped(a, b) && StackOk(a, S)
    ensures StackOk(b, S)
  {
    ReshapedKeeps(a, b, [], S);
  }

  /** Resolving the inline record of element `e` of the value of flat `f`, off the stack, is a step under the stack leaving `f`, `e` and the other elements alone. */
  lemma ElementInlineDone(a0: seq<Node>, a3: seq<Node>, a4: seq<Node>, S: set<nat>, f: nat, e: nat)
    requires Owned(a0) && FlatValues(a0) && Ordered(a0) && f < |a0| && f !in S && a0[f].Flat? && KeyResolved(a0[f])
    requires e < |a0| && a0[e].Value? && e in a0[a0[f].value].children
    requires StackOk(a0, S) && Step(a0, a3, S, {}) && a3[f] == a0[f] && OthersKept(a0, a3, S + {f}, e)
    requires Step(a3, a4, S + {f}, ChildSet(a3[e]) - (S + {f}))
    ensures Step(a0, a4, S, {}) && a4[f] == a3[f] && a4[e] == a3[e] && OthersKept(a0, a4, S + {f}, e) && StackOk(a4, S)
  {
    var T := S + {f};
    var v := a0[f].value;
    ElementOwned(a0, S, f, e);
    assert SameShape(a0[v], a3[v]) && SameShape(a0[e], a3[e]);
    ReshapedKeeps(a0, a3, [], T);
    BeneathChildren(a3, f, e);
    StepBeneath(a3, a4, T, ChildSet(a3[e]) - T, S, f);
    StepTrans(a0, a3, a4, S, {}, {});
    StackReshaped(a0, a4, S);
    OthersKeptStep(a0, a3, a4, T, ChildSet(a3[e]) - T, e);
    assert Pinned(a3, T, f);
    assert v in Children(a0[f]) && e in Children(a0[v]);
    assert v < f && e < v;
    assert a3[e].children == a0[e].children;
    assert f !in ChildSet(a3[e]) by {
      forall c | c in ChildSet(a3[e]) ensures c < e {
        assert c in Children(a0[e]);
      }
    }
    KeyFilledSane(a3[f], a4[f]);
  }
}
