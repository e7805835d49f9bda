/**
 * The driver of reference resolution: every registered file in turn, with a
 * fresh resolution stack, resolves its top-level flats and then its
 * top-level records.
 */
module References {
  import opened Wrappers
  import opened SemanticNodes
  import opened Registry
  import opened Analysis
  import opened Sanity
  import opened Resolution
  import opened ResolvePass

  /** Every top-level flat of file root `root` is sane and every top-level record of it is resolved. */
  predicate FileResolved(a: seq<Node>, root: Root) {
    forall c :: c in root.children && c < |a| ==> (a[c].Flat? ==> FlatSane(a[c])) && (a[c].Record? ==> a[c].isFullyResolved)
  }

  /** The first `j` top-level nodes `cs` that are flats are sane in `a`. */
  predicate FlatsDone(a: seq<Node>, cs: seq<nat>, j: nat) {
    forall i :: 0 <= i < j && i < |cs| && cs[i] < |a| && a[cs[i]].Flat? ==> FlatSane(a[cs[i]])
  }

  /** The first `j` top-level nodes `cs` that are records are resolved in `a`. */
  predicate RecordsDone(a: seq<Node>, cs: seq<nat>, j: nat) {
    forall i :: 0 <= i < j && i < |cs| && cs[i] < |a| && a[cs[i]].Record? ==> a[cs[i]].isFullyResolved
  }

  /** The first `j` top-level nodes `cs` that are flats were declared with a type in `a0`. */
  predicate FlatsTyped(a0: seq<Node>, cs: seq<nat>, j: nat) {
    forall i :: 0 <= i < j && i < |cs| && cs[i] < |a0| && a0[cs[i]].Flat? ==> a0[cs[i]].flatType != Unresolved
  }

  /**
   * Resolves the file whose root is `k`, with an empty stack: its top-level
   * flats, each of which must have a declared type, in order, then its
   * top-level records in order.
   */
  method ResolveFile(gc: GlobalContext, k: nat, ghost p0: seq<PackageInfo>) returns (res: Result<()>)
    requires Resolving(gc, {}, p0) && k < |gc.graph.roots|
    modifies gc, gc.graph
    ensures Resolving(gc, {}, p0) && Kept(gc) && Step(old(gc.graph.nodes), gc.graph.nodes, {}, Elems(gc.graph.roots[k].children))
    ensures res.Ok? ==> FileResolved(gc.graph.nodes, gc.graph.roots[k])
    ensures res.Ok? ==> FlatsTyped(old(gc.graph.nodes), gc.graph.roots[k].children, |gc.graph.roots[k].children|)
  {
    ghost var a0 := gc.graph.nodes;
    var cs := gc.graph.roots[k].children;
    StepRefl(a0, {}, {});
    assert Elems(cs[..0]) == {};
    for j := 0 to |cs|
      invariant Resolving(gc, {}, p0) && Kept(gc) && Step(a0, gc.graph.nodes, {}, Elems(cs[..j]))
      invariant FlatsDone(gc.graph.nodes, cs, j) && FlatsTyped(a0, cs, j)
    {
      ghost var a1 := gc.graph.nodes;
      TopReady(a1, gc.graph.roots, k, j);
      var c := cs[j];
      if gc.graph.nodes[c].Flat? {
        if gc.graph.nodes[c].flatType == Unresolved {
          return Err(Fatal);
        }
        TopTyped(a0, a1, gc.graph.roots, k, j);
        res := ResolveFlat(gc, c, {}, None, p0);
        TopFlatDone(a0, a1, gc.graph.nodes, gc.graph.roots, k, j, res.Ok?);
        if res.Err? {
          return;
        }
      } else {
        TopSkipped(a0, a1, gc.graph.roots, k, j);
      }
    }
    assert cs[..|cs|] == cs;
    for j := 0 to |cs|
      invariant Resolving(gc, {}, p0) && Kept(gc) && Step(a0, gc.graph.nodes, {}, Elems(cs))
      invariant FlatsDone(gc.graph.nodes, cs, |cs|) && FlatsTyped(a0, cs, |cs|) && RecordsDone(gc.graph.nodes, cs, j)
    {
      ghost var a1 := gc.graph.nodes;
      TopReady(a1, gc.graph.roots, k, j);
      var c := cs[j];
      if gc.graph.nodes[c].Record? {
        res := ResolveRecord(gc, c, {}, p0);
        TopRecordDone(a0, a1, gc.graph.nodes, gc.graph.roots, k, j, res.Ok?);
        if res.Err? {
          return;
        }
      } else {
        RecordSkipped(a1, cs, j);
      }
    }
    FileDone(gc.graph.nodes, gc.graph.roots[k]);
    res := Ok(());
  }

  /** The `j`-th top-level node of file root `k` is a node that hangs under the root. */
  lemma TopReady(a: seq<Node>, roots: seq<Root>, k: nat, j: nat)
    requires RootOwned(a, roots) && k < |roots| && j < |roots[k].children|
    ensures roots[k].children[j] < |a| && a[roots[k].children[j]].parent == Some(ParentRoot(k))
    ensures UnderStack(a, {}, roots[k].children[j]) && !InResolvedRecord(a, roots[k].children[j])
  {
    assert roots[k].children[j] in roots[k].children;
  }

  /** A top-level flat found typed in a state a step has reached was typed from the start. */
  lemma TopTyped(a0: seq<Node>, a1: seq<Node>, roots: seq<Root>, k: nat, j: nat)
    requires RootOwned(a0, roots) && k < |roots| && j < |roots[k].children|
    requires Step(a0, a1, {}, Elems(roots[k].children[..j])) && FlatsTyped(a0, roots[k].children, j)
    requires roots[k].children[j] < |a1| && a1[roots[k].children[j]].Flat? && a1[roots[k].children[j]].flatType != Unresolved
    ensures FlatsTyped(a0, roots[k].children, j + 1)
  {
    var cs := roots[k].children;
    var c := cs[j];
    assert c in cs;
    if c in Elems(cs[..j]) {
      var i :| 0 <= i < j && cs[..j][i] == c;
      assert cs[i] == c;
    } else {
      assert SameShape(a0[c], a1[c]);
      assert Pinned(a0, {}, c);
    }
  }

  /** Resolving the `j`-th top-level node, a flat, extends the step and keeps the flats before it sane. */
  lemma TopFlatDone(a0: seq<Node>, a1: seq<Node>, a2: seq<Node>, roots: seq<Root>, k: nat, j: nat, ok: bool)
    requires RootOwned(a0, roots) && k < |roots| && j < |roots[k].children| && Owned(a1)
    requires Step(a0, a1, {}, Elems(roots[k].children[..j])) && FlatsDone(a1, roots[k].children, j)
    requires roots[k].children[j] < |a1| && a1[roots[k].children[j]].Flat?
    requires Step(a1, a2, {}, {roots[k].children[j]})
    requires ok ==> FlatSane(a2[roots[k].children[j]])
    ensures Step(a0, a2, {}, Elems(roots[k].children[..j + 1]))
    ensures ok ==> FlatsDone(a2, roots[k].children, j + 1)
  {
    var cs := roots[k].children;
    var c := cs[j];
    assert c in cs;
    assert a1[c].parent == a0[c].parent by {
      assert SameShape(a0[c], a1[c]);
    }
    StepTrans(a0, a1, a2, {}, Elems(cs[..j]), {c});
    assert Elems(cs[..j + 1]) == Elems(cs[..j]) + {c} by {
      assert cs[..j + 1] == cs[..j] + [c];
    }
    if ok {
      forall i | 0 <= i < j + 1 && cs[i] < |a2| && a2[cs[i]].Flat? ensures FlatSane(a2[cs[i]]) {
        if cs[i] != c {
          assert cs[i] in cs;
          assert SameShape(a0[cs[i]], a1[cs[i]]);
          assert Pinned(a1, {}, cs[i]);
          KeyFilledSane(a1[cs[i]], a2[cs[i]]);
        }
      }
    }
  }

  /** Passing over the `j`-th top-level node, no flat, keeps the account of the flats. */
  lemma TopSkipped(a0: seq<Node>, a1: seq<Node>, roots: seq<Root>, k: nat, j: nat)
    requires k < |roots| && j < |roots[k].children| && Reshaped(a0, a1)
    requires Step(a0, a1, {}, Elems(roots[k].children[..j])) && FlatsDone(a1, roots[k].children, j) && FlatsTyped(a0, roots[k].children, j)
    requires roots[k].children[j] < |a1| && !a1[roots[k].children[j]].Flat?
    ensures Step(a0, a1, {}, Elems(roots[k].children[..j + 1]))
    ensures FlatsDone(a1, roots[k].children, j + 1) && FlatsTyped(a0, roots[k].children, j + 1)
  {
    var cs := roots[k].children;
    assert SameShape(a0[cs[j]], a1[cs[j]]);
    StepWeaken(a0, a1, {}, Elems(cs[..j]), {}, Elems(cs[..j + 1]));
  }

  /** Resolving the `j`-th top-level node, a record, keeps the flats sane and the records before it resolved. */
  lemma TopRecordDone(a0: seq<Node>, a1: seq<Node>, a2: seq<Node>, roots: seq<Root>, k: nat, j: nat, ok: bool)
    requires RootOwned(a0, roots) && k < |roots| && j < |roots[k].children| && Owned(a1)
    requires Step(a0, a1, {}, Elems(roots[k].children)) && Step(a1, a2, {}, {})
    requires FlatsDone(a1, roots[k].children, |roots[k].children|) && RecordsDone(a1, roots[k].children, j)
    requires roots[k].children[j] < |a1| && a1[roots[k].children[j]].Record?
    requires ok ==> a2[roots[k].children[j]].Record? && a2[roots[k].children[j]].isFullyResolved
    ensures Step(a0, a2, {}, Elems(roots[k].children))
    ensures FlatsDone(a2, roots[k].children, |roots[k].children|)
    ensures ok ==> RecordsDone(a2, roots[k].children, j + 1)
  {
    var cs := roots[k].children;
    StepTrans(a0, a1, a2, {}, Elems(cs), {});
    assert Elems(cs) + {} == Elems(cs);
    forall i | 0 <= i < |cs| && cs[i] < |a2| && a2[cs[i]].Flat? ensures FlatSane(a2[cs[i]]) {
      assert cs[i] in cs;
      assert SameShape(a0[cs[i]], a1[cs[i]]) && SameShape(a1[cs[i]], a2[cs[i]]);
      assert Pinned(a1, {}, cs[i]);
      KeyFilledSane(a1[cs[i]], a2[cs[i]]);
    }
    forall i | 0 <= i < j && cs[i] < |a2| && a2[cs[i]].Record? ensures a2[cs[i]].isFullyResolved {
      assert SameShape(a1[cs[i]], a2[cs[i]]);
    }
  }

  /** Passing over the `j`-th top-level node, no record, keeps the account of the records. */
  lemma RecordSkipped(a: seq<Node>, cs: seq<nat>, j: nat)
    requires j < |cs| && cs[j] < |a| && !a[cs[j]].Record? && RecordsDone(a, cs, j)
    ensures RecordsDone(a, cs, j + 1)
  {
  }

  /** Once every top-level flat is sane and every top-level record resolved, the file is resolved. */
  lemma FileDone(a: seq<Node>, root: Root)
    requires FlatsDone(a, root.children, |root.children|) && RecordsDone(a, root.children, |root.children|)
    ensures FileResolved(a, root)
  {
    forall c | c in root.children && c < |a| ensures (a[c].Flat? ==> FlatSane(a[c])) && (a[c].Record? ==> a[c].isFullyResolved) {
      var i :| 0 <= i < |root.children| && root.children[i] == c;
    }
  }

  /**
   * Resolves every registered file in turn, each with a fresh stack; the
   * first failure ends the pass. Resolution keeps every node's shape and only
   * adds empty packages.
   */
  method ResolveReferences(gc: GlobalContext) returns (res: Result<()>)
    requires Ready(gc) && ResolvedSane(gc.graph.nodes)
    modifies gc, gc.graph
    ensures Ready(gc) && ResolvedSane(gc.graph.nodes) && Kept(gc)
    ensures Reshaped(old(gc.graph.nodes), gc.graph.nodes) && EmptyExtension(old(gc.packages), gc.packages)
    ensures res.Ok? ==> forall i :: 0 <= i < |gc.rootNodes| ==> FileResolved(gc.graph.nodes, gc.graph.roots[gc.rootNodes[i].1])
  {
    ghost var a0 := gc.graph.nodes;
    ghost var p0 := gc.packages;
    LinkFacts(a0, gc.graph.roots);
    assert p0[..|p0|] == p0;
    for i := 0 to |gc.rootNodes|
      invariant Resolving(gc, {}, p0) && Kept(gc) && Reshaped(a0, gc.graph.nodes)
      invariant forall i' :: 0 <= i' < i ==> FileResolved(gc.graph.nodes, gc.graph.roots[gc.rootNodes[i'].1])
    {
      ghost var a1 := gc.graph.nodes;
      var k := gc.rootNodes[i].1;
      res := ResolveFile(gc, k, p0);
      FilesStay(a0, a1, gc.graph.nodes, gc.graph.roots, gc.rootNodes, i, res.Ok?);
      if res.Err? {
        return;
      }
    }
    res := Ok(());
  }

  /** A file resolved stays resolved through a step that resolves another file. */
  lemma FileStays(a1: seq<Node>, a2: seq<Node>, roots: seq<Root>, k: nat, m: nat)
    requires RootOwned(a1, roots) && k < |roots| && m < |roots|
    requires Step(a1, a2, {}, Elems(roots[k].children)) && FileResolved(a2, roots[k]) && FileResolved(a1, roots[m])
    ensures FileResolved(a2, roots[m])
  {
    forall c | c in roots[m].children && c < |a2| ensures (a2[c].Flat? ==> FlatSane(a2[c])) && (a2[c].Record? ==> a2[c].isFullyResolved) {
      assert SameShape(a1[c], a2[c]);
      if c !in Elems(roots[k].children) {
        assert Pinned(a1, {}, c);
        if a1[c].Flat? {
          KeyFilledSane(a1[c], a2[c]);
        }
      }
    }
  }

  /** Resolving the `i`-th registered file keeps the shape and the files before it resolved. */
  lemma FilesStay(a0: seq<Node>, a1: seq<Node>, a2: seq<Node>, roots: seq<Root>, rootNodes: seq<(string, nat)>, i: nat, ok: bool)
    requires RootOwned(a1, roots) && i < |rootNodes| && (forall i' :: 0 <= i' < |rootNodes| ==> rootNodes[i'].1 < |roots|)
    requires Reshaped(a0, a1) && Step(a1, a2, {}, Elems(roots[rootNodes[i].1].children))
    requires forall i' :: 0 <= i' < i ==> FileResolved(a1, roots[rootNodes[i'].1])
    requires ok ==> FileResolved(a2, roots[rootNodes[i].1])
    ensures Reshaped(a0, a2)
    ensures ok ==> forall i' :: 0 <= i' < i + 1 ==> FileResolved(a2, roots[rootNodes[i'].1])
  {
    ReshapedTrans(a0, a1, a2);
    if ok {
      forall i' | 0 <= i' < i ensures FileResolved(a2, roots[rootNodes[i'].1]) {
        FileStays(a1, a2, roots, rootNodes[i].1, rootNodes[i'].1);
      }
    }
  }
}
