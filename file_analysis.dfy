/**
 * Analysing one parsed file: its package context, the trees of its records
 * and top-level flats, their allocation under a new file root, and their
 * registration in the packages of the global registry.
 */
module FileAnalysis {
  import opened Wrappers
  import opened SyntaxTree
  import opened Names
  import opened SemanticNodes
  import opened Registry
  import opened Analysis

  // ---------------------------------------------------------------------------
  // Where declarations are registered

  /**
   * Where a declaration is registered: in a package, optionally renamed to
   * the part of its name after the dot; among the free records; or nowhere.
   */
  datatype Home = InPackage(package: string, rename: Option<string>) | Free | Nowhere

  /**
   * The home of a record called `name` in a file with context `ctx`: an
   * unnamed record is not registered, a dotted name `P.N` goes into package
   * `P` as `N`, an undotted one into the file's package as it is, or among
   * the free records when the file has no package. A name with two dots is an
   * error.
   */
  function RecordHome(name: Option<string>, ctx: PackageContext): (h: Result<Home>)
  {
    if name.None? then Ok(Nowhere)
    else if '.' in name.value then
      var ids := Split(name.value, '.');
      SplitCount(name.value, '.');
      CountZero(name.value, '.');
      if |ids| > 2 then Err(Fatal) else Ok(InPackage(ids[0], Some(ids[1])))
    else if ctx.name.Some? then Ok(InPackage(ctx.name.value, None))
    else Ok(Free)
  }

  /**
   * The home of a top-level flat called `name`: like a record's, except that
   * a flat must belong to a package, so an undotted flat in a file without a
   * package is an error.
   */
  function FlatHome(name: string, ctx: PackageContext): (h: Result<Home>)
    ensures h.Ok? ==> h.value.InPackage?
  {
    if '.' in name then
      var ids := Split(name, '.');
      SplitCount(name, '.');
      CountZero(name, '.');
      if |ids| > 2 then Err(Fatal) else Ok(InPackage(ids[0], Some(ids[1])))
    else if ctx.name.Some? then Ok(InPackage(ctx.name.value, None))
    else Err(Fatal)
  }

  /**
   * A record is registered in the package its declaration belongs to, and a
   * qualified name `P.N` is registered as `N` in `P`; it is free exactly when
   * it is named but belongs to no package.
   */
  lemma RecordHomeIsDeclarationPackage(name: Option<string>, ctx: PackageContext)
    ensures RecordHome(name, ctx).Err? <==> DeclarationPackageName(name, ctx).Err?
    ensures forall p :: (RecordHome(name, ctx).Ok? && RecordHome(name, ctx).value.InPackage? &&
      RecordHome(name, ctx).value.package == p) <==> DeclarationPackageName(name, ctx) == Ok(Some(p))
    ensures RecordHome(name, ctx) == Ok(Free) <==> name.Some? && DeclarationPackageName(name, ctx) == Ok(None)
    ensures forall p, n :: name == Some(p + "." + n) && '.' !in p && '.' !in n ==>
      RecordHome(name, ctx) == Ok(InPackage(p, Some(n)))
  {
    forall p, n | name == Some(p + "." + n) && '.' !in p && '.' !in n
      ensures RecordHome(name, ctx) == Ok(InPackage(p, Some(n)))
    {
      SplitQualified(p, n, '.');
      assert (p + "." + n)[|p|] == '.';
    }
  }

  /** A top-level flat is registered in the package its declaration belongs to, and never freely. */
  lemma FlatHomeIsDeclarationPackage(name: string, ctx: PackageContext)
    ensures FlatHome(name, ctx).Ok? ==> FlatHome(name, ctx).value.InPackage?
    ensures FlatHome(name, ctx).Err? <==> !DeclarationPackageName(Some(name), ctx).Ok? || DeclarationPackageName(Some(name), ctx) == Ok(None)
    ensures forall p :: (FlatHome(name, ctx).Ok? && FlatHome(name, ctx).value.package == p) <==>
      DeclarationPackageName(Some(name), ctx) == Ok(Some(p))
  {
  }

  /** The tree as registration leaves it: a qualified name loses its package part. */
  function Renamed(t: Tree, h: Home): (u: Tree)
    requires !t.TValue?
  {
    if h.InPackage? && h.rename.Some? then
      if t.TRecord? then t.(recordName := h.rename) else t.(name := h.rename.value)
    else t
  }

  /** The packages after record `r` was added to package `p`, which is created when missing. */
  function WithRecord(packages: seq<PackageInfo>, p: string, r: nat): (ps: seq<PackageInfo>)
    ensures FindPackage(ps, p).Some? && r in ps[FindPackage(ps, p).value].records
  {
    var ws := WithPackage(packages, p);
    var i := FindPackage(ws, p).value;
    var ps := ws[i := ws[i].(records := ws[i].records + [r])];
    FindPackageByNames(ws, ps, p);
    ps
  }

  /** The packages after flat `f` was added to package `p`, which is created when missing. */
  function WithFlat(packages: seq<PackageInfo>, p: string, f: nat): (ps: seq<PackageInfo>)
    ensures FindPackage(ps, p).Some? && f in ps[FindPackage(ps, p).value].flats
  {
    var ws := WithPackage(packages, p);
    var i := FindPackage(ws, p).value;
    var ps := ws[i := ws[i].(flats := ws[i].flats + [f])];
    FindPackageByNames(ws, ps, p);
    ps
  }

  /** Finding a package depends only on the package names. */
  lemma FindPackageByNames(a: seq<PackageInfo>, b: seq<PackageInfo>, p: string)
    requires |a| == |b| && forall j :: 0 <= j < |a| ==> a[j].name == b[j].name
    ensures FindPackage(a, p) == FindPackage(b, p)
  {
    var fa := FindPackage(a, p);
    var fb := FindPackage(b, p);
    if fa.Some? {
      assert b[fa.value].name == p;
    }
  }

  /** The registry and nodes after declaration `d`, with home `h`, was registered as a record. */
  predicate RecordRegistered(h: Home, d: nat, nodes0: seq<Node>, nodes: seq<Node>, ps0: seq<PackageInfo>,
                             ps: seq<PackageInfo>, free0: seq<nat>, free: seq<nat>)
    requires d < |nodes0| && nodes0[d].Record?
  {
    match h
    case Nowhere => nodes == nodes0 && ps == ps0 && free == free0
    case Free => nodes == nodes0 && ps == ps0 && free == free0 + [d]
    case InPackage(p, rename) =>
      free == free0 && ps == WithRecord(ps0, p, d) &&
      nodes == (if rename.Some? then nodes0[d := nodes0[d].(recordName := rename)] else nodes0)
  }

  /**
   * Registers record `d` at its home: among the free records or in its
   * package, where a qualified name is shortened to its last part. A name
   * with two dots is an error and changes nothing.
   */
  method RegisterRecord(gc: GlobalContext, d: nat, ctx: PackageContext) returns (res: Result<()>)
    requires gc.Valid() && d < |gc.graph.nodes| && gc.graph.nodes[d].Record?
    modifies gc, gc.graph
    ensures gc.Valid() && gc.graph.roots == old(gc.graph.roots)
    ensures gc.rootNodes == old(gc.rootNodes) && gc.freeFlats == old(gc.freeFlats)
    ensures res.Err? <==> RecordHome(old(gc.graph.nodes[d].recordName), ctx).Err?
    ensures res.Err? ==> (gc.graph.nodes == old(gc.graph.nodes) && gc.packages == old(gc.packages)
      && gc.freeRecords == old(gc.freeRecords))
    ensures res.Ok? ==> RecordRegistered(RecordHome(old(gc.graph.nodes[d].recordName), ctx).value, d,
      old(gc.graph.nodes), gc.graph.nodes, old(gc.packages), gc.packages, old(gc.freeRecords), gc.freeRecords)
  {
    var h := RecordHome(gc.graph.nodes[d].recordName, ctx);
    if h.Err? {
      return Err(h.error);
    }
    res := Ok(());
    match h.value
    case Nowhere =>
    case Free =>
      gc.freeRecords := gc.freeRecords + [d];
    case InPackage(p, rename) =>
      AddRecordTo(gc, p, d);
      if rename.Some? {
        Rename(gc, d, gc.graph.nodes[d].(recordName := rename));
      }
  }

  /** Appends record `d` to the records of package `p`, creating the package when missing. */
  method AddRecordTo(gc: GlobalContext, p: string, d: nat)
    requires gc.Valid() && d < |gc.graph.nodes| && gc.graph.nodes[d].Record?
    modifies gc
    ensures gc.Valid() && gc.packages == WithRecord(old(gc.packages), p, d)
    ensures gc.rootNodes == old(gc.rootNodes) && gc.freeRecords == old(gc.freeRecords) && gc.freeFlats == old(gc.freeFlats)
  {
    var i := gc.GetPackage(p);
    gc.packages := gc.packages[i := gc.packages[i].(records := gc.packages[i].records + [d])];
  }

  /** Appends flat `d` to the flats of package `p`, creating the package when missing. */
  method AddFlatTo(gc: GlobalContext, p: string, d: nat)
    requires gc.Valid() && d < |gc.graph.nodes| && gc.graph.nodes[d].Flat?
    modifies gc
    ensures gc.Valid() && gc.packages == WithFlat(old(gc.packages), p, d)
    ensures gc.rootNodes == old(gc.rootNodes) && gc.freeRecords == old(gc.freeRecords) && gc.freeFlats == old(gc.freeFlats)
  {
    var i := gc.GetPackage(p);
    gc.packages := gc.packages[i := gc.packages[i].(flats := gc.packages[i].flats + [d])];
  }

  /** The registry and nodes after declaration `d`, with home `h`, was registered as a top-level flat. */
  predicate FlatRegistered(h: Home, d: nat, nodes0: seq<Node>, nodes: seq<Node>, ps0: seq<PackageInfo>, ps: seq<PackageInfo>)
    requires d < |nodes0| && nodes0[d].Flat?
  {
    h.InPackage? && ps == WithFlat(ps0, h.package, d) &&
    nodes == (if h.rename.Some? then nodes0[d := nodes0[d].(name := h.rename.value)] else nodes0)
  }

  /**
   * Registers top-level flat `d` in its package, where a qualified name is
   * shortened to its last part. A name with two dots, or an undotted name in
   * a file without a package, is an error and changes nothing.
   */
  method RegisterTopFlat(gc: GlobalContext, d: nat, ctx: PackageContext) returns (res: Result<()>)
    requires gc.Valid() && d < |gc.graph.nodes| && gc.graph.nodes[d].Flat?
    modifies gc, gc.graph
    ensures gc.Valid() && gc.graph.roots == old(gc.graph.roots)
    ensures gc.rootNodes == old(gc.rootNodes) && gc.freeRecords == old(gc.freeRecords) && gc.freeFlats == old(gc.freeFlats)
    ensures res.Err? <==> FlatHome(old(gc.graph.nodes[d].name), ctx).Err?
    ensures res.Err? ==> gc.graph.nodes == old(gc.graph.nodes) && gc.packages == old(gc.packages)
    ensures res.Ok? ==> FlatRegistered(FlatHome(old(gc.graph.nodes[d].name), ctx).value, d,
      old(gc.graph.nodes), gc.graph.nodes, old(gc.packages), gc.packages)
  {
    var h := FlatHome(gc.graph.nodes[d].name, ctx);
    if h.Err? {
      return Err(h.error);
    }
    FlatHomeIsDeclarationPackage(gc.graph.nodes[d].name, ctx);
    AddFlatTo(gc, h.value.package, d);
    if h.value.rename.Some? {
      Rename(gc, d, gc.graph.nodes[d].(name := h.value.rename.value));
    }
    return Ok(());
  }

  /** Rewrites node `d` as `n`, of the same kind and with the same links. */
  method Rename(gc: GlobalContext, d: nat, n: Node)
    requires gc.Valid() && d < |gc.graph.nodes|
    requires KindOf(n) == KindOf(gc.graph.nodes[d]) && Children(n) == Children(gc.graph.nodes[d])
    requires RefOf(n) == RefOf(gc.graph.nodes[d]) && n.parent == gc.graph.nodes[d].parent
    modifies gc.graph
    ensures gc.Valid() && gc.graph.roots == old(gc.graph.roots) && gc.graph.nodes == old(gc.graph.nodes)[d := n]
  {
    var nodes := gc.graph.nodes;
    assert KindsKept(nodes, nodes[d := n]);
    LinksTransfer(nodes, nodes[d := n], |gc.graph.roots|, |gc.graph.roots|, d);
    gc.graph.Put(d, n);
    RegistryTransfer(nodes, gc.graph.nodes, |gc.graph.roots|, |gc.graph.roots|, gc.packages, gc.rootNodes,
                     gc.freeRecords, gc.freeFlats);
  }

  // ---------------------------------------------------------------------------
  // The trees of a file

  /** The texts of the package name nodes that have one, in order. */
  function UsingNames(ss: seq<Syntax>): (r: seq<string>)
    ensures forall u :: u in r <==> exists s :: s in ss && s.value == Some(u)
  {
    if |ss| == 0 then []
    else
      var rest := UsingNames(ss[1..]);
      assert forall s :: s in ss <==> s == ss[0] || s in ss[1..];
      (if ss[0].value.Some? then [ss[0].value.value] else []) + rest
  }

  /**
   * The package context of a file: the package it declares, if any (two
   * declarations are an error), and the named packages of its first using
   * declaration.
   */
  function FileContext(root: Syntax): (r: Result<PackageContext>)
    ensures r.Err? <==> |OfType(root.children, "package")| > 1
    ensures r.Ok? && |OfType(root.children, "package")| == 0 ==> r.value.name.None?
    ensures r.Ok? && |OfType(root.children, "package")| == 1 ==> r.value.name == OfType(root.children, "package")[0].value
    ensures r.Ok? && FirstOfType(root.children, "using-declaration").None? ==> r.value.usings == []
  {
    var packages := OfType(root.children, "package");
    if |packages| > 1 then Err(Fatal)
    else
      var name := if |packages| == 1 then packages[0].value else None;
      var usingNode := FirstOfType(root.children, "using-declaration");
      var usings := if usingNode.None? then [] else UsingNames(OfType(usingNode.value.children, "package-name"));
      Ok(PackageContext(name, usings))
  }

  /** A record of a file as the builder leaves it once registered. */
  function RecordTree(s: Syntax, ctx: PackageContext): (r: Result<Tree>)
    ensures r.Ok? ==> r.value.TRecord? && KindsFit(r.value)
  {
    var t :- AnalyzeRecord(s, ctx, false);
    var h :- RecordHome(t.recordName, ctx);
    Ok(Renamed(t, h))
  }

  /** A top-level flat of a file as the builder leaves it once registered; special tags give none. */
  function TopFlatTree(s: Syntax, ctx: PackageContext): (r: Result<Option<Tree>>)
    ensures r.Ok? && r.value.Some? ==> r.value.value.TFlat? && KindsFit(r.value.value)
  {
    var f :- AnalyzeFlatDefinition(s, ctx);
    if f.None? then Ok(None)
    else
      var h :- FlatHome(f.value.name, ctx);
      Ok(Some(Renamed(f.value, h)))
  }

  /** All the values of `rs` in order, or an error when any of them is one. */
  function Collect<T>(rs: seq<Result<T>>): (r: Result<seq<T>>)
    ensures r.Ok? <==> forall k :: 0 <= k < |rs| ==> rs[k].Ok?
    ensures r.Ok? ==> |r.value| == |rs| && forall k :: 0 <= k < |rs| ==> r.value[k] == rs[k].value
  {
    if |rs| == 0 then Ok([])
    else
      var front := Collect(rs[..|rs| - 1]);
      if front.Err? || rs[|rs| - 1].Err? then Err(Fatal)
      else Ok(front.value + [rs[|rs| - 1].value])
  }

  /** The values present in `os`, in order. */
  function Present<T(!new)>(os: seq<Option<T>>): (r: seq<T>)
    ensures forall x :: x in r <==> Some(x) in os
  {
    if |os| == 0 then []
    else
      var front := Present(os[..|os| - 1]);
      assert forall o :: o in os <==> o in os[..|os| - 1] || o == os[|os| - 1];
      front + (if os[|os| - 1].Some? then [os[|os| - 1].value] else [])
  }

  /** The records of a file, in order, or an error when any of them fails. */
  function RecordTrees(rs: seq<Syntax>, ctx: PackageContext): (r: Result<seq<Tree>>)
    ensures r.Ok? <==> forall k :: 0 <= k < |rs| ==> RecordTree(rs[k], ctx).Ok?
    ensures r.Ok? ==> |r.value| == |rs| && forall k :: 0 <= k < |rs| ==> r.value[k] == RecordTree(rs[k], ctx).value
  {
    var all := seq(|rs|, k requires 0 <= k < |rs| => RecordTree(rs[k], ctx));
    assert forall k :: 0 <= k < |rs| ==> all[k] == RecordTree(rs[k], ctx);
    Collect(all)
  }

  /** The top-level flats of a file, in order and without special tags, or an error when any of them fails. */
  function TopFlatTrees(fs: seq<Syntax>, ctx: PackageContext): (r: Result<seq<Tree>>)
    ensures r.Ok? <==> forall k :: 0 <= k < |fs| ==> TopFlatTree(fs[k], ctx).Ok?
    ensures r.Ok? ==> forall t :: t in r.value ==> t.TFlat? && KindsFit(t)
  {
    var all := seq(|fs|, k requires 0 <= k < |fs| => TopFlatTree(fs[k], ctx));
    assert forall k :: 0 <= k < |fs| ==> all[k] == TopFlatTree(fs[k], ctx);
    var flats :- Collect(all);
    Ok(Present(flats))
  }

  /** The registered trees of a file: its records, then its top-level flats. */
  function FileTrees(root: Syntax, ctx: PackageContext): (r: Result<seq<Tree>>)
    ensures r.Ok? <==> (RecordTrees(OfType(root.children, "record"), ctx).Ok?
      && TopFlatTrees(OfType(root.children, "flat-definition"), ctx).Ok?)
  {
    var records :- RecordTrees(OfType(root.children, "record"), ctx);
    var flats :- TopFlatTrees(OfType(root.children, "flat-definition"), ctx);
    Ok(records + flats)
  }

  /** How one declaration of a file is registered: a record at its home, or a top-level flat in its package. */
  datatype Filing = RecordAt(home: Home) | FlatIn(package: string)

  /** How record `s` is registered, when it analyses. */
  function RecordFiling(s: Syntax, ctx: PackageContext): Filing
    requires RecordTree(s, ctx).Ok?
  {
    RecordAt(RecordHome(AnalyzeRecord(s, ctx, false).value.recordName, ctx).value)
  }

  /** How top-level flat definition `s` is registered, when it analyses; a special tag is not. */
  function TopFlatFiling(s: Syntax, ctx: PackageContext): Option<Filing>
    requires TopFlatTree(s, ctx).Ok?
  {
    var f := AnalyzeFlatDefinition(s, ctx).value;
    if f.None? then None else Some(FlatIn(FlatHome(f.value.name, ctx).value.package))
  }

  /** How the records `rs` are registered, in order. */
  function RecordFilings(rs: seq<Syntax>, ctx: PackageContext): (r: seq<Filing>)
    requires forall k :: 0 <= k < |rs| ==> RecordTree(rs[k], ctx).Ok?
    ensures |r| == |rs|
  {
    if |rs| == 0 then [] else RecordFilings(rs[..|rs| - 1], ctx) + [RecordFiling(rs[|rs| - 1], ctx)]
  }

  /** How the top-level flat definitions `fs` are registered, in order and without special tags. */
  function TopFlatFilings(fs: seq<Syntax>, ctx: PackageContext): (r: seq<Filing>)
    requires forall k :: 0 <= k < |fs| ==> TopFlatTree(fs[k], ctx).Ok?
  {
    if |fs| == 0 then []
    else
      var f := TopFlatFiling(fs[|fs| - 1], ctx);
      TopFlatFilings(fs[..|fs| - 1], ctx) + (if f.Some? then [f.value] else [])
  }

  /** How the declarations of a file are registered: its records, then its top-level flats. */
  function FileFilings(root: Syntax, ctx: PackageContext): seq<Filing>
    requires FileTrees(root, ctx).Ok?
  {
    RecordFilings(OfType(root.children, "record"), ctx) + TopFlatFilings(OfType(root.children, "flat-definition"), ctx)
  }

  /** Renaming a record or flat at `i` renames the tree read at `i` and nothing below. */
  lemma TreeAtRenamed(a: seq<Node>, i: nat, h: Home)
    requires Ordered(a) && i < |a| && !a[i].Value? && h.InPackage? && h.rename.Some?
    ensures var b := a[i := if a[i].Record? then a[i].(recordName := h.rename) else a[i].(name := h.rename.value)];
      Ordered(b) && TreeAt(b, i) == Renamed(TreeAt(a, i), h)
  {
    var b := a[i := if a[i].Record? then a[i].(recordName := h.rename) else a[i].(name := h.rename.value)];
    assert Children(b[i]) == Children(a[i]);
    assert Ordered(b);
    if a[i].Record? {
      var cs := a[i].children;
      assert forall k :: 0 <= k < |cs| ==> cs[k] in Children(a[i]);
      TreesAtUnlinked(a, b, i, cs);
    } else {
      assert a[i].value in Children(a[i]);
      TreeAtUnlinked(a, b, a[i].value);
    }
  }

  // ---------------------------------------------------------------------------
  // Analysing a file

  /** Nodes of `a` are still in `b`, changed at most in their parent links. */
  predicate Kept(a: seq<Node>, b: seq<Node>) {
    |a| <= |b| && forall j :: 0 <= j < |a| ==> Unlinked(a[j]) == Unlinked(b[j])
  }

  /** Trees of kept nodes read back the same. */
  lemma KeptTree(a: seq<Node>, b: seq<Node>, i: nat)
    requires Kept(a, b) && Ordered(a) && Ordered(b) && i < |a|
    ensures TreeAt(a, i) == TreeAt(b, i)
  {
    TreeAtUnlinked(a, b, i);
  }

  /** The registry after record `d` was filed at home `h`. */
  predicate RecordFiled(h: Home, d: nat, ps0: seq<PackageInfo>, ps: seq<PackageInfo>, free0: seq<nat>, free: seq<nat>) {
    match h
    case InPackage(p, _) => ps == WithRecord(ps0, p, d) && free == free0
    case Free => ps == ps0 && free == free0 + [d]
    case Nowhere => ps == ps0 && free == free0
  }

  /** The packages and free records after the declaration allocated at `d` was registered as `f`. */
  function File(reg: (seq<PackageInfo>, seq<nat>), f: Filing, d: nat): (seq<PackageInfo>, seq<nat>) {
    match f
    case RecordAt(InPackage(p, _)) => (WithRecord(reg.0, p, d), reg.1)
    case RecordAt(Free) => (reg.0, reg.1 + [d])
    case RecordAt(Nowhere) => reg
    case FlatIn(p) => (WithFlat(reg.0, p, d), reg.1)
  }

  /** The packages and free records after the declarations allocated at `ds` were registered as `fs`, in order. */
  function FileAll(reg: (seq<PackageInfo>, seq<nat>), fs: seq<Filing>, ds: seq<nat>): (seq<PackageInfo>, seq<nat>)
    requires |fs| == |ds|
  {
    if |fs| == 0 then reg else File(FileAll(reg, fs[..|fs| - 1], ds[..|ds| - 1]), fs[|fs| - 1], ds[|ds| - 1])
  }

  /** Declaration `d`, filed as `f`, can be found where `f` puts it in registry `reg`. */
  predicate Found(reg: (seq<PackageInfo>, seq<nat>), f: Filing, d: nat) {
    match f
    case RecordAt(InPackage(p, _)) => FindPackage(reg.0, p).Some? && d in reg.0[FindPackage(reg.0, p).value].records
    case RecordAt(Free) => d in reg.1
    case RecordAt(Nowhere) => true
    case FlatIn(p) => FindPackage(reg.0, p).Some? && d in reg.0[FindPackage(reg.0, p).value].flats
  }

  /** Appending packages does not move a package that is already there. */
  lemma FindPackagePrefix(a: seq<PackageInfo>, b: seq<PackageInfo>, q: string)
    requires |a| <= |b| && b[..|a|] == a && FindPackage(a, q).Some?
    ensures FindPackage(b, q) == FindPackage(a, q)
  {
    var i := FindPackage(a, q).value;
    assert b[i] == a[i];
  }

  /** Registering a record or flat in package `p` keeps what package `q` held. */
  lemma WithKeeps(ps: seq<PackageInfo>, p: string, d: nat, q: string)
    requires FindPackage(ps, q).Some?
    ensures FindPackage(WithRecord(ps, p, d), q) == FindPackage(ps, q)
    ensures FindPackage(WithFlat(ps, p, d), q) == FindPackage(ps, q)
    ensures var i := FindPackage(ps, q).value;
      multiset(ps[i].records) <= multiset(WithRecord(ps, p, d)[i].records) &&
      multiset(ps[i].flats) <= multiset(WithFlat(ps, p, d)[i].flats)
  {
    var ws := WithPackage(ps, p);
    FindPackagePrefix(ps, ws, q);
    var n := FindPackage(ws, p).value;
    FindPackageByNames(ws, ws[n := ws[n].(records := ws[n].records + [d])], q);
    FindPackageByNames(ws, ws[n := ws[n].(flats := ws[n].flats + [d])], q);
    var i := FindPackage(ps, q).value;
    assert ws[i] == ps[i];
  }

  /** Registering one more declaration keeps package `q` where it was, with at least what it held. */
  lemma FilePackageKept(reg: (seq<PackageInfo>, seq<nat>), f: Filing, d: nat, q: string)
    requires FindPackage(reg.0, q).Some?
    ensures var ps := File(reg, f, d).0; var i := FindPackage(reg.0, q).value;
      FindPackage(ps, q) == Some(i) &&
      multiset(reg.0[i].records) <= multiset(ps[i].records) && multiset(reg.0[i].flats) <= multiset(ps[i].flats)
  {
    if f.RecordAt? && f.home.InPackage? {
      WithKeeps(reg.0, f.home.package, d, q);
    } else if f.FlatIn? {
      WithKeeps(reg.0, f.package, d, q);
    }
  }

  /** Registering one more declaration keeps every declaration found before it. */
  lemma FileKeeps(reg: (seq<PackageInfo>, seq<nat>), f: Filing, d: nat, g: Filing, e: nat)
    requires Found(reg, g, e)
    ensures Found(File(reg, f, d), g, e)
  {
    match g
    case RecordAt(InPackage(q, _)) =>
      FilePackageKept(reg, f, d, q);
      assert e in multiset(reg.0[FindPackage(reg.0, q).value].records);
    case RecordAt(Free) =>
    case RecordAt(Nowhere) =>
    case FlatIn(q) =>
      FilePackageKept(reg, f, d, q);
      assert e in multiset(reg.0[FindPackage(reg.0, q).value].flats);
  }

  /**
   * After a file's declarations were registered, each of them is found in the
   * package it was filed under, or among the free records.
   */
  lemma {:induction false} FiledFound(reg: (seq<PackageInfo>, seq<nat>), fs: seq<Filing>, ds: seq<nat>, m: nat)
    requires |fs| == |ds| && m < |fs|
    ensures Found(FileAll(reg, fs, ds), fs[m], ds[m])
  {
    var n := |fs| - 1;
    if m < n {
      FiledFound(reg, fs[..n], ds[..n], m);
      FileKeeps(FileAll(reg, fs[..n], ds[..n]), fs[n], ds[n], fs[m], ds[m]);
    }
  }

  /** Registering one declaration more registers it after the others. */
  lemma FileAllStep(reg: (seq<PackageInfo>, seq<nat>), fs: seq<Filing>, ds: seq<nat>, f: Filing, d: nat)
    requires |fs| == |ds|
    ensures FileAll(reg, fs + [f], ds + [d]) == File(FileAll(reg, fs, ds), f, d)
  {
    assert (fs + [f])[..|fs|] == fs && (ds + [d])[..|ds|] == ds;
  }

  /** One record more: its tree follows the trees of the records before it, and it is registered after them. */
  lemma RecordsStep(rs: seq<Syntax>, ctx: PackageContext, j: nat, reg: (seq<PackageInfo>, seq<nat>), ds: seq<nat>, d: nat)
    requires j < |rs| && RecordTrees(rs[..j], ctx).Ok? && RecordTree(rs[j], ctx).Ok? && |ds| == j
    ensures RecordTrees(rs[..j + 1], ctx) == Ok(RecordTrees(rs[..j], ctx).value + [RecordTree(rs[j], ctx).value])
    ensures FileAll(reg, RecordFilings(rs[..j + 1], ctx), ds + [d])
         == File(FileAll(reg, RecordFilings(rs[..j], ctx), ds), RecordFiling(rs[j], ctx), d)
  {
    RecordTreesStep(rs, ctx, j);
    assert rs[..j + 1][..j] == rs[..j];
    FileAllStep(reg, RecordFilings(rs[..j], ctx), ds, RecordFiling(rs[j], ctx), d);
  }

  lemma RecordTreesStep(rs: seq<Syntax>, ctx: PackageContext, j: nat)
    requires j < |rs| && RecordTrees(rs[..j], ctx).Ok? && RecordTree(rs[j], ctx).Ok?
    ensures RecordTrees(rs[..j + 1], ctx) == Ok(RecordTrees(rs[..j], ctx).value + [RecordTree(rs[j], ctx).value])
  {
    var front := RecordTrees(rs[..j], ctx).value;
    var t := RecordTree(rs[j], ctx).value;
    var pre := rs[..j + 1];
    forall m | 0 <= m < j + 1
      ensures RecordTree(pre[m], ctx).Ok?
    {
      if m < j {
        assert pre[m] == rs[..j][m];
      }
    }
    var all := RecordTrees(rs[..j + 1], ctx).value;
    forall m | 0 <= m < j + 1
      ensures all[m] == (front + [t])[m]
    {
      if m < j {
        assert rs[..j + 1][m] == rs[..j][m];
      }
    }
    assert all == front + [t];
  }

  /** One top-level flat definition more is registered after those before it, unless it is a special tag. */
  lemma TopFlatFiledNext(reg: (seq<PackageInfo>, seq<nat>), filed: seq<Filing>, fs: seq<Syntax>, ctx: PackageContext, j: nat,
                         ds: seq<nat>, ds': seq<nat>)
    requires j < |fs| && TopFlatTrees(fs[..j], ctx).Ok? && TopFlatTree(fs[j], ctx).Ok?
    requires |filed + TopFlatFilings(fs[..j], ctx)| == |ds|
    requires TopFlatFiling(fs[j], ctx).None? ==> ds' == ds
    requires TopFlatFiling(fs[j], ctx).Some? ==> |ds'| > 0 && ds' == ds + [ds'[|ds'| - 1]]
    ensures TopFlatTrees(fs[..j + 1], ctx).Ok?
    ensures |filed + TopFlatFilings(fs[..j + 1], ctx)| == |ds'|
    ensures FileAll(reg, filed + TopFlatFilings(fs[..j + 1], ctx), ds') ==
      var before := FileAll(reg, filed + TopFlatFilings(fs[..j], ctx), ds);
      if TopFlatFiling(fs[j], ctx).Some? then File(before, TopFlatFiling(fs[j], ctx).value, ds'[|ds'| - 1]) else before
  {
    var pre := fs[..j + 1];
    forall m | 0 <= m < j + 1
      ensures TopFlatTree(pre[m], ctx).Ok?
    {
      if m < j {
        assert pre[m] == fs[..j][m];
      }
    }
    assert pre[..j] == fs[..j];
    var f := TopFlatFiling(fs[j], ctx);
    if f.Some? {
      assert filed + (TopFlatFilings(fs[..j], ctx) + [f.value]) == filed + TopFlatFilings(fs[..j], ctx) + [f.value];
      FileAllStep(reg, filed + TopFlatFilings(fs[..j], ctx), ds, f.value, ds'[|ds'| - 1]);
    } else {
      assert TopFlatFilings(pre, ctx) == TopFlatFilings(fs[..j], ctx) + [];
      assert TopFlatFilings(fs[..j], ctx) + [] == TopFlatFilings(fs[..j], ctx);
    }
  }


  /** When record `rs[j]` fails, so do the records `rs`. */
  lemma RecordTreesFail(rs: seq<Syntax>, ctx: PackageContext, j: nat)
    requires j < |rs| && RecordTree(rs[j], ctx).Err?
    ensures RecordTrees(rs, ctx).Err?
  {
  }

  /**
   * Allocates record tree `t` and registers it. Nodes allocated before keep
   * all but their parent links.
   */
  method BuildRecord(gc: GlobalContext, t: Tree, ctx: PackageContext) returns (res: Result<nat>)
    requires gc.Valid() && t.TRecord? && KindsFit(t)
    modifies gc, gc.graph
    ensures gc.Valid() && Ordered(gc.graph.nodes) && Kept(old(gc.graph.nodes), gc.graph.nodes)
    ensures gc.graph.roots == old(gc.graph.roots) && gc.rootNodes == old(gc.rootNodes) && gc.freeFlats == old(gc.freeFlats)
    ensures res.Ok? <==> RecordHome(t.recordName, ctx).Ok?
    ensures res.Err? ==> gc.packages == old(gc.packages) && gc.freeRecords == old(gc.freeRecords)
    ensures res.Ok? ==> (
      res.value < |gc.graph.nodes| && gc.graph.nodes[res.value].parent.None? &&
      TreeAt(gc.graph.nodes, res.value) == Renamed(t, RecordHome(t.recordName, ctx).value) &&
      RecordFiled(RecordHome(t.recordName, ctx).value, res.value, old(gc.packages), gc.packages,
                  old(gc.freeRecords), gc.freeRecords))
  {
    var n0 := gc.graph.nodes;
    var i := Materialize(gc.graph, t);
    RegistryTransfer(n0, gc.graph.nodes, |gc.graph.roots|, |gc.graph.roots|, gc.packages, gc.rootNodes,
                     gc.freeRecords, gc.freeFlats);
    var mid := gc.graph.nodes;
    assert Kept(n0, mid);
    var reg := RegisterRecord(gc, i, ctx);
    if reg.Err? {
      return Err(reg.error);
    }
    var h := RecordHome(t.recordName, ctx).value;
    if h.InPackage? && h.rename.Some? {
      TreeAtRenamed(mid, i, h);
    }
    res := Ok(i);
  }

  /** Allocates top-level flat tree `t` and registers it. Nodes allocated before keep all but their parent links. */
  method BuildTopFlat(gc: GlobalContext, t: Tree, ctx: PackageContext) returns (res: Result<nat>)
    requires gc.Valid() && t.TFlat? && KindsFit(t)
    modifies gc, gc.graph
    ensures gc.Valid() && Ordered(gc.graph.nodes) && Kept(old(gc.graph.nodes), gc.graph.nodes)
    ensures gc.graph.roots == old(gc.graph.roots) && gc.rootNodes == old(gc.rootNodes)
    ensures gc.freeRecords == old(gc.freeRecords) && gc.freeFlats == old(gc.freeFlats)
    ensures res.Ok? <==> FlatHome(t.name, ctx).Ok?
    ensures res.Err? ==> gc.packages == old(gc.packages)
    ensures res.Ok? ==> (
      res.value < |gc.graph.nodes| && gc.graph.nodes[res.value].parent.None? &&
      TreeAt(gc.graph.nodes, res.value) == Renamed(t, FlatHome(t.name, ctx).value) &&
      gc.packages == WithFlat(old(gc.packages), FlatHome(t.name, ctx).value.package, res.value))
  {
    var n0 := gc.graph.nodes;
    var i := Materialize(gc.graph, t);
    RegistryTransfer(n0, gc.graph.nodes, |gc.graph.roots|, |gc.graph.roots|, gc.packages, gc.rootNodes,
                     gc.freeRecords, gc.freeFlats);
    var mid := gc.graph.nodes;
    assert Kept(n0, mid);
    var reg := RegisterTopFlat(gc, i, ctx);
    if reg.Err? {
      return Err(reg.error);
    }
    var h := FlatHome(t.name, ctx).value;
    if h.rename.Some? {
      TreeAtRenamed(mid, i, h);
    }
    res := Ok(i);
  }

  /** Appends node `i` to the children of file root `k`; nodes keep all but `i`'s parent link. */
  method Attach(gc: GlobalContext, k: nat, i: nat)
    requires gc.Valid() && k < |gc.graph.roots| && i < |gc.graph.nodes| && !gc.graph.nodes[i].Value?
    modifies gc.graph
    ensures gc.Valid() && Ordered(gc.graph.nodes) && Kept(old(gc.graph.nodes), gc.graph.nodes)
    ensures |gc.graph.nodes| == |old(gc.graph.nodes)|
    ensures gc.graph.roots == old(gc.graph.roots)[k := Root(old(gc.graph.roots[k].ctx), old(gc.graph.roots[k].children) + [i])]
  {
    var before := gc.graph.nodes;
    gc.graph.AddRootChild(k, i);
    RegistryTransfer(before, gc.graph.nodes, |gc.graph.roots|, |gc.graph.roots|, gc.packages, gc.rootNodes,
                     gc.freeRecords, gc.freeFlats);
    WellFormedOrdered(gc.graph.nodes, gc.graph.roots);
  }

  lemma KeptTrans(a: seq<Node>, b: seq<Node>, c: seq<Node>)
    requires Kept(a, b) && Kept(b, c)
    ensures Kept(a, c)
  {
  }

  /** The flats of one more flat definition are those of the ones before, then its own. */
  lemma TopFlatTreesStep(fs: seq<Syntax>, ctx: PackageContext, j: nat, trees: seq<Tree>)
    requires j < |fs| && TopFlatTrees(fs[..j], ctx).Ok? && TopFlatTree(fs[j], ctx).Ok?
    ensures var f := TopFlatTree(fs[j], ctx).value;
      TopFlatTrees(fs[..j + 1], ctx) == Ok(TopFlatTrees(fs[..j], ctx).value + (if f.Some? then [f.value] else []))
    ensures var f := TopFlatTree(fs[j], ctx).value;
      trees + TopFlatTrees(fs[..j + 1], ctx).value == trees + TopFlatTrees(fs[..j], ctx).value + (if f.Some? then [f.value] else [])
  {
    var a := seq(j, k requires 0 <= k < j => TopFlatTree(fs[..j][k], ctx));
    var b := seq(j + 1, k requires 0 <= k < j + 1 => TopFlatTree(fs[..j + 1][k], ctx));
    assert b[..j] == a;
    assert b[j] == TopFlatTree(fs[j], ctx);
    var ca := Collect(a).value;
    var cb := Collect(b).value;
    assert cb == ca + [b[j].value];
    assert cb[..j] == ca;
  }

  /** Whether a root is registered under file name `filename`. */
  predicate HasFile(rootNodes: seq<(string, nat)>, filename: string) {
    exists j :: 0 <= j < |rootNodes| && rootNodes[j].0 == filename
  }

  /** The children of file root `r` read back, in order, as `trees`. */
  predicate Holds(nodes: seq<Node>, r: Root, trees: seq<Tree>) {
    Ordered(nodes) && |r.children| == |trees| &&
    forall m :: 0 <= m < |trees| ==> r.children[m] < |nodes| && TreeAt(nodes, r.children[m]) == trees[m]
  }

  /** Kept nodes hold the same trees. */
  lemma HoldsKept(a: seq<Node>, b: seq<Node>, r: Root, trees: seq<Tree>)
    requires Holds(a, r, trees) && Kept(a, b) && Ordered(b)
    ensures Holds(b, r, trees)
  {
    forall m | 0 <= m < |trees|
      ensures TreeAt(b, r.children[m]) == trees[m]
    {
      KeptTree(a, b, r.children[m]);
    }
  }

  /** After `i` is attached to root `r`, the root holds one tree more. */
  lemma Attached(a: seq<Node>, b: seq<Node>, r: Root, trees: seq<Tree>, i: nat)
    requires Holds(a, r, trees) && Kept(a, b) && Ordered(b) && i < |a|
    ensures Holds(b, Root(r.ctx, r.children + [i]), trees + [TreeAt(a, i)])
  {
    HoldsKept(a, b, r, trees);
    KeptTree(a, b, i);
  }

  /** Roots other than the `k`-th are as they were, and the `k`-th keeps its package context. */
  predicate RootsKept(a: seq<Root>, b: seq<Root>, k: nat) {
    |b| == |a| && k < |a| && b[k].ctx == a[k].ctx && forall j :: 0 <= j < |a| && j != k ==> b[j] == a[j]
  }

  /** Builds and registers record `s` and attaches it to file root `k`, which holds `trees` so far. */
  method AddRecord(gc: GlobalContext, k: nat, s: Syntax, ctx: PackageContext, ghost trees: seq<Tree>) returns (res: Result<()>)
    requires gc.Valid() && k < |gc.graph.roots| && Holds(gc.graph.nodes, gc.graph.roots[k], trees)
    modifies gc, gc.graph
    ensures gc.Valid() && Ordered(gc.graph.nodes) && Kept(old(gc.graph.nodes), gc.graph.nodes)
    ensures RootsKept(old(gc.graph.roots), gc.graph.roots, k) && gc.rootNodes == old(gc.rootNodes)
    ensures res.Ok? <==> RecordTree(s, ctx).Ok?
    ensures res.Ok? ==> Holds(gc.graph.nodes, gc.graph.roots[k], trees + [RecordTree(s, ctx).value])
    ensures gc.freeFlats == old(gc.freeFlats)
    ensures res.Ok? ==> var c := gc.graph.roots[k].children;
      |c| > 0 && c == old(gc.graph.roots[k].children) + [c[|c| - 1]] &&
      (gc.packages, gc.freeRecords) == File((old(gc.packages), old(gc.freeRecords)), RecordFiling(s, ctx), c[|c| - 1])
  {
    var t :- AnalyzeRecord(s, ctx, false);
    var before := gc.graph.nodes;
    var i :- BuildRecord(gc, t, ctx);
    var mid := gc.graph.nodes;
    var r := gc.graph.roots[k];
    HoldsKept(before, mid, r, trees);
    Attach(gc, k, i);
    Attached(mid, gc.graph.nodes, r, trees, i);
    KeptTrans(before, mid, gc.graph.nodes);
    return Ok(());
  }

  /**
   * Builds, registers and attaches to file root `k` the records `rs`, in
   * order, stopping at the first that fails.
   */
  method AnalyzeRecords(gc: GlobalContext, k: nat, rs: seq<Syntax>, ctx: PackageContext) returns (res: Result<()>)
    requires gc.Valid() && k < |gc.graph.roots| && Holds(gc.graph.nodes, gc.graph.roots[k], [])
    modifies gc, gc.graph
    ensures gc.Valid() && Ordered(gc.graph.nodes) && Kept(old(gc.graph.nodes), gc.graph.nodes)
    ensures RootsKept(old(gc.graph.roots), gc.graph.roots, k) && gc.rootNodes == old(gc.rootNodes)
    ensures res.Ok? <==> RecordTrees(rs, ctx).Ok?
    ensures res.Ok? ==> Holds(gc.graph.nodes, gc.graph.roots[k], RecordTrees(rs, ctx).value)
    ensures gc.freeFlats == old(gc.freeFlats)
    ensures res.Ok? ==> |gc.graph.roots[k].children| == |rs|
    ensures res.Ok? ==>
      (gc.packages, gc.freeRecords) == FileAll((old(gc.packages), old(gc.freeRecords)), RecordFilings(rs, ctx), gc.graph.roots[k].children)
  {
    ghost var n0 := gc.graph.nodes;
    ghost var reg0 := (gc.packages, gc.freeRecords);
    ghost var trees: seq<Tree> := [];
    for j := 0 to |rs|
      invariant gc.Valid() && Ordered(gc.graph.nodes) && Kept(n0, gc.graph.nodes)
      invariant RootsKept(old(gc.graph.roots), gc.graph.roots, k) && gc.rootNodes == old(gc.rootNodes)
      invariant RecordTrees(rs[..j], ctx) == Ok(trees)
      invariant Holds(gc.graph.nodes, gc.graph.roots[k], trees)
      invariant gc.freeFlats == old(gc.freeFlats)
      invariant (gc.packages, gc.freeRecords) == FileAll(reg0, RecordFilings(rs[..j], ctx), gc.graph.roots[k].children)
    {
      var before := gc.graph.nodes;
      ghost var c := gc.graph.roots[k].children;
      var r := AddRecord(gc, k, rs[j], ctx, trees);
      if r.Err? {
        RecordTreesFail(rs, ctx, j);
        return Err(r.error);
      }
      KeptTrans(n0, before, gc.graph.nodes);
      RecordsStep(rs, ctx, j, reg0, c, gc.graph.roots[k].children[|c|]);
      trees := trees + [RecordTree(rs[j], ctx).value];
    }
    assert rs[..|rs|] == rs;
    return Ok(());
  }

  /** Builds top-level flat `s`, attaches it to file root `k`, which holds `trees` so far, and registers it. */
  method AddTopFlat(gc: GlobalContext, k: nat, s: Syntax, ctx: PackageContext, ghost trees: seq<Tree>) returns (res: Result<()>)
    requires gc.Valid() && k < |gc.graph.roots| && Holds(gc.graph.nodes, gc.graph.roots[k], trees)
    modifies gc, gc.graph
    ensures gc.Valid() && Ordered(gc.graph.nodes) && Kept(old(gc.graph.nodes), gc.graph.nodes)
    ensures RootsKept(old(gc.graph.roots), gc.graph.roots, k) && gc.rootNodes == old(gc.rootNodes)
    ensures res.Ok? <==> TopFlatTree(s, ctx).Ok?
    ensures res.Ok? ==> var f := TopFlatTree(s, ctx).value;
      Holds(gc.graph.nodes, gc.graph.roots[k], trees + (if f.Some? then [f.value] else []))
    ensures gc.freeFlats == old(gc.freeFlats)
    ensures res.Ok? && TopFlatFiling(s, ctx).None? ==>
      gc.graph.roots[k].children == old(gc.graph.roots[k].children) &&
      gc.packages == old(gc.packages) && gc.freeRecords == old(gc.freeRecords)
    ensures res.Ok? && TopFlatFiling(s, ctx).Some? ==> var c := gc.graph.roots[k].children;
      |c| > 0 && c == old(gc.graph.roots[k].children) + [c[|c| - 1]] &&
      (gc.packages, gc.freeRecords) == File((old(gc.packages), old(gc.freeRecords)), TopFlatFiling(s, ctx).value, c[|c| - 1])
  {
    var f :- AnalyzeFlatDefinition(s, ctx);
    if f.None? {
      return Ok(());
    }
    res := PlaceTopFlat(gc, k, f.value, ctx, trees);
  }

  /** Builds analysed top-level flat `t`, attaches it to file root `k`, which holds `trees` so far, and registers it. */
  method PlaceTopFlat(gc: GlobalContext, k: nat, t: Tree, ctx: PackageContext, ghost trees: seq<Tree>) returns (res: Result<()>)
    requires gc.Valid() && k < |gc.graph.roots| && Holds(gc.graph.nodes, gc.graph.roots[k], trees)
    requires t.TFlat? && KindsFit(t)
    modifies gc, gc.graph
    ensures gc.Valid() && Ordered(gc.graph.nodes) && Kept(old(gc.graph.nodes), gc.graph.nodes)
    ensures RootsKept(old(gc.graph.roots), gc.graph.roots, k) && gc.rootNodes == old(gc.rootNodes)
    ensures res.Ok? <==> FlatHome(t.name, ctx).Ok?
    ensures res.Ok? ==> Holds(gc.graph.nodes, gc.graph.roots[k], trees + [Renamed(t, FlatHome(t.name, ctx).value)])
    ensures gc.freeFlats == old(gc.freeFlats)
    ensures res.Ok? ==> var c := gc.graph.roots[k].children;
      |c| > 0 && c == old(gc.graph.roots[k].children) + [c[|c| - 1]] &&
      (gc.packages, gc.freeRecords)
        == File((old(gc.packages), old(gc.freeRecords)), FlatIn(FlatHome(t.name, ctx).value.package), c[|c| - 1])
  {
    var before := gc.graph.nodes;
    var i :- BuildTopFlat(gc, t, ctx);
    var mid := gc.graph.nodes;
    var r := gc.graph.roots[k];
    HoldsKept(before, mid, r, trees);
    Attach(gc, k, i);
    Attached(mid, gc.graph.nodes, r, trees, i);
    KeptTrans(before, mid, gc.graph.nodes);
    return Ok(());
  }

  /**
   * After the top-level flats `fs` were placed: they analyse, root `r` holds
   * `trees` then theirs, and the registry `reg` is `reg0` with the declarations
   * filed as `filed`, then theirs.
   */
  ghost predicate TopFlatsPlaced(nodes: seq<Node>, r: Root, reg: (seq<PackageInfo>, seq<nat>), fs: seq<Syntax>,
                                 ctx: PackageContext, trees: seq<Tree>, reg0: (seq<PackageInfo>, seq<nat>), filed: seq<Filing>)
  {
    TopFlatTrees(fs, ctx).Ok? && Holds(nodes, r, trees + TopFlatTrees(fs, ctx).value)
    && |filed + TopFlatFilings(fs, ctx)| == |r.children|
    && reg == FileAll(reg0, filed + TopFlatFilings(fs, ctx), r.children)
  }

  /**
   * Builds, attaches to file root `k` and registers the top-level flats `fs`,
   * in order, skipping special tags and stopping at the first that fails.
   */
  method AnalyzeTopFlats(gc: GlobalContext, k: nat, fs: seq<Syntax>, ctx: PackageContext, ghost trees: seq<Tree>,
                         ghost reg0: (seq<PackageInfo>, seq<nat>), ghost filed: seq<Filing>)
    returns (res: Result<()>)
    requires gc.Valid() && k < |gc.graph.roots| && Holds(gc.graph.nodes, gc.graph.roots[k], trees)
    requires |filed| == |gc.graph.roots[k].children|
    requires (gc.packages, gc.freeRecords) == FileAll(reg0, filed, gc.graph.roots[k].children)
    modifies gc, gc.graph
    ensures gc.Valid() && Ordered(gc.graph.nodes) && Kept(old(gc.graph.nodes), gc.graph.nodes)
    ensures RootsKept(old(gc.graph.roots), gc.graph.roots, k) && gc.rootNodes == old(gc.rootNodes)
    ensures res.Ok? <==> TopFlatTrees(fs, ctx).Ok?
    ensures res.Ok? ==> Holds(gc.graph.nodes, gc.graph.roots[k], trees + TopFlatTrees(fs, ctx).value)
    ensures gc.freeFlats == old(gc.freeFlats)
    ensures res.Ok? ==> |filed + TopFlatFilings(fs, ctx)| == |gc.graph.roots[k].children|
    ensures res.Ok? ==>
      (gc.packages, gc.freeRecords) == FileAll(reg0, filed + TopFlatFilings(fs, ctx), gc.graph.roots[k].children)
  {
    ghost var n0 := gc.graph.nodes;
    assert TopFlatFilings(fs[..0], ctx) == [];
    assert filed + [] == filed;
    for j := 0 to |fs|
      invariant gc.Valid() && Ordered(gc.graph.nodes) && Kept(n0, gc.graph.nodes)
      invariant RootsKept(old(gc.graph.roots), gc.graph.roots, k) && gc.rootNodes == old(gc.rootNodes)
      invariant gc.freeFlats == old(gc.freeFlats)
      invariant TopFlatsPlaced(gc.graph.nodes, gc.graph.roots[k], (gc.packages, gc.freeRecords), fs[..j], ctx, trees, reg0, filed)
    {
      var before := gc.graph.nodes;
      var r := AddNextTopFlat(gc, k, fs, ctx, j, trees, reg0, filed);
      if r.Err? {
        return Err(r.error);
      }
      KeptTrans(n0, before, gc.graph.nodes);
    }
    assert fs[..|fs|] == fs;
    return Ok(());
  }

  /** Adds top-level flat definition `fs[j]` after those before it, keeping the trees read back and the registry filed. */
  method AddNextTopFlat(gc: GlobalContext, k: nat, fs: seq<Syntax>, ctx: PackageContext, j: nat, ghost trees: seq<Tree>,
                        ghost reg0: (seq<PackageInfo>, seq<nat>), ghost filed: seq<Filing>)
    returns (res: Result<()>)
    requires gc.Valid() && k < |gc.graph.roots| && j < |fs| && TopFlatTrees(fs[..j], ctx).Ok?
    requires Holds(gc.graph.nodes, gc.graph.roots[k], trees + TopFlatTrees(fs[..j], ctx).value)
    requires |filed + TopFlatFilings(fs[..j], ctx)| == |gc.graph.roots[k].children|
    requires (gc.packages, gc.freeRecords) == FileAll(reg0, filed + TopFlatFilings(fs[..j], ctx), gc.graph.roots[k].children)
    modifies gc, gc.graph
    ensures gc.Valid() && Ordered(gc.graph.nodes) && Kept(old(gc.graph.nodes), gc.graph.nodes)
    ensures RootsKept(old(gc.graph.roots), gc.graph.roots, k) && gc.rootNodes == old(gc.rootNodes)
    ensures gc.freeFlats == old(gc.freeFlats)
    ensures res.Ok? <==> TopFlatTree(fs[j], ctx).Ok?
    ensures res.Ok? ==> TopFlatTrees(fs[..j + 1], ctx).Ok?
    ensures res.Ok? ==> Holds(gc.graph.nodes, gc.graph.roots[k], trees + TopFlatTrees(fs[..j + 1], ctx).value)
    ensures res.Ok? ==> |filed + TopFlatFilings(fs[..j + 1], ctx)| == |gc.graph.roots[k].children|
    ensures res.Ok? ==>
      (gc.packages, gc.freeRecords) == FileAll(reg0, filed + TopFlatFilings(fs[..j + 1], ctx), gc.graph.roots[k].children)
  {
    ghost var sofar := trees + TopFlatTrees(fs[..j], ctx).value;
    ghost var c := gc.graph.roots[k].children;
    res := AddTopFlat(gc, k, fs[j], ctx, sofar);
    if res.Err? {
      return;
    }
    TopFlatTreesStep(fs, ctx, j, trees);
    TopFlatFiledNext(reg0, filed, fs, ctx, j, c, gc.graph.roots[k].children);
  }

  /** Registers root `k` under `filename`; a file name registered before is an error. */
  method AddFile(gc: GlobalContext, filename: string, k: nat) returns (res: Result<()>)
    requires gc.Valid() && k < |gc.graph.roots|
    modifies gc
    ensures gc.Valid()
    ensures gc.packages == old(gc.packages) && gc.freeRecords == old(gc.freeRecords) && gc.freeFlats == old(gc.freeFlats)
    ensures res.Ok? <==> !HasFile(old(gc.rootNodes), filename)
    ensures gc.rootNodes == if res.Ok? then old(gc.rootNodes) + [(filename, k)] else old(gc.rootNodes)
  {
    for j := 0 to |gc.rootNodes|
      invariant forall m :: 0 <= m < j ==> gc.rootNodes[m].0 != filename
    {
      if gc.rootNodes[j].0 == filename {
        return Err(Fatal);
      }
    }
    gc.rootNodes := gc.rootNodes + [(filename, k)];
    return Ok(());
  }

  /** Appends an empty file root with context `ctx`. */
  method NewFileRoot(gc: GlobalContext, ctx: PackageContext) returns (k: nat)
    requires gc.Valid()
    modifies gc.graph
    ensures gc.Valid() && Ordered(gc.graph.nodes) && gc.graph.nodes == old(gc.graph.nodes)
    ensures k == |old(gc.graph.roots)| && gc.graph.roots == old(gc.graph.roots) + [Root(ctx, [])]
    ensures Holds(gc.graph.nodes, gc.graph.roots[k], [])
  {
    var before := gc.graph.nodes;
    k := gc.graph.AddRoot(ctx);
    RegistryTransfer(before, gc.graph.nodes, k, |gc.graph.roots|, gc.packages, gc.rootNodes,
                     gc.freeRecords, gc.freeFlats);
    WellFormedOrdered(gc.graph.nodes, gc.graph.roots);
  }

  /** Builds, attaches to file root `k` and registers the records and then the top-level flats of `root`. */
  method AnalyzeContents(gc: GlobalContext, k: nat, root: Syntax, ctx: PackageContext) returns (res: Result<()>)
    requires gc.Valid() && k < |gc.graph.roots| && Holds(gc.graph.nodes, gc.graph.roots[k], [])
    modifies gc, gc.graph
    ensures gc.Valid() && Ordered(gc.graph.nodes) && Kept(old(gc.graph.nodes), gc.graph.nodes)
    ensures RootsKept(old(gc.graph.roots), gc.graph.roots, k) && gc.rootNodes == old(gc.rootNodes)
    ensures res.Ok? <==> FileTrees(root, ctx).Ok?
    ensures res.Ok? ==> Holds(gc.graph.nodes, gc.graph.roots[k], FileTrees(root, ctx).value)
    ensures gc.freeFlats == old(gc.freeFlats)
    ensures res.Ok? ==> |FileFilings(root, ctx)| == |gc.graph.roots[k].children|
    ensures res.Ok? ==>
      (gc.packages, gc.freeRecords) == FileAll((old(gc.packages), old(gc.freeRecords)), FileFilings(root, ctx), gc.graph.roots[k].children)
  {
    ghost var reg0 := (gc.packages, gc.freeRecords);
    var r :- AnalyzeRecords(gc, k, OfType(root.children, "record"), ctx);
    ghost var n1 := gc.graph.nodes;
    ghost var records := RecordTrees(OfType(root.children, "record"), ctx).value;
    ghost var filed := RecordFilings(OfType(root.children, "record"), ctx);
    r :- AnalyzeTopFlats(gc, k, OfType(root.children, "flat-definition"), ctx, records, reg0, filed);
    KeptTrans(old(gc.graph.nodes), n1, gc.graph.nodes);
    return Ok(());
  }

  /**
   * Analyses the parsed file `root` called `filename`: allocates a new file
   * root with the file's package context, builds, attaches and registers its
   * records and then its top-level flats, and registers the root under the
   * file name. Nodes allocated before keep all but their parent links and
   * the roots before are untouched.
   */
  method Analyze(gc: GlobalContext, root: Syntax, filename: string) returns (res: Result<nat>)
    requires gc.Valid()
    modifies gc, gc.graph
    ensures gc.Valid() && Ordered(gc.graph.nodes) && Kept(old(gc.graph.nodes), gc.graph.nodes)
    ensures |gc.graph.roots| >= |old(gc.graph.roots)| && gc.graph.roots[..|old(gc.graph.roots)|] == old(gc.graph.roots)
    ensures res.Ok? <==> (FileContext(root).Ok? && FileTrees(root, FileContext(root).value).Ok?
                          && !HasFile(old(gc.rootNodes), filename))
    ensures res.Err? ==> gc.rootNodes == old(gc.rootNodes)
    ensures res.Ok? ==> (
      var ctx := FileContext(root).value;
      res.value == |old(gc.graph.roots)| && |gc.graph.roots| == res.value + 1 &&
      gc.graph.roots[res.value].ctx == ctx &&
      Holds(gc.graph.nodes, gc.graph.roots[res.value], FileTrees(root, ctx).value) &&
      gc.rootNodes == old(gc.rootNodes) + [(filename, res.value)])
    ensures gc.freeFlats == old(gc.freeFlats)
    ensures res.Ok? ==> (
      var ctx := FileContext(root).value;
      |FileFilings(root, ctx)| == |gc.graph.roots[res.value].children| &&
      (gc.packages, gc.freeRecords) ==
        FileAll((old(gc.packages), old(gc.freeRecords)), FileFilings(root, ctx), gc.graph.roots[res.value].children))
  {
    WellFormedOrdered(gc.graph.nodes, gc.graph.roots);
    var ctx :- FileContext(root);
    var k := NewFileRoot(gc, ctx);
    ghost var r0 := gc.graph.roots;
    var r :- AnalyzeContents(gc, k, root, ctx);
    assert gc.graph.roots[..k] == r0[..k];
    r :- AddFile(gc, filename, k);
    return Ok(k);
  }
}
