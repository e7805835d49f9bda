/**
 * The sanity checks run after reference resolution: every registered record
 * must be fully resolved and every flat and value below it must carry the
 * types and foreign-key references that resolution fills in.
 */
module Sanity {
  import opened Wrappers
  import opened SemanticNodes
  import opened Registry
  import opened Analysis

  /** A record resolution has finished with: marked resolved, and its parent found when it names one. */
  predicate RecordSane(n: Node)
    requires n.Record?
  {
    n.isFullyResolved && (n.inheritedFrom.Some? ==> n.inheritedFromRef.Some?)
  }

  /** A flat with a declared type, and a named, resolved target when that type is a foreign key. */
  predicate FlatSane(n: Node)
    requires n.Flat?
  {
    n.flatType != Unresolved && n.flatType != InlineRecord
    && (n.flatType == ForeignKey ==> n.fkName.Some? && n.fkRef.Some?)
  }

  /** Whether value node `v` is a string owned by a foreign-key flat that has text but names no record. */
  predicate UnresolvedStringKey(nodes: seq<Node>, v: nat)
    requires v < |nodes| && nodes[v].Value?
  {
    var n := nodes[v];
    match n.parent
    case Some(ParentNode(p)) =>
      p < |nodes| && nodes[p].Flat? && nodes[p].flatType == ForeignKey && n.valueType == String
      && StringValue(n).Ok? && |StringValue(n).value| != 0 && n.fkName.None?
    case _ => false
  }

  /**
   * A value whose foreign-key fields agree with its type: a string names a
   * record exactly when it refers to one, a foreign key names and refers to
   * one, and a non-empty string under a foreign-key flat names one.
   */
  predicate ValueSane(nodes: seq<Node>, v: nat)
    requires v < |nodes| && nodes[v].Value?
  {
    var n := nodes[v];
    (n.valueType == String ==> (n.fkName.Some? <==> n.fkRef.Some?))
    && (n.valueType == ForeignKey ==> n.fkName.Some? && n.fkRef.Some?)
    && !UnresolvedStringKey(nodes, v)
  }

  /** Checks flat `f` and everything below it. */
  function CheckFlat(nodes: seq<Node>, f: nat): (r: Result<()>)
    requires Ordered(nodes) && f < |nodes| && nodes[f].Flat?
    ensures r.Ok? ==> FlatSane(nodes[f])
    ensures r.Ok? && nodes[f].value < |nodes| && nodes[nodes[f].value].Value? ==> ValueSane(nodes, nodes[f].value)
    decreases f, 2
  {
    var n := nodes[f];
    if n.flatType == Unresolved || n.flatType == InlineRecord then Err(Fatal)
    else if n.flatType == ForeignKey && (n.fkName.None? || n.fkRef.None?) then Err(Fatal)
    else
      assert n.value in Children(n);
      if !nodes[n.value].Value? then Err(Fatal) else CheckValue(nodes, n.value)
  }

  /** Checks value `v`, then its flat children in order, then its value children in order. */
  function CheckValue(nodes: seq<Node>, v: nat): (r: Result<()>)
    requires Ordered(nodes) && v < |nodes| && nodes[v].Value?
    ensures r.Ok? ==> ValueSane(nodes, v)
    ensures r.Ok? ==> forall c :: c in nodes[v].children && c < |nodes| && nodes[c].Flat? ==> FlatSane(nodes[c])
    ensures r.Ok? ==> forall c :: c in nodes[v].children && c < |nodes| && nodes[c].Value? ==> ValueSane(nodes, c)
    decreases v, 2
  {
    if !ValueSane(nodes, v) then Err(Fatal)
    else
      var _ :- CheckChildren(nodes, v, 0, true);
      CheckChildren(nodes, v, 0, false)
  }

  /** Checks the children of value `v` from the `k`-th on: its flats when `flats` holds, else its values. */
  function CheckChildren(nodes: seq<Node>, v: nat, k: nat, flats: bool): (r: Result<()>)
    requires Ordered(nodes) && v < |nodes| && nodes[v].Value? && k <= |nodes[v].children|
    ensures r.Ok? ==> forall j :: k <= j < |nodes[v].children| && nodes[v].children[j] < |nodes| ==>
      var c := nodes[v].children[j];
      (flats && nodes[c].Flat? ==> FlatSane(nodes[c])) && (!flats && nodes[c].Value? ==> ValueSane(nodes, c))
    decreases v, 1, |nodes[v].children| - k
  {
    var cs := nodes[v].children;
    if k == |cs| then Ok(())
    else
      assert cs[k] in Children(nodes[v]);
      var c := cs[k];
      var _ :- if flats && nodes[c].Flat? then CheckFlat(nodes, c)
               else if !flats && nodes[c].Value? then CheckValue(nodes, c)
               else Ok(());
      CheckChildren(nodes, v, k + 1, flats)
  }

  /** Checks the flats of record `r` in order. */
  function CheckRecordFlats(nodes: seq<Node>, r: nat, k: nat): (res: Result<()>)
    requires Ordered(nodes) && r < |nodes| && nodes[r].Record? && k <= |nodes[r].children|
    ensures res.Ok? ==> forall j :: k <= j < |nodes[r].children| && nodes[r].children[j] < |nodes| && nodes[nodes[r].children[j]].Flat? ==>
      FlatSane(nodes[nodes[r].children[j]])
    decreases |nodes[r].children| - k
  {
    var cs := nodes[r].children;
    if k == |cs| then Ok(())
    else
      assert cs[k] in Children(nodes[r]);
      var _ :- if nodes[cs[k]].Flat? then CheckFlat(nodes, cs[k]) else Ok(());
      CheckRecordFlats(nodes, r, k + 1)
  }

  /** Checks record `r` and every flat below it. */
  function CheckRecord(nodes: seq<Node>, r: nat): (res: Result<()>)
    requires Ordered(nodes) && r < |nodes| && nodes[r].Record?
    ensures res.Ok? <==> RecordSane(nodes[r]) && CheckRecordFlats(nodes, r, 0).Ok?
  {
    var n := nodes[r];
    if !n.isFullyResolved then Err(Fatal)
    else if n.inheritedFrom.Some? && n.inheritedFromRef.None? then Err(Fatal)
    else CheckRecordFlats(nodes, r, 0)
  }

  /** Checks each of `rs` as a record, in order. */
  function CheckRecords(nodes: seq<Node>, rs: seq<nat>): (r: Result<()>)
    requires Ordered(nodes) && RecordsAt(nodes, rs)
    ensures r.Ok? <==> forall x :: x in rs ==> CheckRecord(nodes, x).Ok?
  {
    if |rs| == 0 then Ok(())
    else
      assert rs[0] in rs && forall x :: x in rs <==> x == rs[0] || x in rs[1..];
      var _ :- CheckRecord(nodes, rs[0]);
      CheckRecords(nodes, rs[1..])
  }

  /** Checks each of `fs` as a flat, in order. */
  function CheckFlats(nodes: seq<Node>, fs: seq<nat>): (r: Result<()>)
    requires Ordered(nodes) && FlatsAt(nodes, fs)
    ensures r.Ok? <==> forall x :: x in fs ==> CheckFlat(nodes, x).Ok?
  {
    if |fs| == 0 then Ok(())
    else
      assert fs[0] in fs && forall x :: x in fs <==> x == fs[0] || x in fs[1..];
      var _ :- CheckFlat(nodes, fs[0]);
      CheckFlats(nodes, fs[1..])
  }

  /** Checks the records, then the flats, of packages `ps`, in order. */
  function CheckPackages(nodes: seq<Node>, ps: seq<PackageInfo>): (r: Result<()>)
    requires Ordered(nodes) && forall i :: 0 <= i < |ps| ==> RecordsAt(nodes, ps[i].records) && FlatsAt(nodes, ps[i].flats)
    ensures r.Ok? <==> forall i :: 0 <= i < |ps| ==>
      CheckRecords(nodes, ps[i].records).Ok? && CheckFlats(nodes, ps[i].flats).Ok?
  {
    if |ps| == 0 then Ok(())
    else
      var _ :- CheckRecords(nodes, ps[0].records);
      var _ :- CheckFlats(nodes, ps[0].flats);
      CheckPackages(nodes, ps[1..])
  }

  /**
   * The whole check: once for every registered file, the free records, the
   * free flats, then each package's records and flats. The files themselves
   * are not looked at, so with no file nothing is checked and with several the
   * same declarations are checked again.
   */
  function SanityCheck(nodes: seq<Node>, packages: seq<PackageInfo>, rootNodes: seq<(string, nat)>,
                       freeRecords: seq<nat>, freeFlats: seq<nat>): (r: Result<()>)
    requires Ordered(nodes) && RegistryOk(nodes, 0, packages, [], freeRecords, freeFlats)
    ensures |rootNodes| == 0 ==> r.Ok?
    ensures |rootNodes| > 0 ==> (r.Ok? <==>
      (forall x :: x in freeRecords ==> CheckRecord(nodes, x).Ok?)
      && (forall x :: x in freeFlats ==> CheckFlat(nodes, x).Ok?)
      && (forall i :: 0 <= i < |packages| ==>
            CheckRecords(nodes, packages[i].records).Ok? && CheckFlats(nodes, packages[i].flats).Ok?))
    decreases |rootNodes|
  {
    if |rootNodes| == 0 then Ok(())
    else
      var _ :- CheckRecords(nodes, freeRecords);
      var _ :- CheckFlats(nodes, freeFlats);
      var _ :- CheckPackages(nodes, packages);
      SanityCheck(nodes, packages, rootNodes[1..], freeRecords, freeFlats)
  }
}
