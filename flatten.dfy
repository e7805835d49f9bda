/**
 * The flattener. For one record it builds a new record that holds, in order,
 * every flat the record inherits along its parent chain, with the record's
 * own declarations in place of inherited ones of the same name. The nodes
 * that existed before flattening are only read; every node it produces is
 * new. Inline values become new records deriving from the key's target, and
 * string keys into allowed packages are expanded into flattened copies of
 * the record they name.
 *
 * The flatten stack is passed in and handed back. A record is pushed before
 * its parent and its flats are flattened and popped afterwards, but only on
 * success: an error leaves the stack as it was at the failure, and a caller
 * that swallows a circular-reference error carries on with those entries
 * still on the stack.
 */
module Flattening {
  import opened Wrappers
  import opened SemanticNodes
  import opened Registry
  import opened SetSizes

  /** The packages into whose records a string key may be expanded. */
  datatype FlattenRules = FlattenRules(stringKeyAllowedPackages: seq<string>)

  /** The rules of flattening by name: only keys into package `Vehicle` are expanded. */
  const VehicleRules := FlattenRules(["Vehicle"])

  /** A string key naming record `target` is expanded when the record's package is allowed. */
  predicate Expands(rules: FlattenRules, target: Node) {
    target.Record? && target.ctx.name.Some? && target.ctx.name.value in rules.stringKeyAllowedPackages
  }

  // ---------------------------------------------------------------------------
  // Specification: the flats a flattened record holds

  /** Every parent and foreign-key reference names a record of the arena. */
  predicate Linked(nodes: seq<Node>) {
    forall i :: 0 <= i < |nodes| ==> IsRecordRef(nodes, RefOf(nodes[i]))
  }

  predicate AllFlats(nodes: seq<Node>, fs: seq<nat>) {
    forall i :: 0 <= i < |fs| ==> fs[i] < |nodes| && nodes[fs[i]].Flat?
  }

  /** The names of flats `fs`, in order. */
  function Names(nodes: seq<Node>, fs: seq<nat>): (ns: seq<string>)
    requires AllFlats(nodes, fs)
    ensures |ns| == |fs| && forall i :: 0 <= i < |fs| ==> ns[i] == nodes[fs[i]].name
  {
    if |fs| == 0 then [] else Names(nodes, fs[..|fs| - 1]) + [nodes[fs[|fs| - 1]].name]
  }

  predicate Distinct(ns: seq<string>) {
    forall i, j :: 0 <= i < j < |ns| ==> ns[i] != ns[j]
  }

  /** The flat that stands for inherited flat `p` under a record with children `cs`: its own flat of that name, if any. */
  function Nearest(nodes: seq<Node>, cs: seq<nat>, p: nat): (o: nat)
    requires p < |nodes| && nodes[p].Flat?
    ensures o < |nodes| && nodes[o].Flat? && nodes[o].name == nodes[p].name
  {
    match FirstFlatNamed(nodes, cs, nodes[p].name)
    case Some(o) => o
    case None => p
  }

  /** Inherited flats `inherited`, each replaced by its nearest declaration under children `cs`. */
  function Overrides(nodes: seq<Node>, inherited: seq<nat>, cs: seq<nat>): (r: seq<nat>)
    requires AllFlats(nodes, inherited)
    ensures |r| == |inherited| && AllFlats(nodes, r)
    ensures forall i :: 0 <= i < |r| ==> r[i] == Nearest(nodes, cs, inherited[i])
    ensures Names(nodes, r) == Names(nodes, inherited)
  {
    if |inherited| == 0 then []
    else
      var n := |inherited| - 1;
      Overrides(nodes, inherited[..n], cs) + [Nearest(nodes, cs, inherited[n])]
  }

  /** The flats among `own`, in order, whose names are neither in `seen` nor taken by an earlier one of them. */
  function Novel(nodes: seq<Node>, seen: seq<string>, own: seq<nat>): (r: seq<nat>)
    requires AllFlats(nodes, own)
    ensures AllFlats(nodes, r) && forall f :: f in r ==> f in own
  {
    if |own| == 0 then []
    else
      var front := Novel(nodes, seen, own[..|own| - 1]);
      var f := own[|own| - 1];
      if nodes[f].name in seen + Names(nodes, front) then front else front + [f]
  }

  /**
   * The flats of a record with children `cs` deriving from a record that
   * flattens to `inherited`: the inherited ones in their order, each replaced
   * by the record's own declaration of that name, then the record's other
   * flats in their order, each name once.
   */
  function Inherit(nodes: seq<Node>, inherited: seq<nat>, cs: seq<nat>): (r: seq<nat>)
    requires AllFlats(nodes, inherited)
    ensures AllFlats(nodes, r) && |inherited| <= |r|
  {
    Overrides(nodes, inherited, cs) + Novel(nodes, Names(nodes, inherited), FlatsOf(nodes, cs))
  }

  /**
   * The flats record `r` flattens to, as the declarations they copy, when
   * the records in `seen` are being flattened already: none when the parent
   * chain reaches one of them.
   */
  function InheritedFlats(nodes: seq<Node>, r: nat, seen: set<nat>): (fs: Option<seq<nat>>)
    requires Linked(nodes) && r < |nodes| && nodes[r].Record?
    ensures fs.Some? ==> AllFlats(nodes, fs.value)
    decreases Below(|nodes|) - seen
  {
    if r in seen then None
    else
      match nodes[r].inheritedFromRef
      case None => Some(FlatsOf(nodes, nodes[r].children))
      case Some(p) =>
        assert IsRecordRef(nodes, RefOf(nodes[r]));
        match InheritedFlats(nodes, p, seen + {r})
        case None => None
        case Some(inherited) => Some(Inherit(nodes, inherited, nodes[r].children))
  }

  // ---------------------------------------------------------------------------
  // Properties of the specification

  lemma NamesAppend(nodes: seq<Node>, a: seq<nat>, b: seq<nat>)
    requires AllFlats(nodes, a) && AllFlats(nodes, b)
    ensures AllFlats(nodes, a + b) && Names(nodes, a + b) == Names(nodes, a) + Names(nodes, b)
  {
  }

  /** No flat among `cs` is called `name` exactly when `name` is not among their names. */
  lemma NamesAbsent(nodes: seq<Node>, cs: seq<nat>, name: string)
    requires AllFlats(nodes, cs)
    ensures NoFlatNamed(nodes, cs, name) <==> name !in Names(nodes, cs)
  {
    if name in Names(nodes, cs) {
      var i :| 0 <= i < |cs| && Names(nodes, cs)[i] == name;
      assert cs[i] in cs;
    } else {
      forall c | c in cs && c < |nodes| && nodes[c].Flat?
        ensures nodes[c].name != name
      {
        var i :| 0 <= i < |cs| && cs[i] == c;
        assert Names(nodes, cs)[i] == nodes[c].name;
      }
    }
  }

  /** A flat found among `a` is still the first of its name among `a + b`. */
  lemma FirstFlatNamedExtend(nodes: seq<Node>, a: seq<nat>, b: seq<nat>, name: string)
    requires FirstFlatNamed(nodes, a, name).Some?
    ensures FirstFlatNamed(nodes, a + b, name) == FirstFlatNamed(nodes, a, name)
  {
    var o := FirstFlatNamed(nodes, a, name).value;
    var k :| 0 <= k < |a| && a[k] == o && NoFlatNamed(nodes, a[..k], name);
    assert (a + b)[..k] == a[..k];
    FirstFlatNamedPrefix(nodes, a + b, k, name);
  }

  /** Looking for a flat among children or among only the flat children finds the same one. */
  lemma {:induction false} FirstFlatNamedOfFlats(nodes: seq<Node>, cs: seq<nat>, name: string)
    ensures FirstFlatNamed(nodes, FlatsOf(nodes, cs), name) == FirstFlatNamed(nodes, cs, name)
  {
    if |cs| > 0 {
      FirstFlatNamedOfFlats(nodes, cs[1..], name);
      var rest := FlatsOf(nodes, cs[1..]);
      if cs[0] < |nodes| && nodes[cs[0]].Flat? {
        var fs := [cs[0]] + rest;
        assert FlatsOf(nodes, cs) == fs;
        assert fs[0] == cs[0] && fs[1..] == rest;
        if nodes[cs[0]].name != name {
          assert FirstFlatNamed(nodes, fs, name) == FirstFlatNamed(nodes, rest, name);
          assert FirstFlatNamed(nodes, cs, name) == FirstFlatNamed(nodes, cs[1..], name);
        }
      } else {
        assert FlatsOf(nodes, cs) == rest;
        assert FirstFlatNamed(nodes, cs, name) == FirstFlatNamed(nodes, cs[1..], name);
      }
    }
  }

  /** The names seen so far together with the novel flats' names are the seen names and all of `own`'s names. */
  lemma {:induction false} NovelNames(nodes: seq<Node>, seen: seq<string>, own: seq<nat>)
    requires AllFlats(nodes, own)
    ensures forall n :: n in seen + Names(nodes, Novel(nodes, seen, own)) <==> n in seen || n in Names(nodes, own)
  {
    if |own| > 0 {
      var m := |own| - 1;
      NovelNames(nodes, seen, own[..m]);
      var front := Novel(nodes, seen, own[..m]);
      NamesAppend(nodes, front, [own[m]]);
      NamesAppend(nodes, own[..m], [own[m]]);
      assert own == own[..m] + [own[m]];
    }
  }

  lemma DistinctSnoc(ns: seq<string>, n: string)
    requires Distinct(ns) && n !in ns
    ensures Distinct(ns + [n])
  {
    forall i, j | 0 <= i < j < |ns| + 1
      ensures (ns + [n])[i] != (ns + [n])[j]
    {
      if j == |ns| {
        assert ns[i] in ns;
      }
    }
  }

  /** Novel flats never repeat a name, neither a seen one nor each other's. */
  lemma {:induction false} NovelDistinct(nodes: seq<Node>, seen: seq<string>, own: seq<nat>)
    requires AllFlats(nodes, own) && Distinct(seen)
    ensures Distinct(seen + Names(nodes, Novel(nodes, seen, own)))
  {
    if |own| > 0 {
      var m := |own| - 1;
      NovelDistinct(nodes, seen, own[..m]);
      var front := Novel(nodes, seen, own[..m]);
      var f := own[m];
      if nodes[f].name !in seen + Names(nodes, front) {
        NamesAppend(nodes, front, [f]);
        assert seen + Names(nodes, front + [f]) == (seen + Names(nodes, front)) + [nodes[f].name];
        DistinctSnoc(seen + Names(nodes, front), nodes[f].name);
      }
    }
  }

  /** Each novel flat is the first flat of its name among `own`. */
  lemma {:induction false} NovelFirst(nodes: seq<Node>, seen: seq<string>, own: seq<nat>)
    requires AllFlats(nodes, own)
    ensures forall f :: f in Novel(nodes, seen, own) ==> FirstFlatNamed(nodes, own, nodes[f].name) == Some(f)
  {
    if |own| > 0 {
      var m := |own| - 1;
      var front := Novel(nodes, seen, own[..m]);
      NovelFirst(nodes, seen, own[..m]);
      assert own == own[..m] + [own[m]];
      forall f | f in front
        ensures FirstFlatNamed(nodes, own, nodes[f].name) == Some(f)
      {
        FirstFlatNamedExtend(nodes, own[..m], [own[m]], nodes[f].name);
      }
      var f := own[m];
      if nodes[f].name !in seen + Names(nodes, front) {
        NovelNames(nodes, seen, own[..m]);
        NamesAbsent(nodes, own[..m], nodes[f].name);
        FirstFlatNamedPrefix(nodes, own, m, nodes[f].name);
      }
    }
  }

  /**
   * A derived record's flattening holds exactly the names its parent's
   * flattening holds and the names it declares itself.
   */
  lemma InheritNames(nodes: seq<Node>, inherited: seq<nat>, cs: seq<nat>)
    requires AllFlats(nodes, inherited)
    ensures forall n :: n in Names(nodes, Inherit(nodes, inherited, cs)) <==>
      n in Names(nodes, inherited) || n in Names(nodes, FlatsOf(nodes, cs))
  {
    var own := FlatsOf(nodes, cs);
    NamesAppend(nodes, Overrides(nodes, inherited, cs), Novel(nodes, Names(nodes, inherited), own));
    NovelNames(nodes, Names(nodes, inherited), own);
  }

  /** When the parent's flattening names each flat once, so does the derived record's. */
  lemma InheritDistinct(nodes: seq<Node>, inherited: seq<nat>, cs: seq<nat>)
    requires AllFlats(nodes, inherited) && Distinct(Names(nodes, inherited))
    ensures Distinct(Names(nodes, Inherit(nodes, inherited, cs)))
  {
    var own := FlatsOf(nodes, cs);
    NamesAppend(nodes, Overrides(nodes, inherited, cs), Novel(nodes, Names(nodes, inherited), own));
    NovelDistinct(nodes, Names(nodes, inherited), own);
  }

  /**
   * Wherever a derived record declares a name itself, its flattening holds
   * the record's own first declaration of that name, never an inherited one.
   */
  lemma InheritOwnWins(nodes: seq<Node>, inherited: seq<nat>, cs: seq<nat>)
    requires AllFlats(nodes, inherited)
    ensures var r := Inherit(nodes, inherited, cs);
      forall i :: 0 <= i < |r| && FirstFlatNamed(nodes, cs, nodes[r[i]].name).Some? ==>
        r[i] == FirstFlatNamed(nodes, cs, nodes[r[i]].name).value
  {
    var r := Inherit(nodes, inherited, cs);
    var ov := Overrides(nodes, inherited, cs);
    var own := FlatsOf(nodes, cs);
    var nv := Novel(nodes, Names(nodes, inherited), own);
    NovelFirst(nodes, Names(nodes, inherited), own);
    forall i | 0 <= i < |r| && FirstFlatNamed(nodes, cs, nodes[r[i]].name).Some?
      ensures r[i] == FirstFlatNamed(nodes, cs, nodes[r[i]].name).value
    {
      if i >= |ov| {
        assert r[i] == nv[i - |ov|];
        FirstFlatNamedOfFlats(nodes, cs, nodes[r[i]].name);
      }
    }
  }

  // ---------------------------------------------------------------------------
  // The specification on a grown arena

  /** Every node of `a` keeps its links inside `a`. */
  predicate Closed(a: seq<Node>, rootCount: nat) {
    forall i :: 0 <= i < |a| ==> LinksOk(a, rootCount, i)
  }

  lemma ClosedLinked(a: seq<Node>, rootCount: nat)
    requires Closed(a, rootCount)
    ensures Linked(a)
  {
    forall i | 0 <= i < |a| ensures IsRecordRef(a, RefOf(a[i])) {
      assert LinksOk(a, rootCount, i);
    }
  }

  lemma {:induction false} FlatsOfStable(a: seq<Node>, b: seq<Node>, cs: seq<nat>)
    requires a <= b && forall c :: c in cs ==> c < |a|
    ensures FlatsOf(a, cs) == FlatsOf(b, cs)
  {
    if |cs| > 0 {
      assert cs[0] in cs && forall c :: c in cs[1..] ==> c in cs;
      FlatsOfStable(a, b, cs[1..]);
    }
  }

  lemma {:induction false} FirstFlatNamedStable(a: seq<Node>, b: seq<Node>, cs: seq<nat>, name: string)
    requires a <= b && forall c :: c in cs ==> c < |a|
    ensures FirstFlatNamed(a, cs, name) == FirstFlatNamed(b, cs, name)
  {
    if |cs| > 0 {
      assert cs[0] in cs && forall c :: c in cs[1..] ==> c in cs;
      FirstFlatNamedStable(a, b, cs[1..], name);
      if !(cs[0] < |a| && a[cs[0]].Flat? && a[cs[0]].name == name) {
        assert FirstFlatNamed(a, cs, name) == FirstFlatNamed(a, cs[1..], name);
        assert FirstFlatNamed(b, cs, name) == FirstFlatNamed(b, cs[1..], name);
      }
    }
  }

  lemma {:induction false} NovelStable(a: seq<Node>, b: seq<Node>, seen: seq<string>, own: seq<nat>)
    requires a <= b && AllFlats(a, own)
    ensures AllFlats(b, own) && Novel(a, seen, own) == Novel(b, seen, own)
  {
    if |own| > 0 {
      NovelStable(a, b, seen, own[..|own| - 1]);
      var front := Novel(a, seen, own[..|own| - 1]);
      assert Names(a, front) == Names(b, front);
    }
  }

  /** The specification reads only the nodes it names, so a grown arena gives the same answer. */
  lemma InheritStable(a: seq<Node>, b: seq<Node>, inherited: seq<nat>, cs: seq<nat>)
    requires a <= b && AllFlats(a, inherited) && forall c :: c in cs ==> c < |a|
    ensures AllFlats(b, inherited) && Inherit(a, inherited, cs) == Inherit(b, inherited, cs)
  {
    FlatsOfStable(a, b, cs);
    NovelStable(a, b, Names(a, inherited), FlatsOf(a, cs));
    OverridesStable(a, b, inherited, cs);
    assert Names(a, inherited) == Names(b, inherited);
  }

  lemma OverridesStable(a: seq<Node>, b: seq<Node>, inherited: seq<nat>, cs: seq<nat>)
    requires a <= b && AllFlats(a, inherited) && forall c :: c in cs ==> c < |a|
    ensures AllFlats(b, inherited) && Overrides(a, inherited, cs) == Overrides(b, inherited, cs)
  {
    forall i | 0 <= i < |inherited|
      ensures Nearest(a, cs, inherited[i]) == Nearest(b, cs, inherited[i])
    {
      FirstFlatNamedStable(a, b, cs, a[inherited[i]].name);
    }
  }

  /**
   * On a grown arena, and with a new record `t` also counted as being
   * flattened, an old record flattens to the same flats.
   */
  lemma {:induction false} InheritedFlatsStable(a: seq<Node>, b: seq<Node>, rootCount: nat, r: nat, seen: set<nat>, t: nat)
    requires a <= b && Closed(a, rootCount) && Linked(b) && r < |a| && a[r].Record? && |a| <= t
    ensures Linked(a) && InheritedFlats(a, r, seen) == InheritedFlats(b, r, seen + {t})
    decreases Below(|a|) - seen
  {
    ClosedLinked(a, rootCount);
    if r !in seen {
      assert LinksOk(a, rootCount, r);
      match a[r].inheritedFromRef
      case None =>
        FlatsOfStable(a, b, a[r].children);
      case Some(p) =>
        InheritedFlatsStable(a, b, rootCount, p, seen + {r}, t);
        assert seen + {r} + {t} == seen + {t} + {r};
        var inherited := InheritedFlats(a, p, seen + {r});
        if inherited.Some? {
          InheritStable(a, b, inherited.value, a[r].children);
        }
    }
  }

  // ---------------------------------------------------------------------------
  // Copies

  /** The elements of a stack, as a set. */
  function OnStack(stack: seq<nat>): set<nat> {
    set x | x in stack
  }

  /** The nodes of the original arena `base` not on the stack: the records still to be pushed. */
  function Pending(base: seq<Node>, stack: seq<nat>): set<nat> {
    Below(|base|) - OnStack(stack)
  }

  lemma PendingShrinks(base: seq<Node>, s: seq<nat>, t: seq<nat>)
    requires s <= t
    ensures Pending(base, t) <= Pending(base, s)
    ensures Pending(base, t) < Pending(base, s) || Pending(base, t) == Pending(base, s)
  {
    forall x | x in s ensures x in t {
      var i :| 0 <= i < |s| && s[i] == x;
      assert t[i] == x;
    }
  }

  lemma OnStackPush(s: seq<nat>, x: nat)
    ensures OnStack(s + [x]) == OnStack(s) + {x}
  {
  }

  /** Flat `c` copies flat `o`: everything but its value and its parent. */
  predicate CopyOf(c: Node, o: Node) {
    c.Flat? && o.Flat? && c.name == o.name && c.flatType == o.flatType && c.isArray == o.isArray
    && c.op == o.op && c.fkName == o.fkName && c.fkRef == o.fkRef && c.ctx == o.ctx
  }

  /** Value `c` copies the type, the array-ness and the syntax of value `o`. */
  predicate ValueCopyOf(c: Node, o: Node) {
    c.Value? && o.Value? && c.valueType == o.valueType && c.isArray == o.isArray && c.syntaxNodes == o.syntaxNodes
  }

  /** Record `c` copies the name, the parent (named and resolved), the group flag and the resolution flag of record `o`. */
  predicate RecordCopyOf(c: Node, o: Node) {
    c.Record? && o.Record? && c.recordName == o.recordName && c.inheritedFrom == o.inheritedFrom
    && c.inheritedFromRef == o.inheritedFromRef && c.isGroup == o.isGroup && c.isFullyResolved == o.isFullyResolved
  }

  /** Nodes `cs`, made at `lo` or later, copy the older flats `os` one for one. */
  predicate Copies(nodes: seq<Node>, cs: seq<nat>, os: seq<nat>, lo: nat) {
    |cs| == |os| && forall i :: 0 <= i < |cs| ==> os[i] < lo <= cs[i] < |nodes| && CopyOf(nodes[cs[i]], nodes[os[i]])
  }

  /** Copies keep their names. */
  lemma CopiesNames(nodes: seq<Node>, cs: seq<nat>, os: seq<nat>, lo: nat)
    requires Copies(nodes, cs, os, lo)
    ensures AllFlats(nodes, cs) && AllFlats(nodes, os) && Names(nodes, cs) == Names(nodes, os)
  {
  }

  /** One more copy. */
  lemma CopiesSnoc(nodes: seq<Node>, cs: seq<nat>, os: seq<nat>, lo: nat, c: nat, o: nat)
    requires Copies(nodes, cs, os, lo) && o < lo <= c < |nodes| && CopyOf(nodes[c], nodes[o])
    ensures Copies(nodes, cs + [c], os + [o], lo)
  {
  }

  /** Copies stay copies in a grown arena. */
  lemma CopiesKept(a: seq<Node>, b: seq<Node>, cs: seq<nat>, os: seq<nat>, lo: nat)
    requires Copies(a, cs, os, lo) && a <= b
    ensures Copies(b, cs, os, lo)
  {
    forall i | 0 <= i < |cs| ensures CopyOf(b[cs[i]], b[os[i]]) {
      assert b[cs[i]] == a[cs[i]] && b[os[i]] == a[os[i]];
    }
  }

  /** The arena `nodes` extends the arena `base` flattening started from, both closed. */
  predicate Extends(nodes: seq<Node>, roots: seq<Root>, base: seq<Node>) {
    WellFormed(nodes, roots) && Linked(nodes) && base <= nodes && WellFormed(base, roots) && Linked(base)
  }

  /**
   * Record `r` was made, for an inline value below `bound`, after flattening
   * started: it derives from an original record and its children are below
   * the value.
   */
  predicate Spawned(nodes: seq<Node>, base: seq<Node>, r: nat, bound: nat)
    requires r < |nodes|
  {
    |base| <= r && 0 < bound <= |base| && nodes[r].Record?
    && nodes[r].inheritedFromRef.Some? && nodes[r].inheritedFromRef.value < |base|
    && forall c :: c in nodes[r].children ==> c + 1 < bound
  }

  /**
   * Record `rc`, new in `b`, is the flattening of record `r` of `a` while the
   * records in `seen` are being flattened: a copy of `r` with no package
   * context and no parent, whose flats copy, in order, the declarations
   * `InheritedFlats` gives.
   */
  predicate Flattened(a: seq<Node>, b: seq<Node>, r: nat, seen: set<nat>, rc: nat)
    requires Linked(a) && r < |a| && a[r].Record?
  {
    |a| <= rc < |b| && RecordCopyOf(b[rc], a[r]) && b[rc].ctx == NoContext && b[rc].parent.None?
    && match InheritedFlats(a, r, seen)
       case None => false
       case Some(os) => Copies(b, b[rc].children, os, |a|)
  }

  /** A flattening stays one while its nodes are kept. */
  lemma FlattenedKept(a: seq<Node>, b: seq<Node>, c: seq<Node>, r: nat, seen: set<nat>, rc: nat)
    requires Linked(a) && r < |a| && a[r].Record? && Flattened(a, b, r, seen, rc)
    requires b <= c && forall x :: x in b[rc].children ==> x < rc
    ensures Flattened(a, c, r, seen, rc)
  {
    var os := InheritedFlats(a, r, seen).value;
    CopiesKept(b, c, b[rc].children, os, |a|);
  }

  /** The elements of array value `V` are copied, in order, into fresh values below `x`, and `x` carries no key. */
  predicate ArrayCopied(a: seq<Node>, b: seq<Node>, V: Node, x: nat)
    requires V.Value? && x < |b|
  {
    b[x].Value? && b[x].fkName.None? && b[x].fkRef.None? && |b[x].children| == |V.children|
    && forall i :: 0 <= i < |V.children| ==>
         V.children[i] < |a| && |a| <= b[x].children[i] < x && ValueCopyOf(b[b[x].children[i]], a[V.children[i]])
  }

  /**
   * String key `V` keeps its key, and holds either nothing or, when the
   * package of the record it names is allowed, that record's flattening.
   */
  predicate StringKeyCopied(a: seq<Node>, b: seq<Node>, V: Node, seen: set<nat>, rules: FlattenRules, x: nat)
    requires Linked(a) && V.Value? && V.fkRef.Some? && IsRecordRef(a, V.fkRef) && x < |b|
  {
    var t := V.fkRef.value;
    b[x].Value? && b[x].fkName == V.fkName && b[x].fkRef == V.fkRef
    && (b[x].children == [] || (Expands(rules, a[t]) && |b[x].children| == 1 && Flattened(a, b, t, seen, b[x].children[0])))
  }

  /**
   * Inline value `V` under record `owner` keeps its key and holds one new
   * record, `InlineFlattened`.
   */
  predicate InlineCopied(a: seq<Node>, b: seq<Node>, V: Node, owner: nat, seen: set<nat>, x: nat)
    requires Linked(a) && V.Value? && IsRecordRef(a, V.fkRef) && owner < |a| && a[owner].Record? && x < |b|
  {
    V.fkRef.Some? && b[x].Value? && b[x].fkName == V.fkName && b[x].fkRef == V.fkRef && |b[x].children| == 1
    && b[x].children[0] < x && InlineFlattened(a, b, V, owner, seen, b[x].children[0])
  }

  /**
   * Record `y`, new in `b`, made for inline value `V` under record `owner`:
   * nameless, deriving from the key's target, with the target's group flag
   * and the owner's resolution flag, whose flats are the target's
   * flattening with `V`'s flats in place of those of the same name.
   */
  predicate InlineFlattened(a: seq<Node>, b: seq<Node>, V: Node, owner: nat, seen: set<nat>, y: nat)
    requires Linked(a) && V.Value? && V.fkRef.Some? && IsRecordRef(a, V.fkRef) && owner < |a| && a[owner].Record?
  {
    var fk := V.fkRef.value;
    |a| <= y < |b| && b[y].Record? && b[y].recordName.None? && b[y].inheritedFrom == V.fkName
    && b[y].inheritedFromRef == V.fkRef && b[y].isGroup == a[fk].isGroup
    && b[y].isFullyResolved == a[owner].isFullyResolved && b[y].ctx == NoContext && b[y].parent.None?
    && match InheritedFlats(a, fk, seen)
       case None => false
       case Some(inherited) => Copies(b, b[y].children, Inherit(a, inherited, V.children), |a|)
  }

  /** The record made for an inline value stays as it is while its nodes are kept. */
  lemma InlineFlattenedKept(a: seq<Node>, b: seq<Node>, c: seq<Node>, V: Node, owner: nat, seen: set<nat>, y: nat)
    requires Linked(a) && V.Value? && V.fkRef.Some? && IsRecordRef(a, V.fkRef) && owner < |a| && a[owner].Record?
    requires InlineFlattened(a, b, V, owner, seen, y) && b <= c
    ensures InlineFlattened(a, c, V, owner, seen, y)
  {
    var inherited := InheritedFlats(a, V.fkRef.value, seen).value;
    CopiesKept(b, c, b[y].children, Inherit(a, inherited, V.children), |a|);
  }

  /** Value `x`, new in `b`, is the flattening of value `v` of `a`, found under record `owner`. */
  predicate ValueFlattened(a: seq<Node>, b: seq<Node>, v: nat, owner: nat, seen: set<nat>, rules: FlattenRules, x: nat)
    requires Linked(a) && v < |a| && a[v].Value? && owner < |a| && a[owner].Record?
  {
    var V := a[v];
    assert IsRecordRef(a, RefOf(a[v]));
    |a| <= x < |b| && ValueCopyOf(b[x], V)
    && if V.isArray then ArrayCopied(a, b, V, x)
       else if V.valueType == String && V.fkRef.Some? then StringKeyCopied(a, b, V, seen, rules, x)
       else if IsScalar(V.valueType) || IsVector(V.valueType) then b[x].fkName.None? && b[x].fkRef.None? && b[x].children == []
       else V.valueType == ForeignKey && InlineCopied(a, b, V, owner, seen, x)
  }

  /** `c` grows `b` and changes, of its nodes, only the parent link of value `x`. */
  predicate Reparented(b: seq<Node>, c: seq<Node>, x: nat) {
    x < |b| <= |c| && b[x].Value? && c[x] == WithParent(b[x], c[x].parent)
    && forall j :: 0 <= j < |b| && j != x ==> c[j] == b[j]
  }

  /** Copies of flats do not notice a value's new parent link. */
  lemma CopiesReparentedValue(b: seq<Node>, c: seq<Node>, cs: seq<nat>, os: seq<nat>, lo: nat, x: nat)
    requires Copies(b, cs, os, lo) && Reparented(b, c, x)
    ensures Copies(c, cs, os, lo)
  {
    assert forall i :: 0 <= i < |cs| ==> cs[i] != x && os[i] != x;
  }

  /** A flattened record does not notice a value's new parent link. */
  lemma FlattenedReparented(a: seq<Node>, b: seq<Node>, c: seq<Node>, r: nat, seen: set<nat>, rc: nat, x: nat)
    requires Linked(a) && r < |a| && a[r].Record? && Flattened(a, b, r, seen, rc) && Reparented(b, c, x)
    ensures Flattened(a, c, r, seen, rc)
  {
    assert b[rc].Record?;
    CopiesReparentedValue(b, c, b[rc].children, InheritedFlats(a, r, seen).value, |a|, x);
  }

  /** The record made for an inline value does not notice a value's new parent link. */
  lemma InlineFlattenedReparented(a: seq<Node>, b: seq<Node>, c: seq<Node>, V: Node, owner: nat, seen: set<nat>, y: nat, x: nat)
    requires Linked(a) && V.Value? && V.fkRef.Some? && IsRecordRef(a, V.fkRef) && owner < |a| && a[owner].Record?
    requires InlineFlattened(a, b, V, owner, seen, y) && Reparented(b, c, x)
    ensures InlineFlattened(a, c, V, owner, seen, y)
  {
    assert b[y].Record?;
    var inherited := InheritedFlats(a, V.fkRef.value, seen).value;
    CopiesReparentedValue(b, c, b[y].children, Inherit(a, inherited, V.children), |a|, x);
  }

  /** A flattened value stays one when its parent link is set. */
  lemma ValueFlattenedReparented(a: seq<Node>, b: seq<Node>, c: seq<Node>, v: nat, owner: nat, seen: set<nat>,
                                 rules: FlattenRules, x: nat)
    requires Linked(a) && v < |a| && a[v].Value? && owner < |a| && a[owner].Record?
    requires ValueFlattened(a, b, v, owner, seen, rules, x) && Reparented(b, c, x)
    ensures ValueFlattened(a, c, v, owner, seen, rules, x)
  {
    var V := a[v];
    assert IsRecordRef(a, RefOf(a[v]));
    if V.isArray {
      assert ArrayCopied(a, c, V, x);
    } else if V.valueType == String && V.fkRef.Some? {
      if b[x].children != [] {
        FlattenedReparented(a, b, c, V.fkRef.value, seen, b[x].children[0], x);
      }
    } else if !(IsScalar(V.valueType) || IsVector(V.valueType)) {
      InlineFlattenedReparented(a, b, c, V, owner, seen, b[x].children[0], x);
    }
  }

  /** A well-formed arena grown from `base` is an extension of it. */
  lemma StillExtends(nodes: seq<Node>, roots: seq<Root>, base: seq<Node>)
    requires WellFormed(nodes, roots) && base <= nodes && WellFormed(base, roots) && Linked(base)
    ensures Extends(nodes, roots, base)
  {
    ClosedLinked(nodes, |roots|);
  }

  /** Overriding one more inherited flat adds its nearest declaration. */
  lemma OverridesStep(nodes: seq<Node>, inherited: seq<nat>, cs: seq<nat>, i: nat)
    requires AllFlats(nodes, inherited) && i < |inherited|
    ensures AllFlats(nodes, inherited[..i]) && AllFlats(nodes, inherited[..i + 1])
    ensures Overrides(nodes, inherited[..i + 1], cs) == Overrides(nodes, inherited[..i], cs) + [Nearest(nodes, cs, inherited[i])]
  {
    assert inherited[..i + 1][..i] == inherited[..i];
  }

  /** Looking at one more own flat adds it exactly when its name is neither seen nor taken. */
  lemma NovelStep(nodes: seq<Node>, seen: seq<string>, own: seq<nat>, k: nat)
    requires AllFlats(nodes, own) && k < |own|
    ensures AllFlats(nodes, own[..k]) && AllFlats(nodes, own[..k + 1])
    ensures var novel := Novel(nodes, seen, own[..k]);
      Novel(nodes, seen, own[..k + 1]) == if nodes[own[k]].name in seen + Names(nodes, novel) then novel else novel + [own[k]]
  {
    assert own[..k + 1][..k] == own[..k];
  }

  /** The step `NovelStep`, seen from the copies made so far: `os` followed by the novel flats. */
  lemma NovelExtend(nodes: seq<Node>, os: seq<nat>, own: seq<nat>, k: nat)
    requires AllFlats(nodes, os) && AllFlats(nodes, own) && k < |own|
    ensures AllFlats(nodes, own[..k]) && AllFlats(nodes, own[..k + 1])
    ensures var before := os + Novel(nodes, Names(nodes, os), own[..k]);
      AllFlats(nodes, before)
      && os + Novel(nodes, Names(nodes, os), own[..k + 1])
         == if nodes[own[k]].name in Names(nodes, before) then before else before + [own[k]]
  {
    var seen := Names(nodes, os);
    var novel := Novel(nodes, seen, own[..k]);
    NovelStep(nodes, seen, own, k);
    NamesAppend(nodes, os, novel);
    if nodes[own[k]].name in Names(nodes, os + novel) {
      assert Novel(nodes, seen, own[..k + 1]) == novel;
    } else {
      assert Novel(nodes, seen, own[..k + 1]) == novel + [own[k]];
      assert os + (novel + [own[k]]) == os + novel + [own[k]];
    }
  }

  /** A prefix of flats holds only flats. */
  lemma AllFlatsPrefix(nodes: seq<Node>, fs: seq<nat>, k: nat)
    requires AllFlats(nodes, fs) && k <= |fs|
    ensures AllFlats(nodes, fs[..k])
  {
  }

  /** A prefix one longer ends with the next element. */
  lemma TakeStep<T>(s: seq<T>, k: nat)
    requires k < |s|
    ensures s[..k + 1] == s[..k] + [s[k]] && s[..k + 1][..k] == s[..k]
  {
  }

  /** Writing above the end of `a` keeps `a` a prefix. */
  lemma WriteAbove(a: seq<Node>, b: seq<Node>, w: nat, n: Node)
    requires a <= b && |a| <= w < |b|
    ensures a <= b[w := n]
  {
    assert b[w := n][..|a|] == a;
  }

  lemma PrefixTrans<T>(a: seq<T>, b: seq<T>, c: seq<T>)
    requires a <= b && b <= c
    ensures a <= c
  {
    assert c[..|a|] == b[..|a|];
  }

  // ---------------------------------------------------------------------------
  // Flattening

  /**
   * Flattens record `r`. On success the result is a new record copying `r`
   * and holding copies of the flats `InheritedFlats` names for it; a record
   * already on the stack is a circular reference and changes nothing.
   * `bound` is the value an inline record `r` was made for.
   */
  method FlattenRecord(g: Graph, r: nat, stack: seq<nat>, rules: FlattenRules, ghost base: seq<Node>, ghost bound: nat)
    returns (res: Result<nat>, stack': seq<nat>)
    requires Extends(g.nodes, g.roots, base) && r < |g.nodes| && g.nodes[r].Record?
    requires r < |base| || Spawned(g.nodes, base, r, bound)
    modifies g
    ensures Extends(g.nodes, g.roots, base) && old(g.nodes) <= g.nodes && g.roots == old(g.roots) && stack <= stack'
    ensures r in stack ==> res == Err(Circular) && g.nodes == old(g.nodes) && stack' == stack
    ensures res.Ok? ==> Flattened(old(g.nodes), g.nodes, r, OnStack(stack), res.value)
    decreases Pending(base, stack), if r < |base| then 0 else bound, 8
  {
    if r in stack {
      return Err(Circular), stack;
    }
    ghost var a := g.nodes;
    OnStackPush(stack, r);
    assert r < |base| ==> r in Pending(base, stack) && Pending(base, stack + [r]) < Pending(base, stack);
    assert r >= |base| ==> Pending(base, stack + [r]) == Pending(base, stack);
    var cs;
    cs, stack' := FlattenFlats(g, r, stack + [r], rules, base, bound, a, stack);
    PrefixTrans(stack, stack + [r], stack');
    if cs.Err? {
      return Err(cs.error), stack';
    }
    var rc := Assemble(g, r, cs.value, base, a, InheritedFlats(a, r, OnStack(stack)).value);
    stack' := stack'[..|stack'| - 1];
    res := Ok(rc);
  }

  /**
   * The flats of the copy of record `r`, pushed on `outer` to give `stack`:
   * those of a derived record, or else a flattening of each of its own.
   */
  method FlattenFlats(g: Graph, r: nat, stack: seq<nat>, rules: FlattenRules, ghost base: seq<Node>,
                      ghost bound: nat, ghost a0: seq<Node>, ghost outer: seq<nat>)
    returns (res: Result<seq<nat>>, stack': seq<nat>)
    requires Extends(g.nodes, g.roots, base) && RecordStart(g.nodes, base, a0, r, bound) && g.nodes == a0
    requires stack == outer + [r] && r !in outer
    modifies g
    ensures Extends(g.nodes, g.roots, base) && old(g.nodes) <= g.nodes && g.roots == old(g.roots) && stack <= stack'
    ensures res.Ok? ==>
      Linked(a0) && InheritedFlats(a0, r, OnStack(outer)).Some?
      && Copies(g.nodes, res.value, InheritedFlats(a0, r, OnStack(outer)).value, |a0|)
    decreases Pending(base, stack), if r < |base| then |base| + 1 else bound, 6
  {
    OnStackPush(outer, r);
    if g.nodes[r].inheritedFromRef.Some? {
      res, stack' := FlattenDerived(g, r, stack, rules, base, bound, a0);
    } else {
      res, stack' := FlattenEach(g, r, stack, rules, base, bound, a0);
    }
  }

  /**
   * The flats of record `r`, which derives from another: the flattened
   * parent's flats, each merged with `r`'s own of that name, then `r`'s
   * other flats. `stack` already holds `r`.
   */
  method FlattenDerived(g: Graph, r: nat, stack: seq<nat>, rules: FlattenRules, ghost base: seq<Node>,
                        ghost bound: nat, ghost a0: seq<Node>)
    returns (res: Result<seq<nat>>, stack': seq<nat>)
    requires Extends(g.nodes, g.roots, base) && RecordStart(g.nodes, base, a0, r, bound) && g.nodes == a0
    requires a0[r].inheritedFromRef.Some? && |stack| > 0 && stack[|stack| - 1] == r
    modifies g
    ensures Extends(g.nodes, g.roots, base) && old(g.nodes) <= g.nodes && g.roots == old(g.roots) && stack <= stack'
    ensures res.Ok? ==>
      var p := a0[r].inheritedFromRef.value;
      assert IsRecordRef(a0, RefOf(a0[r]));
      InheritedFlats(a0, p, OnStack(stack)).Some?
      && Copies(g.nodes, res.value, Inherit(a0, InheritedFlats(a0, p, OnStack(stack)).value, a0[r].children), |a0|)
    decreases Pending(base, stack), if r < |base| then |base| + 1 else bound, 4
  {
    var p := g.nodes[r].inheritedFromRef.value;
    assert LinksOk(g.nodes, |g.roots|, r);
    assert r < |base| ==> LinksOk(base, |g.roots|, r);
    var fp;
    fp, stack' := FlattenRecord(g, p, stack, rules, base, 0);
    if fp.Err? {
      return Err(fp.error), stack';
    }
    ghost var inherited := InheritedFlats(a0, p, OnStack(stack)).value;
    var pflats := g.GetFlats(fp.value);
    FlatsOfAllFlats(g.nodes, g.nodes[fp.value].children);
    var merged;
    ghost var s := stack';
    PendingShrinks(base, stack, stack');
    merged, stack' := MergeInherited(g, r, pflats, stack', rules, base, bound, a0, inherited);
    PrefixTrans(stack, s, stack');
    if merged.Err? {
      return Err(merged.error), stack';
    }
    s := stack';
    PendingShrinks(base, stack, stack');
    res, stack' := AddNovel(g, r, merged.value, stack', rules, base, bound, a0, Overrides(a0, inherited, a0[r].children));
    PrefixTrans(stack, s, stack');
  }

  /**
   * Makes the copy of record `r`: the same name, parent, group flag and
   * resolution flag, no package context and no parent link, holding flats
   * `cs`, copies of `os`, which become its children.
   */
  method Assemble(g: Graph, r: nat, cs: seq<nat>, ghost base: seq<Node>, ghost a0: seq<Node>, ghost os: seq<nat>)
    returns (rc: nat)
    requires Extends(g.nodes, g.roots, base) && a0 <= g.nodes && |base| <= |a0| && r < |a0| && a0[r].Record?
    requires Copies(g.nodes, cs, os, |a0|)
    modifies g
    ensures Extends(g.nodes, g.roots, base) && a0 <= g.nodes && g.roots == old(g.roots)
    ensures rc == old(|g.nodes|) < |g.nodes| && RecordCopyOf(g.nodes[rc], a0[r])
    ensures g.nodes[rc].ctx == NoContext && g.nodes[rc].parent.None?
    ensures g.nodes[rc].children == cs && Copies(g.nodes, cs, os, |a0|)
  {
    var R := g.nodes[r];
    ghost var b := g.nodes;
    rc := g.AddNode(Record(R.recordName, R.isGroup, R.inheritedFrom, R.inheritedFromRef, R.isFullyResolved, NoContext, [], None));
    ghost var b1 := g.nodes;
    g.AddChildRange(rc, cs);
    CopiesReparented(b1, g.nodes, cs, os, |a0|, rc);
    AllAbove(cs, |a0|);
    PrefixKept(a0, g.nodes);
    PrefixKept(base, g.nodes);
    StillExtends(g.nodes, g.roots, base);
  }

  /** Copies stay copies when their parent links are set. */
  lemma CopiesReparented(a: seq<Node>, b: seq<Node>, cs: seq<nat>, os: seq<nat>, lo: nat, p: nat)
    requires Copies(a, cs, os, lo) && |a| == |b| && lo <= p
    requires forall c :: c in cs ==> b[c] == WithParent(a[c], Some(ParentNode(p)))
    requires forall j :: 0 <= j < |b| && j != p && j !in cs ==> b[j] == a[j]
    ensures Copies(b, cs, os, lo)
  {
    forall i | 0 <= i < |cs| ensures CopyOf(b[cs[i]], b[os[i]]) {
      assert cs[i] in cs;
      assert forall j :: 0 <= j < |cs| ==> cs[j] != os[i];
      assert os[i] !in cs;
    }
  }

  /** Nothing below `lo` is among `cs` when all of them are at `lo` or above. */
  lemma AllAbove(cs: seq<nat>, lo: nat)
    requires forall i :: 0 <= i < |cs| ==> lo <= cs[i]
    ensures forall j :: j < lo ==> j !in cs
  {
  }

  /** `a` is a prefix of `b` when `b` keeps every node of `a`. */
  lemma PrefixKept(a: seq<Node>, b: seq<Node>)
    requires |a| <= |b| && forall j :: 0 <= j < |a| ==> b[j] == a[j]
    ensures a <= b
  {
    assert b[..|a|] == a;
  }

  /** The flats a record being flattened declares are original, below its bound, and flats. */
  lemma OwnFlats(nodes: seq<Node>, roots: seq<Root>, base: seq<Node>, a0: seq<Node>, r: nat, bound: nat)
    requires Extends(nodes, roots, base) && RecordStart(nodes, base, a0, r, bound)
    ensures var own, hb := FlatsOf(a0, a0[r].children), if r < |base| then |base| + 1 else bound;
      AllFlats(a0, own) && forall k :: 0 <= k < |own| ==> own[k] < |base| && own[k] + 1 < hb
  {
    RecordStartChildren(nodes, roots, base, a0, r, bound);
    var own := FlatsOf(a0, a0[r].children);
    forall k | 0 <= k < |own| ensures own[k] < |base| {
      assert own[k] in a0[r].children;
    }
  }

  /** The arena `a0` flattening of record `r` started from, and the record itself: original, or made for an inline value. */
  predicate RecordStart(nodes: seq<Node>, base: seq<Node>, a0: seq<Node>, r: nat, bound: nat) {
    a0 <= nodes && |base| <= |a0| && r < |a0| && a0[r].Record? && (r < |base| || Spawned(a0, base, r, bound))
  }

  /** The children of a record being flattened are original nodes, below `bound` when it was made for an inline value. */
  lemma RecordStartChildren(nodes: seq<Node>, roots: seq<Root>, base: seq<Node>, a0: seq<Node>, r: nat, bound: nat)
    requires Extends(nodes, roots, base) && RecordStart(nodes, base, a0, r, bound)
    ensures forall c :: c in a0[r].children ==> c < |base| && (r < |base| ==> c < r) && (r >= |base| ==> c + 1 < bound)
  {
    if r < |base| {
      assert LinksOk(base, |roots|, r);
    }
  }

  /**
   * Merges the flattened parent's flats `pflats`, copies of `inherited`, into
   * record `r`: each parent flat stays as it is unless `r` declares a flat of
   * that name, whose flattening then takes its place, merged with it.
   */
  method MergeInherited(g: Graph, r: nat, pflats: seq<nat>, stack: seq<nat>, rules: FlattenRules, ghost base: seq<Node>,
                        ghost bound: nat, ghost a0: seq<Node>, ghost inherited: seq<nat>)
    returns (res: Result<seq<nat>>, stack': seq<nat>)
    requires Extends(g.nodes, g.roots, base) && RecordStart(g.nodes, base, a0, r, bound)
    requires AllFlats(a0, inherited) && Copies(g.nodes, pflats, inherited, |a0|)
    modifies g
    ensures Extends(g.nodes, g.roots, base) && old(g.nodes) <= g.nodes && g.roots == old(g.roots) && stack <= stack'
    ensures res.Ok? ==> Copies(g.nodes, res.value, Overrides(a0, inherited, a0[r].children), |a0|)
    decreases Pending(base, stack), if r < |base| then |base| + 1 else bound, 2
  {
    RecordStartChildren(g.nodes, g.roots, base, a0, r, bound);
    var cs: seq<nat> := [];
    stack' := stack;
    for i := 0 to |pflats|
      invariant Extends(g.nodes, g.roots, base) && old(g.nodes) <= g.nodes && g.roots == old(g.roots) && stack <= stack'
      invariant a0 <= g.nodes && Copies(g.nodes, pflats, inherited, |a0|)
      invariant Copies(g.nodes, cs, Overrides(a0, inherited[..i], a0[r].children), |a0|)
    {
      ghost var n := g.nodes;
      ghost var s := stack';
      PendingShrinks(base, stack, stack');
      var next;
      next, stack' := MergeAt(g, r, pflats, i, cs, stack', rules, base, bound, a0, inherited);
      PrefixTrans(stack, s, stack');
      PrefixTrans(old(g.nodes), n, g.nodes);
      if next.Err? {
        return Err(next.error), stack';
      }
      cs := next.value;
    }
    assert inherited[..|pflats|] == inherited;
    res := Ok(cs);
  }

  /** One turn of the loop of `MergeInherited`: merges the `i`-th inherited flat's copy into the record's flats. */
  method MergeAt(g: Graph, r: nat, pflats: seq<nat>, i: nat, cs: seq<nat>, stack: seq<nat>, rules: FlattenRules,
                 ghost base: seq<Node>, ghost bound: nat, ghost a0: seq<Node>, ghost inherited: seq<nat>)
    returns (res: Result<seq<nat>>, stack': seq<nat>)
    requires Extends(g.nodes, g.roots, base) && RecordStart(g.nodes, base, a0, r, bound)
    requires AllFlats(a0, inherited) && i < |pflats| && Copies(g.nodes, pflats, inherited, |a0|)
    requires Copies(g.nodes, cs, Overrides(a0, inherited[..i], a0[r].children), |a0|)
    modifies g
    ensures Extends(g.nodes, g.roots, base) && old(g.nodes) <= g.nodes && g.roots == old(g.roots) && stack <= stack'
    ensures a0 <= g.nodes && Copies(g.nodes, pflats, inherited, |a0|)
    ensures res.Ok? ==> Copies(g.nodes, res.value, Overrides(a0, inherited[..i + 1], a0[r].children), |a0|)
    decreases Pending(base, stack), if r < |base| then |base| + 1 else bound, 1
  {
    ghost var n := g.nodes;
    OverridesStep(a0, inherited, a0[r].children, i);
    assert inherited[i] < |a0| <= pflats[i] < |g.nodes| && CopyOf(g.nodes[pflats[i]], g.nodes[inherited[i]]);
    res, stack' := MergeOne(g, r, pflats[i], cs, stack, rules, base, bound, a0, inherited[i],
                            Overrides(a0, inherited[..i], a0[r].children));
    CopiesKept(n, g.nodes, pflats, inherited, |a0|);
  }

  /** Flattens flat `f` of record `r` and adds the copy to `cs`, copies of `os`. */
  method FlattenOwn(g: Graph, r: nat, f: nat, cs: seq<nat>, stack: seq<nat>, rules: FlattenRules, ghost base: seq<Node>,
                    ghost a0: seq<Node>, ghost os: seq<nat>)
    returns (res: Result<seq<nat>>, stack': seq<nat>)
    requires Extends(g.nodes, g.roots, base) && a0 <= g.nodes && |base| <= |a0| && r < |a0| && a0[r].Record?
    requires f < |base| && a0[f].Flat? && Copies(g.nodes, cs, os, |a0|)
    modifies g
    ensures Extends(g.nodes, g.roots, base) && old(g.nodes) <= g.nodes && g.roots == old(g.roots) && stack <= stack'
    ensures a0 <= g.nodes
    ensures res.Ok? ==> Copies(g.nodes, res.value, os + [f], |a0|)
    decreases Pending(base, stack), f + 1, 20
  {
    ghost var n := g.nodes;
    var c;
    c, stack' := FlattenFlat(g, f, r, stack, rules, base);
    PrefixTrans(a0, n, g.nodes);
    if c.Err? {
      return Err(c.error), stack';
    }
    CopiesKept(n, g.nodes, cs, os, |a0|);
    CopiesSnoc(g.nodes, cs, os, |a0|, c.value, f);
    res := Ok(cs + [c.value]);
  }

  /**
   * Adds to `cs`, copies of `os`, the parent's flat `pf`, a copy of `o`, or,
   * when record `r` declares a flat of that name, the flattening of that
   * flat merged with `pf`.
   */
  method MergeOne(g: Graph, r: nat, pf: nat, cs: seq<nat>, stack: seq<nat>, rules: FlattenRules, ghost base: seq<Node>,
                  ghost bound: nat, ghost a0: seq<Node>, ghost o: nat, ghost os: seq<nat>)
    returns (res: Result<seq<nat>>, stack': seq<nat>)
    requires Extends(g.nodes, g.roots, base) && RecordStart(g.nodes, base, a0, r, bound)
    requires o < |a0| <= pf < |g.nodes| && a0[o].Flat? && CopyOf(g.nodes[pf], g.nodes[o]) && Copies(g.nodes, cs, os, |a0|)
    modifies g
    ensures Extends(g.nodes, g.roots, base) && old(g.nodes) <= g.nodes && g.roots == old(g.roots) && stack <= stack'
    ensures a0 <= g.nodes
    ensures res.Ok? ==> Copies(g.nodes, res.value, os + [Nearest(a0, a0[r].children, o)], |a0|)
    decreases Pending(base, stack), if r < |base| then |base| + 1 else bound, 0
  {
    RecordStartChildren(g.nodes, g.roots, base, a0, r, bound);
    ghost var n := g.nodes;
    var over := g.HasFlatWithName(r, g.nodes[pf].name);
    FirstFlatNamedStable(a0, g.nodes, a0[r].children, g.nodes[pf].name);
    if over.None? {
      CopiesSnoc(g.nodes, cs, os, |a0|, pf, o);
      return Ok(cs + [pf]), stack;
    }
    assert over.value in a0[r].children;
    var merged;
    merged, stack' := FlattenOverride(g, over.value, pf, r, stack, rules, base);
    PrefixTrans(a0, n, g.nodes);
    if merged.Err? {
      return Err(merged.error), stack';
    }
    CopiesKept(n, g.nodes, cs, os, |a0|);
    CopiesSnoc(g.nodes, cs, os, |a0|, merged.value, over.value);
    res := Ok(cs + [merged.value]);
  }

  /**
   * Flattens flat `o`, which record `owner` declares in place of the parent's
   * flat `pf` of the same name, and merges `pf` into the copy: an assignment
   * keeps its own value, an append to an array adds `pf`'s elements after its
   * own, and an append to anything else is an error.
   */
  method FlattenOverride(g: Graph, o: nat, pf: nat, owner: nat, stack: seq<nat>, rules: FlattenRules, ghost base: seq<Node>)
    returns (res: Result<nat>, stack': seq<nat>)
    requires Extends(g.nodes, g.roots, base) && o < |base| && g.nodes[o].Flat?
    requires pf < |g.nodes| && g.nodes[pf].Flat? && g.nodes[pf].name == g.nodes[o].name
    requires owner < |g.nodes| && g.nodes[owner].Record?
    modifies g
    ensures Extends(g.nodes, g.roots, base) && old(g.nodes) <= g.nodes && g.roots == old(g.roots) && stack <= stack'
    ensures g.nodes[o].op == Append && !g.nodes[o].isArray ==> res.Err?
    ensures res.Ok? ==> old(|g.nodes|) <= res.value < |g.nodes| && CopyOf(g.nodes[res.value], g.nodes[o])
    ensures res.Ok? && g.nodes[o].op == Append ==>
      var es, ps := ElementsOf(g.nodes, res.value), ElementsOf(old(g.nodes), pf);
      |ps| <= |es| && es[|es| - |ps|..] == ps
    ensures res.Ok? ==> old(g.nodes)[o].value < |old(g.nodes)| && old(g.nodes)[old(g.nodes)[o].value].Value?
    ensures res.Ok? ==> g.nodes[res.value].value < |g.nodes| && g.nodes[g.nodes[res.value].value].Value?
    ensures res.Ok? && g.nodes[o].op == Assign ==>
      ValueFlattened(old(g.nodes), g.nodes, old(g.nodes)[o].value, owner, OnStack(stack), rules, g.nodes[res.value].value)
    ensures res.Ok? && g.nodes[o].op == Append ==>
      var x, es, ps := g.nodes[res.value].value, ElementsOf(g.nodes, res.value), ElementsOf(old(g.nodes), pf);
      |ps| <= |es| && ValueFlattened(old(g.nodes), g.nodes[x := WithChildren(g.nodes[x], es[..|es| - |ps|])],
                                     old(g.nodes)[o].value, owner, OnStack(stack), rules, x)
    decreases Pending(base, stack), o + 1, 20
  {
    var c;
    c, stack' := FlattenFlat(g, o, owner, stack, rules, base);
    if c.Err? {
      return Err(c.error), stack';
    }
    ghost var n := g.nodes;
    assert LinksOk(g.nodes, |g.roots|, pf);
    assert LinksOk(g.nodes, |g.roots|, g.nodes[pf].value);
    assert ElementsOf(n, pf) == ElementsOf(old(g.nodes), pf);
    res := g.MergeFrom(c.value, pf);
    if res.Ok? && n[o].op == Append {
      Unappended(n, c.value, ElementsOf(n, pf));
    }
    if g.nodes != n {
      WriteAbove(old(g.nodes), n, n[c.value].value, g.nodes[n[c.value].value]);
      assert g.nodes == n[n[c.value].value := g.nodes[n[c.value].value]];
    }
    StillExtends(g.nodes, g.roots, base);
  }

  /** Taking the appended elements off the value of flat `f` gives back the arena they were appended to. */
  lemma Unappended(nodes: seq<Node>, f: nat, elems: seq<nat>)
    requires f < |nodes| && nodes[f].Flat? && nodes[f].value < |nodes| && nodes[nodes[f].value].Value?
    ensures var m, x := AppendElements(nodes, f, elems), nodes[f].value;
      m[f] == nodes[f] && ElementsOf(m, f) == ElementsOf(nodes, f) + elems
      && m[x := WithChildren(m[x], ElementsOf(m, f)[..|ElementsOf(m, f)| - |elems|])] == nodes
  {
    var m, x := AppendElements(nodes, f, elems), nodes[f].value;
    assert (nodes[x].children + elems)[..|nodes[x].children|] == nodes[x].children;
  }

  /** A name is taken among copies `cs` exactly when it is among the names of their originals `os` in `a0`. */
  lemma CopiesTaken(nodes: seq<Node>, a0: seq<Node>, cs: seq<nat>, os: seq<nat>, name: string)
    requires Copies(nodes, cs, os, |a0|) && a0 <= nodes
    ensures AllFlats(a0, os)
    ensures FirstFlatNamed(nodes, cs, name).None? <==> name !in Names(a0, os)
  {
    CopiesNames(nodes, cs, os, |a0|);
    assert Names(nodes, os) == Names(a0, os);
    NamesAbsent(nodes, cs, name);
  }

  /**
   * Looks at the `k`-th of the flats `own` of record `r`: adds to `cs`, copies
   * of `os0` followed by the novel flats before it, a flattening of it unless
   * its name is taken.
   */
  method AddIfNovel(g: Graph, r: nat, own: seq<nat>, k: nat, cs: seq<nat>, stack: seq<nat>, rules: FlattenRules,
                    ghost base: seq<Node>, ghost a0: seq<Node>, ghost os0: seq<nat>)
    returns (res: Result<seq<nat>>, stack': seq<nat>)
    requires Extends(g.nodes, g.roots, base) && a0 <= g.nodes && |base| <= |a0| && r < |a0| && a0[r].Record?
    requires AllFlats(a0, os0) && AllFlats(a0, own) && k < |own| && own[k] < |base|
    requires Copies(g.nodes, cs, os0 + Novel(a0, Names(a0, os0), own[..k]), |a0|)
    modifies g
    ensures Extends(g.nodes, g.roots, base) && old(g.nodes) <= g.nodes && g.roots == old(g.roots) && stack <= stack'
    ensures a0 <= g.nodes
    ensures res.Ok? ==> Copies(g.nodes, res.value, os0 + Novel(a0, Names(a0, os0), own[..k + 1]), |a0|)
    decreases Pending(base, stack), own[k] + 1, 22
  {
    NovelExtend(a0, os0, own, k);
    ghost var os := os0 + Novel(a0, Names(a0, os0), own[..k]);
    var f := own[k];
    CopiesTaken(g.nodes, a0, cs, os, a0[f].name);
    if FirstFlatNamed(g.nodes, cs, g.nodes[f].name).Some? {
      return Ok(cs), stack;
    }
    res, stack' := FlattenOwn(g, r, f, cs, stack, rules, base, a0, os);
  }


  /** `cs` copies `os0` followed by those of the first `k` flats `own` whose names were not yet taken. */
  ghost predicate NovelAdded(nodes: seq<Node>, a0: seq<Node>, cs: seq<nat>, os0: seq<nat>, own: seq<nat>, k: nat) {
    AllFlats(a0, os0) && k <= |own| && AllFlats(a0, own[..k]) && a0 <= nodes
    && Copies(nodes, cs, os0 + Novel(a0, Names(a0, os0), own[..k]), |a0|)
  }

  /**
   * Adds to `cs0`, copies of `os0`, a flattening of each flat of record `r`
   * whose name is not yet taken, in order.
   */
  method AddNovel(g: Graph, r: nat, cs0: seq<nat>, stack: seq<nat>, rules: FlattenRules, ghost base: seq<Node>,
                  ghost bound: nat, ghost a0: seq<Node>, ghost os0: seq<nat>)
    returns (res: Result<seq<nat>>, stack': seq<nat>)
    requires Extends(g.nodes, g.roots, base) && RecordStart(g.nodes, base, a0, r, bound)
    requires AllFlats(a0, os0) && Copies(g.nodes, cs0, os0, |a0|)
    modifies g
    ensures Extends(g.nodes, g.roots, base) && old(g.nodes) <= g.nodes && g.roots == old(g.roots) && stack <= stack'
    ensures res.Ok? ==> Copies(g.nodes, res.value, os0 + Novel(a0, Names(a0, os0), FlatsOf(a0, a0[r].children)), |a0|)
    decreases Pending(base, stack), if r < |base| then |base| + 1 else bound, 2
  {
    RecordStartChildren(g.nodes, g.roots, base, a0, r, bound);
    var own := g.GetFlats(r);
    FlatsOfStable(a0, g.nodes, a0[r].children);
    ghost var hb := if r < |base| then |base| + 1 else bound;
    OwnFlats(g.nodes, g.roots, base, a0, r, bound);
    assert own == FlatsOf(a0, a0[r].children) && AllFlats(a0, own);
    var cs := cs0;
    stack' := stack;
    for k := 0 to |own|
      invariant Extends(g.nodes, g.roots, base) && old(g.nodes) <= g.nodes && g.roots == old(g.roots) && stack <= stack'
      invariant NovelAdded(g.nodes, a0, cs, os0, own, k)
    {
      ghost var n := g.nodes;
      ghost var s := stack';
      PendingShrinks(base, stack, stack');
      var next;
      assert own[k] + 1 < hb && own[k] < |base|;
      next, stack' := AddIfNovel(g, r, own, k, cs, stack', rules, base, a0, os0);
      PrefixTrans(stack, s, stack');
      PrefixTrans(old(g.nodes), n, g.nodes);
      AllFlatsPrefix(a0, own, k + 1);
      if next.Err? {
        return Err(next.error), stack';
      }
      cs := next.value;
    }
    assert own[..|own|] == own;
    res := Ok(cs);
  }

  /** Flattens every flat of record `r`, which derives from no record, in order. */
  method FlattenEach(g: Graph, r: nat, stack: seq<nat>, rules: FlattenRules, ghost base: seq<Node>,
                     ghost bound: nat, ghost a0: seq<Node>)
    returns (res: Result<seq<nat>>, stack': seq<nat>)
    requires Extends(g.nodes, g.roots, base) && RecordStart(g.nodes, base, a0, r, bound)
    modifies g
    ensures Extends(g.nodes, g.roots, base) && old(g.nodes) <= g.nodes && g.roots == old(g.roots) && stack <= stack'
    ensures res.Ok? ==> Copies(g.nodes, res.value, FlatsOf(a0, a0[r].children), |a0|)
    decreases Pending(base, stack), if r < |base| then |base| + 1 else bound, 2
  {
    RecordStartChildren(g.nodes, g.roots, base, a0, r, bound);
    var own := g.GetFlats(r);
    FlatsOfStable(a0, g.nodes, a0[r].children);
    ghost var hb := if r < |base| then |base| + 1 else bound;
    OwnFlats(g.nodes, g.roots, base, a0, r, bound);
    var cs: seq<nat> := [];
    stack' := stack;
    for k := 0 to |own|
      invariant Extends(g.nodes, g.roots, base) && old(g.nodes) <= g.nodes && g.roots == old(g.roots) && stack <= stack'
      invariant a0 <= g.nodes && Copies(g.nodes, cs, own[..k], |a0|)
    {
      ghost var n := g.nodes;
      ghost var s := stack';
      PendingShrinks(base, stack, stack');
      var next;
      next, stack' := FlattenOwn(g, r, own[k], cs, stack', rules, base, a0, own[..k]);
      PrefixTrans(stack, s, stack');
      PrefixTrans(old(g.nodes), n, g.nodes);
      if next.Err? {
        return Err(next.error), stack';
      }
      TakeStep(own, k);
      cs := next.value;
    }
    assert own[..|own|] == own;
    res := Ok(cs);
  }

  /**
   * Flattens flat `f` of record `owner`: a new flat with the same name, type,
   * array flag, operator, key and package context, holding the flattening of
   * its value.
   */
  method FlattenFlat(g: Graph, f: nat, owner: nat, stack: seq<nat>, rules: FlattenRules, ghost base: seq<Node>)
    returns (res: Result<nat>, stack': seq<nat>)
    requires Extends(g.nodes, g.roots, base) && f < |base| && g.nodes[f].Flat?
    requires owner < |g.nodes| && g.nodes[owner].Record?
    modifies g
    ensures Extends(g.nodes, g.roots, base) && old(g.nodes) <= g.nodes && g.roots == old(g.roots) && stack <= stack'
    ensures res.Ok? ==>
      var c := res.value;
      old(|g.nodes|) <= c < |g.nodes| && CopyOf(g.nodes[c], g.nodes[f]) && g.nodes[f].value < f
      && old(|g.nodes|) <= g.nodes[c].value < c
      && ValueCopyOf(g.nodes[g.nodes[c].value], g.nodes[g.nodes[f].value])
      && g.nodes[g.nodes[c].value].parent == Some(ParentNode(c))
    ensures res.Ok? ==> old(g.nodes)[f].value < f && old(g.nodes)[old(g.nodes)[f].value].Value?
    ensures res.Ok? ==>
      ValueFlattened(old(g.nodes), g.nodes, old(g.nodes)[f].value, owner, OnStack(stack), rules, g.nodes[res.value].value)
    decreases Pending(base, stack), f + 1, 18
  {
    var F := g.nodes[f];
    assert LinksOk(base, |g.roots|, f);
    var v;
    v, stack' := FlattenValue(g, F.value, owner, stack, rules, base);
    if v.Err? {
      return Err(v.error), stack';
    }
    assert old(|g.nodes|) <= v.value;
    ghost var n := g.nodes;
    var c := g.NewFlat(F.name, F.flatType, F.isArray, v.value, F.op);
    g.Put(c, Flat(F.name, F.flatType, F.isArray, v.value, F.op, F.fkName, F.fkRef, F.ctx, None));
    ValueFlattenedReparented(old(g.nodes), n, g.nodes, F.value, owner, OnStack(stack), rules, v.value);
    PrefixKept(old(g.nodes), g.nodes);
    StillExtends(g.nodes, g.roots, base);
    res := Ok(c);
  }

  /** Whether `r` names a record of `nodes` into which rules `rules` expand a string key. */
  predicate TargetExpands(nodes: seq<Node>, rules: FlattenRules, r: Option<nat>) {
    r.Some? && r.value < |nodes| && Expands(rules, nodes[r.value])
  }

  /**
   * Flattens value `v` of a flat of record `owner`: an array copies its
   * elements, a string key into an allowed package gains the flattening of
   * the record it names, a scalar or a vector is copied, an inline value
   * becomes a new record, and a value of any other type is an error.
   */
  method FlattenValue(g: Graph, v: nat, owner: nat, stack: seq<nat>, rules: FlattenRules, ghost base: seq<Node>)
    returns (res: Result<nat>, stack': seq<nat>)
    requires Extends(g.nodes, g.roots, base) && v < |base| && g.nodes[v].Value?
    requires owner < |g.nodes| && g.nodes[owner].Record?
    modifies g
    ensures Extends(g.nodes, g.roots, base) && old(g.nodes) <= g.nodes && g.roots == old(g.roots) && stack <= stack'
    ensures res.Ok? ==> ValueFlattened(old(g.nodes), g.nodes, v, owner, OnStack(stack), rules, res.value)
    ensures res.Ok? ==> g.nodes[res.value].parent.None?
    ensures var V := g.nodes[v]; !V.isArray && !(V.valueType == String && V.fkRef.Some?) ==>
      (IsScalar(V.valueType) || IsVector(V.valueType) ==> res.Ok?)
      && (V.valueType in {Unresolved, InlineRecord, Identifier} ==> res == Err(Fatal))
      && (V.valueType == ForeignKey && V.fkRef.None? ==> res == Err(Fatal))
    ensures var V := g.nodes[v]; !V.isArray && V.valueType == String && V.fkRef.Some? ==>
      (res.Err? ==> res == Err(Fatal))
      && (!TargetExpands(g.nodes, rules, V.fkRef) || V.fkRef.value in stack ==> res.Ok? && g.nodes[res.value].children == [])
    decreases Pending(base, stack), v + 1, 16
  {
    var V := g.nodes[v];
    if V.isArray {
      res, stack' := FlattenArray(g, v, owner, stack, rules, base);
    } else if V.valueType == String && V.fkRef.Some? {
      res, stack' := FlattenStringKey(g, v, owner, stack, rules, base);
    } else if IsScalar(V.valueType) || IsVector(V.valueType) {
      var x := g.AddNode(NewValue(V.valueType, V.isArray, V.syntaxNodes));
      StillExtends(g.nodes, g.roots, base);
      res, stack' := Ok(x), stack;
    } else if V.valueType == ForeignKey {
      res, stack' := FlattenInline(g, v, owner, stack, rules, base);
    } else {
      res, stack' := Err(Fatal), stack;
    }
  }

  /**
   * Flattens array value `v`: each element in turn, then a new array of the
   * same type holding the results, in order. The contract states each result
   * as a fresh copy of its element, not as that element's whole flattening.
   */
  method FlattenArray(g: Graph, v: nat, owner: nat, stack: seq<nat>, rules: FlattenRules, ghost base: seq<Node>)
    returns (res: Result<nat>, stack': seq<nat>)
    requires Extends(g.nodes, g.roots, base) && v < |base| && g.nodes[v].Value? && g.nodes[v].isArray
    requires owner < |g.nodes| && g.nodes[owner].Record?
    modifies g
    ensures Extends(g.nodes, g.roots, base) && old(g.nodes) <= g.nodes && g.roots == old(g.roots) && stack <= stack'
    ensures res.Ok? ==> ValueFlattened(old(g.nodes), g.nodes, v, owner, OnStack(stack), rules, res.value)
    ensures res.Ok? ==> g.nodes[res.value].parent.None?
    decreases Pending(base, stack), v + 1, 10
  {
    var V := g.nodes[v];
    assert LinksOk(base, |g.roots|, v);
    assert forall k :: 0 <= k < |V.children| ==> V.children[k] < v by {
      forall k | 0 <= k < |V.children| ensures V.children[k] < v {
        assert V.children[k] in V.children;
      }
    }
    var xs: seq<nat> := [];
    stack' := stack;
    for i := 0 to |V.children|
      invariant Extends(g.nodes, g.roots, base) && old(g.nodes) <= g.nodes && g.roots == old(g.roots) && stack <= stack'
      invariant |xs| == i && forall k :: 0 <= k < i ==>
        old(|g.nodes|) <= xs[k] < |g.nodes| && ValueCopyOf(g.nodes[xs[k]], old(g.nodes)[V.children[k]])
    {
      var e := V.children[i];
      if !g.nodes[e].Value? {
        return Err(Fatal), stack';
      }
      var x;
      ghost var s := stack';
      PendingShrinks(base, stack, stack');
      x, stack' := FlattenValue(g, e, owner, stack', rules, base);
      PrefixTrans(stack, s, stack');
      if x.Err? {
        return Err(x.error), stack';
      }
      xs := xs + [x.value];
    }
    var x := g.AddNode(WithChildren(NewValue(V.valueType, V.isArray, V.syntaxNodes), xs));
    StillExtends(g.nodes, g.roots, base);
    res := Ok(x);
  }

  /**
   * Flattens string key `v`: a copy keeping the key which, when the package
   * of the record it names is allowed, holds that record's flattening. A
   * circular reference leaves the copy without it; any other error fails.
   */
  method FlattenStringKey(g: Graph, v: nat, owner: nat, stack: seq<nat>, rules: FlattenRules, ghost base: seq<Node>)
    returns (res: Result<nat>, stack': seq<nat>)
    requires Extends(g.nodes, g.roots, base) && v < |base| && g.nodes[v].Value?
    requires !g.nodes[v].isArray && g.nodes[v].valueType == String && g.nodes[v].fkRef.Some?
    requires owner < |g.nodes| && g.nodes[owner].Record?
    modifies g
    ensures Extends(g.nodes, g.roots, base) && old(g.nodes) <= g.nodes && g.roots == old(g.roots) && stack <= stack'
    ensures res.Ok? ==> ValueFlattened(old(g.nodes), g.nodes, v, owner, OnStack(stack), rules, res.value)
    ensures res.Ok? ==> g.nodes[res.value].parent.None?
    ensures res.Err? ==> res == Err(Fatal)
    ensures !TargetExpands(g.nodes, rules, g.nodes[v].fkRef) || g.nodes[v].fkRef.value in stack ==>
      res.Ok? && g.nodes[res.value].children == []
    decreases Pending(base, stack), v + 1, 10
  {
    var V := g.nodes[v];
    assert LinksOk(base, |g.roots|, v);
    var t := V.fkRef.value;
    var kids: seq<nat> := [];
    stack' := stack;
    if Expands(rules, g.nodes[t]) {
      var rc;
      rc, stack' := FlattenRecord(g, t, stack, rules, base, 0);
      if rc.Ok? {
        assert LinksOk(g.nodes, |g.roots|, rc.value);
        kids := [rc.value];
      } else if rc.error != Circular {
        return Err(Fatal), stack';
      }
    }
    ghost var b := g.nodes;
    var x := g.AddNode(Value(V.valueType, V.isArray, V.syntaxNodes, V.fkName, V.fkRef, kids, None));
    if kids != [] {
      FlattenedKept(old(g.nodes), b, g.nodes, t, OnStack(stack), kids[0]);
    }
    StillExtends(g.nodes, g.roots, base);
    res := Ok(x);
  }

  /**
   * Flattens inline value `v` of a flat of record `owner`: a new record with
   * no name, deriving from the key's target, with the target's group flag,
   * the owner's resolution flag and package context, and `v`'s flats, is
   * flattened, and a copy of `v` keeping the key holds the result.
   */
  method FlattenInline(g: Graph, v: nat, owner: nat, stack: seq<nat>, rules: FlattenRules, ghost base: seq<Node>)
    returns (res: Result<nat>, stack': seq<nat>)
    requires Extends(g.nodes, g.roots, base) && v < |base| && g.nodes[v].Value?
    requires !g.nodes[v].isArray && g.nodes[v].valueType == ForeignKey
    requires owner < |g.nodes| && g.nodes[owner].Record?
    modifies g
    ensures Extends(g.nodes, g.roots, base) && old(g.nodes) <= g.nodes && g.roots == old(g.roots) && stack <= stack'
    ensures res.Ok? ==> ValueFlattened(old(g.nodes), g.nodes, v, owner, OnStack(stack), rules, res.value)
    ensures res.Ok? ==> g.nodes[res.value].parent.None?
    ensures g.nodes[v].fkRef.None? ==> res == Err(Fatal)
    ensures res.Ok? ==> forall c :: c in old(g.nodes)[v].children ==> c < |old(g.nodes)| && old(g.nodes)[c].Flat?
    decreases Pending(base, stack), v + 1, 14
  {
    var V := g.nodes[v];
    assert LinksOk(base, |g.roots|, v);
    if V.fkRef.None? {
      return Err(Fatal), stack;
    }
    if !(forall c :: c in V.children ==> g.nodes[c].Flat?) {
      return Err(Fatal), stack;
    }
    ghost var a := g.nodes;
    ClosedLinked(a, |g.roots|);
    assert IsRecordRef(a, RefOf(a[v]));
    var y;
    y, stack' := SpawnRecord(g, v, owner, stack, rules, base);
    if y.Err? {
      return Err(y.error), stack';
    }
    var x := WrapInline(g, v, owner, y.value, rules, base, a, OnStack(stack));
    res := Ok(x);
  }

  /** Adds the copy of inline value `v` that holds `y`, the flattening of the record made for it. */
  method WrapInline(g: Graph, v: nat, owner: nat, y: nat, rules: FlattenRules, ghost base: seq<Node>,
                    ghost a: seq<Node>, ghost seen: set<nat>)
    returns (x: nat)
    requires Extends(g.nodes, g.roots, base) && a <= g.nodes && Linked(a) && v < |a| && owner < |a| && a[owner].Record?
    requires a[v].Value? && !a[v].isArray && a[v].valueType == ForeignKey && a[v].fkRef.Some? && IsRecordRef(a, a[v].fkRef)
    requires InlineFlattened(a, g.nodes, a[v], owner, seen, y)
    modifies g
    ensures Extends(g.nodes, g.roots, base) && old(g.nodes) <= g.nodes && g.roots == old(g.roots)
    ensures ValueFlattened(a, g.nodes, v, owner, seen, rules, x) && g.nodes[x].parent.None?
  {
    var V := g.nodes[v];
    ghost var b := g.nodes;
    x := g.AddNode(Value(V.valueType, V.isArray, V.syntaxNodes, V.fkName, V.fkRef, [y], None));
    InlineFlattenedKept(a, b, g.nodes, V, owner, seen, y);
    InlineValueFlattened(a, g.nodes, v, owner, seen, rules, x);
    StillExtends(g.nodes, g.roots, base);
  }

  /** An inline value's copy holding the flattened record made for it is the value's flattening. */
  lemma InlineValueFlattened(a: seq<Node>, b: seq<Node>, v: nat, owner: nat, seen: set<nat>, rules: FlattenRules, x: nat)
    requires Linked(a) && v < |a| && owner < |a| && a[owner].Record?
    requires a[v].Value? && !a[v].isArray && a[v].valueType == ForeignKey && a[v].fkRef.Some? && IsRecordRef(a, a[v].fkRef)
    requires |a| <= x < |b| && ValueCopyOf(b[x], a[v]) && b[x].parent.None? && InlineCopied(a, b, a[v], owner, seen, x)
    ensures ValueFlattened(a, b, v, owner, seen, rules, x)
  {
    assert a[v].valueType != String && !IsScalar(ForeignKey) && !IsVector(ForeignKey);
  }

  /** Makes and flattens the record for inline value `v`, which has a key and only flats. */
  method SpawnRecord(g: Graph, v: nat, owner: nat, stack: seq<nat>, rules: FlattenRules, ghost base: seq<Node>)
    returns (res: Result<nat>, stack': seq<nat>)
    requires Extends(g.nodes, g.roots, base) && v < |base| && g.nodes[v].Value?
    requires g.nodes[v].fkRef.Some? && IsRecordRef(g.nodes, g.nodes[v].fkRef)
    requires forall c :: c in g.nodes[v].children ==> c < v && g.nodes[c].Flat?
    requires owner < |g.nodes| && g.nodes[owner].Record?
    modifies g
    ensures Extends(g.nodes, g.roots, base) && old(g.nodes) <= g.nodes && g.roots == old(g.roots) && stack <= stack'
    ensures Linked(old(g.nodes))
    ensures res.Ok? ==> InlineFlattened(old(g.nodes), g.nodes, old(g.nodes)[v], owner, OnStack(stack), res.value)
    decreases Pending(base, stack), v + 1, 10
  {
    var V := g.nodes[v];
    var fk := V.fkRef.value;
    ghost var a := g.nodes;
    ClosedLinked(a, |g.roots|);
    var t := g.AddNode(Record(None, g.nodes[fk].isGroup, V.fkName, V.fkRef, g.nodes[owner].isFullyResolved,
                              g.nodes[owner].ctx, V.children, None));
    ghost var a1 := g.nodes;
    StillExtends(g.nodes, g.roots, base);
    res, stack' := FlattenRecord(g, t, stack, rules, base, v + 1);
    if res.Ok? {
      InlineFlats(a, a1, g.nodes, |g.roots|, OnStack(stack), res.value);
    }
  }

  /**
   * The flattening `y` of the record made for an inline value, the last node
   * of `a1`, holds copies of its parent's flattening in `a` with the inline
   * value's flats in place of those of the same name.
   */
  lemma InlineFlats(a: seq<Node>, a1: seq<Node>, b: seq<Node>, rootCount: nat, seen: set<nat>, y: nat)
    requires Closed(a, rootCount) && Linked(a1) && a <= a1 && |a1| == |a| + 1
    requires a1[|a|].Record? && a1[|a|].inheritedFromRef.Some? && a1[|a|].inheritedFromRef.value < |a|
    requires a[a1[|a|].inheritedFromRef.value].Record? && forall c :: c in a1[|a|].children ==> c < |a|
    requires Flattened(a1, b, |a|, seen, y)
    ensures Linked(a)
    ensures var fk := a1[|a|].inheritedFromRef.value;
      InheritedFlats(a, fk, seen).Some?
      && Copies(b, b[y].children, Inherit(a, InheritedFlats(a, fk, seen).value, a1[|a|].children), |a|)
  {
    var t, fk := |a|, a1[|a|].inheritedFromRef.value;
    InheritedFlatsStable(a, a1, rootCount, fk, seen, t);
    assert t !in seen;
    var inherited := InheritedFlats(a, fk, seen).value;
    InheritStable(a, a1, inherited, a1[t].children);
    CopiesLower(b, b[y].children, Inherit(a, inherited, a1[t].children), |a|, |a1|);
  }

  /** Copies made at `hi` or later were made at `lo` or later, when their originals are below `lo`. */
  lemma CopiesLower(nodes: seq<Node>, cs: seq<nat>, os: seq<nat>, lo: nat, hi: nat)
    requires Copies(nodes, cs, os, hi) && lo <= hi && forall i :: 0 <= i < |os| ==> os[i] < lo
    ensures Copies(nodes, cs, os, lo)
  {
  }

  /**
   * Flattens the record called `name`, looked up with no package context,
   * under the rules that expand only keys into package `Vehicle`. A name the
   * lookup does not find is an error; the flattening's nodes are added to
   * the arena, the roots stay as they were, and only empty packages are
   * added to the registry.
   */
  method FlattenRecordByName(gc: GlobalContext, name: string) returns (res: Result<nat>)
    requires gc.Valid()
    modifies gc, gc.graph
    ensures gc.Valid() && old(gc.graph.nodes) <= gc.graph.nodes && Linked(old(gc.graph.nodes))
    ensures gc.rootNodes == old(gc.rootNodes) && gc.freeRecords == old(gc.freeRecords) && gc.freeFlats == old(gc.freeFlats)
    ensures EmptyExtension(old(gc.packages), gc.packages) && gc.graph.roots == old(gc.graph.roots)
    ensures match LookupRecordType(old(gc.graph.nodes), old(gc.packages), Some(name), None)
      case Err(e) => res == Err(e)
      case Ok(None) => res == Err(Fatal)
      case Ok(Some(r)) => res.Ok? ==> Flattened(old(gc.graph.nodes), gc.graph.nodes, r, {}, res.value)
    ensures '.' !in name ==> res == Err(Fatal)
  {
    var g := gc.graph;
    ClosedLinked(g.nodes, |g.roots|);
    var rec := gc.ResolveRecordType(Some(name), None);
    if rec.Err? {
      return Err(rec.error);
    }
    if rec.value.None? {
      return Err(Fatal);
    }
    ghost var a := g.nodes;
    var stack;
    res, stack := FlattenRecord(g, rec.value.value, [], VehicleRules, g.nodes, 0);
    assert OnStack([]) == {};
    RegistryTransfer(a, g.nodes, |g.roots|, |g.roots|, gc.packages, gc.rootNodes, gc.freeRecords, gc.freeFlats);
  }
}
