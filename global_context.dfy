/**
 * The global registry shared by every analysed file: the packages with the
 * records and top-level flats registered under them, the records and flats
 * registered without a package, and the analysed file roots by file name.
 * Name lookups over the registry are pure functions of the arena and the
 * package list; the operations that append to the registry are methods of
 * `GlobalContext`.
 */
module Registry {
  import opened Wrappers
  import opened Names
  import opened SemanticNodes
  import opened SetSizes

  /** A package: its name and the records and top-level flats registered under it, in registration order. */
  datatype PackageInfo = PackageInfo(name: string, records: seq<nat>, flats: seq<nat>)

  /** The first package called `name`. */
  function FindPackage(packages: seq<PackageInfo>, name: string): (r: Option<nat>)
    ensures r.Some? ==> r.value < |packages| && packages[r.value].name == name
    ensures r.Some? ==> forall j :: 0 <= j < r.value ==> packages[j].name != name
    ensures r.None? <==> forall j :: 0 <= j < |packages| ==> packages[j].name != name
  {
    if |packages| == 0 then None
    else
      var front := FindPackage(packages[..|packages| - 1], name);
      if front.Some? then front
      else if packages[|packages| - 1].name == name then Some(|packages| - 1)
      else None
  }

  /** The package list after asking for package `name`: unchanged when it exists, else with an empty `name` appended. */
  function WithPackage(packages: seq<PackageInfo>, name: string): (r: seq<PackageInfo>)
    ensures FindPackage(r, name).Some?
    ensures EmptyExtension(packages, r) && |r| <= |packages| + 1
    ensures FindPackage(packages, name).Some? ==> r == packages
  {
    if FindPackage(packages, name).Some? then packages
    else
      var r := packages + [PackageInfo(name, [], [])];
      assert r[|packages|].name == name;
      r
  }

  /** `b` is `a` followed by packages with nothing registered in them. */
  predicate EmptyExtension(a: seq<PackageInfo>, b: seq<PackageInfo>) {
    |a| <= |b| && b[..|a|] == a
    && forall j :: |a| <= j < |b| ==> b[j].records == [] && b[j].flats == []
  }

  /** Asking for the same package twice changes nothing the second time. */
  lemma WithPackageIdempotent(packages: seq<PackageInfo>, name: string)
    ensures WithPackage(WithPackage(packages, name), name) == WithPackage(packages, name)
  {
  }

  /** Asking for a package leaves the lookup of every package that already existed as it was. */
  lemma WithPackageKeepsOthers(packages: seq<PackageInfo>, name: string, other: string)
    requires other != name || FindPackage(packages, other).Some?
    ensures FindPackage(WithPackage(packages, name), other) == FindPackage(packages, other)
  {
    var r := WithPackage(packages, name);
    if r != packages {
      FindPackageAppend(packages, PackageInfo(name, [], []), other);
    }
  }

  lemma FindPackageAppend(packages: seq<PackageInfo>, p: PackageInfo, name: string)
    ensures FindPackage(packages + [p], name) ==
      if FindPackage(packages, name).Some? then FindPackage(packages, name)
      else if p.name == name then Some(|packages|) else None
  {
    assert (packages + [p])[..|packages|] == packages;
  }

  /** Empty packages appended at the end never hide a package, so a found package is found at the same place. */
  lemma {:induction false} FindPackageExtended(a: seq<PackageInfo>, b: seq<PackageInfo>, name: string)
    requires EmptyExtension(a, b)
    ensures FindPackage(a, name).Some? ==> FindPackage(b, name) == FindPackage(a, name)
    ensures FindPackage(a, name).None? && FindPackage(b, name).Some? ==>
      |a| <= FindPackage(b, name).value && b[FindPackage(b, name).value].records == []
    decreases |b|
  {
    if |b| > |a| {
      var front := b[..|b| - 1];
      assert front[..|a|] == b[..|a|];
      FindPackageExtended(a, front, name);
    } else {
      assert b == b[..|a|];
    }
  }

  // ---------------------------------------------------------------------------
  // Well-formedness of the registry

  predicate RecordsAt(nodes: seq<Node>, rs: seq<nat>) {
    forall r :: r in rs ==> r < |nodes| && nodes[r].Record?
  }

  predicate FlatsAt(nodes: seq<Node>, fs: seq<nat>) {
    forall f :: f in fs ==> f < |nodes| && nodes[f].Flat?
  }

  /** The file names under which roots are registered are pairwise different. */
  predicate DistinctKeys(rootNodes: seq<(string, nat)>) {
    forall j, k :: 0 <= j < k < |rootNodes| ==> rootNodes[j].0 != rootNodes[k].0
  }

  /**
   * Every registered record is a record node, every registered flat a flat
   * node, every registered root an existing root, and no file name is
   * registered twice.
   */
  predicate RegistryOk(nodes: seq<Node>, rootCount: nat, packages: seq<PackageInfo>,
                       rootNodes: seq<(string, nat)>, freeRecords: seq<nat>, freeFlats: seq<nat>) {
    (forall i :: 0 <= i < |packages| ==> RecordsAt(nodes, packages[i].records) && FlatsAt(nodes, packages[i].flats))
    && RecordsAt(nodes, freeRecords) && FlatsAt(nodes, freeFlats)
    && (forall k :: 0 <= k < |rootNodes| ==> rootNodes[k].1 < rootCount)
    && DistinctKeys(rootNodes)
  }

  /** The registry stays well-formed when nodes keep their kinds and roots are only added. */
  lemma RegistryTransfer(a: seq<Node>, b: seq<Node>, ra: nat, rb: nat, packages: seq<PackageInfo>,
                         rootNodes: seq<(string, nat)>, freeRecords: seq<nat>, freeFlats: seq<nat>)
    requires RegistryOk(a, ra, packages, rootNodes, freeRecords, freeFlats)
    requires KindsKept(a, b) && ra <= rb
    ensures RegistryOk(b, rb, packages, rootNodes, freeRecords, freeFlats)
  {
    forall i | 0 <= i < |packages|
      ensures RecordsAt(b, packages[i].records) && FlatsAt(b, packages[i].flats)
    {
      forall r | r in packages[i].records ensures r < |b| && b[r].Record? {
        assert KindOf(b[r]) == KindOf(a[r]);
      }
      forall f | f in packages[i].flats ensures f < |b| && b[f].Flat? {
        assert KindOf(b[f]) == KindOf(a[f]);
      }
    }
    forall r | r in freeRecords ensures r < |b| && b[r].Record? {
      assert KindOf(b[r]) == KindOf(a[r]);
    }
    forall f | f in freeFlats ensures f < |b| && b[f].Flat? {
      assert KindOf(b[f]) == KindOf(a[f]);
    }
  }

  // ---------------------------------------------------------------------------
  // Looking up record types

  /** Record `r` when it is called `n`. */
  function NameMatch(nodes: seq<Node>, r: nat, n: string): Option<nat> {
    if r < |nodes| && nodes[r].Record? && nodes[r].recordName == Some(n) then Some(r) else None
  }

  /** The first record among `rs` called exactly `n`. */
  function FirstRecordNamed(nodes: seq<Node>, rs: seq<nat>, n: string): (r: Option<nat>)
    ensures r.Some? ==> exists k :: (0 <= k < |rs| && rs[k] == r.value && NameMatch(nodes, rs[k], n) == r
      && forall j :: 0 <= j < k ==> NameMatch(nodes, rs[j], n).None?)
    ensures r.None? <==> forall k :: 0 <= k < |rs| ==> NameMatch(nodes, rs[k], n).None?
  {
    if |rs| == 0 then None
    else
      var front := FirstRecordNamed(nodes, rs[..|rs| - 1], n);
      if front.Some? then front else NameMatch(nodes, rs[|rs| - 1], n)
  }

  lemma FirstRecordNamedDetermined(nodes: seq<Node>, rs: seq<nat>, k: nat, n: string)
    requires k <= |rs| && FirstRecordNamed(nodes, rs[..k], n).Some?
    ensures FirstRecordNamed(nodes, rs, n) == FirstRecordNamed(nodes, rs[..k], n)
    decreases |rs|
  {
    if k < |rs| {
      assert rs[..|rs| - 1][..k] == rs[..k];
      FirstRecordNamedDetermined(nodes, rs[..|rs| - 1], k, n);
    } else {
      assert rs[..k] == rs;
    }
  }

  /** How record `r` answers a lookup of `t` by base name: its base name fails, differs, or matches. */
  function BaseMatch(nodes: seq<Node>, r: nat, t: string): (m: Result<Option<nat>>)
    ensures m.Err? ==> r < |nodes| && nodes[r].Record? && BaseName(nodes[r].recordName).Err?
    ensures m.Ok? && m.value.Some? ==> (m.value.value == r && r < |nodes| && nodes[r].Record?
      && BaseName(nodes[r].recordName) == Ok(Some(t)))
  {
    if r < |nodes| && nodes[r].Record? then
      match BaseName(nodes[r].recordName)
      case Err(e) => Err(e)
      case Ok(b) => if b == Some(t) then Ok(Some(r)) else Ok(None)
    else Ok(None)
  }

  /** The first answer that is not `Ok(None)`: a failure or a found record; `Ok(None)` when there is none. */
  function FirstAnswer(answers: seq<Result<Option<nat>>>): (r: Result<Option<nat>>)
    ensures r != Ok(None) ==> exists k :: (0 <= k < |answers| && answers[k] == r
      && forall j :: 0 <= j < k ==> answers[j] == Ok(None))
    ensures r == Ok(None) <==> forall k :: 0 <= k < |answers| ==> answers[k] == Ok(None)
  {
    if |answers| == 0 then Ok(None)
    else
      var front := FirstAnswer(answers[..|answers| - 1]);
      if front != Ok(None) then front else answers[|answers| - 1]
  }

  /** An answer preceded only by `Ok(None)` is the first answer. */
  lemma {:induction false} FirstAnswerAt(answers: seq<Result<Option<nat>>>, k: nat)
    requires k < |answers| && answers[k] != Ok(None)
    requires forall j :: 0 <= j < k ==> answers[j] == Ok(None)
    ensures FirstAnswer(answers) == answers[k]
    decreases |answers|
  {
    var front := answers[..|answers| - 1];
    if k < |answers| - 1 {
      FirstAnswerAt(front, k);
    } else {
      assert FirstAnswer(front) == Ok(None);
    }
  }

  /** The first `k` answers are `Ok(None)`. */
  predicate NoAnswerBefore(answers: seq<Result<Option<nat>>>, k: nat) {
    k <= |answers| && forall j :: 0 <= j < k ==> answers[j] == Ok(None)
  }

  lemma NoAnswerStep(answers: seq<Result<Option<nat>>>, k: nat)
    requires NoAnswerBefore(answers, k) && k < |answers| && answers[k] == Ok(None)
    ensures NoAnswerBefore(answers, k + 1)
  {
  }

  lemma NoAnswerAll(answers: seq<Result<Option<nat>>>)
    requires NoAnswerBefore(answers, |answers|)
    ensures FirstAnswer(answers) == Ok(None)
  {
  }

  /** How each of the records `rs` answers a lookup of `t` by base name. */
  function RecordAnswers(nodes: seq<Node>, rs: seq<nat>, t: string): (a: seq<Result<Option<nat>>>)
    ensures |a| == |rs| && forall k :: 0 <= k < |rs| ==> a[k] == BaseMatch(nodes, rs[k], t)
  {
    if |rs| == 0 then [] else RecordAnswers(nodes, rs[..|rs| - 1], t) + [BaseMatch(nodes, rs[|rs| - 1], t)]
  }

  /**
   * The answer of the first record among `rs` whose base name fails or
   * matches `t`; `Ok(None)` when every base name differs.
   */
  function FirstWithBaseName(nodes: seq<Node>, rs: seq<nat>, t: string): (r: Result<Option<nat>>)
    ensures r != Ok(None) ==> exists k :: 0 <= k < |rs| && BaseMatch(nodes, rs[k], t) == r
    ensures r == Ok(None) <==> forall k :: 0 <= k < |rs| ==> BaseMatch(nodes, rs[k], t) == Ok(None)
  {
    FirstAnswer(RecordAnswers(nodes, rs, t))
  }

  /** A record whose base name fails or matches, after records whose base names all differ, gives the answer. */
  lemma FirstWithBaseNameAt(nodes: seq<Node>, rs: seq<nat>, t: string, k: nat)
    requires k < |rs| && BaseMatch(nodes, rs[k], t) != Ok(None)
    requires forall j :: 0 <= j < k ==> BaseMatch(nodes, rs[j], t) == Ok(None)
    ensures FirstWithBaseName(nodes, rs, t) == BaseMatch(nodes, rs[k], t)
  {
    FirstAnswerAt(RecordAnswers(nodes, rs, t), k);
  }

  /** How package `c` answers a lookup of `t` by base name; a package that does not exist has no records. */
  function PackageMatch(nodes: seq<Node>, packages: seq<PackageInfo>, c: string, t: string): Result<Option<nat>> {
    match FindPackage(packages, c)
    case None => Ok(None)
    case Some(i) => FirstWithBaseName(nodes, packages[i].records, t)
  }

  /** How each of the candidate packages `cands` answers a lookup of `t` by base name. */
  function PackageAnswers(nodes: seq<Node>, packages: seq<PackageInfo>, cands: seq<string>, t: string): (a: seq<Result<Option<nat>>>)
    ensures |a| == |cands| && forall k :: 0 <= k < |cands| ==> a[k] == PackageMatch(nodes, packages, cands[k], t)
  {
    if |cands| == 0 then []
    else PackageAnswers(nodes, packages, cands[..|cands| - 1], t) + [PackageMatch(nodes, packages, cands[|cands| - 1], t)]
  }

  /** The answer of the first candidate package that fails or holds a record with base name `t`. */
  function SearchByBaseName(nodes: seq<Node>, packages: seq<PackageInfo>, cands: seq<string>, t: string): (r: Result<Option<nat>>)
    ensures r != Ok(None) ==> exists k :: 0 <= k < |cands| && PackageMatch(nodes, packages, cands[k], t) == r
    ensures r == Ok(None) <==> forall k :: 0 <= k < |cands| ==> PackageMatch(nodes, packages, cands[k], t) == Ok(None)
  {
    FirstAnswer(PackageAnswers(nodes, packages, cands, t))
  }

  /** A package that fails or matches, after packages that all answer nothing, gives the answer. */
  lemma SearchByBaseNameAt(nodes: seq<Node>, packages: seq<PackageInfo>, cands: seq<string>, t: string, k: nat)
    requires k < |cands| && PackageMatch(nodes, packages, cands[k], t) != Ok(None)
    requires forall j :: 0 <= j < k ==> PackageMatch(nodes, packages, cands[j], t) == Ok(None)
    ensures SearchByBaseName(nodes, packages, cands, t) == PackageMatch(nodes, packages, cands[k], t)
  {
    FirstAnswerAt(PackageAnswers(nodes, packages, cands, t), k);
  }

  /** The packages an undotted type name is looked for in: RTDB, then the used packages, then the file's own package. */
  function LookupCandidates(ctx: PackageContext): (cs: seq<string>)
    ensures ctx.name.Some? ==> cs == ["RTDB"] + ctx.usings + [ctx.name.value]
    ensures ctx.name.None? ==> cs == ["RTDB"] + ctx.usings
  {
    ["RTDB"] + ctx.usings + (if ctx.name.Some? then [ctx.name.value] else [])
  }

  /**
   * The record a type name denotes, without creating packages. A dotted name
   * `P.N` denotes the first record called `N` registered in package `P`; a
   * name with two or more dots is an error. An undotted name needs a context
   * and denotes the first record, in the first candidate package, whose base
   * name is the type name; looking at a record with a malformed name on the
   * way is an error. A name that denotes nothing gives `None`.
   */
  function LookupRecordType(nodes: seq<Node>, packages: seq<PackageInfo>, t: Option<string>,
                            ctx: Option<PackageContext>): (r: Result<Option<nat>>)
    ensures t.None? ==> r == Ok(None)
    ensures t.Some? && '.' !in t.value && ctx.None? ==> r == Ok(None)
    ensures r.Ok? && r.value.Some? ==> r.value.value < |nodes| && nodes[r.value.value].Record?
  {
    if t.None? then Ok(None)
    else if '.' in t.value then
      var ids := Split(t.value, '.');
      SplitCount(t.value, '.');
      CountZero(t.value, '.');
      if |ids| > 2 then Err(Fatal)
      else
        match FindPackage(packages, ids[0])
        case None => Ok(None)
        case Some(i) =>
          var found := FirstRecordNamed(nodes, packages[i].records, ids[1]);
          if found.None? then Ok(None)
          else
            var k :| 0 <= k < |packages[i].records| && packages[i].records[k] == found.value
              && NameMatch(nodes, packages[i].records[k], ids[1]) == found;
            Ok(found)
    else if ctx.None? then Ok(None)
    else
      var r := SearchByBaseName(nodes, packages, LookupCandidates(ctx.value), t.value);
      if !(r.Ok? && r.value.Some?) then r
      else
        var cands := LookupCandidates(ctx.value);
        var k :| 0 <= k < |cands| && PackageMatch(nodes, packages, cands[k], t.value) == r;
        var i := FindPackage(packages, cands[k]).value;
        var rs := packages[i].records;
        var m :| 0 <= m < |rs| && BaseMatch(nodes, rs[m], t.value) == r;
        r
  }

  /** A name with two or more dots does not denote a record. */
  lemma LookupMalformed(nodes: seq<Node>, packages: seq<PackageInfo>, t: string, ctx: Option<PackageContext>)
    requires Count(t, '.') >= 2
    ensures LookupRecordType(nodes, packages, Some(t), ctx).Err?
  {
    SplitCount(t, '.');
    CountZero(t, '.');
  }

  /** `P.N` denotes the first record called `N` registered in the first package called `P`, and nothing when there is none. */
  lemma LookupQualified(nodes: seq<Node>, packages: seq<PackageInfo>, p: string, n: string, ctx: Option<PackageContext>)
    requires '.' !in p && '.' !in n
    ensures LookupRecordType(nodes, packages, Some(p + "." + n), ctx) ==
      Ok(match FindPackage(packages, p)
         case None => None
         case Some(i) => FirstRecordNamed(nodes, packages[i].records, n))
  {
    SplitQualified(p, n, '.');
    assert (p + "." + n)[|p|] == '.';
  }

  /**
   * An undotted name with a context denotes the answer of the first candidate
   * package, in the order RTDB, used packages, own package, whose records
   * fail or match by base name.
   */
  lemma LookupUnqualified(nodes: seq<Node>, packages: seq<PackageInfo>, t: string, ctx: PackageContext)
    requires '.' !in t
    ensures LookupRecordType(nodes, packages, Some(t), Some(ctx)) == SearchByBaseName(nodes, packages, LookupCandidates(ctx), t)
  {
  }

  /** Whatever a lookup finds is registered in some package. */
  lemma LookupFindsRegistered(nodes: seq<Node>, packages: seq<PackageInfo>, t: Option<string>, ctx: Option<PackageContext>)
    requires LookupRecordType(nodes, packages, t, ctx).Ok? && LookupRecordType(nodes, packages, t, ctx).value.Some?
    ensures exists i :: 0 <= i < |packages| && LookupRecordType(nodes, packages, t, ctx).value.value in packages[i].records
  {
    if '.' in t.value {
      QualifiedFindsRegistered(nodes, packages, t.value, ctx);
    } else {
      BaseFindsRegistered(nodes, packages, t.value, ctx);
    }
  }

  lemma QualifiedFindsRegistered(nodes: seq<Node>, packages: seq<PackageInfo>, t: string, ctx: Option<PackageContext>)
    requires '.' in t
    requires LookupRecordType(nodes, packages, Some(t), ctx).Ok? && LookupRecordType(nodes, packages, Some(t), ctx).value.Some?
    ensures exists i :: 0 <= i < |packages| && LookupRecordType(nodes, packages, Some(t), ctx).value.value in packages[i].records
  {
    var r := LookupRecordType(nodes, packages, Some(t), ctx);
    var ids := Split(t, '.');
    var i := FindPackage(packages, ids[0]).value;
    var k :| 0 <= k < |packages[i].records| && packages[i].records[k] == r.value.value;
    assert packages[i].records[k] in packages[i].records;
  }

  lemma BaseFindsRegistered(nodes: seq<Node>, packages: seq<PackageInfo>, t: string, ctx: Option<PackageContext>)
    requires '.' !in t
    requires LookupRecordType(nodes, packages, Some(t), ctx).Ok? && LookupRecordType(nodes, packages, Some(t), ctx).value.Some?
    ensures exists i :: 0 <= i < |packages| && LookupRecordType(nodes, packages, Some(t), ctx).value.value in packages[i].records
  {
    var cands := LookupCandidates(ctx.value);
    var r := SearchByBaseName(nodes, packages, cands, t);
    assert LookupRecordType(nodes, packages, Some(t), ctx) == r;
    var k :| 0 <= k < |cands| && PackageMatch(nodes, packages, cands[k], t) == r;
    PackageMatchRegistered(nodes, packages, cands[k], t);
  }

  lemma PackageMatchRegistered(nodes: seq<Node>, packages: seq<PackageInfo>, c: string, t: string)
    requires PackageMatch(nodes, packages, c, t).Ok? && PackageMatch(nodes, packages, c, t).value.Some?
    ensures exists i :: 0 <= i < |packages| && PackageMatch(nodes, packages, c, t).value.value in packages[i].records
  {
    var i := FindPackage(packages, c).value;
    var rs := packages[i].records;
    var m :| 0 <= m < |rs| && BaseMatch(nodes, rs[m], t) == PackageMatch(nodes, packages, c, t);
    assert rs[m] in packages[i].records;
  }



  /** Empty packages appended to the list do not change what any package answers. */
  lemma PackageMatchStable(nodes: seq<Node>, a: seq<PackageInfo>, b: seq<PackageInfo>, c: string, t: string)
    requires EmptyExtension(a, b)
    ensures PackageMatch(nodes, b, c, t) == PackageMatch(nodes, a, c, t)
  {
    FindPackageExtended(a, b, c);
  }

  lemma SearchByBaseNameStable(nodes: seq<Node>, a: seq<PackageInfo>, b: seq<PackageInfo>, cands: seq<string>, t: string)
    requires EmptyExtension(a, b)
    ensures SearchByBaseName(nodes, b, cands, t) == SearchByBaseName(nodes, a, cands, t)
  {
    forall k | 0 <= k < |cands| ensures PackageMatch(nodes, b, cands[k], t) == PackageMatch(nodes, a, cands[k], t) {
      PackageMatchStable(nodes, a, b, cands[k], t);
    }
    assert PackageAnswers(nodes, b, cands, t) == PackageAnswers(nodes, a, cands, t);
  }

  /**
   * Looking a type up answers the same after empty packages were appended:
   * the packages that resolving a type creates never change a later lookup.
   */
  lemma LookupStable(nodes: seq<Node>, a: seq<PackageInfo>, b: seq<PackageInfo>, t: Option<string>, ctx: Option<PackageContext>)
    requires EmptyExtension(a, b)
    ensures LookupRecordType(nodes, b, t, ctx) == LookupRecordType(nodes, a, t, ctx)
  {
    if t.Some? && '.' in t.value {
      var ids := Split(t.value, '.');
      FindPackageExtended(a, b, ids[0]);
    } else if t.Some? && ctx.Some? {
      SearchByBaseNameStable(nodes, a, b, LookupCandidates(ctx.value), t.value);
    }
  }

  // ---------------------------------------------------------------------------
  // Fully qualified names

  /** The first package that registers record `rec`. */
  function PackageOf(packages: seq<PackageInfo>, rec: nat): (r: Option<nat>)
    ensures r.Some? ==> r.value < |packages| && rec in packages[r.value].records
    ensures r.Some? ==> forall j :: 0 <= j < r.value ==> rec !in packages[j].records
    ensures r.None? <==> forall j :: 0 <= j < |packages| ==> rec !in packages[j].records
  {
    if |packages| == 0 then None
    else
      var front := PackageOf(packages[..|packages| - 1], rec);
      if front.Some? then front
      else if rec in packages[|packages| - 1].records then Some(|packages| - 1)
      else None
  }

  /**
   * The fully qualified name of registered record `rec`: its base name alone
   * when it is a free record, else prefixed by the first package that
   * registers it. A nameless or unregistered record has none.
   */
  function FullyQualifiedNameOf(nodes: seq<Node>, packages: seq<PackageInfo>, freeRecords: seq<nat>, rec: nat): (r: Result<string>)
    requires rec < |nodes| && nodes[rec].Record?
    ensures r.Ok? ==> BaseName(nodes[rec].recordName).Ok? && BaseName(nodes[rec].recordName).value.Some?
    ensures r.Ok? && rec in freeRecords ==> r.value == BaseName(nodes[rec].recordName).value.value
    ensures r.Ok? && rec !in freeRecords ==>
      PackageOf(packages, rec).Some?
      && r.value == packages[PackageOf(packages, rec).value].name + "." + BaseName(nodes[rec].recordName).value.value
    ensures BaseName(nodes[rec].recordName).Ok? && BaseName(nodes[rec].recordName).value.Some? ==>
      (r.Err? <==> rec !in freeRecords && PackageOf(packages, rec).None?)
  {
    var base :- BaseName(nodes[rec].recordName);
    if base.None? then Err(Fatal)
    else if rec in freeRecords then Ok(base.value)
    else
      match PackageOf(packages, rec)
      case None => Err(Fatal)
      case Some(i) => Ok(packages[i].name + "." + base.value)
  }

  /** A registration of `rec` in package `i` gives it the name `package.N` when it was registered nowhere before. */
  lemma RegisteredRecordQualifiedName(nodes: seq<Node>, packages: seq<PackageInfo>, freeRecords: seq<nat>, rec: nat, i: nat, n: string)
    requires rec < |nodes| && nodes[rec].Record? && nodes[rec].recordName == Some(n) && '.' !in n
    requires i < |packages| && rec !in freeRecords
    requires forall j :: 0 <= j < |packages| ==> rec !in packages[j].records
    ensures FullyQualifiedNameOf(nodes, packages[i := packages[i].(records := packages[i].records + [rec])], freeRecords, rec)
            == Ok(packages[i].name + "." + n)
  {
    var ps := packages[i := packages[i].(records := packages[i].records + [rec])];
    assert rec in ps[i].records;
    var p := PackageOf(ps, rec);
    assert forall j :: 0 <= j < |ps| && j != i ==> rec !in ps[j].records;
  }

  /** Whether some record among `rs` has base name `n`; every record's base name is computed, so any malformed name fails. */
  function HasBaseName(nodes: seq<Node>, rs: seq<nat>, n: string): (r: Result<bool>)
    ensures r.Err? <==> exists k :: 0 <= k < |rs| && BaseMatch(nodes, rs[k], n).Err?
    ensures r.Ok? ==> (r.value <==> exists k :: 0 <= k < |rs| && BaseMatch(nodes, rs[k], n) == Ok(Some(rs[k])))
  {
    if |rs| == 0 then Ok(false)
    else
      var here := BaseMatch(nodes, rs[0], n);
      var rest := HasBaseName(nodes, rs[1..], n);
      if here.Err? then Err(Fatal)
      else if rest.Err? then
        var k :| 0 <= k < |rs[1..]| && BaseMatch(nodes, rs[1..][k], n).Err?;
        assert BaseMatch(nodes, rs[k + 1], n).Err?;
        Err(Fatal)
      else if here.value.Some? then Ok(true)
      else if rest.value then
        var k :| 0 <= k < |rs[1..]| && BaseMatch(nodes, rs[1..][k], n) == Ok(Some(rs[1..][k]));
        assert BaseMatch(nodes, rs[k + 1], n) == Ok(Some(rs[k + 1]));
        Ok(true)
      else Ok(false)
  }

  /** The first candidate package that exists and holds a record with base name `n`. */
  function QualifyIn(nodes: seq<Node>, packages: seq<PackageInfo>, cands: seq<string>, n: string): (r: Result<Option<string>>)
    ensures r.Ok? && r.value.Some? ==> (r.value.value in cands && FindPackage(packages, r.value.value).Some?
      && HasBaseName(nodes, packages[FindPackage(packages, r.value.value).value].records, n) == Ok(true))
  {
    if |cands| == 0 then Ok(None)
    else
      match FindPackage(packages, cands[0])
      case None => QualifyIn(nodes, packages, cands[1..], n)
      case Some(i) =>
        var has :- HasBaseName(nodes, packages[i].records, n);
        if has then Ok(Some(cands[0])) else QualifyIn(nodes, packages, cands[1..], n)
  }

  /** The packages a record name is qualified against: the used packages, the file's own package, then RTDB. */
  function QualifyCandidates(ctx: PackageContext): seq<string> {
    ctx.usings + (if ctx.name.Some? then [ctx.name.value] else []) + ["RTDB"]
  }

  /**
   * The fully qualified form of a record name as seen from a file. A dotted
   * name is already qualified. Otherwise the first candidate package holding
   * a record with that base name qualifies it; failing that, a free record
   * of that name leaves it as it is; failing that, the name does not resolve.
   */
  function QualifyName(nodes: seq<Node>, packages: seq<PackageInfo>, freeRecords: seq<nat>, name: string, ctx: PackageContext): (r: Result<string>)
    ensures '.' in name ==> r == Ok(name)
    ensures '.' !in name && r.Ok? ==> r.value == name || exists c :: c in QualifyCandidates(ctx) && r.value == c + "." + name
    ensures '.' !in name && r.Ok? && r.value == name ==>
      exists k :: 0 <= k < |freeRecords| && freeRecords[k] < |nodes| && nodes[freeRecords[k]].Record?
        && nodes[freeRecords[k]].recordName == Some(name)
  {
    if '.' in name then Ok(name)
    else
      var found :- QualifyIn(nodes, packages, QualifyCandidates(ctx), name);
      if found.Some? then
        assert |found.value + "." + name| > |name|;
        Ok(found.value + "." + name)
      else if exists k :: 0 <= k < |freeRecords| && freeRecords[k] < |nodes| && nodes[freeRecords[k]].Record?
                && nodes[freeRecords[k]].recordName == Some(name) then Ok(name)
      else Err(Fatal)
  }

  /** Every registered record carries an undotted name: registration strips the package qualifier. */
  predicate NamesUndotted(nodes: seq<Node>, packages: seq<PackageInfo>) {
    forall i :: 0 <= i < |packages| ==>
      forall r :: r in packages[i].records ==>
        r < |nodes| && nodes[r].Record? && nodes[r].recordName.Some? && '.' !in nodes[r].recordName.value
  }

  /**
   * A name that qualifies to `P.N` through a package resolves again, without
   * any context, to a record called `N` registered in `P`: qualifying and
   * resolving agree.
   */
  lemma QualifiedNameResolves(nodes: seq<Node>, packages: seq<PackageInfo>, freeRecords: seq<nat>, name: string, ctx: PackageContext)
    requires NamesUndotted(nodes, packages) && '.' !in name
    requires forall c :: c in QualifyCandidates(ctx) ==> '.' !in c
    requires QualifyName(nodes, packages, freeRecords, name, ctx).Ok?
    requires QualifyName(nodes, packages, freeRecords, name, ctx).value != name
    ensures var q := QualifyName(nodes, packages, freeRecords, name, ctx).value;
      var r := LookupRecordType(nodes, packages, Some(q), None);
      r.Ok? && r.value.Some? && nodes[r.value.value].recordName == Some(name)
  {
    var found := QualifyIn(nodes, packages, QualifyCandidates(ctx), name).value;
    var c := found.value;
    var i := FindPackage(packages, c).value;
    var rs := packages[i].records;
    var k :| 0 <= k < |rs| && BaseMatch(nodes, rs[k], name) == Ok(Some(rs[k]));
    assert rs[k] in packages[i].records;
    assert NameMatch(nodes, rs[k], name) == Some(rs[k]);
    LookupQualified(nodes, packages, c, name, None);
  }

  // ---------------------------------------------------------------------------
  // Inherited flats

  /** A flat whose type was declared: neither unresolved nor an inline record. */
  predicate Concrete(nodes: seq<Node>, f: nat) {
    f < |nodes| && nodes[f].Flat? && nodes[f].flatType != Unresolved && nodes[f].flatType != InlineRecord
  }

  /** The record `rec` inherits from, looked up by name in its own context. */
  function ParentRecord(nodes: seq<Node>, packages: seq<PackageInfo>, rec: nat): (r: Result<Option<nat>>)
    requires rec < |nodes| && nodes[rec].Record?
    ensures r.Ok? && r.value.Some? ==> r.value.value < |nodes| && nodes[r.value.value].Record?
  {
    LookupRecordType(nodes, packages, nodes[rec].inheritedFrom, Some(nodes[rec].ctx))
  }

  /**
   * The nearest flat called `name` with a declared type, looking first at
   * record `rec`'s own first flat of that name and then up the chain of
   * records it inherits from, each looked up by name. A record whose parent
   * does not resolve ends the search without a flat. Records already visited
   * on the way are in `visited`; meeting one again is a failure (the chain is
   * cyclic and the walk would not end).
   */
  function FindRootInheritedFlat(nodes: seq<Node>, packages: seq<PackageInfo>, rec: nat, name: string, visited: set<nat>): (r: Result<Option<nat>>)
    requires rec < |nodes| && nodes[rec].Record? && rec !in visited
    requires forall x :: x in visited ==> x < |nodes|
    ensures r.Ok? && r.value.Some? ==> Concrete(nodes, r.value.value) && nodes[r.value.value].name == name
    ensures var own := FirstFlatNamed(nodes, nodes[rec].children, name);
      own.Some? && Concrete(nodes, own.value) ==> r == Ok(own)
    decreases |nodes| - |visited|
  {
    var own := FirstFlatNamed(nodes, nodes[rec].children, name);
    if own.Some? && Concrete(nodes, own.value) then Ok(own)
    else
      var parent :- ParentRecord(nodes, packages, rec);
      if parent.None? then Ok(None)
      else if parent.value in visited + {rec} then Err(Fatal)
      else
        IndicesSize(visited + {rec}, |nodes|);
        FindRootInheritedFlat(nodes, packages, parent.value, name, visited + {rec})
  }

  /** Appending empty packages does not change the record a record's parent name denotes. */
  lemma ParentRecordStable(nodes: seq<Node>, ps: seq<PackageInfo>, qs: seq<PackageInfo>, rec: nat)
    requires EmptyExtension(ps, qs) && rec < |nodes| && nodes[rec].Record?
    ensures ParentRecord(nodes, qs, rec) == ParentRecord(nodes, ps, rec)
  {
    LookupStable(nodes, ps, qs, nodes[rec].inheritedFrom, Some(nodes[rec].ctx));
  }

  /** The root-flat search agrees for two package lists once the parent lookup and the search from the parent agree. */
  lemma FindRootInheritedFlatSameParent(nodes: seq<Node>, ps: seq<PackageInfo>, qs: seq<PackageInfo>,
                                        rec: nat, name: string, visited: set<nat>)
    requires rec < |nodes| && nodes[rec].Record? && rec !in visited
    requires forall x :: x in visited ==> x < |nodes|
    requires ParentRecord(nodes, qs, rec) == ParentRecord(nodes, ps, rec)
    requires var r := ParentRecord(nodes, ps, rec);
      r.Ok? && r.value.Some? && r.value.value !in visited + {rec} ==>
        FindRootInheritedFlat(nodes, qs, r.value.value, name, visited + {rec})
        == FindRootInheritedFlat(nodes, ps, r.value.value, name, visited + {rec})
    ensures FindRootInheritedFlat(nodes, qs, rec, name, visited) == FindRootInheritedFlat(nodes, ps, rec, name, visited)
  {
  }

  /** Appending empty packages does not change the root-flat search. */
  lemma {:induction false} FindRootInheritedFlatStable(nodes: seq<Node>, ps: seq<PackageInfo>, qs: seq<PackageInfo>,
                                                       rec: nat, name: string, visited: set<nat>)
    requires EmptyExtension(ps, qs)
    requires rec < |nodes| && nodes[rec].Record? && rec !in visited
    requires forall x :: x in visited ==> x < |nodes|
    ensures FindRootInheritedFlat(nodes, qs, rec, name, visited) == FindRootInheritedFlat(nodes, ps, rec, name, visited)
    decreases |nodes| - |visited|
  {
    ParentRecordStable(nodes, ps, qs, rec);
    var parent := ParentRecord(nodes, ps, rec);
    if parent.Ok? && parent.value.Some? && parent.value.value !in visited + {rec} {
      IndicesSize(visited + {rec}, |nodes|);
      AddSize(visited, rec);
      FindRootInheritedFlatStable(nodes, ps, qs, parent.value.value, name, visited + {rec});
    }
    FindRootInheritedFlatSameParent(nodes, ps, qs, rec, name, visited);
  }

  /**
   * An inheritance chain for flat `name`: each record's parent resolves to the
   * next, no record before the last has a declared flat of that name of its
   * own, and the records are pairwise different.
   */
  predicate InheritanceChain(nodes: seq<Node>, packages: seq<PackageInfo>, chain: seq<nat>, name: string) {
    |chain| >= 1
    && (forall j :: 0 <= j < |chain| ==> chain[j] < |nodes| && nodes[chain[j]].Record?)
    && (forall j, k :: 0 <= j < k < |chain| ==> chain[j] != chain[k])
    && (forall j :: 0 <= j < |chain| - 1 ==> PassesOn(nodes, packages, chain[j], chain[j + 1], name))
  }

  /** Record `rec` has no declared flat called `name` of its own and inherits from record `next`. */
  predicate PassesOn(nodes: seq<Node>, packages: seq<PackageInfo>, rec: nat, next: nat, name: string) {
    rec < |nodes| && nodes[rec].Record?
    && (var own := FirstFlatNamed(nodes, nodes[rec].children, name);
        !(own.Some? && Concrete(nodes, own.value)))
    && ParentRecord(nodes, packages, rec) == Ok(Some(next))
  }

  /**
   * Along an inheritance chain that ends at a record with a declared flat of
   * that name, the search returns that flat.
   */
  lemma {:induction false} FindRootInheritedFlatFollowsChain(nodes: seq<Node>, packages: seq<PackageInfo>, chain: seq<nat>, name: string, visited: set<nat>)
    requires InheritanceChain(nodes, packages, chain, name)
    requires forall x :: x in visited ==> x < |nodes|
    requires forall j :: 0 <= j < |chain| ==> chain[j] !in visited
    requires var last := chain[|chain| - 1];
      var own := FirstFlatNamed(nodes, nodes[last].children, name); own.Some? && Concrete(nodes, own.value)
    ensures FindRootInheritedFlat(nodes, packages, chain[0], name, visited) ==
      Ok(FirstFlatNamed(nodes, nodes[chain[|chain| - 1]].children, name))
    decreases |chain|
  {
    if |chain| > 1 {
      ChainStep(nodes, packages, chain, name);
      var tail := chain[1..];
      forall j | 0 <= j < |tail| ensures tail[j] !in visited + {chain[0]} {
        assert tail[j] == chain[j + 1];
      }
      assert chain[0] !in visited;
      FindRootInheritedFlatFollowsChain(nodes, packages, tail, name, visited + {chain[0]});
    }
  }

  /** The first step of a chain longer than one record, and the chain that remains. */
  lemma ChainStep(nodes: seq<Node>, packages: seq<PackageInfo>, chain: seq<nat>, name: string)
    requires InheritanceChain(nodes, packages, chain, name) && |chain| > 1
    ensures PassesOn(nodes, packages, chain[0], chain[1], name)
    ensures forall j :: 1 <= j < |chain| ==> chain[j] != chain[0]
    ensures InheritanceChain(nodes, packages, chain[1..], name)
  {
    var tail := chain[1..];
    forall j, k | 0 <= j < k < |tail| ensures tail[j] != tail[k] {
      assert tail[j] == chain[j + 1] && tail[k] == chain[k + 1];
    }
    forall j | 0 <= j < |tail| - 1 ensures PassesOn(nodes, packages, tail[j], tail[j + 1], name) {
      assert tail[j] == chain[j + 1] && tail[j + 1] == chain[j + 2];
    }
  }

  /** `EmptyExtension` composes: appending empty packages twice appends empty packages. */
  lemma EmptyExtensionTrans(a: seq<PackageInfo>, b: seq<PackageInfo>, c: seq<PackageInfo>)
    requires EmptyExtension(a, b) && EmptyExtension(b, c)
    ensures EmptyExtension(a, c)
  {
    assert c[..|a|] == c[..|b|][..|a|];
    forall j | |a| <= j < |c| ensures c[j].records == [] && c[j].flats == [] {
      if j < |b| {
        assert c[j] == c[..|b|][j];
      }
    }
  }

  /** The part of a declaration name that selects its package, if any; two or more dots are an error. */
  function DeclarationPackageName(name: Option<string>, ctx: PackageContext): (r: Result<Option<string>>)
    ensures name.None? ==> r == Ok(None)
    ensures name.Some? && '.' !in name.value ==> r == Ok(ctx.name)
    ensures r.Err? <==> name.Some? && Count(name.value, '.') >= 2
  {
    if name.None? then Ok(None)
    else if '.' in name.value then
      var ids := Split(name.value, '.');
      SplitCount(name.value, '.');
      CountZero(name.value, '.');
      if |ids| > 2 then Err(Fatal) else Ok(Some(ids[0]))
    else
      CountZero(name.value, '.');
      Ok(ctx.name)
  }

  /** `P.N` declares into package `P`. */
  lemma DeclarationPackageQualified(p: string, n: string, ctx: PackageContext)
    requires '.' !in p && '.' !in n
    ensures DeclarationPackageName(Some(p + "." + n), ctx) == Ok(Some(p))
  {
    SplitQualified(p, n, '.');
    assert (p + "." + n)[|p|] == '.';
  }

  /**
   * The registry shared by all analysed files. The node arena is `graph`; the
   * registry only ever appends: packages, records and flats registered under
   * packages, free records and flats, and file roots.
   */
  class GlobalContext {
    const graph: Graph
    var packages: seq<PackageInfo>
    var rootNodes: seq<(string, nat)>
    var freeRecords: seq<nat>
    var freeFlats: seq<nat>

    ghost predicate Valid()
      reads this, graph
    {
      graph.Valid() && RegistryOk(graph.nodes, |graph.roots|, packages, rootNodes, freeRecords, freeFlats)
    }

    constructor (g: Graph)
      requires g.Valid()
      ensures graph == g && packages == [] && rootNodes == [] && freeRecords == [] && freeFlats == []
      ensures Valid()
    {
      graph := g;
      packages := [];
      rootNodes := [];
      freeRecords := [];
      freeFlats := [];
    }

    /** The package called `name`, appended empty when there is none yet. */
    method GetPackage(name: string) returns (i: nat)
      requires Valid()
      modifies this
      ensures Valid() && packages == WithPackage(old(packages), name) && FindPackage(packages, name) == Some(i)
      ensures rootNodes == old(rootNodes) && freeRecords == old(freeRecords) && freeFlats == old(freeFlats)
    {
      for k := 0 to |packages|
        invariant forall j :: 0 <= j < k ==> packages[j].name != name
      {
        if packages[k].name == name {
          return k;
        }
      }
      packages := packages + [PackageInfo(name, [], [])];
      i := |packages| - 1;
      assert packages[i].name == name;
    }

    /**
     * The package a declaration goes into: the one its dotted name names, else
     * the file's own package, created when missing; none for an absent name
     * or an undotted name in a file without a package.
     */
    method ResolveDeclarationPackage(name: Option<string>, ctx: PackageContext) returns (r: Result<Option<nat>>)
      requires Valid()
      modifies this
      ensures Valid() && rootNodes == old(rootNodes) && freeRecords == old(freeRecords) && freeFlats == old(freeFlats)
      ensures r.Err? <==> DeclarationPackageName(name, ctx).Err?
      ensures r.Ok? && r.value.None? ==> DeclarationPackageName(name, ctx) == Ok(None) && packages == old(packages)
      ensures r.Ok? && r.value.Some? ==> (DeclarationPackageName(name, ctx).Ok?
        && DeclarationPackageName(name, ctx).value.Some?
        && var p := DeclarationPackageName(name, ctx).value.value;
        packages == WithPackage(old(packages), p) && FindPackage(packages, p) == r.value)
      ensures DeclarationPackageName(name, ctx).Ok? && DeclarationPackageName(name, ctx).value.Some? ==> r.Ok? && r.value.Some?
    {
      var p := DeclarationPackageName(name, ctx);
      if p.Err? {
        return Err(p.error);
      }
      if p.value.None? {
        return Ok(None);
      }
      var i := GetPackage(p.value.value);
      return Ok(Some(i));
    }

    /**
     * The record a type name denotes, as `LookupRecordType` says, asking for
     * every package it looks into; the packages that asking creates are empty,
     * so later lookups answer as before.
     */
    method ResolveRecordType(t: Option<string>, ctx: Option<PackageContext>) returns (r: Result<Option<nat>>)
      requires Valid()
      modifies this
      ensures Valid() && rootNodes == old(rootNodes) && freeRecords == old(freeRecords) && freeFlats == old(freeFlats)
      ensures r == LookupRecordType(graph.nodes, old(packages), t, ctx)
      ensures EmptyExtension(old(packages), packages)
    {
      if t.None? {
        return Ok(None);
      }
      var name := t.value;
      if '.' in name {
        r := ResolveQualified(name, ctx);
      } else if ctx.None? {
        return Ok(None);
      } else {
        r := ResolveUnqualified(name, ctx.value);
        LookupUnqualified(graph.nodes, old(packages), name, ctx.value);
      }
    }

    method ResolveQualified(name: string, ctx: Option<PackageContext>) returns (r: Result<Option<nat>>)
      requires Valid() && '.' in name
      modifies this
      ensures Valid() && rootNodes == old(rootNodes) && freeRecords == old(freeRecords) && freeFlats == old(freeFlats)
      ensures r == LookupRecordType(graph.nodes, old(packages), Some(name), ctx)
      ensures EmptyExtension(old(packages), packages)
    {
      var ids := Split(name, '.');
      SplitCount(name, '.');
      CountZero(name, '.');
      if |ids| > 2 {
        return Err(Fatal);
      }
      var i := GetPackage(ids[0]);
      r := FirstNamedIn(i, ids[1]);
      FindPackageExtended(old(packages), packages, ids[0]);
    }

    method ResolveUnqualified(name: string, ctx: PackageContext) returns (r: Result<Option<nat>>)
      requires Valid() && '.' !in name
      modifies this
      ensures Valid() && rootNodes == old(rootNodes) && freeRecords == old(freeRecords) && freeFlats == old(freeFlats)
      ensures r == SearchByBaseName(graph.nodes, old(packages), LookupCandidates(ctx), name)
      ensures EmptyExtension(old(packages), packages)
    {
      var nodes := graph.nodes;
      var cands := LookupCandidates(ctx);
      ghost var p0 := packages;
      ghost var answers := PackageAnswers(nodes, p0, cands, name);
      for c := 0 to |cands|
        invariant Valid() && EmptyExtension(p0, packages)
        invariant rootNodes == old(rootNodes) && freeRecords == old(freeRecords) && freeFlats == old(freeFlats)
        invariant NoAnswerBefore(answers, c)
      {
        var m := ProbePackage(cands[c], name, p0);
        assert m == answers[c];
        if m != Ok(None) {
          FirstAnswerAt(answers, c);
          return m;
        }
        NoAnswerStep(answers, c);
      }
      NoAnswerAll(answers);
      return Ok(None);
    }

    /** Asks for package `c` and answers how it matches `t` by base name, as it did before any empty package was added. */
    method ProbePackage(c: string, t: string, ghost p0: seq<PackageInfo>) returns (m: Result<Option<nat>>)
      requires Valid() && EmptyExtension(p0, packages)
      modifies this
      ensures Valid() && rootNodes == old(rootNodes) && freeRecords == old(freeRecords) && freeFlats == old(freeFlats)
      ensures EmptyExtension(p0, packages)
      ensures m == PackageMatch(graph.nodes, p0, c, t)
    {
      var i := GetPackage(c);
      EmptyExtensionTrans(p0, old(packages), packages);
      PackageMatchStable(graph.nodes, p0, packages, c, t);
      m := FirstBaseMatchIn(i, t);
    }

    /** The first record registered in package `i` called exactly `n`. */
    method FirstNamedIn(i: nat, n: string) returns (r: Result<Option<nat>>)
      requires Valid() && i < |packages|
      ensures r == Ok(FirstRecordNamed(graph.nodes, packages[i].records, n))
    {
      var rs := packages[i].records;
      for k := 0 to |rs|
        invariant forall j :: 0 <= j < k ==> NameMatch(graph.nodes, rs[j], n).None?
      {
        assert rs[k] in rs;
        if graph.nodes[rs[k]].recordName == Some(n) {
          assert NameMatch(graph.nodes, rs[k], n) == Some(rs[k]);
          return Ok(Some(rs[k]));
        }
      }
      return Ok(None);
    }

    /** The first record registered in package `i` whose base name fails or is `t`. */
    method FirstBaseMatchIn(i: nat, t: string) returns (r: Result<Option<nat>>)
      requires Valid() && i < |packages|
      ensures r == FirstWithBaseName(graph.nodes, packages[i].records, t)
    {
      var rs := packages[i].records;
      for k := 0 to |rs|
        invariant forall j :: 0 <= j < k ==> BaseMatch(graph.nodes, rs[j], t) == Ok(None)
      {
        assert rs[k] in rs;
        var b := BaseName(graph.nodes[rs[k]].recordName);
        if b.Err? {
          FirstWithBaseNameAt(graph.nodes, rs, t, k);
          return Err(b.error);
        }
        if b.value == Some(t) {
          FirstWithBaseNameAt(graph.nodes, rs, t, k);
          return Ok(Some(rs[k]));
        }
      }
      return Ok(None);
    }
  }
}
