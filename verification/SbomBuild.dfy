/** Building the release SBOM: merge the platforms, aggregate, validate. */
module SbomBuild {
  import opened Common
  import opened Sbom
  import opened SbomPlatform
  import opened SbomAggregate
  import opened SbomTools
  import opened SbomRelease
  import SbomExact

  /** The elements of a set in some order, each once. */
  method Enumerate<T(==, !new)>(s: set<T>) returns (q: seq<T>)
    ensures NoRepeats(q) && forall x :: x in q <==> x in s
  {
    q := [];
    var todo := s;
    while todo != {}
      invariant NoRepeats(q) && todo <= s
      invariant forall x :: x in q <==> x in s - todo
      decreases todo
    {
      var x :| x in todo;
      assert x !in q;
      q, todo := q + [x], todo - {x};
    }
  }

  ghost predicate MapsDisagree(maps: seq<map<string, string>>) {
    exists i, j, k :: 0 <= i < |maps| && 0 <= j < |maps| && k in maps[i] && k in maps[j] && maps[i][k] != maps[j][k]
  }

  /** Merging dictionaries that must agree on common keys (artifact digests across platforms,
      installed versions across platforms). */
  method Merge(maps: seq<map<string, string>>) returns (o: Option<map<string, string>>)
    ensures o.Some? ==> MergedMap(maps, o.value)
    ensures o.None? ==> MapsDisagree(maps)
  {
    var m: map<string, string> := map[];
    for i := 0 to |maps|
      invariant forall j, k :: 0 <= j < i && k in maps[j] ==> k in m && m[k] == maps[j][k]
      invariant forall k :: k in m ==> exists j :: 0 <= j < i && k in maps[j]
    {
      if k :| k in maps[i] && k in m && m[k] != maps[i][k] {
        ghost var j :| 0 <= j < i && k in maps[j];
        assert maps[j][k] != maps[i][k];
        return None;
      }
      m := m + maps[i];
    }
    return Some(m);
  }

  // ---------- the carried components ----------

  predicate HasRef(c: Component) { c.bomRef.Some? && c.bomRef.value != "" }

  /** The two tables of the aggregator hold exactly the components seen. */
  ghost predicate Tabled(seen: set<Component>, referenced: map<string, Component>, loose: set<Component>) {
    && (forall c :: c in seen && HasRef(c) ==> c.bomRef.value in referenced && referenced[c.bomRef.value] == c)
    && (forall c :: c in loose <==> c in seen && !HasRef(c))
    && (forall r ::
         r in referenced ==> referenced[r] in seen && HasRef(referenced[r]) && referenced[r].bomRef.value == r)
  }

  function CarriedFromCandidates(cs: seq<Candidate>): set<Component> {
    set k | k in cs && !IsArtifact(k.component) :: Stripped(k.component)
  }

  /** One platform's components; it raises when a reference is already bound to another component. */
  method CarryPlatform(cs: seq<Candidate>, ghost seen: set<Component>, referenced: map<string, Component>,
                       loose: set<Component>)
    returns (ok: bool, referenced': map<string, Component>, loose': set<Component>)
    requires Tabled(seen, referenced, loose)
    ensures ok ==> Tabled(seen + CarriedFromCandidates(cs), referenced', loose')
    ensures !ok ==> exists c, d ::
      c in seen + CarriedFromCandidates(cs) && d in CarriedFromCandidates(cs) && SameRef(c, d) && c != d
  {
    referenced', loose' := referenced, loose;
    ghost var now := seen;
    assert CarriedFromCandidates(cs[..0]) == {};
    for i := 0 to |cs|
      invariant now == seen + CarriedFromCandidates(cs[..i])
      invariant Tabled(now, referenced', loose')
    {
      var k := cs[i];
      assert cs[..i + 1] == cs[..i] + [k];
      CarryGrows(cs[..i], k);
      CarryPrefix(cs, i);
      if IsArtifact(k.component) {
        continue;
      }
      var c := Stripped(k.component);
      assert k in cs;
      now := now + {c};
      if HasRef(c) {
        var r := c.bomRef.value;
        if r in referenced' && referenced'[r] != c {
          assert SameRef(referenced'[r], c);
          return false, referenced', loose';
        }
        referenced' := referenced'[r := c];
      } else {
        loose' := loose' + {c};
      }
    }
    assert cs[..|cs|] == cs;
    ok := true;
  }

  lemma CarryGrows(cs: seq<Candidate>, k: Candidate)
    ensures CarriedFromCandidates(cs + [k]) ==
      CarriedFromCandidates(cs) + (if IsArtifact(k.component) then {} else {Stripped(k.component)})
  {
    assert k in cs + [k];
    assert forall m :: m in cs ==> m in cs + [k];
  }

  lemma CarryPrefix(cs: seq<Candidate>, i: nat)
    requires i <= |cs|
    ensures CarriedFromCandidates(cs[..i]) <= CarriedFromCandidates(cs)
  {
    assert forall m :: m in cs[..i] ==> m in cs;
  }

  lemma CarriedStep(platforms: seq<Platform>, p: Platform)
    ensures Carried(platforms + [p]) == Carried(platforms) + CarriedFromCandidates(Cands(p))
  {
    assert p in platforms + [p];
    assert forall q :: q in platforms ==> q in platforms + [p];
  }

  lemma CarriedHas(platforms: seq<Platform>, p: Platform)
    requires p in platforms
    ensures CarriedFromCandidates(Cands(p)) <= Carried(platforms)
  {
  }

  // ---------- the merged dependency graph ----------

  function MergeGraphs(g: map<string, set<string>>, h: map<string, set<string>>): map<string, set<string>> {
    map x | x in g.Keys + h.Keys :: Lookup(g, x) + Lookup(h, x)
  }

  /** The graph collected so far. */
  ghost predicate Collected(platforms: seq<Platform>, g: map<string, set<string>>) {
    && (forall x :: x in g <==> SomeRow(platforms, x))
    && (forall x :: Lookup(g, x) == UnionDeps(platforms, x))
  }

  lemma CollectedStep(platforms: seq<Platform>, p: Platform, g: map<string, set<string>>, h: map<string, set<string>>)
    requires Collected(platforms, g) && GraphTable(Rows(p), h)
    ensures Collected(platforms + [p], MergeGraphs(g, h))
  {
    var next := platforms + [p];
    assert p in next && forall q :: q in platforms ==> q in next;
    forall x
      ensures SomeRow(next, x) <==> SomeRow(platforms, x) || HasRow(Rows(p), x)
      ensures UnionDeps(next, x) == UnionDeps(platforms, x) + Deps(Rows(p), x)
    {
    }
    forall x
      ensures Lookup(MergeGraphs(g, h), x) == Lookup(g, x) + Lookup(h, x)
    {
    }
  }

  /** What `_sbom_dependency_graph` demands of one payload. */
  ghost predicate Graphable(n: Naming, s: Bom) {
    Formatted(s) && RefsOk(n, Candidates(s)) && GraphOk(Candidates(s), s.dependencies)
  }

  method PlatformGraph(n: Naming, s: Bom) returns (ok: bool, graph: map<string, set<string>>)
    ensures ok <==> Graphable(n, s)
    ensures ok ==> GraphTable(s.dependencies, graph)
  {
    if !Formatted(s) {
      return false, map[];
    }
    var references, byName;
    ok, references, byName := ComponentReferences(n, Candidates(s));
    if !ok {
      return false, map[];
    }
    ok, graph := DependencyGraph(Candidates(s), s.dependencies);
  }

  /** The final graph as rows, the bundle row replacing whatever was there. */
  method GraphRows(g: map<string, set<string>>) returns (rows: seq<Row>)
    ensures RowsDistinct(rows)
    ensures forall r :: r in rows ==> NoRepeats(r.dependsOn)
    ensures forall x :: HasRow(rows, x) <==> x in g
    ensures forall x :: Deps(rows, x) == Lookup(g, x)
  {
    var keys := Enumerate(g.Keys);
    rows := [];
    for i := 0 to |keys|
      invariant |rows| == i
      invariant forall j :: 0 <= j < i ==> rows[j].ref == keys[j] && NoRepeats(rows[j].dependsOn)
      invariant forall j, x :: 0 <= j < i ==> (x in rows[j].dependsOn <==> x in g[keys[j]])
    {
      assert keys[i] in keys;
      var targets := Enumerate(g[keys[i]]);
      rows := rows + [Row(keys[i], targets)];
    }
    RowsFromKeys(g, keys, rows);
  }

  lemma RowsFromKeys(g: map<string, set<string>>, keys: seq<string>, rows: seq<Row>)
    requires NoRepeats(keys) && (forall x :: x in keys <==> x in g) && |rows| == |keys|
    requires forall j :: 0 <= j < |keys| ==> rows[j].ref == keys[j] && keys[j] in g
    requires forall j, x :: 0 <= j < |keys| ==> (x in rows[j].dependsOn <==> x in g[keys[j]])
    ensures forall x :: HasRow(rows, x) <==> x in g
    ensures forall x :: Deps(rows, x) == Lookup(g, x)
  {
    forall x
      ensures HasRow(rows, x) <==> x in g
      ensures Deps(rows, x) == Lookup(g, x)
    {
      if x in g {
        var j :| 0 <= j < |keys| && keys[j] == x;
        assert rows[j].ref == x && rows[j] in rows;
        forall r | r in rows && r.ref == x
          ensures r == rows[j]
        {
          var m :| 0 <= m < |rows| && rows[m] == r;
          assert keys[m] == keys[j];
        }
      } else {
        forall r | r in rows
          ensures r.ref != x
        {
          var m :| 0 <= m < |rows| && rows[m] == r;
          assert keys[m] in keys;
        }
      }
    }
  }

  /** The carried components followed by one component for each release artifact. */
  method ReleaseList(n: Naming, carried: set<Component>, artifacts: map<string, string>) returns (comps: seq<Component>)
    requires forall c :: c in carried ==> !IsArtifact(c)
    ensures NoRepeats(comps) && forall c :: c in comps <==> c in carried + Released(n, artifacts)
  {
    comps := Enumerate(carried);
    var files := Enumerate(artifacts.Keys);
    for i := 0 to |files|
      invariant NoRepeats(comps)
      invariant forall c :: c in comps <==> c in carried || ReleasedIn(n, artifacts, files[..i], c)
    {
      assert files[i] in files;
      var c := ReleaseComponent(n, files[i], artifacts[files[i]]);
      assert files[..i + 1] == files[..i] + [files[i]];
      assert IsArtifact(c);
      FreshRelease(n, artifacts, files, i);
      assert c !in comps;
      ReleasedStep(n, artifacts, files[..i], files[i]);
      comps := comps + [c];
    }
    assert files[..|files|] == files;
    forall c
      ensures ReleasedIn(n, artifacts, files, c) <==> c in Released(n, artifacts)
    {
    }
  }

  lemma FreshRelease(n: Naming, artifacts: map<string, string>, files: seq<string>, i: nat)
    requires NoRepeats(files) && i < |files| && files[i] in artifacts
    ensures !ReleasedIn(n, artifacts, files[..i], ReleaseComponent(n, files[i], artifacts[files[i]]))
  {
    forall f | f in files[..i]
      ensures f != files[i]
    {
      var j :| 0 <= j < i && files[..i][j] == f;
    }
  }

  ghost predicate ReleasedIn(n: Naming, artifacts: map<string, string>, files: seq<string>, c: Component) {
    exists f :: f in files && f in artifacts && c == ReleaseComponent(n, f, artifacts[f])
  }

  lemma ReleasedStep(n: Naming, artifacts: map<string, string>, files: seq<string>, g: string)
    requires g in artifacts
    ensures forall c :: ReleasedIn(n, artifacts, files + [g], c) <==>
      (ReleasedIn(n, artifacts, files, c) || c == ReleaseComponent(n, g, artifacts[g]))
  {
    assert g in files + [g];
    assert forall f :: f in files ==> f in files + [g];
  }

  /** Why aggregation may raise. */
  ghost predicate CannotAggregate(n: Naming, platforms: seq<Platform>, artifacts: map<string, string>) {
    || !RefAgreement(platforms)
    || (exists p :: p in platforms && !Graphable(n, p.sbom))
    || (exists f :: f in artifacts && n.identity(f).None?)
  }

  /** The first half of `_aggregate_sbom`: the tables over all platforms. */
  method CollectPlatforms(n: Naming, platforms: seq<Platform>)
    returns (ok: bool, referenced: map<string, Component>, loose: set<Component>, graph: map<string, set<string>>)
    ensures ok ==> Tabled(Carried(platforms), referenced, loose) && Collected(platforms, graph)
    ensures ok ==> forall p :: p in platforms ==> Graphable(n, p.sbom)
    ensures !ok ==> !RefAgreement(platforms) || exists p :: p in platforms && !Graphable(n, p.sbom)
  {
    referenced, loose, graph := map[], {}, map[];
    assert platforms[..0] == [];
    for i := 0 to |platforms|
      invariant Tabled(Carried(platforms[..i]), referenced, loose)
      invariant Collected(platforms[..i], graph)
      invariant forall p :: p in platforms[..i] ==> Graphable(n, p.sbom)
    {
      var p := platforms[i];
      assert p in platforms;
      ghost var before := Carried(platforms[..i]);
      ok, referenced, loose := CarryPlatform(Cands(p), before, referenced, loose);
      if !ok {
        CarriedHas(platforms, p);
        CarriedMonotone(platforms, i);
        return;
      }
      var h;
      ok, h := PlatformGraph(n, p.sbom);
      if !ok {
        return;
      }
      CarriedStep(platforms[..i], p);
      CollectedStep(platforms[..i], p, graph, h);
      assert platforms[..i + 1] == platforms[..i] + [p];
      graph := MergeGraphs(graph, h);
    }
    assert platforms[..|platforms|] == platforms;
    ok := true;
  }

  lemma CarriedMonotone(platforms: seq<Platform>, i: nat)
    requires i <= |platforms|
    ensures Carried(platforms[..i]) <= Carried(platforms)
  {
    assert forall p :: p in platforms[..i] ==> p in platforms;
  }

  lemma TabledAgree(platforms: seq<Platform>, referenced: map<string, Component>, loose: set<Component>)
    requires Tabled(Carried(platforms), referenced, loose)
    ensures RefAgreement(platforms)
    ensures loose + referenced.Values == Carried(platforms)
  {
    forall c | c in Carried(platforms)
      ensures c in loose + referenced.Values
    {
      if HasRef(c) {
        assert referenced[c.bomRef.value] == c;
      }
    }
  }

  function WithReleases(graph: map<string, set<string>>, refs: set<string>): map<string, set<string>> {
    (map x | x in graph.Keys + refs :: Lookup(graph, x))[BUNDLE_REF := refs]
  }

  lemma FinalRows(platforms: seq<Platform>, artifacts: map<string, string>, graph: map<string, set<string>>,
                  rows: seq<Row>)
    requires Collected(platforms, graph) && RowsDistinct(rows)
    requires forall r :: r in rows ==> NoRepeats(r.dependsOn)
    requires var g := WithReleases(graph, ReleaseRefs(artifacts));
      (forall x :: HasRow(rows, x) <==> x in g) && (forall x :: Deps(rows, x) == Lookup(g, x))
    ensures AggregateRows(platforms, artifacts, rows)
  {
    var refs := ReleaseRefs(artifacts);
    var g := WithReleases(graph, refs);
    forall x
      ensures Lookup(g, x) == if x == BUNDLE_REF then refs else Lookup(graph, x)
    {
    }
  }

  /** `_aggregate_sbom`: the lists come in some order. */
  method Aggregate(n: Naming, platforms: seq<Platform>, artifacts: map<string, string>) returns (o: Option<Bom>)
    ensures o.Some? ==> IsAggregate(n, platforms, artifacts, o.value)
    ensures o.None? <==> CannotAggregate(n, platforms, artifacts)
  {
    var ok, referenced, loose, graph := CollectPlatforms(n, platforms);
    if !ok {
      return None;
    }
    if f :| f in artifacts && n.identity(f).None? {
      return None;
    }
    TabledAgree(platforms, referenced, loose);
    var carried := loose + referenced.Values;
    assert forall c :: c in carried ==> !IsArtifact(c) by {
      forall c | c in carried ensures !IsArtifact(c) {
        var p, k :| p in platforms && k in Cands(p) && !IsArtifact(k.component) && c == Stripped(k.component);
        StrippedKeeps(k.component);
      }
    }
    var comps := ReleaseList(n, carried, artifacts);
    var rows := GraphRows(WithReleases(graph, ReleaseRefs(artifacts)));
    FinalRows(platforms, artifacts, graph, rows);
    return Some(Bom("CycloneDX", "1.6", comps, Some(DOCUMENT), rows));
  }

  // ---------- every list of platforms has an aggregate ----------

  lemma {:induction false} RowsListed(g: map<string, set<string>>, keys: seq<string>) returns (rows: seq<Row>)
    requires forall x :: x in keys ==> x in g
    ensures |rows| == |keys|
    ensures forall j :: 0 <= j < |keys| ==> rows[j].ref == keys[j] && NoRepeats(rows[j].dependsOn)
    ensures forall j, x :: 0 <= j < |keys| ==> (x in rows[j].dependsOn <==> x in g[keys[j]])
    decreases |keys|
  {
    if keys == [] {
      rows := [];
    } else {
      var n := |keys| - 1;
      assert keys[n] in keys && forall x :: x in keys[..n] ==> x in keys;
      var front := RowsListed(g, keys[..n]);
      var targets := InSomeOrder(g[keys[n]]);
      rows := front + [Row(keys[n], targets)];
    }
  }

  function RowRefs(platforms: seq<Platform>): set<string> { set p, r | p in platforms && r in Rows(p) :: r.ref }

  function AggregateGraph(platforms: seq<Platform>, artifacts: map<string, string>): map<string, set<string>> {
    map x | x in {BUNDLE_REF} + ReleaseRefs(artifacts) + RowRefs(platforms) ::
      if x == BUNDLE_REF then ReleaseRefs(artifacts) else UnionDeps(platforms, x)
  }

  lemma AggregateGraphRows(platforms: seq<Platform>, artifacts: map<string, string>, x: string)
    ensures x in RowRefs(platforms) <==> SomeRow(platforms, x)
    ensures Lookup(AggregateGraph(platforms, artifacts), x) ==
            if x == BUNDLE_REF then ReleaseRefs(artifacts) else UnionDeps(platforms, x)
  {
    if x in RowRefs(platforms) {
      var p, r :| p in platforms && r in Rows(p) && r.ref == x;
      var i :| 0 <= i < |Rows(p)| && Rows(p)[i] == r;
      assert HasRow(Rows(p), x);
    }
    if SomeRow(platforms, x) {
      var p :| p in platforms && HasRow(Rows(p), x);
      var i :| 0 <= i < |Rows(p)| && Rows(p)[i].ref == x;
      assert Rows(p)[i] in Rows(p);
    } else {
      assert forall p, r :: p in platforms && r in Rows(p) ==> r.ref != x;
    }
  }

  /** Some SBOM is an aggregate of the platforms. */
  lemma AggregateExists(n: Naming, platforms: seq<Platform>, artifacts: map<string, string>) returns (s: Bom)
    ensures IsAggregate(n, platforms, artifacts, s)
  {
    var g := AggregateGraph(platforms, artifacts);
    var keys := InSomeOrder(g.Keys);
    var rows := RowsListed(g, keys);
    RowsFromKeys(g, keys, rows);
    forall x
      ensures HasRow(rows, x) <==> x == BUNDLE_REF || x in ReleaseRefs(artifacts) || SomeRow(platforms, x)
      ensures Deps(rows, x) == if x == BUNDLE_REF then ReleaseRefs(artifacts) else UnionDeps(platforms, x)
    {
      AggregateGraphRows(platforms, artifacts, x);
    }
    var components := InSomeOrder(Carried(platforms) + Released(n, artifacts));
    s := Bom("CycloneDX", "1.6", components, Some(DOCUMENT), rows);
  }

  // ---------- the release step ----------

  datatype BuildResult = Built(sbom: Bom, artifacts: map<string, string>, installed: map<string, string>)
    | ArtifactsDiffer | VersionsDiffer | NotAggregated | NotValid

  lemma MergedPair(platforms: seq<Platform>, artifacts: map<string, string>, installed: map<string, string>)
    requires MergedMap(ArtifactMaps(platforms), artifacts) && MergedMap(InstalledMaps(platforms), installed)
    ensures Merged(platforms, artifacts, installed)
  {
    var am, im := ArtifactMaps(platforms), InstalledMaps(platforms);
    forall p | p in platforms
      ensures forall f :: f in p.artifacts ==> f in artifacts && artifacts[f] == p.artifacts[f]
      ensures forall d :: d in p.installed ==> d in installed && installed[d] == p.installed[d]
    {
      var i :| 0 <= i < |platforms| && platforms[i] == p;
      assert am[i] == p.artifacts && im[i] == p.installed;
    }
    forall f | f in artifacts
      ensures exists p :: p in platforms && f in p.artifacts
    {
      var i :| 0 <= i < |am| && f in am[i];
      assert platforms[i] in platforms;
    }
    forall d | d in installed
      ensures exists p :: p in platforms && d in p.installed
    {
      var i :| 0 <= i < |im| && d in im[i];
      assert platforms[i] in platforms;
    }
  }

  /** Two platforms have a file of the same name with different digests. */
  ghost predicate ArtifactsDisagree(platforms: seq<Platform>) {
    exists p, q, f ::
      p in platforms && q in platforms && f in p.artifacts && f in q.artifacts && p.artifacts[f] != q.artifacts[f]
  }

  /** Two platforms have different versions of a distribution installed. */
  ghost predicate VersionsDisagree(platforms: seq<Platform>) {
    exists p, q, d ::
      p in platforms && q in platforms && d in p.installed && d in q.installed && p.installed[d] != q.installed[d]
  }

  lemma ArtifactsMerge(platforms: seq<Platform>, o: Option<map<string, string>>)
    requires o.Some? ==> MergedMap(ArtifactMaps(platforms), o.value)
    requires o.None? ==> MapsDisagree(ArtifactMaps(platforms))
    ensures o.None? <==> ArtifactsDisagree(platforms)
  {
    var maps := ArtifactMaps(platforms);
    if o.None? {
      var i, j, k :|
        0 <= i < |maps| && 0 <= j < |maps| && k in maps[i] && k in maps[j] && maps[i][k] != maps[j][k];
      assert platforms[i] in platforms && platforms[j] in platforms;
    } else {
      forall p, f | p in platforms && f in p.artifacts ensures f in o.value && p.artifacts[f] == o.value[f] {
        var i :| 0 <= i < |platforms| && platforms[i] == p;
        assert f in maps[i];
      }
      forall p, q, f | p in platforms && q in platforms && f in p.artifacts && f in q.artifacts
        ensures p.artifacts[f] == q.artifacts[f]
      {
        assert o.value[f] == p.artifacts[f];
      }
    }
  }

  lemma VersionsMerge(platforms: seq<Platform>, o: Option<map<string, string>>)
    requires o.Some? ==> MergedMap(InstalledMaps(platforms), o.value)
    requires o.None? ==> MapsDisagree(InstalledMaps(platforms))
    ensures o.None? <==> VersionsDisagree(platforms)
  {
    var maps := InstalledMaps(platforms);
    if o.None? {
      var i, j, k :|
        0 <= i < |maps| && 0 <= j < |maps| && k in maps[i] && k in maps[j] && maps[i][k] != maps[j][k];
      assert platforms[i] in platforms && platforms[j] in platforms;
    } else {
      forall p, d | p in platforms && d in p.installed ensures d in o.value && p.installed[d] == o.value[d] {
        var i :| 0 <= i < |platforms| && platforms[i] == p;
        assert d in maps[i];
      }
      forall p, q, d | p in platforms && q in platforms && d in p.installed && d in q.installed
        ensures p.installed[d] == q.installed[d]
      {
        assert o.value[d] == p.installed[d];
      }
    }
  }

  /** The merged artifacts are determined by the platforms. */
  lemma MergedArtifactsUnique(platforms: seq<Platform>, a: map<string, string>, b: map<string, string>,
                              v: map<string, string>, w: map<string, string>)
    requires Merged(platforms, a, v) && Merged(platforms, b, w)
    ensures a == b
  {
    forall f ensures f in a ==> f in b && a[f] == b[f] {
      if f in a {
        var p :| p in platforms && f in p.artifacts;
      }
    }
    forall f ensures f in b ==> f in a {
      if f in b {
        var p :| p in platforms && f in p.artifacts;
      }
    }
    assert a.Keys == b.Keys;
  }

  lemma DisagreeingDoNotMerge(platforms: seq<Platform>, artifacts: map<string, string>, installed: map<string, string>)
    requires Merged(platforms, artifacts, installed)
    ensures !ArtifactsDisagree(platforms) && !VersionsDisagree(platforms)
  {
    forall p, q, f | p in platforms && q in platforms && f in p.artifacts && f in q.artifacts
      ensures p.artifacts[f] == q.artifacts[f]
    {
      assert artifacts[f] == p.artifacts[f];
    }
    forall p, q, d | p in platforms && q in platforms && d in p.installed && d in q.installed
      ensures p.installed[d] == q.installed[d]
    {
      assert installed[d] == p.installed[d];
    }
  }

  /** The tables of a valid SBOM can be built. */
  lemma ValidIsGraphable(n: Naming, fp: FirstParty, p: Platform)
    requires Valid(n, fp, p.sbom, p.artifacts, p.installed)
    ensures Graphable(n, p.sbom)
    ensures forall f :: f in p.artifacts ==> n.identity(f).Some?
  {
  }

  ghost predicate AllGraphable(n: Naming, platforms: seq<Platform>) {
    forall p :: p in platforms ==> Graphable(n, p.sbom) && forall f :: f in p.artifacts ==> n.identity(f).Some?
  }

  lemma VerifiedIsGraphable(n: Naming, fp: FirstParty, platforms: seq<Platform>)
    requires SbomExact.Verified(n, fp, platforms)
    ensures AllGraphable(n, platforms)
  {
    forall p | p in platforms
      ensures Graphable(n, p.sbom) && forall f :: f in p.artifacts ==> n.identity(f).Some?
    {
      ValidIsGraphable(n, fp, p);
    }
  }

  /** Over such platforms, aggregation fails only when they disagree on a reference. */
  lemma GraphableAggregates(n: Naming, platforms: seq<Platform>, artifacts: map<string, string>,
                            installed: map<string, string>)
    requires AllGraphable(n, platforms) && Merged(platforms, artifacts, installed)
    ensures CannotAggregate(n, platforms, artifacts) <==> !RefAgreement(platforms)
  {
    forall f | f in artifacts ensures n.identity(f).Some? {
      var p :| p in platforms && f in p.artifacts;
    }
  }

  /** The platforms merge into something that can be released. */
  ghost predicate Releasable(n: Naming, platforms: seq<Platform>) {
    exists artifacts, installed ::
      Merged(platforms, artifacts, installed) && SbomExact.Compatible(n, platforms, artifacts)
  }

  lemma ReleasableIff(n: Naming, platforms: seq<Platform>, artifacts: map<string, string>,
                      installed: map<string, string>)
    requires Merged(platforms, artifacts, installed)
    ensures Releasable(n, platforms) <==> SbomExact.Compatible(n, platforms, artifacts)
  {
    if Releasable(n, platforms) {
      var a, v :| Merged(platforms, a, v) && SbomExact.Compatible(n, platforms, a);
      MergedArtifactsUnique(platforms, a, artifacts, v, installed);
    }
  }

  /** What the final validation decides. */
  ghost predicate Outcome(n: Naming, fp: FirstParty, platforms: seq<Platform>, s: Bom, artifacts: map<string, string>,
                          installed: map<string, string>) {
    Merged(platforms, artifacts, installed) && IsAggregate(n, platforms, artifacts, s)
      && Valid(n, fp, s, artifacts, installed)
  }

  lemma VerifiedOutcome(n: Naming, fp: FirstParty, platforms: seq<Platform>, s: Bom, artifacts: map<string, string>,
                        installed: map<string, string>)
    requires SbomExact.Verified(n, fp, platforms)
    requires Merged(platforms, artifacts, installed) && IsAggregate(n, platforms, artifacts, s)
    ensures Valid(n, fp, s, artifacts, installed) <==> Releasable(n, platforms)
  {
    SbomExact.AggregateValidIff(Case(n, fp, platforms, artifacts, installed, s));
    ReleasableIff(n, platforms, artifacts, installed);
  }

  /** The release step: merge, aggregate, validate. Over verified platforms it builds exactly what
      can be released, and every refusal has its own meaning. */
  method BuildReleaseSbom(n: Naming, fp: FirstParty, platforms: seq<Platform>) returns (r: BuildResult)
    ensures r.ArtifactsDiffer? <==> ArtifactsDisagree(platforms)
    ensures r.VersionsDiffer? <==> !ArtifactsDisagree(platforms) && VersionsDisagree(platforms)
    ensures r.Built? ==> Outcome(n, fp, platforms, r.sbom, r.artifacts, r.installed)
    ensures r.NotAggregated? ==> exists artifacts, installed ::
      Merged(platforms, artifacts, installed) && CannotAggregate(n, platforms, artifacts)
    ensures r.NotValid? ==> exists artifacts, installed, s ::
      && Merged(platforms, artifacts, installed) && IsAggregate(n, platforms, artifacts, s)
      && !Valid(n, fp, s, artifacts, installed)
    ensures SbomExact.Verified(n, fp, platforms) ==> (r.Built? <==> Releasable(n, platforms))
    ensures SbomExact.Verified(n, fp, platforms) && r.NotAggregated? ==> !RefAgreement(platforms)
  {
    var artifacts := Merge(ArtifactMaps(platforms));
    ArtifactsMerge(platforms, artifacts);
    var installed := Merge(InstalledMaps(platforms));
    VersionsMerge(platforms, installed);
    if artifacts.None? || installed.None? {
      if Releasable(n, platforms) {
        var a, v :| Merged(platforms, a, v) && SbomExact.Compatible(n, platforms, a);
        DisagreeingDoNotMerge(platforms, a, v);
      }
      return if artifacts.None? then ArtifactsDiffer else VersionsDiffer;
    }
    MergedPair(platforms, artifacts.value, installed.value);
    var s := Aggregate(n, platforms, artifacts.value);
    if s.None? {
      if SbomExact.Verified(n, fp, platforms) {
        VerifiedIsGraphable(n, fp, platforms);
        GraphableAggregates(n, platforms, artifacts.value, installed.value);
        ReleasableIff(n, platforms, artifacts.value, installed.value);
      }
      return NotAggregated;
    }
    var ok := Validate(n, fp, s.value, artifacts.value, installed.value);
    if SbomExact.Verified(n, fp, platforms) {
      VerifiedOutcome(n, fp, platforms, s.value, artifacts.value, installed.value);
    }
    return if ok then Built(s.value, artifacts.value, installed.value) else NotValid;
  }
}
