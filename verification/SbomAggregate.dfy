/** The release-wide SBOM: what aggregation produces, and that it is valid. */
module SbomAggregate {
  import opened Common
  import opened Sbom
  import opened SbomPlatform

  // ---------- what aggregation produces ----------

  /** The external references that are not local package archives. */
  function Retained(xs: seq<External>): seq<External> {
    if xs == [] then [] else
      var n := |xs| - 1;
      Retained(xs[..n]) + if xs[n].archive then [] else [xs[n]]
  }

  /** A component without its local archive references; a list left empty is dropped. */
  function Stripped(c: Component): Component {
    match c.external
    case None => c
    case Some(xs) =>
      var kept := Retained(xs);
      if |kept| == |xs| then c else c.(external := if kept == [] then None else Some(kept))
  }

  /** The components carried over from the platforms: all but their release artifacts. */
  function Carried(platforms: seq<Platform>): set<Component> {
    set p, k | p in platforms && k in Cands(p) && !IsArtifact(k.component) :: Stripped(k.component)
  }

  /** `_release_artifact_component`. */
  function ReleaseComponent(n: Naming, f: string, sha: string): Component {
    var id := match n.identity(f) case Some(x) => x case None => ("", "");
    Component("file", Some(f), None, Some(ReleaseRef(sha)), [sha],
      map[ARTIFACT_FLAG := "true", DISTRIBUTION := id.0, VERSION := id.1, ARTIFACT_TYPE := n.artifactType(f)],
      None, 0)
  }

  function Released(n: Naming, artifacts: map<string, string>): set<Component> {
    set f | f in artifacts :: ReleaseComponent(n, f, artifacts[f])
  }

  /** The union of the platforms' rows for one reference. */
  function UnionDeps(platforms: seq<Platform>, x: string): set<string> {
    set p, y | p in platforms && y in Deps(Rows(p), x) :: y
  }

  ghost predicate SomeRow(platforms: seq<Platform>, x: string) {
    exists p :: p in platforms && HasRow(Rows(p), x)
  }

  /** `s` is an aggregate of the platforms, in any order of its lists. */
  ghost predicate IsAggregate(n: Naming, platforms: seq<Platform>, artifacts: map<string, string>, s: Bom) {
    && s.format == "CycloneDX" && s.spec == "1.6"
    && s.metadata == Some(DOCUMENT)
    && NoRepeats(s.components)
    && (forall c :: c in s.components <==> c in Carried(platforms) + Released(n, artifacts))
    && AggregateRows(platforms, artifacts, s.dependencies)
  }

  ghost predicate AggregateRows(platforms: seq<Platform>, artifacts: map<string, string>, rows: seq<Row>) {
    && (forall i, j :: 0 <= i < j < |rows| ==> rows[i].ref != rows[j].ref)
    && (forall r :: r in rows ==> NoRepeats(r.dependsOn))
    && (forall x :: HasRow(rows, x) <==> x == BUNDLE_REF || x in ReleaseRefs(artifacts) || SomeRow(platforms, x))
    && (forall x :: Deps(rows, x) == if x == BUNDLE_REF then ReleaseRefs(artifacts) else UnionDeps(platforms, x))
  }

  predicate SameRef(c: Component, d: Component) {
    c.bomRef == d.bomRef && c.bomRef.Some? && c.bomRef.value != ""
  }

  /** The platforms agree on every carried component that has the same reference; otherwise
      aggregation raises. */
  ghost predicate RefAgreement(platforms: seq<Platform>) {
    forall c, d :: c in Carried(platforms) && d in Carried(platforms) && SameRef(c, d) ==> c == d
  }

  // ---------- when the aggregate is valid ----------

  ghost predicate MergedMap(maps: seq<map<string, string>>, m: map<string, string>) {
    && (forall i, k :: 0 <= i < |maps| && k in maps[i] ==> k in m && m[k] == maps[i][k])
    && (forall k :: k in m ==> exists i :: 0 <= i < |maps| && k in maps[i])
  }

  function ArtifactMaps(platforms: seq<Platform>): (ms: seq<map<string, string>>)
    ensures |ms| == |platforms| && forall i :: 0 <= i < |ms| ==> ms[i] == platforms[i].artifacts
  {
    seq(|platforms|, i requires 0 <= i < |platforms| => platforms[i].artifacts)
  }

  function InstalledMaps(platforms: seq<Platform>): (ms: seq<map<string, string>>)
    ensures |ms| == |platforms| && forall i :: 0 <= i < |ms| ==> ms[i] == platforms[i].installed
  {
    seq(|platforms|, i requires 0 <= i < |platforms| => platforms[i].installed)
  }

  /** Facts about the packaging library and the first-party table. */
  ghost predicate NamingOk(n: Naming, fp: FirstParty) {
    && (forall c: char :: 32 < c as int < 127 ==> !n.isSpace(c))
    && n.canonicalize(BUNDLE_NAME) !in fp
    && (forall d :: d in fp ==> n.canonicalize(BUNDLE_NAME) !in fp[d])
  }

  /** Two files never have the same content. */
  ghost predicate DistinctDigests(artifacts: map<string, string>) {
    forall f, g :: f in artifacts && g in artifacts && artifacts[f] == artifacts[g] ==> f == g
  }

  /** Runtime references are apart from the references aggregation itself hands out. */
  ghost predicate RefsApart(platforms: seq<Platform>, artifacts: map<string, string>) {
    forall p, x :: p in platforms && x in RuntimeRefs(Cands(p)) ==> x != BUNDLE_REF && x !in ReleaseRefs(artifacts)
  }

  /** A runtime reference depends only on the distribution name. */
  ghost predicate RefsByName(n: Naming, platforms: seq<Platform>) {
    forall p, q, k, m, d ::
      (p in platforms && q in platforms && k in Cands(p) && m in Cands(q) && RuntimeOf(n, k, d) && RuntimeOf(n, m, d))
      ==> Ref(k) == Ref(m)
  }

  ghost predicate Merged(platforms: seq<Platform>, artifacts: map<string, string>, installed: map<string, string>) {
    && (forall p, f :: p in platforms && f in p.artifacts ==> f in artifacts && artifacts[f] == p.artifacts[f])
    && (forall f :: f in artifacts ==> exists p :: p in platforms && f in p.artifacts)
    && (forall p, d :: p in platforms && d in p.installed ==> d in installed && installed[d] == p.installed[d])
    && (forall d :: d in installed ==> exists p :: p in platforms && d in p.installed)
  }

  // ---------- the candidates of the aggregate ----------

  lemma StrippedKeeps(c: Component)
    ensures Stripped(c).name == c.name && Stripped(c).version == c.version && Stripped(c).bomRef == c.bomRef
    ensures IsArtifact(Stripped(c)) == IsArtifact(c)
  {
  }

  ghost predicate AllGenerated(n: Naming, fp: FirstParty, platforms: seq<Platform>) {
    forall p :: p in platforms ==> Generated(n, fp, p)
  }

  /** A release in the making. */
  datatype Case = Case(n: Naming, fp: FirstParty, platforms: seq<Platform>,
                       artifacts: map<string, string>, installed: map<string, string>, s: Bom)
  {
    function Cs(): seq<Candidate> { Candidates(s) }
    function Rs(): seq<Row> { s.dependencies }

    ghost predicate Produced() {
      AllGenerated(n, fp, platforms) && IsAggregate(n, platforms, artifacts, s)
    }
    ghost predicate RuntimeKnown() { forall p :: p in platforms ==> RuntimeFacts(n, p) }
    ghost predicate GraphsKnown() { forall p :: p in platforms ==> GraphFacts(p) }
    ghost predicate ArtifactsKnown() { forall p :: p in platforms ==> ArtifactFacts(n, fp, p) }
    ghost predicate FirstPartyKnown() { forall p :: p in platforms ==> FirstPartyFacts(n, fp, p) }
    ghost predicate ArtifactsMerged() {
      && (forall p, f :: p in platforms && f in p.artifacts ==> f in artifacts && artifacts[f] == p.artifacts[f])
      && (forall f :: f in artifacts ==> exists p :: p in platforms && f in p.artifacts)
    }
    ghost predicate InstalledMerged() {
      && (forall p, d :: p in platforms && d in p.installed ==> d in installed && installed[d] == p.installed[d])
      && (forall d :: d in installed ==> exists p :: p in platforms && d in p.installed)
    }
    ghost predicate Graphs() { Produced() && GraphsKnown() && ArtifactsMerged() && RefsApart(platforms, artifacts) }
    ghost predicate Names() {
      Produced() && RuntimeKnown() && InstalledMerged() && RefsByName(n, platforms) && RefAgreement(platforms)
    }
  }

  /** A carried component comes from a runtime component of some platform. */
  lemma CarriedFrom(n: Naming, fp: FirstParty, platforms: seq<Platform>, c: Component)
    returns (p: Platform, k: Candidate)
    requires AllGenerated(n, fp, platforms) && c in Carried(platforms)
    ensures p in platforms && k in Cands(p) && IsRuntime(k) && c == Stripped(k.component)
    ensures Ref(Candidate(c, false)) == Ref(k) && !IsArtifact(c)
  {
    p, k :| p in platforms && k in Cands(p) && !IsArtifact(k.component) && c == Stripped(k.component);
    assert Generated(n, fp, p);
    StrippedKeeps(k.component);
  }

  lemma CandidateCases(n: Naming, platforms: seq<Platform>, artifacts: map<string, string>, s: Bom, k: Candidate)
    requires IsAggregate(n, platforms, artifacts, s)
    ensures k in Candidates(s) <==>
      || k == Candidate(DOCUMENT, true)
      || (!k.isMetadata && k.component in Carried(platforms))
      || (!k.isMetadata && k.component in Released(n, artifacts))
  {
    var cs := Candidates(s);
    if k in cs {
      var i :| 0 <= i < |cs| && cs[i] == k;
      if i < |s.components| {
        assert k == Candidate(s.components[i], false);
        assert s.components[i] in s.components;
      }
    }
    if !k.isMetadata && k.component in Carried(platforms) + Released(n, artifacts) {
      var i :| 0 <= i < |s.components| && s.components[i] == k.component;
      assert cs[i] == k;
    }
    assert cs[|s.components|] == Candidate(DOCUMENT, true);
  }

  lemma ReleasedFrom(n: Naming, artifacts: map<string, string>, c: Component) returns (f: string)
    requires c in Released(n, artifacts)
    ensures f in artifacts && c == ReleaseComponent(n, f, artifacts[f]) && IsArtifact(c)
  {
    f :| f in artifacts && c == ReleaseComponent(n, f, artifacts[f]);
  }

  /** The runtime candidates are the carried components, the artifact candidates the released. */
  lemma ClassCases(a: Case, k: Candidate)
    requires a.Produced()
    ensures k in a.Cs() && IsRuntime(k) <==> !k.isMetadata && k.component in Carried(a.platforms)
    ensures k in a.Cs() && IsArtifact(k.component) <==> !k.isMetadata && k.component in Released(a.n, a.artifacts)
    ensures k in a.Cs() ==> IsRuntime(k) || IsArtifact(k.component) || k == Candidate(DOCUMENT, true)
  {
    CandidateCases(a.n, a.platforms, a.artifacts, a.s, k);
    if k.component in Carried(a.platforms) {
      var p, m := CarriedFrom(a.n, a.fp, a.platforms, k.component);
    }
    if k.component in Released(a.n, a.artifacts) {
      var f := ReleasedFrom(a.n, a.artifacts, k.component);
    }
  }

  lemma RuntimeRefsUnion(a: Case, x: string)
    requires a.Produced()
    ensures x in RuntimeRefs(a.Cs()) <==> exists p :: p in a.platforms && x in RuntimeRefs(Cands(p))
  {
    if x in RuntimeRefs(a.Cs()) {
      var k :| k in a.Cs() && IsRuntime(k) && Ref(k) == x;
      ClassCases(a, k);
      var p, m := CarriedFrom(a.n, a.fp, a.platforms, k.component);
      assert x in RuntimeRefs(Cands(p));
    }
    if p :| p in a.platforms && x in RuntimeRefs(Cands(p)) {
      var k :| k in Cands(p) && IsRuntime(k) && Ref(k) == x;
      var m := Candidate(Stripped(k.component), false);
      StrippedKeeps(k.component);
      ClassCases(a, m);
      assert Ref(m) == x;
    }
  }

  lemma ArtifactRefsExact(a: Case)
    requires a.Produced()
    ensures ArtifactRefs(a.Cs()) == ReleaseRefs(a.artifacts)
    ensures DocumentRefs(a.Cs()) == {BUNDLE_REF}
    ensures BUNDLE_REF !in ReleaseRefs(a.artifacts)
  {
    forall x
      ensures x in ArtifactRefs(a.Cs()) <==> x in ReleaseRefs(a.artifacts)
    {
      if x in ArtifactRefs(a.Cs()) {
        var k :| k in a.Cs() && IsArtifact(k.component) && Ref(k) == x;
        ClassCases(a, k);
        var f := ReleasedFrom(a.n, a.artifacts, k.component);
      }
      if x in ReleaseRefs(a.artifacts) {
        var f :| f in a.artifacts && x == ReleaseRef(a.artifacts[f]);
        var k := Candidate(ReleaseComponent(a.n, f, a.artifacts[f]), false);
        ClassCases(a, k);
        assert Ref(k) == x;
      }
    }
    CandidateCases(a.n, a.platforms, a.artifacts, a.s, Candidate(DOCUMENT, true));
    assert Ref(Candidate(DOCUMENT, true)) == BUNDLE_REF;
    BundleRefIsNoRelease(a.artifacts);
  }

  lemma BundleRefIsNoRelease(artifacts: map<string, string>)
    ensures BUNDLE_REF !in ReleaseRefs(artifacts)
  {
    forall f | f in artifacts
      ensures ReleaseRef(artifacts[f]) != BUNDLE_REF
    {
      assert ReleaseRef(artifacts[f])[4] == 's' && BUNDLE_REF[4] == 'g';
    }
  }

  // ---------- the dependency graph ----------

  /** Only runtime references have dependencies, and those are runtime. */
  lemma RowOwner(q: Platform, x: string, y: string)
    requires GraphFacts(q) && y in Deps(Rows(q), x)
    ensures x in RuntimeRefs(Cands(q)) && y in RuntimeRefs(Cands(q)) && y != ""
  {
    var r :| r in Rows(q) && r.ref == x && y in r.dependsOn;
    assert RowOk(r);
  }

  lemma ReleaseRefsGrow(a: Case, q: Platform)
    requires a.ArtifactsMerged() && q in a.platforms
    ensures ReleaseRefs(q.artifacts) <= ReleaseRefs(a.artifacts)
  {
    forall f | f in q.artifacts
      ensures ReleaseRef(q.artifacts[f]) in ReleaseRefs(a.artifacts)
    {
      assert a.artifacts[f] == q.artifacts[f];
    }
  }

  lemma AggregateRuntimeClosed(a: Case)
    requires a.Graphs()
    ensures RuntimeClosed(a.Cs(), a.Rs())
  {
    forall x | x in RuntimeRefs(a.Cs())
      ensures HasRow(a.Rs(), x)
      ensures Deps(a.Rs(), x) <= RuntimeRefs(a.Cs())
    {
      RuntimeRefsUnion(a, x);
      var p :| p in a.platforms && x in RuntimeRefs(Cands(p));
      assert GraphFacts(p);
      assert SomeRow(a.platforms, x);
      assert x != BUNDLE_REF;
      forall y | y in UnionDeps(a.platforms, x)
        ensures y in RuntimeRefs(a.Cs())
      {
        UnionIsRuntime(a, x, y);
      }
    }
  }

  lemma UnionIsRuntime(a: Case, x: string, y: string)
    requires a.Produced() && a.GraphsKnown() && y in UnionDeps(a.platforms, x)
    ensures y in RuntimeRefs(a.Cs()) && y != "" && exists q :: q in a.platforms && x in RuntimeRefs(Cands(q))
  {
    var q :| q in a.platforms && y in Deps(Rows(q), x);
    RowOwner(q, x, y);
    RuntimeRefsUnion(a, y);
  }

  lemma AggregateLeaves(a: Case)
    requires a.Graphs()
    ensures ArtifactsLeaf(a.Cs(), a.Rs())
    ensures DocumentExact(a.Cs(), a.Rs())
  {
    ArtifactRefsExact(a);
    BundleRefIsNoRelease(a.artifacts);
    forall x | x in ArtifactRefs(a.Cs()) ensures Deps(a.Rs(), x) == {} {
      ReleaseHasNoDeps(a, x);
    }
    forall x | x in DocumentRefs(a.Cs()) ensures HasRow(a.Rs(), x) && Deps(a.Rs(), x) == ReleaseRefs(a.artifacts) {
      assert x == BUNDLE_REF;
    }
  }

  lemma ReleaseHasNoDeps(a: Case, x: string)
    requires a.Graphs() && x in ReleaseRefs(a.artifacts) && x != BUNDLE_REF
    ensures Deps(a.Rs(), x) == {}
  {
    if y :| y in UnionDeps(a.platforms, x) {
      UnionIsRuntime(a, x, y);
    }
  }

  lemma ClassesKnown(cs: seq<Candidate>)
    ensures RuntimeRefs(cs) + ArtifactRefs(cs) + DocumentRefs(cs) <= AllRefs(cs)
  {
  }

  lemma KnownRow(a: Case, x: string)
    requires a.Graphs() && HasRow(a.Rs(), x)
    ensures x != "" && x in AllRefs(a.Cs())
  {
    ClassesKnown(a.Cs());
    ArtifactRefsExact(a);
    if x != BUNDLE_REF && x !in ReleaseRefs(a.artifacts) {
      var p :| p in a.platforms && HasRow(Rows(p), x);
      KnownPlatformRow(a, p, x);
    }
  }

  lemma KnownPlatformRow(a: Case, p: Platform, x: string)
    requires a.Graphs() && p in a.platforms && HasRow(Rows(p), x) && x !in ReleaseRefs(a.artifacts)
    ensures x != "" && x in RuntimeRefs(a.Cs())
  {
    PlatformRow(p, x);
    ReleaseRefsGrow(a, p);
    RuntimeRefsUnion(a, x);
  }

  lemma PlatformRow(p: Platform, x: string)
    requires GraphFacts(p) && HasRow(Rows(p), x)
    ensures x != "" && x in RuntimeRefs(Cands(p)) + ReleaseRefs(p.artifacts)
  {
    var i :| 0 <= i < |Rows(p)| && Rows(p)[i].ref == x;
    assert Rows(p)[i] in Rows(p);
  }

  lemma KnownDependency(a: Case, x: string, y: string)
    requires a.Graphs() && y in Deps(a.Rs(), x)
    ensures y != "" && y in AllRefs(a.Cs())
  {
    ClassesKnown(a.Cs());
    ArtifactRefsExact(a);
    if x != BUNDLE_REF {
      UnionIsRuntime(a, x, y);
    }
  }

  lemma AggregateGraphOk(a: Case)
    requires a.Graphs()
    ensures GraphOk(a.Cs(), a.Rs())
  {
    var rows, cs := a.Rs(), a.Cs();
    forall r | r in rows
      ensures RowOk(r) && r.ref in AllRefs(cs)
      ensures forall x :: x in r.dependsOn ==> x in AllRefs(cs)
    {
      var i :| 0 <= i < |rows| && rows[i] == r;
      assert HasRow(rows, r.ref);
      KnownRow(a, r.ref);
      forall x | x in r.dependsOn
        ensures x != "" && x in AllRefs(cs)
      {
        assert x in Deps(rows, r.ref);
        KnownDependency(a, r.ref, x);
      }
    }
  }

  // ---------- classification ----------

  lemma RuntimeIsInstalled(a: Case, k: Candidate) returns (d: string)
    requires a.Produced() && a.RuntimeKnown() && a.InstalledMerged() && k in a.Cs() && IsRuntime(k)
    ensures RefOk(a.n, k.component) && NamedOk(a.n, k.component) && d == a.n.canonicalize(k.component.name.value)
    ensures d in a.installed && k.component.version == Some(a.installed[d])
  {
    ClassCases(a, k);
    var p, m := CarriedFrom(a.n, a.fp, a.platforms, k.component);
    StrippedKeeps(m.component);
    d := RuntimeFact(a.n, p, m);
    InstalledGrows(a, p, d);
  }

  lemma InstalledGrows(a: Case, p: Platform, d: string)
    requires a.InstalledMerged() && p in a.platforms && d in p.installed
    ensures d in a.installed && a.installed[d] == p.installed[d]
  {
  }

  lemma RefByName(a: Case, p: Platform, q: Platform, k: Candidate, m: Candidate, d: string)
    requires RefsByName(a.n, a.platforms) && p in a.platforms && q in a.platforms && k in Cands(p) && m in Cands(q)
    requires RuntimeOf(a.n, k, d) && RuntimeOf(a.n, m, d)
    ensures Ref(k) == Ref(m)
  {
  }

  /** A runtime component of the aggregate has the reference its name has on any platform. */
  lemma AggregateRefByName(a: Case, k: Candidate, q: Platform, m: Candidate, d: string)
    requires a.Produced() && RefsByName(a.n, a.platforms) && k in a.Cs() && RuntimeOf(a.n, k, d)
    requires q in a.platforms && m in Cands(q) && RuntimeOf(a.n, m, d)
    ensures Ref(k) == Ref(m)
  {
    ClassCases(a, k);
    var p, b := CarriedFrom(a.n, a.fp, a.platforms, k.component);
    StrippedKeeps(b.component);
    RefByName(a, p, q, b, m, d);
  }

  /** Two runtime components of the aggregate with the same name are the same component. */
  lemma RuntimeUnique(a: Case, k: Candidate, m: Candidate, d: string)
    requires a.Names() && k in a.Cs() && m in a.Cs() && RuntimeOf(a.n, k, d) && RuntimeOf(a.n, m, d)
    ensures k == m
  {
    ClassCases(a, k);
    ClassCases(a, m);
    var q, b := CarriedFrom(a.n, a.fp, a.platforms, m.component);
    StrippedKeeps(b.component);
    AggregateRefByName(a, k, q, b, d);
    var x := RuntimeIsInstalled(a, k);
    var y := RuntimeIsInstalled(a, m);
    assert SameRef(k.component, m.component);
  }

  lemma CarriedOver(a: Case, p: Platform, m: Candidate) returns (k: Candidate)
    requires a.Produced() && p in a.platforms && m in Cands(p) && IsRuntime(m)
    ensures k in a.Cs() && IsRuntime(k) && k.component == Stripped(m.component)
    ensures k.component.name == m.component.name && Ref(k) == Ref(m)
  {
    StrippedKeeps(m.component);
    k := Candidate(Stripped(m.component), false);
    ClassCases(a, k);
  }

  lemma RuntimePresent(a: Case, d: string) returns (k: Candidate)
    requires a.Produced() && a.RuntimeKnown() && a.InstalledMerged() && d in a.installed
    ensures k in a.Cs() && RuntimeOf(a.n, k, d) && k.component.version == Some(a.installed[d])
  {
    var p :| p in a.platforms && d in p.installed;
    var m := RuntimeOn(a.n, p, d);
    k := CarriedOver(a, p, m);
    var e := RuntimeIsInstalled(a, k);
  }

  lemma SameCandidateSameIndex(s: Bom, i: int, j: int)
    requires NoRepeats(s.components) && s.metadata.Some?
    requires 0 <= i < |Candidates(s)| && 0 <= j < |Candidates(s)| && Candidates(s)[i] == Candidates(s)[j]
    ensures i == j
  {
    var cs := Candidates(s);
    if i < |s.components| && j < |s.components| {
      assert cs[i].component == s.components[i] && cs[j].component == s.components[j];
    }
  }

  lemma AggregateInstalledOnce(a: Case, d: string)
    requires a.Names() && d in a.installed
    ensures InstalledOnce(a.n, a.Cs(), d, a.installed[d])
  {
    var cs := a.Cs();
    var k := RuntimePresent(a, d);
    var i :| 0 <= i < |cs| && cs[i] == k;
    assert RuntimeOf(a.n, cs[i], d) && cs[i].component.version == Some(a.installed[d]);
    forall j | 0 <= j < |cs| && RuntimeOf(a.n, cs[j], d)
      ensures j == i
    {
      RuntimeIndex(a, i, j, d);
    }
    OnceAt(a.n, cs, d, a.installed[d], i);
  }

  lemma OnceAt(n: Naming, cs: seq<Candidate>, d: string, v: string, i: nat)
    requires i < |cs| && RuntimeOf(n, cs[i], d) && cs[i].component.version == Some(v)
    requires forall j :: 0 <= j < |cs| && RuntimeOf(n, cs[j], d) ==> j == i
    ensures InstalledOnce(n, cs, d, v)
  {
  }

  lemma RuntimeIndex(a: Case, i: nat, j: nat, d: string)
    requires a.Names() && i < |a.Cs()| && j < |a.Cs()|
    requires RuntimeOf(a.n, a.Cs()[i], d) && RuntimeOf(a.n, a.Cs()[j], d)
    ensures j == i
  {
    assert a.Cs()[i] in a.Cs() && a.Cs()[j] in a.Cs();
    RuntimeUnique(a, a.Cs()[i], a.Cs()[j], d);
    SameCandidateSameIndex(a.s, i, j);
  }

  lemma AggregateClassified(a: Case)
    requires a.Names()
    ensures Classified(a.n, a.Cs(), a.installed)
  {
    forall k | k in a.Cs()
      ensures IsArtifact(k.component) ==> !k.isMetadata
      ensures IsRuntime(k) ==> NamedOk(a.n, k.component) && a.n.canonicalize(k.component.name.value) in a.installed
    {
      ClassCases(a, k);
      if IsRuntime(k) {
        var d := RuntimeIsInstalled(a, k);
      }
    }
    forall d | d in a.installed
      ensures InstalledOnce(a.n, a.Cs(), d, a.installed[d])
    {
      AggregateInstalledOnce(a, d);
    }
  }
}
