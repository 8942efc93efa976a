/** Aggregation preserves validity. */
module SbomAggregateValid {
  import opened Common
  import opened Sbom
  import opened SbomPlatform
  import opened SbomAggregate

  // ---------- references ----------

  lemma ReleaseRefOk(n: Naming, fp: FirstParty, f: string, sha: string)
    requires NamingOk(n, fp) && IsSha256(sha)
    ensures RefOk(n, ReleaseComponent(n, f, sha))
  {
    var r := ReleaseRef(sha);
    assert r[0] == 'u';
    assert r[|r| - 1] == sha[63];
    assert |"urn:sha256:"| == 11;
    forall i | 0 <= i < |r|
      ensures r[i] as int >= 32
    {
      if i >= 11 {
        assert r[i] == sha[i - 11];
      }
    }
  }

  lemma DocumentRefOk(n: Naming, fp: FirstParty)
    requires NamingOk(n, fp)
    ensures RefOk(n, DOCUMENT)
  {
    assert BUNDLE_REF[0] == 'u' && BUNDLE_REF[|BUNDLE_REF| - 1] == '0';
  }

  lemma DigestIsSha(a: Case, f: string)
    requires a.ArtifactsKnown() && a.ArtifactsMerged() && f in a.artifacts
    ensures IsSha256(a.artifacts[f]) && a.n.identity(f).Some?
    ensures forall d :: d in a.fp ==> f == "" || a.n.canonicalize(f) != d
  {
    var p :| p in a.platforms && f in p.artifacts;
    assert ArtifactFacts(a.n, a.fp, p);
  }

  lemma AggregateRefOk(a: Case, k: Candidate)
    requires NamingOk(a.n, a.fp) && a.Names() && a.ArtifactsKnown() && a.ArtifactsMerged() && k in a.Cs()
    ensures RefOk(a.n, k.component)
  {
    ClassCases(a, k);
    if IsRuntime(k) {
      var d := RuntimeIsInstalled(a, k);
    } else if IsArtifact(k.component) {
      var f := ReleasedFrom(a.n, a.artifacts, k.component);
      DigestIsSha(a, f);
      ReleaseRefOk(a.n, a.fp, f, a.artifacts[f]);
    } else {
      DocumentRefOk(a.n, a.fp);
    }
  }

  lemma RuntimeRefApart(a: Case, k: Candidate)
    requires a.Produced() && RefsApart(a.platforms, a.artifacts) && k in a.Cs() && IsRuntime(k)
    ensures Ref(k) != BUNDLE_REF && Ref(k) !in ReleaseRefs(a.artifacts)
  {
    var x := Ref(k);
    assert x in RuntimeRefs(a.Cs());
    RuntimeRefsUnion(a, x);
    var p :| p in a.platforms && x in RuntimeRefs(Cands(p));
    ApartOn(a.platforms, a.artifacts, p, x);
  }

  lemma ApartOn(platforms: seq<Platform>, artifacts: map<string, string>, p: Platform, x: string)
    requires RefsApart(platforms, artifacts) && p in platforms && x in RuntimeRefs(Cands(p))
    ensures x != BUNDLE_REF && x !in ReleaseRefs(artifacts)
  {
  }

  lemma ReleasedRef(a: Case, k: Candidate) returns (f: string)
    requires a.Produced() && k in a.Cs() && IsArtifact(k.component)
    ensures f in a.artifacts && k == Candidate(ReleaseComponent(a.n, f, a.artifacts[f]), false)
    ensures Ref(k) == ReleaseRef(a.artifacts[f]) && Ref(k) in ReleaseRefs(a.artifacts)
  {
    ClassCases(a, k);
    f := ReleasedFrom(a.n, a.artifacts, k.component);
  }

  lemma ReleaseRefInjective(s: string, t: string)
    requires ReleaseRef(s) == ReleaseRef(t)
    ensures s == t
  {
    assert ReleaseRef(s)[11..] == s && ReleaseRef(t)[11..] == t;
  }

  /** In the aggregate a reference names one candidate. */
  lemma SameRefSame(a: Case, k: Candidate, m: Candidate)
    requires a.Names() && RefsApart(a.platforms, a.artifacts) && DistinctDigests(a.artifacts)
    requires k in a.Cs() && m in a.Cs() && Ref(k) == Ref(m)
    ensures k == m
  {
    ClassCases(a, k);
    ClassCases(a, m);
    BundleRefIsNoRelease(a.artifacts);
    if IsRuntime(k) {
      RuntimeRefApart(a, k);
    }
    if IsRuntime(m) {
      RuntimeRefApart(a, m);
    }
    if IsArtifact(k.component) {
      var f := ReleasedRef(a, k);
    }
    if IsArtifact(m.component) {
      var g := ReleasedRef(a, m);
    }
    if IsRuntime(k) && IsRuntime(m) {
      var d := RuntimeIsInstalled(a, k);
      var e := RuntimeIsInstalled(a, m);
      assert SameRef(k.component, m.component);
    } else if IsArtifact(k.component) && IsArtifact(m.component) {
      var f := ReleasedRef(a, k);
      var g := ReleasedRef(a, m);
      ReleaseRefInjective(a.artifacts[f], a.artifacts[g]);
    }
  }

  lemma AggregateRefsOk(a: Case)
    requires NamingOk(a.n, a.fp) && a.Names() && a.ArtifactsKnown() && a.ArtifactsMerged()
    requires RefsApart(a.platforms, a.artifacts) && DistinctDigests(a.artifacts)
    ensures RefsOk(a.n, a.Cs())
  {
    forall k | k in a.Cs()
      ensures RefOk(a.n, k.component)
    {
      AggregateRefOk(a, k);
    }
    var cs := a.Cs();
    forall i, j | 0 <= i < j < |cs|
      ensures Ref(cs[i]) != Ref(cs[j])
    {
      if Ref(cs[i]) == Ref(cs[j]) {
        SameRefSame(a, cs[i], cs[j]);
        SameCandidateSameIndex(a.s, i, j);
      }
    }
  }

  // ---------- artifacts ----------

  lemma ReleaseComponentProps(n: Naming, f: string, sha: string)
    requires n.identity(f).Some?
    ensures var c := ReleaseComponent(n, f, sha);
      && Prop(c, DISTRIBUTION) == n.identity(f).value.0 && Prop(c, VERSION) == n.identity(f).value.1
      && Prop(c, ARTIFACT_TYPE) == n.artifactType(f)
  {
    assert DISTRIBUTION[12] == 'd' && VERSION[12] == 'v' && ARTIFACT_TYPE[12] == 'a' && ARTIFACT_FLAG[12] == 'r';
  }

  lemma ReleaseComponentOk(n: Naming, artifacts: map<string, string>, f: string)
    requires f in artifacts && IsSha256(artifacts[f]) && n.identity(f).Some?
    ensures ArtifactOk(n, ReleaseComponent(n, f, artifacts[f]), artifacts)
  {
    ReleaseComponentProps(n, f, artifacts[f]);
  }

  lemma AggregateArtifactOk(a: Case, c: Component)
    requires a.Produced() && a.ArtifactsKnown() && a.ArtifactsMerged() && c in a.s.components && IsArtifact(c)
    ensures ArtifactOk(a.n, c, a.artifacts)
  {
    var f := ArtifactComponent(a, c);
    DigestIsSha(a, f);
    ReleaseComponentOk(a.n, a.artifacts, f);
  }

  lemma ArtifactNamesDistinct(a: Case, c: Component, d: Component)
    requires a.Produced() && c in a.s.components && d in a.s.components && IsArtifact(c) && IsArtifact(d)
             && c.name == d.name
    ensures c == d
  {
    var f := ArtifactComponent(a, c);
    var g := ArtifactComponent(a, d);
  }

  lemma ArtifactPresent(a: Case, f: string)
    requires a.Produced() && f in a.artifacts
    ensures exists c :: c in a.s.components && IsArtifact(c) && c.name == Some(f)
  {
    var c := ReleaseComponent(a.n, f, a.artifacts[f]);
    assert c in Released(a.n, a.artifacts);
    assert c in a.s.components && IsArtifact(c) && c.name == Some(f);
  }

  lemma AggregateArtifactsMatch(a: Case)
    requires a.Produced() && a.ArtifactsKnown() && a.ArtifactsMerged()
    ensures ArtifactsMatch(a.n, a.s.components, a.artifacts)
  {
    var comps := a.s.components;
    forall c | c in comps && IsArtifact(c)
      ensures ArtifactOk(a.n, c, a.artifacts)
    {
      AggregateArtifactOk(a, c);
    }
    forall i, j | 0 <= i < j < |comps| && IsArtifact(comps[i]) && IsArtifact(comps[j])
      ensures comps[i].name != comps[j].name
    {
      if comps[i].name == comps[j].name {
        ArtifactNamesDistinct(a, comps[i], comps[j]);
      }
    }
    forall f | f in a.artifacts
      ensures exists c :: c in comps && IsArtifact(c) && c.name == Some(f)
    {
      ArtifactPresent(a, f);
    }
  }

  lemma ArtifactComponent(a: Case, c: Component) returns (f: string)
    requires a.Produced() && c in a.s.components && IsArtifact(c)
    ensures f in a.artifacts && c == ReleaseComponent(a.n, f, a.artifacts[f])
  {
    if c in Carried(a.platforms) {
      var p, m := CarriedFrom(a.n, a.fp, a.platforms, c);
    }
    f := ReleasedFrom(a.n, a.artifacts, c);
  }

  lemma AggregateDescribed(a: Case)
    requires a.Names() && a.ArtifactsKnown() && a.ArtifactsMerged()
    ensures Described(a.n, a.Cs(), a.artifacts)
  {
    forall f | f in a.artifacts
      ensures a.n.identity(f).Some? && DescribedAs(a.n, a.Cs(), a.n.identity(f).value)
    {
      var p :| p in a.platforms && f in p.artifacts;
      assert ArtifactFacts(a.n, a.fp, p);
      var id := a.n.identity(f).value;
      InstalledGrows(a, p, id.0);
      var k := RuntimePresent(a, id.0);
    }
  }

  // ---------- first-party rows ----------

  /** A name that only runtime components bear. */
  ghost predicate RuntimeName(a: Case, d: string) {
    forall k :: k in a.Cs() && HasName(a.n, k.component, d) ==> IsRuntime(k)
  }

  lemma FirstPartyRuntimeName(a: Case, d: string)
    requires NamingOk(a.n, a.fp) && a.Produced() && a.ArtifactsKnown() && a.ArtifactsMerged() && d in a.fp
    ensures RuntimeName(a, d)
  {
    forall k | k in a.Cs() && HasName(a.n, k.component, d)
      ensures IsRuntime(k)
    {
      ClassCases(a, k);
      if IsArtifact(k.component) {
        var f := ReleasedRef(a, k);
        DigestIsSha(a, f);
        assert false;
      }
    }
  }

  /** A candidate with the name and the installed version of a distribution is its runtime component. */
  lemma MatchIsRuntime(a: Case, e: string, k: Candidate)
    requires a.Names() && e in a.installed && a.n.canonicalize(BUNDLE_NAME) != e
    requires k in a.Cs() && HasName(a.n, k.component, e) && Text(k.component.version) == a.installed[e]
    ensures IsRuntime(k)
  {
    var m := RuntimePresent(a, e);
    var d := RuntimeIsInstalled(a, m);
    ClassCases(a, k);
    if IsArtifact(k.component) {
      var f := ReleasedRef(a, k);
      assert false;
    }
  }

  lemma MatchRefsSingle(a: Case, e: string) returns (k: Candidate)
    requires a.Names() && e in a.installed && a.n.canonicalize(BUNDLE_NAME) != e
    ensures k in a.Cs() && RuntimeOf(a.n, k, e) && MatchRefs(a.n, a.Cs(), e, a.installed[e]) == {Ref(k)}
  {
    k := RuntimePresent(a, e);
    forall m | m in a.Cs() && HasName(a.n, m.component, e) && Text(m.component.version) == a.installed[e]
      ensures m == k
    {
      MatchIsRuntime(a, e, m);
      RuntimeUnique(a, k, m, e);
    }
  }

  lemma NamedRefsSingle(a: Case, d: string, k: Candidate)
    requires a.Names() && RuntimeName(a, d) && k in a.Cs() && RuntimeOf(a.n, k, d)
    ensures NamedRefs(a.n, a.Cs(), d) == {Ref(k)}
  {
    forall m | m in a.Cs() && HasName(a.n, m.component, d)
      ensures m == k
    {
      RuntimeUnique(a, k, m, d);
    }
  }

  lemma FirstPartyInstalled(a: Case, d: string)
    requires a.platforms != [] && a.FirstPartyKnown() && a.InstalledMerged() && d in a.fp
    ensures d in a.installed && a.fp[d] <= a.installed.Keys
  {
    var p := a.platforms[0];
    assert p in a.platforms && FirstPartyFacts(a.n, a.fp, p);
    InstalledGrows(a, p, d);
    forall e | e in a.fp[d]
      ensures e in a.installed
    {
      InstalledGrows(a, p, e);
    }
  }

  /** The row of a first-party component is the same set on every platform: the references
      that its dependencies have in the aggregate. */
  lemma PlatformRowExact(a: Case, p: Platform, d: string, k: Candidate)
    requires a.Names() && a.FirstPartyKnown() && p in a.platforms && d in a.fp && k in a.Cs() && RuntimeOf(a.n, k, d)
    ensures Deps(Rows(p), Ref(k)) == RefsOfNames(a.n, a.Cs(), a.fp[d])
  {
    assert FirstPartyFacts(a.n, a.fp, p) && RuntimeFacts(a.n, p);
    var m := RuntimeOn(a.n, p, d);
    AggregateRefByName(a, k, p, m, d);
    forall y
      ensures y in RefsOfNames(a.n, Cands(p), a.fp[d]) <==> y in RefsOfNames(a.n, a.Cs(), a.fp[d])
    {
      NamesAgree(a, p, a.fp[d], y);
    }
  }

  lemma NamesAgree(a: Case, p: Platform, names: set<string>, y: string)
    requires a.Names() && p in a.platforms && names <= p.installed.Keys
    ensures y in RefsOfNames(a.n, Cands(p), names) <==> y in RefsOfNames(a.n, a.Cs(), names)
  {
    if y in RefsOfNames(a.n, Cands(p), names) {
      var e, m :| e in names && m in Cands(p) && RuntimeOf(a.n, m, e) && y == Ref(m);
      var k := CarriedOver(a, p, m);
      assert RuntimeOf(a.n, k, e);
    }
    if y in RefsOfNames(a.n, a.Cs(), names) {
      var e, k :| e in names && k in a.Cs() && RuntimeOf(a.n, k, e) && y == Ref(k);
      var m := RuntimeOn(a.n, p, e);
      AggregateRefByName(a, k, p, m, e);
    }
  }

  lemma AggregateRowExact(a: Case, d: string, k: Candidate)
    requires a.platforms != [] && a.Names() && a.FirstPartyKnown() && RefsApart(a.platforms, a.artifacts)
    requires d in a.fp && k in a.Cs() && RuntimeOf(a.n, k, d)
    ensures Deps(a.Rs(), Ref(k)) == RefsOfNames(a.n, a.Cs(), a.fp[d])
  {
    RuntimeRefApart(a, k);
    var x := Ref(k);
    forall p | p in a.platforms
      ensures Deps(Rows(p), x) == RefsOfNames(a.n, a.Cs(), a.fp[d])
    {
      PlatformRowExact(a, p, d, k);
    }
    assert a.platforms[0] in a.platforms;
    assert UnionDeps(a.platforms, x) == RefsOfNames(a.n, a.Cs(), a.fp[d]);
  }

  /** A first-party dependency stands for exactly its runtime component. */
  lemma DependencySingle(a: Case, e: string) returns (k: Candidate)
    requires a.Names() && e in a.installed && a.n.canonicalize(BUNDLE_NAME) != e
    ensures k in a.Cs() && RuntimeOf(a.n, k, e)
    ensures DependencyRefs(a.n, a.Cs(), a.installed, e) == {Ref(k)}
    ensures RefsOfNames(a.n, a.Cs(), {e}) == {Ref(k)}
    ensures NamedRefs(a.n, a.Cs(), e) != {}
  {
    k := MatchRefsSingle(a, e);
    forall m | m in a.Cs() && RuntimeOf(a.n, m, e)
      ensures m == k
    {
      RuntimeUnique(a, k, m, e);
    }
    UniqueRefs(a.n, a.Cs(), e, k);
  }

  lemma UniqueRefs(n: Naming, cs: seq<Candidate>, e: string, k: Candidate)
    requires k in cs && RuntimeOf(n, k, e) && forall m :: m in cs && RuntimeOf(n, m, e) ==> m == k
    ensures RefsOfNames(n, cs, {e}) == {Ref(k)} && NamedRefs(n, cs, e) != {}
  {
    assert Ref(k) in NamedRefs(n, cs, e);
    assert Ref(k) in RefsOfNames(n, cs, {e});
  }

  lemma RefsOfNamesSplit(n: Naming, cs: seq<Candidate>, names: set<string>, y: string)
    ensures y in RefsOfNames(n, cs, names) <==> exists e :: e in names && y in RefsOfNames(n, cs, {e})
  {
    if y in RefsOfNames(n, cs, names) {
      var e, k :| e in names && k in cs && RuntimeOf(n, k, e) && y == Ref(k);
      assert y in RefsOfNames(n, cs, {e});
    }
    if e :| e in names && y in RefsOfNames(n, cs, {e}) {
      var k :| k in cs && RuntimeOf(n, k, e) && y == Ref(k);
    }
  }

  /** Each dependency of `d` is a single runtime component. */
  ghost predicate SingleDependencies(a: Case, d: string)
    requires d in a.fp
  {
    forall e :: e in a.fp[d] ==>
      && Single(DependencyRefs(a.n, a.Cs(), a.installed, e))
      && DependencyRefs(a.n, a.Cs(), a.installed, e) == RefsOfNames(a.n, a.Cs(), {e})
      && NamedRefs(a.n, a.Cs(), e) != {}
  }

  lemma DependenciesSingle(a: Case, d: string)
    requires NamingOk(a.n, a.fp) && a.Names() && d in a.fp && a.fp[d] <= a.installed.Keys
    ensures SingleDependencies(a, d)
  {
    forall e | e in a.fp[d]
      ensures Single(DependencyRefs(a.n, a.Cs(), a.installed, e))
      ensures DependencyRefs(a.n, a.Cs(), a.installed, e) == RefsOfNames(a.n, a.Cs(), {e})
      ensures NamedRefs(a.n, a.Cs(), e) != {}
    {
      var k := DependencySingle(a, e);
    }
  }

  lemma ExpectedIsNames(a: Case, d: string)
    requires d in a.fp && SingleDependencies(a, d)
    ensures ExpectedRefs(a.n, a.fp, a.Cs(), a.installed, d) == RefsOfNames(a.n, a.Cs(), a.fp[d])
  {
    forall y
      ensures y in ExpectedRefs(a.n, a.fp, a.Cs(), a.installed, d) <==> y in RefsOfNames(a.n, a.Cs(), a.fp[d])
    {
      RefsOfNamesSplit(a.n, a.Cs(), a.fp[d], y);
    }
  }

  ghost predicate Ready(a: Case) {
    && a.platforms != [] && NamingOk(a.n, a.fp)
    && a.Names() && a.FirstPartyKnown() && a.ArtifactsKnown() && a.ArtifactsMerged()
    && RefsApart(a.platforms, a.artifacts)
  }

  lemma FirstPartyMatch(a: Case, d: string) returns (k: Candidate)
    requires Ready(a) && d in a.fp
    ensures d in a.installed && a.fp[d] <= a.installed.Keys
    ensures k in a.Cs() && RuntimeOf(a.n, k, d)
    ensures NamedRefs(a.n, a.Cs(), d) == MatchRefs(a.n, a.Cs(), d, a.installed[d]) == {Ref(k)}
  {
    FirstPartyInstalled(a, d);
    FirstPartyRuntimeName(a, d);
    k := MatchRefsSingle(a, d);
    NamedRefsSingle(a, d, k);
  }

  lemma AggregateFirstParty(a: Case, d: string)
    requires Ready(a) && RuntimeClosed(a.Cs(), a.Rs()) && d in a.fp
    ensures FirstPartyOk(a.n, a.fp, a.Cs(), a.Rs(), a.installed, d)
    ensures SingleDependencies(a, d)
  {
    var k := FirstPartyMatch(a, d);
    AggregateRowExact(a, d, k);
    DependenciesSingle(a, d);
    ExpectedIsNames(a, d);
    FirstPartyRowPresent(a, k);
    FirstPartyAssembled(a, d, Ref(k));
  }

  lemma FirstPartyAssembled(a: Case, d: string, x: string)
    requires d in a.fp && d in a.installed && SingleDependencies(a, d)
    requires NamedRefs(a.n, a.Cs(), d) == MatchRefs(a.n, a.Cs(), d, a.installed[d]) == {x}
    requires HasRow(a.Rs(), x) && Deps(a.Rs(), x) == ExpectedRefs(a.n, a.fp, a.Cs(), a.installed, d)
    ensures FirstPartyOk(a.n, a.fp, a.Cs(), a.Rs(), a.installed, d)
  {
  }

  lemma FirstPartyRowPresent(a: Case, k: Candidate)
    requires RuntimeClosed(a.Cs(), a.Rs()) && k in a.Cs() && IsRuntime(k)
    ensures HasRow(a.Rs(), Ref(k))
  {
    assert Ref(k) in RuntimeRefs(a.Cs());
  }

  /** If every platform SBOM is valid for its own artifacts and installed set, the platforms
      merge, runtime references depend only on the distribution name and stay apart from the
      references handed out here, and no two files have the same digest, then whatever
      aggregation returns is valid for the merged artifacts and installed set. */
  lemma AggregationPreservesValidity(n: Naming, fp: FirstParty, platforms: seq<Platform>,
                                     artifacts: map<string, string>, installed: map<string, string>, s: Bom)
    requires platforms != [] && NamingOk(n, fp)
    requires forall p :: p in platforms ==> Valid(n, fp, p.sbom, p.artifacts, p.installed) && Generated(n, fp, p)
    requires Merged(platforms, artifacts, installed)
    requires DistinctDigests(artifacts) && RefsApart(platforms, artifacts) && RefsByName(n, platforms)
    requires RefAgreement(platforms) && IsAggregate(n, platforms, artifacts, s)
    ensures Valid(n, fp, s, artifacts, installed)
  {
    var a := Case(n, fp, platforms, artifacts, installed, s);
    FactsEverywhere(n, fp, platforms);
    FactsKnown(a);
    MergedParts(a);
    AggregateValid(a);
  }

  lemma FactsKnown(a: Case)
    requires forall p :: p in a.platforms ==> Facts(a.n, a.fp, p)
    ensures a.RuntimeKnown() && a.GraphsKnown() && a.ArtifactsKnown() && a.FirstPartyKnown()
  {
  }

  lemma MergedParts(a: Case)
    requires Merged(a.platforms, a.artifacts, a.installed)
    ensures a.ArtifactsMerged() && a.InstalledMerged()
  {
  }

  lemma FactsEverywhere(n: Naming, fp: FirstParty, platforms: seq<Platform>)
    requires forall p :: p in platforms ==> Valid(n, fp, p.sbom, p.artifacts, p.installed) && Generated(n, fp, p)
    ensures forall p :: p in platforms ==> Facts(n, fp, p)
    ensures AllGenerated(n, fp, platforms)
  {
    forall p | p in platforms
      ensures Facts(n, fp, p)
    {
      ValidGivesFacts(n, fp, p);
    }
  }

  lemma AggregateValidComponents(a: Case)
    requires Ready(a) && DistinctDigests(a.artifacts)
    ensures ValidComponents(a.n, a.s, a.artifacts, a.installed)
  {
    AggregateDescribed(a);
    AggregateArtifactsMatch(a);
    AggregateRefsOk(a);
    AggregateClassified(a);
  }

  lemma AggregateValidGraph(a: Case)
    requires a.Graphs()
    ensures ValidGraph(a.s)
  {
    AggregateGraphOk(a);
    AggregateRuntimeClosed(a);
    AggregateLeaves(a);
  }

  lemma AggregateValidFirstParty(a: Case)
    requires Ready(a) && RuntimeClosed(a.Cs(), a.Rs())
    ensures ValidFirstParty(a.n, a.fp, a.s, a.installed)
  {
    forall d | d in a.fp
      ensures FirstPartyOk(a.n, a.fp, a.Cs(), a.Rs(), a.installed, d)
      ensures SingleDependencies(a, d)
    {
      AggregateFirstParty(a, d);
    }
  }

  lemma AggregateValid(a: Case)
    requires Ready(a) && a.Graphs() && DistinctDigests(a.artifacts)
    ensures Valid(a.n, a.fp, a.s, a.artifacts, a.installed)
  {
    AggregateValidComponents(a);
    AggregateValidGraph(a);
    AggregateValidFirstParty(a);
  }
}
