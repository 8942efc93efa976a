/** What a valid platform SBOM guarantees, in the terms the aggregate needs. */
module SbomPlatform {
  import opened Common
  import opened Sbom

  datatype Platform = Platform(sbom: Bom, artifacts: map<string, string>, installed: map<string, string>)

  function ReleaseRef(sha: string): string { "urn:sha256:" + sha }

  function ReleaseRefs(artifacts: map<string, string>): set<string> {
    set f | f in artifacts :: ReleaseRef(artifacts[f])
  }

  function Cands(p: Platform): seq<Candidate> { Candidates(p.sbom) }

  function Rows(p: Platform): seq<Row> { p.sbom.dependencies }

  /** How an accepted platform SBOM is generated: every release artifact belongs to a
      first-party distribution and is referenced by its digest, and the SBOM has no release
      document component of its own. */
  ghost predicate Generated(n: Naming, fp: FirstParty, p: Platform) {
    && (forall f :: f in p.artifacts && n.identity(f).Some? ==> n.identity(f).value.0 in fp)
    && (forall k :: k in Cands(p) && IsArtifact(k.component) && |k.component.sha256| == 1 ==>
          Ref(k) == ReleaseRef(k.component.sha256[0]))
    && (forall k :: k in Cands(p) ==> !IsDocument(k))
  }

  ghost predicate RuntimeFacts(n: Naming, p: Platform) {
    && (forall k :: k in Cands(p) && IsRuntime(k) ==>
          && RefOk(n, k.component) && NamedOk(n, k.component)
          && var d := n.canonicalize(k.component.name.value);
             d in p.installed && k.component.version == Some(p.installed[d]))
    && (forall d :: d in p.installed ==> exists k :: k in Cands(p) && RuntimeOf(n, k, d))
  }

  lemma RuntimeFact(n: Naming, p: Platform, k: Candidate) returns (d: string)
    requires RuntimeFacts(n, p) && k in Cands(p) && IsRuntime(k)
    ensures RefOk(n, k.component) && NamedOk(n, k.component) && d == n.canonicalize(k.component.name.value)
    ensures d in p.installed && k.component.version == Some(p.installed[d])
  {
    d := n.canonicalize(k.component.name.value);
  }

  lemma RuntimeOn(n: Naming, p: Platform, d: string) returns (k: Candidate)
    requires RuntimeFacts(n, p) && d in p.installed
    ensures k in Cands(p) && RuntimeOf(n, k, d)
  {
    k :| k in Cands(p) && RuntimeOf(n, k, d);
  }

  ghost predicate GraphFacts(p: Platform) {
    && (forall r :: r in Rows(p) ==> RowOk(r) && r.ref in RuntimeRefs(Cands(p)) + ReleaseRefs(p.artifacts))
    && (forall x :: x in RuntimeRefs(Cands(p)) ==> HasRow(Rows(p), x) && Deps(Rows(p), x) <= RuntimeRefs(Cands(p)))
    && (forall x :: x in ReleaseRefs(p.artifacts) && x !in RuntimeRefs(Cands(p)) ==> Deps(Rows(p), x) == {})
  }

  ghost predicate ArtifactFacts(n: Naming, fp: FirstParty, p: Platform) {
    forall f :: f in p.artifacts ==>
      && IsSha256(p.artifacts[f])
      && n.identity(f).Some?
      && var id := n.identity(f).value;
         && id.0 in p.installed && p.installed[id.0] == id.1 && id.1 != ""
         && forall d :: d in fp ==> f == "" || n.canonicalize(f) != d
  }

  /** The references of the runtime components of the given distributions. */
  function RefsOfNames(n: Naming, cs: seq<Candidate>, names: set<string>): set<string> {
    set e, k | e in names && k in cs && RuntimeOf(n, k, e) :: Ref(k)
  }

  ghost predicate FirstPartyFacts(n: Naming, fp: FirstParty, p: Platform) {
    forall d :: d in fp ==>
      && d in p.installed
      && fp[d] <= p.installed.Keys
      && forall k :: k in Cands(p) && RuntimeOf(n, k, d) ==> Deps(Rows(p), Ref(k)) == RefsOfNames(n, Cands(p), fp[d])
  }

  ghost predicate Facts(n: Naming, fp: FirstParty, p: Platform) {
    RuntimeFacts(n, p) && GraphFacts(p) && ArtifactFacts(n, fp, p) && FirstPartyFacts(n, fp, p)
  }

  // ---------- one component per name ----------

  lemma RuntimeOnce(n: Naming, cs: seq<Candidate>, installed: map<string, string>, k: Candidate, m: Candidate,
                    d: string)
    requires Classified(n, cs, installed) && d in installed
    requires k in cs && m in cs && RuntimeOf(n, k, d) && RuntimeOf(n, m, d)
    ensures k == m && k.component.version == Some(installed[d])
  {
    assert InstalledOnce(n, cs, d, installed[d]);
    var i :| 0 <= i < |cs| && cs[i] == k;
    var j :| 0 <= j < |cs| && cs[j] == m;
  }

  lemma RuntimeExists(n: Naming, cs: seq<Candidate>, installed: map<string, string>, d: string) returns (k: Candidate)
    requires Classified(n, cs, installed) && d in installed
    ensures k in cs && RuntimeOf(n, k, d) && k.component.version == Some(installed[d])
  {
    assert InstalledOnce(n, cs, d, installed[d]);
    var i :| 0 <= i < |cs| && RuntimeOf(n, cs[i], d) && cs[i].component.version == Some(installed[d]);
    k := cs[i];
  }

  lemma RuntimeFactsHold(n: Naming, p: Platform)
    requires RefsOk(n, Cands(p)) && Classified(n, Cands(p), p.installed)
    ensures RuntimeFacts(n, p)
  {
    forall k | k in Cands(p) && IsRuntime(k)
      ensures k.component.version == Some(p.installed[n.canonicalize(k.component.name.value)])
    {
      var d := n.canonicalize(k.component.name.value);
      RuntimeOnce(n, Cands(p), p.installed, k, k, d);
    }
    forall d | d in p.installed
      ensures exists k :: k in Cands(p) && RuntimeOf(n, k, d)
    {
      var k := RuntimeExists(n, Cands(p), p.installed, d);
    }
  }

  /** A first-party name belongs to its runtime component and to no other component. */
  lemma FirstPartyNameIsRuntime(n: Naming, fp: FirstParty, cs: seq<Candidate>, rows: seq<Row>,
                                installed: map<string, string>, d: string, k: Candidate)
    requires RefsOk(n, cs) && Classified(n, cs, installed) && d in fp && FirstPartyOk(n, fp, cs, rows, installed, d)
    requires k in cs && HasName(n, k.component, d)
    ensures RuntimeOf(n, k, d) && MatchRefs(n, cs, d, installed[d]) == {Ref(k)}
            && k.component.version == Some(installed[d])
  {
    var m := RuntimeExists(n, cs, installed, d);
    var x :| MatchRefs(n, cs, d, installed[d]) == {x};
    assert Ref(k) in NamedRefs(n, cs, d) && Ref(m) in NamedRefs(n, cs, d);
    SameRefSameCandidate(cs, k, m);
  }

  /** Every listed file has an artifact component. */
  lemma ArtifactCandidate(n: Naming, p: Platform, f: string) returns (k: Candidate)
    requires ArtifactsMatch(n, p.sbom.components, p.artifacts) && f in p.artifacts
    ensures k in Cands(p) && IsArtifact(k.component) && k.component.name == Some(f)
    ensures |k.component.sha256| == 1 && k.component.sha256[0] == p.artifacts[f] && IsSha256(p.artifacts[f])
  {
    var c :| c in p.sbom.components && IsArtifact(c) && c.name == Some(f);
    assert ArtifactOk(n, c, p.artifacts);
    var i :| 0 <= i < |p.sbom.components| && p.sbom.components[i] == c;
    k := Candidate(c, false);
    assert Cands(p)[i] == k;
  }

  /** Every artifact component is a listed file. */
  lemma ArtifactIsListed(n: Naming, p: Platform, k: Candidate)
    requires ArtifactsMatch(n, p.sbom.components, p.artifacts) && Classified(n, Cands(p), p.installed)
    requires k in Cands(p) && IsArtifact(k.component)
    ensures ArtifactOk(n, k.component, p.artifacts)
  {
    assert !k.isMetadata;
    var i :| 0 <= i < |Cands(p)| && Cands(p)[i] == k;
    assert k.component == p.sbom.components[i];
  }

  lemma ArtifactIdentity(n: Naming, fp: FirstParty, p: Platform, f: string)
    requires Generated(n, fp, p) && f in p.artifacts && Described(n, Cands(p), p.artifacts)
    requires RefsOk(n, Cands(p)) && Classified(n, Cands(p), p.installed)
    requires forall d :: d in fp ==> FirstPartyOk(n, fp, Cands(p), Rows(p), p.installed, d)
    ensures n.identity(f).Some?
    ensures n.identity(f).value.0 in p.installed && p.installed[n.identity(f).value.0] == n.identity(f).value.1
    ensures n.identity(f).value.1 != ""
  {
    var id := n.identity(f).value;
    assert DescribedAs(n, Cands(p), id);
    var k :| k in Cands(p) && HasName(n, k.component, id.0) && k.component.version == Some(id.1);
    FirstPartyNameIsRuntime(n, fp, Cands(p), Rows(p), p.installed, id.0, k);
  }

  lemma ArtifactNotFirstPartyName(n: Naming, fp: FirstParty, p: Platform, f: string, d: string)
    requires f in p.artifacts && d in fp && ArtifactsMatch(n, p.sbom.components, p.artifacts)
    requires RefsOk(n, Cands(p)) && Classified(n, Cands(p), p.installed)
    requires FirstPartyOk(n, fp, Cands(p), Rows(p), p.installed, d)
    ensures f == "" || n.canonicalize(f) != d
  {
    var k := ArtifactCandidate(n, p, f);
    if f != "" && n.canonicalize(f) == d {
      FirstPartyNameIsRuntime(n, fp, Cands(p), Rows(p), p.installed, d, k);
    }
  }

  lemma ArtifactFactsHold(n: Naming, fp: FirstParty, p: Platform)
    requires Generated(n, fp, p)
    requires Described(n, Cands(p), p.artifacts) && ArtifactsMatch(n, p.sbom.components, p.artifacts)
    requires RefsOk(n, Cands(p)) && Classified(n, Cands(p), p.installed)
    requires forall d :: d in fp ==> FirstPartyOk(n, fp, Cands(p), Rows(p), p.installed, d)
    ensures ArtifactFacts(n, fp, p)
  {
    forall f | f in p.artifacts
      ensures IsSha256(p.artifacts[f]) && n.identity(f).Some?
      ensures n.identity(f).value.0 in p.installed && p.installed[n.identity(f).value.0] == n.identity(f).value.1
      ensures n.identity(f).value.1 != ""
      ensures forall d :: d in fp ==> f == "" || n.canonicalize(f) != d
    {
      ArtifactIdentity(n, fp, p, f);
      var k := ArtifactCandidate(n, p, f);
      forall d | d in fp
        ensures f == "" || n.canonicalize(f) != d
      {
        ArtifactNotFirstPartyName(n, fp, p, f, d);
      }
    }
  }

  lemma ArtifactRefsAreReleases(n: Naming, fp: FirstParty, p: Platform)
    requires Generated(n, fp, p) && ArtifactsMatch(n, p.sbom.components, p.artifacts)
             && Classified(n, Cands(p), p.installed)
    ensures ArtifactRefs(Cands(p)) == ReleaseRefs(p.artifacts)
    ensures DocumentRefs(Cands(p)) == {}
  {
    forall x: string | x in ArtifactRefs(Cands(p)) ensures x in ReleaseRefs(p.artifacts) {
      var k :| k in Cands(p) && IsArtifact(k.component) && Ref(k) == x;
      ArtifactRefIsRelease(n, fp, p, k);
    }
    forall x: string | x in ReleaseRefs(p.artifacts) ensures x in ArtifactRefs(Cands(p)) {
      var f :| f in p.artifacts && x == ReleaseRef(p.artifacts[f]);
      ReleaseIsArtifactRef(n, fp, p, f);
    }
  }

  lemma ArtifactRefIsRelease(n: Naming, fp: FirstParty, p: Platform, k: Candidate)
    requires Generated(n, fp, p) && ArtifactsMatch(n, p.sbom.components, p.artifacts)
    requires Classified(n, Cands(p), p.installed) && k in Cands(p) && IsArtifact(k.component)
    ensures Ref(k) in ReleaseRefs(p.artifacts)
  {
    ArtifactIsListed(n, p, k);
  }

  lemma ReleaseIsArtifactRef(n: Naming, fp: FirstParty, p: Platform, f: string)
    requires Generated(n, fp, p) && ArtifactsMatch(n, p.sbom.components, p.artifacts) && f in p.artifacts
    ensures ReleaseRef(p.artifacts[f]) in ArtifactRefs(Cands(p))
  {
    var k := ArtifactCandidate(n, p, f);
  }

  lemma GraphFactsHold(n: Naming, fp: FirstParty, p: Platform)
    requires Generated(n, fp, p) && ArtifactsMatch(n, p.sbom.components, p.artifacts)
             && Classified(n, Cands(p), p.installed)
    requires RefsOk(n, Cands(p)) && GraphOk(Cands(p), Rows(p))
    requires RuntimeClosed(Cands(p), Rows(p)) && ArtifactsLeaf(Cands(p), Rows(p))
    ensures GraphFacts(p)
  {
    ArtifactRefsAreReleases(n, fp, p);
    ClassesPartition(Cands(p));
  }

  /** A first-party dependency is installed, and its row points at its runtime component. */
  lemma DependencyIsRuntime(n: Naming, fp: FirstParty, cs: seq<Candidate>, rows: seq<Row>,
                            installed: map<string, string>, d: string, e: string)
    requires RefsOk(n, cs) && Classified(n, cs, installed) && RuntimeClosed(cs, rows)
    requires d in fp && FirstPartyOk(n, fp, cs, rows, installed, d) && e in fp[d]
    ensures e in installed
    ensures exists k :: k in cs && RuntimeOf(n, k, e) && DependencyRefs(n, cs, installed, e) == {Ref(k)}
  {
    var m := RuntimeExists(n, cs, installed, d);
    FirstPartyNameIsRuntime(n, fp, cs, rows, installed, d, m);
    var y :| DependencyRefs(n, cs, installed, e) == {y};
    assert y in ExpectedRefs(n, fp, cs, installed, d);
    assert y in Deps(rows, Ref(m));
    assert Ref(m) in RuntimeRefs(cs);
    assert y in RuntimeRefs(cs);
    var k :| k in cs && IsRuntime(k) && Ref(k) == y;
    assert y in NamedRefs(n, cs, e);
    var j :| j in cs && HasName(n, j.component, e) && Ref(j) == y;
    SameRefSameCandidate(cs, k, j);
  }

  lemma FirstPartyRow(n: Naming, fp: FirstParty, cs: seq<Candidate>, rows: seq<Row>, installed: map<string, string>,
                      d: string)
    requires RefsOk(n, cs) && Classified(n, cs, installed) && RuntimeClosed(cs, rows)
    requires d in fp && FirstPartyOk(n, fp, cs, rows, installed, d)
    ensures fp[d] <= installed.Keys
    ensures ExpectedRefs(n, fp, cs, installed, d) == RefsOfNames(n, cs, fp[d])
  {
    forall e | e in fp[d]
      ensures e in installed
      ensures forall x :: x in DependencyRefs(n, cs, installed, e) <==> exists k ::
        k in cs && RuntimeOf(n, k, e) && Ref(k) == x
    {
      DependencyIsRuntime(n, fp, cs, rows, installed, d, e);
      var k :| k in cs && RuntimeOf(n, k, e) && DependencyRefs(n, cs, installed, e) == {Ref(k)};
      forall m | m in cs && RuntimeOf(n, m, e)
        ensures m == k
      {
        RuntimeOnce(n, cs, installed, k, m, e);
      }
    }
    assert forall x :: x in ExpectedRefs(n, fp, cs, installed, d) <==> x in RefsOfNames(n, cs, fp[d]);
  }

  lemma FirstPartyFactsHold(n: Naming, fp: FirstParty, p: Platform)
    requires RefsOk(n, Cands(p)) && Classified(n, Cands(p), p.installed) && RuntimeClosed(Cands(p), Rows(p))
    requires forall d :: d in fp ==> FirstPartyOk(n, fp, Cands(p), Rows(p), p.installed, d)
    ensures FirstPartyFacts(n, fp, p)
  {
    forall d | d in fp
      ensures d in p.installed && fp[d] <= p.installed.Keys
      ensures forall k ::
        k in Cands(p) && RuntimeOf(n, k, d) ==> Deps(Rows(p), Ref(k)) == RefsOfNames(n, Cands(p), fp[d])
    {
      FirstPartyRow(n, fp, Cands(p), Rows(p), p.installed, d);
      forall k | k in Cands(p) && RuntimeOf(n, k, d)
        ensures Deps(Rows(p), Ref(k)) == RefsOfNames(n, Cands(p), fp[d])
      {
        FirstPartyNameIsRuntime(n, fp, Cands(p), Rows(p), p.installed, d, k);
      }
    }
  }

  lemma ValidGivesFacts(n: Naming, fp: FirstParty, p: Platform)
    requires Valid(n, fp, p.sbom, p.artifacts, p.installed) && Generated(n, fp, p)
    ensures Facts(n, fp, p)
  {
    RuntimeFactsHold(n, p);
    ArtifactFactsHold(n, fp, p);
    GraphFactsHold(n, fp, p);
    FirstPartyFactsHold(n, fp, p);
  }
}
