/** CycloneDX software bills of materials, decoded, and what it means for one to be valid. */
module Sbom {
  import opened Common

  /** `archive` marks a distribution reference commented "PackageSource: Archive". */
  datatype External = External(archive: bool, token: nat)

  /** A component. `sha256` lists its SHA-256 hashes and `rest` stands for every other field. */
  datatype Component = Component(
    kind: string,
    name: Option<string>,
    version: Option<string>,
    bomRef: Option<string>,
    sha256: seq<string>,
    properties: map<string, string>,
    external: Option<seq<External>>,
    rest: nat)

  datatype Row = Row(ref: string, dependsOn: seq<string>)

  datatype Bom = Bom(
    format: string,
    spec: string,
    components: seq<Component>,
    metadata: Option<Component>,
    dependencies: seq<Row>)

  datatype Candidate = Candidate(component: Component, isMetadata: bool)

  /** Answers of the packaging library and the character tables. */
  datatype Naming = Naming(
    identity: string -> Option<(string, string)>,
    artifactType: string -> string,
    canonicalize: string -> string,
    isSpace: char -> bool)

  type FirstParty = map<string, set<string>>

  const BUNDLE_REF := "urn:graphblocks:release-bundle:1.0"
  const BUNDLE_NAME := "graphblocks-release-bundle"
  const DOCUMENT := Component("application", Some(BUNDLE_NAME), Some("1.0"), Some(BUNDLE_REF), [], map[], None, 0)

  const ARTIFACT_FLAG := "graphblocks:release-artifact"
  const DISTRIBUTION := "graphblocks:distribution"
  const VERSION := "graphblocks:version"
  const ARTIFACT_TYPE := "graphblocks:artifact-type"

  // ---------- components ----------

  function Prop(c: Component, key: string): string {
    if key in c.properties then c.properties[key] else ""
  }

  predicate IsArtifact(c: Component) { Prop(c, ARTIFACT_FLAG) == "true" }

  predicate IsDocument(k: Candidate) { k.isMetadata && k.component == DOCUMENT }

  predicate IsRuntime(k: Candidate) { !IsArtifact(k.component) && !IsDocument(k) }

  function Text(o: Option<string>): string { match o case Some(s) => s case None => "" }

  function Ref(k: Candidate): string { Text(k.component.bomRef) }

  predicate Trimmed(n: Naming, s: string) {
    s != "" && !n.isSpace(s[0]) && !n.isSpace(s[|s| - 1])
  }

  predicate RefOk(n: Naming, c: Component) {
    c.bomRef.Some? && Trimmed(n, c.bomRef.value)
    && forall i :: 0 <= i < |c.bomRef.value| ==> c.bomRef.value[i] as int >= 32
  }

  predicate IsSha256(s: string) {
    |s| == 64 && forall i :: 0 <= i < |s| ==> '0' <= s[i] <= '9' || 'a' <= s[i] <= 'f'
  }

  /** The component has a name, and it is this distribution once canonicalized. */
  predicate HasName(n: Naming, c: Component, d: string) {
    c.name.Some? && c.name.value != "" && n.canonicalize(c.name.value) == d
  }

  predicate NamedOk(n: Naming, c: Component) {
    c.name.Some? && Trimmed(n, c.name.value) && c.version.Some? && Trimmed(n, c.version.value)
  }

  function Candidates(s: Bom): (cs: seq<Candidate>)
    ensures |cs| == |s.components| + if s.metadata.Some? then 1 else 0
    ensures forall i :: 0 <= i < |s.components| ==> cs[i] == Candidate(s.components[i], false)
    ensures s.metadata.Some? ==> cs[|s.components|] == Candidate(s.metadata.value, true)
  {
    seq(|s.components|, i requires 0 <= i < |s.components| => Candidate(s.components[i], false))
    + match s.metadata case Some(c) => [Candidate(c, true)] case None => []
  }

  // ---------- references ----------

  function AllRefs(cs: seq<Candidate>): set<string> { set k | k in cs :: Ref(k) }
  function RuntimeRefs(cs: seq<Candidate>): set<string> { set k | k in cs && IsRuntime(k) :: Ref(k) }
  function ArtifactRefs(cs: seq<Candidate>): set<string> { set k | k in cs && IsArtifact(k.component) :: Ref(k) }
  function DocumentRefs(cs: seq<Candidate>): set<string> {
    set k | k in cs && !IsArtifact(k.component) && IsDocument(k) :: Ref(k)
  }

  function NamedRefs(n: Naming, cs: seq<Candidate>, d: string): set<string> {
    set k | k in cs && HasName(n, k.component, d) :: Ref(k)
  }

  function MatchRefs(n: Naming, cs: seq<Candidate>, d: string, v: string): set<string> {
    set k | k in cs && HasName(n, k.component, d) && Text(k.component.version) == v :: Ref(k)
  }

  ghost predicate HasRow(rows: seq<Row>, ref: string) {
    exists i :: 0 <= i < |rows| && rows[i].ref == ref
  }

  /** What the dependency graph has under `ref`; empty without a row. */
  function Deps(rows: seq<Row>, ref: string): set<string> {
    set r, x | r in rows && r.ref == ref && x in r.dependsOn :: x
  }

  // ---------- validity, one clause per check ----------

  predicate Formatted(s: Bom) { s.format == "CycloneDX" && s.spec in {"1.6", "1.7"} }

  ghost predicate Described(n: Naming, cs: seq<Candidate>, artifacts: map<string, string>) {
    forall f :: f in artifacts ==> n.identity(f).Some? && DescribedAs(n, cs, n.identity(f).value)
  }

  ghost predicate DescribedAs(n: Naming, cs: seq<Candidate>, id: (string, string)) {
    id.1 != "" && exists k :: k in cs && HasName(n, k.component, id.0) && k.component.version == Some(id.1)
  }

  ghost predicate ArtifactOk(n: Naming, c: Component, artifacts: map<string, string>) {
    && c.name.Some? && c.name.value in artifacts
    && |c.sha256| == 1 && IsSha256(c.sha256[0]) && c.sha256[0] == artifacts[c.name.value]
    && n.identity(c.name.value) == Some((Prop(c, DISTRIBUTION), Prop(c, VERSION)))
    && n.artifactType(c.name.value) == Prop(c, ARTIFACT_TYPE)
  }

  ghost predicate ArtifactsMatch(n: Naming, comps: seq<Component>, artifacts: map<string, string>) {
    && (forall c :: c in comps && IsArtifact(c) ==> ArtifactOk(n, c, artifacts))
    && (forall i, j ::
         0 <= i < j < |comps| && IsArtifact(comps[i]) && IsArtifact(comps[j]) ==> comps[i].name != comps[j].name)
    && (forall f :: f in artifacts ==> exists c :: c in comps && IsArtifact(c) && c.name == Some(f))
  }

  ghost predicate RefsOk(n: Naming, cs: seq<Candidate>) {
    && (forall k :: k in cs ==> RefOk(n, k.component))
    && DistinctRefs(cs)
  }

  ghost predicate DistinctRefs(cs: seq<Candidate>) {
    forall i, j :: 0 <= i < j < |cs| ==> Ref(cs[i]) != Ref(cs[j])
  }

  /** `k` is the runtime component of distribution `d`. */
  predicate RuntimeOf(n: Naming, k: Candidate, d: string) {
    IsRuntime(k) && HasName(n, k.component, d)
  }

  ghost predicate Classified(n: Naming, cs: seq<Candidate>, installed: map<string, string>) {
    && (forall k :: k in cs && IsArtifact(k.component) ==> !k.isMetadata)
    && (forall k ::
         k in cs && IsRuntime(k) ==> NamedOk(n, k.component) && n.canonicalize(k.component.name.value) in installed)
    && (forall d :: d in installed ==> InstalledOnce(n, cs, d, installed[d]))
  }

  /** Exactly one runtime component has the name, and it has the version. */
  ghost predicate InstalledOnce(n: Naming, cs: seq<Candidate>, d: string, v: string) {
    exists i :: 0 <= i < |cs| && RuntimeOf(n, cs[i], d) && cs[i].component.version == Some(v)
      && forall j :: 0 <= j < |cs| && RuntimeOf(n, cs[j], d) ==> j == i
  }

  ghost predicate RowOk(r: Row) {
    r.ref != "" && NoRepeats(r.dependsOn) && "" !in r.dependsOn
  }

  ghost predicate GraphOk(cs: seq<Candidate>, rows: seq<Row>) {
    && (forall r :: r in rows ==> RowOk(r))
    && (forall i, j :: 0 <= i < j < |rows| ==> rows[i].ref != rows[j].ref)
    && (forall r :: r in rows ==> r.ref in AllRefs(cs))
    && (forall r, x :: r in rows && x in r.dependsOn ==> x in AllRefs(cs))
  }

  ghost predicate RuntimeClosed(cs: seq<Candidate>, rows: seq<Row>) {
    forall x :: x in RuntimeRefs(cs) ==> HasRow(rows, x) && Deps(rows, x) <= RuntimeRefs(cs)
  }

  ghost predicate ArtifactsLeaf(cs: seq<Candidate>, rows: seq<Row>) {
    forall x :: x in ArtifactRefs(cs) ==> Deps(rows, x) == {}
  }

  ghost predicate DocumentExact(cs: seq<Candidate>, rows: seq<Row>) {
    forall x :: x in DocumentRefs(cs) ==> HasRow(rows, x) && Deps(rows, x) == ArtifactRefs(cs)
  }

  ghost predicate Required(n: Naming, fp: FirstParty, cs: seq<Candidate>) {
    forall d, e :: d in fp && e in fp[d] ==> NamedRefs(n, cs, e) != {}
  }

  /** The components a first-party dependency may stand for. */
  function DependencyRefs(n: Naming, cs: seq<Candidate>, installed: map<string, string>, e: string): set<string> {
    if e in installed then MatchRefs(n, cs, e, installed[e]) else NamedRefs(n, cs, e)
  }

  function ExpectedRefs(n: Naming, fp: FirstParty, cs: seq<Candidate>, installed: map<string, string>,
                        d: string): set<string>
    requires d in fp
  {
    set e, x | e in fp[d] && x in DependencyRefs(n, cs, installed, e) :: x
  }

  ghost predicate Single(s: set<string>) { exists x :: s == {x} }

  ghost predicate FirstPartyOk(n: Naming, fp: FirstParty, cs: seq<Candidate>, rows: seq<Row>,
                               installed: map<string, string>, d: string)
    requires d in fp
  {
    && d in installed
    && Single(MatchRefs(n, cs, d, installed[d]))
    && NamedRefs(n, cs, d) == MatchRefs(n, cs, d, installed[d])
    && (forall e :: e in fp[d] ==> Single(DependencyRefs(n, cs, installed, e)))
    && forall x :: x in MatchRefs(n, cs, d, installed[d]) ==>
         HasRow(rows, x) && Deps(rows, x) == ExpectedRefs(n, fp, cs, installed, d)
  }

  ghost predicate ValidComponents(n: Naming, s: Bom, artifacts: map<string, string>, installed: map<string, string>) {
    && Formatted(s)
    && Described(n, Candidates(s), artifacts)
    && ArtifactsMatch(n, s.components, artifacts)
    && RefsOk(n, Candidates(s))
    && Classified(n, Candidates(s), installed)
  }

  ghost predicate ValidGraph(s: Bom) {
    && GraphOk(Candidates(s), s.dependencies)
    && RuntimeClosed(Candidates(s), s.dependencies)
    && ArtifactsLeaf(Candidates(s), s.dependencies)
    && DocumentExact(Candidates(s), s.dependencies)
  }

  ghost predicate ValidFirstParty(n: Naming, fp: FirstParty, s: Bom, installed: map<string, string>) {
    && Required(n, fp, Candidates(s))
    && forall d :: d in fp ==> FirstPartyOk(n, fp, Candidates(s), s.dependencies, installed, d)
  }

  /** Everything `_validate_sbom` demands when the installed distributions are supplied. */
  ghost predicate Valid(n: Naming, fp: FirstParty, s: Bom, artifacts: map<string, string>,
                        installed: map<string, string>) {
    ValidComponents(n, s, artifacts, installed) && ValidGraph(s) && ValidFirstParty(n, fp, s, installed)
  }

  // ---------- accepted SBOMs are closed ----------

  /** A walk of any length along dependency rows. */
  ghost predicate DependencyPath(rows: seq<Row>, p: seq<string>) {
    |p| > 0 && forall i :: 0 <= i < |p| - 1 ==> p[i + 1] in Deps(rows, p[i])
  }

  lemma {:induction false} RuntimePathsStay(cs: seq<Candidate>, rows: seq<Row>, p: seq<string>)
    requires RuntimeClosed(cs, rows) && DependencyPath(rows, p) && p[0] in RuntimeRefs(cs)
    ensures p[|p| - 1] in RuntimeRefs(cs)
    decreases |p|
  {
    if |p| > 1 {
      assert p[1] in Deps(rows, p[0]);
      RuntimePathsStay(cs, rows, p[1..]);
    }
  }

  /** From the document component one can reach the release artifacts, in one step, and
      nothing else in any number of steps. */
  lemma DocumentReachesArtifacts(cs: seq<Candidate>, rows: seq<Row>, doc: string, x: string)
    requires DocumentExact(cs, rows) && ArtifactsLeaf(cs, rows) && doc in DocumentRefs(cs)
    ensures (exists p :: DependencyPath(rows, p) && |p| > 1 && p[0] == doc && p[|p| - 1] == x) <==>
      x in ArtifactRefs(cs)
  {
    if x in ArtifactRefs(cs) {
      var p := [doc, x];
      assert DependencyPath(rows, p) && |p| > 1 && p[0] == doc && p[|p| - 1] == x;
    }
    if p :| DependencyPath(rows, p) && |p| > 1 && p[0] == doc && p[|p| - 1] == x {
      assert p[1] in Deps(rows, p[0]);
      if |p| > 2 {
        assert p[2] in Deps(rows, p[1]);
      }
    }
  }

  /** Distinct references make the reference sets of disjoint classes disjoint. */
  lemma SameRefSameCandidate(cs: seq<Candidate>, k: Candidate, m: Candidate)
    requires DistinctRefs(cs) && k in cs && m in cs && Ref(k) == Ref(m)
    ensures k == m
  {
    var i :| 0 <= i < |cs| && cs[i] == k;
    var j :| 0 <= j < |cs| && cs[j] == m;
    assert i == j;
  }

  lemma ClassesPartition(cs: seq<Candidate>)
    requires DistinctRefs(cs)
    ensures RuntimeRefs(cs) + ArtifactRefs(cs) + DocumentRefs(cs) == AllRefs(cs)
    ensures RuntimeRefs(cs) !! ArtifactRefs(cs) !! DocumentRefs(cs)
  {
    forall k, m | k in cs && m in cs && Ref(k) == Ref(m)
      ensures k == m
    {
      SameRefSameCandidate(cs, k, m);
    }
  }

  /** The reference of the one runtime component of an installed distribution. */
  ghost function RuntimeRef(n: Naming, cs: seq<Candidate>, d: string): string
    requires exists i :: 0 <= i < |cs| && RuntimeOf(n, cs[i], d)
  {
    var i :| 0 <= i < |cs| && RuntimeOf(n, cs[i], d);
    Ref(cs[i])
  }

  ghost predicate MatchesInstalled(n: Naming, cs: seq<Candidate>, installed: map<string, string>,
                                   f: map<string, string>) {
    && f.Keys == installed.Keys
    && f.Values == RuntimeRefs(cs)
    && forall d, e :: d in f && e in f && f[d] == f[e] ==> d == e
  }

  lemma RuntimeRefInjective(n: Naming, cs: seq<Candidate>, d: string, e: string, ref: string)
    requires DistinctRefs(cs) && HasRuntime(n, cs, d, ref) && HasRuntime(n, cs, e, ref)
    ensures d == e
  {
    var i :| 0 <= i < |cs| && RuntimeOf(n, cs[i], d) && Ref(cs[i]) == ref;
    var j :| 0 <= j < |cs| && RuntimeOf(n, cs[j], e) && Ref(cs[j]) == ref;
    SameRefSameCandidate(cs, cs[i], cs[j]);
  }

  lemma RuntimeRefCovers(n: Naming, cs: seq<Candidate>, k: Candidate, d: string, v: string, ref: string)
    requires k in cs && RuntimeOf(n, k, d) && InstalledOnce(n, cs, d, v) && HasRuntime(n, cs, d, ref)
    ensures ref == Ref(k)
  {
    var i :| 0 <= i < |cs| && cs[i] == k;
    var j :| 0 <= j < |cs| && RuntimeOf(n, cs[j], d) && Ref(cs[j]) == ref;
  }

  /** Runtime components correspond one to one to the installed distributions. */
  lemma RuntimeBijection(n: Naming, cs: seq<Candidate>, installed: map<string, string>) returns (f: map<string, string>)
    requires RefsOk(n, cs) && Classified(n, cs, installed)
    ensures MatchesInstalled(n, cs, installed, f)
    ensures |RuntimeRefs(cs)| == |installed|
  {
    assert forall d :: d in installed ==> InstalledOnce(n, cs, d, installed[d]);
    f := map d | d in installed :: RuntimeRef(n, cs, d);
    forall d | d in f ensures HasRuntime(n, cs, d, f[d]) {
      assert InstalledOnce(n, cs, d, installed[d]);
    }
    RuntimeMapMatches(n, cs, installed, f);
    InjectiveSize(f);
  }

  /** The distribution has a runtime component with the reference. */
  ghost predicate HasRuntime(n: Naming, cs: seq<Candidate>, d: string, ref: string) {
    exists i :: 0 <= i < |cs| && RuntimeOf(n, cs[i], d) && Ref(cs[i]) == ref
  }

  lemma RuntimeMapMatches(n: Naming, cs: seq<Candidate>, installed: map<string, string>, f: map<string, string>)
    requires DistinctRefs(cs) && Classified(n, cs, installed) && f.Keys == installed.Keys
    requires forall d :: d in f ==> HasRuntime(n, cs, d, f[d])
    ensures MatchesInstalled(n, cs, installed, f)
  {
    forall d, e | d in f && e in f && f[d] == f[e] ensures d == e {
      RuntimeRefInjective(n, cs, d, e, f[d]);
    }
    forall x | x in RuntimeRefs(cs) ensures x in f.Values {
      var k :| k in cs && IsRuntime(k) && Ref(k) == x;
      var d := n.canonicalize(k.component.name.value);
      RuntimeRefCovers(n, cs, k, d, installed[d], f[d]);
    }
    forall x | x in f.Values ensures x in RuntimeRefs(cs) {
      var d :| d in f && f[d] == x;
      var i :| 0 <= i < |cs| && RuntimeOf(n, cs[i], d) && Ref(cs[i]) == x;
      assert cs[i] in cs;
    }
  }

  lemma {:induction false} InjectiveSize(f: map<string, string>)
    requires forall d, e :: d in f && e in f && f[d] == f[e] ==> d == e
    ensures |f.Values| == |f|
    decreases |f|
  {
    if |f| > 0 {
      var d :| d in f;
      var g := f - {d};
      assert g.Keys == f.Keys - {d};
      assert |g| == |f| - 1;
      InjectiveSize(g);
      assert f.Values == g.Values + {f[d]} by {
        forall v | v in f.Values
          ensures v in g.Values + {f[d]}
        {
          var e :| e in f && f[e] == v;
          if e != d {
            assert e in g && g[e] == v;
          }
        }
      }
      assert f[d] !in g.Values;
    }
  }

  /** Every accepted SBOM is closed: its references split into runtime, artifact and document,
      runtime matches the installed set one to one, dependency paths of any length from
      runtime stay in runtime, and the document reaches exactly the release artifacts. */
  lemma AcceptedIsClosed(n: Naming, fp: FirstParty, s: Bom, artifacts: map<string, string>,
                         installed: map<string, string>)
    requires Valid(n, fp, s, artifacts, installed)
    ensures var cs, rows := Candidates(s), s.dependencies;
      && RuntimeRefs(cs) + ArtifactRefs(cs) + DocumentRefs(cs) == AllRefs(cs)
      && RuntimeRefs(cs) !! ArtifactRefs(cs) !! DocumentRefs(cs)
      && (exists f :: MatchesInstalled(n, cs, installed, f))
      && |RuntimeRefs(cs)| == |installed|
      && (forall p :: DependencyPath(rows, p) && p[0] in RuntimeRefs(cs) ==> p[|p| - 1] in RuntimeRefs(cs))
      && (forall doc, x :: doc in DocumentRefs(cs) ==>
            ((exists p :: DependencyPath(rows, p) && |p| > 1 && p[0] == doc && p[|p| - 1] == x) <==>
              x in ArtifactRefs(cs)))
  {
    var cs, rows := Candidates(s), s.dependencies;
    ClassesPartition(cs);
    var f := RuntimeBijection(n, cs, installed);
    forall p | DependencyPath(rows, p) && p[0] in RuntimeRefs(cs)
      ensures p[|p| - 1] in RuntimeRefs(cs)
    {
      RuntimePathsStay(cs, rows, p);
    }
    forall doc, x | doc in DocumentRefs(cs)
      ensures (exists p :: DependencyPath(rows, p) && |p| > 1 && p[0] == doc && p[|p| - 1] == x) <==>
        x in ArtifactRefs(cs)
    {
      DocumentReachesArtifacts(cs, rows, doc, x);
    }
  }
}
