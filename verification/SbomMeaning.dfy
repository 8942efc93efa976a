/** What an accepted SBOM says, in the words of its components and rows. */
module SbomMeaning {
  import opened Common
  import opened Sbom
  import opened SbomContents

  /** The component stands in the list, or as the subject of the document. */
  ghost predicate Stands(s: Bom, c: Component, subject: bool) {
    if subject then s.metadata == Some(c) else c in s.components
  }

  /** The subject is the release bundle. */
  ghost predicate IsBundle(c: Component, subject: bool) {
    subject && c == Component("application", Some("graphblocks-release-bundle"), Some("1.0"),
                              Some("urn:graphblocks:release-bundle:1.0"), [], map[], None, 0)
  }

  /** Neither a file of the release nor the release itself: something that is installed. */
  ghost predicate Installs(s: Bom, c: Component, subject: bool) {
    Stands(s, c, subject) && !Marked(c) && !IsBundle(c, subject)
  }

  ghost predicate NamedFor(n: Naming, c: Component, d: string) {
    exists name :: c.name == Some(name) && name != "" && n.canonicalize(name) == d
  }

  /** Without space at its ends, and not empty. */
  ghost predicate Tidy(n: Naming, s: string) {
    |s| > 0 && !n.isSpace(s[0]) && !n.isSpace(s[|s| - 1])
  }

  lemma StandsMeans(s: Bom, c: Component, subject: bool)
    ensures Stands(s, c, subject) <==> Candidate(c, subject) in Candidates(s)
  {
    var cs := Candidates(s);
    if subject {
      if s.metadata == Some(c) {
        assert cs[|s.components|] == Candidate(c, true);
      }
    } else if c in s.components {
      var i :| 0 <= i < |s.components| && s.components[i] == c;
      assert cs[i] == Candidate(c, false);
    }
  }

  lemma InstallsMeans(s: Bom, c: Component, subject: bool)
    ensures Installs(s, c, subject) <==> Candidate(c, subject) in Candidates(s) && IsRuntime(Candidate(c, subject))
  {
    StandsMeans(s, c, subject);
  }

  // ---------- files ----------

  /** Sixty-four small hexadecimal digits. */
  ghost predicate HexDigest(s: string) { |s| == 64 && forall c :: c in s ==> '0' <= c <= '9' || 'a' <= c <= 'f' }

  /** The value of a property; no property reads as the empty text. */
  function Said(c: Component, key: string): string { if key in c.properties then c.properties[key] else "" }

  /** The component describes the file, with its digest and what its name says. */
  ghost predicate ForFile(n: Naming, c: Component, f: string, sha: string) {
    && Marked(c) && c.name == Some(f) && c.sha256 == [sha] && HexDigest(sha)
    && n.identity(f) == Some((Said(c, "graphblocks:distribution"), Said(c, "graphblocks:version")))
    && n.artifactType(f) == Said(c, "graphblocks:artifact-type")
  }

  lemma DigestMeans(s: string)
    ensures IsSha256(s) <==> HexDigest(s)
  {
    if HexDigest(s) {
      forall i | 0 <= i < |s| ensures '0' <= s[i] <= '9' || 'a' <= s[i] <= 'f' {
        assert s[i] in s;
      }
    }
  }

  /** The marked components are the files of the release, one for each. */
  lemma ValidFiles(n: Naming, fp: FirstParty, s: Bom, artifacts: map<string, string>, installed: map<string, string>)
    requires Valid(n, fp, s, artifacts, installed)
    ensures s.format == "CycloneDX" && (s.spec == "1.6" || s.spec == "1.7")
    ensures forall f :: f in artifacts ==> exists c :: c in s.components && ForFile(n, c, f, artifacts[f])
    ensures forall c :: c in s.components && Marked(c) ==> c.name.Some? && c.name.value in artifacts
    ensures forall i, j :: 0 <= i < j < |s.components| && Marked(s.components[i]) && Marked(s.components[j]) ==>
      s.components[i].name != s.components[j].name
    ensures forall c :: s.metadata == Some(c) ==> !Marked(c)
  {
    FilesMean(n, s.components, artifacts);
    if s.metadata.Some? {
      StandsMeans(s, s.metadata.value, true);
      MarkedMeans(s.metadata.value);
    }
  }

  lemma MarkedMeans(c: Component)
    ensures IsArtifact(c) <==> Marked(c)
  {
  }

  lemma FileMeans(n: Naming, c: Component, artifacts: map<string, string>)
    requires IsArtifact(c) && ArtifactOk(n, c, artifacts)
    ensures ForFile(n, c, c.name.value, artifacts[c.name.value])
  {
    MarkedMeans(c);
    DigestMeans(artifacts[c.name.value]);
    assert c.sha256 == [artifacts[c.name.value]];
  }

  lemma FilesMean(n: Naming, cs: seq<Component>, artifacts: map<string, string>)
    requires ArtifactsMatch(n, cs, artifacts)
    ensures forall f :: f in artifacts ==> exists c :: c in cs && ForFile(n, c, f, artifacts[f])
    ensures forall c :: c in cs && Marked(c) ==> c.name.Some? && c.name.value in artifacts
    ensures forall i, j :: 0 <= i < j < |cs| && Marked(cs[i]) && Marked(cs[j]) ==> cs[i].name != cs[j].name
  {
    forall c ensures IsArtifact(c) <==> Marked(c) {
      MarkedMeans(c);
    }
    forall f | f in artifacts ensures exists c :: c in cs && ForFile(n, c, f, artifacts[f]) {
      var c :| c in cs && IsArtifact(c) && c.name == Some(f);
      FileMeans(n, c, artifacts);
    }
  }

  /** For each file something stands in the SBOM that has its distribution's name and version. */
  lemma ValidDescriptions(n: Naming, fp: FirstParty, s: Bom, artifacts: map<string, string>,
                          installed: map<string, string>, f: string)
    requires Valid(n, fp, s, artifacts, installed) && f in artifacts
    ensures n.identity(f).Some? && exists c, subject ::
      Stands(s, c, subject) && NamedFor(n, c, n.identity(f).value.0) && c.version == Some(n.identity(f).value.1)
  {
    var id := n.identity(f).value;
    assert DescribedAs(n, Candidates(s), id);
    var k :| k in Candidates(s) && HasName(n, k.component, id.0) && k.component.version == Some(id.1);
    assert k == Candidate(k.component, k.isMetadata);
    StandsMeans(s, k.component, k.isMetadata);
    assert NamedFor(n, k.component, id.0);
  }

  // ---------- references ----------

  /** The reference is a text without control characters. */
  ghost predicate RefersAs(n: Naming, c: Component, x: string) {
    c.bomRef == Some(x) && Tidy(n, x) && forall i :: 0 <= i < |x| ==> x[i] >= ' '
  }

  /** Everything has a reference of its own. */
  lemma ValidReferences(n: Naming, fp: FirstParty, s: Bom, artifacts: map<string, string>,
                        installed: map<string, string>)
    requires Valid(n, fp, s, artifacts, installed)
    ensures forall c, subject :: Stands(s, c, subject) ==> c.bomRef.Some? && RefersAs(n, c, c.bomRef.value)
    ensures forall i, j :: 0 <= i < j < |s.components| ==> s.components[i].bomRef != s.components[j].bomRef
    ensures forall i, c :: 0 <= i < |s.components| && s.metadata == Some(c) ==> s.components[i].bomRef != c.bomRef
  {
    var cs := Candidates(s);
    forall c, subject | Stands(s, c, subject) ensures c.bomRef.Some? && RefersAs(n, c, c.bomRef.value) {
      StandsMeans(s, c, subject);
      assert RefOk(n, c);
    }
    forall i, j | 0 <= i < j < |s.components| ensures s.components[i].bomRef != s.components[j].bomRef {
      assert Ref(cs[i]) != Ref(cs[j]);
    }
    forall i, c | 0 <= i < |s.components| && s.metadata == Some(c) ensures s.components[i].bomRef != c.bomRef {
      assert Ref(cs[i]) != Ref(cs[|s.components|]);
    }
  }

  // ---------- what is installed ----------

  /** The one thing installed under the name. */
  ghost predicate OnlyOne(n: Naming, s: Bom, d: string, version: string, c: Component, subject: bool) {
    && Installs(s, c, subject) && NamedFor(n, c, d) && c.version == Some(version)
    && forall c', subject' :: Installs(s, c', subject') && NamedFor(n, c', d) ==> c' == c && subject' == subject
  }

  /** Everything installed is described once, with its version, and nothing else is described. */
  lemma ValidInstalled(n: Naming, fp: FirstParty, s: Bom, artifacts: map<string, string>,
                       installed: map<string, string>)
    requires Valid(n, fp, s, artifacts, installed)
    ensures forall d :: d in installed ==> exists c, subject :: OnlyOne(n, s, d, installed[d], c, subject)
    ensures forall c, subject :: Installs(s, c, subject) ==> exists d :: d in installed && NamedFor(n, c, d)
    ensures forall c, subject :: Installs(s, c, subject) ==> c.version.Some? && Tidy(n, c.version.value)
  {
    var cs := Candidates(s);
    forall d | d in installed ensures exists c, subject :: OnlyOne(n, s, d, installed[d], c, subject) {
      InstalledMeans(n, s, d, installed[d]);
    }
    forall c, subject | Installs(s, c, subject)
      ensures exists d :: d in installed && NamedFor(n, c, d)
      ensures c.version.Some? && Tidy(n, c.version.value)
    {
      InstallsMeans(s, c, subject);
      assert NamedOk(n, Candidate(c, subject).component);
      assert NamedFor(n, c, n.canonicalize(c.name.value));
    }
  }

  lemma InstalledMeans(n: Naming, s: Bom, d: string, version: string)
    requires InstalledOnce(n, Candidates(s), d, version)
    ensures exists c, subject :: OnlyOne(n, s, d, version, c, subject)
  {
    var cs := Candidates(s);
    var i :| 0 <= i < |cs| && RuntimeOf(n, cs[i], d) && cs[i].component.version == Some(version)
      && forall j :: 0 <= j < |cs| && RuntimeOf(n, cs[j], d) ==> j == i;
    var c, subject := cs[i].component, cs[i].isMetadata;
    assert Candidate(c, subject) == cs[i] && cs[i] in cs;
    InstallsMeans(s, c, subject);
    forall c', subject' | Installs(s, c', subject') && NamedFor(n, c', d) ensures c' == c && subject' == subject {
      InstallsMeans(s, c', subject');
      var j :| 0 <= j < |cs| && cs[j] == Candidate(c', subject');
      assert RuntimeOf(n, cs[j], d);
    }
    assert OnlyOne(n, s, d, version, c, subject);
  }

  // ---------- rows ----------

  ghost predicate Known(s: Bom, x: string) { exists c, subject :: Stands(s, c, subject) && c.bomRef == Some(x) }

  ghost predicate InstalledRef(s: Bom, x: string) {
    exists c, subject :: Installs(s, c, subject) && c.bomRef == Some(x)
  }

  ghost predicate FileRef(s: Bom, x: string) { exists c :: c in s.components && Marked(c) && c.bomRef == Some(x) }

  ghost predicate RowFor(rows: seq<Row>, x: string) { exists r :: r in rows && r.ref == x }

  /** Every row is well formed and about known references, and there is one for each. */
  lemma ValidRows(n: Naming, fp: FirstParty, s: Bom, artifacts: map<string, string>, installed: map<string, string>)
    requires Valid(n, fp, s, artifacts, installed)
    ensures forall r :: r in s.dependencies ==> NoRepeats(r.dependsOn) && Known(s, r.ref)
    ensures forall x, y :: DependsOn(s.dependencies, x, y) ==> Known(s, x) && Known(s, y)
    ensures forall i, j :: 0 <= i < j < |s.dependencies| ==> s.dependencies[i].ref != s.dependencies[j].ref
  {
    forall x | x in AllRefs(Candidates(s)) ensures Known(s, x) {
      var k :| k in Candidates(s) && Ref(k) == x;
      assert RefOk(n, k.component) && k == Candidate(k.component, k.isMetadata);
      StandsMeans(s, k.component, k.isMetadata);
    }
  }

  lemma InstalledRefMeans(n: Naming, s: Bom, x: string)
    requires RefsOk(n, Candidates(s))
    ensures InstalledRef(s, x) <==> x in RuntimeRefs(Candidates(s))
  {
    if InstalledRef(s, x) {
      var c, subject :| Installs(s, c, subject) && c.bomRef == Some(x);
      InstallsMeans(s, c, subject);
      assert Ref(Candidate(c, subject)) == x;
    }
    if x in RuntimeRefs(Candidates(s)) {
      var k :| k in Candidates(s) && IsRuntime(k) && Ref(k) == x;
      assert RefOk(n, k.component) && k == Candidate(k.component, k.isMetadata);
      InstallsMeans(s, k.component, k.isMetadata);
    }
  }

  lemma FileRefMeans(n: Naming, s: Bom, installed: map<string, string>, x: string)
    requires RefsOk(n, Candidates(s)) && Classified(n, Candidates(s), installed)
    ensures FileRef(s, x) <==> x in ArtifactRefs(Candidates(s))
  {
    if FileRef(s, x) {
      var c :| c in s.components && Marked(c) && c.bomRef == Some(x);
      StandsMeans(s, c, false);
      assert Ref(Candidate(c, false)) == x;
    }
    if x in ArtifactRefs(Candidates(s)) {
      var k :| k in Candidates(s) && IsArtifact(k.component) && Ref(k) == x;
      assert RefOk(n, k.component) && k == Candidate(k.component, false);
      StandsMeans(s, k.component, false);
    }
  }

  lemma RowMeans(rows: seq<Row>, x: string)
    ensures HasRow(rows, x) ==> RowFor(rows, x)
  {
    if HasRow(rows, x) {
      var i :| 0 <= i < |rows| && rows[i].ref == x;
      assert rows[i] in rows;
    }
  }

  /** What is installed has a row and depends on nothing but what is installed; a file depends on
      nothing. */
  lemma ValidDependencies(n: Naming, fp: FirstParty, s: Bom, artifacts: map<string, string>,
                          installed: map<string, string>, x: string)
    requires Valid(n, fp, s, artifacts, installed)
    ensures InstalledRef(s, x) ==> RowFor(s.dependencies, x)
    ensures forall y :: InstalledRef(s, x) && DependsOn(s.dependencies, x, y) ==> InstalledRef(s, y)
    ensures forall y :: FileRef(s, x) ==> !DependsOn(s.dependencies, x, y)
  {
    InstalledRefMeans(n, s, x);
    FileRefMeans(n, s, installed, x);
    RowMeans(s.dependencies, x);
    forall y | InstalledRef(s, x) && DependsOn(s.dependencies, x, y) ensures InstalledRef(s, y) {
      DepsMeans(s.dependencies, x, y);
      InstalledRefMeans(n, s, y);
    }
    forall y | FileRef(s, x) ensures !DependsOn(s.dependencies, x, y) {
      DepsMeans(s.dependencies, x, y);
    }
  }

  /** The release bundle depends on the files of the release and nothing else. */
  lemma ValidBundle(n: Naming, fp: FirstParty, s: Bom, artifacts: map<string, string>, installed: map<string, string>,
                    c: Component, y: string)
    requires Valid(n, fp, s, artifacts, installed) && Stands(s, c, true) && IsBundle(c, true)
    ensures DependsOn(s.dependencies, "urn:graphblocks:release-bundle:1.0", y) <==> FileRef(s, y)
  {
    StandsMeans(s, c, true);
    var k := Candidate(c, true);
    assert IsDocument(k) && !IsArtifact(c) && Ref(k) == BUNDLE_REF;
    assert BUNDLE_REF in DocumentRefs(Candidates(s));
    DepsMeans(s.dependencies, BUNDLE_REF, y);
    FileRefMeans(n, s, installed, y);
  }

  // ---------- first parties ----------

  /** The reference of something that has this name, and this version if it is installed. */
  ghost predicate StandsFor(n: Naming, s: Bom, installed: map<string, string>, d: string, x: string) {
    exists c, subject :: Stands(s, c, subject) && c.bomRef == Some(x) && NamedFor(n, c, d)
      && (d in installed ==> c.version == Some(installed[d]))
  }

  lemma MatchMeans(n: Naming, s: Bom, d: string, v: string, x: string)
    requires RefsOk(n, Candidates(s)) && v != ""
    ensures x in MatchRefs(n, Candidates(s), d, v) <==>
      exists c, subject :: Stands(s, c, subject) && c.bomRef == Some(x) && NamedFor(n, c, d) && c.version == Some(v)
  {
    if x in MatchRefs(n, Candidates(s), d, v) {
      var k :| k in Candidates(s) && HasName(n, k.component, d) && Text(k.component.version) == v && Ref(k) == x;
      assert RefOk(n, k.component) && k == Candidate(k.component, k.isMetadata);
      StandsMeans(s, k.component, k.isMetadata);
      assert NamedFor(n, k.component, d);
    }
    if c, subject :| Stands(s, c, subject) && c.bomRef == Some(x) && NamedFor(n, c, d) && c.version == Some(v) {
      StandsMeans(s, c, subject);
      assert Ref(Candidate(c, subject)) == x && HasName(n, c, d);
    }
  }

  lemma NamedMeans(n: Naming, s: Bom, d: string, x: string)
    requires RefsOk(n, Candidates(s))
    ensures x in NamedRefs(n, Candidates(s), d) <==>
      exists c, subject :: Stands(s, c, subject) && c.bomRef == Some(x) && NamedFor(n, c, d)
  {
    if x in NamedRefs(n, Candidates(s), d) {
      var k :| k in Candidates(s) && HasName(n, k.component, d) && Ref(k) == x;
      assert RefOk(n, k.component) && k == Candidate(k.component, k.isMetadata);
      StandsMeans(s, k.component, k.isMetadata);
      assert NamedFor(n, k.component, d);
    }
    if c, subject :| Stands(s, c, subject) && c.bomRef == Some(x) && NamedFor(n, c, d) {
      StandsMeans(s, c, subject);
      assert Ref(Candidate(c, subject)) == x && HasName(n, c, d);
    }
  }

  lemma VersionsTidy(n: Naming, s: Bom, installed: map<string, string>, d: string)
    requires Classified(n, Candidates(s), installed) && d in installed
    ensures installed[d] != ""
  {
    var cs := Candidates(s);
    assert InstalledOnce(n, cs, d, installed[d]);
    var i :| 0 <= i < |cs| && RuntimeOf(n, cs[i], d) && cs[i].component.version == Some(installed[d]);
    assert cs[i] in cs && NamedOk(n, cs[i].component);
  }

  lemma StandsForMeans(n: Naming, s: Bom, installed: map<string, string>, d: string, x: string)
    requires RefsOk(n, Candidates(s)) && Classified(n, Candidates(s), installed)
    ensures x in DependencyRefs(n, Candidates(s), installed, d) <==> StandsFor(n, s, installed, d, x)
  {
    if d in installed {
      VersionsTidy(n, s, installed, d);
      MatchMeans(n, s, d, installed[d], x);
    } else {
      NamedMeans(n, s, d, x);
    }
  }

  /** A first-party distribution is installed, has one reference, and depends on exactly what stands for
      its dependencies, each of which has one reference too. */
  lemma ValidFirstParties(n: Naming, fp: FirstParty, s: Bom, artifacts: map<string, string>,
                          installed: map<string, string>, d: string) returns (x: string)
    requires Valid(n, fp, s, artifacts, installed) && d in fp
    ensures d in installed && forall y :: StandsFor(n, s, installed, d, y) <==> y == x
    ensures RowFor(s.dependencies, x)
    ensures forall y :: DependsOn(s.dependencies, x, y) <==> ForSome(n, s, installed, fp[d], y)
    ensures forall e :: e in fp[d] ==> exists y :: StandsFor(n, s, installed, e, y)
  {
    assert FirstPartyOk(n, fp, Candidates(s), s.dependencies, installed, d);
    x := FirstPartyMeans(n, fp, s, installed, d);
  }

  lemma FirstPartyMeans(n: Naming, fp: FirstParty, s: Bom, installed: map<string, string>, d: string)
    returns (x: string)
    requires RefsOk(n, Candidates(s)) && Classified(n, Candidates(s), installed) && d in fp
    requires FirstPartyOk(n, fp, Candidates(s), s.dependencies, installed, d)
    ensures d in installed && forall y :: StandsFor(n, s, installed, d, y) <==> y == x
    ensures RowFor(s.dependencies, x)
    ensures forall y :: DependsOn(s.dependencies, x, y) <==> ForSome(n, s, installed, fp[d], y)
    ensures forall e :: e in fp[d] ==> exists y :: StandsFor(n, s, installed, e, y)
  {
    var cs := Candidates(s);
    x :| MatchRefs(n, cs, d, installed[d]) == {x};
    forall y ensures StandsFor(n, s, installed, d, y) <==> y == x {
      StandsForMeans(n, s, installed, d, y);
    }
    RowMeans(s.dependencies, x);
    forall y ensures DependsOn(s.dependencies, x, y) <==> ForSome(n, s, installed, fp[d], y) {
      DepsMeans(s.dependencies, x, y);
      ForSomeMeans(n, fp, s, installed, d, y);
    }
    forall e | e in fp[d] ensures exists y :: StandsFor(n, s, installed, e, y) {
      var y :| DependencyRefs(n, cs, installed, e) == {y};
      StandsForMeans(n, s, installed, e, y);
    }
  }

  /** The reference stands for one of the names. */
  ghost predicate ForSome(n: Naming, s: Bom, installed: map<string, string>, names: set<string>, y: string) {
    exists e :: e in names && StandsFor(n, s, installed, e, y)
  }

  lemma ForSomeMeans(n: Naming, fp: FirstParty, s: Bom, installed: map<string, string>, d: string, y: string)
    requires RefsOk(n, Candidates(s)) && Classified(n, Candidates(s), installed) && d in fp
    ensures y in ExpectedRefs(n, fp, Candidates(s), installed, d) <==> ForSome(n, s, installed, fp[d], y)
  {
    forall e ensures y in DependencyRefs(n, Candidates(s), installed, e) <==> StandsFor(n, s, installed, e, y) {
      StandsForMeans(n, s, installed, e, y);
    }
  }
}
