/** A platform that has a list of distributions installed and releases one wheel: its SBOM is valid. */
module SbomRoster {
  import opened Common
  import opened Sbom
  import opened SbomPlatform
  import opened SbomAggregate
  import SbomExact

  predicate Printable(s: string) { s != "" && forall i :: 0 <= i < |s| ==> 32 < s[i] as int < 127 }

  /** The installed distributions, all of one version, with what each of them depends on. */
  datatype Roster = Roster(n: Naming, fp: FirstParty, ds: seq<string>, deps: map<string, seq<string>>, version: string,
                           sha: string)
  {
    function Runtime(d: string): Component {
      Component("library", Some(d), Some(version), Some(d), [], map[], None, 0)
    }

    function Installed(): map<string, string> { map d | d in ds :: version }

    function DepsOf(d: string): seq<string> { if d in deps then deps[d] else [] }

    function Runtimes(): (cs: seq<Component>)
      ensures |cs| == |ds| && forall i :: 0 <= i < |ds| ==> cs[i] == Runtime(ds[i])
    {
      seq(|ds|, i requires 0 <= i < |ds| => Runtime(ds[i]))
    }

    function Listing(): (rows: seq<Row>)
      ensures |rows| == |ds| && forall i :: 0 <= i < |ds| ==> rows[i] == Row(ds[i], DepsOf(ds[i]))
    {
      seq(|ds|, i requires 0 <= i < |ds| => Row(ds[i], DepsOf(ds[i])))
    }

    function File(f: string): Component { ReleaseComponent(n, f, sha) }

    /** The platform that releases the file. */
    function With(f: string): Platform {
      Platform(Bom("CycloneDX", "1.6", Runtimes() + [File(f)], None, Listing()), map[f := sha], Installed())
    }

    /** Every first-party distribution is installed with its dependencies, and nothing else has any. */
    ghost predicate TableOk() {
      && NamingOk(n, fp) && NoRepeats(ds)
      && (forall d :: d in fp ==> d in ds)
      && (forall d :: d in ds ==> NoRepeats(DepsOf(d)) && Elements(DepsOf(d)) == (if d in fp then fp[d] else {}))
      && (forall d, e :: d in fp && e in fp[d] ==> e in ds)
    }

    ghost predicate TextsOk() {
      && Printable(version) && IsSha256(sha)
      && forall d :: d in ds ==>
           Printable(d) && n.canonicalize(d) == d && d != BUNDLE_REF && d != ReleaseRef(sha)
    }

    ghost predicate Ok() { TableOk() && TextsOk() }

    /** The file is a wheel of a first-party distribution. */
    ghost predicate Suits(f: string) {
      && n.identity(f).Some? && n.identity(f).value.0 in fp && n.identity(f).value.1 == version
      && n.artifactType(f) == "wheel" && n.canonicalize(f) !in ds
    }
  }

  // ---------- its candidates ----------

  lemma RosterCandidates(r: Roster, f: string)
    ensures var cs := Cands(r.With(f));
            && |cs| == |r.ds| + 1 && cs[|r.ds|] == Candidate(r.File(f), false)
            && forall i :: 0 <= i < |r.ds| ==> cs[i] == Candidate(r.Runtime(r.ds[i]), false)
  {
  }

  /** A candidate is the runtime component of a distribution, or the file. */
  lemma RosterCases(r: Roster, f: string, k: Candidate)
    ensures k in Cands(r.With(f)) <==>
      k == Candidate(r.File(f), false) || exists d :: d in r.ds && k == Candidate(r.Runtime(d), false)
  {
    RosterCandidates(r, f);
    var cs := Cands(r.With(f));
    if k in cs {
      var i :| 0 <= i < |cs| && cs[i] == k;
      if i < |r.ds| {
        assert r.ds[i] in r.ds;
      }
    }
    if d :| d in r.ds && k == Candidate(r.Runtime(d), false) {
      var i :| 0 <= i < |r.ds| && r.ds[i] == d;
      assert cs[i] == k;
    }
    assert cs[|r.ds|] in cs;
  }

  lemma FileParts(r: Roster, f: string)
    requires r.Suits(f)
    ensures IsArtifact(r.File(f)) && r.File(f).name == Some(f) && r.File(f).sha256 == [r.sha]
    ensures Prop(r.File(f), DISTRIBUTION) == r.n.identity(f).value.0 && Prop(r.File(f), VERSION) == r.version
    ensures Prop(r.File(f), ARTIFACT_TYPE) == "wheel" && r.File(f).bomRef == Some(ReleaseRef(r.sha))
  {
  }

  lemma RuntimeParts(r: Roster, d: string)
    ensures !IsArtifact(r.Runtime(d)) && IsRuntime(Candidate(r.Runtime(d), false))
  {
  }

  // ---------- components ----------

  lemma PrintableFine(r: Roster, s: string)
    requires r.TableOk() && Printable(s)
    ensures Trimmed(r.n, s) && forall i :: 0 <= i < |s| ==> s[i] as int >= 32
  {
  }

  lemma ReleaseRefPrints(sha: string)
    requires IsSha256(sha)
    ensures Printable(ReleaseRef(sha))
  {
    var x := ReleaseRef(sha);
    forall i | 0 <= i < |x| ensures 32 < x[i] as int < 127 {
      if i >= 11 {
        assert x[i] == sha[i - 11];
      }
    }
  }

  lemma RefsFine(r: Roster, f: string)
    requires r.Ok()
    ensures RefsOk(r.n, Cands(r.With(f)))
  {
    var cs := Cands(r.With(f));
    RosterCandidates(r, f);
    ReleaseRefPrints(r.sha);
    PrintableFine(r, ReleaseRef(r.sha));
    forall i | 0 <= i < |cs| ensures RefOk(r.n, cs[i].component) {
      if i < |r.ds| {
        assert r.ds[i] in r.ds;
        PrintableFine(r, r.ds[i]);
      }
    }
    forall i, j | 0 <= i < j < |cs| ensures Ref(cs[i]) != Ref(cs[j]) {
      assert r.ds[i] in r.ds;
    }
  }

  lemma ArtifactsFine(r: Roster, f: string)
    requires r.Ok() && r.Suits(f)
    ensures ArtifactsMatch(r.n, r.With(f).sbom.components, r.With(f).artifacts)
  {
    FileParts(r, f);
    var runtimes := r.Runtimes();
    forall i | 0 <= i < |r.ds| ensures !IsArtifact(runtimes[i]) {
      RuntimeParts(r, r.ds[i]);
    }
    assert ArtifactOk(r.n, r.File(f), map[f := r.sha]);
    OneArtifact(r.n, runtimes, r.File(f), f, r.sha);
  }

  lemma OneArtifact(n: Naming, others: seq<Component>, c: Component, f: string, sha: string)
    requires forall i :: 0 <= i < |others| ==> !IsArtifact(others[i])
    requires IsArtifact(c) && c.name == Some(f) && ArtifactOk(n, c, map[f := sha])
    ensures ArtifactsMatch(n, others + [c], map[f := sha])
  {
    var comps := others + [c];
    assert comps[|others|] == c;
  }

  lemma DescriptionFine(r: Roster, f: string)
    requires r.Ok() && r.Suits(f)
    ensures Described(r.n, Cands(r.With(f)), r.With(f).artifacts)
  {
    var d := r.n.identity(f).value.0;
    RosterCases(r, f, Candidate(r.Runtime(d), false));
    assert HasName(r.n, r.Runtime(d), d);
  }

  lemma OnceFine(r: Roster, f: string, d: string)
    requires r.Ok() && r.Suits(f) && d in r.ds
    ensures InstalledOnce(r.n, Cands(r.With(f)), d, r.version)
  {
    var cs := Cands(r.With(f));
    RosterCandidates(r, f);
    FileParts(r, f);
    RuntimeParts(r, d);
    var i :| 0 <= i < |r.ds| && r.ds[i] == d;
    forall j | 0 <= j < |cs| && RuntimeOf(r.n, cs[j], d) ensures j == i {
      OwnIndex(r, f, i, j);
    }
    OnceAt(r.n, cs, d, r.version, i);
  }

  lemma OwnIndex(r: Roster, f: string, i: nat, j: nat)
    requires r.Ok() && r.Suits(f) && i < |r.ds| && j <= |r.ds| && |Cands(r.With(f))| == |r.ds| + 1
    requires RuntimeOf(r.n, Cands(r.With(f))[j], r.ds[i])
    ensures j == i
  {
    RosterCandidates(r, f);
    FileParts(r, f);
    if j < |r.ds| {
      assert r.ds[j] in r.ds;
    }
  }

  lemma ClassesFine(r: Roster, f: string)
    requires r.Ok() && r.Suits(f)
    ensures Classified(r.n, Cands(r.With(f)), r.Installed())
  {
    FileParts(r, f);
    PrintableFine(r, r.version);
    forall k | k in Cands(r.With(f)) && IsRuntime(k)
      ensures NamedOk(r.n, k.component) && r.n.canonicalize(k.component.name.value) in r.Installed()
    {
      RosterCases(r, f, k);
      var d :| d in r.ds && k == Candidate(r.Runtime(d), false);
      PrintableFine(r, d);
    }
    forall k | k in Cands(r.With(f)) ensures !k.isMetadata {
      RosterCases(r, f, k);
    }
    forall d | d in r.Installed() ensures InstalledOnce(r.n, Cands(r.With(f)), d, r.Installed()[d]) {
      OnceFine(r, f, d);
    }
  }

  lemma ComponentsFine(r: Roster, f: string)
    requires r.Ok() && r.Suits(f)
    ensures ValidComponents(r.n, r.With(f).sbom, r.With(f).artifacts, r.Installed())
  {
    RefsFine(r, f);
    ArtifactsFine(r, f);
    DescriptionFine(r, f);
    ClassesFine(r, f);
  }

  // ---------- the graph ----------

  lemma RosterClasses(r: Roster, f: string)
    requires r.Suits(f)
    ensures var cs := Cands(r.With(f));
            && RuntimeRefs(cs) == Elements(r.ds) && ArtifactRefs(cs) == {ReleaseRef(r.sha)} && DocumentRefs(cs) == {}
            && Elements(r.ds) <= AllRefs(cs)
  {
    var cs := Cands(r.With(f));
    FileParts(r, f);
    forall d | d in r.ds ensures Candidate(r.Runtime(d), false) in cs {
      RosterCases(r, f, Candidate(r.Runtime(d), false));
      RuntimeParts(r, d);
    }
    forall k | k in cs
      ensures k == Candidate(r.File(f), false) || (IsRuntime(k) && Ref(k) in r.ds && !IsArtifact(k.component))
      ensures !IsDocument(k)
    {
      RosterCases(r, f, k);
    }
    RosterCases(r, f, Candidate(r.File(f), false));
    forall x | x in Elements(r.ds) ensures x in RuntimeRefs(cs) && x in AllRefs(cs) {
      assert Ref(Candidate(r.Runtime(x), false)) == x && IsRuntime(Candidate(r.Runtime(x), false));
    }
  }

  lemma RosterRow(r: Roster, x: string)
    requires NoRepeats(r.ds)
    ensures HasRow(r.Listing(), x) <==> x in r.ds
    ensures Deps(r.Listing(), x) == if x in r.ds then Elements(r.DepsOf(x)) else {}
  {
    var rows := r.Listing();
    if x in r.ds {
      var i :| 0 <= i < |r.ds| && r.ds[i] == x;
      assert rows[i].ref == x && rows[i] in rows;
      forall row | row in rows && row.ref == x ensures row == rows[i] {
        var j :| 0 <= j < |rows| && rows[j] == row;
      }
    } else {
      forall row | row in rows ensures row.ref != x {
        var j :| 0 <= j < |rows| && rows[j] == row;
        assert r.ds[j] in r.ds;
      }
    }
  }

  lemma DepsInside(r: Roster, d: string, e: string)
    requires r.Ok() && d in r.ds && e in r.DepsOf(d)
    ensures e in r.ds && e != ""
  {
    assert e in Elements(r.DepsOf(d));
    assert Printable(e);
  }

  lemma RowFine(r: Roster, i: nat)
    requires r.Ok() && i < |r.ds|
    ensures var row := r.Listing()[i]; RowOk(row) && row.ref in r.ds && forall x :: x in row.dependsOn ==> x in r.ds
  {
    assert r.ds[i] in r.ds && Printable(r.ds[i]);
    forall x | x in r.DepsOf(r.ds[i]) ensures x in r.ds && x != "" {
      DepsInside(r, r.ds[i], x);
    }
  }

  lemma GraphFromRows(cs: seq<Candidate>, rows: seq<Row>, names: set<string>)
    requires names <= AllRefs(cs) && forall i, j :: 0 <= i < j < |rows| ==> rows[i].ref != rows[j].ref
    requires forall i :: 0 <= i < |rows| ==> RowOk(rows[i]) && rows[i].ref in names
    requires forall i, x :: 0 <= i < |rows| && x in rows[i].dependsOn ==> x in names
    ensures GraphOk(cs, rows)
  {
  }

  lemma RowsFine(r: Roster, f: string)
    requires r.Ok() && r.Suits(f)
    ensures GraphOk(Cands(r.With(f)), r.Listing())
  {
    RosterClasses(r, f);
    var rows, names := r.Listing(), Elements(r.ds);
    forall i | 0 <= i < |rows|
      ensures RowOk(rows[i]) && rows[i].ref in names && forall x :: x in rows[i].dependsOn ==> x in names
    {
      RowFine(r, i);
    }
    GraphFromRows(Cands(r.With(f)), rows, names);
  }

  lemma GraphFine(r: Roster, f: string)
    requires r.Ok() && r.Suits(f)
    ensures ValidGraph(r.With(f).sbom)
  {
    RowsFine(r, f);
    RosterClasses(r, f);
    RowsInside(r);
    FileIsLeaf(r);
    ClosedFromClasses(Cands(r.With(f)), r.Listing(), Elements(r.ds), ReleaseRef(r.sha));
  }

  lemma FileIsLeaf(r: Roster)
    requires r.Ok()
    ensures Deps(r.Listing(), ReleaseRef(r.sha)) == {}
  {
    RosterRow(r, ReleaseRef(r.sha));
  }

  lemma ClosedFromClasses(cs: seq<Candidate>, rows: seq<Row>, names: set<string>, file: string)
    requires RuntimeRefs(cs) == names && ArtifactRefs(cs) == {file} && DocumentRefs(cs) == {}
    requires Deps(rows, file) == {} && forall x :: x in names ==> HasRow(rows, x) && Deps(rows, x) <= names
    ensures RuntimeClosed(cs, rows) && ArtifactsLeaf(cs, rows) && DocumentExact(cs, rows)
  {
  }

  lemma RowsInside(r: Roster)
    requires r.Ok()
    ensures forall x :: x in Elements(r.ds) ==> HasRow(r.Listing(), x) && Deps(r.Listing(), x) <= Elements(r.ds)
  {
    forall x | x in r.ds ensures HasRow(r.Listing(), x) && Deps(r.Listing(), x) <= Elements(r.ds) {
      RowInside(r, x);
    }
  }

  lemma RowInside(r: Roster, x: string)
    requires r.Ok() && x in r.ds
    ensures HasRow(r.Listing(), x) && Deps(r.Listing(), x) <= Elements(r.ds)
  {
    RosterRow(r, x);
    forall e | e in r.DepsOf(x) ensures e in r.ds {
      DepsInside(r, x, e);
    }
  }

  // ---------- first parties ----------

  lemma NamesMatch(r: Roster, f: string, d: string)
    requires r.Ok() && r.Suits(f) && d in r.ds
    ensures MatchRefs(r.n, Cands(r.With(f)), d, r.version) == {d} && NamedRefs(r.n, Cands(r.With(f)), d) == {d}
  {
    var cs, own := Cands(r.With(f)), Candidate(r.Runtime(d), false);
    RosterCases(r, f, own);
    assert Printable(d) && HasName(r.n, own.component, d);
    forall k | k in cs && HasName(r.n, k.component, d) ensures Ref(k) == d {
      RosterCases(r, f, k);
      FileParts(r, f);
    }
  }

  lemma FirstPartyFine(r: Roster, f: string, d: string)
    requires r.Ok() && r.Suits(f) && d in r.fp
    ensures FirstPartyOk(r.n, r.fp, Cands(r.With(f)), r.Listing(), r.Installed(), d)
  {
    var cs := Cands(r.With(f));
    NamesMatch(r, f, d);
    RosterRow(r, d);
    forall e | e in r.fp[d] ensures DependencyRefs(r.n, cs, r.Installed(), e) == {e} {
      NamesMatch(r, f, e);
    }
    ExpectedAreThemselves(r.n, r.fp, cs, r.Installed(), d);
  }

  lemma ExpectedAreThemselves(n: Naming, fp: FirstParty, cs: seq<Candidate>, installed: map<string, string>, d: string)
    requires d in fp && forall e :: e in fp[d] ==> DependencyRefs(n, cs, installed, e) == {e}
    ensures ExpectedRefs(n, fp, cs, installed, d) == fp[d]
  {
  }

  lemma FirstPartiesFine(r: Roster, f: string)
    requires r.Ok() && r.Suits(f)
    ensures ValidFirstParty(r.n, r.fp, r.With(f).sbom, r.Installed())
  {
    forall d | d in r.fp ensures FirstPartyOk(r.n, r.fp, Cands(r.With(f)), r.Listing(), r.Installed(), d) {
      FirstPartyFine(r, f, d);
    }
    forall d, e | d in r.fp && e in r.fp[d] ensures NamedRefs(r.n, Cands(r.With(f)), e) != {} {
      NamesMatch(r, f, e);
    }
  }

  /** The SBOM of such a platform is valid. */
  lemma RosterValid(r: Roster, f: string)
    requires r.Ok() && r.Suits(f)
    ensures Valid(r.n, r.fp, r.With(f).sbom, r.With(f).artifacts, r.With(f).installed)
    ensures Generated(r.n, r.fp, r.With(f))
  {
    ComponentsFine(r, f);
    GraphFine(r, f);
    FirstPartiesFine(r, f);
    RosterGenerated(r, f);
  }

  lemma RosterGenerated(r: Roster, f: string)
    requires r.Suits(f)
    ensures Generated(r.n, r.fp, r.With(f))
  {
    FileParts(r, f);
    forall k | k in Cands(r.With(f))
      ensures !IsDocument(k)
      ensures IsArtifact(k.component) ==> Ref(k) == ReleaseRef(r.sha) && k.component.sha256 == [r.sha]
    {
      RosterCases(r, f, k);
    }
  }

  // ---------- several of them ----------

  /** Apart from release artifacts a platform has only the runtime components of the roster. */
  ghost predicate Lean(r: Roster, p: Platform) {
    forall k :: k in Cands(p) && !IsArtifact(k.component) ==> exists d :: d in r.ds && k.component == r.Runtime(d)
  }

  ghost predicate AllLean(r: Roster, platforms: seq<Platform>) { forall p :: p in platforms ==> Lean(r, p) }

  lemma RosterLean(r: Roster, f: string)
    requires r.Suits(f)
    ensures Lean(r, r.With(f))
  {
    FileParts(r, f);
    forall k | k in Cands(r.With(f)) && !IsArtifact(k.component)
      ensures exists d :: d in r.ds && k.component == r.Runtime(d)
    {
      RosterCases(r, f, k);
    }
  }

  lemma LeanAgree(r: Roster, platforms: seq<Platform>)
    requires AllLean(r, platforms)
    ensures RefAgreement(platforms)
  {
    forall c | c in Carried(platforms) ensures exists d :: d in r.ds && c == r.Runtime(d) {
      var p, k :| p in platforms && k in Cands(p) && !IsArtifact(k.component) && c == Stripped(k.component);
      var d :| d in r.ds && k.component == r.Runtime(d);
    }
  }

  lemma LeanRef(r: Roster, p: Platform, k: Candidate, d: string)
    requires r.Ok() && Lean(r, p) && k in Cands(p) && RuntimeOf(r.n, k, d)
    ensures Ref(k) == d && d in r.ds
  {
    var e :| e in r.ds && k.component == r.Runtime(e);
  }

  lemma LeanByName(r: Roster, platforms: seq<Platform>)
    requires r.Ok() && AllLean(r, platforms)
    ensures RefsByName(r.n, platforms)
  {
    forall p, q, k, m, d
      | p in platforms && q in platforms && k in Cands(p) && m in Cands(q)
        && RuntimeOf(r.n, k, d) && RuntimeOf(r.n, m, d)
      ensures Ref(k) == Ref(m)
    {
      LeanRef(r, p, k, d);
      LeanRef(r, q, m, d);
    }
  }

  lemma LeanApart(r: Roster, platforms: seq<Platform>, artifacts: map<string, string>)
    requires r.Ok() && AllLean(r, platforms) && forall f :: f in artifacts ==> artifacts[f] == r.sha
    ensures RefsApart(platforms, artifacts)
  {
    forall p, x: string | p in platforms && x in RuntimeRefs(Cands(p)) ensures x in r.ds {
      var k :| k in Cands(p) && IsRuntime(k) && Ref(k) == x;
      var d :| d in r.ds && k.component == r.Runtime(d);
    }
    assert forall x: string :: x in ReleaseRefs(artifacts) ==> x == ReleaseRef(r.sha);
  }
}
