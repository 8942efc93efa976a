/** Validating, merging and aggregating SBOMs for a release. */
module SbomRelease {
  import opened Common
  import opened Sbom
  import opened SbomTools

  // ---------- _validate_sbom ----------

  lemma DescribedIff(n: Naming, cs: seq<Candidate>, id: (string, string))
    ensures DescribedAs(n, cs, id) <==> id.1 in Versions(n, cs, id.0)
  {
    if id.1 in Versions(n, cs, id.0) {
      var k :| k in cs && HasName(n, k.component, id.0) && Text(k.component.version) != ""
        && Text(k.component.version) == id.1;
      assert k.component.version == Some(id.1);
    }
  }

  lemma MatchHasInventory(n: Naming, comps: seq<Component>, artifacts: map<string, string>)
    requires Expected(n, artifacts).Some? && ArtifactsMatch(n, comps, artifacts)
    ensures Inventory(comps, Expected(n, artifacts).value)
  {
    var m := Expected(n, artifacts).value;
    forall c | c in comps && IsArtifact(c)
      ensures ArtifactShape(c) && c.name.value in m && m[c.name.value] == RecordOf(c)
    {
      assert ArtifactOk(n, c, artifacts);
    }
    forall f | f in m
      ensures HasArtifact(comps, f)
    {
      assert f in artifacts;
    }
  }

  method CheckDescribed(n: Naming, cs: seq<Candidate>, artifacts: map<string, string>) returns (ok: bool)
    ensures ok <==> Described(n, cs, artifacts)
  {
    var versions := DescribedVersions(n, cs);
    forall f | f in artifacts && n.identity(f).Some?
      ensures DescribedAs(n, cs, n.identity(f).value) <==>
        n.identity(f).value.1 in Lookup(versions, n.identity(f).value.0)
    {
      DescribedIff(n, cs, n.identity(f).value);
    }
    ok := forall f | f in artifacts ::
      n.identity(f).Some? && n.identity(f).value.1 in Lookup(versions, n.identity(f).value.0);
  }

  method CheckInventory(n: Naming, comps: seq<Component>, artifacts: map<string, string>) returns (ok: bool)
    requires forall f :: f in artifacts ==> n.identity(f).Some?
    ensures ok <==> ArtifactsMatch(n, comps, artifacts)
  {
    var expected := Expected(n, artifacts);
    var observed := ReleaseArtifacts(comps);
    if observed.None? {
      if ArtifactsMatch(n, comps, artifacts) {
        MatchHasInventory(n, comps, artifacts);
      }
      return false;
    }
    if observed == expected {
      EqualMatches(n, comps, artifacts, observed.value);
      return true;
    }
    if ArtifactsMatch(n, comps, artifacts) {
      MatchesEqual(n, comps, artifacts, observed.value);
    }
    return false;
  }

  ghost predicate ClassTable(cs: seq<Candidate>, c: Classes) {
    c.runtimeRefs == RuntimeRefs(cs) && c.artifactRefs == ArtifactRefs(cs) && c.documentRefs == DocumentRefs(cs)
  }

  method CheckClosure(n: Naming, cs: seq<Candidate>, installed: map<string, string>) returns (ok: bool, c: Classes)
    ensures ok <==> Classified(n, cs, installed)
    ensures ok ==> ClassTable(cs, c)
  {
    ok, c := Classify(n, cs, installed);
    if !ok || c.unexpected {
      return false, c;
    }
    forall d | d in installed
      ensures |Listed(c.runtime, d)| == 1 && Listed(c.runtime, d)[0].0 == installed[d] <==>
        InstalledOnce(n, cs, d, installed[d])
    {
      OneListed(n, cs, d, installed[d]);
    }
    ok := forall d | d in installed :: |Listed(c.runtime, d)| == 1 && Listed(c.runtime, d)[0].0 == installed[d];
  }

  /** The dictionary holds the rows. */
  ghost predicate GraphTable(rows: seq<Row>, graph: map<string, set<string>>) {
    && (forall x :: x in graph <==> HasRow(rows, x))
    && (forall x :: Lookup(graph, x) == Deps(rows, x))
  }

  method CheckGraph(s: Bom, c: Classes) returns (ok: bool, graph: map<string, set<string>>)
    requires ClassTable(Candidates(s), c)
    ensures ok <==> ValidGraph(s)
    ensures ok ==> GraphTable(s.dependencies, graph)
  {
    var cs, rows := Candidates(s), s.dependencies;
    ok, graph := DependencyGraph(cs, rows);
    if !ok {
      return;
    }
    RuntimeClosedIff(cs, rows, graph);
    ArtifactsLeafIff(cs, rows, graph);
    DocumentExactIff(cs, rows, graph);
    if !(forall x | x in c.runtimeRefs :: x in graph && Lookup(graph, x) <= c.runtimeRefs) {
      return false, graph;
    }
    if !(forall x | x in c.artifactRefs :: Lookup(graph, x) == {}) {
      return false, graph;
    }
    if !(forall x | x in c.documentRefs :: x in graph && Lookup(graph, x) == c.artifactRefs) {
      return false, graph;
    }
    return true, graph;
  }

  lemma RuntimeClosedIff(cs: seq<Candidate>, rows: seq<Row>, graph: map<string, set<string>>)
    requires GraphTable(rows, graph)
    ensures RuntimeClosed(cs, rows) <==>
      forall x :: x in RuntimeRefs(cs) ==> x in graph && Lookup(graph, x) <= RuntimeRefs(cs)
  {
  }

  lemma ArtifactsLeafIff(cs: seq<Candidate>, rows: seq<Row>, graph: map<string, set<string>>)
    requires GraphTable(rows, graph)
    ensures ArtifactsLeaf(cs, rows) <==> forall x :: x in ArtifactRefs(cs) ==> Lookup(graph, x) == {}
  {
  }

  lemma DocumentExactIff(cs: seq<Candidate>, rows: seq<Row>, graph: map<string, set<string>>)
    requires GraphTable(rows, graph)
    ensures DocumentExact(cs, rows) <==>
      forall x :: x in DocumentRefs(cs) ==> x in graph && Lookup(graph, x) == ArtifactRefs(cs)
  {
  }

  /** The references under a name whose table entry has the name and the version. */
  function Matching(n: Naming, references: map<string, (string, string)>, byName: map<string, set<string>>, d: string,
                    v: string): set<string> {
    set x | x in Lookup(byName, d) && x in references && n.canonicalize(references[x].0) == d && references[x].1 == v
  }

  lemma MatchingIsMatch(n: Naming, cs: seq<Candidate>, references: map<string, (string, string)>,
                        byName: map<string, set<string>>, d: string, v: string)
    requires RefsOk(n, cs) && RefTables(n, cs, references, byName)
    ensures Matching(n, references, byName, d, v) == MatchRefs(n, cs, d, v)
  {
    forall x
      ensures x in Matching(n, references, byName, d, v) <==> x in MatchRefs(n, cs, d, v)
    {
      assert Lookup(byName, d) == NamedRefs(n, cs, d);
      if x in NamedRefs(n, cs, d) {
        var k :| k in cs && HasName(n, k.component, d) && Ref(k) == x;
        assert references[x] == (Text(k.component.name), Text(k.component.version));
        forall m | m in cs && Ref(m) == x
          ensures m == k
        {
          SameRefSameCandidate(cs, k, m);
        }
      }
    }
  }

  /** The references a first-party component must depend on: one for each dependency. */
  method ExpectedDependencies(n: Naming, names: set<string>, cs: seq<Candidate>, installed: map<string, string>,
                              references: map<string, (string, string)>, byName: map<string, set<string>>)
    returns (ok: bool, expectedRefs: set<string>)
    requires RefsOk(n, cs) && RefTables(n, cs, references, byName)
    ensures ok <==> AllSingle(n, cs, installed, names)
    ensures ok ==> expectedRefs == DependencyUnion(n, cs, installed, names)
  {
    expectedRefs := {};
    var todo := names;
    ghost var settled: set<string> := {};
    while todo != {}
      invariant settled + todo == names
      invariant AllSingle(n, cs, installed, settled)
      invariant expectedRefs == DependencyUnion(n, cs, installed, settled)
      decreases todo
    {
      var e :| e in todo;
      var refs;
      ok, refs := OneDependency(n, cs, installed, references, byName, e);
      if !ok {
        assert e in names;
        return false, expectedRefs;
      }
      UnionStep(n, cs, installed, settled, e);
      expectedRefs, todo, settled := expectedRefs + refs, todo - {e}, settled + {e};
    }
    assert settled == names;
    ok := true;
  }

  ghost predicate AllSingle(n: Naming, cs: seq<Candidate>, installed: map<string, string>, names: set<string>) {
    forall e :: e in names ==> Single(DependencyRefs(n, cs, installed, e))
  }

  method OneDependency(n: Naming, cs: seq<Candidate>, installed: map<string, string>,
                       references: map<string, (string, string)>, byName: map<string, set<string>>, e: string)
    returns (ok: bool, refs: set<string>)
    requires RefsOk(n, cs) && RefTables(n, cs, references, byName)
    ensures ok <==> Single(DependencyRefs(n, cs, installed, e))
    ensures refs == DependencyRefs(n, cs, installed, e)
  {
    refs := if e in installed then Matching(n, references, byName, e, installed[e]) else Lookup(byName, e);
    CandidateDependency(n, cs, installed, references, byName, e);
    SingleIffOne(refs);
    ok := |refs| == 1;
  }

  lemma CandidateDependency(n: Naming, cs: seq<Candidate>, installed: map<string, string>,
                            references: map<string, (string, string)>, byName: map<string, set<string>>, e: string)
    requires RefsOk(n, cs) && RefTables(n, cs, references, byName)
    ensures (if e in installed then Matching(n, references, byName, e, installed[e]) else Lookup(byName, e))
      == DependencyRefs(n, cs, installed, e)
  {
    if e in installed {
      MatchingIsMatch(n, cs, references, byName, e, installed[e]);
    }
  }

  method CheckFirstParty(n: Naming, fp: FirstParty, cs: seq<Candidate>, rows: seq<Row>, installed: map<string, string>,
                         references: map<string, (string, string)>, byName: map<string, set<string>>,
                         graph: map<string, set<string>>, d: string) returns (ok: bool)
    requires d in fp && RefsOk(n, cs) && RefTables(n, cs, references, byName) && GraphTable(rows, graph)
    ensures ok <==> FirstPartyOk(n, fp, cs, rows, installed, d)
  {
    if d !in installed {
      return false;
    }
    var matching := Matching(n, references, byName, d, installed[d]);
    MatchingIsMatch(n, cs, references, byName, d, installed[d]);
    assert Lookup(byName, d) == NamedRefs(n, cs, d);
    SingleIffOne(matching);
    if |matching| != 1 || Lookup(byName, d) != matching {
      return false;
    }
    var expectedRefs;
    ok, expectedRefs := ExpectedDependencies(n, fp[d], cs, installed, references, byName);
    if !ok {
      return;
    }
    var first :| first in matching;
    FirstPartyDecided(n, fp, cs, rows, installed, graph, d, first, expectedRefs);
    ok := first in graph && graph[first] == expectedRefs;
  }

  lemma FirstPartyDecided(n: Naming, fp: FirstParty, cs: seq<Candidate>, rows: seq<Row>, installed: map<string, string>,
                          graph: map<string, set<string>>, d: string, first: string, expectedRefs: set<string>)
    requires d in fp && d in installed && GraphTable(rows, graph)
    requires Single(MatchRefs(n, cs, d, installed[d])) && first in MatchRefs(n, cs, d, installed[d])
    requires NamedRefs(n, cs, d) == MatchRefs(n, cs, d, installed[d])
    requires AllSingle(n, cs, installed, fp[d])
    requires expectedRefs == DependencyUnion(n, cs, installed, fp[d])
    ensures first in graph && graph[first] == expectedRefs <==> FirstPartyOk(n, fp, cs, rows, installed, d)
  {
    var x :| MatchRefs(n, cs, d, installed[d]) == {x};
    assert x == first;
    assert expectedRefs == ExpectedRefs(n, fp, cs, installed, d);
    assert Lookup(graph, first) == Deps(rows, first);
  }

  function DependencyUnion(n: Naming, cs: seq<Candidate>, installed: map<string, string>,
                           names: set<string>): set<string> {
    set e, x | e in names && x in DependencyRefs(n, cs, installed, e) :: x
  }

  lemma UnionStep(n: Naming, cs: seq<Candidate>, installed: map<string, string>, names: set<string>, e: string)
    ensures DependencyUnion(n, cs, installed, names + {e}) ==
      DependencyUnion(n, cs, installed, names) + DependencyRefs(n, cs, installed, e)
    ensures AllSingle(n, cs, installed, names + {e}) <==>
      AllSingle(n, cs, installed, names) && Single(DependencyRefs(n, cs, installed, e))
  {
    assert e in names + {e} && forall x :: x in names ==> x in names + {e};
  }

  method CheckAllFirstParty(n: Naming, fp: FirstParty, s: Bom, installed: map<string, string>,
                            references: map<string, (string, string)>, byName: map<string, set<string>>,
                            graph: map<string, set<string>>) returns (ok: bool)
    requires RefsOk(n, Candidates(s)) && RefTables(n, Candidates(s), references, byName)
             && GraphTable(s.dependencies, graph)
    ensures ok <==> ValidFirstParty(n, fp, s, installed)
  {
    var cs := Candidates(s);
    assert forall d :: Lookup(byName, d) == NamedRefs(n, cs, d);
    if !(forall d, e | d in fp && e in fp[d] :: Lookup(byName, e) != {}) {
      return false;
    }
    var todo := fp.Keys;
    while todo != {}
      invariant todo <= fp.Keys
      invariant forall d :: d in fp.Keys - todo ==> FirstPartyOk(n, fp, cs, s.dependencies, installed, d)
      decreases todo
    {
      var d :| d in todo;
      ok := CheckFirstParty(n, fp, cs, s.dependencies, installed, references, byName, graph, d);
      if !ok {
        return;
      }
      todo := todo - {d};
    }
    return true;
  }

  method CheckComponents(n: Naming, s: Bom, artifacts: map<string, string>, installed: map<string, string>)
    returns (ok: bool, references: map<string, (string, string)>, byName: map<string, set<string>>, c: Classes)
    ensures ok <==> ValidComponents(n, s, artifacts, installed)
    ensures ok ==> RefTables(n, Candidates(s), references, byName)
    ensures ok ==> ClassTable(Candidates(s), c)
  {
    references, byName, c := map[], map[], Classes(map[], {}, {}, {}, false);
    if !Formatted(s) {
      return false, references, byName, c;
    }
    var cs := Candidates(s);
    ok := CheckDescribed(n, cs, artifacts);
    if !ok {
      return;
    }
    ok := CheckInventory(n, s.components, artifacts);
    if !ok {
      return;
    }
    ok, references, byName := ComponentReferences(n, cs);
    if !ok {
      return;
    }
    ok, c := CheckClosure(n, cs, installed);
  }

  /** `_validate_sbom`, with the installed distributions supplied. */
  method Validate(n: Naming, fp: FirstParty, s: Bom, artifacts: map<string, string>, installed: map<string, string>)
    returns (ok: bool)
    ensures ok <==> Valid(n, fp, s, artifacts, installed)
  {
    var references, byName, c, graph;
    ok, references, byName, c := CheckComponents(n, s, artifacts, installed);
    if !ok {
      return;
    }
    ok, graph := CheckGraph(s, c);
    if !ok {
      return;
    }
    ok := CheckAllFirstParty(n, fp, s, installed, references, byName, graph);
  }
}
