/** The SBOM validator and aggregator as they run: dictionaries filled in loops. */
module SbomTools {
  import opened Common
  import opened Sbom

  // ---------- counting ----------

  lemma SingleIffOne(s: set<string>)
    ensures Single(s) <==> |s| == 1
  {
    if |s| == 1 {
      var x :| x in s;
      assert |s - {x}| == 0;
      assert s == {x};
    }
  }

  // ---------- the dictionaries of the validator ----------

  function Lookup(m: map<string, set<string>>, d: string): set<string> {
    if d in m then m[d] else {}
  }

  function Versions(n: Naming, cs: seq<Candidate>, d: string): set<string> {
    set k | k in cs && HasName(n, k.component, d) && Text(k.component.version) != "" :: Text(k.component.version)
  }

  /** The versions each canonical name is described with. */
  method DescribedVersions(n: Naming, cs: seq<Candidate>) returns (m: map<string, set<string>>)
    ensures forall d :: Lookup(m, d) == Versions(n, cs, d)
  {
    m := map[];
    assert cs[..0] == [];
    for i := 0 to |cs|
      invariant forall d :: Lookup(m, d) == Versions(n, cs[..i], d)
    {
      var c := cs[i].component;
      assert cs[..i + 1] == cs[..i] + [cs[i]];
      if c.name.Some? && c.name.value != "" && Text(c.version) != "" {
        var d := n.canonicalize(c.name.value);
        ghost var before := m;
        m := m[d := Lookup(m, d) + {Text(c.version)}];
        assert Versions(n, cs[..i + 1], d) == Versions(n, cs[..i], d) + {Text(c.version)};
        assert forall e ::
          e != d ==> Versions(n, cs[..i + 1], e) == Versions(n, cs[..i], e) && Lookup(m, e) == Lookup(before, e);
      } else {
        assert forall e :: Versions(n, cs[..i + 1], e) == Versions(n, cs[..i], e);
      }
    }
    assert cs[..|cs|] == cs;
  }

  datatype Record = Record(sha256: string, distribution: string, version: string, artifactType: string)

  function RecordOf(c: Component): Record {
    Record(if |c.sha256| == 1 then c.sha256[0] else "", Prop(c, DISTRIBUTION), Prop(c, VERSION), Prop(c, ARTIFACT_TYPE))
  }

  predicate ArtifactShape(c: Component) {
    c.name.Some? && |c.sha256| == 1 && IsSha256(c.sha256[0])
  }

  ghost predicate Recorded(comps: seq<Component>, m: map<string, Record>) {
    forall c :: c in comps && IsArtifact(c) ==> ArtifactShape(c) && c.name.value in m && m[c.name.value] == RecordOf(c)
  }

  ghost predicate Backed(comps: seq<Component>, m: map<string, Record>) {
    forall f :: f in m ==> HasArtifact(comps, f)
  }

  ghost predicate HasArtifact(comps: seq<Component>, f: string) {
    exists c :: c in comps && IsArtifact(c) && c.name == Some(f)
  }

  ghost predicate DistinctNames(comps: seq<Component>) {
    forall i, j :: 0 <= i < j < |comps| && IsArtifact(comps[i]) && IsArtifact(comps[j]) ==>
      comps[i].name != comps[j].name
  }

  /** `m` holds exactly the artifact components of `comps`, each under its own name. */
  ghost predicate Inventory(comps: seq<Component>, m: map<string, Record>) {
    Recorded(comps, m) && Backed(comps, m) && DistinctNames(comps)
  }

  /** `_sbom_release_artifacts`. */
  method ReleaseArtifacts(comps: seq<Component>) returns (o: Option<map<string, Record>>)
    ensures o.Some? ==> Inventory(comps, o.value)
    ensures o.None? ==> forall m :: !Inventory(comps, m)
  {
    var m: map<string, Record> := map[];
    for i := 0 to |comps|
      invariant Inventory(comps[..i], m)
    {
      var c := comps[i];
      if IsArtifact(c) {
        if !ArtifactShape(c) || c.name.value in m {
          forall m' ensures !Inventory(comps, m') {
            InventoryBlocked(comps, i, m, m');
          }
          return None;
        }
        InventoryStep(comps, i, m);
        m := m[c.name.value := RecordOf(c)];
      } else {
        InventorySkip(comps, i, m);
      }
    }
    assert comps[..|comps|] == comps;
    return Some(m);
  }

  lemma InventorySkip(comps: seq<Component>, i: nat, m: map<string, Record>)
    requires i < |comps| && Inventory(comps[..i], m) && !IsArtifact(comps[i])
    ensures Inventory(comps[..i + 1], m)
  {
    PrefixGrows(comps, i);
    assert forall c :: c in comps[..i + 1] && IsArtifact(c) ==> c in comps[..i];
  }

  lemma InventoryStep(comps: seq<Component>, i: nat, m: map<string, Record>)
    requires i < |comps| && Inventory(comps[..i], m) && IsArtifact(comps[i])
    requires ArtifactShape(comps[i]) && comps[i].name.value !in m
    ensures Inventory(comps[..i + 1], m[comps[i].name.value := RecordOf(comps[i])])
  {
    PrefixGrows(comps, i);
    RecordedStep(comps[..i], m, comps[i]);
    BackedStep(comps[..i], m, comps[i]);
    DistinctStep(comps[..i], m, comps[i]);
  }

  lemma RecordedStep(comps: seq<Component>, m: map<string, Record>, c: Component)
    requires Recorded(comps, m) && ArtifactShape(c) && c.name.value !in m
    ensures Recorded(comps + [c], m[c.name.value := RecordOf(c)])
  {
  }

  lemma BackedStep(comps: seq<Component>, m: map<string, Record>, c: Component)
    requires Backed(comps, m) && ArtifactShape(c) && IsArtifact(c)
    ensures Backed(comps + [c], m[c.name.value := RecordOf(c)])
  {
    forall f | f in m[c.name.value := RecordOf(c)]
      ensures HasArtifact(comps + [c], f)
    {
      if f == c.name.value {
        assert c in comps + [c];
      } else {
        var d :| d in comps && IsArtifact(d) && d.name == Some(f);
        assert d in comps + [c];
      }
    }
  }

  lemma DistinctStep(comps: seq<Component>, m: map<string, Record>, c: Component)
    requires Recorded(comps, m) && DistinctNames(comps) && ArtifactShape(c) && c.name.value !in m
    ensures DistinctNames(comps + [c])
  {
    var next := comps + [c];
    forall a, b | 0 <= a < b < |next| && IsArtifact(next[a]) && IsArtifact(next[b])
      ensures next[a].name != next[b].name
    {
      if b == |comps| {
        assert next[a] in comps;
      }
    }
  }

  lemma InventoryBlocked(comps: seq<Component>, i: nat, m: map<string, Record>, m': map<string, Record>)
    requires i < |comps| && Inventory(comps[..i], m) && IsArtifact(comps[i])
    requires !ArtifactShape(comps[i]) || comps[i].name.value in m
    ensures !Inventory(comps, m')
  {
    assert comps[i] in comps;
    if ArtifactShape(comps[i]) {
      assert HasArtifact(comps[..i], comps[i].name.value);
      var c :| c in comps[..i] && IsArtifact(c) && c.name == comps[i].name;
      var j :| 0 <= j < i && comps[..i][j] == c;
      assert comps[j].name == comps[i].name;
    }
  }

  /** The records the release set demands; `None` where a filename has no identity. */
  function Expected(n: Naming, artifacts: map<string, string>): Option<map<string, Record>> {
    if forall f | f in artifacts :: n.identity(f).Some?
    then Some(map f | f in artifacts ::
      Record(artifacts[f], n.identity(f).value.0, n.identity(f).value.1, n.artifactType(f)))
    else None
  }

  lemma EqualMatches(n: Naming, comps: seq<Component>, artifacts: map<string, string>, m: map<string, Record>)
    requires Inventory(comps, m) && Expected(n, artifacts) == Some(m)
    ensures ArtifactsMatch(n, comps, artifacts)
  {
    forall c | c in comps && IsArtifact(c)
      ensures ArtifactOk(n, c, artifacts)
    {
      var f := c.name.value;
      assert f in artifacts;
      assert m[f] == Record(artifacts[f], n.identity(f).value.0, n.identity(f).value.1, n.artifactType(f));
    }
    forall f | f in artifacts
      ensures exists c :: c in comps && IsArtifact(c) && c.name == Some(f)
    {
      assert HasArtifact(comps, f);
    }
  }

  lemma MatchesEqual(n: Naming, comps: seq<Component>, artifacts: map<string, string>, m: map<string, Record>)
    requires Inventory(comps, m) && Expected(n, artifacts).Some? && ArtifactsMatch(n, comps, artifacts)
    ensures m == Expected(n, artifacts).value
  {
    var e := Expected(n, artifacts).value;
    forall f | f in m
      ensures f in e && m[f] == e[f]
    {
      assert HasArtifact(comps, f);
      var c :| c in comps && IsArtifact(c) && c.name == Some(f);
      assert ArtifactOk(n, c, artifacts);
    }
    forall f | f in e
      ensures f in m
    {
      var c :| c in comps && IsArtifact(c) && c.name == Some(f);
    }
    assert m.Keys == e.Keys;
  }

  /** The two dictionaries describe the given candidates. */
  ghost predicate RefTables(n: Naming, cs: seq<Candidate>, references: map<string, (string, string)>,
                            byName: map<string, set<string>>) {
    && references.Keys == AllRefs(cs)
    && (forall k :: k in cs ==> references[Ref(k)] == (Text(k.component.name), Text(k.component.version)))
    && (forall d :: Lookup(byName, d) == NamedRefs(n, cs, d))
  }

  /** `_sbom_component_references`: each reference once, and the references of each name. */
  method ComponentReferences(n: Naming, cs: seq<Candidate>)
    returns (ok: bool, references: map<string, (string, string)>, byName: map<string, set<string>>)
    ensures ok <==> RefsOk(n, cs)
    ensures ok ==> RefTables(n, cs, references, byName)
  {
    references, byName := map[], map[];
    assert cs[..0] == [];
    for i := 0 to |cs|
      invariant RefsOk(n, cs[..i])
      invariant RefTables(n, cs[..i], references, byName)
    {
      var k := cs[i];
      if !RefOk(n, k.component) || Ref(k) in references {
        RefsBlocked(n, cs, i);
        return false, references, byName;
      }
      RefsStep(n, cs, i);
      TablesStep(n, cs[..i], k, references, byName);
      assert cs[..i + 1] == cs[..i] + [k];
      references := references[Ref(k) := (Text(k.component.name), Text(k.component.version))];
      if k.component.name.Some? && k.component.name.value != "" {
        var d := n.canonicalize(k.component.name.value);
        byName := byName[d := Lookup(byName, d) + {Ref(k)}];
      }
    }
    assert cs[..|cs|] == cs;
    return true, references, byName;
  }

  lemma RefsBlocked(n: Naming, cs: seq<Candidate>, i: nat)
    requires i < |cs| && (!RefOk(n, cs[i].component) || Ref(cs[i]) in AllRefs(cs[..i]))
    ensures !RefsOk(n, cs)
  {
    assert cs[i] in cs;
    if Ref(cs[i]) in AllRefs(cs[..i]) {
      var m :| m in cs[..i] && Ref(m) == Ref(cs[i]);
      var j :| 0 <= j < i && cs[..i][j] == m;
      assert Ref(cs[j]) == Ref(cs[i]);
    }
  }

  lemma RefsStep(n: Naming, cs: seq<Candidate>, i: nat)
    requires i < |cs| && RefsOk(n, cs[..i]) && RefOk(n, cs[i].component) && Ref(cs[i]) !in AllRefs(cs[..i])
    ensures RefsOk(n, cs[..i + 1])
  {
    var next := cs[..i + 1];
    assert next == cs[..i] + [cs[i]];
    forall a, b | 0 <= a < b < |next|
      ensures Ref(next[a]) != Ref(next[b])
    {
      assert next[a] == cs[..i][a] && cs[..i][a] in cs[..i];
      if b < i {
        assert next[b] == cs[..i][b];
      }
    }
  }

  lemma TablesStep(n: Naming, cs: seq<Candidate>, k: Candidate, references: map<string, (string, string)>,
                   byName: map<string, set<string>>)
    requires RefTables(n, cs, references, byName) && Ref(k) !in AllRefs(cs)
    ensures var named := k.component.name.Some? && k.component.name.value != "";
      var d := if named then n.canonicalize(k.component.name.value) else "";
      RefTables(n, cs + [k], references[Ref(k) := (Text(k.component.name), Text(k.component.version))],
                if named then byName[d := Lookup(byName, d) + {Ref(k)}] else byName)
  {
    var next := cs + [k];
    assert AllRefs(next) == AllRefs(cs) + {Ref(k)};
    forall m | m in cs
      ensures Ref(m) != Ref(k)
    {
      assert Ref(m) in AllRefs(cs);
    }
    forall e
      ensures NamedRefs(n, next, e) == NamedRefs(n, cs, e) + (if HasName(n, k.component, e) then {Ref(k)} else {})
    {
      NamedStep(n, cs, k, e);
    }
  }

  lemma NamedStep(n: Naming, cs: seq<Candidate>, k: Candidate, e: string)
    ensures NamedRefs(n, cs + [k], e) == NamedRefs(n, cs, e) + (if HasName(n, k.component, e) then {Ref(k)} else {})
  {
    assert k in cs + [k];
    assert forall m :: m in cs ==> m in cs + [k];
  }

  /** `_sbom_dependency_graph`: the rows as a dictionary of sets. */
  method DependencyGraph(cs: seq<Candidate>, rows: seq<Row>) returns (ok: bool, graph: map<string, set<string>>)
    ensures ok <==> GraphOk(cs, rows)
    ensures ok ==> forall x :: x in graph <==> HasRow(rows, x)
    ensures ok ==> forall x :: Lookup(graph, x) == Deps(rows, x)
  {
    graph := map[];
    assert rows[..0] == [];
    for i := 0 to |rows|
      invariant RowsDistinct(rows[..i]) && forall r :: r in rows[..i] ==> RowOk(r)
      invariant forall x :: x in graph <==> HasRow(rows[..i], x)
      invariant forall x :: Lookup(graph, x) == Deps(rows[..i], x)
    {
      var r := rows[i];
      assert r in rows;
      CountsDistinct(r.dependsOn);
      if r.ref == "" || r.ref in graph || "" in r.dependsOn || |r.dependsOn| != |Elements(r.dependsOn)| {
        if r.ref in graph {
          var j :| 0 <= j < i && rows[..i][j].ref == r.ref;
          assert rows[j].ref == rows[i].ref;
        }
        return false, graph;
      }
      RowsStep(rows, i);
      ghost var before := graph;
      graph := graph[r.ref := Elements(r.dependsOn)];
      assert forall x :: Lookup(graph, x) == if x == r.ref then Elements(r.dependsOn) else Lookup(before, x);
    }
    assert rows[..|rows|] == rows;
    var known := AllRefs(cs);
    GraphKnown(rows, graph, known);
    return forall x :: x in graph ==> x in known && graph[x] <= known, graph;
  }

  ghost predicate RowsDistinct(rows: seq<Row>) {
    forall i, j :: 0 <= i < j < |rows| ==> rows[i].ref != rows[j].ref
  }

  lemma RowsStep(rows: seq<Row>, i: nat)
    requires i < |rows| && RowsDistinct(rows[..i]) && !HasRow(rows[..i], rows[i].ref)
    ensures RowsDistinct(rows[..i + 1])
    ensures forall r :: r in rows[..i + 1] <==> r in rows[..i] || r == rows[i]
    ensures forall x :: HasRow(rows[..i + 1], x) <==> HasRow(rows[..i], x) || x == rows[i].ref
    ensures forall x :: Deps(rows[..i + 1], x) == if x == rows[i].ref
      then Elements(rows[i].dependsOn) else Deps(rows[..i], x)
  {
    var next := rows[..i + 1];
    assert next == rows[..i] + [rows[i]];
    forall a, b | 0 <= a < b < |next|
      ensures next[a].ref != next[b].ref
    {
      assert next[a] == rows[..i][a];
      if b < i {
        assert next[b] == rows[..i][b];
      }
    }
    forall x
      ensures HasRow(next, x) <==> HasRow(rows[..i], x) || x == rows[i].ref
    {
      if HasRow(rows[..i], x) {
        var j :| 0 <= j < i && rows[..i][j].ref == x;
        assert next[j].ref == x;
      }
      if x == rows[i].ref {
        assert next[i].ref == x;
      }
      if HasRow(next, x) && x != rows[i].ref {
        var j :| 0 <= j < |next| && next[j].ref == x;
        assert rows[..i][j].ref == x;
      }
    }
    forall r | r in rows[..i]
      ensures r.ref != rows[i].ref
    {
      var j :| 0 <= j < i && rows[..i][j] == r;
    }
    forall x
      ensures Deps(next, x) == if x == rows[i].ref then Elements(rows[i].dependsOn) else Deps(rows[..i], x)
    {
      DepsStep(rows[..i], rows[i], x);
    }
  }

  lemma DepsStep(rows: seq<Row>, r: Row, x: string)
    requires forall s :: s in rows ==> s.ref != r.ref
    ensures Deps(rows + [r], x) == if x == r.ref then Elements(r.dependsOn) else Deps(rows, x)
  {
    assert r in rows + [r];
    assert forall s :: s in rows ==> s in rows + [r];
  }

  lemma GraphKnown(rows: seq<Row>, graph: map<string, set<string>>, known: set<string>)
    requires forall x :: x in graph <==> HasRow(rows, x)
    requires forall x :: Lookup(graph, x) == Deps(rows, x)
    ensures (forall x :: x in graph ==> x in known && graph[x] <= known) <==>
      (forall r :: r in rows ==> r.ref in known) && (forall r, x :: r in rows && x in r.dependsOn ==> x in known)
  {
    forall r | r in rows
      ensures r.ref in graph && forall x :: x in r.dependsOn ==> x in graph[r.ref]
    {
      var i :| 0 <= i < |rows| && rows[i] == r;
      assert HasRow(rows, r.ref);
      assert Lookup(graph, r.ref) == Deps(rows, r.ref);
    }
    forall x | x in graph
      ensures exists r :: r in rows && r.ref == x
      ensures forall y :: y in graph[x] ==> exists r :: r in rows && r.ref == x && y in r.dependsOn
    {
      var i :| 0 <= i < |rows| && rows[i].ref == x;
      assert rows[i] in rows;
      assert Lookup(graph, x) == Deps(rows, x);
    }
  }

  /** The runtime components of a distribution, as (version, reference) pairs in order. */
  function RuntimeList(n: Naming, cs: seq<Candidate>, d: string): seq<(string, string)> {
    if cs == [] then [] else
      var k := cs[|cs| - 1];
      RuntimeList(n, cs[..|cs| - 1], d) + if RuntimeOf(n, k, d) then [(Text(k.component.version), Ref(k))] else []
  }

  datatype Classes = Classes(
    runtime: map<string, seq<(string, string)>>,
    runtimeRefs: set<string>,
    artifactRefs: set<string>,
    documentRefs: set<string>,
    unexpected: bool)

  function Listed(m: map<string, seq<(string, string)>>, d: string): seq<(string, string)> {
    if d in m then m[d] else []
  }

  ghost predicate WellSorted(n: Naming, cs: seq<Candidate>) {
    && (forall k :: k in cs && IsArtifact(k.component) ==> !k.isMetadata)
    && (forall k :: k in cs && IsRuntime(k) ==> NamedOk(n, k.component))
  }

  ghost predicate AllInstalled(n: Naming, cs: seq<Candidate>, installed: map<string, string>) {
    forall k :: k in cs && IsRuntime(k) ==>
      NamedOk(n, k.component) && n.canonicalize(k.component.name.value) in installed
  }

  /** The classes describe the given candidates; once an uninstalled runtime component is seen
      only that fact matters. */
  ghost predicate Sorted(n: Naming, cs: seq<Candidate>, installed: map<string, string>, c: Classes) {
    && c.artifactRefs == ArtifactRefs(cs)
    && c.documentRefs == DocumentRefs(cs)
    && (c.unexpected <==> !AllInstalled(n, cs, installed))
    && (!c.unexpected ==>
          && c.runtimeRefs == RuntimeRefs(cs)
          && forall d :: d in installed ==> Listed(c.runtime, d) == RuntimeList(n, cs, d))
  }

  /** One candidate of the classification loop. */
  function Sort(n: Naming, installed: map<string, string>, c: Classes, k: Candidate): Classes {
    if IsArtifact(k.component) then c.(artifactRefs := c.artifactRefs + {Ref(k)})
    else if IsDocument(k) then c.(documentRefs := c.documentRefs + {Ref(k)})
    else
      var d := n.canonicalize(Text(k.component.name));
      if d in installed
      then c.(runtime := c.runtime[d := Listed(c.runtime, d) + [(Text(k.component.version), Ref(k))]],
              runtimeRefs := c.runtimeRefs + {Ref(k)})
      else c.(unexpected := true)
  }

  lemma RefClassStep(cs: seq<Candidate>, k: Candidate)
    ensures ArtifactRefs(cs + [k]) == ArtifactRefs(cs) + (if IsArtifact(k.component) then {Ref(k)} else {})
    ensures DocumentRefs(cs + [k]) ==
      DocumentRefs(cs) + (if !IsArtifact(k.component) && IsDocument(k) then {Ref(k)} else {})
    ensures RuntimeRefs(cs + [k]) == RuntimeRefs(cs) + (if IsRuntime(k) then {Ref(k)} else {})
  {
    assert k in cs + [k];
    assert forall m :: m in cs ==> m in cs + [k];
  }

  lemma SortStep(n: Naming, cs: seq<Candidate>, installed: map<string, string>, c: Classes, k: Candidate)
    requires Sorted(n, cs, installed, c)
    requires IsRuntime(k) ==> NamedOk(n, k.component)
    ensures Sorted(n, cs + [k], installed, Sort(n, installed, c, k))
  {
    RefClassStep(cs, k);
    var next := Sort(n, installed, c, k);
    assert k in cs + [k];
    assert forall m :: m in cs + [k] <==> m in cs || m == k;
    assert AllInstalled(n, cs + [k], installed) <==>
      AllInstalled(n, cs, installed) && (IsRuntime(k) ==> n.canonicalize(k.component.name.value) in installed);
    assert (cs + [k])[..|cs|] == cs;
    forall d
      ensures RuntimeList(n, cs + [k], d) == RuntimeList(n, cs, d) + if RuntimeOf(n, k, d)
        then [(Text(k.component.version), Ref(k))] else []
    {
    }
  }

  method Classify(n: Naming, cs: seq<Candidate>, installed: map<string, string>) returns (ok: bool, c: Classes)
    ensures ok <==> WellSorted(n, cs)
    ensures ok ==> Sorted(n, cs, installed, c)
  {
    c := Classes(map[], {}, {}, {}, false);
    assert cs[..0] == [];
    for i := 0 to |cs|
      invariant WellSorted(n, cs[..i])
      invariant Sorted(n, cs[..i], installed, c)
    {
      var k := cs[i];
      assert k in cs;
      if IsArtifact(k.component) && k.isMetadata {
        return false, c;
      }
      if IsRuntime(k) && !NamedOk(n, k.component) {
        return false, c;
      }
      SortStep(n, cs[..i], installed, c, k);
      assert cs[..i + 1] == cs[..i] + [k];
      c := Sort(n, installed, c, k);
    }
    assert cs[..|cs|] == cs;
    return true, c;
  }

  lemma {:induction false} RuntimeListEmpty(n: Naming, cs: seq<Candidate>, d: string)
    ensures RuntimeList(n, cs, d) == [] <==> forall i :: 0 <= i < |cs| ==> !RuntimeOf(n, cs[i], d)
    decreases |cs|
  {
    if cs != [] {
      var m := |cs| - 1;
      RuntimeListEmpty(n, cs[..m], d);
      if RuntimeList(n, cs, d) == [] {
        forall i | 0 <= i < |cs| ensures !RuntimeOf(n, cs[i], d) {
          if i < m {
            assert cs[..m][i] == cs[i];
          }
        }
      }
    }
  }

  /** A list of one entry with the expected version is exactly one runtime component. */
  lemma {:induction false} OneListed(n: Naming, cs: seq<Candidate>, d: string, v: string)
    requires forall k :: k in cs && IsRuntime(k) ==> k.component.version.Some?
    ensures |RuntimeList(n, cs, d)| == 1 && RuntimeList(n, cs, d)[0].0 == v <==> InstalledOnce(n, cs, d, v)
    decreases |cs|
  {
    if cs != [] {
      var m := |cs| - 1;
      var rest := cs[..m];
      assert cs[m] in cs && forall k :: k in rest ==> k in cs;
      assert forall i :: 0 <= i < m ==> rest[i] == cs[i];
      OneListed(n, rest, d, v);
      RuntimeListEmpty(n, rest, d);
      if RuntimeOf(n, cs[m], d) {
        if InstalledOnce(n, cs, d, v) {
          var i :| 0 <= i < |cs| && RuntimeOf(n, cs[i], d) && cs[i].component.version == Some(v)
            && forall j :: 0 <= j < |cs| && RuntimeOf(n, cs[j], d) ==> j == i;
          assert i == m;
        }
        if RuntimeList(n, rest, d) == [] && Text(cs[m].component.version) == v {
          assert RuntimeOf(n, cs[m], d) && cs[m].component.version == Some(v);
        }
      } else {
        LastIrrelevant(n, cs, d, v);
      }
    }
  }

  lemma LastIrrelevant(n: Naming, cs: seq<Candidate>, d: string, v: string)
    requires cs != [] && !RuntimeOf(n, cs[|cs| - 1], d)
    ensures InstalledOnce(n, cs, d, v) <==> InstalledOnce(n, cs[..|cs| - 1], d, v)
  {
    var m := |cs| - 1;
    var rest := cs[..m];
    assert forall i :: 0 <= i < m ==> rest[i] == cs[i];
    if InstalledOnce(n, cs, d, v) {
      var i :| 0 <= i < |cs| && RuntimeOf(n, cs[i], d) && cs[i].component.version == Some(v)
        && forall j :: 0 <= j < |cs| && RuntimeOf(n, cs[j], d) ==> j == i;
      assert rest[i] == cs[i];
    }
    if InstalledOnce(n, rest, d, v) {
      var i :| 0 <= i < |rest| && RuntimeOf(n, rest[i], d) && rest[i].component.version == Some(v)
        && forall j :: 0 <= j < |rest| && RuntimeOf(n, rest[j], d) ==> j == i;
      assert cs[i] == rest[i];
      forall j | 0 <= j < |cs| && RuntimeOf(n, cs[j], d)
        ensures j == i
      {
        assert rest[j] == cs[j];
      }
    }
  }
}
