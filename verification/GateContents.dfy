/** What a security-gate result says, as a JSON object, and what it therefore binds. */
module GateContents {
  import opened Common
  import opened GateReport
  import opened PythonJson
  import opened SecurityGates

  // ---------- records as objects ----------

  lemma TableStep(names: seq<string>, values: seq<Json>, k: string, v: Json)
    requires |names| == |values|
    ensures Table(names + [k], values + [v]) == Table(names, values)[k := v]
  {
    var ns, vs := names + [k], values + [v];
    assert ns[..|names|] == names && vs[..|values|] == values;
  }

  lemma TwoFields(a: string, b: string, x: Json, y: Json)
    ensures Table([a, b], [x, y]) == map[a := x, b := y]
  {
    TableStep([], [], a, x);
    TableStep([a], [x], b, y);
    assert [] + [a] == [a] && [] + [x] == [x] && [a] + [b] == [a, b] && [x] + [y] == [x, y];
  }

  lemma ThreeFields(a: string, b: string, c: string, x: Json, y: Json, z: Json)
    ensures Table([a, b, c], [x, y, z]) == map[a := x, b := y, c := z]
  {
    TwoFields(a, b, x, y);
    TableStep([a, b], [x, y], c, z);
    assert [a, b] + [c] == [a, b, c] && [x, y] + [z] == [x, y, z];
  }

  lemma FourFields(a: string, b: string, c: string, d: string, x: Json, y: Json, z: Json, w: Json)
    ensures Table([a, b, c, d], [x, y, z, w]) == map[a := x, b := y, c := z, d := w]
  {
    ThreeFields(a, b, c, x, y, z);
    TableStep([a, b, c], [x, y, z], d, w);
    assert [a, b, c] + [d] == [a, b, c, d] && [x, y, z] + [w] == [x, y, z, w];
  }

  /** Three more fields. */
  lemma MoreFields(ns: seq<string>, vs: seq<Json>, a: string, b: string, c: string, x: Json, y: Json, z: Json)
    requires |ns| == |vs|
    ensures Table(ns + [a, b, c], vs + [x, y, z]) == Table(ns, vs)[a := x][b := y][c := z]
  {
    TableStep(ns, vs, a, x);
    TableStep(ns + [a], vs + [x], b, y);
    TableStep(ns + [a] + [b], vs + [x] + [y], c, z);
    assert ns + [a] + [b] + [c] == ns + [a, b, c] && vs + [x] + [y] + [z] == vs + [x, y, z];
  }

  // ---------- the parts ----------

  function FileEntry(path: string, digest: string): Json {
    Obj(map["path" := Str(path), "sha256" := Str(digest)])
  }

  /** The files of some selectors: one entry for each path, with the digest of what is supplied for it. */
  ghost predicate SourcesListed(host: Host, sources: map<string, Bytes>, selectors: seq<string>, ds: seq<Json>) {
    && (forall s :: s in selectors ==>
          host.sourcePath(s).Some? && host.sourcePath(s).value in sources
          && FileEntry(host.sourcePath(s).value, host.sha256(sources[host.sourcePath(s).value])) in ds)
    && (forall d :: d in ds ==> IsSource(host, sources, selectors, d))
    && NoRepeats(ds)
  }

  /** The entry is that of the path of some selector. */
  ghost predicate IsSource(host: Host, sources: map<string, Bytes>, selectors: seq<string>, d: Json) {
    exists s, p :: s in selectors && host.sourcePath(s) == Some(p) && p in sources
      && d == FileEntry(p, host.sha256(sources[p]))
  }

  /** The record of one category. */
  ghost predicate CategoryListed(host: Host, sources: map<string, Bytes>, c: Category, v: Json) {
    exists ds, ss :: v == Obj(map["id" := Str(c.id), "pytestSelectors" := List(ss), "sourceDigests" := List(ds)])
      && SourcesListed(host, sources, c.selectors, ds) && TextsAre(ss, c.selectors)
  }

  ghost predicate TextsAre(vs: seq<Json>, xs: seq<string>) {
    |vs| == |xs| && forall i :: 0 <= i < |xs| ==> vs[i] == Str(xs[i])
  }

  ghost predicate CategoriesListed(host: Host, sources: map<string, Bytes>, cs: seq<Category>, vs: seq<Json>) {
    |vs| == |cs| && forall i :: 0 <= i < |cs| ==> CategoryListed(host, sources, cs[i], vs[i])
  }

  ghost predicate IdsAre(vs: seq<Json>, cs: seq<Category>) {
    |vs| == |cs| && forall i :: 0 <= i < |cs| ==> vs[i] == Str(cs[i].id)
  }

  /** The distinct selectors of the manifest. */
  ghost function Selected(m: Manifest): set<string> {
    (set c, s | c in m.objects && s in c.selectors :: s) + (set c, s | c in m.resources && s in c.selectors :: s)
  }

  lemma FileMeans(path: string, digest: string)
    ensures FileRecord(path, digest) == FileEntry(path, digest)
  {
    TwoFields("path", "sha256", Str(path), Str(digest));
  }

  lemma SourceMeans(host: Host, sources: map<string, Bytes>, p: string)
    requires p in sources
    ensures SourceRecord(host, sources, p) == FileEntry(p, host.sha256(sources[p]))
  {
    FileMeans(p, host.sha256(sources[p]));
  }

  lemma EntriesDiffer(p: string, d: string, q: string, e: string)
    ensures FileEntry(p, d) == FileEntry(q, e) ==> p == q && d == e
  {
    var m, n := map["path" := Str(p), "sha256" := Str(d)], map["path" := Str(q), "sha256" := Str(e)];
    assert m["path"] == Str(p) && n["path"] == Str(q) && m["sha256"] == Str(d) && n["sha256"] == Str(e);
  }

  lemma PathsMean(host: Host, ss: seq<string>, p: string)
    requires Pathed(host, ss)
    ensures p in Dedup(PathsOf(host, ss)) <==> exists s :: s in ss && host.sourcePath(s) == Some(p)
    ensures NoRepeats(Dedup(PathsOf(host, ss)))
  {
    var ps := PathsOf(host, ss);
    DedupSound(ps);
    if p in ps {
      var i :| 0 <= i < |ps| && ps[i] == p;
      assert ss[i] in ss;
    }
    if s :| s in ss && host.sourcePath(s) == Some(p) {
      var i :| 0 <= i < |ss| && ss[i] == s;
      assert ps[i] == p;
    }
  }

  lemma RecordsMean(host: Host, sources: map<string, Bytes>, ps: seq<string>)
    requires NoRepeats(ps) && forall p :: p in ps ==> p in sources
    ensures var ds := SourceRecords(host, sources, ps).items;
      && |ds| == |ps| && NoRepeats(ds)
      && forall i :: 0 <= i < |ps| ==> ps[i] in sources && ds[i] == FileEntry(ps[i], host.sha256(sources[ps[i]]))
  {
    var ds := SourceRecords(host, sources, ps).items;
    forall i | 0 <= i < |ps| ensures ps[i] in sources && ds[i] == FileEntry(ps[i], host.sha256(sources[ps[i]])) {
      assert ps[i] in ps;
      SourceMeans(host, sources, ps[i]);
    }
    forall i, j | 0 <= i < j < |ds| ensures ds[i] != ds[j] {
      EntriesDiffer(ps[i], host.sha256(sources[ps[i]]), ps[j], host.sha256(sources[ps[j]]));
    }
  }

  lemma PathsSupplied(host: Host, sources: map<string, Bytes>, c: Category)
    requires Covered(host, sources, c)
    ensures var ps := Dedup(PathsOf(host, c.selectors));
      && NoRepeats(ps) && (forall p :: p in ps ==> p in sources)
      && forall p :: p in ps <==> exists s :: s in c.selectors && host.sourcePath(s) == Some(p)
  {
    PathsMean(host, c.selectors, "");
    forall p ensures p in Dedup(PathsOf(host, c.selectors)) <==>
      exists s :: s in c.selectors && host.sourcePath(s) == Some(p)
    {
      PathsMean(host, c.selectors, p);
    }
  }

  lemma SourcesAreListed(host: Host, sources: map<string, Bytes>, c: Category)
    requires Covered(host, sources, c)
    ensures SourcesListed(host, sources, c.selectors,
                          SourceRecords(host, sources, Dedup(PathsOf(host, c.selectors))).items)
  {
    var ps := Dedup(PathsOf(host, c.selectors));
    var ds := SourceRecords(host, sources, ps).items;
    PathsSupplied(host, sources, c);
    RecordsMean(host, sources, ps);
    forall s | s in c.selectors
      ensures FileEntry(host.sourcePath(s).value, host.sha256(sources[host.sourcePath(s).value])) in ds
    {
      var p := host.sourcePath(s).value;
      var i :| 0 <= i < |ps| && ps[i] == p;
      assert ds[i] in ds;
    }
    forall d | d in ds ensures IsSource(host, sources, c.selectors, d) {
      var i :| 0 <= i < |ds| && ds[i] == d;
      assert ps[i] in ps;
    }
  }

  lemma CategoryMeans(host: Host, sources: map<string, Bytes>, c: Category)
    requires Covered(host, sources, c)
    ensures CategoryListed(host, sources, c, CategoryRecord(host, sources, c))
  {
    var ds := SourceRecords(host, sources, Dedup(PathsOf(host, c.selectors)));
    var ss := Strs(c.selectors);
    SourcesAreListed(host, sources, c);
    ThreeFields("id", "pytestSelectors", "sourceDigests", Str(c.id), ss, ds);
    assert ss == List(ss.items) && ds == List(ds.items);
  }

  lemma CategoriesMean(host: Host, sources: map<string, Bytes>, cs: seq<Category>)
    requires forall i :: 0 <= i < |cs| ==> Covered(host, sources, cs[i])
    ensures CategoriesListed(host, sources, cs, CategoryRecords(host, sources, cs))
  {
    forall i | 0 <= i < |cs| ensures CategoryListed(host, sources, cs[i], CategoryRecord(host, sources, cs[i])) {
      CategoryMeans(host, sources, cs[i]);
    }
  }

  lemma TestsMean(m: Manifest)
    ensures Tests(m) == |Selected(m)|
  {
    var all := AllSelectors(m);
    DedupSound(all);
    CountsDistinct(Dedup(all));
    forall s ensures s in Elements(Dedup(all)) <==> s in Selected(m) {
      SelectorsOfAt(m.objects, s);
      SelectorsOfAt(m.resources, s);
    }
    assert Elements(Dedup(all)) == Selected(m);
  }

  // ---------- the result ----------

  function PytestObject(file: string, n: nat, name: string, digest: string): Json {
    Obj(map["status" := Str("passed"), "exitCode" := Int(0), "collected" := Int(n), "passed" := Int(n),
            "failed" := Int(0), "errors" := Int(0), "skipped" := Int(0),
            "junit" := Obj(map["artifactName" := Str(name), "path" := Str(file), "sha256" := Str(digest)])])
  }

  lemma PytestMeans(file: string, n: nat, name: string, digest: string)
    ensures PytestRecord(file, AllPassed(n), name, digest) == PytestObject(file, n, name, digest)
  {
    var junit := JunitRecord(file, name, digest);
    ThreeFields("artifactName", "path", "sha256", Str(name), Str(file), Str(digest));
    FourFields("status", "exitCode", "collected", "passed", Str("passed"), Int(0), Int(n), Int(n));
    var ns, vs := ["status", "exitCode", "collected", "passed"], [Str("passed"), Int(0), Int(n), Int(n)];
    MoreFields(ns, vs, "failed", "errors", "skipped", Int(0), Int(0), Int(0));
    TableStep(ns + ["failed", "errors", "skipped"], vs + [Int(0), Int(0), Int(0)], "junit", junit);
    assert ns + ["failed", "errors", "skipped"] + ["junit"] == PYTEST_KEYS;
    assert vs + [Int(0), Int(0), Int(0)] + [junit] == CountFields(AllPassed(n)) + [junit];
  }

  /** The seven fields before the digest. */
  function Unsigned(inp: Inputs, manifest: Json, runner: Json, pytest: Json, objects: Json, resources: Json)
    : map<string, Json>
  {
    map["formatVersion" := Int(inp.manifest.resultFormatVersion), "candidateCommit" := Str(inp.commit),
        "manifest" := manifest, "runner" := runner, "pytest" := pytest,
        "objectAuthorization" := objects, "adversarialResources" := resources]
  }

  lemma UnsignedMeans(inp: Inputs, e: Sections, pytest: Json)
    requires e.version == inp.manifest.resultFormatVersion && e.commit == inp.commit
    ensures Table(PAYLOAD_KEYS, Payload(e, pytest))
         == Unsigned(inp, e.manifest, e.runner, pytest, e.objects, e.resources)
  {
    FourFields("formatVersion", "candidateCommit", "manifest", "runner",
               Int(e.version), Str(e.commit), e.manifest, e.runner);
    MoreFields(["formatVersion", "candidateCommit", "manifest", "runner"],
               [Int(e.version), Str(e.commit), e.manifest, e.runner],
               "pytest", "objectAuthorization", "adversarialResources", pytest, e.objects, e.resources);
    assert ["formatVersion", "candidateCommit", "manifest", "runner"]
      + ["pytest", "objectAuthorization", "adversarialResources"] == PAYLOAD_KEYS;
    assert [Int(e.version), Str(e.commit), e.manifest, e.runner] + [pytest, e.objects, e.resources]
      == Payload(e, pytest);
  }

  /** With the hash of the fields as one more field. */
  function Certified(host: Host, rest: map<string, Json>): Json {
    Obj(rest["resultDigest" := Str(host.canonicalHash(Obj(rest)))])
  }

  lemma SignedMeans(host: Host, payload: seq<Json>)
    requires |payload| == |PAYLOAD_KEYS|
    ensures Signed(host, payload) == Certified(host, Table(PAYLOAD_KEYS, payload))
  {
    TableStep(PAYLOAD_KEYS, payload, "resultDigest", Str(host.canonicalHash(Record(PAYLOAD_KEYS, payload))));
  }

  /** The lists of a result. */
  datatype Lists = Lists(scope: seq<Json>, objects: seq<Json>, resources: seq<Json>)

  ghost predicate ListsOk(host: Host, inp: Inputs, l: Lists) {
    && IdsAre(l.scope, inp.manifest.objects)
    && CategoriesListed(host, inp.sources, inp.manifest.objects, l.objects)
    && CategoriesListed(host, inp.sources, inp.manifest.resources, l.resources)
  }

  /** The result, field by field: the candidate and manifest it is for, the runner, one passed test for
      each distinct selector with the report that says so, the digest of the route manifest and of the
      sources of every category, and the hash of all this. */
  ghost function Written(host: Host, inp: Inputs, name: string, digest: string, l: Lists): Json
    requires inp.manifest.routeSource in inp.sources
  {
    var m := inp.manifest;
    Certified(host, Unsigned(inp,
      FileEntry("docs/project/stable-security-gates.yaml", host.sha256(inp.manifestBytes)),
      RunnerOf(m.os, m.python),
      PytestObject(m.junitFile, |Selected(m)|, name, digest),
      ObjectsOf(l.scope, FileEntry(m.routeSource, host.sha256(inp.sources[m.routeSource])), l.objects),
      ResourcesOf(l.resources)))
  }

  lemma ResultMeans(host: Host, inp: Inputs, name: string, digest: string) returns (l: Lists)
    requires Complete(host, inp)
    ensures inp.manifest.routeSource in inp.sources && ListsOk(host, inp, l)
    ensures ResultFor(host, inp, name, digest) == Written(host, inp, name, digest, l)
  {
    l := ListsOf(host, inp);
    ListsMean(host, inp);
    SectionsMean(host, inp);
    ResultParts(host, inp, name, digest);
  }

  function ListsOf(host: Host, inp: Inputs): Lists {
    Lists(Ids(inp.manifest.objects).items, CategoryRecords(host, inp.sources, inp.manifest.objects),
          CategoryRecords(host, inp.sources, inp.manifest.resources))
  }

  lemma ListsMean(host: Host, inp: Inputs)
    requires Complete(host, inp)
    ensures inp.manifest.routeSource in inp.sources && ListsOk(host, inp, ListsOf(host, inp))
  {
    CompleteCovers(host, inp);
    CategoriesMean(host, inp.sources, inp.manifest.objects);
    CategoriesMean(host, inp.sources, inp.manifest.resources);
  }

  lemma ResultParts(host: Host, inp: Inputs, name: string, digest: string)
    ensures var e, m := SectionsOf(host, inp), inp.manifest;
      ResultFor(host, inp, name, digest) == Certified(host, Unsigned(inp, e.manifest, e.runner,
        PytestObject(m.junitFile, |Selected(m)|, name, digest), e.objects, e.resources))
  {
    var m := inp.manifest;
    PytestMeans(m.junitFile, Tests(m), name, digest);
    TestsMean(m);
    var e, pytest := SectionsOf(host, inp), PytestRecord(m.junitFile, AllPassed(Tests(m)), name, digest);
    SignedMeans(host, Payload(e, pytest));
    UnsignedMeans(inp, e, pytest);
  }

  function RunnerOf(os: string, python: string): Json { Obj(map["os" := Str(os), "python" := Str(python)]) }

  function ResourcesOf(categories: seq<Json>): Json {
    Obj(map["status" := Str("passed"), "categories" := List(categories)])
  }

  function ObjectsOf(scope: seq<Json>, route: Json, categories: seq<Json>): Json {
    Obj(map["status" := Str("passed"), "scope" := List(scope), "routeManifest" := route,
            "categories" := List(categories)])
  }

  lemma SectionsMean(host: Host, inp: Inputs)
    requires inp.manifest.routeSource in inp.sources
    ensures var e, m := SectionsOf(host, inp), inp.manifest;
      && e.version == m.resultFormatVersion && e.commit == inp.commit
      && e.manifest == FileEntry("docs/project/stable-security-gates.yaml", host.sha256(inp.manifestBytes))
      && e.runner == RunnerOf(m.os, m.python)
      && e.objects == ObjectsOf(Ids(m.objects).items,
                                FileEntry(m.routeSource, host.sha256(inp.sources[m.routeSource])),
                                CategoryRecords(host, inp.sources, m.objects))
      && e.resources == ResourcesOf(CategoryRecords(host, inp.sources, m.resources))
  {
    var m := inp.manifest;
    FileMeans(MANIFEST_PATH, host.sha256(inp.manifestBytes));
    SourceMeans(host, inp.sources, m.routeSource);
    TwoFields("os", "python", Str(m.os), Str(m.python));
    TwoFields("status", "categories", Str("passed"), List(CategoryRecords(host, inp.sources, m.resources)));
    FourFields("status", "scope", "routeManifest", "categories", Str("passed"), Ids(m.objects),
               SourceRecord(host, inp.sources, m.routeSource), List(CategoryRecords(host, inp.sources, m.objects)));
    assert Ids(m.objects) == List(Ids(m.objects).items);
  }

  // ---------- what it binds ----------

  /** The source of the path is the same, as far as its digest goes. */
  ghost predicate SameSource(host: Host, inp: Inputs, other: Inputs, p: string) {
    p in inp.sources && p in other.sources && host.sha256(inp.sources[p]) == host.sha256(other.sources[p])
  }

  lemma CertifiedApart(host: Host, a: map<string, Json>, b: map<string, Json>)
    requires "resultDigest" !in a && "resultDigest" !in b && Certified(host, a) == Certified(host, b)
    ensures a == b
  {
    var x := a["resultDigest" := Str(host.canonicalHash(Obj(a)))];
    var y := b["resultDigest" := Str(host.canonicalHash(Obj(b)))];
    assert x == y;
    assert a == x - {"resultDigest"} && b == y - {"resultDigest"};
  }

  lemma FieldsApart(host: Host, inp: Inputs, manifest: Json, runner: Json, pytest: Json, objects: Json,
                    resources: Json, inp': Inputs, manifest': Json, runner': Json, pytest': Json, objects': Json,
                    resources': Json)
    requires Certified(host, Unsigned(inp, manifest, runner, pytest, objects, resources))
          == Certified(host, Unsigned(inp', manifest', runner', pytest', objects', resources'))
    ensures inp.commit == inp'.commit && manifest == manifest' && pytest == pytest' && objects == objects'
    ensures resources == resources'
  {
    var a := Unsigned(inp, manifest, runner, pytest, objects, resources);
    var b := Unsigned(inp', manifest', runner', pytest', objects', resources');
    CertifiedApart(host, a, b);
    assert a["candidateCommit"] == b["candidateCommit"] && a["manifest"] == b["manifest"];
    assert a["pytest"] == b["pytest"] && a["objectAuthorization"] == b["objectAuthorization"];
    assert a["adversarialResources"] == b["adversarialResources"];
  }

  lemma ObjectsApart(scope: seq<Json>, route: Json, cs: seq<Json>, scope': seq<Json>, route': Json, cs': seq<Json>)
    requires ObjectsOf(scope, route, cs) == ObjectsOf(scope', route', cs')
    ensures route == route' && cs == cs'
  {
    var a, b := ObjectsOf(scope, route, cs).fields, ObjectsOf(scope', route', cs').fields;
    assert a["routeManifest"] == b["routeManifest"] && a["categories"] == b["categories"];
  }

  lemma ResourcesApart(cs: seq<Json>, cs': seq<Json>)
    requires ResourcesOf(cs) == ResourcesOf(cs')
    ensures cs == cs'
  {
    var a, b := ResourcesOf(cs).fields, ResourcesOf(cs').fields;
    assert a["categories"] == b["categories"];
  }

  /** A category record that fits two sets of sources shows that they agree on its files. */
  lemma CategoryBinds(host: Host, inp: Inputs, other: Inputs, c: Category, v: Json, s: string)
    requires CategoryListed(host, inp.sources, c, v) && CategoryListed(host, other.sources, c, v) && s in c.selectors
    ensures host.sourcePath(s).Some? && SameSource(host, inp, other, host.sourcePath(s).value)
  {
    var ds, ss :| v == Obj(map["id" := Str(c.id), "pytestSelectors" := List(ss), "sourceDigests" := List(ds)])
      && SourcesListed(host, inp.sources, c.selectors, ds) && TextsAre(ss, c.selectors);
    var es, ts :| v == Obj(map["id" := Str(c.id), "pytestSelectors" := List(ts), "sourceDigests" := List(es)])
      && SourcesListed(host, other.sources, c.selectors, es) && TextsAre(ts, c.selectors);
    assert v.fields["sourceDigests"] == List(ds) && v.fields["sourceDigests"] == List(es);
    var p := host.sourcePath(s).value;
    var d := FileEntry(p, host.sha256(inp.sources[p]));
    assert IsSource(host, other.sources, c.selectors, d);
    var s', p' :| s' in c.selectors && host.sourcePath(s') == Some(p') && p' in other.sources
      && d == FileEntry(p', host.sha256(other.sources[p']));
    EntriesDiffer(p, host.sha256(inp.sources[p]), p', host.sha256(other.sources[p']));
  }

  lemma CategoriesBind(host: Host, inp: Inputs, other: Inputs, cs: seq<Category>, vs: seq<Json>, s: string)
    requires CategoriesListed(host, inp.sources, cs, vs) && CategoriesListed(host, other.sources, cs, vs)
    requires s in SelectorsOf(cs)
    ensures host.sourcePath(s).Some? && SameSource(host, inp, other, host.sourcePath(s).value)
  {
    SelectorsOfAt(cs, s);
    var c :| c in cs && s in c.selectors;
    var i :| 0 <= i < |cs| && cs[i] == c;
    CategoryBinds(host, inp, other, c, vs[i], s);
  }

  lemma WrittenApart(host: Host, inp: Inputs, name: string, digest: string, l: Lists, other: Inputs, name': string,
                     digest': string, l': Lists)
    requires inp.manifest.routeSource in inp.sources && other.manifest.routeSource in other.sources
    requires inp.manifest == other.manifest
    requires Written(host, inp, name, digest, l) == Written(host, other, name', digest', l')
    ensures inp.commit == other.commit && host.sha256(inp.manifestBytes) == host.sha256(other.manifestBytes)
    ensures SameSource(host, inp, other, inp.manifest.routeSource)
    ensures l.objects == l'.objects && l.resources == l'.resources
  {
    var m := inp.manifest;
    var route, route' := FileEntry(m.routeSource, host.sha256(inp.sources[m.routeSource])),
      FileEntry(m.routeSource, host.sha256(other.sources[m.routeSource]));
    var text, text' := FileEntry("docs/project/stable-security-gates.yaml", host.sha256(inp.manifestBytes)),
      FileEntry("docs/project/stable-security-gates.yaml", host.sha256(other.manifestBytes));
    var runner := RunnerOf(m.os, m.python);
    var pytest, pytest' := PytestObject(m.junitFile, |Selected(m)|, name, digest),
      PytestObject(m.junitFile, |Selected(m)|, name', digest');
    FieldsApart(host, inp, text, runner, pytest, ObjectsOf(l.scope, route, l.objects), ResourcesOf(l.resources),
      other, text', runner, pytest', ObjectsOf(l'.scope, route', l'.objects), ResourcesOf(l'.resources));
    ObjectsApart(l.scope, route, l.objects, l'.scope, route', l'.objects);
    ResourcesApart(l.resources, l'.resources);
    EntriesDiffer("docs/project/stable-security-gates.yaml", host.sha256(inp.manifestBytes),
                  "docs/project/stable-security-gates.yaml", host.sha256(other.manifestBytes));
    EntriesDiffer(m.routeSource, host.sha256(inp.sources[m.routeSource]),
                  m.routeSource, host.sha256(other.sources[m.routeSource]));
  }

  /** Under one manifest, equal results are for one commit, one manifest text, one report, and sources
      that agree on the digest of every file. */
  lemma ResultBindsSources(host: Host, inp: Inputs, other: Inputs, name: string, digest: string, name': string,
                           digest': string)
    requires inp.manifest == other.manifest && Complete(host, inp) && Complete(host, other)
    requires ResultFor(host, inp, name, digest) == ResultFor(host, other, name', digest')
    ensures inp.commit == other.commit && host.sha256(inp.manifestBytes) == host.sha256(other.manifestBytes)
    ensures forall p :: p in inp.sources ==> SameSource(host, inp, other, p)
  {
    var l := ResultMeans(host, inp, name, digest);
    var l' := ResultMeans(host, other, name', digest');
    WrittenApart(host, inp, name, digest, l, other, name', digest', l');
    forall p | p in inp.sources ensures SameSource(host, inp, other, p) {
      SourceBound(host, inp, other, l.objects, l.resources, p);
    }
  }

  lemma SourceBound(host: Host, inp: Inputs, other: Inputs, objects: seq<Json>, resources: seq<Json>, p: string)
    requires inp.manifest == other.manifest && Complete(host, inp) && p in inp.sources
    requires CategoriesListed(host, inp.sources, inp.manifest.objects, objects)
    requires CategoriesListed(host, other.sources, inp.manifest.objects, objects)
    requires CategoriesListed(host, inp.sources, inp.manifest.resources, resources)
    requires CategoriesListed(host, other.sources, inp.manifest.resources, resources)
    requires SameSource(host, inp, other, inp.manifest.routeSource)
    ensures SameSource(host, inp, other, p)
  {
    if p != inp.manifest.routeSource {
      ListedLookedUp(host, inp.manifest, p);
      var c, s :| (c in inp.manifest.objects || c in inp.manifest.resources) && s in c.selectors
        && p == PathOf(host, s);
      SelectorsOfAt(inp.manifest.objects, s);
      SelectorsOfAt(inp.manifest.resources, s);
      if c in inp.manifest.objects {
        CategoriesBind(host, inp, other, inp.manifest.objects, objects, s);
      } else {
        CategoriesBind(host, inp, other, inp.manifest.resources, resources, s);
      }
    }
  }

  /** One accepted value cannot vouch for two candidates: whatever else is supplied, the sources agree on
      every digest. */
  lemma AcceptedBindsSources(host: Host, inp: Inputs, other: Inputs, junit: Option<Bytes>, expected: Option<string>,
                             junit': Option<Bytes>, expected': Option<string>, v: Json)
    requires inp.manifest == other.manifest
    requires Admits(host, inp, junit, expected, v) && Admits(host, other, junit', expected', v)
    ensures inp.commit == other.commit && host.sha256(inp.manifestBytes) == host.sha256(other.manifestBytes)
    ensures inp.sources.Keys == other.sources.Keys
    ensures forall p :: p in inp.sources ==> SameSource(host, inp, other, p)
  {
    var name, digest := AdmittedIs(host, inp, junit, expected, v);
    var name', digest' := AdmittedIs(host, other, junit', expected', v);
    ResultBindsSources(host, inp, other, name, digest, name', digest');
  }

  lemma AdmittedIs(host: Host, inp: Inputs, junit: Option<Bytes>, expected: Option<string>, v: Json)
    returns (name: string, digest: string)
    requires Admits(host, inp, junit, expected, v)
    ensures v == ResultFor(host, inp, name, digest)
  {
    var x := ExpectOf(host, inp.manifest, junit, expected);
    name, digest :| IdentityOk(host, x, name, digest)
      && v == Signed(host, Payload(SectionsOf(host, inp), ExpectedPytest(x, name, digest)));
  }
}
