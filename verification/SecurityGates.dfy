/** The security-gate result: one builder and one validator that define the same value. */
module SecurityGates {
  import opened Common
  import opened GateReport
  import opened PythonJson

  datatype Category = Category(id: string, selectors: seq<string>)

  /** A loaded manifest. */
  datatype Manifest = Manifest(
    resultFormatVersion: int, junitFile: string, os: string, python: string,
    routeSource: string, objects: seq<Category>, resources: seq<Category>)

  /** Hashing, the JSON and XML codecs, and the pattern checks on single strings. */
  datatype Host = Host(
    sha256: Bytes -> string, canonicalHash: Json -> string,
    encode: Json -> Bytes, decode: Bytes -> Option<Json>, parseXml: Bytes -> Option<Element>,
    sourcePath: string -> Option<string>,
    isCommit: string -> bool, isArtifactName: string -> bool, isDigest: string -> bool)

  /** What both the builder and the validator are given. */
  datatype Inputs = Inputs(manifest: Manifest, manifestBytes: Bytes, commit: string, sources: map<string, Bytes>)

  datatype GateError = Oversized | NotJson | Shape | Selector | SourceSet | Commit | Name | ManifestBinding | Runner
                     | Pytest | Junit | Evidence | Digest | NotCanonical | MissingSource

  datatype Result = Ok(value: Json) | Err(error: GateError)

  const MANIFEST_PATH := "docs/project/stable-security-gates.yaml"
  const RESULT_MAX_BYTES: nat := 4 * 1024 * 1024

  // ---------- selectors and source paths ----------

  function SelectorsOf(cs: seq<Category>): seq<string> {
    if cs == [] then [] else SelectorsOf(cs[..|cs| - 1]) + cs[|cs| - 1].selectors
  }

  function AllSelectors(m: Manifest): seq<string> { SelectorsOf(m.objects) + SelectorsOf(m.resources) }

  lemma {:induction false} SelectorsOfAt(cs: seq<Category>, s: string)
    ensures s in SelectorsOf(cs) <==> exists c :: c in cs && s in c.selectors
    decreases |cs|
  {
    if cs != [] {
      var n := |cs| - 1;
      assert cs == cs[..n] + [cs[n]];
      SelectorsOfAt(cs[..n], s);
    }
  }

  lemma SelectorsNext(cs: seq<Category>, i: nat)
    requires i < |cs|
    ensures SelectorsOf(cs[..i + 1]) == SelectorsOf(cs[..i]) + cs[i].selectors
  {
    assert cs[..i + 1][..i] == cs[..i];
  }

  /** `if selector not in selectors: selectors.append(selector)`, for one list. */
  method AddAll(before: seq<string>, more: seq<string>, start: seq<string>) returns (r: seq<string>)
    requires start == Dedup(before)
    ensures r == Dedup(before + more)
  {
    r := start;
    assert before + more[..0] == before;
    for j := 0 to |more|
      invariant r == Dedup(before + more[..j])
    {
      DedupStep(before + more[..j], more[j]);
      assert before + more[..j + 1] == before + more[..j] + [more[j]];
      if more[j] !in r {
        r := r + [more[j]];
      }
    }
    assert more[..|more|] == more;
  }

  /** One section of `manifest_selectors`, added to what is there. */
  method AddSection(before: seq<string>, cs: seq<Category>, start: seq<string>) returns (r: seq<string>)
    requires start == Dedup(before)
    ensures r == Dedup(before + SelectorsOf(cs))
  {
    r := start;
    assert before + SelectorsOf(cs[..0]) == before;
    for i := 0 to |cs|
      invariant r == Dedup(before + SelectorsOf(cs[..i]))
    {
      r := AddAll(before + SelectorsOf(cs[..i]), cs[i].selectors, r);
      SelectorsNext(cs, i);
      assert before + SelectorsOf(cs[..i]) + cs[i].selectors == before + SelectorsOf(cs[..i + 1]);
    }
    assert cs[..|cs|] == cs;
  }

  /** `manifest_selectors`. */
  method Selectors(m: Manifest) returns (r: seq<string>)
    ensures r == Dedup(AllSelectors(m))
    ensures NoRepeats(r) && forall s :: s in r <==> s in AllSelectors(m)
  {
    r := AddSection([], m.objects, []);
    assert [] + SelectorsOf(m.objects) == SelectorsOf(m.objects);
    r := AddSection(SelectorsOf(m.objects), m.resources, r);
    DedupSound(AllSelectors(m));
  }

  predicate Pathed(host: Host, ss: seq<string>) { forall s :: s in ss ==> host.sourcePath(s).Some? }

  function PathOf(host: Host, s: string): string {
    if host.sourcePath(s).Some? then host.sourcePath(s).value else ""
  }

  function PathsOf(host: Host, ss: seq<string>): (r: seq<string>)
    ensures |r| == |ss| && forall i :: 0 <= i < |ss| ==> r[i] == PathOf(host, ss[i])
  {
    seq(|ss|, i requires 0 <= i < |ss| => PathOf(host, ss[i]))
  }

  /** The deduplicated source paths: the route manifest first. */
  function SourceList(host: Host, m: Manifest): seq<string> {
    Dedup([m.routeSource] + PathsOf(host, Dedup(AllSelectors(m))))
  }

  /** Appends the paths of `ss` that are not there yet; `None` where a selector has no path. */
  method AddPaths(host: Host, ss: seq<string>, start: seq<string>) returns (r: Option<seq<string>>)
    requires NoRepeats(start)
    ensures r.Some? <==> Pathed(host, ss)
    ensures r.Some? ==> r.value == Dedup(start + PathsOf(host, ss))
  {
    var paths := start;
    DedupIdentity(start);
    assert start + PathsOf(host, ss[..0]) == start;
    for i := 0 to |ss|
      invariant Pathed(host, ss[..i])
      invariant paths == Dedup(start + PathsOf(host, ss[..i]))
    {
      if host.sourcePath(ss[i]).None? {
        assert ss[i] in ss;
        return None;
      }
      var path := host.sourcePath(ss[i]).value;
      NextPathed(host, ss, i);
      NextPath(host, ss, start, i);
      if path !in paths {
        paths := paths + [path];
      }
    }
    assert ss[..|ss|] == ss;
    return Some(paths);
  }

  lemma NextPathed(host: Host, ss: seq<string>, i: nat)
    requires i < |ss| && Pathed(host, ss[..i]) && host.sourcePath(ss[i]).Some?
    ensures Pathed(host, ss[..i + 1])
  {
    assert ss[..i + 1] == ss[..i] + [ss[i]];
  }

  lemma NextPath(host: Host, ss: seq<string>, start: seq<string>, i: nat)
    requires i < |ss|
    ensures var r, p := Dedup(start + PathsOf(host, ss[..i])), PathOf(host, ss[i]);
            Dedup(start + PathsOf(host, ss[..i + 1])) == if p in r then r else r + [p]
  {
    DedupStep(start + PathsOf(host, ss[..i]), PathOf(host, ss[i]));
    assert start + PathsOf(host, ss[..i + 1]) == start + PathsOf(host, ss[..i]) + [PathOf(host, ss[i])];
  }

  /** `manifest_source_paths`. */
  method SourcePaths(host: Host, m: Manifest) returns (r: Option<seq<string>>)
    ensures r.Some? <==> Pathed(host, AllSelectors(m))
    ensures r.Some? ==> r.value == SourceList(host, m)
  {
    var selectors := Selectors(m);
    DedupSound(AllSelectors(m));
    r := AddPaths(host, selectors, [m.routeSource]);
  }

  /** Every path a category looks up is in the deduplicated list. */
  lemma LookupsListed(host: Host, m: Manifest, c: Category, s: string)
    requires (c in m.objects || c in m.resources) && s in c.selectors
    ensures PathOf(host, s) in SourceList(host, m)
  {
    SelectorsOfAt(m.objects, s);
    SelectorsOfAt(m.resources, s);
    var ss := Dedup(AllSelectors(m));
    DedupSound(AllSelectors(m));
    assert s in ss;
    var i :| 0 <= i < |ss| && ss[i] == s;
    var all := [m.routeSource] + PathsOf(host, ss);
    assert all[i + 1] == PathOf(host, s);
    DedupSound(all);
  }

  /** And nothing is listed that is not looked up. */
  lemma ListedLookedUp(host: Host, m: Manifest, p: string)
    requires p in SourceList(host, m) && p != m.routeSource
    ensures exists c, s :: (c in m.objects || c in m.resources) && s in c.selectors && p == PathOf(host, s)
  {
    var ss := Dedup(AllSelectors(m));
    DedupSound(AllSelectors(m));
    DedupSound([m.routeSource] + PathsOf(host, ss));
    assert p in PathsOf(host, ss);
    var i :| 0 <= i < |ss| && PathsOf(host, ss)[i] == p;
    assert ss[i] in AllSelectors(m);
    SelectorsOfAt(m.objects, ss[i]);
    SelectorsOfAt(m.resources, ss[i]);
  }

  // ---------- the parts of the result ----------

  const FILE_KEYS := ["path", "sha256"]
  const RUNNER_KEYS := ["os", "python"]
  const JUNIT_KEYS := ["artifactName", "path", "sha256"]
  const PYTEST_KEYS := ["status", "exitCode", "collected", "passed", "failed", "errors", "skipped", "junit"]
  const CATEGORY_KEYS := ["id", "pytestSelectors", "sourceDigests"]
  const OBJECT_KEYS := ["status", "scope", "routeManifest", "categories"]
  const RESOURCE_KEYS := ["status", "categories"]
  const PAYLOAD_KEYS := ["formatVersion", "candidateCommit", "manifest", "runner", "pytest",
                         "objectAuthorization", "adversarialResources"]
  const RESULT_KEYS := PAYLOAD_KEYS + ["resultDigest"]

  lemma KeysDistinct()
    ensures NoRepeats(JUNIT_KEYS) && NoRepeats(PYTEST_KEYS) && NoRepeats(RESULT_KEYS)
  {
    assert RESULT_KEYS == ["formatVersion", "candidateCommit", "manifest", "runner", "pytest",
                           "objectAuthorization", "adversarialResources", "resultDigest"];
  }

  function Blob(sources: map<string, Bytes>, p: string): Bytes { if p in sources then sources[p] else [] }

  function FileRecord(path: string, digest: string): Json { Record(FILE_KEYS, [Str(path), Str(digest)]) }

  function SourceRecord(host: Host, sources: map<string, Bytes>, p: string): Json {
    FileRecord(p, host.sha256(Blob(sources, p)))
  }

  function Strs(xs: seq<string>): Json { List(seq(|xs|, i requires 0 <= i < |xs| => Str(xs[i]))) }

  function SourceRecords(host: Host, sources: map<string, Bytes>, ps: seq<string>): Json {
    List(seq(|ps|, i requires 0 <= i < |ps| => SourceRecord(host, sources, ps[i])))
  }

  function CategoryRecord(host: Host, sources: map<string, Bytes>, c: Category): Json {
    Record(CATEGORY_KEYS,
      [Str(c.id), Strs(c.selectors), SourceRecords(host, sources, Dedup(PathsOf(host, c.selectors)))])
  }

  function CategoryRecords(host: Host, sources: map<string, Bytes>, cs: seq<Category>): seq<Json> {
    seq(|cs|, i requires 0 <= i < |cs| => CategoryRecord(host, sources, cs[i]))
  }

  function Ids(cs: seq<Category>): Json { List(seq(|cs|, i requires 0 <= i < |cs| => Str(cs[i].id))) }

  function ObjectSection(host: Host, inp: Inputs, categories: seq<Json>): Json {
    Record(OBJECT_KEYS, [Str("passed"), Ids(inp.manifest.objects),
                         SourceRecord(host, inp.sources, inp.manifest.routeSource), List(categories)])
  }

  function ResourceSection(categories: seq<Json>): Json { Record(RESOURCE_KEYS, [Str("passed"), List(categories)]) }

  function RunnerRecord(m: Manifest): Json { Record(RUNNER_KEYS, [Str(m.os), Str(m.python)]) }

  function ObjectEvidence(host: Host, inp: Inputs): Json {
    ObjectSection(host, inp, CategoryRecords(host, inp.sources, inp.manifest.objects))
  }

  function ResourceEvidence(host: Host, inp: Inputs): Json {
    ResourceSection(CategoryRecords(host, inp.sources, inp.manifest.resources))
  }

  function JunitRecord(file: string, name: string, digest: string): Json {
    Record(JUNIT_KEYS, [Str(name), Str(file), Str(digest)])
  }

  function PytestRecord(file: string, counts: Counts, name: string, digest: string): Json {
    Record(PYTEST_KEYS, CountFields(counts) + [JunitRecord(file, name, digest)])
  }

  function CountFields(c: Counts): (r: seq<Json>)
    ensures |r| == 7
  {
    [Str("passed"), Int(0), Int(c.collected), Int(c.passed), Int(c.failed), Int(c.errors), Int(c.skipped)]
  }

  function AllPassed(tests: nat): Counts { Counts(tests, tests, 0, 0, 0) }

  /** The sections that do not depend on the test report. */
  datatype Sections = Sections(version: int, commit: string, manifest: Json, runner: Json, objects: Json,
                               resources: Json)

  function SectionsOf(host: Host, inp: Inputs): Sections {
    Sections(inp.manifest.resultFormatVersion, inp.commit, FileRecord(MANIFEST_PATH, host.sha256(inp.manifestBytes)),
             RunnerRecord(inp.manifest), ObjectEvidence(host, inp), ResourceEvidence(host, inp))
  }

  function Payload(e: Sections, pytest: Json): seq<Json> {
    [Int(e.version), Str(e.commit), e.manifest, e.runner, pytest, e.objects, e.resources]
  }

  function Signed(host: Host, payload: seq<Json>): Json
    requires |payload| == |PAYLOAD_KEYS|
  {
    Record(RESULT_KEYS, payload + [Str(host.canonicalHash(Record(PAYLOAD_KEYS, payload)))])
  }

  /** The number of distinct selectors. */
  function Tests(m: Manifest): nat { |Dedup(AllSelectors(m))| }

  /** The result for one artifact name and report digest. */
  function ResultFor(host: Host, inp: Inputs, name: string, digest: string): Json {
    Signed(host, Payload(SectionsOf(host, inp),
      PytestRecord(inp.manifest.junitFile, AllPassed(Tests(inp.manifest)), name, digest)))
  }

  lemma PlainStrs(xs: seq<string>)
    ensures Plain(Strs(xs))
  {
  }

  lemma PlainFile(path: string, digest: string)
    ensures Plain(FileRecord(path, digest))
  {
    PlainRecord(FILE_KEYS, [Str(path), Str(digest)]);
  }

  lemma PlainSources(host: Host, sources: map<string, Bytes>, ps: seq<string>)
    ensures Plain(SourceRecords(host, sources, ps))
  {
    forall i | 0 <= i < |ps| ensures Plain(SourceRecord(host, sources, ps[i])) {
      PlainFile(ps[i], host.sha256(Blob(sources, ps[i])));
    }
  }

  lemma PlainCategories(host: Host, sources: map<string, Bytes>, cs: seq<Category>)
    ensures Plain(List(CategoryRecords(host, sources, cs)))
  {
    forall i | 0 <= i < |cs| ensures Plain(CategoryRecord(host, sources, cs[i])) {
      var paths := Dedup(PathsOf(host, cs[i].selectors));
      PlainStrs(cs[i].selectors);
      PlainSources(host, sources, paths);
      PlainRecord(CATEGORY_KEYS, [Str(cs[i].id), Strs(cs[i].selectors), SourceRecords(host, sources, paths)]);
    }
  }

  /** The evidence sections hold no number, so that comparing them in Python is exact. */
  lemma PlainEvidence(host: Host, inp: Inputs)
    ensures Plain(ObjectEvidence(host, inp)) && Plain(ResourceEvidence(host, inp))
  {
    var m := inp.manifest;
    PlainCategories(host, inp.sources, m.objects);
    PlainCategories(host, inp.sources, m.resources);
    PlainFile(m.routeSource, host.sha256(Blob(inp.sources, m.routeSource)));
    PlainRecord(OBJECT_KEYS, [Str("passed"), Ids(m.objects), SourceRecord(host, inp.sources, m.routeSource),
                              List(CategoryRecords(host, inp.sources, m.objects))]);
    PlainRecord(RESOURCE_KEYS, [Str("passed"), List(CategoryRecords(host, inp.sources, m.resources))]);
  }

  // ---------- categories ----------

  predicate Covered(host: Host, sources: map<string, Bytes>, c: Category) {
    Pathed(host, c.selectors) && forall s :: s in c.selectors ==> PathOf(host, s) in sources
  }

  /** One round of `_category_results`; `None` where a path cannot be determined or looked up. */
  method CategoryResult(host: Host, sources: map<string, Bytes>, c: Category) returns (r: Option<Json>)
    ensures r.Some? <==> Covered(host, sources, c)
    ensures r.Some? ==> r.value == CategoryRecord(host, sources, c)
  {
    var paths := AddPaths(host, c.selectors, []);
    if paths.None? {
      return None;
    }
    assert [] + PathsOf(host, c.selectors) == PathsOf(host, c.selectors);
    LookupsCovered(host, sources, c);
    if exists p :: p in paths.value && p !in sources {
      return None;
    }
    return Some(Record(CATEGORY_KEYS, [Str(c.id), Strs(c.selectors), SourceRecords(host, sources, paths.value)]));
  }

  /** `_category_results`. */
  method CategoryResults(host: Host, sources: map<string, Bytes>, cs: seq<Category>) returns (r: Option<seq<Json>>)
    ensures r.Some? <==> forall i :: 0 <= i < |cs| ==> Covered(host, sources, cs[i])
    ensures r.Some? ==> r.value == CategoryRecords(host, sources, cs)
  {
    var results: seq<Json> := [];
    for i := 0 to |cs|
      invariant forall j :: 0 <= j < i ==> Covered(host, sources, cs[j])
      invariant |results| == i && forall j :: 0 <= j < i ==> results[j] == CategoryRecord(host, sources, cs[j])
    {
      var one := CategoryResult(host, sources, cs[i]);
      if one.None? {
        return None;
      }
      results := results + [one.value];
    }
    return Some(results);
  }

  lemma LookupsCovered(host: Host, sources: map<string, Bytes>, c: Category)
    requires Pathed(host, c.selectors)
    ensures Covered(host, sources, c) <==> forall p :: p in Dedup(PathsOf(host, c.selectors)) ==> p in sources
  {
    var ps := PathsOf(host, c.selectors);
    DedupSound(ps);
    forall s | s in c.selectors ensures PathOf(host, s) in ps {
      var i :| 0 <= i < |c.selectors| && c.selectors[i] == s;
      assert ps[i] == PathOf(host, s);
    }
  }

  /** The sources supplied are exactly those the manifest names. */
  ghost predicate Complete(host: Host, inp: Inputs) {
    Pathed(host, AllSelectors(inp.manifest)) && inp.sources.Keys == Elements(SourceList(host, inp.manifest))
  }

  /** So no category lookup can fail. */
  lemma CompleteCovers(host: Host, inp: Inputs)
    requires Complete(host, inp)
    ensures inp.manifest.routeSource in inp.sources
    ensures forall c :: c in inp.manifest.objects || c in inp.manifest.resources ==> Covered(host, inp.sources, c)
  {
    var m := inp.manifest;
    var all := [m.routeSource] + PathsOf(host, Dedup(AllSelectors(m)));
    assert all[0] == m.routeSource;
    DedupSound(all);
    assert m.routeSource in SourceList(host, m);
    forall c | c in m.objects || c in m.resources ensures Covered(host, inp.sources, c) {
      forall s | s in c.selectors ensures host.sourcePath(s).Some? && PathOf(host, s) in inp.sources {
        SelectorsOfAt(m.objects, s);
        SelectorsOfAt(m.resources, s);
        assert s in AllSelectors(m);
        LookupsListed(host, m, c, s);
      }
    }
  }

  /** The four evidence sections, as both the builder and the validator compute them. */
  method ExpectedSections(host: Host, inp: Inputs) returns (r: Option<Sections>)
    requires Complete(host, inp)
    ensures r == Some(SectionsOf(host, inp))
  {
    var m := inp.manifest;
    CompleteCovers(host, inp);
    var objects := CategoryResults(host, inp.sources, m.objects);
    var resources := CategoryResults(host, inp.sources, m.resources);
    if objects.None? || resources.None? {
      return None;
    }
    return Some(Sections(m.resultFormatVersion, inp.commit, FileRecord(MANIFEST_PATH, host.sha256(inp.manifestBytes)),
                         RunnerRecord(m), ObjectSection(host, inp, objects.value), ResourceSection(resources.value)));
  }

  // ---------- building ----------

  ghost predicate Buildable(host: Host, inp: Inputs, junit: Bytes, name: string) {
    && host.isCommit(inp.commit) && host.isArtifactName(name) && Complete(host, inp)
    && ReportOk(host.parseXml, junit, AllSelectors(inp.manifest))
  }

  /** The check of the report against the manifest's selectors. */
  method CheckReport(host: Host, m: Manifest, junit: Bytes) returns (r: Option<Counts>)
    ensures r.Some? <==> ReportOk(host.parseXml, junit, AllSelectors(m))
    ensures r.Some? ==> r.value == AllPassed(Tests(m))
  {
    var selectors := Selectors(m);
    DedupSound(AllSelectors(m));
    DedupIdentity(selectors);
    r := JunitCounts(host.parseXml, junit, selectors);
  }

  /** `build_result`. The lookups of `_category_results` never miss. */
  method Build(host: Host, inp: Inputs, junit: Bytes, name: string) returns (r: Result)
    ensures r.Ok? <==> Buildable(host, inp, junit, name)
    ensures r.Ok? ==> r.value == ResultFor(host, inp, name, host.sha256(junit))
    ensures r != Err(MissingSource)
  {
    if !host.isCommit(inp.commit) {
      return Err(Commit);
    }
    if !host.isArtifactName(name) {
      return Err(Name);
    }
    var paths := SourcePaths(host, inp.manifest);
    if paths.None? {
      return Err(Selector);
    }
    if inp.sources.Keys != Elements(paths.value) {
      return Err(SourceSet);
    }
    var counts := CheckReport(host, inp.manifest, junit);
    if counts.None? {
      return Err(Junit);
    }
    var e := ExpectedSections(host, inp);
    if e.None? {
      return Err(MissingSource);
    }
    var pytest := PytestRecord(inp.manifest.junitFile, counts.value, name, host.sha256(junit));
    return Ok(Signed(host, Payload(e.value, pytest)));
  }

  // ---------- validating ----------

  /** The outcome and digest of a supplied report. */
  datatype Report = Report(ok: bool, digest: string)

  /** What the validator compares the `pytest` section with. */
  datatype Expect = Expect(tests: nat, junitFile: string, name: Option<string>, report: Option<Report>)

  ghost function ExpectOf(host: Host, m: Manifest, junit: Option<Bytes>, expected: Option<string>): Expect {
    Expect(Tests(m), m.junitFile, expected,
           if junit.None? then None
           else Some(Report(ReportOk(host.parseXml, junit.value, AllSelectors(m)), host.sha256(junit.value))))
  }

  /** The report identity that a validator holding these pieces of evidence lets through. */
  predicate IdentityOk(host: Host, x: Expect, name: string, digest: string) {
    && host.isArtifactName(name) && host.isDigest(digest)
    && (x.name.Some? ==> name == x.name.value)
    && (x.report.Some? ==> x.report.value.ok && digest == x.report.value.digest)
  }

  function ExpectedPytest(x: Expect, name: string, digest: string): Json {
    PytestRecord(x.junitFile, AllPassed(x.tests), name, digest)
  }

  ghost predicate PytestAdmits(host: Host, x: Expect, v: Json) {
    exists name, digest :: IdentityOk(host, x, name, digest) && v == ExpectedPytest(x, name, digest)
  }

  ghost predicate AdmitsGiven(host: Host, x: Expect, e: Sections, v: Json) {
    exists name, digest ::
      IdentityOk(host, x, name, digest) && v == Signed(host, Payload(e, ExpectedPytest(x, name, digest)))
  }

  /** The values the validator accepts. */
  ghost predicate Admits(host: Host, inp: Inputs, junit: Option<Bytes>, expected: Option<string>, v: Json) {
    Complete(host, inp) && AdmitsGiven(host, ExpectOf(host, inp.manifest, junit, expected), SectionsOf(host, inp), v)
  }

  /** The three fields of a report identity. */
  predicate JunitOk(host: Host, x: Expect, j: seq<Json>)
    requires |j| == |JUNIT_KEYS|
  {
    j[0].Str? && j[1] == Str(x.junitFile) && j[2].Str? && IdentityOk(host, x, j[0].s, j[2].s)
  }

  /** A `pytest` record and its fields determine each other. */
  lemma PytestExact(x: Expect, v: Json, name: string, digest: string)
    ensures v == ExpectedPytest(x, name, digest) <==>
              var f := Fields(v, PYTEST_KEYS);
              f.Some? && f.value[..7] == CountFields(AllPassed(x.tests))
                && f.value[7] == JunitRecord(x.junitFile, name, digest)
  {
    KeysDistinct();
    RecordExact(v, PYTEST_KEYS, CountFields(AllPassed(x.tests)), JunitRecord(x.junitFile, name, digest));
  }

  lemma JunitExact(file: string, v: Json, name: string, digest: string)
    ensures v == JunitRecord(file, name, digest) <==> Fields(v, JUNIT_KEYS) == Some([Str(name), Str(file), Str(digest)])
  {
    KeysDistinct();
    FieldsExact(v, JUNIT_KEYS, [Str(name), Str(file), Str(digest)]);
  }

  lemma AdmittedPytest(host: Host, x: Expect, v: Json)
    requires PytestAdmits(host, x, v)
    ensures var f := Fields(v, PYTEST_KEYS);
            && f.Some? && f.value[..7] == CountFields(AllPassed(x.tests))
            && Fields(f.value[7], JUNIT_KEYS).Some? && JunitOk(host, x, Fields(f.value[7], JUNIT_KEYS).value)
  {
    var name, digest :| IdentityOk(host, x, name, digest) && v == ExpectedPytest(x, name, digest);
    PytestExact(x, v, name, digest);
    JunitExact(x.junitFile, JunitRecord(x.junitFile, name, digest), name, digest);
  }

  lemma PytestAdmitted(host: Host, x: Expect, v: Json, f: seq<Json>, j: seq<Json>)
    requires Fields(v, PYTEST_KEYS) == Some(f) && f[..7] == CountFields(AllPassed(x.tests))
    requires Fields(f[7], JUNIT_KEYS) == Some(j) && JunitOk(host, x, j)
    ensures PytestAdmits(host, x, v)
  {
    assert j == [Str(j[0].s), Str(x.junitFile), Str(j[2].s)];
    JunitExact(x.junitFile, f[7], j[0].s, j[2].s);
    PytestExact(x, v, j[0].s, j[2].s);
  }

  /** The `pytest` section: exact all-pass counts, and an identified report. */
  method CheckPytest(host: Host, x: Expect, v: Json) returns (ok: bool)
    ensures ok <==> PytestAdmits(host, x, v)
  {
    if PytestAdmits(host, x, v) {
      AdmittedPytest(host, x, v);
    }
    var fields := Fields(v, PYTEST_KEYS);
    if fields.None? || fields.value[..7] != CountFields(AllPassed(x.tests)) {
      return false;
    }
    var record := Fields(fields.value[7], JUNIT_KEYS);
    if record.None? {
      return false;
    }
    var j := record.value;
    if !j[0].Str? || !host.isArtifactName(j[0].s) || (x.name.Some? && j[0].s != x.name.value)
      || !PyEq(j[1], Str(x.junitFile)) || !j[2].Str? || !host.isDigest(j[2].s) {
      return false;
    }
    if x.report.Some? && (!x.report.value.ok || j[2].s != x.report.value.digest) {
      return false;
    }
    PytestAdmitted(host, x, v, fields.value, j);
    return true;
  }

  /** The eight fields of an admitted result. */
  ghost predicate FieldsOk(host: Host, x: Expect, e: Sections, f: seq<Json>)
    requires |f| == |RESULT_KEYS|
  {
    && PytestAdmits(host, x, f[4]) && f[..7] == Payload(e, f[4])
    && f[7] == Str(host.canonicalHash(Record(PAYLOAD_KEYS, f[..7])))
  }

  /** A signed result and its eight fields determine each other. */
  lemma SignedFields(host: Host, payload: seq<Json>, v: Json)
    requires |payload| == |PAYLOAD_KEYS|
    ensures v == Signed(host, payload) <==>
              var f := Fields(v, RESULT_KEYS);
              f.Some? && f.value[..7] == payload && f.value[7] == Str(host.canonicalHash(Record(PAYLOAD_KEYS, payload)))
  {
    KeysDistinct();
    RecordExact(v, RESULT_KEYS, payload, Str(host.canonicalHash(Record(PAYLOAD_KEYS, payload))));
  }

  lemma AdmittedFields(host: Host, x: Expect, e: Sections, v: Json)
    requires AdmitsGiven(host, x, e, v)
    ensures Fields(v, RESULT_KEYS).Some? && FieldsOk(host, x, e, Fields(v, RESULT_KEYS).value)
  {
    var name, digest :| IdentityOk(host, x, name, digest)
      && v == Signed(host, Payload(e, ExpectedPytest(x, name, digest)));
    var payload := Payload(e, ExpectedPytest(x, name, digest));
    SignedFields(host, payload, v);
    assert Fields(v, RESULT_KEYS).value[4] == payload[4];
  }

  lemma FieldsAdmitted(host: Host, x: Expect, e: Sections, v: Json)
    requires Fields(v, RESULT_KEYS).Some? && FieldsOk(host, x, e, Fields(v, RESULT_KEYS).value)
    ensures AdmitsGiven(host, x, e, v)
    ensures v == Signed(host, Fields(v, RESULT_KEYS).value[..7])
  {
    var f := Fields(v, RESULT_KEYS).value;
    var name, digest :| IdentityOk(host, x, name, digest) && f[4] == ExpectedPytest(x, name, digest);
    SignedFields(host, f[..7], v);
  }

  ghost predicate PlainSections(e: Sections) {
    Plain(e.manifest) && Plain(e.runner) && Plain(e.objects) && Plain(e.resources)
  }

  lemma SectionsArePlain(host: Host, inp: Inputs)
    ensures PlainSections(SectionsOf(host, inp))
  {
    PlainEvidence(host, inp);
    PlainRecord(RUNNER_KEYS, [Str(inp.manifest.os), Str(inp.manifest.python)]);
    PlainFile(MANIFEST_PATH, host.sha256(inp.manifestBytes));
  }

  /** Python's comparisons accept exactly the expected sections. */
  lemma ComparisonsExact(e: Sections, f: seq<Json>)
    requires |f| == 8 && PlainSections(e)
    ensures f[..7] == Payload(e, f[4]) <==>
            && f[0] == Int(e.version) && PyEq(f[1], Str(e.commit)) && PyEq(f[2], e.manifest) && PyEq(f[3], e.runner)
            && PyEq(f[5], e.objects) && PyEq(f[6], e.resources)
  {
    PlainEq(f[2], e.manifest);
    PlainEq(f[3], e.runner);
    PlainEq(f[5], e.objects);
    PlainEq(f[6], e.resources);
    assert f[..7] == [f[0], f[1], f[2], f[3], f[4], f[5], f[6]];
  }

  /** The comparisons of `validate_result`, section by section. The exact shapes it demands of the
      manifest and runner records follow from their equality with the expected records. */
  method CheckSections(host: Host, x: Expect, e: Sections, f: seq<Json>) returns (r: Result)
    requires |f| == |RESULT_KEYS| && PlainSections(e)
    ensures r.Ok? <==> FieldsOk(host, x, e, f)
    ensures r.Ok? ==> r.value == Signed(host, f[..7])
    ensures r != Err(MissingSource)
  {
    ComparisonsExact(e, f);
    if f[0] != Int(e.version) || !PyEq(f[1], Str(e.commit)) {
      return Err(Commit);
    }
    if !PyEq(f[2], e.manifest) {
      return Err(ManifestBinding);
    }
    if !PyEq(f[3], e.runner) {
      return Err(Runner);
    }
    var pytest := CheckPytest(host, x, f[4]);
    if !pytest {
      return Err(Pytest);
    }
    if !PyEq(f[5], e.objects) || !PyEq(f[6], e.resources) {
      return Err(Evidence);
    }
    var payload := Payload(e, f[4]);
    if !PyEq(f[7], Str(host.canonicalHash(Record(PAYLOAD_KEYS, payload)))) {
      return Err(Digest);
    }
    return Ok(Signed(host, payload));
  }

  /** What is expected of the `pytest` section. */
  method Expectation(host: Host, m: Manifest, junit: Option<Bytes>, expected: Option<string>) returns (x: Expect)
    ensures x == ExpectOf(host, m, junit, expected)
  {
    var selectors := Selectors(m);
    var report := None;
    if junit.Some? {
      var counts := CheckReport(host, m, junit.value);
      report := Some(Report(counts.Some?, host.sha256(junit.value)));
    }
    return Expect(|selectors|, m.junitFile, expected, report);
  }

  /** `validate_result`. */
  method Validate(host: Host, inp: Inputs, junit: Option<Bytes>, expected: Option<string>, value: Json)
    returns (r: Result)
    ensures r.Ok? <==> Admits(host, inp, junit, expected, value)
    ensures r.Ok? ==> r.value == value
    ensures r != Err(MissingSource)
  {
    var x := Expectation(host, inp.manifest, junit, expected);
    var fields := Fields(value, RESULT_KEYS);
    if AdmitsGiven(host, x, SectionsOf(host, inp), value) {
      AdmittedFields(host, x, SectionsOf(host, inp), value);
    }
    if fields.None? {
      return Err(Shape);
    }
    var paths := SourcePaths(host, inp.manifest);
    if paths.None? {
      return Err(Selector);
    }
    if inp.sources.Keys != Elements(paths.value) {
      return Err(SourceSet);
    }
    var e := ExpectedSections(host, inp);
    if e.None? {
      return Err(MissingSource);
    }
    SectionsArePlain(host, inp);
    r := CheckSections(host, x, e.value, fields.value);
    if r.Ok? {
      FieldsAdmitted(host, x, e.value, value);
    }
  }

  /** `validate_result_bytes`: only the canonical encoding of an admitted value is accepted. */
  method ValidateBytes(host: Host, inp: Inputs, junit: Option<Bytes>, expected: Option<string>, data: Bytes)
    returns (r: Result)
    ensures r.Ok? <==>
            |data| <= 4194304 && host.decode(data).Some?
            && Admits(host, inp, junit, expected, host.decode(data).value)
               && data == host.encode(host.decode(data).value)
    ensures r.Ok? ==> Some(r.value) == host.decode(data)
  {
    if |data| > RESULT_MAX_BYTES {
      return Err(Oversized);
    }
    if host.decode(data).None? {
      return Err(NotJson);
    }
    r := Validate(host, inp, junit, expected, host.decode(data).value);
    if r.Ok? && data != host.encode(r.value) {
      return Err(NotCanonical);
    }
  }

  // ---------- one value ----------

  /** With the report bytes and the artifact name at hand, the validator accepts the builder's
      value and no other. */
  lemma BuilderAndValidatorAgree(host: Host, inp: Inputs, junit: Bytes, name: string, v: Json)
    requires Buildable(host, inp, junit, name) && host.isDigest(host.sha256(junit))
    ensures Admits(host, inp, Some(junit), Some(name), v) <==> v == ResultFor(host, inp, name, host.sha256(junit))
  {
    var x := ExpectOf(host, inp.manifest, Some(junit), Some(name));
    assert IdentityOk(host, x, name, host.sha256(junit));
  }

  /** What the bytes of an accepted result must be. */
  ghost predicate AcceptsBytes(host: Host, inp: Inputs, junit: Bytes, name: string, data: Bytes) {
    && |data| <= RESULT_MAX_BYTES && host.decode(data).Some?
    && Admits(host, inp, Some(junit), Some(name), host.decode(data).value)
       && data == host.encode(host.decode(data).value)
  }

  /** Whatever the codec: at most one byte string is accepted, the canonical encoding of the built
      result, and that exactly when it fits and decodes to the built result. */
  lemma OneByteString(host: Host, inp: Inputs, junit: Bytes, name: string, data: Bytes)
    requires Buildable(host, inp, junit, name) && host.isDigest(host.sha256(junit))
    ensures var built := ResultFor(host, inp, name, host.sha256(junit));
            AcceptsBytes(host, inp, junit, name, data) <==>
              && data == host.encode(built)
              && |host.encode(built)| <= RESULT_MAX_BYTES
              && host.decode(host.encode(built)) == Some(built)
  {
    var built := ResultFor(host, inp, name, host.sha256(junit));
    BuilderAndValidatorAgree(host, inp, junit, name, built);
    if host.decode(data).Some? {
      BuilderAndValidatorAgree(host, inp, junit, name, host.decode(data).value);
    }
  }

  /** When some value is accepted, whichever of report bytes and artifact name are supplied: the
      sources are complete, and each piece that is supplied passes its own checks. */
  lemma AcceptsSomethingIff(host: Host, inp: Inputs, junit: Option<Bytes>, expected: Option<string>)
    ensures (exists v :: Admits(host, inp, junit, expected, v)) <==>
            && Complete(host, inp)
            && (match expected case Some(name) => host.isArtifactName(name) case None => exists name ::
                 host.isArtifactName(name))
            && (match junit
                case Some(data) => ReportOk(host.parseXml, data, AllSelectors(inp.manifest))
                  && host.isDigest(host.sha256(data))
                case None => exists digest :: host.isDigest(digest))
  {
    var x := ExpectOf(host, inp.manifest, junit, expected);
    if Complete(host, inp) && exists name, digest :: IdentityOk(host, x, name, digest) {
      var name, digest :| IdentityOk(host, x, name, digest);
      assert Admits(host, inp, junit, expected, ResultFor(host, inp, name, digest));
    }
    if name, digest :|
      && host.isArtifactName(name) && host.isDigest(digest) && (expected.Some? ==> name == expected.value)
      && (junit.Some? ==>
           ReportOk(host.parseXml, junit.value, AllSelectors(inp.manifest)) && digest == host.sha256(junit.value)) {
      assert IdentityOk(host, x, name, digest);
    }
  }

  /** With report bytes and artifact name supplied, the commit pattern is the only demand of the
      builder that the validator does not repeat. */
  lemma ValidatorOmitsCommitPattern(host: Host, inp: Inputs, junit: Bytes, name: string)
    requires host.isDigest(host.sha256(junit))
    ensures Buildable(host, inp, junit, name) <==>
            host.isCommit(inp.commit) && exists v :: Admits(host, inp, Some(junit), Some(name), v)
  {
    if Buildable(host, inp, junit, name) {
      var v := ResultFor(host, inp, name, host.sha256(junit));
      BuilderAndValidatorAgree(host, inp, junit, name, v);
      assert Admits(host, inp, Some(junit), Some(name), v);
    }
  }

  /** Results for different names or report digests differ, so that an accepted value names its report. */
  lemma ResultBindsReport(host: Host, inp: Inputs, name: string, digest: string, name': string, digest': string)
    requires ResultFor(host, inp, name, digest) == ResultFor(host, inp, name', digest')
    ensures name == name' && digest == digest'
  {
    var x := Expect(Tests(inp.manifest), inp.manifest.junitFile, None, None);
    var e := SectionsOf(host, inp);
    SignedBindsReport(host, e, x, name, digest, name', digest');
  }

  lemma SignedBindsReport(host: Host, e: Sections, x: Expect, name: string, digest: string, name': string,
                          digest': string)
    requires Signed(host, Payload(e, ExpectedPytest(x, name, digest))) ==
      Signed(host, Payload(e, ExpectedPytest(x, name', digest')))
    ensures name == name' && digest == digest'
  {
    var p, p' := ExpectedPytest(x, name, digest), ExpectedPytest(x, name', digest');
    var v := Signed(host, Payload(e, p));
    SignedFields(host, Payload(e, p), v);
    SignedFields(host, Payload(e, p'), v);
    assert p == Payload(e, p)[4] == p';
    PytestExact(x, p, name, digest);
    PytestExact(x, p, name', digest');
    JunitExact(x.junitFile, JunitRecord(x.junitFile, name, digest), name, digest);
    JunitExact(x.junitFile, JunitRecord(x.junitFile, name, digest), name', digest');
    assert [Str(name), Str(x.junitFile), Str(digest)] == [Str(name'), Str(x.junitFile), Str(digest')];
  }
}
