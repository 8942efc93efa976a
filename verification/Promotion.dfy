/** Promotion evidence: signed reports, integration recipes and their accounting. */
module Promotion {
  import opened Common
  import opened PythonJson
  import PosixPath

  /** The fields of a decoded JSON object. */
  type Payload = map<string, Json>

  /** Python's `==` on objects. */
  predicate SamePayload(p: Payload, q: Payload) {
    p.Keys == q.Keys && forall k :: k in p ==> PyEq(p[k], q[k])
  }

  lemma SamePayloadSelf(p: Payload)
    ensures SamePayload(p, p)
  {
    forall k | k in p ensures PyEq(p[k], p[k]) {
      PyEqSelf(p[k]);
    }
  }

  /** Equal objects hold the same strings. */
  lemma SameTexts(p: Payload, q: Payload, key: string)
    requires SamePayload(p, q)
    ensures TextAt(p, key) == TextAt(q, key)
  {
    if key in p {
      assert PyEq(p[key], q[key]);
    }
  }

  const INTEGRATION_RESULT_KEYS := {
    "formatVersion", "integrationId", "ok", "authentication", "serviceOrSdkVersion", "retryAndFailureModel", "checks"}

  const REQUIRED_CHECKS := {"connectivity", "authentication", "version", "retry", "failure"}

  const INTEGRATION_REPORT_KEYS := {
    "integrationId", "status", "complete", "candidateRef", "candidateCommit", "test", "workflow",
    "workflowJob", "testStep", "runId", "artifactName", "result", "resultDigest"}

  const MATRIX_REPORT_KEYS := {
    "runId", "status", "complete", "candidateRef", "candidateCommit", "candidateManifestDigest",
    "supportedMatrix", "securityGates"}

  const SCOPE_REPORT_KEYS := {"unresolvedCritical", "unresolvedHigh", "unexplainedFlakes"}

  function TextAt(p: Payload, key: string): Option<string> {
    if key in p && p[key].Str? then Some(p[key].s) else None
  }

  /** What `str.strip` removes. */
  predicate IsSpace(c: char) {
    var n := c as int;
    || 9 <= n <= 13 || 28 <= n <= 32 || 0x2000 <= n <= 0x200A
    || n in {0x85, 0xA0, 0x1680, 0x2028, 0x2029, 0x202F, 0x205F, 0x3000}
  }

  /** The white space of Unicode, one by one. */
  lemma SpacesAre(c: char)
    ensures IsSpace(c) <==> c as int in {
      0x09, 0x0A, 0x0B, 0x0C, 0x0D, 0x1C, 0x1D, 0x1E, 0x1F, 0x20, 0x85, 0xA0, 0x1680, 0x2000, 0x2001, 0x2002, 0x2003,
      0x2004, 0x2005, 0x2006, 0x2007, 0x2008, 0x2009, 0x200A, 0x2028, 0x2029, 0x202F, 0x205F, 0x3000}
  {
  }

  predicate Blank(s: string) { forall i :: 0 <= i < |s| ==> IsSpace(s[i]) }

  /** `_require_nonempty_string`. */
  predicate Named(o: Option<string>) { o.Some? && !Blank(o.value) }

  /** `_require_prefixed_repository_path`. */
  predicate RepositoryPath(path: string, prefix: string) {
    path != "" && '\\' !in path && PosixPath.PassesChecks(path) && prefix <= path
  }

  // ---------- signed report artifacts ----------

  /** One entry of `reportArtifacts` with its decoded payload. `verified` stands for the file
      digests, the canonical encoding and the signature, which foreign tools establish. */
  datatype Artifact = Artifact(digest: string, path: string, signaturePath: string, payload: Payload, verified: bool)

  ghost predicate DistinctDigests(xs: seq<Artifact>) {
    forall i, j :: 0 <= i < j < |xs| ==> xs[i].digest != xs[j].digest
  }

  predicate PathsApart(a: Artifact, b: Artifact) {
    {a.path, a.signaturePath} !! {b.path, b.signaturePath}
  }

  /** Artifacts are verified, distinct by digest, and share no file. */
  ghost predicate ArtifactsApart(xs: seq<Artifact>) {
    && (forall x :: x in xs ==> x.verified && x.path != x.signaturePath)
    && DistinctDigests(xs)
    && (forall i, j :: 0 <= i < j < |xs| ==> PathsApart(xs[i], xs[j]))
  }

  ghost predicate ArtifactsOk(xs: seq<Artifact>) {
    xs != [] && ArtifactsApart(xs)
  }

  function Files(x: Artifact): set<string> { {x.path, x.signaturePath} }

  function AllFiles(xs: seq<Artifact>): set<string> {
    set x, p | x in xs && p in Files(x) :: p
  }

  /** The dictionary of reports has one entry for each artifact. */
  ghost predicate Indexes(xs: seq<Artifact>, reports: map<string, Payload>) {
    && (forall x :: x in xs ==> x.digest in reports && reports[x.digest] == x.payload)
    && (forall d :: d in reports ==> exists x :: x in xs && x.digest == d)
    && |reports| == |xs|
  }

  lemma ArtifactAdmitted(xs: seq<Artifact>, x: Artifact, reports: map<string, Payload>)
    requires ArtifactsApart(xs) && Indexes(xs, reports)
    requires x.verified && x.path != x.signaturePath && x.digest !in reports && AllFiles(xs) !! Files(x)
    ensures ArtifactsApart(xs + [x]) && Indexes(xs + [x], reports[x.digest := x.payload])
    ensures AllFiles(xs + [x]) == AllFiles(xs) + Files(x)
  {
    IndexesStep(xs, x, reports);
    FilesStep(xs, x);
    ApartStep(xs, x, reports.Keys);
  }

  lemma ApartStep(xs: seq<Artifact>, x: Artifact, digests: set<string>)
    requires ArtifactsApart(xs) && x.verified && x.path != x.signaturePath
    requires x.digest !in digests && (forall y :: y in xs ==> y.digest in digests) && AllFiles(xs) !! Files(x)
    ensures ArtifactsApart(xs + [x])
  {
    var next := xs + [x];
    assert forall y :: y in next <==> y in xs || y == x;
    forall i, j | 0 <= i < j < |next|
      ensures next[i].digest != next[j].digest && PathsApart(next[i], next[j])
    {
      if j == |xs| {
        assert next[i] in xs;
        assert Files(next[i]) <= AllFiles(xs);
      }
    }
  }

  lemma IndexesStep(xs: seq<Artifact>, x: Artifact, reports: map<string, Payload>)
    requires Indexes(xs, reports) && x.digest !in reports
    ensures Indexes(xs + [x], reports[x.digest := x.payload])
  {
    var next := xs + [x];
    assert forall y :: y in next <==> y in xs || y == x;
    assert x in next;
  }

  lemma FilesStep(xs: seq<Artifact>, x: Artifact)
    ensures AllFiles(xs + [x]) == AllFiles(xs) + Files(x)
  {
    assert x in xs + [x] && forall y :: y in xs + [x] <==> y in xs || y == x;
  }

  lemma DigestRepeated(xs: seq<Artifact>, i: nat, reports: map<string, Payload>)
    requires i < |xs| && Indexes(xs[..i], reports) && xs[i].digest in reports
    ensures !DistinctDigests(xs)
  {
    var y :| y in xs[..i] && y.digest == xs[i].digest;
    var j :| 0 <= j < i && xs[..i][j] == y;
    assert xs[j].digest == xs[i].digest;
  }

  lemma FileShared(xs: seq<Artifact>, i: nat)
    requires i < |xs| && AllFiles(xs[..i]) * Files(xs[i]) != {}
    ensures exists j :: 0 <= j < i && !PathsApart(xs[j], xs[i])
  {
    var p :| p in AllFiles(xs[..i]) * Files(xs[i]);
    var y :| y in xs[..i] && p in Files(y);
    var j :| 0 <= j < i && xs[..i][j] == y;
    assert p in Files(xs[j]) * Files(xs[i]);
    assert !PathsApart(xs[j], xs[i]);
  }

  ghost predicate Collected(xs: seq<Artifact>, i: nat, reports: map<string, Payload>, paths: set<string>)
    requires i <= |xs|
  {
    ArtifactsApart(xs[..i]) && Indexes(xs[..i], reports) && paths == AllFiles(xs[..i])
  }

  lemma NothingCollected(xs: seq<Artifact>)
    ensures Collected(xs, 0, map[], {})
  {
  }

  lemma CollectedStep(xs: seq<Artifact>, i: nat, reports: map<string, Payload>, paths: set<string>)
    requires i < |xs| && Collected(xs, i, reports, paths)
    requires xs[i].verified && xs[i].path != xs[i].signaturePath && xs[i].digest !in reports
    requires paths * Files(xs[i]) == {}
    ensures Collected(xs, i + 1, reports[xs[i].digest := xs[i].payload], paths + Files(xs[i]))
  {
    PrefixGrows(xs, i);
    CollectedOne(xs[..i], xs[i], reports, paths);
  }

  lemma CollectedOne(before: seq<Artifact>, x: Artifact, reports: map<string, Payload>, paths: set<string>)
    requires ArtifactsApart(before) && Indexes(before, reports) && paths == AllFiles(before)
    requires x.verified && x.path != x.signaturePath && x.digest !in reports && paths * Files(x) == {}
    ensures ArtifactsApart(before + [x]) && Indexes(before + [x], reports[x.digest := x.payload])
    ensures paths + Files(x) == AllFiles(before + [x])
  {
    forall p | p in paths ensures p !in Files(x) {
      assert p in Files(x) <==> p in paths * Files(x);
    }
    ArtifactAdmitted(before, x, reports);
  }

  lemma CollectedAll(xs: seq<Artifact>, reports: map<string, Payload>, paths: set<string>)
    requires Collected(xs, |xs|, reports, paths)
    ensures ArtifactsApart(xs) && Indexes(xs, reports)
  {
    assert xs[..|xs|] == xs;
  }

  /** The artifact at `i` cannot stand beside the ones before it. */
  lemma Refused(xs: seq<Artifact>, i: nat, reports: map<string, Payload>, paths: set<string>)
    requires i < |xs| && Collected(xs, i, reports, paths)
    requires !xs[i].verified || xs[i].path == xs[i].signaturePath || xs[i].digest in reports
             || paths * Files(xs[i]) != {}
    ensures !ArtifactsApart(xs)
  {
    assert xs[i] in xs;
    if xs[i].digest in reports {
      DigestRepeated(xs, i, reports);
    } else if paths * Files(xs[i]) != {} {
      FileShared(xs, i);
    }
  }

  /** `_promotion_report_artifacts`. */
  method CollectReports(xs: seq<Artifact>) returns (o: Option<map<string, Payload>>)
    ensures o.Some? <==> ArtifactsOk(xs)
    ensures o.Some? ==> Indexes(xs, o.value)
  {
    if xs == [] {
      return None;
    }
    var reports: map<string, Payload> := map[];
    var paths: set<string> := {};
    NothingCollected(xs);
    for i := 0 to |xs|
      invariant Collected(xs, i, reports, paths)
    {
      var x := xs[i];
      if x.digest in reports || x.path == x.signaturePath || paths * Files(x) != {} || !x.verified {
        Refused(xs, i, reports, paths);
        return None;
      }
      CollectedStep(xs, i, reports, paths);
      paths := paths + Files(x);
      reports := reports[x.digest := x.payload];
    }
    CollectedAll(xs, reports, paths);
    return Some(reports);
  }

  // ---------- recipes ----------

  datatype Recipe = Recipe(test: string, workflow: string, job: string, step: string)

  datatype Entry = Entry(
    id: string, isReal: bool, authentication: seq<string>, versions: seq<string>, retryModel: string,
    recipes: seq<Recipe>)

  datatype RecipeKey = RecipeKey(id: string, recipe: Recipe)

  type Pair = (string, string)

  function Pairs(e: Entry): set<Pair> {
    set a, v | a in e.authentication && v in e.versions :: (a, v)
  }

  predicate RecipeOk(r: Recipe) {
    && RepositoryPath(r.test, "tests/") && RepositoryPath(r.workflow, ".github/workflows/")
    && !Blank(r.job) && !Blank(r.step)
  }

  predicate AllNamed(xs: seq<string>) { forall x :: x in xs ==> !Blank(x) }

  predicate RecipesOk(rs: seq<Recipe>) { forall r :: r in rs ==> RecipeOk(r) }

  ghost predicate EntryOk(e: Entry) {
    e.isReal ==>
      && !Blank(e.id) && e.authentication != [] && e.versions != [] && e.recipes != []
      && AllNamed(e.authentication) && AllNamed(e.versions) && RecipesOk(e.recipes)
      && NoRepeats(e.authentication) && NoRepeats(e.versions) && NoRepeats(e.recipes)
  }

  /** A well-formed integration matrix: real adapters have distinct ids, non-empty support
      without blanks or repeats, and distinct recipes in the repository. */
  ghost predicate MatrixOk(entries: seq<Entry>) {
    && (forall e :: e in entries ==> EntryOk(e))
    && (forall i, j ::
         0 <= i < j < |entries| && entries[i].isReal && entries[j].isReal ==> entries[i].id != entries[j].id)
  }

  /** `expected` has one key for each recipe of each real adapter, and leads back to it. */
  ghost predicate ExpectsKeys(entries: seq<Entry>, expected: map<RecipeKey, Entry>) {
    && (forall k :: k in expected ==>
         expected[k] in entries && expected[k].isReal && expected[k].id == k.id && k.recipe in expected[k].recipes)
    && (forall e, x :: e in entries && e.isReal && x in e.recipes ==> RecipeKey(e.id, x) in expected)
  }

  /** `support` has the claims of each real adapter. */
  ghost predicate ExpectsSupport(entries: seq<Entry>, support: map<string, set<Pair>>) {
    && (forall e :: e in entries && e.isReal ==> e.id in support && support[e.id] == Pairs(e))
    && (forall id :: id in support ==> exists e :: e in entries && e.isReal && e.id == id)
  }

  ghost predicate Expects(entries: seq<Entry>, expected: map<RecipeKey, Entry>, support: map<string, set<Pair>>) {
    ExpectsKeys(entries, expected) && ExpectsSupport(entries, support)
  }

  /** Which recipes pass the checks of their fields. */
  function RecipeFlags(rs: seq<Recipe>): (flags: seq<bool>)
    ensures |flags| == |rs|
    ensures forall i :: 0 <= i < |rs| ==> flags[i] == RecipeOk(rs[i])
  {
    seq(|rs|, i requires 0 <= i < |rs| => RecipeOk(rs[i]))
  }

  predicate AllSet(flags: seq<bool>) { forall i :: 0 <= i < |flags| ==> flags[i] }

  lemma FlagsDecide(rs: seq<Recipe>)
    ensures AllSet(RecipeFlags(rs)) <==> RecipesOk(rs)
  {
    if RecipesOk(rs) {
      forall i | 0 <= i < |rs| ensures RecipeFlags(rs)[i] {
        assert rs[i] in rs;
      }
    }
  }

  /** The recipes of one real adapter; `flags` says which of them are well formed. */
  method AddRecipes(e: Entry, flags: seq<bool>, expected: map<RecipeKey, Entry>)
    returns (ok: bool, next: map<RecipeKey, Entry>)
    requires |flags| == |e.recipes| && forall k :: k in expected ==> k.id != e.id
    ensures ok <==> AllSet(flags) && NoRepeats(e.recipes)
    ensures ok ==> forall k :: k in next <==> k in expected || (k.id == e.id && k.recipe in e.recipes)
    ensures ok ==> forall k :: k in next ==> next[k] == if k in expected then expected[k] else e
  {
    next := expected;
    for i := 0 to |e.recipes|
      invariant forall j :: 0 <= j < i ==> flags[j]
      invariant NoRepeats(e.recipes[..i])
      invariant forall k :: k in next <==> k in expected || (k.id == e.id && k.recipe in e.recipes[..i])
      invariant forall k :: k in next ==> next[k] == if k in expected then expected[k] else e
    {
      var key := RecipeKey(e.id, e.recipes[i]);
      if !flags[i] {
        return false, next;
      }
      if key in next {
        ghost var j :| 0 <= j < i && e.recipes[..i][j] == e.recipes[i];
        assert e.recipes[j] == e.recipes[i];
        return false, next;
      }
      assert e.recipes[..i + 1] == e.recipes[..i] + [e.recipes[i]];
      next := next[key := e];
    }
    assert e.recipes[..|e.recipes|] == e.recipes;
    return true, next;
  }

  /** The recipes and support pairs a candidate has to prove. */
  method CollectRecipes(entries: seq<Entry>)
    returns (ok: bool, expected: map<RecipeKey, Entry>, support: map<string, set<Pair>>)
    ensures ok <==> MatrixOk(entries)
    ensures ok ==> Expects(entries, expected, support)
  {
    expected, support := map[], map[];
    for i := 0 to |entries|
      invariant MatrixOk(entries[..i])
      invariant Expects(entries[..i], expected, support)
    {
      var e := entries[i];
      assert e in entries;
      assert entries[..i + 1] == entries[..i] + [e];
      if !e.isReal {
        SkipEntry(entries[..i], e, expected, support);
        continue;
      }
      if e.id in support {
        DuplicateAdapter(entries, i, support);
        return false, expected, support;
      }
      CountsDistinct(e.authentication);
      CountsDistinct(e.versions);
      if Blank(e.id) || e.authentication == [] || e.versions == [] || e.recipes == []
         || !AllNamed(e.authentication) || !AllNamed(e.versions)
         || |Elements(e.authentication)| != |e.authentication| || |Elements(e.versions)| != |e.versions| {
        return false, expected, support;
      }
      FreshAdapter(entries[..i], e, expected, support);
      ghost var before := expected;
      FlagsDecide(e.recipes);
      ok, expected := AddRecipes(e, RecipeFlags(e.recipes), expected);
      if !ok {
        return false, expected, support;
      }
      AddEntry(entries[..i], e, before, expected, support);
      support := support[e.id := Pairs(e)];
    }
    assert entries[..|entries|] == entries;
    return true, expected, support;
  }

  lemma SkipEntry(entries: seq<Entry>, e: Entry, expected: map<RecipeKey, Entry>, support: map<string, set<Pair>>)
    requires MatrixOk(entries) && Expects(entries, expected, support) && !e.isReal
    ensures MatrixOk(entries + [e]) && Expects(entries + [e], expected, support)
  {
    assert forall x :: x in entries + [e] <==> x in entries || x == e;
  }

  lemma DuplicateAdapter(entries: seq<Entry>, i: nat, support: map<string, set<Pair>>)
    requires i < |entries| && entries[i].isReal && entries[i].id in support
    requires forall id :: id in support ==> exists e :: e in entries[..i] && e.isReal && e.id == id
    ensures !MatrixOk(entries)
  {
    var e :| e in entries[..i] && e.isReal && e.id == entries[i].id;
    var j :| 0 <= j < i && entries[..i][j] == e;
    assert entries[j].id == entries[i].id;
  }

  lemma FreshAdapter(entries: seq<Entry>, e: Entry, expected: map<RecipeKey, Entry>, support: map<string, set<Pair>>)
    requires Expects(entries, expected, support) && e.id !in support
    ensures forall k :: k in expected ==> k.id != e.id
    ensures forall x :: x in entries && x.isReal ==> x.id != e.id
  {
  }

  lemma AddEntry(entries: seq<Entry>, e: Entry, before: map<RecipeKey, Entry>, expected: map<RecipeKey, Entry>,
                 support: map<string, set<Pair>>)
    requires MatrixOk(entries) && Expects(entries, before, support) && e.isReal && EntryOk(e) && e.id !in support
    requires forall k :: k in expected <==> k in before || (k.id == e.id && k.recipe in e.recipes)
    requires forall k :: k in expected ==> expected[k] == if k in before then before[k] else e
    ensures MatrixOk(entries + [e]) && Expects(entries + [e], expected, support[e.id := Pairs(e)])
  {
    FreshAdapter(entries, e, before, support);
    MatrixStep(entries, e);
    SupportStep(entries, e, support);
    KeysStep(entries, e, before, expected);
  }

  lemma KeysStep(entries: seq<Entry>, e: Entry, before: map<RecipeKey, Entry>, expected: map<RecipeKey, Entry>)
    requires ExpectsKeys(entries, before) && e.isReal && forall k :: k in before ==> k.id != e.id
    requires forall k :: k in expected <==> k in before || (k.id == e.id && k.recipe in e.recipes)
    requires forall k :: k in expected ==> expected[k] == if k in before then before[k] else e
    ensures ExpectsKeys(entries + [e], expected)
  {
    assert forall x :: x in entries + [e] <==> x in entries || x == e;
  }

  lemma SupportStep(entries: seq<Entry>, e: Entry, support: map<string, set<Pair>>)
    requires ExpectsSupport(entries, support) && e.isReal && e.id !in support
    ensures ExpectsSupport(entries + [e], support[e.id := Pairs(e)])
  {
    assert forall x :: x in entries + [e] <==> x in entries || x == e;
  }

  lemma MatrixStep(entries: seq<Entry>, e: Entry)
    requires MatrixOk(entries) && EntryOk(e) && forall x :: x in entries && x.isReal ==> x.id != e.id
    ensures MatrixOk(entries + [e])
  {
    var next := entries + [e];
    assert forall x :: x in next <==> x in entries || x == e;
    forall i, j | 0 <= i < j < |next| && next[i].isReal && next[j].isReal
      ensures next[i].id != next[j].id
    {
      if j == |entries| {
        assert next[i] in entries;
      }
    }
  }
}
