/** What accepted promotion evidence says, in the words of its records. */
module PromotionMeaning {
  import opened Common
  import opened PythonJson
  import opened Promotion
  import opened PromotionGates
  import opened PromotionEvidence
  import opened PromotionAccounting

  /** A signed report has exactly these fields, as Python compares them. */
  ghost predicate Attests(e: Evidence, digest: string, fields: Payload) {
    exists x :: x in e.artifacts && x.digest == digest && x.verified && x.path != x.signaturePath
      && x.payload.Keys == fields.Keys && forall k :: k in fields ==> PyEq(x.payload[k], fields[k])
  }

  /** The record names a signed report with the rest of it. */
  ghost predicate Attested(e: Evidence, record: Payload, field: string) {
    exists d :: field in record && record[field] == Str(d) && Attests(e, d, record - {field})
  }

  /** The field is this string. */
  predicate Says(p: Payload, key: string, s: string) { key in p && p[key] == Str(s) }

  // ---------- the records ----------

  ghost predicate ManifestSigned(ctx: Context, e: Evidence) {
    Attests(e, e.manifestDigest,
      map["formatVersion" := Int(1), "releaseRef" := Str(ctx.candidate.ref),
          "releaseVersion" := Str(ctx.candidate.version), "gitCommit" := Str(ctx.candidate.commit)])
  }

  /** What the audit claims of the candidate. */
  function AuditFields(ctx: Context): Payload {
    map["candidateRef" := Str(ctx.candidate.ref), "candidateCommit" := Str(ctx.candidate.commit)] + ctx.auditClaim
  }

  ghost predicate AuditSigned(ctx: Context, e: Evidence) {
    exists d :: Says(e.auditClosure, "reportDigest", d) && Attests(e, d, AuditFields(ctx))
      && (e.auditClosure - {"reportDigest"}).Keys == AuditFields(ctx).Keys
      && forall k :: k in AuditFields(ctx) && k != "reportDigest" ==> PyEq(e.auditClosure[k], AuditFields(ctx)[k])
  }

  ghost predicate ScopeClear(e: Evidence) {
    && e.stableScope.Keys == {"unresolvedCritical", "unresolvedHigh", "unexplainedFlakes", "reportDigest"}
    && e.stableScope["unresolvedCritical"] == Int(0) && e.stableScope["unresolvedHigh"] == Int(0)
    && e.stableScope["unexplainedFlakes"] == Int(0)
    && Attested(e, e.stableScope, "reportDigest")
  }

  /** The list holds these strings. */
  ghost predicate Lists(v: Json, xs: seq<string>) {
    v.List? && |v.items| == |xs| && forall i :: 0 <= i < |xs| ==> v.items[i] == Str(xs[i])
  }

  ghost predicate OwnerSigned(ctx: Context, e: Evidence) {
    && e.ownerSignoff.Keys == {"ownerIdentity", "approved", "reportDigest"}
    && e.ownerSignoff["ownerIdentity"] == Str(ctx.owner) && e.ownerSignoff["approved"] == Bool(true)
    && exists d, reviewed :: Says(e.ownerSignoff, "reportDigest", d)
         && Lists(reviewed, DigestsOf(e.matrixRuns, "attestationDigest"))
         && Attests(e, d,
              map["formatVersion" := Int(1), "policy" := Str("personal-project-owner-signoff-v1"),
                  "ownerIdentity" := Str(ctx.owner), "approved" := Bool(true),
                  "targetReleaseRef" := Str(ctx.targetRef), "candidateRef" := Str(ctx.candidate.ref),
                  "candidateCommit" := Str(ctx.candidate.commit), "reviewedMatrixRunDigests" := reviewed])
  }

  /** A complete, successful run on the candidate, with an id. */
  ghost predicate Succeeded(ctx: Context, run: Payload) {
    && Says(run, "status", "success") && "complete" in run && run["complete"] == Bool(true)
    && Says(run, "candidateRef", ctx.candidate.ref) && Says(run, "candidateCommit", ctx.candidate.commit)
    && exists id :: Says(run, "runId", id)
  }

  ghost predicate MatrixRunSigned(ctx: Context, e: Evidence, run: Payload) {
    && run.Keys == {"runId", "status", "complete", "candidateRef", "candidateCommit", "candidateManifestDigest",
                    "supportedMatrix", "securityGates", "attestationDigest"}
    && Succeeded(ctx, run) && ctx.matrixChecks(run) && Attested(e, run, "attestationDigest")
  }

  /** The five checks, each once, in any order. */
  ghost predicate ChecksDone(v: Json) {
    exists names: seq<string> :: Lists(v, names) && NoRepeats(names)
      && Elements(names) == {"connectivity", "authentication", "version", "retry", "failure"}
  }

  /** The result of a run of the adapter with this authentication and version. */
  ghost predicate ResultSays(v: Json, entry: Entry, a: string, version: string) {
    && v.Obj?
    && v.fields.Keys == {"formatVersion", "integrationId", "ok", "authentication", "serviceOrSdkVersion",
                         "retryAndFailureModel", "checks"}
    && PyEq(v.fields["formatVersion"], Int(1)) && v.fields["ok"] == Bool(true)
    && Says(v.fields, "integrationId", entry.id) && Says(v.fields, "authentication", a)
    && Says(v.fields, "serviceOrSdkVersion", version) && Says(v.fields, "retryAndFailureModel", entry.retryModel)
    && Visible(a) && Visible(version) && Visible(entry.retryModel)
    && ChecksDone(v.fields["checks"])
  }

  /** Some character is not white space. */
  ghost predicate Visible(s: string) { exists i :: 0 <= i < |s| && !IsSpace(s[i]) }

  /** The run is of this recipe of this adapter. */
  ghost predicate RunsRecipe(run: Payload, entry: Entry, recipe: Recipe) {
    && Says(run, "integrationId", entry.id) && Says(run, "test", recipe.test) && Says(run, "workflow", recipe.workflow)
    && Says(run, "workflowJob", recipe.job) && Says(run, "testStep", recipe.step)
  }

  /** A signed run of a recipe of a real adapter, within what the adapter claims to support. */
  ghost predicate RunSigned(ctx: Context, e: Evidence, run: Payload, entry: Entry, recipe: Recipe, a: string,
                            version: string) {
    && run.Keys == {"integrationId", "status", "complete", "candidateRef", "candidateCommit", "test", "workflow",
                    "workflowJob", "testStep", "runId", "artifactName", "result", "resultDigest", "reportDigest"}
    && Succeeded(ctx, run) && ctx.runChecks(run) && Attested(e, run, "reportDigest")
    && entry in ctx.entries && entry.isReal && recipe in entry.recipes && RunsRecipe(run, entry, recipe)
    && a in entry.authentication && version in entry.versions && ResultSays(run["result"], entry, a, version)
  }

  // ---------- from the predicates of the validator ----------

  lemma ReportedMeans(e: Evidence, reports: Reports, digest: string, fields: Payload)
    requires ArtifactsOk(e.artifacts) && Indexes(e.artifacts, reports) && Reported(reports, digest, fields)
    ensures Attests(e, digest, fields)
  {
    var x :| x in e.artifacts && x.digest == digest;
    assert reports[digest] == x.payload;
  }

  lemma BoundMeans(e: Evidence, reports: Reports, p: Payload, field: string)
    requires ArtifactsOk(e.artifacts) && Indexes(e.artifacts, reports) && Bound(reports, p, field)
    ensures Attested(e, p, field)
  {
    ReportedMeans(e, reports, TextAt(p, field).value, p - {field});
  }

  lemma ManifestMeans(ctx: Context, e: Evidence, reports: Reports)
    requires ArtifactsOk(e.artifacts) && Indexes(e.artifacts, reports) && ManifestOk(ctx, e, reports)
    ensures ManifestSigned(ctx, e)
  {
    ReportedMeans(e, reports, e.manifestDigest, ManifestReport(ctx.candidate));
  }

  lemma AuditMeans(ctx: Context, e: Evidence, reports: Reports)
    requires ArtifactsOk(e.artifacts) && Indexes(e.artifacts, reports) && AuditOk(ctx, e, reports)
    ensures AuditSigned(ctx, e)
  {
    var d := DigestAt(e.auditClosure, "reportDigest");
    ReportedMeans(e, reports, d, AuditReport(ctx));
    assert Says(e.auditClosure, "reportDigest", d) && AuditFields(ctx) == AuditReport(ctx);
  }

  lemma ScopeMeans(ctx: Context, e: Evidence, reports: Reports)
    requires ArtifactsOk(e.artifacts) && Indexes(e.artifacts, reports) && ScopeOk(e, reports)
    ensures ScopeClear(e)
  {
    BoundMeans(e, reports, e.stableScope, "reportDigest");
  }

  lemma OwnerMeans(ctx: Context, e: Evidence, reports: Reports, attestations: seq<string>)
    requires ArtifactsOk(e.artifacts) && Indexes(e.artifacts, reports) && OwnerOk(ctx, e, reports, attestations)
    requires attestations == DigestsOf(e.matrixRuns, "attestationDigest")
    ensures OwnerSigned(ctx, e)
  {
    var d := DigestAt(e.ownerSignoff, "reportDigest");
    ReportedMeans(e, reports, d, OwnerReport(ctx, attestations));
    var reviewed := List(StrsOf(attestations));
    assert Says(e.ownerSignoff, "reportDigest", d) && Lists(reviewed, attestations);
  }

  lemma SucceededMeans(ctx: Context, run: Payload)
    requires {"status", "complete", "candidateRef", "candidateCommit"} <= run.Keys
    requires OnCandidate(ctx, run) && TextAt(run, "runId").Some?
    ensures Succeeded(ctx, run)
  {
    assert Says(run, "runId", TextAt(run, "runId").value);
  }

  lemma MatrixRunMeans(ctx: Context, e: Evidence, reports: Reports, run: Payload)
    requires ArtifactsOk(e.artifacts) && Indexes(e.artifacts, reports) && MatrixRunOk(ctx, reports, run)
    ensures MatrixRunSigned(ctx, e, run)
  {
    BoundMeans(e, reports, run, "attestationDigest");
    SucceededMeans(ctx, run);
  }

  lemma ChecksMean(v: Json)
    requires ChecksOk(v)
    ensures ChecksDone(v)
  {
    var names: seq<string> := seq(|v.items|, i requires 0 <= i < |v.items| => v.items[i].s);
    forall x ensures x in names <==> x in Texts(v.items) {
      if x in names {
        var i :| 0 <= i < |names| && names[i] == x;
        assert v.items[i] in v.items && v.items[i].s == x;
      }
      if x in Texts(v.items) {
        var item :| item in v.items && item.Str? && item.s == x;
        var i :| 0 <= i < |v.items| && v.items[i] == item;
        assert names[i] == x;
      }
    }
    assert Elements(names) == Texts(v.items);
    CountsDistinct(names);
    assert Lists(v, names);
  }

  lemma RunMeans(ctx: Context, e: Evidence, reports: Reports, expected: map<RecipeKey, Entry>, run: Payload)
    requires ArtifactsOk(e.artifacts) && Indexes(e.artifacts, reports) && ExpectsKeys(ctx.entries, expected)
    requires RunOk(ctx, expected, reports, run)
    ensures var key, pair := KeyOf(run).value, ResultOf(run).value.0;
      RunSigned(ctx, e, run, expected[key], key.recipe, pair.0, pair.1)
  {
    BoundMeans(e, reports, run, "reportDigest");
    SucceededMeans(ctx, run);
    RecipeMeans(run);
    ResultMeans(run, expected[KeyOf(run).value]);
  }

  lemma RecipeMeans(run: Payload)
    requires KeyOf(run).Some?
    ensures forall entry: Entry :: entry.id == KeyOf(run).value.id ==> RunsRecipe(run, entry, KeyOf(run).value.recipe)
  {
  }

  lemma ResultMeans(run: Payload, entry: Entry)
    requires ResultSupported(run, entry) && KeyOf(run).Some? && entry.id == KeyOf(run).value.id
    ensures var pair := ResultOf(run).value.0;
      pair.0 in entry.authentication && pair.1 in entry.versions
      && "result" in run && ResultSays(run["result"], entry, pair.0, pair.1)
  {
    ChecksMean(run["result"].fields["checks"]);
  }

  // ---------- the whole ----------

  /** Run `i` is good, and its view says what the run says. */
  lemma ViewMeans(ctx: Context, e: Evidence, reports: Reports, expected: map<RecipeKey, Entry>,
                  support: map<string, set<Pair>>, i: nat)
    requires ArtifactsOk(e.artifacts) && Indexes(e.artifacts, reports) && ExpectsKeys(ctx.entries, expected)
    requires IntegrationOk(expected.Keys, support, Views(ctx, expected, reports, e.integrationRuns))
    requires i < |e.integrationRuns|
    ensures var v, run := Views(ctx, expected, reports, e.integrationRuns)[i], e.integrationRuns[i];
      && v.key in expected && KeyOf(run) == Some(v.key) && Says(run, "runId", v.runId)
      && RunSigned(ctx, e, run, expected[v.key], v.key.recipe, v.pair.0, v.pair.1)
  {
    var vs := Views(ctx, expected, reports, e.integrationRuns);
    assert vs[i] in vs;
    RunMeans(ctx, e, reports, expected, e.integrationRuns[i]);
  }

  function ViewKeys(vs: seq<View>): (ks: seq<RecipeKey>)
    ensures |ks| == |vs| && forall i :: 0 <= i < |vs| ==> ks[i] == vs[i].key
  {
    seq(|vs|, i requires 0 <= i < |vs| => vs[i].key)
  }

  /** Every recipe is the key of some view. */
  lemma EveryKeyRuns(expected: set<RecipeKey>, support: map<string, set<Pair>>, vs: seq<View>, k: RecipeKey)
    requires IntegrationOk(expected, support, vs) && k in expected
    ensures exists i :: 0 <= i < |vs| && vs[i].key == k
  {
    var ks := ViewKeys(vs);
    CountsDistinct(ks);
    forall x | x in ks ensures x in expected {
      var i :| 0 <= i < |ks| && ks[i] == x;
      assert vs[i] in vs;
    }
    CountingCovers(Elements(ks), expected);
    assert k in Elements(ks);
    var i :| 0 <= i < |ks| && ks[i] == k;
    assert vs[i].key == k;
  }

  /** One run of the recipe, and no other. */
  ghost predicate RunOnce(e: Evidence, entry: Entry, recipe: Recipe) {
    exists i :: 0 <= i < |e.integrationRuns| && RunsRecipe(e.integrationRuns[i], entry, recipe)
      && forall j :: 0 <= j < |e.integrationRuns| && RunsRecipe(e.integrationRuns[j], entry, recipe) ==> j == i
  }

  /** Some run shows the adapter with this authentication and version. */
  ghost predicate Shown(e: Evidence, entry: Entry, a: string, version: string) {
    exists i :: 0 <= i < |e.integrationRuns| && "result" in e.integrationRuns[i]
      && ResultSays(e.integrationRuns[i]["result"], entry, a, version)
  }

  lemma RecipeKeyMeans(run: Payload, entry: Entry, recipe: Recipe)
    requires KeyOf(run).Some? && RunsRecipe(run, entry, recipe)
    ensures KeyOf(run).value == RecipeKey(entry.id, recipe)
  {
  }

  /** The keys of the runs, one for each. */
  ghost predicate KeysAre(runs: seq<Payload>, ks: seq<RecipeKey>) {
    |ks| == |runs| && NoRepeats(ks) && forall i :: 0 <= i < |runs| ==> KeyOf(runs[i]) == Some(ks[i])
  }

  lemma RunKeys(ctx: Context, e: Evidence, reports: Reports, expected: map<RecipeKey, Entry>,
                support: map<string, set<Pair>>)
    requires IntegrationOk(expected.Keys, support, Views(ctx, expected, reports, e.integrationRuns))
    ensures KeysAre(e.integrationRuns, ViewKeys(Views(ctx, expected, reports, e.integrationRuns)))
  {
    var vs := Views(ctx, expected, reports, e.integrationRuns);
    forall i | 0 <= i < |vs| ensures KeyOf(e.integrationRuns[i]) == Some(vs[i].key) {
      assert vs[i] in vs;
    }
  }

  lemma KeyRunsOnce(e: Evidence, ks: seq<RecipeKey>, i: nat, entry: Entry, recipe: Recipe)
    requires KeysAre(e.integrationRuns, ks) && i < |ks| && ks[i] == RecipeKey(entry.id, recipe)
    ensures RunOnce(e, entry, recipe)
  {
    RecipeMeans(e.integrationRuns[i]);
    forall j | 0 <= j < |e.integrationRuns| && RunsRecipe(e.integrationRuns[j], entry, recipe) ensures j == i {
      RecipeKeyMeans(e.integrationRuns[j], entry, recipe);
    }
  }

  lemma RecipeRunsOnce(ctx: Context, e: Evidence, reports: Reports, expected: map<RecipeKey, Entry>,
                       support: map<string, set<Pair>>, entry: Entry, recipe: Recipe)
    requires IntegrationOk(expected.Keys, support, Views(ctx, expected, reports, e.integrationRuns))
    requires RecipeKey(entry.id, recipe) in expected
    ensures RunOnce(e, entry, recipe)
  {
    var vs := Views(ctx, expected, reports, e.integrationRuns);
    EveryKeyRuns(expected.Keys, support, vs, RecipeKey(entry.id, recipe));
    var i :| 0 <= i < |vs| && vs[i].key == RecipeKey(entry.id, recipe);
    RunKeys(ctx, e, reports, expected, support);
    KeyRunsOnce(e, ViewKeys(vs), i, entry, recipe);
  }

  lemma PairShown(ctx: Context, e: Evidence, reports: Reports, expected: map<RecipeKey, Entry>,
                  support: map<string, set<Pair>>, entry: Entry, a: string, version: string)
    requires ArtifactsOk(e.artifacts) && Indexes(e.artifacts, reports) && Expects(ctx.entries, expected, support)
    requires MatrixOk(ctx.entries)
    requires IntegrationOk(expected.Keys, support, Views(ctx, expected, reports, e.integrationRuns))
    requires entry in ctx.entries && entry.isReal && a in entry.authentication && version in entry.versions
    ensures Shown(e, entry, a, version)
  {
    var vs := Views(ctx, expected, reports, e.integrationRuns);
    assert (a, version) in Pairs(entry);
    assert (a, version) in ObservedPairs(vs, entry.id);
    var v :| v in vs && v.key.id == entry.id && v.pair == (a, version);
    var i :| 0 <= i < |vs| && vs[i] == v;
    ViewMeans(ctx, e, reports, expected, support, i);
    SameAdapter(ctx.entries, expected[v.key], entry);
  }

  ghost predicate RunKnown(ctx: Context, e: Evidence, run: Payload) {
    exists entry, recipe, a, version :: RunSigned(ctx, e, run, entry, recipe, a, version)
  }

  lemma MatrixViewMeans(ctx: Context, e: Evidence, reports: Reports, i: nat)
    requires ArtifactsOk(e.artifacts) && Indexes(e.artifacts, reports) && i < |e.matrixRuns|
    requires MatrixRunsOk(MatrixViews(ctx, reports, e.matrixRuns))
    ensures MatrixRunSigned(ctx, e, e.matrixRuns[i])
    ensures Says(e.matrixRuns[i], "runId", MatrixViews(ctx, reports, e.matrixRuns)[i].runId)
  {
    var ms := MatrixViews(ctx, reports, e.matrixRuns);
    assert ms[i] in ms;
    MatrixRunMeans(ctx, e, reports, e.matrixRuns[i]);
  }

  /** No two runs have the same id. */
  ghost predicate IdsApart(runs: seq<Payload>) {
    forall i, j, id :: 0 <= i < j < |runs| && Says(runs[i], "runId", id) ==> !Says(runs[j], "runId", id)
  }

  lemma IdsFromList(runs: seq<Payload>, ids: seq<string>)
    requires |ids| == |runs| && NoRepeats(ids) && forall i :: 0 <= i < |runs| ==> Says(runs[i], "runId", ids[i])
    ensures IdsApart(runs)
  {
  }

  lemma RunIdsApart(ctx: Context, e: Evidence, reports: Reports, expected: map<RecipeKey, Entry>,
                    support: map<string, set<Pair>>)
    requires IntegrationOk(expected.Keys, support, Views(ctx, expected, reports, e.integrationRuns))
    ensures IdsApart(e.integrationRuns)
  {
    var vs := Views(ctx, expected, reports, e.integrationRuns);
    var ids := seq(|vs|, i requires 0 <= i < |vs| => vs[i].runId);
    forall i | 0 <= i < |vs| ensures Says(e.integrationRuns[i], "runId", ids[i]) {
      assert vs[i] in vs;
    }
    IdsFromList(e.integrationRuns, ids);
  }

  lemma MatrixIdsApart(ctx: Context, e: Evidence, reports: Reports)
    requires MatrixRunsOk(MatrixViews(ctx, reports, e.matrixRuns))
    ensures IdsApart(e.matrixRuns)
  {
    var ms := MatrixViews(ctx, reports, e.matrixRuns);
    var ids := seq(|ms|, i requires 0 <= i < |ms| => ms[i].runId);
    forall i | 0 <= i < |ms| ensures Says(e.matrixRuns[i], "runId", ids[i]) {
      assert ms[i] in ms;
    }
    IdsFromList(e.matrixRuns, ids);
  }

  // ---------- accepted evidence ----------

  lemma Unpacked(ctx: Context, e: Evidence)
    returns (reports: Reports, expected: map<RecipeKey, Entry>, support: map<string, set<Pair>>)
    requires Accepted(ctx, e)
    ensures ArtifactsOk(e.artifacts) && Indexes(e.artifacts, reports) && MatrixOk(ctx.entries)
    ensures Expects(ctx.entries, expected, support) && ClaimsOk(ctx, e, reports, expected, support)
  {
    reports, expected, support :| Indexes(e.artifacts, reports) && Expects(ctx.entries, expected, support)
      && ClaimsOk(ctx, e, reports, expected, support);
  }

  /** The signed manifest and audit closure are those of the candidate. */
  lemma AcceptedBindings(ctx: Context, e: Evidence)
    requires Accepted(ctx, e)
    ensures ManifestSigned(ctx, e) && AuditSigned(ctx, e)
  {
    var reports, expected, support := Unpacked(ctx, e);
    ManifestMeans(ctx, e, reports);
    AuditMeans(ctx, e, reports);
  }

  /** Nothing is open in the stable scope. */
  lemma AcceptedScope(ctx: Context, e: Evidence)
    requires Accepted(ctx, e)
    ensures ScopeClear(e)
  {
    var reports, expected, support := Unpacked(ctx, e);
    ScopeMeans(ctx, e, reports);
  }

  lemma AttestationsMean(ctx: Context, reports: Reports, runs: seq<Payload>)
    requires MatrixRunsOk(MatrixViews(ctx, reports, runs))
    ensures Attestations(MatrixViews(ctx, reports, runs)) == DigestsOf(runs, "attestationDigest")
  {
    var ms := MatrixViews(ctx, reports, runs);
    forall i | 0 <= i < |ms| ensures Attestations(ms)[i] == DigestsOf(runs, "attestationDigest")[i] {
      assert ms[i] in ms;
    }
  }

  /** The owner has signed off this release of this candidate, having reviewed every matrix run. */
  lemma AcceptedOwner(ctx: Context, e: Evidence)
    requires Accepted(ctx, e)
    ensures OwnerSigned(ctx, e)
  {
    var reports, expected, support := Unpacked(ctx, e);
    AttestationsMean(ctx, reports, e.matrixRuns);
    OwnerMeans(ctx, e, reports, Attestations(MatrixViews(ctx, reports, e.matrixRuns)));
  }

  /** Every matrix run is signed, complete and successful on the candidate, and has an id of its own. */
  lemma AcceptedMatrix(ctx: Context, e: Evidence)
    requires Accepted(ctx, e)
    ensures e.matrixRuns != [] && forall i :: 0 <= i < |e.matrixRuns| ==> MatrixRunSigned(ctx, e, e.matrixRuns[i])
    ensures IdsApart(e.matrixRuns)
  {
    var reports, expected, support := Unpacked(ctx, e);
    forall i | 0 <= i < |e.matrixRuns| ensures MatrixRunSigned(ctx, e, e.matrixRuns[i]) {
      MatrixViewMeans(ctx, e, reports, i);
    }
    MatrixIdsApart(ctx, e, reports);
  }

  /** Every integration run is signed, complete and successful on the candidate, of a recipe of a real
      adapter and within what the adapter claims. */
  lemma AcceptedRun(ctx: Context, e: Evidence, i: nat)
    requires Accepted(ctx, e) && i < |e.integrationRuns|
    ensures RunKnown(ctx, e, e.integrationRuns[i])
  {
    var reports, expected, support := Unpacked(ctx, e);
    ViewMeans(ctx, e, reports, expected, support, i);
  }

  lemma AcceptedIds(ctx: Context, e: Evidence)
    requires Accepted(ctx, e)
    ensures IdsApart(e.integrationRuns)
  {
    var reports, expected, support := Unpacked(ctx, e);
    RunIdsApart(ctx, e, reports, expected, support);
  }

  /** Every recipe of a real adapter has one run. */
  lemma AcceptedRecipe(ctx: Context, e: Evidence, entry: Entry, recipe: Recipe)
    requires Accepted(ctx, e) && entry in ctx.entries && entry.isReal && recipe in entry.recipes
    ensures RunOnce(e, entry, recipe)
  {
    var reports, expected, support := Unpacked(ctx, e);
    RecipeRunsOnce(ctx, e, reports, expected, support, entry, recipe);
  }

  /** Every pair of authentication and version that a real adapter claims is shown by some run. */
  lemma AcceptedPair(ctx: Context, e: Evidence, entry: Entry, a: string, version: string)
    requires Accepted(ctx, e) && entry in ctx.entries && entry.isReal
    requires a in entry.authentication && version in entry.versions
    ensures Shown(e, entry, a, version)
  {
    var reports, expected, support := Unpacked(ctx, e);
    PairShown(ctx, e, reports, expected, support, entry, a, version);
  }

  /** Two reports with digests of their own that share no file. */
  predicate FilesApart(a: Artifact, b: Artifact) {
    && a.digest != b.digest && a.path != b.path && a.signaturePath != b.signaturePath
    && a.path != b.signaturePath && a.signaturePath != b.path
  }

  lemma PathsApartMean(a: Artifact, b: Artifact)
    requires PathsApart(a, b) && a.digest != b.digest
    ensures FilesApart(a, b)
  {
    var p, q := {a.path, a.signaturePath}, {b.path, b.signaturePath};
    assert a.path in p && a.signaturePath in p && b.path in q && b.signaturePath in q;
  }

  lemma ArtifactsMean(xs: seq<Artifact>)
    requires ArtifactsOk(xs)
    ensures forall x :: x in xs ==> x.verified && x.path != x.signaturePath
    ensures forall i, j :: 0 <= i < j < |xs| ==> FilesApart(xs[i], xs[j])
  {
    forall i, j | 0 <= i < j < |xs| ensures FilesApart(xs[i], xs[j]) {
      PathsApartMean(xs[i], xs[j]);
    }
  }

  /** The signed reports are verified, have digests of their own, and share no file. */
  lemma AcceptedArtifacts(ctx: Context, e: Evidence)
    requires Accepted(ctx, e)
    ensures forall x :: x in e.artifacts ==> x.verified && x.path != x.signaturePath
    ensures forall i, j :: 0 <= i < j < |e.artifacts| ==> FilesApart(e.artifacts[i], e.artifacts[j])
  {
    ArtifactsMean(e.artifacts);
  }

  /** The required gates are the registered ones in order, each once; each of them blocks the release, and
      no other gate does. */
  lemma AcceptedGates(ctx: Context, e: Evidence)
    requires Accepted(ctx, e)
    ensures var r := ctx.bindings.registry;
      && r.required == r.registered && NoRepeats(r.required)
      && (forall i, j :: 0 <= i < j < |r.gates| ==> r.gates[i].id != r.gates[j].id)
      && (forall id :: id in r.registered ==> Gate(id, true) in r.gates)
      && (forall g :: g in r.gates ==> g.id != "" && (g.blocks <==> g.id in r.registered))
  {
    var r := ctx.bindings.registry;
    forall id | id in r.registered ensures Gate(id, true) in r.gates {
      assert id in Elements(r.registered);
      var g :| g in r.gates && g.blocks && g.id == id;
      assert g == Gate(id, true);
    }
    forall g | g in r.gates ensures g.blocks <==> g.id in r.registered {
      if g.blocks {
        assert g.id in Blocking(r.gates);
      }
      if g.id in r.registered {
        SameGate(r.gates, g, Gate(g.id, true));
      }
    }
  }

  lemma SameGate(gates: seq<Gate>, g: Gate, h: Gate)
    requires InventoryOk(gates) && g in gates && h in gates && g.id == h.id
    ensures g == h
  {
    var i :| 0 <= i < |gates| && gates[i] == g;
    var j :| 0 <= j < |gates| && gates[j] == h;
  }
}
