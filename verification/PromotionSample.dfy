/** Evidence that is accepted: a good run for each recipe, one supported-matrix run, and the reports. */
module PromotionSample {
  import opened Common
  import opened PythonJson
  import opened Promotion
  import opened PromotionGates
  import opened PromotionEvidence
  import opened PromotionAccounting
  import PosixPath

  /** The parts of a promotion: the tables of the integration matrix, the payloads of the reports
      on the integration runs, the matrix run and the scope, and the digests of all reports. The
      first five are the candidate's, the audit's, the matrix run's, the scope's and the
      sign-off's, and those of the integration runs follow. */
  datatype Parts = Parts(
    ctx: Context, expected: map<RecipeKey, Entry>, support: map<string, set<Pair>>,
    runs: seq<Payload>, matrix: Payload, scope: Payload, digests: seq<string>)
  {
    ghost predicate FrameOk() {
      && BindingsOk(ctx.bindings, ctx.auditClaim) && "reportDigest" !in ctx.auditClaim
      && matrix.Keys == MATRIX_REPORT_KEYS && TextAt(matrix, "runId").Some? && OnCandidate(ctx, matrix)
      && ctx.matrixChecks(Naming(matrix, "attestationDigest", At(2)))
      && scope.Keys == SCOPE_REPORT_KEYS && (forall k :: k in scope ==> scope[k] == Int(0))
      && |digests| == 5 + |runs| && NoRepeats(digests)
    }

    /** Run `i` is good, and within the support of its adapter. */
    ghost predicate RunGood(i: nat)
      requires i < |runs|
    {
      runs[i].Keys == INTEGRATION_REPORT_KEYS && RunShaped(ctx, expected, NamedRuns(this)[i])
    }

    /** One good run for each recipe, and together they prove the support matrix. */
    ghost predicate RunsOk() {
      && |runs| == |expected| && (forall i :: 0 <= i < |runs| ==> RunGood(i))
      && DistinctRuns(NamedRuns(this))
      && (forall id :: id in support ==> PairsShown(NamedRuns(this), id) == support[id])
    }

    ghost predicate TablesOk() { MatrixOk(ctx.entries) && Expects(ctx.entries, expected, support) }

    ghost predicate Ok() { FrameOk() && RunsOk() && TablesOk() }

    function At(i: nat): string { if i < |digests| then digests[i] else "" }

    function Payload(i: nat): Payload {
      if i == 0 then ManifestReport(ctx.candidate)
      else if i == 1 then AuditReport(ctx)
      else if i == 2 then matrix
      else if i == 3 then scope
      else if i == 4 then OwnerReport(ctx, [At(2)])
      else if i - 5 < |runs| then runs[i - 5]
      else map[]
    }
  }

  function RunKey(run: Payload): RecipeKey {
    match KeyOf(run) case Some(k) => k case None => RecipeKey("", Recipe("", "", "", ""))
  }

  function RunPair(run: Payload): Pair { match ResultOf(run) case Some(x) => x.0 case None => ("", "") }

  ghost predicate DistinctRuns(runs: seq<Payload>) {
    forall i, j :: 0 <= i < j < |runs| ==>
      RunKey(runs[i]) != RunKey(runs[j]) && TextAt(runs[i], "runId") != TextAt(runs[j], "runId")
  }

  function PairsShown(runs: seq<Payload>, id: string): set<Pair> {
    set run | run in runs && RunKey(run).id == id :: RunPair(run)
  }

  /** A record that names its own report. */
  function Naming(p: Payload, field: string, digest: string): Payload { p[field := Str(digest)] }

  function Signoff(owner: string, digest: string): Payload {
    map["ownerIdentity" := Str(owner), "approved" := Bool(true), "reportDigest" := Str(digest)]
  }

  function Signed(digest: string, payload: Payload): Artifact {
    Artifact(digest, "r" + digest, "s" + digest, payload, true)
  }

  function Artifacts(p: Parts): (xs: seq<Artifact>)
    ensures |xs| == |p.digests|
    ensures forall i :: 0 <= i < |xs| ==> xs[i] == Signed(p.At(i), p.Payload(i))
  {
    seq(|p.digests|, i requires 0 <= i < |p.digests| => Signed(p.At(i), p.Payload(i)))
  }

  function NamedRuns(p: Parts): (runs: seq<Payload>)
    ensures |runs| == |p.runs|
    ensures forall i :: 0 <= i < |runs| ==> runs[i] == Naming(p.runs[i], "reportDigest", p.At(5 + i))
  {
    seq(|p.runs|, i requires 0 <= i < |p.runs| => Naming(p.runs[i], "reportDigest", p.At(5 + i)))
  }

  function Assembled(p: Parts): Evidence {
    Evidence(p.At(0), Naming(AuditReport(p.ctx), "reportDigest", p.At(1)), NamedRuns(p),
             [Naming(p.matrix, "attestationDigest", p.At(2))], Naming(p.scope, "reportDigest", p.At(3)),
             Signoff(p.ctx.owner, p.At(4)), Artifacts(p))
  }

  // ---------- the reports ----------

  /** The dictionary of the artifacts' payloads. */
  function Filed(xs: seq<Artifact>): Reports {
    if xs == [] then map[] else Filed(xs[..|xs| - 1])[xs[|xs| - 1].digest := xs[|xs| - 1].payload]
  }

  lemma LastIsFresh(xs: seq<Artifact>, reports: Reports)
    requires xs != [] && DistinctDigests(xs) && Indexes(xs[..|xs| - 1], reports)
    ensures xs[|xs| - 1].digest !in reports
  {
    var n := |xs| - 1;
    forall x | x in xs[..n] ensures x.digest != xs[n].digest {
      var i :| 0 <= i < n && xs[..n][i] == x;
      assert xs[i] == x;
    }
  }

  lemma {:induction false} FiledIndexes(xs: seq<Artifact>)
    requires DistinctDigests(xs)
    ensures Indexes(xs, Filed(xs))
    decreases |xs|
  {
    if xs != [] {
      var front, last := xs[..|xs| - 1], xs[|xs| - 1];
      FiledIndexes(front);
      LastIsFresh(xs, Filed(front));
      assert xs == front + [last];
      IndexesStep(front, last, Filed(front));
    }
  }

  lemma PrefixApart(a: char, b: char, x: string, y: string)
    requires a != b || x != y
    ensures [a] + x != [b] + y
  {
    assert ([a] + x)[1..] == x && ([b] + y)[1..] == y;
    assert ([a] + x)[0] == a && ([b] + y)[0] == b;
  }

  lemma SignedApart(d: string, e: string, p: Payload, q: Payload)
    requires d != e
    ensures PathsApart(Signed(d, p), Signed(e, q)) && Signed(d, p).path != Signed(d, p).signaturePath
  {
    PrefixApart('r', 's', d, d);
    PrefixApart('r', 'r', d, e);
    PrefixApart('s', 's', d, e);
    PrefixApart('r', 's', d, e);
    PrefixApart('s', 'r', d, e);
  }

  lemma ArtifactsFine(p: Parts)
    requires p.FrameOk()
    ensures ArtifactsOk(Artifacts(p)) && Indexes(Artifacts(p), Filed(Artifacts(p)))
  {
    var xs := Artifacts(p);
    forall i, j | 0 <= i < j < |xs| ensures xs[i].digest != xs[j].digest && PathsApart(xs[i], xs[j]) {
      SignedApart(p.At(i), p.At(j), p.Payload(i), p.Payload(j));
    }
    forall x | x in xs ensures x.verified && x.path != x.signaturePath {
      PrefixApart('r', 's', x.digest, x.digest);
    }
    FiledIndexes(xs);
  }

  lemma ReportAt(p: Parts, i: nat)
    requires p.FrameOk() && i < |p.digests|
    ensures Reported(Filed(Artifacts(p)), p.At(i), p.Payload(i))
  {
    ArtifactsFine(p);
    assert Artifacts(p)[i] in Artifacts(p);
    SamePayloadSelf(p.Payload(i));
  }

  // ---------- the claims ----------

  lemma NamingBinds(reports: Reports, p: Payload, field: string, digest: string)
    requires field !in p && Reported(reports, digest, p)
    ensures Naming(p, field, digest) - {field} == p && Bound(reports, Naming(p, field, digest), field)
    ensures DigestAt(Naming(p, field, digest), field) == digest
  {
  }

  lemma AuditFine(p: Parts)
    requires p.FrameOk()
    ensures AuditOk(p.ctx, Assembled(p), Filed(Artifacts(p)))
    ensures DigestAt(Assembled(p).auditClosure, "reportDigest") == p.At(1)
  {
    ReportAt(p, 1);
    NamingBinds(Filed(Artifacts(p)), AuditReport(p.ctx), "reportDigest", p.At(1));
    SamePayloadSelf(AuditReport(p.ctx));
  }

  lemma MatrixFine(p: Parts)
    requires p.FrameOk()
    ensures var run := Naming(p.matrix, "attestationDigest", p.At(2));
            && MatrixRunOk(p.ctx, Filed(Artifacts(p)), run)
            && DigestAt(run, "attestationDigest") == p.At(2)
  {
    var run := Naming(p.matrix, "attestationDigest", p.At(2));
    assert "attestationDigest" !in MATRIX_REPORT_KEYS;
    ReportAt(p, 2);
    NamingBinds(Filed(Artifacts(p)), p.matrix, "attestationDigest", p.At(2));
    assert run.Keys == MATRIX_REPORT_KEYS + {"attestationDigest"};
    assert TextAt(run, "runId") == TextAt(p.matrix, "runId");
  }

  lemma ScopeFine(p: Parts)
    requires p.FrameOk()
    ensures ScopeOk(Assembled(p), Filed(Artifacts(p)))
    ensures DigestAt(Assembled(p).stableScope, "reportDigest") == p.At(3)
  {
    assert "reportDigest" !in SCOPE_REPORT_KEYS;
    ReportAt(p, 3);
    NamingBinds(Filed(Artifacts(p)), p.scope, "reportDigest", p.At(3));
  }

  lemma SignoffParts(owner: string, digest: string)
    ensures Signoff(owner, digest).Keys == {"ownerIdentity", "approved", "reportDigest"}
    ensures Signoff(owner, digest)["ownerIdentity"] == Str(owner) && Signoff(owner, digest)["approved"] == Bool(true)
    ensures TextAt(Signoff(owner, digest), "reportDigest") == Some(digest)
  {
  }

  lemma OwnerReported(p: Parts)
    requires p.FrameOk()
    ensures Reported(Filed(Artifacts(p)), p.At(4), OwnerReport(p.ctx, [p.At(2)]))
  {
    ReportAt(p, 4);
    assert p.Payload(4) == OwnerReport(p.ctx, [p.At(2)]);
  }

  lemma OwnerFine(p: Parts)
    requires p.FrameOk()
    ensures OwnerOk(p.ctx, Assembled(p), Filed(Artifacts(p)), [p.At(2)])
    ensures DigestAt(Assembled(p).ownerSignoff, "reportDigest") == p.At(4)
  {
    SignoffParts(p.ctx.owner, p.At(4));
    OwnerReported(p);
  }

  lemma OneRun(ctx: Context, reports: Reports, run: Payload)
    requires MatrixRunOk(ctx, reports, run)
    ensures MatrixRunsOk(MatrixViews(ctx, reports, [run]))
    ensures Attestations(MatrixViews(ctx, reports, [run])) == [DigestAt(run, "attestationDigest")]
  {
  }

  lemma RunsNamed(p: Parts)
    requires p.FrameOk()
    ensures DigestsOf(NamedRuns(p), "reportDigest") == p.digests[5..]
  {
    var ds := DigestsOf(NamedRuns(p), "reportDigest");
    forall i | 0 <= i < |ds| ensures ds[i] == p.digests[5..][i] {
      assert TextAt(NamedRuns(p)[i], "reportDigest") == Some(p.At(5 + i));
    }
  }

  lemma ClaimsAre(p: Parts)
    requires p.FrameOk()
    ensures Claims(Assembled(p)) == [p.At(0), p.At(1)] + p.digests[5..] + [p.At(2)] + [p.At(3), p.At(4)]
  {
    AuditFine(p);
    MatrixFine(p);
    ScopeFine(p);
    OwnerFine(p);
    RunsNamed(p);
    assert DigestsOf(Assembled(p).matrixRuns, "attestationDigest") == [p.At(2)];
  }

  lemma Reordered(ds: seq<string>)
    requires |ds| >= 5
    ensures Elements([ds[0], ds[1]] + ds[5..] + [ds[2]] + [ds[3], ds[4]]) == Elements(ds)
  {
    assert ds == [ds[0], ds[1]] + [ds[2]] + [ds[3], ds[4]] + ds[5..];
    ElementsSplit([ds[0], ds[1]], ds[5..], [ds[2]], [ds[3], ds[4]]);
    ElementsSplit([ds[0], ds[1]], [ds[2]], [ds[3], ds[4]], ds[5..]);
  }

  lemma ClaimsListed(p: Parts)
    requires p.FrameOk()
    ensures Elements(Claims(Assembled(p))) == Elements(p.digests)
  {
    ClaimsAre(p);
    Reordered(p.digests);
  }

  lemma IndexedKeys(xs: seq<Artifact>, reports: Reports, ds: seq<string>)
    requires Indexes(xs, reports) && |xs| == |ds| && forall i :: 0 <= i < |xs| ==> xs[i].digest == ds[i]
    ensures Elements(ds) == reports.Keys
  {
    forall d | d in ds ensures d in reports {
      var i :| 0 <= i < |ds| && ds[i] == d;
      assert xs[i] in xs;
    }
    forall d | d in reports ensures d in ds {
      var x :| x in xs && x.digest == d;
    }
  }

  lemma DigestsFiled(p: Parts)
    requires p.FrameOk()
    ensures Elements(p.digests) == Filed(Artifacts(p)).Keys
  {
    ArtifactsFine(p);
    forall i | 0 <= i < |p.digests| ensures Artifacts(p)[i].digest == p.digests[i] {
      assert Artifacts(p)[i] == Signed(p.At(i), p.Payload(i));
    }
    IndexedKeys(Artifacts(p), Filed(Artifacts(p)), p.digests);
  }

  lemma ClaimsCover(p: Parts)
    requires p.FrameOk()
    ensures Elements(Claims(Assembled(p))) == Filed(Artifacts(p)).Keys
  {
    ClaimsListed(p);
    DigestsFiled(p);
  }

  lemma RunFine(p: Parts)
    requires p.FrameOk()
    ensures var views := MatrixViews(p.ctx, Filed(Artifacts(p)), Assembled(p).matrixRuns);
            MatrixRunsOk(views) && Attestations(views) == [p.At(2)]
  {
    MatrixFine(p);
    OneRun(p.ctx, Filed(Artifacts(p)), Naming(p.matrix, "attestationDigest", p.At(2)));
  }

  // ---------- the integration runs ----------

  lemma RunReported(p: Parts, i: nat)
    requires p.FrameOk() && i < |p.runs|
    ensures Reported(Filed(Artifacts(p)), p.At(5 + i), p.runs[i])
  {
    ReportAt(p, 5 + i);
    assert p.Payload(5 + i) == p.runs[i];
  }

  lemma GoodRunIsOk(p: Parts, i: nat)
    requires p.FrameOk() && i < |p.runs| && p.RunGood(i)
    ensures Bound(Filed(Artifacts(p)), NamedRuns(p)[i], "reportDigest")
  {
    RunReported(p, i);
    assert "reportDigest" !in INTEGRATION_REPORT_KEYS;
    NamingBinds(Filed(Artifacts(p)), p.runs[i], "reportDigest", p.At(5 + i));
  }

  lemma ShapedView(ctx: Context, expected: map<RecipeKey, Entry>, reports: Reports, run: Payload)
    requires RunShaped(ctx, expected, run) && Bound(reports, run, "reportDigest")
    ensures var v := ViewOf(ctx, expected, reports, run);
            && v.ok && v.key == RunKey(run) && v.pair == RunPair(run) && Some(v.runId) == TextAt(run, "runId")
            && v.key in expected
  {
  }

  /** The views show what the runs show. */
  ghost predicate Shows(runs: seq<Payload>, vs: seq<View>) {
    && |vs| == |runs|
    && forall i :: 0 <= i < |runs| ==>
         && vs[i].ok && vs[i].key == RunKey(runs[i]) && vs[i].pair == RunPair(runs[i])
         && Some(vs[i].runId) == TextAt(runs[i], "runId")
  }

  lemma ShownPairs(runs: seq<Payload>, vs: seq<View>, id: string)
    requires Shows(runs, vs)
    ensures ObservedPairs(vs, id) == PairsShown(runs, id)
  {
    forall x | x in ObservedPairs(vs, id) ensures x in PairsShown(runs, id) {
      var v :| v in vs && v.key.id == id && v.pair == x;
      var i :| 0 <= i < |vs| && vs[i] == v;
      assert runs[i] in runs;
    }
    forall x | x in PairsShown(runs, id) ensures x in ObservedPairs(vs, id) {
      var run :| run in runs && RunKey(run).id == id && RunPair(run) == x;
      var i :| 0 <= i < |runs| && runs[i] == run;
      assert vs[i] in vs;
    }
  }

  lemma ShownIsOk(p: Parts, vs: seq<View>)
    requires p.RunsOk() && Shows(NamedRuns(p), vs) && forall i :: 0 <= i < |vs| ==> vs[i].key in p.expected
    ensures IntegrationOk(p.expected.Keys, p.support, vs)
  {
    forall id | id in p.support ensures ObservedPairs(vs, id) == p.support[id] {
      ShownPairs(NamedRuns(p), vs, id);
    }
  }

  lemma IntegrationFine(p: Parts)
    requires p.FrameOk() && p.RunsOk()
    ensures IntegrationOk(p.expected.Keys, p.support, Views(p.ctx, p.expected, Filed(Artifacts(p)), NamedRuns(p)))
  {
    var vs, runs := Views(p.ctx, p.expected, Filed(Artifacts(p)), NamedRuns(p)), NamedRuns(p);
    forall i | 0 <= i < |runs|
      ensures vs[i].ok && vs[i].key == RunKey(runs[i]) && vs[i].pair == RunPair(runs[i])
      ensures Some(vs[i].runId) == TextAt(runs[i], "runId") && vs[i].key in p.expected
    {
      assert p.RunGood(i);
      GoodRunIsOk(p, i);
      ShapedView(p.ctx, p.expected, Filed(Artifacts(p)), runs[i]);
    }
    ShownIsOk(p, vs);
  }

  // ---------- acceptance ----------

  lemma ClaimsFrom(ctx: Context, e: Evidence, reports: Reports, expected: map<RecipeKey, Entry>,
                   support: map<string, set<Pair>>)
    requires ManifestOk(ctx, e, reports) && AuditOk(ctx, e, reports) && ScopeOk(e, reports)
    requires IntegrationOk(expected.Keys, support, Views(ctx, expected, reports, e.integrationRuns))
    requires MatrixRunsOk(MatrixViews(ctx, reports, e.matrixRuns))
    requires OwnerOk(ctx, e, reports, Attestations(MatrixViews(ctx, reports, e.matrixRuns)))
    requires Elements(Claims(e)) == reports.Keys
    requires Indexes(e.artifacts, reports) && Expects(ctx.entries, expected, support)
    ensures ClaimsHold(ctx, e)
  {
    assert ClaimsOk(ctx, e, reports, expected, support);
  }

  lemma AssembledClaims(p: Parts)
    requires p.Ok()
    ensures ClaimsHold(p.ctx, Assembled(p))
  {
    ArtifactsFine(p);
    ReportAt(p, 0);
    AuditFine(p);
    IntegrationFine(p);
    RunFine(p);
    ScopeFine(p);
    OwnerFine(p);
    ClaimsCover(p);
    ClaimsFrom(p.ctx, Assembled(p), Filed(Artifacts(p)), p.expected, p.support);
  }

  /** What is assembled from such parts is accepted. */
  lemma AssembledIsAccepted(p: Parts)
    requires p.Ok()
    ensures Accepted(p.ctx, Assembled(p))
  {
    ArtifactsFine(p);
    AssembledClaims(p);
  }

  // ---------- such parts exist ----------

  /** An adapter with one authentication method, one version and one recipe. */
  function SampleEntry(id: string, recipe: Recipe): Entry { Entry(id, true, ["token"], ["16"], "retry", [recipe]) }

  const CHECKS := ["connectivity", "authentication", "version", "retry", "failure"]

  function SampleResult(id: string): (f: Payload)
    ensures f.Keys == INTEGRATION_RESULT_KEYS
  {
    map k | k in INTEGRATION_RESULT_KEYS ::
      if k == "formatVersion" then Int(1)
      else if k == "integrationId" then Str(id)
      else if k == "ok" then Bool(true)
      else if k == "authentication" then Str("token")
      else if k == "serviceOrSdkVersion" then Str("16")
      else if k == "retryAndFailureModel" then Str("retry")
      else List(StrsOf(CHECKS))
  }

  /** The fields that bind a run to the candidate. */
  function BoundField(c: Release, k: string): Option<Json> {
    if k == "status" then Some(Str("success"))
    else if k == "complete" then Some(Bool(true))
    else if k == "candidateRef" then Some(Str(c.ref))
    else if k == "candidateCommit" then Some(Str(c.commit))
    else None
  }

  function SampleRun(c: Release, id: string, recipe: Recipe): (run: Payload)
    ensures run.Keys == INTEGRATION_REPORT_KEYS
  {
    map k | k in INTEGRATION_REPORT_KEYS ::
      if BoundField(c, k).Some? then BoundField(c, k).value
      else if k == "integrationId" then Str(id)
      else if k == "test" then Str(recipe.test)
      else if k == "workflow" then Str(recipe.workflow)
      else if k == "workflowJob" then Str(recipe.job)
      else if k == "testStep" then Str(recipe.step)
      else if k == "result" then Obj(SampleResult(id))
      else Str("r")
  }

  function SampleMatrixRun(c: Release): (run: Payload)
    ensures run.Keys == MATRIX_REPORT_KEYS
  {
    map k | k in MATRIX_REPORT_KEYS :: if BoundField(c, k).Some? then BoundField(c, k).value else Str("r")
  }

  function SampleCandidate(): Release { Release("v1rc1", "c", "1rc1") }

  function SampleContext(entries: seq<Entry>): Context {
    var claim: Payload := map["reproductions" := Null];
    var bindings := Bindings(true, true, true, true, true, true, true, claim, Registry([], [], []));
    Context("v1", SampleCandidate(), claim, entries, "owner", bindings, _ => true, _ => true)
  }

  function SampleParts(id: string, recipe: Recipe): Parts {
    var e := SampleEntry(id, recipe);
    Parts(SampleContext([e]), map[RecipeKey(id, recipe) := e], map[id := {("token", "16")}],
          [SampleRun(SampleCandidate(), id, recipe)],
          SampleMatrixRun(SampleCandidate()), map k | k in SCOPE_REPORT_KEYS :: Int(0), ["a", "b", "c", "d", "e", "f"])
  }

  lemma SampleFrame(id: string, recipe: Recipe)
    ensures SampleParts(id, recipe).FrameOk() && "reproductions" in SampleParts(id, recipe).ctx.auditClaim
  {
    var p := SampleParts(id, recipe);
    assert Blocking([]) == Elements([]);
    assert "runId" in p.matrix;
    MatrixOnCandidate(p.ctx);
    SamePayloadSelf(p.ctx.auditClaim);
    forall i, j | 0 <= i < j < |p.digests| ensures p.digests[i] != p.digests[j] {
      assert p.digests[i][0] != p.digests[j][0];
    }
  }

  lemma MatrixOnCandidate(ctx: Context)
    requires ctx.candidate == SampleCandidate()
    ensures OnCandidate(ctx, SampleMatrixRun(SampleCandidate()))
  {
  }

  lemma RunOnCandidate(ctx: Context, id: string, recipe: Recipe)
    requires ctx.candidate == SampleCandidate()
    ensures SampleNamed(id, recipe).Keys == INTEGRATION_REPORT_KEYS + {"reportDigest"}
    ensures OnCandidate(ctx, SampleNamed(id, recipe))
  {
  }

  lemma NotBlank(s: string)
    requires s != "" && 32 < s[0] as int < 127
    ensures !Blank(s)
  {
    assert !IsSpace(s[0]);
  }

  lemma SampleMatrix(id: string, recipe: Recipe)
    requires !Blank(id) && RecipeOk(recipe)
    ensures MatrixOk([SampleEntry(id, recipe)])
  {
    NotBlank("token");
    NotBlank("16");
  }

  lemma SampleExpects(id: string, recipe: Recipe)
    ensures Expects([SampleEntry(id, recipe)], SampleParts(id, recipe).expected, SampleParts(id, recipe).support)
  {
    assert SampleEntry(id, recipe) in [SampleEntry(id, recipe)];
    assert Pairs(SampleEntry(id, recipe)) == {("token", "16")};
  }

  /** The run as it stands in the evidence. */
  function SampleNamed(id: string, recipe: Recipe): Payload {
    Naming(SampleRun(SampleCandidate(), id, recipe), "reportDigest", "f")
  }

  lemma SampleRunTexts(id: string, recipe: Recipe)
    ensures var run := SampleNamed(id, recipe);
            && TextAt(run, "integrationId") == Some(id) && TextAt(run, "test") == Some(recipe.test)
            && TextAt(run, "workflow") == Some(recipe.workflow) && TextAt(run, "workflowJob") == Some(recipe.job)
            && TextAt(run, "testStep") == Some(recipe.step) && TextAt(run, "runId") == Some("r")
  {
    assert "runId" in INTEGRATION_REPORT_KEYS && "integrationId" in INTEGRATION_REPORT_KEYS;
    assert "test" in INTEGRATION_REPORT_KEYS && "workflow" in INTEGRATION_REPORT_KEYS;
    assert "workflowJob" in INTEGRATION_REPORT_KEYS && "testStep" in INTEGRATION_REPORT_KEYS;
  }

  lemma SampleRunKey(id: string, recipe: Recipe)
    requires !Blank(id) && RecipeOk(recipe) && !Blank(recipe.test) && !Blank(recipe.workflow)
    ensures KeyOf(SampleNamed(id, recipe)) == Some(RecipeKey(id, recipe))
  {
    SampleRunTexts(id, recipe);
  }

  lemma SampleRunResult(id: string, recipe: Recipe)
    ensures ResultOf(SampleNamed(id, recipe)) == Some((("token", "16"), "retry"))
  {
    assert "result" in INTEGRATION_REPORT_KEYS;
    SampleRunTexts(id, recipe);
    SampleResultOk(id);
    SampleResultTexts(id);
  }

  lemma ChecksList(xs: seq<string>)
    requires Elements(xs) == REQUIRED_CHECKS && NoRepeats(xs)
    ensures ChecksOk(List(StrsOf(xs)))
  {
    var items := StrsOf(xs);
    CountsDistinct(xs);
    assert Texts(items) == Elements(xs) by {
      forall x | x in xs ensures x in Texts(items) {
        var i :| 0 <= i < |xs| && xs[i] == x;
        assert items[i] in items;
      }
    }
  }

  lemma SampleChecks()
    ensures ChecksOk(List(StrsOf(CHECKS)))
  {
    assert Elements(CHECKS) == REQUIRED_CHECKS by {
      var cs := CHECKS;
      assert cs[0] in cs && cs[1] in cs && cs[2] in cs && cs[3] in cs && cs[4] in cs;
    }
    assert NoRepeats(CHECKS);
    ChecksList(CHECKS);
  }

  lemma SampleResultTexts(id: string)
    ensures TextAt(SampleResult(id), "authentication") == Some("token")
    ensures TextAt(SampleResult(id), "serviceOrSdkVersion") == Some("16")
    ensures TextAt(SampleResult(id), "retryAndFailureModel") == Some("retry")
  {
  }

  lemma SampleResultOk(id: string)
    ensures ResultOk(SampleResult(id), id)
  {
    SampleResultTexts(id);
    NotBlank("token");
    NotBlank("16");
    NotBlank("retry");
    SampleChecks();
    var f := SampleResult(id);
    assert f["formatVersion"] == Int(1) && f["integrationId"] == Str(id) && f["ok"] == Bool(true);
    assert f["checks"] == List(StrsOf(CHECKS));
  }

  lemma SampleShaped(ctx: Context, expected: map<RecipeKey, Entry>, id: string, recipe: Recipe)
    requires !Blank(id) && RecipeOk(recipe) && !Blank(recipe.test) && !Blank(recipe.workflow)
    requires ctx.candidate == SampleCandidate() && ctx.runChecks(SampleNamed(id, recipe))
    requires RecipeKey(id, recipe) in expected && expected[RecipeKey(id, recipe)] == SampleEntry(id, recipe)
    ensures RunShaped(ctx, expected, SampleNamed(id, recipe))
  {
    SampleRunKey(id, recipe);
    SampleRunTexts(id, recipe);
    SampleRunResult(id, recipe);
    RunOnCandidate(ctx, id, recipe);
  }

  lemma SamplePairs(id: string, recipe: Recipe)
    requires !Blank(id) && RecipeOk(recipe) && !Blank(recipe.test) && !Blank(recipe.workflow)
    ensures PairsShown([SampleNamed(id, recipe)], id) == {("token", "16")}
  {
    SampleRunKey(id, recipe);
    SampleRunResult(id, recipe);
    OnePair(SampleNamed(id, recipe), id);
  }

  lemma OnePair(run: Payload, id: string)
    requires RunKey(run).id == id
    ensures PairsShown([run], id) == {RunPair(run)}
  {
    assert run in [run];
  }

  lemma SampleRuns(id: string, recipe: Recipe)
    requires !Blank(id) && RecipeOk(recipe) && !Blank(recipe.test) && !Blank(recipe.workflow)
    ensures SampleParts(id, recipe).RunsOk()
  {
    SampleRunGood(id, recipe);
    SampleShown(id, recipe);
    SingleRun(SampleParts(id, recipe), id);
  }

  lemma SampleNames(id: string, recipe: Recipe)
    ensures NamedRuns(SampleParts(id, recipe)) == [SampleNamed(id, recipe)]
  {
  }

  lemma SampleRunGood(id: string, recipe: Recipe)
    requires !Blank(id) && RecipeOk(recipe) && !Blank(recipe.test) && !Blank(recipe.workflow)
    ensures SampleParts(id, recipe).RunGood(0)
  {
    SampleNames(id, recipe);
    SampleShaped(SampleParts(id, recipe).ctx, SampleParts(id, recipe).expected, id, recipe);
  }

  lemma SampleShown(id: string, recipe: Recipe)
    requires !Blank(id) && RecipeOk(recipe) && !Blank(recipe.test) && !Blank(recipe.workflow)
    ensures var p := SampleParts(id, recipe);
            p.support.Keys == {id} && PairsShown(NamedRuns(p), id) == p.support[id]
  {
    SampleNames(id, recipe);
    SamplePairs(id, recipe);
  }

  lemma SingleRun(p: Parts, id: string)
    requires |p.runs| == |p.expected| == 1 && p.RunGood(0)
    requires p.support.Keys == {id} && PairsShown(NamedRuns(p), id) == p.support[id]
    ensures p.RunsOk()
  {
    OneIsDistinct(NamedRuns(p));
  }

  lemma OneIsDistinct(runs: seq<Payload>)
    requires |runs| == 1
    ensures DistinctRuns(runs)
  {
  }

  lemma SampleTables(id: string, recipe: Recipe)
    requires !Blank(id) && RecipeOk(recipe)
    ensures SampleParts(id, recipe).TablesOk()
  {
    SampleMatrix(id, recipe);
    SampleExpects(id, recipe);
  }

  /** Two pieces below a directory. */
  lemma PathBelow(first: string, second: string, prefix: string)
    requires first !in {"", ".", ".."} && second !in {"", ".", ".."} && '/' !in first && '/' !in second
    requires '\\' !in first && '\\' !in second && prefix == first + "/"
    ensures RepositoryPath(first + "/" + second, prefix)
  {
    var s := first + "/" + second;
    PosixPath.SplitPiece(first, second);
    PosixPath.SplitPiece(second, "");
    assert PosixPath.Split(s) == [first, second];
    PosixPath.ChecksAccept(s);
    assert s[..|prefix|] == prefix;
  }

  /** Three pieces. */
  lemma PathFurtherBelow(first: string, second: string, third: string, prefix: string)
    requires first !in {"", ".", ".."} && second !in {"", ".", ".."} && third !in {"", ".", ".."}
    requires '/' !in first && '/' !in second && '/' !in third
    requires '\\' !in first && '\\' !in second && '\\' !in third && prefix == first + "/" + (second + "/")
    ensures RepositoryPath(first + "/" + (second + "/" + third), prefix)
  {
    var s := first + "/" + (second + "/" + third);
    PosixPath.SplitPiece(first, second + "/" + third);
    PosixPath.SplitPiece(second, third);
    PosixPath.SplitPiece(third, "");
    assert PosixPath.Split(s) == [first, second, third];
    PosixPath.ChecksAccept(s);
    assert s[..|prefix|] == prefix;
  }

  lemma SampleTest() returns (test: string)
    ensures RepositoryPath(test, "tests/") && !Blank(test)
  {
    test := "tests" + "/" + "a.py";
    NotBlank(test);
    PathBelow("tests", "a.py", "tests/");
  }

  lemma SampleWorkflow() returns (workflow: string)
    ensures RepositoryPath(workflow, ".github/workflows/") && !Blank(workflow)
  {
    workflow := ".github" + "/" + ("workflows" + "/" + "a.yml");
    NotBlank(workflow);
    PathFurtherBelow(".github", "workflows", "a.yml", ".github/workflows/");
  }

  lemma SampleRecipe() returns (id: string, recipe: Recipe)
    ensures !Blank(id) && RecipeOk(recipe) && !Blank(recipe.test) && !Blank(recipe.workflow)
  {
    var test := SampleTest();
    var workflow := SampleWorkflow();
    id, recipe := "postgres", Recipe(test, workflow, "job", "step");
    NotBlank(id);
    NotBlank("job");
    NotBlank("step");
  }

  lemma SamplePartsOk() returns (p: Parts)
    ensures p.Ok() && "reproductions" in p.ctx.auditClaim && |p.digests| == 6 && |p.runs| == 1
  {
    var id, recipe := SampleRecipe();
    p := SampleParts(id, recipe);
    SampleFrame(id, recipe);
    SampleTables(id, recipe);
    SampleRuns(id, recipe);
  }

  /** Some evidence is accepted: with one recipe and its run, and six reports. */
  lemma SomethingIsAccepted() returns (ctx: Context, e: Evidence)
    ensures Accepted(ctx, e) && "reproductions" in ctx.auditClaim
    ensures |e.integrationRuns| == 1 && |e.artifacts| == 6
  {
    var p := SamplePartsOk();
    AssembledIsAccepted(p);
    ctx, e := p.ctx, Assembled(p);
  }
}
