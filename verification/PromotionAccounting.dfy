/** Exact accounting of signed reports in accepted promotion evidence. */
module PromotionAccounting {
  import opened Common
  import opened PythonJson
  import opened Promotion
  import opened PromotionGates
  import opened PromotionEvidence

  // ---------- matrix runs ----------

  predicate MatrixRunOk(ctx: Context, reports: Reports, run: Payload) {
    && run.Keys == MATRIX_REPORT_KEYS + {"attestationDigest"}
    && TextAt(run, "runId").Some?
    && OnCandidate(ctx, run)
    && ctx.matrixChecks(run)
    && Bound(reports, run, "attestationDigest")
  }

  datatype MatrixView = MatrixView(ok: bool, runId: string, digest: string)

  function MatrixViewOf(ctx: Context, reports: Reports, run: Payload): MatrixView {
    if MatrixRunOk(ctx, reports, run)
    then MatrixView(true, TextAt(run, "runId").value, DigestAt(run, "attestationDigest"))
    else MatrixView(false, "", "")
  }

  function MatrixViews(ctx: Context, reports: Reports, runs: seq<Payload>): (ms: seq<MatrixView>)
    ensures |ms| == |runs|
    ensures forall i :: 0 <= i < |ms| ==> ms[i] == MatrixViewOf(ctx, reports, runs[i])
  {
    seq(|runs|, i requires 0 <= i < |runs| => MatrixViewOf(ctx, reports, runs[i]))
  }

  function Attestations(ms: seq<MatrixView>): (ds: seq<string>)
    ensures |ds| == |ms|
    ensures forall i :: 0 <= i < |ds| ==> ds[i] == ms[i].digest
  {
    seq(|ms|, i requires 0 <= i < |ms| => ms[i].digest)
  }

  function MatrixIds(ms: seq<MatrixView>): set<string> { set m | m in ms :: m.runId }

  /** Good runs with distinct ids and distinct attestations. */
  ghost predicate MatrixApart(ms: seq<MatrixView>) {
    && (forall m :: m in ms ==> m.ok)
    && (forall i, j :: 0 <= i < j < |ms| ==> ms[i].runId != ms[j].runId && ms[i].digest != ms[j].digest)
  }

  ghost predicate MatrixRunsOk(ms: seq<MatrixView>) {
    ms != [] && MatrixApart(ms)
  }

  lemma MatrixStep(ms: seq<MatrixView>, m: MatrixView)
    requires MatrixApart(ms) && m.ok && m.runId !in MatrixIds(ms) && m.digest !in Attestations(ms)
    ensures MatrixApart(ms + [m])
    ensures MatrixIds(ms + [m]) == MatrixIds(ms) + {m.runId}
    ensures Attestations(ms + [m]) == Attestations(ms) + [m.digest]
  {
    var next := ms + [m];
    assert forall x :: x in next <==> x in ms || x == m;
    forall i, j | 0 <= i < j < |next|
      ensures next[i].runId != next[j].runId && next[i].digest != next[j].digest
    {
      if j == |ms| {
        assert next[i] in ms && Attestations(ms)[i] == next[i].digest;
      }
    }
  }

  lemma MatrixRefused(ms: seq<MatrixView>, i: nat)
    requires i < |ms|
    requires !ms[i].ok || ms[i].runId in MatrixIds(ms[..i]) || ms[i].digest in Attestations(ms[..i])
    ensures !MatrixApart(ms)
  {
    assert ms[i] in ms;
    if ms[i].runId in MatrixIds(ms[..i]) {
      var m :| m in ms[..i] && m.runId == ms[i].runId;
      var j :| 0 <= j < i && ms[..i][j] == m;
      assert ms[j].runId == ms[i].runId;
    } else if ms[i].ok {
      var j :| 0 <= j < i && Attestations(ms[..i])[j] == ms[i].digest;
      assert ms[j].digest == ms[i].digest;
    }
  }

  /** The loop over the supported-matrix runs. */
  method CheckMatrix(ms: seq<MatrixView>) returns (ok: bool, digests: seq<string>)
    ensures ok <==> MatrixRunsOk(ms)
    ensures ok ==> digests == Attestations(ms)
  {
    digests := [];
    if ms == [] {
      return false, digests;
    }
    var runIds: set<string> := {};
    for i := 0 to |ms|
      invariant MatrixApart(ms[..i])
      invariant runIds == MatrixIds(ms[..i]) && digests == Attestations(ms[..i])
    {
      var m := ms[i];
      if !m.ok || m.runId in runIds || m.digest in digests {
        MatrixRefused(ms, i);
        return false, digests;
      }
      MatrixStep(ms[..i], m);
      assert ms[..i + 1] == ms[..i] + [m];
      runIds, digests := runIds + {m.runId}, digests + [m.digest];
    }
    assert ms[..|ms|] == ms;
    return true, digests;
  }

  // ---------- acceptance ----------

  predicate ManifestOk(ctx: Context, e: Evidence, reports: Reports) {
    Reported(reports, e.manifestDigest, ManifestReport(ctx.candidate))
  }

  predicate AuditOk(ctx: Context, e: Evidence, reports: Reports) {
    && SamePayload(e.auditClosure - {"reportDigest"}, AuditReport(ctx))
    && TextAt(e.auditClosure, "reportDigest").Some?
    && Reported(reports, DigestAt(e.auditClosure, "reportDigest"), AuditReport(ctx))
  }

  predicate ScopeOk(e: Evidence, reports: Reports) {
    && e.stableScope.Keys == SCOPE_REPORT_KEYS + {"reportDigest"}
    && (forall k :: k in SCOPE_REPORT_KEYS ==> e.stableScope[k] == Int(0))
    && Bound(reports, e.stableScope, "reportDigest")
  }

  predicate OwnerOk(ctx: Context, e: Evidence, reports: Reports, attestations: seq<string>) {
    && e.ownerSignoff.Keys == {"ownerIdentity", "approved", "reportDigest"}
    && e.ownerSignoff["ownerIdentity"] == Str(ctx.owner)
    && e.ownerSignoff["approved"] == Bool(true)
    && TextAt(e.ownerSignoff, "reportDigest").Some?
    && Reported(reports, DigestAt(e.ownerSignoff, "reportDigest"), OwnerReport(ctx, attestations))
  }

  /** The digest each claim of the evidence points at, in the order they are checked. */
  function Claims(e: Evidence): seq<string> {
    [e.manifestDigest, DigestAt(e.auditClosure, "reportDigest")]
    + DigestsOf(e.integrationRuns, "reportDigest")
    + DigestsOf(e.matrixRuns, "attestationDigest")
    + [DigestAt(e.stableScope, "reportDigest"), DigestAt(e.ownerSignoff, "reportDigest")]
  }

  ghost predicate ClaimsOk(ctx: Context, e: Evidence, reports: Reports, expected: map<RecipeKey, Entry>,
                           support: map<string, set<Pair>>) {
    && ManifestOk(ctx, e, reports)
    && AuditOk(ctx, e, reports)
    && IntegrationOk(expected.Keys, support, Views(ctx, expected, reports, e.integrationRuns))
    && MatrixRunsOk(MatrixViews(ctx, reports, e.matrixRuns))
    && ScopeOk(e, reports)
    && OwnerOk(ctx, e, reports, Attestations(MatrixViews(ctx, reports, e.matrixRuns)))
    && Elements(Claims(e)) == reports.Keys
  }

  /** The claims hold with the tables of the signed reports and of the matrix. */
  ghost predicate ClaimsHold(ctx: Context, e: Evidence) {
    exists reports, expected, support ::
      && Indexes(e.artifacts, reports) && Expects(ctx.entries, expected, support)
      && ClaimsOk(ctx, e, reports, expected, support)
  }

  /** The evidence passes `_validate_promotion_evidence`. */
  ghost predicate Accepted(ctx: Context, e: Evidence) {
    BindingsOk(ctx.bindings, ctx.auditClaim) && ArtifactsOk(e.artifacts) && MatrixOk(ctx.entries) && ClaimsHold(ctx, e)
  }

  // ---------- kinds of report, told apart by their keys ----------

  function Kind(p: Payload): nat {
    if "reproductions" in p then 1
    else if "gitCommit" in p then 0
    else if "testStep" in p then 2
    else if "securityGates" in p then 3
    else if "unresolvedHigh" in p then 4
    else 5
  }

  lemma ManifestKind(c: Release)
    ensures Kind(ManifestReport(c)) == 0
  {
  }

  lemma OwnerKind(ctx: Context, attestations: seq<string>)
    ensures Kind(OwnerReport(ctx, attestations)) == 5
  {
  }

  lemma IntegrationKind(run: Payload)
    requires run.Keys == INTEGRATION_REPORT_KEYS + {"reportDigest"}
    ensures Kind(run - {"reportDigest"}) == 2
  {
  }

  lemma MatrixKind(run: Payload)
    requires run.Keys == MATRIX_REPORT_KEYS + {"attestationDigest"}
    ensures Kind(run - {"attestationDigest"}) == 3
  {
  }

  lemma ScopeKind(p: Payload)
    requires p.Keys == SCOPE_REPORT_KEYS + {"reportDigest"}
    ensures Kind(p - {"reportDigest"}) == 4
  {
  }

  lemma AuditKind(ctx: Context)
    requires "reproductions" in ctx.auditClaim
    ensures Kind(AuditReport(ctx)) == 1
  {
  }

  /** The recipe key is part of the signed payload. */
  lemma KeySurvives(run: Payload)
    ensures KeyOf(run - {"reportDigest"}) == KeyOf(run)
  {
    assert forall k :: k != "reportDigest" ==> TextAt(run - {"reportDigest"}, k) == TextAt(run, k);
  }

  /** Equal payloads are of one kind and name one recipe. */
  lemma SameReport(p: Payload, q: Payload)
    requires SamePayload(p, q)
    ensures Kind(p) == Kind(q) && KeyOf(p) == KeyOf(q)
  {
    SameTexts(p, q, "integrationId");
    SameTexts(p, q, "test");
    SameTexts(p, q, "workflow");
    SameTexts(p, q, "workflowJob");
    SameTexts(p, q, "testStep");
  }

  // ---------- distinct claims ----------

  ghost predicate KindIs(reports: Reports, d: string, kind: nat) {
    d in reports && Kind(reports[d]) == kind
  }

  /** What one accepted integration run contributes. */
  lemma IntegrationClaim(ctx: Context, expected: map<RecipeKey, Entry>, support: map<string, set<Pair>>,
                         reports: Reports, runs: seq<Payload>, i: nat)
    requires i < |runs| && IntegrationOk(expected.Keys, support, Views(ctx, expected, reports, runs))
    ensures KindIs(reports, DigestsOf(runs, "reportDigest")[i], 2)
    ensures KeyOf(reports[DigestsOf(runs, "reportDigest")[i]]) == Some(Views(ctx, expected, reports, runs)[i].key)
  {
    var vs := Views(ctx, expected, reports, runs);
    assert vs[i] in vs;
    IntegrationKind(runs[i]);
    KeySurvives(runs[i]);
    SameReport(reports[vs[i].digest], runs[i] - {"reportDigest"});
  }

  /** Two integration runs never share a report: the report would name one recipe, and the
      runs name two. */
  lemma IntegrationDistinct(ctx: Context, expected: map<RecipeKey, Entry>, support: map<string, set<Pair>>,
                            reports: Reports, runs: seq<Payload>, i: nat, j: nat)
    requires i < j < |runs| && IntegrationOk(expected.Keys, support, Views(ctx, expected, reports, runs))
    ensures DigestsOf(runs, "reportDigest")[i] != DigestsOf(runs, "reportDigest")[j]
  {
    RunsAreKeyed(ctx, expected, support, reports, runs);
    KeyedApart(reports, DigestsOf(runs, "reportDigest"), Views(ctx, expected, reports, runs), i, j);
  }

  /** Each report names the recipe of the run that points at it. */
  ghost predicate Keyed(reports: Reports, ds: seq<string>, vs: seq<View>) {
    |ds| == |vs| && forall i :: 0 <= i < |ds| ==> ds[i] in reports && KeyOf(reports[ds[i]]) == Some(vs[i].key)
  }

  lemma RunsAreKeyed(ctx: Context, expected: map<RecipeKey, Entry>, support: map<string, set<Pair>>, reports: Reports,
                     runs: seq<Payload>)
    requires IntegrationOk(expected.Keys, support, Views(ctx, expected, reports, runs))
    ensures Keyed(reports, DigestsOf(runs, "reportDigest"), Views(ctx, expected, reports, runs))
  {
    forall i | 0 <= i < |runs|
      ensures var d := DigestsOf(runs, "reportDigest")[i];
              d in reports && KeyOf(reports[d]) == Some(Views(ctx, expected, reports, runs)[i].key)
    {
      IntegrationClaim(ctx, expected, support, reports, runs, i);
    }
  }

  lemma KeyedApart(reports: Reports, ds: seq<string>, vs: seq<View>, i: nat, j: nat)
    requires Keyed(reports, ds, vs) && DistinctViews(vs) && i < j < |vs|
    ensures ds[i] != ds[j]
  {
  }

  lemma MatrixClaim(ctx: Context, reports: Reports, runs: seq<Payload>, i: nat)
    requires i < |runs| && MatrixRunsOk(MatrixViews(ctx, reports, runs))
    ensures KindIs(reports, DigestsOf(runs, "attestationDigest")[i], 3)
    ensures DigestsOf(runs, "attestationDigest")[i] == MatrixViews(ctx, reports, runs)[i].digest
  {
    var ms := MatrixViews(ctx, reports, runs);
    assert ms[i] in ms;
    MatrixKind(runs[i]);
    SameReport(reports[ms[i].digest], runs[i] - {"attestationDigest"});
  }

  ghost function KindTable(reports: Reports): map<string, nat> {
    map d | d in reports :: Kind(reports[d])
  }

  /** All digests of a list are of one kind, and no two are equal. */
  ghost predicate Section(kinds: map<string, nat>, ds: seq<string>, kind: nat) {
    NoRepeats(ds) && forall i :: 0 <= i < |ds| ==> ds[i] in kinds && kinds[ds[i]] == kind
  }

  /** Sections of different kinds can be strung together. */
  lemma SectionsApart(kinds: map<string, nat>, a: seq<string>, b: seq<string>, bound: nat, kind: nat)
    requires NoRepeats(a) && (forall i :: 0 <= i < |a| ==> a[i] in kinds && kinds[a[i]] < bound <= kind)
    requires Section(kinds, b, kind)
    ensures NoRepeats(a + b)
    ensures forall i :: 0 <= i < |a + b| ==> (a + b)[i] in kinds && kinds[(a + b)[i]] < kind + 1
  {
    var q := a + b;
    forall i, j | 0 <= i < j < |q|
      ensures q[i] != q[j]
    {
      if j < |a| {
        assert q[i] == a[i] && q[j] == a[j];
      } else if i >= |a| {
        assert q[i] == b[i - |a|] && q[j] == b[j - |a|];
      } else {
        assert q[i] == a[i] && q[j] == b[j - |a|];
      }
    }
  }

  lemma SectionsJoin(kinds: map<string, nat>, d0: string, d1: string, a: seq<string>, b: seq<string>, d4: string,
                     d5: string)
    requires Section(kinds, [d0], 0) && Section(kinds, [d1], 1) && Section(kinds, a, 2)
    requires Section(kinds, b, 3) && Section(kinds, [d4], 4) && Section(kinds, [d5], 5)
    ensures NoRepeats([d0, d1] + a + b + [d4, d5])
  {
    SectionsApart(kinds, [d0], [d1], 1, 1);
    assert [d0] + [d1] == [d0, d1];
    SectionsApart(kinds, [d0, d1], a, 2, 2);
    SectionsApart(kinds, [d0, d1] + a, b, 3, 3);
    SectionsApart(kinds, [d0, d1] + a + b, [d4], 4, 4);
    SectionsApart(kinds, [d0, d1] + a + b + [d4], [d5], 5, 5);
    assert [d0, d1] + a + b + [d4] + [d5] == [d0, d1] + a + b + [d4, d5];
  }

  lemma IntegrationSection(ctx: Context, expected: map<RecipeKey, Entry>, support: map<string, set<Pair>>,
                           reports: Reports, runs: seq<Payload>)
    requires IntegrationOk(expected.Keys, support, Views(ctx, expected, reports, runs))
    ensures Section(KindTable(reports), DigestsOf(runs, "reportDigest"), 2)
  {
    var ds := DigestsOf(runs, "reportDigest");
    forall i | 0 <= i < |ds|
      ensures ds[i] in KindTable(reports) && KindTable(reports)[ds[i]] == 2
    {
      IntegrationClaim(ctx, expected, support, reports, runs, i);
    }
    forall i, j | 0 <= i < j < |ds|
      ensures ds[i] != ds[j]
    {
      IntegrationDistinct(ctx, expected, support, reports, runs, i, j);
    }
  }

  lemma MatrixSection(ctx: Context, reports: Reports, runs: seq<Payload>)
    requires MatrixRunsOk(MatrixViews(ctx, reports, runs))
    ensures Section(KindTable(reports), DigestsOf(runs, "attestationDigest"), 3)
    ensures Attestations(MatrixViews(ctx, reports, runs)) == DigestsOf(runs, "attestationDigest")
  {
    var ms, ds := MatrixViews(ctx, reports, runs), DigestsOf(runs, "attestationDigest");
    forall i | 0 <= i < |ds|
      ensures ds[i] in KindTable(reports) && KindTable(reports)[ds[i]] == 3 && ds[i] == ms[i].digest
    {
      MatrixClaim(ctx, reports, runs, i);
    }
  }

  lemma ReportedSection(reports: Reports, d: string, p: Payload)
    requires Reported(reports, d, p)
    ensures Section(KindTable(reports), [d], Kind(p))
  {
    SameReport(reports[d], p);
  }

  lemma ManifestSection(ctx: Context, e: Evidence, reports: Reports)
    requires ManifestOk(ctx, e, reports)
    ensures Section(KindTable(reports), [e.manifestDigest], 0)
  {
    ManifestKind(ctx.candidate);
    ReportedSection(reports, e.manifestDigest, ManifestReport(ctx.candidate));
  }

  lemma AuditSection(ctx: Context, e: Evidence, reports: Reports)
    requires AuditOk(ctx, e, reports) && "reproductions" in ctx.auditClaim
    ensures Section(KindTable(reports), [DigestAt(e.auditClosure, "reportDigest")], 1)
  {
    AuditKind(ctx);
    ReportedSection(reports, DigestAt(e.auditClosure, "reportDigest"), AuditReport(ctx));
  }

  lemma ScopeSection(e: Evidence, reports: Reports)
    requires ScopeOk(e, reports)
    ensures Section(KindTable(reports), [DigestAt(e.stableScope, "reportDigest")], 4)
  {
    ScopeKind(e.stableScope);
    ReportedSection(reports, DigestAt(e.stableScope, "reportDigest"), e.stableScope - {"reportDigest"});
  }

  lemma OwnerSection(ctx: Context, e: Evidence, reports: Reports, attestations: seq<string>)
    requires OwnerOk(ctx, e, reports, attestations)
    ensures Section(KindTable(reports), [DigestAt(e.ownerSignoff, "reportDigest")], 5)
  {
    OwnerKind(ctx, attestations);
    ReportedSection(reports, DigestAt(e.ownerSignoff, "reportDigest"), OwnerReport(ctx, attestations));
  }

  lemma ClaimsDistinct(ctx: Context, e: Evidence, reports: Reports, expected: map<RecipeKey, Entry>,
                       support: map<string, set<Pair>>)
    requires ClaimsOk(ctx, e, reports, expected, support) && "reproductions" in ctx.auditClaim
    ensures NoRepeats(Claims(e))
  {
    ManifestSection(ctx, e, reports);
    AuditSection(ctx, e, reports);
    ScopeSection(e, reports);
    OwnerSection(ctx, e, reports, Attestations(MatrixViews(ctx, reports, e.matrixRuns)));
    IntegrationSection(ctx, expected, support, reports, e.integrationRuns);
    MatrixSection(ctx, reports, e.matrixRuns);
    SectionsJoin(KindTable(reports), e.manifestDigest, DigestAt(e.auditClosure, "reportDigest"),
      DigestsOf(e.integrationRuns, "reportDigest"), DigestsOf(e.matrixRuns, "attestationDigest"),
      DigestAt(e.stableScope, "reportDigest"), DigestAt(e.ownerSignoff, "reportDigest"));
  }

  lemma ReportsCounted(xs: seq<Artifact>, reports: Reports, claims: seq<string>)
    requires Indexes(xs, reports) && NoRepeats(claims) && Elements(claims) == reports.Keys
    ensures |xs| == |claims|
    ensures forall x :: x in xs ==> x.digest in claims
  {
    CountsDistinct(claims);
    forall x | x in xs
      ensures x.digest in claims
    {
      assert x.digest in Elements(claims);
    }
  }

  /** Accepted evidence uses every signed report for exactly one claim, so there are exactly
      four reports more than integration runs and matrix runs. */
  lemma ExactAccounting(ctx: Context, e: Evidence)
    requires Accepted(ctx, e) && "reproductions" in ctx.auditClaim
    ensures NoRepeats(Claims(e))
    ensures forall x :: x in e.artifacts ==> x.digest in Claims(e)
    ensures |e.artifacts| == 4 + |e.integrationRuns| + |e.matrixRuns|
  {
    var reports, expected, support :|
      Indexes(e.artifacts, reports) && Expects(ctx.entries, expected, support)
        && ClaimsOk(ctx, e, reports, expected, support);
    ClaimsDistinct(ctx, e, reports, expected, support);
    ReportsCounted(e.artifacts, reports, Claims(e));
  }

  /** Accepted evidence has a recipe for every pair of authentication method and version. */
  lemma AcceptedSupport(ctx: Context, e: Evidence, x: Entry)
    requires Accepted(ctx, e) && x in ctx.entries && x.isReal
    ensures |x.authentication| * |x.versions| <= |x.recipes|
  {
    var reports, expected, support :|
      Indexes(e.artifacts, reports) && Expects(ctx.entries, expected, support)
        && ClaimsOk(ctx, e, reports, expected, support);
    SupportNeedsRecipes(ctx.entries, expected, support, Views(ctx, expected, reports, e.integrationRuns), x);
  }

  // ---------- the validator ----------

  lemma IndexesUnique(xs: seq<Artifact>, a: Reports, b: Reports)
    requires Indexes(xs, a) && Indexes(xs, b)
    ensures a == b
  {
    assert a.Keys == b.Keys;
    forall d | d in a
      ensures a[d] == b[d]
    {
      var x :| x in xs && x.digest == d;
    }
  }

  lemma ExpectsUnique(entries: seq<Entry>, a: map<RecipeKey, Entry>, s: map<string, set<Pair>>,
                      b: map<RecipeKey, Entry>, t: map<string, set<Pair>>)
    requires MatrixOk(entries) && Expects(entries, a, s) && Expects(entries, b, t)
    ensures a == b && s == t
  {
    RecipesWithin(entries, a, s, b, t);
    RecipesWithin(entries, b, t, a, s);
    SupportWithin(entries, a, s, b, t);
    SupportWithin(entries, b, t, a, s);
    assert a.Keys == b.Keys && s.Keys == t.Keys;
  }

  lemma RecipesWithin(entries: seq<Entry>, a: map<RecipeKey, Entry>, s: map<string, set<Pair>>,
                      b: map<RecipeKey, Entry>, t: map<string, set<Pair>>)
    requires MatrixOk(entries) && Expects(entries, a, s) && Expects(entries, b, t)
    ensures forall k :: k in a ==> k in b && a[k] == b[k]
  {
    forall k | k in a
      ensures k in b && a[k] == b[k]
    {
      assert k == RecipeKey(a[k].id, k.recipe);
      SameAdapter(entries, a[k], b[k]);
    }
  }

  lemma SupportWithin(entries: seq<Entry>, a: map<RecipeKey, Entry>, s: map<string, set<Pair>>,
                      b: map<RecipeKey, Entry>, t: map<string, set<Pair>>)
    requires Expects(entries, a, s) && Expects(entries, b, t)
    ensures forall id :: id in s ==> id in t && s[id] == t[id]
  {
    forall id | id in s
      ensures id in t && s[id] == t[id]
    {
      var e :| e in entries && e.isReal && e.id == id;
    }
  }

  lemma SameAdapter(entries: seq<Entry>, x: Entry, y: Entry)
    requires MatrixOk(entries) && x in entries && y in entries && x.isReal && y.isReal && x.id == y.id
    ensures x == y
  {
    var i :| 0 <= i < |entries| && entries[i] == x;
    var j :| 0 <= j < |entries| && entries[j] == y;
  }

  /** The claims, checked in order, with the digests they use. */
  method CheckClaims(ctx: Context, e: Evidence, reports: Reports, expected: map<RecipeKey, Entry>,
                     support: map<string, set<Pair>>)
    returns (ok: bool)
    requires forall k :: k in expected ==> k.id in support
    ensures ok <==> ClaimsOk(ctx, e, reports, expected, support)
  {
    if !ManifestOk(ctx, e, reports) || !AuditOk(ctx, e, reports) {
      return false;
    }
    var used := {e.manifestDigest, DigestAt(e.auditClosure, "reportDigest")};
    var vs := Views(ctx, expected, reports, e.integrationRuns);
    var integration := CheckIntegration(expected.Keys, support, vs);
    if !integration.Covered? {
      return false;
    }
    used := used + integration.used;
    var matrixOk, attestations := CheckMatrix(MatrixViews(ctx, reports, e.matrixRuns));
    if !matrixOk {
      return false;
    }
    used := used + Elements(attestations);
    if !ScopeOk(e, reports) || !OwnerOk(ctx, e, reports, attestations) {
      return false;
    }
    used := used + {DigestAt(e.stableScope, "reportDigest"), DigestAt(e.ownerSignoff, "reportDigest")};
    UsedAreClaims(ctx, e, reports, expected, support);
    return used == reports.Keys;
  }

  lemma UsedAreClaims(ctx: Context, e: Evidence, reports: Reports, expected: map<RecipeKey, Entry>,
                      support: map<string, set<Pair>>)
    requires IntegrationOk(expected.Keys, support, Views(ctx, expected, reports, e.integrationRuns))
    requires MatrixRunsOk(MatrixViews(ctx, reports, e.matrixRuns))
    ensures {e.manifestDigest, DigestAt(e.auditClosure, "reportDigest")}
      + UsedBy(Views(ctx, expected, reports, e.integrationRuns))
      + Elements(Attestations(MatrixViews(ctx, reports, e.matrixRuns)))
      + {DigestAt(e.stableScope, "reportDigest"), DigestAt(e.ownerSignoff, "reportDigest")}
      == Elements(Claims(e))
  {
    IntegrationUsed(ctx, expected, support, reports, e.integrationRuns);
    MatrixSection(ctx, reports, e.matrixRuns);
    SplitClaims(e.manifestDigest, DigestAt(e.auditClosure, "reportDigest"),
                DigestsOf(e.integrationRuns, "reportDigest"), DigestsOf(e.matrixRuns, "attestationDigest"),
                DigestAt(e.stableScope, "reportDigest"), DigestAt(e.ownerSignoff, "reportDigest"));
  }

  lemma SplitClaims(d0: string, d1: string, a: seq<string>, b: seq<string>, d4: string, d5: string)
    ensures Elements([d0, d1] + a + b + [d4, d5]) == {d0, d1} + Elements(a) + Elements(b) + {d4, d5}
  {
    PairElements(d0, d1);
    PairElements(d4, d5);
    ElementsSplit([d0, d1], a, b, [d4, d5]);
  }

  lemma PairElements(x: string, y: string)
    ensures Elements([x, y]) == {x, y}
  {
    assert x in [x, y] && y in [x, y];
  }

  lemma ElementsSplit(a: seq<string>, b: seq<string>, c: seq<string>, d: seq<string>)
    ensures Elements(a + b + c + d) == Elements(a) + Elements(b) + Elements(c) + Elements(d)
  {
  }

  lemma RunDigest(ctx: Context, expected: map<RecipeKey, Entry>, support: map<string, set<Pair>>, reports: Reports,
                  runs: seq<Payload>, i: nat)
    requires i < |runs| && IntegrationOk(expected.Keys, support, Views(ctx, expected, reports, runs))
    ensures Views(ctx, expected, reports, runs)[i].digest == DigestsOf(runs, "reportDigest")[i]
  {
    var vs := Views(ctx, expected, reports, runs);
    assert vs[i] in vs;
  }

  lemma UsedFromDigests(vs: seq<View>, ds: seq<string>)
    requires |vs| == |ds| && forall i :: 0 <= i < |vs| ==> vs[i].digest == ds[i]
    ensures UsedBy(vs) == Elements(ds)
  {
    forall x
      ensures x in UsedBy(vs) <==> x in Elements(ds)
    {
      if x in UsedBy(vs) {
        var v :| v in vs && v.digest == x;
        var i :| 0 <= i < |vs| && vs[i] == v;
        assert ds[i] == x;
      }
      if x in Elements(ds) {
        var i :| 0 <= i < |ds| && ds[i] == x;
        assert vs[i] in vs && vs[i].digest == x;
      }
    }
  }

  lemma IntegrationUsed(ctx: Context, expected: map<RecipeKey, Entry>, support: map<string, set<Pair>>,
                        reports: Reports, runs: seq<Payload>)
    requires IntegrationOk(expected.Keys, support, Views(ctx, expected, reports, runs))
    ensures UsedBy(Views(ctx, expected, reports, runs)) == Elements(DigestsOf(runs, "reportDigest"))
  {
    var vs, ds := Views(ctx, expected, reports, runs), DigestsOf(runs, "reportDigest");
    forall i | 0 <= i < |vs|
      ensures vs[i].digest == ds[i]
    {
      RunDigest(ctx, expected, support, reports, runs, i);
    }
    UsedFromDigests(vs, ds);
  }

  /** `_validate_promotion_evidence`, over decoded records. */
  method Validate(ctx: Context, e: Evidence) returns (ok: bool)
    ensures ok <==> Accepted(ctx, e)
    ensures ok && "reproductions" in ctx.auditClaim ==> |e.artifacts| == 4 + |e.integrationRuns| + |e.matrixRuns|
  {
    ok := CheckBindings(ctx.bindings, ctx.auditClaim);
    if !ok {
      return false;
    }
    var reports := CollectReports(e.artifacts);
    if reports.None? {
      return false;
    }
    var matrixOk, expected, support := CollectRecipes(ctx.entries);
    if !matrixOk {
      return false;
    }
    ok := CheckClaims(ctx, e, reports.value, expected, support);
    ClaimsHoldIff(ctx, e, reports.value, expected, support);
    if ok && "reproductions" in ctx.auditClaim {
      ExactAccounting(ctx, e);
    }
  }

  /** The tables are determined by the artifacts and the matrix. */
  lemma ClaimsHoldIff(ctx: Context, e: Evidence, reports: Reports, expected: map<RecipeKey, Entry>,
                      support: map<string, set<Pair>>)
    requires MatrixOk(ctx.entries) && Indexes(e.artifacts, reports) && Expects(ctx.entries, expected, support)
    ensures ClaimsHold(ctx, e) <==> ClaimsOk(ctx, e, reports, expected, support)
  {
    if ClaimsHold(ctx, e) {
      var r, x, s :| Indexes(e.artifacts, r) && Expects(ctx.entries, x, s) && ClaimsOk(ctx, e, r, x, s);
      IndexesUnique(e.artifacts, r, reports);
      ExpectsUnique(ctx.entries, x, s, expected, support);
    }
  }
}
