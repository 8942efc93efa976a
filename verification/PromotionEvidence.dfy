/** The promotion-evidence validator: which signed report proves which claim. */
module PromotionEvidence {
  import opened Common
  import opened PythonJson
  import opened Promotion
  import opened PromotionGates

  datatype Release = Release(ref: string, commit: string, version: string)

  /** What a promotion is checked against. `runChecks` and `matrixChecks` stand for the checks
      of single fields of one run: run identity, artifact names, result digests, supported
      platforms and security gates. */
  datatype Context = Context(
    targetRef: string,
    candidate: Release,
    auditClaim: Payload,
    entries: seq<Entry>,
    owner: string,
    bindings: Bindings,
    runChecks: Payload -> bool,
    matrixChecks: Payload -> bool)

  datatype Evidence = Evidence(
    manifestDigest: string,
    auditClosure: Payload,
    integrationRuns: seq<Payload>,
    matrixRuns: seq<Payload>,
    stableScope: Payload,
    ownerSignoff: Payload,
    artifacts: seq<Artifact>)

  type Reports = map<string, Payload>

  // ---------- expected report payloads ----------

  /** `_candidate_manifest_report`. */
  function ManifestReport(c: Release): Payload {
    map["formatVersion" := Int(1), "releaseRef" := Str(c.ref), "releaseVersion" := Str(c.version),
        "gitCommit" := Str(c.commit)]
  }

  function AuditReport(ctx: Context): Payload {
    map["candidateRef" := Str(ctx.candidate.ref), "candidateCommit" := Str(ctx.candidate.commit)] + ctx.auditClaim
  }

  function StrsOf(xs: seq<string>): seq<Json> { seq(|xs|, i requires 0 <= i < |xs| => Str(xs[i])) }

  function OwnerReport(ctx: Context, attestations: seq<string>): Payload {
    map["formatVersion" := Int(1), "policy" := Str("personal-project-owner-signoff-v1"),
        "ownerIdentity" := Str(ctx.owner), "approved" := Bool(true), "targetReleaseRef" := Str(ctx.targetRef),
        "candidateRef" := Str(ctx.candidate.ref), "candidateCommit" := Str(ctx.candidate.commit),
        "reviewedMatrixRunDigests" := List(StrsOf(attestations))]
  }

  function DigestAt(p: Payload, field: string): string {
    match TextAt(p, field) case Some(s) => s case None => ""
  }

  function DigestsOf(runs: seq<Payload>, field: string): (ds: seq<string>)
    ensures |ds| == |runs|
    ensures forall i :: 0 <= i < |ds| ==> ds[i] == DigestAt(runs[i], field)
  {
    seq(|runs|, i requires 0 <= i < |runs| => DigestAt(runs[i], field))
  }

  /** The digest names a signed report that equals the payload in Python's sense. */
  predicate Reported(reports: Reports, digest: string, payload: Payload) {
    digest in reports && SamePayload(reports[digest], payload)
  }

  /** The record's own digest names a signed report with the rest of the record. */
  predicate Bound(reports: Reports, p: Payload, field: string) {
    TextAt(p, field).Some? && Reported(reports, TextAt(p, field).value, p - {field})
  }

  // ---------- integration runs ----------

  function KeyOf(run: Payload): Option<RecipeKey> {
    var id, test, workflow, job, step :=
      TextAt(run, "integrationId"), TextAt(run, "test"), TextAt(run, "workflow"), TextAt(run, "workflowJob"),
        TextAt(run, "testStep");
    if Named(id) && Named(test) && Named(workflow) && Named(job) && Named(step)
    then Some(RecipeKey(id.value, Recipe(test.value, workflow.value, job.value, step.value)))
    else None
  }

  /** A list of distinct strings that are exactly the required checks. */
  predicate ChecksOk(v: Json) {
    && v.List? && (forall i :: 0 <= i < |v.items| ==> v.items[i].Str?)
    && Texts(v.items) == REQUIRED_CHECKS && |Texts(v.items)| == |v.items|
  }

  function Texts(items: seq<Json>): set<string> { set v | v in items && v.Str? :: v.s }

  /** `_validate_integration_result`. */
  predicate ResultOk(f: Payload, id: string) {
    && f.Keys == INTEGRATION_RESULT_KEYS
    && PyEq(f["formatVersion"], Int(1)) && PyEq(f["integrationId"], Str(id)) && f["ok"] == Bool(true)
    && Named(TextAt(f, "authentication")) && Named(TextAt(f, "serviceOrSdkVersion"))
    && Named(TextAt(f, "retryAndFailureModel")) && ChecksOk(f["checks"])
  }

  /** What a good result of the run says it was run with: authentication, service version, retry model. */
  function ResultOf(run: Payload): Option<(Pair, string)> {
    if "result" in run && run["result"].Obj? && TextAt(run, "integrationId").Some?
      && ResultOk(run["result"].fields, TextAt(run, "integrationId").value)
    then
      var f := run["result"].fields;
      Some(((TextAt(f, "authentication").value, TextAt(f, "serviceOrSdkVersion").value),
            TextAt(f, "retryAndFailureModel").value))
    else None
  }

  /** A complete, successful run on the candidate. */
  predicate OnCandidate(ctx: Context, run: Payload)
    requires {"status", "complete", "candidateRef", "candidateCommit"} <= run.Keys
  {
    && PyEq(run["status"], Str("success")) && run["complete"] == Bool(true)
    && PyEq(run["candidateRef"], Str(ctx.candidate.ref)) && PyEq(run["candidateCommit"], Str(ctx.candidate.commit))
  }

  predicate ResultSupported(run: Payload, e: Entry) {
    match ResultOf(run)
    case Some(x) => x.0.0 in e.authentication && x.0.1 in e.versions && x.1 == e.retryModel
    case None => false
  }

  /** A good run of a known recipe, within the support of its adapter. */
  predicate RunShaped(ctx: Context, expected: map<RecipeKey, Entry>, run: Payload) {
    && run.Keys == INTEGRATION_REPORT_KEYS + {"reportDigest"}
    && KeyOf(run).Some? && KeyOf(run).value in expected
    && TextAt(run, "runId").Some?
    && OnCandidate(ctx, run)
    && ctx.runChecks(run)
    && ResultSupported(run, expected[KeyOf(run).value])
  }

  predicate RunOk(ctx: Context, expected: map<RecipeKey, Entry>, reports: Reports, run: Payload) {
    RunShaped(ctx, expected, run) && Bound(reports, run, "reportDigest")
  }

  /** What the loop over the runs reads off one run. */
  datatype View = View(ok: bool, key: RecipeKey, runId: string, pair: Pair, digest: string)

  function ViewOf(ctx: Context, expected: map<RecipeKey, Entry>, reports: Reports, run: Payload): View {
    if RunOk(ctx, expected, reports, run)
    then View(true, KeyOf(run).value, TextAt(run, "runId").value, ResultOf(run).value.0,
      TextAt(run, "reportDigest").value)
    else View(false, RecipeKey("", Recipe("", "", "", "")), "", ("", ""), "")
  }

  function Views(ctx: Context, expected: map<RecipeKey, Entry>, reports: Reports, runs: seq<Payload>): (vs: seq<View>)
    ensures |vs| == |runs|
    ensures forall i :: 0 <= i < |vs| ==> vs[i] == ViewOf(ctx, expected, reports, runs[i])
  {
    seq(|runs|, i requires 0 <= i < |runs| => ViewOf(ctx, expected, reports, runs[i]))
  }

  function ObservedPairs(vs: seq<View>, id: string): set<Pair> {
    set v | v in vs && v.key.id == id :: v.pair
  }

  ghost predicate DistinctViews(vs: seq<View>) {
    forall i, j :: 0 <= i < j < |vs| ==> vs[i].key != vs[j].key && vs[i].runId != vs[j].runId
  }

  ghost predicate ViewsOk(expected: set<RecipeKey>, vs: seq<View>) {
    (forall v :: v in vs ==> v.ok && v.key in expected) && DistinctViews(vs)
  }

  /** Every recipe has one good run of its own, and the runs prove the whole support matrix. */
  ghost predicate IntegrationOk(expected: set<RecipeKey>, support: map<string, set<Pair>>, vs: seq<View>) {
    && |vs| == |expected|
    && ViewsOk(expected, vs)
    && (forall id :: id in support ==> ObservedPairs(vs, id) == support[id])
  }

  function KeysOf(vs: seq<View>): set<RecipeKey> { set v | v in vs :: v.key }
  function RunIdsOf(vs: seq<View>): set<string> { set v | v in vs :: v.runId }
  function UsedBy(vs: seq<View>): set<string> { set v | v in vs :: v.digest }

  datatype IntegrationResult =
    | Covered(used: set<string>)
    | Unacceptable
    | RecipesUncovered
    | SupportUncovered

  datatype Tally = Tally(keys: set<RecipeKey>, runIds: set<string>, pairs: map<string, set<Pair>>, used: set<string>)

  ghost predicate TalliedSets(vs: seq<View>, t: Tally) {
    t.keys == KeysOf(vs) && |t.keys| == |vs| && t.runIds == RunIdsOf(vs) && t.used == UsedBy(vs)
  }

  ghost predicate TalliedPairs(support: map<string, set<Pair>>, vs: seq<View>, t: Tally) {
    t.pairs.Keys == support.Keys && forall id :: id in support ==> t.pairs[id] == ObservedPairs(vs, id)
  }

  /** The state of the loop over the runs. */
  ghost predicate Tallied(expected: set<RecipeKey>, support: map<string, set<Pair>>, vs: seq<View>, t: Tally) {
    ViewsOk(expected, vs) && TalliedSets(vs, t) && TalliedPairs(support, vs, t)
  }

  function Counted(t: Tally, v: View): Tally
    requires v.key.id in t.pairs
  {
    Tally(t.keys + {v.key}, t.runIds + {v.runId}, t.pairs[v.key.id := t.pairs[v.key.id] + {v.pair}],
      t.used + {v.digest})
  }

  lemma TallyStart(expected: set<RecipeKey>, support: map<string, set<Pair>>)
    ensures Tallied(expected, support, [], Tally({}, {}, map id | id in support :: {}, {}))
  {
  }

  lemma ViewsOkStep(expected: set<RecipeKey>, vs: seq<View>, v: View)
    requires ViewsOk(expected, vs) && v.ok && v.key in expected
    requires v.key !in KeysOf(vs) && v.runId !in RunIdsOf(vs)
    ensures ViewsOk(expected, vs + [v])
  {
    var next := vs + [v];
    forall i, j | 0 <= i < j < |next|
      ensures next[i].key != next[j].key && next[i].runId != next[j].runId
    {
      if j == |vs| {
        assert next[i] in vs;
      }
    }
  }

  lemma SetsStep(vs: seq<View>, t: Tally, v: View)
    requires TalliedSets(vs, t) && v.key !in t.keys && v.key.id in t.pairs
    ensures TalliedSets(vs + [v], Counted(t, v))
  {
    var next := vs + [v];
    assert forall x :: x in next <==> x in vs || x == v;
    assert KeysOf(next) == KeysOf(vs) + {v.key};
    assert RunIdsOf(next) == RunIdsOf(vs) + {v.runId};
    assert UsedBy(next) == UsedBy(vs) + {v.digest};
  }

  lemma PairsStep(support: map<string, set<Pair>>, vs: seq<View>, t: Tally, v: View)
    requires TalliedPairs(support, vs, t) && v.key.id in support
    ensures TalliedPairs(support, vs + [v], Counted(t, v))
  {
    forall id | id in support
      ensures Counted(t, v).pairs[id] == ObservedPairs(vs + [v], id)
    {
      ViewStep(vs, v, id);
    }
  }

  lemma TallyStep(expected: set<RecipeKey>, support: map<string, set<Pair>>, vs: seq<View>, i: nat, t: Tally)
    requires i < |vs| && Tallied(expected, support, vs[..i], t)
    requires vs[i].ok && vs[i].key in expected && vs[i].key.id in support
    requires vs[i].key !in t.keys && vs[i].runId !in t.runIds
    ensures Tallied(expected, support, vs[..i + 1], Counted(t, vs[i]))
  {
    assert vs[..i + 1] == vs[..i] + [vs[i]];
    TallyOne(expected, support, vs[..i], vs[i], t);
  }

  lemma TallyOne(expected: set<RecipeKey>, support: map<string, set<Pair>>, vs: seq<View>, v: View, t: Tally)
    requires Tallied(expected, support, vs, t)
    requires v.ok && v.key in expected && v.key.id in support && v.key !in t.keys && v.runId !in t.runIds
    ensures Tallied(expected, support, vs + [v], Counted(t, v))
  {
    ViewsOkStep(expected, vs, v);
    SetsStep(vs, t, v);
    PairsStep(support, vs, t, v);
  }

  lemma SeenBefore(vs: seq<View>, i: nat)
    requires i < |vs| && (vs[i].key in KeysOf(vs[..i]) || vs[i].runId in RunIdsOf(vs[..i]))
    ensures !DistinctViews(vs)
  {
    var v :| v in vs[..i] && (v.key == vs[i].key || v.runId == vs[i].runId);
    var j :| 0 <= j < i && vs[..i][j] == v;
    assert vs[j].key == vs[i].key || vs[j].runId == vs[i].runId;
  }

  lemma ViewRefused(expected: set<RecipeKey>, support: map<string, set<Pair>>, vs: seq<View>, i: nat, t: Tally)
    requires i < |vs| && Tallied(expected, support, vs[..i], t)
    requires var v := vs[i]; !v.ok || v.key !in expected || v.key in t.keys || v.runId in t.runIds
    ensures !ViewsOk(expected, vs)
  {
    assert vs[i] in vs;
    if vs[i].key in t.keys || vs[i].runId in t.runIds {
      SeenBefore(vs, i);
    }
  }

  /** As many distinct known keys as there are recipes are all the recipes. */
  lemma CountingCovers(keys: set<RecipeKey>, recipes: set<RecipeKey>)
    requires keys <= recipes && |keys| == |recipes|
    ensures keys == recipes
  {
    assert |recipes - keys| == 0;
  }

  /** The loop over the runs. */
  method TallyRuns(expected: set<RecipeKey>, support: map<string, set<Pair>>, vs: seq<View>)
    returns (ok: bool, t: Tally)
    requires forall k :: k in expected ==> k.id in support
    ensures ok <==> ViewsOk(expected, vs)
    ensures ok ==> Tallied(expected, support, vs, t)
  {
    t := Tally({}, {}, map id | id in support :: {}, {});
    TallyStart(expected, support);
    assert vs[..0] == [];
    for i := 0 to |vs|
      invariant Tallied(expected, support, vs[..i], t)
    {
      var v := vs[i];
      if !v.ok || v.key !in expected || v.key in t.keys || v.runId in t.runIds {
        ViewRefused(expected, support, vs, i, t);
        return false, t;
      }
      TallyStep(expected, support, vs, i, t);
      t := Counted(t, v);
    }
    assert vs[..|vs|] == vs;
    ok := true;
  }

  lemma PairsDecide(expected: set<RecipeKey>, support: map<string, set<Pair>>, vs: seq<View>, t: Tally)
    requires Tallied(expected, support, vs, t)
    ensures t.pairs == support <==> forall id :: id in support ==> ObservedPairs(vs, id) == support[id]
  {
  }

  /** The integration part of `_validate_promotion_evidence`. Counting alone makes the runs
      cover the recipes, so the later comparison of the two sets never fails. */
  method CheckIntegration(expected: set<RecipeKey>, support: map<string, set<Pair>>, vs: seq<View>)
    returns (r: IntegrationResult)
    requires forall k :: k in expected ==> k.id in support
    ensures r.Covered? <==> IntegrationOk(expected, support, vs)
    ensures r.Covered? ==> r.used == UsedBy(vs) && KeysOf(vs) == expected
    ensures r != RecipesUncovered
  {
    if |vs| != |expected| {
      return Unacceptable;
    }
    var ok, t := TallyRuns(expected, support, vs);
    if !ok {
      return Unacceptable;
    }
    CountingCovers(t.keys, expected);
    if t.keys != expected {
      return RecipesUncovered;
    }
    PairsDecide(expected, support, vs, t);
    if t.pairs != support {
      return SupportUncovered;
    }
    return Covered(t.used);
  }

  // ---------- support needs recipes ----------

  /** The keys of one adapter. */
  function KeysFor(expected: set<RecipeKey>, id: string): set<RecipeKey> {
    set k | k in expected && k.id == id
  }

  /** Accepted runs prove each support pair with a recipe of its own, so an adapter has at
      least as many recipes as authentication methods times versions. */
  lemma SupportNeedsRecipes(entries: seq<Entry>, expected: map<RecipeKey, Entry>, support: map<string, set<Pair>>,
                            vs: seq<View>, e: Entry)
    requires MatrixOk(entries) && Expects(entries, expected, support) && IntegrationOk(expected.Keys, support, vs)
    requires e in entries && e.isReal
    ensures |e.authentication| * |e.versions| <= |e.recipes|
  {
    assert EntryOk(e);
    PairCount(e.authentication, e.versions);
    assert ObservedPairs(vs, e.id) == Pairs(e) == Product(e.authentication, e.versions);
    PairsNeedKeys(vs, e.id);
    SubsetSize(KeysFor(KeysOf(vs), e.id), KeysFor(expected.Keys, e.id));
    KeysNeedRecipes(expected, e, entries, support);
  }

  function Product(xs: seq<string>, ys: seq<string>): set<Pair> {
    set a, v | a in xs && v in ys :: (a, v)
  }

  function RowOf(a: string, ys: seq<string>): set<Pair> { set v | v in ys :: (a, v) }

  lemma ProductStep(xs: seq<string>, a: string, ys: seq<string>)
    requires a !in xs
    ensures Product(xs + [a], ys) == Product(xs, ys) + RowOf(a, ys)
    ensures |Product(xs + [a], ys)| == |Product(xs, ys)| + |RowOf(a, ys)|
  {
    assert a in xs + [a];
    assert forall x :: x in xs ==> x in xs + [a];
    assert Product(xs, ys) !! RowOf(a, ys);
  }

  lemma TimesStep(n: nat, m: nat)
    ensures (n + 1) * m == n * m + m
  {
  }

  lemma LastIsNew(xs: seq<string>, n: nat)
    requires NoRepeats(xs) && n + 1 == |xs|
    ensures NoRepeats(xs[..n]) && xs[n] !in xs[..n] && xs == xs[..n] + [xs[n]]
  {
  }

  lemma {:induction false} PairCount(xs: seq<string>, ys: seq<string>)
    requires NoRepeats(xs) && NoRepeats(ys)
    ensures |Product(xs, ys)| == |xs| * |ys|
    decreases |xs|
  {
    if xs == [] {
      assert Product(xs, ys) == {};
    } else {
      var n := |xs| - 1;
      LastIsNew(xs, n);
      PairCount(xs[..n], ys);
      RowCount(xs[n], ys);
      ProductStep(xs[..n], xs[n], ys);
      TimesStep(n, |ys|);
    }
  }

  lemma RowStep(a: string, ys: seq<string>, y: string)
    requires y !in ys
    ensures RowOf(a, ys + [y]) == RowOf(a, ys) + {(a, y)} && (a, y) !in RowOf(a, ys)
  {
    assert y in ys + [y];
    assert forall x :: x in ys ==> x in ys + [y];
  }

  lemma {:induction false} RowCount(a: string, ys: seq<string>)
    requires NoRepeats(ys)
    ensures |RowOf(a, ys)| == |ys|
    decreases |ys|
  {
    if ys == [] {
      assert RowOf(a, ys) == {};
    } else {
      var n := |ys| - 1;
      LastIsNew(ys, n);
      RowCount(a, ys[..n]);
      RowStep(a, ys[..n], ys[n]);
    }
  }

  lemma ViewStep(vs: seq<View>, v: View, id: string)
    ensures ObservedPairs(vs + [v], id) == ObservedPairs(vs, id) + (if v.key.id == id then {v.pair} else {})
    ensures KeysFor(KeysOf(vs + [v]), id) == KeysFor(KeysOf(vs), id) + (if v.key.id == id then {v.key} else {})
    ensures KeysOf(vs + [v]) == KeysOf(vs) + {v.key}
  {
    assert v in vs + [v];
    assert forall x :: x in vs ==> x in vs + [v];
  }

  lemma FreshKey(vs: seq<View>, n: nat)
    requires DistinctViews(vs) && n < |vs|
    ensures vs[n].key !in KeysOf(vs[..n])
  {
    forall v | v in vs[..n]
      ensures v.key != vs[n].key
    {
      var i :| 0 <= i < n && vs[..n][i] == v;
    }
  }

  /** Distinct pairs come from runs with distinct keys. */
  lemma {:induction false} PairsNeedKeys(vs: seq<View>, id: string)
    requires DistinctViews(vs)
    ensures |ObservedPairs(vs, id)| <= |KeysFor(KeysOf(vs), id)|
    decreases |vs|
  {
    if vs == [] {
      assert ObservedPairs(vs, id) == {};
    } else {
      var n := |vs| - 1;
      assert vs == vs[..n] + [vs[n]];
      PairsNeedKeys(vs[..n], id);
      FreshKey(vs, n);
      ViewStep(vs[..n], vs[n], id);
    }
  }

  lemma KeysNeedRecipes(expected: map<RecipeKey, Entry>, e: Entry, entries: seq<Entry>, support: map<string, set<Pair>>)
    requires MatrixOk(entries) && Expects(entries, expected, support) && e in entries && e.isReal
    ensures |KeysFor(expected.Keys, e.id)| <= |e.recipes|
  {
    var keys := KeysFor(expected.Keys, e.id);
    forall k | k in keys
      ensures k.recipe in e.recipes
    {
      var x := expected[k];
      assert x == e by {
        var i :| 0 <= i < |entries| && entries[i] == x;
        var j :| 0 <= j < |entries| && entries[j] == e;
      }
    }
    KeyImages(keys, e.id, Elements(e.recipes));
    CountsDistinct(e.recipes);
  }

  lemma {:induction false} KeyImages(keys: set<RecipeKey>, id: string, recipes: set<Recipe>)
    requires forall k :: k in keys ==> k.id == id && k.recipe in recipes
    ensures |keys| <= |recipes|
    decreases |keys|
  {
    if keys != {} {
      var k :| k in keys;
      KeyImages(keys - {k}, id, recipes - {k.recipe});
    }
  }
}
