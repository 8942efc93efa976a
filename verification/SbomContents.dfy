/** What stands in a release SBOM, said of the platforms' own records. */
module SbomContents {
  import opened Common
  import opened Sbom
  import opened SbomPlatform
  import opened SbomAggregate

  // ---------- components ----------

  /** The platform describes the component, in its list or as its subject. */
  ghost predicate Describes(p: Platform, c: Component) {
    c in p.sbom.components || p.sbom.metadata == Some(c)
  }

  /** Marked as one of the files of the release. */
  predicate Marked(c: Component) {
    "graphblocks:release-artifact" in c.properties && c.properties["graphblocks:release-artifact"] == "true"
  }

  predicate Public(x: External) { !x.archive }

  /** `ys` are the references of `xs` that do not lead to a local archive, in order. */
  ghost predicate PublicOf(xs: seq<External>, ys: seq<External>) {
    exists at :: Picks(xs, Public, ys, at)
  }

  /** `d` is `c` as the release publishes it: its local archive references are gone, with the list if
      that leaves none, and everything else is as it was. */
  ghost predicate PublishedAs(c: Component, d: Component) {
    && d.kind == c.kind && d.name == c.name && d.version == c.version && d.bomRef == c.bomRef
    && d.sha256 == c.sha256 && d.properties == c.properties && d.rest == c.rest
    && match (c.external, d.external)
       case (None, None) => true
       case (Some(xs), Some(ys)) => PublicOf(xs, ys) && (ys == [] ==> xs == [])
       case (Some(xs), None) => xs != [] && forall x :: x in xs ==> x.archive
       case (None, Some(_)) => false
  }

  ghost predicate Unpublished(c: Component) {
    c.external.Some? && exists x :: x in c.external.value && x.archive
  }

  /** `d` describes the released file. */
  ghost predicate DescribesFile(n: Naming, f: string, sha: string, d: Component) {
    && d.kind == "file" && d.name == Some(f) && d.version.None? && d.sha256 == [sha] && d.external.None?
    && d.bomRef == Some("urn:sha256:" + sha)
    && d.properties.Keys == {"graphblocks:release-artifact", "graphblocks:distribution", "graphblocks:version",
                             "graphblocks:artifact-type"}
    && d.properties["graphblocks:release-artifact"] == "true"
    && d.properties["graphblocks:artifact-type"] == n.artifactType(f)
    && (n.identity(f).Some? ==>
          (d.properties["graphblocks:distribution"], d.properties["graphblocks:version"]) == n.identity(f).value)
  }

  lemma {:induction false} RetainedPicks(xs: seq<External>) returns (at: seq<nat>)
    ensures Picks(xs, Public, Retained(xs), at)
    decreases |xs|
  {
    if xs == [] {
      at := [];
    } else {
      var n := |xs| - 1;
      at := RetainedPicks(xs[..n]);
      PicksNext(xs[..n], xs[n], Public, Retained(xs[..n]), at);
      assert xs[..n] + [xs[n]] == xs;
      if !xs[n].archive {
        at := at + [n];
      }
    }
  }

  /** Picking everything changes nothing. */
  lemma {:induction false} PicksAll<T(!new)>(xs: seq<T>, keep: T -> bool, ys: seq<T>, at: seq<nat>)
    requires Picks(xs, keep, ys, at) && |ys| == |xs|
    ensures ys == xs
  {
    forall j | 0 <= j < |at| ensures at[j] == j {
      AtLeast(at, j);
      AtMost(at, |xs|, j);
    }
  }

  lemma {:induction false} AtLeast(at: seq<nat>, j: nat)
    requires j < |at| && forall i, k :: 0 <= i < k < |at| ==> at[i] < at[k]
    ensures at[j] >= j
  {
    if j > 0 {
      AtLeast(at, j - 1);
    }
  }

  lemma {:induction false} AtMost(at: seq<nat>, n: nat, j: nat)
    requires j < |at| == n && (forall i, k :: 0 <= i < k < |at| ==> at[i] < at[k])
    requires forall i :: 0 <= i < |at| ==> at[i] < n
    ensures at[j] <= j
    decreases n - j
  {
    if j < n - 1 {
      AtMost(at, n, j + 1);
    }
  }

  /** Nothing is picked exactly when nothing is to be kept. */
  lemma PicksNone<T(!new)>(xs: seq<T>, keep: T -> bool, ys: seq<T>, at: seq<nat>)
    requires Picks(xs, keep, ys, at)
    ensures ys == [] <==> forall x :: x in xs ==> !keep(x)
  {
    if ys != [] {
      assert xs[at[0]] in xs;
    }
  }

  lemma PicksKept<T(!new)>(xs: seq<T>, keep: T -> bool, ys: seq<T>, at: seq<nat>)
    requires Picks(xs, keep, ys, at)
    ensures forall y :: y in ys ==> keep(y)
  {
  }

  lemma StrippedPublishes(c: Component)
    ensures PublishedAs(c, Stripped(c)) && !Unpublished(Stripped(c))
  {
    if c.external.Some? {
      var xs := c.external.value;
      var at := RetainedPicks(xs);
      PicksNone(xs, Public, Retained(xs), at);
      PicksKept(xs, Public, Retained(xs), at);
      if |Retained(xs)| == |xs| {
        PicksAll(xs, Public, Retained(xs), at);
      }
    }
  }

  lemma CandidatesDescribed(p: Platform, c: Component)
    ensures Describes(p, c) <==> exists k :: k in Cands(p) && k.component == c
  {
    var cs := Cands(p);
    if c in p.sbom.components {
      var i :| 0 <= i < |p.sbom.components| && p.sbom.components[i] == c;
      assert cs[i] in cs && cs[i].component == c;
    }
    if p.sbom.metadata == Some(c) {
      assert cs[|p.sbom.components|] in cs;
    }
  }

  ghost predicate Carries(platforms: seq<Platform>, c: Component) {
    exists p :: p in platforms && Describes(p, c) && !Marked(c)
  }

  lemma CarriedAre(platforms: seq<Platform>, d: Component)
    ensures d in Carried(platforms) <==> exists c :: Carries(platforms, c) && d == Stripped(c)
  {
    if d in Carried(platforms) {
      var p, k :| p in platforms && k in Cands(p) && !IsArtifact(k.component) && d == Stripped(k.component);
      CandidatesDescribed(p, k.component);
      assert Carries(platforms, k.component);
    }
    if c :| Carries(platforms, c) && d == Stripped(c) {
      var p :| p in platforms && Describes(p, c) && !Marked(c);
      CandidatesDescribed(p, c);
      var k :| k in Cands(p) && k.component == c;
    }
  }

  lemma ReleasedAre(n: Naming, f: string, sha: string)
    ensures DescribesFile(n, f, sha, ReleaseComponent(n, f, sha))
  {
  }

  /** Every component of a platform that is not a file of the release is in the aggregate, as it is
      published, and every file of the release; there is nothing else, and no local archive is
      mentioned. */
  lemma AggregateComponents(n: Naming, platforms: seq<Platform>, artifacts: map<string, string>, s: Bom)
    requires IsAggregate(n, platforms, artifacts, s)
    ensures forall c :: Carries(platforms, c) ==> exists d :: d in s.components && PublishedAs(c, d)
    ensures forall f :: f in artifacts ==> exists d :: d in s.components && DescribesFile(n, f, artifacts[f], d)
    ensures forall d :: d in s.components ==>
      || (exists c :: Carries(platforms, c) && PublishedAs(c, d))
      || (exists f :: f in artifacts && DescribesFile(n, f, artifacts[f], d))
    ensures forall d :: d in s.components ==> !Unpublished(d)
  {
    forall c | Carries(platforms, c) ensures exists d :: d in s.components && PublishedAs(c, d) {
      CarriedAre(platforms, Stripped(c));
      StrippedPublishes(c);
    }
    forall f | f in artifacts ensures exists d :: d in s.components && DescribesFile(n, f, artifacts[f], d) {
      ReleasedAre(n, f, artifacts[f]);
      assert ReleaseComponent(n, f, artifacts[f]) in Released(n, artifacts);
    }
    forall d | d in s.components
      ensures !Unpublished(d)
      ensures (exists c :: Carries(platforms, c) && PublishedAs(c, d))
        || (exists f :: f in artifacts && DescribesFile(n, f, artifacts[f], d))
    {
      if d in Carried(platforms) {
        CarriedAre(platforms, d);
        var c :| Carries(platforms, c) && d == Stripped(c);
        StrippedPublishes(c);
      } else {
        var f :| f in artifacts && d == ReleaseComponent(n, f, artifacts[f]);
        ReleasedAre(n, f, artifacts[f]);
      }
    }
  }

  // ---------- dependencies ----------

  /** Some row says that the first depends on the second. */
  ghost predicate DependsOn(rows: seq<Row>, x: string, y: string) {
    exists r :: r in rows && r.ref == x && y in r.dependsOn
  }

  lemma DepsMeans(rows: seq<Row>, x: string, y: string)
    ensures y in Deps(rows, x) <==> DependsOn(rows, x, y)
  {
  }

  /** The bundle depends on the files of the release, and anything else on what some platform says. */
  lemma AggregateDependencies(n: Naming, platforms: seq<Platform>, artifacts: map<string, string>, s: Bom, x: string,
                              y: string)
    requires IsAggregate(n, platforms, artifacts, s)
    ensures DependsOn(s.dependencies, x, y) <==>
      if x == "urn:graphblocks:release-bundle:1.0" then exists f :: f in artifacts && y == "urn:sha256:" + artifacts[f]
      else exists p :: p in platforms && DependsOn(p.sbom.dependencies, x, y)
    ensures s.format == "CycloneDX" && s.spec == "1.6"
    ensures s.metadata == Some(Component("application", Some("graphblocks-release-bundle"), Some("1.0"),
                                         Some("urn:graphblocks:release-bundle:1.0"), [], map[], None, 0))
  {
    DepsMeans(s.dependencies, x, y);
    if x == BUNDLE_REF {
      assert y in ReleaseRefs(artifacts) <==> exists f :: f in artifacts && y == ReleaseRef(artifacts[f]);
    } else {
      forall p | p in platforms ensures y in Deps(Rows(p), x) <==> DependsOn(p.sbom.dependencies, x, y) {
        DepsMeans(Rows(p), x, y);
      }
    }
  }
}
