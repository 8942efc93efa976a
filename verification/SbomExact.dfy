/** Exactly when the aggregate of verified platforms is valid. */
module SbomExact {
  import opened Common
  import opened Sbom
  import opened SbomPlatform
  import opened SbomAggregate
  import SbomAggregateValid

  /** Two files with the same digest would get the same reference. */
  lemma DigestsMustDiffer(a: Case)
    requires a.Produced() && DistinctRefs(a.Cs())
    ensures DistinctDigests(a.artifacts)
  {
    forall f, g | f in a.artifacts && g in a.artifacts && a.artifacts[f] == a.artifacts[g]
      ensures f == g
    {
      var c, d := ReleaseComponent(a.n, f, a.artifacts[f]), ReleaseComponent(a.n, g, a.artifacts[g]);
      CandidateCases(a.n, a.platforms, a.artifacts, a.s, Candidate(c, false));
      CandidateCases(a.n, a.platforms, a.artifacts, a.s, Candidate(d, false));
      SameRefSameCandidate(a.Cs(), Candidate(c, false), Candidate(d, false));
      assert c.name == Some(f) && d.name == Some(g);
    }
  }

  /** A runtime reference equal to the bundle's or to a file's would occur twice. */
  lemma RefsMustBeApart(a: Case)
    requires a.Produced() && DistinctRefs(a.Cs())
    ensures RefsApart(a.platforms, a.artifacts)
  {
    forall p, x: string | p in a.platforms && x in RuntimeRefs(Cands(p))
      ensures x != BUNDLE_REF
    {
      RefApart(a, p, x);
    }
    forall p, x: string | p in a.platforms && x in RuntimeRefs(Cands(p))
      ensures x !in ReleaseRefs(a.artifacts)
    {
      RefApart(a, p, x);
    }
  }

  lemma RefApart(a: Case, p: Platform, x: string)
    requires a.Produced() && DistinctRefs(a.Cs()) && p in a.platforms && x in RuntimeRefs(Cands(p))
    ensures x != BUNDLE_REF && x !in ReleaseRefs(a.artifacts)
  {
    var k :| k in Cands(p) && IsRuntime(k) && Ref(k) == x;
    var m := CarriedOver(a, p, k);
    NotTheDocument(a, m);
    NotAnArtifact(a, m);
  }

  lemma NotTheDocument(a: Case, m: Candidate)
    requires a.Produced() && DistinctRefs(a.Cs()) && m in a.Cs() && IsRuntime(m)
    ensures Ref(m) != BUNDLE_REF
  {
    var document := Candidate(DOCUMENT, true);
    CandidateCases(a.n, a.platforms, a.artifacts, a.s, document);
    ClassCases(a, m);
    if Ref(m) == BUNDLE_REF {
      SameRefSameCandidate(a.Cs(), m, document);
    }
  }

  lemma NotAnArtifact(a: Case, m: Candidate)
    requires a.Produced() && DistinctRefs(a.Cs()) && m in a.Cs() && IsRuntime(m)
    ensures Ref(m) !in ReleaseRefs(a.artifacts)
  {
    if Ref(m) in ReleaseRefs(a.artifacts) {
      var f :| f in a.artifacts && ReleaseRef(a.artifacts[f]) == Ref(m);
      var released := Candidate(ReleaseComponent(a.n, f, a.artifacts[f]), false);
      ClassCases(a, released);
      SameRefSameCandidate(a.Cs(), m, released);
    }
  }

  /** A distribution with two references would have two runtime components. */
  lemma RefsMustFollowNames(a: Case)
    requires a.Produced() && Classified(a.n, a.Cs(), a.installed)
    ensures RefsByName(a.n, a.platforms)
  {
    forall p, q, k, m, d
      | p in a.platforms && q in a.platforms && k in Cands(p) && m in Cands(q) && RuntimeOf(a.n, k, d)
        && RuntimeOf(a.n, m, d)
      ensures Ref(k) == Ref(m)
    {
      var k' := CarriedOver(a, p, k);
      var m' := CarriedOver(a, q, m);
      RuntimeOnce(a.n, a.Cs(), a.installed, k', m', d);
    }
  }

  /** Different carried components with the same reference would repeat it. */
  lemma PlatformsMustAgree(a: Case)
    requires a.Produced() && DistinctRefs(a.Cs())
    ensures RefAgreement(a.platforms)
  {
    forall c, d | c in Carried(a.platforms) && d in Carried(a.platforms) && SameRef(c, d)
      ensures c == d
    {
      CandidateCases(a.n, a.platforms, a.artifacts, a.s, Candidate(c, false));
      CandidateCases(a.n, a.platforms, a.artifacts, a.s, Candidate(d, false));
      SameRefSameCandidate(a.Cs(), Candidate(c, false), Candidate(d, false));
    }
  }

  lemma AllAreGenerated(n: Naming, fp: FirstParty, platforms: seq<Platform>)
    requires forall p :: p in platforms ==> Valid(n, fp, p.sbom, p.artifacts, p.installed) && Generated(n, fp, p)
    ensures AllGenerated(n, fp, platforms)
  {
  }

  lemma ValidNeeds(a: Case)
    requires a.Produced() && Valid(a.n, a.fp, a.s, a.artifacts, a.installed)
    ensures DistinctDigests(a.artifacts) && RefsApart(a.platforms, a.artifacts)
    ensures RefsByName(a.n, a.platforms) && RefAgreement(a.platforms)
  {
    DigestsMustDiffer(a);
    RefsMustBeApart(a);
    RefsMustFollowNames(a);
    PlatformsMustAgree(a);
  }

  /** Each platform's SBOM is valid for its own artifacts and installed set. */
  ghost predicate Verified(n: Naming, fp: FirstParty, platforms: seq<Platform>) {
    && platforms != [] && NamingOk(n, fp)
    && forall p :: p in platforms ==> Valid(n, fp, p.sbom, p.artifacts, p.installed) && Generated(n, fp, p)
  }

  /** No two files have the same digest, runtime references stay apart from the references
      handed out here and depend only on the distribution name, and the platforms agree on
      what each reference stands for. */
  ghost predicate Compatible(n: Naming, platforms: seq<Platform>, artifacts: map<string, string>) {
    && DistinctDigests(artifacts) && RefsApart(platforms, artifacts)
    && RefsByName(n, platforms) && RefAgreement(platforms)
  }

  lemma CompatibleSuffices(a: Case)
    requires Verified(a.n, a.fp, a.platforms) && Merged(a.platforms, a.artifacts, a.installed)
    requires IsAggregate(a.n, a.platforms, a.artifacts, a.s) && Compatible(a.n, a.platforms, a.artifacts)
    ensures Valid(a.n, a.fp, a.s, a.artifacts, a.installed)
  {
    SbomAggregateValid.AggregationPreservesValidity(a.n, a.fp, a.platforms, a.artifacts, a.installed, a.s);
  }

  lemma CompatibleNeeded(a: Case)
    requires Verified(a.n, a.fp, a.platforms) && IsAggregate(a.n, a.platforms, a.artifacts, a.s)
    requires Valid(a.n, a.fp, a.s, a.artifacts, a.installed)
    ensures Compatible(a.n, a.platforms, a.artifacts)
  {
    AllAreGenerated(a.n, a.fp, a.platforms);
    ValidNeeds(a);
  }

  /** The aggregate of verified platforms is valid for the merged artifacts and installed set
      exactly when the platforms are compatible. */
  lemma AggregateValidIff(a: Case)
    requires Verified(a.n, a.fp, a.platforms) && Merged(a.platforms, a.artifacts, a.installed)
    requires IsAggregate(a.n, a.platforms, a.artifacts, a.s)
    ensures Valid(a.n, a.fp, a.s, a.artifacts, a.installed) <==> Compatible(a.n, a.platforms, a.artifacts)
  {
    if Valid(a.n, a.fp, a.s, a.artifacts, a.installed) {
      CompatibleNeeded(a);
    } else if Compatible(a.n, a.platforms, a.artifacts) {
      CompatibleSuffices(a);
    }
  }

  /** In particular, two files with the same digest make it invalid. */
  lemma SameDigestInvalid(a: Case, f: string, g: string)
    requires Verified(a.n, a.fp, a.platforms) && Merged(a.platforms, a.artifacts, a.installed)
    requires IsAggregate(a.n, a.platforms, a.artifacts, a.s)
    requires f in a.artifacts && g in a.artifacts && f != g && a.artifacts[f] == a.artifacts[g]
    ensures !Valid(a.n, a.fp, a.s, a.artifacts, a.installed)
  {
    AggregateValidIff(a);
  }

  lemma VerifiedPair(n: Naming, fp: FirstParty, p: Platform, q: Platform)
    requires NamingOk(n, fp)
    requires Valid(n, fp, p.sbom, p.artifacts, p.installed) && Generated(n, fp, p)
    requires Valid(n, fp, q.sbom, q.artifacts, q.installed) && Generated(n, fp, q)
    ensures Verified(n, fp, [p, q])
  {
  }

  lemma VerifiedOne(n: Naming, fp: FirstParty, p: Platform)
    requires NamingOk(n, fp) && Valid(n, fp, p.sbom, p.artifacts, p.installed) && Generated(n, fp, p)
    ensures Verified(n, fp, [p])
  {
  }
}
