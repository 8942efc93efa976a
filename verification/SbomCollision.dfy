/** Under the first-party table of the release, a release of one platform that is valid, and one of
    two platforms that is not: they release wheels with different names and the same content. */
module SbomCollision {
  import opened Common
  import opened Sbom
  import opened SbomPlatform
  import opened SbomAggregate
  import opened SbomBuild
  import opened SbomRoster
  import opened WheelNames
  import SbomExact

  /** `FIRST_PARTY_RUNTIME_DEPENDENCIES`, as lists. */
  const GRAPHBLOCKS_DEPS := ["graphblocks-runtime", "jsonschema", "packaging", "pyyaml", "referencing"]
  const TESTING_DEPS := ["graphblocks", "graphblocks-runtime", "packaging"]

  function DependencyLists(): map<string, seq<string>> {
    map["graphblocks" := GRAPHBLOCKS_DEPS, "graphblocks-runtime" := [], "graphblocks-testing" := TESTING_DEPS]
  }

  function FirstParties(): FirstParty { map d | d in DependencyLists() :: Elements(DependencyLists()[d]) }

  const DISTRIBUTIONS := [
    "graphblocks", "graphblocks-runtime", "graphblocks-testing", "jsonschema", "packaging", "pyyaml", "referencing"]

  function Sha(): (s: string)
    ensures |s| == 64 && forall i :: 0 <= i < |s| ==> s[i] == '0'
  {
    seq(64, _ => '0')
  }

  function Release(): Roster {
    Roster(WheelNaming(), FirstParties(), DISTRIBUTIONS, DependencyLists(), "1.0", Sha())
  }

  // ---------- the table ----------

  lemma NamesApart()
    ensures NoRepeats(DISTRIBUTIONS) && NoRepeats(GRAPHBLOCKS_DEPS) && NoRepeats(TESTING_DEPS)
  {
  }

  lemma DependenciesListed(e: string)
    requires e in GRAPHBLOCKS_DEPS || e in TESTING_DEPS
    ensures e in DISTRIBUTIONS
  {
    var ds := DISTRIBUTIONS;
    assert ds[0] in ds && ds[1] in ds && ds[3] in ds && ds[4] in ds && ds[5] in ds && ds[6] in ds;
  }

  /** Small letters, with single dashes between them. */
  predicate Plain(s: string) {
    NoRuns(s) && forall i :: 0 <= i < |s| ==> 'a' <= s[i] <= 'z' || s[i] == '-'
  }

  lemma PlainFine(s: string)
    requires Plain(s) && s != ""
    ensures Canonical(s) == s && Printable(s)
  {
    CanonicalWithoutRuns(s);
    assert EachChar(s) == s;
  }

  lemma WordPlain(s: string, k: nat)
    requires forall i :: 0 <= i < |s| && i != k ==> 'a' <= s[i] <= 'z'
    requires k < |s| ==> s[k] == '-'
    ensures Plain(s)
  {
    OneSeparator(s, k);
  }

  lemma RuntimePlain()
    ensures Plain("graphblocks-runtime")
  {
    WordPlain("graphblocks-runtime", 11);
  }

  lemma TestingPlain()
    ensures Plain("graphblocks-testing")
  {
    WordPlain("graphblocks-testing", 11);
  }

  lemma OthersPlain(d: string)
    requires d in ["graphblocks", "jsonschema", "packaging", "pyyaml", "referencing"]
    ensures Plain(d)
  {
    WordPlain(d, |d|);
  }

  lemma Listed(d: string)
    requires d in DISTRIBUTIONS
    ensures d == "graphblocks-runtime" || d == "graphblocks-testing"
      || d in ["graphblocks", "jsonschema", "packaging", "pyyaml", "referencing"]
  {
    var os := ["graphblocks", "jsonschema", "packaging", "pyyaml", "referencing"];
    assert os[0] in os && os[1] in os && os[2] in os && os[3] in os && os[4] in os;
  }

  lemma DistributionSizes(d: string)
    requires d in DISTRIBUTIONS
    ensures d != "" && d[0] != 'u' && |d| <= 19
  {
  }

  lemma DistributionPlain(d: string)
    requires d in DISTRIBUTIONS
    ensures Plain(d) && d != "" && d[0] != 'u' && |d| <= 19
  {
    DistributionSizes(d);
    Listed(d);
    if d == "graphblocks-runtime" {
      RuntimePlain();
    } else if d == "graphblocks-testing" {
      TestingPlain();
    } else {
      OthersPlain(d);
    }
  }

  lemma DistributionFine(d: string)
    requires d in DISTRIBUTIONS
    ensures Canonical(d) == d && Printable(d) && d[0] != 'u' && |d| <= 19
  {
    DistributionPlain(d);
    PlainFine(d);
  }

  lemma BundleNameLong()
    ensures |Canonical(BUNDLE_NAME)| > 19
  {
    CanonicalWithoutRuns(BUNDLE_NAME);
  }

  lemma FirstPartyCases(d: string)
    requires d in FirstParties()
    ensures d in DISTRIBUTIONS && forall e :: e in FirstParties()[d] ==> e in DISTRIBUTIONS
  {
    var ds := DISTRIBUTIONS;
    assert ds[0] in ds && ds[1] in ds && ds[2] in ds;
    forall e | e in FirstParties()[d] ensures e in ds {
      assert e in DependencyLists()[d];
      DependenciesListed(e);
    }
  }

  lemma ReleaseNames()
    ensures NamingOk(WheelNaming(), FirstParties())
  {
    BundleNameLong();
    forall d | d in FirstParties()
      ensures d != Canonical(BUNDLE_NAME) && Canonical(BUNDLE_NAME) !in FirstParties()[d]
    {
      FirstPartyCases(d);
      DistributionFine(d);
      forall e | e in FirstParties()[d] ensures e != Canonical(BUNDLE_NAME) {
        DistributionFine(e);
      }
    }
  }

  lemma ReleaseTable()
    ensures Release().TableOk()
  {
    NamesApart();
    ReleaseNames();
    forall d | d in FirstParties()
      ensures d in DISTRIBUTIONS && forall e :: e in FirstParties()[d] ==> e in DISTRIBUTIONS
    {
      FirstPartyCases(d);
    }
    forall d | d in DISTRIBUTIONS
      ensures NoRepeats(Release().DepsOf(d))
      ensures Elements(Release().DepsOf(d)) == (if d in FirstParties() then FirstParties()[d] else {})
    {
      ListsApart(d);
    }
  }

  lemma ListsApart(d: string)
    ensures NoRepeats(Release().DepsOf(d))
  {
    NamesApart();
  }

  lemma ReleaseTexts()
    ensures Release().TextsOk()
  {
    assert ReleaseRef(Sha())[0] == 'u' && BUNDLE_REF[0] == 'u';
    forall d | d in DISTRIBUTIONS
      ensures Printable(d) && Canonical(d) == d && d != BUNDLE_REF && d != ReleaseRef(Sha())
    {
      DistributionFine(d);
    }
  }

  lemma ReleaseOk()
    ensures Release().Ok()
  {
    ReleaseTable();
    ReleaseTexts();
  }

  // ---------- two wheels ----------

  function WheelFor(platform: string): string { WheelName("graphblocks_runtime", "1.0", "cp311", "abi3", platform) }

  const LINUX := "manylinux_2_28_x86_64"
  const WINDOWS := "win_amd64"

  lemma LongNotListed(f: string)
    requires |Canonical(f)| > 19
    ensures Canonical(f) !in DISTRIBUTIONS
  {
    if Canonical(f) in DISTRIBUTIONS {
      DistributionSizes(Canonical(f));
    }
  }

  lemma PrefixLong()
    ensures |Canonical("graphblocks_runtime-")| == 20
  {
    var s := "graphblocks_runtime-";
    assert forall i :: 0 <= i < |s| && i != 11 && i != 19 ==> !IsSeparator(s[i]);
    CanonicalWithoutRuns(s);
  }

  lemma WheelLong(platform: string)
    ensures |Canonical(WheelFor(platform))| > 19
  {
    var rest := "1.0" + "-" + ("cp311" + "-" + ("abi3" + "-" + platform)) + ".whl";
    PrefixLong();
    CanonicalGrows(WheelFor(platform), 20);
    assert WheelFor(platform) == "graphblocks_runtime-" + rest;
  }

  lemma RuntimeName()
    ensures Canonical("graphblocks_runtime") == "graphblocks-runtime"
  {
    OneSeparator("graphblocks_runtime", 11);
    CanonicalWithoutRuns("graphblocks_runtime");
    assert EachChar("graphblocks_runtime") == "graphblocks-runtime";
  }

  lemma WheelSuits(platform: string)
    requires '-' !in platform
    ensures Release().Suits(WheelFor(platform))
  {
    WheelNameParses("graphblocks_runtime", "1.0", "cp311", "abi3", platform);
    RuntimeName();
    WheelLong(platform);
    LongNotListed(WheelFor(platform));
  }

  /** The release table, and two wheels of the runtime distribution. */
  lemma TwoWheels() returns (r: Roster, f: string, g: string)
    ensures r.Ok() && r.Suits(f) && r.Suits(g) && f != g
  {
    r, f, g := Release(), WheelFor(LINUX), WheelFor(WINDOWS);
    ReleaseOk();
    WheelSuits(LINUX);
    WheelSuits(WINDOWS);
    assert |f| != |g|;
  }

  // ---------- a release that is valid ----------

  lemma OneReleasable(r: Roster, f: string) returns (a: Case)
    requires r.Ok() && r.Suits(f)
    ensures SbomExact.Verified(a.n, a.fp, a.platforms) && Merged(a.platforms, a.artifacts, a.installed)
    ensures SbomExact.Compatible(a.n, a.platforms, a.artifacts)
  {
    a := Case(r.n, r.fp, [r.With(f)], map[f := r.sha], r.Installed(), Bom("", "", [], None, []));
    SingleVerified(r, f);
    SingleMerges(r, f);
    SingleCompatible(r, f);
  }

  lemma SingleVerified(r: Roster, f: string)
    requires r.Ok() && r.Suits(f)
    ensures SbomExact.Verified(r.n, r.fp, [r.With(f)])
  {
    RosterValid(r, f);
    SbomExact.VerifiedOne(r.n, r.fp, r.With(f));
  }

  lemma SingleMerges(r: Roster, f: string)
    ensures Merged([r.With(f)], map[f := r.sha], r.Installed())
  {
    assert r.With(f) in [r.With(f)];
  }

  lemma SingleCompatible(r: Roster, f: string)
    requires r.Ok() && r.Suits(f)
    ensures SbomExact.Compatible(r.n, [r.With(f)], map[f := r.sha])
  {
    RosterLean(r, f);
    LeanAgree(r, [r.With(f)]);
    LeanByName(r, [r.With(f)]);
    LeanApart(r, [r.With(f)], map[f := r.sha]);
  }

  /** One wheel alone: the platform is verified, and its aggregate is valid. */
  lemma AggregateValid() returns (a: Case)
    ensures SbomExact.Verified(a.n, a.fp, a.platforms) && Merged(a.platforms, a.artifacts, a.installed)
    ensures IsAggregate(a.n, a.platforms, a.artifacts, a.s) && Valid(a.n, a.fp, a.s, a.artifacts, a.installed)
  {
    var r, f, g := TwoWheels();
    a := OneReleasable(r, f);
    var s := AggregateExists(a.n, a.platforms, a.artifacts);
    a := a.(s := s);
    SbomExact.AggregateValidIff(a);
  }

  // ---------- and one that is not ----------

  function Pair(r: Roster, f: string, g: string): seq<Platform> { [r.With(f), r.With(g)] }

  function PairFiles(r: Roster, f: string, g: string): map<string, string> { map[f := r.sha, g := r.sha] }

  lemma PairCollides(r: Roster, f: string, g: string)
    ensures f in PairFiles(r, f, g) && g in PairFiles(r, f, g) && PairFiles(r, f, g)[f] == PairFiles(r, f, g)[g]
  {
  }

  lemma PairVerified(r: Roster, f: string, g: string)
    requires r.Ok() && r.Suits(f) && r.Suits(g)
    ensures SbomExact.Verified(r.n, r.fp, Pair(r, f, g))
  {
    RosterValid(r, f);
    RosterValid(r, g);
    SbomExact.VerifiedPair(r.n, r.fp, r.With(f), r.With(g));
  }

  lemma PairMerges(r: Roster, f: string, g: string)
    ensures Merged(Pair(r, f, g), PairFiles(r, f, g), r.Installed())
  {
    assert r.With(f) in Pair(r, f, g) && r.With(g) in Pair(r, f, g);
  }

  lemma PairAgrees(r: Roster, f: string, g: string)
    requires r.Suits(f) && r.Suits(g)
    ensures RefAgreement(Pair(r, f, g))
  {
    RosterLean(r, f);
    RosterLean(r, g);
    LeanAgree(r, Pair(r, f, g));
  }

  lemma TwoPlatforms(r: Roster, f: string, g: string) returns (a: Case)
    requires r.Ok() && r.Suits(f) && r.Suits(g)
    ensures SbomExact.Verified(a.n, a.fp, a.platforms) && Merged(a.platforms, a.artifacts, a.installed)
    ensures RefAgreement(a.platforms)
    ensures f in a.artifacts && g in a.artifacts && a.artifacts[f] == a.artifacts[g]
  {
    a := Case(r.n, r.fp, Pair(r, f, g), PairFiles(r, f, g), r.Installed(), Bom("", "", [], None, []));
    PairVerified(r, f, g);
    PairMerges(r, f, g);
    PairAgrees(r, f, g);
    PairCollides(r, f, g);
  }

  /** Two wheels with the same content: the platforms are verified, merge and agree on every
      reference, and their aggregate is not valid. */
  lemma AggregateNotValid() returns (a: Case)
    ensures SbomExact.Verified(a.n, a.fp, a.platforms) && Merged(a.platforms, a.artifacts, a.installed)
    ensures !CannotAggregate(a.n, a.platforms, a.artifacts) && IsAggregate(a.n, a.platforms, a.artifacts, a.s)
    ensures !Valid(a.n, a.fp, a.s, a.artifacts, a.installed)
  {
    var r, f, g := TwoWheels();
    a := TwoPlatforms(r, f, g);
    VerifiedIsGraphable(a.n, a.fp, a.platforms);
    GraphableAggregates(a.n, a.platforms, a.artifacts, a.installed);
    var s := AggregateExists(a.n, a.platforms, a.artifacts);
    a := a.(s := s);
    SbomExact.SameDigestInvalid(a, f, g);
  }
}
