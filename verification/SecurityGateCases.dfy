/** Inputs on which the security-gate validator differs from the builder. */
module SecurityGateCases {
  import opened Common
  import opened GateReport
  import opened PythonJson
  import opened SecurityGates

  /** In a buildable input any other commit is accepted as well, whatever its form. */
  lemma AnyCommitAccepted(host: Host, inp: Inputs, junit: Bytes, name: string, commit: string)
    requires Buildable(host, inp, junit, name) && host.isDigest(host.sha256(junit))
    ensures var other := inp.(commit := commit);
            && Admits(host, other, Some(junit), Some(name), ResultFor(host, other, name, host.sha256(junit)))
            && (Buildable(host, other, junit, name) <==> host.isCommit(commit))
  {
    var x := ExpectOf(host, inp.manifest, Some(junit), Some(name));
    assert IdentityOk(host, x, name, host.sha256(junit));
  }

  // ---------- results that are too long ----------

  /** The string occurs as a value somewhere inside. */
  ghost predicate Holds(v: Json, s: string) {
    match v
    case Str(x) => x == s
    case List(items) => exists i :: 0 <= i < |items| && Holds(items[i], s)
    case Obj(fields) => exists k :: k in fields && Holds(fields[k], s)
    case _ => false
  }

  /** The encoding of a value is at least as long as every string it holds. */
  ghost predicate KeepsLength(host: Host) {
    forall v, s :: Holds(v, s) ==> |s| <= |host.encode(v)|
  }

  lemma RecordHolds(names: seq<string>, values: seq<Json>, i: nat, s: string)
    requires i < |names| == |values| && NoRepeats(names) && Holds(values[i], s)
    ensures Holds(Record(names, values), s)
  {
    TableAt(names, values, i);
  }

  /** The artifact name is part of the result. */
  lemma ResultHoldsName(host: Host, inp: Inputs, name: string, digest: string)
    ensures Holds(ResultFor(host, inp, name, digest), name)
  {
    KeysDistinct();
    var m := inp.manifest;
    RecordHolds(JUNIT_KEYS, [Str(name), Str(m.junitFile), Str(digest)], 0, name);
    PytestHoldsName(m.junitFile, AllPassed(Tests(m)), name, digest);
    SignedHolds(host, SectionsOf(host, inp), PytestRecord(m.junitFile, AllPassed(Tests(m)), name, digest), name);
  }

  lemma PytestHoldsName(file: string, counts: Counts, name: string, digest: string)
    requires Holds(JunitRecord(file, name, digest), name)
    ensures Holds(PytestRecord(file, counts, name, digest), name)
  {
    KeysDistinct();
    RecordHolds(PYTEST_KEYS, CountFields(counts) + [JunitRecord(file, name, digest)], 7, name);
  }

  lemma SignedHolds(host: Host, e: Sections, pytest: Json, s: string)
    requires Holds(pytest, s)
    ensures Holds(Signed(host, Payload(e, pytest)), s)
  {
    KeysDistinct();
    var p := Payload(e, pytest);
    RecordHolds(RESULT_KEYS, p + [Str(host.canonicalHash(Record(PAYLOAD_KEYS, p)))], 4, s);
  }

  /** The pattern of artifact names puts no bound on their length. For every host whose encoder
      keeps lengths, a name longer than the limit can be built into a result, and then no bytes
      are accepted. */
  lemma LongNameRefused(host: Host, inp: Inputs, junit: Bytes, name: string, data: Bytes)
    requires Buildable(host, inp, junit, name) && host.isDigest(host.sha256(junit)) && KeepsLength(host)
    requires |name| > RESULT_MAX_BYTES
    ensures !AcceptsBytes(host, inp, junit, name, data)
  {
    ResultHoldsName(host, inp, name, host.sha256(junit));
    OneByteString(host, inp, junit, name, data);
  }

  // ---------- a small input ----------

  const SELECTOR := "tests/a.py::test_a"
  const SOURCE := "tests/a.py"
  const COMMIT := "0123456789012345678901234567890123456789"
  const NAME_PREFIX := "graphblocks-stable-security-gates-"

  function Repeated(c: char, n: nat): (s: string)
    ensures |s| == n && forall i :: 0 <= i < n ==> s[i] == c
  {
    seq(n, _ => c)
  }

  predicate IsDigit(c: char) { '0' <= c <= '9' }

  predicate IsHex(c: char) { IsDigit(c) || 'a' <= c <= 'f' }

  /** The pattern `GIT_COMMIT`. */
  predicate IsCommit(s: string) { (|s| == 40 || |s| == 64) && forall i :: 0 <= i < |s| ==> IsHex(s[i]) }

  /** The pattern `SHA256`. */
  predicate IsDigest(s: string) {
    |s| == 71 && s[..7] == "sha256:" && forall i :: 7 <= i < |s| ==> IsHex(s[i])
  }

  /** The pattern `ARTIFACT_NAME`. */
  predicate IsArtifactName(s: string) {
    var n := |NAME_PREFIX|;
    NAME_PREFIX <= s && |s| > n && s[n] != '0' && forall i :: n <= i < |s| ==> IsDigit(s[i])
  }

  /** The artifact of an attempt with this many digits. */
  function AttemptName(digits: nat): string { NAME_PREFIX + Repeated('1', digits) }

  function SampleDigest(): string { "sha256:" + Repeated('0', 64) }

  lemma SamplePatterns(digits: nat)
    requires digits > 0
    ensures IsDigest(SampleDigest()) && IsCommit(COMMIT) && IsArtifactName(AttemptName(digits)) && !IsCommit("HEAD")
  {
    var d, s := SampleDigest(), AttemptName(digits);
    forall i | 7 <= i < |d| ensures IsHex(d[i]) {
      assert d[i] == Repeated('0', 64)[i - 7];
    }
    forall i | |NAME_PREFIX| <= i < |s| ensures s[i] == '1' {
      assert s[i] == Repeated('1', digits)[i - |NAME_PREFIX|];
    }
  }

  function SampleCase(): Element { Element("testcase", map["classname" := "tests.a", "name" := "test_a"], []) }

  function SampleManifest(): Manifest {
    Manifest(1, "stable-security-gates.xml", "ubuntu-latest", "3.11", SOURCE, [Category("one", [SELECTOR])], [])
  }

  function SampleInputs(commit: string): Inputs { Inputs(SampleManifest(), [], commit, map[SOURCE := []]) }

  /** A host with the patterns of the code, one digest and one report; the codec is given. */
  function SampleHost(encode: Json -> Bytes, decode: Bytes -> Option<Json>): Host {
    Host(_ => SampleDigest(), _ => SampleDigest(), encode, decode, _ => Some(SampleCase()),
         s => if s == SELECTOR then Some(SOURCE) else None, IsCommit, IsArtifactName, IsDigest)
  }

  lemma SampleSelectors()
    ensures AllSelectors(SampleManifest()) == [SELECTOR] && Dedup([SELECTOR]) == [SELECTOR]
  {
    var cs := SampleManifest().objects;
    assert cs[..0] == [] && SelectorsOf(cs) == [] + [SELECTOR];
    DedupStep([], SELECTOR);
    assert [] + [SELECTOR] == [SELECTOR];
  }

  lemma SampleComplete(host: Host, commit: string)
    requires host.sourcePath(SELECTOR) == Some(SOURCE)
    ensures Complete(host, SampleInputs(commit))
  {
    SampleSelectors();
    var all := [SOURCE] + PathsOf(host, [SELECTOR]);
    assert all == [SOURCE, SOURCE] == [SOURCE] + [SOURCE];
    DedupStep([], SOURCE);
    assert [] + [SOURCE] == [SOURCE];
    DedupStep([SOURCE], SOURCE);
    assert Dedup(all) == [SOURCE];
    assert Elements([SOURCE]) == {SOURCE};
  }

  lemma SampleNode()
    ensures Identified(SampleCase()) && NodeId(SampleCase()) == SELECTOR
  {
    var name := "tests.a";
    assert Slashed("") == "";
    assert name[1..] == "ests.a" && name[2..] == "sts.a" && name[3..] == "ts.a" && name[4..] == "s.a";
    assert name[5..] == ".a" && name[6..] == "a" && name[7..] == "";
    assert Slashed(name[6..]) == "a" && Slashed(name[5..]) == "/a" && Slashed(name[4..]) == "s/a";
    assert Slashed(name[3..]) == "ts/a" && Slashed(name[2..]) == "sts/a" && Slashed(name[1..]) == "ests/a";
    assert Slashed(name) == "tests/a";
  }

  lemma SampleTestcase()
    ensures IsTestcase(SampleCase())
  {
    PlainLocalName("testcase");
  }

  lemma {:induction false} PlainLocalName(tag: string)
    requires '}' !in tag
    ensures LocalName(tag) == tag
    decreases |tag|
  {
    if tag != "" {
      PlainLocalName(tag[..|tag| - 1]);
    }
  }

  lemma SampleReport()
    ensures ReportOk(_ => Some(SampleCase()), [], [SELECTOR])
  {
    var t := SampleCase();
    SampleNode();
    SampleTestcase();
    SampleSelectors();
    assert Iter(t) == [t] && [t][..0] == [];
    assert Testcases([t]) == [t];
    assert PassedRun(t, SELECTOR);
  }

  lemma SampleBuildable(encode: Json -> Bytes, decode: Bytes -> Option<Json>, digits: nat)
    requires digits > 0
    ensures Buildable(SampleHost(encode, decode), SampleInputs(COMMIT), [], AttemptName(digits))
    ensures IsDigest(SampleDigest())
  {
    SamplePatterns(digits);
    var host := SampleHost(encode, decode);
    SampleComplete(host, COMMIT);
    SampleSelectors();
    SampleReport();
  }

  // ---------- the two differences ----------

  /** A value that the validator accepts with a commit that the builder refuses. */
  lemma MalformedCommitAccepted() returns (host: Host, inp: Inputs, junit: Bytes, name: string, v: Json)
    ensures !host.isCommit(inp.commit) && !Buildable(host, inp, junit, name)
    ensures Admits(host, inp, Some(junit), Some(name), v)
  {
    host, inp, junit, name := SampleHost(_ => [], _ => None), SampleInputs("HEAD"), [], AttemptName(1);
    SampleBuildable(_ => [], _ => None, 1);
    SamplePatterns(1);
    AnyCommitAccepted(host, SampleInputs(COMMIT), junit, name, "HEAD");
    v := ResultFor(host, inp, name, host.sha256(junit));
  }

  /** The result does not depend on the codec. */
  lemma SameRecords(host: Host, other: Host, sources: map<string, Bytes>, cs: seq<Category>)
    requires host.sha256 == other.sha256 && host.sourcePath == other.sourcePath
    ensures CategoryRecords(host, sources, cs) == CategoryRecords(other, sources, cs)
  {
    forall i | 0 <= i < |cs|
      ensures CategoryRecord(host, sources, cs[i]) == CategoryRecord(other, sources, cs[i])
    {
      SameRecord(host, other, sources, cs[i]);
    }
  }

  lemma SameRecord(host: Host, other: Host, sources: map<string, Bytes>, c: Category)
    requires host.sha256 == other.sha256 && host.sourcePath == other.sourcePath
    ensures CategoryRecord(host, sources, c) == CategoryRecord(other, sources, c)
  {
    var ps := PathsOf(host, c.selectors);
    assert ps == PathsOf(other, c.selectors);
    assert SourceRecords(host, sources, Dedup(ps)) == SourceRecords(other, sources, Dedup(ps));
  }

  lemma SameResult(host: Host, other: Host, inp: Inputs, name: string, digest: string)
    requires host.sha256 == other.sha256 && host.sourcePath == other.sourcePath
             && host.canonicalHash == other.canonicalHash
    ensures ResultFor(host, inp, name, digest) == ResultFor(other, inp, name, digest)
  {
    SameRecords(host, other, inp.sources, inp.manifest.objects);
    SameRecords(host, other, inp.sources, inp.manifest.resources);
    assert SectionsOf(host, inp) == SectionsOf(other, inp);
  }

  /** An encoder that writes out every string of a value. */
  ghost function Written(v: Json): Bytes
    decreases v, 2
  {
    match v
    case Str(s) => Codes(s)
    case List(items) => WrittenAll(items)
    case Obj(fields) => WrittenFields(v, fields.Keys)
    case _ => []
  }

  ghost function WrittenAll(items: seq<Json>): Bytes
    decreases items, 0
  {
    if items == [] then [] else Written(items[0]) + WrittenAll(items[1..])
  }

  ghost function WrittenFields(v: Json, keys: set<string>): Bytes
    requires v.Obj? && keys <= v.fields.Keys
    decreases v, 1, keys
  {
    if keys == {} then [] else
      var k :| k in keys;
      Codes(k) + Written(v.fields[k]) + WrittenFields(v, keys - {k})
  }

  function Codes(s: string): (data: Bytes)
    ensures |data| == |s|
  {
    seq(|s|, i requires 0 <= i < |s| => s[i] as nat)
  }

  lemma {:induction false} WrittenKeeps(v: Json, s: string)
    requires Holds(v, s)
    ensures |s| <= |Written(v)|
    decreases v, 2
  {
    match v {
      case List(items) =>
        var i :| 0 <= i < |items| && Holds(items[i], s);
        WrittenAllKeeps(items, i, s);
      case Obj(fields) =>
        var k :| k in fields && Holds(fields[k], s);
        WrittenFieldsKeeps(v, fields.Keys, k, s);
      case _ =>
    }
  }

  lemma {:induction false} WrittenAllKeeps(items: seq<Json>, i: nat, s: string)
    requires i < |items| && Holds(items[i], s)
    ensures |s| <= |WrittenAll(items)|
    decreases items, 0
  {
    if i == 0 {
      WrittenKeeps(items[0], s);
    } else {
      WrittenAllKeeps(items[1..], i - 1, s);
    }
  }

  lemma {:induction false} WrittenFieldsKeeps(v: Json, keys: set<string>, k: string, s: string)
    requires v.Obj? && keys <= v.fields.Keys && k in keys && Holds(v.fields[k], s)
    ensures |s| <= |WrittenFields(v, keys)|
    decreases v, 1, keys
  {
    var j :| j in keys && WrittenFields(v, keys) == Codes(j) + Written(v.fields[j]) + WrittenFields(v, keys - {j});
    if j == k {
      WrittenKeeps(v.fields[k], s);
    } else {
      WrittenFieldsKeeps(v, keys - {j}, k, s);
    }
  }

  lemma WrittenKeepsLength(host: Host)
    requires forall v :: host.encode(v) == Written(v)
    ensures KeepsLength(host)
  {
    forall v, s | Holds(v, s) ensures |s| <= |host.encode(v)| {
      WrittenKeeps(v, s);
    }
  }

  /** A result that is built, encodes and decodes back, and that no bytes are accepted for: its
      artifact name is an attempt number of more digits than the limit. */
  lemma OversizedResultRefused() returns (host: Host, inp: Inputs, junit: Bytes, name: string)
    ensures Buildable(host, inp, junit, name) && host.isDigest(host.sha256(junit)) && KeepsLength(host)
    ensures var built := ResultFor(host, inp, name, host.sha256(junit));
            host.decode(host.encode(built)) == Some(built)
    ensures IsArtifactName(name) && forall data :: !AcceptsBytes(host, inp, junit, name, data)
  {
    var digits := RESULT_MAX_BYTES + 1;
    inp, junit, name := SampleInputs(COMMIT), [], AttemptName(digits);
    var encode: Json -> Bytes := v => Written(v);
    var plain := SampleHost(encode, _ => None);
    var built := ResultFor(plain, inp, name, SampleDigest());
    var decode: Bytes -> Option<Json> := data => if data == Written(built) then Some(built) else None;
    host := SampleHost(encode, decode);
    SampleBuildable(encode, decode, digits);
    SamplePatterns(digits);
    SameResult(plain, host, inp, name, SampleDigest());
    WrittenKeepsLength(host);
    forall data ensures !AcceptsBytes(host, inp, junit, name, data) {
      LongNameRefused(host, inp, junit, name, data);
    }
  }
}
