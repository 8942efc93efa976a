/** What the walk decides, said of the entries of the mappings and the text of the patterns. */
module SchemaMeaning {
  import opened Common
  import opened ObjectHeap
  import opened SchemaWalk
  import RegexTokens
  import RegexScanner

  // ---------- entries ----------

  /** The mapping has this value under the key: it is that of its first entry with the key. */
  ghost predicate Has(h: Heap, r: Ref, key: Key, v: Ref) {
    r in h && h[r].Mapping? && FirstEntry(h[r].entries, key, v)
  }

  ghost predicate FirstEntry(entries: seq<(Key, Ref)>, key: Key, v: Ref) {
    exists i :: 0 <= i < |entries| && entries[i] == (key, v) && forall j :: 0 <= j < i ==> entries[j].0 != key
  }

  ghost predicate HasText(h: Heap, r: Ref, key: string, s: string) {
    exists v :: Has(h, r, Text(key), v) && v in h && h[v] == Scalar(Str(s))
  }

  /** The mapping has a key of this name. */
  ghost predicate Names(h: Heap, r: Ref, name: string) {
    r in h && h[r].Mapping? && exists i :: 0 <= i < |h[r].entries| && h[r].entries[i].0 == Text(name)
  }

  /** A pattern of the mapping: under `pattern`, or a name under `patternProperties`. */
  ghost predicate HasPattern(h: Heap, r: Ref, p: string) {
    HasText(h, r, "pattern", p) || exists v :: Has(h, r, Text("patternProperties"), v) && Names(h, v, p)
  }

  ghost predicate HasReference(h: Heap, r: Ref, x: string) {
    HasText(h, r, "$ref", x) || HasText(h, r, "$dynamicRef", x)
  }

  /** The mapping has a string under `pattern`, or a non-empty mapping under `patternProperties`. */
  ghost predicate Uses(h: Heap, r: Ref, k: Keyword) {
    match k
    case Pattern => exists p :: HasText(h, r, "pattern", p)
    case PatternProperties =>
      exists v :: Has(h, r, Text("patternProperties"), v) && v in h && h[v].Mapping? && h[v].entries != []
  }

  ghost predicate HasKeyword(h: Heap, r: Ref) { Uses(h, r, Pattern) || Uses(h, r, PatternProperties) }

  lemma {:induction false} GetMeans(entries: seq<(Key, Ref)>, key: Key, v: Ref)
    ensures Get(entries, key) == Some(v) <==> FirstEntry(entries, key, v)
    decreases |entries|
  {
    if entries != [] {
      GetMeans(entries[1..], key, v);
      if FirstEntry(entries, key, v) {
        var i :| 0 <= i < |entries| && entries[i] == (key, v) && forall j :: 0 <= j < i ==> entries[j].0 != key;
        if i > 0 {
          var rest := entries[1..];
          assert rest[i - 1] == (key, v) && forall j :: 0 <= j < i - 1 ==> rest[j].0 != key;
        }
      }
      if entries[0].0 != key && FirstEntry(entries[1..], key, v) {
        var rest := entries[1..];
        var i :| 0 <= i < |rest| && rest[i] == (key, v) && forall j :: 0 <= j < i ==> rest[j].0 != key;
        assert entries[i + 1] == (key, v);
        forall j | 0 <= j < i + 1 ensures entries[j].0 != key {
          if j > 0 {
            assert rest[j - 1].0 != key;
          }
        }
      }
    }
  }

  lemma TextAtMeans(h: Heap, r: Ref, key: string, s: string)
    requires IsMapping(h, r)
    ensures TextAt(h, r, key) == Some(s) <==> HasText(h, r, key, s)
  {
    forall v: Ref ensures Get(h[r].entries, Text(key)) == Some(v) <==> Has(h, r, Text(key), v) {
      GetMeans(h[r].entries, Text(key), v);
    }
  }

  lemma PropertiesMean(h: Heap, r: Ref)
    requires IsMapping(h, r)
    ensures forall p :: Text(p) in PropertyPatterns(h, r) <==>
      exists v :: Has(h, r, Text("patternProperties"), v) && Names(h, v, p)
    ensures PropertyPatterns(h, r) != [] <==>
      exists v :: Has(h, r, Text("patternProperties"), v) && v in h && h[v].Mapping? && h[v].entries != []
  {
    forall v: Ref ensures Get(h[r].entries, Text("patternProperties")) == Some(v)
      <==> Has(h, r, Text("patternProperties"), v)
    {
      GetMeans(h[r].entries, Text("patternProperties"), v);
    }
    var found := Get(h[r].entries, Text("patternProperties"));
    if found.Some? && IsMapping(h, found.value) {
      forall p ensures Text(p) in PropertyPatterns(h, r) <==> Names(h, found.value, p) {
        KeysMean(h, found.value, p);
      }
    }
  }

  lemma KeysMean(h: Heap, v: Ref, p: string)
    requires IsMapping(h, v)
    ensures Text(p) in KeysOf(h[v].entries) <==> Names(h, v, p)
  {
    var es := h[v].entries;
    if Names(h, v, p) {
      var i :| 0 <= i < |es| && es[i].0 == Text(p);
      assert KeysOf(es)[i] == Text(p);
    }
  }

  lemma CarriesMeans(h: Heap, r: Ref, p: string)
    requires IsMapping(h, r)
    ensures Carries(h, r, p) <==> HasPattern(h, r, p)
  {
    TextAtMeans(h, r, "pattern", p);
    PropertiesMean(h, r);
  }

  lemma KeywordMeans(h: Heap, r: Ref)
    requires IsMapping(h, r)
    ensures BearsKeyword(h, r) <==> HasKeyword(h, r)
    ensures forall k :: Bears(h, r, k) <==> Uses(h, r, k)
  {
    PropertiesMean(h, r);
    forall p ensures TextAt(h, r, "pattern") == Some(p) <==> HasText(h, r, "pattern", p) {
      TextAtMeans(h, r, "pattern", p);
    }
  }

  // ---------- patterns ----------

  /** The UTF-8 encoding of one character. */
  function Utf8Char(c: char): seq<nat> {
    var n := c as int;
    if n < 0x80 then [n]
    else if n < 0x800 then [0xC0 + n / 64, 0x80 + n % 64]
    else if n < 0x10000 then [0xE0 + n / 4096, 0x80 + n / 64 % 64, 0x80 + n % 64]
    else [0xF0 + n / 262144, 0x80 + n / 4096 % 64, 0x80 + n / 64 % 64, 0x80 + n % 64]
  }

  function Utf8(s: string): seq<nat> { if s == "" then [] else Utf8Char(s[0]) + Utf8(s[1..]) }

  lemma {:induction false} Utf8LengthMeans(s: string)
    ensures Utf8Length(s) == |Utf8(s)|
  {
    if s != "" {
      Utf8LengthMeans(s[1..]);
    }
  }

  /** The pattern is the text of a token list that holds a back-reference, a special group or a
      repeated group. */
  ghost predicate Risky(isDigit: RegexScanner.DigitTable, p: string) {
    exists ts :: RegexTokens.TokensOk(ts) && RegexTokens.PrintTokens(ts) == p && RegexTokens.TokensRisk(isDigit, ts)
  }

  /** It does not matter which token list is taken. */
  lemma RiskyMeans(isDigit: RegexScanner.DigitTable, p: string)
    ensures RegexScanner.Flagged(isDigit, p) <==> Risky(isDigit, p)
    ensures Risky(isDigit, p) <==> forall ts :: RegexTokens.TokensOk(ts) && RegexTokens.PrintTokens(ts) == p ==>
      RegexTokens.TokensRisk(isDigit, ts)
  {
    var some := RegexTokens.FlaggedMeans(isDigit, p);
    forall ts | RegexTokens.TokensOk(ts) && RegexTokens.PrintTokens(ts) == p
      ensures RegexTokens.TokensRisk(isDigit, ts) <==> RegexScanner.Flagged(isDigit, p)
    {
      RegexTokens.FlaggedIffTokensRisk(isDigit, ts);
    }
  }

  ghost predicate PatternAllowed(host: Host, policy: Policy, p: string) {
    policy.allowPattern && |Utf8(p)| <= policy.maxPatternBytes && !Risky(host.isDigit, p)
  }

  /** Why a pattern is refused: the first reason that applies. */
  ghost predicate PatternRefused(host: Host, policy: Policy, p: string, e: WalkError) {
    match e
    case PatternDisabled => !policy.allowPattern
    case MaxPatternBytes => policy.allowPattern && |Utf8(p)| > policy.maxPatternBytes
    case UnsafePattern => policy.allowPattern && |Utf8(p)| <= policy.maxPatternBytes && Risky(host.isDigit, p)
    case _ => false
  }

  lemma CheckPatternMeans(host: Host, policy: Policy, p: string)
    ensures CheckPattern(host, policy, p).None? <==> PatternAllowed(host, policy, p)
    ensures forall e :: CheckPattern(host, policy, p) == Some(e) <==> PatternRefused(host, policy, p, e)
  {
    Utf8LengthMeans(p);
    RiskyMeans(host.isDigit, p);
  }

  // ---------- references ----------

  /** A reference into the document itself. */
  predicate IntoDocument(x: string) { |x| > 0 ==> x[0] == '#' }

  /** The walk goes on: to a subresource, or to where a reference into the document leads. */
  ghost predicate Continues(h: Heap, host: Host, r: Ref, s: Ref) {
    r in h && h[r].Mapping? &&
    (|| (r in host.subresources && s in host.subresources[r])
     || exists x :: HasReference(h, r, x) && IntoDocument(x) && x in host.lookup && host.lookup[x] == s)
  }

  lemma ContinuesMeans(h: Heap, host: Host, r: Ref, s: Ref)
    ensures Edge(h, host, r, s) <==> Continues(h, host, r, s)
  {
    if IsMapping(h, r) {
      forall x ensures TextAt(h, r, "$ref") == Some(x) <==> HasText(h, r, "$ref", x) {
        TextAtMeans(h, r, "$ref", x);
      }
      forall x ensures TextAt(h, r, "$dynamicRef") == Some(x) <==> HasText(h, r, "$dynamicRef", x) {
        TextAtMeans(h, r, "$dynamicRef", x);
      }
    }
  }

  lemma LocalMeans(h: Heap, r: Ref)
    requires IsMapping(h, r)
    ensures RefsLocal(h, r) <==> forall x :: HasReference(h, r, x) ==> IntoDocument(x)
  {
    forall x ensures TextAt(h, r, "$ref") == Some(x) <==> HasText(h, r, "$ref", x) {
      TextAtMeans(h, r, "$ref", x);
    }
    forall x ensures TextAt(h, r, "$dynamicRef") == Some(x) <==> HasText(h, r, "$dynamicRef", x) {
      TextAtMeans(h, r, "$dynamicRef", x);
    }
    if TextAt(h, r, "$ref").Some? {
      assert HasReference(h, r, TextAt(h, r, "$ref").value);
    }
    if TextAt(h, r, "$dynamicRef").Some? {
      assert HasReference(h, r, TextAt(h, r, "$dynamicRef").value);
    }
  }

  /** A way of mappings from the root, each continuing to the next. */
  ghost predicate Way(h: Heap, host: Host, root: Ref, r: Ref, w: seq<Ref>) {
    && |w| > 0 && w[0] == root && w[|w| - 1] == r
    && (forall i :: 0 <= i < |w| ==> w[i] in h && h[w[i]].Mapping?)
    && (forall i :: 0 <= i < |w| - 1 ==> Continues(h, host, w[i], w[i + 1]))
  }

  /** The mappings of the schema that a validator can come to. */
  ghost function Visited(h: Heap, host: Host, root: Ref): set<Ref> {
    set r | r in h && exists w :: Way(h, host, root, r, w)
  }

  lemma VisitedMeans(h: Heap, host: Host, root: Ref)
    ensures Reachable(h, host, root) == Visited(h, host, root)
  {
    forall r, w ensures ChainTo(h, host, root, r, w) <==> Way(h, host, root, r, w) {
      forall i | 0 <= i < |w| - 1 ensures Edge(h, host, w[i], w[i + 1]) <==> Continues(h, host, w[i], w[i + 1]) {
        ContinuesMeans(h, host, w[i], w[i + 1]);
      }
    }
    forall r | r in h ensures r in Reachable(h, host, root) <==> r in Visited(h, host, root) {
      if w :| Way(h, host, root, r, w) {
        assert ChainTo(h, host, root, r, w);
      }
      if w :| ChainTo(h, host, root, r, w) {
        assert Way(h, host, root, r, w);
      }
    }
  }

  // ---------- the verdict ----------

  ghost predicate PatternsAllowed(h: Heap, host: Host, policy: Policy, r: Ref) {
    forall p :: HasPattern(h, r, p) ==> PatternAllowed(host, policy, p)
  }

  ghost predicate ReferencesAllowed(h: Heap, policy: Policy, r: Ref) {
    policy.allowRemoteRef || forall x :: HasReference(h, r, x) ==> IntoDocument(x)
  }

  /** Few enough mappings, in each of them only allowed patterns and references. */
  ghost predicate Conforms(h: Heap, host: Host, policy: Policy, root: Ref) {
    && |Visited(h, host, root)| <= policy.maxValidationSteps
    && (forall r :: r in Visited(h, host, root) ==> PatternsAllowed(h, host, policy, r))
    && (forall r :: r in Visited(h, host, root) ==> ReferencesAllowed(h, policy, r))
  }

  /** What each exception says: some mapping has a pattern refused for that reason, or a reference
      out of the document, or there are too many mappings. */
  ghost predicate Blames(h: Heap, host: Host, policy: Policy, root: Ref, e: WalkError) {
    match e
    case MaxValidationSteps => |Visited(h, host, root)| > policy.maxValidationSteps
    case RemoteRef => !policy.allowRemoteRef && exists r, x ::
      r in Visited(h, host, root) && HasReference(h, r, x) && !IntoDocument(x)
    case _ => exists r, p :: r in Visited(h, host, root) && HasPattern(h, r, p) && PatternRefused(host, policy, p, e)
  }

  lemma PassesMeans(h: Heap, host: Host, policy: Policy, r: Ref)
    requires IsMapping(h, r)
    ensures Passes(h, host, policy, false, r) <==>
      PatternsAllowed(h, host, policy, r) && ReferencesAllowed(h, policy, r)
  {
    LocalMeans(h, r);
    forall p ensures Carries(h, r, p) <==> HasPattern(h, r, p) {
      CarriesMeans(h, r, p);
    }
    forall p ensures CheckPattern(host, policy, p).None? <==> PatternAllowed(host, policy, p) {
      CheckPatternMeans(host, policy, p);
    }
  }

  /** The walk accepts exactly the schemas that conform. */
  lemma AcceptsMeans(h: Heap, host: Host, policy: Policy, root: Ref)
    ensures Accepts(h, host, policy, false, root) <==> Conforms(h, host, policy, root)
  {
    VisitedMeans(h, host, root);
    ReachableAreMappings(h, host, root);
    forall r | r in Reachable(h, host, root)
      ensures Passes(h, host, policy, false, r) <==>
        PatternsAllowed(h, host, policy, r) && ReferencesAllowed(h, policy, r)
    {
      PassesMeans(h, host, policy, r);
    }
  }

  /** Looking for a keyword, it passes exactly when no mapping bears one. */
  lemma SearchMeans(h: Heap, host: Host, policy: Policy, root: Ref)
    ensures Accepts(h, host, policy, true, root) <==>
      && |Visited(h, host, root)| <= policy.maxValidationSteps
      && (forall r :: r in Visited(h, host, root) ==> !HasKeyword(h, r))
      && (forall r :: r in Visited(h, host, root) ==> ReferencesAllowed(h, policy, r))
  {
    VisitedMeans(h, host, root);
    ReachableAreMappings(h, host, root);
    forall r | r in Reachable(h, host, root)
      ensures Passes(h, host, policy, true, r) <==> !HasKeyword(h, r) && ReferencesAllowed(h, policy, r)
    {
      KeywordMeans(h, r);
      LocalMeans(h, r);
    }
  }

  lemma OffenceMeans(h: Heap, host: Host, policy: Policy, root: Ref, r: Ref, e: WalkError)
    requires r in Visited(h, host, root) && IsMapping(h, r) && Offends(h, host, policy, false, r, e)
    ensures Blames(h, host, policy, root, e)
  {
    LocalMeans(h, r);
    if e != RemoteRef {
      var p :| Carries(h, r, p) && CheckPattern(host, policy, p) == Some(e);
      CarriesMeans(h, r, p);
      CheckPatternMeans(host, policy, p);
    }
  }

  lemma JustifiedMeans(h: Heap, host: Host, policy: Policy, root: Ref, e: WalkError)
    requires Justified(h, host, policy, false, root, e)
    ensures Blames(h, host, policy, root, e)
  {
    VisitedMeans(h, host, root);
    if e != MaxValidationSteps {
      var r :| r in Reachable(h, host, root) && IsMapping(h, r) && Offends(h, host, policy, false, r, e);
      OffenceMeans(h, host, policy, root, r, e);
    }
  }
}
