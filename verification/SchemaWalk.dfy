/** The worklist walk over subschemas and local references. */
module SchemaWalk {
  import opened Common
  import opened ObjectHeap
  import RegexScanner

  datatype Policy = Policy(
    maxSchemaBytes: nat, maxNodes: nat, maxDepth: nat, maxPatternBytes: nat,
    allowPattern: bool, allowRemoteRef: bool, maxValidationSteps: nat)

  const DEFAULT_POLICY := Policy(1_048_576, 10_000, 64, 256, true, false, 20_000)
  const UNTRUSTED_POLICY := DEFAULT_POLICY.(allowPattern := false)

  /** What foreign libraries answer about one document: `subresources_of` (`None` where it
      raises on a malformed applicator), `lookup` through the root resolver (`None` where the
      reference does not resolve), and the digit table. */
  datatype Host = Host(
    subresources: map<Ref, seq<Ref>>,
    lookup: map<string, Ref>,
    isDigit: char -> bool)

  datatype WalkError = MaxValidationSteps | PatternDisabled | MaxPatternBytes | UnsafePattern | RemoteRef

  datatype Keyword = Pattern | PatternProperties

  datatype WalkResult =
    | Walked(steps: nat, keyword: Option<Keyword>)
    | Raised(error: WalkError)

  function Get(entries: seq<(Key, Ref)>, key: Key): Option<Ref> {
    if entries == [] then None
    else if entries[0].0 == key then Some(entries[0].1)
    else Get(entries[1..], key)
  }

  predicate IsMapping(h: Heap, r: Ref) { r in h && h[r].Mapping? }

  /** The string under a key of a mapping, if there is one and it is a `str`. */
  function TextAt(h: Heap, r: Ref, key: string): Option<string>
    requires IsMapping(h, r)
  {
    match Get(h[r].entries, Text(key))
    case Some(v) => if v in h && h[v].Scalar? && h[v].leaf.Str? then Some(h[v].leaf.s) else None
    case None => None
  }

  /** The keys of the mapping under `patternProperties`; empty if there is none. */
  function PropertyPatterns(h: Heap, r: Ref): seq<Key>
    requires IsMapping(h, r)
  {
    match Get(h[r].entries, Text("patternProperties"))
    case Some(v) => if IsMapping(h, v) then KeysOf(h[v].entries) else []
    case None => []
  }

  function KeysOf(entries: seq<(Key, Ref)>): (ks: seq<Key>)
    ensures |ks| == |entries|
    ensures forall i :: 0 <= i < |ks| ==> ks[i] == entries[i].0
  {
    seq(|entries|, i requires 0 <= i < |entries| => entries[i].0)
  }

  function Utf8Length(s: string): nat {
    if s == [] then 0
    else (if s[0] as int < 0x80 then 1 else if s[0] as int < 0x800 then 2
          else if s[0] as int < 0x10000 then 3 else 4) + Utf8Length(s[1..])
  }

  /** `_check_pattern`: the code it raises, if any. */
  function CheckPattern(host: Host, policy: Policy, pattern: string): Option<WalkError> {
    if !policy.allowPattern then Some(PatternDisabled)
    else if Utf8Length(pattern) > policy.maxPatternBytes then Some(MaxPatternBytes)
    else if RegexScanner.Flagged(host.isDigit, pattern) then Some(UnsafePattern)
    else None
  }

  predicate IsLocal(reference: string) {
    reference == "" || reference[0] == '#'
  }

  const REFERENCE_KEYWORDS := ["$ref", "$dynamicRef"]

  function Subresources(host: Host, r: Ref): seq<Ref> {
    if r in host.subresources then host.subresources[r] else []
  }

  /** Where a reference keyword of a mapping leads, if it is local and resolves. */
  function Target(h: Heap, host: Host, r: Ref, keyword: string): Option<Ref>
    requires IsMapping(h, r)
  {
    match TextAt(h, r, keyword)
    case Some(reference) =>
      if IsLocal(reference) && reference in host.lookup then Some(host.lookup[reference]) else None
    case None => None
  }

  /** The walk goes from a mapping to its subresources and to its resolved local references. */
  ghost predicate Edge(h: Heap, host: Host, r: Ref, s: Ref) {
    IsMapping(h, r) &&
    (|| s in Subresources(host, r)
     || Target(h, host, r, "$ref") == Some(s)
     || Target(h, host, r, "$dynamicRef") == Some(s))
  }

  /** A non-empty chain of mappings joined by edges. */
  ghost predicate Chain(h: Heap, host: Host, w: seq<Ref>) {
    && |w| > 0
    && (forall i :: 0 <= i < |w| ==> IsMapping(h, w[i]))
    && (forall i :: 0 <= i < |w| - 1 ==> Edge(h, host, w[i], w[i + 1]))
  }

  ghost predicate ChainTo(h: Heap, host: Host, root: Ref, r: Ref, w: seq<Ref>) {
    Chain(h, host, w) && w[0] == root && w[|w| - 1] == r
  }

  ghost predicate Reaches(h: Heap, host: Host, root: Ref, r: Ref) {
    exists w :: ChainTo(h, host, root, r, w)
  }

  /** The mapping objects that a validator can be sent to from the schema. */
  ghost function Reachable(h: Heap, host: Host, root: Ref): set<Ref> {
    set r | r in h && Reaches(h, host, root, r)
  }

  /** The pattern strings a mapping carries. */
  ghost predicate Carries(h: Heap, r: Ref, pattern: string)
    requires IsMapping(h, r)
  {
    TextAt(h, r, "pattern") == Some(pattern) || Text(pattern) in PropertyPatterns(h, r)
  }

  ghost predicate PatternsPass(h: Heap, host: Host, policy: Policy, r: Ref)
    requires IsMapping(h, r)
  {
    forall pattern :: Carries(h, r, pattern) ==> CheckPattern(host, policy, pattern).None?
  }

  predicate LocalAt(h: Heap, r: Ref, keyword: string)
    requires IsMapping(h, r)
  {
    TextAt(h, r, keyword).Some? ==> IsLocal(TextAt(h, r, keyword).value)
  }

  predicate RefsLocal(h: Heap, r: Ref)
    requires IsMapping(h, r)
  {
    LocalAt(h, r, "$ref") && LocalAt(h, r, "$dynamicRef")
  }

  predicate BearsKeyword(h: Heap, r: Ref)
    requires IsMapping(h, r)
  {
    TextAt(h, r, "pattern").Some? || PropertyPatterns(h, r) != []
  }

  /** A mapping the walk passes without raising and without stopping. */
  ghost predicate Passes(h: Heap, host: Host, policy: Policy, stopAtPattern: bool, r: Ref)
    requires IsMapping(h, r)
  {
    && (if stopAtPattern then !BearsKeyword(h, r) else PatternsPass(h, host, policy, r))
    && (policy.allowRemoteRef || RefsLocal(h, r))
  }

  ghost predicate AllPass(h: Heap, host: Host, policy: Policy, stopAtPattern: bool, rs: set<Ref>) {
    forall r :: r in rs ==> IsMapping(h, r) && Passes(h, host, policy, stopAtPattern, r)
  }

  /** The whole walk passes: few enough mappings are reachable and every one of them passes. */
  ghost predicate Accepts(h: Heap, host: Host, policy: Policy, stopAtPattern: bool, root: Ref) {
    && |Reachable(h, host, root)| <= policy.maxValidationSteps
    && AllPass(h, host, policy, stopAtPattern, Reachable(h, host, root))
  }

  /** What raising `e` at one mapping says about that mapping. */
  ghost predicate Offends(h: Heap, host: Host, policy: Policy, stopAtPattern: bool, r: Ref, e: WalkError)
    requires IsMapping(h, r)
  {
    match e
    case MaxValidationSteps => false
    case RemoteRef => !policy.allowRemoteRef && !RefsLocal(h, r)
    case _ => !stopAtPattern && exists p :: Carries(h, r, p) && CheckPattern(host, policy, p) == Some(e)
  }

  /** What each exception says about the schema. */
  ghost predicate Justified(h: Heap, host: Host, policy: Policy, stopAtPattern: bool, root: Ref, e: WalkError) {
    if e == MaxValidationSteps then |Reachable(h, host, root)| > policy.maxValidationSteps
    else exists r :: r in Reachable(h, host, root) && IsMapping(h, r) && Offends(h, host, policy, stopAtPattern, r, e)
  }

  /** The mapping bears the reported keyword. */
  ghost predicate Bears(h: Heap, r: Ref, k: Keyword)
    requires IsMapping(h, r)
  {
    match k
    case Pattern => TextAt(h, r, "pattern").Some?
    case PatternProperties => PropertyPatterns(h, r) != []
  }

  lemma JustifiedRejects(h: Heap, host: Host, policy: Policy, stopAtPattern: bool, root: Ref, e: WalkError)
    requires Justified(h, host, policy, stopAtPattern, root, e)
    ensures !Accepts(h, host, policy, stopAtPattern, root)
  {
  }

  // ---------- reachability ----------

  lemma ReachableStart(h: Heap, host: Host, root: Ref)
    ensures IsMapping(h, root) ==> root in Reachable(h, host, root)
  {
    if IsMapping(h, root) {
      assert ChainTo(h, host, root, root, [root]);
    }
  }

  lemma ReachableStep(h: Heap, host: Host, root: Ref, r: Ref, s: Ref)
    requires r in Reachable(h, host, root) && Edge(h, host, r, s) && IsMapping(h, s)
    ensures s in Reachable(h, host, root)
  {
    var w :| ChainTo(h, host, root, r, w);
    var v := w + [s];
    forall i | 0 <= i < |v| - 1
      ensures Edge(h, host, v[i], v[i + 1])
    {
      if i < |w| - 1 {
        assert v[i] == w[i] && v[i + 1] == w[i + 1];
      }
    }
    assert ChainTo(h, host, root, s, v);
  }

  lemma ReachableAreMappings(h: Heap, host: Host, root: Ref)
    ensures forall r :: r in Reachable(h, host, root) ==> IsMapping(h, r)
  {
    forall r | r in Reachable(h, host, root)
      ensures IsMapping(h, r)
    {
      var w :| ChainTo(h, host, root, r, w);
      assert IsMapping(h, w[|w| - 1]);
    }
  }

  /** A set of mappings that holds the root and is closed under edges holds all of them. */
  ghost predicate ClosedUnderEdges(h: Heap, host: Host, rs: set<Ref>) {
    forall r, s :: r in rs && Edge(h, host, r, s) && IsMapping(h, s) ==> s in rs
  }

  lemma {:induction false} ChainStaysIn(h: Heap, host: Host, rs: set<Ref>, w: seq<Ref>)
    requires ClosedUnderEdges(h, host, rs) && Chain(h, host, w) && w[0] in rs
    ensures w[|w| - 1] in rs
    decreases |w|
  {
    if |w| > 1 {
      assert Edge(h, host, w[0], w[1]);
      ChainStaysIn(h, host, rs, w[1..]);
    }
  }

  lemma ClosedHoldsReachable(h: Heap, host: Host, root: Ref, rs: set<Ref>)
    requires ClosedUnderEdges(h, host, rs) && (IsMapping(h, root) ==> root in rs)
    ensures Reachable(h, host, root) <= rs
  {
    forall r | r in Reachable(h, host, root)
      ensures r in rs
    {
      var w :| ChainTo(h, host, root, r, w);
      assert IsMapping(h, w[0]);
      ChainStaysIn(h, host, rs, w);
    }
  }

  // ---------- the walk ----------

  ghost predicate WalkInvariant(h: Heap, host: Host, root: Ref, pending: seq<Ref>, visited: set<Ref>) {
    && visited <= Reachable(h, host, root)
    && (forall i :: 0 <= i < |pending| && IsMapping(h, pending[i]) ==> pending[i] in Reachable(h, host, root))
    && (IsMapping(h, root) ==> root in visited || root in pending)
    && (forall r, s :: r in visited && Edge(h, host, r, s) && IsMapping(h, s) ==> s in visited || s in pending)
  }

  lemma WalkSkip(h: Heap, host: Host, root: Ref, pending: seq<Ref>, visited: set<Ref>)
    requires |pending| > 0 && WalkInvariant(h, host, root, pending, visited)
    requires !IsMapping(h, pending[|pending| - 1]) || pending[|pending| - 1] in visited
    ensures WalkInvariant(h, host, root, pending[..|pending| - 1], visited)
  {
    var top, rest := pending[|pending| - 1], pending[..|pending| - 1];
    forall s | s in pending && s != top
      ensures s in rest
    {
      var i :| 0 <= i < |pending| && pending[i] == s;
      assert rest[i] == s;
    }
  }

  /** What one visited mapping adds to the worklist. */
  ghost predicate Adds(h: Heap, host: Host, r: Ref, more: seq<Ref>) {
    && (forall i :: 0 <= i < |more| ==> Edge(h, host, r, more[i]))
    && (forall s :: Edge(h, host, r, s) ==> s in more)
  }

  lemma WalkVisit(h: Heap, host: Host, root: Ref, pending: seq<Ref>, visited: set<Ref>, more: seq<Ref>)
    requires |pending| > 0 && WalkInvariant(h, host, root, pending, visited)
    requires IsMapping(h, pending[|pending| - 1])
    requires Adds(h, host, pending[|pending| - 1], more)
    ensures WalkInvariant(h, host, root, pending[..|pending| - 1] + more, visited + {pending[|pending| - 1]})
  {
    var top, rest := pending[|pending| - 1], pending[..|pending| - 1];
    var next, seen := rest + more, visited + {top};
    forall s | s in pending && s != top
      ensures s in next
    {
      var i :| 0 <= i < |pending| && pending[i] == s;
      assert next[i] == s;
    }
    forall i | 0 <= i < |next| && IsMapping(h, next[i])
      ensures next[i] in Reachable(h, host, root)
    {
      if i >= |rest| {
        assert next[i] == more[i - |rest|];
        ReachableStep(h, host, root, top, next[i]);
      } else {
        assert next[i] == pending[i];
      }
    }
    forall r, s | r in seen && Edge(h, host, r, s) && IsMapping(h, s)
      ensures s in seen || s in next
    {
      if r == top {
        var i :| 0 <= i < |more| && more[i] == s;
        assert next[|rest| + i] == s;
      }
    }
  }

  /** The loop over the keys of `patternProperties`: the first failing string key decides. */
  method CheckPropertyPatterns(host: Host, policy: Policy, keys: seq<Key>) returns (e: Option<WalkError>)
    ensures e.None? <==> forall p :: Text(p) in keys ==> CheckPattern(host, policy, p).None?
    ensures e.Some? ==> exists p :: Text(p) in keys && CheckPattern(host, policy, p) == e
  {
    for i := 0 to |keys|
      invariant forall p :: Text(p) in keys[..i] ==> CheckPattern(host, policy, p).None?
    {
      match keys[i] {
        case Text(p) =>
          var verdict := CheckPattern(host, policy, p);
          if verdict.Some? {
            return verdict;
          }
        case Opaque(_) =>
      }
      assert keys[..i + 1] == keys[..i] + [keys[i]];
    }
    assert keys[..|keys|] == keys;
    return None;
  }

  datatype Visit = Continue(more: seq<Ref>) | Stop(keyword: Keyword) | Raise(error: WalkError)

  /** The pattern keywords of one mapping. */
  method VisitPatterns(h: Heap, host: Host, policy: Policy, stopAtPattern: bool, candidate: Ref) returns (v: Visit)
    requires IsMapping(h, candidate)
    ensures v.Continue? ==> if stopAtPattern
      then !BearsKeyword(h, candidate) else PatternsPass(h, host, policy, candidate)
    ensures v.Stop? ==> stopAtPattern && Bears(h, candidate, v.keyword)
    ensures v.Raise? ==> Offends(h, host, policy, stopAtPattern, candidate, v.error)
  {
    var pattern := TextAt(h, candidate, "pattern");
    if pattern.Some? {
      if stopAtPattern {
        return Stop(Pattern);
      }
      var verdict := CheckPattern(host, policy, pattern.value);
      if verdict.Some? {
        assert Carries(h, candidate, pattern.value);
        return Raise(verdict.value);
      }
    }
    var keys := PropertyPatterns(h, candidate);
    if keys != [] {
      if stopAtPattern {
        return Stop(PatternProperties);
      }
      var verdict := CheckPropertyPatterns(host, policy, keys);
      if verdict.Some? {
        var p :| Text(p) in keys && CheckPattern(host, policy, p) == verdict;
        assert Carries(h, candidate, p);
        return Raise(verdict.value);
      }
    }
    return Continue([]);
  }

  /** The subresources of one mapping, then its reference keywords in order. */
  method VisitEdges(h: Heap, host: Host, policy: Policy, candidate: Ref) returns (v: Visit)
    requires IsMapping(h, candidate)
    ensures !v.Stop?
    ensures v.Continue? ==> Adds(h, host, candidate, v.more) && (policy.allowRemoteRef || RefsLocal(h, candidate))
    ensures v.Raise? ==> v.error == RemoteRef && !policy.allowRemoteRef && !RefsLocal(h, candidate)
  {
    var more := Subresources(host, candidate);
    for k := 0 to |REFERENCE_KEYWORDS|
      invariant forall j :: 0 <= j < |more| ==> Edge(h, host, candidate, more[j])
      invariant forall s :: s in Subresources(host, candidate) ==> s in more
      invariant forall j :: 0 <= j < k ==> policy.allowRemoteRef || LocalAt(h, candidate, REFERENCE_KEYWORDS[j])
      invariant forall j :: 0 <= j < k && Target(h, host, candidate, REFERENCE_KEYWORDS[j]).Some?
                  ==> Target(h, host, candidate, REFERENCE_KEYWORDS[j]).value in more
    {
      var reference := TextAt(h, candidate, REFERENCE_KEYWORDS[k]);
      if reference.Some? {
        if !IsLocal(reference.value) {
          if !policy.allowRemoteRef {
            return Raise(RemoteRef);
          }
        } else if reference.value in host.lookup {
          more := more + [host.lookup[reference.value]];
        }
      }
    }
    assert REFERENCE_KEYWORDS[0] == "$ref" && REFERENCE_KEYWORDS[1] == "$dynamicRef";
    return Continue(more);
  }

  /** `_schema_execution_walk`. It terminates on every finite heap. It returns without a
      keyword exactly when the reachable mappings are few enough and all pass, and has then
      counted each of them once. */
  method Walk(h: Heap, host: Host, policy: Policy, stopAtPattern: bool, root: Ref) returns (r: WalkResult)
    requires root in h
    ensures (r.Walked? && r.keyword.None?) <==> Accepts(h, host, policy, stopAtPattern, root)
    ensures r.Walked? && r.keyword.None? ==> r.steps == |Reachable(h, host, root)|
    ensures r.Walked? && r.keyword.Some? ==> stopAtPattern
    ensures r.Walked? && r.keyword.Some? ==>
      exists m :: m in Reachable(h, host, root) && IsMapping(h, m) && Bears(h, m, r.keyword.value)
    ensures r.Raised? ==> Justified(h, host, policy, stopAtPattern, root, r.error)
  {
    var pending := [root];
    var visited: set<Ref> := {};
    var steps: nat := 0;
    ghost var reachable := Reachable(h, host, root);
    ReachableStart(h, host, root);
    ReachableAreMappings(h, host, root);
    while pending != []
      invariant WalkInvariant(h, host, root, pending, visited)
      invariant AllPass(h, host, policy, stopAtPattern, visited)
      invariant steps == |visited| <= policy.maxValidationSteps
      decreases reachable - visited, |pending|
    {
      var candidate := pending[|pending| - 1];
      if !IsMapping(h, candidate) || candidate in visited {
        WalkSkip(h, host, root, pending, visited);
        pending := pending[..|pending| - 1];
        continue;
      }
      ghost var before := visited;
      visited := visited + {candidate};
      steps := steps + 1;
      assert candidate in reachable;
      if steps > policy.maxValidationSteps {
        SubsetSize(visited, reachable);
        return Raised(MaxValidationSteps);
      }
      var v := VisitPatterns(h, host, policy, stopAtPattern, candidate);
      if v.Continue? {
        v := VisitEdges(h, host, policy, candidate);
      }
      match v {
        case Stop(keyword) =>
          return Walked(steps, Some(keyword));
        case Raise(error) =>
          JustifiedRejects(h, host, policy, stopAtPattern, root, error);
          return Raised(error);
        case Continue(more) =>
          WalkVisit(h, host, root, pending, before, more);
          pending := pending[..|pending| - 1] + more;
      }
    }
    ClosedHoldsReachable(h, host, root, visited);
    assert visited == reachable;
    r := Walked(steps, None);
  }
}
