/** The schema execution policy: shape, byte size and walk together. */
module SchemaPolicy {
  import opened Common
  import opened ObjectHeap
  import opened Unfolding
  import opened SchemaWalk
  import opened SchemaMeaning
  import ShapeMetrics

  datatype PolicyResult =
    | Admitted(schemaBytes: nat, nodes: nat, depth: nat, steps: nat)
    | NotASchema
    | BadShape(shape: ShapeMetrics.ShapeError)
    | NotCanonical
    | MaxSchemaBytes
    | BadWalk(walk: WalkError)

  ghost predicate Descends(g: Graph, r: Ref, s: Ref) {
    exists w :: PathFrom(g, r, w) && w[|w| - 1] == s
  }

  /** Subresources lie below their mapping, and local references resolve inside the document. */
  ghost predicate InDocument(h: Heap, host: Host, root: Ref) {
    && (forall r, s :: r in h && s in Subresources(host, r) ==> Descends(ShapeMetrics.ShapeGraph(h), r, s))
    && (forall x :: x in host.lookup ==> Descends(ShapeMetrics.ShapeGraph(h), root, host.lookup[x]))
  }

  lemma DescendsTransitive(g: Graph, a: Ref, b: Ref, c: Ref)
    requires Descends(g, a, b) && Descends(g, b, c)
    ensures Descends(g, a, c)
  {
    var v :| PathFrom(g, a, v) && v[|v| - 1] == b;
    var w :| PathFrom(g, b, w) && w[|w| - 1] == c;
    var u := v + w[1..];
    forall i | 0 <= i < |u| - 1
      ensures g[u[i]].Some? && u[i + 1] in g[u[i]].value
    {
      if i < |v| - 1 {
        assert u[i] == v[i] && u[i + 1] == v[i + 1];
      } else {
        assert u[i] == w[i - |v| + 1] && u[i + 1] == w[i - |v| + 2];
      }
    }
    assert PathFrom(g, a, u);
  }

  /** Every mapping the walk can visit is a node of the unfolding of the schema. */
  lemma ReachableInTree(h: Heap, host: Host, root: Ref, t: Tree)
    requires root in h && InDocument(h, host, root) && Unfolds(ShapeMetrics.ShapeGraph(h), root, t)
    ensures Reachable(h, host, root) <= Refs(t)
  {
    var g := ShapeMetrics.ShapeGraph(h);
    var below := set r | r in h && Descends(g, root, r);
    forall r, s | r in below && Edge(h, host, r, s) && IsMapping(h, s)
      ensures s in below
    {
      if s in Subresources(host, r) {
        DescendsTransitive(g, root, r, s);
      }
    }
    assert PathFrom(g, root, [root]);
    ClosedHoldsReachable(h, host, root, below);
    forall r | r in below
      ensures r in Refs(t)
    {
      var w :| PathFrom(g, root, w) && w[|w| - 1] == r;
      PathInsideTree(g, root, t, w);
    }
  }

  /** The walk takes at most as many steps as the shape has nodes: each visited mapping is a
      distinct container that occurs in the unfolding. */
  lemma StepsWithinNodes(h: Heap, host: Host, root: Ref, t: Tree)
    requires root in h && InDocument(h, host, root) && Unfolds(ShapeMetrics.ShapeGraph(h), root, t)
    ensures |Reachable(h, host, root)| <= Size(t)
  {
    ReachableInTree(h, host, root, t);
    SubsetSize(Reachable(h, host, root), Refs(t));
    RefsFit(t);
  }

  predicate IsSchema(o: Object) {
    o.Mapping? || (o.Scalar? && o.leaf.Boolean?)
  }

  /** `enforce_schema_execution_policy`. `canonicalBytes` is the UTF-8 length of the canonical
      text, or `None` where the encoder raises. */
  method Enforce(h: Heap, host: Host, policy: Policy, root: Ref, canonicalBytes: Option<nat>)
    returns (r: PolicyResult)
    requires Closed(h) && root in h
    ensures r.Admitted? <==>
      && (h[root].Mapping? || (h[root].Scalar? && h[root].leaf.Boolean?))
      && ShapeMetrics.WithinLimits(ShapeMetrics.ShapeGraph(h), root, policy.maxNodes, policy.maxDepth)
      && canonicalBytes.Some? && canonicalBytes.value <= policy.maxSchemaBytes
      && Conforms(h, host, policy, root)
    ensures r.NotASchema? <==> !IsSchema(h[root])
    ensures r.BadShape? ==>
      ShapeMetrics.Justified(ShapeMetrics.ShapeGraph(h), root, policy.maxNodes, policy.maxDepth, r.shape)
    ensures r.NotCanonical? ==> canonicalBytes.None?
    ensures r.MaxSchemaBytes? ==> canonicalBytes.Some? && canonicalBytes.value > policy.maxSchemaBytes
    ensures r.BadWalk? ==> Blames(h, host, policy, root, r.walk)
    ensures r.Admitted? ==>
      && canonicalBytes == Some(r.schemaBytes)
      && r.steps == |Visited(h, host, root)|
      && exists t :: Unfolds(ShapeMetrics.ShapeGraph(h), root, t) && r.nodes == Size(t) && r.depth == Height(t)
    ensures r.Admitted? && InDocument(h, host, root) ==> r.steps <= r.nodes <= policy.maxNodes
    ensures InDocument(h, host, root) && policy.maxNodes <= policy.maxValidationSteps
      ==> r != BadWalk(MaxValidationSteps)
  {
    if !IsSchema(h[root]) {
      return NotASchema;
    }
    var shape := ShapeMetrics.Measure(h, root, policy.maxNodes, policy.maxDepth);
    if shape.Refused? {
      return BadShape(shape.error);
    }
    if canonicalBytes.None? {
      return NotCanonical;
    }
    if canonicalBytes.value > policy.maxSchemaBytes {
      return MaxSchemaBytes;
    }
    ghost var t :| Unfolds(ShapeMetrics.ShapeGraph(h), root, t) && shape.nodes == Size(t) && shape.depth == Height(t);
    ghost var u :| Unfolds(ShapeMetrics.ShapeGraph(h), root, u) && Size(u) <= policy.maxNodes;
    UnfoldingUnique(ShapeMetrics.ShapeGraph(h), root, t, u);
    if InDocument(h, host, root) {
      StepsWithinNodes(h, host, root, t);
    }
    var walk := Walk(h, host, policy, false, root);
    AcceptsMeans(h, host, policy, root);
    VisitedMeans(h, host, root);
    match walk {
      case Raised(error) =>
        JustifiedMeans(h, host, policy, root, error);
        return BadWalk(error);
      case Walked(steps, _) => return Admitted(canonicalBytes.value, shape.nodes, shape.depth, steps);
    }
  }

  /** `find_regular_expression_keyword`: the walk under the default policy, stopping at the
      first pattern keyword. */
  method FindKeyword(h: Heap, host: Host, root: Ref) returns (r: WalkResult)
    requires root in h
    ensures (r.Walked? && r.keyword.None?) <==> Accepts(h, host, DEFAULT_POLICY, true, root)
    ensures (r.Walked? && r.keyword.None?) <==>
      && |Visited(h, host, root)| <= 20_000
      && (forall m :: m in Visited(h, host, root) ==> !HasKeyword(h, m))
      && (forall m, x :: m in Visited(h, host, root) && HasReference(h, m, x) ==> IntoDocument(x))
    ensures r.Walked? && r.keyword.Some? ==>
      exists m :: m in Visited(h, host, root) && Uses(h, m, r.keyword.value)
    ensures r.Raised? ==> Justified(h, host, DEFAULT_POLICY, true, root, r.error)
  {
    r := Walk(h, host, DEFAULT_POLICY, true, root);
    SearchMeans(h, host, DEFAULT_POLICY, root);
    if r.Walked? && r.keyword.Some? {
      ghost var m :| m in Reachable(h, host, root) && IsMapping(h, m) && Bears(h, m, r.keyword.value);
      VisitedMeans(h, host, root);
      KeywordMeans(h, m);
    }
  }

  /** A `patternProperties` mapping that has entries but no string key. */
  ghost predicate KeyedWithoutText(h: Heap, r: Ref)
    requires IsMapping(h, r)
  {
    PropertyPatterns(h, r) != [] && forall p :: Text(p) !in PropertyPatterns(h, r)
  }

  /** Finding no keyword means: the untrusted walk accepts, and no reachable mapping hides
      its property patterns behind keys that are not strings. */
  lemma FindsNoneIff(h: Heap, host: Host, root: Ref)
    ensures Accepts(h, host, DEFAULT_POLICY, true, root) <==>
      && Accepts(h, host, UNTRUSTED_POLICY, false, root)
      && (forall r :: r in Reachable(h, host, root) && IsMapping(h, r) ==> !KeyedWithoutText(h, r))
  {
    ReachableAreMappings(h, host, root);
    forall r | r in Reachable(h, host, root)
      ensures Passes(h, host, DEFAULT_POLICY, true, r) <==>
        Passes(h, host, UNTRUSTED_POLICY, false, r) && !KeyedWithoutText(h, r)
    {
      PassesIff(h, host, r);
    }
  }

  lemma PassesIff(h: Heap, host: Host, r: Ref)
    requires IsMapping(h, r)
    ensures Passes(h, host, DEFAULT_POLICY, true, r) <==>
      Passes(h, host, UNTRUSTED_POLICY, false, r) && !KeyedWithoutText(h, r)
  {
    if PatternsPass(h, host, UNTRUSTED_POLICY, r) {
      forall p ensures !Carries(h, r, p) {
        assert CheckPattern(host, UNTRUSTED_POLICY, p).Some?;
      }
      if TextAt(h, r, "pattern").Some? {
        assert Carries(h, r, TextAt(h, r, "pattern").value);
      }
      if !KeyedWithoutText(h, r) && PropertyPatterns(h, r) != [] {
        var p :| Text(p) in PropertyPatterns(h, r);
        assert Carries(h, r, p);
      }
    }
    if !BearsKeyword(h, r) {
      forall p ensures !Carries(h, r, p) {
      }
    }
  }

  /** Every `patternProperties` key of the document is a string. */
  ghost predicate StringKeyed(h: Heap) {
    forall r, k :: IsMapping(h, r) && k in PropertyPatterns(h, r) ==> k.Text?
  }

  /** For every string-keyed schema the two runs agree. */
  lemma UntrustedAgreesWithFind(h: Heap, host: Host, root: Ref)
    requires StringKeyed(h)
    ensures Accepts(h, host, UNTRUSTED_POLICY, false, root) <==> Accepts(h, host, DEFAULT_POLICY, true, root)
  {
    FindsNoneIff(h, host, root);
    forall r | IsMapping(h, r)
      ensures !KeyedWithoutText(h, r)
    {
      if PropertyPatterns(h, r) != [] {
        var k := PropertyPatterns(h, r)[0];
        assert k in PropertyPatterns(h, r);
        assert k == Text(k.text);
      }
    }
  }

  /** Without string keys they need not: a property pattern under another kind of key stops
      the search but passes the untrusted walk. */
  lemma UntrustedMissesOpaqueKeys() returns (h: Heap, host: Host, root: Ref)
    ensures Closed(h) && root in h
    ensures Accepts(h, host, UNTRUSTED_POLICY, false, root)
    ensures !Accepts(h, host, DEFAULT_POLICY, true, root)
  {
    h := map[
      0 := Mapping([(Text("patternProperties"), 1)], true),
      1 := Mapping([(Opaque(0), 2)], true),
      2 := Scalar(Boolean(true))];
    host := Host(map[], map[], c => '0' <= c <= '9');
    root := 0;
    assert Get(h[0].entries, Text("patternProperties")) == Some(1);
    assert PropertyPatterns(h, 0) == [Opaque(0)];
    assert h[0].entries[1..] == [];
    assert forall k :: k != Text("patternProperties") ==> Get(h[0].entries, k) == None;
    assert forall s :: !Edge(h, host, 0, s);
    ReachableStart(h, host, root);
    ClosedHoldsReachable(h, host, root, {0});
    assert Reachable(h, host, root) == {0};
    assert forall p :: !Carries(h, 0, p);
    assert BearsKeyword(h, 0);
  }
}
