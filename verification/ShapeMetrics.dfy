/** The explicit-stack traversal that measures a schema before it is executed. */
module ShapeMetrics {
  import opened Common
  import opened ObjectHeap
  import opened Unfolding

  /** `KeyMissing` is the `KeyError` that removing an absent identity would raise. */
  datatype ShapeError = MaxNodes | MaxDepth | RecursiveSchema | UnstableSchema | KeyMissing

  datatype ShapeResult = Measured(nodes: nat, depth: nat) | Refused(error: ShapeError)

  datatype Frame = Frame(ref: Ref, depth: nat, leaving: bool)

  /** Every container, whatever its kind, has children; a scalar has none. */
  function ShapeGraph(h: Heap): (g: Graph)
    ensures g.Keys == h.Keys
  {
    map r | r in h :: ShapeChildren(h[r])
  }

  function ShapeChildren(o: Object): Option<seq<Ref>> {
    match o
    case Scalar(_) => Some([])
    case _ => if o.readable then Some(Held(o)) else None
  }

  lemma ShapeGraphClosed(h: Heap)
    requires Closed(h)
    ensures ClosedGraph(ShapeGraph(h))
  {
    var g := ShapeGraph(h);
    forall r, c | r in g && g[r].Some? && c in g[r].value
      ensures c in g
    {
      assert c in Held(h[r]);
    }
  }

  /** The unfolding of `root` is finite and within both limits. */
  ghost predicate WithinLimits(g: Graph, root: Ref, maxNodes: nat, maxDepth: nat) {
    exists t :: Unfolds(g, root, t) && Size(t) <= maxNodes && Height(t) <= maxDepth
  }

  /** What each refusal means about the graph. */
  ghost predicate Justified(g: Graph, root: Ref, maxNodes: nat, maxDepth: nat, e: ShapeError) {
    match e
    case MaxNodes => forall t :: Unfolds(g, root, t) ==> Size(t) > maxNodes
    case MaxDepth => exists w: seq<Ref> :: PathFrom(g, root, w) && |w| - 1 > maxDepth
    case RecursiveSchema => exists w: seq<Ref> :: PathFrom(g, root, w) && !NoRepeats(w)
    case UnstableSchema => exists w: seq<Ref> :: PathFrom(g, root, w) && g[w[|w| - 1]].None?
    case KeyMissing => false
  }

  /** No refusal is spurious: each one rules out an unfolding within the limits. */
  lemma RefusalExcludes(g: Graph, root: Ref, maxNodes: nat, maxDepth: nat, e: ShapeError)
    requires Justified(g, root, maxNodes, maxDepth, e)
    ensures !WithinLimits(g, root, maxNodes, maxDepth)
  {
    forall t | Unfolds(g, root, t) && Size(t) <= maxNodes && Height(t) <= maxDepth
      ensures false
    {
      if e != MaxNodes {
        var w: seq<Ref> :| PathFrom(g, root, w) &&
          (|w| - 1 > maxDepth || !NoRepeats(w) || g[w[|w| - 1]].None?);
        PathInsideTree(g, root, t, w);
        SimpleInsideTree(g, root, t, w);
      }
    }
  }

  // ---------- the work that is left, measured on a given unfolding of each frame ----------

  function PendingSize(pending: seq<Frame>, trees: seq<Tree>): nat
    requires |pending| == |trees|
  {
    if pending == [] then 0
    else
      var n := |pending| - 1;
      PendingSize(pending[..n], trees[..n]) + if pending[n].leaving then 0 else Size(trees[n])
  }

  function PendingHeight(pending: seq<Frame>, trees: seq<Tree>): int
    requires |pending| == |trees|
  {
    if pending == [] then 0
    else
      var n := |pending| - 1;
      Max(PendingHeight(pending[..n], trees[..n]),
          if pending[n].leaving then 0 else pending[n].depth + Height(trees[n]))
  }

  function Enter(kids: seq<Ref>, depth: nat): (fs: seq<Frame>)
    ensures |fs| == |kids|
    ensures forall i :: 0 <= i < |fs| ==> fs[i] == Frame(kids[i], depth, false)
  {
    seq(|kids|, i requires 0 <= i < |kids| => Frame(kids[i], depth, false))
  }

  lemma PushLast(pending: seq<Frame>, trees: seq<Tree>, kids: seq<Ref>, depth: nat, ts: seq<Tree>)
    requires |pending| == |trees| && |kids| == |ts| > 0
    ensures var n := |kids| - 1;
            var p, q, p', q' :=
              pending + Enter(kids, depth), trees + ts, pending + Enter(kids[..n], depth), trees + ts[..n];
            && PendingSize(p, q) == PendingSize(p', q') + Size(ts[n])
            && PendingHeight(p, q) == Max(PendingHeight(p', q'), depth + Height(ts[n]))
  {
    var n := |kids| - 1;
    var p, q := pending + Enter(kids, depth), trees + ts;
    assert p[..|p| - 1] == pending + Enter(kids[..n], depth);
    assert q[..|q| - 1] == trees + ts[..n];
  }

  lemma {:induction false} PushSize(pending: seq<Frame>, trees: seq<Tree>, kids: seq<Ref>, depth: nat, ts: seq<Tree>)
    requires |pending| == |trees| && |kids| == |ts|
    ensures PendingSize(pending + Enter(kids, depth), trees + ts) == PendingSize(pending, trees) + SumSize(ts)
    decreases |kids|
  {
    if kids == [] {
      assert pending + Enter(kids, depth) == pending && trees + ts == trees;
    } else {
      var n := |kids| - 1;
      PushSize(pending, trees, kids[..n], depth, ts[..n]);
      PushLast(pending, trees, kids, depth, ts);
      assert ts[..n] + [ts[n]] == ts;
      SumSizeAppend(ts[..n], ts[n]);
    }
  }

  lemma {:induction false} PushHeight(pending: seq<Frame>, trees: seq<Tree>, kids: seq<Ref>, depth: nat, ts: seq<Tree>)
    requires |pending| == |trees| && |kids| == |ts|
    ensures PendingHeight(pending + Enter(kids, depth), trees + ts)
         == Max(PendingHeight(pending, trees), if ts == [] then 0 else depth + MaxHeight(ts))
    decreases |kids|
  {
    PendingHeightNonNegative(pending, trees);
    if kids == [] {
      assert pending + Enter(kids, depth) == pending && trees + ts == trees;
    } else {
      var n := |kids| - 1;
      PushHeight(pending, trees, kids[..n], depth, ts[..n]);
      PushLast(pending, trees, kids, depth, ts);
      MaxHeightLast(ts);
      MaxStep(PendingHeight(pending, trees), depth, MaxHeight(ts[..n]), Height(ts[n]), n == 0);
    }
  }

  lemma MaxHeightLast(ts: seq<Tree>)
    requires ts != []
    ensures MaxHeight(ts) == Max(MaxHeight(ts[..|ts| - 1]), Height(ts[|ts| - 1]))
    ensures |ts| == 1 ==> MaxHeight(ts[..|ts| - 1]) == -1
  {
    assert ts[..|ts| - 1] + [ts[|ts| - 1]] == ts;
    SumSizeAppend(ts[..|ts| - 1], ts[|ts| - 1]);
  }

  lemma MaxStep(h: int, d: nat, m: int, x: nat, first: bool)
    requires h >= 0 && m >= -1 && (first ==> m == -1)
    ensures Max(Max(h, if first then 0 else d + m), d + x) == Max(h, d + Max(m, x))
  {
  }

  lemma {:induction false} PendingHeightNonNegative(pending: seq<Frame>, trees: seq<Tree>)
    requires |pending| == |trees|
    ensures PendingHeight(pending, trees) >= 0
  {
    if pending != [] {
      PendingHeightNonNegative(pending[..|pending| - 1], trees[..|pending| - 1]);
    }
  }

  // ---------- loop invariants ----------

  /** The active set is exactly the identities of the leave markers, each of them once. */
  ghost predicate MarkersAreActive(pending: seq<Frame>, active: set<Ref>) {
    && (forall r :: r in active ==> exists k :: 0 <= k < |pending| && pending[k] == Frame(r, pending[k].depth, true))
    && (forall k :: 0 <= k < |pending| && pending[k].leaving ==> pending[k].ref in active)
    && (forall k, m :: 0 <= k < m < |pending| && pending[k].leaving && pending[m].leaving
          ==> pending[k].ref != pending[m].ref)
  }

  /** Each frame comes with the path that led to it; whatever lies above a leave marker was
      reached through the marked container. */
  ghost predicate Routed(g: Graph, root: Ref, pending: seq<Frame>, ways: seq<seq<Ref>>) {
    && |ways| == |pending|
    && (forall i :: 0 <= i < |pending| ==> Leads(g, root, ways[i], pending[i]))
    && Nested(pending, ways)
  }

  /** The path leads from the root to the frame. */
  ghost predicate Leads(g: Graph, root: Ref, way: seq<Ref>, f: Frame) {
    PathFrom(g, root, way) && way[|way| - 1] == f.ref && |way| == f.depth + 1
  }

  ghost predicate Nested(pending: seq<Frame>, ways: seq<seq<Ref>>)
    requires |ways| == |pending|
  {
    forall k, i :: 0 <= k < i < |pending| && pending[k].leaving ==> ways[k] < ways[i]
  }

  ghost predicate Covered(pending: seq<Frame>, k: nat, c: Ref) {
    exists i :: 0 <= i < |pending| && k < i && pending[i].ref == c
  }

  /** Every child of a marked container is already unfolded or still waits above the marker. */
  ghost predicate Accounted(g: Graph, root: Ref, pending: seq<Frame>, done: map<Ref, Tree>) {
    && (forall r :: r in done ==> Unfolds(g, r, done[r]))
    && (if pending == [] then root in done else pending[0].ref == root)
    && (forall k :: 0 <= k < |pending| && pending[k].leaving ==>
          && pending[k].ref in g && g[pending[k].ref].Some?
          && forall c :: c in g[pending[k].ref].value ==> c in done || Covered(pending, k, c))
  }

  /** Against the unfolding of the root: nodes seen plus nodes waiting, and the depth seen or
      still to be seen, never change. */
  ghost predicate Conserved(g: Graph, pending: seq<Frame>, trees: seq<Tree>, nodes: nat, depth: nat, whole: Tree) {
    && |trees| == |pending|
    && (forall i :: 0 <= i < |pending| ==> Unfolds(g, pending[i].ref, trees[i]))
    && nodes + PendingSize(pending, trees) == Size(whole)
    && Max(depth, PendingHeight(pending, trees)) == Height(whole)
  }

  // ---------- one iteration ----------

  lemma PopAccounted(g: Graph, root: Ref, pending: seq<Frame>, done: map<Ref, Tree>, t: Tree)
    requires |pending| > 0 && Accounted(g, root, pending, done)
    requires Unfolds(g, pending[|pending| - 1].ref, t)
    ensures Accounted(g, root, pending[..|pending| - 1], done[pending[|pending| - 1].ref := t])
  {
    var n := |pending| - 1;
    var rest := pending[..n];
    var done' := done[pending[n].ref := t];
    forall k, c | 0 <= k < |rest| && rest[k].leaving && c in g[rest[k].ref].value
      ensures c in done' || Covered(rest, k, c)
    {
      assert pending[k] == rest[k];
      if c !in done' {
        var i :| k < i < |pending| && pending[i].ref == c;
        assert rest[i].ref == c;
      }
    }
  }

  lemma MarkedTree(g: Graph, root: Ref, pending: seq<Frame>, done: map<Ref, Tree>) returns (t: Tree)
    requires |pending| > 0 && pending[|pending| - 1].leaving && Accounted(g, root, pending, done)
    ensures Unfolds(g, pending[|pending| - 1].ref, t)
  {
    var r := pending[|pending| - 1].ref;
    var kids := g[r].value;
    forall i | 0 <= i < |kids|
      ensures kids[i] in done
    {
      assert kids[i] in g[r].value;
      assert !Covered(pending, |pending| - 1, kids[i]);
    }
    t := Node(r, seq(|kids|, i requires 0 <= i < |kids| => done[kids[i]]));
  }

  function Opened(pending: seq<Frame>, kids: seq<Ref>): seq<Frame>
    requires |pending| > 0
  {
    var top := pending[|pending| - 1];
    pending[..|pending| - 1] + [Frame(top.ref, top.depth, true)] + Enter(kids, top.depth + 1)
  }

  lemma OpenAccounted(g: Graph, root: Ref, pending: seq<Frame>, done: map<Ref, Tree>, kids: seq<Ref>)
    requires |pending| > 0 && Accounted(g, root, pending, done)
    requires pending[|pending| - 1].ref in g && g[pending[|pending| - 1].ref] == Some(kids)
    ensures Accounted(g, root, Opened(pending, kids), done)
  {
    var n := |pending| - 1;
    var next := Opened(pending, kids);
    forall k, c | 0 <= k < |next| && next[k].leaving && c in g[next[k].ref].value
      ensures c in done || Covered(next, k, c)
    {
      assert k <= n;
      if k < n {
        assert next[k] == pending[k];
        if c !in done {
          var i :| k < i < |pending| && pending[i].ref == c;
          assert next[i].ref == c;
        }
      } else {
        var j :| 0 <= j < |kids| && kids[j] == c;
        assert next[n + 1 + j].ref == c;
      }
    }
  }

  function OpenedWays(ways: seq<seq<Ref>>, kids: seq<Ref>): (next: seq<seq<Ref>>)
    requires |ways| > 0
    ensures |next| == |ways| + |kids|
    ensures forall i :: 0 <= i < |ways| ==> next[i] == ways[i]
    ensures forall j :: 0 <= j < |kids| ==> next[|ways| + j] == ways[|ways| - 1] + [kids[j]]
  {
    ways + seq(|kids|, j requires 0 <= j < |kids| => ways[|ways| - 1] + [kids[j]])
  }

  lemma OpenedRoad(g: Graph, root: Ref, f: Frame, ways: seq<seq<Ref>>, kids: seq<Ref>, j: nat)
    requires ClosedGraph(g) && ways != [] && j < |kids|
    requires Leads(g, root, ways[|ways| - 1], f)
    requires f.ref in g && g[f.ref] == Some(kids)
    ensures Leads(g, root, OpenedWays(ways, kids)[|ways| + j], Frame(kids[j], f.depth + 1, false))
  {
    assert kids[j] in g[f.ref].value;
    ExtendPath(g, root, ways[|ways| - 1], kids[j]);
  }

  lemma OpenRouted(g: Graph, root: Ref, pending: seq<Frame>, ways: seq<seq<Ref>>, kids: seq<Ref>)
    requires ClosedGraph(g) && |pending| > 0 && Routed(g, root, pending, ways)
    requires g[pending[|pending| - 1].ref] == Some(kids)
    ensures Routed(g, root, Opened(pending, kids), OpenedWays(ways, kids))
  {
    var n := |pending| - 1;
    var next, roads := Opened(pending, kids), OpenedWays(ways, kids);
    forall i | 0 <= i < |next| ensures Leads(g, root, roads[i], next[i]) {
      if i > n {
        OpenedRoad(g, root, pending[n], ways, kids, i - n - 1);
      } else {
        assert Leads(g, root, ways[i], pending[i]);
      }
    }
    OpenNested(pending, ways, kids);
  }

  lemma OpenNested(pending: seq<Frame>, ways: seq<seq<Ref>>, kids: seq<Ref>)
    requires |pending| == |ways| > 0 && Nested(pending, ways)
    ensures Nested(Opened(pending, kids), OpenedWays(ways, kids))
  {
    var n := |pending| - 1;
    var next, roads := Opened(pending, kids), OpenedWays(ways, kids);
    forall k, i | 0 <= k < i < |next| && next[k].leaving ensures roads[k] < roads[i] {
      if i > n {
        assert roads[|ways| + (i - n - 1)] == ways[n] + [kids[i - n - 1]];
        assert k <= n && (k < n ==> ways[k] < ways[n]);
      }
    }
  }

  lemma OpenMarkers(pending: seq<Frame>, active: set<Ref>, kids: seq<Ref>)
    requires |pending| > 0 && !pending[|pending| - 1].leaving && MarkersAreActive(pending, active)
    requires pending[|pending| - 1].ref !in active
    ensures MarkersAreActive(Opened(pending, kids), active + {pending[|pending| - 1].ref})
  {
    var n := |pending| - 1;
    var next := Opened(pending, kids);
    forall r | r in active + {pending[n].ref}
      ensures exists k :: 0 <= k < |next| && next[k] == Frame(r, next[k].depth, true)
    {
      if r == pending[n].ref {
        assert next[n] == Frame(r, next[n].depth, true);
      } else {
        var k :| 0 <= k < |pending| && pending[k] == Frame(r, pending[k].depth, true);
        assert next[k] == Frame(r, next[k].depth, true);
      }
    }
  }

  lemma PopMarkers(pending: seq<Frame>, active: set<Ref>)
    requires |pending| > 0 && MarkersAreActive(pending, active)
    ensures pending[|pending| - 1].leaving ==> pending[|pending| - 1].ref in active
    ensures MarkersAreActive(pending[..|pending| - 1],
              if pending[|pending| - 1].leaving then active - {pending[|pending| - 1].ref} else active)
  {
    var n := |pending| - 1;
    var rest := pending[..n];
    var left := if pending[n].leaving then active - {pending[n].ref} else active;
    forall r | r in left
      ensures exists k :: 0 <= k < |rest| && rest[k] == Frame(r, rest[k].depth, true)
    {
      var k :| 0 <= k < |pending| && pending[k] == Frame(r, pending[k].depth, true);
      assert rest[k] == Frame(r, rest[k].depth, true);
    }
  }

  lemma OpenMeasures(pending: seq<Frame>, trees: seq<Tree>, kids: seq<Ref>)
    requires |pending| > 0 && !pending[|pending| - 1].leaving && |trees| == |pending|
    requires |trees[|trees| - 1].kids| == |kids|
    ensures var top, t := pending[|pending| - 1], trees[|trees| - 1];
      && PendingSize(Opened(pending, kids), trees + t.kids) + 1 == PendingSize(pending, trees)
      && Max(top.depth, PendingHeight(Opened(pending, kids), trees + t.kids))
         == PendingHeight(pending, trees)
  {
    var n := |pending| - 1;
    var t, top := trees[n], pending[n];
    var marked := pending[..n] + [Frame(top.ref, top.depth, true)];
    assert Opened(pending, kids) == marked + Enter(kids, top.depth + 1);
    assert marked[..n] == pending[..n];
    PushSize(marked, trees, kids, top.depth + 1, t.kids);
    PushHeight(marked, trees, kids, top.depth + 1, t.kids);
    PendingHeightNonNegative(pending[..n], trees[..n]);
    assert Height(t) == 1 + MaxHeight(t.kids);
    assert PendingHeight(pending, trees) == Max(PendingHeight(pending[..n], trees[..n]), top.depth + Height(t));
  }

  lemma OpenTrees(g: Graph, pending: seq<Frame>, trees: seq<Tree>, kids: seq<Ref>)
    requires |pending| > 0 && |trees| == |pending|
    requires forall i :: 0 <= i < |pending| ==> Unfolds(g, pending[i].ref, trees[i])
    requires pending[|pending| - 1].ref in g && g[pending[|pending| - 1].ref] == Some(kids)
    ensures |trees[|trees| - 1].kids| == |kids|
    ensures var next, ts := Opened(pending, kids), trees + trees[|trees| - 1].kids;
      |ts| == |next| && forall i :: 0 <= i < |next| ==> Unfolds(g, next[i].ref, ts[i])
  {
    var n := |pending| - 1;
    var t := trees[n];
    assert Unfolds(g, pending[n].ref, t);
    var next, ts := Opened(pending, kids), trees + t.kids;
    forall i | 0 <= i < |next|
      ensures Unfolds(g, next[i].ref, ts[i])
    {
      if i > n {
        assert Unfolds(g, kids[i - n - 1], t.kids[i - n - 1]);
      } else {
        assert Unfolds(g, pending[i].ref, trees[i]);
      }
    }
  }

  lemma OpenConserved(g: Graph, pending: seq<Frame>, trees: seq<Tree>, nodes: nat, depth: nat, whole: Tree,
                      kids: seq<Ref>)
    requires |pending| > 0 && !pending[|pending| - 1].leaving
    requires Conserved(g, pending, trees, nodes, depth, whole)
    requires pending[|pending| - 1].ref in g && g[pending[|pending| - 1].ref] == Some(kids)
    ensures Conserved(g, Opened(pending, kids), trees + trees[|trees| - 1].kids,
                      nodes + 1, Max(depth, pending[|pending| - 1].depth), whole)
  {
    OpenTrees(g, pending, trees, kids);
    OpenMeasures(pending, trees, kids);
  }

  /** A scalar popped from the stack, or a marker, is the same step with no children. */
  lemma LeafConserved(g: Graph, pending: seq<Frame>, trees: seq<Tree>, nodes: nat, depth: nat, whole: Tree)
    requires |pending| > 0 && Conserved(g, pending, trees, nodes, depth, whole)
    requires var top := pending[|pending| - 1]; top.leaving || (top.ref in g && g[top.ref] == Some([]))
    ensures var top := pending[|pending| - 1];
      Conserved(g, pending[..|pending| - 1], trees[..|trees| - 1],
                if top.leaving then nodes else nodes + 1,
                if top.leaving then depth else Max(depth, top.depth), whole)
  {
    var n := |pending| - 1;
    PendingHeightNonNegative(pending[..n], trees[..n]);
    if !pending[n].leaving {
      assert Unfolds(g, pending[n].ref, trees[n]);
      assert trees[n].kids == [];
      assert Size(trees[n]) == 1 && Height(trees[n]) == 0;
    }
  }

  lemma CycleOnStack(g: Graph, root: Ref, pending: seq<Frame>, ways: seq<seq<Ref>>, active: set<Ref>)
    requires |pending| > 0 && !pending[|pending| - 1].leaving
    requires Routed(g, root, pending, ways) && MarkersAreActive(pending, active)
    requires pending[|pending| - 1].ref in active
    ensures PathFrom(g, root, ways[|pending| - 1]) && !NoRepeats(ways[|pending| - 1])
  {
    var n := |pending| - 1;
    var k :| 0 <= k < |pending| && pending[k] == Frame(pending[n].ref, pending[k].depth, true);
    var w := ways[n];
    assert ways[k] < w;
    assert w[|ways[k]| - 1] == w[|w| - 1];
  }

  lemma Overrun(g: Graph, root: Ref, pending: seq<Frame>, trees: seq<Tree>, nodes: nat, depth: nat, whole: Tree,
                finite: bool, maxNodes: nat)
    requires |pending| > 0 && !pending[|pending| - 1].leaving
    requires finite <==> Finite(g, root)
    requires finite ==> Unfolds(g, root, whole) && Conserved(g, pending, trees, nodes, depth, whole)
    requires nodes >= maxNodes
    ensures forall t :: Unfolds(g, root, t) ==> Size(t) > maxNodes
  {
    forall t | Unfolds(g, root, t)
      ensures Size(t) > maxNodes
    {
      assert Finite(g, root);
      UnfoldingUnique(g, root, t, whole);
    }
  }

  /** Proof state of the loop: the unfolding of each frame, the path to it, and the
      references already unfolded. */
  datatype Trail = Trail(trees: seq<Tree>, ways: seq<seq<Ref>>, done: map<Ref, Tree>, whole: Tree)

  ghost predicate LoopInvariant(g: Graph, root: Ref, pending: seq<Frame>, active: set<Ref>,
                                nodes: nat, depth: nat, p: Trail) {
    && MarkersAreActive(pending, active)
    && Routed(g, root, pending, p.ways)
    && Accounted(g, root, pending, p.done)
    && (Finite(g, root) ==> Unfolds(g, root, p.whole) && Conserved(g, pending, p.trees, nodes, depth, p.whole))
  }

  lemma Start(g: Graph, root: Ref) returns (p: Trail)
    requires root in g
    ensures LoopInvariant(g, root, [Frame(root, 0, false)], {}, 0, 0, p)
  {
    var whole: Tree := Node(root, []);
    if Finite(g, root) {
      whole :| Unfolds(g, root, whole);
    }
    p := Trail([whole], [[root]], map[], whole);
    var pending := [Frame(root, 0, false)];
    assert pending[..0] == [] && p.trees[..0] == [];
    assert PendingSize(pending, p.trees) == Size(whole);
    assert PendingHeight(pending, p.trees) == Height(whole);
  }

  lemma LeaveStep(g: Graph, root: Ref, pending: seq<Frame>, active: set<Ref>, nodes: nat, depth: nat, p: Trail)
    returns (q: Trail)
    requires LoopInvariant(g, root, pending, active, nodes, depth, p)
    requires |pending| > 0 && pending[|pending| - 1].leaving
    ensures pending[|pending| - 1].ref in active
    ensures LoopInvariant(g, root, pending[..|pending| - 1], active - {pending[|pending| - 1].ref}, nodes, depth, q)
  {
    var n := |pending| - 1;
    PopMarkers(pending, active);
    var t := MarkedTree(g, root, pending, p.done);
    PopAccounted(g, root, pending, p.done, t);
    var trees: seq<Tree> := [];
    if Finite(g, root) {
      LeafConserved(g, pending, p.trees, nodes, depth, p.whole);
      trees := p.trees[..|p.trees| - 1];
    }
    q := Trail(trees, p.ways[..n], p.done[pending[n].ref := t], p.whole);
  }

  lemma ScalarStep(g: Graph, root: Ref, pending: seq<Frame>, active: set<Ref>, nodes: nat, depth: nat, p: Trail)
    returns (q: Trail)
    requires LoopInvariant(g, root, pending, active, nodes, depth, p)
    requires |pending| > 0 && !pending[|pending| - 1].leaving
    requires pending[|pending| - 1].ref in g && g[pending[|pending| - 1].ref] == Some([])
    ensures LoopInvariant(g, root, pending[..|pending| - 1], active, nodes + 1,
      Max(depth, pending[|pending| - 1].depth), q)
  {
    var n := |pending| - 1;
    PopMarkers(pending, active);
    var t := Node(pending[n].ref, []);
    PopAccounted(g, root, pending, p.done, t);
    var trees: seq<Tree> := [];
    if Finite(g, root) {
      LeafConserved(g, pending, p.trees, nodes, depth, p.whole);
      trees := p.trees[..|p.trees| - 1];
    }
    q := Trail(trees, p.ways[..n], p.done[pending[n].ref := t], p.whole);
  }

  lemma OpenStep(g: Graph, root: Ref, pending: seq<Frame>, active: set<Ref>, nodes: nat, depth: nat, p: Trail,
                 kids: seq<Ref>)
    returns (q: Trail)
    requires ClosedGraph(g) && LoopInvariant(g, root, pending, active, nodes, depth, p)
    requires |pending| > 0 && !pending[|pending| - 1].leaving && pending[|pending| - 1].ref !in active
    requires pending[|pending| - 1].ref in g && g[pending[|pending| - 1].ref] == Some(kids)
    ensures LoopInvariant(g, root, Opened(pending, kids), active + {pending[|pending| - 1].ref},
                          nodes + 1, Max(depth, pending[|pending| - 1].depth), q)
  {
    OpenMarkers(pending, active, kids);
    OpenRouted(g, root, pending, p.ways, kids);
    OpenAccounted(g, root, pending, p.done, kids);
    var trees: seq<Tree> := [];
    if Finite(g, root) {
      OpenConserved(g, pending, p.trees, nodes, depth, p.whole, kids);
      trees := p.trees + p.trees[|p.trees| - 1].kids;
    }
    q := Trail(trees, OpenedWays(p.ways, kids), p.done, p.whole);
  }

  /** Every reason to stop early is a true statement about the graph. */
  lemma StopsAreJustified(g: Graph, root: Ref, pending: seq<Frame>, active: set<Ref>, nodes: nat, depth: nat,
                          p: Trail, maxNodes: nat, maxDepth: nat)
    requires LoopInvariant(g, root, pending, active, nodes, depth, p)
    requires |pending| > 0 && !pending[|pending| - 1].leaving
    ensures pending[|pending| - 1].ref in g
    ensures nodes >= maxNodes ==> Justified(g, root, maxNodes, maxDepth, MaxNodes)
    ensures pending[|pending| - 1].depth > maxDepth ==> Justified(g, root, maxNodes, maxDepth, MaxDepth)
    ensures pending[|pending| - 1].ref in active ==> Justified(g, root, maxNodes, maxDepth, RecursiveSchema)
    ensures g[pending[|pending| - 1].ref].None? ==> Justified(g, root, maxNodes, maxDepth, UnstableSchema)
  {
    var n := |pending| - 1;
    assert Leads(g, root, p.ways[n], pending[n]);
    if nodes >= maxNodes {
      Overrun(g, root, pending, p.trees, nodes, depth, p.whole, Finite(g, root), maxNodes);
    }
    if pending[n].ref in active {
      CycleOnStack(g, root, pending, p.ways, active);
    }
  }

  lemma Finished(g: Graph, root: Ref, active: set<Ref>, nodes: nat, depth: nat, p: Trail)
    requires LoopInvariant(g, root, [], active, nodes, depth, p)
    ensures Unfolds(g, root, p.whole) && nodes == Size(p.whole) && depth == Height(p.whole)
  {
    assert Unfolds(g, root, p.done[root]);
    assert Finite(g, root);
  }

  /** One round of the loop on a frame that is not a leave marker. */
  method EnterFrame(h: Heap, ghost root: Ref, pending: seq<Frame>, active: set<Ref>, nodes: nat, maximumDepth: nat,
                    ghost p: Trail, maxNodes: nat, maxDepth: nat)
    returns (stop: Option<ShapeError>, pending': seq<Frame>, active': set<Ref>, nodes': nat, maximumDepth': nat,
             ghost p': Trail)
    requires Closed(h) && nodes <= maxNodes && maximumDepth <= maxDepth
    requires LoopInvariant(ShapeGraph(h), root, pending, active, nodes, maximumDepth, p)
    requires |pending| > 0 && !pending[|pending| - 1].leaving
    ensures stop.Some? ==> Justified(ShapeGraph(h), root, maxNodes, maxDepth, stop.value)
    ensures stop.None? ==> LoopInvariant(ShapeGraph(h), root, pending', active', nodes', maximumDepth', p')
    ensures stop.None? ==> nodes' == nodes + 1 <= maxNodes && maximumDepth' <= maxDepth
  {
    ghost var g := ShapeGraph(h);
    ShapeGraphClosed(h);
    var n := |pending| - 1;
    var frame := pending[n];
    stop, pending', active', nodes', maximumDepth', p' := None, pending, active, nodes + 1, maximumDepth, p;
    StopsAreJustified(g, root, pending, active, nodes, maximumDepth, p, maxNodes, maxDepth);
    if nodes' > maxNodes {
      stop := Some(MaxNodes);
      return;
    }
    if frame.depth > maxDepth {
      stop := Some(MaxDepth);
      return;
    }
    maximumDepth' := Max(maximumDepth, frame.depth);
    if h[frame.ref].Scalar? {
      p' := ScalarStep(g, root, pending, active, nodes, maximumDepth, p);
      pending' := pending[..n];
      return;
    }
    if frame.ref in active {
      stop := Some(RecursiveSchema);
      return;
    }
    if !h[frame.ref].readable {
      stop := Some(UnstableSchema);
      return;
    }
    var children := Held(h[frame.ref]);
    p' := OpenStep(g, root, pending, active, nodes, maximumDepth, p, children);
    active' := active + {frame.ref};
    pending' := Opened(pending, children);
  }

  /** `_schema_shape_metrics`. It returns normally exactly when the tree unfolding of the
      schema is finite with at most `maxNodes` nodes and height at most `maxDepth`, and then
      returns that size and that height. */
  method Measure(h: Heap, root: Ref, maxNodes: nat, maxDepth: nat) returns (r: ShapeResult)
    requires Closed(h) && root in h
    ensures r.Measured? <==> WithinLimits(ShapeGraph(h), root, maxNodes, maxDepth)
    ensures r.Measured? ==> exists t :: Unfolds(ShapeGraph(h), root, t) && r.nodes == Size(t) && r.depth == Height(t)
    ensures r.Refused? ==> Justified(ShapeGraph(h), root, maxNodes, maxDepth, r.error)
  {
    ghost var g := ShapeGraph(h);
    ShapeGraphClosed(h);
    var pending := [Frame(root, 0, false)];
    var active: set<Ref> := {};
    var nodes: nat := 0;
    var maximumDepth: nat := 0;
    ghost var p := Start(g, root);
    while pending != []
      invariant nodes <= maxNodes && maximumDepth <= maxDepth
      invariant LoopInvariant(g, root, pending, active, nodes, maximumDepth, p)
      decreases maxNodes - nodes, |pending|
    {
      var n := |pending| - 1;
      var frame := pending[n];
      if frame.leaving {
        p := LeaveStep(g, root, pending, active, nodes, maximumDepth, p);
        if frame.ref !in active {
          return Refused(KeyMissing);
        }
        active := active - {frame.ref};
        pending := pending[..n];
        continue;
      }
      var stop;
      stop, pending, active, nodes, maximumDepth, p :=
        EnterFrame(h, root, pending, active, nodes, maximumDepth, p, maxNodes, maxDepth);
      if stop.Some? {
        RefusalExcludes(g, root, maxNodes, maxDepth, stop.value);
        return Refused(stop.value);
      }
    }
    Finished(g, root, active, nodes, maximumDepth, p);
    r := Measured(nodes, maximumDepth);
  }
}
