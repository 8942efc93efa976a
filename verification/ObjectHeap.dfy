/** Python objects as references into a finite heap.

    A reference stands for `id(object)`, so sharing and cycles are real: two mappings with
    the same content and different references are different containers. */
module ObjectHeap {

  type Ref = nat

  /** A mapping key: a `str`, or any other hashable object. */
  datatype Key = Text(text: string) | Opaque(token: nat)

  datatype SequenceKind = ListKind | TupleKind | OtherSequence

  datatype Leaf = Str(s: string) | Boolean(b: bool) | Atom(token: nat)

  /** `readable` is false for a container whose enumeration raises. */
  datatype Object =
    | Mapping(entries: seq<(Key, Ref)>, readable: bool)
    | Sequence(kind: SequenceKind, items: seq<Ref>, readable: bool)
    | Scalar(leaf: Leaf)

  type Heap = map<Ref, Object>

  function Values(entries: seq<(Key, Ref)>): (vs: seq<Ref>)
    ensures |vs| == |entries|
    ensures forall i :: 0 <= i < |vs| ==> vs[i] == entries[i].1
  {
    seq(|entries|, i requires 0 <= i < |entries| => entries[i].1)
  }

  /** The references a container holds, in enumeration order. */
  function Held(o: Object): seq<Ref> {
    match o
    case Mapping(entries, _) => Values(entries)
    case Sequence(_, items, _) => items
    case Scalar(_) => []
  }

  ghost predicate DistinctKeys(entries: seq<(Key, Ref)>) {
    forall i, j :: 0 <= i < j < |entries| ==> entries[i].0 != entries[j].0
  }

  /** Every held reference is in the heap, and a mapping has each key once. */
  ghost predicate Closed(h: Heap) {
    forall r :: r in h ==>
      && (forall c :: c in Held(h[r]) ==> c in h)
      && (h[r].Mapping? ==> DistinctKeys(h[r].entries))
  }
}

/** Tree unfoldings of a possibly cyclic object graph. */
module Unfolding {
  import opened Common
  import opened ObjectHeap

  /** The children of each reference; `None` where enumerating them raises. */
  type Graph = map<Ref, Option<seq<Ref>>>

  datatype Tree = Node(ref: Ref, kids: seq<Tree>)

  ghost predicate ClosedGraph(g: Graph) {
    forall r, c :: r in g && g[r].Some? && c in g[r].value ==> c in g
  }

  /** `t` is the complete tree obtained by following every child reference from `r`.
      A datatype value is finite, so such a tree exists only if the unfolding is finite. */
  ghost predicate Unfolds(g: Graph, r: Ref, t: Tree)
    decreases t
  {
    && t.ref == r
    && r in g
    && g[r].Some?
    && |g[r].value| == |t.kids|
    && forall i :: 0 <= i < |t.kids| ==> Unfolds(g, g[r].value[i], t.kids[i])
  }

  ghost predicate Finite(g: Graph, r: Ref) {
    exists t :: Unfolds(g, r, t)
  }

  function Size(t: Tree): (n: nat)
    ensures n >= 1
    decreases t, 1
  {
    1 + SumSize(t.kids)
  }

  function SumSize(ts: seq<Tree>): nat
    decreases ts, 0
  {
    if ts == [] then 0 else Size(ts[0]) + SumSize(ts[1..])
  }

  function Max(a: int, b: int): int { if a < b then b else a }

  /** The depth of the deepest node, the root being at depth 0. */
  function Height(t: Tree): (n: nat)
    decreases t, 1
  {
    1 + MaxHeight(t.kids)
  }

  /** The height of a forest; -1 for the empty one. */
  function MaxHeight(ts: seq<Tree>): (n: int)
    ensures n >= -1
    decreases ts, 0
  {
    if ts == [] then -1 else Max(Height(ts[0]), MaxHeight(ts[1..]))
  }

  function Refs(t: Tree): set<Ref>
    decreases t, 1
  {
    {t.ref} + ForestRefs(t.kids)
  }

  function ForestRefs(ts: seq<Tree>): set<Ref>
    decreases ts, 0
  {
    if ts == [] then {} else Refs(ts[0]) + ForestRefs(ts[1..])
  }

  /** A non-empty walk along child references. */
  ghost predicate IsPath(g: Graph, w: seq<Ref>) {
    && |w| > 0
    && (forall i :: 0 <= i < |w| ==> w[i] in g)
    && (forall i :: 0 <= i < |w| - 1 ==> g[w[i]].Some? && w[i + 1] in g[w[i]].value)
  }

  ghost predicate PathFrom(g: Graph, r: Ref, w: seq<Ref>) {
    IsPath(g, w) && w[0] == r
  }

  /** No path from `r` repeats a node or ends in a container that cannot be enumerated. */
  ghost predicate Acyclic(g: Graph, r: Ref) {
    forall w: seq<Ref> :: PathFrom(g, r, w) ==> NoRepeats(w) && g[w[|w| - 1]].Some?
  }

  lemma {:induction false} UnfoldingUnique(g: Graph, r: Ref, t: Tree, u: Tree)
    requires Unfolds(g, r, t) && Unfolds(g, r, u)
    ensures t == u
    decreases t
  {
    forall i | 0 <= i < |t.kids|
      ensures t.kids[i] == u.kids[i]
    {
      UnfoldingUnique(g, g[r].value[i], t.kids[i], u.kids[i]);
    }
    assert t.kids == u.kids;
  }

  lemma {:induction false} SumSizeAppend(ts: seq<Tree>, t: Tree)
    ensures SumSize(ts + [t]) == SumSize(ts) + Size(t)
    ensures MaxHeight(ts + [t]) == Max(MaxHeight(ts), Height(t))
  {
    if ts == [] {
      assert ts + [t] == [t];
    } else {
      SumSizeAppend(ts[1..], t);
      assert (ts + [t])[1..] == ts[1..] + [t];
    }
  }

  lemma {:induction false} MemberBounds(ts: seq<Tree>, i: nat)
    requires i < |ts|
    ensures Size(ts[i]) <= SumSize(ts)
    ensures Height(ts[i]) <= MaxHeight(ts)
    ensures Refs(ts[i]) <= ForestRefs(ts)
  {
    if i > 0 {
      MemberBounds(ts[1..], i - 1);
    }
  }

  /** Every path is at most as long as the unfolding is high, and stays inside it. */
  lemma {:induction false} PathInsideTree(g: Graph, r: Ref, t: Tree, w: seq<Ref>)
    requires Unfolds(g, r, t) && PathFrom(g, r, w)
    ensures |w| - 1 <= Height(t)
    ensures w[|w| - 1] in Refs(t)
    ensures g[w[|w| - 1]].Some?
    decreases |w|
  {
    if |w| > 1 {
      var i :| 0 <= i < |g[r].value| && g[r].value[i] == w[1];
      PathInsideTree(g, w[1], t.kids[i], w[1..]);
      MemberBounds(t.kids, i);
    }
  }

  /** The unfolding reached after `|w| - 1` steps is smaller by at least that many nodes. */
  lemma {:induction false} PathShrinks(g: Graph, r: Ref, t: Tree, w: seq<Ref>) returns (u: Tree)
    requires Unfolds(g, r, t) && PathFrom(g, r, w)
    ensures Unfolds(g, w[|w| - 1], u)
    ensures Size(u) + |w| - 1 <= Size(t)
    decreases |w|
  {
    if |w| == 1 {
      u := t;
    } else {
      var i :| 0 <= i < |g[r].value| && g[r].value[i] == w[1];
      u := PathShrinks(g, w[1], t.kids[i], w[1..]);
      MemberBounds(t.kids, i);
    }
  }

  lemma SubPath(g: Graph, w: seq<Ref>, i: nat, j: nat)
    requires IsPath(g, w) && i < j <= |w|
    ensures IsPath(g, w[i..j])
  {
    var v := w[i..j];
    forall k | 0 <= k < |v| - 1
      ensures g[v[k]].Some? && v[k + 1] in g[v[k]].value
    {
      assert v[k] == w[i + k] && v[k + 1] == w[i + k + 1];
    }
  }

  /** A cycle cannot be unfolded: the node would be the root of a tree inside its own tree. */
  lemma SimpleInsideTree(g: Graph, r: Ref, t: Tree, w: seq<Ref>)
    requires Unfolds(g, r, t) && PathFrom(g, r, w)
    ensures NoRepeats(w)
  {
    forall i, j | 0 <= i < j < |w|
      ensures w[i] != w[j]
    {
      if w[i] == w[j] {
        SubPath(g, w, 0, i + 1);
        SubPath(g, w, i, j + 1);
        var u := PathShrinks(g, r, t, w[0..i + 1]);
        var v := PathShrinks(g, w[i], u, w[i..j + 1]);
        UnfoldingUnique(g, w[i], u, v);
        assert false;
      }
    }
  }

  lemma {:induction false} SimpleFits(w: seq<Ref>, s: set<Ref>)
    requires NoRepeats(w)
    requires forall i :: 0 <= i < |w| ==> w[i] in s
    ensures |w| <= |s|
  {
    if |w| > 0 {
      SimpleFits(w[1..], s - {w[0]});
    }
  }

  lemma ExtendPath(g: Graph, r: Ref, w: seq<Ref>, c: Ref)
    requires PathFrom(g, r, w) && g[w[|w| - 1]].Some? && c in g[w[|w| - 1]].value && c in g
    ensures PathFrom(g, r, w + [c])
  {
    var v := w + [c];
    forall k | 0 <= k < |v| - 1
      ensures g[v[k]].Some? && v[k + 1] in g[v[k]].value
    {
      if k < |w| - 1 {
        assert v[k] == w[k] && v[k + 1] == w[k + 1];
      }
    }
  }

  /** In an acyclic graph a path can be extended fewer than `|g|` times. */
  lemma AcyclicRoom(g: Graph, r: Ref, w: seq<Ref>)
    requires Acyclic(g, r) && PathFrom(g, r, w)
    ensures |w| <= |g| && g[w[|w| - 1]].Some?
  {
    SimpleFits(w, g.Keys);
  }

  /** Below a path of an acyclic graph, the unfolding is finite. */
  lemma {:induction false} AcyclicBuildsTree(g: Graph, r: Ref, w: seq<Ref>) returns (t: Tree)
    requires ClosedGraph(g) && Acyclic(g, r) && PathFrom(g, r, w)
    ensures Unfolds(g, w[|w| - 1], t)
    decreases |g| - |w|, 0
  {
    AcyclicRoom(g, r, w);
    var last := w[|w| - 1];
    var trees := AcyclicBuildsForest(g, r, w, g[last].value);
    t := Node(last, trees);
  }

  lemma {:induction false} AcyclicBuildsForest(g: Graph, r: Ref, w: seq<Ref>, kids: seq<Ref>)
    returns (trees: seq<Tree>)
    requires ClosedGraph(g) && Acyclic(g, r) && PathFrom(g, r, w) && |w| <= |g|
    requires g[w[|w| - 1]].Some?
    requires forall i :: 0 <= i < |kids| ==> kids[i] in g[w[|w| - 1]].value
    ensures |trees| == |kids|
    ensures forall i :: 0 <= i < |kids| ==> Unfolds(g, kids[i], trees[i])
    decreases |g| - |w|, 0, |kids|
  {
    if kids == [] {
      trees := [];
    } else {
      ExtendPath(g, r, w, kids[0]);
      AcyclicRoom(g, r, w + [kids[0]]);
      var t := AcyclicBuildsTree(g, r, w + [kids[0]]);
      var rest := AcyclicBuildsForest(g, r, w, kids[1..]);
      trees := [t] + rest;
    }
  }

  /** The unfolding of `r` is finite exactly when no path from `r` passes a node twice or
      meets a container that cannot be enumerated. */
  lemma FiniteIffAcyclic(g: Graph, r: Ref)
    requires ClosedGraph(g) && r in g
    ensures Finite(g, r) <==> Acyclic(g, r)
  {
    if Finite(g, r) {
      var t :| Unfolds(g, r, t);
      TreeIsAcyclic(g, r, t);
    }
    if Acyclic(g, r) {
      assert PathFrom(g, r, [r]);
      var t := AcyclicBuildsTree(g, r, [r]);
      assert Unfolds(g, r, t);
    }
  }

  lemma TreeIsAcyclic(g: Graph, r: Ref, t: Tree)
    requires Unfolds(g, r, t)
    ensures Acyclic(g, r)
  {
    forall w: seq<Ref> | PathFrom(g, r, w)
      ensures NoRepeats(w) && g[w[|w| - 1]].Some?
    {
      SimpleInsideTree(g, r, t, w);
      PathInsideTree(g, r, t, w);
    }
  }

  /** A tree has at least as many nodes as distinct references. */
  lemma {:induction false} RefsFit(t: Tree)
    ensures |Refs(t)| <= Size(t)
    decreases t, 1
  {
    ForestRefsFit(t.kids);
  }

  lemma {:induction false} ForestRefsFit(ts: seq<Tree>)
    ensures |ForestRefs(ts)| <= SumSize(ts)
    decreases ts, 0
  {
    if ts != [] {
      RefsFit(ts[0]);
      ForestRefsFit(ts[1..]);
    }
  }
}
