/** Bounded immutable JSON snapshots: recursive freezing and thawing. */
module Freeze {
  import opened Common
  import opened ObjectHeap
  import opened Unfolding

  /** A snapshot or a thawed projection. `Foreign` is an object returned as it is. */
  datatype Value =
    | Dict(entries: seq<Entry>)
    | List(items: seq<Value>)
    | Tuple(items: seq<Value>)
    | Bare(leaf: Leaf)
    | Foreign(ref: Ref)

  datatype Entry = Entry(key: string, value: Value)

  datatype FreezeError = NotMapping | TooDeep | Cyclic | Unreadable | BadKey | NotCanonical

  datatype Result = Frozen(value: Value) | Failed(error: FreezeError)

  /** The caller's key validator: the key to store, or `None` where it raises. */
  type KeyValidator = Key -> Option<string>

  /** What `canonical_dumps` accepts: it decides on the value of a scalar, and on the identity of
      an object that is not JSON. */
  datatype Canonical = Canonical(leaf: Leaf -> bool, foreign: set<Ref>)

  /** The surroundings of one freeze: the heap, the encoder's answers, the key validator and the
      depth limit. */
  datatype Setting = Setting(heap: Heap, canonical: Canonical, validator: KeyValidator, limit: nat)

  predicate Accepts(c: Canonical, r: Ref, o: Object) {
    if o.Scalar? then c.leaf(o.leaf) else r in c.foreign
  }

  /** Freezing descends into mappings, lists and tuples only. */
  function FreezeGraph(h: Heap): (g: Graph)
    ensures g.Keys == h.Keys
  {
    map r | r in h :: FreezeChildren(h[r])
  }

  predicate Descended(o: Object) {
    o.Mapping? || (o.Sequence? && o.kind != OtherSequence)
  }

  function FreezeChildren(o: Object): Option<seq<Ref>> {
    if !Descended(o) then Some([]) else if o.readable then Some(Held(o)) else None
  }

  /** `dict` item assignment: an existing key keeps its place. */
  function Put(entries: seq<Entry>, key: string, value: Value): seq<Entry> {
    if entries == [] then [Entry(key, value)]
    else if entries[0].key == key then [Entry(key, value)] + entries[1..]
    else [entries[0]] + Put(entries[1..], key, value)
  }

  function StoredKey(v: KeyValidator, k: Key): string {
    match v(k) case Some(s) => s case None => ""
  }

  /** The snapshot of a finite unfolding. */
  function Snap(s: Setting, t: Tree): Value
    decreases t, 1
  {
    if t.ref !in s.heap then Foreign(t.ref)
    else match s.heap[t.ref]
      case Mapping(entries, _) =>
        if |entries| == |t.kids| then Dict(SnapEntries(s, entries, t.kids)) else Dict([])
      case Sequence(kind, _, _) =>
        if kind == OtherSequence then Foreign(t.ref) else Tuple(SnapAll(s, t.kids))
      case Scalar(leaf) => Bare(leaf)
  }

  function SnapAll(s: Setting, ts: seq<Tree>): (vs: seq<Value>)
    ensures |vs| == |ts|
    decreases ts, 0
  {
    if ts == [] then [] else
      assert ts[|ts| - 1] in ts;
      SnapAll(s, ts[..|ts| - 1]) + [Snap(s, ts[|ts| - 1])]
  }

  function SnapEntries(s: Setting, entries: seq<(Key, Ref)>, ts: seq<Tree>): seq<Entry>
    requires |entries| == |ts|
    decreases ts, 0
  {
    if ts == [] then [] else
      var n := |ts| - 1;
      Put(SnapEntries(s, entries[..n], ts[..n]), StoredKey(s.validator, entries[n].0), Snap(s, ts[n]))
  }

  /** Every key is accepted by the validator and every leaf by `canonical_dumps`. */
  ghost predicate Acceptable(s: Setting, t: Tree)
    decreases t
  {
    && t.ref in s.heap
    && (s.heap[t.ref].Mapping? ==>
          forall i :: 0 <= i < |s.heap[t.ref].entries| ==> s.validator(s.heap[t.ref].entries[i].0).Some?)
    && (!Descended(s.heap[t.ref]) ==> Accepts(s.canonical, t.ref, s.heap[t.ref]))
    && forall i :: 0 <= i < |t.kids| ==> Acceptable(s, t.kids[i])
  }

  /** The object at `r` can be frozen at `depth` below the containers in `active`, and `t` is
      its unfolding. */
  ghost predicate Freezes(s: Setting, active: set<Ref>, r: Ref, depth: nat, t: Tree) {
    && Unfolds(FreezeGraph(s.heap), r, t)
    && depth + Height(t) <= s.limit
    && Acceptable(s, t)
    && Refs(t) !! active
  }

  ghost predicate Freezable(s: Setting, active: set<Ref>, r: Ref, depth: nat) {
    exists t :: Freezes(s, active, r, depth, t)
  }

  /** `t` is the unfolding that justifies success and gives the value. */
  ghost predicate Explains(s: Setting, active: set<Ref>, r: Ref, depth: nat, v: Value) {
    exists t :: Freezes(s, active, r, depth, t) && v == Snap(s, t)
  }

  // ---------- from a container to its children ----------

  lemma {:induction false} ForestRefsMember(ts: seq<Tree>, x: Ref)
    ensures x in ForestRefs(ts) <==> exists i :: 0 <= i < |ts| && x in Refs(ts[i])
  {
    if ts != [] {
      ForestRefsMember(ts[1..], x);
      if i :| 0 <= i < |ts| && x in Refs(ts[i]) {
        if i > 0 {
          assert ts[1..][i - 1] == ts[i];
        }
      }
    }
  }

  /** A reference of the unfolding is the end of some path. */
  lemma {:induction false} RefHasPath(g: Graph, r: Ref, t: Tree, x: Ref) returns (w: seq<Ref>)
    requires Unfolds(g, r, t) && x in Refs(t)
    ensures PathFrom(g, r, w) && w[|w| - 1] == x
    decreases t
  {
    if x == r {
      w := [r];
    } else {
      ForestRefsMember(t.kids, x);
      var i :| 0 <= i < |t.kids| && x in Refs(t.kids[i]);
      var v := RefHasPath(g, g[r].value[i], t.kids[i], x);
      w := [r] + v;
      forall k | 0 <= k < |w| - 1
        ensures g[w[k]].Some? && w[k + 1] in g[w[k]].value
      {
        if k > 0 {
          assert w[k] == v[k - 1] && w[k + 1] == v[k];
        }
      }
    }
  }

  /** A container does not occur below itself. */
  lemma RootNotBelow(g: Graph, r: Ref, t: Tree, i: nat)
    requires Unfolds(g, r, t) && i < |t.kids|
    ensures r !in Refs(t.kids[i])
  {
    if r in Refs(t.kids[i]) {
      var v := RefHasPath(g, g[r].value[i], t.kids[i], r);
      var w := [r] + v;
      forall k | 0 <= k < |w| - 1
        ensures g[w[k]].Some? && w[k + 1] in g[w[k]].value
      {
        if k > 0 {
          assert w[k] == v[k - 1] && w[k + 1] == v[k];
        }
      }
      assert PathFrom(g, r, w) && w[0] == w[|w| - 1];
      SimpleInsideTree(g, r, t, w);
    }
  }

  /** If the container freezes then each child freezes one level down, below the container. */
  lemma ChildFreezes(s: Setting, active: set<Ref>, r: Ref, depth: nat, t: Tree, i: nat)
    requires Freezes(s, active, r, depth, t) && i < |t.kids|
    ensures Freezes(s, active + {r}, FreezeGraph(s.heap)[r].value[i], depth + 1, t.kids[i])
  {
    MemberBounds(t.kids, i);
    RootNotBelow(FreezeGraph(s.heap), r, t, i);
    ForestMembersApart(t.kids, active, i);
  }

  lemma ForestMembersApart(ts: seq<Tree>, active: set<Ref>, i: nat)
    requires ForestRefs(ts) !! active && i < |ts|
    ensures Refs(ts[i]) !! active
  {
    MemberBounds(ts, i);
  }

  ghost predicate ChildrenFreeze(s: Setting, active: set<Ref>, kids: seq<Ref>, depth: nat, ts: seq<Tree>) {
    && |ts| == |kids|
    && forall i :: 0 <= i < |kids| ==> Freezes(s, active, kids[i], depth, ts[i])
  }

  lemma {:induction false} ForestBounds(s: Setting, active: set<Ref>, kids: seq<Ref>, depth: nat, ts: seq<Tree>)
    requires ChildrenFreeze(s, active, kids, depth, ts)
    ensures ts != [] ==> depth + MaxHeight(ts) <= s.limit
    ensures ForestRefs(ts) !! active
  {
    if ts != [] {
      assert Freezes(s, active, kids[0], depth, ts[0]);
      forall i | 0 <= i < |kids[1..]|
        ensures Freezes(s, active, kids[1..][i], depth, ts[1..][i])
      {
        assert Freezes(s, active, kids[i + 1], depth, ts[i + 1]);
      }
      ForestBounds(s, active, kids[1..], depth, ts[1..]);
    }
  }

  /** And conversely. */
  lemma ContainerFreezes(s: Setting, active: set<Ref>, r: Ref, depth: nat, ts: seq<Tree>)
    requires r in s.heap && Descended(s.heap[r]) && s.heap[r].readable && r !in active && depth <= s.limit
    requires s.heap[r].Mapping? ==>
      forall i :: 0 <= i < |s.heap[r].entries| ==> s.validator(s.heap[r].entries[i].0).Some?
    requires ChildrenFreeze(s, active + {r}, Held(s.heap[r]), depth + 1, ts)
    ensures Freezes(s, active, r, depth, Node(r, ts))
  {
    var t := Node(r, ts);
    var kids := Held(s.heap[r]);
    forall i | 0 <= i < |ts|
      ensures Unfolds(FreezeGraph(s.heap), kids[i], ts[i]) && Acceptable(s, ts[i])
    {
      assert Freezes(s, active + {r}, kids[i], depth + 1, ts[i]);
    }
    ForestBounds(s, active + {r}, kids, depth + 1, ts);
    assert Refs(t) == {r} + ForestRefs(ts);
    assert Height(t) == 1 + MaxHeight(ts);
  }

  lemma SnapAllAppend(s: Setting, ts: seq<Tree>, t: Tree)
    ensures SnapAll(s, ts + [t]) == SnapAll(s, ts) + [Snap(s, t)]
  {
    assert (ts + [t])[..|ts|] == ts;
  }

  /** The first `i` entries of a mapping are frozen. */
  ghost predicate EntriesFrozen(s: Setting, active: set<Ref>, entries: seq<(Key, Ref)>, i: nat, depth: nat,
                                ts: seq<Tree>, snapshot: seq<Entry>) {
    && |ts| == i <= |entries|
    && (forall j :: 0 <= j < i ==> s.validator(entries[j].0).Some?)
    && (forall j :: 0 <= j < i ==> Freezes(s, active, entries[j].1, depth, ts[j]))
    && snapshot == SnapEntries(s, entries[..i], ts)
  }

  lemma EntriesStep(s: Setting, active: set<Ref>, entries: seq<(Key, Ref)>, i: nat, depth: nat,
                    ts: seq<Tree>, snapshot: seq<Entry>, t: Tree)
    requires EntriesFrozen(s, active, entries, i, depth, ts, snapshot)
    requires i < |entries| && s.validator(entries[i].0).Some?
    requires Freezes(s, active, entries[i].1, depth, t)
    ensures EntriesFrozen(s, active, entries, i + 1, depth, ts + [t],
                          Put(snapshot, s.validator(entries[i].0).value, Snap(s, t)))
  {
    var next := ts + [t];
    assert next[..i] == ts && entries[..i + 1][..i] == entries[..i];
    assert SnapEntries(s, entries[..i + 1], next)
      == Put(SnapEntries(s, entries[..i], ts), StoredKey(s.validator, entries[i].0), Snap(s, t));
  }

  lemma MappingFreezes(s: Setting, active: set<Ref>, r: Ref, depth: nat, ts: seq<Tree>, snapshot: seq<Entry>)
    requires r in s.heap && s.heap[r].Mapping? && s.heap[r].readable && r !in active && depth <= s.limit
    requires EntriesFrozen(s, active + {r}, s.heap[r].entries, |s.heap[r].entries|, depth + 1, ts, snapshot)
    ensures Explains(s, active, r, depth, Dict(snapshot))
  {
    var entries := s.heap[r].entries;
    assert entries[..|entries|] == entries;
    assert ChildrenFreeze(s, active + {r}, Held(s.heap[r]), depth + 1, ts);
    ContainerFreezes(s, active, r, depth, ts);
    assert Snap(s, Node(r, ts)) == Dict(snapshot);
  }

  // ---------- the recursion ----------

  /** The set of containers being frozen, shared by the whole recursion. */
  class ActiveSet {
    var members: set<Ref>

    constructor ()
      ensures members == {}
    {
      members := {};
    }
  }

  ghost predicate OnlyContainers(h: Heap, active: set<Ref>) {
    forall a :: a in active ==> a in h && Descended(h[a])
  }

  /** `freeze_json_mapping`. It succeeds exactly when the mapping is freezable below the
      containers already active, returns the snapshot of its unfolding, and restores the
      active set whether it succeeds or fails. */
  method FreezeMapping(s: Setting, active: ActiveSet, r: Ref, depth: nat) returns (res: Result)
    requires Closed(s.heap) && r in s.heap && OnlyContainers(s.heap, active.members)
    modifies active
    ensures active.members == old(active.members)
    ensures res.Frozen? <==> s.heap[r].Mapping? && Freezable(s, active.members, r, depth)
    ensures res.Frozen? ==> Explains(s, active.members, r, depth, res.value)
    decreases s.limit + 1 - depth, 0
  {
    if !s.heap[r].Mapping? {
      return Failed(NotMapping);
    }
    if depth > s.limit {
      return Failed(TooDeep);
    }
    ghost var outer := active.members;
    if r in active.members {
      ActiveBlocks(s, outer, r, depth);
      return Failed(Cyclic);
    }
    active.members := active.members + {r};
    if !s.heap[r].readable {
      active.members := active.members - {r};
      UnreadableBlocks(s, outer, r, depth);
      return Failed(Unreadable);
    }
    var entries := s.heap[r].entries;
    var snapshot: seq<Entry> := [];
    ghost var trees: seq<Tree> := [];
    for i := 0 to |entries|
      invariant active.members == outer + {r}
      invariant EntriesFrozen(s, outer + {r}, entries, i, depth + 1, trees, snapshot)
    {
      var key := s.validator(entries[i].0);
      if key.None? {
        active.members := active.members - {r};
        KeyBlocks(s, outer, r, depth, i);
        return Failed(BadKey);
      }
      assert entries[i].1 in Held(s.heap[r]) by { assert Held(s.heap[r])[i] == entries[i].1; }
      var item := FreezeValue(s, active, entries[i].1, depth + 1);
      if item.Failed? {
        active.members := active.members - {r};
        ChildBlocks(s, outer, r, depth, i);
        return Failed(item.error);
      }
      ghost var t :| Freezes(s, outer + {r}, entries[i].1, depth + 1, t) && item.value == Snap(s, t);
      EntriesStep(s, outer + {r}, entries, i, depth + 1, trees, snapshot, t);
      snapshot, trees := Put(snapshot, key.value, item.value), trees + [t];
    }
    active.members := active.members - {r};
    MappingFreezes(s, outer, r, depth, trees, snapshot);
    return Frozen(Dict(snapshot));
  }

  /** `_freeze_json_value`. */
  method FreezeValue(s: Setting, active: ActiveSet, r: Ref, depth: nat) returns (res: Result)
    requires Closed(s.heap) && r in s.heap && OnlyContainers(s.heap, active.members)
    modifies active
    ensures active.members == old(active.members)
    ensures res.Frozen? <==> Freezable(s, active.members, r, depth)
    ensures res.Frozen? ==> Explains(s, active.members, r, depth, res.value)
    decreases s.limit + 1 - depth, 1
  {
    if depth > s.limit {
      return Failed(TooDeep);
    }
    match s.heap[r] {
      case Mapping(_, _) =>
        res := FreezeMapping(s, active, r, depth);
      case Sequence(kind, items, readable) =>
        if kind == OtherSequence {
          res := FreezeLeaf(s, active.members, r, depth);
        } else {
          res := FreezeSequence(s, active, r, depth);
        }
      case Scalar(_) =>
        res := FreezeLeaf(s, active.members, r, depth);
    }
  }

  method FreezeSequence(s: Setting, active: ActiveSet, r: Ref, depth: nat) returns (res: Result)
    requires Closed(s.heap) && r in s.heap && OnlyContainers(s.heap, active.members)
    requires s.heap[r].Sequence? && s.heap[r].kind != OtherSequence && depth <= s.limit
    modifies active
    ensures active.members == old(active.members)
    ensures res.Frozen? <==> Freezable(s, active.members, r, depth)
    ensures res.Frozen? ==> Explains(s, active.members, r, depth, res.value)
    decreases s.limit + 1 - depth, 0
  {
    ghost var outer := active.members;
    if r in active.members {
      ActiveBlocks(s, outer, r, depth);
      return Failed(Cyclic);
    }
    active.members := active.members + {r};
    if !s.heap[r].readable {
      active.members := active.members - {r};
      UnreadableBlocks(s, outer, r, depth);
      return Failed(Unreadable);
    }
    var items := s.heap[r].items;
    var snapshot: seq<Value> := [];
    ghost var trees: seq<Tree> := [];
    for i := 0 to |items|
      invariant active.members == outer + {r}
      invariant |trees| == i
      invariant forall j :: 0 <= j < i ==> Freezes(s, outer + {r}, items[j], depth + 1, trees[j])
      invariant snapshot == SnapAll(s, trees)
    {
      assert items[i] in Held(s.heap[r]);
      var item := FreezeValue(s, active, items[i], depth + 1);
      if item.Failed? {
        active.members := active.members - {r};
        ChildBlocks(s, outer, r, depth, i);
        return Failed(item.error);
      }
      ghost var t :| Freezes(s, outer + {r}, items[i], depth + 1, t) && item.value == Snap(s, t);
      SnapAllAppend(s, trees, t);
      snapshot, trees := snapshot + [item.value], trees + [t];
    }
    active.members := active.members - {r};
    assert ChildrenFreeze(s, outer + {r}, Held(s.heap[r]), depth + 1, trees);
    ContainerFreezes(s, outer, r, depth, trees);
    assert Snap(s, Node(r, trees)) == Tuple(snapshot);
    return Frozen(Tuple(snapshot));
  }

  /** Anything else is returned as it is, if `canonical_dumps` accepts it. */
  method FreezeLeaf(s: Setting, ghost active: set<Ref>, r: Ref, depth: nat) returns (res: Result)
    requires r in s.heap && !Descended(s.heap[r]) && OnlyContainers(s.heap, active) && depth <= s.limit
    ensures res.Frozen? <==> Freezable(s, active, r, depth)
    ensures res.Frozen? ==> Explains(s, active, r, depth, res.value)
  {
    ghost var t := Node(r, []);
    if !Accepts(s.canonical, r, s.heap[r]) {
      return Failed(NotCanonical);
    }
    assert Refs(t) == {r};
    assert Height(t) == 0;
    assert Freezes(s, active, r, depth, t);
    return Frozen(if s.heap[r].Scalar? then Bare(s.heap[r].leaf) else Foreign(r));
  }

  lemma ActiveBlocks(s: Setting, active: set<Ref>, r: Ref, depth: nat)
    requires r in active
    ensures !Freezable(s, active, r, depth)
  {
    forall t | Freezes(s, active, r, depth, t)
      ensures false
    {
    }
  }

  lemma UnreadableBlocks(s: Setting, active: set<Ref>, r: Ref, depth: nat)
    requires r in s.heap && Descended(s.heap[r]) && !s.heap[r].readable
    ensures !Freezable(s, active, r, depth)
  {
  }

  lemma KeyBlocks(s: Setting, active: set<Ref>, r: Ref, depth: nat, i: nat)
    requires r in s.heap && s.heap[r].Mapping? && i < |s.heap[r].entries|
    requires s.validator(s.heap[r].entries[i].0).None?
    ensures !Freezable(s, active, r, depth)
  {
  }

  lemma ChildBlocks(s: Setting, active: set<Ref>, r: Ref, depth: nat, i: nat)
    requires r in s.heap && Descended(s.heap[r]) && i < |Held(s.heap[r])|
    requires !Freezable(s, active + {r}, Held(s.heap[r])[i], depth + 1)
    ensures !Freezable(s, active, r, depth)
  {
    forall t | Freezes(s, active, r, depth, t)
      ensures false
    {
      ChildFreezes(s, active, r, depth, t, i);
    }
  }
}
