/** Freezing what was thawed: the snapshot comes back, wherever the thawed value is stored. */
module Refreeze {
  import opened ObjectHeap
  import opened Unfolding
  import opened Freeze
  import opened Thaw

  // ---------- values, item by item ----------

  lemma {:induction false} ImageAllAt(h: Heap, ts: seq<Tree>, i: nat)
    requires i < |ts|
    ensures ImageAll(h, ts)[i] == Image(h, ts[i])
    decreases |ts|
  {
    if i < |ts| - 1 {
      ImageAllAt(h, ts[..|ts| - 1], i);
    }
  }

  lemma {:induction false} ImageEntriesAt(h: Heap, entries: seq<(Key, Ref)>, ts: seq<Tree>, i: nat)
    requires i < |ts| == |entries|
    ensures ImageEntries(h, entries, ts)[i] == Entry(StoredKey(KeepText, entries[i].0), Image(h, ts[i]))
    decreases |ts|
  {
    var n := |ts| - 1;
    if i < n {
      ImageEntriesAt(h, entries[..n], ts[..n], i);
    }
  }

  lemma {:induction false} RecastAllAt(tuples: bool, vs: seq<Value>, i: nat)
    requires i < |vs|
    ensures RecastAll(tuples, vs)[i] == Recast(tuples, vs[i])
    decreases i
  {
    if i > 0 {
      RecastAllAt(tuples, vs[1..], i - 1);
    }
  }

  lemma {:induction false} RecastEntriesAt(tuples: bool, es: seq<Entry>, i: nat)
    requires i < |es|
    ensures RecastEntries(tuples, es)[i] == Entry(es[i].key, Recast(tuples, es[i].value))
    decreases i
  {
    if i > 0 {
      RecastEntriesAt(tuples, es[1..], i - 1);
    }
  }

  // ---------- acceptance depends on the value ----------

  /** Every key in the unfolding is a string. */
  ghost predicate TextKeyed(h: Heap, t: Tree)
    decreases t
  {
    && (t.ref in h && h[t.ref].Mapping? ==> TextKeys(h[t.ref].entries))
    && forall i :: 0 <= i < |t.kids| ==> TextKeyed(h, t.kids[i])
  }

  /** The validator accepts every key of the value, and `canonical_dumps` every leaf. */
  ghost predicate Encodable(kv: KeyValidator, c: Canonical, v: Value) {
    match v
    case Dict(entries) =>
      forall i :: 0 <= i < |entries| ==> kv(Text(entries[i].key)).Some? && Encodable(kv, c, entries[i].value)
    case List(items) => forall i :: 0 <= i < |items| ==> Encodable(kv, c, items[i])
    case Tuple(items) => forall i :: 0 <= i < |items| ==> Encodable(kv, c, items[i])
    case Bare(leaf) => c.leaf(leaf)
    case Foreign(ref) => ref in c.foreign
  }

  lemma {:induction false} RecastEncodable(kv: KeyValidator, c: Canonical, tuples: bool, v: Value)
    ensures Encodable(kv, c, Recast(tuples, v)) <==> Encodable(kv, c, v)
    decreases v
  {
    match v {
      case Dict(entries) =>
        forall i | 0 <= i < |entries|
          ensures RecastEntries(tuples, entries)[i].key == entries[i].key
          ensures Encodable(kv, c, RecastEntries(tuples, entries)[i].value) <==> Encodable(kv, c, entries[i].value)
        {
          RecastEntriesAt(tuples, entries, i);
          RecastEncodable(kv, c, tuples, entries[i].value);
        }
      case List(items) => RecastItemsEncodable(kv, c, tuples, v, items);
      case Tuple(items) => RecastItemsEncodable(kv, c, tuples, v, items);
      case _ =>
    }
  }

  lemma {:induction false} RecastItemsEncodable(
    kv: KeyValidator, c: Canonical, tuples: bool, v: Value, items: seq<Value>)
    requires v == List(items) || v == Tuple(items)
    ensures forall i :: 0 <= i < |items| ==>
              (Encodable(kv, c, RecastAll(tuples, items)[i]) <==> Encodable(kv, c, items[i]))
    decreases v, 0
  {
    forall i | 0 <= i < |items|
      ensures Encodable(kv, c, RecastAll(tuples, items)[i]) <==> Encodable(kv, c, items[i])
    {
      RecastAllAt(tuples, items, i);
      RecastEncodable(kv, c, tuples, items[i]);
    }
  }

  /** With a validator that keeps keys, whether an unfolding is acceptable is a matter of its keys
      being strings and of its value. */
  lemma {:induction false} AcceptableIffEncodable(s: Setting, r: Ref, t: Tree)
    requires KeepsKeys(s.validator) && Unfolds(FreezeGraph(s.heap), r, t)
    ensures Acceptable(s, t) <==> TextKeyed(s.heap, t) && Encodable(s.validator, s.canonical, Image(s.heap, t))
    decreases t
  {
    forall i | 0 <= i < |t.kids|
      ensures Acceptable(s, t.kids[i]) <==>
              TextKeyed(s.heap, t.kids[i]) && Encodable(s.validator, s.canonical, Image(s.heap, t.kids[i]))
    {
      AcceptableIffEncodable(s, FreezeGraph(s.heap)[r].value[i], t.kids[i]);
    }
    match s.heap[r] {
      case Mapping(entries, _) =>
        forall i | 0 <= i < |t.kids|
          ensures ImageEntries(s.heap, entries, t.kids)[i]
                  == Entry(StoredKey(KeepText, entries[i].0), Image(s.heap, t.kids[i]))
        {
          ImageEntriesAt(s.heap, entries, t.kids, i);
        }
      case Sequence(kind, items, _) =>
        forall i | 0 <= i < |t.kids|
          ensures ImageAll(s.heap, t.kids)[i] == Image(s.heap, t.kids[i])
        {
          ImageAllAt(s.heap, t.kids, i);
        }
      case Scalar(_) =>
    }
  }

  // ---------- storing a value ----------

  /** The heap has grown: nothing that was there has changed. */
  ghost predicate Extends(h: Heap, h': Heap) {
    forall r :: r in h ==> r in h' && h'[r] == h[r]
  }

  ghost predicate DistinctNames(es: seq<Entry>) {
    forall i, j :: 0 <= i < j < |es| ==> es[i].key != es[j].key
  }

  /** A value that can be laid out in a heap: dictionaries have each key once, and objects that
      are not JSON are already there. */
  ghost predicate Storable(h: Heap, v: Value) {
    match v
    case Dict(entries) => DistinctNames(entries) && forall i :: 0 <= i < |entries| ==> Storable(h, entries[i].value)
    case List(items) => forall i :: 0 <= i < |items| ==> Storable(h, items[i])
    case Tuple(items) => forall i :: 0 <= i < |items| ==> Storable(h, items[i])
    case Bare(_) => true
    case Foreign(ref) => ref in h && h[ref].Sequence? && h[ref].kind == OtherSequence
  }

  /** The object at `r` has the value, with strings for keys. */
  ghost predicate Stored(h: Heap, r: Ref, t: Tree, v: Value) {
    Unfolds(FreezeGraph(h), r, t) && TextKeyed(h, t) && Image(h, t) == v
  }

  lemma {:induction false} UnfoldingStays(h: Heap, h': Heap, r: Ref, t: Tree)
    requires Extends(h, h') && Unfolds(FreezeGraph(h), r, t)
    ensures Unfolds(FreezeGraph(h'), r, t) && Image(h', t) == Image(h, t)
    ensures TextKeyed(h, t) ==> TextKeyed(h', t)
    decreases t
  {
    forall i | 0 <= i < |t.kids|
      ensures Unfolds(FreezeGraph(h'), FreezeGraph(h)[r].value[i], t.kids[i])
              && Image(h', t.kids[i]) == Image(h, t.kids[i])
      ensures TextKeyed(h, t.kids[i]) ==> TextKeyed(h', t.kids[i])
    {
      UnfoldingStays(h, h', FreezeGraph(h)[r].value[i], t.kids[i]);
    }
    match h[r] {
      case Mapping(entries, _) => ImageEntriesSame(h, h', entries, t.kids);
      case Sequence(_, _, _) => ImageAllSame(h, h', t.kids);
      case Scalar(_) =>
    }
  }

  lemma ImageAllSame(h: Heap, h': Heap, ts: seq<Tree>)
    requires forall i :: 0 <= i < |ts| ==> Image(h', ts[i]) == Image(h, ts[i])
    ensures ImageAll(h', ts) == ImageAll(h, ts)
  {
    forall i | 0 <= i < |ts| ensures ImageAll(h', ts)[i] == ImageAll(h, ts)[i] {
      ImageAllAt(h, ts, i);
      ImageAllAt(h', ts, i);
    }
  }

  lemma ImageEntriesSame(h: Heap, h': Heap, entries: seq<(Key, Ref)>, ts: seq<Tree>)
    requires |entries| == |ts| && forall i :: 0 <= i < |ts| ==> Image(h', ts[i]) == Image(h, ts[i])
    ensures ImageEntries(h', entries, ts) == ImageEntries(h, entries, ts)
  {
    forall i | 0 <= i < |ts| ensures ImageEntries(h', entries, ts)[i] == ImageEntries(h, entries, ts)[i] {
      ImageEntriesAt(h, entries, ts, i);
      ImageEntriesAt(h', entries, ts, i);
    }
  }

  lemma {:induction false} Above(rs: set<Ref>) returns (x: Ref)
    ensures forall r :: r in rs ==> r < x
    decreases |rs|
  {
    if rs == {} {
      x := 0;
    } else {
      var r :| r in rs;
      var y := Above(rs - {r});
      x := if y > r then y else r + 1;
      assert forall q :: q in rs ==> q == r || q in rs - {r};
    }
  }

  /** One more object, at a reference of its own. */
  lemma Allocate(h: Heap, o: Object) returns (h': Heap, r: Ref)
    requires Closed(h) && (forall c :: c in Held(o) ==> c in h) && (o.Mapping? ==> DistinctKeys(o.entries))
    ensures r !in h && h' == h[r := o] && Closed(h') && Extends(h, h')
  {
    r := Above(h.Keys);
    h' := h[r := o];
  }

  /** The values are stored, each at its own reference. */
  ghost predicate AllStored(h: Heap, rs: seq<Ref>, ts: seq<Tree>, vs: seq<Value>) {
    |rs| == |ts| == |vs| && forall i :: 0 <= i < |vs| ==> Stored(h, rs[i], ts[i], vs[i])
  }

  lemma StoredStays(h: Heap, h': Heap, rs: seq<Ref>, ts: seq<Tree>, vs: seq<Value>)
    requires Extends(h, h') && AllStored(h, rs, ts, vs)
    ensures AllStored(h', rs, ts, vs)
  {
    forall i | 0 <= i < |vs| ensures Stored(h', rs[i], ts[i], vs[i]) {
      UnfoldingStays(h, h', rs[i], ts[i]);
    }
  }

  lemma StoredAppend(h: Heap, h': Heap, rs: seq<Ref>, ts: seq<Tree>, vs: seq<Value>, r: Ref, t: Tree, v: Value)
    requires Extends(h, h') && AllStored(h, rs, ts, vs) && Stored(h', r, t, v)
    ensures AllStored(h', rs + [r], ts + [t], vs + [v])
  {
    StoredStays(h, h', rs, ts, vs);
  }

  lemma StoreSequence(h: Heap, kind: SequenceKind, rs: seq<Ref>, ts: seq<Tree>, vs: seq<Value>)
    returns (h': Heap, r: Ref, t: Tree)
    requires Closed(h) && AllStored(h, rs, ts, vs) && kind != OtherSequence
    ensures Closed(h') && Extends(h, h') && r !in h && t == Node(r, ts)
    ensures Stored(h', r, t, if kind == ListKind then List(vs) else Tuple(vs))
  {
    h', r := Allocate(h, Sequence(kind, rs, true));
    StoredStays(h, h', rs, ts, vs);
    t := Node(r, ts);
    forall i | 0 <= i < |ts| ensures ImageAll(h', ts)[i] == vs[i] {
      ImageAllAt(h', ts, i);
    }
    assert ImageAll(h', ts) == vs;
  }

  function KeyedRefs(es: seq<Entry>, rs: seq<Ref>): (entries: seq<(Key, Ref)>)
    requires |es| == |rs|
    ensures |entries| == |es|
    ensures forall i :: 0 <= i < |es| ==> entries[i] == (Text(es[i].key), rs[i])
  {
    seq(|es|, i requires 0 <= i < |es| => (Text(es[i].key), rs[i]))
  }

  function ValuesOf(es: seq<Entry>): (vs: seq<Value>)
    ensures |vs| == |es|
    ensures forall i :: 0 <= i < |es| ==> vs[i] == es[i].value
  {
    seq(|es|, i requires 0 <= i < |es| => es[i].value)
  }

  lemma StoreMapping(h: Heap, es: seq<Entry>, rs: seq<Ref>, ts: seq<Tree>) returns (h': Heap, r: Ref, t: Tree)
    requires Closed(h) && AllStored(h, rs, ts, ValuesOf(es)) && DistinctNames(es)
    ensures Closed(h') && Extends(h, h') && r !in h && t == Node(r, ts)
    ensures Stored(h', r, t, Dict(es))
  {
    var entries := KeyedRefs(es, rs);
    h', r := Allocate(h, Mapping(entries, true));
    StoredStays(h, h', rs, ts, ValuesOf(es));
    t := Node(r, ts);
    forall i | 0 <= i < |ts| ensures ImageEntries(h', entries, ts)[i] == es[i] {
      ImageEntriesAt(h', entries, ts, i);
    }
    assert ImageEntries(h', entries, ts) == es;
    forall i | 0 <= i < |ts| ensures Unfolds(FreezeGraph(h'), Held(h'[r])[i], ts[i]) {
      assert Stored(h', rs[i], ts[i], ValuesOf(es)[i]);
    }
  }

  /** Of the references only objects that are not JSON were in the heap before. */
  ghost predicate OnlyForeign(h: Heap, refs: set<Ref>) {
    forall x :: x in refs && x in h ==> h[x].Sequence? && h[x].kind == OtherSequence
  }

  lemma ForeignAppend(h: Heap, h': Heap, ts: seq<Tree>, t: Tree)
    requires Extends(h, h') && OnlyForeign(h, ForestRefs(ts)) && OnlyForeign(h', Refs(t))
    ensures OnlyForeign(h, ForestRefs(ts + [t]))
  {
    forall x | x in ForestRefs(ts + [t]) ensures x in ForestRefs(ts) || x in Refs(t) {
      ForestRefsMember(ts + [t], x);
      var i :| 0 <= i < |ts + [t]| && x in Refs((ts + [t])[i]);
      ForestRefsMember(ts, x);
    }
  }

  /** Every storable value can be laid out in an extension of the heap, with containers and leaves
      of its own. */
  lemma {:induction false} Store(base: Heap, h: Heap, v: Value) returns (h': Heap, r: Ref, t: Tree)
    requires Closed(h) && Extends(base, h) && Storable(base, v)
    ensures Closed(h') && Extends(h, h') && Stored(h', r, t, v) && OnlyForeign(h, Refs(t))
    decreases v, 1
  {
    match v {
      case Dict(entries) =>
        var h1, rs, ts := StoreEntries(base, h, entries);
        h', r, t := StoreMapping(h1, entries, rs, ts);
      case List(items) =>
        var h1, rs, ts := StoreAll(base, h, items);
        h', r, t := StoreSequence(h1, ListKind, rs, ts, items);
      case Tuple(items) =>
        var h1, rs, ts := StoreAll(base, h, items);
        h', r, t := StoreSequence(h1, TupleKind, rs, ts, items);
      case Bare(leaf) =>
        h', r := Allocate(h, Scalar(leaf));
        t := Node(r, []);
      case Foreign(ref) =>
        h', r, t := h, ref, Node(ref, []);
    }
  }

  lemma {:induction false} StoreAll(base: Heap, h: Heap, vs: seq<Value>) returns (h': Heap, rs: seq<Ref>, ts: seq<Tree>)
    requires Closed(h) && Extends(base, h) && forall i :: 0 <= i < |vs| ==> Storable(base, vs[i])
    ensures Closed(h') && Extends(h, h') && AllStored(h', rs, ts, vs) && OnlyForeign(h, ForestRefs(ts))
    decreases vs, 0
  {
    if vs == [] {
      h', rs, ts := h, [], [];
    } else {
      var n := |vs| - 1;
      var h1, rs1, ts1 := StoreAll(base, h, vs[..n]);
      var r, t;
      h', r, t := Store(base, h1, vs[n]);
      StoredAppend(h1, h', rs1, ts1, vs[..n], r, t, vs[n]);
      assert vs == vs[..n] + [vs[n]];
      ForeignAppend(h, h1, ts1, t);
      rs, ts := rs1 + [r], ts1 + [t];
    }
  }

  lemma {:induction false} StoreEntries(base: Heap, h: Heap, es: seq<Entry>)
    returns (h': Heap, rs: seq<Ref>, ts: seq<Tree>)
    requires Closed(h) && Extends(base, h) && forall i :: 0 <= i < |es| ==> Storable(base, es[i].value)
    ensures Closed(h') && Extends(h, h') && AllStored(h', rs, ts, ValuesOf(es)) && OnlyForeign(h, ForestRefs(ts))
    decreases es, 0
  {
    if es == [] {
      h', rs, ts := h, [], [];
    } else {
      var n := |es| - 1;
      var h1, rs1, ts1 := StoreEntries(base, h, es[..n]);
      var r, t;
      h', r, t := Store(base, h1, es[n].value);
      StoredAppend(h1, h', rs1, ts1, ValuesOf(es[..n]), r, t, es[n].value);
      assert ValuesOf(es) == ValuesOf(es[..n]) + [es[n].value];
      ForeignAppend(h, h1, ts1, t);
      rs, ts := rs1 + [r], ts1 + [t];
    }
  }

  // ---------- the round trip ----------

  /** The value of an object in a closed heap is storable there. */
  lemma {:induction false} ImageStorable(h: Heap, r: Ref, t: Tree)
    requires Closed(h) && Unfolds(FreezeGraph(h), r, t) && TextKeyed(h, t)
    ensures Storable(h, Image(h, t))
    decreases t
  {
    forall i | 0 <= i < |t.kids| ensures Storable(h, Image(h, t.kids[i])) {
      ImageStorable(h, FreezeGraph(h)[r].value[i], t.kids[i]);
    }
    match h[r] {
      case Mapping(entries, _) =>
        var es := ImageEntries(h, entries, t.kids);
        forall i | 0 <= i < |es| ensures es[i] == Entry(entries[i].0.text, Image(h, t.kids[i])) {
          ImageEntriesAt(h, entries, t.kids, i);
        }
        forall i, j | 0 <= i < j < |es| ensures es[i].key != es[j].key {
          assert entries[i].0 != entries[j].0;
        }
      case Sequence(_, _, _) =>
        forall i | 0 <= i < |t.kids| ensures ImageAll(h, t.kids)[i] == Image(h, t.kids[i]) {
          ImageAllAt(h, t.kids, i);
        }
      case Scalar(_) =>
    }
  }

  lemma {:induction false} RecastStorable(h: Heap, tuples: bool, v: Value)
    requires Storable(h, v)
    ensures Storable(h, Recast(tuples, v))
    decreases v
  {
    match v {
      case Dict(entries) =>
        forall i | 0 <= i < |entries|
          ensures RecastEntries(tuples, entries)[i].key == entries[i].key
          ensures Storable(h, RecastEntries(tuples, entries)[i].value)
        {
          RecastEntriesAt(tuples, entries, i);
          RecastStorable(h, tuples, entries[i].value);
        }
      case List(items) => RecastItemsStorable(h, tuples, v, items);
      case Tuple(items) => RecastItemsStorable(h, tuples, v, items);
      case _ =>
    }
  }

  lemma {:induction false} RecastItemsStorable(h: Heap, tuples: bool, v: Value, items: seq<Value>)
    requires (v == List(items) || v == Tuple(items)) && Storable(h, v)
    ensures forall i :: 0 <= i < |items| ==> Storable(h, RecastAll(tuples, items)[i])
    decreases v, 0
  {
    forall i | 0 <= i < |items|
      ensures Storable(h, RecastAll(tuples, items)[i])
    {
      RecastAllAt(tuples, items, i);
      RecastStorable(h, tuples, items[i]);
    }
  }

  /** Wherever the thawed value is stored, freezing it succeeds and gives the same snapshot and
      no other. */
  lemma FreezeAfterThaw(s: Setting, r: Ref, frozen: Value, h: Heap, r': Ref, t': Tree)
    requires Closed(s.heap) && Closed(h) && KeepsKeys(s.validator)
    requires Explains(s, {}, r, 0, frozen) && Stored(h, r', t', Thawed(frozen))
    ensures Explains(s.(heap := h), {}, r', 0, frozen)
    ensures forall v :: Explains(s.(heap := h), {}, r', 0, v) ==> v == frozen
  {
    var s' := s.(heap := h);
    var t :| Freezes(s, {}, r, 0, t) && frozen == Snap(s, t);
    SnapIsRecastImage(s, r, t);
    ThawRecast(Image(s.heap, t));
    AcceptableIffEncodable(s, r, t);
    RecastEncodable(s.validator, s.canonical, false, Image(s.heap, t));
    AcceptableIffEncodable(s', r', t');
    SnapIsRecastImage(s', r', t');
    assert Freezes(s', {}, r', 0, t');
    forall v | Explains(s', {}, r', 0, v) ensures v == frozen {
      var u :| Freezes(s', {}, r', 0, u) && v == Snap(s', u);
      UnfoldingUnique(FreezeGraph(h), r', u, t');
    }
  }

  /** freeze(thaw(freeze(v))) == freeze(v): the thawed value can be stored next to everything that
      was there, and freezing it gives the snapshot back. */
  lemma FreezeThawFreeze(s: Setting, r: Ref, frozen: Value) returns (h: Heap, r': Ref, t': Tree)
    requires Closed(s.heap) && KeepsKeys(s.validator) && Explains(s, {}, r, 0, frozen)
    ensures Closed(h) && Extends(s.heap, h) && Stored(h, r', t', Thawed(frozen)) && OnlyForeign(s.heap, Refs(t'))
    ensures Explains(s.(heap := h), {}, r', 0, frozen)
  {
    var t :| Freezes(s, {}, r, 0, t) && frozen == Snap(s, t);
    SnapIsRecastImage(s, r, t);
    ThawRecast(Image(s.heap, t));
    AcceptableIffEncodable(s, r, t);
    ImageStorable(s.heap, r, t);
    RecastStorable(s.heap, false, Image(s.heap, t));
    h, r', t' := Store(s.heap, s.heap, Thawed(frozen));
    FreezeAfterThaw(s, r, frozen, h, r', t');
  }
}
