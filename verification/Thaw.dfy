/** Thawing a snapshot, and the agreement of the two cycle checks. */
module Thaw {
  import opened Common
  import opened ObjectHeap
  import opened Unfolding
  import opened Freeze
  import ShapeMetrics

  /** `thaw_json_value`: mappings stay mappings, tuples become lists, anything else is returned. */
  function Thawed(v: Value): Value
    decreases v, 1
  {
    match v
    case Dict(entries) => Dict(ThawedEntries(entries))
    case Tuple(items) => List(ThawedAll(items))
    case _ => v
  }

  function ThawedAll(vs: seq<Value>): (us: seq<Value>)
    ensures |us| == |vs|
    decreases vs, 0
  {
    if vs == [] then [] else [Thawed(vs[0])] + ThawedAll(vs[1..])
  }

  function ThawedEntries(es: seq<Entry>): (fs: seq<Entry>)
    ensures |fs| == |es|
    decreases es, 0
  {
    if es == [] then [] else [Entry(es[0].key, Thawed(es[0].value))] + ThawedEntries(es[1..])
  }

  /** The same value with every sequence of one kind. */
  function Recast(tuples: bool, v: Value): Value
    decreases v, 1
  {
    match v
    case Dict(entries) => Dict(RecastEntries(tuples, entries))
    case List(items) => if tuples then Tuple(RecastAll(tuples, items)) else List(RecastAll(tuples, items))
    case Tuple(items) => if tuples then Tuple(RecastAll(tuples, items)) else List(RecastAll(tuples, items))
    case _ => v
  }

  function RecastAll(tuples: bool, vs: seq<Value>): (us: seq<Value>)
    ensures |us| == |vs|
    decreases vs, 0
  {
    if vs == [] then [] else [Recast(tuples, vs[0])] + RecastAll(tuples, vs[1..])
  }

  function RecastEntries(tuples: bool, es: seq<Entry>): (fs: seq<Entry>)
    ensures |fs| == |es|
    decreases es, 0
  {
    if es == [] then [] else [Entry(es[0].key, Recast(tuples, es[0].value))] + RecastEntries(tuples, es[1..])
  }

  function ValueHeight(v: Value): nat
    decreases v, 1
  {
    match v
    case Dict(entries) => 1 + EntriesHeight(entries)
    case List(items) => 1 + ItemsHeight(items)
    case Tuple(items) => 1 + ItemsHeight(items)
    case _ => 0
  }

  function ItemsHeight(vs: seq<Value>): (n: int)
    ensures n >= -1
    decreases vs, 0
  {
    if vs == [] then -1 else Max(ValueHeight(vs[0]), ItemsHeight(vs[1..]))
  }

  function EntriesHeight(es: seq<Entry>): (n: int)
    ensures n >= -1
    decreases es, 0
  {
    if es == [] then -1 else Max(ValueHeight(es[0].value), EntriesHeight(es[1..]))
  }

  // ---------- value laws ----------

  /** Thawing a snapshot gives the original with tuples turned into lists; recasting forgets
      only the sequence kinds, and no depth. */
  lemma {:induction false} ThawRecast(v: Value)
    ensures Thawed(Recast(true, v)) == Recast(false, v)
    ensures Recast(true, Recast(false, v)) == Recast(true, v)
    ensures ValueHeight(Recast(true, v)) == ValueHeight(v) == ValueHeight(Recast(false, v))
    decreases v, 1
  {
    match v {
      case Dict(entries) => ThawRecastEntries(entries);
      case List(items) => ThawRecastAll(items);
      case Tuple(items) => ThawRecastAll(items);
      case _ =>
    }
  }

  lemma {:induction false} ThawRecastAll(vs: seq<Value>)
    ensures ThawedAll(RecastAll(true, vs)) == RecastAll(false, vs)
    ensures RecastAll(true, RecastAll(false, vs)) == RecastAll(true, vs)
    ensures ItemsHeight(RecastAll(true, vs)) == ItemsHeight(vs) == ItemsHeight(RecastAll(false, vs))
    decreases vs, 0
  {
    if vs != [] {
      ThawRecast(vs[0]);
      ThawRecastAll(vs[1..]);
      assert RecastAll(true, vs)[1..] == RecastAll(true, vs[1..]);
      assert RecastAll(false, vs)[1..] == RecastAll(false, vs[1..]);
    }
  }

  lemma {:induction false} ThawRecastEntries(es: seq<Entry>)
    ensures ThawedEntries(RecastEntries(true, es)) == RecastEntries(false, es)
    ensures RecastEntries(true, RecastEntries(false, es)) == RecastEntries(true, es)
    ensures EntriesHeight(RecastEntries(true, es)) == EntriesHeight(es) == EntriesHeight(RecastEntries(false, es))
    decreases es, 0
  {
    if es != [] {
      ThawRecast(es[0].value);
      ThawRecastEntries(es[1..]);
      assert RecastEntries(true, es)[1..] == RecastEntries(true, es[1..]);
      assert RecastEntries(false, es)[1..] == RecastEntries(false, es[1..]);
    }
  }

  // ---------- the value an object graph denotes ----------

  /** The text of a key. */
  function KeepText(k: Key): Option<string> {
    match k case Text(s) => Some(s) case Opaque(_) => None
  }

  /** A validator that stores the keys it accepts, and these are strings, as they are. */
  ghost predicate KeepsKeys(v: KeyValidator) {
    forall k: Key :: v(k).Some? ==> k == Text(v(k).value)
  }

  /** The validator of metadata keys: a string that stripping leaves as it is and not empty, without
      the control characters that the caller refuses. */
  function MetadataKey(space: char -> bool, refused: char -> bool, k: Key): Option<string> {
    match k
    case Opaque(_) => None
    case Text(s) =>
      if s == "" || space(s[0]) || space(s[|s| - 1]) || exists i :: 0 <= i < |s| && refused(s[i]) then None else Some(s)
  }

  ghost predicate AllOf(property: char -> bool, s: string) { forall c :: c in s ==> property(c) }

  /** Stripping blanks from both ends leaves the text as it is. */
  ghost predicate Stripped(space: char -> bool, s: string) {
    forall a: string, b: string, c: string ::
      s == a + b + c && AllOf(space, a) && AllOf(space, c) ==> a == "" && c == ""
  }

  lemma StrippedMeans(space: char -> bool, s: string)
    requires s != ""
    ensures Stripped(space, s) <==> !space(s[0]) && !space(s[|s| - 1])
  {
    var n := |s| - 1;
    assert s == [s[0]] + s[1..] + "" && s == "" + s[..n] + [s[n]];
    assert AllOf(space, "") && (space(s[0]) ==> AllOf(space, [s[0]])) && (space(s[n]) ==> AllOf(space, [s[n]]));
    if !Stripped(space, s) {
      var a: string, b: string, c: string :|
        s == a + b + c && AllOf(space, a) && AllOf(space, c) && !(a == "" && c == "");
      if a != "" {
        assert a[0] in a && a[0] == s[0];
      } else {
        assert c[|c| - 1] in c && c[|c| - 1] == s[n];
      }
    }
  }

  /** A key is accepted exactly when it is a text that is not empty, needs no stripping and has no
      refused character, and it is stored as it is. */
  lemma MetadataKeyMeans(space: char -> bool, refused: char -> bool, k: Key, s: string)
    ensures MetadataKey(space, refused, k) == Some(s) <==>
      k == Text(s) && s != "" && Stripped(space, s) && forall c :: c in s ==> !refused(c)
  {
    if k.Text? && k.text != "" {
      StrippedMeans(space, k.text);
    }
  }

  lemma MetadataKeysKept(space: char -> bool, refused: char -> bool)
    ensures KeepsKeys(k => MetadataKey(space, refused, k))
    ensures forall k: Key :: MetadataKey(space, refused, k).Some? ==> k.Text? && k.text != ""
  {
  }

  ghost predicate KeysAccepted(v: KeyValidator, entries: seq<(Key, Ref)>) {
    forall i :: 0 <= i < |entries| ==> v(entries[i].0).Some?
  }

  /** The value of a finite unfolding, each sequence with its own kind. */
  function Image(h: Heap, t: Tree): Value
    decreases t, 1
  {
    if t.ref !in h then Foreign(t.ref)
    else match h[t.ref]
      case Mapping(entries, _) =>
        if |entries| == |t.kids| then Dict(ImageEntries(h, entries, t.kids)) else Dict([])
      case Sequence(kind, _, _) =>
        if kind == OtherSequence then Foreign(t.ref)
        else if kind == ListKind then List(ImageAll(h, t.kids)) else Tuple(ImageAll(h, t.kids))
      case Scalar(leaf) => Bare(leaf)
  }

  function ImageAll(h: Heap, ts: seq<Tree>): (vs: seq<Value>)
    ensures |vs| == |ts|
    decreases ts, 0
  {
    if ts == [] then [] else
      assert ts[|ts| - 1] in ts;
      ImageAll(h, ts[..|ts| - 1]) + [Image(h, ts[|ts| - 1])]
  }

  function ImageEntries(h: Heap, entries: seq<(Key, Ref)>, ts: seq<Tree>): (es: seq<Entry>)
    requires |entries| == |ts|
    ensures |es| == |ts|
    decreases ts, 0
  {
    if ts == [] then [] else
      var n := |ts| - 1;
      ImageEntries(h, entries[..n], ts[..n]) + [Entry(StoredKey(KeepText, entries[n].0), Image(h, ts[n]))]
  }

  lemma {:induction false} RecastAllAppend(tuples: bool, vs: seq<Value>, v: Value)
    ensures RecastAll(tuples, vs + [v]) == RecastAll(tuples, vs) + [Recast(tuples, v)]
    ensures ItemsHeight(vs + [v]) == Max(ItemsHeight(vs), ValueHeight(v))
  {
    if vs == [] {
      assert vs + [v] == [v];
    } else {
      RecastAllAppend(tuples, vs[1..], v);
      assert (vs + [v])[1..] == vs[1..] + [v];
    }
  }

  lemma {:induction false} RecastEntriesAppend(tuples: bool, es: seq<Entry>, e: Entry)
    ensures RecastEntries(tuples, es + [e]) == RecastEntries(tuples, es) + [Entry(e.key, Recast(tuples, e.value))]
    ensures EntriesHeight(es + [e]) == Max(EntriesHeight(es), ValueHeight(e.value))
  {
    if es == [] {
      assert es + [e] == [e];
    } else {
      RecastEntriesAppend(tuples, es[1..], e);
      assert (es + [e])[1..] == es[1..] + [e];
    }
  }

  ghost predicate Lacks(es: seq<Entry>, key: string) {
    forall i :: 0 <= i < |es| ==> es[i].key != key
  }

  lemma {:induction false} PutFresh(es: seq<Entry>, key: string, v: Value)
    requires Lacks(es, key)
    ensures Put(es, key, v) == es + [Entry(key, v)]
  {
    if es != [] {
      PutFresh(es[1..], key, v);
    }
  }

  ghost predicate TextKeys(entries: seq<(Key, Ref)>) {
    forall i :: 0 <= i < |entries| ==> entries[i].0.Text?
  }

  /** The value is as deep as the unfolding. */
  lemma {:induction false} ImageHeight(h: Heap, r: Ref, t: Tree)
    requires Unfolds(FreezeGraph(h), r, t)
    ensures ValueHeight(Image(h, t)) == Height(t)
    decreases t, 1
  {
    match h[r] {
      case Mapping(entries, _) => ImageEntriesHeight(h, entries, t.kids);
      case Sequence(kind, items, _) =>
        if kind != OtherSequence {
          ImageAllHeight(h, items, t.kids);
        }
      case Scalar(_) =>
    }
  }

  lemma {:induction false} ImageAllHeight(h: Heap, kids: seq<Ref>, ts: seq<Tree>)
    requires |kids| == |ts| && forall i :: 0 <= i < |ts| ==> Unfolds(FreezeGraph(h), kids[i], ts[i])
    ensures ItemsHeight(ImageAll(h, ts)) == MaxHeight(ts)
    decreases ts, 0
  {
    if ts != [] {
      var n := |ts| - 1;
      ImageHeight(h, kids[n], ts[n]);
      ImageAllHeight(h, kids[..n], ts[..n]);
      RecastAllAppend(true, ImageAll(h, ts[..n]), Image(h, ts[n]));
      SumSizeAppend(ts[..n], ts[n]);
      assert ts == ts[..n] + [ts[n]];
    }
  }

  lemma {:induction false} ImageEntriesHeight(h: Heap, entries: seq<(Key, Ref)>, ts: seq<Tree>)
    requires |entries| == |ts| && forall i :: 0 <= i < |ts| ==> Unfolds(FreezeGraph(h), entries[i].1, ts[i])
    ensures EntriesHeight(ImageEntries(h, entries, ts)) == MaxHeight(ts)
    decreases ts, 0
  {
    if ts != [] {
      var n := |ts| - 1;
      ImageHeight(h, entries[n].1, ts[n]);
      ImageEntriesHeight(h, entries[..n], ts[..n]);
      RecastEntriesAppend(true, ImageEntries(h, entries[..n], ts[..n]),
                          Entry(StoredKey(KeepText, entries[n].0), Image(h, ts[n])));
      SumSizeAppend(ts[..n], ts[n]);
      assert ts == ts[..n] + [ts[n]];
    }
  }

  /** The snapshot under a validator that keeps keys is the image with tuples for sequences. */
  lemma {:induction false} SnapIsRecastImage(s: Setting, r: Ref, t: Tree)
    requires Closed(s.heap) && KeepsKeys(s.validator)
    requires Unfolds(FreezeGraph(s.heap), r, t) && Acceptable(s, t)
    ensures Snap(s, t) == Recast(true, Image(s.heap, t))
    ensures ValueHeight(Image(s.heap, t)) == Height(t)
    decreases t, 1
  {
    ImageHeight(s.heap, r, t);
    match s.heap[r] {
      case Mapping(entries, _) =>
        assert KeysAccepted(s.validator, entries);
        SnapEntriesAreRecast(s, entries, t.kids);
      case Sequence(kind, items, _) =>
        if kind != OtherSequence {
          SnapAllAreRecast(s, items, t.kids);
        }
      case Scalar(_) =>
    }
  }

  lemma {:induction false} SnapAllAreRecast(s: Setting, kids: seq<Ref>, ts: seq<Tree>)
    requires Closed(s.heap) && KeepsKeys(s.validator) && |kids| == |ts|
    requires forall i :: 0 <= i < |ts| ==> Unfolds(FreezeGraph(s.heap), kids[i], ts[i]) && Acceptable(s, ts[i])
    ensures SnapAll(s, ts) == RecastAll(true, ImageAll(s.heap, ts))
    decreases ts, 0
  {
    if ts != [] {
      var n := |ts| - 1;
      SnapIsRecastImage(s, kids[n], ts[n]);
      SnapAllAreRecast(s, kids[..n], ts[..n]);
      RecastAllAppend(true, ImageAll(s.heap, ts[..n]), Image(s.heap, ts[n]));
    }
  }

  lemma {:induction false} SnapKeys(s: Setting, entries: seq<(Key, Ref)>, ts: seq<Tree>)
    requires KeepsKeys(s.validator) && |entries| == |ts| && KeysAccepted(s.validator, entries) && DistinctKeys(entries)
    ensures |SnapEntries(s, entries, ts)| == |entries|
    ensures forall i :: 0 <= i < |entries| ==> SnapEntries(s, entries, ts)[i].key == entries[i].0.text
    decreases |ts|, 2
  {
    if ts != [] {
      var n := |ts| - 1;
      SnapKeys(s, entries[..n], ts[..n]);
      SnapAppends(s, entries, ts);
    }
  }

  lemma AcceptedTexts(v: KeyValidator, entries: seq<(Key, Ref)>)
    requires KeepsKeys(v) && KeysAccepted(v, entries)
    ensures TextKeys(entries) && forall i :: 0 <= i < |entries| ==> StoredKey(v, entries[i].0) == entries[i].0.text
  {
  }

  /** Distinct text keys: the last entry does not replace an earlier one. */
  lemma {:induction false} SnapAppends(s: Setting, entries: seq<(Key, Ref)>, ts: seq<Tree>)
    requires KeepsKeys(s.validator) && KeysAccepted(s.validator, entries) && DistinctKeys(entries)
    requires |entries| == |ts| > 0
    ensures var n := |ts| - 1;
            SnapEntries(s, entries, ts) ==
              SnapEntries(s, entries[..n], ts[..n]) + [Entry(entries[n].0.text, Snap(s, ts[n]))]
    decreases |ts|, 1
  {
    var n := |ts| - 1;
    AcceptedTexts(s.validator, entries);
    SnapKeys(s, entries[..n], ts[..n]);
    var done := SnapEntries(s, entries[..n], ts[..n]);
    var key := entries[n].0.text;
    forall i | 0 <= i < |done| ensures done[i].key != key {
      assert done[i].key == entries[i].0.text && entries[i].0 != entries[n].0;
    }
    PutFresh(done, key, Snap(s, ts[n]));
  }

  lemma {:induction false} SnapEntriesAreRecast(s: Setting, entries: seq<(Key, Ref)>, ts: seq<Tree>)
    requires Closed(s.heap) && KeepsKeys(s.validator) && |entries| == |ts|
    requires KeysAccepted(s.validator, entries) && DistinctKeys(entries)
    requires forall i :: 0 <= i < |ts| ==> Unfolds(FreezeGraph(s.heap), entries[i].1, ts[i]) && Acceptable(s, ts[i])
    ensures SnapEntries(s, entries, ts) == RecastEntries(true, ImageEntries(s.heap, entries, ts))
    decreases ts, 0
  {
    if ts != [] {
      var n := |ts| - 1;
      SnapIsRecastImage(s, entries[n].1, ts[n]);
      SnapEntriesAreRecast(s, entries[..n], ts[..n]);
      var key := entries[n].0.text;
      SnapAppends(s, entries, ts);
      RecastEntriesAppend(true, ImageEntries(s.heap, entries[..n], ts[..n]), Entry(key, Image(s.heap, ts[n])));
    }
  }

  // ---------- round trips ----------

  /** thaw(freeze(v)) is v with tuples turned into lists, and neither direction changes the depth. */
  lemma ThawAfterFreeze(s: Setting, active: set<Ref>, r: Ref, depth: nat, frozen: Value)
    requires Closed(s.heap) && KeepsKeys(s.validator)
    requires Explains(s, active, r, depth, frozen)
    ensures exists t ::
      && Unfolds(FreezeGraph(s.heap), r, t)
      && Thawed(frozen) == Recast(false, Image(s.heap, t))
      && ValueHeight(frozen) == ValueHeight(Thawed(frozen)) == Height(t)
  {
    var t :| Freezes(s, active, r, depth, t) && frozen == Snap(s, t);
    SnapIsRecastImage(s, r, t);
    ThawRecast(Image(s.heap, t));
  }

  // ---------- agreement with the iterative check ----------

  ghost predicate PlainContainers(h: Heap) {
    forall r :: r in h && h[r].Sequence? ==> h[r].kind != OtherSequence
  }

  ghost predicate AcceptsEverything(s: Setting) {
    && (forall r :: r in s.heap && !Descended(s.heap[r]) ==> Accepts(s.canonical, r, s.heap[r]))
    && (forall r, i :: r in s.heap && s.heap[r].Mapping? && 0 <= i < |s.heap[r].entries|
          ==> s.validator(s.heap[r].entries[i].0).Some?)
  }

  lemma {:induction false} EverythingAcceptable(s: Setting, r: Ref, t: Tree)
    requires AcceptsEverything(s) && Unfolds(FreezeGraph(s.heap), r, t)
    ensures Acceptable(s, t)
    decreases t
  {
    forall i | 0 <= i < |t.kids|
      ensures Acceptable(s, t.kids[i])
    {
      EverythingAcceptable(s, FreezeGraph(s.heap)[r].value[i], t.kids[i]);
    }
  }

  /** Over mappings, lists and tuples with acceptable leaves and keys, the recursive freeze
      succeeds exactly when the iterative measurement does under the same depth limit and a
      node limit large enough not to bind. */
  lemma RecursiveAgreesWithIterative(s: Setting, r: Ref)
    requires Closed(s.heap) && r in s.heap && PlainContainers(s.heap) && AcceptsEverything(s)
    ensures Freezable(s, {}, r, 0) <==>
      exists maxNodes: nat :: ShapeMetrics.WithinLimits(ShapeMetrics.ShapeGraph(s.heap), r, maxNodes, s.limit)
    ensures forall maxNodes: nat ::
      ShapeMetrics.WithinLimits(ShapeMetrics.ShapeGraph(s.heap), r, maxNodes, s.limit) <==>
      exists t :: Freezes(s, {}, r, 0, t) && Size(t) <= maxNodes
  {
    var g := FreezeGraph(s.heap);
    assert g == ShapeMetrics.ShapeGraph(s.heap);
    forall maxNodes: nat
      ensures ShapeMetrics.WithinLimits(g, r, maxNodes, s.limit) <==>
        exists t :: Freezes(s, {}, r, 0, t) && Size(t) <= maxNodes
    {
      if ShapeMetrics.WithinLimits(g, r, maxNodes, s.limit) {
        var t :| Unfolds(g, r, t) && Size(t) <= maxNodes && Height(t) <= s.limit;
        EverythingAcceptable(s, r, t);
        assert Freezes(s, {}, r, 0, t);
      }
    }
    if Freezable(s, {}, r, 0) {
      var t :| Freezes(s, {}, r, 0, t);
      assert ShapeMetrics.WithinLimits(g, r, Size(t), s.limit);
    }
  }
}
