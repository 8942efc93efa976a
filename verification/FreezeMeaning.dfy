/** What the snapshot of a mapping holds, whatever the key validator makes of its keys. */
module FreezeMeaning {
  import opened Common
  import opened ObjectHeap
  import opened Unfolding
  import opened Freeze

  ghost predicate NamesApart(es: seq<Entry>) {
    forall i, j :: 0 <= i < j < |es| ==> es[i].key != es[j].key
  }

  /** Storing under a key that is there replaces its value in place; otherwise it adds an entry. */
  lemma {:induction false} PutMeans(es: seq<Entry>, key: string, value: Value)
    requires NamesApart(es)
    ensures forall i :: 0 <= i < |es| && es[i].key == key ==> Put(es, key, value) == es[i := Entry(key, value)]
    ensures (forall i :: 0 <= i < |es| ==> es[i].key != key) ==> Put(es, key, value) == es + [Entry(key, value)]
    decreases |es|
  {
    if es != [] {
      var rest := es[1..];
      PutMeans(rest, key, value);
      forall i | 0 <= i < |es| && es[i].key == key ensures Put(es, key, value) == es[i := Entry(key, value)] {
        if i > 0 {
          assert es[0].key != es[i].key;
          assert rest[i - 1].key == key;
          assert [es[0]] + rest[i - 1 := Entry(key, value)] == es[i := Entry(key, value)];
        }
      }
    }
  }

  /** `i` is the last place of the key. */
  ghost predicate LastAt(keys: seq<string>, key: string, i: nat) {
    i < |keys| && keys[i] == key && forall j :: i < j < |keys| ==> keys[j] != key
  }

  /** `i` is the first place of the key. */
  ghost predicate FirstAt(keys: seq<string>, key: string, i: nat) {
    i < |keys| && keys[i] == key && forall j :: 0 <= j < i ==> keys[j] != key
  }

  /** Entry `e` stands for what was stored under its key from place `first` to place `last`. */
  ghost predicate StandsFor(keys: seq<string>, values: seq<Value>, e: Entry, first: nat, last: nat)
    requires |keys| == |values|
  {
    FirstAt(keys, e.key, first) && LastAt(keys, e.key, last) && e.value == values[last]
  }

  /** The entries left after storing values under keys one after the other: every key once, in the order
      of its first place, with the value of its last. */
  ghost predicate Holds(keys: seq<string>, values: seq<Value>, es: seq<Entry>, first: seq<nat>, last: seq<nat>)
    requires |keys| == |values|
  {
    && |first| == |last| == |es|
    && (forall k :: 0 <= k < |es| ==> StandsFor(keys, values, es[k], first[k], last[k]))
    && (forall k, l :: 0 <= k < l < |es| ==> first[k] < first[l])
    && (forall i :: 0 <= i < |keys| ==> Present(es, keys[i]))
  }

  ghost predicate Present(es: seq<Entry>, key: string) { exists k :: 0 <= k < |es| && es[k].key == key }

  lemma HoldsApart(keys: seq<string>, values: seq<Value>, es: seq<Entry>, first: seq<nat>, last: seq<nat>)
    requires |keys| == |values| && Holds(keys, values, es, first, last)
    ensures NamesApart(es)
  {
    forall i, j | 0 <= i < j < |es| ensures es[i].key != es[j].key {
      assert StandsFor(keys, values, es[i], first[i], last[i]) && StandsFor(keys, values, es[j], first[j], last[j]);
    }
  }

  lemma StandsStill(keys: seq<string>, values: seq<Value>, e: Entry, first: nat, last: nat, key: string, value: Value)
    requires |keys| == |values| && StandsFor(keys, values, e, first, last)
    ensures key != e.key ==> StandsFor(keys + [key], values + [value], e, first, last)
    ensures key == e.key ==> StandsFor(keys + [key], values + [value], Entry(key, value), first, |keys|)
  {
  }

  lemma HoldsReplaced(keys: seq<string>, values: seq<Value>, es: seq<Entry>, first: seq<nat>, last: seq<nat>, k: nat,
                      value: Value)
    requires |keys| == |values| && Holds(keys, values, es, first, last) && k < |es|
    ensures var key := es[k].key;
      Holds(keys + [key], values + [value], es[k := Entry(key, value)], first, last[k := |keys|])
  {
    var key := es[k].key;
    var es' := es[k := Entry(key, value)];
    HoldsApart(keys, values, es, first, last);
    forall l | 0 <= l < |es|
      ensures StandsFor(keys + [key], values + [value], es'[l], first[l], last[k := |keys|][l])
    {
      StandsStill(keys, values, es[l], first[l], last[l], key, value);
    }
    forall i | 0 <= i < |keys + [key]| ensures Present(es', (keys + [key])[i]) {
      if i == |keys| {
        assert es'[k].key == key;
      } else {
        var l :| 0 <= l < |es| && es[l].key == keys[i];
        assert es'[l].key == keys[i];
      }
    }
  }

  lemma HoldsAdded(keys: seq<string>, values: seq<Value>, es: seq<Entry>, first: seq<nat>, last: seq<nat>, key: string,
                   value: Value)
    requires |keys| == |values| && Holds(keys, values, es, first, last) && !Present(es, key)
    ensures Holds(keys + [key], values + [value], es + [Entry(key, value)], first + [|keys|], last + [|keys|])
  {
    var es' := es + [Entry(key, value)];
    forall l | 0 <= l < |es| ensures StandsFor(keys + [key], values + [value], es[l], first[l], last[l]) {
      StandsStill(keys, values, es[l], first[l], last[l], key, value);
    }
    assert StandsFor(keys + [key], values + [value], Entry(key, value), |keys|, |keys|);
    forall i | 0 <= i < |keys + [key]| ensures Present(es', (keys + [key])[i]) {
      if i == |keys| {
        assert es'[|es|].key == key;
      } else {
        var l :| 0 <= l < |es| && es[l].key == keys[i];
        assert es'[l].key == keys[i];
      }
    }
    forall k, l | 0 <= k < l < |es'| ensures (first + [|keys|])[k] < (first + [|keys|])[l] {
      assert StandsFor(keys, values, es[k], first[k], last[k]);
    }
  }

  lemma HoldsPut(keys: seq<string>, values: seq<Value>, es: seq<Entry>, first: seq<nat>, last: seq<nat>, key: string,
                 value: Value) returns (first': seq<nat>, last': seq<nat>)
    requires |keys| == |values| && Holds(keys, values, es, first, last)
    ensures Holds(keys + [key], values + [value], Put(es, key, value), first', last')
  {
    HoldsApart(keys, values, es, first, last);
    PutMeans(es, key, value);
    if Present(es, key) {
      var k :| 0 <= k < |es| && es[k].key == key;
      HoldsReplaced(keys, values, es, first, last, k, value);
      first', last' := first, last[k := |keys|];
    } else {
      HoldsAdded(keys, values, es, first, last, key, value);
      first', last' := first + [|keys|], last + [|keys|];
    }
  }

  /** The keys under which the entries are stored. */
  function StoredKeys(v: KeyValidator, entries: seq<(Key, Ref)>): (ks: seq<string>)
    ensures |ks| == |entries|
    ensures forall i :: 0 <= i < |ks| && v(entries[i].0).Some? ==> ks[i] == v(entries[i].0).value
  {
    seq(|entries|, i requires 0 <= i < |entries| => StoredKey(v, entries[i].0))
  }

  /** The snapshots of the children. */
  function Snaps(s: Setting, ts: seq<Tree>): (vs: seq<Value>)
    ensures |vs| == |ts| && forall i :: 0 <= i < |vs| ==> vs[i] == Snap(s, ts[i])
  {
    seq(|ts|, i requires 0 <= i < |ts| => Snap(s, ts[i]))
  }

  lemma KeysLast(v: KeyValidator, entries: seq<(Key, Ref)>)
    requires entries != []
    ensures var m := |entries| - 1;
      StoredKeys(v, entries) == StoredKeys(v, entries[..m]) + [StoredKey(v, entries[m].0)]
  {
    var m := |entries| - 1;
    var all, front := StoredKeys(v, entries), StoredKeys(v, entries[..m]);
    forall i | 0 <= i < |entries| ensures all[i] == (front + [StoredKey(v, entries[m].0)])[i] {
      if i < m {
        assert entries[..m][i] == entries[i];
      }
    }
  }

  lemma SnapsLast(s: Setting, ts: seq<Tree>)
    requires ts != []
    ensures Snaps(s, ts) == Snaps(s, ts[..|ts| - 1]) + [Snap(s, ts[|ts| - 1])]
  {
    var m := |ts| - 1;
    var all, next := Snaps(s, ts), Snaps(s, ts[..m]) + [Snap(s, ts[m])];
    forall i | 0 <= i < |ts| ensures all[i] == next[i] {
      if i < m {
        assert ts[..m][i] == ts[i];
      }
    }
  }

  lemma {:induction false} SnapshotHolds(s: Setting, entries: seq<(Key, Ref)>, ts: seq<Tree>)
    returns (first: seq<nat>, last: seq<nat>)
    requires |entries| == |ts|
    ensures Holds(StoredKeys(s.validator, entries), Snaps(s, ts), SnapEntries(s, entries, ts), first, last)
    decreases |ts|
  {
    first, last := [], [];
    if ts != [] {
      var m := |ts| - 1;
      first, last := SnapshotHolds(s, entries[..m], ts[..m]);
      KeysLast(s.validator, entries);
      SnapsLast(s, ts);
      first, last := HoldsPut(StoredKeys(s.validator, entries[..m]), Snaps(s, ts[..m]),
        SnapEntries(s, entries[..m], ts[..m]), first, last, StoredKey(s.validator, entries[m].0), Snap(s, ts[m]));
    }
  }

  /** The snapshot of a mapping, for every key validator: the stored keys, each once and in the order of
      their first entries, each with the snapshot of the last value stored under it. */
  lemma MappingSnapshot(s: Setting, r: Ref, t: Tree) returns (first: seq<nat>, last: seq<nat>)
    requires r in s.heap && s.heap[r].Mapping? && t.ref == r && |t.kids| == |s.heap[r].entries|
    ensures Snap(s, t).Dict?
    ensures Holds(StoredKeys(s.validator, s.heap[r].entries), Snaps(s, t.kids), Snap(s, t).entries, first, last)
  {
    first, last := SnapshotHolds(s, s.heap[r].entries, t.kids);
  }
}
