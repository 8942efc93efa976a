/** Version promotion of JSON that carries digests of itself. */
module SelfDigest {
  import opened Common

  /** A JSON value; an object keeps its members in insertion order. */
  datatype Json =
    | Str(s: string)
    | Arr(items: seq<Json>)
    | Obj(members: seq<Member>)
    | Other(token: int)

  datatype Member = Member(key: string, value: Json)

  /** `canonical_hash`, as a function of the value. */
  type Hash = Json -> string

  const DIGEST := "contentDigest"

  // ---------- str.replace ----------

  /** Leftmost, non-overlapping replacement; an empty pattern matches between all characters. */
  function Replace(s: string, old_: string, new_: string): string
    decreases |s|
  {
    if old_ == "" then (if s == "" then new_ else new_ + [s[0]] + Replace(s[1..], old_, new_))
    else if |s| < |old_| then s
    else if s[..|old_|] == old_ then new_ + Replace(s[|old_|..], old_, new_)
    else [s[0]] + Replace(s[1..], old_, new_)
  }

  ghost predicate Occurs(s: string, part: string) {
    exists i :: OccursAt(s, part, i)
  }

  ghost predicate OccursAt(s: string, part: string, i: int) {
    0 <= i && i + |part| <= |s| && s[i..i + |part|] == part
  }

  lemma {:induction false} ReplaceAbsent(s: string, old_: string, new_: string)
    requires !Occurs(s, old_)
    ensures Replace(s, old_, new_) == s
    decreases |s|
  {
    assert !OccursAt(s, old_, 0);
    if |s| >= |old_| {
      assert s[0..|old_|] == s[..|old_|];
      forall i ensures !OccursAt(s[1..], old_, i) {
        if OccursAt(s[1..], old_, i) {
          assert s[1..][i..i + |old_|] == s[i + 1..i + 1 + |old_|];
          assert OccursAt(s, old_, i + 1);
        }
      }
      ReplaceAbsent(s[1..], old_, new_);
    }
  }

  /** The pieces with a separator between them. */
  function Joined(pieces: seq<string>, separator: string): string {
    if pieces == [] then ""
    else if |pieces| == 1 then pieces[0]
    else pieces[0] + separator + Joined(pieces[1..], separator)
  }

  /** The characters as texts. */
  function Chars(s: string): (cs: seq<string>)
    ensures |cs| == |s| && forall i :: 0 <= i < |s| ==> cs[i] == [s[i]]
  {
    seq(|s|, i requires 0 <= i < |s| => [s[i]])
  }

  /** The pieces a text is cut into by the leftmost occurrences of a part, one after the other: the
      part does not occur across a piece before the cut that ends it, nor in the last piece. An
      empty part cuts before and after every character. */
  ghost predicate CutAt(s: string, part: string, pieces: seq<string>) {
    if part == "" then pieces == [""] + Chars(s) + [""]
    else
      && pieces != [] && Joined(pieces, part) == s
      && !Occurs(pieces[|pieces| - 1], part)
      && forall i :: 0 <= i < |pieces| - 1 ==> FirstAtEnd(pieces[i], part)
  }

  /** In the piece followed by the part, the part occurs nowhere before the end of the piece. */
  ghost predicate FirstAtEnd(piece: string, part: string) {
    forall j :: 0 <= j < |piece| ==> !OccursAt(piece + part, part, j)
  }

  /** `t` is `s` with the pieces between the occurrences of `old_` joined by `new_` instead. */
  ghost predicate Replaced(s: string, old_: string, new_: string, t: string) {
    exists pieces :: CutAt(s, old_, pieces) && t == Joined(pieces, new_)
  }

  lemma {:induction false} ReplaceAfter(a: string, b: string, old_: string, new_: string)
    requires old_ != "" && FirstAtEnd(a, old_)
    ensures Replace(a + old_ + b, old_, new_) == a + new_ + Replace(b, old_, new_)
    decreases |a|
  {
    if a == "" {
      ReplaceHere(b, old_, new_);
      NoneBefore(old_, b);
      NoneBefore(new_, Replace(b, old_, new_));
    } else {
      FirstAtEndTail(a, old_);
      ReplaceAfter(a[1..], b, old_, new_);
      ReplaceSkips(a + old_ + b, old_, new_);
      HeadOfThree(a, old_, b);
      HeadOfThree(a, new_, Replace(b, old_, new_));
    }
  }

  lemma HeadOfThree(a: string, x: string, b: string)
    requires a != ""
    ensures a + x + b == [a[0]] + (a[1..] + x + b) && (a + x + b)[0] == a[0] && (a + x + b)[1..] == a[1..] + x + b
  {
  }

  lemma NoneBefore(x: string, b: string)
    ensures "" + x + b == x + b
  {
  }

  lemma ReplaceHere(b: string, old_: string, new_: string)
    requires old_ != ""
    ensures Replace(old_ + b, old_, new_) == new_ + Replace(b, old_, new_)
  {
    assert (old_ + b)[..|old_|] == old_ && (old_ + b)[|old_|..] == b;
  }

  lemma ReplaceSkips(s: string, old_: string, new_: string)
    requires 0 < |old_| <= |s| && s[..|old_|] != old_
    ensures Replace(s, old_, new_) == [s[0]] + Replace(s[1..], old_, new_)
  {
  }

  lemma FirstAtEndTail(a: string, part: string)
    requires FirstAtEnd(a, part) && a != "" && part != ""
    ensures FirstAtEnd(a[1..], part) && forall b: string :: (a + part + b)[..|part|] != part
  {
    forall j | 0 <= j < |a[1..]| ensures !OccursAt(a[1..] + part, part, j) {
      assert !OccursAt(a + part, part, j + 1);
      assert (a[1..] + part)[j..j + |part|] == (a + part)[j + 1..j + 1 + |part|];
    }
    forall b: string ensures (a + part + b)[..|part|] != part {
      assert !OccursAt(a + part, part, 0);
      assert (a + part)[0..|part|] == (a + part + b)[..|part|];
    }
  }

  lemma {:induction false} ReplaceEmpty(s: string, new_: string)
    ensures Replace(s, "", new_) == new_ + Joined(Chars(s) + [""], new_)
    decreases |s|
  {
    var all := Chars(s) + [""];
    if s == "" {
      assert all == [""];
    } else {
      ReplaceEmpty(s[1..], new_);
      assert all[1..] == Chars(s[1..]) + [""];
    }
  }

  lemma JoinEmpty(s: string, new_: string)
    ensures Joined([""] + Chars(s) + [""], new_) == new_ + Joined(Chars(s) + [""], new_)
  {
    var all := [""] + Chars(s) + [""];
    assert all[1..] == Chars(s) + [""];
    assert "" + new_ == new_;
  }

  /** Whatever pieces a text is cut into, replacement joins them again. */
  lemma {:induction false} ReplaceJoins(s: string, old_: string, new_: string, pieces: seq<string>)
    requires CutAt(s, old_, pieces)
    ensures Replace(s, old_, new_) == Joined(pieces, new_)
    decreases |pieces|
  {
    if old_ == "" {
      ReplaceEmpty(s, new_);
      JoinEmpty(s, new_);
    } else if |pieces| == 1 {
      ReplaceAbsent(s, old_, new_);
    } else {
      var rest := pieces[1..];
      forall i | 0 <= i < |rest| - 1 ensures FirstAtEnd(rest[i], old_) {
        assert rest[i] == pieces[i + 1];
      }
      ReplaceJoins(Joined(rest, old_), old_, new_, rest);
      ReplaceAfter(pieces[0], Joined(rest, old_), old_, new_);
    }
  }

  lemma {:induction false} FirstOccurrence(s: string, part: string, i: nat) returns (k: nat)
    requires OccursAt(s, part, i)
    ensures OccursAt(s, part, k) && forall j :: 0 <= j < k ==> !OccursAt(s, part, j)
    decreases i
  {
    if j :| 0 <= j < i && OccursAt(s, part, j) {
      k := FirstOccurrence(s, part, j);
    } else {
      k := i;
    }
  }

  /** Every text can be cut, in one way as far as the result goes. */
  lemma {:induction false} CutExists(s: string, part: string) returns (pieces: seq<string>)
    ensures CutAt(s, part, pieces)
    decreases |s|
  {
    if part == "" {
      pieces := [""] + Chars(s) + [""];
    } else if i: nat :| OccursAt(s, part, i) {
      var k := FirstOccurrence(s, part, i);
      var a, b := s[..k], s[k + |part|..];
      assert s == a + part + b;
      var more := CutExists(b, part);
      pieces := [a] + more;
      assert pieces[1..] == more;
      forall j | 0 <= j < |a| ensures !OccursAt(a + part, part, j) {
        assert !OccursAt(s, part, j);
        assert (a + part)[j..j + |part|] == s[j..j + |part|];
      }
    } else {
      pieces := [s];
    }
  }

  /** Replacement is exactly this relation. */
  lemma ReplaceMeans(s: string, old_: string, new_: string, t: string)
    ensures Replaced(s, old_, new_, t) <==> t == Replace(s, old_, new_)
  {
    var pieces := CutExists(s, old_);
    ReplaceJoins(s, old_, new_, pieces);
    if Replaced(s, old_, new_, t) {
      var other :| CutAt(s, old_, other) && t == Joined(other, new_);
      ReplaceJoins(s, old_, new_, other);
    }
  }

  // ---------- objects ----------

  function Find(ms: seq<Member>, key: string): Option<Json> {
    if ms == [] then None else if ms[0].key == key then Some(ms[0].value) else Find(ms[1..], key)
  }

  /** `dict.pop(key, None)` on a copy. */
  function Without(ms: seq<Member>, key: string): seq<Member> {
    if ms == [] then [] else if ms[0].key == key then Without(ms[1..], key) else [ms[0]] + Without(ms[1..], key)
  }

  /** `promoted[key] = value` for a key that is present: the key keeps its place. */
  function Overwrite(ms: seq<Member>, key: string, v: Json): (r: seq<Member>)
    ensures |r| == |ms|
  {
    if ms == [] then []
    else [Member(ms[0].key, if ms[0].key == key then v else ms[0].value)] + Overwrite(ms[1..], key, v)
  }

  /** The object's `contentDigest` is the hash of the rest of it. */
  predicate SelfDigested(hash: Hash, v: Json) {
    v.Obj? && Find(v.members, DIGEST) == Some(Str(hash(Obj(Without(v.members, DIGEST)))))
  }

  lemma {:induction false} FindMeans(ms: seq<Member>, i: nat)
    requires Distinct(ms) && i < |ms|
    ensures Find(ms, ms[i].key) == Some(ms[i].value) && Without(ms, ms[i].key) == ms[..i] + ms[i + 1..]
    decreases |ms|
  {
    if i == 0 {
      WithoutAbsent(ms[1..], ms[0].key);
      assert ms[..0] + ms[1..] == ms[1..];
    } else {
      FindMeans(ms[1..], i - 1);
      assert [ms[0]] + (ms[1..][..i - 1] + ms[1..][i..]) == ms[..i] + ms[i + 1..];
    }
  }

  lemma {:induction false} WithoutAbsent(ms: seq<Member>, key: string)
    requires forall i :: 0 <= i < |ms| ==> ms[i].key != key
    ensures Without(ms, key) == ms && Find(ms, key).None?
    decreases |ms|
  {
    if ms != [] {
      WithoutAbsent(ms[1..], key);
    }
  }

  /** In an object with distinct keys: one member is the digest, and it is the hash of the others
      in their order. */
  lemma SelfDigestedMeans(hash: Hash, ms: seq<Member>)
    requires Distinct(ms)
    ensures SelfDigested(hash, Obj(ms)) <==>
      exists i :: 0 <= i < |ms| && ms[i] == Member("contentDigest", Str(hash(Obj(ms[..i] + ms[i + 1..]))))
  {
    if i :| 0 <= i < |ms| && ms[i].key == DIGEST {
      FindMeans(ms, i);
    } else {
      WithoutAbsent(ms, DIGEST);
    }
  }

  // ---------- promotion ----------

  datatype Release = Release(candidate: string, final: string)

  /** `_promote_self_digesting_json`: strings are rewritten, children first; an object whose
      digest was right before is given the digest of its promoted content. */
  function Promote(hash: Hash, rel: Release, v: Json): Json
    decreases v, 1
  {
    match v
    case Str(s) => Str(Replace(s, rel.candidate, rel.final))
    case Arr(items) => Arr(PromoteItems(hash, rel, items))
    case Other(_) => v
    case Obj(members) =>
      var promoted := PromoteMembers(hash, rel, members);
      if SelfDigested(hash, v)
      then Obj(Overwrite(promoted, DIGEST, Str(hash(Obj(Without(promoted, DIGEST))))))
      else Obj(promoted)
  }

  function PromoteItems(hash: Hash, rel: Release, items: seq<Json>): (r: seq<Json>)
    ensures |r| == |items|
    decreases items, 0
  {
    if items == [] then [] else [Promote(hash, rel, items[0])] + PromoteItems(hash, rel, items[1..])
  }

  function PromoteMembers(hash: Hash, rel: Release, ms: seq<Member>): (r: seq<Member>)
    ensures |r| == |ms|
    decreases ms, 0
  {
    if ms == [] then [] else [Member(ms[0].key, Promote(hash, rel, ms[0].value))] + PromoteMembers(hash, rel, ms[1..])
  }

  // ---------- paths ----------

  datatype Step = Index(i: nat) | Key(k: string)

  function Child(v: Json, step: Step): Option<Json> {
    match step
    case Index(i) => if v.Arr? && i < |v.items| then Some(v.items[i]) else None
    case Key(k) => if v.Obj? then Find(v.members, k) else None
  }

  function At(v: Json, path: seq<Step>): Option<Json>
    decreases |path|
  {
    if path == [] then Some(v)
    else match Child(v, path[0])
      case Some(c) => At(c, path[1..])
      case None => None
  }

  // ---------- members ----------

  lemma {:induction false} PromoteItemsAt(hash: Hash, rel: Release, items: seq<Json>, i: nat)
    requires i < |items|
    ensures PromoteItems(hash, rel, items)[i] == Promote(hash, rel, items[i])
    decreases |items|
  {
    if i > 0 {
      PromoteItemsAt(hash, rel, items[1..], i - 1);
    }
  }

  lemma {:induction false} FindPromoted(hash: Hash, rel: Release, ms: seq<Member>, key: string)
    ensures Find(PromoteMembers(hash, rel, ms), key) ==
      match Find(ms, key) case Some(v) => Some(Promote(hash, rel, v)) case None => None
    decreases |ms|
  {
    if ms != [] {
      FindPromoted(hash, rel, ms[1..], key);
      assert PromoteMembers(hash, rel, ms)[1..] == PromoteMembers(hash, rel, ms[1..]);
    }
  }

  lemma {:induction false} FindOverwritten(ms: seq<Member>, key: string, v: Json, k: string)
    ensures Find(Overwrite(ms, key, v), k) ==
      if k == key && Find(ms, key).Some? then Some(v) else Find(ms, k)
  {
    if ms != [] {
      FindOverwritten(ms[1..], key, v, k);
      assert Overwrite(ms, key, v)[1..] == Overwrite(ms[1..], key, v);
    }
  }

  lemma {:induction false} WithoutOverwritten(ms: seq<Member>, key: string, v: Json)
    ensures Without(Overwrite(ms, key, v), key) == Without(ms, key)
  {
    if ms != [] {
      WithoutOverwritten(ms[1..], key, v);
      assert Overwrite(ms, key, v)[1..] == Overwrite(ms[1..], key, v);
    }
  }

  /** One step down a promoted value is the promoted child, except at a refreshed digest. */
  lemma ChildPromoted(hash: Hash, rel: Release, v: Json, step: Step)
    ensures Child(Promote(hash, rel, v), step).Some? <==> Child(v, step).Some?
    ensures Child(v, step).Some? && !(SelfDigested(hash, v) && step == Key(DIGEST)) ==>
      Child(Promote(hash, rel, v), step) == Some(Promote(hash, rel, Child(v, step).value))
    ensures SelfDigested(hash, v) && step == Key(DIGEST) ==>
      Child(v, step).value.Str? && Child(Promote(hash, rel, v), step).value.Str?
  {
    match v {
      case Arr(items) =>
        if step.Index? && step.i < |items| {
          PromoteItemsAt(hash, rel, items, step.i);
        }
      case Obj(members) =>
        if step.Key? {
          FindPromoted(hash, rel, members, step.k);
          FindPromoted(hash, rel, members, DIGEST);
          var promoted := PromoteMembers(hash, rel, members);
          FindOverwritten(promoted, DIGEST, Str(hash(Obj(Without(promoted, DIGEST)))), step.k);
        }
      case _ =>
    }
  }

  lemma PromotedIsSelfDigested(hash: Hash, rel: Release, v: Json)
    requires SelfDigested(hash, v)
    ensures SelfDigested(hash, Promote(hash, rel, v))
  {
    var promoted := PromoteMembers(hash, rel, v.members);
    FindPromoted(hash, rel, v.members, DIGEST);
    var digest := Str(hash(Obj(Without(promoted, DIGEST))));
    FindOverwritten(promoted, DIGEST, digest, DIGEST);
    WithoutOverwritten(promoted, DIGEST, digest);
  }

  /** The string at the end of the path is a digest that promotion recomputes. */
  ghost predicate Refreshed(hash: Hash, v: Json, path: seq<Step>) {
    && path != [] && path[|path| - 1] == Key(DIGEST)
    && At(v, path[..|path| - 1]).Some?
    && SelfDigested(hash, At(v, path[..|path| - 1]).value)
  }

  /** Promotion keeps every path, and at each path holds the promotion of what was there,
      except where a digest is recomputed. */
  lemma {:induction false} PromotedAt(hash: Hash, rel: Release, v: Json, path: seq<Step>)
    ensures At(Promote(hash, rel, v), path).Some? <==> At(v, path).Some?
    ensures At(v, path).Some? && !Refreshed(hash, v, path) ==>
      At(Promote(hash, rel, v), path) == Some(Promote(hash, rel, At(v, path).value))
    ensures Refreshed(hash, v, path) ==>
      At(v, path).Some? && At(v, path).value.Str? && At(Promote(hash, rel, v), path).value.Str?
    decreases |path|
  {
    if path != [] {
      ChildPromoted(hash, rel, v, path[0]);
      if SelfDigested(hash, v) && path[0] == Key(DIGEST) {
        if |path| > 1 {
          StrHasNoChild(Child(v, path[0]).value, path[1..]);
          StrHasNoChild(Child(Promote(hash, rel, v), path[0]).value, path[1..]);
          RefreshedTail(hash, v, path);
        } else {
          assert path[..0] == [];
        }
      } else if Child(v, path[0]).Some? {
        PromotedAt(hash, rel, Child(v, path[0]).value, path[1..]);
        RefreshedTail(hash, v, path);
      } else {
        RefreshedTail(hash, v, path);
      }
    }
  }

  lemma StrHasNoChild(v: Json, path: seq<Step>)
    requires v.Str? && path != []
    ensures At(v, path).None?
  {
  }

  lemma RefreshedTail(hash: Hash, v: Json, path: seq<Step>)
    requires path != []
    ensures |path| > 1 ==> (Refreshed(hash, v, path) <==>
      Child(v, path[0]).Some? && Refreshed(hash, Child(v, path[0]).value, path[1..]))
    ensures |path| == 1 ==> (Refreshed(hash, v, path) <==> SelfDigested(hash, v) && path[0] == Key(DIGEST))
  {
    if |path| > 1 {
      assert path[..|path| - 1][1..] == path[1..][..|path| - 2];
    } else {
      assert path[..0] == [];
    }
  }

  /** Every object that carried the right digest of itself still does, at the same path,
      however deeply such objects are nested. */
  lemma SelfDigestsPreserved(hash: Hash, rel: Release, v: Json, path: seq<Step>)
    requires At(v, path).Some? && SelfDigested(hash, At(v, path).value)
    ensures At(Promote(hash, rel, v), path).Some?
    ensures SelfDigested(hash, At(Promote(hash, rel, v), path).value)
  {
    PromotedAt(hash, rel, v, path);
    PromotedIsSelfDigested(hash, rel, At(v, path).value);
  }

  function Keys(ms: seq<Member>): (ks: seq<string>)
    ensures |ks| == |ms|
    ensures forall i :: 0 <= i < |ks| ==> ks[i] == ms[i].key
  {
    seq(|ms|, i requires 0 <= i < |ms| => ms[i].key)
  }

  lemma {:induction false} KeysKept(hash: Hash, rel: Release, ms: seq<Member>, v: Json)
    ensures Keys(PromoteMembers(hash, rel, ms)) == Keys(ms)
    ensures Keys(Overwrite(PromoteMembers(hash, rel, ms), DIGEST, v)) == Keys(ms)
    decreases |ms|
  {
    if ms != [] {
      KeysKept(hash, rel, ms[1..], v);
      var p := PromoteMembers(hash, rel, ms);
      assert p[1..] == PromoteMembers(hash, rel, ms[1..]);
      forall i | 0 <= i < |ms|
        ensures p[i].key == ms[i].key && Overwrite(p, DIGEST, v)[i].key == ms[i].key
      {
        if i > 0 {
          assert Keys(PromoteMembers(hash, rel, ms[1..]))[i - 1] == Keys(ms[1..])[i - 1];
          assert Keys(Overwrite(p[1..], DIGEST, v))[i - 1] == Keys(ms[1..])[i - 1];
        }
      }
    }
  }

  /** Shape at every path: kinds, keys in order, lengths and non-string scalars are unchanged,
      and a string is its version replacement unless it is a recomputed digest. */
  lemma ShapeKept(hash: Hash, rel: Release, v: Json, path: seq<Step>)
    ensures At(Promote(hash, rel, v), path).Some? <==> At(v, path).Some?
    ensures At(v, path).Some? ==>
      match (At(v, path).value, At(Promote(hash, rel, v), path).value)
      case (Str(s), Str(s')) => Refreshed(hash, v, path) || Replaced(s, rel.candidate, rel.final, s')
      case (Arr(items), Arr(items')) => |items| == |items'|
      case (Obj(ms), Obj(ms')) => Keys(ms) == Keys(ms')
      case (Other(x), Other(x')) => x == x'
      case _ => false
  {
    PromotedAt(hash, rel, v, path);
    if At(v, path).Some? && At(v, path).value.Str? && !Refreshed(hash, v, path) {
      var s := At(v, path).value.s;
      ReplaceMeans(s, rel.candidate, rel.final, Replace(s, rel.candidate, rel.final));
    }
    if At(v, path).Some? && At(v, path).value.Obj? && !Refreshed(hash, v, path) {
      var ms := At(v, path).value.members;
      var promoted := PromoteMembers(hash, rel, ms);
      KeysKept(hash, rel, ms, Str(hash(Obj(Without(promoted, DIGEST)))));
    }
  }

  /** The candidate version occurs in no string of the value. */
  ghost predicate Absent(part: string, v: Json)
    decreases v
  {
    match v
    case Str(s) => !Occurs(s, part)
    case Arr(items) => forall i :: 0 <= i < |items| ==> Absent(part, items[i])
    case Obj(ms) => forall i :: 0 <= i < |ms| ==> Absent(part, ms[i].value)
    case Other(_) => true
  }

  lemma {:induction false} OverwriteSame(ms: seq<Member>, key: string, v: Json)
    requires Distinct(ms) && Find(ms, key) == Some(v)
    ensures Overwrite(ms, key, v) == ms
    decreases |ms|
  {
    if ms[0].key == key {
      OverwriteAbsent(ms[1..], key, v);
    } else {
      OverwriteSame(ms[1..], key, v);
    }
  }

  lemma {:induction false} OverwriteAbsent(ms: seq<Member>, key: string, v: Json)
    requires forall i :: 0 <= i < |ms| ==> ms[i].key != key
    ensures Overwrite(ms, key, v) == ms
    decreases |ms|
  {
    if ms != [] {
      OverwriteAbsent(ms[1..], key, v);
    }
  }

  /** An object has each key once. */
  ghost predicate Distinct(ms: seq<Member>) {
    forall i, j :: 0 <= i < j < |ms| ==> ms[i].key != ms[j].key
  }

  ghost predicate WellFormed(v: Json)
    decreases v
  {
    match v
    case Arr(items) => forall i :: 0 <= i < |items| ==> WellFormed(items[i])
    case Obj(ms) => Distinct(ms) && forall i :: 0 <= i < |ms| ==> WellFormed(ms[i].value)
    case _ => true
  }

  /** A value in which the candidate version occurs nowhere is left as it is, digests included. */
  lemma {:induction false} UnchangedIfAbsent(hash: Hash, rel: Release, v: Json)
    requires WellFormed(v) && Absent(rel.candidate, v)
    ensures Promote(hash, rel, v) == v
    decreases v, 1
  {
    match v {
      case Str(s) => ReplaceAbsent(s, rel.candidate, rel.final);
      case Arr(items) => ItemsUnchanged(hash, rel, items);
      case Obj(ms) =>
        MembersUnchanged(hash, rel, ms);
        if SelfDigested(hash, v) {
          OverwriteSame(ms, DIGEST, Str(hash(Obj(Without(ms, DIGEST)))));
        }
      case Other(_) =>
    }
  }

  lemma {:induction false} ItemsUnchanged(hash: Hash, rel: Release, items: seq<Json>)
    requires forall i :: 0 <= i < |items| ==> WellFormed(items[i]) && Absent(rel.candidate, items[i])
    ensures PromoteItems(hash, rel, items) == items
    decreases items, 0
  {
    if items != [] {
      UnchangedIfAbsent(hash, rel, items[0]);
      ItemsUnchanged(hash, rel, items[1..]);
    }
  }

  lemma {:induction false} MembersUnchanged(hash: Hash, rel: Release, ms: seq<Member>)
    requires forall i :: 0 <= i < |ms| ==> WellFormed(ms[i].value) && Absent(rel.candidate, ms[i].value)
    ensures PromoteMembers(hash, rel, ms) == ms
    decreases ms, 0
  {
    if ms != [] {
      UnchangedIfAbsent(hash, rel, ms[0].value);
      MembersUnchanged(hash, rel, ms[1..]);
    }
  }
}
