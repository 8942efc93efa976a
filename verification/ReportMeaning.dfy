/** What an accepted test report is, said of the places of its elements and the text of its tags. */
module ReportMeaning {
  import opened Common
  import opened GateReport

  // ---------- text ----------

  /** The part of the tag after its last closing brace. */
  ghost predicate Unqualified(tag: string, x: string) {
    '}' !in x && (tag == x || exists ns :: tag == ns + "}" + x)
  }

  lemma {:induction false} LocalMeans(tag: string, x: string)
    ensures LocalName(tag) == x <==> Unqualified(tag, x)
    decreases |tag|
  {
    if tag != "" {
      var n := |tag| - 1;
      if tag[n] == '}' {
        if x == "" {
          assert tag == tag[..n] + "}" + x;
        } else if Unqualified(tag, x) {
          LastIsPlain(tag, x);
        }
      } else if x == "" {
        assert !Unqualified(tag, x);
      } else {
        var m := |x| - 1;
        LocalMeans(tag[..n], x[..m]);
        LocalShift(tag, x);
      }
    }
  }

  lemma LastIsPlain(tag: string, x: string)
    requires tag != "" && x != "" && Unqualified(tag, x)
    ensures tag[|tag| - 1] != '}'
  {
    assert tag[|tag| - 1] == x[|x| - 1] && x[|x| - 1] in x;
  }

  /** Both lose their last character. */
  lemma LocalShift(tag: string, x: string)
    requires tag != "" && x != "" && tag[|tag| - 1] != '}'
    ensures Unqualified(tag, x) <==> tag[|tag| - 1] == x[|x| - 1] && Unqualified(tag[..|tag| - 1], x[..|x| - 1])
  {
    var n, m := |tag| - 1, |x| - 1;
    assert x == x[..m] + [x[m]] && tag == tag[..n] + [tag[n]];
    if Unqualified(tag, x) && tag != x {
      var ns :| tag == ns + "}" + x;
      assert tag[..n] == ns + "}" + x[..m];
    }
    if tag[n] == x[m] && Unqualified(tag[..n], x[..m]) && tag[..n] != x[..m] {
      var ns :| tag[..n] == ns + "}" + x[..m];
      assert tag == ns + "}" + x;
    }
  }

  /** The same text with slashes for dots. */
  ghost predicate WithSlashes(s: string, t: string) {
    |t| == |s| && forall i :: 0 <= i < |s| ==> t[i] == if s[i] == '.' then '/' else s[i]
  }

  lemma {:induction false} SlashesMean(s: string)
    ensures WithSlashes(s, Slashed(s))
  {
    if s != "" {
      SlashesMean(s[1..]);
    }
  }

  function Ascii(s: string): (b: Bytes)
    ensures |b| == |s| && forall i :: 0 <= i < |s| ==> b[i] == s[i] as int
  {
    seq(|s|, i requires 0 <= i < |s| => s[i] as int)
  }

  /** The text stands somewhere in the bytes. */
  ghost predicate Mentions(data: Bytes, text: string) { exists i :: StandsAt(data, Ascii(text), i) }

  ghost predicate StandsAt(data: Bytes, part: Bytes, i: int) {
    0 <= i && i + |part| <= |data| && data[i..i + |part|] == part
  }

  lemma ContainsMeans(data: Bytes, text: string)
    ensures Contains(data, Ascii(text)) <==> Mentions(data, text)
  {
    var part := Ascii(text);
    if Contains(data, part) {
      var i :| 0 <= i <= |data| && part <= From(data, i);
      assert data[i..i + |part|] == From(data, i)[..|part|];
      assert StandsAt(data, part, i);
    }
    if Mentions(data, text) {
      var i :| StandsAt(data, part, i);
      assert From(data, i)[..|part|] == data[i..i + |part|];
      assert part <= From(data, i);
    }
  }

  // ---------- places ----------

  /** The element that a sequence of child numbers leads to. */
  function At(e: Element, path: seq<nat>): Option<Element> {
    if path == [] then Some(e)
    else if path[0] < |e.children| then At(e.children[path[0]], path[1..])
    else None
  }

  /** Document order: an element before its descendants, and these before its next sibling. */
  predicate Earlier(p: seq<nat>, q: seq<nat>) {
    q != [] && (p == [] || p[0] < q[0] || (p[0] == q[0] && Earlier(p[1..], q[1..])))
  }

  ghost predicate Ascending(paths: seq<seq<nat>>) {
    forall i, j :: 0 <= i < j < |paths| ==> Earlier(paths[i], paths[j])
  }

  /** `paths` are the places below `e` from its `k`-th child on, and `es` what stands there. */
  ghost predicate Places(e: Element, k: nat, es: seq<Element>, paths: seq<seq<nat>>) {
    && |paths| == |es| && Ascending(paths)
    && (forall i :: 0 <= i < |es| ==> paths[i] != [] && paths[i][0] >= k && At(e, paths[i]) == Some(es[i]))
    && (forall p :: p != [] && p[0] >= k && At(e, p).Some? ==> p in paths)
  }

  ghost predicate AllPlaces(e: Element, es: seq<Element>, paths: seq<seq<nat>>) {
    && |paths| == |es| && Ascending(paths)
    && (forall i :: 0 <= i < |es| ==> At(e, paths[i]) == Some(es[i]))
    && (forall p :: At(e, p).Some? ==> p in paths)
  }

  function Under(k: nat, paths: seq<seq<nat>>): (r: seq<seq<nat>>)
    ensures |r| == |paths| && forall i :: 0 <= i < |r| ==> r[i] == [k] + paths[i]
  {
    seq(|paths|, i requires 0 <= i < |paths| => [k] + paths[i])
  }

  lemma {:induction false} IterPlaces(e: Element) returns (paths: seq<seq<nat>>)
    ensures AllPlaces(e, Iter(e), paths)
    decreases e, 1
  {
    var below := ForestPlaces(e, 0);
    assert e.children[0..] == e.children;
    paths := [[]] + below;
    RootPlaces(e, IterAll(e.children), below);
  }

  lemma RootPlaces(e: Element, es: seq<Element>, below: seq<seq<nat>>)
    requires Places(e, 0, es, below)
    ensures AllPlaces(e, [e] + es, [[]] + below)
  {
    var paths: seq<seq<nat>> := [[]] + below;
    forall i, j | 0 <= i < j < |paths| ensures Earlier(paths[i], paths[j]) {
      assert paths[j] == below[j - 1];
      if i > 0 {
        assert paths[i] == below[i - 1];
      }
    }
    forall p | At(e, p).Some? ensures p in paths {
      if p == [] {
        assert paths[0] == p;
      } else {
        var i :| 0 <= i < |below| && below[i] == p;
        assert paths[i + 1] == p;
      }
    }
  }

  lemma {:induction false} ForestPlaces(e: Element, k: nat) returns (paths: seq<seq<nat>>)
    requires k <= |e.children|
    ensures Places(e, k, IterAll(e.children[k..]), paths)
    decreases e, 0, |e.children| - k
  {
    if k == |e.children| {
      paths := [];
    } else {
      var own := IterPlaces(e.children[k]);
      var rest := ForestPlaces(e, k + 1);
      paths := Under(k, own) + rest;
      var es, fs := Iter(e.children[k]), IterAll(e.children[k + 1..]);
      assert e.children[k..][0] == e.children[k] && e.children[k..][1..] == e.children[k + 1..];
      PlacesJoin(e, k, es, own, fs, rest);
    }
  }

  lemma PlacesJoin(e: Element, k: nat, es: seq<Element>, own: seq<seq<nat>>, fs: seq<Element>, rest: seq<seq<nat>>)
    requires k < |e.children| && AllPlaces(e.children[k], es, own) && Places(e, k + 1, fs, rest)
    ensures Places(e, k, es + fs, Under(k, own) + rest)
  {
    var under := Under(k, own);
    var paths := under + rest;
    forall i | 0 <= i < |under| ensures At(e, under[i]) == Some(es[i]) && under[i][0] == k {
      assert under[i][1..] == own[i];
    }
    JoinAscends(k, own, rest);
    forall p | p != [] && p[0] >= k && At(e, p).Some? ensures p in paths {
      PlaceJoined(e, k, es, own, fs, rest, p);
    }
  }

  lemma PlaceJoined(e: Element, k: nat, es: seq<Element>, own: seq<seq<nat>>, fs: seq<Element>, rest: seq<seq<nat>>,
                    p: seq<nat>)
    requires k < |e.children| && AllPlaces(e.children[k], es, own) && Places(e, k + 1, fs, rest)
    requires p != [] && p[0] >= k && At(e, p).Some?
    ensures p in Under(k, own) + rest
  {
    var under := Under(k, own);
    if p[0] == k {
      assert At(e.children[k], p[1..]).Some?;
      var i :| 0 <= i < |own| && own[i] == p[1..];
      assert p == [k] + p[1..];
      assert under[i] == p;
    } else {
      assert p in rest;
    }
  }

  lemma JoinAscends(k: nat, own: seq<seq<nat>>, rest: seq<seq<nat>>)
    requires Ascending(own) && Ascending(rest)
    requires forall i :: 0 <= i < |rest| ==> rest[i] != [] && rest[i][0] >= k + 1
    ensures Ascending(Under(k, own) + rest)
  {
    var under := Under(k, own);
    var paths := under + rest;
    forall i, j | 0 <= i < j < |paths| ensures Earlier(paths[i], paths[j]) {
      if j < |under| {
        assert paths[i][1..] == own[i] && paths[j][1..] == own[j];
      } else if i >= |under| {
        assert paths[i] == rest[i - |under|] && paths[j] == rest[j - |under|];
      }
    }
  }

  // ---------- test cases ----------

  ghost predicate IsCase(t: Element) { Unqualified(t.tag, "testcase") }

  /** The places of the test cases, in document order. */
  ghost predicate CasePlaces(root: Element, ts: seq<Element>, paths: seq<seq<nat>>) {
    && |paths| == |ts| && Ascending(paths)
    && (forall i :: 0 <= i < |ts| ==> At(root, paths[i]) == Some(ts[i]) && IsCase(ts[i]))
    && (forall p :: At(root, p).Some? && IsCase(At(root, p).value) ==> p in paths)
  }

  lemma {:induction false} TestcasesPick(es: seq<Element>) returns (at: seq<nat>)
    ensures Picks(es, IsTestcase, Testcases(es), at)
    decreases |es|
  {
    at := [];
    if es != [] {
      var n := |es| - 1;
      at := TestcasesPick(es[..n]);
      PicksNext(es[..n], es[n], IsTestcase, Testcases(es[..n]), at);
      assert es[..n] + [es[n]] == es;
      if IsTestcase(es[n]) {
        at := at + [n];
      }
    }
  }

  function Taken(paths: seq<seq<nat>>, at: seq<nat>): (r: seq<seq<nat>>)
    requires forall j :: 0 <= j < |at| ==> at[j] < |paths|
    ensures |r| == |at| && forall j :: 0 <= j < |at| ==> r[j] == paths[at[j]]
  {
    seq(|at|, j requires 0 <= j < |at| => paths[at[j]])
  }

  lemma CasesMean(root: Element) returns (paths: seq<seq<nat>>)
    ensures CasePlaces(root, Testcases(Iter(root)), paths)
  {
    var all := IterPlaces(root);
    var at := TestcasesPick(Iter(root));
    paths := Taken(all, at);
    CasesTaken(root, Iter(root), all, Testcases(Iter(root)), at);
  }

  lemma CasesTaken(root: Element, es: seq<Element>, all: seq<seq<nat>>, ts: seq<Element>, at: seq<nat>)
    requires AllPlaces(root, es, all) && Picks(es, IsTestcase, ts, at)
    ensures CasePlaces(root, ts, Taken(all, at))
  {
    var paths := Taken(all, at);
    forall i | 0 <= i < |ts| ensures At(root, paths[i]) == Some(ts[i]) && IsCase(ts[i]) {
      LocalMeans(ts[i].tag, "testcase");
    }
    forall p | At(root, p).Some? && IsCase(At(root, p).value) ensures p in paths {
      var i :| 0 <= i < |all| && all[i] == p;
      assert At(root, all[i]) == Some(es[i]);
      LocalMeans(es[i].tag, "testcase");
      var j :| 0 <= j < |at| && at[j] == i;
      assert paths[j] == p;
    }
  }

  /** The case names the selector, and none of its children says that it did not pass. */
  ghost predicate CasePasses(t: Element, selector: string) {
    && "classname" in t.attributes && t.attributes["classname"] != ""
    && "name" in t.attributes && t.attributes["name"] != ""
    && (exists file :: WithSlashes(t.attributes["classname"], file)
          && selector == file + ".py::" + t.attributes["name"])
    && forall c :: c in t.children ==>
         !Unqualified(c.tag, "failure") && !Unqualified(c.tag, "error") && !Unqualified(c.tag, "skipped")
  }

  lemma SlashesOnce(s: string, t: string)
    requires WithSlashes(s, t)
    ensures t == Slashed(s)
  {
    SlashesMean(s);
  }

  lemma CaseMeans(t: Element, selector: string)
    ensures PassedRun(t, selector) <==> CasePasses(t, selector)
  {
    forall c | c in t.children
      ensures Bad(c) <==> Unqualified(c.tag, "failure") || Unqualified(c.tag, "error") || Unqualified(c.tag, "skipped")
    {
      LocalMeans(c.tag, "failure");
      LocalMeans(c.tag, "error");
      LocalMeans(c.tag, "skipped");
    }
    if Identified(t) {
      var name := t.attributes["classname"];
      SlashesMean(name);
      if file :| WithSlashes(name, file) && selector == file + ".py::" + t.attributes["name"] {
        SlashesOnce(name, file);
      }
    }
  }

  // ---------- the report ----------

  /** `ys` are the distinct elements of `xs`, at their first occurrences, which are at `at`. */
  ghost predicate FirstOccurrences(xs: seq<string>, ys: seq<string>, at: seq<nat>) {
    && |at| == |ys|
    && (forall j :: 0 <= j < |at| ==> FirstAt(xs, ys[j], at[j]))
    && (forall i, j :: 0 <= i < j < |at| ==> at[i] < at[j])
    && (forall x :: x in xs ==> x in ys)
  }

  lemma {:induction false} DedupMeans(xs: seq<string>) returns (at: seq<nat>)
    ensures FirstOccurrences(xs, Dedup(xs), at)
    decreases |xs|
  {
    at := [];
    if xs != [] {
      var n := |xs| - 1;
      at := DedupMeans(xs[..n]);
      DedupSound(xs[..n]);
      var ys := Dedup(xs[..n]);
      forall j | 0 <= j < |at| ensures FirstAt(xs, ys[j], at[j]) {
        assert FirstAt(xs[..n], ys[j], at[j]);
        assert xs[..n][..at[j]] == xs[..at[j]];
      }
      assert xs == xs[..n] + [xs[n]];
      if xs[n] !in ys {
        at := at + [n];
      }
    }
  }

  /** One passing test case for each expected selector, in document order, and no other case. */
  ghost predicate CasesPass(root: Element, expected: seq<string>) {
    exists ts, paths :: CasePlaces(root, ts, paths) && |ts| == |expected|
      && forall i :: 0 <= i < |ts| ==> CasePasses(ts[i], expected[i])
  }

  lemma {:induction false} EarlierOrder(p: seq<nat>, q: seq<nat>)
    ensures !(Earlier(p, q) && Earlier(q, p)) && !Earlier(p, p)
  {
    if p != [] && q != [] {
      EarlierOrder(p[1..], q[1..]);
    }
    if p != [] {
      EarlierOrder(p[1..], p[1..]);
    }
  }

  lemma HasMember(a: seq<seq<nat>>)
    requires a != []
    ensures exists p :: p in a
  {
    assert a[0] in a;
  }

  /** Two ascending lists of the same places are the same. */
  lemma {:induction false} AscendingUnique(a: seq<seq<nat>>, b: seq<seq<nat>>)
    requires Ascending(a) && Ascending(b) && forall p :: p in a <==> p in b
    ensures a == b
    decreases |a|
  {
    if b != [] {
      HasMember(b);
    }
    if a != [] {
      HasMember(a);
      var n := |a| - 1;
      assert a[n] in b;
      var m := |b| - 1;
      LastSame(a, b);
      assert a == a[..n] + [a[n]] && b == b[..m] + [b[m]];
      forall p ensures p in a[..n] <==> p in b[..m] {
        NotLast(a, p);
        NotLast(b, p);
      }
      AscendingUnique(a[..n], b[..m]);
    }
  }

  lemma NotLast(a: seq<seq<nat>>, p: seq<nat>)
    requires Ascending(a) && a != []
    ensures p in a[..|a| - 1] <==> p in a && p != a[|a| - 1]
  {
    var n := |a| - 1;
    assert a == a[..n] + [a[n]];
    if p in a[..n] {
      var i :| 0 <= i < n && a[..n][i] == p;
      assert Earlier(a[i], a[n]);
      EarlierOrder(p, p);
    }
  }

  lemma LastSame(a: seq<seq<nat>>, b: seq<seq<nat>>)
    requires Ascending(a) && Ascending(b) && a != [] && b != [] && forall p :: p in a <==> p in b
    ensures a[|a| - 1] == b[|b| - 1]
  {
    var x, y := a[|a| - 1], b[|b| - 1];
    assert x in a && y in b;
    var i :| 0 <= i < |b| && b[i] == x;
    var j :| 0 <= j < |a| && a[j] == y;
    EarlierOrder(x, y);
  }

  lemma SameCases(root: Element, ts: seq<Element>, paths: seq<seq<nat>>, us: seq<Element>, qs: seq<seq<nat>>)
    requires CasePlaces(root, ts, paths) && CasePlaces(root, us, qs)
    ensures ts == us
  {
    forall p ensures p in paths <==> p in qs {
      CasePlace(root, ts, paths, p);
      CasePlace(root, us, qs, p);
    }
    AscendingUnique(paths, qs);
  }

  lemma CasePlace(root: Element, ts: seq<Element>, paths: seq<seq<nat>>, p: seq<nat>)
    requires CasePlaces(root, ts, paths)
    ensures p in paths <==> At(root, p).Some? && IsCase(At(root, p).value)
  {
    if p in paths {
      var i :| 0 <= i < |paths| && paths[i] == p;
      assert At(root, paths[i]) == Some(ts[i]);
    }
  }

  lemma CasesPassMeans(root: Element, expected: seq<string>)
    ensures AllPass(Testcases(Iter(root)), expected) <==> CasesPass(root, expected)
  {
    var ts := Testcases(Iter(root));
    var paths := CasesMean(root);
    forall i | 0 <= i < |ts| && i < |expected|
      ensures PassedRun(ts[i], expected[i]) <==> CasePasses(ts[i], expected[i])
    {
      CaseMeans(ts[i], expected[i]);
    }
    if CasesPass(root, expected) {
      var us, qs :| CasePlaces(root, us, qs) && |us| == |expected|
        && forall i :: 0 <= i < |us| ==> CasePasses(us[i], expected[i]);
      SameCases(root, ts, paths, us, qs);
    }
  }

  /** A report is accepted exactly when it is small enough, declares no document type or entity, parses,
      and has one passing test case for each distinct selector, in the same order, and no other. */
  lemma ReportMeans(parse: Bytes -> Option<Element>, data: Bytes, selectors: seq<string>)
    ensures ReportOk(parse, data, selectors) <==>
      && |data| <= 67108864 && !Mentions(data, "<!DOCTYPE") && !Mentions(data, "<!ENTITY")
      && parse(data).Some? && CasesPass(parse(data).value, Dedup(selectors))
  {
    ContainsMeans(data, "<!DOCTYPE");
    ContainsMeans(data, "<!ENTITY");
    assert Ascii("<!DOCTYPE") == DOCTYPE && Ascii("<!ENTITY") == ENTITY;
    if parse(data).Some? {
      CasesPassMeans(parse(data).value, Dedup(selectors));
    }
  }
}
