/** Stable security-gate evidence: the selector manifest and the test report it is checked against. */
module GateReport {
  import opened Common

  type Bytes = seq<nat>

  /** A parsed XML element. */
  datatype Element = Element(tag: string, attributes: map<string, string>, children: seq<Element>)

  datatype Counts = Counts(collected: nat, passed: nat, failed: nat, errors: nat, skipped: nat)

  const JUNIT_MAX_BYTES: nat := 64 * 1024 * 1024
  /** `<!DOCTYPE` and `<!ENTITY` in ASCII. */
  const DOCTYPE: Bytes := [60, 33, 68, 79, 67, 84, 89, 80, 69]
  const ENTITY: Bytes := [60, 33, 69, 78, 84, 73, 84, 89]

  // ---------- keeping first occurrences ----------

  /** Each element once, at the place of its first occurrence. */
  function Dedup(xs: seq<string>): seq<string> {
    if xs == [] then []
    else
      var n := |xs| - 1;
      var r := Dedup(xs[..n]);
      if xs[n] in r then r else r + [xs[n]]
  }

  lemma {:induction false} DedupSound(xs: seq<string>)
    ensures forall x :: x in Dedup(xs) <==> x in xs
    ensures NoRepeats(Dedup(xs))
    decreases |xs|
  {
    if xs != [] {
      var n := |xs| - 1;
      DedupSound(xs[..n]);
      assert xs == xs[..n] + [xs[n]];
    }
  }

  lemma DedupStep(xs: seq<string>, x: string)
    ensures Dedup(xs + [x]) == if x in Dedup(xs) then Dedup(xs) else Dedup(xs) + [x]
  {
    assert (xs + [x])[..|xs|] == xs;
  }

  lemma {:induction false} DedupIdentity(xs: seq<string>)
    requires NoRepeats(xs)
    ensures Dedup(xs) == xs
    decreases |xs|
  {
    if xs != [] {
      var n := |xs| - 1;
      DedupIdentity(xs[..n]);
      DedupSound(xs[..n]);
      assert xs == xs[..n] + [xs[n]];
    }
  }

  /** `x` first occurs in `xs` at `i`. */
  predicate FirstAt(xs: seq<string>, x: string, i: nat) {
    i < |xs| && xs[i] == x && x !in xs[..i]
  }

  /** The elements keep the order of their first occurrences. */
  lemma {:induction false} DedupOrder(xs: seq<string>, a: nat, b: nat, i: nat, j: nat)
    requires a < b < |Dedup(xs)| && FirstAt(xs, Dedup(xs)[a], i) && FirstAt(xs, Dedup(xs)[b], j)
    ensures i < j
    decreases |xs|
  {
    var n := |xs| - 1;
    var front := xs[..n];
    assert xs == front + [xs[n]];
    DedupSound(front);
    FirstInFront(xs, Dedup(xs)[a], i);
    if b < |Dedup(front)| {
      FirstInFront(xs, Dedup(xs)[b], j);
      DedupOrder(front, a, b, i, j);
    } else if j < n {
      assert false;
    }
  }

  lemma FirstInFront(xs: seq<string>, x: string, i: nat)
    requires FirstAt(xs, x, i)
    ensures x in xs[..|xs| - 1] ==> FirstAt(xs[..|xs| - 1], x, i)
  {
    var n := |xs| - 1;
    if x in xs[..n] {
      var k :| 0 <= k < n && xs[..n][k] == x;
      assert xs[k] == x;
      assert xs[..n][..i] == xs[..i];
    }
  }

  // ---------- test cases ----------

  /** The part of a tag after its namespace. */
  function LocalName(tag: string): string {
    if tag == "" then "" else if tag[|tag| - 1] == '}' then "" else LocalName(tag[..|tag| - 1]) + [tag[|tag| - 1]]
  }

  /** The element and everything below it, in document order. */
  function Iter(e: Element): seq<Element> { [e] + IterAll(e.children) }

  function IterAll(es: seq<Element>): seq<Element> {
    if es == [] then [] else Iter(es[0]) + IterAll(es[1..])
  }

  predicate IsTestcase(e: Element) { LocalName(e.tag) == "testcase" }

  function Testcases(es: seq<Element>): seq<Element> {
    if es == [] then []
    else Testcases(es[..|es| - 1]) + if IsTestcase(es[|es| - 1]) then [es[|es| - 1]] else []
  }

  predicate Identified(t: Element) {
    && "classname" in t.attributes && t.attributes["classname"] != ""
    && "name" in t.attributes && t.attributes["name"] != ""
  }

  function Slashed(s: string): string {
    if s == "" then "" else [if s[0] == '.' then '/' else s[0]] + Slashed(s[1..])
  }

  function NodeId(t: Element): string
    requires Identified(t)
  {
    Slashed(t.attributes["classname"]) + ".py::" + t.attributes["name"]
  }

  predicate Bad(child: Element) { LocalName(child.tag) in {"failure", "error", "skipped"} }

  predicate Passes(t: Element) { forall c :: c in t.children ==> !Bad(c) }

  /** `t` is the test the selector names, and it passed. */
  predicate PassedRun(t: Element, selector: string) {
    Identified(t) && NodeId(t) == selector && Passes(t)
  }

  function From(data: Bytes, i: nat): Bytes
    requires i <= |data|
  {
    data[i..]
  }

  predicate Contains(data: Bytes, part: Bytes) {
    exists i :: 0 <= i <= |data| && part <= From(data, i)
  }

  predicate Admissible(data: Bytes) {
    |data| <= JUNIT_MAX_BYTES && !Contains(data, DOCTYPE) && !Contains(data, ENTITY)
  }

  /** The report holds one passing test case for each selector, in the same order, and no other. */
  predicate AllPass(ts: seq<Element>, selectors: seq<string>) {
    |ts| == |selectors| && forall i :: 0 <= i < |ts| ==> PassedRun(ts[i], selectors[i])
  }

  ghost predicate ReportOk(parse: Bytes -> Option<Element>, data: Bytes, selectors: seq<string>) {
    && Admissible(data) && parse(data).Some?
    && AllPass(Testcases(Iter(parse(data).value)), Dedup(selectors))
  }

  /** First element child that says the test did not pass. */
  method StatusOf(t: Element) returns (status: string)
    ensures status == "passed" <==> Passes(t)
  {
    for i := 0 to |t.children|
      invariant forall j :: 0 <= j < i ==> !Bad(t.children[j])
    {
      status := LocalName(t.children[i].tag);
      if status in {"failure", "error", "skipped"} {
        assert t.children[i] in t.children && Bad(t.children[i]);
        return;
      }
    }
    return "passed";
  }

  /** `order` is the insertion order of the dictionary `status`, which describes `ts`. */
  ghost predicate Observed(ts: seq<Element>, order: seq<string>, status: map<string, string>) {
    && |order| == |ts| && NoRepeats(order) && status.Keys == Elements(order)
    && (forall i :: 0 <= i < |ts| ==> Identified(ts[i]) && order[i] == NodeId(ts[i]))
    && (forall i :: 0 <= i < |ts| ==> (status[order[i]] == "passed" <==> Passes(ts[i])))
  }

  lemma ObservedStep(ts: seq<Element>, order: seq<string>, status: map<string, string>, t: Element, s: string)
    requires Observed(ts, order, status) && Identified(t) && NodeId(t) !in status && (s == "passed" <==> Passes(t))
    ensures Observed(ts + [t], order + [NodeId(t)], status[NodeId(t) := s])
  {
    var order' := order + [NodeId(t)];
    assert NodeId(t) !in order;
    NoRepeatsAppend(order, NodeId(t));
    assert Elements(order') == Elements(order) + {NodeId(t)};
    forall i | 0 <= i < |ts|
      ensures order'[i] != NodeId(t)
    {
      assert order[i] in order;
    }
  }

  /** Later elements only add test cases. */
  lemma {:induction false} TestcasesPrefix(es: seq<Element>, i: nat)
    requires i <= |es|
    ensures Testcases(es[..i]) <= Testcases(es)
    decreases |es| - i
  {
    if i < |es| {
      assert es[..i + 1][..i] == es[..i];
      TestcasesPrefix(es, i + 1);
    } else {
      assert es[..i] == es;
    }
  }

  lemma TestcaseNext(es: seq<Element>, i: nat)
    requires i < |es|
    ensures Testcases(es[..i + 1]) == if IsTestcase(es[i]) then Testcases(es[..i]) + [es[i]] else Testcases(es[..i])
    ensures IsTestcase(es[i]) ==> Testcases(es[..i]) + [es[i]] <= Testcases(es)
  {
    assert es[..i + 1][..i] == es[..i];
    TestcasesPrefix(es, i + 1);
  }

  /** A case without identity, or a second case of the same test, cannot be accepted. */
  lemma Blocks(ts: seq<Element>, t: Element, all: seq<Element>, selectors: seq<string>, order: seq<string>,
               status: map<string, string>)
    requires ts + [t] <= all && Observed(ts, order, status) && NoRepeats(selectors)
    requires !Identified(t) || NodeId(t) in status
    ensures !AllPass(all, selectors)
  {
    var n := |ts|;
    assert all[n] == (ts + [t])[n] == t;
    if Identified(t) {
      var k :| 0 <= k < |order| && order[k] == NodeId(t);
      assert all[k] == (ts + [t])[k] == ts[k];
      assert NodeId(all[k]) == NodeId(all[n]);
      assert k < n < |selectors| ==> selectors[k] != selectors[n];
    }
  }

  lemma Verdict(ts: seq<Element>, order: seq<string>, status: map<string, string>, selectors: seq<string>)
    requires Observed(ts, order, status)
    ensures AllPass(ts, selectors) <==> order == selectors && forall id :: id in status ==> status[id] == "passed"
  {
    if AllPass(ts, selectors) {
      forall i | 0 <= i < |ts| ensures order[i] == selectors[i] && status[order[i]] == "passed" {
        assert PassedRun(ts[i], selectors[i]);
      }
      forall id | id in status ensures status[id] == "passed" {
        assert id in order;
      }
    }
    if order == selectors && forall id :: id in status ==> status[id] == "passed" {
      forall i | 0 <= i < |ts| ensures PassedRun(ts[i], selectors[i]) {
        assert order[i] in status.Keys;
      }
    }
  }

  /** `_junit_counts`: a report is accepted exactly when its test cases are the selectors, in
      order and all passing; the counts are then those of the report. */
  method JunitCounts(parse: Bytes -> Option<Element>, data: Bytes, selectors: seq<string>) returns (r: Option<Counts>)
    ensures r.Some? <==> ReportOk(parse, data, selectors)
    ensures r.Some? ==> r.value == Counts(|Dedup(selectors)|, |Dedup(selectors)|, 0, 0, 0)
    ensures r.Some? ==> r.value.collected == |Testcases(Iter(parse(data).value))|
  {
    if !Admissible(data) || parse(data).None? {
      return None;
    }
    var all := Iter(parse(data).value);
    var expected := Dedup(selectors);
    DedupSound(selectors);
    var order: seq<string>, status: map<string, string> := [], map[];
    assert all[..0] == [];
    for i := 0 to |all|
      invariant Observed(Testcases(all[..i]), order, status)
    {
      var t := all[i];
      TestcaseNext(all, i);
      if IsTestcase(t) {
        if !Identified(t) || NodeId(t) in status {
          Blocks(Testcases(all[..i]), t, Testcases(all), expected, order, status);
          return None;
        }
        var s := StatusOf(t);
        ObservedStep(Testcases(all[..i]), order, status, t, s);
        order, status := order + [NodeId(t)], status[NodeId(t) := s];
      }
    }
    assert all[..|all|] == all;
    Verdict(Testcases(all), order, status, expected);
    if order != expected || exists id :: id in status && status[id] != "passed" {
      return None;
    }
    return Some(Counts(|expected|, |expected|, 0, 0, 0));
  }
}
