/** Options and sequences without repeats. */
module Common {

  datatype Option<+T> = None | Some(value: T)

  function Elements<T>(q: seq<T>): set<T> { set x | x in q }

  ghost predicate NoRepeats<T(!new)>(q: seq<T>) {
    forall i, j :: 0 <= i < j < |q| ==> q[i] != q[j]
  }

  lemma NoRepeatsAppend<T(!new)>(q: seq<T>, x: T)
    ensures NoRepeats(q + [x]) <==> NoRepeats(q) && x !in q
  {
    var next := q + [x];
    assert next[..|q|] == q;
    if NoRepeats(next) {
      forall i | 0 <= i < |q| ensures q[i] != x {
        assert next[i] != next[|q|];
      }
      forall i, j | 0 <= i < j < |q| ensures q[i] != q[j] {
        assert next[i] != next[j];
      }
    }
  }

  /** A sequence has as many elements as positions exactly when nothing repeats. */
  lemma {:induction false} CountsDistinct<T(!new)>(q: seq<T>)
    ensures |Elements(q)| <= |q|
    ensures |Elements(q)| == |q| <==> NoRepeats(q)
    decreases |q|
  {
    if q != [] {
      var front, last := q[..|q| - 1], q[|q| - 1];
      assert q == front + [last];
      CountsDistinct(front);
      NoRepeatsAppend(front, last);
      assert Elements(q) == Elements(front) + {last};
    }
  }

  lemma PrefixGrows<T>(xs: seq<T>, i: nat)
    requires i < |xs|
    ensures xs[..i + 1] == xs[..i] + [xs[i]]
  {
  }

  /** `ys` are the elements of `xs` that are to be kept, in order; `at` is where they stand. */
  ghost predicate Picks<T(!new)>(xs: seq<T>, keep: T -> bool, ys: seq<T>, at: seq<nat>) {
    && |at| == |ys|
    && (forall j :: 0 <= j < |at| ==> at[j] < |xs| && keep(xs[at[j]]) && ys[j] == xs[at[j]])
    && (forall i, j :: 0 <= i < j < |at| ==> at[i] < at[j])
    && (forall i :: 0 <= i < |xs| && keep(xs[i]) ==> i in at)
  }

  lemma PicksNext<T(!new)>(xs: seq<T>, x: T, keep: T -> bool, ys: seq<T>, at: seq<nat>)
    requires Picks(xs, keep, ys, at)
    ensures keep(x) ==> Picks(xs + [x], keep, ys + [x], at + [|xs|])
    ensures !keep(x) ==> Picks(xs + [x], keep, ys, at)
  {
    if keep(x) {
      forall i | 0 <= i < |xs + [x]| && keep((xs + [x])[i]) ensures i in at + [|xs|] {
        if i < |xs| {
          assert i in at;
        }
      }
    }
  }

  lemma SubsetSize<T>(a: set<T>, b: set<T>)
    requires a <= b
    ensures |a| <= |b|
  {
    assert b == a + (b - a);
  }

  /** A set can be listed, each element once. */
  lemma {:induction false} InSomeOrder<T(!new)>(s: set<T>) returns (q: seq<T>)
    ensures NoRepeats(q) && forall x :: x in q <==> x in s
    decreases |s|
  {
    if s == {} {
      q := [];
    } else {
      var x :| x in s;
      var rest := InSomeOrder(s - {x});
      NoRepeatsAppend(rest, x);
      q := rest + [x];
    }
  }
}
