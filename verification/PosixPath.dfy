/** `PurePosixPath`: parts, normal form, and which strings are their own normal form. */
module PosixPath {

  /** The pieces between slashes. */
  function Split(s: string): (ps: seq<string>)
    ensures |ps| > 0
  {
    if s == "" then [""]
    else
      var rest := Split(s[1..]);
      if s[0] == '/' then [""] + rest else [[s[0]] + rest[0]] + rest[1..]
  }

  /** `"/".join(ps)`. */
  function Join(ps: seq<string>): string {
    if ps == [] then "" else if |ps| == 1 then ps[0] else ps[0] + "/" + Join(ps[1..])
  }

  /** The pieces a path keeps: neither empty nor a single dot. */
  function Kept(ps: seq<string>): seq<string> {
    if ps == [] then [] else (if ps[0] == "" || ps[0] == "." then [] else [ps[0]]) + Kept(ps[1..])
  }

  predicate IsAbsolute(s: string) { s != "" && s[0] == '/' }

  /** One leading slash, or exactly two; three or more count as one. */
  function Root(s: string): string {
    if !IsAbsolute(s) then "" else if |s| >= 2 && s[1] == '/' && !(|s| >= 3 && s[2] == '/') then "//" else "/"
  }

  /** Exactly two leading slashes are kept, any other number counts as one. */
  lemma RootMeans(k: nat, rest: string)
    requires rest == "" || rest[0] != '/'
    ensures Root(seq(k, _ => '/') + rest) == if k == 0 then "" else if k == 2 then "//" else "/"
  {
    var slashes := seq(k, _ => '/');
    var s := slashes + rest;
    assert forall i :: 0 <= i < k ==> s[i] == slashes[i] == '/';
    if rest != "" {
      assert s[k] == rest[0];
    }
  }

  /** The parts below the root. */
  function Tail(s: string): seq<string> { Kept(Split(s)) }

  /** `PurePosixPath(s).parts`: an absolute path begins with its root. */
  function Parts(s: string): seq<string> {
    if Root(s) == "" then Tail(s) else [Root(s)] + Tail(s)
  }

  /** `as_posix()` of a path with these parts; the path without parts is written ".". */
  function Written(root: string, tail: seq<string>): string {
    if root == "" && tail == [] then "." else root + Join(tail)
  }

  /** `PurePosixPath(s).as_posix()`. */
  function AsPosix(s: string): string { Written(Root(s), Tail(s)) }

  /** The check made on repository and archive paths: relative, its own normal form, and
      without an empty, "." or ".." part. */
  predicate PassesChecks(s: string) {
    !IsAbsolute(s) && AsPosix(s) == s && forall part :: part in Parts(s) ==> part !in {"", ".", ".."}
  }

  /** No piece between slashes is empty, "." or "..". */
  predicate PlainPieces(s: string) {
    forall piece :: piece in Split(s) ==> piece !in {"", ".", ".."}
  }

  // ---------- splitting and joining ----------

  predicate NoSlash(ps: seq<string>) { forall p :: p in ps ==> '/' !in p }

  lemma {:induction false} SplitHasNoSlash(s: string)
    ensures NoSlash(Split(s))
  {
    if s != "" {
      SplitHasNoSlash(s[1..]);
      var rest := Split(s[1..]);
      assert rest[0] in rest;
    }
  }

  lemma JoinAfterSlash(rest: seq<string>)
    requires rest != []
    ensures Join([""] + rest) == "/" + Join(rest)
  {
    assert ([""] + rest)[1..] == rest;
    assert "" + "/" + Join(rest) == "/" + Join(rest);
  }

  lemma JoinLonger(c: char, rest: seq<string>)
    requires rest != []
    ensures Join([[c] + rest[0]] + rest[1..]) == [c] + Join(rest)
  {
    var ps := [[c] + rest[0]] + rest[1..];
    assert ps[1..] == rest[1..];
    if |rest| > 1 {
      assert [c] + rest[0] + "/" + Join(rest[1..]) == [c] + (rest[0] + "/" + Join(rest[1..]));
    }
  }

  lemma {:induction false} JoinSplit(s: string)
    ensures Join(Split(s)) == s
  {
    if s != "" {
      var rest := Split(s[1..]);
      JoinSplit(s[1..]);
      if s[0] == '/' {
        JoinAfterSlash(rest);
      } else {
        JoinLonger(s[0], rest);
      }
      assert [s[0]] + s[1..] == s;
    }
  }

  /** Splitting after a piece without slashes gives the piece back. */
  lemma {:induction false} SplitPiece(p: string, rest: string)
    requires '/' !in p
    ensures Split(p) == [p]
    ensures Split(p + "/" + rest) == [p] + Split(rest)
  {
    var s := p + "/" + rest;
    if p == "" {
      assert s == "/" + rest && s[1..] == rest;
    } else {
      SplitPiece(p[1..], rest);
      assert s[1..] == p[1..] + "/" + rest;
      assert [p[0]] + p[1..] == p;
    }
  }

  lemma {:induction false} SplitJoin(ps: seq<string>)
    requires ps != [] && NoSlash(ps)
    ensures Split(Join(ps)) == ps
  {
    assert ps[0] in ps;
    if |ps| == 1 {
      SplitPiece(ps[0], "");
    } else {
      SplitJoin(ps[1..]);
      SplitPiece(ps[0], Join(ps[1..]));
    }
  }

  // ---------- normal forms ----------

  lemma {:induction false} KeptMembers(ps: seq<string>, p: string)
    ensures p in Kept(ps) <==> p in ps && p != "" && p != "."
  {
    if ps != [] {
      KeptMembers(ps[1..], p);
    }
  }

  lemma {:induction false} KeepsPlain(ps: seq<string>)
    requires forall p :: p in ps ==> p != "" && p != "."
    ensures Kept(ps) == ps
  {
    if ps != [] {
      assert ps[0] in ps && forall p :: p in ps[1..] ==> p in ps;
      KeepsPlain(ps[1..]);
      assert [ps[0]] + ps[1..] == ps;
    }
  }

  lemma AbsoluteSplit(s: string)
    requires IsAbsolute(s)
    ensures "" in Split(s)
  {
    assert Split(s)[0] == "";
  }

  /** A relative path that has parts and is its own normal form is made of those parts. */
  lemma NormalSplit(s: string)
    requires !IsAbsolute(s) && AsPosix(s) == s && Tail(s) != []
    ensures Split(s) == Tail(s)
  {
    SplitHasNoSlash(s);
    forall p | p in Tail(s) ensures '/' !in p {
      KeptMembers(Split(s), p);
    }
    SplitJoin(Tail(s));
    assert "" + Join(Tail(s)) == Join(Tail(s));
  }

  lemma PlainIsNormal(s: string)
    requires PlainPieces(s)
    ensures !IsAbsolute(s) && Tail(s) == Split(s) && AsPosix(s) == s
  {
    if IsAbsolute(s) {
      AbsoluteSplit(s);
      assert false;
    }
    KeepsPlain(Split(s));
    JoinSplit(s);
  }

  /** For every string: the checks accept it if and only if it is ".", or none of its pieces is
      empty, "." or "..". */
  lemma ChecksAccept(s: string)
    ensures PassesChecks(s) <==> s == "." || PlainPieces(s)
  {
    if s == "." {
      DotIsNormal();
    } else if PlainPieces(s) {
      PlainIsNormal(s);
    } else if PassesChecks(s) {
      assert Tail(s) != [] && Parts(s) == Tail(s);
      NormalSplit(s);
    }
  }

  lemma DotSplits()
    ensures Split(".") == ["."]
  {
    var dot := ".";
    SplitPiece(dot, "");
  }

  /** "." has no parts and is its own normal form. */
  lemma DotIsNormal()
    ensures Tail(".") == [] && PassesChecks(".") && !PlainPieces(".")
  {
    DotSplits();
    assert "." in Split(".");
    assert Kept(["."]) == Kept([]);
  }
}
