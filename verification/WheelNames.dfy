/** Wheel file names, as far as the release naming reads them. */
module WheelNames {
  import opened Common
  import opened Sbom

  /** The pieces between dashes. */
  function Pieces(s: string): (ps: seq<string>)
    ensures |ps| > 0
  {
    if s == "" then [""]
    else
      var rest := Pieces(s[1..]);
      if s[0] == '-' then [""] + rest else [[s[0]] + rest[0]] + rest[1..]
  }

  predicate IsSeparator(c: char) { c == '-' || c == '_' || c == '.' }

  /** A separator as a dash, and capitals as small letters. */
  function CanonicalChar(c: char): char {
    if IsSeparator(c) then '-' else if 'A' <= c <= 'Z' then (c as int + 32) as char else c
  }

  /** `canonicalize_name`: a run of separators becomes one dash, and capitals become small. */
  function Canonical(s: string): string
    decreases |s|
  {
    if s == "" then "" else
      var m := |s| - 1;
      if m > 0 && IsSeparator(s[m - 1]) && IsSeparator(s[m]) then Canonical(s[..m])
      else Canonical(s[..m]) + [CanonicalChar(s[m])]
  }

  /** No two separators side by side. */
  predicate NoRuns(s: string) { forall i :: 0 < i < |s| && IsSeparator(s[i - 1]) ==> !IsSeparator(s[i]) }

  /** At most the character at one position is a separator. */
  lemma OneSeparator(s: string, k: nat)
    requires forall i :: 0 <= i < |s| && i != k ==> !IsSeparator(s[i])
    ensures NoRuns(s)
  {
  }

  function EachChar(s: string): (r: string)
    ensures |r| == |s| && forall i :: 0 <= i < |s| ==> r[i] == CanonicalChar(s[i])
  {
    seq(|s|, i requires 0 <= i < |s| => CanonicalChar(s[i]))
  }

  /** Without runs, the characters are canonicalized one by one. */
  lemma {:induction false} CanonicalWithoutRuns(s: string)
    requires NoRuns(s)
    ensures Canonical(s) == EachChar(s)
    decreases |s|
  {
    if s != "" {
      var m := |s| - 1;
      CanonicalWithoutRuns(s[..m]);
      assert EachChar(s) == EachChar(s[..m]) + [CanonicalChar(s[m])];
    }
  }

  lemma CanonicalStep(s: string, c: char)
    ensures |Canonical(s)| <= |Canonical(s + [c])|
  {
    assert (s + [c])[..|s|] == s;
  }

  /** What follows a name only adds to its canonical form. */
  lemma {:induction false} CanonicalGrows(s: string, n: nat)
    requires n <= |s|
    ensures |Canonical(s[..n])| <= |Canonical(s)|
    decreases |s| - n
  {
    if n == |s| {
      assert s[..n] == s;
    } else {
      CanonicalGrows(s, n + 1);
      PrefixGrows(s, n);
      CanonicalStep(s[..n], s[n]);
    }
  }

  predicate IsWheel(f: string) { |f| >= 4 && f[|f| - 4..] == ".whl" }

  /** Distribution and version of a wheel: five pieces, or six with a build tag. */
  function WheelIdentity(f: string): Option<(string, string)> {
    if !IsWheel(f) then None else
      var ps := Pieces(f[..|f| - 4]);
      if |ps| == 5 || |ps| == 6 then Some((Canonical(ps[0]), ps[1])) else None
  }

  function WheelNaming(): Naming {
    Naming(WheelIdentity, f => if IsWheel(f) then "wheel" else "sdist", Canonical, c => c == ' ')
  }

  lemma {:induction false} PiecesStep(p: string, rest: string)
    requires '-' !in p
    ensures Pieces(p) == [p] && Pieces(p + "-" + rest) == [p] + Pieces(rest)
  {
    var s := p + "-" + rest;
    if p == "" {
      assert s[1..] == rest;
    } else {
      PiecesStep(p[1..], rest);
      assert s[1..] == p[1..] + "-" + rest;
      assert [p[0]] + p[1..] == p;
    }
  }

  /** The name of a wheel with these five pieces. */
  function WheelName(distribution: string, version: string, python: string, abi: string, platform: string): string {
    distribution + "-" + (version + "-" + (python + "-" + (abi + "-" + platform))) + ".whl"
  }

  lemma FivePieces(a: string, b: string, c: string, d: string, e: string)
    requires '-' !in a && '-' !in b && '-' !in c && '-' !in d && '-' !in e
    ensures Pieces(a + "-" + (b + "-" + (c + "-" + (d + "-" + e)))) == [a, b, c, d, e]
  {
    PiecesStep(e, "");
    PiecesStep(d, e);
    PiecesStep(c, d + "-" + e);
    PiecesStep(b, c + "-" + (d + "-" + e));
    PiecesStep(a, b + "-" + (c + "-" + (d + "-" + e)));
  }

  lemma StemOf(stem: string)
    ensures IsWheel(stem + ".whl") && (stem + ".whl")[..|stem|] == stem
  {
  }

  lemma WheelNameParses(distribution: string, version: string, python: string, abi: string, platform: string)
    requires '-' !in distribution && '-' !in version && '-' !in python && '-' !in abi && '-' !in platform
    ensures var f := WheelName(distribution, version, python, abi, platform);
            IsWheel(f) && WheelIdentity(f) == Some((Canonical(distribution), version))
  {
    StemOf(distribution + "-" + (version + "-" + (python + "-" + (abi + "-" + platform))));
    FivePieces(distribution, version, python, abi, platform);
  }
}
