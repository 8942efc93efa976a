/** The closed audit-evidence tree: a worklist walk over a directory. */
module EvidenceClosure {
  import opened Common
  import opened PosixPath

  /** A directory entry as `lstat` sees it. `readable` is false where listing it raises. */
  datatype Node = File | Special | Dir(readable: bool, entries: seq<Entry>)

  datatype Entry = Entry(name: string, node: Node)

  /** A path below the evidence root, as its parts. */
  type Path = seq<string>

  function Find(es: seq<Entry>, name: string): Option<Node> {
    if es == [] then None else if es[0].name == name then Some(es[0].node) else Find(es[1..], name)
  }

  function Lookup(n: Node, p: Path): Option<Node>
    decreases |p|
  {
    if p == [] then Some(n)
    else if !n.Dir? then None
    else match Find(n.entries, p[0])
      case Some(c) => Lookup(c, p[1..])
      case None => None
  }

  ghost predicate DistinctNames(es: seq<Entry>) {
    forall i, j :: 0 <= i < j < |es| ==> es[i].name != es[j].name
  }

  /** What a file system allows as the name of an entry. */
  predicate NameOk(name: string) { name !in {"", ".", ".."} && '/' !in name }

  /** A directory holds each name once. */
  ghost predicate WellFormed(n: Node)
    decreases n
  {
    n.Dir? ==>
      && DistinctNames(n.entries)
      && forall i :: 0 <= i < |n.entries| ==> NameOk(n.entries[i].name) && WellFormed(n.entries[i].node)
  }

  function Size(n: Node): (s: nat)
    ensures s >= 1
    decreases n, 1
  {
    match n case Dir(_, es) => 1 + EntriesSize(es) case _ => 1
  }

  function EntriesSize(es: seq<Entry>): nat
    decreases es, 0
  {
    if es == [] then 0 else EntriesSize(es[..|es| - 1]) + EntrySize(es[|es| - 1])
  }

  function EntrySize(e: Entry): nat
    decreases e, 2
  {
    Size(e.node)
  }

  predicate IsFileAt(root: Node, p: Path) { Lookup(root, p) == Some(File) }

  predicate IsDirAt(root: Node, p: Path) { Lookup(root, p).Some? && Lookup(root, p).value.Dir? }

  /** No special entry and no directory that cannot be listed, anywhere. */
  ghost predicate Clean(root: Node) {
    forall p :: Lookup(root, p).Some? ==>
      !Lookup(root, p).value.Special? && (Lookup(root, p).value.Dir? ==> Lookup(root, p).value.readable)
  }

  /** The tree is closed: exactly these files, and no directory that does not lead to one of them. */
  ghost predicate ClosedTree(root: Node, expected: set<Path>) {
    && root.Dir?
    && Clean(root)
    && (forall p :: IsFileAt(root, p) <==> p in expected)
    && (forall p :: p != [] && IsDirAt(root, p) ==> exists q :: q in expected && p < q)
  }

  /** The evidence is closed: the expected strings are exactly the relative paths of the files,
      and no directory leads to none of them. */
  ghost predicate ClosedEvidence(root: Node, expected: set<string>) {
    && root.Dir?
    && Clean(root)
    && (forall x :: x in expected <==> exists p :: IsFileAt(root, p) && Join(p) == x)
    && (forall p :: p != [] && IsDirAt(root, p) ==> exists q :: IsFileAt(root, q) && p < q)
  }

  /** `as_posix` of observed paths. */
  function Texts(ps: set<Path>): set<string> { set p | p in ps :: Join(p) }

  /** `PurePosixPath(*parts[:k]).as_posix()`, where the root counts as a part. */
  function AncestorText(x: string, k: nat): string
    requires 1 <= k <= |Parts(x)|
  {
    if Root(x) == "" then Written("", Tail(x)[..k]) else Written(Root(x), Tail(x)[..k - 1])
  }

  function ExpectedDirectories(expected: set<string>): set<string> {
    set x, k | x in expected && 1 <= k < |Parts(x)| :: AncestorText(x, k)
  }

  function Ancestors(expected: set<Path>): set<Path> {
    set q, k | q in expected && 1 <= k < |q| :: q[..k]
  }

  // ---------- lookups ----------

  lemma {:induction false} LookupConcat(root: Node, q: Path, r: Path)
    ensures Lookup(root, q + r) == match Lookup(root, q) case Some(n) => Lookup(n, r) case None => None
    decreases |q|
  {
    if q == [] {
      assert q + r == r;
    } else {
      assert (q + r)[1..] == q[1..] + r && (q + r)[0] == q[0];
      if root.Dir? && Find(root.entries, q[0]).Some? {
        LookupConcat(Find(root.entries, q[0]).value, q[1..], r);
      }
    }
  }

  lemma {:induction false} FindEntry(es: seq<Entry>, i: nat)
    requires DistinctNames(es) && i < |es|
    ensures Find(es, es[i].name) == Some(es[i].node)
  {
    if i > 0 {
      FindEntry(es[1..], i - 1);
    }
  }

  lemma {:induction false} FoundEntry(es: seq<Entry>, name: string)
    ensures Find(es, name).Some? ==> exists i ::
      0 <= i < |es| && es[i].name == name && es[i].node == Find(es, name).value
  {
    if es != [] && es[0].name != name {
      FoundEntry(es[1..], name);
      if Find(es, name).Some? {
        var i :| 0 <= i < |es[1..]| && es[1..][i].name == name && es[1..][i].node == Find(es, name).value;
        assert es[i + 1] == es[1..][i];
      }
    }
  }

  lemma {:induction false} LookupWellFormed(root: Node, p: Path)
    requires WellFormed(root) && Lookup(root, p).Some?
    ensures WellFormed(Lookup(root, p).value)
    decreases |p|
  {
    if p != [] {
      FoundEntry(root.entries, p[0]);
      LookupWellFormed(Find(root.entries, p[0]).value, p[1..]);
    }
  }

  lemma PrefixIsDir(root: Node, p: Path, q: Path)
    requires Lookup(root, q).Some? && p < q
    ensures IsDirAt(root, p)
  {
    assert q == p + q[|p|..];
    LookupConcat(root, p, q[|p|..]);
  }

  /** Above an expected file everything is a directory, so the second comparison of the
      source only adds that no other directory exists. */
  lemma ComparisonDecides(root: Node, expected: set<Path>, files: set<Path>, dirs: set<Path>)
    requires root.Dir? && Clean(root)
    requires forall p :: p in files <==> IsFileAt(root, p)
    requires forall p :: p in dirs <==> p != [] && IsDirAt(root, p)
    ensures files == expected && dirs == Ancestors(expected) <==> ClosedTree(root, expected)
  {
    if files == expected && dirs == Ancestors(expected) {
      forall p | p != [] && IsDirAt(root, p)
        ensures exists q :: q in expected && p < q
      {
        assert p in Ancestors(expected);
        var q, k :| q in expected && 1 <= k < |q| && p == q[..k];
        assert p < q;
      }
    }
    if ClosedTree(root, expected) {
      forall p
        ensures p in dirs <==> p in Ancestors(expected)
      {
        if p in dirs {
          var q :| q in expected && p < q;
          assert p == q[..|p|];
        }
        if p in Ancestors(expected) {
          var q, k :| q in expected && 1 <= k < |q| && p == q[..k];
          PrefixIsDir(root, p, q);
        }
      }
      assert files == expected;
    }
  }

  // ---------- paths and their texts ----------

  /** Parts that a lookup can go through. */
  predicate NamesOk(p: Path) { forall name :: name in p ==> NameOk(name) }

  lemma {:induction false} LookupNames(root: Node, p: Path)
    requires WellFormed(root) && Lookup(root, p).Some?
    ensures NamesOk(p)
    decreases |p|
  {
    if p != [] {
      FoundEntry(root.entries, p[0]);
      LookupNames(Find(root.entries, p[0]).value, p[1..]);
      assert p == [p[0]] + p[1..];
    }
  }

  /** The text of a path has the path as its parts. */
  lemma TextParts(p: Path)
    requires p != [] && NamesOk(p)
    ensures Split(Join(p)) == p && Root(Join(p)) == "" && Tail(Join(p)) == Parts(Join(p)) == p
    ensures PlainPieces(Join(p))
  {
    SplitJoin(p);
    KeepsPlain(p);
    PlainIsNormal(Join(p));
  }

  lemma TextInjective(p: Path, q: Path)
    requires p != [] && q != [] && NamesOk(p) && NamesOk(q) && Join(p) == Join(q)
    ensures p == q
  {
    TextParts(p);
    TextParts(q);
  }

  ghost predicate AllNamed(ps: set<Path>) { forall p :: p in ps ==> p != [] && NamesOk(p) }

  lemma TextsInjective(ps: set<Path>, qs: set<Path>)
    requires AllNamed(ps) && AllNamed(qs) && Texts(ps) == Texts(qs)
    ensures ps <= qs
  {
    forall p | p in ps ensures p in qs {
      assert Join(p) in Texts(qs);
      var q :| q in qs && Join(q) == Join(p);
      TextInjective(p, q);
    }
  }

  lemma AncestorTexts(p: Path, k: nat)
    requires p != [] && NamesOk(p) && 1 <= k < |p|
    ensures |Parts(Join(p))| == |p| && AncestorText(Join(p), k) == Join(p[..k])
  {
    TextParts(p);
    assert "" + Join(p[..k]) == Join(p[..k]);
  }

  /** The expected directories of observed files are the texts of their ancestors. */
  lemma DirectoriesOfTexts(files: set<Path>)
    requires AllNamed(files)
    ensures ExpectedDirectories(Texts(files)) == Texts(Ancestors(files))
  {
    forall x | x in ExpectedDirectories(Texts(files)) ensures x in Texts(Ancestors(files)) {
      var y, k :| y in Texts(files) && 1 <= k < |Parts(y)| && x == AncestorText(y, k);
      var p :| p in files && Join(p) == y;
      TextParts(p);
      AncestorTexts(p, k);
      assert p[..k] in Ancestors(files);
    }
    forall x | x in Texts(Ancestors(files)) ensures x in ExpectedDirectories(Texts(files)) {
      var a :| a in Ancestors(files) && Join(a) == x;
      var p, k :| p in files && 1 <= k < |p| && a == p[..k];
      AncestorTexts(p, k);
      assert Join(p) in Texts(files);
    }
  }

  lemma AncestorsNamed(files: set<Path>)
    requires AllNamed(files)
    ensures AllNamed(Ancestors(files))
  {
    forall a | a in Ancestors(files) ensures a != [] && NamesOk(a) {
      var p, k :| p in files && 1 <= k < |p| && a == p[..k];
      assert forall name :: name in a ==> name in p;
    }
  }

  /** Comparing texts is comparing paths. */
  lemma TextComparison(expected: set<string>, files: set<Path>, dirs: set<Path>)
    requires AllNamed(files) && AllNamed(dirs)
    ensures Texts(files) == expected && Texts(dirs) == ExpectedDirectories(expected) <==>
            Texts(files) == expected && dirs == Ancestors(files)
  {
    DirectoriesOfTexts(files);
    AncestorsNamed(files);
    if Texts(dirs) == Texts(Ancestors(files)) {
      TextsInjective(dirs, Ancestors(files));
      TextsInjective(Ancestors(files), dirs);
    }
  }

  lemma ObservedNamed(root: Node, ps: set<Path>)
    requires WellFormed(root) && forall p :: p in ps ==> p != [] && Lookup(root, p).Some?
    ensures AllNamed(ps)
  {
    forall p | p in ps ensures NamesOk(p) {
      LookupNames(root, p);
    }
  }

  /** The two comparisons of the source decide closure, whatever strings are expected. */
  lemma TextComparisonDecides(root: Node, expected: set<string>, files: set<Path>, dirs: set<Path>)
    requires WellFormed(root) && root.Dir? && Clean(root)
    requires forall p :: p in files <==> IsFileAt(root, p)
    requires forall p :: p in dirs <==> p != [] && IsDirAt(root, p)
    ensures Texts(files) == expected && Texts(dirs) == ExpectedDirectories(expected) <==> ClosedEvidence(root, expected)
  {
    ObservedNamed(root, files);
    ObservedNamed(root, dirs);
    TextComparison(expected, files, dirs);
    ComparisonDecides(root, files, files, dirs);
    assert (forall x :: x in expected <==> exists p :: IsFileAt(root, p) && Join(p) == x) <==>
      Texts(files) == expected by {
      ExpectedAreTexts(root, expected, files);
    }
  }

  lemma ExpectedAreTexts(root: Node, expected: set<string>, files: set<Path>)
    requires forall p :: p in files <==> IsFileAt(root, p)
    ensures (forall x :: x in expected <==> exists p :: IsFileAt(root, p) && Join(p) == x) <==> Texts(files) == expected
  {
    assert forall x :: x in Texts(files) <==> exists p :: IsFileAt(root, p) && Join(p) == x;
  }

  /** An expected string that is not a normalized relative path is never satisfied. */
  lemma UnnormalizedRefused(root: Node, expected: set<string>, x: string)
    requires WellFormed(root) && ClosedEvidence(root, expected) && x in expected
    ensures PassesChecks(x) && x != "."
  {
    var p :| IsFileAt(root, p) && Join(p) == x;
    LookupNames(root, p);
    TextParts(p);
    ChecksAccept(x);
    DotIsNormal();
  }

  // ---------- the walk ----------

  datatype Pending = Pending(path: Path, node: Node)

  function PendingSize(ps: seq<Pending>): nat {
    if ps == [] then 0 else PendingSize(ps[..|ps| - 1]) + Size(ps[|ps| - 1].node)
  }

  lemma PendingPush(ps: seq<Pending>, x: Pending)
    ensures PendingSize(ps + [x]) == PendingSize(ps) + Size(x.node)
  {
    assert (ps + [x])[..|ps|] == ps;
  }

  ghost predicate Waits(ps: seq<Pending>, p: Path) {
    exists i :: 0 <= i < |ps| && ps[i].path < p
  }

  ghost predicate Queued(ps: seq<Pending>, p: Path) {
    exists i :: 0 <= i < |ps| && ps[i].path == p
  }

  ghost predicate OpenDir(root: Node, p: Path) {
    Lookup(root, p).Some? && Lookup(root, p).value.Dir? && Lookup(root, p).value.readable
  }

  /** Everything in the tree is observed or waits below a pending directory; everything
      observed is in the tree; every directory met is listed or still pending. */
  ghost predicate Walking(root: Node, ps: seq<Pending>, files: set<Path>, dirs: set<Path>) {
    && (forall i :: 0 <= i < |ps| ==> Lookup(root, ps[i].path) == Some(ps[i].node) && ps[i].node.Dir?)
    && (forall p :: p in files ==> IsFileAt(root, p))
    && (forall p :: p in dirs ==> p != [] && IsDirAt(root, p) && (OpenDir(root, p) || Queued(ps, p)))
    && (OpenDir(root, []) || Queued(ps, []))
    && (forall p :: p != [] && Lookup(root, p).Some? ==> p in files || p in dirs || Waits(ps, p))
  }

  /** A directory part-way through its listing: the first `i` entries are done. */
  ghost predicate Listing(root: Node, top: Pending, i: nat, ps: seq<Pending>, files: set<Path>, dirs: set<Path>)
    requires top.node.Dir? && i <= |top.node.entries|
  {
    && Lookup(root, top.path) == Some(top.node) && top.node.readable && DistinctNames(top.node.entries)
    && (forall j :: 0 <= j < |ps| ==> Lookup(root, ps[j].path) == Some(ps[j].node) && ps[j].node.Dir?)
    && (forall p :: p in files ==> IsFileAt(root, p))
    && (forall p :: p in dirs ==> p != [] && IsDirAt(root, p) && (OpenDir(root, p) || Queued(ps, p)))
    && (OpenDir(root, []) || Queued(ps, []))
    && (forall p :: p != [] && Lookup(root, p).Some? ==> p in files || p in dirs || Waits(ps, p) || Unlisted(top, i, p))
  }

  /** `p` lies below an entry of `top` that has not been looked at yet. */
  ghost predicate Unlisted(top: Pending, i: nat, p: Path)
    requires top.node.Dir? && i <= |top.node.entries|
  {
    top.path < p && exists j :: i <= j < |top.node.entries| && p[|top.path|] == top.node.entries[j].name
  }

  lemma StartListing(root: Node, ps: seq<Pending>, files: set<Path>, dirs: set<Path>)
    requires WellFormed(root) && ps != [] && Walking(root, ps, files, dirs) && ps[|ps| - 1].node.readable
    ensures Listing(root, ps[|ps| - 1], 0, ps[..|ps| - 1], files, dirs)
  {
    var n := |ps| - 1;
    var top, rest := ps[n], ps[..n];
    LookupWellFormed(root, top.path);
    forall p | p != [] && Lookup(root, p).Some? && Waits(ps, p)
      ensures Waits(rest, p) || Unlisted(top, 0, p)
    {
      WaitsOrListed(root, ps, p);
    }
    forall p | Queued(ps, p) && !OpenDir(root, p) ensures Queued(rest, p) {
      StaysQueued(root, ps, p);
    }
  }

  lemma WaitsOrListed(root: Node, ps: seq<Pending>, p: Path)
    requires ps != [] && Lookup(root, ps[|ps| - 1].path) == Some(ps[|ps| - 1].node) && ps[|ps| - 1].node.Dir?
    requires Lookup(root, p).Some? && Waits(ps, p)
    ensures Waits(ps[..|ps| - 1], p) || Unlisted(ps[|ps| - 1], 0, p)
  {
    var n := |ps| - 1;
    var i :| 0 <= i < |ps| && ps[i].path < p;
    if i < n {
      assert ps[..n][i].path < p;
    } else {
      BelowIsListed(root, ps[n], p);
    }
  }

  lemma StaysQueued(root: Node, ps: seq<Pending>, p: Path)
    requires ps != [] && Queued(ps, p) && !OpenDir(root, p) && OpenDir(root, ps[|ps| - 1].path)
    ensures Queued(ps[..|ps| - 1], p)
  {
    var n := |ps| - 1;
    var i :| 0 <= i < |ps| && ps[i].path == p;
    assert i < n && ps[..n][i].path == p;
  }

  lemma BelowIsListed(root: Node, top: Pending, p: Path)
    requires Lookup(root, top.path) == Some(top.node) && top.node.Dir? && top.path < p && Lookup(root, p).Some?
    ensures Unlisted(top, 0, p)
  {
    assert p == top.path + p[|top.path|..];
    LookupConcat(root, top.path, p[|top.path|..]);
    FoundEntry(top.node.entries, p[|top.path|]);
  }

  lemma EntryAt(root: Node, top: Pending, i: nat)
    requires Lookup(root, top.path) == Some(top.node) && top.node.Dir? && DistinctNames(top.node.entries)
             && i < |top.node.entries|
    ensures Lookup(root, top.path + [top.node.entries[i].name]) == Some(top.node.entries[i].node)
  {
    LookupConcat(root, top.path, [top.node.entries[i].name]);
    FindEntry(top.node.entries, i);
  }

  /** Anything below the entry being looked at is the entry itself or below it. */
  lemma EntryCovers(root: Node, top: Pending, i: nat, p: Path)
    requires top.node.Dir? && i < |top.node.entries| && Unlisted(top, i, p)
    ensures Unlisted(top, i + 1, p) || p == top.path + [top.node.entries[i].name]
            || top.path + [top.node.entries[i].name] < p
  {
    var entry := top.path + [top.node.entries[i].name];
    if p[|top.path|] == top.node.entries[i].name {
      assert p[..|entry|] == entry;
      if |p| == |entry| {
        assert p == entry;
      }
    }
  }

  lemma ListFile(root: Node, top: Pending, i: nat, ps: seq<Pending>, files: set<Path>, dirs: set<Path>)
    requires top.node.Dir? && i < |top.node.entries| && Listing(root, top, i, ps, files, dirs)
    requires top.node.entries[i].node.File?
    ensures Listing(root, top, i + 1, ps, files + {top.path + [top.node.entries[i].name]}, dirs)
  {
    var entry := top.path + [top.node.entries[i].name];
    EntryAt(root, top, i);
    forall p | p != [] && Lookup(root, p).Some? && Unlisted(top, i, p)
      ensures p == entry || Unlisted(top, i + 1, p)
    {
      EntryCovers(root, top, i, p);
      if entry < p {
        PrefixIsDir(root, entry, p);
      }
    }
  }

  lemma ListDir(root: Node, top: Pending, i: nat, ps: seq<Pending>, files: set<Path>, dirs: set<Path>)
    requires top.node.Dir? && i < |top.node.entries| && Listing(root, top, i, ps, files, dirs)
    requires top.node.entries[i].node.Dir?
    ensures var entry := top.path + [top.node.entries[i].name];
      Listing(root, top, i + 1, ps + [Pending(entry, top.node.entries[i].node)], files, dirs + {entry})
  {
    var entry := top.path + [top.node.entries[i].name];
    var next := ps + [Pending(entry, top.node.entries[i].node)];
    EntryAt(root, top, i);
    assert next[|ps|].path == entry;
    forall p | Queued(ps, p)
      ensures Queued(next, p)
    {
      var j :| 0 <= j < |ps| && ps[j].path == p;
      assert next[j].path == p;
    }
    forall p | p != [] && Lookup(root, p).Some?
      ensures p in files || p in dirs + {entry} || Waits(next, p) || Unlisted(top, i + 1, p)
    {
      if Waits(ps, p) {
        var j :| 0 <= j < |ps| && ps[j].path < p;
        assert next[j].path < p;
      } else if p !in files && p !in dirs {
        EntryCovers(root, top, i, p);
        if entry < p {
          assert next[|ps|].path < p;
        }
      }
    }
  }

  lemma FinishListing(root: Node, top: Pending, ps: seq<Pending>, files: set<Path>, dirs: set<Path>)
    requires top.node.Dir? && Listing(root, top, |top.node.entries|, ps, files, dirs)
    ensures Walking(root, ps, files, dirs)
  {
  }

  lemma {:induction false} EntriesSizeStep(es: seq<Entry>, i: nat)
    requires i < |es|
    ensures EntriesSize(es[..i + 1]) == EntriesSize(es[..i]) + Size(es[i].node)
  {
    assert es[..i + 1][..i] == es[..i];
  }

  /** One directory's listing. */
  method ListDirectory(root: Node, top: Pending, ps: seq<Pending>, files: set<Path>, dirs: set<Path>)
    returns (ok: bool, ps': seq<Pending>, files': set<Path>, dirs': set<Path>)
    requires top.node.Dir? && Listing(root, top, 0, ps, files, dirs)
    ensures ok ==> Walking(root, ps', files', dirs') && PendingSize(ps') < PendingSize(ps) + Size(top.node)
    ensures !ok ==> !Clean(root)
  {
    ps', files', dirs' := ps, files, dirs;
    var es := top.node.entries;
    for i := 0 to |es|
      invariant Listing(root, top, i, ps', files', dirs')
      invariant PendingSize(ps') <= PendingSize(ps) + EntriesSize(es[..i])
    {
      var entry := top.path + [es[i].name];
      EntriesSizeStep(es, i);
      match es[i].node {
        case Dir(_, _) =>
          ListDir(root, top, i, ps', files', dirs');
          PendingPush(ps', Pending(entry, es[i].node));
          dirs', ps' := dirs' + {entry}, ps' + [Pending(entry, es[i].node)];
        case File =>
          ListFile(root, top, i, ps', files', dirs');
          files' := files' + {entry};
        case Special =>
          EntryAt(root, top, i);
          return false, ps', files', dirs';
      }
    }
    assert es[..|es|] == es;
    FinishListing(root, top, ps', files', dirs');
    ok := true;
  }

  /** `_require_evidence_closure`: it accepts exactly the closed evidence trees. */
  method RequireClosure(root: Node, expected: set<string>) returns (ok: bool)
    requires WellFormed(root)
    ensures ok <==> ClosedEvidence(root, expected)
  {
    if !root.Dir? {
      return false;
    }
    var files: set<Path>, dirs: set<Path> := {}, {};
    var pending := [Pending([], root)];
    assert pending[0].path == [];
    while pending != []
      invariant Walking(root, pending, files, dirs)
      decreases PendingSize(pending)
    {
      var top := pending[|pending| - 1];
      if !top.node.readable {
        return false;
      }
      StartListing(root, pending, files, dirs);
      var listed;
      listed, pending, files, dirs := ListDirectory(root, top, pending[..|pending| - 1], files, dirs);
      if !listed {
        return false;
      }
    }
    Finished(root, files, dirs);
    TextComparisonDecides(root, expected, files, dirs);
    return Texts(files) == expected && Texts(dirs) == ExpectedDirectories(expected);
  }

  lemma Finished(root: Node, files: set<Path>, dirs: set<Path>)
    requires root.Dir? && Walking(root, [], files, dirs)
    ensures Clean(root)
    ensures forall p :: p in files <==> IsFileAt(root, p)
    ensures forall p :: p in dirs <==> p != [] && IsDirAt(root, p)
  {
    forall p | Lookup(root, p).Some?
      ensures p == [] || p in files || p in dirs
    {
      if p != [] {
        assert !Waits([], p);
      }
    }
    assert forall p :: !Queued([], p);
  }

  /** What stands at the path is a file with an expected text, or a directory that can be listed and leads
      to a file. */
  ghost predicate InPlace(root: Node, expected: set<string>, p: Path, n: Node) {
    || (n == File && Join(p) in expected)
    || (n.Dir? && n.readable && (p == [] || exists q :: Lookup(root, q) == Some(File) && p < q))
  }

  ghost predicate AllInPlace(root: Node, expected: set<string>) {
    forall p: Path :: Lookup(root, p).Some? ==> InPlace(root, expected, p, Lookup(root, p).value)
  }

  ghost predicate FileNamed(root: Node, x: string) { exists p :: Lookup(root, p) == Some(File) && Join(p) == x }

  /** Closed evidence, said of what stands at each path. */
  lemma ClosedMeans(root: Node, expected: set<string>)
    ensures ClosedEvidence(root, expected) <==>
      root.Dir? && AllInPlace(root, expected) && forall x :: x in expected ==> FileNamed(root, x)
  {
    if ClosedEvidence(root, expected) {
      forall p | Lookup(root, p).Some? ensures InPlace(root, expected, p, Lookup(root, p).value) {
        ClosedInPlace(root, expected, p);
      }
      forall x | x in expected ensures FileNamed(root, x) {
        var p :| IsFileAt(root, p) && Join(p) == x;
      }
    }
    if root.Dir? && AllInPlace(root, expected) && forall x :: x in expected ==> FileNamed(root, x) {
      InPlaceIsClosed(root, expected);
    }
  }

  lemma ClosedInPlace(root: Node, expected: set<string>, p: Path)
    requires ClosedEvidence(root, expected) && Lookup(root, p).Some?
    ensures InPlace(root, expected, p, Lookup(root, p).value)
  {
    if Lookup(root, p).value == File {
      assert IsFileAt(root, p);
    } else if p != [] {
      assert IsDirAt(root, p);
    }
  }

  lemma InPlaceIsClosed(root: Node, expected: set<string>)
    requires root.Dir? && AllInPlace(root, expected) && forall x :: x in expected ==> FileNamed(root, x)
    ensures ClosedEvidence(root, expected)
  {
    forall p | p != [] && IsDirAt(root, p) ensures exists q :: IsFileAt(root, q) && p < q {
      assert InPlace(root, expected, p, Lookup(root, p).value);
      var q :| Lookup(root, q) == Some(File) && p < q;
      assert IsFileAt(root, q);
    }
    forall p | IsFileAt(root, p) ensures Join(p) in expected {
      assert InPlace(root, expected, p, File);
    }
    forall x | x in expected ensures exists p :: IsFileAt(root, p) && Join(p) == x {
      assert FileNamed(root, x);
      var p :| Lookup(root, p) == Some(File) && Join(p) == x;
      assert IsFileAt(root, p);
    }
  }
}
