/** Bounded reading of archive members, and the inventory check that follows it. */
module ZipArchive {
  import opened Common
  import opened PosixPath

  type Bytes = seq<nat>

  datatype UnixType = Unset | Regular | Directory | SpecialType

  /** A decoded ZIP entry. `chunks` are the reads its decompressor answers, an empty one
      meaning the end; `decodes` is false where the stream ends in an error. */
  datatype ZipEntry = ZipEntry(
    filename: string, origFilename: string, isDir: bool, fromUnix: bool, unixType: UnixType,
    supportedCompression: bool, encrypted: bool, fileSize: nat, compressSize: nat,
    chunks: seq<Bytes>, decodes: bool)

  datatype Budgets = Budgets(maxEntries: nat, maxMemberBytes: nat, maxTotalBytes: nat, maxCompressionRatio: nat)

  /** SHA-256 and Unicode case folding. */
  datatype Host = Host(sha256: Bytes -> string, casefold: string -> string)

  datatype Member = Member(path: string, data: Bytes, sha256: string, size: nat)

  datatype ArchiveError = Budget | UnsafePath | EntryType | Encrypted | Ratio | Format

  datatype Archive = Archive(members: seq<Member>, totalBytes: nat)

  datatype Result = Read(archive: Archive) | Refused(error: ArchiveError)

  // ---------- paths ----------

  function Normalized(e: ZipEntry): string {
    if e.isDir && e.filename != "" then e.filename[..|e.filename| - 1] else e.filename
  }

  /** Relative, normalized, and free of the characters and parts that make a path ambiguous. */
  predicate SafePath(e: ZipEntry) {
    && e.origFilename == e.filename
    && Normalized(e) != ""
    && (forall i :: 0 <= i < |e.filename| ==> PlainChar(e.filename[i]))
    && PassesChecks(Normalized(e))
    && (e.isDir ==> e.filename == Normalized(e) + "/")
  }

  /** Neither a control character, a backslash nor a colon. */
  predicate PlainChar(c: char) { c != '\\' && c != ':' && c as int >= 32 }

  /** Every accepted path is free of empty and dot pieces, with the one exception of ".". */
  lemma OnlyDotEscapes(e: ZipEntry)
    requires SafePath(e)
    ensures PlainPieces(Normalized(e)) <==> Normalized(e) != "."
  {
    ChecksAccept(Normalized(e));
    DotIsNormal();
  }

  /** The exception occurs: an entry of this name passes the path checks. */
  lemma DotIsAccepted(e: ZipEntry)
    requires e.filename == e.origFilename == "." && !e.isDir
    ensures SafePath(e) && !PlainPieces(Normalized(e))
  {
    DotIsNormal();
  }

  // ---------- what is accepted ----------

  /** The bytes delivered before the first empty read. */
  function Content(chunks: seq<Bytes>): Bytes {
    if chunks == [] || chunks[0] == [] then [] else chunks[0] + Content(chunks[1..])
  }

  predicate TypeOk(e: ZipEntry) {
    && (e.fromUnix ==> e.unixType != SpecialType)
    && (e.isDir ==> e.unixType == Unset || e.unixType == Directory)
    && (!e.isDir ==> e.unixType != Directory && e.supportedCompression)
  }

  predicate RatioOk(b: Budgets, e: ZipEntry) {
    e.fileSize == 0 || (e.compressSize != 0 && e.fileSize <= e.compressSize * b.maxCompressionRatio)
  }

  /** A file entry that can be read within the member budget. */
  predicate FileOk(b: Budgets, e: ZipEntry) {
    && !e.encrypted && e.fileSize <= b.maxMemberBytes && RatioOk(b, e)
    && e.decodes && |Content(e.chunks)| == e.fileSize
  }

  predicate EntryOk(b: Budgets, e: ZipEntry) {
    SafePath(e) && TypeOk(e) && (!e.isDir ==> FileOk(b, e))
  }

  function Folded(host: Host, e: ZipEntry): string { host.casefold(Normalized(e)) }

  /** The declared sizes of the file entries, added up. */
  function DeclaredBytes(es: seq<ZipEntry>): nat {
    if es == [] then 0
    else DeclaredBytes(es[..|es| - 1]) + if es[|es| - 1].isDir then 0 else es[|es| - 1].fileSize
  }

  ghost predicate DistinctPaths(host: Host, es: seq<ZipEntry>) {
    forall i, j :: 0 <= i < j < |es| ==> Folded(host, es[i]) != Folded(host, es[j])
  }

  ghost predicate Admissible(host: Host, b: Budgets, es: seq<ZipEntry>) {
    && |es| <= b.maxEntries
    && (forall e :: e in es ==> EntryOk(b, e))
    && DistinctPaths(host, es)
    && DeclaredBytes(es) <= b.maxTotalBytes
  }

  function MemberOf(host: Host, e: ZipEntry): Member {
    Member(Normalized(e), Content(e.chunks), host.sha256(Content(e.chunks)), |Content(e.chunks)|)
  }

  /** The members of the file entries, in archive order. */
  function MembersOf(host: Host, es: seq<ZipEntry>): seq<Member> {
    if es == [] then []
    else MembersOf(host, es[..|es| - 1]) + if es[|es| - 1].isDir then [] else [MemberOf(host, es[|es| - 1])]
  }

  function TotalSize(ms: seq<Member>): nat {
    if ms == [] then 0 else TotalSize(ms[..|ms| - 1]) + ms[|ms| - 1].size
  }

  // ---------- one member ----------

  lemma {:induction false} ContentPrefix(chunks: seq<Bytes>, i: nat)
    requires i <= |chunks| && forall j :: 0 <= j < i ==> chunks[j] != []
    ensures Content(chunks) == Content(chunks[..i]) + Content(chunks[i..])
    decreases i
  {
    if i == 0 {
      assert chunks[0..] == chunks;
    } else {
      ContentPrefix(chunks[1..], i - 1);
      assert chunks[..i][1..] == chunks[1..][..i - 1];
      assert chunks[1..][i - 1..] == chunks[i..];
    }
  }

  lemma ContentStep(chunks: seq<Bytes>, i: nat)
    requires i < |chunks| && forall j :: 0 <= j <= i ==> chunks[j] != []
    ensures Content(chunks[..i + 1]) == Content(chunks[..i]) + chunks[i]
  {
    var p := chunks[..i + 1];
    ContentPrefix(p, i);
    assert p[..i] == chunks[..i];
    assert p[i..] == [chunks[i]];
    assert Content([chunks[i]]) == chunks[i] + Content([chunks[i]][1..]);
  }

  datatype EntryResult = Entered(data: Bytes, total: nat) | EntryRefused(error: ArchiveError)

  /** The chunk loop. It stops at the first read beyond the declared size, before any budget is
      exceeded, and succeeds exactly when the stream decodes to the declared number of bytes. */
  method ReadMember(b: Budgets, e: ZipEntry, total: nat) returns (r: EntryResult)
    requires e.fileSize <= b.maxMemberBytes && total + e.fileSize <= b.maxTotalBytes
    ensures r == if |Content(e.chunks)| > e.fileSize then EntryRefused(Budget)
                 else if !e.decodes || |Content(e.chunks)| < e.fileSize then EntryRefused(Format)
                 else Entered(Content(e.chunks), total + e.fileSize)
  {
    var data: Bytes, total', observed := [], total, 0;
    var i := 0;
    assert e.chunks[..0] == [];
    while i < |e.chunks| && e.chunks[i] != []
      invariant 0 <= i <= |e.chunks|
      invariant forall j :: 0 <= j < i ==> e.chunks[j] != []
      invariant data == Content(e.chunks[..i]) && observed == |data| <= e.fileSize
      invariant total' == total + observed
    {
      var chunk := e.chunks[i];
      ContentStep(e.chunks, i);
      observed, total' := observed + |chunk|, total' + |chunk|;
      if observed > b.maxMemberBytes || total' > b.maxTotalBytes || observed > e.fileSize {
        ContentPrefix(e.chunks, i + 1);
        return EntryRefused(Budget);
      }
      data := data + chunk;
      i := i + 1;
    }
    ContentPrefix(e.chunks, i);
    assert Content(e.chunks[i..]) == [];
    if !e.decodes || observed != e.fileSize {
      return EntryRefused(Format);
    }
    return Entered(data, total');
  }

  // ---------- the entry loop ----------

  ghost predicate Progress(host: Host, b: Budgets, es: seq<ZipEntry>, members: seq<Member>, paths: set<string>,
                           total: nat) {
    && (forall e :: e in es ==> EntryOk(b, e))
    && DistinctPaths(host, es)
    && members == MembersOf(host, es)
    && paths == (set e | e in es :: Folded(host, e))
    && total == DeclaredBytes(es) <= b.maxTotalBytes
  }

  lemma ProgressStep(host: Host, b: Budgets, es: seq<ZipEntry>, members: seq<Member>, paths: set<string>, total: nat,
                     e: ZipEntry)
    requires Progress(host, b, es, members, paths, total) && EntryOk(b, e) && Folded(host, e) !in paths
    requires e.isDir || total + e.fileSize <= b.maxTotalBytes
    ensures Progress(host, b, es + [e], if e.isDir then members else members + [MemberOf(host, e)],
                     paths + {Folded(host, e)}, if e.isDir then total else total + e.fileSize)
  {
    var next := es + [e];
    assert next[..|es|] == es;
    assert forall x :: x in next <==> x in es || x == e;
    forall i, j | 0 <= i < j < |next|
      ensures Folded(host, next[i]) != Folded(host, next[j])
    {
      if j == |es| {
        assert next[i] in es;
      }
    }
  }

  lemma ProgressNext(host: Host, b: Budgets, es: seq<ZipEntry>, i: nat, members: seq<Member>, paths: set<string>,
                     total: nat)
    requires i < |es| && Progress(host, b, es[..i], members, paths, total)
    requires EntryOk(b, es[i]) && Folded(host, es[i]) !in paths
    requires es[i].isDir || total + es[i].fileSize <= b.maxTotalBytes
    ensures Progress(host, b, es[..i + 1], if es[i].isDir then members else members + [MemberOf(host, es[i])],
                     paths + {Folded(host, es[i])}, if es[i].isDir then total else total + es[i].fileSize)
  {
    PrefixGrows(es, i);
    ProgressStep(host, b, es[..i], members, paths, total, es[i]);
  }

  lemma {:induction false} DeclaredGrows(es: seq<ZipEntry>, i: nat)
    requires i <= |es|
    ensures DeclaredBytes(es[..i]) <= DeclaredBytes(es)
    decreases |es| - i
  {
    if i < |es| {
      assert es[..i + 1][..i] == es[..i];
      DeclaredGrows(es, i + 1);
    } else {
      assert es[..i] == es;
    }
  }

  /** The entry at `i` makes the archive inadmissible. */
  lemma Blocks(host: Host, b: Budgets, es: seq<ZipEntry>, i: nat)
    requires i < |es|
    requires !EntryOk(b, es[i]) || Folded(host, es[i]) in (set e | e in es[..i] :: Folded(host, e))
      || (!es[i].isDir && DeclaredBytes(es[..i]) + es[i].fileSize > b.maxTotalBytes)
    ensures !Admissible(host, b, es)
  {
    assert es[i] in es;
    if Folded(host, es[i]) in (set e | e in es[..i] :: Folded(host, e)) {
      PathRepeats(host, es, i);
    } else if EntryOk(b, es[i]) {
      BytesOverrun(b, es, i);
    }
  }

  lemma PathRepeats(host: Host, es: seq<ZipEntry>, i: nat)
    requires i < |es| && Folded(host, es[i]) in (set e | e in es[..i] :: Folded(host, e))
    ensures !DistinctPaths(host, es)
  {
    var e :| e in es[..i] && Folded(host, e) == Folded(host, es[i]);
    var j :| 0 <= j < i && es[..i][j] == e;
    assert Folded(host, es[j]) == Folded(host, es[i]);
  }

  lemma BytesOverrun(b: Budgets, es: seq<ZipEntry>, i: nat)
    requires i < |es| && !es[i].isDir && DeclaredBytes(es[..i]) + es[i].fileSize > b.maxTotalBytes
    ensures DeclaredBytes(es) > b.maxTotalBytes
  {
    assert es[..i + 1][..i] == es[..i];
    DeclaredGrows(es, i + 1);
  }

  // ---------- sorting by path ----------

  predicate Le(a: string, b: string) {
    a == "" || (b != "" && (a[0] < b[0] || (a[0] == b[0] && Le(a[1..], b[1..]))))
  }

  lemma {:induction false} LeTotal(a: string, b: string)
    ensures Le(a, b) || Le(b, a)
  {
    if a != "" && b != "" && a[0] == b[0] {
      LeTotal(a[1..], b[1..]);
    }
  }

  lemma {:induction false} LeTransitive(a: string, b: string, c: string)
    requires Le(a, b) && Le(b, c)
    ensures Le(a, c)
  {
    if a != "" && a[0] == b[0] && b[0] == c[0] {
      LeTransitive(a[1..], b[1..], c[1..]);
    }
  }

  ghost predicate SortedByPath(ms: seq<Member>) {
    forall i, j :: 0 <= i < j < |ms| ==> Le(ms[i].path, ms[j].path)
  }

  function Insert(ms: seq<Member>, m: Member): seq<Member> {
    if ms == [] || Le(ms[|ms| - 1].path, m.path) then ms + [m]
    else Insert(ms[..|ms| - 1], m) + [ms[|ms| - 1]]
  }

  lemma {:induction false} InsertKeeps(ms: seq<Member>, m: Member)
    ensures multiset(Insert(ms, m)) == multiset(ms) + multiset{m}
    ensures TotalSize(Insert(ms, m)) == TotalSize(ms) + m.size
    ensures |Insert(ms, m)| == |ms| + 1
    decreases |ms|
  {
    if ms == [] || Le(ms[|ms| - 1].path, m.path) {
      assert (ms + [m])[..|ms|] == ms;
    } else {
      var n := |ms| - 1;
      InsertKeeps(ms[..n], m);
      var front := Insert(ms[..n], m);
      assert (front + [ms[n]])[..|front|] == front;
      assert ms == ms[..n] + [ms[n]];
    }
  }

  ghost predicate AllBelow(ms: seq<Member>, bound: string) {
    forall i :: 0 <= i < |ms| ==> Le(ms[i].path, bound)
  }

  lemma {:induction false} InsertBelow(ms: seq<Member>, m: Member, bound: string)
    requires AllBelow(ms, bound) && Le(m.path, bound)
    ensures AllBelow(Insert(ms, m), bound)
    decreases |ms|
  {
    if ms != [] && !Le(ms[|ms| - 1].path, m.path) {
      InsertBelow(ms[..|ms| - 1], m, bound);
    }
  }

  lemma AppendSorted(ms: seq<Member>, m: Member)
    requires SortedByPath(ms) && AllBelow(ms, m.path)
    ensures SortedByPath(ms + [m])
  {
  }

  lemma SortedBelowLast(ms: seq<Member>, bound: string)
    requires SortedByPath(ms) && ms != [] && Le(ms[|ms| - 1].path, bound)
    ensures AllBelow(ms, bound)
  {
    forall i | 0 <= i < |ms|
      ensures Le(ms[i].path, bound)
    {
      if i < |ms| - 1 {
        LeTransitive(ms[i].path, ms[|ms| - 1].path, bound);
      }
    }
  }

  lemma {:induction false} InsertSorts(ms: seq<Member>, m: Member)
    requires SortedByPath(ms)
    ensures SortedByPath(Insert(ms, m))
    decreases |ms|
  {
    if ms == [] {
    } else if Le(ms[|ms| - 1].path, m.path) {
      SortedBelowLast(ms, m.path);
      AppendSorted(ms, m);
    } else {
      var n := |ms| - 1;
      LeTotal(ms[n].path, m.path);
      InsertSorts(ms[..n], m);
      assert AllBelow(ms[..n], ms[n].path);
      InsertBelow(ms[..n], m, ms[n].path);
      AppendSorted(Insert(ms[..n], m), ms[n]);
    }
  }

  /** Case-insensitively distinct paths. */
  ghost predicate FoldedApart(host: Host, ms: seq<Member>) {
    forall i, j :: 0 <= i < j < |ms| ==> host.casefold(ms[i].path) != host.casefold(ms[j].path)
  }

  /** No member has the same folded path as `x`. */
  ghost predicate Clear(host: Host, ms: seq<Member>, x: string) {
    forall i :: 0 <= i < |ms| ==> host.casefold(ms[i].path) != x
  }

  lemma {:induction false} InsertClear(host: Host, ms: seq<Member>, m: Member, x: string)
    requires Clear(host, ms, x) && host.casefold(m.path) != x
    ensures Clear(host, Insert(ms, m), x)
    decreases |ms|
  {
    if ms != [] && !Le(ms[|ms| - 1].path, m.path) {
      InsertClear(host, ms[..|ms| - 1], m, x);
    }
  }

  lemma {:induction false} InsertApart(host: Host, ms: seq<Member>, m: Member)
    requires FoldedApart(host, ms) && Clear(host, ms, host.casefold(m.path))
    ensures FoldedApart(host, Insert(ms, m))
    decreases |ms|
  {
    if ms != [] && !Le(ms[|ms| - 1].path, m.path) {
      var n := |ms| - 1;
      InsertApart(host, ms[..n], m);
      assert Clear(host, ms[..n], host.casefold(ms[n].path));
      InsertClear(host, ms[..n], m, host.casefold(ms[n].path));
    }
  }

  /** The members still to be inserted are clear of the ones already in place. */
  ghost predicate ClearOf(host: Host, q: seq<Member>, rest: seq<Member>) {
    forall i :: 0 <= i < |rest| ==> Clear(host, q, host.casefold(rest[i].path))
  }

  lemma ClearStep(host: Host, q: seq<Member>, ms: seq<Member>, i: nat)
    requires i < |ms| && FoldedApart(host, ms) && ClearOf(host, q, ms[i..])
    ensures ClearOf(host, Insert(q, ms[i]), ms[i + 1..])
  {
    var rest := ms[i + 1..];
    forall j | 0 <= j < |rest|
      ensures Clear(host, Insert(q, ms[i]), host.casefold(rest[j].path))
    {
      assert rest[j] == ms[i..][j + 1] && rest[j] == ms[i + 1 + j];
      InsertClear(host, q, ms[i], host.casefold(rest[j].path));
    }
  }

  /** The first `i` members are in place. */
  ghost predicate Sorting(host: Host, ms: seq<Member>, i: nat, q: seq<Member>)
    requires i <= |ms|
  {
    && SortedByPath(q) && FoldedApart(host, q) && ClearOf(host, q, ms[i..])
    && multiset(q) == multiset(ms[..i]) && TotalSize(q) == TotalSize(ms[..i])
  }

  lemma SortStep(host: Host, ms: seq<Member>, i: nat, q: seq<Member>)
    requires i < |ms| && FoldedApart(host, ms) && Sorting(host, ms, i, q)
    ensures Sorting(host, ms, i + 1, Insert(q, ms[i]))
  {
    InsertSorts(q, ms[i]);
    InsertKeeps(q, ms[i]);
    assert ms[i..][0] == ms[i];
    InsertApart(host, q, ms[i]);
    ClearStep(host, q, ms, i);
    PrefixStep(ms, i);
  }

  lemma PrefixStep(ms: seq<Member>, i: nat)
    requires i < |ms|
    ensures multiset(ms[..i + 1]) == multiset(ms[..i]) + multiset{ms[i]}
    ensures TotalSize(ms[..i + 1]) == TotalSize(ms[..i]) + ms[i].size
  {
    assert ms[..i + 1] == ms[..i] + [ms[i]];
    assert ms[..i + 1][..i] == ms[..i];
  }

  /** `sorted(members, key=path)`, stable. */
  method SortByPath(host: Host, ms: seq<Member>) returns (q: seq<Member>)
    requires FoldedApart(host, ms)
    ensures SortedByPath(q) && FoldedApart(host, q)
    ensures multiset(q) == multiset(ms) && TotalSize(q) == TotalSize(ms)
  {
    q := [];
    for i := 0 to |ms|
      invariant Sorting(host, ms, i, q)
    {
      SortStep(host, ms, i, q);
      q := Insert(q, ms[i]);
    }
    assert ms[..|ms|] == ms;
  }

  // ---------- the inventory check ----------

  ghost predicate DistinctMembers(ms: seq<Member>) {
    forall i, j :: 0 <= i < j < |ms| ==> ms[i].path != ms[j].path
  }

  predicate Consistent(host: Host, m: Member) { m.size == |m.data| && m.sha256 == host.sha256(m.data) }

  ghost predicate InventoryOk(host: Host, a: Archive) {
    && DistinctMembers(a.members)
    && (forall m :: m in a.members ==> Consistent(host, m))
    && TotalSize(a.members) == a.totalBytes
  }

  /** The dictionary of member bytes. */
  ghost predicate MemberTable(ms: seq<Member>, table: map<string, Bytes>) {
    && (forall m :: m in ms ==> m.path in table && table[m.path] == m.data)
    && (forall p :: p in table ==> exists m :: m in ms && m.path == p)
  }

  ghost predicate Inventoried(host: Host, ms: seq<Member>, table: map<string, Bytes>, total: nat) {
    DistinctMembers(ms) && (forall m :: m in ms ==> Consistent(host, m)) && MemberTable(ms, table)
      && total == TotalSize(ms)
  }

  lemma InventoryStep(host: Host, ms: seq<Member>, i: nat, table: map<string, Bytes>, total: nat)
    requires i < |ms| && Inventoried(host, ms[..i], table, total) && ms[i].path !in table && Consistent(host, ms[i])
    ensures Inventoried(host, ms[..i + 1], table[ms[i].path := ms[i].data], total + ms[i].size)
  {
    assert ms[..i + 1] == ms[..i] + [ms[i]];
    TableStep(ms[..i], ms[i], table);
    TotalAppend(ms[..i], ms[i]);
  }

  lemma TableStep(ms: seq<Member>, m: Member, table: map<string, Bytes>)
    requires DistinctMembers(ms) && MemberTable(ms, table) && m.path !in table
    ensures DistinctMembers(ms + [m]) && MemberTable(ms + [m], table[m.path := m.data])
  {
    var now := ms + [m];
    assert m in now && forall x :: x in now <==> x in ms || x == m;
    forall a, c | 0 <= a < c < |now|
      ensures now[a].path != now[c].path
    {
      if c == |ms| {
        assert now[a] in ms;
      }
    }
  }

  lemma InventoryBlocked(host: Host, ms: seq<Member>, i: nat, table: map<string, Bytes>)
    requires i < |ms| && MemberTable(ms[..i], table) && (ms[i].path in table || !Consistent(host, ms[i]))
    ensures !(DistinctMembers(ms) && forall m :: m in ms ==> Consistent(host, m))
  {
    assert ms[i] in ms;
    if ms[i].path in table {
      var m :| m in ms[..i] && m.path == ms[i].path;
      var j :| 0 <= j < i && ms[..i][j] == m;
      assert ms[j].path == ms[i].path;
    }
  }

  /** The member-inventory loop of `verify_archive_file_evidence`. */
  method CheckInventory(host: Host, a: Archive) returns (ok: bool, members: map<string, Bytes>)
    ensures ok <==> InventoryOk(host, a)
    ensures ok ==> MemberTable(a.members, members)
  {
    members := map[];
    var total: nat := 0;
    var ms := a.members;
    for i := 0 to |ms|
      invariant Inventoried(host, ms[..i], members, total)
    {
      if ms[i].path in members || !Consistent(host, ms[i]) {
        InventoryBlocked(host, ms, i, members);
        return false, members;
      }
      InventoryStep(host, ms, i, members, total);
      members, total := members[ms[i].path := ms[i].data], total + ms[i].size;
    }
    assert ms[..|ms|] == ms;
    ok := total == a.totalBytes;
  }

  // ---------- reading conserves bytes ----------

  lemma TotalAppend(ms: seq<Member>, m: Member)
    ensures TotalSize(ms + [m]) == TotalSize(ms) + m.size
  {
    assert (ms + [m])[..|ms|] == ms;
  }

  lemma TotalNext(host: Host, es: seq<ZipEntry>)
    requires es != []
    ensures var n := |es| - 1;
            TotalSize(MembersOf(host, es))
              == TotalSize(MembersOf(host, es[..n])) + if es[n].isDir then 0 else |Content(es[n].chunks)|
  {
    var before, last := MembersOf(host, es[..|es| - 1]), es[|es| - 1];
    if last.isDir {
      assert MembersOf(host, es) == before;
    } else {
      TotalAppend(before, MemberOf(host, last));
    }
  }

  lemma {:induction false} MembersTotal(host: Host, b: Budgets, es: seq<ZipEntry>)
    requires forall e :: e in es ==> EntryOk(b, e)
    ensures TotalSize(MembersOf(host, es)) == DeclaredBytes(es)
    decreases |es|
  {
    if es != [] {
      var n := |es| - 1;
      assert es[n] in es && forall e :: e in es[..n] ==> e in es;
      MembersTotal(host, b, es[..n]);
      assert EntryOk(b, es[n]);
      TotalNext(host, es);
    }
  }

  /** The members are exactly the file entries. */
  lemma {:induction false} MembersAreFiles(host: Host, es: seq<ZipEntry>, m: Member)
    ensures m in MembersOf(host, es) <==> exists e :: e in es && !e.isDir && m == MemberOf(host, e)
    decreases |es|
  {
    if es != [] {
      var n := |es| - 1;
      assert es == es[..n] + [es[n]];
      MembersAreFiles(host, es[..n], m);
      if e :| e in es && !e.isDir && m == MemberOf(host, e) {
        if e != es[n] {
          assert e in es[..n];
        }
      }
    }
  }

  lemma {:induction false} MembersClear(host: Host, es: seq<ZipEntry>, x: string)
    requires forall e :: e in es ==> Folded(host, e) != x
    ensures Clear(host, MembersOf(host, es), x)
    decreases |es|
  {
    if es != [] {
      var n := |es| - 1;
      assert es[n] in es && forall e :: e in es[..n] ==> e in es;
      MembersClear(host, es[..n], x);
    }
  }

  lemma {:induction false} MembersApart(host: Host, es: seq<ZipEntry>)
    requires DistinctPaths(host, es)
    ensures FoldedApart(host, MembersOf(host, es))
    decreases |es|
  {
    if es != [] {
      var n := |es| - 1;
      MembersApart(host, es[..n]);
      forall e | e in es[..n]
        ensures Folded(host, e) != Folded(host, es[n])
      {
        var i :| 0 <= i < n && es[..n][i] == e;
      }
      MembersClear(host, es[..n], Folded(host, es[n]));
    }
  }

  /** What a successful read guarantees. */
  ghost predicate Conserved(host: Host, b: Budgets, es: seq<ZipEntry>, a: Archive) {
    && a.totalBytes == TotalSize(a.members) == DeclaredBytes(es) <= b.maxTotalBytes
    && multiset(a.members) == multiset(MembersOf(host, es))
    && (forall m :: m in a.members ==> m.size == |m.data| <= b.maxMemberBytes && m.sha256 == host.sha256(m.data))
    && SortedByPath(a.members) && FoldedApart(host, a.members)
  }

  lemma SortedConserved(host: Host, b: Budgets, es: seq<ZipEntry>, ms: seq<Member>)
    requires (forall e :: e in es ==> EntryOk(b, e)) && DistinctPaths(host, es) && DeclaredBytes(es) <= b.maxTotalBytes
    requires multiset(ms) == multiset(MembersOf(host, es)) && TotalSize(ms) == TotalSize(MembersOf(host, es))
    requires SortedByPath(ms) && FoldedApart(host, ms)
    ensures Conserved(host, b, es, Archive(ms, DeclaredBytes(es)))
  {
    MembersTotal(host, b, es);
    forall m | m in ms
      ensures m.size == |m.data| <= b.maxMemberBytes && m.sha256 == host.sha256(m.data)
    {
      assert m in multiset(ms);
      assert m in MembersOf(host, es);
      MembersAreFiles(host, es, m);
      var e :| e in es && !e.isDir && m == MemberOf(host, e);
      assert EntryOk(b, e);
    }
  }

  /** Whatever reading returns passes the later inventory check. */
  lemma ConservedPassesInventory(host: Host, b: Budgets, es: seq<ZipEntry>, a: Archive)
    requires Conserved(host, b, es, a)
    ensures InventoryOk(host, a)
  {
    forall i, j | 0 <= i < j < |a.members|
      ensures a.members[i].path != a.members[j].path
    {
      assert host.casefold(a.members[i].path) != host.casefold(a.members[j].path);
    }
  }

  /** The members sorted, with their total. */
  method Seal(host: Host, b: Budgets, es: seq<ZipEntry>, members: seq<Member>, ghost paths: set<string>, total: nat)
    returns (a: Archive)
    requires Progress(host, b, es, members, paths, total) && |es| <= b.maxEntries
    ensures Admissible(host, b, es)
    ensures Conserved(host, b, es, a) && InventoryOk(host, a)
  {
    MembersApart(host, es);
    var ordered := SortByPath(host, members);
    SortedConserved(host, b, es, ordered);
    a := Archive(ordered, total);
    ConservedPassesInventory(host, b, es, a);
  }

  /** One round of the entry loop, in the order of its checks. */
  method ReadEntry(host: Host, b: Budgets, e: ZipEntry, paths: set<string>, total: nat) returns (r: EntryResult)
    ensures r.Entered? <==>
      EntryOk(b, e) && Folded(host, e) !in paths && (e.isDir || total + e.fileSize <= b.maxTotalBytes)
    ensures r.Entered? && e.isDir ==> r.total == total
    ensures r.Entered? && !e.isDir ==> r.data == Content(e.chunks) && r.total == total + e.fileSize
  {
    if !SafePath(e) || Folded(host, e) in paths {
      return EntryRefused(UnsafePath);
    }
    if !TypeOk(e) {
      return EntryRefused(EntryType);
    }
    if e.isDir {
      return Entered([], total);
    }
    if e.encrypted {
      return EntryRefused(Encrypted);
    }
    if e.fileSize > b.maxMemberBytes || total + e.fileSize > b.maxTotalBytes {
      return EntryRefused(Budget);
    }
    if !RatioOk(b, e) {
      return EntryRefused(Ratio);
    }
    r := ReadMember(b, e, total);
  }

  /** `read_verified_zip_members` from the decoded entries on: it succeeds exactly on the
      admissible archives, conserves every byte, and its result is a consistent inventory. */
  method ReadArchive(host: Host, b: Budgets, es: seq<ZipEntry>) returns (r: Result)
    ensures r.Read? <==> Admissible(host, b, es)
    ensures r.Read? ==> Conserved(host, b, es, r.archive) && InventoryOk(host, r.archive)
  {
    if |es| > b.maxEntries {
      return Refused(Budget);
    }
    var members: seq<Member>, paths: set<string>, total: nat := [], {}, 0;
    assert es[..0] == [];
    for i := 0 to |es|
      invariant Progress(host, b, es[..i], members, paths, total)
    {
      var e := es[i];
      var entry := ReadEntry(host, b, e, paths, total);
      if entry.EntryRefused? {
        Blocks(host, b, es, i);
        return Refused(entry.error);
      }
      ProgressNext(host, b, es, i, members, paths, total);
      if !e.isDir {
        members := members + [Member(Normalized(e), entry.data, host.sha256(entry.data), |entry.data|)];
      }
      total := entry.total;
      paths := paths + {Folded(host, e)};
    }
    assert es[..|es|] == es;
    var archive := Seal(host, b, es, members, paths, total);
    return Read(archive);
  }
}
