/** What an archive must be for its members to be read, and what is read, said of its entries. */
module ZipMeaning {
  import opened Common
  import opened PosixPath
  import opened ZipArchive

  // ---------- names ----------

  /** The path of an entry: its file name, without the slash that ends the name of a directory. */
  predicate NamedAs(e: ZipEntry, name: string) { e.filename == if e.isDir then name + "/" else name }

  /** No control character, backslash or colon. */
  predicate Printable(s: string) { forall c :: c in s ==> c >= ' ' && c != '\\' && c != ':' }

  ghost predicate GoodName(e: ZipEntry, name: string) {
    && NamedAs(e, name) && e.origFilename == e.filename && name != "" && Printable(e.filename)
    && (name == "." || PlainPieces(name))
  }

  lemma NameMeans(e: ZipEntry, name: string)
    ensures SafePath(e) && name == Normalized(e) <==> GoodName(e, name)
  {
    if NamedAs(e, name) && e.isDir {
      assert e.filename[..|e.filename| - 1] == name;
    }
    ChecksAccept(name);
    DotIsNormal();
    PrintableMeans(e.filename);
  }

  lemma PrintableMeans(s: string)
    ensures Printable(s) <==> forall i :: 0 <= i < |s| ==> PlainChar(s[i])
  {
    if Printable(s) {
      forall i | 0 <= i < |s| ensures PlainChar(s[i]) {
        assert s[i] in s;
      }
    }
  }

  // ---------- content ----------

  function Flat(chunks: seq<Bytes>): Bytes {
    if chunks == [] then [] else Flat(chunks[..|chunks| - 1]) + chunks[|chunks| - 1]
  }

  /** The reads up to the first empty one, put together. */
  ghost predicate Delivers(chunks: seq<Bytes>, data: Bytes) {
    exists n :: 0 <= n <= |chunks| && (n < |chunks| ==> chunks[n] == [])
      && (forall i :: 0 <= i < n ==> chunks[i] != []) && data == Flat(chunks[..n])
  }

  lemma {:induction false} FlatMeans(chunks: seq<Bytes>, n: nat)
    requires n <= |chunks| && forall i :: 0 <= i < n ==> chunks[i] != []
    ensures Flat(chunks[..n]) == Content(chunks[..n])
  {
    if n > 0 {
      FlatMeans(chunks, n - 1);
      ContentStep(chunks, n - 1);
      assert chunks[..n][..n - 1] == chunks[..n - 1];
    } else {
      assert chunks[..0] == [];
    }
  }

  lemma {:induction false} FirstEmpty(chunks: seq<Bytes>, i: nat) returns (n: nat)
    requires i <= |chunks| && forall j :: 0 <= j < i ==> chunks[j] != []
    ensures n <= |chunks| && (n < |chunks| ==> chunks[n] == []) && forall j :: 0 <= j < n ==> chunks[j] != []
    decreases |chunks| - i
  {
    if i < |chunks| && chunks[i] != [] {
      n := FirstEmpty(chunks, i + 1);
    } else {
      n := i;
    }
  }

  lemma StopsAt(chunks: seq<Bytes>, n: nat)
    requires n <= |chunks| && (n < |chunks| ==> chunks[n] == []) && forall i :: 0 <= i < n ==> chunks[i] != []
    ensures Flat(chunks[..n]) == Content(chunks)
  {
    FlatMeans(chunks, n);
    ContentPrefix(chunks, n);
    assert Content(chunks[n..]) == [];
  }

  lemma ContentMeans(chunks: seq<Bytes>, data: Bytes)
    ensures Delivers(chunks, data) <==> data == Content(chunks)
  {
    var n := FirstEmpty(chunks, 0);
    StopsAt(chunks, n);
    if Delivers(chunks, data) {
      var k :| 0 <= k <= |chunks| && (k < |chunks| ==> chunks[k] == [])
        && (forall i :: 0 <= i < k ==> chunks[i] != []) && data == Flat(chunks[..k]);
      StopsAt(chunks, k);
    }
  }

  // ---------- entries ----------

  /** Not a link or device, of the type its name says, and for a file a supported, clear compression. */
  ghost predicate GoodType(e: ZipEntry) {
    match e.unixType
    case Unset => e.isDir || e.supportedCompression
    case Directory => e.isDir
    case Regular => !e.isDir && e.supportedCompression
    case SpecialType => !e.fromUnix && !e.isDir && e.supportedCompression
  }

  /** The declared size is within the ratio of the compressed size. */
  ghost predicate GoodRatio(b: Budgets, e: ZipEntry) {
    e.fileSize > 0 ==>
      e.compressSize > 0 && (e.fileSize as real) / (e.compressSize as real) <= b.maxCompressionRatio as real
  }

  /** A file entry with this content. */
  ghost predicate GoodFile(b: Budgets, e: ZipEntry, data: Bytes) {
    && !e.encrypted && e.decodes && Delivers(e.chunks, data)
    && |data| == e.fileSize <= b.maxMemberBytes && GoodRatio(b, e)
  }

  ghost predicate GoodEntry(b: Budgets, e: ZipEntry, name: string) {
    GoodName(e, name) && GoodType(e) && (e.isDir || exists data :: GoodFile(b, e, data))
  }

  lemma RatioMeans(b: Budgets, e: ZipEntry)
    ensures RatioOk(b, e) <==> GoodRatio(b, e)
  {
    if e.fileSize > 0 && e.compressSize > 0 {
      var f, c, m := e.fileSize as real, e.compressSize as real, b.maxCompressionRatio as real;
      DivideMeans(f, c, m);
      assert (e.compressSize * b.maxCompressionRatio) as real == c * m;
    }
  }

  lemma DivideMeans(f: real, c: real, m: real)
    requires c > 0.0
    ensures f / c <= m <==> f <= c * m
  {
    assert f == (f / c) * c;
    if f / c <= m {
      assert (f / c) * c <= m * c;
    } else {
      assert (f / c) * c > m * c;
    }
  }

  lemma EntryMeans(b: Budgets, e: ZipEntry, name: string)
    ensures EntryOk(b, e) && name == Normalized(e) <==> GoodEntry(b, e, name)
  {
    NameMeans(e, name);
    RatioMeans(b, e);
    forall data ensures Delivers(e.chunks, data) <==> data == Content(e.chunks) {
      ContentMeans(e.chunks, data);
    }
    if FileOk(b, e) {
      assert GoodFile(b, e, Content(e.chunks));
    }
  }

  // ---------- archives ----------

  /** Every entry has a good name, and no two are the same when case is folded. */
  ghost predicate GoodNames(host: Host, b: Budgets, es: seq<ZipEntry>, names: seq<string>) {
    && |names| == |es|
    && (forall i :: 0 <= i < |es| ==> GoodEntry(b, es[i], names[i]))
    && (forall i, j :: 0 <= i < j < |es| ==> host.casefold(names[i]) != host.casefold(names[j]))
  }

  function Names(es: seq<ZipEntry>): (ns: seq<string>)
    ensures |ns| == |es| && forall i :: 0 <= i < |es| ==> ns[i] == Normalized(es[i])
  {
    seq(|es|, i requires 0 <= i < |es| => Normalized(es[i]))
  }

  /** An archive can be read exactly when it has few enough entries, all good, with names that stay
      apart when case is folded, and declares few enough bytes. */
  lemma AdmissibleMeans(host: Host, b: Budgets, es: seq<ZipEntry>)
    ensures Admissible(host, b, es) <==>
      |es| <= b.maxEntries && DeclaredBytes(es) <= b.maxTotalBytes && exists names :: GoodNames(host, b, es, names)
  {
    if Admissible(host, b, es) {
      forall i | 0 <= i < |es| ensures GoodEntry(b, es[i], Names(es)[i]) {
        assert es[i] in es;
        EntryMeans(b, es[i], Normalized(es[i]));
      }
      assert GoodNames(host, b, es, Names(es));
    }
    if names :| GoodNames(host, b, es, names) {
      forall i | 0 <= i < |es| ensures EntryOk(b, es[i]) && names[i] == Normalized(es[i]) {
        EntryMeans(b, es[i], names[i]);
      }
    }
  }

  /** The member is this file of the archive. */
  ghost predicate MemberIs(host: Host, e: ZipEntry, m: Member) {
    && !e.isDir && e.filename == m.path && Delivers(e.chunks, m.data)
    && m.sha256 == host.sha256(m.data) && m.size == |m.data|
  }

  lemma MemberMeans(host: Host, e: ZipEntry)
    requires !e.isDir
    ensures MemberIs(host, e, MemberOf(host, e))
  {
    ContentMeans(e.chunks, Content(e.chunks));
  }

  lemma SameMembers(host: Host, es: seq<ZipEntry>, ms: seq<Member>, m: Member)
    requires multiset(ms) == multiset(MembersOf(host, es))
    ensures m in ms <==> exists e :: e in es && !e.isDir && m == MemberOf(host, e)
  {
    assert m in ms <==> m in multiset(ms);
    assert m in MembersOf(host, es) <==> m in multiset(MembersOf(host, es));
    MembersAreFiles(host, es, m);
  }

  lemma OrderMeans(host: Host, ms: seq<Member>)
    requires SortedByPath(ms) && FoldedApart(host, ms)
    ensures forall i, j :: 0 <= i < j < |ms| ==> ms[i].path != ms[j].path && Before(ms[i].path, ms[j].path)
  {
    forall i, j | 0 <= i < j < |ms| ensures ms[i].path != ms[j].path && Before(ms[i].path, ms[j].path) {
      assert host.casefold(ms[i].path) != host.casefold(ms[j].path);
      LeMeans(ms[i].path, ms[j].path);
    }
  }

  /** The members that are read are the files of the archive, whole and under their names, in the order
      of their names. */
  lemma MembersMean(host: Host, b: Budgets, es: seq<ZipEntry>, a: Archive)
    requires Conserved(host, b, es, a)
    ensures forall e :: e in es && !e.isDir ==> exists m :: m in a.members && MemberIs(host, e, m)
    ensures forall m :: m in a.members ==> exists e :: e in es && MemberIs(host, e, m)
    ensures forall i, j :: 0 <= i < j < |a.members| ==>
      a.members[i].path != a.members[j].path && Before(a.members[i].path, a.members[j].path)
  {
    OrderMeans(host, a.members);
    forall e | e in es && !e.isDir ensures exists m :: m in a.members && MemberIs(host, e, m) {
      SameMembers(host, es, a.members, MemberOf(host, e));
      MemberMeans(host, e);
    }
    forall m | m in a.members ensures exists e :: e in es && MemberIs(host, e, m) {
      SameMembers(host, es, a.members, m);
      var e :| e in es && !e.isDir && m == MemberOf(host, e);
      MemberMeans(host, e);
    }
  }

  // ---------- inventories ----------

  function Contents(ms: seq<Member>): (cs: seq<Bytes>)
    ensures |cs| == |ms| && forall i :: 0 <= i < |ms| ==> cs[i] == ms[i].data
  {
    seq(|ms|, i requires 0 <= i < |ms| => ms[i].data)
  }

  /** Each member has the size and digest of its bytes. */
  ghost predicate Truthful(host: Host, ms: seq<Member>) {
    forall i :: 0 <= i < |ms| ==> ms[i].size == |ms[i].data| && ms[i].sha256 == host.sha256(ms[i].data)
  }

  lemma {:induction false} TotalMeans(host: Host, ms: seq<Member>)
    requires Truthful(host, ms)
    ensures TotalSize(ms) == |Flat(Contents(ms))|
    decreases |ms|
  {
    if ms != [] {
      var n := |ms| - 1;
      TotalMeans(host, ms[..n]);
      assert Contents(ms)[..n] == Contents(ms[..n]);
    }
  }

  lemma TruthfulMeans(host: Host, ms: seq<Member>)
    ensures Truthful(host, ms) <==> forall m :: m in ms ==> Consistent(host, m)
  {
    if forall m :: m in ms ==> Consistent(host, m) {
      forall i | 0 <= i < |ms| ensures ms[i].size == |ms[i].data| && ms[i].sha256 == host.sha256(ms[i].data) {
        assert ms[i] in ms;
      }
    }
  }

  /** An inventory is consistent exactly when its paths differ, each member has the size and digest of its
      bytes, and the total is the number of bytes of all members together. */
  lemma InventoryMeans(host: Host, a: Archive)
    ensures InventoryOk(host, a) <==>
      && (forall i, j :: 0 <= i < j < |a.members| ==> a.members[i].path != a.members[j].path)
      && Truthful(host, a.members)
      && a.totalBytes == |Flat(Contents(a.members))|
  {
    TruthfulMeans(host, a.members);
    if Truthful(host, a.members) {
      TotalMeans(host, a.members);
    }
  }

  /** The order of strings: the first difference decides, and a prefix comes first. */
  ghost predicate Before(x: string, y: string) {
    x <= y || exists i :: 0 <= i < |x| && i < |y| && x[..i] == y[..i] && x[i] < y[i]
  }

  lemma {:induction false} LeMeans(x: string, y: string)
    ensures Le(x, y) <==> Before(x, y)
  {
    if x != "" && y != "" {
      LeMeans(x[1..], y[1..]);
      var a, b := x[1..], y[1..];
      if Le(x, y) {
        if x[0] < y[0] {
          assert x[..0] == y[..0];
        } else if i :| 0 <= i < |a| && i < |b| && a[..i] == b[..i] && a[i] < b[i] {
          assert x[..i + 1] == [x[0]] + a[..i] && y[..i + 1] == [y[0]] + b[..i];
          assert x[i + 1] < y[i + 1];
        }
      }
      if i :| 0 <= i < |x| && i < |y| && x[..i] == y[..i] && x[i] < y[i] {
        if i > 0 {
          assert x[0] == x[..i][0] && y[0] == y[..i][0];
          assert a[..i - 1] == x[..i][1..] && b[..i - 1] == y[..i][1..];
          assert a[i - 1] < b[i - 1];
        }
      }
    }
  }
}
