/** What the scanner's verdict means on every string, balanced or not. */
module RegexTokens {
  import opened RegexScanner

  /** What a pattern is made of. An unclosed class or a single backslash can only come last; the
      class then may itself end in a single backslash. */
  datatype Token =
    | Plain(c: char)
    | Open
    | Close
    | Escaped(c: char)
    | CharClass(members: seq<ClassItem>)
    | UnclosedClass(members: seq<ClassItem>, dangling: bool)
    | Dangling

  predicate TokenOk(t: Token) {
    match t
    case Plain(c) => c != '\\' && c != '[' && c != '(' && c != ')'
    case CharClass(ms) => ClassOk(ms)
    case UnclosedClass(ms, _) => ClassOk(ms)
    case _ => true
  }

  predicate TokensOk(ts: seq<Token>) {
    ts != [] ==> TokenOk(ts[0]) && TokensOk(ts[1..]) && ((ts[0].UnclosedClass? || ts[0].Dangling?) ==> |ts| == 1)
  }

  function Backslash(b: bool): string { if b then "\\" else "" }

  function PrintToken(t: Token): (s: string)
    ensures |s| > 0
  {
    match t
    case Plain(c) => [c]
    case Open => "("
    case Close => ")"
    case Escaped(c) => ['\\', c]
    case CharClass(ms) => "[" + PrintClass(ms) + "]"
    case UnclosedClass(ms, dangling) => "[" + PrintClass(ms) + Backslash(dangling)
    case Dangling => "\\"
  }

  function PrintTokens(ts: seq<Token>): string {
    if ts == [] then "" else PrintToken(ts[0]) + PrintTokens(ts[1..])
  }

  /** A back-reference escape, outside or inside a class. */
  ghost predicate TokenRisk(isDigit: DigitTable, t: Token) {
    match t
    case Escaped(c) => isDigit(c) || c in {'g', 'k'}
    case CharClass(ms) => exists c :: ClassEscape(c) in ms && (isDigit(c) || c in {'g', 'k'})
    case UnclosedClass(ms, _) => exists c :: ClassEscape(c) in ms && (isDigit(c) || c in {'g', 'k'})
    case _ => false
  }

  lemma ClassRiskMeans(isDigit: DigitTable, ms: seq<ClassItem>)
    ensures ClassRisk(isDigit, ms) <==> exists c :: ClassEscape(c) in ms && (isDigit(c) || c in {'g', 'k'})
  {
    if ClassRisk(isDigit, ms) {
      var i :| 0 <= i < |ms| && ms[i].ClassEscape? && BackReference(isDigit, ms[i].c);
      assert ClassEscape(ms[i].c) in ms;
    }
    if c :| ClassEscape(c) in ms && (isDigit(c) || c in {'g', 'k'}) {
      var i :| 0 <= i < |ms| && ms[i] == ClassEscape(c);
    }
  }

  /** The two tokens open a special group, or repeat a group. */
  predicate PairRisk(t: Token, next: Token) {
    || (t.Open? && next == Plain('?'))
    || (t.Close? && next.Plain? && next.c in {'*', '+', '?', '{'})
  }

  ghost predicate TokensRisk(isDigit: DigitTable, ts: seq<Token>) {
    || (exists i :: 0 <= i < |ts| && TokenRisk(isDigit, ts[i]))
    || (exists i :: 0 <= i < |ts| - 1 && PairRisk(ts[i], ts[i + 1]))
  }

  // ---------- scanning tokens ----------

  lemma RiskStep(isDigit: DigitTable, ts: seq<Token>)
    requires ts != []
    ensures TokensRisk(isDigit, ts) <==>
      || TokenRisk(isDigit, ts[0])
      || (|ts| > 1 && PairRisk(ts[0], ts[1]))
      || TokensRisk(isDigit, ts[1..])
  {
    var rest := ts[1..];
    assert forall i :: 0 <= i < |rest| ==> rest[i] == ts[i + 1];
    if i :| 0 <= i < |ts| && TokenRisk(isDigit, ts[i]) {
      if i > 0 {
        assert TokenRisk(isDigit, rest[i - 1]);
      }
    }
    if i :| 0 <= i < |ts| - 1 && PairRisk(ts[i], ts[i + 1]) {
      if i > 0 {
        assert PairRisk(rest[i - 1], rest[i]);
      }
    }
    if i :| 0 <= i < |rest| && TokenRisk(isDigit, rest[i]) {
      assert TokenRisk(isDigit, ts[i + 1]);
    }
    if i :| 0 <= i < |rest| - 1 && PairRisk(rest[i], rest[i + 1]) {
      assert PairRisk(ts[i + 1], ts[i + 2]);
    }
  }

  lemma LoneBackslash(isDigit: DigitTable, inClass: bool)
    ensures !Scan(isDigit, "\\", inClass)
  {
    var p := "\\";
    assert p[0] == '\\' && !ScanFrom(isDigit, p, 1, true, inClass);
  }

  /** An unclosed class: only its escapes matter. */
  lemma {:induction false} ScanUnclosed(isDigit: DigitTable, ms: seq<ClassItem>, dangling: bool)
    requires ClassOk(ms)
    ensures Scan(isDigit, PrintClass(ms) + Backslash(dangling), true) <==> ClassRisk(isDigit, ms)
    decreases |ms|
  {
    if ms == [] {
      assert PrintClass(ms) + Backslash(dangling) == Backslash(dangling);
      LoneBackslash(isDigit, true);
    } else {
      var tail := PrintClass(ms[1..]) + Backslash(dangling);
      ScanUnclosed(isDigit, ms[1..], dangling);
      match ms[0] {
        case Member(c) =>
          assert PrintClass(ms) + Backslash(dangling) == [c] + tail;
          ScanAfter(isDigit, [c], tail, true);
        case ClassEscape(c) =>
          assert PrintClass(ms) + Backslash(dangling) == ['\\', c] + tail;
          ScanEscape(isDigit, c, tail, true);
      }
      ClassRiskStep(isDigit, ms);
    }
  }

  lemma TokenStart(ts: seq<Token>)
    requires TokensOk(ts) && ts != []
    ensures StartsWithMark(PrintTokens(ts)) <==> ts[0] == Plain('?')
    ensures StartsWithQuantifier(PrintTokens(ts)) <==> ts[0].Plain? && Quantifier(ts[0].c)
  {
    assert PrintTokens(ts)[0] == PrintToken(ts[0])[0];
  }

  lemma Regroup(a: string, b: string, c: string, d: string)
    ensures a + (b + c + d) == a + b + c + d
  {
  }

  /** Scanning one token that need not be last, then the rest. */
  lemma ScanToken(isDigit: DigitTable, t: Token, rest: string)
    requires TokenOk(t) && !t.UnclosedClass? && !t.Dangling?
    ensures Scan(isDigit, PrintToken(t) + rest, false) <==>
      || TokenRisk(isDigit, t)
      || (t.Open? && StartsWithMark(rest))
      || (t.Close? && StartsWithQuantifier(rest))
      || Scan(isDigit, rest, false)
  {
    match t {
      case Plain(c) => ScanAfter(isDigit, [c], rest, false);
      case Open => ScanAfter(isDigit, "(", rest, false);
      case Close => ScanAfter(isDigit, ")", rest, false);
      case Escaped(c) => ScanEscape(isDigit, c, rest, false);
      case CharClass(ms) =>
        ScanWholeClass(isDigit, ms, rest);
        ClassRiskMeans(isDigit, ms);
    }
  }

  lemma ScanWholeClass(isDigit: DigitTable, ms: seq<ClassItem>, rest: string)
    requires ClassOk(ms)
    ensures Scan(isDigit, "[" + PrintClass(ms) + "]" + rest, false) <==>
      ClassRisk(isDigit, ms) || Scan(isDigit, rest, false)
  {
    var body := PrintClass(ms) + "]" + rest;
    Regroup("[", PrintClass(ms), "]", rest);
    ScanAfter(isDigit, "[", body, true);
    ScanClass(isDigit, ms, rest);
  }

  lemma ScanLast(isDigit: DigitTable, t: Token)
    requires TokenOk(t) && (t.UnclosedClass? || t.Dangling?)
    ensures Scan(isDigit, PrintToken(t), false) <==> TokenRisk(isDigit, t)
  {
    if t.UnclosedClass? {
      var body := PrintClass(t.members) + Backslash(t.dangling);
      assert PrintToken(t) == "[" + body;
      ScanAfter(isDigit, "[", body, true);
      ScanUnclosed(isDigit, t.members, t.dangling);
      ClassRiskMeans(isDigit, t.members);
    } else {
      LoneBackslash(isDigit, false);
    }
  }

  /** The scanner flags the text of a token list exactly when the list is risky. */
  lemma {:induction false} FlaggedIffTokensRisk(isDigit: DigitTable, ts: seq<Token>)
    requires TokensOk(ts)
    ensures Flagged(isDigit, PrintTokens(ts)) <==> TokensRisk(isDigit, ts)
    decreases |ts|
  {
    if ts != [] {
      RiskStep(isDigit, ts);
      var rest := PrintTokens(ts[1..]);
      FlaggedIffTokensRisk(isDigit, ts[1..]);
      if ts[0].UnclosedClass? || ts[0].Dangling? {
        assert PrintTokens(ts) == PrintToken(ts[0]);
        ScanLast(isDigit, ts[0]);
      } else {
        ScanToken(isDigit, ts[0], rest);
        if |ts| > 1 {
          TokenStart(ts[1..]);
        }
      }
    }
  }

  // ---------- every string is the text of a token list ----------

  /** One item in front of the others. */
  lemma PrependItem(item: ClassItem, more: seq<ClassItem>)
    requires ClassOk([item]) && ClassOk(more)
    ensures ClassOk([item] + more)
    ensures PrintClass([item] + more) == PrintMember(item) + PrintClass(more)
  {
    assert ([item] + more)[1..] == more;
  }

  /** The first item of a class. */
  lemma ReadItem(s: string) returns (item: ClassItem, printed: string, tail: string)
    requires s != "" && s != "\\" && s[0] != ']'
    ensures s == printed + tail && |tail| < |s| && ClassOk([item])
    ensures printed == PrintMember(item)
  {
    if s[0] == '\\' {
      assert |s| > 1;
      item, printed, tail := ClassEscape(s[1]), ['\\', s[1]], s[2..];
    } else {
      item, printed, tail := Member(s[0]), [s[0]], s[1..];
    }
  }

  /** The inside of a class, up to its closing bracket or to the end. */
  lemma {:induction false} ReadClass(s: string) returns (ms: seq<ClassItem>, closed: bool, dangling: bool, rest: string)
    ensures ClassOk(ms)
    ensures closed ==> s == PrintClass(ms) + "]" + rest && |rest| < |s|
    ensures !closed ==> s == PrintClass(ms) + Backslash(dangling)
    decreases |s|
  {
    if s == "" || s == "\\" {
      ms, closed, dangling, rest := [], false, s != "", "";
    } else if s[0] == ']' {
      ms, closed, dangling, rest := [], true, false, s[1..];
      assert s == "" + "]" + s[1..];
    } else {
      var item, printed, tail := ReadItem(s);
      var more;
      more, closed, dangling, rest := ReadClass(tail);
      ms := [item] + more;
      PrependItem(item, more);
      Regroup(printed, PrintClass(more), "]", rest);
      Regroup(printed, PrintClass(more), Backslash(dangling), "");
    }
  }

  lemma Prepend(t: Token, ts: seq<Token>)
    requires TokenOk(t) && TokensOk(ts) && !t.UnclosedClass? && !t.Dangling?
    ensures TokensOk([t] + ts) && PrintTokens([t] + ts) == PrintToken(t) + PrintTokens(ts)
  {
    assert ([t] + ts)[1..] == ts;
  }

  lemma Single(t: Token)
    requires TokenOk(t)
    ensures TokensOk([t]) && PrintTokens([t]) == PrintToken(t)
  {
    assert [t][1..] == [];
    assert PrintToken(t) + "" == PrintToken(t);
  }

  lemma {:induction false} Tokenize(s: string) returns (ts: seq<Token>)
    ensures TokensOk(ts) && PrintTokens(ts) == s
    decreases |s|
  {
    if s == "" {
      ts := [];
    } else if s == "\\" {
      ts := [Dangling];
      Single(Dangling);
    } else if s[0] == '\\' {
      var more := Tokenize(s[2..]);
      Prepend(Escaped(s[1]), more);
      assert s == ['\\', s[1]] + s[2..];
      ts := [Escaped(s[1])] + more;
    } else if s[0] == '[' {
      ts := TokenizeClass(s);
    } else {
      var t := if s[0] == '(' then Open else if s[0] == ')' then Close else Plain(s[0]);
      var more := Tokenize(s[1..]);
      Prepend(t, more);
      assert s == [s[0]] + s[1..] && PrintToken(t) == [s[0]];
      ts := [t] + more;
    }
  }

  lemma {:induction false} TokenizeClass(s: string) returns (ts: seq<Token>)
    requires s != "" && s[0] == '['
    ensures TokensOk(ts) && PrintTokens(ts) == s
    decreases |s|, 0
  {
    var ms, closed, dangling, rest := ReadClass(s[1..]);
    assert s == "[" + s[1..];
    if closed {
      var more := Tokenize(rest);
      Prepend(CharClass(ms), more);
      Regroup("[", PrintClass(ms), "]", rest);
      ts := [CharClass(ms)] + more;
    } else {
      Single(UnclosedClass(ms, dangling));
      Regroup("[", PrintClass(ms), Backslash(dangling), "");
      ts := [UnclosedClass(ms, dangling)];
    }
  }

  /** For every string: it is the text of a token list, and the scanner flags it exactly when some
      escape in it is a back-reference, or a parenthesis opens with `?` or is closed before a
      quantifier. */
  lemma FlaggedMeans(isDigit: DigitTable, s: string) returns (ts: seq<Token>)
    ensures TokensOk(ts) && PrintTokens(ts) == s
    ensures Flagged(isDigit, s) <==> TokensRisk(isDigit, ts)
  {
    ts := Tokenize(s);
    FlaggedIffTokensRisk(isDigit, ts);
  }
}
