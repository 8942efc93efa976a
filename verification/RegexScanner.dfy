/** The character-level scanner that refuses regular expressions with backtracking risk. */
module RegexScanner {

  /** `str.isdigit` is a table of the Unicode database; it is a parameter here. */
  type DigitTable = char -> bool

  /** An escape that the scanner refuses: a back-reference by number or by name. */
  predicate BackReference(isDigit: DigitTable, c: char) {
    isDigit(c) || c == 'g' || c == 'k'
  }

  predicate Quantifier(c: char) {
    c == '*' || c == '+' || c == '?' || c == '{'
  }

  /** The scanner's verdict on `p[i..]` when it stands at `i` with the given flags. */
  function ScanFrom(isDigit: DigitTable, p: string, i: nat, escaped: bool, inClass: bool): bool
    requires i <= |p|
    decreases |p| - i
  {
    if i == |p| then false
    else if escaped then BackReference(isDigit, p[i]) || ScanFrom(isDigit, p, i + 1, false, inClass)
    else if p[i] == '\\' then ScanFrom(isDigit, p, i + 1, true, inClass)
    else if p[i] == '[' && !inClass then ScanFrom(isDigit, p, i + 1, false, true)
    else if p[i] == ']' && inClass then ScanFrom(isDigit, p, i + 1, false, false)
    else if inClass then ScanFrom(isDigit, p, i + 1, false, true)
    else if p[i] == '(' && i + 1 < |p| && p[i + 1] == '?' then true
    else if p[i] == ')' && i + 1 < |p| && Quantifier(p[i + 1]) then true
    else ScanFrom(isDigit, p, i + 1, false, false)
  }

  function Flagged(isDigit: DigitTable, p: string): bool {
    ScanFrom(isDigit, p, 0, false, false)
  }

  /** `_pattern_uses_backtracking_construct`. */
  method UsesBacktracking(isDigit: DigitTable, pattern: string) returns (flagged: bool)
    ensures flagged == Flagged(isDigit, pattern)
  {
    var escaped, inClass := false, false;
    for index := 0 to |pattern|
      invariant Flagged(isDigit, pattern) == ScanFrom(isDigit, pattern, index, escaped, inClass)
    {
      var character := pattern[index];
      if escaped {
        if isDigit(character) || character in {'g', 'k'} {
          return true;
        }
        escaped := false;
        continue;
      }
      if character == '\\' {
        escaped := true;
        continue;
      }
      if character == '[' && !inClass {
        inClass := true;
        continue;
      }
      if character == ']' && inClass {
        inClass := false;
        continue;
      }
      if inClass {
        continue;
      }
      if character == '(' && index + 1 < |pattern| && pattern[index + 1] == '?' {
        return true;
      }
      if character == ')' && index + 1 < |pattern| {
        var following := pattern[index + 1];
        if following in {'*', '+', '?', '{'} {
          return true;
        }
      }
    }
    return false;
  }

  // ---------- structural meaning ----------

  datatype ClassItem = Member(c: char) | ClassEscape(c: char)

  /** A regular expression as nested syntax. A group lists what stands between its
      parentheses; a quantifier is an ordinary literal that follows what it repeats. */
  datatype Item =
    | Literal(c: char)
    | Escape(c: char)
    | Class(members: seq<ClassItem>)
    | Group(body: seq<Item>)

  predicate ClassOk(ms: seq<ClassItem>) {
    forall i :: 0 <= i < |ms| && ms[i].Member? ==> ms[i].c != '\\' && ms[i].c != ']'
  }

  /** Literals are not the characters that open another construct. */
  predicate ItemOk(x: Item)
    decreases x, 1
  {
    match x
    case Literal(c) => c != '\\' && c != '[' && c != '(' && c != ')'
    case Escape(_) => true
    case Class(ms) => ClassOk(ms)
    case Group(body) => AllOk(body)
  }

  predicate AllOk(xs: seq<Item>)
    decreases xs, 0
  {
    xs != [] ==> ItemOk(xs[0]) && AllOk(xs[1..])
  }

  function PrintMember(m: ClassItem): string {
    match m case Member(c) => [c] case ClassEscape(c) => ['\\', c]
  }

  function PrintClass(ms: seq<ClassItem>): string {
    if ms == [] then "" else PrintMember(ms[0]) + PrintClass(ms[1..])
  }

  function PrintItem(x: Item): (s: string)
    ensures |s| > 0
    decreases x, 1
  {
    match x
    case Literal(c) => [c]
    case Escape(c) => ['\\', c]
    case Class(ms) => "[" + PrintClass(ms) + "]"
    case Group(body) => "(" + Print(body) + ")"
  }

  function Print(xs: seq<Item>): string
    decreases xs, 0
  {
    if xs == [] then "" else PrintItem(xs[0]) + Print(xs[1..])
  }

  predicate ClassRisk(isDigit: DigitTable, ms: seq<ClassItem>) {
    exists i :: 0 <= i < |ms| && ms[i].ClassEscape? && BackReference(isDigit, ms[i].c)
  }

  /** A back-reference escape anywhere inside, or a group that opens with `?`. */
  predicate ItemRisk(isDigit: DigitTable, x: Item)
    decreases x, 1
  {
    match x
    case Literal(_) => false
    case Escape(c) => BackReference(isDigit, c)
    case Class(ms) => ClassRisk(isDigit, ms)
    case Group(body) => (body != [] && body[0] == Literal('?')) || Risk(isDigit, body)
  }

  /** Some item is risky, or some group is directly followed by a quantifier. */
  predicate Risk(isDigit: DigitTable, xs: seq<Item>)
    decreases xs, 0
  {
    xs != [] &&
    (|| ItemRisk(isDigit, xs[0])
     || (xs[0].Group? && |xs| > 1 && xs[1].Literal? && Quantifier(xs[1].c))
     || Risk(isDigit, xs[1..]))
  }

  /** Scanning depends only on what is left to scan. */
  lemma {:induction false} ScanSuffix(isDigit: DigitTable, pre: string, p: string, i: nat, escaped: bool, inClass: bool)
    requires i <= |p|
    ensures ScanFrom(isDigit, pre + p, |pre| + i, escaped, inClass) == ScanFrom(isDigit, p, i, escaped, inClass)
    decreases |p| - i
  {
    if i < |p| {
      assert (pre + p)[|pre| + i] == p[i];
      if i + 1 < |p| {
        assert (pre + p)[|pre| + i + 1] == p[i + 1];
      }
      ScanSuffix(isDigit, pre, p, i + 1, false, false);
      ScanSuffix(isDigit, pre, p, i + 1, false, true);
      ScanSuffix(isDigit, pre, p, i + 1, true, inClass);
    }
  }

  function Scan(isDigit: DigitTable, p: string, inClass: bool): bool {
    ScanFrom(isDigit, p, 0, false, inClass)
  }

  lemma ScanAfter(isDigit: DigitTable, pre: string, rest: string, inClass: bool)
    ensures ScanFrom(isDigit, pre + rest, |pre|, false, inClass) == Scan(isDigit, rest, inClass)
  {
    ScanSuffix(isDigit, pre, rest, 0, false, inClass);
  }

  lemma ScanEscape(isDigit: DigitTable, c: char, rest: string, inClass: bool)
    ensures Scan(isDigit, ['\\', c] + rest, inClass) <==> BackReference(isDigit, c) || Scan(isDigit, rest, inClass)
  {
    var p := ['\\', c] + rest;
    assert p[0] == '\\' && p[1] == c;
    ScanAfter(isDigit, ['\\', c], rest, inClass);
    assert Scan(isDigit, p, inClass) == ScanFrom(isDigit, p, 1, true, inClass);
  }

  lemma {:induction false} ScanClass(isDigit: DigitTable, ms: seq<ClassItem>, rest: string)
    requires ClassOk(ms)
    ensures Scan(isDigit, PrintClass(ms) + "]" + rest, true) <==> ClassRisk(isDigit, ms) || Scan(isDigit, rest, false)
    decreases |ms|
  {
    if ms == [] {
      assert PrintClass(ms) + "]" + rest == "]" + rest;
      ScanAfter(isDigit, "]", rest, false);
    } else {
      var tail := PrintClass(ms[1..]) + "]" + rest;
      ScanClass(isDigit, ms[1..], rest);
      match ms[0] {
        case Member(c) =>
          assert PrintClass(ms) + "]" + rest == [c] + tail;
          ScanAfter(isDigit, [c], tail, true);
        case ClassEscape(c) =>
          assert PrintClass(ms) + "]" + rest == ['\\', c] + tail;
          ScanEscape(isDigit, c, tail, true);
      }
      ClassRiskStep(isDigit, ms);
    }
  }

  lemma ClassRiskStep(isDigit: DigitTable, ms: seq<ClassItem>)
    requires ms != []
    ensures ClassRisk(isDigit, ms) <==>
      (ms[0].ClassEscape? && BackReference(isDigit, ms[0].c)) || ClassRisk(isDigit, ms[1..])
  {
    if i :| 0 <= i < |ms| && ms[i].ClassEscape? && BackReference(isDigit, ms[i].c) {
      if i > 0 {
        assert ms[1..][i - 1] == ms[i];
      }
    }
    if j :| 0 <= j < |ms[1..]| && ms[1..][j].ClassEscape? && BackReference(isDigit, ms[1..][j].c) {
      assert ms[j + 1] == ms[1..][j];
    }
  }

  predicate StartsWithQuantifier(s: string) { |s| > 0 && Quantifier(s[0]) }
  predicate StartsWithMark(s: string) { |s| > 0 && s[0] == '?' }

  lemma PrintStart(xs: seq<Item>, rest: string)
    requires AllOk(xs)
    ensures xs != [] ==> (StartsWithMark(Print(xs) + rest) <==> xs[0] == Literal('?'))
    ensures xs != [] ==> (StartsWithQuantifier(Print(xs) + rest) <==> xs[0].Literal? && Quantifier(xs[0].c))
  {
    if xs != [] {
      assert (Print(xs) + rest)[0] == PrintItem(xs[0])[0];
    }
  }

  /** Scanning printed items flags exactly the risky ones, then goes on with what follows. */
  lemma {:induction false} ScanItems(isDigit: DigitTable, xs: seq<Item>, rest: string)
    requires AllOk(xs)
    ensures Scan(isDigit, Print(xs) + rest, false) <==>
      || Risk(isDigit, xs)
      || (xs != [] && xs[|xs| - 1].Group? && StartsWithQuantifier(rest))
      || Scan(isDigit, rest, false)
    decreases xs, 0
  {
    if xs == [] {
      assert Print(xs) + rest == rest;
    } else {
      var tail := Print(xs[1..]) + rest;
      assert Print(xs) + rest == PrintItem(xs[0]) + tail;
      ScanItem(isDigit, xs[0], tail);
      ScanItems(isDigit, xs[1..], rest);
      if |xs| == 1 {
        assert tail == rest;
      } else {
        PrintStart(xs[1..], rest);
      }
    }
  }

  lemma {:induction false} ScanItem(isDigit: DigitTable, x: Item, rest: string)
    requires ItemOk(x)
    ensures Scan(isDigit, PrintItem(x) + rest, false) <==>
      || ItemRisk(isDigit, x)
      || (x.Group? && StartsWithQuantifier(rest))
      || Scan(isDigit, rest, false)
    decreases x, 1
  {
    match x {
      case Literal(c) =>
        ScanAfter(isDigit, [c], rest, false);
      case Escape(c) =>
        ScanEscape(isDigit, c, rest, false);
      case Class(ms) =>
        var body := PrintClass(ms) + "]" + rest;
        assert PrintItem(x) + rest == "[" + body;
        ScanAfter(isDigit, "[", body, true);
        ScanClass(isDigit, ms, rest);
      case Group(body) =>
        var inner := ")" + rest;
        var p := "(" + (Print(body) + inner);
        assert PrintItem(x) + rest == p;
        ScanAfter(isDigit, "(", Print(body) + inner, false);
        ScanItems(isDigit, body, inner);
        ScanAfter(isDigit, ")", rest, false);
        if body != [] {
          PrintStart(body, inner);
        } else {
          assert Print(body) + inner == inner;
        }
        assert p[1..] == Print(body) + inner;
    }
  }

  /** For every pattern built from literals, escapes, classes and nested groups, the scanner
      flags the printed text exactly when the syntax holds a back-reference escape, a group
      opening with `?`, or a group directly followed by a quantifier. */
  lemma FlaggedIffRisk(isDigit: DigitTable, xs: seq<Item>)
    requires AllOk(xs)
    ensures Flagged(isDigit, Print(xs)) <==> Risk(isDigit, xs)
  {
    ScanItems(isDigit, xs, "");
    assert Print(xs) + "" == Print(xs);
  }
}
