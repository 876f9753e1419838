/** Keyword and placeholder scanning (cmd/execdb/access.go, cmd/execdb/pgextended.go):
    the second and third loop over the lexer of `SqlLexer`, and the classification of a
    statement by its first keyword. */
module SqlKeywords {
  import opened SqlLexer

  // ---- Skipping one literal or comment -------------------------------------

  /** The characters `[from, to)` are inside a literal or comment, or delimit one. */
  ghost predicate Skippable(s: string, from: nat, to: nat) {
    from <= to <= |s| &&
    forall k :: from <= k < to && ModeAt(s, k).InCode() ==> s[k] in {'\'', '"', '-', '/', '*'}
  }

  method SkipString(s: string, start: nat) returns (i: nat)
    requires start < |s| && LoopHead(s, start) && s[start] == '\''
    ensures start < i && LoopHead(s, i) && Skippable(s, start, i)
  {
    var n := |s|;
    SkipQuote(s, start, start);
    i := start + 1;
    while i < n
      invariant start < i <= n && ModeAt(s, i) == Str && Skippable(s, start, i)
    {
      SkipOne(s, start, i);
      if s[i] == '\'' {
        i := i + 1;
        if i < n && s[i] == '\'' {
          SkipQuote(s, start, i);
          i := i + 1;
          continue;
        }
        break;
      }
      i := i + 1;
    }
  }

  method SkipIdent(s: string, start: nat) returns (i: nat)
    requires start < |s| && LoopHead(s, start) && s[start] == '"'
    ensures start < i && LoopHead(s, i) && Skippable(s, start, i)
  {
    var n := |s|;
    ModeStep(s, start);
    i := start + 1;
    while i < n && s[i] != '"'
      invariant start < i <= n && ModeAt(s, i) == Ident && Skippable(s, start, i)
    {
      ModeStep(s, i);
      i := i + 1;
    }
    if i < n {
      ModeStep(s, i);
      i := i + 1;
    }
  }

  method SkipLineComment(s: string, start: nat) returns (i: nat)
    requires start + 1 < |s| && LoopHead(s, start) && s[start] == '-' && s[start + 1] == '-'
    ensures start < i && LoopHead(s, i) && Skippable(s, start, i)
  {
    i := start;
    while i < |s| && s[i] != '\n'
      invariant start <= i <= |s| && Skippable(s, start, i)
      invariant i == start || ModeAt(s, i) == if i == start + 1 then Dash else Line
    {
      ModeStep(s, i);
      i := i + 1;
    }
  }

  method SkipBlockComment(s: string, start: nat) returns (i: nat)
    requires start + 1 < |s| && LoopHead(s, start) && s[start] == '/' && s[start + 1] == '*'
    ensures start < i && LoopHead(s, i) && Skippable(s, start, i)
  {
    var n := |s|;
    ModeStep(s, start);
    ModeStep(s, start + 1);
    i := start + 2;
    while i + 1 < n && !(s[i] == '*' && s[i + 1] == '/')
      invariant start < i <= n && InBlock(s, i) && Skippable(s, start, i)
    {
      SkipOne(s, start, i);
      i := i + 1;
    }
    if i < n {
      SkipOne(s, start, i);
    }
    if i + 1 < n {
      SkipOne(s, start, i + 1);
      i := i + 2;
    } else {
      i := n;
    }
  }

  lemma SkipQuote(s: string, start: nat, i: nat)
    requires i < |s| && Skippable(s, start, i) && s[i] == '\'' && ModeAt(s, i).InCode()
    ensures Skippable(s, start, i + 1) && ModeAt(s, i + 1) == Str
  {
    ModeStep(s, i);
  }

  lemma SkipOne(s: string, start: nat, i: nat)
    requires i < |s| && Skippable(s, start, i)
    requires !ModeAt(s, i).InCode()
    ensures Skippable(s, start, i + 1) && ModeAt(s, i + 1) == Next(ModeAt(s, i), s[i])
  {
    ModeStep(s, i);
  }

  /** The four cases the two loops share: skips the literal or comment that starts at
      `start`, and stays put where none does. */
  method SkipLiteral(s: string, start: nat) returns (i: nat)
    requires start < |s| && LoopHead(s, start)
    ensures start <= i && LoopHead(s, i) && Skippable(s, start, i)
    ensures i == start ==> LoopHead(s, start + 1)
    ensures i == start && s[start] != '\n' ==> ModeAt(s, start).InCode()
  {
    var c, n := s[start], |s|;
    i := start;
    if c == '\'' {
      i := SkipString(s, i);
    } else if c == '"' {
      i := SkipIdent(s, i);
    } else if c == '-' && i + 1 < n && s[i + 1] == '-' {
      i := SkipLineComment(s, i);
    } else if c == '/' && i + 1 < n && s[i + 1] == '*' {
      i := SkipBlockComment(s, i);
    } else {
      ModeStep(s, i);
    }
  }

  // ---- RETURNING -----------------------------------------------------------

  predicate IsWordRune(c: char) {
    'a' <= c <= 'z' || 'A' <= c <= 'Z' || '0' <= c <= '9' || c == '_'
  }

  function Upper(c: char): char {
    if 'a' <= c <= 'z' then c - 'a' + 'A' else c
  }

  /** `word` stands at `i` as a whole word, whatever its letter case. */
  predicate WordAt(s: string, i: nat, word: string) {
    && i + |word| <= |s|
    && (forall j :: 0 <= j < |word| ==> Upper(s[i + j]) == word[j])
    && (i > 0 ==> !IsWordRune(s[i - 1]))
    && (i + |word| < |s| ==> !IsWordRune(s[i + |word|]))
  }

  /** cmd/execdb/access.go: matchesWordAt. */
  method MatchesWordAt(s: string, i: nat, word: string) returns (found: bool)
    requires i <= |s|
    ensures found <==> WordAt(s, i, word)
  {
    if i + |word| > |s| {
      return false;
    }
    for j := 0 to |word|
      invariant forall k :: 0 <= k < j ==> Upper(s[i + k]) == word[k]
    {
      if Upper(s[i + j]) != word[j] {
        return false;
      }
    }
    if i > 0 && IsWordRune(s[i - 1]) {
      return false;
    }
    var end := i + |word|;
    if end < |s| && IsWordRune(s[end]) {
      return false;
    }
    return true;
  }

  const RETURNING := "RETURNING"

  /** RETURNING as a whole word, outside literals and comments. */
  predicate ReturningAt(s: string, i: nat) {
    i < |s| && ModeAt(s, i).InCode() && WordAt(s, i, RETURNING)
  }

  predicate HasReturning(s: string) {
    exists i :: 0 <= i < |s| && ReturningAt(s, i)
  }

  lemma WordStartsWithR(s: string, i: nat)
    requires ReturningAt(s, i)
    ensures s[i] == 'R' || s[i] == 'r'
  {
    assert Upper(s[i + 0]) == RETURNING[0];
  }

  /** cmd/execdb/access.go: hasReturningClause. */
  method HasReturningClause(stmt: string) returns (found: bool)
    ensures found <==> HasReturning(stmt)
  {
    var n, i := |stmt|, 0;
    while i < n
      invariant 0 <= i <= n && LoopHead(stmt, i)
      invariant forall k :: 0 <= k < i ==> !ReturningAt(stmt, k)
    {
      var next := SkipLiteral(stmt, i);
      if next > i {
        forall k | i <= k < next ensures !ReturningAt(stmt, k) {
          if ReturningAt(stmt, k) { WordStartsWithR(stmt, k); }
        }
        i := next;
      } else {
        var word := MatchesWordAt(stmt, i, RETURNING);
        if word {
          assert Upper(stmt[i + 0]) == RETURNING[0];
          assert ReturningAt(stmt, i);
          return true;
        }
        i := i + 1;
      }
    }
    return false;
  }

  // ---- Placeholders --------------------------------------------------------

  predicate IsDigit(c: char) { '0' <= c <= '9' }

  /** Where the run of digits that starts at `i` ends. */
  function DigitsEnd(s: string, i: nat): (j: nat)
    requires i <= |s|
    ensures i <= j <= |s| && (forall k :: i <= k < j ==> IsDigit(s[k])) && (j < |s| ==> !IsDigit(s[j]))
    decreases |s| - i
  {
    if i < |s| && IsDigit(s[i]) then DigitsEnd(s, i + 1) else i
  }

  function Decimal(digits: string): nat
    requires forall c :: c in digits ==> IsDigit(c)
  {
    if digits == [] then 0
    else
      var d := digits[|digits| - 1];
      assert IsDigit(d);
      10 * Decimal(digits[..|digits| - 1]) + (d as int - '0' as int)
  }

  const MAX_INT := 0x7fff_ffff_ffff_ffff

  /** The number `N` of the `$N` that starts at `i` outside literals and comments, and 0
      where there is none or N does not fit Go's int. */
  function PlaceholderAt(s: string, i: nat): nat
    requires i < |s|
  {
    if s[i] == '$' && ModeAt(s, i).InCode() && i + 1 < |s| && IsDigit(s[i + 1]) then
      var v := Decimal(s[i + 1..DigitsEnd(s, i + 1)]);
      if v <= MAX_INT then v else 0
    else 0
  }

  /** The highest placeholder that starts before `upTo`, computed position by position. */
  function Highest(s: string, upTo: nat): nat
    requires upTo <= |s|
  {
    if upTo == 0 then 0
    else
      var before, v := Highest(s, upTo - 1), PlaceholderAt(s, upTo - 1);
      if v > before then v else before
  }

  /** The same, said without an order of evaluation. */
  lemma {:induction false} HighestIsMaximum(s: string, upTo: nat)
    requires upTo <= |s|
    ensures forall k :: 0 <= k < upTo ==> PlaceholderAt(s, k) <= Highest(s, upTo)
    ensures Highest(s, upTo) == 0 || exists k :: 0 <= k < upTo && PlaceholderAt(s, k) == Highest(s, upTo)
  {
    if upTo > 0 {
      HighestIsMaximum(s, upTo - 1);
      assert PlaceholderAt(s, upTo - 1) <= Highest(s, upTo);
    }
  }

  lemma {:induction false} HighestSkips(s: string, from: nat, to: nat)
    requires from <= to <= |s| && forall k :: from <= k < to ==> s[k] != '$' || !ModeAt(s, k).InCode()
    ensures Highest(s, to) == Highest(s, from)
  {
    if from < to {
      HighestSkips(s, from, to - 1);
      assert PlaceholderAt(s, to - 1) == 0;
    }
  }

  /** cmd/execdb/pgextended.go: countPlaceholders. */
  method CountPlaceholders(query: string) returns (maxIdx: nat)
    ensures forall k :: 0 <= k < |query| ==> PlaceholderAt(query, k) <= maxIdx
    ensures maxIdx == 0 || exists k :: 0 <= k < |query| && PlaceholderAt(query, k) == maxIdx
    ensures maxIdx == Highest(query, |query|)
  {
    var n, i := |query|, 0;
    maxIdx := 0;
    while i < n
      invariant 0 <= i <= n && LoopHead(query, i) && maxIdx == Highest(query, i)
    {
      var next := SkipLiteral(query, i);
      if next > i {
        HighestSkips(query, i, next);
        i := next;
      } else if query[i] == '$' && i + 1 < n && IsDigit(query[i + 1]) {
        i, maxIdx := TakePlaceholder(query, i, maxIdx);
      } else {
        assert PlaceholderAt(query, i) == 0;
        i := i + 1;
      }
    }
    HighestIsMaximum(query, n);
  }

  /** cmd/execdb/pgextended.go: countPlaceholders, the `$N` case. */
  method TakePlaceholder(query: string, start: nat, before: nat) returns (j: nat, maxIdx: nat)
    requires start + 1 < |query| && LoopHead(query, start)
    requires query[start] == '$' && IsDigit(query[start + 1])
    requires before == Highest(query, start)
    ensures start < j && LoopHead(query, j) && maxIdx == Highest(query, j)
  {
    j := SkipDigits(query, start);
    maxIdx := before;
    var v := Decimal(query[start + 1..j]);
    if v <= MAX_INT && v > maxIdx {
      maxIdx := v;
    }
    PlaceholderFound(query, start, j);
  }

  method SkipDigits(query: string, start: nat) returns (j: nat)
    requires start + 1 < |query| && LoopHead(query, start) && query[start] == '$'
    ensures j == DigitsEnd(query, start + 1) && LoopHead(query, j)
  {
    ModeStep(query, start);
    j := start + 1;
    while j < |query| && IsDigit(query[j])
      invariant start < j <= |query| && ModeAt(query, j) == Code
      invariant DigitsEnd(query, start + 1) == DigitsEnd(query, j)
    {
      ModeStep(query, j);
      j := j + 1;
    }
  }

  lemma PlaceholderFound(s: string, i: nat, j: nat)
    requires i + 1 < |s| && s[i] == '$' && IsDigit(s[i + 1]) && j == DigitsEnd(s, i + 1)
    requires ModeAt(s, i).InCode()
    ensures var v := Decimal(s[i + 1..j]); Highest(s, j) == if v <= MAX_INT
        && v > Highest(s, i) then v else Highest(s, i)
  {
    HighestSkips(s, i + 1, j);
  }

  // ---- The first keyword ---------------------------------------------------

  const BLANKS := {' ', '\t', '\r', '\n'}

  function TrimLeft(s: string, cut: set<char>): (r: string)
    ensures |r| <= |s|
  {
    if s != [] && s[0] in cut then TrimLeft(s[1..], cut) else s
  }

  /** The first position at which `pat` occurs in `s`, or -1. */
  function Index(s: string, pat: string): (i: int)
    ensures i == -1 || 0 <= i <= i + |pat| <= |s|
  {
    if pat <= s then 0
    else if s == [] then -1
    else var i := Index(s[1..], pat); if i < 0 then -1 else i + 1
  }

  predicate IsASCIILetter(c: char) { 'a' <= c <= 'z' || 'A' <= c <= 'Z' }

  function Letters(s: string): string {
    if s != [] && IsASCIILetter(s[0]) then [Upper(s[0])] + Letters(s[1..]) else []
  }

  /** The first word of `stmt`, in upper case, after blanks and comments.  A block comment
      ends at the first star-slash even where that overlaps its opening slash-star. */
  function FirstKeyword(stmt: string): string
    decreases |stmt|
  {
    var s := TrimLeft(stmt, BLANKS);
    if "--" <= s then
      var k := Index(s, "\n");
      if k >= 0 then FirstKeyword(s[k + 1..]) else []
    else if "/*" <= s then
      var k := Index(s, "*/");
      if k >= 0 then FirstKeyword(s[k + 2..]) else []
    else Letters(s)
  }

  lemma TrimTwice(s: string)
    ensures TrimLeft(TrimLeft(s, BLANKS), BLANKS) == TrimLeft(s, BLANKS)
  {
  }

  /** cmd/execdb/access.go: firstKeyword. */
  method ScanFirstKeyword(stmt: string) returns (kw: string)
    ensures kw == FirstKeyword(stmt)
  {
    var s := stmt;
    while true
      invariant FirstKeyword(s) == FirstKeyword(stmt)
      decreases |s|
    {
      s := TrimLeft(s, BLANKS);
      TrimTwice(s);
      if "--" <= s {
        var k := Index(s, "\n");
        if k < 0 { return []; }
        s := s[k + 1..];
      } else if "/*" <= s {
        var k := Index(s, "*/");
        if k < 0 { return []; }
        s := s[k + 2..];
      } else {
        break;
      }
    }
    kw := [];
    var i := 0;
    while i < |s| && IsASCIILetter(s[i])
      invariant 0 <= i <= |s| && kw + Letters(s[i..]) == Letters(s)
    {
      kw := kw + [Upper(s[i])];
      i := i + 1;
    }
  }

  /** Whether a statement returns rows, judged by its keywords alone. */
  predicate RowReturning(stmt: string) {
    var kw := FirstKeyword(TrimLeft(stmt, {'('} + BLANKS));
    || kw in {"SELECT", "PRAGMA", "EXPLAIN", "VALUES", "WITH"}
    || (kw in {"INSERT", "UPDATE", "DELETE"} && HasReturning(stmt))
  }

  /** cmd/execdb/access.go: looksLikeRowReturning. */
  method LooksLikeRowReturning(stmt: string) returns (rows: bool)
    ensures rows <==> RowReturning(stmt)
  {
    var kw := ScanFirstKeyword(TrimLeft(stmt, {'('} + BLANKS));
    if kw in {"SELECT", "PRAGMA", "EXPLAIN", "VALUES", "WITH"} {
      return true;
    }
    if kw in {"INSERT", "UPDATE", "DELETE"} {
      rows := HasReturningClause(stmt);
      return;
    }
    return false;
  }
}
