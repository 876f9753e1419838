/** The first word of a statement as the lexer of `SqlLexer` sees it, and when that is the
    first keyword the program reads (cmd/execdb/access.go: firstKeyword). */
module CodeWords {
  import opened SqlLexer
  import opened SqlKeywords

  /** Position `i` opens a comment: the next two characters are its opening. */
  predicate Opens(s: string, i: nat) {
    i + 1 < |s| && ModeAt(s, i).InCode() && ModeAt(s, i + 1) in {Dash, Slash} && ModeAt(s, i + 2) in {Line, Block}
  }

  /** A character of code that is neither blank nor part of a comment's opening. */
  predicate Significant(s: string, i: nat)
    requires i < |s|
  {
    ModeAt(s, i).InCode() && s[i] !in BLANKS && !Opens(s, i) && ModeAt(s, i + 1) !in {Line, Block}
  }

  /** The first significant position from `i` on, or the end. */
  function FirstCode(s: string, i: nat): (k: nat)
    requires i <= |s|
    ensures i <= k <= |s| && (forall j :: i <= j < k ==> !Significant(s, j)) && (k < |s| ==> Significant(s, k))
    decreases |s| - i
  {
    if i == |s| then i else if Significant(s, i) then i else FirstCode(s, i + 1)
  }

  /** The word a text starts with, once blanks and comments are taken away. */
  function CodeWord(s: string): string { Letters(s[FirstCode(s, 0)..]) }

  /** No comment in front of that word opens with slash, star, slash. */
  predicate Clear(s: string) {
    forall i :: 0 <= i < FirstCode(s, 0) && Opens(s, i) ==> !("/*/" <= s[i..])
  }

  // ---- Taking away what is not code ----------------------------------------

  /** A stretch without significant characters that leaves the lexer in plain code. */
  ghost predicate Silent(p: string) {
    Run(Code, p) == Code && forall i :: 0 <= i < |p| ==> !Significant(p, i)
  }

  lemma ModeShifts(p: string, t: string, s: string, i: nat, k: nat)
    requires Run(Code, p) == Code && i <= |t| && s == p + t && k == |p| + i
    ensures ModeAt(s, k) == ModeAt(t, i)
  {
    assert s[..k] == p + t[..i];
    RunAppend(Code, p, t[..i]);
  }

  lemma ModeWithin(p: string, t: string, i: nat)
    requires i <= |p|
    ensures ModeAt(p + t, i) == ModeAt(p, i)
  {
    assert (p + t)[..i] == p[..i];
  }

  lemma OpensShifts(p: string, t: string, s: string, i: nat, k: nat)
    requires Run(Code, p) == Code && i <= |t| && s == p + t && k == |p| + i
    ensures Opens(s, k) <==> Opens(t, i)
  {
    if i + 1 < |t| {
      ThreeShift(p, t, s, i, k);
    }
  }

  lemma ThreeShift(p: string, t: string, s: string, i: nat, k: nat)
    requires Run(Code, p) == Code && i + 1 < |t| && s == p + t && k == |p| + i
    ensures ModeAt(s, k) == ModeAt(t, i) && ModeAt(s, k + 1) == ModeAt(t, i + 1) && ModeAt(s, k + 2) == ModeAt(t, i + 2)
  {
    ModeShifts(p, t, s, i, k);
    ModeShifts(p, t, s, i + 1, k + 1);
    ModeShifts(p, t, s, i + 2, k + 2);
  }

  lemma SignificanceShifts(p: string, t: string, s: string, i: nat, k: nat)
    requires Run(Code, p) == Code && i < |t| && s == p + t && k == |p| + i
    ensures Significant(s, k) <==> Significant(t, i)
  {
    OpensShifts(p, t, s, i, k);
    ModeShifts(p, t, s, i, k);
    ModeShifts(p, t, s, i + 1, k + 1);
  }

  /** Within a stretch that ends in plain code nothing depends on what follows. */
  lemma SignificanceStays(p: string, t: string, i: nat)
    requires Run(Code, p) == Code && i < |p|
    ensures Opens(p + t, i) <==> Opens(p, i)
    ensures Significant(p + t, i) <==> Significant(p, i)
  {
    ModeWithin(p, t, i);
    ModeWithin(p, t, i + 1);
    if i + 2 <= |p| {
      ModeWithin(p, t, i + 2);
    } else {
      assert p[..i + 1] == p;
    }
  }

  lemma {:induction false} FirstCodeIs(s: string, i: nat, k: nat)
    requires i <= k <= |s| && (forall j :: i <= j < k ==> !Significant(s, j)) && (k < |s| ==> Significant(s, k))
    ensures FirstCode(s, i) == k
    decreases k - i
  {
    if i < k {
      assert !Significant(s, i);
      FirstCodeIs(s, i + 1, k);
    }
  }

  /** A silent stretch in front changes neither the word nor, but for its own comments,
      whether the text is clear. */
  lemma SilentInFront(p: string, t: string)
    requires Silent(p)
    ensures FirstCode(p + t, 0) == |p| + FirstCode(t, 0)
    ensures CodeWord(p + t) == CodeWord(t)
    ensures Clear(p + t) ==> Clear(t)
  {
    var s, k := p + t, FirstCode(t, 0);
    forall j | 0 <= j < |p| + k ensures !Significant(s, j) {
      if j < |p| { SignificanceStays(p, t, j); } else { SignificanceShifts(p, t, s, j - |p|, j); }
    }
    if k < |t| { SignificanceShifts(p, t, s, k, |p| + k); }
    FirstCodeIs(s, 0, |p| + k);
    assert s[|p| + k..] == t[k..];
    if Clear(s) {
      forall i | 0 <= i < k && Opens(t, i) ensures !("/*/" <= t[i..]) {
        OpensShifts(p, t, s, i, |p| + i);
        assert s[|p| + i..] == t[i..];
      }
    }
  }

  lemma {:induction false} BlanksAreSilent(p: string)
    requires forall c :: c in p ==> c in BLANKS
    ensures Silent(p)
  {
    if p != [] {
      var k := |p| - 1;
      assert p[k] in p;
      forall c | c in p[..k] ensures c in BLANKS { assert c in p; }
      BlanksAreSilent(p[..k]);
    }
    forall i | 0 <= i < |p| ensures !Significant(p, i) { assert p[i] in p; }
  }

  lemma {:induction false} TrimmedOff(s: string)
    ensures var t := TrimLeft(s, BLANKS);
            && s[|s| - |t|..] == t && (t == [] || t[0] !in BLANKS)
            && forall i :: 0 <= i < |s| - |t| ==> s[i] in BLANKS
  {
    if s != [] && s[0] in BLANKS {
      TrimmedOff(s[1..]);
      var k := |s| - |TrimLeft(s, BLANKS)|;
      assert s[k..] == s[1..][k - 1..];
      assert forall i :: 0 < i < k ==> s[i] == s[1..][i - 1];
    }
  }

  // ---- Comments ------------------------------------------------------------

  /** Inside a line comment up to its newline. */
  lemma {:induction false} InLine(s: string, i: nat)
    requires "--" <= s && 2 <= i <= |s| && forall j :: 2 <= j < i ==> s[j] != '\n'
    ensures ModeAt(s, 1) == Dash && ModeAt(s, 2) == Line && ModeAt(s, i) == Line
  {
    Opening(s, '-');
    if i > 2 {
      InLine(s, i - 1);
      ModeStep(s, i - 1);
    }
  }

  lemma Opening(s: string, c: char)
    requires |s| >= 2 && ((s[0] == s[1] == '-' == c) || (s[0] == '/' == c && s[1] == '*'))
    ensures ModeAt(s, 0) == Code
    ensures c == '-' ==> ModeAt(s, 1) == Dash && ModeAt(s, 2) == Line
    ensures c == '/' ==> ModeAt(s, 1) == Slash && ModeAt(s, 2) == Block
  {
    assert s[..0] == [];
    ModeStep(s, 0);
    ModeStep(s, 1);
  }

  /** No star-slash starts in `s` at `from` or later, before `to`. */
  predicate Unclosed(s: string, from: nat, to: nat) {
    forall j :: from <= j < to && j + 1 < |s| ==> !(s[j] == '*' && s[j + 1] == '/')
  }

  /** Inside a block comment up to its first star-slash that does not use the opening star. */
  lemma {:induction false} InComment(s: string, i: nat)
    requires "/*" <= s && 2 <= i <= |s| && Unclosed(s, 2, i - 1)
    ensures ModeAt(s, i) == if i > 2 && s[i - 1] == '*' then BlockStar else Block
  {
    Opening(s, '/');
    if i > 2 {
      InComment(s, i - 1);
      ModeStep(s, i - 1);
      assert i > 3 ==> !(s[i - 2] == '*' && s[i - 1] == '/');
    }
  }

  /** The first `pat` in `s`. */
  lemma {:induction false} IndexIsFirst(s: string, pat: string)
    requires pat != []
    ensures var k := Index(s, pat);
            && (k >= 0 ==> pat <= s[k..])
            && forall j :: 0 <= j < (if k >= 0 then k else |s|) ==> !(pat <= s[j..])
  {
    if !(pat <= s) && s != [] {
      IndexIsFirst(s[1..], pat);
      var k := Index(s, pat);
      forall j | 0 <= j < (if k >= 0 then k else |s|) ensures !(pat <= s[j..]) {
        if j > 0 {
          assert s[j..] == s[1..][j - 1..];
        }
      }
      if k >= 0 {
        assert s[k..] == s[1..][k - 1..];
      }
    }
  }

  lemma NoNewline(s: string, k: int)
    requires k == Index(s, "\n")
    ensures k >= 0 ==> k < |s| && s[k] == '\n'
    ensures forall j :: 0 <= j < (if k >= 0 then k else |s|) ==> s[j] != '\n'
  {
    IndexIsFirst(s, "\n");
    forall j | 0 <= j < (if k >= 0 then k else |s|) ensures s[j] != '\n' {
      var r := s[j..];
      assert ("\n" <= r) == (r[0] == '\n');
    }
  }

  lemma NoClosing(s: string, k: int)
    requires k == Index(s, "*/")
    ensures k >= 0 ==> k + 2 <= |s| && s[k] == '*' && s[k + 1] == '/'
    ensures Unclosed(s, 0, if k >= 0 then k else |s|)
  {
    IndexIsFirst(s, "*/");
    if k >= 0 {
      assert s[k..][0] == '*' && s[k..][1] == '/';
    }
    forall j | 0 <= j < (if k >= 0 then k else |s|) && j + 1 < |s| ensures !(s[j] == '*' && s[j + 1] == '/') {
      var r := s[j..];
      assert ("*/" <= r) == (r[0] == '*' && r[1] == '/');
    }
  }

  /** A whole line comment, with its newline, is silent. */
  lemma LineIsSilent(p: string)
    requires "--" <= p && |p| > 2 && p[|p| - 1] == '\n' && forall j :: 2 <= j < |p| - 1 ==> p[j] != '\n'
    ensures Silent(p)
  {
    NothingInLine(p, |p| - 1);
    InLine(p, |p| - 1);
    ModeStep(p, |p| - 1);
    assert p[..|p|] == p;
  }

  lemma NothingInLine(s: string, n: nat)
    requires "--" <= s && 2 <= n <= |s| && forall j :: 2 <= j < n ==> s[j] != '\n'
    ensures forall i :: 0 <= i < n || (i == n && n < |s|) ==> !Significant(s, i)
  {
    InLine(s, 2);
    forall i | 0 <= i < n || (i == n && n < |s|) ensures !Significant(s, i) {
      if i >= 2 { InLine(s, i); }
    }
  }

  /** A whole block comment is silent, up to its first star-slash after the opening. */
  lemma CommentIsSilent(p: string)
    requires "/*" <= p && |p| >= 4 && p[|p| - 2] == '*' && p[|p| - 1] == '/' && Unclosed(p, 2, |p| - 2)
    ensures Silent(p)
  {
    var n := |p| - 1;
    NothingInComment(p, n);
    InComment(p, n);
    ModeStep(p, n);
    assert p[..|p|] == p;
  }

  lemma NothingInComment(s: string, n: nat)
    requires "/*" <= s && 2 <= n <= |s| && Unclosed(s, 2, n - 1)
    ensures forall i :: 0 <= i < n || (i == n && n < |s|) ==> !Significant(s, i)
  {
    Opening(s, '/');
    forall i | 0 <= i < n || (i == n && n < |s|) ensures !Significant(s, i) {
      if i >= 2 { InComment(s, i); }
    }
  }

  // ---- The keyword is the word ---------------------------------------------

  lemma StartModes(s: string)
    requires s != []
    ensures ModeAt(s, 0) == Code && ModeAt(s, 1) == Next(Code, s[0])
    ensures |s| > 1 ==> ModeAt(s, 2) == Next(Next(Code, s[0]), s[1])
  {
    assert s[..0] == [];
    ModeStep(s, 0);
    if |s| > 1 {
      ModeStep(s, 1);
    }
  }

  predicate StartsComment(s: string) {
    |s| > 1 && ((s[0] == '-' && s[1] == '-') || (s[0] == '/' && s[1] == '*'))
  }

  lemma StartIsSignificant(s: string)
    requires s != [] && s[0] !in BLANKS && !StartsComment(s)
    ensures Significant(s, 0)
  {
    StartModes(s);
  }

  /** A text that starts with neither blank nor comment. */
  lemma StartsWithCode(s: string)
    requires s != [] ==> s[0] !in BLANKS && !StartsComment(s)
    ensures CodeWord(s) == Letters(s) && Clear(s)
  {
    if s != [] {
      StartIsSignificant(s);
      FirstCodeIs(s, 0, 0);
    }
    assert s[0..] == s;
  }

  lemma NoCode(s: string)
    requires forall i :: 0 <= i < |s| ==> !Significant(s, i)
    ensures CodeWord(s) == []
  {
    FirstCodeIs(s, 0, |s|);
  }

  /** The keyword the program reads is the first word of code, provided no comment in front of
      that opens with slash, star, slash. */
  lemma {:induction false} KeywordIsCodeWord(stmt: string)
    requires Clear(stmt)
    ensures FirstKeyword(stmt) == CodeWord(stmt)
    decreases |stmt|
  {
    TrimmedOff(stmt);
    var s := TrimLeft(stmt, BLANKS);
    var p := stmt[..|stmt| - |s|];
    assert stmt == p + s;
    BlanksAreSilent(p);
    SilentInFront(p, s);
    if "--" <= s {
      AfterLine(s);
    } else if "/*" <= s {
      AfterComment(s);
    } else {
      NoCommentStart(s);
      StartsWithCode(s);
    }
  }

  lemma NoCommentStart(s: string)
    requires !("--" <= s) && !("/*" <= s)
    ensures !StartsComment(s)
  {
    if |s| > 1 {
      assert ("--" <= s) == (s[0] == '-' && s[1] == '-');
      assert ("/*" <= s) == (s[0] == '/' && s[1] == '*');
    }
  }

  lemma AfterLine(s: string)
    requires "--" <= s && Clear(s)
    ensures CodeWord(s) == var k := Index(s, "\n"); if k >= 0 then FirstKeyword(s[k + 1..]) else []
    decreases |s|, 1
  {
    var k := Index(s, "\n");
    NoNewline(s, k);
    if k >= 0 {
      AfterNewline(s, k);
    } else {
      UnendedLine(s);
    }
  }

  lemma UnendedLine(s: string)
    requires "--" <= s && forall j :: 0 <= j < |s| ==> s[j] != '\n'
    ensures CodeWord(s) == []
  {
    NothingInLine(s, |s|);
    NoCode(s);
  }

  lemma AfterNewline(s: string, k: nat)
    requires "--" <= s && Clear(s) && k < |s| && s[k] == '\n' && forall j :: 0 <= j < k ==> s[j] != '\n'
    ensures CodeWord(s) == FirstKeyword(s[k + 1..])
    decreases |s|, 0
  {
    var p, t := s[..k + 1], s[k + 1..];
    assert s == p + t && k >= 2;
    LineInFront(s, p, t);
    KeywordIsCodeWord(t);
  }

  lemma LineInFront(s: string, p: string, t: string)
    requires s == p + t && "--" <= s && |p| > 2 && p[|p| - 1] == '\n' && Clear(s)
    requires forall j :: 0 <= j < |p| - 1 ==> p[j] != '\n'
    ensures CodeWord(s) == CodeWord(t) && Clear(t)
  {
    assert p[0] == s[0] && p[1] == s[1];
    LineIsSilent(p);
    SilentInFront(p, t);
  }

  lemma AfterComment(s: string)
    requires "/*" <= s && Clear(s)
    ensures CodeWord(s) == var k := Index(s, "*/"); if k >= 0 then FirstKeyword(s[k + 2..]) else []
    decreases |s|, 0
  {
    var k := Index(s, "*/");
    NoClosing(s, k);
    Opening(s, '/');
    assert s[0..] == s;
    if k >= 0 {
      FirstComment(s);
      var p, t := s[..k + 2], s[k + 2..];
      assert s == p + t;
      CommentIsSilent(p);
      SilentInFront(p, t);
      KeywordIsCodeWord(t);
    } else {
      NothingInComment(s, |s|);
      NoCode(s);
    }
  }

  /** A clear text that starts with a comment starts with one that closes after its opening. */
  lemma FirstComment(s: string)
    requires "/*" <= s && Clear(s) && |s| > 2
    ensures s[2] != '/'
  {
    Opening(s, '/');
    assert s[0..] == s && Opens(s, 0) && !Significant(s, 0);
    assert ("/*/" <= s) == (s[2] == '/');
  }

  // ---- When it is not ------------------------------------------------------

  /** After slash, star, slash the program reads on inside the comment, while the lexer leaves
      it at the star-slash that closes it: such a text is read rightly if and only if what is
      inside happens to start with the word that follows the comment. */
  lemma MisreadComment(inside: string, after: string)
    requires Index(inside + "*/", "*/") == |inside|
    ensures var s := "/*/" + inside + "*/" + after;
            && FirstKeyword(s) == FirstKeyword(inside + "*/" + after) && CodeWord(s) == CodeWord(after)
            && !Clear(s)
  {
    var s := "/*/" + inside + "*/" + after;
    var p := "/*/" + inside + "*/";
    assert s == p + after && s == "/*/" + (inside + "*/" + after);
    WholeComment(inside, p);
    SilentInFront(p, after);
    NotClear(s, |p|);
    ReadsInside(s, inside + "*/" + after);
  }

  lemma WholeComment(inside: string, p: string)
    requires Index(inside + "*/", "*/") == |inside| && p == "/*/" + inside + "*/"
    ensures Silent(p)
  {
    NoClosing(inside + "*/", |inside|);
    assert forall j :: 3 <= j < |p| ==> p[j] == (inside + "*/")[j - 3];
    assert Unclosed(p, 2, |p| - 2);
    CommentIsSilent(p);
  }

  lemma NotClear(s: string, n: nat)
    requires "/*/" <= s && FirstCode(s, 0) >= n > 0
    ensures !Clear(s)
  {
    Opening(s, '/');
    assert s[0..] == s && Opens(s, 0);
  }

  lemma ReadsInside(s: string, rest: string)
    requires s == "/*/" + rest
    ensures FirstKeyword(s) == FirstKeyword(rest)
  {
    assert s[0] == '/' && s[1..] == "*/" + rest;
    assert s[0] != "*/"[0];
    assert Index(s[1..], "*/") == 0;
    assert Index(s, "*/") == 1;
    assert TrimLeft(s, BLANKS) == s && !("--" <= s) && "/*" <= s;
    assert s[3..] == rest;
  }

  // ---- The first of several statements -------------------------------------

  lemma {:induction false} LettersStop(a: string, rest: string)
    requires rest != [] && !IsASCIILetter(rest[0])
    ensures Letters(a + rest) == Letters(a)
  {
    if a == [] {
      assert a + rest == rest;
    } else {
      assert (a + rest)[1..] == a[1..] + rest;
      LettersStop(a[1..], rest);
    }
  }

  /** What a `;` read in code cuts off starts with the same word as the whole text. */
  lemma CutKeepsWord(x: string, y: string, s: string)
    requires Run(Code, x).InCode() && s == x + ";" + y
    ensures FirstCode(s, 0) == FirstCode(x, 0) && CodeWord(s) == CodeWord(x)
  {
    var k := FirstCode(x, 0);
    CutKeepsFirst(x, y, s, k);
    assert s[k..] == x[k..] + (";" + y);
    LettersStop(x[k..], ";" + y);
  }

  lemma CutKeepsFirst(x: string, y: string, s: string, k: nat)
    requires Run(Code, x).InCode() && s == x + ";" + y && k == FirstCode(x, 0)
    ensures FirstCode(s, 0) == k
  {
    forall j | 0 <= j < k ensures !Significant(s, j) { BeforeCut(x, y, s, j); }
    if k < |x| { BeforeCut(x, y, s, k); } else { CutIsSignificant(x, y, s); }
    FirstCodeIs(s, 0, k);
  }

  /** And it is clear if and only if the whole text is. */
  lemma CutKeepsClear(x: string, y: string, s: string)
    requires Run(Code, x).InCode() && s == x + ";" + y
    ensures Clear(s) <==> Clear(x)
  {
    var k := FirstCode(x, 0);
    CutKeepsFirst(x, y, s, k);
    forall j | 0 <= j < k
      ensures Opens(s, j) && "/*/" <= s[j..] <==> Opens(x, j) && "/*/" <= x[j..]
    {
      OpensBeforeCut(x, y, s, j);
      assert s[j..] == x[j..] + (";" + y);
      if Opens(x, j) { OpeningWithin(x[j..], ";" + y); }
    }
  }

  lemma OpeningWithin(a: string, rest: string)
    requires |a| >= 2 && rest != [] && rest[0] != '/'
    ensures "/*/" <= a + rest <==> "/*/" <= a
  {
    assert forall i :: 0 <= i < |a| ==> (a + rest)[i] == a[i];
    assert (a + rest)[|a|] == rest[0];
    assert ("/*/" <= a + rest)
        == (|a + rest| >= 3 && (a + rest)[0] == '/' && (a + rest)[1] == '*' && (a + rest)[2] == '/');
    assert ("/*/" <= a) == (|a| >= 3 && a[0] == '/' && a[1] == '*' && a[2] == '/');
  }

  lemma ModeBeforeCut(x: string, y: string, s: string, j: nat)
    requires s == x + ";" + y && j <= |x|
    ensures ModeAt(s, j) == ModeAt(x, j)
  {
    assert s[..j] == x[..j];
  }

  lemma OpensBeforeCut(x: string, y: string, s: string, j: nat)
    requires Run(Code, x).InCode() && s == x + ";" + y && j < |x|
    ensures Opens(s, j) <==> Opens(x, j)
  {
    ModeBeforeCut(x, y, s, j);
    ModeBeforeCut(x, y, s, j + 1);
    if j + 2 <= |x| {
      ModeBeforeCut(x, y, s, j + 2);
    } else {
      AtCut(x, y, s);
    }
  }

  lemma BeforeCut(x: string, y: string, s: string, j: nat)
    requires Run(Code, x).InCode() && s == x + ";" + y && j < |x|
    ensures Significant(s, j) <==> Significant(x, j)
  {
    OpensBeforeCut(x, y, s, j);
    ModeBeforeCut(x, y, s, j);
    ModeBeforeCut(x, y, s, j + 1);
  }

  lemma AtCut(x: string, y: string, s: string)
    requires Run(Code, x).InCode() && s == x + ";" + y
    ensures ModeAt(s, |x|).InCode() && ModeAt(s, |x| + 1) == Code
  {
    assert s[..|x|] == x && s[|x|] == ';';
    ModeStep(s, |x|);
  }

  lemma CutIsSignificant(x: string, y: string, s: string)
    requires Run(Code, x).InCode() && s == x + ";" + y
    ensures Significant(s, |x|)
  {
    AtCut(x, y, s);
    assert s[|x|] == ';';
  }

  /** The first piece of a text starts with the word the text starts with. */
  lemma FirstPieceWord(s: string)
    ensures var p := Split(s);
            var first := if p.complete != [] then p.complete[0] else p.remainder;
            CodeWord(first) == CodeWord(s) && (Clear(first) <==> Clear(s))
  {
    var p := Split(s);
    SplitConserves(s);
    SplitIsWell(s);
    if p.complete != [] {
      assert p.complete[0] in p.complete;
      CutKeepsWord(p.complete[0], Glue(p.complete[1..], p.remainder), s);
      CutKeepsClear(p.complete[0], Glue(p.complete[1..], p.remainder), s);
    }
  }
}
