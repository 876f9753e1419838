/** Keywords letter by letter: which characters of a text they are, in whatever letter case
    (cmd/execdb/access.go: firstKeyword, looksLikeRowReturning, hasReturningClause). */
module WordLaws {
  import opened SqlLexer
  import opened SqlKeywords
  import opened CodeWords

  // ---- Spelling ------------------------------------------------------------

  /** `c` is the capital `u` or its small letter. */
  predicate Folds(c: char, u: char) {
    'A' <= u <= 'Z' && (c == u || c as int == u as int + 32)
  }

  predicate IsLetter(c: char) { 'A' <= c <= 'Z' || 'a' <= c <= 'z' }

  /** The letters of `s` from `i` on, as many as there are, are those of `word`, which is all
      capitals. */
  predicate Spells(s: string, i: nat, word: string) {
    && i + |word| <= |s|
    && (forall j :: 0 <= j < |word| ==> Folds(s[i + j], word[j]))
    && (i + |word| < |s| ==> !IsLetter(s[i + |word|]))
  }

  lemma LetterAt(s: string, i: nat, word: string, k: nat)
    requires Spells(s, i, word) && k < |word|
    ensures IsLetter(s[i + k])
  {
    assert Folds(s[i + k], word[k]);
  }

  /** No other word is spelled there. */
  lemma SpelledOnce(s: string, i: nat, a: string, b: string)
    requires Spells(s, i, a) && Spells(s, i, b)
    ensures a == b
  {
    if |a| < |b| {
      LetterAt(s, i, b, |a|);
    } else if |b| < |a| {
      LetterAt(s, i, a, |b|);
    }
    forall j | 0 <= j < |a| ensures a[j] == b[j] {
      assert Folds(s[i + j], a[j]) && Folds(s[i + j], b[j]);
    }
  }

  lemma {:induction false} LettersSpell(s: string, i: nat)
    requires i <= |s|
    ensures Spells(s, i, Letters(s[i..]))
    decreases |s| - i
  {
    if i < |s| && IsASCIILetter(s[i]) {
      LettersSpell(s, i + 1);
      assert s[i..][1..] == s[i + 1..];
      var word := Letters(s[i..]);
      assert word == [Upper(s[i])] + Letters(s[i + 1..]);
      forall j | 0 <= j < |word| ensures Folds(s[i + j], word[j]) {
        if j > 0 {
          assert word[j] == Letters(s[i + 1..])[j - 1] && s[i + j] == s[i + 1 + (j - 1)];
        }
      }
      assert i + |word| == i + 1 + |Letters(s[i + 1..])|;
    }
  }

  /** The word of code is the one spelled at the first position of code, and no other. */
  lemma CodeWordSpelled(s: string, word: string)
    ensures CodeWord(s) == word <==> Spells(s, FirstCode(s, 0), word)
  {
    LettersSpell(s, FirstCode(s, 0));
    if Spells(s, FirstCode(s, 0), word) {
      SpelledOnce(s, FirstCode(s, 0), word, CodeWord(s));
    }
  }

  /** So is the first keyword, provided no comment in front of it opens with slash, star, slash:
      in capitals, whatever the letter case of the text, and all the letters there are. */
  lemma KeywordSpelled(s: string, word: string)
    requires Clear(s)
    ensures FirstKeyword(s) == word <==> Spells(s, FirstCode(s, 0), word)
  {
    KeywordIsCodeWord(s);
    CodeWordSpelled(s, word);
  }

  // ---- Letter case ---------------------------------------------------------

  predicate SameLetter(c: char, d: char) {
    || c == d
    || ('A' <= c <= 'Z' && d as int == c as int + 32)
    || ('A' <= d <= 'Z' && c as int == d as int + 32)
  }

  /** Two texts that differ in the case of ASCII letters alone. */
  predicate SameButCase(s: string, t: string) {
    |s| == |t| && forall i :: 0 <= i < |s| ==> SameLetter(s[i], t[i])
  }

  lemma DropSame(s: string, t: string, k: nat)
    requires SameButCase(s, t) && k <= |s|
    ensures SameButCase(s[k..], t[k..]) && SameButCase(s[..k], t[..k])
  {
  }

  lemma {:induction false} TrimIgnoresCase(s: string, t: string, cut: set<char>)
    requires SameButCase(s, t) && forall c :: c in cut ==> !IsLetter(c)
    ensures SameButCase(TrimLeft(s, cut), TrimLeft(t, cut))
  {
    if s != [] {
      assert SameLetter(s[0], t[0]);
      assert s[0] in cut <==> t[0] in cut;
      if s[0] in cut {
        DropSame(s, t, 1);
        TrimIgnoresCase(s[1..], t[1..], cut);
      }
    }
  }

  predicate Letterless(pat: string) { forall c :: c in pat ==> !IsLetter(c) }

  lemma PrefixIgnoresCase(s: string, t: string, pat: string)
    requires SameButCase(s, t) && Letterless(pat)
    ensures pat <= s <==> pat <= t
  {
    if |pat| <= |s| {
      forall i | 0 <= i < |pat| ensures s[i] == pat[i] <==> t[i] == pat[i] {
        assert SameLetter(s[i], t[i]) && pat[i] in pat;
      }
      assert pat <= s <==> forall i :: 0 <= i < |pat| ==> s[i] == pat[i];
      assert pat <= t <==> forall i :: 0 <= i < |pat| ==> t[i] == pat[i];
    }
  }

  lemma {:induction false} IndexIgnoresCase(s: string, t: string, pat: string)
    requires SameButCase(s, t) && Letterless(pat)
    ensures Index(s, pat) == Index(t, pat)
  {
    PrefixIgnoresCase(s, t, pat);
    if !(pat <= s) && s != [] {
      DropSame(s, t, 1);
      IndexIgnoresCase(s[1..], t[1..], pat);
    }
  }

  lemma {:induction false} LettersIgnoreCase(s: string, t: string)
    requires SameButCase(s, t)
    ensures Letters(s) == Letters(t)
  {
    if s != [] {
      assert SameLetter(s[0], t[0]);
      DropSame(s, t, 1);
      LettersIgnoreCase(s[1..], t[1..]);
    }
  }

  /** The first keyword of a text does not depend on the text's letter case. */
  lemma {:induction false} KeywordIgnoresCase(s: string, t: string)
    requires SameButCase(s, t)
    ensures FirstKeyword(s) == FirstKeyword(t)
    decreases |s|
  {
    TrimIgnoresCase(s, t, BLANKS);
    var (a, b) := (TrimLeft(s, BLANKS), TrimLeft(t, BLANKS));
    CommentsIgnoreCase(a, b);
    if "--" <= a {
      var k := Index(a, "\n");
      if k >= 0 {
        DropSame(a, b, k + 1);
        KeywordIgnoresCase(a[k + 1..], b[k + 1..]);
      }
    } else if "/*" <= a {
      var k := Index(a, "*/");
      if k >= 0 {
        DropSame(a, b, k + 2);
        KeywordIgnoresCase(a[k + 2..], b[k + 2..]);
      }
    } else {
      LettersIgnoreCase(a, b);
    }
  }

  lemma CommentsIgnoreCase(a: string, b: string)
    requires SameButCase(a, b)
    ensures ("--" <= a <==> "--" <= b) && ("/*" <= a <==> "/*" <= b)
    ensures Index(a, "\n") == Index(b, "\n") && Index(a, "*/") == Index(b, "*/")
  {
    PrefixIgnoresCase(a, b, "--");
    PrefixIgnoresCase(a, b, "/*");
    IndexIgnoresCase(a, b, "\n");
    IndexIgnoresCase(a, b, "*/");
  }

  // ---- Row-returning statements --------------------------------------------

  predicate InWord(c: char) { IsLetter(c) || '0' <= c <= '9' || c == '_' }

  /** The letters from `i` on are those of `word`, with no letter, digit or underscore on
      either side. */
  predicate StandsAlone(s: string, i: nat, word: string) {
    && i + |word| <= |s|
    && (forall j :: 0 <= j < |word| ==> Folds(s[i + j], word[j]))
    && (i > 0 ==> !InWord(s[i - 1]))
    && (i + |word| < |s| ==> !InWord(s[i + |word|]))
  }

  lemma StandsIsWordAt(s: string, i: nat, word: string)
    requires forall c :: c in word ==> 'A' <= c <= 'Z'
    ensures WordAt(s, i, word) <==> StandsAlone(s, i, word)
  {
    if i + |word| <= |s| {
      forall j | 0 <= j < |word| ensures Upper(s[i + j]) == word[j] <==> Folds(s[i + j], word[j]) {
        assert word[j] in word;
      }
    }
  }

  /** The text behind its leading blanks and opening parentheses. */
  ghost predicate Unwraps(stmt: string, k: nat) {
    && k <= |stmt| && (forall i :: 0 <= i < k ==> stmt[i] in [' ', '\t', '\r', '\n', '('])
    && (k < |stmt| ==> stmt[k] !in [' ', '\t', '\r', '\n', '('])
  }

  lemma {:induction false} UnwrapsTo(stmt: string, k: nat)
    requires Unwraps(stmt, k)
    ensures TrimLeft(stmt, {'('} + BLANKS) == stmt[k..]
  {
    if k > 0 {
      assert stmt[0] in [' ', '\t', '\r', '\n', '('];
      UnwrapsTo(stmt[1..], k - 1);
      assert stmt[1..][k - 1..] == stmt[k..];
    } else {
      assert stmt[0..] == stmt;
    }
  }

  const QUERIES := ["SELECT", "PRAGMA", "EXPLAIN", "VALUES", "WITH"]
  const CHANGES := ["INSERT", "UPDATE", "DELETE"]

  /** RETURNING stands somewhere in the code of the text, in whatever letter case. */
  ghost predicate ReturnsRows(stmt: string) {
    exists i :: 0 <= i < |stmt| && ModeAt(stmt, i).InCode() && StandsAlone(stmt, i, "RETURNING")
  }

  /** The letters from `i` on spell one of these words. */
  ghost predicate SpellsOne(s: string, i: nat, words: seq<string>) {
    exists word :: word in words && Spells(s, i, word)
  }

  /** A statement returns rows if and only if its first word, behind any opening parentheses, is
      that of a query, or that of a change with a RETURNING in its code. */
  lemma RowsMean(stmt: string, k: nat, at: nat)
    requires Unwraps(stmt, k) && Clear(stmt[k..]) && at == FirstCode(stmt[k..], 0)
    ensures RowReturning(stmt) <==>
              SpellsOne(stmt[k..], at, QUERIES) || (SpellsOne(stmt[k..], at, CHANGES) && ReturnsRows(stmt))
  {
    UnwrapsTo(stmt, k);
    var kw := FirstKeyword(stmt[k..]);
    KeywordSpelled(stmt[k..], kw);
    SpelledIn(stmt[k..], at, kw, QUERIES);
    SpelledIn(stmt[k..], at, kw, CHANGES);
    ReturningMeans(stmt);
    RowKeywords(stmt, kw);
  }

  lemma RowKeywords(stmt: string, kw: string)
    requires FirstKeyword(TrimLeft(stmt, {'('} + BLANKS)) == kw
    ensures RowReturning(stmt) <==> kw in QUERIES || (kw in CHANGES && HasReturning(stmt))
  {
  }

  lemma SpelledIn(s: string, at: nat, kw: string, words: seq<string>)
    requires Spells(s, at, kw)
    ensures kw in words <==> SpellsOne(s, at, words)
  {
    forall word | word in words && Spells(s, at, word) ensures word == kw {
      SpelledOnce(s, at, word, kw);
    }
  }

  lemma ReturningMeans(stmt: string)
    ensures HasReturning(stmt) <==> ReturnsRows(stmt)
  {
    forall i | 0 <= i < |stmt|
      ensures ReturningAt(stmt, i) <==> ModeAt(stmt, i).InCode() && StandsAlone(stmt, i, "RETURNING")
    {
      StandsIsWordAt(stmt, i, "RETURNING");
    }
  }
}
