/** Statements without literals, comments or `;`, such as the examples are made of. */
module PlainTexts {
  import opened Blanks
  import opened SqlLexer
  import opened SqlKeywords
  import opened Connection

  const SPECIAL := {';', '\'', '"', '-', '/'}

  /** A keyword in capitals, and what follows it. */
  predicate IsPlain(word: string, rest: string) {
    && word != [] && (forall c :: c in word ==> 'A' <= c <= 'Z')
    && (rest != [] ==> rest[0] == ' ' && !IsSpace(rest[|rest| - 1]))
    && forall c :: c in rest ==> c !in SPECIAL
  }

  lemma {:induction false} StaysCode(s: string)
    requires forall c :: c in s ==> c !in SPECIAL
    ensures SqlLexer.Run(Code, s) == Code && Uncut(s)
  {
    if s != [] {
      var k := |s| - 1;
      assert s[k] in s;
      forall c | c in s[..k] ensures c !in SPECIAL { assert c in s; }
      StaysCode(s[..k]);
      AppendUncut(s[..k], s[k]);
      assert s[..k] + [s[k]] == s;
    }
  }

  lemma {:induction false} LettersOfWord(word: string, rest: string)
    requires (forall c :: c in word ==> 'A' <= c <= 'Z') && (rest != [] ==> !IsASCIILetter(rest[0]))
    ensures Letters(word + rest) == word
  {
    if word == [] {
      assert word + rest == rest;
    } else {
      assert word[0] in word && (word + rest)[1..] == word[1..] + rest;
      forall c | c in word[1..] ensures 'A' <= c <= 'Z' { assert c in word; }
      LettersOfWord(word[1..], rest);
    }
  }

  lemma PlainKeyword(word: string, rest: string)
    requires IsPlain(word, rest)
    ensures var s := word + rest; FirstKeyword(s) == word && FirstKeyword(TrimLeft(s, {'('} + BLANKS)) == word
  {
    var s := word + rest;
    assert s[0] == word[0] && word[0] in word;
    assert !("--" <= s) && !("/*" <= s);
    LettersOfWord(word, rest);
  }

  lemma PlainTrimmed(s: string)
    requires s != [] && !IsSpace(s[0]) && !IsSpace(s[|s| - 1])
    ensures TrimSpace(s) == s && !Blank(s)
  {
    assert s[0] in s;
  }

  lemma PlainSplit(s: string)
    requires !Blank(s) && forall c :: c in s ==> c !in SPECIAL
    ensures StatementsOf(s) == [s]
  {
    StaysCode(s);
    SplitUncut(s);
  }

  /** Such a text is one statement, trimmed, with the word for its keyword. */
  lemma PlainStatement(word: string, rest: string)
    requires IsPlain(word, rest)
    ensures var s := word + rest; StatementsOf(s) == [s] && TrimSpace(s) == s && !Blank(s)
  {
    var s := word + rest;
    assert word[0] in word && word[|word| - 1] in word;
    assert s[0] == word[0];
    assert s[|s| - 1] == (if rest == [] then word[|word| - 1] else rest[|rest| - 1]);
    PlainTrimmed(s);
    forall c | c in s ensures c !in SPECIAL {
      assert c in word || c in rest;
    }
    PlainSplit(s);
  }

  /** The whole of it may pass the access check, and its classification is that of the word. */
  lemma PlainClassified(word: string, rest: string)
    requires IsPlain(word, rest) && word !in {"INSERT", "UPDATE", "DELETE"}
    ensures var s := word + rest;
            && (Allowed(s) <==> word !in DENIED)
            && Classify(s) == Stmt(s, s, word, word in {"SELECT", "PRAGMA", "EXPLAIN", "VALUES", "WITH"})
  {
    var s := word + rest;
    PlainStatement(word, rest);
    PlainKeyword(word, rest);
    assert s in StatementsOf(s);
  }
}
