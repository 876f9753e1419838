/** What the keyword guards come to: the guard of failed transactions and the access check,
    in terms of the statements and words of code in a text (cmd/execdb/access.go,
    cmd/execdb/pgwire.go, cmd/execdb/pgextended.go). */
module GuardLaws {
  import opened Blanks
  import opened SqlLexer
  import opened SqlKeywords
  import opened CodeWords
  import opened WordLaws
  import opened Sqlite
  import opened Options
  import opened Protocol
  import opened Connection
  import opened PlainTexts
  import opened TransactionLaws

  // ---- Failed transactions -------------------------------------------------

  /** The statements in what was handed over. */
  function Statements(via: Via, sql: string): seq<string> {
    if via.ByQuery? then [TrimSpace(sql)] else StatementsOf(sql)
  }

  predicate AllEnd(stmts: seq<string>) {
    forall stmt :: stmt in stmts ==> Ends(CodeWord(stmt))
  }

  lemma WordMeansText(s: string)
    requires CodeWord(s) != []
    ensures !Blank(s)
  {
    var k := FirstCode(s, 0);
    assert IsASCIILetter(s[k..][0]) && s[k] in s;
  }

  /** The statement a text starts with, if it starts with a word. */
  lemma FirstStatementWord(sql: string)
    requires CodeWord(sql) != []
    ensures StatementsOf(sql) != [] && CodeWord(StatementsOf(sql)[0]) == CodeWord(sql)
  {
    WordMeansText(sql);
    FirstPieceWord(sql);
    SplitConserves(sql);
  }

  /** What Query and Execute hand over in a failed transaction starts with a statement that
      ends it, if no comment in front of that opens with slash, star, slash.  So all that is
      handed over ends it if and only if the statements after the first do: always for a Query,
      and for a prepared text of one statement. */
  lemma FailedIsLeft(e: Sent)
    requires e.Statement? && Fair(e) && e.tx == 'E' && !e.via.ByDescribe? && Clear(TextRead(e.via, e.sql))
    ensures var stmts := Statements(e.via, e.sql);
            && stmts != [] && Ends(CodeWord(stmts[0]))
            && (AllEnd(stmts) <==> AllEnd(stmts[1..]))
            && (|stmts| == 1 ==> AllEnd(stmts))
            && (e.via.ByQuery? ==> |stmts| == 1 && StatementsOf(e.sql) == [e.sql])
  {
    var stmts := Statements(e.via, e.sql);
    if !e.via.ByQuery? {
      FirstStatementWord(e.sql);
    }
    assert stmts == [stmts[0]] + stmts[1..];
  }

  /** Over every run from a connection as the handshake leaves it. */
  lemma RunLeavesFailed(w: World, c: Conn, rs: seq<Request>, i: nat)
    requires Fresh(c) && i < |Connection.Run(w, c, rs).0.log|
    ensures var e := Connection.Run(w, c, rs).0.log[i];
            e.Statement? && e.tx == 'E' && !e.via.ByDescribe? && Clear(TextRead(e.via, e.sql))
                && |Statements(e.via, e.sql)| == 1
            ==> AllEnd(Statements(e.via, e.sql))
  {
    FreshIsSound(w, c);
    RunKeepsSealed(w, c, rs);
    var e := Connection.Run(w, c, rs).0.log[i];
    assert Fair(e);
    if e.Statement? && e.tx == 'E' && !e.via.ByDescribe? && Clear(TextRead(e.via, e.sql)) {
      FailedIsLeft(e);
    }
  }

  // ---- The access check ----------------------------------------------------

  /** The statements of a text are its decomposition at the `;` the lexer reads in code; what
      follows the last of these is one more statement unless it is blank. */
  lemma StatementsAre(sql: string)
    ensures var stmts := StatementsOf(sql);
            var p := Split(sql);
            if Blank(p.remainder) then WellSplit(Pieces(stmts, p.remainder)) && Glue(stmts, p.remainder) == sql
            else stmts != []
                 && var (init, last) := (stmts[..|stmts| - 1], stmts[|stmts| - 1]);
                    last == p.remainder && WellSplit(Pieces(init, last)) && Glue(init, last) == sql
  {
    var p := Split(sql);
    SplitCharacterized(sql, p);
    assert p.complete + [] == p.complete;
    assert (p.complete + [p.remainder])[..|p.complete|] == p.complete;
  }

  const REJECTED := ["CREATE", "DROP", "ALTER", "TRUNCATE", "ATTACH", "DETACH", "PRAGMA", "VACUUM", "REINDEX"]

  /** The first word of code is, in whatever letter case, one of these. */
  ghost predicate Rejects(stmt: string) { SpellsOne(stmt, FirstCode(stmt, 0), REJECTED) }

  /** The access check rejects a text if and only if one of its statements starts with such a
      word, provided no comment in front of the word opens with slash, star, slash. */
  lemma AllowedMeans(sql: string)
    requires forall stmt :: stmt in StatementsOf(sql) ==> Clear(stmt)
    ensures Allowed(sql) <==> forall stmt :: stmt in StatementsOf(sql) ==> !Rejects(stmt)
  {
    forall stmt | stmt in StatementsOf(sql) ensures Permitted(stmt) <==> !Rejects(stmt) {
      PermittedMeans(stmt);
    }
  }

  lemma PermittedMeans(stmt: string)
    requires Clear(stmt)
    ensures Permitted(stmt) <==> !Rejects(stmt)
  {
    var kw := FirstKeyword(stmt);
    KeywordSpelled(stmt, kw);
    SpelledIn(stmt, FirstCode(stmt, 0), kw, REJECTED);
    DeniedAre(kw);
    if kw in REJECTED {
      KeywordIsCodeWord(stmt);
      WordMeansText(stmt);
    }
  }

  lemma DeniedAre(kw: string)
    ensures kw in DENIED <==> kw in REJECTED
    ensures kw in REJECTED ==> kw != []
  {
  }

  // ---- The conditions are needed -------------------------------------------

  // In what follows `word` ends a transaction and `next` is another keyword, as COMMIT and
  // DELETE, with `rest` behind it, as " FROM t".

  predicate IsWord(word: string) {
    word != [] && forall c :: c in word ==> 'A' <= c <= 'Z'
  }

  lemma {:induction false} NoStar(word: string)
    requires forall c :: c in word ==> 'A' <= c <= 'Z'
    ensures Index(word + "*/", "*/") == |word|
  {
    var s := word + "*/";
    if word != [] {
      assert s[0] == word[0] && word[0] in word && s[0] != "*/"[0];
      assert s[1..] == word[1..] + "*/";
      forall c | c in word[1..] ensures 'A' <= c <= 'Z' { assert c in word; }
      NoStar(word[1..]);
    } else {
      assert s == "*/";
    }
  }

  lemma StartsWithWord(word: string, rest: string, s: string)
    requires s == word + rest && IsWord(word) && (rest != [] ==> !IsASCIILetter(rest[0]))
    ensures FirstKeyword(s) == word && CodeWord(s) == word && Clear(s)
  {
    assert s[0] == word[0] && word[0] in word && !StartsComment(s);
    LettersOfWord(word, rest);
    StartsWithCode(s);
    KeywordIsCodeWord(s);
  }

  lemma BlankThenWord(word: string, rest: string, s: string)
    requires s == " " + (word + rest) && IsWord(word) && (rest != [] ==> !IsASCIILetter(rest[0]))
    ensures CodeWord(s) == word && !Blank(s)
  {
    BlanksAreSilent(" ");
    SilentInFront(" ", word + rest);
    StartsWithWord(word, rest, word + rest);
    WordMeansText(s);
  }

  /** The keyword read is the word in the comment. */
  lemma CommentedWord(word: string, next: string, rest: string, sql: string)
    requires IsWord(word) && IsPlain(next, rest) && sql == "/*/" + word + "*/" + (" " + (next + rest))
    ensures FirstKeyword(sql) == word && CodeWord(sql) == next && !Clear(sql)
  {
    var after := " " + (next + rest);
    CommentThen(word, after, sql);
    BlankThenWord(next, rest, after);
  }

  lemma CommentThen(word: string, after: string, sql: string)
    requires IsWord(word) && sql == "/*/" + word + "*/" + after
    ensures FirstKeyword(sql) == word && CodeWord(sql) == CodeWord(after) && !Clear(sql)
  {
    NoStar(word);
    MisreadComment(word, after);
    WordThenClosing(word, after, word + "*/" + after);
  }

  lemma WordThenClosing(word: string, after: string, inner: string)
    requires IsWord(word) && inner == word + "*/" + after
    ensures FirstKeyword(inner) == word
  {
    var rest := "*/" + after;
    assert inner == word + rest && rest[0] == '*';
    StartsWithWord(word, rest, inner);
  }

  lemma CommentedText(word: string, next: string, rest: string, sql: string)
    requires IsWord(word) && IsPlain(next, rest) && sql == "/*/" + word + "*/" + (" " + (next + rest))
    ensures StatementsOf(sql) == [sql] && TrimSpace(sql) == sql && !Blank(sql) && TrimLeft(sql, {'('} + BLANKS) == sql
  {
    var tail := next + rest;
    TailEnds(next, rest);
    CommentedEnds(word, tail, sql);
    PlainTrimmed(sql);
    NoSemicolon(word, tail, sql);
    OnePiece(sql);
  }

  lemma CommentedEnds(word: string, tail: string, sql: string)
    requires sql == "/*/" + word + "*/" + (" " + tail) && tail != []
    ensures sql[0] == '/' && sql[|sql| - 1] == tail[|tail| - 1] && TrimLeft(sql, {'('} + BLANKS) == sql
  {
  }

  lemma OnePiece(sql: string)
    requires Uncut(sql) && !Blank(sql)
    ensures StatementsOf(sql) == [sql]
  {
    SplitUncut(sql);
  }

  lemma TailEnds(next: string, rest: string)
    requires IsPlain(next, rest)
    ensures var tail := next + rest; !IsSpace(tail[|tail| - 1]) && ';' !in tail
  {
    var tail := next + rest;
    assert tail[|tail| - 1] == if rest == [] then next[|next| - 1] else rest[|rest| - 1];
    assert rest == [] ==> tail[|tail| - 1] in next;
  }

  lemma NoSemicolon(word: string, tail: string, sql: string)
    requires sql == "/*/" + word + "*/" + (" " + tail) && ';' !in word && ';' !in tail
    ensures Uncut(sql)
  {
    forall k | 0 <= k < |sql| ensures sql[k] != ';' {
      if 3 <= k < 3 + |word| {
        assert sql[k] == word[k - 3];
      } else if k >= 6 + |word| {
        assert sql[k] == tail[k - 6 - |word|];
      }
    }
  }

  /** Sent as a Query in a failed transaction, such a text passes for what the comment names:
      what follows the comment is handed over, and the client is told 'I' with the transaction
      still open. */
  lemma CommentPassesForEnd(w: World, c: Conn, word: string, next: string, rest: string, sql: string)
    requires IsWord(word) && Ends(word) && word !in NOT_COMMANDS && IsPlain(next, rest)
    requires sql == "/*/" + word + "*/" + (" " + (next + rest)) && w.rewrite(sql) == sql
    requires c.alive && c.txState == 'E' && c.sess.InTx()
    requires w.env.command(sql).Data? && Exec(w.env, c.sess, sql, []).1.Done?
    ensures var c1 := Step(w, c, Query(sql)).0;
            c1.log == c.log + [Statement(ByQuery, sql, word, 'E')] && c1.txState == 'I' && c1.sess.InTx()
    ensures CodeWord(sql) == next
  {
    CommentedWord(word, next, rest, sql);
    CommentedText(word, next, rest, sql);
    ReadAsCommand(word, sql);
    var stmt := Stmt(sql, sql, word, false);
    OneCommandQuery(w, c, stmt);
    QueryLogged(w, c, stmt);
  }

  lemma ReadAsCommand(word: string, sql: string)
    requires word !in NOT_COMMANDS && FirstKeyword(sql) == word && StatementsOf(sql) == [sql]
    requires TrimSpace(sql) == sql && TrimLeft(sql, {'('} + BLANKS) == sql
    ensures Allowed(sql) && Classify(sql) == Stmt(sql, sql, word, false)
  {
    assert sql in StatementsOf(sql);
  }

  lemma QueryLogged(w: World, c: Conn, stmt: Stmt)
    requires c.alive && !Blank(stmt.text) && w.rewrite(stmt.text) == stmt.text
    requires Allowed(stmt.text) && StatementsOf(stmt.text) == [stmt.text] && Classify(stmt.text) == stmt
    requires stmt.trimmed != "" && !IsSession(stmt.kw) && (c.txState == 'E' ==> Ends(stmt.kw))
    ensures Step(w, c, Query(stmt.text)).0.log == c.log + [Statement(ByQuery, stmt.text, stmt.kw, c.txState)]
  {
    StatementReaches(w, c, stmt);
    BatchOfOne(w, c, stmt.text);
  }

  /** A text of two statements, as "ROLLBACK; DELETE FROM t", starts with the first. */
  lemma TwoStatements(word: string, next: string, rest: string, sql: string)
    requires IsWord(word) && IsPlain(next, rest) && sql == word + ";" + (" " + (next + rest))
    ensures StatementsOf(sql) == [word, " " + (next + rest)] && CodeWord(StatementsOf(sql)[1]) == next
    ensures FirstKeyword(sql) == word && Clear(sql)
  {
    var after := " " + (next + rest);
    BlankThenWord(next, rest, after);
    forall c | c in after ensures c !in SPECIAL {
      assert c == ' ' || c in next || c in rest;
    }
    SplitsInTwo(word, after, sql);
    StartsWithWord(word, ";" + after, sql) by {
      assert word + (";" + after) == sql;
    }
  }

  lemma SplitsInTwo(word: string, after: string, sql: string)
    requires sql == word + ";" + after && !Blank(after)
    requires (forall c :: c in word ==> c !in SPECIAL) && forall c :: c in after ==> c !in SPECIAL
    ensures StatementsOf(sql) == [word, after]
  {
    StaysCode(word);
    StaysCode(after);
    SplitClosed(word);
    SplitUncut(after);
    SplitComposes(word + ";", after);
    assert [word] + [] == [word];
  }

  /** Prepared, and executed in a failed transaction, such a text is handed over whole. */
  lemma EndBringsMore(w: World, c: Conn, name: string, word: string, next: string, rest: string, sql: string)
    requires IsWord(word) && Ends(word) && IsPlain(next, rest) && !Ends(next)
        && sql == word + ";" + (" " + (next + rest))
    requires c.alive && !c.inError && c.txState == 'E' && name in c.portals && c.portals[name].stmtName in c.statements
    requires var ps := c.statements[c.portals[name].stmtName]; ps.sql == sql && ps.usable
    ensures Step(w, c, Execute(name)).0.log == c.log + [Statement(ByExecute, sql, word, 'E')]
    ensures Clear(sql) && !AllEnd(StatementsOf(sql))
  {
    TwoStatements(word, next, rest, sql);
    ExecuteReaches(w, c, name);
    LogAfterHandling(w, c, Execute(name));
    assert StatementsOf(sql)[1] in StatementsOf(sql);
  }
}
