/** The transaction state byte, letter by letter: what every message does to it, in terms of
    how SQLite answers the calls made for that message (cmd/execdb/pgwire.go,
    cmd/execdb/pgextended.go). */
module StateLaws {
  import opened Blanks
  import opened SqlKeywords
  import opened Sqlite
  import opened Options
  import opened Protocol
  import opened Connection
  import opened TransactionLaws
  import opened ReplyLaws
  import opened LifeLaws
  import opened HandlerLaws

  // ---- One statement -------------------------------------------------------

  const ENDINGS := ["COMMIT", "ROLLBACK", "END"]

  /** The first keyword of a statement of a Query. */
  function Word(text: string): string { FirstKeyword(TrimSpace(text)) }

  /** A failed transaction refuses the statement. */
  predicate Refused(tx: char, text: string) { tx == 'E' && Word(text) !in ENDINGS }

  /** The program answers the statement itself. */
  predicate IsOwn(text: string) { Word(text) == "SET" || Word(text) == "SHOW" }

  /** SQLite runs the statement, and any rows it returns can all be sent. */
  predicate Worked(r: Result, rows: bool) {
    r.Done? &&
    (rows ==> !r.badTypes && !r.broken && forall j :: 0 <= j < |r.rows| ==> |r.rows[j]| == |r.oids|)
  }

  function Answer(w: World, c: Conn, text: string): (Session, Result) { Exec(w.env, c.sess, text, []) }

  /** A statement of a Query fails: it is refused, or SQLite is handed it and it does not work. */
  predicate Fails(w: World, c: Conn, text: string) {
    && !Blank(text)
    && (Refused(c.txState, text)
        || (!IsOwn(text) && !Worked(Answer(w, c, text).1, RowReturning(TrimSpace(text)))))
  }

  /** The byte after a statement with keyword `kw` that works, and after a failure. */
  predicate Moves(tx: char, kw: string, worked: bool, after: char) {
    if !worked then after == (if tx == 'T' then 'E' else tx)
    else if kw == "BEGIN" then after == 'T'
    else if kw in ENDINGS then after == 'I'
    else after == tx
  }

  /** One turn of the statement loop goes on if and only if the statement does not fail; a
      blank one does nothing, a failed one turns 'T' into 'E', one that works moves the byte by
      its keyword alone.  SQLite is handed the statement unless it is blank, refused, or
      answered by the program, and the session afterwards is that call's. */
  lemma StatementMoves(w: World, c: Conn, text: string)
    ensures var o := RunStatement(w, c, Classify(text));
            && (o.ok <==> !Fails(w, c, text))
            && (if Blank(text) then o.conn == c && o.out == []
                else Moves(c.txState, Word(text), o.ok, o.conn.txState))
            && o.conn.sess == (if Blank(text) || Refused(c.txState, text) || IsOwn(text) then c.sess
                               else Answer(w, c, text).0)
  {
    var stmt := Classify(text);
    EndingsEnd(stmt.kw);
    TrimmedAway(text);
    if Blank(text) {
    } else if Refused(c.txState, text) {
    } else if IsOwn(text) {
      SessionKeepsMaps(w, c, stmt.kw, stmt.trimmed);
    } else {
      ExecMoves(w, c, stmt);
    }
  }

  lemma EndingsEnd(kw: string)
    ensures kw in ENDINGS <==> Ends(kw)
  {
  }

  lemma ExecMoves(w: World, c: Conn, stmt: Stmt)
    ensures var (s, r) := Exec(w.env, c.sess, stmt.text, []);
            var o := ExecOne(w, c, stmt);
            (o.ok <==> Worked(r, stmt.rows)) && o.conn.sess == s && o.conn.txState == c.txState
  {
    var r := Exec(w.env, c.sess, stmt.text, []).1;
    if r.Done? && stmt.rows {
      RowsOutcome(r.rows, 0, Columns(r.oids, []), r.broken);
    }
  }

  // ---- The statements of a Query -------------------------------------------

  function After(w: World, c: Conn, text: string): Conn { RunStatement(w, c, Classify(text)).conn }

  /** The statements come to one that fails, and that inside of a transaction block. */
  predicate EndsFailed(w: World, c: Conn, stmts: seq<string>)
    decreases |stmts|
  {
    stmts != [] &&
    if Fails(w, c, stmts[0]) then c.txState in {'T', 'E'} else EndsFailed(w, After(w, c, stmts[0]), stmts[1..])
  }

  predicate NothingToDo(stmts: seq<string>) { forall s :: s in stmts ==> Blank(s) }

  /** The statements leave the byte at 'E' if and only if one of them fails with the byte at 'T'
      or 'E', or it was 'E' and they are all blank. */
  lemma {:induction false} BatchEndsFailed(w: World, c: Conn, stmts: seq<string>)
    requires Status(c)
    ensures RunBatch(w, c, stmts).0.txState == 'E' <==>
              EndsFailed(w, c, stmts) || (c.txState == 'E' && NothingToDo(stmts))
    decreases |stmts|
  {
    if stmts != [] {
      StatementMoves(w, c, stmts[0]);
      assert NothingToDo(stmts) <==> Blank(stmts[0]) && NothingToDo(stmts[1..]) by {
        assert stmts == [stmts[0]] + stmts[1..];
      }
      if !Fails(w, c, stmts[0]) {
        BatchEndsFailed(w, After(w, c, stmts[0]), stmts[1..]);
      }
    }
  }

  /** None of the statements begins or ends a transaction. */
  predicate NoControl(stmts: seq<string>) {
    forall s :: s in stmts && !Blank(s) ==> Word(s) != "BEGIN" && Word(s) !in ENDINGS
  }

  predicate SomeFails(w: World, c: Conn, stmts: seq<string>)
    decreases |stmts|
  {
    stmts != [] && (Fails(w, c, stmts[0]) || SomeFails(w, After(w, c, stmts[0]), stmts[1..]))
  }

  /** Without such a statement the byte stays, but for a failure in 'T', which makes it 'E'. */
  lemma {:induction false} DataKeepsByte(w: World, c: Conn, stmts: seq<string>)
    requires NoControl(stmts)
    ensures RunBatch(w, c, stmts).0.txState == if c.txState == 'T' && SomeFails(w, c, stmts) then 'E' else c.txState
    decreases |stmts|
  {
    if stmts != [] {
      StatementMoves(w, c, stmts[0]);
      assert stmts[0] in stmts && NoControl(stmts[1..]);
      if !Fails(w, c, stmts[0]) {
        DataKeepsByte(w, After(w, c, stmts[0]), stmts[1..]);
      }
    }
  }

  /** From 'E' the statements get on only if the first that is not blank ends the transaction
      and works. */
  predicate FirstEnds(w: World, c: Conn, stmts: seq<string>)
    decreases |stmts|
  {
    stmts != [] &&
    if Blank(stmts[0]) then FirstEnds(w, c, stmts[1..])
    else Word(stmts[0]) in ENDINGS && Worked(Answer(w, c, stmts[0]).1, RowReturning(TrimSpace(stmts[0])))
  }

  lemma {:induction false} BatchLeavesFailed(w: World, c: Conn, stmts: seq<string>)
    requires c.txState == 'E' && !FirstEnds(w, c, stmts)
    ensures RunBatch(w, c, stmts).0.txState == 'E'
    ensures RunBatch(w, c, stmts).0.sess == c.sess
            || exists s :: s in stmts && Word(s) in ENDINGS && RunBatch(w, c, stmts).0.sess == Answer(w, c, s).0
    decreases |stmts|
  {
    if stmts != [] {
      StatementMoves(w, c, stmts[0]);
      assert stmts[0] in stmts;
      if Blank(stmts[0]) {
        BatchLeavesFailed(w, c, stmts[1..]);
      }
    }
  }

  // ---- Every message -------------------------------------------------------

  /** A Query has text, and the access check rejects it. */
  predicate Rejected(w: World, sql: string) { !Blank(sql) && !Allowed(w.rewrite(sql)) }

  /** A message ends in failure: an extended one does not work out, a Query is rejected, or
      its statements end in one that fails inside of a block. */
  predicate EndsInFailure(w: World, c: Conn, r: Request) {
    if r.Extended() then !c.inError && !Works(w, c, r)
    else r.Query? && !Blank(r.sql)
         && if Rejected(w, r.sql) then true else EndsFailed(w, c, StatementsOf(w.rewrite(r.sql)))
  }

  /** The first keyword of a portal's statement. */
  function ExecutedWord(c: Conn, name: string): string {
    if FoundPortal(c, name) then FirstKeyword(c.statements[c.portals[name].stmtName].sql) else []
  }

  /** An extended message moves the byte by whether it works out, and only an Execute that does
      can leave a block or enter one; and it starts the skipping if and only if it does not. */
  lemma ExtendedMoves(w: World, c: Conn, r: Request)
    requires c.alive && r.Extended() && !c.inError && Step(w, c, r).0.alive
    ensures var c1 := Step(w, c, r).0;
            && Moves(c.txState, if r.Execute? then ExecutedWord(c, r.portal) else [], Works(w, c, r), c1.txState)
            && (c1.inError <==> !Works(w, c, r))
  {
    HandleWorks(w, c, r);
    HandleKeepsInError(w, c, r);
    match r {
      case Execute(name) => if FoundPortal(c, name) { ExecuteByte(w, c, name); }
      case Describe(kind, name) => DescribeByte(w, c, kind, name);
      case Parse(name, text, oids) => ParseStores(w, c, name, text, oids);
      case _ =>
    }
  }

  lemma DescribeByte(w: World, c: Conn, kind: char, name: string)
    ensures HandleDescribe(w, c, kind, name).conn.txState == c.txState
  {
    if kind == 'S' && name in c.statements {
      StatementByte(w, c, name);
    } else if kind == 'P' && FoundPortal(c, name) {
      var p := c.portals[name];
      var ps := c.statements[p.stmtName];
      var d := DescribeRowShape(w, c.sess, ps, p.resultFormats, p.args);
      TrialKeepsMaps(c.(portals := c.portals[name := p.(resultOIDs := d.oids)]), ps, d);
    }
  }

  lemma StatementByte(w: World, c: Conn, name: string)
    requires name in c.statements
    ensures DescribeStatement(w, c, name).conn.txState == c.txState
  {
    var ps := WithAnnounced(c.statements[name]);
    var d := DescribeRowShape(w, c.sess, ps, [], Representative(AnnouncedParams(c.statements[name])));
    TrialKeepsMaps(c.(statements := c.statements[name := ps.(resultOIDs := d.oids)]), ps, d);
  }

  lemma ExecuteByte(w: World, c: Conn, name: string)
    requires FoundPortal(c, name) && HandleExecute(w, c, name).conn.alive
    ensures var o := HandleExecute(w, c, name);
            var kw := FirstKeyword(c.statements[c.portals[name].stmtName].sql);
            if o.ok then Moves(c.txState, kw, true, o.conn.txState) else o.conn.txState == c.txState
  {
    var p := c.portals[name];
    PortalByte(w, c, p, c.statements[p.stmtName], FirstKeyword(c.statements[p.stmtName].sql));
  }

  lemma PortalByte(w: World, c: Conn, p: Portal, ps: Prepared, kw: string)
    ensures var o := ExecutePortal(w, c, p, ps, kw);
            if o.ok then Moves(c.txState, kw, true, o.conn.txState) else o.conn.txState == c.txState
  {
  }

  /** A failure fails the block: a message received in 'T' leaves 'E' if and only if it ends in
      failure. */
  lemma FailureFailsBlock(w: World, c: Conn, r: Request)
    requires c.alive && c.txState == 'T' && Step(w, c, r).0.alive
    ensures Step(w, c, r).0.txState == 'E' <==> EndsInFailure(w, c, r)
  {
    if r.Extended() && !c.inError {
      ExtendedMoves(w, c, r);
    } else if r.Query? && !Blank(r.sql) && !Rejected(w, r.sql) {
      BatchEndsFailed(w, c, StatementsOf(w.rewrite(r.sql)));
    }
  }

  /** A failed block is left only by a COMMIT, ROLLBACK or END that works: executed, or the
      first statement of a Query. */
  lemma OnlyEndingsLeave(w: World, c: Conn, r: Request)
    requires c.alive && c.txState == 'E' && Step(w, c, r).0.alive && Step(w, c, r).0.txState != 'E'
    ensures r.Query? || r.Execute?
    ensures r.Query? ==>
              !Blank(r.sql) && !Rejected(w, r.sql) && FirstEnds(w, c, StatementsOf(w.rewrite(r.sql)))
    ensures r.Execute? ==> !c.inError && Works(w, c, r) && ExecutedWord(c, r.portal) in ENDINGS
  {
    if r.Extended() && !c.inError {
      ExtendedMoves(w, c, r);
    } else if r.Query? && !Blank(r.sql) && !Rejected(w, r.sql) {
      if !FirstEnds(w, c, StatementsOf(w.rewrite(r.sql))) {
        BatchLeavesFailed(w, c, StatementsOf(w.rewrite(r.sql)));
      }
    }
  }

  /** A block is opened only by a BEGIN that works: without failure and without BEGIN, COMMIT,
      ROLLBACK and END no message moves the byte. */
  lemma OthersKeepByte(w: World, c: Conn, r: Request)
    requires c.alive && Step(w, c, r).0.alive && Status(c)
    requires r.Query? ==> NoControl(StatementsOf(w.rewrite(r.sql)))
    requires r.Execute? ==> ExecutedWord(c, r.portal) != "BEGIN" && ExecutedWord(c, r.portal) !in ENDINGS
    ensures Step(w, c, r).0.txState == c.txState || (c.txState == 'T' && EndsInFailure(w, c, r))
  {
    if c.txState == 'T' {
      FailureFailsBlock(w, c, r);
    }
    if r.Extended() && !c.inError {
      ExtendedMoves(w, c, r);
    } else if r.Query? && !Blank(r.sql) && !Rejected(w, r.sql) {
      DataKeepsByte(w, c, StatementsOf(w.rewrite(r.sql)));
    }
  }

  /** What the client is told is the byte the next message is received in, and a Sync neither
      moves it nor leaves anything to be skipped. */
  lemma ClientIsTold(w: World, c: Conn, r: Request)
    requires c.alive && !r.Extended() && !r.Terminate?
    ensures var (c1, out) := Step(w, c, r);
            && out != [] && out[|out| - 1] == ReadyForQuery(c1.txState)
            && (r.Sync? ==> c1 == c.(inError := false) && |out| == 1)
            && (r.Unknown? ==> c1 == c && out[0] == ErrorResponse && |out| == 2)
            && (r.Query? && Rejected(w, r.sql) ==>
                  && c1 == c.(txState := if c.txState == 'T' then 'E' else c.txState)
                  && out[0] == ErrorResponse && |out| == 2)
            && (r.Query? && Blank(r.sql) ==> c1 == c && |out| == 1)
  {
  }
}
