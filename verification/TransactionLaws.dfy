/** Transaction state over whole runs: the state byte against SQLite's own transaction, the
    sealing of failed transactions, and the neutrality of Describe. */
module TransactionLaws {
  import opened Blanks
  import Lexer = SqlLexer
  import opened SqlKeywords
  import opened CodeWords
  import opened Sqlite
  import opened Options
  import opened Protocol
  import opened Connection
  import opened PlainTexts

  // ---- The state byte agrees with the session ------------------------------

  /** The byte is one of the three, and 'I' exactly when no transaction is open. */
  predicate Agree(tx: char, s: Session) {
    tx in {'I', 'T', 'E'} && (tx == 'I' <==> !s.InTx())
  }

  /** SQLite reads the same transaction control out of `sql` as the keyword says. */
  predicate Understood(env: Env, sql: string, kw: string) {
    match env.command(sql)
    case Begin => kw == "BEGIN"
    case Commit => kw == "COMMIT" || kw == "END"
    case Rollback => kw == "ROLLBACK"
    case RollbackTo(_) => kw == "ROLLBACK"
    case _ => kw != "BEGIN" && !Ends(kw)
  }

  /** The commands the state byte does not follow: a savepoint that opens a transaction,
      a rollback to a savepoint, the release of a savepoint that opened the transaction. */
  predicate Upsets(s: Session, cmd: Command) {
    || (cmd.Savepoint? && !s.InTx())
    || cmd.RollbackTo?
    || (cmd.Release? && Find(s.saves, cmd.name) == 0 && !s.began)
  }

  /** One statement, exactly: a failed one keeps the agreement, a successful one keeps it
      if and only if it is none of those commands. */
  lemma StatementKeepsAgreement(env: Env, s: Session, tx: char, sql: string, kw: string, args: seq<Value>)
    requires Agree(tx, s) && Understood(env, sql, kw)
    ensures var (s', r) := Exec(env, s, sql, args);
            if r.Failed? then Agree(Abort(tx), s') && Agree(tx, s')
            else Agree(TxAfter(tx, kw), s') <==> !Upsets(s, env.command(sql))
  {
  }

  /** The agreement really breaks: with `sql` the text "SAVEPOINT a", sent outside of a
      transaction, a transaction is open afterwards and the client is told 'I'. */
  lemma SavepointBreaksAgreement(w: World, c: Conn, word: string, sql: string)
    requires word == "SAVEPOINT" && sql == word + " a" && w.rewrite(sql) == sql
    requires w.env.command(sql) == Savepoint("a") && !w.env.fails(c.sess.calls)
    requires Agree(c.txState, c.sess) && c.txState == 'I' && c.alive
    ensures var (c1, out) := Step(w, c, Query(sql));
            out == [CommandComplete(word, 0), ReadyForQuery('I')] && c1.txState == 'I' && c1.sess.InTx()
  {
    SavepointCommands(word, " a");
    CommandQuery(w, c, word, " a", sql);
  }

  /** The same with "ROLLBACK TO a" where `a` is a savepoint of the open transaction: it stays
      open, and the client is told 'I'. */
  lemma RollbackToBreaksAgreement(w: World, c: Conn, word: string, sql: string)
    requires word == "ROLLBACK" && sql == word + " TO a" && w.rewrite(sql) == sql
    requires w.env.command(sql) == RollbackTo("a") && !w.env.fails(c.sess.calls)
    requires c.txState == 'T' && c.alive && Find(c.sess.saves, "a") >= 0
    ensures var (c1, out) := Step(w, c, Query(sql));
            out == [CommandComplete(word, 0), ReadyForQuery('I')] && c1.txState == 'I' && c1.sess.InTx()
  {
    SavepointCommands(word, " TO a");
    CommandQuery(w, c, word, " TO a", sql);
    RollbackToKeepsOpen(w.env, c.sess, sql);
  }

  lemma SavepointCommands(word: string, rest: string)
    requires (word == "ROLLBACK" && rest == " TO a") || (word == "SAVEPOINT" && rest == " a")
    ensures IsPlain(word, rest) && word !in NOT_COMMANDS && (word == "ROLLBACK" <==> Ends(word)) && word != "BEGIN"
  {
  }

  lemma RollbackToKeepsOpen(env: Env, s: Session, sql: string)
    requires env.command(sql).RollbackTo? && !env.fails(s.calls) && Find(s.saves, env.command(sql).name) >= 0
    ensures Exec(env, s, sql, []).0.InTx() && Exec(env, s, sql, []).1 == EMPTY
  {
  }

  const NOT_COMMANDS := {"INSERT", "UPDATE", "DELETE", "SELECT", "PRAGMA", "EXPLAIN", "VALUES", "WITH", "SET",
      "SHOW"} + DENIED

  /** A Query of one plain command. */
  lemma CommandQuery(w: World, c: Conn, word: string, rest: string, sql: string)
    requires sql == word + rest && IsPlain(word, rest) && word !in NOT_COMMANDS
    requires c.alive && c.txState != 'E' && w.rewrite(sql) == sql && Exec(w.env, c.sess, sql, []).1.Done?
    ensures var (s, r) := Exec(w.env, c.sess, sql, []);
            var (c1, out) := Step(w, c, Query(sql));
            && c1.sess == s && c1.txState == TxAfter(c.txState, word)
            && out == [CommandComplete(word, r.affected), ReadyForQuery(c1.txState)]
  {
    PlainStatement(word, rest);
    PlainClassified(word, rest);
    OneCommandQuery(w, c, Stmt(sql, sql, word, false));
  }

  /** A Query of one statement that returns no rows and gets through. */
  lemma OneCommandQuery(w: World, c: Conn, stmt: Stmt)
    requires c.alive && !Blank(stmt.text) && w.rewrite(stmt.text) == stmt.text
    requires Allowed(stmt.text) && StatementsOf(stmt.text) == [stmt.text] && Classify(stmt.text) == stmt
    requires stmt.trimmed != "" && !IsSession(stmt.kw) && !stmt.rows && (c.txState == 'E' ==> Ends(stmt.kw))
    requires Exec(w.env, c.sess, stmt.text, []).1.Done?
    ensures var (s, r) := Exec(w.env, c.sess, stmt.text, []);
            var (c1, out) := Step(w, c, Query(stmt.text));
            && c1.sess == s && c1.txState == TxAfter(c.txState, stmt.kw)
            && out == [CommandComplete(stmt.kw, r.affected), ReadyForQuery(c1.txState)]
  {
    var o := RunStatement(w, c, stmt);
    CommandRuns(w, c, stmt);
    BatchOfOne(w, c, stmt.text);
    assert [CommandComplete(stmt.kw, Exec(w.env, c.sess, stmt.text, []).1.affected)] + [ReadyForQuery(o.conn.txState)]
        == [CommandComplete(stmt.kw, Exec(w.env, c.sess, stmt.text, []).1.affected), ReadyForQuery(o.conn.txState)];
  }

  lemma CommandRuns(w: World, c: Conn, stmt: Stmt)
    requires stmt.trimmed != "" && !IsSession(stmt.kw) && !stmt.rows && (c.txState == 'E' ==> Ends(stmt.kw))
    requires Exec(w.env, c.sess, stmt.text, []).1.Done?
    ensures var (s, r) := Exec(w.env, c.sess, stmt.text, []);
            var o := RunStatement(w, c, stmt);
            && o.ok && o.out == [CommandComplete(stmt.kw, r.affected)]
            && o.conn.sess == s && o.conn.txState == TxAfter(c.txState, stmt.kw)
  {
  }

  lemma BatchOfOne(w: World, c: Conn, sql: string)
    ensures var o := RunStatement(w, c, Classify(sql)); RunBatch(w, c, [sql]) == (o.conn, o.out)
  {
    var o := RunStatement(w, c, Classify(sql));
    assert [sql][1..] == [];
    assert RunBatch(w, o.conn, []) == (o.conn, []);
    assert GoOn(w, o, []) == (o.conn, o.out) by { assert o.out + [] == o.out; }
  }

  // ---- Describe ------------------------------------------------------------

  /** A Describe's trial run leaves the session as it found it, contents and open
      transaction alike, if and only if its savepoint was never taken or both cleaning-up
      commands got through.  This holds even where the statement writes. */
  lemma TrialIsNeutral(w: World, s: Session, ps: Prepared, args: seq<Value>)
    requires s.Valid() && (ps.usable ==> w.env.command(ps.sql).Data?)
    ensures var t := RunTrial(w, s, ps, args);
            && (t.sess.Same(s) <==> !t.started || t.undone)
            && (t.sess.InTx() <==> s.InTx() || (t.started && !t.undone))
            && t.sess.Valid()
  {
    var s1 := Issue(w.env, s, Savepoint(DESCRIBE_SAVEPOINT)).0;
    if !w.env.fails(s.calls) {
      var s2 := RunPrepared(w, s1, ps, args).0;
      assert Under(s, s2);
      RollBackUnder(w.env, s, s2);
      ReleaseUnder(w.env, s, Issue(w.env, s2, RollbackTo(DESCRIBE_SAVEPOINT)).0);
    }
  }

  /** `s1` is `s` with the Describe savepoint taken and, it may be, data written since. */
  predicate Under(s: Session, s1: Session) {
    && s1.saves == s.saves + [Save(DESCRIBE_SAVEPOINT, s.work)]
    && s1.committed == s.committed && s1.began == s.began
  }

  lemma RollBackUnder(env: Env, s: Session, s1: Session)
    requires Under(s, s1)
    ensures var (s2, r) := Issue(env, s1, RollbackTo(DESCRIBE_SAVEPOINT));
            && (r.Failed? <==> env.fails(s1.calls))
            && Under(s, s2) && (!r.Failed? ==> s2.work == s.work)
  {
    FindPushed(s.saves, Save(DESCRIBE_SAVEPOINT, s.work));
    assert s1.saves[..|s.saves| + 1] == s1.saves;
  }

  lemma ReleaseUnder(env: Env, s: Session, s1: Session)
    requires Under(s, s1) && s.Valid()
    ensures var (s2, r) := Issue(env, s1, Release(DESCRIBE_SAVEPOINT));
            && (r.Failed? <==> env.fails(s1.calls))
            && (if r.Failed? then Under(s, s2) else s1.work == s.work ==> s2.Same(s))
  {
    FindPushed(s.saves, Save(DESCRIBE_SAVEPOINT, s.work));
    assert s1.saves[..|s.saves|] == s.saves;
  }

  // ---- Runs ----------------------------------------------------------------

  /** A statement the state byte follows: SQLite reads it as its keyword says, it is not
      about savepoints, and if it returns rows it is a data statement. */
  predicate Tame(env: Env, sql: string, kw: string, rows: bool) {
    && Understood(env, sql, kw)
    && !env.command(sql).Savepoint? && !env.command(sql).RollbackTo? && !env.command(sql).Release?
    && (rows ==> env.command(sql).Data?)
  }

  /** What the statement map holds: keyword classification as of Parse, and the access
      check passed. */
  predicate WellPrepared(ps: Prepared) {
    ps.rowReturning == RowReturning(ps.sql) && Allowed(ps.sql)
  }

  ghost predicate AllWellPrepared(c: Conn) {
    forall n :: n in c.statements ==> WellPrepared(c.statements[n])
  }

  ghost predicate AllTame(w: World, c: Conn) {
    forall n :: n in c.statements
        ==> Tame(w.env, c.statements[n].sql, FirstKeyword(c.statements[n].sql), c.statements[n].rowReturning)
  }

  /** Statements come from Parse, and nothing later changes their text. */
  ghost predicate FromParse(w: World, c: Conn, r: Request, c1: Conn) {
    forall n :: n in c1.statements ==>
      var ps := c1.statements[n];
      || (n in c.statements && ps.sql == c.statements[n].sql && ps.rowReturning == c.statements[n].rowReturning)
      || (r.Parse? && ps.sql == w.rewrite(r.query) && WellPrepared(ps))
  }

  lemma StepStatements(w: World, c: Conn, r: Request)
    ensures FromParse(w, c, r, Step(w, c, r).0)
  {
    if c.alive && r.Extended() && !c.inError {
      match r {
        case Parse(name, query, oids) => ParseStatements(w, c, name, query, oids);
        case Describe(kind, name) => DescribeStatements(w, c, kind, name);
        case Execute(portal) => ExecuteKeepsMaps(w, c, portal);
        case _ =>
      }
    } else if c.alive && r.Query? {
      QueryKeepsMaps(w, c, r.sql);
    }
  }

  lemma ParseStatements(w: World, c: Conn, name: string, query: string, oids: seq<nat>)
    ensures FromParse(w, c, Parse(name, query, oids), HandleParse(w, c, name, query, oids).conn)
  {
    if Allowed(w.rewrite(query)) {
      StoredStatements(w, c, name, NewStatement(w.rewrite(query), oids));
    }
  }

  lemma StoredStatements(w: World, c: Conn, name: string, ps: Prepared)
    ensures var statements := StoreStatement(w, c, name, ps).conn.statements;
            forall n :: n in statements ==>
              || statements[n] == ps
              || (n in c.statements && statements[n] == c.statements[n].(usable := statements[n].usable))
  {
  }

  lemma DescribeStatements(w: World, c: Conn, kind: char, name: string)
    ensures FromParse(w, c, Describe(kind, name), HandleDescribe(w, c, kind, name).conn)
  {
    if kind == 'S' && name in c.statements {
      DescribedStatements(w, c, name);
    } else if kind == 'P' && name in c.portals && c.portals[name].stmtName in c.statements {
      DescribedPortals(w, c, name);
    }
  }

  lemma DescribedStatements(w: World, c: Conn, name: string)
    requires name in c.statements
    ensures var (c1, ps) := (DescribeStatement(w, c, name).conn, c.statements[name]);
            && c1.portals == c.portals
            && (c1.statements == c.statements
                || exists ps1 :: c1.statements == c.statements[name := ps1] && ps1.sql == ps.sql
                    && ps1.rowReturning == ps.rowReturning)
  {
    var ps := c.statements[name];
    var d := DescribeRowShape(w, c.sess, WithAnnounced(ps), [], Representative(AnnouncedParams(ps)));
    TrialKeepsMaps(c.(statements := c.statements[name := WithAnnounced(ps).(resultOIDs := d.oids)]),
        WithAnnounced(ps), d);
  }

  lemma DescribedPortals(w: World, c: Conn, name: string)
    requires name in c.portals && c.portals[name].stmtName in c.statements
    ensures DescribePortal(w, c, name).conn.statements == c.statements
  {
    var p := c.portals[name];
    var ps := c.statements[p.stmtName];
    var d := DescribeRowShape(w, c.sess, ps, p.resultFormats, p.args);
    TrialKeepsMaps(c.(portals := c.portals[name := p.(resultOIDs := d.oids)]), ps, d);
  }

  lemma TrialKeepsMaps(c: Conn, ps: Prepared, d: RowShape)
    ensures SameMaps(c, AfterTrial(c, ps, d)) && AfterTrial(c, ps, d).txState == c.txState
  {
  }

  predicate SameMaps(c: Conn, c1: Conn) {
    c1.statements == c.statements && c1.portals == c.portals && c1.inError == c.inError
  }

  lemma ExecuteKeepsMaps(w: World, c: Conn, portal: string)
    ensures SameMaps(c, HandleExecute(w, c, portal).conn)
  {
    if portal in c.portals && c.portals[portal].stmtName in c.statements {
      var p := c.portals[portal];
      PortalKeepsMaps(w, c, p, c.statements[p.stmtName], FirstKeyword(c.statements[p.stmtName].sql));
    }
  }

  lemma PortalKeepsMaps(w: World, c: Conn, p: Portal, ps: Prepared, kw: string)
    ensures SameMaps(c, ExecutePortal(w, c, p, ps, kw).conn)
  {
  }

  lemma QueryKeepsMaps(w: World, c: Conn, sql: string)
    ensures SameMaps(c, SimpleQuery(w, c, sql).0) && SimpleQuery(w, c, sql).0.alive == c.alive
  {
    BatchKeepsMaps(w, c, StatementsOf(w.rewrite(sql)));
  }

  lemma {:induction false} BatchKeepsMaps(w: World, c: Conn, stmts: seq<string>)
    ensures SameMaps(c, RunBatch(w, c, stmts).0) && RunBatch(w, c, stmts).0.alive == c.alive
    decreases |stmts|
  {
    if stmts != [] {
      var stmt := Classify(stmts[0]);
      var o := RunStatement(w, c, stmt);
      StatementKeepsMaps(w, c, stmt);
      if o.ok {
        BatchKeepsMaps(w, o.conn, stmts[1..]);
      }
    }
  }

  lemma StatementKeepsMaps(w: World, c: Conn, stmt: Stmt)
    ensures SameMaps(c, RunStatement(w, c, stmt).conn) && RunStatement(w, c, stmt).conn.alive == c.alive
  {
    ExecKeepsMaps(w, c, stmt);
    if IsSession(stmt.kw) {
      SessionKeepsMaps(w, c, stmt.kw, stmt.trimmed);
    }
  }

  lemma ExecKeepsMaps(w: World, c: Conn, stmt: Stmt)
    ensures SameMaps(c, ExecOne(w, c, stmt).conn) && ExecOne(w, c, stmt).conn.alive == c.alive
  {
  }

  lemma SessionKeepsMaps(w: World, c: Conn, kw: string, stmt: string)
    requires IsSession(kw)
    ensures var c1 := SessionCommand(w, c, kw, stmt).0;
            SameMaps(c, c1) && c1.alive == c.alive && c1.txState == c.txState && c1.sess == c.sess && c1.log == c.log
  {
  }

  /** A SET or SHOW the program cannot answer but with an error. */
  predicate Unreadable(w: World, kw: string, stmt: string) {
    || (kw == "SET" && w.parseSet(stmt).None?)
    || (kw == "SHOW" && (w.parseShow(stmt).None? || w.parseShow(stmt).value == "all"))
  }

  /** The agreement, with what it takes to keep it. */
  ghost predicate Sound(w: World, c: Conn) {
    Agree(c.txState, c.sess) && c.sess.Valid() && AllTame(w, c)
  }

  predicate TameStatement(w: World, text: string) {
    var stmt := Classify(text);
    Tame(w.env, stmt.text, stmt.kw, stmt.rows)
  }

  /** The trial of this Describe, if there is one, is cleaned up after, or leaves its savepoint
      in a transaction that was open already. */
  predicate CleansUp(w: World, s: Session, ps: Prepared, args: seq<Value>) {
    ps.rowReturning ==> var t := RunTrial(w, s, ps, args); t.started && !t.undone ==> s.InTx()
  }

  /** A message that leaves the state byte in step, given the state it is received in:
      the statements it carries are tame, and a Describe's savepoint is cleaned up. */
  predicate Calm(w: World, c: Conn, r: Request) {
    match r
    case Query(sql) => forall stmt :: stmt in StatementsOf(w.rewrite(sql)) ==> TameStatement(w, stmt)
    case Parse(_, text, _) => var q := w.rewrite(text); Tame(w.env, q, FirstKeyword(q), RowReturning(q))
    case Describe('S', name) => name in c.statements ==>
      var ps := c.statements[name]; CleansUp(w, c.sess, ps, Representative(AnnouncedParams(ps)))
    case Describe('P', name) => name in c.portals && c.portals[name].stmtName in c.statements ==>
      CleansUp(w, c.sess, c.statements[c.portals[name].stmtName], c.portals[name].args)
    case _ => true
  }

  /** What a handler owes: the agreement, once an unsuccessful one has aborted the block. */
  predicate Settles(o: Outcome) {
    o.conn.sess.Valid() && Agree(if o.ok then o.conn.txState else Abort(o.conn.txState), o.conn.sess)
  }

  lemma SqlKeepsAgreement(env: Env, s: Session, tx: char, sql: string, kw: string, rows: bool, args: seq<Value>)
    requires Agree(tx, s) && s.Valid() && Tame(env, sql, kw, rows)
    ensures var (s', r) := Exec(env, s, sql, args);
            && s'.Valid() && (r.Failed? ==> Agree(tx, s')) && (!r.Failed? ==> Agree(TxAfter(tx, kw), s'))
            && (rows ==> TxAfter(tx, kw) == tx)
  {
    StatementKeepsAgreement(env, s, tx, sql, kw, args);
    ExecKeepsValid(env, s, sql, args);
  }

  lemma ExecuteSettles(w: World, c: Conn, name: string)
    requires Sound(w, c)
    ensures Settles(HandleExecute(w, c, name))
  {
    if name in c.portals && c.portals[name].stmtName in c.statements {
      var p := c.portals[name];
      var ps := c.statements[p.stmtName];
      PortalSettles(w, c, p, ps, FirstKeyword(ps.sql));
    }
  }

  lemma PortalSettles(w: World, c: Conn, p: Portal, ps: Prepared, kw: string)
    requires Agree(c.txState, c.sess) && c.sess.Valid() && Tame(w.env, ps.sql, kw, ps.rowReturning)
    ensures Settles(ExecutePortal(w, c, p, ps, kw))
  {
    SqlKeepsAgreement(w.env, c.sess, c.txState, ps.sql, kw, ps.rowReturning, p.args);
  }

  lemma DescribeSettles(w: World, c: Conn, kind: char, name: string)
    requires Sound(w, c) && Calm(w, c, Describe(kind, name))
    ensures Settles(HandleDescribe(w, c, kind, name))
  {
    if kind == 'S' && name in c.statements {
      DescribeStatementSettles(w, c, name);
    } else if kind == 'P' && name in c.portals && c.portals[name].stmtName in c.statements {
      DescribePortalSettles(w, c, name);
    }
  }

  lemma DescribeStatementSettles(w: World, c: Conn, name: string)
    requires Sound(w, c) && Calm(w, c, Describe('S', name)) && name in c.statements
    ensures Settles(DescribeStatement(w, c, name))
  {
    var ps := c.statements[name];
    var ps1, oids := WithAnnounced(ps), AnnouncedParams(ps);
    assert RunTrial(w, c.sess, ps1, Representative(oids)) == RunTrial(w, c.sess, ps, Representative(oids));
    var d := DescribeRowShape(w, c.sess, ps1, [], Representative(oids));
    ShapeKeepsTransaction(w, c.(statements := c.statements[name := ps1.(resultOIDs := d.oids)]), ps1, [],
        Representative(oids));
  }

  lemma DescribePortalSettles(w: World, c: Conn, name: string)
    requires Sound(w, c) && Calm(w, c, Describe('P', name))
    requires name in c.portals && c.portals[name].stmtName in c.statements
    ensures Settles(DescribePortal(w, c, name))
  {
    var p := c.portals[name];
    var ps := c.statements[p.stmtName];
    var d := DescribeRowShape(w, c.sess, ps, p.resultFormats, p.args);
    ShapeKeepsTransaction(w, c.(portals := c.portals[name := p.(resultOIDs := d.oids)]), ps, p.resultFormats, p.args);
  }

  /** Describing opens no transaction and closes none, given the trial is cleaned up or there
      was one open. */
  lemma ShapeKeepsTransaction(w: World, c: Conn, ps: Prepared, formats: seq<int>, args: seq<Value>)
    requires c.sess.Valid() && CleansUp(w, c.sess, ps, args) && (ps.rowReturning ==> w.env.command(ps.sql).Data?)
    ensures var c1 := AfterTrial(c, ps, DescribeRowShape(w, c.sess, ps, formats, args));
            c1.sess.Valid() && c1.sess.InTx() == c.sess.InTx() && c1.txState == c.txState
  {
    if ps.rowReturning {
      TrialIsNeutral(w, c.sess, ps, args);
    }
  }

  lemma StatementSettles(w: World, c: Conn, stmt: Stmt)
    requires Agree(c.txState, c.sess) && c.sess.Valid() && Tame(w.env, stmt.text, stmt.kw, stmt.rows)
    ensures var o := RunStatement(w, c, stmt); o.conn.sess.Valid() && Agree(o.conn.txState, o.conn.sess)
  {
    ExecOneSettles(w, c, stmt);
    if IsSession(stmt.kw) {
      SessionKeepsMaps(w, c, stmt.kw, stmt.trimmed);
    }
  }

  lemma ExecOneSettles(w: World, c: Conn, stmt: Stmt)
    requires Agree(c.txState, c.sess) && c.sess.Valid() && Tame(w.env, stmt.text, stmt.kw, stmt.rows)
    ensures var o := ExecOne(w, c, stmt);
            o.conn.sess.Valid() && Agree(if o.ok then TxAfter(c.txState, stmt.kw) else Abort(c.txState), o.conn.sess)
  {
    SqlKeepsAgreement(w.env, c.sess, c.txState, stmt.text, stmt.kw, stmt.rows, []);
  }

  lemma {:induction false} BatchSettles(w: World, c: Conn, stmts: seq<string>)
    requires Agree(c.txState, c.sess) && c.sess.Valid() && forall stmt :: stmt in stmts ==> TameStatement(w, stmt)
    ensures var c1 := RunBatch(w, c, stmts).0; c1.sess.Valid() && Agree(c1.txState, c1.sess)
    decreases |stmts|
  {
    if stmts != [] {
      assert stmts[0] in stmts;
      var stmt := Classify(stmts[0]);
      StatementSettles(w, c, stmt);
      var o := RunStatement(w, c, stmt);
      if o.ok {
        BatchSettles(w, o.conn, stmts[1..]);
      }
    }
  }

  lemma HandleSettles(w: World, c: Conn, r: Request)
    requires Sound(w, c) && Calm(w, c, r) && r.Extended()
    ensures Settles(Handle(w, c, r))
  {
    match r {
      case Execute(name) => ExecuteSettles(w, c, name);
      case Describe(kind, name) => DescribeSettles(w, c, kind, name);
      case Parse(name, text, oids) => StoreSettles(w, c, name, NewStatement(w.rewrite(text), oids));
      case Bind(_, _, _, _, _) => BindSettles(w, c, r);
      case _ =>
    }
  }

  lemma StoreSettles(w: World, c: Conn, name: string, ps: Prepared)
    requires Agree(c.txState, c.sess) && c.sess.Valid()
    ensures Settles(StoreStatement(w, c, name, ps))
  {
  }

  lemma BindSettles(w: World, c: Conn, r: Request)
    requires Agree(c.txState, c.sess) && c.sess.Valid() && r.Bind?
    ensures Settles(Handle(w, c, r))
  {
  }

  lemma StepKeepsTame(w: World, c: Conn, r: Request)
    requires AllTame(w, c) && Calm(w, c, r)
    ensures AllTame(w, Step(w, c, r).0)
  {
    StepStatements(w, c, r);
  }

  /** One message keeps the agreement, and a ReadyForQuery that it is answered with tells
      the client the state the session is in. */
  lemma StepKeepsAgreement(w: World, c: Conn, r: Request)
    requires Sound(w, c) && Calm(w, c, r)
    ensures var (c1, out) := Step(w, c, r);
            && Sound(w, c1)
            && (c.alive && !r.Extended() && !r.Terminate? ==> out != [] && out[|out| - 1] == ReadyForQuery(c1.txState))
  {
    StepKeepsTame(w, c, r);
    if c.alive && r.Extended() && !c.inError {
      HandleSettles(w, c, r);
    } else if c.alive && r.Query? {
      BatchSettles(w, c, StatementsOf(w.rewrite(r.sql)));
    }
  }

  /** Every message of the run is calm in the state it meets. */
  predicate CalmRun(w: World, c: Conn, rs: seq<Request>)
    decreases |rs|
  {
    rs != [] ==> Calm(w, c, rs[0]) && CalmRun(w, Step(w, c, rs[0]).0, rs[1..])
  }

  /** Over any run from a fresh connection, Simple and Extended Query mixed, the state byte
      says whether SQLite has a transaction open. */
  lemma {:induction false} RunKeepsAgreement(w: World, c: Conn, rs: seq<Request>)
    requires Sound(w, c) && CalmRun(w, c, rs)
    ensures Sound(w, Run(w, c, rs).0)
    decreases |rs|
  {
    if rs != [] {
      StepKeepsAgreement(w, c, rs[0]);
      RunKeepsAgreement(w, Step(w, c, rs[0]).0, rs[1..]);
    }
  }

  lemma FreshIsSound(w: World, c: Conn)
    requires Fresh(c)
    ensures Sound(w, c) && AllWellPrepared(c) && Sealed(c.log)
  {
  }

  // ---- What reaches SQLite -------------------------------------------------

  /** The text whose keyword the program goes by: a Query's statement is trimmed first. */
  function TextRead(via: Via, sql: string): string {
    if via.ByQuery? then TrimSpace(sql) else sql
  }

  /** What may be handed to SQLite.  The guard of failed transactions and the access check go
      by the first keyword as the program reads it, which is the first word of code unless a
      comment in front of that opens with slash, star, slash.  A Query's statement is one
      statement to the scanners; a prepared text can be several. */
  predicate Fair(e: Sent) {
    match e
    case Own(cmd, _) =>
      cmd in {Savepoint(DESCRIBE_SAVEPOINT), RollbackTo(DESCRIBE_SAVEPOINT), Release(DESCRIBE_SAVEPOINT)}
    case Statement(via, sql, kw, tx) =>
      && kw == FirstKeyword(TextRead(via, sql))
      && (Clear(TextRead(via, sql)) ==> kw == CodeWord(TextRead(via, sql)))
      && (via.ByQuery? ==> StatementsOf(sql) == [sql])
      && (if via.ByQuery? then Permitted(sql) else Allowed(sql))
      && (if via.ByDescribe? then RowReturning(sql) else tx == 'E' ==> Ends(kw))
  }

  /** What is logged with the keyword of its text is read rightly where it can be. */
  lemma LoggedIsFair(via: Via, sql: string, kw: string, tx: char)
    requires kw == FirstKeyword(TextRead(via, sql))
    requires via.ByQuery? ==> StatementsOf(sql) == [sql]
    requires if via.ByQuery? then Permitted(sql) else Allowed(sql)
    requires if via.ByDescribe? then RowReturning(sql) else tx == 'E' ==> Ends(kw)
    ensures Fair(Statement(via, sql, kw, tx))
  {
    if Clear(TextRead(via, sql)) {
      KeywordIsCodeWord(TextRead(via, sql));
    }
  }

  /** A piece of a text is one statement. */
  lemma PieceIsOne(sql: string, stmt: string)
    requires stmt in StatementsOf(sql) && !Blank(stmt)
    ensures StatementsOf(stmt) == [stmt]
  {
    Lexer.SplitIsWell(sql);
    Lexer.SplitUncut(stmt);
  }

  /** A trial run stands between the program's own SAVEPOINT and ROLLBACK TO. */
  predicate Bracketed(log: seq<Sent>, i: nat)
    requires i < |log|
  {
    log[i].Statement? && log[i].via.ByDescribe? ==>
      && 0 < i < |log| - 1
      && log[i - 1] == Own(Savepoint(DESCRIBE_SAVEPOINT), log[i].tx)
      && log[i + 1] == Own(RollbackTo(DESCRIBE_SAVEPOINT), log[i].tx)
  }

  ghost predicate Sealed(log: seq<Sent>) {
    forall i :: 0 <= i < |log| ==> Fair(log[i]) && Bracketed(log, i)
  }

  lemma SealedAppend(a: seq<Sent>, b: seq<Sent>)
    requires Sealed(a) && Sealed(b)
    ensures Sealed(a + b)
  {
    forall i | 0 <= i < |a + b| ensures Fair((a + b)[i]) && Bracketed(a + b, i) {
      if i < |a| {
        assert Fair(a[i]) && Bracketed(a, i);
      } else {
        assert Fair(b[i - |a|]) && Bracketed(b, i - |a|);
      }
    }
  }

  lemma OneIsSealed(e: Sent)
    requires Fair(e) && (e.Statement? ==> !e.via.ByDescribe?)
    ensures Sealed([e])
  {
  }

  predicate Handed(stmt: string) {
    Permitted(stmt) && (!Blank(stmt) ==> StatementsOf(stmt) == [stmt])
  }

  lemma {:induction false} BatchKeepsSealed(w: World, c: Conn, stmts: seq<string>)
    requires Sealed(c.log) && forall stmt :: stmt in stmts ==> Handed(stmt)
    ensures Sealed(RunBatch(w, c, stmts).0.log)
    decreases |stmts|
  {
    if stmts != [] {
      assert stmts[0] in stmts;
      var o := RunStatement(w, c, Classify(stmts[0]));
      StatementKeepsSealed(w, c, stmts[0]);
      if o.ok {
        BatchKeepsSealed(w, o.conn, stmts[1..]);
      }
    }
  }

  lemma StatementKeepsSealed(w: World, c: Conn, text: string)
    requires Sealed(c.log) && Handed(text)
    ensures Sealed(RunStatement(w, c, Classify(text)).conn.log)
  {
    var stmt := Classify(text);
    StatementReaches(w, c, stmt);
    if RunStatement(w, c, stmt).conn.log != c.log {
      TrimmedAway(text);
      LoggedIsFair(ByQuery, text, stmt.kw, c.txState);
      OneIsSealed(Statement(ByQuery, text, stmt.kw, c.txState));
      SealedAppend(c.log, [Statement(ByQuery, text, stmt.kw, c.txState)]);
    }
  }

  /** A statement of a Query reaches SQLite if and only if it is not blank, not SET or SHOW,
      and, in a failed transaction, one that ends it. */
  lemma StatementReaches(w: World, c: Conn, stmt: Stmt)
    ensures RunStatement(w, c, stmt).conn.log ==
            if stmt.trimmed != "" && !IsSession(stmt.kw) && (c.txState == 'E' ==> Ends(stmt.kw))
            then c.log + [Statement(ByQuery, stmt.text, stmt.kw, c.txState)] else c.log
  {
    if IsSession(stmt.kw) {
      assert SessionCommand(w, c, stmt.kw, stmt.trimmed).0.log == c.log;
    } else {
      assert ExecOne(w, c, stmt).conn.log == c.log + [Statement(ByQuery, stmt.text, stmt.kw, c.txState)];
    }
  }

  /** An Execute hands its statement over if and only if portal and statement are there, the
      handle is open and, in a failed transaction, the statement ends it. */
  lemma ExecuteReaches(w: World, c: Conn, name: string)
    ensures HandleExecute(w, c, name).conn.log ==
            if name in c.portals && c.portals[name].stmtName in c.statements
               && var ps := c.statements[c.portals[name].stmtName];
                  ps.usable && (c.txState == 'E' ==> Ends(FirstKeyword(ps.sql)))
            then var ps := c.statements[c.portals[name].stmtName];
                 c.log + [Statement(ByExecute, ps.sql, FirstKeyword(ps.sql), c.txState)]
            else c.log
  {
    if name in c.portals && c.portals[name].stmtName in c.statements {
      var ps := c.statements[c.portals[name].stmtName];
      PortalReaches(w, c, c.portals[name], ps, FirstKeyword(ps.sql));
    }
  }

  lemma PortalReaches(w: World, c: Conn, p: Portal, ps: Prepared, kw: string)
    ensures ExecutePortal(w, c, p, ps, kw).conn.log ==
            if ps.usable && (c.txState == 'E' ==> Ends(kw))
                then c.log + [Statement(ByExecute, ps.sql, kw, c.txState)] else c.log
  {
  }

  /** The statement a Describe would try out, if it finds one. */
  function Tried(c: Conn, kind: char, name: string): Option<Prepared> {
    if kind == 'S' && name in c.statements then Some(c.statements[name])
    else if kind == 'P' && name in c.portals && c.portals[name].stmtName in c.statements
    then Some(c.statements[c.portals[name].stmtName])
    else None
  }

  /** A Describe runs something in SQLite, whatever the transaction state, if and only if it
      finds a row-returning statement, for whose parameters there is room; what it adds to the
      log is sealed. */
  lemma DescribeReaches(w: World, c: Conn, kind: char, name: string)
    requires AllWellPrepared(c)
    ensures var log := HandleDescribe(w, c, kind, name).conn.log;
            var found := Tried(c, kind, name);
            && (log != c.log <==>
                  found.Some? && found.value.rowReturning
                  && (kind == 'S' ==> found.value.numParams <= w.oidRoom && found.value.numParams <= w.argRoom))
            && c.log <= log && Sealed(log[|c.log|..])
  {
    if kind == 'S' && name in c.statements {
      var ps := c.statements[name];
      ShapeLogged(w, c, WithAnnounced(ps), [], Representative(AnnouncedParams(ps)));
    } else if kind == 'P' && name in c.portals && c.portals[name].stmtName in c.statements {
      var p := c.portals[name];
      ShapeLogged(w, c, c.statements[p.stmtName], p.resultFormats, p.args);
    }
    assert c.log[|c.log|..] == [];
  }

  lemma ShapeLogged(w: World, c: Conn, ps: Prepared, formats: seq<int>, args: seq<Value>)
    requires WellPrepared(ps)
    ensures var log := AfterTrial(c, ps, DescribeRowShape(w, c.sess, ps, formats, args)).log;
            (log != c.log <==> ps.rowReturning) && c.log <= log && Sealed(log[|c.log|..])
  {
    if ps.rowReturning {
      var t := RunTrial(w, c.sess, ps, args);
      var more := TrialLog(c.txState, ps, t);
      TrialIsSealed(c.txState, ps, t);
      assert (c.log + more)[|c.log|..] == more && |c.log + more| > |c.log|;
    } else {
      assert c.log[|c.log|..] == [];
    }
  }

  lemma TrialIsSealed(tx: char, ps: Prepared, t: Trial)
    requires WellPrepared(ps) && ps.rowReturning
    ensures Sealed(TrialLog(tx, ps, t))
  {
    if t.started && ps.usable {
      var log := TrialLog(tx, ps, t);
      LoggedIsFair(ByDescribe, ps.sql, FirstKeyword(ps.sql), tx);
      assert log[1] == Statement(ByDescribe, ps.sql, FirstKeyword(ps.sql), tx) && Fair(log[1]);
      assert log[2] == Own(RollbackTo(DESCRIBE_SAVEPOINT), tx);
    }
  }

  lemma ParseReachesNothing(w: World, c: Conn, name: string, query: string, oids: seq<nat>)
    ensures HandleParse(w, c, name, query, oids).conn.log == c.log
  {
    StoreKeepsLog(w, c, name, NewStatement(w.rewrite(query), oids));
  }

  lemma StoreKeepsLog(w: World, c: Conn, name: string, ps: Prepared)
    ensures StoreStatement(w, c, name, ps).conn.log == c.log
  {
  }

  /** No other extended-query message runs anything in SQLite; Parse only compiles. */
  lemma OthersReachNothing(w: World, c: Conn, r: Request)
    requires r.Extended() && !r.Execute? && !r.Describe?
    ensures Handle(w, c, r).conn.log == c.log
  {
    if r.Parse? {
      ParseReachesNothing(w, c, r.name, r.query, r.oids);
    }
  }

  lemma HandleKeepsSealed(w: World, c: Conn, r: Request)
    requires Sealed(c.log) && AllWellPrepared(c) && r.Extended()
    ensures Sealed(Handle(w, c, r).conn.log)
  {
    var log := Handle(w, c, r).conn.log;
    match r {
      case Execute(name) => ExecuteKeepsSealed(w, c, name);
      case Describe(kind, name) =>
        DescribeReaches(w, c, kind, name);
        SealedAppend(c.log, log[|c.log|..]);
        assert c.log + log[|c.log|..] == log;
      case _ => OthersReachNothing(w, c, r);
    }
  }

  lemma ExecuteKeepsSealed(w: World, c: Conn, name: string)
    requires Sealed(c.log) && AllWellPrepared(c)
    ensures Sealed(HandleExecute(w, c, name).conn.log)
  {
    ExecuteReaches(w, c, name);
    if HandleExecute(w, c, name).conn.log != c.log {
      var ps := c.statements[c.portals[name].stmtName];
      assert WellPrepared(ps);
      LoggedIsFair(ByExecute, ps.sql, FirstKeyword(ps.sql), c.txState);
      OneIsSealed(Statement(ByExecute, ps.sql, FirstKeyword(ps.sql), c.txState));
      SealedAppend(c.log, [Statement(ByExecute, ps.sql, FirstKeyword(ps.sql), c.txState)]);
    }
  }

  lemma StepKeepsWellPrepared(w: World, c: Conn, r: Request)
    requires AllWellPrepared(c)
    ensures AllWellPrepared(Step(w, c, r).0)
  {
    StepStatements(w, c, r);
  }

  lemma StepKeepsSealed(w: World, c: Conn, r: Request)
    requires Sealed(c.log) && AllWellPrepared(c)
    ensures Sealed(Step(w, c, r).0.log)
  {
    if c.alive && !c.inError && r.Extended() {
      HandleKeepsSealed(w, c, r);
    } else if c.alive && r.Query? && Allowed(w.rewrite(r.sql)) {
      var stmts := StatementsOf(w.rewrite(r.sql));
      forall stmt | stmt in stmts ensures Handed(stmt) {
        if !Blank(stmt) { PieceIsOne(w.rewrite(r.sql), stmt); }
      }
      BatchKeepsSealed(w, c, stmts);
    }
  }

  /** Over every run, whatever the messages and whatever SQLite does.  What the seal comes to,
      and where it fails to come to more, is the subject of `GuardLaws`. */
  lemma {:induction false} RunKeepsSealed(w: World, c: Conn, rs: seq<Request>)
    requires Sealed(c.log) && AllWellPrepared(c)
    ensures Sealed(Run(w, c, rs).0.log) && AllWellPrepared(Run(w, c, rs).0)
    decreases |rs|
  {
    if rs != [] {
      StepKeepsSealed(w, c, rs[0]);
      StepKeepsWellPrepared(w, c, rs[0]);
      RunKeepsSealed(w, Step(w, c, rs[0]).0, rs[1..]);
    }
  }
}
