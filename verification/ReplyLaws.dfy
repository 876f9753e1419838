/** What the client gets to see over whole runs: the reply grammar, where the program leaves
    PostgreSQL's, and what ends a connection. */
module ReplyLaws {
  import opened Blanks
  import opened SqlKeywords
  import opened Sqlite
  import opened Options
  import opened PgTypes
  import opened Protocol
  import opened Connection
  import opened TransactionLaws

  // ---- Rows ----------------------------------------------------------------

  ghost predicate AllRowsOf(out: seq<Reply>, cols: seq<Column>) {
    forall x :: x in out ==> RowOf(x, cols)
  }

  lemma {:induction false} SendRowsShape(rows: seq<Row>, from: nat, cols: seq<Column>, broken: bool)
    requires from <= |rows|
    ensures var (out, ok) := SendRows(rows, from, cols, broken);
            && out != [] && AllRowsOf(out[..|out| - 1], cols)
            && var last := out[|out| - 1];
            if ok then last == CommandComplete("SELECT", |rows|)
                && |out| - 1 == |rows| - from else last == ErrorResponse
    decreases |rows| - from
  {
    if from < |rows| && |rows[from]| == |cols| {
      SendRowsShape(rows, from + 1, cols, broken);
      var row := DataRow(Encode(rows[from], cols));
      var rest := SendRows(rows, from + 1, cols, broken).0;
      assert ([row] + rest)[..|rest|] == [row] + rest[..|rest| - 1];
    }
  }

  // ---- Extended Query ------------------------------------------------------

  /** An answer in the grammar that reports an error exactly when the handler failed. */
  predicate Honest(r: Request, o: Outcome) {
    && Answers(false, r, o.out)
    && (o.ok <==> !(o.out != [] && o.out[|o.out| - 1].ErrorResponse?))
  }

  lemma DescribeIsHonest(w: World, c: Conn, kind: char, name: string)
    requires HandleDescribe(w, c, kind, name).conn.alive && c.alive
    ensures Honest(Describe(kind, name), HandleDescribe(w, c, kind, name))
    ensures Answers(true, Describe(kind, name), HandleDescribe(w, c, kind, name).out)
  {
    if kind == 'S' && name in c.statements {
      DescribeStatementIsHonest(w, c, name);
    } else if kind == 'P' && name in c.portals && c.portals[name].stmtName in c.statements {
      var p := c.portals[name];
      ShapeIsOneReply(w, c.sess, c.statements[p.stmtName], p.resultFormats, p.args);
    }
  }

  lemma DescribeStatementIsHonest(w: World, c: Conn, name: string)
    requires name in c.statements && c.alive && DescribeStatement(w, c, name).conn.alive
    ensures var o := DescribeStatement(w, c, name);
            Honest(Describe('S', name), o) && Answers(true, Describe('S', name), o.out)
  {
    var ps := c.statements[name];
    ShapeIsOneReply(w, c.sess, WithAnnounced(ps), [], Representative(AnnouncedParams(ps)));
  }

  lemma ShapeIsOneReply(w: World, s: Session, ps: Prepared, formats: seq<int>, args: seq<Value>)
    ensures var d := DescribeRowShape(w, s, ps, formats, args);
            if d.alive then |d.out| == 1 && Shape(d.out[0]) && (d.ok <==> !d.out[0].ErrorResponse?)
            else d.out == [] && |formats| > 1
    ensures var d := DescribeRowShape(w, s, ps, formats, args);
            match d.oids
            case None => !(d.out != [] && d.out[0].RowDescription?)
            case Some(oids) => Enough(formats, |oids|) && d.out == [RowDescription(Columns(oids, formats))]
  {
  }

  /** The standard's grammar is left only by a completion without a tag. */
  lemma PortalIsHonest(w: World, c: Conn, p: Portal, ps: Prepared, kw: string, name: string)
    requires ExecutePortal(w, c, p, ps, kw).conn.alive && (!ps.rowReturning ==> kw != "SELECT")
    ensures var o := ExecutePortal(w, c, p, ps, kw);
            Honest(Execute(name), o)
            && (Answers(true, Execute(name), o.out) <==> !(o.ok && !ps.rowReturning && kw == ""))
  {
    var r := RunPrepared(w, c.sess, ps, p.args).1;
    if r.Done? && ps.rowReturning {
      var promised := PromisedOids(p, ps);
      var oids := if promised.Some? then promised.value else r.oids;
      if Enough(p.resultFormats, |oids|) {
        RowsAnswer(r.rows, Columns(oids, p.resultFormats), r.broken, name);
      }
    }
  }

  lemma RowsAnswer(rows: seq<Row>, cols: seq<Column>, broken: bool, name: string)
    ensures var (out, ok) := SendRows(rows, 0, cols, broken);
            && Answers(true, Execute(name), out) && Answers(false, Execute(name), out)
            && out != [] && (ok <==> !out[|out| - 1].ErrorResponse?)
  {
    SendRowsShape(rows, 0, cols, broken);
  }

  /** A statement whose first keyword is SELECT returns rows. */
  lemma SelectReturnsRows(sql: string)
    requires FirstKeyword(sql) == "SELECT"
    ensures RowReturning(sql)
  {
    TrimParens(sql);
    TrimTwice(sql);
  }

  lemma {:induction false} TrimParens(s: string)
    ensures var t := TrimLeft(s, BLANKS);
            (t != [] && t[0] == '(') || TrimLeft(s, {'('} + BLANKS) == t
  {
    if s != [] && s[0] in BLANKS {
      TrimParens(s[1..]);
    }
  }

  /** The Execute completes a statement without a keyword: an empty one, or only a comment. */
  predicate Untagged(w: World, c: Conn, name: string) {
    && name in c.portals && c.portals[name].stmtName in c.statements
    && var ps := c.statements[c.portals[name].stmtName];
    !ps.rowReturning && FirstKeyword(ps.sql) == "" && HandleExecute(w, c, name).ok
  }

  lemma ExecuteIsHonest(w: World, c: Conn, name: string)
    requires AllWellPrepared(c) && HandleExecute(w, c, name).conn.alive
    ensures Honest(Execute(name), HandleExecute(w, c, name))
    ensures Answers(true, Execute(name), HandleExecute(w, c, name).out) <==> !Untagged(w, c, name)
  {
    if name in c.portals && c.portals[name].stmtName in c.statements {
      var p := c.portals[name];
      var ps := c.statements[p.stmtName];
      if FirstKeyword(ps.sql) == "SELECT" {
        SelectReturnsRows(ps.sql);
      }
      PortalIsHonest(w, c, p, ps, FirstKeyword(ps.sql), name);
    }
  }

  lemma ParseIsHonest(w: World, c: Conn, name: string, query: string, oids: seq<nat>)
    ensures Honest(Parse(name, query, oids), HandleParse(w, c, name, query, oids))
    ensures HandleParse(w, c, name, query, oids).conn.alive == c.alive
  {
  }

  lemma BindIsHonest(w: World, c: Conn, r: Request)
    requires r.Bind? && Handle(w, c, r).conn.alive
    ensures Honest(r, Handle(w, c, r))
  {
  }

  lemma HandleIsHonest(w: World, c: Conn, r: Request)
    requires r.Extended() && AllWellPrepared(c) && c.alive && Handle(w, c, r).conn.alive
    ensures Honest(r, Handle(w, c, r))
    ensures Answers(true, r, Handle(w, c, r).out) <==> !(r.Execute? && Untagged(w, c, r.portal))
  {
    match r {
      case Parse(name, query, oids) => ParseIsHonest(w, c, name, query, oids);
      case Bind(_, _, _, _, _) => BindIsHonest(w, c, r);
      case Describe(kind, name) => DescribeIsHonest(w, c, kind, name);
      case Execute(name) => ExecuteIsHonest(w, c, name);
      case _ =>
    }
  }

  lemma HandleKeepsInError(w: World, c: Conn, r: Request)
    requires r.Extended()
    ensures Handle(w, c, r).conn.inError == c.inError
  {
    match r {
      case Execute(name) => ExecuteKeepsMaps(w, c, name);
      case Describe(kind, name) => DescribeKeepsStatus(w, c, kind, name);
      case _ =>
    }
  }

  lemma DescribeKeepsStatus(w: World, c: Conn, kind: char, name: string)
    ensures var c1 := HandleDescribe(w, c, kind, name).conn; c1.inError == c.inError && c1.txState == c.txState
  {
  }

  // ---- Simple Query --------------------------------------------------------

  /** A statement that completes without a tag, if it completes. */
  predicate NoKeyword(stmt: Stmt) {
    stmt.trimmed != "" && stmt.kw == "" && !stmt.rows
  }

  /** An error is the answer, and the batch goes on all the same. */
  predicate Slips(w: World, c: Conn, stmt: Stmt) {
    stmt.trimmed != "" && c.txState != 'E' && Unreadable(w, stmt.kw, stmt.trimmed)
  }

  /** A statement ends with the batch going on after an ErrorResponse if and only if it is a
      SET or SHOW, not in a failed transaction, that the program cannot read, or SHOW ALL. */
  lemma ErrorGoesOn(w: World, c: Conn, stmt: Stmt)
    ensures var o := RunStatement(w, c, stmt);
            && (o.ok && CountErrors(o.out) > 0 <==> Slips(w, c, stmt))
            && (Slips(w, c, stmt) ==> o == Outcome(c, true, [ErrorResponse]))
            && (!o.ok ==> o.out != [] && o.out[|o.out| - 1].ErrorResponse? && CountErrors(o.out) == 1)
  {
    if stmt.trimmed == "" || (c.txState == 'E' && !Ends(stmt.kw)) {
      CountsOne(ErrorResponse);
    } else if IsSession(stmt.kw) {
      SessionErrors(w, c, stmt.kw, stmt.trimmed);
    } else {
      StatementErrors(w, c, stmt);
    }
  }

  lemma SessionErrors(w: World, c: Conn, kw: string, stmt: string)
    requires IsSession(kw)
    ensures var (c1, out) := SessionCommand(w, c, kw, stmt);
            if Unreadable(w, kw, stmt) then c1 == c && out == [ErrorResponse]
                && CountErrors(out) == 1 else CountErrors(out) == 0
  {
    var out := SessionCommand(w, c, kw, stmt).1;
    CountsOne(ErrorResponse);
    if kw == "SHOW" && !Unreadable(w, kw, stmt) {
      ThreeReplies(false, out[0], out[1], out[2]);
    } else {
      CountsOne(out[0]);
    }
  }

  lemma ThreeReplies(strict: bool, a: Reply, b: Reply, c: Reply)
    ensures ProceedAll(strict, Between, [a, b, c])
        == Proceed(strict, Proceed(strict, Proceed(strict, Between, a), b), c)
    ensures !a.ErrorResponse? && !b.ErrorResponse? && !c.ErrorResponse? ==> CountErrors([a, b, c]) == 0
  {
    assert [a, b, c] == [a] + [b] + [c];
    ProceedAppend(strict, Between, [a] + [b], [c]);
    ProceedAppend(strict, Between, [a], [b]);
    assert forall p :: ProceedAll(strict, p, [c]) == Proceed(strict, p, c) by { assert [c][1..] == []; }
    assert forall p :: ProceedAll(strict, p, [b]) == Proceed(strict, p, b) by { assert [b][1..] == []; }
    OneProceeds(strict, a);
    CountsAppend([a] + [b], [c]);
    CountsAppend([a], [b]);
    CountsOne(a);
    CountsOne(b);
    CountsOne(c);
  }

  lemma StatementErrors(w: World, c: Conn, stmt: Stmt)
    requires !IsSession(stmt.kw)
    ensures var o := RunStatement(w, c, stmt);
            if o.ok then CountErrors(o.out) == 0
            else o.out != [] && o.out[|o.out| - 1].ErrorResponse? && CountErrors(o.out) == 1
  {
    CountsOne(ErrorResponse);
    var r := Exec(w.env, c.sess, stmt.text, []).1;
    if r.Done? {
      CountsOne(CommandComplete(stmt.kw, r.affected));
      RowsErrors(r.rows, Columns(r.oids, []), r.broken);
    }
  }

  lemma RowsErrors(rows: seq<Row>, cols: seq<Column>, broken: bool)
    ensures var (out, ok) := SendRows(rows, 0, cols, broken);
            && out != [] && (ok <==> !out[|out| - 1].ErrorResponse?)
            && CountErrors([RowDescription(cols)] + out) == if ok then 0 else 1
  {
    SendRowsShape(rows, 0, cols, broken);
    var out := SendRows(rows, 0, cols, broken).0;
    CountsLast(out);
    RowsCount(out[..|out| - 1]);
    CountsOne(RowDescription(cols));
    CountsOne(out[|out| - 1]);
    CountsAppend([RowDescription(cols)], out);
  }

  /** A batch whose SETs and SHOWs can all be read stops at its first error: it sends at most
      one ErrorResponse, and nothing after it. */
  lemma {:induction false} ErrorEndsBatch(w: World, c: Conn, stmts: seq<string>)
    requires forall i :: 0 <= i < |stmts| ==> var stmt := Classify(stmts[i]); !Unreadable(w, stmt.kw, stmt.trimmed)
    ensures var out := RunBatch(w, c, stmts).1;
            CountErrors(out) <= 1 && (CountErrors(out) == 1 ==> out[|out| - 1].ErrorResponse?)
    decreases |stmts|
  {
    if stmts != [] {
      var o := RunStatement(w, c, Classify(stmts[0]));
      ErrorGoesOn(w, c, Classify(stmts[0]));
      if o.ok {
        ErrorEndsBatch(w, o.conn, stmts[1..]);
        CountsAppend(o.out, RunBatch(w, o.conn, stmts[1..]).1);
      }
    }
  }

  /** Where one statement takes the grammar of a Query. */
  function Afterwards(strict: bool, w: World, c: Conn, stmt: Stmt): Progress {
    if Slips(w, c, stmt) then Stopped(strict)
    else if strict && NoKeyword(stmt) then Broken
    else Between
  }

  lemma StatementProceeds(strict: bool, w: World, c: Conn, stmt: Stmt)
    requires stmt.kw == "SELECT" ==> stmt.rows
    ensures var o := RunStatement(w, c, stmt);
            && (o.out == [] <==> stmt.trimmed == "")
            && var p := ProceedAll(strict, Between, o.out);
            if o.ok then p == Afterwards(strict, w, c, stmt) else p.Stopped?
  {
    if stmt.trimmed == "" || (c.txState == 'E' && !Ends(stmt.kw)) {
      OneProceeds(strict, ErrorResponse);
    } else if IsSession(stmt.kw) {
      SessionProceeds(strict, w, c, stmt.kw, stmt.trimmed);
    } else {
      ExecProceeds(strict, w, c, stmt);
    }
  }

  lemma OneProceeds(strict: bool, r: Reply)
    ensures ProceedAll(strict, Between, [r]) == Proceed(strict, Between, r)
  {
    assert [r][1..] == [];
  }

  lemma SessionProceeds(strict: bool, w: World, c: Conn, kw: string, stmt: string)
    requires IsSession(kw)
    ensures var out := SessionCommand(w, c, kw, stmt).1;
            out != [] && ProceedAll(strict, Between, out) == if Unreadable(w, kw, stmt) then Stopped(strict)
                else Between
  {
    var out := SessionCommand(w, c, kw, stmt).1;
    if kw == "SHOW" && !Unreadable(w, kw, stmt) {
      ThreeReplies(strict, out[0], out[1], out[2]);
      assert RowOf(out[1], out[0].columns);
    } else {
      OneProceeds(strict, out[0]);
      assert out == [out[0]];
    }
  }

  lemma ExecProceeds(strict: bool, w: World, c: Conn, stmt: Stmt)
    requires !IsSession(stmt.kw) && stmt.trimmed != "" && (stmt.kw == "SELECT" ==> stmt.rows)
    ensures var o := ExecOne(w, c, stmt);
            && o.out != []
            && var p := ProceedAll(strict, Between, o.out);
            if o.ok then p == if strict && NoKeyword(stmt) then Broken else Between else p.Stopped?
  {
    OneProceeds(strict, ErrorResponse);
    var r := Exec(w.env, c.sess, stmt.text, []).1;
    if r.Done? {
      if stmt.rows {
        RowsProceed(strict, r.rows, Columns(r.oids, []), r.broken);
      } else {
        OneProceeds(strict, CommandComplete(stmt.kw, r.affected));
      }
    }
  }

  lemma RowsProceed(strict: bool, rows: seq<Row>, cols: seq<Column>, broken: bool)
    ensures var (out, ok) := SendRows(rows, 0, cols, broken);
            ProceedAll(strict, Between, [RowDescription(cols)] + out) == if ok then Between else Stopped(true)
  {
    var out := SendRows(rows, 0, cols, broken).0;
    SendRowsShape(rows, 0, cols, broken);
    var k := |out| - 1;
    assert ([RowDescription(cols)] + out)[1..] == out && out == out[..k] + [out[k]];
    RowsCounted(strict, cols, 0, out[..k]);
    ProceedAppend(strict, InRows(cols, 0), out[..k], [out[k]]);
    assert [out[k]][1..] == [];
  }

  lemma {:induction false} RowsCounted(strict: bool, cols: seq<Column>, sent: nat, out: seq<Reply>)
    requires AllRowsOf(out, cols)
    ensures ProceedAll(strict, InRows(cols, sent), out) == InRows(cols, sent + |out|)
    decreases |out|
  {
    if out != [] {
      assert out[0] in out;
      RowsCounted(strict, cols, sent + 1, out[1..]);
    }
  }

  predicate AllBlank(stmts: seq<string>) {
    forall s :: s in stmts ==> Classify(s).trimmed == ""
  }

  /** The batch comes to a statement without a keyword that completes, or to a reply after an
      error that did not end it. */
  predicate BatchDeviates(w: World, c: Conn, stmts: seq<string>)
    decreases |stmts|
  {
    stmts != [] &&
    var stmt := Classify(stmts[0]);
    var o := RunStatement(w, c, stmt);
    o.ok && (NoKeyword(stmt) || (Slips(w, c, stmt) && !AllBlank(stmts[1..])) || BatchDeviates(w, o.conn, stmts[1..]))
  }

  lemma {:induction false} BatchProceeds(strict: bool, w: World, c: Conn, stmts: seq<string>)
    ensures var out := RunBatch(w, c, stmts).1;
            && (out == [] <==> AllBlank(stmts))
            && var p := ProceedAll(strict, Between, out);
            (p.Between? || p.Stopped?) <==> !(strict && BatchDeviates(w, c, stmts))
    decreases |stmts|
  {
    if stmts != [] {
      var stmt := Classify(stmts[0]);
      var o := RunStatement(w, c, stmt);
      if stmt.kw == "SELECT" {
        SelectReturnsRows(stmt.trimmed);
      }
      StatementProceeds(strict, w, c, stmt);
      assert AllBlank(stmts) <==> stmt.trimmed == "" && AllBlank(stmts[1..]) by { BlankFirst(stmts); }
      if o.ok {
        BatchProceeds(strict, w, o.conn, stmts[1..]);
        RestProceeds(strict, Afterwards(strict, w, c, stmt), o.out, RunBatch(w, o.conn, stmts[1..]).1);
      }
    }
  }

  lemma BlankFirst(stmts: seq<string>)
    requires stmts != []
    ensures AllBlank(stmts) <==> Classify(stmts[0]).trimmed == "" && AllBlank(stmts[1..])
  {
    assert stmts == [stmts[0]] + stmts[1..];
  }

  lemma RestProceeds(strict: bool, p: Progress, out: seq<Reply>, rest: seq<Reply>)
    requires ProceedAll(strict, Between, out) == p && (p.Between? || p.Broken? || p == Stopped(strict))
    ensures ProceedAll(strict, Between, out + rest) ==
            match p
            case Between => ProceedAll(strict, Between, rest)
            case Stopped(_) => if rest == [] then p else if strict then Broken else ProceedAll(strict, Between, rest)
            case _ => Broken
  {
    ProceedAppend(strict, Between, out, rest);
    if p.Broken? {
      BrokenStays(strict, rest);
    } else if p.Stopped? && rest != [] {
      AfterError(strict, rest);
    }
  }

  /** A Query the program answers outside of the standard: without any statement, which is
      answered with silence, or one whose batch deviates. */
  predicate QueryDeviates(w: World, c: Conn, sql: string) {
    || Blank(sql)
    || (var query := w.rewrite(sql);
        Allowed(query) && (AllBlank(StatementsOf(query)) || BatchDeviates(w, c, StatementsOf(query))))
  }

  lemma QueryIsBatch(w: World, c: Conn, sql: string)
    ensures var out := SimpleQuery(w, c, sql).1; Batch(false, out) && (Batch(true, out) <==> !QueryDeviates(w, c, sql))
  {
    if Blank(sql) {
    } else if !Allowed(w.rewrite(sql)) {
      OneProceeds(false, ErrorResponse);
      OneProceeds(true, ErrorResponse);
    } else {
      StatementsAreBatch(w, c, StatementsOf(w.rewrite(sql)));
    }
  }

  lemma StatementsAreBatch(w: World, c: Conn, stmts: seq<string>)
    ensures var out := RunBatch(w, c, stmts).1;
            Batch(false, out) && (Batch(true, out) <==> !(AllBlank(stmts) || BatchDeviates(w, c, stmts)))
  {
    OneProceeds(false, EmptyQueryResponse);
    BatchProceeds(false, w, c, stmts);
    BatchProceeds(true, w, c, stmts);
  }

  // ---- The state byte is one of three --------------------------------------

  predicate Status(c: Conn) { c.txState in {'I', 'T', 'E'} }

  lemma {:induction false} BatchKeepsStatus(w: World, c: Conn, stmts: seq<string>)
    requires Status(c)
    ensures Status(RunBatch(w, c, stmts).0)
    decreases |stmts|
  {
    if stmts != [] {
      var stmt := Classify(stmts[0]);
      var o := RunStatement(w, c, stmt);
      if IsSession(stmt.kw) {
        SessionKeepsMaps(w, c, stmt.kw, stmt.trimmed);
      }
      assert Status(o.conn);
      if o.ok {
        BatchKeepsStatus(w, o.conn, stmts[1..]);
      }
    }
  }

  lemma HandleKeepsStatus(w: World, c: Conn, r: Request)
    requires Status(c) && r.Extended()
    ensures Status(Handle(w, c, r).conn)
  {
    match r {
      case Describe(kind, name) => DescribeKeepsStatus(w, c, kind, name);
      case Execute(name) => ExecuteKeepsStatus(w, c, name);
      case _ =>
    }
  }

  lemma ExecuteKeepsStatus(w: World, c: Conn, name: string)
    requires Status(c)
    ensures Status(HandleExecute(w, c, name).conn)
  {
    if name in c.portals && c.portals[name].stmtName in c.statements {
      PortalKeepsStatus(w, c, c.portals[name], c.statements[c.portals[name].stmtName],
                        FirstKeyword(c.statements[c.portals[name].stmtName].sql));
    }
  }

  lemma PortalKeepsStatus(w: World, c: Conn, p: Portal, ps: Prepared, kw: string)
    requires Status(c)
    ensures Status(ExecutePortal(w, c, p, ps, kw).conn)
  {
  }

  lemma StepKeepsStatus(w: World, c: Conn, r: Request)
    requires Status(c)
    ensures Status(Step(w, c, r).0)
  {
    if r.Extended() {
      HandleKeepsStatus(w, c, r);
    } else if r.Query? {
      BatchKeepsStatus(w, c, StatementsOf(w.rewrite(r.sql)));
    }
  }

  // ---- One message ---------------------------------------------------------

  /** A message the program answers outside of PostgreSQL's grammar. */
  predicate Deviates(w: World, c: Conn, r: Request) {
    match r
    case Query(sql) => c.inError || QueryDeviates(w, c, sql)
    case Execute(name) => !c.inError && Untagged(w, c, name)
    case Unknown => true
    case _ => false
  }

  /** One message, answered: in the program's grammar always, and in PostgreSQL's if and only
      if it does not deviate; skipped exactly while the server is in error. */
  lemma StepAnswers(w: World, c: Conn, r: Request)
    requires AllWellPrepared(c) && Status(c) && c.alive && Step(w, c, r).0.alive
    ensures var (c1, out) := Step(w, c, r);
            && Replied(false, r, out, c.inError)
            && (Replied(true, r, out, c.inError) <==> !Deviates(w, c, r))
            && (c.inError && r.Extended() ==> out == [] && c1 == c)
            && c1.inError == Skipping(r, out, c.inError)
  {
    if r.Extended() && !c.inError {
      HandleIsHonest(w, c, r);
      HandleKeepsInError(w, c, r);
    } else if r.Query? {
      QueryAnswers(w, c, r.sql);
    }
  }

  lemma QueryAnswers(w: World, c: Conn, sql: string)
    requires Status(c) && c.alive
    ensures var (c1, out) := Step(w, c, Query(sql));
            && Answers(false, Query(sql), out) && out != []
            && (Answers(true, Query(sql), out) <==> !QueryDeviates(w, c, sql))
            && c1.inError == c.inError
  {
    var (c1, body) := SimpleQuery(w, c, sql);
    var out := Step(w, c, Query(sql)).1;
    assert out[..|out| - 1] == body;
    StepKeepsStatus(w, c, Query(sql));
    QueryIsBatch(w, c, sql);
    QueryKeepsMaps(w, c, sql);
  }

  /** The standard's EmptyQueryResponse is never sent: a query without statements gets nothing
      but ReadyForQuery, and an empty statement's Execute a completion with an empty tag. */
  lemma EmptyQueryIsSilent(w: World, c: Conn)
    requires c.alive
    ensures Step(w, c, Query("")) == (c, [ReadyForQuery(c.txState)])
    ensures !Answers(true, Query(""), Step(w, c, Query("")).1)
  {
    var out := Step(w, c, Query("")).1;
    assert [] + [ReadyForQuery(c.txState)] == [ReadyForQuery(c.txState)];
    assert out[..0] == [];
  }

  lemma EmptyExecuteIsUntagged(w: World, c: Conn, name: string)
    requires c.alive && !c.inError && c.txState != 'E' && name in c.portals && c.portals[name].stmtName in c.statements
    requires var ps := c.statements[c.portals[name].stmtName];
             ps.sql == "" && !ps.rowReturning && ps.usable && Exec(w.env, c.sess, "", c.portals[name].args).1.Done?
    ensures var out := Step(w, c, Execute(name)).1;
            (exists n: nat :: out == [CommandComplete("", n)]) && !Answers(true, Execute(name), out)
  {
    var p := c.portals[name];
    var r := Exec(w.env, c.sess, "", p.args).1;
    assert FirstKeyword("") == "";
    assert ExecutePortal(w, c, p, c.statements[p.stmtName], "").out == [CommandComplete("", r.affected)];
  }

  // ---- Runs ----------------------------------------------------------------

  lemma {:induction false} DeadStaysDead(w: World, c: Conn, rs: seq<Request>)
    requires !c.alive
    ensures !Run(w, c, rs).0.alive
    decreases |rs|
  {
    if rs != [] {
      DeadStaysDead(w, Step(w, c, rs[0]).0, rs[1..]);
    }
  }

  predicate RunDeviates(w: World, c: Conn, rs: seq<Request>)
    decreases |rs|
  {
    rs != [] && (Deviates(w, c, rs[0]) || RunDeviates(w, Step(w, c, rs[0]).0, rs[1..]))
  }

  /** Every run a connection survives, of a client that sends nothing between a Query and its
      ReadyForQuery (see `ByteLoop`), is a conversation of the program's grammar, and one of
      PostgreSQL's if and only if no message in it deviates. */
  lemma {:induction false} RunConforms(w: World, c: Conn, rs: seq<Request>)
    requires AllWellPrepared(c) && Status(c) && Run(w, c, rs).0.alive
    ensures Conforms(false, rs, Run(w, c, rs).1, c.inError)
    ensures Conforms(true, rs, Run(w, c, rs).1, c.inError) <==> !RunDeviates(w, c, rs)
    decreases |rs|
  {
    if !c.alive {
      DeadStaysDead(w, c, rs);
    } else if rs != [] {
      var (c1, out) := Step(w, c, rs[0]);
      if !c1.alive {
        DeadStaysDead(w, c1, rs[1..]);
      } else {
        StepAnswers(w, c, rs[0]);
        StepKeepsWellPrepared(w, c, rs[0]);
        StepKeepsStatus(w, c, rs[0]);
        RunConforms(w, c1, rs[1..]);
        assert Run(w, c, rs).1[1..] == Run(w, c1, rs[1..]).1;
      }
    }
  }

  /** Messages skipped after an error leave no trace: not on the statements, portals, data
      or state byte, and not in the output. */
  lemma {:induction false} SkippedRunIsInert(w: World, c: Conn, rs: seq<Request>)
    requires c.inError && forall r :: r in rs ==> r.Extended()
    ensures Run(w, c, rs).0 == c && Stream(Run(w, c, rs).1) == []
    decreases |rs|
  {
    if rs != [] {
      assert rs[0] in rs;
      SkippedRunIsInert(w, c, rs[1..]);
      assert Run(w, c, rs).1[1..] == Run(w, c, rs[1..]).1;
    }
  }
}
