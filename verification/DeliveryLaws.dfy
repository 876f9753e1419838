/** Nothing is lost on the way: values from Bind to SQLite, statements from a Query to
    SQLite, rows from SQLite to the client. */
module DeliveryLaws {
  import opened Blanks
  import opened SqlLexer
  import opened SqlKeywords
  import opened Sqlite
  import opened Options
  import opened PgTypes
  import opened Protocol
  import opened Connection
  import opened TransactionLaws
  import opened ReplyLaws
  import opened LifeLaws
  import opened PromiseLaws
  import opened HandlerLaws

  // ---- Rows ----------------------------------------------------------------

  /** `out` is the rows of a result, each value in its place, then the completion. */
  ghost predicate Delivers(out: seq<Reply>, rows: seq<Row>) {
    && |out| == |rows| + 1
    && (forall j :: 0 <= j < |rows| ==> Carries(out[j], rows[j]))
    && out[|rows|] == CommandComplete("SELECT", |rows|)
  }

  /** The reply is a DataRow of exactly these values, in order. */
  predicate Carries(r: Reply, row: Row) {
    r.DataRow? && |r.fields| == |row| && forall i :: 0 <= i < |row| ==> r.fields[i].value == row[i]
  }

  /** All but the last reply are the rows from `from` on. */
  ghost predicate CarriesFrom(out: seq<Reply>, rows: seq<Row>, from: nat) {
    |out| <= |rows| - from + 1 && forall j :: 0 <= j < |out| - 1 ==> Carries(out[j], rows[from + j])
  }

  lemma {:induction false} RowsDelivered(rows: seq<Row>, from: nat, cols: seq<Column>, broken: bool)
    requires from <= |rows|
    ensures var (out, ok) := SendRows(rows, from, cols, broken);
            && (ok <==> !broken && forall j :: from <= j < |rows| ==> |rows[j]| == |cols|)
            && (ok ==> |out| == |rows| - from + 1 && out[|rows| - from] == CommandComplete("SELECT", |rows|))
            && CarriesFrom(out, rows, from)
    decreases |rows| - from
  {
    if from < |rows| && |rows[from]| == |cols| {
      RowsDelivered(rows, from + 1, cols, broken);
      var rest := SendRows(rows, from + 1, cols, broken).0;
      var out := [DataRow(Encode(rows[from], cols))] + rest;
      assert CarriesFrom(out, rows, from) by {
        forall j | 0 < j < |out| - 1 ensures Carries(out[j], rows[from + j]) {
          assert out[j] == rest[j - 1] && rows[from + j] == rows[from + 1 + (j - 1)];
        }
      }
    }
  }

  /** What is sent for a statement with first keyword `kw` that came out as `r`: every row, in
      order and value by value, and no other; or, of a statement without rows, its completion
      with the rows affected. */
  ghost predicate Answered(out: seq<Reply>, rows: bool, kw: string, r: Result) {
    r.Done? && if rows then Delivers(out, r.rows) else out == [CommandComplete(kw, r.affected)]
  }

  /** An Execute that succeeds has SQLite run the statement's text on the portal's values, once,
      and answers with what that call gave. */
  lemma ExecuteDelivers(w: World, c: Conn, name: string)
    requires FoundPortal(c, name) && HandleExecute(w, c, name).ok && HandleExecute(w, c, name).conn.alive
    ensures var (o, p) := (HandleExecute(w, c, name), c.portals[name]);
            var ps := c.statements[p.stmtName];
            var (s, r) := Exec(w.env, c.sess, ps.sql, p.args);
            ps.usable && o.conn.sess == s && Answered(o.out, ps.rowReturning, FirstKeyword(ps.sql), r)
  {
    var p := c.portals[name];
    PortalAnswers(w, c, p, c.statements[p.stmtName], FirstKeyword(c.statements[p.stmtName].sql));
  }

  lemma PortalAnswers(w: World, c: Conn, p: Portal, ps: Prepared, kw: string)
    requires ExecutePortal(w, c, p, ps, kw).conn.alive
    ensures var o := ExecutePortal(w, c, p, ps, kw);
            var (s, r) := Exec(w.env, c.sess, ps.sql, p.args);
            && (o.ok ==> ps.usable && LetThrough(c.txState, kw) && Answered(o.out, ps.rowReturning, kw, r))
            && (ps.usable && LetThrough(c.txState, kw) ==> o.conn.sess == s)
  {
    PortalIs(w, c, p, ps, kw);
    if ps.rowReturning && ExecutePortal(w, c, p, ps, kw).ok {
      PortalDelivers(w, c, p, ps, kw);
    }
  }

  lemma PortalDelivers(w: World, c: Conn, p: Portal, ps: Prepared, kw: string)
    requires ps.rowReturning && ExecutePortal(w, c, p, ps, kw).ok
    ensures var r := Exec(w.env, c.sess, ps.sql, p.args).1;
            r.Done? && Delivers(ExecutePortal(w, c, p, ps, kw).out, r.rows)
  {
    var r := Exec(w.env, c.sess, ps.sql, p.args).1;
    var promised := PromisedOids(p, ps);
    var oids := if promised.Some? then promised.value else r.oids;
    RowsDelivered(r.rows, 0, Columns(oids, p.resultFormats), r.broken);
  }

  /** So does a Simple Query, all of it as text: the rows behind a RowDescription of the very
      columns, or the completion. */
  lemma QueryDelivers(w: World, c: Conn, stmt: Stmt)
    requires ExecOne(w, c, stmt).ok
    ensures var (o, r) := (ExecOne(w, c, stmt), Exec(w.env, c.sess, stmt.text, []).1);
            && r.Done?
            && if !stmt.rows then Answered(o.out, false, stmt.kw, r)
               else o.out != [] && o.out[0].RowDescription? && ColumnsFor(o.out[0].columns, r.oids, [])
                    && Delivers(o.out[1..], r.rows)
  {
    var r := Exec(w.env, c.sess, stmt.text, []).1;
    if stmt.rows {
      ColumnsAre(r.oids, []);
      RowsDelivered(r.rows, 0, Columns(r.oids, []), r.broken);
      assert ([RowDescription(Columns(r.oids, []))] + SendRows(r.rows, 0, Columns(r.oids, []), r.broken).0)[1..]
          == SendRows(r.rows, 0, Columns(r.oids, []), r.broken).0;
    }
  }

  /** The rows of an Execute are for the types it goes by, in the formats its Bind asked for, and
      each value reads well in its format. */
  lemma ExecuteSendsAs(w: World, c: Conn, name: string)
    requires FoundPortal(c, name) && HandleExecute(w, c, name).ok && HandleExecute(w, c, name).conn.alive
    requires c.statements[c.portals[name].stmtName].rowReturning
    ensures var (o, p) := (HandleExecute(w, c, name), c.portals[name]);
            var ps := c.statements[p.stmtName];
            var r := Exec(w.env, c.sess, ps.sql, p.args).1;
            r.Done? && TypesFor(p, ps, r).Some? &&
            exists cols ::
              ColumnsFor(cols, TypesFor(p, ps, r).value, p.resultFormats) && Kept(w.widen, o.out, cols, true)
  {
    var p := c.portals[name];
    var ps := c.statements[p.stmtName];
    PortalSendsAs(w, c, p, ps, FirstKeyword(ps.sql));
  }

  lemma PortalSendsAs(w: World, c: Conn, p: Portal, ps: Prepared, kw: string)
    requires ps.rowReturning && ExecutePortal(w, c, p, ps, kw).ok
    ensures var r := Exec(w.env, c.sess, ps.sql, p.args).1;
            r.Done? && TypesFor(p, ps, r).Some? &&
            exists cols ::
              && ColumnsFor(cols, TypesFor(p, ps, r).value, p.resultFormats)
              && Kept(w.widen, ExecutePortal(w, c, p, ps, kw).out, cols, true)
  {
    var r := Exec(w.env, c.sess, ps.sql, p.args).1;
    var oids := TypesFor(p, ps, r).value;
    var cols := Columns(oids, p.resultFormats);
    ColumnsAre(oids, p.resultFormats);
    OidsOfColumns(oids, p.resultFormats);
    RowsKept(w.widen, r.rows, 0, cols, p.resultFormats, r.broken, true);
    assert Kept(w.widen, ExecutePortal(w, c, p, ps, kw).out, cols, true);
  }

  /** Those of a Query are for the columns announced in front of them. */
  lemma QuerySendsAs(w: World, c: Conn, stmt: Stmt)
    requires ExecOne(w, c, stmt).ok && stmt.rows
    ensures var out := ExecOne(w, c, stmt).out;
            out != [] && out[0].RowDescription? && Kept(w.widen, out[1..], out[0].columns, true)
  {
    var r := Exec(w.env, c.sess, stmt.text, []).1;
    var cols := Columns(r.oids, []);
    OidsOfColumns(r.oids, []);
    RowsKept(w.widen, r.rows, 0, cols, [], r.broken, true);
    assert ExecOne(w, c, stmt).out[1..] == SendRows(r.rows, 0, cols, r.broken).0;
  }

  // ---- Parameters ----------------------------------------------------------

  /** What the client means by a Bind value: NULL, a text, or binary bytes of the type it
      declared for that parameter, if any. */
  predicate Means(w: World, ps: Prepared, formats: seq<int>, j: nat, v: Option<Data>, arg: Value) {
    match v
    case None => arg == Null
    case Some(text) =>
      && Indexable(formats, j, v)
      && if Asks(formats, j, 1) then DecodeBinary(w.widen, Declared(ps, j), text) == Some(arg) else arg == Text(text)
  }

  lemma {:induction false} ArgsMean(w: World, ps: Prepared, formats: seq<int>, values: seq<Option<Data>>, n: nat)
    requires n <= |values| && BindArgs(w, ps, formats, values, n).Bound?
    ensures var args := BindArgs(w, ps, formats, values, n).args;
            |args| == n && forall j :: 0 <= j < n ==> Means(w, ps, formats, j, values[j], args[j])
  {
    if n > 0 {
      ArgsMean(w, ps, formats, values, n - 1);
    }
  }

  /** A Bind succeeds if and only if the statement exists, the name is free, there are as many
      values as parameters, and each value can be taken; the portal then holds exactly what they
      mean.  No other portal changes. */
  lemma BindBinds(w: World, c: Conn, r: Request)
    requires r.Bind?
    ensures var o := Handle(w, c, r);
            && (o.ok <==>
                  && r.stmt in c.statements && (r.portal == "" || r.portal !in c.portals)
                  && |r.values| == c.statements[r.stmt].numParams
                  && forall j :: 0 <= j < |r.values| ==> Takes(w, c.statements[r.stmt], r.formats, j, r.values[j]))
            && (o.ok ==>
                  && r.portal in o.conn.portals
                  && var p := o.conn.portals[r.portal];
                  && p.stmtName == r.stmt && p.resultFormats == r.resultFormats && |p.args| == |r.values|
                  && forall j :: 0 <= j < |r.values|
                      ==> Means(w, c.statements[r.stmt], r.formats, j, r.values[j], p.args[j]))
            && (forall n :: n in c.portals && n != r.portal ==>
                  n in o.conn.portals && o.conn.portals[n] == c.portals[n])
  {
    if r.stmt in c.statements {
      var ps := c.statements[r.stmt];
      ArgsOutcome(w, ps, r.formats, r.values, |r.values|);
      if BindArgs(w, ps, r.formats, r.values, |r.values|).Bound? {
        ArgsMean(w, ps, r.formats, r.values, |r.values|);
      }
    }
  }

  /** The list of what a list of Bind values means. */
  ghost predicate AllMean(w: World, ps: Prepared, formats: seq<int>, values: seq<Option<Data>>, args: seq<Value>) {
    |args| == |values| && forall j :: 0 <= j < |values| ==> Means(w, ps, formats, j, values[j], args[j])
  }

  /** One Execute that is let through. */
  lemma ExecuteRuns(w: World, c: Conn, name: string, p: Portal, ps: Prepared, kw: string)
    requires c.alive && !c.inError && FoundPortal(c, name) && p == c.portals[name] && ps == c.statements[p.stmtName]
    requires kw == FirstKeyword(ps.sql) && ps.usable && LetThrough(c.txState, kw)
    requires Step(w, c, Execute(name)).0.alive
    ensures var (c1, out) := Step(w, c, Execute(name));
            var (s, r) := Exec(w.env, c.sess, ps.sql, p.args);
            c1.sess == s && (!c1.inError ==> Answered(out, ps.rowReturning, kw, r))
  {
    var o := HandleExecute(w, c, name);
    ExecuteStep(w, c, name, o);
    assert o == ExecutePortal(w, c, p, ps, kw);
    PortalAnswers(w, c, p, ps, kw);
  }

  lemma ExecuteStep(w: World, c: Conn, name: string, o: Outcome)
    requires c.alive && !c.inError && o == HandleExecute(w, c, name)
    ensures var (c1, out) := Step(w, c, Execute(name)); c1 == AfterHandling(o) && out == o.out
    ensures !o.conn.inError
  {
    ExecuteKeepsMaps(w, c, name);
  }

  /** Bind, then Execute: SQLite runs the statement on what the client's values mean, the session
      afterwards is that call's, and if the Execute succeeds the client gets what the call gave. */
  lemma BindThenExecute(w: World, c: Conn, r: Request, ps: Prepared)
    requires c.alive && !c.inError && r.Bind? && Works(w, c, r) && ps == c.statements[r.stmt]
    requires ps.usable && LetThrough(c.txState, FirstKeyword(ps.sql))
    ensures var c1 := Step(w, c, r).0;
            var (c2, out) := Step(w, c1, Execute(r.portal));
            c2.alive ==>
              exists args :: AllMean(w, ps, r.formats, r.values, args)
                && var (s, result) := Exec(w.env, c.sess, ps.sql, args);
                   c2.sess == s && (!c2.inError ==> Answered(out, ps.rowReturning, FirstKeyword(ps.sql), result))
  {
    BindHolds(w, c, r, ps);
    var c1 := Step(w, c, r).0;
    var p := c1.portals[r.portal];
    if Step(w, c1, Execute(r.portal)).0.alive {
      ExecuteRuns(w, c1, r.portal, p, ps, FirstKeyword(ps.sql));
      assert AllMean(w, ps, r.formats, r.values, p.args);
    }
  }

  lemma BindHolds(w: World, c: Conn, r: Request, ps: Prepared)
    requires c.alive && !c.inError && r.Bind? && Works(w, c, r) && ps == c.statements[r.stmt]
    ensures var c1 := Step(w, c, r).0;
            && c1 == c.(portals := c1.portals) && r.portal in c1.portals && c1.portals[r.portal].stmtName == r.stmt
            && AllMean(w, ps, r.formats, r.values, c1.portals[r.portal].args)
  {
    BindBinds(w, c, r);
    BindKeepsRest(w, c, r);
  }

  lemma BindKeepsRest(w: World, c: Conn, r: Request)
    requires c.alive && !c.inError && r.Bind? && Handle(w, c, r).ok
    ensures var c1 := Step(w, c, r).0;
            c1 == Handle(w, c, r).conn && c1 == c.(portals := c1.portals) && c1.alive
  {
  }

  // ---- Statements ----------------------------------------------------------

  /** The statements of a batch that are for SQLite: not blank, not SET or SHOW. */
  function ForSqlite(stmts: seq<string>): seq<string> {
    if stmts == [] then []
    else
      var stmt := Classify(stmts[0]);
      (if stmt.trimmed == "" || IsSession(stmt.kw) then [] else [stmts[0]]) + ForSqlite(stmts[1..])
  }

  function Texts(log: seq<Sent>): seq<string> {
    seq(|log|, i requires 0 <= i < |log| => if log[i].Statement? then log[i].sql else [])
  }

  lemma StatementLogged(w: World, c: Conn, text: string)
    ensures var o := RunStatement(w, c, Classify(text));
            var mine := ForSqlite([text]);
            && (Texts(o.conn.log) == Texts(c.log) + mine || (!o.ok && o.conn.log == c.log))
            && (CountErrors(o.out) == 0 ==> o.ok)
  {
    assert [text][1..] == [] && ForSqlite([]) == [];
    var stmt := Classify(text);
    StatementReaches(w, c, stmt);
    ErrorGoesOn(w, c, stmt);
    var e := Statement(ByQuery, text, stmt.kw, c.txState);
    assert Texts(c.log + [e]) == Texts(c.log) + [text];
  }

  /** A Simple Query hands SQLite a prefix of its statements, in order and unchanged, and all
      of them unless it answers with an error. */
  lemma {:induction false} BatchSendsInOrder(w: World, c: Conn, stmts: seq<string>)
    ensures var (c1, out) := RunBatch(w, c, stmts);
            && Texts(c.log) <= Texts(c1.log) <= Texts(c.log) + ForSqlite(stmts)
            && (CountErrors(out) == 0 ==> Texts(c1.log) == Texts(c.log) + ForSqlite(stmts))
    decreases |stmts|
  {
    if stmts != [] {
      var o := RunStatement(w, c, Classify(stmts[0]));
      var mine, rest := ForSqlite([stmts[0]]), ForSqlite(stmts[1..]);
      StatementLogged(w, c, stmts[0]);
      FirstForSqlite(stmts);
      if o.ok {
        BatchSendsInOrder(w, o.conn, stmts[1..]);
        CountsAppend(o.out, RunBatch(w, o.conn, stmts[1..]).1);
        PrefixesChain(Texts(c.log), mine, rest, Texts(RunBatch(w, o.conn, stmts[1..]).0.log));
      } else {
        PrefixesChain(Texts(c.log), mine, rest, Texts(c.log) + mine);
      }
    }
  }

  lemma FirstForSqlite(stmts: seq<string>)
    requires stmts != []
    ensures ForSqlite(stmts) == ForSqlite([stmts[0]]) + ForSqlite(stmts[1..])
  {
    assert [stmts[0]][1..] == [];
  }

  lemma PrefixesChain(a: seq<string>, mine: seq<string>, rest: seq<string>, all: seq<string>)
    requires a + mine <= all <= a + mine + rest
    ensures a <= all <= a + (mine + rest) && a + mine + rest == a + (mine + rest)
  {
    assert a + mine + rest == a + (mine + rest);
  }
}
