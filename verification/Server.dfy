/** The connection as the program runs it (cmd/execdb/pgwire.go, cmd/execdb/pgextended.go):
    fields updated in place, loops over statements, values and rows.  Every method computes
    what the function of the same name in `Connection` says. */
module Server {
  import opened Blanks
  import opened SqlLexer
  import opened SqlKeywords
  import opened Bytes
  import opened Sqlite
  import opened Options
  import opened PgTypes
  import opened Protocol
  import C = Connection
  import T = TransactionLaws

  /** cmd/execdb/access.go: splitStatements. */
  method SplitStatements(sql: string) returns (stmts: seq<string>)
    ensures stmts == C.StatementsOf(sql)
  {
    var remainder;
    stmts, remainder := ScanStatements(sql);
    assert Pieces(stmts, remainder) == Split(sql);
    TrimmedAway(remainder);
    if TrimSpace(remainder) != "" {
      stmts := stmts + [remainder];
    }
  }

  /** cmd/execdb/access.go: checkExternalAccess. */
  method CheckExternalAccess(sql: string) returns (allowed: bool)
    ensures allowed <==> C.Allowed(sql)
  {
    var stmts := SplitStatements(sql);
    for i := 0 to |stmts|
      invariant forall k :: 0 <= k < i ==> C.Permitted(stmts[k])
    {
      var permitted := CheckStatement(stmts[i]);
      if !permitted {
        assert stmts[i] in C.StatementsOf(sql);
        return false;
      }
    }
    return true;
  }

  method CheckStatement(stmt: string) returns (permitted: bool)
    ensures permitted <==> C.Permitted(stmt)
  {
    TrimmedAway(stmt);
    if TrimSpace(stmt) == "" {
      return true;
    }
    var kw := ScanFirstKeyword(stmt);
    return kw !in C.DENIED;
  }

  /** cmd/execdb/pgextended.go: buildResultColumns and buildResultColumnsFromOIDs. */
  method BuildColumns(oids: seq<nat>, formats: seq<int>) returns (cols: seq<Column>)
    requires C.Enough(formats, |oids|)
    ensures cols == C.Columns(oids, formats)
  {
    cols := [];
    for i := 0 to |oids|
      invariant cols == C.Columns(oids, formats)[..i]
    {
      var useBinary := C.FormatCodeFor(formats, i) == 1 && oids[i] in BINARY_CAPABLE;
      cols := cols + [Column(oids[i], useBinary)];
    }
  }

  /** The inner loop of sendDataRows. */
  method EncodeRow(row: Row, cols: seq<Column>) returns (fields: seq<Field>)
    requires |row| == |cols|
    ensures fields == C.Encode(row, cols)
  {
    fields := [];
    for i := 0 to |cols|
      invariant fields == C.Encode(row, cols)[..i]
    {
      fields := fields + [Field(cols[i], row[i], EncodeValue(cols[i].oid, cols[i].binary, row[i]))];
    }
  }

  class Server {
    const w: C.World
    var txState: char
    var inError: bool
    var statements: map<string, C.Prepared>
    var portals: map<string, C.Portal>
    var params: map<string, Data>
    var sess: Session
    var alive: bool
    // Everything written to the client so far.
    var out: seq<Reply>
    ghost var log: seq<C.Sent>

    ghost function View(): C.Conn
      reads this
    {
      C.Conn(txState, inError, statements, portals, params, sess, alive, log)
    }

    /** The method did to the connection what the outcome `o` says, starting from output `before`. */
    ghost predicate Did(o: C.Outcome, before: seq<Reply>, ok: bool)
      reads this
    {
      View() == o.conn && out == before + o.out && ok == o.ok
    }

    /** As Did, for the functions that give a state and the output. */
    ghost predicate Left(r: (C.Conn, seq<Reply>), before: seq<Reply>)
      reads this
    {
      View() == r.0 && out == before + r.1
    }

    constructor (w: C.World, sess: Session, params: map<string, Data>)
      requires sess.Valid() && !sess.InTx()
      ensures C.Fresh(View()) && this.w == w && out == [] && this.sess == sess && this.params == params
    {
      this.w, this.sess, this.params := w, sess, params;
      txState, inError, alive := 'I', false, true;
      statements, portals, out, log := map[], map[], [], [];
    }

    method Write(r: Reply)
      modifies this`out
      ensures out == old(out) + [r]
    {
      out := out + [r];
    }

    method WriteError() returns (ok: bool)
      modifies this`out
      ensures out == old(out) + [ErrorResponse] && !ok
    {
      Write(ErrorResponse);
      ok := false;
    }

    method SessionExec(sql: string, args: seq<Value>) returns (r: Result)
      modifies this`sess
      ensures (sess, r) == Exec(w.env, old(sess), sql, args)
    {
      var (s, result) := Exec(w.env, sess, sql, args);
      sess := s;
      r := result;
    }

    method SessionIssue(cmd: Command) returns (r: Result)
      requires !cmd.Data?
      modifies this`sess
      ensures (sess, r) == Issue(w.env, old(sess), cmd)
    {
      var (s, result) := Issue(w.env, sess, cmd);
      sess := s;
      r := result;
    }

    /** cmd/execdb/pgwire.go: sendDataRows. */
    method SendDataRows(rows: seq<Row>, cols: seq<Column>, broken: bool) returns (ok: bool)
      modifies this`out
      ensures (out, ok) == (old(out) + C.SendRows(rows, 0, cols, broken).0, C.SendRows(rows, 0, cols, broken).1)
    {
      var n := 0;
      while n < |rows|
        invariant n <= |rows|
        invariant out + C.SendRows(rows, n, cols, broken).0 == old(out) + C.SendRows(rows, 0, cols, broken).0
        invariant C.SendRows(rows, n, cols, broken).1 == C.SendRows(rows, 0, cols, broken).1
      {
        if |rows[n]| != |cols| {
          ok := WriteError();
          return;
        }
        ghost var rest := C.SendRows(rows, n + 1, cols, broken).0;
        assert out + ([DataRow(C.Encode(rows[n], cols))] + rest) == out + [DataRow(C.Encode(rows[n], cols))] + rest;
        var fields := EncodeRow(rows[n], cols);
        Write(DataRow(fields));
        n := n + 1;
      }
      if broken {
        ok := WriteError();
        return;
      }
      Write(CommandComplete("SELECT", n));
      return true;
    }

    // ---- Extended Query ----------------------------------------------------

    /** cmd/execdb/pgextended.go: handleParse. */
    method HandleParse(name: string, text: string, oids: seq<nat>) returns (ok: bool)
      modifies this
      ensures Did(C.HandleParse(w, old(View()), name, text, oids), old(out), ok)
    {
      var query := w.rewrite(text);
      var allowed := CheckExternalAccess(query);
      if !allowed {
        ok := WriteError();
        return;
      }
      var numParams := CountPlaceholders(query);
      var rows := LooksLikeRowReturning(query);
      ok := StoreStatement(name, C.Prepared(query, true, numParams, rows, oids, None));
    }

    method StoreStatement(name: string, ps: C.Prepared) returns (ok: bool)
      modifies this
      ensures Did(C.StoreStatement(w, old(View()), name, ps), old(out), ok)
    {
      if name != "" {
        if name in statements {
          ok := WriteError();
          return;
        }
      } else if name in statements {
        statements := statements[name := statements[name].(usable := false)];
      }
      var fails := w.env.fails(sess.calls);
      sess := Count(sess);
      if fails {
        ok := WriteError();
        return;
      }
      statements := statements[name := ps];
      Write(ParseComplete);
      return true;
    }

    /** The parameter loop of handleBind. */
    method DecodeArgs(ps: C.Prepared, formats: seq<int>, values: seq<Option<Data>>) returns (r: C.Args)
      ensures r == C.BindArgs(w, ps, formats, values, |values|)
    {
      r := C.Bound([]);
      for j := 0 to |values|
        invariant r == C.BindArgs(w, ps, formats, values, j) && r.Bound?
      {
        var v := values[j];
        if v.None? {
          r := C.Bound(r.args + [Null]);
          continue;
        }
        if !C.Enough(formats, j + 1) {
          BindArgsStuck(w, ps, formats, values, j + 1, |values|);
          return C.Unindexable;
        }
        if C.FormatCodeFor(formats, j) != 1 {
          r := C.Bound(r.args + [Text(v.value)]);
          continue;
        }
        var val := DecodeBinary(w.widen, C.DeclaredOid(ps, j), v.value);
        if val.None? {
          BindArgsStuck(w, ps, formats, values, j + 1, |values|);
          return C.Undecodable;
        }
        r := C.Bound(r.args + [val.value]);
      }
    }

    /** cmd/execdb/pgextended.go: handleBind. */
    method HandleBind(portal: string, stmt: string, formats: seq<int>,
                      values: seq<Option<Data>>, resultFormats: seq<int>) returns (ok: bool)
      modifies this
      ensures Did(C.HandleBind(w, old(View()), portal, stmt, formats, values, resultFormats), old(out), ok)
    {
      if stmt !in statements || |values| != statements[stmt].numParams {
        ok := WriteError();
        return;
      }
      var r := DecodeArgs(statements[stmt], formats, values);
      if r.Unindexable? {
        alive := false;
        return false;
      }
      if r.Undecodable? || (portal != "" && portal in portals) {
        ok := WriteError();
        return;
      }
      portals := portals[portal := C.Portal(stmt, r.args, resultFormats, None)];
      Write(BindComplete);
      return true;
    }

    method RunPrepared(ps: C.Prepared, args: seq<Value>) returns (r: Result)
      modifies this`sess
      ensures (sess, r) == C.RunPrepared(w, old(sess), ps, args)
    {
      if !ps.usable {
        return Failed;
      }
      r := SessionExec(ps.sql, args);
    }

    /** cmd/execdb/pgextended.go: the trial run of describeRowShape. */
    method RunTrial(ps: C.Prepared, args: seq<Value>)
        returns (ghost trial: C.Trial, started: bool, result: Result, undone: bool)
      modifies this`sess, this`log
      ensures trial == C.RunTrial(w, old(sess), ps, args) && sess == trial.sess
      ensures started == trial.started && result == trial.result && undone == trial.undone
      ensures log == old(log) + C.TrialLog(txState, ps, trial)
    {
      ghost var before := sess;
      var saved := SessionIssue(Savepoint(C.DESCRIBE_SAVEPOINT));
      if saved.Failed? {
        trial := C.Trial(sess, false, Failed, false, false);
        log := log + C.TrialLog(txState, ps, trial);
        return trial, false, Failed, false;
      }
      result := RunPrepared(ps, args);
      started := true;
      ghost var rolledBack;
      undone, rolledBack := RollbackDescribeSavepoint(before);
      trial := C.Trial(sess, true, result, rolledBack, undone);
      log := log + C.TrialLog(txState, ps, trial);
    }

    /** cmd/execdb/pgextended.go: rollbackDescribeSavepoint.  Called under the savepoint that
        was taken in session state `before`, it reports success if and only if the session is
        back in that state, whatever data was written in between. */
    method RollbackDescribeSavepoint(ghost before: Session) returns (undone: bool, ghost rolledBack: bool)
      modifies this`sess
      ensures before.Valid() && T.Under(before, old(sess)) ==>
                (undone <==> sess.Same(before)) && (!undone ==> T.Under(before, sess))
      ensures var (s3, r3) := Issue(w.env, old(sess), RollbackTo(C.DESCRIBE_SAVEPOINT));
              var (s4, r4) := Issue(w.env, s3, Release(C.DESCRIBE_SAVEPOINT));
              rolledBack == !r3.Failed? && undone == (rolledBack && !r4.Failed?)
                  && sess == if rolledBack then s4 else s3
    {
      if before.Valid() && T.Under(before, sess) {
        T.RollBackUnder(w.env, before, sess);
        T.ReleaseUnder(w.env, before, Issue(w.env, sess, RollbackTo(C.DESCRIBE_SAVEPOINT)).0);
      }
      var r3 := SessionIssue(RollbackTo(C.DESCRIBE_SAVEPOINT));
      rolledBack := !r3.Failed?;
      if r3.Failed? {
        return false, rolledBack;
      }
      var r4 := SessionIssue(Release(C.DESCRIBE_SAVEPOINT));
      return !r4.Failed?, rolledBack;
    }

    /** cmd/execdb/pgextended.go: describeRowShape. */
    method DescribeRowShape(ps: C.Prepared, formats: seq<int>, args: seq<Value>)
        returns (ok: bool, oids: Option<seq<nat>>)
      requires alive
      modifies this`sess, this`out, this`alive, this`log
      ensures var d := C.DescribeRowShape(w, old(sess), ps, formats, args);
              && View() == C.AfterTrial(old(View()), ps, d)
              && ok == d.ok && oids == d.oids && out == old(out) + d.out
    {
      if !ps.rowReturning {
        Write(NoData);
        return true, None;
      }
      ghost var trial;
      var started, result, undone;
      trial, started, result, undone := RunTrial(ps, args);
      oids := None;
      if !started || result.Failed? || !undone || result.badTypes {
        ok := WriteError();
        return;
      }
      if !C.Enough(formats, |result.oids|) {
        alive := false;
        return false, None;
      }
      var cols := BuildColumns(result.oids, formats);
      Write(RowDescription(cols));
      return true, Some(result.oids);
    }

    /** cmd/execdb/pgextended.go: handleDescribe. */
    method HandleDescribe(kind: char, name: string) returns (ok: bool)
      requires alive
      modifies this
      ensures Did(C.HandleDescribe(w, old(View()), kind, name), old(out), ok)
    {
      if kind == 'S' && name in statements {
        ok := DescribeStatement(name);
      } else if kind == 'P' && name in portals && portals[name].stmtName in statements {
        ok := DescribePortal(name);
      } else {
        ok := WriteError();
      }
    }

    method DescribeStatement(name: string) returns (ok: bool)
      requires alive && name in statements
      modifies this
      ensures Did(C.DescribeStatement(w, old(View()), name), old(out), ok)
    {
      var ps := statements[name];
      if ps.numParams > w.oidRoom {
        alive := false;
        return false;
      }
      var oids := C.AnnouncedParams(ps);
      if C.LooksUpType(ps) {
        ps := ps.(paramOIDs := oids);
      }
      Write(ParameterDescription(oids));
      if ps.numParams > w.argRoom {
        statements := statements[name := ps];
        alive := false;
        return false;
      }
      var resultOIDs;
      ok, resultOIDs := DescribeRowShape(ps, [], C.Representative(oids));
      statements := statements[name := ps.(resultOIDs := resultOIDs)];
    }

    method DescribePortal(name: string) returns (ok: bool)
      requires alive && name in portals && portals[name].stmtName in statements
      modifies this
      ensures Did(C.DescribePortal(w, old(View()), name), old(out), ok)
    {
      var p := portals[name];
      var resultOIDs;
      ok, resultOIDs := DescribeRowShape(statements[p.stmtName], p.resultFormats, p.args);
      portals := portals[name := p.(resultOIDs := resultOIDs)];
    }

    /** cmd/execdb/pgextended.go: handleExecute. */
    method HandleExecute(name: string) returns (ok: bool)
      modifies this
      ensures Did(C.HandleExecute(w, old(View()), name), old(out), ok)
    {
      if name !in portals || portals[name].stmtName !in statements {
        ok := WriteError();
        return;
      }
      var p := portals[name];
      var ps := statements[p.stmtName];
      var kw := ScanFirstKeyword(ps.sql);
      if txState == 'E' && !C.Ends(kw) {
        ok := WriteError();
        return;
      }
      ok := RunPortal(p, ps, kw);
    }

    method RunPortal(p: C.Portal, ps: C.Prepared, kw: string) returns (ok: bool)
      modifies this
      ensures Did(C.RunPortal(w, old(View()), p, ps, kw), old(out), ok)
    {
      var r := RunPrepared(ps, p.args);
      log := log + if ps.usable then [C.Statement(C.ByExecute, ps.sql, kw, txState)] else [];
      if r.Failed? {
        ok := WriteError();
        return;
      }
      if ps.rowReturning {
        ok := PortalRows(p, C.PromisedOids(p, ps), r, kw);
        return;
      }
      Write(CommandComplete(kw, r.affected));
      txState := C.TxAfter(txState, kw);
      return true;
    }

    method PortalRows(p: C.Portal, promised: Option<seq<nat>>, r: Result, kw: string) returns (ok: bool)
      requires r.Done?
      modifies this
      ensures Did(C.PortalRows(old(View()), p, promised, r, kw), old(out), ok)
    {
      if promised.None? && r.badTypes {
        ok := WriteError();
        return;
      }
      var oids := if promised.Some? then promised.value else r.oids;
      if !C.Enough(p.resultFormats, |oids|) {
        alive := false;
        return false;
      }
      var cols := BuildColumns(oids, p.resultFormats);
      ok := SendDataRows(r.rows, cols, r.broken);
      if ok {
        txState := C.TxAfter(txState, kw);
      }
    }

    /** cmd/execdb/pgextended.go: handleClose.  The name is free again, whether or not it was in
        use; every other statement and portal is untouched, the portals bound to a closed
        statement included. */
    method HandleClose(kind: char, name: string) returns (ok: bool)
      modifies this`statements, this`portals, this`out
      ensures ok <==> kind == 'S' || kind == 'P'
      ensures kind == 'S' ==> name !in statements
      ensures kind == 'P' ==> name !in portals
      ensures forall n :: n in old(statements) && (kind == 'S' ==> n != name) ==>
                n in statements && statements[n] == old(statements)[n]
      ensures forall n :: n in old(portals) && (kind == 'P' ==> n != name) ==>
                n in portals && portals[n] == old(portals)[n]
      ensures statements.Keys <= old(statements).Keys && portals.Keys <= old(portals).Keys
      ensures out == old(out) + [if ok then CloseComplete else ErrorResponse]
      ensures Did(C.HandleClose(old(View()), kind, name), old(out), ok)
    {
      if kind == 'S' {
        statements := statements - {name};
      } else if kind == 'P' {
        portals := portals - {name};
      } else {
        ok := WriteError();
        return;
      }
      Write(CloseComplete);
      return true;
    }

    // ---- Simple Query ------------------------------------------------------

    /** cmd/execdb/pgsession.go: handleSet and handleShow.  SQLite, the transaction state, and
        the statements and portals are left alone.  A SET that can be read changes one parameter,
        nothing else changes any; a SHOW that can be read answers with the value its parameter
        has, empty if it was never set; all others answer with an error. */
    method SessionCommand(kw: string, stmt: string)
      requires C.IsSession(kw)
      modifies this`params, this`out
      ensures forall n ::
                n in params <==>
                n in old(params) || (kw == "SET" && w.parseSet(stmt).Some? && n == w.parseSet(stmt).value.0)
      ensures forall n :: n in params ==>
                params[n] == if kw == "SET" && w.parseSet(stmt).Some? && n == w.parseSet(stmt).value.0
                             then w.parseSet(stmt).value.1 else old(params)[n]
      ensures kw == "SET" && w.parseSet(stmt).Some? ==> out == old(out) + [CommandComplete("SET", 0)]
      ensures kw == "SHOW" && w.parseShow(stmt).Some? && w.parseShow(stmt).value != "all" ==>
                && |out| == |old(out)| + 3 && out[|out| - 1] == CommandComplete("SHOW", 0)
                && out[|out| - 3] == RowDescription([Column(25, false)])
                && out[|out| - 2].DataRow? && |out[|out| - 2].fields| == 1
                && out[|out| - 2].fields[0].value ==
                   Text(if w.parseShow(stmt).value in params then params[w.parseShow(stmt).value] else [])
      ensures out != [] && (out[|out| - 1].ErrorResponse? <==>
                if kw == "SET" then w.parseSet(stmt).None?
                else w.parseShow(stmt).None? || w.parseShow(stmt).value == "all")
      ensures Left(C.SessionCommand(w, old(View()), kw, stmt), old(out))
    {
      if kw == "SET" {
        match w.parseSet(stmt) {
          case None => Write(ErrorResponse);
          case Some(nv) =>
            params := params[nv.0 := nv.1];
            Write(CommandComplete("SET", 0));
        }
      } else {
        var name := w.parseShow(stmt);
        if name.None? || name.value == "all" {
          Write(ErrorResponse);
          return;
        }
        var col := Column(OID_TEXT, false);
        var value := if name.value in params then params[name.value] else [];
        Write(RowDescription([col]));
        Write(DataRow([Field(col, Text(value), InText)]));
        Write(CommandComplete("SHOW", 0));
      }
    }

    /** cmd/execdb/pgwire.go: execOneStatement. */
    method ExecOne(stmt: C.Stmt) returns (ok: bool)
      modifies this`sess, this`out, this`log
      ensures Did(C.ExecOne(w, old(View()), stmt), old(out), ok)
    {
      var r := SessionExec(stmt.text, []);
      log := log + [C.Statement(C.ByQuery, stmt.text, stmt.kw, txState)];
      if r.Failed? || (stmt.rows && r.badTypes) {
        ok := WriteError();
        return;
      }
      if !stmt.rows {
        Write(CommandComplete(stmt.kw, r.affected));
        return true;
      }
      var cols := BuildColumns(r.oids, []);
      Write(RowDescription(cols));
      ok := SendDataRows(r.rows, cols, r.broken);
    }

    /** The body of handleSimpleQuery's statement loop. */
    method RunStatement(text: string) returns (ok: bool)
      modifies this
      ensures Did(C.RunStatement(w, old(View()), C.Classify(text)), old(out), ok)
    {
      var trimmed := TrimSpace(text);
      var kw := ScanFirstKeyword(trimmed);
      var rows := LooksLikeRowReturning(trimmed);
      ok := RunClassified(C.Stmt(text, trimmed, kw, rows));
    }

    method RunClassified(stmt: C.Stmt) returns (ok: bool)
      modifies this
      ensures Did(C.RunStatement(w, old(View()), stmt), old(out), ok)
    {
      if stmt.trimmed == "" {
        return true;
      }
      if txState == 'E' && !C.Ends(stmt.kw) {
        ok := WriteError();
        return;
      }
      if C.IsSession(stmt.kw) {
        SessionCommand(stmt.kw, stmt.trimmed);
        return true;
      }
      ok := ExecOne(stmt);
      txState := if ok then C.TxAfter(txState, stmt.kw) else C.Abort(txState);
    }

    /** cmd/execdb/pgwire.go: handleSimpleQuery. */
    method HandleSimpleQuery(sql: string)
      modifies this
      ensures Left(C.SimpleQuery(w, old(View()), sql), old(out))
    {
      TrimmedAway(sql);
      if TrimSpace(sql) == "" {
        return;
      }
      var query := w.rewrite(sql);
      var allowed := CheckExternalAccess(query);
      if !allowed {
        Write(ErrorResponse);
        txState := C.Abort(txState);
        return;
      }
      var stmts := SplitStatements(query);
      RunBatch(stmts);
    }

    method RunBatch(stmts: seq<string>)
      modifies this
      ensures Left(C.RunBatch(w, old(View()), stmts), old(out))
    {
      var i := 0;
      ghost var end, all := C.RunBatch(w, View(), stmts).0, out + C.RunBatch(w, View(), stmts).1;
      assert stmts[0..] == stmts;
      while i < |stmts|
        invariant i <= |stmts| && BatchRemaining(stmts[i..], end, all)
      {
        assert stmts[i..][1..] == stmts[i + 1..];
        StepBatch(stmts[i..], end, all);
        var ok := RunStatement(stmts[i]);
        if !ok {
          return;
        }
        i := i + 1;
      }
      assert stmts[i..] == [];
    }

    ghost predicate BatchRemaining(stmts: seq<string>, end: C.Conn, all: seq<Reply>)
      reads this
    {
      C.RunBatch(w, View(), stmts).0 == end && out + C.RunBatch(w, View(), stmts).1 == all
    }

    lemma StepBatch(stmts: seq<string>, end: C.Conn, all: seq<Reply>)
      requires stmts != [] && BatchRemaining(stmts, end, all)
      ensures var o := C.RunStatement(w, View(), C.Classify(stmts[0]));
              if !o.ok then o.conn == end && out + o.out == all
              else var (c, rest) := C.RunBatch(w, o.conn, stmts[1..]); c == end && out + o.out + rest == all
    {
      GoOnUnrolls(w, C.RunStatement(w, View(), C.Classify(stmts[0])), stmts[1..], out);
    }

    // ---- The message loop --------------------------------------------------

    method Handle(r: Request) returns (ok: bool)
      requires alive && r.Extended()
      modifies this
      ensures Did(C.Handle(w, old(View()), r), old(out), ok)
    {
      match r {
        case Parse(name, query, oids) => ok := HandleParse(name, query, oids);
        case Bind(portal, stmt, formats, values, resultFormats) =>
          ok := HandleBind(portal, stmt, formats, values, resultFormats);
        case Describe(kind, name) => ok := HandleDescribe(kind, name);
        case Execute(name) => ok := HandleExecute(name);
        case Close(kind, name) => ok := HandleClose(kind, name);
        case Malformed => ok := WriteError();
        case Flush => ok := true;
      }
    }

    /** cmd/execdb/pgwire.go: one turn of handleConnection's loop. */
    method Step(r: Request)
      requires alive
      modifies this
      ensures Left(C.Step(w, old(View()), r), old(out))
    {
      if r.Extended() {
        if inError {
          return;
        }
        var ok := Handle(r);
        if alive && !ok {
          inError := true;
          txState := C.Abort(txState);
        }
      } else {
        match r {
          case Query(sql) =>
            HandleSimpleQuery(sql);
            Write(ReadyForQuery(txState));
          case Sync =>
            inError := false;
            Write(ReadyForQuery(txState));
          case Terminate =>
            alive := false;
          case Unknown =>
            Write(ErrorResponse);
            Write(ReadyForQuery(txState));
        }
      }
    }

    /** cmd/execdb/pgwire.go: handleConnection's loop, over the messages a client sends that sends
        nothing between a Query and its ReadyForQuery (see `ByteLoop`). */
    method Serve(rs: seq<Request>)
      requires alive
      modifies this
      ensures View() == C.Run(w, old(View()), rs).0
      ensures out == old(out) + Stream(C.Run(w, old(View()), rs).1)
    {
      var i := 0;
      ghost var end, all := C.Run(w, View(), rs).0, out + Stream(C.Run(w, View(), rs).1);
      assert rs[0..] == rs;
      while i < |rs| && alive
        invariant i <= |rs| && Remaining(rs[i..], end, all)
      {
        assert rs[i..][1..] == rs[i + 1..];
        StepRemaining(rs[i..], end, all);
        Step(rs[i]);
        i := i + 1;
      }
      if i < |rs| {
        DeadIsSilent(w, View(), rs[i..]);
      } else {
        assert rs[i..] == [];
      }
    }

    /** Serving `rs` from here ends in state `end` with all of `all` written. */
    ghost predicate Remaining(rs: seq<Request>, end: C.Conn, all: seq<Reply>)
      reads this
    {
      C.Run(w, View(), rs).0 == end && out + Stream(C.Run(w, View(), rs).1) == all
    }

    lemma StepRemaining(rs: seq<Request>, end: C.Conn, all: seq<Reply>)
      requires rs != [] && Remaining(rs, end, all)
      ensures var step := C.Step(w, View(), rs[0]);
              && C.Run(w, step.0, rs[1..]).0 == end
              && out + step.1 + Stream(C.Run(w, step.0, rs[1..]).1) == all
    {
      StreamOfRun(w, View(), rs);
      var step := C.Step(w, View(), rs[0]);
      var rest := Stream(C.Run(w, step.0, rs[1..]).1);
      assert out + (step.1 + rest) == out + step.1 + rest;
    }
  }

  lemma GoOnUnrolls(w: C.World, o: C.Outcome, rest: seq<string>, before: seq<Reply>)
    ensures var (end, more) := C.GoOn(w, o, rest);
            if !o.ok then o.conn == end && o.out == more
            else var (end1, out) := C.RunBatch(w, o.conn, rest); end1 == end && before + o.out + out == before + more
  {
    var out := C.RunBatch(w, o.conn, rest).1;
    assert before + (o.out + out) == before + o.out + out;
  }

  lemma StreamOfRun(w: C.World, c: C.Conn, rs: seq<Request>)
    requires rs != []
    ensures var (c1, out) := C.Step(w, c, rs[0]);
            && C.Run(w, c, rs).0 == C.Run(w, c1, rs[1..]).0
            && Stream(C.Run(w, c, rs).1) == out + Stream(C.Run(w, c1, rs[1..]).1)
  {
    var (c1, out) := C.Step(w, c, rs[0]);
    var rest := C.Run(w, c1, rs[1..]).1;
    assert ([out] + rest)[1..] == rest;
  }

  /** A Bind value that cannot be taken decides the outcome for all that follow. */
  lemma {:induction false} BindArgsStuck(w: C.World, ps: C.Prepared, formats: seq<int>, values: seq<Option<Data>>,
      n: nat, m: nat)
    requires n <= m <= |values| && !C.BindArgs(w, ps, formats, values, n).Bound?
    ensures C.BindArgs(w, ps, formats, values, m) == C.BindArgs(w, ps, formats, values, n)
  {
    if n < m {
      BindArgsStuck(w, ps, formats, values, n, m - 1);
    }
  }

  lemma {:induction false} DeadIsSilent(w: C.World, c: C.Conn, rs: seq<Request>)
    requires !c.alive
    ensures C.Run(w, c, rs).0 == c && Stream(C.Run(w, c, rs).1) == []
    decreases |rs|
  {
    if rs != [] {
      DeadIsSilent(w, c, rs[1..]);
      var rest := C.Run(w, c, rs[1..]).1;
      assert ([[]] + rest)[1..] == rest;
      assert C.Run(w, c, rs).1 == [[]] + rest;
    }
  }
}
