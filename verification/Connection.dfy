/** One pgwire connection: its state, and what each client message does to it
    (cmd/execdb/pgwire.go, cmd/execdb/pgextended.go).  `Server` holds the loops that
    implement these functions, the modules named `...Laws` what follows from them. */
module Connection {
  import opened Blanks
  import opened SqlLexer
  import opened SqlKeywords
  import opened Bytes
  import opened Sqlite
  import opened Options
  import opened PgTypes
  import opened Protocol

  /** Everything outside the connection: the SQLite session, the widening of 32-bit floats,
      the SET and SHOW patterns, the pg_catalog rewriting, and how long a list of OIDs and a
      list of arguments the Go runtime will make; asking for a longer one is a panic. */
  datatype World = World(
    env: Env,
    widen: Widening,
    parseSet: string -> Option<(string, Data)>,
    parseShow: string -> Option<string>,
    rewrite: string -> string,
    oidRoom: nat,
    argRoom: nat)

  /** A Parse'd statement.  `usable` is false once the program has closed the underlying
      handle; `resultOIDs` is what the latest Describe of it announced. */
  datatype Prepared = Prepared(
    sql: string, usable: bool, numParams: nat, rowReturning: bool,
    paramOIDs: seq<nat>, resultOIDs: Option<seq<nat>>)

  datatype Portal = Portal(
    stmtName: string, args: seq<Value>, resultFormats: seq<int>, resultOIDs: Option<seq<nat>>)

  /** The message a statement reached SQLite through. */
  datatype Via = ByQuery | ByExecute | ByDescribe

  /** What was handed to SQLite to run, and the transaction state it was handed over in: a
      client's statement, with the keyword the program saw, or a command of the program's. */
  datatype Sent = Statement(via: Via, sql: string, kw: string, tx: char) | Own(cmd: Command, tx: char)

  /** `alive` is false once the loop is over: Terminate, or a Go panic, which nothing recovers
      from and which takes the whole process with it. */
  datatype Conn = Conn(
    txState: char, inError: bool,
    statements: map<string, Prepared>, portals: map<string, Portal>, params: map<string, Data>,
    sess: Session, alive: bool, log: seq<Sent>)

  datatype Outcome = Outcome(conn: Conn, ok: bool, out: seq<Reply>)

  function Fail(c: Conn): Outcome { Outcome(c, false, [ErrorResponse]) }
  function Panic(c: Conn): Outcome { Outcome(c.(alive := false), false, []) }

  // ---- Access control ------------------------------------------------------

  const DENIED := {"CREATE", "DROP", "ALTER", "TRUNCATE", "ATTACH", "DETACH", "PRAGMA", "VACUUM", "REINDEX"}

  /** The statements that end a transaction, and may run in a failed one. */
  predicate Ends(kw: string) { kw == "COMMIT" || kw == "ROLLBACK" || kw == "END" }

  /** The statements the program answers itself. */
  predicate IsSession(kw: string) { kw == "SET" || kw == "SHOW" }

  /** cmd/execdb/access.go: splitStatements. */
  function StatementsOf(sql: string): seq<string> {
    var p := Split(sql);
    p.complete + if Blank(p.remainder) then [] else [p.remainder]
  }

  /** cmd/execdb/access.go: checkExternalAccess finds nothing to reject. */
  predicate Allowed(sql: string) {
    forall stmt :: stmt in StatementsOf(sql) ==> Permitted(stmt)
  }

  predicate Permitted(stmt: string) {
    Blank(stmt) || FirstKeyword(stmt) !in DENIED
  }

  // ---- Columns and rows ----------------------------------------------------

  /** The format codes are 0, 1 or at least `n` many: what formatCodeFor can index. */
  predicate Enough(formats: seq<int>, n: int) {
    |formats| <= 1 || n <= |formats|
  }

  /** cmd/execdb/pgextended.go: formatCodeFor. */
  function FormatCodeFor(formats: seq<int>, idx: nat): int
    requires Enough(formats, idx + 1)
  {
    if |formats| == 0 then 0 else if |formats| == 1 then formats[0] else formats[idx]
  }

  /** cmd/execdb/pgextended.go: buildResultColumns, and its from-OIDs twin. */
  function Columns(oids: seq<nat>, formats: seq<int>): seq<Column>
    requires Enough(formats, |oids|)
  {
    seq(|oids|, i requires 0 <= i < |oids| =>
      Column(oids[i], FormatCodeFor(formats, i) == 1 && oids[i] in BINARY_CAPABLE))
  }

  function Oids(cols: seq<Column>): seq<nat> {
    seq(|cols|, i requires 0 <= i < |cols| => cols[i].oid)
  }

  function Encode(row: Row, cols: seq<Column>): seq<Field>
    requires |row| == |cols|
  {
    seq(|cols|, i requires 0 <= i < |cols| => Field(cols[i], row[i], EncodeValue(cols[i].oid, cols[i].binary, row[i])))
  }

  /** cmd/execdb/pgwire.go: sendDataRows, from row `from` on; a row that does not have one
      value per column cannot be scanned. */
  function SendRows(rows: seq<Row>, from: nat, cols: seq<Column>, broken: bool): (seq<Reply>, bool)
    requires from <= |rows|
    decreases |rows| - from
  {
    if from == |rows| then
      if broken then ([ErrorResponse], false) else ([CommandComplete("SELECT", |rows|)], true)
    else if |rows[from]| != |cols| then ([ErrorResponse], false)
    else
      var (out, ok) := SendRows(rows, from + 1, cols, broken);
      ([DataRow(Encode(rows[from], cols))] + out, ok)
  }

  // ---- Transaction state ---------------------------------------------------

  /** The state byte after a statement with keyword `kw` succeeded. */
  function TxAfter(tx: char, kw: string): char {
    if kw == "BEGIN" then 'T' else if Ends(kw) then 'I' else tx
  }

  function Abort(tx: char): char { if tx == 'T' then 'E' else tx }

  // ---- Extended Query ------------------------------------------------------

  /** What Parse records about a query. */
  function NewStatement(query: string, oids: seq<nat>): Prepared {
    Prepared(query, true, Highest(query, |query|), RowReturning(query), oids, None)
  }

  /** cmd/execdb/pgextended.go: handleParse. */
  function HandleParse(w: World, c: Conn, name: string, text: string, oids: seq<nat>): Outcome {
    var query := w.rewrite(text);
    if !Allowed(query) then Fail(c) else StoreStatement(w, c, name, NewStatement(query, oids))
  }

  function StoreStatement(w: World, c: Conn, name: string, ps: Prepared): Outcome {
    if name != "" && name in c.statements then Fail(c)
    else
      // The old unnamed statement is closed before the new one is known to prepare.
      var statements := if name == "" && name in c.statements
                        then c.statements[name := c.statements[name].(usable := false)] else c.statements;
      var c1 := c.(statements := statements, sess := Count(c.sess));
      if w.env.fails(c.sess.calls) then Fail(c1)
      else Outcome(c1.(statements := statements[name := ps]), true, [ParseComplete])
  }

  /** The type Parse declared for parameter `j`, 0 if it did not. */
  function DeclaredOid(ps: Prepared, j: nat): nat {
    if j < |ps.paramOIDs| then ps.paramOIDs[j] else 0
  }

  datatype Args = Bound(args: seq<Value>) | Undecodable | Unindexable

  /** The first `n` Bind values, decoded in order; the first that fails decides. */
  function BindArgs(w: World, ps: Prepared, formats: seq<int>, values: seq<Option<Data>>, n: nat): Args
    requires n <= |values|
  {
    if n == 0 then Bound([])
    else
      var before := BindArgs(w, ps, formats, values, n - 1);
      if !before.Bound? then before
      else
        var j, v := n - 1, values[n - 1];
        if v.None? then Bound(before.args + [Null])
        else if !Enough(formats, n) then Unindexable
        else if FormatCodeFor(formats, j) != 1 then Bound(before.args + [Text(v.value)])
        else match DecodeBinary(w.widen, DeclaredOid(ps, j), v.value)
             case None => Undecodable
             case Some(val) => Bound(before.args + [val])
  }

  /** cmd/execdb/pgextended.go: handleBind. */
  function HandleBind(w: World, c: Conn, portal: string, stmt: string, formats: seq<int>,
                      values: seq<Option<Data>>, resultFormats: seq<int>): Outcome {
    if stmt !in c.statements then Fail(c)
    else if |values| != c.statements[stmt].numParams then Fail(c)
    else match BindArgs(w, c.statements[stmt], formats, values, |values|)
         case Unindexable => Panic(c)
         case Undecodable => Fail(c)
         case Bound(args) =>
           if portal != "" && portal in c.portals then Fail(c)
           else Outcome(c.(portals := c.portals[portal := Portal(stmt, args, resultFormats, None)]), true,
               [BindComplete])
  }

  const DESCRIBE_SAVEPOINT := "execdb_describe"

  /** Running a prepared statement: a closed handle fails without reaching SQLite. */
  function RunPrepared(w: World, s: Session, ps: Prepared, args: seq<Value>): (Session, Result) {
    if ps.usable then Exec(w.env, s, ps.sql, args) else (s, Failed)
  }

  /** A Describe's trial run, under a savepoint that is rolled back and released. */
  datatype Trial = Trial(sess: Session, started: bool, result: Result, rolledBack: bool, undone: bool)

  function RunTrial(w: World, s: Session, ps: Prepared, args: seq<Value>): Trial {
    var (s1, saved) := Issue(w.env, s, Savepoint(DESCRIBE_SAVEPOINT));
    if saved.Failed? then Trial(s1, false, Failed, false, false)
    else
      var (s2, result) := RunPrepared(w, s1, ps, args);
      var (s3, rolledBack) := Issue(w.env, s2, RollbackTo(DESCRIBE_SAVEPOINT));
      if rolledBack.Failed? then Trial(s3, true, result, false, false)
      else
        var (s4, released) := Issue(w.env, s3, Release(DESCRIBE_SAVEPOINT));
        Trial(s4, true, result, true, !released.Failed?)
  }

  /** What a trial run hands to SQLite in state `tx`: its savepoint, the statement unless its
      handle is closed, and the clean-up as far as it gets. */
  function TrialLog(tx: char, ps: Prepared, t: Trial): seq<Sent> {
    [Own(Savepoint(DESCRIBE_SAVEPOINT), tx)] + if t.started then TrialRest(tx, ps, t) else []
  }

  function TrialRest(tx: char, ps: Prepared, t: Trial): seq<Sent> {
    (if ps.usable then [Statement(ByDescribe, ps.sql, FirstKeyword(ps.sql), tx)] else [])
    + [Own(RollbackTo(DESCRIBE_SAVEPOINT), tx)]
    + (if t.rolledBack then [Own(Release(DESCRIBE_SAVEPOINT), tx)] else [])
  }

  datatype RowShape = RowShape(trial: Option<Trial>, ok: bool, alive: bool, oids: Option<seq<nat>>, out: seq<Reply>)

  /** cmd/execdb/pgextended.go: describeRowShape. */
  function DescribeRowShape(w: World, s: Session, ps: Prepared, formats: seq<int>, args: seq<Value>): RowShape {
    if !ps.rowReturning then RowShape(None, true, true, None, [NoData])
    else
      var t := RunTrial(w, s, ps, args);
      if !t.started || t.result.Failed? || !t.undone || t.result.badTypes then
        RowShape(Some(t), false, true, None, [ErrorResponse])
      else if !Enough(formats, |t.result.oids|) then RowShape(Some(t), false, false, None, [])
      else RowShape(Some(t), true, true, Some(t.result.oids), [RowDescription(Columns(t.result.oids, formats))])
  }

  /** The connection after a row shape has been found out. */
  function AfterTrial(c: Conn, ps: Prepared, d: RowShape): Conn {
    match d.trial
    case None => c.(alive := d.alive)
    case Some(t) => c.(sess := t.sess, alive := d.alive, log := c.log + TrialLog(c.txState, ps, t))
  }

  /** Go's zero time, the start of the year 1: 730119 days before 2000-01-01, in nanoseconds. */
  const ZERO_TIME := -730119 * 86400 * 1_000_000_000

  /** cmd/execdb/pgextended.go: representativeParamValues. */
  function Representative(oids: seq<nat>): seq<Value> {
    seq(|oids|, i requires 0 <= i < |oids| =>
      var oid := oids[i];
      if oid == OID_BOOL then Bool(false)
      else if oid in {OID_INT2, OID_INT4, OID_INT8, OID_OID} then Int64(0)
      else if oid in {OID_FLOAT4, OID_FLOAT8, OID_NUMERIC} then Float(0)
      else if oid == OID_TEXT then Text([])
      else if oid == OID_BYTEA then Blob([])
      else if oid == OID_TIMESTAMP then Time(ZERO_TIME)
      else Null)
  }

  /** The parameter OIDs a statement-level Describe answers with: those Parse declared,
      0 beyond, and the one special case for a client's own type lookup. */
  function AnnouncedParams(ps: Prepared): seq<nat> {
    if LooksUpType(ps) then [OID_OID] else DeclaredParams(ps)
  }

  function DeclaredParams(ps: Prepared): seq<nat> {
    seq(ps.numParams, i requires 0 <= i => DeclaredOid(ps, i))
  }

  predicate LooksUpType(ps: Prepared) {
    DeclaredParams(ps) == [0] && Index(ps.sql, "rngsubtype") >= 0
  }

  /** The statement as its Describe leaves it: a special-cased type lookup keeps the answer. */
  function WithAnnounced(ps: Prepared): Prepared {
    if LooksUpType(ps) then ps.(paramOIDs := AnnouncedParams(ps)) else ps
  }

  /** The first list made is that of the OIDs, the second that of the trial's arguments. */
  function DescribeStatement(w: World, c: Conn, name: string): Outcome
    requires name in c.statements
  {
    var ps := c.statements[name];
    if ps.numParams > w.oidRoom then Panic(c)
    else if ps.numParams > w.argRoom then
      Outcome(c.(statements := c.statements[name := WithAnnounced(ps)], alive := false), false,
              [ParameterDescription(AnnouncedParams(ps))])
    else
      var oids := AnnouncedParams(ps);
      AnswerStatement(c, name, WithAnnounced(ps), oids,
          DescribeRowShape(w, c.sess, WithAnnounced(ps), [], Representative(oids)))
  }

  /** The answer to a statement-level Describe, and what is remembered of it. */
  function AnswerStatement(c: Conn, name: string, ps: Prepared, oids: seq<nat>, d: RowShape): Outcome {
    Outcome(AfterTrial(c.(statements := c.statements[name := ps.(resultOIDs := d.oids)]), ps, d),
            d.ok, [ParameterDescription(oids)] + d.out)
  }

  function DescribePortal(w: World, c: Conn, name: string): Outcome
    requires name in c.portals && c.portals[name].stmtName in c.statements
  {
    var p := c.portals[name];
    var ps := c.statements[p.stmtName];
    var d := DescribeRowShape(w, c.sess, ps, p.resultFormats, p.args);
    Outcome(AfterTrial(c.(portals := c.portals[name := p.(resultOIDs := d.oids)]), ps, d), d.ok, d.out)
  }

  /** cmd/execdb/pgextended.go: handleDescribe. */
  function HandleDescribe(w: World, c: Conn, kind: char, name: string): Outcome {
    if kind == 'S' then
      if name in c.statements then DescribeStatement(w, c, name) else Fail(c)
    else if kind == 'P' then
      if name in c.portals && c.portals[name].stmtName in c.statements then DescribePortal(w, c, name) else Fail(c)
    else Fail(c)
  }

  /** The column OIDs Execute goes by: the portal's own Describe, else its statement's. */
  function PromisedOids(p: Portal, ps: Prepared): Option<seq<nat>> {
    if p.resultOIDs.Some? then p.resultOIDs else ps.resultOIDs
  }

  /** cmd/execdb/pgextended.go: handleExecute, once the portal has been looked up; `kw` is
      the statement's first keyword. */
  function RunPortal(w: World, c: Conn, p: Portal, ps: Prepared, kw: string): Outcome {
    var (s, r) := RunPrepared(w, c.sess, ps, p.args);
    var c1 := c.(sess := s, log := c.log + if ps.usable then [Statement(ByExecute, ps.sql, kw, c.txState)] else []);
    if r.Failed? then Fail(c1)
    else if !ps.rowReturning then
      Outcome(c1.(txState := TxAfter(c.txState, kw)), true, [CommandComplete(kw, r.affected)])
    else PortalRows(c1, p, PromisedOids(p, ps), r, kw)
  }

  function PortalRows(c: Conn, p: Portal, promised: Option<seq<nat>>, r: Result, kw: string): Outcome
    requires r.Done?
  {
    if promised.None? && r.badTypes then Fail(c)
    else
      var oids := if promised.Some? then promised.value else r.oids;
      if !Enough(p.resultFormats, |oids|) then Panic(c)
      else
        var (out, ok) := SendRows(r.rows, 0, Columns(oids, p.resultFormats), r.broken);
        Outcome(c.(txState := if ok then TxAfter(c.txState, kw) else c.txState), ok, out)
  }

  function HandleExecute(w: World, c: Conn, name: string): Outcome {
    if name !in c.portals then Fail(c)
    else if c.portals[name].stmtName !in c.statements then Fail(c)
    else
      var p := c.portals[name];
      var ps := c.statements[p.stmtName];
      ExecutePortal(w, c, p, ps, FirstKeyword(ps.sql))
  }

  /** A failed transaction takes nothing but the statements that end it. */
  function ExecutePortal(w: World, c: Conn, p: Portal, ps: Prepared, kw: string): Outcome {
    if c.txState == 'E' && !Ends(kw) then Fail(c) else RunPortal(w, c, p, ps, kw)
  }

  /** cmd/execdb/pgextended.go: handleClose. */
  function HandleClose(c: Conn, kind: char, name: string): Outcome {
    if kind == 'S' then Outcome(c.(statements := c.statements - {name}), true, [CloseComplete])
    else if kind == 'P' then Outcome(c.(portals := c.portals - {name}), true, [CloseComplete])
    else Fail(c)
  }

  // ---- Simple Query --------------------------------------------------------

  /** cmd/execdb/pgsession.go: handleSessionCommand. */
  function SessionCommand(w: World, c: Conn, kw: string, stmt: string): (Conn, seq<Reply>)
    requires IsSession(kw)
  {
    if kw == "SET" then
      match w.parseSet(stmt)
      case None => (c, [ErrorResponse])
      case Some(nv) => (c.(params := c.params[nv.0 := nv.1]), [CommandComplete("SET", 0)])
    else
      match w.parseShow(stmt)
      case None => (c, [ErrorResponse])
      case Some(name) =>
        if name == "all" then (c, [ErrorResponse])
        else
          var col := Column(OID_TEXT, false);
          var value := if name in c.params then c.params[name] else [];
          (c, [RowDescription([col]), DataRow([Field(col, Text(value), InText)]), CommandComplete("SHOW", 0)])
  }

  /** One statement of a Simple Query as the loop sees it: its text, that text trimmed,
      and the classification of the trimmed text. */
  datatype Stmt = Stmt(text: string, trimmed: string, kw: string, rows: bool)

  function Classify(text: string): Stmt {
    var trimmed := TrimSpace(text);
    Stmt(text, trimmed, FirstKeyword(trimmed), RowReturning(trimmed))
  }

  /** cmd/execdb/pgwire.go: execOneStatement. */
  function ExecOne(w: World, c: Conn, stmt: Stmt): Outcome {
    var (s, r) := Exec(w.env, c.sess, stmt.text, []);
    var c1 := c.(sess := s, log := c.log + [Statement(ByQuery, stmt.text, stmt.kw, c.txState)]);
    if r.Failed? then Fail(c1)
    else if !stmt.rows then Outcome(c1, true, [CommandComplete(stmt.kw, r.affected)])
    else if r.badTypes then Fail(c1)
    else
      var (out, ok) := SendRows(r.rows, 0, Columns(r.oids, []), r.broken);
      Outcome(c1, ok, [RowDescription(Columns(r.oids, []))] + out)
  }

  /** One turn of handleSimpleQuery's statement loop; `ok` says the loop goes on. */
  function RunStatement(w: World, c: Conn, stmt: Stmt): Outcome {
    if stmt.trimmed == "" then Outcome(c, true, [])
    else if c.txState == 'E' && !Ends(stmt.kw) then Fail(c)
    else if IsSession(stmt.kw) then
      var (c1, out) := SessionCommand(w, c, stmt.kw, stmt.trimmed);
      Outcome(c1, true, out)
    else
      var o := ExecOne(w, c, stmt);
      o.(conn := o.conn.(txState := if o.ok then TxAfter(c.txState, stmt.kw) else Abort(c.txState)))
  }

  /** The statement loop of handleSimpleQuery. */
  function RunBatch(w: World, c: Conn, stmts: seq<string>): (Conn, seq<Reply>)
    decreases |stmts|, 0
  {
    if stmts == [] then (c, []) else GoOn(w, RunStatement(w, c, Classify(stmts[0])), stmts[1..])
  }

  /** The rest of the loop after one statement came out as `o`. */
  function GoOn(w: World, o: Outcome, rest: seq<string>): (Conn, seq<Reply>)
    decreases |rest|, 1
  {
    if !o.ok then (o.conn, o.out)
    else
      var (c, out) := RunBatch(w, o.conn, rest);
      (c, o.out + out)
  }

  /** cmd/execdb/pgwire.go: handleSimpleQuery. */
  function SimpleQuery(w: World, c: Conn, sql: string): (Conn, seq<Reply>) {
    if Blank(sql) then (c, [])
    else
      var query := w.rewrite(sql);
      if !Allowed(query) then (c.(txState := Abort(c.txState)), [ErrorResponse])
      else RunBatch(w, c, StatementsOf(query))
  }

  // ---- The message loop ----------------------------------------------------

  function Handle(w: World, c: Conn, r: Request): Outcome
    requires r.Extended()
  {
    match r
    case Parse(name, query, oids) => HandleParse(w, c, name, query, oids)
    case Bind(portal, stmt, formats, values, resultFormats) =>
      HandleBind(w, c, portal, stmt, formats, values, resultFormats)
    case Describe(kind, name) => HandleDescribe(w, c, kind, name)
    case Execute(portal) => HandleExecute(w, c, portal)
    case Close(kind, name) => HandleClose(c, kind, name)
    case Malformed => Fail(c)
    case Flush => Outcome(c, true, [])
  }

  /** An unsuccessful handler starts the skipping and fails the transaction block. */
  function AfterHandling(o: Outcome): Conn {
    if o.ok || !o.conn.alive then o.conn else o.conn.(inError := true, txState := Abort(o.conn.txState))
  }

  /** One turn of handleConnection's loop. */
  function Step(w: World, c: Conn, r: Request): (Conn, seq<Reply>) {
    if !c.alive then (c, [])
    else if r.Extended() then
      if c.inError then (c, [])
      else
        var o := Handle(w, c, r);
        (AfterHandling(o), o.out)
    else match r
      case Query(sql) =>
        var (c1, out) := SimpleQuery(w, c, sql);
        (c1, out + [ReadyForQuery(c1.txState)])
      case Sync => (c.(inError := false), [ReadyForQuery(c.txState)])
      case Terminate => (c.(alive := false), [])
      case Unknown => (c, [ErrorResponse, ReadyForQuery(c.txState)])
  }

  lemma LogAfterHandling(w: World, c: Conn, r: Request)
    requires c.alive && !c.inError && r.Extended()
    ensures Step(w, c, r).0.log == Handle(w, c, r).conn.log
  {
  }

  /** A run of the loop: the state it ends in, and the replies to each message. */
  function Run(w: World, c: Conn, rs: seq<Request>): (Conn, seq<seq<Reply>>)
    ensures |Run(w, c, rs).1| == |rs|
    decreases |rs|
  {
    if rs == [] then (c, [])
    else
      var (c1, out) := Step(w, c, rs[0]);
      var (c2, outs) := Run(w, c1, rs[1..]);
      (c2, [out] + outs)
  }

  /** A connection as the handshake leaves it, given that the session it got from the pool has
      no transaction open. */
  predicate Fresh(c: Conn) {
    && c.txState == 'I' && !c.inError && c.alive
    && c.statements == map[] && c.portals == map[] && c.log == []
    && c.sess.Valid() && !c.sess.InTx()
  }
}
