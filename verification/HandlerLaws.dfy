/** What each extended-query message comes to, said in terms of the calls SQLite gets and the
    messages' own contents (cmd/execdb/pgextended.go). */
module HandlerLaws {
  import opened Blanks
  import opened SqlKeywords
  import opened Sqlite
  import opened Options
  import opened PgTypes
  import opened Protocol
  import opened Connection
  import opened TransactionLaws
  import opened ReplyLaws
  import opened LifeLaws

  // ---- Parse ---------------------------------------------------------------

  /** The largest `$N` of a query that is an int, 0 if there is none. */
  ghost predicate CountsParameters(query: string, n: nat) {
    && (forall k :: 0 <= k < |query| ==> PlaceholderAt(query, k) <= n)
    && (n == 0 || exists k :: 0 <= k < |query| && PlaceholderAt(query, k) == n)
  }

  predicate ParseWorks(w: World, c: Conn, name: string, query: string) {
    Allowed(query) && Free(c, name) && !w.env.fails(c.sess.calls)
  }

  predicate Free(c: Conn, name: string) { name == "" || name !in c.statements }

  /** What a statement is right after its Parse. */
  ghost predicate JustParsed(ps: Prepared, query: string, oids: seq<nat>) {
    && ps.sql == query && ps.usable && ps.paramOIDs == oids && ps.resultOIDs == None
    && (ps.rowReturning <==> RowReturning(query)) && CountsParameters(query, ps.numParams)
  }

  /** A Parse succeeds if and only if its text is allowed, its name is free or empty, and SQLite
      compiles it; the name then stands for the text, with its placeholders counted and the
      declared types kept.  A failed one leaves every statement as it was, but may have closed
      the handle of the unnamed one. */
  lemma ParseStores(w: World, c: Conn, name: string, text: string, oids: seq<nat>)
    ensures var query := w.rewrite(text);
            var o := HandleParse(w, c, name, text, oids);
            && (o.ok <==> ParseWorks(w, c, name, query))
            && o.out == [if o.ok then ParseComplete else ErrorResponse]
            && (o.ok ==> name in o.conn.statements && JustParsed(o.conn.statements[name], query, oids))
            && o.conn.statements.Keys == c.statements.Keys + (if o.ok then {name} else {})
            && (forall n :: n in c.statements && n != name ==> o.conn.statements[n] == c.statements[n])
            && (!o.ok && name in c.statements ==>
                  o.conn.statements[name] ==
                  c.statements[name].(usable := c.statements[name].usable && (name != "" || !Allowed(query))))
            && Elsewhere(c, o.conn) && o.conn.portals == c.portals && o.conn.log == c.log
            && o.conn.sess == (if Allowed(query) && Free(c, name) then Count(c.sess) else c.sess)
  {
    var query := w.rewrite(text);
    HighestIsMaximum(query, |query|);
    if Allowed(query) {
      StoreOutcome(w, c, name, NewStatement(query, oids));
    }
  }

  /** The parts of the state a handler other than Execute and Describe has no business with. */
  predicate Elsewhere(c: Conn, c1: Conn) {
    c1.txState == c.txState && c1.params == c.params && c1.inError == c.inError && c1.alive == c.alive
  }

  lemma StoreOutcome(w: World, c: Conn, name: string, ps: Prepared)
    ensures var o := StoreStatement(w, c, name, ps);
            && (o.ok <==> Free(c, name) && !w.env.fails(c.sess.calls))
            && o.out == [if o.ok then ParseComplete else ErrorResponse]
            && (o.ok ==> name in o.conn.statements && o.conn.statements[name] == ps)
            && o.conn.statements.Keys == c.statements.Keys + (if o.ok then {name} else {})
            && (forall n :: n in c.statements && n != name ==> o.conn.statements[n] == c.statements[n])
            && (!o.ok && name in c.statements ==>
                  o.conn.statements[name] == c.statements[name].(usable := c.statements[name].usable && name != ""))
            && Elsewhere(c, o.conn) && o.conn.portals == c.portals && o.conn.log == c.log
            && o.conn.sess == (if Free(c, name) then Count(c.sess) else c.sess)
  {
  }

  // ---- Columns -------------------------------------------------------------

  /** Columns of these types: binary exactly where that is asked for and the type has it. */
  predicate ColumnsFor(cols: seq<Column>, oids: seq<nat>, formats: seq<int>) {
    && |cols| == |oids|
    && forall i :: 0 <= i < |oids| ==>
         cols[i].oid == oids[i] && (cols[i].binary <==> Asks(formats, i, 1) && HasBinary(oids[i]))
  }

  /** bool, bytea, int8, float8, timestamp. */
  predicate HasBinary(oid: nat) { oid in [16, 17, 20, 701, 1114] }

  lemma ColumnsAre(oids: seq<nat>, formats: seq<int>)
    requires |formats| <= 1 || |oids| <= |formats|
    ensures ColumnsFor(Columns(oids, formats), oids, formats)
  {
  }

  // ---- Describe ------------------------------------------------------------

  /** The calls of a trial run: savepoint, statement, rollback, release. */
  function Saved(w: World, s: Session): (Session, Result) { Issue(w.env, s, Savepoint("execdb_describe")) }

  function Tried(w: World, s: Session, sql: string, args: seq<Value>): (Session, Result) {
    Exec(w.env, Saved(w, s).0, sql, args)
  }

  predicate CleanedUp(w: World, s: Session) {
    var (s1, back) := Issue(w.env, s, RollbackTo("execdb_describe"));
    back.Done? && Issue(w.env, s1, Release("execdb_describe")).1.Done?
  }

  /** All four calls get through, the statement run on `args`, and its types can be read. */
  predicate TrialWorks(w: World, s: Session, ps: Prepared, args: seq<Value>) {
    && ps.usable && Saved(w, s).1.Done?
    && var (s1, r) := Tried(w, s, ps.sql, args);
    r.Done? && !r.badTypes && CleanedUp(w, s1)
  }

  /** A row shape is NoData if and only if the statement returns no rows; for one that does it
      announces the columns its trial found, or is an error. */
  lemma ShapeIs(w: World, s: Session, ps: Prepared, formats: seq<int>, args: seq<Value>)
    requires DescribeRowShape(w, s, ps, formats, args).alive
    ensures var d := DescribeRowShape(w, s, ps, formats, args);
            && (d.out == [NoData] <==> !ps.rowReturning)
            && (ps.rowReturning && !TrialWorks(w, s, ps, args) ==> d.out == [ErrorResponse] && d.oids == None && !d.ok)
            && (ps.rowReturning && TrialWorks(w, s, ps, args) ==>
                  var oids := Tried(w, s, ps.sql, args).1.oids;
                  && d.ok && d.oids == Some(oids) && |d.out| == 1 && d.out[0].RowDescription?
                  && ColumnsFor(d.out[0].columns, oids, formats))
            && (!ps.rowReturning ==> d.ok && d.oids == None)
  {
    if ps.rowReturning {
      TrialIs(w, s, ps, args);
      if TrialWorks(w, s, ps, args) {
        ColumnsAre(Tried(w, s, ps.sql, args).1.oids, formats);
      }
    }
  }

  lemma TrialIs(w: World, s: Session, ps: Prepared, args: seq<Value>)
    ensures var t := RunTrial(w, s, ps, args);
            && (t.started && t.result.Done? && t.undone && !t.result.badTypes <==> TrialWorks(w, s, ps, args))
            && (TrialWorks(w, s, ps, args) ==> t.result == Tried(w, s, ps.sql, args).1)
  {
  }

  /** The parameter types a Describe of a statement announces: those declared, 0 for the rest;
      and for the one query a client looks up types with, the type of an OID. */
  predicate Announces(oids: seq<nat>, ps: Prepared) {
    && |oids| == ps.numParams
    && forall i :: 0 <= i < |oids| ==>
         oids[i] == if ForLookup(ps) then 26 else Declared(ps, i)
  }

  /** One parameter of no declared type, in the query some clients look types up with. */
  predicate ForLookup(ps: Prepared) {
    ps.numParams == 1 && Declared(ps, 0) == 0 && Index(ps.sql, "rngsubtype") >= 0
  }

  /** The arguments of a statement's trial: a value of the announced type, NULL for one that is
      unknown. */
  predicate Plausible(args: seq<Value>, oids: seq<nat>) {
    |args| == |oids| && forall i :: 0 <= i < |oids| ==> PlausibleAs(args[i], oids[i])
  }

  predicate PlausibleAs(v: Value, oid: nat) {
    if oid == 16 then v.Bool? else if oid in [20, 21, 23, 26] then v.Int64?
    else if oid in [700, 701, 1700] then v.Float? else if oid == 25 then v.Text?
    else if oid == 17 then v.Blob? else if oid == 1114 then v.Time? else v.Null?
  }

  /** A statement-level Describe: the parameter types, then NoData, or the columns of a trial on
      plausible arguments, all as text, which are remembered. */
  lemma DescribeStatementIs(w: World, c: Conn, name: string)
    requires c.alive && name in c.statements && HandleDescribe(w, c, 'S', name).conn.alive
    ensures var (o, ps) := (HandleDescribe(w, c, 'S', name), c.statements[name]);
            var args := Representative(AnnouncedParams(ps));
            && |o.out| == 2 && o.out[0].ParameterDescription?
            && Announces(o.out[0].oids, ps) && Plausible(args, o.out[0].oids)
            && (o.out[1] == NoData <==> !ps.rowReturning)
            && (o.ok <==> ps.rowReturning ==> TrialWorks(w, c.sess, ps, args))
            && name in o.conn.statements
            && o.conn.statements[name].paramOIDs == (if ForLookup(ps) then [26] else ps.paramOIDs)
            && (ps.rowReturning && o.ok ==>
                  var oids := Tried(w, c.sess, ps.sql, args).1.oids;
                  && o.out[1].RowDescription? && ColumnsFor(o.out[1].columns, oids, [])
                  && o.conn.statements[name].resultOIDs == Some(oids))
            && (!o.ok ==> o.out[1] == ErrorResponse && o.conn.statements[name].resultOIDs == None)
  {
    var ps := c.statements[name];
    var oids := AnnouncedParams(ps);
    AnnouncedAre(ps);
    ShapeIs(w, c.sess, WithAnnounced(ps), [], Representative(oids));
    var d := DescribeRowShape(w, c.sess, WithAnnounced(ps), [], Representative(oids));
    TrialKeepsMaps(c.(statements := c.statements[name := WithAnnounced(ps).(resultOIDs := d.oids)]),
        WithAnnounced(ps), d);
  }

  lemma AnnouncedAre(ps: Prepared)
    ensures Announces(AnnouncedParams(ps), ps) && Plausible(Representative(AnnouncedParams(ps)), AnnouncedParams(ps))
    ensures WithAnnounced(ps) == ps.(paramOIDs := WithAnnounced(ps).paramOIDs)
    ensures WithAnnounced(ps).paramOIDs == if ForLookup(ps) then [26] else ps.paramOIDs
  {
    var oids := DeclaredParams(ps);
    assert |oids| == 1 ==> (oids == [0] <==> oids[0] == 0);
  }

  /** A portal-level Describe: NoData, or the columns of a trial on the bound values, in the
      formats its Bind asked for, which are remembered. */
  lemma DescribePortalIs(w: World, c: Conn, name: string)
    requires c.alive && name in c.portals && c.portals[name].stmtName in c.statements
    requires HandleDescribe(w, c, 'P', name).conn.alive
    ensures var (o, p) := (HandleDescribe(w, c, 'P', name), c.portals[name]);
            var ps := c.statements[p.stmtName];
            && |o.out| == 1
            && (o.out[0] == NoData <==> !ps.rowReturning)
            && (o.ok <==> ps.rowReturning ==> TrialWorks(w, c.sess, ps, p.args))
            && name in o.conn.portals
            && (ps.rowReturning && o.ok ==>
                  var oids := Tried(w, c.sess, ps.sql, p.args).1.oids;
                  && o.out[0].RowDescription? && ColumnsFor(o.out[0].columns, oids, p.resultFormats)
                  && o.conn.portals[name] == p.(resultOIDs := Some(oids)))
            && (!o.ok ==> o.out[0] == ErrorResponse && o.conn.portals[name] == p.(resultOIDs := None))
  {
    var p := c.portals[name];
    var ps := c.statements[p.stmtName];
    ShapeIs(w, c.sess, ps, p.resultFormats, p.args);
    var d := DescribeRowShape(w, c.sess, ps, p.resultFormats, p.args);
    TrialKeepsMaps(c.(portals := c.portals[name := p.(resultOIDs := d.oids)]), ps, d);
  }

  // ---- Execute -------------------------------------------------------------

  /** The column types an Execute goes by: those its portal, else its statement, was described
      with, else those of the result, if they can be read. */
  function TypesFor(p: Portal, ps: Prepared, r: Result): Option<seq<nat>>
    requires r.Done?
  {
    if p.resultOIDs.Some? then p.resultOIDs
    else if ps.resultOIDs.Some? then ps.resultOIDs
    else if r.badTypes then None else Some(r.oids)
  }

  /** All of a result can be sent: its types are known, every row has that many values, and the
      iteration does not break. */
  predicate Sendable(p: Portal, ps: Prepared, r: Result)
    requires r.Done?
  {
    ps.rowReturning ==>
      TypesFor(p, ps, r).Some? && !r.broken &&
      forall j :: 0 <= j < |r.rows| ==> |r.rows[j]| == |TypesFor(p, ps, r).value|
  }

  /** A statement the program lets through in state `tx`. */
  predicate LetThrough(tx: char, kw: string) {
    tx == 'E' ==> kw in ["COMMIT", "ROLLBACK", "END"]
  }

  function Executed(w: World, c: Conn, p: Portal, ps: Prepared): (Session, Result) {
    Exec(w.env, c.sess, ps.sql, p.args)
  }

  /** The Execute gets its statement through, and its rows out. */
  predicate ExecuteWorks(w: World, c: Conn, p: Portal, ps: Prepared, kw: string) {
    && LetThrough(c.txState, kw) && ps.usable
    && var r := Executed(w, c, p, ps).1;
    r.Done? && Sendable(p, ps, r)
  }

  /** The session after an Execute is that of the one call it makes, on the portal's values, or
      is untouched where it makes none; and it succeeds if and only if that call does and its
      rows can be sent.  Without rows the answer is the completion with the rows affected. */
  lemma PortalIs(w: World, c: Conn, p: Portal, ps: Prepared, kw: string)
    requires ExecutePortal(w, c, p, ps, kw).conn.alive
    ensures var o := ExecutePortal(w, c, p, ps, kw);
            var (s, r) := Executed(w, c, p, ps);
            && o.conn.sess == (if LetThrough(c.txState, kw) && ps.usable then s else c.sess)
            && (o.ok <==> ExecuteWorks(w, c, p, ps, kw))
            && (o.ok && !ps.rowReturning ==> o.out == [CommandComplete(kw, r.affected)])
            && (o.ok ==> r.Done?)
  {
    if LetThrough(c.txState, kw) && ps.usable && Executed(w, c, p, ps).1.Done? && ps.rowReturning {
      var r := Executed(w, c, p, ps).1;
      if TypesFor(p, ps, r).Some? {
        RowsOutcome(r.rows, 0, Columns(TypesFor(p, ps, r).value, p.resultFormats), r.broken);
      }
    }
  }

  lemma {:induction false} RowsOutcome(rows: seq<Row>, from: nat, cols: seq<Column>, broken: bool)
    requires from <= |rows|
    ensures SendRows(rows, from, cols, broken).1 <==> !broken && forall j :: from <= j < |rows| ==> |rows[j]| == |cols|
    decreases |rows| - from
  {
    if from < |rows| && |rows[from]| == |cols| {
      RowsOutcome(rows, from + 1, cols, broken);
    }
  }

  lemma ExecuteIs(w: World, c: Conn, name: string)
    requires name in c.portals && c.portals[name].stmtName in c.statements && HandleExecute(w, c, name).conn.alive
    ensures var (o, p) := (HandleExecute(w, c, name), c.portals[name]);
            var ps := c.statements[p.stmtName];
            var kw := FirstKeyword(ps.sql);
            var (s, r) := Executed(w, c, p, ps);
            && o.conn.sess == (if LetThrough(c.txState, kw) && ps.usable then s else c.sess)
            && (o.ok <==> ExecuteWorks(w, c, p, ps, kw))
            && (o.ok && !ps.rowReturning ==> o.out == [CommandComplete(kw, r.affected)])
            && (o.ok ==> r.Done?)
  {
    var p := c.portals[name];
    PortalIs(w, c, p, c.statements[p.stmtName], FirstKeyword(c.statements[p.stmtName].sql));
  }

  // ---- Every message -------------------------------------------------------

  predicate FoundStatement(c: Conn, name: string) { name in c.statements }

  predicate FoundPortal(c: Conn, name: string) { name in c.portals && c.portals[name].stmtName in c.statements }

  /** An extended-query message does what it asks for. */
  predicate Works(w: World, c: Conn, r: Request)
    requires r.Extended()
  {
    match r
    case Parse(name, text, _) => ParseWorks(w, c, name, w.rewrite(text))
    case Bind(portal, stmt, formats, values, _) =>
      && stmt in c.statements && (portal == "" || portal !in c.portals) && |values| == c.statements[stmt].numParams
      && forall j :: 0 <= j < |values| ==> Takes(w, c.statements[stmt], formats, j, values[j])
    case Describe(kind, name) =>
      if kind == 'S' then
        FoundStatement(c, name)
        && (c.statements[name].rowReturning ==>
              TrialWorks(w, c.sess, c.statements[name], Representative(AnnouncedParams(c.statements[name]))))
      else kind == 'P' && FoundPortal(c, name)
           && (c.statements[c.portals[name].stmtName].rowReturning ==>
                 TrialWorks(w, c.sess, c.statements[c.portals[name].stmtName], c.portals[name].args))
    case Execute(name) =>
      && FoundPortal(c, name)
      && var ps := c.statements[c.portals[name].stmtName];
      ExecuteWorks(w, c, c.portals[name], ps, FirstKeyword(ps.sql))
    case Close(kind, _) => kind == 'S' || kind == 'P'
    case Malformed => false
    case Flush => true
  }

  lemma DescribeWorks(w: World, c: Conn, kind: char, name: string)
    requires c.alive && HandleDescribe(w, c, kind, name).conn.alive
    ensures HandleDescribe(w, c, kind, name).ok <==> Works(w, c, Describe(kind, name))
  {
    if kind == 'S' && name in c.statements {
      DescribeStatementIs(w, c, name);
    } else if kind == 'P' && FoundPortal(c, name) {
      DescribePortalIs(w, c, name);
    }
  }

  lemma BindWorks(w: World, c: Conn, r: Request)
    requires r.Bind? && Handle(w, c, r).conn.alive && c.alive
    ensures Handle(w, c, r).ok <==> Works(w, c, r)
  {
    if r.stmt in c.statements {
      ArgsOutcome(w, c.statements[r.stmt], r.formats, r.values, |r.values|);
    }
  }

  /** A handler succeeds if and only if the message works out. */
  lemma HandleWorks(w: World, c: Conn, r: Request)
    requires r.Extended() && c.alive && Handle(w, c, r).conn.alive
    ensures Handle(w, c, r).ok <==> Works(w, c, r)
  {
    match r {
      case Parse(name, text, oids) => ParseStores(w, c, name, text, oids);
      case Bind(_, _, _, _, _) => BindWorks(w, c, r);
      case Describe(kind, name) => DescribeWorks(w, c, kind, name);
      case Execute(name) => if FoundPortal(c, name) { ExecuteIs(w, c, name); }
      case _ =>
    }
  }
}
