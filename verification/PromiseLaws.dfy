/** The promise of Describe: every row an Execute sends is encoded for the columns the
    client was last told about, and what becomes of a value that does not fit its column.
    What the client was told is computed from the messages alone, without a look at the
    server's state. */
module PromiseLaws {
  import opened SqlKeywords
  import opened Sqlite
  import opened Options
  import opened PgTypes
  import opened Protocol
  import opened Connection
  import opened TransactionLaws
  import opened ReplyLaws

  /** A client's view: the columns announced for each statement by its latest successful
      Describe; for each portal Described since its Bind, what the latest Describe
      announced, if it did; and the statement each portal was bound to. */
  datatype Client = Client(
    statements: map<string, seq<Column>>, portals: map<string, Option<seq<Column>>>, boundTo: map<string, string>)

  const NOTHING_TOLD := Client(map[], map[], map[])

  /** The columns the client expects of the rows of an Execute: those of the portal's own
      Describe, else of its statement's. */
  function Expected(k: Client, portal: string): Option<seq<Column>> {
    if portal in k.portals then k.portals[portal]
    else if portal in k.boundTo && k.boundTo[portal] in k.statements then Some(k.statements[k.boundTo[portal]])
    else None
  }

  function Announced(last: Reply): Option<seq<Column>> {
    if last.RowDescription? then Some(last.columns) else None
  }

  function Note(told: map<string, seq<Column>>, name: string, last: Reply): map<string, seq<Column>> {
    if last.RowDescription? then told[name := last.columns] else told - {name}
  }

  /** The view after sending `r` and reading its answer `out`. */
  function Observe(k: Client, r: Request, out: seq<Reply>): Client {
    if out == [] then k
    else
      var last := out[|out| - 1];
      match r
      case Parse(name, _, _) => if last.ParseComplete? then k.(statements := k.statements - {name}) else k
      case Bind(portal, stmt, _, _, _) =>
        if last.BindComplete? then k.(portals := k.portals - {portal}, boundTo := k.boundTo[portal := stmt]) else k
      case Describe(kind, name) =>
        if kind == 'S' then k.(statements := Note(k.statements, name, last))
        else if kind == 'P' then k.(portals := k.portals[name := Announced(last)])
        else k
      case Close(kind, name) =>
        if kind == 'S' then k.(statements := k.statements - {name})
        else if kind == 'P' then k.(portals := k.portals - {name}, boundTo := k.boundTo - {name})
        else k
      case _ => k
  }

  /** The view after a whole run. */
  function ObserveAll(k: Client, rs: seq<Request>, outs: seq<seq<Reply>>): Client
    requires |rs| == |outs|
    decreases |rs|
  {
    if rs == [] then k else ObserveAll(Observe(k, rs[0], outs[0]), rs[1..], outs[1..])
  }

  // ---- The server remembers what it told -----------------------------------

  /** What the server caches for statement `n` is what the client was told about it. */
  ghost predicate StatementKnown(k: Client, c: Conn, n: string) {
    && (n in c.statements && c.statements[n].resultOIDs.Some? <==> n in k.statements)
    && (n in k.statements ==> Oids(k.statements[n]) == c.statements[n].resultOIDs.value)
  }

  ghost predicate PortalKnown(k: Client, c: Conn, n: string) {
    && (n in c.portals <==> n in k.boundTo)
    && (n in c.portals ==> k.boundTo[n] == c.portals[n].stmtName)
    && (n in c.portals && n !in k.portals ==> c.portals[n].resultOIDs.None?)
    && (n in k.portals && k.portals[n].Some? ==>
          n in c.portals && var p := c.portals[n];
          p.resultOIDs.Some? && Enough(p.resultFormats, |p.resultOIDs.value|)
          && k.portals[n].value == Columns(p.resultOIDs.value, p.resultFormats))
  }

  ghost predicate InStep(k: Client, c: Conn) {
    (forall n :: StatementKnown(k, c, n)) && (forall n :: PortalKnown(k, c, n))
  }

  lemma OidsOfColumns(oids: seq<nat>, formats: seq<int>)
    requires Enough(formats, |oids|)
    ensures Oids(Columns(oids, formats)) == oids
  {
  }

  /** A statement put under `name`, with what the client then knows of it. */
  lemma StatementPutInStep(k: Client, c: Conn, name: string, ps: Prepared, told: map<string, seq<Column>>, c1: Conn)
    requires InStep(k, c) && c1.statements == c.statements[name := ps] && c1.portals == c.portals
    requires told - {name} == k.statements - {name}
    requires name in told <==> ps.resultOIDs.Some?
    requires name in told ==> Oids(told[name]) == ps.resultOIDs.value
    ensures InStep(k.(statements := told), c1)
  {
    var k1 := k.(statements := told);
    forall n ensures StatementKnown(k1, c1, n) {
      assert StatementKnown(k, c, n);
      if n != name {
        assert n in told <==> n in told - {name};
        assert n in k.statements <==> n in k.statements - {name};
        assert n in told ==> told[n] == (told - {name})[n] == k.statements[n];
      }
    }
    forall n ensures PortalKnown(k1, c1, n) { assert PortalKnown(k, c, n); }
  }

  lemma StoreInStep(w: World, k: Client, c: Conn, name: string, ps: Prepared, query: string, oids: seq<nat>)
    requires InStep(k, c) && ps.resultOIDs == None
    ensures var o := StoreStatement(w, c, name, ps); InStep(Observe(k, Parse(name, query, oids), o.out), o.conn)
  {
    var o := StoreStatement(w, c, name, ps);
    if o.ok {
      StatementPutInStep(k, c, name, ps, k.statements - {name}, o.conn);
    } else if name == "" && name in c.statements {
      assert StatementKnown(k, c, name);
      StatementPutInStep(k, c, name, c.statements[name].(usable := false), k.statements, o.conn);
    } else {
      SameRecordsInStep(k, c, o.conn);
    }
  }

  /** A portal newly bound: nothing announced about it holds any more. */
  lemma PortalBoundInStep(k: Client, c: Conn, name: string, p: Portal)
    requires InStep(k, c) && p.resultOIDs == None
    ensures InStep(k.(portals := k.portals - {name}, boundTo := k.boundTo[name := p.stmtName]),
                   c.(portals := c.portals[name := p]))
  {
    var k1 := k.(portals := k.portals - {name}, boundTo := k.boundTo[name := p.stmtName]);
    var c1 := c.(portals := c.portals[name := p]);
    forall n ensures StatementKnown(k1, c1, n) { assert StatementKnown(k, c, n); }
    forall n ensures PortalKnown(k1, c1, n) { assert PortalKnown(k, c, n); }
  }

  lemma BindInStep(w: World, k: Client, c: Conn, r: Request)
    requires InStep(k, c) && r.Bind?
    ensures var o := HandleBind(w, c, r.portal, r.stmt, r.formats, r.values, r.resultFormats);
            o.conn.alive ==> InStep(Observe(k, r, o.out), o.conn)
  {
    var o := HandleBind(w, c, r.portal, r.stmt, r.formats, r.values, r.resultFormats);
    if o.ok {
      PortalBoundInStep(k, c, r.portal, o.conn.portals[r.portal]);
    }
  }

  lemma StatementClosedInStep(k: Client, c: Conn, name: string)
    requires InStep(k, c)
    ensures InStep(k.(statements := k.statements - {name}), c.(statements := c.statements - {name}))
  {
    var k1, c1 := k.(statements := k.statements - {name}), c.(statements := c.statements - {name});
    forall n ensures StatementKnown(k1, c1, n) { assert StatementKnown(k, c, n); }
    forall n ensures PortalKnown(k1, c1, n) { assert PortalKnown(k, c, n); }
  }

  lemma PortalClosedInStep(k: Client, c: Conn, name: string)
    requires InStep(k, c)
    ensures InStep(k.(portals := k.portals - {name}, boundTo := k.boundTo - {name}), c.(portals := c.portals - {name}))
  {
    var k1 := k.(portals := k.portals - {name}, boundTo := k.boundTo - {name});
    var c1 := c.(portals := c.portals - {name});
    forall n ensures StatementKnown(k1, c1, n) { assert StatementKnown(k, c, n); }
    forall n ensures PortalKnown(k1, c1, n) { assert PortalKnown(k, c, n); }
  }

  /** A row shape that announces exactly the OIDs it hands on. */
  predicate Announces(d: RowShape, formats: seq<int>) {
    && |d.out| == 1
    && match d.oids
       case None => !d.out[0].RowDescription?
       case Some(oids) => Enough(formats, |oids|) && d.out == [RowDescription(Columns(oids, formats))]
  }

  lemma StatementAnswerInStep(k: Client, c: Conn, name: string, ps: Prepared, oids: seq<nat>, d: RowShape)
    requires InStep(k, c) && Announces(d, [])
    ensures var o := AnswerStatement(c, name, ps, oids, d); InStep(Observe(k, Describe('S', name), o.out), o.conn)
  {
    var o := AnswerStatement(c, name, ps, oids, d);
    if d.oids.Some? {
      OidsOfColumns(d.oids.value, []);
    }
    var c1 := c.(statements := c.statements[name := ps.(resultOIDs := d.oids)]);
    StatementPutInStep(k, c, name, ps.(resultOIDs := d.oids), Note(k.statements, name, d.out[0]), c1);
    TrialKeepsMaps(c1, ps, d);
    SameRecordsInStep(k.(statements := Note(k.statements, name, d.out[0])), c1, o.conn);
  }

  lemma DescribeStatementInStep(w: World, k: Client, c: Conn, name: string)
    requires InStep(k, c) && name in c.statements && c.alive
    ensures var o := DescribeStatement(w, c, name);
            o.conn.alive ==> InStep(Observe(k, Describe('S', name), o.out), o.conn)
  {
    if DescribeStatement(w, c, name).conn.alive {
      var ps := c.statements[name];
      var ps1, oids := WithAnnounced(ps), AnnouncedParams(ps);
      ShapeIsOneReply(w, c.sess, ps1, [], Representative(oids));
      StatementAnswerInStep(k, c, name, ps1, oids, DescribeRowShape(w, c.sess, ps1, [], Representative(oids)));
    }
  }

  lemma DescribePortalInStep(w: World, k: Client, c: Conn, name: string)
    requires InStep(k, c) && name in c.portals && c.portals[name].stmtName in c.statements && c.alive
    ensures var o := DescribePortal(w, c, name);
            o.conn.alive ==> InStep(Observe(k, Describe('P', name), o.out), o.conn)
  {
    var o := DescribePortal(w, c, name);
    if o.conn.alive {
      var p := c.portals[name];
      var d := DescribeRowShape(w, c.sess, c.statements[p.stmtName], p.resultFormats, p.args);
      ShapeIsOneReply(w, c.sess, c.statements[p.stmtName], p.resultFormats, p.args);
      var c1 := c.(portals := c.portals[name := p.(resultOIDs := d.oids)]);
      PortalToldInStep(k, c, name, d, c1);
      TrialKeepsMaps(c1, c.statements[p.stmtName], d);
      SameRecordsInStep(Observe(k, Describe('P', name), o.out), c1, o.conn);
    }
  }

  lemma PortalToldInStep(k: Client, c: Conn, name: string, d: RowShape, c1: Conn)
    requires InStep(k, c) && name in c.portals && Announces(d, c.portals[name].resultFormats)
    requires c1 == c.(portals := c.portals[name := c.portals[name].(resultOIDs := d.oids)])
    ensures InStep(Observe(k, Describe('P', name), d.out), c1)
  {
    var k1 := Observe(k, Describe('P', name), d.out);
    assert k1 == k.(portals := k.portals[name := Announced(d.out[0])]);
    forall n ensures StatementKnown(k1, c1, n) { assert StatementKnown(k, c, n); }
    forall n ensures PortalKnown(k1, c1, n) { assert PortalKnown(k, c, n); }
  }

  /** A Describe that finds nothing: a statement nothing was known of, or a portal about
      which the client stops expecting anything. */
  lemma DescribeNothingInStep(k: Client, c: Conn, kind: char, name: string)
    requires InStep(k, c) && (kind == 'S' ==> name !in c.statements)
    ensures InStep(Observe(k, Describe(kind, name), [ErrorResponse]), c)
  {
    var k1 := Observe(k, Describe(kind, name), [ErrorResponse]);
    forall n ensures StatementKnown(k1, c, n) { assert StatementKnown(k, c, n); }
    forall n ensures PortalKnown(k1, c, n) { assert PortalKnown(k, c, n); }
  }

  lemma DescribeInStep(w: World, k: Client, c: Conn, kind: char, name: string)
    requires InStep(k, c) && c.alive
    ensures var o := HandleDescribe(w, c, kind, name);
            o.conn.alive ==> InStep(Observe(k, Describe(kind, name), o.out), o.conn)
  {
    if kind == 'S' && name in c.statements {
      DescribeStatementInStep(w, k, c, name);
    } else if kind == 'P' && name in c.portals && c.portals[name].stmtName in c.statements {
      DescribePortalInStep(w, k, c, name);
    } else {
      DescribeNothingInStep(k, c, kind, name);
    }
  }

  lemma HandleInStep(w: World, k: Client, c: Conn, r: Request)
    requires InStep(k, c) && r.Extended() && c.alive
    ensures var o := Handle(w, c, r); o.conn.alive ==> InStep(Observe(k, r, o.out), o.conn)
  {
    match r {
      case Parse(name, query, oids) => StoreInStep(w, k, c, name, NewStatement(w.rewrite(query), oids), query, oids);
      case Bind(_, _, _, _, _) => BindInStep(w, k, c, r);
      case Describe(kind, name) => DescribeInStep(w, k, c, kind, name);
      case Close(kind, name) => StatementClosedInStep(k, c, name); PortalClosedInStep(k, c, name);
      case Execute(name) => ExecuteInStep(w, k, c, name);
      case _ =>
    }
  }

  lemma SameRecordsInStep(k: Client, c: Conn, c1: Conn)
    requires InStep(k, c) && c1.statements == c.statements && c1.portals == c.portals
    ensures InStep(k, c1)
  {
    forall n ensures StatementKnown(k, c1, n) { assert StatementKnown(k, c, n); }
    forall n ensures PortalKnown(k, c1, n) { assert PortalKnown(k, c, n); }
  }

  lemma ExecuteInStep(w: World, k: Client, c: Conn, name: string)
    requires InStep(k, c)
    ensures var o := HandleExecute(w, c, name); InStep(Observe(k, Execute(name), o.out), o.conn)
  {
    ExecuteKeepsMaps(w, c, name);
    SameRecordsInStep(k, c, HandleExecute(w, c, name).conn);
  }

  lemma StepInStep(w: World, k: Client, c: Conn, r: Request)
    requires InStep(k, c) && Step(w, c, r).0.alive
    ensures var (c1, out) := Step(w, c, r); InStep(Observe(k, r, out), c1)
  {
    var (c1, out) := Step(w, c, r);
    if c.alive && r.Extended() && !c.inError {
      var o := Handle(w, c, r);
      HandleInStep(w, k, c, r);
      SameRecordsInStep(Observe(k, r, out), o.conn, c1);
    } else {
      if c.alive && r.Query? {
        QueryKeepsMaps(w, c, r.sql);
      }
      SameRecordsInStep(k, c, c1);
    }
  }

  lemma {:induction false} RunInStep(w: World, k: Client, c: Conn, rs: seq<Request>)
    requires InStep(k, c) && c.alive && Run(w, c, rs).0.alive
    ensures InStep(ObserveAll(k, rs, Run(w, c, rs).1), Run(w, c, rs).0)
    decreases |rs|
  {
    if rs != [] {
      var (c1, out) := Step(w, c, rs[0]);
      if !c1.alive {
        DeadStaysDead(w, c1, rs[1..]);
      } else {
        StepInStep(w, k, c, rs[0]);
        RunInStep(w, Observe(k, rs[0], out), c1, rs[1..]);
        assert Run(w, c, rs).1[1..] == Run(w, c1, rs[1..]).1;
      }
    }
  }

  // ---- The promise ---------------------------------------------------------

  /** What a client that goes by the format `binary` finds in a field: NULL, the value or its
      text; it goes wrong if and only if the column is binary and the value, not being NULL, is
      none that the binary encoder of the announced type takes. */
  predicate ReadsWell(widen: Widening, f: Field, oid: nat, binary: bool) {
    var r := ReadAs(widen, oid, binary, f.payload);
    && (r.Garbled? <==> binary && !f.value.Null? && EncodeBinary(oid, f.value).None?)
    && (!r.Garbled? ==> r == if f.value.Null? then IsNull else if binary then IsValue(Normal(oid, f.value)) else IsText)
  }

  /** A field has the announced OID and, with `formats`, the announced format; and it reads
      well in its format. */
  predicate FieldKept(widen: Widening, f: Field, told: Column, formats: bool) {
    && f.column.oid == told.oid
    && (formats ==> f.column.binary == told.binary)
    && ReadsWell(widen, f, told.oid, f.column.binary)
  }

  ghost predicate Kept(widen: Widening, out: seq<Reply>, cols: seq<Column>, formats: bool) {
    forall x :: x in out && x.DataRow? ==>
      |x.fields| == |cols| && forall i :: 0 <= i < |cols| ==> FieldKept(widen, x.fields[i], cols[i], formats)
  }

  /** The rows of an Execute have the OIDs the client was last told, whatever the query really
      returns, and where it was the portal's Describe that told it, the formats too.  A value
      is read as announced unless its column is binary and the encoder does not take it. */
  lemma PromiseKept(w: World, k: Client, c: Conn, name: string)
    requires InStep(k, c) && Expected(k, name).Some?
    ensures Kept(w.widen, HandleExecute(w, c, name).out, Expected(k, name).value, name in k.portals)
  {
    if name in c.portals && c.portals[name].stmtName in c.statements {
      var p := c.portals[name];
      var ps := c.statements[p.stmtName];
      assert PortalKnown(k, c, name) && StatementKnown(k, c, p.stmtName);
      var oids := PromisedOids(p, ps).value;
      if name in k.portals {
        OidsOfColumns(oids, p.resultFormats);
      }
      assert Oids(Expected(k, name).value) == oids;
      RowsFromPromise(w, c, p, ps, FirstKeyword(ps.sql), Expected(k, name).value, name in k.portals);
    }
  }

  lemma RowsFromPromise(w: World, c: Conn, p: Portal, ps: Prepared, kw: string, told: seq<Column>, formats: bool)
    requires PromisedOids(p, ps) == Some(Oids(told))
    requires formats ==> Enough(p.resultFormats, |told|) && told == Columns(Oids(told), p.resultFormats)
    ensures Kept(w.widen, ExecutePortal(w, c, p, ps, kw).out, told, formats)
  {
    var r := RunPrepared(w, c.sess, ps, p.args).1;
    if r.Done? && ps.rowReturning && Enough(p.resultFormats, |told|) {
      RowsKept(w.widen, r.rows, 0, told, p.resultFormats, r.broken, formats);
    }
  }

  lemma {:induction false} RowsKept(widen: Widening, rows: seq<Row>, from: nat, told: seq<Column>, asked: seq<int>,
                                    broken: bool, formats: bool)
    requires from <= |rows| && Enough(asked, |told|) && (formats ==> told == Columns(Oids(told), asked))
    ensures Kept(widen, SendRows(rows, from, Columns(Oids(told), asked), broken).0, told, formats)
    decreases |rows| - from
  {
    var cols := Columns(Oids(told), asked);
    if from < |rows| && |rows[from]| == |cols| {
      RowsKept(widen, rows, from + 1, told, asked, broken, formats);
      RowKept(widen, rows[from], told, asked, formats);
    }
  }

  lemma RowKept(widen: Widening, row: Row, told: seq<Column>, asked: seq<int>, formats: bool)
    requires |row| == |told| && Enough(asked, |told|) && (formats ==> told == Columns(Oids(told), asked))
    ensures var fields := Encode(row, Columns(Oids(told), asked));
            forall i :: 0 <= i < |told| ==> FieldKept(widen, fields[i], told[i], formats)
  {
    var cols := Columns(Oids(told), asked);
    forall i | 0 <= i < |told| ensures FieldKept(widen, Encode(row, cols)[i], told[i], formats) {
      ReadsAsAnnounced(widen, told[i].oid, cols[i].binary, row[i]);
    }
  }

  /** Over whole runs: after any conversation a fresh connection survives, the next Execute
      keeps what the conversation announced. */
  lemma RunKeepsPromise(w: World, c: Conn, rs: seq<Request>, name: string)
    requires Fresh(c) && Run(w, c, rs).0.alive
    ensures var (c1, outs) := Run(w, c, rs);
            var k := ObserveAll(NOTHING_TOLD, rs, outs);
            Expected(k, name).Some? ==>
              Kept(w.widen, Step(w, c1, Execute(name)).1, Expected(k, name).value, name in k.portals)
  {
    forall n ensures StatementKnown(NOTHING_TOLD, c, n) && PortalKnown(NOTHING_TOLD, c, n) {}
    RunInStep(w, NOTHING_TOLD, c, rs);
    var (c1, outs) := Run(w, c, rs);
    var k := ObserveAll(NOTHING_TOLD, rs, outs);
    if Expected(k, name).Some? {
      PromiseKept(w, k, c1, name);
    }
  }

  /** The exception occurs: a text in a column its portal's Describe announced as a binary
      int8, as SQLite lets an INTEGER column hold one, goes out as text. */
  lemma TextUnderBinary(w: World, k: Client, c: Conn, name: string, text: Data)
    requires InStep(k, c) && c.alive && !c.inError && c.txState != 'E' && name in k.portals
    requires k.portals[name] == Some([Column(OID_INT8, true)])
    requires name in c.portals && c.portals[name].stmtName in c.statements
    requires var ps := c.statements[c.portals[name].stmtName];
             ps.rowReturning && RunPrepared(w, c.sess, ps, c.portals[name].args).1
                 == Done([[Text(text)]], [OID_INT8], false, false, 0)
    ensures var out := Step(w, c, Execute(name)).1;
            && out == [DataRow([Field(Column(OID_INT8, true), Text(text), InText)]), CommandComplete("SELECT", 1)]
            && ReadAs(w.widen, OID_INT8, true, out[0].fields[0].payload).Garbled?
  {
    assert PortalKnown(k, c, name);
    var p := c.portals[name];
    var ps := c.statements[p.stmtName];
    var oids := p.resultOIDs.value;
    OidsOfColumns(oids, p.resultFormats);
    assert oids == [OID_INT8];
    OneTextSent(Columns(oids, p.resultFormats), text);
    PortalSends(w, c, p, ps, FirstKeyword(ps.sql));
  }

  lemma OneTextSent(cols: seq<Column>, text: Data)
    requires cols == [Column(OID_INT8, true)]
    ensures SendRows([[Text(text)]], 0, cols, false).0 ==
            [DataRow([Field(Column(OID_INT8, true), Text(text), InText)]), CommandComplete("SELECT", 1)]
  {
    var rows := [[Text(text)]];
    assert SendRows(rows, 1, cols, false) == ([CommandComplete("SELECT", 1)], true);
    assert SendRows(rows, 0, cols, false).0 == [DataRow(Encode(rows[0], cols))] + [CommandComplete("SELECT", 1)];
    assert Encode(rows[0], cols)[0] == Field(cols[0], Text(text), InText);
    assert Encode(rows[0], cols) == [Field(cols[0], Text(text), InText)];
  }

  lemma PortalSends(w: World, c: Conn, p: Portal, ps: Prepared, kw: string)
    requires c.txState != 'E' && ps.rowReturning && p.resultOIDs.Some? && Enough(p.resultFormats, |p.resultOIDs.value|)
    requires RunPrepared(w, c.sess, ps, p.args).1.Done?
    ensures var r := RunPrepared(w, c.sess, ps, p.args).1;
            ExecutePortal(w, c, p, ps, kw).out
                == SendRows(r.rows, 0, Columns(p.resultOIDs.value, p.resultFormats), r.broken).0
  {
  }
}
