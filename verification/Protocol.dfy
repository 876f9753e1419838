/** The messages of one pgwire connection, and the reply grammar of PostgreSQL 16,
    sections 55.2.2 to 55.2.4, stated without reference to the server's state. */
module Protocol {
  import opened Bytes
  import opened Options
  import opened Sqlite
  import opened PgTypes

  /** One column as a RowDescription announces it: type OID and binary or text format. */
  datatype Column = Column(oid: nat, binary: bool)

  /** One DataRow field: the value SQLite gave, the column it was encoded for, and what goes
      out.  Only the last is on the wire. */
  datatype Field = Field(column: Column, value: Value, payload: Payload)

  /** Messages from the client, decoded; `Malformed` is a Parse, Bind, Describe, Execute or
      Close whose body does not decode.  A Bind value is None for SQL NULL. */
  datatype Request =
    | Query(sql: string)
    | Parse(name: string, query: string, oids: seq<nat>)
    | Bind(portal: string, stmt: string, formats: seq<int>, values: seq<Option<Data>>, resultFormats: seq<int>)
    | Describe(kind: char, name: string)
    | Execute(portal: string)
    | Close(kind: char, name: string)
    | Malformed
    | Flush
    | Sync
    | Terminate
    | Unknown
  {
    predicate Extended() { Parse? || Bind? || Describe? || Execute? || Close? || Malformed? || Flush? }
  }

  datatype Reply =
    | ParseComplete
    | BindComplete
    | CloseComplete
    | NoData
    | ParameterDescription(oids: seq<nat>)
    | RowDescription(columns: seq<Column>)
    | DataRow(fields: seq<Field>)
    | CommandComplete(tag: string, count: nat)
    | EmptyQueryResponse
    | ErrorResponse
    | ReadyForQuery(status: char)

  // ---- The grammar ---------------------------------------------------------

  // The grammar comes in two forms.  The strict one is PostgreSQL's.  The other allows what
  // the program does besides: completions with an empty tag, no reply at all to a query
  // without statements, statements that go on after the error of one, an answer to a message
  // of unknown type, and answers to Query while messages are being skipped.

  /** The replies that end the answer to an extended-query message. */
  predicate Terminal(r: Reply) {
    !r.DataRow? && !r.ParameterDescription? && !r.ReadyForQuery?
  }

  predicate AllRows(out: seq<Reply>) {
    forall x :: x in out ==> x.DataRow?
  }

  predicate Shape(r: Reply) {
    r.NoData? || r.RowDescription? || r.ErrorResponse?
  }

  /** `last` may complete a statement that sent `rows` rows: a completion counts them. */
  predicate Completes(strict: bool, last: Reply, rows: nat) {
    && last.CommandComplete?
    && (strict ==> last.tag != "")
    && (last.tag == "SELECT" ==> last.count == rows)
    && (rows > 0 ==> last.tag == "SELECT" || last.tag == "SHOW")
  }

  predicate RowOf(r: Reply, columns: seq<Column>) {
    r.DataRow? && |r.fields| == |columns| && forall i :: 0 <= i < |columns| ==> r.fields[i].column == columns[i]
  }

  /** How far the answer to a Query has got: between two statements, in the rows of one, or
      after an error, which `final` says nothing may follow. */
  datatype Progress = Between | InRows(columns: seq<Column>, sent: nat) | Stopped(final: bool) | Broken

  /** One more reply.  A statement is answered by a RowDescription, its rows and a completion,
      or by a completion alone; an error ends it at any point. */
  function Proceed(strict: bool, p: Progress, r: Reply): Progress {
    match p
    case Broken => Broken
    case InRows(columns, sent) =>
      if RowOf(r, columns) then InRows(columns, sent + 1)
      else if Completes(strict, r, sent) then Between
      else if r.ErrorResponse? then Stopped(true)
      else Broken
    case _ =>
      if p.Stopped? && (p.final || strict) then Broken
      else if r.RowDescription? then InRows(r.columns, 0)
      else if Completes(strict, r, 0) && r.tag != "SELECT" then Between
      else if r.ErrorResponse? then Stopped(strict)
      else Broken
  }

  function ProceedAll(strict: bool, p: Progress, out: seq<Reply>): Progress
    decreases |out|
  {
    if out == [] then p else ProceedAll(strict, Proceed(strict, p, out[0]), out[1..])
  }

  /** What a Query may be answered with before its ReadyForQuery. */
  predicate Batch(strict: bool, out: seq<Reply>) {
    || (strict && out == [EmptyQueryResponse])
    || ((strict ==> out != []) && var p := ProceedAll(strict, Between, out); p.Between? || p.Stopped?)
  }

  predicate Ready(r: Reply) {
    r.ReadyForQuery? && r.status in {'I', 'T', 'E'}
  }

  /** An allowed answer to `r`, outside the skipping that follows an error. */
  predicate Answers(strict: bool, r: Request, out: seq<Reply>) {
    match r
    case Parse(_, _, _) => out == [ParseComplete] || out == [ErrorResponse]
    case Bind(_, _, _, _, _) => out == [BindComplete] || out == [ErrorResponse]
    case Close(_, _) => out == [CloseComplete] || out == [ErrorResponse]
    case Malformed => out == [ErrorResponse]
    case Flush => out == []
    case Describe(kind, _) =>
      || out == [ErrorResponse]
      || (kind == 'S' && |out| == 2 && out[0].ParameterDescription? && Shape(out[1]))
      || (kind == 'P' && |out| == 1 && Shape(out[0]))
    case Execute(_) =>
      && |out| > 0 && AllRows(out[..|out| - 1])
      && var last := out[|out| - 1];
      (last.ErrorResponse? || Completes(strict, last, |out| - 1) || (strict && out == [EmptyQueryResponse]))
    case Sync => |out| == 1 && Ready(out[0])
    case Query(_) => |out| > 0 && Ready(out[|out| - 1]) && Batch(strict, out[..|out| - 1])
    case Unknown => !strict && |out| == 2 && out[0].ErrorResponse? && Ready(out[1])
    case Terminate => out == []
  }

  /** Whether messages are being skipped after `r` was answered with `out`. */
  predicate Skipping(r: Request, out: seq<Reply>, skip: bool) {
    if r.Sync? then false
    else if r.Extended() then skip || (out != [] && out[|out| - 1].ErrorResponse?)
    else skip
  }

  /** The messages discarded from an error to the next Sync: all of them in the standard, the
      extended-query ones in the program. */
  predicate Discarded(strict: bool, r: Request) {
    if strict then !r.Sync? && !r.Terminate? else r.Extended()
  }

  /** One message answered, given whether messages are being skipped. */
  predicate Replied(strict: bool, r: Request, out: seq<Reply>, skip: bool) {
    if skip && Discarded(strict, r) then out == [] else Answers(strict, r, out)
  }

  /** A whole conversation: from an error to the next Sync messages are skipped without a
      word; every other message gets one allowed answer. */
  predicate Conforms(strict: bool, rs: seq<Request>, outs: seq<seq<Reply>>, skip: bool)
    decreases |rs|
  {
    && |rs| == |outs|
    && (rs != [] ==>
          && Replied(strict, rs[0], outs[0], skip)
          && Conforms(strict, rs[1..], outs[1..], Skipping(rs[0], outs[0], skip)))
  }

  lemma {:induction false} ProceedAppend(strict: bool, p: Progress, a: seq<Reply>, b: seq<Reply>)
    ensures ProceedAll(strict, p, a + b) == ProceedAll(strict, ProceedAll(strict, p, a), b)
    decreases |a|
  {
    if a == [] {
      assert a + b == b;
    } else {
      assert (a + b)[1..] == a[1..] + b;
      ProceedAppend(strict, Proceed(strict, p, a[0]), a[1..], b);
    }
  }

  lemma {:induction false} BrokenStays(strict: bool, out: seq<Reply>)
    ensures ProceedAll(strict, Broken, out) == Broken
  {
    if out != [] {
      BrokenStays(strict, out[1..]);
    }
  }

  /** After an error the standard allows nothing; the program may go on with a statement. */
  lemma AfterError(strict: bool, out: seq<Reply>)
    requires out != []
    ensures ProceedAll(strict, Stopped(strict), out) == if strict then Broken else ProceedAll(strict, Between, out)
  {
    if strict {
      BrokenStays(strict, out[1..]);
    }
  }

  // ---- What the grammar promises -------------------------------------------

  function CountErrors(out: seq<Reply>): nat {
    if out == [] then 0 else (if out[0].ErrorResponse? then 1 else 0) + CountErrors(out[1..])
  }

  function CountReady(out: seq<Reply>): nat {
    if out == [] then 0 else (if out[0].ReadyForQuery? then 1 else 0) + CountReady(out[1..])
  }

  function CountTerminal(out: seq<Reply>): nat {
    if out == [] then 0 else (if Terminal(out[0]) then 1 else 0) + CountTerminal(out[1..])
  }

  /** The replies as the client reads them, one stream. */
  function Stream(outs: seq<seq<Reply>>): seq<Reply> {
    if outs == [] then [] else outs[0] + Stream(outs[1..])
  }

  lemma {:induction false} CountsAppend(a: seq<Reply>, b: seq<Reply>)
    ensures CountErrors(a + b) == CountErrors(a) + CountErrors(b)
    ensures CountReady(a + b) == CountReady(a) + CountReady(b)
    ensures CountTerminal(a + b) == CountTerminal(a) + CountTerminal(b)
  {
    if a == [] {
      assert a + b == b;
    } else {
      assert (a + b)[1..] == a[1..] + b;
      CountsAppend(a[1..], b);
    }
  }

  lemma {:induction false} RowsCount(out: seq<Reply>)
    requires AllRows(out)
    ensures CountErrors(out) == CountReady(out) == CountTerminal(out) == 0
  {
    if out != [] {
      assert out[0] in out;
      RowsCount(out[1..]);
    }
  }

  lemma CountsOne(x: Reply)
    ensures CountErrors([x]) == if x.ErrorResponse? then 1 else 0
    ensures CountReady([x]) == if x.ReadyForQuery? then 1 else 0
    ensures CountTerminal([x]) == if Terminal(x) then 1 else 0
  {
    assert [x][1..] == [];
  }

  /** Every extended-query message but Flush has exactly one terminal reply, its last;
      an ErrorResponse can only be that one. */
  lemma OneTerminalReply(strict: bool, r: Request, out: seq<Reply>)
    requires r.Extended() && !r.Flush? && Answers(strict, r, out)
    ensures out != [] && Terminal(out[|out| - 1]) && CountTerminal(out) == 1
    ensures CountReady(out) == 0
    ensures CountErrors(out) == if out[|out| - 1].ErrorResponse? then 1 else 0
  {
    assert out != [] by { OnlyFlushIsSilent(strict, r, out); }
    CountsLast(out);
    var k := |out| - 1;
    if r.Execute? {
      RowsCount(out[..k]);
    } else if r.Describe? && k == 1 {
      CountsLast(out[..k]);
    }
  }

  lemma OnlyFlushIsSilent(strict: bool, r: Request, out: seq<Reply>)
    requires r.Extended() && !r.Flush? && Answers(strict, r, out)
    ensures out != []
    ensures !r.Execute? ==> |out| == 1 || (r.Describe? && |out| == 2 && out[0].ParameterDescription?)
  {
  }

  lemma CountsLast(out: seq<Reply>)
    requires out != []
    ensures var k := |out| - 1;
            && CountErrors(out) == CountErrors(out[..k]) + (if out[k].ErrorResponse? then 1 else 0)
            && CountReady(out) == CountReady(out[..k]) + (if out[k].ReadyForQuery? then 1 else 0)
            && CountTerminal(out) == CountTerminal(out[..k]) + (if Terminal(out[k]) then 1 else 0)
  {
    var k := |out| - 1;
    assert out == out[..k] + [out[k]];
    CountsAppend(out[..k], [out[k]]);
    CountsOne(out[k]);
  }

  /** Pipelining: however many messages are sent without a Sync, at most one
      ErrorResponse comes back, and exactly one if the skipping started among them. */
  lemma {:induction false} OneErrorBetweenSyncs(strict: bool, rs: seq<Request>, outs: seq<seq<Reply>>, skip: bool)
    requires Conforms(strict, rs, outs, skip) && forall r :: r in rs ==> r.Extended()
    ensures CountErrors(Stream(outs)) == if !skip && SkippingAfter(rs, outs, skip) then 1 else 0
    ensures skip ==> Stream(outs) == []
    decreases |rs|
  {
    if rs != [] {
      assert rs[0] in rs;
      var skip' := Skipping(rs[0], outs[0], skip);
      OneErrorBetweenSyncs(strict, rs[1..], outs[1..], skip');
      CountsAppend(outs[0], Stream(outs[1..]));
      if !skip && !rs[0].Flush? {
        OneTerminalReply(strict, rs[0], outs[0]);
      }
      if skip' {
        SkippingStays(rs[1..], outs[1..]);
      }
    }
  }

  /** Whether the server is skipping once all of `rs` is answered. */
  predicate SkippingAfter(rs: seq<Request>, outs: seq<seq<Reply>>, skip: bool)
    requires |rs| == |outs|
  {
    if rs == [] then skip else SkippingAfter(rs[1..], outs[1..], Skipping(rs[0], outs[0], skip))
  }

  lemma {:induction false} SkippingStays(rs: seq<Request>, outs: seq<seq<Reply>>)
    requires |rs| == |outs| && forall r :: r in rs ==> r.Extended()
    ensures SkippingAfter(rs, outs, true)
  {
    if rs != [] {
      assert rs[0] in rs;
      SkippingStays(rs[1..], outs[1..]);
    }
  }

  function CountSyncs(rs: seq<Request>): nat {
    if rs == [] then 0 else (if rs[0].Sync? then 1 else 0) + CountSyncs(rs[1..])
  }

  /** One ReadyForQuery for each Sync, and none besides, whatever was skipped. */
  lemma {:induction false} OneReadyPerSync(strict: bool, rs: seq<Request>, outs: seq<seq<Reply>>, skip: bool)
    requires Conforms(strict, rs, outs, skip) && forall r :: r in rs ==> r.Extended() || r.Sync?
    ensures CountReady(Stream(outs)) == CountSyncs(rs)
    decreases |rs|
  {
    if rs != [] {
      assert rs[0] in rs;
      OneReadyPerSync(strict, rs[1..], outs[1..], Skipping(rs[0], outs[0], skip));
      CountsAppend(outs[0], Stream(outs[1..]));
      if rs[0].Sync? {
        assert outs[0] == [outs[0][0]];
        CountsOne(outs[0][0]);
      } else if !skip && !rs[0].Flush? {
        OneTerminalReply(strict, rs[0], outs[0]);
      }
    }
  }
}
