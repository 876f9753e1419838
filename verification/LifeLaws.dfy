/** What ends the message loop of a connection: the client's word, or a Go panic in a handler.
    The program recovers from none, so a panic takes every other connection with it.  What
    comes before the loop, the handshake and cancel requests, is not the subject. */
module LifeLaws {
  import opened SqlLexer
  import opened SqlKeywords
  import opened Sqlite
  import opened Options
  import opened PgTypes
  import opened Protocol
  import opened Connection
  import opened PlainTexts
  import opened TransactionLaws
  import opened ReplyLaws

  // ---- Bind ----------------------------------------------------------------

  /** The format code of value `j` can be looked up, or need not be. */
  predicate Indexable(formats: seq<int>, j: nat, v: Option<Data>) {
    v.None? || |formats| <= 1 || j < |formats|
  }

  /** The client asks for format `code` at position `i`: with no codes for text, with one for
      that throughout, with more for the i-th. */
  predicate Asks(formats: seq<int>, i: nat, code: int) {
    || (|formats| == 0 && code == 0)
    || (|formats| == 1 && code == formats[0])
    || (|formats| > 1 && i < |formats| && code == formats[i])
  }

  /** The type its Parse gave parameter `j`, 0 if it gave none. */
  function Declared(ps: Prepared, j: nat): nat { if j < |ps.paramOIDs| then ps.paramOIDs[j] else 0 }

  /** Value `j` can be taken: it is NULL, or text, or decodes as the declared type. */
  predicate Takes(w: World, ps: Prepared, formats: seq<int>, j: nat, v: Option<Data>) {
    || v.None?
    || (Indexable(formats, j, v) && (Asks(formats, j, 1) ==> DecodeBinary(w.widen, Declared(ps, j), v.value).Some?))
  }

  /** The loop stops at the first value it cannot take, and panics if and only if that is one
      whose format code is missing. */
  lemma {:induction false} ArgsOutcome(w: World, ps: Prepared, formats: seq<int>, values: seq<Option<Data>>, n: nat)
    requires n <= |values|
    ensures var r := BindArgs(w, ps, formats, values, n);
            && (r.Bound? <==> forall j :: 0 <= j < n ==> Takes(w, ps, formats, j, values[j]))
            && (r.Unindexable? <==> exists j :: 0 <= j < n && StuckAt(w, ps, formats, values, j))
  {
    if n > 0 {
      ArgsOutcome(w, ps, formats, values, n - 1);
      var before := BindArgs(w, ps, formats, values, n - 1);
      if before.Bound? {
        assert forall j :: 0 <= j < n - 1 ==> !StuckAt(w, ps, formats, values, j);
        assert BindArgs(w, ps, formats, values, n).Unindexable? <==> StuckAt(w, ps, formats, values, n - 1);
      } else if before.Undecodable? {
        var j :| 0 <= j < n - 1 && !Takes(w, ps, formats, j, values[j]);
        assert !StuckAt(w, ps, formats, values, n - 1);
      }
    }
  }

  predicate StuckAt(w: World, ps: Prepared, formats: seq<int>, values: seq<Option<Data>>, j: nat)
    requires j < |values|
  {
    !Indexable(formats, j, values[j]) && forall i :: 0 <= i < j ==> Takes(w, ps, formats, i, values[i])
  }

  // ---- Every message -------------------------------------------------------

  /** Two or more format codes, and fewer than the `n` values or columns they are for. */
  predicate TooFew(formats: seq<int>, n: nat) { 1 < |formats| < n }

  predicate BindPanics(w: World, c: Conn, r: Request)
    requires r.Bind?
  {
    && r.stmt in c.statements && |r.values| == c.statements[r.stmt].numParams
    && exists j :: 0 <= j < |r.values| && StuckAt(w, c.statements[r.stmt], r.formats, r.values, j)
  }

  predicate DescribePanics(w: World, c: Conn, kind: char, name: string) {
    if kind == 'S' then
      name in c.statements
      && (c.statements[name].numParams > w.oidRoom || c.statements[name].numParams > w.argRoom)
    else
      kind == 'P' && name in c.portals && c.portals[name].stmtName in c.statements
      && var (p, ps) := (c.portals[name], c.statements[c.portals[name].stmtName]);
      ps.rowReturning
      && var t := RunTrial(w, c.sess, ps, p.args);
      t.undone && t.result.Done? && !t.result.badTypes && TooFew(p.resultFormats, |t.result.oids|)
  }

  predicate ExecutePanics(w: World, c: Conn, name: string) {
    name in c.portals && c.portals[name].stmtName in c.statements
    && PortalPanics(w, c, c.portals[name], c.statements[c.portals[name].stmtName],
                    FirstKeyword(c.statements[c.portals[name].stmtName].sql))
  }

  predicate PortalPanics(w: World, c: Conn, p: Portal, ps: Prepared, kw: string) {
    ps.rowReturning && (c.txState == 'E' ==> Ends(kw))
    && var r := RunPrepared(w, c.sess, ps, p.args).1;
    r.Done?
    && match PromisedOids(p, ps)
       case Some(oids) => TooFew(p.resultFormats, |oids|)
       case None => !r.badTypes && TooFew(p.resultFormats, |r.oids|)
  }

  /** What ends the loop in state `c`. */
  predicate Fatal(w: World, c: Conn, r: Request) {
    match r
    case Terminate => true
    case Bind(_, _, _, _, _) => !c.inError && BindPanics(w, c, r)
    case Describe(kind, name) => !c.inError && DescribePanics(w, c, kind, name)
    case Execute(name) => !c.inError && ExecutePanics(w, c, name)
    case _ => false
  }

  lemma BindDies(w: World, c: Conn, r: Request)
    requires c.alive && r.Bind?
    ensures !Handle(w, c, r).conn.alive <==> BindPanics(w, c, r)
  {
    if r.stmt in c.statements {
      ArgsOutcome(w, c.statements[r.stmt], r.formats, r.values, |r.values|);
    }
  }

  lemma ShapeDies(w: World, s: Session, ps: Prepared, formats: seq<int>, args: seq<Value>)
    ensures !DescribeRowShape(w, s, ps, formats, args).alive <==>
              ps.rowReturning && var t := RunTrial(w, s, ps, args);
              t.undone && t.result.Done? && !t.result.badTypes && TooFew(formats, |t.result.oids|)
  {
  }

  lemma DescribeDies(w: World, c: Conn, kind: char, name: string)
    requires c.alive
    ensures !HandleDescribe(w, c, kind, name).conn.alive <==> DescribePanics(w, c, kind, name)
  {
    if kind == 'S' && name in c.statements {
      DescribeStatementDies(w, c, name);
    } else if kind == 'P' && name in c.portals && c.portals[name].stmtName in c.statements {
      var p := c.portals[name];
      ShapeDies(w, c.sess, c.statements[p.stmtName], p.resultFormats, p.args);
    }
  }

  lemma DescribeStatementDies(w: World, c: Conn, name: string)
    requires c.alive && name in c.statements
    ensures var n := c.statements[name].numParams;
            !DescribeStatement(w, c, name).conn.alive <==> n > w.oidRoom || n > w.argRoom
  {
    var ps := c.statements[name];
    ShapeDies(w, c.sess, WithAnnounced(ps), [], Representative(AnnouncedParams(ps)));
  }

  lemma PortalDies(w: World, c: Conn, p: Portal, ps: Prepared, kw: string)
    requires c.alive
    ensures !ExecutePortal(w, c, p, ps, kw).conn.alive <==> PortalPanics(w, c, p, ps, kw)
  {
  }

  lemma ExecuteDies(w: World, c: Conn, name: string)
    requires c.alive
    ensures !HandleExecute(w, c, name).conn.alive <==> ExecutePanics(w, c, name)
  {
    if name in c.portals && c.portals[name].stmtName in c.statements {
      var ps := c.statements[c.portals[name].stmtName];
      PortalDies(w, c, c.portals[name], ps, FirstKeyword(ps.sql));
    }
  }

  /** The loop ends if and only if: the client says so; a Bind value that is not NULL, and that
      all before it can be taken, has no format code among two or more; a statement is described
      whose parameters there is no room for; or a portal is described or executed whose result
      has more columns than there are format codes, these being two or more. */
  lemma StaysAlive(w: World, c: Conn, r: Request)
    requires c.alive
    ensures Step(w, c, r).0.alive <==> !Fatal(w, c, r)
  {
    match r {
      case Bind(_, _, _, _, _) => BindDies(w, c, r);
      case Describe(kind, name) => DescribeDies(w, c, kind, name);
      case Execute(name) => ExecuteDies(w, c, name);
      case Query(sql) => QueryKeepsMaps(w, c, sql);
      case Parse(name, query, oids) => ParseIsHonest(w, c, name, query, oids);
      case _ =>
    }
  }

  // ---- A large placeholder -------------------------------------------------

  predicate AllDigits(digits: string) { digits != [] && forall c :: c in digits ==> IsDigit(c) }

  lemma {:induction false} DigitsToTheEnd(s: string, i: nat)
    requires i <= |s| && forall k :: i <= k < |s| ==> IsDigit(s[k])
    ensures DigitsEnd(s, i) == |s|
    decreases |s| - i
  {
    if i < |s| {
      DigitsToTheEnd(s, i + 1);
    }
  }

  /** A text that ends in its only placeholder has that placeholder's number of parameters, and
      none if that is beyond an int. */
  lemma LonePlaceholder(before: string, digits: string, s: string)
    requires s == before + "$" + digits && AllDigits(digits)
    requires forall c :: c in before ==> c !in SPECIAL && c != '$'
    ensures Highest(s, |s|) == if Decimal(digits) <= 9223372036854775807 then Decimal(digits) else 0
  {
    var i := |before|;
    assert s[..i] == before && s[i + 1..] == digits && s[i] == '$';
    CodeAt(s, before);
    DigitsFollow(s, i, digits);
    NothingBefore(s, before);
    FirstPlaceholder(s, i, digits);
  }

  lemma CodeAt(s: string, before: string)
    requires before <= s && forall c :: c in before ==> c !in SPECIAL
    ensures ModeAt(s, |before|) == Code
  {
    assert s[..|before|] == before;
    StaysCode(before);
  }

  lemma FirstPlaceholder(s: string, i: nat, digits: string)
    requires i + 1 < |s| && s[i] == '$' && IsDigit(s[i + 1]) && DigitsEnd(s, i + 1) == |s| && ModeAt(s, i) == Code
    requires s[i + 1..] == digits && AllDigits(digits) && Highest(s, i) == 0
    ensures Highest(s, |s|) == if Decimal(digits) <= 9223372036854775807 then Decimal(digits) else 0
  {
    assert s[i + 1..|s|] == digits;
    PlaceholderFound(s, i, |s|);
  }

  lemma DigitsFollow(s: string, i: nat, digits: string)
    requires i < |s| && s[i + 1..] == digits && AllDigits(digits)
    ensures i + 1 < |s| && IsDigit(s[i + 1]) && DigitsEnd(s, i + 1) == |s|
  {
    forall k | i + 1 <= k < |s| ensures IsDigit(s[k]) {
      assert s[k] == digits[k - i - 1] && digits[k - i - 1] in digits;
    }
    DigitsToTheEnd(s, i + 1);
  }

  lemma NothingBefore(s: string, before: string)
    requires before <= s && forall c :: c in before ==> c != '$'
    ensures Highest(s, |before|) == 0
  {
    forall k | 0 <= k < |before| ensures s[k] != '$' {
      assert s[k] == before[k] && before[k] in before;
    }
    HighestSkips(s, 0, |before|);
  }

  /** A number in decimal. */
  function Show(n: nat): string {
    (if n < 10 then [] else Show(n / 10)) + ['0' + (n % 10) as char]
  }

  lemma {:induction false} DecimalShown(n: nat)
    ensures AllDigits(Show(n)) && Decimal(Show(n)) == n
  {
    var s := Show(n);
    if n >= 10 {
      DecimalShown(n / 10);
      assert s[..|s| - 1] == Show(n / 10);
    }
  }

  /** Parse then Describe of `SELECT $n`, n being an int, up to 9223372036854775807, but more
      than there is room for: the Parse is answered, and the Describe panics. */
  lemma LargePlaceholderIsFatal(w: World, c: Conn, word: string, n: nat)
    requires word == "SELECT" && w.oidRoom < n <= MAX_INT
    requires c.alive && !c.inError && !w.env.fails(c.sess.calls)
    requires var sql := word + (" $" + Show(n)); w.rewrite(sql) == sql
    ensures var (c1, out) := Step(w, c, Parse("", word + (" $" + Show(n)), []));
            out == [ParseComplete] && c1.alive && !Step(w, c1, Describe('S', "")).0.alive
  {
    var sql := word + (" $" + Show(n));
    SelectPrepares(word, n, sql);
    StoredAs(w, c, NewStatement(sql, []));
    DescribeStatementDies(w, Step(w, c, Parse("", sql, [])).0, "");
  }

  lemma SelectPrepares(word: string, n: nat, sql: string)
    requires word == "SELECT" && n <= MAX_INT && sql == word + (" $" + Show(n))
    ensures Allowed(sql) && Highest(sql, |sql|) == n
  {
    DecimalShown(n);
    SelectIsPlain(word, Show(n));
    AllowedWord(word, " $" + Show(n), sql);
    CountsShown(word, Show(n), sql);
  }

  lemma AllowedWord(word: string, rest: string, sql: string)
    requires IsPlain(word, rest) && word !in DENIED + {"INSERT", "UPDATE", "DELETE"} && sql == word + rest
    ensures Allowed(sql)
  {
    PlainClassified(word, rest);
  }

  lemma CountsShown(word: string, digits: string, sql: string)
    requires sql == word + (" $" + digits) && AllDigits(digits) && Decimal(digits) <= MAX_INT
    requires forall c :: c in word + " " ==> c !in SPECIAL && c != '$'
    ensures Highest(sql, |sql|) == Decimal(digits)
  {
    assert sql == word + " " + "$" + digits;
    LonePlaceholder(word + " ", digits, sql);
  }

  lemma SelectIsPlain(word: string, digits: string)
    requires word == "SELECT" && AllDigits(digits)
    ensures IsPlain(word, " $" + digits) && word !in DENIED + {"INSERT", "UPDATE", "DELETE"}
    ensures forall c :: c in word + " " ==> c !in SPECIAL && c != '$'
  {
    var rest := " $" + digits;
    assert rest[|rest| - 1] == digits[|digits| - 1] && digits[|digits| - 1] in digits;
    assert forall c :: c in rest ==> c == ' ' || c == '$' || c in digits;
  }

  lemma StoredAs(w: World, c: Conn, ps: Prepared)
    requires c.alive && !w.env.fails(c.sess.calls)
    ensures var o := StoreStatement(w, c, "", ps);
            o.ok && o.conn.alive && o.out == [ParseComplete] && o.conn.inError == c.inError
            && "" in o.conn.statements && o.conn.statements[""] == ps
  {
  }
}
