/** The REPL's accumulate / execute / reset loop (cmd/execdb/repl.go): reading a text line
    by line executes what regrouping the whole text at once would. */
module Repl {
  import opened Blanks
  import opened SqlLexer
  import opened Statements

  /** The statements that run: trimmed, and blank ones left out. */
  function Runs(stmts: seq<string>): seq<string> {
    if stmts == [] then []
    else
      var t := TrimSpace(stmts[|stmts| - 1]);
      Runs(stmts[..|stmts| - 1]) + if t == [] then [] else [t]
  }

  lemma {:induction false} RunsAppend(a: seq<string>, b: seq<string>)
    ensures Runs(a + b) == Runs(a) + Runs(b)
  {
    if b == [] {
      assert a + b == a;
    } else {
      assert (a + b)[..|a + b| - 1] == a + b[..|b| - 1];
      RunsAppend(a, b[..|b| - 1]);
    }
  }

  /** Statement by statement: trimmed, or nothing of a blank one. */
  lemma RunsEach(stmts: seq<string>, s: string)
    ensures Runs([]) == []
    ensures Runs(stmts + [s]) == Runs(stmts) + if Blank(s) then [] else [TrimSpace(s)]
  {
    assert (stmts + [s])[..|stmts|] == stmts;
    TrimmedAway(s);
  }

  // ---- A blank prefix changes nothing --------------------------------------

  /** Text starting with `w` is complete exactly when it is without it. */
  ghost predicate Ignores(o: Oracle, w: string) {
    forall x: string :: o(w + x) == o(x)
  }

  /** What the program relies on the oracle for: a lone `;` is complete, and leading
      blanks (of the kinds in `ignored`) make no difference. */
  ghost predicate Sane(o: Oracle, ignored: set<char>) {
    && o(";")
    && forall w: string :: (forall c :: c in w ==> c in ignored) ==> Ignores(o, w)
  }

  /** Every blank of `s` is of a kind the oracle ignores. */
  ghost predicate Plain(s: string, ignored: set<char>) {
    forall c :: c in s && IsSpace(c) ==> c in ignored
  }

  /** `w` in front of the first piece. */
  function PrefixFirst(w: string, list: seq<string>): seq<string> {
    if list == [] then [] else [w + list[0]] + list[1..]
  }

  /** What a blank prefix of the first piece does to the regrouping: it stays in front of
      the first statement, closed or open. */
  function Prefixed(w: string, r: Pieces): Pieces {
    if r.complete == [] && r.remainder != [] then Pieces([], w + r.remainder)
    else Pieces(PrefixFirst(w, r.complete), r.remainder)
  }

  lemma {:induction false} RegroupPrefixed(w: string, pieces: seq<string>, o: Oracle)
    requires o(";") && Ignores(o, w)
    ensures Regroup(PrefixFirst(w, pieces), o) == Prefixed(w, Regroup(pieces, o))
    ensures pieces != [] ==> var r := Regroup(pieces, o); r.complete != [] || r.remainder != []
  {
    if |pieces| == 1 {
      FirstPrefixed(w, pieces[0], o);
      assert pieces[..0] == [] && PrefixFirst(w, pieces) == [w + pieces[0]] && [w + pieces[0]][..0] == [];
    } else if pieces != [] {
      var k := |pieces| - 1;
      RegroupPrefixed(w, pieces[..k], o);
      PrefixFirstInit(w, pieces);
      LaterPrefixed(w, Regroup(pieces[..k], o), pieces[k], o);
    }
  }

  lemma PrefixFirstInit(w: string, list: seq<string>)
    requires |list| > 1
    ensures |PrefixFirst(w, list)| == |list|
    ensures PrefixFirst(w, list)[..|list| - 1] == PrefixFirst(w, list[..|list| - 1])
    ensures PrefixFirst(w, list)[|list| - 1] == list[|list| - 1]
  {
  }

  lemma FirstPrefixed(w: string, piece: string, o: Oracle)
    requires o(";") && Ignores(o, w)
    ensures var r := RegroupStep(Pieces([], []), piece, o);
            && RegroupStep(Pieces([], []), w + piece, o) == Prefixed(w, r)
            && (r.complete != [] || r.remainder != [])
  {
    assert w + piece + ";" == w + (piece + ";");
    assert [] + ";" == ";";
  }

  lemma LaterPrefixed(w: string, r: Pieces, piece: string, o: Oracle)
    requires Ignores(o, w) && (r.complete != [] || r.remainder != [])
    ensures var r' := RegroupStep(r, piece, o);
            && RegroupStep(Prefixed(w, r), piece, o) == Prefixed(w, r')
            && (r'.complete != [] || r'.remainder != [])
  {
    var acc := if |r.remainder| > 0 then r.remainder + ";" + piece else piece;
    if r.complete == [] {
      assert w + r.remainder + ";" + piece == w + acc;
      assert w + acc + ";" == w + (acc + ";");
      assert PrefixFirst(w, [acc]) == [w + acc];
    } else {
      assert PrefixFirst(w, r.complete + [acc]) == PrefixFirst(w, r.complete) + [acc];
    }
  }

  lemma {:induction false} RegroupAppend(a: seq<string>, b: seq<string>, o: Oracle)
    requires Regroup(a, o).remainder == []
    ensures Regroup(a + b, o) == Pieces(Regroup(a, o).complete + Regroup(b, o).complete, Regroup(b, o).remainder)
  {
    if b == [] {
      assert a + b == a;
    } else {
      var k := |b| - 1;
      assert (a + b)[..|a| + k] == a + b[..k];
      RegroupAppend(a, b[..k], o);
      var r := Regroup(b[..k], o);
      var acc := if |r.remainder| > 0 then r.remainder + ";" + b[k] else b[k];
      assert Regroup(a, o).complete + r.complete + [acc] == Regroup(a, o).complete + (r.complete + [acc]);
    }
  }

  // ---- Incremental equals batch --------------------------------------------

  /** A text the loop would execute now: nothing but blanks is left over. */
  predicate Settled(text: string, o: Oracle) {
    Blank(CompleteOf(text, o).remainder)
  }

  /** What the loop's buffer looks like: empty, or ending in a line break. */
  predicate Lines(text: string) {
    text != [] ==> text[|text| - 1] == '\n'
  }

  /** A settled buffer has no statement open, and leaves blanks that are plain code. */
  lemma SettledMeans(text: string, o: Oracle)
    requires Lines(text) && Settled(text, o)
    ensures Regroup(Split(text).complete, o).remainder == []
    ensures Blank(Split(text).remainder)
  {
    var p := Split(text);
    var r := Regroup(p.complete, o);
    SeparatorIsNotBlank(r.remainder, p.remainder);
    assert p.remainder == [] ==> text == [];
  }

  lemma SeparatorIsNotBlank(a: string, b: string)
    ensures !Blank(a + ";" + b)
  {
    assert (a + ";" + b)[|a|] == ';' && !IsSpace(';');
  }

  lemma {:induction false} RemainderWithin(s: string)
    ensures forall c :: c in Split(s).remainder ==> c in s
  {
    if s != [] {
      RemainderWithin(s[..|s| - 1]);
    }
  }

  lemma {:induction false} BlankIsCode(w: string)
    requires Blank(w)
    ensures Run(Code, w) == Code && Uncut(w)
  {
    if w != [] {
      var k := |w| - 1;
      assert w[k] in w;
      assert Blank(w[..k]) by {
        forall c | c in w[..k] ensures IsSpace(c) { assert c in w; }
      }
      BlankIsCode(w[..k]);
      AppendUncut(w[..k], w[k]);
      assert w[..k] + [w[k]] == w;
    }
  }

  lemma PrefixRuns(w: string, list: seq<string>)
    requires Blank(w)
    ensures Runs(PrefixFirst(w, list)) == Runs(list)
  {
    if list != [] {
      TrimBlankPrefix(w, list[0]);
      RunsAppend([list[0]], list[1..]);
      RunsAppend([w + list[0]], list[1..]);
      assert [list[0]] + list[1..] == list;
      assert [list[0]][..0] == [] && [w + list[0]][..0] == [];
    }
  }

  /** Pieces of a text that follows a settled one: its own, behind the leftover blanks. */
  lemma SplitAfterSettled(a: string, b: string, o: Oracle)
    requires Lines(a) && Settled(a, o)
    ensures var w := Split(a).remainder;
            && Split(a + b).complete == Split(a).complete + PrefixFirst(w, Split(b).complete)
            && Split(a + b).remainder == if Split(b).complete == [] then w + Split(b).remainder else Split(b).remainder
  {
    SettledMeans(a, o);
    var w := Split(a).remainder;
    BlankIsCode(w);
    SplitAppend(a, b);
    PrefixCode(w, b);
  }

  lemma RegroupAfterSettled(a: string, b: string, o: Oracle, ignored: set<char>)
    requires Sane(o, ignored) && Plain(a, ignored)
    requires Lines(a) && Settled(a, o)
    ensures var r := Prefixed(Split(a).remainder, Regroup(Split(b).complete, o));
            Regroup(Split(a + b).complete, o) ==
            Pieces(Regroup(Split(a).complete, o).complete + r.complete, r.remainder)
    ensures Prefixed(Split(a).remainder, Regroup(Split(b).complete, o)).complete ==
            PrefixFirst(Split(a).remainder, Regroup(Split(b).complete, o).complete)
  {
    var w := Split(a).remainder;
    SettledMeans(a, o);
    SplitAfterSettled(a, b, o);
    assert Ignores(o, w) by {
      RemainderWithin(a);
    }
    RegroupPrefixed(w, Split(b).complete, o);
    RegroupAppend(Split(a).complete, PrefixFirst(w, Split(b).complete), o);
  }

  /** Reading on after a settled text executes exactly the statements of what follows. */
  lemma IncrementalEqualsBatch(a: string, b: string, o: Oracle, ignored: set<char>)
    requires Sane(o, ignored) && Plain(a, ignored)
    requires Lines(a) && Settled(a, o)
    ensures Runs(CompleteOf(a + b, o).complete) == Runs(CompleteOf(a, o).complete) + Runs(CompleteOf(b, o).complete)
  {
    var w, cb := Split(a).remainder, Regroup(Split(b).complete, o).complete;
    EmittedByRegroup(a, o);
    EmittedByRegroup(b, o);
    EmittedByRegroup(a + b, o);
    RegroupAfterSettled(a, b, o, ignored);
    RunsAppend(Regroup(Split(a).complete, o).complete, PrefixFirst(w, cb));
    PrefixRuns(w, cb) by { SettledMeans(a, o); }
  }

  lemma EmittedByRegroup(s: string, o: Oracle)
    ensures CompleteOf(s, o).complete == Regroup(Split(s).complete, o).complete
  {
  }

  /** A settled text after a settled text is settled. */
  lemma SettledTogether(a: string, b: string, o: Oracle, ignored: set<char>)
    requires Sane(o, ignored) && Plain(a, ignored)
    requires Lines(a) && Settled(a, o) && Lines(b) && Settled(b, o)
    ensures Settled(a + b, o)
  {
    SettledMeans(a, o);
    SettledMeans(b, o);
    SplitAfterSettled(a, b, o);
    RegroupAfterSettled(a, b, o, ignored);
  }

  // ---- The loop ------------------------------------------------------------

  /** cmd/execdb/repl.go: the state of `run`, with the statements handed to `execSQL` that
      were not blank.  Dot-commands and interrupts of a running query are not part of it. */
  class Loop {
    const oracle: Oracle
    ghost const ignored: set<char>
    var buf: string
    var executed: seq<string>
    // All text read since the start, up to the last time the buffer was executed.
    ghost var settled: string

    ghost predicate Valid()
      reads this
    {
      && Sane(oracle, ignored) && '\n' in ignored
      && Lines(settled) && Plain(settled, ignored) && Settled(settled, oracle)
      && Lines(buf) && Plain(buf, ignored)
      && Runs(executed) == Runs(CompleteOf(settled, oracle).complete)
    }

    constructor (oracle: Oracle, ghost ignored: set<char>)
      requires Sane(oracle, ignored) && '\n' in ignored
      ensures Valid() && settled == buf == [] && executed == []
      ensures this.oracle == oracle && this.ignored == ignored
    {
      this.oracle := oracle;
      this.ignored := ignored;
      buf, executed, settled := [], [], [];
    }

    /** One line of input, without its line break; `dot` says it was a dot-command. */
    method Line(line: string) returns (dot: bool)
      requires Valid() && Plain(line, ignored)
      modifies this
      ensures Valid()
      ensures dot <==> old(buf) == [] && "." <= TrimSpace(line)
      ensures settled + buf == old(settled + buf) + if dot then [] else line + "\n"
      ensures dot ==> executed == old(executed) && settled == old(settled) && buf == old(buf)
      ensures buf != [] ==> settled == old(settled)
      ensures !dot ==> (buf == [] <==> Settled(old(buf) + line + "\n", oracle))
    {
      var trimmed := TrimSpace(line);
      if |buf| == 0 && "." <= trimmed {
        assert settled + buf + [] == settled + buf;
        return true;
      }
      dot := false;
      if |buf| == 0 && trimmed == "" {
        TrimmedAway(line);
        NoteBlankLine(line);
        return;
      }
      AddLine(line);
    }

    /** A blank line between statements is not buffered; it is text all the same. */
    ghost method NoteBlankLine(line: string)
      requires Valid() && Plain(line, ignored) && Blank(line) && buf == []
      modifies this`settled
      ensures Valid() && settled + buf == old(settled + buf) + (line + "\n")
      ensures Settled(buf + line + "\n", oracle)
    {
      PlainAppend(line, "\n", ignored);
      BlankLine(line + "\n", oracle);
      assert buf + line + "\n" == line + "\n";
      Settle(line + "\n");
      assert settled + [] == settled && old(settled) + [] == old(settled);
    }

    /** The rest of Line: the buffer grows, and is executed once it is complete. */
    method AddLine(line: string)
      requires Valid() && Plain(line, ignored)
      modifies this
      ensures Valid()
      ensures settled + buf == old(settled + buf) + (line + "\n")
      ensures buf == [] <==> Settled(old(buf) + line + "\n", oracle)
      ensures buf != [] ==> settled == old(settled)
    {
      PlainAppend(buf, line, ignored);
      PlainAppend(buf + line, "\n", ignored);
      assert settled + (buf + line + "\n") == settled + buf + (line + "\n");
      buf := buf + line;
      buf := buf + "\n";
      var complete, remainder := CompleteStatements(buf, oracle);
      TrimmedAway(remainder);
      if TrimSpace(remainder) != "" {
        return;
      }
      ExecuteAll(complete);
      Settle(buf);
      buf := "";
    }

    /** Adds a settled text whose statements have been executed to `settled`. */
    ghost method Settle(text: string)
      requires Sane(oracle, ignored)
      requires Lines(settled) && Plain(settled, ignored) && Settled(settled, oracle)
      requires Lines(text) && Plain(text, ignored) && Settled(text, oracle)
      modifies this`settled
      ensures settled == old(settled) + text
      ensures Lines(settled) && Plain(settled, ignored) && Settled(settled, oracle)
      ensures Runs(CompleteOf(settled, oracle).complete) ==
              Runs(CompleteOf(old(settled), oracle).complete) + Runs(CompleteOf(text, oracle).complete)
    {
      IncrementalEqualsBatch(settled, text, oracle, ignored);
      SettledTogether(settled, text, oracle, ignored);
      settled := settled + text;
    }

    method ExecuteAll(complete: seq<string>)
      modifies this`executed
      ensures Runs(executed) == Runs(old(executed)) + Runs(complete)
    {
      for i := 0 to |complete|
        invariant Runs(executed) == Runs(old(executed)) + Runs(complete[..i])
      {
        assert complete[..i + 1] == complete[..i] + [complete[i]];
        RunsAppend(complete[..i], [complete[i]]);
        ExecSQL(complete[i]);
      }
      assert complete[..|complete|] == complete;
    }

    /** cmd/execdb/repl.go: execSQL, up to handing the statement to SQLite. */
    method ExecSQL(stmt: string)
      modifies this`executed
      ensures executed == old(executed) + if Blank(stmt) then [] else [stmt]
      ensures Runs(executed) == Runs(old(executed)) + Runs([stmt])
    {
      RunsAppend(executed, [stmt]);
      TrimmedAway(stmt);
      var trimmed := TrimSpace(stmt);
      if trimmed == "" {
        assert [stmt][..0] == [];
        return;
      }
      executed := executed + [stmt];
    }

    /** Ctrl+C while idle: the statement being typed is discarded. */
    method Interrupt()
      requires Valid()
      modifies this`buf
      ensures Valid() && buf == []
    {
      buf := "";
    }

    /** Lines and idle interrupts until the input ends.  What has run is exactly what the text
        read so far, without dot-command lines and discarded statements, holds when taken as
        a whole. */
    method ReadAll(inputs: seq<Input>)
      requires Valid() && settled == buf == [] && executed == []
      requires forall x :: x in inputs && x.Entered? ==> Plain(x.line, ignored)
      modifies this
      ensures Valid() && Typed(settled, buf) == FeedAll(inputs, oracle)
      ensures Runs(executed) == Runs(CompleteOf(FeedAll(inputs, oracle).settled, oracle).complete)
    {
      for i := 0 to |inputs|
        invariant Valid() && Typed(settled, buf) == FeedAll(inputs[..i], oracle)
      {
        assert inputs[..i + 1][..i] == inputs[..i];
        ghost var before := Typed(settled, buf);
        match inputs[i] {
          case Entered(line) =>
            var dot := Line(line);
            SplitsAsRead(before, line, dot, Typed(settled, buf), oracle);
          case Interrupted =>
            Interrupt();
        }
      }
      assert inputs[..|inputs|] == inputs;
    }
  }

  // ---- What the lines come to ----------------------------------------------

  datatype Input = Entered(line: string) | Interrupted

  /** The text read, as far as it has been executed, and the statement being typed. */
  datatype Typed = Typed(settled: string, buf: string)

  /** A line that starts with a dot is a command between statements, and text within one.  A
      buffered text is settled once nothing but blanks is left over of it. */
  function Feed(t: Typed, x: Input, o: Oracle): Typed {
    match x
    case Interrupted => Typed(t.settled, [])
    case Entered(line) =>
      if t.buf == [] && "." <= TrimSpace(line) then t
      else
        var text := t.buf + line + "\n";
        if Settled(text, o) then Typed(t.settled + text, []) else Typed(t.settled, text)
  }

  function FeedAll(inputs: seq<Input>, o: Oracle): Typed {
    if inputs == [] then Typed([], []) else Feed(FeedAll(inputs[..|inputs| - 1], o), inputs[|inputs| - 1], o)
  }

  /** What Line says of one line is what Feed says. */
  lemma SplitsAsRead(before: Typed, line: string, dot: bool, after: Typed, o: Oracle)
    requires dot <==> before.buf == [] && "." <= TrimSpace(line)
    requires after.settled + after.buf == before.settled + before.buf + if dot then [] else line + "\n"
    requires dot ==> after == before
    requires !dot ==> (after.buf == [] <==> Settled(before.buf + line + "\n", o))
    requires !dot ==> after.buf == [] || after.settled == before.settled
    ensures after == Feed(before, Entered(line), o)
  {
    var text := before.buf + line + "\n";
    assert before.settled + before.buf + (line + "\n") == before.settled + text;
    if !dot {
      if after.buf == [] {
        assert after.settled + [] == after.settled;
      } else {
        assert (after.settled + after.buf)[|after.settled|..] == after.buf;
        assert (before.settled + text)[|before.settled|..] == text;
      }
    }
  }

  predicate Command(x: Input) { x.Interrupted? || "." <= TrimSpace(x.line) }

  /** The text of an input line. */
  function TextOf(x: Input): string {
    match x case Interrupted => [] case Entered(line) => line + "\n"
  }

  /** Lines as the text they were read from. */
  function Concat(inputs: seq<Input>): string {
    if inputs == [] then [] else Concat(inputs[..|inputs| - 1]) + TextOf(inputs[|inputs| - 1])
  }

  lemma FeedKeeps(t: Typed, x: Input, o: Oracle)
    requires !Command(x)
    ensures Feed(t, x, o).settled + Feed(t, x, o).buf == t.settled + t.buf + TextOf(x)
  {
    var text := t.buf + x.line + "\n";
    assert t.settled + t.buf + (x.line + "\n") == t.settled + text;
    assert t.settled + text + [] == t.settled + text;
  }

  /** Without interrupts and lines that start with a dot, nothing of the text is left out. */
  lemma {:induction false} NothingLeftOut(inputs: seq<Input>, o: Oracle)
    requires forall x :: x in inputs ==> !Command(x)
    ensures FeedAll(inputs, o).settled + FeedAll(inputs, o).buf == Concat(inputs)
  {
    if inputs != [] {
      var k := |inputs| - 1;
      NothingLeftOut(inputs[..k], o);
      assert inputs[k] in inputs;
      FeedKeeps(FeedAll(inputs[..k], o), inputs[k], o);
    }
  }

  lemma PlainAppend(a: string, b: string, ignored: set<char>)
    requires Plain(a, ignored) && Plain(b, ignored + {'\n'})
    ensures Plain(a + b, ignored + {'\n'})
    ensures '\n' in ignored ==> Plain(a + b, ignored)
  {
  }

  lemma BlankLine(w: string, o: Oracle)
    requires Blank(w)
    ensures CompleteOf(w, o) == Pieces([], w)
  {
    BlankIsCode(w);
    SplitUncut(w);
  }
}
