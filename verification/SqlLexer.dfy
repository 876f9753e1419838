/** The SQL text scanners (cmd/execdb/access.go, cmd/execdb/pgextended.go).

    Three hand-written index loops in the program skip string literals, quoted
    identifiers and comments.  Here one character automaton says what "outside of
    literals and comments" means, and each of the three loops is proved to compute
    what the automaton says.
 */
module SqlLexer {

  /** The automaton's state after some text.  `Dash` and `Slash` are ordinary code
      whose last character may still turn out to open a comment. */
  datatype Mode = Code | Dash | Slash | Str | Ident | Line | Block | BlockStar
  {
    predicate InCode() { Code? || Dash? || Slash? }
  }

  function Next(m: Mode, c: char): Mode {
    match m
    case Str => if c == '\'' then Code else Str
    case Ident => if c == '"' then Code else Ident
    case Line => if c == '\n' then Code else Line
    case Block => if c == '*' then BlockStar else Block
    case BlockStar => if c == '/' then Code else if c == '*' then BlockStar else Block
    case _ =>
      if m.Dash? && c == '-' then Line
      else if m.Slash? && c == '*' then Block
      else if c == '\'' then Str
      else if c == '"' then Ident
      else if c == '-' then Dash
      else if c == '/' then Slash
      else Code
  }

  /** The state reached from `m` after reading all of `s`. */
  function Run(m: Mode, s: string): Mode {
    if s == [] then m else Next(Run(m, s[..|s| - 1]), s[|s| - 1])
  }

  /** The state in which position `i` of `s` is read. */
  function ModeAt(s: string, i: nat): Mode
    requires i <= |s|
  {
    Run(Code, s[..i])
  }

  lemma ModeStep(s: string, i: nat)
    requires i < |s|
    ensures ModeAt(s, i + 1) == Next(ModeAt(s, i), s[i])
  {
    assert s[..i + 1][..i] == s[..i];
  }

  lemma {:induction false} RunAppend(m: Mode, a: string, b: string)
    ensures Run(m, a + b) == Run(Run(m, a), b)
  {
    if b == [] {
      assert a + b == a;
    } else {
      assert (a + b)[..|a + b| - 1] == a + b[..|b| - 1];
      RunAppend(m, a, b[..|b| - 1]);
    }
  }

  // ---- Splitting into statements -------------------------------------------

  /** A `;` that ends a statement: one read outside literals and comments. */
  predicate IsCut(s: string, k: nat)
    requires k < |s|
  {
    s[k] == ';' && ModeAt(s, k).InCode()
  }

  /** The pieces terminated by a cut, and what follows the last one. */
  datatype Pieces = Pieces(complete: seq<string>, remainder: string)

  function Split(s: string): Pieces {
    if s == [] then Pieces([], [])
    else
      var k := |s| - 1;
      var p := Split(s[..k]);
      if IsCut(s, k) then Pieces(p.complete + [p.remainder], [])
      else Pieces(p.complete, p.remainder + [s[k]])
  }

  lemma SplitStep(s: string, i: nat)
    requires i < |s|
    ensures ModeAt(s, i + 1) == Next(ModeAt(s, i), s[i])
    ensures Split(s[..i + 1]) ==
            var p := Split(s[..i]);
            if IsCut(s, i) then Pieces(p.complete + [p.remainder], [])
            else Pieces(p.complete, p.remainder + [s[i]])
  {
    assert s[..i + 1][..i] == s[..i];
  }

  /** Every terminated piece followed by its `;`, then the remainder. */
  function Glue(complete: seq<string>, remainder: string): string {
    if complete == [] then remainder
    else complete[0] + ";" + Glue(complete[1..], remainder)
  }

  /** `s` holds no cut. */
  predicate Uncut(s: string) {
    forall k :: 0 <= k < |s| ==> !IsCut(s, k)
  }

  /** A decomposition whose `;` separators are exactly its cuts. */
  predicate WellSplit(p: Pieces) {
    && (forall x :: x in p.complete ==> Uncut(x) && Run(Code, x).InCode())
    && Uncut(p.remainder)
  }

  lemma {:induction false} GlueSnoc(complete: seq<string>, piece: string, rest: string)
    ensures Glue(complete + [piece], rest) == Glue(complete, piece + ";" + rest)
  {
    if complete == [] {
      assert [piece][1..] == [];
    } else {
      assert (complete + [piece])[1..] == complete[1..] + [piece];
      GlueSnoc(complete[1..], piece, rest);
    }
  }

  lemma {:induction false} GlueAppend(complete: seq<string>, rest: string, more: string)
    ensures Glue(complete, rest + more) == Glue(complete, rest) + more
  {
    if complete != [] {
      GlueAppend(complete[1..], rest, more);
      assert complete[0] + ";" + (Glue(complete[1..], rest) + more)
          == complete[0] + ";" + Glue(complete[1..], rest) + more;
    }
  }

  lemma {:induction false} GlueConcat(a: seq<string>, b: seq<string>, rest: string)
    ensures Glue(a + b, rest) == Glue(a, Glue(b, rest))
  {
    if a == [] {
      assert a + b == b;
    } else {
      assert (a + b)[1..] == a[1..] + b;
      GlueConcat(a[1..], b, rest);
    }
  }

  /** What the remainder says about the whole text: no cut, and the same state. */
  lemma {:induction false} RemainderState(s: string)
    ensures var r := Split(s).remainder; Uncut(r) && Run(Code, r) == Run(Code, s)
  {
    if s != [] {
      var k := |s| - 1;
      var r := Split(s[..k]).remainder;
      RemainderState(s[..k]);
      if !IsCut(s, k) {
        var r' := r + [s[k]];
        assert r'[..|r|] == r;
        forall j | 0 <= j < |r'| ensures !IsCut(r', j) {
          if j < |r| {
            assert !IsCut(r, j);
            assert r'[..j] == r[..j];
          }
        }
      }
    }
  }

  /** Splitting loses nothing, and separates at the cuts and nowhere else. */
  lemma {:induction false} SplitConserves(s: string)
    ensures Glue(Split(s).complete, Split(s).remainder) == s
  {
    if s != [] {
      var k := |s| - 1;
      var p := Split(s[..k]);
      SplitConserves(s[..k]);
      GlueAppend(p.complete, p.remainder, [s[k]]);
      if IsCut(s, k) {
        GlueSnoc(p.complete, p.remainder, []);
        assert p.remainder + ";" + [] == p.remainder + [s[k]];
      }
      assert s[..k] + [s[k]] == s;
    }
  }

  lemma {:induction false} SplitIsWell(s: string)
    ensures WellSplit(Split(s))
  {
    RemainderState(s);
    if s != [] {
      var k := |s| - 1;
      SplitIsWell(s[..k]);
      RemainderState(s[..k]);
    }
  }

  /** Scanning can stop anywhere and go on from the remainder. */
  lemma {:induction false} SplitAppend(a: string, b: string)
    ensures Split(a + b) ==
            var p := Split(Split(a).remainder + b);
            Pieces(Split(a).complete + p.complete, p.remainder)
  {
    var r := Split(a).remainder;
    if b == [] {
      assert a + b == a && r + b == r;
      SplitUncut(r) by { RemainderState(a); }
    } else {
      var b' := b[..|b| - 1];
      SplitAppend(a, b');
      assert (a + b)[..|a + b| - 1] == a + b';
      assert (r + b)[..|r + b| - 1] == r + b';
      assert Run(Code, a + b') == Run(Code, r + b') by {
        RemainderState(a);
        RunAppend(Code, a, b');
        RunAppend(Code, r, b');
      }
    }
  }

  lemma {:induction false} SplitUncut(s: string)
    requires Uncut(s)
    ensures Split(s) == Pieces([], s)
  {
    if s != [] {
      var k := |s| - 1;
      forall j | 0 <= j < k ensures !IsCut(s[..k], j) {
        assert !IsCut(s, j);
        assert s[..k][..j] == s[..j];
      }
      SplitUncut(s[..k]);
    }
  }

  /** A text with no open piece left over scans independently of what follows it. */
  lemma SplitComposes(a: string, b: string)
    requires Split(a).remainder == []
    ensures Split(a + b) == Pieces(Split(a).complete + Split(b).complete, Split(b).remainder)
  {
    SplitAppend(a, b);
    assert [] + b == b;
  }

  /** `Split` is the only decomposition into uncut pieces that glues back to the text. */
  lemma {:induction false} SplitUnique(p: Pieces)
    requires WellSplit(p)
    ensures Split(Glue(p.complete, p.remainder)) == p
    decreases |p.complete|
  {
    if p.complete == [] {
      SplitUncut(p.remainder);
    } else {
      var x, rest := p.complete[0], Pieces(p.complete[1..], p.remainder);
      SplitUnique(rest);
      SplitClosed(x);
      SplitComposes(x + ";", Glue(rest.complete, rest.remainder));
      assert p.complete == [x] + rest.complete;
    }
  }

  lemma SplitClosed(x: string)
    requires Uncut(x) && Run(Code, x).InCode()
    ensures Split(x + ";") == Pieces([x], [])
  {
    SplitUncut(x);
    assert (x + ";")[..|x|] == x;
  }

  /** Both directions at once: splitting is a bijection between texts and decompositions
      whose separators are exactly their cuts. */
  lemma SplitCharacterized(s: string, p: Pieces)
    ensures Split(s) == p <==> WellSplit(p) && Glue(p.complete, p.remainder) == s
  {
    SplitConserves(s);
    SplitIsWell(s);
    if WellSplit(p) {
      SplitUnique(p);
    }
  }

  // ---- Quoted identifiers and strings --------------------------------------

  /** Every `quote` of `name` doubled. */
  function DoubleQuotes(quote: char, name: string): string {
    if name == [] then []
    else DoubleQuotes(quote, name[..|name| - 1]) + Doubled(quote, name[|name| - 1])
  }

  function Doubled(quote: char, c: char): string {
    if c == quote then [quote, quote] else [c]
  }

  /** An identifier in double quotes, as cmd/execdb/dump.go: quoteIdent writes it, or a string
      literal in single ones. */
  function Quoted(quote: char, name: string): string {
    [quote] + DoubleQuotes(quote, name) + [quote]
  }

  predicate IsQuote(quote: char) { quote == '"' || quote == '\'' }

  function Inside(quote: char): Mode { if quote == '"' then Ident else Str }

  /** One character of a name, doubled or not, stays inside the quotes. */
  lemma QuotedCharacter(quote: char, q: string, c: char)
    requires IsQuote(quote) && Uncut(q) && Run(Code, q) == Inside(quote)
    ensures var t := q + Doubled(quote, c); Uncut(t) && Run(Code, t) == Inside(quote)
  {
    AppendUncut(q, c);
    if c == quote {
      AppendUncut(q + [c], c);
      assert q + Doubled(quote, c) == q + [c] + [c];
    }
  }

  lemma {:induction false} DoubledStaysQuoted(quote: char, open: string, name: string)
    requires IsQuote(quote) && Uncut(open) && Run(Code, open) == Inside(quote)
    ensures var q := open + DoubleQuotes(quote, name); Uncut(q) && Run(Code, q) == Inside(quote)
  {
    if name == [] {
      assert open + [] == open;
    } else {
      var k := |name| - 1;
      DoubledStaysQuoted(quote, open, name[..k]);
      QuotedCharacter(quote, open + DoubleQuotes(quote, name[..k]), name[k]);
      assert open + DoubleQuotes(quote, name) == open + DoubleQuotes(quote, name[..k]) + Doubled(quote, name[k]);
    }
  }

  lemma QuoteOpens(quote: char, before: string)
    requires IsQuote(quote) && Uncut(before) && Run(Code, before).InCode()
    ensures Uncut(before + [quote]) && Run(Code, before + [quote]) == Inside(quote)
  {
    AppendUncut(before, quote);
  }

  lemma QuoteCloses(quote: char, q: string, all: string)
    requires IsQuote(quote) && Uncut(q) && Run(Code, q) == Inside(quote) && all == q + [quote]
    ensures Uncut(all) && Run(Code, all) == Code
  {
    AppendUncut(q, quote);
  }

  lemma QuotedIsClosed(quote: char, before: string, name: string)
    requires IsQuote(quote) && Uncut(before) && Run(Code, before).InCode()
    ensures Uncut(before + Quoted(quote, name)) && Run(Code, before + Quoted(quote, name)) == Code
  {
    QuoteOpens(quote, before);
    DoubledStaysQuoted(quote, before + [quote], name);
    Regrouped(before, [quote], DoubleQuotes(quote, name), [quote]);
    QuoteCloses(quote, before + [quote] + DoubleQuotes(quote, name), before + Quoted(quote, name));
  }

  lemma Regrouped(a: string, b: string, c: string, d: string)
    ensures a + (b + c + d) == a + b + c + d
  {
    assert a + (b + c) == a + b + c;
    assert a + ((b + c) + d) == a + (b + c) + d;
  }

  lemma AppendUncut(s: string, c: char)
    requires Uncut(s) && !(c == ';' && Run(Code, s).InCode())
    ensures Uncut(s + [c]) && Run(Code, s + [c]) == Next(Run(Code, s), c)
  {
    var t := s + [c];
    assert t[..|s|] == s;
    forall k | 0 <= k < |t| ensures !IsCut(t, k) {
      if k < |s| {
        assert !IsCut(s, k);
        assert t[..k] == s[..k];
      }
    }
  }

  /** Whatever characters `name` holds, the quoted identifier or string is one closed stretch of
      code: put in front of a text it only lengthens the first piece. */
  lemma QuotedPrefix(quote: char, name: string, rest: string)
    requires IsQuote(quote)
    ensures var p, q := Split(rest), Quoted(quote, name);
            Split(q + rest) ==
            if p.complete == [] then Pieces([], q + p.remainder)
            else Pieces([q + p.complete[0]] + p.complete[1..], p.remainder)
  {
    QuotedIsClosed(quote, [], name);
    assert [] + Quoted(quote, name) == Quoted(quote, name);
    PrefixCode(Quoted(quote, name), rest);
  }

  /** Wherever in a text something is quoted in, outside literals and comments, it neither adds
      nor swallows a statement boundary. */
  lemma QuotedInside(quote: char, before: string, name: string, after: string)
    requires IsQuote(quote) && Run(Code, before).InCode()
    ensures |Split(before + Quoted(quote, name) + after).complete|
        == |Split(before).complete| + |Split(after).complete|
  {
    var r, q := Split(before).remainder, Quoted(quote, name);
    RemainderState(before);
    QuotedIsClosed(quote, r, name);
    assert before + q + after == before + (q + after);
    assert r + (q + after) == r + q + after;
    SplitAppend(before, q + after);
    PrefixCode(r + q, after);
  }

  /** An uncut text that ends in plain code shifts the automaton without disturbing it. */
  lemma {:induction false} PrefixCode(q: string, rest: string)
    requires Uncut(q) && Run(Code, q) == Code
    ensures var p := Split(rest);
            Split(q + rest) ==
            if p.complete == [] then Pieces([], q + p.remainder)
            else Pieces([q + p.complete[0]] + p.complete[1..], p.remainder)
  {
    if rest == [] {
      assert q + rest == q;
      SplitUncut(q);
    } else {
      var k := |rest| - 1;
      PrefixCode(q, rest[..k]);
      RunAppend(Code, q, rest[..k]);
      assert (q + rest)[..|q| + k] == q + rest[..k];
      assert IsCut(q + rest, |q| + k) <==> IsCut(rest, k);
      var p := Split(rest[..k]);
      assert q + p.remainder + [rest[k]] == q + (p.remainder + [rest[k]]);
    }
  }

  // ---- The scanning loop ---------------------------------------------------

  /** Where the three loops stand when they look at a fresh character: in code with no
      comment half opened, at the newline that ends a line comment, or at the end. */
  ghost predicate LoopHead(s: string, i: nat) {
    i <= |s| &&
    (i < |s| ==>
       var m := ModeAt(s, i);
       || (m == Line && s[i] == '\n')
       || (m.InCode() && !(m == Dash && s[i] == '-') && !(m == Slash && s[i] == '*')))
  }

  /** Inside a block comment, and not about to read its closing slash. */
  ghost predicate InBlock(s: string, i: nat) {
    i <= |s| &&
    (ModeAt(s, i) == Block || (ModeAt(s, i) == BlockStar && (i < |s| ==> s[i] != '/')))
  }

  /** What the four skipping loops of scanStatements keep: everything up to `i` is
      either in `complete` or in the builder `cur`. */
  ghost predicate Scanned(s: string, i: nat, complete: seq<string>, cur: string) {
    i <= |s| && Split(s[..i]) == Pieces(complete, cur)
  }

  lemma Take(s: string, i: nat, complete: seq<string>, cur: string)
    requires i < |s| && Scanned(s, i, complete, cur) && !IsCut(s, i)
    ensures Scanned(s, i + 1, complete, cur + [s[i]])
    ensures ModeAt(s, i + 1) == Next(ModeAt(s, i), s[i])
  {
    SplitStep(s, i);
  }

  lemma BlockOpens(s: string, i: nat, complete: seq<string>, cur: string)
    requires i + 1 < |s| && LoopHead(s, i) && s[i] == '/' && s[i + 1] == '*' && Scanned(s, i, complete, cur)
    ensures InBlock(s, i + 2) && Scanned(s, i + 2, complete, cur + [s[i]] + [s[i + 1]])
  {
    Take(s, i, complete, cur);
    Take(s, i + 1, complete, cur + [s[i]]);
  }

  lemma BlockCloses(s: string, i: nat, complete: seq<string>, cur: string)
    requires i + 1 < |s| && InBlock(s, i) && s[i] == '*' && s[i + 1] == '/' && Scanned(s, i, complete, cur)
    ensures LoopHead(s, i + 2) && Scanned(s, i + 2, complete, cur + [s[i]] + [s[i + 1]])
  {
    Take(s, i, complete, cur);
    Take(s, i + 1, complete, cur + [s[i]]);
  }

  /** cmd/execdb/access.go: scanStatements, the string-literal case. */
  method ScanString(sql: string, start: nat, ghost complete: seq<string>, built: string)
    returns (i: nat, cur: string)
    requires start < |sql| && LoopHead(sql, start) && sql[start] == '\''
    requires Scanned(sql, start, complete, built)
    ensures start < i && LoopHead(sql, i) && Scanned(sql, i, complete, cur)
  {
    Take(sql, start, complete, built);
    cur := built + [sql[start]];
    i := start + 1;
    var n := |sql|;
    while i < n
      invariant start < i <= n && ModeAt(sql, i) == Str && Scanned(sql, i, complete, cur)
    {
      Take(sql, i, complete, cur);
      cur := cur + [sql[i]];
      if sql[i] == '\'' {
        i := i + 1;
        if i < n && sql[i] == '\'' {
          Take(sql, i, complete, cur);
          cur := cur + [sql[i]];
          i := i + 1;
          continue;
        }
        break;
      }
      i := i + 1;
    }
  }

  /** cmd/execdb/access.go: scanStatements, the quoted-identifier case. */
  method ScanIdent(sql: string, start: nat, ghost complete: seq<string>, built: string)
    returns (i: nat, cur: string)
    requires start < |sql| && LoopHead(sql, start) && sql[start] == '"'
    requires Scanned(sql, start, complete, built)
    ensures start < i && LoopHead(sql, i) && Scanned(sql, i, complete, cur)
  {
    Take(sql, start, complete, built);
    cur := built + [sql[start]];
    i := start + 1;
    while i < |sql|
      invariant start < i <= |sql| && ModeAt(sql, i) == Ident && Scanned(sql, i, complete, cur)
    {
      Take(sql, i, complete, cur);
      cur := cur + [sql[i]];
      if sql[i] == '"' {
        i := i + 1;
        break;
      }
      i := i + 1;
    }
  }

  /** cmd/execdb/access.go: scanStatements, the line-comment case. */
  method ScanLineComment(sql: string, start: nat, ghost complete: seq<string>, built: string)
    returns (i: nat, cur: string)
    requires start + 1 < |sql| && LoopHead(sql, start) && sql[start] == '-' && sql[start + 1] == '-'
    requires Scanned(sql, start, complete, built)
    ensures start < i && LoopHead(sql, i) && Scanned(sql, i, complete, cur)
  {
    i, cur := start, built;
    while i < |sql| && sql[i] != '\n'
      invariant start <= i <= |sql| && Scanned(sql, i, complete, cur)
      invariant i == start || ModeAt(sql, i) == if i == start + 1 then Dash else Line
    {
      Take(sql, i, complete, cur);
      cur := cur + [sql[i]];
      i := i + 1;
    }
  }

  /** cmd/execdb/access.go: scanStatements, the block-comment case. */
  method ScanBlockComment(sql: string, start: nat, ghost complete: seq<string>, built: string)
    returns (i: nat, cur: string)
    requires start + 1 < |sql| && LoopHead(sql, start) && sql[start] == '/' && sql[start + 1] == '*'
    requires Scanned(sql, start, complete, built)
    ensures start < i && LoopHead(sql, i) && Scanned(sql, i, complete, cur)
  {
    BlockOpens(sql, start, complete, built);
    cur := built + [sql[start]] + [sql[start + 1]];
    i := start + 2;
    var n := |sql|;
    while i + 1 < n && !(sql[i] == '*' && sql[i + 1] == '/')
      invariant start < i <= n && InBlock(sql, i) && Scanned(sql, i, complete, cur)
    {
      Take(sql, i, complete, cur);
      cur := cur + [sql[i]];
      i := i + 1;
    }
    if i + 1 < n {
      BlockCloses(sql, i, complete, cur);
      cur := cur + [sql[i]] + [sql[i + 1]];
      i := i + 2;
    } else {
      while i < n
        invariant start < i <= n <= i + 1 && (i < n ==> InBlock(sql, i)) && Scanned(sql, i, complete, cur)
      {
        Take(sql, i, complete, cur);
        cur := cur + [sql[i]];
        i := i + 1;
      }
    }
  }

  /** cmd/execdb/access.go: scanStatements. */
  method ScanStatements(sql: string) returns (complete: seq<string>, remainder: string)
    ensures Pieces(complete, remainder) == Split(sql)
  {
    var cur := "";
    complete := [];
    var n, i := |sql|, 0;
    while i < n
      invariant 0 <= i <= n && LoopHead(sql, i) && Scanned(sql, i, complete, cur)
    {
      var c := sql[i];
      if c == '\'' {
        i, cur := ScanString(sql, i, complete, cur);
      } else if c == '"' {
        i, cur := ScanIdent(sql, i, complete, cur);
      } else if c == '-' && i + 1 < n && sql[i + 1] == '-' {
        i, cur := ScanLineComment(sql, i, complete, cur);
      } else if c == '/' && i + 1 < n && sql[i + 1] == '*' {
        i, cur := ScanBlockComment(sql, i, complete, cur);
      } else if c == ';' {
        SplitStep(sql, i);
        complete := complete + [cur];
        cur := "";
        i := i + 1;
      } else {
        Take(sql, i, complete, cur);
        cur := cur + [c];
        i := i + 1;
      }
    }
    assert sql[..n] == sql;
    remainder := cur;
  }
}
