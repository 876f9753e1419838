/** Splitting a REPL dot-command line into words (cmd/execdb/dotcmd.go). */
module DotCommand {
  datatype Split = Words(fields: seq<string>) | Unterminated(quote: char) | Empty

  datatype Mode = Plain | Single | Double

  predicate IsBlank(c: char) { c == ' ' || c == '\t' }

  /** Reading `l` with `fields` complete and `cur` begun (if `inField`). */
  function Read(l: string, m: Mode, fields: seq<string>, cur: string, inField: bool): Split
    decreases |l|
  {
    if l == [] then
      if m == Single then Unterminated('\'')
      else if m == Double then Unterminated('"')
      else
        var all := fields + if inField then [cur] else [];
        if all == [] then Empty else Words(all)
    else
      var c := l[0];
      match m
      case Plain =>
        if IsBlank(c) then
          if inField then Read(l[1..], Plain, fields + [cur], "", false) else Read(l[1..], Plain, fields, cur, false)
        else if c == '\'' then Read(l[1..], Single, fields, cur, true)
        else if c == '"' then Read(l[1..], Double, fields, cur, true)
        else if c == '\\' && |l| > 1 then Read(l[2..], Plain, fields, cur + [l[1]], true)
        else Read(l[1..], Plain, fields, cur + [c], true)
      case Single =>
        if c == '\'' then Read(l[1..], Plain, fields, cur, true) else Read(l[1..], Single, fields, cur + [c], true)
      case Double =>
        if c == '"' then Read(l[1..], Plain, fields, cur, true)
        else if c == '\\' && |l| > 1 then Read(l[2..], Double, fields, cur + [l[1]], true)
        else Read(l[1..], Double, fields, cur + [c], true)
  }

  function SplitArgs(line: string): Split { Read(line, Plain, [], "", false) }

  /** cmd/execdb/dotcmd.go: splitDotCommandArgs. */
  method SplitDotCommandArgs(line: string) returns (r: Split)
    ensures r == SplitArgs(line)
  {
    var fields, cur, inField := [], "", false;
    var n, i := |line|, 0;
    ghost var all := SplitArgs(line);
    assert line[0..] == line;
    while i < n
      invariant 0 <= i <= n && all == Read(line[i..], Plain, fields, cur, inField)
      invariant !inField ==> cur == ""
    {
      var c := line[i];
      if IsBlank(c) {
        if inField {
          fields := fields + [cur];
          cur := "";
          inField := false;
        }
        i := i + 1;
      } else if c == '\'' {
        inField := true;
        var closed;
        i, cur, closed := ReadSingle(line, i + 1, fields, cur);
        if !closed {
          return Unterminated('\'');
        }
      } else if c == '"' {
        inField := true;
        var closed;
        i, cur, closed := ReadDouble(line, i + 1, fields, cur);
        if !closed {
          return Unterminated('"');
        }
      } else if c == '\\' && i + 1 < n {
        inField := true;
        assert line[i..][2..] == line[i + 2..];
        cur := cur + [line[i + 1]];
        i := i + 2;
      } else {
        inField := true;
        cur := cur + [c];
        i := i + 1;
      }
    }
    assert line[i..] == [];
    if inField {
      fields := fields + [cur];
    }
    if fields == [] {
      return Empty;
    }
    return Words(fields);
  }

  /** The loop over a single-quoted stretch. */
  method ReadSingle(line: string, start: nat, ghost fields: seq<string>, before: string)
      returns (i: nat, cur: string, closed: bool)
    requires start <= |line|
    ensures start <= i <= |line|
    ensures Read(line[start..], Single, fields, before, true) ==
            if closed then Read(line[i..], Plain, fields, cur, true) else Unterminated('\'')
  {
    i, cur := start, before;
    while i < |line|
      invariant start <= i <= |line|
      invariant Read(line[start..], Single, fields, before, true) == Read(line[i..], Single, fields, cur, true)
    {
      if line[i] == '\'' {
        i := i + 1;
        return i, cur, true;
      }
      cur := cur + [line[i]];
      i := i + 1;
    }
    assert line[i..] == [];
    closed := false;
  }

  /** The loop over a double-quoted stretch. */
  method ReadDouble(line: string, start: nat, ghost fields: seq<string>, before: string)
      returns (i: nat, cur: string, closed: bool)
    requires start <= |line|
    ensures start <= i <= |line|
    ensures Read(line[start..], Double, fields, before, true) ==
            if closed then Read(line[i..], Plain, fields, cur, true) else Unterminated('"')
  {
    i, cur := start, before;
    while i < |line|
      invariant start <= i <= |line|
      invariant Read(line[start..], Double, fields, before, true) == Read(line[i..], Double, fields, cur, true)
    {
      if line[i] == '"' {
        i := i + 1;
        return i, cur, true;
      }
      if line[i] == '\\' && i + 1 < |line| {
        assert line[i..][2..] == line[i + 2..];
        i := i + 1;
      }
      cur := cur + [line[i]];
      i := i + 1;
    }
    assert line[i..] == [];
    closed := false;
  }

  // ---- Printing and splitting ----------------------------------------------

  /** Quotes and backslashes escaped by a backslash. */
  function Escape(s: string): string {
    if s == [] then []
    else (if s[0] == '"' || s[0] == '\\' then ['\\', s[0]] else [s[0]]) + Escape(s[1..])
  }

  function Quote(s: string): string { ['"'] + Escape(s) + ['"'] }

  /** The words in double quotes, a blank between two of them. */
  function Print(words: seq<string>, blank: char): string {
    if words == [] then []
    else if |words| == 1 then Quote(words[0])
    else Quote(words[0]) + [blank] + Print(words[1..], blank)
  }

  lemma {:induction false} ReadEscaped(s: string, rest: string, fields: seq<string>, cur: string)
    ensures Read(Escape(s) + ['"'] + rest, Double, fields, cur, true) == Read(rest, Plain, fields, cur + s, true)
  {
    var l := Escape(s) + ['"'] + rest;
    if s == [] {
      assert l[1..] == rest && cur + s == cur;
    } else {
      var next := Escape(s[1..]) + ['"'] + rest;
      assert cur + [s[0]] + s[1..] == cur + s;
      if s[0] == '"' || s[0] == '\\' {
        assert l[2..] == next;
      } else {
        assert l[1..] == next;
      }
      ReadEscaped(s[1..], rest, fields, cur + [s[0]]);
    }
  }

  lemma InDoubleRead(s: string, rest: string, fields: seq<string>, cur: string, inField: bool)
    ensures Read(Quote(s) + rest, Plain, fields, cur, inField) == Read(rest, Plain, fields, cur + s, true)
  {
    var l := Quote(s) + rest;
    assert l[1..] == Escape(s) + ['"'] + rest;
    ReadEscaped(s, rest, fields, cur);
  }

  lemma ReadQuoted(s: string, rest: string, fields: seq<string>)
    ensures Read(Quote(s) + rest, Plain, fields, "", false) == Read(rest, Plain, fields, s, true)
  {
    InDoubleRead(s, rest, fields, "", false);
    assert "" + s == s;
  }

  lemma {:induction false} ReadPrinted(words: seq<string>, blank: char, fields: seq<string>)
    requires words != [] && IsBlank(blank)
    ensures Read(Print(words, blank), Plain, fields, "", false) == Words(fields + words)
    decreases |words|
  {
    if |words| == 1 {
      assert Quote(words[0]) + [] == Print(words, blank);
      ReadQuoted(words[0], [], fields);
      assert fields + [words[0]] == fields + words;
    } else {
      var rest := [blank] + Print(words[1..], blank);
      assert Print(words, blank) == Quote(words[0]) + rest;
      ReadQuoted(words[0], rest, fields);
      assert rest[1..] == Print(words[1..], blank);
      ReadPrinted(words[1..], blank, fields + [words[0]]);
      assert fields + [words[0]] + words[1..] == fields + words;
    }
  }

  /** Any non-empty list of strings survives quoting and splitting: blanks, quotes,
      backslashes and empty strings included. */
  lemma PrintThenSplit(words: seq<string>, blank: char)
    requires words != [] && IsBlank(blank)
    ensures SplitArgs(Print(words, blank)) == Words(words)
  {
    ReadPrinted(words, blank, []);
    assert [] + words == words;
  }

  // ---- What a line means ---------------------------------------------------

  /** A part of a word as it can be written: a character that means nothing else, a backslash and
      any character, anything but a single quote in single quotes, and anything in double quotes,
      with quotes and backslashes escaped there. */
  datatype Segment = Bare(c: char) | Escaped(c: char) | InSingle(s: string) | InDouble(s: string)
  {
    predicate Valid() {
      match this
      case Bare(c) => c != ' ' && c != '\t' && c != '\'' && c != '"' && c != '\\'
      case InSingle(s) => '\'' !in s
      case _ => true
    }

    function Written(): string {
      match this
      case Bare(c) => [c]
      case Escaped(c) => ['\\', c]
      case InSingle(s) => ['\''] + s + ['\'']
      case InDouble(s) => Quote(s)
    }

    function Meant(): string {
      match this
      case Bare(c) => [c]
      case Escaped(c) => [c]
      case InSingle(s) => s
      case InDouble(s) => s
    }
  }

  /** A word with the blanks in front of it. */
  datatype Placed = Placed(gap: string, word: seq<Segment>)

  function WordWritten(word: seq<Segment>): string {
    if word == [] then [] else word[0].Written() + WordWritten(word[1..])
  }

  function WordMeant(word: seq<Segment>): string {
    if word == [] then [] else word[0].Meant() + WordMeant(word[1..])
  }

  /** Nothing but spaces and tabs. */
  predicate AllBlank(s: string) { forall c :: c in s ==> c == ' ' || c == '\t' }

  /** The words of a line, with blanks between any two, and the blanks at its end. */
  predicate ValidLine(words: seq<Placed>, end: string) {
    && AllBlank(end)
    && (forall i :: 0 <= i < |words| ==> AllBlank(words[i].gap) && words[i].word != [])
    && (forall i :: 0 < i < |words| ==> words[i].gap != [])
    && forall i, k :: 0 <= i < |words| && 0 <= k < |words[i].word| ==> words[i].word[k].Valid()
  }

  function LineWritten(words: seq<Placed>, end: string): string {
    if words == [] then end else words[0].gap + (WordWritten(words[0].word) + LineWritten(words[1..], end))
  }

  function LineMeant(words: seq<Placed>): seq<string> {
    seq(|words|, i requires 0 <= i < |words| => WordMeant(words[i].word))
  }

  lemma {:induction false} SingleRead(s: string, rest: string, fields: seq<string>, cur: string)
    requires '\'' !in s
    ensures Read(s + ['\''] + rest, Single, fields, cur, true) == Read(rest, Plain, fields, cur + s, true)
  {
    var l := s + ['\''] + rest;
    if s == [] {
      assert l[1..] == rest && cur + s == cur;
    } else {
      assert s[0] in s && l[1..] == s[1..] + ['\''] + rest;
      assert cur + [s[0]] + s[1..] == cur + s;
      SingleRead(s[1..], rest, fields, cur + [s[0]]);
    }
  }

  lemma SegmentRead(g: Segment, rest: string, fields: seq<string>, cur: string, inField: bool)
    requires g.Valid()
    ensures Read(g.Written() + rest, Plain, fields, cur, inField) == Read(rest, Plain, fields, cur + g.Meant(), true)
  {
    var l := g.Written() + rest;
    match g {
      case Bare(c) => assert l[1..] == rest;
      case Escaped(c) => assert l[2..] == rest;
      case InSingle(s) => InSingleRead(s, rest, fields, cur, inField);
      case InDouble(s) => InDoubleRead(s, rest, fields, cur, inField);
    }
  }

  lemma InSingleRead(s: string, rest: string, fields: seq<string>, cur: string, inField: bool)
    requires '\'' !in s
    ensures Read(['\''] + s + ['\''] + rest, Plain, fields, cur, inField) == Read(rest, Plain, fields, cur + s, true)
  {
    var l := ['\''] + s + ['\''] + rest;
    assert l[1..] == s + ['\''] + rest;
    SingleRead(s, rest, fields, cur);
  }

  lemma {:induction false} WordRead(word: seq<Segment>, rest: string, fields: seq<string>, cur: string, inField: bool)
    requires word != [] && forall k :: 0 <= k < |word| ==> word[k].Valid()
    ensures Read(WordWritten(word) + rest, Plain, fields, cur, inField) ==
            Read(rest, Plain, fields, cur + WordMeant(word), true)
    decreases |word|
  {
    var later := WordWritten(word[1..]) + rest;
    assert WordWritten(word) + rest == word[0].Written() + later;
    SegmentRead(word[0], later, fields, cur, inField);
    assert cur + WordMeant(word) == cur + word[0].Meant() + WordMeant(word[1..]);
    if |word| == 1 {
      assert later == rest && cur + word[0].Meant() + [] == cur + word[0].Meant();
    } else {
      WordRead(word[1..], rest, fields, cur + word[0].Meant(), true);
    }
  }

  /** Blanks end the word before them. */
  lemma {:induction false} BlanksRead(gap: string, rest: string, fields: seq<string>, cur: string, inField: bool)
    requires AllBlank(gap) && gap != [] && (!inField ==> cur == [])
    ensures Read(gap + rest, Plain, fields, cur, inField) ==
            Read(rest, Plain, fields + if inField then [cur] else [], [], false)
    decreases |gap|
  {
    var l := gap + rest;
    assert gap[0] in gap && l[1..] == gap[1..] + rest;
    var done := fields + if inField then [cur] else [];
    assert done + [] == done && (!inField ==> done == fields);
    if |gap| == 1 {
      assert l[1..] == rest;
    } else {
      assert forall c :: c in gap[1..] ==> c in gap;
      BlanksRead(gap[1..], rest, done, [], false);
    }
  }

  lemma {:induction false} LineRead(words: seq<Placed>, end: string, fields: seq<string>, cur: string, inField: bool)
    requires ValidLine(words, end) && (!inField ==> cur == [])
    requires inField && words != [] ==> words[0].gap != []
    ensures var all := fields + (if inField then [cur] else []) + LineMeant(words);
            Read(LineWritten(words, end), Plain, fields, cur, inField) == if all == [] then Empty else Words(all)
    decreases |words|
  {
    if words == [] {
      EndRead(end, fields, cur, inField);
      assert fields + (if inField then [cur] else []) + LineMeant([]) == fields + if inField then [cur] else [];
    } else {
      var done := fields + if inField then [cur] else [];
      var meant := WordMeant(words[0].word);
      PlacedRead(words[0], LineWritten(words[1..], end), fields, cur, inField);
      LineRead(words[1..], end, done, meant, true);
      MeantFirst(words);
      assert done + [meant] + LineMeant(words[1..]) == done + ([meant] + LineMeant(words[1..]));
    }
  }

  lemma MeantFirst(words: seq<Placed>)
    requires words != []
    ensures LineMeant(words) == [WordMeant(words[0].word)] + LineMeant(words[1..])
  {
  }

  /** Nothing but blanks to the end of the line. */
  lemma EndRead(end: string, fields: seq<string>, cur: string, inField: bool)
    requires AllBlank(end) && (!inField ==> cur == [])
    ensures var all := fields + if inField then [cur] else [];
            Read(end, Plain, fields, cur, inField) == if all == [] then Empty else Words(all)
  {
    if end != [] {
      BlanksRead(end, [], fields, cur, inField);
      assert end + [] == end;
    }
  }

  /** Blanks, if a word is to be ended, and the next word. */
  lemma PlacedRead(w: Placed, rest: string, fields: seq<string>, cur: string, inField: bool)
    requires AllBlank(w.gap) && (!inField ==> cur == []) && (inField ==> w.gap != [])
    requires w.word != [] && forall k :: 0 <= k < |w.word| ==> w.word[k].Valid()
    ensures Read(w.gap + (WordWritten(w.word) + rest), Plain, fields, cur, inField) ==
            Read(rest, Plain, fields + (if inField then [cur] else []), WordMeant(w.word), true)
  {
    var done := fields + if inField then [cur] else [];
    var at := WordWritten(w.word) + rest;
    if w.gap != [] {
      BlanksRead(w.gap, at, fields, cur, inField);
    } else {
      assert w.gap + at == at && done == fields;
    }
    WordRead(w.word, rest, done, [], false);
    assert [] + WordMeant(w.word) == WordMeant(w.word);
  }

  /** A line splits into exactly the words written on it, however each of their parts is written. */
  lemma SplitMeans(words: seq<Placed>, end: string)
    requires ValidLine(words, end) && words != []
    ensures SplitArgs(LineWritten(words, end)) == Words(LineMeant(words))
  {
    LineRead(words, end, [], [], false);
    assert [] + [] + LineMeant(words) == LineMeant(words);
  }

  // ---- When splitting fails ------------------------------------------------

  /** The quote a line leaves open, found without looking at words. */
  function OpenAt(l: string, m: Mode): Mode
    decreases |l|
  {
    if l == [] then m
    else if m == Single then OpenAt(l[1..], if l[0] == '\'' then Plain else Single)
    else if l[0] == '\\' && |l| > 1 then OpenAt(l[2..], m)
    else if m == Double then OpenAt(l[1..], if l[0] == '"' then Plain else Double)
    else OpenAt(l[1..], if l[0] == '\'' then Single else if l[0] == '"' then Double else Plain)
  }

  lemma {:induction false} ReadOutcome(l: string, m: Mode, fields: seq<string>, cur: string, inField: bool)
    requires m != Plain ==> inField
    ensures var r := Read(l, m, fields, cur, inField);
            && (r.Unterminated? <==> OpenAt(l, m) != Plain)
            && (r == Empty <==> fields == [] && !inField && forall c :: c in l ==> IsBlank(c))
    decreases |l|
  {
    if l != [] {
      var c := l[0];
      assert forall d :: d in l <==> d == c || d in l[1..];
      if m != Single && c == '\\' && |l| > 1 {
        ReadOutcome(l[2..], m, fields, cur + [l[1]], true);
      } else if m == Single {
        if c == '\'' { ReadOutcome(l[1..], Plain, fields, cur, true); }
        else { ReadOutcome(l[1..], Single, fields, cur + [c], true); }
      } else if m == Double {
        if c == '"' { ReadOutcome(l[1..], Plain, fields, cur, true); }
        else { ReadOutcome(l[1..], Double, fields, cur + [c], true); }
      } else {
        PlainOutcome(l, fields, cur, inField);
      }
    }
  }

  lemma {:induction false} PlainOutcome(l: string, fields: seq<string>, cur: string, inField: bool)
    requires l != [] && !(l[0] == '\\' && |l| > 1)
    ensures var r := Read(l, Plain, fields, cur, inField);
            && (r.Unterminated? <==> OpenAt(l, Plain) != Plain)
            && (r == Empty <==> fields == [] && !inField && forall c :: c in l ==> IsBlank(c))
    decreases |l|, 0
  {
    var c := l[0];
    assert forall d :: d in l <==> d == c || d in l[1..];
    if IsBlank(c) {
      if inField { ReadOutcome(l[1..], Plain, fields + [cur], "", false); }
      else { ReadOutcome(l[1..], Plain, fields, cur, false); }
    } else if c == '\'' {
      ReadOutcome(l[1..], Single, fields, cur, true);
    } else if c == '"' {
      ReadOutcome(l[1..], Double, fields, cur, true);
    } else {
      ReadOutcome(l[1..], Plain, fields, cur + [c], true);
    }
  }

  /** Splitting fails if and only if a quote is left open or the line is all blanks. */
  lemma SplitFails(line: string)
    ensures SplitArgs(line).Unterminated? <==> OpenAt(line, Plain) != Plain
    ensures SplitArgs(line) == Empty <==> forall c :: c in line ==> IsBlank(c)
  {
    ReadOutcome(line, Plain, [], "", false);
  }
}
