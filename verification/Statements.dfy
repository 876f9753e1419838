/** Regrouping scanner pieces into statements, and the REPL loop that feeds it
    (cmd/execdb/complete.go, cmd/execdb/repl.go).

    `engine.Complete` is an uninterpreted oracle: true where the program's call returns
    true without an error. */
module Statements {
  import opened SqlLexer

  type Oracle = string -> bool

  // ---- Grouping pieces under the oracle ------------------------------------

  /** The pieces of one candidate statement, with the `;` between them restored. */
  function Join(pieces: seq<string>): string {
    if pieces == [] then []
    else if |pieces| == 1 then pieces[0]
    else Join(pieces[..|pieces| - 1]) + ";" + pieces[|pieces| - 1]
  }

  /** Whether a list of pieces makes a complete statement. */
  type Test = seq<string> -> bool

  /** The test completeStatements applies: the oracle on the pieces joined and terminated. */
  function Accepts(o: Oracle): Test {
    pieces => o(Join(pieces) + ";")
  }

  /** Pieces grouped into statements, and the pieces of a statement still open. */
  datatype Groups = Groups(closed: seq<seq<string>>, open: seq<string>)

  /** The grouping after one more piece. */
  function AddPiece(g: Groups, piece: string, accepts: Test): Groups {
    var open := g.open + [piece];
    if accepts(open) then Groups(g.closed + [open], []) else Groups(g.closed, open)
  }

  function Group(pieces: seq<string>, accepts: Test): Groups {
    if pieces == [] then Groups([], [])
    else
      AddPiece(Group(pieces[..|pieces| - 1], accepts), pieces[|pieces| - 1], accepts)
  }

  function Flatten(groups: seq<seq<string>>): seq<string> {
    if groups == [] then [] else Flatten(groups[..|groups| - 1]) + groups[|groups| - 1]
  }

  function JoinAll(groups: seq<seq<string>>): seq<string> {
    seq(|groups|, i requires 0 <= i < |groups| => Join(groups[i]))
  }

  /** No statement could have ended earlier in `pieces` (before its last piece). */
  predicate Minimal(pieces: seq<string>, accepts: Test) {
    |pieces| <= 1
    || (var shorter := pieces[..|pieces| - 1]; !accepts(shorter) && Minimal(shorter, accepts))
  }

  /** The same, said of all shorter prefixes at once. */
  lemma {:induction false} MinimalMeans(pieces: seq<string>, accepts: Test)
    ensures Minimal(pieces, accepts) <==> forall j :: 0 < j < |pieces| ==> !accepts(pieces[..j])
  {
    if |pieces| > 1 {
      var k := |pieces| - 1;
      MinimalMeans(pieces[..k], accepts);
      assert forall j :: 0 < j < k ==> pieces[..k][..j] == pieces[..j];
    }
  }

  /** A statement that is complete, and no sooner. */
  predicate ClosesFirst(pieces: seq<string>, accepts: Test) {
    pieces != [] && accepts(pieces) && Minimal(pieces, accepts)
  }

  /** Greedy grouping, said of the result: the groups are the pieces in order, each is
      accepted and no shorter one from the same start is, and nothing in the open rest
      could have been closed. */
  ghost predicate Greedy(g: Groups, accepts: Test) {
    && (forall i :: 0 <= i < |g.closed| ==> ClosesFirst(g.closed[i], accepts))
    && Minimal(g.open, accepts)
    && (g.open != [] ==> !accepts(g.open))
  }

  /** The groups are the pieces, in order. */
  predicate Conserves(g: Groups, pieces: seq<string>) {
    Flatten(g.closed) + g.open == pieces
  }

  lemma {:induction false} GroupConserves(pieces: seq<string>, accepts: Test)
    ensures Conserves(Group(pieces, accepts), pieces)
  {
    if pieces != [] {
      var init, last := pieces[..|pieces| - 1], pieces[|pieces| - 1];
      GroupConserves(init, accepts);
      PieceConserved(init, Group(init, accepts), last, accepts);
      assert init + [last] == pieces;
    }
  }

  lemma PieceConserved(before: seq<string>, g: Groups, piece: string, accepts: Test)
    requires Conserves(g, before)
    ensures Conserves(AddPiece(g, piece, accepts), before + [piece])
  {
    var open := g.open + [piece];
    FlattenSnoc(g.closed, open);
    assert Flatten(g.closed) + open == before + [piece];
    assert Flatten(g.closed + [open]) + [] == Flatten(g.closed) + open;
  }

  lemma {:induction false} GroupIsGreedy(pieces: seq<string>, accepts: Test)
    ensures Greedy(Group(pieces, accepts), accepts)
  {
    if pieces != [] {
      var k := |pieces| - 1;
      GroupIsGreedy(pieces[..k], accepts);
      PieceKeepsGreedy(Group(pieces[..k], accepts), pieces[k], accepts);
    }
  }

  lemma PieceKeepsGreedy(g: Groups, piece: string, accepts: Test)
    requires Greedy(g, accepts)
    ensures Greedy(AddPiece(g, piece, accepts), accepts)
  {
    OpenStaysMinimal(g.open, piece, accepts);
    var h := AddPiece(g, piece, accepts);
    forall i | 0 <= i < |h.closed| ensures ClosesFirst(h.closed[i], accepts) {
      if i < |g.closed| { assert h.closed[i] == g.closed[i]; }
    }
  }

  lemma OpenStaysMinimal(open: seq<string>, piece: string, accepts: Test)
    requires Minimal(open, accepts) && (open != [] ==> !accepts(open))
    ensures Minimal(open + [piece], accepts)
  {
    assert (open + [piece])[..|open|] == open;
  }

  lemma FlattenSnoc(groups: seq<seq<string>>, last: seq<string>)
    ensures Flatten(groups + [last]) == Flatten(groups) + last
  {
    assert (groups + [last])[..|groups|] == groups;
  }

  lemma {:induction false} GroupAppend(a: seq<string>, b: seq<string>, accepts: Test)
    requires Group(a, accepts).open == []
    ensures Group(a + b, accepts) == Groups(Group(a, accepts).closed + Group(b, accepts).closed, Group(b, accepts).open)
  {
    if b == [] {
      assert a + b == a;
    } else {
      var k := |b| - 1;
      assert (a + b)[..|a| + k] == a + b[..k] && (a + b)[|a| + k] == b[k];
      GroupAppend(a, b[..k], accepts);
      AddPieceAfter(Group(a, accepts).closed, Group(b[..k], accepts), b[k], accepts);
    }
  }

  lemma AddPieceAfter(before: seq<seq<string>>, g: Groups, piece: string, accepts: Test)
    ensures AddPiece(Groups(before + g.closed, g.open), piece, accepts) ==
            var h := AddPiece(g, piece, accepts); Groups(before + h.closed, h.open)
  {
    var open := g.open + [piece];
    assert before + g.closed + [open] == before + (g.closed + [open]);
  }

  lemma {:induction false} GroupOpen(pieces: seq<string>, accepts: Test)
    requires Minimal(pieces, accepts)
    ensures Group(pieces, accepts) ==
            if pieces == [] || !accepts(pieces) then Groups([], pieces) else Groups([pieces], [])
  {
    if pieces != [] {
      var k := |pieces| - 1;
      GroupOpen(pieces[..k], accepts);
      assert pieces[..k] + [pieces[k]] == pieces;
    }
  }

  /** Statements that each close where they first can are grouped as they are. */
  lemma {:induction false} ClosedStayGrouped(closed: seq<seq<string>>, accepts: Test)
    requires forall i :: 0 <= i < |closed| ==> ClosesFirst(closed[i], accepts)
    ensures Group(Flatten(closed), accepts) == Groups(closed, [])
    decreases |closed|
  {
    if closed != [] {
      var init, last := closed[..|closed| - 1], closed[|closed| - 1];
      ClosedStayGrouped(init, accepts);
      LastStaysGrouped(Flatten(init), init, last, accepts);
      assert init + [last] == closed;
    }
  }

  lemma LastStaysGrouped(pieces: seq<string>, init: seq<seq<string>>, last: seq<string>, accepts: Test)
    requires Group(pieces, accepts) == Groups(init, []) && ClosesFirst(last, accepts)
    ensures Group(pieces + last, accepts) == Groups(init + [last], [])
  {
    GroupOpen(last, accepts);
    GroupAppend(pieces, last, accepts);
  }

  /** There is only one greedy grouping. */
  lemma GreedyIsUnique(g: Groups, accepts: Test)
    requires Greedy(g, accepts)
    ensures Group(Flatten(g.closed) + g.open, accepts) == g
  {
    ClosedStayGrouped(g.closed, accepts);
    GroupOpen(g.open, accepts);
    GroupAppend(Flatten(g.closed), g.open, accepts);
    assert g.closed + [] == g.closed;
  }

  /** Both directions: the loop computes the greedy grouping and no other. */
  lemma GroupCharacterized(pieces: seq<string>, g: Groups, accepts: Test)
    ensures Group(pieces, accepts) == g <==> Conserves(g, pieces) && Greedy(g, accepts)
  {
    GroupConserves(pieces, accepts);
    GroupIsGreedy(pieces, accepts);
    if Greedy(g, accepts) {
      GreedyIsUnique(g, accepts);
    }
  }

  // ---- completeStatements --------------------------------------------------

  /** The builder loop of completeStatements: the statements emitted, and what `acc` holds. */
  function Regroup(pieces: seq<string>, o: Oracle): Pieces {
    if pieces == [] then Pieces([], [])
    else RegroupStep(Regroup(pieces[..|pieces| - 1], o), pieces[|pieces| - 1], o)
  }

  function RegroupStep(r: Pieces, piece: string, o: Oracle): Pieces {
    var acc := if |r.remainder| > 0 then r.remainder + ";" + piece else piece;
    if o(acc + ";") then Pieces(r.complete + [acc], []) else Pieces(r.complete, acc)
  }

  function CompleteOf(sqlText: string, o: Oracle): Pieces {
    var p := Split(sqlText);
    var r := Regroup(p.complete, o);
    if |r.remainder| == 0 then Pieces(r.complete, p.remainder)
    else if p.remainder != [] then Pieces(r.complete, r.remainder + ";" + p.remainder)
    else r
  }

  /** cmd/execdb/complete.go: completeStatements. */
  method CompleteStatements(sqlText: string, o: Oracle) returns (complete: seq<string>, remainder: string)
    ensures Pieces(complete, remainder) == CompleteOf(sqlText, o)
  {
    var pieces, tail := ScanStatements(sqlText);
    assert Pieces(pieces, tail) == Split(sqlText);
    var acc := "";
    complete := [];
    for i := 0 to |pieces|
      invariant Regroup(pieces[..i], o) == Pieces(complete, acc)
    {
      assert pieces[..i + 1][..i] == pieces[..i];
      assert "" + pieces[i] == pieces[i];
      if |acc| > 0 {
        acc := acc + ";";
      }
      acc := acc + pieces[i];
      var ok := o(acc + ";");
      if !ok {
        continue;
      }
      complete := complete + [acc];
      acc := "";
    }
    assert pieces[..|pieces|] == pieces;
    if |acc| == 0 {
      return complete, tail;
    }
    if tail != "" {
      acc := acc + ";";
      acc := acc + tail;
    }
    return complete, acc;
  }

  /** Provided a lone `;` is complete, the builder loop is the greedy grouping. */
  lemma {:induction false} RegroupIsGroup(pieces: seq<string>, o: Oracle)
    requires o(";")
    ensures var g := Group(pieces, Accepts(o));
            Regroup(pieces, o) == Pieces(JoinAll(g.closed), Join(g.open))
            && (g.open != [] ==> Join(g.open) != [])
  {
    if pieces != [] {
      var k := |pieces| - 1;
      RegroupIsGroup(pieces[..k], o);
      var g := Group(pieces[..k], Accepts(o));
      var open := g.open + [pieces[k]];
      JoinSnoc(g.open, pieces[k]);
      assert [] + ";" == ";";
      if Accepts(o)(open) {
        assert JoinAll(g.closed + [open]) == JoinAll(g.closed) + [Join(open)];
      } else {
        assert Join(open) != [];
      }
    }
  }

  lemma JoinSnoc(pieces: seq<string>, last: string)
    ensures Join(pieces + [last]) == if pieces == [] then last else Join(pieces) + ";" + last
  {
    assert (pieces + [last])[..|pieces|] == pieces;
  }

  lemma {:induction false} GlueJoined(groups: seq<seq<string>>, rest: string)
    requires forall c :: c in groups ==> c != []
    ensures Glue(JoinAll(groups), rest) == Glue(Flatten(groups), rest)
  {
    if groups != [] {
      var k := |groups| - 1;
      var init, last := groups[..k], groups[k];
      assert last in groups;
      forall c | c in init ensures c in groups {}
      assert JoinAll(groups) == JoinAll(init) + [Join(last)];
      GlueSnoc(JoinAll(init), Join(last), rest);
      GlueJoin(last, rest);
      GlueJoined(init, Join(last) + ";" + rest);
      GlueConcat(Flatten(init), last, rest);
    }
  }

  lemma {:induction false} GlueJoin(pieces: seq<string>, rest: string)
    requires pieces != []
    ensures Glue(pieces, rest) == Join(pieces) + ";" + rest
  {
    if |pieces| == 1 {
      assert pieces == [] + [pieces[0]];
      GlueSnoc([], pieces[0], rest);
    } else {
      var k := |pieces| - 1;
      assert pieces == pieces[..k] + [pieces[k]];
      GlueSnoc(pieces[..k], pieces[k], rest);
      GlueJoin(pieces[..k], pieces[k] + ";" + rest);
      assert Join(pieces[..k]) + ";" + (pieces[k] + ";" + rest) == Join(pieces) + ";" + rest;
    }
  }

  /** Regrouping restores the input exactly, unless a statement is still open and the
      text ends on a `;`: then that one final `;` is what the result lacks. */
  lemma CompleteIsLossless(s: string, o: Oracle)
    requires o(";")
    ensures var r := CompleteOf(s, o);
            var dropped := Group(Split(s).complete, Accepts(o)).open != [] && Split(s).remainder == [];
            && (Glue(r.complete, r.remainder) == s <==> !dropped)
            && (dropped ==> Glue(r.complete, r.remainder) + ";" == s)
  {
    var p := Split(s);
    var g := Group(p.complete, Accepts(o));
    var r := CompleteOf(s, o);
    RegroupIsGroup(p.complete, o);
    GroupIsGreedy(p.complete, Accepts(o));
    GroupConserves(p.complete, Accepts(o));
    SplitConserves(s);
    GlueConcat(Flatten(g.closed), g.open, p.remainder);
    if g.open == [] {
      GlueJoined(g.closed, p.remainder);
    } else {
      GlueJoin(g.open, p.remainder);
      GlueJoined(g.closed, Join(g.open) + ";" + p.remainder);
      if p.remainder == [] {
        assert Join(g.open) + ";" + [] == Join(g.open) + ";";
        GlueAppend(r.complete, r.remainder, ";");
      }
    }
  }

  /** The premise cannot be dropped: an oracle that rejects a lone `;` loses it even
      though no statement is open afterwards. */
  lemma LonePieceLost(o: Oracle)
    ensures CompleteOf(";", o) == (if o(";") then Pieces([""], "") else Pieces([], ""))
  {
    assert ";"[..0] == [];
    assert Split("") == Pieces([], []);
    assert IsCut(";", 0);
    assert Split(";") == Pieces([""], []);
    assert [""][..0] == [];
    assert "" + ";" == ";";
    assert Regroup([""][..0], o) == Pieces([], []);
  }
}
