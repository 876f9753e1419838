/** Bulk loading under a savepoint (cmd/execdb/import.go): all records or none. */
module Import {
  import opened Options
  import opened Sqlite

  /** A CSV record, or one the reader reports an error for. */
  datatype Record = Fields(values: seq<string>) | Unreadable

  /** What inserting a record does to the contents; None where SQLite rejects it. */
  type Insert = (seq<string>, Db) -> Option<Db>

  predicate Loadable(r: Record, columns: nat) { r.Fields? && |r.values| == columns }

  /** The contents after inserting all of `records`, if each of them goes in. */
  function Inserted(ins: Insert, db: Db, records: seq<Record>): Option<Db> {
    if records == [] then Some(db)
    else
      var before, last := Inserted(ins, db, records[..|records| - 1]), records[|records| - 1];
      if before.None? || !last.Fields? then None else ins(last.values, before.value)
  }

  // ---- The row loop --------------------------------------------------------

  /** One execution of the prepared INSERT. */
  function Put(env: Env, ins: Insert, s: Session, values: seq<string>): (Session, bool) {
    if env.fails(s.calls) then (Count(s), false)
    else
      var db := ins(values, s.work);
      if db.None? then (Count(s), false)
      else (Count(s).(work := db.value, committed := if s.InTx() then s.committed else db.value), true)
  }

  /** The loop's outcome: the session, the number of rows inserted, and whether all were. */
  function PutAll(env: Env, ins: Insert, s: Session, records: seq<Record>, columns: nat): (Session, nat, bool)
    decreases |records|
  {
    if records == [] then (s, 0, true)
    else if !Loadable(records[0], columns) then (s, 0, false)
    else
      var (s1, ok) := Put(env, ins, s, records[0].values);
      if !ok then (s1, 0, false)
      else
        var (s2, n, all) := PutAll(env, ins, s1, records[1..], columns);
        (s2, n + 1, all)
  }

  lemma {:induction false} InsertedFirst(ins: Insert, db: Db, first: Record, rest: seq<Record>)
    ensures Inserted(ins, db, [first] + rest) ==
            if first.Fields? && ins(first.values, db).Some? then Inserted(ins, ins(first.values, db).value, rest)
            else None
  {
    if rest == [] {
      assert [first] + rest == [first] && [first][..0] == [];
      assert Inserted(ins, db, [first][..0]) == Some(db);
    } else {
      var k := |rest| - 1;
      assert ([first] + rest)[..k + 1] == [first] + rest[..k];
      InsertedFirst(ins, db, first, rest[..k]);
    }
  }

  /** Every record can be read and has a value for each column. */
  predicate AllFit(records: seq<Record>, columns: nat) {
    forall k :: 0 <= k < |records| ==> records[k].Fields? && |records[k].values| == columns
  }

  /** None of `n` calls fails, the first of which is the one numbered `from`. */
  predicate NoneFails(env: Env, from: nat, n: nat) {
    forall k :: from <= k < from + n ==> !env.fails(k)
  }

  /** The loop gets through all records if and only if they all fit, SQLite takes each of them
      after those before it, and none of the calls fails, of which there is one a record. */
  lemma {:induction false} PutAllSucceeds(env: Env, ins: Insert, s: Session, records: seq<Record>, columns: nat)
    ensures var (s1, _, ok) := PutAll(env, ins, s, records, columns);
            && (ok <==> AllFit(records, columns) && Inserted(ins, s.work, records).Some?
                        && NoneFails(env, s.calls, |records|))
            && (ok ==> s1.calls == s.calls + |records|)
    decreases |records|
  {
    if records != [] {
      var (first, rest) := (records[0], records[1..]);
      assert records == [first] + rest;
      InsertedFirst(ins, s.work, first, rest);
      assert AllFit(records, columns) <==> Loadable(first, columns) && AllFit(rest, columns);
      if Loadable(first, columns) {
        var (s1, ok) := Put(env, ins, s, first.values);
        if ok {
          PutAllSucceeds(env, ins, s1, rest, columns);
          assert NoneFails(env, s.calls, |records|) <==> NoneFails(env, s.calls + 1, |rest|);
        } else {
          assert env.fails(s.calls) ==> !NoneFails(env, s.calls, |records|);
        }
      }
    }
  }

  /** In a transaction the loop changes the working contents only, to exactly the first `n`
      records inserted; it reports success if and only if it got through all of them. */
  lemma {:induction false} PutAllInserts(env: Env, ins: Insert, s: Session, records: seq<Record>, columns: nat)
    requires s.InTx()
    ensures var (s1, n, ok) := PutAll(env, ins, s, records, columns);
            && s1 == s.(work := s1.work, calls := s1.calls)
            && n <= |records| && (ok <==> n == |records|)
            && Inserted(ins, s.work, records[..n]) == Some(s1.work)
            && (forall k :: 0 <= k < n ==> Loadable(records[k], columns))
    decreases |records|
  {
    if records != [] && Loadable(records[0], columns) {
      var (s1, ok) := Put(env, ins, s, records[0].values);
      if ok {
        PutAllInserts(env, ins, s1, records[1..], columns);
        var n := PutAll(env, ins, s1, records[1..], columns).1;
        InsertedFirst(ins, s.work, records[0], records[1..][..n]);
        assert records[..n + 1] == [records[0]] + records[1..][..n];
      }
    }
  }

  // ---- importRows ----------------------------------------------------------

  const IMPORT_SAVEPOINT := "execdb_import"

  /** What happened: whether the savepoint was taken, the contents the row loop left, whether
      it got through, and whether the rollback and the release did. */
  datatype Course = Course(saved: bool, loaded: Db, inserted: bool, rolledBack: bool, released: bool)

  datatype Imported = Imported(sess: Session, n: nat, ok: bool, course: Course)

  /** Preparing the INSERT, then the rows. */
  function InsertRows(env: Env, ins: Insert, s: Session, records: seq<Record>, columns: nat): (Session, nat, bool) {
    if env.fails(s.calls) then (Count(s), 0, false) else PutAll(env, ins, Count(s), records, columns)
  }

  function ImportRows(env: Env, ins: Insert, s: Session, records: seq<Record>, columns: nat): Imported {
    var (s1, saved) := Issue(env, s, Savepoint(IMPORT_SAVEPOINT));
    if saved.Failed? then Imported(s1, 0, false, Course(false, s.work, false, false, false))
    else
      var (s2, n, inserted) := InsertRows(env, ins, s1, records, columns);
      Settle(env, s2, n, inserted)
  }

  /** Keeping or undoing what the row loop did. */
  function Settle(env: Env, s2: Session, n: nat, inserted: bool): Imported {
    if !inserted then
      // Neither command's failure is looked at.
      var (s3, rolledBack) := Issue(env, s2, RollbackTo(IMPORT_SAVEPOINT));
      var (s4, released) := Issue(env, s3, Release(IMPORT_SAVEPOINT));
      Imported(s4, 0, false, Course(true, s2.work, false, !rolledBack.Failed?, !released.Failed?))
    else
      var (s3, released) := Issue(env, s2, Release(IMPORT_SAVEPOINT));
      Imported(s3, if released.Failed? then 0 else n, !released.Failed?,
               Course(true, s2.work, true, false, !released.Failed?))
  }

  /** `s1` is `s` inside the import's savepoint. */
  predicate Within(s: Session, s1: Session) {
    && s1.saves == s.saves + [Save(IMPORT_SAVEPOINT, s.work)]
    && s1.committed == s.committed && s1.began == s.began
  }

  lemma RollBackWithin(env: Env, s: Session, s1: Session)
    requires Within(s, s1)
    ensures var (s2, r) := Issue(env, s1, RollbackTo(IMPORT_SAVEPOINT));
            && (r.Failed? <==> env.fails(s1.calls))
            && Within(s, s2) && s2.work == if r.Failed? then s1.work else s.work
  {
    FindPushed(s.saves, Save(IMPORT_SAVEPOINT, s.work));
    assert s1.saves[..|s.saves| + 1] == s1.saves;
  }

  lemma ReleaseWithin(env: Env, s: Session, s1: Session)
    requires Within(s, s1)
    ensures var (s2, r) := Issue(env, s1, Release(IMPORT_SAVEPOINT));
            && (r.Failed? <==> env.fails(s1.calls))
            && if r.Failed? then Within(s, s2) && s2.work == s1.work
               else s2.saves == s.saves && s2.began == s.began && s2.work == s1.work
                    && s2.committed == if s.InTx() then s.committed else s1.work
  {
    FindPushed(s.saves, Save(IMPORT_SAVEPOINT, s.work));
    assert s1.saves[..|s.saves|] == s.saves;
  }

  lemma RowsWithin(env: Env, ins: Insert, s: Session, s1: Session, records: seq<Record>, columns: nat)
    requires Within(s, s1) && s1.work == s.work
    ensures var (s2, n, ok) := InsertRows(env, ins, s1, records, columns);
            && Within(s, s2) && n <= |records|
            && (ok ==> n == |records| && Inserted(ins, s.work, records) == Some(s2.work))
  {
    if !env.fails(s1.calls) {
      PutAllInserts(env, ins, Count(s1), records, columns);
      assert records[..|records|] == records;
    }
  }

  /** An import succeeds if and only if all records fit, SQLite takes each of them after those
      before it, and no call fails: savepoint, compilation, one a record, release. */
  lemma ImportSucceeds(env: Env, ins: Insert, s: Session, records: seq<Record>, columns: nat)
    ensures ImportRows(env, ins, s, records, columns).ok <==>
              && AllFit(records, columns) && Inserted(ins, s.work, records).Some?
              && NoneFails(env, s.calls, |records| + 3)
  {
    ImportStages(env, ins, s, records, columns);
    var (s2, _, inserted) := AfterRows(env, ins, s, records, columns);
    AllCallsWork(env, s.calls, |records|, ImportRows(env, ins, s, records, columns).ok,
        AllFit(records, columns) && Inserted(ins, s.work, records).Some?, inserted, s2.calls);
  }

  lemma AllCallsWork(env: Env, from: nat, n: nat, ok: bool, taken: bool, inserted: bool, calls: nat)
    requires ok <==> !env.fails(from) && inserted && !env.fails(calls)
    requires inserted <==> taken && !env.fails(from + 1) && NoneFails(env, from + 2, n)
    requires inserted ==> calls == from + 2 + n
    ensures ok <==> taken && NoneFails(env, from, n + 3)
  {
    CallsOfImport(env, from, n);
  }

  /** What the row loop comes to behind the savepoint. */
  function AfterRows(env: Env, ins: Insert, s: Session, records: seq<Record>, columns: nat): (Session, nat, bool) {
    InsertRows(env, ins, Issue(env, s, Savepoint(IMPORT_SAVEPOINT)).0, records, columns)
  }

  /** The savepoint, the rows, the release. */
  lemma ImportStages(env: Env, ins: Insert, s: Session, records: seq<Record>, columns: nat)
    ensures var (s2, _, inserted) := AfterRows(env, ins, s, records, columns);
            && (ImportRows(env, ins, s, records, columns).ok <==>
                  !env.fails(s.calls) && inserted && !env.fails(s2.calls))
            && (inserted <==> AllFit(records, columns) && Inserted(ins, s.work, records).Some?
                              && !env.fails(s.calls + 1) && NoneFails(env, s.calls + 2, |records|))
            && (inserted ==> s2.calls == s.calls + 2 + |records|)
  {
    Saves(env, s);
    var s1 := Issue(env, s, Savepoint(IMPORT_SAVEPOINT)).0;
    RowsSucceed(env, ins, s1, records, columns);
    if !env.fails(s.calls) {
      ImportGoesOn(env, ins, s, s1, records, columns);
    }
  }

  lemma Saves(env: Env, s: Session)
    ensures var (s1, r) := Issue(env, s, Savepoint(IMPORT_SAVEPOINT));
            && (r.Failed? <==> env.fails(s.calls)) && s1.calls == s.calls + 1 && s1.work == s.work
            && (!r.Failed? ==> Within(s, s1))
  {
  }

  lemma ImportGoesOn(env: Env, ins: Insert, s: Session, s1: Session, records: seq<Record>, columns: nat)
    requires Within(s, s1) && s1.work == s.work
    ensures var (s2, n, inserted) := InsertRows(env, ins, s1, records, columns);
            Settle(env, s2, n, inserted).ok <==> inserted && !env.fails(s2.calls)
  {
    RowsWithin(env, ins, s, s1, records, columns);
    var (s2, n, inserted) := InsertRows(env, ins, s1, records, columns);
    SettleSucceeds(env, s, s2, n, inserted);
  }

  lemma RowsSucceed(env: Env, ins: Insert, s: Session, records: seq<Record>, columns: nat)
    ensures var (s1, _, ok) := InsertRows(env, ins, s, records, columns);
            && (ok <==> AllFit(records, columns) && Inserted(ins, s.work, records).Some?
                        && !env.fails(s.calls) && NoneFails(env, s.calls + 1, |records|))
            && (ok ==> s1.calls == s.calls + 1 + |records|)
  {
    PutAllSucceeds(env, ins, Count(s), records, columns);
  }

  lemma SettleSucceeds(env: Env, s: Session, s2: Session, n: nat, inserted: bool)
    requires Within(s, s2)
    ensures Settle(env, s2, n, inserted).ok <==> inserted && !env.fails(s2.calls)
  {
    ReleaseWithin(env, s, s2);
  }

  lemma CallsOfImport(env: Env, from: nat, n: nat)
    ensures NoneFails(env, from, n + 3) <==>
              !env.fails(from) && !env.fails(from + 1) && NoneFails(env, from + 2, n) && !env.fails(from + 2 + n)
  {
  }

  /** Success means exactly all records are in, in the transaction that was open before or
      committed if none was, and that transaction is otherwise as it was. */
  lemma ImportInsertsAll(env: Env, ins: Insert, s: Session, records: seq<Record>, columns: nat)
    requires s.Valid() && ImportRows(env, ins, s, records, columns).ok
    ensures var r := ImportRows(env, ins, s, records, columns);
            && r.n == |records| && Inserted(ins, s.work, records) == Some(r.sess.work)
            && r.sess.began == s.began && r.sess.saves == s.saves
            && r.sess.committed == if s.InTx() then s.committed else r.sess.work
  {
    Saves(env, s);
    var s1 := Issue(env, s, Savepoint(IMPORT_SAVEPOINT)).0;
    InsertsAllWithin(env, ins, s, s1, records, columns);
  }

  lemma InsertsAllWithin(env: Env, ins: Insert, s: Session, s1: Session, records: seq<Record>, columns: nat)
    requires Within(s, s1) && s1.work == s.work
    ensures var (s2, n, inserted) := InsertRows(env, ins, s1, records, columns);
            var r := Settle(env, s2, n, inserted);
            r.ok ==>
              && r.n == |records| && Inserted(ins, s.work, records) == Some(r.sess.work)
              && r.sess.began == s.began && r.sess.saves == s.saves
              && r.sess.committed == if s.InTx() then s.committed else r.sess.work
  {
    var (s2, n, inserted) := InsertRows(env, ins, s1, records, columns);
    RowsWithin(env, ins, s, s1, records, columns);
    if Settle(env, s2, n, inserted).ok {
      SettleKeeps(env, s, s2, n, inserted);
    }
  }

  lemma SettleKeeps(env: Env, s: Session, s2: Session, n: nat, inserted: bool)
    requires Within(s, s2) && Settle(env, s2, n, inserted).ok
    ensures var r := Settle(env, s2, n, inserted);
            && inserted && r.n == n && r.sess.work == s2.work && r.sess.began == s.began && r.sess.saves == s.saves
            && r.sess.committed == if s.InTx() then s.committed else s2.work
  {
    ReleaseWithin(env, s, s2);
  }

  lemma SettleRestores(env: Env, s: Session, s2: Session, n: nat, inserted: bool)
    requires s.Valid() && Within(s, s2) && !Settle(env, s2, n, inserted).ok
    ensures var r := Settle(env, s2, n, inserted);
            r.sess.Same(s) <==> !inserted && r.course.released && (r.course.rolledBack || s2.work == s.work)
  {
    if inserted {
      ReleaseWithin(env, s, s2);
    } else {
      RollBackWithin(env, s, s2);
      ReleaseWithin(env, s, Issue(env, s2, RollbackTo(IMPORT_SAVEPOINT)).0);
    }
  }

  /** Failure leaves the session as it was, contents and open transaction, if and only if
      the savepoint was never taken, or the row loop failed and its savepoint could be
      released, with the rows rolled back or none of them having changed anything.  In
      particular it does not when all rows went in and only the final release failed. */
  lemma ImportRestoresExactly(env: Env, ins: Insert, s: Session, records: seq<Record>, columns: nat)
    requires s.Valid() && !ImportRows(env, ins, s, records, columns).ok
    ensures var r := ImportRows(env, ins, s, records, columns);
            var c := r.course;
            r.sess.Same(s) <==>
              !c.saved || (!c.inserted && c.released && (c.rolledBack || c.loaded == s.work))
  {
    var s1 := Issue(env, s, Savepoint(IMPORT_SAVEPOINT)).0;
    if !env.fails(s.calls) {
      RowsWithin(env, ins, s, s1, records, columns);
      var (s2, n, inserted) := InsertRows(env, ins, s1, records, columns);
      SettleRestores(env, s, s2, n, inserted);
    }
  }

  // ---- The program ---------------------------------------------------------

  class Importer {
    const env: Env
    const ins: Insert
    var sess: Session

    constructor (env: Env, ins: Insert, sess: Session)
      ensures this.env == env && this.ins == ins && this.sess == sess
    {
      this.env, this.ins, this.sess := env, ins, sess;
    }

    method ExecCommand(cmd: Command) returns (ok: bool)
      requires !cmd.Data?
      modifies this
      ensures sess == Issue(env, old(sess), cmd).0 && ok == !Issue(env, old(sess), cmd).1.Failed?
    {
      var (s, r) := Issue(env, sess, cmd);
      sess := s;
      return !r.Failed?;
    }

    /** cmd/execdb/import.go: importRows. */
    method RunImport(records: seq<Record>, columns: nat) returns (n: nat, ok: bool)
      modifies this
      ensures var r := ImportRows(env, ins, old(sess), records, columns); sess == r.sess && n == r.n && ok == r.ok
    {
      var saved := ExecCommand(Savepoint(IMPORT_SAVEPOINT));
      if !saved {
        return 0, false;
      }
      var rows, inserted := RunInserts(records, columns);
      if !inserted {
        var rolledBack := ExecCommand(RollbackTo(IMPORT_SAVEPOINT));
        var dropped := ExecCommand(Release(IMPORT_SAVEPOINT));
        return 0, false;
      }
      var released := ExecCommand(Release(IMPORT_SAVEPOINT));
      if !released {
        return 0, false;
      }
      return rows, true;
    }

    /** cmd/execdb/import.go: insertImportRows. */
    method RunInserts(records: seq<Record>, columns: nat) returns (n: nat, ok: bool)
      modifies this
      ensures (sess, n, ok) == InsertRows(env, ins, old(sess), records, columns)
    {
      var fails := env.fails(sess.calls);
      sess := Count(sess);
      n := 0;
      if fails {
        return n, false;
      }
      ghost var all := PutAll(env, ins, sess, records, columns);
      assert records[0..] == records;
      while n < |records|
        invariant n <= |records|
        invariant var (s, m, done) := PutAll(env, ins, sess, records[n..], columns); all == (s, n + m, done)
      {
        assert records[n..][1..] == records[n + 1..];
        if !Loadable(records[n], columns) {
          return n, false;
        }
        var (s, put) := Put(env, ins, sess, records[n].values);
        sess := s;
        if !put {
          return n, false;
        }
        n := n + 1;
      }
      assert records[n..] == [];
      return n, true;
    }
  }
}
