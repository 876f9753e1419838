/** The environment: one SQLite session as the program sees it (engine/session.go).

    What a data statement does, and whether a call fails, is left to an arbitrary `Env`;
    transactions and savepoints follow SQLite's rules.  A failed call changes nothing. */
module Sqlite {
  import opened Bytes

  /** A value as Go's database/sql hands it over: texts and blobs are bytes, a float is its
      64-bit pattern, a time its distance in nanoseconds from 2000-01-01 00:00:00 UTC. */
  datatype Value =
    | Null
    | Int64(i: I64)
    | Float(bits: U64)
    | Bool(b: bool)
    | Text(s: seq<Byte>)
    | Blob(raw: seq<Byte>)
    | Time(ns: int)

  type Row = seq<Value>
  type Db = map<string, seq<Row>>

  // ---- Commands ------------------------------------------------------------

  datatype Command =
    | Begin
    | Commit
    | Rollback
    | RollbackTo(name: string)
    | Savepoint(name: string)
    | Release(name: string)
    | Data

  /** What a call hands back.  `broken` marks a row set whose iteration ends in an error,
      `badTypes` one whose column types cannot be read. */
  datatype Result =
    | Failed
    | Done(rows: seq<Row>, oids: seq<nat>, badTypes: bool, broken: bool, affected: nat)

  const EMPTY := Done([], [], false, false, 0)

  /** The n-th call of a session fails if `fails(n)` (cancelled, busy, I/O); otherwise
      `data` gives a data statement's result and the contents it leaves behind.
      `command` is SQLite's own reading of a statement. */
  datatype Env = Env(
    fails: nat -> bool,
    command: string -> Command,
    data: (nat, string, seq<Value>, Db) -> (Db, Result))

  // ---- Sessions ------------------------------------------------------------

  datatype Save = Save(name: string, before: Db)

  /** `committed` is what other sessions see, `work` what this one sees.  A transaction is
      open from BEGIN, or from the first savepoint taken outside of one. */
  datatype Session = Session(committed: Db, work: Db, began: bool, saves: seq<Save>, calls: nat)
  {
    predicate InTx() { began || saves != [] }

    /** Outside a transaction there is nothing uncommitted. */
    predicate Valid() { !InTx() ==> work == committed }

    /** Everything but the number of calls made so far. */
    predicate Same(s: Session) {
      committed == s.committed && work == s.work && began == s.began && saves == s.saves
    }
  }

  /** The index of the innermost savepoint called `name`, or -1. */
  function Find(saves: seq<Save>, name: string): (i: int)
    ensures -1 <= i < |saves|
    ensures i >= 0 ==> saves[i].name == name
    ensures forall k :: i < k < |saves| ==> saves[k].name != name
  {
    if saves == [] then -1
    else if saves[|saves| - 1].name == name then |saves| - 1
    else Find(saves[..|saves| - 1], name)
  }

  /** A transaction-control command, once it gets through. */
  function Control(s: Session, cmd: Command): (Session, Result)
    requires !cmd.Data?
  {
    match cmd
    case Begin =>
      if s.InTx() then (s, Failed) else (s.(began := true), EMPTY)
    case Commit =>
      if !s.InTx() then (s, Failed) else (s.(committed := s.work, began := false, saves := []), EMPTY)
    case Rollback =>
      if !s.InTx() then (s, Failed) else (s.(work := s.committed, began := false, saves := []), EMPTY)
    case Savepoint(name) =>
      (s.(saves := s.saves + [Save(name, s.work)]), EMPTY)
    case RollbackTo(name) =>
      var i := Find(s.saves, name);
      if i < 0 then (s, Failed) else (s.(work := s.saves[i].before, saves := s.saves[..i + 1]), EMPTY)
    case Release(name) =>
      var i := Find(s.saves, name);
      if i < 0 then (s, Failed)
      else if i == 0 && !s.began then (s.(committed := s.work, saves := []), EMPTY)
      else (s.(saves := s.saves[..i]), EMPTY)
  }

  /** A data statement, once it gets through: outside a transaction it commits by itself. */
  function RunData(env: Env, n: nat, s: Session, sql: string, args: seq<Value>): (Session, Result) {
    var (db, result) := env.data(n, sql, args, s.work);
    (s.(work := db, committed := if s.InTx() then s.committed else db), result)
  }

  function Count(s: Session): Session { s.(calls := s.calls + 1) }

  /** A command the program issues itself. */
  function Issue(env: Env, s: Session, cmd: Command): (Session, Result)
    requires !cmd.Data?
  {
    if env.fails(s.calls) then (Count(s), Failed) else Control(Count(s), cmd)
  }

  /** engine/session.go: Exec and Query on the text of a statement. */
  function Exec(env: Env, s: Session, sql: string, args: seq<Value>): (Session, Result) {
    if env.fails(s.calls) then (Count(s), Failed)
    else if env.command(sql).Data? then RunData(env, s.calls, Count(s), sql, args)
    else Control(Count(s), env.command(sql))
  }

  lemma ExecKeepsValid(env: Env, s: Session, sql: string, args: seq<Value>)
    requires s.Valid()
    ensures Exec(env, s, sql, args).0.Valid()
  {
  }

  // ---- Savepoints ----------------------------------------------------------

  lemma FindPushed(saves: seq<Save>, save: Save)
    ensures Find(saves + [save], save.name) == |saves|
  {
  }
}
