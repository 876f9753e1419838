# ExecDB, modelled and proved in Dafny

ExecDB puts a SQLite database and its engine into one executable file and serves it through a REPL
and the PostgreSQL wire protocol.  This project models the parts of it where the state and the case
analysis are, and proves what they keep:

- **SQL text** (`SqlLexer`, `SqlKeywords`, `CodeWords`, `WordLaws`, `Statements`, `Repl`): the
  program skips literals and comments in three separate index loops.  One character automaton says
  what is inside and what is outside of them; all three loops are proved to compute what the
  automaton says.  On top of that: statement splitting, when the first keyword the program reads is
  the first word of code, what a keyword is letter by letter, the regrouping of pieces under
  SQLite's completeness test, and the REPL loop, which runs line by line what the whole text at once
  would.
- **The connection** (`Protocol`, `Connection`, `Server`, `ByteLoop`, and the laws in `HandlerLaws`,
  `StateLaws`, `TransactionLaws`, `GuardLaws`, `ReplyLaws`, `LifeLaws`, `PromiseLaws`,
  `DeliveryLaws`; `PlainTexts` has the texts of the examples): the state of one pgwire connection
  and every message that changes it.  `Connection` says what a message does as a function from state
  to state; `Server` holds the handlers as the program has them, updating fields in loops, each
  proved to do what the function says.  `HandlerLaws` and `StateLaws` say what every message comes
  to in terms of the calls SQLite gets and how it answers them, the other laws what follows for
  whole runs of any messages.
- **SQLite as environment** (`Sqlite`): committed and working contents, a transaction flag, a
  savepoint stack.  What a data statement does and which calls fail is arbitrary (`Env`).  A failed
  call changes nothing and does not end the transaction.
- **Bulk import** (`Import`).
- **Bytes on the wire** (`Bytes`, `Wire`, `Layout`, `PgTypes`) and the dot-command line
  (`DotCommand`).
- **Image files and persistence** (`Image`, `Disk`, `Persist`, `Barrier`): the footer with its
  wrapping int64 sums, writing on a disk where any step can fail or stop half-way, the engine bytes
  carried through generations of snapshots, and the lock that makes a snapshot consistent.
- **Cancellation** (`Cancel`, `Registry`): connections, cancel requests and disconnect watchers as
  interleaved atomic steps, and the registry's classes, whose locked sections are those steps.

`dafny verify dfyconfig.toml` checks everything.

## What came out

Properties that do not hold without a condition, with the condition; "exactly" marks those proved
in both directions:

- `completeStatements` restores its input except for one final `;`, dropped exactly when a
  statement is still open and the text ends on a cut.  Even that needs SQLite to find a lone `;`
  complete (`LonePieceLost`).
- The state byte of ReadyForQuery agrees with SQLite's transaction after every statement except
  exactly these: a SAVEPOINT outside a transaction, any ROLLBACK TO, and the RELEASE of a savepoint
  that had opened the transaction.  `SavepointBreaksAgreement` and `RollbackToBreaksAgreement` give
  the messages.
- The guard of failed transactions and the access check go by the first keyword as the program reads
  it.  That is the first word of code, unless a comment in front of it opens with slash, star, slash:
  then the program reads on inside that comment (`KeywordIsCodeWord`, `MisreadComment`).  So what Query
  and Execute hand SQLite in a failed transaction starts, but for such comments, with a statement that
  ends it (`FailedIsLeft`); a prepared text of several statements is handed over whole.
  `CommentPassesForEnd` gives the message for the comment, `EndBringsMore` that for the several
  statements, and `AllowedMeans` says what the access check comes to.  A Describe runs its trial in a
  failed transaction too, between SAVEPOINT and ROLLBACK TO.  For each kind of message it is proved
  exactly when it makes SQLite run something (`StatementReaches`, `ExecuteReaches`, `DescribeReaches`,
  `OthersReachNothing`).
- Describe's trial run leaves the session as it was exactly if its savepoint was not taken or both
  clean-up commands got through.  They run under the same cancellable context as the trial itself
  (cmd/execdb/pgextended.go:621-627).
- Every conversation in which nothing is sent between a Query and its ReadyForQuery follows one reply
  grammar; as far as the replies here go it is that of PostgreSQL 16, sections 55.2.2 to 55.2.4, exactly
  if no message in it deviates (`RunConforms`).  Such a client's bytes are read as the messages it sent
  (`PatientIsServed`); without that, the watcher of the Query can take a byte of what follows, as
  `OvertakenSyncIsLost` shows.  What deviates: a query without
  statements, which gets nothing before ReadyForQuery where EmptyQueryResponse is due
  (`EmptyQueryIsSilent`); a statement without a keyword, whose completion has an empty tag
  (`EmptyExecuteIsUntagged`); statements that go on after an unreadable SET or SHOW; a Query answered
  while messages are being skipped; and a message of unknown type, which is answered at all.
- A batch goes on after an error exactly at a SET or SHOW that cannot be read, SHOW ALL included
  (`ErrorGoesOn`); batches without such stop at their first error (`ErrorEndsBatch`).
- What was announced for a portal is what its rows are sent as, except exactly for a value, not
  NULL, that the binary encoder of the announced type does not take: it goes out as text under a
  binary column (`TextUnderBinary`).
- The loop of a connection ends, other than by Terminate, exactly by a panic over format codes, two
  or more, that are too few, or over a described statement whose parameters there is no room for
  (`StaysAlive`).  `LargePlaceholderIsFatal` gives the messages for the latter.  No panic is recovered
  from, so one ends the process.
- A failed import leaves the session as it was exactly under the stated condition on the clean-up
  commands; in particular rows stay when only the final RELEASE fails (`ImportRestoresExactly`).
- A self-overwrite keeps a complete image at every moment, but the clean-up of the next start can
  take the only one away after a stop in mid-write (`StoppedWriteThenCleanup`).
- The message frame survives exactly for bodies below 2^31 - 4 bytes, the footer exactly for data
  up to 1 GiB, timestamps exactly within 9223372036854775 microseconds of 2000-01-01.

Where the code and its documentation differ, the model follows the code: the user documentation
makes `.load` of a file with data length 0 an error, while `Load` and `LoadFrom` reject only a missing
or corrupt footer and leave the rest to SQLite; the comments of `parseParseMessage`, `parseBindMessage`,
`writeParameterDescription` and `writeRowDescription` say that OIDs are discarded or 0 and formats
ignored, while the code uses them.

## Assumptions

- SQLite's own reading of a statement's transaction control agrees with its first keyword, and a
  statement classified as row-returning is a data statement (`Understood`, `Tame`).  That takes one
  statement per Parse: `Env.command` gives a text one command.
- The session a connection gets from the pool has no transaction open (`Fresh`); the program says I
  without looking.
- A client sends nothing between a Query and its ReadyForQuery; `ByteLoop` says what this is for.
- `engine.Complete` accepts a lone `;` and ignores leading blanks of the kinds in `ignored` (`Sane`);
  texts whose blanks are of other kinds are excluded by `Plain`, since SQLite skips ASCII blanks only.
- A Describe's trial run has done all it does to the database before its savepoint is rolled back.
- Files are at most 2^62 bytes, and blobs from the store at most 1 GiB.
- Nobody else writes the files of a `Database`; where it overwrites its executable, it was not opened
  from the sidecar of that.
- How long a list the Go runtime makes depends on the platform; the limits are parameters of
  `Connection.World`.

## Model

| member | source | states |
|---|---|---|
| SqlLexer.ScanStatements | cmd/execdb/access.go:35-110 | the scanning loop with its four skipping cases splits a text at exactly the `;` the automaton reads in code |
| SqlLexer.ScanString | cmd/execdb/access.go:45-61 | the string case takes the literal, doubled quotes included, to a position in code or the end, into the current piece |
| SqlLexer.ScanIdent | cmd/execdb/access.go:62-73 | the same for a quoted identifier |
| SqlLexer.ScanLineComment | cmd/execdb/access.go:74-79 | the same for a line comment, which leaves its newline to the main loop |
| SqlLexer.ScanBlockComment | cmd/execdb/access.go:80-98 | the same for a block comment, closed or not |
| SqlLexer.SplitConserves | cmd/execdb/access.go:29-34 | every piece followed by its `;`, then the remainder, is the text again |
| SqlLexer.SplitCharacterized | cmd/execdb/access.go:29-110 | iff: the split is the one and only decomposition into pieces without a cut that glues back to the text |
| SqlLexer.SplitAppend | cmd/execdb/access.go:35-110 | scanning can stop anywhere and go on from the remainder |
| SqlLexer.SplitComposes | cmd/execdb/access.go:35-110 | after a text with no remainder, what follows scans as if alone |
| SqlLexer.QuotedPrefix | cmd/execdb/access.go:45-73 | an identifier or string, quoted with its quotes doubled, in front of a text only lengthens the first piece, whatever characters it holds |
| SqlLexer.QuotedInside | cmd/execdb/access.go:45-73 | quoted in anywhere in code, it neither adds nor swallows a statement boundary |
| SqlKeywords.SkipLiteral | cmd/execdb/access.go:142-181 | the four skipping cases of the other two loops pass exactly over what the automaton has outside of code |
| SqlKeywords.MatchesWordAt | cmd/execdb/access.go:196-218 | iff the word stands there whole, whatever its letter case |
| SqlKeywords.HasReturningClause | cmd/execdb/access.go:136-190 | iff RETURNING stands somewhere as a whole word outside of literals and comments |
| SqlKeywords.CountPlaceholders | cmd/execdb/pgextended.go:187-244 | the maximum of all `$N` outside of literals and comments whose N fits an int, 0 if none |
| SqlKeywords.HighestIsMaximum | cmd/execdb/pgextended.go:187-244 | the position-by-position count is an upper bound and attained |
| SqlKeywords.ScanFirstKeyword | cmd/execdb/access.go:226-251 | the first word after blanks and comments, in capitals; a block comment may end inside its own opening; what that word is in the text, `WordLaws` says |
| SqlKeywords.LooksLikeRowReturning | cmd/execdb/access.go:120-129 | iff the keyword returns rows, or is DML with a RETURNING clause |
| CodeWords.KeywordIsCodeWord | cmd/execdb/access.go:226-251 | the keyword read is the first word outside of blanks and comments as the lexer sees them, unless a comment in front of that opens with slash, star, slash |
| WordLaws.KeywordSpelled | cmd/execdb/access.go:226-255 | iff: the keyword is the one word of capitals whose letters, capital or small, are all the ASCII letters from the first position of code on, but for such a comment |
| WordLaws.CodeWordSpelled | cmd/execdb/access.go:226-255 | the same of the first word of code, without exception |
| WordLaws.KeywordIgnoresCase | cmd/execdb/access.go:250 | texts that differ in the case of letters alone have the same keyword, comments and all |
| WordLaws.RowsMean | cmd/execdb/access.go:120-129 | iff: a statement returns rows exactly if, behind blanks and opening parentheses, it starts with the word of a query in whatever case, or of a change with RETURNING standing alone somewhere in its code |
| CodeWords.MisreadComment | cmd/execdb/access.go:235-241 | after such a comment the program reads on inside it, the lexer behind it: what each of the two then finds |
| CodeWords.FirstPieceWord | cmd/execdb/access.go:35-110 | the first piece of a text starts with the word the text starts with |
| Statements.CompleteStatements | cmd/execdb/complete.go:25-51 | the builder loop computes the regrouping of the scanner's pieces under the oracle |
| Statements.GroupCharacterized | cmd/execdb/complete.go:10-43 | iff: it is the one grouping that keeps all pieces in order, closes each statement where the oracle first accepts it, and leaves open only what it never accepts |
| Statements.RegroupIsGroup | cmd/execdb/complete.go:25-43 | the string builder does what the grouping of lists of pieces says |
| Statements.CompleteIsLossless | cmd/execdb/complete.go:25-51 | the result joined by `;` is the input iff no statement is open at a final cut; else exactly that one `;` is missing |
| Statements.LonePieceLost | cmd/execdb/complete.go:29-42 | with an oracle that rejects a lone `;`, that `;` is lost: the premise is needed |
| Repl.IncrementalEqualsBatch | cmd/execdb/repl.go:125-154 | executing a settled text and then what follows runs the statements of the joined text, in order |
| Repl.SettledTogether | cmd/execdb/repl.go:139-154 | two settled texts one after the other are settled |
| Repl.Loop.Line | cmd/execdb/repl.go:125-154 | one line: dot-command, blank, buffered or executed; all text read stays accounted for, executed statements are those of the settled text |
| Repl.Loop.ExecSQL | cmd/execdb/repl.go:166-191 | iff: a statement runs, unchanged and after those before it, exactly if it is not blank |
| Repl.RunsEach | cmd/execdb/repl.go:150-170 | what has run, statement by statement: trimmed, blank ones left out |
| Repl.Loop.Interrupt | cmd/execdb/repl.go:115-122 | an idle interrupt drops the buffer and nothing that was settled |
| Repl.Loop.ReadAll | cmd/execdb/repl.go:72-156 | for any lines and idle interrupts, exactly the statements of the text read have run, taken as a whole: all but dot-command lines, dropped only between statements, and what interrupts discarded |
| Repl.NothingLeftOut | cmd/execdb/repl.go:125-154 | without interrupts and lines that start with a dot that text, with the open statement, is all that was entered |
| Sqlite.ExecKeepsValid | engine/session.go:24-48 | outside of a transaction nothing is uncommitted, after every call |
| Server.SplitStatements | cmd/execdb/access.go:18-24 | the pieces, and the remainder if it is not blank |
| Server.CheckExternalAccess | cmd/execdb/access.go:277-291 | iff no statement of the text, blank ones aside, is denied by its first keyword |
| Server.BuildColumns | cmd/execdb/pgextended.go:591-619 | both column builders: binary exactly where it is asked for and the type has it |
| Server.EncodeRow | cmd/execdb/pgwire.go:467-470 | each value is encoded for its own column |
| Server.Server.SendDataRows | cmd/execdb/pgwire.go:455-480 | rows until one does not fit or the iteration breaks, then the completion with their number |
| Server.Server.HandleParse | cmd/execdb/pgextended.go:117-150 | the new state and reply of a Parse, with the old unnamed statement closed before the new one prepares |
| Server.Server.HandleBind | cmd/execdb/pgextended.go:249-302 | the new state and reply of a Bind |
| Server.Server.DecodeArgs | cmd/execdb/pgextended.go:263-293 | the parameter loop: the values in order, or the first failure |
| Server.Server.HandleDescribe | cmd/execdb/pgextended.go:399-490 | the new state and replies of a Describe, cached OIDs and the two lists it makes room for included; what they are, `HandlerLaws` says |
| Server.Server.DescribeRowShape | cmd/execdb/pgextended.go:550-581 | the row shape of a trial run under a savepoint, or NoData, as `HandlerLaws.ShapeIs` has it |
| Server.Server.RollbackDescribeSavepoint | cmd/execdb/pgextended.go:621-627 | called under the savepoint, it reports success iff the session is back as before the savepoint, whatever was written since; else the savepoint is still open |
| Server.Server.HandleExecute | cmd/execdb/pgextended.go:641-715 | the new state and replies of an Execute, as `HandlerLaws.ExecuteIs` and `DeliveryLaws.ExecuteDelivers` have them |
| Server.Server.HandleClose | cmd/execdb/pgextended.go:721-742 | the name is free afterwards, whether or not it was in use; all other statements and portals, transaction, session and log are untouched; an error iff the kind is unknown |
| Server.Server.SessionCommand | cmd/execdb/pgsession.go:51-94 | only a readable SET changes parameters, and only the one it names; a readable SHOW answers with the value its parameter has, as a text column; an error iff unreadable or SHOW ALL; session and transaction untouched |
| Server.Server.ExecOne | cmd/execdb/pgwire.go:412-447 | one statement of a Simple Query, and its replies |
| Server.Server.HandleSimpleQuery | cmd/execdb/pgwire.go:354-410 | the statement loop, stopped by the first failure, which fails an open block (`StateLaws`) |
| Server.Server.Step | cmd/execdb/pgwire.go:127-223 | one message: dispatched, skipped or refused; what it does to the byte, `StateLaws` says |
| Server.Server.Serve | cmd/execdb/pgwire.go:121-224 | any list of messages, nothing being sent between a Query and its ReadyForQuery: final state and complete output are those of the run that all laws are about |
| ByteLoop.PatientIsServed | cmd/execdb/pgwire.go:121-157 | the loop on the bytes of such a client reads the messages it sent and serves them as that run |
| ByteLoop.OvertakenSyncIsLost | cmd/execdb/pgwire.go:241-262 | a Sync right behind a Query can lose its first byte to the watcher, and its ReadyForQuery does not come |
| HandlerLaws.ParseStores | cmd/execdb/pgextended.go:117-150 | iff: a Parse succeeds exactly if its text is allowed, its name free or empty and SQLite compiles it; the name then stands for the rewritten text with its parameters counted, row class and declared types, and nothing else changes |
| HandlerLaws.ShapeIs | cmd/execdb/pgextended.go:550-619 | iff: NoData exactly for a statement without rows; else the columns the trial found, with its OIDs, binary exactly where code 1 is asked for (no codes, one for all, one each) and the type has it; else an error |
| HandlerLaws.DescribeStatementIs | cmd/execdb/pgextended.go:399-519 | the parameter types announced are those declared, 0 beyond (but for the type lookup); the trial runs the statement on values of those types; the columns are text, and remembered |
| HandlerLaws.DescribePortalIs | cmd/execdb/pgextended.go:460-490 | the trial runs the statement on the bound values; the columns are in the portal's formats, and remembered |
| HandlerLaws.ExecuteIs | cmd/execdb/pgextended.go:641-715 | iff: the session is that of the one call made, on the bound values, and the Execute succeeds exactly if it is let through, the call works, and every row fits the types it goes by; without rows the completion counts what the call affected |
| HandlerLaws.HandleWorks | cmd/execdb/pgextended.go:117-742 | iff: when each extended message succeeds, in terms of the messages' contents, the calls and their results |
| StateLaws.StatementMoves | cmd/execdb/pgwire.go:369-408 | iff: a statement of a Query stops the batch exactly if refused in E, or handed over and not working; a failure turns T into E, BEGIN gives T, COMMIT, ROLLBACK and END give I, all else leaves the byte; the session is that of the call |
| StateLaws.BatchEndsFailed | cmd/execdb/pgwire.go:369-408 | iff: a batch ends in E exactly if one of its statements fails inside of a block |
| StateLaws.DataKeepsByte | cmd/execdb/pgwire.go:395-408 | a batch without those four words leaves the byte, but for a failure in T, which makes it E |
| StateLaws.ExtendedMoves | cmd/execdb/pgwire.go:168-207 | iff: an extended message that fails turns T into E and starts the skipping, one that works moves the byte only as an Execute, by its keyword |
| StateLaws.FailureFailsBlock | cmd/execdb/pgwire.go:127-223 | iff: a message received in T leaves E exactly if it ends in failure: a handler that does not work out, a rejected Query, a statement that fails |
| StateLaws.OnlyEndingsLeave | cmd/execdb/pgwire.go:374-408 | a failed block is left only by COMMIT, ROLLBACK or END that works, executed or first in a Query |
| StateLaws.OthersKeepByte | cmd/execdb/pgwire.go:127-223 | without failure and without those four words no message moves the byte |
| StateLaws.ClientIsTold | cmd/execdb/pgwire.go:148-223 | ReadyForQuery carries the byte the next message is received in; Sync ends the skipping and nothing else; a rejected Query fails an open block |
| TransactionLaws.StatementKeepsAgreement | cmd/execdb/pgwire.go:395-408 | one statement keeps the state byte in step iff it failed or is none of three savepoint commands |
| TransactionLaws.SavepointBreaksAgreement | cmd/execdb/pgwire.go:402-407 | the Query `SAVEPOINT a` outside of a transaction opens one and is answered with I |
| TransactionLaws.RollbackToBreaksAgreement | cmd/execdb/pgwire.go:402-407 | the Query `ROLLBACK TO a` keeps its transaction open and is answered with I |
| TransactionLaws.TrialIsNeutral | cmd/execdb/pgextended.go:550-581 | iff: the trial changes nothing, not even when it writes, exactly if the savepoint was not taken or its clean-up got through |
| TransactionLaws.StepKeepsAgreement | cmd/execdb/pgwire.go:127-223 | one message keeps the byte in step with SQLite, and ReadyForQuery reports it |
| TransactionLaws.RunKeepsAgreement | cmd/execdb/pgwire.go:121-224 | over every run of calm messages, Simple and Extended mixed, the byte is I, T or E, and I iff no transaction is open; when it is E, `StateLaws` says |
| TransactionLaws.FreshIsSound | cmd/execdb/pgwire.go:118-121 | a connection that got a session without an open transaction meets the premises of the run laws |
| TransactionLaws.StepStatements | cmd/execdb/pgextended.go:117-150 | a prepared statement's text and classification only ever come from the Parse that made it |
| TransactionLaws.StatementReaches | cmd/execdb/pgwire.go:369-391 | iff: which statements of a Query reach SQLite, in each transaction state |
| TransactionLaws.ExecuteReaches | cmd/execdb/pgextended.go:641-662 | iff: which Executes hand their statement to SQLite |
| TransactionLaws.DescribeReaches | cmd/execdb/pgextended.go:550-565 | iff: which Describes run a trial, whatever the transaction state |
| TransactionLaws.OthersReachNothing | cmd/execdb/pgextended.go:117-150 | no other extended-query message runs anything |
| TransactionLaws.RunKeepsSealed | cmd/execdb/pgwire.go:369-382 | over every run, what reaches SQLite has passed the access check, a Query's statement is one to the scanners, the keyword is that read from the text (its first word of code, but for the comments above), in E that keyword is COMMIT, ROLLBACK or END or the text is a Describe's trial, and a trial stands between SAVEPOINT and ROLLBACK TO |
| GuardLaws.FailedIsLeft | cmd/execdb/pgextended.go:655-659 | in E, but for such comments, what is handed over starts with a statement that ends the transaction; all of it ends it iff the later statements do |
| GuardLaws.RunLeavesFailed | cmd/execdb/pgwire.go:374-382 | over every run, all statements handed over in E end the transaction, given one statement and no such comment |
| GuardLaws.StatementsAre | cmd/execdb/access.go:18-24 | the statements of a text are its one decomposition at the `;` read in code, what follows the last counted unless it is blank |
| GuardLaws.AllowedMeans | cmd/execdb/access.go:277-291 | iff: without such comments a text is allowed exactly if no statement of it starts with one of nine words, spelled in whatever letter case |
| GuardLaws.CommentPassesForEnd | cmd/execdb/access.go:237-239 | a Query whose comment opens with slash, star, slash and names COMMIT is handed over in E though its statement is another, and answered with I in an open transaction |
| GuardLaws.EndBringsMore | cmd/execdb/pgextended.go:655-659 | an Execute in E of two statements of which only the first ends the transaction hands over both |
| Protocol.OneTerminalReply | cmd/execdb/pgextended.go:117-742 | an answered message other than Flush has exactly one terminal reply, its last |
| Protocol.OneErrorBetweenSyncs | cmd/execdb/pgwire.go:164-207 | however much is pipelined, one ErrorResponse if the skipping starts, else none |
| Protocol.OneReadyPerSync | cmd/execdb/pgwire.go:208-212 | as many ReadyForQuery as Syncs |
| ReplyLaws.SendRowsShape | cmd/execdb/pgwire.go:455-480 | rows encoded for exactly the given columns, then a completion with their count or an error |
| ReplyLaws.HandleIsHonest | cmd/execdb/pgextended.go:117-742 | every handler answers within the grammar, in the standard's unless it completes a statement without keyword, and reports an error iff it failed |
| ReplyLaws.BatchProceeds | cmd/execdb/pgwire.go:369-410 | a Query is answered statement by statement, by a RowDescription, its rows and a counted completion, or a completion, or an error; iff it deviates, outside of the standard |
| ReplyLaws.StepAnswers | cmd/execdb/pgwire.go:127-223 | one message is answered within the grammar, in PostgreSQL's iff it does not deviate, and skipped exactly while in error |
| ReplyLaws.RunConforms | cmd/execdb/pgwire.go:121-224 | every run a connection survives, nothing being sent between a Query and its ReadyForQuery, is a conversation of the program's grammar, and one of PostgreSQL 16, sections 55.2.2 to 55.2.4, iff no message deviates |
| ReplyLaws.SkippedRunIsInert | cmd/execdb/pgwire.go:164-207 | messages skipped after an error change no state and write nothing |
| ReplyLaws.ErrorGoesOn | cmd/execdb/pgwire.go:384-401 | iff: a batch goes on after an error exactly at an unreadable SET or SHOW or SHOW ALL, the connection unchanged |
| ReplyLaws.ErrorEndsBatch | cmd/execdb/pgwire.go:395-401 | with SETs and SHOWs that can be read a batch sends at most one error, as its last reply |
| ReplyLaws.EmptyQueryIsSilent | cmd/execdb/pgwire.go:355-357 | the empty Query gets ReadyForQuery alone, which the standard does not allow |
| ReplyLaws.EmptyExecuteIsUntagged | cmd/execdb/pgextended.go:698-706 | the Execute of an empty statement gets a completion with an empty tag, which it does not allow either |
| LifeLaws.StaysAlive | cmd/execdb/pgextended.go:383-490 | iff: the loop ends exactly at Terminate, at a Bind value reached without a format code among two or more, at a described statement with more parameters than there is room for, or at fewer format codes than columns, two or more |
| LifeLaws.ArgsOutcome | cmd/execdb/pgextended.go:263-293 | iff: when a Bind's values are all taken, and when one is reached whose format code is missing |
| LifeLaws.LargePlaceholderIsFatal | cmd/execdb/pgextended.go:425 | Parse and Describe of `SELECT $n`, n an int beyond that room: the first is answered, the second ends the loop |
| PromiseLaws.PromiseKept | cmd/execdb/pgextended.go:677-691 | an Execute's rows have the OIDs the client was last told, after a portal Describe the formats too, whatever the query returns; a field reads as its value or NULL or text, except iff its column is binary and the encoder does not take the value |
| PromiseLaws.RunInStep | cmd/execdb/pgextended.go:399-490 | over every run the server's caches hold what the messages alone told the client |
| PromiseLaws.RunKeepsPromise | cmd/execdb/pgextended.go:641-715 | so the promise is kept after every conversation |
| PromiseLaws.TextUnderBinary | cmd/execdb/pgtype.go:182-214 | a text in a portal's int8 column announced as binary goes out as text |
| DeliveryLaws.RowsDelivered | cmd/execdb/pgwire.go:455-480 | success iff the iteration is sound and every row fits; rows come in order, value by value |
| DeliveryLaws.ExecuteDelivers | cmd/execdb/pgextended.go:661-715 | a successful Execute has SQLite run the text on the bound values and sends all rows of that call and no other, counted, or the completion with the rows it affected |
| DeliveryLaws.ExecuteSendsAs | cmd/execdb/pgextended.go:665-697 | its rows are for the types promised, or else found, in the formats asked for, and read well in them |
| DeliveryLaws.QueryDelivers | cmd/execdb/pgwire.go:412-447 | so does a statement of a Simple Query, all as text, after the RowDescription of the result's types |
| DeliveryLaws.QuerySendsAs | cmd/execdb/pgwire.go:434-480 | its rows are for the columns announced in front of them |
| DeliveryLaws.BindBinds | cmd/execdb/pgextended.go:249-302 | iff: when a Bind succeeds; the portal then holds what each value means, NULL, text or binary of the declared type, by the format code asked for, and no other portal changes |
| DeliveryLaws.BindThenExecute | cmd/execdb/pgextended.go:249-715 | Bind then Execute: SQLite runs the statement on what the client's values mean, the session is that call's, and a successful answer is what the call gave |
| DeliveryLaws.BatchSendsInOrder | cmd/execdb/pgwire.go:369-408 | SQLite gets a prefix of a query's statements, unchanged and in order, and all of them if no error is answered |
| Import.Importer.RunImport | cmd/execdb/import.go:103-119 | savepoint, rows, and keeping or undoing them |
| Import.Importer.RunInserts | cmd/execdb/import.go:121-160 | the row loop up to the first record that cannot be read, counted or inserted |
| Import.PutAllInserts | cmd/execdb/import.go:121-160 | inside a transaction it changes the contents to exactly the first n records inserted, n being all iff it succeeds |
| Import.PutAllSucceeds | cmd/execdb/import.go:136-159 | iff: the row loop gets through exactly if every record can be read and has a value for each column, SQLite takes each after those before it, and no call fails, one a record |
| Import.ImportSucceeds | cmd/execdb/import.go:103-160 | iff: an import succeeds exactly if so, and savepoint, compilation and release do not fail |
| Import.ImportInsertsAll | cmd/execdb/import.go:103-119 | success: exactly all records are in, and an enclosing transaction is as it was, or else they are committed |
| Import.ImportRestoresExactly | cmd/execdb/import.go:103-119 | failure: the session is as it was iff the clean-up commands that matter got through |
| Bytes.MostSignificantFirst | cmd/execdb/pgtype.go:251-255 | byte k of a big-endian number is its digit in base 256 from the top |
| Bytes.TopBitIsSign | cmd/execdb/pgtype.go:303-318 | signed reading: the top bit says whether the number is negative |
| Wire.FrameRoundTrip | cmd/execdb/pgproto.go:79-97 | iff: a message is read back, with what follows it untouched, exactly if its length fits an int32 |
| Wire.StreamRoundTrip | cmd/execdb/pgproto.go:277-288 | messages written back to back are read back as that list, consuming exactly their bytes |
| Wire.WriteMessage | cmd/execdb/pgproto.go:277-288 | type, length and body, readable again |
| Wire.Stream.ReadFrontendMessage | cmd/execdb/pgproto.go:79-97 | one message off the stream, or failure on a short or negative length |
| Wire.ScanCString | cmd/execdb/pgproto.go:63-70 | the text up to the first NUL and the position behind it, or failure |
| Wire.ParseParseMessage | cmd/execdb/pgextended.go:157-180 | the index loop decodes what the format says |
| Wire.ParseBindMessage | cmd/execdb/pgextended.go:311-370 | the three counted lists likewise; a negative length is NULL |
| Wire.ParseRoundTrip | cmd/execdb/pgextended.go:157-180 | decoding inverts encoding, whatever follows |
| Wire.ParseRoundTripOnlyIf | cmd/execdb/pgextended.go:157-180 | iff the texts hold no NUL and the count fits its field |
| Wire.BindRoundTrip | cmd/execdb/pgextended.go:311-370 | decoding inverts encoding; NULL and the empty value stay apart |
| Wire.BindRoundTripOnlyIf | cmd/execdb/pgextended.go:311-370 | iff the names hold no NUL and the three counts fit their fields |
| Wire.MsgBuilder.AddValues | cmd/execdb/pgproto.go:185-193 | NULL as -1, others with their length |
| Wire.WriteDataRow | cmd/execdb/pgproto.go:182-195 | a reader of the row gets its values back |
| Layout.ReadStartupParams | cmd/execdb/pgproto.go:37-61 | the loop reads the pairs up to an empty name, or fails on one cut short |
| Layout.ParamsRoundTrip | cmd/execdb/pgproto.go:37-61 | what was written before the first empty name is read back, whatever follows the final NUL |
| Layout.LastValueStays | cmd/execdb/pgproto.go:46-59 | a name given twice has its last value |
| Layout.WriteRowDescription | cmd/execdb/pgproto.go:160-177 | a reader gets back names, OIDs and formats |
| Layout.WriteParameterDescription | cmd/execdb/pgproto.go:240-247 | a reader gets the OIDs back iff there are fewer than 65536 |
| Layout.AnnouncedSizeIsReal | cmd/execdb/pgtype.go:64-73 | the size announced for a type is that of every value sent in binary |
| Layout.SizeAnnouncedIffFixed | cmd/execdb/pgtype.go:64-73 | iff: a size is announced for exactly the types sent in binary with only one; -1 for the others |
| PgTypes.EncodeBinaryInt8 | cmd/execdb/pgtype.go:251-255 | eight bytes that decode to the value |
| PgTypes.EncodeBinaryTimestamp | cmd/execdb/pgtype.go:357-361 | eight bytes that decode to the whole microseconds |
| PgTypes.MicrosRoundTrip | cmd/execdb/pgtype.go:335-345 | iff: a timestamp decoded and encoded is unchanged exactly within the stated bound |
| PgTypes.NanosRoundTrip | cmd/execdb/pgtype.go:357-361 | iff: encoded and decoded it is truncated toward 2000-01-01, exactly if the microseconds are within the bound |
| PgTypes.EncodeThenDecode | cmd/execdb/pgtype.go:222-249 | what can be encoded has a binary-capable OID and decodes to itself or its normal form |
| PgTypes.DecodeThenEncode | cmd/execdb/pgtype.go:286-349 | iff: what decodes encodes to the same bytes, but for odd truth values and far timestamps |
| PgTypes.DecodesIff | cmd/execdb/pgtype.go:286-349 | iff: which OIDs decode from which number of bytes |
| PgTypes.EncodesIff | cmd/execdb/pgtype.go:222-249 | iff: which values encode under which OIDs |
| PgTypes.DecodedOnly | cmd/execdb/pgtype.go:286-328 | int2 and int4 decode as signed, oid as unsigned, float4 widened, text and bytea as their bytes; bool is false exactly for 0 |
| PgTypes.ReadsAsAnnounced | cmd/execdb/pgtype.go:182-214 | iff: a value reads as announced exactly if the column is text, the value NULL, or the binary encoder takes it |
| DotCommand.SplitDotCommandArgs | cmd/execdb/dotcmd.go:39-105 | the loops split a line as the reading of its characters says |
| DotCommand.SplitMeans | cmd/execdb/dotcmd.go:28-105 | a line splits into exactly the words written on it, each part bare, behind a backslash, in single or in double quotes, any blanks between and around |
| DotCommand.PrintThenSplit | cmd/execdb/dotcmd.go:28-105 | any non-empty list of strings, quoted and joined, splits into itself |
| DotCommand.SplitFails | cmd/execdb/dotcmd.go:39-105 | iff: it fails exactly on an open quote or a line of blanks |
| Image.WriteFooter | engine/footer.go:100-107 | the buffer filled in place is the footer |
| Image.FooterFields | engine/footer.go:98-107 | the bytes of the footer, field by field |
| Image.FooterIsSound | engine/footer.go:79-96 | iff: despite wrapping sums, accepted exactly when the unbounded sum is the file size and the fields are in range |
| Image.FooterRoundTrip | engine/footer.go:79-107 | iff: decoding gives back offset, length and version, exactly for a file of that size with at most 1 GiB of data |
| Image.ImageRoundTrip | engine/persist.go:126-135 | a written image gives back its data and engine, whatever the engine bytes look like, or is corrupt beyond 1 GiB |
| Image.LoadFrom | engine/persist.go:297-321 | the slice is in range and is the blob |
| Disk.OverwriteSelf | engine/persist.go:234-254 | whatever fails and wherever it stops, a complete old or new image is there; success leaves the new one, a restored failure the old one |
| Disk.CleanupOrphan | engine/persist.go:259-261 | the sidecar is removed, nothing else |
| Disk.CleanupKeepsImageIff | engine/persist.go:259-261 | iff: an image outlives the clean-up of the next start exactly if the self path holds one |
| Disk.StoppedWriteThenCleanup | engine/engine.go:116-123 | after a stop in mid-write it need not |
| Disk.WriteParts | engine/persist.go:126-135 | engine, data and footer one after the other, iff there is room for each |
| Disk.WriteImageAtomic | engine/persist.go:140-161 | at every moment the old file or the whole new one; on failure the old |
| Persist.Database.Open | engine/engine.go:88-157 | fails iff the footer is corrupt or SQLite does not take the blob; else engine bytes and contents are those of the file, or empty |
| Persist.Database.ReadEnginePrefix | engine/persist.go:109-124 | the first bytes of the source, or failure on a short file |
| Persist.Database.Snapshot | engine/persist.go:21-60 | iff: it succeeds exactly if the source gives the engine prefix, the temporary name is free, and creating, each of three writes, closing and renaming get through; the file is then engine, data, footer, and else no file but the temporary one differs; the source stays intact at every moment |
| Persist.Database.Load | engine/persist.go:279-291 | iff: it succeeds exactly on a file whose footer shows data that SQLite takes; contents and info are then the file's, and else stay |
| Persist.Database.LoadBuffer | engine/persist.go:297-345 | iff: likewise for bytes; source and engine size stay |
| Persist.Database.Overwrite | engine/persist.go:174-206 | iff: it succeeds exactly if the executable's file is not corrupt, can be moved aside, and there is room for the new one; the data then stands behind its own engine bytes; at every moment the old image or such a one is there, and no third file changes |
| Persist.Database.RunOps | engine/persist.go:47-62 | through any sequence of operations and faults the engine bytes at the source never change, and every image saved carries them and nothing more |
| Persist.ReopenedCarriesSameEngine | engine/engine.go:129-157 | an image opened and saved again has the same engine: generations do not nest |
| Barrier.SnapshotIsCommittedState | engine/persist.go:64-103 | in every interleaving a returned blob is a committed state of a moment between call and return |
| Barrier.BarrierIsInert | engine/persist.go:74-103 | the barrier's steps change neither contents nor committed state |
| Barrier.LockHolds | engine/persist.go:86-89 | while it holds the lock, nothing any other session or call does writes or commits |
| Barrier.LiveStore.SerializeBarrier | engine/persist.go:74-103 | amid any steps of others it succeeds iff the lock was free and the blob is not empty; the blob is what was committed when it got the lock, and still is when it returns; the call is over in either case and holds no lock |
| Barrier.SessionsTakeTurns | engine/persist.go:64-73 | what a session writes stays uncommitted and untouched whatever others do, until its own commit commits just that |
| Barrier.BareSerializeTears | engine/persist.go:64-71 | without the barrier a blob need never have been committed |
| Cancel.CancellationIsScoped | cmd/execdb/pgcancel.go:57-77 | in every interleaving a request cancels only a query registered, when read, on the connection with that key; a watcher only before its stop returned; clean-up only after the end |
| Cancel.QueriesStartUncancelled | cmd/execdb/pgwire.go:137-143 | no query starts cancelled, and no request already holds it |
| Cancel.StoppedWatcherIsGone | cmd/execdb/pgwire.go:241-262 | after stop has returned a watcher does nothing to any query |
| Cancel.WatcherCancels | cmd/execdb/pgwire.go:244-254 | a watcher that has decided to call cancel does cancel its query once it gets its turn, whatever else happens |
| Cancel.WokenDecides | cmd/execdb/pgwire.go:247-253 | iff: a watcher that is woken goes on to cancel exactly if stop has not been called |
| Cancel.RequestCancels | cmd/execdb/pgcancel.go:70-77 | in any state reached, an undisturbed request cancels exactly the query registered under its key, if there is one |
| Cancel.RunningIsCancelled | cmd/execdb/pgcancel.go:57-77 | over every run, as long as a query has not ended an undisturbed request with the key of its connection cancels it, and no other |
| Cancel.HandlingEnds | cmd/execdb/pgwire.go:136-147 | stop, end and cancel leave the connection idle and unregistered, the watcher gone without cancelling |
| Cancel.LiveKeysAreDistinct | cmd/execdb/pgcancel.go:97-113 | over every run, each connection registered and not yet unregistered is the one found under its key, so no two share one |
| Cancel.UsedKeyTakesEntry | cmd/execdb/pgcancel.go:101-106 | with a key in use instead of a fresh one, the connection that has it would be lost |
| Registry.ConnCancel.Begin | cmd/execdb/pgcancel.go:57-60 | the field is set as the protocol's step does it |
| Registry.ConnCancel.End | cmd/execdb/pgcancel.go:61-65 | and cleared |
| Registry.CancelRegistry.Register | cmd/execdb/pgcancel.go:97-108 | the first unused key drawn, with a fresh entry, as the protocol's step does it |
| Registry.CancelRegistry.Unregister | cmd/execdb/pgcancel.go:108-113 | exactly that entry is gone |
| Registry.CancelRegistry.Cancel | cmd/execdb/pgcancel.go:147-155 | reports whether the key is live, and cancels the current query of that connection and no other |

## Left out

- Real SQLite, `database/sql`, the Backup and Serialize calls: `Sqlite.Env` and the oracle stand for them.
- Effects of other sessions on a connection's data while it works; `Barrier` treats them for snapshots.
- Busy timeouts: waiting for a lock ends in success or refusal.
- What a cancelled query returns: an arbitrary failing call.  Cancelling while rows are sent is a broken iteration.
- UTF-8: SQL texts are sequences of characters, and bytes that are not UTF-8 do not occur in them; what a message body (`Wire`) says as a message of the connection (`Protocol.Request`) is a parameter of `ByteLoop`.
- `handleCancelRequest`, which asks for a list of the declared length less 8 before any loop runs, negative lengths included: `LifeLaws` is about the loop alone.
- `cStringFromBody`, startup codes, TLS and authentication, and errors when writing to the socket.
- Column names, `columnOID` with its type affinities, command tags beyond keyword and count, error texts and SQLSTATE codes.
- Command tags: the standard's tag for INSERT, UPDATE or DELETE with RETURNING is not the SELECT the program sends; the grammar looks at empty tags only.
- Running out of memory for lists that the Go runtime would make.
- A crash of the whole machine: the program never flushes what it writes, and `Disk` covers a process that stops.
- Execute's row limit, which the program reads and ignores.
- The SET and SHOW patterns and the pg_catalog rewriting: parameters of `Connection.World`.
- The texts values are sent as, and the widening of four-byte floats, which is a parameter; a float is its 64-bit pattern.
- Output modes, dot-commands other than their word splitting, prompts, signals.
- File modes, symbolic links, the name CreateTemp picks, `go run` detection, `SnapshotTo`.
- Agreement of the lexer with SQLite's own tokenizer (backticks, brackets): only the repository's loops are compared.
- Barrier.LiveStore.SerializeBarrier: runs against a recorded schedule of other sessions' steps instead of true concurrency, and getting a connection from the pool always works.
- Registry.CancelRegistry.Cancel: as one method it is stated for the undisturbed case; the interleaved one is what `Cancel` is about.
- Persist.Database.RunOps: excludes a database opened from the sidecar of its own executable, and a self-overwrite that fails after moving the executable aside and cannot move it back, since the source file is then missing.
- TransactionLaws.RunKeepsAgreement: excludes the savepoint commands `StatementKeepsAgreement` shows to break it, and a Describe outside of a transaction whose clean-up fails.
- DeliveryLaws.ExecuteDelivers: speaks of values; how each goes out is said by `ExecuteSendsAs` and `PgTypes`, its bytes by `Wire`.
