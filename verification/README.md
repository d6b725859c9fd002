# A verified model of the database MCP server

The server lets MCP clients read and change MySQL and ClickHouse sources. Raw SQL is cut into
statements, classified and turned into a plan; typed schema requests are printed as SQL and take
the same way. A policy decides whether a plan runs at once or must first be previewed and
confirmed with a hash; an executor then runs it, in one transaction or statement by statement.
This project models that path in Dafny, with the two smaller readers of database metadata and the
ownership of connections, and proves what the code promises along it.

| file | what it holds |
|---|---|
| `Text.dfy`, `SortedStrings.dfy` | white space, trimming, joining, decimal numbers; Go's string order and sorting |
| `SqlLexer.dfy` | the lexical grammar behind the splitter: every text has exactly one reading |
| `Splitter.dfy`, `SplitterTheory.dfy` | the two scanners as loops, proved against the grammar; what splitting guarantees |
| `Characters.dfy` | grammar, scanners, trimming and identifiers by code point |
| `Identifier.dfy`, `Operation.dfy`, `OperationTheory.dfy` | the typed printers, and the shape of what they print |
| `RequestReader.dfy` | a reader of printed SQL that gives every request back; which requests are accepted |
| `TypedPipeline.dfy` | build, join with `"; "`, split: the identity |
| `SqlPlan.dfy` | classification, risk, plans |
| `Json.dfy`, `JsonReader.dfy`, `Preview.dfy` | encoded JSON and a reader that gives every value back; the envelope, the preview, the decision |
| `Execution.dfy` | the executor on a database with durable and in-transaction state |
| `Service.dfy`, `ServiceTheory.dfy`, `Server.dfy` | the handlers, runs of requests, the server object |
| `ReplyTheory.dfy` | the exact reply to every call, and the work it stands for |
| `ClickHouseTypes.dfy`, `IndexGrouping.dfy` | nullable ClickHouse types; grouping index rows |
| `Registry.dfy` | sources opened, owned, closed |
| `SelectGuard.dfy` | the guard of read-only MySQL statements |

## How it is modelled

Loops and objects that change state are methods and classes, each proved against a function or a
relation; theorems are lemmas about those functions. Errors are results with a small reason tag.
Where a theorem would hold of other characters, texts, limits or flags as well, a second statement
says which they are without the function's own name: by code point, by reading the printed text
back, or by an if-and-only-if over the raw call.

A text is a sequence of code points. Requests arrive as decoded JSON, so the source's byte strings
are valid UTF-8; the scanners compare bytes only with ASCII characters, which never occur inside a
longer UTF-8 sequence, so scanning bytes and scanning code points agree. Trimming follows Go's
`unicode.IsSpace` exactly.

Parameters of the model stand for code that is not part of it:

- `classify` is the dialect parser and classifier of one statement. `TypedCallsAreConfirmed`,
  `QuickUnconfirmedIsMild` and, for typed calls, `QuickExactly` assume of it that text beginning
  with `CREATE `, `DROP `, `ALTER ` or `RENAME ` is DDL or refused (`SchemaTextIsDDL`).
- `hash` is the preview hash. The protocol results assume that it has no collisions and is never
  empty (`IsSoundHash`).
- `Driver` answers every database call. The answer may depend on the state and on how many calls
  came before, so every pattern of failures is covered. A statement or a commit that reports an error
  may have been carried out all the same, a statement also in part.
- A caller presents only hashes that the server has shown (`HonestRun`).

## What the code does that a reader may not expect

- After `/` the search for the end of a block comment starts at the `*` of its opening mark, so
  `/*/` is a whole comment (internal/sqlguard/splitter.go:44-47, 86-90).
- `--` opens a comment before one of five blanks or at the end of the scanned text, but not before
  `;`. A cut-out group that ends in `--` therefore reads as a comment although the whole text did
  not. `CompositionExact` shows that this is the one unfinished end that is harmless.
- Re-splitting a returned statement is not always stable: trimming removes white space that the
  has-code scan counts as code. `ResplitUnstable` gives two inputs (a vertical tab alone, and two
  minus signs before one), `ResplitExact` says exactly when it is stable, and `ResplitStable`
  that inputs without such white space always are.
- A preview can be confirmed and still never run. A batch with a read in it, such as
  `SELECT 1; INSERT INTO t VALUES (1)`, passes `execute_sql` because not all of it is read-only, is
  previewed and its confirmation accepted; the executor then refuses it
  (internal/tools/service.go:168, internal/execution/executor.go:119-123, `MixedBatchNeverRuns`).
  So does a batch with parameters, which the documentation accepts for single statements only
  (internal/execution/executor.go:79-81, `ParameterBatchNeverRuns`). `RefusedExactly` shows that
  these are the only two cases for a plan on a connected source.
- A plan that fails part way leaves its successful statements in place on the sequential path, but
  their results are dropped: the caller gets the error alone (internal/tools/service.go:182-185,
  274-277, `Serve`).
- A mismatching confirmation is answered with a fresh preview and its hash, so mismatches are
  disclosures too (internal/tools/service.go:302-303).
- The wrapper of a ClickHouse type is found by counting parentheses, inside quotes too. A label
  such as `a)` in `Nullable(Enum8('a)' = 1))` closes the Enum8 too early, and the column is
  reported as not nullable (internal/database/clickhouse.go:111-113). `NullableExact` gives the
  condition, `NullableMissed` and `NullableImagined` whole families of misread types, and
  `NullableWhenLiteralsClose` the types that are safe.
- The check for zero statements after splitting can never fire (internal/sqlguard/splitter.go:106-108),
  nor can the test for a negative depth (internal/database/clickhouse.go:112).

## Model

| member | source | states |
|---|---|---|
| SqlLexer.LexSound | internal/sqlguard/splitter.go:23-93 | every text is read as well-formed quoted literals, comments, semicolons and other characters whose text is the input |
| SqlLexer.LexUnique | internal/sqlguard/splitter.go:23-93 | no other list of well-formed lexemes has that text: the lexical grammar is unambiguous |
| Characters.LexemeByCode | internal/sqlguard/splitter.go:30-47 | which lexeme starts, by code point: 59 a semicolon, 34, 39 and 96 a literal, 35 or two 45 with a blank or the end a line comment, 47 with 42 a block comment |
| Characters.DashCommentByCode | internal/sqlguard/splitter.go:112-125 | two minus signs before a character open a comment exactly when it is one of 9, 10, 12, 13, 32; at the end they do |
| Characters.LineCommentByCode | internal/sqlguard/splitter.go:82-85 | a line comment goes on to the first 10 or 13, or to the end |
| Characters.BlockCommentByCode | internal/sqlguard/splitter.go:86-91 | a block comment ends at the first star and slash, where the star may be the one that opened it, or runs to the end |
| Characters.PairsByCode | internal/sqlguard/splitter.go:53-72 | inside a literal a backslash with any character, and a doubled quote, never end it |
| Characters.LiteralByCode | internal/sqlguard/splitter.go:52-81 | without a backslash a literal ends at its first single quote character, or runs to the end |
| Splitter.SplitStatementGroups | internal/sqlguard/splitter.go:23-110 | the scanning loop cuts exactly at the semicolon lexemes of that reading and accepts, trims and refuses groups as specified, for every input |
| Splitter.ScanNormal | internal/sqlguard/splitter.go:30-47 | the state entered from the normal state is the one of the lexeme that starts here |
| Splitter.ScanLiteral | internal/sqlguard/splitter.go:52-81 | one pass inside a literal, with its backslash and doubled-quote skips, stays exactly inside the literal of the grammar |
| Splitter.ScanComment | internal/sqlguard/splitter.go:82-91 | one pass inside a comment stays exactly inside the comment of the grammar |
| Splitter.StartsLineCommentAt | internal/sqlguard/splitter.go:112-125 | the lookahead decides whether the rest of the text starts with a line comment |
| Splitter.CollectStatements | internal/sqlguard/splitter.go:95-110 | success exactly when every group has code but for a blank last one; the results are the trimmed groups in order |
| Splitter.StatementGroupHasCode | internal/sqlguard/splitter.go:127-162 | true exactly when the reading of the group has a lexeme that is neither one of five blanks nor a comment |
| Characters.CodeByCode | internal/sqlguard/splitter.go:127-162 | a text has code unless it is made of comments and of the characters 9, 10, 12, 13, 32 |
| Characters.TrimByCode | internal/sqlguard/splitter.go:98 | exactly the characters of `unicode.IsSpace`, listed by number, are trimmed, at either end |
| Characters.SplitExact | internal/sqlguard/splitter.go:95-110 | splitting succeeds if and only if every group has code, a white last one after others aside; the statements are the trimmed groups without that one |
| Characters.FinalSemicolon | internal/sqlguard/splitter.go:95-108 | a final semicolon and blanks after it change nothing |
| SplitterTheory.RawGroupsJoin | internal/sqlguard/splitter.go:24-93 | the raw groups joined by `;` are the input again, for every input |
| SplitterTheory.SplitDropsNothing | internal/sqlguard/splitter.go:95-109 | at least one statement; statements are the trimmed groups with code in order; at most one group is missing, the last, and it is blank |
| SplitterTheory.CompositionExact | internal/sqlguard/splitter.go:28-93 | splitting `a;b` is splitting `a` and `b` for all `b` if and only if `a` ends in the normal state or in a bare final `--` |
| SplitterTheory.JoinRecovered | internal/sqlguard/splitter.go:28-93 | any pieces that stand alone are recovered from their `;`-join |
| SplitterTheory.RawGroupsExact | internal/sqlguard/splitter.go:28-93 | a list is the raw groups if and only if its pieces stand alone and join to the input |
| SplitterTheory.PieceStandsAlone | internal/sqlguard/splitter.go:48-50 | a cut-out piece has no cut when scanned alone although its end is seen differently, and a cut follows a safe end |
| SplitterTheory.ResplitExact | internal/sqlguard/splitter.go:95-109 | splitting a returned statement gives it back alone if and only if it still has code, and is refused otherwise |
| SplitterTheory.ResplitStable | internal/sqlguard/splitter.go:52-109 | on inputs whose only white space is the five blanks every returned statement is a fixed point of splitting |
| SplitterTheory.ResplitUnstable | internal/sqlguard/splitter.go:98-133 | concrete inputs on which re-splitting fails |
| SplitterTheory.TrimSealed | internal/sqlguard/splitter.go:98 | trimming never exposes a semicolon that was inside a literal or comment |
| Characters.IdentifierByCode | internal/database/identifier.go:11-37 | the identifiers by code point |
| Identifier.ValidateIdentifier | internal/database/identifier.go:11-22 | accepts exactly the non-empty identifiers of ASCII letters, digits and underscores not starting with a digit |
| Operation.QuotedColumns | internal/operation/validate.go:20-39 | the loop with its `seen` map reports the first problem or the quoted names |
| Operation.BuildColumns | internal/operation/validate.go:147-165 | the loop reports the first problem or the printed columns |
| Operation.PrefixColumns | internal/operation/mysql.go:43-45 | the in-place loop puts the keyword before every item |
| Operation.BuildStatements | internal/operation/mysql.go:14-137 | prints what the specification of each operation says, in both dialects |
| OperationTheory.ColumnsAccepted | internal/operation/validate.go:147-165 | a column list is accepted if and only if it is non-empty with distinct valid names and valid types; its items are printed in order, without special characters |
| OperationTheory.NamesAccepted | internal/operation/validate.go:20-39 | a name list is accepted if and only if it is non-empty with distinct valid names |
| OperationTheory.BuildPrintsShapes | internal/operation/clickhouse.go:14-101 | every accepted request of either dialect prints harmless literal text alternating with quoted identifiers |
| RequestReader.ColumnIsRead | internal/operation/validate.go:48-145 | a reader of printed columns gives kind, length, precision, scale and nullability back, each from its own place |
| RequestReader.NullabilityShown | internal/operation/validate.go:96-100 | MySQL text ends in ` NOT NULL`, and ClickHouse text lacks `Nullable(`, if and only if the column is not nullable |
| RequestReader.MySQLTypeAccepted | internal/operation/validate.go:54-94 | the nine MySQL types with their limits, as an if-and-only-if |
| RequestReader.ClickHouseTypeAccepted | internal/operation/validate.go:109-140 | the seven ClickHouse types with their limits, as an if-and-only-if |
| RequestReader.ColumnTypeInjective | internal/operation/validate.go:48-145 | the printed type determines every other field of the column in either dialect |
| RequestReader.RequestIsRead | internal/operation/mysql.go:14-137 | a reader of SQL gives the request back from the built statements: operation, names in their roles, columns, flags, and the engine clause on ClickHouse only |
| RequestReader.RequestAccepted | internal/operation/clickhouse.go:14-101 | which requests each dialect accepts; unsupported are exactly indexes and copies on ClickHouse |
| RequestReader.BuildInjective | internal/operation/mysql.go:14-137 | two accepted requests, of any operations and sizes, that build the same SQL in a dialect are the same request |
| TypedPipeline.CleanIsSolid | internal/database/identifier.go:24-29 | a built statement closes all its literals, has no cut and has code, and trimming leaves it alone |
| TypedPipeline.SplitJoined | internal/tools/service.go:267 | splitting the `"; "`-join of such statements gives back exactly these |
| TypedPipeline.BuildJoinSplit | internal/tools/service.go:259-267 | for every accepted request, splitting the joined SQL succeeds and returns the built statements in order |
| TypedPipeline.JoinedTextInjective | internal/tools/service.go:259-267 | the joined text determines the request |
| TypedPipeline.BuildLeadsWithSchemaKeyword | internal/operation/mysql.go:14-137 | the first statement begins with CREATE, DROP, ALTER or RENAME |
| SqlPlan.MakePlan | internal/sqlguard/analyzer.go:7-18 | high risk if and only if a statement is DDL or lacks a required WHERE; read-only if and only if all are |
| SqlPlan.AnalyzeStatements | internal/sqlguard/mysql.go:27-46 | at most 50 pieces, each classified, or refused |
| SqlPlan.AnalyzeCoversInput | internal/sqlguard/clickhouse.go:15-34 | an accepted plan covers the whole input: its statements are the trimmed raw groups in order, a blank last one aside |
| SqlPlan.AnalyzeExact | internal/sqlguard/mysql.go:27-46 | an analysis succeeds if and only if the text splits into at most fifty pieces and each is classified; the plan is these pieces |
| JsonReader.CharactersAreRead | internal/execution/preview.go:55 | a string literal is read back by the rules of section 7 of RFC 8259, whatever its characters and whatever follows |
| JsonReader.EscapedByCode | internal/execution/preview.go:55 | which characters are escaped, by code point, with the five that only Go escapes |
| JsonReader.ValueIsRead | internal/execution/preview.go:55 | an RFC 8259 reader gives every encoded value back: null, booleans, integers, strings, arrays, objects |
| JsonReader.FieldsAscend | internal/execution/preview.go:55 | an encoded object has all its fields, in ascending order of their keys |
| JsonReader.EncodeInjective | internal/execution/preview.go:55 | no two values share a text, even at the front of longer ones |
| Preview.EnvelopeIsRead | internal/execution/preview.go:47-55 | the hashed text read as JSON: the six fields in their order, each under its own name |
| Preview.EnvelopeInjective | internal/execution/preview.go:13-20 | equal bytes force equal source, tool, statement list with its boundaries, parameters, risk and atomicity |
| Preview.CollectCanonicalSQL | internal/execution/preview.go:70-84 | the trimmed normalized statements, or the reason there are none |
| ReplyTheory.ShownExactly | internal/execution/preview.go:26-40 | a job can be shown if and only if it has statements, none of which is white when normalized, and its source and tool have names |
| ReplyTheory.ArtifactShows | internal/execution/preview.go:61-67 | an artifact shows the trimmed normalized statements; it is atomic exactly for writes on a source with atomic batches, high-risk exactly when the plan is or a batch is not atomic; its hash covers these |
| Preview.HashBindsIntent | internal/execution/preview.go:26-68 | two intents get the same hash if and only if every bound field agrees, parameters up to nil or empty and statements up to surrounding white space |
| Execution.Database.ExecuteStatements | internal/execution/executor.go:146-154 | the statement loop: state, results, calls made, and nothing after a failure |
| Execution.Database.ExecuteAtomically | internal/execution/executor.go:139-159 | state, reply and driver calls of a transactional execution |
| Execution.Database.ExecuteSequentially | internal/execution/executor.go:161-169 | state, reply and driver calls of a statement-by-statement execution |
| Execution.Database.ExecutePlan | internal/execution/executor.go:75-97 | validation, refusal of parameters for several statements, and the choice of path |
| Execution.Database.Query | internal/execution/executor.go:53-70 | a query is one driver call with its statement and parameters, and none without a connection |
| Execution.SequentialLeavesLongestPrefix | internal/execution/executor.go:161-169 | the durable state is what the one failed statement left of the state after the longest successful prefix, and is that state if and only if nothing failed or the failed statement changed nothing; results are numbered from 0 and report what the driver answered to their statement; no statement is tried after a failure |
| Execution.AtomicAllOrNothing | internal/execution/executor.go:139-159 | for any failures, and whatever a failed statement leaves behind, the durable state is the initial one or the one after all statements; success means all; only an unacknowledged commit reports an error with everything applied; which error, and results that report the driver's answers |
| Execution.ParametersComeFirst | internal/execution/executor.go:146-195 | the calls of an execution are the normalized statements in order, the parameters with the first one only |
| Execution.WritesRunAtomically | internal/execution/executor.go:92-104 | a plan of writes on a source with atomic batches runs in one transaction: with all its statements and an accepted commit the durable state is the final one, else the initial one |
| Execution.OthersRunInSequence | internal/execution/executor.go:92-104 | with a DDL statement, or without atomic batches, a plan runs statement by statement and leaves what its longest successful prefix and the failed statement left |
| Execution.LongestRunExists | internal/execution/executor.go:146-154 | every execution has such successive states |
| Execution.PathsAgree | internal/execution/executor.go:92-96 | when the statements of a run do the same on both paths, results and calls agree; the atomic path succeeds if and only if the sequential one does and begin and commit are accepted; then the states agree |
| Service.HandleQuery | internal/tools/service.go:128-152 | exactly one read-only statement, then the policy |
| Service.HandleExecuteSQL | internal/tools/service.go:162-189 | no read-only plan; the risk override for migrations and several statements; then the policy |
| Service.HandleOperation | internal/tools/service.go:253-282 | build, join, analyse, refuse read-only plans, then the policy |
| ReplyTheory.ReplyIsOfCall | internal/tools/service.go:128-282 | the work shown or let through is that of the call: the source named, the parameters given, the trimmed raw groups of the text or the statements built in the dialect of its engine, each classified for that engine |
| ReplyTheory.EventsAreOfRequests | internal/tools/service.go:128-282 | over every run each disclosure and each start comes from a request of the run with that source, tool, text, parameters and confirmation |
| ReplyTheory.RawCallExact | internal/tools/service.go:128-180 | which raw calls are turned away before the policy, and for which reason, as a complete case distinction |
| ReplyTheory.TypedCallExact | internal/tools/service.go:253-270 | the same for typed calls |
| ReplyTheory.QuickExactly | internal/execution/policy.go:27-40 | in quick mode an unconfirmed call is let through if and only if it is no migration and has one statement, not DDL and with the WHERE it requires; otherwise it is shown for confirmation |
| ReplyTheory.StrictExactly | internal/execution/policy.go:27-40 | in strict mode every unconfirmed call is shown for confirmation |
| ReplyTheory.ConfirmedExactly | internal/execution/policy.go:30-35 | a confirmed call is let through if and only if its hash is that of its own preview; otherwise it is answered with the preview as a mismatch |
| ReplyTheory.RejectedExactly | internal/execution/policy.go:15-25 | a call is turned away if and only if it has no work, its work cannot be shown or the mode is unknown; with which reason |
| ReplyTheory.StepExecutes | internal/tools/service.go:145-182 | one step: accepted work changes the connection of its source as a query or a plan does, and is recorded; any other reply leaves every connection alone |
| ReplyTheory.QueryIsSent | internal/tools/service.go:145-151 | an accepted query is one driver call with its normalized text and the parameters of the call |
| ReplyTheory.UnconnectedSendsNothing | internal/execution/executor.go:53-84 | without a connection nothing is sent, whatever the work |
| ServiceTheory.PresentedHashWasPreviewed | internal/execution/policy.go:30-35 | a confirmation whose hash was disclosed and fits the job comes after a preview with the same bound fields |
| ServiceTheory.StepKeepsPreviews | internal/execution/policy.go:15-40 | every request step keeps the invariant that executions follow their previews |
| ServiceTheory.RunsArePreviewed | internal/execution/policy.go:15-40 | over every run, each execution that is high-risk, in strict mode or a confirmation comes after a disclosed preview with the same source, tool, trimmed statements, parameters, risk and atomicity |
| ServiceTheory.FreshRunsArePreviewed | internal/execution/policy.go:15-40 | the same from a server that has shown nothing |
| ServiceTheory.RunsChangeByExecution | internal/tools/service.go:182 | a source's state, or what was sent to it, differs after a run only if the run started work on that source |
| ServiceTheory.ChangesArePreviewed | internal/execution/policy.go:27-40 | at every step of every run: a change of a source's state, or anything sent to it, reads included, comes from work started on it by that step, and a preview with the same bound fields came before when the work is high-risk, in strict mode or a confirmation |
| ServiceTheory.TypedPlanIsBuilt | internal/tools/service.go:259-270 | the plan of a typed call is exactly the built statements |
| ServiceTheory.TypedCallsAreConfirmed | internal/tools/service.go:253-282 | typed operations never run unconfirmed, in any mode |
| ServiceTheory.QuickUnconfirmedIsMild | internal/tools/service.go:128-189 | in quick mode what is accepted unconfirmed is one read through `query`, or one statement through `execute_sql` that is not DDL, has the WHERE its kind requires and is a write if the executor takes it |
| ServiceTheory.QuickRunsAreMild | internal/tools/service.go:128-189 | over every run in quick mode, all unconfirmed work is of that kind, and a statement of `execute_sql` that was sent is a write |
| ServiceTheory.QuickSentStatements | internal/execution/policy.go:27-40 | every statement that reached a source in an honest run in quick mode was shown before at its place, or is the one statement of such unconfirmed work |
| ServiceTheory.RepeatIsAuthorised | internal/execution/policy.go:30-35 | repeating a previewed call with its hash is accepted with the same intent, whatever the request ID or display names |
| ServiceTheory.RefusedExactly | internal/execution/executor.go:75-90 | work that passed the preview, on a connected source, is refused without any driver call if and only if a statement is neither a write nor DDL or there are parameters for several statements; with which error, and nothing changed |
| ServiceTheory.AcceptedRefusedExactly | internal/tools/service.go:178-185 | the same condition for every accepted call that is not a query |
| ServiceTheory.MixedBatchNeverRuns | internal/execution/executor.go:112-127 | a batch with a read in it is previewed, its confirmation accepted, and then nothing is sent |
| ServiceTheory.ParameterBatchNeverRuns | internal/execution/executor.go:79-81 | a batch of writes with parameters is previewed, its confirmation accepted, and then nothing is sent |
| ServiceTheory.ChangedCallMismatches | internal/execution/policy.go:30-33 | a call that differs in any bound field does not run with that hash |
| ServiceTheory.ExecutionAgreesWithPreview | internal/execution/executor.go:79-104 | statements sent, by a query or a plan, are the previewed ones in order up to white space; parameters reach only the first statement, of one-statement plans; completed work has sent all, and a plan has the previewed atomicity |
| ServiceTheory.RunsKeepRecord | internal/execution/executor.go:146-169 | over every run, what a source was sent, by queries and plans, is exactly what its started work records, in order, and each work sends what its job binds |
| ServiceTheory.SentStatementsWereShown | internal/execution/executor.go:146-195 | every statement that reached a source in an honest run, reads included, is statement `i` of work started on that source and, when that work is high-risk, in strict mode or a confirmation, was shown at place `i` of an artifact disclosed before, for a job with those parameters |
| Server.Server.Execute | internal/tools/service.go:146-186 | accepted work, a query or a plan, changes the database of its source as specified and no other, with the specified error |
| Server.Server.Serve | internal/tools/service.go:128-282 | the server object takes exactly the steps of the protocol, statements sent included; it returns the specified error, and the result of an execution only when there is none |
| ClickHouseTypes.BalancedByCounting | internal/database/clickhouse.go:105-119 | counting depth recognises exactly the texts generated by the balanced grammar |
| ClickHouseTypes.NormalizeByCode | internal/database/clickhouse.go:99 | which characters normalization drops and which it lowers, by code point |
| ClickHouseTypes.OuterWrapperExact | internal/database/clickhouse.go:98-121 | a wrapper is found if and only if the normalized text is `w(inner)` with `w` non-empty without `(` and `inner` balanced |
| ClickHouseTypes.WrappedUnique | internal/database/clickhouse.go:98-121 | those two parts are unique |
| ClickHouseTypes.ScanParentheses | internal/database/clickhouse.go:105-119 | the scanning loop decides whether what is inside the first and last parentheses is balanced; its depth never becomes negative |
| ClickHouseTypes.ClickHouseOuterWrapper | internal/database/clickhouse.go:98-121 | finds that wrapper |
| ClickHouseTypes.IsClickHouseNullable | internal/database/clickhouse.go:90-96 | the peeling loop ends because the inner text shrinks, and computes the peeled answer |
| ClickHouseTypes.PeelsExact | internal/database/clickhouse.go:90-121 | for every text the answer is true if and only if the normalized text is `nullable(...)` inside any number of `lowcardinality(...)`, with balanced contents |
| ClickHouseTypes.NullableExact | internal/database/clickhouse.go:90-121 | for any rendering of any type tree with quoted arguments: a nullable type is recognised if and only if the parentheses inside its Nullable match by counting; another type is taken for one if and only if it comes down to a LowCardinality with several arguments that together read as a nullable type |
| ClickHouseTypes.ListReadsNullable | internal/database/clickhouse.go:98-121 | several arguments read together as a nullable type only if the parentheses of the first one do not match |
| ClickHouseTypes.NullableWhenLiteralsClose | internal/database/clickhouse.go:90-96 | when the parentheses in quoted texts match, the answer is true if and only if the type is Nullable under any number of single-argument LowCardinality wrappers |
| ClickHouseTypes.NullableMissed | internal/database/clickhouse.go:111-113 | types for which the answer is wrongly false: an Enum8 label with a closing parenthesis, whatever value follows it |
| ClickHouseTypes.NullableEnumMissed | internal/database/clickhouse.go:111-113 | `Nullable(Enum8('a)' = 1))` is one of them |
| ClickHouseTypes.NullableImagined | internal/database/clickhouse.go:105-121 | types for which the answer is wrongly true |
| ClickHouseTypes.NormalizeInsensitive | internal/database/clickhouse.go:99 | added white space and the case of letters make no difference |
| IndexGrouping.GroupRows | internal/database/mysql.go:126-150 | the loop with its position map computes the plain group-by, for any row order |
| IndexGrouping.KnownRow | internal/database/mysql.go:135-145 | a row of a known index changes that index alone |
| IndexGrouping.NewRow | internal/database/mysql.go:136-145 | a row of a new name adds one index at the end, typed by that row |
| IndexGrouping.RowAdds | internal/database/mysql.go:141-145 | a row adds its non-empty column, else replaces the expression by its non-empty one, else nothing |
| IndexGrouping.OneRow | internal/database/mysql.go:136-145 | the index that one row alone makes |
| IndexGrouping.FromFirstRow | internal/database/mysql.go:136-140 | the type and uniqueness of an index are those of the first row of its name |
| IndexGrouping.ColumnsConserved | internal/database/mysql.go:141-142 | the indexes hold exactly as many columns as rows name one |
| IndexGrouping.FirstAppearanceOrder | internal/database/mysql.go:136-140 | names are distinct and in order of first appearance |
| Registry.Source.Close | internal/database/registry.go:139-144 | the connection is closed once however often it is asked, with one answer |
| Registry.CloseSources | internal/database/registry.go:117-121 | every listed source is closed exactly once |
| Registry.NewRegistry | internal/database/registry.go:40-50 | a registry owning all sources, open, or all closed once if and only if two share an ID; the error names the first repeated one |
| Registry.OpenRegistry | internal/database/registry.go:100-115 | for any configuration and any failure point, each opened source is owned and open or closed exactly once; the error names the configured source that failed, or the first repeated ID |
| Registry.Registry.Close | internal/database/registry.go:80-91 | any number of calls closes each owned source once, reports exactly the failures, and repeats its answer |
| Registry.Registry.Sources | internal/database/registry.go:63-77 | every owned source once, ascending by ID |
| SortedStrings.SortedSound | internal/database/registry.go:67-71 | the sorted list of a set is ascending and has exactly its members |
| SortedStrings.LessAtFirstDifference | internal/database/registry.go:67-71 | the order is that of the code points at the first difference, a prefix before its extensions |
| SelectGuard.Walk | internal/sqlguard/mysql.go:131-162 | the pruned walk raises its flag if and only if a forbidden node is anywhere beneath |
| SelectGuard.ForbiddenExactly | internal/sqlguard/mysql.go:134-160 | the forbidden nodes: assignments, locking functions, waiting GTID functions and calls of eleven named functions in any case of letters |
| SelectGuard.OffendingExactly | internal/sqlguard/mysql.go:120-129 | which statements of a spine offend, constructor by constructor |
| SelectGuard.HasUnsafeMySQLSelect | internal/sqlguard/mysql.go:120-129 | unsafe if and only if a spine statement has INTO or a lock, is neither select nor union, or is a select with a forbidden node beneath |

## Left out

- The Vitess and AfterShip parsers, their classification of statements and the text they normalize to: the parameter `classify`.
- SHA-256, constant-time comparison and random request IDs: an abstract hash; request IDs take no part in any decision.
- Floating-point parameters and the conversion of JSON numbers (internal/tools/service.go:366-415): parameters are already null, booleans, integers, strings, arrays or objects. An integer and a float can encode to the same text.
- Time-outs, contexts and connection pools: a driver call may fail at any time, and the deferred cancel of an execution abandons an open transaction. Concurrent requests on one source are not modelled.
- Reading result rows, with the limit of 100 rows (internal/execution/rows.go): short, and independent of everything above. The call of a query is recorded, and it may leave any state behind; its rows are not modelled.
- Metadata queries, MCP registration, JSON schemas, configuration loading, logging and error texts.
- Risk and statement kinds are datatypes, so the refusal of an unknown risk text (internal/execution/preview.go:38-40) cannot occur here.
- Upper and lower case outside ASCII, in ClickHouse types and in function names.
- SelectGuard.HasUnsafeMySQLSelect: says nothing about a union's own ORDER BY or LIMIT, which the code does not walk.
- Splitter.ScanLiteral: one body for the three literal states, whose code is the same but for the quote character.
- Execution.Database.ExecuteStatements: one loop for both paths, which call the same helper on a transaction or on the database.
