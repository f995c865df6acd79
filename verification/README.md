# Verified model of the Milvus SQL proxy

The proxy accepts MySQL and PostgreSQL clients and turns their SQL into Milvus
calls. This project models its core in Dafny and proves what clients rely on:
that binding a parameter never changes the rest of a statement, that a WHERE
clause keeps its meaning as a Milvus filter, that portals are paged exactly and
never executed twice, that an INSERT is validated as a whole before anything is
written, and that the server shuts down completely.

`dafny verify dfyconfig.toml` checks everything.

## How the model is organised

Every component has a specification in functions, the program's own loops and
objects as methods and classes proved against it, and theorems about the
specification.

| files | component |
|---|---|
| `Prelude`, `Idents`, `SqlAst`, `Results` | shared vocabulary: ASCII text, decimal integers, syntax trees, result sets, schemas |
| `Literals`, `Lexer`, `Binder`, `BinderTokens`, `DescribeZeros` | the lexical binder, a reference lexer, token preservation, and what describing binds to |
| `TypeAliases`, `AliasTokens` | the `bool` rewrite in CREATE TABLE text, and what it does to tokens |
| `FilterText`, `FilterGrammar`, `FilterRoundTrip`, `SelectPlan` | the WHERE compiler, a parser for Milvus filters, and meaning preservation |
| `Wire`, `ParameterOids` | PostgreSQL value formats and parameter type inference |
| `PgSession`, `PgRuns`, `PgAnswers`, `PgConnection` | the extended-query session: step function, theorems over all runs, the answer to each message, connection and portal objects |
| `InsertColumns`, `Ddl`, `RoundTrips` | rows to columns, CREATE TABLE schemas, values end to end |
| `SelectRows`, `ClientSession`, `SessionRules`, `StatementMeaning`, `StatementCalls`, `PreparedColumns`, `ClientConn` | the SQL session: statements to upstream calls and result sets |
| `PortalEffects` | the protocol and the session together |
| `Server`, `ServerRuns` | accept loops, handlers, `Run` and `Close` as interleaved steps |

Milvus, the SQL parser and the network are inputs: an arbitrary answer for every
upstream call, a syntax tree for a parsed text, any message sequence, any
interleaving. Theorems hold for all of them.

Text is a sequence of bytes, one per `char`, except in the filter modules, where
a `char` is a Unicode scalar value because `strconv.Quote` works on runes.

## What turned out not to hold

Where the code falls short of the plain statement of a property, the condition
under which it does hold is proved, with an input on the other side of it.

- A bound literal can merge with what stands next to the placeholder. Tokens are
  preserved if and only if no token is glued to the text emitted after it and, in
  PostgreSQL, no name has a `$` in it (`BindingPreservesTokens`). On the other side:
  `-?` becomes a comment and `1?` gluing digits (`GluedLiterals`), `1e+?` with 5
  becomes the one number `1e+5` and `1e?` with -5 the number `1e-5`
  (`GluedExponent`), `x?` with a string becomes a hexadecimal literal
  (`PrefixGlued`), and `a$1`, one name in PostgreSQL, gets the argument put in its
  middle (`DollarNameSplit`).
- In a MySQL identifier in backticks the binder honours backslashes, which MySQL
  does not. The two agree on where an identifier ends if and only if every
  backtick in it stands after an even number of backslashes (`EscapesAgree`);
  with an identifier of the other kind a query is rejected
  (`BackslashIdentifierRejected`), or binds with fewer placeholders than it has
  (`MisreadMiscounts`).
- The type rewrite has its own idea of words. Where no quoted region it sees runs
  out of its token, `bool` and `boolean` and nothing else are rewritten if and
  only if no longer word and, outside quotes, no comment has an alias in it
  (`NormalizePreservesTokens`); `1bool` is such a word (`AliasAfterDigit`), and a
  quote left open in a comment hides an alias after it (`QuoteInComment`).
- A filter parses back to its expression if and only if no column is named like
  a filter keyword (`PrintedFilterParses`).
- An inferred parameter type is that of the parameter's first use if and only if
  no literal of the query that looks like the parameter takes its place
  (`InferredFromFirstUse`); in `ForgedQuery` one does (`ForgedSentinel`).
- DESCRIBE announces other column types than it delivers exactly when the schema
  is empty (`DescribeAgrees`).
- A prepared SELECT is described with the columns it later has, unless it selects
  a constant that is itself a placeholder (`PreparedAsDescribed`); `select $1` is
  refused when described and answered when executed (`SelectedPlaceholder`).
- CREATE TABLE accepts TEXT columns (`TextTableAccepted`), which the repository's
  Readme does not list among the field types, and a collection that has one
  accepts no INSERT (`TextBlocksInserts`).

## Model

| member | source | states |
|---|---|---|
| Literals.StringLiteralDecodes | pkg/bind.go:13-14 | for every byte string, reading the printed literal as a MySQL string gives the string back, whatever follows, and ends where the literal ends |
| Literals.DoubledDecodes | pkg/bind.go:65-68 | doubling every backtick and reading the quoted identifier gives the name back |
| Literals.ScanQuotedMerges | pkg/bind.go:44-53 | a closing quote followed by another quote does not end the token: the value grows or never ends |
| Literals.EscapesAgree | pkg/bind.go:43-60 | honouring backslashes or not, a quoted token ends at the same byte if and only if every quote in it, the closing one included, stands after an even number of backslashes |
| Binder.ReadQuoted | pkg/bind.go:38-63 | the index loop finds the end of a quoted token exactly where the reference scanner does, and decodes its PostgreSQL value |
| Binder.BindLoop | pkg/bind.go:33-146 | the one-pass scanner computes the recursive definition of binding: same text, count and error on every input |
| Binder.LockStep | pkg/bind.go:101-138 | describe mode and value mode scan alike from any point of any query, whatever the arguments |
| Binder.BindSqlArity | pkg/bind.go:123-145 | with supported arguments, executing succeeds if and only if preparing does and the number of arguments is the count announced |
| Binder.MySqlIdentity | pkg/bind.go:75-77 | a MySQL query without placeholders is bound to itself |
| Binder.DollarNumbersRead | pkg/bind.go:107-122 | `$` and digits are a placeholder exactly from 1 to 65535, leading zeros included, whatever follows |
| Binder.BlockCommentCopied | pkg/bind.go:91-100 | a block comment is copied up to its first end, placeholders in it included, and binding goes on after it |
| Binder.LineCommentCopied | pkg/bind.go:81-90 | the same for a line comment up to the end of its line |
| BinderTokens.LiteralLexes | pkg/bind.go:9-29 | every printed argument is read as its own token or tokens, unless the text after it glues to the last one |
| BinderTokens.FloatIsOneNumber | pkg/bind.go:24-25 | the literal of a float printed with a signed exponent is one token |
| BinderTokens.BindRenders | pkg/bind.go:33-146 | binding a readable query with nothing misread emits the image of each token in order, and fails only for want of an argument |
| BinderTokens.PostgresBindLexes | pkg/bind.go:61-74 | a PostgreSQL query that binds is one the reference lexer can read, names with a `$` included |
| BinderTokens.RenderLexes | pkg/bind.go:64-80 | lexing the emitted text gives the images of the tokens if and only if none is glued to the text emitted after it, be it by one byte or by a sign and a digit after an exponent mark |
| BinderTokens.MisreadBreaks | pkg/bind.go:107-122 | one name with a `$` in it and the tokens of the bound text are never those of the query, whatever the rest of it is |
| BinderTokens.BindingPreservesTokens | pkg/bind.go:31-146 | lexing the bound text as MySQL gives the source tokens with every placeholder replaced by its argument's literal, if and only if no token is glued to the text emitted after it and, in PostgreSQL, no name has a `$` in it |
| BinderTokens.SpacedBindingPreservesTokens | pkg/bind.go:31-146 | with nothing misread, plain punctuation around every placeholder is enough, whatever the arguments are, unless the punctuation before one is a plus sign directly after a number's exponent mark |
| BinderTokens.DescribeCounts | pkg/bind.go:101-126 | describing succeeds on every readable query with nothing misread, and counts its placeholders |
| DescribeZeros.DescribesAsZeros | pkg/bind.go:123-126 | with n zeros a query binds exactly if it is described with n parameters, and then to the text it is described as |
| DescribeZeros.DescribedTokens | pkg/bind.go:101-138 | lexed as MySQL, the text described has the tokens of the query with `0` for every placeholder, if and only if no token is glued and nothing is misread |
| BinderTokens.CountIsLargest | pkg/bind.go:118-121 | the PostgreSQL count is an upper bound of all `$n` and is attained |
| BinderTokens.MySqlCountsQuestionMarks | pkg/bind.go:103-106 | the MySQL count is the number of `?`, numbered in order |
| BinderTokens.GluedLiterals | pkg/bind.go:130-134 | without room around it a literal does merge: `-?` becomes a comment, a digit before `?` joins the digits bound |
| BinderTokens.GluedExponent | pkg/bind.go:130-134 | for every number `w` up to its exponent mark and every n > 0, `w+?` with n and `w?` with -n are each bound to one number |
| BinderTokens.PrefixGlued | pkg/bind.go:130-134 | a string bound directly after x, b or n becomes one literal of another kind |
| BinderTokens.DollarNameSplit | pkg/bind.go:107-122 | `a$1` is one name in PostgreSQL, and is bound to `a` followed by the argument |
| BinderTokens.BackslashIdentifierRejected | pkg/bind.go:54-57 | a backslash before the closing backtick hides it from the binder though MySQL reads an identifier there |
| BinderTokens.MisreadMiscounts | pkg/bind.go:54-57 | a MySQL query with one placeholder, after an identifier that ends in a backslash, binds and is described with none |
| TypeAliases.NormalizeLoop | pkg/bind.go:150-196 | the scanner computes the recursive definition on every text, within bounds and ending |
| TypeAliases.NormalizeRewritesPieces | pkg/bind.go:155-195 | the text is cut into pieces without losing a byte, and the result is the pieces rewritten one by one |
| TypeAliases.PiecesMaximal | pkg/bind.go:178-182 | every piece is a quoted region, a whole identifier or another byte, and identifiers are maximal |
| TypeAliases.AliasIsIdentifier | pkg/bind.go:183-187 | a piece that changes consists of letters only, so quoted regions and other bytes stay |
| TypeAliases.NormalizeTypesIdempotent | pkg/bind.go:148-196 | normalizing twice changes nothing more |
| TypeAliases.NormalizesCreateTable | pkg/bind.go:150-154 | text is normalized exactly if it starts, after blanks, with CREATE TABLE in any case |
| AliasTokens.NormalizePreservesTokens | pkg/bind.go:148-196 | in CREATE TABLE text where no quoted region runs out of its token, the words `bool` and `boolean` become `tinyint(1)` and every other token stays, if and only if no longer word and, outside quotes, no comment has an alias in it |
| AliasTokens.NormalizeRetypes | pkg/bind.go:155-195 | the same for the scanner on any such text |
| AliasTokens.QuoteInComment | pkg/bind.go:156-177 | a quote left open in a comment makes the scanner leave an alias after it alone |
| TypeAliases.AliasAfterDigit | pkg/bind.go:178-187 | letters after a digit are an identifier to the scanner, so `1bool` is rewritten |
| FilterText.ListItemsLoop | pkg/select_plan.go:128-141 | the IN-list loop prints each literal in order and stops at the first that is none |
| FilterText.CompilesExactly | pkg/select_plan.go:100-200 | a condition is compiled if and only if it is built by AND, OR, NOT and parentheses from comparisons by a listed operator between plain operands without ESCAPE, LIKE with a literal, and IN with a list of literals |
| FilterRoundTrip.QuotedReads | pkg/select_plan.go:185-186 | the filter lexer reads every printed string back, whatever follows its closing quote |
| FilterRoundTrip.FilterLexes | pkg/select_plan.go:100-176 | a printed filter has exactly the tokens of its expression |
| FilterRoundTrip.FilterParses | pkg/select_plan.go:100-176 | in any context, the parser reads a printed filter as one expression and stops after it |
| FilterRoundTrip.PrintedFilterParses | pkg/select_plan.go:100-200 | parsing a printed filter recovers the expression if and only if no column is named like a keyword |
| SelectPlan.FilterMeans | pkg/select_plan.go:100-200 | exactly the conditions that are compilable by their syntax tree are compiled, and the compiled filter holds on a row exactly when the SQL condition does, for every reading of comparison and LIKE |
| SelectPlan.ExtractsExactly | pkg/select_plan.go:202-246 | a WHERE clause is split if and only if its vector predicates are unqualified and without ESCAPE and at most one has a column name; what is left has the other conjuncts in order, and the vector predicate is that one |
| SelectPlan.PlansExactly | pkg/select_plan.go:21-99 | a SELECT has a plan if and only if it has no unsupported clause, one plain table, plain projections, plannable conditions and a window within bounds; the plan has its table, its LIMIT and OFFSET as written and its vector predicate |
| SelectPlan.ExtractMeans | pkg/select_plan.go:202-246 | taking the vector predicate out keeps the meaning of the condition as a conjunction |
| SelectPlan.NestedVectorRejected | pkg/select_plan.go:142-145 | a vector predicate left anywhere in the scalar part, as under OR or NOT, is refused |
| SelectPlan.PlanSelectLoop | pkg/select_plan.go:21-88 | the plan filled in step by step is the specified one, with the same refusals in the same order, and there is one exactly for the plannable SELECTs |
| SelectPlan.PlanWindow | pkg/select_plan.go:84-87 | an accepted window has non-negative limit and offset that sum to at most 16384: the int64 sum did not wrap |
| SelectPlan.WindowCheckExact | pkg/select_plan.go:84 | the check refuses exactly the windows whose true sum exceeds 16384 |
| SelectPlan.PlanPreservesMeaning | pkg/select_plan.go:58-71 | exactly the SELECTs that are plannable by their syntax tree have a plan, and for every row and reading of the operators the plan (search and parsed filter text) holds exactly when the WHERE clause does |
| SelectPlan.UnnamedVectorLost | pkg/select_plan.go:241 | why names must be non-empty: an unnamed vector column would lose its predicate |
| Results.FieldNamedUnique | pkg/insert.go:61-64 | with unique names, looking a field up by its name finds that field |
| Wire.BigintRoundTrip | pkg/postgres.go:398-459 | every int64 sent as a bigint, in text or as eight bytes, is read back as the same parameter |
| Wire.SmallIntegersRead | pkg/postgres.go:460-467 | two- and four-byte integers are read with their own sign and width |
| Wire.BoolRoundTrip | pkg/postgres.go:405-455 | truth values survive both formats |
| Wire.StringsRead | pkg/postgres.go:439-478 | TEXT, VARCHAR and JSON parameters are read byte for byte in both formats, and so is text under every type that is no truth value or number |
| Wire.NumbersRead | pkg/postgres.go:439-446 | numbers and truth values in text are read as what they parse to, or refused |
| Wire.BinaryAccepted | pkg/postgres.go:451-479 | a binary parameter is accepted if and only if it has the length, and for truth values the byte, of its type |
| Wire.FloatsRead | pkg/postgres.go:468-475 | binary floats of both widths keep their bits |
| Wire.CellRoundTrip | pkg/postgres.go:398-480 | a cell of any field type, sent under its column's announced type in either format, comes back as the argument it stands for |
| Wire.TextCells | pkg/conn_resultvalue.go:27-66 | the text of every kind of cell, and none for NULL |
| Wire.AnnouncedTypes | pkg/postgres.go:357-383 | the type and size announced for every field type |
| Wire.TagsExact | pkg/postgres.go:481-501 | the command tag of a statement by its first words and its result |
| Wire.BinarySizeAnnounced | pkg/postgres.go:369-434 | a binary value has the size its column description announces |
| Wire.ValidFormatsLoop | pkg/postgres.go:346-356 | the loop accepts none, one or n codes, each 0 or 1 |
| ParameterOids.Set | pkg/parameters.go:70-83 | one in-place update: the named parameter's type if it was open, nothing else |
| ParameterOids.SetVisit | pkg/parameters.go:90-118 | a comparison or LIMIT sets its places in the order the walk looks at them |
| ParameterOids.ParameterOids | pkg/parameters.go:13-150 | the in-place slice ends up as the inferred types, or the error is reported |
| ParameterOids.SentinelNamesItself | pkg/parameters.go:19-79 | a sentinel literal is recognised as the parameter it stands for |
| ParameterOids.InferFrame | pkg/parameters.go:70-149 | types the client gave stay as they are, and no parameter is left without one |
| ParameterOids.FirstNamingDecides | pkg/parameters.go:70-83 | an open parameter's type is that of the first place, in walk order, where something looks like it |
| ParameterOids.VisitsSuggest | pkg/parameters.go:84-117 | a comparison suggests for its other side, and every item of a list there, the type of its column, LIMIT and OFFSET suggest bigint, and nothing else does |
| ParameterOids.InsertsSuggest | pkg/parameters.go:122-143 | every value of an INSERT is suggested the type of the column it goes into, listed or not |
| ParameterOids.OneUseDecides | pkg/parameters.go:70-117 | a parameter used once, in a LIMIT or compared with a column, gets bigint or the column's type |
| ParameterOids.InferredFromFirstUse | pkg/parameters.go:90-148 | an open parameter gets the type of its first use in walk order, or text, if and only if no look-alike literal of the query with another type is met first |
| ParameterOids.ForgedSentinel | pkg/parameters.go:75-82 | in `delete from t where id='__milvus_param_1__' and n=$1` the parameter is typed as the bigint its look-alike is compared with |
| PgSession.StepValid | pkg/postgres.go:275-304 | no message moves a cursor past its rows or completes a portal early |
| PgRuns.SessionInv | pkg/postgres.go:107-332 | over every message sequence and upstream behaviour: statements have one type per placeholder, names are bounded, rows sent are the first rows of the result, at most one execution per portal |
| PgRuns.AtMostOneExecution | pkg/postgres.go:281-286 | no bound portal is really executed twice, whatever fails |
| PgRuns.StatementsPrepared | pkg/postgres.go:161-188 | every stored statement has as many types as its query has placeholders |
| PgRuns.PreparedNeverFailsToBind | pkg/postgres.go:229-251 | after Parse, binding a statement's text cannot fail: Bind succeeds exactly when its parameter values can be read |
| PgRuns.NamesBounded | pkg/postgres.go:162-272 | at most 1024 named statements and 1024 named portals, 1025 with the unnamed one |
| PgRuns.PagedRowsExact | pkg/postgres.go:288-302 | the rows sent for a live portal are the first `pos` of its result, encoded and in order; all of them once completed |
| PgRuns.CompletionCountsRows | pkg/postgres.go:287-304 | when Execute completes a SELECT every row has been sent, completion is the last message, and its tag is the number of rows |
| PgRuns.SilentUntilSync | pkg/postgres.go:127-131 | between an error and the next Sync nothing is sent, called or changed |
| PgRuns.ReadyAccounting | pkg/postgres.go:156-320 | over a run, ReadyForQuery is sent once per processed Sync and Query, and by nothing else |
| PgRuns.StatementImmutable | pkg/postgres.go:184-188 | a named statement keeps its text and types from Parse to Close |
| PgRuns.PagesReach | pkg/postgres.go:288-303 | after m Executes of k rows the cursor is at min(m*k, n) and the portal complete exactly when m*k reaches n |
| PgRuns.PagingIsExact | pkg/postgres.go:288-304 | an n-row result takes max(1, ceil(n/k)) Executes: all but the last end suspended, the last completes even at an exact multiple |
| PgRuns.PagingOverRuns | pkg/postgres.go:275-304 | in any session run, with other messages in between, m Executes of a portal with row limit k have sent min(m*k, n) rows and complete it exactly from the max(1, ceil(n/k))-th on |
| PgAnswers.StepsExactly | pkg/postgres.go:123-331 | a message is carried out unless the session has ended or is in error, and an error is reported and remembered |
| PgAnswers.QueriesExactly | pkg/postgres.go:134-160 | a simple query runs its text and sends the columns, every row in text, cell by cell, the tag and ReadyForQuery, or the error |
| PgAnswers.BlankQuery | pkg/postgres.go:134-137 | a blank simple query is answered as empty, and nothing is run |
| PgAnswers.ParsesExactly | pkg/postgres.go:161-189 | Parse stores the query with a type for every parameter, the given ones kept, after reading a schema if there is one to read, exactly if the name is free, the query binds, no more types than parameters are given and the schema can be read |
| PgAnswers.DescribesStatement | pkg/postgres.go:190-222 | a prepared statement is described by its parameter types and the columns of its query bound with zeros |
| PgAnswers.DescribesPortal | pkg/postgres.go:203-222 | a portal is described by the columns of its query in the formats it was bound with |
| PgAnswers.BindsArguments | pkg/postgres.go:229-251 | a prepared statement is bound exactly if there is a parameter per type, with good codes, each readable; argument i is parameter i read under type i and its code |
| PgAnswers.BindsExactly | pkg/postgres.go:223-274 | Bind describes that text and creates the portal with it, exactly if the description succeeds, the result codes are good and the name is free; nothing else changes |
| PgAnswers.ExecutesOnce | pkg/postgres.go:275-304 | executing a portal whose query has no rows runs it once and completes it |
| PgAnswers.ClosesExactly | pkg/postgres.go:305-316 | Close removes exactly what it names |
| PgAnswers.OthersExactly | pkg/postgres.go:305-331 | Sync, Flush, Terminate, unknown messages and unknown targets |
| PgAnswers.RowsEncoded | pkg/postgres.go:384-397 | a row is sent with every cell under its column's type and code, or fails if some cell has no encoding |
| PgConnection.EncodeRowLoop | pkg/postgres.go:386-393 | the loop encodes every cell with its column's type and format, or fails at the first that has none |
| PgConnection.SendRowsLoop | pkg/postgres.go:384-397 | the rows before the first that cannot be encoded are sent, in order |
| PgConnection.PgPortal.Run | pkg/postgres.go:281-304 | Execute on a portal object: result cached, cursor moved, rows and completion or suspension sent as specified |
| PgConnection.ReadBind | pkg/postgres.go:229-251 | Bind's checks and conversions yield the bound text or the first error |
| PgConnection.Connection.HandleQuery | pkg/postgres.go:134-160 | a simple query sends its rows and tag, or its error, and always ReadyForQuery; nothing else changes |
| PgConnection.Connection.HandleParse | pkg/postgres.go:161-189 | Parse reads a schema at most to infer types, stores the statement with them, or changes nothing |
| PgConnection.Connection.HandleDescribe | pkg/postgres.go:190-222 | Describe sends types and columns and changes no statement or portal |
| PgConnection.Connection.HandleBind | pkg/postgres.go:223-274 | Bind adds a fresh portal under the given name, or changes nothing |
| PgConnection.Connection.HandleExecute | pkg/postgres.go:275-304 | Execute changes the named portal and no other |
| PgConnection.Connection.HandleClose | pkg/postgres.go:305-316 | Close forgets the named statement or portal and no other |
| PgConnection.Connection.Receive | pkg/postgres.go:119-332 | one turn of the message loop is one step of the session state machine, record included |
| InsertColumns.CellFitsColumn | pkg/insert.go:109-123 | a value accepted for a field has the Go type its column takes: appending never fails |
| InsertColumns.EmptyColumnsExact | pkg/insert.go:128-157 | a field has a column if and only if its type does, with a positive dimension for a vector; the column has its name, type and dimension |
| InsertColumns.FieldValuesExact | pkg/insert.go:158-268 | exactly the literals whose text is a cell of the field's type are its values: truth values, integers of the width, finite floats of the precision, quoted strings within the length, JSON, vectors of the dimension, written plainly or by `json_vector` |
| InsertColumns.CheckNames | pkg/insert.go:77-90 | the loop reports the first unknown, repeated or auto-ID name |
| InsertColumns.BuildColumnsLoop | pkg/insert.go:108-126 | the nested loops build the specified columns, or report the first error in their order |
| InsertColumns.FillLoop | pkg/insert.go:56-127 | `FillInsertColumns` with its checks in their order computes the specification |
| InsertColumns.InsertTransposes | pkg/insert.go:56-127 | an INSERT is accepted if and only if it is valid as a whole, and then column j at row i is the value of field `names[j]` in `rows[i][j]` |
| InsertColumns.ColumnsAreFields | pkg/insert.go:77-102 | with unique field names, the columns are exactly the non-auto-ID fields, each once |
| InsertColumns.PermutedInsert | pkg/insert.go:72-126 | permuting the column list together with every row is accepted equally and gives every name the same column |
| Ddl.ColumnToField | pkg/ddl.go:85-146 | the field filled in step by step is the specified one |
| Ddl.DdlToSchema | pkg/ddl.go:28-83 | `DDLToMilvusSchema` computes the specification, refusals included |
| Ddl.ColumnAccepted | pkg/ddl.go:85-146 | a column definition is accepted if and only if it has no options, a known type with its length in range and auto-increment only on a primary key; the field has its name and key |
| Ddl.OneKey | pkg/ddl.go:63-78 | the counter is one exactly when there is one primary key |
| Ddl.SchemaAccepted | pkg/ddl.go:28-83 | a table is accepted if and only if its columns are valid and its schema has unique plain names without `_distance`, one BIGINT or VARCHAR key, auto-ID only on a BIGINT key, a vector, and dimensions and lengths in range |
| Ddl.EmptyColumnExact | pkg/insert.go:128-157 | the insert path has a column for an accepted field if and only if it is not a TEXT column |
| Ddl.TextBlocksInserts | pkg/ddl.go:164 | a collection with a TEXT column accepts no INSERT |
| Ddl.TextTableAccepted | pkg/ddl.go:157-169 | a table with a TEXT column that the code accepts, and that then accepts no INSERT |
| Ddl.AcceptedSchemaInserts | pkg/ddl.go:49-78 | into any other accepted schema, an INSERT without column list fails only on its rows or for replacing under an auto-ID |
| RoundTrips.IntegersStored | pkg/insert.go:188-215 | an integer argument is stored as itself if and only if it fits the column's width |
| RoundTrips.BigintEndToEnd | pkg/postgres.go:435-459 | every int64 a client sends, in either format, is the value stored, through literal, lexer, parser and cell |
| RoundTrips.StringsStored | pkg/insert.go:232-241 | every string is stored byte for byte if and only if it is within `max_length` |
| RoundTrips.TextEndToEnd | pkg/postgres.go:435-480 | every string a client sends as TEXT, VARCHAR or JSON, in either format, is what is stored if and only if it is within `max_length` |
| RoundTrips.VectorsStored | pkg/insert.go:247-265 | a vector is stored if and only if its elements are numbers and as many as the dimension, plain or by `json_vector` |
| RoundTrips.DeclaredIntegers | pkg/ddl.go:157-169 | a column declared as an integer, DATE or DATETIME stores exactly the integers of its 8, 16, 32 or 64 bits |
| RoundTrips.DeclaredLengths | pkg/ddl.go:97-133 | a VARCHAR(n) stores exactly the strings of at most n bytes, a VECTOR(n) the vectors of n numbers |
| RoundTrips.DeclaredOthers | pkg/ddl.go:93-96 | declared truth values, JSON and floats of both precisions store what they should |
| RoundTrips.DocumentsStored | pkg/insert.go:242-265 | JSON and vector texts reach their validators unchanged |
| RoundTrips.BooleansEndToEnd | pkg/insert.go:193-200 | truth values sent in either format are stored as themselves |
| SelectRows.BuildLoop | pkg/conn_resultvalue.go:99-121 | building a result set checks every row's width and types columns by the first row if not given |
| SelectRows.BuiltShape | pkg/conn_resultvalue.go:99-121 | what is built is rectangular, keeps the rows, and has the names and types asked for |
| SelectRows.BuildAccepted | pkg/conn_resultvalue.go:99-121 | a result set is built if and only if there is a type per name, a value per name in every row, and a type for each value of the first row where none are given |
| SelectRows.TypedAsFormatted | pkg/select.go:206-222 | the type given to a field's column is the one its values suggest |
| SelectRows.AcceptedProjectable | pkg/select.go:52-59 | the type assertion on projections cannot fail after planning |
| SelectRows.ProjectLoop | pkg/select.go:44-79 | names and types of the projection, or the first error |
| SelectRows.ProjectsExactly | pkg/select.go:44-79 | a projection has columns if and only if all it names is known: the fields for `*`, counts without search, the score with it; each column has its name and type |
| SelectRows.OutputFieldsExact | pkg/select.go:95-102 | the fields asked of Milvus are the projected ones, each once, without the score |
| SelectRows.RowsLoop | pkg/select.go:151-203 | the nested assembly loops compute the specified rows, or report the first missing cell |
| SelectRows.RowsExact | pkg/select.go:151-203 | assembly succeeds if and only if every cell exists, and row i holds cell i of the column of each name |
| SelectRows.CellsFound | pkg/select.go:144-173 | a query's cell is in the first column of its name, a search's score under `_distance`, its ID under the key where no column carries it |
| SessionRules.EfWindow | pkg/select.go:127-132 | an HNSW search uses `ef` between 64 and 16384 that covers limit and offset |
| SessionRules.LimitZeroDescribes | pkg/select.go:92-94 | LIMIT 0 asks for the schema only and answers as a description would |
| SessionRules.QueryAnswers | pkg/select.go:187-204 | a query's answer has one row per result row with the projected cells, and fails exactly when a cell is missing |
| SessionRules.SearchAnswers | pkg/select.go:140-175 | the same for a search, with scores for `_distance` and IDs standing in for the primary key |
| SessionRules.DescribeOrderly | pkg/commands.go:67-85 | DESCRIBE and its description agree on columns exactly when the schema has a field |
| SessionRules.StatementOrderly | pkg/conn_query.go:10-50 | every statement reads first and makes at most one changing call, its last; windows are in bounds; results are rectangular |
| SessionRules.DescribeReadsOnly | pkg/conn_query.go:25-31 | describing any statement makes at most one call, for a schema, and stays on its database |
| SessionRules.DescribeAgrees | pkg/conn.go:41-45 | if a statement succeeds, describing it succeeds with the same column names and wire types, unless it is DESCRIBE of an empty schema |
| SessionRules.WritesAreValidated | pkg/insert.go:25-45 | a write call carries exactly the transposed columns of an INSERT validated against the schema just read |
| StatementMeaning.QueriesSelectTheirRows | pkg/select.go:25-183 | a SELECT without vector predicate, with a readable schema, known columns and rows to fetch, reads the schema and makes exactly one query, on its table, for its columns, within LIMIT and OFFSET as written (none for a count), and answers with the cells found, the error of Milvus or a missing cell; no other SELECT queries; the query takes exactly the rows its WHERE clause holds on |
| StatementMeaning.SelectsWithoutRows | pkg/select.go:25-94 | a SELECT that cannot be planned fails without a call; one with an unreadable schema or an unknown name fails after reading it; LIMIT 0 answers the header alone |
| StatementMeaning.SearchesSelectTheirRows | pkg/select.go:104-136 | a SELECT with a vector predicate, a readable schema, known columns, a vector field with a value and an index with a metric makes exactly one search, by that metric, within LIMIT and OFFSET as written, with the parameters of the index kind, and answers with the cells found; no other SELECT searches; the search is for the value of its vector predicate in that vector field, and being such a neighbour and passing the filter together hold exactly when the WHERE clause does |
| StatementMeaning.KeyFound | pkg/select.go:34-41 | the primary key of a schema is the field marked so, the last if there are more |
| StatementMeaning.DeletesTheirRows | pkg/insert.go:284-290 | a DELETE of one plain table by a compilable condition and without other clauses makes exactly one call, on its table, with a non-empty filter that holds on exactly the rows its WHERE clause holds on, and succeeds exactly if Milvus accepts it; any other makes no call and fails |
| StatementMeaning.InsertsReportTheirRows | pkg/insert.go:33-45 | a successful INSERT made one write, and the count it reports is the length of every column written |
| StatementMeaning.InsertsExactly | pkg/insert.go:25-55 | an INSERT with an unsupported clause makes no call, an invalid one only reads the schema, and a valid one writes its columns once, by an upsert for REPLACE, and reports rows and first ID, or the error of Milvus |
| StatementCalls.Dispatched | pkg/conn_query.go:31-46 | SELECT, INSERT, REPLACE, UPSERT and DELETE reach their handlers |
| StatementCalls.OneCallStatements | pkg/commands.go:41-204 | LOAD, RELEASE, FLUSH, indexes, partitions, CREATE, DROP and USE make exactly the call they stand for and succeed exactly if Milvus accepts it; the session changes database only by a USE that succeeds; what is refused makes no call |
| StatementCalls.CreatesExactly | pkg/ddl.go:171-184 | CREATE TABLE stands for a call if and only if its definition is valid, with one field per column in order |
| StatementCalls.ShowsExactly | pkg/show.go:18-55 | SHOW DATABASES, TABLES and PARTITIONS make one read and answer its names, a row each |
| StatementCalls.DescribesExactly | pkg/commands.go:67-85 | DESCRIBE reads the schema and answers a row per field |
| StatementCalls.IndexesExactly | pkg/commands.go:152-167 | SHOW INDEXES lists a collection's indexes, a row each |
| StatementCalls.ConstantsAnswered | pkg/select.go:14-24 | 1, `version()`, `database()` and `current_database()` are answered without Milvus, the database being the session's |
| StatementCalls.ConstantsOnly | pkg/select.go:14-24 | nothing else is answered without Milvus |
| PreparedColumns.PreparedAsDescribed | pkg/postgres.go:190-222 | a prepared SELECT that succeeds with its arguments was described, with 0 for every placeholder as `DescribesAsZeros` says, with the same column names and wire types, unless it selects a constant that is a placeholder |
| PreparedColumns.PlanFills | pkg/select_plan.go:21-88 | a SELECT that can be planned with its arguments can be planned with zeros, on the same collection, projection and vector field |
| PreparedColumns.SelectedPlaceholder | pkg/select.go:14-24 | `select $1` with 1 is answered, but its description is refused |
| ClientConnection.ClientConn.RunPlan | pkg/select.go:29-205 | a planned SELECT on the session object: schema, projection, describe cut-off, then search or query |
| ClientConnection.ClientConn.HandleSearch | pkg/select.go:104-175 | the search path: vector checked, index looked up, one search, rows assembled |
| ClientConnection.ClientConn.HandleSelect | pkg/select.go:13-205 | the whole SELECT handler makes the specified calls and leaves the specified result |
| ClientConnection.ClientConn.HandleInsert | pkg/insert.go:25-55 | INSERT and REPLACE make the specified calls and report rows and first ID |
| ClientConnection.ClientConn.HandleDelete | pkg/insert.go:269-293 | DELETE compiles its filter and makes one call, or none |
| ClientConnection.ClientConn.HandleQuery | pkg/conn_query.go:10-50 | the dispatcher with its describe guards does what the specification says for every kind of statement |
| ClientConnection.ClientConn.Execute | pkg/conn.go:28-39 | the answer is this statement's, whatever was left before and however Milvus answers now; a success always has a result |
| ClientConnection.ClientConn.Describe | pkg/conn.go:41-45 | describing restores execution, keeps the database and asks for at most a schema |
| PortalEffects.OneChangePerPortal | pkg/postgres.go:281-286 | over every message sequence and every behaviour of Milvus, one bound portal changes Milvus at most once |
| Server.InvStep | pkg/server.go:70-140 | every atomic step, in any interleaving, keeps the invariant of connections, wait group, closing and `Run` |
| Server.ClosedRegistersNothing | pkg/server.go:95-104 | no step registers a connection once `closed` is set |
| ServerRuns.ClosedIsFinal | pkg/server.go:95-140 | over any further run, what is registered was registered when `closed` was set |
| ServerRuns.ClosingRecords | pkg/server.go:126-132 | the step that sets `closed` finds exactly the connections registered before it |
| ServerRuns.ClosedStopsAll | pkg/server.go:133-139 | once `Close` lets go of the mutex, every listener is closed and every connection registered when it began is cancelled and closed |
| ServerRuns.WaitGroupCovers | pkg/server.go:102-108 | the wait group is never below the number of registered connections |
| ServerRuns.ReturnedIsQuiet | pkg/server.go:70-85 | when `Run` returns every accept loop and handler has ended, nothing is registered, and every connection ever accepted is closed |
| ServerRuns.ReturnsNilExactly | pkg/server.go:76-84 | `Run` returns an error exactly when a listener failed, and nil only after an external `Close` |
| ServerRuns.OpenServes | pkg/server.go:86-125 | in every reachable open state a waiting accept loop can take a connection, register it and wait again, and the server can be closed |
| ServerRuns.HandlersEnd | pkg/server.go:105-123 | a handler cancels and deregisters, then closes and reports to the wait group, touching no other connection |
| ServerRuns.FailureCloses | pkg/server.go:76-82 | the first listener that fails closes an open server, and its error is the one kept |
| ServerRuns.WorkDecreases | pkg/server.go:86-140 | after `closed` every step leaves strictly less to do |
| ServerRuns.ClosedProgresses | pkg/server.go:86-140 | a closed server is never stuck before `Run` and `Close` have returned |
| ServerRuns.ShutdownTerminates | pkg/server.go:70-140 | however steps interleave, a closed server stops within a bounded number of them, and where it stops `Run` has returned |

## Left out

- BindingPreservesTokens: in the MySQL dialect it assumes a query the reference lexer can read in which no backtick looks escaped to the binder (the exact condition of `EscapesAgree`), outside of which `BackslashIdentifierRejected` and `MisreadMiscounts` show what happens; float arguments are assumed to print as word bytes and separated signs, ending in neither a sign nor an exponent mark.
- NormalizePreservesTokens: assumes that every quote in a comment is closed in it and that no backtick looks escaped; what the scanner does past an open one is shown by `QuoteInComment` only.
- PlanPreservesMeaning: assumes what the SQL parser guarantees (numerals are digits, column names are not empty) and column names that are not filter keywords, without which the text does not parse back.
- QueriesSelectTheirRows: under the assumptions of `PlanPreservesMeaning` on numerals and column names.
- SearchesSelectTheirRows: under the same assumptions.
- DeletesTheirRows: under the same assumptions.
- ShutdownTerminates: a handler is assumed to be able to finish once it is cancelled; the network decides when.
- CellRoundTrip: for a float it assumes that what the libraries print of it parses back to it.
- BigintEndToEnd: the SQL parser's reading of one literal is modelled, both with the minus sign folded into the number and as an operator.
- The filter grammar covers what the printer emits, with the keywords `and`, `or`, `not`, `in`, `like`, `true` and `false`: the list is the model's own, and Milvus reserves more words (such as `exists`), which column names have to avoid as well.
- A word of the reference lexer is a run of bytes of names, keywords, numbers and dots, with a sign after the exponent mark of a number; in PostgreSQL a `$` continues it after a name and not after a number. A run that starts like a number is taken for one even where MySQL reads a name, as after `@` or after a dot behind a quoted name. The contents of hexadecimal and bit literals are not checked.
- The reference lexer takes comments as the binder does: block comments do not nest, `--` needs no blank after it, MySQL's `#` comments are punctuation, its `/*! ... */` is a comment and not text that is executed, and PostgreSQL's `#` operators, which open a comment in the bound text, stay punctuation.
- PostgreSQL escape strings (`E'...'`, `U&'...'`) and dollar quoting are not in the reference lexer; the binder rejects or does not know them.
- The SQL parser itself: statements start as syntax trees of the node kinds the code distinguishes.
- The regular expressions that classify commands, and the statement-kind check before parsing: statements arrive classified.
- Upper and lower case, white space and identifiers are ASCII; invalid UTF-8 in filter strings is not modelled.
- Floating-point parsing and printing, JSON validation and vector parsing are parameters.
- The Milvus client: every call has an arbitrary outcome; retries, deadlines and partial success inside it are not modelled.
- CREATE INDEX option defaults and index construction: only the outcome of checking them appears.
- Sockets, TLS, start-up handshake, authentication, timeouts and logging; a failed flush is the end of a session's input.
- The MySQL protocol adapter beyond prepare and execute arity.
- Configuration, `NewServer` and the command line.
- Error texts are shortened; which error is reported, and when, is modelled.
- Numbers for portals and the record of events are the model's own, for telling portals apart in statements about whole runs.
