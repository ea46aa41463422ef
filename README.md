# SqlQueryBuilder, modelled in Dafny

This project models the `SqlQueryBuilder` class of the jofogas backend
(`backend/frameworks/SqlQueryBuilder.ts`). The class is a fluent builder
for MySQL statements with two jobs:

- **Statement accumulation.** Every clause method (`select`, `where`, `and`,
  `or`, `like`, `in`, `between`, `insert`, `update`, the joins and
  `callProcedure`) appends one text fragment to the private string `sql`.
  Most of them also push the bound values onto the private array `values`.
  Each returns the builder itself.
- **Transactions and connections.** The flag `inTransaction` and the
  connection `conn` are driven by `beginTransaction`, `commit`, `rollBack`
  and `execute`. `execute` takes the accumulated text and values, empties
  the builder, runs them on a connection and releases it.

The model follows the code as written, defects included:

- `select` leaves a stray `}` after the table name (`SqlQueryBuilder.ts:63`).
- `between` writes `}}` after its second placeholder (`:129`).
- `insert` keeps the template's line breaks and indentation. It joins the
  columns with "," and no space, and it ends without a space (`:135-137`).
- `update` writes one placeholder per key but pushes no value (`:217-218`).
- `callProcedure` writes a lower-case `call` (`:188`).
- `commit` issues the commit on whatever connection is held. It neither
  releases the connection nor clears the flag (`:36`). If no connection
  was ever assigned, it throws a `TypeError`.
- `rollBack` releases only when the rollback succeeded. It swallows every
  error and never clears the flag (`:40-42`).
- `beginTransaction` sets the flag before it asks for a connection
  (`:30-31`). A failed request leaves the flag set and `conn` as it was.
- `execute` releases the connection after every successful run, even
  inside a transaction. It never releases after a failed run (`:258-259`,
  `:286`).

Files and modules:

- `text.dfy` (`Text`): JavaScript's `join` and `split`, the count of `?`
  placeholders in a text, and `getQuestionMarks`.
- `values.dfy` (`Values`): the bound values (`Value`), the
  `Record<string, any>` objects as key/value sequences with distinct keys,
  and `Object.keys` / `Object.values`.
- `binding.dfy` (`Binding`): how a driver binds the k-th `?` to the k-th
  value, and that this binding composes clause by clause.
- `clauses.dfy` (`Clauses`): the exact text of each clause, and how many
  placeholders each fragment carries.
- `protocol.dfy` (`Protocol`): `beginTransaction`, `commit`, `rollBack` and
  `execute` as step functions over the flag and the connection, the driver
  calls each step issues, and lemmas over whole sequences of operations.
- `builder.dfy` (`QueryBuilder`): the class itself. Its fields are the
  source's fields, and its methods update them step by step. Each method's
  contract ties the new state to the old state through the functions above.

The pool and the driver are outside the model. The outcome of each call to
them is a method parameter:

- `Acquire` is what `getConnection()` produced: a handle or a failure.
- `Outcome` is what `beginTransaction()`, `commit()`, `rollback()` or
  `query()` on a connection produced: success or a failure.

The calls the builder issues are recorded, in order, in the ghost field
`trace`. A `conn` that was never assigned (`undefined` in the source) is
`None`. Calling a method on it throws a `TypeError`:

- `commit` throws it.
- `rollBack` swallows it.
- `execute` inside a transaction throws it when no connection was ever
  assigned, after it has already emptied the builder.

A `beginTransaction` that gets no connection keeps whatever `conn` already
held. After an earlier `execute` outside a transaction, that is the handle
that statement took. The statement released it if its run succeeded. It
kept it if the run failed, because a failed run is rethrown without a
release. The next `execute` then sees the flag set and runs on that handle.
On success it releases the handle: a second time if the earlier run had
succeeded (`Protocol.StaleHandleAfterFailedBegin`), and for the first time
if it had failed.

## Model

| member | source | states |
|---|---|---|
| `Text.Join` | backend/frameworks/SqlQueryBuilder.ts:63 | `parts.join(sep)`: the parts with `sep` between neighbours, `""` for none, the single part for one; undone by `Text.SplitJoin`, placeholders counted by `Text.PlaceholdersJoin` |
| `Text.Split` | backend/frameworks/SqlQueryBuilder.ts:136 | not a builder operation: the reading-side inverse of the ","-joined column list of `${Object.keys(fv)}`, used to state the column round trip; it gives at least one piece, and `Text.SplitJoin` proves it undoes `Join` with a one-character separator |
| `Text.Repeat` | backend/frameworks/SqlQueryBuilder.ts:123 | `values.map(v => "?")`: exactly one copy per value |
| `Text.QuestionMarks` | backend/frameworks/SqlQueryBuilder.ts:174-176 | `getQuestionMarks` of n elements has exactly n placeholders, length 2n-1, `?` at even and `,` at odd positions ("?,?,?" for 3) |
| `Text.QuestionMarksIsJoin` | backend/frameworks/SqlQueryBuilder.ts:123 | `values.map(v=>"?").join(",")` in `in` is the same text as `getQuestionMarks` of those values |
| `Text.SplitJoin` | backend/frameworks/SqlQueryBuilder.ts:136 | a column list joined with "," reads back, by splitting on ",", as exactly the key sequence (non-empty, keys without ",") |
| `Text.PlaceholdersJoin` | backend/frameworks/SqlQueryBuilder.ts:217 | a list joined with a placeholder-free separator has the placeholders of its parts, no more |
| `Values.Keys` | backend/frameworks/SqlQueryBuilder.ts:136-137 | `Object.keys` yields one key per property, the i-th key being the i-th property's |
| `Values.Vals` | backend/frameworks/SqlQueryBuilder.ts:139 | `Object.values` yields one value per property, in the same order as `Object.keys` |
| `Binding.Bind` | backend/frameworks/SqlQueryBuilder.ts:258 | `conn.query(sql, values)` binds the k-th `?` to the k-th value; the bound statement has one position per character of the text |
| `Binding.BindKeepsText` | backend/frameworks/SqlQueryBuilder.ts:258 | binding changes placeholders only: every other character stays in place, and a value appears only where a `?` was |
| `Binding.BindAppend` | backend/frameworks/SqlQueryBuilder.ts:254-258 | if the text so far has as many placeholders as values, appended text binds exactly the appended values: each clause's values land in that clause's placeholders |
| `Binding.BindParams` | backend/frameworks/SqlQueryBuilder.ts:254-258 | a text with as many placeholders as values binds every value once, in order |
| `Binding.BindLeavesPlaceholder` | backend/frameworks/SqlQueryBuilder.ts:217-219 | a text with more placeholders than values leaves a `?` unbound |
| `Clauses.Keyword` | backend/app/models/types.ts:31-35 | each join kind maps to a keyword ending in " JOIN" with no placeholder |
| `Clauses.SelectText` | backend/frameworks/SqlQueryBuilder.ts:63 | `SELECT <fields joined by ", "> FROM <table>} `: starts with `SELECT `, ends with the stray `}` and a space |
| `Clauses.ConditionText` | backend/frameworks/SqlQueryBuilder.ts:92 | `<WHERE/AND/OR> <field> <op> ? ` (also lines 105 and 117): five characters besides the three names, the placeholder last, then a space |
| `Clauses.LikeText` | backend/frameworks/SqlQueryBuilder.ts:111 | `<connector> <field> LIKE ? `: nine characters besides the two names, ending ` LIKE ? ` |
| `Clauses.InText` | backend/frameworks/SqlQueryBuilder.ts:123 | `<connector> <field> IN(?,...,?) `: 2n-1 list characters for n values (none, `IN() `, for no values), ending `) ` |
| `Clauses.BetweenText` | backend/frameworks/SqlQueryBuilder.ts:129 | `<connector> <field> BETWEEN ? AND ?}} `: twenty characters besides the two names, ending with the stray `}}` and a space |
| `Clauses.Columns` | backend/frameworks/SqlQueryBuilder.ts:136 | `${Object.keys(fv)}` renders the keys joined by "," with no space; splitting it on "," gives the keys back (non-empty record, keys without ",") |
| `Clauses.InsertText` | backend/frameworks/SqlQueryBuilder.ts:135-137 | `INSERT INTO <table> `, LF, 8 spaces, `(<columns>) `, LF, 8 spaces, `VALUES(<marks>)`: starts with `INSERT INTO <table>`, ends with `)` and no space |
| `Clauses.JoinText` | backend/frameworks/SqlQueryBuilder.ts:145 | `<keyword> <table> ON <a> = <b> `: starts with the keyword, the table and `ON`, ends with a space |
| `Clauses.CallText` | backend/frameworks/SqlQueryBuilder.ts:188 | `call <name>(<marks>) ` with a lower-case `call`, ending `) ` |
| `Clauses.Assignments` | backend/frameworks/SqlQueryBuilder.ts:217 | `keys.map(key => ...)`: one `<key> = ?` per key, in key order |
| `Clauses.UpdateText` | backend/frameworks/SqlQueryBuilder.ts:217-218 | `UPDATE <table> SET <k1> = ?, <k2> = ? `: starts with `UPDATE <table> SET `, ends with a space |
| `Clauses.SelectPlaceholders` | backend/frameworks/SqlQueryBuilder.ts:63 | the select text carries no placeholder when the names carry none |
| `Clauses.ConditionPlaceholders` | backend/frameworks/SqlQueryBuilder.ts:92-94 | the `WHERE/AND/OR <field> <op> ? ` text carries exactly one placeholder |
| `Clauses.ConditionBinds` | backend/frameworks/SqlQueryBuilder.ts:92-94 | the value of a condition is bound right after its operation, followed only by a space |
| `Clauses.LikePlaceholders` | backend/frameworks/SqlQueryBuilder.ts:111-112 | the `<connector> <field> LIKE ? ` text carries exactly one placeholder |
| `Clauses.InPlaceholders` | backend/frameworks/SqlQueryBuilder.ts:123-124 | the IN list carries one placeholder per value, none (`IN() `) for no values |
| `Clauses.BetweenPlaceholders` | backend/frameworks/SqlQueryBuilder.ts:129-130 | the `BETWEEN ? AND ?}} ` text carries exactly two placeholders |
| `Clauses.InsertPlaceholders` | backend/frameworks/SqlQueryBuilder.ts:135-137 | the insert text carries one placeholder per key |
| `Clauses.InsertPairsColumnsWithValues` | backend/frameworks/SqlQueryBuilder.ts:134-139 | the columns read back from the insert text and the values its placeholders bind pair up exactly as the record's properties: column i gets value i |
| `Clauses.JoinPlaceholders` | backend/frameworks/SqlQueryBuilder.ts:144-146 | the join text carries no placeholder |
| `Clauses.CallPlaceholders` | backend/frameworks/SqlQueryBuilder.ts:187-189 | the `call <name>(...) ` text carries one placeholder per value |
| `Clauses.UpdatePlaceholders` | backend/frameworks/SqlQueryBuilder.ts:217-218 | the `UPDATE ... SET k = ?, ... ` text carries one placeholder per key |
| `Protocol.Begin` | backend/frameworks/SqlQueryBuilder.ts:26-33 | refuses with the builder's message and no change when active; otherwise the flag ends set whatever follows; a connection from the pool becomes `conn` and BEGIN is sent on it, a failed BEGIN rethrown; a failed acquisition is rethrown with `conn` kept and no call; nothing is released |
| `Protocol.Commit` | backend/frameworks/SqlQueryBuilder.ts:35-37 | flag and connection unchanged, nothing taken or released; with a connection exactly one COMMIT on it, a failure rethrown; `TypeError` and no call with none |
| `Protocol.RollBack` | backend/frameworks/SqlQueryBuilder.ts:39-43 | always completes, flag and connection unchanged; with a connection the calls are exactly a ROLLBACK on it followed, only if that succeeded, by the release of that same connection; no call without one |
| `Protocol.Execute` | backend/frameworks/SqlQueryBuilder.ts:243-288 | outside a transaction takes a fresh connection, inside reuses the held one; a failed acquisition issues nothing and is rethrown; the calls are the acquisition (outside only), the query of the given text and values on the connection, then its release only if the query succeeded; a failed query is rethrown; `TypeError` with no connection |
| `Protocol.TransactionFreezesSession` | backend/frameworks/SqlQueryBuilder.ts:26-43 | once the flag is set, no sequence of operations changes the flag or the connection, or takes a new connection |
| `Protocol.TransactionUsesHeldConnection` | backend/frameworks/SqlQueryBuilder.ts:248-259 | while a transaction is active every driver call, releases included, goes to the one held connection |
| `Protocol.TransactionStaysOnItsConnection` | backend/frameworks/SqlQueryBuilder.ts:26-33 | after a `beginTransaction` from outside one that gets a connection, every driver call of any following operations, the acquisition and BEGIN included, goes to that connection |
| `Protocol.BeginIsPermanent` | backend/frameworks/SqlQueryBuilder.ts:26-43 | any sequence of operations containing a `beginTransaction` ends with the flag set |
| `Protocol.BeginTwiceFails` | backend/frameworks/SqlQueryBuilder.ts:26-33 | a second `beginTransaction` throws the builder's message and changes nothing, even after a failed first one |
| `Protocol.StatementsReturnConnections` | backend/frameworks/SqlQueryBuilder.ts:243-259 | outside transactions, statements whose runs succeed release as many connections as they take |
| `Protocol.FailedStatementKeepsConnection` | backend/frameworks/SqlQueryBuilder.ts:243-288 | outside a transaction a failed run takes a connection and never releases it; the driver error is rethrown |
| `Protocol.TransactionStatementReleasesHeldConnection` | backend/frameworks/SqlQueryBuilder.ts:248-259 | inside a transaction a successful run releases the held connection while the builder keeps holding it |
| `Protocol.StaleHandleAfterFailedBegin` | backend/frameworks/SqlQueryBuilder.ts:30-31 | a statement, then a `beginTransaction` whose acquisition fails, then a statement: the second runs on the first one's released handle and releases it again, one connection taken and two given back |
| `QueryBuilder.AppendClause` | backend/frameworks/SqlQueryBuilder.ts:92-130 | a fragment pushed with as many values as it has placeholders keeps the placeholder surplus, and on a paired statement its values bind inside it |
| `QueryBuilder.SqlQueryBuilder.constructor` | backend/frameworks/SqlQueryBuilder.ts:15-20 | empty text and values, no transaction, no connection, no driver call |
| `QueryBuilder.SqlQueryBuilder.BeginTransaction` | backend/frameworks/SqlQueryBuilder.ts:26-33 | new flag, connection, trace and status are those of `Protocol.Begin`; text and values untouched |
| `QueryBuilder.SqlQueryBuilder.Commit` | backend/frameworks/SqlQueryBuilder.ts:35-37 | changes only the trace, as `Protocol.Commit` says |
| `QueryBuilder.SqlQueryBuilder.RollBack` | backend/frameworks/SqlQueryBuilder.ts:39-43 | changes only the trace, as `Protocol.RollBack` says; returns no error |
| `QueryBuilder.SqlQueryBuilder.Select` | backend/frameworks/SqlQueryBuilder.ts:58-64 | appends the select text, pushes nothing, keeps the placeholder surplus; touches nothing else |
| `QueryBuilder.SqlQueryBuilder.Where` | backend/frameworks/SqlQueryBuilder.ts:71-98 | appends `WHERE <field> <op> ? `, pushes the one value at the end, keeps earlier values and the placeholder surplus, and binds the value in its own placeholder |
| `QueryBuilder.SqlQueryBuilder.GetSql` | backend/frameworks/SqlQueryBuilder.ts:100-102 | returns the text and changes nothing |
| `QueryBuilder.SqlQueryBuilder.And` | backend/frameworks/SqlQueryBuilder.ts:104-108 | as `Where`, with `AND` |
| `QueryBuilder.SqlQueryBuilder.Like` | backend/frameworks/SqlQueryBuilder.ts:110-114 | appends `<connector> <field> LIKE ? `, pushes the one value, keeps the pairing |
| `QueryBuilder.SqlQueryBuilder.Or` | backend/frameworks/SqlQueryBuilder.ts:116-120 | as `Where`, with `OR` |
| `QueryBuilder.SqlQueryBuilder.In` | backend/frameworks/SqlQueryBuilder.ts:122-126 | appends the IN text, pushes all items in order, keeps the pairing (also for no items) |
| `QueryBuilder.SqlQueryBuilder.Between` | backend/frameworks/SqlQueryBuilder.ts:128-132 | appends the BETWEEN text, pushes low then high, keeps the pairing |
| `QueryBuilder.SqlQueryBuilder.Insert` | backend/frameworks/SqlQueryBuilder.ts:134-142 | appends the insert text, pushes the record's values in key order, keeps the pairing |
| `QueryBuilder.SqlQueryBuilder.Join` | backend/frameworks/SqlQueryBuilder.ts:144-147 | appends `<keyword> <table> ON <a> = <b> `, pushes nothing |
| `QueryBuilder.SqlQueryBuilder.InnerJoin` | backend/frameworks/SqlQueryBuilder.ts:150-152 | `Join` with `INNER JOIN` |
| `QueryBuilder.SqlQueryBuilder.LeftJoin` | backend/frameworks/SqlQueryBuilder.ts:156-158 | `Join` with `LEFT JOIN` |
| `QueryBuilder.SqlQueryBuilder.RightJoin` | backend/frameworks/SqlQueryBuilder.ts:160-162 | `Join` with `RIGHT JOIN` |
| `QueryBuilder.SqlQueryBuilder.CallProcedure` | backend/frameworks/SqlQueryBuilder.ts:187-191 | appends the `call` text, pushes all items in order, keeps the pairing |
| `QueryBuilder.SqlQueryBuilder.Update` | backend/frameworks/SqlQueryBuilder.ts:193-221 | appends the update text but pushes nothing: the placeholder surplus grows by the number of keys |
| `QueryBuilder.SqlQueryBuilder.Execute` | backend/frameworks/SqlQueryBuilder.ts:243-288 | flag, connection, trace and status are those of `Protocol.Execute` run on the pre-call text and values; the text and values are emptied unless the acquisition outside a transaction failed (even inside a transaction with no connection, where a `TypeError` follows), untouched otherwise |
| `QueryBuilder.UpdateThenWhere` | backend/frameworks/SqlQueryBuilder.ts:217-219 | `update("users", {firstName: "Jane"}).where("userID", "=", 7)` gives `UPDATE users SET firstName = ? WHERE userID = ? ` with only `[7]` pushed |
| `QueryBuilder.InsertThenExecute` | backend/frameworks/SqlQueryBuilder.ts:134-139 | `insert("users", {email, pass})` then a successful `execute()` runs the exact insert text with both values on the connection taken, releases it and leaves the builder empty |

## Left out

- The pool and the driver (`./Conn.js`, `mysql2`). What `getConnection`,
  `beginTransaction`, `commit`, `rollback` and `query` do is foreign I/O.
  Only their success or failure is an input. The one part of `query` that
  is modelled is positional substitution (`Binding.Bind`).
- Binding.Bind: treats every `?` as one value slot. The driver's `??`
  identifier placeholders are not modelled. The builder writes no `??`
  when the names spliced into the text contain no `?`, which is what the
  placeholder lemmas assume.
- `release()` is assumed never to throw.
- async/await scheduling. The model is sequential, and only the order of
  effects is kept.
- The `console.log` calls in `rollBack` and `insert`.
- The result of `execute`. The code returns nothing, so there is no result
  to classify as a mutation or a row set.
- The internals of `getQuestionMarks`. That file is not part of this model.
  `Text.QuestionMarks` follows the doc comment at lines 175-176, which
  gives only the three-element example.
- Text.QuestionMarks: the text for no elements (`""`) is this model's
  choice; no comment documents it. `CallPlaceholders` and
  `InsertPlaceholders` rely on it for `callProcedure(name, [])` and
  `insert(table, {})`.
- `Object.keys` puts integer-like keys first, in ascending order. A record
  is modelled as its enumeration order. `Object.values` uses the same order,
  which is all the pairing needs.
- Values are `null`, booleans, integers and strings. Floats, dates and
  nested objects are not modelled, and no value is ever inspected.
- The placeholder counts assume table, column, connector and operation
  names contain no `?`. These names are spliced into the text, not bound.
  A `?` in them would add a placeholder, as the unconditional
  `Text.PlaceholdersAppend` shows.
- The `User` type, `userHandlerModel.ts` (connection plumbing and empty
  stubs) and the commented-out history after line 290 of the builder file
  are not part of this model.
