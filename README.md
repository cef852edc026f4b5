# Users controller: statement construction and result mapping

A Dafny model of `UserController`, the Spring REST controller of a small
user-management service. It serves five handlers over a `users(id, name,
email)` table through JDBC:

- `create` (POST /users)
- `getById` (GET /users/{id})
- `getList` (GET /users, with optional `id`, `name` and `email` filters)
- `update` (PUT /users/{id})
- `delete` (DELETE /users/{id})

The core is how each handler builds its parameterised SQL statement, binds its
values to the statement's 1-based slots, turns result rows back into
`{id, name, email}` maps, and picks the status string it returns.

Two modules:

- `Statements` (`statements.dfy`) holds what a prepared statement is:
  - `Statement` is an SQL text plus a map from slot number to bound value
    (`setLong` / `setString` write into that map).
  - `Placeholders` lists the positions of the `?` markers.
  - `WellBound` is JDBC's rule: bound slots are exactly `1 .. number of placeholders`.
  - `BindsAgree` says a text and a list of parameters (a *plan*) match. There is
    one placeholder per parameter, and right in front of the k-th `?` stands
    the column and comparison (`name LIKE `, `id = `) of the k-th parameter.
  - `WithClauses` (a head plus one `sep column op ?` fragment per parameter) and
    `Slots` (slot i holds the i-th parameter's value) are the two shapes the
    builders produce. The lemmas connect them.
- `UserController` (`user_controller.dfy`) holds the handlers. `getList` and
  `update` build their text and bind their slots in two separate passes, as the
  Java code does. Each pass is an imperative method that mirrors the code's
  `sql.append(...)` calls and `paramIndex++` bindings. For both handlers a
  function names the plan the code means: `ListPlan` and `UpdatePlan`. The
  bind passes are proved to produce exactly `Slots` of that plan. The text
  pass of `getList` is proved to produce `WithClauses` of its plan. The text
  pass of `update` produces the fixed head `UPDATE users SET id = ?`, then
  `WithClauses` of the optional assignments (`SetPlan`, the middle of
  `UpdatePlan`), then the fixed tail ` WHERE id = ?`.
  Lemmas then show that the two passes agree: every placeholder is bound, in
  order, to the value of its own column, and `paramIndex` ends one past the
  last placeholder.

The database is abstract. A read handler takes a function `query: Statement ->
Cursor`. A write handler takes a function `execute: Statement -> WriteOutcome`.
The model proves what the controller does with whatever comes back, and never
decides which rows match a filter.

- A `Cursor` is the list of rows delivered in full, plus how the iteration ended:
  - `Exhausted`: `next()` returned false.
  - `Throws`: something threw before the next row was read, including the
    connection or `executeQuery` failing.
  - `ThrowsReading(row, column)`: `next()` moved to `row` and the getter for
    `column` threw.
- A `WriteOutcome` is either an affected-row count or an exception with a
  possibly-null message.

How the handlers behave on an exception, as the code does it:

- On an exception, `getList` returns the maps collected before it. The list
  is created before the query runs and returned after the catch, so rows read
  before a failure stay in it (UserController.java lines 127 and 145-160).
  `CollectUsers` / `GetList` return those maps.
- On an exception, `getById` returns whatever it has put so far. Its
  documentation allows null or an empty map when there is no row (line 57).
  The code always returns the map it created at line 72, which is then empty.
  If `getString("name")` or `getString("email")` throws after earlier `put`
  calls, the code returns the partly filled map (lines 81-91). `GetById`
  states those partial maps.
- `e.getMessage()` may be null. Java string concatenation then writes `null`,
  so `create` answers `저장 실패: null` (line 50). `MessageText` models this.

## Model

| member | source | states |
|---|---|---|
| Statements.PlaceholdersSound | src/main/java/com/example/demo/UserController.java:132 | every position the statement counts as a parameter holds a `?` of the SQL text and lies inside it |
| Statements.PlaceholdersComplete | src/main/java/com/example/demo/UserController.java:132 | every `?` of the SQL text is a parameter position |
| Statements.PlaceholdersIncreasing | src/main/java/com/example/demo/UserController.java:132 | parameter positions are numbered left to right |
| Statements.CountIsOccurrences | src/main/java/com/example/demo/UserController.java:132 | the number of parameters is the number of `?` characters in the text |
| Statements.SlotsFacts | src/main/java/com/example/demo/UserController.java:133-143 | binding a plan with `paramIndex++` binds exactly slots 1..n, and slot i holds the i-th value |
| Statements.SlotsSnoc | src/main/java/com/example/demo/UserController.java:136 | one more `setX(paramIndex++, v)` binds the next slot to v and keeps the earlier ones |
| Statements.WithClausesSnoc | src/main/java/com/example/demo/UserController.java:116-124 | one more `append` of a fragment extends the text by exactly that fragment |
| Statements.ClausesExtendHead | src/main/java/com/example/demo/UserController.java:113-124 | appending clauses never disturbs the base text: the result starts with it |
| Statements.ClausesAgree | src/main/java/com/example/demo/UserController.java:116-124 | after any run of `?`-terminated fragments, the k-th `?` stands right after the k-th parameter's column and comparison |
| Statements.AgreeWellBound | src/main/java/com/example/demo/UserController.java:131-143 | when text and plan agree, the placeholder count equals the plan length and binding the plan fills every slot the statement has and no other |
| Statements.ClausesStatement | src/main/java/com/example/demo/UserController.java:113-143 | a `?`-free base followed by fragments, with the plan's values in the slots, starts with the base, agrees with the plan and is well bound |
| Statements.ClausesIgnoreValues | src/main/java/com/example/demo/UserController.java:116-124 | the built SQL text depends only on the columns and comparisons of the plan, never on the bound values |
| UserController.SaveMessagesDiffer | src/main/java/com/example/demo/UserController.java:47-50 | the failure text of `create` never equals its success text, whatever the exception message |
| UserController.InsertSqlCount | src/main/java/com/example/demo/UserController.java:38 | the insert text has exactly two placeholders |
| UserController.InsertStatementBound | src/main/java/com/example/demo/UserController.java:38-43 | binding name to slot 1 and email to slot 2 fills every slot of the insert |
| UserController.Create | src/main/java/com/example/demo/UserController.java:36-51 | runs the insert with the body's name and email (null when missing); answers `저장 성공!` exactly when the update does not throw, else `저장 실패: ` followed by the message, or `null` when there is none |
| UserController.ByIdStatementAgrees | src/main/java/com/example/demo/UserController.java:71-78 | the lookup has one placeholder, after `id = `, and the id is bound to it |
| UserController.GetById | src/main/java/com/example/demo/UserController.java:69-91 | the first row's id, name and email under exactly those keys; an empty map when no row came; the fields put before a throwing getter otherwise |
| UserController.ListPlanShape | src/main/java/com/example/demo/UserController.java:135-143 | the list query binds 1 value per given filter, in the order id, name, email; the id as is, a name or email wrapped as `%v%` |
| UserController.ListStatementAgrees | src/main/java/com/example/demo/UserController.java:113-143 | the list query starts with the match-all base, has as many placeholders as bound values, each after its own column, and every slot is bound |
| UserController.ListClauseText | src/main/java/com/example/demo/UserController.java:117-123 | each literal clause `getList` appends is the fragment of the parameter it binds |
| UserController.ListSql | src/main/java/com/example/demo/UserController.java:113-124 | the first pass builds the base followed by one clause per given filter, in the plan's order |
| UserController.ListParams | src/main/java/com/example/demo/UserController.java:133-143 | the second pass binds exactly the plan's values to slots 1..n and leaves `paramIndex` at n + 1 |
| UserController.BuildListStatement | src/main/java/com/example/demo/UserController.java:113-143 | the two passes together yield a statement whose text and slots agree, and `paramIndex` ends at 1 + the placeholder count |
| UserController.CollectUsers | src/main/java/com/example/demo/UserController.java:145-153 | one `{id, name, email}` map per delivered row, in row order |
| UserController.GetList | src/main/java/com/example/demo/UserController.java:111-160 | the maps of the rows the list query delivers, in order, also those read before an exception |
| UserController.ListWithoutFilters | src/main/java/com/example/demo/UserController.java:113-143 | with no filter given the statement is the bare base text with no slot bound |
| UserController.ListNullIsEmpty | src/main/java/com/example/demo/UserController.java:119-141 | a null and an empty name or email build the same list statement |
| UserController.ListSqlIgnoresValues | src/main/java/com/example/demo/UserController.java:113-124 | the list text depends only on which filters are given, never on their values |
| UserController.UpdatePlanShape | src/main/java/com/example/demo/UserController.java:193-202 | `update` binds 2 + (number of given fields) values: the id first, the given fields name before email, the id last |
| UserController.UpdateSqlAgrees | src/main/java/com/example/demo/UserController.java:179-188 | every `?` of the update text stands after the column its slot assigns or tests |
| UserController.UpdateSqlShape | src/main/java/com/example/demo/UserController.java:179-188 | the update text starts with `UPDATE users SET id = ?` and ends with ` WHERE id = ?` |
| UserController.UpdateStatementAgrees | src/main/java/com/example/demo/UserController.java:179-202 | the update statement has that shape, agrees with its slots, is well bound, and binds the id to the first and the last slot |
| UserController.UpdateClauseText | src/main/java/com/example/demo/UserController.java:179-188 | each literal piece `update` writes is the fragment of the parameter it binds |
| UserController.UpdateSql | src/main/java/com/example/demo/UserController.java:179-188 | the first pass builds the self-assignment, one assignment per given field, and the id condition |
| UserController.UpdateParams | src/main/java/com/example/demo/UserController.java:193-202 | the second pass binds exactly the plan's values to slots 1..n and leaves `paramIndex` at n + 1 |
| UserController.BuildUpdateStatement | src/main/java/com/example/demo/UserController.java:179-202 | the two passes together yield a statement whose text and slots agree, and `paramIndex` ends at 1 + the placeholder count |
| UserController.Update | src/main/java/com/example/demo/UserController.java:177-210 | answers `수정 성공!` exactly when the update does not throw, also for zero affected rows, else `수정 실패` |
| UserController.UpdateNullIsEmpty | src/main/java/com/example/demo/UserController.java:182-200 | a null and an empty name or email build the same update statement |
| UserController.UpdateSqlIgnoresValues | src/main/java/com/example/demo/UserController.java:179-188 | the update text depends only on which fields are given, never on their values |
| UserController.DeleteStatementAgrees | src/main/java/com/example/demo/UserController.java:227-232 | the delete has one placeholder, after `id = `, and the id is bound to it |
| UserController.Delete | src/main/java/com/example/demo/UserController.java:225-239 | answers `삭제 성공!` exactly when the update does not throw, also for zero affected rows, else `삭제 실패` |

## Left out

- The database itself: which rows a query returns and what an update changes
  are the results of the `query` and `execute` parameters. No filter or row
  semantics are modelled.
- Connection handling: the `DataSource`, `getConnection`, `prepareStatement`
  and the try-with-resources closing. A failure there is folded into the cursor
  ending with `Throws` or into a `Failed` write outcome.
- An exception thrown by `setLong` / `setString`: it goes to the same handler
  and is covered by the same two cases.
- `e.printStackTrace()`: logging has no effect on any result.
- Spring routing, request-parameter conversion and JSON serialisation.
  `Lookup` treats a JSON null value like a missing key. Bodies whose values are
  not strings are not modelled.
- `getLong` returning 0 for an SQL NULL id: `Row.id` is already the value the
  getter returns.
- Concurrency: handlers share no in-process state.
- `HelloController.sayHello` returns a constant string and is not part of this
  model.
- GetList, GetById: the order of rows is whatever the cursor delivers. The
  model does not say which rows a filter selects.
- Create, Update, Delete: the affected-row count is ignored by the code. The
  model states only that a count, zero included, means success.
