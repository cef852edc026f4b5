/** The users controller: how `create`, `getById`, `getList`, `update` and
    `delete` build their SQL text and bind their parameters, how result rows
    are turned back into `{id, name, email}` maps, and which status string each
    write handler returns.

    The database stays abstract.  A read handler hands its statement to a
    `query` function and walks the cursor that comes back; a write handler
    hands its statement to an `execute` function and looks only at whether it
    threw.  Nothing here decides which rows match a filter. */
module UserController {
  import opened Statements

  /** `s != null && !s.isEmpty()`: the test `getList` and `update` apply to names and emails. */
  predicate Present(s: Option<string>)
  {
    s.Some? && s.value != ""
  }

  /** `param.get(key)` on a request body; a missing key reads as null. */
  function Lookup(param: map<string, string>, key: string): Option<string>
  {
    if key in param then Some(param[key]) else None
  }

  function OneIf(b: bool): nat
  {
    if b then 1 else 0
  }

  function IdParam(id: Long): Param
  {
    Param(Id, Eq, LongVal(id))
  }

  // ---------------------------------------------------------------------------
  // Result rows

  /** What `getLong("id")`, `getString("name")` and `getString("email")` return
      for one row of a result set. */
  datatype Row = Row(id: Long, name: Option<string>, email: Option<string>)

  /** How a result set ends after its fully read rows: `next()` returns false,
      something throws before the next row could be read (including the
      connection, the statement or `executeQuery` failing, so that no row is read
      at all), or `next()` moves to `row` and the getter for `column` throws. */
  datatype CursorEnd = Exhausted | Throws | ThrowsReading(row: Row, column: Column)

  datatype Cursor = Cursor(rows: seq<Row>, end: CursorEnd)

  const UserKeys: set<string> := {"id", "name", "email"}

  /** `user` holds exactly the three fields of `row`. */
  predicate HoldsRow(user: map<string, Value>, row: Row)
  {
    && user.Keys == UserKeys
    && user["id"] == LongVal(row.id)
    && user["name"] == StringOrNull(row.name)
    && user["email"] == StringOrNull(row.email)
  }

  // ---------------------------------------------------------------------------
  // Write outcomes and status strings

  /** What `executeUpdate` does: returns an affected-row count, or throws an
      exception whose `getMessage()` may be null. */
  datatype WriteOutcome = Executed(rowCount: nat) | Failed(message: Option<string>)

  /** Java string concatenation writes a null message as `null`. */
  function MessageText(m: Option<string>): string
  {
    match m
    case None => "null"
    case Some(s) => s
  }

  const SaveOk := "저장 성공!"
  const SaveFailed := "저장 실패: "
  const UpdateOk := "수정 성공!"
  const UpdateFailed := "수정 실패"
  const DeleteOk := "삭제 성공!"
  const DeleteFailed := "삭제 실패"

  /** The failure text of `create` never reads as its success text, whatever the message. */
  lemma SaveMessagesDiffer(m: Option<string>)
    ensures SaveFailed + MessageText(m) != SaveOk
  {
    assert (SaveFailed + MessageText(m))[3] == '실';
  }

  // ---------------------------------------------------------------------------
  // create

  const InsertSql := "INSERT INTO users (name, email) VALUES (?, ?)"

  function InsertStatement(name: Option<string>, email: Option<string>): Statement
  {
    Statement(InsertSql, map[1 := StringOrNull(name), 2 := StringOrNull(email)])
  }

  /** The insert's text has two placeholders. */
  lemma InsertSqlCount()
    ensures CountPlaceholders(InsertSql) == 2
  {
    var s1 := "INSERT INTO users (name, email) VALUES (";
    PlaceholdersPlain([], s1);
    assert [] + s1 == s1;
    PlaceholdersClause(s1, "");
    var s2 := s1 + ("" + "?");
    PlaceholdersClause(s2, ", ");
    var s3 := s2 + (", " + "?");
    PlaceholdersPlain(s3, ")");
    assert s3 + ")" == InsertSql;
  }

  /** Both placeholders of the insert are bound, and no other slot. */
  lemma InsertStatementBound(name: Option<string>, email: Option<string>)
    ensures WellBound(InsertStatement(name, email))
  {
    InsertSqlCount();
    var params := InsertStatement(name, email).params;
    forall i: nat | 1 <= i <= CountPlaceholders(InsertSql) ensures i in params {
      assert i == 1 || i == 2;
    }
  }

  /** `create`: insert the body's name and email (null when missing) and report
      whether `executeUpdate` threw. */
  method Create(param: map<string, string>, execute: Statement -> WriteOutcome) returns (response: string)
    ensures var outcome := execute(InsertStatement(Lookup(param, "name"), Lookup(param, "email")));
      && (response == SaveOk <==> outcome.Executed?)
      && (outcome.Failed? ==> response == SaveFailed + MessageText(outcome.message))
  {
    var sql := InsertSql;
    var params: map<nat, Value> := map[];
    params := params[1 := StringOrNull(Lookup(param, "name"))];
    params := params[2 := StringOrNull(Lookup(param, "email"))];
    var outcome := execute(Statement(sql, params));
    match outcome
    case Executed(_) =>
      response := SaveOk;
    case Failed(message) =>
      SaveMessagesDiffer(message);
      response := SaveFailed + MessageText(message);
  }

  // ---------------------------------------------------------------------------
  // getById

  const ByIdSql := "SELECT id, name, email FROM users WHERE id = ?"

  function ByIdStatement(id: Long): Statement
  {
    Statement(ByIdSql, map[1 := LongVal(id)])
  }

  /** The lookup has one placeholder, after `id = `, and its one slot holds the id. */
  lemma ByIdStatementAgrees(id: Long)
    ensures BindsAgree(ByIdSql, [IdParam(id)])
    ensures WellBound(ByIdStatement(id))
  {
    var base := "SELECT id, name, email FROM users WHERE";
    assert '?' !in base;
    OneClauseStatement(base, " ", IdParam(id));
    assert base + Fragment(" ", IdParam(id)) == ByIdSql;
  }

  /** `getById`: the first row's three fields, or an empty map when there is no row.
      An exception is swallowed; one thrown by a getter leaves the fields put before it. */
  method GetById(id: Long, query: Statement -> Cursor) returns (user: map<string, Value>)
    ensures var cursor := query(ByIdStatement(id));
      && (cursor.rows != [] ==> HoldsRow(user, cursor.rows[0]))
      && (cursor.rows == [] && !cursor.end.ThrowsReading? ==> user == map[])
      && (cursor.rows == [] && cursor.end.ThrowsReading? ==>
            var r := cursor.end.row;
            match cursor.end.column
            case Id => user == map[]
            case Name => user == map["id" := LongVal(r.id)]
            case Email => user == map["id" := LongVal(r.id), "name" := StringOrNull(r.name)])
  {
    var sql := ByIdSql;
    user := map[];
    var params: map<nat, Value> := map[];
    params := params[1 := LongVal(id)];
    var resultSet := query(Statement(sql, params));
    if resultSet.rows != [] {
      var row := resultSet.rows[0];
      user := user["id" := LongVal(row.id)];
      user := user["name" := StringOrNull(row.name)];
      user := user["email" := StringOrNull(row.email)];
    } else if resultSet.end.ThrowsReading? {
      var row, failing := resultSet.end.row, resultSet.end.column;
      if failing != Id {
        user := user["id" := LongVal(row.id)];
      }
      if failing == Email {
        user := user["name" := StringOrNull(row.name)];
      }
    }
  }

  // ---------------------------------------------------------------------------
  // getList

  const ListBase := "SELECT id, name, email FROM users WHERE 1=1"

  /** `p` is the parameter `getList` binds for its column: the id as is, compared
      with `=`; a name or email wrapped in `%`, matched with `LIKE`; and only
      when that filter is given. */
  predicate ListFilter(p: Param, id: Option<Long>, name: Option<string>, email: Option<string>)
  {
    match p.column
    case Id => id.Some? && p == IdParam(id.value)
    case Name => Present(name) && p == Param(Name, Like, StringVal("%" + name.value + "%"))
    case Email => Present(email) && p == Param(Email, Like, StringVal("%" + email.value + "%"))
  }

  /** The list query's parameters: exactly the given filters, in the fixed order
      id, name, email; the id compared with `=` and bound as is, a name or email
      matched with `LIKE` and bound wrapped in `%`. */
  function ListPlan(id: Option<Long>, name: Option<string>, email: Option<string>): seq<Param>
  {
    // `[] + [...]` is the shape `ListParams` reaches by appending to an empty plan.
    var byId := if id.Some? then [] + [IdParam(id.value)] else [];
    var byName := if Present(name) then byId + [Param(Name, Like, StringVal("%" + name.value + "%"))] else byId;
    if Present(email) then byName + [Param(Email, Like, StringVal("%" + email.value + "%"))] else byName
  }

  /** The list query binds exactly the given filters, in the fixed order id, name,
      email, each in the form `getList` binds it. */
  lemma ListPlanShape(id: Option<Long>, name: Option<string>, email: Option<string>)
    ensures var plan := ListPlan(id, name, email);
      && |plan| == OneIf(id.Some?) + OneIf(Present(name)) + OneIf(Present(email))
      && (forall j, k | 0 <= j < k < |plan| :: Rank(plan[j].column) < Rank(plan[k].column))
      && (forall k | 0 <= k < |plan| :: ListFilter(plan[k], id, name, email))
  {
  }

  /** The match-all base holds no `?`. */
  lemma ListBasePlain()
    ensures '?' !in ListBase
  {
  }

  /** The list query: the match-all base followed by one ` AND <column> <op> ?` per parameter. */
  function ListStatement(id: Option<Long>, name: Option<string>, email: Option<string>): Statement
  {
    var plan := ListPlan(id, name, email);
    Statement(WithClauses(ListBase, " AND ", plan), Slots(plan))
  }

  /** The SQL text and the slots of the list query agree: one placeholder per
      parameter, each after its own column, and every slot bound. */
  lemma ListStatementAgrees(id: Option<Long>, name: Option<string>, email: Option<string>)
    ensures var stmt := ListStatement(id, name, email);
      && StartsWith(stmt.sql, ListBase)
      && BindsAgree(stmt.sql, ListPlan(id, name, email))
      && CountPlaceholders(stmt.sql) == |ListPlan(id, name, email)|
      && WellBound(stmt)
  {
    ListBasePlain();
    ClausesStatement(ListBase, " AND ", ListPlan(id, name, email));
  }

  /** The clause text `getList` appends for each kind of filter. */
  lemma ListClauseText(p: Param)
    ensures p.column == Id && p.op == Eq ==> Fragment(" AND ", p) == " AND id = ?"
    ensures p.column == Name && p.op == Like ==> Fragment(" AND ", p) == " AND name LIKE ?"
    ensures p.column == Email && p.op == Like ==> Fragment(" AND ", p) == " AND email LIKE ?"
  {
  }

  /** The first pass of `getList`: the SQL text, grown by one clause for each
      filter that is given. */
  method ListSql(id: Option<Long>, name: Option<string>, email: Option<string>) returns (sql: string)
    ensures sql == WithClauses(ListBase, " AND ", ListPlan(id, name, email))
  {
    sql := ListBase;
    ghost var clauses: seq<Param> := [];
    if id.Some? {
      var p := IdParam(id.value);
      WithClausesSnoc(ListBase, " AND ", clauses, p);
      ListClauseText(p);
      sql := sql + " AND id = ?";
      clauses := clauses + [p];
    }
    if name.Some? && name.value != "" {
      var p := Param(Name, Like, StringVal("%" + name.value + "%"));
      WithClausesSnoc(ListBase, " AND ", clauses, p);
      ListClauseText(p);
      sql := sql + " AND name LIKE ?";
      clauses := clauses + [p];
    }
    if email.Some? && email.value != "" {
      var p := Param(Email, Like, StringVal("%" + email.value + "%"));
      WithClausesSnoc(ListBase, " AND ", clauses, p);
      ListClauseText(p);
      sql := sql + " AND email LIKE ?";
      clauses := clauses + [p];
    }
    assert clauses == ListPlan(id, name, email);
  }

  /** The second pass of `getList`: the bound values, under the same three
      conditions, each put into slot `paramIndex++`. */
  method ListParams(id: Option<Long>, name: Option<string>, email: Option<string>)
    returns (params: map<nat, Value>, paramIndex: nat)
    ensures params == Slots(ListPlan(id, name, email))
    ensures paramIndex == 1 + |ListPlan(id, name, email)|
  {
    params := map[];
    paramIndex := 1;
    ghost var bound: seq<Param> := [];
    if id.Some? {
      var p := IdParam(id.value);
      SlotsSnoc(bound, p);
      params := params[paramIndex := LongVal(id.value)];
      paramIndex := paramIndex + 1;
      bound := bound + [p];
    }
    if name.Some? && name.value != "" {
      var p := Param(Name, Like, StringVal("%" + name.value + "%"));
      SlotsSnoc(bound, p);
      params := params[paramIndex := StringVal("%" + name.value + "%")];
      paramIndex := paramIndex + 1;
      bound := bound + [p];
    }
    if email.Some? && email.value != "" {
      var p := Param(Email, Like, StringVal("%" + email.value + "%"));
      SlotsSnoc(bound, p);
      params := params[paramIndex := StringVal("%" + email.value + "%")];
      paramIndex := paramIndex + 1;
      bound := bound + [p];
    }
    assert params == Slots(bound) && paramIndex == 1 + |bound|;
    assert bound == ListPlan(id, name, email);
  }

  /** The statement `getList` runs: the two passes agree, so every placeholder is
      bound, in order, to the value for its own column, and `paramIndex` ends one
      past the last placeholder. */
  method BuildListStatement(id: Option<Long>, name: Option<string>, email: Option<string>)
    returns (stmt: Statement, paramIndex: nat)
    ensures stmt == ListStatement(id, name, email)
    ensures BindsAgree(stmt.sql, ListPlan(id, name, email))
    ensures WellBound(stmt)
    ensures paramIndex == 1 + CountPlaceholders(stmt.sql)
  {
    var sql := ListSql(id, name, email);
    var params;
    params, paramIndex := ListParams(id, name, email);
    stmt := Statement(sql, params);
    ListStatementAgrees(id, name, email);
  }

  /** The result-set loop of `getList`: one `{id, name, email}` map per row the
      cursor delivers, in row order.  Whatever ends the iteration, the maps
      collected so far are kept. */
  method CollectUsers(resultSet: Cursor) returns (userList: seq<map<string, Value>>)
    ensures |userList| == |resultSet.rows|
    ensures forall k | 0 <= k < |userList| :: HoldsRow(userList[k], resultSet.rows[k])
  {
    userList := [];
    var i := 0;
    while i < |resultSet.rows|
      invariant 0 <= i <= |resultSet.rows|
      invariant |userList| == i
      invariant forall k | 0 <= k < i :: HoldsRow(userList[k], resultSet.rows[k])
    {
      var row := resultSet.rows[i];
      var user: map<string, Value> := map[];
      user := user["id" := LongVal(row.id)];
      user := user["name" := StringOrNull(row.name)];
      user := user["email" := StringOrNull(row.email)];
      userList := userList + [user];
      i := i + 1;
    }
  }

  /** `getList`: the maps of the rows the list query delivers.  An exception is
      swallowed and the maps collected before it are returned. */
  method GetList(id: Option<Long>, name: Option<string>, email: Option<string>, query: Statement -> Cursor)
    returns (userList: seq<map<string, Value>>)
    ensures var rows := query(ListStatement(id, name, email)).rows;
      && |userList| == |rows|
      && forall k | 0 <= k < |rows| :: HoldsRow(userList[k], rows[k])
  {
    var stmt, paramIndex := BuildListStatement(id, name, email);
    userList := CollectUsers(query(stmt));
  }

  // ---------------------------------------------------------------------------
  // update

  const UpdateHead := "UPDATE users SET id = ?"
  const UpdateTail := " WHERE id = ?"

  /** The optional assignments of `update`: name, then email, each only when non-empty. */
  function SetPlan(name: Option<string>, email: Option<string>): seq<Param>
  {
    (if Present(name) then [Param(Name, Eq, StringVal(name.value))] else [])
    + (if Present(email) then [Param(Email, Eq, StringVal(email.value))] else [])
  }

  /** `p` is an assignment `update` binds: a given name or email, as is. */
  predicate Assignment(p: Param, name: Option<string>, email: Option<string>)
  {
    match p.column
    case Id => false
    case Name => Present(name) && p == Param(Name, Eq, StringVal(name.value))
    case Email => Present(email) && p == Param(Email, Eq, StringVal(email.value))
  }

  /** The parameters of `update`: the id (for the self-assignment), the given
      fields among name and email in that order, and the id again (for WHERE). */
  function UpdatePlan(id: Long, name: Option<string>, email: Option<string>): seq<Param>
  {
    [IdParam(id)] + SetPlan(name, email) + [IdParam(id)]
  }

  /** `update` binds 2 + (number of fields given) values: the id, the given fields
      among name and email in that order, and the id again. */
  lemma UpdatePlanShape(id: Long, name: Option<string>, email: Option<string>)
    ensures var plan := UpdatePlan(id, name, email);
      && |plan| == 2 + OneIf(Present(name)) + OneIf(Present(email))
      && plan[0] == IdParam(id) && plan[|plan| - 1] == IdParam(id)
      && (forall j, k | 0 < j < k < |plan| - 1 :: Rank(plan[j].column) < Rank(plan[k].column))
      && (forall k | 0 < k < |plan| - 1 :: Assignment(plan[k], name, email))
  {
  }

  /** The update: the id self-assignment, one `, <column> = ?` per given field, and
      the id condition. */
  function UpdateStatement(id: Long, name: Option<string>, email: Option<string>): Statement
  {
    Statement(WithClauses(UpdateHead, ", ", SetPlan(name, email)) + UpdateTail, Slots(UpdatePlan(id, name, email)))
  }

  /** The SQL text of `update` agrees with its plan. */
  lemma UpdateSqlAgrees(id: Long, name: Option<string>, email: Option<string>)
    ensures BindsAgree(UpdateStatement(id, name, email).sql, UpdatePlan(id, name, email))
  {
    var p, middle := IdParam(id), SetPlan(name, email);
    UpdateClauseText(p);
    PlainAgrees("");
    AgreeSnoc("", [], "UPDATE users SET ", p);
    assert [] + [p] == [p];
    ClausesAgree(UpdateHead, [p], ", ", middle);
    var body := WithClauses(UpdateHead, ", ", middle);
    AgreeSnoc(body, [p] + middle, " WHERE ", p);
  }

  /** The update's SQL text starts with the id self-assignment and ends with the id
      condition, agrees with its slots, and binds the id first and last. */
  lemma UpdateStatementAgrees(id: Long, name: Option<string>, email: Option<string>)
    ensures var stmt, plan := UpdateStatement(id, name, email), UpdatePlan(id, name, email);
      && StartsWith(stmt.sql, UpdateHead)
      && EndsWith(stmt.sql, UpdateTail)
      && BindsAgree(stmt.sql, plan)
      && CountPlaceholders(stmt.sql) == |plan|
      && WellBound(stmt)
      && stmt.params[1] == LongVal(id)
      && stmt.params[|plan|] == LongVal(id)
  {
    var sql, plan := UpdateStatement(id, name, email).sql, UpdatePlan(id, name, email);
    UpdateSqlShape(name, email);
    UpdateSqlAgrees(id, name, email);
    AgreeWellBound(sql, plan);
    SlotsFacts(plan);
  }

  /** The update's text opens with the id self-assignment and closes with the id condition. */
  lemma UpdateSqlShape(name: Option<string>, email: Option<string>)
    ensures var sql := WithClauses(UpdateHead, ", ", SetPlan(name, email)) + UpdateTail;
      StartsWith(sql, UpdateHead) && EndsWith(sql, UpdateTail)
  {
    var body := WithClauses(UpdateHead, ", ", SetPlan(name, email));
    var sql := body + UpdateTail;
    ClausesExtendHead(UpdateHead, ", ", SetPlan(name, email));
    assert sql[..|UpdateHead|] == body[..|UpdateHead|];
    assert sql[|sql| - |UpdateTail|..] == UpdateTail;
  }

  /** The fixed and the optional clause texts of `update`. */
  lemma UpdateClauseText(p: Param)
    // `"" + ...` is the shape `AgreeSnoc` produces when the head is empty.
    ensures p.column == Id && p.op == Eq ==> "" + Fragment("UPDATE users SET ", p) == UpdateHead
    ensures p.column == Id && p.op == Eq ==> Fragment(" WHERE ", p) == UpdateTail
    ensures p.column == Name && p.op == Eq ==> Fragment(", ", p) == ", name = ?"
    ensures p.column == Email && p.op == Eq ==> Fragment(", ", p) == ", email = ?"
  {
  }

  /** The first pass of `update`: the SQL text, with one assignment for each field given. */
  method UpdateSql(name: Option<string>, email: Option<string>) returns (sql: string)
    ensures sql == WithClauses(UpdateHead, ", ", SetPlan(name, email)) + UpdateTail
  {
    sql := UpdateHead;
    ghost var clauses: seq<Param> := [];
    if name.Some? && name.value != "" {
      var p := Param(Name, Eq, StringVal(name.value));
      WithClausesSnoc(UpdateHead, ", ", clauses, p);
      UpdateClauseText(p);
      sql := sql + ", name = ?";
      clauses := clauses + [p];
    }
    if email.Some? && email.value != "" {
      var p := Param(Email, Eq, StringVal(email.value));
      WithClausesSnoc(UpdateHead, ", ", clauses, p);
      UpdateClauseText(p);
      sql := sql + ", email = ?";
      clauses := clauses + [p];
    }
    assert clauses == SetPlan(name, email);
    sql := sql + " WHERE id = ?";
  }

  /** The second pass of `update`: the id, the given fields and the id again, each
      put into slot `paramIndex++`. */
  method UpdateParams(id: Long, name: Option<string>, email: Option<string>)
    returns (params: map<nat, Value>, paramIndex: nat)
    ensures params == Slots(UpdatePlan(id, name, email))
    ensures paramIndex == 1 + |UpdatePlan(id, name, email)|
  {
    params := map[];
    paramIndex := 1;
    var key := IdParam(id);
    SlotsSnoc([], key);
    params := params[paramIndex := LongVal(id)];
    paramIndex := paramIndex + 1;
    ghost var given: seq<Param> := [];
    assert [] + [key] == [key] + given;
    if name.Some? && name.value != "" {
      var p := Param(Name, Eq, StringVal(name.value));
      SlotsSnoc([key] + given, p);
      params := params[paramIndex := StringVal(name.value)];
      paramIndex := paramIndex + 1;
      assert ([key] + given) + [p] == [key] + (given + [p]);
      given := given + [p];
    }
    if email.Some? && email.value != "" {
      var p := Param(Email, Eq, StringVal(email.value));
      SlotsSnoc([key] + given, p);
      params := params[paramIndex := StringVal(email.value)];
      paramIndex := paramIndex + 1;
      assert ([key] + given) + [p] == [key] + (given + [p]);
      given := given + [p];
    }
    assert given == SetPlan(name, email);
    SlotsSnoc([key] + given, key);
    params := params[paramIndex := LongVal(id)];
    paramIndex := paramIndex + 1;
  }

  /** The statement `update` runs: the two passes agree, so every placeholder is
      bound, in order, to the value for its own column, and `paramIndex` ends one
      past the last placeholder. */
  method BuildUpdateStatement(id: Long, name: Option<string>, email: Option<string>)
    returns (stmt: Statement, paramIndex: nat)
    ensures stmt == UpdateStatement(id, name, email)
    ensures BindsAgree(stmt.sql, UpdatePlan(id, name, email))
    ensures WellBound(stmt)
    ensures paramIndex == 1 + CountPlaceholders(stmt.sql)
  {
    var sql := UpdateSql(name, email);
    var params;
    params, paramIndex := UpdateParams(id, name, email);
    stmt := Statement(sql, params);
    UpdateStatementAgrees(id, name, email);
  }

  /** `update`: rewrite the given fields of the row with the path id; success
      whenever `executeUpdate` does not throw, also when no row matched. */
  method Update(id: Long, param: map<string, string>, execute: Statement -> WriteOutcome)
    returns (response: string)
    ensures var outcome := execute(UpdateStatement(id, Lookup(param, "name"), Lookup(param, "email")));
      && (response == UpdateOk <==> outcome.Executed?)
      && (outcome.Failed? ==> response == UpdateFailed)
  {
    var name := Lookup(param, "name");
    var email := Lookup(param, "email");
    var stmt, paramIndex := BuildUpdateStatement(id, name, email);
    var outcome := execute(stmt);
    match outcome
    case Executed(_) =>
      response := UpdateOk;
    case Failed(_) =>
      response := UpdateFailed;
  }

  // ---------------------------------------------------------------------------
  // delete

  const DeleteSql := "DELETE FROM users WHERE id = ?"

  function DeleteStatement(id: Long): Statement
  {
    Statement(DeleteSql, map[1 := LongVal(id)])
  }

  /** The delete has one placeholder, after `id = `, and its one slot holds the id. */
  lemma DeleteStatementAgrees(id: Long)
    ensures BindsAgree(DeleteSql, [IdParam(id)])
    ensures WellBound(DeleteStatement(id))
  {
    var base := "DELETE FROM users WHERE";
    assert '?' !in base;
    OneClauseStatement(base, " ", IdParam(id));
    assert base + Fragment(" ", IdParam(id)) == DeleteSql;
  }

  /** `delete`: remove the row with the path id; success whenever `executeUpdate`
      does not throw, also when no row existed. */
  method Delete(id: Long, execute: Statement -> WriteOutcome) returns (response: string)
    ensures var outcome := execute(DeleteStatement(id));
      && (response == DeleteOk <==> outcome.Executed?)
      && (outcome.Failed? ==> response == DeleteFailed)
  {
    var sql := DeleteSql;
    var params: map<nat, Value> := map[];
    params := params[1 := LongVal(id)];
    var outcome := execute(Statement(sql, params));
    match outcome
    case Executed(_) =>
      response := DeleteOk;
    case Failed(_) =>
      response := DeleteFailed;
  }

  // ---------------------------------------------------------------------------
  // Properties across calls

  /** With no filter given, the list query is the bare match-all statement. */
  lemma ListWithoutFilters(name: Option<string>, email: Option<string>)
    requires !Present(name) && !Present(email)
    ensures ListStatement(None, name, email) == Statement("SELECT id, name, email FROM users WHERE 1=1", map[])
  {
    assert ListPlan(None, name, email) == [];
  }

  /** A null and an empty name or email are the same to `getList`. */
  lemma ListNullIsEmpty(id: Option<Long>, name: Option<string>, email: Option<string>)
    ensures ListStatement(id, None, email) == ListStatement(id, Some(""), email)
    ensures ListStatement(id, name, None) == ListStatement(id, name, Some(""))
  {
  }

  /** A null and an empty name or email are the same to `update`. */
  lemma UpdateNullIsEmpty(id: Long, name: Option<string>, email: Option<string>)
    ensures UpdateStatement(id, None, email) == UpdateStatement(id, Some(""), email)
    ensures UpdateStatement(id, name, None) == UpdateStatement(id, name, Some(""))
  {
  }

  /** The list query's SQL text depends only on which filters are given, never on
      their values: values reach the database through slots alone. */
  lemma ListSqlIgnoresValues(id: Option<Long>, name: Option<string>, email: Option<string>,
                             id': Option<Long>, name': Option<string>, email': Option<string>)
    requires id.Some? == id'.Some? && Present(name) == Present(name') && Present(email) == Present(email')
    ensures ListStatement(id, name, email).sql == ListStatement(id', name', email').sql
  {
    var plan, plan' := ListPlan(id, name, email), ListPlan(id', name', email');
    forall k | 0 <= k < |plan| ensures Marker(plan[k]) == Marker(plan'[k]) {
      assert plan[k].column == plan'[k].column && plan[k].op == plan'[k].op;
    }
    ClausesIgnoreValues(ListBase, " AND ", plan, plan');
  }

  /** The same for `update`. */
  lemma UpdateSqlIgnoresValues(id: Long, name: Option<string>, email: Option<string>,
                               id': Long, name': Option<string>, email': Option<string>)
    requires Present(name) == Present(name') && Present(email) == Present(email')
    ensures UpdateStatement(id, name, email).sql == UpdateStatement(id', name', email').sql
  {
    var plan, plan' := SetPlan(name, email), SetPlan(name', email');
    forall k | 0 <= k < |plan| ensures Marker(plan[k]) == Marker(plan'[k]) {
      assert plan[k].column == plan'[k].column && plan[k].op == plan'[k].op;
    }
    ClausesIgnoreValues(UpdateHead, ", ", plan, plan');
  }
}
