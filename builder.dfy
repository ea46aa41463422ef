/** The builder object: the statement text and bound values its clause
    methods accumulate, and the transaction flag and connection that
    `beginTransaction`, `commit`, `rollBack` and `execute` drive. */
module QueryBuilder {
  import opened Text
  import opened Values
  import opened Binding
  import opened Clauses
  import opened Protocol

  /** Appending a fragment with as many placeholders as the values pushed
      with it keeps the surplus of placeholders over values, and a statement
      whose placeholders and values were paired binds the new values inside
      the new fragment. */
  lemma AppendClause(sql: string, values: seq<Value>, frag: string, pushed: seq<Value>)
    requires Placeholders(frag) == |pushed|
    ensures Placeholders(sql + frag) - |values + pushed| == Placeholders(sql) - |values|
    ensures Placeholders(sql) == |values| ==>
              Bind(sql + frag, values + pushed) == Bind(sql, values) + Bind(frag, pushed)
  {
    PlaceholdersAppend(sql, frag);
    if Placeholders(sql) == |values| {
      BindAppend(sql, frag, values, pushed);
    }
  }

  class SqlQueryBuilder {
    /** The statement text accumulated so far. */
    var sql: string
    /** The values bound to its placeholders, in order. */
    var values: seq<Value>
    var inTransaction: bool
    /** The connection last assigned; `None` until one is. */
    var conn: Option<Handle>
    /** Every call issued to the pool and the connections, oldest first. */
    ghost var trace: seq<DriverCall>

    /** The transaction flag and the connection, as the protocol sees them. */
    function State(): Session
      reads this
    {
      Session(inTransaction, conn)
    }

    /** How many more placeholders than values the text holds. */
    function Unpaired(): int
      reads this
    {
      Placeholders(sql) - |values|
    }

    /** The statement as the driver would bind it now. */
    function Bound(): seq<Token>
      reads this
    {
      Bind(sql, values)
    }

    constructor ()
      ensures sql == "" && values == [] && State() == Idle && trace == []
    {
      values := [];
      sql := "";
      inTransaction := false;
      conn := None;
      trace := [];
    }

    /** `beginTransaction`. */
    method BeginTransaction(acquire: Acquire, begin: Outcome) returns (status: Status)
      modifies this`inTransaction, this`conn, this`trace
      ensures var r := Begin(old(State()), acquire, begin);
              State() == r.session && trace == old(trace) + r.calls && status == r.status
    {
      if inTransaction {
        return Threw(Thrown(ActiveTransaction));
      }
      inTransaction := true;
      match acquire {
        case AcquireFailed(cause) =>
          return Threw(DriverError(cause));
        case Acquired(h) =>
          conn := Some(h);
          trace := trace + [GetConnection(h)];
      }
      trace := trace + [BeginTx(conn.value)];
      assert trace == old(trace) + [GetConnection(acquire.handle), BeginTx(acquire.handle)];
      status := StatusOf(begin);
    }

    /** `commit`. */
    method Commit(commit: Outcome) returns (status: Status)
      modifies this`trace
      ensures var r := Protocol.Commit(old(State()), commit);
              State() == r.session && trace == old(trace) + r.calls && status == r.status
    {
      match conn {
        case None =>
          status := Threw(TypeError);
        case Some(h) =>
          trace := trace + [CommitTx(h)];
          status := StatusOf(commit);
      }
    }

    /** `rollBack`: whatever happens, it completes. */
    method RollBack(rollback: Outcome)
      modifies this`trace
      ensures var r := Protocol.RollBack(old(State()), rollback);
              State() == r.session && trace == old(trace) + r.calls
    {
      match conn {
        case None =>
        case Some(h) =>
          trace := trace + [RollbackTx(h)];
          if rollback.Succeeded? {
            trace := trace + [Release(h)];
          }
      }
    }

    /** `select`. */
    method Select(table: string, fields: seq<string>) returns (self: SqlQueryBuilder)
      modifies this`sql
      ensures self == this
      ensures sql == old(sql) + SelectText(table, fields)
      ensures QuestionFree(table) && Identifiers(fields) ==> Unpaired() == old(Unpaired())
    {
      if QuestionFree(table) && Identifiers(fields) {
        SelectPlaceholders(table, fields);
        AppendClause(sql, values, SelectText(table, fields), []);
        assert values + [] == values;
      }
      sql := sql + SelectText(table, fields);
      return this;
    }

    /** `where`. */
    method Where(field: string, operation: string, value: Value) returns (self: SqlQueryBuilder)
      modifies this`sql, this`values
      ensures self == this
      ensures sql == old(sql) + ConditionText("WHERE", field, operation)
      ensures values == old(values) + [value]
      ensures QuestionFree(field) && QuestionFree(operation) ==> Unpaired() == old(Unpaired())
      ensures QuestionFree(field) && QuestionFree(operation) && old(Unpaired()) == 0 ==>
                Bound() == old(Bound()) + Bind(ConditionText("WHERE", field, operation), [value])
    {
      if QuestionFree(field) && QuestionFree(operation) {
        ConditionPlaceholders("WHERE", field, operation);
        AppendClause(sql, values, ConditionText("WHERE", field, operation), [value]);
      }
      sql := sql + ConditionText("WHERE", field, operation);
      values := values + [value];
      return this;
    }

    /** `getSql`: the text so far; nothing changes. */
    method GetSql() returns (text: string)
      ensures text == sql
    {
      return sql;
    }

    /** `and`. */
    method And(field: string, operation: string, value: Value) returns (self: SqlQueryBuilder)
      modifies this`sql, this`values
      ensures self == this
      ensures sql == old(sql) + ConditionText("AND", field, operation)
      ensures values == old(values) + [value]
      ensures QuestionFree(field) && QuestionFree(operation) ==> Unpaired() == old(Unpaired())
      ensures QuestionFree(field) && QuestionFree(operation) && old(Unpaired()) == 0 ==>
                Bound() == old(Bound()) + Bind(ConditionText("AND", field, operation), [value])
    {
      if QuestionFree(field) && QuestionFree(operation) {
        ConditionPlaceholders("AND", field, operation);
        AppendClause(sql, values, ConditionText("AND", field, operation), [value]);
      }
      sql := sql + ConditionText("AND", field, operation);
      values := values + [value];
      return this;
    }

    /** `like`. */
    method Like(field: string, andOrWhere: string, value: Value) returns (self: SqlQueryBuilder)
      modifies this`sql, this`values
      ensures self == this
      ensures sql == old(sql) + LikeText(andOrWhere, field)
      ensures values == old(values) + [value]
      ensures QuestionFree(andOrWhere) && QuestionFree(field) ==> Unpaired() == old(Unpaired())
      ensures QuestionFree(andOrWhere) && QuestionFree(field) && old(Unpaired()) == 0 ==>
                Bound() == old(Bound()) + Bind(LikeText(andOrWhere, field), [value])
    {
      if QuestionFree(andOrWhere) && QuestionFree(field) {
        LikePlaceholders(andOrWhere, field);
        AppendClause(sql, values, LikeText(andOrWhere, field), [value]);
      }
      sql := sql + LikeText(andOrWhere, field);
      values := values + [value];
      return this;
    }

    /** `or`. */
    method Or(field: string, operation: string, value: Value) returns (self: SqlQueryBuilder)
      modifies this`sql, this`values
      ensures self == this
      ensures sql == old(sql) + ConditionText("OR", field, operation)
      ensures values == old(values) + [value]
      ensures QuestionFree(field) && QuestionFree(operation) ==> Unpaired() == old(Unpaired())
      ensures QuestionFree(field) && QuestionFree(operation) && old(Unpaired()) == 0 ==>
                Bound() == old(Bound()) + Bind(ConditionText("OR", field, operation), [value])
    {
      if QuestionFree(field) && QuestionFree(operation) {
        ConditionPlaceholders("OR", field, operation);
        AppendClause(sql, values, ConditionText("OR", field, operation), [value]);
      }
      sql := sql + ConditionText("OR", field, operation);
      values := values + [value];
      return this;
    }

    /** `in`: one placeholder and one pushed value per element of `items`. */
    method In(field: string, items: seq<Value>, andOrWhere: string) returns (self: SqlQueryBuilder)
      modifies this`sql, this`values
      ensures self == this
      ensures sql == old(sql) + InText(andOrWhere, field, items)
      ensures values == old(values) + items
      ensures QuestionFree(andOrWhere) && QuestionFree(field) ==> Unpaired() == old(Unpaired())
      ensures QuestionFree(andOrWhere) && QuestionFree(field) && old(Unpaired()) == 0 ==>
                Bound() == old(Bound()) + Bind(InText(andOrWhere, field, items), items)
    {
      if QuestionFree(andOrWhere) && QuestionFree(field) {
        InPlaceholders(andOrWhere, field, items);
        AppendClause(sql, values, InText(andOrWhere, field, items), items);
      }
      sql := sql + InText(andOrWhere, field, items);
      values := values + items;
      return this;
    }

    /** `between`: pushes the low bound, then the high bound. */
    method Between(field: string, bounds: (Value, Value), andOrWhere: string) returns (self: SqlQueryBuilder)
      modifies this`sql, this`values
      ensures self == this
      ensures sql == old(sql) + BetweenText(andOrWhere, field)
      ensures values == old(values) + [bounds.0, bounds.1]
      ensures QuestionFree(andOrWhere) && QuestionFree(field) ==> Unpaired() == old(Unpaired())
      ensures QuestionFree(andOrWhere) && QuestionFree(field) && old(Unpaired()) == 0 ==>
                Bound() == old(Bound()) + Bind(BetweenText(andOrWhere, field), [bounds.0, bounds.1])
    {
      if QuestionFree(andOrWhere) && QuestionFree(field) {
        BetweenPlaceholders(andOrWhere, field);
        AppendClause(sql, values, BetweenText(andOrWhere, field), [bounds.0, bounds.1]);
      }
      sql := sql + BetweenText(andOrWhere, field);
      values := values + [bounds.0, bounds.1];
      return this;
    }

    /** `insert`: the record's values are pushed in the order of its keys. */
    method Insert(table: string, fieldsValues: Record) returns (self: SqlQueryBuilder)
      modifies this`sql, this`values
      ensures self == this
      ensures sql == old(sql) + InsertText(table, fieldsValues)
      ensures values == old(values) + Vals(fieldsValues)
      ensures QuestionFree(table) && Identifiers(Keys(fieldsValues)) ==> Unpaired() == old(Unpaired())
      ensures QuestionFree(table) && Identifiers(Keys(fieldsValues)) && old(Unpaired()) == 0 ==>
                Bound() == old(Bound()) + Bind(InsertText(table, fieldsValues), Vals(fieldsValues))
    {
      if QuestionFree(table) && Identifiers(Keys(fieldsValues)) {
        InsertPlaceholders(table, fieldsValues);
        AppendClause(sql, values, InsertText(table, fieldsValues), Vals(fieldsValues));
      }
      sql := sql + InsertText(table, fieldsValues);
      values := values + Vals(fieldsValues);
      return this;
    }

    /** `join`: no value is pushed. */
    method Join(joinType: JoinType, table: string, fields: (string, string)) returns (self: SqlQueryBuilder)
      modifies this`sql
      ensures self == this
      ensures sql == old(sql) + JoinText(joinType, table, fields.0, fields.1)
      ensures QuestionFree(table) && QuestionFree(fields.0) && QuestionFree(fields.1) ==>
                Unpaired() == old(Unpaired())
    {
      if QuestionFree(table) && QuestionFree(fields.0) && QuestionFree(fields.1) {
        JoinPlaceholders(joinType, table, fields.0, fields.1);
        AppendClause(sql, values, JoinText(joinType, table, fields.0, fields.1), []);
        assert values + [] == values;
      }
      sql := sql + JoinText(joinType, table, fields.0, fields.1);
      return this;
    }

    /** `innerJoin`. */
    method InnerJoin(table: string, fields: (string, string)) returns (self: SqlQueryBuilder)
      modifies this`sql
      ensures self == this
      ensures sql == old(sql) + JoinText(Inner, table, fields.0, fields.1)
    {
      self := Join(Inner, table, fields);
    }

    /** `leftJoin`. */
    method LeftJoin(table: string, fields: (string, string)) returns (self: SqlQueryBuilder)
      modifies this`sql
      ensures self == this
      ensures sql == old(sql) + JoinText(Left, table, fields.0, fields.1)
    {
      self := Join(Left, table, fields);
    }

    /** `rightJoin`. */
    method RightJoin(table: string, fields: (string, string)) returns (self: SqlQueryBuilder)
      modifies this`sql
      ensures self == this
      ensures sql == old(sql) + JoinText(Right, table, fields.0, fields.1)
    {
      self := Join(Right, table, fields);
    }

    /** `callProcedure`. */
    method CallProcedure(name: string, items: seq<Value>) returns (self: SqlQueryBuilder)
      modifies this`sql, this`values
      ensures self == this
      ensures sql == old(sql) + CallText(name, items)
      ensures values == old(values) + items
      ensures QuestionFree(name) ==> Unpaired() == old(Unpaired())
      ensures QuestionFree(name) && old(Unpaired()) == 0 ==>
                Bound() == old(Bound()) + Bind(CallText(name, items), items)
    {
      if QuestionFree(name) {
        CallPlaceholders(name, items);
        AppendClause(sql, values, CallText(name, items), items);
      }
      sql := sql + CallText(name, items);
      values := values + items;
      return this;
    }

    /** `update`: one placeholder per key, but no value is pushed, so every
      key leaves a placeholder without a value. */
    method Update(table: string, fieldsValues: Record) returns (self: SqlQueryBuilder)
      modifies this`sql
      ensures self == this
      ensures sql == old(sql) + UpdateText(table, fieldsValues)
      ensures QuestionFree(table) && Identifiers(Keys(fieldsValues)) ==>
                Unpaired() == old(Unpaired()) + |fieldsValues|
    {
      if QuestionFree(table) && Identifiers(Keys(fieldsValues)) {
        UpdatePlaceholders(table, fieldsValues);
        PlaceholdersAppend(sql, UpdateText(table, fieldsValues));
      }
      sql := sql + UpdateText(table, fieldsValues);
      return this;
    }

    /** `execute`: once it has a connection it empties the text and values
      and runs exactly what they held; a failure to get a connection leaves
      them as they were. */
    method Execute(acquire: Acquire, query: Outcome) returns (status: Status)
      modifies this`sql, this`values, this`conn, this`trace
      ensures var r := Protocol.Execute(old(State()), acquire, old(sql), old(values), query);
              State() == r.session && trace == old(trace) + r.calls && status == r.status
      ensures if Drains(old(State()), acquire) then sql == "" && values == []
              else sql == old(sql) && values == old(values)
    {
      if !inTransaction {
        match acquire {
          case AcquireFailed(cause) =>
            return Threw(DriverError(cause));
          case Acquired(h) =>
            conn := Some(h);
            trace := trace + [GetConnection(h)];
        }
      }
      var text := sql;
      var params := values;
      sql := "";
      values := [];
      match conn {
        case None =>
          status := Threw(TypeError);
        case Some(h) =>
          trace := trace + [Query(h, text, params)];
          if query.Failed? {
            assert trace == old(trace) + (if old(inTransaction) then [] else [GetConnection(h)]) + [Query(h, text, params)];
            return Threw(DriverError(query.cause));
          }
          trace := trace + [Release(h)];
          assert trace == old(trace) + ((if old(inTransaction) then [] else [GetConnection(h)]) + ([Query(h, text, params)] + [Release(h)]));
          status := Completed;
      }
    }
  }

  lemma UpdateUsersText(fv: Record)
    requires fv == [("firstName", Str("Jane"))]
    ensures Identifiers(Keys(fv))
    ensures UpdateText("users", fv) == "UPDATE users SET firstName = ? "
  {
    assert Keys(fv) == ["firstName"];
    assert Join(Assignments(Keys(fv)), ", ") == "firstName = ?" by {
      assert "firstName" + " = ?" == "firstName = ?";
      assert Assignments(Keys(fv)) == ["firstName = ?"];
    }
    UpdateUsersGlue();
  }

  lemma UpdateUsersGlue()
    ensures "UPDATE " + "users" + " SET " + "firstName = ?" + " " == "UPDATE users SET firstName = ? "
  {
    assert "UPDATE " + "users" == "UPDATE users";
    assert "UPDATE users" + " SET " == "UPDATE users SET ";
    assert "UPDATE users SET " + "firstName = ?" == "UPDATE users SET firstName = ?";
  }

  /** The text of `update("users", {firstName: "Jane"})` followed by
      `where("userID", "=", ...)`. */
  lemma UpdateWhereText(fv: Record)
    requires fv == [("firstName", Str("Jane"))]
    ensures Identifiers(Keys(fv))
    ensures UpdateText("users", fv) + ConditionText("WHERE", "userID", "=")
              == "UPDATE users SET firstName = ? WHERE userID = ? "
  {
    UpdateUsersText(fv);
    assert ConditionText("WHERE", "userID", "=") == "WHERE userID = ? ";
  }

  /** `update("users", {firstName: "Jane"}).where("userID", "=", 7)`: the
      text holds two placeholders but only the second value was pushed. */
  method UpdateThenWhere() returns (b: SqlQueryBuilder)
    ensures fresh(b)
    ensures b.sql == "UPDATE users SET firstName = ? WHERE userID = ? "
    ensures b.values == [Num(7)] && b.Unpaired() == 1
  {
    b := new SqlQueryBuilder();
    var fv: Record := [("firstName", Str("Jane"))];
    UpdateWhereText(fv);
    var _ := b.Update("users", fv);
    var _ := b.Where("userID", "=", Num(7));
  }

  lemma InsertUsersText(fv: Record)
    requires fv == [("email", Str("a@b.com")), ("pass", Str("x"))]
    ensures InsertText("users", fv) == "INSERT INTO users \n        (email,pass) \n        VALUES(?,?)"
    ensures Vals(fv) == [Str("a@b.com"), Str("x")]
  {
    UsersColumns(fv);
    assert QuestionMarks(2) == "?,?";
    InsertUsersGlue();
  }

  /** The literal pieces of the example insert, glued one at a time. */
  lemma InsertUsersGlue()
    ensures "INSERT INTO " + "users" + " \n        (" + "email,pass" + ") \n        VALUES(" + "?,?" + ")"
         == "INSERT INTO users \n        (email,pass) \n        VALUES(?,?)"
  {
    assert "INSERT INTO " + "users" == "INSERT INTO users";
    assert "INSERT INTO users" + " \n        (" == "INSERT INTO users \n        (";
    assert "INSERT INTO users \n        (" + "email,pass" == "INSERT INTO users \n        (email,pass";
    assert "INSERT INTO users \n        (email,pass" + ") \n        VALUES(" == "INSERT INTO users \n        (email,pass) \n        VALUES(";
    assert "INSERT INTO users \n        (email,pass) \n        VALUES(" + "?,?" == "INSERT INTO users \n        (email,pass) \n        VALUES(?,?";
  }

  lemma UsersColumns(fv: Record)
    requires fv == [("email", Str("a@b.com")), ("pass", Str("x"))]
    ensures Columns(fv) == "email,pass" && |Keys(fv)| == 2
    ensures Vals(fv) == [Str("a@b.com"), Str("x")]
  {
    assert Keys(fv) == ["email", "pass"];
    assert ["email", "pass"][1..] == ["pass"];
    assert Join(["email", "pass"], ",") == "email" + "," + "pass";
  }

  /** A statement run from idle on a connection the pool gives, whose query
      succeeds. */
  lemma IdleStatementSucceeds(h: Handle, text: string, params: seq<Value>)
    ensures Protocol.Execute(Idle, Acquired(h), text, params, Succeeded)
            == Step(Session(false, Some(h)), [GetConnection(h), Query(h, text, params), Release(h)], Completed)
  {
    assert [GetConnection(h)] + ([Query(h, text, params)] + [Release(h)])
        == [GetConnection(h), Query(h, text, params), Release(h)];
  }

  /** `insert("users", {email: "a@b.com", pass: "x"})` then `execute()`
      outside a transaction: the connection taken runs exactly the insert
      with its two values, is released after the run, and the builder is
      left empty. */
  method InsertThenExecute(h: Handle) returns (b: SqlQueryBuilder)
    ensures fresh(b)
    ensures b.trace == [GetConnection(h),
                        Query(h, "INSERT INTO users \n        (email,pass) \n        VALUES(?,?)", [Str("a@b.com"), Str("x")]),
                        Release(h)]
    ensures b.sql == "" && b.values == [] && b.State() == Session(false, Some(h))
  {
    b := new SqlQueryBuilder();
    var fv: Record := [("email", Str("a@b.com")), ("pass", Str("x"))];
    InsertUsersText(fv);
    var _ := b.Insert("users", fv);
    ghost var text := InsertText("users", fv);
    ghost var params := Vals(fv);
    assert b.sql == text by { assert "" + text == text; }
    assert b.values == params by { assert [] + params == params; }
    IdleStatementSucceeds(h, text, params);
    var status := b.Execute(Acquired(h), Succeeded);
  }
}
