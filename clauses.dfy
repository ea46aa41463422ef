/** The SQL text each clause method of the builder appends, exactly as the
    builder writes it (stray braces, line breaks and lower-case `call`
    included), with the number of placeholders each fragment carries. */
module Clauses {
  import opened Text
  import opened Values
  import opened Binding

  /** The closed set of join kinds (`joinTypes`). */
  datatype JoinType = Inner | Left | Right

  /** The keyword a join kind stands for. */
  function Keyword(j: JoinType): (r: string)
    ensures |r| > 5 && r[|r| - 5..] == " JOIN" && QuestionFree(r)
  {
    match j
    case Inner => "INNER JOIN"
    case Left => "LEFT JOIN"
    case Right => "RIGHT JOIN"
  }

  /** Every name in `ids` is free of placeholders: table and column names
      are spliced into the text, never bound. */
  predicate Identifiers(ids: seq<string>)
  {
    forall i :: 0 <= i < |ids| ==> QuestionFree(ids[i])
  }

  lemma SeparatorsQuestionFree()
    ensures QuestionFree(",") && QuestionFree(", ") && QuestionFree(" ")
  {
  }

  /** Placeholders of a text placed between two placeholder-free texts. */
  lemma PlaceholdersBetween(pre: string, mid: string, post: string)
    requires QuestionFree(pre) && QuestionFree(post)
    ensures Placeholders(pre + mid + post) == Placeholders(mid)
  {
    PlaceholdersAppend(pre + mid, post);
    PlaceholdersAppend(pre, mid);
    QuestionFreeHasNoPlaceholders(pre);
    QuestionFreeHasNoPlaceholders(post);
  }

  /** Joined placeholder-free names hold no placeholder. */
  lemma JoinedIdentifiers(ids: seq<string>, sep: string)
    requires Identifiers(ids) && QuestionFree(sep)
    ensures Placeholders(Join(ids, sep)) == 0
  {
    forall i | 0 <= i < |ids| ensures Placeholders(ids[i]) == 0 {
      QuestionFreeHasNoPlaceholders(ids[i]);
    }
    SumPlaceholdersUniform(ids, 0);
    PlaceholdersJoin(ids, sep);
  }

  /** `SELECT <fields joined by ", "> FROM <table>} `. */
  function SelectText(table: string, fields: seq<string>): (r: string)
    ensures "SELECT " <= r && r[|r| - 2..] == "} "
  {
    "SELECT " + Join(fields, ", ") + " FROM " + table + "} "
  }

  /** `<keyword> <field> <operation> ? `, the text of `where`, `and` and `or`. */
  function ConditionText(keyword: string, field: string, operation: string): (r: string)
    ensures |r| == |keyword| + |field| + |operation| + 5
    ensures keyword + " " <= r && r[|r| - 3..] == " ? "
  {
    keyword + " " + field + " " + operation + " ? "
  }

  /** `<connector> <field> LIKE ? `. */
  function LikeText(connector: string, field: string): (r: string)
    ensures |r| == |connector| + |field| + 9
    ensures connector + " " <= r && r[|r| - 8..] == " LIKE ? "
  {
    connector + " " + field + " LIKE ? "
  }

  /** `<connector> <field> IN(?,...,?) `, the list built as
      `values.map(v => "?").join(",")`. */
  function InText(connector: string, field: string, vs: seq<Value>): (r: string)
    ensures |r| == |connector| + |field| + 7 + (if vs == [] then 0 else 2 * |vs| - 1)
    ensures connector + " " <= r && r[|r| - 2..] == ") "
  {
    QuestionMarksIsJoin(|vs|);
    connector + " " + field + " IN(" + Join(Repeat("?", |vs|), ",") + ") "
  }

  /** `<connector> <field> BETWEEN ? AND ?}} `. */
  function BetweenText(connector: string, field: string): (r: string)
    ensures |r| == |connector| + |field| + 20
    ensures connector + " " <= r && r[|r| - 3..] == "}} "
  {
    connector + " " + field + " BETWEEN ? AND ?}} "
  }

  /** The column list of `insert`: `${Object.keys(fv)}`, which JavaScript
      renders joined by "," with no space. */
  function Columns(fv: Record): (r: string)
    ensures |fv| > 0 && (forall i :: 0 <= i < |fv| ==> ',' !in fv[i].0) ==> Split(r, ',') == Keys(fv)
  {
    var r := Join(Keys(fv), ",");
    assert |fv| > 0 && (forall i :: 0 <= i < |fv| ==> ',' !in fv[i].0) ==> Split(r, ',') == Keys(fv) by {
      if |fv| > 0 && (forall i :: 0 <= i < |fv| ==> ',' !in fv[i].0) {
        SplitJoin(Keys(fv), ',');
      }
    }
    r
  }

  /** `INSERT INTO <table> `, a line break, `(<columns>) `, a line break,
      `VALUES(<getQuestionMarks of the keys>)`, with the template's
      indentation and no trailing space. */
  function InsertText(table: string, fv: Record): (r: string)
    ensures "INSERT INTO " + table <= r && r[|r| - 1] == ')'
  {
    "INSERT INTO " + table + " \n        (" + Columns(fv) + ") \n        VALUES(" + QuestionMarks(|Keys(fv)|) + ")"
  }

  /** `<keyword> <table> ON <left> = <right> `. */
  function JoinText(j: JoinType, table: string, left: string, right: string): (r: string)
    ensures Keyword(j) + " " + table + " ON " <= r && r[|r| - 1] == ' '
  {
    Keyword(j) + " " + table + " ON " + left + " = " + right + " "
  }

  /** `call <name>(<getQuestionMarks of the values>) `. */
  function CallText(name: string, vs: seq<Value>): (r: string)
    ensures "call " + name + "(" <= r && r[|r| - 2..] == ") "
  {
    "call " + name + "(" + QuestionMarks(|vs|) + ") "
  }

  /** `keys.map(key => `${key} = ?`)`. */
  function Assignments(keys: seq<string>): (r: seq<string>)
    ensures |r| == |keys| && forall i :: 0 <= i < |keys| ==> r[i] == keys[i] + " = ?"
  {
    if keys == [] then [] else [keys[0] + " = ?"] + Assignments(keys[1..])
  }

  /** `UPDATE <table> SET <k1> = ?, <k2> = ? `. */
  function UpdateText(table: string, fv: Record): (r: string)
    ensures "UPDATE " + table + " SET " <= r && r[|r| - 1] == ' '
  {
    "UPDATE " + table + " SET " + Join(Assignments(Keys(fv)), ", ") + " "
  }

  /** A select carries no placeholder. */
  lemma SelectPlaceholders(table: string, fields: seq<string>)
    requires Identifiers(fields) && QuestionFree(table)
    ensures Placeholders(SelectText(table, fields)) == 0
  {
    JoinedIdentifiers(fields, ", ");
    PlaceholdersBetween("SELECT ", Join(fields, ", "), " FROM " + table + "} ");
    assert SelectText(table, fields) == "SELECT " + Join(fields, ", ") + (" FROM " + table + "} ");
  }

  /** A condition carries exactly one placeholder, after its operation. */
  lemma ConditionPlaceholders(keyword: string, field: string, operation: string)
    requires QuestionFree(keyword) && QuestionFree(field) && QuestionFree(operation)
    ensures Placeholders(ConditionText(keyword, field, operation)) == 1
  {
    PlaceholdersBetween(keyword + " " + field + " " + operation + " ", "?", " ");
    assert ConditionText(keyword, field, operation) == keyword + " " + field + " " + operation + " " + "?" + " ";
  }

  /** A LIKE condition carries exactly one placeholder. */
  lemma LikePlaceholders(connector: string, field: string)
    requires QuestionFree(connector) && QuestionFree(field)
    ensures Placeholders(LikeText(connector, field)) == 1
  {
    PlaceholdersBetween(connector + " " + field + " LIKE ", "?", " ");
    assert LikeText(connector, field) == connector + " " + field + " LIKE " + "?" + " ";
  }

  /** An IN list carries one placeholder per value, none for no values. */
  lemma InPlaceholders(connector: string, field: string, vs: seq<Value>)
    requires QuestionFree(connector) && QuestionFree(field)
    ensures Placeholders(InText(connector, field, vs)) == |vs|
  {
    SumPlaceholdersUniform(Repeat("?", |vs|), 1);
    PlaceholdersJoin(Repeat("?", |vs|), ",");
    PlaceholdersBetween(connector + " " + field + " IN(", Join(Repeat("?", |vs|), ","), ") ");
  }

  /** A BETWEEN condition carries exactly two placeholders. */
  lemma BetweenPlaceholders(connector: string, field: string)
    requires QuestionFree(connector) && QuestionFree(field)
    ensures Placeholders(BetweenText(connector, field)) == 2
  {
    PlaceholdersBetween(connector + " " + field + " BETWEEN ", "? AND ?", "}} ");
    assert BetweenText(connector, field) == connector + " " + field + " BETWEEN " + "? AND ?" + "}} ";
  }

  /** The insert template around its column and placeholder lists. */
  lemma InsertShape(table: string, cols: string, marks: string)
    requires QuestionFree(table) && Placeholders(cols) == 0
    ensures Placeholders("INSERT INTO " + table + " \n        (" + cols + ") \n        VALUES(" + marks + ")")
         == Placeholders(marks)
  {
    var pre := "INSERT INTO " + table + " \n        (";
    var mid := ") \n        VALUES(";
    InsertLiteralsQuestionFree();
    assert QuestionFree(pre);
    QuestionFreeOfNoPlaceholders(cols);
    assert QuestionFree(pre + cols + mid);
    PlaceholdersBetween(pre + cols + mid, marks, ")");
  }

  lemma InsertLiteralsQuestionFree()
    ensures QuestionFree("INSERT INTO ") && QuestionFree(" \n        (")
    ensures QuestionFree(") \n        VALUES(") && QuestionFree(")")
  {
  }

  lemma ColumnsHoldNoPlaceholder(fv: Record)
    requires Identifiers(Keys(fv))
    ensures Placeholders(Columns(fv)) == 0
  {
    SeparatorsQuestionFree();
    JoinedIdentifiers(Keys(fv), ",");
  }

  /** An insert carries one placeholder per key of its record. */
  lemma InsertPlaceholders(table: string, fv: Record)
    requires Identifiers(Keys(fv)) && QuestionFree(table)
    ensures Placeholders(InsertText(table, fv)) == |fv|
  {
    ColumnsHoldNoPlaceholder(fv);
    InsertShape(table, Columns(fv), QuestionMarks(|Keys(fv)|));
  }

  /** A join carries no placeholder. */
  lemma JoinPlaceholders(j: JoinType, table: string, left: string, right: string)
    requires QuestionFree(table) && QuestionFree(left) && QuestionFree(right)
    ensures Placeholders(JoinText(j, table, left, right)) == 0
  {
    QuestionFreeHasNoPlaceholders(JoinText(j, table, left, right));
  }

  /** A procedure call carries one placeholder per value. */
  lemma CallPlaceholders(name: string, vs: seq<Value>)
    requires QuestionFree(name)
    ensures Placeholders(CallText(name, vs)) == |vs|
  {
    PlaceholdersBetween("call " + name + "(", QuestionMarks(|vs|), ") ");
  }

  lemma AssignmentPlaceholders(key: string)
    requires QuestionFree(key)
    ensures Placeholders(key + " = ?") == 1
  {
    PlaceholdersBetween(key + " = ", "?", "");
    assert key + " = ?" == key + " = " + "?" + "";
  }

  /** The placeholders of `keys.map(key => `${key} = ?`).join(", ")`. */
  lemma AssignmentListPlaceholders(keys: seq<string>)
    requires Identifiers(keys)
    ensures Placeholders(Join(Assignments(keys), ", ")) == |keys|
  {
    var parts := Assignments(keys);
    forall i | 0 <= i < |parts| ensures Placeholders(parts[i]) == 1 {
      AssignmentPlaceholders(keys[i]);
    }
    SumPlaceholdersUniform(parts, 1);
    SeparatorsQuestionFree();
    PlaceholdersJoin(parts, ", ");
  }

  /** An update carries one placeholder per key of its record. */
  lemma UpdatePlaceholders(table: string, fv: Record)
    requires Identifiers(Keys(fv)) && QuestionFree(table)
    ensures Placeholders(UpdateText(table, fv)) == |fv|
  {
    AssignmentListPlaceholders(Keys(fv));
    UpdateShape(table, Join(Assignments(Keys(fv)), ", "));
  }

  /** The update template around its assignment list. */
  lemma UpdateShape(table: string, sets: string)
    requires QuestionFree(table)
    ensures Placeholders("UPDATE " + table + " SET " + sets + " ") == Placeholders(sets)
  {
    PlaceholdersBetween("UPDATE " + table + " SET ", sets, " ");
  }

  lemma {:induction false} QuestionFreeOfNoPlaceholders(s: string)
    requires Placeholders(s) == 0
    ensures QuestionFree(s)
  {
    if s != [] {
      QuestionFreeOfNoPlaceholders(s[1..]);
      assert s == [s[0]] + s[1..];
    }
  }

  /** The one value of a condition is bound right after its operation. */
  lemma ConditionBinds(keyword: string, field: string, operation: string, v: Value)
    requires QuestionFree(keyword) && QuestionFree(field) && QuestionFree(operation)
    ensures Bind(ConditionText(keyword, field, operation), [v])
         == Literal(keyword + " " + field + " " + operation + " ") + [Param(v), Lit(' ')]
  {
    var pre := keyword + " " + field + " " + operation + " ";
    assert ConditionText(keyword, field, operation) == pre + "? ";
    QuestionFreeHasNoPlaceholders(pre);
    BindAppend(pre, "? ", [], [v]);
    var none: seq<Value> := [];
    assert none + [v] == [v];
    BindQuestionFree(pre, []);
    assert "? "[1..] == " " && [v][1..] == [];
    assert Bind(" ", []) == [Lit(' ')] + Bind("", []);
    assert Bind("? ", [v]) == [Param(v), Lit(' ')];
  }

  /** The columns of an insert, read back from its text, and the values its
      placeholders bind pair up as the record's properties do: the i-th
      column receives the i-th pushed value. */
  lemma InsertPairsColumnsWithValues(table: string, fv: Record)
    requires |fv| > 0 && QuestionFree(table)
    requires forall i :: 0 <= i < |fv| ==> QuestionFree(fv[i].0) && ',' !in fv[i].0
    ensures var cols := Split(Columns(fv), ',');
            var bound := Params(Bind(InsertText(table, fv), Vals(fv)));
            |cols| == |bound| == |fv| &&
            forall i :: 0 <= i < |fv| ==> fv[i] == (cols[i], bound[i])
  {
    SplitJoin(Keys(fv), ',');
    InsertPlaceholders(table, fv);
    BindParams(InsertText(table, fv), Vals(fv));
  }
}
