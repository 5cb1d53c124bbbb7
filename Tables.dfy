/** The statement assembler (classes `TableBuilder`, `JoinTable` and `OrderByInfo` in
    DBHelper/SqlBuilder.cs): the parts of a statement collected in order, and the
    SELECT, COUNT, INSERT, UPDATE and DELETE texts rendered from them together with
    their parameters. */
module Tables {
  import opened Wrappers
  import opened Text
  import opened Extension
  import opened Conditions
  import opened Rendering
  import opened Clauses
  import opened Columns

  // ---------------------------------------------------------------------------
  // Joins and ordering

  /** `JoinType`. */
  datatype JoinType = Inner | Left | Right | Full

  /** `joinType.ToString()`: the member's name. */
  function JoinTypeMember(t: JoinType): string
  {
    match t
    case Inner => "Inner"
    case Left => "Left"
    case Right => "Right"
    case Full => "Full"
  }

  /** `joinType.ToString().ToUpper()`, the keyword `Join` stores. */
  function JoinKeyword(t: JoinType): string
  {
    ToUpper(JoinTypeMember(t))
  }

  /** A `JoinTable`; the source never reassigns its properties after construction. */
  datatype JoinTable = JoinTable(
    tableLeft: string,
    tableRight: string,
    columnLeft: string,
    columnRight: string,
    joinType: string)

  /** One side of the `ON` comparison: a column that already names its table (it
      contains `.`) as it is, any other prefixed by its table and `.`. */
  function Operand(table: string, column: string): (r: string)
    ensures '.' in r
    ensures |r| >= |column| && r[|r| - |column|..] == column
    ensures '.' in column ==> r == column
    ensures '.' !in column ==> r == table + "." + column
  {
    if '.' in column then column
    else
      assert (table + "." + column)[|table|] == '.';
      table + "." + column
  }

  /** `JoinTable.ToString`. */
  function JoinText(j: JoinTable): (r: string)
    ensures |r| >= |j.joinType| + 6 && r[..|j.joinType| + 6] == j.joinType + " JOIN "
    ensures |r| >= |j.columnRight| && r[|r| - |j.columnRight|..] == j.columnRight
  {
    j.joinType + " JOIN " + j.tableRight + " ON " + Operand(j.tableLeft, j.columnLeft) + " = "
    + Operand(j.tableRight, j.columnRight)
  }

  /** `OrderType`. */
  datatype OrderType = ASC | DESC

  /** `orderType.ToString()`. */
  function OrderTypeName(t: OrderType): string
  {
    match t
    case ASC => "ASC"
    case DESC => "DESC"
  }

  /** An `OrderByInfo`; `table` is `None` when the property is unset (`null`). */
  datatype OrderByInfo = OrderByInfo(column: string, table: Option<string>, orderType: OrderType)

  /** `OrderByInfo.ToString`: the column, prefixed by the table and `.` when one is
      set, then a blank and the direction. */
  function OrderText(o: OrderByInfo): string
  {
    (if o.table.None? || o.table.value == "" then "" else o.table.value + ".")
    + o.column + " " + OrderTypeName(o.orderType)
  }

  /** `string.Join(",", OrderByInfos)` renders each entry with `ToString`. */
  function OrderTexts(os: seq<OrderByInfo>): (r: seq<string>)
    ensures |r| == |os| && forall i :: 0 <= i < |os| ==> r[i] == OrderText(os[i])
  {
    if os == [] then [] else OrderTexts(os[..|os| - 1]) + [OrderText(os[|os| - 1])]
  }

  /** The join clauses `ToSelect` appends, each after a blank, in the order attached. */
  function JoinsText(joins: seq<JoinTable>): string
  {
    if joins == [] then "" else JoinsText(joins[..|joins| - 1]) + " " + JoinText(joins[|joins| - 1])
  }

  lemma JoinsTextSnoc(joins: seq<JoinTable>, i: nat)
    requires i < |joins|
    ensures JoinsText(joins[..i + 1]) == JoinsText(joins[..i]) + " " + JoinText(joins[i])
  {
    assert joins[..i + 1][..i] == joins[..i];
  }

  // ---------------------------------------------------------------------------
  // Parameter collections

  /** The type argument `T` of the `To...` methods. */
  datatype ParameterShape = DictionaryShape | ArrayShape | ListShape | OtherShape

  /** The collection handed back: the dictionary itself, or the `DbParameter` objects
      the factory made from its entries, keyed by the entry they came from. */
  datatype Parameters<V, P> =
    | Dictionary(entries: Params<V>)
    | DbArray(made: map<string, P>)
    | DbList(made: map<string, P>)

  /** The `ArgumentException`s of the statement builders. */
  datatype BuildError = NoParameterFactory | UnsupportedParameterType | UnexpectedParameters

  /** The `DbParameter` the factory makes from every entry of `param`. */
  function MakeAll<V, P>(factory: (string, Option<V>) -> P, param: Params<V>): (r: map<string, P>)
    ensures r.Keys == param.Keys
    ensures forall k :: k in param ==> r[k] == factory(k, param[k])
  {
    map k | k in param :: factory(k, param[k])
  }

  /** `made` holds one `DbParameter` per entry of `param`, made by `factory` from that
      entry's name and value. */
  ghost predicate MadeFrom<V, P>(made: map<string, P>, factory: (string, Option<V>) -> P, param: Params<V>)
  {
    made.Keys == param.Keys && forall k :: k in param ==> made[k] == factory(k, param[k])
  }

  /** `CreateParameters<T>(param)`: the dictionary as it is; `DbParameter` objects when
      a factory was given; an error without factory, or for any other type. */
  function CreateParameters<V, P>(factory: Option<(string, Option<V>) -> P>, shape: ParameterShape,
                                  param: Params<V>): (r: Result<Parameters<V, P>, BuildError>)
    ensures shape == DictionaryShape ==> r == Success(Dictionary(param))
    ensures shape == OtherShape ==> r == Failure(UnsupportedParameterType)
    ensures (shape == ArrayShape || shape == ListShape) ==>
      (r.Failure? <==> factory.None?) && (r.Failure? ==> r.error == NoParameterFactory)
    ensures r.Success? && shape == ArrayShape ==> r.value.DbArray? && MadeFrom(r.value.made, factory.value, param)
    ensures r.Success? && shape == ListShape ==> r.value.DbList? && MadeFrom(r.value.made, factory.value, param)
  {
    match shape
    case DictionaryShape => Success(Dictionary(param))
    case ArrayShape => if factory.None? then Failure(NoParameterFactory) else Success(DbArray(MakeAll(factory.value, param)))
    case ListShape => if factory.None? then Failure(NoParameterFactory) else Success(DbList(MakeAll(factory.value, param)))
    case OtherShape => Failure(UnsupportedParameterType)
  }

  /** The outcome of a `To...` method: its text with its parameters, or the exception
      `CreateParameters` threw. */
  function Finish<V, P>(sql: string, made: Result<Parameters<V, P>, BuildError>): Result<(string, Parameters<V, P>), BuildError>
  {
    match made
    case Success(p) => Success((sql, p))
    case Failure(e) => Failure(e)
  }

  // ---------------------------------------------------------------------------
  // The statements, as functions of the collected parts

  /** The select list: the columns joined by `,`, or `*` when that is empty. */
  function SelectList(columns: seq<string>): string
  {
    if Text.Join(columns, ",") == "" then "*" else Text.Join(columns, ",")
  }

  /** A clause group after its keyword, only when the group holds a condition. */
  function GroupClause<V>(keyword: string, conds: seq<Condition<V>>): string
  {
    if conds == [] then "" else keyword + WhereText(conds)
  }

  /** A comma-joined list after its keyword, only when the list is not empty. */
  function ListClause(keyword: string, items: seq<string>): string
  {
    if items == [] then "" else keyword + Text.Join(items, ",")
  }

  /** The text `ToSelect` renders. */
  function SelectText<V>(table: string, columns: seq<string>, joins: seq<JoinTable>, where: seq<Condition<V>>,
                         groupBys: seq<string>, having: seq<Condition<V>>, orderBys: seq<OrderByInfo>): string
  {
    "SELECT " + SelectList(columns) + " FROM " + table + JoinsText(joins) + GroupClause(" WHERE ", where)
    + ListClause(" GROUP BY ", groupBys) + GroupClause(" HAVING ", having) + ListClause(" ORDER BY ", OrderTexts(orderBys))
  }

  /** The dictionary of a group that is rendered only when it holds a condition. */
  function GuardedParams<V>(conds: seq<Condition<V>>): Params<V>
  {
    if conds == [] then map[] else WhereParams(conds)
  }

  /** The dictionary `ToSelect` collects: the WHERE entries, then the HAVING entries
      written over them. */
  function SelectParams<V>(where: seq<Condition<V>>, having: seq<Condition<V>>): Params<V>
  {
    GuardedParams(where) + GuardedParams(having)
  }

  /** The text `ToCount` renders. */
  function CountText<V>(table: string, where: seq<Condition<V>>): string
  {
    "SELECT COUNT(1) FROM " + table + GroupClause(" WHERE ", where)
  }

  /** `Values.Select(c => c.Column)`. */
  function InsertColumns<V>(values: seq<Condition<V>>): seq<string>
  {
    if values == [] then [] else InsertColumns(values[..|values| - 1]) + [values[|values| - 1].column]
  }

  /** `Values.Select(x => $"@{x.Column}")`. */
  function InsertPlaceholders<V>(values: seq<Condition<V>>): seq<string>
  {
    if values == [] then [] else InsertPlaceholders(values[..|values| - 1]) + ["@" + values[|values| - 1].column]
  }

  /** The text `ToInsert` renders. */
  function InsertText<V>(table: string, values: seq<Condition<V>>): string
  {
    "INSERT INTO " + table + " (" + Text.Join(InsertColumns(values), ",") + ") VALUES ("
    + Text.Join(InsertPlaceholders(values), ",") + ")"
  }

  /** The prefix of the keys `ToInsert` writes: none when property names are asked for. */
  function KeyPrefix(isPropertyName: bool): string
  {
    if isPropertyName then "" else "@"
  }

  /** The entries `ToInsert` writes through the indexer, one per value, in order. */
  function InsertBindings<V>(values: seq<Condition<V>>, prefix: string): (r: seq<Binding<V>>)
    ensures |r| == |values|
    ensures forall i :: 0 <= i < |values| ==> r[i] == (prefix + values[i].column, values[i].value)
  {
    if values == [] then [] else InsertBindings(values[..|values| - 1], prefix) + [(prefix + values[|values| - 1].column, values[|values| - 1].value)]
  }

  /** The dictionary `ToInsert` collects. */
  function InsertParams<V>(values: seq<Condition<V>>, isPropertyName: bool): Params<V>
  {
    LastWins(InsertBindings(values, KeyPrefix(isPropertyName)))
  }

  /** The text `ToUpdate` renders: the assignments joined by `,`, then `WHERE` always. */
  function UpdateText<V>(table: string, sets: seq<Condition<V>>, where: seq<Condition<V>>): string
  {
    "UPDATE " + table + " SET " + Text.Join(ChildSqls(sets), ",") + " WHERE " + WhereText(where)
  }

  /** The dictionary `ToUpdate` collects: the assignments' entries, then the WHERE
      entries written over them. */
  function UpdateParams<V>(sets: seq<Condition<V>>, where: seq<Condition<V>>): Params<V>
  {
    ChildParams(sets) + WhereParams(where)
  }

  /** The text `ToDelete` renders: `WHERE` always. */
  function DeleteText<V>(table: string, where: seq<Condition<V>>): string
  {
    "DELETE FROM " + table + " WHERE " + WhereText(where)
  }

  // ---------------------------------------------------------------------------
  // The builder

  class TableBuilder<V, P> {
    /** `Table`. */
    const table: string
    /** `Joins`. */
    var joins: seq<JoinTable>
    /** `ColumnBuild`. */
    const columnBuild: ColumnBuilder
    /** `Sets`. */
    var sets: seq<Condition<V>>
    /** `Values`. */
    var values: seq<Condition<V>>
    /** `WhereBuild`. */
    const whereBuild: WhereBuild<V>
    /** `OrderByInfos`. */
    var orderBys: seq<OrderByInfo>
    /** `HavingBuild`. */
    const havingBuild: WhereBuild<V>
    /** `GroupByColumns`. */
    var groupBys: seq<string>
    /** `_createParameter`: `None` when no factory was passed. */
    const createParameter: Option<(string, Option<V>) -> P>

    /** `new TableBuilder(table, createParameter)`: everything empty, with a WHERE and
        a HAVING group of its own. */
    constructor (table: string, createParameter: Option<(string, Option<V>) -> P>)
      ensures this.table == table && this.createParameter == createParameter
      ensures joins == [] && sets == [] && values == [] && orderBys == [] && groupBys == []
      ensures fresh(whereBuild) && fresh(havingBuild) && fresh(columnBuild) && whereBuild != havingBuild
      ensures whereBuild.conditions == [] && havingBuild.conditions == [] && columnBuild.columns == []
    {
      this.table := table;
      this.createParameter := createParameter;
      joins, sets, values, orderBys, groupBys := [], [], [], [], [];
      whereBuild := new WhereBuild();
      havingBuild := new WhereBuild();
      columnBuild := new ColumnBuilder();
    }

    /** `Join(condition, table, columnLeft, columnRight, joinType)`: the main table on
        the left; the overload without `condition` is `cond == true`. */
    method Join(cond: bool, tableRight: string, columnLeft: string, columnRight: string, joinType: JoinType)
      modifies this
      ensures joins == old(joins) + if cond then [JoinTable(table, tableRight, columnLeft, columnRight, JoinKeyword(joinType))] else []
      ensures sets == old(sets) && values == old(values) && orderBys == old(orderBys) && groupBys == old(groupBys)
    {
      if cond {
        joins := joins + [JoinTable(table, tableRight, columnLeft, columnRight, JoinKeyword(joinType))];
      }
    }

    /** `Select(columns)`: `ColumnBuilder.Add`. */
    method Select(batch: seq<string>) returns (r: Result<(), seq<string>>)
      modifies columnBuild
      ensures r.Failure? <==> RejectsBatch(old(columnBuild.columns), batch)
      ensures r.Failure? ==> columnBuild.columns == old(columnBuild.columns) + batch
      ensures r.Success? ==> columnBuild.columns == Distinct(old(columnBuild.columns) + batch)
    {
      r := columnBuild.Add(batch);
    }

    /** `OrderBy(condition, column, orderType)`: no table is recorded. */
    method OrderBy(cond: bool, column: string, orderType: OrderType)
      modifies this
      ensures orderBys == old(orderBys) + if cond then [OrderByInfo(column, None, orderType)] else []
      ensures joins == old(joins) && sets == old(sets) && values == old(values) && groupBys == old(groupBys)
    {
      if cond {
        orderBys := orderBys + [OrderByInfo(column, None, orderType)];
      }
    }

    /** `GroupBy(condition, column)`. */
    method GroupBy(cond: bool, column: string)
      modifies this
      ensures groupBys == old(groupBys) + if cond then [column] else []
      ensures joins == old(joins) && sets == old(sets) && values == old(values) && orderBys == old(orderBys)
    {
      if cond {
        groupBys := groupBys + [column];
      }
    }

    /** `Set(condition, column, value)`: the assignment `Condition.Create(column, "=", value)`. */
    method Set(cond: bool, column: string, value: Option<V>)
      modifies this
      ensures sets == old(sets) + if cond then [Create(column, "=", value, None)] else []
      ensures joins == old(joins) && values == old(values) && orderBys == old(orderBys) && groupBys == old(groupBys)
    {
      if cond {
        sets := sets + [Create(column, "=", value, None)];
      }
    }

    /** `Insert(condition, column, value)`: recorded as `Condition.Create(column, "", value)`. */
    method Insert(cond: bool, column: string, value: Option<V>)
      modifies this
      ensures values == old(values) + if cond then [Create(column, "", value, None)] else []
      ensures joins == old(joins) && sets == old(sets) && orderBys == old(orderBys) && groupBys == old(groupBys)
    {
      if cond {
        values := values + [Create(column, "", value, None)];
      }
    }

    /** `ToSelect<T>(out parameters)`. */
    method ToSelect(shape: ParameterShape) returns (r: Result<(string, Parameters<V, P>), BuildError>)
      ensures r == Finish(SelectText(table, columnBuild.columns, joins, whereBuild.conditions, groupBys,
                                     havingBuild.conditions, orderBys),
                          CreateParameters(createParameter, shape, SelectParams(whereBuild.conditions, havingBuild.conditions)))
    {
      var sql, param := RenderSelect();
      r := Finish(sql, CreateParameters(createParameter, shape, param));
    }

    /** The text and the dictionary `ToSelect` assembles before `CreateParameters`. */
    method RenderSelect() returns (sql: string, param: Params<V>)
      ensures sql == SelectText(table, columnBuild.columns, joins, whereBuild.conditions, groupBys,
                                havingBuild.conditions, orderBys)
      ensures param == SelectParams(whereBuild.conditions, havingBuild.conditions)
    {
      var columns := Text.Join(columnBuild.columns, ",");
      if columns == "" {
        columns := "*";
      }
      var joined := RenderJoins();
      param := map[];
      var whereSql, p := GroupSection(" WHERE ", whereBuild);
      param := AddAll(param, Some(p));
      var groupSql := ListSection(" GROUP BY ", groupBys);
      var havingSql, p2 := GroupSection(" HAVING ", havingBuild);
      param := AddAll(param, Some(p2));
      var orderSql := ListSection(" ORDER BY ", OrderTexts(orderBys));
      sql := "SELECT " + columns + " FROM " + table + joined + whereSql + groupSql + havingSql + orderSql;
      assert map[] + p == p;
    }

    /** A clause group of `ToSelect`: when the group holds a condition, its keyword
        and `ToWhere` text, and the dictionary `ToWhere` filled. */
    method GroupSection(keyword: string, group: WhereBuild<V>) returns (sql: string, para: Params<V>)
      ensures sql == GroupClause(keyword, group.conditions) && para == GuardedParams(group.conditions)
    {
      sql, para := "", map[];
      if group.Any() {
        var w, p := group.ToWhere();
        sql := keyword + w;
        para := p;
      }
    }

    /** A list clause of `ToSelect`: when the list is not empty, its keyword and the
        items joined by `,`. */
    static method ListSection(keyword: string, items: seq<string>) returns (sql: string)
      ensures sql == ListClause(keyword, items)
    {
      sql := "";
      if |items| > 0 {
        sql := keyword + Text.Join(items, ",");
      }
    }

    /** The `foreach` over `Joins` in `ToSelect`: every join after a blank. */
    method RenderJoins() returns (sql: string)
      ensures sql == JoinsText(joins)
    {
      sql := "";
      for i := 0 to |joins|
        invariant sql == JoinsText(joins[..i])
      {
        JoinsTextSnoc(joins, i);
        sql := sql + " " + JoinText(joins[i]);
      }
      assert joins[..|joins|] == joins;
    }

    /** `ToSelect()`: a SELECT whose conditions bind a parameter is refused. */
    method ToPlainSelect() returns (r: Result<string, BuildError>)
      ensures r.Failure? <==> SelectParams(whereBuild.conditions, havingBuild.conditions) != map[]
      ensures r.Failure? ==> r.error == UnexpectedParameters
      ensures r.Success? ==> r.value == SelectText(table, columnBuild.columns, joins, whereBuild.conditions,
                                                   groupBys, havingBuild.conditions, orderBys)
    {
      var select := ToSelect(DictionaryShape);
      var (sql, p) := select.value;
      if p.entries != map[] {
        return Failure(UnexpectedParameters);
      }
      return Success(sql);
    }

    /** `ToCount<T>(out parameters)`: only the FROM and the WHERE of a select. */
    method ToCount(shape: ParameterShape) returns (r: Result<(string, Parameters<V, P>), BuildError>)
      ensures r == Finish(CountText(table, whereBuild.conditions),
                          CreateParameters(createParameter, shape, GuardedParams(whereBuild.conditions)))
    {
      var whereSql, p := GroupSection(" WHERE ", whereBuild);
      var sql := "SELECT COUNT(1) FROM " + table + whereSql;
      var param := AddAll(map[], Some(p));
      assert map[] + p == p;
      r := Finish(sql, CreateParameters(createParameter, shape, param));
    }

    /** `ToInsert<T>(out parameters, isPropertyName)`. */
    method ToInsert(shape: ParameterShape, isPropertyName: bool) returns (r: Result<(string, Parameters<V, P>), BuildError>)
      ensures r == Finish(InsertText(table, values), CreateParameters(createParameter, shape, InsertParams(values, isPropertyName)))
    {
      var sql := "INSERT INTO " + table + " (" + Text.Join(InsertColumns(values), ",") + ") VALUES ("
                 + Text.Join(InsertPlaceholders(values), ",") + ")";
      var prefix := if isPropertyName then "" else "@";
      var param: Params<V> := map[];
      for i := 0 to |values|
        invariant param == LastWins(InsertBindings(values[..i], prefix))
      {
        assert values[..i + 1][..i] == values[..i];
        param := param[prefix + values[i].column := values[i].value];
      }
      assert values[..|values|] == values;
      r := Finish(sql, CreateParameters(createParameter, shape, param));
    }

    /** `ToUpdate<T>(out parameters)`: the assignments are built first, then the
        WHERE group, which is rendered even when empty. */
    method ToUpdate(shape: ParameterShape) returns (r: Result<(string, Parameters<V, P>), BuildError>)
      ensures r == Finish(UpdateText(table, sets, whereBuild.conditions),
                          CreateParameters(createParameter, shape, UpdateParams(sets, whereBuild.conditions)))
    {
      var param: Params<V> := map[];
      var texts;
      texts, param := BuildChildren(sets, param);
      assert param == ChildParams(sets);
      var w, p2 := whereBuild.ToWhere();
      var sql := "UPDATE " + table + " SET " + Text.Join(texts, ",") + " WHERE " + w;
      param := AddAll(param, Some(p2));
      r := Finish(sql, CreateParameters(createParameter, shape, param));
    }

    /** `ToDelete<T>(out parameters)`: the WHERE group is rendered even when empty. */
    method ToDelete(shape: ParameterShape) returns (r: Result<(string, Parameters<V, P>), BuildError>)
      ensures r == Finish(DeleteText(table, whereBuild.conditions),
                          CreateParameters(createParameter, shape, WhereParams(whereBuild.conditions)))
    {
      var w, p := whereBuild.ToWhere();
      var sql := "DELETE FROM " + table + " WHERE " + w;
      r := Finish(sql, CreateParameters(createParameter, shape, p));
    }
  }

  // ---------------------------------------------------------------------------
  // Properties

  /** `Join` stores the upper-cased name of the join type. */
  lemma JoinKeywords()
    ensures JoinKeyword(Inner) == "INNER" && JoinKeyword(Left) == "LEFT"
    ensures JoinKeyword(Right) == "RIGHT" && JoinKeyword(Full) == "FULL"
  {
    assert JoinKeyword(Inner) == "INNER" by {
      var r := JoinKeyword(Inner);
      forall i | 0 <= i < 5 ensures r[i] == "INNER"[i] {}
    }
    assert JoinKeyword(Left) == "LEFT" by {
      var r := JoinKeyword(Left);
      forall i | 0 <= i < 4 ensures r[i] == "LEFT"[i] {}
    }
    assert JoinKeyword(Right) == "RIGHT" by {
      var r := JoinKeyword(Right);
      forall i | 0 <= i < 5 ensures r[i] == "RIGHT"[i] {}
    }
    assert JoinKeyword(Full) == "FULL" by {
      var r := JoinKeyword(Full);
      forall i | 0 <= i < 4 ensures r[i] == "FULL"[i] {}
    }
  }

  /** `OrderBy` never sets the table, so its entries render as the bare column, a
      blank and the direction. */
  lemma OrderEntryText(column: string, t: OrderType)
    ensures OrderText(OrderByInfo(column, None, t)) == column + " " + OrderTypeName(t)
    ensures OrderTypeName(t) == "ASC" || OrderTypeName(t) == "DESC"
  {
    assert "" + column == column;
  }

  /** A join of parts with a non-empty separator is empty exactly when there is no
      part or a single empty one. */
  lemma {:induction false} JoinEmpty(parts: seq<string>, sep: string)
    requires sep != ""
    ensures Text.Join(parts, sep) == "" <==> parts == [] || parts == [""]
  {
    if |parts| > 1 {
      assert |Text.Join(parts, sep)| >= |sep|;
    }
  }

  /** The select list is `*` when no column was chosen, or when the only one chosen
      is empty; otherwise it is the chosen columns joined by `,`. */
  lemma SelectListStar(columns: seq<string>)
    ensures SelectList(columns) == (if columns == [] || columns == [""] then "*" else Text.Join(columns, ","))
  {
    JoinEmpty(columns, ",");
  }

  /** A group's dictionary with its guard: the guard changes nothing, since an empty
      group has an empty dictionary. */
  lemma GuardedParamsAll<V>(conds: seq<Condition<V>>)
    ensures GuardedParams(conds) == WhereParams(conds)
  {
  }

  /** The dictionary of a SELECT is what writing every entry of the WHERE group and
      then of the HAVING group through the indexer gives: a HAVING entry overwrites
      a WHERE entry of the same name. */
  lemma SelectParamsLastWins<V>(where: seq<Condition<V>>, having: seq<Condition<V>>)
    ensures SelectParams(where, having) == WhereParams(where) + WhereParams(having)
    ensures SelectParams(where, having) == LastWins(ChildBindings(where) + ChildBindings(having))
  {
    ChildParamsLastWins(where);
    ChildParamsLastWins(having);
    LastWinsConcat(ChildBindings(where), ChildBindings(having));
  }

  /** `ToSelect()` refuses a statement exactly when one of its WHERE or HAVING
      conditions binds a parameter. */
  lemma PlainSelectRefused<V>(where: seq<Condition<V>>, having: seq<Condition<V>>)
    ensures SelectParams(where, having) == map[] <==> ChildBindings(where) == [] && ChildBindings(having) == []
  {
    SelectParamsLastWins(where, having);
    WhereParamsEmpty(where);
    WhereParamsEmpty(having);
    var w, h := WhereParams(where), WhereParams(having);
    assert (w + h).Keys == w.Keys + h.Keys;
    if w + h == map[] {
      assert w.Keys == {} && h.Keys == {};
    }
  }

  /** `ToCount` is the select without columns, joins, grouping, HAVING or ordering,
      with `COUNT(1)` for `*`, and it collects the same dictionary. */
  lemma CountLikeSelect<V>(table: string, where: seq<Condition<V>>)
    ensures var select := SelectText(table, [], [], where, [], [], []);
      |select| >= 8 && CountText(table, where) == "SELECT COUNT(1)" + select[8..]
    ensures GuardedParams(where) == SelectParams(where, [])
  {
    var tail := " FROM " + table + GroupClause(" WHERE ", where);
    BareSelect(table, where);
    CountTail(table, where);
    assert ("SELECT *" + tail)[8..] == tail;
  }

  lemma BareSelect<V>(table: string, where: seq<Condition<V>>)
    ensures SelectText(table, [], [], where, [], [], []) == "SELECT *" + (" FROM " + table + GroupClause(" WHERE ", where))
  {
    assert SelectList([]) == "*";
    assert OrderTexts([]) == [];
  }

  lemma CountTail<V>(table: string, where: seq<Condition<V>>)
    ensures CountText(table, where) == "SELECT COUNT(1)" + (" FROM " + table + GroupClause(" WHERE ", where))
  {
  }

  /** The column list and the `VALUES` list of an INSERT come from the same values:
      they have one entry per value, and the i-th placeholder is `@` and the i-th
      column. */
  lemma {:induction false} InsertListsAligned<V>(values: seq<Condition<V>>)
    ensures |InsertColumns(values)| == |values| && |InsertPlaceholders(values)| == |values|
    ensures forall i :: 0 <= i < |values| ==>
      InsertColumns(values)[i] == values[i].column && InsertPlaceholders(values)[i] == "@" + InsertColumns(values)[i]
  {
    if values != [] {
      InsertListsAligned(values[..|values| - 1]);
    }
  }

  /** The dictionary of an INSERT has one key per inserted column, with the key prefix,
      and a column inserted once (or last) carries its value. */
  lemma InsertParamsEntries<V>(values: seq<Condition<V>>, isPropertyName: bool)
    ensures InsertParams(values, isPropertyName).Keys ==
      set i | 0 <= i < |values| :: KeyPrefix(isPropertyName) + values[i].column
    ensures forall i :: 0 <= i < |values| && (forall j :: i < j < |values| ==> values[j].column != values[i].column) ==>
      InsertParams(values, isPropertyName)[KeyPrefix(isPropertyName) + values[i].column] == values[i].value
  {
    var prefix := KeyPrefix(isPropertyName);
    var bs := InsertBindings(values, prefix);
    LastWinsKeys(bs);
    assert KeysOf(bs) == set i | 0 <= i < |values| :: prefix + values[i].column;
    forall i | 0 <= i < |values| && (forall j :: i < j < |values| ==> values[j].column != values[i].column)
      ensures LastWins(bs)[prefix + values[i].column] == values[i].value
    {
      forall j | i < j < |values| ensures bs[j].0 != bs[i].0 {
        assert bs[j].0[|prefix|..] == values[j].column && bs[i].0[|prefix|..] == values[i].column;
      }
      LastWinsAt(bs, i);
    }
  }

  /** Without property names the dictionary keys are exactly the placeholders of the
      `VALUES` list. */
  lemma InsertKeysArePlaceholders<V>(values: seq<Condition<V>>)
    ensures InsertParams(values, false).Keys == set p | p in InsertPlaceholders(values)
  {
    InsertListsAligned(values);
    InsertKeysAre(values, false, InsertPlaceholders(values));
  }

  /** With property names the dictionary keys are the bare columns, while the text
      still says `@column`. */
  lemma InsertKeysAreColumns<V>(values: seq<Condition<V>>)
    ensures InsertParams(values, true).Keys == set c | c in InsertColumns(values)
  {
    InsertListsAligned(values);
    var cols := InsertColumns(values);
    forall i | 0 <= i < |values| ensures cols[i] == KeyPrefix(true) + values[i].column {
      assert KeyPrefix(true) + values[i].column == values[i].column;
    }
    InsertKeysAre(values, true, cols);
  }

  /** The keys of an INSERT's dictionary, listed value by value. */
  lemma InsertKeysAre<V>(values: seq<Condition<V>>, isPropertyName: bool, names: seq<string>)
    requires |names| == |values|
    requires forall i :: 0 <= i < |values| ==> names[i] == KeyPrefix(isPropertyName) + values[i].column
    ensures InsertParams(values, isPropertyName).Keys == set n | n in names
  {
    InsertParamsEntries(values, isPropertyName);
    forall n | n in names ensures n in InsertParams(values, isPropertyName).Keys {
      var i :| 0 <= i < |names| && names[i] == n;
    }
    forall n | n in InsertParams(values, isPropertyName).Keys ensures n in names {
      var i :| 0 <= i < |values| && n == KeyPrefix(isPropertyName) + values[i].column;
      assert names[i] == n;
    }
  }

  /** An assignment renders as `column = @column` and binds `@column` to the value. */
  lemma SetClause<V>(column: string, value: Option<V>)
    requires Identifier(column)
    ensures Sql(Create(column, "=", value, None)) == column + " = @" + column
    ensures ParamsOf(Create(column, "=", value, None)) == map["@" + column := value]
  {
    EqualsComparison();
    ComparisonBuild(column, "=", value, None);
    SpacedEquals(column);
  }

  lemma EqualsComparison()
    ensures "=" in Comparisons && IsNullOrWhiteSpace(None)
  {
  }

  lemma SpacedEquals(column: string)
    ensures column + " " + "=" + " " + ("@" + column) == column + " = @" + column
  {
  }

  /** The dictionary of an UPDATE is what writing every entry of the assignments and
      then of the WHERE group through the indexer gives. */
  lemma UpdateParamsLastWins<V>(sets: seq<Condition<V>>, where: seq<Condition<V>>)
    ensures UpdateParams(sets, where) == LastWins(ChildBindings(sets) + ChildBindings(where))
  {
    ChildParamsLastWins(sets);
    ChildParamsLastWins(where);
    LastWinsConcat(ChildBindings(sets), ChildBindings(where));
  }

  /** Assigning a column and filtering on the same column share the name `@column`:
      the UPDATE reads `SET c = @c WHERE c = @c` and `@c` holds the WHERE value, so
      the new value is lost. */
  lemma UpdateSameColumn<V>(table: string, column: string, newValue: Option<V>, oldValue: Option<V>)
    requires Identifier(column)
    ensures var sets, where := [Create(column, "=", newValue, None)], [Create(column, "=", oldValue, None)];
      var assignment := column + " = @" + column;
      UpdateText(table, sets, where) == "UPDATE " + table + " SET " + assignment + " WHERE " + assignment &&
      UpdateParams(sets, where) == map["@" + column := oldValue]
  {
    SetClause(column, newValue);
    SetClause(column, oldValue);
    SingleCondition(Create(column, "=", newValue, None));
    SingleCondition(Create(column, "=", oldValue, None));
    JoinSingle(column + " = @" + column, ",");
    JoinSingle(column + " = @" + column, " AND ");
  }

  /** A list of one condition renders as that condition alone. */
  lemma SingleCondition<V>(c: Condition<V>)
    ensures ChildSqls([c]) == [Sql(c)]
    ensures ChildParams([c]) == ParamsOf(c)
  {
    assert [c][..0] == [];
    assert map[] + ParamsOf(c) == ParamsOf(c);
  }

  /** A join of one part is that part. */
  lemma JoinSingle(x: string, sep: string)
    ensures Text.Join([x], sep) == x
  {
  }

  /** UPDATE and DELETE keep `WHERE` even with no condition. */
  lemma EmptyWhereKept<V>(table: string, sets: seq<Condition<V>>)
    ensures DeleteText<V>(table, []) == "DELETE FROM " + table + " WHERE "
    ensures UpdateText(table, sets, []) == "UPDATE " + table + " SET " + Text.Join(ChildSqls(sets), ",") + " WHERE "
    ensures WhereParams<V>([]) == map[]
  {
  }
}
