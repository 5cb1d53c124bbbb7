/** A clause group (class `WhereBuild` in DBHelper/SqlBuilder.cs): the ordered
    conditions of a WHERE or HAVING clause, rendered joined by `" AND "`. */
module Clauses {
  import opened Wrappers
  import opened Text
  import opened Extension
  import opened Conditions
  import opened Rendering

  /** The text `ToWhere` returns for `conds`: their fragments joined by `" AND "`. */
  function WhereText<V>(conds: seq<Condition<V>>): string
  {
    Join(ChildSqls(conds), " AND ")
  }

  /** The dictionary `ToWhere` returns: every condition's dictionary merged in order. */
  function WhereParams<V>(conds: seq<Condition<V>>): Params<V>
  {
    ChildParams(conds)
  }

  class WhereBuild<V> {
    /** `Conditions`. */
    var conditions: seq<Condition<V>>

    /** `new WhereBuild(tableBuilder)`: an empty group. */
    constructor ()
      ensures conditions == []
    {
      conditions := [];
    }

    /** `Add(cond, condition)`: appends the node when `cond` holds. */
    method Add(cond: bool, c: Condition<V>)
      modifies this
      ensures conditions == if cond then old(conditions) + [c] else old(conditions)
    {
      if cond {
        conditions := conditions + [c];
      }
    }

    /** `Add(condition, column, operator, value)`: appends `Condition.Create(column,
        operator, value)` when `cond` holds. */
    method AddColumn(cond: bool, column: string, op: string, value: Option<V>)
      modifies this
      ensures conditions == if cond then old(conditions) + [Create(column, op, value, None)] else old(conditions)
    {
      Add(cond, Create(column, op, value, None));
    }

    /** `And(cond, condition)`: `Add`, then hands the same node back. */
    method And(cond: bool, c: Condition<V>) returns (r: Condition<V>)
      modifies this
      ensures r == c
      ensures conditions == if cond then old(conditions) + [c] else old(conditions)
    {
      Add(cond, c);
      r := c;
    }

    /** `Or(cond, condition)`: exactly what `And` does; a top-level condition is always
        joined with `" AND "`. */
    method Or(cond: bool, c: Condition<V>) returns (r: Condition<V>)
      modifies this
      ensures r == c
      ensures conditions == if cond then old(conditions) + [c] else old(conditions)
    {
      Add(cond, c);
      r := c;
    }

    /** `And(cond, column, operator, value)` and `Or(...)` with a column: a new default
        node, added when `cond` holds. */
    method AndColumn(cond: bool, column: string, op: string, value: Option<V>) returns (r: Condition<V>)
      modifies this
      ensures r == CreateWithChildren(column, op, value, Null, Null, None)
      ensures conditions == if cond then old(conditions) + [r] else old(conditions)
    {
      r := And(cond, CreateWithChildren(column, op, value, Null, Null, None));
    }

    /** `And()` / `Or()` without arguments: appends a grouping placeholder
        unconditionally; the caller keeps working on it through the index returned. */
    method Group() returns (i: nat)
      modifies this
      ensures conditions == old(conditions) + [Placeholder()]
      ensures i == |old(conditions)| && i < |conditions| && conditions[i] == Placeholder()
    {
      i := |conditions|;
      conditions := conditions + [Placeholder()];
    }

    /** `node.And(child)` on a node the group already holds, reached through the
        reference `And()` returned: only that node changes. */
    method AndAt(i: nat, child: Condition<V>)
      requires i < |conditions|
      modifies this
      ensures conditions == old(conditions)[i := Conditions.And(old(conditions)[i], child)]
    {
      conditions := conditions[i := Conditions.And(conditions[i], child)];
    }

    /** `node.Or(child)` on a node the group already holds. */
    method OrAt(i: nat, child: Condition<V>)
      requires i < |conditions|
      modifies this
      ensures conditions == old(conditions)[i := Conditions.Or(old(conditions)[i], child)]
    {
      conditions := conditions[i := Conditions.Or(conditions[i], child)];
    }

    /** `Any()`. */
    function Any(): (r: bool)
      reads this
      ensures r <==> |conditions| > 0
    {
      |conditions| > 0
    }

    /** `ToWhere(out parameters)`: builds each condition in order, merging its
        dictionary with `AddAll`, and joins the texts with `" AND "`; an empty group
        gives `""` and an empty dictionary. */
    method ToWhere() returns (sql: string, parameters: Params<V>)
      ensures sql == WhereText(conditions) && parameters == WhereParams(conditions)
      ensures conditions == [] ==> sql == "" && parameters == map[]
    {
      parameters := map[];
      sql := "";
      if |conditions| > 0 {
        var texts, param := BuildChildren(conditions, map[]);
        assert map[] + ChildParams(conditions) == ChildParams(conditions);
        sql := sql + Join(texts, " AND ");
        parameters := AddAll(parameters, Some(param));
        assert map[] + param == param;
      }
    }
  }

  /** One more condition: its fragment follows the others after `" AND "` and its
      dictionary is merged over theirs. */
  lemma WhereSnoc<V>(conds: seq<Condition<V>>, c: Condition<V>)
    ensures WhereText(conds + [c]) == if conds == [] then Sql(c) else WhereText(conds) + " AND " + Sql(c)
    ensures WhereParams(conds + [c]) == WhereParams(conds) + ParamsOf(c)
  {
    var all := conds + [c];
    assert all[..|all| - 1] == conds;
    var texts := ChildSqls(all);
    assert texts == ChildSqls(conds) + [Sql(c)];
    assert texts[..|texts| - 1] == ChildSqls(conds);
  }

  /** The dictionary of a group is what writing every entry of every condition in
      order through the indexer gives: nothing is renamed, a later key overwrites. */
  lemma WhereParamsLastWins<V>(conds: seq<Condition<V>>)
    ensures WhereParams(conds) == LastWins(ChildBindings(conds))
  {
    ChildParamsLastWins(conds);
  }

  /** The dictionary of a group is empty exactly when none of its conditions binds a
      parameter. */
  lemma WhereParamsEmpty<V>(conds: seq<Condition<V>>)
    ensures WhereParams(conds) == map[] <==> ChildBindings(conds) == []
  {
    var bs := ChildBindings(conds);
    ChildParamsLastWins(conds);
    LastWinsKeys(bs);
    if bs != [] {
      assert bs[0].0 in KeysOf(bs);
    }
  }
}
