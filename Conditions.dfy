/** The condition tree of the SQL builder and its compiler (class `Condition` in
    DBHelper/SqlBuilder.cs). A node is a value: its child lists are rebuilt rather
    than appended to in place. */
module Conditions {
  import opened Wrappers
  import opened Text
  import opened Extension

  /** One entry of a parameter dictionary: a name and a value, `None` being `null`. */
  type Binding<V> = (string, Option<V>)

  /** A `Dictionary<string, object>` of parameters. */
  type Params<V> = map<string, Option<V>>

  /** The built-in render strategies (`BuildParameters`). Each one inserts its entries
      with `Dictionary.Add` and returns the SQL text that follows the operator. */
  datatype Strategy<V> =
    | Default                                          // the node's own `Value` under the parameter name
    | Like(value: Option<V>, joinOperator: string)     // '%' on both sides
    | Prefix(value: Option<V>, joinOperator: string)   // '%' on the right
    | Suffix(value: Option<V>, joinOperator: string)   // '%' on the left
    | InList(values: seq<Option<V>>)                   // IN / NOT IN
    | Range(value1: Option<V>, value2: Option<V>)      // BETWEEN / NOT BETWEEN

  /** A nullable `List<Condition>`: `Null` and an empty `List` render differently. */
  datatype ChildList<V> = Null | List(items: seq<Condition<V>>)

  /** A node of the tree. `value` is read only by the default strategy; nodes built
      around another strategy, and grouping placeholders, hold `None`. */
  datatype Condition<V> = Condition(
    column: string,
    op: string,
    value: Option<V>,
    parameterName: string,
    strategy: Strategy<V>,
    ands: ChildList<V>,
    ors: ChildList<V>)

  // ---------------------------------------------------------------------------
  // Construction

  /** `char.IsWhiteSpace`: the separator categories and the control characters
      U+0009 to U+000D and U+0085. */
  predicate IsWhiteSpace(c: char)
  {
    c == ' ' || '\t' <= c <= '\r' || c == '\U{0085}' || c == '\U{00A0}' || c == '\U{1680}'
    || '\U{2000}' <= c <= '\U{200A}' || c == '\U{2028}' || c == '\U{2029}' || c == '\U{202F}'
    || c == '\U{205F}' || c == '\U{3000}'
  }

  /** `string.IsNullOrWhiteSpace`. */
  predicate IsNullOrWhiteSpace(s: Option<string>)
  {
    s.None? || forall i :: 0 <= i < |s.value| ==> IsWhiteSpace(s.value[i])
  }

  /** The parameter name every constructor stores: the given name, or `"@" + column`
      when none (or only white space) is given. */
  function ParameterNameFor(column: string, parameterName: Option<string>): (r: string)
    ensures r != []
    ensures IsNullOrWhiteSpace(parameterName) ==> r == "@" + column
    ensures !IsNullOrWhiteSpace(parameterName) ==> r == parameterName.value
  {
    if IsNullOrWhiteSpace(parameterName) then "@" + column else parameterName.value
  }

  /** `new Condition(column, op, value, and, or, parameterName)`: the default strategy. */
  function CreateWithChildren<V>(column: string, op: string, value: Option<V>,
                                 ands: ChildList<V>, ors: ChildList<V>,
                                 parameterName: Option<string>): Condition<V>
  {
    Condition(column, op, value, ParameterNameFor(column, parameterName), Default, ands, ors)
  }

  /** `Condition.Create(column, op, value, parameterName)`: a childless node with the
      default strategy. */
  function Create<V>(column: string, op: string, value: Option<V>, parameterName: Option<string>): Condition<V>
  {
    CreateWithChildren(column, op, value, Null, Null, parameterName)
  }

  /** `Condition.Create(column, op, handler, parameterName)` for a built-in handler:
      the node's own `Value` stays `null`. */
  function CreateWithStrategy<V>(column: string, op: string, strategy: Strategy<V>,
                                 parameterName: Option<string>): Condition<V>
  {
    Condition(column, op, None, ParameterNameFor(column, parameterName), strategy, Null, Null)
  }

  /** `new Condition(string.Empty, string.Empty, string.Empty)`: the grouping placeholder
      that `And()` and `Or()` open. Its value is never read. */
  function Placeholder<V>(): Condition<V>
  {
    Create("", "", None, None)
  }

  function CreateEquals<V>(column: string, value: Option<V>, parameterName: Option<string>): Condition<V>
  { Create(column, "=", value, parameterName) }

  function CreateNotEquals<V>(column: string, value: Option<V>, parameterName: Option<string>): Condition<V>
  { Create(column, "<>", value, parameterName) }

  function CreateGreaterThan<V>(column: string, value: Option<V>, parameterName: Option<string>): Condition<V>
  { Create(column, ">", value, parameterName) }

  function CreateGreaterThanOrEquals<V>(column: string, value: Option<V>, parameterName: Option<string>): Condition<V>
  { Create(column, ">=", value, parameterName) }

  function CreateLessThan<V>(column: string, value: Option<V>, parameterName: Option<string>): Condition<V>
  { Create(column, "<", value, parameterName) }

  function CreateLessThanOrEquals<V>(column: string, value: Option<V>, parameterName: Option<string>): Condition<V>
  { Create(column, "<=", value, parameterName) }

  function CreateLike<V>(column: string, value: Option<V>, joinOperator: string, parameterName: Option<string>): Condition<V>
  { CreateWithStrategy(column, "LIKE", Like(value, joinOperator), parameterName) }

  function CreatePrefix<V>(column: string, value: Option<V>, joinOperator: string, parameterName: Option<string>): Condition<V>
  { CreateWithStrategy(column, "LIKE", Prefix(value, joinOperator), parameterName) }

  function CreateSuffix<V>(column: string, value: Option<V>, joinOperator: string, parameterName: Option<string>): Condition<V>
  { CreateWithStrategy(column, "LIKE", Suffix(value, joinOperator), parameterName) }

  function CreateIn<V>(column: string, values: seq<Option<V>>, parameterName: Option<string>): Condition<V>
  { CreateWithStrategy(column, "IN", InList(values), parameterName) }

  function CreateNotIn<V>(column: string, values: seq<Option<V>>, parameterName: Option<string>): Condition<V>
  { CreateWithStrategy(column, "NOT IN", InList(values), parameterName) }

  function CreateBetween<V>(column: string, value1: Option<V>, value2: Option<V>, parameterName: Option<string>): Condition<V>
  { CreateWithStrategy(column, "BETWEEN", Range(value1, value2), parameterName) }

  function CreateNotBetween<V>(column: string, value1: Option<V>, value2: Option<V>, parameterName: Option<string>): Condition<V>
  { CreateWithStrategy(column, "NOT BETWEEN", Range(value1, value2), parameterName) }

  /** `node.And(child)`: creates the AND list when it is null, then appends. */
  function And<V>(node: Condition<V>, child: Condition<V>): Condition<V>
  {
    node.(ands := List(ItemsOrEmpty(node.ands) + [child]))
  }

  /** `node.Or(child)`: creates the OR list when it is null, then appends. */
  function Or<V>(node: Condition<V>, child: Condition<V>): Condition<V>
  {
    node.(ors := List(ItemsOrEmpty(node.ors) + [child]))
  }

  /** The items of a child list, treating a null list as empty (`??= new List`). */
  function ItemsOrEmpty<V>(children: ChildList<V>): seq<Condition<V>>
  {
    match children
    case Null => []
    case List(items) => items
  }

  // ---------------------------------------------------------------------------
  // Strategies

  /** The name of the i-th parameter an IN list registers: `"{name}_{i}"`. */
  function IndexedName(name: string, i: nat): string
  {
    name + "_" + NatToString(i)
  }

  /** The parameter names of an IN list over n values: `name_0` to `name_{n-1}` in
      index order, no two of them equal. */
  function IndexedNames(name: string, n: nat): (r: seq<string>)
    ensures |r| == n && forall i :: 0 <= i < n ==> r[i] == IndexedName(name, i)
    ensures forall i, j :: 0 <= i < j < n ==> r[i] != r[j]
  {
    IndexedNameInjective(name);
    seq(n, i requires 0 <= i < n => IndexedName(name, i))
  }

  /** Distinct indices give distinct names: the names differ in their decimal suffix. */
  lemma IndexedNameInjective(name: string)
    ensures forall i: nat, j: nat :: i != j ==> IndexedName(name, i) != IndexedName(name, j)
  {
    forall i: nat, j: nat | i != j ensures IndexedName(name, i) != IndexedName(name, j) {
      var si, sj := NatToString(i), NatToString(j);
      if si == sj {
        NatToStringInjective(i, j);
      } else {
        assert IndexedName(name, i)[|name| + 1..] == si;
        assert IndexedName(name, j)[|name| + 1..] == sj;
      }
    }
  }

  /** The entries a strategy inserts, in insertion order. */
  function StrategyBindings<V>(s: Strategy<V>, value: Option<V>, name: string): seq<Binding<V>>
  {
    match s
    case Default => [(name, value)]
    case Like(v, _) => [(name, v)]
    case Prefix(v, _) => [(name, v)]
    case Suffix(v, _) => [(name, v)]
    case InList(vs) => seq(|vs|, i requires 0 <= i < |vs| => (IndexedName(name, i), vs[i]))
    case Range(v1, v2) => [(name + "_1", v1), (name + "_2", v2)]
  }

  /** The SQL text a strategy returns, which follows the operator. */
  function StrategyText<V>(s: Strategy<V>, name: string): string
  {
    match s
    case Default => name
    case Like(_, j) => "'%'" + j + " " + name + " " + j + "'%'"
    case Prefix(_, j) => name + " " + j + " '%'"
    case Suffix(_, j) => "'%' " + j + " " + name
    case InList(vs) => "(" + Join(IndexedNames(name, |vs|), ",") + ")"
    case Range(_, _) => name + "_1 AND " + name + "_2"
  }

  /** No two entries of a strategy share a key. */
  lemma StrategyKeysDistinct<V>(s: Strategy<V>, value: Option<V>, name: string)
    ensures DistinctKeys(StrategyBindings(s, value, name))
  {
    var b := StrategyBindings(s, value, name);
    match s
    case InList(vs) =>
      IndexedNameInjective(name);
    case Range(_, _) =>
      assert (name + "_1")[|name| + 1] != (name + "_2")[|name| + 1];
    case _ =>
  }

  /** Invoking a strategy on the dictionary `para` with `Dictionary.Add`; `None` is the
      exception thrown on a key already present. Invoked on the fresh dictionary that
      `Build` passes, a built-in strategy never throws and leaves exactly its own
      entries. */
  function Invoke<V>(s: Strategy<V>, value: Option<V>, para: Params<V>, name: string): (r: Option<(string, Params<V>)>)
    ensures para == map[] ==> r == Some((StrategyText(s, name), LastWins(StrategyBindings(s, value, name))))
  {
    StrategyKeysDistinct(s, value, name);
    AddEachDistinct(map[], StrategyBindings(s, value, name));
    assert map[] + LastWins(StrategyBindings(s, value, name)) == LastWins(StrategyBindings(s, value, name));
    match AddEach(para, StrategyBindings(s, value, name))
    case None => None
    case Some(p) => Some((StrategyText(s, name), p))
  }

  /** `BuildParameters.Invoke(para, name)`: the IN strategy fills the dictionary in a
      loop; the others insert one or two entries. */
  method InvokeStrategy<V>(s: Strategy<V>, value: Option<V>, para: Params<V>, name: string)
    returns (r: Option<(string, Params<V>)>)
    ensures r == Invoke(s, value, para, name)
  {
    var entries := StrategyBindings(s, value, name);
    var p := para;
    var i := 0;
    while i < |entries|
      invariant 0 <= i <= |entries|
      invariant AddEach(para, entries[..i]) == Some(p)
    {
      assert entries[..i + 1][..i] == entries[..i];
      var added := DictAdd(p, entries[i].0, entries[i].1);
      if added.None? {
        assert AddEach(para, entries[..i + 1]) == None;
        AddEachFailurePersists(para, entries, i + 1);
        return None;
      }
      p := added.value;
      i := i + 1;
    }
    assert entries[..i] == entries;
    r := Some((StrategyText(s, name), p));
  }

  /** Once an insertion has failed, inserting more entries cannot succeed. */
  lemma {:induction false} AddEachFailurePersists<K, W>(m: map<K, W>, entries: seq<(K, W)>, n: nat)
    requires n <= |entries| && AddEach(m, entries[..n]) == None
    ensures AddEach(m, entries) == None
    decreases |entries| - n
  {
    if n < |entries| {
      assert entries[..n + 1][..n] == entries[..n];
      AddEachFailurePersists(m, entries, n + 1);
    } else {
      assert entries[..n] == entries;
    }
  }

  // ---------------------------------------------------------------------------
  // Compilation

  /** The characters `TrimStart` removes from the front of a fragment. */
  const Connectives: set<char> := {'A', 'N', 'D', 'O', 'R'}

  /** The replacements `Build` applies to the concatenated fragment, in order. */
  const CleanupRules: seq<(string, string)> :=
    [("AND ()", ""), ("OR ()", ""), ("  ", " "), ("()", ""), (",)", ")"), ("AND AND", "AND"), ("OR OR", "OR")]

  /** Every rule has a non-empty pattern and a replacement no longer than it. */
  lemma CleanupRulesShrink(k: nat)
    requires k < |CleanupRules|
    ensures CleanupRules[k].0 != [] && |CleanupRules[k].1| <= |CleanupRules[k].0|
  {
  }

  /** Applies the replacements from rule `k` on, in order, then strips leading
      connective letters. */
  function CleanupFrom(s: string, k: nat): (r: string)
    requires k <= |CleanupRules|
    ensures |r| <= |s|
    ensures r == [] || r[0] !in Connectives
    decreases |CleanupRules| - k
  {
    if k == |CleanupRules| then TrimStart(s, Connectives)
    else
      CleanupRulesShrink(k);
      CleanupFrom(Replace(s, CleanupRules[k].0, CleanupRules[k].1), k + 1)
  }

  /** The fixed chain of replacements and the final `TrimStart` that `Build` applies. */
  function Normalize(raw: string): string
  {
    CleanupFrom(raw, 0)
  }

  /** The node's own part of the fragment: `"{Column} {Operator} {strategy text}"`,
      or nothing for an empty column. */
  function OwnText<V>(c: Condition<V>): string
  {
    if c.column == "" then "" else c.column + " " + c.op + " " + StrategyText(c.strategy, c.parameterName)
  }

  /** The entries the node's own strategy inserts; none for an empty column, whose
      strategy is never invoked. */
  function OwnBindings<V>(c: Condition<V>): seq<Binding<V>>
  {
    if c.column == "" then [] else StrategyBindings(c.strategy, c.value, c.parameterName)
  }

  /** The dictionary the node's own strategy leaves in the fresh dictionary. */
  function OwnParams<V>(c: Condition<V>): Params<V>
  {
    LastWins(OwnBindings(c))
  }

  /** The fragment `Build` concatenates before normalising it: the node's own text,
      then the AND group, then the OR group. */
  function RawText<V>(c: Condition<V>): string
    decreases c, 1
  {
    OwnText(c) + GroupText(c.ands, " AND (", " AND ") + GroupText(c.ors, " OR (", " OR ")
  }

  /** The text a child list appends, `open + children joined by sep + ")"` with
      `open == " AND ("` and `sep == " AND "` for the AND list; nothing for a null
      list. */
  function GroupText<V>(children: ChildList<V>, open: string, sep: string): string
    decreases children, 0
  {
    match children
    case Null => ""
    case List(kids) => open + Join(ChildSqls(kids), sep) + ")"
  }

  /** The text `Condition.Build` returns. */
  function Sql<V>(c: Condition<V>): (r: string)
    decreases c, 2
  {
    Normalize(RawText(c))
  }

  /** The texts of a child list, in order. */
  function ChildSqls<V>(kids: seq<Condition<V>>): (r: seq<string>)
    ensures |r| == |kids|
    decreases kids
  {
    if kids == [] then [] else ChildSqls(kids[..|kids| - 1]) + [Sql(kids[|kids| - 1])]
  }

  /** The dictionary `Condition.Build` returns: the node's own entries, then every AND
      child's dictionary, then every OR child's, each merged with `AddAll`. */
  function ParamsOf<V>(c: Condition<V>): Params<V>
    decreases c, 1
  {
    OwnParams(c) + GroupParams(c.ands) + GroupParams(c.ors)
  }

  /** The dictionaries of a child list merged in order; nothing for a null list. */
  function GroupParams<V>(children: ChildList<V>): Params<V>
    decreases children, 0
  {
    match children
    case Null => map[]
    case List(kids) => ChildParams(kids)
  }

  /** The dictionaries of a child list merged left to right, later entries winning. */
  function ChildParams<V>(kids: seq<Condition<V>>): Params<V>
    decreases kids
  {
    if kids == [] then map[] else ChildParams(kids[..|kids| - 1]) + ParamsOf(kids[|kids| - 1])
  }

  /** The entries of the whole tree in the order `Build` writes them: the node's own,
      then those of each AND child, then those of each OR child. */
  function Bindings<V>(c: Condition<V>): seq<Binding<V>>
    decreases c
  {
    OwnBindings(c)
    + (match c.ands
       case Null => []
       case List(kids) => ChildBindings(kids))
    + (match c.ors
       case Null => []
       case List(kids) => ChildBindings(kids))
  }

  /** The entries of a child list, child after child. */
  function ChildBindings<V>(kids: seq<Condition<V>>): seq<Binding<V>>
    decreases kids
  {
    if kids == [] then [] else ChildBindings(kids[..|kids| - 1]) + Bindings(kids[|kids| - 1])
  }

  // ---------------------------------------------------------------------------
  // Build, statement by statement

  /** `Condition.Build`: renders the node, then its AND children, then its OR children,
      merging every child's dictionary with `AddAll`, and normalises the text. */
  method Build<V>(c: Condition<V>) returns (sql: string, parameters: Params<V>)
    ensures sql == Sql(c) && parameters == ParamsOf(c)
    decreases c
  {
    var own, p0 := BuildOwn(c);
    var ands, p1 := BuildGroup(c.ands, " AND (", " AND ", p0);
    var ors, p2 := BuildGroup(c.ors, " OR (", " OR ", p1);
    sql := Normalize(own + ands + ors);
    parameters := p2;
  }

  /** One child list of `Build`: nothing for a null list; otherwise every child is
      built, its dictionary merged, and the texts joined inside `open ... ")"`. */
  method BuildGroup<V>(children: ChildList<V>, open: string, sep: string, para: Params<V>)
    returns (text: string, merged: Params<V>)
    ensures text == GroupText(children, open, sep)
    ensures merged == para + GroupParams(children)
    decreases children
  {
    if children.Null? {
      text, merged := "", para;
      assert para + map[] == para;
    } else {
      var texts;
      texts, merged := BuildChildren(children.items, para);
      text := open + Join(texts, sep) + ")";
    }
  }

  /** The first step of `Build`: a node with a column invokes its strategy on a fresh
      dictionary and writes `"{Column} {Operator} {strategy text}"`. */
  method BuildOwn<V>(c: Condition<V>) returns (text: string, para: Params<V>)
    ensures text == OwnText(c) && para == OwnParams(c)
  {
    text, para := "", map[];
    if c.column != "" {
      var invoked := InvokeStrategy(c.strategy, c.value, para, c.parameterName);
      text := text + c.column + " " + c.op + " " + invoked.value.0;
      para := invoked.value.1;
    }
  }

  /** One more child: its text is appended and its dictionary merged last. */
  lemma ChildrenSnoc<V>(kids: seq<Condition<V>>, i: nat)
    requires i < |kids|
    ensures ChildSqls(kids[..i + 1]) == ChildSqls(kids[..i]) + [Sql(kids[i])]
    ensures ChildParams(kids[..i + 1]) == ChildParams(kids[..i]) + ParamsOf(kids[i])
  {
    assert kids[..i + 1][..i] == kids[..i];
  }

  lemma UnionAssociative<K, W>(a: map<K, W>, b: map<K, W>, c: map<K, W>)
    ensures a + b + c == a + (b + c)
  {
  }

  /** The `Select` lambda of `Build` over one child list: builds each child in order,
      collecting its text and merging its dictionary into `para` with `AddAll`. */
  method BuildChildren<V>(kids: seq<Condition<V>>, para: Params<V>)
    returns (texts: seq<string>, merged: Params<V>)
    ensures texts == ChildSqls(kids)
    ensures merged == para + ChildParams(kids)
    decreases kids
  {
    texts, merged := [], para;
    var i := 0;
    while i < |kids|
      invariant 0 <= i <= |kids|
      invariant texts == ChildSqls(kids[..i])
      invariant merged == para + ChildParams(kids[..i])
    {
      var s, p := Build(kids[i]);
      assert texts + [s] == ChildSqls(kids[..i + 1]) && merged + p == para + ChildParams(kids[..i + 1]) by {
        ChildrenSnoc(kids, i);
        UnionAssociative(para, ChildParams(kids[..i]), p);
      }
      merged := AddAll(merged, Some(p));
      texts := texts + [s];
      i := i + 1;
    }
    assert kids[..i] == kids;
  }
}
