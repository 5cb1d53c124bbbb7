/** What `Condition.Build` (DBHelper/SqlBuilder.cs) produces for the nodes the
    factories create and for the usual ways of combining them: the rendered text of a
    leaf, the dictionary of a whole tree, and the places where the replacement chain
    does, or does not, tidy the text. */
module Rendering {
  import opened Wrappers
  import opened Text
  import opened Extension
  import opened Conditions

  // ---------------------------------------------------------------------------
  // Fragments the replacement chain leaves alone

  /** No empty pair of parentheses, no comma before a closing parenthesis and no
      double blank. */
  predicate Clean(t: string)
  {
    NoPair(t, '(', ')') && NoPair(t, ',', ')') && NoPair(t, ' ', ' ')
  }

  /** Neither `AND AND` nor `OR OR` occurs: the last two rules find nothing to merge. */
  ghost predicate Unmerged(t: string)
  {
    !Occurs(t, "AND AND") && !Occurs(t, "OR OR")
  }

  /** A fragment none of the cleanup patterns can match and whose first character is
      not a connective letter. */
  ghost predicate Settled(t: string)
  {
    Clean(t) && Unmerged(t) && (t == [] || t[0] !in Connectives)
  }

  /** Gluing `b` after `a` creates none of the pairs `Clean` forbids. */
  predicate Gluable(a: string, b: string)
  {
    a == [] || b == [] ||
    ((a[|a| - 1] != ' ' || b[0] != ' ') && (b[0] != ')' || (a[|a| - 1] != '(' && a[|a| - 1] != ',')))
  }

  lemma CleanConcat(a: string, b: string)
    requires Clean(a) && Clean(b) && Gluable(a, b)
    ensures Clean(a + b)
  {
    NoPairConcat(a, b, '(', ')');
    NoPairConcat(a, b, ',', ')');
    NoPairConcat(a, b, ' ', ' ');
  }

  /** No cleanup pattern occurs in a settled fragment. */
  lemma SettledNoPattern(t: string, k: nat)
    requires Settled(t) && k < |CleanupRules|
    ensures !Occurs(t, CleanupRules[k].0)
  {
    if k == 0 {
      PairNoOccurrence(t, "AND ()", 4);
    } else if k == 1 {
      PairNoOccurrence(t, "OR ()", 3);
    } else if k == 2 {
      PairNoOccurrence(t, "  ", 0);
    } else if k == 3 {
      PairNoOccurrence(t, "()", 0);
    } else if k == 4 {
      PairNoOccurrence(t, ",)", 0);
    } else {
      assert CleanupRules[5].0 == "AND AND" && CleanupRules[6].0 == "OR OR";
    }
  }

  /** The replacement chain and the final `TrimStart` leave a settled fragment exactly
      as it is. */
  lemma NormalizeSettled(t: string)
    requires Settled(t)
    ensures Normalize(t) == t
  {
    forall k | 0 <= k < |CleanupRules| ensures !Occurs(t, CleanupRules[k].0) {
      SettledNoPattern(t, k);
    }
    ReplacedAbsentAll(t, 0);
  }

  /** A non-empty fragment that can be glued to others with a blank: clean and
      unmerged, neither starting nor ending with a blank, unable to close an empty pair
      of parentheses or to follow a comma. */
  ghost predicate Piece(t: string)
  {
    t != [] && Clean(t) && Unmerged(t) && t[0] != ' ' && t[0] != ')'
    && t[|t| - 1] != ' ' && t[|t| - 1] != '(' && t[|t| - 1] != ','
  }

  /** A blank put between `a` and `b` spells neither `AND AND` nor `OR OR`. */
  predicate Glue(a: string, b: string)
  {
    !(EndsWith(a, "AND") && StartsWith(b, "AND")) && !(EndsWith(a, "OR") && StartsWith(b, "OR"))
  }

  lemma RepeatedConnectives()
    ensures "AND" + " " + "AND" == "AND AND" && "OR" + " " + "OR" == "OR OR"
    ensures ' ' !in "AND" && ' ' !in "OR"
  {
  }

  /** Two pieces with a blank between them that spells no repeated connective form
      a piece. */
  lemma SpacedPiece(a: string, b: string)
    requires Piece(a) && Piece(b) && Glue(a, b)
    ensures Piece(a + " " + b)
  {
    assert Clean(" ");
    CleanConcat(a, " ");
    CleanConcat(a + " ", b);
    RepeatedConnectives();
    SpacedOccurrence(a, b, "AND", "AND");
    SpacedOccurrence(a, b, "OR", "OR");
  }

  /** A blank before a piece gives a settled fragment. */
  lemma BlankPiece(t: string)
    requires Piece(t)
    ensures Settled(" " + t)
  {
    assert Clean(" ");
    CleanConcat(" ", t);
    BlankBeforeOccurrence(t, "AND AND");
    BlankBeforeOccurrence(t, "OR OR");
  }

  /** A piece in parentheses is a piece: no repeated-connective pattern holds a
      parenthesis. */
  lemma ParenthesizedPiece(t: string)
    requires Piece(t)
    ensures Piece("(" + t + ")")
  {
    assert Clean("(") && Clean(")");
    CleanConcat("(", t);
    CleanConcat("(" + t, ")");
    ParenthesesUnmerged();
    ShieldedOccurrence("(", t, "AND AND");
    ShieldedOccurrence("(", t, "OR OR");
    ShieldedOccurrence("(" + t, ")", "AND AND");
    ShieldedOccurrence("(" + t, ")", "OR OR");
  }

  lemma ParenthesesUnmerged()
    ensures Unmerged("(") && Unmerged(")")
    ensures '(' !in "AND AND" && ')' !in "AND AND" && '(' !in "OR OR" && ')' !in "OR OR"
  {
    MissingCharNoOccurrence("(", "AND AND", 0);
    MissingCharNoOccurrence("(", "OR OR", 0);
    MissingCharNoOccurrence(")", "AND AND", 0);
    MissingCharNoOccurrence(")", "OR OR", 0);
  }

  /** Texts glue when the first does not end with `D` or `R`, or the second does not
      start with `A` or `O`. */
  lemma GlueByEnds(a: string, b: string)
    requires (a != [] && a[|a| - 1] != 'D' && a[|a| - 1] != 'R') || (b != [] && b[0] != 'A' && b[0] != 'O')
    ensures Glue(a, b)
  {
    ConnectiveEnds();
    if a != [] && a[|a| - 1] != 'D' && a[|a| - 1] != 'R' {
      NotEndsWith(a, "AND");
      NotEndsWith(a, "OR");
    } else {
      NotStartsWith(b, "AND");
      NotStartsWith(b, "OR");
    }
  }

  lemma ConnectiveEnds()
    ensures "AND"[0] == 'A' && "AND"[2] == 'D' && "OR"[0] == 'O' && "OR"[1] == 'R'
  {
  }

  /** Gluing looks only at the ends that meet, so text added beyond them keeps it, as
      long as that text does not meet them with a connective letter. */
  lemma GlueWrapped(p: string, a: string, b: string, q: string)
    requires Glue(a, b)
    requires p == [] || p[|p| - 1] !in Connectives
    requires q == [] || q[0] !in Connectives
    ensures Glue(p + a, b + q)
  {
    assert p == [] || (p[|p| - 1] !in "AND" && p[|p| - 1] !in "OR");
    assert q == [] || (q[0] !in "AND" && q[0] !in "OR");
    EndsAfter(p, a, "AND");
    EndsAfter(p, a, "OR");
    StartsBefore(b, q, "AND");
    StartsBefore(b, q, "OR");
  }

  // ---------------------------------------------------------------------------
  // Names and operators

  /** A non-empty name, operator or join operator with no blank, comma or
      parenthesis: a cleanup pattern can only match across its ends. */
  predicate Word(s: string)
  {
    s != [] && forall i :: 0 <= i < |s| ==> s[i] != ' ' && s[i] != '(' && s[i] != ')' && s[i] != ','
  }

  /** A column name that is a word and does not start with a connective letter. */
  predicate Identifier(s: string)
  {
    Word(s) && s[0] !in Connectives
  }

  lemma WordPiece(s: string)
    requires Word(s)
    ensures Piece(s)
  {
    assert ' ' !in s;
    MissingCharNoOccurrence(s, "AND AND", 3);
    MissingCharNoOccurrence(s, "OR OR", 2);
  }

  /** The operators of the comparison factories. */
  const Comparisons: set<string> := {"=", "<>", ">", ">=", "<", "<="}

  /** Every operator a factory uses. */
  const Operators: set<string> := Comparisons + {"LIKE", "IN", "NOT IN", "BETWEEN", "NOT BETWEEN"}

  /** A factory operator is a piece that neither starts with `A` or `O` nor ends with
      `D` or `R`, so it glues to any column and any text after it. */
  lemma OperatorPiece(op: string)
    requires op in Operators
    ensures Piece(op) && op[0] != 'A' && op[0] != 'O' && op[|op| - 1] != 'D' && op[|op| - 1] != 'R'
  {
    if op == "NOT IN" {
      NotInPiece();
    } else if op == "NOT BETWEEN" {
      NotBetweenPiece();
    } else {
      assert Word(op);
      WordPiece(op);
    }
  }

  lemma NotInPiece()
    ensures Piece("NOT IN")
  {
    WordsOfNotIn();
    WordPiece("NOT");
    WordPiece("IN");
    GlueByEnds("NOT", "IN");
    SpacedPiece("NOT", "IN");
  }

  lemma WordsOfNotIn()
    ensures Word("NOT") && Word("IN") && "NOT" + " " + "IN" == "NOT IN"
  {
  }

  lemma NotBetweenPiece()
    ensures Piece("NOT BETWEEN")
  {
    WordsOfNotBetween();
    WordPiece("NOT");
    WordPiece("BETWEEN");
    GlueByEnds("NOT", "BETWEEN");
    SpacedPiece("NOT", "BETWEEN");
  }

  lemma WordsOfNotBetween()
    ensures Word("NOT") && Word("BETWEEN") && "NOT" + " " + "BETWEEN" == "NOT BETWEEN"
  {
    assert Word("BETWEEN");
  }

  /** A factory operator glues to the column before it and to the text after it. */
  lemma OperatorGlue(column: string, op: string, tail: string)
    requires op in Operators && column != [] && tail != []
    ensures Piece(op) && Glue(column, op) && Glue(op, tail)
  {
    OperatorPiece(op);
    GlueByEnds(column, op);
    GlueByEnds(op, tail);
  }

  /** The name `"@" + column` a node gets by default is a word when the column is. */
  lemma DefaultNameWord(column: string, parameterName: Option<string>)
    requires Word(column) && (IsNullOrWhiteSpace(parameterName) || Word(parameterName.value))
    ensures Word(ParameterNameFor(column, parameterName))
  {
    if IsNullOrWhiteSpace(parameterName) {
      var n := "@" + column;
      assert forall i :: 1 <= i < |n| ==> n[i] == column[i - 1];
    }
  }

  // ---------------------------------------------------------------------------
  // The text of a leaf

  /** A strategy whose text the cleanup chain leaves alone: a join operator that is a
      word and spells no repeated connective next to the name, an IN list with at
      least one value, and a BETWEEN name that does not start with `AND`. */
  predicate PlainStrategy<V>(s: Strategy<V>, name: string)
  {
    match s
    case Like(_, j) => Word(j) && Glue(j, name) && Glue(name, j)
    case Prefix(_, j) => Word(j) && Glue(name, j)
    case Suffix(_, j) => Word(j) && Glue(j, name)
    case InList(vs) => vs != []
    case Range(_, _) => !StartsWith(name, "AND")
    case Default => true
  }

  /** The list `name_0,name_1,...` has no blank and no parenthesis, and ends with a
      digit. */
  lemma IndexedListFacts(name: string, n: nat)
    requires Word(name) && n > 0
    ensures var j := Join(IndexedNames(name, n), ",");
      j != [] && '0' <= j[|j| - 1] <= '9' && ' ' !in j && '(' !in j && ')' !in j
  {
    var names := IndexedNames(name, n);
    var j := Join(names, ",");
    JoinLast(names, ",");
    forall c | c in j ensures c != ' ' && c != '(' && c != ')' {
      JoinChars(names, ",", c);
      if c !in "," {
        var p :| p in names && c in p;
        var i :| 0 <= i < n && names[i] == p;
        var digits := NatToString(i);
        assert p == name + "_" + digits;
        assert c in name || c == '_' || c in digits;
      }
    }
  }

  /** A word between `'%'` and a join operator is still a word. */
  lemma PatternWords(j: string)
    requires Word(j)
    ensures Word("'%'" + j) && Word(j + "'%'") && Word("'%'")
  {
    var l, r := "'%'" + j, j + "'%'";
    assert forall i :: 3 <= i < |l| ==> l[i] == j[i - 3];
    assert forall i :: 0 <= i < |j| ==> r[i] == j[i];
  }

  lemma LikeTail(j: string, name: string)
    requires Word(j) && Word(name) && Glue(j, name) && Glue(name, j)
    ensures Piece("'%'" + j + " " + name + " " + j + "'%'")
  {
    var l, r := "'%'" + j, j + "'%'";
    PatternWords(j);
    WordPiece(l);
    WordPiece(name);
    WordPiece(r);
    GlueWrapped("'%'", j, name, "");
    assert name + "" == name;
    SpacedPiece(l, name);
    GlueWrapped(l + " ", name, j, "'%'");
    SpacedPiece(l + " " + name, r);
    assert l + " " + name + " " + r == "'%'" + j + " " + name + " " + j + "'%'";
  }

  lemma PrefixTail(j: string, name: string)
    requires Word(j) && Word(name) && Glue(name, j)
    ensures Piece(name + " " + j + " '%'")
  {
    PatternWords(j);
    WordPiece(name);
    WordPiece(j);
    WordPiece("'%'");
    SpacedPiece(name, j);
    GlueByEnds(name + " " + j, "'%'");
    SpacedPiece(name + " " + j, "'%'");
    assert name + " " + j + " " + "'%'" == name + " " + j + " '%'";
  }

  lemma SuffixTail(j: string, name: string)
    requires Word(j) && Word(name) && Glue(j, name)
    ensures Piece("'%' " + j + " " + name)
  {
    PatternWords(j);
    WordPiece(name);
    WordPiece(j);
    WordPiece("'%'");
    GlueByEnds("'%'", j);
    SpacedPiece("'%'", j);
    GlueWrapped("'%'" + " ", j, name, "");
    assert name + "" == name;
    SpacedPiece("'%'" + " " + j, name);
    assert "'%'" + " " + j + " " + name == "'%' " + j + " " + name;
  }

  lemma InListTail(name: string, n: nat)
    requires Word(name) && n > 0
    ensures Piece("(" + Join(IndexedNames(name, n), ",") + ")")
  {
    var j := Join(IndexedNames(name, n), ",");
    var t := "(" + j + ")";
    IndexedListFacts(name, n);
    assert Clean(j);
    assert Clean("(") && Clean(")");
    CleanConcat("(", j);
    CleanConcat("(" + j, ")");
    assert ' ' !in t;
    MissingCharNoOccurrence(t, "AND AND", 3);
    MissingCharNoOccurrence(t, "OR OR", 2);
  }

  lemma RangeTail(name: string)
    requires Word(name) && !StartsWith(name, "AND")
    ensures Piece(name + "_1 AND " + name + "_2")
  {
    var n1, n2 := name + "_1", name + "_2";
    var head := n1 + " " + "AND";
    RangeHead(n1);
    RangeJoint(name, n1 + " ");
    SpacedPiece(head, n2);
    assert head + " " + n2 == name + "_1 AND " + name + "_2";
  }

  lemma RangeHead(n1: string)
    requires Word(n1) && n1[|n1| - 1] == '1'
    ensures Piece(n1 + " " + "AND")
  {
    assert Word("AND");
    WordPiece(n1);
    WordPiece("AND");
    GlueByEnds(n1, "AND");
    SpacedPiece(n1, "AND");
  }

  lemma RangeJoint(name: string, p: string)
    requires Word(name) && !StartsWith(name, "AND")
    requires p != [] && p[|p| - 1] == ' '
    ensures Piece(name + "_2") && Glue(p + "AND", name + "_2")
  {
    var n2 := name + "_2";
    assert Word(n2);
    WordPiece(n2);
    StartsBefore(name, "_2", "AND");
    assert Glue("AND", n2);
    GlueWrapped(p, "AND", n2, "");
    assert n2 + "" == n2;
  }

  /** The text a plain strategy renders after the operator is a piece. */
  lemma StrategyTail<V>(s: Strategy<V>, name: string)
    requires Word(name) && PlainStrategy(s, name)
    ensures Piece(StrategyText(s, name))
  {
    match s
    case Default => WordPiece(name);
    case Like(_, j) => LikeTail(j, name);
    case Prefix(_, j) => PrefixTail(j, name);
    case Suffix(_, j) => SuffixTail(j, name);
    case InList(vs) => InListTail(name, |vs|);
    case Range(_, _) => RangeTail(name);
  }

  /** The fragment `"{column} {op} {tail}"` is a piece when the operator is one and
      spells no repeated connective with its neighbours. */
  lemma OwnPiece(column: string, op: string, tail: string)
    requires Word(column) && Piece(op) && Piece(tail) && Glue(column, op) && Glue(op, tail)
    ensures Piece(column + " " + op + " " + tail)
  {
    WordPiece(column);
    SpacedPiece(column, op);
    GlueWrapped(column + " ", op, tail, "");
    assert tail + "" == tail;
    SpacedPiece(column + " " + op, tail);
  }

  /** A childless node whose column, operator, parameter name and strategy spell
      nothing the cleanup patterns could match builds exactly
      `"{Column} {Operator} {strategy text}"`: the replacement chain changes nothing. */
  lemma LeafSql<V>(c: Condition<V>)
    requires c.ands == Null && c.ors == Null
    requires Identifier(c.column) && Word(c.parameterName) && PlainStrategy(c.strategy, c.parameterName)
    requires Piece(c.op) && Glue(c.column, c.op) && Glue(c.op, StrategyText(c.strategy, c.parameterName))
    ensures Sql(c) == c.column + " " + c.op + " " + StrategyText(c.strategy, c.parameterName)
    ensures Piece(Sql(c))
  {
    StrategyTail(c.strategy, c.parameterName);
    OwnPiece(c.column, c.op, StrategyText(c.strategy, c.parameterName));
    assert RawText(c) == OwnText(c);
    NormalizeSettled(OwnText(c));
  }

  // ---------------------------------------------------------------------------
  // Dictionaries

  /** The dictionary of a childless node with a column holds exactly the entries its
      strategy inserts: one key per entry, bound to that entry's value. */
  lemma LeafParams<V>(c: Condition<V>)
    requires c.ands == Null && c.ors == Null && c.column != ""
    ensures ParamsOf(c).Keys == KeysOf(StrategyBindings(c.strategy, c.value, c.parameterName))
    ensures forall b :: b in StrategyBindings(c.strategy, c.value, c.parameterName) ==> ParamsOf(c)[b.0] == b.1
  {
    var bs := StrategyBindings(c.strategy, c.value, c.parameterName);
    assert ParamsOf(c) == LastWins(bs);
    StrategyKeysDistinct(c.strategy, c.value, c.parameterName);
    LastWinsKeys(bs);
    forall b | b in bs ensures LastWins(bs)[b.0] == b.1 {
      var i :| 0 <= i < |bs| && bs[i] == b;
      LastWinsAt(bs, i);
    }
  }

  /** A node whose column is empty never invokes its strategy: its dictionary is its
      AND children's merged with its OR children's. */
  lemma EmptyColumnParams<V>(c: Condition<V>)
    requires c.column == ""
    ensures ParamsOf(c) == GroupParams(c.ands) + GroupParams(c.ors)
  {
    assert OwnParams(c) == map[];
    assert map[] + GroupParams(c.ands) == GroupParams(c.ands);
  }

  /** The dictionary `Build` returns is what writing the tree's entries in order
      through the indexer gives: the node's own, then each AND child's, then each OR
      child's, a later entry for a key overwriting an earlier one. */
  lemma {:induction false} ParamsLastWins<V>(c: Condition<V>)
    ensures ParamsOf(c) == LastWins(Bindings(c))
    decreases c, 1
  {
    var own := OwnBindings(c);
    var ands := match c.ands case Null => [] case List(kids) => ChildBindings(kids);
    var ors := match c.ors case Null => [] case List(kids) => ChildBindings(kids);
    assert Bindings(c) == own + ands + ors;
    LastWinsConcat(own + ands, ors);
    LastWinsConcat(own, ands);
    if c.ands.List? {
      ChildParamsLastWins(c.ands.items);
    }
    if c.ors.List? {
      ChildParamsLastWins(c.ors.items);
    }
  }

  lemma {:induction false} ChildParamsLastWins<V>(kids: seq<Condition<V>>)
    ensures ChildParams(kids) == LastWins(ChildBindings(kids))
    decreases kids, 0
  {
    if kids != [] {
      var init, last := kids[..|kids| - 1], kids[|kids| - 1];
      ChildParamsLastWins(init);
      ParamsLastWins(last);
      LastWinsConcat(ChildBindings(init), Bindings(last));
    }
  }

  /** Every key of the dictionary is the key of an entry of the tree, and it holds the
      value of the last such entry. */
  lemma ParamsLastEntry<V>(c: Condition<V>, i: nat)
    requires i < |Bindings(c)|
    requires forall j :: i < j < |Bindings(c)| ==> Bindings(c)[j].0 != Bindings(c)[i].0
    ensures ParamsOf(c).Keys == KeysOf(Bindings(c))
    ensures ParamsOf(c)[Bindings(c)[i].0] == Bindings(c)[i].1
  {
    ParamsLastWins(c);
    LastWinsKeys(Bindings(c));
    LastWinsAt(Bindings(c), i);
  }

  // ---------------------------------------------------------------------------
  // Factories

  /** `CreateEquals`, `CreateNotEquals`, `CreateGreaterThan`, `CreateGreaterThanOrEquals`,
      `CreateLessThan` and `CreateLessThanOrEquals` build `"{column} {op} {name}"` and
      the dictionary `{name: value}`. */
  lemma ComparisonBuild<V>(column: string, op: string, value: Option<V>, parameterName: Option<string>)
    requires op in Comparisons && Identifier(column)
    requires IsNullOrWhiteSpace(parameterName) || Word(parameterName.value)
    ensures var c := Create(column, op, value, parameterName);
      var name := ParameterNameFor(column, parameterName);
      Sql(c) == column + " " + op + " " + name && ParamsOf(c) == map[name := value]
  {
    var c := Create(column, op, value, parameterName);
    ComparisonLeaf(column, op, value, parameterName);
    LastWinsSingle((c.parameterName, value));
  }

  /** The text of a comparison node is the piece `"{column} {op} {name}"`. */
  lemma {:induction false} ComparisonLeaf<V>(column: string, op: string, value: Option<V>, parameterName: Option<string>)
    requires op in Comparisons && Identifier(column)
    requires IsNullOrWhiteSpace(parameterName) || Word(parameterName.value)
    ensures var c := Create(column, op, value, parameterName);
      Sql(c) == column + " " + op + " " + ParameterNameFor(column, parameterName) && Piece(Sql(c))
  {
    var c := Create(column, op, value, parameterName);
    DefaultNameWord(column, parameterName);
    OperatorGlue(column, op, c.parameterName);
    LeafSql(c);
  }

  /** `CreateIn` / `CreateNotIn` over n > 0 values build
      `"{column} IN (name_0,...,name_{n-1})"`. */
  lemma InListSql<V>(column: string, op: string, values: seq<Option<V>>, parameterName: Option<string>)
    requires op == "IN" || op == "NOT IN"
    requires Identifier(column) && values != []
    requires IsNullOrWhiteSpace(parameterName) || Word(parameterName.value)
    ensures var c := CreateWithStrategy(column, op, InList(values), parameterName);
      var name := ParameterNameFor(column, parameterName);
      Sql(c) == column + " " + op + " " + ("(" + Join(IndexedNames(name, |values|), ",") + ")")
  {
    var c := CreateWithStrategy(column, op, InList(values), parameterName);
    DefaultNameWord(column, parameterName);
    OperatorGlue(column, op, StrategyText(c.strategy, c.parameterName));
    LeafSql(c);
  }

  /** An IN or NOT IN node binds exactly the names `name_0` ... `name_{n-1}`, the i-th
      to the i-th value. */
  lemma InListParams<V>(column: string, op: string, values: seq<Option<V>>, parameterName: Option<string>)
    requires column != ""
    ensures var c := CreateWithStrategy(column, op, InList(values), parameterName);
      var name := ParameterNameFor(column, parameterName);
      (forall i :: 0 <= i < |values| ==>
         IndexedName(name, i) in ParamsOf(c) && ParamsOf(c)[IndexedName(name, i)] == values[i]) &&
      (forall k :: k in ParamsOf(c) ==> exists i :: 0 <= i < |values| && k == IndexedName(name, i))
  {
    var c := CreateWithStrategy(column, op, InList(values), parameterName);
    LeafParams(c);
    InListBindings(values, c.parameterName);
  }

  /** The entries of an IN list: the i-th binds `name_i` to the i-th value, and every
      key is one of these names. */
  lemma InListBindings<V>(values: seq<Option<V>>, name: string)
    ensures var bs := StrategyBindings(InList(values), None, name);
      (forall i :: 0 <= i < |values| ==> bs[i] in bs && bs[i] == (IndexedName(name, i), values[i])) &&
      (forall k :: k in KeysOf(bs) ==> exists i :: 0 <= i < |values| && k == IndexedName(name, i))
  {
  }

  /** `CreateBetween` / `CreateNotBetween` build `"{column} BETWEEN {name}_1 AND {name}_2"`. */
  lemma RangeSql<V>(column: string, op: string, value1: Option<V>, value2: Option<V>, parameterName: Option<string>)
    requires op == "BETWEEN" || op == "NOT BETWEEN"
    requires Identifier(column)
    requires IsNullOrWhiteSpace(parameterName) || Word(parameterName.value)
    requires !StartsWith(ParameterNameFor(column, parameterName), "AND")
    ensures var c := CreateWithStrategy(column, op, Range(value1, value2), parameterName);
      var name := ParameterNameFor(column, parameterName);
      Sql(c) == column + " " + op + " " + (name + "_1 AND " + name + "_2")
  {
    var c := CreateWithStrategy(column, op, Range(value1, value2), parameterName);
    DefaultNameWord(column, parameterName);
    OperatorGlue(column, op, StrategyText(c.strategy, c.parameterName));
    LeafSql(c);
  }

  /** A BETWEEN or NOT BETWEEN node binds `{name}_1` to the lower and `{name}_2` to the
      upper bound. */
  lemma RangeParams<V>(column: string, op: string, value1: Option<V>, value2: Option<V>, parameterName: Option<string>)
    requires column != ""
    ensures var c := CreateWithStrategy(column, op, Range(value1, value2), parameterName);
      var name := ParameterNameFor(column, parameterName);
      ParamsOf(c) == map[name + "_1" := value1, name + "_2" := value2]
  {
    var c := CreateWithStrategy(column, op, Range(value1, value2), parameterName);
    assert ParamsOf(c) == LastWins(OwnBindings(c));
    LastWinsPair((c.parameterName + "_1", value1), (c.parameterName + "_2", value2));
  }

  /** `CreateLike`, `CreatePrefix` and `CreateSuffix` render the pattern around the
      parameter name with the join operator. */
  lemma PatternSql<V>(column: string, s: Strategy<V>, parameterName: Option<string>)
    requires s.Like? || s.Prefix? || s.Suffix?
    requires Identifier(column) && PlainStrategy(s, ParameterNameFor(column, parameterName))
    requires IsNullOrWhiteSpace(parameterName) || Word(parameterName.value)
    ensures var c := CreateWithStrategy(column, "LIKE", s, parameterName);
      var name := ParameterNameFor(column, parameterName);
      var j := s.joinOperator;
      (s.Like? ==> Sql(c) == column + " " + "LIKE" + " " + ("'%'" + j + " " + name + " " + j + "'%'")) &&
      (s.Prefix? ==> Sql(c) == column + " " + "LIKE" + " " + (name + " " + j + " '%'")) &&
      (s.Suffix? ==> Sql(c) == column + " " + "LIKE" + " " + ("'%' " + j + " " + name))
  {
    var c := CreateWithStrategy(column, "LIKE", s, parameterName);
    DefaultNameWord(column, parameterName);
    OperatorGlue(column, "LIKE", StrategyText(c.strategy, c.parameterName));
    LeafSql(c);
  }

  /** `CreateLike`, `CreatePrefix` and `CreateSuffix` bind the single name to the value. */
  lemma PatternParams<V>(column: string, s: Strategy<V>, parameterName: Option<string>)
    requires s.Like? || s.Prefix? || s.Suffix?
    requires column != ""
    ensures var c := CreateWithStrategy(column, "LIKE", s, parameterName);
      ParamsOf(c) == map[ParameterNameFor(column, parameterName) := s.value]
  {
    var c := CreateWithStrategy(column, "LIKE", s, parameterName);
    assert ParamsOf(c) == LastWins(OwnBindings(c));
    LastWinsSingle((c.parameterName, s.value));
  }

  // ---------------------------------------------------------------------------
  // Where the replacement chain falls short

  /** The fragment of a leaf whose AND list is empty rather than null. */
  lemma EmptyAndRaw<V>(c: Condition<V>)
    requires c.ands == Null && c.ors == Null
    ensures RawText(c.(ands := List([]))) == OwnText(c) + " " + "AND ()" + ""
  {
    var e := c.(ands := List([]));
    assert ChildSqls(e.ands.items) == [];
    assert GroupText(e.ands, " AND (", " AND ") == " AND ()";
    assert OwnText(e) == OwnText(c);
  }

  /** A node with an empty but non-null AND list renders `" AND ()"`; the chain deletes
      `"AND ()"` and leaves the blank before it, so the text differs from the same
      node with a null list by a trailing blank. */
  lemma EmptyGroupTrailingBlank<V>(c: Condition<V>)
    requires c.ands == Null && c.ors == Null
    requires Identifier(c.column) && Word(c.parameterName) && PlainStrategy(c.strategy, c.parameterName)
    requires Piece(c.op) && Glue(c.column, c.op) && Glue(c.op, StrategyText(c.strategy, c.parameterName))
    ensures Sql(c.(ands := List([]))) == Sql(c) + " "
  {
    var own := OwnText(c);
    LeafSql(c);
    EmptyAndRaw(c);
    BlankAfterPiece(own);
    EmptyAndNormalized(own + " ");
  }

  /** Appending `"AND ()"` to a settled text that ends with a blank is undone by the
      first rule. */
  lemma EmptyAndNormalized(t: string)
    requires Settled(t) && t != [] && t[|t| - 1] == ' '
    ensures Normalize(t + "AND ()" + "") == t
  {
    NoEarlyEmptyAnd(t);
    ReplaceFirst(t, "AND ()", "", "");
    assert t + "" + Replace("", "AND ()", "") == t;
    forall k | 1 <= k < |CleanupRules| ensures !Occurs(t, CleanupRules[k].0) {
      SettledNoPattern(t, k);
    }
    ReplacedAbsentAll(t, 1);
  }

  /** In `t + "AND ()"`, with `t` clean and ending with a blank, the only `()` is the
      appended one, so no earlier match of `AND ()` starts inside `t`. */
  lemma NoEarlyEmptyAnd(t: string)
    requires Clean(t) && t != [] && t[|t| - 1] == ' '
    ensures forall i :: 0 <= i < |t| ==> !MatchAt(t + "AND ()" + "", "AND ()", i)
  {
    var s := t + "AND ()" + "";
    var pat := "AND ()";
    forall i | 0 <= i < |t| ensures !MatchAt(s, pat, i) {
      if i + |pat| <= |s| {
        var k := i + 4;
        assert s[i..i + |pat|][4] == s[k] && s[i..i + |pat|][5] == s[k + 1];
        if k + 1 < |t| {
          assert s[k] == t[k] && s[k + 1] == t[k + 1];
        } else if k < |t| {
          assert s[k] == ' ';
        } else {
          assert s[k] == pat[k - |t|];
        }
      }
    }
  }

  /** A piece followed by a blank is settled when it does not start with a
      connective letter. */
  lemma BlankAfterPiece(s: string)
    requires Piece(s) && s[0] !in Connectives
    ensures Settled(s + " ")
  {
    assert Clean(" ");
    CleanConcat(s, " ");
    BlankAfterOccurrence(s, "AND AND");
    BlankAfterOccurrence(s, "OR OR");
  }

  /** The fragment of a node without a column whose only group is one AND child. */
  lemma PlaceholderRaw<V>(g: Condition<V>, child: Condition<V>)
    requires g.column == "" && g.ands == List([child]) && g.ors == Null
    ensures RawText(g) == GroupText(List([child]), " AND (", " AND ")
  {
    assert OwnText(g) == [] && GroupText(g.ors, " OR (", " OR ") == [];
  }

  /** A list holding one child renders as `open + {child} + ")"`. */
  lemma SingleGroupText<V>(child: Condition<V>, open: string, sep: string)
    ensures GroupText(List([child]), open, sep) == open + Sql(child) + ")"
  {
    var x := Sql(child);
    assert ChildSqls([child]) == [x] by {
      assert [child][..0] == [];
    }
    assert Join([x], sep) == x;
  }

  /** A grouping placeholder with one AND comparison renders `" AND ({child})"`: the
      text starts with a blank, so the final `TrimStart` keeps the connective. */
  lemma PlaceholderGroup<V>(column: string, op: string, value: Option<V>, parameterName: Option<string>)
    requires op in Comparisons && Identifier(column)
    requires IsNullOrWhiteSpace(parameterName) || Word(parameterName.value)
    ensures var child := Create(column, op, value, parameterName);
      Sql(And(Placeholder(), child)) == " AND (" + Sql(child) + ")"
  {
    var child := Create(column, op, value, parameterName);
    var g := And(Placeholder(), child);
    ComparisonLeaf(column, op, value, parameterName);
    PlaceholderShape(child);
    ChildSqlsAt([child], 0);
    NodeSql(g);
    PlaceholderRaw(g, child);
    SingleGroupText(child, " AND (", " AND ");
  }

  /** `new Condition(...).And(child)` on a placeholder: no column, one AND child, no
      OR list. */
  lemma PlaceholderShape<V>(child: Condition<V>)
    ensures var g := And(Placeholder(), child);
      g.column == "" && g.ands == List([child]) && g.ors == Null
  {
  }

  // ---------------------------------------------------------------------------
  // The text of a tree

  lemma {:induction false} ChildSqlsAt<V>(kids: seq<Condition<V>>, i: nat)
    requires i < |kids|
    ensures ChildSqls(kids)[i] == Sql(kids[i])
    decreases |kids|
  {
    if i < |kids| - 1 {
      ChildSqlsAt(kids[..|kids| - 1], i);
    }
  }

  /** A child list whose text the chain leaves alone: null, or non-empty with every
      child's text a piece, none but the last ending with the list's connective. */
  ghost predicate GroupReady<V>(children: ChildList<V>, w: string)
  {
    children.Null? ||
    (children.items != [] &&
     forall i :: 0 <= i < |children.items| ==>
       Piece(Sql(children.items[i])) && (i < |children.items| - 1 ==> Glue(Sql(children.items[i]), w)))
  }

  /** Texts joined by `" {w} "` form a piece when each is a piece that does not start
      with a connective letter and none but the last ends with `w`; the joined text
      then ends with `w` only if the last one does. */
  lemma {:induction false} JoinPiece(texts: seq<string>, w: string, sep: string)
    requires (w == "AND" || w == "OR") && sep == " " + w + " "
    requires texts != []
    requires forall i :: 0 <= i < |texts| ==> Piece(texts[i]) && texts[i][0] !in Connectives
    requires forall i :: 0 <= i < |texts| - 1 ==> Glue(texts[i], w)
    ensures Piece(Join(texts, sep))
    ensures Glue(texts[|texts| - 1], w) ==> Glue(Join(texts, sep), w)
    decreases |texts|
  {
    if |texts| > 1 {
      var init, last := texts[..|texts| - 1], texts[|texts| - 1];
      var j := Join(init, sep);
      JoinPiece(init, w, sep);
      assert init[|init| - 1] == texts[|texts| - 2];
      JoinStep(j, w, last);
      assert Join(texts, sep) == j + sep + last == j + " " + w + " " + last;
    }
  }

  /** One more text after a joined piece. */
  lemma JoinStep(j: string, w: string, last: string)
    requires w == "AND" || w == "OR"
    requires Piece(j) && Glue(j, w) && Piece(last) && last[0] !in Connectives
    ensures Piece(j + " " + w + " " + last)
    ensures Glue(last, w) ==> Glue(j + " " + w + " " + last, w)
  {
    assert Piece(j + " " + w) by {
      assert Word(w);
      WordPiece(w);
      SpacedPiece(j, w);
    }
    GlueByEnds(j + " " + w, last);
    SpacedPiece(j + " " + w, last);
    if Glue(last, w) {
      JoinStepGlue(j + " " + w + " ", last, w);
    }
  }

  lemma JoinStepGlue(p: string, last: string, w: string)
    requires p != [] && p[|p| - 1] == ' ' && Glue(last, w)
    ensures Glue(p + last, w)
  {
    GlueWrapped(p, last, w, "");
    assert w + "" == w;
  }

  lemma Separators()
    ensures " " + "AND" + " (" == " AND (" && " " + "AND" + " " == " AND "
    ensures " " + "OR" + " (" == " OR (" && " " + "OR" + " " == " OR "
  {
  }

  /** The text of a ready, non-null child list is a blank followed by a piece that
      starts with the connective and ends with `)`. */
  lemma GroupPiece<V>(children: ChildList<V>, w: string)
    requires w == "AND" || w == "OR"
    requires children.List? && GroupReady(children, w)
    ensures var g := GroupText(children, " " + w + " (", " " + w + " ");
      var body := w + (" " + ("(" + Join(ChildSqls(children.items), " " + w + " ") + ")"));
      g == " " + body && Piece(body) && body[|body| - 1] == ')' && StartsWith(body, w + " ")
  {
    var texts := ChildSqls(children.items);
    ReadyTexts(children.items, texts, w);
    JoinPiece(texts, w, " " + w + " ");
    var j := Join(texts, " " + w + " ");
    ConnectiveBody(j, w);
    assert GroupText(children, " " + w + " (", " " + w + " ") == " " + w + " (" + j + ")";
    GroupShape(w, j);
  }

  lemma GroupShape(w: string, j: string)
    ensures " " + w + " (" + j + ")" == " " + (w + (" " + ("(" + j + ")")))
  {
    var l, r := " " + w + " (" + j + ")", " " + (w + (" " + ("(" + j + ")")));
    assert |l| == |r|;
    forall i | 0 <= i < |l| ensures l[i] == r[i] {
      if i < 1 + |w| {
      } else if i < 3 + |w| {
      } else if i < 3 + |w| + |j| {
        assert l[i] == j[i - 3 - |w|];
      }
    }
  }

  /** The texts of a ready list, one by one. */
  lemma ReadyTexts<V>(kids: seq<Condition<V>>, texts: seq<string>, w: string)
    requires GroupReady(List(kids), w) && kids != [] && texts == ChildSqls(kids)
    ensures texts != []
    ensures forall i :: 0 <= i < |texts| ==> Piece(texts[i]) && texts[i][0] !in Connectives
    ensures forall i :: 0 <= i < |texts| - 1 ==> Glue(texts[i], w)
  {
    forall i | 0 <= i < |texts| ensures Piece(texts[i]) && texts[i][0] !in Connectives {
      ChildSqlsAt(kids, i);
    }
    forall i | 0 <= i < |texts| - 1 ensures Glue(texts[i], w) {
      ChildSqlsAt(kids, i);
    }
  }

  /** `w + " (" + j + ")"` for a joined piece `j`. */
  lemma ConnectiveBody(j: string, w: string)
    requires w == "AND" || w == "OR"
    requires Piece(j)
    ensures var body := w + (" " + ("(" + j + ")"));
      Piece(body) && body[|body| - 1] == ')' && StartsWith(body, w + " ")
  {
    var paren := "(" + j + ")";
    ParenthesizedPiece(j);
    assert Word(w);
    WordPiece(w);
    GlueByEnds(w, paren);
    SpacedPiece(w, paren);
    assert w + (" " + paren) == w + " " + paren;
    assert (w + (" " + paren))[..|w + " "|] == w + " ";
  }

  /** A node whose own fragment is a piece (or empty) and whose child lists are ready
      renders its raw fragment untouched, for any number of AND and OR children:
      `{own} AND ({a_1} AND ... AND {a_n}) OR ({o_1} OR ... OR {o_m})`, each group
      present only when its list is not null. This holds as long as the own fragment
      does not end with the connective of the first group that follows it. */
  lemma NodeSql<V>(c: Condition<V>)
    requires c.column != "" ==> c.column[0] !in Connectives && Piece(OwnText(c))
    requires GroupReady(c.ands, "AND") && GroupReady(c.ors, "OR")
    requires c.ands.List? ==> Glue(OwnText(c), "AND")
    requires c.ands.Null? && c.ors.List? ==> Glue(OwnText(c), "OR")
    ensures Sql(c) == RawText(c)
    ensures c.column != "" ==> Piece(Sql(c))
  {
    NodeSettled(c);
    NormalizeSettled(RawText(c));
  }

  lemma NodeSettled<V>(c: Condition<V>)
    requires c.column != "" ==> c.column[0] !in Connectives && Piece(OwnText(c))
    requires GroupReady(c.ands, "AND") && GroupReady(c.ors, "OR")
    requires c.ands.List? ==> Glue(OwnText(c), "AND")
    requires c.ands.Null? && c.ors.List? ==> Glue(OwnText(c), "OR")
    ensures Settled(RawText(c))
    ensures c.column != "" ==> Piece(RawText(c))
  {
    var own := OwnText(c);
    var ga := GroupText(c.ands, " AND (", " AND ");
    var go := GroupText(c.ors, " OR (", " OR ");
    GroupFacts(c.ands, "AND", " AND (", " AND ");
    GroupFacts(c.ors, "OR", " OR (", " OR ");
    assert RawText(c) == own + ga + go;
    if c.column != "" {
      OwnWithGroups(own, ga, go, c.ands.List?, c.ors.List?);
      PieceSettled(own + ga + go, c.column[0]);
    } else {
      EmptyOwn(own, ga, go);
    }
  }

  /** The text of a child list: nothing when it is null, otherwise a blank, then a
      piece that starts with the connective and a blank and ends with `)`. */
  lemma GroupFacts<V>(children: ChildList<V>, w: string, open: string, sep: string)
    requires (w == "AND" || w == "OR") && open == " " + w + " (" && sep == " " + w + " "
    requires GroupReady(children, w)
    ensures var g := GroupText(children, open, sep);
      (children.Null? ==> g == []) &&
      (children.List? ==> g != [] && g[0] == ' ' && Piece(g[1..]) && g[|g| - 1] == ')' && StartsWith(g[1..], w + " "))
  {
    if children.List? {
      var g := GroupText(children, open, sep);
      GroupPiece(children, w);
      assert g[1..] == w + (" " + ("(" + Join(ChildSqls(children.items), sep) + ")"));
    }
  }

  lemma PieceSettled(t: string, first: char)
    requires Piece(t) && t[0] == first && first !in Connectives
    ensures Settled(t)
  {
  }

  lemma EmptyOwn(own: string, ga: string, go: string)
    requires own == []
    requires ga == [] || (ga[0] == ' ' && Piece(ga[1..]) && ga[|ga| - 1] == ')')
    requires go == [] || (go[0] == ' ' && Piece(go[1..]))
    ensures Settled(own + ga + go)
  {
    assert own + ga + go == ga + go;
    GroupsOnly(ga, go);
  }

  /** A piece followed by at most two groups, each a blank and a piece that starts
      with its connective and ends with `)`, is a piece. */
  lemma OwnWithGroups(own: string, ga: string, go: string, hasAnd: bool, hasOr: bool)
    requires Piece(own)
    requires !hasAnd ==> ga == []
    requires !hasOr ==> go == []
    requires hasAnd ==> (ga != [] && ga[0] == ' ' && Piece(ga[1..]) && ga[|ga| - 1] == ')'
      && StartsWith(ga[1..], "AND ") && Glue(own, "AND"))
    requires hasOr ==> go != [] && go[0] == ' ' && Piece(go[1..]) && StartsWith(go[1..], "OR ")
    requires hasOr && !hasAnd ==> Glue(own, "OR")
    ensures Piece(own + ga + go)
  {
    var x := own + ga;
    if hasAnd {
      var body := ga[1..];
      assert ga == " " + body;
      StartGlue(own, "AND", body);
      SpacedPiece(own, body);
      assert x == own + " " + body;
    } else {
      assert x == own;
    }
    if hasOr {
      var body := go[1..];
      assert go == " " + body;
      if hasAnd {
        GlueByEnds(x, body);
      } else {
        StartGlue(own, "OR", body);
      }
      SpacedPiece(x, body);
      assert own + ga + go == x + " " + body;
    } else {
      assert own + ga + go == x;
    }
  }

  /** A text that glues to a connective glues to anything starting with that
      connective and a blank. */
  lemma StartGlue(a: string, w: string, body: string)
    requires Glue(a, w) && StartsWith(body, w + " ")
    ensures Glue(a, body)
  {
    var rest := body[|w|..];
    assert body == w + rest && rest != [] && rest[0] == ' ';
    GlueWrapped("", a, w, rest);
    assert "" + a == a;
  }

  /** The groups of a node without a column: a blank then a piece, or nothing. */
  lemma GroupsOnly(ga: string, go: string)
    requires ga == [] || (ga[0] == ' ' && Piece(ga[1..]) && ga[|ga| - 1] == ')')
    requires go == [] || (go[0] == ' ' && Piece(go[1..]))
    ensures Settled(ga + go)
  {
    if ga == [] && go == [] {
      assert ga + go == [];
      assert Clean([]);
      MissingCharNoOccurrence([], "AND AND", 0);
      MissingCharNoOccurrence([], "OR OR", 0);
    } else if go == [] {
      assert ga + go == " " + ga[1..];
      BlankPiece(ga[1..]);
    } else if ga == [] {
      assert ga + go == " " + go[1..];
      BlankPiece(go[1..]);
    } else {
      GlueByEnds(ga[1..], go[1..]);
      SpacedPiece(ga[1..], go[1..]);
      assert ga + go == " " + (ga[1..] + " " + go[1..]);
      BlankPiece(ga[1..] + " " + go[1..]);
    }
  }

  /** `node.And(first).And(second)` on a node without children: both children inside
      one pair of parentheses, joined by ` AND `, as long as neither the node's
      fragment nor the first child's text ends with `AND`. */
  lemma {:induction false} TwoAndsSql<V>(node: Condition<V>, first: Condition<V>, second: Condition<V>)
    requires node.ands == Null && node.ors == Null
    requires node.column != "" && node.column[0] !in Connectives
    requires Piece(OwnText(node)) && Glue(OwnText(node), "AND")
    requires Piece(Sql(first)) && Glue(Sql(first), "AND") && Piece(Sql(second))
    ensures Sql(And(And(node, first), second)) == OwnText(node) + " AND (" + Sql(first) + " AND " + Sql(second) + ")"
  {
    var c := And(And(node, first), second);
    TwoAndsRaw(node, first, second);
    AndAndShape(node, first, second);
    PairSql(c, first, second);
  }

  lemma {:induction false} AndAndShape<V>(node: Condition<V>, first: Condition<V>, second: Condition<V>)
    requires node.ands == Null && node.ors == Null
    ensures var c := And(And(node, first), second);
      c.ands == List([first, second]) && c.ors == Null && c.column == node.column && OwnText(c) == OwnText(node)
  {
    assert [] + [first] + [second] == [first, second];
  }

  lemma {:induction false} PairSql<V>(c: Condition<V>, first: Condition<V>, second: Condition<V>)
    requires c.ands == List([first, second]) && c.ors == Null
    requires c.column != "" && c.column[0] !in Connectives
    requires Piece(OwnText(c)) && Glue(OwnText(c), "AND")
    requires Piece(Sql(first)) && Glue(Sql(first), "AND") && Piece(Sql(second))
    ensures Sql(c) == RawText(c)
  {
    PairReady(first, second);
    NodeSql(c);
  }

  lemma {:induction false} PairReady<V>(first: Condition<V>, second: Condition<V>)
    requires Piece(Sql(first)) && Glue(Sql(first), "AND") && Piece(Sql(second))
    ensures GroupReady(List([first, second]), "AND")
  {
    var items := [first, second];
    forall i | 0 <= i < |items| ensures Piece(Sql(items[i])) {
      if i == 0 {
        assert items[i] == first;
      } else {
        assert items[i] == second;
      }
    }
    forall i | 0 <= i < |items| - 1 ensures Glue(Sql(items[i]), "AND") {
      assert items[i] == first;
    }
  }

  lemma {:induction false} TwoAndsRaw<V>(node: Condition<V>, first: Condition<V>, second: Condition<V>)
    requires node.ands == Null && node.ors == Null
    ensures RawText(And(And(node, first), second)) == OwnText(node) + " AND (" + Sql(first) + " AND " + Sql(second) + ")"
  {
    var c := And(And(node, first), second);
    var kids := [first, second];
    assert c.ands == List(kids) && c.ors == Null && OwnText(c) == OwnText(node);
    ChildSqlsAt(kids, 0);
    ChildSqlsAt(kids, 1);
    assert ChildSqls(kids) == [Sql(first), Sql(second)];
    JoinPair(Sql(first), Sql(second), " AND ");
    GroupAssoc(OwnText(node), Sql(first), Sql(second));
  }

  lemma JoinPair(a: string, b: string, sep: string)
    ensures Join([a, b], sep) == a + sep + b
  {
    assert [a, b][..1] == [a];
  }

  lemma GroupAssoc(own: string, a: string, b: string)
    ensures own + (" AND (" + (a + " AND " + b) + ")") + "" == own + " AND (" + a + " AND " + b + ")"
  {
  }

  /** A comparison over a column that ends with `AND` (such as `BRAND`, whose default
      name `@BRAND` ends the same way) is damaged by an AND child: its raw fragment
      holds `AND AND` across the joint, the chain merges it, and the text comes out
      shorter than `"{column} {op} @{column} AND ({child})"`. */
  lemma {:induction false} TrailingAndMerged<V>(column: string, op: string, value: Option<V>, child: Condition<V>)
    requires op in Comparisons && Identifier(column) && EndsWith(column, "AND")
    requires Piece(Sql(child))
    ensures var c := And(Create(column, op, value, None), child);
      RawText(c) == column + " " + op + " " + ("@" + column) + " AND (" + Sql(child) + ")" &&
      |Sql(c)| < |RawText(c)|
  {
    var name := "@" + column;
    TrailingRaw(column, op, value, child);
    DefaultNameWord(column, None);
    assert ParameterNameFor(column, None) == name;
    EndsWith2("@", column, "AND");
    TrailingShortens(column, op, name, Sql(child));
  }

  /** The raw text of such a node, written out as a string, loses text to the chain. */
  lemma TrailingShortens(column: string, op: string, name: string, x: string)
    requires op in Comparisons && Word(column) && Word(name) && EndsWith(name, "AND") && Piece(x)
    ensures var t := column + " " + op + " " + name + " AND (" + x + ")";
      |Normalize(t)| < |t|
  {
    OperatorGlue(column, op, name);
    WordPiece(name);
    OwnPiece(column, op, name);
    EndsWith2(column + " " + op + " ", name, "AND");
    assert column + " " + op + " " + name == (column + " " + op + " ") + name;
    MergedGroup(column + " " + op + " " + name, x);
  }

  lemma {:induction false} TrailingRaw<V>(column: string, op: string, value: Option<V>, child: Condition<V>)
    requires column != ""
    ensures var c := And(Create(column, op, value, None), child);
      RawText(c) == column + " " + op + " " + ("@" + column) + " AND (" + Sql(child) + ")"
  {
    var leaf := Create(column, op, value, None);
    var c := And(leaf, child);
    var own := OwnText(leaf);
    assert own == column + " " + op + " " + ("@" + column);
    assert c.ands == List([child]) && c.ors == Null && OwnText(c) == own;
    SingleGroupText(child, " AND (", " AND ");
    assert RawText(c) == own + (" AND (" + Sql(child) + ")") + "";
    SingleAssoc(own, Sql(child));
  }

  /** A piece ending with `AND` followed by an AND group of one piece loses text. */
  lemma MergedGroup(own: string, x: string)
    requires Piece(own) && EndsWith(own, "AND") && Piece(x)
    ensures |Normalize(own + " AND (" + x + ")")| < |own + " AND (" + x + ")"|
  {
    var body := "AND" + (" " + ("(" + x + ")"));
    ConnectiveBody(x, "AND");
    GroupShape("AND", x);
    assert own + " AND (" + x + ")" == own + (" " + body);
    BlankSplit(own, " " + body);
    JointMerge(own, body);
  }

  lemma SingleAssoc(own: string, x: string)
    ensures own + (" AND (" + x + ")") + "" == own + " AND (" + x + ")"
  {
  }

  lemma BlankSplit(a: string, g: string)
    requires g != [] && g[0] == ' '
    ensures a + g == a + " " + g[1..]
  {
    assert g == " " + g[1..];
  }

  lemma EndsWith2(p: string, s: string, x: string)
    requires EndsWith(s, x)
    ensures EndsWith(p + s, x)
  {
    assert (p + s)[|p + s| - |x|..] == s[|s| - |x|..];
  }

  /** A piece that ends with `AND`, a blank, then a piece that starts with `AND `:
      the chain merges the two connectives. */
  lemma JointMerge(own: string, body: string)
    requires Piece(own) && EndsWith(own, "AND") && Piece(body) && StartsWith(body, "AND ")
    ensures |Normalize(own + " " + body)| < |own + " " + body|
  {
    var t := own + " " + body;
    assert Clean(" ");
    CleanConcat(own, " ");
    CleanConcat(own + " ", body);
    var i := |own| - 3;
    assert t[i..i + 7] == own[i..] + " " + body[..3];
    assert MatchAt(t, "AND AND", i);
    MergedShortens(t);
  }

  /** On a clean text in which `AND AND` occurs, only the merging rules can act before
      `TrimStart`, and the first of them shortens the text. */
  lemma MergedShortens(t: string)
    requires Clean(t) && Occurs(t, "AND AND")
    ensures |Normalize(t)| < |t|
  {
    PairNoOccurrence(t, "AND ()", 4);
    PairNoOccurrence(t, "OR ()", 3);
    PairNoOccurrence(t, "  ", 0);
    PairNoOccurrence(t, "()", 0);
    PairNoOccurrence(t, ",)", 0);
    CleanupSkip(t, 0, 5);
    ReplaceShrinks(t, "AND AND", "AND");
  }

  /** Rules whose patterns do not occur are skipped. */
  lemma {:induction false} CleanupSkip(t: string, k: nat, m: nat)
    requires k <= m <= |CleanupRules|
    requires forall r :: k <= r < m ==> !Occurs(t, CleanupRules[r].0)
    ensures CleanupFrom(t, k) == CleanupFrom(t, m)
    decreases m - k
  {
    if k < m {
      ReplaceAbsent(t, CleanupRules[k].0, CleanupRules[k].1);
      CleanupSkip(t, k + 1, m);
    }
  }

  /** No character a cleanup pattern needs to match: no blank, no `(`, no `,`, and
      neither `D` nor `O`. */
  predicate Untouched(s: string)
  {
    forall i :: 0 <= i < |s| ==> s[i] != ' ' && s[i] != '(' && s[i] != ',' && s[i] != 'D' && s[i] != 'O'
  }

  /** A column that starts with connective letters loses them to `TrimStart`: with
      no other pattern to remove, `CreateEquals("NAME", v)` builds `"ME = @NAME"`. */
  lemma LeadingConnectivesTrimmed<V>(lead: string, rest: string, op: string, value: Option<V>)
    requires op in Comparisons && Untouched(lead + rest)
    requires forall i :: 0 <= i < |lead| ==> lead[i] in Connectives
    requires rest != [] && rest[0] !in Connectives
    ensures var column := lead + rest;
      Sql(Create(column, op, value, None)) == rest + (" " + op + " " + ("@" + column))
  {
    var column := lead + rest;
    var tail := " " + op + " " + ("@" + column);
    ComparisonRaw(column, op, value);
    UntouchedNormalize(column, op);
    TrimLead(lead, rest, tail);
  }

  /** Only `TrimStart` acts on the fragment of a comparison over an untouched column. */
  lemma UntouchedNormalize(column: string, op: string)
    requires op in Comparisons && Untouched(column)
    ensures var raw := column + (" " + op + " " + ("@" + column));
      Normalize(raw) == TrimStart(raw, Connectives)
  {
    var raw := column + (" " + op + " " + ("@" + column));
    UntouchedRaw(column, op);
    ReplacedAbsentAll(raw, 0);
  }

  /** `TrimStart` removes a leading run of connective letters and stops at the first
      other character. */
  lemma TrimLead(lead: string, rest: string, tail: string)
    requires forall i :: 0 <= i < |lead| ==> lead[i] in Connectives
    requires rest != [] && rest[0] !in Connectives
    ensures TrimStart(lead + rest + tail, Connectives) == rest + tail
  {
    assert lead + rest + tail == lead + (rest + tail);
    TrimStartSkip(lead, rest + tail, Connectives);
    assert TrimStart(lead, Connectives) == [];
  }

  /** The fragment of a comparison node with the default parameter name. */
  lemma ComparisonRaw<V>(column: string, op: string, value: Option<V>)
    requires column != ""
    ensures RawText(Create(column, op, value, None)) == column + (" " + op + " " + ("@" + column))
  {
    var c := Create(column, op, value, None);
    assert c.parameterName == "@" + column;
  }

  /** None of the cleanup patterns occurs in `"{column} {op} @{column}"`. */
  lemma UntouchedRaw(column: string, op: string)
    requires op in Comparisons && Untouched(column)
    ensures var raw := column + (" " + op + " " + ("@" + column));
      forall k :: 0 <= k < |CleanupRules| ==> !Occurs(raw, CleanupRules[k].0)
  {
    var name := "@" + column;
    var raw := column + (" " + op + " " + name);
    assert Untouched(op) && Untouched(name);
    assert '(' !in raw && ',' !in raw && 'D' !in raw && 'O' !in raw;
    assert NoPair(raw, ' ', ' ') by {
      forall i | 0 <= i < |raw| - 1 ensures !(raw[i] == ' ' && raw[i + 1] == ' ') {
        if i < |column| {
        } else if i == |column| {
          assert raw[i + 1] == op[0];
        } else if i < |column| + 1 + |op| {
          assert raw[i] == op[i - |column| - 1];
        } else {
          assert raw[i + 1] == name[i + 1 - |column| - 2 - |op|];
        }
      }
    }
    PairNoOccurrence(raw, "  ", 0);
    MissingCharNoOccurrence(raw, "AND ()", 4);
    MissingCharNoOccurrence(raw, "OR ()", 0);
    MissingCharNoOccurrence(raw, "()", 0);
    MissingCharNoOccurrence(raw, ",)", 0);
    MissingCharNoOccurrence(raw, "AND AND", 2);
    MissingCharNoOccurrence(raw, "OR OR", 0);
  }

  /** The chain from rule `k` on does nothing but `TrimStart` to a text none of
      whose patterns occur. */
  lemma {:induction false} ReplacedAbsentAll(t: string, k: nat)
    requires k <= |CleanupRules|
    requires forall m :: k <= m < |CleanupRules| ==> !Occurs(t, CleanupRules[m].0)
    ensures CleanupFrom(t, k) == TrimStart(t, Connectives)
    decreases |CleanupRules| - k
  {
    if k < |CleanupRules| {
      ReplaceAbsent(t, CleanupRules[k].0, CleanupRules[k].1);
      ReplacedAbsentAll(t, k + 1);
    }
  }

  // ---------------------------------------------------------------------------
  // Appending a child

  /** Appending a child to a list, null or not: the list's dictionary with the
      child's merged over it, and its text with the child's fragment added before the
      closing parenthesis. */
  lemma {:induction false} GroupSnoc<V>(children: ChildList<V>, child: Condition<V>, open: string, sep: string)
    ensures var items := ItemsOrEmpty(children);
      GroupParams(List(items + [child])) == GroupParams(children) + ParamsOf(child) &&
      GroupText(List(items + [child]), open, sep) ==
        open + (if items == [] then Sql(child) else Join(ChildSqls(items), sep) + sep + Sql(child)) + ")"
  {
    GroupSnocParams(children, child);
    GroupSnocText(children, child, open, sep);
  }

  lemma {:induction false} GroupSnocParams<V>(children: ChildList<V>, child: Condition<V>)
    ensures GroupParams(List(ItemsOrEmpty(children) + [child])) == GroupParams(children) + ParamsOf(child)
  {
    var items := ItemsOrEmpty(children);
    var all := items + [child];
    assert all[..|all| - 1] == items;
    assert GroupParams(children) == ChildParams(items);
  }

  lemma {:induction false} GroupSnocText<V>(children: ChildList<V>, child: Condition<V>, open: string, sep: string)
    ensures var items := ItemsOrEmpty(children);
      GroupText(List(items + [child]), open, sep) ==
        open + (if items == [] then Sql(child) else Join(ChildSqls(items), sep) + sep + Sql(child)) + ")"
  {
    var items := ItemsOrEmpty(children);
    var all := items + [child];
    ChildSqlsSnoc(items, child);
    var texts := ChildSqls(all);
    if items == [] {
      assert texts == [Sql(child)];
    } else {
      assert |texts| > 1 && texts[..|texts| - 1] == ChildSqls(items);
    }
  }

  lemma ChildSqlsSnoc<V>(items: seq<Condition<V>>, child: Condition<V>)
    ensures ChildSqls(items + [child]) == ChildSqls(items) + [Sql(child)]
  {
    assert (items + [child])[..|items|] == items;
  }

  /** `node.And(child)`: the child's entries are written after the node's own and
      its earlier AND children's, and before those of the OR children, which
      therefore win over it. */
  lemma AndParams<V>(node: Condition<V>, child: Condition<V>)
    ensures ParamsOf(And(node, child)) ==
      OwnParams(node) + (GroupParams(node.ands) + ParamsOf(child)) + GroupParams(node.ors)
  {
    GroupSnoc(node.ands, child, " AND (", " AND ");
  }

  /** `node.Or(child)`: the child's entries are the last ones written, so they win
      over every other entry of the node. */
  lemma OrParams<V>(node: Condition<V>, child: Condition<V>)
    ensures ParamsOf(Or(node, child)) == ParamsOf(node) + ParamsOf(child)
  {
    GroupSnoc(node.ors, child, " OR (", " OR ");
    UnionAssociative(OwnParams(node) + GroupParams(node.ands), GroupParams(node.ors), ParamsOf(child));
  }
}
