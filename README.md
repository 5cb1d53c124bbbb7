# DBHelper SQL builder in Dafny

DBHelper is a small .NET helper around ADO.NET. Its SQL builder (`DBHelper/SqlBuilder.cs`)
lets a caller describe a statement fluently and renders SQL text together with a
dictionary of named parameters. This project models that builder and two helpers, and
proves what the rendered text and the parameter dictionary are:

- **Condition tree** (`Conditions`, `Rendering`). A `Condition` holds:
  - a column, an operator and a parameter name;
  - a built-in render strategy: default, LIKE with `%` on both sides, prefix, suffix,
    IN / NOT IN list, or BETWEEN / NOT BETWEEN range;
  - two nullable child lists, `Ands` and `Ors`.

  `Build` renders, in order:
  1. the node's own `"{Column} {Operator} {strategy text}"`;
  2. `" AND (" … ")"` over the AND children;
  3. `" OR (" … ")"` over the OR children.

  It then runs a fixed chain of seven `String.Replace` calls, modelled as single
  left-to-right non-overlapping passes, and `TrimStart('A','N','D','O','R')`. The strategies
  insert with `Dictionary.Add`, which throws on a duplicate key. The children's dictionaries
  are merged with `AddAll`, which overwrites. The functions `Sql` and `ParamsOf` specify
  `Build`, and the `Build` method is proved to compute them.
- **Clause groups** (`Clauses`). `WhereBuild` is a class holding the ordered conditions
  of a WHERE or HAVING clause. It has conditional append, `Any` and `ToWhere`.
- **Column list** (`Columns`). `ColumnBuilder.Add` makes a partial check that `*` is the
  only column, then removes duplicates and keeps first occurrences.
- **Statement assembler** (`Tables`). `TableBuilder` is a class holding joins,
  assignments, inserted values, orderings, groupings and the two clause groups. It renders
  SELECT, COUNT, INSERT, UPDATE and DELETE. Each `To…` method is proved equal to a
  function of the collected parts. `CreateParameters` then turns the dictionary into the
  requested shape: the dictionary itself, `DbParameter[]` or `List<DbParameter>`.
  `JoinTable.ToString` and `OrderByInfo.ToString` are functions.
- **`AddAll`** (`Extension`): dictionary merge through the indexer.
- **`ToUnderlineName`** (`Naming`): converts a CamelCase property name to an UPPER_SNAKE
  column name.

Values of type `object` are `Option<V>` for an opaque `V`, where `None` stands for
`null`. The `DbParameter` factory is an optional function `(string, Option<V>) -> P`.
Exceptions are `None` or `Failure` results.

The cleanup chain changes any text that happens to contain its patterns. The closed
forms of rendered fragments are therefore proved under conditions that keep the patterns
out. These conditions are defined in `Rendering`:

- a **word** is non-empty and has no blank, `(`, `)` or `,`. Upper-case names such as
  `USER_NAME` or `ORDER_ID` are words;
- an **identifier** is a word that does not start with one of `A N D O R`, the letters
  `TrimStart` removes;
- a **piece** is non-empty text without `()`, `,)`, a double blank, `AND AND` or `OR OR`,
  that neither starts with a blank or `)` nor ends with a blank, `(` or `,`. Every
  operator of the factories is a piece, and so is every fragment the lemmas below render;
- two texts **glue** when the first does not end with `AND` while the second starts with
  it, and likewise for `OR`. Putting a blank between two pieces that glue gives a piece.

`Sql` and `ParamsOf` themselves are defined for every input. Separate lemmas show what
happens when these conditions fail:

- `LeadingConnectivesTrimmed`: a column that starts with connective letters loses them;
- `EmptyGroupTrailingBlank`: an empty AND list leaves a trailing blank;
- `TrailingAndMerged`: a column ending in `AND` (`BRAND`, with the default name `@BRAND`)
  followed by an AND child makes `AND AND` across the joint. The chain then merges the two
  connectives and the text loses the child's connective.

Two behaviours of the code are stated as they are. `UpdateSameColumn`: assigning and
filtering the same column in one UPDATE share the name `@column`, so the new value is lost.
`PlaceholderGroup`: a grouping placeholder renders with a leading blank and connective. When
it follows other conditions in a WHERE group, `ToWhere` therefore joins it as
`… AND  AND (…)`; as the only condition it gives `WHERE  AND (…)`.

## Model

| member | source | states |
|---|---|---|
| Extension.DictAdd | DBHelper/SqlBuilder.cs:728 | `Dictionary.Add` succeeds exactly when the key is absent; it then adds that key with that value and keeps every other entry |
| Extension.AddAll | DBHelper/Extension.cs:7-14 | a null `values` leaves the dictionary as it was; otherwise the keys become the union of both key sets, every key of `values` maps to its value there, and every other key keeps its old value |
| Extension.LastWinsAt | DBHelper/Extension.cs:10-13 | writing entries in order through the indexer: every written key is present, and an entry whose key is not written again later keeps its value |
| Extension.LastWinsKeys | DBHelper/Extension.cs:10-13 | the keys after writing a sequence of entries are exactly the keys of those entries |
| Extension.LastWinsConcat | DBHelper/Extension.cs:10-13 | writing `a` then `b` is merging `b`'s dictionary over `a`'s, which is how nested `AddAll` calls compose |
| Extension.AddEachDistinct | DBHelper/SqlBuilder.cs:954-957 | inserting with `Dictionary.Add` entries whose keys are distinct and absent from the dictionary never throws, and leaves the dictionary plus those entries |
| Text.Replace | DBHelper/SqlBuilder.cs:810-818 | a replacement no longer than its pattern never lengthens the text |
| Text.ReplaceAbsent | DBHelper/SqlBuilder.cs:810-818 | replacing a pattern that does not occur leaves the text unchanged |
| Text.ReplaceFirst | DBHelper/SqlBuilder.cs:810 | the pass goes left to right: when the pattern occurs nowhere before a given occurrence, that occurrence is replaced and scanning resumes after it, so the replacement text is never rescanned |
| Text.ReplaceShrinks | DBHelper/SqlBuilder.cs:818 | a replacement shorter than its pattern strictly shortens every text in which the pattern occurs |
| Text.SpacedOccurrence | DBHelper/SqlBuilder.cs:818 | when `x y` (two connectives around a blank) occurs in neither of two texts, it occurs in the two joined by a blank only if the first ends with `x` and the second starts with `y` |
| Text.TrimStart | DBHelper/SqlBuilder.cs:820 | exactly the longest prefix of characters from the set is removed: the result is a suffix of the input, every removed character is in the set, and the first remaining one is not |
| Text.TrimStartSkip | DBHelper/SqlBuilder.cs:820 | trimming stops at the first character outside the set, so all text after it is kept |
| Text.JoinChars | DBHelper/SqlBuilder.cs:792 | every character of a joined text comes from the separator or from one of the parts |
| Text.NatToString | DBHelper/SqlBuilder.cs:956 | an index renders as decimal digits whose last digit is the index modulo 10 |
| Text.NatToStringInjective | DBHelper/SqlBuilder.cs:956 | distinct indices render differently, so the names `p_0`, `p_1`, … of an IN list are distinct |
| Text.ToUpperChar | DBHelper/DBHelper.cs:742 | an ASCII lower-case letter becomes its upper-case letter and every other character is unchanged |
| Text.ToUpper | DBHelper/DBHelper.cs:742 | upper-casing keeps the length and leaves no lower-case letter; each lower-case letter becomes the letter 32 code points below it, and every other character is kept |
| Conditions.ParameterNameFor | DBHelper/SqlBuilder.cs:720-731 | every constructor stores a non-empty parameter name: `"@" + column` when the given name is null or white space, and the given name otherwise |
| Conditions.IndexedNames | DBHelper/SqlBuilder.cs:956-958 | an IN list over n values names exactly n parameters, the i-th being `name_i`, and no two of them are equal |
| Conditions.IndexedNameInjective | DBHelper/SqlBuilder.cs:956-958 | `name_i` and `name_j` differ whenever `i` and `j` do |
| Conditions.StrategyKeysDistinct | DBHelper/SqlBuilder.cs:950-1011 | no built-in strategy inserts the same key twice |
| Conditions.Invoke | DBHelper/SqlBuilder.cs:726-730 | on the fresh dictionary `Build` passes, every built-in strategy succeeds and returns its text and exactly its own entries |
| Conditions.InvokeStrategy | DBHelper/SqlBuilder.cs:952-958 | the insertion loop computes `Invoke`: it inserts each entry with `Dictionary.Add` and fails at the first duplicate |
| Conditions.AddEachFailurePersists | DBHelper/SqlBuilder.cs:954-957 | once an insertion has thrown, the whole strategy has failed |
| Conditions.CleanupRulesShrink | DBHelper/SqlBuilder.cs:810-818 | every replacement of the chain has a non-empty pattern and a result no longer than that pattern |
| Conditions.CleanupFrom | DBHelper/SqlBuilder.cs:808-820 | the cleanup never lengthens the text, and its result never begins with `A`, `N`, `D`, `O` or `R` |
| Conditions.ChildSqls | DBHelper/SqlBuilder.cs:792-796 | a child list yields one fragment per child |
| Conditions.Build | DBHelper/SqlBuilder.cs:781-822 | the method computes the specification: its text is `Sql(c)` and its dictionary is `ParamsOf(c)` |
| Conditions.BuildOwn | DBHelper/SqlBuilder.cs:783-788 | the node's own part: no text and no entries for an empty column, whose strategy is never invoked |
| Conditions.BuildGroup | DBHelper/SqlBuilder.cs:790-806 | a child list appends its group text and merges its dictionary over the entries collected so far |
| Conditions.BuildChildren | DBHelper/SqlBuilder.cs:792-796 | building the children in order yields their fragments in order and merges their dictionaries left to right |
| Conditions.ChildrenSnoc | DBHelper/SqlBuilder.cs:792-796 | one more child appends its fragment and merges its dictionary last |
| Rendering.SettledNoPattern | DBHelper/SqlBuilder.cs:810-818 | no cleanup pattern occurs in a settled fragment |
| Rendering.NormalizeSettled | DBHelper/SqlBuilder.cs:808-820 | the replacement chain and the final `TrimStart` leave a settled fragment exactly as it is |
| Rendering.LeafSql | DBHelper/SqlBuilder.cs:785-787 | a childless node over an identifier, with a word name and an operator that glues to its neighbours, renders `"{Column} {Operator} {strategy text}"` untouched by the cleanup, and that text is a piece |
| Rendering.LeafParams | DBHelper/SqlBuilder.cs:783-787 | a childless node with a column has exactly its strategy's keys, each bound to that entry's value |
| Rendering.EmptyColumnParams | DBHelper/SqlBuilder.cs:785-788 | a node with an empty column contributes only its children's entries |
| Rendering.ParamsLastWins | DBHelper/SqlBuilder.cs:783-808 | the dictionary of a tree is what writing its entries in order gives (own entries, then each AND child's, then each OR child's), a later key overwriting an earlier one and nothing renamed |
| Rendering.ChildParamsLastWins | DBHelper/SqlBuilder.cs:792-796 | the same for a list of children, child after child |
| Rendering.ParamsLastEntry | DBHelper/SqlBuilder.cs:783-808 | the keys of a tree's dictionary are all the keys it writes, and an entry not overwritten later keeps its value |
| Rendering.ComparisonBuild | DBHelper/SqlBuilder.cs:830-889 | for an identifier column and a word name, `CreateEquals`, `CreateNotEquals`, `CreateGreaterThan`, `CreateGreaterThanOrEquals`, `CreateLessThan` and `CreateLessThanOrEquals` build `"{column} {op} {name}"` and the dictionary `{name: value}`, the name defaulting to `@column` |
| Rendering.ComparisonLeaf | DBHelper/SqlBuilder.cs:830-889 | the text of such a comparison is `"{column} {op} {name}"` and is a piece |
| Rendering.InListSql | DBHelper/SqlBuilder.cs:950-977 | `CreateIn` and `CreateNotIn` over n > 0 values render `"{column} IN (name_0,…,name_{n-1})"` in index order |
| Rendering.InListParams | DBHelper/SqlBuilder.cs:954-957 | an IN or NOT IN node binds `name_i` to the i-th value and has no other key |
| Rendering.InListBindings | DBHelper/SqlBuilder.cs:954-957 | the i-th entry an IN list inserts is `(name_i, value[i])` |
| Rendering.RangeSql | DBHelper/SqlBuilder.cs:987-1011 | for an identifier column and a word name that does not start with `AND`, `CreateBetween` and `CreateNotBetween` render `"{column} BETWEEN name_1 AND name_2"` |
| Rendering.RangeTail | DBHelper/SqlBuilder.cs:991-993 | `name_1 AND name_2` is a piece for such a name |
| Rendering.RangeParams | DBHelper/SqlBuilder.cs:987-1011 | a range node's dictionary is exactly `{name_1: value1, name_2: value2}` |
| Rendering.PatternSql | DBHelper/SqlBuilder.cs:899-937 | for an identifier column, a word name and a word join operator that glues to the name, `CreateLike`, `CreatePrefix` and `CreateSuffix` render `'%'{op} name {op}'%'`, `name {op} '%'` and `'%' {op} name` after `LIKE` |
| Rendering.PatternParams | DBHelper/SqlBuilder.cs:899-937 | the pattern factories bind the single name to the value |
| Rendering.EmptyGroupTrailingBlank | DBHelper/SqlBuilder.cs:790-797 | an empty but non-null AND list is observable: the leaf's text gains a trailing blank, because the chain removes `AND ()` and keeps the blank before it |
| Rendering.PlaceholderGroup | DBHelper/SqlBuilder.cs:1099-1105 | a grouping placeholder with one AND comparison renders `" AND ({child})"`: the leading blank makes `TrimStart` keep the connective |
| Rendering.NodeSql | DBHelper/SqlBuilder.cs:781-822 | a node of any depth whose own fragment and children's texts are pieces, each gluing to the connective that follows it, renders its raw text `own + " AND (" + … + ")" + " OR (" + … + ")"` unchanged by the cleanup; with a column, the result is again a piece, so the statement nests |
| Rendering.JoinPiece | DBHelper/SqlBuilder.cs:792 | pieces joined by `" AND "` (or `" OR "`), none but the last ending with the connective, form a piece |
| Rendering.TwoAndsSql | DBHelper/SqlBuilder.cs:1089-1094 | `node.And(first).And(second)` renders both children inside one pair of parentheses, joined by `" AND "` |
| Rendering.TrailingAndMerged | DBHelper/SqlBuilder.cs:790-818 | a comparison over a column ending in `AND` with one AND child has a raw text holding `AND AND`, and the cleanup shortens it |
| Rendering.LeadingConnectivesTrimmed | DBHelper/SqlBuilder.cs:820 | a column that starts with connective letters loses them: `CreateEquals("NAME", v)` yields `"ME = @NAME"` |
| Rendering.GroupSnoc | DBHelper/SqlBuilder.cs:1089-1094 | appending a child to a list, whether null or not, adds its fragment before the closing parenthesis and merges its dictionary last |
| Rendering.AndParams | DBHelper/SqlBuilder.cs:1089-1094 | after `node.And(child)` the child's entries are written after the node's own and its earlier AND children's entries, and before the OR children's |
| Rendering.OrParams | DBHelper/SqlBuilder.cs:1123-1128 | after `node.Or(child)` the child's entries are written last, so they win over every other entry of the node |
| Clauses.WhereBuild.constructor | DBHelper/SqlBuilder.cs:499-501 | a new group holds no condition |
| Clauses.WhereBuild.Add | DBHelper/SqlBuilder.cs:531-540 | `Add(false, c)` changes nothing; `Add(true, c)` appends exactly `c` at the end |
| Clauses.WhereBuild.AddColumn | DBHelper/SqlBuilder.cs:513-523 | the same, for the node `Condition.Create(column, operator, value)` |
| Clauses.WhereBuild.And | DBHelper/SqlBuilder.cs:566-575 | appends when the flag holds and hands back the same node |
| Clauses.WhereBuild.Or | DBHelper/SqlBuilder.cs:595-604 | does exactly what `And` does: conditions at group level are always joined with `AND` |
| Clauses.WhereBuild.AndColumn | DBHelper/SqlBuilder.cs:561-564 | appends the new default node when the flag holds, and returns it |
| Clauses.WhereBuild.Group | DBHelper/SqlBuilder.cs:577-583 | `And()` and `Or()` append a placeholder unconditionally, and it is the last condition |
| Clauses.WhereBuild.AndAt | DBHelper/SqlBuilder.cs:1089-1094 | `node.And(child)` on a node the group holds changes that node only |
| Clauses.WhereBuild.OrAt | DBHelper/SqlBuilder.cs:1123-1128 | `node.Or(child)` on a node the group holds changes that node only |
| Clauses.WhereBuild.Any | DBHelper/SqlBuilder.cs:620-623 | true exactly when the group holds a condition |
| Clauses.WhereBuild.ToWhere | DBHelper/SqlBuilder.cs:542-559 | returns the fragments joined by `" AND "` in insertion order, with the dictionaries merged in order; an empty group gives `""` and an empty dictionary |
| Clauses.WhereSnoc | DBHelper/SqlBuilder.cs:549-553 | one more condition adds `" AND "` and its fragment (only its fragment after none) and merges its dictionary last |
| Clauses.WhereParamsLastWins | DBHelper/SqlBuilder.cs:549-555 | a group's dictionary is every entry of every condition written in order, later keys overwriting |
| Clauses.WhereParamsEmpty | DBHelper/SqlBuilder.cs:542-559 | a group's dictionary is empty exactly when no condition binds a parameter |
| Columns.ColumnBuilder.constructor | DBHelper/SqlBuilder.cs:84-86 | the column list starts empty |
| Columns.ColumnBuilder.Add | DBHelper/SqlBuilder.cs:90-105 | the call fails exactly when the batch holds `*` together with another entry or after earlier columns. A refused batch is still appended, and the error lists the columns. An accepted batch is appended and duplicates are removed |
| Columns.DistinctSameColumns | DBHelper/SqlBuilder.cs:103 | deduplication keeps exactly the columns it was given |
| Columns.DistinctNoDuplicates | DBHelper/SqlBuilder.cs:103 | after deduplication no column occurs twice |
| Columns.DistinctFirstOrder | DBHelper/SqlBuilder.cs:103 | deduplication keeps the order of first occurrences |
| Columns.DistinctKeepsPrefix | DBHelper/SqlBuilder.cs:101-103 | columns chosen earlier stay at the front, in their order |
| Columns.DistinctOfDistinct | DBHelper/SqlBuilder.cs:103 | a list without duplicates is its own deduplication |
| Columns.StarThenColumn | DBHelper/SqlBuilder.cs:92-99 | `Select("*")` on a fresh builder is accepted, and so is a later `Select(c)` for another column, which leaves both |
| Naming.ToUnderlineName | DBHelper/DBHelper.cs:728-743 | fails exactly on an empty name; otherwise returns the upper-cased underlined name |
| Naming.UnderlinedLength | DBHelper/DBHelper.cs:731-740 | the output is one character longer than the input for each upper-case character after the first |
| Naming.UnderlinedAt | DBHelper/DBHelper.cs:731-740 | every input character keeps its order, shifted by the underscores inserted before it. Each upper-case character at index 1 or more has `_` right before it, and the first character gets none |
| Naming.UnderlineNameLength | DBHelper/DBHelper.cs:728-743 | the result's length is the name's length plus the number of upper-case characters after the first |
| Naming.UnderlineNameUpper | DBHelper/DBHelper.cs:742 | the result holds no lower-case letter |
| Naming.UserNameExample | DBHelper/DBHelper.cs:728-743 | `UserName` becomes `USER_NAME` (upper case, although the documentation comment at line 572 says `user_name`) |
| Tables.Operand | DBHelper/SqlBuilder.cs:641-650 | a side of the `ON` comparison is the column itself when it contains `.`, and `table.column` otherwise; either way it contains `.` and ends with the column |
| Tables.JoinText | DBHelper/SqlBuilder.cs:638-654 | a join renders starting with `"{KIND} JOIN "` and ending with the right column |
| Tables.JoinKeywords | DBHelper/SqlBuilder.cs:152-156 | the stored join kind is the upper-cased enum name: `INNER`, `LEFT`, `RIGHT`, `FULL` |
| Tables.OrderTexts | DBHelper/SqlBuilder.cs:480-490 | each ordering entry renders with `OrderByInfo.ToString`, in order |
| Tables.OrderEntryText | DBHelper/SqlBuilder.cs:232-236 | an `OrderBy` entry has no table, so it renders as the column, a blank and `ASC` or `DESC` |
| Tables.CreateParameters | DBHelper/SqlBuilder.cs:327-350 | the dictionary shape returns the dictionary itself. The array and list shapes fail exactly when no factory was given, and otherwise hold one factory-made parameter per entry. Any other type fails |
| Tables.TableBuilder.constructor | DBHelper/SqlBuilder.cs:135-142 | every list is empty, and the WHERE group, the HAVING group and the column list are new and distinct |
| Tables.TableBuilder.Join | DBHelper/SqlBuilder.cs:152-172 | appends one join from the main table, with the upper-cased kind, when the flag holds; nothing else changes |
| Tables.TableBuilder.Select | DBHelper/SqlBuilder.cs:189-193 | does what `ColumnBuilder.Add` does to the builder's column list |
| Tables.TableBuilder.OrderBy | DBHelper/SqlBuilder.cs:219-236 | appends one table-less ordering when the flag holds; nothing else changes |
| Tables.TableBuilder.GroupBy | DBHelper/SqlBuilder.cs:243-259 | appends the column when the flag holds; nothing else changes |
| Tables.TableBuilder.Set | DBHelper/SqlBuilder.cs:267-284 | appends the assignment `Condition.Create(column, "=", value)` when the flag holds; nothing else changes |
| Tables.TableBuilder.Insert | DBHelper/SqlBuilder.cs:292-309 | appends `Condition.Create(column, "", value)` when the flag holds; nothing else changes |
| Tables.TableBuilder.ToSelect | DBHelper/SqlBuilder.cs:358-400 | the text is `SelectText` of the collected parts and the parameters are `CreateParameters` of the WHERE entries with the HAVING entries merged over them |
| Tables.TableBuilder.RenderSelect | DBHelper/SqlBuilder.cs:360-397 | assembles `SELECT {columns or *} FROM {table}`, then the joins, then WHERE for a non-empty group, GROUP BY for a non-empty list, HAVING for a non-empty group and ORDER BY for a non-empty list, in that order |
| Tables.TableBuilder.GroupSection | DBHelper/SqlBuilder.cs:376-380 | a clause group contributes its keyword, text and entries only when `Any()` holds |
| Tables.TableBuilder.RenderJoins | DBHelper/SqlBuilder.cs:369-372 | every join is appended after a blank, in the order attached |
| Tables.TableBuilder.ToPlainSelect | DBHelper/SqlBuilder.cs:316-325 | `ToSelect()` fails exactly when the merged dictionary is non-empty, and otherwise returns the SELECT text |
| Tables.TableBuilder.ToCount | DBHelper/SqlBuilder.cs:457-469 | `SELECT COUNT(1) FROM {table}` with the WHERE clause and its entries only when the group holds a condition |
| Tables.TableBuilder.ToInsert | DBHelper/SqlBuilder.cs:408-420 | the text is `InsertText` of the values, and the dictionary is every value written in order under its prefixed column |
| Tables.TableBuilder.ToUpdate | DBHelper/SqlBuilder.cs:427-438 | the assignments are built first and the WHERE group second. `WHERE` is always emitted, and the WHERE entries are merged over the assignments' entries |
| Tables.TableBuilder.ToDelete | DBHelper/SqlBuilder.cs:445-450 | `DELETE FROM {table} WHERE {group}` with the group's dictionary, `WHERE` being emitted always |
| Tables.JoinEmpty | DBHelper/SqlBuilder.cs:361-366 | a join with a non-empty separator is empty exactly when there is no part or a single empty one |
| Tables.SelectListStar | DBHelper/SqlBuilder.cs:361-366 | the select list is `*` exactly when no column was chosen or the only one chosen is empty |
| Tables.GuardedParamsAll | DBHelper/SqlBuilder.cs:376-380 | the `Any()` guard does not change the dictionary, since an empty group has none |
| Tables.SelectParamsLastWins | DBHelper/SqlBuilder.cs:374-391 | the SELECT dictionary is every WHERE entry and then every HAVING entry written in order, a HAVING entry overwriting a WHERE entry of the same name |
| Tables.PlainSelectRefused | DBHelper/SqlBuilder.cs:316-325 | `ToSelect()` refuses a statement exactly when some WHERE or HAVING condition binds a parameter |
| Tables.CountLikeSelect | DBHelper/SqlBuilder.cs:457-469 | the COUNT text is the bare SELECT text with `COUNT(1)` for `*`, and its dictionary is the same |
| Tables.InsertListsAligned | DBHelper/SqlBuilder.cs:410-411 | the column list and the `VALUES` list have one entry per value, and the i-th placeholder is `@` followed by the i-th column |
| Tables.InsertParamsEntries | DBHelper/SqlBuilder.cs:412-416 | the INSERT dictionary has one key per inserted column, carrying the prefix, and a column inserted last carries its value |
| Tables.InsertKeysArePlaceholders | DBHelper/SqlBuilder.cs:408-416 | without property names the keys are exactly the placeholders of the `VALUES` list |
| Tables.InsertKeysAreColumns | DBHelper/SqlBuilder.cs:408-416 | with property names the keys are the bare columns, while the text still says `@column` |
| Tables.SetClause | DBHelper/SqlBuilder.cs:267-271 | an assignment over an identifier column renders `column = @column` and binds `@column` to the value |
| Tables.UpdateParamsLastWins | DBHelper/SqlBuilder.cs:429-435 | the UPDATE dictionary is every assignment entry and then every WHERE entry written in order |
| Tables.UpdateSameColumn | DBHelper/SqlBuilder.cs:427-437 | assigning and filtering the same column share `@column`: the text is `SET c = @c WHERE c = @c` and `@c` holds the WHERE value only |
| Tables.EmptyWhereKept | DBHelper/SqlBuilder.cs:427-450 | UPDATE and DELETE end in `" WHERE "` when the group is empty, with no WHERE entries |

## Left out

- Custom render strategies: a caller-supplied `Func` passed to the `Condition` constructor (DBHelper/SqlBuilder.cs:698-704) or to `Condition.Create` (DBHelper/SqlBuilder.cs:1023-1027) is not modelled. Such code cannot be seen, so only the built-in strategies are. The `?.Invoke` on a null strategy cannot arise for them.
- Conditions are values. Mutating a node through a reference after it was attached is not modelled. This covers `node.And(child)` on a node nested inside another node, and the placeholders that `Condition.And()` / `Condition.Or()` (DBHelper/SqlBuilder.cs:1099-1105, 1133-1139) return for further changes. A node held directly by a group is changed in place by `WhereBuild.AndAt` / `OrAt`, and `Rendering.GroupSnoc` states what appending a child does.
- The back-references (`whereBuild`, `TableBuilder`) and the navigation accessors `BuildEnd`, `WhereBuild()`, `Column()`, `Where()` and `Having()` are not modelled. They only return objects the model exposes directly. `SqlBuilder.CreateBuilder` is the `TableBuilder` constructor.
- `DbParameter` objects are opaque values `P` made by the factory. The array and the list are modelled as a map from entry name to parameter, so their order is not modelled. Nor is dictionary enumeration order in general.
- The grouping placeholder stores `string.Empty` as its value. The model stores `None`. The value is never read, because an empty column skips the strategy.
- `char.IsUpper` and `ToUpper` are modelled on ASCII only. Culture and the rest of Unicode are not.
- `ToUnderlineName` of a `null` name is not modelled (strings are never null here). Nor are the other members of DBHelper/DBHelper.cs: database I/O, logging, and reflection-based mapping.
- `JoinTable.ToString` tests the constructor parameter `columnLeft` but prints the property `ColumnLeft`. The source never reassigns that property, so the two agree, and `JoinTable` is modelled as a value.
- Exception messages are not modelled, except the column list reported by `ColumnBuilder.Add`. A null `columns` array passed to `Select`, and null `Ands`/`Ors` entries inside a list, are not modelled. Nor is a null value array passed to `CreateIn` or `CreateNotIn`: `Build` would throw a `NullReferenceException` at `value.Length` when it invokes the strategy (DBHelper/SqlBuilder.cs:952-954, 970-972). The model takes the values as a sequence, which is never null.
- The expected outputs in the comments of DBHelper.Test/Program.cs:100-147 differ from what the code renders: `!=` instead of `<>`, lower-case keywords, other spacing. The model follows the code.
- Rendering.LeafSql: the closed form is proved only for an identifier column, a word parameter name and an operator that glues to its neighbours. Outside these the chain may change the text: a column starting with a connective letter (`LeadingConnectivesTrimmed`), or a blank, `(`, `)` or `,` inside a name.
- Rendering.NodeSql: the closed form needs every fragment to glue to the connective after it. A column or name ending in `AND` before an AND group, or in `OR` before an OR group, is not covered, because the chain merges the connectives (`TrailingAndMerged`). Nor are empty lists, which leave a blank (`EmptyGroupTrailingBlank`), or a placeholder child inside a group, whose text starts with a blank.
- Rendering.TrailingAndMerged: only the AND case is proved. A column ending in `OR` (such as `COLOR`) inside an OR group is damaged in the same way.
- Rendering.ComparisonBuild: stated for an identifier column and a word name, as for `LeafSql`.
- Rendering.ComparisonLeaf: the same restriction as `ComparisonBuild`.
- Rendering.InListSql: stated for an identifier column, a word name and a non-empty list. An IN list over no value renders `()`, which the chain deletes, and is not given a closed form.
- Rendering.RangeSql: a parameter name starting with `AND` is not covered, because `name_1 AND name_2` would then hold `AND AND`, which the chain merges.
- Rendering.PatternSql: a join operator with a blank, parenthesis or comma, or one that ends with `AND`/`OR` where the name starts with it (or the reverse), is not covered.
- Rendering.PlaceholderGroup: stated for one comparison child under the same restriction as `ComparisonBuild`.
- Rendering.EmptyGroupTrailingBlank: stated for leaves under the restriction of `LeafSql`.
- Tables.SetClause: stated for an identifier column.
- Tables.UpdateSameColumn: stated for an identifier column.
- Rendering.InListSql: an IN list over no value renders `()`, which the chain deletes. It is not given a closed form.
