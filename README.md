# Pivoted Query Synthesis oracle for PostgreSQL: a Dafny model

This project models the decision-making of SQLancer's PostgreSQL Pivoted Query
Synthesis (PQS) oracle, `PostgresPivotedQuerySynthesisOracle`. The oracle
takes a pivot row sampled from one or more tables. It builds a SELECT whose
WHERE predicate is true for that row by construction. It then wraps that
query's text in a containment query that checks the pivot row is in the result.

The model covers four parts of the oracle:

- **Rectifier** (`Rectifier`). It wraps the generated boolean expression in
  `IS NULL`, `IS TRUE` or `IS FALSE`, depending on the expected value for the
  pivot row. The result is proved TRUE under SQL's three-valued logic: the
  `<null predicate>` of ISO/IEC 9075 (SQL-92) section 8.6, and the boolean test
  of section 8.12, Table 3 (`ThreeValued`). The chosen test is also proved to
  be the only one of the three that holds.
- **Fetch-column aliasing** (`Aliasing`). Each column is fetched as
  `name AS <table><name>`. The model proves that the containment query uses
  exactly this alias.
- **Containment query** (`Containment`, `Oracle.PivotedQuerySynthesisOracle.GetContainedInQuery`).
  The source builds this text in a loop with a first-iteration guard. The
  model proves the loop's result equals a header followed by a recursive
  " AND "-join of the conjuncts. A three-valued evaluator of the conjuncts
  shows the outer WHERE is TRUE on a result row exactly when that row agrees
  with the pivot row on every fetch column.
- **Clause options and select assembly** (`Clauses`, `Oracle`). These cover
  GROUP BY over every column, LIMIT 2147483647 and OFFSET 0 (only after a
  LIMIT). The random choices become boolean parameters.

The oracle object is a class with the three fields the source updates:
`fetchColumns`, `pivotRow` and the append-only `rectifiedPredicates`.

Two places where the model differs from the source:

- The two fields the source leaves `null` until the first query is built start
  out empty in the model.
- The SELECT statement is a datatype value. Each setter call in the source
  becomes a record update.

## Model

| member | source | states |
|---|---|---|
| ThreeValued.ApplyPostfix | src/sqlancer/postgres/oracle/PostgresPivotedQuerySynthesisOracle.java:79-83 | `IS NULL`, `IS TRUE` and `IS FALSE` never yield UNKNOWN. Each yields TRUE on exactly one truth value: UNKNOWN, TRUE or FALSE respectively. |
| Ast.ExpectedValue | src/sqlancer/postgres/oracle/PostgresPivotedQuerySynthesisOracle.java:78-82 | The value on the pivot row of a generated expression is the one its generator computed, an input to the model. A postfix test is never UNKNOWN. It is TRUE exactly when its operand's value is the tested one, evaluated by `ThreeValued.ApplyPostfix`. This is what "TRUE on the pivot row" means throughout. |
| Rectifier.RectifyingOperator | src/sqlancer/postgres/oracle/PostgresPivotedQuerySynthesisOracle.java:78-84 | `IS NULL` is chosen exactly when the expected value is NULL. `IS TRUE` is chosen exactly when it is true, and `IS FALSE` exactly when it is false. |
| Rectifier.Rectify | src/sqlancer/postgres/oracle/PostgresPivotedQuerySynthesisOracle.java:77-84 | The result is a postfix test whose operand is the generated expression, unchanged. Its value on the pivot row is TRUE. |
| Rectifier.RectifyingOperatorIsUnique | src/sqlancer/postgres/oracle/PostgresPivotedQuerySynthesisOracle.java:78-84 | Of the three tests, the chosen one is the only one that is TRUE on the expected value. |
| Oracle.PivotedQuerySynthesisOracle.GenerateTrueCondition | src/sqlancer/postgres/oracle/PostgresPivotedQuerySynthesisOracle.java:73-87 | Returns the rectified predicate. It appends exactly that predicate to `rectifiedPredicates`, and earlier entries are unchanged. |
| Aliasing.AliasedColumn | src/sqlancer/postgres/oracle/PostgresPivotedQuerySynthesisOracle.java:92-97 | The aliased name is `name + " AS " + table name + name`. The type and the table are the column's own. |
| Aliasing.AliasOf | src/sqlancer/postgres/oracle/PostgresPivotedQuerySynthesisOracle.java:93-94 | The aliased name is the column name, then " AS ", then this alias. The alias is as long as the table and column names together. |
| Aliasing.AliasSeparatesSameNamedColumns | src/sqlancer/postgres/oracle/PostgresPivotedQuerySynthesisOracle.java:89-95 | Same-named columns of two differently named tables get different aliases. |
| Aliasing.AliasesOfDifferentColumnsCanCoincide | src/sqlancer/postgres/oracle/PostgresPivotedQuerySynthesisOracle.java:89-95 | Two different columns, `ta.bc` and `tab.c`, both get the alias `tabc`. Concatenating the names without a separator is not injective. |
| Clauses.GroupByClause | src/sqlancer/postgres/oracle/PostgresPivotedQuerySynthesisOracle.java:99-106 | When chosen, there is one entry per column, in column order, each bound to that column's pivot value. Otherwise the list is empty. |
| Clauses.Limit | src/sqlancer/postgres/oracle/PostgresPivotedQuerySynthesisOracle.java:108-114 | The LIMIT is present exactly when chosen, and then it is 2147483647. |
| Clauses.Offset | src/sqlancer/postgres/oracle/PostgresPivotedQuerySynthesisOracle.java:116-123 | The OFFSET is present exactly when chosen, and then it is 0. |
| Oracle.FromList | src/sqlancer/postgres/oracle/PostgresPivotedQuerySynthesisOracle.java:50-51 | There is one FROM entry per table, in order, none marked ONLY. |
| Oracle.FetchColumns | src/sqlancer/postgres/oracle/PostgresPivotedQuerySynthesisOracle.java:52-54 | There is one fetch column per table column, in order. The i-th is the i-th column aliased, carrying that column's pivot value. |
| Oracle.PivotSelect | src/sqlancer/postgres/oracle/PostgresPivotedQuerySynthesisOracle.java:41-71 | The statement's fetch columns follow the columns one for one, each aliased and carrying its pivot value. The WHERE is the rectified generated expression and is TRUE on the pivot row. LIMIT is absent or 2147483647. OFFSET is absent or 0, and is present only with a LIMIT. GROUP BY is empty or lists every column in order with its pivot value. The select type, FROM list and ORDER BY are the given ones. |
| Oracle.ClauseChoicesAreExhaustive | src/sqlancer/postgres/oracle/PostgresPivotedQuerySynthesisOracle.java:57-64 | LIMIT is present exactly when chosen. OFFSET is present exactly when both LIMIT and OFFSET are chosen. GROUP BY is non-empty exactly when chosen, provided there is a column. |
| Oracle.PivotedQuerySynthesisOracle.GetQueryThatContainsAtLeastOneRow | src/sqlancer/postgres/oracle/PostgresPivotedQuerySynthesisOracle.java:41-71 | Stores the pivot row and the fetch columns, and appends one rectified predicate. Returns the statement `PivotSelect` describes for the same inputs. |
| Containment.ConjunctFor | src/sqlancer/postgres/oracle/PostgresPivotedQuerySynthesisOracle.java:141-149 | The conjunct names `<table><column>`. It is an `IS NULL` test exactly when the pivot value is NULL, and otherwise compares with the pivot value. |
| Containment.Conjuncts | src/sqlancer/postgres/oracle/PostgresPivotedQuerySynthesisOracle.java:137-149 | There is one conjunct per fetch column, and the i-th is the conjunct for the i-th column. |
| Containment.RenderedConjuncts | src/sqlancer/postgres/oracle/PostgresPivotedQuerySynthesisOracle.java:137-149 | There is one rendered conjunct per fetch column, in column order. |
| Containment.JoinAnd | src/sqlancer/postgres/oracle/PostgresPivotedQuerySynthesisOracle.java:136-140 | Joining nothing gives the empty string. Otherwise the result starts with the first part, with no leading separator. Its length is the parts' total length plus one separator between each pair of neighbours. |
| Containment.JoinAndSnoc | src/sqlancer/postgres/oracle/PostgresPivotedQuerySynthesisOracle.java:137-140 | Appending a part adds " AND " before it exactly when something came before. |
| Containment.AppendPart | src/sqlancer/postgres/oracle/PostgresPivotedQuerySynthesisOracle.java:137-140 | One loop step, which writes the separator only when `i != 0` and then the next part, extends the join by one part. |
| Containment.AppendConjunct | src/sqlancer/postgres/oracle/PostgresPivotedQuerySynthesisOracle.java:141-149 | Appending `result.`, the table name, the column name, then ` IS NULL` or ` = ` and the literal, appends the rendered conjunct for that column. |
| Containment.ReferenceIsAlias | src/sqlancer/postgres/oracle/PostgresPivotedQuerySynthesisOracle.java:141-143 | The name the containment query tests is exactly the alias the pivot query declared after " AS ". |
| Oracle.PivotedQuerySynthesisOracle.GetContainedInQuery | src/sqlancer/postgres/oracle/PostgresPivotedQuerySynthesisOracle.java:131-153 | The loop's text is `SELECT * FROM (q) as result WHERE ` followed by the conjuncts in fetch-column order, joined by " AND ". |
| Oracle.FetchColumnsMatchContainment | src/sqlancer/postgres/oracle/PostgresPivotedQuerySynthesisOracle.java:52-54 | For each column i, the i-th fetch column's name is the column name, " AS ", then the name the i-th conjunct tests. That conjunct is `IS NULL` exactly when the fetched value is NULL, and otherwise compares with it. |
| ThreeValued.And | src/sqlancer/postgres/oracle/PostgresPivotedQuerySynthesisOracle.java:138-139 | The conjunction is TRUE exactly when both sides are TRUE, and FALSE exactly when either side is FALSE. |
| ThreeValued.Equals | src/sqlancer/postgres/oracle/PostgresPivotedQuerySynthesisOracle.java:147-148 | `=` is UNKNOWN exactly when a side is NULL, and TRUE exactly on the same non-null literal. |
| Containment.EvalConjunct | src/sqlancer/postgres/oracle/PostgresPivotedQuerySynthesisOracle.java:144-149 | `IS NULL` is TRUE exactly on NULL. `=` is TRUE exactly on the same non-null literal. Only a comparison involving NULL is UNKNOWN. |
| Containment.EvalConjunction | src/sqlancer/postgres/oracle/PostgresPivotedQuerySynthesisOracle.java:138-139 | The " AND " chain of the outer WHERE, under SQL's three-valued AND. The empty chain is TRUE. The chain is FALSE exactly when some conjunct is FALSE. |
| Containment.ConjunctionTrueIff | src/sqlancer/postgres/oracle/PostgresPivotedQuerySynthesisOracle.java:138-139 | The " AND " chain is TRUE exactly when every conjunct is TRUE. |
| Containment.ConjunctForTrueIff | src/sqlancer/postgres/oracle/PostgresPivotedQuerySynthesisOracle.java:144-149 | A column's conjunct holds on a result row exactly when that row carries the pivot value in that column. |
| Containment.ContainmentIsExact | src/sqlancer/postgres/oracle/PostgresPivotedQuerySynthesisOracle.java:131-153 | The outer WHERE is TRUE on a row of `result` exactly when that row agrees with the pivot row on every fetch column. |
| Containment.PivotResultRow | src/sqlancer/postgres/oracle/PostgresPivotedQuerySynthesisOracle.java:52-54 | The row the pivot query returns for the pivot row has every column under its alias, with the pivot value. |
| Containment.PivotRowIsContained | src/sqlancer/postgres/oracle/PostgresPivotedQuerySynthesisOracle.java:131-153 | If the aliases are distinct, the pivot row passes the containment filter. |
| Schema.TextRepresentation | src/sqlancer/postgres/oracle/PostgresPivotedQuerySynthesisOracle.java:148 | NULL renders as the keyword `NULL`; a literal renders as its own SQL text. |
| Containment.ResultColumnName | src/sqlancer/postgres/oracle/PostgresPivotedQuerySynthesisOracle.java:142-143 | The name is the table name followed by the column name: it is as long as both, and splits back into them at the table name's length. |
| Containment.Render | src/sqlancer/postgres/oracle/PostgresPivotedQuerySynthesisOracle.java:141-149 | A conjunct's text starts with `result.` and the column it names. After that comes ` IS NULL` for a NULL test, or ` = ` and the literal's text for a comparison. |
| Containment.Header | src/sqlancer/postgres/oracle/PostgresPivotedQuerySynthesisOracle.java:133-135 | The text is `SELECT * FROM (`, then the query unchanged, then `) as result WHERE `, and nothing else. |
| Containment.ContainmentQueryText | src/sqlancer/postgres/oracle/PostgresPivotedQuerySynthesisOracle.java:131-150 | The text starts with the header. With no fetch columns it is the header alone. Otherwise the first conjunct follows the header directly, with no separator. |
| Aliasing.Identifier | src/sqlancer/postgres/oracle/PostgresPivotedQuerySynthesisOracle.java:93-94 | PostgreSQL's identifier for a name is the name itself when it has at most 63 characters, and otherwise exactly its first 63 characters. |
| Aliasing.SameNamedColumnsCanClashAfterTruncation | src/sqlancer/postgres/oracle/PostgresPivotedQuerySynthesisOracle.java:89-95 | Two same-named columns of tables named with 10 and 11 letters get different aliases. Truncated to 63 characters, the aliases become the same identifier. |
| Oracle.AliasesAreDistinct | src/sqlancer/postgres/oracle/PostgresPivotedQuerySynthesisOracle.java:92-97 | Fetch columns whose references are distinct after truncation are declared under pairwise distinct aliases. |
| Oracle.ReturnedRow | src/sqlancer/postgres/oracle/PostgresPivotedQuerySynthesisOracle.java:52-54 | The row the statement returns carries each fetch column's value under the alias that column is declared with. |
| Oracle.BuiltSelectRowIsContained | src/sqlancer/postgres/oracle/PostgresPivotedQuerySynthesisOracle.java:41-150 | End to end, for the statement `PivotSelect` builds: each fetch column is declared as the column name, " AS " and its alias. The row those fetch columns return, keyed by the aliases, passes the containment filter for the same pivot row. |
| Oracle.ExampleWithNullPivotValue | src/sqlancer/postgres/oracle/PostgresPivotedQuerySynthesisOracle.java:131-150 | Worked example: table `T(a, b)` with pivot row `(1, NULL)` and predicate `a > b`, which is UNKNOWN. The predicate becomes `(a > b) IS NULL`, the columns are fetched as `a AS Ta` and `b AS Tb`, and the containment conjuncts are `result.Ta = 1` and `result.Tb IS NULL`. |
| Oracle.ExampleRendering | src/sqlancer/postgres/oracle/PostgresPivotedQuerySynthesisOracle.java:141-149 | The worked example's conjuncts render to `result.Ta = 1` and `result.Tb IS NULL`, and join to `result.Ta = 1 AND result.Tb IS NULL`. |
| Oracle.PivotedQuerySynthesisOracle.constructor | src/sqlancer/postgres/oracle/PostgresPivotedQuerySynthesisOracle.java:34-38 | A new oracle has no fetch columns, an empty pivot row and no rectified predicates. |

## Left out

- Database access. Choosing a non-empty table set and sampling the pivot row
  (`getRandomTableNonEmptyTables`, `getRandomRowValue`) is not modelled. The
  tables, the columns and the pivot row are inputs. The row must have a value
  for every column, as a row sampled from those tables does. The source would
  fail with a null dereference in the containment query otherwise.
- Randomness. `Randomly.getBoolean` and `Randomly.fromOptions` become explicit
  parameters: the select type and the GROUP BY, LIMIT and OFFSET choices.
  Probabilities are not modelled.
- The expression generator (`PostgresExpressionGenerator`). Generating the
  WHERE expression and computing its expected value are not modelled. The
  generated expression and its expected value are an input (`Ast.Generated`).
  The ORDER BY terms are an input too.
- Boolean casting of the expected value. The expected value is modelled as a
  truth value, so `cast(BOOLEAN).asBoolean()` is the identity.
  `PostgresConstant`'s rendering is not modelled: a non-null value carries its
  SQL text (`Schema.TextRepresentation`).
- SQL serialisation. `PostgresToStringVisitor` and
  `PostgresVisitor.asExpectedValues` are not modelled. The pivot query is
  returned as a `Select` value, and the containment builder takes the pivot
  query's unterminated text as a string.
- Plumbing. Error-pattern registration (`PostgresCommon.addCommon*Errors`),
  `QueryAdapter` construction and the base class's execute-and-compare driver
  are left out.
- Oracle.PivotedQuerySynthesisOracle.GetContainedInQuery: before the first
  pivot query is built, the source's fields are `null` and it would throw. In
  the model the fields start empty, and the result is the header alone. With
  no fetch columns at all, the source emits `... WHERE ` with nothing after
  it, which is not valid SQL. `Containment.EvalConjunction` instead treats the
  empty conjunction as TRUE.
- ThreeValued.Equals: `=` is modelled as equality of value and text. Type
  coercions between a literal and a column of another type are not modelled.
- Containment.PivotRowIsContained: it assumes the references to the fetch
  columns are distinct once truncated to 63 characters
  (`Containment.DistinctReferences`), and so does
  `Oracle.BuiltSelectRowIsContained`. `Aliasing.AliasesOfDifferentColumnsCanCoincide` shows that
  arbitrary names can collide. A collision makes PostgreSQL reject the
  reference as ambiguous.
- Aliasing.AliasSeparatesSameNamedColumns: compares the aliases as the
  strings the oracle writes. PostgreSQL also truncates identifiers to 63
  bytes and folds unquoted names to lower case. Case folding is not modelled.
  `Aliasing.SameNamedColumnsCanClashAfterTruncation` shows that truncation can
  merge two aliases that this lemma separates. The containment lemmas
  therefore require the truncated references to be distinct. The model
  counts characters, not bytes.
