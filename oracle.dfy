/**
 * The PostgreSQL pivoted-query-synthesis oracle: it builds a SELECT that
 * must return the pivot row, and the containment query that checks for it.
 */
module Oracle {
  import opened Wrappers
  import opened Schema
  import opened ThreeValued
  import opened Ast
  import opened Rectifier
  import opened Aliasing
  import opened Clauses
  import opened Containment

  /** The FROM list: each table once, in order, without ONLY. */
  function FromList(tables: seq<Table>): (r: seq<FromTable>)
    ensures |r| == |tables|
    ensures forall i :: 0 <= i < |r| ==> r[i].table == tables[i] && !r[i].only
  {
    seq(|tables|, i requires 0 <= i < |tables| => FromTable(tables[i], false))
  }

  /** The SELECT list: every column under its alias, carrying its pivot value. */
  function FetchColumns(columns: seq<Column>, row: RowValue): (r: seq<ColumnValue>)
    requires Covers(row, columns)
    ensures |r| == |columns|
    ensures forall i :: 0 <= i < |columns| ==> r[i] == ColumnValue(AliasedColumn(columns[i]), row[columns[i]])
  {
    seq(|columns|, i requires 0 <= i < |columns| => ColumnValue(AliasedColumn(columns[i]), row[columns[i]]))
  }

  /**
   * The statement the oracle builds from the sampled tables, columns and
   * pivot row, the generated predicate, and the caller's choices of select
   * type, GROUP BY, LIMIT, OFFSET and ORDER BY. Its fetch columns follow the
   * table columns one for one, aliased and bound to the pivot values; its
   * WHERE is the generated expression rectified, TRUE on the pivot row; and
   * its optional clauses take only the forms fixed in `Clauses`.
   */
  function PivotSelect(tables: seq<Table>, columns: seq<Column>, row: RowValue, selectType: SelectType,
                       generated: Expression, groupBy: bool, limit: bool, offset: bool,
                       orderBy: seq<OrderTerm>): (s: Select)
    requires Covers(row, columns)
    ensures |s.fetchColumns| == |columns|
    ensures forall i :: 0 <= i < |columns| ==>
      s.fetchColumns[i].column == AliasedColumn(columns[i]) && s.fetchColumns[i].value == row[columns[i]]
    ensures s.whereClause.Some? && s.whereClause.value.Postfix? && s.whereClause.value.operand == generated
    ensures ExpectedValue(s.whereClause.value) == True
    ensures s.limit.None? || s.limit == Some(IntegerMaxValue)
    ensures s.offset.None? || s.offset == Some(0)
    ensures s.offset.Some? ==> s.limit.Some?
    ensures s.groupBy == [] || (|s.groupBy| == |columns| &&
      forall i :: 0 <= i < |columns| ==> s.groupBy[i] == ColumnValue(columns[i], row[columns[i]]))
    ensures s.selectType == selectType && s.orderBy == orderBy && s.fromList == FromList(tables)
  {
    var limitClause := Limit(limit);
    Select(selectType, FromList(tables), FetchColumns(columns, row), Some(Rectify(generated)),
           GroupByClause(columns, row, groupBy), limitClause,
           if limitClause.Some? then Offset(offset) else None, orderBy)
  }

  /** Every combination of the clause choices is reachable, except an OFFSET without a LIMIT. */
  lemma ClauseChoicesAreExhaustive(tables: seq<Table>, columns: seq<Column>, row: RowValue, selectType: SelectType,
                                   generated: Expression, groupBy: bool, limit: bool, offset: bool,
                                   orderBy: seq<OrderTerm>)
    requires Covers(row, columns)
    ensures var s := PivotSelect(tables, columns, row, selectType, generated, groupBy, limit, offset, orderBy);
      && (s.limit.Some? <==> limit)
      && (s.offset.Some? <==> limit && offset)
      && (|columns| > 0 ==> (s.groupBy != [] <==> groupBy))
  {
  }

  /**
   * The SELECT list and the containment query agree column by column: the
   * alias of the i-th fetch column is the name the i-th conjunct tests, and
   * that conjunct is an `IS NULL` test exactly when the fetched pivot value
   * is NULL, and otherwise compares with that value.
   */
  lemma FetchColumnsMatchContainment(columns: seq<Column>, row: RowValue)
    requires Covers(row, columns)
    ensures var fetch, ks := FetchColumns(columns, row), Conjuncts(columns, row);
      && |fetch| == |ks| == |columns|
      && forall i :: 0 <= i < |columns| ==>
           && fetch[i].column.name == columns[i].name + AS + ks[i].column
           && (ks[i].IsNullTest? <==> fetch[i].value.Null?)
           && (ks[i].EqualsLiteral? ==> ks[i].literal == fetch[i].value)
  {
  }

  /** Fetch columns with distinct references are declared under distinct aliases. */
  lemma AliasesAreDistinct(columns: seq<Column>)
    requires DistinctReferences(columns)
    ensures forall i, j :: 0 <= i < |columns| && 0 <= j < |columns| && i != j ==> AliasOf(columns[i]) != AliasOf(columns[j])
  {
    forall i, j | 0 <= i < |columns| && 0 <= j < |columns| && i != j
      ensures AliasOf(columns[i]) != AliasOf(columns[j])
    {
      ReferenceIsAlias(columns[i]);
      ReferenceIsAlias(columns[j]);
    }
  }

  /**
   * The row the built statement returns for the pivot row: each fetch
   * column's value under the alias it is declared with.
   */
  function ReturnedRow(columns: seq<Column>, fetch: seq<ColumnValue>): (rr: ResultRow)
    requires |fetch| == |columns| && DistinctReferences(columns)
    ensures forall i :: 0 <= i < |columns| ==> AliasOf(columns[i]) in rr && rr[AliasOf(columns[i])] == fetch[i].value
  {
    AliasesAreDistinct(columns);
    map i | 0 <= i < |columns| :: AliasOf(columns[i]) := fetch[i].value
  }

  /**
   * End to end: the row that the built statement's SELECT list produces for
   * the pivot row, under the declared aliases, passes the containment filter
   * built from the same fetch columns and pivot row.
   */
  lemma BuiltSelectRowIsContained(tables: seq<Table>, columns: seq<Column>, row: RowValue, selectType: SelectType,
                                  generated: Expression, groupBy: bool, limit: bool, offset: bool,
                                  orderBy: seq<OrderTerm>)
    requires Covers(row, columns) && DistinctReferences(columns)
    ensures var s := PivotSelect(tables, columns, row, selectType, generated, groupBy, limit, offset, orderBy);
      var rr := ReturnedRow(columns, s.fetchColumns);
      && (forall i :: 0 <= i < |columns| ==> s.fetchColumns[i].column.name == columns[i].name + AS + AliasOf(columns[i]))
      && Provides(rr, Conjuncts(columns, row))
      && EvalConjunction(Conjuncts(columns, row), rr) == True
  {
    var s := PivotSelect(tables, columns, row, selectType, generated, groupBy, limit, offset, orderBy);
    var rr := ReturnedRow(columns, s.fetchColumns);
    forall c | c in columns ensures ResultColumnName(c) in rr && rr[ResultColumnName(c)] == row[c] {
      var i :| 0 <= i < |columns| && columns[i] == c;
      ReferenceIsAlias(c);
    }
    ContainmentIsExact(columns, row, rr);
  }

  /**
   * The worked example of a table `T(a INT, b INT)` with pivot row
   * `(1, NULL)` and generated predicate `a > b`, whose value is UNKNOWN:
   * the predicate becomes `(a > b) IS NULL`, the columns are fetched as
   * `a AS Ta` and `b AS Tb`, and the containment test is
   * `result.Ta = 1 AND result.Tb IS NULL`.
   */
  lemma ExampleWithNullPivotValue(query: string)
    ensures var t := Table("T");
      var a, b := Column("a", Int, t), Column("b", Int, t);
      var row := map[a := Literal(Int, "1"), b := Null];
      && Rectify(Generated("(a > b)", Unknown)) == Postfix(Generated("(a > b)", Unknown), IsNull)
      && FetchColumns([a, b], row)[0].column.name == "a AS Ta"
      && FetchColumns([a, b], row)[1].column.name == "b AS Tb"
      && ContainmentQueryText(query, [a, b], row) == Header(query) + JoinAnd(ExampleConjunctTexts())
  {
    var t := Table("T");
    var a, b := Column("a", Int, t), Column("b", Int, t);
    var row := map[a := Literal(Int, "1"), b := Null];
    assert a != b;
    assert ConjunctFor(a, row) == EqualsLiteral("Ta", Literal(Int, "1"));
    assert ConjunctFor(b, row) == IsNullTest("Tb");
    ExampleRendering();
    assert RenderedConjuncts([a, b], row) == ExampleConjunctTexts();
    assert AliasedColumn(a).name == "a AS Ta";
    assert AliasedColumn(b).name == "b AS Tb";
  }

  /** The two conjuncts of the worked example, as text. */
  function ExampleConjunctTexts(): seq<string>
  {
    ["result.Ta = 1", "result.Tb IS NULL"]
  }

  /** How the worked example's conjuncts render and join. */
  lemma ExampleRendering()
    ensures Render(EqualsLiteral("Ta", Literal(Int, "1"))) == ExampleConjunctTexts()[0]
    ensures Render(IsNullTest("Tb")) == ExampleConjunctTexts()[1]
    ensures JoinAnd(ExampleConjunctTexts()) == "result.Ta = 1 AND result.Tb IS NULL"
  {
  }

  /**
   * The oracle's state between building the pivot query and checking it:
   * the columns fetched, the pivot row, and every predicate rectified so far
   * (kept for bug reports).
   */
  class PivotedQuerySynthesisOracle {
    var fetchColumns: seq<Column>
    var pivotRow: RowValue
    var rectifiedPredicates: seq<Expression>

    /** The pivot row has a value for every fetch column. */
    predicate Valid()
      reads this
    {
      Covers(pivotRow, fetchColumns)
    }

    constructor ()
      ensures Valid()
      ensures fetchColumns == [] && pivotRow == map[] && rectifiedPredicates == []
    {
      fetchColumns := [];
      pivotRow := map[];
      rectifiedPredicates := [];
    }

    /**
     * Rectifies the expression the generator produced for the pivot row and
     * records the result.
     */
    method GenerateTrueCondition(generated: Expression) returns (result: Expression)
      modifies this`rectifiedPredicates
      ensures result == Rectify(generated)
      ensures rectifiedPredicates == old(rectifiedPredicates) + [result]
    {
      result := Rectify(generated);
      rectifiedPredicates := rectifiedPredicates + [result];
    }

    /**
     * Builds the pivot query over the sampled tables and pivot row, and
     * remembers the fetch columns and the pivot row for the containment query.
     */
    method GetQueryThatContainsAtLeastOneRow(tables: seq<Table>, columns: seq<Column>, row: RowValue,
                                             selectType: SelectType, generated: Expression,
                                             groupBy: bool, limit: bool, offset: bool,
                                             orderBy: seq<OrderTerm>)
      returns (select: Select)
      requires Covers(row, columns)
      modifies this
      ensures Valid()
      ensures pivotRow == row && fetchColumns == columns
      ensures rectifiedPredicates == old(rectifiedPredicates) + [Rectify(generated)]
      ensures select == PivotSelect(tables, columns, row, selectType, generated, groupBy, limit, offset, orderBy)
    {
      select := EmptySelect;
      select := select.(selectType := selectType);
      pivotRow := row;
      fetchColumns := columns;
      select := select.(fromList := FromList(tables));
      select := select.(fetchColumns := FetchColumns(fetchColumns, pivotRow));
      var whereClause := GenerateTrueCondition(generated);
      select := select.(whereClause := Some(whereClause));
      select := select.(groupBy := GroupByClause(columns, pivotRow, groupBy));
      var limitClause := Limit(limit);
      select := select.(limit := limitClause);
      if limitClause.Some? {
        select := select.(offset := Offset(offset));
      }
      select := select.(orderBy := orderBy);
    }

    /**
     * The containment query over the text of the pivot query: the header,
     * then one conjunct per fetch column, with " AND " between them.
     */
    method GetContainedInQuery(query: string) returns (text: string)
      requires Valid()
      ensures text == ContainmentQueryText(query, fetchColumns, pivotRow)
    {
      ghost var parts := RenderedConjuncts(fetchColumns, pivotRow);
      text := "SELECT * FROM (";
      text := text + query;
      text := text + ") as result WHERE ";
      assert text == Header(query) + JoinAnd(parts[..0]);
      var i := 0;
      while i < |fetchColumns|
        invariant 0 <= i <= |fetchColumns|
        invariant text == Header(query) + JoinAnd(parts[..i])
      {
        var c := fetchColumns[i];
        assert c in fetchColumns;
        AppendPart(Header(query), parts, i);
        if i != 0 {
          text := text + " AND ";
        }
        AppendConjunct(text, c, pivotRow);
        text := text + "result.";
        text := text + c.table.name;
        text := text + c.name;
        if pivotRow[c].Null? {
          text := text + " IS NULL";
        } else {
          text := text + " = ";
          text := text + TextRepresentation(pivotRow[c]);
        }
        i := i + 1;
      }
      assert parts[..i] == parts;
    }
  }
}
