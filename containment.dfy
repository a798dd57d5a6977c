/**
 * The containment query: the pivot query is nested as a subquery named
 * `result`, and an outer WHERE re-asserts, column by column, that the pivot
 * row's values are present, with `IS NULL` for NULL values and `=` against
 * the literal otherwise.
 */
module Containment {
  import opened Schema
  import opened ThreeValued
  import Aliasing

  /** How the outer query names a fetched column of the subquery: table name then column name. */
  function ResultColumnName(c: Column): (r: string)
    ensures |r| == |c.table.name| + |c.name|
    ensures r[..|c.table.name|] == c.table.name && r[|c.table.name|..] == c.name
  {
    c.table.name + c.name
  }

  /** One conjunct of the outer WHERE, naming a column of `result`. */
  datatype Conjunct =
    | IsNullTest(column: string)
    | EqualsLiteral(column: string, literal: Value)

  /** The conjunct that checks one column against the pivot row. */
  function ConjunctFor(c: Column, row: RowValue): (k: Conjunct)
    requires c in row
    ensures k.column == ResultColumnName(c)
    ensures k.IsNullTest? <==> row[c].Null?
    ensures k.EqualsLiteral? ==> k.literal == row[c]
  {
    if row[c].Null? then IsNullTest(ResultColumnName(c))
    else EqualsLiteral(ResultColumnName(c), row[c])
  }

  /** The conjuncts for all fetch columns, in their order. */
  function Conjuncts(columns: seq<Column>, row: RowValue): (ks: seq<Conjunct>)
    requires Covers(row, columns)
    ensures |ks| == |columns|
    ensures forall i :: 0 <= i < |columns| ==> ks[i] == ConjunctFor(columns[i], row)
  {
    seq(|columns|, i requires 0 <= i < |columns| => ConjunctFor(columns[i], row))
  }

  /** The SQL text of a conjunct: `result.<column>`, then the test. */
  function Render(k: Conjunct): (r: string)
    ensures "result." + k.column <= r
    ensures k.IsNullTest? ==> r[|"result." + k.column|..] == " IS NULL"
    ensures k.EqualsLiteral? ==> r[|"result." + k.column|..] == " = " + TextRepresentation(k.literal)
  {
    match k
    case IsNullTest(column) => "result." + column + " IS NULL"
    case EqualsLiteral(column, literal) => "result." + column + " = " + TextRepresentation(literal)
  }

  const Separator := " AND "

  /** The summed length of some strings. */
  function TotalLength(parts: seq<string>): nat
  {
    if parts == [] then 0 else |parts[0]| + TotalLength(parts[1..])
  }

  /** The strings joined by `Separator`, with no separator before the first or after the last. */
  function JoinAnd(parts: seq<string>): (r: string)
    ensures parts == [] ==> r == ""
    ensures parts != [] ==> parts[0] <= r
    ensures parts != [] ==> |r| == TotalLength(parts) + |Separator| * (|parts| - 1)
  {
    if parts == [] then ""
    else if |parts| == 1 then parts[0]
    else parts[0] + Separator + JoinAnd(parts[1..])
  }

  /** Appending one more part adds a separator exactly when something came before. */
  lemma {:induction false} JoinAndSnoc(parts: seq<string>, p: string)
    ensures JoinAnd(parts + [p]) == if parts == [] then p else JoinAnd(parts) + Separator + p
  {
    if |parts| > 1 {
      assert (parts + [p])[1..] == parts[1..] + [p];
      JoinAndSnoc(parts[1..], p);
    } else if |parts| == 1 {
      assert (parts + [p])[1..] == [p];
    }
  }

  /** The text before the conjuncts: the query nested as the subquery `result`. */
  function Header(query: string): (r: string)
    ensures |r| == |query| + 33
    ensures r[..15] == "SELECT * FROM ("
    ensures r[15..15 + |query|] == query
    ensures r[15 + |query|..] == ") as result WHERE "
  {
    "SELECT * FROM (" + query + ") as result WHERE "
  }

  /** The rendered conjuncts, in fetch-column order. */
  function RenderedConjuncts(columns: seq<Column>, row: RowValue): (parts: seq<string>)
    requires Covers(row, columns)
    ensures |parts| == |columns|
    ensures forall i :: 0 <= i < |columns| ==> parts[i] == Render(ConjunctFor(columns[i], row))
  {
    seq(|columns|, i requires 0 <= i < |columns| => Render(ConjunctFor(columns[i], row)))
  }

  /** The full text of the containment query over `query` for the given pivot row. */
  function ContainmentQueryText(query: string, columns: seq<Column>, row: RowValue): (r: string)
    requires Covers(row, columns)
    ensures Header(query) <= r
    ensures columns == [] ==> r == Header(query)
    // the first conjunct follows the header directly, with no separator before it
    ensures columns != [] ==> Header(query) + Render(ConjunctFor(columns[0], row)) <= r
  {
    Header(query) + JoinAnd(RenderedConjuncts(columns, row))
  }

  /**
   * Appending, piece by piece, "result.", the table name, the column name and
   * then either " IS NULL" or " = " and the literal appends the rendered
   * conjunct for that column.
   */
  lemma AppendConjunct(before: string, c: Column, row: RowValue)
    requires c in row
    ensures row[c].Null? ==>
      before + "result." + c.table.name + c.name + " IS NULL" == before + Render(ConjunctFor(c, row))
    ensures !row[c].Null? ==>
      before + "result." + c.table.name + c.name + " = " + TextRepresentation(row[c])
        == before + Render(ConjunctFor(c, row))
  {
  }

  /**
   * Appending the next part to the joined prefix, after a separator unless
   * it is the first, gives the join of one more part.
   */
  lemma AppendPart(header: string, parts: seq<string>, i: nat)
    requires i < |parts|
    ensures i == 0 ==> header + JoinAnd(parts[..i]) + parts[i] == header + JoinAnd(parts[..i + 1])
    ensures i != 0 ==> header + JoinAnd(parts[..i]) + Separator + parts[i] == header + JoinAnd(parts[..i + 1])
  {
    assert parts[..i + 1] == parts[..i] + [parts[i]];
    JoinAndSnoc(parts[..i], parts[i]);
  }

  /**
   * The outer query refers to each column by exactly the alias the pivot
   * query gave it, so the two sides agree for every column.
   */
  lemma ReferenceIsAlias(c: Column)
    ensures Aliasing.AliasOf(c) == ResultColumnName(c)
    ensures Aliasing.AliasedColumn(c).name == c.name + Aliasing.AS + ResultColumnName(c)
  {
  }

  /** One row of the subquery's result, by column name. */
  type ResultRow = map<string, Value>

  /** The row has every column a conjunct names. */
  predicate Provides(rr: ResultRow, ks: seq<Conjunct>)
  {
    forall k :: k in ks ==> k.column in rr
  }

  /** The truth value of a conjunct on a result row. */
  function EvalConjunct(k: Conjunct, rr: ResultRow): (t: Truth)
    requires k.column in rr
    // `IS NULL` is TRUE exactly on NULL; `=` is TRUE exactly on the same non-null literal
    ensures t == True <==> if k.IsNullTest? then rr[k.column].Null? else k.literal.Literal? && rr[k.column] == k.literal
    // only a comparison involving NULL is UNKNOWN
    ensures t == Unknown <==> k.EqualsLiteral? && (rr[k.column].Null? || k.literal.Null?)
  {
    match k
    case IsNullTest(column) => if rr[column].Null? then True else False
    case EqualsLiteral(column, literal) => Equals(rr[column], literal)
  }

  /** The truth value of the conjunction; an empty conjunction is TRUE. */
  function EvalConjunction(ks: seq<Conjunct>, rr: ResultRow): (t: Truth)
    requires Provides(rr, ks)
    ensures ks == [] ==> t == True
    // FALSE as soon as one conjunct is FALSE, whatever the others are
    ensures t == False <==> exists i :: 0 <= i < |ks| && EvalConjunct(ks[i], rr) == False
  {
    if ks == [] then True else And(EvalConjunct(ks[0], rr), EvalConjunction(ks[1..], rr))
  }

  /** A conjunction is TRUE exactly when every conjunct is. */
  lemma {:induction false} ConjunctionTrueIff(ks: seq<Conjunct>, rr: ResultRow)
    requires Provides(rr, ks)
    ensures EvalConjunction(ks, rr) == True <==> forall i :: 0 <= i < |ks| ==> EvalConjunct(ks[i], rr) == True
  {
    if ks != [] {
      ConjunctionTrueIff(ks[1..], rr);
      assert forall i :: 1 <= i < |ks| ==> ks[i] == ks[1..][i - 1];
    }
  }

  /** The conjunct for a column holds on a result row exactly when the row carries the pivot value. */
  lemma ConjunctForTrueIff(c: Column, row: RowValue, rr: ResultRow)
    requires c in row && ResultColumnName(c) in rr
    ensures EvalConjunct(ConjunctFor(c, row), rr) == True <==> rr[ResultColumnName(c)] == row[c]
  {
  }

  /**
   * The outer WHERE is TRUE on a row of the subquery exactly when that row
   * agrees with the pivot row on every fetch column.
   */
  lemma ContainmentIsExact(columns: seq<Column>, row: RowValue, rr: ResultRow)
    requires Covers(row, columns)
    requires forall c :: c in columns ==> ResultColumnName(c) in rr
    ensures Provides(rr, Conjuncts(columns, row))
    ensures EvalConjunction(Conjuncts(columns, row), rr) == True
        <==> forall c :: c in columns ==> rr[ResultColumnName(c)] == row[c]
  {
    var ks := Conjuncts(columns, row);
    assert Provides(rr, ks) by {
      forall k | k in ks ensures k.column in rr {
        var i :| 0 <= i < |ks| && ks[i] == k;
        assert columns[i] in columns;
      }
    }
    ConjunctionTrueIff(ks, rr);
    forall i | 0 <= i < |columns|
      ensures EvalConjunct(ks[i], rr) == True <==> rr[ResultColumnName(columns[i])] == row[columns[i]]
    {
      assert columns[i] in columns;
      ConjunctForTrueIff(columns[i], row, rr);
    }
    if forall c :: c in columns ==> rr[ResultColumnName(c)] == row[c] {
      assert forall i :: 0 <= i < |ks| ==> EvalConjunct(ks[i], rr) == True;
    }
    if EvalConjunction(ks, rr) == True {
      forall c | c in columns ensures rr[ResultColumnName(c)] == row[c] {
        var i :| 0 <= i < |columns| && columns[i] == c;
      }
    }
  }

  /**
   * No two fetch columns are referred to by the same identifier, once
   * PostgreSQL has truncated the names to 63 characters.
   */
  predicate DistinctReferences(columns: seq<Column>)
  {
    forall i, j :: 0 <= i < j < |columns| ==>
      Aliasing.Identifier(ResultColumnName(columns[i])) != Aliasing.Identifier(ResultColumnName(columns[j]))
  }

  /** The result row a correct engine produces for the pivot row, named by the aliases. */
  function PivotResultRow(columns: seq<Column>, row: RowValue): (rr: ResultRow)
    requires Covers(row, columns) && DistinctReferences(columns)
    ensures forall c :: c in columns ==> ResultColumnName(c) in rr && rr[ResultColumnName(c)] == row[c]
  {
    map i | 0 <= i < |columns| :: ResultColumnName(columns[i]) := row[columns[i]]
  }

  /**
   * The pivot row itself passes the containment filter: if the pivot query
   * returns it, the containment query returns it too.
   */
  lemma PivotRowIsContained(columns: seq<Column>, row: RowValue)
    requires Covers(row, columns) && DistinctReferences(columns)
    ensures Provides(PivotResultRow(columns, row), Conjuncts(columns, row))
    ensures EvalConjunction(Conjuncts(columns, row), PivotResultRow(columns, row)) == True
  {
    ContainmentIsExact(columns, row, PivotResultRow(columns, row));
  }
}
