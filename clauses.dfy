/**
 * The optional clauses added to the pivot query, in the only forms the
 * oracle uses: GROUP BY over every fetch column, LIMIT the largest 32-bit
 * integer, OFFSET zero. The forms are meant to keep the pivot row in the
 * result; the model fixes the forms and does not evaluate the clauses.
 * Whether each is added is a choice made by the caller.
 */
module Clauses {
  import opened Wrappers
  import opened Schema
  import opened Ast

  /** Java's Integer.MAX_VALUE. */
  const IntegerMaxValue: int := 0x7fff_ffff

  /** When chosen, one GROUP BY entry per column, in order, each bound to the pivot value. */
  function GroupByClause(columns: seq<Column>, row: RowValue, chosen: bool): (r: seq<ColumnValue>)
    requires Covers(row, columns)
    ensures chosen ==> |r| == |columns|
    ensures chosen ==> forall i :: 0 <= i < |r| ==> r[i].column == columns[i] && r[i].value == row[columns[i]]
    ensures !chosen ==> r == []
  {
    if chosen then seq(|columns|, i requires 0 <= i < |columns| => ColumnValue(columns[i], row[columns[i]]))
    else []
  }

  /** The LIMIT clause: the largest 32-bit integer, or absent. */
  function Limit(chosen: bool): (r: Option<int>)
    ensures r.Some? <==> chosen
    ensures r.Some? ==> r.value == 2147483647  // 2^31 - 1
  {
    if chosen then Some(IntegerMaxValue) else None
  }

  /** The OFFSET clause: zero, or absent. */
  function Offset(chosen: bool): (r: Option<int>)
    ensures r.Some? <==> chosen
    ensures r.Some? ==> r.value == 0
  {
    if chosen then Some(0) else None
  }
}
