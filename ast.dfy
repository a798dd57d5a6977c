/**
 * The fragment of the PostgreSQL abstract syntax the oracle builds: boolean
 * expressions with the expected value attached by the generator, column
 * values, FROM entries and the SELECT statement itself.
 */
module Ast {
  import opened Wrappers
  import opened Schema
  import opened ThreeValued

  /**
   * A boolean expression. `Generated` stands for an arbitrary tree produced by
   * the expression generator, of which only its SQL text and the expected
   * value the generator computed for the pivot row are visible; `Postfix`
   * wraps an operand in one of the boolean tests.
   */
  datatype Expression =
    | Generated(sql: string, expected: Truth)
    | Postfix(operand: Expression, op: PostfixOperator)

  /**
   * The value an expression takes on the pivot row, computed bottom-up: a
   * generated expression has the value the generator computed, and a test
   * is evaluated on its operand's value.
   */
  function ExpectedValue(e: Expression): (v: Truth)
    ensures e.Generated? ==> v == e.expected
    // a boolean test is never UNKNOWN, and TRUE exactly when its operand has the tested value
    ensures e.Postfix? ==> v != Unknown
    ensures e.Postfix? ==> (v == True <==> ExpectedValue(e.operand) == TestedValue(e.op))
  {
    match e
    case Generated(_, expected) => expected
    case Postfix(operand, op) => ApplyPostfix(op, ExpectedValue(operand))
  }

  /** A column reference in a SELECT list or GROUP BY, bound to a pivot value. */
  datatype ColumnValue = ColumnValue(column: Column, value: Value)

  /** An entry of the FROM list; `only` renders as `ONLY`. */
  datatype FromTable = FromTable(table: Table, only: bool)

  datatype SelectType = Distinct | All

  /** An ORDER BY term produced by the expression generator; only its text is visible. */
  datatype OrderTerm = OrderTerm(sql: string)

  datatype Select = Select(
    selectType: SelectType,
    fromList: seq<FromTable>,
    fetchColumns: seq<ColumnValue>,
    whereClause: Option<Expression>,
    groupBy: seq<ColumnValue>,
    limit: Option<int>,
    offset: Option<int>,
    orderBy: seq<OrderTerm>)

  /** A freshly constructed statement: every clause empty or absent. */
  const EmptySelect := Select(All, [], [], None, [], None, None, [])
}
