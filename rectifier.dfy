/**
 * The predicate rectifier: it turns a generated boolean expression into a
 * predicate that holds on the pivot row, whatever the expression means.
 */
module Rectifier {
  import opened ThreeValued
  import opened Ast

  /**
   * The test to wrap an expression in, given its expected value: `IS NULL`
   * for a NULL (UNKNOWN) value, otherwise `IS TRUE` or `IS FALSE` according
   * to the boolean value.
   */
  function RectifyingOperator(expected: Truth): (op: PostfixOperator)
    ensures op == IsNull <==> expected == Unknown
    ensures op == IsTrue <==> expected == True
    ensures op == IsFalse <==> expected == False
  {
    if expected.Unknown? then IsNull
    else if expected.True? then IsTrue
    else IsFalse
  }

  /** The rectified predicate: the expression itself, wrapped in the chosen test. */
  function Rectify(e: Expression): (r: Expression)
    ensures r.Postfix? && r.operand == e
    ensures r.op == RectifyingOperator(ExpectedValue(e))
    // true by construction on the pivot row
    ensures ExpectedValue(r) == True
  {
    Postfix(e, RectifyingOperator(ExpectedValue(e)))
  }

  /**
   * The chosen test is the only one of the three that holds: any other
   * choice would make the predicate FALSE on the pivot row.
   */
  lemma RectifyingOperatorIsUnique(v: Truth, op: PostfixOperator)
    ensures ApplyPostfix(op, v) == True <==> op == RectifyingOperator(v)
  {
  }
}
