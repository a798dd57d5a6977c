/** The usual optional-value wrapper. */
module Wrappers {
  datatype Option<+T> = None | Some(value: T)
}

/**
 * Schema entities of the PostgreSQL back end as the oracle sees them:
 * tables, typed columns, literal values (with NULL) and the pivot row.
 */
module Schema {

  /** The column types of the PostgreSQL back end. */
  datatype DataType = Int | Boolean | Text | Decimal | Float | Real | Range | Money | Bit | Inet

  datatype Table = Table(name: string)

  /** A column knows its name, its declared type and the table it belongs to. */
  datatype Column = Column(name: string, typ: DataType, table: Table)

  /**
   * A constant: NULL, or a typed literal. A literal is represented by the SQL
   * text that renders it; how each type renders itself is not modelled.
   */
  datatype Value = Null | Literal(typ: DataType, text: string)

  /** The SQL text of a constant; NULL renders as the keyword. */
  function TextRepresentation(v: Value): (r: string)
    ensures v.Null? ==> r == "NULL"
    ensures v.Literal? ==> r == v.text
  {
    match v
    case Null => "NULL"
    case Literal(_, text) => text
  }

  /** A row sampled from the database: one value per column. */
  type RowValue = map<Column, Value>

  /** The row has an entry for every one of the given columns. */
  predicate Covers(row: RowValue, columns: seq<Column>)
  {
    forall c :: c in columns ==> c in row
  }
}

/**
 * SQL's three-valued logic (truth values TRUE, FALSE and UNKNOWN), the
 * comparison `=` with NULL absorbing, and the postfix boolean tests used by
 * the rectifier.
 */
module ThreeValued {
  import opened Schema

  datatype Truth = True | False | Unknown

  /** Conjunction under three-valued logic (ISO/IEC 9075, SQL-92 section 8.12, Table 1). */
  function And(a: Truth, b: Truth): (r: Truth)
    ensures r == True <==> a == True && b == True
    ensures r == False <==> a == False || b == False
  {
    if a.False? || b.False? then False
    else if a.Unknown? || b.Unknown? then Unknown
    else True
  }

  /** `a = b`: UNKNOWN when either side is NULL, otherwise whether the literals agree. */
  function Equals(a: Value, b: Value): (r: Truth)
    ensures r == Unknown <==> a.Null? || b.Null?
    ensures r == True <==> a.Literal? && a == b
  {
    if a.Null? || b.Null? then Unknown
    else if a == b then True
    else False
  }

  /** The postfix operators the rectifier chooses among. */
  datatype PostfixOperator = IsNull | IsTrue | IsFalse

  /**
   * The postfix tests on a boolean operand: `IS NULL` (SQL-92 section 8.6,
   * where a boolean NULL is the truth value UNKNOWN) and `IS TRUE` /
   * `IS FALSE` (SQL-92 section 8.12, Table 3).
   */
  function ApplyPostfix(op: PostfixOperator, v: Truth): (r: Truth)
    // a boolean test never yields UNKNOWN, not even on a NULL operand
    ensures r != Unknown
    // it yields TRUE on exactly one of the three truth values
    ensures r == True <==> v == TestedValue(op)
  {
    match op
    case IsNull => (match v case Unknown => True case True => False case False => False)
    case IsTrue => (match v case True => True case False => False case Unknown => False)
    case IsFalse => (match v case False => True case True => False case Unknown => False)
  }

  /** The truth value each test asks about. */
  function TestedValue(op: PostfixOperator): Truth
  {
    match op
    case IsNull => Unknown
    case IsTrue => True
    case IsFalse => False
  }
}
