/**
 * Aliasing of fetch columns: each fetched column is renamed to its table's
 * name followed by its own, so that same-named columns of joined tables do
 * not clash in the result.
 */
module Aliasing {
  import opened Schema

  /** The keyword that separates a column from its alias in a SELECT list. */
  const AS := " AS "

  /** The column as it appears in the SELECT list: `name AS <table><name>`. */
  function AliasedColumn(c: Column): (a: Column)
    ensures a.name == c.name + AS + c.table.name + c.name
    ensures a.typ == c.typ && a.table == c.table
  {
    Column(c.name + AS + c.table.name + c.name, c.typ, c.table)
  }

  /** The name under which an aliased column is visible to an enclosing query. */
  function AliasOf(c: Column): (alias: string)
    ensures AliasedColumn(c).name == c.name + AS + alias
    ensures |alias| == |c.table.name| + |c.name|
  {
    AliasedColumn(c).name[|c.name| + |AS|..]
  }

  /** Columns of the same name in two differently named tables get different aliases. */
  lemma {:induction false} AliasSeparatesSameNamedColumns(c1: Column, c2: Column)
    requires c1.name == c2.name && c1.table.name != c2.table.name
    ensures AliasOf(c1) != AliasOf(c2)
  {
    var k := |c1.table.name|;
    assert c1.table.name == AliasOf(c1)[..k];
    if |c2.table.name| == k {
      assert c2.table.name == AliasOf(c2)[..k];
    }
  }

  /**
   * Concatenating without a separator is not injective: these two columns of
   * different tables, with different names, get the same alias.
   */
  lemma AliasesOfDifferentColumnsCanCoincide()
    ensures Column("bc", Int, Table("ta")) != Column("c", Int, Table("tab"))
    ensures AliasOf(Column("bc", Int, Table("ta"))) == AliasOf(Column("c", Int, Table("tab")))
  {
  }

  /** PostgreSQL keeps only the first 63 bytes of an identifier (NAMEDATALEN - 1). */
  const MaxIdentifierLength := 63

  /** The identifier PostgreSQL actually uses for a name: its first 63 characters. */
  function Identifier(name: string): (id: string)
    ensures |id| <= MaxIdentifierLength
    ensures id <= name
    ensures |name| <= MaxIdentifierLength ==> id == name
    ensures |name| > MaxIdentifierLength ==> id == name[..MaxIdentifierLength]
  {
    if |name| <= MaxIdentifierLength then name else name[..MaxIdentifierLength]
  }

  /**
   * Truncation defeats the aliasing: two 60-character columns of the same
   * name in the tables of 10 and 11 letters get different aliases, which
   * PostgreSQL truncates to the same identifier.
   */
  lemma SameNamedColumnsCanClashAfterTruncation()
    ensures var name := seq(60, _ => 'a');
      var c1, c2 := Column(name, Int, Table(seq(10, _ => 'a'))), Column(name, Int, Table(seq(11, _ => 'a')));
      && AliasOf(c1) != AliasOf(c2)
      && Identifier(AliasOf(c1)) == Identifier(AliasOf(c2))
  {
  }
}
