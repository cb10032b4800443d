/**
 * `category_filters`: an ordered mapping from table name to the category values to keep. The
 * presence of a table, even with an empty list, is what asks for the table to be loaded.
 */
module CategoryFilters {

  datatype CategoryFilter = CategoryFilter(table: string, categories: seq<string>)

  /** A Python dict in insertion order; lookups see the first entry for a key. */
  type Filters = seq<CategoryFilter>

  /** `list(category_filters.keys())`: the tables to load, in order. */
  function Tables(f: Filters): (r: seq<string>)
    ensures |r| == |f|
    ensures forall i :: 0 <= i < |f| ==> r[i] == f[i].table
  {
    if f == [] then [] else [f[0].table] + Tables(f[1..])
  }

  /** `table in category_filters`. */
  predicate HasTable(f: Filters, table: string) {
    table in Tables(f)
  }

  /**
   * `category_filters[table]`, or the empty list when the table is absent. A dict has one
   * entry per key; the sequence could repeat a table, and then the first entry is the one read.
   */
  function CategoriesOf(f: Filters, table: string): (r: seq<string>)
    ensures !HasTable(f, table) ==> r == []
    ensures HasTable(f, table) ==> exists i :: 0 <= i < |f| && f[i].table == table && r == f[i].categories &&
                                     forall j :: 0 <= j < i ==> f[j].table != table
  {
    if f == [] then []
    else if f[0].table == table then f[0].categories
    else
      assert forall t :: t in Tables(f) <==> t == f[0].table || t in Tables(f[1..]);
      var r := CategoriesOf(f[1..], table);
      if HasTable(f[1..], table) then FoundInTail(f, table, r); r else r
  }

  /** The first entry of the dict's tail for a table is its first entry in the dict. */
  lemma FoundInTail(f: Filters, table: string, r: seq<string>)
    requires f != [] && f[0].table != table
    requires exists i :: 0 <= i < |f[1..]| && f[1..][i].table == table && r == f[1..][i].categories &&
                         forall j :: 0 <= j < i ==> f[1..][j].table != table
    ensures exists i :: 0 <= i < |f| && f[i].table == table && r == f[i].categories &&
                        forall j :: 0 <= j < i ==> f[j].table != table
  {
    var i :| 0 <= i < |f[1..]| && f[1..][i].table == table && r == f[1..][i].categories &&
             forall j :: 0 <= j < i ==> f[1..][j].table != table;
    assert f[i + 1] == f[1..][i];
    forall j | 0 <= j < i + 1 ensures f[j].table != table {
      if j > 0 {
        assert f[j] == f[1..][j - 1];
      }
    }
  }
}
