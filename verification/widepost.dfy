/**
 * The post-processing of `_create_wide_dataset`: sorting, day numbering, the day key, the
 * all-NULL columns of `_add_missing_columns`, and the final drop of `combo_id` and `date`.
 */
module WidePost {
  import opened Wrappers
  import opened Relational
  import opened Ordering
  import opened DayNumbers
  import opened CategoryFilters

  /** `sort_values(['hospitalization_id', 'event_time']).reset_index(drop=True)`. */
  function SortRows(rows: seq<Row>): (r: seq<Row>)
    ensures |r| == |rows| && multiset(r) == multiset(rows)
    ensures forall i, j :: 0 <= i < j < |r| ==> KeyLe(SortKey(r[i]), SortKey(r[j]))
  {
    SortBy(rows, SortKey)
  }

  /** The rows' (id, date) pairs, or None when some row lacks an id or a timestamp event time. */
  function DatedRows(rows: seq<Row>): (r: Option<seq<Dated>>)
    ensures r.Some? <==> forall i :: 0 <= i < |rows| ==> DatedOf(rows[i]).Some?
    ensures r.Some? ==> |r.value| == |rows| && forall i :: 0 <= i < |rows| ==> DatedOf(rows[i]) == Some(r.value[i])
  {
    if forall i :: 0 <= i < |rows| ==> DatedOf(rows[i]).Some? then
      Some(seq(|rows|, i requires 0 <= i < |rows| => DatedOf(rows[i]).value))
    else None
  }

  /** One sorted row with its day number and day key. */
  function Numbered(r: Row, d: Dated, n: nat): Row {
    r["day_number" := Some(Num(n))]["hosp_id_day_key" := Some(Str(DayKey(d.id, n)))]
  }

  /** `df[name] = ...` for a column: appended unless already present. */
  function WithColumn(columns: seq<string>, name: string): seq<string> {
    if name in columns then columns else columns + [name]
  }

  /** Sorting neither adds nor removes a row that lacks an id or an event time. */
  lemma SortKeepsDated(rows: seq<Row>)
    ensures (forall i :: 0 <= i < |rows| ==> DatedOf(rows[i]).Some?) <==>
            (forall i :: 0 <= i < |SortRows(rows)| ==> DatedOf(SortRows(rows)[i]).Some?)
  {
    var sorted := SortRows(rows);
    forall i | 0 <= i < |sorted| ensures sorted[i] in rows {
      assert sorted[i] in multiset(rows);
    }
    forall i | 0 <= i < |rows| ensures rows[i] in sorted {
      assert rows[i] in multiset(sorted);
    }
  }

  /**
   * The day columns: the rows sorted, then `day_number` as the dense rank of the date within
   * the encounter and `hosp_id_day_key` from it. A row without an id or an event time leaves
   * its rank NaN, and the cast to int raises.
   */
  function AddDayColumns(t: Table): (r: Result<Table>)
    ensures r.Ok? <==> forall i :: 0 <= i < |t.rows| ==> DatedOf(t.rows[i]).Some?
    ensures r.Ok? ==> |r.value.rows| == |t.rows|
  {
    var sorted := SortRows(t.rows);
    SortKeepsDated(t.rows);
    match DatedRows(sorted)
    case None => Err(ValueError("cannot convert non-finite values to integer"))
    case Some(es) =>
      var columns := WithColumn(WithColumn(t.columns, "day_number"), "hosp_id_day_key");
      Ok(Table(columns, NumberRows(sorted, es)))
  }

  /** Each sorted row numbered with the dense rank of its date. */
  function NumberRows(sorted: seq<Row>, es: seq<Dated>): (rows: seq<Row>)
    requires |sorted| == |es|
    ensures |rows| == |sorted|
    ensures forall k {:trigger rows[k]} :: 0 <= k < |rows| ==> rows[k] == Numbered(sorted[k], es[k], DenseRank(es, k))
  {
    seq(|sorted|, k requires 0 <= k < |sorted| => Numbered(sorted[k], es[k], DenseRank(es, k)))
  }

  /** The integer a row holds in `day_number`, if any. */
  function DayNumberOf(r: Row): Option<int> {
    match Cell(r, "day_number")
    case Some(Num(n)) => Some(n)
    case _ => None
  }

  /** The date of a row's event time, or 0 when it has none. */
  function DateOf(r: Row): nat {
    match TimeOf(Cell(r, "event_time"))
    case Some(t) => Day(t)
    case None => 0
  }

  /** Rows in ascending (hospitalization_id, event_time) order. */
  predicate SortedByIdAndTime(rows: seq<Row>) {
    forall i, j :: 0 <= i < j < |rows| ==> KeyLe(SortKey(rows[i]), SortKey(rows[j]))
  }

  /** Every row has an id, a day number of at least 1, and the day key of the two. */
  predicate KeyedByDay(rows: seq<Row>) {
    forall k :: 0 <= k < |rows| ==>
      && Cell(rows[k], "hospitalization_id").Some?
      && DayNumberOf(rows[k]).Some? && DayNumberOf(rows[k]).value >= 1
      && Cell(rows[k], "hosp_id_day_key") ==
           Some(Str(DayKey(Cell(rows[k], "hospitalization_id").value, DayNumberOf(rows[k]).value)))
  }

  /** The first row of each encounter is on day 1. */
  predicate EncountersStartOnDayOne(rows: seq<Row>) {
    forall k :: 0 <= k < |rows| && (k == 0 || Cell(rows[k - 1], "hospitalization_id") != Cell(rows[k], "hospitalization_id")) ==>
      DayNumberOf(rows[k]) == Some(1)
  }

  /** Within an encounter the day number keeps with the date and rises by one when the date changes. */
  predicate DayNumbersFollowDates(rows: seq<Row>) {
    forall k :: 0 < k < |rows| && Cell(rows[k - 1], "hospitalization_id") == Cell(rows[k], "hospitalization_id") ==>
      FollowsDate(rows[k - 1], rows[k])
  }

  /** `next` carries `prev`'s day number when they share a date, and the next one when they do not. */
  predicate FollowsDate(prev: Row, next: Row) {
    && DayNumberOf(prev).Some? && DayNumberOf(next).Some?
    && DayNumberOf(next).value == DayNumberOf(prev).value + (if DateOf(prev) == DateOf(next) then 0 else 1)
  }

  /** What one numbered row holds: its id, its date, its rank and the day key of the two. */
  lemma NumberedRowFacts(sorted: seq<Row>, es: seq<Dated>, rows: seq<Row>, k: nat)
    requires |sorted| == |es| == |rows| && k < |rows|
    requires DatedOf(sorted[k]) == Some(es[k])
    requires rows[k] == Numbered(sorted[k], es[k], DenseRank(es, k))
    ensures Cell(rows[k], "hospitalization_id") == Some(es[k].id)
    ensures DateOf(rows[k]) == es[k].day
    ensures DayNumberOf(rows[k]) == Some(DenseRank(es, k))
    ensures Cell(rows[k], "hosp_id_day_key") == Some(Str(DayKey(es[k].id, DenseRank(es, k))))
    ensures SortKey(rows[k]) == SortKey(sorted[k])
  {
  }

  /** `rows` are `sorted` with the day columns computed from their dates `es`. */
  ghost predicate NumberedFrom(sorted: seq<Row>, es: seq<Dated>, rows: seq<Row>) {
    && |sorted| == |es| == |rows|
    && (forall k {:trigger sorted[k]} :: 0 <= k < |rows| ==> DatedOf(sorted[k]) == Some(es[k]))
    && (forall k {:trigger rows[k]} :: 0 <= k < |rows| ==> rows[k] == Numbered(sorted[k], es[k], DenseRank(es, k)))
  }

  lemma NumberedRowsKeyed(sorted: seq<Row>, es: seq<Dated>, rows: seq<Row>)
    requires NumberedFrom(sorted, es, rows)
    ensures KeyedByDay(rows)
  {
    forall k | 0 <= k < |rows|
      ensures && Cell(rows[k], "hospitalization_id").Some?
              && DayNumberOf(rows[k]).Some? && DayNumberOf(rows[k]).value >= 1
              && Cell(rows[k], "hosp_id_day_key") ==
                   Some(Str(DayKey(Cell(rows[k], "hospitalization_id").value, DayNumberOf(rows[k]).value)))
    {
      NumberedRowFacts(sorted, es, rows, k);
    }
  }

  lemma NumberedRowsStartOnDayOne(sorted: seq<Row>, es: seq<Dated>, rows: seq<Row>)
    requires NumberedFrom(sorted, es, rows) && Grouped(es)
    ensures EncountersStartOnDayOne(rows)
  {
    forall k | 0 <= k < |rows| && (k == 0 || Cell(rows[k - 1], "hospitalization_id") != Cell(rows[k], "hospitalization_id"))
      ensures DayNumberOf(rows[k]) == Some(1)
    {
      NumberedRowFacts(sorted, es, rows, k);
      if k > 0 {
        NumberedRowFacts(sorted, es, rows, k - 1);
      }
      FirstRowIsDayOne(es, k);
    }
  }

  lemma NumberedRowStep(r0: Row, r1: Row, es: seq<Dated>, k: nat)
    requires Grouped(es) && 0 < k < |es|
    requires Cell(r0, "hospitalization_id") == Some(es[k - 1].id) && Cell(r1, "hospitalization_id") == Some(es[k].id)
    requires DateOf(r0) == es[k - 1].day && DateOf(r1) == es[k].day
    requires DayNumberOf(r0) == Some(DenseRank(es, k - 1)) && DayNumberOf(r1) == Some(DenseRank(es, k))
    requires Cell(r0, "hospitalization_id") == Cell(r1, "hospitalization_id")
    ensures FollowsDate(r0, r1)
  {
    NextRowDayNumber(es, k);
  }

  lemma NumberedRowsFollowDates(sorted: seq<Row>, es: seq<Dated>, rows: seq<Row>)
    requires NumberedFrom(sorted, es, rows) && Grouped(es)
    ensures DayNumbersFollowDates(rows)
  {
    forall k | 0 < k < |rows| && Cell(rows[k - 1], "hospitalization_id") == Cell(rows[k], "hospitalization_id")
      ensures FollowsDate(rows[k - 1], rows[k])
    {
      NumberedStepAt(sorted, es, rows, k);
    }
  }

  lemma NumberedStepAt(sorted: seq<Row>, es: seq<Dated>, rows: seq<Row>, k: nat)
    requires NumberedFrom(sorted, es, rows) && Grouped(es) && 0 < k < |rows|
    requires Cell(rows[k - 1], "hospitalization_id") == Cell(rows[k], "hospitalization_id")
    ensures FollowsDate(rows[k - 1], rows[k])
  {
    NumberedRowFacts(sorted, es, rows, k);
    NumberedRowFacts(sorted, es, rows, k - 1);
    NumberedRowStep(rows[k - 1], rows[k], es, k);
  }

  /**
   * The day columns as the source promises them: rows ordered by (id, event_time); every row
   * numbered from 1 with the matching day key; the first row of an encounter on day 1; and
   * from one row of an encounter to the next the number stays with the date or rises by one.
   */
  lemma DayColumnsNumbering(t: Table)
    requires AddDayColumns(t).Ok?
    ensures SortedByIdAndTime(AddDayColumns(t).value.rows)
    ensures KeyedByDay(AddDayColumns(t).value.rows)
    ensures EncountersStartOnDayOne(AddDayColumns(t).value.rows)
    ensures DayNumbersFollowDates(AddDayColumns(t).value.rows)
  {
    var sorted := SortRows(t.rows);
    SortKeepsDated(t.rows);
    var es := DatedRows(sorted).value;
    var rows := AddDayColumns(t).value.rows;
    assert rows == NumberRows(sorted, es);
    assert NumberedFrom(sorted, es, rows);
    SortedRowsAreGrouped(sorted, es);
    NumberedRowsKeyed(sorted, es, rows);
    NumberedRowsStartOnDayOne(sorted, es, rows);
    NumberedRowsFollowDates(sorted, es, rows);
    forall i, j | 0 <= i < j < |rows| ensures KeyLe(SortKey(rows[i]), SortKey(rows[j])) {
      NumberedRowFacts(sorted, es, rows, i);
      NumberedRowFacts(sorted, es, rows, j);
    }
  }

  /** `df[category] = np.nan` when the column is absent: a new column, NULL in every row. */
  function AddColumnIfAbsent(t: Table, c: string): Table {
    if c in t.columns then t
    else Table(t.columns + [c], seq(|t.rows|, k requires 0 <= k < |t.rows| => t.rows[k][c := None]))
  }

  /** The inner loop of `_add_missing_columns`, over one table's categories in order. */
  function AddCategories(t: Table, categories: seq<string>): Table
    decreases |categories|
  {
    if categories == [] then t
    else AddColumnIfAbsent(AddCategories(t, categories[..|categories| - 1]), categories[|categories| - 1])
  }

  /** The outer loop: tables that were loaded and list categories contribute their columns. */
  function AddMissing(t: Table, filters: Filters, loaded: seq<string>): Table
    decreases |filters|
  {
    if filters == [] then t
    else
      var acc := AddMissing(t, filters[..|filters| - 1], loaded);
      var f := filters[|filters| - 1];
      if f.table in loaded && f.categories != [] then AddCategories(acc, f.categories) else acc
  }

  /** What adding columns preserves and adds, between `t` and `u`. */
  ghost predicate Extends(t: Table, u: Table) {
    && |u.rows| == |t.rows|
    && |u.columns| >= |t.columns|
    && u.columns[..|t.columns|] == t.columns
    && (forall k, c :: 0 <= k < |t.rows| && c in t.columns ==> Cell(u.rows[k], c) == Cell(t.rows[k], c))
    && (forall k, c :: 0 <= k < |t.rows| && c in u.columns && c !in t.columns ==> Cell(u.rows[k], c) == None)
  }

  lemma ExtendsTransitive(t: Table, u: Table, v: Table)
    requires Extends(t, u) && Extends(u, v)
    ensures Extends(t, v)
  {
    assert v.columns[..|t.columns|] == v.columns[..|u.columns|][..|t.columns|];
    forall k, c | 0 <= k < |t.rows| && c in t.columns ensures Cell(v.rows[k], c) == Cell(t.rows[k], c) {
      assert c in u.columns[..|t.columns|];
      assert c in u.columns;
      assert Cell(v.rows[k], c) == Cell(u.rows[k], c);
    }
    forall k, c | 0 <= k < |t.rows| && c in v.columns && c !in t.columns ensures Cell(v.rows[k], c) == None {
      if c in u.columns {
        assert Cell(v.rows[k], c) == Cell(u.rows[k], c);
      }
    }
  }

  lemma {:induction false} AddCategoriesExtends(t: Table, categories: seq<string>)
    ensures Extends(t, AddCategories(t, categories))
    ensures forall c :: c in AddCategories(t, categories).columns <==> c in t.columns || c in categories
    decreases |categories|
  {
    if categories != [] {
      var init, c := categories[..|categories| - 1], categories[|categories| - 1];
      var u := AddCategories(t, init);
      AddCategoriesExtends(t, init);
      var v := AddColumnIfAbsent(u, c);
      if c !in u.columns {
        assert v.columns[..|u.columns|] == u.columns;
      }
      assert Extends(u, v);
      ExtendsTransitive(t, u, v);
      assert forall x :: x in categories <==> x in init || x == c;
    }
  }

  /** A requested category: listed under a table that was loaded. */
  ghost predicate Requested(filters: Filters, loaded: seq<string>, c: string) {
    exists i :: 0 <= i < |filters| && filters[i].table in loaded && c in filters[i].categories
  }

  /**
   * `_add_missing_columns` keeps every existing column where it was with its values, adds
   * exactly the requested categories that were missing, and those hold NULL in every row.
   * With no filters nothing changes.
   */
  lemma {:induction false} AddMissingSpec(t: Table, filters: Filters, loaded: seq<string>)
    ensures Extends(t, AddMissing(t, filters, loaded))
    ensures forall c :: c in AddMissing(t, filters, loaded).columns <==> c in t.columns || Requested(filters, loaded, c)
    ensures filters == [] ==> AddMissing(t, filters, loaded) == t
    decreases |filters|
  {
    if filters == [] {
      assert t.columns[..|t.columns|] == t.columns;
    } else {
      var init, f := filters[..|filters| - 1], filters[|filters| - 1];
      var acc := AddMissing(t, init, loaded);
      AddMissingSpec(t, init, loaded);
      forall c ensures Requested(filters, loaded, c) <==>
        Requested(init, loaded, c) || (f.table in loaded && c in f.categories)
      {
        if Requested(filters, loaded, c) {
          var i :| 0 <= i < |filters| && filters[i].table in loaded && c in filters[i].categories;
          if i < |init| {
            assert init[i] == filters[i];
          }
        }
        if Requested(init, loaded, c) {
          var i :| 0 <= i < |init| && init[i].table in loaded && c in init[i].categories;
          assert filters[i] == init[i];
        }
      }
      if f.table in loaded && f.categories != [] {
        AddCategoriesExtends(acc, f.categories);
        ExtendsTransitive(t, acc, AddCategories(acc, f.categories));
      }
    }
  }

  /**
   * `_add_missing_columns(df, category_filters, tables_loaded)`: updates the frame in place,
   * table by table and category by category.
   */
  method AddMissingColumns(df: DataFrame, filters: Filters, loaded: seq<string>)
    modifies df
    ensures df.Contents() == AddMissing(old(df.Contents()), filters, loaded)
  {
    if filters == [] {
      return;
    }
    var i := 0;
    while i < |filters|
      invariant 0 <= i <= |filters|
      invariant df.Contents() == AddMissing(old(df.Contents()), filters[..i], loaded)
    {
      assert filters[..i + 1][..i] == filters[..i];
      var f := filters[i];
      if f.table in loaded && f.categories != [] {
        AddCategoryColumns(df, f.categories);
      }
      i := i + 1;
    }
    assert filters[..i] == filters;
  }

  /** The inner loop of `_add_missing_columns`: each category not yet a column becomes a NULL column. */
  method AddCategoryColumns(df: DataFrame, categories: seq<string>)
    modifies df
    ensures df.Contents() == AddCategories(old(df.Contents()), categories)
  {
    var j := 0;
    while j < |categories|
      invariant 0 <= j <= |categories|
      invariant df.Contents() == AddCategories(old(df.Contents()), categories[..j])
    {
      assert categories[..j + 1][..j] == categories[..j];
      var c := categories[j];
      if c !in df.columns {
        var rows := df.rows;
        df.rows := seq(|rows|, k requires 0 <= k < |rows| => rows[k][c := None]);
        df.columns := df.columns + [c];
      }
      j := j + 1;
    }
    assert categories[..j] == categories;
  }

  /** The columns of `columns` that are not in `names`, in order. */
  function Without(columns: seq<string>, names: seq<string>): (r: seq<string>)
    ensures forall c :: c in r <==> c in columns && c !in names
    decreases |columns|
  {
    if columns == [] then []
    else
      var init, last := columns[..|columns| - 1], columns[|columns| - 1];
      assert forall c :: c in columns <==> c in init || c == last;
      Without(init, names) + (if last in names then [] else [last])
  }

  /**
   * `df.drop(columns=[c for c in names if c in df.columns])`: the named columns disappear and
   * read as NULL; every other column keeps its place and its values.
   */
  function DropColumns(t: Table, names: seq<string>): (r: Table)
    ensures forall c :: c in r.columns <==> c in t.columns && c !in names
    ensures |r.rows| == |t.rows|
    ensures forall k, c :: 0 <= k < |t.rows| ==> Cell(r.rows[k], c) == if c in names then None else Cell(t.rows[k], c)
  {
    Table(Without(t.columns, names),
      seq(|t.rows|, k requires 0 <= k < |t.rows| => map c | c in t.rows[k] && c !in names :: t.rows[k][c]))
  }
}
