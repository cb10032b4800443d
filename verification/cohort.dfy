/**
 * The pandas side of `_process_hospitalizations`: the encounter-id filter, the base cohort
 * (`hospitalization` merged with `patient`), the cohort time-window filter, and the preparation
 * of one requested clinical table before it is registered as `<table>_raw`.
 */
module Cohort {
  import opened Wrappers
  import opened Relational
  import opened Timestamps
  import opened CategoryFilters

  /** The requested encounter ids; a NULL entry stands for NaN, which `isin` matches to NaN. */
  type Ids = seq<Option<Value>>

  /** `df['hospitalization_id'].isin(ids)` for one row. */
  predicate IdIn(r: Row, ids: Ids) {
    Cell(r, "hospitalization_id") in ids
  }

  /** The rows whose id is requested, in order. */
  function RowsIn(rows: seq<Row>, ids: Ids): (rs: seq<Row>)
    ensures |rs| <= |rows|
    ensures forall r :: r in rs <==> r in rows && IdIn(r, ids)
    decreases |rows|
  {
    if rows == [] then []
    else
      var init, last := rows[..|rows| - 1], rows[|rows| - 1];
      assert forall r :: r in rows <==> r in init || r == last;
      RowsIn(init, ids) + (if IdIn(last, ids) then [last] else [])
  }

  /** `df[df['hospitalization_id'].isin(ids)]`: a KeyError when the frame has no id column. */
  function FilterIds(t: Table, ids: Ids): (r: Result<Table>)
    ensures r.Err? <==> "hospitalization_id" !in t.columns
    ensures r.Ok? ==> r.value.columns == t.columns
    ensures r.Ok? ==> forall x :: x in r.value.rows <==> x in t.rows && IdIn(x, ids)
  {
    if "hospitalization_id" !in t.columns then Err(KeyError("hospitalization_id"))
    else Ok(Table(t.columns, RowsIn(t.rows, ids)))
  }

  /** Two rows share a merge key; pandas matches a NaN key to a NaN key. */
  predicate SameKey(a: Row, b: Row, key: string) {
    Cell(a, key) == Cell(b, key)
  }

  /** The rows of `right` whose key matches `a`, each standing for one merged row. */
  function MatchCount(a: Row, right: seq<Row>, key: string): (n: nat)
    ensures n == 0 <==> forall b :: b in right ==> !SameKey(a, b, key)
    decreases |right|
  {
    if right == [] then 0
    else
      var init, last := right[..|right| - 1], right[|right| - 1];
      assert forall b :: b in right <==> b in init || b == last;
      MatchCount(a, init, key) + (if SameKey(a, last, key) then 1 else 0)
  }

  /** `n` copies of a row. */
  function Copies(r: Row, n: nat): (rs: seq<Row>)
    ensures |rs| == n && forall x :: x in rs <==> n > 0 && x == r
  {
    var rs := seq(n, _ => r);
    assert n > 0 ==> rs[0] == r;
    rs
  }

  /**
   * The left rows of an inner merge whose right side adds no column of its own: each left row
   * once per matching right row, in left order.
   */
  function SemiMerge(left: seq<Row>, right: seq<Row>, key: string): (rs: seq<Row>)
    ensures forall r :: r in rs <==> r in left && exists b :: b in right && SameKey(r, b, key)
    decreases |left|
  {
    if left == [] then []
    else
      var init, last := left[..|left| - 1], left[|left| - 1];
      assert forall r :: r in left <==> r in init || r == last;
      var n := MatchCount(last, right, key);
      SemiMerge(init, right, key) + Copies(last, n)
  }

  /**
   * `pd.merge(hospitalization_df, patient_df, on='patient_id', how='inner')` where `patient_df`
   * holds only `patient_id`: the encounter rows whose patient exists, once per matching patient
   * row, with the encounter columns. A KeyError when either side lacks `patient_id`.
   */
  function BaseCohort(hosp: Table, patient: Table): (r: Result<Table>)
    ensures r.Err? <==> "patient_id" !in hosp.columns || "patient_id" !in patient.columns
    ensures r.Ok? ==> r.value.columns == hosp.columns
    ensures r.Ok? ==> forall x :: x in r.value.rows <==>
              x in hosp.rows && exists p :: p in patient.rows && SameKey(x, p, "patient_id")
  {
    if "patient_id" !in hosp.columns || "patient_id" !in patient.columns then Err(KeyError("patient_id"))
    else Ok(Table(hosp.columns, SemiMerge(hosp.rows, patient.rows, "patient_id")))
  }

  /** A patient row that matches no encounter only drops encounters, it never adds one: at most one row per encounter row when patients are unique. */
  lemma {:induction false} SemiMergeUniqueRight(left: seq<Row>, right: seq<Row>, key: string)
    requires forall i, j :: 0 <= i < j < |right| ==> !SameKey(right[i], right[j], key)
    ensures |SemiMerge(left, right, key)| <= |left|
    decreases |left|
  {
    if left != [] {
      var init, last := left[..|left| - 1], left[|left| - 1];
      SemiMergeUniqueRight(init, right, key);
      MatchCountUnique(last, right, key);
    }
  }

  lemma {:induction false} MatchCountUnique(a: Row, right: seq<Row>, key: string)
    requires forall i, j :: 0 <= i < j < |right| ==> !SameKey(right[i], right[j], key)
    ensures MatchCount(a, right, key) <= 1
    decreases |right|
  {
    if right != [] {
      var init, last := right[..|right| - 1], right[|right| - 1];
      MatchCountUnique(a, init, key);
      if SameKey(a, last, key) {
        forall b | b in init ensures !SameKey(a, b, key) {
          var i :| 0 <= i < |init| && init[i] == b;
          assert right[i] == b && right[|right| - 1] == last;
        }
      }
    }
  }

  /**
   * `start_time <= ts <= end_time`: false whenever one of the three is NULL (NaT compares
   * false).
   */
  predicate InWindow(ts: Option<Value>, w: Row) {
    match (TimeOf(ts), TimeOf(Cell(w, "start_time")), TimeOf(Cell(w, "end_time")))
    case (Some(t), Some(s), Some(e)) => s <= t <= e
    case _ => false
  }

  /** Some window of the row's encounter contains its timestamp. */
  predicate InSomeWindow(r: Row, tsCol: string, cohort: seq<Row>) {
    exists w :: w in cohort && SameKey(r, w, "hospitalization_id") && InWindow(Cell(r, tsCol), w)
  }

  /** The windows of `cohort` that a row falls in, one merged row each. */
  function WindowCount(r: Row, tsCol: string, cohort: seq<Row>): (n: nat)
    ensures n == 0 <==> forall w :: w in cohort ==> !(SameKey(r, w, "hospitalization_id") && InWindow(Cell(r, tsCol), w))
    decreases |cohort|
  {
    if cohort == [] then 0
    else
      var init, last := cohort[..|cohort| - 1], cohort[|cohort| - 1];
      assert forall w :: w in cohort <==> w in init || w == last;
      WindowCount(r, tsCol, init) + (if SameKey(r, last, "hospitalization_id") && InWindow(Cell(r, tsCol), last) then 1 else 0)
  }

  /**
   * The time-window filter: merge with the cohort windows on the id, keep the rows whose
   * timestamp lies within the window, drop `start_time` and `end_time`. A row is kept once per
   * window of its encounter that contains it.
   */
  function WindowRows(rows: seq<Row>, tsCol: string, cohort: seq<Row>): (rs: seq<Row>)
    ensures forall r :: r in rs <==> r in rows && InSomeWindow(r, tsCol, cohort)
    decreases |rows|
  {
    if rows == [] then []
    else
      var init, last := rows[..|rows| - 1], rows[|rows| - 1];
      assert forall r :: r in rows <==> r in init || r == last;
      var n := WindowCount(last, tsCol, cohort);
      WindowRows(init, tsCol, cohort) + Copies(last, n)
  }

  /** A row whose timestamp is NULL is never within a window. */
  lemma NullTimestampDropped(rows: seq<Row>, tsCol: string, cohort: seq<Row>, r: Row)
    requires Cell(r, tsCol).None?
    ensures r !in WindowRows(rows, tsCol, cohort)
  {
  }

  /** `[c for c in wanted if c in columns]`. */
  function Available(wanted: seq<string>, columns: seq<string>): (r: seq<string>)
    ensures forall c :: c in r <==> c in wanted && c in columns
    decreases |wanted|
  {
    if wanted == [] then []
    else
      assert forall c :: c in wanted <==> c == wanted[0] || c in wanted[1..];
      (if wanted[0] in columns then [wanted[0]] else []) + Available(wanted[1..], columns)
  }

  /** `df[columns]`: the frame restricted to the given columns. */
  function SelectColumns(t: Table, columns: seq<string>): (r: Table)
    ensures r.columns == columns && |r.rows| == |t.rows|
    ensures forall k, c :: 0 <= k < |t.rows| ==> Cell(r.rows[k], c) == if c in columns then Cell(t.rows[k], c) else None
  {
    Table(columns, seq(|t.rows|, k requires 0 <= k < |t.rows| => map c | c in t.rows[k] && c in columns :: t.rows[k][c]))
  }

  /**
   * The columns a wide table keeps: `hospitalization_id`, its primary timestamp column, then
   * the columns its filter entry lists, each only when present.
   */
  function WideColumns(table: string, filters: Filters, columns: seq<string>): seq<string> {
    var ts := match PrimaryTimestamp(table) case Some(c) => [c] case None => [];
    Available(["hospitalization_id"] + ts + CategoriesOf(filters, table), columns)
  }

  /** A table ready to register: its rows and its resolved timestamp column. */
  datatype Prepared = Prepared(table: Table, tsCol: string)

  /** The name under which the loaded tables are reached (`labs` is loaded as `lab`). */
  function Attribute(table: string): string {
    if table == "labs" then "lab" else table
  }

  /** The table after the wide-table column restriction. */
  function Restricted(table: string, t: Table, filters: Filters): Table {
    if table in WIDE_TABLES && HasTable(filters, table) then
      var keep := WideColumns(table, filters, t.columns);
      if keep != [] then SelectColumns(t, keep) else t
    else t
  }

  /**
   * One iteration of the table loop before registration. Ok(None) when the table is skipped:
   * not loaded, no row for the requested ids, or no usable timestamp column. A KeyError when
   * the loaded table has no `hospitalization_id`. The cohort, when given, must carry the window
   * columns.
   */
  function PrepareTable(table: string, loaded: map<string, Table>, ids: Ids, filters: Filters,
                        cohort: Option<Table>): (r: Result<Option<Prepared>>)
    ensures r.Err? <==> Attribute(table) in loaded && "hospitalization_id" !in loaded[Attribute(table)].columns
    ensures r == Ok(None) <== Attribute(table) !in loaded
    ensures r.Ok? && r.value.Some? ==>
              && Attribute(table) in loaded
              && r.value.value.tsCol in r.value.value.table.columns
              && (forall x :: x in r.value.value.table.rows ==> IdIn(x, ids))
              && ResolveTimestamp(table, r.value.value.table.columns) == Some(r.value.value.tsCol)
    ensures r.Ok? && r.value.Some? && cohort.Some? ==>
              forall x :: x in r.value.value.table.rows ==> InSomeWindow(x, r.value.value.tsCol, cohort.value.rows)
  {
    if Attribute(table) !in loaded then Ok(None)
    else
      match FilterIds(loaded[Attribute(table)], ids)
      case Err(e) => Err(e)
      case Ok(t) =>
        if |t.rows| == 0 then Ok(None)
        else
          var u := Restricted(table, t, filters);
          RestrictedKeepsIds(table, t, filters, ids);
          match ResolveTimestamp(table, u.columns)
          case None => Ok(None)
          case Some(ts) =>
            match cohort
            case None => Ok(Some(Prepared(u, ts)))
            case Some(c) => Ok(Some(Prepared(Table(u.columns, WindowRows(u.rows, ts, c.rows)), ts)))
  }

  /** The column restriction keeps `hospitalization_id` and so keeps every row's id. */
  lemma RestrictedKeepsIds(table: string, t: Table, filters: Filters, ids: Ids)
    requires "hospitalization_id" in t.columns
    requires forall x :: x in t.rows ==> IdIn(x, ids)
    ensures forall x :: x in Restricted(table, t, filters).rows ==> IdIn(x, ids)
  {
    var u := Restricted(table, t, filters);
    if u != t {
      var keep := WideColumns(table, filters, t.columns);
      assert "hospitalization_id" in keep;
      forall x | x in u.rows ensures IdIn(x, ids) {
        var k :| 0 <= k < |u.rows| && u.rows[k] == x;
        assert t.rows[k] in t.rows;
      }
    }
  }
}
