/**
 * What the hourly queries compute over `hourly_data`: the groups (one per encounter and hour),
 * the aggregate each verb applies to a column within a group, the base query's row, and the
 * one-hot indicators.
 */
module HourlyAggregates {
  import opened Wrappers
  import opened Relational
  import opened Ordering
  import opened HourlyPlan
  import opened HourlyRows

  /** The values of the group columns of a row: the key every hourly query groups by. */
  function GroupKey(r: Row): Key {
    [Cell(r, HID), Cell(r, "event_time_hour"), Cell(r, "nth_hour"), Cell(r, "hour_bucket")]
  }

  /**
   * The groups, each once, in order of first appearance. The engine promises no order; the
   * model assumes every query over one `hourly_data` lists its groups in the same order.
   */
  function Groups(data: seq<Row>): (gs: seq<Key>)
    ensures NoDuplicates(gs)
    ensures forall g :: g in gs <==> exists i :: 0 <= i < |data| && GroupKey(data[i]) == g
    ensures forall i :: 0 <= i < |gs| ==> |gs[i]| == 4
  {
    var keys := seq(|data|, i requires 0 <= i < |data| => GroupKey(data[i]));
    assert forall g :: g in keys <==> exists i :: 0 <= i < |data| && GroupKey(data[i]) == g by {
      forall g | g in keys ensures exists i :: 0 <= i < |data| && GroupKey(data[i]) == g {
        var i :| 0 <= i < |keys| && keys[i] == g;
        assert GroupKey(data[i]) == g;
      }
      forall g | exists i :: 0 <= i < |data| && GroupKey(data[i]) == g ensures g in keys {
        var i :| 0 <= i < |data| && GroupKey(data[i]) == g;
        assert keys[i] == g;
      }
    }
    var gs := Distinct(keys);
    assert forall i :: 0 <= i < |gs| ==> |gs[i]| == 4 by {
      forall i | 0 <= i < |gs| ensures |gs[i]| == 4 {
        assert gs[i] in keys;
      }
    }
    gs
  }

  /** The rows of group `g`, in `hourly_data` order. */
  function GroupRows(data: seq<Row>, g: Key): (rs: seq<Row>)
    ensures |rs| <= |data|
    decreases |data|
  {
    if data == [] then []
    else (if GroupKey(data[0]) == g then [data[0]] else []) + GroupRows(data[1..], g)
  }

  /** A group's rows are the rows of `hourly_data` with its key. */
  lemma {:induction false} GroupRowsMembers(data: seq<Row>, g: Key)
    ensures forall r :: r in GroupRows(data, g) <==> r in data && GroupKey(r) == g
    decreases |data|
  {
    if data != [] {
      GroupRowsMembers(data[1..], g);
      assert forall r :: r in data <==> r == data[0] || r in data[1..];
    }
  }

  /** Every group has a row; the first is the earliest row of `hourly_data` with that key. */
  lemma {:induction false} GroupRowsStart(data: seq<Row>, g: Key, i: nat)
    requires i < |data| && GroupKey(data[i]) == g
    requires forall j :: 0 <= j < i ==> GroupKey(data[j]) != g
    ensures GroupRows(data, g) != [] && GroupRows(data, g)[0] == data[i]
    decreases i
  {
    if i > 0 {
      GroupRowsStart(data[1..], g, i - 1);
    }
  }

  /** The last row of a group is the latest row of `hourly_data` with that key. */
  lemma {:induction false} GroupRowsEnd(data: seq<Row>, g: Key, i: nat)
    requires i < |data| && GroupKey(data[i]) == g
    requires forall j :: i < j < |data| ==> GroupKey(data[j]) != g
    ensures GroupRows(data, g) != [] && GroupRows(data, g)[|GroupRows(data, g)| - 1] == data[i]
    decreases |data|
  {
    if i > 0 {
      GroupRowsEnd(data[1..], g, i - 1);
    } else {
      NoRowsOfKey(data[1..], g);
    }
  }

  lemma {:induction false} NoRowsOfKey(data: seq<Row>, g: Key)
    requires forall j :: 0 <= j < |data| ==> GroupKey(data[j]) != g
    ensures GroupRows(data, g) == []
    decreases |data|
  {
    if data != [] {
      NoRowsOfKey(data[1..], g);
    }
  }

  /** The non-NULL values of column `c` over `rows`, in order. */
  function NonNull(rows: seq<Row>, c: string): (vs: seq<Value>)
    ensures forall v :: v in vs <==> exists r :: r in rows && Cell(r, c) == Some(v)
    decreases |rows|
  {
    if rows == [] then []
    else
      assert forall r :: r in rows <==> r == rows[0] || r in rows[1..];
      (match Cell(rows[0], c) case Some(v) => [v] case None => []) + NonNull(rows[1..], c)
  }

  /** The greatest of some values. */
  function Greatest(vs: seq<Value>): (m: Value)
    requires vs != []
    ensures m in vs && forall v :: v in vs ==> ValueLe(v, m)
    decreases |vs|
  {
    CellLeTotal(Some(vs[0]), Some(vs[0]));
    if |vs| == 1 then vs[0]
    else
      var rest := Greatest(vs[1..]);
      assert forall v :: v in vs ==> v == vs[0] || v in vs[1..];
      CellLeTotal(Some(vs[0]), Some(rest));
      if ValueLe(rest, vs[0]) then
        assert forall v :: v in vs[1..] ==> ValueLe(v, vs[0]) by {
          forall v | v in vs[1..] ensures ValueLe(v, vs[0]) {
            CellLeTransitive(Some(v), Some(rest), Some(vs[0]));
          }
        }
        vs[0]
      else rest
  }

  /** The least of some values. */
  function Smallest(vs: seq<Value>): (m: Value)
    requires vs != []
    ensures m in vs && forall v :: v in vs ==> ValueLe(m, v)
    decreases |vs|
  {
    CellLeTotal(Some(vs[0]), Some(vs[0]));
    if |vs| == 1 then vs[0]
    else
      var rest := Smallest(vs[1..]);
      assert forall v :: v in vs ==> v == vs[0] || v in vs[1..];
      CellLeTotal(Some(vs[0]), Some(rest));
      if ValueLe(vs[0], rest) then
        assert forall v :: v in vs[1..] ==> ValueLe(vs[0], v) by {
          forall v | v in vs[1..] ensures ValueLe(vs[0], v) {
            CellLeTransitive(Some(vs[0]), Some(rest), Some(v));
          }
        }
        vs[0]
      else rest
  }

  /**
   * `AVG` and `MEDIAN` are computed by the engine in floating point (and MEDIAN of text as the
   * lower of the two middle values), which the model does not describe: they are parameters,
   * applied to a group's non-NULL values.
   */
  datatype Stats = Stats(mean: seq<Value> -> Value, median: seq<Value> -> Value)

  /**
   * One aggregate over the rows of a group: MAX and MIN over the non-NULL values (NULL when
   * there are none), FIRST and LAST the first and last row's value (NULL included), and the
   * boolean `CASE WHEN COUNT(c) > 0 THEN 1 ELSE 0 END`.
   */
  function Aggregate(a: Agg, rows: seq<Row>, c: string, stats: Stats): Option<Value> {
    match a
    case Max => if NonNull(rows, c) == [] then None else Some(Greatest(NonNull(rows, c)))
    case Min => if NonNull(rows, c) == [] then None else Some(Smallest(NonNull(rows, c)))
    case Mean => if NonNull(rows, c) == [] then None else Some(stats.mean(NonNull(rows, c)))
    case Median => if NonNull(rows, c) == [] then None else Some(stats.median(NonNull(rows, c)))
    case First => if rows == [] then None else Cell(rows[0], c)
    case Last => if rows == [] then None else Cell(rows[|rows| - 1], c)
    case Boolean => Some(Num(if NonNull(rows, c) != [] then 1 else 0))
  }

  /** `col_boolean` is 1 exactly when some row of the hour has a value in `col`, and 0 otherwise. */
  lemma BooleanMeaning(data: seq<Row>, g: Key, c: string, stats: Stats)
    ensures Aggregate(Boolean, GroupRows(data, g), c, stats) == Some(Num(1)) <==>
      exists r :: r in data && GroupKey(r) == g && Cell(r, c).Some?
    ensures Aggregate(Boolean, GroupRows(data, g), c, stats) == Some(Num(0)) <==>
      forall r :: r in data && GroupKey(r) == g ==> Cell(r, c).None?
  {
    var rows := GroupRows(data, g);
    GroupRowsMembers(data, g);
    if NonNull(rows, c) != [] {
      var v := NonNull(rows, c)[0];
      assert v in NonNull(rows, c);
    } else {
      forall r | r in data && GroupKey(r) == g ensures Cell(r, c).None? {
        assert r in rows;
      }
    }
  }

  /**
   * `col_max` is a value of `col` in the hour that no other value of the hour exceeds; it is
   * NULL only when every row of the hour is NULL there. `col_min` likewise from below.
   */
  lemma MaxMinMeaning(data: seq<Row>, g: Key, c: string, stats: Stats)
    ensures var m := Aggregate(Max, GroupRows(data, g), c, stats);
      && (m.None? <==> forall r :: r in data && GroupKey(r) == g ==> Cell(r, c).None?)
      && (m.Some? ==> exists r :: r in data && GroupKey(r) == g && Cell(r, c) == m)
      && (m.Some? ==> forall r :: r in data && GroupKey(r) == g && Cell(r, c).Some? ==> ValueLe(Cell(r, c).value, m.value))
    ensures var m := Aggregate(Min, GroupRows(data, g), c, stats);
      && (m.None? <==> forall r :: r in data && GroupKey(r) == g ==> Cell(r, c).None?)
      && (m.Some? ==> exists r :: r in data && GroupKey(r) == g && Cell(r, c) == m)
      && (m.Some? ==> forall r :: r in data && GroupKey(r) == g && Cell(r, c).Some? ==> ValueLe(m.value, Cell(r, c).value))
  {
    var rows := GroupRows(data, g);
    GroupRowsMembers(data, g);
    var vs := NonNull(rows, c);
    forall r | r in data && GroupKey(r) == g && Cell(r, c).Some? ensures Cell(r, c).value in vs {
      assert r in rows;
    }
    if vs != [] {
      assert Greatest(vs) in vs && Smallest(vs) in vs;
    }
  }

  /** `col_first` is the value (NULL or not) of the hour's earliest row in `hourly_data`. */
  lemma FirstMeaning(data: seq<Row>, c: string, stats: Stats, i: nat)
    requires i < |data|
    requires forall j :: 0 <= j < i ==> GroupKey(data[j]) != GroupKey(data[i])
    ensures Aggregate(First, GroupRows(data, GroupKey(data[i])), c, stats) == Cell(data[i], c)
  {
    var rows := GroupRows(data, GroupKey(data[i]));
    GroupRowsStart(data, GroupKey(data[i]), i);
    FirstOf(rows, c, stats);
  }

  lemma FirstOf(rows: seq<Row>, c: string, stats: Stats)
    requires rows != []
    ensures Aggregate(First, rows, c, stats) == Cell(rows[0], c)
  {
  }

  /** `col_last` is the value (NULL or not) of the hour's latest row in `hourly_data`. */
  lemma LastMeaning(data: seq<Row>, c: string, stats: Stats, i: nat)
    requires i < |data|
    requires forall j :: i < j < |data| ==> GroupKey(data[j]) != GroupKey(data[i])
    ensures Aggregate(Last, GroupRows(data, GroupKey(data[i])), c, stats) == Cell(data[i], c)
  {
    var rows := GroupRows(data, GroupKey(data[i]));
    GroupRowsEnd(data, GroupKey(data[i]), i);
    LastOf(rows, c, stats);
  }

  lemma LastOf(rows: seq<Row>, c: string, stats: Stats)
    requires rows != []
    ensures Aggregate(Last, rows, c, stats) == Cell(rows[|rows| - 1], c)
  {
  }

  /** The columns of the base query. */
  const BASE_COLUMNS: seq<string> := GROUP_COLUMNS + ["patient_id", "day_number"]

  /** The base query's row for a group: the group columns and FIRST of `patient_id` and `day_number`. */
  function BaseRow(g: Key, rows: seq<Row>): Row
    requires |g| == 4
  {
    map[HID := g[0], "event_time_hour" := g[1], "nth_hour" := g[2], "hour_bucket" := g[3],
        "patient_id" := if rows == [] then None else Cell(rows[0], "patient_id"),
        "day_number" := if rows == [] then None else Cell(rows[0], "day_number")]
  }

  /** The base query: one row per group. */
  function BaseFrame(data: seq<Row>): (t: Table)
    ensures |t.rows| == |Groups(data)|
    ensures forall i :: 0 <= i < |t.rows| ==> GroupKey(t.rows[i]) == Groups(data)[i]
  {
    var gs := Groups(data);
    var rows := seq(|gs|, i requires 0 <= i < |gs| => BaseRow(gs[i], GroupRows(data, gs[i])));
    assert forall i :: 0 <= i < |rows| ==> GroupKey(rows[i]) == gs[i] by {
      forall i | 0 <= i < |rows| ensures GroupKey(rows[i]) == gs[i] {
        BaseRowKey(gs[i], GroupRows(data, gs[i]));
      }
    }
    Table(BASE_COLUMNS, rows)
  }

  lemma BaseRowKey(g: Key, rows: seq<Row>)
    requires |g| == 4
    ensures GroupKey(BaseRow(g, rows)) == g
  {
    assert GroupKey(BaseRow(g, rows)) == [g[0], g[1], g[2], g[3]];
  }

  /** The aggregates of a verb query over one group, keyed by alias (the first item of an alias counts). */
  function ItemsRow(items: seq<Item>, rows: seq<Row>, stats: Stats): Row
    decreases |items|
  {
    if items == [] then map[]
    else ItemsRow(items[1..], rows, stats)[items[0].alias := Aggregate(items[0].agg, rows, items[0].column, stats)]
  }

  /** An item's column holds the aggregate of its own column, unless an earlier item took its alias. */
  lemma {:induction false} ItemsRowCell(items: seq<Item>, rows: seq<Row>, stats: Stats, k: nat)
    requires k < |items|
    requires forall j :: 0 <= j < k ==> items[j].alias != items[k].alias
    ensures Cell(ItemsRow(items, rows, stats), items[k].alias) == Aggregate(items[k].agg, rows, items[k].column, stats)
    decreases k
  {
    if k > 0 {
      ItemsRowCell(items[1..], rows, stats, k - 1);
    }
  }

  function Aliases(items: seq<Item>): seq<string> {
    seq(|items|, i requires 0 <= i < |items| => items[i].alias)
  }

  /** Whether column `c` holds text in some row. */
  predicate HoldsText(data: seq<Row>, c: string) {
    exists i :: 0 <= i < |data| && Cell(data[i], c).Some? && Cell(data[i], c).value.Str?
  }

  /**
   * A verb query run over `hourly_data`: one row per group, one column per aggregate (the group
   * columns are dropped after it runs). AVG has no text overload in the engine, so the `mean`
   * query fails when one of its columns holds text; MEDIAN also orders text (its lower middle
   * value), so the `median` query runs on any column.
   */
  function VerbFrame(q: VerbQuery, data: seq<Row>, stats: Stats): (r: Result<Table>)
    ensures r.Ok? ==> |r.value.rows| == |Groups(data)| && r.value.columns == Aliases(q.items)
    ensures r.Err? <==> q.verb == "mean" && exists it :: it in q.items && HoldsText(data, it.column)
  {
    var gs := Groups(data);
    if q.verb == "mean" && exists it :: it in q.items && HoldsText(data, it.column) then
      Err(EngineError(q.verb))
    else
      Ok(Table(Aliases(q.items), seq(|gs|, i requires 0 <= i < |gs| => ItemsRow(q.items, GroupRows(data, gs[i]), stats))))
  }

  /**
   * Row `i` of a verb query's result holds, under each aggregate's name, that aggregate of its
   * column over the `i`-th group's rows.
   */
  lemma VerbFrameCell(q: VerbQuery, data: seq<Row>, stats: Stats, i: nat, k: nat)
    requires VerbFrame(q, data, stats).Ok? && i < |Groups(data)| && k < |q.items|
    requires forall j :: 0 <= j < k ==> q.items[j].alias != q.items[k].alias
    ensures q.items[k].alias in VerbFrame(q, data, stats).value.columns
    ensures Cell(VerbFrame(q, data, stats).value.rows[i], q.items[k].alias)
      == Aggregate(q.items[k].agg, GroupRows(data, Groups(data)[i]), q.items[k].column, stats)
  {
    ItemsRowCell(q.items, GroupRows(data, Groups(data)[i]), stats, k);
    assert Aliases(q.items)[k] == q.items[k].alias;
  }

  // ---------------------------------------------------------------------------------------
  // One-hot encoding.

  /** At most this many values of a column are encoded (`LIMIT 100`). */
  const ONE_HOT_LIMIT: nat := 100

  /** A character `[a-zA-Z0-9_]` keeps in a column name. */
  predicate IsWordChar(ch: char) {
    ('a' <= ch <= 'z') || ('A' <= ch <= 'Z') || ('0' <= ch <= '9') || ch == '_'
  }

  /** `re.sub(r'[^a-zA-Z0-9_]', '_', s)`: every other character becomes `_`. */
  function Sanitize(s: string): (r: string)
    ensures |r| == |s|
    ensures forall i :: 0 <= i < |r| ==> IsWordChar(r[i])
    ensures forall i :: 0 <= i < |r| ==> (r[i] == s[i] <==> IsWordChar(s[i]))
  {
    seq(|s|, i requires 0 <= i < |s| => if IsWordChar(s[i]) then s[i] else '_')
  }

  /** Cleaning a cleaned name changes nothing. */
  lemma SanitizeIdempotent(s: string)
    ensures Sanitize(Sanitize(s)) == Sanitize(s)
  {
  }

  function ValueKey(v: Value): Key {
    [Some(v)]
  }

  /**
   * `SELECT DISTINCT c ... WHERE c IS NOT NULL ORDER BY c LIMIT 100`: the column's distinct
   * values in ascending order, the first hundred of them.
   */
  function OneHotValues(data: seq<Row>, c: string): seq<Value> {
    var sorted := SortBy(Distinct(NonNull(data, c)), ValueKey);
    if |sorted| <= ONE_HOT_LIMIT then sorted else sorted[..ONE_HOT_LIMIT]
  }

  /**
   * A leading run of an ascending ordering of distinct values holds distinct values of the
   * original, each no greater than any value it leaves out.
   */
  lemma SortedPrefixSmallest(d: seq<Value>, sorted: seq<Value>, k: nat)
    requires NoDuplicates(d) && multiset(sorted) == multiset(d) && SortedBy(sorted, ValueKey)
    requires k <= |sorted|
    ensures NoDuplicates(sorted[..k])
    ensures forall v :: v in sorted[..k] ==> v in d
    ensures forall v, w :: v in sorted[..k] && w in d && w !in sorted[..k] ==> KeyLe(ValueKey(v), ValueKey(w))
  {
    var p := sorted[..k];
    NoDuplicatesOfPermutation(d, sorted);
    forall v | v in p ensures v in d {
      assert v in multiset(sorted);
    }
    forall v, w | v in p && w in d && w !in p ensures KeyLe(ValueKey(v), ValueKey(w)) {
      assert w in multiset(sorted);
      var j :| 0 <= j < |sorted| && sorted[j] == w;
      var i :| 0 <= i < k && p[i] == v;
      assert sorted[i] == v;
    }
  }

  /**
   * The encoded values are distinct, ascending, each a value of the column, and at most a
   * hundred: every value of the column when it has no more than a hundred distinct values,
   * otherwise exactly the hundred smallest.
   */
  lemma OneHotValuesSpec(data: seq<Row>, c: string)
    ensures |OneHotValues(data, c)| <= ONE_HOT_LIMIT
    ensures NoDuplicates(OneHotValues(data, c))
    ensures SortedBy(OneHotValues(data, c), ValueKey)
    ensures forall v :: v in OneHotValues(data, c) ==> exists r :: r in data && Cell(r, c) == Some(v)
    ensures |Distinct(NonNull(data, c))| <= ONE_HOT_LIMIT ==>
      forall r :: r in data && Cell(r, c).Some? ==> Cell(r, c).value in OneHotValues(data, c)
    ensures |Distinct(NonNull(data, c))| > ONE_HOT_LIMIT ==> |OneHotValues(data, c)| == ONE_HOT_LIMIT
    ensures forall v, w :: v in OneHotValues(data, c) && w in NonNull(data, c) && w !in OneHotValues(data, c) ==>
      KeyLe(ValueKey(v), ValueKey(w))
  {
    var d := Distinct(NonNull(data, c));
    var sorted := SortBy(d, ValueKey);
    if |sorted| <= ONE_HOT_LIMIT {
      assert sorted[..|sorted|] == sorted;
      SortedPrefixSmallest(d, sorted, |sorted|);
      forall r | r in data && Cell(r, c).Some? ensures Cell(r, c).value in sorted {
        assert Cell(r, c).value in multiset(d);
      }
    } else {
      SortedPrefixSmallest(d, sorted, ONE_HOT_LIMIT);
    }
  }

  /** One indicator column: the column, the value it flags, and its name. */
  datatype Indicator = Indicator(column: string, value: Value, name: string)

  /** The indicator column's name: `<column>_<value cleaned>`. */
  function IndicatorName(c: string, v: Value): string {
    c + "_" + Sanitize(Render(v))
  }

  /** The indicators of one column, one per encoded value, in the values' order. */
  function ColumnIndicators(c: string, vs: seq<Value>): (inds: seq<Indicator>)
    ensures forall ind :: ind in inds ==> ind.column == c && ind.value in vs && ind.name == IndicatorName(c, ind.value)
    ensures forall v :: v in vs ==> Indicator(c, v, IndicatorName(c, v)) in inds
    decreases |vs|
  {
    if vs == [] then [] else [Indicator(c, vs[0], IndicatorName(c, vs[0]))] + ColumnIndicators(c, vs[1..])
  }

  /** The indicators of the valid one-hot columns, column by column, values ascending. */
  function Indicators(columns: seq<string>, data: seq<Row>): (inds: seq<Indicator>)
    ensures forall ind :: ind in inds ==> ind.column in columns && ind.value in OneHotValues(data, ind.column)
    ensures forall ind :: ind in inds ==> ind.name == IndicatorName(ind.column, ind.value)
    ensures forall c, v :: c in columns && v in OneHotValues(data, c) ==> Indicator(c, v, IndicatorName(c, v)) in inds
    decreases |columns|
  {
    if columns == [] then []
    else ColumnIndicators(columns[0], OneHotValues(data, columns[0])) + Indicators(columns[1..], data)
  }

  /** `MAX(CASE WHEN c = v THEN 1 ELSE 0 END)` over a group. */
  function Flag(rows: seq<Row>, c: string, v: Value): Option<Value> {
    Some(Num(if exists i :: 0 <= i < |rows| && Cell(rows[i], c) == Some(v) then 1 else 0))
  }

  function IndicatorsRow(inds: seq<Indicator>, rows: seq<Row>): Row
    decreases |inds|
  {
    if inds == [] then map[]
    else IndicatorsRow(inds[1..], rows)[inds[0].name := Flag(rows, inds[0].column, inds[0].value)]
  }

  lemma {:induction false} IndicatorsRowCell(inds: seq<Indicator>, rows: seq<Row>, k: nat)
    requires k < |inds|
    requires forall j :: 0 <= j < k ==> inds[j].name != inds[k].name
    ensures Cell(IndicatorsRow(inds, rows), inds[k].name) == Flag(rows, inds[k].column, inds[k].value)
    decreases k
  {
    if k > 0 {
      IndicatorsRowCell(inds[1..], rows, k - 1);
    }
  }

  /**
   * The one-hot query, when one is built: none when no valid column has a value. A timestamp
   * value is written into the query as Python prints it, which is not a literal the engine
   * accepts, so the query fails.
   */
  function OneHotFrame(columns: seq<string>, data: seq<Row>): (r: Option<Result<Table>>)
    ensures r.Some? && r.value.Ok? ==> |r.value.value.rows| == |Groups(data)|
  {
    var inds := Indicators(columns, data);
    var gs := Groups(data);
    if inds == [] then None
    else if exists ind :: ind in inds && ind.value.Time? then Some(Err(EngineError("one_hot_encode")))
    else
      Some(Ok(Table(seq(|inds|, k requires 0 <= k < |inds| => inds[k].name),
                    seq(|gs|, i requires 0 <= i < |gs| => IndicatorsRow(inds, GroupRows(data, gs[i]))))))
  }

  /**
   * An indicator of the one-hot result is 1 in an hour exactly when some row of that hour holds
   * its value, and 0 otherwise; its name is the column, `_`, and the value cleaned to word
   * characters.
   */
  lemma OneHotCell(columns: seq<string>, data: seq<Row>, i: nat, k: nat)
    requires OneHotFrame(columns, data).Some? && OneHotFrame(columns, data).value.Ok?
    requires i < |Groups(data)| && k < |Indicators(columns, data)|
    requires forall j :: 0 <= j < k ==> Indicators(columns, data)[j].name != Indicators(columns, data)[k].name
    ensures var ind := Indicators(columns, data)[k];
      && ind.name == ind.column + "_" + Sanitize(Render(ind.value))
      && (Cell(OneHotFrame(columns, data).value.value.rows[i], ind.name) == Some(Num(1)) <==>
          exists r :: r in data && GroupKey(r) == Groups(data)[i] && Cell(r, ind.column) == Some(ind.value))
      && (Cell(OneHotFrame(columns, data).value.value.rows[i], ind.name) == Some(Num(0)) <==>
          !exists r :: r in data && GroupKey(r) == Groups(data)[i] && Cell(r, ind.column) == Some(ind.value))
  {
    var inds := Indicators(columns, data);
    var ind := inds[k];
    var g := Groups(data)[i];
    assert ind in inds;
    assert OneHotFrame(columns, data).value.value.rows[i] == IndicatorsRow(inds, GroupRows(data, g));
    IndicatorsRowCell(inds, GroupRows(data, g), k);
    GroupFlag(data, g, ind.column, ind.value);
  }

  /** A group's flag for a value is set exactly when some row of the group holds it. */
  lemma GroupFlag(data: seq<Row>, g: Key, c: string, v: Value)
    ensures Flag(GroupRows(data, g), c, v) == Some(Num(1)) <==>
      exists r :: r in data && GroupKey(r) == g && Cell(r, c) == Some(v)
    ensures Flag(GroupRows(data, g), c, v) == Some(Num(0)) <==>
      !exists r :: r in data && GroupKey(r) == g && Cell(r, c) == Some(v)
  {
    var rows := GroupRows(data, g);
    GroupRowsMembers(data, g);
    if exists r :: r in data && GroupKey(r) == g && Cell(r, c) == Some(v) {
      var r :| r in data && GroupKey(r) == g && Cell(r, c) == Some(v);
      assert r in rows;
      var j :| 0 <= j < |rows| && rows[j] == r;
    } else {
      forall j | 0 <= j < |rows| ensures Cell(rows[j], c) != Some(v) {
        assert rows[j] in rows;
      }
    }
  }
}
