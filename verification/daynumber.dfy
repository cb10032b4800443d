/**
 * `day_number` and `hosp_id_day_key`: once the wide rows are sorted by (hospitalization_id,
 * event_time), each row's day number is the dense rank of its calendar date among the dates of
 * its encounter, and its day key names the encounter and that number.
 */
module DayNumbers {
  import opened Wrappers
  import opened Relational
  import opened Ordering
  import Text

  /** The calendar date of a timestamp, as a count of whole days since the epoch (UTC). */
  function Day(t: Timestamp): nat {
    t / 86400
  }

  /** A row as the ranking sees it: its encounter id and its date. */
  datatype Dated = Dated(id: Value, day: nat)

  /** The distinct dates of encounter `id` that are no later than `bound`. */
  function DaysUpTo(es: seq<Dated>, id: Value, bound: nat): set<nat> {
    set j | 0 <= j < |es| && es[j].id == id && es[j].day <= bound :: es[j].day
  }

  /**
   * `groupby('hospitalization_id')['date'].rank(method='dense')`: the number of distinct dates
   * of the row's encounter up to and including its own date.
   */
  function DenseRank(es: seq<Dated>, i: nat): (r: nat)
    requires i < |es|
    ensures r >= 1
  {
    assert es[i].day in DaysUpTo(es, es[i].id, es[i].day);
    |DaysUpTo(es, es[i].id, es[i].day)|
  }

  /**
   * What sorting by (id, time) guarantees: the rows of an encounter are contiguous, and within
   * an encounter dates never go down.
   */
  predicate Grouped(es: seq<Dated>) {
    && (forall i, j :: 0 <= i < j < |es| && es[i].id == es[j].id ==> es[i].day <= es[j].day)
    && (forall i, k, j :: 0 <= i < k < j < |es| && es[i].id == es[j].id ==> es[k].id == es[i].id)
  }

  /** The first row of each encounter gets day number 1. */
  lemma FirstRowIsDayOne(es: seq<Dated>, i: nat)
    requires Grouped(es) && i < |es|
    requires i == 0 || es[i - 1].id != es[i].id
    ensures DenseRank(es, i) == 1
  {
    var id, d := es[i].id, es[i].day;
    if i > 0 {
      var prev := es[i - 1];
      forall j | 0 <= j < i - 1 ensures es[j].id != id {
        assert es[j].id == id ==> prev.id == id;
      }
    }
    assert DaysUpTo(es, id, d) == {d};
  }

  /**
   * From one row to the next within an encounter the day number stays the same when the date
   * does and rises by exactly one when it does not: it never decreases and never skips.
   */
  lemma NextRowDayNumber(es: seq<Dated>, i: nat)
    requires Grouped(es) && 0 < i < |es|
    requires es[i - 1].id == es[i].id
    ensures DenseRank(es, i) == DenseRank(es, i - 1) + (if es[i - 1].day == es[i].day then 0 else 1)
  {
    var id, d1, d2 := es[i].id, es[i - 1].day, es[i].day;
    var s1, s2 := DaysUpTo(es, id, d1), DaysUpTo(es, id, d2);
    assert d1 <= d2;
    forall j | 0 <= j < |es| && es[j].id == id
      ensures es[j].day <= d1 || es[j].day >= d2
    {
      if j < i - 1 {
        assert es[j].day <= es[i - 1].day;
      } else if j > i {
        assert es[i].day <= es[j].day;
      }
    }
    if d1 == d2 {
      assert s1 == s2;
    } else {
      assert d2 in s2;
      assert s2 == s1 + {d2};
      assert d2 !in s1;
    }
  }

  /** The rank starts at 1 and grows by at most 1 per row: it never exceeds the row's position in its encounter. */
  lemma {:induction false} DayNumberAtMostPosition(es: seq<Dated>, first: nat, i: nat)
    requires Grouped(es) && first <= i < |es|
    requires first == 0 || es[first - 1].id != es[first].id
    requires forall k :: first <= k <= i ==> es[k].id == es[first].id
    ensures 1 <= DenseRank(es, i) <= i - first + 1
    decreases i - first
  {
    if i == first {
      FirstRowIsDayOne(es, i);
    } else {
      DayNumberAtMostPosition(es, first, i - 1);
      NextRowDayNumber(es, i);
    }
  }

  /** `hospitalization_id.astype(str) + '_day_' + day_number.astype(str)`. */
  function DayKey(id: Value, dayNumber: nat): string {
    Render(id) + "_day_" + Text.Digits(dayNumber)
  }

  /** Two day keys are equal exactly when they name the same encounter text and the same day number. */
  lemma DayKeyInjective(a: Value, m: nat, b: Value, n: nat)
    ensures DayKey(a, m) == DayKey(b, n) <==> Render(a) == Render(b) && m == n
  {
    Text.DigitsInjective(m, n);
    Text.SplitAtSeparator(Render(a), Text.Digits(m), Render(b), Text.Digits(n), "_day_");
  }

  /** The sort key of the wide rows: (hospitalization_id, event_time). */
  function SortKey(r: Row): Key {
    [Cell(r, "hospitalization_id"), Cell(r, "event_time")]
  }

  /** A row's date, when it has a non-NULL id and a timestamp event time. */
  function DatedOf(r: Row): Option<Dated> {
    match (Cell(r, "hospitalization_id"), TimeOf(Cell(r, "event_time")))
    case (Some(id), Some(t)) => Some(Dated(id, Day(t)))
    case _ => None
  }

  lemma KeyLeHead(x: Option<Value>, p: Option<Value>, y: Option<Value>, q: Option<Value>)
    ensures KeyLe([x, p], [y, q]) ==> x == y || CellLe(x, y)
  {
  }

  /**
   * Rows sorted by (id, event_time) are grouped by encounter with dates in order, which is what
   * the day-number lemmas above assume.
   */
  lemma SortedRowsAreGrouped(rows: seq<Row>, es: seq<Dated>)
    requires |es| == |rows|
    requires forall i :: 0 <= i < |rows| ==> DatedOf(rows[i]) == Some(es[i])
    requires forall i, j :: 0 <= i < j < |rows| ==> KeyLe(SortKey(rows[i]), SortKey(rows[j]))
    ensures Grouped(es)
  {
    forall i, j | 0 <= i < j < |es| && es[i].id == es[j].id ensures es[i].day <= es[j].day {
      var ti, tj := TimeOf(Cell(rows[i], "event_time")).value, TimeOf(Cell(rows[j], "event_time")).value;
      KeyLeSecond(Cell(rows[i], "hospitalization_id"), Cell(rows[i], "event_time"), Cell(rows[j], "event_time"));
      assert ti <= tj;
    }
    forall i, k, j | 0 <= i < k < j < |es| && es[i].id == es[j].id ensures es[k].id == es[i].id {
      var a, b, c := Cell(rows[i], "hospitalization_id"), Cell(rows[k], "hospitalization_id"), Cell(rows[j], "hospitalization_id");
      KeyLeHead(a, Cell(rows[i], "event_time"), b, Cell(rows[k], "event_time"));
      KeyLeHead(b, Cell(rows[k], "event_time"), c, Cell(rows[j], "event_time"));
      CellLeAntisymmetric(a, b);
    }
  }
}
