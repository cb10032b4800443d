/**
 * The two tables the hourly aggregation builds before it groups: `hourly_base`, each wide row
 * with the hour it falls in and its hour of day, and `hourly_data`, those rows joined with the
 * first hour of their encounter to number the hours from zero.
 */
module HourlyRows {
  import opened Wrappers
  import opened Relational

  const HID := "hospitalization_id"
  const SECONDS_PER_HOUR: nat := 3600
  const SECONDS_PER_DAY: nat := 86400

  /** `date_trunc('hour', t)`: the start of the hour `t` falls in (time zones are not modelled). */
  function HourStart(t: Timestamp): (h: Timestamp)
    ensures h <= t < h + SECONDS_PER_HOUR
    ensures h % SECONDS_PER_HOUR == 0
  {
    t - t % SECONDS_PER_HOUR
  }

  /** `EXTRACT(hour FROM t)`: the hour of the day, 0 to 23. */
  function HourOfDay(t: Timestamp): (h: nat)
    ensures h < 24
  {
    (t % SECONDS_PER_DAY) / SECONDS_PER_HOUR
  }

  /** The hour of day is the index of the hour since the epoch, modulo 24. */
  lemma HourOfDayOfIndex(t: Timestamp)
    ensures HourOfDay(t) == (t / SECONDS_PER_HOUR) % 24
  {
    var h := t / SECONDS_PER_HOUR;
    var r := t % SECONDS_PER_HOUR;
    var d := h / 24;
    assert t == (d * 24 + h % 24) * SECONDS_PER_HOUR + r;
    assert t == d * SECONDS_PER_DAY + ((h % 24) * SECONDS_PER_HOUR + r);
    assert 0 <= (h % 24) * SECONDS_PER_HOUR + r < SECONDS_PER_DAY;
  }

  /** Every instant of an hour has that hour's hour of day. */
  lemma HourOfDayOfStart(t: Timestamp)
    ensures HourOfDay(HourStart(t)) == HourOfDay(t)
  {
    HourOfDayOfIndex(t);
    HourOfDayOfIndex(HourStart(t));
    assert HourStart(t) / SECONDS_PER_HOUR == t / SECONDS_PER_HOUR;
  }

  /** The hour a row's event falls in, or None when its event time is NULL. */
  function EventHour(r: Row): Option<Timestamp> {
    match TimeOf(Cell(r, "event_time"))
    case Some(t) => Some(HourStart(t))
    case None => None
  }

  /** A row of `hourly_base`: the wide row with `event_time_hour` and `hour_bucket`. */
  function Bucketed(r: Row): Row {
    match TimeOf(Cell(r, "event_time"))
    case Some(t) => r["event_time_hour" := Some(Time(HourStart(t)))]["hour_bucket" := Some(Num(HourOfDay(t)))]
    case None => r["event_time_hour" := None]["hour_bucket" := None]
  }

  /** The event hours of the rows of encounter `id`, in row order. */
  function HoursOf(rows: seq<Row>, id: Value): (hs: seq<Timestamp>)
    ensures forall h :: h in hs <==> exists r :: r in rows && Cell(r, HID) == Some(id) && EventHour(r) == Some(h)
    decreases |rows|
  {
    if rows == [] then []
    else
      assert forall r :: r in rows <==> r == rows[0] || r in rows[1..];
      (if Cell(rows[0], HID) == Some(id) && EventHour(rows[0]).Some? then [EventHour(rows[0]).value] else [])
      + HoursOf(rows[1..], id)
  }

  /** The least element of a non-empty sequence. */
  function Least(hs: seq<Timestamp>): (m: Timestamp)
    requires hs != []
    ensures m in hs && forall h :: h in hs ==> m <= h
    decreases |hs|
  {
    if |hs| == 1 then hs[0]
    else
      var rest := Least(hs[1..]);
      assert forall h :: h in hs ==> h == hs[0] || h in hs[1..];
      if hs[0] <= rest then hs[0] else rest
  }

  /**
   * `first_events`: `MIN(event_time_hour)` over the encounter's rows; NULL when none of them
   * has an event time.
   */
  function FirstHour(rows: seq<Row>, id: Value): Option<Timestamp> {
    var hs := HoursOf(rows, id);
    if hs == [] then None else Some(Least(hs))
  }

  /** The earliest event hour of an encounter is one of its hours, and no hour of it is earlier. */
  lemma FirstHourIsLeast(rows: seq<Row>, r: Row)
    requires r in rows && Cell(r, HID).Some? && EventHour(r).Some?
    ensures FirstHour(rows, Cell(r, HID).value).Some?
    ensures FirstHour(rows, Cell(r, HID).value).value <= EventHour(r).value
    ensures exists s :: s in rows && Cell(s, HID) == Cell(r, HID) && EventHour(s) == FirstHour(rows, Cell(r, HID).value)
  {
    assert EventHour(r).value in HoursOf(rows, Cell(r, HID).value);
  }

  /**
   * `nth_hour`: whole hours from the encounter's first event hour to this row's, cast to an
   * integer; NULL when either hour is NULL.
   */
  function NthHour(rows: seq<Row>, r: Row): Option<Value> {
    var id, h := Cell(r, HID), EventHour(r);
    if id.None? || h.None? then None
    else
      match FirstHour(rows, id.value)
      case Some(f) => Some(Num(HoursBetween(f, h.value)))
      case None => None
  }

  /** Whole hours from `f` to `h`, truncated as the cast to an integer truncates. */
  function HoursBetween(f: Timestamp, h: Timestamp): int {
    (h - f) / SECONDS_PER_HOUR
  }

  /** A row of `hourly_data`. */
  function HourlyRow(rows: seq<Row>, r: Row): Row {
    Bucketed(r)["nth_hour" := NthHour(rows, r)]
  }

  /**
   * `hourly_data`: the `hourly_base` rows joined on `hospitalization_id` with the first hours,
   * an inner join that drops the rows whose encounter id is NULL. `all` is the whole frame the
   * first hours are taken over.
   */
  function Joined(all: seq<Row>, rows: seq<Row>): (data: seq<Row>)
    ensures |data| <= |rows|
    decreases |rows|
  {
    if rows == [] then []
    else (if Cell(rows[0], HID).Some? then [HourlyRow(all, rows[0])] else []) + Joined(all, rows[1..])
  }

  /** Every wide row with an encounter id has its row in `hourly_data`. */
  lemma {:induction false} JoinedKeeps(all: seq<Row>, rows: seq<Row>, r: Row)
    requires r in rows && Cell(r, HID).Some?
    ensures HourlyRow(all, r) in Joined(all, rows)
    decreases |rows|
  {
    if rows[0] != r {
      JoinedKeeps(all, rows[1..], r);
    }
  }

  /** Every row of `hourly_data` comes from a wide row with an encounter id. */
  lemma {:induction false} JoinedFrom(all: seq<Row>, rows: seq<Row>, d: Row)
    requires d in Joined(all, rows)
    ensures exists r :: r in rows && Cell(r, HID).Some? && d == HourlyRow(all, r)
    decreases |rows|
  {
    var head := if Cell(rows[0], HID).Some? then [HourlyRow(all, rows[0])] else [];
    assert Joined(all, rows) == head + Joined(all, rows[1..]);
    if d !in head {
      JoinedFrom(all, rows[1..], d);
      var r :| r in rows[1..] && Cell(r, HID).Some? && d == HourlyRow(all, r);
      assert r in rows;
    }
  }

  function HourlyData(rows: seq<Row>): seq<Row> {
    Joined(rows, rows)
  }

  /** The columns `hourly_data` adds to the wide frame's. */
  const ADDED_COLUMNS: seq<string> := ["event_time_hour", "hour_bucket", "nth_hour"]

  /** An `hourly_data` row keeps its wide row's id and every column the stage does not add. */
  lemma HourlyRowKeeps(rows: seq<Row>, r: Row, c: string)
    requires c !in ADDED_COLUMNS
    ensures Cell(HourlyRow(rows, r), c) == Cell(r, c)
  {
  }

  /**
   * `nth_hour` counts hours: for a row with an id and an event time it is a whole number `n`
   * of hours with `event_time_hour == first_event_hour + n * 3600`, never negative.
   */
  lemma NthHourCounts(rows: seq<Row>, r: Row)
    requires r in rows && Cell(r, HID).Some? && EventHour(r).Some?
    ensures var f := FirstHour(rows, Cell(r, HID).value);
      && f.Some?
      && NthHour(rows, r).Some? && NthHour(rows, r).value.Num?
      && NthHour(rows, r).value.n >= 0
      && EventHour(r).value == f.value + NthHour(rows, r).value.n * SECONDS_PER_HOUR
  {
    FirstHourIsLeast(rows, r);
    var id := Cell(r, HID).value;
    var h := EventHour(r).value;
    var f := FirstHour(rows, id).value;
    assert f in HoursOf(rows, id);
    var s :| s in rows && Cell(s, HID) == Some(id) && EventHour(s) == Some(f);
    EventHourAligned(r);
    EventHourAligned(s);
    WholeHours(h, f);
    assert NthHour(rows, r) == Some(Num(HoursBetween(f, h)));
  }

  /** An event hour is the start of an hour. */
  lemma EventHourAligned(r: Row)
    requires EventHour(r).Some?
    ensures EventHour(r).value % SECONDS_PER_HOUR == 0
  {
    assert EventHour(r).value == HourStart(TimeOf(Cell(r, "event_time")).value);
  }

  /** `event_time_hour` and `hour_bucket` of a timed row: its hour and that hour's hour of day. */
  lemma HourColumns(rows: seq<Row>, r: Row)
    requires EventHour(r).Some?
    ensures Cell(HourlyRow(rows, r), "event_time_hour") == Some(Time(EventHour(r).value))
    ensures Cell(HourlyRow(rows, r), "hour_bucket") == Some(Num(HourOfDay(EventHour(r).value)))
  {
    HourOfDayOfStart(TimeOf(Cell(r, "event_time")).value);
  }

  /** Two hour starts are a whole number of hours apart. */
  lemma WholeHours(h: Timestamp, f: Timestamp)
    requires f <= h
    requires h % SECONDS_PER_HOUR == 0 && f % SECONDS_PER_HOUR == 0
    ensures HoursBetween(f, h) >= 0
    ensures h == f + HoursBetween(f, h) * SECONDS_PER_HOUR
  {
    var a := h / SECONDS_PER_HOUR;
    var b := f / SECONDS_PER_HOUR;
    assert h == a * SECONDS_PER_HOUR && f == b * SECONDS_PER_HOUR;
    assert h - f == (a - b) * SECONDS_PER_HOUR;
  }

  /** A row whose event time is NULL has NULL hour columns. */
  lemma UntimedRowHasNoHour(rows: seq<Row>, r: Row)
    requires EventHour(r).None?
    ensures Cell(HourlyRow(rows, r), "event_time_hour") == None
    ensures Cell(HourlyRow(rows, r), "hour_bucket") == None
    ensures Cell(HourlyRow(rows, r), "nth_hour") == None
  {
  }

  /** Every encounter with a timed row has a row at `nth_hour` 0: its first hour. */
  lemma FirstHourIsHourZero(rows: seq<Row>, r: Row)
    requires r in rows && Cell(r, HID).Some? && EventHour(r).Some?
    ensures exists d :: d in HourlyData(rows) && Cell(d, HID) == Cell(r, HID) && Cell(d, "nth_hour") == Some(Num(0))
  {
    FirstHourIsLeast(rows, r);
    var f := FirstHour(rows, Cell(r, HID).value);
    var s :| s in rows && Cell(s, HID) == Cell(r, HID) && EventHour(s) == f;
    NthHourOf(rows, s, Cell(r, HID).value, f.value, f.value);
    var d := HourlyRow(rows, s);
    HourlyRowKeeps(rows, s, HID);
    JoinedKeeps(rows, rows, s);
    assert d in HourlyData(rows) && Cell(d, HID) == Cell(r, HID) && Cell(d, "nth_hour") == Some(Num(0));
  }

  /** The `nth_hour` cell of a row whose id, hour and first hour are known. */
  lemma NthHourOf(rows: seq<Row>, r: Row, id: Value, h: Timestamp, f: Timestamp)
    requires Cell(r, HID) == Some(id) && EventHour(r) == Some(h) && FirstHour(rows, id) == Some(f)
    ensures Cell(HourlyRow(rows, r), "nth_hour") == Some(Num(HoursBetween(f, h)))
  {
    assert NthHour(rows, r) == Some(Num(HoursBetween(f, h)));
    NthHourCell(rows, r);
  }

  /** The `nth_hour` cell of an `hourly_data` row is the row's hour number. */
  lemma NthHourCell(rows: seq<Row>, r: Row)
    ensures Cell(HourlyRow(rows, r), "nth_hour") == NthHour(rows, r)
  {
    var b := Bucketed(r);
    assert HourlyRow(rows, r) == b["nth_hour" := NthHour(rows, r)];
  }

  /** `hourly_data` has no row with a NULL encounter id, and one row per wide row that has one. */
  lemma HourlyDataIds(rows: seq<Row>)
    ensures forall d :: d in HourlyData(rows) ==> Cell(d, HID).Some?
    ensures forall r :: r in rows && Cell(r, HID).Some? ==> HourlyRow(rows, r) in HourlyData(rows)
  {
    forall d | d in HourlyData(rows) ensures Cell(d, HID).Some? {
      JoinedFrom(rows, rows, d);
      var r :| r in rows && Cell(r, HID).Some? && d == HourlyRow(rows, r);
      HourlyRowKeeps(rows, r, HID);
    }
    forall r | r in rows && Cell(r, HID).Some? ensures HourlyRow(rows, r) in HourlyData(rows) {
      JoinedKeeps(rows, rows, r);
    }
  }
}
