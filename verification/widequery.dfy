/**
 * `_create_wide_dataset` read against the session catalog: the event-time union, the expanded
 * cohort, the LEFT JOINs on `combo_id` to ADT, to each pivoted table and to each wide table,
 * the select list grown after `SELECT ec.*`, and the pandas post-processing of the result.
 */
module WideQuery {
  import opened Wrappers
  import opened Relational
  import opened Timestamps
  import opened CategoryFilters
  import opened Pivot
  import opened Events
  import opened Joins
  import opened DayNumbers
  import opened WidePost
  import opened Ordering

  /** The catalog of the session: table name to table. */
  type Catalog = map<string, Table>

  /** The `combo_id` cell of a pivoted row. */
  function ComboCell(k: Option<string>): Option<Value> {
    match k
    case Some(s) => Some(Str(s))
    case None => None
  }

  /** The pivoted table as the catalog stores it: `combo_id`, then one column per category. */
  function PivotedAsTable(pv: Pivoted): (t: Table)
    ensures t.columns == ["combo_id"] + pv.categories && |t.rows| == |pv.rows|
    ensures forall i :: 0 <= i < |pv.rows| ==> ComboOf(t.rows[i]) == pv.rows[i].combo
  {
    Table(["combo_id"] + pv.categories,
      seq(|pv.rows|, i requires 0 <= i < |pv.rows| => pv.rows[i].cells["combo_id" := ComboCell(pv.rows[i].combo)]))
  }

  /** `[alias.c for c in columns if c not in excluded]`, in column order. */
  function Refs(alias: string, columns: seq<string>, excluded: seq<string>): (r: seq<ColRef>)
    ensures forall x :: x in r <==> x.alias == alias && x.column in columns && x.column !in excluded
    decreases |columns|
  {
    if columns == [] then []
    else
      assert forall c :: c in columns <==> c == columns[0] || c in columns[1..];
      (if columns[0] in excluded then [] else [ColRef(alias, columns[0])]) + Refs(alias, columns[1..], excluded)
  }

  /** The rows of `rows` whose `tsCol` is a timestamp, keyed by `id || '_' || strftime(tsCol)`. */
  function KeyedOn(rows: seq<Row>, tsCol: string): (kr: seq<KeyedRow>)
    ensures forall x :: x in kr <==> exists r :: r in rows && TimeOf(Cell(r, tsCol)).Some? && x == KeyedRow(RowCombo(r, tsCol), r)
    decreases |rows|
  {
    if rows == [] then []
    else
      var init, last := rows[..|rows| - 1], rows[|rows| - 1];
      assert forall r :: r in rows <==> r in init || r == last;
      KeyedOn(init, tsCol) + (if TimeOf(Cell(last, tsCol)).Some? then [KeyedRow(RowCombo(last, tsCol), last)] else [])
  }

  /** The rows of a stored table keyed by their own `combo_id`. */
  function KeyedByCombo(rows: seq<Row>): (kr: seq<KeyedRow>)
    ensures |kr| == |rows|
    ensures forall i :: 0 <= i < |rows| ==> kr[i] == KeyedRow(ComboOf(rows[i]), rows[i])
  {
    seq(|rows|, i requires 0 <= i < |rows| => KeyedRow(ComboOf(rows[i]), rows[i]))
  }

  /** The select group and the join of one table: a group may be selected while its join is absent. */
  datatype Part = Part(group: seq<ColRef>, side: Option<Side>)

  /** The ADT columns besides `hospitalization_id`, and the join `adt_combo` on the rows with an `in_dttm`. */
  function AdtPart(adt: Table): Part {
    Part(Refs("adt_combo", adt.columns, ["hospitalization_id"]), Some(Side("adt_combo", KeyedOn(adt.rows, "in_dttm"))))
  }

  /** One pivoted table: its category columns, joined on its `combo_id`. */
  function PivotPart(name: string, t: Table): Part {
    Part(Refs(name, t.columns, ["combo_id"]), Some(Side(name, KeyedByCombo(t.rows))))
  }

  /**
   * One wide table: the select list takes the raw columns besides the id and the primary
   * timestamp whenever there are any; the join is added only when that timestamp is a column.
   */
  function WidePart(table: string, raw: Table): Option<Part> {
    match PrimaryTimestamp(table)
    case None => None
    case Some(ts) =>
      var cols := Refs(table + "_combo", raw.columns, ["hospitalization_id", ts]);
      var side := if ts in raw.columns && cols != [] then Some(Side(table + "_combo", KeyedOn(raw.rows, ts))) else None;
      Some(Part(cols, side))
  }

  /** The parts of the pivoted tables, in the order they were registered. */
  function PivotParts(catalog: Catalog, pivoted: seq<string>): Result<seq<Part>>
    decreases |pivoted|
  {
    if pivoted == [] then Ok([])
    else
      var name := pivoted[0] + "_pivoted";
      if name !in catalog then Err(EngineError("Table with name " + name + " does not exist"))
      else
        match PivotParts(catalog, pivoted[1..])
        case Err(e) => Err(e)
        case Ok(rest) => Ok([PivotPart(name, catalog[name])] + rest)
  }

  /** The parts of the loaded tables that are neither pivoted nor missing their raw table, in load order. */
  function WideParts(catalog: Catalog, tables: seq<string>, raw: seq<string>): Result<seq<Part>>
    decreases |tables|
  {
    if tables == [] then Ok([])
    else
      var name := tables[0];
      match WideParts(catalog, tables[1..], raw)
      case Err(e) => Err(e)
      case Ok(rest) =>
        if name in PIVOT_TABLES || name !in raw then Ok(rest)
        else if name + "_raw" !in catalog then Err(EngineError("Table with name " + name + "_raw does not exist"))
        else
          match WidePart(name, catalog[name + "_raw"])
          case None => Ok(rest)
          case Some(p) => Ok([p] + rest)
  }

  function Groups(parts: seq<Part>): (g: seq<seq<ColRef>>)
    ensures |g| == |parts| && forall i :: 0 <= i < |parts| ==> g[i] == parts[i].group
  {
    seq(|parts|, i requires 0 <= i < |parts| => parts[i].group)
  }

  /** The joins of the parts, in query order. */
  function Sides(parts: seq<Part>): seq<Side>
    decreases |parts|
  {
    if parts == [] then []
    else (match parts[0].side case Some(s) => [s] case None => []) + Sides(parts[1..])
  }

  /** Every selected group has its join: otherwise the query names an alias it never joins. */
  predicate Joined(parts: seq<Part>) {
    forall i :: 0 <= i < |parts| ==> parts[i].group == [] || parts[i].side.Some?
  }

  /** The select items of `ec.*`. */
  function EcItems(columns: seq<string>): (items: seq<ColRef>)
    ensures |items| == |columns|
    ensures forall i :: 0 <= i < |columns| ==> items[i] == ColRef("ec", columns[i])
  {
    seq(|columns|, i requires 0 <= i < |columns| => ColRef("ec", columns[i]))
  }

  /** The expanded-cohort rows before any join. */
  function Start(ec: seq<Row>): (cs: seq<Combined>)
    ensures |cs| == |ec| && forall i :: 0 <= i < |ec| ==> cs[i] == Combined(ec[i], map[])
  {
    seq(|ec|, i requires 0 <= i < |ec| => Combined(ec[i], map[]))
  }

  /** The result rows read through the select list. */
  function Projected(joined: seq<Combined>, items: seq<ColRef>): (rows: seq<seq<Option<Value>>>)
    ensures |rows| == |joined| && forall k :: 0 <= k < |joined| ==> rows[k] == Joins.Project(joined[k], items)
  {
    seq(|joined|, k requires 0 <= k < |joined| => Joins.Project(joined[k], items))
  }

  /** The whole list of parts: ADT first, then the pivoted tables, then the wide tables. */
  function AllParts(catalog: Catalog, pivoted: seq<string>, raw: seq<string>, filters: Filters): Result<seq<Part>> {
    var adt := if "adt" in catalog then [AdtPart(catalog["adt"])] else [];
    match PivotParts(catalog, pivoted)
    case Err(e) => Err(e)
    case Ok(ps) =>
      match WideParts(catalog, Tables(filters), raw)
      case Err(e) => Err(e)
      case Ok(ws) => Ok(adt + ps + ws)
  }

  /** What the engine returns for the main query, before the pandas post-processing. */
  function JoinResult(catalog: Catalog, sources: seq<EventSource>, parts: seq<Part>): Table
    requires "base_cohort" in catalog && SourcesPresent(catalog, sources)
  {
    var base := catalog["base_cohort"];
    var ec := ExpandedCohort(base.rows, AllEvents(catalog, sources));
    var items := EcItems(EcColumns(base)) + InsertedAfterStar(Groups(parts));
    var joined := JoinAll(Start(ec), Sides(parts));
    DropDuplicateColumns(Header(items), Projected(joined, items))
  }

  /** The pandas steps after the query: day columns, requested-but-missing columns, then the drop. */
  function PostProcess(t: Table, filters: Filters): Result<Table> {
    match AddDayColumns(t)
    case Err(e) => Err(e)
    case Ok(u) => Ok(DropColumns(AddMissing(u, filters, Tables(filters)), ["combo_id", "date"]))
  }

  /**
   * `_create_wide_dataset`. An engine error when a table the query reads is missing, when ADT
   * lacks `in_dttm` (its join reads it unconditionally), or when a selected wide-table group
   * has no join.
   */
  function WideResult(catalog: Catalog, sources: seq<EventSource>, pivoted: seq<string>, raw: seq<string>,
                      filters: Filters): Result<Table>
  {
    if "base_cohort" !in catalog || !SourcesPresent(catalog, sources) then Err(EngineError("Table does not exist"))
    else if "adt" in catalog && "in_dttm" !in catalog["adt"].columns then Err(EngineError("Referenced column in_dttm not found"))
    else
      match AllParts(catalog, pivoted, raw, filters)
      case Err(e) => Err(e)
      case Ok(parts) =>
        if !Joined(parts) then Err(EngineError("Referenced table not found"))
        else PostProcess(JoinResult(catalog, sources, parts), filters)
  }

  // ---------------------------------------------------------------------------------------
  // Properties of the query.

  /** A pivoted table has one row per combo key, so its rows have unique keys. */
  lemma PivotedKeysUnique(pv: Pivoted)
    requires NoDuplicates(RowCombos(pv.rows))
    ensures UniqueKeys(KeyedByCombo(PivotedAsTable(pv).rows))
  {
    var t := PivotedAsTable(pv);
    var kr := KeyedByCombo(t.rows);
    forall i, j | 0 <= i < j < |kr| && kr[i].combo.Some? ensures kr[i].combo != kr[j].combo {
      assert kr[i].combo == RowCombos(pv.rows)[i] && kr[j].combo == RowCombos(pv.rows)[j];
    }
  }

  /**
   * LEFT JOINing the expanded cohort to a pivoted table neither adds nor removes rows: row for
   * row, the expanded cohort comes back in order.
   */
  lemma PivotJoinKeepsRows(cs: seq<Combined>, name: string, pv: Pivoted)
    requires NoDuplicates(RowCombos(pv.rows))
    ensures |LeftJoin(cs, PivotPart(name, PivotedAsTable(pv)).side.value)| == |cs|
    ensures forall i :: 0 <= i < |cs| ==> LeftJoin(cs, PivotPart(name, PivotedAsTable(pv)).side.value)[i].ec == cs[i].ec
  {
    PivotedKeysUnique(pv);
    LeftJoinUniquePreservesRows(cs, PivotPart(name, PivotedAsTable(pv)).side.value);
  }

  /** Every joined row extends some expanded-cohort row. */
  lemma {:induction false} JoinAllRowsFromCohort(cs: seq<Combined>, sides: seq<Side>)
    ensures forall o :: o in JoinAll(cs, sides) ==> exists c :: c in cs && o.ec == c.ec
    decreases |sides|
  {
    if sides != [] {
      var next := LeftJoin(cs, sides[0]);
      JoinAllRowsFromCohort(next, sides[1..]);
      forall o | o in JoinAll(cs, sides) ensures exists c :: c in cs && o.ec == c.ec {
        var m :| m in next && o.ec == m.ec;
        var c :| c in cs && m in Extend(c, sides[0]);
        assert m.ec == c.ec;
      }
    }
  }

  /** A column of `ec.*` is first found among the `ec.*` items, ahead of every inserted group. */
  lemma EcColumnFirst(columns: seq<string>, inserted: seq<ColRef>, c: string)
    requires c in columns
    ensures c in Header(EcItems(columns) + inserted)
    ensures FirstIndex(Header(EcItems(columns) + inserted), c) == FirstIndex(columns, c)
  {
    var h := Header(EcItems(columns) + inserted);
    var i := FirstIndex(columns, c);
    assert h[i] == c;
    assert forall j :: 0 <= j < i ==> h[j] == columns[j];
    FirstIndexAt(h, c, i);
  }

  lemma FirstIndexAt(s: seq<string>, x: string, i: nat)
    requires i < |s| && s[i] == x && forall j :: 0 <= j < i ==> s[j] != x
    ensures x in s && FirstIndex(s, x) == i
  {
    var k := FirstIndex(s, x);
    assert s[i] == x && s[k] == x;
  }

  /** An `ec.*` column of a joined row reads, after the dedup, the expanded-cohort value. */
  lemma ProjectedEcColumn(o: Combined, columns: seq<string>, inserted: seq<ColRef>, c: string)
    requires c in columns
    ensures c in Header(EcItems(columns) + inserted)
    ensures At(Joins.Project(o, EcItems(columns) + inserted), FirstIndex(Header(EcItems(columns) + inserted), c)) == Cell(o.ec, c)
  {
    EcColumnFirst(columns, inserted, c);
    var i := FirstIndex(columns, c);
    assert (EcItems(columns) + inserted)[i] == ColRef("ec", c);
  }

  /** An expanded-cohort row carries an id and a timestamp event time. */
  lemma CohortRowDated(base: seq<Row>, events: seq<Event>, r: Row)
    requires r in ExpandedCohort(base, events)
    ensures Cell(r, "hospitalization_id").Some? && TimeOf(Cell(r, "event_time")).Some?
  {
    ExpandedRowsKeyed(base, events, r);
  }

  /** The dedup keeps, for each row, the value at the first position of each name. */
  lemma DedupDated(header: seq<string>, rows: seq<seq<Option<Value>>>)
    requires "hospitalization_id" in header && "event_time" in header
    requires forall k :: 0 <= k < |rows| ==> At(rows[k], FirstIndex(header, "hospitalization_id")).Some?
    requires forall k :: 0 <= k < |rows| ==> TimeOf(At(rows[k], FirstIndex(header, "event_time"))).Some?
    ensures forall k :: 0 <= k < |rows| ==> DatedOf(DropDuplicateColumns(header, rows).rows[k]).Some?
  {
  }

  /** A joined row read through the select list shows its expanded-cohort id and event time. */
  lemma JoinedRowDated(base: seq<Row>, events: seq<Event>, o: Combined, columns: seq<string>, inserted: seq<ColRef>)
    requires exists c :: c in Start(ExpandedCohort(base, events)) && o.ec == c.ec
    requires "hospitalization_id" in columns && "event_time" in columns
    ensures "hospitalization_id" in Header(EcItems(columns) + inserted) && "event_time" in Header(EcItems(columns) + inserted)
    ensures At(Joins.Project(o, EcItems(columns) + inserted), FirstIndex(Header(EcItems(columns) + inserted), "hospitalization_id")).Some?
    ensures TimeOf(At(Joins.Project(o, EcItems(columns) + inserted), FirstIndex(Header(EcItems(columns) + inserted), "event_time"))).Some?
  {
    var ec := ExpandedCohort(base, events);
    var c :| c in Start(ec) && o.ec == c.ec;
    var i :| 0 <= i < |Start(ec)| && Start(ec)[i] == c;
    CohortRowDated(base, events, ec[i]);
    ProjectedEcColumn(o, columns, inserted, "hospitalization_id");
    ProjectedEcColumn(o, columns, inserted, "event_time");
  }

  /**
   * Every row the query returns holds its expanded-cohort id (never NULL) and event time, as
   * its `hospitalization_id` and `event_time` columns: the dedup keeps the `ec.*` copies.
   */
  lemma JoinRowsDated(catalog: Catalog, sources: seq<EventSource>, parts: seq<Part>)
    requires "base_cohort" in catalog && SourcesPresent(catalog, sources)
    requires "hospitalization_id" in catalog["base_cohort"].columns
    ensures forall k :: 0 <= k < |JoinResult(catalog, sources, parts).rows| ==>
              DatedOf(JoinResult(catalog, sources, parts).rows[k]).Some?
  {
    var base := catalog["base_cohort"];
    var events := AllEvents(catalog, sources);
    var ec := ExpandedCohort(base.rows, events);
    var columns := EcColumns(base);
    var inserted := InsertedAfterStar(Groups(parts));
    var items := EcItems(columns) + inserted;
    var joined := JoinAll(Start(ec), Sides(parts));
    var rows := Projected(joined, items);
    JoinAllRowsFromCohort(Start(ec), Sides(parts));
    EcColumnFirst(columns, inserted, "hospitalization_id");
    EcColumnFirst(columns, inserted, "event_time");
    forall k | 0 <= k < |rows|
      ensures At(rows[k], FirstIndex(Header(items), "hospitalization_id")).Some?
      ensures TimeOf(At(rows[k], FirstIndex(Header(items), "event_time"))).Some?
    {
      assert joined[k] in joined;
      JoinedRowDated(base.rows, events, joined[k], columns, inserted);
    }
    DedupDated(Header(items), rows);
  }

  /** The day-number step of the wide path never fails: every returned row has an id and an event time. */
  lemma DayColumnsNeverFail(catalog: Catalog, sources: seq<EventSource>, parts: seq<Part>)
    requires "base_cohort" in catalog && SourcesPresent(catalog, sources)
    requires "hospitalization_id" in catalog["base_cohort"].columns
    ensures AddDayColumns(JoinResult(catalog, sources, parts)).Ok?
  {
    JoinRowsDated(catalog, sources, parts);
  }

  /** The columns the day-numbering properties read. */
  const NUMBERING_COLUMNS: seq<string> := ["hospitalization_id", "event_time", "day_number", "hosp_id_day_key"]

  /** Row for row, `b` holds what `a` holds in the numbering columns. */
  predicate SameNumbering(a: seq<Row>, b: seq<Row>) {
    && |a| == |b|
    && forall k :: 0 <= k < |a| ==>
         && Cell(b[k], "hospitalization_id") == Cell(a[k], "hospitalization_id")
         && Cell(b[k], "event_time") == Cell(a[k], "event_time")
         && Cell(b[k], "day_number") == Cell(a[k], "day_number")
         && Cell(b[k], "hosp_id_day_key") == Cell(a[k], "hosp_id_day_key")
  }

  lemma SameNumberingRow(a: seq<Row>, b: seq<Row>, k: nat)
    requires SameNumbering(a, b) && k < |a|
    ensures SortKey(b[k]) == SortKey(a[k]) && DayNumberOf(b[k]) == DayNumberOf(a[k]) && DateOf(b[k]) == DateOf(a[k])
    ensures Cell(b[k], "hospitalization_id") == Cell(a[k], "hospitalization_id")
    ensures Cell(b[k], "hosp_id_day_key") == Cell(a[k], "hosp_id_day_key")
  {
  }

  /** The day-numbering properties depend only on the numbering columns. */
  lemma NumberingTransfers(a: seq<Row>, b: seq<Row>)
    requires SameNumbering(a, b)
    requires SortedByIdAndTime(a) && KeyedByDay(a) && EncountersStartOnDayOne(a) && DayNumbersFollowDates(a)
    ensures SortedByIdAndTime(b) && KeyedByDay(b) && EncountersStartOnDayOne(b) && DayNumbersFollowDates(b)
  {
    forall i, j | 0 <= i < j < |b| ensures KeyLe(SortKey(b[i]), SortKey(b[j])) {
      SameNumberingRow(a, b, i);
      SameNumberingRow(a, b, j);
    }
    forall k | 0 <= k < |b| ensures
      && Cell(b[k], "hospitalization_id").Some?
      && DayNumberOf(b[k]).Some? && DayNumberOf(b[k]).value >= 1
      && Cell(b[k], "hosp_id_day_key") ==
           Some(Str(DayKey(Cell(b[k], "hospitalization_id").value, DayNumberOf(b[k]).value)))
    {
      SameNumberingRow(a, b, k);
    }
    forall k | 0 <= k < |b| && (k == 0 || Cell(b[k - 1], "hospitalization_id") != Cell(b[k], "hospitalization_id"))
      ensures DayNumberOf(b[k]) == Some(1)
    {
      SameNumberingRow(a, b, k);
      if k > 0 {
        SameNumberingRow(a, b, k - 1);
      }
      assert k == 0 || Cell(a[k - 1], "hospitalization_id") != Cell(a[k], "hospitalization_id");
    }
    forall k | 0 < k < |b| && Cell(b[k - 1], "hospitalization_id") == Cell(b[k], "hospitalization_id")
      ensures FollowsDate(b[k - 1], b[k])
    {
      SameNumberingRow(a, b, k);
      SameNumberingRow(a, b, k - 1);
    }
  }

  /** The post-processing after the day columns leaves the numbering columns alone. */
  lemma PostProcessKeepsNumbering(u: Table, filters: Filters)
    requires forall c :: c in NUMBERING_COLUMNS ==> c in u.columns
    ensures SameNumbering(u.rows, DropColumns(AddMissing(u, filters, Tables(filters)), ["combo_id", "date"]).rows)
  {
    var v := AddMissing(u, filters, Tables(filters));
    AddMissingSpec(u, filters, Tables(filters));
    var w := DropColumns(v, ["combo_id", "date"]);
    assert |w.rows| == |u.rows|;
    forall k | 0 <= k < |u.rows| ensures
      && Cell(w.rows[k], "hospitalization_id") == Cell(u.rows[k], "hospitalization_id")
      && Cell(w.rows[k], "event_time") == Cell(u.rows[k], "event_time")
      && Cell(w.rows[k], "day_number") == Cell(u.rows[k], "day_number")
      && Cell(w.rows[k], "hosp_id_day_key") == Cell(u.rows[k], "hosp_id_day_key")
    {
      KeptColumns(u, v, w, k);
    }
  }

  lemma KeptColumns(u: Table, v: Table, w: Table, k: nat)
    requires forall c :: c in NUMBERING_COLUMNS ==> c in u.columns
    requires Extends(u, v) && w == DropColumns(v, ["combo_id", "date"]) && k < |u.rows|
    ensures Cell(w.rows[k], "hospitalization_id") == Cell(u.rows[k], "hospitalization_id")
    ensures Cell(w.rows[k], "event_time") == Cell(u.rows[k], "event_time")
    ensures Cell(w.rows[k], "day_number") == Cell(u.rows[k], "day_number")
    ensures Cell(w.rows[k], "hosp_id_day_key") == Cell(u.rows[k], "hosp_id_day_key")
  {
    assert NUMBERING_COLUMNS[0] in NUMBERING_COLUMNS && NUMBERING_COLUMNS[1] in NUMBERING_COLUMNS;
    assert NUMBERING_COLUMNS[2] in NUMBERING_COLUMNS && NUMBERING_COLUMNS[3] in NUMBERING_COLUMNS;
  }

  /**
   * End to end: a wide dataset comes back sorted by (id, event_time), each row with a non-NULL
   * id, a day number from 1 and the matching `hosp_id_day_key`, each encounter starting on day
   * 1, and from row to row within an encounter the day number staying with the date or rising
   * by one.
   */
  lemma WideResultNumbering(catalog: Catalog, sources: seq<EventSource>, pivoted: seq<string>, raw: seq<string>,
                            filters: Filters)
    requires WideResult(catalog, sources, pivoted, raw, filters).Ok?
    requires "base_cohort" in catalog && "hospitalization_id" in catalog["base_cohort"].columns
    ensures var rows := WideResult(catalog, sources, pivoted, raw, filters).value.rows;
      SortedByIdAndTime(rows) && KeyedByDay(rows) && EncountersStartOnDayOne(rows) && DayNumbersFollowDates(rows)
  {
    var parts := AllParts(catalog, pivoted, raw, filters).value;
    var base := catalog["base_cohort"];
    var t := JoinResult(catalog, sources, parts);
    var items := EcItems(EcColumns(base)) + InsertedAfterStar(Groups(parts));
    EcColumnFirst(EcColumns(base), InsertedAfterStar(Groups(parts)), "hospitalization_id");
    EcColumnFirst(EcColumns(base), InsertedAfterStar(Groups(parts)), "event_time");
    assert "hospitalization_id" in t.columns && "event_time" in t.columns;
    assert WideResult(catalog, sources, pivoted, raw, filters) == PostProcess(t, filters);
    PostProcessNumbering(t, filters);
  }

  /** Post-processing a joined table that has the id and event-time columns numbers it by day. */
  lemma PostProcessNumbering(t: Table, filters: Filters)
    requires "hospitalization_id" in t.columns && "event_time" in t.columns
    requires PostProcess(t, filters).Ok?
    ensures var rows := PostProcess(t, filters).value.rows;
      SortedByIdAndTime(rows) && KeyedByDay(rows) && EncountersStartOnDayOne(rows) && DayNumbersFollowDates(rows)
  {
    var u := AddDayColumns(t).value;
    DayColumnsNumbering(t);
    PostProcessKeepsNumbering(u, filters);
    NumberingTransfers(u.rows, PostProcess(t, filters).value.rows);
  }
}
