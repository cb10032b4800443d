/**
 * `_process_hospitalizations` and `_create_wide_dataset` as they run against the session: the
 * base cohort and ADT are registered, each requested table is prepared, registered as
 * `<table>_raw`, pivoted into `<table>_pivoted` when it is a pivot table, and contributes its
 * event times; then the wide query runs over the catalog.
 */
module WideProcess {
  import opened Wrappers
  import opened Relational
  import opened Timestamps
  import opened CategoryFilters
  import opened Pivot
  import opened Events
  import opened Joins
  import opened WidePost
  import opened Cohort
  import opened WideQuery
  import opened WideBatches

  /** What one call works on: the frames it is handed and the tables loaded for the site. */
  datatype Inputs = Inputs(
    hosp: Table,
    patient: Table,
    adt: Table,
    loaded: map<string, Table>,
    ids: Ids,
    filters: Filters,
    cohort: Option<Table>)

  /** What the table loop has accumulated: the catalog, the event sources, and the pivoted and raw table names. */
  datatype Acc = Acc(catalog: Catalog, sources: seq<EventSource>, pivoted: seq<string>, raw: seq<string>)

  /** The loop's state and the exception that stopped it, if any. */
  datatype Progress = Progress(acc: Acc, failure: Option<Error>)

  /** What the call leaves behind: the catalog and its result or exception. */
  datatype Outcome = Outcome(catalog: Catalog, result: Result<Table>)

  /** The ADT event source, used when ADT has `in_dttm`. */
  const ADT_SOURCE: EventSource := EventSource("adt", "in_dttm")

  function Prep(table: string, inp: Inputs): Result<Option<Prepared>> {
    PrepareTable(table, inp.loaded, inp.ids, inp.filters, inp.cohort)
  }

  /** A table that was prepared. */
  predicate IsPrepared(table: string, inp: Inputs) {
    Prep(table, inp).Ok? && Prep(table, inp).value.Some?
  }

  /** The pivot of a prepared pivot table. */
  function PivotOf(table: string, inp: Inputs): Option<Pivoted>
    requires IsPrepared(table, inp)
  {
    var p := Prep(table, inp).value.value;
    PivotTable(table, p.table, p.tsCol, inp.filters)
  }

  /** A prepared table that adds event times: every wide table, and a pivot table whose pivot succeeded. */
  predicate Contributes(table: string, inp: Inputs) {
    IsPrepared(table, inp) && (table !in PIVOT_TABLES || PivotOf(table, inp).Some?)
  }

  /** The event source of a prepared table: its raw table and resolved timestamp column. */
  function SourceOf(table: string, inp: Inputs): EventSource
    requires IsPrepared(table, inp)
  {
    EventSource(table + "_raw", Prep(table, inp).value.value.tsCol)
  }

  /** `x if x in names else names + [x]`: a dict assignment's effect on the key order. */
  function AddName(names: seq<string>, x: string): (r: seq<string>)
    ensures forall n :: n in r <==> n in names || n == x
  {
    if x in names then names else names + [x]
  }

  /** One iteration of the table loop. */
  function Step(acc: Acc, table: string, inp: Inputs): Result<Acc> {
    match Prep(table, inp)
    case Err(e) => Err(e)
    case Ok(None) => Ok(acc)
    case Ok(Some(p)) =>
      var catalog := acc.catalog[table + "_raw" := p.table];
      var raw := AddName(acc.raw, table);
      var source := EventSource(table + "_raw", p.tsCol);
      if table in PIVOT_TABLES then
        match PivotTable(table, p.table, p.tsCol, inp.filters)
        case None => Ok(Acc(catalog, acc.sources, acc.pivoted, raw))
        case Some(pv) =>
          Ok(Acc(catalog[table + "_pivoted" := PivotedAsTable(pv)], acc.sources + [source], AddName(acc.pivoted, table), raw))
      else Ok(Acc(catalog, acc.sources + [source], acc.pivoted, raw))
  }

  /** The loop over `tables`; an exception stops it with the state reached. */
  function Run(acc: Acc, tables: seq<string>, inp: Inputs): Progress
    decreases |tables|
  {
    if tables == [] then Progress(acc, None)
    else
      var p := Run(acc, tables[..|tables| - 1], inp);
      if p.failure.Some? then p
      else
        match Step(p.acc, tables[|tables| - 1], inp)
        case Err(e) => Progress(p.acc, Some(e))
        case Ok(a) => Progress(a, None)
  }

  /** The state before the loop: base cohort and ADT registered, ADT's event source when it has `in_dttm`. */
  function Initial(catalog: Catalog, inp: Inputs, base: Table): Acc {
    Acc(catalog["base_cohort" := base]["adt" := inp.adt],
        if "in_dttm" in inp.adt.columns then [ADT_SOURCE] else [], [], [])
  }

  /**
   * `_process_hospitalizations`: the base cohort, the loop, and then the wide query, or the
   * base cohort itself when no event source was found.
   */
  function ProcessOutcome(catalog: Catalog, inp: Inputs): Outcome {
    match BaseCohort(inp.hosp, inp.patient)
    case Err(e) => Outcome(catalog, Err(e))
    case Ok(base) =>
      var p := Run(Initial(catalog, inp, base), Tables(inp.filters), inp);
      if p.failure.Some? then Outcome(p.acc.catalog, Err(p.failure.value))
      else if p.acc.sources == [] then Outcome(p.acc.catalog, Ok(base))
      else Outcome(p.acc.catalog, WideResult(p.acc.catalog, p.acc.sources, p.acc.pivoted, p.acc.raw, inp.filters))
  }

  // ---------------------------------------------------------------------------------------
  // Names in the catalog.

  lemma SuffixCancels(a: string, b: string, suffix: string)
    requires a + suffix == b + suffix
    ensures a == b
  {
    assert a == (a + suffix)[..|a|];
    assert b == (b + suffix)[..|b|];
  }

  /** The table names the loop writes never clash with one another or with `base_cohort` and `adt`. */
  lemma NamesDistinct(a: string, b: string)
    ensures a + "_raw" != b + "_pivoted"
    ensures a + "_raw" != "adt" && a + "_raw" != "base_cohort"
    ensures a + "_pivoted" != "adt" && a + "_pivoted" != "base_cohort"
    ensures a + "_raw" == b + "_raw" ==> a == b
    ensures a + "_pivoted" == b + "_pivoted" ==> a == b
  {
    assert (a + "_raw")[|a + "_raw"| - 1] == 'w';
    assert (b + "_pivoted")[|b + "_pivoted"| - 1] == 'd';
    assert (a + "_pivoted")[|a + "_pivoted"| - 1] == 'd';
    if a + "_raw" == b + "_raw" {
      SuffixCancels(a, b, "_raw");
    }
    if a + "_pivoted" == b + "_pivoted" {
      SuffixCancels(a, b, "_pivoted");
    }
  }

  /** The raw table of prepared table `n` is in the catalog. */
  ghost predicate RawHeld(catalog: Catalog, n: string, inp: Inputs) {
    IsPrepared(n, inp) && n + "_raw" in catalog && catalog[n + "_raw"] == Prep(n, inp).value.value.table
  }

  /** The pivoted table of pivot table `n` is in the catalog. */
  ghost predicate PivotedHeld(catalog: Catalog, n: string, inp: Inputs) {
    IsPrepared(n, inp) && PivotOf(n, inp).Some? && n + "_pivoted" in catalog &&
    catalog[n + "_pivoted"] == PivotedAsTable(PivotOf(n, inp).value)
  }

  /** Base cohort and ADT in place, and the raw and pivoted tables of the names listed. */
  ghost predicate TablesHeld(catalog: Catalog, raw: seq<string>, pivoted: seq<string>, inp: Inputs, base: Table) {
    && "base_cohort" in catalog && catalog["base_cohort"] == base
    && "adt" in catalog && catalog["adt"] == inp.adt
    && (forall n :: n in raw ==> RawHeld(catalog, n, inp))
    && (forall n :: n in pivoted ==> PivotedHeld(catalog, n, inp))
  }

  /**
   * What the loop has built after processing `done`: base cohort and ADT in place, a raw table
   * for exactly the prepared tables, a pivoted table for exactly the pivoted ones, and as
   * event sources exactly ADT's `in_dttm` (when present) and each contributing table's raw
   * table with its resolved timestamp column.
   */
  ghost predicate Registered(acc: Acc, inp: Inputs, base: Table, done: seq<string>) {
    && TablesHeld(acc.catalog, acc.raw, acc.pivoted, inp, base)
    && (forall n :: n in acc.raw <==> n in done && IsPrepared(n, inp))
    && (forall n :: n in acc.pivoted <==> n in done && n in PIVOT_TABLES && Contributes(n, inp))
    && (forall s :: s in acc.sources <==> (s == ADT_SOURCE && "in_dttm" in inp.adt.columns) || ContributedBy(s, inp, done))
  }

  /** `s` is the event source of a contributing table of `done`. */
  ghost predicate ContributedBy(s: EventSource, inp: Inputs, done: seq<string>) {
    exists n :: n in done && Contributes(n, inp) && s == SourceOf(n, inp)
  }

  lemma InitialRegistered(catalog: Catalog, inp: Inputs, base: Table)
    ensures Registered(Initial(catalog, inp, base), inp, base, [])
  {
  }

  /** Registering the raw table of a prepared table keeps every other table in place. */
  lemma RawWrite(catalog: Catalog, raw: seq<string>, pivoted: seq<string>, inp: Inputs, base: Table, table: string)
    requires TablesHeld(catalog, raw, pivoted, inp, base) && IsPrepared(table, inp)
    ensures TablesHeld(catalog[table + "_raw" := Prep(table, inp).value.value.table], AddName(raw, table), pivoted, inp, base)
  {
    var c := catalog[table + "_raw" := Prep(table, inp).value.value.table];
    NamesDistinct(table, table);
    forall n | n in AddName(raw, table) ensures RawHeld(c, n, inp) {
      NamesDistinct(n, table);
    }
    forall n | n in pivoted ensures PivotedHeld(c, n, inp) {
      NamesDistinct(table, n);
    }
  }

  /** Registering the pivoted table of a pivot table keeps every other table in place. */
  lemma PivotWrite(catalog: Catalog, raw: seq<string>, pivoted: seq<string>, inp: Inputs, base: Table, table: string)
    requires TablesHeld(catalog, raw, pivoted, inp, base) && IsPrepared(table, inp) && PivotOf(table, inp).Some?
    ensures TablesHeld(catalog[table + "_pivoted" := PivotedAsTable(PivotOf(table, inp).value)], raw, AddName(pivoted, table), inp, base)
  {
    var c := catalog[table + "_pivoted" := PivotedAsTable(PivotOf(table, inp).value)];
    NamesDistinct(table, table);
    forall n | n in raw ensures RawHeld(c, n, inp) {
      NamesDistinct(n, table);
    }
    forall n | n in AddName(pivoted, table) ensures PivotedHeld(c, n, inp) {
      NamesDistinct(n, table);
    }
  }

  lemma ContributedByNext(inp: Inputs, done: seq<string>, table: string)
    ensures forall s :: ContributedBy(s, inp, done + [table]) <==>
      ContributedBy(s, inp, done) || (Contributes(table, inp) && s == SourceOf(table, inp))
  {
    var done' := done + [table];
    assert forall n :: n in done' <==> n in done || n == table;
    forall s ensures ContributedBy(s, inp, done') <==> ContributedBy(s, inp, done) || (Contributes(table, inp) && s == SourceOf(table, inp)) {
      if ContributedBy(s, inp, done') {
        var n :| n in done' && Contributes(n, inp) && s == SourceOf(n, inp);
      }
    }
  }

  /** The tables one step registers. */
  lemma StepTables(acc: Acc, table: string, inp: Inputs, base: Table)
    requires TablesHeld(acc.catalog, acc.raw, acc.pivoted, inp, base) && Step(acc, table, inp).Ok?
    ensures var a := Step(acc, table, inp).value; TablesHeld(a.catalog, a.raw, a.pivoted, inp, base)
  {
    if IsPrepared(table, inp) {
      RawWrite(acc.catalog, acc.raw, acc.pivoted, inp, base, table);
      if table in PIVOT_TABLES && PivotOf(table, inp).Some? {
        var c := acc.catalog[table + "_raw" := Prep(table, inp).value.value.table];
        PivotWrite(c, AddName(acc.raw, table), acc.pivoted, inp, base, table);
      }
    }
  }

  /** The names one step records, and the event source it adds. */
  lemma StepNames(acc: Acc, table: string, inp: Inputs)
    requires Step(acc, table, inp).Ok?
    ensures var a := Step(acc, table, inp).value;
      && (forall n :: n in a.raw <==> n in acc.raw || (n == table && IsPrepared(n, inp)))
      && (forall n :: n in a.pivoted <==> n in acc.pivoted || (n == table && n in PIVOT_TABLES && Contributes(n, inp)))
      && (forall s :: s in a.sources <==> s in acc.sources || (Contributes(table, inp) && s == SourceOf(table, inp)))
  {
  }

  lemma StepRegisters(acc: Acc, table: string, inp: Inputs, base: Table, done: seq<string>)
    requires Registered(acc, inp, base, done) && Step(acc, table, inp).Ok?
    ensures Registered(Step(acc, table, inp).value, inp, base, done + [table])
  {
    var done' := done + [table];
    assert forall n :: n in done' <==> n in done || n == table;
    ContributedByNext(inp, done, table);
    StepTables(acc, table, inp, base);
    StepNames(acc, table, inp);
  }

  /** A loop that ran to the end has registered exactly what its tables call for. */
  lemma {:induction false} RunRegisters(acc: Acc, tables: seq<string>, inp: Inputs, base: Table)
    requires Registered(acc, inp, base, [])
    ensures Run(acc, tables, inp).failure.None? ==> Registered(Run(acc, tables, inp).acc, inp, base, tables)
    decreases |tables|
  {
    if tables != [] {
      var init, last := tables[..|tables| - 1], tables[|tables| - 1];
      RunRegisters(acc, init, inp, base);
      var p := Run(acc, init, inp);
      if p.failure.None? && Step(p.acc, last, inp).Ok? {
        StepRegisters(p.acc, last, inp, base, init);
        assert init + [last] == tables;
      }
    }
  }

  /** Once the loop has stopped on an exception, the rest of the tables change nothing. */
  lemma {:induction false} RunStops(acc: Acc, tables: seq<string>, i: nat, inp: Inputs)
    requires i <= |tables| && Run(acc, tables[..i], inp).failure.Some?
    ensures Run(acc, tables, inp) == Run(acc, tables[..i], inp)
    decreases |tables|
  {
    if i < |tables| {
      var init := tables[..|tables| - 1];
      assert init[..i] == tables[..i];
      RunStops(acc, init, i, inp);
    } else {
      assert tables[..i] == tables;
    }
  }

  /**
   * The event sources of a call that got through its loop are exactly ADT's `in_dttm` (when
   * ADT has it) and, for every requested table that was loaded, had rows for the ids and a
   * usable timestamp column (and, for a pivot table, pivoted), its raw table with the
   * resolved timestamp column; each source's table is in the catalog and holds that column.
   */
  lemma EventSourcesOfLoop(catalog: Catalog, inp: Inputs, base: Table)
    requires Run(Initial(catalog, inp, base), Tables(inp.filters), inp).failure.None?
    ensures var acc := Run(Initial(catalog, inp, base), Tables(inp.filters), inp).acc;
      && (forall s :: s in acc.sources <==>
            (s == ADT_SOURCE && "in_dttm" in inp.adt.columns) ||
            exists n :: n in Tables(inp.filters) && Contributes(n, inp) && s == SourceOf(n, inp))
      && SourcesPresent(acc.catalog, acc.sources)
      && (forall s :: s in acc.sources ==> s.tsCol in acc.catalog[s.table].columns)
  {
    var acc0 := Initial(catalog, inp, base);
    InitialRegistered(catalog, inp, base);
    RunRegisters(acc0, Tables(inp.filters), inp, base);
    var acc := Run(acc0, Tables(inp.filters), inp).acc;
    forall s | s in acc.sources ensures s.table in acc.catalog && s.tsCol in acc.catalog[s.table].columns {
      if !(s == ADT_SOURCE && "in_dttm" in inp.adt.columns) {
        var n :| n in Tables(inp.filters) && Contributes(n, inp) && s == SourceOf(n, inp);
        assert n in acc.raw;
      }
    }
  }

  /** With no event source at all the call returns the base cohort as it is. */
  lemma NoEventsReturnsBaseCohort(catalog: Catalog, inp: Inputs)
    requires BaseCohort(inp.hosp, inp.patient).Ok?
    requires Run(Initial(catalog, inp, BaseCohort(inp.hosp, inp.patient).value), Tables(inp.filters), inp).failure.None?
    requires "in_dttm" !in inp.adt.columns
    requires forall n :: n in Tables(inp.filters) ==> !Contributes(n, inp)
    ensures ProcessOutcome(catalog, inp).result == BaseCohort(inp.hosp, inp.patient)
  {
    var base := BaseCohort(inp.hosp, inp.patient).value;
    var acc := Run(Initial(catalog, inp, base), Tables(inp.filters), inp).acc;
    EventSourcesOfLoop(catalog, inp, base);
    assert forall s :: s !in acc.sources;
    HeadIsMember(acc.sources);
    NoSourcesOutcome(catalog, inp);
  }

  lemma HeadIsMember<T>(xs: seq<T>)
    ensures xs == [] || xs[0] in xs
  {
  }

  /** A loop that registered no event source leaves the base cohort as the result. */
  lemma NoSourcesOutcome(catalog: Catalog, inp: Inputs)
    requires BaseCohort(inp.hosp, inp.patient).Ok?
    requires var p := Run(Initial(catalog, inp, BaseCohort(inp.hosp, inp.patient).value), Tables(inp.filters), inp);
      p.failure.None? && p.acc.sources == []
    ensures ProcessOutcome(catalog, inp).result == BaseCohort(inp.hosp, inp.patient)
  {
  }

  /**
   * A call that returns a wide dataset returns it sorted by (id, event_time) and numbered by
   * day, whatever the tables hold, provided the encounters carry `hospitalization_id`.
   */
  lemma ProcessNumbering(catalog: Catalog, inp: Inputs)
    requires "hospitalization_id" in inp.hosp.columns
    requires ProcessOutcome(catalog, inp).result.Ok?
    ensures var rows := ProcessOutcome(catalog, inp).result.value.rows;
      BaseCohort(inp.hosp, inp.patient).Ok? &&
      (ProcessOutcome(catalog, inp).result != BaseCohort(inp.hosp, inp.patient) ==>
        SortedByIdAndTime(rows) && KeyedByDay(rows) && EncountersStartOnDayOne(rows) && DayNumbersFollowDates(rows))
  {
    var base := BaseCohort(inp.hosp, inp.patient).value;
    var acc0 := Initial(catalog, inp, base);
    InitialRegistered(catalog, inp, base);
    RunRegisters(acc0, Tables(inp.filters), inp, base);
    var p := Run(acc0, Tables(inp.filters), inp);
    if p.acc.sources != [] {
      WideResultNumbering(p.acc.catalog, p.acc.sources, p.acc.pivoted, p.acc.raw, inp.filters);
    }
  }

  // ---------------------------------------------------------------------------------------
  // Batches.

  /** The catalog after the cleanup before a batch: `base_cohort` and `adt` only. */
  function Retain(catalog: Catalog): (r: Catalog)
    ensures forall n :: n in r <==> n in catalog && (n == "base_cohort" || n == "adt")
    ensures forall n :: n in r ==> r[n] == catalog[n]
  {
    map n | n in catalog && (n == "base_cohort" || n == "adt") :: catalog[n]
  }

  /** The frames of one batch: encounters, ADT and cohort windows of the batch's ids only. */
  function BatchInputs(inp: Inputs, batch: Ids): (r: Result<Inputs>)
    ensures r.Ok? ==> r.value.ids == batch && r.value.patient == inp.patient
    ensures r.Ok? ==> r.value.loaded == inp.loaded && r.value.filters == inp.filters
    ensures r.Ok? ==> r.value.hosp.columns == inp.hosp.columns
    ensures r.Ok? ==> forall x :: x in r.value.hosp.rows <==> x in inp.hosp.rows && IdIn(x, batch)
  {
    match (FilterIds(inp.hosp, batch), FilterIds(inp.adt, batch))
    case (Err(e), _) => Err(e)
    case (_, Err(e)) => Err(e)
    case (Ok(h), Ok(a)) =>
      match inp.cohort
      case None => Ok(inp.(hosp := h, adt := a, ids := batch))
      case Some(c) =>
        match FilterIds(c, batch)
        case Err(e) => Err(e)
        case Ok(cb) => Ok(inp.(hosp := h, adt := a, ids := batch, cohort := Some(cb)))
  }

  /** One batch: its frames, the cleanup, and `_process_hospitalizations` on them. */
  function BatchOutcome(catalog: Catalog, inp: Inputs, batch: Ids): Outcome {
    match BatchInputs(inp, batch)
    case Err(e) => Outcome(catalog, Err(e))
    case Ok(b) => ProcessOutcome(Retain(catalog), b)
  }

  /** A batch result that is kept: one that raised nothing and has rows. */
  predicate Kept(r: Result<Table>) {
    r.Ok? && |r.value.rows| > 0
  }

  /** The catalog after a run of batches and the frames kept so far. */
  datatype BatchRun = BatchRun(catalog: Catalog, results: seq<Table>)

  /** The batch loop; a batch that raises is skipped. */
  function RunBatches(catalog: Catalog, inp: Inputs, batches: seq<Ids>): BatchRun
    decreases |batches|
  {
    if batches == [] then BatchRun(catalog, [])
    else
      var p := RunBatches(catalog, inp, batches[..|batches| - 1]);
      var o := BatchOutcome(p.catalog, inp, batches[|batches| - 1]);
      BatchRun(o.catalog, p.results + if Kept(o.result) then [o.result.value] else [])
  }

  /**
   * `_process_in_batches`: the stacked frames of the kept batches, or None when no batch was
   * kept or the caller does not want the frame back.
   */
  function InBatches(catalog: Catalog, inp: Inputs, size: nat, returnDataframe: bool): (Catalog, Option<Table>)
    requires size > 0
  {
    var run := RunBatches(catalog, inp, Slices(inp.ids, size));
    (run.catalog, if run.results != [] && returnDataframe then Some(Concat(run.results)) else None)
  }

  /** What each batch gives on its own, in a fresh session. */
  function KeptResults(inp: Inputs, batches: seq<Ids>): (rs: seq<Table>)
    ensures forall t :: t in rs ==> |t.rows| > 0
    decreases |batches|
  {
    if batches == [] then []
    else
      var o := BatchOutcome(map[], inp, batches[|batches| - 1]);
      KeptResults(inp, batches[..|batches| - 1]) + if Kept(o.result) then [o.result.value] else []
  }

  /** After the cleanup and the registration of the batch's base tables, the catalog no longer depends on the past. */
  lemma RegisteredAfterCleanup(c1: Catalog, c2: Catalog, inp: Inputs, base: Table)
    ensures Initial(Retain(c1), inp, base) == Initial(Retain(c2), inp, base)
  {
    var m1, m2 := Initial(Retain(c1), inp, base).catalog, Initial(Retain(c2), inp, base).catalog;
    assert forall n :: n in m1 <==> n in m2;
    assert forall n :: n in m1 ==> m1[n] == m2[n];
  }

  /**
   * The cleanup makes each batch independent of the ones before it: what a batch returns or
   * raises depends only on its own ids, not on what earlier batches left in the session.
   */
  lemma BatchIndependent(c1: Catalog, c2: Catalog, inp: Inputs, batch: Ids)
    ensures BatchOutcome(c1, inp, batch).result == BatchOutcome(c2, inp, batch).result
  {
    match BatchInputs(inp, batch)
    case Err(_) =>
    case Ok(b) =>
      match BaseCohort(b.hosp, b.patient)
      case Err(_) =>
      case Ok(base) => RegisteredAfterCleanup(c1, c2, b, base);
  }

  /** The frames the batch loop keeps are those each batch gives on its own, in batch order. */
  lemma {:induction false} RunBatchesResults(catalog: Catalog, inp: Inputs, batches: seq<Ids>)
    ensures RunBatches(catalog, inp, batches).results == KeptResults(inp, batches)
    decreases |batches|
  {
    if batches != [] {
      var init := batches[..|batches| - 1];
      RunBatchesResults(catalog, inp, init);
      BatchIndependent(RunBatches(catalog, inp, init).catalog, map[], inp, batches[|batches| - 1]);
    }
  }

  /** The DuckDB session: its catalog of tables, which the calls create, replace and drop. */
  class Session {
    var tables: Catalog

    constructor ()
      ensures tables == map[]
    {
      tables := map[];
    }

    /** `CREATE OR REPLACE TABLE name AS ...`. */
    method CreateOrReplace(name: string, t: Table)
      modifies this
      ensures tables == old(tables)[name := t]
    {
      tables := tables[name := t];
    }

    /**
     * The cleanup before each batch: every table except `base_cohort` and `adt` is dropped,
     * one at a time; those two stay as they were.
     */
    method DropWorkingTables()
      modifies this
      ensures tables == Retain(old(tables))
    {
      var names := tables.Keys;
      while names != {}
        invariant names <= old(tables).Keys
        invariant forall n :: n in tables <==> n in old(tables) && (n in names || n == "base_cohort" || n == "adt")
        invariant forall n :: n in tables ==> tables[n] == old(tables)[n]
        decreases names
      {
        var n :| n in names;
        if n != "base_cohort" && n != "adt" {
          tables := tables - {n};
        }
        names := names - {n};
      }
      assert forall n :: n in tables <==> n in Retain(old(tables));
    }

    /**
     * `_create_wide_dataset` against the current catalog: the select list grows one group at a
     * time, the frame gets its missing columns in place, and the result is the wide dataset.
     */
    method CreateWide(sources: seq<EventSource>, pivoted: seq<string>, raw: seq<string>, filters: Filters)
      returns (r: Result<Table>)
      ensures r == WideResult(tables, sources, pivoted, raw, filters)
    {
      if "base_cohort" !in tables || !SourcesPresent(tables, sources) {
        return Err(EngineError("Table does not exist"));
      }
      if "adt" in tables && "in_dttm" !in tables["adt"].columns {
        return Err(EngineError("Referenced column in_dttm not found"));
      }
      var parts := AllParts(tables, pivoted, raw, filters);
      if parts.Err? {
        return Err(parts.error);
      }
      if !Joined(parts.value) {
        return Err(EngineError("Referenced table not found"));
      }
      var inserted := BuildSelectList(Groups(parts.value));
      var base := tables["base_cohort"];
      var items := EcItems(EcColumns(base)) + inserted;
      var ec := ExpandedCohort(base.rows, AllEvents(tables, sources));
      var joined := JoinAll(Start(ec), Sides(parts.value));
      var result := DropDuplicateColumns(Header(items), Projected(joined, items));
      var dayed := AddDayColumns(result);
      if dayed.Err? {
        return Err(dayed.error);
      }
      var df := new DataFrame(dayed.value);
      AddMissingColumns(df, filters, Tables(filters));
      r := Ok(DropColumns(df.Contents(), ["combo_id", "date"]));
    }

    /**
     * `_process_hospitalizations`: registers the base cohort and ADT, runs the table loop
     * against the catalog, and builds the wide dataset. The catalog it leaves and what it
     * returns or raises are those of `ProcessOutcome`.
     */
    method ProcessHospitalizations(inp: Inputs) returns (r: Result<Table>)
      modifies this
      ensures tables == ProcessOutcome(old(tables), inp).catalog
      ensures r == ProcessOutcome(old(tables), inp).result
    {
      var baseResult := BaseCohort(inp.hosp, inp.patient);
      if baseResult.Err? {
        return Err(baseResult.error);
      }
      var base := baseResult.value;
      ghost var acc0 := Initial(tables, inp, base);
      CreateOrReplace("base_cohort", base);
      CreateOrReplace("adt", inp.adt);
      var sources := if "in_dttm" in inp.adt.columns then [ADT_SOURCE] else [];
      var pivoted: seq<string> := [];
      var raw: seq<string> := [];
      var names := Tables(inp.filters);
      var i := 0;
      while i < |names|
        invariant 0 <= i <= |names|
        invariant Run(acc0, names[..i], inp) == Progress(Acc(tables, sources, pivoted, raw), None)
      {
        assert names[..i + 1][..i] == names[..i];
        var table := names[i];
        var prep := PrepareTable(table, inp.loaded, inp.ids, inp.filters, inp.cohort);
        if prep.Err? {
          RunStops(acc0, names, i + 1, inp);
          return Err(prep.error);
        }
        if prep.value.Some? {
          var p := prep.value.value;
          CreateOrReplace(table + "_raw", p.table);
          raw := AddName(raw, table);
          if table in PIVOT_TABLES {
            var pv := PivotTable(table, p.table, p.tsCol, inp.filters);
            if pv.Some? {
              CreateOrReplace(table + "_pivoted", PivotedAsTable(pv.value));
              pivoted := AddName(pivoted, table);
              sources := sources + [EventSource(table + "_raw", p.tsCol)];
            }
          } else {
            sources := sources + [EventSource(table + "_raw", p.tsCol)];
          }
        }
        i := i + 1;
      }
      assert names[..i] == names;
      if sources == [] {
        return Ok(base);
      }
      r := CreateWide(sources, pivoted, raw, inp.filters);
    }

    /**
     * `_process_in_batches`: for each batch, the frames of its ids, the cleanup of the previous
     * batch's tables and `_process_hospitalizations`; a batch that raises is skipped, one
     * without rows is dropped, and the rest are stacked.
     */
    method ProcessInBatches(inp: Inputs, size: nat, returnDataframe: bool) returns (r: Option<Table>)
      requires size > 0
      modifies this
      ensures (tables, r) == InBatches(old(tables), inp, size, returnDataframe)
    {
      var batches := Slices(inp.ids, size);
      var results: seq<Table> := [];
      ghost var c0 := tables;
      for i := 0 to |batches|
        invariant RunBatches(c0, inp, batches[..i]) == BatchRun(tables, results)
      {
        assert batches[..i + 1][..i] == batches[..i];
        var frames := BatchInputs(inp, batches[i]);
        if frames.Ok? {
          DropWorkingTables();
          var result := ProcessHospitalizations(frames.value);
          if result.Ok? && |result.value.rows| > 0 {
            results := results + [result.value];
          }
        }
      }
      assert batches[..|batches|] == batches;
      if results != [] && returnDataframe {
        r := Some(Concat(results));
      } else {
        r := None;
      }
    }
  }
}
