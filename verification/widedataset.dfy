/**
 * `create_wide_dataset`: the checks on the cohort frame, the choice of encounter ids, the
 * base frames cut down to those ids, and the choice between one pass and batches, all run in
 * a fresh DuckDB session.
 */
module WideDataset {
  import opened Wrappers
  import opened Relational
  import opened CategoryFilters
  import opened Cohort
  import opened WidePost
  import opened WideBatches
  import opened WideProcess
  import Text

  /** What the caller passes, with the site's loaded tables. */
  datatype Request = Request(
    hosp: Table,
    patient: Table,
    adt: Table,
    loaded: map<string, Table>,
    optionalTables: seq<string>,
    categoryFilters: Option<Filters>,
    sample: bool,
    draw: Ids,                       // the encounters a random draw of `sample` picks
    hospitalizationIds: Option<Ids>,
    cohort: Option<Table>,
    returnDataframe: bool,
    batchSize: int)

  const COHORT_COLUMNS: seq<string> := ["hospitalization_id", "start_time", "end_time"]
  const HOSP_COLUMNS: seq<string> := ["hospitalization_id", "patient_id", "age_at_admission"]

  /** `[c for c in required if c not in columns]`. */
  function MissingColumns(required: seq<string>, columns: seq<string>): (r: seq<string>)
    ensures forall c :: c in r <==> c in required && c !in columns
    decreases |required|
  {
    if required == [] then []
    else
      assert forall c :: c in required <==> c == required[0] || c in required[1..];
      (if required[0] !in columns then [required[0]] else []) + MissingColumns(required[1..], columns)
  }

  /** `.astype(str)` on an id: NaN becomes the text `nan`. */
  function AsText(o: Option<Value>): (v: Value)
    ensures v.Str?
    ensures o.Some? && o.value.Str? ==> v == o.value
  {
    match o
    case None => Str("nan")
    case Some(x) => Str(Render(x))
  }

  /** The cohort frame with its ids cast to text. */
  function CastCohortIds(c: Table): (r: Table)
    ensures r.columns == c.columns && |r.rows| == |c.rows|
    ensures forall k :: 0 <= k < |r.rows| ==> Cell(r.rows[k], "hospitalization_id") == Some(AsText(Cell(c.rows[k], "hospitalization_id")))
    ensures forall k, col :: 0 <= k < |r.rows| && col != "hospitalization_id" ==> Cell(r.rows[k], col) == Cell(c.rows[k], col)
  {
    Table(c.columns, seq(|c.rows|, k requires 0 <= k < |c.rows| =>
      c.rows[k]["hospitalization_id" := Some(AsText(Cell(c.rows[k], "hospitalization_id")))]))
  }

  /** Python's `str` of a list of names without quotes of their own: `['a', 'b']`. */
  function NameList(names: seq<string>): string {
    "[" + Text.Join(seq(|names|, i requires 0 <= i < |names| => "'" + names[i] + "'"), ", ") + "]"
  }

  /** The message of the cohort check's ValueError. */
  function CohortMessage(missing: seq<string>): string {
    "cohort_df must contain columns: " + NameList(COHORT_COLUMNS) + ". Missing: " + NameList(missing)
  }

  /**
   * The cohort check: a ValueError listing the required and the missing columns when the frame
   * lacks any of `hospitalization_id`, `start_time`, `end_time`; otherwise the frame with
   * text ids.
   */
  function CheckedCohort(cohort: Option<Table>): (r: Result<Option<Table>>)
    ensures r.Err? <==> cohort.Some? && exists c :: c in COHORT_COLUMNS && c !in cohort.value.columns
    ensures r.Err? ==> r.error == ValueError(CohortMessage(MissingColumns(COHORT_COLUMNS, cohort.value.columns)))
    ensures r.Ok? ==> (r.value.Some? <==> cohort.Some?)
    ensures r.Ok? && r.value.Some? ==> forall c :: c in COHORT_COLUMNS ==> c in r.value.value.columns
  {
    match cohort
    case None => Ok(None)
    case Some(c) =>
      var missing := MissingColumns(COHORT_COLUMNS, c.columns);
      if missing != [] then Err(ValueError(CohortMessage(missing)))
      else Ok(Some(CastCohortIds(c)))
  }

  /**
   * The cohort check on the caller's frame object: on success the ids are cast in place, so
   * the caller's `cohort_df` holds text ids afterwards; on failure the frame is untouched.
   */
  method CheckCohort(frame: DataFrame) returns (err: Option<Error>)
    modifies frame
    ensures err.Some? ==> CheckedCohort(Some(old(frame.Contents()))) == Err(err.value)
    ensures err.Some? ==> frame.Contents() == old(frame.Contents())
    ensures err.None? ==> CheckedCohort(Some(old(frame.Contents()))) == Ok(Some(frame.Contents()))
  {
    var missing := MissingColumns(COHORT_COLUMNS, frame.columns);
    if missing != [] {
      return Some(ValueError(CohortMessage(missing)));
    }
    var cast := CastCohortIds(frame.Contents());
    frame.rows := cast.rows;
    err := None;
  }

  /**
   * The tables to load: the category filters, or (the deprecated form) each optional table
   * with no category restriction when no filter was given.
   */
  function EffectiveFilters(optionalTables: seq<string>, categoryFilters: Option<Filters>): (f: Filters)
    ensures categoryFilters.Some? && categoryFilters.value != [] ==> f == categoryFilters.value
    ensures forall i :: 0 <= i < |f| ==> f[i] in (if categoryFilters.Some? then categoryFilters.value else []) || f[i].categories == []
  {
    var given := if categoryFilters.Some? then categoryFilters.value else [];
    if optionalTables != [] && given == [] then
      var tables := Distinct(optionalTables);
      seq(|tables|, i requires 0 <= i < |tables| => CategoryFilter(tables[i], []))
    else given
  }

  /** A column of a frame, row by row. */
  function Column(rows: seq<Row>, c: string): (ids: Ids)
    ensures |ids| == |rows| && forall k :: 0 <= k < |rows| ==> ids[k] == Cell(rows[k], c)
  {
    seq(|rows|, k requires 0 <= k < |rows| => Cell(rows[k], c))
  }

  /**
   * The encounters to process: the ids given, else the cohort's distinct ids, else the random
   * draw, else every distinct encounter id; a KeyError when the last two have no id column.
   */
  function RequiredIds(req: Request, cohort: Option<Table>): (r: Result<Ids>)
    ensures req.hospitalizationIds.Some? ==> r == Ok(req.hospitalizationIds.value)
    ensures r.Err? <==> req.hospitalizationIds.None? && cohort.None? && "hospitalization_id" !in req.hosp.columns
    ensures r.Ok? && req.hospitalizationIds.None? && cohort.Some? ==>
              NoDuplicates(r.value) && forall x :: x in r.value <==> x in Column(cohort.value.rows, "hospitalization_id")
    ensures r.Ok? && req.hospitalizationIds.None? && cohort.None? && !req.sample ==>
              NoDuplicates(r.value) && forall x :: x in r.value <==> x in Column(req.hosp.rows, "hospitalization_id")
  {
    if req.hospitalizationIds.Some? then Ok(req.hospitalizationIds.value)
    else if cohort.Some? then Ok(Distinct(Column(cohort.value.rows, "hospitalization_id")))
    else if "hospitalization_id" !in req.hosp.columns then Err(KeyError("hospitalization_id"))
    else if req.sample then Ok(req.draw)
    else Ok(Distinct(Column(req.hosp.rows, "hospitalization_id")))
  }

  /** ADT's columns without the `_name` columns and without `patient_id`. */
  function AdtColumns(columns: seq<string>): (r: seq<string>)
    ensures forall c :: c in r <==> c in columns && !Text.EndsWith(c, "_name") && c != "patient_id"
    decreases |columns|
  {
    if columns == [] then []
    else
      assert forall c :: c in columns <==> c == columns[0] || c in columns[1..];
      var c := columns[0];
      (if !Text.EndsWith(c, "_name") && c != "patient_id" then [c] else []) + AdtColumns(columns[1..])
  }

  /**
   * The base frames cut down to the required ids: the encounters with at most their id,
   * patient and age columns, the patients' ids, and ADT without name columns.
   */
  function BaseInputs(req: Request, filters: Filters, ids: Ids, cohort: Option<Table>): (r: Result<Inputs>)
    ensures r.Err? <==> "hospitalization_id" !in req.hosp.columns || "patient_id" !in req.patient.columns ||
                        "hospitalization_id" !in req.adt.columns
    ensures r.Ok? ==> r.value.ids == ids && r.value.filters == filters && r.value.cohort == cohort
    ensures r.Ok? ==> forall c :: c in r.value.hosp.columns <==> c in HOSP_COLUMNS && c in req.hosp.columns
    ensures r.Ok? ==> forall x :: x in r.value.hosp.rows ==> IdIn(x, ids)
    ensures r.Ok? ==> r.value.patient.columns == ["patient_id"]
    ensures r.Ok? ==> forall c :: c in r.value.adt.columns ==> !Text.EndsWith(c, "_name") && c != "patient_id"
  {
    var hosp := SelectColumns(req.hosp, Available(HOSP_COLUMNS, req.hosp.columns));
    match FilterIds(hosp, ids)
    case Err(e) => Err(e)
    case Ok(h) =>
      if "patient_id" !in req.patient.columns then Err(KeyError("patient_id"))
      else
        var patient := SelectColumns(req.patient, ["patient_id"]);
        match FilterIds(req.adt, ids)
        case Err(e) => Err(e)
        case Ok(a) =>
          var adt := SelectColumns(a, AdtColumns(a.columns));
          Ok(Inputs(h, patient, adt, req.loaded, ids, filters, cohort))
  }

  /** Batches are used only when the batch size is positive and smaller than the number of ids. */
  predicate UsesBatches(batchSize: int, ids: Ids) {
    batchSize > 0 && |ids| > batchSize
  }

  /**
   * `create_wide_dataset`: Ok(None) only from the batched path (no batch kept, or the frame
   * not wanted back); the single pass returns its frame whatever `return_dataframe` says and
   * lets its exceptions through, while the batched path skips a batch that raises.
   */
  function DatasetOf(req: Request): (r: Result<Option<Table>>)
  {
    match CheckedCohort(req.cohort)
    case Err(e) => Err(e)
    case Ok(cohort) => DatasetFrom(req, cohort)
  }

  /** `create_wide_dataset` after the cohort check, given the checked cohort. */
  function DatasetFrom(req: Request, cohort: Option<Table>): (r: Result<Option<Table>>)
  {
    var filters := EffectiveFilters(req.optionalTables, req.categoryFilters);
    match RequiredIds(req, cohort)
    case Err(e) => Err(e)
    case Ok(ids) =>
      match BaseInputs(req, filters, ids, cohort)
      case Err(e) => Err(e)
      case Ok(inp) =>
        if UsesBatches(req.batchSize, ids) then Ok(InBatches(map[], inp, req.batchSize, req.returnDataframe).1)
        else
          match ProcessOutcome(map[], inp).result
          case Err(e) => Err(e)
          case Ok(t) => Ok(Some(t))
  }

  /** The cohort check comes first: a cohort frame without its window columns is refused. */
  lemma CohortCheckedFirst(req: Request)
    requires req.cohort.Some? && exists c :: c in COHORT_COLUMNS && c !in req.cohort.value.columns
    ensures DatasetOf(req) == Err(ValueError(CohortMessage(MissingColumns(COHORT_COLUMNS, req.cohort.value.columns))))
  {
  }

  /**
   * The batched path returns the stacked frames that each batch gives on its own, in batch
   * order; batches cover every required id exactly once, in order.
   */
  lemma BatchedResult(req: Request, inp: Inputs)
    requires CheckedCohort(req.cohort).Ok?
    requires RequiredIds(req, CheckedCohort(req.cohort).value).Ok?
    requires BaseInputs(req, EffectiveFilters(req.optionalTables, req.categoryFilters),
                        RequiredIds(req, CheckedCohort(req.cohort).value).value, CheckedCohort(req.cohort).value) == Ok(inp)
    requires UsesBatches(req.batchSize, inp.ids)
    ensures Flatten(Slices(inp.ids, req.batchSize)) == inp.ids
    ensures var kept := KeptResults(inp, Slices(inp.ids, req.batchSize));
      DatasetOf(req) == Ok(if kept != [] && req.returnDataframe then Some(Concat(kept)) else None)
  {
    SlicesCover(inp.ids, req.batchSize);
    RunBatchesResults(map[], inp, Slices(inp.ids, req.batchSize));
  }

  /**
   * A single-pass wide dataset is either the base cohort (nothing had an event time) or sorted
   * by (hospitalization_id, event_time) and numbered by day.
   */
  lemma SinglePassNumbering(req: Request, inp: Inputs)
    requires CheckedCohort(req.cohort).Ok?
    requires RequiredIds(req, CheckedCohort(req.cohort).value).Ok?
    requires BaseInputs(req, EffectiveFilters(req.optionalTables, req.categoryFilters),
                        RequiredIds(req, CheckedCohort(req.cohort).value).value, CheckedCohort(req.cohort).value) == Ok(inp)
    requires !UsesBatches(req.batchSize, inp.ids)
    requires DatasetOf(req).Ok?
    ensures DatasetOf(req).value.Some?
    ensures var t := DatasetOf(req).value.value;
      Ok(t) == BaseCohort(inp.hosp, inp.patient) ||
      (SortedByIdAndTime(t.rows) && KeyedByDay(t.rows) && EncountersStartOnDayOne(t.rows) && DayNumbersFollowDates(t.rows))
  {
    assert "hospitalization_id" in inp.hosp.columns;
    ProcessNumbering(map[], inp);
  }

  /**
   * The whole call in a fresh session: the session's catalog starts empty and is thrown away
   * with the connection. `cohortFrame` is the caller's `cohort_df` object, whose contents the
   * request carries; a cohort that passes the check is left with text ids.
   */
  method CreateWideDataset(req: Request, cohortFrame: DataFrame?) returns (r: Result<Option<Table>>)
    requires (cohortFrame == null) == req.cohort.None?
    requires cohortFrame != null ==> cohortFrame.Contents() == req.cohort.value
    modifies cohortFrame
    ensures r == DatasetOf(req)
    ensures cohortFrame != null ==>
      cohortFrame.Contents() == (if CheckedCohort(req.cohort).Ok? then CheckedCohort(req.cohort).value.value else req.cohort.value)
  {
    var cohort: Option<Table> := None;
    if cohortFrame != null {
      var err := CheckCohort(cohortFrame);
      if err.Some? {
        return Err(err.value);
      }
      cohort := Some(cohortFrame.Contents());
    }
    r := CreateFromCohort(req, cohort);
  }

  /** The call after the cohort check, in a fresh session, returns or raises what `DatasetFrom` says. */
  method CreateFromCohort(req: Request, cohort: Option<Table>) returns (r: Result<Option<Table>>)
    ensures r == DatasetFrom(req, cohort)
  {
    var filters := EffectiveFilters(req.optionalTables, req.categoryFilters);
    var ids := RequiredIds(req, cohort);
    if ids.Err? {
      return Err(ids.error);
    }
    var inp := BaseInputs(req, filters, ids.value, cohort);
    if inp.Err? {
      return Err(inp.error);
    }
    var session := new Session();
    if UsesBatches(req.batchSize, ids.value) {
      var frame := session.ProcessInBatches(inp.value, req.batchSize, req.returnDataframe);
      r := Ok(frame);
    } else {
      var result := session.ProcessHospitalizations(inp.value);
      r := if result.Ok? then Ok(Some(result.value)) else Err(result.error);
    }
  }
}
