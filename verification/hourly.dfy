/**
 * `convert_wide_to_hourly_optimized`: the input check, the automatic batch size, and the two
 * ways of running the hourly aggregation, over the whole wide frame at once or over batches of
 * encounters whose results are stacked.
 */
module Hourly {
  import opened Wrappers
  import opened Relational
  import opened Ordering
  import opened HourlyPlan
  import opened HourlyRows
  import opened HourlyAggregates
  import opened WideBatches
  import HourlyConfig

  // ---------------------------------------------------------------------------------------
  // One batch.

  /**
   * The frame one verb of the aggregation order adds: its query's result, or nothing when it
   * has no query or its query fails (the failure is reported and the verb skipped).
   */
  function VerbStep(verb: string, plan: seq<VerbQuery>, oneHot: Option<Result<Table>>, data: seq<Row>, stats: Stats): seq<Table> {
    if verb == "one_hot_encode" then
      (match oneHot
       case Some(Ok(t)) => [t]
       case _ => [])
    else
      match QueryFor(plan, verb)
      case None => []
      case Some(q) =>
        (match VerbFrame(q, data, stats)
         case Ok(t) => [t]
         case Err(_) => [])
  }

  /** The frames of the verbs of `order`, in that order. */
  function VerbFrames(order: seq<string>, plan: seq<VerbQuery>, oneHot: Option<Result<Table>>, data: seq<Row>, stats: Stats): seq<Table>
    decreases |order|
  {
    if order == [] then []
    else VerbFrames(order[..|order| - 1], plan, oneHot, data, stats) + VerbStep(order[|order| - 1], plan, oneHot, data, stats)
  }

  function RowAt(t: Table, i: nat): Row {
    if i < |t.rows| then t.rows[i] else map[]
  }

  /**
   * Row `i` of `pd.concat(frames, axis=1)`: the frames' rows `i` side by side. Where two frames
   * share a name the model keeps the earlier frame's value.
   */
  function MergeAt(frames: seq<Table>, i: nat): Row
    decreases |frames|
  {
    if frames == [] then map[] else MergeAt(frames[1..], i) + RowAt(frames[0], i)
  }

  /** The first frame's columns survive the merge. */
  lemma MergeKeepsFirst(frames: seq<Table>, i: nat, c: string)
    requires frames != [] && c in RowAt(frames[0], i)
    ensures Cell(MergeAt(frames, i), c) == Cell(RowAt(frames[0], i), c)
  {
  }

  /** The sort order of the hourly result: encounter, then hour. */
  function HourlyKey(r: Row): Key {
    [Cell(r, HID), Cell(r, "nth_hour")]
  }

  /** The base query's result and the verb results, in the aggregation order. */
  function BatchFrames(wide: Table, config: Config, stats: Stats): seq<Table> {
    var data := HourlyData(wide.rows);
    var oneHot := OneHotFrame(OneHotColumns(config, wide.columns), data);
    [BaseFrame(data)] + VerbFrames(AGG_ORDER, Queries(config, wide.columns), oneHot, data, stats)
  }

  /** The merged frames, one row per group, before sorting. */
  function Merged(wide: Table, config: Config, stats: Stats): seq<Row> {
    var frames := BatchFrames(wide, config, stats);
    seq(|Groups(HourlyData(wide.rows))|, i requires 0 <= i < |Groups(HourlyData(wide.rows))| => MergeAt(frames, i))
  }

  /**
   * `_process_hourly_single_batch`: the base query fails without `patient_id` or
   * `day_number`; otherwise the merged frames, sorted by encounter and hour.
   */
  function SingleBatch(wide: Table, config: Config, stats: Stats): Result<Table> {
    if "patient_id" !in wide.columns then Err(EngineError("patient_id"))
    else if "day_number" !in wide.columns then Err(EngineError("day_number"))
    else Ok(Table(Distinct(AllColumns(BatchFrames(wide, config, stats))), SortBy(Merged(wide, config, stats), HourlyKey)))
  }

  /** Every merged row carries its group's key, read from the base query. */
  lemma MergedKeys(wide: Table, config: Config, stats: Stats)
    ensures CarriesGroups(Merged(wide, config, stats), HourlyData(wide.rows))
  {
    var data := HourlyData(wide.rows);
    var gs := Groups(data);
    var frames := BatchFrames(wide, config, stats);
    var base := BaseFrame(data);
    assert frames[0] == base;
    forall i | 0 <= i < |gs| ensures GroupKey(Merged(wide, config, stats)[i]) == gs[i] {
      assert RowAt(base, i) == base.rows[i];
      assert GroupKey(base.rows[i]) == gs[i];
      forall c | c in GROUP_COLUMNS ensures Cell(MergeAt(frames, i), c) == Cell(base.rows[i], c) {
        MergeKeepsFirst(frames, i, c);
      }
      assert GroupKey(MergeAt(frames, i)) == GroupKey(base.rows[i]);
    }
  }

  /** Rows that carry the groups of `data` in order, one each. */
  predicate CarriesGroups(m: seq<Row>, data: seq<Row>) {
    |m| == |Groups(data)| && forall i :: 0 <= i < |m| ==> GroupKey(m[i]) == Groups(data)[i]
  }

  /** Each row of the reordered rows is the row of some group of `data`. */
  lemma SortedRowsFromData(m: seq<Row>, data: seq<Row>)
    requires CarriesGroups(m, data)
    ensures forall r :: r in SortBy(m, HourlyKey) ==> exists d :: d in data && GroupKey(d) == GroupKey(r)
  {
    var gs := Groups(data);
    var s := SortBy(m, HourlyKey);
    forall r | r in s ensures exists d :: d in data && GroupKey(d) == GroupKey(r) {
      assert r in multiset(m);
      var i :| 0 <= i < |m| && m[i] == r;
      assert gs[i] in gs;
      var j :| 0 <= j < |data| && GroupKey(data[j]) == gs[i];
      assert data[j] in data;
    }
  }

  /** Every group of `data` has its row among the reordered rows. */
  lemma SortedRowsCoverData(m: seq<Row>, data: seq<Row>)
    requires CarriesGroups(m, data)
    ensures forall d :: d in data ==> exists r :: r in SortBy(m, HourlyKey) && GroupKey(r) == GroupKey(d)
  {
    var gs := Groups(data);
    var s := SortBy(m, HourlyKey);
    forall d | d in data ensures exists r :: r in s && GroupKey(r) == GroupKey(d) {
      var j :| 0 <= j < |data| && data[j] == d;
      assert GroupKey(d) in gs;
      var i :| 0 <= i < |gs| && gs[i] == GroupKey(d);
      assert m[i] in multiset(s);
    }
  }

  /** Rows that share their group key with an identified row are identified. */
  lemma KeyedRowsIdentified(s: seq<Row>, data: seq<Row>)
    requires forall d :: d in data ==> Cell(d, HID).Some?
    requires forall r :: r in s ==> exists d :: d in data && GroupKey(d) == GroupKey(r)
    ensures forall r :: r in s ==> Cell(r, HID).Some?
  {
    forall r | r in s ensures Cell(r, HID).Some? {
      var d :| d in data && GroupKey(d) == GroupKey(r);
      assert GroupKey(d)[0] == Cell(d, HID);
    }
  }

  /**
   * The hourly result of a batch has one row per encounter and hour of `hourly_data`, no
   * other row, no row without an encounter id, and is sorted by encounter and `nth_hour`.
   */
  lemma SingleBatchRows(wide: Table, config: Config, stats: Stats)
    requires SingleBatch(wide, config, stats).Ok?
    ensures var t := SingleBatch(wide, config, stats).value;
      && |t.rows| == |Groups(HourlyData(wide.rows))|
      && SortedBy(t.rows, HourlyKey)
      && (forall r :: r in t.rows ==> exists d :: d in HourlyData(wide.rows) && GroupKey(d) == GroupKey(r))
      && (forall d :: d in HourlyData(wide.rows) ==> exists r :: r in t.rows && GroupKey(r) == GroupKey(d))
      && (forall r :: r in t.rows ==> Cell(r, HID).Some?)
  {
    var m := Merged(wide, config, stats);
    var data := HourlyData(wide.rows);
    assert SingleBatch(wide, config, stats).value.rows == SortBy(m, HourlyKey);
    MergedKeys(wide, config, stats);
    HourlyDataIds(wide.rows);
    SortedRowsFromData(m, data);
    SortedRowsCoverData(m, data);
    KeyedRowsIdentified(SortBy(m, HourlyKey), data);
  }

  /** The single-batch run fails exactly when the base query cannot run. */
  lemma SingleBatchFails(wide: Table, config: Config, stats: Stats)
    ensures SingleBatch(wide, config, stats).Err? <==> "patient_id" !in wide.columns || "day_number" !in wide.columns
    ensures SingleBatch(wide, config, stats).Err? ==> SingleBatch(wide, config, stats).error.EngineError?
  {
  }

  lemma VerbFramesSnoc(order: seq<string>, i: nat, plan: seq<VerbQuery>, oneHot: Option<Result<Table>>, data: seq<Row>, stats: Stats)
    requires i < |order|
    ensures VerbFrames(order[..i + 1], plan, oneHot, data, stats) == VerbFrames(order[..i], plan, oneHot, data, stats) + VerbStep(order[i], plan, oneHot, data, stats)
  {
    assert order[..i + 1][..i] == order[..i];
  }

  /**
   * `_process_hourly_single_batch` step by step on the dict object it is handed: the queries
   * are built (which extends the dict's `first` list with the defaulted columns), the base
   * query runs and fails without `patient_id` or `day_number`, then each verb of the
   * aggregation order whose query exists and runs, then the merge and the sort.
   */
  method ProcessHourlySingleBatch(wide: Table, config: HourlyConfig.AggregationConfig, stats: Stats) returns (r: Result<Table>)
    requires config.Valid()
    modifies config, config.lists
    ensures config.Valid()
    ensures r == SingleBatch(wide, old(config.Snapshot()), stats)
    ensures config.Snapshot() == WithDefaults(old(config.Snapshot()), DefaultColumns(old(config.Snapshot()), wide.columns))
    ensures |config.lists| >= |old(config.lists)| && config.lists[..|old(config.lists)|] == old(config.lists)
    ensures config.verbs[..|old(config.verbs)|] == old(config.verbs)
  {
    var before := config.Snapshot();
    var plan := HourlyConfig.BuildAggregationQueries(config, wide.columns);
    if "patient_id" !in wide.columns {
      return Err(EngineError("patient_id"));
    }
    if "day_number" !in wide.columns {
      return Err(EngineError("day_number"));
    }
    var data := HourlyData(wide.rows);
    var oneHot := OneHotFrame(OneHotColumns(before, wide.columns), data);
    var base := BaseFrame(data);
    var frames := RunVerbs(plan, oneHot, data, stats);
    var results := [base] + frames;
    assert results == BatchFrames(wide, before, stats);
    var n := |Groups(data)|;
    var merged := seq(n, i requires 0 <= i < n => MergeAt(results, i));
    assert merged == Merged(wide, before, stats);
    r := Ok(Table(Distinct(AllColumns(results)), SortBy(merged, HourlyKey)));
  }

  /** The loop over the aggregation order: the frames of the verbs that produced one, in order. */
  method RunVerbs(plan: seq<VerbQuery>, oneHot: Option<Result<Table>>, data: seq<Row>, stats: Stats) returns (frames: seq<Table>)
    ensures frames == VerbFrames(AGG_ORDER, plan, oneHot, data, stats)
  {
    frames := [];
    for i := 0 to |AGG_ORDER|
      invariant frames == VerbFrames(AGG_ORDER[..i], plan, oneHot, data, stats)
    {
      var step := RunVerb(AGG_ORDER[i], plan, oneHot, data, stats);
      VerbFramesSnoc(AGG_ORDER, i, plan, oneHot, data, stats);
      frames := frames + step;
    }
    assert AGG_ORDER[..|AGG_ORDER|] == AGG_ORDER;
  }

  /**
   * One verb of the loop over the aggregation order: the one-hot frame when there is one, or
   * the verb's query run with its failure caught and the verb skipped.
   */
  method RunVerb(verb: string, plan: seq<VerbQuery>, oneHot: Option<Result<Table>>, data: seq<Row>, stats: Stats) returns (step: seq<Table>)
    ensures step == VerbStep(verb, plan, oneHot, data, stats)
  {
    step := [];
    if verb == "one_hot_encode" {
      if oneHot.Some? && oneHot.value.Ok? {
        step := [oneHot.value.value];
      }
    } else {
      var q := QueryFor(plan, verb);
      if q.Some? {
        var frame := VerbFrame(q.value, data, stats);
        if frame.Ok? {
          step := [frame.value];
        }
      }
    }
  }

  // ---------------------------------------------------------------------------------------
  // Batches.

  /** `wide_df['hospitalization_id'].unique()`: each id once in order of appearance, NULL included. */
  function UniqueIds(rows: seq<Row>): seq<Option<Value>> {
    Distinct(IdColumn(rows))
  }

  /** The `hospitalization_id` column, row by row. */
  function IdColumn(rows: seq<Row>): (ids: seq<Option<Value>>)
    ensures |ids| == |rows| && forall i :: 0 <= i < |rows| ==> ids[i] == Cell(rows[i], HID)
  {
    seq(|rows|, i requires 0 <= i < |rows| => Cell(rows[i], HID))
  }

  /** `wide_df[wide_df['hospitalization_id'].isin(batch)]`: the rows of the batch's encounters, in order. */
  function BatchRows(rows: seq<Row>, batch: seq<Option<Value>>): (rs: seq<Row>)
    ensures forall r :: r in rs <==> r in rows && Cell(r, HID) in batch
    decreases |rows|
  {
    if rows == [] then []
    else
      assert forall r :: r in rows <==> r == rows[0] || r in rows[1..];
      (if Cell(rows[0], HID) in batch then [rows[0]] else []) + BatchRows(rows[1..], batch)
  }

  /** A batch's result is kept when its run succeeds with at least one row. */
  predicate Kept(r: Result<Table>) {
    r.Ok? && |r.value.rows| > 0
  }

  /** One batch's run: the single pass over the batch's rows with the configuration it is handed. */
  function BatchResult(wide: Table, config: Config, batch: seq<Option<Value>>, stats: Stats): Result<Table> {
    SingleBatch(Table(wide.columns, BatchRows(wide.rows, batch)), config, stats)
  }

  /** The kept results, in order. */
  function KeptOf(results: seq<Result<Table>>): seq<Table>
    decreases |results|
  {
    if results == [] then []
    else
      var last := results[|results| - 1];
      KeptOf(results[..|results| - 1]) + (if Kept(last) then [last.value] else [])
  }

  /**
   * Each batch's result, in batch order: batch `k` runs with the caller's configuration as the
   * `k` batches before it left it.
   */
  function BatchResults(wide: Table, config: Config, batches: seq<seq<Option<Value>>>, stats: Stats): (rs: seq<Result<Table>>)
    ensures |rs| == |batches|
    ensures forall k :: 0 <= k < |batches| ==>
      rs[k] == BatchResult(wide, HourlyConfig.SharedAfterBatches(config, wide.columns, k), batches[k], stats)
  {
    seq(|batches|, k requires 0 <= k < |batches| => BatchResult(wide, HourlyConfig.SharedAfterBatches(config, wide.columns, k), batches[k], stats))
  }

  /** Each batch's result with the caller's configuration as given, as a deep copy would keep it. */
  function IntendedBatchResults(wide: Table, config: Config, batches: seq<seq<Option<Value>>>, stats: Stats): (rs: seq<Result<Table>>)
    ensures |rs| == |batches|
    ensures forall k :: 0 <= k < |batches| ==> rs[k] == BatchResult(wide, config, batches[k], stats)
  {
    seq(|batches|, k requires 0 <= k < |batches| => BatchResult(wide, config, batches[k], stats))
  }

  /** The batches of `size` encounters. */
  function Batches(wide: Table, size: nat): seq<seq<Option<Value>>>
    requires size > 0
  {
    Slices(UniqueIds(wide.rows), size)
  }

  /** The kept results stacked and sorted; a failure when none is kept. */
  function Stacked(results: seq<Result<Table>>): Result<Table> {
    var kept := KeptOf(results);
    if kept == [] then Err(ValueError("No batches processed successfully"))
    else Ok(Table(Concat(kept).columns, SortBy(Concat(kept).rows, HourlyKey)))
  }

  /**
   * `_process_hourly_in_batches`: each batch runs on a shallow copy of the configuration, whose
   * `first` list is the caller's; the kept results are stacked and sorted, and when none is
   * kept the run fails.
   */
  function InBatches(wide: Table, config: Config, size: nat, stats: Stats): Result<Table>
    requires size > 0
  {
    Stacked(BatchResults(wide, config, Batches(wide, size), stats))
  }

  /** The batched run as the copy is meant to make it: every batch with the caller's configuration. */
  function IntendedInBatches(wide: Table, config: Config, size: nat, stats: Stats): Result<Table>
    requires size > 0
  {
    Stacked(IntendedBatchResults(wide, config, Batches(wide, size), stats))
  }

  /** A configuration a batch leaves as it is stays so for every later batch. */
  lemma {:induction false} SharedAfterFixed(config: Config, all: seq<string>, k: nat)
    requires HourlyConfig.SharedAfter(config, all) == config
    ensures HourlyConfig.SharedAfterBatches(config, all, k) == config
    decreases k
  {
    if k > 0 {
      SharedAfterFixed(config, all, k - 1);
    }
  }

  /**
   * Without a configured `first` list, or with no column left to default, the batches do not
   * disturb one another: the batched run is the intended one.
   */
  lemma UnsharedAsIntended(wide: Table, config: Config, size: nat, stats: Stats)
    requires size > 0
    requires Lookup(config, "first").None? || DefaultColumns(config, wide.columns) == []
    ensures InBatches(wide, config, size, stats) == IntendedInBatches(wide, config, size, stats)
  {
    HourlyConfig.SharedAfterUsesUp(config, wide.columns);
    SharedAfterFixed(config, wide.columns, |Batches(wide, size)|);
    forall k | 0 <= k < |Batches(wide, size)| ensures HourlyConfig.SharedAfterBatches(config, wide.columns, k) == config {
      SharedAfterFixed(config, wide.columns, k);
    }
    assert BatchResults(wide, config, Batches(wide, size), stats) == IntendedBatchResults(wide, config, Batches(wide, size), stats);
  }

  /**
   * With a configured `first` list, a column no verb names is aggregated as `<column>_c` by
   * the first batch and as `<column>_first`, never `<column>_c`, by the second: the stacked
   * frame holds it in two half-empty columns.
   */
  lemma SecondBatchRenamesDefaults(wide: Table, config: Config, size: nat, stats: Stats, c: string)
    requires size > 0 && |Batches(wide, size)| >= 2
    requires Lookup(config, "first").Some? && c in DefaultColumns(config, wide.columns)
    ensures exists q :: q in Queries(HourlyConfig.SharedAfterBatches(config, wide.columns, 0), wide.columns)
                        && q.verb == "first" && Item(First, c, c + "_c") in q.items
    ensures exists q :: q in Queries(HourlyConfig.SharedAfterBatches(config, wide.columns, 1), wide.columns)
                        && q.verb == "first" && Item(First, c, c + "_first") in q.items
    ensures forall q, it ::
      (q in Queries(HourlyConfig.SharedAfterBatches(config, wide.columns, 1), wide.columns) && it in q.items && it.column == c) ==>
        it.alias != c + "_c"
  {
    HourlyConfig.SharedFirstListRenamesDefaults(config, wide.columns, c);
    assert HourlyConfig.BatchPlansAsWritten(config, wide.columns, 2)[1] == Queries(HourlyConfig.SharedAfterBatches(config, wide.columns, 1), wide.columns);
  }

  /** Nothing is kept exactly when no result is. */
  lemma {:induction false} KeptOfEmpty(results: seq<Result<Table>>)
    ensures KeptOf(results) == [] <==> forall k :: 0 <= k < |results| ==> !Kept(results[k])
    decreases |results|
  {
    if results != [] {
      var init := results[..|results| - 1];
      KeptOfEmpty(init);
      assert forall k :: 0 <= k < |init| ==> init[k] == results[k];
    }
  }

  /**
   * The batched run fails, with "No batches processed successfully", exactly when no batch
   * succeeds with a row; it never fails otherwise.
   */
  lemma InBatchesFails(wide: Table, config: Config, size: nat, stats: Stats)
    requires size > 0
    ensures InBatches(wide, config, size, stats).Err? <==>
      forall k :: 0 <= k < |Batches(wide, size)| ==> !Kept(BatchResults(wide, config, Batches(wide, size), stats)[k])
    ensures InBatches(wide, config, size, stats).Err? ==>
      InBatches(wide, config, size, stats).error == ValueError("No batches processed successfully")
  {
    KeptOfEmpty(BatchResults(wide, config, Batches(wide, size), stats));
  }

  /**
   * Without `patient_id` the single pass raises the engine's error, while the batched run
   * swallows it in every batch and fails with its own message instead.
   */
  lemma MissingPatientIdByPath(wide: Table, config: Config, size: nat, stats: Stats)
    requires size > 0 && "patient_id" !in wide.columns
    ensures SingleBatch(wide, config, stats) == Err(EngineError("patient_id"))
    ensures InBatches(wide, config, size, stats) == Err(ValueError("No batches processed successfully"))
  {
    InBatchesFails(wide, config, size, stats);
  }

  /** Every element of a batch is an element of the flattened batches. */
  lemma {:induction false} InFlatten<T>(ss: seq<seq<T>>, k: nat, p: nat)
    requires k < |ss| && p < |ss[k]|
    ensures |Flatten(ss[..k])| + p < |Flatten(ss)| && Flatten(ss)[|Flatten(ss[..k])| + p] == ss[k][p]
    decreases k
  {
    assert Flatten(ss) == ss[0] + Flatten(ss[1..]);
    if k > 0 {
      InFlatten(ss[1..], k - 1, p);
      assert ss[1..][..k - 1] == ss[..k][1..];
      assert Flatten(ss[..k]) == ss[0] + Flatten(ss[..k][1..]);
    }
  }

  lemma {:induction false} FlattenPrefixGrows<T>(ss: seq<seq<T>>, k: nat)
    requires k < |ss|
    ensures |Flatten(ss[..k])| + |ss[k]| <= |Flatten(ss[..k + 1])|
    decreases k
  {
    assert Flatten(ss[..k + 1]) == ss[..k + 1][0] + Flatten(ss[..k + 1][1..]);
    if k > 0 {
      FlattenPrefixGrows(ss[1..], k - 1);
      assert ss[1..][..k - 1] == ss[..k][1..];
      assert ss[1..][..k] == ss[..k + 1][1..];
      assert Flatten(ss[..k]) == ss[0] + Flatten(ss[..k][1..]);
    }
  }

  lemma {:induction false} FlattenPrefixMonotone<T>(ss: seq<seq<T>>, k1: nat, k2: nat)
    requires k1 <= k2 <= |ss|
    ensures |Flatten(ss[..k1])| <= |Flatten(ss[..k2])|
    decreases k2 - k1
  {
    if k1 < k2 {
      FlattenPrefixGrows(ss, k1);
      FlattenPrefixMonotone(ss, k1 + 1, k2);
    }
  }

  /** When the flattened batches repeat nothing, no element lies in two batches. */
  lemma BatchesDisjoint<T>(ss: seq<seq<T>>, x: T, k1: nat, k2: nat)
    requires NoDuplicates(Flatten(ss))
    requires k1 < |ss| && k2 < |ss| && x in ss[k1] && x in ss[k2]
    ensures k1 == k2
  {
    var p1 :| 0 <= p1 < |ss[k1]| && ss[k1][p1] == x;
    var p2 :| 0 <= p2 < |ss[k2]| && ss[k2][p2] == x;
    InFlatten(ss, k1, p1);
    InFlatten(ss, k2, p2);
    if k1 < k2 {
      FlattenPrefixGrows(ss, k1);
      FlattenPrefixMonotone(ss, k1 + 1, k2);
    } else if k2 < k1 {
      FlattenPrefixGrows(ss, k2);
      FlattenPrefixMonotone(ss, k2 + 1, k1);
    }
  }

  /**
   * The batches partition the encounters: every row of the wide frame belongs to exactly one
   * batch, whose rows it is among.
   */
  lemma BatchesPartitionRows(wide: Table, size: nat, r: Row)
    requires size > 0 && r in wide.rows
    ensures exists k :: 0 <= k < |Batches(wide, size)| && r in BatchRows(wide.rows, Batches(wide, size)[k])
    ensures forall k1, k2 ::
      (0 <= k1 < |Batches(wide, size)| && 0 <= k2 < |Batches(wide, size)| &&
       r in BatchRows(wide.rows, Batches(wide, size)[k1]) && r in BatchRows(wide.rows, Batches(wide, size)[k2])) ==> k1 == k2
  {
    var ids := UniqueIds(wide.rows);
    var bs := Batches(wide, size);
    SlicesCover(ids, size);
    var j :| 0 <= j < |wide.rows| && wide.rows[j] == r;
    assert IdColumn(wide.rows)[j] in IdColumn(wide.rows);
    var q :| 0 <= q < |Flatten(bs)| && Flatten(bs)[q] == Cell(r, HID);
    var k := BatchOf(bs, q);
    assert Cell(r, HID) in bs[k];
    forall k1, k2 | 0 <= k1 < |bs| && 0 <= k2 < |bs| && r in BatchRows(wide.rows, bs[k1]) && r in BatchRows(wide.rows, bs[k2])
      ensures k1 == k2
    {
      BatchesDisjoint(bs, Cell(r, HID), k1, k2);
    }
  }

  /** The batch holding position `q` of the flattened batches. */
  lemma {:induction false} BatchOf<T>(ss: seq<seq<T>>, q: nat) returns (k: nat)
    requires q < |Flatten(ss)|
    ensures k < |ss| && Flatten(ss)[q] in ss[k]
    decreases |ss|
  {
    assert Flatten(ss) == ss[0] + Flatten(ss[1..]);
    if q < |ss[0]| {
      k := 0;
      assert Flatten(ss)[q] == ss[0][q];
    } else {
      var k' := BatchOf(ss[1..], q - |ss[0]|);
      k := k' + 1;
    }
  }

  /** Sorting an already sorted sequence leaves it as it is. */
  lemma {:induction false} SortSorted<T>(s: seq<T>, key: T -> Key)
    requires SortedBy(s, key)
    ensures SortBy(s, key) == s
    decreases |s|
  {
    if s != [] {
      SortSorted(s[1..], key);
      if |s| > 1 {
        assert KeyLe(key(s[0]), key(s[1]));
        assert [s[0]] + s[1..] == s;
      }
    }
  }

  /** With every id in the batch, the batch keeps every row. */
  lemma {:induction false} BatchRowsAll(rows: seq<Row>, batch: seq<Option<Value>>)
    requires forall i :: 0 <= i < |rows| ==> Cell(rows[i], HID) in batch
    ensures BatchRows(rows, batch) == rows
    decreases |rows|
  {
    if rows != [] {
      BatchRowsAll(rows[1..], batch);
    }
  }

  /**
   * Batching changes nothing when one batch holds every encounter: the batched run returns
   * what the single pass returns, except that it fails when that result is empty or an error.
   */
  lemma OneBatchIsSinglePass(wide: Table, config: Config, size: nat, stats: Stats)
    requires size > 0 && |UniqueIds(wide.rows)| <= size
    ensures InBatches(wide, config, size, stats) ==
      if Kept(SingleBatch(wide, config, stats)) then SingleBatch(wide, config, stats)
      else Err(ValueError("No batches processed successfully"))
  {
    if UniqueIds(wide.rows) == [] {
      NoIdsNothingKept(wide, config, stats);
      assert Batches(wide, size) == [];
    } else {
      OneBatchResults(wide, config, size, stats);
      var single := SingleBatch(wide, config, stats);
      assert KeptOf([single]) == if Kept(single) then [single.value] else [];
      if Kept(single) {
        SingleBatchRows(wide, config, stats);
        StackOneSorted(single.value);
      }
    }
  }

  /** A frame without encounter ids has no hourly rows. */
  lemma NoIdsNothingKept(wide: Table, config: Config, stats: Stats)
    requires UniqueIds(wide.rows) == []
    ensures !Kept(SingleBatch(wide, config, stats))
  {
    assert HourlyData(wide.rows) == [];
  }

  /** When one batch holds every encounter, its run is the single pass over the whole frame. */
  lemma OneBatchResults(wide: Table, config: Config, size: nat, stats: Stats)
    requires size > 0 && UniqueIds(wide.rows) != [] && |UniqueIds(wide.rows)| <= size
    ensures BatchResults(wide, config, Batches(wide, size), stats) == [SingleBatch(wide, config, stats)]
  {
    var ids := UniqueIds(wide.rows);
    assert Batches(wide, size) == [ids];
    forall i | 0 <= i < |wide.rows| ensures Cell(wide.rows[i], HID) in ids {
      assert IdColumn(wide.rows)[i] in IdColumn(wide.rows);
    }
    BatchRowsAll(wide.rows, ids);
    assert Table(wide.columns, BatchRows(wide.rows, ids)) == wide;
  }

  /** Stacking and sorting one sorted frame with unique columns gives it back. */
  lemma StackOneSorted(t: Table)
    requires NoDuplicates(t.columns) && SortedBy(t.rows, HourlyKey)
    ensures Table(Concat([t]).columns, SortBy(Concat([t]).rows, HourlyKey)) == t
  {
    assert AllColumns([t]) == t.columns;
    assert AllRows([t]) == t.rows;
    DistinctOfUnique(t.columns);
    SortSorted(t.rows, HourlyKey);
  }

  lemma KeptOfSnoc(results: seq<Result<Table>>, k: nat)
    requires k < |results|
    ensures KeptOf(results[..k + 1]) == KeptOf(results[..k]) + (if Kept(results[k]) then [results[k].value] else [])
  {
    assert results[..k + 1][..k] == results[..k];
  }

  // ---------------------------------------------------------------------------------------
  // The entry point.

  /** The columns a wide frame must have, in the order they are checked. */
  const REQUIRED_COLUMNS: seq<string> := ["event_time", "hospitalization_id", "day_number"]

  /** The first required column the frame lacks. */
  function MissingRequired(columns: seq<string>): (r: Option<string>)
    ensures r.None? <==> forall c :: c in REQUIRED_COLUMNS ==> c in columns
    ensures r.Some? ==> r.value in REQUIRED_COLUMNS && r.value !in columns
    ensures r.Some? ==> forall i :: 0 <= i < FirstIndex(REQUIRED_COLUMNS, r.value) ==> REQUIRED_COLUMNS[i] in columns
  {
    if "event_time" !in columns then Some("event_time")
    else if "hospitalization_id" !in columns then Some("hospitalization_id")
    else if "day_number" !in columns then Some("day_number")
    else None
  }

  /** Rows above this count call for batching. */
  const ROW_THRESHOLD: nat := 1000000
  /** Encounters above this count call for batching. */
  const ENCOUNTER_THRESHOLD: nat := 10000
  /** The largest automatic batch. */
  const MAX_AUTO_BATCH: nat := 5000

  /** `nunique()` of the encounter ids: NULL is not counted. */
  function CountEncounters(rows: seq<Row>): nat {
    var ids := UniqueIds(rows);
    |ids| - (if None in ids then 1 else 0)
  }

  /**
   * The automatic batch size: a quarter of the encounters, at most 5000, when the frame has
   * over a million rows or over ten thousand encounters; otherwise 0, a single pass.
   */
  function AutoBatchSize(nRows: nat, nEncounters: nat): int {
    if nRows > ROW_THRESHOLD || nEncounters > ENCOUNTER_THRESHOLD then
      if MAX_AUTO_BATCH <= nEncounters / 4 then MAX_AUTO_BATCH else nEncounters / 4
    else 0
  }

  /**
   * The automatic size never exceeds 5000 nor a quarter of the encounters; it batches every
   * frame with over ten thousand encounters, and a frame with fewer than four encounters
   * always runs in a single pass.
   */
  lemma AutoBatchSizeBounds(nRows: nat, nEncounters: nat)
    ensures 0 <= AutoBatchSize(nRows, nEncounters) <= MAX_AUTO_BATCH
    ensures AutoBatchSize(nRows, nEncounters) * 4 <= nEncounters
    ensures AutoBatchSize(nRows, nEncounters) > 0 <==>
      (nRows > ROW_THRESHOLD || nEncounters > ENCOUNTER_THRESHOLD) && nEncounters >= 4
  {
  }

  /** The batch size the run uses: the caller's, or the automatic one when none is given. */
  function EffectiveBatchSize(wide: Table, batchSize: Option<int>): int {
    match batchSize
    case Some(b) => b
    case None => AutoBatchSize(|wide.rows|, CountEncounters(wide.rows))
  }

  /**
   * `convert_wide_to_hourly_optimized`: a ValueError naming the first missing required
   * column; otherwise batches when the batch size is positive, and a single pass when not.
   */
  function ConvertWideToHourly(wide: Table, config: Config, batchSize: Option<int>, stats: Stats): Result<Table> {
    match MissingRequired(wide.columns)
    case Some(c) => Err(ValueError("wide_df must contain '" + c + "' column"))
    case None =>
      var size := EffectiveBatchSize(wide, batchSize);
      if size > 0 then InBatches(wide, config, size, stats) else SingleBatch(wide, config, stats)
  }

  /**
   * The input check comes first: without a required column the call fails naming it; with
   * all of them, a call never fails for a missing base column, and a single pass succeeds
   * exactly when `patient_id` is present.
   */
  lemma ConvertChecksFirst(wide: Table, config: Config, batchSize: Option<int>, stats: Stats)
    ensures MissingRequired(wide.columns).Some? ==>
      ConvertWideToHourly(wide, config, batchSize, stats) == Err(ValueError("wide_df must contain '" + MissingRequired(wide.columns).value + "' column"))
    ensures MissingRequired(wide.columns).None? && EffectiveBatchSize(wide, batchSize) <= 0 ==>
      (ConvertWideToHourly(wide, config, batchSize, stats).Ok? <==> "patient_id" in wide.columns)
  {
  }

  /**
   * `_process_hourly_in_batches` step by step: each batch filtered and run on a shallow copy
   * of the caller's dict, its result kept when it has rows and skipped when it fails. The
   * caller's dict keeps its keys and list objects, and its `first` list grows batch by batch.
   */
  method ProcessHourlyInBatches(wide: Table, config: HourlyConfig.AggregationConfig, size: nat, stats: Stats) returns (r: Result<Table>)
    requires size > 0 && config.Valid()
    modifies config.lists
    ensures config.Valid() && config.verbs == old(config.verbs) && config.lists == old(config.lists)
    ensures r == InBatches(wide, old(config.Snapshot()), size, stats)
    ensures config.Snapshot() == HourlyConfig.SharedAfterBatches(old(config.Snapshot()), wide.columns, |Batches(wide, size)|)
  {
    ghost var start := config.Snapshot();
    var batches := Slices(UniqueIds(wide.rows), size);
    ghost var results := BatchResults(wide, start, batches, stats);
    var kept: seq<Table> := [];
    for k := 0 to |batches|
      invariant config.Valid() && config.verbs == old(config.verbs) && config.lists == old(config.lists)
      invariant config.Snapshot() == HourlyConfig.SharedAfterBatches(start, wide.columns, k)
      invariant kept == KeptOf(results[..k])
    {
      ghost var current := config.Snapshot();
      var batchRows := BatchRows(wide.rows, batches[k]);
      var copy := config.ShallowCopy();
      assert copy.Snapshot() == current;
      var result := ProcessHourlySingleBatch(Table(wide.columns, batchRows), copy, stats);
      HourlyConfig.SharedPrefix(config, copy, |config.verbs|);
      HourlyConfig.WithDefaultsPrefix(current, wide.columns);
      assert results[k] == result;
      KeptOfSnoc(results, k);
      if result.Ok? && |result.value.rows| > 0 {
        kept := kept + [result.value];
      }
    }
    assert results[..|batches|] == results;
    if kept == [] {
      return Err(ValueError("No batches processed successfully"));
    }
    var all := Concat(kept);
    r := Ok(Table(all.columns, SortBy(all.rows, HourlyKey)));
  }

  /**
   * What the call leaves in the caller's configuration: nothing changes when a required column
   * is missing; a single pass extends the dict itself (adding a `first` list when it has
   * none); batches extend only a `first` list the caller already has, once per batch.
   */
  function ConfigAfterCall(wide: Table, config: Config, batchSize: Option<int>): Config {
    if MissingRequired(wide.columns).Some? then config
    else
      var size := EffectiveBatchSize(wide, batchSize);
      if size > 0 then HourlyConfig.SharedAfterBatches(config, wide.columns, |Batches(wide, size)|)
      else WithDefaults(config, DefaultColumns(config, wide.columns))
  }

  /** Nothing is left to default once a batch has extended the shared `first` list. */
  lemma {:induction false} SharedAfterBatchesUsesUp(config: Config, all: seq<string>, k: nat)
    requires Lookup(config, "first").Some? && k > 0
    ensures DefaultColumns(HourlyConfig.SharedAfterBatches(config, all, k), all) == []
    decreases k
  {
    if k == 1 {
      HourlyConfig.SharedAfterUsesUp(config, all);
    } else {
      var before := HourlyConfig.SharedAfterBatches(config, all, k - 1);
      SharedAfterBatchesUsesUp(config, all, k - 1);
      HourlyConfig.NothingDefaultedUnchanged(before, all);
    }
  }

  /**
   * After a call that ran a single pass, or ran batches with a configured `first` list, no
   * column of the frame is defaulted any more: a second call with the same configuration
   * object names every such column `<column>_first`. Batches without a `first` list leave the
   * configuration as it was.
   */
  lemma CallUsesUpDefaults(wide: Table, config: Config, batchSize: Option<int>)
    requires MissingRequired(wide.columns).None?
    ensures var size := EffectiveBatchSize(wide, batchSize);
      var after := ConfigAfterCall(wide, config, batchSize);
      && (size <= 0 ==> DefaultColumns(after, wide.columns) == [])
      && (size > 0 && Lookup(config, "first").Some? && UniqueIds(wide.rows) != [] ==> DefaultColumns(after, wide.columns) == [])
      && (size > 0 && Lookup(config, "first").None? ==> after == config)
  {
    var size := EffectiveBatchSize(wide, batchSize);
    if size <= 0 {
      HourlyConfig.DefaultsUsedUp(config, wide.columns);
    } else {
      var n := |Batches(wide, size)|;
      if Lookup(config, "first").Some? && UniqueIds(wide.rows) != [] {
        SlicesShape(UniqueIds(wide.rows), size);
        SharedAfterBatchesUsesUp(config, wide.columns, n);
      } else if Lookup(config, "first").None? {
        HourlyConfig.SharedAfterUsesUp(config, wide.columns);
        SharedAfterFixed(config, wide.columns, n);
      }
    }
  }

  /**
   * `convert_wide_to_hourly_optimized` step by step on the caller's dict object: the checks
   * in order, then the dispatch, leaving the dict as `ConfigAfterCall` says.
   */
  method ConvertWideToHourlyOptimized(wide: Table, config: HourlyConfig.AggregationConfig, batchSize: Option<int>, stats: Stats)
    returns (r: Result<Table>)
    requires config.Valid()
    modifies config, config.lists
    ensures config.Valid()
    ensures r == ConvertWideToHourly(wide, old(config.Snapshot()), batchSize, stats)
    ensures config.Snapshot() == ConfigAfterCall(wide, old(config.Snapshot()), batchSize)
  {
    for i := 0 to |REQUIRED_COLUMNS|
      invariant forall j :: 0 <= j < i ==> REQUIRED_COLUMNS[j] in wide.columns
    {
      var c := REQUIRED_COLUMNS[i];
      if c !in wide.columns {
        assert MissingRequired(wide.columns) == Some(c);
        return Err(ValueError("wide_df must contain '" + c + "' column"));
      }
    }
    var size: int;
    if batchSize.None? {
      size := AutoBatchSize(|wide.rows|, CountEncounters(wide.rows));
    } else {
      size := batchSize.value;
    }
    if size > 0 {
      r := ProcessHourlyInBatches(wide, config, size, stats);
    } else {
      r := ProcessHourlySingleBatch(wide, config, stats);
    }
  }
}
