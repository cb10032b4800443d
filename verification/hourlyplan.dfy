/**
 * The output columns of the hourly aggregation: which column each configured verb aggregates
 * and under what name, and the columns no verb mentions, which default to FIRST under a `_c`
 * name. This is the query plan built from the configuration as a value, which leaves the
 * caller's configuration as it was.
 */
module HourlyPlan {
  import opened Wrappers
  import opened Relational

  /** The columns every hourly query groups by. */
  const GROUP_COLUMNS: seq<string> := ["hospitalization_id", "event_time_hour", "nth_hour", "hour_bucket"]

  /** Columns that never default to FIRST: the base query carries them, or they are dropped. */
  const NEVER_DEFAULTED: seq<string> := ["patient_id", "day_number", "first_event_hour", "event_time"]

  /** The order in which the verb queries run and their columns are appended. */
  const AGG_ORDER: seq<string> := ["max", "min", "mean", "median", "first", "last", "boolean", "one_hot_encode"]

  /** One entry of `aggregation_config`: a verb and the columns it applies to. */
  datatype Entry = Entry(verb: string, columns: seq<string>)

  /** `aggregation_config`, a dict in insertion order. */
  type Config = seq<Entry>

  /** Every column the configuration names, under any verb. */
  function Listed(config: Config): (r: seq<string>)
    ensures forall c :: c in r <==> exists e :: e in config && c in e.columns
    decreases |config|
  {
    if config == [] then []
    else
      assert forall e :: e in config <==> e == config[0] || e in config[1..];
      config[0].columns + Listed(config[1..])
  }

  /**
   * `non_agg_columns`: the columns of the frame that no verb names, other than the group
   * columns and the columns that never default, in frame order.
   */
  function DefaultColumns(config: Config, all: seq<string>): (r: seq<string>)
    ensures forall c :: c in r <==>
      c in all && c !in Listed(config) && c !in GROUP_COLUMNS && c !in NEVER_DEFAULTED
    decreases |all|
  {
    if all == [] then []
    else
      var c := all[0];
      assert forall x :: x in all <==> x == c || x in all[1..];
      (if c !in Listed(config) && c !in GROUP_COLUMNS && c !in NEVER_DEFAULTED then [c] else [])
      + DefaultColumns(config, all[1..])
  }

  /** `aggregation_config[verb]`, or None when the verb is absent. */
  function Lookup(config: Config, verb: string): (r: Option<seq<string>>)
    ensures r.Some? <==> exists e :: e in config && e.verb == verb
    ensures r.Some? ==> Entry(verb, r.value) in config
    decreases |config|
  {
    if config == [] then None
    else if config[0].verb == verb then Some(config[0].columns)
    else
      assert forall e :: e in config <==> e == config[0] || e in config[1..];
      Lookup(config[1..], verb)
  }

  /** Appends `extra` to the columns of the first entry for `verb`. */
  function Extend(config: Config, verb: string, extra: seq<string>): (r: Config)
    ensures |r| == |config|
    ensures forall i :: 0 <= i < |r| ==> r[i].verb == config[i].verb
    decreases |config|
  {
    if config == [] then []
    else if config[0].verb == verb then [Entry(verb, config[0].columns + extra)] + config[1..]
    else [config[0]] + Extend(config[1..], verb, extra)
  }

  /**
   * The configuration once the defaulted columns are added to FIRST: appended to the `first`
   * list, which is created (at the end of the dict) when absent.
   */
  function WithDefaults(config: Config, defaults: seq<string>): (r: Config)
  {
    if defaults == [] then config
    else if Lookup(config, "first").None? then config + [Entry("first", defaults)]
    else Extend(config, "first", defaults)
  }

  /** The aggregate a verb asks for. */
  datatype Agg = Max | Min | Mean | Median | First | Last | Boolean

  function AggOf(verb: string): Option<Agg> {
    match verb
    case "max" => Some(Max)
    case "min" => Some(Min)
    case "mean" => Some(Mean)
    case "median" => Some(Median)
    case "first" => Some(First)
    case "last" => Some(Last)
    case "boolean" => Some(Boolean)
    case _ => None
  }

  /** The suffix of a verb's output columns. */
  function Suffix(a: Agg): string {
    match a
    case Max => "_max"
    case Min => "_min"
    case Mean => "_mean"
    case Median => "_median"
    case First => "_first"
    case Last => "_last"
    case Boolean => "_boolean"
  }

  /** One aggregate of a verb query: `AGG(column) AS alias`. */
  datatype Item = Item(agg: Agg, column: string, alias: string)

  /** `valid_columns`: the configured columns that the frame has, in configured order. */
  function Present(columns: seq<string>, all: seq<string>): (r: seq<string>)
    ensures forall c :: c in r <==> c in columns && c in all
    decreases |columns|
  {
    if columns == [] then []
    else
      assert forall c :: c in columns <==> c == columns[0] || c in columns[1..];
      (if columns[0] in all then [columns[0]] else []) + Present(columns[1..], all)
  }

  /** The output name of `column` under aggregate `a`: a defaulted FIRST column ends in `_c`. */
  function Alias(a: Agg, column: string, defaults: seq<string>): string {
    column + if a == First && column in defaults then "_c" else Suffix(a)
  }

  /** The aggregates of a verb over its columns; an unknown verb contributes none. */
  function VerbItems(verb: string, valid: seq<string>, defaults: seq<string>): (r: seq<Item>)
    ensures |r| == if AggOf(verb).Some? then |valid| else 0
    ensures forall it :: it in r ==>
      AggOf(verb) == Some(it.agg) && it.column in valid && it.alias == Alias(it.agg, it.column, defaults)
  {
    match AggOf(verb)
    case None => []
    case Some(a) => seq(|valid|, i requires 0 <= i < |valid| => Item(a, valid[i], Alias(a, valid[i], defaults)))
  }

  /** One verb query: the verb and the aggregates after the group columns. */
  datatype VerbQuery = VerbQuery(verb: string, items: seq<Item>)

  /** A verb query is built for every verb but one-hot that has a column in the frame. */
  function QueriesOf(cfg: Config, all: seq<string>, defaults: seq<string>): (qs: seq<VerbQuery>)
    decreases |cfg|
  {
    if cfg == [] then [] else EntryQuery(cfg[0], all, defaults) + QueriesOf(cfg[1..], all, defaults)
  }

  /** The query of one configuration entry: none for one-hot or when the frame has none of its columns. */
  function EntryQuery(e: Entry, all: seq<string>, defaults: seq<string>): seq<VerbQuery> {
    var valid := Present(e.columns, all);
    if e.verb == "one_hot_encode" || valid == [] then [] else [VerbQuery(e.verb, VerbItems(e.verb, valid, defaults))]
  }

  /** `_build_aggregation_query_duckdb` without its side effect: the verb queries. */
  function Queries(config: Config, all: seq<string>): seq<VerbQuery> {
    var defaults := DefaultColumns(config, all);
    QueriesOf(WithDefaults(config, defaults), all, defaults)
  }

  /** The query of `verb`, when one was built. */
  function QueryFor(qs: seq<VerbQuery>, verb: string): (r: Option<VerbQuery>)
    ensures r.Some? ==> r.value in qs && r.value.verb == verb
    ensures r.None? ==> forall q :: q in qs ==> q.verb != verb
  {
    if qs == [] then None
    else if qs[0].verb == verb then Some(qs[0])
    else QueryFor(qs[1..], verb)
  }

  /** The columns to one-hot encode: those listed under `one_hot_encode` that the frame has. */
  function OneHotColumns(config: Config, all: seq<string>): seq<string> {
    match Lookup(config, "one_hot_encode")
    case None => []
    case Some(cs) => Present(cs, all)
  }

  /**
   * `select_parts` grown one aggregate at a time: one item per valid column, each named by
   * the column and its verb's suffix.
   */
  method BuildSelectParts(verb: string, valid: seq<string>, defaults: seq<string>) returns (items: seq<Item>)
    ensures items == VerbItems(verb, valid, defaults)
  {
    items := [];
    var agg := AggOf(verb);
    if agg.None? {
      return;
    }
    for i := 0 to |valid|
      invariant items == seq(i, k requires 0 <= k < i => Item(agg.value, valid[k], Alias(agg.value, valid[k], defaults)))
    {
      var column := valid[i];
      var alias := column + if agg.value == First && column in defaults then "_c" else Suffix(agg.value);
      items := items + [Item(agg.value, column, alias)];
    }
  }

  // ---------------------------------------------------------------------------------------
  // What the plan names.

  /** Every aggregate of a plan is over a column the frame has, named by that column and its verb. */
  predicate WellNamed(qs: seq<VerbQuery>, all: seq<string>, defaults: seq<string>) {
    forall q, it :: q in qs && it in q.items ==>
      && q.verb != "one_hot_encode"
      && AggOf(q.verb) == Some(it.agg)
      && it.column in all
      && it.alias == it.column + (if it.agg == First && it.column in defaults then "_c" else Suffix(it.agg))
  }

  lemma {:induction false} QueriesOfWellNamed(cfg: Config, all: seq<string>, defaults: seq<string>)
    ensures WellNamed(QueriesOf(cfg, all, defaults), all, defaults)
    decreases |cfg|
  {
    if cfg != [] {
      QueriesOfWellNamed(cfg[1..], all, defaults);
      EntryQueryWellNamed(cfg[0], all, defaults);
      WellNamedAppend(EntryQuery(cfg[0], all, defaults), QueriesOf(cfg[1..], all, defaults), all, defaults);
    }
  }

  lemma EntryQueryWellNamed(e: Entry, all: seq<string>, defaults: seq<string>)
    ensures WellNamed(EntryQuery(e, all, defaults), all, defaults)
  {
  }

  lemma WellNamedAppend(a: seq<VerbQuery>, b: seq<VerbQuery>, all: seq<string>, defaults: seq<string>)
    requires WellNamed(a, all, defaults) && WellNamed(b, all, defaults)
    ensures WellNamed(a + b, all, defaults)
  {
  }

  /**
   * Output names: configured columns the frame lacks are ignored, every other aggregate is
   * named `<column>_<verb>`, except that a defaulted column under FIRST is named `<column>_c`;
   * one-hot never appears among the verb queries.
   */
  lemma QueriesNaming(config: Config, all: seq<string>)
    ensures WellNamed(Queries(config, all), all, DefaultColumns(config, all))
  {
    var defaults := DefaultColumns(config, all);
    QueriesOfWellNamed(WithDefaults(config, defaults), all, defaults);
  }

  /** A configured column the frame has gets an aggregate in its verb's query. */
  lemma {:induction false} QueriesOfCover(cfg: Config, all: seq<string>, defaults: seq<string>, e: Entry, c: string)
    requires e in cfg && AggOf(e.verb).Some? && c in e.columns && c in all
    ensures exists q :: q in QueriesOf(cfg, all, defaults) && q.verb == e.verb &&
              Item(AggOf(e.verb).value, c, Alias(AggOf(e.verb).value, c, defaults)) in q.items
    decreases |cfg|
  {
    if cfg[0] == e {
      var valid := Present(e.columns, all);
      var i :| 0 <= i < |valid| && valid[i] == c;
      var q := VerbQuery(e.verb, VerbItems(e.verb, valid, defaults));
      assert q.items[i] == Item(AggOf(e.verb).value, c, Alias(AggOf(e.verb).value, c, defaults));
      assert q in QueriesOf(cfg, all, defaults);
    } else {
      QueriesOfCover(cfg[1..], all, defaults, e, c);
    }
  }

  lemma {:induction false} ExtendKeeps(config: Config, verb: string, extra: seq<string>, e: Entry)
    requires e in config && e.verb != verb
    ensures e in Extend(config, verb, extra)
    decreases |config|
  {
    if config[0] != e {
      ExtendKeeps(config[1..], verb, extra, e);
    }
  }

  lemma {:induction false} ExtendFirst(config: Config, verb: string, extra: seq<string>)
    requires Lookup(config, verb).Some?
    ensures Entry(verb, Lookup(config, verb).value + extra) in Extend(config, verb, extra)
    decreases |config|
  {
    if config[0].verb != verb {
      ExtendFirst(config[1..], verb, extra);
    }
  }

  /** Every column of the frame that no verb names, outside the group and base columns, comes out as FIRST under `<column>_c`. */
  lemma DefaultedColumnsNamedC(config: Config, all: seq<string>, c: string)
    requires c in DefaultColumns(config, all)
    ensures exists q :: q in Queries(config, all) && q.verb == "first" && Item(First, c, c + "_c") in q.items
  {
    var defaults := DefaultColumns(config, all);
    var cfg := WithDefaults(config, defaults);
    var e: Entry;
    if Lookup(config, "first").None? {
      e := Entry("first", defaults);
      assert e in cfg;
    } else {
      e := Entry("first", Lookup(config, "first").value + defaults);
      ExtendFirst(config, "first", defaults);
    }
    FirstVerb();
    QueriesOfCover(cfg, all, defaults, e, c);
    assert Alias(First, c, defaults) == c + "_c";
  }

  lemma FirstVerb()
    ensures AggOf("first") == Some(First)
  {
  }

  /** Every configured column the frame has is aggregated by its verb under `<column>_<verb>` (or `_c`). */
  lemma ConfiguredColumnsCovered(config: Config, all: seq<string>, e: Entry, c: string)
    requires e in config && AggOf(e.verb).Some? && c in e.columns && c in all
    ensures exists q :: q in Queries(config, all) && q.verb == e.verb &&
              Item(AggOf(e.verb).value, c, Alias(AggOf(e.verb).value, c, DefaultColumns(config, all))) in q.items
  {
    var defaults := DefaultColumns(config, all);
    var cfg := WithDefaults(config, defaults);
    if defaults == [] || Lookup(config, "first").None? || e.verb != "first" {
      if defaults != [] && Lookup(config, "first").Some? {
        ExtendKeeps(config, "first", defaults, e);
      }
      QueriesOfCover(cfg, all, defaults, e, c);
    } else {
      // The first entry for `first` may be `e` itself, now extended.
      var f := Lookup(config, "first").value;
      ExtendFirst(config, "first", defaults);
      if Entry("first", f) == e {
        QueriesOfCover(cfg, all, defaults, Entry("first", f + defaults), c);
      } else {
        ExtendKeeps2(config, defaults, e);
        QueriesOfCover(cfg, all, defaults, e, c);
      }
    }
  }

  /** Extending the first `first` entry keeps every other entry. */
  lemma {:induction false} ExtendKeeps2(config: Config, extra: seq<string>, e: Entry)
    requires e in config && Lookup(config, "first").Some? && e != Entry("first", Lookup(config, "first").value)
    ensures e in Extend(config, "first", extra)
    decreases |config|
  {
    if config[0] != e {
      if config[0].verb != "first" {
        ExtendKeeps2(config[1..], extra, e);
      } else {
        assert e in config[1..];
      }
    }
  }
}
