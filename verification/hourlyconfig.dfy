/**
 * `_build_aggregation_query_duckdb` as written: it extends `aggregation_config['first']` in
 * place (creating the key when absent), and the batch loop hands it `aggregation_config.copy()`,
 * a shallow copy whose lists are the caller's own list objects. The extension therefore
 * reaches the caller's configuration, and the next batch (or the next call) no longer sees the
 * defaulted columns as unconfigured.
 */
module HourlyConfig {
  import opened Wrappers
  import opened Relational
  import opened HourlyPlan

  /** A Python list object; every dict that holds it sees its changes. */
  class ColumnList {
    var items: seq<string>

    constructor (items: seq<string>)
      ensures this.items == items
    {
      this.items := items;
    }
  }

  /** `aggregation_config`: a dict object from verb to list object. */
  class AggregationConfig {
    var verbs: seq<string>
    var lists: seq<ColumnList>

    /** One list per verb, verbs unique (dict keys), and no list object under two verbs. */
    ghost predicate Valid()
      reads this
    {
      && |verbs| == |lists|
      && NoDuplicates(verbs)
      && forall i, j :: 0 <= i < j < |lists| ==> lists[i] != lists[j]
    }

    /** The dict's contents as a value. */
    function Snapshot(): (c: Config)
      reads this, lists
      requires |verbs| == |lists|
      ensures |c| == |verbs| && forall i :: 0 <= i < |c| ==> c[i] == Entry(verbs[i], lists[i].items)
    {
      seq(|verbs|, i requires 0 <= i < |verbs| && |verbs| == |lists| reads this, lists => Entry(verbs[i], lists[i].items))
    }

    constructor (verbs: seq<string>, lists: seq<ColumnList>)
      ensures this.verbs == verbs && this.lists == lists
    {
      this.verbs := verbs;
      this.lists := lists;
    }

    /** `.copy()`: a new dict holding the same list objects. */
    method ShallowCopy() returns (c: AggregationConfig)
      ensures fresh(c) && c.verbs == verbs && c.lists == lists
    {
      c := new AggregationConfig(verbs, lists);
    }
  }

  /** The position of the first entry for `verb`, when there is one. */
  function IndexOf(verbs: seq<string>, verb: string): (r: Option<nat>)
    ensures r.Some? ==> r.value < |verbs| && verbs[r.value] == verb && forall j :: 0 <= j < r.value ==> verbs[j] != verb
    ensures r.None? ==> verb !in verbs
  {
    if verb in verbs then Some(FirstIndex(verbs, verb)) else None
  }

  /** Extending the first entry for `verb` changes that entry only. */
  lemma {:induction false} ExtendAt(config: Config, verb: string, extra: seq<string>, i: nat)
    requires i < |config| && config[i].verb == verb && forall j :: 0 <= j < i ==> config[j].verb != verb
    ensures Extend(config, verb, extra) == config[i := Entry(verb, config[i].columns + extra)]
    decreases i
  {
    if i > 0 {
      ExtendAt(config[1..], verb, extra, i - 1);
      assert config[1..][i - 1 := Entry(verb, config[i].columns + extra)] == config[i := Entry(verb, config[i].columns + extra)][1..];
    }
  }

  lemma LookupAt(config: Config, verb: string, i: nat)
    requires i < |config| && config[i].verb == verb && forall j :: 0 <= j < i ==> config[j].verb != verb
    ensures Lookup(config, verb) == Some(config[i].columns)
    decreases i
  {
    if i > 0 {
      LookupAt(config[1..], verb, i - 1);
    }
  }

  /**
   * `_build_aggregation_query_duckdb` on a dict object: the verb queries it returns are those
   * of the configuration it was handed, and the dict is left with the defaulted columns
   * appended to its `first` list (a new list at the end when it had none). List objects
   * already in the dict stay in place, so whoever shares them sees the extension.
   */
  method BuildAggregationQueries(config: AggregationConfig, all: seq<string>) returns (qs: seq<VerbQuery>)
    requires config.Valid()
    modifies config, config.lists
    ensures config.Valid()
    ensures qs == Queries(old(config.Snapshot()), all)
    ensures config.Snapshot() == WithDefaults(old(config.Snapshot()), DefaultColumns(old(config.Snapshot()), all))
    ensures |config.lists| >= |old(config.lists)| && config.lists[..|old(config.lists)|] == old(config.lists)
    ensures config.verbs[..|old(config.verbs)|] == old(config.verbs)
  {
    ghost var before := config.Snapshot();
    var defaults := DefaultColumns(config.Snapshot(), all);
    if defaults != [] {
      var at := IndexOf(config.verbs, "first");
      if at.None? {
        AddFirstList(config, defaults);
        assert Lookup(before, "first").None?;
      } else {
        var i := at.value;
        ExtendList(config, i, defaults);
        LookupAt(before, "first", i);
        ExtendAt(before, "first", defaults, i);
      }
    }
    qs := QueriesOf(config.Snapshot(), all, defaults);
  }

  /** `aggregation_config['first'] = defaults` on a dict without the key: a new list at the end. */
  method AddFirstList(config: AggregationConfig, defaults: seq<string>)
    requires config.Valid() && "first" !in config.verbs
    modifies config
    ensures config.Valid()
    ensures config.Snapshot() == old(config.Snapshot()) + [Entry("first", defaults)]
    ensures config.verbs == old(config.verbs) + ["first"]
    ensures |config.lists| == |old(config.lists)| + 1 && config.lists[..|old(config.lists)|] == old(config.lists)
  {
    ghost var before := config.Snapshot();
    var created := new ColumnList([]);
    config.verbs := config.verbs + ["first"];
    config.lists := config.lists + [created];
    created.items := defaults;
    assert config.lists[..|config.lists| - 1] == old(config.lists);
    assert config.Snapshot() == before + [Entry("first", defaults)];
  }

  /** `aggregation_config['first'].extend(defaults)`: the existing list object at `i` grows. */
  method ExtendList(config: AggregationConfig, i: nat, defaults: seq<string>)
    requires config.Valid() && i < |config.lists|
    modifies config.lists[i]
    ensures config.Valid()
    ensures config.Snapshot() == old(config.Snapshot())[i := Entry(config.verbs[i], old(config.Snapshot())[i].columns + defaults)]
  {
    var list := config.lists[i];
    list.items := list.items + defaults;
  }

  /**
   * What the caller's configuration looks like after one batch handed it a shallow copy: the
   * copy's new `first` list stays in the copy, but an existing `first` list is the caller's.
   */
  function SharedAfter(config: Config, all: seq<string>): Config {
    if Lookup(config, "first").Some? then WithDefaults(config, DefaultColumns(config, all)) else config
  }

  /**
   * The caller's configuration after `k` batches. Each batch hands the builder a shallow copy,
   * so an existing `first` list, shared with the caller, grows by that batch's defaulted columns.
   */
  function SharedAfterBatches(config: Config, all: seq<string>, k: nat): Config
    decreases k
  {
    if k == 0 then config else SharedAfter(SharedAfterBatches(config, all, k - 1), all)
  }

  /**
   * The verb queries of `n` batches, each built from a shallow copy of the caller's
   * configuration: batch `k` plans from what the `k` batches before it left.
   */
  function BatchPlansAsWritten(config: Config, all: seq<string>, n: nat): (plans: seq<seq<VerbQuery>>)
    ensures |plans| == n
  {
    seq(n, k requires 0 <= k < n => Queries(SharedAfterBatches(config, all, k), all))
  }

  /** The plans of one more batch: the plan from what the earlier batches left, at the end. */
  lemma PlansSnoc(config: Config, all: seq<string>, k: nat)
    ensures BatchPlansAsWritten(config, all, k + 1)
         == BatchPlansAsWritten(config, all, k) + [Queries(SharedAfterBatches(config, all, k), all)]
  {
    var longer := BatchPlansAsWritten(config, all, k + 1);
    assert longer[..k] == BatchPlansAsWritten(config, all, k);
    assert longer == longer[..k] + [longer[k]];
  }

  /** The caller's dict seen through the shared list objects: the copy's prefix. */
  lemma SharedPrefix(config: AggregationConfig, copy: AggregationConfig, n: nat)
    requires |config.verbs| == |config.lists| == n && |copy.verbs| == |copy.lists|
    requires n <= |copy.lists| && copy.lists[..n] == config.lists && copy.verbs[..n] == config.verbs
    ensures config.Snapshot() == copy.Snapshot()[..n]
  {
  }

  lemma WithDefaultsPrefix(config: Config, all: seq<string>)
    ensures WithDefaults(config, DefaultColumns(config, all))[..|config|] == SharedAfter(config, all)
  {
    var d := DefaultColumns(config, all);
    if d != [] && Lookup(config, "first").None? {
      assert (config + [Entry("first", d)])[..|config|] == config;
    }
  }

  /**
   * One batch's use of the builder: it hands a shallow copy of the caller's dict to
   * `_build_aggregation_query_duckdb`. The caller's dict keeps its keys and list objects, and
   * sees the extension exactly when it already had a `first` list.
   */
  method BuildForBatch(config: AggregationConfig, all: seq<string>) returns (qs: seq<VerbQuery>)
    requires config.Valid()
    modifies config.lists
    ensures config.Valid() && config.verbs == old(config.verbs) && config.lists == old(config.lists)
    ensures qs == Queries(old(config.Snapshot()), all)
    ensures config.Snapshot() == SharedAfter(old(config.Snapshot()), all)
  {
    ghost var current := config.Snapshot();
    var copy := config.ShallowCopy();
    assert copy.Snapshot() == current;
    qs := BuildAggregationQueries(copy, all);
    ghost var extended := WithDefaults(current, DefaultColumns(current, all));
    SharedPrefix(config, copy, |config.verbs|);
    WithDefaultsPrefix(current, all);
    assert config.Snapshot() == extended[..|current|];
  }

  /**
   * `_process_hourly_in_batches`' use of the builder: one shallow copy per batch. The caller's
   * dict object keeps its keys and list objects, but its `first` list grows with each batch.
   */
  method BatchPlans(config: AggregationConfig, all: seq<string>, n: nat) returns (plans: seq<seq<VerbQuery>>)
    requires config.Valid()
    modifies config.lists
    ensures plans == BatchPlansAsWritten(old(config.Snapshot()), all, n)
  {
    plans := [];
    ghost var start := config.Snapshot();
    for k := 0 to n
      invariant config.Valid() && config.verbs == old(config.verbs) && config.lists == old(config.lists)
      invariant config.Snapshot() == SharedAfterBatches(start, all, k)
      invariant plans == BatchPlansAsWritten(start, all, k)
    {
      var qs := BuildForBatch(config, all);
      PlansSnoc(start, all, k);
      plans := plans + [qs];
    }
  }

  /**
   * A column listed under `first` in a configuration is aggregated under `<column>_first`,
   * and never named `<column>_c`.
   */
  lemma ListedUnderFirst(config: Config, all: seq<string>, f: seq<string>, c: string)
    requires Entry("first", f) in config && c in f && c in all
    ensures exists q :: q in Queries(config, all) && q.verb == "first" && Item(First, c, c + "_first") in q.items
    ensures forall q, it :: q in Queries(config, all) && it in q.items && it.column == c ==> it.alias != c + "_c"
  {
    ListedNotDefaulted(config, all, f, c);
    FirstVerb();
    ConfiguredColumnsCovered(config, all, Entry("first", f), c);
    QueriesNaming(config, all);
    NeverNamedC(Queries(config, all), all, DefaultColumns(config, all), c);
  }

  lemma ListedNotDefaulted(config: Config, all: seq<string>, f: seq<string>, c: string)
    requires Entry("first", f) in config && c in f
    ensures c !in DefaultColumns(config, all)
    ensures Alias(First, c, DefaultColumns(config, all)) == c + "_first"
  {
    assert c in Listed(config);
  }

  /** In a well-named plan, a column that is not defaulted never comes out under `_c`. */
  lemma NeverNamedC(qs: seq<VerbQuery>, all: seq<string>, defaults: seq<string>, c: string)
    requires WellNamed(qs, all, defaults) && c !in defaults
    ensures forall q, it :: q in qs && it in q.items && it.column == c ==> it.alias != c + "_c"
  {
    forall q, it | q in qs && it in q.items && it.column == c
      ensures it.alias != c + "_c"
    {
      assert it.alias == c + Suffix(it.agg);
      assert it.alias[|c|..] == Suffix(it.agg);
      assert (c + "_c")[|c|..] == "_c";
    }
  }

  /**
   * The discrepancy between batches: when the caller's configuration has a `first` list, a
   * column no verb names is aggregated as `<column>_c` by the first batch and as
   * `<column>_first` by every later one, so the stacked frame splits it in two.
   */
  lemma SharedFirstListRenamesDefaults(config: Config, all: seq<string>, c: string)
    requires Lookup(config, "first").Some?
    requires c in DefaultColumns(config, all)
    ensures var plans := BatchPlansAsWritten(config, all, 2);
      && (exists q :: q in plans[0] && q.verb == "first" && Item(First, c, c + "_c") in q.items)
      && (exists q :: q in plans[1] && q.verb == "first" && Item(First, c, c + "_first") in q.items)
      && (forall q, it :: q in plans[1] && it in q.items && it.column == c ==> it.alias != c + "_c")
  {
    var defaults := DefaultColumns(config, all);
    DefaultedColumnsNamedC(config, all, c);
    ExtendFirst(config, "first", defaults);
    var after := SharedAfter(config, all);
    TwoPlans(config, all);
    ListedUnderFirst(after, all, Lookup(config, "first").value + defaults, c);
  }

  /** The plans of the first two batches. */
  lemma TwoPlans(config: Config, all: seq<string>)
    ensures BatchPlansAsWritten(config, all, 2) == [Queries(config, all), Queries(SharedAfter(config, all), all)]
  {
    assert SharedAfterBatches(config, all, 1) == SharedAfter(config, all);
  }

  /**
   * The discrepancy between calls: the single-batch path hands the builder the caller's own
   * dict, so a second call with the same configuration names every defaulted column
   * `<column>_first` instead of `<column>_c`, whether or not `first` was configured.
   */
  lemma SecondCallRenamesDefaults(config: Config, all: seq<string>, c: string)
    requires c in DefaultColumns(config, all)
    ensures exists q :: q in Queries(WithDefaults(config, DefaultColumns(config, all)), all) && q.verb == "first" && Item(First, c, c + "_first") in q.items
    ensures forall q, it :: q in Queries(WithDefaults(config, DefaultColumns(config, all)), all) && it in q.items && it.column == c ==> it.alias != c + "_c"
  {
    var defaults := DefaultColumns(config, all);
    var f: seq<string>;
    if Lookup(config, "first").None? {
      f := defaults;
      assert Entry("first", f) in WithDefaults(config, defaults);
    } else {
      f := Lookup(config, "first").value + defaults;
      ExtendFirst(config, "first", defaults);
    }
    ListedUnderFirst(WithDefaults(config, defaults), all, f, c);
  }

  /** Extending a verb's list never unlists a column, and lists the extras when the verb exists. */
  lemma {:induction false} ExtendListed(config: Config, verb: string, extra: seq<string>, c: string)
    requires c in Listed(config) || (Lookup(config, verb).Some? && c in extra)
    ensures c in Listed(Extend(config, verb, extra))
    decreases |config|
  {
    var r := Extend(config, verb, extra);
    assert Listed(r) == r[0].columns + Listed(r[1..]);
    assert Listed(config) == config[0].columns + Listed(config[1..]);
    if config[0].verb == verb {
      assert r[1..] == config[1..];
    } else if c !in config[0].columns {
      assert r[1..] == Extend(config[1..], verb, extra);
      ExtendListed(config[1..], verb, extra, c);
    }
  }

  /** After one build every column of the frame is listed: nothing is left to default. */
  lemma DefaultsUsedUp(config: Config, all: seq<string>)
    ensures DefaultColumns(WithDefaults(config, DefaultColumns(config, all)), all) == []
  {
    var d := DefaultColumns(config, all);
    var after := WithDefaults(config, d);
    forall c | c in all && c !in GROUP_COLUMNS && c !in NEVER_DEFAULTED
      ensures c in Listed(after)
    {
      if d != [] {
        if Lookup(config, "first").None? {
          if c !in Listed(config) {
            assert Entry("first", d) in after;
          }
        } else {
          ExtendListed(config, "first", d, c);
        }
      }
    }
    if DefaultColumns(after, all) != [] {
      assert DefaultColumns(after, all)[0] in DefaultColumns(after, all);
    }
  }

  /**
   * The caller's configuration after a batch: with a `first` list, every column is then
   * listed; without one, it is untouched.
   */
  lemma SharedAfterUsesUp(config: Config, all: seq<string>)
    ensures Lookup(config, "first").Some? ==> DefaultColumns(SharedAfter(config, all), all) == []
    ensures Lookup(config, "first").None? ==> SharedAfter(config, all) == config
  {
    DefaultsUsedUp(config, all);
  }

  /** A configuration with nothing to default is left as it is by a batch. */
  lemma NothingDefaultedUnchanged(config: Config, all: seq<string>)
    requires DefaultColumns(config, all) == []
    ensures SharedAfter(config, all) == config
    ensures WithDefaults(config, DefaultColumns(config, all)) == config
  {
  }
}
