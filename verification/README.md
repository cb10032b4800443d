# pyclif reshaping pipeline, hospitalization checks and table loading, in Dafny

This project models three parts of the pyclif library:

- **The reshaping pipeline of `wide_dataset.py`.** It has two stages.
  - `create_wide_dataset` turns the long clinical tables into one event-level "wide" table. It resolves each table's timestamp column and pivots vitals, labs, medications and assessments to one column per category. It takes the distinct (encounter, event time) pairs of every source and expands the base cohort by them. It then LEFT JOINs everything on the minute-granular combo key `hospitalization_id || '_' || YYYYMMDDHHMM`. Finally it drops duplicate columns, numbers the days of each encounter, and adds all-NULL columns for requested categories that were never observed. Large cohorts run in batches of encounters in one DuckDB session, which is cleaned up between batches.
  - `convert_wide_to_hourly_optimized` turns the wide table into one row per encounter and hour. It buckets the rows by hour and counts `nth_hour` from the encounter's first hour. It runs one grouped query per aggregation verb (`max`, `min`, `mean`, `median`, `first`, `last`, `boolean`, `one_hot_encode`). Columns that no verb names default to FIRST under a `_c` suffix. The per-verb frames are merged side by side and sorted. Large inputs are cut into batches of encounters.
- **The `Hospitalization` validator of `hospitalization.py`.** It checks duplicate ids, missing and non-standard columns, permissible category values and the `YYYY-MM-DD` date format, raising a pass flag for each check that passes. It also maps source names to standard categories with `map_to_category` / `add_clif_category`.
- **The table loader of `io.py`.** This covers the file path `load_data` looks for, the SQL text it builds for a CSV or a parquet file, the order in which it reports a missing file and an unsupported format, and `_cast_id_cols_to_string`.

The model is relational and abstract:

- **Values, rows and tables.** Timestamps are whole seconds since the epoch. A row is a map from column name to optional value, and a column the map lacks reads as NULL.
- **The DuckDB session.** It is a `Session` class whose catalog of tables the methods create, replace and drop.
- **DataFrames.** A DataFrame that the source updates in place is a `DataFrame` class.
- **Engine results.** What a SQL query returns is given by functions over the tables it reads. A query the engine cannot read, such as a pivot allow-list whose spliced category ends its literal early, fails. The loader's engine is a parameter that returns a frame or an error.
- **Method–function pairs.** Where the source works step by step (the table loop, the batch loops, the select-list growth, the in-place column additions, the validator's fault counters, the query-string building), the model has a method with loop invariants. Each such method is proved equal to a function, and the lemmas state what the source promises about that function.

Files by module: `relational.dfy` (values, rows, tables, `Distinct`, `DataFrame`), `wrappers.dfy`, `text.dfy`, `ordering.dfy`, `filters.dfy`, `timestamps.dfy`, `combokey.dfy`, `pivot.dfy`, `events.dfy`, `joins.dfy`, `daynumber.dfy`, `widepost.dfy`, `cohort.dfy`, `widequery.dfy`, `wideprocess.dfy`, `widebatches.dfy`, `widedataset.dfy`, `hourlyplan.dfy`, `hourlyconfig.dfy`, `hourlyrows.dfy`, `hourlyaggregates.dfy`, `hourly.dfy`, `hospitalization.dfy`, `io.dfy`.

Where the code and its documentation disagree, the model follows the code:

- When no batch of the wide path succeeds, `_process_in_batches` returns None rather than failing (`WideProcess.Session.ProcessInBatches`). Only the hourly path raises.
- The hourly aggregation extends the caller's `first` list in place, through the shallow copy each batch is given. Batches after the first, and a second call with the same configuration object, name the defaulted columns `<column>_first` (`Hourly.SecondBatchRenamesDefaults`, `Hourly.CallUsesUpDefaults`). See "Findings".
- The parquet reader does not escape filter values, while the CSV reader does. The loader runs the parquet query as written (`LoadQueries.LoadedOutcomes`). See "Findings".
- Pivot categories are spliced into the `IN` list unescaped. A category holding a single quote makes the pivot query fail; the failure is caught and the table is skipped (`Pivot.LoneQuoteFails`).
- The cohort check casts the caller's `cohort_df` ids to text in place (`WideDataset.CheckCohort`).

## Model

| member | source | states |
|---|---|---|
| Timestamps.FirstPresent | src/pyclif/utils/wide_dataset.py:172-177 | the result is a candidate that is among the columns, every earlier candidate is absent, and None exactly when no candidate is present |
| Timestamps.FindAlternativeTimestamp | src/pyclif/utils/wide_dataset.py:164-177 | the early-return search loop returns the first alternative of the table kind that the table has, None when it has none |
| Timestamps.ResolveTimestamp | src/pyclif/utils/wide_dataset.py:719-726 | the resolved column is always a column of the table; no primary column means skipped; a present primary column wins; otherwise the first present alternative |
| Timestamps.LabsFallBackInOrder | src/pyclif/utils/wide_dataset.py:167-168 | labs without `lab_result_dttm` use `lab_collect_dttm` ahead of the later alternatives |
| Timestamps.OnlyLabsAndVitalsFallBack | src/pyclif/utils/wide_dataset.py:172-177 | any other table kind without its primary column resolves to nothing and is skipped |
| ComboKeys.MinuteStamp | src/pyclif/utils/wide_dataset.py:849 | the minute stamp is non-empty and never contains `_` |
| ComboKeys.ComboKeyInjective | src/pyclif/utils/wide_dataset.py:899 | two combo keys are equal exactly when they name the same encounter and the same minute, even when ids contain `_` |
| Pivot.Entries | src/pyclif/utils/wide_dataset.py:845-852 | `pivot_data` holds exactly the projections of the rows with a non-NULL timestamp and an allowed category |
| Pivot.FirstEntry | src/pyclif/utils/wide_dataset.py:855 | None exactly when no entry has the key and category; otherwise the earliest matching entry |
| Pivot.FirstEntryOfDistinct | src/pyclif/utils/wide_dataset.py:846-855 | `SELECT DISTINCT` does not change which value is first for any key and category |
| Pivot.CategoriesOfDistinct | src/pyclif/utils/wide_dataset.py:853-854 | a pivot column exists exactly for each category that occurs among the kept rows |
| Pivot.CombosOfDistinct | src/pyclif/utils/wide_dataset.py:856 | a pivot row exists exactly for each combo key that occurs among the kept rows |
| Pivot.PivotOfDistinct | src/pyclif/utils/wide_dataset.py:843-857 | the pivot has one row per combo key, one column per category, and each cell holds the first value for that key and category (NULL if none) |
| Pivot.PivotTable | src/pyclif/utils/wide_dataset.py:826-871 | None exactly when the table kind has no pivot columns, the category or value column is missing, or the spliced allow-list does not read back as a list (the query raises and the error is caught); otherwise a pivot of the entries kept by the list the engine read |
| Pivot.EscapedListRoundTrip | src/pyclif/utils/wide_dataset.py:836-838 | categories with their quotes doubled, joined by `','` between quotes, read back as the categories themselves, in order, up to the closing `)` |
| Pivot.EscapedAllowList | src/pyclif/utils/wide_dataset.py:835-838 | with its categories escaped, any allow-list would be filtered on exactly as configured |
| Pivot.QuoteFreeAllowList | src/pyclif/utils/wide_dataset.py:835-838 | a quote-free allow-list, spliced as the source does it, is filtered on exactly as configured |
| Pivot.LoneQuoteFails | src/pyclif/utils/wide_dataset.py:836-871 | a category `o'hara` ends its literal early, the spliced list does not read back, and the pivot is None |
| Pivot.PivotQuoteFree | src/pyclif/utils/wide_dataset.py:826-871 | with quote-free categories and both columns present the pivot succeeds and keeps exactly the rows of the configured categories |
| Events.SourceEvents | src/pyclif/utils/wide_dataset.py:778-782 | a source yields exactly the (id, time) pairs of its rows whose timestamp is not NULL |
| Events.UnionAll | src/pyclif/utils/wide_dataset.py:887 | the union holds exactly the events some source holds |
| Events.AllEvents | src/pyclif/utils/wide_dataset.py:891-894 | `all_events` repeats nothing and holds exactly the events of the sources |
| Events.Expand | src/pyclif/utils/wide_dataset.py:895-901 | a base row is expanded once per event with its id, and never for another encounter's event |
| Events.ExpandedCohort | src/pyclif/utils/wide_dataset.py:895-902 | the expanded cohort is exactly the base rows paired with the events of their encounter (an inner join) |
| Events.ExpandedRowsKeyed | src/pyclif/utils/wide_dataset.py:896-901 | every expanded row has a non-NULL id, a timestamp event time and the combo key of the two |
| Events.EncounterRowsAreItsEvents | src/pyclif/utils/wide_dataset.py:900-901 | an encounter without events has no expanded row; one with events has a row for each of them |
| Joins.Partners | src/pyclif/utils/wide_dataset.py:954 | the partners of a key are exactly the rows carrying that non-NULL key; a NULL key matches nothing |
| Joins.Extend | src/pyclif/utils/wide_dataset.py:942-950 | a left row yields at least one row: one per partner, or itself NULL-extended when it has none |
| Joins.LeftJoin | src/pyclif/utils/wide_dataset.py:954 | the LEFT JOIN has at least as many rows as its left side, and each comes from extending a left row |
| Joins.NoPartners | src/pyclif/utils/wide_dataset.py:954 | a key carried by no row of the side has no partner |
| Joins.AtMostOnePartner | src/pyclif/utils/wide_dataset.py:953-954 | against a side with unique keys, a key has at most one partner |
| Joins.LeftJoinUniquePreservesRows | src/pyclif/utils/wide_dataset.py:953-954 | joining a side with unique keys keeps the left rows exactly, in order, neither adding nor removing any |
| Joins.JoinAllUniquePreservesRows | src/pyclif/utils/wide_dataset.py:952-954 | a chain of joins with unique-key sides keeps the expanded cohort row for row |
| Joins.JoinAllKeepsEveryRow | src/pyclif/utils/wide_dataset.py:940-974 | every expanded-cohort row survives any chain of LEFT JOINs |
| Joins.FirstInsertedEndsLast | src/pyclif/utils/wide_dataset.py:912-935 | the group inserted first after `SELECT ec.*` ends up last in the select list |
| Joins.BuildSelectList | src/pyclif/utils/wide_dataset.py:906-935 | the `query.replace` loop yields the groups in reverse order of insertion, and holds exactly the items of the groups |
| Joins.DropDuplicateColumns | src/pyclif/utils/wide_dataset.py:981 | each column name once, exactly the names of the header, the row count kept, each name holding its first occurrence's value |
| Joins.DropDuplicateColumnsLossless | src/pyclif/utils/wide_dataset.py:981 | without repeated names the dedup drops nothing and keeps every position's value |
| DayNumbers.DenseRank | src/pyclif/utils/wide_dataset.py:986 | a row's dense rank is at least 1 |
| DayNumbers.FirstRowIsDayOne | src/pyclif/utils/wide_dataset.py:986 | the first row of each encounter has day number 1 |
| DayNumbers.NextRowDayNumber | src/pyclif/utils/wide_dataset.py:986 | within an encounter the day number stays with the date and rises by exactly one when the date changes |
| DayNumbers.DayNumberAtMostPosition | src/pyclif/utils/wide_dataset.py:986 | the day number lies between 1 and the row's position within its encounter |
| DayNumbers.DayKeyInjective | src/pyclif/utils/wide_dataset.py:987-988 | two day keys are equal exactly when they name the same id text and the same day number |
| DayNumbers.SortedRowsAreGrouped | src/pyclif/utils/wide_dataset.py:985-986 | rows sorted by (id, event_time) have each encounter's rows together with dates in order |
| CategoryFilters.Tables | src/pyclif/utils/wide_dataset.py:92 | the tables to load are the filter keys, one per entry, in order |
| CategoryFilters.CategoriesOf | src/pyclif/utils/wide_dataset.py:703 | an absent table has no categories; a present one has the list of its first entry |
| Relational.Distinct | src/pyclif/utils/wide_dataset.py:892 | the distinct elements repeat nothing and are exactly the elements of the input |
| Relational.DistinctOfUnique | src/pyclif/utils/wide_dataset.py:892 | a sequence without repeats is its own distinct form |
| Ordering.KeyLeTotal | src/pyclif/utils/wide_dataset.py:985 | any two sort keys are comparable |
| Ordering.KeyLeTransitive | src/pyclif/utils/wide_dataset.py:985 | the multi-column sort order is transitive |
| Ordering.KeyLeFirst | src/pyclif/utils/wide_dataset.py:985 | different first cells decide a two-column comparison alone |
| Ordering.KeyLeSecond | src/pyclif/utils/wide_dataset.py:985 | equal first cells leave a two-column comparison to the second |
| Ordering.InsertSorted | src/pyclif/utils/wide_dataset.py:985 | inserting into a sorted sequence keeps it sorted |
| Ordering.SortBy | src/pyclif/utils/wide_dataset.py:985 | `sort_values` returns a sorted permutation of its input |
| Text.DigitsInjective | src/pyclif/utils/wide_dataset.py:849 | distinct numbers have distinct decimal texts |
| Text.SplitAtSeparator | src/pyclif/utils/wide_dataset.py:899 | prefix + separator + stamp splits one way only when the stamp lacks the separator's last character |
| Text.IntToString | src/pyclif/utils/wide_dataset.py:987-988 | `str` of an int is the decimal digits for a natural number, led by `-` for a negative one |
| Text.Escape | src/pyclif/utils/io.py:78 | the escaped text is never shorter, and text without a quote is unchanged (the read-back is `Text.EscapeRoundTrip`) |
| Text.EscapeRoundTrip | src/pyclif/utils/io.py:78 | a quoted escaped value reads back as the value, with whatever follows left unread |
| Text.EscapedBodyRoundTrip | src/pyclif/utils/io.py:81-82 | the escaped body followed by the closing quote reads back as the original text |
| Text.ReadBodyShape | src/pyclif/utils/io.py:78 | whatever the literal reader accepts is an escaped value followed by a closing quote |
| Text.EscapeGrows | src/pyclif/utils/io.py:81 | escaping a text that holds a quote makes it longer |
| WidePost.SortRows | src/pyclif/utils/wide_dataset.py:985 | the rows come back as a permutation sorted by (hospitalization_id, event_time) |
| WidePost.AddDayColumns | src/pyclif/utils/wide_dataset.py:984-988 | the day columns fail exactly when some row lacks an id or a timestamp event time; otherwise the row count is kept |
| WidePost.NumberRows | src/pyclif/utils/wide_dataset.py:986-988 | each sorted row gets the dense rank of its date and the day key of its id and rank |
| WidePost.NumberedRowsKeyed | src/pyclif/utils/wide_dataset.py:986-988 | every numbered row has an id, a day number of at least 1, and the matching day key |
| WidePost.NumberedRowsStartOnDayOne | src/pyclif/utils/wide_dataset.py:986 | the first row of each encounter is on day 1 |
| WidePost.NumberedRowsFollowDates | src/pyclif/utils/wide_dataset.py:986 | from row to row within an encounter the day number stays with the date or rises by one |
| WidePost.DayColumnsNumbering | src/pyclif/utils/wide_dataset.py:984-988 | the day columns give rows sorted by (id, event_time), keyed by day, starting each encounter on day 1 and never skipping a day |
| WidePost.AddCategoriesExtends | src/pyclif/utils/wide_dataset.py:1014-1017 | one table's categories keep every column and value and add exactly the missing categories |
| WidePost.AddMissingSpec | src/pyclif/utils/wide_dataset.py:1002-1017 | existing columns keep their place and values, exactly the requested categories of loaded tables are added, all NULL, and empty filters change nothing |
| WidePost.AddMissingColumns | src/pyclif/utils/wide_dataset.py:1002-1017 | the in-place loops leave the frame as `AddMissing` of its old contents |
| WidePost.AddCategoryColumns | src/pyclif/utils/wide_dataset.py:1014-1017 | the inner loop leaves the frame as `AddCategories` of its old contents |
| WidePost.Without | src/pyclif/utils/wide_dataset.py:995 | the kept columns are exactly those not named for dropping |
| WidePost.DropColumns | src/pyclif/utils/wide_dataset.py:994-995 | the named columns disappear and read NULL; every other cell and the row count are kept |
| Cohort.RowsIn | src/pyclif/utils/wide_dataset.py:688 | the kept rows are exactly those whose id is among the requested ids |
| Cohort.FilterIds | src/pyclif/utils/wide_dataset.py:688 | a KeyError exactly when the frame has no `hospitalization_id`; otherwise the same columns and the rows with a requested id |
| Cohort.SemiMerge | src/pyclif/utils/wide_dataset.py:650 | the merged rows are exactly the left rows with a matching right row |
| Cohort.BaseCohort | src/pyclif/utils/wide_dataset.py:650 | a KeyError exactly when either side lacks `patient_id`; otherwise the encounter columns and the encounters whose patient exists |
| Cohort.SemiMergeUniqueRight | src/pyclif/utils/wide_dataset.py:650 | with unique patients the merge never adds rows |
| Cohort.WindowRows | src/pyclif/utils/wide_dataset.py:729-750 | the time filter keeps exactly the rows whose timestamp lies in some window of their encounter |
| Cohort.NullTimestampDropped | src/pyclif/utils/wide_dataset.py:744-747 | a row with a NULL timestamp is never inside a window |
| Cohort.Available | src/pyclif/utils/wide_dataset.py:707 | the available columns are exactly the wanted ones the table has |
| Cohort.SelectColumns | src/pyclif/utils/wide_dataset.py:714 | the frame restricted to the columns keeps every row and the values of those columns |
| Cohort.PrepareTable | src/pyclif/utils/wide_dataset.py:676-753 | a KeyError exactly when the loaded table lacks `hospitalization_id`; an unloaded table is skipped; a prepared table has only requested ids, a resolved timestamp column and, with a cohort, only in-window rows |
| Cohort.RestrictedKeepsIds | src/pyclif/utils/wide_dataset.py:695-715 | the wide-table column restriction keeps every row's requested id |
| WideQuery.Refs | src/pyclif/utils/wide_dataset.py:931 | the select items are exactly the table's columns not excluded, under the table's alias |
| WideQuery.KeyedOn | src/pyclif/utils/wide_dataset.py:966-974 | the wide-table join side holds exactly the rows with a timestamp, keyed by their own combo key |
| WideQuery.PivotedKeysUnique | src/pyclif/utils/wide_dataset.py:853-856 | a pivoted table has unique combo keys |
| WideQuery.PivotJoinKeepsRows | src/pyclif/utils/wide_dataset.py:953-954 | LEFT JOINing a pivoted table returns the expanded cohort row for row, in order |
| WideQuery.JoinAllRowsFromCohort | src/pyclif/utils/wide_dataset.py:937-974 | every joined row extends an expanded-cohort row |
| WideQuery.EcColumnFirst | src/pyclif/utils/wide_dataset.py:903 | an `ec.*` column is found first among the `ec.*` items, ahead of every inserted group |
| WideQuery.ProjectedEcColumn | src/pyclif/utils/wide_dataset.py:981 | after the dedup an `ec.*` column reads the expanded-cohort value |
| WideQuery.CohortRowDated | src/pyclif/utils/wide_dataset.py:895-902 | an expanded-cohort row has an id and a timestamp event time |
| WideQuery.JoinRowsDated | src/pyclif/utils/wide_dataset.py:976-981 | every row of the query result has a non-NULL id and a timestamp event time |
| WideQuery.DayColumnsNeverFail | src/pyclif/utils/wide_dataset.py:984-986 | on the wide path the day numbering never fails |
| WideQuery.PostProcessKeepsNumbering | src/pyclif/utils/wide_dataset.py:990-995 | the missing-column step and the final drop leave the id, event time, day number and day key alone |
| WideQuery.PostProcessNumbering | src/pyclif/utils/wide_dataset.py:980-995 | the post-processing of a joined table numbers it by day: sorted, keyed, starting on day 1, never skipping |
| WideQuery.WideResultNumbering | src/pyclif/utils/wide_dataset.py:874-999 | a wide dataset comes back sorted by (id, event_time), each row with an id, a day number from 1 and its day key, each encounter from day 1, never skipping a day |
| WideProcess.AddName | src/pyclif/utils/wide_dataset.py:762 | a dict assignment adds the key once and keeps the others |
| WideProcess.NamesDistinct | src/pyclif/utils/wide_dataset.py:755 | the raw and pivoted table names never clash with each other or with `base_cohort` and `adt` |
| WideProcess.StepRegisters | src/pyclif/utils/wide_dataset.py:676-782 | one iteration of the table loop registers the table's raw table, its pivot, and its event source |
| WideProcess.RunRegisters | src/pyclif/utils/wide_dataset.py:676-782 | a loop that ran to the end has registered exactly what its tables call for |
| WideProcess.RunStops | src/pyclif/utils/wide_dataset.py:676-782 | once an exception stops the loop, the remaining tables change nothing |
| WideProcess.EventSourcesOfLoop | src/pyclif/utils/wide_dataset.py:667-782 | the event sources are ADT's `in_dttm` when present and each prepared and contributing table's raw table with its resolved column, each in the catalog |
| WideProcess.NoEventsReturnsBaseCohort | src/pyclif/utils/wide_dataset.py:794-796 | with no event source the call returns the base cohort as it is |
| WideProcess.NoSourcesOutcome | src/pyclif/utils/wide_dataset.py:785-796 | a loop that registered no event source leaves the base cohort as the result |
| WideProcess.ProcessNumbering | src/pyclif/utils/wide_dataset.py:631-796 | a call that returns a wide dataset returns it sorted and numbered by day |
| WideProcess.Retain | src/pyclif/utils/wide_dataset.py:1061-1073 | the cleanup keeps exactly `base_cohort` and `adt`, unchanged |
| WideProcess.BatchInputs | src/pyclif/utils/wide_dataset.py:1052-1058 | a batch's frames hold only the batch's encounters, with the other inputs shared |
| WideProcess.KeptResults | src/pyclif/utils/wide_dataset.py:1082-1083 | only batch results with rows are kept |
| WideProcess.RegisteredAfterCleanup | src/pyclif/utils/wide_dataset.py:1061-1080 | after the cleanup and the batch's own registrations the catalog no longer depends on earlier batches |
| WideProcess.BatchIndependent | src/pyclif/utils/wide_dataset.py:1047-1093 | what a batch returns or raises depends only on its own ids, not on what earlier batches left in the session |
| WideProcess.RunBatchesResults | src/pyclif/utils/wide_dataset.py:1047-1093 | the batch loop keeps exactly the frames each batch gives on its own, in batch order |
| WideProcess.Session.constructor | src/pyclif/utils/wide_dataset.py:105 | a new in-memory session has an empty catalog |
| WideProcess.Session.CreateOrReplace | src/pyclif/utils/wide_dataset.py:759 | `CREATE OR REPLACE TABLE` sets one name and keeps the rest of the catalog |
| WideProcess.Session.DropWorkingTables | src/pyclif/utils/wide_dataset.py:1061-1073 | the drop loop leaves exactly `base_cohort` and `adt` as they were |
| WideProcess.Session.CreateWide | src/pyclif/utils/wide_dataset.py:874-999 | the step-by-step query assembly returns the wide result of the current catalog |
| WideProcess.Session.ProcessHospitalizations | src/pyclif/utils/wide_dataset.py:631-796 | the table loop against the session leaves the catalog and the result or exception of `ProcessOutcome` |
| WideProcess.Session.ProcessInBatches | src/pyclif/utils/wide_dataset.py:1020-1107 | the batch loop leaves the catalog and result of `InBatches`: kept frames stacked, failing batches skipped, None when none is kept |
| WideBatches.SlicesCover | src/pyclif/utils/wide_dataset.py:1042 | the batches concatenate back to the id list |
| WideBatches.SlicesShape | src/pyclif/utils/wide_dataset.py:1042 | there are ceil(n/b) batches, each non-empty, all but the last of exactly b ids |
| WideBatches.Concat | src/pyclif/utils/wide_dataset.py:1098 | the stacked frame's columns are the union of the frames' columns, each once |
| WideBatches.ConcatRows | src/pyclif/utils/wide_dataset.py:1098 | each frame's rows sit in the stacked frame right after the rows of the frames before it |
| WideBatches.ConcatSize | src/pyclif/utils/wide_dataset.py:1098 | the stacked frame has as many rows as the frames together |
| WideDataset.MissingColumns | src/pyclif/utils/wide_dataset.py:65 | the missing columns are exactly the required ones the frame lacks |
| WideDataset.AsText | src/pyclif/utils/wide_dataset.py:70 | `astype(str)` gives text and leaves text as it is |
| WideDataset.CastCohortIds | src/pyclif/utils/wide_dataset.py:70 | the cohort keeps its columns and rows, with its ids as text and every other cell unchanged |
| WideDataset.CheckedCohort | src/pyclif/utils/wide_dataset.py:63-70 | a ValueError whose text lists the required and the missing columns, as the source writes it, exactly when a cohort lacks a window column; otherwise the cohort with text ids and all three columns |
| WideDataset.CheckCohort | src/pyclif/utils/wide_dataset.py:62-70 | on a missing column the ValueError, with the caller's frame untouched; otherwise the frame's ids are cast in place and the frame holds the checked cohort |
| WideDataset.EffectiveFilters | src/pyclif/utils/wide_dataset.py:84-92 | non-empty category filters are used as given; otherwise each entry is a given filter or an unrestricted optional table |
| WideDataset.RequiredIds | src/pyclif/utils/wide_dataset.py:112-126 | the ids given win; a KeyError exactly when neither ids nor a cohort is given and the encounters lack an id column; otherwise the cohort's or the encounters' distinct ids |
| WideDataset.AdtColumns | src/pyclif/utils/wide_dataset.py:141 | ADT keeps exactly its columns that are not `_name` columns or `patient_id` |
| WideDataset.BaseInputs | src/pyclif/utils/wide_dataset.py:128-142 | a KeyError exactly when an id column is missing; otherwise encounters with at most id, patient and age, only requested ids, patients' ids only, and ADT without name columns |
| WideDataset.CohortCheckedFirst | src/pyclif/utils/wide_dataset.py:63-67 | a cohort without its window columns is refused before anything else |
| WideDataset.BatchedResult | src/pyclif/utils/wide_dataset.py:147-154 | the batched path covers every id once, in order, and returns the stacked frames each batch gives on its own |
| WideDataset.SinglePassNumbering | src/pyclif/utils/wide_dataset.py:155-161 | the single pass returns the base cohort or a frame sorted and numbered by day |
| WideDataset.CreateWideDataset | src/pyclif/utils/wide_dataset.py:15-161 | the whole call in a fresh session returns or raises what `DatasetOf` says, and a caller's cohort frame that passes the check is left with text ids |
| WideDataset.CreateFromCohort | src/pyclif/utils/wide_dataset.py:76-161 | after the cohort check, the call in a fresh session returns or raises what `DatasetFrom` says: the id and base-input errors first, then the batched or the single pass |
| HourlyPlan.Listed | src/pyclif/utils/wide_dataset.py:451-453 | the listed columns are exactly those some verb names |
| HourlyPlan.DefaultColumns | src/pyclif/utils/wide_dataset.py:455-458 | the defaulted columns are exactly the frame's columns no verb names, outside the group and base columns |
| HourlyPlan.Lookup | src/pyclif/utils/wide_dataset.py:464 | a verb's list is found exactly when the configuration has the verb |
| HourlyPlan.Extend | src/pyclif/utils/wide_dataset.py:466 | extending a verb's list keeps the configuration's verbs and length |
| HourlyPlan.Present | src/pyclif/utils/wide_dataset.py:490 | the valid columns are exactly the configured ones the frame has |
| HourlyPlan.VerbItems | src/pyclif/utils/wide_dataset.py:494-513 | one aggregate per valid column for a known verb, none for an unknown verb, each named by its column and the verb's suffix |
| HourlyPlan.BuildSelectParts | src/pyclif/utils/wide_dataset.py:494-513 | the append loop yields `VerbItems` |
| HourlyPlan.QueriesOfWellNamed | src/pyclif/utils/wide_dataset.py:486-521 | every aggregate of the plan is over a column of the frame and named by it and its verb |
| HourlyPlan.EntryQueryWellNamed | src/pyclif/utils/wide_dataset.py:486-521 | the query of one configuration entry is well named |
| HourlyPlan.QueriesNaming | src/pyclif/utils/wide_dataset.py:440-531 | configured columns the frame lacks are ignored, outputs are `<column>_<verb>`, a defaulted FIRST column is `<column>_c`, and one-hot is not among the verb queries |
| HourlyPlan.QueriesOfCover | src/pyclif/utils/wide_dataset.py:486-521 | a configured column the frame has gets an aggregate in its verb's query |
| HourlyPlan.ExtendKeeps | src/pyclif/utils/wide_dataset.py:466 | extending one verb's list keeps every entry of another verb |
| HourlyPlan.ExtendFirst | src/pyclif/utils/wide_dataset.py:466 | the extended verb's list is its old list followed by the extra columns |
| HourlyPlan.DefaultedColumnsNamedC | src/pyclif/utils/wide_dataset.py:455-509 | every column no verb names, outside the group and base columns, comes out as FIRST under `<column>_c` |
| HourlyPlan.ConfiguredColumnsCovered | src/pyclif/utils/wide_dataset.py:486-513 | every configured column the frame has is aggregated by its verb under `<column>_<verb>` or `_c` |
| HourlyConfig.AggregationConfig.ShallowCopy | src/pyclif/utils/wide_dataset.py:407 | `.copy()` is a new dict holding the same list objects |
| HourlyConfig.ExtendAt | src/pyclif/utils/wide_dataset.py:466 | extending the first entry for a verb changes that entry only |
| HourlyConfig.BuildAggregationQueries | src/pyclif/utils/wide_dataset.py:440-531 | the queries are those of the configuration handed in, and the dict is left with the defaulted columns added to its `first` list, list objects kept in place |
| HourlyConfig.AddFirstList | src/pyclif/utils/wide_dataset.py:464-465 | a dict without `first` gets a new list at the end, holding the defaulted columns |
| HourlyConfig.ExtendList | src/pyclif/utils/wide_dataset.py:466 | the existing `first` list object grows by the defaulted columns |
| HourlyConfig.BatchPlansAsWritten | src/pyclif/utils/wide_dataset.py:394-407 | one plan per batch |
| HourlyConfig.PlansSnoc | src/pyclif/utils/wide_dataset.py:394-407 | one more batch appends one plan, built from the configuration the earlier batches left |
| HourlyConfig.SharedPrefix | src/pyclif/utils/wide_dataset.py:407 | the caller's dict sees the copy's shared list objects |
| HourlyConfig.WithDefaultsPrefix | src/pyclif/utils/wide_dataset.py:464-466 | the caller's entries after a batch are the copy's entries that existed before it |
| HourlyConfig.BuildForBatch | src/pyclif/utils/wide_dataset.py:407 | a batch's build leaves the caller's keys and list objects and changes its contents to `SharedAfter` |
| HourlyConfig.BatchPlans | src/pyclif/utils/wide_dataset.py:394-407 | the batch loop's plans are `BatchPlansAsWritten` of the caller's configuration |
| HourlyConfig.ListedUnderFirst | src/pyclif/utils/wide_dataset.py:505-509 | a column listed under `first` is named `<column>_first`, never `<column>_c` |
| HourlyConfig.ListedNotDefaulted | src/pyclif/utils/wide_dataset.py:455-458 | a listed column is not defaulted |
| HourlyConfig.NeverNamedC | src/pyclif/utils/wide_dataset.py:505-509 | in a well-named plan, a column that is not defaulted never comes out under `_c` |
| HourlyConfig.TwoPlans | src/pyclif/utils/wide_dataset.py:394-407 | the second batch plans from the configuration the first batch left |
| HourlyConfig.SharedFirstListRenamesDefaults | src/pyclif/utils/wide_dataset.py:464-466 | with a configured `first` list, a defaulted column is `<column>_c` in the first batch and `<column>_first` in the second |
| HourlyConfig.SecondCallRenamesDefaults | src/pyclif/utils/wide_dataset.py:464-509 | a second call with the same configuration object names every defaulted column `<column>_first` |
| HourlyConfig.DefaultsUsedUp | src/pyclif/utils/wide_dataset.py:455-466 | after one build every column of the frame is listed: nothing is left to default |
| HourlyConfig.SharedAfterUsesUp | src/pyclif/utils/wide_dataset.py:464-466 | after a batch with a configured `first` list nothing is left to default; without one the caller's configuration is untouched |
| HourlyRows.HourStart | src/pyclif/utils/wide_dataset.py:305 | the hour start is a multiple of an hour, at or before the time and less than an hour before it |
| HourlyRows.HourOfDay | src/pyclif/utils/wide_dataset.py:306 | the hour of day is below 24 |
| HourlyRows.HourOfDayOfStart | src/pyclif/utils/wide_dataset.py:305-306 | an hour's start has that hour's hour of day |
| HourlyRows.HoursOf | src/pyclif/utils/wide_dataset.py:314-319 | the hours of an encounter are exactly its rows' event hours |
| HourlyRows.FirstHourIsLeast | src/pyclif/utils/wide_dataset.py:314-320 | the first hour of an encounter is one of its rows' hours and no hour of it is earlier |
| HourlyRows.Joined | src/pyclif/utils/wide_dataset.py:321-325 | the inner join never adds rows |
| HourlyRows.JoinedKeeps | src/pyclif/utils/wide_dataset.py:324-325 | every wide row with an id has its hourly row |
| HourlyRows.JoinedFrom | src/pyclif/utils/wide_dataset.py:324-325 | every hourly row comes from a wide row with an id |
| HourlyRows.HourlyRowKeeps | src/pyclif/utils/wide_dataset.py:321-322 | an hourly row keeps every column of its wide row that the stage does not add |
| HourlyRows.NthHourCounts | src/pyclif/utils/wide_dataset.py:323 | `nth_hour` is a whole number n >= 0 of hours with `event_time_hour == first_event_hour + n * 3600` |
| HourlyRows.EventHourAligned | src/pyclif/utils/wide_dataset.py:305 | an event hour is the start of an hour |
| HourlyRows.HourColumns | src/pyclif/utils/wide_dataset.py:301-308 | a timed row's `event_time_hour` and `hour_bucket` are its hour and that hour's hour of day |
| HourlyRows.WholeHours | src/pyclif/utils/wide_dataset.py:323 | two hour starts are a whole, non-negative number of hours apart |
| HourlyRows.UntimedRowHasNoHour | src/pyclif/utils/wide_dataset.py:305-323 | a row without an event time has NULL hour columns |
| HourlyRows.FirstHourIsHourZero | src/pyclif/utils/wide_dataset.py:312-326 | every encounter with a timed row has a row at `nth_hour` 0 |
| HourlyRows.NthHourOf | src/pyclif/utils/wide_dataset.py:323 | the `nth_hour` cell is the whole hours from the first hour to the row's hour |
| HourlyRows.NthHourCell | src/pyclif/utils/wide_dataset.py:323 | the `nth_hour` cell of an hourly row is its hour number |
| HourlyRows.HourlyDataIds | src/pyclif/utils/wide_dataset.py:324-325 | `hourly_data` has no NULL id and one row per wide row with an id |
| HourlyAggregates.Groups | src/pyclif/utils/wide_dataset.py:519 | the groups are each key once, exactly the keys of `hourly_data` |
| HourlyAggregates.GroupRows | src/pyclif/utils/wide_dataset.py:519 | a group never has more rows than `hourly_data` |
| HourlyAggregates.GroupRowsMembers | src/pyclif/utils/wide_dataset.py:519 | a group's rows are exactly the rows with its key |
| HourlyAggregates.GroupRowsStart | src/pyclif/utils/wide_dataset.py:505-509 | a group's first row is the earliest row with its key |
| HourlyAggregates.GroupRowsEnd | src/pyclif/utils/wide_dataset.py:510-511 | a group's last row is the latest row with its key |
| HourlyAggregates.Greatest | src/pyclif/utils/wide_dataset.py:498 | the maximum is one of the values and none exceeds it |
| HourlyAggregates.Smallest | src/pyclif/utils/wide_dataset.py:500 | the minimum is one of the values and none is below it |
| HourlyAggregates.BooleanMeaning | src/pyclif/utils/wide_dataset.py:513 | `col_boolean` is 1 exactly when some row of the hour has a value, and 0 exactly when none has |
| HourlyAggregates.MaxMinMeaning | src/pyclif/utils/wide_dataset.py:497-500 | `col_max` and `col_min` are values of the hour that none exceeds or undercuts, NULL only when every row is NULL |
| HourlyAggregates.FirstMeaning | src/pyclif/utils/wide_dataset.py:505-509 | `col_first` is the value of the hour's earliest row, NULL included |
| HourlyAggregates.LastMeaning | src/pyclif/utils/wide_dataset.py:510-511 | `col_last` is the value of the hour's latest row, NULL included |
| HourlyAggregates.BaseFrame | src/pyclif/utils/wide_dataset.py:472-482 | the base query has one row per group, in group order, carrying the group's key |
| HourlyAggregates.BaseRowKey | src/pyclif/utils/wide_dataset.py:474-481 | a base row carries its group's key |
| HourlyAggregates.ItemsRowCell | src/pyclif/utils/wide_dataset.py:515-520 | an aggregate's column holds that aggregate over the group, unless an earlier item took the name |
| HourlyAggregates.VerbFrame | src/pyclif/utils/wide_dataset.py:494-520 | a verb query fails exactly when it is `mean` (`AVG`) over a column holding text; a query that runs has one row per group and one column per alias |
| HourlyAggregates.VerbFrameCell | src/pyclif/utils/wide_dataset.py:346-349 | row i of a verb result holds, under each aggregate's name, that aggregate over group i |
| HourlyAggregates.Sanitize | src/pyclif/utils/wide_dataset.py:566 | the cleaned name keeps its length, has only word characters, and keeps exactly the word characters of the value |
| HourlyAggregates.SanitizeIdempotent | src/pyclif/utils/wide_dataset.py:566 | cleaning a cleaned name changes nothing |
| HourlyAggregates.OneHotValuesSpec | src/pyclif/utils/wide_dataset.py:549-558 | at most 100 distinct values, ascending, each from the column; all of them when there are no more than 100, otherwise exactly 100, and every value left out is no smaller than every value kept |
| HourlyAggregates.Indicators | src/pyclif/utils/wide_dataset.py:547-574 | each indicator is for a valid column and one of its encoded values, named `<column>_<value cleaned>`, and every encoded value of every valid column has its indicator |
| HourlyAggregates.IndicatorsRowCell | src/pyclif/utils/wide_dataset.py:572-574 | an indicator's column holds its flag over the group |
| HourlyAggregates.OneHotFrame | src/pyclif/utils/wide_dataset.py:534-588 | a one-hot query that runs has one row per group |
| HourlyAggregates.OneHotCell | src/pyclif/utils/wide_dataset.py:564-574 | an indicator is 1 in an hour exactly when some row of the hour holds its value and 0 otherwise, under its cleaned name |
| HourlyAggregates.GroupFlag | src/pyclif/utils/wide_dataset.py:572-574 | a group's flag is 1 exactly when some row holds the value, 0 exactly when none does |
| Hourly.MergeKeepsFirst | src/pyclif/utils/wide_dataset.py:357 | the base frame's columns survive the side-by-side merge |
| Hourly.MergedKeys | src/pyclif/utils/wide_dataset.py:334-357 | every merged row carries its group's key, in group order |
| Hourly.SortedRowsFromData | src/pyclif/utils/wide_dataset.py:360 | every sorted row is the row of some group of `hourly_data` |
| Hourly.SortedRowsCoverData | src/pyclif/utils/wide_dataset.py:360 | every group of `hourly_data` has its row after the sort |
| Hourly.SingleBatchRows | src/pyclif/utils/wide_dataset.py:288-369 | the hourly result has one row per encounter and hour of `hourly_data`, no other row, no row without an id, sorted by encounter and `nth_hour` |
| Hourly.SingleBatchFails | src/pyclif/utils/wide_dataset.py:334 | a single pass fails, with an engine error, exactly when `patient_id` or `day_number` is missing |
| Hourly.ProcessHourlySingleBatch | src/pyclif/utils/wide_dataset.py:288-369 | the step-by-step pass on the dict object it is handed returns `SingleBatch` of the dict's old contents, and leaves the dict with the defaulted columns added to its `first` list, keys and list objects kept |
| Hourly.RunVerbs | src/pyclif/utils/wide_dataset.py:340-353 | the loop over the aggregation order collects the frames of the verbs that produced one, in order |
| Hourly.RunVerb | src/pyclif/utils/wide_dataset.py:342-353 | one verb gives its query's frame, or nothing when it has no query or its query fails |
| Hourly.BatchRows | src/pyclif/utils/wide_dataset.py:402 | a batch's rows are exactly the rows of its encounters |
| Hourly.BatchResults | src/pyclif/utils/wide_dataset.py:394-427 | one result per batch; batch k runs with the configuration the k batches before it left in the shared `first` list |
| Hourly.IntendedBatchResults | src/pyclif/utils/wide_dataset.py:407 | the corrected results: every batch runs with the caller's configuration as given |
| Hourly.SharedAfterFixed | src/pyclif/utils/wide_dataset.py:464-466 | a configuration that a batch leaves as it is stays so for every later batch |
| Hourly.UnsharedAsIntended | src/pyclif/utils/wide_dataset.py:407 | without a configured `first` list, or with nothing to default, the batched run equals the corrected one |
| Hourly.SecondBatchRenamesDefaults | src/pyclif/utils/wide_dataset.py:464-509 | with a configured `first` list a defaulted column is `<column>_c` in batch 0 and `<column>_first`, never `<column>_c`, in batch 1 |
| Hourly.KeptOfEmpty | src/pyclif/utils/wide_dataset.py:409-410 | nothing is kept exactly when no result is kept |
| Hourly.InBatchesFails | src/pyclif/utils/wide_dataset.py:429-437 | the batched run fails, with "No batches processed successfully", exactly when no batch succeeds with a row |
| Hourly.MissingPatientIdByPath | src/pyclif/utils/wide_dataset.py:425-437 | without `patient_id` a single pass raises the engine's error while the batched run fails with its own message |
| Hourly.BatchesDisjoint | src/pyclif/utils/wide_dataset.py:395 | distinct ids never fall in two batches |
| Hourly.BatchesPartitionRows | src/pyclif/utils/wide_dataset.py:394-402 | every row of the wide frame belongs to exactly one batch |
| Hourly.SortSorted | src/pyclif/utils/wide_dataset.py:432 | sorting a sorted sequence leaves it as it is |
| Hourly.BatchRowsAll | src/pyclif/utils/wide_dataset.py:402 | a batch holding every id keeps every row |
| Hourly.OneBatchIsSinglePass | src/pyclif/utils/wide_dataset.py:372-437 | when one batch holds every encounter the batched run returns the single pass's result, failing only when that is empty or an error |
| Hourly.NoIdsNothingKept | src/pyclif/utils/wide_dataset.py:409 | a frame without encounter ids has no hourly rows to keep |
| Hourly.OneBatchResults | src/pyclif/utils/wide_dataset.py:394-407 | one batch of all encounters runs the single pass over the whole frame |
| Hourly.StackOneSorted | src/pyclif/utils/wide_dataset.py:431-432 | stacking and sorting one sorted frame gives it back |
| Hourly.MissingRequired | src/pyclif/utils/wide_dataset.py:242-245 | None exactly when all required columns are present; otherwise the first missing one in check order |
| Hourly.AutoBatchSizeBounds | src/pyclif/utils/wide_dataset.py:248-258 | the automatic size is at most 5000 and a quarter of the encounters, positive exactly for large frames with at least four encounters |
| Hourly.ConvertChecksFirst | src/pyclif/utils/wide_dataset.py:241-283 | a missing required column fails first, naming it; otherwise a single pass succeeds exactly when `patient_id` is present |
| Hourly.ProcessHourlyInBatches | src/pyclif/utils/wide_dataset.py:372-437 | the batch loop, each batch on a shallow copy, returns `InBatches` of the caller's old configuration (kept results stacked and sorted, a ValueError when none is kept) and leaves the caller's `first` list extended once per batch, keys and list objects kept |
| Hourly.ConvertWideToHourlyOptimized | src/pyclif/utils/wide_dataset.py:216-285 | the checks in order and the dispatch return `ConvertWideToHourly` of the dict's old contents and leave the dict as `ConfigAfterCall` says |
| Hourly.SharedAfterBatchesUsesUp | src/pyclif/utils/wide_dataset.py:464-466 | after at least one batch over a configured `first` list nothing is left to default |
| Hourly.CallUsesUpDefaults | src/pyclif/utils/wide_dataset.py:440-466 | after a single pass, or batches over a configured `first` list, no column of the frame is defaulted any more; batches without a `first` list leave the configuration as it was |
| HospitalizationChecks.MapToCategory | hospitalization.py:188-192 | the first category in mapping order whose values hold the value, `No Mapping Found` when none does |
| HospitalizationChecks.CategoryNames | hospitalization.py:109 | the category columns to check, in order |
| HospitalizationChecks.Raise | hospitalization.py:87-89 | a flag is set exactly when its check passed or it was set already; no flag is ever cleared, and other flags stay |
| HospitalizationChecks.NoneDuplicated | hospitalization.py:70-80 | no value occurs twice exactly when the column repeats nothing |
| HospitalizationChecks.IdsUniqueMeaning | hospitalization.py:82-89 | the duplicate check passes exactly when neither id column repeats a value, NULL included |
| HospitalizationChecks.Lacking | hospitalization.py:94-95 | the lacking columns are exactly those of one list absent from the other |
| HospitalizationChecks.Permissible | hospitalization.py:119-121 | the permissible values are exactly the values listed under any category |
| HospitalizationChecks.InvalidValues | hospitalization.py:124 | no invalid value exactly when every value of the column is permissible |
| HospitalizationChecks.CategoryPasses | hospitalization.py:107-131 | the passing count never exceeds the number of category columns |
| HospitalizationChecks.CategoryAllPass | hospitalization.py:107-135 | the check passes exactly when every category column is present, mapped and holds only listed values |
| HospitalizationChecks.CategoryErrorPersists | hospitalization.py:120 | once a column raises KeyError, the whole check raises the same error |
| HospitalizationChecks.FormattedDatesMatch | hospitalization.py:153-156 | a date with a year below 10000 formatted by `%Y-%m-%d` matches the pattern |
| HospitalizationChecks.PresentValues | hospitalization.py:150 | the non-NULL values are exactly those the column holds |
| HospitalizationChecks.DateTexts | hospitalization.py:164 | the texts are exactly the rendered values that are not null-like |
| HospitalizationChecks.DateOutcomeMeaning | hospitalization.py:143-179 | a column conforms exactly when present and either all timestamps or every remaining text parses and matches `YYYY-MM-DD`; null-like strings never count |
| HospitalizationChecks.DateCheck | hospitalization.py:141-181 | the passing count never exceeds the number of temporal columns |
| HospitalizationChecks.DateCheckPasses | hospitalization.py:182-185 | the date check passes exactly when every temporal column conforms |
| HospitalizationChecks.DateCheckToFix | hospitalization.py:159-176 | the columns marked to fix are exactly those that parse but do not match |
| HospitalizationChecks.AssignKeeps | hospitalization.py:206 | assigning a category column keeps the row count and every other column |
| HospitalizationChecks.AssignAllRows | hospitalization.py:205-206 | assigning all category columns keeps the row count, every column, and every cell outside the category columns |
| HospitalizationChecks.AssignedCategories | hospitalization.py:205-206 | without KeyError every row's category column holds `map_to_category` of its name's text |
| HospitalizationChecks.AssignErrorPersists | hospitalization.py:205-206 | once a column raises, the later columns are never assigned |
| HospitalizationChecks.NamePairs | hospitalization.py:223 | the (name, category) pairs, each once, exactly those of the rows |
| HospitalizationChecks.NamesUnder | hospitalization.py:225 | the names under a category are exactly those paired with it; a NULL category has none |
| HospitalizationChecks.ExportOf | hospitalization.py:219-228 | one export entry per category column |
| HospitalizationChecks.ExportGroupsNames | hospitalization.py:220-226 | one group per occurring category, and a name is listed under a category exactly when some row pairs them |
| HospitalizationChecks.Hospitalization.CheckIdDuplicate | hospitalization.py:68-89 | the flag is raised exactly when neither id column repeats; without `hospitalization_id` the query fails and no flag changes |
| HospitalizationChecks.Hospitalization.CheckMissingColumns | hospitalization.py:91-104 | records the missing and the non-standard columns, and raises the flag exactly when none is missing |
| HospitalizationChecks.Hospitalization.CheckCategory | hospitalization.py:107-135 | a KeyError sets no flag; otherwise the flag is raised exactly when every category column passes |
| HospitalizationChecks.Hospitalization.CheckDateTimeFormat | hospitalization.py:138-185 | appends the columns to fix and raises the flag exactly when every temporal column conforms |
| HospitalizationChecks.Hospitalization.AddClifCategory | hospitalization.py:194-228 | records given mappings, assigns categories column by column (keeping earlier columns at a KeyError), and exports the names grouped by category |
| HospitalizationChecks.PermissibleValues | hospitalization.py:119-121 | the update loop collects exactly the permissible values |
| LoadQueries.IdColumns | src/pyclif/utils/io.py:10 | the id columns are exactly the columns whose name ends in `_id` |
| LoadQueries.AsStringDtype | src/pyclif/utils/io.py:12 | a value becomes its text, NULL stays NULL, and text is unchanged |
| LoadQueries.CastIdsCells | src/pyclif/utils/io.py:9-13 | columns and row count stay, every id cell becomes text or stays NULL, and every other cell is untouched |
| LoadQueries.CastIdsIdempotent | src/pyclif/utils/io.py:98 | casting twice is casting once |
| LoadQueries.CastIdColumns | src/pyclif/utils/io.py:9-13 | the in-place loop leaves the frame as `CastIds` of its old contents |
| LoadQueries.Literals | src/pyclif/utils/io.py:78 | one quoted literal per value, in order |
| LoadQueries.Clauses | src/pyclif/utils/io.py:73-82 | one clause per filter |
| LoadQueries.BuildClause | src/pyclif/utils/io.py:76-82 | one filter's clause is `Clause`: escaped for the CSV reader, values quoted verbatim for the parquet reader (lines 28-34) |
| LoadQueries.BuildClauses | src/pyclif/utils/io.py:73-84 | the append loop yields the clauses of all filters, in order, escaped or verbatim as asked |
| LoadQueries.BuildCsvQuery | src/pyclif/utils/io.py:64-87 | the `+=` construction yields `CsvQuery` |
| LoadQueries.BuildParquetQuery | src/pyclif/utils/io.py:24-37 | the `+=` construction, with values quoted verbatim, yields `ParquetQueryAsWritten` |
| LoadQueries.ReadersAgree | src/pyclif/utils/io.py:24-37 | the readers write the same filter clauses exactly when no filter value holds a quote, and then both queries end in the escaped WHERE text and the same LIMIT text; the column lists agree except for an empty list (`*` against nothing) |
| LoadQueries.QuoteFreeClauses | src/pyclif/utils/io.py:27-35 | without quotes in the values the verbatim clauses are the escaped ones |
| LoadQueries.ClauseDiffers | src/pyclif/utils/io.py:31-34 | a clause over a value holding a quote differs between the verbatim and the escaped text |
| LoadQueries.QuotedListRoundTrip | src/pyclif/utils/io.py:78-79 | a list of escaped literals reads back as exactly its texts, in order |
| LoadQueries.ListRoundTrip | src/pyclif/utils/io.py:78-79 | an escaped `IN` list reads back as exactly the values' texts |
| LoadQueries.ClauseRoundTrip | src/pyclif/utils/io.py:76-82 | every escaped clause carries its values intact: the `=` value and a non-empty `IN` list read back as the filter's texts |
| LoadQueries.QuoteFreeAgrees | src/pyclif/utils/io.py:27-35 | without quotes in the values the parquet query as written is the escaped one |
| LoadQueries.UnescapedQuoteMisread | src/pyclif/utils/io.py:31-34 | an unescaped literal holding a quote never reads back as its value, while the escaped literal does |
| LoadQueries.PathJoin | src/pyclif/utils/io.py:60 | an absolute file wins; otherwise the path starts with the directory and ends with the file |
| LoadQueries.FilePathShape | src/pyclif/utils/io.py:60 | the file lies in the table directory, with exactly one separator between them |
| LoadQueries.LoadedOutcomes | src/pyclif/utils/io.py:44-106 | FileNotFoundError exactly when the file is missing; ValueError exactly when it exists with another format; otherwise the engine's error for the format's query as written, or its frame with the id columns cast |
| LoadQueries.LoadedQuoteFree | src/pyclif/utils/io.py:15-42 | with quote-free filters, loading a parquet file gives the result of the escaped query |
| LoadQueries.LoadedIdsAreText | src/pyclif/utils/io.py:98 | every id column of a loaded frame holds text or NULL |
| LoadQueries.LoadParquetWithTz | src/pyclif/utils/io.py:15-42 | the engine's error for the query as written, or a new frame holding its result with the id columns cast |
| LoadQueries.LoadData | src/pyclif/utils/io.py:44-106 | the step-by-step load returns or raises what `Loaded` says, passing the engine's errors on |

## Left out

- SQL text and the DuckDB engine: queries are modelled by what they return, and fail only where the model says so (an unreadable pivot allow-list, `AVG` over text, a missing column, the loader's engine error). Connections, `register`/`unregister`, `PIVOT` text, `SHOW TABLES`, memory and thread settings are not modelled.
- Floating point: `AVG` and `MEDIAN` values are parameters (`Stats`). Numbers are integers.
- Calendar and time zones: time is whole seconds, the minute key is `t / 60`, and the date is `t / 86400` (UTC). `strftime` text, `pd.to_datetime` coercion and `convert_datetime_columns_to_site_tz` (`src/pyclif/utils/io.py:108-151`, and its call at 101-102) are not modelled.
- The order the engine promises for FIRST, LAST and GROUP BY output: the model assumes the order of `hourly_data`, and the same group order for every verb query. The source itself does not guarantee this: each verb query at src/pyclif/utils/wide_dataset.py:471-519 has its own GROUP BY and no ORDER BY, runs with `preserve_insertion_order=false` on 4 threads (lines 263-275), and lines 346-357 drop the group columns and join the verb frames by position with `pd.concat(axis=1)`, so the source can pair one hour's aggregates with another hour's; the model describes the output when the groups come back in the same order.
- Random sampling (`np.random.choice`): the sampled ids are a parameter of the request.
- I/O: the model leaves out `_save_dataset` file writes, reading CSV and parquet files (the engine's result is a parameter), whether a path exists (a parameter), printing, tqdm, logging and `gc.collect`. `os.path.basename` is used only for printing.
- `src/pyclif/data/loader.py` is not part of this model.
- Hospitalization plumbing: JSON loading, `get_duckdb_register`, `get_columns`, `get_df`, `validate` and `table_heath` (printing and dispatch) are left out. The validation file's contents are a value (`ValidationSpec`). The export is returned, not written to a file. The session's patient table is passed as a column of ids.
- HospitalizationChecks.Hospitalization.CheckDateTimeFormat: `pd.to_datetime(..., format='%Y-%m-%d')` is a parameter `parses`, `\d` is read as an ASCII digit, and a datetime column is one whose values are all timestamps. Dates are assumed to have years below 10000, as pandas timestamps do.
- HospitalizationChecks.CellText: a NULL name renders as `nan`; other dtype-specific renderings are not modelled.
- Hourly.MergeAt: `pd.concat(axis=1)` with two frames sharing a column name yields two columns. The model keeps the earlier frame's value, so one-hot names that collide with other output names are not told apart.
- Pivot.ReadAllowList: a category that closes the list and adds SQL of its own (`x') OR (1=1`) is modelled as a failing query; what the engine would make of such text is not modelled.
- WideDataset.CheckedCohort: the `pd.to_datetime` conversion of `start_time` and `end_time` (`src/pyclif/utils/wide_dataset.py:72-74`) is not modelled; times are already whole seconds.
- HourlyConfig.AggregationConfig: the model assumes each verb's list is a distinct list object, as a dict literal gives.
- LoadQueries.PathJoin: a file path holding a single quote is written into `read_csv_auto('...')` / `parquet_scan('...')` unescaped by both readers. The model keeps the path text and does not model how the engine reads it.
- LoadQueries.LimitText: a sample size is an integer. Float and NaN sample sizes are not modelled.
- LoadQueries.ParquetSelect: with `columns=[]` the parquet reader writes an empty select list (`SELECT  FROM`), which the engine rejects. The model keeps that text as written.
- Column dtypes: the model has no dtypes. A NULL id's `astype(str)` is modelled as the text `nan`.
- `convert_wide_to_hourly` (`src/pyclif/utils/wide_dataset.py:591-626`) only forwards to `convert_wide_to_hourly_optimized`. It has no member of its own.

## Findings

| source | as written | input that shows it | evidently intended | confidence | as-written member | corrected member |
|---|---|---|---|---|---|---|
| src/pyclif/utils/wide_dataset.py:464-466 | `_build_aggregation_query_duckdb` extends `aggregation_config['first']` in place. `.copy()` at line 407 is shallow, so the extension reaches the caller's list. | `aggregation_config={'first': ['a']}` and a wide frame with an unlisted column `x`, run in two batches. Batch 1 names it `x_c`, batch 2 names it `x_first`, so the stacked frame splits `x` in two. A second call with the same dict also names it `x_first`. | A column no verb names is always `<column>_c`, and the caller's configuration is left alone. | not executed | Hourly.SecondBatchRenamesDefaults | HourlyPlan.DefaultedColumnsNamedC |
| src/pyclif/utils/io.py:31-34 | The parquet reader writes filter values between quotes without doubling their own quotes. The CSV reader at lines 78-82 does double them. | `filters={'patient_id': "O'Brien"}` gives `patient_id = 'O'Brien'`. The literal ends after `O`, so the value is never compared as written. | Values are escaped as in the CSV reader, so every clause carries its value intact. | not executed | LoadQueries.UnescapedQuoteMisread | LoadQueries.ClauseRoundTrip |
| src/pyclif/utils/wide_dataset.py:836-838 | `_pivot_table_duckdb` joins the allowed categories with `','` and splices them between quotes without doubling their own quotes. | `category_filters={'labs': ["o'hara"]}` gives `IN ('o'hara')`. The query fails, the error is caught, and the labs table contributes no pivot and no event times. | Categories are escaped, so the engine filters on exactly the configured list. | not executed | Pivot.LoneQuoteFails | Pivot.EscapedAllowList |
