/**
 * The hospitalization table's validation checks and category mapping: a `Hospitalization` object
 * holds the table and the parts of its validation file the checks read, and each check records
 * what it found and raises its pass flag only when it passes.
 */
module HospitalizationChecks {
  import opened Wrappers
  import opened Relational
  import Text

  // ---------------------------------------------------------------------------------------
  // Sequences.

  /** A column of the table, row by row. */
  function ColumnValues(rows: seq<Row>, c: string): (vs: seq<Option<Value>>)
    ensures |vs| == |rows| && forall i :: 0 <= i < |rows| ==> vs[i] == Cell(rows[i], c)
  {
    seq(|rows|, i requires 0 <= i < |rows| => Cell(rows[i], c))
  }

  // ---------------------------------------------------------------------------------------
  // Categories.

  /** What `map_to_category` returns when no category lists the value. */
  const NO_MAPPING := "No Mapping Found"

  /** One category of a mapping with the source values it covers. */
  datatype CategoryValues = CategoryValues(category: string, values: seq<string>)

  /** A mapping from category to source values, in the order of the validation file. */
  type Mapping = seq<CategoryValues>

  /**
   * `map_to_category`: the first category, in mapping order, whose values include `value`;
   * `No Mapping Found` when none does.
   */
  function MapToCategory(value: string, mapping: Mapping): (r: string)
    ensures (forall k :: 0 <= k < |mapping| ==> value !in mapping[k].values) ==> r == NO_MAPPING
    ensures forall k ::
      (0 <= k < |mapping| && value in mapping[k].values && (forall j :: 0 <= j < k ==> value !in mapping[j].values)) ==>
      r == mapping[k].category
    decreases |mapping|
  {
    if mapping == [] then NO_MAPPING
    else if value in mapping[0].values then mapping[0].category
    else
      assert forall k :: 1 <= k < |mapping| ==> mapping[1..][k - 1] == mapping[k];
      MapToCategory(value, mapping[1..])
  }

  /** A category column and the column of source names it is derived from. */
  datatype CategoryColumn = CategoryColumn(category: string, name: string)

  /** The parts of the table's validation file the checks read. */
  datatype ValidationSpec = ValidationSpec(
    baseColumns: seq<string>,
    categoryColumns: seq<CategoryColumn>,
    mapping: map<string, Mapping>,
    temporalColumns: seq<string>)

  /** The category columns in order, the keys of `category_columns`. */
  function CategoryNames(ccs: seq<CategoryColumn>): (r: seq<string>)
    ensures |r| == |ccs| && forall i :: 0 <= i < |ccs| ==> r[i] == ccs[i].category
  {
    seq(|ccs|, i requires 0 <= i < |ccs| => ccs[i].category)
  }

  // ---------------------------------------------------------------------------------------
  // Pass flags.

  predicate Flag(h: map<string, bool>, check: string) {
    check in h && h[check]
  }

  /** No flag that was set is cleared. */
  predicate FlagsKept(h: map<string, bool>, h2: map<string, bool>) {
    forall k :: k in h && h[k] ==> Flag(h2, k)
  }

  /** Sets `check`'s flag when it passed, and leaves every flag alone otherwise. */
  function Raise(h: map<string, bool>, check: string, pass: bool): (h2: map<string, bool>)
    ensures FlagsKept(h, h2)
    ensures Flag(h2, check) <==> pass || Flag(h, check)
    ensures forall k :: k != check ==> (k in h2 <==> k in h) && (k in h ==> h2[k] == h[k])
  {
    if pass then h[check := true] else h
  }

  // ---------------------------------------------------------------------------------------
  // Duplicate ids.

  /** The values occurring more than once: `GROUP BY ... HAVING COUNT(*) > 1`, NULL a group of its own. */
  function Duplicated<T(!new)>(xs: seq<T>): set<T> {
    set x | x in xs && multiset(xs)[x] > 1
  }

  lemma {:induction false} TwiceIn<T(!new)>(xs: seq<T>, x: T)
    requires multiset(xs)[x] > 1
    ensures exists i, j :: 0 <= i < j < |xs| && xs[i] == x && xs[j] == x
    decreases |xs|
  {
    assert xs == [xs[0]] + xs[1..];
    if xs[0] == x {
      assert multiset(xs[1..])[x] > 0;
      var j :| 0 <= j < |xs[1..]| && xs[1..][j] == x;
      assert xs[j + 1] == x;
    } else {
      TwiceIn(xs[1..], x);
      var i, j :| 0 <= i < j < |xs[1..]| && xs[1..][i] == x && xs[1..][j] == x;
      assert xs[i + 1] == x && xs[j + 1] == x;
    }
  }

  /** No value occurs twice exactly when the sequence repeats nothing. */
  lemma NoneDuplicated<T(!new)>(xs: seq<T>)
    ensures Duplicated(xs) == {} <==> NoDuplicates(xs)
  {
    if Duplicated(xs) != {} {
      var x :| x in Duplicated(xs);
      TwiceIn(xs, x);
    }
    if !NoDuplicates(xs) {
      var i, j :| 0 <= i < j < |xs| && xs[i] == xs[j];
      assert xs == xs[..j] + xs[j..];
      assert xs[i] in xs[..j];
      assert xs[j..][0] == xs[i];
      assert multiset(xs)[xs[i]] == multiset(xs[..j])[xs[i]] + multiset(xs[j..])[xs[i]];
      assert xs[i] in Duplicated(xs);
    }
  }

  /** `check_id_duplicate` passes when neither id column has a duplicated value. */
  predicate IdsUnique(patientIds: seq<Option<Value>>, hospitalizationIds: seq<Option<Value>>) {
    Duplicated(patientIds) == {} && Duplicated(hospitalizationIds) == {}
  }

  /** The check passes exactly when no patient and no hospitalization id (NULL included) repeats. */
  lemma IdsUniqueMeaning(patientIds: seq<Option<Value>>, hospitalizationIds: seq<Option<Value>>)
    ensures IdsUnique(patientIds, hospitalizationIds) <==> NoDuplicates(patientIds) && NoDuplicates(hospitalizationIds)
  {
    NoneDuplicated(patientIds);
    NoneDuplicated(hospitalizationIds);
  }

  // ---------------------------------------------------------------------------------------
  // Missing and non-standard columns.

  /** The columns of `from` that `other` lacks, in the order of `from`. */
  function Lacking(from: seq<string>, other: seq<string>): (r: seq<string>)
    ensures forall c :: c in r <==> c in from && c !in other
  {
    Filter(from, c => c !in other)
  }

  // ---------------------------------------------------------------------------------------
  // Category values.

  /** `permissible_values`: every value listed under any category of the mapping. */
  function Permissible(m: Mapping): (s: set<string>)
    ensures forall v :: v in s <==> exists k :: 0 <= k < |m| && v in m[k].values
    decreases |m|
  {
    if m == [] then {}
    else
      var init := m[..|m| - 1];
      assert forall k :: 0 <= k < |init| ==> init[k] == m[k];
      Permissible(init) + Elements(m[|m| - 1].values)
  }

  /** The elements of a list, as a set. */
  function Elements(xs: seq<string>): (s: set<string>)
    ensures forall x :: x in s <==> x in xs
  {
    set i | 0 <= i < |xs| :: xs[i]
  }

  /** `isin` on a set of strings: only a text value in the set; NULL is never in it. */
  predicate Allowed(o: Option<Value>, allowed: set<string>) {
    o.Some? && o.value.Str? && o.value.s in allowed
  }

  /** `df[~df[col].isin(allowed)][col].unique()`. */
  function InvalidValues(rows: seq<Row>, col: string, allowed: set<string>): (r: seq<Option<Value>>)
    ensures r == [] <==> forall i :: 0 <= i < |rows| ==> Allowed(Cell(rows[i], col), allowed)
  {
    var vs := ColumnValues(rows, col);
    var bad := Filter(vs, o => !Allowed(o, allowed));
    assert forall i :: 0 <= i < |rows| && !Allowed(Cell(rows[i], col), allowed) ==> vs[i] in bad;
    var r := Distinct(bad);
    assert bad == [] || bad[0] in r;
    r
  }

  /** Every value of the column is listed in its mapping. */
  predicate ValuesListed(rows: seq<Row>, col: string, m: Mapping) {
    forall i :: 0 <= i < |rows| ==> Allowed(Cell(rows[i], col), Permissible(m))
  }

  /**
   * The number of columns of `cols` that pass `check_category`; a column present in the table
   * but absent from the mapping raises KeyError.
   */
  function CategoryPasses(df: Table, cols: seq<string>, mapping: map<string, Mapping>): (r: Result<nat>)
    ensures r.Ok? ==> r.value <= |cols|
    decreases |cols|
  {
    if cols == [] then Ok(0)
    else
      match CategoryPasses(df, cols[..|cols| - 1], mapping)
      case Err(e) => Err(e)
      case Ok(n) =>
        var c := cols[|cols| - 1];
        if c !in df.columns then Ok(n)
        else if c !in mapping then Err(KeyError(c))
        else if ValuesListed(df.rows, c, mapping[c]) then Ok(n + 1)
        else Ok(n)
  }

  /** A column passes when it is present, mapped and every value of it is listed. */
  predicate CategoryColumnPasses(df: Table, c: string, mapping: map<string, Mapping>) {
    c in df.columns && c in mapping && ValuesListed(df.rows, c, mapping[c])
  }

  /**
   * `check_category` passes exactly when every category column is present and holds only
   * listed values (a missing column counts as a fault).
   */
  lemma {:induction false} CategoryAllPass(df: Table, cols: seq<string>, mapping: map<string, Mapping>)
    requires CategoryPasses(df, cols, mapping).Ok?
    ensures CategoryPasses(df, cols, mapping).value == |cols| <==> forall i :: 0 <= i < |cols| ==> CategoryColumnPasses(df, cols[i], mapping)
    decreases |cols|
  {
    if cols != [] {
      var init := cols[..|cols| - 1];
      CategoryAllPass(df, init, mapping);
      assert forall i :: 0 <= i < |init| ==> init[i] == cols[i];
    }
  }

  /** Once a prefix raises, the whole check raises the same error. */
  lemma {:induction false} CategoryErrorPersists(df: Table, cols: seq<string>, k: nat, mapping: map<string, Mapping>)
    requires k <= |cols| && CategoryPasses(df, cols[..k], mapping).Err?
    ensures CategoryPasses(df, cols, mapping) == CategoryPasses(df, cols[..k], mapping)
    decreases |cols| - k
  {
    if k < |cols| {
      assert cols[..k + 1][..k] == cols[..k];
      CategoryErrorPersists(df, cols, k + 1, mapping);
    } else {
      assert cols[..k] == cols;
    }
  }

  // ---------------------------------------------------------------------------------------
  // Date format.

  /** The strings the date check treats as missing. */
  const NULL_LIKE: seq<string> := ["NULL", "null", "Null"]

  /** `^\d{4}-\d{2}-\d{2}` on the first ten characters. */
  predicate DateShape(s: string)
    requires |s| >= 10
  {
    && (forall i :: 0 <= i < 10 && i != 4 && i != 7 ==> Text.IsDigit(s[i]))
    && s[4] == '-' && s[7] == '-'
  }

  /**
   * `re.match(r'^\d{4}-\d{2}-\d{2}$', s)`: ten characters of that shape; `$` also matches just
   * before one final newline.
   */
  predicate MatchesDatePattern(s: string) {
    (|s| == 10 && DateShape(s)) || (|s| == 11 && s[10] == '\n' && DateShape(s))
  }

  /** `n` written with exactly `width` digits, zero-padded on the left. */
  function Padded(n: nat, width: nat): (r: string)
    ensures |r| == width && forall i :: 0 <= i < width ==> Text.IsDigit(r[i])
  {
    if width == 0 then "" else Padded(n / 10, width - 1) + [Text.DigitChar(n % 10)]
  }

  /** `strftime('%Y-%m-%d')` of a date with a year below 10000. */
  function FormatDate(year: nat, month: nat, day: nat): (r: string)
    requires year < 10000 && 1 <= month <= 12 && 1 <= day <= 31
  {
    Padded(year, 4) + "-" + Padded(month, 2) + "-" + Padded(day, 2)
  }

  /**
   * Every date pandas can hold has a year below 10000, so its `%Y-%m-%d` text matches the
   * pattern: a datetime column always passes.
   */
  lemma FormattedDatesMatch(year: nat, month: nat, day: nat)
    requires year < 10000 && 1 <= month <= 12 && 1 <= day <= 31
    ensures MatchesDatePattern(FormatDate(year, month, day))
  {
    var s := FormatDate(year, month, day);
    var y, m, d := Padded(year, 4), Padded(month, 2), Padded(day, 2);
    assert s == y + "-" + m + "-" + d;
    forall i | 0 <= i < 10 && i != 4 && i != 7 ensures Text.IsDigit(s[i]) {
      if i < 4 {
        assert s[i] == y[i];
      } else if i < 7 {
        assert s[i] == m[i - 5];
      } else {
        assert s[i] == d[i - 8];
      }
    }
  }

  /** `dropna()`: the column's non-NULL values, in order. */
  function PresentValues(rows: seq<Row>, col: string): (vs: seq<Value>)
    ensures forall v :: v in vs <==> exists i :: 0 <= i < |rows| && Cell(rows[i], col) == Some(v)
    decreases |rows|
  {
    if rows == [] then []
    else
      var rest := PresentValues(rows[1..], col);
      assert forall i :: 1 <= i < |rows| ==> rows[1..][i - 1] == rows[i];
      match Cell(rows[0], col)
      case Some(v) => [v] + rest
      case None => rest
  }

  /** A column of timestamps is a datetime column. */
  predicate AllTimes(vs: seq<Value>) {
    forall i :: 0 <= i < |vs| ==> vs[i].Time?
  }

  /** `astype(str)` then the null-like strings dropped. */
  function DateTexts(vs: seq<Value>): (ts: seq<string>)
    ensures forall t :: t in ts <==> t !in NULL_LIKE && exists i :: 0 <= i < |vs| && Render(vs[i]) == t
  {
    var texts := seq(|vs|, i requires 0 <= i < |vs| => Render(vs[i]));
    assert forall i :: 0 <= i < |vs| ==> texts[i] == Render(vs[i]);
    Filter(texts, t => t !in NULL_LIKE)
  }

  /** What `check_date_time_format` concludes about one temporal column. */
  datatype DateOutcome =
    | Absent        // missing column: a fault
    | Conforms      // passes
    | Unparsable    // `pd.to_datetime` raised: a fault
    | Nonconforming // parsed, but not every value matches the pattern: a fault, to be fixed

  /** The outcome for `col`, with `parses` standing for `pd.to_datetime(format='%Y-%m-%d')` on one value. */
  function DateOutcomeOf(df: Table, col: string, parses: string -> bool): DateOutcome {
    if col !in df.columns then Absent
    else
      var vs := PresentValues(df.rows, col);
      if AllTimes(vs) then Conforms
      else
        var ts := DateTexts(vs);
        if exists i :: 0 <= i < |ts| && !parses(ts[i]) then Unparsable
        else if forall i :: 0 <= i < |ts| ==> MatchesDatePattern(ts[i]) then Conforms
        else Nonconforming
  }

  /**
   * A temporal column passes exactly when it is present and either holds timestamps only or
   * every value that is not NULL or a null-like string parses and matches `YYYY-MM-DD`; a
   * null-like string never makes it fail.
   */
  lemma DateOutcomeMeaning(df: Table, col: string, parses: string -> bool)
    ensures DateOutcomeOf(df, col, parses) == Conforms <==>
      col in df.columns &&
      (AllTimes(PresentValues(df.rows, col)) ||
       forall t :: t in DateTexts(PresentValues(df.rows, col)) ==> parses(t) && MatchesDatePattern(t))
    ensures forall t :: t in DateTexts(PresentValues(df.rows, col)) ==> t !in NULL_LIKE
  {
  }

  /** The running result of `check_date_time_format`: the columns that passed and those to fix. */
  datatype DateTally = DateTally(passes: nat, toFix: seq<string>)

  function DateCheck(df: Table, cols: seq<string>, parses: string -> bool): (t: DateTally)
    ensures t.passes <= |cols|
    decreases |cols|
  {
    if cols == [] then DateTally(0, [])
    else
      var prior := DateCheck(df, cols[..|cols| - 1], parses);
      var c := cols[|cols| - 1];
      match DateOutcomeOf(df, c, parses)
      case Conforms => DateTally(prior.passes + 1, prior.toFix)
      case Nonconforming => DateTally(prior.passes, prior.toFix + [c])
      case _ => prior
  }

  /** One more temporal column checked. */
  lemma DateCheckStep(df: Table, cols: seq<string>, i: nat, parses: string -> bool)
    requires i < |cols|
    ensures var prior := DateCheck(df, cols[..i], parses);
      DateCheck(df, cols[..i + 1], parses) ==
        match DateOutcomeOf(df, cols[i], parses)
        case Conforms => DateTally(prior.passes + 1, prior.toFix)
        case Nonconforming => DateTally(prior.passes, prior.toFix + [cols[i]])
        case _ => prior
  {
    assert cols[..i + 1][..i] == cols[..i];
  }

  /** The date check passes exactly when every temporal column conforms. */
  lemma {:induction false} DateCheckPasses(df: Table, cols: seq<string>, parses: string -> bool)
    ensures DateCheck(df, cols, parses).passes == |cols| <==> forall i :: 0 <= i < |cols| ==> DateOutcomeOf(df, cols[i], parses) == Conforms
    decreases |cols|
  {
    if cols != [] {
      var init := cols[..|cols| - 1];
      DateCheckPasses(df, init, parses);
      DateCheckStep(df, cols, |cols| - 1, parses);
      assert cols[..|cols|] == cols;
      assert forall i :: 0 <= i < |init| ==> init[i] == cols[i];
    }
  }

  /** The columns the date check marks for fixing are exactly those that parse but do not match. */
  lemma {:induction false} DateCheckToFix(df: Table, cols: seq<string>, parses: string -> bool)
    ensures forall c :: c in DateCheck(df, cols, parses).toFix <==> c in cols && DateOutcomeOf(df, c, parses) == Nonconforming
    decreases |cols|
  {
    if cols != [] {
      var init := cols[..|cols| - 1];
      DateCheckToFix(df, init, parses);
      assert cols == init + [cols[|cols| - 1]];
    }
  }

  // ---------------------------------------------------------------------------------------
  // Category assignment and export.

  /** Python's `str` on a cell; a NULL read from the file is NaN and prints as `nan`. */
  function CellText(o: Option<Value>): string {
    match o
    case Some(v) => Render(v)
    case None => "nan"
  }

  /**
   * `df[category] = df[name].apply(lambda x: map_to_category(str(x), mapping))`; the column is
   * appended when new. The mapping is looked up once per row, so with no rows a missing mapping
   * raises nothing.
   */
  function AssignCategory(df: Table, cc: CategoryColumn, mappings: map<string, Mapping>): Result<Table> {
    if cc.name !in df.columns then Err(KeyError(cc.name))
    else if cc.category !in mappings && |df.rows| > 0 then Err(KeyError(cc.category))
    else
      var m := if cc.category in mappings then mappings[cc.category] else [];
      Ok(Table(
        if cc.category in df.columns then df.columns else df.columns + [cc.category],
        seq(|df.rows|, i requires 0 <= i < |df.rows| =>
          df.rows[i][cc.category := Some(Str(MapToCategory(CellText(Cell(df.rows[i], cc.name)), m)))])))
  }

  /**
   * The category columns assigned in order; at the first KeyError the frame keeps the
   * columns assigned so far and the error is returned beside it.
   */
  function AssignAll(df: Table, ccs: seq<CategoryColumn>, mappings: map<string, Mapping>): (Table, Option<Error>)
    decreases |ccs|
  {
    if ccs == [] then (df, None)
    else
      var prior := AssignAll(df, ccs[..|ccs| - 1], mappings);
      if prior.1.Some? then prior
      else
        match AssignCategory(prior.0, ccs[|ccs| - 1], mappings)
        case Ok(t) => (t, None)
        case Err(e) => (prior.0, Some(e))
  }

  /** Assigning a category column keeps the row count and every other column. */
  lemma AssignKeeps(df: Table, cc: CategoryColumn, mappings: map<string, Mapping>, c: string, i: nat)
    requires AssignCategory(df, cc, mappings).Ok? && c != cc.category && i < |df.rows|
    ensures |AssignCategory(df, cc, mappings).value.rows| == |df.rows|
    ensures Cell(AssignCategory(df, cc, mappings).value.rows[i], c) == Cell(df.rows[i], c)
    ensures c in df.columns ==> c in AssignCategory(df, cc, mappings).value.columns
  {
  }

  /** No category column is another's name column, and each category column appears once. */
  predicate IndependentColumns(ccs: seq<CategoryColumn>) {
    && (forall i, j :: 0 <= i < |ccs| && 0 <= j < |ccs| ==> ccs[i].category != ccs[j].name)
    && (forall i, j :: 0 <= i < j < |ccs| ==> ccs[i].category != ccs[j].category)
  }

  lemma {:induction false} AssignAllRows(df: Table, ccs: seq<CategoryColumn>, mappings: map<string, Mapping>)
    requires AssignAll(df, ccs, mappings).1.None?
    ensures |AssignAll(df, ccs, mappings).0.rows| == |df.rows|
    ensures forall c :: c in df.columns ==> c in AssignAll(df, ccs, mappings).0.columns
    ensures forall i, c :: 0 <= i < |df.rows| && (forall k :: 0 <= k < |ccs| ==> ccs[k].category != c) ==>
      Cell(AssignAll(df, ccs, mappings).0.rows[i], c) == Cell(df.rows[i], c)
    decreases |ccs|
  {
    if ccs != [] {
      var init := ccs[..|ccs| - 1];
      var cc := ccs[|ccs| - 1];
      AssignAllRows(df, init, mappings);
      var prior := AssignAll(df, init, mappings).0;
      forall i, c | 0 <= i < |df.rows| && (forall k :: 0 <= k < |ccs| ==> ccs[k].category != c)
        ensures Cell(AssignAll(df, ccs, mappings).0.rows[i], c) == Cell(df.rows[i], c)
      {
        assert forall k :: 0 <= k < |init| ==> init[k] == ccs[k];
        AssignKeeps(prior, cc, mappings, c, i);
      }
    }
  }

  /**
   * `add_clif_category`: when no KeyError is raised, every row's category column holds the
   * category `map_to_category` gives the text of its name column, and the row count is kept.
   */
  lemma {:induction false} AssignedCategories(df: Table, ccs: seq<CategoryColumn>, mappings: map<string, Mapping>)
    requires IndependentColumns(ccs) && AssignAll(df, ccs, mappings).1.None?
    ensures |AssignAll(df, ccs, mappings).0.rows| == |df.rows|
    ensures forall k, i :: 0 <= k < |ccs| && 0 <= i < |df.rows| && ccs[k].category in mappings ==>
      Cell(AssignAll(df, ccs, mappings).0.rows[i], ccs[k].category)
        == Some(Str(MapToCategory(CellText(Cell(df.rows[i], ccs[k].name)), mappings[ccs[k].category])))
    decreases |ccs|
  {
    AssignAllRows(df, ccs, mappings);
    if ccs != [] {
      var init := ccs[..|ccs| - 1];
      var cc := ccs[|ccs| - 1];
      assert forall k :: 0 <= k < |init| ==> init[k] == ccs[k];
      assert IndependentColumns(init);
      AssignedCategories(df, init, mappings);
      AssignAllRows(df, init, mappings);
      var prior := AssignAll(df, init, mappings).0;
      var after := AssignAll(df, ccs, mappings).0;
      assert AssignCategory(prior, cc, mappings).Ok? && after == AssignCategory(prior, cc, mappings).value;
      forall k, i | 0 <= k < |ccs| && 0 <= i < |df.rows| && ccs[k].category in mappings
        ensures Cell(after.rows[i], ccs[k].category)
          == Some(Str(MapToCategory(CellText(Cell(df.rows[i], ccs[k].name)), mappings[ccs[k].category])))
      {
        assert Cell(prior.rows[i], cc.name) == Cell(df.rows[i], cc.name);
        if k < |ccs| - 1 {
          AssignKeeps(prior, cc, mappings, ccs[k].category, i);
        }
      }
    }
  }

  /** One category of the export and the distinct names that received it. */
  datatype ExportGroup = ExportGroup(category: Option<Value>, names: seq<Option<Value>>)

  /** The export entry of one category column. */
  datatype ExportedColumn = ExportedColumn(column: string, groups: seq<ExportGroup>)

  /** The site-specific mapping `add_clif_category` exports (written to a file by the source). */
  datatype Export = Export(columns: seq<ExportedColumn>, categoryColumns: seq<CategoryColumn>)

  /** `df[[name, category]].drop_duplicates()`. */
  function NamePairs(rows: seq<Row>, cc: CategoryColumn): (ps: seq<(Option<Value>, Option<Value>)>)
    ensures NoDuplicates(ps)
    ensures forall p :: p in ps <==> exists i :: 0 <= i < |rows| && p == (Cell(rows[i], cc.name), Cell(rows[i], cc.category))
  {
    var all := seq(|rows|, i requires 0 <= i < |rows| => (Cell(rows[i], cc.name), Cell(rows[i], cc.category)));
    assert forall i :: 0 <= i < |rows| ==> all[i] == (Cell(rows[i], cc.name), Cell(rows[i], cc.category));
    Distinct(all)
  }

  /**
   * The names listed under one category: `unique[unique[category] == c][name].tolist()`; the
   * comparison is never true for a NULL category.
   */
  function NamesUnder(ps: seq<(Option<Value>, Option<Value>)>, c: Option<Value>): (ns: seq<Option<Value>>)
    ensures forall n :: n in ns <==> c.Some? && (n, c) in ps
    decreases |ps|
  {
    if ps == [] || c.None? then []
    else
      assert forall p :: p in ps <==> p == ps[0] || p in ps[1..];
      (if ps[0].1 == c then [ps[0].0] else []) + NamesUnder(ps[1..], c)
  }

  function ExportColumn(rows: seq<Row>, cc: CategoryColumn): ExportedColumn {
    var ps := NamePairs(rows, cc);
    var cats := Distinct(seq(|ps|, i requires 0 <= i < |ps| => ps[i].1));
    ExportedColumn(cc.category, seq(|cats|, k requires 0 <= k < |cats| => ExportGroup(cats[k], NamesUnder(ps, cats[k]))))
  }

  function ExportOf(df: Table, ccs: seq<CategoryColumn>): (e: Export)
    ensures |e.columns| == |ccs|
  {
    Export(seq(|ccs|, i requires 0 <= i < |ccs| => ExportColumn(df.rows, ccs[i])), ccs)
  }

  /**
   * The export groups each name under the category it received: one group per category that
   * occurs, and a name is listed under a (non-NULL) category exactly when some row pairs them.
   */
  lemma ExportGroupsNames(rows: seq<Row>, cc: CategoryColumn)
    ensures var e := ExportColumn(rows, cc);
      && (forall k, j :: 0 <= k < j < |e.groups| ==> e.groups[k].category != e.groups[j].category)
      && (forall i :: 0 <= i < |rows| ==> exists k :: 0 <= k < |e.groups| && e.groups[k].category == Cell(rows[i], cc.category))
      && (forall k, n :: 0 <= k < |e.groups| && e.groups[k].category.Some? ==>
            (n in e.groups[k].names <==> exists i :: 0 <= i < |rows| && Cell(rows[i], cc.name) == n && Cell(rows[i], cc.category) == e.groups[k].category))
  {
    var ps := NamePairs(rows, cc);
    var cs := seq(|ps|, i requires 0 <= i < |ps| => ps[i].1);
    var cats := Distinct(cs);
    var e := ExportColumn(rows, cc);
    forall i | 0 <= i < |rows| ensures exists k :: 0 <= k < |e.groups| && e.groups[k].category == Cell(rows[i], cc.category) {
      var p := (Cell(rows[i], cc.name), Cell(rows[i], cc.category));
      assert p in ps;
      var j :| 0 <= j < |ps| && ps[j] == p;
      assert cs[j] in cats;
      var k :| 0 <= k < |cats| && cats[k] == cs[j];
      assert e.groups[k].category == cats[k];
    }
  }

  // ---------------------------------------------------------------------------------------
  // The object.

  /** Names of the pass flags in `heath_check_up`. */
  const ID_DUPLICATE_CHECK := "check_id_duplicate"
  const MISSING_COLUMNS_CHECK := "check_missing_columns"
  const CATEGORY_CHECK := "check_category"
  const DATE_FORMAT_CHECK := "check_date_time_format"

  const HID := "hospitalization_id"

  class Hospitalization {
    /** The table being validated. */
    var df: Table
    /** The validation file's contents; loading the file is not part of this model. */
    const spec: ValidationSpec
    /** `val_json['heath_check_up']`: one pass flag per check. */
    var health: map<string, bool>
    var missingColumns: Option<seq<string>>
    var nonStandardColumns: Option<seq<string>>
    var siteMapping: Option<map<string, Mapping>>
    var temporalColumnsToFix: seq<string>

    constructor (df: Table, spec: ValidationSpec, health: map<string, bool>)
      ensures this.df == df && this.spec == spec && this.health == health
      ensures missingColumns.None? && nonStandardColumns.None? && siteMapping.None? && temporalColumnsToFix == []
    {
      this.df := df;
      this.spec := spec;
      this.health := health;
      missingColumns := None;
      nonStandardColumns := None;
      siteMapping := None;
      temporalColumnsToFix := [];
    }

    /**
     * `check_id_duplicate`, with `patientIds` the `patient_id` column of the session's patient
     * table: it passes when neither id column repeats a value. Without a `hospitalization_id`
     * column the query fails and no flag changes.
     */
    method CheckIdDuplicate(patientIds: seq<Option<Value>>) returns (failure: Option<Error>)
      modifies this`health
      ensures HID !in df.columns ==> failure == Some(EngineError(HID)) && health == old(health)
      ensures HID in df.columns ==>
        failure.None? && health == Raise(old(health), ID_DUPLICATE_CHECK, IdsUnique(patientIds, ColumnValues(df.rows, HID)))
    {
      if HID !in df.columns {
        return Some(EngineError(HID));
      }
      var pat := Duplicated(patientIds);
      var hosp := Duplicated(ColumnValues(df.rows, HID));
      if |pat| == 0 && |hosp| == 0 {
        health := health[ID_DUPLICATE_CHECK := true];
      }
      failure := None;
    }

    /**
     * `check_missing_columns`: records the standard columns the table lacks and the columns it
     * has beyond the standard, and passes when it lacks none.
     */
    method CheckMissingColumns()
      modifies this`missingColumns, this`nonStandardColumns, this`health
      ensures missingColumns == Some(Lacking(spec.baseColumns, df.columns))
      ensures nonStandardColumns == Some(Lacking(df.columns, spec.baseColumns))
      ensures health == Raise(old(health), MISSING_COLUMNS_CHECK, forall c :: c in spec.baseColumns ==> c in df.columns)
    {
      var current := df.columns;
      missingColumns := Some(Lacking(spec.baseColumns, current));
      nonStandardColumns := Some(Lacking(current, spec.baseColumns));
      if |missingColumns.value| == 0 {
        health := health[MISSING_COLUMNS_CHECK := true];
      } else {
        assert missingColumns.value[0] in missingColumns.value;
      }
    }

    /**
     * `check_category`: a fault count starting at the number of category columns, lowered for
     * each column that is present and holds only listed values; the check passes at zero. A
     * present column with no mapping raises KeyError and sets no flag.
     */
    method CheckCategory() returns (failure: Option<Error>)
      modifies this`health
      ensures CategoryPasses(df, CategoryNames(spec.categoryColumns), spec.mapping).Err? ==>
        failure == Some(CategoryPasses(df, CategoryNames(spec.categoryColumns), spec.mapping).error) && health == old(health)
      ensures CategoryPasses(df, CategoryNames(spec.categoryColumns), spec.mapping).Ok? ==>
        failure.None? && health == Raise(old(health), CATEGORY_CHECK, CategoryPasses(df, CategoryNames(spec.categoryColumns), spec.mapping).value == |spec.categoryColumns|)
    {
      var toCheck := CategoryNames(spec.categoryColumns);
      var faults := |toCheck|;
      for i := 0 to |toCheck|
        invariant health == old(health)
        invariant CategoryPasses(df, toCheck[..i], spec.mapping).Ok?
        invariant faults == |toCheck| - CategoryPasses(df, toCheck[..i], spec.mapping).value
      {
        var col := toCheck[i];
        assert toCheck[..i + 1][..i] == toCheck[..i];
        if col !in df.columns {
          continue;
        }
        if col !in spec.mapping {
          CategoryErrorPersists(df, toCheck, i + 1, spec.mapping);
          return Some(KeyError(col));
        }
        var allowed := PermissibleValues(spec.mapping[col]);
        var invalid := InvalidValues(df.rows, col, allowed);
        if |invalid| == 0 {
          faults := faults - 1;
        }
      }
      assert toCheck[..|toCheck|] == toCheck;
      if faults == 0 {
        health := health[CATEGORY_CHECK := true];
      }
      failure := None;
    }

    /**
     * `check_date_time_format`, with `parses` standing for `pd.to_datetime` with format
     * `%Y-%m-%d` on one value: a fault count lowered for each conforming column, and each
     * column that parses but does not match the pattern appended to the columns to fix.
     */
    method CheckDateTimeFormat(parses: string -> bool)
      modifies this`temporalColumnsToFix, this`health
      ensures temporalColumnsToFix == old(temporalColumnsToFix) + DateCheck(df, spec.temporalColumns, parses).toFix
      ensures health == Raise(old(health), DATE_FORMAT_CHECK, DateCheck(df, spec.temporalColumns, parses).passes == |spec.temporalColumns|)
    {
      var cols := spec.temporalColumns;
      var faults := |cols|;
      for i := 0 to |cols|
        invariant health == old(health)
        invariant faults == |cols| - DateCheck(df, cols[..i], parses).passes
        invariant temporalColumnsToFix == old(temporalColumnsToFix) + DateCheck(df, cols[..i], parses).toFix
      {
        var col := cols[i];
        DateCheckStep(df, cols, i, parses);
        var outcome := DateOutcomeOf(df, col, parses);
        if outcome == Conforms {
          faults := faults - 1;
        } else if outcome == Nonconforming {
          temporalColumnsToFix := temporalColumnsToFix + [col];
        }
      }
      assert cols[..|cols|] == cols;
      if faults == 0 {
        health := health[DATE_FORMAT_CHECK := true];
      }
    }

    /**
     * `add_clif_category`: the given mappings (recorded as the site mapping) or the validation
     * file's, applied column by column; at a KeyError the columns assigned so far stay. With
     * `exportMapping`, the names grouped by the category they received.
     */
    method AddClifCategory(mappings: Option<map<string, Mapping>>, exportMapping: bool) returns (r: Result<Option<Export>>)
      modifies this`df, this`siteMapping
      ensures siteMapping == if mappings.Some? then mappings else old(siteMapping)
      ensures var chosen := if mappings.Some? then mappings.value else spec.mapping;
        var (t, e) := AssignAll(old(df), spec.categoryColumns, chosen);
        && df == t
        && (e.Some? ==> r == Err(e.value))
        && (e.None? ==> r == Ok(if exportMapping then Some(ExportOf(t, spec.categoryColumns)) else None))
    {
      var chosen: map<string, Mapping>;
      if mappings.None? {
        chosen := spec.mapping;
      } else {
        chosen := mappings.value;
        siteMapping := mappings;
      }
      var ccs := spec.categoryColumns;
      for i := 0 to |ccs|
        invariant siteMapping == if mappings.Some? then mappings else old(siteMapping)
        invariant AssignAll(old(df), ccs[..i], chosen) == (df, None)
      {
        AssignAllStep(old(df), ccs, i, chosen);
        var step := AssignCategory(df, ccs[i], chosen);
        if step.Err? {
          AssignErrorPersists(old(df), ccs, i + 1, chosen);
          return Err(step.error);
        }
        df := step.value;
      }
      assert ccs[..|ccs|] == ccs;
      if exportMapping {
        r := Ok(Some(ExportOf(df, ccs)));
      } else {
        r := Ok(None);
      }
    }
  }

  /** `permissible_values.update(values)` for each category of the mapping. */
  method PermissibleValues(m: Mapping) returns (allowed: set<string>)
    ensures allowed == Permissible(m)
  {
    allowed := {};
    for k := 0 to |m|
      invariant allowed == Permissible(m[..k])
    {
      assert m[..k + 1][..k] == m[..k];
      allowed := allowed + Elements(m[k].values);
    }
    assert m[..|m|] == m;
  }

  /** One more column assigned after a prefix that raised nothing. */
  lemma AssignAllStep(df: Table, ccs: seq<CategoryColumn>, i: nat, mappings: map<string, Mapping>)
    requires i < |ccs| && AssignAll(df, ccs[..i], mappings).1.None?
    ensures var t := AssignAll(df, ccs[..i], mappings).0;
      AssignAll(df, ccs[..i + 1], mappings) ==
        match AssignCategory(t, ccs[i], mappings)
        case Ok(u) => (u, None)
        case Err(e) => (t, Some(e))
  {
    assert ccs[..i + 1][..i] == ccs[..i];
  }

  /** Once a column raises, the remaining columns are never assigned. */
  lemma {:induction false} AssignErrorPersists(df: Table, ccs: seq<CategoryColumn>, k: nat, mappings: map<string, Mapping>)
    requires k <= |ccs| && AssignAll(df, ccs[..k], mappings).1.Some?
    ensures AssignAll(df, ccs, mappings) == AssignAll(df, ccs[..k], mappings)
    decreases |ccs| - k
  {
    if k < |ccs| {
      assert ccs[..k + 1][..k] == ccs[..k];
      AssignErrorPersists(df, ccs, k + 1, mappings);
    } else {
      assert ccs[..k] == ccs;
    }
  }
}
