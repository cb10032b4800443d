/**
 * Table loading: the file path `load_data` looks for, the SQL text it hands the engine for a
 * CSV or a parquet file, the order in which it reports a missing file and an unsupported
 * format, and the cast of every `*_id` column to text that both readers apply. The engine
 * itself (what a query returns, or the error it raises) and the file system (whether a path
 * exists) are parameters.
 */
module LoadQueries {
  import opened Wrappers
  import opened Relational
  import opened Text

  // ---------------------------------------------------------------------------------------
  // `_cast_id_cols_to_string`
  // ---------------------------------------------------------------------------------------

  /** A column whose name ends in `_id`. */
  predicate IsIdColumn(c: string) {
    EndsWith(c, "_id")
  }

  /** The id columns of a frame, in column order. */
  function IdColumns(columns: seq<string>): (ids: seq<string>)
    ensures forall c :: c in ids <==> c in columns && IsIdColumn(c)
  {
    Filter(columns, IsIdColumn)
  }

  /** `astype("string")` on one cell: a value becomes its text and a missing value stays missing. */
  function AsStringDtype(o: Option<Value>): (r: Option<Value>)
    ensures r.None? <==> o.None?
    ensures r.Some? ==> r.value.Str? && r.value.s == Render(o.value)
    ensures o.Some? && o.value.Str? ==> r == o
  {
    match o
    case None => None
    case Some(v) => Some(Str(Render(v)))
  }

  /** One row with its id cells cast. */
  function CastRow(r: Row, columns: seq<string>): Row {
    map c | c in r :: if c in columns && IsIdColumn(c) then AsStringDtype(r[c]) else r[c]
  }

  /** `_cast_id_cols_to_string` on a frame's contents; a frame without id columns is left alone. */
  function CastIds(t: Table): Table {
    if IdColumns(t.columns) == [] then t
    else Table(t.columns, seq(|t.rows|, i requires 0 <= i < |t.rows| => CastRow(t.rows[i], t.columns)))
  }

  /**
   * What the cast does to a frame: the columns and the number of rows stay, every id cell
   * becomes text (or stays NULL), and every other cell is untouched.
   */
  lemma CastIdsCells(t: Table)
    ensures CastIds(t).columns == t.columns && |CastIds(t).rows| == |t.rows|
    ensures forall i, c :: 0 <= i < |t.rows| && c in t.columns && IsIdColumn(c) ==>
      Cell(CastIds(t).rows[i], c) == AsStringDtype(Cell(t.rows[i], c))
    ensures forall i, c :: 0 <= i < |t.rows| && !(c in t.columns && IsIdColumn(c)) ==>
      Cell(CastIds(t).rows[i], c) == Cell(t.rows[i], c)
  {
    assert forall c :: c in t.columns && IsIdColumn(c) ==> c in IdColumns(t.columns);
  }

  /** Casting twice is casting once: text cells stay the same text. */
  lemma CastIdsIdempotent(t: Table)
    ensures CastIds(CastIds(t)) == CastIds(t)
  {
    var u := CastIds(t);
    if IdColumns(t.columns) != [] {
      assert u.columns == t.columns;
      forall i | 0 <= i < |u.rows| ensures CastRow(u.rows[i], u.columns) == u.rows[i] {
        var r := u.rows[i];
        forall c | c in r ensures (if c in u.columns && IsIdColumn(c) then AsStringDtype(r[c]) else r[c]) == r[c] {
          if c in u.columns && IsIdColumn(c) {
            assert r[c] == AsStringDtype(t.rows[i][c]);
          }
        }
      }
    }
  }

  /** The cast applied in place to a frame object. */
  method CastIdColumns(df: DataFrame)
    modifies df
    ensures df.Contents() == CastIds(old(df.Contents()))
  {
    var ids := IdColumns(df.columns);
    if ids != [] {
      ghost var t := df.Contents();
      var i := 0;
      while i < |df.rows|
        invariant 0 <= i <= |df.rows| == |t.rows| && df.columns == t.columns
        invariant forall j :: 0 <= j < i ==> df.rows[j] == CastRow(t.rows[j], t.columns)
        invariant forall j :: i <= j < |df.rows| ==> df.rows[j] == t.rows[j]
      {
        df.rows := df.rows[i := CastRow(df.rows[i], df.columns)];
        i := i + 1;
      }
      assert df.rows == CastIds(t).rows;
    }
  }

  // ---------------------------------------------------------------------------------------
  // The SQL text
  // ---------------------------------------------------------------------------------------

  /** A filter's value: a list (`IN`) or a single value (`=`). */
  datatype FilterValue = AnyOf(values: seq<Value>) | Equals(value: Value)

  /** The `filters` dict, in its iteration order. */
  type LoadFilters = seq<(string, FilterValue)>

  /** A value between single quotes, its own quotes doubled when `escape` is set. */
  function Literal(v: Value, escape: bool): string {
    "'" + (if escape then Escape(Render(v)) else Render(v)) + "'"
  }

  function Literals(vs: seq<Value>, escape: bool): (ls: seq<string>)
    ensures |ls| == |vs| && forall i :: 0 <= i < |vs| ==> ls[i] == Literal(vs[i], escape)
  {
    seq(|vs|, i requires 0 <= i < |vs| => Literal(vs[i], escape))
  }

  /** One filter's clause: `col IN ('a', 'b')` for a list and `col = 'a'` otherwise. */
  function Clause(column: string, f: FilterValue, escape: bool): string {
    match f
    case AnyOf(vs) => column + " IN (" + Join(Literals(vs, escape), ", ") + ")"
    case Equals(v) => column + " = " + Literal(v, escape)
  }

  function Clauses(filters: LoadFilters, escape: bool): (cs: seq<string>)
    ensures |cs| == |filters|
  {
    seq(|filters|, i requires 0 <= i < |filters| => Clause(filters[i].0, filters[i].1, escape))
  }

  /** The WHERE part, present only when there is a clause. */
  function WhereText(clauses: seq<string>): string {
    if clauses == [] then "" else " WHERE " + Join(clauses, " AND ")
  }

  /** The LIMIT part, present only for a truthy sample size. */
  function LimitText(sample: Option<int>): string {
    if sample.Some? && sample.value != 0 then " LIMIT " + IntToString(sample.value) else ""
  }

  /** The CSV reader's column list: all columns when none, or an empty list, is given. */
  function CsvSelect(columns: Option<seq<string>>): string {
    if columns.None? || columns.value == [] then "*" else Join(columns.value, ", ")
  }

  /**
   * The parquet reader's column list: all columns only when none is given; an empty list
   * leaves the list empty.
   */
  function ParquetSelect(columns: Option<seq<string>>): string {
    if columns.None? then "*" else Join(columns.value, ", ")
  }

  /** The query `load_data` runs on a CSV file. */
  function CsvQuery(file: string, columns: Option<seq<string>>, filters: LoadFilters, sample: Option<int>): string {
    "SELECT " + CsvSelect(columns) + " FROM read_csv_auto('" + file + "')"
      + WhereText(Clauses(filters, true)) + LimitText(sample)
  }

  /** The query `load_parquet_with_tz` runs as written: filter values are quoted without escaping. */
  function ParquetQueryAsWritten(file: string, columns: Option<seq<string>>, filters: LoadFilters, sample: Option<int>): string {
    "SELECT " + ParquetSelect(columns) + " FROM parquet_scan('" + file + "')"
      + WhereText(Clauses(filters, false)) + LimitText(sample)
  }

  /** The parquet query with its filter values escaped as the CSV reader escapes them. */
  function ParquetQuery(file: string, columns: Option<seq<string>>, filters: LoadFilters, sample: Option<int>): string {
    "SELECT " + ParquetSelect(columns) + " FROM parquet_scan('" + file + "')"
      + WhereText(Clauses(filters, true)) + LimitText(sample)
  }

  /** One filter's clause: escaped by the CSV reader, quoted verbatim by the parquet reader. */
  method BuildClause(column: string, value: FilterValue, escape: bool) returns (clause: string)
    ensures clause == Clause(column, value, escape)
  {
    match value {
      case AnyOf(vs) =>
        clause := column + " IN (" + Join(Literals(vs, escape), ", ") + ")";
      case Equals(v) =>
        clause := column + " = " + Literal(v, escape);
    }
  }

  /** The clauses of all filters, in the dict's order. */
  method BuildClauses(filters: LoadFilters, escape: bool) returns (clauses: seq<string>)
    ensures clauses == Clauses(filters, escape)
  {
    clauses := [];
    for i := 0 to |filters|
      invariant clauses == Clauses(filters[..i], escape)
    {
      var clause := BuildClause(filters[i].0, filters[i].1, escape);
      assert Clauses(filters[..i + 1], escape) == Clauses(filters[..i], escape) + [clause];
      clauses := clauses + [clause];
    }
    assert filters[..|filters|] == filters;
  }

  /** `load_data`'s query construction for a CSV file. */
  method BuildCsvQuery(file: string, columns: Option<seq<string>>, filters: LoadFilters, sample: Option<int>)
    returns (query: string)
    ensures query == CsvQuery(file, columns, filters, sample)
  {
    var select := if columns.None? || |columns.value| == 0 then "*" else Join(columns.value, ", ");
    query := "SELECT " + select + " FROM read_csv_auto('" + file + "')";
    ghost var head := query;
    if |filters| > 0 {
      var clauses := BuildClauses(filters, true);
      if |clauses| > 0 {
        query := query + (" WHERE " + Join(clauses, " AND "));
      }
    }
    assert query == head + WhereText(Clauses(filters, true));
    ghost var filtered := query;
    if sample.Some? && sample.value != 0 {
      query := query + (" LIMIT " + IntToString(sample.value));
    }
    assert query == filtered + LimitText(sample);
  }

  /** `load_parquet_with_tz`'s query construction: the filter values are quoted verbatim. */
  method BuildParquetQuery(file: string, columns: Option<seq<string>>, filters: LoadFilters, sample: Option<int>)
    returns (query: string)
    ensures query == ParquetQueryAsWritten(file, columns, filters, sample)
  {
    var select := if columns.None? then "*" else Join(columns.value, ", ");
    query := "SELECT " + select + " FROM parquet_scan('" + file + "')";
    ghost var head := query;
    if |filters| > 0 {
      var clauses := BuildClauses(filters, false);
      query := query + (" WHERE " + Join(clauses, " AND "));
    }
    assert query == head + WhereText(Clauses(filters, false));
    ghost var filtered := query;
    if sample.Some? && sample.value != 0 {
      query := query + (" LIMIT " + IntToString(sample.value));
    }
    assert query == filtered + LimitText(sample);
  }

  // ---------------------------------------------------------------------------------------
  // Reading the literals back
  // ---------------------------------------------------------------------------------------

  /** The texts the engine compares a column with. */
  function Texts(vs: seq<Value>): (ts: seq<string>)
    ensures |ts| == |vs| && forall i :: 0 <= i < |vs| ==> ts[i] == Render(vs[i])
  {
    seq(|vs|, i requires 0 <= i < |vs| => Render(vs[i]))
  }

  /** Reads a list of literals separated by `, `, as the engine reads the inside of `IN (...)`. */
  function ReadList(s: string): Option<(seq<string>, string)>
    decreases |s|
  {
    match ReadLiteral(s)
    case None => None
    case Some(p) =>
      if |p.1| >= 2 && p.1[..2] == ", " then
        match ReadList(p.1[2..])
        case None => None
        case Some(q) => Some(([p.0] + q.0, q.1))
      else Some(([p.0], p.1))
  }

  /** An escaped literal followed by `)` is the last item of a list. */
  lemma ReadListLast(t: string, rest: string)
    requires rest != [] && rest[0] == ')'
    ensures ReadList("'" + Escape(t) + "'" + rest) == Some(([t], rest))
  {
    EscapeRoundTrip(t, rest);
  }

  /** An escaped literal followed by `, ` and a list is that list's first item. */
  lemma ReadListMore(t: string, more: string, ts: seq<string>, rest: string)
    requires ReadList(more) == Some((ts, rest))
    ensures ReadList("'" + Escape(t) + "'" + (", " + more)) == Some(([t] + ts, rest))
  {
    var tail := ", " + more;
    EscapeRoundTrip(t, tail);
    assert tail[..2] == ", " && tail[2..] == more;
  }

  /** Texts escaped and quoted one by one. */
  function QuoteAll(ts: seq<string>): (qs: seq<string>)
    ensures |qs| == |ts| && forall i :: 0 <= i < |ts| ==> qs[i] == "'" + Escape(ts[i]) + "'"
  {
    seq(|ts|, i requires 0 <= i < |ts| => "'" + Escape(ts[i]) + "'")
  }

  /** A list of escaped literals reads back as exactly its texts, in order. */
  lemma {:induction false} QuotedListRoundTrip(ts: seq<string>, rest: string)
    requires ts != [] && rest != [] && rest[0] == ')'
    ensures ReadList(Join(QuoteAll(ts), ", ") + rest) == Some((ts, rest))
    decreases |ts|
  {
    var qs := QuoteAll(ts);
    if |ts| == 1 {
      assert Join(qs, ", ") == qs[0];
      ReadListLast(ts[0], rest);
      assert [ts[0]] == ts;
    } else {
      assert qs[1..] == QuoteAll(ts[1..]);
      var more := Join(qs[1..], ", ") + rest;
      assert Join(qs, ", ") == qs[0] + ", " + Join(qs[1..], ", ");
      assert Join(qs, ", ") + rest == "'" + Escape(ts[0]) + "'" + (", " + more);
      QuotedListRoundTrip(ts[1..], rest);
      ReadListMore(ts[0], more, ts[1..], rest);
      assert [ts[0]] + ts[1..] == ts;
    }
  }

  /** An escaped list of values reads back as exactly the values' texts, in order. */
  lemma ListRoundTrip(vs: seq<Value>, rest: string)
    requires vs != [] && rest != [] && rest[0] == ')'
    ensures ReadList(Join(Literals(vs, true), ", ") + rest) == Some((Texts(vs), rest))
  {
    assert Literals(vs, true) == QuoteAll(Texts(vs));
    QuotedListRoundTrip(Texts(vs), rest);
  }

  /**
   * Every escaped clause carries its values intact: the value of `col = '...'`, and the values
   * of a non-empty `col IN (...)` list, read back as the filter's own texts.
   */
  lemma ClauseRoundTrip(column: string, f: FilterValue)
    ensures f.Equals? ==>
      && Clause(column, f, true) == column + " = " + Literal(f.value, true)
      && ReadLiteral(Literal(f.value, true)) == Some((Render(f.value), ""))
    ensures f.AnyOf? && f.values != [] ==>
      var body := Clause(column, f, true)[|column + " IN ("|..];
      && Clause(column, f, true) == column + " IN (" + body
      && ReadList(body) == Some((Texts(f.values), ")"))
  {
    match f
    case Equals(v) =>
      EscapeRoundTrip(Render(v), "");
      assert Literal(v, true) == "'" + Escape(Render(v)) + "'" + "";
    case AnyOf(vs) =>
      if vs != [] {
        var listed := Join(Literals(vs, true), ", ");
        assert Clause(column, f, true) == (column + " IN (") + (listed + ")");
        ListRoundTrip(vs, ")");
      }
  }

  /** No filter value holds a single quote. */
  predicate QuoteFree(filters: LoadFilters) {
    forall i :: 0 <= i < |filters| ==>
      match filters[i].1
      case Equals(v) => '\'' !in Render(v)
      case AnyOf(vs) => forall j :: 0 <= j < |vs| ==> '\'' !in Render(vs[j])
  }

  /** Without quotes in the filter values, the clauses as written are the escaped ones. */
  lemma QuoteFreeClauses(filters: LoadFilters)
    requires QuoteFree(filters)
    ensures Clauses(filters, false) == Clauses(filters, true)
  {
    forall i | 0 <= i < |filters|
      ensures Clauses(filters, false)[i] == Clauses(filters, true)[i]
    {
      match filters[i].1
      case Equals(v) =>
      case AnyOf(vs) =>
        assert Literals(vs, false) == Literals(vs, true);
    }
  }

  /** Without quotes in the filter values, the parquet query as written is the escaped one. */
  lemma QuoteFreeAgrees(file: string, columns: Option<seq<string>>, filters: LoadFilters, sample: Option<int>)
    requires QuoteFree(filters)
    ensures ParquetQueryAsWritten(file, columns, filters, sample) == ParquetQuery(file, columns, filters, sample)
  {
    QuoteFreeClauses(filters);
  }

  /** Joining parts no shorter than others gives a text no shorter. */
  lemma {:induction false} JoinNoShorter(xs: seq<string>, ys: seq<string>, sep: string)
    requires |xs| == |ys|
    requires forall k :: 0 <= k < |xs| ==> |xs[k]| <= |ys[k]|
    ensures |Join(xs, sep)| <= |Join(ys, sep)|
    decreases |xs|
  {
    if |xs| > 1 {
      JoinNoShorter(xs[1..], ys[1..], sep);
    }
  }

  /** Joining parts no shorter than others, one of them longer, gives a longer text. */
  lemma {:induction false} JoinLonger(xs: seq<string>, ys: seq<string>, sep: string, j: int)
    requires |xs| == |ys| && 0 <= j < |xs|
    requires forall k :: 0 <= k < |xs| ==> |xs[k]| <= |ys[k]|
    requires |xs[j]| < |ys[j]|
    ensures |Join(xs, sep)| < |Join(ys, sep)|
    decreases |xs|
  {
    if |xs| > 1 {
      if j == 0 {
        JoinNoShorter(xs[1..], ys[1..], sep);
      } else {
        JoinLonger(xs[1..], ys[1..], sep, j - 1);
      }
    }
  }

  /** A literal is never shortened by escaping, and is lengthened exactly when it holds a quote. */
  lemma LiteralLengths(v: Value)
    ensures |Literal(v, false)| <= |Literal(v, true)|
    ensures '\'' in Render(v) ==> |Literal(v, false)| < |Literal(v, true)|
  {
    if '\'' in Render(v) {
      EscapeGrows(Render(v));
    }
  }

  /** A clause whose values hold a quote is written differently by the two readers. */
  lemma ClauseDiffers(column: string, f: FilterValue)
    requires match f
      case Equals(v) => '\'' in Render(v)
      case AnyOf(vs) => exists j :: 0 <= j < |vs| && '\'' in Render(vs[j])
    ensures Clause(column, f, false) != Clause(column, f, true)
  {
    match f
    case Equals(v) =>
      LiteralLengths(v);
    case AnyOf(vs) =>
      var j :| 0 <= j < |vs| && '\'' in Render(vs[j]);
      forall k | 0 <= k < |vs| ensures |Literals(vs, false)[k]| <= |Literals(vs, true)[k]| {
        LiteralLengths(vs[k]);
      }
      LiteralLengths(vs[j]);
      JoinLonger(Literals(vs, false), Literals(vs, true), ", ", j);
  }

  /**
   * The two readers write the same filter text exactly when no filter value holds a quote;
   * their queries then differ only in the reader and the column list, which agree except for
   * an explicitly empty column list.
   */
  lemma ReadersAgree(file: string, columns: Option<seq<string>>, filters: LoadFilters, sample: Option<int>)
    ensures QuoteFree(filters) <==> Clauses(filters, false) == Clauses(filters, true)
    ensures QuoteFree(filters) ==>
      && CsvQuery(file, columns, filters, sample)
         == "SELECT " + CsvSelect(columns) + " FROM read_csv_auto('" + file + "')"
            + WhereText(Clauses(filters, true)) + LimitText(sample)
      && ParquetQueryAsWritten(file, columns, filters, sample)
         == "SELECT " + ParquetSelect(columns) + " FROM parquet_scan('" + file + "')"
            + WhereText(Clauses(filters, true)) + LimitText(sample)
    ensures columns != Some([]) ==> CsvSelect(columns) == ParquetSelect(columns)
    ensures columns == Some([]) ==> CsvSelect(columns) == "*" && ParquetSelect(columns) == ""
  {
    if QuoteFree(filters) {
      QuoteFreeClauses(filters);
    } else {
      var i :| 0 <= i < |filters| && !match filters[i].1
        case Equals(v) => '\'' !in Render(v)
        case AnyOf(vs) => forall j :: 0 <= j < |vs| ==> '\'' !in Render(vs[j]);
      ClauseDiffers(filters[i].0, filters[i].1);
      assert Clauses(filters, false)[i] != Clauses(filters, true)[i];
    }
  }

  /**
   * The parquet reader as written misreads a value holding a quote: the literal it writes
   * does not read back as the value, whatever follows it, while the escaped literal does.
   */
  lemma UnescapedQuoteMisread(v: Value, rest: string)
    requires '\'' in Render(v)
    requires rest == [] || rest[0] != '\''
    ensures ReadLiteral(Literal(v, false) + rest) != Some((Render(v), rest))
    ensures ReadLiteral(Literal(v, true) + rest) == Some((Render(v), rest))
  {
    var s := Render(v);
    EscapeRoundTrip(s, rest);
    assert Literal(v, true) + rest == "'" + Escape(s) + "'" + rest;
    var x := Literal(v, false) + rest;
    assert x[1..] == s + "'" + rest;
    if ReadLiteral(x) == Some((s, rest)) {
      ReadBodyShape(x[1..]);
      assert s + "'" + rest == Escape(s) + "'" + rest;
      assert |s| == |Escape(s)|;
      EscapeGrows(s);
      assert false;
    }
  }

  // ---------------------------------------------------------------------------------------
  // `load_data`
  // ---------------------------------------------------------------------------------------

  /** `os.path.join(dir, file)` for two parts. */
  function PathJoin(dir: string, file: string): (p: string)
    ensures file != [] && file[0] == '/' ==> p == file
    ensures (file == [] || file[0] != '/') && dir != [] ==> |p| >= |dir| && p[..|dir|] == dir && EndsWith(p, file)
    ensures (file == [] || file[0] != '/') && dir == [] ==> p == file
  {
    if file != [] && file[0] == '/' then file
    else if dir == [] || dir[|dir| - 1] == '/' then dir + file
    else dir + "/" + file
  }

  /** The file a table is read from: `clif_<name>.<format>` in the table directory. */
  function FilePath(dir: string, name: string, format: string): string {
    PathJoin(dir, "clif_" + name + "." + format)
  }

  /** The file lies in the table directory, with exactly one separator between them. */
  lemma FilePathShape(dir: string, name: string, format: string)
    ensures var file := "clif_" + name + "." + format;
      && EndsWith(FilePath(dir, name, format), file)
      && (dir == [] ==> FilePath(dir, name, format) == file)
      && (dir != [] && dir[|dir| - 1] == '/' ==> FilePath(dir, name, format) == dir + file)
      && (dir != [] && dir[|dir| - 1] != '/' ==> FilePath(dir, name, format) == dir + "/" + file)
  {
  }

  const UNSUPPORTED := "Unsupported filetype. Only 'csv' and 'parquet' are supported."

  /**
   * `load_data` with the file system and the engine as parameters: `present` says whether a
   * path exists and `read` is what running a query yields, a frame or the engine's exception.
   * Time-zone conversion is not modelled.
   */
  function Loaded(
    name: string, dir: string, format: string, sample: Option<int>, columns: Option<seq<string>>,
    filters: LoadFilters, present: string -> bool, read: string -> Result<Table>): Result<Table>
  {
    var file := FilePath(dir, name, format);
    if !present(file) then Err(FileNotFoundError(file))
    else if format == "csv" then
      match read(CsvQuery(file, columns, filters, sample))
      case Err(e) => Err(e)
      case Ok(t) => Ok(CastIds(t))
    else if format == "parquet" then
      match read(ParquetQueryAsWritten(file, columns, filters, sample))
      case Err(e) => Err(e)
      case Ok(t) => Ok(CastIds(CastIds(t)))
    else Err(ValueError(UNSUPPORTED))
  }

  /** The query `load_data` hands the engine for a CSV or a parquet file. */
  function LoadQuery(file: string, format: string, columns: Option<seq<string>>, filters: LoadFilters,
    sample: Option<int>): string
  {
    if format == "csv" then CsvQuery(file, columns, filters, sample)
    else ParquetQueryAsWritten(file, columns, filters, sample)
  }

  /**
   * The outcomes of `load_data`: a missing file is reported before the format is looked at,
   * an unknown format only for a file that exists, the engine's exception on the format's
   * query propagates, and a loaded frame is the engine's result with its id columns cast once.
   */
  lemma LoadedOutcomes(
    name: string, dir: string, format: string, sample: Option<int>, columns: Option<seq<string>>,
    filters: LoadFilters, present: string -> bool, read: string -> Result<Table>)
    ensures var file := FilePath(dir, name, format);
      var r := Loaded(name, dir, format, sample, columns, filters, present, read);
      var q := read(LoadQuery(file, format, columns, filters, sample));
      && (!present(file) ==> r == Err(FileNotFoundError(file)))
      && (present(file) && format != "csv" && format != "parquet" ==> r == Err(ValueError(UNSUPPORTED)))
      && (r.Ok? <==> present(file) && (format == "csv" || format == "parquet") && q.Ok?)
      && (present(file) && (format == "csv" || format == "parquet") && q.Err? ==> r == Err(q.error))
      && (r.Ok? ==> r.value == CastIds(q.value))
  {
    var file := FilePath(dir, name, format);
    var q := read(LoadQuery(file, format, columns, filters, sample));
    if format == "parquet" && q.Ok? {
      CastIdsIdempotent(q.value);
    }
  }

  /** Every id column of a loaded frame holds text or NULL. */
  lemma LoadedIdsAreText(
    name: string, dir: string, format: string, sample: Option<int>, columns: Option<seq<string>>,
    filters: LoadFilters, present: string -> bool, read: string -> Result<Table>)
    ensures var r := Loaded(name, dir, format, sample, columns, filters, present, read);
      r.Ok? ==> forall i, c :: 0 <= i < |r.value.rows| && c in r.value.columns && IsIdColumn(c) ==>
        Cell(r.value.rows[i], c).None? || Cell(r.value.rows[i], c).value.Str?
  {
    var file := FilePath(dir, name, format);
    var r := Loaded(name, dir, format, sample, columns, filters, present, read);
    if r.Ok? {
      var t := read(LoadQuery(file, format, columns, filters, sample)).value;
      LoadedOutcomes(name, dir, format, sample, columns, filters, present, read);
      CastIdsCells(t);
    }
  }

  /** With no quote in any filter value, a parquet load runs the escaped query. */
  lemma LoadedQuoteFree(
    name: string, dir: string, sample: Option<int>, columns: Option<seq<string>>,
    filters: LoadFilters, present: string -> bool, read: string -> Result<Table>)
    requires QuoteFree(filters)
    ensures var file := FilePath(dir, name, "parquet");
      present(file) ==>
        Loaded(name, dir, "parquet", sample, columns, filters, present, read) ==
          match read(ParquetQuery(file, columns, filters, sample))
          case Err(e) => Err(e)
          case Ok(t) => Ok(CastIds(t))
  {
    var file := FilePath(dir, name, "parquet");
    QuoteFreeAgrees(file, columns, filters, sample);
    LoadedOutcomes(name, dir, "parquet", sample, columns, filters, present, read);
  }

  /**
   * `load_parquet_with_tz`: run the parquet query as written and cast the id columns of the
   * result; the engine's exception propagates.
   */
  method LoadParquetWithTz(file: string, columns: Option<seq<string>>, filters: LoadFilters, sample: Option<int>,
    read: string -> Result<Table>) returns (r: Result<DataFrame>)
    ensures var q := read(ParquetQueryAsWritten(file, columns, filters, sample));
      && (r.Err? <==> q.Err?)
      && (r.Err? ==> r.error == q.error)
      && (r.Ok? ==> fresh(r.value) && r.value.Contents() == CastIds(q.value))
  {
    var query := BuildParquetQuery(file, columns, filters, sample);
    var fetched := read(query);
    if fetched.Err? {
      return Err(fetched.error);
    }
    var df := new DataFrame(fetched.value);
    CastIdColumns(df);
    r := Ok(df);
  }

  /** `load_data`: the frame it returns, or the exception it raises. */
  method LoadData(
    name: string, dir: string, format: string, sample: Option<int>, columns: Option<seq<string>>,
    filters: LoadFilters, present: string -> bool, read: string -> Result<Table>) returns (r: Result<Table>)
    ensures r == Loaded(name, dir, format, sample, columns, filters, present, read)
  {
    var file := PathJoin(dir, "clif_" + name + "." + format);
    if !present(file) {
      return Err(FileNotFoundError(file));
    }
    var df: DataFrame;
    if format == "csv" {
      var query := BuildCsvQuery(file, columns, filters, sample);
      var fetched := read(query);
      if fetched.Err? {
        return Err(fetched.error);
      }
      df := new DataFrame(fetched.value);
    } else if format == "parquet" {
      var loaded := LoadParquetWithTz(file, columns, filters, sample, read);
      if loaded.Err? {
        return Err(loaded.error);
      }
      df := loaded.value;
    } else {
      return Err(ValueError(UNSUPPORTED));
    }
    CastIdColumns(df);
    r := Ok(df.Contents());
  }
}
