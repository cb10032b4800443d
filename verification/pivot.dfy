/**
 * The pivot engine (`_pivot_table_duckdb`): a long table with one row per observation becomes a
 * wide one with one row per combo key and one column per retained category, each cell holding
 * the first value observed for that key and category.
 */
module Pivot {
  import opened Wrappers
  import opened Relational
  import opened ComboKeys
  import opened CategoryFilters
  import opened Text

  /** The column that names the category, per pivotable table kind. */
  function CategoryColumn(table: string): Option<string> {
    if table == "vitals" then Some("vital_category")
    else if table == "labs" then Some("lab_category")
    else if table == "medication_admin_continuous" then Some("med_category")
    else if table == "patient_assessments" then Some("assessment_category")
    else None
  }

  /** The column that holds the observed value, per pivotable table kind. */
  function ValueColumn(table: string): Option<string> {
    if table == "vitals" then Some("vital_value")
    else if table == "labs" then Some("lab_value_numeric")
    else if table == "medication_admin_continuous" then Some("med_dose")
    else if table == "patient_assessments" then Some("assessment_value")
    else None
  }

  /** The pivot column a category cell produces; a NULL category produces the column `NULL`. */
  function CategoryName(o: Option<Value>): string {
    match o
    case Some(v) => Render(v)
    case None => "NULL"
  }

  /** The combo key of a row, NULL when its id or its timestamp is NULL. */
  function RowCombo(r: Row, tsCol: string): Option<string> {
    match (IdOf(r), TimeOf(Cell(r, tsCol)))
    case (Some(id), Some(t)) => Some(ComboKey(id, t))
    case _ => None
  }

  /** What the pivot reads: the timestamp, category and value columns and the allow-list. */
  datatype PivotSpec = PivotSpec(tsCol: string, catCol: string, valCol: string, allow: seq<string>)

  /**
   * The WHERE clause of `pivot_data`: a non-NULL timestamp and, when the allow-list is
   * non-empty, a category on the list (a NULL category is never on it).
   */
  predicate Kept(r: Row, p: PivotSpec) {
    && TimeOf(Cell(r, p.tsCol)).Some?
    && (p.allow == [] || (Cell(r, p.catCol).Some? && Render(Cell(r, p.catCol).value) in p.allow))
  }

  /** A row of `pivot_data`: the value, the category and the combo key. */
  datatype Entry = Entry(value: Option<Value>, category: string, combo: Option<string>)

  function Project(r: Row, p: PivotSpec): Entry {
    Entry(Cell(r, p.valCol), CategoryName(Cell(r, p.catCol)), RowCombo(r, p.tsCol))
  }

  /** The kept rows projected to entries, in row order. */
  function Entries(rows: seq<Row>, p: PivotSpec): (es: seq<Entry>)
    ensures |es| <= |rows|
    ensures forall e :: e in es <==> exists r :: r in rows && Kept(r, p) && e == Project(r, p)
    decreases |rows|
  {
    if rows == [] then []
    else
      var init := rows[..|rows| - 1];
      var last := rows[|rows| - 1];
      assert forall r :: r in rows <==> r in init || r == last;
      Entries(init, p) + (if Kept(last, p) then [Project(last, p)] else [])
  }

  predicate Matches(e: Entry, combo: Option<string>, category: string) {
    e.combo == combo && e.category == category
  }

  /** The first entry with the given combo key and category, if any. */
  function FirstEntry(es: seq<Entry>, combo: Option<string>, category: string): (r: Option<Entry>)
    ensures r.None? <==> forall i :: 0 <= i < |es| ==> !Matches(es[i], combo, category)
    ensures r.Some? ==> exists i :: 0 <= i < |es| && es[i] == r.value && Matches(es[i], combo, category) &&
                          forall j :: 0 <= j < i ==> !Matches(es[j], combo, category)
    decreases |es|
  {
    if es == [] then None
    else
      var init := es[..|es| - 1];
      var prior := FirstEntry(init, combo, category);
      if prior.Some? then prior
      else if Matches(es[|es| - 1], combo, category) then Some(es[|es| - 1])
      else None
  }

  /** `SELECT DISTINCT` before the pivot does not change which entry comes first for a key and category. */
  lemma {:induction false} FirstEntryOfDistinct(es: seq<Entry>, combo: Option<string>, category: string)
    ensures FirstEntry(Distinct(es), combo, category) == FirstEntry(es, combo, category)
    decreases |es|
  {
    if es != [] {
      var init, last := es[..|es| - 1], es[|es| - 1];
      var d := Distinct(init);
      FirstEntryOfDistinct(init, combo, category);
      if last in d {
        assert Distinct(es) == d;
        if Matches(last, combo, category) {
          assert last in init;
          var k :| 0 <= k < |init| && init[k] == last;
          assert FirstEntry(init, combo, category).Some?;
        }
      } else {
        assert Distinct(es) == d + [last];
        assert (d + [last])[..|d + [last]| - 1] == d;
      }
    }
  }

  /** A row of the pivoted table: its combo key and one cell per category column. */
  datatype PivotRow = PivotRow(combo: Option<string>, cells: map<string, Option<Value>>)

  /** The pivoted table: its category columns (besides `combo_id`) and its rows. */
  datatype Pivoted = Pivoted(categories: seq<string>, rows: seq<PivotRow>)

  function Categories(es: seq<Entry>): (r: seq<string>)
    ensures |r| == |es|
    ensures forall i :: 0 <= i < |es| ==> r[i] == es[i].category
  {
    seq(|es|, i requires 0 <= i < |es| => es[i].category)
  }

  function Combos(es: seq<Entry>): (r: seq<Option<string>>)
    ensures |r| == |es|
    ensures forall i :: 0 <= i < |es| ==> r[i] == es[i].combo
  {
    seq(|es|, i requires 0 <= i < |es| => es[i].combo)
  }

  /** `first(value)` for one key and category: the first matching entry's value, NULL if none. */
  function FirstValue(es: seq<Entry>, combo: Option<string>, category: string): Option<Value> {
    match FirstEntry(es, combo, category)
    case Some(e) => e.value
    case None => None
  }

  function CellsFor(es: seq<Entry>, combo: Option<string>, categories: seq<string>): map<string, Option<Value>> {
    map c | c in categories :: FirstValue(es, combo, c)
  }

  /** `PIVOT pivot_data ON category USING first(value) GROUP BY combo_id`. */
  function PivotEntries(pivotData: seq<Entry>): Pivoted {
    var categories := Distinct(Categories(pivotData));
    var combos := Distinct(Combos(pivotData));
    Pivoted(categories, seq(|combos|, i requires 0 <= i < |combos| =>
      PivotRow(combos[i], CellsFor(pivotData, combos[i], categories))))
  }

  /** The combo keys of the pivoted rows, in row order. */
  function RowCombos(rows: seq<PivotRow>): (r: seq<Option<string>>)
    ensures |r| == |rows|
    ensures forall i :: 0 <= i < |rows| ==> r[i] == rows[i].combo
  {
    seq(|rows|, i requires 0 <= i < |rows| => rows[i].combo)
  }

  /**
   * What a pivot of `es` must be: exactly one row per combo key occurring in `es`, one column
   * per category occurring in `es`, and in each cell the value of the first entry with that
   * key and category (NULL when there is none).
   */
  ghost predicate PivotsEntries(pv: Pivoted, es: seq<Entry>) {
    && NoDuplicates(RowCombos(pv.rows))
    && (forall k :: k in RowCombos(pv.rows) <==> exists e :: e in es && e.combo == k)
    && NoDuplicates(pv.categories)
    && (forall c :: c in pv.categories <==> exists e :: e in es && e.category == c)
    && (forall i, c :: 0 <= i < |pv.rows| && c in pv.categories ==>
          c in pv.rows[i].cells && pv.rows[i].cells[c] == FirstValue(es, pv.rows[i].combo, c))
  }

  lemma CategoriesOfDistinct(es: seq<Entry>, c: string)
    ensures c in Categories(Distinct(es)) <==> exists e :: e in es && e.category == c
  {
    var d := Distinct(es);
    if c in Categories(d) {
      var i :| 0 <= i < |d| && Categories(d)[i] == c;
      assert d[i] in es;
    }
    if exists e :: e in es && e.category == c {
      var e :| e in es && e.category == c;
      var i :| 0 <= i < |d| && d[i] == e;
      assert Categories(d)[i] == c;
    }
  }

  lemma CombosOfDistinct(es: seq<Entry>, k: Option<string>)
    ensures k in Combos(Distinct(es)) <==> exists e :: e in es && e.combo == k
  {
    var d := Distinct(es);
    if k in Combos(d) {
      var i :| 0 <= i < |d| && Combos(d)[i] == k;
      assert d[i] in es;
    }
    if exists e :: e in es && e.combo == k {
      var e :| e in es && e.combo == k;
      var i :| 0 <= i < |d| && d[i] == e;
      assert Combos(d)[i] == k;
    }
  }

  /** Pivoting the distinct entries is a pivot of all the entries. */
  lemma PivotOfDistinct(es: seq<Entry>)
    ensures PivotsEntries(PivotEntries(Distinct(es)), es)
  {
    var d := Distinct(es);
    var pv := PivotEntries(d);
    assert RowCombos(pv.rows) == Distinct(Combos(d));
    forall k ensures k in RowCombos(pv.rows) <==> exists e :: e in es && e.combo == k {
      CombosOfDistinct(es, k);
    }
    forall c ensures c in pv.categories <==> exists e :: e in es && e.category == c {
      CategoriesOfDistinct(es, c);
    }
    forall i, c | 0 <= i < |pv.rows| && c in pv.categories
      ensures pv.rows[i].cells[c] == FirstValue(es, pv.rows[i].combo, c)
    {
      FirstEntryOfDistinct(es, pv.rows[i].combo, c);
    }
  }

  // ---------------------------------------------------------------------------------------
  // The allow-list as the engine reads it
  // ---------------------------------------------------------------------------------------

  /**
   * The allow-list as the pivot query splices it: the categories joined by `','` between one
   * opening and one closing quote, then the `)` that ends the `IN` list. Nothing is escaped.
   */
  function AllowListText(allow: seq<string>): string {
    "'" + Join(allow, "','") + "')"
  }

  /** Reads literals separated by `,`, as the engine reads the inside of `IN (...)`. */
  function ReadCommaList(s: string): Option<(seq<string>, string)>
    decreases |s|
  {
    match ReadLiteral(s)
    case None => None
    case Some(p) =>
      if p.1 != [] && p.1[0] == ',' then
        match ReadCommaList(p.1[1..])
        case None => None
        case Some(q) => Some(([p.0] + q.0, q.1))
      else Some(([p.0], p.1))
  }

  /**
   * The categories the engine filters on: none for an empty allow-list (no clause is added);
   * otherwise the literals it reads from the spliced text, or None when that text does not read
   * as a list of literals ended by the list's `)`, so that the pivot query fails.
   */
  function ReadAllowList(allow: seq<string>): Option<seq<string>> {
    if allow == [] then Some([])
    else
      match ReadCommaList(AllowListText(allow))
      case Some(p) => if p.1 == ")" then Some(p.0) else None
      case None => None
  }

  /** No category holds a single quote. */
  predicate QuoteFree(allow: seq<string>) {
    forall i :: 0 <= i < |allow| ==> '\'' !in allow[i]
  }

  /** The categories with their quotes doubled, as a SQL literal needs them. */
  function EscapedAll(allow: seq<string>): (r: seq<string>)
    ensures |r| == |allow| && forall i :: 0 <= i < |allow| ==> r[i] == Escape(allow[i])
  {
    seq(|allow|, i requires 0 <= i < |allow| => Escape(allow[i]))
  }

  /** Escaped categories read back as the categories themselves, in order, up to the list's `)`. */
  lemma {:induction false} EscapedListRoundTrip(allow: seq<string>)
    requires allow != []
    ensures ReadCommaList(AllowListText(EscapedAll(allow))) == Some((allow, ")"))
    decreases |allow|
  {
    var a := allow[0];
    var e := EscapedAll(allow);
    if |allow| == 1 {
      assert AllowListText(e) == "'" + Escape(a) + "'" + ")";
      EscapeRoundTrip(a, ")");
      assert [a] == allow;
    } else {
      var tail := allow[1..];
      assert e[1..] == EscapedAll(tail);
      var more := "," + AllowListText(EscapedAll(tail));
      assert Join(e, "','") == Escape(a) + "','" + Join(e[1..], "','");
      assert AllowListText(e) == "'" + Escape(a) + "'" + more;
      EscapeRoundTrip(a, more);
      assert more[1..] == AllowListText(EscapedAll(tail));
      EscapedListRoundTrip(tail);
      assert [a] + tail == allow;
    }
  }

  /** Had the categories been escaped, the engine would filter on exactly the configured list. */
  lemma EscapedAllowList(allow: seq<string>)
    ensures ReadAllowList(EscapedAll(allow)) == Some(allow)
  {
    if allow != [] {
      EscapedListRoundTrip(allow);
    }
  }

  /** A quote-free allow-list is filtered on exactly as given. */
  lemma QuoteFreeAllowList(allow: seq<string>)
    requires QuoteFree(allow)
    ensures ReadAllowList(allow) == Some(allow)
  {
    assert EscapedAll(allow) == allow;
    EscapedAllowList(allow);
  }

  /**
   * A category with a lone quote breaks the query: `IN ('o'hara')` ends its literal after `o`
   * and the text that follows is not the end of the list.
   */
  lemma LoneQuoteFails()
    ensures ReadAllowList(["o'hara"]) == None
  {
    var text := AllowListText(["o'hara"]);
    assert text == "'o'hara')";
    assert text[1..] == "o'hara')" && text[1..][1..] == "'hara')";
    assert "'hara')"[1..] == "hara')";
    assert ReadLiteralBody("'hara')") == Some(("", "hara')"));
    assert ['o'] + "" == "o";
    assert ReadLiteralBody("o'hara')") == Some(("o", "hara')"));
    assert ReadCommaList(text) == Some((["o"], "hara')"));
  }

  // ---------------------------------------------------------------------------------------
  // `_pivot_table_duckdb`
  // ---------------------------------------------------------------------------------------

  /** The allow-list, the category, value and timestamp columns the pivot of a table reads. */
  function SpecFor(table: string, tsCol: string, allow: seq<string>): PivotSpec
    requires CategoryColumn(table).Some? && ValueColumn(table).Some?
  {
    PivotSpec(tsCol, CategoryColumn(table).value, ValueColumn(table).value, allow)
  }

  /**
   * `_pivot_table_duckdb`. None when the table kind has no pivot columns, when the category
   * or value column is missing, or when the query fails because the spliced allow-list does
   * not read back as a list; otherwise a pivot of the entries kept by the list the engine read.
   */
  function PivotTable(table: string, t: Table, tsCol: string, filters: Filters): (r: Option<Pivoted>)
    ensures r.None? <==> CategoryColumn(table).None? || CategoryColumn(table).value !in t.columns ||
                         ValueColumn(table).value !in t.columns || ReadAllowList(CategoriesOf(filters, table)).None?
    ensures r.Some? ==>
      PivotsEntries(r.value, Entries(t.rows, SpecFor(table, tsCol, ReadAllowList(CategoriesOf(filters, table)).value)))
  {
    match (CategoryColumn(table), ValueColumn(table))
    case (Some(catCol), Some(valCol)) =>
      if catCol !in t.columns || valCol !in t.columns then None
      else
        match ReadAllowList(CategoriesOf(filters, table)) {
          case None => None
          case Some(allow) =>
            var es := Entries(t.rows, SpecFor(table, tsCol, allow));
            PivotOfDistinct(es);
            Some(PivotEntries(Distinct(es)))
        }
    case _ => None
  }

  /**
   * With quote-free categories the pivot succeeds whenever its columns are there, and it keeps
   * exactly the rows whose category is on the configured list.
   */
  lemma PivotQuoteFree(table: string, t: Table, tsCol: string, filters: Filters)
    requires CategoryColumn(table).Some? && CategoryColumn(table).value in t.columns
    requires ValueColumn(table).value in t.columns
    requires QuoteFree(CategoriesOf(filters, table))
    ensures PivotTable(table, t, tsCol, filters).Some?
    ensures PivotsEntries(PivotTable(table, t, tsCol, filters).value,
                          Entries(t.rows, SpecFor(table, tsCol, CategoriesOf(filters, table))))
  {
    QuoteFreeAllowList(CategoriesOf(filters, table));
  }
}
