/**
 * The main query of `_create_wide_dataset`: the expanded cohort LEFT JOINed on `combo_id` to the
 * ADT rows, to each pivoted table and to each wide table; the select list that the query text
 * grows by inserting after `SELECT ec.*`; and the removal of duplicate result columns.
 */
module Joins {
  import opened Wrappers
  import opened Relational

  /** A row of a joined table with the combo key it is matched on (NULL when its id or time is NULL). */
  datatype KeyedRow = KeyedRow(combo: Option<string>, row: Row)

  /** The right-hand side of one LEFT JOIN: its alias in the query and its keyed rows. */
  datatype Side = Side(alias: string, rows: seq<KeyedRow>)

  /**
   * A row of the join so far: the expanded-cohort row and, per joined alias, the matched row.
   * An alias without an entry was NULL-extended.
   */
  datatype Combined = Combined(ec: Row, sides: map<string, Row>)

  /** The combo key a row carries in its `combo_id` column. */
  function ComboOf(r: Row): Option<string> {
    match Cell(r, "combo_id")
    case Some(Str(s)) => Some(s)
    case _ => None
  }

  /** The rows of `rows` whose key equals `combo`, in order; a NULL key matches nothing. */
  function Partners(rows: seq<KeyedRow>, combo: Option<string>): (ms: seq<Row>)
    ensures |ms| <= |rows|
    ensures forall m :: m in ms <==> combo.Some? && exists kr :: kr in rows && kr.combo == combo && kr.row == m
    decreases |rows|
  {
    if rows == [] then []
    else
      var init, last := rows[..|rows| - 1], rows[|rows| - 1];
      assert forall kr :: kr in rows <==> kr in init || kr == last;
      Partners(init, combo) + (if combo.Some? && last.combo == combo then [last.row] else [])
  }

  /**
   * The rows one left row yields: one per partner, or the left row itself NULL-extended when it
   * has none. The left row is never lost.
   */
  function Extend(c: Combined, side: Side): (out: seq<Combined>)
    ensures |out| >= 1
    ensures forall o :: o in out <==>
      (Partners(side.rows, ComboOf(c.ec)) == [] && o == c) ||
      (exists m :: m in Partners(side.rows, ComboOf(c.ec)) && o == Combined(c.ec, c.sides[side.alias := m]))
  {
    var ms := Partners(side.rows, ComboOf(c.ec));
    if ms == [] then [c]
    else
      var out := seq(|ms|, i requires 0 <= i < |ms| => Combined(c.ec, c.sides[side.alias := ms[i]]));
      assert forall o :: o in out <==> exists m :: m in ms && o == Combined(c.ec, c.sides[side.alias := m]) by {
        forall o | o in out ensures exists m :: m in ms && o == Combined(c.ec, c.sides[side.alias := m]) {
          var i :| 0 <= i < |out| && out[i] == o;
          assert ms[i] in ms;
        }
        forall o | (exists m :: m in ms && o == Combined(c.ec, c.sides[side.alias := m])) ensures o in out {
          var m :| m in ms && o == Combined(c.ec, c.sides[side.alias := m]);
          var i :| 0 <= i < |ms| && ms[i] == m;
          assert out[i] == o;
        }
      }
      out
  }

  /** `... LEFT JOIN side USING (combo_id)`: each left row in order, extended by its partners. */
  function LeftJoin(cs: seq<Combined>, side: Side): (out: seq<Combined>)
    ensures |out| >= |cs|
    ensures forall o :: o in out <==> exists c :: c in cs && o in Extend(c, side)
    decreases |cs|
  {
    if cs == [] then []
    else
      var init, last := cs[..|cs| - 1], cs[|cs| - 1];
      assert forall c :: c in cs <==> c in init || c == last;
      LeftJoin(init, side) + Extend(last, side)
  }

  /** The joins in query order. */
  function JoinAll(cs: seq<Combined>, sides: seq<Side>): seq<Combined>
    decreases |sides|
  {
    if sides == [] then cs else JoinAll(LeftJoin(cs, sides[0]), sides[1..])
  }

  /** No two rows of a side share a non-NULL combo key, as in a table pivoted by `combo_id`. */
  predicate UniqueKeys(rows: seq<KeyedRow>) {
    forall i, j :: 0 <= i < j < |rows| && rows[i].combo.Some? ==> rows[i].combo != rows[j].combo
  }

  /** A key that no row carries has no partners. */
  lemma {:induction false} NoPartners(rows: seq<KeyedRow>, combo: Option<string>)
    requires forall i :: 0 <= i < |rows| ==> rows[i].combo != combo
    ensures Partners(rows, combo) == []
    decreases |rows|
  {
    if rows != [] {
      NoPartners(rows[..|rows| - 1], combo);
    }
  }

  lemma {:induction false} AtMostOnePartner(rows: seq<KeyedRow>, combo: Option<string>)
    requires UniqueKeys(rows)
    ensures |Partners(rows, combo)| <= 1
    decreases |rows|
  {
    if rows != [] {
      var init, last := rows[..|rows| - 1], rows[|rows| - 1];
      assert UniqueKeys(init);
      AtMostOnePartner(init, combo);
      if combo.Some? && last.combo == combo {
        forall i | 0 <= i < |init| ensures init[i].combo != combo {
          assert rows[i] == init[i] && rows[|rows| - 1] == last;
        }
        NoPartners(init, combo);
      }
    }
  }

  /**
   * Joining a side whose keys are unique (a pivoted table) neither adds nor removes rows: the
   * result has exactly the left rows, in order, each extended by at most one partner.
   */
  lemma {:induction false} LeftJoinUniquePreservesRows(cs: seq<Combined>, side: Side)
    requires UniqueKeys(side.rows)
    ensures |LeftJoin(cs, side)| == |cs|
    ensures forall i :: 0 <= i < |cs| ==> LeftJoin(cs, side)[i].ec == cs[i].ec
    decreases |cs|
  {
    if cs != [] {
      var init, last := cs[..|cs| - 1], cs[|cs| - 1];
      LeftJoinUniquePreservesRows(init, side);
      ExtendUnique(last, side);
      assert LeftJoin(cs, side) == LeftJoin(init, side) + Extend(last, side);
    }
  }

  /** Against a side with unique keys a left row yields exactly one row, with its own cohort row. */
  lemma ExtendUnique(c: Combined, side: Side)
    requires UniqueKeys(side.rows)
    ensures |Extend(c, side)| == 1 && Extend(c, side)[0].ec == c.ec
  {
    AtMostOnePartner(side.rows, ComboOf(c.ec));
    var e := Extend(c, side);
    assert e[0] in e;
  }

  /** A chain of joins on sides with unique keys keeps the expanded cohort row for row. */
  lemma {:induction false} JoinAllUniquePreservesRows(cs: seq<Combined>, sides: seq<Side>)
    requires forall k :: 0 <= k < |sides| ==> UniqueKeys(sides[k].rows)
    ensures |JoinAll(cs, sides)| == |cs|
    ensures forall i :: 0 <= i < |cs| ==> JoinAll(cs, sides)[i].ec == cs[i].ec
    decreases |sides|
  {
    if sides != [] {
      LeftJoinUniquePreservesRows(cs, sides[0]);
      JoinAllUniquePreservesRows(LeftJoin(cs, sides[0]), sides[1..]);
    }
  }

  /** Every expanded-cohort row survives a chain of joins, whatever the sides hold. */
  lemma {:induction false} JoinAllKeepsEveryRow(cs: seq<Combined>, sides: seq<Side>)
    ensures |JoinAll(cs, sides)| >= |cs|
    ensures forall c :: c in cs ==> exists o :: o in JoinAll(cs, sides) && o.ec == c.ec
    decreases |sides|
  {
    if sides != [] {
      var next := LeftJoin(cs, sides[0]);
      forall c | c in cs ensures exists o :: o in next && o.ec == c.ec {
        var e := Extend(c, sides[0]);
        assert e[0] in e;
        assert e[0].ec == c.ec;
      }
      JoinAllKeepsEveryRow(next, sides[1..]);
    }
  }

  /** One column of the select list: `alias.column`, or `ec.column` for a column of `ec.*`. */
  datatype ColRef = ColRef(alias: string, column: string)

  /** The value a select item takes in a joined row; a NULL-extended alias yields NULL. */
  function ItemValue(c: Combined, item: ColRef): Option<Value> {
    if item.alias == "ec" then Cell(c.ec, item.column)
    else if item.alias in c.sides then Cell(c.sides[item.alias], item.column)
    else None
  }

  /**
   * The select list after inserting `groups` one after another right after `SELECT ec.*`:
   * each insertion lands in front of the earlier ones.
   */
  function InsertedAfterStar(groups: seq<seq<ColRef>>): seq<ColRef>
    decreases |groups|
  {
    if groups == [] then [] else groups[|groups| - 1] + InsertedAfterStar(groups[..|groups| - 1])
  }

  /** The group inserted first ends up last in the select list. */
  lemma {:induction false} FirstInsertedEndsLast(g: seq<ColRef>, rest: seq<seq<ColRef>>)
    ensures InsertedAfterStar([g] + rest) == InsertedAfterStar(rest) + g
    decreases |rest|
  {
    if rest != [] {
      var init, last := rest[..|rest| - 1], rest[|rest| - 1];
      assert ([g] + rest)[..|[g] + rest| - 1] == [g] + init;
      FirstInsertedEndsLast(g, init);
    } else {
      assert ([g] + rest)[..0] == [];
    }
  }

  /**
   * The select-list growth of `_create_wide_dataset`: each non-empty group is inserted right
   * after `ec.*`, so the result holds the groups in reverse order of insertion.
   */
  method BuildSelectList(groups: seq<seq<ColRef>>) returns (items: seq<ColRef>)
    ensures items == InsertedAfterStar(groups)
    ensures forall x :: x in items <==> exists k :: 0 <= k < |groups| && x in groups[k]
  {
    items := [];
    var i := 0;
    while i < |groups|
      invariant 0 <= i <= |groups|
      invariant items == InsertedAfterStar(groups[..i])
      invariant forall x :: x in items <==> exists k :: 0 <= k < i && x in groups[k]
    {
      assert groups[..i + 1][..i] == groups[..i];
      if groups[i] != [] {
        items := groups[i] + items;
      }
      i := i + 1;
    }
    assert groups[..i] == groups;
  }

  /** The column names of a select list, as the result carries them (duplicates included). */
  function Header(items: seq<ColRef>): (h: seq<string>)
    ensures |h| == |items|
    ensures forall i :: 0 <= i < |items| ==> h[i] == items[i].column
  {
    seq(|items|, i requires 0 <= i < |items| => items[i].column)
  }

  /** One joined row read through the select list, one value per select item. */
  function Project(c: Combined, items: seq<ColRef>): (vs: seq<Option<Value>>)
    ensures |vs| == |items|
    ensures forall i :: 0 <= i < |items| ==> vs[i] == ItemValue(c, items[i])
  {
    seq(|items|, i requires 0 <= i < |items| => ItemValue(c, items[i]))
  }

  /** The value at a position of a result row; NULL past its end. */
  function At(vs: seq<Option<Value>>, i: nat): Option<Value> {
    if i < |vs| then vs[i] else None
  }

  /**
   * `result_df.loc[:, ~result_df.columns.duplicated()]`: each column name once, in order of
   * first occurrence, holding the values of its first occurrence.
   */
  function DropDuplicateColumns(header: seq<string>, rows: seq<seq<Option<Value>>>): (t: Table)
    ensures NoDuplicates(t.columns)
    ensures forall c :: c in t.columns <==> c in header
    ensures |t.rows| == |rows|
    ensures forall k, c :: 0 <= k < |rows| && c in header ==>
              c in t.rows[k] && t.rows[k][c] == At(rows[k], FirstIndex(header, c))
  {
    var columns := Distinct(header);
    Table(columns, seq(|rows|, k requires 0 <= k < |rows| =>
      map c | c in columns :: At(rows[k], FirstIndex(header, c))))
  }

  /**
   * Without duplicate names nothing is dropped: the columns stay in order and every position
   * keeps its value.
   */
  lemma DropDuplicateColumnsLossless(header: seq<string>, rows: seq<seq<Option<Value>>>)
    requires NoDuplicates(header)
    ensures DropDuplicateColumns(header, rows).columns == header
    ensures forall k, i :: 0 <= k < |rows| && 0 <= i < |header| ==>
              DropDuplicateColumns(header, rows).rows[k][header[i]] == At(rows[k], i)
  {
    DistinctOfUnique(header);
    forall k, i | 0 <= k < |rows| && 0 <= i < |header|
      ensures DropDuplicateColumns(header, rows).rows[k][header[i]] == At(rows[k], i)
    {
      assert header[i] in header;
      assert FirstIndex(header, header[i]) == i;
    }
  }
}
