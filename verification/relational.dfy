/**
 * The relational vocabulary shared by the model: cell values, rows as maps from column name
 * to optional value, tables, and a mutable data frame for the operations that change one in place.
 */
module Relational {
  import opened Wrappers
  import Text

  /** Timestamps are whole seconds since the epoch. */
  type Timestamp = nat

  /**
   * A cell value. Timestamps are a variant of their own; floating-point numbers are not
   * modelled (integers stand for every numeric value).
   */
  datatype Value = Str(s: string) | Num(n: int) | Time(t: Timestamp)

  /** A row: column name to optional value; a column the map lacks reads as NULL. */
  type Row = map<string, Option<Value>>

  /** A table: its column names in order and its rows in order. */
  datatype Table = Table(columns: seq<string>, rows: seq<Row>)

  /** The value a row holds in a column; NULL when the row has no entry for it. */
  function Cell(r: Row, c: string): Option<Value> {
    if c in r then r[c] else None
  }

  /**
   * Python's `str` on a cell value. A timestamp renders as its count of seconds, since
   * calendar formatting is not part of the model.
   */
  function Render(v: Value): string {
    match v
    case Str(s) => s
    case Num(n) => Text.IntToString(n)
    case Time(t) => Text.Digits(t)
  }

  /** The encounter id of a row as text (the cast `||` applies), or None when it is NULL. */
  function IdOf(r: Row): Option<string> {
    match Cell(r, "hospitalization_id")
    case Some(v) => Some(Render(v))
    case None => None
  }

  /** A cell read as a timestamp; NULL, and a value that is not a timestamp, read as None. */
  function TimeOf(o: Option<Value>): Option<Timestamp> {
    match o
    case Some(Time(t)) => Some(t)
    case _ => None
  }

  predicate NoDuplicates<T(==)>(s: seq<T>) {
    forall i, j :: 0 <= i < j < |s| ==> s[i] != s[j]
  }

  /** The elements of `s` in order of first occurrence, each once (SELECT DISTINCT, `unique()`). */
  function Distinct<T(==,!new)>(s: seq<T>): (r: seq<T>)
    ensures NoDuplicates(r)
    ensures forall x :: x in r <==> x in s
    ensures |r| <= |s|
    decreases |s|
  {
    if s == [] then []
    else
      var init := s[..|s| - 1];
      var d := Distinct(init);
      assert forall x :: x in s <==> x in init || x == s[|s| - 1];
      if s[|s| - 1] in d then d else d + [s[|s| - 1]]
  }

  /** A sequence without repeats is its own distinct form. */
  lemma {:induction false} DistinctOfUnique<T(!new)>(s: seq<T>)
    requires NoDuplicates(s)
    ensures Distinct(s) == s
    decreases |s|
  {
    if s != [] {
      var init := s[..|s| - 1];
      DistinctOfUnique(init);
      assert s[|s| - 1] !in init;
      assert init + [s[|s| - 1]] == s;
    }
  }

  /** A sequence without repeats holds each element at most once. */
  lemma {:induction false} NoDuplicatesCount<T>(s: seq<T>, x: T)
    requires NoDuplicates(s)
    ensures multiset(s)[x] <= 1
    decreases |s|
  {
    if s != [] {
      var rest := s[1..];
      assert s == [s[0]] + rest;
      NoDuplicatesCount(rest, x);
      if s[0] == x {
        assert x !in rest by {
          forall j | 0 <= j < |rest| ensures rest[j] != x {
            assert s[0] != s[j + 1];
          }
        }
      }
    }
  }

  /** Reordering a sequence without repeats leaves it without repeats. */
  lemma NoDuplicatesOfPermutation<T>(a: seq<T>, b: seq<T>)
    requires multiset(a) == multiset(b) && NoDuplicates(a)
    ensures NoDuplicates(b)
  {
    forall i, j | 0 <= i < j < |b| ensures b[i] != b[j] {
      if b[i] == b[j] {
        var x := b[i];
        assert b == b[..i] + [x] + b[i + 1..j] + [x] + b[j + 1..];
        assert multiset(b)[x] >= 2;
        NoDuplicatesCount(a, x);
        assert false;
      }
    }
  }

  /** The elements of `xs` that satisfy `p`, in order (a list comprehension with a condition). */
  function Filter<T(!new)>(xs: seq<T>, p: T -> bool): (r: seq<T>)
    ensures forall x :: x in r <==> x in xs && p(x)
    ensures |r| <= |xs|
    decreases |xs|
  {
    if xs == [] then []
    else
      assert forall x :: x in xs <==> x == xs[0] || x in xs[1..];
      (if p(xs[0]) then [xs[0]] else []) + Filter(xs[1..], p)
  }

  /** The position of the first occurrence of `x` in `s`. */
  function FirstIndex<T(==)>(s: seq<T>, x: T): (i: nat)
    requires x in s
    ensures i < |s| && s[i] == x
    ensures forall j :: 0 <= j < i ==> s[j] != x
  {
    if s[0] == x then 0 else 1 + FirstIndex(s[1..], x)
  }

  /** A pandas DataFrame that the source updates in place. */
  class DataFrame {
    var columns: seq<string>
    var rows: seq<Row>

    constructor (t: Table)
      ensures columns == t.columns && rows == t.rows
    {
      columns := t.columns;
      rows := t.rows;
    }

    /** The frame's current contents as a value. */
    function Contents(): Table
      reads this
    {
      Table(columns, rows)
    }
  }
}
