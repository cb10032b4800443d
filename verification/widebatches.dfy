/**
 * The pieces of batch processing that do not touch the session: cutting the encounter ids
 * into batches and stacking the per-batch frames.
 */
module WideBatches {
  import opened Relational

  /** The batches concatenated back together. */
  function Flatten<T>(ss: seq<seq<T>>): seq<T> {
    if ss == [] then [] else ss[0] + Flatten(ss[1..])
  }

  /** `[xs[i:i + b] for i in range(0, len(xs), b)]`. */
  function Slices<T>(xs: seq<T>, b: nat): seq<seq<T>>
    requires b > 0
    decreases |xs|
  {
    if |xs| <= b then (if xs == [] then [] else [xs])
    else [xs[..b]] + Slices(xs[b..], b)
  }

  /** The batches hold every id once, in order: nothing is lost or repeated by batching. */
  lemma {:induction false} SlicesCover<T>(xs: seq<T>, b: nat)
    requires b > 0
    ensures Flatten(Slices(xs, b)) == xs
    decreases |xs|
  {
    if |xs| > b {
      SlicesCover(xs[b..], b);
      assert xs[..b] + xs[b..] == xs;
    }
  }

  /**
   * There are `ceil(len(xs) / b)` batches (the fewest batches of `b` that hold every id);
   * each is non-empty, and every batch but the last holds exactly `b` ids.
   */
  lemma {:induction false} SlicesShape<T>(xs: seq<T>, b: nat)
    requires b > 0
    ensures (|Slices(xs, b)| - 1) * b < |xs| <= |Slices(xs, b)| * b
    ensures forall i :: 0 <= i < |Slices(xs, b)| ==> 0 < |Slices(xs, b)[i]| <= b
    ensures forall i :: 0 <= i < |Slices(xs, b)| - 1 ==> |Slices(xs, b)[i]| == b
    decreases |xs|
  {
    if |xs| > b {
      SlicesShape(xs[b..], b);
      var rest := Slices(xs[b..], b);
      assert Slices(xs, b) == [xs[..b]] + rest;
      assert |Slices(xs, b)| * b == |rest| * b + b;
      forall i | 0 < i < |Slices(xs, b)| ensures Slices(xs, b)[i] == rest[i - 1] { }
    }
  }

  /** Every column of the frames, in order of first appearance. */
  function AllColumns(frames: seq<Table>): seq<string> {
    if frames == [] then [] else frames[0].columns + AllColumns(frames[1..])
  }

  /** Every row of the frames, frame after frame. */
  function AllRows(frames: seq<Table>): seq<Row> {
    if frames == [] then [] else frames[0].rows + AllRows(frames[1..])
  }

  /**
   * `pd.concat(frames, ignore_index=True)`: the rows stacked in batch order under the union
   * of the columns; a row reads NULL in a column its own frame did not have.
   */
  function Concat(frames: seq<Table>): (t: Table)
    ensures NoDuplicates(t.columns)
    ensures forall c :: c in t.columns <==> exists f :: f in frames && c in f.columns
  {
    ColumnsOfAll(frames);
    Table(Distinct(AllColumns(frames)), AllRows(frames))
  }

  lemma {:induction false} ColumnsOfAll(frames: seq<Table>)
    ensures forall c :: c in AllColumns(frames) <==> exists f :: f in frames && c in f.columns
    decreases |frames|
  {
    if frames != [] {
      ColumnsOfAll(frames[1..]);
      assert forall f :: f in frames <==> f == frames[0] || f in frames[1..];
    }
  }

  /** Frame `i` sits in the stacked frame right after the rows of the frames before it. */
  lemma {:induction false} ConcatRows(frames: seq<Table>, i: nat)
    requires i < |frames|
    ensures RowCount(frames[..i]) + |frames[i].rows| <= |Concat(frames).rows|
    ensures Concat(frames).rows[RowCount(frames[..i])..RowCount(frames[..i]) + |frames[i].rows|] == frames[i].rows
    decreases i
  {
    var rest := AllRows(frames[1..]);
    assert AllRows(frames) == frames[0].rows + rest;
    if i == 0 {
      assert AllRows(frames)[..|frames[0].rows|] == frames[0].rows;
    } else {
      ConcatRows(frames[1..], i - 1);
      assert frames[1..][..i - 1] == frames[..i][1..];
      var off := RowCount(frames[1..][..i - 1]);
      assert RowCount(frames[..i]) == |frames[0].rows| + off;
      assert AllRows(frames)[|frames[0].rows| + off..|frames[0].rows| + off + |frames[i].rows|] == rest[off..off + |frames[i].rows|];
    }
  }

  /** The stacked frame has as many rows as the batch frames together. */
  lemma {:induction false} ConcatSize(frames: seq<Table>)
    ensures |Concat(frames).rows| == RowCount(frames)
    decreases |frames|
  {
    if frames != [] {
      ConcatSize(frames[1..]);
    }
  }

  function RowCount(frames: seq<Table>): nat {
    if frames == [] then 0 else |frames[0].rows| + RowCount(frames[1..])
  }
}
