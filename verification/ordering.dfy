/**
 * The orders the engine and pandas sort by: strings by code point, values within their kind,
 * NULL after every value (`na_position='last'`), and multi-column keys lexicographically;
 * and one stable insertion sort by such a key.
 */
module Ordering {
  import opened Wrappers
  import opened Relational

  /** Lexicographic order on strings by code point (Python's `<=` on `str`). */
  predicate StrLe(a: string, b: string)
    decreases |a|
  {
    if a == [] then true
    else if b == [] then false
    else if a[0] != b[0] then a[0] < b[0]
    else StrLe(a[1..], b[1..])
  }

  lemma {:induction false} StrLeTotal(a: string, b: string)
    ensures StrLe(a, b) || StrLe(b, a)
    decreases |a|
  {
    if a != [] && b != [] && a[0] == b[0] {
      StrLeTotal(a[1..], b[1..]);
    }
  }

  lemma {:induction false} StrLeAntisymmetric(a: string, b: string)
    ensures StrLe(a, b) && StrLe(b, a) ==> a == b
    decreases |a|
  {
    if a != [] && b != [] && a[0] == b[0] {
      StrLeAntisymmetric(a[1..], b[1..]);
      if StrLe(a, b) && StrLe(b, a) {
        assert a == [a[0]] + a[1..] && b == [b[0]] + b[1..];
      }
    }
  }

  lemma {:induction false} StrLeTransitive(a: string, b: string, c: string)
    ensures StrLe(a, b) && StrLe(b, c) ==> StrLe(a, c)
    decreases |a|
  {
    if a != [] && b != [] && c != [] && a[0] == b[0] && b[0] == c[0] {
      StrLeTransitive(a[1..], b[1..], c[1..]);
    }
  }

  /** Values of one kind compare naturally; across kinds, strings < numbers < timestamps. */
  predicate ValueLe(a: Value, b: Value) {
    match a
    case Str(x) => b.Str? ==> StrLe(x, b.s)
    case Num(x) => !b.Str? && (b.Num? ==> x <= b.n)
    case Time(x) => b.Time? && x <= b.t
  }

  /** A cell order in which NULL sorts after every value. */
  predicate CellLe(a: Option<Value>, b: Option<Value>) {
    match a
    case None => b.None?
    case Some(x) => b.None? || ValueLe(x, b.value)
  }

  lemma CellLeTotal(a: Option<Value>, b: Option<Value>)
    ensures CellLe(a, b) || CellLe(b, a)
  {
    if a.Some? && b.Some? && a.value.Str? && b.value.Str? {
      StrLeTotal(a.value.s, b.value.s);
    }
  }

  lemma CellLeAntisymmetric(a: Option<Value>, b: Option<Value>)
    ensures CellLe(a, b) && CellLe(b, a) ==> a == b
  {
    if a.Some? && b.Some? && a.value.Str? && b.value.Str? {
      StrLeAntisymmetric(a.value.s, b.value.s);
    }
  }

  lemma CellLeTransitive(a: Option<Value>, b: Option<Value>, c: Option<Value>)
    ensures CellLe(a, b) && CellLe(b, c) ==> CellLe(a, c)
  {
    if a.Some? && b.Some? && c.Some? && a.value.Str? && b.value.Str? && c.value.Str? {
      StrLeTransitive(a.value.s, b.value.s, c.value.s);
    }
  }

  /** A sort key: one cell per sort column, compared column by column. */
  type Key = seq<Option<Value>>

  predicate KeyLe(a: Key, b: Key)
    decreases |a|
  {
    if a == [] then true
    else if b == [] then false
    else if a[0] != b[0] then CellLe(a[0], b[0])
    else KeyLe(a[1..], b[1..])
  }

  lemma {:induction false} KeyLeTotal(a: Key, b: Key)
    ensures KeyLe(a, b) || KeyLe(b, a)
    decreases |a|
  {
    if a != [] && b != [] {
      if a[0] == b[0] {
        KeyLeTotal(a[1..], b[1..]);
      } else {
        CellLeTotal(a[0], b[0]);
      }
    }
  }

  lemma {:induction false} KeyLeTransitive(a: Key, b: Key, c: Key)
    ensures KeyLe(a, b) && KeyLe(b, c) ==> KeyLe(a, c)
    decreases |a|
  {
    if KeyLe(a, b) && KeyLe(b, c) && a != [] {
      CellLeTransitive(a[0], b[0], c[0]);
      CellLeAntisymmetric(a[0], b[0]);
      CellLeAntisymmetric(b[0], c[0]);
      if a[0] == b[0] && b[0] == c[0] {
        KeyLeTransitive(a[1..], b[1..], c[1..]);
      }
    }
  }

  /** In a two-column key, equal first cells leave the order to the second. */
  lemma KeyLeSecond(x: Option<Value>, p: Option<Value>, q: Option<Value>)
    ensures KeyLe([x, p], [x, q]) <==> CellLe(p, q) || p == q
  {
    assert [x, p][1..] == [p];
    assert [x, q][1..] == [q];
    assert [p][1..] == [] && [q][1..] == [];
    assert KeyLe([x, p], [x, q]) == KeyLe([p], [q]);
    assert KeyLe([p], [q]) == if p != q then CellLe(p, q) else KeyLe([], []);
  }

  /** In a two-column key, different first cells decide the order alone. */
  lemma KeyLeFirst(x: Option<Value>, y: Option<Value>, p: Option<Value>, q: Option<Value>)
    requires x != y
    ensures KeyLe([x, p], [y, q]) <==> CellLe(x, y)
  {
  }

  /** `s` is in ascending order of `key`. */
  predicate SortedBy<T>(s: seq<T>, key: T -> Key) {
    forall i, j :: 0 <= i < j < |s| ==> KeyLe(key(s[i]), key(s[j]))
  }

  /** Inserts `x` before the first element whose key is not below its own, so ahead of equal keys. */
  function Insert<T>(x: T, s: seq<T>, key: T -> Key): (r: seq<T>)
    ensures multiset(r) == multiset(s) + multiset{x}
    ensures |r| == |s| + 1
    decreases |s|
  {
    if s == [] then [x]
    else if KeyLe(key(x), key(s[0])) then [x] + s
    else
      assert s == [s[0]] + s[1..];
      [s[0]] + Insert(x, s[1..], key)
  }

  /** A key below every element's key stays below after an insertion of a larger one. */
  lemma LowerBoundKept<T>(b: Key, t: seq<T>, x: T, s: seq<T>, key: T -> Key)
    requires multiset(t) == multiset(s) + multiset{x}
    requires KeyLe(b, key(x))
    requires forall j :: 0 <= j < |s| ==> KeyLe(b, key(s[j]))
    ensures forall j :: 0 <= j < |t| ==> KeyLe(b, key(t[j]))
  {
    forall j | 0 <= j < |t| ensures KeyLe(b, key(t[j])) {
      assert t[j] in multiset(t);
      if t[j] != x {
        assert t[j] in multiset(s);
      }
    }
  }

  lemma {:induction false} InsertSorted<T>(x: T, s: seq<T>, key: T -> Key)
    requires SortedBy(s, key)
    ensures SortedBy(Insert(x, s, key), key)
    decreases |s|
  {
    if s == [] {
    } else if KeyLe(key(x), key(s[0])) {
      forall j | 0 <= j < |s| ensures KeyLe(key(x), key(s[j])) {
        KeyLeTransitive(key(x), key(s[0]), key(s[j]));
      }
    } else {
      KeyLeTotal(key(x), key(s[0]));
      var t := Insert(x, s[1..], key);
      InsertSorted(x, s[1..], key);
      LowerBoundKept(key(s[0]), t, x, s[1..], key);
      assert Insert(x, s, key) == [s[0]] + t;
    }
  }

  /**
   * Stable insertion sort by `key` (pandas `sort_values` on several columns): sorted, and a
   * permutation of its input.
   */
  function SortBy<T>(s: seq<T>, key: T -> Key): (r: seq<T>)
    ensures SortedBy(r, key)
    ensures multiset(r) == multiset(s)
    ensures |r| == |s|
    decreases |s|
  {
    if s == [] then []
    else
      assert s == [s[0]] + s[1..];
      var t := SortBy(s[1..], key);
      InsertSorted(s[0], t, key);
      Insert(s[0], t, key)
  }
}
