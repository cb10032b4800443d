/** String building blocks: decimal rendering, joining, suffix tests and SQL string literals. */
module Text {
  import opened Wrappers

  predicate IsDigit(c: char) {
    '0' <= c <= '9'
  }

  function DigitChar(d: nat): (c: char)
    requires d < 10
    ensures IsDigit(c)
  {
    ('0' as int + d) as char
  }

  /** The decimal text of a natural number, without leading zeros (Python's `str` on an int >= 0). */
  function Digits(n: nat): (r: string)
    ensures |r| >= 1
    ensures forall i :: 0 <= i < |r| ==> IsDigit(r[i])
    ensures n < 10 <==> |r| == 1
    decreases n
  {
    if n < 10 then [DigitChar(n)] else Digits(n / 10) + [DigitChar(n % 10)]
  }

  /** Distinct numbers have distinct decimal texts. */
  lemma {:induction false} DigitsInjective(a: nat, b: nat)
    ensures Digits(a) == Digits(b) <==> a == b
    decreases a
  {
    if Digits(a) == Digits(b) && a >= 10 && b >= 10 {
      var da, db := Digits(a), Digits(b);
      assert da[|da| - 1] == db[|db| - 1];
      assert DigitChar(a % 10) == DigitChar(b % 10);
      assert da[..|da| - 1] == Digits(a / 10);
      assert db[..|db| - 1] == Digits(b / 10);
      DigitsInjective(a / 10, b / 10);
    }
  }

  /**
   * A text made of a prefix, a separator and a stamp in which the separator's last character
   * never occurs splits in one way only: equal texts have equal prefixes and equal stamps.
   */
  lemma SplitAtSeparator(a1: string, d1: string, a2: string, d2: string, sep: string)
    requires sep != []
    requires sep[|sep| - 1] !in d1 && sep[|sep| - 1] !in d2
    ensures a1 + sep + d1 == a2 + sep + d2 <==> a1 == a2 && d1 == d2
  {
    if a1 + sep + d1 == a2 + sep + d2 {
      if |d1| < |d2| {
        StampTooLong(a1, d1, a2, d2, sep);
      } else if |d2| < |d1| {
        StampTooLong(a2, d2, a1, d1, sep);
      }
      var s := a1 + sep + d1;
      assert d1 == s[|s| - |d1|..] == d2;
      assert a1 == s[..|a1|] == a2;
    }
  }

  /** The separator before a shorter stamp falls inside a longer one, which lacks its last character. */
  lemma StampTooLong(a: string, da: string, b: string, db: string, sep: string)
    requires sep != [] && |da| < |db| && sep[|sep| - 1] !in db
    ensures a + sep + da != b + sep + db
  {
    var s1, s2 := a + sep + da, b + sep + db;
    if |s1| == |s2| {
      var p := |s1| - |da| - 1;
      assert s1[p] == sep[|sep| - 1];
      assert s2[p] == db[p - (|s2| - |db|)];
      assert db[p - (|s2| - |db|)] in db;
    }
  }

  /** Python's `str` on an int. */
  function IntToString(i: int): (r: string)
    ensures |r| >= 1
    ensures i >= 0 ==> r == Digits(i)
    ensures i < 0 ==> r[0] == '-'
  {
    if i < 0 then "-" + Digits(-i) else Digits(i)
  }

  /** Python's `sep.join(parts)`. */
  function Join(parts: seq<string>, sep: string): string {
    if |parts| == 0 then ""
    else if |parts| == 1 then parts[0]
    else parts[0] + sep + Join(parts[1..], sep)
  }

  /** Joining one more part appends the separator and that part. */
  lemma {:induction false} JoinSnoc(parts: seq<string>, sep: string, p: string)
    requires parts != []
    ensures Join(parts + [p], sep) == Join(parts, sep) + sep + p
    decreases |parts|
  {
    if |parts| == 1 {
      assert parts + [p] == [parts[0], p];
    } else {
      assert (parts + [p])[1..] == parts[1..] + [p];
      JoinSnoc(parts[1..], sep, p);
    }
  }

  /** Python's `s.endswith(suffix)`. */
  predicate EndsWith(s: string, suffix: string) {
    |suffix| <= |s| && s[|s| - |suffix|..] == suffix
  }

  /** Doubles every single quote, as `str(value).replace("'", "''")` does. */
  function Escape(s: string): (r: string)
    ensures |r| >= |s|
    ensures '\'' !in s ==> r == s
  {
    if s == [] then []
    else (if s[0] == '\'' then "''" else [s[0]]) + Escape(s[1..])
  }

  /**
   * Reads the body of a SQL string literal whose opening quote has already been consumed:
   * a doubled quote stands for one quote and a lone quote closes the literal. Yields the
   * literal's value and the text after the closing quote, or None when it is never closed.
   */
  function ReadLiteralBody(s: string): (r: Option<(string, string)>)
    ensures r.Some? ==> |r.value.1| < |s|
    decreases |s|
  {
    if s == [] then None
    else if s[0] == '\'' then
      if |s| >= 2 && s[1] == '\'' then
        match ReadLiteralBody(s[2..])
        case None => None
        case Some(p) => Some(("'" + p.0, p.1))
      else Some(("", s[1..]))
    else
      match ReadLiteralBody(s[1..])
      case None => None
      case Some(p) => Some(([s[0]] + p.0, p.1))
  }

  /** Reads a whole quoted literal `'...'` at the start of `s`. */
  function ReadLiteral(s: string): (r: Option<(string, string)>)
    ensures r.Some? ==> |r.value.1| < |s|
  {
    if s != [] && s[0] == '\'' then ReadLiteralBody(s[1..]) else None
  }

  /**
   * Escaping round-trips: a value escaped and wrapped in quotes reads back as exactly that
   * value, and the literal ends where the quoting put its closing quote.
   */
  lemma {:induction false} EscapeRoundTrip(v: string, rest: string)
    requires rest == [] || rest[0] != '\''
    ensures ReadLiteral("'" + Escape(v) + "'" + rest) == Some((v, rest))
  {
    EscapedBodyRoundTrip(v, rest);
    assert ("'" + Escape(v) + "'" + rest)[1..] == Escape(v) + "'" + rest;
  }

  lemma {:induction false} EscapedBodyRoundTrip(v: string, rest: string)
    requires rest == [] || rest[0] != '\''
    ensures ReadLiteralBody(Escape(v) + "'" + rest) == Some((v, rest))
    decreases |v|
  {
    var s := Escape(v) + "'" + rest;
    if v == [] {
      assert s == "'" + rest;
      assert s[1..] == rest;
    } else if v[0] == '\'' {
      assert s == "''" + (Escape(v[1..]) + "'" + rest);
      assert s[2..] == Escape(v[1..]) + "'" + rest;
      EscapedBodyRoundTrip(v[1..], rest);
      assert "'" + v[1..] == v;
    } else {
      assert s == [v[0]] + (Escape(v[1..]) + "'" + rest);
      assert s[1..] == Escape(v[1..]) + "'" + rest;
      EscapedBodyRoundTrip(v[1..], rest);
      assert [v[0]] + v[1..] == v;
    }
  }

  /** Whatever the reader accepts is an escaped value, its closing quote and the rest. */
  lemma {:induction false} ReadBodyShape(s: string)
    requires ReadLiteralBody(s).Some?
    ensures s == Escape(ReadLiteralBody(s).value.0) + "'" + ReadLiteralBody(s).value.1
    decreases |s|
  {
    var p := ReadLiteralBody(s).value;
    if s[0] == '\'' {
      if |s| >= 2 && s[1] == '\'' {
        ReadBodyShape(s[2..]);
        var q := ReadLiteralBody(s[2..]).value;
        assert p.0 == "'" + q.0;
        assert Escape(p.0) == "''" + Escape(q.0);
        assert s == "''" + s[2..];
      } else {
        assert p.0 == "";
        assert s == "'" + s[1..];
      }
    } else {
      ReadBodyShape(s[1..]);
      var q := ReadLiteralBody(s[1..]).value;
      assert p.0 == [s[0]] + q.0;
      assert Escape(p.0) == [s[0]] + Escape(q.0);
      assert s == [s[0]] + s[1..];
    }
  }

  /** Escaping lengthens every text that holds a quote. */
  lemma {:induction false} EscapeGrows(s: string)
    requires '\'' in s
    ensures |Escape(s)| > |s|
    decreases |s|
  {
    if s[0] != '\'' {
      assert '\'' in s[1..];
      EscapeGrows(s[1..]);
    }
  }
}
