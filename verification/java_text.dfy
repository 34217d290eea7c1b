/**
 * The pieces of `java.lang.String`, `Integer.toString` and `String.format`
 * that the services rely on: case-insensitive comparison with a literal,
 * decimal rendering of an `int`, and the `"%02d"` month field.
 */
module JavaText {
  import opened Domain

  /** A literal made of upper-case ASCII letters, such as "ADMIN" or "USER". */
  predicate UpperAsciiWord(w: string)
  {
    forall i :: 0 <= i < |w| ==> 'A' <= w[i] <= 'Z'
  }

  /**
   * Whether `c` equals the upper-case ASCII letter `l` under Java's
   * `regionMatches(true, ...)`: `c == l`, or their upper cases are equal, or
   * the lower cases of their upper cases are. Apart from the lower-case ASCII
   * letter, four non-ASCII characters fold onto an ASCII letter: dotted
   * capital I (U+0130) and dotless small i (U+0131) onto I, long s (U+017F)
   * onto S, and the Kelvin sign (U+212A) onto K.
   */
  predicate FoldsTo(c: char, l: char)
    requires 'A' <= l <= 'Z'
  {
    c == l
    || c as int == l as int + 32
    || (l == 'I' && (c == '\U{0130}' || c == '\U{0131}'))
    || (l == 'S' && c == '\U{017F}')
    || (l == 'K' && c == '\U{212A}')
  }

  /** `literal.equalsIgnoreCase(s)`, where `s` may be null. */
  predicate EqualsIgnoreCase(literal: string, s: Option<string>)
    requires UpperAsciiWord(literal)
  {
    s.Some? && |s.value| == |literal|
    && forall i :: 0 <= i < |literal| ==> FoldsTo(s.value[i], literal[i])
  }

  /** ASCII upper-casing, the reference for ASCII input. */
  function AsciiUpper(s: string): (u: string)
    ensures |u| == |s|
    ensures forall i :: 0 <= i < |s| ==> u[i] == (if 'a' <= s[i] <= 'z' then (s[i] as int - 32) as char else s[i])
  {
    if s == [] then []
    else AsciiUpper(s[..|s| - 1]) + [var c := s[|s| - 1]; if 'a' <= c <= 'z' then (c as int - 32) as char else c]
  }

  predicate Ascii(s: string)
  {
    forall i :: 0 <= i < |s| ==> s[i] as int < 128
  }

  /** On ASCII text, Java's case-insensitive comparison is equality after upper-casing. */
  lemma EqualsIgnoreCaseOnAscii(literal: string, s: string)
    requires UpperAsciiWord(literal) && Ascii(s)
    ensures EqualsIgnoreCase(literal, Some(s)) <==> AsciiUpper(s) == literal
  {
    var u := AsciiUpper(s);
    if EqualsIgnoreCase(literal, Some(s)) {
      forall i | 0 <= i < |s| ensures u[i] == literal[i] {
        assert FoldsTo(s[i], literal[i]);
      }
    }
    if u == literal {
      forall i | 0 <= i < |literal| ensures FoldsTo(s[i], literal[i]) {
        assert u[i] == literal[i];
      }
    }
  }

  // ---------------------------------------------------------------------
  // Decimal rendering

  function DigitChar(d: nat): (c: char)
    requires d < 10
    ensures '0' <= c <= '9'
  {
    ('0' as int + d) as char
  }

  function DigitValue(c: char): (d: nat)
    requires '0' <= c <= '9'
    ensures d < 10 && DigitChar(d) == c
  {
    c as int - '0' as int
  }

  predicate AllDigits(s: string)
  {
    forall i :: 0 <= i < |s| ==> '0' <= s[i] <= '9'
  }

  /** Decimal digits of `n`, most significant first, no leading zero. */
  function NatToString(n: nat): (s: string)
    ensures |s| > 0 && AllDigits(s)
  {
    if n < 10 then [DigitChar(n)] else NatToString(n / 10) + [DigitChar(n % 10)]
  }

  function ParseDigits(s: string): nat
    requires AllDigits(s)
  {
    if s == [] then 0 else 10 * ParseDigits(s[..|s| - 1]) + DigitValue(s[|s| - 1])
  }

  lemma {:induction false} ParseNatToString(n: nat)
    ensures ParseDigits(NatToString(n)) == n
  {
    if n >= 10 {
      var s := NatToString(n);
      assert s[..|s| - 1] == NatToString(n / 10);
      ParseNatToString(n / 10);
    }
  }

  /** `Integer.toString(n)`: a minus sign for negative values, then the digits of |n|. */
  function IntToString(n: int): (s: string)
    ensures |s| > 0
  {
    if n < 0 then "-" + NatToString(-n) else NatToString(n)
  }

  /** Reads back what `IntToString` writes; `None` for anything else. */
  function ParseInt(s: string): Option<int>
  {
    if |s| > 1 && s[0] == '-' && AllDigits(s[1..]) then Some(0 - ParseDigits(s[1..]) as int)
    else if |s| > 0 && AllDigits(s) then Some(ParseDigits(s))
    else None
  }

  lemma IntToStringRoundTrip(n: int)
    ensures ParseInt(IntToString(n)) == Some(n)
  {
    var s := IntToString(n);
    if n < 0 {
      assert s[1..] == NatToString(-n);
      ParseNatToString(-n);
    } else {
      assert s[0] != '-';
      ParseNatToString(n);
    }
  }

  /** `String.format("%02d", m)` for a month value. */
  function TwoDigits(m: Month): (s: string)
    ensures |s| == 2 && AllDigits(s)
  {
    [DigitChar(m / 10), DigitChar(m % 10)]
  }

  /** The chart bucket of a date: year, '-', then the month as two digits. */
  function MonthKey(d: Date): (k: string)
    ensures |k| >= 4
  {
    IntToString(d.year) + "-" + TwoDigits(d.month)
  }

  /** Splits a month key back into its year and month. */
  function ParseMonthKey(k: string): Option<(int, int)>
  {
    if |k| < 4 || k[|k| - 3] != '-' || !AllDigits(k[|k| - 2..]) then None
    else match ParseInt(k[..|k| - 3])
      case None => None
      case Some(y) => Some((y, ParseDigits(k[|k| - 2..])))
  }

  lemma MonthKeyRoundTrip(d: Date)
    ensures ParseMonthKey(MonthKey(d)) == Some((d.year, d.month as int))
  {
    var k := MonthKey(d);
    var ys := IntToString(d.year);
    assert k[..|k| - 3] == ys;
    assert k[|k| - 2..] == TwoDigits(d.month);
    IntToStringRoundTrip(d.year);
    TwoDigitsRoundTrip(d.month);
  }

  lemma TwoDigitsRoundTrip(m: Month)
    ensures ParseDigits(TwoDigits(m)) == m
  {
    var t := TwoDigits(m);
    var tens, ones := m / 10, m % 10;
    assert t[..1] == [t[0]] && t[..1][..0] == [];
    assert DigitValue(t[0]) == tens && DigitValue(t[1]) == ones;
    assert ParseDigits(t[..1]) == tens;
    assert ParseDigits(t) == 10 * tens + ones;
  }

  /** Two dates fall in the same chart bucket exactly when year and month agree. */
  lemma MonthKeyInjective(a: Date, b: Date)
    ensures MonthKey(a) == MonthKey(b) <==> (a.year == b.year && a.month == b.month)
  {
    MonthKeyRoundTrip(a);
    MonthKeyRoundTrip(b);
  }
}
