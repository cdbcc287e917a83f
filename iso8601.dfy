/**
 * The ISO 8601 front end of `astro_time::from_iso8601`: the string's length selects one of
 * three `sscanf` formats, and the number of successful conversions decides acceptance.
 */
module Iso8601 {
  import opened Wrappers

  /** One directive of a scanf format: `%d`, `%lf`, or a literal character that must match. */
  datatype FormatItem = IntItem | RealItem | Lit(c: char)

  /** A converted value, in the order of the format's conversions. */
  datatype Value = IntV(i: int) | RealV(r: real)

  /** What a C number lexer (strtol/strtod-like) reports: the value and how many characters it consumed. */
  datatype Lexed<T> = Lexed(value: T, used: nat)

  /**
   * The C library's number lexers, which this model does not re-implement. Each looks at the
   * front of the remaining text (leading white space included) and reports the number there.
   */
  datatype Lexers = Lexers(lexInt: string -> Option<Lexed<int>>, lexReal: string -> Option<Lexed<real>>)

  /** A lexer that succeeds consumes at least one and at most all remaining characters. */
  ghost predicate ValidLexers(lx: Lexers)
  {
    && (forall s :: lx.lexInt(s).Some? ==> 0 < lx.lexInt(s).value.used <= |s|)
    && (forall s :: lx.lexReal(s).Some? ==> 0 < lx.lexReal(s).value.used <= |s|)
  }

  /** The conversions of a format, literals dropped. */
  function Conversions(fmt: seq<FormatItem>): (r: seq<FormatItem>)
    ensures |r| <= |fmt|
    ensures forall i :: 0 <= i < |r| ==> r[i].IntItem? || r[i].RealItem?
  {
    if fmt == [] then []
    else if fmt[0].Lit? then Conversions(fmt[1..])
    else [fmt[0]] + Conversions(fmt[1..])
  }

  lemma {:induction false} ConversionsAppend(a: seq<FormatItem>, b: seq<FormatItem>)
    ensures Conversions(a + b) == Conversions(a) + Conversions(b)
    decreases |a|
  {
    if a == [] {
      assert a + b == b;
    } else {
      assert (a + b)[0] == a[0];
      assert (a + b)[1..] == a[1..] + b;
      ConversionsAppend(a[1..], b);
    }
  }

  /** The value's kind is the one the conversion asks for. */
  predicate Matches(v: Value, item: FormatItem)
  {
    (v.IntV? && item.IntItem?) || (v.RealV? && item.RealItem?)
  }

  /**
   * `sscanf`: works through the format, converting or matching; stops at the first conversion
   * that fails or literal that does not match. The values converted so far are the result,
   * and their number is what `sscanf` returns: a prefix of the format's conversions, each
   * value of the kind its conversion asks for.
   */
  function Scanf(s: string, fmt: seq<FormatItem>, lx: Lexers): (r: seq<Value>)
    requires ValidLexers(lx)
    ensures |r| <= |Conversions(fmt)|
    ensures forall i :: 0 <= i < |r| ==> Matches(r[i], Conversions(fmt)[i])
    decreases |fmt|
  {
    if fmt == [] then []
    else match fmt[0]
      case Lit(c) =>
        if |s| > 0 && s[0] == c then Scanf(s[1..], fmt[1..], lx) else []
      case IntItem =>
        (match lx.lexInt(s)
          case None => []
          case Some(Lexed(v, n)) => [IntV(v)] + Scanf(s[n..], fmt[1..], lx))
      case RealItem =>
        (match lx.lexReal(s)
          case None => []
          case Some(Lexed(v, n)) => [RealV(v)] + Scanf(s[n..], fmt[1..], lx))
  }

  /**
   * A literal at the end of a format never changes what `sscanf` returns: whether it
   * matches or not, no conversion follows it.
   */
  lemma {:induction false} TrailingLiteralIgnored(s: string, fmt: seq<FormatItem>, c: char, lx: Lexers)
    requires ValidLexers(lx)
    ensures Scanf(s, fmt + [Lit(c)], lx) == Scanf(s, fmt, lx)
    decreases |fmt|
  {
    if fmt == [] {
    } else {
      assert (fmt + [Lit(c)])[0] == fmt[0];
      assert (fmt + [Lit(c)])[1..] == fmt[1..] + [Lit(c)];
      match fmt[0]
      case Lit(d) =>
        if |s| > 0 && s[0] == d {
          TrailingLiteralIgnored(s[1..], fmt[1..], c, lx);
        }
      case IntItem =>
        if lx.lexInt(s).Some? {
          TrailingLiteralIgnored(s[lx.lexInt(s).value.used..], fmt[1..], c, lx);
        }
      case RealItem =>
        if lx.lexReal(s).Some? {
          TrailingLiteralIgnored(s[lx.lexReal(s).value.used..], fmt[1..], c, lx);
        }
    }
  }

  /** "%d-%d" */
  const YearMonthFormat: seq<FormatItem> := [IntItem, Lit('-'), IntItem]

  /** "%d-%d-%d" */
  const DateFormat: seq<FormatItem> := YearMonthFormat + [Lit('-'), IntItem]

  /** "%d-%d-%dT%d:%d:%lf" — the date-time format without its final 'Z'. */
  const DateTimeBody: seq<FormatItem> := DateFormat + [Lit('T'), IntItem, Lit(':'), IntItem, Lit(':'), RealItem]

  /** "%d-%d-%dT%d:%d:%lfZ" */
  const DateTimeFormat: seq<FormatItem> := DateTimeBody + [Lit('Z')]

  /** The broken-down calendar value handed on to `julian_date_from_values`. */
  datatype DateFields = DateFields(year: int, month: int, day: int, hours: int, minutes: int, seconds: real)

  /**
   * Why a time string is refused: the string, and the conversion count `sscanf` returned
   * (absent when the length matched none of the accepted shapes).
   */
  datatype TimeStringError = InvalidTimeString(text: string, rv: Option<int>)

  function IntOf(v: Value): int
  {
    match v
    case IntV(i) => i
    case RealV(_) => 0
  }

  function RealOf(v: Value): real
  {
    match v
    case RealV(r) => r
    case IntV(_) => 0.0
  }

  /**
   * Length 7 ("2018-02") reads year and month, day defaulting to 1; length 10 ("2018-02-23")
   * adds the day; length 20 or more reads the full date-time. Any other length, or a
   * conversion count short of the format's, is an error. A refused string is reported with
   * the count `sscanf` returned, below the format's, or with none when its length was wrong;
   * an accepted date without a time of day is at midnight.
   */
  function ParseFields(s: string, lx: Lexers): (r: Result<DateFields, TimeStringError>)
    requires ValidLexers(lx)
    ensures r.Failure? ==> r.error.text == s
    ensures r.Failure? ==> (r.error.rv.None? <==> |s| != 7 && |s| != 10 && |s| < 20)
    ensures r.Failure? && r.error.rv.Some? ==>
              0 <= r.error.rv.value < (if |s| == 7 then 2 else if |s| == 10 then 3 else 6)
    ensures r.Success? && |s| == 7 ==> r.value.day == 1
    ensures r.Success? && |s| < 20 ==> r.value.hours == 0 && r.value.minutes == 0 && r.value.seconds == 0.0
  {
    assert Conversions(YearMonthFormat) == [IntItem, IntItem];
    ConversionsAppend(YearMonthFormat, [Lit('-'), IntItem]);
    assert Conversions([Lit('-'), IntItem]) == [IntItem];
    ConversionsOfDateTimeBody();
    ConversionsAppend(DateTimeBody, [Lit('Z')]);
    assert Conversions([Lit('Z')]) == [];
    if |s| == 7 then
      var v := Scanf(s, YearMonthFormat, lx);
      if |v| != 2 then Failure(InvalidTimeString(s, Some(|v|)))
      else Success(DateFields(IntOf(v[0]), IntOf(v[1]), 1, 0, 0, 0.0))
    else if |s| == 10 then
      var v := Scanf(s, DateFormat, lx);
      if |v| != 3 then Failure(InvalidTimeString(s, Some(|v|)))
      else Success(DateFields(IntOf(v[0]), IntOf(v[1]), IntOf(v[2]), 0, 0, 0.0))
    else if |s| >= 20 then
      var v := Scanf(s, DateTimeFormat, lx);
      if |v| != 6 then Failure(InvalidTimeString(s, Some(|v|)))
      else Success(DateFields(IntOf(v[0]), IntOf(v[1]), IntOf(v[2]), IntOf(v[3]), IntOf(v[4]), RealOf(v[5])))
    else
      Failure(InvalidTimeString(s, None))
  }

  /** Every string whose length is not 7, 10 or at least 20 is refused without scanning. */
  lemma ParseFieldsRejectsOtherLengths(s: string, lx: Lexers)
    requires ValidLexers(lx)
    requires |s| != 7 && |s| != 10 && |s| < 20
    ensures ParseFields(s, lx) == Failure(InvalidTimeString(s, None))
  {
  }

  /**
   * A string of length 7 is accepted exactly when both conversions succeed; the day is then 1
   * and the time of day midnight, and the fields are the converted integers.
   */
  lemma ParseFieldsYearMonth(s: string, lx: Lexers)
    requires ValidLexers(lx)
    requires |s| == 7
    ensures var v := Scanf(s, YearMonthFormat, lx);
            ParseFields(s, lx).Success? <==> |v| == 2
    ensures var v := Scanf(s, YearMonthFormat, lx);
            ParseFields(s, lx).Success? ==>
              && v[0] == IntV(ParseFields(s, lx).value.year) && v[1] == IntV(ParseFields(s, lx).value.month)
              && ParseFields(s, lx).value.day == 1 && ParseFields(s, lx).value.hours == 0
              && ParseFields(s, lx).value.minutes == 0 && ParseFields(s, lx).value.seconds == 0.0
    ensures ParseFields(s, lx).Failure? ==> ParseFields(s, lx).error.rv == Some(|Scanf(s, YearMonthFormat, lx)|)
  {
    assert Conversions(YearMonthFormat) == [IntItem, IntItem];
  }

  /** A string of length 10 is accepted exactly when all three date conversions succeed. */
  lemma ParseFieldsDate(s: string, lx: Lexers)
    requires ValidLexers(lx)
    requires |s| == 10
    ensures var v := Scanf(s, DateFormat, lx);
            ParseFields(s, lx).Success? <==> |v| == 3
    ensures var v := Scanf(s, DateFormat, lx);
            ParseFields(s, lx).Success? ==>
              && v == [IntV(ParseFields(s, lx).value.year), IntV(ParseFields(s, lx).value.month), IntV(ParseFields(s, lx).value.day)]
              && ParseFields(s, lx).value.hours == 0 && ParseFields(s, lx).value.minutes == 0
              && ParseFields(s, lx).value.seconds == 0.0
    ensures ParseFields(s, lx).Failure? ==> ParseFields(s, lx).error.rv == Some(|Scanf(s, DateFormat, lx)|)
  {
    ConversionsAppend(YearMonthFormat, [Lit('-'), IntItem]);
    assert Conversions(YearMonthFormat) == [IntItem, IntItem];
    assert Conversions([Lit('-'), IntItem]) == [IntItem];
  }

  lemma ConversionsOfDateTimeBody()
    ensures Conversions(DateTimeBody) == [IntItem, IntItem, IntItem, IntItem, IntItem, RealItem]
  {
    var tail := [Lit('T'), IntItem, Lit(':'), IntItem, Lit(':'), RealItem];
    ConversionsAppend(YearMonthFormat, [Lit('-'), IntItem]);
    ConversionsAppend(DateFormat, tail);
    assert Conversions(YearMonthFormat) == [IntItem, IntItem];
    assert Conversions([Lit('-'), IntItem]) == [IntItem];
    assert Conversions(tail[5..]) == [RealItem];
    assert Conversions(tail[4..]) == [RealItem];
    assert Conversions(tail[3..]) == [IntItem, RealItem];
    assert Conversions(tail[2..]) == [IntItem, RealItem];
    assert Conversions(tail[1..]) == [IntItem, IntItem, RealItem];
    assert Conversions(tail) == [IntItem, IntItem, RealItem];
  }

  /**
   * A string of 20 or more characters is accepted exactly when all six conversions succeed,
   * whatever follows the seconds: the trailing 'Z' of the format is never checked.
   */
  lemma ParseFieldsDateTime(s: string, lx: Lexers)
    requires ValidLexers(lx)
    requires |s| >= 20
    ensures var v := Scanf(s, DateTimeBody, lx);
            ParseFields(s, lx).Success? <==> |v| == 6
    ensures var v := Scanf(s, DateTimeBody, lx);
            ParseFields(s, lx).Success? ==>
              var f := ParseFields(s, lx).value;
              v == [IntV(f.year), IntV(f.month), IntV(f.day), IntV(f.hours), IntV(f.minutes), RealV(f.seconds)]
    ensures ParseFields(s, lx).Failure? ==> ParseFields(s, lx).error.rv == Some(|Scanf(s, DateTimeBody, lx)|)
  {
    TrailingLiteralIgnored(s, DateTimeBody, 'Z', lx);
    ConversionsOfDateTimeBody();
    var v := Scanf(s, DateTimeBody, lx);
    if |v| == 6 {
      assert Matches(v[0], IntItem) && Matches(v[1], IntItem) && Matches(v[2], IntItem);
      assert Matches(v[3], IntItem) && Matches(v[4], IntItem) && Matches(v[5], RealItem);
    }
  }
}
