/**
 * Textual forms of a calendar date:
 *  - the display patterns `MM/dd/yyyy` and `dd/MM/yyyy`, read the way
 *    date-fns `parse` reads them (each numeric token takes a greedy run of
 *    1..2 digits, or 1..4 for `yyyy`; `/` must match literally; only
 *    whitespace may follow; the year must be positive; month and day must
 *    exist on the calendar), and written the way date-fns `format` writes them;
 *  - the storage form `yyyy-MM-dd`, which is `full-date` of section 5.6 of
 *    RFC 3339.
 */
module DateText {
  import opened Wrappers
  import opened JsText
  import opened Calendar

  /** Which of day and month comes first in a display pattern. */
  datatype FieldOrder = MonthFirst | DayFirst

  function PatternText(o: FieldOrder): string
  {
    match o
    case MonthFirst => "MM/dd/yyyy"
    case DayFirst => "dd/MM/yyyy"
  }

  function Pow10(k: nat): (p: nat)
    ensures p >= 1
  {
    if k == 0 then 1 else 10 * Pow10(k - 1)
  }

  lemma {:induction false} DecimalValueBound(s: string)
    requires AllDigits(s)
    ensures DecimalValue(s) < Pow10(|s|)
  {
    if s != [] {
      DecimalValueBound(s[..|s| - 1]);
    }
  }

  /** At most four digits read as a number of at most 9999. */
  lemma FourDigitBound(s: string)
    requires AllDigits(s) && |s| <= 4
    ensures DecimalValue(s) <= 9999
  {
    DecimalValueBound(s);
    assert Pow10(|s|) <= 10000 by {
      assert Pow10(0) == 1 && Pow10(1) == 10 && Pow10(2) == 100 && Pow10(3) == 1000 && Pow10(4) == 10000;
    }
  }

  /** The greedy `^\d{1,max}` matcher: the longest run of at most `max` leading digits, and the rest. */
  function TakeDigits(s: string, max: nat): (r: (string, string))
    ensures r.0 + r.1 == s && |r.0| <= max && AllDigits(r.0)
    ensures |r.0| < max && r.1 != [] ==> !IsDigit(r.1[0])
    decreases max
  {
    if max == 0 || s == [] || !IsDigit(s[0]) then ([], s)
    else
      var r := TakeDigits(s[1..], max - 1);
      ([s[0]] + r.0, r.1)
  }

  /** A digit run followed by something that stops it is taken whole. */
  lemma {:induction false} TakeDigitsOf(x: string, rest: string, max: nat)
    requires AllDigits(x) && |x| <= max
    requires |x| == max || rest == [] || !IsDigit(rest[0])
    ensures TakeDigits(x + rest, max) == (x, rest)
    decreases max
  {
    if x != [] {
      assert (x + rest)[0] == x[0];
      assert (x + rest)[1..] == x[1..] + rest;
      TakeDigitsOf(x[1..], rest, max - 1);
      assert [x[0]] + x[1..] == x;
    } else {
      assert x + rest == rest;
    }
  }

  /** The three numeric tokens of a pattern and what follows them. */
  datatype Fields = Fields(first: string, second: string, year: string, trailing: string)

  /** The text has the shape `D{1,2}/D{1,2}/D{1,4}` followed by whitespace only. */
  predicate WellShaped(s: string, f: Fields)
  {
    && 1 <= |f.first| <= 2 && AllDigits(f.first)
    && 1 <= |f.second| <= 2 && AllDigits(f.second)
    && 1 <= |f.year| <= 4 && AllDigits(f.year)
    && IsBlank(f.trailing)
    && s == f.first + ("/" + (f.second + ("/" + (f.year + f.trailing))))
  }

  /** Splits the input at the pattern's tokens; fails on any other shape. */
  function ScanFields(s: string): (r: Option<Fields>)
    ensures r.Some? ==> WellShaped(s, r.value)
  {
    var t1 := TakeDigits(s, 2);
    if t1.0 == [] || t1.1 == [] || t1.1[0] != '/' then None
    else
      var t2 := TakeDigits(t1.1[1..], 2);
      if t2.0 == [] || t2.1 == [] || t2.1[0] != '/' then None
      else
        var t3 := TakeDigits(t2.1[1..], 4);
        if t3.0 == [] || !IsBlank(t3.1) then None
        else
          JoinFields(s, t1.0, t1.1, t2.0, t2.1, t3.0, t3.1);
          Some(Fields(t1.0, t2.0, t3.0, t3.1))
  }

  lemma JoinFields(s: string, a: string, r1: string, b: string, r2: string, c: string, r3: string)
    requires s == a + r1 && r1 != [] && r1[0] == '/' && r1[1..] == b + r2
    requires r2 != [] && r2[0] == '/' && r2[1..] == c + r3
    ensures s == a + ("/" + (b + ("/" + (c + r3))))
  {
    assert r1 == "/" + r1[1..];
    assert r2 == "/" + r2[1..];
  }

  /** Every well-shaped text is split into exactly its own tokens. */
  lemma ScanFieldsComplete(s: string, f: Fields)
    requires WellShaped(s, f)
    ensures ScanFields(s) == Some(f)
  {
    var r2 := "/" + (f.year + f.trailing);
    var r1 := "/" + (f.second + r2);
    ScanSteps(s, f, r1, r2);
  }

  lemma ScanSteps(s: string, f: Fields, r1: string, r2: string)
    requires WellShaped(s, f)
    requires r2 == "/" + (f.year + f.trailing) && r1 == "/" + (f.second + r2)
    ensures TakeDigits(s, 2) == (f.first, r1)
    ensures TakeDigits(r1[1..], 2) == (f.second, r2)
    ensures TakeDigits(r2[1..], 4) == (f.year, f.trailing)
  {
    TakeDigitsOf(f.first, r1, 2);
    assert r1[1..] == f.second + r2;
    TakeDigitsOf(f.second, r2, 2);
    assert r2[1..] == f.year + f.trailing;
    assert f.trailing != [] ==> !IsDigit(f.trailing[0]) by {
      if f.trailing != [] { assert IsWhitespace(f.trailing[0]); }
    }
    TakeDigitsOf(f.year, f.trailing, 4);
  }

  /** Which field holds the month and which the day, for a pattern. */
  function MonthDay(first: nat, second: nat, o: FieldOrder): (nat, nat)
  {
    if o == MonthFirst then (first, second) else (second, first)
  }

  /** date-fns `parse(s, PatternText(o))` followed by `isValid`: the date, or None for Invalid Date. */
  function ParsePattern(s: string, o: FieldOrder): (r: Option<Date>)
    ensures r.Some? ==> IsValidDate(r.value) && 1 <= r.value.year <= 9999
  {
    match ScanFields(s)
    case None => None
    case Some(f) =>
      FourDigitBound(f.year);
      var y := DecimalValue(f.year);
      var (m, d) := MonthDay(DecimalValue(f.first), DecimalValue(f.second), o);
      if y > 0 && 1 <= m <= 12 && 1 <= d <= DaysInMonth(y, m) then Some(Date(y, m, d)) else None
  }

  /**
   * Strictness: an accepted text has the pattern's shape, and its fields,
   * read in the pattern's order, are the month, day and year of the result.
   */
  lemma ParsePatternAccepts(s: string, o: FieldOrder)
    requires ParsePattern(s, o).Some?
    ensures var d := ParsePattern(s, o).value;
      exists f :: WellShaped(s, f)
        && DecimalValue(f.year) == d.year
        && MonthDay(DecimalValue(f.first), DecimalValue(f.second), o) == (d.month, d.day)
  {
    var f := ScanFields(s).value;
    assert WellShaped(s, f);
  }

  lemma TwoDigitValue(s: string)
    requires |s| == 2 && AllDigits(s)
    ensures DecimalValue(s) == DigitValue(s[0]) * 10 + DigitValue(s[1])
  {
    var p := s[..1];
    assert p[..0] == [] && p[0] == s[0];
    assert DecimalValue(p) == DigitValue(s[0]);
  }

  lemma FourDigitValue(s: string)
    requires |s| == 4 && AllDigits(s)
    ensures DecimalValue(s) == DigitValue(s[0]) * 1000 + DigitValue(s[1]) * 100 + DigitValue(s[2]) * 10 + DigitValue(s[3])
  {
    assert s[..3][..2] == s[..2];
    TwoDigitValue(s[..2]);
  }

  /** Conversely, a well-shaped text whose fields form a real date with a positive year is accepted. */
  lemma ParsePatternComplete(s: string, f: Fields, o: FieldOrder)
    requires WellShaped(s, f)
    requires var md := MonthDay(DecimalValue(f.first), DecimalValue(f.second), o);
      IsValidDate(Date(DecimalValue(f.year), md.0, md.1)) && DecimalValue(f.year) > 0
    ensures var md := MonthDay(DecimalValue(f.first), DecimalValue(f.second), o);
      ParsePattern(s, o) == Some(Date(DecimalValue(f.year), md.0, md.1))
  {
    ScanFieldsComplete(s, f);
  }

  /** date-fns `format(d, PatternText(o))`: two-digit month and day in the pattern's order, four-digit year. */
  function FormatPattern(d: Date, o: FieldOrder): string
    requires d.year >= 0 && d.month >= 0 && d.day >= 0
  {
    var (a, b) := if o == MonthFirst then (d.month, d.day) else (d.day, d.month);
    PadNumber(a, 2) + "/" + PadNumber(b, 2) + "/" + PadNumber(d.year, 4)
  }

  /** Round trip: formatting a date in a pattern and parsing it back with the same pattern gives the date. */
  lemma PatternRoundTrip(d: Date, o: FieldOrder)
    requires IsValidDate(d) && 1 <= d.year <= 9999
    ensures ParsePattern(FormatPattern(d, o), o) == Some(d)
  {
    var (a, b) := if o == MonthFirst then (d.month, d.day) else (d.day, d.month);
    var f := Fields(PadNumber(a, 2), PadNumber(b, 2), PadNumber(d.year, 4), "");
    PadNumberValue(a, 2);
    PadNumberValue(b, 2);
    PadNumberValue(d.year, 4);
    PaddedShape(a, b, d.year);
    ParsePatternComplete(FormatPattern(d, o), f, o);
  }

  /** Two padded numbers below 100 and a padded year below 10000, joined by slashes, are a well-shaped text. */
  lemma PaddedShape(a: nat, b: nat, y: nat)
    requires a < 100 && b < 100 && y < 10000
    ensures var f := Fields(PadNumber(a, 2), PadNumber(b, 2), PadNumber(y, 4), "");
      WellShaped(f.first + "/" + f.second + "/" + f.year, f)
  {
    var f := Fields(PadNumber(a, 2), PadNumber(b, 2), PadNumber(y, 4), "");
    assert f.first + "/" + f.second + "/" + f.year == f.first + ("/" + (f.second + ("/" + (f.year + ""))));
  }

  /** RFC 3339 `full-date`: `4DIGIT "-" 2DIGIT "-" 2DIGIT` naming a day that exists. */
  function ParseFullDate(s: string): (r: Option<Date>)
    ensures r.Some? ==> IsValidDate(r.value) && 0 <= r.value.year <= 9999
  {
    if |s| == 10 && AllDigits(s[..4]) && s[4] == '-' && AllDigits(s[5..7]) && s[7] == '-' && AllDigits(s[8..])
    then
      FourDigitBound(s[..4]);
      var d := Date(DecimalValue(s[..4]), DecimalValue(s[5..7]), DecimalValue(s[8..]));
      if IsValidDate(d) then Some(d) else None
    else None
  }

  predicate IsFullDate(s: string)
  {
    ParseFullDate(s).Some?
  }

  /** date-fns `format(d, 'yyyy-MM-dd')`. */
  function FormatFullDate(d: Date): string
    requires d.year >= 0 && d.month >= 0 && d.day >= 0
  {
    PadNumber(d.year, 4) + "-" + PadNumber(d.month, 2) + "-" + PadNumber(d.day, 2)
  }

  /** The storage form of a real date with a four-digit year is a `full-date` naming that same date. */
  lemma FullDateRoundTrip(d: Date)
    requires IsValidDate(d) && 0 <= d.year <= 9999
    ensures |FormatFullDate(d)| == 10
    ensures ParseFullDate(FormatFullDate(d)) == Some(d)
  {
    var s := FormatFullDate(d);
    var y, m, dd := PadNumber(d.year, 4), PadNumber(d.month, 2), PadNumber(d.day, 2);
    assert s[..4] == y && s[5..7] == m && s[8..] == dd;
    PadNumberValue(d.year, 4);
    PadNumberValue(d.month, 2);
    PadNumberValue(d.day, 2);
  }

  /** And a `full-date` written back out is the text it was read from. */
  lemma FullDateCanonical(s: string)
    requires IsFullDate(s)
    ensures FormatFullDate(ParseFullDate(s).value) == s
  {
    var d := ParseFullDate(s).value;
    PadExact(s[..4], 4);
    PadExact(s[5..7], 2);
    PadExact(s[8..], 2);
    assert s == s[..4] + "-" + s[5..7] + "-" + s[8..];
  }

  /** A digit run of exactly `width` digits is the padded form of its value. */
  lemma {:induction false} PadExact(s: string, width: nat)
    requires AllDigits(s) && |s| == width && width >= 1
    ensures PadNumber(DecimalValue(s), width) == s
  {
    var n := DecimalValue(s);
    DecimalValueBound(s);
    var t := DecimalText(n);
    TextLength(n, width);
    // s = zeros + t, where t has no leading zero
    var k := width - |t|;
    assert s == s[..k] + s[k..];
    LeadingZerosOfRun(s, n, k);
  }

  /** The shortest decimal text of a number below 10^w has at most w digits. */
  lemma {:induction false} TextLength(n: nat, w: nat)
    requires n < Pow10(w) && w >= 1
    ensures |DecimalText(n)| <= w
  {
    if n >= 10 {
      TextLength(n / 10, w - 1);
    }
  }

  /** A fixed-width run is its value's shortest text preceded by zeros. */
  lemma {:induction false} LeadingZerosOfRun(s: string, n: nat, k: nat)
    requires AllDigits(s) && DecimalValue(s) == n
    requires k + |DecimalText(n)| == |s|
    ensures s == Zeros(k) + DecimalText(n)
    decreases |s|
  {
    var last := s[|s| - 1];
    var init := s[..|s| - 1];
    SplitLastDigit(s);
    if n < 10 {
      assert DecimalText(n) == [DigitChar(n)];
      AllZeroRun(init);
    } else {
      var q := DecimalText(n / 10);
      assert DecimalText(n) == q + [DigitChar(n % 10)];
      LeadingZerosOfRun(init, n / 10, k);
      assert Zeros(k) + q + [last] == Zeros(k) + (q + [last]);
    }
  }

  /** The last digit of a run is its value modulo ten; the rest is its value divided by ten. */
  lemma SplitLastDigit(s: string)
    requires AllDigits(s) && s != []
    ensures s == s[..|s| - 1] + [s[|s| - 1]]
    ensures DecimalValue(s[..|s| - 1]) == DecimalValue(s) / 10
    ensures s[|s| - 1] == DigitChar(DecimalValue(s) % 10)
  {
    var init, last := s[..|s| - 1], s[|s| - 1];
    var v, d := DecimalValue(init), DigitValue(last);
    assert DecimalValue(s) == v * 10 + d;
    DivModTen(v, d);
    DigitRoundTrip(last);
    assert s == init + [last];
  }

  lemma DivModTen(a: nat, d: nat)
    requires d < 10
    ensures (a * 10 + d) / 10 == a && (a * 10 + d) % 10 == d
  {
  }

  lemma DigitRoundTrip(c: char)
    requires IsDigit(c)
    ensures DigitChar(DigitValue(c)) == c
  {
  }

  /** A run of digits whose value is zero is all zeros. */
  lemma {:induction false} AllZeroRun(s: string)
    requires AllDigits(s) && DecimalValue(s) == 0
    ensures s == Zeros(|s|)
    decreases |s|
  {
    if s != [] {
      AllZeroRun(s[..|s| - 1]);
      ZerosAllZero(|s|);
      ZerosAllZero(|s| - 1);
      assert s == s[..|s| - 1] + [s[|s| - 1]];
    }
  }
}
