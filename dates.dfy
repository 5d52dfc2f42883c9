/** Calendar dates as Python's datetime.date sees them, and the two text forms the
    batch driver uses: strptime/strftime with "%Y_%m_%d" and "%Y-%m-%d". */
module Dates {
  import opened Wrappers

  /** A (year, month, day) triple; only IsValidDate triples are datetime.date values. */
  datatype Date = Date(year: int, month: int, day: int)

  predicate IsLeapYear(y: int) {
    y % 4 == 0 && (y % 100 != 0 || y % 400 == 0)
  }

  function DaysInMonth(y: int, m: int): (n: int)
    requires 1 <= m <= 12
    ensures 28 <= n <= 31
    ensures n == 29 <==> m == 2 && IsLeapYear(y)
  {
    if m == 2 then (if IsLeapYear(y) then 29 else 28)
    else if m == 4 || m == 6 || m == 9 || m == 11 then 30
    else 31
  }

  /** datetime.date accepts years MINYEAR = 1 to MAXYEAR = 9999 and real calendar days. */
  predicate IsValidDate(d: Date) {
    && 1 <= d.year <= 9999
    && 1 <= d.month <= 12
    && 1 <= d.day <= DaysInMonth(d.year, d.month)
  }

  /** The order of datetime.date: by year, then month, then day. */
  predicate DateLe(a: Date, b: Date) {
    a.year < b.year || (a.year == b.year && (a.month < b.month || (a.month == b.month && a.day <= b.day)))
  }

  predicate IsDigit(c: char) {
    '0' <= c <= '9'
  }

  function DigitValue(c: char): (v: int)
    requires IsDigit(c)
    ensures 0 <= v <= 9
  {
    c as int - '0' as int
  }

  function DigitChar(v: int): (c: char)
    requires 0 <= v <= 9
    ensures IsDigit(c) && DigitValue(c) == v
  {
    ('0' as int + v) as char
  }

  lemma DigitCharOfValue(c: char)
    requires IsDigit(c)
    ensures DigitChar(DigitValue(c)) == c
  {
  }

  /** The two separators of the formats in use ("%Y_%m_%d" and "%Y-%m-%d"). */
  predicate IsSeparator(sep: char) {
    sep == '_' || sep == '-'
  }

  /** strptime's %m pattern, 1[0-2]|0[1-9]|[1-9], at the start of r and followed by sep.
      Yields the month and the number of characters used, separator included. */
  function MonthField(r: string, sep: char): (f: Option<(int, nat)>)
    requires IsSeparator(sep)
    ensures f.Some? ==> 1 <= f.value.0 <= 12 && 2 <= f.value.1 <= 3 && f.value.1 <= |r|
    ensures f.Some? ==> r[f.value.1 - 1] == sep
  {
    if |r| >= 3 && ((r[0] == '1' && '0' <= r[1] <= '2') || (r[0] == '0' && '1' <= r[1] <= '9')) && r[2] == sep then
      Some((10 * DigitValue(r[0]) + DigitValue(r[1]), 3))
    else if |r| >= 2 && '1' <= r[0] <= '9' && r[1] == sep then
      Some((DigitValue(r[0]), 2))
    else
      None
  }

  /** strptime's %d pattern, 3[01]|[12]\d|0[1-9]|[1-9]| [1-9], which must use up all of t:
      the alternative the regular expression picks first has to reach the end of the text,
      or strptime raises "unconverted data remains". */
  function DayField(t: string): (f: Option<int>)
    ensures f.Some? ==> 1 <= f.value <= 31
    ensures f.Some? ==> 1 <= |t| <= 2
  {
    if |t| == 2 && ((t[0] == '3' && '0' <= t[1] <= '1') || ((t[0] == '1' || t[0] == '2') && IsDigit(t[1]))
                    || (t[0] == '0' && '1' <= t[1] <= '9')) then
      Some(10 * DigitValue(t[0]) + DigitValue(t[1]))
    else if |t| == 1 && '1' <= t[0] <= '9' then
      Some(DigitValue(t[0]))
    else if |t| == 2 && t[0] == ' ' && '1' <= t[1] <= '9' then
      Some(DigitValue(t[1]))
    else
      None
  }

  /** The pattern-matching stage of strptime(s, "%Y<sep>%m<sep>%d"): %Y is exactly four digits. */
  function MatchFields(s: string, sep: char): (r: Option<Date>)
    requires IsSeparator(sep)
    ensures r.Some? ==> 0 <= r.value.year <= 9999 && 1 <= r.value.month <= 12 && 1 <= r.value.day <= 31
  {
    if |s| < 5 || !(IsDigit(s[0]) && IsDigit(s[1]) && IsDigit(s[2]) && IsDigit(s[3])) || s[4] != sep then
      None
    else
      var year := 1000 * DigitValue(s[0]) + 100 * DigitValue(s[1]) + 10 * DigitValue(s[2]) + DigitValue(s[3]);
      match MonthField(s[5..], sep)
      case None => None
      case Some(mf) =>
        match DayField(s[5 + mf.1..])
        case None => None
        case Some(day) => Some(Date(year, mf.0, day))
  }

  /** datetime.strptime(s, "%Y<sep>%m<sep>%d").date(): None stands for the ValueError raised
      on text that does not match or on a day the calendar does not have. */
  function ParseDate(s: string, sep: char): (r: Option<Date>)
    requires IsSeparator(sep)
    ensures r.Some? ==> IsValidDate(r.value)
    ensures r.Some? ==> 8 <= |s| <= 10 && s[4] == sep
  {
    var f := MatchFields(s, sep);
    if f.Some? && IsValidDate(f.value) then f else None
  }

  /** date.strftime("%Y<sep>%m<sep>%d"): four-digit year, two-digit month and day. */
  function Render(d: Date, sep: char): (s: string)
    requires IsValidDate(d)
    ensures |s| == 10 && s[4] == sep && s[7] == sep
  {
    [DigitChar(d.year / 1000), DigitChar(d.year / 100 % 10), DigitChar(d.year / 10 % 10), DigitChar(d.year % 10),
     sep, DigitChar(d.month / 10), DigitChar(d.month % 10),
     sep, DigitChar(d.day / 10), DigitChar(d.day % 10)]
  }

  lemma FourDigits(y: int)
    requires 0 <= y <= 9999
    ensures 1000 * (y / 1000) + 100 * (y / 100 % 10) + 10 * (y / 10 % 10) + y % 10 == y
  {
    var tens := y / 10;
    var hundreds := y / 100;
    assert y == 10 * tens + y % 10;
    assert tens / 10 == hundreds;
    assert tens == 10 * hundreds + tens % 10;
    assert hundreds / 10 == y / 1000;
    assert hundreds == 10 * (y / 1000) + hundreds % 10;
  }

  /** The fields of a rendered date, read back by the %m and %d patterns. */
  lemma RenderedFields(d: Date, sep: char)
    requires IsValidDate(d) && IsSeparator(sep)
    ensures var s := Render(d, sep);
      && MonthField(s[5..], sep) == Some((d.month, 3))
      && DayField(s[8..]) == Some(d.day)
  {
    var s := Render(d, sep);
    assert s[5..][2] == sep;
    assert s[8..] == [DigitChar(d.day / 10), DigitChar(d.day % 10)];
  }

  /** Rendering a date and parsing it back with the same format gives the date back. */
  lemma {:induction false} RenderThenParse(d: Date, sep: char)
    requires IsValidDate(d) && IsSeparator(sep)
    ensures ParseDate(Render(d, sep), sep) == Some(d)
  {
    FourDigits(d.year);
    RenderedFields(d, sep);
    assert MatchFields(Render(d, sep), sep) == Some(d);
  }

  lemma SplitFourDigits(a: int, b: int, c: int, e: int)
    requires 0 <= a <= 9 && 0 <= b <= 9 && 0 <= c <= 9 && 0 <= e <= 9
    ensures var y := 1000 * a + 100 * b + 10 * c + e;
      y / 1000 == a && y / 100 % 10 == b && y / 10 % 10 == c && y % 10 == e
  {
    var y := 1000 * a + 100 * b + 10 * c + e;
    var tens := 100 * a + 10 * b + c;
    var hundreds := 10 * a + b;
    assert y == 10 * tens + e;
    assert y / 10 == tens && y % 10 == e;
    assert tens == 10 * hundreds + c;
    assert tens % 10 == c;
    assert y == 100 * hundreds + (10 * c + e);
    assert y / 100 == hundreds;
    assert hundreds % 10 == b;
    assert y == 1000 * a + (100 * b + 10 * c + e);
  }

  lemma SplitTwoDigits(a: int, b: int)
    requires 0 <= a <= 9 && 0 <= b <= 9
    ensures (10 * a + b) / 10 == a && (10 * a + b) % 10 == b
  {
  }

  /** The digits of a parsed ten-character text whose day is not space-padded spell the
      parsed year, month and day. */
  lemma ParsedDigits(s: string, sep: char)
    requires IsSeparator(sep)
    requires ParseDate(s, sep).Some? && |s| == 10 && s[8] != ' '
    ensures var d := ParseDate(s, sep).value;
      && s[4] == sep && s[7] == sep
      && (forall k | 0 <= k < 10 && k != 4 && k != 7 :: IsDigit(s[k]))
      && DigitValue(s[0]) * 1000 + DigitValue(s[1]) * 100 + DigitValue(s[2]) * 10 + DigitValue(s[3]) == d.year
      && DigitValue(s[5]) * 10 + DigitValue(s[6]) == d.month
      && DigitValue(s[8]) * 10 + DigitValue(s[9]) == d.day
  {
    var mf := MonthField(s[5..], sep).value;
    assert mf.1 == 3;
    assert DayField(s[8..]).Some?;
  }

  /** A ten-character text of digits and two separators, whose digits spell the date's year,
      month and day, is that date's rendering. */
  lemma RenderedAs(d: Date, sep: char, text: string)
    requires IsValidDate(d) && |text| == 10 && text[4] == sep && text[7] == sep
    requires forall k | 0 <= k < 10 && k != 4 && k != 7 :: IsDigit(text[k])
    requires DigitValue(text[0]) * 1000 + DigitValue(text[1]) * 100 + DigitValue(text[2]) * 10 + DigitValue(text[3]) == d.year
    requires DigitValue(text[5]) * 10 + DigitValue(text[6]) == d.month
    requires DigitValue(text[8]) * 10 + DigitValue(text[9]) == d.day
    ensures Render(d, sep) == text
  {
    SplitFourDigits(DigitValue(text[0]), DigitValue(text[1]), DigitValue(text[2]), DigitValue(text[3]));
    SplitTwoDigits(DigitValue(text[5]), DigitValue(text[6]));
    SplitTwoDigits(DigitValue(text[8]), DigitValue(text[9]));
    var r := Render(d, sep);
    forall k | 0 <= k < 10 ensures r[k] == text[k] {
      if k != 4 && k != 7 {
        DigitCharOfValue(text[k]);
      }
    }
  }

  /** Parsing a ten-character text whose day is not space-padded and rendering the date in
      the same format gives the text back: the zero-padded form is the only one the renderer
      produces (strptime also reads "2025_1_2" and "2025_01_ 2"). */
  lemma ParseThenRender(s: string, sep: char)
    requires IsSeparator(sep)
    requires ParseDate(s, sep).Some? && |s| == 10 && s[8] != ' '
    ensures Render(ParseDate(s, sep).value, sep) == s
  {
    ParsedDigits(s, sep);
    RenderedAs(ParseDate(s, sep).value, sep, s);
  }
}
