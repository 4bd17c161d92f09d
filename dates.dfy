/**
 * The two date helpers of the log parser: `formatDate`, which normalises a
 * `YYYY-MM-DD` date to `MM-DD-YYYY`, and `parseDate`, which reads a `MM-DD-YYYY`
 * date into something that can be compared.
 */
module Dates {
  import opened Wrappers
  import opened Strings

  /**
   * What `formatDate` throws: after `split('-')` there was no `month` or no `day`,
   * and reading `padStart` of `undefined` is a TypeError. The date kept here is the
   * model's own payload; the TypeError's message does not hold it.
   */
  datatype Failure = UndefinedDatePart(date: string)

  /** `/^\d{2}-\d{2}-\d{4}$/`: the `MM-DD-YYYY` shape. */
  predicate IsMonthDayYear(s: string) {
    |s| == 10 && s[2] == '-' && s[5] == '-' &&
    IsDigits(s[..2]) && IsDigits(s[3..5]) && IsDigits(s[6..])
  }

  lemma MonthDayYearDashes(s: string)
    requires IsMonthDayYear(s)
    ensures Occurrences(s, '-') >= 2
  {
    assert s == s[..3] + s[3..6] + s[6..];
    OccurrencesConcat(s[..3] + s[3..6], s[6..], '-');
    OccurrencesConcat(s[..3], s[3..6], '-');
    assert s[..3][..2] == s[..2];
    assert s[3..6][..2] == s[3..5];
  }

  /**
   * `formatDate`: a string already in `MM-DD-YYYY` shape is returned as it is; any
   * other string is cut at its dashes and read as year, month and day, and the month
   * and day come out padded to two digits, followed by the year. It fails exactly
   * when the string has fewer than two dashes.
   */
  function FormatDate(s: string): (r: Result<string, Failure>)
    ensures IsMonthDayYear(s) ==> r == Ok(s)
    ensures r.Err? <==> Occurrences(s, '-') < 2
    ensures r.Err? ==> r.error == UndefinedDatePart(s)
  {
    if IsMonthDayYear(s) then
      MonthDayYearDashes(s);
      Ok(s)
    else
      var parts := Split(s, "-");
      SplitCharCount(s, '-');
      if |parts| < 3 then Err(UndefinedDatePart(s))
      else Ok(Pad2(parts[1]) + "-" + Pad2(parts[2]) + "-" + parts[0])
  }

  predicate NoDash(s: string) {
    forall j :: 0 <= j < |s| ==> s[j] != '-'
  }

  /**
   * A `year-month-day` string (any parts without dashes, not already `MM-DD-YYYY`)
   * comes out as month and day padded to two places, then the year.
   */
  lemma FormatDateReorders(y: string, m: string, d: string)
    requires NoDash(y) && NoDash(m) && NoDash(d)
    requires !IsMonthDayYear(y + "-" + m + "-" + d)
    ensures FormatDate(y + "-" + m + "-" + d) == Ok(Pad2(m) + "-" + Pad2(d) + "-" + y)
  {
    var s := y + "-" + m + "-" + d;
    assert s == y + ['-'] + (m + ['-'] + d);
    SplitCharFirst(y, '-', m + ['-'] + d);
    SplitCharFirst(m, '-', d);
    SplitCharNone(d, '-');
  }

  /** `2024-03-05` becomes `03-05-2024`. */
  lemma FormatDateExample()
    ensures FormatDate("2024-03-05") == Ok("03-05-2024")
  {
    var y, m, d := "2024", "03", "05";
    assert NoDash(y) && NoDash(m) && NoDash(d);
    assert y + "-" + m + "-" + d == "2024-03-05";
    assert m + "-" + d + "-" + y == "03-05-2024";
    assert Pad2(m) == m && Pad2(d) == d;
    assert "2024-03-05"[2] == '2';
    FormatDateReorders(y, m, d);
  }

  /** `2024-01-10` becomes `01-10-2024`. */
  lemma ExampleDate()
    ensures FormatDate("2024-01-10") == Ok("01-10-2024")
  {
    var y, m, d := "2024", "01", "10";
    assert y + "-" + m + "-" + d == "2024-01-10";
    assert m + "-" + d + "-" + y == "01-10-2024";
    assert Pad2(m) == m && Pad2(d) == d;
    assert "2024-01-10"[2] == '2';
    FormatDateReorders(y, m, d);
  }

  /**
   * Normalising twice is normalising once, for a four-digit year and a one- or
   * two-digit month and day: the first pass yields the `MM-DD-YYYY` shape, which the
   * second pass leaves alone.
   */
  lemma FormatDateIdempotent(y: string, m: string, d: string)
    requires |y| == 4 && 1 <= |m| <= 2 && 1 <= |d| <= 2
    requires IsDigits(y) && IsDigits(m) && IsDigits(d)
    ensures FormatDate(y + "-" + m + "-" + d).Ok?
    ensures var r := FormatDate(y + "-" + m + "-" + d).value;
      IsMonthDayYear(r) && FormatDate(r) == Ok(r)
  {
    var s := y + "-" + m + "-" + d;
    assert s[2] == y[2];
    DigitsNoDash(y);
    DigitsNoDash(m);
    DigitsNoDash(d);
    FormatDateReorders(y, m, d);
    MonthDayYearOfParts(Pad2(m), Pad2(d), y);
  }

  lemma DigitsNoDash(s: string)
    requires IsDigits(s)
    ensures NoDash(s)
  {
  }

  lemma MonthDayYearOfParts(m: string, d: string, y: string)
    requires |m| == 2 && |d| == 2 && |y| == 4
    requires IsDigits(m) && IsDigits(d) && IsDigits(y)
    ensures IsMonthDayYear(m + "-" + d + "-" + y)
  {
    var r := m + "-" + d + "-" + y;
    assert r[..2] == m && r[3..5] == d && r[6..] == y;
  }

  /** A calendar date as `new Date(year, month - 1, day)` would hold it. */
  datatype Ymd = Ymd(year: nat, month: nat, day: nat)

  /** `a` is not later than `b`: year, then month, then day. */
  predicate NotAfter(a: Ymd, b: Ymd) {
    a.year < b.year ||
    (a.year == b.year && (a.month < b.month || (a.month == b.month && a.day <= b.day)))
  }

  lemma NotAfterTransitive(a: Ymd, b: Ymd, c: Ymd)
    requires NotAfter(a, b) && NotAfter(b, c)
    ensures NotAfter(a, c)
  {
  }

  /** The `Date` constructor reads a year from 0 to 99 as 1900 to 1999. */
  function FullYear(y: nat): (r: nat)
    ensures y <= 99 ==> r == 1900 + y
    ensures y > 99 ==> r == y
  {
    if y <= 99 then 1900 + y else y
  }

  /**
   * `parseDate`: the dash-separated parts are month, day and year (extra parts are
   * ignored, as array destructuring ignores them), each read as a number. An empty
   * part reads as 0 (`Number("")`); a missing part, or one with a character other
   * than a digit, gives an invalid date, here `None`. The year, month and day are
   * kept as written: `new Date` would move an out-of-range month or day into a
   * neighbouring month or year (a 0 moves back), and would give an invalid date
   * beyond 8.64e15 ms from 1970; neither is modelled.
   */
  function ParseDate(s: string): (r: Option<Ymd>)
    ensures r.Some? ==> Occurrences(s, '-') >= 2
  {
    var parts := Split(s, "-");
    SplitCharCount(s, '-');
    if |parts| >= 3 && IsDigits(parts[0]) && IsDigits(parts[1]) && IsDigits(parts[2]) then
      Some(Ymd(FullYear(Value(parts[2])), Value(parts[0]), Value(parts[1])))
    else None
  }

  /**
   * `parseDate(formatDate(s))` reads back the year, month and day written in `s`,
   * whenever `s` is `year-month-day` with numeric (possibly empty) parts and not
   * already `MM-DD-YYYY`: the zero padding does not change the numbers.
   */
  lemma ParseFormattedDate(y: string, m: string, d: string)
    requires IsDigits(y) && IsDigits(m) && IsDigits(d)
    requires !IsMonthDayYear(y + "-" + m + "-" + d)
    ensures FormatDate(y + "-" + m + "-" + d).Ok?
    ensures ParseDate(FormatDate(y + "-" + m + "-" + d).value) == Some(Ymd(FullYear(Value(y)), Value(m), Value(d)))
  {
    DigitsNoDash(y);
    DigitsNoDash(m);
    DigitsNoDash(d);
    FormatDateReorders(y, m, d);
    Pad2Value(m);
    Pad2Value(d);
    ParseDateOfParts(Pad2(m), Pad2(d), y);
  }

  /** Zero padding keeps a run of digits a run of digits of the same value. */
  lemma Pad2Value(s: string)
    requires IsDigits(s)
    ensures IsDigits(Pad2(s)) && Value(Pad2(s)) == Value(s)
  {
    if |s| == 1 {
      ValueLeadingZero(s);
    } else if |s| == 0 {
      ValueLeadingZero("0");
      ValueLeadingZero("");
    }
  }

  /** `m-d-y` with digit parts (each possibly empty) is read as month `m`, day `d` and year `FullYear` of `y`. */
  lemma ParseDateOfParts(m: string, d: string, y: string)
    requires IsDigits(m) && IsDigits(d) && IsDigits(y)
    ensures ParseDate(m + "-" + d + "-" + y) == Some(Ymd(FullYear(Value(y)), Value(m), Value(d)))
  {
    DigitsNoDash(m);
    DigitsNoDash(d);
    DigitsNoDash(y);
    var r := m + "-" + d + "-" + y;
    assert r == m + ['-'] + (d + ['-'] + y);
    SplitCharFirst(m, '-', d + ['-'] + y);
    SplitCharFirst(d, '-', y);
    SplitCharNone(y, '-');
    assert Split(r, "-") == [m, d, y];
  }

  /** `03-05-` (what `formatDate` makes of `-3-5`) is 5 March 1900: the empty year reads as 0. */
  lemma EmptyYearExample()
    ensures ParseDate("03-05-") == Some(Ymd(1900, 3, 5))
  {
    ParseDateOfParts("03", "05", "");
    assert "03" + "-" + "05" + "-" + "" == "03-05-";
    assert Value("03") == 3 && Value("05") == 5;
  }

  /**
   * A date string lies in `[start, end]`: all three parse and the date is neither
   * before `start` nor after `end`. An invalid date compares false both ways in
   * JavaScript, so it is never in range, and neither is anything when a bound is invalid.
   */
  predicate InRange(date: string, start: string, end: string) {
    match (ParseDate(date), ParseDate(start), ParseDate(end))
    case (Some(x), Some(s), Some(e)) => NotAfter(s, x) && NotAfter(x, e)
    case _ => false
  }

  /** Every date in `[start1, end1]` is in `[start2, end2]` when the second range encloses the first. */
  lemma RangeWithin(start1: string, end1: string, start2: string, end2: string)
    requires ParseDate(start1).Some? && ParseDate(end1).Some?
    requires ParseDate(start2).Some? && ParseDate(end2).Some?
    requires NotAfter(ParseDate(start2).value, ParseDate(start1).value)
    requires NotAfter(ParseDate(end1).value, ParseDate(end2).value)
    ensures forall x :: InRange(x, start1, end1) ==> InRange(x, start2, end2)
  {
  }
}
