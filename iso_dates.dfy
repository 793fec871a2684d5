/** Calendar dates in the `full-date` form of RFC 3339 section 5.6 (`YYYY-MM-DD`), with the day-of-month
  * limits of RFC 3339 section 5.7. Every date in the promo-code service is written in this form. */
module IsoDates {
  import opened Wrappers
  import JsValues

  datatype Date = Date(year: nat, month: nat, day: nat)

  /** Leap years as in RFC 3339 appendix C. */
  predicate IsLeapYear(y: nat) {
    y % 4 == 0 && (y % 100 != 0 || y % 400 == 0)
  }

  function DaysInMonth(y: nat, m: nat): (days: nat)
    requires 1 <= m <= 12
    ensures 28 <= days <= 31
    ensures days == 29 <==> m == 2 && IsLeapYear(y)
  {
    if m == 2 then (if IsLeapYear(y) then 29 else 28)
    else if m == 4 || m == 6 || m == 9 || m == 11 then 30
    else 31
  }

  predicate ValidDate(d: Date) {
    d.year <= 9999 && 1 <= d.month <= 12 && 1 <= d.day <= DaysInMonth(d.year, d.month)
  }

  predicate IsDigit(c: char) {
    '0' <= c <= '9'
  }

  function DigitValue(c: char): (v: nat)
    requires IsDigit(c)
    ensures v < 10
  {
    c as int - '0' as int
  }

  /** The shape `DDDD-DD-DD`, before any range check. */
  predicate DateShaped(s: string) {
    && |s| == 10 && s[4] == '-' && s[7] == '-'
    && IsDigit(s[0]) && IsDigit(s[1]) && IsDigit(s[2]) && IsDigit(s[3])
    && IsDigit(s[5]) && IsDigit(s[6]) && IsDigit(s[8]) && IsDigit(s[9])
  }

  /** The number written by two decimal digits. */
  function Value2(hi: char, lo: char): (v: nat)
    requires IsDigit(hi) && IsDigit(lo)
    ensures v < 100
  {
    DigitValue(hi) * 10 + DigitValue(lo)
  }

  function ParseDate(s: string): (r: Option<Date>)
    ensures r.Some? ==> ValidDate(r.value) && DateShaped(s)
  {
    if !DateShaped(s) then None
    else
      var d := Fields(s);
      if ValidDate(d) then Some(d) else None
  }

  /** The year, month and day a date-shaped string spells, before any range check. */
  function Fields(s: string): (d: Date)
    requires DateShaped(s)
    ensures d.year == Value2(s[0], s[1]) * 100 + Value2(s[2], s[3])
    ensures d.month == Value2(s[5], s[6]) && d.day == Value2(s[8], s[9])
  {
    Date(Value2(s[0], s[1]) * 100 + Value2(s[2], s[3]), Value2(s[5], s[6]), Value2(s[8], s[9]))
  }

  /** A string class-validator's strict `@IsDateString` accepts, restricted to the date-only form. */
  predicate IsDate(s: string) {
    ParseDate(s).Some?
  }

  /** Two decimal digits, zero-padded. */
  function TwoDigits(n: nat): (s: string)
    requires n < 100
    ensures |s| == 2 && IsDigit(s[0]) && IsDigit(s[1])
  {
    [JsValues.DigitChar(n / 10), JsValues.DigitChar(n % 10)]
  }

  function FormatDate(d: Date): (s: string)
    requires ValidDate(d)
    ensures |s| == 10
  {
    var y1, y2, m, dd := TwoDigits(d.year / 100), TwoDigits(d.year % 100), TwoDigits(d.month), TwoDigits(d.day);
    [y1[0], y1[1], y2[0], y2[1], '-', m[0], m[1], '-', dd[0], dd[1]]
  }

  lemma TwoDigitsValue(n: nat)
    requires n < 100
    ensures Value2(TwoDigits(n)[0], TwoDigits(n)[1]) == n
  {
    var s := TwoDigits(n);
    assert DigitValue(s[0]) == n / 10 && DigitValue(s[1]) == n % 10;
  }

  lemma ValueTwoDigits(hi: char, lo: char)
    requires IsDigit(hi) && IsDigit(lo)
    ensures TwoDigits(Value2(hi, lo)) == [hi, lo]
  {
    var a, b := DigitValue(hi), DigitValue(lo);
    var v := a * 10 + b;
    assert v / 10 == a && v % 10 == b;
  }

  lemma SplitYear(y: nat, hi: nat, lo: nat)
    requires hi < 100 && lo < 100
    ensures (hi * 100 + lo) / 100 == hi && (hi * 100 + lo) % 100 == lo
  {
  }

  /** Every valid date is written one way, and reading it back gives the same date. */
  lemma ParseFormat(d: Date)
    requires ValidDate(d)
    ensures ParseDate(FormatDate(d)) == Some(d)
  {
    var s := FormatDate(d);
    var hi, lo := d.year / 100, d.year % 100;
    var y1, y2, m, dd := TwoDigits(hi), TwoDigits(lo), TwoDigits(d.month), TwoDigits(d.day);
    assert s == [y1[0], y1[1], y2[0], y2[1], '-', m[0], m[1], '-', dd[0], dd[1]];
    TwoDigitsValue(hi);
    TwoDigitsValue(lo);
    TwoDigitsValue(d.month);
    TwoDigitsValue(d.day);
    assert DateShaped(s);
    assert Value2(s[0], s[1]) == hi && Value2(s[2], s[3]) == lo;
    assert hi * 100 + lo == d.year;
    assert Fields(s) == d;
  }

  /** A string that parses is exactly the canonical writing of its date. */
  lemma FormatParse(s: string)
    requires IsDate(s)
    ensures FormatDate(ParseDate(s).value) == s
  {
    var d := ParseDate(s).value;
    assert d == Fields(s);
    var hi, lo := Value2(s[0], s[1]), Value2(s[2], s[3]);
    SplitYear(d.year, hi, lo);
    ValueTwoDigits(s[0], s[1]);
    ValueTwoDigits(s[2], s[3]);
    ValueTwoDigits(s[5], s[6]);
    ValueTwoDigits(s[8], s[9]);
    assert d.year / 100 == hi && d.year % 100 == lo;
    assert TwoDigits(d.year / 100) == [s[0], s[1]];
    assert TwoDigits(d.year % 100) == [s[2], s[3]];
    assert TwoDigits(d.month) == [s[5], s[6]] && TwoDigits(d.day) == [s[8], s[9]];
    var f := FormatDate(d);
    assert f == [s[0], s[1], s[2], s[3], '-', s[5], s[6], '-', s[8], s[9]];
  }

  /** `a` is a strictly earlier calendar day than `b`. */
  predicate Precedes(a: Date, b: Date) {
    a.year < b.year || (a.year == b.year && (a.month < b.month || (a.month == b.month && a.day < b.day)))
  }

  /** Strict chronological comparison of two date strings, as `new Date(a) < new Date(b)`: false unless both
    * parse. */
  predicate EarlierThan(a: string, b: string) {
    ParseDate(a).Some? && ParseDate(b).Some? && Precedes(ParseDate(a).value, ParseDate(b).value)
  }

  /** `a` is on or after `b`, both being dates. */
  predicate OnOrAfter(a: string, b: string) {
    IsDate(a) && IsDate(b) && !EarlierThan(a, b)
  }

  /** Chronological order on dates is a strict total order. */
  lemma PrecedesTotal(a: Date, b: Date)
    ensures !(Precedes(a, b) && Precedes(b, a))
    ensures a != b ==> Precedes(a, b) || Precedes(b, a)
    ensures !Precedes(a, a)
  {
  }
}
