/** Calendar dates as the ledger stores them: a (year, month, day) triple that is
    written to the Date column as `YYYY-MM-DD`, and the (year, month) period used
    to bucket spending by month. */
module Dates {
  import opened Wrappers
  import opened Text

  datatype Date = Date(year: int, month: int, day: int)

  predicate IsLeapYear(year: int) {
    year % 4 == 0 && (year % 100 != 0 || year % 400 == 0)
  }

  function DaysInMonth(year: int, month: int): (n: int)
    requires 1 <= month <= 12
    ensures 28 <= n <= 31
    ensures n == 29 <==> month == 2 && IsLeapYear(year)
  {
    if month == 2 then (if IsLeapYear(year) then 29 else 28)
    else if month == 4 || month == 6 || month == 9 || month == 11 then 30
    else 31
  }

  /** A real Gregorian calendar day in the years 1 to 9999, the range of
      Python's datetime.date. The date picker only returns such days; a
      hand-edited transactions file may hold any triple. */
  predicate Valid(d: Date) {
    && 1 <= d.year <= 9999
    && 1 <= d.month <= 12
    && 1 <= d.day <= DaysInMonth(d.year, d.month)
  }

  /** Chronological order: a is a strictly earlier day than b. */
  predicate Before(a: Date, b: Date) {
    || a.year < b.year
    || (a.year == b.year && a.month < b.month)
    || (a.year == b.year && a.month == b.month && a.day < b.day)
  }

  /** The date written as strftime("%Y-%m-%d") writes it. */
  function Iso(d: Date): (s: string)
    requires Valid(d)
    ensures |s| == 10 && s[4] == '-' && s[7] == '-'
  {
    ZeroPad(d.year, 4) + ("-" + (ZeroPad(d.month, 2) + ("-" + ZeroPad(d.day, 2))))
  }

  /** The shape of a written date: ten characters, digits around two dashes. */
  predicate IsoShaped(s: string) {
    && |s| == 10 && s[4] == '-' && s[7] == '-'
    && AllDigits(s[..4]) && AllDigits(s[5..7]) && AllDigits(s[8..])
  }

  /** A written date is its three digit fields joined by dashes. */
  lemma IsoFields(s: string)
    requires |s| == 10 && s[4] == '-' && s[7] == '-'
    ensures s == s[..4] + ("-" + (s[5..7] + ("-" + s[8..])))
  {
    assert s[..4] + ("-" + (s[5..7] + ("-" + s[8..]))) == s[..4] + [s[4]] + s[5..7] + [s[7]] + s[8..];
  }

  /** A date read from a well-shaped string is written back as that string. */
  lemma IsoOfFields(s: string, d: Date)
    requires IsoShaped(s) && Valid(d)
    requires d == Date(DigitsValue(s[..4]), DigitsValue(s[5..7]), DigitsValue(s[8..]))
    ensures Iso(d) == s
  {
    ZeroPadDigitsValue(s[..4]);
    ZeroPadDigitsValue(s[5..7]);
    ZeroPadDigitsValue(s[8..]);
    IsoFields(s);
  }

  /** Reads a `YYYY-MM-DD` string back into a date; anything else, or a day that
      is not on the calendar, is None. Success yields exactly the date whose
      written form is s. */
  function ParseIso(s: string): (r: Option<Date>)
    ensures r.Some? ==> Valid(r.value) && Iso(r.value) == s
  {
    if IsoShaped(s) then
      var d := Date(DigitsValue(s[..4]), DigitsValue(s[5..7]), DigitsValue(s[8..]));
      if Valid(d) then
        IsoOfFields(s, d);
        Some(d)
      else None
    else None
  }

  /** Inside the range of pandas' nanosecond timestamps (pandas 2.x): from
      1677-09-22 to 2262-04-11. The first representable instant falls on
      1677-09-21 after midnight, so that day itself is out of range. */
  predicate InTimestampRange(d: Date) {
    !Before(d, Date(1677, 9, 22)) && !Before(Date(2262, 4, 11), d)
  }

  /** A date that pd.to_datetime converts: a calendar day inside the
      timestamp range. */
  predicate Convertible(d: Date) {
    Valid(d) && InTimestampRange(d)
  }

  /** pd.to_datetime on one stored `YYYY-MM-DD` string: the date it denotes
      when that is a calendar day inside the timestamp range, None where
      pandas raises. */
  function ToDatetime(s: string): (r: Option<Date>)
    ensures r.Some? ==> Convertible(r.value) && Iso(r.value) == s
  {
    var p := ParseIso(s);
    if p.Some? && InTimestampRange(p.value) then p else None
  }

  /** Converting the stored form of a calendar date yields that date exactly
      when it lies inside the timestamp range, and fails otherwise. */
  lemma ToDatetimeIso(d: Date)
    requires Valid(d)
    ensures ToDatetime(Iso(d)) == if InTimestampRange(d) then Some(d) else None
  {
    IsoRoundTrip(d);
  }

  /** Writing a date and reading it back gives the same date. */
  lemma IsoRoundTrip(d: Date)
    requires Valid(d)
    ensures ParseIso(Iso(d)) == Some(d)
  {
    var s := Iso(d);
    assert s[..4] == ZeroPad(d.year, 4);
    assert s[5..7] == ZeroPad(d.month, 2);
    assert s[8..] == ZeroPad(d.day, 2);
    DigitsValueZeroPad(d.year, 4);
    DigitsValueZeroPad(d.month, 2);
    DigitsValueZeroPad(d.day, 2);
  }

  /** Comparing the written forms as strings orders dates chronologically, so a
      column of `YYYY-MM-DD` strings sorts exactly as the dates do. */
  lemma IsoOrder(a: Date, b: Date)
    requires Valid(a) && Valid(b)
    ensures Less(Iso(a), Iso(b)) <==> Before(a, b)
  {
    var ya, yb := ZeroPad(a.year, 4), ZeroPad(b.year, 4);
    var ma, mb := ZeroPad(a.month, 2), ZeroPad(b.month, 2);
    var da, db := ZeroPad(a.day, 2), ZeroPad(b.day, 2);
    ZeroPadLess(a.year, b.year, 4);
    ZeroPadLess(a.month, b.month, 2);
    ZeroPadLess(a.day, b.day, 2);
    DigitsValueZeroPad(a.year, 4);
    DigitsValueZeroPad(b.year, 4);
    DigitsValueZeroPad(a.month, 2);
    DigitsValueZeroPad(b.month, 2);
    LessIrreflexive("-");
    LessAppend(ya, "-" + (ma + ("-" + da)), yb, "-" + (mb + ("-" + db)));
    LessAppend("-", ma + ("-" + da), "-", mb + ("-" + db));
    LessAppend(ma, "-" + da, mb, "-" + db);
    LessAppend("-", da, "-", db);
  }

  /** The calendar month a date falls in: pandas' to_period("M"). */
  datatype YearMonth = YearMonth(year: int, month: int)

  function MonthOf(d: Date): YearMonth {
    YearMonth(d.year, d.month)
  }

  /** Chronological order of months. */
  predicate MonthBefore(a: YearMonth, b: YearMonth) {
    a.year < b.year || (a.year == b.year && a.month < b.month)
  }

  /** Bucketing by month keeps chronological order: an earlier date falls in
      the same or an earlier month, and an earlier month holds only earlier
      dates. So the months listed in ascending order follow the dates. */
  lemma MonthOfMonotone(a: Date, b: Date)
    ensures Before(a, b) ==> MonthOf(a) == MonthOf(b) || MonthBefore(MonthOf(a), MonthOf(b))
    ensures MonthBefore(MonthOf(a), MonthOf(b)) ==> Before(a, b)
  {
  }
}
