/** Calendar dates as Python's `datetime.date` treats them: the proleptic Gregorian calendar
    over the years 1 to 9999, the day count of `date.toordinal()` (which is what `(a - b).days`
    subtracts), and the `YYYY-MM-DD` text that `strftime('%Y-%m-%d')` writes and
    `strptime(s, '%Y-%m-%d')` reads. */
module Dates {
  import opened Wrappers
  import opened Text

  datatype Date = Date(year: int, month: int, day: int)

  predicate IsLeap(y: int) {
    y % 4 == 0 && (y % 100 != 0 || y % 400 == 0)
  }

  function DaysInYear(y: int): int {
    if IsLeap(y) then 366 else 365
  }

  function DaysInMonth(y: int, m: int): (n: int)
    requires 1 <= m <= 12
    ensures 28 <= n <= 31
    ensures n == 29 <==> m == 2 && IsLeap(y)
  {
    if m == 2 then (if IsLeap(y) then 29 else 28)
    else if m == 4 || m == 6 || m == 9 || m == 11 then 30
    else 31
  }

  /** A date Python can represent: `MINYEAR` 1 to `MAXYEAR` 9999, a real month and a day
      that exists in it. */
  predicate IsValid(d: Date) {
    1 <= d.year <= 9999 && 1 <= d.month <= 12 && 1 <= d.day <= DaysInMonth(d.year, d.month)
  }

  /** Days in the years 1 to y - 1. */
  function DaysBeforeYear(y: int): int
    requires y >= 1
  {
    var z := y - 1;
    365 * z + z / 4 - z / 100 + z / 400
  }

  /** Days in the months before month `m` of year `y`. */
  function DaysBeforeMonth(y: int, m: int): int
    requires 1 <= m <= 12
  {
    [0, 31, 59, 90, 120, 151, 181, 212, 243, 273, 304, 334][m - 1]
      + (if m > 2 && IsLeap(y) then 1 else 0)
  }

  /** `date.toordinal()`: 1 January of year 1 is day 1. */
  function Ordinal(d: Date): int
    requires IsValid(d)
  {
    DaysBeforeYear(d.year) + DaysBeforeMonth(d.year, d.month) + d.day
  }

  /** `(later - earlier).days`. */
  function DaysBetween(earlier: Date, later: Date): int
    requires IsValid(earlier) && IsValid(later)
  {
    Ordinal(later) - Ordinal(earlier)
  }

  /** Calendar order: by year, then month, then day. */
  predicate Before(a: Date, b: Date) {
    || a.year < b.year
    || (a.year == b.year && a.month < b.month)
    || (a.year == b.year && a.month == b.month && a.day < b.day)
  }

  // ---------------------------------------------------------------------------------------
  // The day count follows the calendar
  // ---------------------------------------------------------------------------------------

  /** Adding one to `z` raises `z / k` by one exactly when `z + 1` is a multiple of `k`
      (here for the divisors of the leap-year rule). */
  lemma DivStep(z: nat, k: int)
    requires k == 4 || k == 100 || k == 400
    ensures (z + 1) / k == z / k + (if (z + 1) % k == 0 then 1 else 0)
  {
    assert z == k * (z / k) + z % k;
  }

  /** A multiple of 400 is a multiple of 100, and a multiple of 100 is a multiple of 4. */
  lemma MultiplesNest(y: int)
    ensures y % 400 == 0 ==> y % 100 == 0
    ensures y % 100 == 0 ==> y % 4 == 0
  {
    if y % 400 == 0 {
      assert y == 100 * (4 * (y / 400));
      Hundreds(4 * (y / 400));
    }
    if y % 100 == 0 {
      assert y == 4 * (25 * (y / 100));
      Fours(25 * (y / 100));
    }
  }

  /** `100 * m` is a multiple of 100. */
  lemma Hundreds(m: int)
    ensures (100 * m) % 100 == 0
  {
  }

  /** `4 * m` is a multiple of 4. */
  lemma Fours(m: int)
    ensures (4 * m) % 4 == 0
  {
  }

  /** Each year contributes exactly its own length to the day count. */
  lemma DaysBeforeNextYear(y: int)
    requires y >= 1
    ensures DaysBeforeYear(y + 1) == DaysBeforeYear(y) + DaysInYear(y)
  {
    var z := y - 1;
    DivStep(z, 4);
    DivStep(z, 100);
    DivStep(z, 400);
    MultiplesNest(y);
    var leapDays := (if y % 4 == 0 then 1 else 0) - (if y % 100 == 0 then 1 else 0)
                    + (if y % 400 == 0 then 1 else 0);
    assert leapDays == DaysInYear(y) - 365;
    calc {
      DaysBeforeYear(y + 1);
      365 * y + y / 4 - y / 100 + y / 400;
      365 * z + 365 + z / 4 - z / 100 + z / 400 + leapDays;
    }
  }

  /** The months of a year fit inside it: everything up to the end of month `m` comes no later
      than everything before month `n > m`, and month 12 ends the year. */
  lemma MonthEndsBefore(y: int, m: int, n: int)
    requires 1 <= m <= 12 && m < n <= 13
    ensures DaysBeforeMonth(y, m) + DaysInMonth(y, m)
              <= (if n == 13 then DaysInYear(y) else DaysBeforeMonth(y, n))
  {
  }

  /** All days of year `a` are counted before year `b > a` starts. */
  lemma {:induction false} YearEndsBefore(a: int, b: int)
    requires 1 <= a < b
    ensures DaysBeforeYear(a) + DaysInYear(a) <= DaysBeforeYear(b)
    decreases b - a
  {
    DaysBeforeNextYear(a);
    if a + 1 < b {
      YearEndsBefore(a + 1, b);
      DaysBeforeNextYear(a + 1);
    }
  }

  /** An earlier date has a smaller day count. */
  lemma OrdinalMonotone(a: Date, b: Date)
    requires IsValid(a) && IsValid(b) && Before(a, b)
    ensures Ordinal(a) < Ordinal(b)
  {
    MonthEndsBefore(a.year, a.month, 13);
    if a.year < b.year {
      YearEndsBefore(a.year, b.year);
    } else if a.month < b.month {
      MonthEndsBefore(a.year, a.month, b.month);
    }
  }

  /** The day count orders dates exactly as the calendar does, and tells different dates
      apart. */
  lemma OrdinalOrder(a: Date, b: Date)
    requires IsValid(a) && IsValid(b)
    ensures Ordinal(a) < Ordinal(b) <==> Before(a, b)
    ensures Ordinal(a) == Ordinal(b) <==> a == b
  {
    if Before(a, b) {
      OrdinalMonotone(a, b);
    } else if Before(b, a) {
      OrdinalMonotone(b, a);
    }
  }

  // ---------------------------------------------------------------------------------------
  // YYYY-MM-DD text
  // ---------------------------------------------------------------------------------------

  /** `strftime('%Y-%m-%d')`: four-digit year, two-digit month and day, zero-padded. */
  function FormatDate(d: Date): (s: string)
    requires IsValid(d)
    ensures |s| == 10 && s[4] == '-' && s[7] == '-'
  {
    Pad(d.year, 4) + "-" + Pad(d.month, 2) + "-" + Pad(d.day, 2)
  }

  /** `strptime(s, '%Y-%m-%d')` with exactly four, two and two digits: `None` where Python
      raises `ValueError`. */
  function ParseDate(s: string): (r: Option<Date>)
    ensures r.Some? ==> IsValid(r.value)
  {
    if |s| == 10 && s[4] == '-' && s[7] == '-'
       && AllDigits(s[..4]) && AllDigits(s[5..7]) && AllDigits(s[8..])
    then
      var d := Date(DigitsValue(s[..4]), DigitsValue(s[5..7]), DigitsValue(s[8..]));
      if IsValid(d) then Some(d) else None
    else None
  }

  /** Parsing a formatted date gives the date back. */
  lemma ParseFormat(d: Date)
    requires IsValid(d)
    ensures ParseDate(FormatDate(d)) == Some(d)
  {
    var s := FormatDate(d);
    assert s[..4] == Pad(d.year, 4);
    assert s[5..7] == Pad(d.month, 2);
    assert s[8..] == Pad(d.day, 2);
    assert Pow10(4) == 10000 && Pow10(2) == 100;
    PadRoundTrip(d.year, 4);
    PadRoundTrip(d.month, 2);
    PadRoundTrip(d.day, 2);
  }

  /** A text that parses is the formatted form of its date: the accepted format is exactly
      the one `FormatDate` writes. */
  lemma FormatParse(s: string)
    requires ParseDate(s).Some?
    ensures FormatDate(ParseDate(s).value) == s
  {
    var d := ParseDate(s).value;
    assert d == Date(DigitsValue(s[..4]), DigitsValue(s[5..7]), DigitsValue(s[8..]));
    DigitsRoundTrip(s[..4]);
    DigitsRoundTrip(s[5..7]);
    DigitsRoundTrip(s[8..]);
    DashedFields(s);
  }

  /** A ten-character text with dashes at positions 4 and 7 is its three fields joined by
      dashes. */
  lemma DashedFields(s: string)
    requires |s| == 10 && s[4] == '-' && s[7] == '-'
    ensures s == s[..4] + "-" + s[5..7] + "-" + s[8..]
  {
  }

  /** Three dash-separated fields of equal widths compare field by field. */
  lemma DashedOrder(ya: string, ma: string, da: string, yb: string, mb: string, db: string)
    requires |ya| == |yb| && |ma| == |mb|
    ensures LexLess(ya + "-" + ma + "-" + da, yb + "-" + mb + "-" + db) <==>
      LexLess(ya, yb) || (ya == yb && (LexLess(ma, mb) || (ma == mb && LexLess(da, db))))
  {
    assert ya + "-" + ma + "-" + da == ya + ("-" + (ma + ("-" + da)));
    assert yb + "-" + mb + "-" + db == yb + ("-" + (mb + ("-" + db)));
    LexLessAppend(ya, "-" + (ma + ("-" + da)), yb, "-" + (mb + ("-" + db)));
    LexLessAppend("-", ma + ("-" + da), "-", mb + ("-" + db));
    LexLessAppend(ma, "-" + da, mb, "-" + db);
    LexLessAppend("-", da, "-", db);
    LexLessIrreflexive("-");
  }

  /** Comparing formatted dates as strings compares them in calendar order. */
  lemma FormattedBefore(a: Date, b: Date)
    requires IsValid(a) && IsValid(b)
    ensures LexLess(FormatDate(a), FormatDate(b)) <==> Before(a, b)
  {
    assert Pow10(4) == 10000 && Pow10(2) == 100;
    DashedOrder(Pad(a.year, 4), Pad(a.month, 2), Pad(a.day, 2), Pad(b.year, 4), Pad(b.month, 2), Pad(b.day, 2));
    PadOrder(a.year, b.year, 4);
    PadOrder(a.month, b.month, 2);
    PadOrder(a.day, b.day, 2);
    PadRoundTrip(a.year, 4);
    PadRoundTrip(b.year, 4);
    PadRoundTrip(a.month, 2);
    PadRoundTrip(b.month, 2);
  }

  /** Comparing formatted dates as strings compares their day counts: the string order of
      zero-padded `YYYY-MM-DD` texts is the date order. */
  lemma FormattedOrder(a: Date, b: Date)
    requires IsValid(a) && IsValid(b)
    ensures LexLess(FormatDate(a), FormatDate(b)) <==> Ordinal(a) < Ordinal(b)
  {
    FormattedBefore(a, b);
    OrdinalOrder(a, b);
  }
}
