/**
 * Proleptic Gregorian calendar dates with the arithmetic the backend takes
 * from pandas and `datetime`: day steps (`timedelta(days=n)`), month steps
 * that clamp the day to the target month (`DateOffset(months=k)`), quarters,
 * and `strftime` renderings.
 */
module Calendar {

  import Text

  datatype Date = Date(year: int, month: int, day: int)

  predicate IsLeap(y: int) {
    (y % 4 == 0 && y % 100 != 0) || y % 400 == 0
  }

  function DaysInMonth(y: int, m: int): (n: int)
    requires 1 <= m <= 12
    ensures 28 <= n <= 31
  {
    if m == 2 then (if IsLeap(y) then 29 else 28)
    else if m == 4 || m == 6 || m == 9 || m == 11 then 30
    else 31
  }

  predicate Valid(d: Date) {
    1 <= d.month <= 12 && 1 <= d.day <= DaysInMonth(d.year, d.month)
  }

  /** Number of months since January of year 0. */
  function MonthIndex(d: Date): int {
    d.year * 12 + d.month - 1
  }

  /** Number of quarters since the first quarter of year 0. */
  function QuarterIndex(d: Date): int {
    d.year * 4 + (d.month - 1) / 3
  }

  /** pandas `Timestamp.quarter`. */
  function Quarter(d: Date): int {
    (d.month - 1) / 3 + 1
  }

  lemma MonthIndexInjective(a: Date, b: Date)
    requires 1 <= a.month <= 12 && 1 <= b.month <= 12
    requires MonthIndex(a) == MonthIndex(b)
    ensures a.year == b.year && a.month == b.month
  {
    assert a.year == MonthIndex(a) / 12 && a.month - 1 == MonthIndex(a) % 12;
    assert b.year == MonthIndex(b) / 12 && b.month - 1 == MonthIndex(b) % 12;
  }

  /** Chronological order. */
  predicate Before(a: Date, b: Date) {
    a.year < b.year
    || (a.year == b.year && (a.month < b.month || (a.month == b.month && a.day < b.day)))
  }

  predicate NotAfter(a: Date, b: Date) {
    a == b || Before(a, b)
  }

  function FirstOfMonth(d: Date): Date {
    Date(d.year, d.month, 1)
  }

  function LastOfMonth(d: Date): Date
    requires 1 <= d.month <= 12
  {
    Date(d.year, d.month, DaysInMonth(d.year, d.month))
  }

  function NextDay(d: Date): (r: Date)
    requires Valid(d)
    ensures Valid(r) && Before(d, r)
  {
    if d.day < DaysInMonth(d.year, d.month) then Date(d.year, d.month, d.day + 1)
    else if d.month < 12 then Date(d.year, d.month + 1, 1)
    else Date(d.year + 1, 1, 1)
  }

  function PrevDay(d: Date): (r: Date)
    requires Valid(d)
    ensures Valid(r) && Before(r, d)
  {
    if d.day > 1 then Date(d.year, d.month, d.day - 1)
    else if d.month > 1 then Date(d.year, d.month - 1, DaysInMonth(d.year, d.month - 1))
    else Date(d.year - 1, 12, 31)
  }

  /** No valid date lies strictly between `PrevDay(d)` and `d`. */
  lemma PrevDayIsPredecessor(d: Date, x: Date)
    requires Valid(d) && Valid(x) && Before(x, d)
    ensures NotAfter(x, PrevDay(d))
  {
  }

  lemma NextOfPrevDay(d: Date)
    requires Valid(d)
    ensures NextDay(PrevDay(d)) == d
  {
  }

  /** `d + timedelta(days=n)` */
  function AddDays(d: Date, n: int): (r: Date)
    requires Valid(d)
    ensures Valid(r)
    decreases if n < 0 then -n else n
  {
    if n == 0 then d
    else if n > 0 then AddDays(NextDay(d), n - 1)
    else AddDays(PrevDay(d), n + 1)
  }

  /** `d + DateOffset(months=k)`: move `k` months, clamping the day to the target month. */
  function AddMonths(d: Date, k: int): (r: Date)
    requires Valid(d)
    ensures Valid(r)
    ensures MonthIndex(r) == MonthIndex(d) + k
    ensures r.day <= d.day
    ensures r.day == d.day || r.day == DaysInMonth(r.year, r.month)
  {
    var t := MonthIndex(d) + k;
    var y := t / 12;
    var m := t % 12 + 1;
    Date(y, m, if d.day <= DaysInMonth(y, m) then d.day else DaysInMonth(y, m))
  }

  // ---------------------------------------------------------------------------
  // strftime renderings
  // ---------------------------------------------------------------------------

  /** `%Y`: the year zero-padded to four digits. */
  function YearText(y: int): string {
    if y < 0 then "-" + Text.PadLeft(Text.NatToString(-y), 4, '0')
    else Text.PadLeft(Text.NatToString(y), 4, '0')
  }

  /** `%m` / `%d`: two zero-padded digits. */
  function TwoDigits(n: int): string {
    Text.PadLeft(Text.NatToString(if n < 0 then 0 else n), 2, '0')
  }

  /** `strftime('%Y-%m-%d')` */
  function Format(d: Date): string {
    YearText(d.year) + "-" + TwoDigits(d.month) + "-" + TwoDigits(d.day)
  }

  /** `strftime('%Y-%m')` */
  function FormatMonth(d: Date): string {
    YearText(d.year) + "-" + TwoDigits(d.month)
  }

  /** `strftime('%b')` in the C locale. */
  function MonthAbbrev(m: int): (r: string)
    requires 1 <= m <= 12
    ensures |r| == 3
  {
    ["Jan", "Feb", "Mar", "Apr", "May", "Jun", "Jul", "Aug", "Sep", "Oct", "Nov", "Dec"][m - 1]
  }

  lemma TwoDigitsOfMonth(m: int)
    requires 1 <= m <= 12
    ensures |TwoDigits(m)| == 2 && Text.AllDigits(TwoDigits(m))
    ensures Text.DigitsValue(TwoDigits(m)) == m
  {
    var s := Text.NatToString(m);
    Text.DigitsValueOfNatToString(m);
    if m < 10 {
      assert s == [Text.DigitChar(m)];
      assert TwoDigits(m) == ['0'] + s;
      assert TwoDigits(m)[..1] == ['0'];
    } else {
      assert s == [Text.DigitChar(1), Text.DigitChar(m - 10)];
      assert TwoDigits(m) == s;
    }
  }

  /** The month number that `strptime(key, '%Y-%m')` reads back from a month key. */
  function KeyMonth(key: string): int {
    if |key| >= 2 && Text.AllDigits(key[|key| - 2..]) then Text.DigitsValue(key[|key| - 2..]) else 0
  }

  /** Parsing a month key recovers the month it was rendered from. */
  lemma KeyMonthOfFormatMonth(d: Date)
    requires 1 <= d.month <= 12
    ensures KeyMonth(FormatMonth(d)) == d.month
  {
    var k := FormatMonth(d);
    TwoDigitsOfMonth(d.month);
    assert k[|k| - 2..] == TwoDigits(d.month);
  }

  lemma DigitsValueOfZeroPadded(s: string)
    requires Text.AllDigits(s)
    ensures Text.AllDigits(['0'] + s)
    ensures Text.DigitsValue(['0'] + s) == Text.DigitsValue(s)
    decreases |s|
  {
    if |s| > 0 {
      var t := ['0'] + s;
      assert t[..|t| - 1] == ['0'] + s[..|s| - 1];
      DigitsValueOfZeroPadded(s[..|s| - 1]);
    }
  }

  lemma DigitsValueOfPadLeft(s: string, width: nat)
    requires Text.AllDigits(s)
    ensures Text.AllDigits(Text.PadLeft(s, width, '0'))
    ensures Text.DigitsValue(Text.PadLeft(s, width, '0')) == Text.DigitsValue(s)
    decreases width - |s|
  {
    if |s| < width {
      DigitsValueOfZeroPadded(s);
      DigitsValueOfPadLeft(['0'] + s, width);
    }
  }

  lemma YearTextInjective(a: int, b: int)
    requires a >= 0 && b >= 0
    requires YearText(a) == YearText(b)
    ensures a == b
  {
    DigitsValueOfPadLeft(Text.NatToString(a), 4);
    DigitsValueOfPadLeft(Text.NatToString(b), 4);
    Text.DigitsValueOfNatToString(a);
    Text.DigitsValueOfNatToString(b);
  }

  /** Distinct calendar months (from year 0 on) have distinct `%Y-%m` keys. */
  lemma FormatMonthInjective(a: Date, b: Date)
    requires 1 <= a.month <= 12 && 1 <= b.month <= 12
    requires a.year >= 0 && b.year >= 0
    requires FormatMonth(a) == FormatMonth(b)
    ensures a.year == b.year && a.month == b.month
  {
    TwoDigitsOfMonth(a.month);
    TwoDigitsOfMonth(b.month);
    DashJoinCancel(YearText(a.year), TwoDigits(a.month), YearText(b.year), TwoDigits(b.month));
    YearTextInjective(a.year, b.year);
  }

  /** Two texts joined by a dash split back apart when their right parts have equal length. */
  lemma DashJoinCancel(x1: string, y1: string, x2: string, y2: string)
    requires x1 + "-" + y1 == x2 + "-" + y2 && |y1| == |y2|
    ensures x1 == x2 && y1 == y2
  {
    var s := x1 + "-" + y1;
    assert |x1| == |x2|;
    assert x1 == s[..|x1|];
    assert x2 == s[..|x2|];
    assert y1 == s[|x1| + 1..];
    assert y2 == s[|x2| + 1..];
  }
}
