/**
 * The `time_period` keywords of `fetch_specific_data_for_llm_analysis`
 * (backend/insight_module.py) turned into WHERE conditions and their bound
 * parameters. The current date is an input; whether pandas accepts a date
 * string is an input predicate.
 */
module TimeWindow {

  import opened Wrappers
  import opened Calendar
  import Text
  import Json
  import Sql

  /** An inclusive range of calendar days. */
  datatype Window = Window(start: Date, end: Date)

  predicate InWindow(x: Date, w: Window) {
    NotAfter(w.start, x) && NotAfter(x, w.end)
  }

  /** The days from the 1st of month `m1` through the last day of month `m2`, in year `y`. */
  function MonthRange(y: int, m1: int, m2: int): (w: Window)
    requires 1 <= m1 <= m2 <= 12
    ensures Valid(w.start) && Valid(w.end)
  {
    Window(Date(y, m1, 1), LastOfMonth(Date(y, m2, 1)))
  }

  lemma MonthRangeContents(y: int, m1: int, m2: int, x: Date)
    requires 1 <= m1 <= m2 <= 12 && Valid(x)
    ensures InWindow(x, MonthRange(y, m1, m2)) <==> x.year == y && m1 <= x.month <= m2
  {
  }

  // ---------------------------------------------------------------------------
  // The windows
  // ---------------------------------------------------------------------------

  /**
   * `this_month` as the source computes it: from the 1st of the month to
   * `today + DateOffset(months=1, days=-1)` (months are added first, then the
   * day is subtracted).
   */
  function ThisMonthAsWritten(today: Date): (w: Window)
    requires Valid(today)
    ensures Valid(w.start) && Valid(w.end)
    ensures w.start == FirstOfMonth(today)
  {
    Window(FirstOfMonth(today), PrevDay(AddMonths(today, 1)))
  }

  /** `this_month` as intended: the whole current calendar month. */
  function ThisMonth(today: Date): (w: Window)
    requires Valid(today)
    ensures Valid(w.start) && Valid(w.end)
  {
    MonthRange(today.year, today.month, today.month)
  }

  /** `last_month`: the 1st of the month a month ago through the day before the 1st of this month. */
  function LastMonth(today: Date): (w: Window)
    requires Valid(today)
    ensures Valid(w.start) && Valid(w.end)
  {
    Window(FirstOfMonth(AddMonths(today, -1)), PrevDay(FirstOfMonth(today)))
  }

  /** Months `(q-1)*3+1` through `q*3` of year `y`, ending on the last day of the latter. */
  function QuarterWindow(y: int, q: int): (w: Window)
    requires 1 <= q <= 4
    ensures Valid(w.start) && Valid(w.end)
  {
    MonthRange(y, (q - 1) * 3 + 1, q * 3)
  }

  function ThisQuarter(today: Date): (w: Window)
    requires Valid(today)
    ensures Valid(w.start) && Valid(w.end)
  {
    QuarterWindow(today.year, Quarter(today))
  }

  /** `last_quarter`: the quarter of the date three months before today. */
  function LastQuarter(today: Date): (w: Window)
    requires Valid(today)
    ensures Valid(w.start) && Valid(w.end)
  {
    var d := AddMonths(today, -3);
    QuarterWindow(d.year, Quarter(d))
  }

  // ---------------------------------------------------------------------------
  // What each window contains
  // ---------------------------------------------------------------------------

  /** The intended `this_month` window holds exactly the days of today's month. */
  lemma ThisMonthContents(today: Date, x: Date)
    requires Valid(today) && Valid(x)
    ensures InWindow(x, ThisMonth(today)) <==> MonthIndex(x) == MonthIndex(today)
  {
    MonthRangeContents(today.year, today.month, today.month, x);
    if MonthIndex(x) == MonthIndex(today) {
      MonthIndexInjective(x, today);
    }
  }

  /**
   * The window the source builds for `this_month` agrees with the calendar
   * month only when today is the 1st; on any other day it runs into the
   * next month.
   */
  lemma ThisMonthAsWrittenOverruns(today: Date)
    requires Valid(today)
    ensures ThisMonthAsWritten(today) == ThisMonth(today) <==> today.day == 1
    ensures today.day > 1 ==> MonthIndex(ThisMonthAsWritten(today).end) == MonthIndex(today) + 1
  {
    var n := AddMonths(today, 1);
    var w := ThisMonthAsWritten(today);
    if today.day == 1 {
      assert n.day == 1;
      var p := PrevDay(n);
      if n.month > 1 {
        MonthIndexInjective(Date(n.year, n.month - 1, 1), today);
      } else {
        MonthIndexInjective(Date(n.year - 1, 12, 1), today);
      }
      assert p == LastOfMonth(Date(today.year, today.month, 1));
    } else {
      assert n.day >= 2;
      assert w.end == Date(n.year, n.month, n.day - 1);
      assert MonthIndex(w.end) != MonthIndex(today);
    }
  }

  /** A concrete instance: on 15 January 2025 the window ends on 14 February. */
  lemma ThisMonthAsWrittenExample()
    ensures ThisMonthAsWritten(Date(2025, 1, 15)).end == Date(2025, 2, 14)
  {
  }

  /** `last_month` holds exactly the days of the previous calendar month. */
  lemma LastMonthContents(today: Date, x: Date)
    requires Valid(today) && Valid(x)
    ensures InWindow(x, LastMonth(today)) <==> MonthIndex(x) == MonthIndex(today) - 1
  {
    var p := AddMonths(today, -1);
    var w := LastMonth(today);
    assert w.end == LastOfMonth(Date(p.year, p.month, 1)) by {
      if today.month > 1 {
        MonthIndexInjective(p, Date(today.year, today.month - 1, 1));
      } else {
        MonthIndexInjective(p, Date(today.year - 1, 12, 1));
      }
    }
    assert w == MonthRange(p.year, p.month, p.month);
    MonthRangeContents(p.year, p.month, p.month, x);
    if MonthIndex(x) == MonthIndex(today) - 1 {
      MonthIndexInjective(x, p);
    }
  }

  lemma QuarterIndexOfMonthIndex(d: Date)
    requires 1 <= d.month <= 12
    ensures QuarterIndex(d) == MonthIndex(d) / 3
  {
    var k := d.month - 1;
    assert MonthIndex(d) == 3 * (d.year * 4) + k;
    assert (3 * (d.year * 4) + k) / 3 == d.year * 4 + k / 3;
  }

  lemma QuarterWindowContents(y: int, q: int, x: Date)
    requires 1 <= q <= 4 && Valid(x)
    ensures InWindow(x, QuarterWindow(y, q)) <==> QuarterIndex(x) == y * 4 + q - 1
  {
    MonthRangeContents(y, (q - 1) * 3 + 1, q * 3, x);
    if QuarterIndex(x) == y * 4 + q - 1 {
      assert x.year * 4 + (x.month - 1) / 3 == y * 4 + (q - 1);
      assert 0 <= (x.month - 1) / 3 < 4;
      assert x.year == y;
    }
  }

  /** `this_quarter` holds exactly the days of today's quarter. */
  lemma ThisQuarterContents(today: Date, x: Date)
    requires Valid(today) && Valid(x)
    ensures InWindow(x, ThisQuarter(today)) <==> QuarterIndex(x) == QuarterIndex(today)
  {
    QuarterWindowContents(today.year, Quarter(today), x);
  }

  /** `last_quarter` holds exactly the days of the quarter before today's. */
  lemma LastQuarterContents(today: Date, x: Date)
    requires Valid(today) && Valid(x)
    ensures InWindow(x, LastQuarter(today)) <==> QuarterIndex(x) == QuarterIndex(today) - 1
  {
    var d := AddMonths(today, -3);
    QuarterWindowContents(d.year, Quarter(d), x);
    QuarterIndexOfMonthIndex(d);
    QuarterIndexOfMonthIndex(today);
    assert MonthIndex(d) == MonthIndex(today) - 3;
    assert (MonthIndex(today) - 3) / 3 == MonthIndex(today) / 3 - 1;
  }

  // ---------------------------------------------------------------------------
  // From the `time_period` value to a WHERE condition
  // ---------------------------------------------------------------------------

  /** What a `time_period` contributes: nothing, one condition with its parameters, or an exception. */
  datatype TimeFilter =
    | NoFilter
    | Filter(cond: Sql.Cond, params: seq<Json.Value>)
    | Raises

  function BetweenFilter(w: Window): TimeFilter {
    Filter(Sql.DateBetween, [Json.Str(Format(w.start)), Json.Str(Format(w.end))])
  }

  /**
   * `"a to b"` with exactly one separator and two dates pandas accepts; a
   * `ValueError` from either the unpacking or the parse is logged and ignored.
   */
  function RangeFilter(s: string, parses: string -> bool): (r: TimeFilter)
    ensures r != Raises
  {
    var parts := Text.Split(s, " to ");
    if |parts| == 2 && parses(parts[0]) && parses(parts[1]) then
      Filter(Sql.DateBetween, [Json.Str(parts[0]), Json.Str(parts[1])])
    else NoFilter
  }

  /** The window a date keyword names, as written; `None` for every other string. */
  function KeywordWindow(s: string, today: Date): (r: Option<Window>)
    requires Valid(today)
    ensures s == "this_month" ==> r == Some(ThisMonthAsWritten(today))
    ensures s == "last_month" ==> r == Some(LastMonth(today))
    ensures s == "this_quarter" ==> r == Some(ThisQuarter(today))
    ensures s == "last_quarter" ==> r == Some(LastQuarter(today))
    ensures r.Some? <==> s in {"this_month", "last_month", "this_quarter", "last_quarter"}
  {
    KeywordLiterals();
    if s == "this_month" then Some(ThisMonthAsWritten(today))
    else if s == "last_month" then Some(LastMonth(today))
    else if s == "this_quarter" then Some(ThisQuarter(today))
    else if s == "last_quarter" then Some(LastQuarter(today))
    else None
  }

  /** The string keywords, tried in the order the source tests them. */
  function KeywordFilter(s: string, today: Date, parses: string -> bool): (r: TimeFilter)
    requires Valid(today)
  {
    if KeywordWindow(s, today).Some? then BetweenFilter(KeywordWindow(s, today).value)
    else if s == "ytd" then Filter(Sql.YearEquals, [Json.Str(Text.IntToString(today.year))])
    else if Text.Contains(s, " to ") then RangeFilter(s, parses)
    else NoFilter   // "all_time" and unsupported keywords
  }

  /** The keywords as intended: `this_month` binds the whole calendar month; everything else is unchanged. */
  function IntendedKeywordFilter(s: string, today: Date, parses: string -> bool): (r: TimeFilter)
    requires Valid(today)
    ensures s != "this_month" ==> r == KeywordFilter(s, today, parses)
  {
    if s == "this_month" then BetweenFilter(ThisMonth(today)) else KeywordFilter(s, today, parses)
  }

  /** A string without a space is never read as a range; no keyword of the source has one. */
  lemma WordIsNotRange(s: string)
    requires ' ' !in s
    ensures !Text.Contains(s, " to ")
  {
    forall j | 0 <= j && j + 4 <= |s|
      ensures !Text.OccursAt(s, " to ", j)
    {
      assert s[j..j + 4][0] == s[j];
    }
  }

  /** Facts about the keyword literals that the keyword chain needs. */
  lemma KeywordLiterals()
    ensures "last_month" != "this_month"
    ensures "this_quarter" !in {"this_month", "last_month"}
    ensures "last_quarter" !in {"this_month", "last_month", "this_quarter"}
    ensures "ytd" !in {"this_month", "last_month", "this_quarter", "last_quarter"}
    ensures "all_time" !in {"this_month", "last_month", "this_quarter", "last_quarter", "ytd"}
    ensures !Text.Contains("all_time", " to ")
  {
    assert "last_month"[0] != "this_month"[0];
    assert "last_quarter"[0] != "this_quarter"[0];
    WordIsNotRange("all_time");
  }

  /**
   * The filter for any decoded `time_period` value. A falsy value adds
   * nothing. A non-string value equals no keyword; `" to " in v` then raises
   * for numbers and booleans, and for a list holding `" to "` or a dict with
   * that key the following `.split` raises.
   */
  function TimePeriodFilter(v: Json.Value, today: Date, parses: string -> bool): (r: TimeFilter)
    requires Valid(today)
    ensures r.Filter? ==> |r.params| == Sql.Arity(r.cond) && !r.cond.ColumnEquals?
    ensures r.Raises? ==> !v.Str?
    ensures !Json.PyTruthy(v) ==> r == NoFilter
    ensures v.Str? && KeywordWindow(v.s, today).Some? ==> r == BetweenFilter(KeywordWindow(v.s, today).value)
  {
    if !Json.PyTruthy(v) then NoFilter
    else
      match v
      case Str(s) => KeywordFilter(s, today, parses)
      case Num(_) => Raises
      case Bool(_) => Raises
      case Arr(xs) => if Json.Str(" to ") in xs then Raises else NoFilter
      case Obj(m) => if " to " in m then Raises else NoFilter
      case Null => NoFilter
  }

  /** `ytd` filters on today's year and `all_time` adds nothing. */
  lemma YearKeywords(today: Date, parses: string -> bool)
    requires Valid(today)
    ensures TimePeriodFilter(Json.Str("ytd"), today, parses)
      == Filter(Sql.YearEquals, [Json.Str(Text.IntToString(today.year))])
    ensures TimePeriodFilter(Json.Str("all_time"), today, parses) == NoFilter
  {
    KeywordLiterals();
  }

  /** Which strings yield a condition: the five keywords and well-formed ranges; nothing else. */
  lemma TimePeriodRecognised(s: string, today: Date, parses: string -> bool)
    requires Valid(today)
    ensures TimePeriodFilter(Json.Str(s), today, parses).Filter? <==>
      (s in {"this_month", "last_month", "this_quarter", "last_quarter", "ytd"}
       || (Text.Contains(s, " to ") && |Text.Split(s, " to ")| == 2
           && parses(Text.Split(s, " to ")[0]) && parses(Text.Split(s, " to ")[1])))
  {
    var keywords := {"this_month", "last_month", "this_quarter", "last_quarter", "ytd"};
    if s == "" {
      assert s !in keywords;
      assert Text.Find(s, " to ").None?;
    } else if s in keywords {
      assert TimePeriodFilter(Json.Str(s), today, parses) == KeywordFilter(s, today, parses);
    } else {
      assert TimePeriodFilter(Json.Str(s), today, parses) == KeywordFilter(s, today, parses);
      assert KeywordFilter(s, today, parses) == (if Text.Contains(s, " to ") then RangeFilter(s, parses) else NoFilter);
    }
  }
}
