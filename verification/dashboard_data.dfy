/**
 * The three dashboard feeds of backend/dashboard_data_module.py: the
 * summary figures, the seven-month sales trend and the inventory pie. The
 * SQL results are inputs (`None` when the database raised); the current
 * date is an input.
 */
module DashboardData {

  import opened Wrappers
  import opened Json
  import opened Calendar

  // ---------------------------------------------------------------------------
  // Summary
  // ---------------------------------------------------------------------------

  /** The single-value queries; `None` is SQL NULL (an empty table). */
  datatype SummaryQueries = SummaryQueries(
    totalSales: Option<real>,
    totalOrders: Option<int>,
    inventoryValue: Option<real>,
    lowStockItems: Option<int>,
    topRow: Option<Value>)   // the item of the best-selling group; `None` when there is no group

  function SummaryObject(totalSales: real, totalOrders: int, inventoryValue: real, lowStock: int, top: Value): Value {
    Obj(map[
      "totalSales" := Num(totalSales),
      "totalOrders" := Num(totalOrders as real),
      "inventoryValue" := Num(inventoryValue),
      "lowStockItems" := Num(lowStock as real),
      "customerGrowth" := Num(0.0),
      "topSelling" := top])
  }

  /** Without a database every figure is zero and the top seller is "N/A". */
  function DefaultSummary(): Value {
    SummaryObject(0.0, 0, 0.0, 0, Str("N/A"))
  }

  /** `x or 0`: NULL reads as zero, any number (zero included) passes through. */
  function OrZero(x: Option<real>): (r: real)
    ensures x.Some? ==> r == x.value
    ensures x.None? ==> r == 0.0
  {
    match x
    case None => 0.0
    case Some(v) => if v != 0.0 then v else 0.0
  }

  function OrZeroInt(x: Option<int>): (r: int)
    ensures x.None? ==> r == 0
    ensures x.Some? ==> r == x.value
  {
    match x
    case None => 0
    case Some(v) => if v != 0 then v else 0
  }

  /** `get_dashboard_summary`; `queries` is `None` when SQLite raised, which yields `{}`. */
  function Summary(dbExists: bool, queries: Option<SummaryQueries>): (r: Value)
    ensures r.Obj?
    ensures !dbExists ==> r == DefaultSummary()
    ensures dbExists && queries.None? ==> r == Obj(map[])
    ensures dbExists && queries.Some? ==>
      "topSelling" in r.fields
      && (r.fields["topSelling"] == Str("N/A") <== queries.value.topRow.None?)
      && (queries.value.topRow.Some? ==> r.fields["topSelling"] == queries.value.topRow.value)
    // with a database and no exception: exactly the six keys, each figure passed through with NULL read as zero
    ensures dbExists && queries.Some? ==>
      r.fields.Keys == {"totalSales", "totalOrders", "inventoryValue", "lowStockItems", "customerGrowth", "topSelling"}
    ensures dbExists && queries.Some? ==>
      r.fields["totalSales"] == Num(queries.value.totalSales.GetOr(0.0))
      && r.fields["totalOrders"] == Num(queries.value.totalOrders.GetOr(0) as real)
      && r.fields["inventoryValue"] == Num(queries.value.inventoryValue.GetOr(0.0))
      && r.fields["lowStockItems"] == Num(queries.value.lowStockItems.GetOr(0) as real)
      && r.fields["customerGrowth"] == Num(0.0)
  {
    if !dbExists then DefaultSummary()
    else
      match queries
      case None => Obj(map[])
      case Some(q) =>
        SummaryObject(OrZero(q.totalSales), OrZeroInt(q.totalOrders), OrZero(q.inventoryValue),
                      OrZeroInt(q.lowStockItems), if q.topRow.Some? then q.topRow.value else Str("N/A"))
  }

  /** An empty sales table (every aggregate NULL, no group) looks like a missing database. */
  lemma EmptyTableSummary()
    ensures Summary(true, Some(SummaryQueries(None, None, None, None, None))) == DefaultSummary()
  {
  }

  // ---------------------------------------------------------------------------
  // Sales trend
  // ---------------------------------------------------------------------------

  /** One point of the trend chart. */
  datatype TrendPoint = TrendPoint(name: string, sales: real, target: real)

  /**
   * The month keys as the source computes them: `today - 30*i` days for
   * `i = 0..6`, rendered `%Y-%m`, oldest first.
   */
  function TrendKeysAsWritten(today: Date): (r: seq<string>)
    requires Valid(today)
    ensures |r| == 7
    ensures r[6] == FormatMonth(today)
  {
    seq(7, i requires 0 <= i < 7 => FormatMonth(KeyDateAsWritten(today, i)))
  }

  /** The date behind key `i` as written: `30 * (6 - i)` days before today. */
  function KeyDateAsWritten(today: Date, i: int): (r: Date)
    requires Valid(today)
    ensures Valid(r)
  {
    AddDays(today, -30 * (6 - i))
  }

  /** The keys as intended: the current calendar month and the six before it, oldest first. */
  function TrendKeys(today: Date): (r: seq<string>)
    requires Valid(today)
    ensures |r| == 7
  {
    seq(7, i requires 0 <= i < 7 => FormatMonth(KeyDate(today, i)))
  }

  /** The date behind key `i` as intended: `6 - i` calendar months before today. */
  function KeyDate(today: Date, i: int): (r: Date)
    requires Valid(today)
    ensures Valid(r) && MonthIndex(r) == MonthIndex(today) - (6 - i)
  {
    AddMonths(today, i - 6)
  }

  /** Stepping back fewer days than today's day of month stays in the month. */
  lemma {:induction false} AddDaysWithinMonth(d: Date, n: nat)
    requires Valid(d) && n < d.day
    ensures AddDays(d, -(n as int)) == Date(d.year, d.month, d.day - n)
    decreases n
  {
    if n > 0 {
      var p := PrevDay(d);
      assert p == Date(d.year, d.month, d.day - 1);
      AddDaysWithinMonth(p, n - 1);
    }
  }

  /** On the 31st of a month, thirty days back is still the same month: its key appears twice. */
  lemma TrendKeysAsWrittenRepeat(today: Date)
    requires Valid(today) && today.day == 31
    ensures TrendKeysAsWritten(today)[5] == TrendKeysAsWritten(today)[6]
  {
    AddDaysWithinMonth(today, 30);
  }

  /** A concrete instance: on 31 March 2025 the last two keys are both "2025-03". */
  lemma TrendKeysAsWrittenExample()
    ensures TrendKeysAsWritten(Date(2025, 3, 31))[5] == TrendKeysAsWritten(Date(2025, 3, 31))[6]
  {
    TrendKeysAsWrittenRepeat(Date(2025, 3, 31));
  }

  /** The intended keys name seven consecutive calendar months ending with today's. */
  lemma TrendKeysConsecutive(today: Date, i: nat)
    requires Valid(today) && i < 7
    ensures var d := AddMonths(today, i - 6);
      TrendKeys(today)[i] == FormatMonth(d) && MonthIndex(d) == MonthIndex(today) - (6 - i)
  {
  }

  /** A valid date whose month index is not negative lies in year 0 or later. */
  lemma YearFromMonthIndex(d: Date)
    requires Valid(d) && MonthIndex(d) >= 0
    ensures d.year >= 0
  {
  }

  /** ... and so never repeat (for dates from year 1 on). */
  lemma TrendKeysDistinct(today: Date, i: nat, j: nat)
    requires Valid(today) && today.year >= 1 && i < j < 7
    ensures TrendKeys(today)[i] != TrendKeys(today)[j]
  {
    var a := AddMonths(today, i - 6);
    var b := AddMonths(today, j - 6);
    assert TrendKeys(today)[i] == FormatMonth(a);
    assert TrendKeys(today)[j] == FormatMonth(b);
    YearFromMonthIndex(a);
    YearFromMonthIndex(b);
    if FormatMonth(a) == FormatMonth(b) {
      FormatMonthInjective(a, b);
    }
  }

  /** Months are well formed: a `%Y-%m` key of a valid date. */
  predicate MonthKeys(keys: seq<string>) {
    forall i :: 0 <= i < |keys| ==> 1 <= KeyMonth(keys[i]) <= 12
  }

  lemma TrendKeysWellFormed(today: Date)
    requires Valid(today)
    ensures MonthKeys(TrendKeys(today))
  {
    forall i | 0 <= i < 7 ensures 1 <= KeyMonth(TrendKeys(today)[i]) <= 12 {
      KeyMonthOfFormatMonth(KeyDate(today, i));
    }
  }

  lemma TrendKeysAsWrittenWellFormed(today: Date)
    requires Valid(today)
    ensures MonthKeys(TrendKeysAsWritten(today))
  {
    forall i | 0 <= i < 7 ensures 1 <= KeyMonth(TrendKeysAsWritten(today)[i]) <= 12 {
      KeyMonthOfFormatMonth(KeyDateAsWritten(today, i));
    }
  }

  /**
   * The left merge of the keys with the grouped sums, zero-filled, each
   * point named by its month's abbreviation; the target is 110% of sales.
   */
  function TrendPoints(keys: seq<string>, sums: map<string, real>): (r: seq<TrendPoint>)
    requires MonthKeys(keys)
    ensures |r| == |keys|
    ensures forall i :: 0 <= i < |keys| ==> r[i].name == MonthAbbrev(KeyMonth(keys[i]))
    ensures forall i :: 0 <= i < |keys| ==> keys[i] !in sums ==> r[i].sales == 0.0
    ensures forall i :: 0 <= i < |keys| ==> keys[i] in sums ==> r[i].sales == sums[keys[i]]
  {
    seq(|keys|, i requires 0 <= i < |keys| =>
      var s := if keys[i] in sums then sums[keys[i]] else 0.0;
      TrendPoint(MonthAbbrev(KeyMonth(keys[i])), s, s * 11.0 / 10.0))
  }

  /** The point for a key rendered from date `d` is named after `d`'s month and carries that key's sum, or zero. */
  lemma PointOfKey(keys: seq<string>, sums: map<string, real>, i: nat, d: Date)
    requires MonthKeys(keys) && i < |keys| && 1 <= d.month <= 12 && keys[i] == FormatMonth(d)
    ensures TrendPoints(keys, sums)[i].name == MonthAbbrev(d.month)
    ensures TrendPoints(keys, sums)[i].sales == (if FormatMonth(d) in sums then sums[FormatMonth(d)] else 0.0)
    ensures TrendPoints(keys, sums)[i].target == TrendPoints(keys, sums)[i].sales * 11.0 / 10.0
  {
    KeyMonthOfFormatMonth(d);
  }

  /**
   * `get_sales_trend_data` as written: the keys step back 30 days at a time.
   * `sums` is `None` when SQLite raised.
   */
  function SalesTrend(dbExists: bool, today: Date, sums: Option<map<string, real>>): (r: seq<TrendPoint>)
    requires Valid(today)
    ensures !dbExists || sums.None? ==> r == []
    ensures dbExists && sums.Some? ==> |r| == 7
  {
    if !dbExists || sums.None? then []
    else
      TrendKeysAsWrittenWellFormed(today);
      TrendPoints(TrendKeysAsWritten(today), sums.value)
  }

  /**
   * Point `i` is named after the month of the date `30 * (6 - i)` days
   * before today and carries that month's sum, or zero.
   */
  lemma SalesTrendPoint(today: Date, sums: map<string, real>, i: nat)
    requires Valid(today) && i < 7
    ensures var d := AddDays(today, -30 * (6 - i));
      var p := SalesTrend(true, today, Some(sums))[i];
      p.name == MonthAbbrev(d.month)
      && p.sales == (if FormatMonth(d) in sums then sums[FormatMonth(d)] else 0.0)
      && p.target == p.sales * 11.0 / 10.0
  {
    var keys := TrendKeysAsWritten(today);
    TrendKeysAsWrittenWellFormed(today);
    assert SalesTrend(true, today, Some(sums)) == TrendPoints(keys, sums);
    PointOfKey(keys, sums, i, KeyDateAsWritten(today, i));
  }

  /**
   * On the 31st of a month the chart shows today's month twice, with the
   * same sum, and omits the month six calendar months back.
   */
  lemma SalesTrendRepeatsMonth(today: Date, sums: map<string, real>)
    requires Valid(today) && today.day == 31
    ensures SalesTrend(true, today, Some(sums))[5] == SalesTrend(true, today, Some(sums))[6]
  {
    TrendKeysAsWrittenRepeat(today);
    TrendKeysAsWrittenWellFormed(today);
    var keys := TrendKeysAsWritten(today);
    assert SalesTrend(true, today, Some(sums)) == TrendPoints(keys, sums);
  }

  /** The trend as intended: one point per calendar month, the current one and the six before it. */
  function SalesTrendIntended(dbExists: bool, today: Date, sums: Option<map<string, real>>): (r: seq<TrendPoint>)
    requires Valid(today)
    ensures !dbExists || sums.None? ==> r == []
    ensures dbExists && sums.Some? ==> |r| == 7
  {
    if !dbExists || sums.None? then []
    else
      TrendKeysWellFormed(today);
      TrendPoints(TrendKeys(today), sums.value)
  }

  /** Point `i` of the intended trend is named after the month `6 - i` months before today's, with that month's sum or zero. */
  lemma SalesTrendIntendedPoint(today: Date, sums: map<string, real>, i: nat)
    requires Valid(today) && i < 7
    ensures var d := AddMonths(today, i - 6);
      var p := SalesTrendIntended(true, today, Some(sums))[i];
      p.name == MonthAbbrev(d.month)
      && p.sales == (if FormatMonth(d) in sums then sums[FormatMonth(d)] else 0.0)
  {
    var keys := TrendKeys(today);
    TrendKeysWellFormed(today);
    assert SalesTrendIntended(true, today, Some(sums)) == TrendPoints(keys, sums);
    PointOfKey(keys, sums, i, KeyDate(today, i));
  }

  // ---------------------------------------------------------------------------
  // Inventory distribution
  // ---------------------------------------------------------------------------

  /** One group of the stock query: the item and its summed stock. */
  datatype StockRow = StockRow(item: Value, totalStock: Value)

  /** `{"name": item, "value": total_stock}` */
  function Slice(row: StockRow): (r: Value)
    ensures r.Obj? && r.fields.Keys == {"name", "value"}
    ensures r.fields["name"] == row.item && r.fields["value"] == row.totalStock
  {
    Obj(map["name" := row.item, "value" := row.totalStock])
  }

  /**
   * `get_inventory_distribution_data`: `groups` are the query's rows in its
   * order (largest stock first) before `LIMIT 5`; `None` when SQLite raised.
   */
  function Inventory(dbExists: bool, groups: Option<seq<StockRow>>): (r: seq<Value>)
    ensures !dbExists || groups.None? ==> r == []
    ensures dbExists && groups.Some? ==>
      |r| == (if |groups.value| < 5 then |groups.value| else 5)
      && forall i :: 0 <= i < |r| ==> r[i] == Slice(groups.value[i])
  {
    if !dbExists || groups.None? then []
    else
      var top := if |groups.value| < 5 then groups.value else groups.value[..5];
      seq(|top|, i requires 0 <= i < |top| => Slice(top[i]))
  }

  /** No slice carries the source's column names. */
  lemma InventoryRenamed(groups: seq<StockRow>, i: nat)
    requires i < |Inventory(true, Some(groups))|
    ensures "item" !in Inventory(true, Some(groups))[i].fields
    ensures "total_stock" !in Inventory(true, Some(groups))[i].fields
  {
  }
}
