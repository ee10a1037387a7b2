/**
 * The dashboard page (client/src/pages/Dashboard.jsx): fetching the three
 * feeds, choosing what to show, the pie palette, the average order value
 * and its currency guard.
 */
module DashboardView {

  import opened Wrappers
  import opened Js
  import Json
  import Calendar
  import DashboardData

  // ---------------------------------------------------------------------------
  // Fetching
  // ---------------------------------------------------------------------------

  /** The three feeds as the page keeps them. */
  datatype Feeds = Feeds(summary: JsVal, salesTrend: JsVal, inventory: JsVal)

  datatype PageState = PageState(data: Option<Feeds>, loading: bool, error: Option<string>)

  const NoPhone: string := "User phone number not found. Please log in."
  const LoadFailed: string := "Failed to load dashboard data. Please try again."

  /** The page after a refresh, and how many requests it sent. */
  datatype Refresh = Refresh(state: PageState, requests: nat)

  /**
   * `fetchDashboardData`: the summary, trend and inventory requests run one
   * after another; the first that fails (no answer, a body that is not JSON,
   * a status that is not OK) stops the rest and clears the data.
   */
  function FetchDashboard(st: PageState, phone: JsVal, summary: Fetch, trend: Fetch, inventory: Fetch): (r: Refresh)
    ensures !r.state.loading
    ensures !Truthy(phone) ==> r == Refresh(PageState(st.data, false, Some(NoPhone)), 0)
    ensures Truthy(phone) ==> (r.requests ==
      if !Succeeded(summary) then 1 else if !Succeeded(trend) then 2 else 3)
    ensures r.state.error.None? <==> Truthy(phone) && Succeeded(summary) && Succeeded(trend) && Succeeded(inventory)
    ensures r.state.error.None? ==>
      r.state.data == Some(Feeds(summary.body.value, trend.body.value, inventory.body.value))
    ensures Truthy(phone) && r.state.error.Some? ==> r.state.data.None? && r.state.error == Some(LoadFailed)
  {
    if !Truthy(phone) then Refresh(PageState(st.data, false, Some(NoPhone)), 0)
    else if !Succeeded(summary) then Refresh(PageState(None, false, Some(LoadFailed)), 1)
    else if !Succeeded(trend) then Refresh(PageState(None, false, Some(LoadFailed)), 2)
    else if !Succeeded(inventory) then Refresh(PageState(None, false, Some(LoadFailed)), 3)
    else Refresh(PageState(Some(Feeds(summary.body.value, trend.body.value, inventory.body.value)), false, None), 3)
  }

  /** A failure never leaves stale figures behind, and no request follows the first failure. */
  lemma FailureClearsData(st: PageState, phone: JsVal, summary: Fetch, trend: Fetch, inventory: Fetch)
    requires Truthy(phone) && !Succeeded(summary)
    ensures FetchDashboard(st, phone, summary, trend, inventory)
      == Refresh(PageState(None, false, Some(LoadFailed)), 1)
  {
  }

  // ---------------------------------------------------------------------------
  // What the page shows
  // ---------------------------------------------------------------------------

  /** `RenderCrash` is the `TypeError` the full dashboard's render throws: React unmounts the page. */
  datatype Screen = Spinner | ErrorScreen(message: string) | NoDataScreen | FullDashboard | RenderCrash

  /** The no-data test as written: only falsy feeds count, and `[]` and `{}` are truthy. */
  predicate NoDataAsWritten(data: Option<Feeds>) {
    data.None? || !Truthy(data.value.summary) || !Truthy(data.value.salesTrend) || !Truthy(data.value.inventory)
  }

  /** A feed with nothing in it: falsy, or an empty array or object. */
  predicate Blank(v: JsVal) {
    !Truthy(v) || v == JArr([]) || v == JObj(map[])
  }

  /** The no-data test as intended: an empty feed counts as missing. */
  predicate NoData(data: Option<Feeds>) {
    data.None? || Blank(data.value.summary) || Blank(data.value.salesTrend) || Blank(data.value.inventory)
  }

  /**
   * The full dashboard's render throws when `summary.totalOrders` is
   * `undefined` or `null` (its `.toLocaleString()` is called) or when the
   * inventory feed is not an array (its `.map` is called).
   */
  predicate RenderThrows(f: Feeds) {
    Prop(f.summary, "totalOrders") in {None, Some(JUndefined), Some(JNull)} || !f.inventory.JArr?
  }

  /** The page's guards in order: loading, a non-empty error, the no-data test, then the full render. */
  function ScreenOf(st: PageState, noData: Option<Feeds> -> bool): (r: Screen)
    ensures r == Spinner <==> st.loading
    ensures r.ErrorScreen? <==> !st.loading && st.error.Some? && st.error.value != ""
    ensures r.ErrorScreen? ==> r.message == st.error.value
    ensures r == NoDataScreen <==> !st.loading && (st.error.None? || st.error.value == "") && noData(st.data)
    ensures r == RenderCrash <==>
      !st.loading && (st.error.None? || st.error.value == "") && !noData(st.data)
      && (st.data.None? || RenderThrows(st.data.value))
  {
    if st.loading then Spinner
    else if st.error.Some? && st.error.value != "" then ErrorScreen(st.error.value)
    else if noData(st.data) then NoDataScreen
    else if st.data.None? || RenderThrows(st.data.value) then RenderCrash
    else FullDashboard
  }

  /** The page as written: with no error showing, the no-data screen appears exactly when a feed is falsy. */
  function ScreenAsWritten(st: PageState): (r: Screen)
    ensures !st.loading && (st.error.None? || st.error.value == "") ==>
      (r == NoDataScreen <==> NoDataAsWritten(st.data))
    ensures r == RenderCrash <==>
      !st.loading && (st.error.None? || st.error.value == "") && !NoDataAsWritten(st.data)
      && RenderThrows(st.data.value)
    ensures r == FullDashboard ==> st.data.Some? && !NoDataAsWritten(st.data) && !RenderThrows(st.data.value)
  {
    ScreenOf(st, NoDataAsWritten)
  }

  /** The page as intended: the full dashboard only over three non-empty feeds it can render. */
  function ScreenShown(st: PageState): (r: Screen)
    ensures !st.loading && (st.error.None? || st.error.value == "") ==>
      (r == NoDataScreen <==> NoData(st.data))
    ensures r == FullDashboard ==> (st.data.Some? && !Blank(st.data.value.summary)
      && !Blank(st.data.value.salesTrend) && !Blank(st.data.value.inventory) && !RenderThrows(st.data.value))
  {
    ScreenOf(st, NoData)
  }

  /** The two tests differ only on empty arrays and objects. */
  lemma NoDataAgrees(data: Option<Feeds>)
    requires data.Some? ==> forall v :: v in [data.value.summary, data.value.salesTrend, data.value.inventory] ==>
      v != JArr([]) && v != JObj(map[])
    ensures NoDataAsWritten(data) == NoData(data)
  {
    if data.Some? {
      assert data.value.summary in [data.value.summary, data.value.salesTrend, data.value.inventory];
      assert data.value.salesTrend in [data.value.summary, data.value.salesTrend, data.value.inventory];
      assert data.value.inventory in [data.value.summary, data.value.salesTrend, data.value.inventory];
    }
  }

  /**
   * Without a database the backend answers a summary of zeros and two empty
   * lists; the page as written shows the full dashboard over them, while the
   * intended test shows the no-data screen.
   */
  lemma NoDatabaseDashboard(today: Calendar.Date, sums: Option<map<string, real>>, groups: Option<seq<DashboardData.StockRow>>,
                            q: Option<DashboardData.SummaryQueries>, st: PageState, phone: JsVal)
    requires Calendar.Valid(today) && Truthy(phone)
    ensures DashboardData.SalesTrend(false, today, sums) == [] && DashboardData.Inventory(false, groups) == []
    ensures var summary := Answered(true, Some(FromJson(DashboardData.Summary(false, q))));
      var empty := Answered(true, Some(FromJson(Json.Arr([]))));
      var page := FetchDashboard(st, phone, summary, empty, empty).state;
      ScreenAsWritten(page) == FullDashboard && ScreenShown(page) == NoDataScreen
  {
    var summary := FromJson(DashboardData.Summary(false, q));
    assert summary.JObj?;
    assert summary.fields["totalOrders"] == JNum(Finite(0.0));
    assert FromJson(Json.Arr([])) == JArr([]);
  }

  /**
   * When SQLite raises, the summary feed is `{}` with status 200 and the
   * other two feeds are `[]`. The page as written passes the no-data test
   * and then throws on `summary.totalOrders.toLocaleString()`; the intended
   * test shows the no-data screen.
   */
  lemma DatabaseErrorDashboard(today: Calendar.Date, st: PageState, phone: JsVal)
    requires Calendar.Valid(today) && Truthy(phone)
    ensures DashboardData.Summary(true, None) == Json.Obj(map[])
    ensures DashboardData.SalesTrend(true, today, None) == [] && DashboardData.Inventory(true, None) == []
    ensures var summary := Answered(true, Some(FromJson(DashboardData.Summary(true, None))));
      var empty := Answered(true, Some(FromJson(Json.Arr([]))));
      var page := FetchDashboard(st, phone, summary, empty, empty).state;
      ScreenAsWritten(page) == RenderCrash && ScreenShown(page) == NoDataScreen
  {
    var summary := FromJson(DashboardData.Summary(true, None));
    assert summary == JObj(map[]);
    assert FromJson(Json.Arr([])) == JArr([]);
  }

  // ---------------------------------------------------------------------------
  // Figures
  // ---------------------------------------------------------------------------

  const Colors: seq<string> := ["#4285F4", "#34A853", "#FBBC05", "#EA4335", "#9C27B0", "#FF5722", "#607D8B", "#795548"]

  /** `COLORS[index % COLORS.length]` */
  function SliceColor(index: nat): (r: string)
    ensures r in Colors
  {
    Colors[index % |Colors|]
  }

  /** The palette repeats every eight slices. */
  lemma SliceColorCycles(index: nat)
    ensures SliceColor(index + |Colors|) == SliceColor(index)
  {
  }

  lemma ColorsDistinct(a: nat, b: nat)
    requires a < b < |Colors|
    ensures Colors[a] != Colors[b]
  {
    assert Colors[a][1] != Colors[b][1] || Colors[a][2] != Colors[b][2];
  }

  /** Eight consecutive slices never share a colour; the inventory pie (at most five slices) never does. */
  lemma SliceColorsDistinct(i: nat, j: nat)
    requires i < j < i + |Colors|
    ensures SliceColor(i) != SliceColor(j)
  {
    var q, r := i / 8, i % 8;
    assert i == 8 * q + r;
    assert j == 8 * q + (r + (j - i));
    if r + (j - i) < 8 {
      assert j % 8 == r + (j - i);
      ColorsDistinct(r, r + (j - i));
    } else {
      assert j == 8 * (q + 1) + (r + (j - i) - 8);
      assert j % 8 == r + (j - i) - 8;
      ColorsDistinct(r + (j - i) - 8, r);
    }
  }

  lemma InventoryPieDistinct(groups: seq<DashboardData.StockRow>, i: nat, j: nat)
    requires i < j < |DashboardData.Inventory(true, Some(groups))|
    ensures SliceColor(i) != SliceColor(j)
  {
    SliceColorsDistinct(i, j);
  }

  /** `summary.totalSales / (summary.totalOrders || 1)`; the page reaches it only with a truthy summary. */
  function AverageOrder(summary: JsVal, stringToNumber: string -> Option<real>): (r: JsNumber)
    requires Truthy(summary)
    ensures var orders := Prop(summary, "totalOrders").value;
      var sales := ToNumber(Prop(summary, "totalSales").value, stringToNumber);
      !Truthy(orders) ==> r == sales
  {
    var sales := ToNumber(Prop(summary, "totalSales").value, stringToNumber);
    var orders := Or(Prop(summary, "totalOrders").value, JNum(Finite(1.0)));
    Divide(sales, ToNumber(orders, stringToNumber))
  }

  /** A backend summary with orders gives sales per order; with none, the sales total itself. */
  lemma AverageOfBackendSummary(q: DashboardData.SummaryQueries, stringToNumber: string -> Option<real>)
    ensures var summary := FromJson(DashboardData.Summary(true, Some(q)));
      var sales := DashboardData.OrZero(q.totalSales);
      var orders := DashboardData.OrZeroInt(q.totalOrders);
      Truthy(summary)
      && AverageOrder(summary, stringToNumber)
         == (if orders != 0 then Finite(sales / orders as real) else Finite(sales))
  {
    var summary := FromJson(DashboardData.Summary(true, Some(q)));
    assert "totalOrders" in summary.fields;
  }

  /**
   * An empty summary object divides `undefined` by 1: NaN. The page never
   * shows this value, since its render throws earlier (`DatabaseErrorDashboard`).
   */
  lemma AverageOfEmptySummary(stringToNumber: string -> Option<real>)
    ensures AverageOrder(JObj(map[]), stringToNumber) == NaN
  {
  }

  /** `formatCurrency`: anything but a number reads "₹0"; `intl` is `Intl.NumberFormat`. */
  function FormatCurrency(amount: JsVal, intl: JsNumber -> string): (r: string)
    ensures !amount.JNum? ==> r == "₹0"
    ensures amount.JNum? ==> r == intl(amount.n)
  {
    if !amount.JNum? then "₹0" else intl(amount.n)
  }

  /** The guard never applies to the average card: NaN is a number, so it is formatted, not replaced by "₹0". */
  lemma AverageCardFormatted(summary: JsVal, stringToNumber: string -> Option<real>, intl: JsNumber -> string)
    requires Truthy(summary)
    ensures FormatCurrency(JNum(AverageOrder(summary, stringToNumber)), intl) == intl(AverageOrder(summary, stringToNumber))
  {
  }
}
