/**
 * The post-processing of `get_dynamic_chart_data` (backend/app.py): which
 * returned column to sort by, the direction, and the `limit` truncation.
 * The frame `fetch_dynamic_chart_data` returned is an input.
 */
module ChartRoute {

  import opened Wrappers
  import opened Text
  import opened Json
  import opened Columns
  import opened RowSort

  /** A query result: its column names and its records. */
  datatype Frame = Frame(columns: seq<string>, rows: seq<Row>)

  /** `df.empty`: no columns or no rows. */
  predicate FrameEmpty(f: Frame) {
    |f.columns| == 0 || |f.rows| == 0
  }

  /** What the route answers. */
  datatype ChartResponse =
    | Records(rows: seq<Row>)
    | Rejected(status: nat, error: string)
    | Crashed   // an exception the route does not catch: Flask's own 500 response

  const PhoneRequired: string := "Phone number is required for chart data"
  const NoChartData: string := "No data available for charts."

  /** The first returned column equal to `name` ignoring case. */
  function MatchColumn(columns: seq<string>, name: string): (r: Option<string>)
    ensures r.Some? <==> exists i :: 0 <= i < |columns| && EqIgnoreCase(columns[i], name)
    ensures r.Some? ==> r.value in columns && EqIgnoreCase(r.value, name)
  {
    match FirstMatch(columns, name)
    case None => None
    case Some(i) => Some(columns[i])
  }

  /**
   * The sort column, or `None` when a `.lower()` on a non-string request
   * raises. A truthy `sort_by` is matched first; failing that a truthy
   * `y_axis` is matched, and `total_sales` overrides it for `price` summed.
   */
  function SortColumn(params: Dict, columns: seq<string>): (r: Option<Option<string>>)
    ensures r.Some? && r.value.Some? ==> r.value.value in columns
  {
    var sortBy := PyGet(params, "sort_by");
    if PyTruthy(sortBy) && !sortBy.Str? && |columns| > 0 then None
    else
      var first := if PyTruthy(sortBy) && sortBy.Str? then MatchColumn(columns, sortBy.s) else None;
      var yAxis := PyGet(params, "y_axis");
      if first.None? && PyTruthy(yAxis) then
        if !yAxis.Str? then None
        else if Lower(yAxis.s) == "price" && PyGet(params, "aggregation") == Str("sum") && "total_sales" in columns then
          Some(Some("total_sales"))
        else Some(MatchColumn(columns, yAxis.s))
      else Some(first)
  }

  /** `sort_order == "asc"`, with `"desc"` for a missing key. */
  function Ascending(params: Dict): (r: bool)
    ensures r <==> "sort_order" in params && params["sort_order"] == Str("asc")
  {
    PyGetOr(params, "sort_order", Str("desc")) == Str("asc")
  }

  function Min(a: nat, b: nat): nat {
    if a <= b then a else b
  }

  /**
   * `head(int(limit))` when the limit is present and not negative; a
   * string that is not an integer is ignored, a value `int` rejects with
   * `TypeError` raises (`None`).
   */
  function LimitRows(rows: seq<Row>, limit: Value): (r: Option<seq<Row>>)
    ensures r.None? <==> limit.Arr? || limit.Obj?
    ensures r.Some? ==> |r.value| <= |rows| && r.value == rows[..|r.value|]
    ensures r.Some? && PyInt(limit).Converted? && PyInt(limit).n >= 0 ==>
      |r.value| == Min(PyInt(limit).n, |rows|)
    ensures r.Some? && !(PyInt(limit).Converted? && PyInt(limit).n >= 0) ==> r.value == rows
  {
    if limit.Null? then Some(rows)
    else
      match PyInt(limit)
      case Converted(n) => if n >= 0 then Some(rows[..Min(n, |rows|)]) else Some(rows)
      case ValueErr => Some(rows)
      case TypeErr => None
  }

  /** The whole route once the request body is decoded and the frame fetched. */
  function ChartData(body: Value, fetched: Frame): (r: ChartResponse)
    ensures body.Obj? && !PyTruthy(PyGet(body.fields, "phone_number")) ==> r == Rejected(400, PhoneRequired)
    ensures body.Obj? && PyTruthy(PyGet(body.fields, "phone_number")) && FrameEmpty(fetched) ==>
      r == Rejected(500, NoChartData)
    ensures r.Rejected? ==> r.status in {400, 500}
    ensures r.Records? ==> multiset(r.rows) <= multiset(fetched.rows) && |r.rows| <= |fetched.rows|
  {
    if !body.Obj? then Crashed
    else
      var params := PyGetOr(body.fields, "chart_parameters", Obj(map[]));
      if !PyTruthy(PyGet(body.fields, "phone_number")) then Rejected(400, PhoneRequired)
      else if FrameEmpty(fetched) then Rejected(500, NoChartData)
      else if !params.Obj? then Crashed
      else
        match SortColumn(params.fields, fetched.columns)
        case None => Crashed
        case Some(col) =>
          if col.Some? && !Homogeneous(fetched.rows, col.value) then Crashed
          else
            var ordered := if col.Some? then SortRows(fetched.rows, col.value, Ascending(params.fields)) else fetched.rows;
            match LimitRows(ordered, PyGet(params.fields, "limit"))
            case None => Crashed
            case Some(out) =>
              assert multiset(out) <= multiset(ordered) by {
                assert ordered == out + ordered[|out|..];
              }
              Records(out)
  }

  // ---------------------------------------------------------------------------
  // Properties
  // ---------------------------------------------------------------------------

  /** A `sort_by` naming a returned column (in any case) picks the first such column. */
  lemma SortByWins(params: Dict, columns: seq<string>, i: nat)
    requires PyGet(params, "sort_by").Str? && PyGet(params, "sort_by").s != "" && i < |columns|
    requires EqIgnoreCase(columns[i], PyGet(params, "sort_by").s)
    requires forall j :: 0 <= j < i ==> !EqIgnoreCase(columns[j], PyGet(params, "sort_by").s)
    ensures SortColumn(params, columns) == Some(Some(columns[i]))
  {
    var s := PyGet(params, "sort_by").s;
    assert EqIgnoreCase(columns[i], s);
    assert FirstMatch(columns, s) == Some(i);
  }

  /**
   * Without a `sort_by`, or with one matching no returned column, a `price` y-axis summed sorts by
   * `total_sales` whenever that column was returned, even when `price` was too.
   */
  lemma PriceSumSortsByTotal(params: Dict, columns: seq<string>)
    requires !PyTruthy(PyGet(params, "sort_by"))
      || (PyGet(params, "sort_by").Str? && MatchColumn(columns, PyGet(params, "sort_by").s).None?)
    requires PyGet(params, "y_axis").Str? && Lower(PyGet(params, "y_axis").s) == "price"
    requires PyGet(params, "aggregation") == Str("sum") && "total_sales" in columns
    ensures SortColumn(params, columns) == Some(Some("total_sales"))
  {
    assert |Lower(PyGet(params, "y_axis").s)| == 5;
  }

  /** Under the same condition, any other `aggregation` spelling (`"SUM"`, missing) keeps the y-axis match. */
  lemma OverrideNeedsExactSum(params: Dict, columns: seq<string>)
    requires !PyTruthy(PyGet(params, "sort_by"))
      || (PyGet(params, "sort_by").Str? && MatchColumn(columns, PyGet(params, "sort_by").s).None?)
    requires PyGet(params, "y_axis").Str? && PyGet(params, "y_axis").s != ""
    requires PyGet(params, "aggregation") != Str("sum")
    ensures SortColumn(params, columns) == Some(MatchColumn(columns, PyGet(params, "y_axis").s))
  {
  }

  /** Rows come back ordered by the sort column when one resolves, in the input order otherwise. */
  lemma ChartDataOrder(body: Value, fetched: Frame)
    requires ChartData(body, fetched).Records?
    ensures var params := PyGetOr(body.fields, "chart_parameters", Obj(map[])).fields;
      var col := SortColumn(params, fetched.columns).value;
      var out := ChartData(body, fetched).rows;
      (col.Some? ==> SortedBy(out, col.value, Ascending(params)))
      && (col.None? ==> out == fetched.rows[..|out|])
  {
    var params := PyGetOr(body.fields, "chart_parameters", Obj(map[])).fields;
    var col := SortColumn(params, fetched.columns).value;
    if col.Some? {
      var asc := Ascending(params);
      var sorted := SortRows(fetched.rows, col.value, asc);
      if AllIn(fetched.rows, col.value, NumKeys) {
        SortRowsSorted(fetched.rows, col.value, asc, NumKeys);
      } else {
        SortRowsSorted(fetched.rows, col.value, asc, StrKeys);
      }
      var out := ChartData(body, fetched).rows;
      assert out == sorted[..|out|];
      SortedPrefix(sorted, |out|, col.value, asc);
    }
  }

  /** A whole-number limit `n >= 0` keeps exactly the first `n` rows (all of them when fewer). */
  lemma LimitKeepsPrefix(rows: seq<Row>, n: nat)
    ensures LimitRows(rows, Num(n as real)) == Some(rows[..Min(n, |rows|)])
  {
    assert Trunc(n as real) == n;
  }

  /** A negative limit, or a string that is not an integer, leaves the rows alone. */
  lemma LimitIgnored(rows: seq<Row>, limit: Value)
    requires (limit.Num? && limit.n <= -1.0) || (limit.Str? && ParseIntLiteral(limit.s).None?)
    ensures LimitRows(rows, limit) == Some(rows)
  {
  }
}
