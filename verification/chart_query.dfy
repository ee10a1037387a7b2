/**
 * The query `fetch_dynamic_chart_data` (backend/insight_module.py) builds for
 * the dynamic-chart endpoint: the x-axis, exactly one y expression, grouped
 * by x, the ten largest values of y first. A missing database, an
 * unresolved axis or any exception yields the empty frame, modelled as
 * `None`.
 */
module ChartQuery {

  import opened Wrappers
  import opened Text
  import opened Json
  import opened Columns
  import opened Sql

  /** The x column, the y expression and the column name the y expression produces. */
  datatype ChartPlan = ChartPlan(x: string, yItem: SelectItem, y: string)

  /** The requested y-axis is the computed sales total rather than a table column. */
  predicate IsSalesAlias(y: string, aggregation: string) {
    Lower(y) == "total_sales" || (Lower(y) == "price" && aggregation == "sum")
  }

  /**
   * The y column in the query result: `total_sales` for the alias (no schema
   * check), otherwise the schema column the request names. `None` when a
   * truthy request is not a string (its `.lower()` raises).
   */
  function ChartYAxis(rawY: Value, aggregation: string, db: Option<Schema>): (r: Option<Option<string>>)
    ensures r.None? <==> PyTruthy(rawY) && !rawY.Str?
    ensures rawY.Str? && rawY.s != "" && IsSalesAlias(rawY.s, aggregation) ==> r == Some(Some("total_sales"))
    ensures !(rawY.Str? && IsSalesAlias(rawY.s, aggregation)) && r.Some? ==> r.value == ResolveColumn(rawY, db)
  {
    if PyTruthy(rawY) && !rawY.Str? then None
    else if PyTruthy(rawY) && IsSalesAlias(rawY.s, aggregation) then Some(Some("total_sales"))
    else Some(ResolveColumn(rawY, db))
  }

  /** The single y expression of the SELECT list. */
  function YExpression(y: string, aggregation: string): (r: SelectItem)
    ensures ResultColumn(r) == Some(y)
    ensures r == TotalSales <==> y == "total_sales"
    ensures r.Column? <==> y != "total_sales" && aggregation !in {"sum", "count", "average"}
  {
    if y == "total_sales" then TotalSales
    else if aggregation == "sum" then Aggregate(SumOf, y)
    else if aggregation == "count" then Aggregate(CountOf, y)
    else if aggregation == "average" then Aggregate(AvgOf, y)
    else Column(y)
  }

  /** Nothing raises and both axes resolve. */
  predicate ChartResolvable(params: Value, db: Option<Schema>) {
    db.Some? && params.Obj?
    && PyGetOr(params.fields, "aggregation", Str("none")).Str?
    && ResolveColumn(PyGet(params.fields, "x_axis"), db).Some?
    && var y := ChartYAxis(PyGet(params.fields, "y_axis"), Lower(PyGetOr(params.fields, "aggregation", Str("none")).s), db);
       y.Some? && y.value.Some?
  }

  /** The whole planner; `None` is the empty frame the source returns. */
  function PlanChart(params: Value, db: Option<Schema>): (r: Option<ChartPlan>)
    ensures r.Some? <==> ChartResolvable(params, db)
    ensures r.Some? ==> Some(r.value.x) == ResolveColumn(PyGet(params.fields, "x_axis"), db)
    ensures r.Some? ==>
      ChartYAxis(PyGet(params.fields, "y_axis"), Lower(PyGetOr(params.fields, "aggregation", Str("none")).s), db)
        == Some(Some(r.value.y))
    ensures r.Some? ==> ResultColumn(r.value.yItem) == Some(r.value.y)
  {
    if db.None? || !params.Obj? then None
    else
      var p := params.fields;
      var aggregation := PyGetOr(p, "aggregation", Str("none"));
      if !aggregation.Str? then None
      else
        var agg := Lower(aggregation.s);
        var x := ResolveColumn(PyGet(p, "x_axis"), db);
        match ChartYAxis(PyGet(p, "y_axis"), agg, db)
        case None => None
        case Some(y) =>
          if x.None? || y.None? then None
          else Some(ChartPlan(x.value, YExpression(y.value, agg), y.value))
  }

  /** A requested `total_sales` (any case) is never checked against the schema. */
  lemma SalesAliasSkipsSchema(params: Value, db: Option<Schema>)
    requires db.Some? && params.Obj?
    requires PyGetOr(params.fields, "aggregation", Str("none")).Str?
    requires ResolveColumn(PyGet(params.fields, "x_axis"), db).Some?
    requires PyGet(params.fields, "y_axis").Str? && Lower(PyGet(params.fields, "y_axis").s) == "total_sales"
    ensures PlanChart(params, db).Some?
    ensures PlanChart(params, db).value.yItem == TotalSales
  {
    assert PyGet(params.fields, "y_axis").s != "" by {
      assert |Lower(PyGet(params.fields, "y_axis").s)| == |"total_sales"|;
    }
  }

  /** The comma-separated SELECT list: x first, then the y expression. */
  function ChartSelectList(plan: ChartPlan): string {
    Join(", ", [ItemText(Column(plan.x)), ItemText(plan.yItem)])
  }

  /** ` ORDER BY "y" DESC LIMIT 10`, the fixed tail of every chart query. */
  function ChartTail(plan: ChartPlan): string {
    " " + "ORDER BY " + Quote(plan.y) + " DESC LIMIT 10"
  }

  /** `f"SELECT {parts} FROM sales {group_by} {order_by}".strip()` */
  function ChartSql(plan: ChartPlan): string {
    Strip("SELECT " + ChartSelectList(plan) + " FROM " + TableName + " " + GroupText(Some(plan.x)) + ChartTail(plan))
  }

  lemma StripUnchanged(s: string)
    requires |s| > 0 && !IsPySpace(s[0]) && !IsPySpace(s[|s| - 1])
    ensures Strip(s) == s
  {
    assert LStrip(s) == s;
  }

  lemma ChartSelectListShape(plan: ChartPlan)
    ensures ChartSelectList(plan) == Quote(plan.x) + ", " + ItemText(plan.yItem)
  {
    var parts := [ItemText(Column(plan.x)), ItemText(plan.yItem)];
    assert parts[1..] == [ItemText(plan.yItem)];
    assert Join(", ", parts[1..]) == ItemText(plan.yItem);
    assert parts[0] == Quote(plan.x);
  }

  /**
   * The text lists x first and then the one y expression, always groups by
   * x, and always ends by ordering on the y column, descending, ten rows.
   */
  lemma ChartSqlShape(plan: ChartPlan)
    ensures ChartSql(plan) ==
      "SELECT " + (Quote(plan.x) + ", " + ItemText(plan.yItem)) + " FROM sales " + ("GROUP BY " + Quote(plan.x))
      + ChartTail(plan)
    ensures ChartTail(plan) == " ORDER BY " + Quote(plan.y) + " DESC LIMIT 10"
  {
    ChartSelectListShape(plan);
    var head := "SELECT " + ChartSelectList(plan) + " FROM " + TableName + " " + GroupText(Some(plan.x));
    var tail := ChartTail(plan);
    var s := head + tail;
    assert s[0] == head[0] == 'S';
    assert s[|s| - 1] == tail[|tail| - 1] == '0';
    StripUnchanged(s);
  }
}
