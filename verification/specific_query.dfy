/**
 * The query `fetch_specific_data_for_llm_analysis` (backend/insight_module.py)
 * builds from the planner's `data_parameters`: SELECT and GROUP BY from the
 * axes and the aggregation, WHERE from the time period and the filter,
 * ORDER BY and LIMIT. Any exception inside the function makes it return
 * `None`, modelled here as `None` of the planned query.
 */
module SpecificQuery {

  import opened Wrappers
  import opened Text
  import opened Json
  import opened Columns
  import opened Sql
  import Calendar
  import TimeWindow

  /** A query ready to run: its syntax tree and its bound parameters, in order. */
  datatype Planned = Planned(query: Query, params: seq<Value>)

  /** The SELECT list, the GROUP BY column and the column the y-axis ends up as. */
  datatype SelectPlan = SelectPlan(items: seq<SelectItem>, groupBy: Option<string>, effectiveY: Option<string>)

  /** The y-axis stands for the computed `total_sales` column. */
  predicate IsSalesAlias(y: string, aggregation: string) {
    Lower(y) == "total_sales" || (Lower(y) == "price" && aggregation == "sum")
  }

  /** The aggregate SELECT entry for an aggregation keyword; none for an unknown keyword. */
  function AggregateItems(aggregation: string, y: string): (r: seq<SelectItem>)
    ensures |r| <= 1
    ensures |r| == 1 <==> aggregation in {"sum", "count", "average"}
    ensures |r| == 1 ==> r[0].Aggregate? && r[0].col == y
  {
    if aggregation == "sum" then [Aggregate(SumOf, y)]
    else if aggregation == "count" then [Aggregate(CountOf, y)]
    else if aggregation == "average" then [Aggregate(AvgOf, y)]
    else []
  }

  /** The four SELECT branches, tried in order. */
  function SelectBranch(x: Option<string>, y: Option<string>, aggregation: string): (r: SelectPlan)
    ensures |r.items| >= 1
    ensures r.groupBy.Some? ==> r.groupBy == x && r.items[0] == Column(x.value)
    ensures r.effectiveY.None? <==> r.items == [Star]
    ensures r.effectiveY.Some? ==> y.Some? && (r.effectiveY == y || r.effectiveY == Some("total_sales"))
    ensures forall k :: 0 <= k < |r.items| && r.items[k].Column? ==> Some(r.items[k].name) in {x, y}
    ensures forall k :: 0 <= k < |r.items| && r.items[k].Aggregate? ==> Some(r.items[k].col) == y
    // the alias branch
    ensures y.Some? && IsSalesAlias(y.value, aggregation) ==>
      r.effectiveY == Some("total_sales") && r.items[|r.items| - 1] == TotalSales
      && r.groupBy == x && (|r.items| == 2 <==> x.Some?)
    // the aggregate branch
    ensures (y.Some? ==> !IsSalesAlias(y.value, aggregation)) && aggregation != "none" && x.Some? && y.Some? ==>
      r.effectiveY == y && r.groupBy == x && r.items[0] == Column(x.value)
    // the plain branch
    ensures (y.Some? ==> !IsSalesAlias(y.value, aggregation)) && aggregation == "none" && x.Some? && y.Some? ==>
      r.effectiveY == y && r.groupBy.None? && r.items == [Column(x.value), Column(y.value)]
    // everything else selects all columns
    ensures (y.Some? ==> !IsSalesAlias(y.value, aggregation)) && !(x.Some? && y.Some?) ==>
      r.items == [Star] && r.groupBy.None?
  {
    if y.Some? && IsSalesAlias(y.value, aggregation) then
      var items := (if x.Some? then [Column(x.value)] else []) + [TotalSales];
      assert items[|items| - 1] == TotalSales;
      SelectPlan(items, x, Some("total_sales"))
    else if aggregation != "none" && x.Some? && y.Some? then
      SelectPlan([Column(x.value)] + AggregateItems(aggregation, y.value), x, y)
    else if x.Some? && y.Some? then
      SelectPlan([Column(x.value), Column(y.value)], None, y)
    else
      SelectPlan([Star], None, None)
  }

  /**
   * Whenever the aggregation is one the source knows ("none", "sum",
   * "count", "average"), the effective y-axis is the result column of the
   * last SELECT entry, so ordering by it orders by a selected column.
   */
  lemma EffectiveYIsSelected(x: Option<string>, y: Option<string>, aggregation: string)
    requires aggregation in {"none", "sum", "count", "average"}
    requires SelectBranch(x, y, aggregation).effectiveY.Some?
    ensures var r := SelectBranch(x, y, aggregation);
      ResultColumn(r.items[|r.items| - 1]) == r.effectiveY
  {
  }

  /** With an unknown aggregation keyword the aggregate branch selects only the x-axis. */
  lemma UnknownAggregationDropsY(x: string, y: string, aggregation: string)
    requires aggregation !in {"none", "sum", "count", "average"} && !IsSalesAlias(y, aggregation)
    ensures SelectBranch(Some(x), Some(y), aggregation) == SelectPlan([Column(x)], Some(x), Some(y))
  {
  }

  /** ORDER BY: the effective y-axis when `sort_by` names the y-axis, otherwise `sort_by` itself. */
  function OrderClause(sortBy: Option<string>, y: Option<string>, effectiveY: Option<string>, direction: string): (r: Option<OrderBy>)
    requires effectiveY.Some? ==> y.Some?
    ensures r.Some? <==> sortBy.Some?
    ensures r.Some? ==> r.value.direction == direction
    ensures r.Some? && r.value.col != sortBy.value ==> effectiveY.Some? && r.value.col == effectiveY.value
    ensures r.Some? && effectiveY.Some? && EqIgnoreCase(sortBy.value, y.value) ==> r.value.col == effectiveY.value
  {
    if sortBy.None? then None
    else if effectiveY.Some? && Lower(sortBy.value) == Lower(y.value) then Some(OrderBy(effectiveY.value, direction))
    else Some(OrderBy(sortBy.value, direction))
  }

  /** `LIMIT {int(limit)}` when a limit is given and is not negative; a failing `int()` raises. */
  function LimitClause(limit: Value): (r: Option<Option<int>>)
    ensures limit == Null ==> r == Some(None)
    ensures r.Some? && r.value.Some? ==> r.value.value >= 0 && PyInt(limit) == Converted(r.value.value)
    ensures r.None? <==> limit != Null && !PyInt(limit).Converted?
    ensures (limit != Null && PyInt(limit).Converted? && PyInt(limit).n >= 0) ==> r == Some(Some(PyInt(limit).n))
  {
    if limit == Null then Some(None)
    else
      match PyInt(limit)
      case Converted(n) => Some(if n >= 0 then Some(n) else None)
      case _ => None
  }

  /** The WHERE conditions and parameters: the time filter first, then the column filter. */
  function WhereParts(time: TimeWindow.TimeFilter, filterColumn: Option<string>, filterValue: Value): (r: (seq<Cond>, seq<Value>))
    requires !time.Raises?
    requires time.Filter? ==> |time.params| == Arity(time.cond) && !time.cond.ColumnEquals?
    ensures |r.1| == Placeholders(r.0)
    ensures forall k :: 0 <= k < |r.0| && r.0[k].ColumnEquals? ==> filterColumn == Some(r.0[k].col)
    ensures |r.0| == (if time.Filter? then 1 else 0) + (if filterColumn.Some? && filterValue != Null then 1 else 0)
    ensures time.Filter? ==> r.0[0] == time.cond && r.1[..|time.params|] == time.params
    ensures (filterColumn.Some? && filterValue != Null) <==> (|r.0| > 0 && r.0[|r.0| - 1] == ColumnEquals(if filterColumn.Some? then filterColumn.value else "") && r.1[|r.1| - 1] == filterValue && (time.Filter? ==> |r.0| == 2))
  {
    var (c1, p1) := if time.Filter? then ([time.cond], time.params) else ([], []);
    assert Placeholders(c1) == |p1| by {
      if time.Filter? {
        assert Placeholders(c1[1..]) == 0;
      }
    }
    if filterColumn.Some? && filterValue != Null then
      PlaceholdersAppend(c1, [ColumnEquals(filterColumn.value)]);
      assert Placeholders([ColumnEquals(filterColumn.value)][1..]) == 0;
      (c1 + [ColumnEquals(filterColumn.value)], p1 + [filterValue])
    else
      assert time.Filter? ==> !time.cond.ColumnEquals?;
      (c1, p1)
  }

  lemma {:induction false} PlaceholdersAppend(a: seq<Cond>, b: seq<Cond>)
    ensures Placeholders(a + b) == Placeholders(a) + Placeholders(b)
    decreases |a|
  {
    if |a| == 0 {
      assert a + b == b;
    } else {
      assert (a + b)[1..] == a[1..] + b;
      PlaceholdersAppend(a[1..], b);
    }
  }

  /**
   * The whole builder. `None` stands for every path on which the source
   * returns `None`: no database, parameters that are not a dict, a
   * non-string `aggregation` or `sort_order`, a `time_period` whose tests
   * raise, and a `limit` that `int()` rejects.
   */
  function PlanSpecificQuery(params: Value, db: Option<Schema>, today: Calendar.Date, parses: string -> bool): (r: Option<Planned>)
    requires Calendar.Valid(today)
    ensures r.Some? ==> |r.value.params| == Placeholders(r.value.query.where)
    ensures r.Some? <==>
      db.Some? && params.Obj?
      && PyGetOr(params.fields, "aggregation", Str("none")).Str?
      && PyGetOr(params.fields, "sort_order", Str("desc")).Str?
      && !TimeWindow.TimePeriodFilter(PyGet(params.fields, "time_period"), today, parses).Raises?
      && LimitClause(PyGet(params.fields, "limit")).Some?
    ensures r.Some? ==> r.value.query.limit == LimitClause(PyGet(params.fields, "limit")).value
    ensures r.Some? && r.value.query.orderBy.Some? ==>
      r.value.query.orderBy.value.direction == Upper(PyGetOr(params.fields, "sort_order", Str("desc")).s)
    ensures r.Some? ==> (r.value.query.orderBy.Some? <==> ResolveColumn(PyGet(params.fields, "sort_by"), db).Some?)
    // SELECT and GROUP BY come from the resolved axes and the lower-cased aggregation
    ensures r.Some? ==>
      r.value.query.select == SelectBranch(ResolveColumn(PyGet(params.fields, "x_axis"), db),
        ResolveColumn(PyGet(params.fields, "y_axis"), db), Lower(PyGetOr(params.fields, "aggregation", Str("none")).s)).items
    ensures r.Some? ==>
      r.value.query.groupBy == SelectBranch(ResolveColumn(PyGet(params.fields, "x_axis"), db),
        ResolveColumn(PyGet(params.fields, "y_axis"), db), Lower(PyGetOr(params.fields, "aggregation", Str("none")).s)).groupBy
    // WHERE and its parameters come from the time period and the resolved filter column
    ensures r.Some? ==>
      (r.value.query.where, r.value.params)
      == WhereParts(TimeWindow.TimePeriodFilter(PyGet(params.fields, "time_period"), today, parses),
           ResolveColumn(PyGet(params.fields, "filter_column"), db), PyGet(params.fields, "filter_value"))
  {
    if db.None? || !params.Obj? then None
    else
      var p := params.fields;
      var x := ResolveColumn(PyGet(p, "x_axis"), db);
      var y := ResolveColumn(PyGet(p, "y_axis"), db);
      var filterColumn := ResolveColumn(PyGet(p, "filter_column"), db);
      var sortBy := ResolveColumn(PyGet(p, "sort_by"), db);
      var aggregation := PyGetOr(p, "aggregation", Str("none"));
      var sortOrder := PyGetOr(p, "sort_order", Str("desc"));
      if !aggregation.Str? || !sortOrder.Str? then None
      else
        var sel := SelectBranch(x, y, Lower(aggregation.s));
        var time := TimeWindow.TimePeriodFilter(PyGet(p, "time_period"), today, parses);
        if time.Raises? then None
        else
          var (conds, sqlParams) := WhereParts(time, filterColumn, PyGet(p, "filter_value"));
          match LimitClause(PyGet(p, "limit"))
          case None => None
          case Some(limit) =>
            var order := OrderClause(sortBy, y, sel.effectiveY, Upper(sortOrder.s));
            Some(Planned(Query(sel.items, conds, sel.groupBy, order, limit), sqlParams))
  }

  /**
   * A `this_month` request filters first on the window as written: from the
   * first of today's month to the day before today's date one month on.
   */
  lemma ThisMonthQueryWindow(params: Value, db: Option<Schema>, today: Calendar.Date, parses: string -> bool)
    requires Calendar.Valid(today)
    requires PlanSpecificQuery(params, db, today, parses).Some?
    requires params.Obj? && PyGet(params.fields, "time_period") == Str("this_month")
    ensures var r := PlanSpecificQuery(params, db, today, parses).value;
      |r.query.where| >= 1 && r.query.where[0] == DateBetween
      && r.params[..2] == [Str(Calendar.Format(Calendar.FirstOfMonth(today))),
                           Str(Calendar.Format(TimeWindow.ThisMonthAsWritten(today).end))]
  {
    var w := TimeWindow.ThisMonthAsWritten(today);
    assert TimeWindow.KeywordWindow("this_month", today) == Some(w);
    assert TimeWindow.TimePeriodFilter(Str("this_month"), today, parses) == TimeWindow.BetweenFilter(w);
  }

  // ---------------------------------------------------------------------------
  // The `?` count of the rendered SQL text
  // ---------------------------------------------------------------------------

  predicate NoPlaceholderNames(schema: Schema) {
    forall i :: 0 <= i < |schema| ==> '?' !in schema[i]
  }

  lemma ResolvedHasNoPlaceholder(request: Value, db: Option<Schema>)
    requires db.Some? && NoPlaceholderNames(db.value) && ResolveColumn(request, db).Some?
    ensures '?' !in ResolveColumn(request, db).value
  {
  }

  lemma {:induction false} JoinWithout(c: char, sep: string, xs: seq<string>)
    requires c !in sep && forall i :: 0 <= i < |xs| ==> c !in xs[i]
    ensures c !in Join(sep, xs)
    decreases |xs|
  {
    if |xs| > 1 {
      JoinWithout(c, sep, xs[1..]);
    }
  }

  lemma {:induction false} CountCharPrefixOfSpaces(c: char, s: string, k: nat)
    requires k <= |s| && !IsPySpace(c)
    requires forall i :: 0 <= i < k ==> IsPySpace(s[i])
    ensures CountChar(c, s) == CountChar(c, s[k..])
    decreases k
  {
    if k > 0 {
      assert s[0] != c;
      assert s[1..][k - 1..] == s[k..];
      CountCharPrefixOfSpaces(c, s[1..], k - 1);
    }
  }

  lemma CountCharSuffixOfSpaces(c: char, s: string, k: nat)
    requires k <= |s| && !IsPySpace(c)
    requires forall i :: k <= i < |s| ==> IsPySpace(s[i])
    ensures CountChar(c, s) == CountChar(c, s[..k])
  {
    assert s == s[..k] + s[k..];
    CountCharAppend(c, s[..k], s[k..]);
    assert c !in s[k..] by {
      forall i | 0 <= i < |s[k..]| ensures s[k..][i] != c {
        assert IsPySpace(s[k + i]);
      }
    }
    CountCharAbsent(c, s[k..]);
  }

  /** `strip()` never removes a `?`. */
  lemma CountCharStrip(s: string)
    ensures CountChar('?', Strip(s)) == CountChar('?', s)
  {
    var l := LStrip(s);
    CountCharPrefixOfSpaces('?', s, |s| - |l|);
    CountCharSuffixOfSpaces('?', l, |RStrip(l)|);
  }

  lemma IntToStringWithout(i: int)
    ensures '?' !in IntToString(i)
  {
    var d := NatToString(if i < 0 then -i else i);
    assert forall k :: 0 <= k < |d| ==> IsDigit(d[k]);
  }

  lemma SelectTextWithout(items: seq<SelectItem>)
    requires forall k :: 0 <= k < |items| && items[k].Column? ==> '?' !in items[k].name
    requires forall k :: 0 <= k < |items| && items[k].Aggregate? ==> '?' !in items[k].col
    ensures '?' !in SelectText(items)
  {
    var texts := seq(|items|, i requires 0 <= i < |items| => ItemText(items[i]));
    forall i | 0 <= i < |texts| ensures '?' !in texts[i] {
      assert texts[i] == ItemText(items[i]);
      match items[i]
      case Column(n) =>
      case TotalSales =>
        assert '?' !in "price" && '?' !in "quantity_sold" && '?' !in "total_sales";
      case Aggregate(fn, c) =>
        assert '?' !in AggName(fn);
      case Star =>
    }
    JoinWithout('?', ", ", texts);
  }

  /** No name pasted into the query text contains a `?`. */
  predicate NamesWithoutPlaceholder(q: Query) {
    (forall k :: 0 <= k < |q.select| && q.select[k].Column? ==> '?' !in q.select[k].name)
    && (forall k :: 0 <= k < |q.select| && q.select[k].Aggregate? ==> '?' !in q.select[k].col)
    && NoPlaceholderInColumns(q.where)
    && (q.groupBy.Some? ==> '?' !in q.groupBy.value)
    && (q.orderBy.Some? ==> '?' !in q.orderBy.value.col && '?' !in q.orderBy.value.direction)
  }

  /** The rendered text holds one `?` per placeholder its conditions bind. */
  lemma RenderPlaceholders(q: Query)
    requires NamesWithoutPlaceholder(q)
    ensures CountChar('?', Render(q)) == Placeholders(q.where)
  {
    var a, w, b := RenderHead(q), WhereText(q.where), RenderTail(q);
    assert '?' !in a by {
      SelectTextWithout(q.select);
    }
    assert '?' !in b by {
      if q.limit.Some? { IntToStringWithout(q.limit.value); }
      assert '?' !in GroupText(q.groupBy);
      assert '?' !in OrderText(q.orderBy);
    }
    WherePlaceholders(q.where);
    CountCharStrip(a + w + b);
    CountCharAppend('?', a, w);
    CountCharAppend('?', a + w, b);
    CountCharAbsent('?', a);
    CountCharAbsent('?', b);
  }

  /** Every name in a planned query comes from the schema or is `total_sales`. */
  lemma PlannedNamesWithoutPlaceholder(params: Value, db: Option<Schema>, today: Calendar.Date, parses: string -> bool)
    requires Calendar.Valid(today)
    requires db.Some? ==> NoPlaceholderNames(db.value)
    requires PlanSpecificQuery(params, db, today, parses).Some?
    requires var q := PlanSpecificQuery(params, db, today, parses).value.query;
      q.orderBy.Some? ==> '?' !in q.orderBy.value.direction
    ensures NamesWithoutPlaceholder(PlanSpecificQuery(params, db, today, parses).value.query)
  {
    var p := params.fields;
    var xr, yr, fr, sr := PyGet(p, "x_axis"), PyGet(p, "y_axis"), PyGet(p, "filter_column"), PyGet(p, "sort_by");
    var x, y, f, s := ResolveColumn(xr, db), ResolveColumn(yr, db), ResolveColumn(fr, db), ResolveColumn(sr, db);
    if x.Some? { ResolvedHasNoPlaceholder(xr, db); }
    if y.Some? { ResolvedHasNoPlaceholder(yr, db); }
    if f.Some? { ResolvedHasNoPlaceholder(fr, db); }
    if s.Some? { ResolvedHasNoPlaceholder(sr, db); }
    var aggregation := PyGetOr(p, "aggregation", Str("none"));
    var sortOrder := PyGetOr(p, "sort_order", Str("desc"));
    var sel := SelectBranch(x, y, Lower(aggregation.s));
    var time := TimeWindow.TimePeriodFilter(PyGet(p, "time_period"), today, parses);
    var (conds, sqlParams) := WhereParts(time, f, PyGet(p, "filter_value"));
    var limit := LimitClause(PyGet(p, "limit")).value;
    var order := OrderClause(s, y, sel.effectiveY, Upper(sortOrder.s));
    var q := Query(sel.items, conds, sel.groupBy, order, limit);
    assert PlanSpecificQuery(params, db, today, parses) == Some(Planned(q, sqlParams));
    assert '?' !in "total_sales";
  }

  /**
   * The SQL text sent to SQLite carries exactly one `?` per bound
   * parameter, as long as no column name and no sort direction contains a
   * `?` (a `?` in `sort_order` would be pasted into the text unbound).
   */
  lemma PlannedTextPlaceholders(params: Value, db: Option<Schema>, today: Calendar.Date, parses: string -> bool)
    requires Calendar.Valid(today)
    requires db.Some? ==> NoPlaceholderNames(db.value)
    requires PlanSpecificQuery(params, db, today, parses).Some?
    requires var q := PlanSpecificQuery(params, db, today, parses).value.query;
      q.orderBy.Some? ==> '?' !in q.orderBy.value.direction
    ensures var r := PlanSpecificQuery(params, db, today, parses).value;
      CountChar('?', Render(r.query)) == |r.params|
  {
    PlannedNamesWithoutPlaceholder(params, db, today, parses);
    RenderPlaceholders(PlanSpecificQuery(params, db, today, parses).value.query);
  }
}
