/**
 * The SQL text the insight module builds for the `sales` table, as a small
 * syntax tree with the exact rendering of backend/insight_module.py.
 * Queries are built, never executed.
 */
module Sql {

  import opened Wrappers
  import opened Text

  const TableName: string := "sales"

  datatype AggFn = SumOf | CountOf | AvgOf

  /** One entry of the SELECT list. */
  datatype SelectItem =
    | Column(name: string)                // "x"
    | TotalSales                          // SUM("price" * "quantity_sold") AS "total_sales"
    | Aggregate(fn: AggFn, col: string)   // SUM("y") AS "y", COUNT(...), AVG(...)
    | Star                                // *

  /** One WHERE condition; each carries its own `?` placeholders. */
  datatype Cond =
    | DateBetween                         // "sale_date" BETWEEN ? AND ?
    | YearEquals                          // STRFTIME("%Y", "sale_date") = ?
    | ColumnEquals(col: string)           // "col" = ?

  datatype OrderBy = OrderBy(col: string, direction: string)

  datatype Query = Query(
    select: seq<SelectItem>,
    where: seq<Cond>,
    groupBy: Option<string>,
    orderBy: Option<OrderBy>,
    limit: Option<int>)

  function Quote(name: string): string {
    "\"" + name + "\""
  }

  function AggName(fn: AggFn): string {
    match fn
    case SumOf => "SUM"
    case CountOf => "COUNT"
    case AvgOf => "AVG"
  }

  function ItemText(item: SelectItem): string {
    match item
    case Column(n) => Quote(n)
    case TotalSales => "SUM(" + Quote("price") + " * " + Quote("quantity_sold") + ") AS " + Quote("total_sales")
    case Aggregate(fn, c) => AggName(fn) + "(" + Quote(c) + ") AS " + Quote(c)
    case Star => "*"
  }

  /** The column name a SELECT entry produces in the result set. */
  function ResultColumn(item: SelectItem): Option<string> {
    match item
    case Column(n) => Some(n)
    case TotalSales => Some("total_sales")
    case Aggregate(_, c) => Some(c)
    case Star => None
  }

  /** Number of `?` placeholders a condition binds. */
  function Arity(c: Cond): nat {
    match c
    case DateBetween => 2
    case YearEquals => 1
    case ColumnEquals(_) => 1
  }

  function Placeholders(w: seq<Cond>): nat {
    if |w| == 0 then 0 else Arity(w[0]) + Placeholders(w[1..])
  }

  function CondText(c: Cond): string {
    match c
    case DateBetween => "\"sale_date\" BETWEEN " + "?" + " AND " + "?"
    case YearEquals => "STRFTIME(\"%Y\", \"sale_date\") = " + "?"
    case ColumnEquals(col) => Quote(col) + " = " + "?"
  }

  function CondTexts(w: seq<Cond>): (r: seq<string>)
    ensures |r| == |w| && forall i :: 0 <= i < |w| ==> r[i] == CondText(w[i])
  {
    seq(|w|, i requires 0 <= i < |w| => CondText(w[i]))
  }

  function SelectText(items: seq<SelectItem>): string {
    "SELECT " + Join(", ", seq(|items|, i requires 0 <= i < |items| => ItemText(items[i])))
  }

  function WhereText(w: seq<Cond>): string {
    if |w| == 0 then "" else "WHERE " + Join(" AND ", CondTexts(w))
  }

  function GroupText(g: Option<string>): string {
    match g
    case None => ""
    case Some(x) => "GROUP BY " + Quote(x)
  }

  function OrderText(o: Option<OrderBy>): string {
    match o
    case None => ""
    case Some(OrderBy(c, dir)) => "ORDER BY " + Quote(c) + " " + dir
  }

  function LimitText(l: Option<int>): string {
    match l
    case None => ""
    case Some(n) => "LIMIT " + IntToString(n)
  }

  /** The text before the WHERE part: `{select} FROM sales `. */
  function RenderHead(q: Query): string {
    SelectText(q.select) + " FROM " + TableName + " "
  }

  /** The text after the WHERE part: ` {group_by} {order_by} {limit}`. */
  function RenderTail(q: Query): string {
    " " + GroupText(q.groupBy) + " " + OrderText(q.orderBy) + " " + LimitText(q.limit)
  }

  /** `f"{select} FROM sales {where} {group_by} {order_by} {limit}".strip()` */
  function Render(q: Query): string {
    Strip(RenderHead(q) + WhereText(q.where) + RenderTail(q))
  }

  // ---------------------------------------------------------------------------
  // Placeholder counting
  // ---------------------------------------------------------------------------

  lemma {:induction false} CountCharAbsent(c: char, s: string)
    requires c !in s
    ensures CountChar(c, s) == 0
  {
    if |s| > 0 {
      assert s[0] in s;
      assert forall x :: x in s[1..] ==> x in s;
      CountCharAbsent(c, s[1..]);
    }
  }

  lemma CountCharOne(c: char)
    ensures CountChar(c, [c]) == 1
  {
    assert [c][1..] == [];
  }

  /** `c` placed once or twice between pieces that do not contain it. */
  lemma CountCharBetween(c: char, a: string, b: string)
    requires c !in a && c !in b
    ensures CountChar(c, a + [c]) == 1
    ensures CountChar(c, a + [c] + b + [c]) == 2
  {
    CountCharOne(c);
    CountCharAbsent(c, a);
    CountCharAbsent(c, b);
    CountCharAppend(c, a, [c]);
    CountCharAppend(c, a + [c], b);
    CountCharAppend(c, a + [c] + b, [c]);
  }

  lemma DateBetweenPlaceholders()
    ensures CountChar('?', CondText(DateBetween)) == 2
  {
    CountCharBetween('?', "\"sale_date\" BETWEEN ", " AND ");
  }

  lemma YearEqualsPlaceholders()
    ensures CountChar('?', CondText(YearEquals)) == 1
  {
    CountCharBetween('?', "STRFTIME(\"%Y\", \"sale_date\") = ", "");
  }

  lemma ColumnEqualsPlaceholders(col: string)
    requires '?' !in col
    ensures CountChar('?', CondText(ColumnEquals(col))) == 1
  {
    var a := Quote(col) + " = ";
    assert a == "\"" + col + "\" = ";
    CountCharBetween('?', a, "");
  }

  lemma CondPlaceholders(c: Cond)
    requires c.ColumnEquals? ==> '?' !in c.col
    ensures CountChar('?', CondText(c)) == Arity(c)
  {
    match c
    case DateBetween => DateBetweenPlaceholders();
    case YearEquals => YearEqualsPlaceholders();
    case ColumnEquals(col) => ColumnEqualsPlaceholders(col);
  }

  predicate NoPlaceholderInColumns(w: seq<Cond>) {
    forall k :: 0 <= k < |w| && w[k].ColumnEquals? ==> '?' !in w[k].col
  }

  lemma {:induction false} JoinedPlaceholders(w: seq<Cond>)
    requires |w| > 0 && NoPlaceholderInColumns(w)
    ensures CountChar('?', Join(" AND ", CondTexts(w))) == Placeholders(w)
    decreases |w|
  {
    CondPlaceholders(w[0]);
    if |w| > 1 {
      var sep := " AND ";
      var rest := Join(sep, CondTexts(w[1..]));
      assert CondTexts(w)[1..] == CondTexts(w[1..]);
      assert Join(sep, CondTexts(w)) == CondText(w[0]) + sep + rest;
      CountCharAbsent('?', sep);
      CountCharAppend('?', CondText(w[0]), sep);
      CountCharAppend('?', CondText(w[0]) + sep, rest);
      assert NoPlaceholderInColumns(w[1..]) by {
        forall k | 0 <= k < |w[1..]| && w[1..][k].ColumnEquals?
          ensures '?' !in w[1..][k].col
        {
          assert w[1..][k] == w[k + 1];
        }
      }
      JoinedPlaceholders(w[1..]);
    } else {
      assert Placeholders(w[1..]) == 0;
    }
  }

  /**
   * The WHERE text holds exactly as many `?` as its conditions bind, as long
   * as no filtered column name itself contains a `?`.
   */
  lemma WherePlaceholders(w: seq<Cond>)
    requires NoPlaceholderInColumns(w)
    ensures CountChar('?', WhereText(w)) == Placeholders(w)
  {
    if |w| > 0 {
      CountCharAbsent('?', "WHERE ");
      JoinedPlaceholders(w);
      CountCharAppend('?', "WHERE ", Join(" AND ", CondTexts(w)));
    } else {
      CountCharAbsent('?', "");
    }
  }
}
