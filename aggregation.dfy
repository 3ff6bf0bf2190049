/**
  The day/category/region rollup: transactions are grouped by order day,
  category and region; each group gets the sum and the mean of Sales, the
  sum and the mean of Profit, the sum of Quantity and the number of distinct
  Order IDs; the nine resulting columns are then renamed by position.
  Measures are exact reals; a mean is a group's sum divided by the number of
  transactions in the group.
*/
module Aggregation {
  import opened Sequences
  import opened Dates
  import opened Transactions
  import opened Wrappers

  /** The exact grouping key: day, category and region, compared for equality. */
  datatype GroupKey = GroupKey(day: Date, category: string, region: string)

  /** One output row, fields in the order of the renamed columns. */
  datatype AggregateRow = AggregateRow(
    date: Date,
    category: string,
    region: string,
    totalSales: real,
    avgSales: real,
    totalProfit: real,
    avgProfit: real,
    totalQuantity: int,
    uniqueOrders: nat)

  function KeyOf(t: Transaction): GroupKey { GroupKey(OrderDay(t), t.category, t.region) }
  function OrderIdOf(t: Transaction): string { t.orderId }
  function SalesOf(t: Transaction): real { t.sales }
  function ProfitOf(t: Transaction): real { t.profit }
  function QuantityOf(t: Transaction): int { t.quantity }
  function QuantityAsReal(t: Transaction): real { t.quantity as real }

  function RowKey(r: AggregateRow): GroupKey { GroupKey(r.date, r.category, r.region) }
  function TotalSalesOf(r: AggregateRow): real { r.totalSales }
  function TotalProfitOf(r: AggregateRow): real { r.totalProfit }
  function TotalQuantityOf(r: AggregateRow): int { r.totalQuantity }
  function TotalQuantityAsReal(r: AggregateRow): real { r.totalQuantity as real }

  /** The transactions of the group with key `k`. */
  function Group(ts: seq<Transaction>, k: GroupKey): seq<Transaction> {
    Filter(ts, KeyOf, k)
  }

  /** The keys present in `ts`, each once. */
  function GroupKeys(ts: seq<Transaction>): seq<GroupKey> {
    DistinctKeys(ts, KeyOf)
  }

  lemma GroupOfPresentKey(ts: seq<Transaction>, k: GroupKey)
    requires k in Image(ts, KeyOf)
    ensures |Group(ts, k)| > 0
  {
    var x :| x in ts && KeyOf(x) == k;
    var i :| 0 <= i < |ts| && ts[i] == x;
    assert ts[i] in Group(ts, k);
  }

  /** The row of one non-empty group. */
  function Summarize(k: GroupKey, g: seq<Transaction>): (r: AggregateRow)
    requires |g| > 0
    ensures RowKey(r) == k
  {
    var n := |g| as real;
    var sales, profit := Sum(g, SalesOf), Sum(g, ProfitOf);
    AggregateRow(k.day, k.category, k.region,
      sales, sales / n,
      profit, profit / n,
      IntSum(g, QuantityOf),
      |DistinctKeys(g, OrderIdOf)|)
  }

  /**
    The means of a group divide by the number of transactions in it (not by
    quantity, not by distinct orders), and the distinct order count lies
    between 1 and the group size, reaching it exactly when no order id repeats.
  */
  lemma SummarizeMeans(k: GroupKey, g: seq<Transaction>)
    requires |g| > 0
    ensures Summarize(k, g).avgSales * (|g| as real) == Summarize(k, g).totalSales
    ensures Summarize(k, g).avgProfit * (|g| as real) == Summarize(k, g).totalProfit
    ensures 1 <= Summarize(k, g).uniqueOrders <= |g|
    ensures Summarize(k, g).uniqueOrders == |g| <==> InjectiveOn(g, OrderIdOf)
  {
    var r := Summarize(k, g);
    MeanTimesCount(r.avgSales, r.totalSales, |g| as real);
    MeanTimesCount(r.avgProfit, r.totalProfit, |g| as real);
    SummarizeDistinctOrders(k, g);
  }

  lemma SummarizeDistinctOrders(k: GroupKey, g: seq<Transaction>)
    requires |g| > 0
    ensures 1 <= Summarize(k, g).uniqueOrders <= |g|
    ensures Summarize(k, g).uniqueOrders == |g| <==> InjectiveOn(g, OrderIdOf)
  {
    assert Summarize(k, g).uniqueOrders == |DistinctKeys(g, OrderIdOf)|;
  }

  lemma MeanTimesCount(mean: real, total: real, n: real)
    requires n > 0.0 && mean == total / n
    ensures mean * n == total
  {
  }

  function SummarizeGroups(ts: seq<Transaction>, ks: seq<GroupKey>): (rows: seq<AggregateRow>)
    requires forall j :: 0 <= j < |ks| ==> ks[j] in Image(ts, KeyOf)
    ensures |rows| == |ks|
  {
    if |ks| == 0 then []
    else
      var front, k := ks[..|ks| - 1], ks[|ks| - 1];
      assert forall j :: 0 <= j < |front| ==> front[j] == ks[j];
      GroupOfPresentKey(ts, k);
      SummarizeGroups(ts, front) + [Summarize(k, Group(ts, k))]
  }

  lemma {:induction false} SummarizeGroupsAt(ts: seq<Transaction>, ks: seq<GroupKey>, j: int)
    requires forall j :: 0 <= j < |ks| ==> ks[j] in Image(ts, KeyOf)
    requires 0 <= j < |ks|
    ensures |Group(ts, ks[j])| > 0
    ensures SummarizeGroups(ts, ks)[j] == Summarize(ks[j], Group(ts, ks[j]))
  {
    GroupOfPresentKey(ts, ks[j]);
    if j < |ks| - 1 {
      SummarizeGroupsAt(ts, ks[..|ks| - 1], j);
    }
  }

  /** Some row of `rows` has key `k`. */
  predicate HasRow(rows: seq<AggregateRow>, k: GroupKey) {
    exists j :: 0 <= j < |rows| && RowKey(rows[j]) == k
  }

  /** Some transaction of `ts` has key `k`. */
  predicate HasTransaction(ts: seq<Transaction>, k: GroupKey) {
    exists i :: 0 <= i < |ts| && KeyOf(ts[i]) == k
  }

  /** The aggregate table: one summary row per key present in the input. */
  function Aggregate(ts: seq<Transaction>): seq<AggregateRow> {
    SummarizeGroups(ts, GroupKeys(ts))
  }

  // ----- The nine output columns -----

  /** The aggregations requested per column. */
  datatype AggFn = SumFn | MeanFn | NUniqueFn

  /** Where an output column of the grouped frame comes from. */
  datatype ColumnSource = GroupColumn(name: string) | Aggregated(column: string, fn: AggFn)

  /**
    Columns of the grouped frame once its index is reset, in order: the three
    group keys, then each requested aggregation in the order requested.
  */
  function GroupedColumns(): seq<ColumnSource> {
    [GroupColumn("order_day"), GroupColumn("Category"), GroupColumn("Region"),
     Aggregated("Sales", SumFn), Aggregated("Sales", MeanFn),
     Aggregated("Profit", SumFn), Aggregated("Profit", MeanFn),
     Aggregated("Quantity", SumFn), Aggregated("Order ID", NUniqueFn)]
  }

  /** The names assigned to `daily_agg.columns`, position by position. */
  function ColumnNames(): seq<string> {
    ["date", "category", "region",
     "total_sales", "avg_sales",
     "total_profit", "avg_profit",
     "total_quantity", "unique_orders"]
  }

  /** Positional renaming: the column a new name labels, if any. */
  function Labelled(sources: seq<ColumnSource>, names: seq<string>, name: string): (r: Option<ColumnSource>)
    requires |sources| == |names|
    ensures r.Some? ==> exists i :: 0 <= i < |names| && names[i] == name && r.value == sources[i]
    ensures r.None? <==> name !in names
  {
    if |names| == 0 then None
    else if names[0] == name then Some(sources[0])
    else
      var r := Labelled(sources[1..], names[1..], name);
      assert r.Some? ==> r.value in sources[1..];
      r
  }

  /**
    The renaming labels every aggregate with the name the rest of the
    pipeline reads it by: `avg_*` are means, `total_*` are sums and
    `unique_orders` counts distinct order ids.
  */
  lemma ColumnNamesMatchAggregations()
    ensures Labelled(GroupedColumns(), ColumnNames(), "date") == Some(GroupColumn("order_day"))
    ensures Labelled(GroupedColumns(), ColumnNames(), "category") == Some(GroupColumn("Category"))
    ensures Labelled(GroupedColumns(), ColumnNames(), "region") == Some(GroupColumn("Region"))
    ensures Labelled(GroupedColumns(), ColumnNames(), "total_sales") == Some(Aggregated("Sales", SumFn))
    ensures Labelled(GroupedColumns(), ColumnNames(), "avg_sales") == Some(Aggregated("Sales", MeanFn))
    ensures Labelled(GroupedColumns(), ColumnNames(), "total_profit") == Some(Aggregated("Profit", SumFn))
    ensures Labelled(GroupedColumns(), ColumnNames(), "avg_profit") == Some(Aggregated("Profit", MeanFn))
    ensures Labelled(GroupedColumns(), ColumnNames(), "total_quantity") == Some(Aggregated("Quantity", SumFn))
    ensures Labelled(GroupedColumns(), ColumnNames(), "unique_orders") == Some(Aggregated("Order ID", NUniqueFn))
  {
  }

  /** A cell of the grouped frame. */
  datatype Cell = DateCell(day: Date) | TextCell(text: string) | RealCell(x: real) | IntCell(n: int)

  /** What an output column holds for the group `g` with key `k`, as the aggregation list requests it. */
  function Evaluate(src: ColumnSource, k: GroupKey, g: seq<Transaction>): Option<Cell>
    requires |g| > 0
  {
    match src
    case GroupColumn(c) =>
      if c == "order_day" then Some(DateCell(k.day))
      else if c == "Category" then Some(TextCell(k.category))
      else if c == "Region" then Some(TextCell(k.region))
      else None
    case Aggregated(c, fn) =>
      if c == "Sales" && fn == SumFn then Some(RealCell(Sum(g, SalesOf)))
      else if c == "Sales" && fn == MeanFn then Some(RealCell(Sum(g, SalesOf) / |g| as real))
      else if c == "Profit" && fn == SumFn then Some(RealCell(Sum(g, ProfitOf)))
      else if c == "Profit" && fn == MeanFn then Some(RealCell(Sum(g, ProfitOf) / |g| as real))
      else if c == "Quantity" && fn == SumFn then Some(IntCell(IntSum(g, QuantityOf)))
      else if c == "Order ID" && fn == NUniqueFn then Some(IntCell(|DistinctKeys(g, OrderIdOf)|))
      else None
  }

  /** The `i`-th column of a row, in the order of the renamed column names. */
  function ColumnAt(r: AggregateRow, i: nat): Option<Cell> {
    if i == 0 then Some(DateCell(r.date))
    else if i == 1 then Some(TextCell(r.category))
    else if i == 2 then Some(TextCell(r.region))
    else if i == 3 then Some(RealCell(r.totalSales))
    else if i == 4 then Some(RealCell(r.avgSales))
    else if i == 5 then Some(RealCell(r.totalProfit))
    else if i == 6 then Some(RealCell(r.avgProfit))
    else if i == 7 then Some(IntCell(r.totalQuantity))
    else if i == 8 then Some(IntCell(r.uniqueOrders))
    else None
  }

  /**
    Each field of a summary row holds, position by position, what the
    aggregation list computes for the column at that position.
  */
  lemma SummaryColumnsAreAggregations(k: GroupKey, g: seq<Transaction>, i: nat)
    requires |g| > 0 && i < |GroupedColumns()|
    ensures ColumnAt(Summarize(k, g), i) == Evaluate(GroupedColumns()[i], k, g)
  {
    var r, n, cols := Summarize(k, g), |g| as real, GroupedColumns();
    if i == 0 {
      assert cols[0] == GroupColumn("order_day");
    } else if i == 1 {
      assert cols[1] == GroupColumn("Category");
    } else if i == 2 {
      assert cols[2] == GroupColumn("Region");
    } else if i == 3 {
      assert cols[3] == Aggregated("Sales", SumFn);
    } else if i == 4 {
      assert cols[4] == Aggregated("Sales", MeanFn);
    } else if i == 5 {
      assert cols[5] == Aggregated("Profit", SumFn);
    } else if i == 6 {
      assert cols[6] == Aggregated("Profit", MeanFn);
    } else if i == 7 {
      assert cols[7] == Aggregated("Quantity", SumFn);
    } else {
      assert cols[8] == Aggregated("Order ID", NUniqueFn);
    }
  }

  /** With distinct names, renaming the column at position `i` is labelling it by the `i`-th name. */
  lemma LabelledAt(sources: seq<ColumnSource>, names: seq<string>, i: int)
    requires |sources| == |names| && NoDuplicates(names) && 0 <= i < |names|
    ensures Labelled(sources, names, names[i]) == Some(sources[i])
  {
    var r := Labelled(sources, names, names[i]);
    var i' :| 0 <= i' < |names| && names[i'] == names[i] && r.value == sources[i'];
  }

  lemma ColumnNamesDistinct()
    ensures NoDuplicates(ColumnNames())
  {
    var names := ColumnNames();
    assert forall i :: 0 <= i < |names| ==> |names[i]| == [4, 8, 6, 11, 9, 12, 10, 14, 13][i];
    assert names[1] != names[8] && names[2] != names[4] && names[3] != names[4];
  }

  /**
    Read off the aggregate table: under each renamed column name, every row
    holds the aggregation that the name labels, computed over the
    transactions sharing the row's key.
  */
  lemma AggregateColumnsAreLabelledAggregations(ts: seq<Transaction>, j: int, i: int)
    requires 0 <= j < |Aggregate(ts)| && 0 <= i < |ColumnNames()|
    ensures var r := Aggregate(ts)[j]; var g := Group(ts, RowKey(r));
      && |g| > 0
      && Labelled(GroupedColumns(), ColumnNames(), ColumnNames()[i]) == Some(GroupedColumns()[i])
      && ColumnAt(r, i) == Evaluate(GroupedColumns()[i], RowKey(r), g)
  {
    var ks := GroupKeys(ts);
    SummarizeGroupsAt(ts, ks, j);
    ColumnNamesDistinct();
    LabelledAt(GroupedColumns(), ColumnNames(), i);
    SummaryColumnsAreAggregations(ks[j], Group(ts, ks[j]), i);
  }

  // ----- One row per key -----

  /**
    The aggregate has exactly one row per distinct (day, category, region)
    present in the input: row keys are pairwise distinct, every transaction's
    key has a row, and every row's key is some transaction's key. So every
    transaction contributes to exactly one row.
  */
  lemma {:induction false} AggregateOneRowPerKey(ts: seq<Transaction>)
    ensures forall j1, j2 :: 0 <= j1 < j2 < |Aggregate(ts)| ==> RowKey(Aggregate(ts)[j1]) != RowKey(Aggregate(ts)[j2])
    ensures forall i :: 0 <= i < |ts| ==> HasRow(Aggregate(ts), KeyOf(ts[i]))
    ensures forall j :: 0 <= j < |Aggregate(ts)| ==> HasTransaction(ts, RowKey(Aggregate(ts)[j]))
  {
    RowKeysDistinct(ts);
    EveryKeyHasRow(ts);
    EveryRowHasTransaction(ts);
  }

  lemma RowKeysDistinct(ts: seq<Transaction>)
    ensures forall j1, j2 :: 0 <= j1 < j2 < |Aggregate(ts)| ==> RowKey(Aggregate(ts)[j1]) != RowKey(Aggregate(ts)[j2])
  {
    RowKeysAreGroupKeys(ts);
    assert NoDuplicates(GroupKeys(ts));
  }

  lemma {:induction false} EveryKeyHasRow(ts: seq<Transaction>)
    ensures forall i :: 0 <= i < |ts| ==> HasRow(Aggregate(ts), KeyOf(ts[i]))
  {
    var agg := Aggregate(ts);
    forall i | 0 <= i < |ts| ensures HasRow(agg, KeyOf(ts[i])) {
      KeyHasRow(ts, i);
    }
  }

  lemma {:induction false} EveryRowHasTransaction(ts: seq<Transaction>)
    ensures forall j :: 0 <= j < |Aggregate(ts)| ==> HasTransaction(ts, RowKey(Aggregate(ts)[j]))
  {
    var agg := Aggregate(ts);
    forall j | 0 <= j < |agg| ensures HasTransaction(ts, RowKey(agg[j])) {
      RowHasTransaction(ts, j);
    }
  }

  lemma RowKeysAreGroupKeys(ts: seq<Transaction>)
    ensures |Aggregate(ts)| == |GroupKeys(ts)|
    ensures forall j :: 0 <= j < |Aggregate(ts)| ==> RowKey(Aggregate(ts)[j]) == GroupKeys(ts)[j]
  {
    var ks := GroupKeys(ts);
    forall j | 0 <= j < |ks| ensures RowKey(Aggregate(ts)[j]) == ks[j] {
      SummarizeGroupsAt(ts, ks, j);
    }
  }

  lemma KeyHasRow(ts: seq<Transaction>, i: int)
    requires 0 <= i < |ts|
    ensures HasRow(Aggregate(ts), KeyOf(ts[i]))
  {
    var ks := GroupKeys(ts);
    RowKeysAreGroupKeys(ts);
    assert KeyOf(ts[i]) in Image(ts, KeyOf);
    assert KeyOf(ts[i]) in ks;
    var j :| 0 <= j < |ks| && ks[j] == KeyOf(ts[i]);
    assert RowKey(Aggregate(ts)[j]) == KeyOf(ts[i]);
  }

  lemma RowHasTransaction(ts: seq<Transaction>, j: int)
    requires 0 <= j < |Aggregate(ts)|
    ensures HasTransaction(ts, RowKey(Aggregate(ts)[j]))
  {
    var ks := GroupKeys(ts);
    RowKeysAreGroupKeys(ts);
    assert ks[j] in Image(ts, KeyOf);
    var x :| x in ts && KeyOf(x) == ks[j];
    var i :| 0 <= i < |ts| && ts[i] == x;
    assert KeyOf(ts[i]) == RowKey(Aggregate(ts)[j]);
  }

  // ----- What each row holds -----

  /**
    Each row, read against the input: with g the transactions sharing the
    row's key, the row holds the sums of Sales, Profit and Quantity over g,
    the means of Sales and Profit over |g| transactions, and the number of
    distinct order ids in g, which lies between 1 and |g|.
  */
  lemma AggregateRowMeaning(ts: seq<Transaction>, j: int)
    requires 0 <= j < |Aggregate(ts)|
    ensures var r := Aggregate(ts)[j]; var g := Group(ts, RowKey(r));
      && |g| > 0
      && r.totalSales == Sum(g, SalesOf)
      && r.avgSales == r.totalSales / (|g| as real)
      && r.totalProfit == Sum(g, ProfitOf)
      && r.avgProfit == r.totalProfit / (|g| as real)
      && r.totalQuantity == IntSum(g, QuantityOf)
      && r.uniqueOrders == |Image(g, OrderIdOf)|
      && 1 <= r.uniqueOrders <= |g|
  {
    var ks := GroupKeys(ts);
    SummarizeGroupsAt(ts, ks, j);
    var r := Aggregate(ts)[j];
    var g := Group(ts, RowKey(r));
    SummarizeMeans(ks[j], g);
    var ids := DistinctKeys(g, OrderIdOf);
    DistinctCardinality(ids);
    assert Image(g, OrderIdOf) == set x | x in ids;
  }

  /** A duplicate-free sequence has as many elements as its set. */
  lemma {:induction false} DistinctCardinality<T>(s: seq<T>)
    requires NoDuplicates(s)
    ensures |set x | x in s| == |s|
  {
    if |s| > 0 {
      var init := s[..|s| - 1];
      assert NoDuplicates(init);
      DistinctCardinality(init);
      assert (set x | x in s) == (set x | x in init) + {s[|s| - 1]};
    }
  }

  /** `unique_orders` equals the group size exactly when no order id repeats in the group. */
  lemma UniqueOrdersEqualsGroupSize(ts: seq<Transaction>, j: int)
    requires 0 <= j < |Aggregate(ts)|
    ensures var g := Group(ts, RowKey(Aggregate(ts)[j]));
      Aggregate(ts)[j].uniqueOrders == |g| <==> InjectiveOn(g, OrderIdOf)
  {
    var ks := GroupKeys(ts);
    SummarizeGroupsAt(ts, ks, j);
    SummarizeMeans(ks[j], Group(ts, ks[j]));
  }

  /** A group with a single transaction has mean = total and one distinct order. */
  lemma SingleTransactionGroup(ts: seq<Transaction>, i: int, j: int)
    requires 0 <= i < |ts|
    requires forall i' :: 0 <= i' < |ts| && KeyOf(ts[i']) == KeyOf(ts[i]) ==> i' == i
    requires 0 <= j < |Aggregate(ts)| && RowKey(Aggregate(ts)[j]) == KeyOf(ts[i])
    ensures Aggregate(ts)[j].totalSales == ts[i].sales == Aggregate(ts)[j].avgSales
    ensures Aggregate(ts)[j].totalProfit == ts[i].profit == Aggregate(ts)[j].avgProfit
    ensures Aggregate(ts)[j].totalQuantity == ts[i].quantity
    ensures Aggregate(ts)[j].uniqueOrders == 1
  {
    var x := ts[i];
    var ks := GroupKeys(ts);
    SummarizeGroupsAt(ts, ks, j);
    SingletonGroup(ts, KeyOf(x), i);
    SummarizeSingleton(KeyOf(x), x);
  }

  lemma SummarizeSingleton(k: GroupKey, x: Transaction)
    ensures Summarize(k, [x]).totalSales == x.sales == Summarize(k, [x]).avgSales
    ensures Summarize(k, [x]).totalProfit == x.profit == Summarize(k, [x]).avgProfit
    ensures Summarize(k, [x]).totalQuantity == x.quantity
    ensures Summarize(k, [x]).uniqueOrders == 1
  {
    assert [x][..0] == [];
    assert Sum([x], SalesOf) == x.sales;
    assert Sum([x], ProfitOf) == x.profit;
    assert IntSum([x], QuantityOf) == x.quantity;
  }

  lemma {:induction false} SingletonGroup(ts: seq<Transaction>, k: GroupKey, i: int)
    requires 0 <= i < |ts| && KeyOf(ts[i]) == k
    requires forall i' :: 0 <= i' < |ts| && KeyOf(ts[i']) == k ==> i' == i
    ensures Group(ts, k) == [ts[i]]
  {
    var init := ts[..|ts| - 1];
    if i < |ts| - 1 {
      SingletonGroup(init, k, i);
    } else {
      NoneInGroup(init, k);
    }
  }

  lemma {:induction false} NoneInGroup(ts: seq<Transaction>, k: GroupKey)
    requires forall i :: 0 <= i < |ts| ==> KeyOf(ts[i]) != k
    ensures Group(ts, k) == []
  {
    if |ts| > 0 {
      NoneInGroup(ts[..|ts| - 1], k);
    }
  }

  // ----- Conservation of totals -----

  lemma {:induction false} SumOverSummaries(ts: seq<Transaction>, ks: seq<GroupKey>, rf: AggregateRow -> real, tf: Transaction -> real)
    requires forall j :: 0 <= j < |ks| ==> ks[j] in Image(ts, KeyOf)
    requires forall k, g :: |g| > 0 ==> rf(Summarize(k, g)) == Sum(g, tf)
    ensures Sum(SummarizeGroups(ts, ks), rf) == SumByKeys(ts, KeyOf, ks, tf)
  {
    if |ks| > 0 {
      var front := ks[..|ks| - 1];
      SumOverSummaries(ts, front, rf, tf);
      var rows := SummarizeGroups(ts, ks);
      assert rows[..|rows| - 1] == SummarizeGroups(ts, front);
    }
  }

  lemma TotalQuantityAsSum()
    ensures forall k, g :: |g| > 0 ==> TotalQuantityAsReal(Summarize(k, g)) == Sum(g, QuantityAsReal)
  {
    forall k, g | |g| > 0 ensures TotalQuantityAsReal(Summarize(k, g)) == Sum(g, QuantityAsReal) {
      IntSumAsSum(g, QuantityOf, QuantityAsReal);
    }
  }

  /**
    Summing `total_sales` over the aggregate gives the sum of `Sales` over the
    input; likewise `total_profit` with `Profit` and `total_quantity` with
    `Quantity`.
  */
  lemma ConservationOfTotals(ts: seq<Transaction>)
    ensures Sum(Aggregate(ts), TotalSalesOf) == Sum(ts, SalesOf)
    ensures Sum(Aggregate(ts), TotalProfitOf) == Sum(ts, ProfitOf)
    ensures IntSum(Aggregate(ts), TotalQuantityOf) == IntSum(ts, QuantityOf)
  {
    GroupKeysCover(ts);
    var ks := GroupKeys(ts);
    SumOverSummaries(ts, ks, TotalSalesOf, SalesOf);
    SumByKeysIsSum(ts, KeyOf, ks, SalesOf);
    SumOverSummaries(ts, ks, TotalProfitOf, ProfitOf);
    SumByKeysIsSum(ts, KeyOf, ks, ProfitOf);
    QuantityConserved(ts);
  }

  lemma GroupKeysCover(ts: seq<Transaction>)
    ensures forall i :: 0 <= i < |ts| ==> KeyOf(ts[i]) in GroupKeys(ts)
  {
    forall i | 0 <= i < |ts| ensures KeyOf(ts[i]) in GroupKeys(ts) {
      assert KeyOf(ts[i]) in Image(ts, KeyOf);
    }
  }

  lemma QuantityConserved(ts: seq<Transaction>)
    ensures IntSum(Aggregate(ts), TotalQuantityOf) == IntSum(ts, QuantityOf)
  {
    GroupKeysCover(ts);
    var ks := GroupKeys(ts);
    TotalQuantityAsSum();
    SumOverSummaries(ts, ks, TotalQuantityAsReal, QuantityAsReal);
    SumByKeysIsSum(ts, KeyOf, ks, QuantityAsReal);
    IntSumAsSum(Aggregate(ts), TotalQuantityOf, TotalQuantityAsReal);
    IntSumAsSum(ts, QuantityOf, QuantityAsReal);
  }

  /** Dates of the aggregate are the days of the input. */
  lemma AggregateDatesFromInput(ts: seq<Transaction>, j: int)
    requires 0 <= j < |Aggregate(ts)|
    ensures exists i :: 0 <= i < |ts| && OrderDay(ts[i]) == Aggregate(ts)[j].date
  {
    AggregateOneRowPerKey(ts);
  }

  // ----- A worked example -----

  function ExampleDay(): Date { CalendarDate(2024, 3, 15) }

  function ExampleTransactions(): seq<Transaction> {
    [Transaction("CA-2024-000001", ExampleDay(), "Technology", "East", 100.0, 10.0, 1),
     Transaction("CA-2024-000002", ExampleDay(), "Technology", "East", 200.0, 20.0, 2),
     Transaction("CA-2024-000003", ExampleDay(), "Technology", "East", 300.0, 30.0, 3)]
  }

  lemma ExampleKeys()
    ensures GroupKeys(ExampleTransactions()) == [GroupKey(ExampleDay(), "Technology", "East")]
  {
    var ts := ExampleTransactions();
    var t1, t2, t3 := ts[0], ts[1], ts[2];
    var k := GroupKey(ExampleDay(), "Technology", "East");
    var p1, p2 := [t1], [t1, t2];
    assert ts == [t1, t2, t3];
    assert ts[..2] == p2 && p2[..1] == p1 && p1[..0] == [];
    assert GroupKeys(p1) == [k];
    assert GroupKeys(p2) == [k];
  }

  lemma ExampleGroup()
    ensures Group(ExampleTransactions(), GroupKey(ExampleDay(), "Technology", "East")) == ExampleTransactions()
  {
    var ts := ExampleTransactions();
    var t1, t2, t3 := ts[0], ts[1], ts[2];
    var k := GroupKey(ExampleDay(), "Technology", "East");
    var p1, p2 := [t1], [t1, t2];
    assert ts == [t1, t2, t3];
    assert ts[..2] == p2 && p2[..1] == p1 && p1[..0] == [];
    assert Group(p1, k) == p1;
    assert Group(p2, k) == p2;
  }

  lemma ExampleSums()
    ensures Sum(ExampleTransactions(), SalesOf) == 600.0
    ensures Sum(ExampleTransactions(), ProfitOf) == 60.0
    ensures IntSum(ExampleTransactions(), QuantityOf) == 6
    ensures |DistinctKeys(ExampleTransactions(), OrderIdOf)| == 3
  {
    var ts := ExampleTransactions();
    var t1, t2, t3 := ts[0], ts[1], ts[2];
    var p1, p2 := [t1], [t1, t2];
    assert ts == [t1, t2, t3];
    assert ts[..2] == p2 && p2[..1] == p1 && p1[..0] == [];
    SumAppend(p1, t2, SalesOf);
    SumAppend(p2, t3, SalesOf);
    SumAppend(p1, t2, ProfitOf);
    SumAppend(p2, t3, ProfitOf);
    assert p1 + [t2] == p2 && p2 + [t3] == ts;
    assert Sum(p1, SalesOf) == 100.0 && Sum(p1, ProfitOf) == 10.0;
    IntSumAppend(p1, t2, QuantityOf);
    IntSumAppend(p2, t3, QuantityOf);
    assert IntSum(p1, QuantityOf) == 1;
    assert InjectiveOn(ts, OrderIdOf);
  }

  /**
    Three transactions on one day, category "Technology", region "East",
    with distinct order ids, sales 100/200/300, profit 10/20/30 and quantity
    1/2/3 roll up into the single row (600, 200, 60, 20, 6, 3).
  */
  lemma ThreeSalesOneGroup()
    ensures Aggregate(ExampleTransactions()) ==
      [AggregateRow(ExampleDay(), "Technology", "East", 600.0, 200.0, 60.0, 20.0, 6, 3)]
  {
    var ts := ExampleTransactions();
    var k := GroupKey(ExampleDay(), "Technology", "East");
    ExampleKeys();
    ExampleGroup();
    ExampleSums();
    SummarizeGroupsAt(ts, [k], 0);
    assert |ts| == 3;
    var r := Summarize(k, ts);
    assert r == AggregateRow(k.day, k.category, k.region, 600.0, 600.0 / 3.0, 60.0, 60.0 / 3.0, 6, 3);
    assert Aggregate(ts) == [r];
  }
}
