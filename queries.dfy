/**
  The three fixed analytical queries over the `sales_daily` aggregate table,
  each written as the pipeline its SQL denotes: group the aggregate rows by
  one column, sum the measures per group, derive the margin, optionally keep
  the groups with positive revenue, order by one score descending and keep
  a prefix of fixed length.
*/
module Queries {
  import opened Sequences
  import opened Ranking
  import opened Dates
  import opened Aggregation

  /** One output row of a query grouped by category or by region. */
  datatype SegmentStat = SegmentStat(name: string, revenue: real, profit: real, marginPercent: real)

  /** One output row of the daily trend query. */
  datatype DayStat = DayStat(date: Date, dailyRevenue: real, dailyItems: int, recordsCount: nat)

  const TopCategoriesLimit: nat := 5
  const DailyTrendLimit: nat := 7
  const TopRegionsLimit: nat := 3

  function CategoryOf(r: AggregateRow): string { r.category }
  function RegionOf(r: AggregateRow): string { r.region }
  function DateOf(r: AggregateRow): Date { r.date }

  function RevenueOf(s: SegmentStat): real { s.revenue }
  function MarginOf(s: SegmentStat): real { s.marginPercent }
  function HasPositiveRevenue(s: SegmentStat): bool { s.revenue > 0.0 }
  function DayScore(s: DayStat): real { DayOrdinal(s.date) as real }

  /**
    Profit as a percentage of revenue, guarded so that a group without
    positive revenue has margin 0 rather than an undefined quotient.
  */
  function MarginPercent(profit: real, revenue: real): (m: real)
    ensures revenue > 0.0 ==> m * revenue == profit * 100.0
    ensures revenue <= 0.0 ==> m == 0.0
  {
    if revenue > 0.0 then profit * 100.0 / revenue else 0.0
  }

  /** The rows of `rows` whose grouping column `key` equals `name`, summarised. */
  function SegmentOf(rows: seq<AggregateRow>, key: AggregateRow -> string, name: string): (s: SegmentStat)
    ensures s.name == name
    ensures s.revenue == Sum(Filter(rows, key, name), TotalSalesOf)
    ensures s.profit == Sum(Filter(rows, key, name), TotalProfitOf)
    ensures s.marginPercent == MarginPercent(s.profit, s.revenue)
  {
    var g := Filter(rows, key, name);
    var revenue := Sum(g, TotalSalesOf);
    var profit := Sum(g, TotalProfitOf);
    SegmentStat(name, revenue, profit, MarginPercent(profit, revenue))
  }

  /** GROUP BY `key`: one summary per distinct value of the column. */
  function Segments(rows: seq<AggregateRow>, key: AggregateRow -> string): seq<SegmentStat> {
    var names := DistinctKeys(rows, key);
    seq(|names|, i requires 0 <= i < |names| => SegmentOf(rows, key, names[i]))
  }

  /** The rows of `rows` dated `d`, summarised. */
  function DayStatOf(rows: seq<AggregateRow>, d: Date): (s: DayStat)
    ensures s.date == d
    ensures s.dailyRevenue == Sum(Filter(rows, DateOf, d), TotalSalesOf)
    ensures s.dailyItems == IntSum(Filter(rows, DateOf, d), TotalQuantityOf)
    ensures s.recordsCount == |Filter(rows, DateOf, d)|
  {
    var g := Filter(rows, DateOf, d);
    DayStat(d, Sum(g, TotalSalesOf), IntSum(g, TotalQuantityOf), |g|)
  }

  /** GROUP BY date. */
  function DayStats(rows: seq<AggregateRow>): seq<DayStat> {
    var days := DistinctKeys(rows, DateOf);
    seq(|days|, i requires 0 <= i < |days| => DayStatOf(rows, days[i]))
  }

  /** Top-5 categories by revenue. */
  function TopCategories(rows: seq<AggregateRow>): seq<SegmentStat> {
    TopK(Segments(rows, CategoryOf), RevenueOf, TopCategoriesLimit)
  }

  /** The seven latest days with their revenue, items and row count. */
  function DailyTrend(rows: seq<AggregateRow>): seq<DayStat> {
    TopK(DayStats(rows), DayScore, DailyTrendLimit)
  }

  /** Top-3 regions by margin among the regions with positive revenue. */
  function TopRegions(rows: seq<AggregateRow>): seq<SegmentStat> {
    TopK(Keep(Segments(rows, RegionOf), HasPositiveRevenue), MarginOf, TopRegionsLimit)
  }

  predicate NameListed(r: seq<SegmentStat>, name: string) {
    exists i :: 0 <= i < |r| && r[i].name == name
  }

  predicate DayListed(r: seq<DayStat>, d: Date) {
    exists i :: 0 <= i < |r| && r[i].date == d
  }

  /** Every group summary is the summary of a value present in the column, and every value has one. */
  lemma SegmentsFacts(rows: seq<AggregateRow>, key: AggregateRow -> string)
    ensures NoDuplicates(Segments(rows, key))
    ensures forall x :: x in Segments(rows, key) ==>
      x.name in Image(rows, key) && x == SegmentOf(rows, key, x.name)
    ensures forall name :: name in Image(rows, key) ==> SegmentOf(rows, key, name) in Segments(rows, key)
  {
    var names := DistinctKeys(rows, key);
    var ss := Segments(rows, key);
    assert forall i :: 0 <= i < |ss| ==> ss[i].name == names[i];
    forall name | name in Image(rows, key)
      ensures SegmentOf(rows, key, name) in ss
    {
      var i :| 0 <= i < |names| && names[i] == name;
      assert ss[i] == SegmentOf(rows, key, name);
    }
  }

  /** Every day summary is the summary of a date present in the table, and every date has one. */
  lemma DayStatsFacts(rows: seq<AggregateRow>)
    ensures NoDuplicates(DayStats(rows))
    ensures forall x :: x in DayStats(rows) ==>
      x.date in Image(rows, DateOf) && x == DayStatOf(rows, x.date)
    ensures forall d :: d in Image(rows, DateOf) ==> DayStatOf(rows, d) in DayStats(rows)
  {
    var days := DistinctKeys(rows, DateOf);
    var ds := DayStats(rows);
    assert forall i :: 0 <= i < |ds| ==> ds[i].date == days[i];
    forall d | d in Image(rows, DateOf)
      ensures DayStatOf(rows, d) in ds
    {
      var i :| 0 <= i < |days| && days[i] == d;
      assert ds[i] == DayStatOf(rows, d);
    }
  }

  /** Distinct summaries in a duplicate-free sequence of summaries have distinct names. */
  lemma DistinctNames(rows: seq<AggregateRow>, key: AggregateRow -> string, r: seq<SegmentStat>)
    requires NoDuplicates(r)
    requires forall x :: x in r ==> x == SegmentOf(rows, key, x.name)
    ensures forall i, j :: 0 <= i < j < |r| ==> r[i].name != r[j].name
  {
    forall i, j | 0 <= i < j < |r|
      ensures r[i].name != r[j].name
    {
      assert r[i] == SegmentOf(rows, key, r[i].name) && r[j] == SegmentOf(rows, key, r[j].name);
    }
  }

  function ProfitOfStat(s: SegmentStat): real { s.profit }
  function DailyRevenueOf(s: DayStat): real { s.dailyRevenue }
  function DailyItemsOf(s: DayStat): int { s.dailyItems }
  function DailyItemsAsReal(s: DayStat): real { s.dailyItems as real }
  function RecordsCountOf(s: DayStat): int { s.recordsCount }
  function RecordsCountAsReal(s: DayStat): real { s.recordsCount as real }
  function OneRow(r: AggregateRow): real { 1.0 }

  /**
    Grouping the aggregate by one column loses and duplicates nothing: the
    revenues of the groups add up to the table's total sales, and their
    profits to its total profit.
  */
  lemma SegmentsConserveTotals(rows: seq<AggregateRow>, key: AggregateRow -> string)
    ensures Sum(Segments(rows, key), RevenueOf) == Sum(rows, TotalSalesOf)
    ensures Sum(Segments(rows, key), ProfitOfStat) == Sum(rows, TotalProfitOf)
  {
    var names := DistinctKeys(rows, key);
    var ss := Segments(rows, key);
    forall i | 0 <= i < |rows| ensures key(rows[i]) in names {
      assert key(rows[i]) in Image(rows, key);
    }
    SumOfSummaries(rows, key, names, ss, RevenueOf, TotalSalesOf);
    SumByKeysIsSum(rows, key, names, TotalSalesOf);
    SumOfSummaries(rows, key, names, ss, ProfitOfStat, TotalProfitOf);
    SumByKeysIsSum(rows, key, names, TotalProfitOf);
  }

  /**
    Grouping the aggregate by date loses and duplicates nothing: the daily
    revenues add up to the table's total sales, the daily items to its total
    quantity, and the records counts to its number of rows.
  */
  lemma DayStatsConserveTotals(rows: seq<AggregateRow>)
    ensures Sum(DayStats(rows), DailyRevenueOf) == Sum(rows, TotalSalesOf)
    ensures IntSum(DayStats(rows), DailyItemsOf) == IntSum(rows, TotalQuantityOf)
    ensures IntSum(DayStats(rows), RecordsCountOf) == |rows|
  {
    var days := DistinctKeys(rows, DateOf);
    var ds := DayStats(rows);
    forall i | 0 <= i < |rows| ensures DateOf(rows[i]) in days {
      assert DateOf(rows[i]) in Image(rows, DateOf);
    }
    SumOfSummaries(rows, DateOf, days, ds, DailyRevenueOf, TotalSalesOf);
    SumByKeysIsSum(rows, DateOf, days, TotalSalesOf);
    DayItemsConserved(rows, days, ds);
    DayCountsConserved(rows, days, ds);
  }

  lemma DayItemsConserved(rows: seq<AggregateRow>, days: seq<Date>, ds: seq<DayStat>)
    requires days == DistinctKeys(rows, DateOf) && ds == DayStats(rows)
    requires forall i :: 0 <= i < |rows| ==> DateOf(rows[i]) in days
    ensures IntSum(ds, DailyItemsOf) == IntSum(rows, TotalQuantityOf)
  {
    forall i | 0 <= i < |days|
      ensures DailyItemsAsReal(ds[i]) == Sum(Filter(rows, DateOf, days[i]), TotalQuantityAsReal)
    {
      IntSumAsSum(Filter(rows, DateOf, days[i]), TotalQuantityOf, TotalQuantityAsReal);
    }
    SumOfSummaries(rows, DateOf, days, ds, DailyItemsAsReal, TotalQuantityAsReal);
    SumByKeysIsSum(rows, DateOf, days, TotalQuantityAsReal);
    IntSumAsSum(ds, DailyItemsOf, DailyItemsAsReal);
    IntSumAsSum(rows, TotalQuantityOf, TotalQuantityAsReal);
  }

  lemma DayCountsConserved(rows: seq<AggregateRow>, days: seq<Date>, ds: seq<DayStat>)
    requires days == DistinctKeys(rows, DateOf) && ds == DayStats(rows)
    requires forall i :: 0 <= i < |rows| ==> DateOf(rows[i]) in days
    ensures IntSum(ds, RecordsCountOf) == |rows|
  {
    forall i | 0 <= i < |days|
      ensures RecordsCountAsReal(ds[i]) == Sum(Filter(rows, DateOf, days[i]), OneRow)
    {
      SumOfOnes(Filter(rows, DateOf, days[i]), OneRow);
    }
    SumOfSummaries(rows, DateOf, days, ds, RecordsCountAsReal, OneRow);
    SumByKeysIsSum(rows, DateOf, days, OneRow);
    SumOfOnes(rows, OneRow);
    IntSumAsSum(ds, RecordsCountOf, RecordsCountAsReal);
  }

  /**
    The top-categories query: at most five distinct categories present in
    the table, ordered by revenue descending, each with its revenue and
    profit summed over its aggregate rows; a category left out earns no
    more than any category listed; and with fewer than five rows every
    category is listed.
  */
  lemma TopCategoriesSpec(rows: seq<AggregateRow>)
    ensures |TopCategories(rows)| <= 5
    ensures SortedDesc(TopCategories(rows), RevenueOf)
    ensures forall i, j :: 0 <= i < j < |TopCategories(rows)| ==>
      TopCategories(rows)[i].name != TopCategories(rows)[j].name
    ensures forall x :: x in TopCategories(rows) ==>
      && x.name in Image(rows, CategoryOf)
      && x.revenue == Sum(Filter(rows, CategoryOf, x.name), TotalSalesOf)
      && x.profit == Sum(Filter(rows, CategoryOf, x.name), TotalProfitOf)
      && x.marginPercent == MarginPercent(x.profit, x.revenue)
    ensures forall c, j ::
      (c in Image(rows, CategoryOf) && !NameListed(TopCategories(rows), c) && 0 <= j < |TopCategories(rows)|) ==>
      Sum(Filter(rows, CategoryOf, c), TotalSalesOf) <= TopCategories(rows)[j].revenue
    ensures |TopCategories(rows)| < 5 ==>
      forall c :: c in Image(rows, CategoryOf) ==> NameListed(TopCategories(rows), c)
  {
    var ss := Segments(rows, CategoryOf);
    var r := TopCategories(rows);
    SegmentsFacts(rows, CategoryOf);
    TopKProperties(ss, RevenueOf, 5);
    DistinctNames(rows, CategoryOf, r);
    forall c, j | c in Image(rows, CategoryOf) && !NameListed(r, c) && 0 <= j < |r|
      ensures Sum(Filter(rows, CategoryOf, c), TotalSalesOf) <= r[j].revenue
    {
      var x := SegmentOf(rows, CategoryOf, c);
      assert forall i :: 0 <= i < |r| ==> r[i].name != x.name;
      TopKLeftOut(ss, RevenueOf, 5, x, j);
    }
    if |r| < 5 {
      forall c | c in Image(rows, CategoryOf)
        ensures NameListed(r, c)
      {
        var x := SegmentOf(rows, CategoryOf, c);
        assert x in multiset(ss);
        var i :| 0 <= i < |r| && r[i] == x;
        assert r[i].name == c;
      }
    }
  }

  /** An empty table lists no category. */
  lemma TopCategoriesOfEmpty()
    ensures TopCategories([]) == []
  {
    assert Segments([], CategoryOf) == [];
  }

  /**
    The daily-trend query: at most seven dates present in the table, in
    strictly descending order, each with its revenue and items summed over
    its aggregate rows and the number of those rows; every date left out is
    older than every date listed; with fewer than seven rows every date is
    listed.
  */
  lemma DailyTrendSpec(rows: seq<AggregateRow>)
    ensures |DailyTrend(rows)| <= 7
    ensures forall i, j :: 0 <= i < j < |DailyTrend(rows)| ==>
      Before(DailyTrend(rows)[j].date, DailyTrend(rows)[i].date)
    ensures forall x :: x in DailyTrend(rows) ==>
      && x.date in Image(rows, DateOf)
      && x.dailyRevenue == Sum(Filter(rows, DateOf, x.date), TotalSalesOf)
      && x.dailyItems == IntSum(Filter(rows, DateOf, x.date), TotalQuantityOf)
      && x.recordsCount == |Filter(rows, DateOf, x.date)|
    ensures forall d, j ::
      (d in Image(rows, DateOf) && !DayListed(DailyTrend(rows), d) && 0 <= j < |DailyTrend(rows)|) ==>
      Before(d, DailyTrend(rows)[j].date)
    ensures |DailyTrend(rows)| < 7 ==>
      forall d :: d in Image(rows, DateOf) ==> DayListed(DailyTrend(rows), d)
  {
    DailyTrendMembers(rows);
    DailyTrendOrder(rows);
    DailyTrendLeftOut(rows);
    DailyTrendComplete(rows);
  }

  lemma DailyTrendMembers(rows: seq<AggregateRow>)
    ensures |DailyTrend(rows)| <= 7
    ensures forall x :: x in DailyTrend(rows) ==>
      && x.date in Image(rows, DateOf)
      && x.dailyRevenue == Sum(Filter(rows, DateOf, x.date), TotalSalesOf)
      && x.dailyItems == IntSum(Filter(rows, DateOf, x.date), TotalQuantityOf)
      && x.recordsCount == |Filter(rows, DateOf, x.date)|
  {
    DayStatsFacts(rows);
    TopKProperties(DayStats(rows), DayScore, 7);
  }

  lemma DailyTrendOrder(rows: seq<AggregateRow>)
    ensures forall i, j :: 0 <= i < j < |DailyTrend(rows)| ==>
      Before(DailyTrend(rows)[j].date, DailyTrend(rows)[i].date)
  {
    var r := DailyTrend(rows);
    DayStatsFacts(rows);
    TopKProperties(DayStats(rows), DayScore, 7);
    forall i, j | 0 <= i < j < |r|
      ensures Before(r[j].date, r[i].date)
    {
      assert r[i] == DayStatOf(rows, r[i].date) && r[j] == DayStatOf(rows, r[j].date);
      DayOrdinalOrder(r[j].date, r[i].date);
    }
  }

  lemma DailyTrendLeftOut(rows: seq<AggregateRow>)
    ensures forall d, j ::
      (d in Image(rows, DateOf) && !DayListed(DailyTrend(rows), d) && 0 <= j < |DailyTrend(rows)|) ==>
      Before(d, DailyTrend(rows)[j].date)
  {
    var ds := DayStats(rows);
    var r := DailyTrend(rows);
    DayStatsFacts(rows);
    forall d, j | d in Image(rows, DateOf) && !DayListed(r, d) && 0 <= j < |r|
      ensures Before(d, r[j].date)
    {
      var x := DayStatOf(rows, d);
      assert forall i :: 0 <= i < |r| ==> r[i].date != x.date;
      TopKLeftOut(ds, DayScore, 7, x, j);
      DayOrdinalOrder(d, r[j].date);
    }
  }

  lemma DailyTrendComplete(rows: seq<AggregateRow>)
    ensures |DailyTrend(rows)| < 7 ==>
      forall d :: d in Image(rows, DateOf) ==> DayListed(DailyTrend(rows), d)
  {
    var ds := DayStats(rows);
    var r := DailyTrend(rows);
    if |r| < 7 {
      DayStatsFacts(rows);
      TopKProperties(ds, DayScore, 7);
      forall d | d in Image(rows, DateOf)
        ensures DayListed(r, d)
      {
        var x := DayStatOf(rows, d);
        assert x in multiset(ds);
        var i :| 0 <= i < |r| && r[i] == x;
        assert r[i].date == d;
      }
    }
  }

  /** An empty table has no daily trend. */
  lemma DailyTrendOfEmpty()
    ensures DailyTrend([]) == []
  {
    assert DayStats([]) == [];
  }

  /**
    The top-regions query: at most three distinct regions present in the
    table, each with positive revenue, ordered by margin descending, with
    revenue and profit summed over the region's aggregate rows and the
    margin their guarded percentage; a region with positive revenue that is
    left out has a margin no higher than any region listed; with fewer than
    three rows every region with positive revenue is listed.
  */
  lemma TopRegionsSpec(rows: seq<AggregateRow>)
    ensures |TopRegions(rows)| <= 3
    ensures SortedDesc(TopRegions(rows), MarginOf)
    ensures forall i, j :: 0 <= i < j < |TopRegions(rows)| ==>
      TopRegions(rows)[i].name != TopRegions(rows)[j].name
    ensures forall x :: x in TopRegions(rows) ==>
      && x.name in Image(rows, RegionOf)
      && x.revenue == Sum(Filter(rows, RegionOf, x.name), TotalSalesOf)
      && x.revenue > 0.0
      && x.profit == Sum(Filter(rows, RegionOf, x.name), TotalProfitOf)
      && x.marginPercent * x.revenue == x.profit * 100.0
    ensures forall g, j ::
      (g in Image(rows, RegionOf) && !NameListed(TopRegions(rows), g) && PositiveRegion(rows, g)
       && 0 <= j < |TopRegions(rows)|) ==>
      SegmentOf(rows, RegionOf, g).marginPercent <= TopRegions(rows)[j].marginPercent
    ensures |TopRegions(rows)| < 3 ==>
      forall g :: g in Image(rows, RegionOf) && PositiveRegion(rows, g) ==> NameListed(TopRegions(rows), g)
  {
    TopRegionsMembers(rows);
    TopRegionsLeftOut(rows);
    TopRegionsComplete(rows);
  }

  /** A summary's margin scaled back by its positive revenue gives its profit in percent. */
  lemma MarginTimesRevenue(x: SegmentStat)
    requires x.revenue > 0.0 && x.marginPercent == MarginPercent(x.profit, x.revenue)
    ensures x.marginPercent * x.revenue == x.profit * 100.0
  {
    var m := MarginPercent(x.profit, x.revenue);
    assert m * x.revenue == x.profit * 100.0;
  }

  lemma TopRegionsMembers(rows: seq<AggregateRow>)
    ensures |TopRegions(rows)| <= 3
    ensures SortedDesc(TopRegions(rows), MarginOf)
    ensures forall i, j :: 0 <= i < j < |TopRegions(rows)| ==>
      TopRegions(rows)[i].name != TopRegions(rows)[j].name
    ensures forall x :: x in TopRegions(rows) ==>
      && x.name in Image(rows, RegionOf)
      && x.revenue == Sum(Filter(rows, RegionOf, x.name), TotalSalesOf)
      && x.revenue > 0.0
      && x.profit == Sum(Filter(rows, RegionOf, x.name), TotalProfitOf)
      && x.marginPercent * x.revenue == x.profit * 100.0
  {
    var ss := Segments(rows, RegionOf);
    var pool := Keep(ss, HasPositiveRevenue);
    var r := TopRegions(rows);
    SegmentsFacts(rows, RegionOf);
    TopKProperties(pool, MarginOf, 3);
    DistinctNames(rows, RegionOf, r);
    forall x | x in r
      ensures x.revenue > 0.0 && x.marginPercent * x.revenue == x.profit * 100.0
    {
      assert x in pool;
      assert x == SegmentOf(rows, RegionOf, x.name);
      MarginTimesRevenue(x);
    }
  }

  /** The region `g` has positive revenue. */
  predicate PositiveRegion(rows: seq<AggregateRow>, g: string) {
    SegmentOf(rows, RegionOf, g).revenue > 0.0
  }

  lemma TopRegionsLeftOut(rows: seq<AggregateRow>)
    ensures forall g, j ::
      (g in Image(rows, RegionOf) && !NameListed(TopRegions(rows), g) && PositiveRegion(rows, g)
       && 0 <= j < |TopRegions(rows)|) ==>
      SegmentOf(rows, RegionOf, g).marginPercent <= TopRegions(rows)[j].marginPercent
  {
    var ss := Segments(rows, RegionOf);
    var pool := Keep(ss, HasPositiveRevenue);
    var r := TopRegions(rows);
    forall g, j | g in Image(rows, RegionOf) && !NameListed(r, g) && PositiveRegion(rows, g) && 0 <= j < |r|
      ensures SegmentOf(rows, RegionOf, g).marginPercent <= r[j].marginPercent
    {
      var x := SegmentOf(rows, RegionOf, g);
      SegmentsFacts(rows, RegionOf);
      assert x in pool;
      assert forall i :: 0 <= i < |r| ==> r[i].name != x.name;
      TopKLeftOut(pool, MarginOf, 3, x, j);
    }
  }

  lemma TopRegionsComplete(rows: seq<AggregateRow>)
    ensures |TopRegions(rows)| < 3 ==>
      forall g :: g in Image(rows, RegionOf) && PositiveRegion(rows, g) ==> NameListed(TopRegions(rows), g)
  {
    var ss := Segments(rows, RegionOf);
    var pool := Keep(ss, HasPositiveRevenue);
    var r := TopRegions(rows);
    if |r| < 3 {
      TopKProperties(pool, MarginOf, 3);
      forall g | g in Image(rows, RegionOf) && PositiveRegion(rows, g)
        ensures NameListed(r, g)
      {
        var x := SegmentOf(rows, RegionOf, g);
        SegmentsFacts(rows, RegionOf);
        assert x in pool;
        assert x in multiset(pool);
        var i :| 0 <= i < |r| && r[i] == x;
        assert r[i].name == g;
      }
    }
  }

  /** An empty table lists no region. */
  lemma TopRegionsOfEmpty()
    ensures TopRegions([]) == []
  {
    assert Segments([], RegionOf) == [];
  }
}
