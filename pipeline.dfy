/**
  The whole run of the pipeline over an already-read sales file: convert the
  order dates, aggregate by day, category and region, build the snapshot
  metadata, and answer the three analytical queries over the aggregate.
  A bad date aborts the run before anything is produced.
*/
module Pipeline {
  import opened Wrappers
  import opened Dates
  import opened Sequences
  import opened Transactions
  import opened Aggregation
  import opened Snapshot
  import opened Queries

  /** Everything one successful run produces. */
  datatype RunOutput = RunOutput(
    table: seq<AggregateRow>,
    metadata: TableMetadata,
    topCategories: seq<SegmentStat>,
    dailyTrend: seq<DayStat>,
    topRegions: seq<SegmentStat>)

  function RawSalesOf(r: RawRecord): real { r.sales }
  function RawProfitOf(r: RawRecord): real { r.profit }
  function RawQuantityOf(r: RawRecord): int { r.quantity }

  /**
    One run at wall-clock time `nowSeconds`. It succeeds exactly when every
    order date parses; on failure it names a row whose date fails, every
    earlier row's date being valid.
  */
  function RunPipeline(records: seq<RawRecord>, nowSeconds: real): (r: Result<RunOutput, LoadError>)
    ensures r.Ok? <==> forall i :: 0 <= i < |records| ==> ParseDateOk(records[i])
    ensures r.Err? ==>
      && r.error.position < |records|
      && ParseDate(records[r.error.position].orderDate) == Err(r.error.reason)
      && forall i :: 0 <= i < r.error.position ==> ParseDateOk(records[i])
    ensures r.Ok? ==> |r.value.metadata.snapshots| == 1 && r.value.metadata.snapshots[0].timestampMs == TimestampMs(nowSeconds)
  {
    match NormalizeDates(records)
    case Err(e) => Err(e)
    case Ok(ts) =>
      var table := Aggregate(ts);
      Ok(RunOutput(table, BuildMetadata(nowSeconds), TopCategories(table), DailyTrend(table), TopRegions(table)))
  }

  predicate ParseDateOk(r: RawRecord) {
    ParseDate(r.orderDate).Ok?
  }

  /** Converting the dates leaves the sums of the measures unchanged. */
  lemma {:induction false} NormalizePreservesSums(records: seq<RawRecord>)
    requires NormalizeDates(records).Ok?
    ensures Sum(NormalizeDates(records).value, SalesOf) == Sum(records, RawSalesOf)
    ensures Sum(NormalizeDates(records).value, ProfitOf) == Sum(records, RawProfitOf)
    ensures IntSum(NormalizeDates(records).value, QuantityOf) == IntSum(records, RawQuantityOf)
  {
    if |records| > 0 {
      var init := records[..|records| - 1];
      var ts := NormalizeDates(records).value;
      assert NormalizeDates(init).Ok?;
      NormalizePreservesSums(init);
      var tinit := NormalizeDates(init).value;
      assert ts[..|ts| - 1] == tinit;
    }
  }

  /**
    Conservation through the whole run: the aggregate's sales, profit and
    quantity totals are the sums of those columns over the file.
  */
  lemma RunConservesTotals(records: seq<RawRecord>, nowSeconds: real)
    requires RunPipeline(records, nowSeconds).Ok?
    ensures var table := RunPipeline(records, nowSeconds).value.table;
      && Sum(table, TotalSalesOf) == Sum(records, RawSalesOf)
      && Sum(table, TotalProfitOf) == Sum(records, RawProfitOf)
      && IntSum(table, TotalQuantityOf) == IntSum(records, RawQuantityOf)
  {
    var ts := NormalizeDates(records).value;
    ConservationOfTotals(ts);
    NormalizePreservesSums(records);
  }

  /** An empty file gives an empty table and empty query results. */
  lemma RunOnEmptyFile(nowSeconds: real)
    ensures RunPipeline([], nowSeconds).Ok?
    ensures RunPipeline([], nowSeconds).value.table == []
    ensures RunPipeline([], nowSeconds).value.topCategories == []
    ensures RunPipeline([], nowSeconds).value.dailyTrend == []
    ensures RunPipeline([], nowSeconds).value.topRegions == []
  {
    assert Aggregate([]) == [];
    TopCategoriesOfEmpty();
    DailyTrendOfEmpty();
    TopRegionsOfEmpty();
  }
}
