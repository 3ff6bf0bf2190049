/**
  Sales records before and after the `Order Date` column is converted to
  timestamps under the `%m/%d/%Y` format. The conversion is
  all-or-nothing: one bad value raises and the whole load aborts; no row is
  skipped and the order of rows is kept.
*/
module Transactions {
  import opened Wrappers
  import opened Dates

  /** A row of the sales file with the columns the pipeline reads. */
  datatype RawRecord = RawRecord(
    orderId: string,
    orderDate: string,
    category: string,
    region: string,
    sales: real,
    profit: real,
    quantity: int)

  /** The same row once its order date is a calendar day. */
  datatype Transaction = Transaction(
    orderId: string,
    orderDate: Date,
    category: string,
    region: string,
    sales: real,
    profit: real,
    quantity: int)

  /** The first row whose date did not parse, and why. */
  datatype LoadError = LoadError(position: nat, reason: DateError)

  function WithDate(r: RawRecord, d: Date): Transaction {
    Transaction(r.orderId, d, r.category, r.region, r.sales, r.profit, r.quantity)
  }

  /** The day of a transaction (`.dt.date`): the parsed value has no time of day. */
  function OrderDay(t: Transaction): Date {
    t.orderDate
  }

  /**
    Converts the `Order Date` column. Succeeds exactly when every value
    parses, giving one transaction per row, in order, with every other field
    unchanged; otherwise it reports the first row that fails.
  */
  function NormalizeDates(rows: seq<RawRecord>): (r: Result<seq<Transaction>, LoadError>)
    ensures r.Ok? <==> forall i :: 0 <= i < |rows| ==> ParseDate(rows[i].orderDate).Ok?
    ensures r.Ok? ==> |r.value| == |rows|
    ensures r.Ok? ==> forall i :: 0 <= i < |rows| ==>
              r.value[i] == WithDate(rows[i], ParseDate(rows[i].orderDate).value)
    ensures r.Err? ==>
              && r.error.position < |rows|
              && ParseDate(rows[r.error.position].orderDate) == Err(r.error.reason)
              && forall i :: 0 <= i < r.error.position ==> ParseDate(rows[i].orderDate).Ok?
  {
    if |rows| == 0 then Ok([])
    else
      match ParseDate(rows[0].orderDate)
      case Err(e) => Err(LoadError(0, e))
      case Ok(d) =>
        match NormalizeDates(rows[1..])
        case Err(e) => Err(LoadError(e.position + 1, e.reason))
        case Ok(ts) => Ok([WithDate(rows[0], d)] + ts)
  }
}
