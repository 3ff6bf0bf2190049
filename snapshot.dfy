/**
  The Iceberg-style table metadata record written once per run. Everything in
  it is fixed except the snapshot's creation time: the current wall-clock
  time in seconds, scaled to milliseconds and truncated to an integer. Here
  the clock reading (seconds since the epoch) is a parameter.
*/
module Snapshot {

  datatype SnapshotEntry = SnapshotEntry(snapshotId: int, timestampMs: int, manifestList: string)

  datatype TableMetadata = TableMetadata(
    formatVersion: int,
    tableUuid: string,
    location: string,
    currentSnapshotId: int,
    snapshots: seq<SnapshotEntry>,
    properties: map<string, string>)

  const FormatVersion := 2
  const TableUuid := "uuid-x5-retail-001"
  const TableLocation := "s3://x5-data-lake/retail/sales_daily"
  const SnapshotId := 1
  const ManifestList := "s3://x5-data-lake/retail/metadata/snap-1.avro"

  function WriteProperties(): map<string, string> {
    map["write.format.default" := "parquet", "write.parquet.compression-codec" := "snappy"]
  }

  /** Python's `int(x)` on a float: drops the fraction, rounding toward zero. */
  function TruncateTowardZero(x: real): (n: int)
    ensures x >= 0.0 ==> 0.0 <= n as real <= x < n as real + 1.0
    ensures x < 0.0 ==> n as real - 1.0 < x <= n as real <= 0.0
  {
    if x >= 0.0 then x.Floor else -((-x).Floor)
  }

  /** Milliseconds since the epoch recorded for a clock reading in seconds. */
  function TimestampMs(nowSeconds: real): int {
    TruncateTowardZero(nowSeconds * 1000.0)
  }

  /** The metadata of the one snapshot this run produces. */
  function BuildMetadata(nowSeconds: real): (m: TableMetadata)
    ensures m.formatVersion == 2
    ensures |m.snapshots| == 1
    ensures m.currentSnapshotId == m.snapshots[0].snapshotId == 1
    ensures m.snapshots[0].timestampMs == TimestampMs(nowSeconds)
    ensures "write.format.default" in m.properties && m.properties["write.format.default"] == "parquet"
    ensures "write.parquet.compression-codec" in m.properties && m.properties["write.parquet.compression-codec"] == "snappy"
    ensures m.properties.Keys == {"write.format.default", "write.parquet.compression-codec"}
  {
    TableMetadata(
      FormatVersion, TableUuid, TableLocation, SnapshotId,
      [SnapshotEntry(SnapshotId, TimestampMs(nowSeconds), ManifestList)],
      WriteProperties())
  }

  /** The current snapshot id names a listed snapshot. */
  predicate CurrentSnapshotListed(m: TableMetadata) {
    exists i :: 0 <= i < |m.snapshots| && m.snapshots[i].snapshotId == m.currentSnapshotId
  }

  lemma BuiltMetadataIsConsistent(nowSeconds: real)
    ensures CurrentSnapshotListed(BuildMetadata(nowSeconds))
  {
    assert BuildMetadata(nowSeconds).snapshots[0].snapshotId == BuildMetadata(nowSeconds).currentSnapshotId;
  }

  /**
    Two runs differ only in the snapshot's timestamp: replacing it makes
    their metadata records equal.
  */
  lemma OnlyTimestampVaries(a: real, b: real)
    ensures BuildMetadata(a).(snapshots := []) == BuildMetadata(b).(snapshots := [])
    ensures BuildMetadata(a).snapshots[0].(timestampMs := 0) == BuildMetadata(b).snapshots[0].(timestampMs := 0)
    ensures BuildMetadata(a) == BuildMetadata(b) <==> TimestampMs(a) == TimestampMs(b)
  {
  }

  /** A later clock reading never gives an earlier timestamp. */
  lemma {:induction false} TimestampMonotone(a: real, b: real)
    requires a <= b
    ensures TimestampMs(a) <= TimestampMs(b)
  {
    var x, y := a * 1000.0, b * 1000.0;
    assert x <= y;
    if x >= 0.0 {
      assert x.Floor <= y.Floor;
    } else if y < 0.0 {
      assert (-y).Floor <= (-x).Floor;
    }
  }

  /** The recorded timestamp is within one millisecond of the clock reading, toward zero. */
  lemma TimestampClose(nowSeconds: real)
    ensures var ms := TimestampMs(nowSeconds) as real; var exact := nowSeconds * 1000.0;
      (exact >= 0.0 ==> ms <= exact < ms + 1.0) && (exact < 0.0 ==> ms - 1.0 < exact <= ms)
  {
  }
}
