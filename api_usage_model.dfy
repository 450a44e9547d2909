/** The ApiUsage document (backend/models/ApiUsage.js): one logged API
    request, with derived summaries and the time windows of the usage
    reports. */
module ApiUsageModel {
  import opened Wrappers
  import Rates

  /** The `isSuccess` virtual: a 2xx status. */
  predicate IsSuccess(statusCode: int) {
    200 <= statusCode < 300
  }

  /** The `performanceGrade` virtual on the response time in ms. */
  function PerformanceGrade(time: int): (g: Rates.Grade)
    ensures g == Rates.A <==> time < 100
    ensures g == Rates.B <==> 100 <= time < 300
    ensures g == Rates.C <==> 300 <= time < 500
    ensures g == Rates.D <==> 500 <= time < 1000
    ensures g == Rates.F <==> 1000 <= time
  {
    if time < 100 then Rates.A
    else if time < 300 then Rates.B
    else if time < 500 then Rates.C
    else if time < 1000 then Rates.D
    else Rates.F
  }

  /** A slower response never gets a better grade. */
  lemma PerformanceGradeMonotone(t1: int, t2: int)
    requires t1 <= t2
    ensures Rates.Rank(PerformanceGrade(t1)) <= Rates.Rank(PerformanceGrade(t2))
  {
  }

  const Units: seq<string> := ["B", "KB", "MB", "GB"]

  function Power1024(k: nat): (r: real)
    ensures r >= 1.0
  {
    if k == 0 then 1.0 else 1024.0 * Power1024(k - 1)
  }

  /** What `getFormattedSize` shows: "0 B" for zero bytes, otherwise a
      scaled size and its unit. The `toFixed(2)` text of the size is
      floating point and not rendered here. */
  datatype SizeText = ZeroBytes | Scaled(size: real, unit: string)

  /** `getFormattedSize`: divides by 1024 while the size is at least 1024
      and a larger unit is left. */
  method FormattedSize(bytes: int) returns (r: SizeText)
    ensures bytes == 0 <==> r == ZeroBytes
    ensures r.Scaled? ==> exists k :: (0 <= k < |Units| && r.unit == Units[k] &&
      r.size * Power1024(k) == bytes as real && (k < |Units| - 1 ==> r.size < 1024.0) &&
      (k > 0 ==> r.size >= 1.0))
  {
    if bytes == 0 {
      return ZeroBytes;
    }
    var size: real := bytes as real;
    var unitIndex: nat := 0;
    while size >= 1024.0 && unitIndex < |Units| - 1
      invariant 0 <= unitIndex < |Units|
      invariant size * Power1024(unitIndex) == bytes as real
      invariant unitIndex > 0 ==> size >= 1.0
      decreases |Units| - unitIndex
    {
      size := size / 1024.0;
      unitIndex := unitIndex + 1;
    }
    r := Scaled(size, Units[unitIndex]);
  }

  const HourMillis: int := 60 * 60 * 1000
  const DayMillis: int := 24 * HourMillis

  /** How far back the `timeRange` of the usage reports reaches; anything
      unrecognised means 24 hours. */
  function WindowMillis(timeRange: string): (r: int)
    ensures timeRange == "1h" ==> r == 3600000
    ensures timeRange == "7d" ==> r == 604800000
    ensures timeRange == "30d" ==> r == 2592000000
    ensures timeRange !in ["1h", "7d", "30d"] ==> r == 86400000
  {
    if timeRange == "1h" then HourMillis
    else if timeRange == "24h" then DayMillis
    else if timeRange == "7d" then 7 * DayMillis
    else if timeRange == "30d" then 30 * DayMillis
    else DayMillis
  }

  /** The start of a report's window. */
  function StartTime(now: int, timeRange: string := "24h"): (t: int)
    ensures t <= now - HourMillis
    ensures t >= now - 30 * DayMillis
  {
    now - WindowMillis(timeRange)
  }

  /** A longer window reaches back further. */
  lemma WindowsNested(now: int)
    ensures StartTime(now, "30d") < StartTime(now, "7d") < StartTime(now, "24h") < StartTime(now, "1h")
  {
  }

  datatype UsageInput = UsageInput(
    endpoint: string,
    statusCode: int,
    responseTime: int,
    requestSize: Option<int>,
    responseSize: Option<int>,
    metadata: Option<map<string, string>>)

  datatype UsageRecord = UsageRecord(
    endpoint: string,
    statusCode: int,
    responseTime: int,
    requestSize: int,
    responseSize: int,
    metadata: map<string, string>)

  /** `data.x || d` for a number. */
  function NumberOr(x: Option<int>, d: int): (r: int)
    ensures x.None? || x.value == 0 ==> r == d
    ensures x.Some? && x.value != 0 ==> r == x.value
  {
    if x.Some? && x.value != 0 then x.value else d
  }

  /** `recordUsage(data)`: sizes default to 0, metadata to `{}`. */
  function RecordUsage(data: UsageInput): (r: UsageRecord)
    ensures r.endpoint == data.endpoint && r.statusCode == data.statusCode && r.responseTime == data.responseTime
    ensures data.requestSize.None? ==> r.requestSize == 0
    ensures data.requestSize.Some? ==> r.requestSize == data.requestSize.value
    ensures data.responseSize.None? ==> r.responseSize == 0
    ensures data.responseSize.Some? ==> r.responseSize == data.responseSize.value
    ensures r.metadata == (if data.metadata.Some? then data.metadata.value else map[])
  {
    UsageRecord(data.endpoint, data.statusCode, data.responseTime,
      NumberOr(data.requestSize, 0), NumberOr(data.responseSize, 0),
      if data.metadata.Some? then data.metadata.value else map[])
  }

  /** `cleanupOldData(daysToKeep = 90)` deletes records stamped before
      this cutoff. */
  function CleanupCutoff(now: int, daysToKeep: int := 90): (c: int)
    ensures daysToKeep >= 0 ==> c <= now
  {
    now - daysToKeep * DayMillis
  }

  predicate Retained(timestamp: int, now: int, daysToKeep: int := 90) {
    !(timestamp < CleanupCutoff(now, daysToKeep))
  }

  /** By default a record survives exactly when it is at most 90 days old,
      and keeping more days never deletes more. */
  lemma RetentionWindow(timestamp: int, now: int, fewer: int, more: int)
    ensures Retained(timestamp, now) <==> now - timestamp <= 7776000000
    ensures fewer <= more && Retained(timestamp, now, fewer) ==> Retained(timestamp, now, more)
  {
    if fewer <= more {
      assert fewer * DayMillis <= more * DayMillis;
    }
  }
}
