/** Integer timestamp arithmetic of the chart feeds. The browser's
    `new Date().getTimezoneOffset()` (minutes, positive west of UTC) is a parameter. */
module Timestamps {

  /** `1e10`: above this a timestamp is taken to be in milliseconds. */
  const MillisThreshold: int := 10_000_000_000

  /** `TIME_OFFSET_SECONDS` of the chart component: one hour. */
  const TimeOffsetSeconds: int := 3600

  /** `ChartComponent.convertTimestamp`: milliseconds (strictly above `1e10`) are
      floored to seconds, then one hour is added. */
  function ConvertTimestamp(ts: int): (r: int)
    ensures ts > MillisThreshold ==> (r - TimeOffsetSeconds) * 1000 <= ts < (r - TimeOffsetSeconds + 1) * 1000
    ensures ts <= MillisThreshold ==> r - ts == TimeOffsetSeconds
  {
    var adjusted := if ts > MillisThreshold then ts / 1000 else ts;
    adjusted + TimeOffsetSeconds
  }

  /** `ChartDataService.getCurrentUtcOffsetInSeconds`: `-getTimezoneOffset() * 60`. */
  function UtcOffsetSeconds(timezoneOffsetMinutes: int): (r: int)
    ensures r % 60 == 0
    ensures timezoneOffsetMinutes > 0 <==> r < 0
  {
    -timezoneOffsetMinutes * 60
  }

  /** `AppComponent.adjustTimestamp`: `timestamp - getTimezoneOffset() * 60`. It moves
      a timestamp by the same amount as the services' offset does. */
  function AdjustTimestamp(timestamp: int, timezoneOffsetMinutes: int): (r: int)
    ensures r == timestamp + UtcOffsetSeconds(timezoneOffsetMinutes)
  {
    timestamp - timezoneOffsetMinutes * 60
  }

  lemma ConvertSecondsExample()
    ensures ConvertTimestamp(1700000000) == 1700003600
  {
  }

  lemma ConvertMillisExample()
    ensures ConvertTimestamp(1700000000000) == 1700003600
  {
  }

  /** The comparison is strict: exactly `1e10` is read as seconds. */
  lemma ConvertAtThreshold()
    ensures ConvertTimestamp(MillisThreshold) == MillisThreshold + TimeOffsetSeconds
  {
  }

  /** Within the seconds range the conversion is a shift: differences are kept. */
  lemma ConvertSecondsKeepsDifferences(a: int, b: int)
    requires a <= MillisThreshold && b <= MillisThreshold
    ensures ConvertTimestamp(b) - ConvertTimestamp(a) == b - a
  {
  }

  /** Within each range the conversion never reverses the order of two timestamps. */
  lemma ConvertMonotoneWithinRange(a: int, b: int)
    requires a <= b
    requires (a <= MillisThreshold && b <= MillisThreshold) || (a > MillisThreshold && b > MillisThreshold)
    ensures ConvertTimestamp(a) <= ConvertTimestamp(b)
  {
  }

  /** Across the threshold the order is not kept: the last second-valued timestamp is
      displayed after the first millisecond-valued one. */
  lemma ConvertNotMonotoneAcrossThreshold()
    ensures ConvertTimestamp(MillisThreshold) > ConvertTimestamp(MillisThreshold + 1)
  {
  }
}
