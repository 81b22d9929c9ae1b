/** What the chart callbacks hand to the widget: the `map` projections of bars,
    predictions and confidence markers in `ChartComponent.initializeChart`
    (src/app/components/home/chart/chart.component.ts) and in
    `AppComponent.loadChart` (src/app/app.component.ts). Prices are floating point
    and only copied, so `real` stands for them. */
module Feeds {
  import opened Wrappers
  import opened Timestamps
  import opened ChartData

  /** The price properties of a bar row; a prediction row uses only `close`. */
  datatype Ohlc = Ohlc(open: real, high: real, low: real, close: real)

  /** A candlestick as passed to `setData`. */
  datatype Bar = Bar(time: int, open: real, high: real, low: real, close: real)

  /** A line point as passed to `setData`. */
  datatype LinePoint = LinePoint(time: int, value: real)

  /** A row of `/confidences/{pair}`: `t` and `value` (taken in its string form). */
  datatype RawConfidence = RawConfidence(t: int, value: string)

  /** A `/confidences/{pair}` response, which the callbacks test with `Array.isArray`. */
  datatype ConfidencePayload = ConfidenceArray(rows: seq<RawConfidence>) | ConfidenceObject

  datatype Marker = Marker(time: int, position: string, color: string, shape: string, text: string)

  function BarOf(time: int, d: Ohlc): Bar
  {
    Bar(time, d.open, d.high, d.low, d.close)
  }

  // ----- ChartComponent -----

  /** `data.map(d => ({time: convertTimestamp(d.time), open, high, low, close}))`. */
  function ConvertedBars(rows: seq<Timed<Ohlc>>): (bars: seq<Bar>)
    ensures |bars| == |rows|
    ensures forall i :: 0 <= i < |rows| ==> bars[i] == BarOf(ConvertTimestamp(rows[i].time), rows[i].rest)
  {
    if rows == [] then [] else [BarOf(ConvertTimestamp(rows[0].time), rows[0].rest)] + ConvertedBars(rows[1..])
  }

  /** What the bars callback passes to `candleSeries.setData`; `None` when the
      response is not an array (nothing is set then). */
  function ChartBars(response: Response<Ohlc>): (r: Option<seq<Bar>>)
    ensures r.Some? <==> response.Bare?
    ensures r.Some? ==> r.value == ConvertedBars(response.items)
  {
    if response.Bare? then Some(ConvertedBars(response.items)) else None
  }

  /** `predictionData.map(d => ({time: convertTimestamp(d.time), value: d.close}))`. */
  function ConvertedLine(rows: seq<Timed<Ohlc>>): (line: seq<LinePoint>)
    ensures |line| == |rows|
    ensures forall i :: 0 <= i < |rows| ==> line[i] == LinePoint(ConvertTimestamp(rows[i].time), rows[i].rest.close)
  {
    if rows == [] then [] else [LinePoint(ConvertTimestamp(rows[0].time), rows[0].rest.close)] + ConvertedLine(rows[1..])
  }

  function ChartPredictionLine(response: Response<Ohlc>): (r: Option<seq<LinePoint>>)
    ensures r.Some? <==> response.Bare?
    ensures r.Some? ==> r.value == ConvertedLine(response.items)
  {
    if response.Bare? then Some(ConvertedLine(response.items)) else None
  }

  /** One marker per row: converted time, `'belowBar'`, `'white'` in dark mode and
      `'black'` otherwise, `'circle'`, the value as text. */
  function ChartMarkerRows(rows: seq<RawConfidence>, isDarkMode: bool): (markers: seq<Marker>)
    ensures |markers| == |rows|
    ensures forall i :: 0 <= i < |rows| ==>
      && markers[i].time == ConvertTimestamp(rows[i].t)
      && markers[i].text == rows[i].value
      && markers[i].position == "belowBar" && markers[i].shape == "circle"
      && (isDarkMode ==> markers[i].color == "white")
      && (!isDarkMode ==> markers[i].color == "black")
  {
    if rows == [] then []
    else [Marker(ConvertTimestamp(rows[0].t), "belowBar", if isDarkMode then "white" else "black", "circle", rows[0].value)]
         + ChartMarkerRows(rows[1..], isDarkMode)
  }

  /** `setMarkers` is called only for a non-empty array. */
  function ChartMarkers(payload: ConfidencePayload, isDarkMode: bool): (r: Option<seq<Marker>>)
    ensures r.Some? <==> payload.ConfidenceArray? && payload.rows != []
    ensures r.Some? ==> r.value == ChartMarkerRows(payload.rows, isDarkMode)
  {
    if payload.ConfidenceArray? && |payload.rows| > 0 then Some(ChartMarkerRows(payload.rows, isDarkMode)) else None
  }

  /** A response the service delivers in object form is shifted in place and then
      ignored by the chart, which accepts arrays only. */
  lemma ObjectResponsesNeverReachTheChart(response: Response<Ohlc>)
    requires response.Object?
    ensures ChartBars(response) == None && ChartPredictionLine(response) == None
  {
  }

  /** A bar shown by the chart component has been shifted twice: by the UTC offset in
      the service and by `convertTimestamp`. For a raw time in seconds the displayed
      time is the raw time plus the UTC offset plus one hour. */
  lemma ChartBarTimesShiftedTwice(raw: seq<Timed<Ohlc>>, timezoneOffsetMinutes: int, i: nat)
    requires i < |raw|
    requires raw[i].time + UtcOffsetSeconds(timezoneOffsetMinutes) <= MillisThreshold
    ensures var shown := ChartBars(Bare(Shifted(raw, UtcOffsetSeconds(timezoneOffsetMinutes))));
      && shown.Some? && |shown.value| == |raw|
      && shown.value[i].time == raw[i].time + UtcOffsetSeconds(timezoneOffsetMinutes) + TimeOffsetSeconds
  {
  }

  // ----- AppComponent -----

  /** The app copies bar times as the service delivered them. */
  function AppBarRows(rows: seq<Timed<Ohlc>>): (bars: seq<Bar>)
    ensures |bars| == |rows|
    ensures forall i :: 0 <= i < |rows| ==> bars[i] == BarOf(rows[i].time, rows[i].rest)
  {
    if rows == [] then [] else [BarOf(rows[0].time, rows[0].rest)] + AppBarRows(rows[1..])
  }

  function AppLineRows(rows: seq<Timed<Ohlc>>): (line: seq<LinePoint>)
    ensures |line| == |rows|
    ensures forall i :: 0 <= i < |rows| ==> line[i] == LinePoint(rows[i].time, rows[i].rest.close)
  {
    if rows == [] then [] else [LinePoint(rows[0].time, rows[0].rest.close)] + AppLineRows(rows[1..])
  }

  /** App markers: `adjustTimestamp(t)`, `'aboveBar'`, always `'white'`, `'arrowDown'`. */
  function AppMarkerRows(rows: seq<RawConfidence>, timezoneOffsetMinutes: int): (markers: seq<Marker>)
    ensures |markers| == |rows|
    ensures forall i :: 0 <= i < |rows| ==>
      markers[i] == Marker(AdjustTimestamp(rows[i].t, timezoneOffsetMinutes), "aboveBar", "white", "arrowDown", rows[i].value)
  {
    if rows == [] then []
    else [Marker(AdjustTimestamp(rows[0].t, timezoneOffsetMinutes), "aboveBar", "white", "arrowDown", rows[0].value)]
         + AppMarkerRows(rows[1..], timezoneOffsetMinutes)
  }

  function AppMarkers(payload: ConfidencePayload, timezoneOffsetMinutes: int): (r: Option<seq<Marker>>)
    ensures r.Some? <==> payload.ConfidenceArray? && payload.rows != []
    ensures r.Some? ==> r.value == AppMarkerRows(payload.rows, timezoneOffsetMinutes)
  {
    if payload.ConfidenceArray? && |payload.rows| > 0 then Some(AppMarkerRows(payload.rows, timezoneOffsetMinutes)) else None
  }

  /** The app's bars are shifted once, by the UTC offset, keeping their order and prices. */
  lemma AppBarTimesShiftedOnce(raw: seq<Timed<Ohlc>>, timezoneOffsetMinutes: int, i: nat)
    requires i < |raw|
    ensures var shown := AppBarRows(Shifted(raw, UtcOffsetSeconds(timezoneOffsetMinutes)));
      && |shown| == |raw|
      && shown[i] == BarOf(raw[i].time + UtcOffsetSeconds(timezoneOffsetMinutes), raw[i].rest)
  {
  }

  /** App markers and app bars are moved by the same amount for the same offset. */
  lemma AppMarkersAgreeWithBars(row: RawConfidence, bar: Timed<Ohlc>, timezoneOffsetMinutes: int)
    requires row.t == bar.time
    ensures AppMarkerRows([row], timezoneOffsetMinutes)[0].time
         == AppBarRows(Shifted([bar], UtcOffsetSeconds(timezoneOffsetMinutes)))[0].time
  {
  }
}
