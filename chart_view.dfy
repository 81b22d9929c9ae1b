/** `ChartComponent` (src/app/components/home/chart/chart.component.ts): one pair's
    chart, fed by the three data subscriptions, with the "Run Inference" button. The
    widget objects are `Handle`s; what a series shows is the last data handed to
    `setData` or `setMarkers`. The dialog is counted, not drawn. */
module ChartView {
  import opened Wrappers
  import opened Widget
  import opened PairNames
  import opened ChartData
  import opened Feeds

  class ChartComponent {
    const pair: Pair
    const isDarkMode: bool
    var chart: Option<Handle>
    var candleSeries: Option<Handle>
    var lineSeries: Option<Handle>
    var candleData: seq<Bar>
    var lineData: seq<LinePoint>
    var markers: seq<Marker>
    var isInferenceRunning: bool
    /** `triggerInference` requests sent, and those not yet answered. */
    var triggersIssued: nat
    var pendingTriggers: nat
    /** Execution-log dialogs opened. */
    var dialogsOpened: nat

    /** At most one inference request is ever in flight, and only while the flag is
        set. */
    predicate Valid()
      reads this
    {
      pendingTriggers <= 1 && (pendingTriggers == 1 ==> isInferenceRunning)
    }

    constructor (pair: Pair, isDarkMode: bool)
      ensures Valid()
      ensures this.pair == pair && this.isDarkMode == isDarkMode
      ensures chart == None && candleSeries == None && lineSeries == None
      ensures candleData == [] && lineData == [] && markers == []
      ensures !isInferenceRunning && triggersIssued == 0 && pendingTriggers == 0 && dialogsOpened == 0
    {
      this.pair := pair;
      this.isDarkMode := isDarkMode;
      chart, candleSeries, lineSeries := None, None, None;
      candleData, lineData, markers := [], [], [];
      isInferenceRunning := false;
      triggersIssued, pendingTriggers, dialogsOpened := 0, 0, 0;
    }

    /** `initializeChart()` up to the subscriptions: without a container element
        nothing happens; otherwise the chart and its two series are created. */
    method InitializeChart(hasContainer: bool, newChart: Handle, newCandles: Handle, newLine: Handle)
      modifies this`chart, this`candleSeries, this`lineSeries
      ensures hasContainer ==> chart == Some(newChart) && candleSeries == Some(newCandles) && lineSeries == Some(newLine)
      ensures !hasContainer ==> chart == old(chart) && candleSeries == old(candleSeries) && lineSeries == old(lineSeries)
    {
      if !hasContainer {
        return;
      }
      chart := Some(newChart);
      candleSeries := Some(newCandles);
      lineSeries := Some(newLine);
    }

    /** The `getModelBars` subscriber: only an array reaches the candle series, each
        bar's time passed through `convertTimestamp`. */
    method OnModelBars(data: Response<Ohlc>)
      modifies this`candleData
      ensures candleSeries.Some? && data.Bare? ==> candleData == ConvertedBars(data.items)
      ensures candleSeries.None? || data.Object? ==> candleData == old(candleData)
    {
      var bars := ChartBars(data);
      if bars.Some? && candleSeries.Some? {
        candleData := bars.value;
      }
    }

    /** The `getPrediction` subscriber: only an array reaches the line series, as
        (converted time, close) points. */
    method OnPrediction(data: Response<Ohlc>)
      modifies this`lineData
      ensures lineSeries.Some? && data.Bare? ==> lineData == ConvertedLine(data.items)
      ensures lineSeries.None? || data.Object? ==> lineData == old(lineData)
    {
      var line := ChartPredictionLine(data);
      if line.Some? && lineSeries.Some? {
        lineData := line.value;
      }
    }

    /** The `getConfidences` subscriber: a non-empty array becomes the candle series'
        markers; anything else leaves them as they were. */
    method OnConfidences(data: ConfidencePayload)
      modifies this`markers
      ensures candleSeries.Some? && data.ConfidenceArray? && data.rows != [] ==>
        markers == ChartMarkerRows(data.rows, isDarkMode)
      ensures candleSeries.None? || data.ConfidenceObject? || data == ConfidenceArray([]) ==> markers == old(markers)
    {
      var shown := ChartMarkers(data, isDarkMode);
      if shown.Some? && candleSeries.Some? {
        markers := shown.value;
      }
    }

    /** `onInference()`: while a run is marked as going only the dialog reopens;
        otherwise the flag is set and one inference request is sent. */
    method OnInference()
      requires Valid()
      modifies this`isInferenceRunning, this`triggersIssued, this`pendingTriggers, this`dialogsOpened
      ensures Valid() && isInferenceRunning
      ensures old(isInferenceRunning) ==>
        triggersIssued == old(triggersIssued) && pendingTriggers == old(pendingTriggers) && dialogsOpened == old(dialogsOpened) + 1
      ensures !old(isInferenceRunning) ==>
        triggersIssued == old(triggersIssued) + 1 && pendingTriggers == 1 && dialogsOpened == old(dialogsOpened)
    {
      if isInferenceRunning {
        dialogsOpened := dialogsOpened + 1;
      } else {
        isInferenceRunning := true;
        triggersIssued := triggersIssued + 1;
        pendingTriggers := pendingTriggers + 1;
      }
    }

    /** The success callback of `triggerInference`: the dialog opens and the flag stays
        set, so later clicks never send another request. */
    method OnInferenceTriggered()
      requires Valid() && pendingTriggers == 1
      modifies this`pendingTriggers, this`dialogsOpened
      ensures Valid() && isInferenceRunning
      ensures pendingTriggers == 0 && dialogsOpened == old(dialogsOpened) + 1
    {
      pendingTriggers := pendingTriggers - 1;
      dialogsOpened := dialogsOpened + 1;
    }

    /** The error callback of `triggerInference`: the flag is cleared so that the next
        click tries again. */
    method OnInferenceFailed()
      requires Valid() && pendingTriggers == 1
      modifies this`pendingTriggers, this`isInferenceRunning
      ensures Valid() && !isInferenceRunning && pendingTriggers == 0
    {
      pendingTriggers := pendingTriggers - 1;
      isInferenceRunning := false;
    }
  }
}
