/** The `lightweight-charts` objects the dashboard keeps (chart, candlestick series,
    line series) are opaque; only their identity matters here. */
module Widget {

  datatype Handle = Handle(id: nat)
}
