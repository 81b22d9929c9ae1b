# Trading dashboard: selection, chart layout and timestamp model

A Dafny model of the client-side bookkeeping of an Angular trading dashboard. The model covers:

- **Pair names.** `cleanPair` normalises the names in the `/dumps` catalog (`PairNames`).
- **Selection.** Pairs are selected in the sidebar by toggling. The selection is persisted and then reconciled with the catalog (`Selection`, `Persistence`).
- **Chart wrappers.** `AppComponent` puts one chart wrapper per selected pair into `.main-content`, in catalog order. It keeps three dictionaries of widget objects (`charts`, `candleSeriesMap`, `lineSeriesMap`).
  - `Layout` states placement and removal as functions on values.
  - The `AppComponent` class in `Dashboard` updates its fields in place and is proved against those functions.
- **Home page.** `HomeComponent` does the same selection and theme bookkeeping without charts (`Home`).
- **One chart.** `ChartComponent` shows one pair's chart (`ChartView`). It covers the three data callbacks and the "Run Inference" flag.
- **Timestamps.**
  - `convertTimestamp`, `adjustTimestamp` and the services' UTC offset are in `Timestamps`.
  - `adjustTimestamps` in `ChartDataService` is in `ChartData`. It shifts a bare array into a new array, or shifts a `{data: [...]}` container in place.
  - The bar, prediction and marker projections the widget receives are in `Feeds`.
- **Date text.** `formatDateToDDMMYYYYHHMM` is in `DateFormat`.

The widget library's objects are abstract `Handle`s, numbered in creation order. The DOM is reduced to two things: whether `.main-content` exists, and the sequence of pairs whose wrappers it holds. `loadChart` looks the host up again on every call; the model fixes its presence for the component's lifetime (`hasMainContent`). `localStorage` is a `Storage` object with the `theme` and `selectedPairs` entries. The stored selection is kept as the list its JSON text encodes. The browser's `getTimezoneOffset()` and the `Date` getters are parameters. Prices are only copied, so they are `real`.

The two copies of the chart data service are modelled once:

- `src/app/services/chart-data.service.ts` is used by the home and chart components.
- `src/app/chart-data.service.ts` is used by `AppComponent`.

They differ only in logging and in whether the mapped array is assigned to `data` before it is returned. That difference cannot be observed.

Bars shown by `ChartComponent` are shifted twice:

1. by the UTC offset in `getModelBars`;
2. by `convertTimestamp`, which adds one hour.

The model keeps both shifts (`Feeds.ChartBarTimesShiftedTwice`). `AppComponent` copies bar times as delivered and shifts its markers with `adjustTimestamp`, which moves them by the same amount (`Feeds.AppMarkersAgreeWithBars`).

Some behaviour one might expect of such a dashboard is absent from the code, and the model follows the code:

- The log stream does not reconnect after it closes and has no back-off.
- `loadChart` guards against a second chart for a pair only by looking for the pair's chart container; there is no other in-flight or loading flag.
- Confidence markers are passed to the widget in the order they arrive. They are not sorted by time and duplicates are not removed.
- Only `AppComponent` reconciles the stored selection with the catalog. `HomeComponent` keeps a stored selection even when it names pairs that are no longer in the catalog.
- `fetchNewData` drops unavailable pairs from the selection but leaves their chart wrappers in place. `Dashboard.AppComponent.FetchNewData` states this. A pair with such a leftover wrapper that is selected again gets no new chart, and deselecting it removes the old one (`Layout.LoadThenRemoveDropsStale`).
- A dump that is falsy, or that has no letter or digit, cleans to `''`. That empty name enters the catalog like any other and can be selected (src/app/app.component.ts:70 and 320-325; `PairNames.CleanPairEmpty`).

## Model

| member | source | states |
|---|---|---|
| Seqs.IndexOf | src/app/app.component.ts:135 | `indexOf`: -1 exactly when the element is absent; otherwise an index holding it with no earlier occurrence |
| Seqs.RemoveAt | src/app/app.component.ts:138 | `splice(index, 1)`: one element shorter, elements before the index kept, later ones shifted down by one, and exactly one copy of the removed element gone |
| Seqs.RemoveFirst | src/app/app.component.ts:135-138 | `splice(indexOf(x), 1)`: exactly one copy of `x` is gone; the elements before its first occurrence are unchanged and the later ones move down by one |
| Seqs.Inserted | src/app/app.component.ts:195-199 | `insertBefore` at an index, or `appendChild` at the end: one element longer, the new element at that index, earlier elements unchanged, later ones moved up by one |
| Seqs.InsertedKeepsOrder | src/app/app.component.ts:195-199 | inserting a new element keeps every other element, in the same relative order |
| Seqs.RemoveFirstKeepsOrder | src/app/app.component.ts:311-314 | removing an element keeps the others in the order they had |
| PairNames.StripNonAlnum | src/app/app.component.ts:324 | the result contains only ASCII letters and digits and is no longer than the input |
| PairNames.CleanPair | src/app/app.component.ts:320-325 | `''` for a missing input; otherwise the input with every character outside `[a-zA-Z0-9]` removed, and only letters and digits remain |
| PairNames.StripConcat | src/app/app.component.ts:324 | stripping distributes over concatenation, so the kept characters keep their order |
| PairNames.StripCounts | src/app/app.component.ts:324 | every letter or digit occurs in the result exactly as often as in the input; no other character occurs |
| PairNames.StripFixedPoint | src/app/app.component.ts:324 | stripping leaves a string unchanged exactly when it is all letters and digits |
| PairNames.CleanPairIdempotent | src/app/components/home/home.component.ts:72-77 | cleaning a cleaned pair changes nothing |
| PairNames.CleanPairEmpty | src/app/components/home/home.component.ts:72-77 | the result is empty exactly when the input is missing or has no letter or digit |
| PairNames.Catalog | src/app/components/home/home.component.ts:39 | the catalog has one entry per dump, in order, each the `cleanPair` of its dump |
| PairNames.CatalogEntriesClean | src/app/app.component.ts:70 | every catalog entry consists of letters and digits only |
| Selection.Toggled | src/app/app.component.ts:134-144 | removes one occurrence of a selected pair, or appends an unselected pair at the end (as a multiset: minus or plus that pair) |
| Selection.ToggledRemovesFirstOccurrence | src/app/app.component.ts:135-139 | the removal takes out exactly the first occurrence, and all other elements keep their order |
| Selection.ToggleAbsentTwice | src/app/app.component.ts:135-143 | toggling an unselected pair twice restores the selection exactly |
| Selection.TogglePresentTwice | src/app/app.component.ts:135-143 | in a selection without duplicates, toggling a selected pair twice moves it to the end |
| Selection.TogglePresentNonLastTwiceReorders | src/app/app.component.ts:135-143 | when the pair was not last, toggling it twice does not restore the selection |
| Selection.ToggledKeepsNoDup | src/app/app.component.ts:134-144 | a selection without duplicates stays without duplicates, and the pair is selected afterwards exactly when it was not before |
| Selection.Reconciled | src/app/app.component.ts:74 | a pair is kept exactly when it is selected and in the catalog |
| Selection.ReconciledCounts | src/app/app.component.ts:74 | every kept pair keeps its multiplicity; dropped pairs vanish entirely |
| Selection.ReconciledConcat | src/app/app.component.ts:74 | reconciliation distributes over concatenation, so the relative order is kept |
| Selection.ReconciledKeepsAvailable | src/app/app.component.ts:118 | a selection inside the catalog is left unchanged |
| Selection.ReconciledIdempotent | src/app/app.component.ts:118 | reconciling twice equals reconciling once |
| Selection.ReconciledKeepsNoDup | src/app/app.component.ts:118 | reconciliation introduces no duplicates |
| Layout.FirstEligible | src/app/app.component.ts:184-193 | the scan stops at the first later catalog pair that is selected and has a wrapper, or at the end |
| Layout.ScanStart | src/app/app.component.ts:181-184 | the scan starts just after the pair's catalog position, or at 0 for a pair outside the catalog |
| Layout.PlacementIndex | src/app/app.component.ts:181-199 | the new wrapper goes right before the wrapper of the pair where the scan stopped, or at the end |
| Layout.PlaceWrapper | src/app/app.component.ts:195-199 | the new wrapper sits at the scanned index, and no other wrapper is added or lost |
| Layout.AfterRemove | src/app/app.component.ts:303-317 | when the wrapper and the chart both exist, exactly one copy of the pair's wrapper goes and the pair leaves all three dictionaries; otherwise nothing changes |
| Layout.AfterRemoveKeepsCatalogOrder | src/app/app.component.ts:303-317 | removing a chart keeps the remaining wrappers in catalog order |
| Layout.AfterLoadExtends | src/app/app.component.ts:151-199 | `loadChart` only adds: the old wrappers keep their relative order and every pair that had a chart or series keeps the same object |
| Layout.LoadNext | src/app/app.component.ts:77-81 | one step of the `forEach` over the catalog keeps the loop's account: consistent, only grown, new wrappers are selected catalog pairs, every selected pair passed has a wrapper when the host exists, catalog order kept; without the host the layout is unchanged |
| Layout.LoadedAll | src/app/app.component.ts:77-81 | after the whole catalog every selected catalog pair has a wrapper when the host exists, and nothing else is new; without the host nothing changes |
| Layout.AfterLoadConsistent | src/app/app.component.ts:151-271 | `loadChart` keeps at most one wrapper and exactly one chart and two series per wrapped pair. It does nothing when the pair already has a wrapper, and gives a new pair a wrapper exactly when it is selected and the host exists. Other pairs are untouched |
| Layout.AfterLoadCases | src/app/app.component.ts:151-199 | the three guards leave the layout as it was; past them the layout is the placement at the scanned index, and it is consistent |
| Layout.InsertAt | src/app/app.component.ts:195-271 | inserting a new pair's wrapper anywhere, with its chart and two series, keeps the layout consistent and gives no other pair a wrapper |
| Layout.LoadedWrappersElems | src/app/app.component.ts:151-199 | after `loadChart` a pair has a wrapper exactly when it had one before, or it is the loaded pair, selected, with the host present |
| Layout.LoadKeepsCatalogOrder | src/app/app.component.ts:151-199 | `loadChart` of a catalog pair keeps the wrappers in catalog order and made of selected pairs |
| Layout.AfterLoadHandles | src/app/app.component.ts:202-271 | with its three objects numbered from a count above every recorded one, `loadChart` keeps all recorded numbers below the advanced count, and each object it records is none of those recorded before |
| Layout.PlacedHandles | src/app/app.component.ts:202-271 | recording a new pair's chart and two series under the next three numbers adds one wrapper, keeps every number below the count advanced by three, and reuses no recorded object |
| Layout.AfterRemoveHandles | src/app/app.component.ts:303-317 | `removeChart` records no object, so every recorded number stays below the count |
| Layout.AfterRemoveOnlyTouchesPair | src/app/app.component.ts:303-317 | `removeChart` keeps the layout consistent, removes the pair's wrapper and its three entries, and leaves every other pair unchanged |
| Layout.NoWrapperInScanGap | src/app/app.component.ts:184-193 | no wrapper belongs to a catalog pair between the new pair and the scan's stopping point |
| Layout.PlacementSplitsByCatalogPosition | src/app/app.component.ts:181-199 | wrappers before the insertion point are exactly those of pairs earlier in the catalog |
| Layout.PlacementKeepsCatalogOrder | src/app/app.component.ts:181-199 | the wrappers stay in catalog order, given catalog order before, a catalog without duplicates, only selected pairs wrapped, and a new catalog pair |
| Layout.LoadThenRemoveRestores | src/app/app.component.ts:134-148 | selecting a pair that has no wrapper and deselecting it again restores the wrappers and the three dictionaries exactly, whatever other wrappers are present |
| Layout.LoadThenRemoveDropsStale | src/app/app.component.ts:134-148 | a pair with a leftover wrapper is not restored by selecting and deselecting it: the load keeps the old wrapper and the removal takes it away |
| Timestamps.ConvertTimestamp | src/app/components/home/chart/chart.component.ts:298-310 | above `1e10` the result is the whole number of seconds in the milliseconds plus 3600; otherwise the input plus 3600 |
| Timestamps.ConvertSecondsExample | src/app/components/home/chart/chart.component.ts:298-310 | 1700000000 becomes 1700003600 |
| Timestamps.ConvertMillisExample | src/app/components/home/chart/chart.component.ts:298-310 | 1700000000000 becomes 1700003600 |
| Timestamps.ConvertAtThreshold | src/app/components/home/chart/chart.component.ts:302 | exactly `1e10` is read as seconds |
| Timestamps.ConvertSecondsKeepsDifferences | src/app/components/home/chart/chart.component.ts:299-307 | in the seconds range differences are kept |
| Timestamps.ConvertMonotoneWithinRange | src/app/components/home/chart/chart.component.ts:299-307 | within each range the order of two timestamps is kept |
| Timestamps.ConvertNotMonotoneAcrossThreshold | src/app/components/home/chart/chart.component.ts:302-304 | across the threshold the order is reversed for `1e10` and `1e10 + 1` |
| Timestamps.UtcOffsetSeconds | src/app/services/chart-data.service.ts:77-81 | the offset is a multiple of 60, negative exactly when `getTimezoneOffset()` is positive |
| Timestamps.AdjustTimestamp | src/app/app.component.ts:338-347 | moves a timestamp by exactly the services' UTC offset |
| DateFormat.Digits | src/app/app.component.ts:328-335 | the reference rendering: exactly `width` decimal digits that read back as the number |
| DateFormat.NatTextIsDigits | src/app/app.component.ts:331 | a number with `width` digits is rendered, without padding, as exactly those digits |
| DateFormat.Pad2 | src/app/app.component.ts:329 | `('0' + n).slice(-2)` is always two characters, and for a non-negative number they are its last two decimal digits |
| DateFormat.FormatDate | src/app/app.component.ts:328-335 | for any getter values: two characters for each padded field, the year's text at positions 6 onwards, `-`, `-`, space and `:` in their places |
| DateFormat.Pad2Small | src/app/app.component.ts:329 | `('0' + n).slice(-2)` is the two-digit zero-padded rendering of every n from 0 to 99 |
| DateFormat.NatTextValue | src/app/app.component.ts:331 | the decimal text of a number reads back as that number |
| DateFormat.FormatDateShape | src/app/app.component.ts:328-335 | for in-range date fields the text is `dd-mm-yyyy hh:mm`: 16 characters, each field zero-padded, the month being `getMonth() + 1` |
| ChartData.Shifted | src/app/services/chart-data.service.ts:61-64 | same length and order; each time moved by the offset and all other properties kept |
| ChartData.ShiftedTwice | src/app/services/chart-data.service.ts:63 | shifting twice moves by the sum of the offsets |
| ChartData.ShiftedNotIdempotent | src/app/services/chart-data.service.ts:70 | for a non-zero offset, adjusting an adjusted payload changes it again |
| ChartData.ShiftedInverse | src/app/chart-data.service.ts:42-51 | shifting back by the same offset restores the payload |
| ChartData.ShiftedKeepsAscending | src/app/chart-data.service.ts:42-51 | strictly ascending times stay strictly ascending |
| ChartData.AdjustTimestamps | src/app/services/chart-data.service.ts:56-75 | a bare array becomes a new shifted array. A container with a truthy `data` has only that property replaced by its shifted list, and the same container is returned. Any other object fails as `data.map` does |
| ChartData.Deliver | src/app/services/chart-data.service.ts:15-54 | only the bars and prediction getters adjust timestamps; the other getters deliver the response untouched |
| Feeds.ConvertedBars | src/app/components/home/chart/chart.component.ts:130-139 | one bar per row, in order, prices copied and time converted |
| Feeds.ChartBars | src/app/components/home/chart/chart.component.ts:128-142 | bars are set exactly when the response is an array |
| Feeds.ConvertedLine | src/app/components/home/chart/chart.component.ts:155-161 | one point per row, in order, with converted time and the close price |
| Feeds.ChartPredictionLine | src/app/components/home/chart/chart.component.ts:153-167 | the line is set exactly when the response is an array |
| Feeds.ChartMarkerRows | src/app/components/home/chart/chart.component.ts:183-192 | one marker per row, in order: converted time, the value as text, below the bar, a circle, white in dark mode and black otherwise |
| Feeds.ChartMarkers | src/app/components/home/chart/chart.component.ts:181-198 | markers are set exactly for a non-empty array |
| Feeds.ObjectResponsesNeverReachTheChart | src/app/components/home/chart/chart.component.ts:130 | a response in object form sets neither bars nor the line |
| Feeds.ChartBarTimesShiftedTwice | src/app/components/home/chart/chart.component.ts:133 | for a shifted time in the seconds range, a displayed bar's time is its raw time plus the UTC offset plus one hour |
| Feeds.AppBarRows | src/app/app.component.ts:248-257 | one bar per row, in order, with times and prices as delivered |
| Feeds.AppLineRows | src/app/app.component.ts:275-281 | one point per row, in order, with the delivered time and the close price |
| Feeds.AppMarkerRows | src/app/app.component.ts:287-295 | one marker per row: adjusted time, above the bar, white, an arrow down, the value |
| Feeds.AppMarkers | src/app/app.component.ts:286-298 | markers are set exactly for a non-empty array |
| Feeds.AppBarTimesShiftedOnce | src/app/app.component.ts:251 | the app's bars are shifted once, by the UTC offset |
| Feeds.AppMarkersAgreeWithBars | src/app/app.component.ts:290 | an app marker and an app bar with the same raw time are displayed at the same time |
| Persistence.StoredTheme | src/app/app.component.ts:350-358 | the stored theme is `'dark'` or `'light'` |
| Persistence.IsDarkTheme | src/app/components/home/home.component.ts:24-25 | the stored theme reads as dark exactly when it is the value `toggleDarkMode(true)` stores |
| Persistence.ThemeRoundTrip | src/app/components/home/home.component.ts:24-25 | reading back the stored theme gives the dark mode that was stored |
| Dashboard.AppComponent.constructor | src/app/app.component.ts:18-28 | empty catalog, selection and layout; light mode, sidebar visible, data not loaded |
| Dashboard.AppComponent.NgOnInit | src/app/app.component.ts:54-66 | a stored `'dark'` theme turns dark mode on and leaves it as it was otherwise; a stored selection replaces the current one |
| Dashboard.AppComponent.OnChartDumps | src/app/app.component.ts:68-81 | catalog rebuilt, data loaded, selection reconciled. No wrapper is lost, new wrappers belong to selected pairs, and every selected pair has one when the host exists. Existing wrappers keep their relative order, and their pairs keep the same chart and series objects. On a first load, with a catalog without duplicates, the wrappers are in catalog order. Without the host the layout is unchanged |
| Dashboard.AppComponent.OnChartDumpsError | src/app/app.component.ts:97-100 | data is marked not loaded |
| Dashboard.AppComponent.OnConfidence | src/app/app.component.ts:84-94 | a pair's confidence is the value received, `'N/A'` for none, `'Error'` on failure |
| Dashboard.AppComponent.FetchNewData | src/app/app.component.ts:109-131 | catalog rebuilt, confidences and timestamps reset, selection reconciled; wrappers of pairs that left the catalog stay although those pairs are no longer selected. Existing charts are left untouched: the old wrappers keep their relative order, and their pairs keep the same chart and series objects. Without the host the layout is unchanged |
| Dashboard.AppComponent.LoadChartsInCatalogOrder | src/app/app.component.ts:77-81 | every selected catalog pair gets a wrapper when the host exists, and every new wrapper is of a selected catalog pair. The old wrappers keep their relative order, and their pairs keep the same chart and series objects. Catalog order is kept under the placement hypotheses. Without the host nothing changes |
| Dashboard.AppComponent.TogglePairSelection | src/app/app.component.ts:134-148 | the selection is toggled and persisted; the pair's chart is removed or loaded accordingly |
| Dashboard.AppComponent.LoadChart | src/app/app.component.ts:151-271 | the wrappers and dictionaries become exactly the specified placement and stay consistent; three new widget objects are used per new wrapper and none otherwise |
| Dashboard.AppComponent.InsertChart | src/app/app.component.ts:195-271 | the wrapper goes in at the given index and the chart and both series are recorded under the three handles numbered from the running count, which advances by three |
| Dashboard.AppComponent.InsertionPoint | src/app/app.component.ts:181-199 | the scan loop yields the specified insertion index |
| Dashboard.AppComponent.RemoveChart | src/app/app.component.ts:303-317 | the wrappers and dictionaries become exactly the specified removal and stay consistent |
| Dashboard.AppComponent.ToggleDarkMode | src/app/app.component.ts:350-358 | sets the mode and stores `'dark'` or `'light'` |
| Dashboard.AppComponent.ToggleSidebar | src/app/app.component.ts:388-389 | negates sidebar visibility |
| Dashboard.ToggleTwiceRestores | src/app/app.component.ts:134-148 | toggling an unselected pair that has no wrapper twice restores the selection, the wrappers and the dictionaries, whatever other wrappers are present |
| Dashboard.ToggleKeepsCatalogOrder | src/app/app.component.ts:134-148 | the layout `togglePairSelection` produces keeps the wrappers in catalog order and made of selected pairs, for a catalog pair of a catalog without duplicates |
| Home.HomeComponent.constructor | src/app/components/home/home.component.ts:12-15 | empty catalog and selection, light mode, sidebar visible |
| Home.HomeComponent.NgOnInit | src/app/components/home/home.component.ts:22-34 | dark mode is on exactly when `'dark'` is stored; a stored selection replaces the current one |
| Home.HomeComponent.OnChartDumps | src/app/components/home/home.component.ts:37-40 | the catalog is the cleaned dumps, same length and order, letters and digits only; the selection is not reconciled |
| Home.HomeComponent.ToggleDarkMode | src/app/components/home/home.component.ts:47-56 | sets the mode and stores `'dark'` or `'light'` |
| Home.HomeComponent.ToggleSidebar | src/app/components/home/home.component.ts:58-60 | negates sidebar visibility, so two calls restore it |
| Home.HomeComponent.TogglePairSelection | src/app/components/home/home.component.ts:62-70 | the selection is toggled and the new selection persisted |
| ChartView.ChartComponent.constructor | src/app/components/home/chart/chart.component.ts:26-36 | no chart, no series, nothing shown, no inference running |
| ChartView.ChartComponent.InitializeChart | src/app/components/home/chart/chart.component.ts:69-122 | without a container nothing changes; otherwise chart and both series are created |
| ChartView.ChartComponent.OnModelBars | src/app/components/home/chart/chart.component.ts:128-142 | an array response replaces the candle data with its converted bars; anything else leaves it |
| ChartView.ChartComponent.OnPrediction | src/app/components/home/chart/chart.component.ts:153-167 | an array response replaces the line data with its converted points; anything else leaves it |
| ChartView.ChartComponent.OnConfidences | src/app/components/home/chart/chart.component.ts:181-198 | a non-empty array replaces the markers; anything else leaves them |
| ChartView.ChartComponent.OnInference | src/app/components/home/chart/chart.component.ts:263-291 | while running only the dialog reopens and no request is sent; otherwise the flag is set and exactly one request is sent |
| ChartView.ChartComponent.OnInferenceTriggered | src/app/components/home/chart/chart.component.ts:276-284 | the dialog opens and the flag stays set |
| ChartView.ChartComponent.OnInferenceFailed | src/app/components/home/chart/chart.component.ts:285-288 | the flag is cleared |

## Left out

- The log stream (`src/app/services/web-socket.service.ts`) and the execution-log dialog are not part of this model. The first is a browser `WebSocket` client; the second only appends subscription messages.
- Widget calls are not modelled: `createChart`, `addCandlestickSeries`, `addLineSeries`, `setData`, `setMarkers`, `applyOptions`, `resize`, `remove` and the price formatter. They belong to a foreign library, so its objects are `Handle`s and a series' content is the last data handed to it.
- Renderer2 element creation, CSS classes, `addOverlayElements`, `ResizeObserver`, `HostListener`, `debounceTime(100)`, `adjustChartSizes` and the `setTimeout` in `toggleSidebar` are not modelled: they are UI and timing plumbing.
- Dashboard.AppComponent.ToggleDarkMode: does not model restyling the existing charts, because that only calls the widget library.
- HTTP and rxjs subscriptions are not modelled. Each response reaches the model as a callback method (`OnChartDumps`, `OnConfidence`, `OnModelBars`, ...); logging is dropped.
- The `getConfidence` requests `ngOnInit` issues per pair are left out. Their answers are `OnConfidence`.
- `new Date()`, `getTimezoneOffset()` and the `Date` getters are parameters; time zones are not modelled.
- JSON encoding and decoding of the stored selection is abstracted: the stored value is the list itself. A stored value that is not a list of strings is not modelled.
- The app's own bar, line and marker callbacks inside `loadChart` are modelled only as the projections in `Feeds`. The class does not record what the app's series show.
- JavaScript number formatting is not modelled for marker values: `value.toString()` is taken as a string. Date fields are integers rendered by `NumberText`, so the `NaN` getters of an invalid `Date` (text `NaN-NaN-NaN NaN:NaN`) are not modelled.
- DateFormat.FormatDateShape: states the text only for fields in the ranges the `Date` getters produce with a four-digit year.
- Layout.PlacementKeepsCatalogOrder: requires a catalog without duplicates. Two dumps that clean to the same name make `indexOf` ambiguous, and the source does not prevent that.
- `ChartComponent`'s `pair` and `isDarkMode` are Angular `@Input`s that the parent may rebind. The model fixes both when the component is built, so a rebinding between a request and its answer is not captured. The source reads `isDarkMode` when the confidences arrive, for the marker colour.
- `ChartComponent.runInference` calls `triggerInference` on `ChartDataService` (src/app/components/home/chart/chart.component.ts:275), but neither copy of that service defines it. The model treats the request as an opaque call that succeeds or fails.
- Dashboard.AppComponent.TogglePairSelection: its contract gives the exact new layout (`AfterRemove` or `AfterLoad`); that this layout stays in catalog order is stated about those functions by `Dashboard.ToggleKeepsCatalogOrder`, not as a clause of the method.
- ChartData.AdjustTimestamps: a `null` response, a truthy `data` that is not an array (where `data.map` throws), and an array element without a numeric `time` are not modelled.
- Dashboard.AppComponent.InsertChart: its contract gives the handles as numbered from the running count, but the class invariant `Valid` holds consistency only and does not carry that every recorded handle is below the count. Freshness is stated over the layout functions the methods are proved against (`Layout.AfterLoadHandles`, `Layout.AfterRemoveHandles`).
- Writing the reconciled selection back to `localStorage` is absent, as in the source (src/app/app.component.ts:74 and 118). `OnChartDumps` and `FetchNewData` have no `store` in their frames, so the stored list may still name pairs that left the catalog; no contract says what a later `ngOnInit` then restores.
- Authentication, login, password reset, routing, the header and sidebar components and the static file server are not part of this model: they are UI over HTTP or configuration.
