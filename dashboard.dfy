/** `AppComponent` (src/app/app.component.ts): the selection, the catalog, and the
    chart wrappers and widget objects of the dashboard. The DOM is reduced to whether
    `.main-content` exists and the order of its wrappers; the widget library's objects
    are `Handle`s numbered in creation order. */
module Dashboard {
  import opened Wrappers
  import opened Seqs
  import opened Widget
  import opened PairNames
  import opened Selection
  import opened Layout
  import opened Persistence

  class AppComponent {
    var pairs: seq<Pair>
    var selectedPairs: seq<Pair>
    var confidences: map<Pair, string>
    var lastTimestamps: map<Pair, string>
    var isDarkMode: bool
    var isSidebarVisible: bool
    var dataLoaded: bool
    /** Whether `document.querySelector('.main-content')` finds the host element. */
    const hasMainContent: bool
    /** The pairs of the `.chart-wrapper` elements inside `.main-content`, in order. */
    var wrappers: seq<Pair>
    var charts: map<Pair, Handle>
    var candleSeriesMap: map<Pair, Handle>
    var lineSeriesMap: map<Pair, Handle>
    /** The identity the widget library gives the next object it creates. */
    var nextHandle: nat
    const store: Storage

    function Layout(): Charts<Pair>
      reads this`wrappers, this`charts, this`candleSeriesMap, this`lineSeriesMap
    {
      Charts(wrappers, charts, candleSeriesMap, lineSeriesMap)
    }

    ghost predicate Valid()
      reads this`wrappers, this`charts, this`candleSeriesMap, this`lineSeriesMap
    {
      Consistent(Layout())
    }

    constructor (store: Storage, hasMainContent: bool)
      ensures Valid()
      ensures this.store == store && this.hasMainContent == hasMainContent
      ensures pairs == [] && selectedPairs == [] && wrappers == [] && charts == map[]
      ensures !isDarkMode && isSidebarVisible && !dataLoaded
    {
      this.store := store;
      this.hasMainContent := hasMainContent;
      pairs, selectedPairs := [], [];
      confidences, lastTimestamps := map[], map[];
      isDarkMode, isSidebarVisible, dataLoaded := false, true, false;
      wrappers := [];
      charts, candleSeriesMap, lineSeriesMap := map[], map[], map[];
      nextHandle := 0;
    }

    /** The synchronous part of `ngOnInit`: a stored `'dark'` theme switches dark mode
        on (any other value leaves it as it is) and a stored selection replaces the
        current one. The `/dumps` request is answered by `OnChartDumps`. */
    method NgOnInit()
      modifies this`isDarkMode, this`selectedPairs
      ensures isDarkMode == (IsDarkTheme(store.theme) || old(isDarkMode))
      ensures selectedPairs == if store.selectedPairs.Some? then store.selectedPairs.value else old(selectedPairs)
    {
      if store.theme == Some("dark") {
        isDarkMode := true;
      }
      var savedPairs := store.selectedPairs;
      if savedPairs.Some? {
        selectedPairs := savedPairs.value;
      }
    }

    /** The success callback of `getChartDumps()` in `ngOnInit`: the catalog is
        rebuilt, the selection reconciled with it, and the selected pairs' charts
        loaded in catalog order. */
    method OnChartDumps(dumps: seq<Option<string>>)
      requires Valid()
      modifies this`pairs, this`dataLoaded, this`selectedPairs
      modifies this`wrappers, this`charts, this`candleSeriesMap, this`lineSeriesMap, this`nextHandle
      ensures Valid()
      ensures pairs == Catalog(dumps) && dataLoaded
      ensures selectedPairs == Reconciled(old(selectedPairs), pairs)
      ensures forall p :: p in old(wrappers) ==> p in wrappers
      ensures forall p :: p in wrappers ==> p in old(wrappers) || p in selectedPairs
      ensures hasMainContent ==> forall p :: p in selectedPairs ==> p in wrappers
      ensures old(wrappers) == [] && NoDup(pairs) ==> InCatalogOrder(wrappers, pairs)
      ensures Extends(old(Layout()), Layout())
      ensures !hasMainContent ==> Layout() == old(Layout())
    {
      pairs := Catalog(dumps);
      dataLoaded := true;
      selectedPairs := Reconciled(selectedPairs, pairs);
      ghost var firstLoad := wrappers == [];
      LoadChartsInCatalogOrder();
      assert firstLoad && NoDup(pairs) ==> InCatalogOrder(wrappers, pairs);
    }

    /** The error callback of `getChartDumps()` in `ngOnInit`. */
    method OnChartDumpsError()
      modifies this`dataLoaded
      ensures !dataLoaded
    {
      dataLoaded := false;
    }

    /** The callbacks of `getConfidence(pair)`: the value, `'N/A'` for `null` or
        `undefined`, or `'Error'` when the request failed. */
    method OnConfidence(pair: Pair, confidence: Result<Option<string>, string>)
      modifies this`confidences
      ensures confidences == old(confidences)[pair := match confidence
        case Success(Some(v)) => v
        case Success(None) => "N/A"
        case Failure(_) => "Error"]
    {
      match confidence
      case Success(value) =>
        confidences := confidences[pair := if value.Some? then value.value else "N/A"];
      case Failure(_) =>
        confidences := confidences[pair := "Error"];
    }

    /** The success callback of `getChartDumps()` in `fetchNewData`. Wrappers of pairs
        dropped from the selection are not removed. */
    method FetchNewData(dumps: seq<Option<string>>)
      requires Valid()
      modifies this`pairs, this`confidences, this`lastTimestamps, this`selectedPairs
      modifies this`wrappers, this`charts, this`candleSeriesMap, this`lineSeriesMap, this`nextHandle
      ensures Valid()
      ensures pairs == Catalog(dumps) && confidences == map[] && lastTimestamps == map[]
      ensures selectedPairs == Reconciled(old(selectedPairs), pairs)
      ensures forall p :: p in old(wrappers) ==> p in wrappers && (p !in pairs ==> p !in selectedPairs)
      ensures forall p :: p in wrappers ==> p in old(wrappers) || p in selectedPairs
      ensures hasMainContent ==> forall p :: p in selectedPairs ==> p in wrappers
      ensures Extends(old(Layout()), Layout())
      ensures !hasMainContent ==> Layout() == old(Layout())
    {
      pairs := Catalog(dumps);
      confidences := map[];
      lastTimestamps := map[];
      selectedPairs := Reconciled(selectedPairs, pairs);
      LoadChartsInCatalogOrder();
    }

    /** `pairs.forEach(pair => { if (selectedPairs.includes(pair)) loadChart(pair); })`.
        Every selected catalog pair ends up with a wrapper when the host exists; no
        wrapper is removed; catalog order is kept when it held before, the catalog has
        no duplicates and every wrapper belongs to a selected pair; pairs that already
        had a wrapper keep it, in the same relative order, with the same widget objects.
        Without the host every `loadChart` returns at once and nothing changes. */
    method LoadChartsInCatalogOrder()
      requires Valid()
      modifies this`wrappers, this`charts, this`candleSeriesMap, this`lineSeriesMap, this`nextHandle
      ensures Valid()
      ensures forall p :: p in old(wrappers) ==> p in wrappers
      ensures forall p :: p in wrappers ==> p in old(wrappers) || (p in pairs && p in selectedPairs)
      ensures hasMainContent ==> forall p :: p in pairs && p in selectedPairs ==> p in wrappers
      ensures NoDup(pairs) && old(InCatalogOrder(wrappers, pairs)) && (forall p :: p in old(wrappers) ==> p in selectedPairs)
              ==> InCatalogOrder(wrappers, pairs)
      ensures Extends(old(Layout()), Layout())
      ensures !hasMainContent ==> Layout() == old(Layout())
    {
      ghost var start := Layout();
      LoadedUpToStart(start, pairs, selectedPairs, hasMainContent);
      for i := 0 to |pairs|
        invariant LoadedUpTo(start, Layout(), pairs, selectedPairs, hasMainContent, i)
      {
        var pair := pairs[i];
        LoadNext(start, Layout(), pairs, selectedPairs, hasMainContent, i,
                 Handle(nextHandle), Handle(nextHandle + 1), Handle(nextHandle + 2));
        if pair in selectedPairs {
          LoadChart(pair);
        }
      }
      LoadedAll(start, Layout(), pairs, selectedPairs, hasMainContent);
    }

    /** `togglePairSelection(pair)`: the selection is toggled, the pair's chart removed
        or loaded, and the new selection persisted. */
    method TogglePairSelection(pair: Pair)
      requires Valid()
      modifies this`selectedPairs, store`selectedPairs
      modifies this`wrappers, this`charts, this`candleSeriesMap, this`lineSeriesMap, this`nextHandle
      ensures Valid()
      ensures selectedPairs == Toggled(old(selectedPairs), pair)
      ensures store.selectedPairs == Some(selectedPairs)
      ensures pair in old(selectedPairs) ==> Layout() == AfterRemove(old(Layout()), pair)
      ensures pair !in old(selectedPairs) ==>
        Layout() == AfterLoad(old(Layout()), pair, pairs, selectedPairs, hasMainContent,
                              Handle(old(nextHandle)), Handle(old(nextHandle) + 1), Handle(old(nextHandle) + 2))
    {
      var index := IndexOf(selectedPairs, pair);
      if index > -1 {
        selectedPairs := RemoveAt(selectedPairs, index);
        RemoveChart(pair);
      } else {
        selectedPairs := selectedPairs + [pair];
        LoadChart(pair);
      }
      ghost var shown := Layout();
      store.selectedPairs := Some(selectedPairs);
      assert Layout() == shown;
    }

    /** `loadChart(pair)`: unless the pair is unselected, the host is missing or the
        pair already has a wrapper, a wrapper is inserted where the scan over later
        catalog pairs says, and a chart with its two series is created. */
    method LoadChart(pair: Pair)
      requires Valid()
      modifies this`wrappers, this`charts, this`candleSeriesMap, this`lineSeriesMap, this`nextHandle
      ensures Valid()
      ensures Layout() == AfterLoad(old(Layout()), pair, pairs, selectedPairs, hasMainContent,
                                    Handle(old(nextHandle)), Handle(old(nextHandle) + 1), Handle(old(nextHandle) + 2))
      ensures wrappers == LoadedWrappers(old(wrappers), pair, pairs, selectedPairs, hasMainContent)
      ensures nextHandle == old(nextHandle) + 3 * (|wrappers| - |old(wrappers)|)
    {
      ghost var before := Layout();
      AfterLoadCases(before, pair, pairs, selectedPairs, hasMainContent,
                     Handle(nextHandle), Handle(nextHandle + 1), Handle(nextHandle + 2));
      if pair !in selectedPairs {
        return;
      }
      if !hasMainContent {
        return;
      }
      if pair in wrappers {
        return;
      }
      var at := InsertionPoint(pair);
      InsertChart(pair, at);
      assert Layout() == AfterLoad(before, pair, pairs, selectedPairs, hasMainContent,
                                   Handle(old(nextHandle)), Handle(old(nextHandle) + 1), Handle(old(nextHandle) + 2));
    }

    /** The part of `loadChart` past its guards and its scan: the wrapper goes in at
        index `at`, and the chart with its two series is recorded under the next three
        handles. */
    method InsertChart(pair: Pair, at: nat)
      requires at <= |wrappers|
      modifies this`wrappers, this`charts, this`candleSeriesMap, this`lineSeriesMap, this`nextHandle
      ensures Layout() == Placed(old(Layout()), pair, at,
                                 Handle(old(nextHandle)), Handle(old(nextHandle) + 1), Handle(old(nextHandle) + 2))
      ensures nextHandle == old(nextHandle) + 3
    {
      var placed := Placed(Layout(), pair, at, Handle(nextHandle), Handle(nextHandle + 1), Handle(nextHandle + 2));
      wrappers, charts, candleSeriesMap, lineSeriesMap := placed.wrappers, placed.charts, placed.candles, placed.lines;
      nextHandle := nextHandle + 3;
      assert Layout() == placed;
    }

    /** The scan inside `loadChart`: from the position after `pairs.indexOf(pair)`,
        the first catalog pair that is selected and has a wrapper; the new wrapper goes
        before that one, or at the end when there is none. */
    method InsertionPoint(pair: Pair) returns (at: nat)
      ensures at == PlacementIndex(wrappers, pair, pairs, selectedPairs)
    {
      var pairIndex := IndexOf(pairs, pair);
      var insertBefore: Option<nat> := None;
      var i := pairIndex + 1;
      while i < |pairs|
        invariant pairIndex + 1 <= i <= |pairs|
        invariant insertBefore == None
        invariant forall j :: pairIndex + 1 <= j < i ==> !Eligible(pairs[j], selectedPairs, wrappers)
      {
        var nextPair := pairs[i];
        if nextPair in selectedPairs {
          if nextPair in wrappers {
            insertBefore := Some(IndexOf(wrappers, nextPair));
            break;
          }
        }
        i := i + 1;
      }
      assert i == FirstEligible(pairs, selectedPairs, wrappers, ScanStart(pairs, pair));
      at := if insertBefore.Some? then insertBefore.value else |wrappers|;
    }

    /** `removeChart(pair)`. */
    method RemoveChart(pair: Pair)
      requires Valid()
      modifies this`wrappers, this`charts, this`candleSeriesMap, this`lineSeriesMap
      ensures Valid()
      ensures Layout() == AfterRemove(old(Layout()), pair)
    {
      ghost var c := Layout();
      AfterRemoveConsistent(c, pair);
      if pair in wrappers && pair in charts {
        charts := charts - {pair};
        candleSeriesMap := candleSeriesMap - {pair};
        lineSeriesMap := lineSeriesMap - {pair};
        wrappers := RemoveFirst(wrappers, pair);
        assert Layout() == AfterRemove(c, pair);
      }
    }

    /** `toggleDarkMode(isDark)`; restyling the existing charts is widget work. */
    method ToggleDarkMode(isDark: bool)
      modifies this`isDarkMode, store`theme
      ensures isDarkMode == isDark && store.theme == Some(StoredTheme(isDark))
    {
      isDarkMode := isDark;
      if isDarkMode {
        store.theme := Some("dark");
      } else {
        store.theme := Some("light");
      }
    }

    /** `toggleSidebar()`; the delayed resize is widget work. */
    method ToggleSidebar()
      modifies this`isSidebarVisible
      ensures isSidebarVisible == !old(isSidebarVisible)
    {
      isSidebarVisible := !isSidebarVisible;
    }
  }

  /** Toggling an unselected pair twice, as `togglePairSelection` does it, leaves the
      selection, the wrappers and the three dictionaries exactly as they were, provided
      the pair had no wrapper left over from an earlier selection. */
  lemma ToggleTwiceRestores(c: Charts<Pair>, selected: seq<Pair>, pair: Pair, pairs: seq<Pair>, hasHost: bool,
                            chart: Handle, candle: Handle, line: Handle)
    requires Consistent(c)
    requires pair !in c.wrappers
    requires pair !in selected
    ensures var once := Toggled(selected, pair);
      && pair in once
      && Toggled(once, pair) == selected
      && AfterRemove(AfterLoad(c, pair, pairs, once, hasHost, chart, candle, line), pair) == c
  {
    ToggleAbsentTwice(selected, pair);
    LoadThenRemoveRestores(c, pair, pairs, selected, hasHost, chart, candle, line);
  }

  /** The layout `TogglePairSelection` produces (its `ensures` give it as `AfterRemove`
      or `AfterLoad`) keeps the wrappers in catalog order and made of selected pairs,
      for a catalog pair of a catalog without duplicates. */
  lemma ToggleKeepsCatalogOrder(c: Charts<Pair>, selected: seq<Pair>, pair: Pair, pairs: seq<Pair>, hasHost: bool,
                                chart: Handle, candle: Handle, line: Handle)
    requires Consistent(c) && NoDup(pairs) && pair in pairs
    requires Arranged(c.wrappers, selected, pairs)
    ensures var once := Toggled(selected, pair);
      var c' := if pair in selected then AfterRemove(c, pair)
                else AfterLoad(c, pair, pairs, once, hasHost, chart, candle, line);
      Arranged(c'.wrappers, once, pairs)
  {
    if pair in selected {
      DeselectKeepsCatalogOrder(c, selected, pair, pairs);
    } else {
      SelectKeepsCatalogOrder(c, selected, pair, pairs, hasHost, chart, candle, line);
    }
  }

  /** Deselecting: `removeChart` leaves an arranged layout arranged for the shorter selection. */
  lemma DeselectKeepsCatalogOrder(c: Charts<Pair>, selected: seq<Pair>, pair: Pair, pairs: seq<Pair>)
    requires Consistent(c) && pair in selected
    requires Arranged(c.wrappers, selected, pairs)
    ensures Arranged(AfterRemove(c, pair).wrappers, Toggled(selected, pair), pairs)
  {
    var once := Toggled(selected, pair);
    AfterRemoveKeepsCatalogOrder(c, pair, pairs);
    AfterRemoveOnlyTouchesPair(c, pair);
    forall p | p in AfterRemove(c, pair).wrappers ensures p in once {
      assert p in multiset(selected) && p != pair;
    }
  }

  /** Selecting: `loadChart` leaves an arranged layout arranged for the longer selection. */
  lemma SelectKeepsCatalogOrder(c: Charts<Pair>, selected: seq<Pair>, pair: Pair, pairs: seq<Pair>, hasHost: bool,
                                chart: Handle, candle: Handle, line: Handle)
    requires Consistent(c) && NoDup(pairs) && pair in pairs && pair !in selected
    requires Arranged(c.wrappers, selected, pairs)
    ensures var once := Toggled(selected, pair);
      Arranged(AfterLoad(c, pair, pairs, once, hasHost, chart, candle, line).wrappers, once, pairs)
  {
    var once := Toggled(selected, pair);
    LoadKeepsCatalogOrder(c.wrappers, pair, pairs, once, hasHost);
    AfterLoadCases(c, pair, pairs, once, hasHost, chart, candle, line);
  }
}
