/** `HomeComponent` (src/app/components/home/home.component.ts): the same selection
    and theme bookkeeping as the dashboard root, without charts and without
    reconciling the stored selection against the catalog. */
module Home {
  import opened Wrappers
  import opened Seqs
  import opened PairNames
  import opened Selection
  import opened Persistence

  class HomeComponent {
    var pairs: seq<Pair>
    var isDarkMode: bool
    var isSidebarVisible: bool
    var selectedPairs: seq<Pair>
    const store: Storage

    constructor (store: Storage)
      ensures this.store == store
      ensures pairs == [] && !isDarkMode && isSidebarVisible && selectedPairs == []
    {
      this.store := store;
      pairs := [];
      isDarkMode := false;
      isSidebarVisible := true;
      selectedPairs := [];
    }

    /** The synchronous part of `ngOnInit`: dark mode is on exactly when `'dark'` is
        stored (here any other value switches it off), and a stored selection replaces
        the current one. */
    method NgOnInit()
      modifies this`isDarkMode, this`selectedPairs
      ensures isDarkMode == IsDarkTheme(store.theme)
      ensures selectedPairs == if store.selectedPairs.Some? then store.selectedPairs.value else old(selectedPairs)
    {
      isDarkMode := store.theme == Some("dark");
      var savedPairs := store.selectedPairs;
      if savedPairs.Some? {
        selectedPairs := savedPairs.value;
      }
    }

    /** The success callback of `getChartDumps()`: the catalog is replaced and the
        selection left as it is, even where it names pairs no longer offered. */
    method OnChartDumps(dumps: seq<Option<string>>)
      modifies this`pairs
      ensures pairs == Catalog(dumps)
      ensures |pairs| == |dumps| && forall i :: 0 <= i < |pairs| ==> AllAlnum(pairs[i])
    {
      pairs := Catalog(dumps);
      forall i | 0 <= i < |pairs|
        ensures AllAlnum(pairs[i])
      {
        CatalogEntriesClean(dumps, i);
      }
    }

    /** `toggleDarkMode(isDark)`. */
    method ToggleDarkMode(isDark: bool)
      modifies this`isDarkMode, store`theme
      ensures isDarkMode == isDark && store.theme == Some(StoredTheme(isDark))
    {
      isDarkMode := isDark;
      if isDarkMode {
        store.theme := Some("dark");
      } else {
        store.theme := Some("light");
      }
    }

    /** `toggleSidebar()`. */
    method ToggleSidebar()
      modifies this`isSidebarVisible
      ensures isSidebarVisible == !old(isSidebarVisible)
    {
      isSidebarVisible := !isSidebarVisible;
    }

    /** `togglePairSelection(pair)`: toggled and persisted. */
    method TogglePairSelection(pair: Pair)
      modifies this`selectedPairs, store`selectedPairs
      ensures selectedPairs == Toggled(old(selectedPairs), pair)
      ensures store.selectedPairs == Some(selectedPairs)
    {
      var index := IndexOf(selectedPairs, pair);
      if index > -1 {
        selectedPairs := RemoveAt(selectedPairs, index);
      } else {
        selectedPairs := selectedPairs + [pair];
      }
      store.selectedPairs := Some(selectedPairs);
    }
  }
}
